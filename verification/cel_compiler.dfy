// Model of packages/model-option-map/src/compiler.ts and option-maps.ts: compilation with caches, the static check that
// an option map is an object, and the application of both option maps to a request body.

module CelCompiler {
  import opened Options
  import opened CelTokenizer
  import opened CelParser
  import opened CelSourceText
  import opened JsonValues
  import opened CelEvaluator
  import MergePatch

  // -- What compilation computes --

  predicate AllSpace(s: Text) {
    forall i | 0 <= i < |s| :: IsSpace(s[i])
  }

  function TrimStart(s: Text): (r: Text)
    ensures r != [] ==> !IsSpace(r[0])
    ensures |r| <= |s| && r == s[|s| - |r|..] && AllSpace(s[..|s| - |r|])
  {
    if s != [] && IsSpace(s[0]) then TrimStart(s[1..]) else s
  }

  function TrimEnd(s: Text): (r: Text)
    ensures r != [] ==> !IsSpace(r[|r| - 1])
    ensures |r| <= |s| && r == s[..|r|] && AllSpace(s[|r|..])
  {
    if s != [] && IsSpace(s[|s| - 1]) then TrimEnd(s[..|s| - 1]) else s
  }

  // Drops white space from both ends and nothing else.
  function Trim(s: Text): Text {
    TrimEnd(TrimStart(s))
  }

  lemma {:induction false} TrimDropsOnlySpace(s: Text) returns (lead: Text, trail: Text)
    ensures s == lead + Trim(s) + trail && AllSpace(lead) && AllSpace(trail)
    ensures Trim(s) != [] ==> !IsSpace(Trim(s)[0]) && !IsSpace(Trim(s)[|Trim(s)| - 1])
  {
    hide IsSpace, AllSpace, TrimStart, TrimEnd;
    var t := TrimStart(s);
    var r := TrimEnd(t);
    lead, trail := s[..|s| - |t|], t[|r|..];
    ThreeParts(s, t, r);
    assert r != [] ==> r[0] == t[0];
  }

  lemma {:induction false} ThreeParts(s: Text, t: Text, r: Text)
    requires |t| <= |s| && t == s[|s| - |t|..] && |r| <= |t| && r == t[..|r|]
    ensures s == s[..|s| - |t|] + r + t[|r|..]
  {
    assert t == r + t[|r|..];
  }

  datatype Program = Program(source: Text, expression: Expr)

  function CompileProgram(source: Text, variable: Text, numberOf: Text -> Num): Result<Program> {
    var trimmed := Trim(source);
    if trimmed == [] then Err(EmptyExpression)
    else match ParseSource(trimmed, variable, numberOf)
         case Err(e) => Err(e)
         case Ok(expression) => Ok(Program(trimmed, expression))
  }

  // The static check: an object literal, or a conditional both of whose branches pass.
  predicate ObjectResult(e: Expr) {
    e.Object? || (e.Conditional? && ObjectResult(e.whenTrue) && ObjectResult(e.whenFalse))
  }

  function CompileOptionMap(source: Text, variable: Text, numberOf: Text -> Num): Result<Program> {
    match CompileProgram(source, variable, numberOf)
    case Err(e) => Err(e)
    case Ok(program) => if ObjectResult(program.expression) then Ok(program) else Err(NotAnObject)
  }

  // An option map checks again at run time that the value is an object.
  function RunOptionMap(p: Platform, program: Program, input: Json): Result<Json> {
    match Run(p, program.expression, input)
    case Err(e) => Err(e)
    case Ok(value) => if value.JObj? then Ok(value) else Err(NotAnObject)
  }

  // -- Soundness of compiled option maps --

  lemma {:induction false} ObjectsComeOut(p: Platform, e: Expr, input: Json)
    requires ObjectResult(e) && Evaluate(p, e, input).Ok?
    ensures Evaluate(p, e, input).value.JObj?
  {
    match e
    case Object(_) =>
    case Conditional(c, x, y) =>
      if Evaluate(p, c, input).value == JBool(true) {
        ObjectsComeOut(p, x, input);
      } else {
        ObjectsComeOut(p, y, input);
      }
  }

  // A compiled option map gives an object all of whose numbers are JSON-safe, or one of the errors of its operands or
  // its input; it meets neither the run-time object check nor the branch for an unsupported operator.
  lemma {:induction false} CompiledMapsAreSafe(p: Platform, source: Text, variable: Text, numberOf: Text -> Num,
                                               input: Json)
    requires CompileOptionMap(source, variable, numberOf).Ok?
    ensures var program := CompileOptionMap(source, variable, numberOf).value;
            match RunOptionMap(p, program, input)
            case Ok(value) => value.JObj? && SafeJson(value)
            case Err(error) => Runtime(error) || (error == InvalidInput && !input.JStr? && !input.JNum?)
  {
    hide Trim, JsonSafe, Evaluate, Buildable, Parse, Tokens;
    var e := CompileOptionMap(source, variable, numberOf).value.expression;
    var tokens := Tokens(Trim(source), 0).value;
    ParserBuildsOnlyBuildable(Task(tokens, variable, numberOf));
    if SafeJson(input) {
      EvaluationIsSafe(p, e, input);
      if Evaluate(p, e, input).Ok? {
        ObjectsComeOut(p, e, input);
      }
    }
  }

  // -- Caches --

  const NUL: CodeUnit := 0

  function CacheKey(source: Text, variable: Text): Text {
    variable + [NUL] + source
  }

  // Names do not contain the separator, so different pairs have different keys, whatever the sources contain.
  lemma {:induction false} CacheKeyIsInjective(s1: Text, v1: Text, s2: Text, v2: Text)
    requires NUL !in v1 && NUL !in v2 && CacheKey(s1, v1) == CacheKey(s2, v2)
    ensures s1 == s2 && v1 == v2
  {
    var k := CacheKey(s1, v1);
    assert k[|v1|] == NUL && k[|v2|] == NUL;
    assert forall i | 0 <= i < |v1| :: k[i] == v1[i];
    assert forall i | 0 <= i < |v2| :: k[i] == v2[i];
    assert |v1| == |v2|;
    assert v1 == k[..|v1|] && s1 == k[|v1| + 1..];
    assert v2 == k[..|v2|] && s2 == k[|v2| + 1..];
  }

  class Compiler {
    const numberOf: Text -> Num
    var programs: map<Text, Program>
    var optionMaps: map<Text, Program>
    var expressions: map<Text, Expr>

    // Every cached value is what compiling its source anew would give.
    ghost predicate Valid()
      reads this
    {
      forall s, v | NUL !in v ::
        var key := CacheKey(s, v);
        && (key in expressions ==> ParseSource(s, v, numberOf) == Ok(expressions[key]))
        && (key in programs && Trim(s) == s ==> CompileProgram(s, v, numberOf) == Ok(programs[key]))
        && (key in optionMaps && Trim(s) == s ==> CompileOptionMap(s, v, numberOf) == Ok(optionMaps[key]))
    }

    constructor (numberOf: Text -> Num)
      ensures Valid() && this.numberOf == numberOf
    {
      hide ParseSource, CompileProgram, CompileOptionMap, Trim, CacheKey;
      this.numberOf := numberOf;
      programs, optionMaps, expressions := map[], map[], map[];
    }

    method ParseExpression(source: Text, variable: Text) returns (r: Result<Expr>)
      requires Valid() && NUL !in variable
      modifies this`expressions
      ensures Valid() && r == ParseSource(source, variable, numberOf)
    {
      hide ParseSource, CompileProgram, CompileOptionMap, Trim, CacheKey;
      var key := CacheKey(source, variable);
      if key in expressions {
        return Ok(expressions[key]);
      }
      r := CompileExpression(source, variable, numberOf);
      if r.Ok? {
        OneKey(source, variable);
        expressions := expressions[key := r.value];
      }
    }

    static lemma OneKey(source: Text, variable: Text)
      requires NUL !in variable
      ensures forall s, v | NUL !in v && CacheKey(s, v) == CacheKey(source, variable) :: s == source && v == variable
    {
      forall s, v | NUL !in v && CacheKey(s, v) == CacheKey(source, variable)
        ensures s == source && v == variable
      {
        CacheKeyIsInjective(s, v, source, variable);
      }
    }

    static lemma TrimmedTwice(s: Text)
      ensures Trim(Trim(s)) == Trim(s)
    {
    }

    method CompileRestrictedCel(source: Text, variable: Text) returns (r: Result<Program>)
      requires Valid() && NUL !in variable
      modifies this`expressions, this`programs
      ensures Valid() && r == CompileProgram(source, variable, numberOf)
    {
      hide ParseSource, CompileOptionMap, Trim, CacheKey;
      TrimmedTwice(source);
      var trimmed := Trim(source);
      if trimmed == [] {
        return Err(EmptyExpression);
      }
      var key := CacheKey(trimmed, variable);
      if key in programs {
        return Ok(programs[key]);
      }
      var expression := ParseExpression(trimmed, variable);
      if expression.Err? {
        return Err(expression.error);
      }
      OneKey(trimmed, variable);
      r := Ok(Program(trimmed, expression.value));
      programs := programs[key := r.value];
    }

    method CompileModelOptionMap(source: Text, variable: Text) returns (r: Result<Program>)
      requires Valid() && NUL !in variable
      modifies this`expressions, this`optionMaps
      ensures Valid() && r == CompileOptionMap(source, variable, numberOf)
    {
      hide ParseSource, Trim, CacheKey, ObjectResult;
      TrimmedTwice(source);
      var trimmed := Trim(source);
      if trimmed == [] {
        return Err(EmptyExpression);
      }
      var key := CacheKey(trimmed, variable);
      if key in optionMaps {
        return Ok(optionMaps[key]);
      }
      var expression := ParseExpression(trimmed, variable);
      if expression.Err? {
        return Err(expression.error);
      }
      if !ObjectResult(expression.value) {
        return Err(NotAnObject);
      }
      OneKey(trimmed, variable);
      r := Ok(Program(trimmed, expression.value));
      optionMaps := optionMaps[key := r.value];
    }
  }

  // -- Applying the two option maps --

  datatype Application =
    | Body(fields: Fields)
    | LevelMissing
    | Failed(error: CelError)
    | Conflicting(path: MergePatch.Path)

  const REASONING_LEVEL: Text := [Unit('r'), Unit('e'), Unit('a'), Unit('s'), Unit('o'), Unit('n'), Unit('i'),
                                  Unit('n'), Unit('g'), Unit('L'), Unit('e'), Unit('v'), Unit('e'), Unit('l')]
  const MAX_OUTPUT_TOKENS: Text := [Unit('m'), Unit('a'), Unit('x'), Unit('O'), Unit('u'), Unit('t'), Unit('p'),
                                    Unit('u'), Unit('t'), Unit('T'), Unit('o'), Unit('k'), Unit('e'), Unit('n'),
                                    Unit('s')]

  lemma {:induction false} TwoPatches(body: Fields, a: MergePatch.Patch, b: MergePatch.Patch)
    ensures MergePatch.Accepted([a, b]) <==> !MergePatch.Clash(a, b)
    ensures MergePatch.MergeAll(body, [a, b]) == MergePatch.Merge(MergePatch.Merge(body, a), b)
  {
    hide MergePatch.Merge, MergePatch.Clash;
    assert [a, b] == [a] + [b] && [b] == [b] + [];
    MergePatch.Consed(body, a, [b]);
    MergePatch.Consed(MergePatch.Merge(body, a), b, []);
  }

  // Applies both maps to a body. The body is that of either order of the maps, and they conflict in both or in neither.
  method ApplyOptions(p: Platform, level: Program, tokens: Program, body: Fields, levelValue: Option<Text>,
                      tokensValue: Num)
    returns (r: Application)
    ensures r.LevelMissing? <==> levelValue.None?
    ensures levelValue.Some? ==>
      var a, b := RunOptionMap(p, level, JStr(levelValue.value)), RunOptionMap(p, tokens, JNum(tokensValue));
      && (a.Err? ==> r == Failed(a.error))
      && (a.Ok? && b.Err? ==> r == Failed(b.error))
      && (a.Ok? && b.Ok? ==>
            && a.value.JObj? && b.value.JObj?
            && (r.Conflicting? <==> MergePatch.Clash(a.value, b.value))
            && (!r.Conflicting? ==>
                  r == Body(MergePatch.Merge(MergePatch.Merge(body, a.value), b.value))
                    == Body(MergePatch.Merge(MergePatch.Merge(body, b.value), a.value))))
  {
    hide MergePatch.Merge, MergePatch.Clash, Run, MergePatch.ConflictIsReal, MergePatch.MergeAll, MergePatch.Accepted;
    if levelValue.None? {
      return LevelMissing;
    }
    var a := RunOptionMap(p, level, JStr(levelValue.value));
    if a.Err? {
      return Failed(a.error);
    }
    var b := RunOptionMap(p, tokens, JNum(tokensValue));
    if b.Err? {
      return Failed(b.error);
    }
    var first: MergePatch.Patch, second: MergePatch.Patch := a.value, b.value;
    var named := [MergePatch.Named(REASONING_LEVEL, first), MergePatch.Named(MAX_OUTPUT_TOKENS, second)];
    assert MergePatch.PatchesOf(named) == [first, second];
    TwoPatches(body, first, second);
    var applied := MergePatch.ApplyOrderedJsonMergePatches(body, named);
    match applied
    case Conflict(path, _, _) => r := Conflicting(path);
    case Merged(fields) =>
      MergePatch.MergeCommutes(body, first, second);
      r := Body(fields);
  }
}
