// Model of packages/model-option-map/src/evaluator.ts: evaluation of expressions and equality of JSON values.

module CelEvaluator {
  import opened Options
  import opened CelTokenizer
  import opened CelParser
  import opened JsonValues

  // What is left to the platform: floating-point arithmetic, five arbitrary operations on numbers, and which arrays
  // and objects are one and the same in memory.
  datatype Platform = Platform(
    add: (Num, Num) -> Num,
    subtract: (Num, Num) -> Num,
    multiply: (Num, Num) -> Num,
    divide: (Num, Num) -> Num,
    remainder: (Num, Num) -> Num,
    same: (Json, Json) -> bool)

  predicate IsPrimitive(value: Json) {
    !value.JArr? && !value.JObj?
  }

  // The same primitive or the same object in memory, or the same structure.
  predicate JsonEquals(same: (Json, Json) -> bool, left: Json, right: Json)
    decreases left
  {
    if (if IsPrimitive(left) then left == right else same(left, right)) then true
    else if left.JArr? || right.JArr? then
      && left.JArr? && right.JArr?
      && |left.items| == |right.items|
      && forall i | 0 <= i < |left.items| :: JsonEquals(same, left.items[i], right.items[i])
    else if left.JObj? && right.JObj? then
      && |left.fields.Keys| == |right.fields.Keys|
      && forall key | key in left.fields :: key in right.fields
                                         && JsonEquals(same, left.fields[key], right.fields[key])
    else false
  }

  // -- Operators --

  function Negated(n: Num): Num {
    if n.Finite? then Finite(-n.value) else n
  }

  // A comparison with NaN is false; the numbers compared here are finite.
  predicate Less(a: Num, b: Num) {
    a.Finite? && b.Finite? && a.value < b.value
  }

  // Strings are compared by code units.
  predicate Precedes(a: Text, b: Text) {
    if a == [] || b == [] then a == [] && b != []
    else a[0] < b[0] || (a[0] == b[0] && Precedes(a[1..], b[1..]))
  }

  function SafeNumber(n: Num): Result<Json> {
    if JsonSafe(n) then Ok(JNum(n)) else Err(UnsafeNumber)
  }

  function UnaryValue(op: Text, operand: Json): Result<Json> {
    if op == [Unit('!')] then
      if operand.JBool? then Ok(JBool(!operand.b)) else Err(BooleanRequired)
    else if !operand.JNum? then Err(NumberRequired)
    else SafeNumber(if op == [Unit('-')] then Negated(operand.n) else operand.n)
  }

  function NumericValue(left: Json, right: Json, operation: (Num, Num) -> Num): Result<Json> {
    if left.JNum? && right.JNum? then SafeNumber(operation(left.n, right.n)) else Err(NumberRequired)
  }

  // -1, 0 or 1, for two numbers or two strings.
  function Comparison(left: Json, right: Json): Option<int> {
    match (left, right)
    case (JNum(a), JNum(b)) => Some(if Less(a, b) then -1 else if Less(b, a) then 1 else 0)
    case (JStr(a), JStr(b)) => Some(if Precedes(a, b) then -1 else if Precedes(b, a) then 1 else 0)
    case _ => None
  }

  function ComparedValue(op: Text, left: Json, right: Json): Result<Json> {
    match Comparison(left, right)
    case None => Err(NotComparable)
    case Some(c) =>
      Ok(JBool(if op == [Unit('<')] then c < 0
               else if op == [Unit('<'), Unit('=')] then c <= 0
               else if op == [Unit('>')] then c > 0
               else c >= 0))
  }

  function AsBoolean(r: Result<Json>): Result<Json> {
    match r
    case Err(e) => Err(e)
    case Ok(v) => if v.JBool? then r else Err(BooleanRequired)
  }

  // `right` is the outcome of the right operand, looked at only where the operator evaluates it.
  function BinaryValue(p: Platform, op: Text, left: Json, right: Result<Json>): Result<Json> {
    if op == [Unit('&'), Unit('&')] then
      if !left.JBool? then Err(BooleanRequired) else if left.b then AsBoolean(right) else Ok(JBool(false))
    else if op == [Unit('|'), Unit('|')] then
      if !left.JBool? then Err(BooleanRequired) else if left.b then Ok(JBool(true)) else AsBoolean(right)
    else match right
         case Err(e) => Err(e)
         case Ok(r) =>
           if op == [Unit('='), Unit('=')] then Ok(JBool(JsonEquals(p.same, left, r)))
           else if op == [Unit('!'), Unit('=')] then Ok(JBool(!JsonEquals(p.same, left, r)))
           else if op == [Unit('+')] then
             if left.JStr? && r.JStr? then Ok(JStr(left.text + r.text)) else NumericValue(left, r, p.add)
           else if op == [Unit('-')] then NumericValue(left, r, p.subtract)
           else if op == [Unit('*')] then NumericValue(left, r, p.multiply)
           else if op == [Unit('/')] then NumericValue(left, r, p.divide)
           else if op == [Unit('%')] then NumericValue(left, r, p.remainder)
           else if BinaryLevel(op) == 4 then ComparedValue(op, left, r)
           else Err(UnsupportedOperator)
  }

  // -- Evaluation --

  function JsonOf(value: Scalar): Json {
    match value
    case Str(text) => JStr(text)
    case Numeric(n) => JNum(n)
    case Boolean(b) => JBool(b)
    case Null => JNull
  }

  function Evaluate(p: Platform, e: Expr, input: Json): Result<Json>
    decreases e
  {
    match e
    case Literal(value) => Ok(JsonOf(value))
    case Input => Ok(input)
    case Array(es) => (match EvaluateAll(p, es, input) case Err(e) => Err(e) case Ok(vs) => Ok(JArr(vs)))
    case Object(es) => (match EvaluateEntries(p, es, input, map[]) case Err(e) => Err(e) case Ok(fs) => Ok(JObj(fs)))
    case Unary(op, x) => (match Evaluate(p, x, input) case Err(e) => Err(e) case Ok(v) => UnaryValue(op, v))
    case Binary(op, l, r) =>
      (match Evaluate(p, l, input)
       case Err(e) => Err(e)
       case Ok(v) => BinaryValue(p, op, v, Evaluate(p, r, input)))
    case Conditional(c, x, y) =>
      match Evaluate(p, c, input)
      case Err(e) => Err(e)
      case Ok(v) =>
        if !v.JBool? then Err(BooleanRequired)
        else if v.b then Evaluate(p, x, input)
        else Evaluate(p, y, input)
  }

  function EvaluateAll(p: Platform, es: seq<Expr>, input: Json): Result<seq<Json>>
    decreases es
  {
    if es == [] then Ok([])
    else match Evaluate(p, es[0], input)
         case Err(e) => Err(e)
         case Ok(first) =>
           match EvaluateAll(p, es[1..], input)
           case Err(e) => Err(e)
           case Ok(rest) => Ok([first] + rest)
  }

  // Defines the entries one after the other on the object `sofar`.
  function EvaluateEntries(p: Platform, es: seq<Entry>, input: Json, sofar: Fields): Result<Fields>
    decreases es
  {
    if es == [] then Ok(sofar)
    else match Evaluate(p, es[0].value, input)
         case Err(e) => Err(e)
         case Ok(value) => EvaluateEntries(p, es[1..], input, sofar[es[0].key := value])
  }

  // The input must be a string or a JSON-safe number.
  function Run(p: Platform, e: Expr, input: Json): Result<Json> {
    match input
    case JStr(_) => Evaluate(p, e, input)
    case JNum(n) => if JsonSafe(n) then Evaluate(p, e, input) else Err(UnsafeNumber)
    case _ => Err(InvalidInput)
  }

  // -- Laws --

  // Negating a conjunction is disjoining the negations: same value, or same error.
  lemma {:induction false} DeMorgan(p: Platform, l: Expr, r: Expr, input: Json)
    ensures Evaluate(p, Unary([Unit('!')], Binary([Unit('&'), Unit('&')], l, r)), input)
         == Evaluate(p, Binary([Unit('|'), Unit('|')], Unary([Unit('!')], l), Unary([Unit('!')], r)), input)
  {
    hide BinaryValue, UnaryValue;
    var x := Evaluate(p, l, input);
    assert Evaluate(p, Unary([Unit('!')], l), input) == Inverted(x);
    assert Evaluate(p, Unary([Unit('!')], r), input) == Inverted(Evaluate(p, r, input));
    if x.Ok? {
      InvertedConjunction(p, x.value, Evaluate(p, r, input));
    }
  }

  function Inverted(r: Result<Json>): Result<Json> {
    match r
    case Err(e) => Err(e)
    case Ok(v) => UnaryValue([Unit('!')], v)
  }

  lemma {:induction false} InvertedConjunction(p: Platform, left: Json, right: Result<Json>)
    ensures var inverted := UnaryValue([Unit('!')], left);
      Inverted(BinaryValue(p, [Unit('&'), Unit('&')], left, right))
      == if inverted.Err? then inverted
         else BinaryValue(p, [Unit('|'), Unit('|')], inverted.value, Inverted(right))
  {
    hide JsonEquals, NumericValue, ComparedValue, SafeNumber, BinaryLevel;
    OperatorsDiffer();
  }

  lemma {:induction false} OperatorsDiffer()
    ensures [Unit('&'), Unit('&')] != [Unit('|'), Unit('|')]
  {
    assert [Unit('&'), Unit('&')][0] == 38 && [Unit('|'), Unit('|')][0] == 124;
  }

  // Strings are totally ordered.
  lemma {:induction false} StringsAreOrdered(a: Text, b: Text)
    ensures (Precedes(a, b) || Precedes(b, a)) <==> a != b
    ensures !(Precedes(a, b) && Precedes(b, a))
    decreases |a|
  {
    if a != [] && b != [] {
      assert a == [a[0]] + a[1..] && b == [b[0]] + b[1..];
      if a[0] == b[0] {
        StringsAreOrdered(a[1..], b[1..]);
        assert a == b <==> a[1..] == b[1..];
      }
    }
  }

  lemma {:induction false} StringOrderIsTransitive(a: Text, b: Text, c: Text)
    requires Precedes(a, b) && Precedes(b, c)
    ensures Precedes(a, c)
    decreases |a|
  {
    if a != [] && b != [] && c != [] && a[0] == b[0] == c[0] {
      StringOrderIsTransitive(a[1..], b[1..], c[1..]);
    }
  }

  // Two finite numbers or two strings: exactly one of less, equal and greater holds, and the other operators follow.
  lemma {:induction false} ComparisonsAgree(left: Json, right: Json)
    requires (left.JStr? && right.JStr?) || (left.JNum? && right.JNum? && left.n.Finite? && right.n.Finite?)
    ensures var lt := ComparedValue([Unit('<')], left, right);
            var gt := ComparedValue([Unit('>')], left, right);
            var le := ComparedValue([Unit('<'), Unit('=')], left, right);
            var ge := ComparedValue([Unit('>'), Unit('=')], left, right);
      && lt in {Ok(JBool(true)), Ok(JBool(false))}
      && gt == ComparedValue([Unit('<')], right, left)
      && (left == right <==> lt == Ok(JBool(false)) && gt == Ok(JBool(false)))
      && !(lt == Ok(JBool(true)) && gt == Ok(JBool(true)))
      && (le == Ok(JBool(true)) <==> gt == Ok(JBool(false)))
      && (ge == Ok(JBool(true)) <==> lt == Ok(JBool(false)))
  {
    assert [Unit('<')][0] == 60 && [Unit('>')][0] == 62 && [Unit('>'), Unit('=')][0] == 62;
    if left.JStr? {
      StringsAreOrdered(left.text, right.text);
    }
  }

  // -- Checking every intermediate number --

  // Numbers with signs, the four operations and the remainder.
  predicate IsArithmetic(e: Expr)
    decreases e
  {
    match e
    case Literal(Numeric(n)) => JsonSafe(n)
    case Input => true
    case Unary(op, x) => (op == [Unit('-')] || op == [Unit('+')]) && IsArithmetic(x)
    case Binary(op, l, r) => BinaryLevel(op) in {5, 6} && IsArithmetic(l) && IsArithmetic(r)
    case _ => false
  }

  function Operation(p: Platform, op: CodeUnit): (Num, Num) -> Num {
    if op == Unit('+') then p.add
    else if op == Unit('-') then p.subtract
    else if op == Unit('*') then p.multiply
    else if op == Unit('/') then p.divide
    else p.remainder
  }

  // What the platform computes if no intermediate result is checked.
  function Unchecked(p: Platform, e: Expr, input: Num): Num
    requires IsArithmetic(e)
    decreases e
  {
    match e
    case Literal(Numeric(n)) => n
    case Input => input
    case Unary(op, x) => if op == [Unit('-')] then Negated(Unchecked(p, x, input)) else Unchecked(p, x, input)
    case Binary(op, l, r) => Operation(p, op[0])(Unchecked(p, l, input), Unchecked(p, r, input))
  }

  predicate IsPart(x: Expr, e: Expr)
    decreases e
  {
    x == e || (e.Unary? && IsPart(x, e.operand)) || (e.Binary? && (IsPart(x, e.left) || IsPart(x, e.right)))
  }

  lemma {:induction false} PartsAreArithmetic(x: Expr, e: Expr)
    requires IsArithmetic(e) && IsPart(x, e)
    ensures IsArithmetic(x)
    decreases e
  {
    if x != e {
      if e.Unary? {
        PartsAreArithmetic(x, e.operand);
      } else if IsPart(x, e.left) {
        PartsAreArithmetic(x, e.left);
      } else {
        PartsAreArithmetic(x, e.right);
      }
    }
  }

  // Every part of the expression, computed without checks, is JSON-safe.
  ghost predicate PartsAreSafe(p: Platform, e: Expr, input: Num)
    requires IsArithmetic(e)
  {
    forall x | IsPart(x, e) ::
      PartsAreArithmetic(x, e);
      JsonSafe(Unchecked(p, x, input))
  }

  lemma {:induction false} ArithmeticOperator(p: Platform, op: Text, v: Num, w: Num)
    requires BinaryLevel(op) in {5, 6}
    ensures BinaryValue(p, op, JNum(v), Ok(JNum(w))) == SafeNumber(Operation(p, op[0])(v, w))
    ensures BinaryValue(p, op, JNum(v), Err(UnsafeNumber)) == Err(UnsafeNumber)
  {
    hide JsonSafe, JsonEquals, ComparedValue;
  }

  // On every platform an arithmetic expression is refused exactly if one of its parts, however deep, has no JSON-safe
  // value; otherwise the checks change nothing.
  lemma {:induction false} RefusedExactlyForUnsafeParts(p: Platform, e: Expr, input: Num)
    requires IsArithmetic(e) && JsonSafe(input)
    ensures Evaluate(p, e, JNum(input))
         == if PartsAreSafe(p, e, input) then Ok(JNum(Unchecked(p, e, input))) else Err(UnsafeNumber)
    decreases e
  {
    hide JsonSafe, Operation, Negated, BinaryValue, BinaryLevel, JsonEquals;
    assert IsPart(e, e);
    match e
    case Literal(_) =>
    case Input =>
    case Unary(op, x) =>
      RefusedExactlyForUnsafeParts(p, x, input);
      assert forall y :: IsPart(y, e) <==> y == e || IsPart(y, x);
    case Binary(op, l, r) =>
      RefusedExactlyForUnsafeParts(p, l, input);
      RefusedExactlyForUnsafeParts(p, r, input);
      ArithmeticOperator(p, op, Unchecked(p, l, input), Unchecked(p, r, input));
      assert forall y :: IsPart(y, e) <==> y == e || IsPart(y, l) || IsPart(y, r);
  }

  // -- The trees the parser builds --

  // Operators of the language, JSON-safe numbers, no repeated key.
  predicate Buildable(e: Expr)
    decreases e
  {
    match e
    case Literal(Numeric(n)) => JsonSafe(n)
    case Literal(_) => true
    case Input => true
    case Array(es) => BuildableAll(es)
    case Object(es) => BuildableEntries(es, {})
    case Unary(op, x) => IsUnaryOperator(op) && Buildable(x)
    case Binary(op, l, r) => BinaryLevel(op) > 0 && Buildable(l) && Buildable(r)
    case Conditional(c, x, y) => Buildable(c) && Buildable(x) && Buildable(y)
  }

  predicate BuildableAll(es: seq<Expr>)
    decreases es
  {
    es == [] || (Buildable(es[0]) && BuildableAll(es[1..]))
  }

  predicate BuildableEntries(es: seq<Entry>, keys: set<Text>)
    decreases es
  {
    es == [] || (es[0].key !in keys && Buildable(es[0].value) && BuildableEntries(es[1..], keys + {es[0].key}))
  }

  predicate Built(r: Parsed) {
    r.Ok? ==> Buildable(r.value.0)
  }

  lemma {:induction false} ConditionalBuilds(t: Task, i: nat)
    requires Position(t, i)
    ensures Built(ConditionalAt(t, i))
    decreases |t.tokens| - i, 9
  {
    BinaryBuilds(t, i, 1);
    var c := BinaryAt(t, i, 1);
    if c.Ok? && t.tokens[c.value.1].value == QUESTION {
      ConditionalBuilds(t, c.value.1 + 1);
      var x := ConditionalAt(t, c.value.1 + 1);
      if x.Ok? && t.tokens[x.value.1].value == COLON {
        ConditionalBuilds(t, x.value.1 + 1);
      }
    }
  }

  lemma {:induction false} BinaryBuilds(t: Task, i: nat, level: nat)
    requires Position(t, i) && 1 <= level <= 7
    ensures Built(BinaryAt(t, i, level))
    decreases |t.tokens| - i, 8 - level
  {
    if level == 7 {
      UnaryBuilds(t, i);
    } else {
      BinaryBuilds(t, i, level + 1);
      var left := BinaryAt(t, i, level + 1);
      if left.Ok? {
        RestBuilds(t, left.value.1, level, left.value.0);
      }
    }
  }

  lemma {:induction false} RestBuilds(t: Task, i: nat, level: nat, left: Expr)
    requires Position(t, i) && 1 <= level <= 6 && Buildable(left)
    ensures Built(BinaryRest(t, i, level, left))
    decreases |t.tokens| - i, 8 - level
  {
    var token := t.tokens[i];
    if token.kind == Operator && BinaryLevel(token.value) == level {
      BinaryBuilds(t, i + 1, level + 1);
      var right := BinaryAt(t, i + 1, level + 1);
      if right.Ok? {
        RestBuilds(t, right.value.1, level, Binary(token.value, left, right.value.0));
      }
    }
  }

  lemma {:induction false} UnaryBuilds(t: Task, i: nat)
    requires Position(t, i)
    ensures Built(UnaryAt(t, i))
    decreases |t.tokens| - i, 0, 1
  {
    var token := t.tokens[i];
    if token.kind == Operator && IsUnaryOperator(token.value) {
      UnaryBuilds(t, i + 1);
    } else {
      PrimaryBuilds(t, i);
    }
  }

  lemma {:induction false} PrimaryBuilds(t: Task, i: nat)
    requires Position(t, i)
    ensures Built(Primary(t, i))
    decreases |t.tokens| - i, 0, 0
  {
    var token := t.tokens[i];
    if token.kind !in {Number, String, Identifier} {
      if token.value == LPAREN {
        ConditionalBuilds(t, i + 1);
      } else if token.value == LBRACKET {
        if t.tokens[i + 1].value != RBRACKET {
          ElementsBuild(t, i + 1);
        }
      } else if token.value == LBRACE {
        if t.tokens[i + 1].value != RBRACE {
          EntriesBuild(t, i + 1, {});
        }
      }
    }
  }

  lemma {:induction false} ElementsBuild(t: Task, i: nat)
    requires Position(t, i)
    ensures var r := Elements(t, i); r.Ok? ==> BuildableAll(r.value.0)
    decreases |t.tokens| - i, 10
  {
    ConditionalBuilds(t, i);
    var first := ConditionalAt(t, i);
    if first.Ok? && t.tokens[first.value.1].value == COMMA {
      ElementsBuild(t, first.value.1 + 1);
      var more := Elements(t, first.value.1 + 1);
      if more.Ok? {
        assert ([first.value.0] + more.value.0)[1..] == more.value.0;
      }
    }
  }

  lemma {:induction false} EntriesBuild(t: Task, i: nat, keys: set<Text>)
    requires Position(t, i)
    ensures var r := Entries(t, i, keys); r.Ok? ==> BuildableEntries(r.value.0, keys)
    decreases |t.tokens| - i, 10
  {
    var key := t.tokens[i];
    if key.kind == String && key.value !in keys && t.tokens[i + 1].value == COLON {
      ConditionalBuilds(t, i + 2);
      var value := ConditionalAt(t, i + 2);
      if value.Ok? && t.tokens[value.value.1].value == COMMA {
        var j := value.value.1;
        EntriesBuild(t, j + 1, keys + {key.value});
        var more := Entries(t, j + 1, keys + {key.value});
        if more.Ok? {
          assert ([Entry(key.value, value.value.0)] + more.value.0)[1..] == more.value.0;
        }
      }
    }
  }

  // Whatever the tokens, a tree that the parser returns is buildable.
  lemma {:induction false} ParserBuildsOnlyBuildable(t: Task)
    requires IsStream(t.tokens)
    ensures Parse(t).Ok? ==> Buildable(Parse(t).value)
  {
    ConditionalBuilds(t, 0);
  }

  // -- Soundness --

  // Every number anywhere in the value is JSON-safe.
  predicate SafeJson(value: Json)
    decreases value
  {
    match value
    case JNum(n) => JsonSafe(n)
    case JArr(items) => forall item | item in items :: SafeJson(item)
    case JObj(fields) => forall key | key in fields :: SafeJson(fields[key])
    case _ => true
  }

  // The errors evaluation may raise; an unsupported operator is not among them.
  predicate Runtime(error: CelError) {
    error in {BooleanRequired, NumberRequired, NotComparable, UnsafeNumber}
  }

  predicate SafeOutcome(r: Result<Json>) {
    match r
    case Ok(value) => SafeJson(value)
    case Err(error) => Runtime(error)
  }

  lemma {:induction false} BinaryIsSafe(p: Platform, op: Text, left: Json, right: Result<Json>)
    requires BinaryLevel(op) > 0 && SafeOutcome(right)
    ensures SafeOutcome(BinaryValue(p, op, left, right))
  {
    hide JsonSafe, Precedes;
  }

  lemma {:induction false} EvaluationIsSafe(p: Platform, e: Expr, input: Json)
    requires Buildable(e) && SafeJson(input)
    ensures SafeOutcome(Evaluate(p, e, input))
    decreases e
  {
    hide JsonSafe, BinaryValue;
    match e
    case Literal(_) =>
    case Input =>
    case Array(es) => ElementsAreSafe(p, es, input);
    case Object(es) =>
      EntriesAreSafe(p, es, {}, input, map[]);
    case Unary(_, x) => EvaluationIsSafe(p, x, input);
    case Binary(op, l, r) =>
      EvaluationIsSafe(p, l, input);
      EvaluationIsSafe(p, r, input);
      if Evaluate(p, l, input).Ok? {
        BinaryIsSafe(p, op, Evaluate(p, l, input).value, Evaluate(p, r, input));
      }
    case Conditional(c, x, y) =>
      EvaluationIsSafe(p, c, input);
      EvaluationIsSafe(p, x, input);
      EvaluationIsSafe(p, y, input);
  }

  lemma {:induction false} ElementsAreSafe(p: Platform, es: seq<Expr>, input: Json)
    requires BuildableAll(es) && SafeJson(input)
    ensures match EvaluateAll(p, es, input)
            case Ok(vs) => SafeJson(JArr(vs))
            case Err(error) => Runtime(error)
    decreases es
  {
    if es != [] {
      EvaluationIsSafe(p, es[0], input);
      ElementsAreSafe(p, es[1..], input);
    }
  }

  lemma {:induction false} EntriesAreSafe(p: Platform, es: seq<Entry>, keys: set<Text>, input: Json, sofar: Fields)
    requires BuildableEntries(es, keys) && SafeJson(input)
    requires SafeJson(JObj(sofar))
    ensures match EvaluateEntries(p, es, input, sofar)
            case Ok(fields) => SafeJson(JObj(fields))
            case Err(error) => Runtime(error)
    decreases es
  {
    if es != [] {
      EvaluationIsSafe(p, es[0].value, input);
      var value := Evaluate(p, es[0].value, input);
      if value.Ok? {
        EntriesAreSafe(p, es[1..], keys + {es[0].key}, input, sofar[es[0].key := value.value]);
      }
    }
  }

  // An object literal yields exactly its entries: each key with the value of its own expression, and no other key.
  lemma {:induction false} EveryEntryIsKept(p: Platform, es: seq<Entry>, keys: set<Text>, input: Json, sofar: Fields)
    requires BuildableEntries(es, keys) && EvaluateEntries(p, es, input, sofar).Ok? && sofar.Keys <= keys
    ensures var fields := EvaluateEntries(p, es, input, sofar).value;
      && (forall key :: key in fields <==> key in sofar || exists i :: 0 <= i < |es| && es[i].key == key)
      && (forall i | 0 <= i < |es| :: es[i].key in fields
                                   && Evaluate(p, es[i].value, input) == Ok(fields[es[i].key]))
      && (forall key | key in sofar :: key in fields && fields[key] == sofar[key])
    decreases es
  {
    if es != [] {
      var value := Evaluate(p, es[0].value, input).value;
      EveryEntryIsKept(p, es[1..], keys + {es[0].key}, input, sofar[es[0].key := value]);
      var fields := EvaluateEntries(p, es, input, sofar).value;
      forall key
        ensures key in fields <==> key in sofar || exists i :: 0 <= i < |es| && es[i].key == key
      {
        if i :| 0 < i < |es| && es[i].key == key {
          assert es[1..][i - 1].key == key;
        }
        if i :| 0 <= i < |es[1..]| && es[1..][i].key == key {
          assert es[i + 1].key == key;
        }
      }
      forall i | 0 <= i < |es|
        ensures es[i].key in fields && Evaluate(p, es[i].value, input) == Ok(fields[es[i].key])
      {
        assert i > 0 ==> es[i] == es[1..][i - 1];
      }
    }
  }

  // -- Equality --

  lemma {:induction false} SameSize(a: set<Text>, b: set<Text>)
    requires a <= b && |a| == |b|
    ensures a == b
  {
    assert |b - a| == |b| - |a|;
  }

  // Equality is structural, whatever the order of the keys and whatever shares memory.
  lemma {:induction false} EqualityIsStructural(same: (Json, Json) -> bool, left: Json, right: Json)
    requires forall a, b | same(a, b) :: a == b
    ensures JsonEquals(same, left, right) <==> left == right
    decreases left
  {
    if left.JArr? && right.JArr? && |left.items| == |right.items| {
      forall i | 0 <= i < |left.items|
        ensures JsonEquals(same, left.items[i], right.items[i]) <==> left.items[i] == right.items[i]
      {
        EqualityIsStructural(same, left.items[i], right.items[i]);
      }
    } else if left.JObj? && right.JObj? && |left.fields.Keys| == |right.fields.Keys| {
      forall key | key in left.fields && key in right.fields
        ensures JsonEquals(same, left.fields[key], right.fields[key]) <==> left.fields[key] == right.fields[key]
      {
        EqualityIsStructural(same, left.fields[key], right.fields[key]);
      }
      if JsonEquals(same, left, right) && !same(left, right) {
        SameSize(left.fields.Keys, right.fields.Keys);
        assert left.fields == right.fields;
      }
    }
  }
}
