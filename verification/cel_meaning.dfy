// What expressions of packages/model-option-map/src/evaluator.ts mean, stated on values.

module CelMeaning {
  import opened Options
  import opened CelTokenizer
  import opened CelParser
  import opened JsonValues
  import opened CelEvaluator
  import opened CelCompiler

  function Text1(c: char): Text
    requires c as int < 0x1_0000
  {
    [Unit(c)]
  }

  function Text2(c: char, d: char): Text
    requires c as int < 0x1_0000 && d as int < 0x1_0000
  {
    [Unit(c), Unit(d)]
  }

  function Bool(b: bool): Expr {
    Literal(Boolean(b))
  }

  function String(text: Text): Expr {
    Literal(Str(text))
  }

  function Not(e: Expr): Expr {
    Unary(Text1('!'), e)
  }

  function And(x: Expr, y: Expr): Expr {
    Binary(Text2('&', '&'), x, y)
  }

  function Or(x: Expr, y: Expr): Expr {
    Binary(Text2('|', '|'), x, y)
  }

  function Equal(x: Expr, y: Expr): Expr {
    Binary(Text2('=', '='), x, y)
  }

  // -- Choosing --

  // `c ? true : false` is c, where a boolean is wanted.
  lemma {:induction false} ChoiceOfTruthValues(p: Platform, c: Expr, input: Json)
    ensures Evaluate(p, Conditional(c, Bool(true), Bool(false)), input) == AsBoolean(Evaluate(p, c, input))
  {
    assert Evaluate(p, Bool(true), input) == Ok(JBool(true)) && Evaluate(p, Bool(false), input) == Ok(JBool(false));
  }

  // `x && y` is `x ? y : false` and `x || y` is `x ? true : y`, with a boolean wanted of either operand that is
  // evaluated.
  lemma {:induction false} ConnectivesChoose(p: Platform, x: Expr, y: Expr, input: Json)
    ensures Evaluate(p, And(x, y), input) == AsBoolean(Evaluate(p, Conditional(x, y, Bool(false)), input))
    ensures Evaluate(p, Or(x, y), input) == AsBoolean(Evaluate(p, Conditional(x, Bool(true), y), input))
  {
    hide JsonEquals, NumericValue, ComparedValue, SafeNumber, BinaryLevel;
    OperatorsDiffer();
    assert Evaluate(p, Bool(true), input) == Ok(JBool(true)) && Evaluate(p, Bool(false), input) == Ok(JBool(false));
  }

  lemma {:induction false} Tables(p: Platform, left: Json, right: Result<Json>)
    ensures BinaryValue(p, Text2('&', '&'), left, right)
         == if !left.JBool? then Err(BooleanRequired) else if left.b then AsBoolean(right) else Ok(JBool(false))
    ensures BinaryValue(p, Text2('|', '|'), left, right)
         == if !left.JBool? then Err(BooleanRequired) else if left.b then Ok(JBool(true)) else AsBoolean(right)
  {
    OperatorsDiffer();
  }

  lemma {:induction false} OfParts(p: Platform, op: Text, x: Expr, y: Expr, input: Json)
    ensures var v := Evaluate(p, x, input);
      Evaluate(p, Binary(op, x, y), input)
      == if v.Err? then v else BinaryValue(p, op, v.value, Evaluate(p, y, input))
    ensures var v := Evaluate(p, x, input);
      Evaluate(p, Not(x), input)
      == if v.Err? then v else if v.value.JBool? then Ok(JBool(!v.value.b)) else Err(BooleanRequired)
  {
    hide BinaryValue;
  }

  lemma {:induction false} OfBranches(p: Platform, c: Expr, x: Expr, y: Expr, input: Json)
    ensures var v := Evaluate(p, c, input);
      Evaluate(p, Conditional(c, x, y), input)
      == if v.Err? then v
         else if !v.value.JBool? then Err(BooleanRequired)
         else if v.value.b then Evaluate(p, x, input)
         else Evaluate(p, y, input)
  {
  }

  // Where a boolean is wanted, `c ? x : y` is `(c && x) || (!c && y)`.
  lemma {:induction false} ChoiceByConnectives(p: Platform, c: Expr, x: Expr, y: Expr, input: Json)
    ensures AsBoolean(Evaluate(p, Conditional(c, x, y), input))
         == Evaluate(p, Or(And(c, x), And(Not(c), y)), input)
  {
    hide BinaryValue, Evaluate;
    var v, a, b := Evaluate(p, c, input), Evaluate(p, x, input), Evaluate(p, y, input);
    OfBranches(p, c, x, y, input);
    OfParts(p, Text2('&', '&'), c, x, input);
    OfParts(p, Text2('&', '&'), Not(c), y, input);
    OfParts(p, Text2('|', '|'), And(c, x), And(Not(c), y), input);
    if v.Ok? {
      Tables(p, v.value, a);
      if v.value.JBool? {
        Tables(p, JBool(!v.value.b), b);
        var first, second := Evaluate(p, And(c, x), input), Evaluate(p, And(Not(c), y), input);
        if first.Ok? {
          Tables(p, first.value, second);
        }
      }
    }
  }

  // `input == k ? x : y` is x for the string k and y for every other.
  lemma {:induction false} ChoiceByText(p: Platform, k: Text, x: Expr, y: Expr, text: Text)
    requires forall a, b | p.same(a, b) :: a == b
    ensures Evaluate(p, Conditional(Equal(Input, String(k)), x, y), JStr(text))
         == if text == k then Evaluate(p, x, JStr(text)) else Evaluate(p, y, JStr(text))
  {
    hide JsonEquals, NumericValue, ComparedValue, BinaryLevel;
    EqualComparesValues(p, Input, String(k), JStr(text), JStr(text), JStr(k));
  }

  // `==` compares values, and `!=` is its opposite.
  lemma {:induction false} EqualComparesValues(p: Platform, x: Expr, y: Expr, input: Json, v: Json, w: Json)
    requires forall a, b | p.same(a, b) :: a == b
    requires Evaluate(p, x, input) == Ok(v) && Evaluate(p, y, input) == Ok(w)
    ensures Evaluate(p, Equal(x, y), input) == Ok(JBool(v == w))
    ensures Evaluate(p, Binary(Text2('!', '='), x, y), input) == Ok(JBool(v != w))
  {
    hide JsonEquals, NumericValue, ComparedValue, BinaryLevel;
    EqualityIsStructural(p.same, v, w);
    assert Text2('=', '=')[0] == 61 && Text2('!', '=')[0] == 33;
    assert Text2('&', '&')[0] == 38 && Text2('|', '|')[0] == 124;
  }

  // The option map `input == k ? {..} : {..}` gives the first patch for the string k and the second for every other.
  lemma {:induction false} OptionMapChooses(p: Platform, source: Text, k: Text, x: seq<Entry>, y: seq<Entry>,
                                            text: Text)
    requires forall a, b | p.same(a, b) :: a == b
    ensures var e := Conditional(Equal(Input, String(k)), Object(x), Object(y));
      RunOptionMap(p, Program(source, e), JStr(text)) == Evaluate(p, Object(if text == k then x else y), JStr(text))
  {
    hide BinaryValue;
    ChoiceByText(p, k, Object(x), Object(y), text);
  }

  // -- Operators on numbers and strings --

  // `a` comes before `b` in a dictionary by code units.
  predicate DictionaryBefore(a: Text, b: Text) {
    exists n | 0 <= n <= |a| && n <= |b| :: a[..n] == b[..n] && n < |b| && (n == |a| || a[n] < b[n])
  }

  lemma {:induction false} PrecedesIsDictionaryOrder(a: Text, b: Text)
    ensures Precedes(a, b) <==> DictionaryBefore(a, b)
    decreases |a|
  {
    hide DictionaryBefore;
    if a == [] || b == [] {
      EmptyInDictionary(a, b);
    } else {
      DifferentHeads(a, b);
      if a[0] == b[0] {
        PrecedesIsDictionaryOrder(a[1..], b[1..]);
        SameHeads(a, b);
      }
    }
  }

  lemma {:induction false} EmptyInDictionary(a: Text, b: Text)
    requires a == [] || b == []
    ensures DictionaryBefore(a, b) <==> a == [] && b != []
  {
    assert a[..0] == b[..0];
  }

  lemma {:induction false} DifferentHeads(a: Text, b: Text)
    requires a != [] && b != []
    ensures a[0] != b[0] ==> (DictionaryBefore(a, b) <==> a[0] < b[0])
  {
    assert a[..0] == b[..0];
    forall n | 0 < n <= |a| && n <= |b| && a[..n] == b[..n]
      ensures a[0] == b[0]
    {
      assert a[..n][0] == b[..n][0];
    }
  }

  lemma {:induction false} SameHeads(a: Text, b: Text)
    requires a != [] && b != [] && a[0] == b[0]
    ensures DictionaryBefore(a, b) <==> DictionaryBefore(a[1..], b[1..])
  {
    var x, y := a[1..], b[1..];
    if DictionaryBefore(a, b) {
      var n :| 0 <= n <= |a| && n <= |b| && a[..n] == b[..n] && n < |b| && (n == |a| || a[n] < b[n]);
      assert n > 0 && x[..n - 1] == a[..n][1..] && y[..n - 1] == b[..n][1..];
    }
    if DictionaryBefore(x, y) {
      var n :| 0 <= n <= |x| && n <= |y| && x[..n] == y[..n] && n < |y| && (n == |x| || x[n] < y[n]);
      assert a[..n + 1] == [a[0]] + x[..n] && b[..n + 1] == [b[0]] + y[..n];
    }
  }

  predicate Before(v: Json, w: Json) {
    if v.JStr? && w.JStr? then DictionaryBefore(v.text, w.text)
    else v.JNum? && w.JNum? && v.n.Finite? && w.n.Finite? && v.n.value < w.n.value
  }

  lemma {:induction false} Compared(v: Json, w: Json)
    requires (v.JStr? && w.JStr?) || (v.JNum? && w.JNum? && v.n.Finite? && w.n.Finite?)
    ensures Comparison(v, w) == Some(if Before(v, w) then -1 else if v == w then 0 else 1)
  {
    hide Precedes, DictionaryBefore;
    if v.JStr? {
      StringsAreOrdered(v.text, w.text);
      PrecedesIsDictionaryOrder(v.text, w.text);
    }
  }

  lemma {:induction false} ComparisonOperator(p: Platform, op: Text, v: Json, w: Json)
    requires op in {Text1('<'), Text2('<', '='), Text1('>'), Text2('>', '=')}
    ensures BinaryValue(p, op, v, Ok(w)) == ComparedValue(op, v, w)
  {
    hide JsonEquals, ComparedValue;
    assert Text1('<')[0] == 60 && Text1('>')[0] == 62 && Text2('<', '=')[0] == 60 && Text2('>', '=')[0] == 62;
    assert op[0] != 38 && op[0] != 124 && op[0] != 61 && op[0] != 33;
  }

  lemma {:induction false} OneComparison(p: Platform, op: Text, x: Expr, y: Expr, input: Json, v: Json, w: Json)
    requires Evaluate(p, x, input) == Ok(v) && Evaluate(p, y, input) == Ok(w)
    requires op in {Text1('<'), Text2('<', '='), Text1('>'), Text2('>', '=')}
    ensures Evaluate(p, Binary(op, x, y), input) == ComparedValue(op, v, w)
  {
    hide BinaryValue, ComparedValue;
    ComparisonOperator(p, op, v, w);
  }

  // The four comparisons of finite numbers and of strings.
  lemma {:induction false} ComparisonsCompare(p: Platform, x: Expr, y: Expr, input: Json, v: Json, w: Json)
    requires Evaluate(p, x, input) == Ok(v) && Evaluate(p, y, input) == Ok(w)
    requires (v.JStr? && w.JStr?) || (v.JNum? && w.JNum? && v.n.Finite? && w.n.Finite?)
    ensures Evaluate(p, Binary(Text1('<'), x, y), input) == Ok(JBool(Before(v, w)))
    ensures Evaluate(p, Binary(Text2('<', '='), x, y), input) == Ok(JBool(Before(v, w) || v == w))
    ensures Evaluate(p, Binary(Text1('>'), x, y), input) == Ok(JBool(!Before(v, w) && v != w))
    ensures Evaluate(p, Binary(Text2('>', '='), x, y), input) == Ok(JBool(!Before(v, w)))
  {
    hide Evaluate, Comparison, Before;
    assert Text1('<')[0] == 60 && Text1('>')[0] == 62 && Text2('<', '=')[0] == 60 && Text2('>', '=')[0] == 62;
    OneComparison(p, Text1('<'), x, y, input, v, w);
    OneComparison(p, Text2('<', '='), x, y, input, v, w);
    OneComparison(p, Text1('>'), x, y, input, v, w);
    OneComparison(p, Text2('>', '='), x, y, input, v, w);
    Compared(v, w);
  }

  // Signs, negation, and joining strings.
  lemma {:induction false} SignsAndJoins(p: Platform, x: Expr, y: Expr, input: Json, v: Json, w: Json)
    requires Evaluate(p, x, input) == Ok(v) && Evaluate(p, y, input) == Ok(w)
    ensures v.JBool? ==> Evaluate(p, Not(x), input) == Ok(JBool(!v.b))
    ensures v.JNum? && JsonSafe(v.n) ==>
      && Evaluate(p, Unary(Text1('-'), x), input) == Ok(JNum(Finite(0.0 - v.n.value)))
      && Evaluate(p, Unary(Text1('+'), x), input) == Ok(v)
    ensures v.JStr? && w.JStr? ==> Evaluate(p, Binary(Text1('+'), x, y), input) == Ok(JStr(v.text + w.text))
    ensures v.JStr? != w.JStr? ==> Evaluate(p, Binary(Text1('+'), x, y), input) == Err(NumberRequired)
  {
    hide JsonEquals, ComparedValue;
    assert Text1('!')[0] == 33 && Text1('-')[0] == 45 && Text1('+')[0] == 43;
    if v.JNum? && JsonSafe(v.n) {
      NegativeIsSafe(v.n);
    }
  }

  lemma {:induction false} UnaryRefused(p: Platform, op: Text, x: Expr, input: Json, v: Json)
    requires Evaluate(p, x, input) == Ok(v)
    ensures !v.JBool? && op == Text1('!') ==> Evaluate(p, Unary(op, x), input) == Err(BooleanRequired)
    ensures !v.JNum? && op in {Text1('-'), Text1('+')} ==> Evaluate(p, Unary(op, x), input) == Err(NumberRequired)
  {
    assert Text1('!')[0] == 33 && Text1('-')[0] == 45 && Text1('+')[0] == 43;
  }

  lemma {:induction false} NumbersRequired(p: Platform, op: Text, v: Json, w: Json)
    requires !(v.JNum? && w.JNum?) && op in {Text1('-'), Text1('*'), Text1('/'), Text1('%')}
    ensures BinaryValue(p, op, v, Ok(w)) == Err(NumberRequired)
  {
    hide JsonEquals, ComparedValue;
    assert op[0] != 38 && op[0] != 124 && op[0] != 61 && op[0] != 33 && op[0] != 43;
  }

  lemma {:induction false} OneOperation(p: Platform, op: Text, x: Expr, y: Expr, input: Json, v: Json, w: Json)
    requires Evaluate(p, x, input) == Ok(v) && Evaluate(p, y, input) == Ok(w)
    ensures Evaluate(p, Binary(op, x, y), input) == BinaryValue(p, op, v, Ok(w))
  {
    hide BinaryValue;
  }

  // Operands of the wrong kind are refused.
  lemma {:induction false} WrongOperands(p: Platform, op: Text, x: Expr, y: Expr, input: Json, v: Json, w: Json)
    requires Evaluate(p, x, input) == Ok(v) && Evaluate(p, y, input) == Ok(w)
    ensures !v.JBool? && op == Text1('!') ==> Evaluate(p, Unary(op, x), input) == Err(BooleanRequired)
    ensures !v.JNum? && op in {Text1('-'), Text1('+')} ==> Evaluate(p, Unary(op, x), input) == Err(NumberRequired)
    ensures !(v.JNum? && w.JNum?) && op in {Text1('-'), Text1('*'), Text1('/'), Text1('%')} ==>
      Evaluate(p, Binary(op, x, y), input) == Err(NumberRequired)
    ensures !(v.JNum? && w.JNum?) && !(v.JStr? && w.JStr?)
            && op in {Text1('<'), Text2('<', '='), Text1('>'), Text2('>', '=')} ==>
      Evaluate(p, Binary(op, x, y), input) == Err(NotComparable)
  {
    hide Evaluate, BinaryValue, ComparedValue, Text1, Text2;
    UnaryRefused(p, op, x, input, v);
    OneOperation(p, op, x, y, input, v, w);
    if !(v.JNum? && w.JNum?) {
      if op in {Text1('-'), Text1('*'), Text1('/'), Text1('%')} {
        NumbersRequired(p, op, v, w);
      }
      if !(v.JStr? && w.JStr?) {
        NotCompared(op, v, w);
        if op in {Text1('<'), Text2('<', '='), Text1('>'), Text2('>', '=')} {
          ComparisonOperator(p, op, v, w);
        }
      }
    }
  }

  lemma {:induction false} NotCompared(op: Text, v: Json, w: Json)
    requires !(v.JNum? && w.JNum?) && !(v.JStr? && w.JStr?)
    ensures ComparedValue(op, v, w) == Err(NotComparable)
  {
  }

  lemma {:induction false} NegativeIsSafe(n: Num)
    requires JsonSafe(n)
    ensures JsonSafe(Finite(0.0 - n.value))
  {
    var m := 0.0 - n.value;
    if m.Floor as real == m {
      assert (-(m.Floor)) as real == n.value;
      assert n.value.Floor == -(m.Floor);
    }
  }

  // The numbers of JSON that are safe: the integers up to 2^53 - 1 either way, and all fractions.
  lemma {:induction false} SafeNumbers(k: int, x: real)
    ensures JsonSafe(Finite(k as real)) <==> -9_007_199_254_740_991 <= k <= 9_007_199_254_740_991
    ensures x.Floor as real != x ==> JsonSafe(Finite(x))
    ensures !JsonSafe(NotFinite)
  {
    assert (k as real).Floor == k;
  }

  // -- Arrays --

  // An array has the values of its elements, in order; the first element that fails decides the error.
  lemma {:induction false} ArrayHasItsElements(p: Platform, es: seq<Expr>, input: Json)
    ensures match Evaluate(p, Array(es), input)
            case Ok(v) => v.JArr? && |v.items| == |es|
                          && forall i | 0 <= i < |es| :: Evaluate(p, es[i], input) == Ok(v.items[i])
            case Err(error) => exists i | 0 <= i < |es| ::
                Evaluate(p, es[i], input) == Err(error) && forall j | 0 <= j < i :: Evaluate(p, es[j], input).Ok?
  {
    ElementsInOrder(p, es, input);
  }

  lemma {:induction false} ElementsInOrder(p: Platform, es: seq<Expr>, input: Json)
    ensures match EvaluateAll(p, es, input)
            case Ok(vs) => |vs| == |es| && forall i | 0 <= i < |es| :: Evaluate(p, es[i], input) == Ok(vs[i])
            case Err(error) => exists i | 0 <= i < |es| ::
                Evaluate(p, es[i], input) == Err(error) && forall j | 0 <= j < i :: Evaluate(p, es[j], input).Ok?
    decreases |es|
  {
    hide Evaluate;
    if es != [] {
      var rest := es[1..];
      ElementsInOrder(p, rest, input);
      assert forall j | 1 <= j < |es| :: rest[j - 1] == es[j];
      if Evaluate(p, es[0], input).Ok? && EvaluateAll(p, rest, input).Err? {
        var error := EvaluateAll(p, rest, input).error;
        var i :| 0 <= i < |rest| && Evaluate(p, rest[i], input) == Err(error)
                 && forall j | 0 <= j < i :: Evaluate(p, rest[j], input).Ok?;
        forall j | 1 <= j < i + 1
          ensures Evaluate(p, es[j], input).Ok?
        {
          assert Evaluate(p, rest[j - 1], input).Ok?;
        }
        assert Evaluate(p, es[i + 1], input) == Err(error);
      }
    }
  }

  // An object literal that fails has the error of its first entry that fails.
  lemma {:induction false} ObjectFailsFirst(p: Platform, es: seq<Entry>, input: Json)
    requires Evaluate(p, Object(es), input).Err?
    ensures exists i | 0 <= i < |es| ::
      && Evaluate(p, es[i].value, input) == Evaluate(p, Object(es), input)
      && forall j | 0 <= j < i :: Evaluate(p, es[j].value, input).Ok?
  {
    var i := FirstToFail(p, es, input, map[]);
  }

  lemma {:induction false} FirstToFail(p: Platform, es: seq<Entry>, input: Json, sofar: Fields) returns (i: nat)
    requires EvaluateEntries(p, es, input, sofar).Err?
    ensures i < |es| && Evaluate(p, es[i].value, input) == Err(EvaluateEntries(p, es, input, sofar).error)
    ensures forall j | 0 <= j < i :: Evaluate(p, es[j].value, input).Ok?
    decreases |es|
  {
    hide Evaluate;
    i := 0;
    if Evaluate(p, es[0].value, input).Ok? {
      var rest := es[1..];
      var k := FirstToFail(p, rest, input, sofar[es[0].key := Evaluate(p, es[0].value, input).value]);
      i := k + 1;
      forall j | 1 <= j < i
        ensures Evaluate(p, es[j].value, input).Ok?
      {
        assert Evaluate(p, rest[j - 1].value, input).Ok?;
      }
    }
  }

  // -- The static check --

  // The expressions that may be the result: the branches of conditionals, of those in turn, and so on.
  predicate MayResult(x: Expr, e: Expr)
    decreases e
  {
    if e.Conditional? then MayResult(x, e.whenTrue) || MayResult(x, e.whenFalse) else x == e
  }

  // An expression passes the check exactly if whatever may be its result is an object literal.
  lemma {:induction false} CheckedExactly(e: Expr)
    ensures ObjectResult(e) <==> forall x | MayResult(x, e) :: x.Object?
    decreases e
  {
    if e.Conditional? {
      CheckedExactly(e.whenTrue);
      CheckedExactly(e.whenFalse);
    } else {
      assert MayResult(e, e);
    }
  }

  // A program runs on strings and safe numbers only, and gives what evaluation gives.
  lemma {:induction false} RunsOnScalars(p: Platform, e: Expr, input: Json)
    ensures input.JStr? || (input.JNum? && JsonSafe(input.n)) ==> Run(p, e, input) == Evaluate(p, e, input)
    ensures input.JNum? && !JsonSafe(input.n) ==> Run(p, e, input) == Err(UnsafeNumber)
    ensures !input.JStr? && !input.JNum? ==> Run(p, e, input) == Err(InvalidInput)
  {
  }
}
