// How packages/model-option-map/src/parser.ts groups operators, with the operators spelled out.

module CelGrouping {
  import opened Placement
  import opened CelTokenizer
  import opened CelParser
  import opened CelPrinting
  import opened CelRoundTrip

  // The classes of binary operators, from the loosest to the tightest.
  const CLASSES: seq<seq<string>> :=
    [["||"], ["&&"], ["==", "!="], ["<", "<=", ">", ">="], ["+", "-"], ["*", "/", "%"]]

  // The operator is one of the texts of the i-th class.
  predicate InClass(op: Text, i: nat) {
    i < |CLASSES| && exists j :: 0 <= j < |CLASSES[i]| && IsText(op, CLASSES[i][j])
  }

  predicate IsText(op: Text, s: string) {
    |op| == |s| && forall i | 0 <= i < |s| :: op[i] == s[i] as int
  }

  lemma {:induction false} LevelOfClass(op: Text, i: nat)
    requires InClass(op, i)
    ensures BinaryLevel(op) == i + 1
  {
    var j :| 0 <= j < |CLASSES[i]| && IsText(op, CLASSES[i][j]);
    var s := CLASSES[i][j];
    assert |op| == |s| && op[0] == s[0] as int && (|s| == 2 ==> op[1] == s[1] as int);
    assert |s| == 1 ==> op == [op[0]];
    assert |s| == 2 ==> op == [op[0], op[1]];
  }

  // -- Operands --

  // Any expression that the parser gives back, in parentheses unless it is a literal, a name, an array or an object.
  function Enclosed(t: Task, n: NumberText, e: Expr): seq<Token> {
    Render(n, t.variable, e, 8)
  }

  ghost predicate Readable(t: Task, n: NumberText, e: Expr) {
    Printable(t.numberOf, n, e) && Sound(n, t.variable, e)
  }

  lemma {:induction false} OpensNoOperator(n: NumberText, variable: Text, e: Expr)
    ensures Render(n, variable, e, 8) != [] && Render(n, variable, e, 8)[0].kind != Operator
  {
    FirstIsFirst(n, variable, e, 8);
  }

  // An operand is read at any level whose operators do not come next.
  lemma {:induction false} ReadsOperand(t: Task, n: NumberText, i: nat, e: Expr, level: nat)
    requires Readable(t, n, e) && NameRight(t.variable) && IsStream(t.tokens) && level <= 8
    requires var w := Enclosed(t, n, e);
             StandsAt(t.tokens, i, w) && i + |w| < |t.tokens| && Stops(t.tokens[i + |w|], level)
    ensures Position(t, i) && At(t, i, level) == Ok((e, i + |Enclosed(t, n, e)|))
  {
    hide Render, Printable, Sound, NameRight, IsStream, BinaryLevel, ConditionalAt, BinaryAt, Primary, Strings;
    var w := Enclosed(t, n, e);
    OpensNoOperator(n, t.variable, e);
    assert t.tokens[i] == t.tokens[i..i + |w|][0];
    Reads(t, n, i, e, 8);
    LiftDown(t, n, i, e, i + |w|, 8, level);
  }

  // What was read at one level is read at every looser one whose operators do not come next.
  lemma {:induction false} Looser(t: Task, n: NumberText, i: nat, e: Expr, j: nat, from: nat, to: nat)
    requires Readable(t, n, e) && Position(t, i) && j < |t.tokens| && to <= from <= 7
    requires At(t, i, from) == Ok((e, j)) && Stops(t.tokens[j], to)
    ensures At(t, i, to) == Ok((e, j))
  {
    hide Printable, Sound, IsStream, BinaryLevel, ConditionalAt, BinaryAt, Primary, Strings;
    LiftDown(t, n, i, e, j, from, to);
  }

  lemma {:induction false} OneOperator(t: Task, i: nat, op: Text, x: Expr, j: nat, y: Expr, k: nat)
    requires Position(t, i) && i < j < k < |t.tokens| && BinaryLevel(op) > 0 && t.tokens[j] == Op(op)
    requires BinaryAt(t, i, BinaryLevel(op) + 1) == Ok((x, j)) && BinaryAt(t, j + 1, BinaryLevel(op) + 1) == Ok((y, k))
    ensures BinaryAt(t, i, BinaryLevel(op)) == BinaryRest(t, k, BinaryLevel(op), Binary(op, x, y))
  {
    hide BinaryLevel;
  }

  lemma {:induction false} AnotherOperator(t: Task, k: nat, op: Text, left: Expr, z: Expr, l: nat)
    requires Position(t, k) && k < l < |t.tokens| && BinaryLevel(op) > 0 && t.tokens[k] == Op(op)
    requires BinaryAt(t, k + 1, BinaryLevel(op) + 1) == Ok((z, l))
    ensures BinaryRest(t, k, BinaryLevel(op), left) == BinaryRest(t, l, BinaryLevel(op), Binary(op, left, z))
  {
    hide BinaryLevel;
  }

  lemma {:induction false} NoMore(t: Task, k: nat, level: nat, left: Expr)
    requires Position(t, k) && 1 <= level <= 6
    requires t.tokens[k].kind == Operator ==> BinaryLevel(t.tokens[k].value) != level
    ensures BinaryRest(t, k, level, left) == Ok((left, k))
  {
    hide BinaryLevel;
  }

  // -- Two binary operators --

  // The operands x, y and z at 0, j + 1 and k + 1, the operators at j and k, the end at l.
  ghost predicate Laid(t: Task, n: NumberText, x: Expr, a: Text, j: nat, y: Expr, b: Text, k: nat, z: Expr, l: nat) {
    && IsStream(t.tokens) && 0 < j && j + 1 < k && k + 1 < l == |t.tokens| - 1
    && StandsAt(t.tokens, 0, Enclosed(t, n, x)) && j == |Enclosed(t, n, x)|
    && StandsAt(t.tokens, j + 1, Enclosed(t, n, y)) && k == j + 1 + |Enclosed(t, n, y)|
    && StandsAt(t.tokens, k + 1, Enclosed(t, n, z)) && l == k + 1 + |Enclosed(t, n, z)|
    && t.tokens[j] == Op(a) && t.tokens[k] == Op(b) && t.tokens[l] == EOF
  }

  // Three parts and the tokens between them.
  lemma {:induction false} Between(ts: seq<Token>, i: nat, x: seq<Token>, p: Token, y: seq<Token>, q: Token,
                                   rest: seq<Token>)
    requires StandsAt(ts, i, x + ([p] + (y + ([q] + rest))))
    ensures var j := i + |x|;
            var k := j + 1 + |y|;
      && k + 1 + |rest| <= |ts| && ts[j] == p && ts[k] == q
      && StandsAt(ts, i, x) && StandsAt(ts, j + 1, y) && StandsAt(ts, k + 1, rest)
  {
    Around(ts, i, x, p, y + ([q] + rest));
    Around(ts, i + |x| + 1, y, q, rest);
  }

  lemma {:induction false} WholeBetween(ts: seq<Token>, x: seq<Token>, p: Token, y: seq<Token>, q: Token,
                                        rest: seq<Token>)
    requires ts == x + ([p] + (y + ([q] + rest)))
    ensures var j := |x|;
            var k := j + 1 + |y|;
      && k + 1 + |rest| == |ts| && ts[j] == p && ts[k] == q
      && StandsAt(ts, 0, x) && StandsAt(ts, j + 1, y) && StandsAt(ts, k + 1, rest)
  {
    Between(ts, 0, x, p, y, q, rest);
  }

  lemma {:induction false} AtTheEnd(ts: seq<Token>, i: nat, x: seq<Token>)
    requires StandsAt(ts, i, x + [EOF]) && i + |x| + 1 == |ts|
    ensures StandsAt(ts, i, x) && ts[i + |x|] == EOF
  {
    PartsStand(ts, i, x, [EOF]);
  }

  lemma {:induction false} Lays(t: Task, n: NumberText, x: Expr, a: Text, y: Expr, b: Text, z: Expr)
    returns (j: nat, k: nat, l: nat)
    requires IsStream(t.tokens)
    requires t.tokens == Enclosed(t, n, x) + ([Op(a)] + (Enclosed(t, n, y) + ([Op(b)] + (Enclosed(t, n, z) + [EOF]))))
    ensures Laid(t, n, x, a, j, y, b, k, z, l)
  {
    hide Enclosed, IsStream, StandsAt;
    var rx, ry, rz := Enclosed(t, n, x), Enclosed(t, n, y), Enclosed(t, n, z);
    j := |rx|;
    k := j + 1 + |ry|;
    l := k + 1 + |rz|;
    AllSomething(t, n, x, y, z);
    WholeBetween(t.tokens, rx, Op(a), ry, Op(b), rz + [EOF]);
    AtTheEnd(t.tokens, k + 1, rz);
  }

  lemma {:induction false} OperatorStopsAbove(op: Text, level: nat)
    requires 0 < BinaryLevel(op) < level
    ensures Stops(Op(op), level)
  {
    assert LPAREN[0] == Unit('(') && |LPAREN| == 1 && QUESTION[0] == Unit('?') && |QUESTION| == 1;
  }

  lemma {:induction false} EndStops(level: nat)
    ensures Stops(EOF, level)
  {
    assert |LPAREN| == 1 && |QUESTION| == 1;
  }

  // The second operator binds tighter.
  lemma {:induction false} GroupsToTheRight(t: Task, n: NumberText, x: Expr, a: Text, j: nat, y: Expr, b: Text, k: nat,
                                            z: Expr, l: nat)
    requires Readable(t, n, x) && Readable(t, n, y) && Readable(t, n, z) && NameRight(t.variable)
    requires Laid(t, n, x, a, j, y, b, k, z, l) && 0 < BinaryLevel(a) < BinaryLevel(b)
    ensures ConditionalAt(t, 0) == Ok((Binary(a, x, Binary(b, y, z)), l))
  {
    hide Enclosed, Printable, NameRight, IsStream, BinaryLevel, ConditionalAt, BinaryAt, BinaryRest, Sound;
    var right, whole := Binary(b, y, z), Binary(a, x, Binary(b, y, z));
    OperatorStopsAbove(a, BinaryLevel(a) + 1);
    OperatorStopsAbove(b, BinaryLevel(b) + 1);
    EndStops(BinaryLevel(b) + 1);
    EndStops(BinaryLevel(a) + 1);
    EndStops(0);
    ReadsOperand(t, n, 0, x, BinaryLevel(a) + 1);
    ReadsOperand(t, n, j + 1, y, BinaryLevel(b) + 1);
    ReadsOperand(t, n, k + 1, z, BinaryLevel(b) + 1);
    OneOperator(t, j + 1, b, y, k, z, l);
    NoMore(t, l, BinaryLevel(b), right);
    BothReadable(t, n, b, y, z);
    BothReadable(t, n, a, x, right);
    Looser(t, n, j + 1, right, l, BinaryLevel(b), BinaryLevel(a) + 1);
    OneOperator(t, 0, a, x, j, right, l);
    NoMore(t, l, BinaryLevel(a), whole);
    Looser(t, n, 0, whole, l, BinaryLevel(a), 0);
  }

  // The first operator binds as tight as the second or tighter.
  lemma {:induction false} GroupsToTheLeft(t: Task, n: NumberText, x: Expr, a: Text, j: nat, y: Expr, b: Text, k: nat,
                                           z: Expr, l: nat)
    requires Readable(t, n, x) && Readable(t, n, y) && Readable(t, n, z) && NameRight(t.variable)
    requires Laid(t, n, x, a, j, y, b, k, z, l) && 0 < BinaryLevel(b) <= BinaryLevel(a)
    ensures ConditionalAt(t, 0) == Ok((Binary(b, Binary(a, x, y), z), l))
  {
    hide Enclosed, Printable, NameRight, IsStream, BinaryLevel, ConditionalAt, BinaryAt, BinaryRest, Sound;
    var left, whole := Binary(a, x, y), Binary(b, Binary(a, x, y), z);
    OperatorStopsAbove(a, BinaryLevel(a) + 1);
    OperatorStopsAbove(b, BinaryLevel(a) + 1);
    OperatorStopsAbove(b, BinaryLevel(b) + 1);
    EndStops(BinaryLevel(b) + 1);
    EndStops(0);
    ReadsOperand(t, n, 0, x, BinaryLevel(a) + 1);
    ReadsOperand(t, n, j + 1, y, BinaryLevel(a) + 1);
    ReadsOperand(t, n, k + 1, z, BinaryLevel(b) + 1);
    OneOperator(t, 0, a, x, j, y, k);
    BothReadable(t, n, a, x, y);
    BothReadable(t, n, b, left, z);
    if BinaryLevel(a) == BinaryLevel(b) {
      AnotherOperator(t, k, b, left, z, l);
    } else {
      NoMore(t, k, BinaryLevel(a), left);
      Looser(t, n, 0, left, k, BinaryLevel(a), BinaryLevel(b) + 1);
      OneOperator(t, 0, b, left, k, z, l);
    }
    NoMore(t, l, BinaryLevel(b), whole);
    Looser(t, n, 0, whole, l, BinaryLevel(b), 0);
  }

  lemma {:induction false} BothReadable(t: Task, n: NumberText, op: Text, x: Expr, y: Expr)
    requires Readable(t, n, x) && Readable(t, n, y) && BinaryLevel(op) > 0
    ensures Readable(t, n, Binary(op, x, y))
  {
    hide BinaryLevel;
  }

  // `x a y b z` groups to the right exactly if b is of a later, tighter class than a.
  lemma {:induction false} OperatorsGroup(t: Task, n: NumberText, x: Expr, a: Text, i: nat, y: Expr, b: Text, m: nat,
                                          z: Expr)
    requires Readable(t, n, x) && Readable(t, n, y) && Readable(t, n, z) && NameRight(t.variable)
    requires InClass(a, i) && InClass(b, m) && IsStream(t.tokens)
    requires t.tokens == Enclosed(t, n, x) + ([Op(a)] + (Enclosed(t, n, y) + ([Op(b)] + (Enclosed(t, n, z) + [EOF]))))
    ensures Parse(t) == Ok(if m > i then Binary(a, x, Binary(b, y, z)) else Binary(b, Binary(a, x, y), z))
  {
    hide Enclosed, Readable, NameRight, IsStream, BinaryLevel, ConditionalAt, InClass;
    LevelOfClass(a, i);
    LevelOfClass(b, m);
    var j, k, l := Lays(t, n, x, a, y, b, z);
    if m > i {
      GroupsToTheRight(t, n, x, a, j, y, b, k, z, l);
    } else {
      GroupsToTheLeft(t, n, x, a, j, y, b, k, z, l);
    }
  }

  // -- Prefix operators and conditionals --

  lemma {:induction false} PrefixLaid(ts: seq<Token>, p: Token, x: seq<Token>, q: Token, y: seq<Token>)
    requires ts == [p] + (x + ([q] + (y + [EOF])))
    ensures |ts| == |x| + |y| + 3 && ts[0] == p && ts[1 + |x|] == q && ts[|ts| - 1] == EOF
    ensures StandsAt(ts, 1, x) && StandsAt(ts, 2 + |x|, y)
  {
    PartsStand(ts, 0, [p], x + ([q] + (y + [EOF])));
    Around(ts, 1, x, q, y + [EOF]);
    PartsStand(ts, 2 + |x|, y, [EOF]);
  }

  lemma {:induction false} PrefixGroups(t: Task, n: NumberText, prefix: Text, x: Expr, j: nat, a: Text, y: Expr, l: nat)
    requires Readable(t, n, x) && Readable(t, n, y) && NameRight(t.variable) && IsStream(t.tokens)
    requires IsText(prefix, "!") || IsText(prefix, "-") || IsText(prefix, "+")
    requires 0 < BinaryLevel(a) && 1 < j && j + 1 < l == |t.tokens| - 1
    requires t.tokens[0] == Op(prefix) && t.tokens[j] == Op(a) && t.tokens[l] == EOF
    requires StandsAt(t.tokens, 1, Enclosed(t, n, x)) && j == 1 + |Enclosed(t, n, x)|
    requires StandsAt(t.tokens, j + 1, Enclosed(t, n, y)) && l == j + 1 + |Enclosed(t, n, y)|
    ensures ConditionalAt(t, 0) == Ok((Binary(a, Unary(prefix, x), y), l))
  {
    hide Enclosed, Readable, NameRight, IsStream, BinaryLevel, ConditionalAt, BinaryAt, BinaryRest, Stops, StandsAt,
         IsText;
    OperatorStopsAbove(a, 7);
    OperatorStopsAbove(a, BinaryLevel(a) + 1);
    EndStops(BinaryLevel(a) + 1);
    EndStops(0);
    ReadsOperand(t, n, 1, x, 7);
    PrefixAt(t, 0, prefix, x, j);
    PrefixReadable(t, n, prefix, x);
    Looser(t, n, 0, Unary(prefix, x), j, 7, BinaryLevel(a) + 1);
    ReadsOperand(t, n, j + 1, y, BinaryLevel(a) + 1);
    OneOperator(t, 0, a, Unary(prefix, x), j, y, l);
    BothReadable(t, n, a, Unary(prefix, x), y);
    NoMore(t, l, BinaryLevel(a), Binary(a, Unary(prefix, x), y));
    Looser(t, n, 0, Binary(a, Unary(prefix, x), y), l, BinaryLevel(a), 0);
  }

  // A prefix operator takes the operand next to it and leaves the binary operator behind it alone.
  lemma {:induction false} PrefixBindsTightest(t: Task, n: NumberText, prefix: Text, x: Expr, a: Text, i: nat, y: Expr)
    requires Readable(t, n, x) && Readable(t, n, y) && NameRight(t.variable)
    requires IsText(prefix, "!") || IsText(prefix, "-") || IsText(prefix, "+")
    requires InClass(a, i) && IsStream(t.tokens)
    requires t.tokens == [Op(prefix)] + (Enclosed(t, n, x) + ([Op(a)] + (Enclosed(t, n, y) + [EOF])))
    ensures Parse(t) == Ok(Binary(a, Unary(prefix, x), y))
  {
    hide Enclosed, Readable, NameRight, IsStream, BinaryLevel, ConditionalAt, InClass, StandsAt, IsText;
    LevelOfClass(a, i);
    var rx, ry := Enclosed(t, n, x), Enclosed(t, n, y);
    AllSomething(t, n, x, y, y);
    PrefixLaid(t.tokens, Op(prefix), rx, Op(a), ry);
    PrefixGroups(t, n, prefix, x, 1 + |rx|, a, y, 2 + |rx| + |ry|);
  }

  lemma {:induction false} EnclosedIsSomething(t: Task, n: NumberText, e: Expr)
    ensures |Enclosed(t, n, e)| > 0
  {
    OpensNoOperator(n, t.variable, e);
  }

  lemma {:induction false} PrefixAt(t: Task, i: nat, prefix: Text, x: Expr, j: nat)
    requires Position(t, i + 1) && t.tokens[i] == Op(prefix)
    requires IsText(prefix, "!") || IsText(prefix, "-") || IsText(prefix, "+")
    requires BinaryAt(t, i + 1, 7) == Ok((x, j))
    ensures At(t, i, 7) == Ok((Unary(prefix, x), j))
  {
    hide Primary, BinaryRest;
    assert prefix == [prefix[0]];
    assert BinaryAt(t, i + 1, 7) == UnaryAt(t, i + 1);
    assert BinaryAt(t, i, 7) == UnaryAt(t, i);
  }

  lemma {:induction false} PrefixReadable(t: Task, n: NumberText, prefix: Text, x: Expr)
    requires Readable(t, n, x) && (IsText(prefix, "!") || IsText(prefix, "-") || IsText(prefix, "+"))
    ensures Readable(t, n, Unary(prefix, x))
  {
    assert prefix == [prefix[0]];
  }

  lemma {:induction false} ConditionalStep(t: Task, i: nat, c: Expr, j: nat, x: Expr, k: nat, y: Expr, l: nat)
    requires Position(t, i) && i < j < k < l < |t.tokens|
    requires BinaryAt(t, i, 1) == Ok((c, j)) && t.tokens[j] == Punct(QUESTION)
    requires ConditionalAt(t, j + 1) == Ok((x, k)) && t.tokens[k] == Punct(COLON)
    requires ConditionalAt(t, k + 1) == Ok((y, l))
    ensures ConditionalAt(t, i) == Ok((Conditional(c, x, y), l))
  {
    hide BinaryAt;
    ConditionalUnfolds(t, i);
  }

  lemma {:induction false} MarksStop()
    ensures Stops(Punct(QUESTION), 1) && Stops(Punct(COLON), 0)
  {
    TextsDiffer();
  }

  lemma {:induction false} OneConditional(t: Task, n: NumberText, i: nat, w: Expr, u: Expr, v: Expr)
    requires Readable(t, n, w) && Readable(t, n, u) && Readable(t, n, v) && NameRight(t.variable) && IsStream(t.tokens)
    requires StandsAt(t.tokens, i, Inner(t, n, w, u, v)) && i + |Inner(t, n, w, u, v)| == |t.tokens|
    ensures Position(t, i) && ConditionalAt(t, i) == Ok((Conditional(w, u, v), |t.tokens| - 1))
  {
    hide Enclosed, Readable, NameRight, BinaryLevel, ConditionalAt, BinaryAt, Stops, StandsAt;
    var rw, ru, rv := Enclosed(t, n, w), Enclosed(t, n, u), Enclosed(t, n, v);
    var j := i + |rw|;
    var k := j + 1 + |ru|;
    var l := k + 1 + |rv|;
    Between(t.tokens, i, rw, Punct(QUESTION), ru, Punct(COLON), rv + [EOF]);
    AtTheEnd(t.tokens, k + 1, rv);
    AllSomething(t, n, w, u, v);
    MarksStop();
    EndStops(0);
    ReadsOperand(t, n, i, w, 1);
    ReadsOperand(t, n, j + 1, u, 0);
    ReadsOperand(t, n, k + 1, v, 0);
    ConditionalStep(t, i, w, j, u, k, v, l);
  }

  // What is behind a condition.
  function Inner(t: Task, n: NumberText, w: Expr, u: Expr, v: Expr): seq<Token> {
    Enclosed(t, n, w) + ([Punct(QUESTION)] + (Enclosed(t, n, u) + ([Punct(COLON)] + (Enclosed(t, n, v) + [EOF]))))
  }

  lemma {:induction false} ConditionalLaid(ts: seq<Token>, x: seq<Token>, p: Token, y: seq<Token>, q: Token,
                                           z: seq<Token>, r: Token, inner: seq<Token>)
    requires ts == x + ([p] + (y + ([q] + (z + ([r] + inner)))))
    ensures var j := |x|;
            var k := j + 1 + |y|;
            var l := k + 1 + |z|;
      && |ts| == l + 1 + |inner| && ts[j] == p && ts[k] == q && ts[l] == r
      && StandsAt(ts, 0, x) && StandsAt(ts, j + 1, y) && StandsAt(ts, k + 1, z) && StandsAt(ts, l + 1, inner)
  {
    WholeBetween(ts, x, p, y, q, z + ([r] + inner));
    Around(ts, |x| + |y| + 2, z, r, inner);
  }

  // A conditional is looser than every operator, and the one in its last place belongs to it: `x a y ? z : w ? u : v`.
  lemma {:induction false} ConditionalsAreLoosest(t: Task, n: NumberText, x: Expr, a: Text, i: nat, y: Expr, z: Expr,
                                                  w: Expr, u: Expr, v: Expr)
    requires Readable(t, n, x) && Readable(t, n, y) && Readable(t, n, z) && Readable(t, n, w) && Readable(t, n, u)
    requires Readable(t, n, v) && NameRight(t.variable) && InClass(a, i) && IsStream(t.tokens)
    requires t.tokens == Enclosed(t, n, x) + ([Op(a)] + (Enclosed(t, n, y) + ([Punct(QUESTION)]
                         + (Enclosed(t, n, z) + ([Punct(COLON)] + Inner(t, n, w, u, v))))))
    ensures Parse(t) == Ok(Conditional(Binary(a, x, y), z, Conditional(w, u, v)))
  {
    hide Enclosed, Inner, Readable, NameRight, BinaryLevel, ConditionalAt, BinaryAt, InClass, Stops, StandsAt;
    LevelOfClass(a, i);
    AllSomething(t, n, x, y, z);
    AllSomething(t, n, w, u, v);
    var rx, ry, rz := Enclosed(t, n, x), Enclosed(t, n, y), Enclosed(t, n, z);
    ConditionalLaid(t.tokens, rx, Op(a), ry, Punct(QUESTION), rz, Punct(COLON), Inner(t, n, w, u, v));
    ConditionalGroups(t, n, x, a, |rx|, y, |rx| + 1 + |ry|, z, |rx| + |ry| + 2 + |rz|, w, u, v);
  }

  lemma {:induction false} ConditionalGroups(t: Task, n: NumberText, x: Expr, a: Text, j: nat, y: Expr, k: nat, z: Expr,
                                             l: nat, w: Expr, u: Expr, v: Expr)
    requires Readable(t, n, x) && Readable(t, n, y) && Readable(t, n, z) && Readable(t, n, w) && Readable(t, n, u)
    requires Readable(t, n, v) && NameRight(t.variable) && IsStream(t.tokens)
    requires 0 < BinaryLevel(a) && 0 < j && j + 1 < k && k + 1 < l < |t.tokens|
    requires t.tokens[j] == Op(a) && t.tokens[k] == Punct(QUESTION) && t.tokens[l] == Punct(COLON)
    requires StandsAt(t.tokens, 0, Enclosed(t, n, x)) && j == |Enclosed(t, n, x)|
    requires StandsAt(t.tokens, j + 1, Enclosed(t, n, y)) && k == j + 1 + |Enclosed(t, n, y)|
    requires StandsAt(t.tokens, k + 1, Enclosed(t, n, z)) && l == k + 1 + |Enclosed(t, n, z)|
    requires StandsAt(t.tokens, l + 1, Inner(t, n, w, u, v)) && l + 1 + |Inner(t, n, w, u, v)| == |t.tokens|
    ensures ConditionalAt(t, 0) == Ok((Conditional(Binary(a, x, y), z, Conditional(w, u, v)), |t.tokens| - 1))
  {
    hide Enclosed, Readable, NameRight, IsStream, BinaryLevel, ConditionalAt, BinaryAt, Stops, StandsAt;
    MarksStop();
    AllSomething(t, n, w, u, v);
    SumBefore(t, n, x, a, j, y, k);
    ReadsOperand(t, n, k + 1, z, 0);
    OneConditional(t, n, l + 1, w, u, v);
    ConditionalStep(t, 0, Binary(a, x, y), k, z, l, Conditional(w, u, v), |t.tokens| - 1);
  }

  lemma {:induction false} AllSomething(t: Task, n: NumberText, x: Expr, y: Expr, z: Expr)
    ensures |Enclosed(t, n, x)| > 0 && |Enclosed(t, n, y)| > 0 && |Enclosed(t, n, z)| > 0
  {
    EnclosedIsSomething(t, n, x);
    EnclosedIsSomething(t, n, y);
    EnclosedIsSomething(t, n, z);
  }

  // A binary expression in front of a question mark.
  lemma {:induction false} SumBefore(t: Task, n: NumberText, x: Expr, a: Text, j: nat, y: Expr, k: nat)
    requires Readable(t, n, x) && Readable(t, n, y) && NameRight(t.variable) && IsStream(t.tokens)
    requires BinaryLevel(a) > 0 && 0 < j && j + 1 < k < |t.tokens|
    requires StandsAt(t.tokens, 0, Enclosed(t, n, x)) && j == |Enclosed(t, n, x)| && t.tokens[j] == Op(a)
    requires StandsAt(t.tokens, j + 1, Enclosed(t, n, y)) && k == j + 1 + |Enclosed(t, n, y)|
    requires t.tokens[k] == Punct(QUESTION)
    ensures BinaryAt(t, 0, 1) == Ok((Binary(a, x, y), k))
  {
    hide Enclosed, Printable, NameRight, IsStream, BinaryLevel, ConditionalAt, BinaryAt, BinaryRest, Sound;
    var level := BinaryLevel(a);
    OperatorStopsAbove(a, level + 1);
    MarksStop();
    ReadsOperand(t, n, 0, x, level + 1);
    ReadsOperand(t, n, j + 1, y, level + 1);
    OneOperator(t, 0, a, x, j, y, k);
    NoMore(t, k, level, Binary(a, x, y));
    BothReadable(t, n, a, x, y);
    Looser(t, n, 0, Binary(a, x, y), k, level, 1);
  }
}
