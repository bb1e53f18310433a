// Parsing undoes printing, exactly for the sound trees.

module CelRoundTrip {
  import opened Placement
  import opened CelTokenizer
  import opened CelParser
  import opened CelPrinting

  // A token between two parts.
  lemma {:induction false} Around(ts: seq<Token>, i: nat, a: seq<Token>, token: Token, b: seq<Token>)
    requires StandsAt(ts, i, a + ([token] + b))
    ensures StandsAt(ts, i, a) && StandsAt(ts, i + |a| + 1, b)
    ensures i + |a| + 1 + |b| <= |ts| && ts[i + |a|] == token
  {
    PartsStand(ts, i, a, [token] + b);
    PartsStand(ts, i + |a|, [token], b);
  }

  // An expression of precedence `min` ends before this token: it is no operator that would carry on.
  predicate Stops(token: Token, min: nat) {
    && !(token.kind == Operator && BinaryLevel(token.value) > 0 && BinaryLevel(token.value) >= min)
    && token.value != LPAREN
    && (min == 0 ==> token.value != QUESTION)
  }

  // The parse function for expressions of at least the precedence `min`.
  function At(t: Task, i: nat, min: nat): (r: Parsed)
    requires Position(t, i) && min <= 8
    ensures Advanced(t, i, r)
  {
    if min == 0 then ConditionalAt(t, i) else if min <= 7 then BinaryAt(t, i, min) else Primary(t, i)
  }

  // A parse that fails, or makes fewer strings than it reads string tokens.
  ghost predicate Astray(t: Task, i: nat, r: Parsed)
    requires i <= |t.tokens| && Advanced(t, i, r)
  {
    r.Ok? ==> Strings(r.value.0) < StringsBefore(t.tokens, r.value.1) - StringsBefore(t.tokens, i)
  }

  // What a parse of the rendered `e` comes to: `e` itself if it is sound, and something astray if it is not.
  ghost predicate Outcome(t: Task, n: NumberText, i: nat, r: Parsed, e: Expr, j: nat)
    requires i <= |t.tokens| && Advanced(t, i, r)
  {
    if Sound(n, t.variable, e) then r == Ok((e, j)) else Astray(t, i, r)
  }

  // -- From one precedence level to the ones below --

  lemma {:induction false} LiftDown(t: Task, n: NumberText, i: nat, e: Expr, j: nat, from: nat, to: nat)
    requires Position(t, i) && j < |t.tokens| && to <= from <= 8
    requires Outcome(t, n, i, At(t, i, from), e, j)
    requires Stops(t.tokens[j], to)
    requires from == 8 ==> t.tokens[i].kind != Operator
    ensures Outcome(t, n, i, At(t, i, to), e, j)
    decreases from
  {
    if to < from {
      if from == 1 {
        LiftToConditional(t, n, i, e, j);
      } else if from == 8 {
        assert BinaryAt(t, i, 7) == UnaryAt(t, i) == Primary(t, i);
      } else {
        LiftToBinary(t, n, i, e, j, from - 1);
      }
      LiftDown(t, n, i, e, j, from - 1, to);
    }
  }

  lemma {:induction false} LiftToConditional(t: Task, n: NumberText, i: nat, e: Expr, j: nat)
    requires Position(t, i) && j < |t.tokens|
    requires Outcome(t, n, i, BinaryAt(t, i, 1), e, j) && t.tokens[j].value != QUESTION
    ensures Outcome(t, n, i, ConditionalAt(t, i), e, j)
  {
    hide BinaryAt, Strings, StringsBefore, Sound;
    if !Sound(n, t.variable, e) {
      AstrayCondition(t, i);
    }
  }

  lemma {:induction false} AstrayCondition(t: Task, i: nat)
    requires Position(t, i) && Astray(t, i, BinaryAt(t, i, 1))
    ensures Astray(t, i, ConditionalAt(t, i))
  {
    hide BinaryAt, StringsBefore;
    var c := BinaryAt(t, i, 1);
    if c.Ok? && t.tokens[c.value.1].value == QUESTION {
      ConditionalCounts(t, c.value.1 + 1);
      NextStrings(t.tokens, c.value.1);
      var x := ConditionalAt(t, c.value.1 + 1);
      if x.Ok? && t.tokens[x.value.1].value == COLON {
        ConditionalCounts(t, x.value.1 + 1);
        NextStrings(t.tokens, x.value.1);
      }
    }
  }

  lemma {:induction false} NextStrings(ts: seq<Token>, i: nat)
    requires i < |ts|
    ensures StringsBefore(ts, i + 1) == StringsBefore(ts, i) + if ts[i].kind == String then 1 else 0
  {
  }

  lemma {:induction false} LiftToBinary(t: Task, n: NumberText, i: nat, e: Expr, j: nat, level: nat)
    requires Position(t, i) && j < |t.tokens| && 1 <= level <= 6
    requires Outcome(t, n, i, BinaryAt(t, i, level + 1), e, j)
    requires !(t.tokens[j].kind == Operator && BinaryLevel(t.tokens[j].value) == level)
    ensures Outcome(t, n, i, BinaryAt(t, i, level), e, j)
  {
    hide Strings, StringsBefore, Sound;
    if !Sound(n, t.variable, e) {
      AstrayLeft(t, i, level);
    }
  }

  lemma {:induction false} AstrayLeft(t: Task, i: nat, level: nat)
    requires Position(t, i) && 1 <= level <= 6 && Astray(t, i, BinaryAt(t, i, level + 1))
    ensures Astray(t, i, BinaryAt(t, i, level))
  {
    hide Strings, StringsBefore, BinaryRest;
    var left := BinaryAt(t, i, level + 1);
    if left.Ok? {
      RestCounts(t, left.value.1, level, left.value.0);
    }
  }

  // -- Every tree at every level --

  lemma {:induction false} Reads(t: Task, n: NumberText, i: nat, e: Expr, min: nat)
    requires Printable(t.numberOf, n, e) && NameRight(t.variable) && IsStream(t.tokens) && min <= 8
    requires var w := Render(n, t.variable, e, min);
             StandsAt(t.tokens, i, w) && i + |w| < |t.tokens| && Stops(t.tokens[i + |w|], min)
    ensures Position(t, i) && Outcome(t, n, i, At(t, i, min), e, i + |Render(n, t.variable, e, min)|)
    decreases e, 3
  {
    hide Bare, Primary, ConditionalAt, BinaryAt, UnaryAt, StandsAt, IsStream, NameRight, Printable, Outcome,
         Sound, BinaryLevel;
    FirstIsFirst(n, t.variable, e, min);
    var j := i + |Render(n, t.variable, e, min)|;
    if Prec(e) < min {
      ReadsParenthesized(t, n, i, e, min);
      LiftDown(t, n, i, e, j, 8, min);
    } else {
      ReadsBare(t, n, i, e);
      LiftDown(t, n, i, e, j, Prec(e), min);
    }
  }

  lemma {:induction false} ParenthesesNode(t: Task, n: NumberText, i: nat, e: Expr, j: nat)
    requires Position(t, i) && i + 1 < j < |t.tokens| - 1
    requires t.tokens[i] == Punct(LPAREN) && t.tokens[j] == Punct(RPAREN)
    requires Outcome(t, n, i + 1, ConditionalAt(t, i + 1), e, j)
    ensures Outcome(t, n, i, Primary(t, i), e, j + 1)
  {
    hide ConditionalAt, Strings, StringsBefore, Sound;
    NextStrings(t.tokens, i);
    var inner := ConditionalAt(t, i + 1);
    if inner.Ok? {
      NextStrings(t.tokens, inner.value.1);
    }
  }

  lemma {:induction false} ReadsParenthesized(t: Task, n: NumberText, i: nat, e: Expr, min: nat)
    requires Printable(t.numberOf, n, e) && NameRight(t.variable) && IsStream(t.tokens) && Prec(e) < min <= 8
    requires StandsAt(t.tokens, i, Render(n, t.variable, e, min)) && i + |Render(n, t.variable, e, min)| < |t.tokens|
    ensures Position(t, i) && t.tokens[i].kind != Operator
    ensures Outcome(t, n, i, Primary(t, i), e, i + |Render(n, t.variable, e, min)|)
    decreases e, 2
  {
    hide Primary, ConditionalAt, BinaryAt, Bare, Outcome;
    var b := Bare(n, t.variable, e);
    PartsStand(t.tokens, i, [Punct(LPAREN)], b + [Punct(RPAREN)]);
    PartsStand(t.tokens, i + 1, b, [Punct(RPAREN)]);
    ReadsBare(t, n, i + 1, e);
    var j := i + 1 + |b|;
    LiftDown(t, n, i + 1, e, j, Prec(e), 0);
    FirstIsFirst(n, t.variable, e, 0);
    ParenthesesNode(t, n, i, e, j);
  }

  // An expression without parentheses around it, read at its own level.
  lemma {:induction false} ReadsBare(t: Task, n: NumberText, i: nat, e: Expr)
    requires Printable(t.numberOf, n, e) && NameRight(t.variable) && IsStream(t.tokens)
    requires var w := Bare(n, t.variable, e);
             StandsAt(t.tokens, i, w) && i + |w| < |t.tokens| && Stops(t.tokens[i + |w|], Prec(e))
    ensures Position(t, i) && (Prec(e) == 8 ==> t.tokens[i].kind != Operator)
    ensures Outcome(t, n, i, At(t, i, Prec(e)), e, i + |Bare(n, t.variable, e)|)
    decreases e, 1
  {
    hide Primary, UnaryAt, ConditionalAt, BinaryAt, Bare, Render, Printable, Outcome, StandsAt, IsStream, NameRight;
    match e
    case Literal(_) => ReadsLeaf(t, n, i, e);
    case Input => ReadsLeaf(t, n, i, e);
    case Array(es) => ReadsArray(t, n, i, es);
    case Object(es) => ReadsObject(t, n, i, es);
    case Unary(op, x) => ReadsUnary(t, n, i, op, x);
    case Binary(op, l, r) => ReadsBinary(t, n, i, op, l, r);
    case Conditional(c, x, y) => ReadsConditional(t, n, i, c, x, y);
  }

  lemma {:induction false} ReadsLeaf(t: Task, n: NumberText, i: nat, e: Expr)
    requires Printable(t.numberOf, n, e) && NameRight(t.variable) && IsStream(t.tokens) && (e.Literal? || e.Input?)
    requires var w := Bare(n, t.variable, e);
             StandsAt(t.tokens, i, w) && i + |w| < |t.tokens| && Stops(t.tokens[i + |w|], 8)
    ensures Position(t, i) && t.tokens[i].kind != Operator
    ensures Outcome(t, n, i, Primary(t, i), e, i + |Bare(n, t.variable, e)|)
  {
    assert t.tokens[i] == Bare(n, t.variable, e)[0];
  }

  lemma {:induction false} ReadsUnary(t: Task, n: NumberText, i: nat, op: Text, x: Expr)
    requires var e := Unary(op, x); var w := Bare(n, t.variable, e);
             && Printable(t.numberOf, n, e) && NameRight(t.variable) && IsStream(t.tokens)
             && StandsAt(t.tokens, i, w) && i + |w| < |t.tokens| && Stops(t.tokens[i + |w|], 7)
    ensures Position(t, i)
    ensures Outcome(t, n, i, BinaryAt(t, i, 7), Unary(op, x), i + |Bare(n, t.variable, Unary(op, x))|)
    decreases Unary(op, x), 0
  {
    hide Render, StringsBefore;
    PartsStand(t.tokens, i, [Op(op)], Render(n, t.variable, x, 7));
    Reads(t, n, i + 1, x, 7);
    NextStrings(t.tokens, i);
  }

  lemma {:induction false} ConditionalNode(t: Task, n: NumberText, i: nat, c: Expr, j: nat, x: Expr, k: nat, y: Expr,
                                           l: nat)
    requires Position(t, i) && i < j < k < l < |t.tokens|
    requires Outcome(t, n, i, BinaryAt(t, i, 1), c, j) && t.tokens[j] == Punct(QUESTION)
    requires Outcome(t, n, j + 1, ConditionalAt(t, j + 1), x, k) && t.tokens[k] == Punct(COLON)
    requires Outcome(t, n, k + 1, ConditionalAt(t, k + 1), y, l)
    ensures Outcome(t, n, i, ConditionalAt(t, i), Conditional(c, x, y), l)
  {
    hide BinaryAt, StringsBefore, ConditionalAt;
    if !Sound(n, t.variable, c) {
      AstrayCondition(t, i);
    } else {
      BinaryCounts(t, i, 1);
      NextStrings(t.tokens, j);
      ConditionalUnfolds(t, i);
      var rest := ConditionalAt(t, j + 1);
      ConditionalCounts(t, j + 1);
      if rest.Ok? {
        NextStrings(t.tokens, rest.value.1);
        if t.tokens[rest.value.1].value == COLON {
          ConditionalCounts(t, rest.value.1 + 1);
        }
      }
    }
  }

  lemma {:induction false} ConditionalUnfolds(t: Task, i: nat)
    requires Position(t, i)
    ensures var c, r := BinaryAt(t, i, 1), ConditionalAt(t, i);
            c.Ok? && t.tokens[c.value.1].value == QUESTION ==>
              var x := ConditionalAt(t, c.value.1 + 1);
              && (x.Err? ==> r.Err?)
              && (x.Ok? && t.tokens[x.value.1].value != COLON ==> r.Err?)
              && (x.Ok? && t.tokens[x.value.1].value == COLON ==>
                    var y := ConditionalAt(t, x.value.1 + 1);
                    r == match y
                         case Err(e) => Err(e)
                         case Ok((w, l)) => Ok((Conditional(c.value.0, x.value.0, w), l)))
  {
  }

  lemma {:induction false} ReadsConditional(t: Task, n: NumberText, i: nat, c: Expr, x: Expr, y: Expr)
    requires var e := Conditional(c, x, y); var w := Bare(n, t.variable, e);
             && Printable(t.numberOf, n, e) && NameRight(t.variable) && IsStream(t.tokens)
             && StandsAt(t.tokens, i, w) && i + |w| < |t.tokens| && Stops(t.tokens[i + |w|], 0)
    ensures Position(t, i)
    ensures Outcome(t, n, i, ConditionalAt(t, i), Conditional(c, x, y),
                    i + |Bare(n, t.variable, Conditional(c, x, y))|)
    decreases Conditional(c, x, y), 0
  {
    hide Render, StandsAt, IsStream, Stops, ConditionalAt, BinaryAt, Outcome;
    var rc, rx, ry := Render(n, t.variable, c, 1), Render(n, t.variable, x, 0), Render(n, t.variable, y, 0);
    var j := i + |rc|;
    var k := j + 1 + |rx|;
    ConditionalParts(t, n, i, c, x, y);
    Reads(t, n, i, c, 1);
    Reads(t, n, j + 1, x, 0);
    Reads(t, n, k + 1, y, 0);
    ConditionalNode(t, n, i, c, j, x, k, y, k + 1 + |ry|);
  }

  lemma {:induction false} ConditionalParts(t: Task, n: NumberText, i: nat, c: Expr, x: Expr, y: Expr)
    requires var e := Conditional(c, x, y); var w := Bare(n, t.variable, e);
             Printable(t.numberOf, n, e) && IsStream(t.tokens) && StandsAt(t.tokens, i, w) && i + |w| < |t.tokens|
    ensures var rc, rx, ry := Render(n, t.variable, c, 1), Render(n, t.variable, x, 0), Render(n, t.variable, y, 0);
            var j := i + |rc|;
            var k := j + 1 + |rx|;
            && |rc| > 0 && |ry| > 0 && |Bare(n, t.variable, Conditional(c, x, y))| == k + 1 + |ry| - i
            && k + 1 + |ry| < |t.tokens| && Position(t, i)
            && StandsAt(t.tokens, i, rc) && t.tokens[j] == Punct(QUESTION)
            && StandsAt(t.tokens, j + 1, rx) && t.tokens[k] == Punct(COLON)
            && StandsAt(t.tokens, k + 1, ry)
    ensures Printable(t.numberOf, n, c) && Printable(t.numberOf, n, x) && Printable(t.numberOf, n, y)
    ensures var j := i + |Render(n, t.variable, c, 1)|;
            Stops(t.tokens[j], 1) && Stops(t.tokens[j + 1 + |Render(n, t.variable, x, 0)|], 0)
  {
    hide Render, IsStream, BinaryLevel, StandsAt;
    TextsDiffer();
    ConditionalPieces(t.tokens, i, Render(n, t.variable, c, 1), Render(n, t.variable, x, 0),
                      Render(n, t.variable, y, 0));
    FirstIsFirst(n, t.variable, c, 1);
    FirstIsFirst(n, t.variable, y, 0);
  }

  lemma {:induction false} ConditionalPieces(ts: seq<Token>, i: nat, c: seq<Token>, x: seq<Token>, y: seq<Token>)
    requires StandsAt(ts, i, c + ([Punct(QUESTION)] + (x + ([Punct(COLON)] + y))))
    ensures StandsAt(ts, i, c) && StandsAt(ts, i + |c| + 1, x) && StandsAt(ts, i + |c| + 1 + |x| + 1, y)
    ensures i + |c| + |x| + 2 + |y| <= |ts|
    ensures ts[i + |c|] == Punct(QUESTION) && ts[i + |c| + 1 + |x|] == Punct(COLON)
  {
    var fromColon := [Punct(COLON)] + y;
    Around(ts, i, c, Punct(QUESTION), x + fromColon);
    Around(ts, i + |c| + 1, x, Punct(COLON), y);
  }

  // A binary expression and everything to its left at the same level: reading at that level arrives in the loop
  // behind it, whatever follows.
  lemma {:induction false} ReadsSpine(t: Task, n: NumberText, i: nat, e: Expr, level: nat)
    requires Printable(t.numberOf, n, e) && NameRight(t.variable) && IsStream(t.tokens) && 1 <= level <= 6
    requires var w := Render(n, t.variable, e, level);
             StandsAt(t.tokens, i, w) && i + |w| < |t.tokens| && Stops(t.tokens[i + |w|], level + 1)
    ensures Position(t, i)
    ensures var j := i + |Render(n, t.variable, e, level)|;
            if Sound(n, t.variable, e) then BinaryAt(t, i, level) == BinaryRest(t, j, level, e)
            else Astray(t, i, BinaryAt(t, i, level))
    decreases e, 4
  {
    hide Render, Bare, Strings, StringsBefore, StandsAt, IsStream, NameRight, Printable, BinaryLevel, Stops;
    if e.Binary? && BinaryLevel(e.op) == level {
      BareAtItsLevel(n, t.variable, e);
      ReadsLoop(t, n, i, e.op, e.left, e.right);
    } else {
      SameAtTheNextLevel(n, t.variable, e, level);
      Reads(t, n, i, e, level + 1);
      if !Sound(n, t.variable, e) {
        AstrayLeft(t, i, level);
      }
    }
  }

  lemma {:induction false} BareAtItsLevel(n: NumberText, variable: Text, e: Expr)
    requires e.Binary?
    ensures Render(n, variable, e, BinaryLevel(e.op)) == Bare(n, variable, e)
  {
    hide Bare;
  }

  lemma {:induction false} SameAtTheNextLevel(n: NumberText, variable: Text, e: Expr, level: nat)
    requires 1 <= level <= 6 && !(e.Binary? && BinaryLevel(e.op) == level)
    ensures Render(n, variable, e, level) == Render(n, variable, e, level + 1)
  {
    hide Bare;
  }

  lemma {:induction false} LoopNode(t: Task, n: NumberText, i: nat, op: Text, l: Expr, j: nat, r: Expr, k: nat)
    requires Position(t, i) && i < j < k < |t.tokens| && t.tokens[j] == Op(op) && BinaryLevel(op) > 0
    requires BinaryAt(t, i, BinaryLevel(op)) == BinaryRest(t, j, BinaryLevel(op), l)
    requires StringsBefore(t.tokens, j) == StringsBefore(t.tokens, i) + Strings(l)
    requires Outcome(t, n, j + 1, BinaryAt(t, j + 1, BinaryLevel(op) + 1), r, k)
    ensures if Sound(n, t.variable, r)
            then BinaryAt(t, i, BinaryLevel(op)) == BinaryRest(t, k, BinaryLevel(op), Binary(op, l, r))
            else Astray(t, i, BinaryAt(t, i, BinaryLevel(op)))
  {
    hide BinaryAt, StringsBefore, BinaryLevel;
    var level := BinaryLevel(op);
    NextStrings(t.tokens, j);
    var right := BinaryAt(t, j + 1, level + 1);
    if right.Ok? {
      RestCounts(t, right.value.1, level, Binary(op, l, right.value.0));
    }
  }

  lemma {:induction false} OperatorStops(op: Text)
    requires BinaryLevel(op) > 0
    ensures Stops(Op(op), BinaryLevel(op) + 1)
  {
    assert LPAREN[0] == Unit('(') && |LPAREN| == 1;
  }

  lemma {:induction false} BinaryParts(t: Task, n: NumberText, op: Text, l: Expr, r: Expr)
    requires Printable(t.numberOf, n, Binary(op, l, r))
    ensures BinaryLevel(op) > 0 && Printable(t.numberOf, n, l) && Printable(t.numberOf, n, r)
    ensures Sound(n, t.variable, Binary(op, l, r)) <==> Sound(n, t.variable, l) && Sound(n, t.variable, r)
    ensures Bare(n, t.variable, Binary(op, l, r))
         == Render(n, t.variable, l, BinaryLevel(op)) + ([Op(op)] + Render(n, t.variable, r, BinaryLevel(op) + 1))
  {
    hide Render, BinaryLevel;
  }

  lemma {:induction false} ReadsLoop(t: Task, n: NumberText, i: nat, op: Text, l: Expr, r: Expr)
    requires var e := Binary(op, l, r); var w := Bare(n, t.variable, e);
             && Printable(t.numberOf, n, e) && NameRight(t.variable) && IsStream(t.tokens)
             && StandsAt(t.tokens, i, w) && i + |w| < |t.tokens| && Stops(t.tokens[i + |w|], BinaryLevel(op) + 1)
    ensures Position(t, i)
    ensures var e, level := Binary(op, l, r), BinaryLevel(op);
            if Sound(n, t.variable, e)
            then BinaryAt(t, i, level) == BinaryRest(t, i + |Bare(n, t.variable, e)|, level, e)
            else Astray(t, i, BinaryAt(t, i, level))
    decreases Binary(op, l, r), 0, 0
  {
    hide Render, Bare, Printable, Sound, StringsBefore, BinaryAt, BinaryRest, Outcome, Strings, StandsAt, BinaryLevel,
         IsStream, NameRight, Stops;
    BinaryParts(t, n, op, l, r);
    var level := BinaryLevel(op);
    var rl, rr := Render(n, t.variable, l, level), Render(n, t.variable, r, level + 1);
    Around(t.tokens, i, rl, Op(op), rr);
    OperatorStops(op);
    var j := i + |rl|;
    ReadsSpine(t, n, i, l, level);
    if Sound(n, t.variable, l) {
      FirstIsFirst(n, t.variable, l, level);
      FirstIsFirst(n, t.variable, r, level + 1);
      Reads(t, n, j + 1, r, level + 1);
      CountInPlace(t, n, i, l, level);
      LoopNode(t, n, i, op, l, j, r, j + 1 + |rr|);
    }
  }

  lemma {:induction false} ReadsBinary(t: Task, n: NumberText, i: nat, op: Text, l: Expr, r: Expr)
    requires var e := Binary(op, l, r); var w := Bare(n, t.variable, e);
             && Printable(t.numberOf, n, e) && NameRight(t.variable) && IsStream(t.tokens)
             && StandsAt(t.tokens, i, w) && i + |w| < |t.tokens| && Stops(t.tokens[i + |w|], BinaryLevel(op))
    ensures Position(t, i) && BinaryLevel(op) > 0
    ensures Outcome(t, n, i, BinaryAt(t, i, BinaryLevel(op)), Binary(op, l, r),
                    i + |Bare(n, t.variable, Binary(op, l, r))|)
    decreases Binary(op, l, r), 0, 1
  {
    hide Bare, Render, StringsBefore, BinaryAt, Strings;
    ReadsLoop(t, n, i, op, l, r);
  }

  // -- Lists --

  lemma {:induction false} ReadsArray(t: Task, n: NumberText, i: nat, es: seq<Expr>)
    requires var e := Array(es); var w := Bare(n, t.variable, e);
             && Printable(t.numberOf, n, e) && NameRight(t.variable) && IsStream(t.tokens)
             && StandsAt(t.tokens, i, w) && i + |w| < |t.tokens|
    ensures Position(t, i) && t.tokens[i].kind != Operator
    ensures Outcome(t, n, i, Primary(t, i), Array(es), i + |Bare(n, t.variable, Array(es))|)
    decreases es, 2
  {
    hide Render, StandsAt, Strings, StringsBefore, Sound, First, Outcome, ElementsOutcome, Primary;
    var inner := if es == [] then [Punct(RBRACKET)] else RenderElements(n, t.variable, es);
    PartsStand(t.tokens, i, [Punct(LBRACKET)], inner);
    if es != [] {
      FirstIsFirst(n, t.variable, es[0], 0);
      OnlyStringsMislead(t, n, es[0], 0);
      assert t.tokens[i + 1] == First(n, t.variable, es[0], 0);
      if t.tokens[i + 1].value != RBRACKET {
        ReadsElements(t, n, i + 1, es);
      }
    }
    ArrayNode(t, n, i, es, i + 1 + |inner|);
  }

  // A string "]" in the first place is taken for the closing bracket.
  lemma {:induction false} ArrayNode(t: Task, n: NumberText, i: nat, es: seq<Expr>, k: nat)
    requires Position(t, i) && Position(t, i + 1) && i + 1 < k < |t.tokens| && t.tokens[i] == Punct(LBRACKET)
    requires es == [] ==> t.tokens[i + 1] == Punct(RBRACKET) && k == i + 2
    requires es != [] ==> var first := First(n, t.variable, es[0], 0);
                          t.tokens[i + 1] == first && (first.value == RBRACKET ==> first.kind == String)
    requires es != [] && t.tokens[i + 1].value != RBRACKET ==> ElementsOutcome(t, n, i + 1, es, k)
    ensures Outcome(t, n, i, Primary(t, i), Array(es), k)
  {
    hide First, StringsBefore, Elements, SoundAll;
    NextStrings(t.tokens, i);
    NextStrings(t.tokens, i + 1);
    assert SoundAll(n, t.variable, []) by { NothingIsSound(n, t.variable); }
  }

  lemma {:induction false} NothingIsSound(n: NumberText, variable: Text)
    ensures SoundAll(n, variable, [])
  {
  }

  // What reading the elements of an array comes to.
  ghost predicate ElementsOutcome(t: Task, n: NumberText, i: nat, es: seq<Expr>, j: nat)
    requires Position(t, i)
  {
    var r := Elements(t, i);
    if SoundAll(n, t.variable, es) then r == Ok((es, j))
    else r.Ok? ==> StringsIn(r.value.0) < StringsBefore(t.tokens, r.value.1) - StringsBefore(t.tokens, i)
  }

  lemma {:induction false} ElementsNode(t: Task, n: NumberText, i: nat, es: seq<Expr>, j: nat, k: nat)
    requires Position(t, i) && es != [] && i < j < k < |t.tokens|
    requires Outcome(t, n, i, ConditionalAt(t, i), es[0], j)
    requires if |es| == 1 then t.tokens[j] == Punct(RBRACKET) && k == j + 1
             else t.tokens[j] == Punct(COMMA) && ElementsOutcome(t, n, j + 1, es[1..], k)
    ensures ElementsOutcome(t, n, i, es, k)
  {
    hide ConditionalAt, StringsBefore;
    ConditionalCounts(t, i);
    assert [es[0]] + es[1..] == es && (|es| == 1 ==> [es[0]] == es && es[1..] == []);
    TextsDiffer();
    var r := ConditionalAt(t, i);
    if |es| == 1 && Sound(n, t.variable, es[0]) {
      assert SoundAll(n, t.variable, es[1..]);
      assert Elements(t, i) == Ok((es, k));
    } else if r.Ok? {
      NextStrings(t.tokens, r.value.1);
      assert StringsIn([r.value.0]) == Strings(r.value.0);
      if t.tokens[r.value.1].value == COMMA {
        ElementsCount(t, r.value.1 + 1);
        StringsOfMore(t, r.value.1 + 1, r.value.0);
      }
    }
  }

  lemma {:induction false} ReadsElements(t: Task, n: NumberText, i: nat, es: seq<Expr>)
    requires es != [] && PrintableAll(t.numberOf, n, es) && NameRight(t.variable) && IsStream(t.tokens)
    requires StandsAt(t.tokens, i, RenderElements(n, t.variable, es))
    requires i + |RenderElements(n, t.variable, es)| < |t.tokens|
    ensures Position(t, i)
    ensures ElementsOutcome(t, n, i, es, i + |RenderElements(n, t.variable, es)|)
    decreases es, 1
  {
    hide Render, RenderElements, StandsAt, IsStream, Stops, ConditionalAt, ElementsOutcome, Outcome;
    var j := i + |Render(n, t.variable, es[0], 0)|;
    ElementParts(t, n, i, es);
    Reads(t, n, i, es[0], 0);
    if |es| > 1 {
      ReadsElements(t, n, j + 1, es[1..]);
    }
    ElementsNode(t, n, i, es, j, i + |RenderElements(n, t.variable, es)|);
  }

  lemma {:induction false} ElementParts(t: Task, n: NumberText, i: nat, es: seq<Expr>)
    requires es != [] && IsStream(t.tokens)
    requires var w := RenderElements(n, t.variable, es); StandsAt(t.tokens, i, w) && i + |w| < |t.tokens|
    ensures var first := Render(n, t.variable, es[0], 0);
            var j := i + |first|;
            && |first| > 0 && j + 1 < |t.tokens| && Position(t, i) && Stops(t.tokens[j], 0)
            && StandsAt(t.tokens, i, first)
            && if |es| == 1 then t.tokens[j] == Punct(RBRACKET) && |RenderElements(n, t.variable, es)| == j + 1 - i
               else var more := RenderElements(n, t.variable, es[1..]);
                    t.tokens[j] == Punct(COMMA) && StandsAt(t.tokens, j + 1, more)
                    && |RenderElements(n, t.variable, es)| == j + 1 - i + |more|
  {
    hide Render, IsStream, BinaryLevel, StandsAt;
    TextsDiffer();
    var first := Render(n, t.variable, es[0], 0);
    FirstIsFirst(n, t.variable, es[0], 0);
    if |es| == 1 {
      assert [Punct(RBRACKET)] + [] == [Punct(RBRACKET)];
      Around(t.tokens, i, first, Punct(RBRACKET), []);
    } else {
      Around(t.tokens, i, first, Punct(COMMA), RenderElements(n, t.variable, es[1..]));
    }
  }

  lemma {:induction false} StringsOfMore(t: Task, i: nat, first: Expr)
    requires Position(t, i)
    ensures var more := Elements(t, i);
            more.Ok? ==> StringsIn([first] + more.value.0) == Strings(first) + StringsIn(more.value.0)
  {
    var more := Elements(t, i);
    if more.Ok? {
      assert ([first] + more.value.0)[1..] == more.value.0;
    }
  }

  lemma {:induction false} ReadsObject(t: Task, n: NumberText, i: nat, es: seq<Entry>)
    requires var e := Object(es); var w := Bare(n, t.variable, e);
             && Printable(t.numberOf, n, e) && NameRight(t.variable) && IsStream(t.tokens)
             && StandsAt(t.tokens, i, w) && i + |w| < |t.tokens|
    ensures Position(t, i) && t.tokens[i].kind != Operator
    ensures Outcome(t, n, i, Primary(t, i), Object(es), i + |Bare(n, t.variable, Object(es))|)
    decreases es, 2
  {
    hide Render, StandsAt, Strings, StringsBefore, Sound, Outcome, EntriesOutcome, Primary;
    var inner := if es == [] then [Punct(RBRACE)] else RenderEntries(n, t.variable, es);
    PartsStand(t.tokens, i, [Punct(LBRACE)], inner);
    if es != [] {
      assert t.tokens[i + 1] == Token(String, es[0].key);
      if t.tokens[i + 1].value != RBRACE {
        ReadsEntries(t, n, i + 1, es, {});
      }
    }
    ObjectNode(t, n, i, es, i + 1 + |inner|);
  }

  // A first key "}" is taken for the closing brace.
  lemma {:induction false} ObjectNode(t: Task, n: NumberText, i: nat, es: seq<Entry>, k: nat)
    requires Position(t, i) && Position(t, i + 1) && i + 1 < k < |t.tokens| && t.tokens[i] == Punct(LBRACE)
    requires es == [] ==> t.tokens[i + 1] == Punct(RBRACE) && k == i + 2
    requires es != [] ==> t.tokens[i + 1] == Token(String, es[0].key)
    requires es != [] && es[0].key != RBRACE ==> EntriesOutcome(t, n, i + 1, es, {}, k)
    ensures Outcome(t, n, i, Primary(t, i), Object(es), k)
  {
    hide StringsBefore, Entries, SoundEntries;
    NextStrings(t.tokens, i);
    NextStrings(t.tokens, i + 1);
    assert SoundEntries(n, t.variable, []) by { NoEntryIsSound(n, t.variable); }
  }

  lemma {:induction false} NoEntryIsSound(n: NumberText, variable: Text)
    ensures SoundEntries(n, variable, [])
  {
  }

  ghost predicate EntriesOutcome(t: Task, n: NumberText, i: nat, es: seq<Entry>, keys: set<Text>, j: nat)
    requires Position(t, i)
  {
    var r := Entries(t, i, keys);
    if SoundEntries(n, t.variable, es) then r == Ok((es, j))
    else r.Ok? ==> StringsInEntries(r.value.0) < StringsBefore(t.tokens, r.value.1) - StringsBefore(t.tokens, i)
  }

  lemma {:induction false} EntriesNode(t: Task, n: NumberText, i: nat, es: seq<Entry>, keys: set<Text>, j: nat, k: nat)
    requires Position(t, i) && es != [] && es[0].key !in keys && i + 2 < j < k < |t.tokens|
    requires t.tokens[i] == Token(String, es[0].key) && t.tokens[i + 1] == Punct(COLON)
    requires Outcome(t, n, i + 2, ConditionalAt(t, i + 2), es[0].value, j)
    requires if |es| == 1 then t.tokens[j] == Punct(RBRACE) && k == j + 1
             else t.tokens[j] == Punct(COMMA) && EntriesOutcome(t, n, j + 1, es[1..], keys + {es[0].key}, k)
    ensures EntriesOutcome(t, n, i, es, keys, k)
  {
    hide ConditionalAt, StringsBefore;
    NextStrings(t.tokens, i);
    NextStrings(t.tokens, i + 1);
    ConditionalCounts(t, i + 2);
    assert [es[0]] + es[1..] == es && (|es| == 1 ==> [es[0]] == es && es[1..] == []);
    TextsDiffer();
    var r := ConditionalAt(t, i + 2);
    if |es| == 1 && Sound(n, t.variable, es[0].value) {
      assert SoundEntries(n, t.variable, es[1..]);
      assert Entries(t, i, keys) == Ok((es, k));
    } else if r.Ok? {
      NextStrings(t.tokens, r.value.1);
      assert StringsInEntries([Entry(es[0].key, r.value.0)]) == 1 + Strings(r.value.0);
      if t.tokens[r.value.1].value == COMMA {
        EntriesCount(t, r.value.1 + 1, keys + {es[0].key});
        StringsOfMoreEntries(t, r.value.1 + 1, Entry(es[0].key, r.value.0), keys + {es[0].key});
      }
    }
  }

  lemma {:induction false} EntryParts(t: Task, n: NumberText, i: nat, es: seq<Entry>, keys: set<Text>)
    requires es != [] && PrintableEntries(t.numberOf, n, es, keys) && IsStream(t.tokens)
    requires var w := RenderEntries(n, t.variable, es); StandsAt(t.tokens, i, w) && i + |w| < |t.tokens|
    ensures var value := Render(n, t.variable, es[0].value, 0);
            var j := i + 2 + |value|;
            && |value| > 0 && j + 1 < |t.tokens| && Position(t, i)
            && t.tokens[i] == Token(String, es[0].key) && t.tokens[i + 1] == Punct(COLON)
            && StandsAt(t.tokens, i + 2, value)
            && if |es| == 1 then t.tokens[j] == Punct(RBRACE) && |RenderEntries(n, t.variable, es)| == j + 1 - i
               else var more := RenderEntries(n, t.variable, es[1..]);
                    t.tokens[j] == Punct(COMMA) && StandsAt(t.tokens, j + 1, more)
                    && |RenderEntries(n, t.variable, es)| == j + 1 - i + |more|
    ensures es[0].key !in keys && Printable(t.numberOf, n, es[0].value)
    ensures |es| > 1 ==> PrintableEntries(t.numberOf, n, es[1..], keys + {es[0].key})
    ensures Stops(t.tokens[i + 2 + |Render(n, t.variable, es[0].value, 0)|], 0)
  {
    hide Render, IsStream, BinaryLevel, StandsAt;
    TextsDiffer();
    var value := Render(n, t.variable, es[0].value, 0);
    var rest := if |es| == 1 then [Punct(RBRACE)] else [Punct(COMMA)] + RenderEntries(n, t.variable, es[1..]);
    EntryPieces(t.tokens, i, Token(String, es[0].key), value, rest);
    FirstIsFirst(n, t.variable, es[0].value, 0);
    if |es| > 1 {
      PartsStand(t.tokens, i + 2 + |value|, [Punct(COMMA)], RenderEntries(n, t.variable, es[1..]));
    }
  }

  lemma {:induction false} EntryPieces(ts: seq<Token>, i: nat, key: Token, value: seq<Token>, rest: seq<Token>)
    requires StandsAt(ts, i, [key, Punct(COLON)] + (value + rest)) && rest != []
    ensures i + 2 + |value| + |rest| <= |ts|
    ensures ts[i] == key && ts[i + 1] == Punct(COLON) && ts[i + 2 + |value|] == rest[0]
    ensures StandsAt(ts, i + 2, value) && StandsAt(ts, i + 2 + |value|, rest)
  {
    PartsStand(ts, i, [key, Punct(COLON)], value + rest);
    assert ts[i..i + 2][1] == Punct(COLON);
    PartsStand(ts, i + 2, value, rest);
  }

  lemma {:induction false} ReadsEntries(t: Task, n: NumberText, i: nat, es: seq<Entry>, keys: set<Text>)
    requires es != [] && PrintableEntries(t.numberOf, n, es, keys) && NameRight(t.variable) && IsStream(t.tokens)
    requires StandsAt(t.tokens, i, RenderEntries(n, t.variable, es))
    requires i + |RenderEntries(n, t.variable, es)| < |t.tokens|
    ensures Position(t, i)
    ensures EntriesOutcome(t, n, i, es, keys, i + |RenderEntries(n, t.variable, es)|)
    decreases es, 1
  {
    hide Render, RenderEntries, StandsAt, IsStream, Stops, PrintableEntries, ConditionalAt, EntriesOutcome, Outcome;
    var j := i + 2 + |Render(n, t.variable, es[0].value, 0)|;
    EntryParts(t, n, i, es, keys);
    Reads(t, n, i + 2, es[0].value, 0);
    if |es| > 1 {
      ReadsEntries(t, n, j + 1, es[1..], keys + {es[0].key});
    }
    EntriesNode(t, n, i, es, keys, j, i + |RenderEntries(n, t.variable, es)|);
  }

  lemma {:induction false} StringsOfMoreEntries(t: Task, i: nat, first: Entry, keys: set<Text>)
    requires Position(t, i)
    ensures var more := Entries(t, i, keys);
            more.Ok? ==> StringsInEntries([first] + more.value.0)
                         == 1 + Strings(first.value) + StringsInEntries(more.value.0)
  {
    var more := Entries(t, i, keys);
    if more.Ok? {
      assert ([first] + more.value.0)[1..] == more.value.0;
    }
  }

  // A rendering in place has as many string tokens as its tree has strings.
  lemma {:induction false} CountInPlace(t: Task, n: NumberText, i: nat, e: Expr, min: nat)
    requires StandsAt(t.tokens, i, Render(n, t.variable, e, min))
    ensures StringsBefore(t.tokens, i + |Render(n, t.variable, e, min)|) == StringsBefore(t.tokens, i) + Strings(e)
  {
    CountBetween(t.tokens, i, Render(n, t.variable, e, min));
    CountOfRender(n, t.variable, e, min);
  }

  lemma {:induction false} CountBetween(ts: seq<Token>, i: nat, w: seq<Token>)
    requires StandsAt(ts, i, w)
    ensures StringsBefore(ts, i + |w|) == StringsBefore(ts, i) + CountStrings(w)
    decreases |w|
  {
    if w != [] {
      assert [w[0]] + w[1..] == w;
      PartsStand(ts, i, [w[0]], w[1..]);
      NextStrings(ts, i);
      CountBetween(ts, i + 1, w[1..]);
    }
  }

  // The parser gives a printed tree back exactly when the tree is sound.
  lemma {:induction false} ParsingUndoesPrinting(t: Task, n: NumberText, e: Expr)
    requires Printable(t.numberOf, n, e) && NameRight(t.variable)
    requires IsStream(t.tokens) && t.tokens == Render(n, t.variable, e, 0) + [EOF]
    ensures Parse(t) == Ok(e) <==> Sound(n, t.variable, e)
  {
    hide ConditionalAt, Render, Printable, Sound, NameRight;
    var w := Render(n, t.variable, e, 0);
    assert StandsAt(t.tokens, 0, w);
    assert Stops(t.tokens[|w|], 0) by {
      assert |LPAREN| == 1 && |QUESTION| == 1;
    }
    Reads(t, n, 0, e, 0);
    CountInPlace(t, n, 0, e, 0);
  }
}
