// Printing expressions with the parentheses that precedence and associativity require, and what can be printed.

module CelPrinting {
  import opened CelTokenizer
  import opened CelSpelling
  import opened CelParser

  // How numbers are written; the text of a number is library code.
  type NumberText = Num -> Text

  function Prec(e: Expr): (r: nat)
    ensures r <= 8
  {
    match e
    case Conditional(_, _, _) => 0
    case Binary(op, _, _) => BinaryLevel(op)
    case Unary(_, _) => 7
    case _ => 8
  }

  function Op(op: Text): Token {
    Token(Operator, op)
  }

  function Punct(text: Text): Token {
    Token(Punctuation, text)
  }

  // The tokens of `e` where an expression of at least the precedence `min` is wanted.
  function Render(n: NumberText, variable: Text, e: Expr, min: nat): seq<Token>
    decreases e, 1
  {
    if Prec(e) >= min then Bare(n, variable, e)
    else [Punct(LPAREN)] + (Bare(n, variable, e) + [Punct(RPAREN)])
  }

  function Bare(n: NumberText, variable: Text, e: Expr): seq<Token>
    decreases e, 0
  {
    match e
    case Literal(Str(text)) => [Token(String, text)]
    case Literal(Numeric(x)) => [Token(Number, n(x))]
    case Literal(Boolean(b)) => [Token(Identifier, if b then TRUE else FALSE)]
    case Literal(Null) => [Token(Identifier, NULL)]
    case Input => [Token(Identifier, variable)]
    case Array(es) => [Punct(LBRACKET)] + if es == [] then [Punct(RBRACKET)] else RenderElements(n, variable, es)
    case Object(es) => [Punct(LBRACE)] + if es == [] then [Punct(RBRACE)] else RenderEntries(n, variable, es)
    case Unary(op, x) => [Op(op)] + Render(n, variable, x, 7)
    case Binary(op, l, r) =>
      Render(n, variable, l, BinaryLevel(op)) + ([Op(op)] + Render(n, variable, r, BinaryLevel(op) + 1))
    case Conditional(c, x, y) =>
      Render(n, variable, c, 1) + ([Punct(QUESTION)] + (Render(n, variable, x, 0)
      + ([Punct(COLON)] + Render(n, variable, y, 0))))
  }

  // The elements of a non-empty array up to its closing bracket.
  function RenderElements(n: NumberText, variable: Text, es: seq<Expr>): seq<Token>
    requires es != []
    decreases es, 0
  {
    Render(n, variable, es[0], 0)
    + if |es| == 1 then [Punct(RBRACKET)] else [Punct(COMMA)] + RenderElements(n, variable, es[1..])
  }

  function RenderEntries(n: NumberText, variable: Text, es: seq<Entry>): seq<Token>
    requires es != []
    decreases es, 0
  {
    [Token(String, es[0].key), Punct(COLON)] + (Render(n, variable, es[0].value, 0)
    + if |es| == 1 then [Punct(RBRACE)] else [Punct(COMMA)] + RenderEntries(n, variable, es[1..]))
  }

  // The trees the parser can build: its operators, JSON-safe numbers that their text denotes, no repeated key.
  ghost predicate Printable(numberOf: Text -> Num, n: NumberText, e: Expr)
    decreases e
  {
    match e
    case Literal(Numeric(x)) => JsonSafe(x) && IsNumber(n(x)) && numberOf(n(x)) == x
    case Literal(_) => true
    case Input => true
    case Array(es) => PrintableAll(numberOf, n, es)
    case Object(es) => PrintableEntries(numberOf, n, es, {})
    case Unary(op, x) => IsUnaryOperator(op) && Printable(numberOf, n, x)
    case Binary(op, l, r) => BinaryLevel(op) > 0 && Printable(numberOf, n, l) && Printable(numberOf, n, r)
    case Conditional(c, x, y) => Printable(numberOf, n, c) && Printable(numberOf, n, x) && Printable(numberOf, n, y)
  }

  ghost predicate PrintableAll(numberOf: Text -> Num, n: NumberText, es: seq<Expr>)
    decreases es
  {
    es == [] || (Printable(numberOf, n, es[0]) && PrintableAll(numberOf, n, es[1..]))
  }

  ghost predicate PrintableEntries(numberOf: Text -> Num, n: NumberText, es: seq<Entry>, keys: set<Text>)
    decreases es
  {
    es == [] || (es[0].key !in keys && Printable(numberOf, n, es[0].value)
                 && PrintableEntries(numberOf, n, es[1..], keys + {es[0].key}))
  }

  // The input variable is a name and none of the words the parser looks for first.
  ghost predicate NameRight(variable: Text) {
    IsIdentifier(variable) && variable != TRUE && variable != FALSE && variable != NULL
  }

  // What the parser takes for the end of an array or object although it is a string: the text "]" at the start of
  // the first element, and a first key "}". Sound trees have neither.
  predicate Sound(n: NumberText, variable: Text, e: Expr)
    decreases e
  {
    match e
    case Array(es) =>
      SoundAll(n, variable, es)
      && (es != [] ==> First(n, variable, es[0], 0) != Token(String, RBRACKET))
    case Object(es) => SoundEntries(n, variable, es) && (es != [] ==> es[0].key != RBRACE)
    case Unary(_, x) => Sound(n, variable, x)
    case Binary(_, l, r) => Sound(n, variable, l) && Sound(n, variable, r)
    case Conditional(c, x, y) => Sound(n, variable, c) && Sound(n, variable, x) && Sound(n, variable, y)
    case _ => true
  }

  predicate SoundAll(n: NumberText, variable: Text, es: seq<Expr>)
    decreases es
  {
    es == [] || (Sound(n, variable, es[0]) && SoundAll(n, variable, es[1..]))
  }

  predicate SoundEntries(n: NumberText, variable: Text, es: seq<Entry>)
    decreases es
  {
    es == [] || (Sound(n, variable, es[0].value) && SoundEntries(n, variable, es[1..]))
  }

  // The first token of a rendered expression.
  function First(n: NumberText, variable: Text, e: Expr, min: nat): Token
    decreases e
  {
    if Prec(e) < min then Punct(LPAREN) else
    match e
    case Literal(Str(text)) => Token(String, text)
    case Literal(Numeric(x)) => Token(Number, n(x))
    case Literal(Boolean(b)) => Token(Identifier, if b then TRUE else FALSE)
    case Literal(Null) => Token(Identifier, NULL)
    case Input => Token(Identifier, variable)
    case Array(_) => Punct(LBRACKET)
    case Object(_) => Punct(LBRACE)
    case Unary(op, _) => Op(op)
    case Binary(op, l, _) => First(n, variable, l, BinaryLevel(op))
    case Conditional(c, _, _) => First(n, variable, c, 1)
  }

  lemma {:induction false} FirstIsFirst(n: NumberText, variable: Text, e: Expr, min: nat)
    ensures |Render(n, variable, e, min)| > 0 && Render(n, variable, e, min)[0] == First(n, variable, e, min)
    decreases e
  {
    if Prec(e) >= min {
      match e
      case Binary(op, l, _) => FirstIsFirst(n, variable, l, BinaryLevel(op));
      case Conditional(c, _, _) => FirstIsFirst(n, variable, c, 1);
      case _ =>
    }
  }

  // No token but a string starts an expression with the text of a closing bracket.
  lemma {:induction false} OnlyStringsMislead(t: Task, n: NumberText, e: Expr, min: nat)
    requires Printable(t.numberOf, n, e) && NameRight(t.variable)
    ensures First(n, t.variable, e, min).value == RBRACKET ==> First(n, t.variable, e, min).kind == String
    decreases e
  {
    if Prec(e) >= min {
      match e
      case Binary(op, l, _) => OnlyStringsMislead(t, n, l, BinaryLevel(op));
      case Conditional(c, _, _) => OnlyStringsMislead(t, n, c, 1);
      case _ =>
    }
  }

  // -- Counting strings --

  // How many string literals and keys a tree has.
  function Strings(e: Expr): nat
    decreases e
  {
    match e
    case Literal(Str(_)) => 1
    case Literal(_) => 0
    case Input => 0
    case Array(es) => StringsIn(es)
    case Object(es) => StringsInEntries(es)
    case Unary(_, x) => Strings(x)
    case Binary(_, l, r) => Strings(l) + Strings(r)
    case Conditional(c, x, y) => Strings(c) + Strings(x) + Strings(y)
  }

  function StringsIn(es: seq<Expr>): nat {
    if es == [] then 0 else Strings(es[0]) + StringsIn(es[1..])
  }

  function StringsInEntries(es: seq<Entry>): nat {
    if es == [] then 0 else 1 + Strings(es[0].value) + StringsInEntries(es[1..])
  }

  // How many of the first `i` tokens are strings.
  function StringsBefore(ts: seq<Token>, i: nat): nat
    requires i <= |ts|
  {
    if i == 0 then 0 else StringsBefore(ts, i - 1) + if ts[i - 1].kind == String then 1 else 0
  }

  // No parse makes more strings than it reads string tokens.
  ghost predicate Counted(t: Task, i: nat, r: Parsed)
    requires i <= |t.tokens| && Advanced(t, i, r)
  {
    r.Ok? ==> Strings(r.value.0) <= StringsBefore(t.tokens, r.value.1) - StringsBefore(t.tokens, i)
  }

  lemma {:induction false} ConditionalCounts(t: Task, i: nat)
    requires Position(t, i)
    ensures Counted(t, i, ConditionalAt(t, i))
    decreases |t.tokens| - i, 9
  {
    BinaryCounts(t, i, 1);
    var c := BinaryAt(t, i, 1);
    if c.Ok? && t.tokens[c.value.1].value == QUESTION {
      ConditionalCounts(t, c.value.1 + 1);
      var x := ConditionalAt(t, c.value.1 + 1);
      if x.Ok? && t.tokens[x.value.1].value == COLON {
        ConditionalCounts(t, x.value.1 + 1);
      }
    }
  }

  lemma {:induction false} BinaryCounts(t: Task, i: nat, level: nat)
    requires Position(t, i) && 1 <= level <= 7
    ensures Counted(t, i, BinaryAt(t, i, level))
    decreases |t.tokens| - i, 8 - level
  {
    if level == 7 {
      UnaryCounts(t, i);
    } else {
      BinaryCounts(t, i, level + 1);
      var left := BinaryAt(t, i, level + 1);
      if left.Ok? {
        RestCounts(t, left.value.1, level, left.value.0);
      }
    }
  }

  lemma {:induction false} RestCounts(t: Task, i: nat, level: nat, left: Expr)
    requires Position(t, i) && 1 <= level <= 6
    ensures var r := BinaryRest(t, i, level, left);
            r.Ok? ==> Strings(r.value.0) - Strings(left)
                      <= StringsBefore(t.tokens, r.value.1) - StringsBefore(t.tokens, i)
    decreases |t.tokens| - i, 8 - level
  {
    hide BinaryAt;
    var token := t.tokens[i];
    if token.kind == Operator && BinaryLevel(token.value) == level {
      BinaryCounts(t, i + 1, level + 1);
      var right := BinaryAt(t, i + 1, level + 1);
      if right.Ok? {
        RestCounts(t, right.value.1, level, Binary(token.value, left, right.value.0));
      }
    }
  }

  lemma {:induction false} UnaryCounts(t: Task, i: nat)
    requires Position(t, i)
    ensures Counted(t, i, UnaryAt(t, i))
    decreases |t.tokens| - i, 0, 1
  {
    var token := t.tokens[i];
    if token.kind == Operator && IsUnaryOperator(token.value) {
      UnaryCounts(t, i + 1);
    } else {
      PrimaryCounts(t, i);
    }
  }

  lemma {:induction false} PrimaryCounts(t: Task, i: nat)
    requires Position(t, i)
    ensures Counted(t, i, Primary(t, i))
    decreases |t.tokens| - i, 0, 0
  {
    var token := t.tokens[i];
    if token.kind !in {Number, String, Identifier} {
      if token.value == LPAREN {
        ConditionalCounts(t, i + 1);
      } else if token.value == LBRACKET {
        ArrayCounts(t, i + 1);
      } else if token.value == LBRACE {
        ObjectCounts(t, i + 1);
      }
    }
  }

  lemma {:induction false} ArrayCounts(t: Task, i: nat)
    requires Position(t, i)
    ensures Counted(t, i, ArrayAt(t, i))
    decreases |t.tokens| - i, 11
  {
    if t.tokens[i].value != RBRACKET {
      ElementsCount(t, i);
    }
  }

  lemma {:induction false} ObjectCounts(t: Task, i: nat)
    requires Position(t, i)
    ensures Counted(t, i, ObjectAt(t, i))
    decreases |t.tokens| - i, 11
  {
    if t.tokens[i].value != RBRACE {
      EntriesCount(t, i, {});
    }
  }

  lemma {:induction false} ElementsCount(t: Task, i: nat)
    requires Position(t, i)
    ensures var r := Elements(t, i);
            r.Ok? ==> StringsIn(r.value.0) <= StringsBefore(t.tokens, r.value.1) - StringsBefore(t.tokens, i)
    decreases |t.tokens| - i, 10
  {
    ConditionalCounts(t, i);
    var first := ConditionalAt(t, i);
    if first.Ok? && t.tokens[first.value.1].value == COMMA {
      ElementsCount(t, first.value.1 + 1);
      var more := Elements(t, first.value.1 + 1);
      if more.Ok? {
        assert ([first.value.0] + more.value.0)[1..] == more.value.0;
      }
    }
  }

  lemma {:induction false} EntriesCount(t: Task, i: nat, keys: set<Text>)
    requires Position(t, i)
    ensures var r := Entries(t, i, keys);
            r.Ok? ==> StringsInEntries(r.value.0) <= StringsBefore(t.tokens, r.value.1) - StringsBefore(t.tokens, i)
    decreases |t.tokens| - i, 10
  {
    hide ConditionalAt;
    var key := t.tokens[i];
    if key.kind == String && key.value !in keys && t.tokens[i + 1].value == COLON {
      assert StringsBefore(t.tokens, i + 2) >= StringsBefore(t.tokens, i + 1) == StringsBefore(t.tokens, i) + 1;
      ConditionalCounts(t, i + 2);
      var value := ConditionalAt(t, i + 2);
      if value.Ok? && t.tokens[value.value.1].value == COMMA {
        var j := value.value.1;
        EntriesCount(t, j + 1, keys + {key.value});
        var more := Entries(t, j + 1, keys + {key.value});
        if more.Ok? {
          assert ([Entry(key.value, value.value.0)] + more.value.0)[1..] == more.value.0;
        }
      }
    }
  }

  // -- How many string tokens a rendering has --

  function CountStrings(w: seq<Token>): nat {
    if w == [] then 0 else (if w[0].kind == String then 1 else 0) + CountStrings(w[1..])
  }

  lemma {:induction false} CountAppend(a: seq<Token>, b: seq<Token>)
    ensures CountStrings(a + b) == CountStrings(a) + CountStrings(b)
  {
    if a == [] {
      assert a + b == b;
    } else {
      assert (a + b)[1..] == a[1..] + b;
      CountAppend(a[1..], b);
    }
  }

  lemma {:induction false} CountOne(token: Token, b: seq<Token>)
    ensures CountStrings([token] + b) == (if token.kind == String then 1 else 0) + CountStrings(b)
    ensures CountStrings([token]) == if token.kind == String then 1 else 0
  {
    CountAppend([token], b);
  }

  lemma {:induction false} CountOfRender(n: NumberText, v: Text, e: Expr, min: nat)
    ensures CountStrings(Render(n, v, e, min)) == Strings(e)
    decreases e, 2
  {
    hide CountStrings;
    var b := Bare(n, v, e);
    CountOfBare(n, v, e);
    CountOne(Punct(LPAREN), b + [Punct(RPAREN)]);
    CountAppend(b, [Punct(RPAREN)]);
    CountOne(Punct(RPAREN), []);
  }

  lemma {:induction false} CountOfBare(n: NumberText, v: Text, e: Expr)
    ensures CountStrings(Bare(n, v, e)) == Strings(e)
    decreases e, 1
  {
    hide CountStrings, Render;
    match e
    case Literal(_) => CountOne(Bare(n, v, e)[0], []);
    case Input => CountOne(Bare(n, v, e)[0], []);
    case Array(es) =>
      var inner := if es == [] then [Punct(RBRACKET)] else RenderElements(n, v, es);
      CountOne(Punct(LBRACKET), inner);
      CountOne(Punct(RBRACKET), []);
      if es != [] {
        CountOfElements(n, v, es);
      }
    case Object(es) =>
      var inner := if es == [] then [Punct(RBRACE)] else RenderEntries(n, v, es);
      CountOne(Punct(LBRACE), inner);
      CountOne(Punct(RBRACE), []);
      if es != [] {
        CountOfEntries(n, v, es);
      }
    case Unary(op, x) =>
      CountOne(Op(op), Render(n, v, x, 7));
      CountOfRender(n, v, x, 7);
    case Binary(op, l, r) =>
      var rl, rr := Render(n, v, l, BinaryLevel(op)), Render(n, v, r, BinaryLevel(op) + 1);
      CountAppend(rl, [Op(op)] + rr);
      CountOne(Op(op), rr);
      CountOfRender(n, v, l, BinaryLevel(op));
      CountOfRender(n, v, r, BinaryLevel(op) + 1);
    case Conditional(c, x, y) => CountOfConditional(n, v, c, x, y);
  }

  lemma {:induction false} CountOfConditional(n: NumberText, v: Text, c: Expr, x: Expr, y: Expr)
    ensures CountStrings(Bare(n, v, Conditional(c, x, y))) == Strings(c) + Strings(x) + Strings(y)
    decreases Conditional(c, x, y), 0
  {
    hide CountStrings, Render;
    var rc, rx, ry := Render(n, v, c, 1), Render(n, v, x, 0), Render(n, v, y, 0);
    var fromColon := [Punct(COLON)] + ry;
    CountAppend(rc, [Punct(QUESTION)] + (rx + fromColon));
    CountOne(Punct(QUESTION), rx + fromColon);
    CountAppend(rx, fromColon);
    CountOne(Punct(COLON), ry);
    CountOfRender(n, v, c, 1);
    CountOfRender(n, v, x, 0);
    CountOfRender(n, v, y, 0);
  }

  lemma {:induction false} CountOfElements(n: NumberText, v: Text, es: seq<Expr>)
    requires es != []
    ensures CountStrings(RenderElements(n, v, es)) == StringsIn(es)
    decreases es, 0
  {
    hide CountStrings, Render;
    var first := Render(n, v, es[0], 0);
    CountOfRender(n, v, es[0], 0);
    if |es| == 1 {
      CountAppend(first, [Punct(RBRACKET)]);
      CountOne(Punct(RBRACKET), []);
    } else {
      var more := RenderElements(n, v, es[1..]);
      CountAppend(first, [Punct(COMMA)] + more);
      CountOne(Punct(COMMA), more);
      CountOfElements(n, v, es[1..]);
    }
  }

  lemma {:induction false} CountOfEntries(n: NumberText, v: Text, es: seq<Entry>)
    requires es != []
    ensures CountStrings(RenderEntries(n, v, es)) == StringsInEntries(es)
    decreases es, 0
  {
    hide CountStrings, Render;
    var key, value := Token(String, es[0].key), Render(n, v, es[0].value, 0);
    var rest := if |es| == 1 then [Punct(RBRACE)] else [Punct(COMMA)] + RenderEntries(n, v, es[1..]);
    assert RenderEntries(n, v, es) == [key] + ([Punct(COLON)] + (value + rest));
    CountOne(key, [Punct(COLON)] + (value + rest));
    CountOne(Punct(COLON), value + rest);
    CountAppend(value, rest);
    CountOfRender(n, v, es[0].value, 0);
    if |es| == 1 {
      CountOne(Punct(RBRACE), []);
    } else {
      CountOne(Punct(COMMA), RenderEntries(n, v, es[1..]));
      CountOfEntries(n, v, es[1..]);
    }
  }
}
