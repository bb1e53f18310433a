// From source text to tree and back: printing, tokenizing and parsing.

module CelSourceText {
  import opened CelTokenizer
  import opened CelSpelling
  import opened CelParser
  import opened CelPrinting
  import opened CelRoundTrip

  // Tokenizing and parsing a source text, as compiling it does.
  function ParseSource(s: Text, variable: Text, numberOf: Text -> Num): Result<Expr> {
    match Tokens(s, 0)
    case Err(e) => Err(e)
    case Ok(tokens) => Parse(Task(tokens, variable, numberOf))
  }

  method CompileExpression(s: Text, variable: Text, numberOf: Text -> Num) returns (r: Result<Expr>)
    ensures r == ParseSource(s, variable, numberOf)
  {
    var tokens := Tokenize(s);
    if tokens.Err? {
      return Err(tokens.error);
    }
    var parser := new Parser(Task(tokens.value, variable, numberOf));
    r := parser.ParseAll();
  }

  // -- Printed tokens can be written, with or without white space between them --

  predicate Writable(token: Token) {
    match token.kind
    case String => true
    case Number => IsNumber(token.value)
    case Identifier => IsIdentifier(token.value)
    case Operator => token.value in DOUBLE_OPERATORS || (|token.value| == 1 && token.value[0] in SINGLE_OPERATORS)
    case Punctuation => |token.value| == 1 && token.value[0] in PUNCTUATION
    case Eof => false
  }

  // `b` can be written directly behind `a`; a string starts with a quote.
  predicate MayTouch(a: Token, b: Token) {
    b.kind == String || (b.value != [] && Apart(a, b.value[0]))
  }

  predicate Chain(w: seq<Token>) {
    w == [] || (Writable(w[0]) && (|w| > 1 ==> MayTouch(w[0], w[1])) && Chain(w[1..]))
  }

  // A token that an operand can start with, and one that it can end with.
  predicate Opens(token: Token) {
    token.kind == String || (token.value != [] && token.value[0] != Unit('='))
  }

  predicate Closes(token: Token) {
    token.kind != Operator && token.kind != Eof
  }

  // An operator or a punctuation mark, other than the dot, behind an operand.
  predicate Joins(token: Token) {
    && (token.kind == Operator || token.kind == Punctuation)
    && token.value != [] && !IsLetter(token.value[0]) && !IsDigit(token.value[0]) && token.value[0] != Unit('.')
  }

  predicate Operand(w: seq<Token>) {
    w != [] && Chain(w) && Opens(w[0]) && Closes(w[|w| - 1])
  }

  lemma {:induction false} ChainAppend(a: seq<Token>, b: seq<Token>)
    requires Chain(a) && Chain(b) && (a != [] && b != [] ==> MayTouch(a[|a| - 1], b[0]))
    ensures Chain(a + b)
    decreases |a|
  {
    hide Writable, MayTouch;
    if a == [] {
      assert a + b == b;
    } else {
      assert (a + b)[1..] == a[1..] + b;
      assert |a| > 1 ==> (a + b)[1] == a[1];
      ChainAppend(a[1..], b);
    }
  }

  lemma {:induction false} OneToken(token: Token)
    requires Writable(token)
    ensures Chain([token])
    ensures Opens(token) && Closes(token) ==> Operand([token])
  {
    hide Writable;
  }

  lemma {:induction false} Touches(a: Token, b: Token)
    ensures Closes(a) && Joins(b) ==> MayTouch(a, b)
    ensures (a.kind == Operator || a.kind == Punctuation) && Opens(b) ==> MayTouch(a, b)
  {
  }

  // An operand behind an opening bracket or a prefix operator.
  lemma {:induction false} PrefixedIsOperand(token: Token, b: seq<Token>)
    requires Writable(token) && (token.kind == Operator || token.kind == Punctuation) && Opens(token) && Operand(b)
    ensures Operand([token] + b)
  {
    hide Writable, MayTouch, Opens, Closes;
    OneToken(token);
    Touches(token, b[0]);
    ChainAppend([token], b);
  }

  // An operand in front of a closing bracket.
  lemma {:induction false} ClosedIsOperand(a: seq<Token>, token: Token)
    requires Operand(a) && Writable(token) && Joins(token) && Closes(token)
    ensures Operand(a + [token])
  {
    hide Writable, MayTouch, Opens, Closes, Joins;
    OneToken(token);
    Touches(a[|a| - 1], token);
    ChainAppend(a, [token]);
  }

  // Two operands with an operator or a separator between them.
  lemma {:induction false} JoinedIsOperand(a: seq<Token>, token: Token, b: seq<Token>)
    requires Operand(a) && Writable(token) && Joins(token) && Operand(b)
    ensures Operand(a + ([token] + b))
  {
    hide Writable, MayTouch, Opens, Closes;
    OneToken(token);
    Touches(token, b[0]);
    Touches(a[|a| - 1], token);
    ChainAppend([token], b);
    ChainAppend(a, [token] + b);
  }

  lemma {:induction false} Marks()
    ensures Writable(Punct(QUESTION)) && Joins(Punct(QUESTION)) && Writable(Punct(COLON)) && Joins(Punct(COLON))
    ensures Writable(Punct(COMMA)) && Joins(Punct(COMMA))
    ensures Writable(Punct(LPAREN)) && Opens(Punct(LPAREN)) && Writable(Punct(LBRACKET)) && Opens(Punct(LBRACKET))
    ensures Writable(Punct(LBRACE)) && Opens(Punct(LBRACE))
    ensures Writable(Punct(RPAREN)) && Joins(Punct(RPAREN)) && Closes(Punct(RPAREN))
    ensures Writable(Punct(RBRACKET)) && Joins(Punct(RBRACKET)) && Closes(Punct(RBRACKET)) && Opens(Punct(RBRACKET))
    ensures Writable(Punct(RBRACE)) && Joins(Punct(RBRACE)) && Closes(Punct(RBRACE)) && Opens(Punct(RBRACE))
  {
  }

  lemma {:induction false} Words()
    ensures IsIdentifier(TRUE) && IsIdentifier(FALSE) && IsIdentifier(NULL)
  {
    assert IdentifierEnd(TRUE, 4) == 4 && IdentifierEnd(TRUE, 3) == 4 && IdentifierEnd(TRUE, 2) == 4;
    assert IdentifierEnd(NULL, 4) == 4 && IdentifierEnd(NULL, 3) == 4 && IdentifierEnd(NULL, 2) == 4;
    assert IdentifierEnd(FALSE, 5) == 5 && IdentifierEnd(FALSE, 4) == 5 && IdentifierEnd(FALSE, 3) == 5;
    assert IdentifierEnd(FALSE, 2) == 5;
  }

  lemma {:induction false} Operators(op: Text)
    ensures IsUnaryOperator(op) ==> Writable(Op(op)) && Opens(Op(op))
    ensures BinaryLevel(op) > 0 ==> Writable(Op(op)) && Joins(Op(op))
  {
  }

  lemma {:induction false} RenderIsOperand(numberOf: Text -> Num, n: NumberText, v: Text, e: Expr, min: nat)
    requires Printable(numberOf, n, e) && NameRight(v)
    ensures Operand(Render(n, v, e, min))
    decreases e, 1
  {
    hide Printable, NameRight, Operand, Writable, Opens, Closes, Joins;
    BareIsOperand(numberOf, n, v, e);
    if Prec(e) < min {
      var b := Bare(n, v, e);
      Marks();
      ClosedIsOperand(b, Punct(RPAREN));
      PrefixedIsOperand(Punct(LPAREN), b + [Punct(RPAREN)]);
    }
  }

  lemma {:induction false} LeafIsOperand(numberOf: Text -> Num, n: NumberText, v: Text, e: Expr)
    requires Printable(numberOf, n, e) && NameRight(v) && (e.Literal? || e.Input?)
    ensures Operand(Bare(n, v, e))
  {
    hide IsNumber, IsIdentifier, NumberEnd, IdentifierEnd;
    var token := Bare(n, v, e)[0];
    Words();
    if token.kind == Number {
      NumberOpens(token.value);
    } else if token.kind == Identifier {
      IdentifierOpens(token.value);
    }
    OneToken(token);
  }

  lemma {:induction false} NumberOpens(w: Text)
    requires IsNumber(w)
    ensures w != [] && w[0] != Unit('=')
  {
  }

  lemma {:induction false} IdentifierOpens(w: Text)
    requires IsIdentifier(w)
    ensures w != [] && w[0] != Unit('=')
  {
  }

  lemma {:induction false} BareIsOperand(numberOf: Text -> Num, n: NumberText, v: Text, e: Expr)
    requires Printable(numberOf, n, e) && NameRight(v)
    ensures Operand(Bare(n, v, e))
    decreases e, 0
  {
    hide Render, IsNumber, IsIdentifier, BinaryLevel, IsUnaryOperator, NameRight, Operand, Writable, Opens, Closes,
         Joins;
    Marks();
    match e
    case Literal(_) => LeafIsOperand(numberOf, n, v, e);
    case Input => LeafIsOperand(numberOf, n, v, e);
    case Array(es) =>
      OneToken(Punct(RBRACKET));
      if es != [] {
        ElementsAreOperand(numberOf, n, v, es);
      }
      PrefixedIsOperand(Punct(LBRACKET), if es == [] then [Punct(RBRACKET)] else RenderElements(n, v, es));
    case Object(es) =>
      OneToken(Punct(RBRACE));
      if es != [] {
        EntriesAreOperand(numberOf, n, v, es, {});
      }
      PrefixedIsOperand(Punct(LBRACE), if es == [] then [Punct(RBRACE)] else RenderEntries(n, v, es));
    case Unary(op, x) =>
      Operators(op);
      RenderIsOperand(numberOf, n, v, x, 7);
      PrefixedIsOperand(Op(op), Render(n, v, x, 7));
    case Binary(op, l, r) =>
      Operators(op);
      RenderIsOperand(numberOf, n, v, l, BinaryLevel(op));
      RenderIsOperand(numberOf, n, v, r, BinaryLevel(op) + 1);
      JoinedIsOperand(Render(n, v, l, BinaryLevel(op)), Op(op), Render(n, v, r, BinaryLevel(op) + 1));
    case Conditional(c, x, y) =>
      RenderIsOperand(numberOf, n, v, c, 1);
      RenderIsOperand(numberOf, n, v, x, 0);
      RenderIsOperand(numberOf, n, v, y, 0);
      JoinedIsOperand(Render(n, v, x, 0), Punct(COLON), Render(n, v, y, 0));
      JoinedIsOperand(Render(n, v, c, 1), Punct(QUESTION),
                      Render(n, v, x, 0) + ([Punct(COLON)] + Render(n, v, y, 0)));
  }

  lemma {:induction false} ElementsAreOperand(numberOf: Text -> Num, n: NumberText, v: Text, es: seq<Expr>)
    requires es != [] && PrintableAll(numberOf, n, es) && NameRight(v)
    ensures Operand(RenderElements(n, v, es))
    decreases es, 0
  {
    hide Render, NameRight, Operand, Writable, Opens, Closes, Joins;
    Marks();
    RenderIsOperand(numberOf, n, v, es[0], 0);
    if |es| == 1 {
      ClosedIsOperand(Render(n, v, es[0], 0), Punct(RBRACKET));
    } else {
      ElementsAreOperand(numberOf, n, v, es[1..]);
      JoinedIsOperand(Render(n, v, es[0], 0), Punct(COMMA), RenderElements(n, v, es[1..]));
    }
  }

  lemma {:induction false} EntriesAreOperand(numberOf: Text -> Num, n: NumberText, v: Text, es: seq<Entry>,
                                             keys: set<Text>)
    requires es != [] && PrintableEntries(numberOf, n, es, keys) && NameRight(v)
    ensures Operand(RenderEntries(n, v, es))
    decreases es, 0
  {
    hide Render, NameRight, Operand, Joins;
    Marks();
    var key, value := Token(String, es[0].key), Render(n, v, es[0].value, 0);
    var rest := if |es| == 1 then [Punct(RBRACE)] else [Punct(COMMA)] + RenderEntries(n, v, es[1..]);
    RenderIsOperand(numberOf, n, v, es[0].value, 0);
    if |es| == 1 {
      ClosedIsOperand(value, Punct(RBRACE));
    } else {
      EntriesAreOperand(numberOf, n, v, es[1..], keys + {es[0].key});
      JoinedIsOperand(value, Punct(COMMA), RenderEntries(n, v, es[1..]));
    }
    OneToken(key);
    JoinedIsOperand([key], Punct(COLON), value + rest);
    assert RenderEntries(n, v, es) == [key] + ([Punct(COLON)] + (value + rest));
  }

  // -- Any spelling of a printed tree parses --

  lemma {:induction false} TextStartsWith(w: Written)
    requires WellWritten(w)
    ensures TextOf(w) != []
    ensures TextOf(w)[0] == if w.token.kind == String then w.quote else w.token.value[0]
  {
    hide NumberEnd, IdentifierEnd;
  }

  lemma {:induction false} QuoteIsApart(token: Token, quote: CodeUnit)
    requires IsQuote(quote)
    ensures Apart(token, quote)
  {
  }

  lemma {:induction false} ChainIsSeparated(ws: seq<Written>)
    requires AllWellWritten(ws) && Chain(TokensOf(ws))
    ensures Separated(ws)
    decreases |ws|
  {
    hide Writable, Apart, WellWritten, TextOf;
    if |ws| > 1 {
      var tokens := TokensOf(ws);
      assert tokens[0] == ws[0].token && tokens[1..] == TokensOf(ws[1..]) && tokens[1] == ws[1].token;
      assert WellWritten(ws[1..][0]);
      TextStartsWith(ws[1]);
      if ws[1].token.kind == String {
        StringIsQuoted(ws[1]);
        QuoteIsApart(ws[0].token, ws[1].quote);
      }
      ChainIsSeparated(ws[1..]);
    }
  }

  lemma {:induction false} StringIsQuoted(w: Written)
    requires WellWritten(w) && w.token.kind == String
    ensures IsQuote(w.quote)
  {
  }

  // A text that spells the tokens of a printed tree, with any white space or none between them and any string escapes,
  // parses to the tree exactly when the tree is sound.
  lemma {:induction false} AnySpellingParses(n: NumberText, variable: Text, numberOf: Text -> Num, e: Expr, lead: Text,
                                             ws: seq<Written>)
    requires Printable(numberOf, n, e) && NameRight(variable)
    requires AllWellWritten(ws) && TokensOf(ws) == Render(n, variable, e, 0)
    requires forall c | c in lead :: IsSpace(c)
    ensures ParseSource(lead + SourceOf(ws), variable, numberOf) == Ok(e) <==> Sound(n, variable, e)
  {
    hide Printable, Sound, Render, Parse, NameRight, IsSpace, WellWritten, SourceOf, Separated;
    RenderIsOperand(numberOf, n, variable, e, 0);
    ChainIsSeparated(ws);
    var s := lead + SourceOf(ws);
    SpacesAreSkipped(s, 0, lead);
    SourceReadsBack(s, |lead|, ws);
    var t := Task(TokensOf(ws) + [EOF], variable, numberOf);
    ParsingUndoesPrinting(t, n, e);
  }

  // -- Every printed tree can be written --

  function HexUnits(text: Text): (r: seq<WrittenUnit>)
    ensures Values(r) == text && |r| == |text|
    ensures forall i | 0 <= i < |r| :: r[i].text == HexText(r[i].value)
  {
    if text == [] then [] else [WrittenUnit(text[0], HexText(text[0]))] + HexUnits(text[1..])
  }

  // One way of writing a token: strings in double quotes with every unit escaped, and nothing behind it.
  function WriteToken(token: Token): Written {
    Written(token, Unit('"'), HexUnits(if token.kind == String then token.value else []), [])
  }

  function WriteAll(w: seq<Token>): (r: seq<Written>)
    ensures TokensOf(r) == w
  {
    if w == [] then [] else [WriteToken(w[0])] + WriteAll(w[1..])
  }

  lemma {:induction false} WriteAllIsWellWritten(w: seq<Token>)
    requires Chain(w)
    ensures AllWellWritten(WriteAll(w))
    decreases |w|
  {
    hide Spells;
    if w != [] {
      var units := WriteToken(w[0]).units;
      forall u | u in units
        ensures Spells(u, Unit('"'))
      {
        EveryUnitCanBeWritten(u.value, Unit('"'));
      }
      WriteAllIsWellWritten(w[1..]);
    }
  }

  // The tree as text, without any white space.
  function CompactText(n: NumberText, variable: Text, e: Expr): Text {
    SourceOf(WriteAll(Render(n, variable, e, 0)))
  }

  lemma {:induction false} CompactIsWellWritten(numberOf: Text -> Num, n: NumberText, variable: Text, e: Expr)
    requires Printable(numberOf, n, e) && NameRight(variable)
    ensures AllWellWritten(WriteAll(Render(n, variable, e, 0)))
  {
    hide Render, AllWellWritten;
    RenderIsOperand(numberOf, n, variable, e, 0);
    WriteAllIsWellWritten(Render(n, variable, e, 0));
  }
}
