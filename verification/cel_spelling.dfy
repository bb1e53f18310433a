// How tokens can be written, and that the tokenizer of packages/model-option-map/src/tokenizer.ts reads them back.

module CelSpelling {
  import opened Options
  import opened Placement
  import opened CelTokenizer

  lemma {:induction false} AtIndex(s: Text, at: nat, w: Text, i: nat)
    requires StandsAt(s, at, w) && i < |w|
    ensures s[at + i] == w[i]
  {
    assert s[at..at + |w|][i] == w[i];
  }

  // -- Strings --

  // One code unit of a string literal and one way of writing it.
  datatype WrittenUnit = WrittenUnit(value: CodeUnit, text: Text)

  // A unit stands for itself, or is written with a one-letter escape, or as four hexadecimal digits.
  predicate Spells(u: WrittenUnit, quote: CodeUnit) {
    || (u.text == [u.value] && u.value != quote && u.value != BACKSLASH
        && u.value != LINE_FEED && u.value != CARRIAGE_RETURN)
    || (|u.text| == 2 && u.text[0] == BACKSLASH && SimpleEscape(u.text[1]) == Some(u.value))
    || (|u.text| == 6 && u.text[0] == BACKSLASH && u.text[1] == Unit('u') && UnicodeEscape(u.text, 2) == Some(u.value))
  }

  function Values(us: seq<WrittenUnit>): Text {
    if us == [] then [] else [us[0].value] + Values(us[1..])
  }

  function Body(us: seq<WrittenUnit>): Text {
    if us == [] then [] else us[0].text + Body(us[1..])
  }

  lemma {:induction false} UnitReadsBack(s: Text, at: nat, u: WrittenUnit, quote: CodeUnit)
    requires IsQuote(quote) && Spells(u, quote) && StandsAt(s, at, u.text)
    ensures |u.text| > 0 && s[at] != quote
    ensures StringUnit(s, at) == Ok((u.value, at + |u.text|))
  {
    AtIndex(s, at, u.text, 0);
    if |u.text| > 1 {
      AtIndex(s, at, u.text, 1);
    }
    if |u.text| == 6 {
      AtIndex(s, at, u.text, 2);
      AtIndex(s, at, u.text, 3);
      AtIndex(s, at, u.text, 4);
      AtIndex(s, at, u.text, 5);
    }
  }

  // However its units are written, a string literal reads back as exactly those units.
  lemma {:induction false} StringReadsBack(s: Text, at: nat, us: seq<WrittenUnit>, quote: CodeUnit)
    requires IsQuote(quote) && StandsAt(s, at, Body(us) + [quote])
    requires forall u | u in us :: Spells(u, quote)
    ensures StringFrom(s, at, quote) == Ok((Values(us), at + |Body(us)| + 1))
    decreases |us|
  {
    hide StringUnit;
    if us == [] {
      assert Body(us) + [quote] == [quote];
      AtIndex(s, at, [quote], 0);
    } else {
      var rest := Body(us[1..]) + [quote];
      assert Body(us) + [quote] == us[0].text + rest;
      PartsStand(s, at, us[0].text, rest);
      UnitReadsBack(s, at, us[0], quote);
      StringReadsBack(s, at + |us[0].text|, us[1..], quote);
    }
  }

  function HexDigit(n: nat): (r: CodeUnit)
    requires n < 16
    ensures IsHexDigit(r) && HexValue(r) == n
  {
    if n < 10 then Unit('0') + n else Unit('a') + (n - 10)
  }

  function HexText(c: CodeUnit): Text {
    [BACKSLASH, Unit('u'), HexDigit(c / 4096), HexDigit(c / 256 % 16), HexDigit(c / 16 % 16), HexDigit(c % 16)]
  }

  lemma {:induction false} HexTextReadsBack(c: CodeUnit)
    ensures UnicodeEscape(HexText(c), 2) == Some(c)
  {
    hide IsHexDigit, HexValue, HexDigit;
    var a, b, d, e := c / 4096, c / 256 % 16, c / 16 % 16, c % 16;
    var t := HexText(c);
    assert HexValue(t[2]) == a && HexValue(t[3]) == b && HexValue(t[4]) == d && HexValue(t[5]) == e;
    HexDigitsOf(c);
  }

  lemma {:induction false} HexDigitsOf(c: nat)
    ensures c / 4096 * 4096 + c / 256 % 16 * 256 + c / 16 % 16 * 16 + c % 16 == c
  {
    var x, y := c / 16, c / 256;
    assert c == 16 * x + c % 16;
    assert y == x / 16 && x == 16 * y + x % 16;
    assert c / 4096 == y / 16 && y == 16 * (y / 16) + y % 16;
  }

  // Every code unit has a spelling, so every string can be written.
  lemma {:induction false} EveryUnitCanBeWritten(c: CodeUnit, quote: CodeUnit)
    ensures Spells(WrittenUnit(c, HexText(c)), quote)
  {
    HexTextReadsBack(c);
  }

  // -- Where a token ends --

  // What may stand directly behind a token without becoming part of it: anything behind strings and punctuation, no
  // letter or digit behind a word, nor a dot behind a number, and no = behind an operator of one character.
  predicate Apart(token: Token, c: CodeUnit) {
    match token.kind
    case Identifier => !IsLetter(c) && !IsDigit(c)
    case Number => !IsLetter(c) && !IsDigit(c) && c != Unit('.')
    case Operator => |token.value| == 2 || c != Unit('=')
    case _ => true
  }

  lemma {:induction false} SpaceIsApart(token: Token, c: CodeUnit)
    requires IsSpace(c)
    ensures Apart(token, c)
  {
  }

  predicate EndsAt(s: Text, at: nat, token: Token) {
    at >= |s| || Apart(token, s[at])
  }

  // No word goes on at `at`.
  predicate StopsAt(s: Text, at: nat) {
    at >= |s| || (!IsLetter(s[at]) && !IsDigit(s[at]))
  }

  lemma {:induction false} DigitsEndLocal(s: Text, at: nat, w: Text, i: nat)
    requires StandsAt(s, at, w) && StopsAt(s, at + |w|) && i <= |w|
    ensures DigitsEnd(s, at + i) == at + DigitsEnd(w, i)
    ensures DigitAt(s, at + i) == DigitAt(w, i)
    decreases |w| - i
  {
    if i < |w| {
      AtIndex(s, at, w, i);
      DigitsEndLocal(s, at, w, i + 1);
    }
  }

  lemma {:induction false} IntegerEndLocal(s: Text, at: nat, w: Text)
    requires StandsAt(s, at, w) && StopsAt(s, at + |w|) && DigitAt(w, 0)
    ensures DigitAt(s, at) && IntegerEnd(s, at) == at + IntegerEnd(w, 0)
  {
    AtIndex(s, at, w, 0);
    DigitsEndLocal(s, at, w, 0);
  }

  lemma {:induction false} FractionEndLocal(s: Text, at: nat, w: Text, i: nat)
    requires StandsAt(s, at, w) && StopsAt(s, at + |w|) && i <= |w|
    requires at + |w| < |s| ==> s[at + |w|] != Unit('.')
    ensures FractionEnd(s, at + i) == at + FractionEnd(w, i)
  {
    if i < |w| {
      AtIndex(s, at, w, i);
      DigitsEndLocal(s, at, w, i + 1);
    }
  }

  lemma {:induction false} ExponentEndLocal(s: Text, at: nat, w: Text, i: nat)
    requires StandsAt(s, at, w) && StopsAt(s, at + |w|) && i <= |w| && ExponentEnd(w, i) == |w|
    ensures ExponentEnd(s, at + i) == at + |w|
  {
    if i < |w| {
      AtIndex(s, at, w, i);
      DigitsEndLocal(s, at, w, i + 1);
      if i + 1 < |w| {
        AtIndex(s, at, w, i + 1);
        DigitsEndLocal(s, at, w, i + 2);
      }
    }
  }

  lemma {:induction false} NumberEndLocal(s: Text, at: nat, w: Text)
    requires StandsAt(s, at, w) && StopsAt(s, at + |w|) && IsNumber(w)
    requires at + |w| < |s| ==> s[at + |w|] != Unit('.')
    ensures DigitAt(s, at) && NumberEnd(s, at) == at + |w|
  {
    IntegerEndLocal(s, at, w);
    FractionEndLocal(s, at, w, IntegerEnd(w, 0));
    ExponentEndLocal(s, at, w, FractionEnd(w, IntegerEnd(w, 0)));
  }

  lemma {:induction false} IdentifierEndLocal(s: Text, at: nat, w: Text, i: nat)
    requires StandsAt(s, at, w) && StopsAt(s, at + |w|) && i <= |w|
    ensures IdentifierEnd(s, at + i) == at + IdentifierEnd(w, i)
    decreases |w| - i
  {
    if i < |w| {
      AtIndex(s, at, w, i);
      IdentifierEndLocal(s, at, w, i + 1);
    }
  }

  // -- Tokens --

  predicate IsIdentifier(w: Text) {
    |w| > 0 && IsLetter(w[0]) && IdentifierEnd(w, 1) == |w|
  }

  predicate IsNumber(w: Text) {
    DigitAt(w, 0) && NumberEnd(w, 0) == |w|
  }

  // A token, how its string is written if it is one, and the white space behind it, if any.
  datatype Written = Written(token: Token, quote: CodeUnit, units: seq<WrittenUnit>, gap: Text)

  predicate WellWritten(w: Written) {
    && (forall c | c in w.gap :: IsSpace(c))
    && match w.token.kind
       case String =>
         IsQuote(w.quote) && Values(w.units) == w.token.value && forall u | u in w.units :: Spells(u, w.quote)
       case Number => IsNumber(w.token.value)
       case Identifier => IsIdentifier(w.token.value)
       case Operator =>
         w.token.value in DOUBLE_OPERATORS || (|w.token.value| == 1 && w.token.value[0] in SINGLE_OPERATORS)
       case Punctuation => |w.token.value| == 1 && w.token.value[0] in PUNCTUATION
       case Eof => false
  }

  function TextOf(w: Written): Text {
    if w.token.kind == String then [w.quote] + (Body(w.units) + [w.quote]) else w.token.value
  }

  function SourceOf(ws: seq<Written>): Text {
    if ws == [] then [] else TextOf(ws[0]) + (ws[0].gap + SourceOf(ws[1..]))
  }

  function TokensOf(ws: seq<Written>): seq<Token> {
    if ws == [] then [] else [ws[0].token] + TokensOf(ws[1..])
  }

  predicate AllWellWritten(ws: seq<Written>) {
    ws == [] || (WellWritten(ws[0]) && AllWellWritten(ws[1..]))
  }

  // Where two tokens touch, the second does not start with something that would go on the first.
  predicate Separated(ws: seq<Written>)
    requires AllWellWritten(ws)
  {
    |ws| <= 1
    || ((ws[0].gap != [] || (TextOf(ws[1]) != [] && Apart(ws[0].token, TextOf(ws[1])[0]))) && Separated(ws[1..]))
  }

  lemma {:induction false} TokenReadsBack(s: Text, at: nat, w: Written)
    requires WellWritten(w) && StandsAt(s, at, TextOf(w)) && EndsAt(s, at + |TextOf(w)|, w.token)
    ensures |TextOf(w)| > 0 && NextToken(s, at) == Ok((w.token, at + |TextOf(w)|)) && !IsSpace(s[at])
  {
    hide NextToken, StringUnit, NumberEnd, DigitsEnd, IdentifierEnd, StringFrom, IsSpace;
    AtIndex(s, at, TextOf(w), 0);
    match w.token.kind
    case String => QuotedReadsBack(s, at, w);
    case Number => WordReadsBack(s, at, w);
    case Identifier => WordReadsBack(s, at, w);
    case Operator => OperatorReadsBack(s, at, w);
    case Punctuation => PunctuationReadsBack(s, at, w);
  }

  lemma {:induction false} QuotedReadsBack(s: Text, at: nat, w: Written)
    requires WellWritten(w) && w.token.kind == String
    requires StandsAt(s, at, TextOf(w)) && s[at] == TextOf(w)[0]
    ensures NextToken(s, at) == Ok((w.token, at + |TextOf(w)|)) && !IsSpace(s[at])
  {
    hide StringUnit, StringFrom, NumberEnd, IdentifierEnd, IsNumber, IsIdentifier, Spells, Body, Values, StandsAt;
    PartsStand(s, at, [w.quote], Body(w.units) + [w.quote]);
    StringReadsBack(s, at + 1, w.units, w.quote);
  }

  lemma {:induction false} WordReadsBack(s: Text, at: nat, w: Written)
    requires WellWritten(w) && (w.token.kind == Number || w.token.kind == Identifier)
    requires StandsAt(s, at, TextOf(w)) && EndsAt(s, at + |TextOf(w)|, w.token) && s[at] == TextOf(w)[0]
    ensures NextToken(s, at) == Ok((w.token, at + |TextOf(w)|)) && !IsSpace(s[at])
  {
    hide NumberEnd, DigitsEnd, IdentifierEnd, StringUnit, StringFrom;
    if w.token.kind == Number {
      NumberEndLocal(s, at, TextOf(w));
    } else {
      IdentifierEndLocal(s, at, TextOf(w), 1);
    }
  }

  lemma {:induction false} OperatorReadsBack(s: Text, at: nat, w: Written)
    requires WellWritten(w) && w.token.kind == Operator
    requires StandsAt(s, at, TextOf(w)) && EndsAt(s, at + |TextOf(w)|, w.token) && s[at] == TextOf(w)[0]
    ensures NextToken(s, at) == Ok((w.token, at + |TextOf(w)|)) && !IsSpace(s[at])
  {
    var t := TextOf(w);
    if |t| == 1 {
      assert at + 1 < |s| ==> s[at..at + 2][0] == s[at] && s[at..at + 2][1] == s[at + 1];
      assert t == [s[at]];
    }
  }

  lemma {:induction false} PunctuationReadsBack(s: Text, at: nat, w: Written)
    requires WellWritten(w) && w.token.kind == Punctuation
    requires StandsAt(s, at, TextOf(w)) && s[at] == TextOf(w)[0]
    ensures NextToken(s, at) == Ok((w.token, at + |TextOf(w)|)) && !IsSpace(s[at])
  {
    assert at + 1 < |s| ==> s[at..at + 2][0] == s[at];
    assert TextOf(w) == [s[at]];
  }

  lemma {:induction false} SpacesAreSkipped(s: Text, at: nat, gap: Text)
    requires StandsAt(s, at, gap) && forall c | c in gap :: IsSpace(c)
    ensures Tokens(s, at) == Tokens(s, at + |gap|)
    decreases |gap|
  {
    hide Tokens, IsSpace;
    if gap != [] {
      AtIndex(s, at, gap, 0);
      assert [gap[0]] + gap[1..] == gap;
      PartsStand(s, at, [gap[0]], gap[1..]);
      SpaceIsSkipped(s, at);
      SpacesAreSkipped(s, at + 1, gap[1..]);
    }
  }

  // However the tokens are written and whatever white space stands between them, if any, the tokenizer finds them.
  lemma {:induction false} SourceReadsBack(s: Text, at: nat, ws: seq<Written>)
    requires AllWellWritten(ws) && Separated(ws) && StandsAt(s, at, SourceOf(ws)) && at + |SourceOf(ws)| == |s|
    ensures Tokens(s, at) == Ok(TokensOf(ws) + [EOF])
    decreases |ws|
  {
    hide NextToken, WellWritten, TextOf, IsSpace, IsStream, StandsAt, EndsAt, Apart;
    if ws == [] {
      assert TokensOf(ws) + [EOF] == [EOF];
    } else {
      FirstWritten(s, at, ws);
      EndsThere(s, at, ws);
      OneReadsBack(s, at, ws[0]);
      SourceReadsBack(s, at + |TextOf(ws[0])| + |ws[0].gap|, ws[1..]);
    }
  }

  lemma {:induction false} EndsThere(s: Text, at: nat, ws: seq<Written>)
    requires ws != [] && AllWellWritten(ws) && Separated(ws)
    requires StandsAt(s, at, SourceOf(ws)) && at + |SourceOf(ws)| == |s|
    ensures EndsAt(s, at + |TextOf(ws[0])|, ws[0].token)
  {
    hide TextOf, IsSpace, Apart;
    var w, rest := ws[0], SourceOf(ws[1..]);
    var gapAt := at + |TextOf(w)|;
    FirstWritten(s, at, ws);
    if w.gap != [] {
      AtIndex(s, gapAt, w.gap, 0);
      SpaceIsApart(w.token, w.gap[0]);
    } else if |ws| > 1 {
      assert rest[0] == TextOf(ws[1])[0];
      AtIndex(s, gapAt, rest, 0);
    }
  }

  // Reading a written token and the white space behind it leaves the rest to be read.
  lemma {:induction false} OneReadsBack(s: Text, at: nat, w: Written)
    requires WellWritten(w) && StandsAt(s, at, TextOf(w)) && StandsAt(s, at + |TextOf(w)|, w.gap)
    requires EndsAt(s, at + |TextOf(w)|, w.token)
    ensures Tokens(s, at) == WithTokens([w.token], Tokens(s, at + |TextOf(w)| + |w.gap|))
  {
    hide NextToken, TextOf, IsSpace, IsStream, IsQuote;
    TokenReadsBack(s, at, w);
    SpacesAreSkipped(s, at + |TextOf(w)|, w.gap);
  }

  lemma {:induction false} FirstWritten(s: Text, at: nat, ws: seq<Written>)
    requires ws != [] && StandsAt(s, at, SourceOf(ws)) && at + |SourceOf(ws)| == |s|
    ensures var w, rest := ws[0], SourceOf(ws[1..]);
            var gapAt := at + |TextOf(w)|;
            && at <= |s|
            && StandsAt(s, at, TextOf(w)) && StandsAt(s, gapAt, w.gap) && StandsAt(s, gapAt + |w.gap|, rest)
            && gapAt + |w.gap| + |rest| == |s|
    ensures TokensOf(ws) + [EOF] == [ws[0].token] + (TokensOf(ws[1..]) + [EOF])
  {
    hide TextOf, StandsAt;
    PartsFit(s, at, TextOf(ws[0]), ws[0].gap, SourceOf(ws[1..]));
    FirstToken(ws);
  }

  lemma {:induction false} FirstToken(ws: seq<Written>)
    requires ws != []
    ensures TokensOf(ws) + [EOF] == [ws[0].token] + (TokensOf(ws[1..]) + [EOF])
  {
  }

  lemma {:induction false} PartsFit(s: Text, at: nat, a: Text, b: Text, c: Text)
    requires StandsAt(s, at, a + (b + c)) && at + |a + (b + c)| == |s|
    ensures StandsAt(s, at, a) && StandsAt(s, at + |a|, b) && StandsAt(s, at + |a| + |b|, c)
    ensures at + |a| + |b| + |c| == |s|
  {
    hide StandsAt;
    PartsStand(s, at, a, b + c);
    PartsStand(s, at + |a|, b, c);
  }
}
