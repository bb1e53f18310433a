// The vocabulary of packages/model-option-map/src/tokenizer.ts and parser.ts spelled out: escapes, numbers, operators
// and words.

module CelLexicon {
  import opened Options
  import opened CelTokenizer
  import opened CelSpelling
  import opened CelParser

  // -- Strings --

  // What a backslash and a character stand for.
  const ESCAPES: map<CodeUnit, CodeUnit> :=
    map[34 := 34, 39 := 39, 92 := 92, 98 := 8, 102 := 12, 110 := 10, 114 := 13, 116 := 9]

  // A literal of one escape: the listed ones, `u` with four hexadecimal digits, and nothing else.
  lemma {:induction false} OneEscape(quote: CodeUnit, c: CodeUnit)
    requires quote == 34 || quote == 39
    ensures StringFrom([92, c, quote], 0, quote)
         == if c in ESCAPES then Ok(([ESCAPES[c]], 3))
            else if c == 117 then Err(InvalidUnicodeEscape) else Err(UnsupportedEscape)
  {
    var literal: Text := [92, c, quote];
    assert c in ESCAPES <==> SimpleEscape(c).Some?;
    assert c in ESCAPES ==> StringFrom(literal, 2, quote) == Ok(([], 3)) && [ESCAPES[c]] + [] == [ESCAPES[c]];
  }

  lemma {:induction false} HexDigits(c: CodeUnit)
    ensures IsHexDigit(c) <==> 48 <= c <= 57 || 65 <= c <= 70 || 97 <= c <= 102
    ensures 48 <= c <= 57 ==> HexValue(c) == c - 48
    ensures 65 <= c <= 70 ==> HexValue(c) == HexValue(c + 32) == c - 55
  {
  }

  // -- Numbers --

  predicate AllDigits(s: Text) {
    forall i | 0 <= i < |s| :: 48 <= s[i] <= 57
  }

  // Digits, and no leading zero unless it is the only one.
  predicate IsIntegerPart(s: Text) {
    s != [] && AllDigits(s) && (s[0] == 48 ==> |s| == 1)
  }

  // Nothing, or a dot and digits.
  predicate IsFractionPart(s: Text) {
    s == [] || (|s| >= 2 && s[0] == 46 && AllDigits(s[1..]))
  }

  // Nothing, or e or E, perhaps a sign, and digits.
  predicate IsExponentPart(s: Text) {
    s == []
    || (|s| >= 2 && (s[0] == 101 || s[0] == 69)
        && (AllDigits(s[1..]) || (|s| >= 3 && (s[1] == 43 || s[1] == 45) && AllDigits(s[2..]))))
  }

  lemma {:induction false} DigitsEndWhere(s: Text, at: nat, end: nat)
    requires at <= end <= |s| && AllDigits(s[at..end]) && (end < |s| ==> !(48 <= s[end] <= 57))
    ensures DigitsEnd(s, at) == end
    decreases end - at
  {
    if at < end {
      assert s[at..end][0] == s[at] && s[at + 1..end] == s[at..end][1..];
      DigitsEndWhere(s, at + 1, end);
    }
  }

  // A text is one number token exactly if it is an integer part, a fraction part and an exponent part.
  lemma {:induction false} NumbersAre(i: Text, f: Text, x: Text)
    requires IsIntegerPart(i) && IsFractionPart(f) && IsExponentPart(x)
    ensures IsNumber(i + f + x)
  {
    hide DigitsEnd;
    var w, a, b := i + f + x, |i|, |i| + |f|;
    assert w[..a] == i && w[a..b] == f && w[b..] == x;
    assert forall k | 0 <= k < a :: w[k] == i[k];
    assert forall k | a <= k < b :: w[k] == f[k - a];
    assert forall k | b <= k < |w| :: w[k] == x[k - b];
    IntegerPartEnds(w, a);
    FractionPartEnds(w, a, b);
    ExponentPartEnds(w, b);
  }

  lemma {:induction false} IntegerPartEnds(w: Text, a: nat)
    requires 0 < a <= |w| && IsIntegerPart(w[..a]) && (a < |w| ==> !(48 <= w[a] <= 57))
    ensures DigitAt(w, 0) && IntegerEnd(w, 0) == a
  {
    assert w[..a][0] == w[0] && w[0..a] == w[..a];
    DigitsEndWhere(w, 0, a);
  }

  lemma {:induction false} FractionPartEnds(w: Text, a: nat, b: nat)
    requires a <= b <= |w| && IsFractionPart(w[a..b]) && (b < |w| ==> !(48 <= w[b] <= 57) && w[b] != 46)
    ensures FractionEnd(w, a) == b
  {
    if a < b {
      assert w[a..b][0] == w[a] && w[a..b][1] == w[a + 1] && w[a + 1..b] == w[a..b][1..];
      DigitsEndWhere(w, a + 1, b);
      assert w[a..b][1..][0] == w[a + 1];
    }
  }

  lemma {:induction false} ExponentPartEnds(w: Text, b: nat)
    requires b <= |w| && IsExponentPart(w[b..])
    ensures ExponentEnd(w, b) == |w|
  {
    hide DigitsEnd;
    var x := w[b..];
    if x != [] {
      assert x[0] == w[b] && x[1] == w[b + 1];
      if AllDigits(x[1..]) {
        assert w[b + 1..|w|] == x[1..] && x[1..][0] == w[b + 1];
        DigitsEndWhere(w, b + 1, |w|);
      } else {
        assert w[b + 2..|w|] == x[2..] && x[2..][0] == w[b + 2];
        DigitsEndWhere(w, b + 2, |w|);
      }
    }
  }

  lemma {:induction false} IntegerPartOf(w: Text)
    requires DigitAt(w, 0)
    ensures IsIntegerPart(w[..IntegerEnd(w, 0)])
  {
    hide DigitsEnd;
    DigitsUpTo(w, 0);
    assert w[0..DigitsEnd(w, 0)] == w[..DigitsEnd(w, 0)];
  }

  lemma {:induction false} FractionPartOf(w: Text, a: nat)
    requires a <= |w|
    ensures IsFractionPart(w[a..FractionEnd(w, a)])
  {
    hide DigitsEnd;
    var b := FractionEnd(w, a);
    if a < b {
      DigitsUpTo(w, a + 1);
      assert w[a..b][1..] == w[a + 1..b];
    }
  }

  lemma {:induction false} ExponentPartOf(w: Text, b: nat)
    requires b <= |w| && ExponentEnd(w, b) == |w|
    ensures IsExponentPart(w[b..])
  {
    hide DigitsEnd;
    var x := w[b..];
    if b < |w| {
      if DigitAt(w, b + 1) {
        DigitsUpTo(w, b + 1);
        assert x[1..] == w[b + 1..|w|];
      } else {
        DigitsUpTo(w, b + 2);
        assert x[2..] == w[b + 2..|w|] && x[1] == w[b + 1];
      }
    }
  }

  // And every number token has such parts.
  lemma {:induction false} NumbersHaveParts(w: Text) returns (i: Text, f: Text, x: Text)
    requires IsNumber(w)
    ensures w == i + f + x && IsIntegerPart(i) && IsFractionPart(f) && IsExponentPart(x)
  {
    hide IntegerEnd, FractionEnd, ExponentEnd, IsIntegerPart, IsFractionPart, IsExponentPart;
    var a := IntegerEnd(w, 0);
    var b := FractionEnd(w, a);
    i, f, x := w[..a], w[a..b], w[b..];
    IntegerPartOf(w);
    FractionPartOf(w, a);
    ExponentPartOf(w, b);
  }

  lemma {:induction false} DigitsUpTo(s: Text, at: nat)
    requires at <= |s|
    ensures AllDigits(s[at..DigitsEnd(s, at)])
    ensures DigitAt(s, at) ==> DigitsEnd(s, at) > at
    decreases |s| - at
  {
    if at < |s| && IsDigit(s[at]) {
      DigitsUpTo(s, at + 1);
      var end := DigitsEnd(s, at);
      assert s[at..end] == [s[at]] + s[at + 1..end];
    }
  }

  // -- Words and marks --

  lemma {:induction false} Characters(c: CodeUnit)
    ensures IsDigit(c) <==> 48 <= c <= 57
    ensures IsLetter(c) <==> 65 <= c <= 90 || 97 <= c <= 122 || c == 95
    ensures c in SINGLE_OPERATORS <==> c in {33, 37, 42, 43, 45, 47, 60, 62}
    ensures c in PUNCTUATION <==> c in {40, 41, 44, 46, 58, 63, 91, 93, 123, 125}
    ensures IsSpace(c) <==> c in {9, 10, 11, 12, 13, 32, 0xA0, 0x1680, 0x2028, 0x2029, 0x202F, 0x205F, 0x3000, 0xFEFF}
                            || 0x2000 <= c <= 0x200A
  {
  }

  // The operators of two characters: && || == != <= >=.
  lemma {:induction false} Pairs(c: CodeUnit, d: CodeUnit)
    ensures [c, d] in DOUBLE_OPERATORS <==> (c, d) in {(38, 38), (124, 124), (61, 61), (33, 61), (60, 61), (62, 61)}
  {
    assert [c, d][0] == c && [c, d][1] == d;
    assert forall a: CodeUnit, b: CodeUnit :: [a, b] == [c, d] <==> a == c && b == d by {
      forall a: CodeUnit, b: CodeUnit
        ensures [a, b] == [c, d] <==> a == c && b == d
      {
        assert [a, b][0] == a && [a, b][1] == b;
      }
    }
  }

  // The marks ? : , . ( ) [ ] { } of the grammar.
  lemma {:induction false} Marks()
    ensures QUESTION == [63] && COLON == [58] && COMMA == [44] && DOT == [46] && LPAREN == [40] && RPAREN == [41]
    ensures LBRACKET == [91] && RBRACKET == [93] && LBRACE == [123] && RBRACE == [125]
  {
  }

  // A word of letters and digits is one identifier token.
  lemma {:induction false} WordsAre(w: Text)
    requires w != [] && (forall i | 0 <= i < |w| :: IsLetter(w[i]) || IsDigit(w[i])) && IsLetter(w[0])
    ensures IsIdentifier(w)
  {
    WordEnds(w, 1);
  }

  lemma {:induction false} WordEnds(w: Text, at: nat)
    requires at <= |w| && forall i | 0 <= i < |w| :: IsLetter(w[i]) || IsDigit(w[i])
    ensures IdentifierEnd(w, at) == |w|
    decreases |w| - at
  {
    if at < |w| {
      WordEnds(w, at + 1);
    }
  }

  // What a word stands for where an operand is expected.
  function WordMeans(word: Text, variable: Text): Result<Expr> {
    if word == variable then Ok(Input)
    else if word == [116, 114, 117, 101] then Ok(Literal(Boolean(true)))
    else if word == [102, 97, 108, 115, 101] then Ok(Literal(Boolean(false)))
    else if word == [110, 117, 108, 108] then Ok(Literal(Null))
    else Err(UnknownIdentifier)
  }

  // The three words and the name of the input, as operands.
  lemma {:induction false} WordsMean(t: Task, i: nat)
    requires Position(t, i) && t.tokens[i].kind == Identifier && t.tokens[i + 1].value != [40]
    ensures Primary(t, i) == match WordMeans(t.tokens[i].value, t.variable)
                             case Ok(e) => Ok((e, i + 1))
                             case Err(error) => Err(error)
  {
    assert TRUE == [116, 114, 117, 101] && FALSE == [102, 97, 108, 115, 101] && NULL == [110, 117, 108, 108];
    assert LPAREN == [40] && TRUE[0] != FALSE[0];
  }
}
