// Compiling undoes printing: what packages/model-option-map/src/compiler.ts makes of a printed tree.

module CelCompileRoundTrip {
  import opened CelTokenizer
  import opened CelSpelling
  import opened CelParser
  import opened CelPrinting
  import opened CelSourceText
  import opened CelCompiler

  // -- Trimming a spelled text --

  lemma {:induction false} TrimStartDrops(lead: Text, rest: Text)
    requires AllSpace(lead) && rest != [] && !IsSpace(rest[0])
    ensures TrimStart(lead + rest) == rest
    decreases |lead|
  {
    hide IsSpace;
    if lead == [] {
      assert lead + rest == rest;
    } else {
      assert (lead + rest)[0] == lead[0] && (lead + rest)[1..] == lead[1..] + rest;
      TrimStartDrops(lead[1..], rest);
    }
  }

  lemma {:induction false} TrimEndDrops(rest: Text, trail: Text)
    requires AllSpace(trail) && rest != [] && !IsSpace(rest[|rest| - 1])
    ensures TrimEnd(rest + trail) == rest
    decreases |trail|
  {
    hide IsSpace;
    if trail == [] {
      assert rest + trail == rest;
    } else {
      var n := |trail| - 1;
      assert (rest + trail)[|rest + trail| - 1] == trail[n];
      assert (rest + trail)[..|rest + trail| - 1] == rest + trail[..n];
      TrimEndDrops(rest, trail[..n]);
    }
  }

  lemma {:induction false} TrimDrops(lead: Text, middle: Text, trail: Text)
    requires AllSpace(lead) && AllSpace(trail)
    requires middle != [] && !IsSpace(middle[0]) && !IsSpace(middle[|middle| - 1])
    ensures Trim(lead + (middle + trail)) == middle
  {
    hide IsSpace, AllSpace, TrimStart, TrimEnd;
    TrimStartDrops(lead, middle + trail);
    TrimEndDrops(middle, trail);
  }

  lemma {:induction false} DigitsAreDigits(s: Text, at: nat)
    requires at <= |s|
    ensures DigitsEnd(s, at) > at ==> IsDigit(s[DigitsEnd(s, at) - 1])
    decreases |s| - at
  {
    if at < |s| {
      DigitsAreDigits(s, at + 1);
    }
  }

  lemma {:induction false} NumberEndsInDigit(w: Text)
    requires IsNumber(w)
    ensures IsDigit(w[|w| - 1])
  {
    var i := IntegerEnd(w, 0);
    var f := FractionEnd(w, i);
    DigitsAreDigits(w, 0);
    if i + 1 <= |w| {
      DigitsAreDigits(w, i + 1);
    }
    if f + 1 <= |w| {
      DigitsAreDigits(w, f + 1);
    }
    if f + 2 <= |w| {
      DigitsAreDigits(w, f + 2);
    }
  }

  lemma {:induction false} IdentifiersAreWords(s: Text, at: nat)
    requires at <= |s|
    ensures forall i | at <= i < IdentifierEnd(s, at) :: IsLetter(s[i]) || IsDigit(s[i])
    decreases |s| - at
  {
    if at < |s| {
      IdentifiersAreWords(s, at + 1);
    }
  }

  lemma {:induction false} WordsAreNoSpace(c: CodeUnit)
    requires IsLetter(c) || IsDigit(c) || IsQuote(c) || c in SINGLE_OPERATORS || c in PUNCTUATION || c in {38, 61, 124}
    ensures !IsSpace(c)
  {
  }

  // A written token neither starts nor ends with white space.
  lemma {:induction false} TextIsSolid(w: Written)
    requires WellWritten(w)
    ensures TextOf(w) != [] && !IsSpace(TextOf(w)[0]) && !IsSpace(TextOf(w)[|TextOf(w)| - 1])
  {
    hide IsSpace, NumberEnd, IdentifierEnd;
    var t := TextOf(w);
    if w.token.kind == Number {
      NumberEndsInDigit(t);
    } else if w.token.kind == Identifier {
      IdentifiersAreWords(t, 1);
    }
    WordsAreNoSpace(t[0]);
    WordsAreNoSpace(t[|t| - 1]);
  }

  // The same tokens without the white space behind the last one.
  function Stripped(ws: seq<Written>): seq<Written> {
    if |ws| == 0 then []
    else if |ws| == 1 then [ws[0].(gap := [])]
    else [ws[0]] + Stripped(ws[1..])
  }

  lemma {:induction false} StrippedIsWellWritten(ws: seq<Written>)
    requires AllWellWritten(ws)
    ensures AllWellWritten(Stripped(ws)) && TokensOf(Stripped(ws)) == TokensOf(ws)
    decreases |ws|
  {
    hide TextOf, IsSpace;
    if |ws| == 1 {
      LastStripped(ws[0]);
      var bare := [ws[0].(gap := [])];
      assert bare[1..] == [] == ws[1..] && ws == [ws[0]];
    } else if |ws| > 1 {
      hide WellWritten;
      StrippedIsWellWritten(ws[1..]);
      assert Stripped(ws)[1..] == Stripped(ws[1..]);
    }
  }

  lemma {:induction false} StrippedIsSolid(ws: seq<Written>)
    requires ws != [] && AllWellWritten(ws)
    ensures var text, trail := SourceOf(Stripped(ws)), ws[|ws| - 1].gap;
      && SourceOf(ws) == text + trail && AllSpace(trail)
      && text != [] && !IsSpace(text[0]) && !IsSpace(text[|text| - 1])
    decreases |ws|
  {
    hide TextOf, IsSpace, WellWritten, AllSpace, SourceOf, Stripped;
    TextIsSolid(ws[0]);
    if |ws| == 1 {
      LastStripped(ws[0]);
      OnlyOneStripped(ws);
    } else {
      StrippedIsSolid(ws[1..]);
      OneMoreStripped(ws);
      MoreIsSolid(TextOf(ws[0]), ws[0].gap, SourceOf(Stripped(ws[1..])), ws[|ws| - 1].gap);
    }
  }

  lemma {:induction false} OnlyOneStripped(ws: seq<Written>)
    requires |ws| == 1
    ensures Stripped(ws) == [ws[0].(gap := [])] && ws == [ws[0]]
  {
  }

  lemma {:induction false} OneMoreStripped(ws: seq<Written>)
    requires |ws| > 1
    ensures SourceOf(ws) == TextOf(ws[0]) + (ws[0].gap + SourceOf(ws[1..]))
    ensures SourceOf(Stripped(ws)) == TextOf(ws[0]) + (ws[0].gap + SourceOf(Stripped(ws[1..])))
  {
    hide TextOf;
    assert Stripped(ws)[1..] == Stripped(ws[1..]);
  }

  lemma {:induction false} LastStripped(w: Written)
    requires WellWritten(w)
    ensures WellWritten(w.(gap := [])) && TextOf(w.(gap := [])) == TextOf(w)
    ensures SourceOf([w.(gap := [])]) == TextOf(w) && SourceOf([w]) == TextOf(w) + w.gap && AllSpace(w.gap)
  {
    var bare := w.(gap := []);
    assert [bare][1..] == [] && [w][1..] == [];
    assert TextOf(w) + ([] + []) == TextOf(w) && w.gap + [] == w.gap;
  }

  lemma {:induction false} MoreIsSolid(first: Text, gap: Text, rest: Text, trail: Text)
    requires first != [] && rest != []
    ensures first + (gap + (rest + trail)) == (first + (gap + rest)) + trail
    ensures (first + (gap + rest))[0] == first[0]
    ensures (first + (gap + rest))[|first + (gap + rest)| - 1] == rest[|rest| - 1]
  {
  }

  // -- Compiling --

  // A text that spells the tokens of a printed tree, with any white space or none between them, any around them, and
  // any string escapes, compiles to the tree exactly when the tree is sound; as an option map exactly when, moreover,
  // the tree passes the static check.
  lemma {:induction false} AnySpellingCompiles(n: NumberText, variable: Text, numberOf: Text -> Num, e: Expr,
                                               lead: Text, ws: seq<Written>)
    requires Printable(numberOf, n, e) && NameRight(variable)
    requires AllWellWritten(ws) && TokensOf(ws) == Render(n, variable, e, 0) && AllSpace(lead)
    ensures var source := lead + SourceOf(ws);
      && (CompileProgram(source, variable, numberOf) == Ok(Program(Trim(source), e)) <==> Sound(n, variable, e))
      && (CompileOptionMap(source, variable, numberOf) == Ok(Program(Trim(source), e))
          <==> Sound(n, variable, e) && ObjectResult(e))
  {
    hide Printable, Sound, Render, NameRight, IsSpace, AllSpace, SourceOf, TokensOf, AllWellWritten, ParseSource, Trim,
         ObjectResult, Stripped, Operand;
    SomethingWritten(numberOf, n, variable, e, ws);
    StrippedIsSolid(ws);
    StrippedIsWellWritten(ws);
    var bare := Stripped(ws);
    TrimDrops(lead, SourceOf(bare), ws[|ws| - 1].gap);
    assert Trim(lead + SourceOf(ws)) == SourceOf(bare);
    AnySpellingParses(n, variable, numberOf, e, [], bare);
    assert [] + SourceOf(bare) == SourceOf(bare);
  }

  lemma {:induction false} SomethingWritten(numberOf: Text -> Num, n: NumberText, variable: Text, e: Expr,
                                            ws: seq<Written>)
    requires Printable(numberOf, n, e) && NameRight(variable) && TokensOf(ws) == Render(n, variable, e, 0)
    ensures ws != []
  {
    hide Render, Printable, NameRight;
    RenderIsOperand(numberOf, n, variable, e, 0);
  }

  // Printing a tree as text without any white space and compiling the text gives the tree back, exactly for the sound
  // trees.
  lemma {:induction false} CompilingUndoesPrinting(n: NumberText, variable: Text, numberOf: Text -> Num, e: Expr)
    requires Printable(numberOf, n, e) && NameRight(variable)
    ensures var text := CompactText(n, variable, e);
            CompileProgram(text, variable, numberOf) == Ok(Program(text, e)) <==> Sound(n, variable, e)
  {
    hide Printable, Sound, Render, NameRight, IsSpace, SourceOf, AllWellWritten, ParseSource, Trim, WriteAll,
         CompileProgram;
    var ws := WriteAll(Render(n, variable, e, 0));
    CompactIsWellWritten(numberOf, n, variable, e);
    AnySpellingCompiles(n, variable, numberOf, e, [], ws);
    assert [] + SourceOf(ws) == SourceOf(ws);
    CompactIsTrimmed(numberOf, n, variable, e);
  }

  lemma {:induction false} CompactIsTrimmed(numberOf: Text -> Num, n: NumberText, variable: Text, e: Expr)
    requires Printable(numberOf, n, e) && NameRight(variable)
    ensures Trim(CompactText(n, variable, e)) == CompactText(n, variable, e)
  {
    hide Printable, Render, NameRight, IsSpace, SourceOf, AllWellWritten, Trim, WriteAll, Stripped;
    var w := Render(n, variable, e, 0);
    var ws := WriteAll(w);
    CompactIsWellWritten(numberOf, n, variable, e);
    SomethingWritten(numberOf, n, variable, e, ws);
    StrippedIsSolid(ws);
    NoGaps(w);
    var text := SourceOf(Stripped(ws));
    TrimDrops([], text, []);
    assert [] + (text + []) == text;
    assert SourceOf(ws) == text;
  }

  lemma {:induction false} NoGaps(w: seq<Token>)
    ensures forall i | 0 <= i < |WriteAll(w)| :: WriteAll(w)[i].gap == []
    decreases |w|
  {
    if w != [] {
      NoGaps(w[1..]);
      assert forall i | 0 < i < |WriteAll(w)| :: WriteAll(w)[i] == WriteAll(w[1..])[i - 1];
    }
  }

  // Two trees that are not given back: the array of the string "]", and an object whose first key is "}".
  lemma {:induction false} ClosingTextsAreMisread(n: NumberText, variable: Text, numberOf: Text -> Num)
    requires NameRight(variable)
    ensures var list := Array([Literal(Str(RBRACKET))]);
            var source := CompactText(n, variable, list);
            CompileProgram(source, variable, numberOf) != Ok(Program(source, list))
    ensures var record := Object([Entry(RBRACE, Literal(Null))]);
            var source := CompactText(n, variable, record);
            CompileOptionMap(source, variable, numberOf) != Ok(Program(source, record))
  {
    hide NameRight, SourceOf, WriteAll, Render, CompileProgram;
    var list, record := Array([Literal(Str(RBRACKET))]), Object([Entry(RBRACE, Literal(Null))]);
    assert PrintableAll(numberOf, n, list.elements) && PrintableEntries(numberOf, n, record.entries, {});
    CompilingUndoesPrinting(n, variable, numberOf, list);
    CompilingUndoesPrinting(n, variable, numberOf, record);
    assert First(n, variable, list.elements[0], 0) == Token(String, RBRACKET);
  }
}
