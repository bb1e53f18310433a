// Model of packages/model-option-map/src/tokenizer.ts.

module CelTokenizer {
  import opened Options

  // Source text is a sequence of UTF-16 code units.
  type CodeUnit = c: int | 0 <= c < 0x1_0000
  type Text = seq<CodeUnit>

  datatype Kind = Identifier | String | Number | Operator | Punctuation | Eof

  datatype Token = Token(kind: Kind, value: Text)

  datatype CelError =
    | UnsupportedToken
    | InvalidNumber
    | UnterminatedString
    | UnterminatedEscape
    | InvalidUnicodeEscape
    | UnsupportedEscape
    | UnexpectedToken
    | Expected(text: Text)
    | FunctionCall
    | MemberAccess
    | UnknownIdentifier
    | UnsafeNumber
    | KeyNotString
    | DuplicateKey
    | BooleanRequired
    | NumberRequired
    | NotComparable
    | UnsupportedOperator
    | NotAnObject
    | EmptyExpression
    | InvalidInput

  datatype Result<T> = Ok(value: T) | Err(error: CelError)

  const EOF: Token := Token(Eof, [])

  // -- Character classes --

  function Unit(c: char): CodeUnit
    requires c as int < 0x1_0000
  {
    c as int
  }

  predicate IsDigit(c: CodeUnit) {
    Unit('0') <= c <= Unit('9')
  }

  predicate IsLetter(c: CodeUnit) {
    Unit('a') <= c <= Unit('z') || Unit('A') <= c <= Unit('Z') || c == Unit('_')
  }

  predicate IsHexDigit(c: CodeUnit) {
    IsDigit(c) || Unit('a') <= c <= Unit('f') || Unit('A') <= c <= Unit('F')
  }

  // The class \s.
  predicate IsSpace(c: CodeUnit) {
    || 9 <= c <= 13 || c == 0x20 || c == 0xA0 || c == 0x1680 || 0x2000 <= c <= 0x200A
    || c == 0x2028 || c == 0x2029 || c == 0x202F || c == 0x205F || c == 0x3000 || c == 0xFEFF
  }

  predicate IsQuote(c: CodeUnit) {
    c == Unit('\'') || c == Unit('"')
  }

  const DOUBLE_OPERATORS: set<Text> :=
    {[Unit('&'), Unit('&')], [Unit('|'), Unit('|')], [Unit('='), Unit('=')],
     [Unit('!'), Unit('=')], [Unit('<'), Unit('=')], [Unit('>'), Unit('=')]}

  const SINGLE_OPERATORS: set<CodeUnit> :=
    {Unit('+'), Unit('-'), Unit('*'), Unit('/'), Unit('%'), Unit('!'), Unit('<'), Unit('>')}

  const PUNCTUATION: set<CodeUnit> :=
    {Unit('{'), Unit('}'), Unit('['), Unit(']'), Unit('('), Unit(')'), Unit(','), Unit(':'), Unit('?'), Unit('.')}

  // -- Strings --

  const BACKSLASH: CodeUnit := 0x5C
  const LINE_FEED: CodeUnit := 0x0A
  const CARRIAGE_RETURN: CodeUnit := 0x0D

  // What the character behind a backslash stands for.
  function SimpleEscape(c: CodeUnit): Option<CodeUnit> {
    if IsQuote(c) || c == BACKSLASH then Some(c)
    else if c == Unit('b') then Some(8)
    else if c == Unit('f') then Some(12)
    else if c == Unit('n') then Some(LINE_FEED)
    else if c == Unit('r') then Some(CARRIAGE_RETURN)
    else if c == Unit('t') then Some(9)
    else None
  }

  function HexValue(c: CodeUnit): (r: nat)
    requires IsHexDigit(c)
    ensures r < 16
  {
    if IsDigit(c) then c - Unit('0')
    else if c >= Unit('a') then c - Unit('a') + 10
    else c - Unit('A') + 10
  }

  // The code unit written as four hexadecimal digits at `at`, if they are there.
  function UnicodeEscape(s: Text, at: nat): Option<CodeUnit> {
    if at + 4 <= |s| && IsHexDigit(s[at]) && IsHexDigit(s[at + 1]) && IsHexDigit(s[at + 2]) && IsHexDigit(s[at + 3])
    then Some(HexValue(s[at]) * 4096 + HexValue(s[at + 1]) * 256 + HexValue(s[at + 2]) * 16 + HexValue(s[at + 3]))
    else None
  }

  // One character of a string body at `cursor`: the code unit it stands for and where the next one starts.
  function StringUnit(s: Text, cursor: nat): (r: Result<(CodeUnit, nat)>)
    requires cursor < |s|
    ensures r.Ok? ==> cursor < r.value.1 <= |s|
  {
    if s[cursor] == LINE_FEED || s[cursor] == CARRIAGE_RETURN then Err(UnterminatedString)
    else if s[cursor] != BACKSLASH then Ok((s[cursor], cursor + 1))
    else if cursor + 1 == |s| then Err(UnterminatedEscape)
    else if SimpleEscape(s[cursor + 1]).Some? then Ok((SimpleEscape(s[cursor + 1]).value, cursor + 2))
    else if s[cursor + 1] != Unit('u') then Err(UnsupportedEscape)
    else match UnicodeEscape(s, cursor + 2)
         case None => Err(InvalidUnicodeEscape)
         case Some(c) => Ok((c, cursor + 6))
  }

  // The rest of a string literal from `cursor` on, and where it ends.
  function StringFrom(s: Text, cursor: nat, quote: CodeUnit): (r: Result<(Text, nat)>)
    requires cursor <= |s|
    ensures r.Ok? ==> cursor < r.value.1 <= |s|
    decreases |s| - cursor
  {
    if cursor == |s| then Err(UnterminatedString)
    else if s[cursor] == quote then Ok(([], cursor + 1))
    else match StringUnit(s, cursor)
         case Err(e) => Err(e)
         case Ok((c, next)) => WithUnits([c], StringFrom(s, next, quote))
  }

  function WithUnits(value: Text, r: Result<(Text, nat)>): Result<(Text, nat)> {
    match r
    case Err(e) => Err(e)
    case Ok((more, end)) => Ok((value + more, end))
  }

  lemma {:induction false} WithOneMore(value: Text, c: CodeUnit, r: Result<(Text, nat)>)
    ensures WithUnits(value + [c], r) == WithUnits(value, WithUnits([c], r))
  {
    if r.Ok? {
      assert value + [c] + r.value.0 == value + ([c] + r.value.0);
    }
  }

  // -- Numbers and identifiers --

  function DigitsEnd(s: Text, at: nat): (r: nat)
    requires at <= |s|
    ensures at <= r <= |s|
    decreases |s| - at
  {
    if at < |s| && IsDigit(s[at]) then DigitsEnd(s, at + 1) else at
  }

  predicate DigitAt(s: Text, at: nat) {
    at < |s| && IsDigit(s[at])
  }

  // 0 or a digit sequence not starting with 0.
  function IntegerEnd(s: Text, at: nat): (r: nat)
    requires DigitAt(s, at)
    ensures at < r <= |s|
  {
    if s[at] == Unit('0') then at + 1 else DigitsEnd(s, at)
  }

  function FractionEnd(s: Text, at: nat): (r: nat)
    requires at <= |s|
    ensures at <= r <= |s|
  {
    if at < |s| && s[at] == Unit('.') && DigitAt(s, at + 1) then DigitsEnd(s, at + 1) else at
  }

  function ExponentEnd(s: Text, at: nat): (r: nat)
    requires at <= |s|
    ensures at <= r <= |s|
  {
    if at < |s| && (s[at] == Unit('e') || s[at] == Unit('E')) then
      if DigitAt(s, at + 1) then DigitsEnd(s, at + 1)
      else if at + 1 < |s| && (s[at + 1] == Unit('+') || s[at + 1] == Unit('-')) && DigitAt(s, at + 2)
      then DigitsEnd(s, at + 2)
      else at
    else at
  }

  // Where the number literal at `at` ends.
  function NumberEnd(s: Text, at: nat): (r: nat)
    requires DigitAt(s, at)
    ensures at < r <= |s|
  {
    ExponentEnd(s, FractionEnd(s, IntegerEnd(s, at)))
  }

  function IdentifierEnd(s: Text, at: nat): (r: nat)
    requires at <= |s|
    ensures at <= r <= |s|
    decreases |s| - at
  {
    if at < |s| && (IsLetter(s[at]) || IsDigit(s[at])) then IdentifierEnd(s, at + 1) else at
  }

  // -- Tokens --

  function NextToken(s: Text, at: nat): (r: Result<(Token, nat)>)
    requires at < |s|
    ensures r.Ok? ==> at < r.value.1 <= |s| && r.value.0.kind != Eof
  {
    var c := s[at];
    if IsQuote(c) then
      match StringFrom(s, at + 1, c)
      case Err(e) => Err(e)
      case Ok((value, end)) => Ok((Token(String, value), end))
    else if IsDigit(c) then Ok((Token(Number, s[at..NumberEnd(s, at)]), NumberEnd(s, at)))
    else if IsLetter(c) then Ok((Token(Identifier, s[at..IdentifierEnd(s, at + 1)]), IdentifierEnd(s, at + 1)))
    else if at + 1 < |s| && s[at..at + 2] in DOUBLE_OPERATORS then Ok((Token(Operator, s[at..at + 2]), at + 2))
    else if c in SINGLE_OPERATORS then Ok((Token(Operator, [c]), at + 1))
    else if c in PUNCTUATION then Ok((Token(Punctuation, [c]), at + 1))
    else Err(UnsupportedToken)
  }

  // The tokens of the text from `at` on.
  function Tokens(s: Text, at: nat): (r: Result<seq<Token>>)
    requires at <= |s|
    ensures r.Ok? ==> IsStream(r.value)
    decreases |s| - at
  {
    if at == |s| then Ok([EOF])
    else if IsSpace(s[at]) then Tokens(s, at + 1)
    else match NextToken(s, at)
         case Err(e) => Err(e)
         case Ok((token, end)) => WithTokens([token], Tokens(s, end))
  }

  function WithTokens(tokens: seq<Token>, r: Result<seq<Token>>): Result<seq<Token>> {
    match r
    case Err(e) => Err(e)
    case Ok(more) => Ok(tokens + more)
  }

  lemma {:induction false} EndIsMarked(s: Text)
    ensures Tokens(s, |s|) == Ok([EOF])
  {
  }

  lemma {:induction false} SpaceIsSkipped(s: Text, at: nat)
    requires at < |s| && IsSpace(s[at])
    ensures Tokens(s, at) == Tokens(s, at + 1)
  {
    hide NextToken, IsSpace;
  }

  lemma {:induction false} TokenIsFirst(s: Text, at: nat)
    requires at < |s| && !IsSpace(s[at])
    ensures Tokens(s, at) == match NextToken(s, at)
                             case Err(e) => Err(e)
                             case Ok((token, end)) => WithTokens([token], Tokens(s, end))
  {
    hide NextToken, IsSpace;
  }

  lemma {:induction false} WithOneMoreToken(tokens: seq<Token>, t: Token, r: Result<seq<Token>>)
    ensures WithTokens(tokens + [t], r) == WithTokens(tokens, WithTokens([t], r))
    ensures WithTokens([], r) == r
  {
    if r.Ok? {
      assert tokens + [t] + r.value == tokens + ([t] + r.value);
      assert [] + r.value == r.value;
    }
  }

  // A token sequence as the parser gets it: one end marker, at the end.
  predicate IsStream(ts: seq<Token>) {
    && |ts| > 0 && ts[|ts| - 1] == EOF
    && forall k | 0 <= k < |ts| - 1 :: ts[k].kind != Eof
  }

  method ReadString(s: Text, offset: nat, quote: CodeUnit) returns (r: Result<(Token, nat)>)
    requires offset < |s|
    ensures r == match StringFrom(s, offset + 1, quote)
                 case Err(e) => Err(e)
                 case Ok((value, end)) => Ok((Token(String, value), end))
  {
    var cursor, value := offset + 1, [];
    assert WithUnits([], StringFrom(s, cursor, quote)) == StringFrom(s, cursor, quote) by {
      if StringFrom(s, cursor, quote).Ok? {
        assert [] + StringFrom(s, cursor, quote).value.0 == StringFrom(s, cursor, quote).value.0;
      }
    }
    while cursor < |s|
      invariant offset < cursor <= |s|
      invariant WithUnits(value, StringFrom(s, cursor, quote)) == StringFrom(s, offset + 1, quote)
    {
      var character := s[cursor];
      if character != quote && StringUnit(s, cursor).Ok? {
        var (c, next) := StringUnit(s, cursor).value;
        WithOneMore(value, c, StringFrom(s, next, quote));
      }
      if character == quote {
        assert value + [] == value;
        return Ok((Token(String, value), cursor + 1));
      }
      if character == LINE_FEED || character == CARRIAGE_RETURN {
        return Err(UnterminatedString);
      }
      if character != BACKSLASH {
        value := value + [character];
        cursor := cursor + 1;
        continue;
      }
      cursor := cursor + 1;
      if cursor == |s| {
        return Err(UnterminatedEscape);
      }
      var escaped := s[cursor];
      var simple := SimpleEscape(escaped);
      if simple.Some? {
        value := value + [simple.value];
        cursor := cursor + 1;
        continue;
      }
      if escaped != Unit('u') {
        return Err(UnsupportedEscape);
      }
      var unicode := UnicodeEscape(s, cursor + 1);
      if unicode.None? {
        return Err(InvalidUnicodeEscape);
      }
      value := value + [unicode.value];
      cursor := cursor + 5;
    }
    r := Err(UnterminatedString);
  }

  method ReadWhileIdentifier(s: Text, offset: nat) returns (end: nat)
    requires offset <= |s|
    ensures end == IdentifierEnd(s, offset)
  {
    end := offset;
    while end < |s| && (IsLetter(s[end]) || IsDigit(s[end]))
      invariant offset <= end <= |s|
      invariant IdentifierEnd(s, end) == IdentifierEnd(s, offset)
    {
      end := end + 1;
    }
  }

  method Tokenize(s: Text) returns (r: Result<seq<Token>>)
    ensures r == Tokens(s, 0)
  {
    hide Tokens, NumberEnd, IdentifierEnd, StringFrom, IsSpace, IsLetter, IsDigit, IsQuote, IsStream;
    var tokens: seq<Token>, offset := [], 0;
    WithOneMoreToken([], EOF, Tokens(s, 0));
    while offset < |s|
      invariant 0 <= offset <= |s|
      invariant WithTokens(tokens, Tokens(s, offset)) == Tokens(s, 0)
    {
      var character := s[offset];
      if IsSpace(character) {
        SpaceIsSkipped(s, offset);
        offset := offset + 1;
        continue;
      }
      TokenIsFirst(s, offset);
      var token, end;
      if IsQuote(character) {
        var read := ReadString(s, offset, character);
        if read.Err? {
          return Err(read.error);
        }
        token, end := read.value.0, read.value.1;
      } else if IsDigit(character) {
        end := NumberEnd(s, offset);
        token := Token(Number, s[offset..end]);
      } else if IsLetter(character) {
        end := ReadWhileIdentifier(s, offset + 1);
        token := Token(Identifier, s[offset..end]);
      } else if offset + 1 < |s| && s[offset..offset + 2] in DOUBLE_OPERATORS {
        token, end := Token(Operator, s[offset..offset + 2]), offset + 2;
      } else if character in SINGLE_OPERATORS {
        token, end := Token(Operator, [character]), offset + 1;
      } else if character in PUNCTUATION {
        token, end := Token(Punctuation, [character]), offset + 1;
      } else {
        return Err(UnsupportedToken);
      }
      assert NextToken(s, offset) == Ok((token, end));
      WithOneMoreToken(tokens, token, Tokens(s, end));
      tokens := tokens + [token];
      offset := end;
    }
    EndIsMarked(s);
    r := Ok(tokens + [EOF]);
  }
}
