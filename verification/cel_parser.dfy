// Model of packages/model-option-map/src/parser.ts: recursive descent over a token sequence.

module CelParser {
  import opened CelTokenizer

  // A number of the source language; `NotFinite` stands for the infinities and NaN.
  datatype Num = Finite(value: real) | NotFinite

  const MAX_SAFE: real := 9007199254740991.0

  // Finite, and if integral within the safe integers.
  predicate JsonSafe(n: Num) {
    n.Finite? && (n.value.Floor as real == n.value ==> -MAX_SAFE <= n.value <= MAX_SAFE)
  }

  datatype Scalar = Str(text: Text) | Numeric(n: Num) | Boolean(b: bool) | Null

  datatype Expr =
    | Literal(value: Scalar)
    | Input
    | Array(elements: seq<Expr>)
    | Object(entries: seq<Entry>)
    | Unary(op: Text, operand: Expr)
    | Binary(op: Text, left: Expr, right: Expr)
    | Conditional(condition: Expr, whenTrue: Expr, whenFalse: Expr)

  datatype Entry = Entry(key: Text, value: Expr)

  // -- Token texts --

  const QUESTION: Text := [Unit('?')]
  const COLON: Text := [Unit(':')]
  const COMMA: Text := [Unit(',')]
  const DOT: Text := [Unit('.')]
  const LPAREN: Text := [Unit('(')]
  const RPAREN: Text := [Unit(')')]
  const LBRACKET: Text := [Unit('[')]
  const RBRACKET: Text := [Unit(']')]
  const LBRACE: Text := [Unit('{')]
  const RBRACE: Text := [Unit('}')]
  const TRUE: Text := [Unit('t'), Unit('r'), Unit('u'), Unit('e')]
  const FALSE: Text := [Unit('f'), Unit('a'), Unit('l'), Unit('s'), Unit('e')]
  const NULL: Text := [Unit('n'), Unit('u'), Unit('l'), Unit('l')]

  lemma {:induction false} TextsDiffer()
    ensures COMMA != RBRACKET && COMMA != RBRACE && COMMA != LPAREN && COMMA != QUESTION
    ensures QUESTION != LPAREN && COLON != LPAREN && COLON != QUESTION
    ensures RBRACKET != LPAREN && RBRACKET != QUESTION && RBRACE != LPAREN && RBRACE != QUESTION
    ensures RPAREN != LPAREN && RPAREN != QUESTION
  {
    assert COMMA[0] == 44 && QUESTION[0] == 63 && COLON[0] == 58 && LPAREN[0] == 40 && RPAREN[0] == 41;
    assert RBRACKET[0] == 93 && RBRACE[0] == 125;
  }

  predicate IsUnaryOperator(op: Text) {
    op == [Unit('!')] || op == [Unit('-')] || op == [Unit('+')]
  }

  // The precedence level of a binary operator, 1 for || up to 6 for the multiplicative ones; 0 for any other text.
  function BinaryLevel(op: Text): (r: nat)
    ensures r <= 6
  {
    if op == [Unit('|'), Unit('|')] then 1
    else if op == [Unit('&'), Unit('&')] then 2
    else if op == [Unit('='), Unit('=')] || op == [Unit('!'), Unit('=')] then 3
    else if op == [Unit('<')] || op == [Unit('<'), Unit('=')] then 4
    else if op == [Unit('>')] || op == [Unit('>'), Unit('=')] then 4
    else if op == [Unit('+')] || op == [Unit('-')] then 5
    else if op == [Unit('*')] || op == [Unit('/')] || op == [Unit('%')] then 6
    else 0
  }

  // What a parse works on: the tokens, the name of the input variable, and the number a literal's text denotes.
  datatype Task = Task(tokens: seq<Token>, variable: Text, numberOf: Text -> Num)

  predicate Position(t: Task, i: nat) {
    IsStream(t.tokens) && i < |t.tokens|
  }

  type Parsed = Result<(Expr, nat)>

  // A successful parse has moved on, and not past the end marker.
  predicate Advanced(t: Task, i: nat, r: Parsed) {
    r.Ok? ==> i < r.value.1 < |t.tokens|
  }

  // -- The grammar as functions: the expression that starts at a position and where it ends --

  function ConditionalAt(t: Task, i: nat): (r: Parsed)
    requires Position(t, i)
    ensures Advanced(t, i, r)
    decreases |t.tokens| - i, 9
  {
    match BinaryAt(t, i, 1)
    case Err(e) => Err(e)
    case Ok((condition, j)) =>
      if t.tokens[j].value != QUESTION then Ok((condition, j))
      else match ConditionalAt(t, j + 1)
           case Err(e) => Err(e)
           case Ok((whenTrue, k)) =>
             if t.tokens[k].value != COLON then Err(Expected(COLON))
             else match ConditionalAt(t, k + 1)
                  case Err(e) => Err(e)
                  case Ok((whenFalse, l)) => Ok((Conditional(condition, whenTrue, whenFalse), l))
  }

  // Level 7 stands for the unary operators, the operands of the binary level 6.
  function BinaryAt(t: Task, i: nat, level: nat): (r: Parsed)
    requires Position(t, i) && 1 <= level <= 7
    ensures Advanced(t, i, r)
    decreases |t.tokens| - i, 8 - level
  {
    if level == 7 then UnaryAt(t, i)
    else match BinaryAt(t, i, level + 1)
         case Err(e) => Err(e)
         case Ok((left, j)) => BinaryRest(t, j, level, left)
  }

  // The loop of parseBinary: operators of one level group to the left.
  function BinaryRest(t: Task, i: nat, level: nat, left: Expr): (r: Parsed)
    requires Position(t, i) && 1 <= level <= 6
    ensures r.Ok? ==> i <= r.value.1 < |t.tokens|
    decreases |t.tokens| - i, 8 - level
  {
    var token := t.tokens[i];
    if token.kind != Operator || BinaryLevel(token.value) != level then Ok((left, i))
    else match BinaryAt(t, i + 1, level + 1)
         case Err(e) => Err(e)
         case Ok((right, j)) => BinaryRest(t, j, level, Binary(token.value, left, right))
  }

  function UnaryAt(t: Task, i: nat): (r: Parsed)
    requires Position(t, i)
    ensures Advanced(t, i, r)
    decreases |t.tokens| - i, 0, 1
  {
    var token := t.tokens[i];
    if token.kind == Operator && IsUnaryOperator(token.value) then
      match UnaryAt(t, i + 1)
      case Err(e) => Err(e)
      case Ok((operand, j)) => Ok((Unary(token.value, operand), j))
    else Primary(t, i)
  }

  function Primary(t: Task, i: nat): (r: Parsed)
    requires Position(t, i)
    ensures Advanced(t, i, r)
    decreases |t.tokens| - i, 0, 0
  {
    var token := t.tokens[i];
    if token.kind == Number then
      if JsonSafe(t.numberOf(token.value)) then Ok((Literal(Numeric(t.numberOf(token.value))), i + 1))
      else Err(UnsafeNumber)
    else if token.kind == String then Ok((Literal(Str(token.value)), i + 1))
    else if token.kind == Identifier then
      if t.tokens[i + 1].value == LPAREN then Err(FunctionCall)
      else if token.value == t.variable then Ok((Input, i + 1))
      else if token.value == TRUE || token.value == FALSE then Ok((Literal(Boolean(token.value == TRUE)), i + 1))
      else if token.value == NULL then Ok((Literal(Null), i + 1))
      else Err(UnknownIdentifier)
    else if token.value == LPAREN then
      match ConditionalAt(t, i + 1)
      case Err(e) => Err(e)
      case Ok((e, j)) => if t.tokens[j].value != RPAREN then Err(Expected(RPAREN)) else Ok((e, j + 1))
    else if token.value == LBRACKET then ArrayAt(t, i + 1)
    else if token.value == LBRACE then ObjectAt(t, i + 1)
    else Err(UnexpectedToken)
  }

  // The rest of an array literal behind its opening bracket.
  function ArrayAt(t: Task, i: nat): (r: Parsed)
    requires Position(t, i)
    ensures Advanced(t, i, r)
    decreases |t.tokens| - i, 11
  {
    if t.tokens[i].value == RBRACKET then Ok((Array([]), i + 1))
    else match Elements(t, i)
         case Err(e) => Err(e)
         case Ok((es, j)) => Ok((Array(es), j))
  }

  // The rest of an object literal behind its opening brace.
  function ObjectAt(t: Task, i: nat): (r: Parsed)
    requires Position(t, i)
    ensures Advanced(t, i, r)
    decreases |t.tokens| - i, 11
  {
    if t.tokens[i].value == RBRACE then Ok((Object([]), i + 1))
    else match Entries(t, i, {})
         case Err(e) => Err(e)
         case Ok((es, j)) => Ok((Object(es), j))
  }

  // Array elements up to and including the closing bracket.
  function Elements(t: Task, i: nat): (r: Result<(seq<Expr>, nat)>)
    requires Position(t, i)
    ensures r.Ok? ==> i < r.value.1 < |t.tokens|
    decreases |t.tokens| - i, 10
  {
    match ConditionalAt(t, i)
    case Err(e) => Err(e)
    case Ok((first, j)) =>
      if t.tokens[j].value == COMMA then
        match Elements(t, j + 1)
        case Err(e) => Err(e)
        case Ok((more, k)) => Ok(([first] + more, k))
      else if t.tokens[j].value == RBRACKET then Ok(([first], j + 1))
      else Err(Expected(RBRACKET))
  }

  // Object entries up to and including the closing brace; `keys` are those of the entries before.
  function Entries(t: Task, i: nat, keys: set<Text>): (r: Result<(seq<Entry>, nat)>)
    requires Position(t, i)
    ensures r.Ok? ==> i < r.value.1 < |t.tokens|
    decreases |t.tokens| - i, 10
  {
    var key := t.tokens[i];
    if key.kind != String then Err(KeyNotString)
    else if key.value in keys then Err(DuplicateKey)
    else if t.tokens[i + 1].value != COLON then Err(Expected(COLON))
    else match ConditionalAt(t, i + 2)
         case Err(e) => Err(e)
         case Ok((value, j)) =>
           var first := Entry(key.value, value);
           if t.tokens[j].value == COMMA then
             match Entries(t, j + 1, keys + {key.value})
             case Err(e) => Err(e)
             case Ok((more, k)) => Ok(([first] + more, k))
           else if t.tokens[j].value == RBRACE then Ok(([first], j + 1))
           else Err(Expected(RBRACE))
  }

  function Parse(t: Task): Result<Expr>
    requires IsStream(t.tokens)
  {
    match ConditionalAt(t, 0)
    case Err(e) => Err(e)
    case Ok((e, j)) =>
      var trailing := t.tokens[j];
      if trailing.kind == Eof then Ok(e)
      else if trailing.value == DOT then Err(MemberAccess)
      else if trailing.value == LPAREN then Err(FunctionCall)
      else Err(UnexpectedToken)
  }

  // -- The class --

  class Parser {
    const task: Task
    var index: nat

    ghost predicate Valid()
      reads this
    {
      Position(task, index)
    }

    // The outcome of a parse method: the value and, on success, the new index are those of the grammar.
    ghost predicate Agrees<T>(expected: Result<(T, nat)>, r: Result<T>)
      reads this
    {
      match expected
      case Err(e) => r == Err(e)
      case Ok((value, next)) => r == Ok(value) && index == next
    }

    constructor (task: Task)
      requires IsStream(task.tokens)
      ensures Valid() && this.task == task && index == 0
    {
      this.task := task;
      index := 0;
    }

    function Current(): Token
      requires Valid()
      reads this
    {
      task.tokens[index]
    }

    method Advance() returns (token: Token)
      requires Valid()
      modifies this
      ensures Valid() && token == old(Current())
      ensures index == old(index) + if token.kind == Eof then 0 else 1
    {
      token := Current();
      if token.kind != Eof {
        index := index + 1;
      }
    }

    // Compares the text of a token, not its kind.
    method Consume(value: Text) returns (r: bool)
      requires Valid() && value != []
      modifies this
      ensures Valid() && r == (old(Current()).value == value) && index == old(index) + if r then 1 else 0
    {
      if Current().value != value {
        return false;
      }
      index := index + 1;
      r := true;
    }

    method ParseAll() returns (r: Result<Expr>)
      requires Valid() && index == 0
      modifies this
      ensures r == Parse(task)
    {
      var e := ParseConditional();
      if e.Err? {
        return e;
      }
      var trailing := Current();
      if trailing.kind != Eof {
        if trailing.value == DOT {
          return Err(MemberAccess);
        }
        if trailing.value == LPAREN {
          return Err(FunctionCall);
        }
        return Err(UnexpectedToken);
      }
      r := e;
    }

    method ParseConditional() returns (r: Result<Expr>)
      requires Valid()
      modifies this
      ensures Valid() && Agrees(ConditionalAt(task, old(index)), r)
      decreases |task.tokens| - index, 9
    {
      var condition := ParseBinary(1);
      if condition.Err? {
        return condition;
      }
      var question := Consume(QUESTION);
      if !question {
        return condition;
      }
      var whenTrue := ParseConditional();
      if whenTrue.Err? {
        return whenTrue;
      }
      var colon := Consume(COLON);
      if !colon {
        return Err(Expected(COLON));
      }
      var whenFalse := ParseConditional();
      if whenFalse.Err? {
        return whenFalse;
      }
      r := Ok(Conditional(condition.value, whenTrue.value, whenFalse.value));
    }

    // parseLogicalOr to parseMultiplicative are the levels 1 to 6, their innermost operand parser is parseUnary.
    method ParseBinary(level: nat) returns (r: Result<Expr>)
      requires Valid() && 1 <= level <= 7
      modifies this
      ensures Valid() && Agrees(BinaryAt(task, old(index), level), r)
      decreases |task.tokens| - index, 8 - level
    {
      if level == 7 {
        r := ParseUnary();
        return;
      }
      var left := ParseBinary(level + 1);
      if left.Err? {
        return left;
      }
      var expression := left.value;
      while Current().kind == Operator && BinaryLevel(Current().value) == level
        invariant Valid() && index > old(index)
        invariant BinaryRest(task, index, level, expression) == BinaryAt(task, old(index), level)
        decreases |task.tokens| - index
      {
        var operator := Advance();
        var right := ParseBinary(level + 1);
        if right.Err? {
          return right;
        }
        expression := Binary(operator.value, expression, right.value);
      }
      r := Ok(expression);
    }

    method ParseUnary() returns (r: Result<Expr>)
      requires Valid()
      modifies this
      ensures Valid() && Agrees(UnaryAt(task, old(index)), r)
      decreases |task.tokens| - index, 0, 1
    {
      var token := Current();
      if token.kind == Operator && IsUnaryOperator(token.value) {
        var skipped := Advance();
        var operand := ParseUnary();
        if operand.Err? {
          return operand;
        }
        return Ok(Unary(token.value, operand.value));
      }
      r := ParsePrimary();
    }

    method ParsePrimary() returns (r: Result<Expr>)
      requires Valid()
      modifies this
      ensures Valid() && Agrees(Primary(task, old(index)), r)
      decreases |task.tokens| - index, 0, 0
    {
      var token := Advance();
      if token.kind == Number {
        var value := task.numberOf(token.value);
        return if JsonSafe(value) then Ok(Literal(Numeric(value))) else Err(UnsafeNumber);
      }
      if token.kind == String {
        return Ok(Literal(Str(token.value)));
      }
      if token.kind == Identifier {
        if Current().value == LPAREN {
          return Err(FunctionCall);
        }
        if token.value == task.variable {
          return Ok(Input);
        }
        if token.value == TRUE || token.value == FALSE {
          return Ok(Literal(Boolean(token.value == TRUE)));
        }
        if token.value == NULL {
          return Ok(Literal(Null));
        }
        return Err(UnknownIdentifier);
      }
      if token.value == LPAREN {
        var e := ParseConditional();
        if e.Err? {
          return e;
        }
        var closed := Consume(RPAREN);
        return if closed then e else Err(Expected(RPAREN));
      }
      if token.value == LBRACKET {
        r := ParseArray();
        return;
      }
      if token.value == LBRACE {
        r := ParseObject();
        return;
      }
      r := Err(UnexpectedToken);
    }

    method ParseArray() returns (r: Result<Expr>)
      requires Valid()
      modifies this
      ensures Valid() && Agrees(ArrayAt(task, old(index)), r)
      decreases |task.tokens| - index, 11
    {
      var empty := Consume(RBRACKET);
      if empty {
        return Ok(Array([]));
      }
      var elements: seq<Expr>, more := [], true;
      ghost var start := index;
      ghost var all := Elements(task, start);
      while more
        invariant Valid() && start <= index
        invariant more ==> WithElements(elements, Elements(task, index)) == WithElements([], all)
        invariant !more ==> WithElements([], all)
                            == if Current().value == RBRACKET then Ok((elements, index + 1))
                               else Err(Expected(RBRACKET))
        decreases |task.tokens| - index, more
      {
        hide ConditionalAt;
        var e := ParseConditional();
        if e.Err? {
          return Err(e.error);
        }
        ghost var before := elements;
        elements := elements + [e.value];
        more := Consume(COMMA);
        if more {
          WithOneMoreElement(before, e.value, Elements(task, index));
        }
      }
      var closed := Consume(RBRACKET);
      NoElements(all);
      r := if closed then Ok(Array(elements)) else Err(Expected(RBRACKET));
    }

    method ParseObject() returns (r: Result<Expr>)
      requires Valid()
      modifies this
      ensures Valid() && Agrees(ObjectAt(task, old(index)), r)
      decreases |task.tokens| - index, 11
    {
      hide ConditionalAt;
      var empty := Consume(RBRACE);
      if empty {
        return Ok(Object([]));
      }
      var entries: seq<Entry>, keys: set<Text>, more := [], {}, true;
      ghost var start := index;
      ghost var all := Entries(task, start, {});
      while more
        invariant Valid() && start <= index
        invariant more ==> WithElements(entries, Entries(task, index, keys)) == WithElements([], all)
        invariant !more ==> WithElements([], all)
                            == if Current().value == RBRACE then Ok((entries, index + 1)) else Err(Expected(RBRACE))
        decreases |task.tokens| - index, more
      {
        var key := Advance();
        if key.kind != String {
          return Err(KeyNotString);
        }
        if key.value in keys {
          return Err(DuplicateKey);
        }
        var colon := Consume(COLON);
        if !colon {
          return Err(Expected(COLON));
        }
        var value := ParseConditional();
        if value.Err? {
          return Err(value.error);
        }
        ghost var before := entries;
        keys := keys + {key.value};
        entries := entries + [Entry(key.value, value.value)];
        more := Consume(COMMA);
        if more {
          WithOneMoreElement(before, Entry(key.value, value.value), Entries(task, index, keys));
        }
      }
      var closed := Consume(RBRACE);
      NoElements(all);
      r := if closed then Ok(Object(entries)) else Err(Expected(RBRACE));
    }
  }

  // A list result with the elements read before it put in front.
  function WithElements<T>(before: seq<T>, r: Result<(seq<T>, nat)>): Result<(seq<T>, nat)> {
    match r
    case Err(e) => Err(e)
    case Ok((more, j)) => Ok((before + more, j))
  }

  lemma {:induction false} WithOneMoreElement<T>(before: seq<T>, x: T, r: Result<(seq<T>, nat)>)
    ensures WithElements(before + [x], r) == WithElements(before, WithElements([x], r))
  {
    if r.Ok? {
      assert before + [x] + r.value.0 == before + ([x] + r.value.0);
    }
  }

  lemma {:induction false} NoElements<T>(r: Result<(seq<T>, nat)>)
    ensures WithElements([], r) == r
  {
    if r.Ok? {
      assert [] + r.value.0 == r.value.0;
    }
  }
}
