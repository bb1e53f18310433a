// Model of packages/rpc/src/serialization.ts: variable-length integers and the tagged binary format.

module Serialization {
  import opened Placement
  import opened Buffers

  const TWO_31: int := 0x8000_0000

  // -- 32-bit arithmetic of the source language --

  function ToUint32(n: int): (u: nat)
    ensures u < TWO_32
  {
    n % TWO_32
  }

  function ToInt32(u: nat): int
    requires u < TWO_32
  {
    if u < TWO_31 then u else u - TWO_32
  }

  predicate IsInt32(n: int) {
    -TWO_31 <= n < TWO_31
  }

  function Power2(n: nat): (r: nat)
    ensures r > 0
  {
    if n == 0 then 1 else 2 * Power2(n - 1)
  }

  // Bitwise or.
  function BitOr(a: nat, b: nat): nat {
    if a == 0 then b
    else if b == 0 then a
    else 2 * BitOr(a / 2, b / 2) + if a % 2 == 1 || b % 2 == 1 then 1 else 0
  }

  // `value | (bits << n)`: the shift distance counts modulo 32 and the result is cut to 32 bits.
  function OrShifted(value: nat, bits: nat, n: nat): nat {
    BitOr(value, bits * Power2(n % 32) % TWO_32) % TWO_32
  }

  // -- The integer format --

  // Seven bits a byte, least significant first; the top bit says that more follows.
  function Vql(u: nat): (r: Bytes)
    ensures r != []
    decreases u
  {
    if u < 128 then [u] else [u % 128 + 128] + Vql(u / 128)
  }

  // Past the end of the input a byte reads as undefined, which counts as 0 and ends the number.
  function ByteAt(s: Bytes, pos: nat): Byte {
    if pos < |s| then s[pos] else 0
  }

  function ReadVql(s: Bytes, pos: nat, value: nat, n: nat): (r: (nat, nat))
    requires pos <= |s|
    ensures pos <= r.1 <= |s| && (pos < |s| ==> pos < r.1)
    decreases |s| - pos
  {
    var b := ByteAt(s, pos);
    var value' := OrShifted(value, b % 128, n);
    var pos' := if pos < |s| then pos + 1 else pos;
    if b < 128 then (value', pos') else ReadVql(s, pos', value', n + 7)
  }

  function ReadInt(s: Bytes, pos: nat): (r: (int, nat))
    requires pos <= |s|
    ensures pos <= r.1 <= |s| && (pos < |s| ==> pos < r.1)
  {
    var (u, pos') := ReadVql(s, pos, 0, 0);
    (ToInt32(u % TWO_32), pos')
  }

  lemma {:induction false} BitOrOfDisjoint(a: nat, bits: nat, n: nat)
    requires a < Power2(n)
    ensures BitOr(a, bits * Power2(n)) == a + bits * Power2(n)
  {
    if n > 0 && a > 0 && bits > 0 {
      var b := bits * Power2(n);
      assert b == 2 * (bits * Power2(n - 1));
      BitOrOfDisjoint(a / 2, bits, n - 1);
    }
  }

  lemma {:induction false} ShiftedMore(u: nat, n: nat)
    ensures u * Power2(n) == u % 128 * Power2(n) + u / 128 * Power2(n + 7)
  {
    assert Power2(n + 7) == 2 * Power2(n + 6) == 4 * Power2(n + 5) == 8 * Power2(n + 4) == 16 * Power2(n + 3);
    assert Power2(n + 3) == 2 * Power2(n + 2) == 4 * Power2(n + 1) == 8 * Power2(n);
    var p := Power2(n);
    assert u == u % 128 + 128 * (u / 128);
    assert u * p == (u % 128) * p + 128 * (u / 128) * p;
  }

  lemma {:induction false} Power2Of32()
    ensures Power2(32) == TWO_32
  {
    assert Power2(8) == 256;
    assert Power2(16) == 256 * Power2(8) by {
      assert Power2(16) == 2 * Power2(15) == 4 * Power2(14) == 8 * Power2(13) == 16 * Power2(12);
      assert Power2(12) == 2 * Power2(11) == 4 * Power2(10) == 8 * Power2(9) == 16 * Power2(8);
    }
    assert Power2(24) == 256 * Power2(16) by {
      assert Power2(24) == 2 * Power2(23) == 4 * Power2(22) == 8 * Power2(21) == 16 * Power2(20);
      assert Power2(20) == 2 * Power2(19) == 4 * Power2(18) == 8 * Power2(17) == 16 * Power2(16);
    }
    assert Power2(32) == 2 * Power2(31) == 4 * Power2(30) == 8 * Power2(29) == 16 * Power2(28);
    assert Power2(28) == 2 * Power2(27) == 4 * Power2(26) == 8 * Power2(25) == 16 * Power2(24);
  }

  lemma {:induction false} Power2Monotone(m: nat, n: nat)
    requires m <= n
    ensures Power2(m) <= Power2(n)
  {
    if m < n {
      Power2Monotone(m, n - 1);
    }
  }

  // While the number fits 32 bits, or-ing in the next seven bits adds them at their place.
  lemma {:induction false} OrAddsIn(value: nat, bits: nat, n: nat)
    requires n < 32 && value < Power2(n) && value + bits * Power2(n) < TWO_32
    ensures OrShifted(value, bits, n) == value + bits * Power2(n)
  {
    hide Power2, BitOr;
    var shifted := bits * Power2(n);
    assert n % 32 == n && shifted % TWO_32 == shifted;
    BitOrOfDisjoint(value, bits, n);
  }

  lemma {:induction false} Scale(a: int, b: int, p: nat)
    requires a <= b
    ensures a * p <= b * p
  {
    assert (b - a) * p >= 0;
  }

  // What a number occupies behind `value` when it has more than one byte to go.
  lemma {:induction false} MoreToCome(value: nat, u: nat, n: nat)
    requires u >= 128 && value < Power2(n) && value + u * Power2(n) < TWO_32
    ensures n + 7 < 32
    ensures value + u % 128 * Power2(n) < Power2(n + 7)
    ensures value + u % 128 * Power2(n) + u / 128 * Power2(n + 7) == value + u * Power2(n)
  {
    hide Power2;
    var p, q := Power2(n), Power2(n + 7);
    ShiftedMore(u, n);
    ShiftedMore(128, n);
    assert q == 128 * p;
    Scale(u % 128, 127, p);
    Scale(128, u, p);
    Power2Of32();
    if n + 7 >= 32 {
      Power2Monotone(32, n + 7);
    }
  }

  // One byte that says that more follows.
  lemma {:induction false} ReadsOneByte(s: Bytes, pos: nat, u: nat, value: nat, n: nat)
    requires pos < |s| && s[pos] == u % 128 + 128 && n < 32
    requires u >= 128 && value < Power2(n) && value + u * Power2(n) < TWO_32
    ensures ReadVql(s, pos, value, n) == ReadVql(s, pos + 1, value + u % 128 * Power2(n), n + 7)
  {
    hide Power2, OrShifted;
    MoreToCome(value, u, n);
    assert u / 128 * Power2(n + 7) >= 0;
    OrAddsIn(value, u % 128, n);
  }

  // Reading a written number on top of the bits read before it adds it in at its place.
  lemma {:induction false} ReadsBackVql(s: Bytes, pos: nat, u: nat, value: nat, n: nat)
    requires StandsAt(s, pos, Vql(u)) && n < 32
    requires value < Power2(n) && value + u * Power2(n) < TWO_32
    ensures ReadVql(s, pos, value, n) == (value + u * Power2(n), pos + |Vql(u)|)
    decreases u
  {
    hide Power2, OrShifted, ReadVql;
    assert s[pos] == Vql(u)[0];
    if u < 128 {
      OrAddsIn(value, u, n);
      ReadsLastByte(s, pos, value, n);
    } else {
      MoreToCome(value, u, n);
      ReadsOneByte(s, pos, u, value, n);
      PartsStand(s, pos, [u % 128 + 128], Vql(u / 128));
      ReadsBackVql(s, pos + 1, u / 128, value + u % 128 * Power2(n), n + 7);
    }
  }

  lemma {:induction false} ReadsLastByte(s: Bytes, pos: nat, value: nat, n: nat)
    requires pos < |s| && s[pos] < 128
    ensures ReadVql(s, pos, value, n) == (OrShifted(value, s[pos], n), pos + 1)
  {
    hide OrShifted;
  }

  // A number is read back exactly when it is a 32-bit integer; negative ones included.
  lemma {:induction false} IntegerRoundTrip(s: Bytes, pos: nat, n: int)
    requires StandsAt(s, pos, Vql(ToUint32(n)))
    ensures ReadInt(s, pos).1 == pos + |Vql(ToUint32(n))|
    ensures ReadInt(s, pos).0 == n <==> IsInt32(n)
  {
    hide Vql, ReadVql;
    ReadsBackVql(s, pos, ToUint32(n), 0, 0);
    SignedRoundTrip(n);
  }

  lemma {:induction false} SignedRoundTrip(n: int)
    ensures ToInt32(ToUint32(n)) == n <==> IsInt32(n)
  {
  }

  lemma {:induction false} AtMostFiveBytes(n: int)
    ensures |Vql(ToUint32(n))| <= 5
  {
    var u := ToUint32(n);
    assert u / 128 < 0x200_0000 && u / 128 / 128 < 0x4_0000 && u / 128 / 128 / 128 < 0x800;
    assert |Vql(u / 128 / 128 / 128)| <= 2;
    assert |Vql(u / 128 / 128)| <= 3;
    assert |Vql(u / 128)| <= 4;
  }

  // What the loop over a number's seven-bit groups still has to write.
  function Remaining(u: nat): (r: Bytes)
    ensures u != 0 ==> r == Vql(u)
  {
    if u == 0 then [] else Vql(u)
  }

  lemma {:induction false} OneMoreGroup(u: nat)
    requires u != 0
    ensures Remaining(u) == [if u >= 128 then u % 128 + 128 else u % 128] + Remaining(u / 128)
  {
  }

  // The shifts of the source see a number's low 32 bits; one byte is written even when they are all 0.
  method WriteInt32VQL(value: int) returns (r: Bytes)
    ensures r == Vql(ToUint32(value))
  {
    hide Vql, Remaining;
    var v: nat := ToUint32(value);
    if v == 0 {
      ZeroIsOneByte();
      return [0];
    }
    var len := VqlLength(v);
    var scratch := new Byte[len](_ => 0);
    ghost var goal := Vql(v);
    var i := 0;
    assert scratch[..0] + Remaining(v) == goal;
    while v != 0
      invariant 0 <= i <= len == |goal|
      invariant scratch[..i] + Remaining(v) == goal
      decreases v
    {
      ghost var before := scratch[..i];
      var low: int := v % 128;
      var next: Byte := if v >= 128 then low + 128 else low;
      OneMoreGroup(v);
      assert before + ([next] + Remaining(v / 128)) == goal;
      scratch[i] := next;
      assert scratch[..i + 1] == before + [next];
      v := v / 128;
      i := i + 1;
    }
    NothingRemains();
    r := scratch[..];
    assert r == scratch[..i] + [];
  }

  lemma {:induction false} ZeroIsOneByte()
    ensures Vql(0) == [0]
  {
  }

  lemma {:induction false} NothingRemains()
    ensures Remaining(0) == []
  {
  }

  method VqlLength(u: nat) returns (len: nat)
    ensures len == |Remaining(u)|
  {
    hide Vql, Remaining;
    len := 0;
    var v := u;
    while v != 0
      invariant len + |Remaining(v)| == |Remaining(u)|
      decreases v
    {
      OneMoreGroup(v);
      v := v / 128;
      len := len + 1;
    }
    NothingRemains();
  }

  // -- The tagged format --

  const UNDEFINED: Byte := 0
  const STRING: Byte := 1
  const BUFFER: Byte := 2
  const VSBUFFER: Byte := 3
  const ARRAY: Byte := 4
  const OBJECT: Byte := 5
  const INT: Byte := 6

  // `Object` stands for every value sent as JSON and carries its JSON text.
  datatype Value =
    | Undefined
    | Str(text: string)
    | Buffer(bytes: Bytes)
    | VSBuf(bytes: Bytes)
    | Arr(items: seq<Value>)
    | Object(json: string)
    | Int(n: int)

  // The text encoding, which is library code.
  datatype Codec = Codec(encode: string -> Bytes, decode: Bytes -> string)

  function Block(tag: Byte, body: Bytes): Bytes {
    [tag] + Vql(ToUint32(|body|)) + body
  }

  function Serialize(c: Codec, v: Value): (r: Bytes)
    ensures r != []
    decreases v, 0
  {
    match v
    case Undefined => [UNDEFINED]
    case Str(text) => Block(STRING, c.encode(text))
    case VSBuf(bytes) => Block(VSBUFFER, bytes)
    case Buffer(bytes) => Block(BUFFER, bytes)
    case Arr(items) => [ARRAY] + Vql(ToUint32(|items|)) + SerializeAll(c, items)
    case Int(n) => [INT] + Vql(ToUint32(n))
    case Object(json) => Block(OBJECT, c.encode(json))
  }

  function SerializeAll(c: Codec, vs: seq<Value>): Bytes
    decreases vs, 1
  {
    if vs == [] then [] else Serialize(c, vs[0]) + SerializeAll(c, vs[1..])
  }

  // `slice(pos, pos + count)` of a byte array: a negative end counts from the back, a too large one is cut off.
  function Slice(s: Bytes, pos: nat, count: int): (r: Bytes)
    requires pos <= |s|
    ensures pos + |r| <= |s|
  {
    var end := pos + count;
    var stop := if end >= |s| then |s| else if end >= 0 then end else if |s| + end >= 0 then |s| + end else 0;
    if stop > pos then s[pos..stop] else []
  }

  // A count within the bytes takes that many, a larger one all that are left; a negative one takes nothing, unless it
  // goes back past the start, where the end counts from the back.
  lemma {:induction false} SliceTakes(s: Bytes, pos: nat, count: int)
    requires pos <= |s|
    ensures Slice(s, pos, count) == s[pos..pos + |Slice(s, pos, count)|]
    ensures count >= 0 ==> |Slice(s, pos, count)| == if count <= |s| - pos then count else |s| - pos
    ensures count < 0 <= pos + count ==> Slice(s, pos, count) == []
    ensures pos + count < 0 && |s| + count <= 0 ==> Slice(s, pos, count) == []
    ensures pos + count < 0 && |s| + count > 0 ==> |Slice(s, pos, count)| == |s| + count
  {
  }

  function ReadBlock(s: Bytes, pos: nat): (r: (Bytes, nat))
    requires pos <= |s|
    ensures pos <= r.1 <= |s|
  {
    var (length, pos') := ReadInt(s, pos);
    var body := Slice(s, pos', length);
    (body, pos' + |body|)
  }

  // The value at `pos` and the position behind it. Unknown tags and the end of the input read as undefined.
  function Deserialize(c: Codec, s: Bytes, pos: nat): (r: (Value, nat))
    requires pos <= |s|
    ensures pos <= r.1 <= |s|
    decreases |s| - pos, 0, 0
  {
    if pos == |s| then (Undefined, pos) else
    var tag := s[pos];
    if tag == STRING then var (body, p) := ReadBlock(s, pos + 1); (Str(c.decode(body)), p)
    else if tag == BUFFER then var (body, p) := ReadBlock(s, pos + 1); (Buffer(body), p)
    else if tag == VSBUFFER then var (body, p) := ReadBlock(s, pos + 1); (VSBuf(body), p)
    else if tag == ARRAY then
      var (length, p) := ReadInt(s, pos + 1);
      var (items, p') := DeserializeAll(c, s, p, if length > 0 then length else 0);
      (Arr(items), p')
    else if tag == OBJECT then var (body, p) := ReadBlock(s, pos + 1); (Object(c.decode(body)), p)
    else if tag == INT then var (n, p) := ReadInt(s, pos + 1); (Int(n), p)
    else (Undefined, pos + 1)
  }

  function DeserializeAll(c: Codec, s: Bytes, pos: nat, count: nat): (r: (seq<Value>, nat))
    requires pos <= |s|
    ensures pos <= r.1 <= |s|
    decreases |s| - pos, 1, count
  {
    if count == 0 then ([], pos) else
    var (v, p) := Deserialize(c, s, pos);
    var (vs, p') := DeserializeAll(c, s, p, count - 1);
    ([v] + vs, p')
  }

  // The values the format carries: 32-bit integers, lengths below 2^31, and text the encoding gives back.
  ghost predicate Carried(c: Codec, v: Value)
    decreases v
  {
    match v
    case Undefined => true
    case Str(text) => c.decode(c.encode(text)) == text && |c.encode(text)| < TWO_31
    case Object(json) => c.decode(c.encode(json)) == json && |c.encode(json)| < TWO_31
    case Buffer(bytes) => |bytes| < TWO_31
    case VSBuf(bytes) => |bytes| < TWO_31
    case Arr(items) => |items| < TWO_31 && forall i | 0 <= i < |items| :: Carried(c, items[i])
    case Int(n) => IsInt32(n)
  }

  // The format in numbers: a tag, for all but the undefined value a number, and the contents. A number has seven bits a
  // byte, the low ones first.
  lemma {:induction false} FormatIs(c: Codec, text: string, bytes: Bytes, items: seq<Value>, n: int, u: nat)
    ensures Serialize(c, Undefined) == [0]
    ensures Serialize(c, Str(text)) == [1] + Vql(ToUint32(|c.encode(text)|)) + c.encode(text)
    ensures Serialize(c, Buffer(bytes)) == [2] + Vql(ToUint32(|bytes|)) + bytes
    ensures Serialize(c, VSBuf(bytes)) == [3] + Vql(ToUint32(|bytes|)) + bytes
    ensures Serialize(c, Arr(items)) == [4] + Vql(ToUint32(|items|)) + SerializeAll(c, items)
    ensures Serialize(c, Object(text)) == [5] + Vql(ToUint32(|c.encode(text)|)) + c.encode(text)
    ensures Serialize(c, Int(n)) == [6] + Vql(ToUint32(n))
    ensures u < 0x80 ==> Vql(u) == [u]
    ensures 0x80 <= u < 0x4000 ==> Vql(u) == [u % 0x80 + 0x80, u / 0x80]
  {
    hide ToUint32;
  }

  // Unknown tags and the end of the input read as undefined.
  lemma {:induction false} OtherwiseUndefined(c: Codec, s: Bytes, pos: nat)
    requires pos <= |s|
    ensures pos == |s| ==> Deserialize(c, s, pos) == (Undefined, pos)
    ensures pos < |s| && (s[pos] == 0 || s[pos] > 6) ==> Deserialize(c, s, pos) == (Undefined, pos + 1)
  {
  }

  lemma {:induction false} BlockRoundTrip(s: Bytes, pos: nat, tag: Byte, body: Bytes)
    requires StandsAt(s, pos, Block(tag, body)) && |body| < TWO_31
    ensures s[pos] == tag && ReadBlock(s, pos + 1) == (body, pos + |Block(tag, body)|)
  {
    hide Vql, ReadVql;
    var size := Vql(ToUint32(|body|));
    PartsStand(s, pos, [tag] + size, body);
    PartsStand(s, pos, [tag], size);
    IntegerRoundTrip(s, pos + 1, |body|);
  }

  // Wherever a serialized value stands, it is read back whole and the reader stops right behind it.
  lemma {:induction false} RoundTrip(c: Codec, s: Bytes, pos: nat, v: Value)
    requires Carried(c, v) && StandsAt(s, pos, Serialize(c, v))
    ensures Deserialize(c, s, pos) == (v, pos + |Serialize(c, v)|)
    decreases v, 0
  {
    hide Vql, ReadInt, Block, ReadBlock, SerializeAll, DeserializeAll, StandsAt;
    assert StandsAt(s, pos, Serialize(c, v) + []) by { assert Serialize(c, v) + [] == Serialize(c, v); }
    PartsStand(s, pos, Serialize(c, v), []);
    match v
    case Undefined =>
    case Str(text) => BlockRoundTrip(s, pos, STRING, c.encode(text));
    case Object(json) => BlockRoundTrip(s, pos, OBJECT, c.encode(json));
    case Buffer(bytes) => BlockRoundTrip(s, pos, BUFFER, bytes);
    case VSBuf(bytes) => BlockRoundTrip(s, pos, VSBUFFER, bytes);
    case Int(n) =>
      PartsStand(s, pos, [INT], Vql(ToUint32(n)));
      IntegerRoundTrip(s, pos + 1, n);
    case Arr(items) =>
      var size := Vql(ToUint32(|items|));
      PartsStand(s, pos, [ARRAY] + size, SerializeAll(c, items));
      PartsStand(s, pos, [ARRAY], size);
      IntegerRoundTrip(s, pos + 1, |items|);
      RoundTripAll(c, s, pos + 1 + |size|, items);
  }

  lemma {:induction false} RoundTripAll(c: Codec, s: Bytes, pos: nat, vs: seq<Value>)
    requires forall i | 0 <= i < |vs| :: Carried(c, vs[i])
    requires StandsAt(s, pos, SerializeAll(c, vs))
    ensures DeserializeAll(c, s, pos, |vs|) == (vs, pos + |SerializeAll(c, vs)|)
    decreases vs, 1
  {
    hide Serialize, Deserialize, Carried;
    if vs != [] {
      PartsStand(s, pos, Serialize(c, vs[0]), SerializeAll(c, vs[1..]));
      RoundTrip(c, s, pos, vs[0]);
      RoundTripAll(c, s, pos + |Serialize(c, vs[0])|, vs[1..]);
      assert [vs[0]] + vs[1..] == vs;
    }
  }

  // A message is a header followed by a body; the two are read back one after the other.
  lemma {:induction false} HeaderThenBody(c: Codec, header: Value, body: Value)
    requires Carried(c, header) && Carried(c, body)
    ensures var s := Serialize(c, header) + Serialize(c, body);
            var (h, p) := Deserialize(c, s, 0);
            var (b, q) := Deserialize(c, s, p);
            h == header && b == body && q == |s|
  {
    hide Serialize, Deserialize, Carried;
    var s := Serialize(c, header) + Serialize(c, body);
    PartsStand(s, 0, Serialize(c, header), Serialize(c, body));
    RoundTrip(c, s, 0, header);
    RoundTrip(c, s, |Serialize(c, header)|, body);
  }

  // -- Reader and writer --

  class BufferReader {
    const buffer: Bytes
    var pos: nat

    ghost predicate Valid()
      reads this
    {
      pos <= |buffer|
    }

    constructor (buffer: Bytes)
      ensures Valid() && pos == 0 && this.buffer == buffer
    {
      this.buffer := buffer;
      pos := 0;
    }

    method Read(count: int) returns (r: Bytes)
      requires Valid()
      modifies this
      ensures Valid() && r == Slice(buffer, old(pos), count) && pos == old(pos) + |r|
    {
      r := Slice(buffer, pos, count);
      pos := pos + |r|;
    }
  }

  method ReadIntVQL(reader: BufferReader) returns (r: int)
    requires reader.Valid()
    modifies reader
    ensures reader.Valid() && (r, reader.pos) == ReadInt(reader.buffer, old(reader.pos))
  {
    var value: nat, n: nat := 0, 0;
    while true
      invariant reader.Valid()
      invariant ReadVql(reader.buffer, reader.pos, value, n) == ReadVql(reader.buffer, old(reader.pos), 0, 0)
      decreases |reader.buffer| - reader.pos
    {
      var next := reader.Read(1);
      var b: Byte := if |next| > 0 then next[0] else 0;
      value := OrShifted(value, b % 128, n);
      if b < 128 {
        return ToInt32(value % TWO_32);
      }
      n := n + 7;
    }
  }

  method ReadSized(reader: BufferReader) returns (r: Bytes)
    requires reader.Valid()
    modifies reader
    ensures reader.Valid() && (r, reader.pos) == ReadBlock(reader.buffer, old(reader.pos))
  {
    var length := ReadIntVQL(reader);
    r := reader.Read(length);
  }

  method DoDeserialize(c: Codec, reader: BufferReader) returns (v: Value)
    requires reader.Valid()
    modifies reader
    ensures reader.Valid() && (v, reader.pos) == Deserialize(c, reader.buffer, old(reader.pos))
    decreases |reader.buffer| - reader.pos, 0
  {
    var first := reader.Read(1);
    if |first| == 0 {
      return Undefined;
    }
    var tag := first[0];
    if tag == STRING {
      var body := ReadSized(reader);
      v := Str(c.decode(body));
    } else if tag == BUFFER {
      var body := ReadSized(reader);
      v := Buffer(body);
    } else if tag == VSBUFFER {
      var body := ReadSized(reader);
      v := VSBuf(body);
    } else if tag == ARRAY {
      var length := ReadIntVQL(reader);
      var result := DeserializeItems(c, reader, length);
      v := Arr(result);
    } else if tag == OBJECT {
      var body := ReadSized(reader);
      v := Object(c.decode(body));
    } else if tag == INT {
      var n := ReadIntVQL(reader);
      v := Int(n);
    } else {
      v := Undefined;
    }
  }

  method DeserializeItems(c: Codec, reader: BufferReader, length: int) returns (result: seq<Value>)
    requires reader.Valid()
    modifies reader
    ensures reader.Valid()
    ensures (result, reader.pos)
            == DeserializeAll(c, reader.buffer, old(reader.pos), if length > 0 then length else 0)
    decreases |reader.buffer| - reader.pos, 1
  {
    var i := 0;
    ghost var start := reader.pos;
    ghost var count := if length > 0 then length else 0;
    result := [];
    assert [] + DeserializeAll(c, reader.buffer, start, count).0 == DeserializeAll(c, reader.buffer, start, count).0;
    while i < length
      invariant reader.Valid() && start <= reader.pos
      invariant 0 <= i <= count
      invariant result + DeserializeAll(c, reader.buffer, reader.pos, count - i).0
                == DeserializeAll(c, reader.buffer, start, count).0
      invariant DeserializeAll(c, reader.buffer, reader.pos, count - i).1
                == DeserializeAll(c, reader.buffer, start, count).1
    {
      hide Deserialize;
      var v := DoDeserialize(c, reader);
      result := result + [v];
      i := i + 1;
    }
    assert result + [] == result;
  }

  class BufferWriter {
    var buffers: seq<Bytes>

    // The bytes written so far.
    ghost function Contents(): Bytes
      reads this
    {
      Flatten(buffers)
    }

    constructor ()
      ensures Contents() == []
    {
      buffers := [];
    }

    method Write(buffer: Bytes)
      modifies this
      ensures Contents() == old(Contents()) + buffer
    {
      FlattenAppend(buffers, [buffer]);
      buffers := buffers + [buffer];
    }

    method GetBuffer() returns (r: Bytes)
      ensures r == Contents()
    {
      r := Concat(buffers);
    }
  }

  method WriteSized(writer: BufferWriter, tag: Byte, body: Bytes)
    modifies writer
    ensures writer.Contents() == old(writer.Contents()) + Block(tag, body)
  {
    WriteTagged(writer, tag, |body|);
    writer.Write(body);
  }

  method WriteTagged(writer: BufferWriter, tag: Byte, n: int)
    modifies writer
    ensures writer.Contents() == old(writer.Contents()) + ([tag] + Vql(ToUint32(n)))
  {
    writer.Write([tag]);
    var bytes := WriteInt32VQL(n);
    writer.Write(bytes);
  }

  method DoSerialize(c: Codec, writer: BufferWriter, v: Value)
    modifies writer
    ensures writer.Contents() == old(writer.Contents()) + Serialize(c, v)
    decreases v, 0
  {
    hide Vql, Block, Flatten, SerializeAll;
    match v
    case Undefined => writer.Write([UNDEFINED]);
    case Str(text) => WriteSized(writer, STRING, c.encode(text));
    case VSBuf(bytes) => WriteSized(writer, VSBUFFER, bytes);
    case Buffer(bytes) => WriteSized(writer, BUFFER, bytes);
    case Arr(items) =>
      WriteTagged(writer, ARRAY, |items|);
      SerializeItems(c, writer, items);
    case Int(n) => WriteTagged(writer, INT, n);
    case Object(json) => WriteSized(writer, OBJECT, c.encode(json));
  }

  method SerializeItems(c: Codec, writer: BufferWriter, items: seq<Value>)
    modifies writer
    ensures writer.Contents() == old(writer.Contents()) + SerializeAll(c, items)
    decreases items, 1
  {
    hide Serialize, SerializeAll, Flatten;
    var k := 0;
    assert items[0..] == items;
    while k < |items|
      invariant 0 <= k <= |items|
      invariant writer.Contents() + SerializeAll(c, items[k..]) == old(writer.Contents()) + SerializeAll(c, items)
    {
      ghost var before := writer.Contents();
      OneMoreItem(c, items, k);
      DoSerialize(c, writer, items[k]);
      Regrouped(before, Serialize(c, items[k]), SerializeAll(c, items[k + 1..]));
      k := k + 1;
    }
    NoItems(c);
    assert items[k..] == [] && writer.Contents() + [] == writer.Contents();
  }

  lemma {:induction false} NoItems(c: Codec)
    ensures SerializeAll(c, []) == []
  {
  }

  lemma {:induction false} OneMoreItem(c: Codec, items: seq<Value>, k: nat)
    requires k < |items|
    ensures SerializeAll(c, items[k..]) == Serialize(c, items[k]) + SerializeAll(c, items[k + 1..])
  {
    hide Serialize;
    assert items[k..][1..] == items[k + 1..];
  }

  lemma {:induction false} Regrouped(a: Bytes, b: Bytes, c: Bytes)
    ensures (a + b) + c == a + (b + c)
  {
  }
}
