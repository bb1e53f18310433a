// Model of packages/rpc/src/buffer.ts: byte buffers and big-endian integers.

module Buffers {
  type Byte = x: int | 0 <= x < 256
  type Bytes = seq<Byte>

  const TWO_32: nat := 0x1_0000_0000

  function Power256(n: nat): (r: nat)
    ensures r > 0
  {
    if n == 0 then 1 else 256 * Power256(n - 1)
  }

  // The low `width` bytes of a number, most significant byte first.
  function BigEndian(value: nat, width: nat): (r: Bytes)
    ensures |r| == width
  {
    if width == 0 then [] else BigEndian(value / 256, width - 1) + [value % 256]
  }

  function FromBigEndian(s: Bytes): (r: nat)
    ensures r < Power256(|s|)
  {
    if s == [] then 0 else
    var high, low: int := FromBigEndian(s[..|s| - 1]), s[|s| - 1];
    high * 256 + low
  }

  // A 32-bit write keeps only the low 32 bits of the number.
  function WriteUInt32BE(value: nat): (r: Bytes)
    ensures |r| == 4
  {
    BigEndian(value, 4)
  }

  function ReadUInt32BE(s: Bytes, offset: nat): (r: nat)
    requires offset + 4 <= |s|
    ensures r < TWO_32
  {
    assert Power256(4) == TWO_32;
    FromBigEndian(s[offset..offset + 4])
  }

  lemma {:induction false} BigEndianRoundTrip(value: nat, width: nat)
    ensures FromBigEndian(BigEndian(value, width)) == value % Power256(width)
  {
    if width > 0 {
      var p := Power256(width - 1);
      BigEndianRoundTrip(value / 256, width - 1);
      assert BigEndian(value, width)[..width - 1] == BigEndian(value / 256, width - 1);
      SplitModulo(value, p);
    }
  }

  lemma {:induction false} SplitModulo(value: nat, p: nat)
    requires p > 0
    ensures value / 256 % p * 256 + value % 256 == value % (256 * p)
  {
    var q, r := value / 256 / p, value / 256 % p;
    assert value == 256 * (q * p + r) + value % 256;
    assert value == q * (256 * p) + (r * 256 + value % 256);
    UniqueRemainder(value, 256 * p, q, r * 256 + value % 256);
  }

  lemma {:induction false} UniqueRemainder(value: nat, m: nat, q: nat, r: nat)
    requires 0 <= r < m && value == q * m + r
    ensures value % m == r
  {
    var q', r' := value / m, value % m;
    assert value == q' * m + r';
    assert (q - q') * m == r' - r;
    NonzeroMultiple(q - q', m);
  }

  lemma {:induction false} NonzeroMultiple(k: int, m: int)
    requires m > 0
    ensures k == 0 || k * m >= m || k * m <= -m
  {
    if k > 0 {
      assert (k - 1) * m >= 0;
    } else if k < 0 {
      assert (-k - 1) * m >= 0;
    }
  }

  lemma {:induction false} UInt32RoundTrip(value: nat)
    ensures ReadUInt32BE(WriteUInt32BE(value), 0) == value % TWO_32
  {
    BigEndianRoundTrip(value, 4);
    assert Power256(4) == TWO_32;
    assert WriteUInt32BE(value)[0..4] == WriteUInt32BE(value);
  }

  function Flatten(chunks: seq<Bytes>): Bytes
  {
    if chunks == [] then [] else chunks[0] + Flatten(chunks[1..])
  }

  lemma {:induction false} FlattenAppend(a: seq<Bytes>, b: seq<Bytes>)
    ensures Flatten(a + b) == Flatten(a) + Flatten(b)
  {
    if a == [] {
      assert a + b == b;
    } else {
      assert (a + b)[1..] == a[1..] + b;
      FlattenAppend(a[1..], b);
    }
  }

  // Copies `source` into `target` from `offset` on, as Uint8Array.set does.
  method Set(target: array<Byte>, source: Bytes, offset: nat)
    requires offset + |source| <= target.Length
    modifies target
    ensures target[..] == old(target[..offset]) + source + old(target[offset + |source|..])
  {
    var i := 0;
    while i < |source|
      invariant 0 <= i <= |source|
      invariant forall k | 0 <= k < target.Length ::
        target[k] == if offset <= k < offset + i then source[k - offset] else old(target[k])
    {
      target[offset + i] := source[i];
      i := i + 1;
    }
  }

  // Concatenates the buffers into one freshly allocated buffer.
  method Concat(buffers: seq<Bytes>) returns (r: Bytes)
    ensures r == Flatten(buffers)
  {
    var total := 0;
    for k := 0 to |buffers|
      invariant total == |Flatten(buffers[..k])|
    {
      FlattenStep(buffers, k);
      total := total + |buffers[k]|;
    }
    assert buffers[..|buffers|] == buffers;
    var result := new Byte[total](_ => 0);
    var offset := 0;
    for k := 0 to |buffers|
      invariant offset == |Flatten(buffers[..k])| <= total
      invariant result[..offset] == Flatten(buffers[..k])
    {
      FlattenStep(buffers, k);
      FlattenSplit(buffers, k + 1);
      Set(result, buffers[k], offset);
      offset := offset + |buffers[k]|;
    }
    r := result[..];
  }

  lemma {:induction false} FlattenStep(buffers: seq<Bytes>, k: nat)
    requires k < |buffers|
    ensures Flatten(buffers[..k + 1]) == Flatten(buffers[..k]) + buffers[k]
  {
    assert buffers[..k + 1] == buffers[..k] + [buffers[k]];
    FlattenAppend(buffers[..k], [buffers[k]]);
  }

  lemma {:induction false} FlattenSplit(buffers: seq<Bytes>, k: nat)
    requires k <= |buffers|
    ensures Flatten(buffers) == Flatten(buffers[..k]) + Flatten(buffers[k..])
  {
    assert buffers == buffers[..k] + buffers[k..];
    FlattenAppend(buffers[..k], buffers[k..]);
  }
}
