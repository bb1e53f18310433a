// Model of the 13-byte framing of packages/rpc/src/protocol.ts: writeProtocolMessage and SocketProtocol.

module Framing {
  import opened Buffers
  import opened ChunkStreams
  import opened Options

  const HEADER_SIZE: nat := 13

  // The message types whose numbers the readers look at.
  const REGULAR: Byte := 1
  const DISCONNECT: Byte := 5
  const KEEP_ALIVE: Byte := 9

  datatype Message = Message(kind: Byte, id: nat, ack: nat, data: Bytes)

  // What the 32-bit header fields can carry.
  predicate Fits(m: Message) {
    m.id < TWO_32 && m.ack < TWO_32 && |m.data| < TWO_32
  }

  function Header(m: Message): (r: Bytes)
    ensures |r| == HEADER_SIZE
  {
    [m.kind] + WriteUInt32BE(m.id) + WriteUInt32BE(m.ack) + WriteUInt32BE(|m.data|)
  }

  function Encode(m: Message): Bytes {
    Header(m) + m.data
  }

  function EncodeAll(ms: seq<Message>): Bytes {
    if ms == [] then [] else Encode(ms[0]) + EncodeAll(ms[1..])
  }

  method WriteProtocolMessage(m: Message) returns (r: Bytes)
    ensures r == Encode(m)
  {
    hide WriteUInt32BE;
    var result := new Byte[HEADER_SIZE + |m.data|](_ => 0);
    ghost var id, ack, length := WriteUInt32BE(m.id), WriteUInt32BE(m.ack), WriteUInt32BE(|m.data|);
    Set(result, [m.kind], 0);
    Set(result, WriteUInt32BE(m.id), 1);
    assert result[..5] == [m.kind] + id;
    Set(result, WriteUInt32BE(m.ack), 5);
    assert result[..9] == [m.kind] + id + ack;
    Set(result, WriteUInt32BE(|m.data|), 9);
    assert result[..HEADER_SIZE] == Header(m);
    Set(result, m.data, HEADER_SIZE);
    r := result[..];
  }

  // The bytes of a message on the wire: kind, id, ack and length, the last three most significant byte first, and the
  // data.
  lemma {:induction false} WireLayout(m: Message)
    requires Fits(m)
    ensures |Encode(m)| == 13 + |m.data| && Encode(m)[0] == m.kind && Encode(m)[13..] == m.data
    ensures forall i | 0 <= i < 4 :: Encode(m)[1 + i] == DigitOf(m.id, i)
    ensures forall i | 0 <= i < 4 :: Encode(m)[5 + i] == DigitOf(m.ack, i)
    ensures forall i | 0 <= i < 4 :: Encode(m)[9 + i] == DigitOf(|m.data|, i)
  {
    hide WriteUInt32BE;
    FourBytes(m.id);
    FourBytes(m.ack);
    FourBytes(|m.data|);
    assert Encode(m)[..13] == Header(m);
  }

  // The i-th byte of a 32-bit number, counted from the most significant.
  function DigitOf(n: nat, i: nat): Byte
    requires i < 4
  {
    if i == 0 then n / 0x100_0000 % 0x100
    else if i == 1 then n / 0x1_0000 % 0x100
    else if i == 2 then n / 0x100 % 0x100
    else n % 0x100
  }

  lemma {:induction false} FourBytes(n: nat)
    requires n < TWO_32
    ensures forall i | 0 <= i < 4 :: WriteUInt32BE(n)[i] == DigitOf(n, i)
  {
    hide BigEndian;
    var a := n / 256;
    var b := a / 256;
    var c := b / 256;
    LastByte(n, 3);
    LastByte(a, 2);
    LastByte(b, 1);
    LastByte(c, 0);
    assert b == n / 0x1_0000 && c == n / 0x100_0000;
    assert WriteUInt32BE(n) == [c % 256, b % 256, a % 256, n % 256];
  }

  lemma {:induction false} LastByte(n: nat, width: nat)
    ensures BigEndian(n, width + 1) == BigEndian(n / 256, width) + [n % 256]
  {
  }

  // The length of the frame that starts `s`, header included.
  function FrameLength(s: Bytes): (n: nat)
    requires |s| >= HEADER_SIZE
    ensures n >= HEADER_SIZE
  {
    HEADER_SIZE + ReadUInt32BE(s, 9)
  }

  predicate Complete(s: Bytes) {
    |s| >= HEADER_SIZE && |s| >= FrameLength(s)
  }

  function FirstFrame(s: Bytes): Message
    requires Complete(s)
  {
    Message(s[0], ReadUInt32BE(s, 1), ReadUInt32BE(s, 5), s[HEADER_SIZE..FrameLength(s)])
  }

  // The complete frames of a byte stream, in order.
  function Frames(s: Bytes): seq<Message>
    decreases |s|
  {
    if Complete(s) then [FirstFrame(s)] + Frames(s[FrameLength(s)..]) else []
  }

  // What is left of a byte stream behind its complete frames.
  function Tail(s: Bytes): Bytes
    decreases |s|
  {
    if Complete(s) then Tail(s[FrameLength(s)..]) else s
  }

  lemma {:induction false} SameHeader(s: Bytes, h: Bytes)
    requires |h| >= HEADER_SIZE && h <= s
    ensures ReadUInt32BE(h, 1) == ReadUInt32BE(s, 1)
    ensures ReadUInt32BE(h, 5) == ReadUInt32BE(s, 5)
    ensures ReadUInt32BE(h, 9) == ReadUInt32BE(s, 9)
  {
    assert h[1..5] == s[1..5] && h[5..9] == s[5..9] && h[9..13] == s[9..13];
  }

  // Reading in two goes is reading in one: where the input is cut does not matter.
  lemma {:induction false} FramesOfTwoParts(s: Bytes, t: Bytes)
    ensures Frames(s + t) == Frames(s) + Frames(Tail(s) + t)
    ensures Tail(s + t) == Tail(Tail(s) + t)
    decreases |s|
  {
    if Complete(s) {
      var n := FrameLength(s);
      SameHeader(s + t, s);
      assert Complete(s + t) && FirstFrame(s + t) == FirstFrame(s);
      assert (s + t)[n..] == s[n..] + t;
      FramesOfTwoParts(s[n..], t);
    }
  }

  lemma {:induction false} TailIsIncomplete(s: Bytes)
    ensures !Complete(Tail(s)) && |Tail(s)| <= |s| && Tail(s) == s[|s| - |Tail(s)|..]
    ensures Frames(s) == [] ==> Tail(s) == s
    decreases |s|
  {
    if Complete(s) {
      TailIsIncomplete(s[FrameLength(s)..]);
    }
  }

  lemma {:induction false} HeaderFields(m: Message, s: Bytes)
    requires Header(m) <= s
    ensures s[0] == m.kind
    ensures ReadUInt32BE(s, 1) == m.id % TWO_32
    ensures ReadUInt32BE(s, 5) == m.ack % TWO_32
    ensures ReadUInt32BE(s, 9) == |m.data| % TWO_32
  {
    var i, a, l := WriteUInt32BE(m.id), WriteUInt32BE(m.ack), WriteUInt32BE(|m.data|);
    assert s[..HEADER_SIZE] == Header(m);
    assert s[1..5] == i && s[5..9] == a && s[9..13] == l;
    UInt32RoundTrip(m.id);
    UInt32RoundTrip(m.ack);
    UInt32RoundTrip(|m.data|);
    assert s[1..5] == i[0..4] && s[5..9] == a[0..4] && s[9..13] == l[0..4];
  }

  // One written frame in front of any bytes is read back as that message, exactly when its fields fit their widths.
  lemma {:induction false} FirstFrameRoundTrip(m: Message, rest: Bytes)
    ensures Fits(m) <==> Complete(Encode(m) + rest) && FirstFrame(Encode(m) + rest) == m
    ensures Fits(m) ==> (Encode(m) + rest)[FrameLength(Encode(m) + rest)..] == rest
  {
    hide WriteUInt32BE, ReadUInt32BE;
    var s := Encode(m) + rest;
    assert s == Header(m) + (m.data + rest);
    HeaderFields(m, s);
    if Fits(m) {
      assert FrameLength(s) == |Encode(m)|;
      assert s[HEADER_SIZE..FrameLength(s)] == m.data;
      assert s[FrameLength(s)..] == rest;
    } else if Complete(s) {
      assert |FirstFrame(s).data| == |m.data| % TWO_32;
    }
  }

  // Reading inverts writing: a written stream, cut off inside a later frame or not, gives back its messages.
  lemma {:induction false} ReadingInvertsWriting(ms: seq<Message>, rest: Bytes)
    requires forall m | m in ms :: Fits(m)
    ensures Frames(EncodeAll(ms) + rest) == ms + Frames(rest)
    ensures Tail(EncodeAll(ms) + rest) == Tail(rest)
  {
    hide WriteUInt32BE, ReadUInt32BE;
    if ms == [] {
      assert EncodeAll(ms) + rest == rest;
    } else {
      var more := EncodeAll(ms[1..]) + rest;
      assert EncodeAll(ms) + rest == Encode(ms[0]) + more;
      FirstFrameRoundTrip(ms[0], more);
      ReadingInvertsWriting(ms[1..], rest);
    }
  }

  // Whatever prefix of a written stream has arrived, the frames read from it are a prefix of the frames written.
  lemma {:induction false} PartialArrival(ms: seq<Message>, arrived: Bytes, missing: Bytes)
    requires forall m | m in ms :: Fits(m)
    requires arrived + missing == EncodeAll(ms)
    ensures Frames(arrived) <= ms
    ensures missing == [] ==> Frames(arrived) == ms && Tail(arrived) == []
  {
    var all := EncodeAll(ms);
    assert all + [] == all;
    ReadingInvertsWriting(ms, []);
    assert Frames(all) == ms + Frames([]) == ms && Tail(all) == Tail([]);
    FramesOfTwoParts(arrived, missing);
    assert ms == Frames(arrived) + Frames(Tail(arrived) + missing);
    if missing == [] {
      assert arrived == all;
    }
  }

  // The bodies SocketProtocol hands to its listeners.
  function RegularBodies(ms: seq<Message>): seq<Bytes> {
    if ms == [] then []
    else (if ms[0].kind == REGULAR then [ms[0].data] else []) + RegularBodies(ms[1..])
  }

  lemma {:induction false} RegularBodiesAppend(a: seq<Message>, b: seq<Message>)
    ensures RegularBodies(a + b) == RegularBodies(a) + RegularBodies(b)
  {
    if a == [] {
      assert a + b == b;
    } else {
      assert (a + b)[1..] == a[1..] + b;
      RegularBodiesAppend(a[1..], b);
      assert (a + b)[0] == a[0];
      var first := if a[0].kind == REGULAR then [a[0].data] else [];
      assert first + (RegularBodies(a[1..]) + RegularBodies(b)) == (first + RegularBodies(a[1..])) + RegularBodies(b);
    }
  }

  // So the bodies are those of the messages of kind 1, in order.
  lemma {:induction false} OnlyRegularIsEmitted(before: seq<Message>, m: Message)
    ensures RegularBodies(before + [m]) == RegularBodies(before) + if m.kind == 1 then [m.data] else []
  {
    RegularBodiesAppend(before, [m]);
    assert [m][1..] == [] && RegularBodies([m][1..]) == [];
  }

  lemma {:induction false} BodiesOfFirstFrame(s: Bytes)
    ensures Complete(s) ==>
              RegularBodies(Frames(s)) == (if s[0] == REGULAR then [FirstFrame(s).data] else [])
                                          + RegularBodies(Frames(s[FrameLength(s)..]))
  {
    if Complete(s) {
      assert Frames(s)[1..] == Frames(s[FrameLength(s)..]);
    }
  }

  // The step both readers share: the first frame is taken off the stream once all of it is there, never before.
  method TakeFrame(stream: ChunkStream) returns (r: Option<Message>)
    requires stream.Valid()
    modifies stream
    ensures stream.Valid()
    ensures !Complete(old(stream.Contents())) ==> r == None && stream.Contents() == old(stream.Contents())
    ensures Complete(old(stream.Contents())) ==>
              && r == Some(FirstFrame(old(stream.Contents())))
              && stream.Contents() == old(stream.Contents()[FrameLength(stream.Contents())..])
  {
    ghost var s := stream.Contents();
    var header := stream.Peek(HEADER_SIZE);
    if header.None? {
      return None;
    }
    var kind := header.value[0];
    var id, ack := ReadUInt32BE(header.value, 1), ReadUInt32BE(header.value, 5);
    var length := ReadUInt32BE(header.value, 9);
    SameHeader(s, header.value);
    if stream.totalLength < HEADER_SIZE + length {
      return None;
    }
    stream.Skip(HEADER_SIZE);
    var body := [];
    if length > 0 {
      var read := stream.Read(length);
      body := read.value;
    }
    assert body == s[HEADER_SIZE..FrameLength(s)];
    assert stream.Contents() == s[FrameLength(s)..];
    r := Some(Message(kind, id, ack, body));
  }

  // The reader of packages/rpc/src/protocol.ts. `emitted` is what its listeners have been given,
  // `received` the concatenation of all chunks so far.
  class SocketProtocol {
    const chunkStream: ChunkStream
    var emitted: seq<Bytes>
    ghost var received: Bytes

    // However the input was cut into chunks, the listeners have seen the Regular bodies of its complete frames
    // and only the incomplete tail is kept.
    ghost predicate Valid()
      reads this, chunkStream
    {
      && chunkStream.Valid()
      && emitted == RegularBodies(Frames(received))
      && chunkStream.Contents() == Tail(received)
    }

    constructor ()
      ensures Valid() && fresh(chunkStream) && received == [] && emitted == []
    {
      chunkStream := new ChunkStream();
      emitted := [];
      received := [];
    }

    method OnData(chunk: Bytes)
      requires Valid()
      modifies this, chunkStream
      ensures Valid() && received == old(received) + chunk
      ensures old(emitted) <= emitted
    {
      chunkStream.AcceptChunk(chunk);
      ReadMessages();
      FramesOfTwoParts(received, chunk);
      RegularBodiesAppend(Frames(received), Frames(Tail(received) + chunk));
      received := received + chunk;
    }

    method ReadMessages()
      requires chunkStream.Valid()
      modifies this`emitted, chunkStream
      ensures chunkStream.Valid() && chunkStream.Contents() == Tail(old(chunkStream.Contents()))
      ensures emitted == old(emitted) + RegularBodies(Frames(old(chunkStream.Contents())))
    {
      while true
        invariant chunkStream.Valid()
        invariant Tail(chunkStream.Contents()) == Tail(old(chunkStream.Contents()))
        invariant emitted + RegularBodies(Frames(chunkStream.Contents()))
                  == old(emitted) + RegularBodies(Frames(old(chunkStream.Contents())))
        decreases |chunkStream.Contents()|
      {
        BodiesOfFirstFrame(chunkStream.Contents());
        var frame := TakeFrame(chunkStream);
        if frame.None? {
          break;
        }
        if frame.value.kind == REGULAR {
          emitted := emitted + [frame.value.data];
        }
      }
    }
  }
}
