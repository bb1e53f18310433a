// Model of ChunkStream (packages/rpc/src/protocol.ts): a queue of received chunks read as one flat byte queue.

module ChunkStreams {
  import opened Buffers
  import opened Options

  class ChunkStream {
    var chunks: seq<Bytes>
    var totalLength: nat

    ghost predicate Valid()
      reads this
    {
      totalLength == |Flatten(chunks)|
    }

    // The flat byte queue this object stands for.
    ghost function Contents(): Bytes
      reads this
    {
      Flatten(chunks)
    }

    constructor ()
      ensures Valid() && Contents() == []
    {
      chunks := [];
      totalLength := 0;
    }

    method AcceptChunk(chunk: Bytes)
      requires Valid()
      modifies this
      ensures Valid() && Contents() == old(Contents()) + chunk
    {
      FlattenAppend(chunks, [chunk]);
      chunks := chunks + [chunk];
      totalLength := totalLength + |chunk|;
    }

    method Peek(byteCount: nat) returns (r: Option<Bytes>)
      requires Valid() && (byteCount > 0 || chunks != [])
      ensures r == if |Contents()| < byteCount then None else Some(Contents()[..byteCount])
    {
      if totalLength < byteCount {
        return None;
      }
      if |chunks[0]| >= byteCount {
        assert chunks[0][..byteCount] == Contents()[..byteCount];
        return Some(chunks[0][..byteCount]);
      }
      var result := new Byte[byteCount](_ => 0);
      var offset, k := 0, 0;
      while k < |chunks| && offset < byteCount
        invariant 0 <= k <= |chunks| && 0 <= offset <= byteCount
        invariant offset < byteCount ==> offset == |Flatten(chunks[..k])|
        invariant offset <= |Flatten(chunks)|
        invariant result[..offset] == Flatten(chunks)[..offset]
      {
        FlattenStep(chunks, k);
        FlattenSplit(chunks, k);
        FlattenSplit(chunks, k + 1);
        var chunk := chunks[k];
        var copyLength := if |chunk| <= byteCount - offset then |chunk| else byteCount - offset;
        Set(result, chunk[..copyLength], offset);
        offset := offset + copyLength;
        k := k + 1;
      }
      assert k == |chunks| ==> chunks[..k] == chunks;
      assert result[..] == result[..byteCount];
      r := Some(result[..]);
    }

    method Read(byteCount: nat) returns (r: Option<Bytes>)
      requires Valid() && (byteCount > 0 || chunks != [])
      modifies this
      ensures Valid()
      ensures |old(Contents())| < byteCount ==> r == None && Contents() == old(Contents())
      ensures |old(Contents())| >= byteCount ==>
                r == Some(old(Contents())[..byteCount]) && Contents() == old(Contents())[byteCount..]
    {
      if totalLength < byteCount {
        return None;
      }
      if |chunks[0]| == byteCount {
        r := Some(chunks[0]);
        chunks := chunks[1..];
        totalLength := totalLength - byteCount;
      } else if |chunks[0]| > byteCount {
        r := Some(chunks[0][..byteCount]);
        TrimHead(chunks, byteCount);
        chunks := chunks[0 := chunks[0][byteCount..]];
        totalLength := totalLength - byteCount;
      } else {
        var bytes := ReadAcrossChunks(byteCount);
        totalLength := totalLength - byteCount;
        r := Some(bytes);
      }
    }

    // The last part of Read: the bytes are spread over several chunks.
    method ReadAcrossChunks(byteCount: nat) returns (r: Bytes)
      requires byteCount <= |Contents()|
      modifies this`chunks
      ensures r == old(Contents())[..byteCount] && Contents() == old(Contents())[byteCount..]
    {
      ghost var flat := Flatten(chunks);
      var result := new Byte[byteCount](_ => 0);
      var offset := 0;
      while offset < byteCount
        invariant 0 <= offset <= byteCount
        invariant result[..offset] + Flatten(chunks) == flat
        decreases byteCount - offset, |chunks|
      {
        hide Flatten;
        NothingIsEmpty(chunks);
        var needed := byteCount - offset;
        var take := if |chunks[0]| <= needed then |chunks[0]| else needed;
        var head := chunks[0][..take];
        ghost var before := result[..offset];
        Set(result, head, offset);
        assert result[..offset + take] == before + head;
        TrimHead(chunks, take);
        Regroup(before, head, Flatten(WithoutHead(chunks, take)));
        if |chunks[0]| <= needed {
          chunks := chunks[1..];
        } else {
          chunks := chunks[0 := chunks[0][take..]];
        }
        offset := offset + take;
      }
      r := result[..];
      assert r == result[..byteCount];
    }

    // Discards bytes that the caller knows to be there; the source throws otherwise.
    method Skip(byteCount: nat)
      requires Valid() && (byteCount > 0 || chunks != []) && byteCount <= |Contents()|
      modifies this
      ensures Valid() && Contents() == old(Contents())[byteCount..]
    {
      var discarded := Read(byteCount);
    }
  }

  // The chunks once `n` bytes of the first are taken; a chunk that is used up goes.
  ghost function WithoutHead(chunks: seq<Bytes>, n: nat): seq<Bytes>
    requires |chunks| > 0 && n <= |chunks[0]|
  {
    if n == |chunks[0]| then chunks[1..] else chunks[0 := chunks[0][n..]]
  }

  lemma {:induction false} TrimHead(chunks: seq<Bytes>, n: nat)
    requires |chunks| > 0 && n <= |chunks[0]|
    ensures Flatten(chunks) == chunks[0][..n] + Flatten(WithoutHead(chunks, n))
    ensures Flatten(WithoutHead(chunks, n)) == Flatten(chunks)[n..]
  {
    var c := chunks[0 := chunks[0][n..]];
    assert c[1..] == chunks[1..];
  }

  lemma {:induction false} NothingIsEmpty(chunks: seq<Bytes>)
    ensures Flatten(chunks) != [] ==> chunks != []
  {
  }

  lemma {:induction false} Regroup(a: Bytes, b: Bytes, c: Bytes)
    ensures (a + b) + c == a + (b + c)
  {
  }
}
