/** The reassembly buffer under every stream protocol (packages/rpc/src/protocol.ts, ChunkStream). */
module ChunkStreams {
  import opened Buffers
  import opened Options

  lemma CutFirst(chunks: seq<bytes>, n: nat)
    requires chunks != [] && n <= |chunks[0]|
    ensures n <= |Flatten(chunks)| && Flatten(chunks)[..n] == chunks[0][..n]
    ensures Flatten([chunks[0][n..]] + chunks[1..]) == Flatten(chunks)[n..]
    ensures n == |chunks[0]| ==> Flatten(chunks[1..]) == Flatten(chunks)[n..]
  {
    hide Flatten;
    var cut := [chunks[0][n..]] + chunks[1..];
    assert cut[1..] == chunks[1..];
    FirstComesFirst(cut);
    FirstComesFirst(chunks);
    CutAppended(chunks[0], Flatten(chunks[1..]), n);
  }

  lemma FirstComesFirst(chunks: seq<bytes>)
    requires chunks != []
    ensures Flatten(chunks) == chunks[0] + Flatten(chunks[1..])
  {
  }

  lemma CutAppended(first: bytes, rest: bytes, n: nat)
    requires n <= |first|
    ensures (first + rest)[..n] == first[..n] && (first + rest)[n..] == first[n..] + rest
    ensures n == |first| ==> rest == (first + rest)[n..]
  {
  }

  lemma NextPart(all: bytes, offset: nat, part: bytes)
    requires offset + |part| <= |all| && all[offset..][..|part|] == part
    ensures all[..offset] + part == all[..offset + |part|] && all[offset..][|part|..] == all[offset + |part|..]
  {
    assert all[offset..offset + |part|] == part;
  }

  lemma SomeChunk(chunks: seq<bytes>)
    ensures Flatten(chunks) != [] ==> chunks != []
  {
  }

  lemma PrefixOfSome(chunks: seq<bytes>, i: nat, n: nat)
    requires i <= |chunks| && n <= |Flatten(chunks[..i])|
    ensures n <= |Flatten(chunks)| && Flatten(chunks)[..n] == Flatten(chunks[..i])[..n]
  {
    FlattenAppend(chunks[..i], chunks[i..]);
    assert chunks[..i] + chunks[i..] == chunks;
  }

  class ChunkStream {
    var chunks: seq<bytes>
    var totalLength: nat

    ghost predicate Valid()
      reads this
    {
      totalLength == |Flatten(chunks)|
    }

    /** The byte queue that this object stands for. */
    ghost function Contents(): bytes
      reads this
    {
      Flatten(chunks)
    }

    constructor ()
      ensures Valid() && Contents() == []
    {
      chunks, totalLength := [], 0;
    }

    method AcceptChunk(chunk: bytes)
      requires Valid()
      modifies this
      ensures Valid() && Contents() == old(Contents()) + chunk
    {
      FlattenAppend(chunks, [chunk]);
      assert Flatten([chunk]) == chunk;
      chunks := chunks + [chunk];
      totalLength := totalLength + |chunk|;
    }

    /** Asking an empty list of chunks for zero bytes would dereference a missing chunk. */
    method Peek(byteCount: nat) returns (r: Option<bytes>)
      requires Valid()
      requires byteCount > 0 || chunks != []
      ensures r == if |Contents()| < byteCount then None else Some(Contents()[..byteCount])
    {
      if totalLength < byteCount {
        return None;
      }
      if |chunks[0]| >= byteCount {
        assert chunks[0][..byteCount] == Contents()[..byteCount];
        return Some(chunks[0][..byteCount]);
      }
      var result := new byte[byteCount](_ => 0);
      var offset, i := 0, 0;
      while i < |chunks| && offset < byteCount
        invariant 0 <= i <= |chunks| && 0 <= offset <= byteCount
        invariant offset < byteCount ==> offset == |Flatten(chunks[..i])|
        invariant offset <= |Flatten(chunks[..i])|
        invariant result[..offset] == Flatten(chunks[..i])[..offset]
      {
        var chunk := chunks[i];
        var copyLength := if |chunk| < byteCount - offset then |chunk| else byteCount - offset;
        TakeOneMore(chunks, i);
        Set(result, chunk[..copyLength], offset);
        offset := offset + copyLength;
        i := i + 1;
      }
      assert chunks[..|chunks|] == chunks;
      assert offset == byteCount;
      PrefixOfSome(chunks, i, byteCount);
      assert result[..] == result[..offset];
      r := Some(result[..]);
    }

    /** Takes `byteCount` bytes off the front, or leaves everything alone when there are fewer. */
    method Read(byteCount: nat) returns (r: Option<bytes>)
      requires Valid()
      requires byteCount > 0 || chunks != []
      modifies this
      ensures Valid()
      ensures |old(Contents())| < byteCount ==> r == None && Contents() == old(Contents())
      ensures |old(Contents())| >= byteCount ==>
        r == Some(old(Contents())[..byteCount]) && Contents() == old(Contents())[byteCount..]
    {
      if totalLength < byteCount {
        return None;
      }
      if |chunks[0]| == byteCount {
        r := Some(chunks[0]);
        chunks := chunks[1..];
        totalLength := totalLength - byteCount;
        return;
      }
      if |chunks[0]| > byteCount {
        CutFirst(chunks, byteCount);
        r := Some(chunks[0][..byteCount]);
        chunks := [chunks[0][byteCount..]] + chunks[1..];
        totalLength := totalLength - byteCount;
        return;
      }
      var result := ReadAcross(byteCount);
      totalLength := totalLength - byteCount;
      r := Some(result);
    }

    /** The loop of `read` that joins several chunks. */
    method ReadAcross(byteCount: nat) returns (joined: bytes)
      requires byteCount <= |Contents()|
      modifies this`chunks
      ensures joined == old(Contents())[..byteCount] && Contents() == old(Contents())[byteCount..]
    {
      hide Flatten;
      ghost var all := Contents();
      var result := new byte[byteCount](_ => 0);
      var offset := 0;
      while offset < byteCount
        invariant 0 <= offset <= byteCount <= |all|
        invariant Flatten(chunks) == all[offset..]
        invariant result[..offset] == all[..offset]
        decreases |chunks|, byteCount - offset
      {
        SomeChunk(chunks);
        var chunk := chunks[0];
        var needed := byteCount - offset;
        if |chunk| <= needed {
          CutFirst(chunks, |chunk|);
          NextPart(all, offset, chunk);
          Set(result, chunk, offset);
          offset := offset + |chunk|;
          chunks := chunks[1..];
        } else {
          CutFirst(chunks, needed);
          NextPart(all, offset, chunk[..needed]);
          Set(result, chunk[..needed], offset);
          chunks := [chunk[needed..]] + chunks[1..];
          offset := offset + needed;
        }
      }
      assert result[..] == result[..offset];
      joined := result[..];
    }

    /** Drops `byteCount` bytes.  `ok` is false when there are fewer, where `skip` throws its error of the range. */
    method Skip(byteCount: nat) returns (ok: bool)
      requires Valid()
      requires byteCount > 0 || chunks != []
      modifies this
      ensures Valid()
      ensures ok == (|old(Contents())| >= byteCount)
      ensures Contents() == if ok then old(Contents())[byteCount..] else old(Contents())
    {
      var discarded := Read(byteCount);
      ok := discarded.Some?;
    }
  }
}
