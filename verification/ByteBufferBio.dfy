/**
 * The ByteBuffer BIO of ssl.c as it is written: a fixed ring of bytes and a pointer into a
 * Java buffer, both updated in place. Every method is proved against the FIFO machine.
 */
module ByteBufferBio {
  import opened Bytes
  import opened BioFifo
  import opened BioRuns

  /** The pending bytes of a ring, read modulo its size. */
  ghost function PendingOf(ring: seq<byte>, offset: nat, length: nat): (p: seq<byte>)
    requires |ring| > 0
  {
    seq(length, i requires 0 <= i < length => ring[(offset + i) % |ring|])
  }

  lemma ModOnce(x: nat, size: nat)
    requires size > 0 && x < 2 * size
    ensures x % size == if x < size then x else x - size
  {
  }

  lemma PendingAt(ring: seq<byte>, offset: nat, length: nat, i: nat)
    requires |ring| > 0 && offset <= |ring| && length <= |ring| && i < length
    ensures PendingOf(ring, offset, length)[i] == ring[if offset + i < |ring| then offset + i else offset + i - |ring|]
  {
    ModOnce(offset + i, |ring|);
  }

  /** The bytes a drain of n copies out: one piece, or two around the end of the ring. */
  lemma PendingPrefix(ring: seq<byte>, offset: nat, length: nat, n: nat)
    requires |ring| > 0 && offset <= |ring| && n <= length <= |ring|
    ensures offset + n <= |ring| ==> PendingOf(ring, offset, length)[..n] == ring[offset..offset + n]
    ensures offset + n > |ring| ==>
              PendingOf(ring, offset, length)[..n] == ring[offset..] + ring[..offset + n - |ring|]
  {
    var p := PendingOf(ring, offset, length);
    forall i | 0 <= i < n
      ensures p[i] == ring[if offset + i < |ring| then offset + i else offset + i - |ring|]
    {
      PendingAt(ring, offset, length, i);
    }
  }

  /** What is pending after a drain, for the offset the code moves to. */
  lemma PendingSuffix(ring: seq<byte>, offset: nat, length: nat, n: nat, offset': nat)
    requires |ring| > 0 && offset <= |ring| && n <= length <= |ring|
    requires n < length ==> offset' == if n > |ring| - offset then n - (|ring| - offset) else offset + n
    ensures PendingOf(ring, offset', length - n) == PendingOf(ring, offset, length)[n..]
  {
    var left, all := PendingOf(ring, offset', length - n), PendingOf(ring, offset, length);
    forall i | 0 <= i < length - n
      ensures left[i] == all[n..][i]
    {
      PendingAt(ring, offset', length - n, i);
      PendingAt(ring, offset, length, n + i);
    }
  }

  /** Where byte k of a queueing write goes when the ring has not wrapped. */
  ghost predicate Appended(before: seq<byte>, after: seq<byte>, offset: nat, length: nat, input: seq<byte>)
    requires |before| == |after| && offset + length <= |before| && length + |input| <= |before|
  {
    && (forall c :: offset <= c < offset + length ==> after[c] == before[c])
    && (forall k :: 0 <= k < |input| ==>
          after[if offset + length + k < |after| then offset + length + k else offset + length + k - |after|] == input[k])
  }

  lemma AppendedStraight(before: seq<byte>, offset: nat, length: nat, input: seq<byte>)
    requires offset + length + |input| <= |before|
    ensures Appended(before, Overwrite(before, offset + length, input), offset, length, input)
  {
  }

  lemma AppendedAround(before: seq<byte>, offset: nat, length: nat, first: seq<byte>, second: seq<byte>)
    requires offset + length + |first| == |before| && |second| <= offset
    ensures Appended(before, Overwrite(Overwrite(before, offset + length, first), 0, second), offset, length, first + second)
  {
  }

  lemma PendingAppend(before: seq<byte>, after: seq<byte>, offset: nat, length: nat, input: seq<byte>)
    requires |before| > 0 && |before| == |after| && offset + length <= |before| && length + |input| <= |before|
    requires Appended(before, after, offset, length, input)
    ensures PendingOf(after, offset, length + |input|) == PendingOf(before, offset, length) + input
  {
    forall i | 0 <= i < length + |input|
      ensures PendingOf(after, offset, length + |input|)[i] == (PendingOf(before, offset, length) + input)[i]
    {
      PendingAt(after, offset, length + |input|, i);
      if i < length {
        PendingAt(before, offset, length, i);
        assert after[offset + i] == before[offset + i];
      } else {
        assert offset + i == offset + length + (i - length);
      }
    }
  }

  class Bio {
    const ring: array<byte>     // nonApplicationBuffer, of nonApplicationBufferSize bytes
    var offset: int             // nonApplicationBufferOffset
    var length: int             // nonApplicationBufferLength
    var buffer: array?<byte>    // the memory the Java buffer points into ...
    var pos: int                // ... and how far the pointer has moved
    var bufferLength: int
    var isSink: bool            // bufferIsSSLWriteSink

    ghost predicate Valid()
      reads this, ring
    {
      && 0 < ring.Length
      && 0 <= offset <= ring.Length && 0 <= length <= ring.Length
      && (length == 0 ==> offset == 0)
      && 0 <= bufferLength && 0 <= pos
      && (buffer == null ==> bufferLength == 0 && !isSink)
      && (buffer != null ==> buffer != ring && pos + bufferLength <= buffer.Length)
    }

    ghost function Pending(): (p: seq<byte>)
      requires Valid()
      reads this, ring
    {
      PendingOf(ring[..], offset, length)
    }

    ghost function View(): (q: Fifo)
      requires Valid()
      reads this, ring, buffer
      ensures Inv(q)
    {
      Fifo(ring.Length, offset, Pending(),
           if buffer == null then Detached
           else if isSink then Sink(bufferLength)
           else Source(buffer[pos..pos + bufferLength]))
    }

    constructor (size: int)
      requires size > 0
      ensures Valid() && fresh(ring) && View() == Fifo(size, 0, [], Detached)
    {
      ring := new byte[size](_ => 0);
      offset, length := 0, 0;
      buffer, pos, bufferLength, isSink := null, 0, 0, false;
    }

    /** bioSetByteBuffer; a null address or a negative size is an exception and changes nothing. */
    method SetByteBuffer(memory: array?<byte>, start: nat, maxUsableBytes: int, isSSLWriteSink: bool) returns (thrown: bool)
      requires Valid()
      requires memory != null && maxUsableBytes >= 0 ==> memory != ring && start + maxUsableBytes <= memory.Length
      modifies this`buffer, this`pos, this`bufferLength, this`isSink
      ensures Valid() && thrown == (memory == null || maxUsableBytes < 0)
      ensures thrown ==> View() == old(View())
      ensures !thrown ==> buffer == memory && pos == start && bufferLength == maxUsableBytes && isSink == isSSLWriteSink
      ensures !thrown ==>
                View() == Apply(old(View()), if isSSLWriteSink then AttachSink(maxUsableBytes)
                                             else AttachSource(memory[start..start + maxUsableBytes])).next
    {
      if memory == null || maxUsableBytes < 0 {
        return true;
      }
      buffer, pos, bufferLength, isSink := memory, start, maxUsableBytes, isSSLWriteSink;
      return false;
    }

    method ClearByteBuffer()
      requires Valid()
      modifies this`buffer, this`bufferLength, this`isSink
      ensures Valid() && View() == Apply(old(View()), Clear).next
      ensures buffer == null && bufferLength == 0 && !isSink
    {
      buffer, bufferLength, isSink := null, 0, false;
    }

    /** The sink holds `bytes` from where the pointer was, and nothing else in it changed. */
    twostate predicate SinkReceived(memory: array<byte>, bytes: seq<byte>)
      requires 0 <= old(pos) && old(pos) + |bytes| <= memory.Length
      reads this, memory
    {
      && buffer == memory && pos == old(pos) + |bytes|
      && memory[..] == Overwrite(old(memory[..]), old(pos), bytes)
    }

    method CopyTwo(first: seq<byte>, second: seq<byte>)
      requires Valid() && buffer != null && pos + |first| + |second| <= buffer.Length
      modifies buffer
      ensures buffer[..] == Overwrite(old(buffer[..]), pos, first + second)
    {
      ghost var was := buffer[..];
      CopyInto(buffer, pos, first);
      CopyInto(buffer, pos + |first|, second);
      OverwriteTwice(was, pos, first, second);
    }

    /** The copies of a drain: one, or two when the bytes go around the end of the ring. */
    method CopyOut(n: nat) returns (newOffset: int)
      requires Valid() && buffer != null && n <= length && n <= bufferLength
      modifies buffer
      ensures buffer[..] == Overwrite(old(buffer[..]), pos, old(Pending())[..n])
      ensures newOffset == if n > ring.Length - offset then n - (ring.Length - offset) else offset + n
    {
      var writeChunk := ring.Length - offset;
      PendingPrefix(ring[..], offset, length, n);
      if n > writeChunk {
        newOffset := n - writeChunk;
        var first, second := ring[offset..], ring[..newOffset];
        assert Pending()[..n] == first + second;
        CopyTwo(first, second);
      } else {
        newOffset := offset + n;
        var only := ring[offset..newOffset];
        assert Pending()[..n] == only;
        CopyInto(buffer, pos, only);
      }
    }

    /** tcn_flush_sslbuffer_to_bytebuffer */
    method FlushRing() returns (writeAmount: int)
      requires Valid() && buffer != null && isSink
      modifies this`offset, this`length, this`pos, this`bufferLength, buffer
      ensures Valid()
      ensures var e := Flushed(old(View()));
              View() == e.next && writeAmount == e.ret && SinkReceived(old(buffer), e.flushed)
    {
      ghost var cells := ring[..];
      writeAmount := Min(bufferLength, length);
      offset := CopyOut(writeAmount);
      assert ring[..] == cells;
      length := length - writeAmount;
      bufferLength := bufferLength - writeAmount;
      pos := pos + writeAmount;
      if length == 0 {
        offset := 0;
      }
      PendingSuffix(cells, old(offset), old(length), writeAmount, offset);
      assert Pending() == old(Pending())[writeAmount..];
    }

    /** The copies of a queueing write: one, or two around the end of the ring. */
    method CopyIn(taken: seq<byte>)
      requires Valid() && offset + length <= ring.Length && length + |taken| <= ring.Length
      modifies ring
      ensures Appended(old(ring[..]), ring[..], offset, length, taken)
    {
      var startIndex := offset + length;
      var writeChunk := ring.Length - startIndex;
      if |taken| > writeChunk {
        var first, second := taken[..writeChunk], taken[writeChunk..];
        assert taken == first + second;
        CopyAround(first, second);
      } else {
        CopyStraight(taken);
      }
    }

    method CopyStraight(taken: seq<byte>)
      requires Valid() && offset + length + |taken| <= ring.Length
      modifies ring
      ensures Appended(old(ring[..]), ring[..], offset, length, taken)
    {
      ghost var before := ring[..];
      assert QueuePlan(ring.Length, offset, length, |taken|) == CopyPlan(offset + length, |taken|, 0);
      CopyInto(ring, offset + length, taken);
      AppendedStraight(before, offset, length, taken);
    }

    method CopyAround(first: seq<byte>, second: seq<byte>)
      requires Valid() && offset + length + |first| == ring.Length && 0 < |second| <= offset
      modifies ring
      ensures Appended(old(ring[..]), ring[..], offset, length, first + second)
    {
      ghost var before := ring[..];
      assert QueuePlan(ring.Length, offset, length, |first| + |second|) == CopyPlan(offset + length, |first|, |second|);
      CopyInto(ring, offset + length, first);
      CopyInto(ring, 0, second);
      AppendedAround(before, offset, length, first, second);
    }

    /** The queueing half of tcn_write_to_bytebuffer, for a ring that has not wrapped. */
    method Enqueue(input: seq<byte>) returns (writeAmount: int)
      requires Valid() && input != [] && length < ring.Length && offset + length <= ring.Length
      modifies this`length, ring
      ensures Valid() && writeAmount == Min(ring.Length - old(length), |input|)
      ensures Pending() == old(Pending()) + input[..writeAmount]
    {
      ghost var before := ring[..];
      writeAmount := Min(ring.Length - length, |input|);
      CopyIn(input[..writeAmount]);
      PendingAppend(before, ring[..], offset, length, input[..writeAmount]);
      length := length + writeAmount;
    }

    /** The check ahead of the drain; without queued bytes there is nothing to copy. */
    method DrainFirst() returns (ret: int)
      requires Valid() && buffer != null && isSink
      modifies this`offset, this`length, this`pos, this`bufferLength, buffer
      ensures Valid()
      ensures var e := Flushed(old(View()));
              View() == e.next && ret == e.ret && SinkReceived(old(buffer), e.flushed)
    {
      ret := 0;
      if length != 0 {
        ret := FlushRing();
      }
    }

    /** The copy of what still fits of the input behind the drained bytes. */
    method PassInput(input: seq<byte>) returns (writeChunk: int)
      requires Valid() && buffer != null && isSink
      modifies this`pos, this`bufferLength, buffer
      ensures Valid() && writeChunk == Min(old(bufferLength), |input|)
      ensures View() == old(View()).(window := Sink(old(bufferLength) - writeChunk))
      ensures SinkReceived(old(buffer), input[..writeChunk])
    {
      ghost var cells := ring[..];
      writeChunk := Min(bufferLength, |input|);
      CopyInto(buffer, pos, input[..writeChunk]);
      assert ring[..] == cells;
      bufferLength := bufferLength - writeChunk;
      pos := pos + writeChunk;
    }

    /** The second half of tcn_write_to_bytebuffer: queued bytes first, then what still fits of the input. */
    method WriteToSink(input: seq<byte>) returns (ret: int)
      requires Valid() && buffer != null && isSink && bufferLength > 0 && input != []
      modifies this`offset, this`length, this`pos, this`bufferLength, buffer
      ensures Valid()
      ensures var e := Written(old(View()), input);
              View() == e.next && ret == e.ret && SinkReceived(old(buffer), e.flushed + e.passed)
    {
      ghost var flushed, was, at := Flushed(View()).flushed, buffer[..], pos;
      ret := DrainFirst();
      var writeChunk := PassInput(input);
      OverwriteTwice(was, at, flushed, input[..writeChunk]);
      ret := ret + writeChunk;
    }

    /** tcn_write_to_bytebuffer; `ret` is -1 and `retry` set when the engine has to call again. */
    method Write(input: seq<byte>) returns (ret: int, retry: bool)
      requires Valid() && InDomain(View(), Call.Write(input))
      modifies this`offset, this`length, this`pos, this`bufferLength, ring, buffer
      ensures Valid()
      ensures var e := Written(old(View()), input);
              View() == e.next && ret == e.ret && retry == e.retry
      ensures isSink ==> var e := Written(old(View()), input); SinkReceived(old(buffer), e.flushed + e.passed)
      ensures buffer != null && !isSink ==> buffer[..] == old(buffer[..]) && pos == old(pos)
      ensures retry <==> ret == -1
      ensures ret == -1 <==> input != [] && if isSink then old(bufferLength) == 0 else old(length) == ring.Length
      ensures input == [] ==> ret == 0
      ensures !isSink && ret > 0 ==> ret == Min(ring.Length - old(length), |input|) && Pending() == old(Pending()) + input[..ret]
      ensures isSink && ret >= 0 && input != [] ==>
                var flushed := Min(old(bufferLength), old(length));
                var taken := Min(old(bufferLength) - flushed, |input|);
                && ret == flushed + taken == old(bufferLength) - bufferLength == pos - old(pos)
                && Pending() == old(Pending())[flushed..]
                && buffer[old(pos)..pos] == old(Pending())[..flushed] + input[..taken]
      ensures ret <= 0 ==> Pending() == old(Pending()) && bufferLength == old(bufferLength) && pos == old(pos)
    {
      retry := false;
      if |input| == 0 {
        ret := 0;
      } else if !isSink {
        if ring.Length - length == 0 {
          ret, retry := -1, true;
        } else {
          ret := Enqueue(input);
        }
      } else if buffer == null || bufferLength == 0 {
        ret, retry := -1, true;
      } else {
        ret := WriteToSink(input);
      }
    }

    /** tcn_read_from_bytebuffer; the bytes copied to the engine are `got`. */
    method Read(max: int) returns (ret: int, retry: bool, got: seq<byte>)
      requires Valid()
      modifies this`pos, this`bufferLength
      ensures Valid()
      ensures var e := Fetched(old(View()), max);
              View() == e.next && ret == e.ret && retry == e.retry && got == e.got
      ensures max <= 0 ==> ret == 0 && !retry && got == []
      ensures max > 0 && (isSink || buffer == null || old(bufferLength) == 0) ==> ret == -1 && retry && got == []
      ensures max > 0 && !isSink && buffer != null && old(bufferLength) > 0 ==>
                && !retry && ret == |got| == Min(old(bufferLength), max)
                && got == buffer[old(pos)..old(pos) + ret] && pos == old(pos) + ret && bufferLength == old(bufferLength) - ret
    {
      if max <= 0 {
        return 0, false, [];
      }
      if isSink || buffer == null || bufferLength == 0 {
        return -1, true, [];
      }
      ghost var rest := buffer[pos..pos + bufferLength];
      var readAmount := Min(bufferLength, max);
      got := buffer[pos..pos + readAmount];
      assert got == rest[..readAmount];
      bufferLength := bufferLength - readAmount;
      pos := pos + readAmount;
      assert buffer[pos..pos + bufferLength] == rest[readAmount..];
      return readAmount, false, got;
    }

    /** bioFlushByteBuffer */
    method FlushByteBuffer() returns (ret: int)
      requires Valid()
      modifies this`offset, this`length, this`pos, this`bufferLength, buffer
      ensures Valid()
      ensures var e := Apply(old(View()), Call.Flush);
              View() == e.next && ret == e.ret && (isSink ==> SinkReceived(old(buffer), e.flushed))
      ensures ret == if isSink then Min(old(bufferLength), old(length)) else 0
      ensures Pending() == old(Pending())[ret..] && bufferLength == old(bufferLength) - ret
      ensures isSink ==> pos == old(pos) + ret && buffer[old(pos)..pos] == old(Pending())[..ret]
    {
      if length == 0 || buffer == null || !isSink {
        return 0;
      }
      ret := FlushRing();
    }

    /** bioLengthNonApplication: never more than the configured size. */
    method LengthNonApplication() returns (n: int)
      requires Valid()
      ensures n == |View().pending| <= View().size
    {
      return length;
    }
  }

  /**
   * bioNewByteBuffer; null stands for the exception that a size that is not positive, or a
   * BIO, its data or a ring that could not be allocated, leads to.
   */
  method NewByteBuffer(size: int, memory: bool) returns (bio: Bio?)
    ensures bio == null <==> size <= 0 || !memory
    ensures bio != null ==> bio.Valid() && fresh(bio) && bio.View() == Fifo(size, 0, [], Detached)
  {
    if size <= 0 || !memory {
      return null;
    }
    bio := new Bio(size);
  }
}
