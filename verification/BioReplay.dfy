/**
 * Any sequence of calls made on the real ring, with the history taken from outside: what
 * appears in sink memory, what reads return, and the return values. It is the history of
 * the FIFO machine, so everything proved over its runs holds of the ring.
 */
module BioReplay {
  import opened Bytes
  import opened BioFifo
  import opened BioRuns
  import opened ByteBufferBio

  lemma RecordOfWrite(q: Fifo, h: History, input: seq<byte>)
    requires Inv(q) && Recorded(q, h)
    ensures var e := Apply(q, Write(input));
            Record(q, h, Write(input)) ==
              h.(accepted := h.accepted + (e.queued + e.passed), delivered := h.delivered + (e.flushed + e.passed))
  {
  }

  lemma OverwriteSlice(memory: seq<byte>, at: nat, bytes: seq<byte>)
    requires at + |bytes| <= |memory|
    ensures Overwrite(memory, at, bytes)[at..at + |bytes|] == bytes
  {
  }

  method PerformSinkWrite(bio: Bio, input: seq<byte>, h: History) returns (h': History, ret: int)
    requires bio.Valid() && bio.isSink && Recorded(bio.View(), h)
    modifies bio`offset, bio`length, bio`pos, bio`bufferLength, bio.ring, bio.buffer
    ensures bio.Valid() && bio.buffer == old(bio.buffer)
    ensures bio.View() == Apply(old(bio.View()), Write(input)).next
    ensures h' == Record(old(bio.View()), h, Write(input)) && ret == Apply(old(bio.View()), Write(input)).ret
  {
    ghost var e := Written(bio.View(), input);
    RecordOfWrite(bio.View(), h, input);
    var start, queue := bio.pos, bio.length;
    OverwriteSlice(bio.buffer[..], start, e.flushed + e.passed);
    var retry: bool;
    ret, retry := bio.Write(input);
    var out := bio.buffer[start..bio.pos];
    assert out == e.flushed + e.passed;
    var taken := out[queue - bio.length..];
    assert taken == e.queued + e.passed;
    h' := h.(accepted := h.accepted + taken, delivered := h.delivered + out);
  }

  method PerformQueueWrite(bio: Bio, input: seq<byte>, h: History) returns (h': History, ret: int)
    requires bio.Valid() && !bio.isSink && InDomain(bio.View(), Write(input)) && Recorded(bio.View(), h)
    modifies bio`offset, bio`length, bio`pos, bio`bufferLength, bio.ring, bio.buffer
    ensures bio.Valid() && bio.buffer == old(bio.buffer)
    ensures bio.View() == Apply(old(bio.View()), Write(input)).next
    ensures h' == Record(old(bio.View()), h, Write(input)) && ret == Apply(old(bio.View()), Write(input)).ret
  {
    ghost var e := Written(bio.View(), input);
    RecordOfWrite(bio.View(), h, input);
    var retry: bool;
    ret, retry := bio.Write(input);
    var taken := if ret > 0 then input[..ret] else [];
    assert taken == e.queued + e.passed && e.flushed + e.passed == [];
    h' := h.(accepted := h.accepted + taken);
  }

  method PerformFlush(bio: Bio, h: History) returns (h': History, ret: int)
    requires bio.Valid() && Recorded(bio.View(), h)
    modifies bio`offset, bio`length, bio`pos, bio`bufferLength, bio.buffer
    ensures bio.Valid() && bio.buffer == old(bio.buffer)
    ensures bio.View() == Apply(old(bio.View()), Flush).next
    ensures h' == Record(old(bio.View()), h, Flush) && ret == Apply(old(bio.View()), Flush).ret
  {
    ghost var e := Apply(bio.View(), Flush);
    var start := bio.pos;
    ret := bio.FlushByteBuffer();
    h' := h;
    if bio.isSink {
      var out := bio.buffer[start..bio.pos];
      assert out == e.flushed;
      h' := h.(delivered := h.delivered + out);
    }
    assert h.accepted + e.queued + e.passed == h'.accepted;
    assert h.delivered + e.flushed + e.passed == h'.delivered;
  }

  method PerformRead(bio: Bio, max: int, h: History) returns (h': History, ret: int)
    requires bio.Valid() && Recorded(bio.View(), h)
    modifies bio`pos, bio`bufferLength
    ensures bio.Valid() && bio.buffer == old(bio.buffer)
    ensures bio.View() == Apply(old(bio.View()), Read(max)).next
    ensures h' == Record(old(bio.View()), h, Read(max)) && ret == Apply(old(bio.View()), Read(max)).ret
  {
    var retry: bool, got: seq<byte>;
    ret, retry, got := bio.Read(max);
    assert h.accepted + [] + [] == h.accepted && h.delivered + [] + [] == h.delivered;
    h' := h;
    if got != [] {
      var k := |h.got| - 1;
      h' := h.(got := h.got[k := h.got[k] + got]);
    }
  }

  method PerformAttach(bio: Bio, c: Call, h: History) returns (h': History, ret: int)
    requires bio.Valid() && Recorded(bio.View(), h)
    requires c.AttachSource? || c.AttachSink? || c.Clear?
    modifies bio
    ensures bio.Valid() && bio.buffer != null ==> fresh(bio.buffer)
    ensures bio.Valid() && bio.View() == Apply(old(bio.View()), c).next
    ensures h' == Record(old(bio.View()), h, c) && ret == Apply(old(bio.View()), c).ret
  {
    assert h.accepted + [] + [] == h.accepted && h.delivered + [] + [] == h.delivered;
    h', ret := h, 0;
    match c
    case AttachSource(bytes) =>
      var memory := new byte[|bytes|](i requires 0 <= i < |bytes| => bytes[i]);
      var thrown := bio.SetByteBuffer(memory, 0, |bytes|, false);
      assert memory[0..|bytes|] == bytes;
      h' := h.(sources := h.sources + [bytes], got := h.got + [[]]);
    case AttachSink(room) =>
      var memory := new byte[room](_ => 0);
      var thrown := bio.SetByteBuffer(memory, 0, room, true);
    case Clear =>
      bio.ClearByteBuffer();
  }

  method Perform(bio: Bio, c: Call, h: History) returns (h': History, ret: int)
    requires bio.Valid() && InDomain(bio.View(), c) && Recorded(bio.View(), h)
    modifies bio, bio.ring, bio.buffer
    ensures bio.Valid() && (bio.buffer == old(bio.buffer) || (bio.buffer != null ==> fresh(bio.buffer)))
    ensures bio.View() == Apply(old(bio.View()), c).next
    ensures h' == Record(old(bio.View()), h, c) && ret == Apply(old(bio.View()), c).ret
  {
    match c
    case Write(input) =>
      if bio.isSink {
        h', ret := PerformSinkWrite(bio, input, h);
      } else {
        h', ret := PerformQueueWrite(bio, input, h);
      }
    case Read(max) => h', ret := PerformRead(bio, max, h);
    case Flush => h', ret := PerformFlush(bio, h);
    case _ => h', ret := PerformAttach(bio, c, h);
  }

  /** After i calls: these are the state, the history and the return values so far. */
  ghost predicate Underway(start: Fifo, calls: seq<Call>, i: nat, q: Fifo, h: History, answers: seq<int>)
    requires Inv(start) && Recorded(start, NO_HISTORY)
  {
    && i <= |calls| && Inv(q) && Recorded(q, h) && RunInDomain(q, calls[i..])
    && Run(q, h, calls[i..]) == Run(start, NO_HISTORY, calls)
    && answers + Returns(q, calls[i..]) == Returns(start, calls)
  }

  lemma UnderwayNext(start: Fifo, calls: seq<Call>, i: nat, q: Fifo, h: History, answers: seq<int>)
    requires Inv(start) && Recorded(start, NO_HISTORY) && Underway(start, calls, i, q, h, answers) && i < |calls|
    ensures InDomain(q, calls[i])
    ensures Underway(start, calls, i + 1, Apply(q, calls[i]).next, Record(q, h, calls[i]), answers + [Apply(q, calls[i]).ret])
  {
    ApplyKeepsInv(q, calls[i]);
    RecordKeepsRecorded(q, h, calls[i]);
    assert calls[i..][0] == calls[i] && calls[i..][1..] == calls[i + 1..];
    assert answers + Returns(q, calls[i..])
        == answers + [Apply(q, calls[i]).ret] + Returns(Apply(q, calls[i]).next, calls[i + 1..]);
  }

  lemma RunIsOver(start: Fifo, calls: seq<Call>, q: Fifo, h: History, answers: seq<int>)
    requires Inv(start) && Conserved(start, NO_HISTORY) && Underway(start, calls, |calls|, q, h, answers)
    ensures (q, h) == Run(start, NO_HISTORY, calls) && Conserved(q, h) && |answers| == |calls|
    ensures TotalLength(h.got) == ReadSum(calls, answers)
    ensures |h.delivered| == SinkSum(calls, answers, start.window.Sink?) && h.sources == Attached(calls)
  {
    RunConserves(start, NO_HISTORY, calls);
    ReturnsAccount(start, NO_HISTORY, calls);
    SourcesAreAttached(start, NO_HISTORY, calls);
    assert answers == Returns(start, calls);
  }

  /**
   * Make all the calls, in order, on a new ring of the given size; `answers` are the values
   * they returned.
   */
  method Replay(size: nat, calls: seq<Call>) returns (bio: Bio, h: History, answers: seq<int>)
    requires size > 0 && RunInDomain(Fifo(size, 0, [], Detached), calls)
    ensures bio.Valid() && (bio.View(), h) == Run(Fifo(size, 0, [], Detached), NO_HISTORY, calls)
    ensures Conserved(bio.View(), h)
    ensures h.accepted == h.delivered + bio.Pending()
    ensures h.sources == Attached(calls) && |answers| == |calls|
    ensures TotalLength(h.got) == ReadSum(calls, answers) && |h.delivered| == SinkSum(calls, answers, false)
  {
    bio := new Bio(size);
    h, answers := NO_HISTORY, [];
    ghost var start := bio.View();
    assert calls[0..] == calls;
    for i := 0 to |calls|
      invariant bio.Valid() && fresh(bio) && fresh(bio.ring) && (bio.buffer != null ==> fresh(bio.buffer))
      invariant Underway(start, calls, i, bio.View(), h, answers)
    {
      UnderwayNext(start, calls, i, bio.View(), h, answers);
      var ret: int;
      h, ret := Perform(bio, calls[i], h);
      answers := answers + [ret];
    }
    RunIsOver(start, calls, bio.View(), h, answers);
  }
}
