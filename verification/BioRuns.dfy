/** What holds over whole runs of the ByteBuffer BIO. */
module BioRuns {
  import opened Bytes
  import opened BioFifo

  // ---------------------------------------------------------------- conservation

  /**
   * No byte is lost, repeated or reordered: everything accepted from the engine is what
   * went to the sinks followed by what is pending. On the read side, what the engine got
   * from each buffer is a prefix of that buffer, and for the current one the rest is still there.
   */
  predicate Conserved(q: Fifo, h: History) {
    Recorded(q, h) && WritesConserved(q, h) && ReadsConserved(q, h)
  }

  predicate WritesConserved(q: Fifo, h: History) {
    h.accepted == h.delivered + q.pending
  }

  predicate ReadsConserved(q: Fifo, h: History)
    requires Recorded(q, h)
  {
    && (forall i :: 0 <= i < |h.got| ==> h.got[i] <= h.sources[i])
    && (q.window.Source? ==> h.got[|h.got| - 1] + q.window.rest == h.sources[|h.sources| - 1])
  }

  lemma FlushedSplits(q: Fifo)
    requires Inv(q) && q.window.Sink?
    ensures var f := Flushed(q); f.flushed + f.next.pending == q.pending && (f.next.window.room > 0 ==> f.next.pending == [])
  {
  }

  /** What one call adds to the accepted bytes and to the delivered ones keeps the books balanced. */
  lemma ApplyMovesBytes(q: Fifo, c: Call)
    requires Inv(q)
    ensures var e := Apply(q, c); q.pending + e.queued + e.passed == e.flushed + e.passed + e.next.pending
  {
    if q.window.Sink? {
      FlushedSplits(q);
    }
  }

  lemma RecordOfWriteSide(q: Fifo, h: History, c: Call)
    requires Inv(q) && Recorded(q, h)
    ensures var e := Apply(q, c);
            && Record(q, h, c).accepted == h.accepted + e.queued + e.passed
            && Record(q, h, c).delivered == h.delivered + e.flushed + e.passed
  {
  }

  lemma ApplyConservesWrites(q: Fifo, h: History, c: Call)
    requires Inv(q) && Recorded(q, h) && WritesConserved(q, h)
    ensures WritesConserved(Apply(q, c).next, Record(q, h, c))
  {
    ApplyMovesBytes(q, c);
    RecordOfWriteSide(q, h, c);
    var e := Apply(q, c);
    Regroup(h.delivered, q.pending, e.queued, e.passed);
    Regroup(h.delivered, e.flushed, e.passed, e.next.pending);
  }

  lemma Regroup(a: seq<byte>, b: seq<byte>, c: seq<byte>, d: seq<byte>)
    ensures a + b + c + d == a + (b + c + d)
  {
  }

  lemma ApplyConservesReads(q: Fifo, h: History, c: Call)
    requires Inv(q) && Recorded(q, h) && ReadsConserved(q, h)
    ensures ReadsConserved(Apply(q, c).next, Record(q, h, c))
  {
    var e := Apply(q, c);
    if e.got != [] {
      var k := |h.got| - 1;
      assert h.got[k] + e.got + e.next.window.rest == h.got[k] + q.window.rest;
    }
  }

  lemma {:induction false} RunConserves(q: Fifo, h: History, calls: seq<Call>)
    requires Inv(q) && Conserved(q, h)
    ensures Conserved(Run(q, h, calls).0, Run(q, h, calls).1)
    decreases |calls|
  {
    if calls != [] {
      ApplyKeepsInv(q, calls[0]);
      ApplyConservesWrites(q, h, calls[0]);
      ApplyConservesReads(q, h, calls[0]);
      RunConserves(Apply(q, calls[0]).next, Record(q, h, calls[0]), calls[1..]);
    }
  }

  /** A sink-mode write shrinks the sink by its return value; input is taken only behind the queue. */
  lemma SinkWriteAccounts(q: Fifo, input: seq<byte>)
    requires Inv(q) && q.window.Sink? && q.window.room > 0 && input != []
    ensures var e := Apply(q, Write(input));
            && e.next.window.Sink?
            && e.ret == q.window.room - e.next.window.room == |e.flushed| + |e.passed|
            && e.flushed + e.next.pending == q.pending
            && e.passed <= input && e.queued == []
            && (e.passed != [] ==> e.next.pending == [])
            && (e.next.window.room > 0 ==> e.passed == input)
  {
  }

  // ------------------------------------------------------------------ what the engine sees

  /** A write asks for a retry exactly when it has input and there is no room for any of it. */
  lemma WriteAnswers(q: Fifo, input: seq<byte>)
    requires Inv(q)
    ensures var e := Apply(q, Write(input));
            && (e.retry <==> e.ret == -1)
            && (e.ret == -1 <==> input != [] && if q.window.Sink? then q.window.room == 0 else |q.pending| == q.size)
            && (e.ret <= 0 ==> e.next == q && (e.ret == 0 <==> input == []))
            && (!q.window.Sink? && e.ret > 0 ==>
                  && e.ret == Min(q.size - |q.pending|, |input|)
                  && e.next == q.(pending := q.pending + input[..e.ret]))
            && (q.window.Sink? && e.ret > 0 ==>
                  e.ret == Min(q.window.room, |q.pending| + |input|) && e.next.window == Sink(q.window.room - e.ret))
  {
    if q.window.Sink? && q.window.room > 0 && input != [] {
      SinkWriteAccounts(q, input);
    }
  }

  /** A read asks for a retry exactly when it wants bytes and no attached buffer has any. */
  lemma ReadAnswers(q: Fifo, max: int)
    requires Inv(q)
    ensures var e := Apply(q, Read(max));
            && (e.retry <==> e.ret == -1)
            && (e.ret == -1 <==> max > 0 && (!q.window.Source? || q.window.rest == []))
            && (e.ret <= 0 ==> e.next == q && e.got == [] && (e.ret == 0 <==> max <= 0))
            && (e.ret > 0 ==>
                  && e.ret == Min(|q.window.rest|, max) && e.got == q.window.rest[..e.ret]
                  && e.next == q.(window := Source(q.window.rest[e.ret..])))
  {
  }

  function Gain(ret: int): nat {
    if ret > 0 then ret else 0
  }

  /** What the calls of a run return. */
  function Returns(q: Fifo, calls: seq<Call>): (r: seq<int>)
    requires Inv(q)
    ensures |r| == |calls|
    decreases |calls|
  {
    if calls == [] then []
    else
      ApplyKeepsInv(q, calls[0]);
      [Apply(q, calls[0]).ret] + Returns(Apply(q, calls[0]).next, calls[1..])
  }

  /** The sum of what the reads returned, a retry counting for nothing. */
  function ReadSum(calls: seq<Call>, answers: seq<int>): (n: nat)
    requires |calls| == |answers|
  {
    if calls == [] then 0
    else (if calls[0].Read? then Gain(answers[0]) else 0) + ReadSum(calls[1..], answers[1..])
  }

  /** Whether a sink is attached after the call. */
  predicate SinkAfter(sink: bool, c: Call) {
    c.AttachSink? || (sink && !c.AttachSource? && !c.Clear?)
  }

  /** The sum of what writes and flushes returned while a sink was attached. */
  function SinkSum(calls: seq<Call>, answers: seq<int>, sink: bool): (n: nat)
    requires |calls| == |answers|
  {
    if calls == [] then 0
    else
      (if sink && (calls[0].Write? || calls[0].Flush?) then Gain(answers[0]) else 0) +
      SinkSum(calls[1..], answers[1..], SinkAfter(sink, calls[0]))
  }

  function TotalLength(got: seq<seq<byte>>): (n: nat) {
    if got == [] then 0 else TotalLength(got[..|got| - 1]) + |got[|got| - 1]|
  }

  lemma RecordCounts(q: Fifo, h: History, c: Call)
    requires Inv(q) && Recorded(q, h)
    ensures var e, h' := Apply(q, c), Record(q, h, c);
            && e.next.window.Sink? == SinkAfter(q.window.Sink?, c)
            && TotalLength(h'.got) == TotalLength(h.got) + (if c.Read? then Gain(e.ret) else 0)
            && |h'.delivered| == |h.delivered| + (if q.window.Sink? && (c.Write? || c.Flush?) then Gain(e.ret) else 0)
  {
    var e, h' := Apply(q, c), Record(q, h, c);
    RecordOfWriteSide(q, h, c);
    if c.AttachSource? {
      assert h'.got[..|h.got|] == h.got;
    } else if e.got != [] {
      var k := |h.got| - 1;
      assert h'.got[..k] == h.got[..k] && h'.got[k] == h.got[k] + e.got;
    }
  }

  /**
   * Return values are honest over every run: the reads returned in sum as many bytes as the
   * engine got, and calls with a sink as many as the sinks received.
   */
  lemma {:induction false} ReturnsAccount(q: Fifo, h: History, calls: seq<Call>)
    requires Inv(q) && Recorded(q, h)
    ensures var h', answers := Run(q, h, calls).1, Returns(q, calls);
            && TotalLength(h'.got) == TotalLength(h.got) + ReadSum(calls, answers)
            && |h'.delivered| == |h.delivered| + SinkSum(calls, answers, q.window.Sink?)
    decreases |calls|
  {
    if calls != [] {
      ApplyKeepsInv(q, calls[0]);
      RecordCounts(q, h, calls[0]);
      ReturnsAccount(Apply(q, calls[0]).next, Record(q, h, calls[0]), calls[1..]);
      assert Returns(q, calls)[1..] == Returns(Apply(q, calls[0]).next, calls[1..]);
    }
  }

  /** The buffers a run attaches for reading. */
  function Attached(calls: seq<Call>): (r: seq<seq<byte>>) {
    if calls == [] then []
    else (if calls[0].AttachSource? then [calls[0].bytes] else []) + Attached(calls[1..])
  }

  lemma {:induction false} SourcesAreAttached(q: Fifo, h: History, calls: seq<Call>)
    requires Inv(q) && Recorded(q, h)
    ensures Run(q, h, calls).1.sources == h.sources + Attached(calls)
    decreases |calls|
  {
    if calls != [] {
      ApplyKeepsInv(q, calls[0]);
      SourcesAreAttached(Apply(q, calls[0]).next, Record(q, h, calls[0]), calls[1..]);
    }
  }

  // ------------------------------------------------------ the two directions are independent

  predicate WriteSideEqual(a: Fifo, b: Fifo) {
    && a.size == b.size && a.offset == b.offset && a.pending == b.pending
    && (a.window.Sink? || b.window.Sink? ==> a.window == b.window)
  }

  predicate ReadSideEqual(a: Fifo, b: Fifo) {
    a.window.Source? || b.window.Source? ==> a.window == b.window
  }

  predicate TouchesWriteSide(c: Call) { !c.Read? }

  predicate TouchesReadSide(c: Call) { !c.Write? && !c.Flush? }

  function Only(calls: seq<Call>, keep: Call -> bool): (r: seq<Call>) {
    if calls == [] then [] else (if keep(calls[0]) then [calls[0]] else []) + Only(calls[1..], keep)
  }

  predicate WriteLogsEqual(a: History, b: History) {
    a.accepted == b.accepted && a.delivered == b.delivered
  }

  lemma RecordKeepsRecorded(q: Fifo, h: History, c: Call)
    requires Inv(q) && Recorded(q, h)
    ensures Inv(Apply(q, c).next) && Recorded(Apply(q, c).next, Record(q, h, c))
  {
  }

  /** On the write side equal states make equal moves, and a read makes none. */
  lemma WriteSideStep(a: Fifo, b: Fifo, ha: History, hb: History, c: Call)
    requires Inv(a) && Inv(b) && Recorded(a, ha) && Recorded(b, hb)
    requires WriteSideEqual(a, b) && WriteLogsEqual(ha, hb)
    ensures c.Read? ==> WriteSideEqual(Apply(a, c).next, b) && WriteLogsEqual(Record(a, ha, c), hb)
    ensures !c.Read? ==> WriteSideEqual(Apply(a, c).next, Apply(b, c).next) && WriteLogsEqual(Record(a, ha, c), Record(b, hb, c))
  {
  }

  lemma ReadSideStep(a: Fifo, b: Fifo, c: Call)
    requires Inv(a) && Inv(b) && ReadSideEqual(a, b)
    ensures var ea, eb := Apply(a, c), Apply(b, c);
            && (TouchesReadSide(c) ==> ReadSideEqual(ea.next, eb.next) && ea.got == eb.got)
            && (!TouchesReadSide(c) ==> ReadSideEqual(ea.next, b) && ea.got == [])
  {
  }

  /** Dropping every read from a run changes nothing on the write side. */
  lemma {:induction false} ReadsAreInvisible(a: Fifo, b: Fifo, ha: History, hb: History, calls: seq<Call>)
    requires Inv(a) && Inv(b) && Recorded(a, ha) && Recorded(b, hb)
    requires WriteSideEqual(a, b) && WriteLogsEqual(ha, hb)
    ensures var ra := Run(a, ha, calls);
            var rb := Run(b, hb, Only(calls, TouchesWriteSide));
            WriteSideEqual(ra.0, rb.0) && WriteLogsEqual(ra.1, rb.1)
    decreases |calls|
  {
    if calls != [] {
      var c, tail := calls[0], calls[1..];
      WriteSideStep(a, b, ha, hb, c);
      RecordKeepsRecorded(a, ha, c);
      RecordKeepsRecorded(b, hb, c);
      var a', ha' := Apply(a, c).next, Record(a, ha, c);
      var b', hb' := Apply(b, c).next, Record(b, hb, c);
      var kept := Only(calls, TouchesWriteSide);
      assert Run(a, ha, calls) == Run(a', ha', tail);
      if c.Read? {
        assert kept == Only(tail, TouchesWriteSide);
        ReadsAreInvisible(a', b, ha', hb, tail);
      } else {
        assert kept[0] == c && kept[1..] == Only(tail, TouchesWriteSide);
        ReadsAreInvisible(a', b', ha', hb', tail);
        assert Run(b, hb, kept) == Run(b', hb', kept[1..]);
      }
    }
  }

  /** Dropping every write and flush from a run changes nothing the engine reads. */
  lemma {:induction false} WritesAreInvisible(a: Fifo, b: Fifo, ha: History, hb: History, calls: seq<Call>)
    requires Inv(a) && Inv(b) && Recorded(a, ha) && Recorded(b, hb) && ReadSideEqual(a, b)
    requires ha.sources == hb.sources && ha.got == hb.got
    ensures var ra := Run(a, ha, calls);
            var rb := Run(b, hb, Only(calls, TouchesReadSide));
            ReadSideEqual(ra.0, rb.0) && ra.1.sources == rb.1.sources && ra.1.got == rb.1.got
    decreases |calls|
  {
    if calls != [] {
      var c := calls[0];
      ApplyKeepsInv(a, c);
      ApplyKeepsInv(b, c);
      ReadSideStep(a, b, c);
      var a', ha' := Apply(a, c).next, Record(a, ha, c);
      var rest := Only(calls[1..], TouchesReadSide);
      if TouchesReadSide(c) {
        assert Only(calls, TouchesReadSide)[1..] == rest;
        WritesAreInvisible(a', Apply(b, c).next, ha', Record(b, hb, c), calls[1..]);
      } else {
        assert Only(calls, TouchesReadSide) == rest;
        WritesAreInvisible(a', b, ha', hb, calls[1..]);
      }
    }
  }

  // ------------------------------------------------------------------------ draining

  function Total(rooms: seq<nat>): (r: nat) {
    if rooms == [] then 0 else rooms[0] + Total(rooms[1..])
  }

  /** Attach a sink of each size in turn and flush into it. */
  function DrainCalls(rooms: seq<nat>): (r: seq<Call>) {
    if rooms == [] then [] else [AttachSink(rooms[0]), Flush] + DrainCalls(rooms[1..])
  }

  lemma DrainStep(q: Fifo, h: History, room: nat, calls: seq<Call>)
    requires Inv(q) && Recorded(q, h)
    ensures var n := Min(room, |q.pending|);
            var q' := Fifo(q.size, Advance(q, n), q.pending[n..], Sink(room - n));
            var h' := h.(delivered := h.delivered + q.pending[..n]);
            && Inv(q') && Recorded(q', h')
            && Run(q, h, [AttachSink(room), Flush] + calls) == Run(q', h', calls)
  {
    var n := Min(room, |q.pending|);
    var all := [AttachSink(room), Flush] + calls;
    var q1 := Apply(q, AttachSink(room)).next;
    var h1 := Record(q, h, AttachSink(room));
    assert h1 == h by { assert h.delivered + [] + [] == h.delivered && h.accepted + [] + [] == h.accepted; }
    var q2 := Apply(q1, Flush).next;
    var h2 := Record(q1, h1, Flush);
    assert all[1..][1..] == calls;
    assert q2 == Fifo(q.size, Advance(q, n), q.pending[n..], Sink(room - n)) by {
      if q.pending == [] {
        assert q.pending[n..] == [];
      }
    }
    assert h2 == h.(delivered := h.delivered + q.pending[..n]) by {
      assert h.accepted + [] + [] == h.accepted;
      assert h.delivered + q.pending[..n] + [] == h.delivered + q.pending[..n];
    }
    assert Run(q, h, all) == Run(q1, h1, all[1..]);
    assert Run(q1, h1, all[1..]) == Run(q2, h2, all[1..][1..]);
  }

  /** One sink after the other, without the calls that attach them. */
  function Drained(q: Fifo, h: History, rooms: seq<nat>): (r: (Fifo, History))
    requires Inv(q)
    decreases |rooms|
  {
    if rooms == [] then (q, h)
    else
      var n := Min(rooms[0], |q.pending|);
      Drained(Fifo(q.size, Advance(q, n), q.pending[n..], Sink(rooms[0] - n)),
              h.(delivered := h.delivered + q.pending[..n]), rooms[1..])
  }

  lemma {:induction false} DrainRuns(q: Fifo, h: History, rooms: seq<nat>)
    requires Inv(q) && Recorded(q, h)
    ensures Run(q, h, DrainCalls(rooms)) == Drained(q, h, rooms)
    decreases |rooms|
  {
    if rooms != [] {
      DrainStep(q, h, rooms[0], DrainCalls(rooms[1..]));
      var n := Min(rooms[0], |q.pending|);
      DrainRuns(Fifo(q.size, Advance(q, n), q.pending[n..], Sink(rooms[0] - n)),
                h.(delivered := h.delivered + q.pending[..n]), rooms[1..]);
    }
  }

  lemma {:induction false} DrainedBytes(q: Fifo, h: History, rooms: seq<nat>)
    requires Inv(q)
    ensures var r := Drained(q, h, rooms);
            var n := Min(Total(rooms), |q.pending|);
            && r.0.pending == q.pending[n..]
            && r.1.delivered == h.delivered + q.pending[..n]
            && r.1.accepted == h.accepted
    decreases |rooms|
  {
    if rooms == [] {
      assert q.pending[0..] == q.pending && h.delivered + q.pending[..0] == h.delivered;
    } else {
      var m := Min(rooms[0], |q.pending|);
      var q' := Fifo(q.size, Advance(q, m), q.pending[m..], Sink(rooms[0] - m));
      DrainedBytes(q', h.(delivered := h.delivered + q.pending[..m]), rooms[1..]);
      TakeTwice(h.delivered, q.pending, m, Min(Total(rooms[1..]), |q'.pending|));
    }
  }

  /** How the sinks are cut does not matter: their total size alone decides what they receive. */
  lemma DrainIgnoresChunking(q: Fifo, h: History, rooms: seq<nat>)
    requires Inv(q) && Recorded(q, h)
    ensures var r := Run(q, h, DrainCalls(rooms));
            var n := Min(Total(rooms), |q.pending|);
            && r.0.pending == q.pending[n..]
            && r.1.delivered == h.delivered + q.pending[..n]
            && r.1.accepted == h.accepted
  {
    DrainRuns(q, h, rooms);
    DrainedBytes(q, h, rooms);
  }

  lemma TakeTwice(before: seq<byte>, p: seq<byte>, m: nat, k: nat)
    requires m + k <= |p|
    ensures p[m..][k..] == p[m + k..]
    ensures before + p[..m] + p[m..][..k] == before + p[..m + k]
  {
  }

  /** Each flush into a sink with room leaves strictly less; `length` such flushes leave nothing. */
  lemma DrainEmpties(q: Fifo, h: History, rooms: seq<nat>)
    requires Inv(q) && Recorded(q, h)
    requires forall i :: 0 <= i < |rooms| ==> rooms[i] > 0
    ensures rooms != [] && q.pending != [] ==> |Run(q, h, DrainCalls(rooms[..1])).0.pending| < |q.pending|
    ensures |rooms| >= |q.pending| ==>
              var r := Run(q, h, DrainCalls(rooms));
              r.0.pending == [] && r.0.offset == 0 && r.1.delivered == h.delivered + q.pending
  {
    TotalAtLeastCount(rooms);
    DrainIgnoresChunking(q, h, rooms);
    if rooms != [] {
      TotalAtLeastCount(rooms[..1]);
      DrainIgnoresChunking(q, h, rooms[..1]);
    }
    if |rooms| >= |q.pending| {
      assert q.pending[..|q.pending|] == q.pending;
    }
  }

  lemma {:induction false} TotalAtLeastCount(rooms: seq<nat>)
    requires forall i :: 0 <= i < |rooms| ==> rooms[i] > 0
    ensures Total(rooms) >= |rooms|
  {
    if rooms != [] {
      TotalAtLeastCount(rooms[1..]);
    }
  }

  // ------------------------------------------------------------- the queueing domain

  /** Every flush of the run finds a sink with room for the whole queue. */
  predicate FullyDraining(q: Fifo, calls: seq<Call>)
    requires Inv(q)
    decreases |calls|
  {
    calls == [] ||
    ((q.window.Sink? && (calls[0].Flush? || calls[0].Write?) ==> |q.pending| <= q.window.room) &&
     (ApplyKeepsInv(q, calls[0]);
      FullyDraining(Apply(q, calls[0]).next, calls[1..])))
  }

  /** Such a run never leaves the domain of the queueing write, whatever else it does. */
  lemma {:induction false} FullDrainsStayInDomain(q: Fifo, h: History, calls: seq<Call>)
    requires Inv(q) && Recorded(q, h) && q.offset == 0 && FullyDraining(q, calls)
    ensures RunInDomain(q, calls) && Run(q, h, calls).0.offset == 0
    decreases |calls|
  {
    if calls != [] {
      ApplyKeepsInv(q, calls[0]);
      FullDrainsStayInDomain(Apply(q, calls[0]).next, Record(q, h, calls[0]), calls[1..]);
    }
  }

  /**
   * The two copies of a queueing write (ssl.c:199-212): `first` bytes at `start`, then
   * `second` bytes at the beginning of the ring.
   */
  datatype CopyPlan = CopyPlan(start: int, first: int, second: int)

  function QueuePlan(size: nat, offset: nat, length: nat, count: nat): CopyPlan {
    var amount := Min(size - length, count);
    var start := offset + length;
    var chunk := size - start;
    if amount > chunk then CopyPlan(start, chunk, amount - chunk) else CopyPlan(start, amount, 0)
  }

  /** The plan fits: copies of non-negative length inside the ring that miss every pending byte. */
  ghost predicate PlanFits(q: Fifo, p: CopyPlan) {
    && 0 <= p.first && 0 <= p.second && 0 <= p.start && p.start + p.first <= q.size && p.second <= q.size
    && forall i :: 0 <= i < |q.pending| ==>
         var cell := CellOf(q, i); !(p.start <= cell < p.start + p.first) && !(0 <= cell < p.second)
  }

  function CellOf(q: Fifo, i: nat): int {
    if q.offset + i < q.size then q.offset + i else q.offset + i - q.size
  }

  /** A queueing write with room and input works exactly when the ring has not wrapped. */
  lemma QueueDomainIsExact(q: Fifo, input: seq<byte>)
    requires Inv(q) && input != [] && !q.window.Sink? && |q.pending| < q.size
    ensures PlanFits(q, QueuePlan(q.size, q.offset, |q.pending|, |input|)) <==> InDomain(q, Write(input))
  {
  }

  /** Five calls on a ring of four bytes, each in the domain, leave a ring that has wrapped. */
  lemma WrappedRingIsReachable(x: byte)
    ensures var q0 := Fifo(4, 0, [], Detached);
            var q1 := Apply(q0, Write([x, x, x])).next;
            var q2 := Apply(q1, AttachSink(2)).next;
            var q3 := Apply(q2, Flush).next;
            var q4 := Apply(q3, Clear).next;
            var q5 := Apply(q4, Write([x, x])).next;
            && InDomain(q0, Write([x, x, x])) && InDomain(q4, Write([x, x]))
            && q5.offset == 2 && |q5.pending| == 3 && !InDomain(q5, Write([x]))
  {
  }
}
