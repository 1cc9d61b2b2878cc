/**
 * The ByteBuffer BIO of ssl.c seen from outside: one FIFO of queued bytes in front of a
 * Java buffer that is swapped for every operation. The ring itself, with its wrap-around
 * copies, is in ByteBufferBio and refines this machine.
 *
 * The offset of the ring is kept here because it alone decides whether a queueing write
 * is within the domain the ring code is written for.
 */
module BioFifo {
  import opened Bytes

  /** The Java buffer: none, bytes still to be read by the engine, or room to be written. */
  datatype Window = Detached | Source(rest: seq<byte>) | Sink(room: nat)

  datatype Fifo = Fifo(size: nat, offset: nat, pending: seq<byte>, window: Window)

  datatype Call =
    | Write(input: seq<byte>)
    | Read(max: int)
    | AttachSource(bytes: seq<byte>)
    | AttachSink(room: nat)
    | Clear
    | Flush

  /**
   * What one call did. `flushed` are queued bytes moved to the sink, `queued` input bytes
   * put in the queue, `passed` input bytes written straight to the sink, `got` bytes handed
   * to the reader. `ret` and `retry` are what the engine sees.
   */
  datatype Effect = Effect(next: Fifo, ret: int, retry: bool,
                           flushed: seq<byte>, queued: seq<byte>, passed: seq<byte>, got: seq<byte>)

  predicate Inv(q: Fifo) {
    && 0 < q.size
    && q.offset <= q.size
    && |q.pending| <= q.size
    && (q.pending == [] ==> q.offset == 0)
  }

  /** Where the first pending byte lives once n of them have left. */
  function Advance(q: Fifo, n: nat): (o: int)
    requires n <= |q.pending|
  {
    if n == |q.pending| then 0
    else if n > q.size - q.offset then n - (q.size - q.offset)
    else q.offset + n
  }

  function Nothing(q: Fifo, ret: int, retry: bool): Effect {
    Effect(q, ret, retry, [], [], [], [])
  }

  function Flushed(q: Fifo): (r: Effect)
    requires Inv(q) && q.window.Sink?
  {
    var n := Min(q.window.room, |q.pending|);
    Effect(Fifo(q.size, Advance(q, n), q.pending[n..], Sink(q.window.room - n)), n, false, q.pending[..n], [], [], [])
  }

  function Written(q: Fifo, input: seq<byte>): (r: Effect)
    requires Inv(q)
  {
    if input == [] then
      Nothing(q, 0, false)
    else if !q.window.Sink? then
      if |q.pending| == q.size then
        Nothing(q, -1, true)
      else
        var n := Min(q.size - |q.pending|, |input|);
        Effect(q.(pending := q.pending + input[..n]), n, false, [], input[..n], [], [])
    else if q.window.room == 0 then
      Nothing(q, -1, true)
    else
      var f := Flushed(q);
      var n := Min(f.next.window.room, |input|);
      Effect(f.next.(window := Sink(f.next.window.room - n)), |f.flushed| + n, false, f.flushed, [], input[..n], [])
  }

  function Fetched(q: Fifo, max: int): (r: Effect) {
    if max <= 0 then
      Nothing(q, 0, false)
    else if !q.window.Source? || q.window.rest == [] then
      Nothing(q, -1, true)
    else
      var n := Min(|q.window.rest|, max);
      Effect(q.(window := Source(q.window.rest[n..])), n, false, [], [], [], q.window.rest[..n])
  }

  function Apply(q: Fifo, c: Call): (r: Effect)
    requires Inv(q)
  {
    match c
    case Write(input) => Written(q, input)
    case Read(max) => Fetched(q, max)
    case AttachSource(bytes) => Nothing(q.(window := Source(bytes)), 0, false)
    case AttachSink(room) => Nothing(q.(window := Sink(room)), 0, false)
    case Clear => Nothing(q.(window := Detached), 0, false)
    case Flush => if q.pending == [] || !q.window.Sink? then Nothing(q, 0, false) else Flushed(q)
  }

  /** The calls the ring code is written for: it queues only into a ring that has not wrapped. */
  predicate InDomain(q: Fifo, c: Call) {
    c.Write? && c.input != [] && !q.window.Sink? && |q.pending| < q.size ==> q.offset + |q.pending| <= q.size
  }

  /**
   * What a run has seen: bytes accepted from the engine, bytes delivered to sinks, every
   * read buffer attached, and for each of them the bytes the engine got from it.
   */
  datatype History = History(accepted: seq<byte>, delivered: seq<byte>,
                             sources: seq<seq<byte>>, got: seq<seq<byte>>)

  const NO_HISTORY := History([], [], [], [])

  predicate Recorded(q: Fifo, h: History) {
    && |h.sources| == |h.got|
    && (q.window.Source? ==> h.sources != [])
  }

  function Record(q: Fifo, h: History, c: Call): (r: History)
    requires Inv(q) && Recorded(q, h)
  {
    var e := Apply(q, c);
    var h' := h.(accepted := h.accepted + e.queued + e.passed, delivered := h.delivered + e.flushed + e.passed);
    if c.AttachSource? then
      h'.(sources := h.sources + [c.bytes], got := h.got + [[]])
    else if e.got != [] then
      var k := |h.got| - 1;
      h'.(got := h.got[k := h.got[k] + e.got])
    else
      h'
  }

  lemma ApplyKeepsInv(q: Fifo, c: Call)
    requires Inv(q)
    ensures Inv(Apply(q, c).next) && Apply(q, c).next.size == q.size
  {
  }

  /** The state and the history after a whole run. */
  function Run(q: Fifo, h: History, calls: seq<Call>): (r: (Fifo, History))
    requires Inv(q) && Recorded(q, h)
    ensures Inv(r.0) && Recorded(r.0, r.1) && r.0.size == q.size
    decreases |calls|
  {
    if calls == [] then (q, h)
    else
      ApplyKeepsInv(q, calls[0]);
      Run(Apply(q, calls[0]).next, Record(q, h, calls[0]), calls[1..])
  }

  predicate RunInDomain(q: Fifo, calls: seq<Call>)
    requires Inv(q)
    decreases |calls|
  {
    calls == [] ||
    (InDomain(q, calls[0]) &&
     (ApplyKeepsInv(q, calls[0]);
      RunInDomain(Apply(q, calls[0]).next, calls[1..])))
  }
}
