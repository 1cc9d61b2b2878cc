/**
 * Ticket callbacks and key installs on many threads at once. Taking the rwlock, every test of
 * the length, every comparison of a name, every byte of the copy, the release, the counter
 * and each store of an install are separate steps that interleave freely. Each of them goes
 * through the shared fields again; memory is a heap of key blocks that installs free.
 */
module TicketLock {
  import opened Bytes
  import opened TicketKeys

  type Tid = nat
  type Block = nat

  const WRAP := 0x1_0000_0000

  /** A finished callback: what was asked and found, and the install counts at lock and at unlock. */
  datatype Answer = Answer(query: Query, found: Option<Hit>, since: nat, until: nat, random: bool)

  datatype Pc =
    | Idle
    // the read lock is held ...
    | Testing(query: Query, i: nat, since: nat)                      // about to compare i with the length
    | Comparing(query: Query, i: nat, since: nat)                    // about to compare the name of key i
    | Copying(query: Query, i: nat, since: nat, copied: seq<byte>)   // copying key i, byte by byte
    | Holding(query: Query, found: Option<Hit>, since: nat)          // loop left
    // ... and was released
    | Counting(answer: Answer)   // counter not yet moved
    | Ready(block: Block)        // keys parsed into a new block
    // the write lock is held
    | Locked(block: Block)       // nothing stored yet
    | Freed(block: Block)        // old block freed
    | Sized(block: Block)        // length stored
    | Swapped                    // pointer stored

  /** The four apr_uint32_t counters. */
  datatype Counters = Counters(created: nat, resumed: nat, renewed: nat, failed: nat)

  /** `log` holds every list ever installed, oldest first; `fault` records a bad memory access. */
  datatype State = State(
    readers: set<Tid>, writer: Option<Tid>,
    len: nat, ptr: Option<Block>, heap: map<Block, seq<TicketKey>>, nextBlock: Block,
    pcs: map<Tid, Pc>, counters: Counters,
    log: seq<seq<TicketKey>>, answers: seq<Answer>, fault: bool)

  const INITIAL := State({}, None, 0, None, map[], 0, map[], Counters(0, 0, 0, 0), [[]], [], false)

  datatype Event =
    | LockRead(t: Tid, query: Query)
    | Test(t: Tid)
    | Compare(t: Tid)
    | Copy(t: Tid)
    | UnlockRead(t: Tid, random: bool)
    | Count(t: Tid)
    | Prepare(t: Tid, keys: seq<TicketKey>)
    | LockWrite(t: Tid)
    | FreeOld(t: Tid)
    | SetLen(t: Tid)
    | SetPtr(t: Tid)
    | UnlockWrite(t: Tid)

  function PcOf(s: State, t: Tid): Pc {
    if t in s.pcs then s.pcs[t] else Idle
  }

  function Version(s: State): int {
    |s.log| - 1
  }

  predicate Enabled(s: State, e: Event) {
    match e
    case LockRead(t, _) => PcOf(s, t) == Idle && s.writer == None
    case Test(t) => PcOf(s, t).Testing?
    case Compare(t) => PcOf(s, t).Comparing?
    case Copy(t) => PcOf(s, t).Copying?
    case UnlockRead(t, _) => PcOf(s, t).Holding?
    case Count(t) => PcOf(s, t).Counting?
    case Prepare(t, _) => PcOf(s, t) == Idle
    case LockWrite(t) => PcOf(s, t).Ready? && s.writer == None && s.readers == {}
    case FreeOld(t) => PcOf(s, t).Locked?
    case SetLen(t) => PcOf(s, t).Freed?
    case SetPtr(t) => PcOf(s, t).Sized?
    case UnlockWrite(t) => PcOf(s, t) == Swapped
  }

  /** ticket_keys[i] read through the shared pointer. */
  function Load(s: State, i: nat): Option<TicketKey> {
    if s.ptr.Some? && s.ptr.value in s.heap && i < |s.heap[s.ptr.value]| then Some(s.heap[s.ptr.value][i]) else None
  }

  function Bump(c: nat): nat { (c + 1) % WRAP }

  function Counted(c: Counters, a: Answer): Counters {
    match a.query
    case Issue => if a.found.Some? && a.random then c.(created := Bump(c.created)) else c
    case Resume(_) =>
      if a.found == None then c.(failed := Bump(c.failed))
      else if a.found.value.current then c.(resumed := Bump(c.resumed))
      else c.(renewed := Bump(c.renewed))
  }

  function At(s: State, t: Tid, pc: Pc): State {
    s.(pcs := s.pcs[t := pc])
  }

  /** One byte of the copy; with the last one the callback has its key. */
  function CopyByte(s: State, t: Tid, key: TicketKey): State
    requires PcOf(s, t).Copying?
  {
    var pc := PcOf(s, t);
    if |pc.copied| >= TICKET_KEY_SIZE then s.(fault := true)
    else
      var copied := pc.copied + [Encode(key)[|pc.copied|]];
      At(s, t, if |copied| == TICKET_KEY_SIZE then Holding(pc.query, Some(Hit(Decode(copied), pc.i == 0)), pc.since)
               else Copying(pc.query, pc.i, pc.since, copied))
  }

  function Step(s: State, e: Event): State
    requires Enabled(s, e)
  {
    match e
    case LockRead(t, q) =>
      At(s, t, Testing(q, 0, if |s.log| > 0 then Version(s) else 0)).(readers := s.readers + {t})
    case Test(t) =>
      var pc := PcOf(s, t);
      At(s, t, if pc.i >= s.len then Holding(pc.query, None, pc.since)
               else if pc.query.Issue? then Copying(pc.query, pc.i, pc.since, [])
               else Comparing(pc.query, pc.i, pc.since))
    case Compare(t) =>
      var pc := PcOf(s, t);
      (match Load(s, pc.i)
       case None => s.(fault := true)
       case Some(key) =>
         At(s, t, if Matches(pc.query, key) then Copying(pc.query, pc.i, pc.since, [])
                  else Testing(pc.query, pc.i + 1, pc.since)))
    case Copy(t) =>
      var pc := PcOf(s, t);
      (match Load(s, pc.i)
       case None => s.(fault := true)
       case Some(key) => CopyByte(s, t, key))
    case UnlockRead(t, random) =>
      var pc := PcOf(s, t);
      At(s, t, Counting(Answer(pc.query, pc.found, pc.since, if |s.log| > 0 then Version(s) else 0, random)))
      .(readers := s.readers - {t})
    case Count(t) =>
      var a := PcOf(s, t).answer;
      At(s, t, Idle).(counters := Counted(s.counters, a), answers := s.answers + [a])
    case Prepare(t, keys) =>
      At(s, t, Ready(s.nextBlock)).(heap := s.heap[s.nextBlock := keys], nextBlock := s.nextBlock + 1)
    case LockWrite(t) =>
      At(s, t, Locked(PcOf(s, t).block)).(writer := Some(t))
    case FreeOld(t) =>
      var s' := At(s, t, Freed(PcOf(s, t).block));
      if s.ptr == None then s'
      else if s.ptr.value in s.heap then s'.(heap := s.heap - {s.ptr.value})
      else s'.(fault := true)
    case SetLen(t) =>
      var b := PcOf(s, t).block;
      if b in s.heap then At(s, t, Sized(b)).(len := |s.heap[b]|) else s.(fault := true)
    case SetPtr(t) =>
      var b := PcOf(s, t).block;
      if b in s.heap then At(s, t, Swapped).(ptr := Some(b), log := s.log + [s.heap[b]]) else s.(fault := true)
    case UnlockWrite(t) =>
      At(s, t, Idle).(writer := None)
  }

  // ------------------------------------------------------------------------ invariants

  predicate HoldsRead(pc: Pc) { pc.Testing? || pc.Comparing? || pc.Copying? || pc.Holding? }

  predicate HoldsWrite(pc: Pc) { pc.Locked? || pc.Freed? || pc.Sized? || pc.Swapped? }

  predicate HasBlock(pc: Pc) { pc.Ready? || pc.Locked? || pc.Freed? || pc.Sized? }

  ghost predicate LockInv(s: State) {
    && (forall t: Tid :: t in s.readers <==> HoldsRead(PcOf(s, t)))
    && (forall t: Tid :: s.writer == Some(t) <==> HoldsWrite(PcOf(s, t)))
    && (s.writer.Some? ==> s.readers == {})
  }

  /** The shared fields show one whole list: the last one installed. */
  predicate Shows(s: State) {
    && s.log != [] && s.len == |s.log[Version(s)]|
    && match s.ptr
       case None => s.log[Version(s)] == []
       case Some(b) => b in s.heap && s.heap[b] == s.log[Version(s)]
  }

  /** Blocks being installed are live, belong to one thread each and are not yet shared. */
  ghost predicate BlockInv(s: State) {
    && (forall t: Tid :: HasBlock(PcOf(s, t)) ==> PcOf(s, t).block in s.heap && s.ptr != Some(PcOf(s, t).block))
    && (forall t: Tid, u: Tid :: HasBlock(PcOf(s, t)) && HasBlock(PcOf(s, u)) && t != u ==> PcOf(s, t).block != PcOf(s, u).block)
    && (forall b :: b in s.heap ==> b < s.nextBlock)
    && (s.ptr.Some? ==> s.ptr.value < s.nextBlock)
  }

  /** Only an install that holds the write lock ever has the fields in between. */
  ghost predicate FieldInv(s: State) {
    && s.log != []
    && (s.writer == None ==> Shows(s))
    && (s.writer.Some? ==>
          var pc := PcOf(s, s.writer.value);
          && (pc.Locked? || pc.Swapped? ==> Shows(s))
          && (pc.Sized? ==> pc.block in s.heap && s.len == |s.heap[pc.block]|))
  }

  predicate OwnsBlock(s: State, t: Tid, b: Block) {
    HasBlock(PcOf(s, t)) && PcOf(s, t).block == b
  }

  /** No block is lost: each is the shared one or some thread's, and a freed one is off the heap. */
  ghost predicate LeakInv(s: State) {
    && (forall b :: b in s.heap ==> s.ptr == Some(b) || exists t: Tid :: OwnsBlock(s, t, b))
    && (forall t: Tid :: (PcOf(s, t).Freed? || PcOf(s, t).Sized?) && s.ptr.Some? ==> s.ptr.value !in s.heap)
  }

  ghost predicate Honest(s: State, a: Answer) {
    a.since == a.until < |s.log| && Answers(s.log[a.since], a.query, a.found)
  }

  /** The scan has passed the first i keys of the installed list without a match. */
  ghost predicate Scanned(s: State, q: Query, i: nat, since: nat)
    requires s.log != []
  {
    && since == Version(s) && i <= |s.log[Version(s)]|
    && forall j :: 0 <= j < i ==> !Matches(q, s.log[Version(s)][j])
  }

  ghost predicate PcInv(s: State, pc: Pc)
    requires s.log != []
  {
    match pc
    case Testing(q, i, since) => Scanned(s, q, i, since) && (q.Issue? ==> i == 0)
    case Comparing(q, i, since) => Scanned(s, q, i, since) && i < |s.log[Version(s)]|
    case Copying(q, i, since, copied) =>
      && Scanned(s, q, i, since) && i < |s.log[Version(s)]| && Matches(q, s.log[Version(s)][i])
      && |copied| < TICKET_KEY_SIZE && copied == Encode(s.log[Version(s)][i])[..|copied|]
    case Holding(q, found, since) => since == Version(s) && Answers(s.log[Version(s)], q, found)
    case Counting(a) => Honest(s, a)
    case _ => true
  }

  ghost predicate ReadInv(s: State) {
    && s.log != []
    && (forall t: Tid :: PcInv(s, PcOf(s, t)))
    && (forall i :: 0 <= i < |s.answers| ==> Honest(s, s.answers[i]))
  }

  function Tally(answers: seq<Answer>): Counters {
    if answers == [] then Counters(0, 0, 0, 0)
    else Counted(Tally(answers[..|answers| - 1]), answers[|answers| - 1])
  }

  ghost predicate Inv(s: State) {
    LockInv(s) && BlockInv(s) && LeakInv(s) && FieldInv(s) && ReadInv(s) && !s.fault && s.counters == Tally(s.answers)
  }

  /** A step moves one thread; the others stay where they were. */
  lemma OneThreadMoves(s: State, e: Event, t: Tid)
    requires Enabled(s, e) && t != e.t
    ensures PcOf(Step(s, e), t) == PcOf(s, t)
  {
  }

  /** A reader sees a whole list: no install is between its stores. */
  lemma ReaderSeesList(s: State, t: Tid)
    requires LockInv(s) && FieldInv(s) && ReadInv(s) && HoldsRead(PcOf(s, t))
    ensures t in s.readers && s.writer == None && Shows(s) && PcInv(s, PcOf(s, t))
  {
  }

  lemma StepKeepsOwnReadLock(s: State, e: Event)
    requires LockInv(s) && Enabled(s, e)
    ensures e.t in Step(s, e).readers <==> HoldsRead(PcOf(Step(s, e), e.t))
  {
    assert e.t in s.readers <==> HoldsRead(PcOf(s, e.t));
  }

  lemma StepKeepsOwnWriteLock(s: State, e: Event)
    requires LockInv(s) && Enabled(s, e)
    ensures Step(s, e).writer == Some(e.t) <==> HoldsWrite(PcOf(Step(s, e), e.t))
  {
    assert s.writer == Some(e.t) <==> HoldsWrite(PcOf(s, e.t));
  }

  lemma StepKeepsOtherLock(s: State, e: Event, t: Tid)
    requires LockInv(s) && Enabled(s, e) && t != e.t
    ensures t in Step(s, e).readers <==> HoldsRead(PcOf(Step(s, e), t))
    ensures Step(s, e).writer == Some(t) <==> HoldsWrite(PcOf(Step(s, e), t))
  {
    assert t in s.readers <==> HoldsRead(PcOf(s, t));
    assert s.writer == Some(t) <==> HoldsWrite(PcOf(s, t));
    assert s.writer == Some(e.t) <==> HoldsWrite(PcOf(s, e.t));
    OneThreadMoves(s, e, t);
  }

  lemma StepKeepsLocks(s: State, e: Event)
    requires LockInv(s) && Enabled(s, e)
    ensures LockInv(Step(s, e))
  {
    forall t: Tid
      ensures t in Step(s, e).readers <==> HoldsRead(PcOf(Step(s, e), t))
      ensures Step(s, e).writer == Some(t) <==> HoldsWrite(PcOf(Step(s, e), t))
    {
      if t == e.t {
        StepKeepsOwnReadLock(s, e);
        StepKeepsOwnWriteLock(s, e);
      } else {
        StepKeepsOtherLock(s, e, t);
      }
    }
  }

  lemma StepKeepsBlockOf(s: State, e: Event, t: Tid)
    requires BlockInv(s) && Enabled(s, e) && HasBlock(PcOf(Step(s, e), t))
    ensures PcOf(Step(s, e), t).block in Step(s, e).heap && Step(s, e).ptr != Some(PcOf(Step(s, e), t).block)
    ensures e.Prepare? && t == e.t ==> PcOf(Step(s, e), t).block == s.nextBlock
    ensures !(e.Prepare? && t == e.t) ==>
              HasBlock(PcOf(s, t)) && PcOf(s, t).block in s.heap && PcOf(Step(s, e), t).block == PcOf(s, t).block
  {
    assert HasBlock(PcOf(s, t)) ==> PcOf(s, t).block in s.heap && s.ptr != Some(PcOf(s, t).block);
    if t != e.t {
      OneThreadMoves(s, e, t);
      if e.SetPtr? {
        assert HasBlock(PcOf(s, e.t)) && PcOf(s, e.t).block != PcOf(s, t).block;
      }
    }
  }

  lemma StepKeepsBlocks(s: State, e: Event)
    requires BlockInv(s) && Enabled(s, e)
    ensures BlockInv(Step(s, e))
  {
    var s' := Step(s, e);
    forall t: Tid | HasBlock(PcOf(s', t))
      ensures PcOf(s', t).block in s'.heap && s'.ptr != Some(PcOf(s', t).block)
    {
      StepKeepsBlockOf(s, e, t);
    }
    forall t: Tid, u: Tid | HasBlock(PcOf(s', t)) && HasBlock(PcOf(s', u)) && t != u
      ensures PcOf(s', t).block != PcOf(s', u).block
    {
      StepKeepsBlockOf(s, e, t);
      StepKeepsBlockOf(s, e, u);
    }
    assert HasBlock(PcOf(s, e.t)) ==> PcOf(s, e.t).block in s.heap;
  }

  /** What a step does to memory and to the shared pointer. */
  lemma MemoryFrame(s: State, e: Event)
    requires Enabled(s, e)
    ensures e.Prepare? ==> Step(s, e).heap.Keys == s.heap.Keys + {s.nextBlock}
    ensures e.FreeOld? ==> Step(s, e).heap.Keys == s.heap.Keys - (if s.ptr.Some? then {s.ptr.value} else {})
    ensures !e.Prepare? && !e.FreeOld? ==> Step(s, e).heap == s.heap
    ensures !e.SetPtr? ==> Step(s, e).ptr == s.ptr
  {
  }

  /** A thread keeps its block until it becomes the shared one. */
  lemma OwnBlockMoves(s: State, e: Event)
    requires Enabled(s, e) && HasBlock(PcOf(s, e.t))
    ensures Step(s, e).ptr == Some(PcOf(s, e.t).block) || OwnsBlock(Step(s, e), e.t, PcOf(s, e.t).block)
  {
  }

  lemma StepLosesNoBlock(s: State, e: Event, b: Block)
    requires BlockInv(s) && LeakInv(s) && Enabled(s, e) && b in Step(s, e).heap
    ensures Step(s, e).ptr == Some(b) || exists t: Tid :: OwnsBlock(Step(s, e), t, b)
  {
    MemoryFrame(s, e);
    if b !in s.heap {
      assert OwnsBlock(Step(s, e), e.t, b);
    } else if s.ptr == Some(b) {
      assert (PcOf(s, e.t).Freed? || PcOf(s, e.t).Sized?) ==> b !in s.heap;
    } else {
      var t: Tid :| OwnsBlock(s, t, b);
      if t != e.t {
        OneThreadMoves(s, e, t);
        assert OwnsBlock(Step(s, e), t, b);
      } else {
        OwnBlockMoves(s, e);
      }
    }
  }

  lemma StepKeepsFreedOff(s: State, e: Event, t: Tid)
    requires LockInv(s) && BlockInv(s) && LeakInv(s) && Enabled(s, e)
    requires (PcOf(Step(s, e), t).Freed? || PcOf(Step(s, e), t).Sized?) && Step(s, e).ptr.Some?
    ensures Step(s, e).ptr.value !in Step(s, e).heap
  {
    MemoryFrame(s, e);
    assert (PcOf(s, t).Freed? || PcOf(s, t).Sized?) && s.ptr.Some? ==> s.ptr.value !in s.heap;
    if t != e.t {
      OneThreadMoves(s, e, t);
      assert s.writer == Some(t) <==> HoldsWrite(PcOf(s, t));
      assert s.writer == Some(e.t) <==> HoldsWrite(PcOf(s, e.t));
      assert !e.FreeOld? && !e.SetPtr?;
    } else if !e.FreeOld? {
      assert PcOf(s, t).Freed? || PcOf(s, t).Sized?;
      assert HasBlock(PcOf(s, t)) ==> PcOf(s, t).block in s.heap;
    }
  }

  lemma StepKeepsLeak(s: State, e: Event)
    requires LockInv(s) && BlockInv(s) && LeakInv(s) && Enabled(s, e)
    ensures LeakInv(Step(s, e))
  {
    forall b | b in Step(s, e).heap
      ensures Step(s, e).ptr == Some(b) || exists t: Tid :: OwnsBlock(Step(s, e), t, b)
    {
      StepLosesNoBlock(s, e, b);
    }
    forall t: Tid | (PcOf(Step(s, e), t).Freed? || PcOf(Step(s, e), t).Sized?) && Step(s, e).ptr.Some?
      ensures Step(s, e).ptr.value !in Step(s, e).heap
    {
      StepKeepsFreedOff(s, e, t);
    }
  }

  /** Steps of the thread that holds the write lock, or is about to take it. */
  lemma InstallKeepsFields(s: State, e: Event)
    requires LockInv(s) && BlockInv(s) && FieldInv(s) && ReadInv(s) && !s.fault && Enabled(s, e)
    requires e.LockWrite? || e.FreeOld? || e.SetLen? || e.SetPtr? || e.UnlockWrite?
    ensures FieldInv(Step(s, e)) && !Step(s, e).fault
  {
    var pc := PcOf(s, e.t);
    assert s.writer == Some(e.t) <==> HoldsWrite(pc);
    assert HasBlock(pc) ==> pc.block in s.heap && s.ptr != Some(pc.block);
    assert PcOf(Step(s, e), e.t) == Step(s, e).pcs[e.t];
  }

  lemma OtherStepsKeepFields(s: State, e: Event)
    requires LockInv(s) && BlockInv(s) && FieldInv(s) && ReadInv(s) && !s.fault && Enabled(s, e)
    requires !(e.LockWrite? || e.FreeOld? || e.SetLen? || e.SetPtr? || e.UnlockWrite?)
    ensures FieldInv(Step(s, e)) && !Step(s, e).fault
  {
    assert s.writer == Some(e.t) <==> HoldsWrite(PcOf(s, e.t));
    if e.Test? || e.Compare? || e.Copy? || e.UnlockRead? {
      ReaderSeesList(s, e.t);
    } else if s.writer.Some? {
      OneThreadMoves(s, e, s.writer.value);
      assert HoldsWrite(PcOf(s, s.writer.value));
    }
  }

  lemma StepKeepsFields(s: State, e: Event)
    requires Inv(s) && Enabled(s, e)
    ensures FieldInv(Step(s, e)) && !Step(s, e).fault
  {
    if e.LockWrite? || e.FreeOld? || e.SetLen? || e.SetPtr? || e.UnlockWrite? {
      InstallKeepsFields(s, e);
    } else {
      OtherStepsKeepFields(s, e);
    }
  }

  lemma ScanKeepsPc(s: State, e: Event)
    requires LockInv(s) && FieldInv(s) && ReadInv(s) && Enabled(s, e) && (e.Test? || e.Compare?)
    ensures PcInv(s, PcOf(Step(s, e), e.t)) && Step(s, e).log == s.log
  {
    ReaderSeesList(s, e.t);
  }

  /** Whatever other threads do between two bytes, all of them come from one key of the list. */
  lemma CopyKeepsPc(s: State, t: Tid)
    requires LockInv(s) && FieldInv(s) && ReadInv(s) && Enabled(s, Copy(t))
    ensures PcInv(s, PcOf(Step(s, Copy(t)), t)) && Step(s, Copy(t)).log == s.log
  {
    ReaderSeesList(s, t);
    var pc, keys := PcOf(s, t), s.log[Version(s)];
    var key := keys[pc.i];
    assert Load(s, pc.i) == Some(key);
    var copied := pc.copied + [Encode(key)[|pc.copied|]];
    assert copied == Encode(key)[..|copied|];
    if |copied| == TICKET_KEY_SIZE {
      EncodeIsInjective(Decode(copied), key);
      assert AnswersAt(keys, pc.query, Hit(key, pc.i == 0), pc.i);
    }
  }

  lemma LogOnlyGrows(s: State, e: Event)
    requires Enabled(s, e)
    ensures s.log <= Step(s, e).log && (!e.SetPtr? ==> Step(s, e).log == s.log)
  {
  }

  /** Answers already given stay honest when lists are added. */
  lemma HonestForever(s: State, s': State, a: Answer)
    requires Honest(s, a) && s.log <= s'.log
    ensures Honest(s', a)
  {
  }

  lemma StepKeepsOtherPc(s: State, e: Event, t: Tid)
    requires LockInv(s) && FieldInv(s) && ReadInv(s) && Enabled(s, e) && t != e.t
    ensures Step(s, e).log != [] && PcInv(Step(s, e), PcOf(Step(s, e), t))
  {
    assert PcInv(s, PcOf(s, t));
    assert s.writer == Some(e.t) <==> HoldsWrite(PcOf(s, e.t));
    OneThreadMoves(s, e, t);
    LogOnlyGrows(s, e);
    var pc := PcOf(s, t);
    if pc.Counting? {
      HonestForever(s, Step(s, e), pc.answer);
    } else if HoldsRead(pc) {
      ReaderSeesList(s, t);
    }
  }

  lemma StepKeepsOwnPc(s: State, e: Event)
    requires LockInv(s) && FieldInv(s) && ReadInv(s) && Enabled(s, e)
    ensures Step(s, e).log != [] && PcInv(Step(s, e), PcOf(Step(s, e), e.t))
  {
    assert PcInv(s, PcOf(s, e.t));
    if e.Test? || e.Compare? {
      ScanKeepsPc(s, e);
    } else if e.Copy? {
      CopyKeepsPc(s, e.t);
    }
  }

  lemma StepKeepsReads(s: State, e: Event)
    requires LockInv(s) && FieldInv(s) && ReadInv(s) && Enabled(s, e)
    ensures ReadInv(Step(s, e))
  {
    forall t: Tid
      ensures Step(s, e).log != [] && PcInv(Step(s, e), PcOf(Step(s, e), t))
    {
      if t == e.t {
        StepKeepsOwnPc(s, e);
      } else {
        StepKeepsOtherPc(s, e, t);
      }
    }
    LogOnlyGrows(s, e);
    assert PcInv(s, PcOf(s, e.t));
    forall i | 0 <= i < |Step(s, e).answers|
      ensures Honest(Step(s, e), Step(s, e).answers[i])
    {
      HonestForever(s, Step(s, e), Step(s, e).answers[i]);
    }
  }

  lemma StepKeepsTally(s: State, e: Event)
    requires Inv(s) && Enabled(s, e)
    ensures Step(s, e).counters == Tally(Step(s, e).answers)
  {
  }

  lemma StepKeepsInv(s: State, e: Event)
    requires Inv(s) && Enabled(s, e)
    ensures Inv(Step(s, e))
  {
    StepKeepsLocks(s, e);
    StepKeepsBlocks(s, e);
    StepKeepsLeak(s, e);
    StepKeepsFields(s, e);
    StepKeepsReads(s, e);
    StepKeepsTally(s, e);
  }

  // ------------------------------------------------------------------------------ runs

  /** The state after the events, if each of them was possible when it came. */
  ghost predicate Reaches(s: State, events: seq<Event>, s': State)
    decreases |events|
  {
    if events == [] then s' == s
    else Enabled(s, events[0]) && Reaches(Step(s, events[0]), events[1..], s')
  }

  lemma {:induction false} ReachesKeepsInv(s: State, events: seq<Event>, s': State)
    requires Inv(s) && Reaches(s, events, s')
    ensures Inv(s')
    decreases |events|
  {
    if events != [] {
      StepKeepsInv(s, events[0]);
      ReachesKeepsInv(Step(s, events[0]), events[1..], s');
    }
  }

  lemma ReachableInv(events: seq<Event>, s: State)
    requires Reaches(INITIAL, events, s)
    ensures Inv(s)
  {
    ReachesKeepsInv(INITIAL, events, s);
  }

  /**
   * Every callback of every interleaving answers as a lookup in one whole list: the one that
   * was installed when it took the lock and still was when it released it. No step reads or
   * frees memory that is not live, and each counter is the number of answers of its kind
   * modulo 2^32.
   */
  lemma LookupsAreLinearizable(events: seq<Event>, s: State)
    requires Reaches(INITIAL, events, s)
    ensures !s.fault
    ensures forall i :: 0 <= i < |s.answers| ==> Honest(s, s.answers[i])
    ensures var c := s.counters;
            && c.created == CountOf(s.answers, Created) % WRAP && c.resumed == CountOf(s.answers, Resumed) % WRAP
            && c.renewed == CountOf(s.answers, Renewed) % WRAP && c.failed == CountOf(s.answers, Failed) % WRAP
    ensures s.writer == None ==> Shows(s)
  {
    ReachableInv(events, s);
    TallyCounts(s.answers);
  }

  /** When no thread is inside a call, the only block in memory is the installed list. */
  lemma NoBlockIsLost(events: seq<Event>, s: State)
    requires Reaches(INITIAL, events, s) && forall t: Tid :: PcOf(s, t) == Idle
    ensures s.log != [] && s.heap == if s.ptr == None then map[] else map[s.ptr.value := s.log[Version(s)]]
  {
    ReachableInv(events, s);
    forall t: Tid
      ensures s.writer != Some(t)
    {
      assert s.writer == Some(t) <==> HoldsWrite(PcOf(s, t));
    }
    assert s.writer == None && Shows(s);
    forall b | b in s.heap
      ensures s.ptr == Some(b)
    {
      assert forall t: Tid :: PcOf(s, t) == Idle ==> !OwnsBlock(s, t, b);
    }
  }

  datatype Kind = Created | Resumed | Renewed | Failed

  predicate IsKind(a: Answer, k: Kind) {
    match k
    case Created => a.query.Issue? && a.found.Some? && a.random
    case Resumed => a.query.Resume? && a.found.Some? && a.found.value.current
    case Renewed => a.query.Resume? && a.found.Some? && !a.found.value.current
    case Failed => a.query.Resume? && a.found == None
  }

  function CountOf(answers: seq<Answer>, k: Kind): (n: nat) {
    if answers == [] then 0
    else CountOf(answers[..|answers| - 1], k) + if IsKind(answers[|answers| - 1], k) then 1 else 0
  }

  lemma BumpWraps(n: nat)
    ensures Bump(n % WRAP) == (n + 1) % WRAP
  {
  }

  /** Each counter is the number of answers of its kind, modulo 2^32. */
  lemma {:induction false} TallyCounts(answers: seq<Answer>)
    ensures var c := Tally(answers);
            && c.created == CountOf(answers, Created) % WRAP && c.resumed == CountOf(answers, Resumed) % WRAP
            && c.renewed == CountOf(answers, Renewed) % WRAP && c.failed == CountOf(answers, Failed) % WRAP
  {
    if answers != [] {
      var before := answers[..|answers| - 1];
      TallyCounts(before);
      BumpWraps(CountOf(before, Created));
      BumpWraps(CountOf(before, Resumed));
      BumpWraps(CountOf(before, Renewed));
      BumpWraps(CountOf(before, Failed));
    }
  }
}
