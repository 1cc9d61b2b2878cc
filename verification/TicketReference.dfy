/**
 * What a run of callbacks and installs means, read off its events alone: which lists were
 * installed, and for each callback what was asked and which list it has to answer from. The
 * shared fields, the lock and the heap play no part here; the machine is proved to agree.
 */
module TicketReference {
  import opened Bytes
  import opened TicketKeys
  import opened TicketLock
  import opened TicketRotation

  /** A callback: the list number when it took the lock and when it released it. */
  datatype Served = Served(query: Query, since: nat, until: nat, random: bool)

  /** `given`, `asked` and `released` are per thread: the list of its install, and its callback. */
  datatype Ref = Ref(lists: seq<seq<TicketKey>>, given: map<Tid, seq<TicketKey>>,
                     asked: map<Tid, (Query, nat)>, released: map<Tid, Served>, served: seq<Served>)

  const START := Ref([[]], map[], map[], map[], [])

  function Newest(r: Ref): nat {
    if r.lists == [] then 0 else |r.lists| - 1
  }

  /** An install counts when its pointer is stored, with the list it was given. */
  function Observe(r: Ref, e: Event): Ref {
    match e
    case Prepare(t, keys) => r.(given := r.given[t := keys])
    case SetPtr(t) => if t in r.given then r.(lists := r.lists + [r.given[t]]) else r
    case LockRead(t, q) => r.(asked := r.asked[t := (q, Newest(r))])
    case UnlockRead(t, random) =>
      if t in r.asked then r.(released := r.released[t := Served(r.asked[t].0, r.asked[t].1, Newest(r), random)]) else r
    case Count(t) => if t in r.released then r.(served := r.served + [r.released[t]]) else r
    case _ => r
  }

  function Follow(r: Ref, events: seq<Event>): (r': Ref)
    decreases |events|
  {
    if events == [] then r else Follow(Observe(r, events[0]), events[1..])
  }

  // ------------------------------------------------------------------------- agreement

  predicate Same(a: Answer, c: Served) {
    a.query == c.query && a.since == c.since && a.until == c.until && a.random == c.random
  }

  predicate PcAgrees(s: State, r: Ref, t: Tid) {
    var pc := PcOf(s, t);
    && (HasBlock(pc) ==> t in r.given && pc.block in s.heap && s.heap[pc.block] == r.given[t])
    && (HoldsRead(pc) ==> t in r.asked && r.asked[t] == (pc.query, pc.since))
    && (pc.Counting? ==> t in r.released && Same(pc.answer, r.released[t]))
  }

  ghost predicate Agrees(s: State, r: Ref) {
    && s.log == r.lists
    && (forall t: Tid :: PcAgrees(s, r, t))
    && |s.answers| == |r.served|
    && forall i :: 0 <= i < |s.answers| ==> Same(s.answers[i], r.served[i])
  }

  /** The block of an install in progress is not the shared one. */
  predicate OwnBlock(s: State, t: Tid) {
    HasBlock(PcOf(s, t)) ==> PcOf(s, t).block in s.heap && s.ptr != Some(PcOf(s, t).block) && PcOf(s, t).block != s.nextBlock
  }

  predicate IsInstallStep(e: Event) {
    e.Prepare? || e.LockWrite? || e.FreeOld? || e.SetLen? || e.SetPtr? || e.UnlockWrite?
  }

  lemma OwnInstallAgrees(s: State, r: Ref, e: Event)
    requires PcAgrees(s, r, e.t) && OwnBlock(s, e.t) && Enabled(s, e) && IsInstallStep(e)
    ensures PcAgrees(Step(s, e), Observe(r, e), e.t)
  {
    if HasBlock(PcOf(s, e.t)) {
      BlockStays(s, e, PcOf(s, e.t).block);
    }
  }

  lemma OwnCallbackAgrees(s: State, r: Ref, e: Event)
    requires s.log == r.lists && PcAgrees(s, r, e.t) && Enabled(s, e) && !IsInstallStep(e)
    ensures PcAgrees(Step(s, e), Observe(r, e), e.t)
  {
  }

  lemma BlockStays(s: State, e: Event, b: Block)
    requires Enabled(s, e) && b in s.heap && s.ptr != Some(b) && b != s.nextBlock
    ensures b in Step(s, e).heap && Step(s, e).heap[b] == s.heap[b]
  {
  }

  /** An event leaves the books of the other threads alone. */
  lemma ObserveOthers(r: Ref, e: Event, t: Tid)
    requires t != e.t
    ensures var r' := Observe(r, e);
            && (t in r.given ==> t in r'.given && r'.given[t] == r.given[t])
            && (t in r.asked ==> t in r'.asked && r'.asked[t] == r.asked[t])
            && (t in r.released ==> t in r'.released && r'.released[t] == r.released[t])
  {
  }

  lemma OtherPcAgrees(s: State, r: Ref, e: Event, t: Tid)
    requires PcAgrees(s, r, t) && OwnBlock(s, t) && Enabled(s, e) && t != e.t
    ensures PcAgrees(Step(s, e), Observe(r, e), t)
  {
    OneThreadMoves(s, e, t);
    ObserveOthers(r, e, t);
    if HasBlock(PcOf(s, t)) {
      BlockStays(s, e, PcOf(s, t).block);
    }
  }

  lemma HistoriesAgree(s: State, r: Ref, e: Event)
    requires Agrees(s, r) && OwnBlock(s, e.t) && Enabled(s, e)
    ensures var s', r' := Step(s, e), Observe(r, e);
            && s'.log == r'.lists && |s'.answers| == |r'.served|
            && forall i :: 0 <= i < |s'.answers| ==> Same(s'.answers[i], r'.served[i])
  {
    assert PcAgrees(s, r, e.t);
  }

  lemma StepAgrees(s: State, r: Ref, e: Event)
    requires BlockInv(s) && Agrees(s, r) && Enabled(s, e)
    ensures Agrees(Step(s, e), Observe(r, e))
  {
    forall t: Tid
      ensures PcAgrees(Step(s, e), Observe(r, e), t)
    {
      assert PcAgrees(s, r, t) && OwnBlock(s, t);
      if t != e.t {
        OtherPcAgrees(s, r, e, t);
      } else if IsInstallStep(e) {
        OwnInstallAgrees(s, r, e);
      } else {
        OwnCallbackAgrees(s, r, e);
      }
    }
    HistoriesAgree(s, r, e);
  }

  lemma {:induction false} RunAgrees(s: State, r: Ref, events: seq<Event>, s': State)
    requires Inv(s) && Agrees(s, r) && Reaches(s, events, s')
    ensures Inv(s') && Agrees(s', Follow(r, events))
    decreases |events|
  {
    if events != [] {
      StepAgrees(s, r, events[0]);
      StepKeepsInv(s, events[0]);
      RunAgrees(Step(s, events[0]), Observe(r, events[0]), events[1..], s');
    }
  }

  /**
   * In every interleaving the lists installed are those the installs were given, in the order
   * of their pointer stores, and every callback answers what it was asked from the list that
   * was the newest when it took the lock.
   */
  lemma InstalledAsGiven(events: seq<Event>, s: State)
    requires Reaches(INITIAL, events, s)
    ensures var r := Follow(START, events);
            && s.log == r.lists && |s.answers| == |r.served|
            && forall i :: 0 <= i < |r.served| ==>
                 && Same(s.answers[i], r.served[i]) && r.served[i].since == r.served[i].until < |r.lists|
                 && Answers(r.lists[r.served[i].since], r.served[i].query, s.answers[i].found)
  {
    RunAgrees(INITIAL, START, events, s);
    assert forall i :: 0 <= i < |s.answers| ==> Honest(s, s.answers[i]);
  }

  // ------------------------------------------------- codes and counters from the lists

  predicate Lists(keys: seq<TicketKey>, name: seq<byte>) {
    exists i :: 0 <= i < |keys| && keys[i].name == name
  }

  /** The answer a list determines: its first key for an issue, and the first with the name otherwise. */
  lemma AnswerByList(keys: seq<TicketKey>, q: Query, found: Option<Hit>)
    requires Answers(keys, q, found)
    ensures q.Issue? ==> found == if keys == [] then None else Some(Hit(keys[0], true))
    ensures q.Resume? ==>
              && (found.Some? <==> Lists(keys, q.name))
              && (found.Some? ==> found.value.key in keys && found.value.key.name == q.name)
              && (found.Some? && found.value.current <==> keys != [] && keys[0].name == q.name)
  {
    assert keys != [] && (q.Issue? || keys[0].name == q.name) ==> Matches(q, keys[0]);
  }

  /** Return codes, said of the list and the random generator. */
  lemma CodesOfAnswers(events: seq<Event>, s: State, i: nat)
    requires Reaches(INITIAL, events, s) && i < |s.answers|
    ensures var r := Follow(START, events);
            && i < |r.served| && r.served[i].since < |r.lists|
            && var c, keys, code, found := r.served[i], r.lists[r.served[i].since], ReturnCode(s.answers[i]), s.answers[i].found;
               && (c.query.Issue? ==>
                     && code == (if keys == [] then 0 else if c.random then 1 else -1)
                     && (keys != [] ==> found == Some(Hit(keys[0], true))))
               && (c.query.Resume? ==>
                     && (code == 0 <==> !Lists(keys, c.query.name))
                     && (code == 1 <==> keys != [] && keys[0].name == c.query.name)
                     && (code == 2 <==> Lists(keys, c.query.name) && keys[0].name != c.query.name)
                     && (found.Some? <==> Lists(keys, c.query.name))
                     && (found.Some? ==> found.value.key in keys && found.value.key.name == c.query.name))
  {
    InstalledAsGiven(events, s);
    var c := Follow(START, events).served[i];
    AnswerByList(Follow(START, events).lists[c.since], c.query, s.answers[i].found);
  }

  /** Which counter a callback moves, said of the list it had to answer from. */
  predicate Moves(keys: seq<TicketKey>, c: Served, k: Kind) {
    match k
    case Created => c.query.Issue? && keys != [] && c.random
    case Resumed => c.query.Resume? && keys != [] && keys[0].name == c.query.name
    case Renewed => c.query.Resume? && Lists(keys, c.query.name) && keys[0].name != c.query.name
    case Failed => c.query.Resume? && !Lists(keys, c.query.name)
  }

  function Moved(lists: seq<seq<TicketKey>>, served: seq<Served>, k: Kind): (n: nat) {
    if served == [] then 0
    else
      var c := served[|served| - 1];
      Moved(lists, served[..|served| - 1], k) + if c.since < |lists| && Moves(lists[c.since], c, k) then 1 else 0
  }

  lemma KindByList(keys: seq<TicketKey>, a: Answer, c: Served, k: Kind)
    requires Same(a, c) && Answers(keys, c.query, a.found)
    ensures IsKind(a, k) <==> Moves(keys, c, k)
  {
    AnswerByList(keys, c.query, a.found);
  }

  lemma {:induction false} CountsByList(lists: seq<seq<TicketKey>>, answers: seq<Answer>, served: seq<Served>, k: Kind)
    requires |answers| == |served|
    requires forall i :: 0 <= i < |served| ==>
               Same(answers[i], served[i]) && served[i].since < |lists| && Answers(lists[served[i].since], served[i].query, answers[i].found)
    ensures CountOf(answers, k) == Moved(lists, served, k)
    decreases |answers|
  {
    if answers != [] {
      var n := |answers| - 1;
      CountsByList(lists, answers[..n], served[..n], k);
      KindByList(lists[served[n].since], answers[n], served[n], k);
    }
  }

  /** The four counters of every run are a function of its events. */
  lemma CountersOfRuns(events: seq<Event>, s: State)
    requires Reaches(INITIAL, events, s)
    ensures var r, c := Follow(START, events), s.counters;
            && c.created == Moved(r.lists, r.served, Created) % 0x1_0000_0000
            && c.resumed == Moved(r.lists, r.served, Resumed) % 0x1_0000_0000
            && c.renewed == Moved(r.lists, r.served, Renewed) % 0x1_0000_0000
            && c.failed == Moved(r.lists, r.served, Failed) % 0x1_0000_0000
  {
    var r := Follow(START, events);
    InstalledAsGiven(events, s);
    LookupsAreLinearizable(events, s);
    CountsByList(r.lists, s.answers, r.served, Created);
    CountsByList(r.lists, s.answers, r.served, Resumed);
    CountsByList(r.lists, s.answers, r.served, Renewed);
    CountsByList(r.lists, s.answers, r.served, Failed);
  }

  // --------------------------------------------------------------------------- progress

  /** Inside a callback for q that started when list number `since` was the newest. */
  predicate Asks(pc: Pc, q: Query, random: bool, since: int) {
    || (HoldsRead(pc) && pc.query == q && pc.since == since)
    || (pc.Counting? && pc.answer.query == q && pc.answer.random == random && pc.answer.since == since)
  }

  /** A bound on the steps a callback still has to make. */
  function Left(len: nat, pc: Pc): int {
    match pc
    case Testing(_, i, _) => 2 * (len - i) + 52
    case Comparing(_, i, _) => 2 * (len - i) + 51
    case Copying(_, _, _, copied) => 50 - |copied|
    case Holding(_, _, _) => 2
    case _ => 1
  }

  /** A reader's next step is possible and brings it nearer to the end. */
  lemma ReaderStep(s: State, t: Tid, random: bool) returns (e: Event)
    requires LockInv(s) && FieldInv(s) && ReadInv(s) && HoldsRead(PcOf(s, t))
    ensures Enabled(s, e) && e.t == t && Step(s, e).log == s.log && Step(s, e).len == s.len && Step(s, e).answers == s.answers
    ensures Asks(PcOf(Step(s, e), t), PcOf(s, t).query, random, PcOf(s, t).since)
    ensures 0 <= Left(s.len, PcOf(Step(s, e), t)) < Left(s.len, PcOf(s, t))
  {
    ReaderSeesList(s, t);
    match PcOf(s, t)
    case Testing(_, _, _) => e := Test(t);
    case Comparing(_, i, _) => e := Compare(t); assert Load(s, i).Some?;
    case Copying(_, i, _, _) => e := Copy(t); assert Load(s, i).Some?;
    case Holding(_, _, _) => e := UnlockRead(t, random);
  }

  /** A finished lookup: one more answer, to this question, from the newest list, and nothing installed. */
  ghost predicate LookedUp(s: State, s': State, q: Query, random: bool) {
    && s.log != [] && s'.log == s.log && |s'.answers| == |s.answers| + 1 && s'.answers[..|s.answers|] == s.answers
    && var a := s'.answers[|s.answers|];
       a.query == q && a.random == random && Answers(s.log[|s.log| - 1], q, a.found)
  }

  lemma ReachesFirst(s: State, e: Event, rest: seq<Event>, s': State)
    requires Enabled(s, e) && Reaches(Step(s, e), rest, s')
    ensures Reaches(s, [e] + rest, s')
  {
    assert ([e] + rest)[1..] == rest;
  }

  lemma CountEnds(s: State, t: Tid, q: Query, random: bool) returns (s': State)
    requires Inv(s) && PcOf(s, t).Counting? && Asks(PcOf(s, t), q, random, Version(s))
    ensures Reaches(s, [Count(t)], s') && Inv(s') && PcOf(s', t) == Idle && LookedUp(s, s', q, random)
  {
    s' := Step(s, Count(t));
    StepKeepsInv(s, Count(t));
    ReachesFirst(s, Count(t), [], s');
    assert PcInv(s, PcOf(s, t));
  }

  lemma LookedUpFrom(s: State, next: State, s': State, q: Query, random: bool)
    requires next.log == s.log && next.answers == s.answers && LookedUp(next, s', q, random)
    ensures LookedUp(s, s', q, random)
  {
  }

  lemma {:induction false} FinishLookup(s: State, t: Tid, q: Query, random: bool) returns (events: seq<Event>, s': State)
    requires Inv(s) && Asks(PcOf(s, t), q, random, Version(s))
    ensures Reaches(s, events, s') && Inv(s') && PcOf(s', t) == Idle && LookedUp(s, s', q, random)
    decreases Left(s.len, PcOf(s, t))
  {
    if PcOf(s, t).Counting? {
      s' := CountEnds(s, t, q, random);
      events := [Count(t)];
    } else {
      var e := ReaderStep(s, t, random);
      StepKeepsInv(s, e);
      var rest;
      rest, s' := FinishLookup(Step(s, e), t, q, random);
      events := [e] + rest;
      ReachesFirst(s, e, rest, s');
      LookedUpFrom(s, Step(s, e), s', q, random);
    }
  }

  /** A callback of an idle thread gets through whenever no install holds the lock. */
  lemma LookupCompletes(s: State, t: Tid, q: Query, random: bool) returns (events: seq<Event>, s': State)
    requires Inv(s) && PcOf(s, t) == Idle && s.writer == None
    ensures Reaches(s, events, s') && Inv(s') && PcOf(s', t) == Idle && LookedUp(s, s', q, random)
  {
    var e := LockRead(t, q);
    StepKeepsInv(s, e);
    var rest;
    rest, s' := FinishLookup(Step(s, e), t, q, random);
    events := [e] + rest;
    ReachesFirst(s, e, rest, s');
  }

  /** The steps an install still has to make. */
  function InstallFrom(pc: Pc, t: Tid): seq<Event> {
    match pc
    case Ready(_) => [LockWrite(t), FreeOld(t), SetLen(t), SetPtr(t), UnlockWrite(t)]
    case Locked(_) => [FreeOld(t), SetLen(t), SetPtr(t), UnlockWrite(t)]
    case Freed(_) => [SetLen(t), SetPtr(t), UnlockWrite(t)]
    case Sized(_) => [SetPtr(t), UnlockWrite(t)]
    case Swapped => [UnlockWrite(t)]
    case _ => []
  }

  /** The list an install has yet to make the newest one. */
  function StillToLog(s: State, t: Tid): seq<seq<TicketKey>> {
    if HasBlock(PcOf(s, t)) && PcOf(s, t).block in s.heap then [s.heap[PcOf(s, t).block]] else []
  }

  lemma InstallStep(s: State, t: Tid)
    requires OwnBlock(s, t) && InstallFrom(PcOf(s, t), t) != []
    requires PcOf(s, t).Ready? ==> s.writer == None && s.readers == {}
    ensures var rest := InstallFrom(PcOf(s, t), t);
            && Enabled(s, rest[0]) && rest[0].t == t
            && var s' := Step(s, rest[0]);
               && InstallFrom(PcOf(s', t), t) == rest[1..] && !PcOf(s', t).Ready?
               && (rest[1..] == [] ==> PcOf(s', t) == Idle && s'.writer == None)
  {
  }

  /** Until the pointer is stored the list stays with the thread; then it is the newest one. */
  lemma InstallStepLogs(s: State, e: Event)
    requires OwnBlock(s, e.t) && Enabled(s, e) && IsInstallStep(e) && !e.Prepare?
    ensures var s' := Step(s, e);
            && s'.log + StillToLog(s', e.t) == s.log + StillToLog(s, e.t)
            && s'.answers == s.answers && s'.readers == s.readers
  {
    if HasBlock(PcOf(s, e.t)) {
      BlockStays(s, e, PcOf(s, e.t).block);
    }
  }

  lemma {:induction false} FinishInstall(s: State, t: Tid) returns (s': State)
    requires Inv(s) && InstallFrom(PcOf(s, t), t) != [] && s.readers == {} && (PcOf(s, t).Ready? ==> s.writer == None)
    ensures Reaches(s, InstallFrom(PcOf(s, t), t), s') && Inv(s')
    ensures s'.log == s.log + StillToLog(s, t) && s'.answers == s.answers && s'.writer == None && s'.readers == {}
    ensures PcOf(s', t) == Idle && forall u: Tid :: u != t ==> PcOf(s', u) == PcOf(s, u)
    decreases |InstallFrom(PcOf(s, t), t)|
  {
    var rest := InstallFrom(PcOf(s, t), t);
    assert OwnBlock(s, t);
    InstallStep(s, t);
    InstallStepLogs(s, rest[0]);
    StepKeepsInv(s, rest[0]);
    var next := Step(s, rest[0]);
    forall u: Tid | u != t
      ensures PcOf(next, u) == PcOf(s, u)
    {
      OneThreadMoves(s, rest[0], u);
    }
    if rest[1..] == [] {
      s' := next;
      assert Reaches(next, rest[1..], s');
    } else {
      s' := FinishInstall(next, t);
    }
  }

  /** All steps of one install. */
  function Install(t: Tid, keys: seq<TicketKey>): seq<Event> {
    [Prepare(t, keys), LockWrite(t), FreeOld(t), SetLen(t), SetPtr(t), UnlockWrite(t)]
  }

  /** An install of an idle thread gets through when nobody holds the lock, and installs its list. */
  lemma InstallCompletes(s: State, t: Tid, keys: seq<TicketKey>) returns (s': State)
    requires Inv(s) && PcOf(s, t) == Idle && s.writer == None && s.readers == {}
    ensures Reaches(s, Install(t, keys), s') && Inv(s')
    ensures s'.log == s.log + [keys] && s'.answers == s.answers && s'.writer == None
    ensures forall u: Tid :: PcOf(s', u) == PcOf(s, u)
  {
    var prepare := Prepare(t, keys);
    StepKeepsInv(s, prepare);
    var s1 := Step(s, prepare);
    assert StillToLog(s1, t) == [keys];
    s' := FinishInstall(s1, t);
    assert Install(t, keys)[1..] == InstallFrom(PcOf(s1, t), t);
    forall u: Tid
      ensures PcOf(s', u) == PcOf(s, u)
    {
      if u != t {
        OneThreadMoves(s, prepare, u);
      }
    }
  }

  /**
   * From every reachable state with the lock free: the list a Java caller passes, serialized
   * and parsed again, can be installed, and a lookup after that answers from that very list.
   */
  lemma InstallThenLookup(events: seq<Event>, s: State, t: Tid, u: Tid, passed: seq<TicketKey>, parsed: seq<TicketKey>,
                          q: Query, random: bool)
    returns (installed: State, more: seq<Event>, answered: State)
    requires Reaches(INITIAL, events, s) && s.writer == None && s.readers == {} && PcOf(s, t) == Idle && PcOf(s, u) == Idle
    requires ParsedFrom(Flat(passed), parsed)
    ensures Reaches(s, Install(t, parsed), installed) && installed.log == s.log + [passed] && installed.answers == s.answers
    ensures Reaches(installed, more, answered) && |answered.answers| == |s.answers| + 1
    ensures var a := answered.answers[|s.answers|];
            a.query == q && a.random == random && Answers(passed, q, a.found)
  {
    ReachableInv(events, s);
    KeysRoundTrip(passed, parsed);
    installed := InstallCompletes(s, t, parsed);
    more, answered := LookupCompletes(installed, u, q, random);
  }
}
