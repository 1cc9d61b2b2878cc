/**
 * What engine calls answer, said of the application's callbacks themselves and of the
 * arguments of the call, over every interleaving; and that a parked task can always be
 * brought to its end.
 */
module HandshakeAnswers {
  import opened Bytes
  import opened HandshakeTasks
  import opened HandshakeRuns

  // --------------------------------------------------------------------- first calls

  /** The first min(depth, n) certificates are there. */
  predicate AllThere(chain: seq<Cert>, depth: nat) {
    forall i :: 0 <= i < |chain| && i < depth ==> |chain[i]| > 0
  }

  /** A call that starts an operation: the operation, and whether it becomes a task. */
  predicate Starts(e: Event) {
    e.Verify? || e.Certificate? || e.Key?
  }

  function StartedOp(e: Event, depth: nat): Op
    requires Starts(e)
  {
    match e
    case Verify(chain, auth, _, _) => Verifying(chain, depth, auth)
    case Certificate(request, _, _) => Certifying(request)
    case Key(job, _, _) => UsingKey(job)
  }

  predicate BecomesTask(w: World, e: Event, depth: nat)
    requires Starts(e)
  {
    && e.env && e.memory && w.useTasks
    && (e.Verify? ==> w.hasVerifier && e.chain.Some? && AllThere(e.chain.value, depth))
    && (e.Key? ==> w.hasKeyMethod)
  }

  function StartedJob(e: Event, depth: nat): Job
    requires Starts(e) && (e.Verify? ==> e.chain.Some?)
  {
    match e
    case Verify(chain, auth, _, _) => VerifyJob(if |chain.value| <= depth then chain.value else chain.value[..depth], auth)
    case Certificate(request, _, _) => CertificateJob(request)
    case Key(job, _, _) => job
  }

  lemma CertsThere(chain: seq<Cert>, depth: nat)
    ensures GetCerts(chain, depth).Some? <==> AllThere(chain, depth)
    ensures AllThere(chain, depth) ==> GetCerts(chain, depth).value == if |chain| <= depth then chain else chain[..depth]
  {
    var certs := chain[..Min(depth, |chain|)];
    assert forall i :: 0 <= i < |certs| ==> certs[i] == chain[i];
    assert |chain| <= depth ==> certs == chain;
  }

  /** One new task with this job is parked and referenced; nothing else changes but the log. */
  predicate Parks(s: State, s': State, job: Job, op: Op) {
    && s'.tasks == s.tasks + [Task(job, false, 0, false, None, NotStarted)]
    && s'.slot == Some(Parked(|s.tasks|, false)) && s'.live == s.live + {|s.tasks|} && s'.op == op
    && s'.freed == s.freed && s'.handed == s.handed && s'.bodies == s.bodies && s'.consumed == s.consumed
    && s'.depth == s.depth && !s'.closed
  }

  /**
   * A call that starts an operation answers retry exactly when it parks a task, which it does
   * exactly when environment, memory, tasks, callback and certificates are there. In every
   * run there is no parked task exactly when there is no operation (`TasksAreConserved`).
   */
  lemma FirstCall(w: World, s: State, e: Event)
    requires Enabled(w, s, e) && s.op == NoOp && s.slot == None && Starts(e)
    ensures var s' := Step(w, s, e);
            && LogsCall(s, s', StartedOp(e, s.depth), e.env) && s'.calls[|s.calls|].memory == e.memory
            && (LastAnswer(s') == Retry <==> BecomesTask(w, e, s.depth))
            && (BecomesTask(w, e, s.depth) ==> Parks(s, s', StartedJob(e, s.depth), StartedOp(e, s.depth)))
            && (!BecomesTask(w, e, s.depth) ==> s' == s.(calls := s'.calls))
  {
    if e.Verify? && e.chain.Some? {
      CertsThere(e.chain.value, s.depth);
    }
  }

  // ----------------------------------------------------------------------- final answers

  /** What a verification that ends answers. */
  lemma VerifyOperationEnds(w: World, depth: nat, events: seq<Event>, s: State, k: nat)
    requires Reaches(w, NewSsl(depth), events, s)
    requires k < |s.calls| && s.calls[k].op.Verifying? && s.calls[k].answer != Retry
    ensures var c := s.calls[k];
            if !c.env || !c.memory || c.op.chain == None || !AllThere(c.op.chain.value, c.op.depth) then
              c.answer == VerifyInvalid(1)
            else
              var chain, cut := c.op.chain.value, |c.op.chain.value| > c.op.depth;
              if !w.hasVerifier then c.answer == VerifyInvalid(if cut then 20 else 1)
              else
                match w.verify(if cut then chain[..c.op.depth] else chain, c.op.auth)
                case Throws => !w.useTasks && c.answer == VerifyInvalid(1)
                case Returns(code) =>
                  c.answer == if code == 0 then VerifyOk else VerifyInvalid(if code == 1 && cut then 20 else code)
  {
    SuspensionIsTransparent(w, depth, events, s);
    var c := s.calls[k];
    assert CallOk(w, c);
    if c.op.chain.Some? {
      CertsThere(c.op.chain.value, c.op.depth);
    }
  }

  /** What a certificate selection that ends answers. */
  lemma CertificateOperationEnds(w: World, depth: nat, events: seq<Event>, s: State, k: nat)
    requires Reaches(w, NewSsl(depth), events, s)
    requires k < |s.calls| && s.calls[k].op.Certifying? && s.calls[k].answer != Retry
    ensures var c := s.calls[k];
            if !c.env || (w.useTasks && !c.memory) then c.answer == CertReturn(0)
            else
              match w.handle(c.op.request)
              case Normally => c.answer == CertReturn(1)
              case WithException => c.answer == CertReturn(0)
              case WithError => !w.useTasks && c.answer == CertReturn(0)
  {
    SuspensionIsTransparent(w, depth, events, s);
    assert CallOk(w, s.calls[k]);
  }

  // --------------------------------------------------------------------------- the depth

  function DepthAfter(depth: nat, events: seq<Event>): (d: nat)
    decreases |events|
  {
    if events == [] then depth
    else DepthAfter(if events[0].SetDepth? && events[0].depth >= 0 then events[0].depth else depth, events[1..])
  }

  /** The depth an operation starts with is the last one set that is not negative. */
  lemma {:induction false} DepthOfRun(w: World, s: State, events: seq<Event>, s': State)
    requires Reaches(w, s, events, s')
    ensures s'.depth == DepthAfter(s.depth, events)
    decreases |events|
  {
    if events != [] {
      DepthOfRun(w, Step(w, s, events[0]), events[1..], s');
    }
  }

  // ---------------------------------------------------------------------------- progress

  /** getTask hands out the parked task if it was not handed out before, and changes nothing otherwise. */
  lemma GetTaskHandsOut(w: World, depth: nat, events: seq<Event>, s: State)
    requires Reaches(w, NewSsl(depth), events, s) && !s.closed
    ensures Enabled(w, s, GetTask)
    ensures var s' := Step(w, s, GetTask);
            if s.slot.Some? && s.slot.value.id !in s.handed then
              && s'.handed == s.handed + [s.slot.value.id] && s'.slot == Some(Parked(s.slot.value.id, true))
              && s' == s.(handed := s'.handed, slot := s'.slot)
            else s' == s
  {
    ReachesKeepsInv(w, NewSsl(depth), events, s);
  }

  lemma {:induction false} ReachesTwice(w: World, a: State, xs: seq<Event>, b: State, ys: seq<Event>, c: State)
    requires Reaches(w, a, xs, b) && Reaches(w, b, ys, c)
    ensures Reaches(w, a, xs + ys, c)
    decreases |xs|
  {
    if xs == [] {
      assert xs + ys == ys;
    } else {
      ReachesTwice(w, Step(w, a, xs[0]), xs[1..], b, ys, c);
      assert (xs + ys)[1..] == xs[1..] + ys;
    }
  }

  /** The poll of a suspended operation, with environment and memory at hand. */
  function PollOf(op: Op, maxOut: nat): Event
    requires op != NoOp
  {
    match op
    case Verifying(chain, _, auth) => Event.Verify(chain, auth, true, true)
    case Certifying(request) => Certificate(request, true, true)
    case UsingKey(_) => Complete(maxOut, true, true)
  }

  /** getTask if need be, what is left of the task, and one poll. */
  function Ending(s: State, maxOut: nat): seq<Event>
    requires s.slot.Some? && s.slot.value.id < |s.tasks| && s.op != NoOp
  {
    var id := s.slot.value.id;
    (if id in s.handed then [] else [GetTask]) + Remaining(s.tasks[id].running, id) + [PollOf(s.op, maxOut)]
  }

  lemma HandedOut(w: World, s: State) returns (s': State)
    requires Inv(w, s) && !s.closed && s.slot.Some?
    ensures Reaches(w, s, if s.slot.value.id in s.handed then [] else [GetTask], s') && Inv(w, s')
    ensures s' == s.(handed := s'.handed, slot := s'.slot) && s'.slot.Some? && s'.slot.value.id == s.slot.value.id
    ensures s.slot.value.id in s'.handed
  {
    s' := s;
    if s.slot.value.id !in s.handed {
      StepKeepsInv(w, s, GetTask);
      s' := Step(w, s, GetTask);
      assert Reaches(w, s', [GetTask][1..], s');
    }
  }

  lemma PollEnds(w: World, s: State, maxOut: nat) returns (s': State)
    requires Inv(w, s) && !s.closed && s.slot.Some? && s.tasks[s.slot.value.id].complete
    ensures s.op != NoOp && Reaches(w, s, [PollOf(s.op, maxOut)], s') && LogsCall(s, s', s.op, true)
    ensures Consumes(s, s', s.slot.value.id) && LastAnswer(s') != Retry && s'.calls[|s.calls|].memory
    ensures s.op.UsingKey? ==> s'.calls[|s.calls|].maxOut == maxOut
  {
    var e := PollOf(s.op, maxOut);
    PollStep(w, s, e);
    s' := Step(w, s, e);
    assert Reaches(w, s', [e][1..], s');
  }

  /**
   * From every reachable open state with a parked task whose job reports, taking the task,
   * finishing it and one poll end the operation, and this consumes that task.
   */
  lemma ParkedTaskEnds(w: World, depth: nat, events: seq<Event>, s: State, maxOut: nat) returns (s': State)
    requires Reaches(w, NewSsl(depth), events, s) && !s.closed && s.slot.Some?
    requires s.slot.value.id < |s.tasks| && JobReports(w, s.tasks[s.slot.value.id].job)
    ensures s.op != NoOp && Reaches(w, s, Ending(s, maxOut), s')
    ensures s'.slot == None && s'.op == NoOp && s'.consumed == s.consumed + [(s.slot.value.id, s.op)]
    ensures LogsCall(s, s', s.op, true) && LastAnswer(s') != Retry && s'.calls[|s.calls|].memory
    ensures s.op.UsingKey? ==> s'.calls[|s.calls|].maxOut == maxOut
  {
    ReachesKeepsInv(w, NewSsl(depth), events, s);
    var id := s.slot.value.id;
    var s1 := HandedOut(w, s);
    var s2 := FinishFrom(w, s1, id);
    s' := PollEnds(w, s2, maxOut);
    var take := if id in s.handed then [] else [GetTask];
    var rest := Remaining(s.tasks[id].running, id);
    ReachesTwice(w, s, take, s1, rest, s2);
    ReachesTwice(w, s, take + rest, s2, [PollOf(s.op, maxOut)], s');
  }

  /** In particular a private-key task delivers: the bytes its method reported reach the engine. */
  lemma KeyTaskDelivers(w: World, depth: nat, events: seq<Event>, s: State, maxOut: nat, bytes: seq<byte>) returns (s': State)
    requires Reaches(w, NewSsl(depth), events, s) && !s.closed && s.op.UsingKey? && |bytes| <= maxOut
    requires w.key(s.op.job) == OnSuccess(Some(bytes))
    ensures s.slot.Some? && s.slot.value.id < |s.tasks| && Reaches(w, s, Ending(s, maxOut), s')
    ensures s'.op == NoOp && s'.calls != [] && LastAnswer(s') == KeyDone(bytes)
  {
    ReachesKeepsInv(w, NewSsl(depth), events, s);
    s' := ParkedTaskEnds(w, depth, events, s, maxOut);
    ReachesTwice(w, NewSsl(depth), events, s, Ending(s, maxOut), s');
    KeyOperationEnds(w, depth, events + Ending(s, maxOut), s', |s.calls|);
  }
}
