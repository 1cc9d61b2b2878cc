/** What holds over every interleaving of engine, application and task threads. */
module HandshakeRuns {
  import opened Bytes
  import opened HandshakeTasks

  // ------------------------------------------------------------------------ invariants

  /** A task's fields agree with how far it has run; only a reporting job ever completes. */
  ghost predicate TaskOk(w: World, t: Task) {
    && t.didRun == !t.running.NotStarted?
    && t.complete == t.running.Finished?
    && match t.running
       case Storing(ret) => Outcome(w, t.job) == Some((ret, t.resultBytes))
       case Stored => Outcome(w, t.job) == Some((t.returnValue, t.resultBytes))
       case Finished => Outcome(w, t.job) == Some((t.returnValue, t.resultBytes))
       case Dead => Outcome(w, t.job) == None
       case _ => t.resultBytes == None
  }

  ghost predicate TaskInv(w: World, s: State) {
    forall id :: 0 <= id < |s.tasks| ==> TaskOk(w, s.tasks[id])
  }

  /** One reference is held for the parked task and none otherwise; every other task was freed once. */
  ghost predicate RefInv(s: State) {
    && s.live == (if s.slot.Some? then {s.slot.value.id} else {})
    && (s.slot.Some? ==> s.slot.value.id < |s.tasks| && s.slot.value.id !in s.freed)
    && (forall id :: 0 <= id < |s.tasks| ==> id in s.freed || (s.slot.Some? && s.slot.value.id == id))
    && (forall id :: id in s.freed ==> id < |s.tasks|)
    && NoRepeats(s.freed)
  }

  /** A task is handed out at most once, and its body starts at most once, after that. */
  ghost predicate HandInv(s: State) {
    && NoRepeats(s.handed) && NoRepeats(s.bodies)
    && (forall id :: id in s.handed ==> id < |s.tasks|)
    && (s.slot.Some? ==> (s.slot.value.consumed <==> s.slot.value.id in s.handed))
    && (forall id :: id in s.bodies ==> id in s.handed && s.tasks[id].didRun)
    && (forall id :: 0 <= id < |s.tasks| && s.tasks[id].didRun ==> id in s.bodies)
  }

  /** The job an operation parks. */
  ghost predicate Fits(w: World, job: Job, op: Op) {
    match op
    case NoOp => false
    case Verifying(chain, depth, auth) =>
      w.hasVerifier && chain.Some? && GetCerts(chain.value, depth).Some? &&
      job == VerifyJob(GetCerts(chain.value, depth).value, auth)
    case Certifying(request) => job == CertificateJob(request)
    case UsingKey(j) => job == j && IsKeyJob(j)
  }

  ghost predicate OpInv(w: World, s: State) {
    && (s.op == NoOp <==> s.slot == None)
    && (s.slot.Some? ==> w.useTasks) && (s.op.UsingKey? ==> w.hasKeyMethod)
    && (s.closed ==> s.slot == None)
    && (s.slot.Some? ==>
          && s.slot.value.id < |s.tasks| && Fits(w, s.tasks[s.slot.value.id].job, s.op)
          && (s.op.Verifying? ==> s.arrayLen == |s.tasks[s.slot.value.id].job.certs| && s.chainNum == |s.op.chain.value|))
    && (forall k :: 0 <= k < |s.consumed| ==>
          s.consumed[k].0 < |s.tasks| && Fits(w, s.tasks[s.consumed[k].0].job, s.consumed[k].1))
  }

  /** What the direct call of the certificate handler answers. */
  function DirectCertificate(w: World, request: seq<byte>): int {
    if w.handle(request) == Normally then 1 else 0
  }

  /** The bytes a private-key job stores for the engine. */
  function KeyBytes(w: World, job: Job): Option<seq<byte>> {
    if Outcome(w, job).Some? then Outcome(w, job).value.1 else None
  }

  /** The application answers: its verifier returns, its handler does not die, its key method calls back. */
  predicate JobReports(w: World, job: Job) {
    match job
    case VerifyJob(certs, auth) => w.verify(certs, auth).Returns?
    case CertificateJob(request) => w.handle(request) != WithError
    case _ => w.key(job) != NoReport
  }

  /** A call that does not answer retry answers as the same operation would without tasks. */
  ghost predicate CallOk(w: World, c: Call) {
    && (c.op.UsingKey? ==> w.useTasks && IsKeyJob(c.op.job))
    && (c.answer == Retry ==> w.useTasks && c.env && Suspends(w, c.op))
    && (c.answer == Retry || EndsRight(w, c))
    && (c.answer != Retry && w.useTasks && c.env && c.memory && Suspends(w, c.op) ==> JobReports(w, JobOf(c.op)))
  }

  /** Given environment and memory, the operation has what it takes to become a task. */
  ghost predicate Suspends(w: World, op: Op) {
    match op
    case NoOp => false
    case Verifying(chain, depth, _) => w.hasVerifier && chain.Some? && GetCerts(chain.value, depth).Some?
    case Certifying(_) => true
    case UsingKey(_) => w.hasKeyMethod
  }

  ghost function JobOf(op: Op): Job
    requires op != NoOp && (op.Verifying? ==> op.chain.Some?)
  {
    match op
    case Verifying(chain, depth, auth) => VerifyJob(chain.value[..Min(depth, |chain.value|)], auth)
    case Certifying(request) => CertificateJob(request)
    case UsingKey(job) => job
  }

  ghost predicate EndsRight(w: World, c: Call) {
    match c.op
    case NoOp => false
    case Verifying(chain, depth, auth) =>
      c.answer == if c.env && c.memory then Direct(w, chain, depth, auth) else VerifyInvalid(X509_V_ERR_UNSPECIFIED)
    case Certifying(request) =>
      c.answer == CertReturn(if c.env && (c.memory || !w.useTasks) then DirectCertificate(w, request) else 0)
    case UsingKey(job) =>
      c.answer == if c.env && w.hasKeyMethod then KeyAnswer(KeyBytes(w, job), c.maxOut, c.memory) else KeyFailed
  }

  ghost predicate CallInv(w: World, s: State) {
    forall k :: 0 <= k < |s.calls| ==> CallOk(w, s.calls[k])
  }

  ghost predicate Inv(w: World, s: State) {
    TaskInv(w, s) && RefInv(s) && HandInv(s) && OpInv(w, s) && CallInv(w, s)
  }

  // ----------------------------------------------------------------- every step keeps them

  lemma NoRepeatsAppend<T>(log: seq<T>, x: T)
    requires NoRepeats(log) && x !in log
    ensures NoRepeats(log + [x])
  {
  }

  lemma FinishKeeps(w: World, s: State)
    requires Inv(w, s) && s.slot.Some?
    ensures Inv(w, Finish(s))
  {
  }

  lemma LoggedKeeps(w: World, s: State, op: Op, maxOut: nat, env: bool, memory: bool, answer: Answer)
    requires Inv(w, s) && CallOk(w, Call(op, maxOut, env, memory, answer))
    ensures Inv(w, Logged((s, answer), op, maxOut, env, memory))
  {
  }

  lemma ParkKeeps(w: World, s: State, s': State, job: Job, op: Op)
    requires Inv(w, s) && s.slot == None && !s.closed && Fits(w, job, op) && w.useTasks && (op.UsingKey? ==> w.hasKeyMethod)
    requires s' == Park(s, job, op) || (op.Verifying? && s' == Park(s, job, op).(arrayLen := |job.certs|, chainNum := |op.chain.value|))
    requires op.Verifying? ==> s'.arrayLen == |job.certs| && s'.chainNum == |op.chain.value|
    ensures Inv(w, s')
  {
  }

  /** The answer a completed verification task leads to is the direct one. */
  lemma VerifyPollIsDirect(w: World, s: State)
    requires Inv(w, s) && s.op.Verifying? && s.tasks[s.slot.value.id].complete
    ensures VerifyAnswer(Mapped(s.tasks[s.slot.value.id].returnValue, s.arrayLen < s.chainNum))
         == Direct(w, s.op.chain, s.op.depth, s.op.auth)
  {
  }

  /** A task that is complete belongs to a job that reported. */
  lemma CompleteReported(w: World, s: State, id: TaskId)
    requires TaskInv(w, s) && id < |s.tasks|
    ensures s.tasks[id].complete ==> JobReports(w, s.tasks[id].job)
  {
    assert TaskOk(w, s.tasks[id]);
  }

  lemma VerifyCallOk(w: World, s: State, e: Event)
    requires Inv(w, s) && e.Verify? && Enabled(w, s, e)
    ensures CallOk(w, Call(OpOf(s, Verifying(e.chain, s.depth, e.auth)), 0, e.env, s.op != NoOp || e.memory,
                           CustomVerify(w, s, e.chain, e.auth, e.env, e.memory).1))
  {
    if s.slot.Some? {
      CompleteReported(w, s, s.slot.value.id);
      if s.tasks[s.slot.value.id].complete {
        VerifyPollIsDirect(w, s);
      }
    }
  }

  lemma VerifyKeepsInv(w: World, s: State, e: Event)
    requires Inv(w, s) && e.Verify? && Enabled(w, s, e)
    ensures Inv(w, Step(w, s, e))
  {
    var r := CustomVerify(w, s, e.chain, e.auth, e.env, e.memory);
    var op := OpOf(s, Verifying(e.chain, s.depth, e.auth));
    if s.slot.Some? {
      FinishKeeps(w, s);
    } else if r.1 == Retry {
      ParkKeeps(w, s, r.0, VerifyJob(GetCerts(e.chain.value, s.depth).value, e.auth), op);
    }
    VerifyCallOk(w, s, e);
    LoggedKeeps(w, r.0, op, 0, e.env, s.op != NoOp || e.memory, r.1);
  }

  lemma CertificateCallOk(w: World, s: State, e: Event)
    requires Inv(w, s) && e.Certificate? && Enabled(w, s, e)
    ensures CallOk(w, Call(OpOf(s, Certifying(e.request)), 0, e.env, s.op != NoOp || e.memory,
                           CertificateCb(w, s, e.request, e.env, e.memory).1))
  {
    if s.slot.Some? {
      CompleteReported(w, s, s.slot.value.id);
      assert TaskOk(w, s.tasks[s.slot.value.id]);
    }
  }

  lemma CertificateKeepsInv(w: World, s: State, e: Event)
    requires Inv(w, s) && e.Certificate? && Enabled(w, s, e)
    ensures Inv(w, Step(w, s, e))
  {
    var r := CertificateCb(w, s, e.request, e.env, e.memory);
    var op := OpOf(s, Certifying(e.request));
    if s.slot.Some? {
      FinishKeeps(w, s);
    } else if r.1 == Retry {
      ParkKeeps(w, s, r.0, CertificateJob(e.request), op);
    }
    CertificateCallOk(w, s, e);
    LoggedKeeps(w, r.0, op, 0, e.env, s.op != NoOp || e.memory, r.1);
  }

  lemma CompleteCallOk(w: World, s: State, e: Event)
    requires Inv(w, s) && e.Complete? && Enabled(w, s, e)
    ensures CallOk(w, Call(s.op, e.maxOut, e.env, e.memory, CompleteKey(w, s, e.maxOut, e.env, e.memory).1))
  {
    CompleteReported(w, s, s.slot.value.id);
    assert TaskOk(w, s.tasks[s.slot.value.id]);
  }

  lemma KeyKeepsInv(w: World, s: State, e: Event)
    requires Inv(w, s) && (e.Key? || e.Complete?) && Enabled(w, s, e)
    ensures Inv(w, Step(w, s, e))
  {
    if e.Key? {
      var r := StartKey(w, s, e.job, e.env, e.memory);
      if r.1 == Retry {
        ParkKeeps(w, s, r.0, e.job, UsingKey(e.job));
      }
      LoggedKeeps(w, r.0, UsingKey(e.job), 0, e.env, e.memory, r.1);
    } else {
      var r := CompleteKey(w, s, e.maxOut, e.env, e.memory);
      CompleteCallOk(w, s, e);
      FinishKeeps(w, s);
      LoggedKeeps(w, r.0, s.op, e.maxOut, e.env, e.memory, r.1);
    }
  }

  // ------------------------------------------------------ application and task-thread steps

  lemma ApplicationKeepsInv(w: World, s: State, e: Event)
    requires Inv(w, s) && (e.SetDepth? || e.GetTask? || e.FreeSsl?) && Enabled(w, s, e)
    ensures Inv(w, Step(w, s, e))
  {
    if e.GetTask? && s.slot.Some? && !s.slot.value.consumed {
      NoRepeatsAppend(s.handed, s.slot.value.id);
      assert (s.handed + [s.slot.value.id])[|s.handed|] == s.slot.value.id;
    }
  }

  predicate IsTaskStep(e: Event) {
    e.Run? || e.ReportOutcome? || e.StoreReturn? || e.StoreComplete?
  }

  /** A step of a task thread changes that task and, for the machine, a history. */
  lemma TaskStepChangesOneTask(w: World, s: State, e: Event)
    requires Enabled(w, s, e) && IsTaskStep(e)
    ensures var s' := Step(w, s, e);
            && e.id < |s'.tasks| && s'.tasks == s.tasks[e.id := s'.tasks[e.id]]
            && s' == s.(tasks := s'.tasks, bodies := s'.bodies)
  {
  }

  /** Changing one task to another good state of the same job keeps everything but the histories. */
  lemma SetTaskKeeps(w: World, s: State, id: TaskId, t: Task)
    requires Inv(w, s) && id < |s.tasks| && TaskOk(w, t)
    requires t.job == s.tasks[id].job && t.didRun == s.tasks[id].didRun
    ensures Inv(w, SetTask(s, id, t))
  {
  }

  lemma TaskStaysOk(w: World, s: State, e: Event)
    requires TaskInv(w, s) && Enabled(w, s, e) && IsTaskStep(e)
    ensures e.id < |Step(w, s, e).tasks| && TaskOk(w, Step(w, s, e).tasks[e.id])
    ensures !e.Run? ==> Step(w, s, e).tasks[e.id].didRun == s.tasks[e.id].didRun
    ensures Step(w, s, e).tasks[e.id].job == s.tasks[e.id].job
  {
    assert TaskOk(w, s.tasks[e.id]);
  }

  lemma RunKeepsInv(w: World, s: State, e: Event)
    requires Inv(w, s) && e.Run? && Enabled(w, s, e)
    ensures Inv(w, Step(w, s, e))
  {
    if !s.tasks[e.id].didRun {
      NoRepeatsAppend(s.bodies, e.id);
      var s' := Step(w, s, e);
      assert TaskOk(w, s.tasks[e.id]);
      assert (s.bodies + [e.id])[|s.bodies|] == e.id;
      forall k | 0 <= k < |s'.tasks|
        ensures TaskOk(w, s'.tasks[k]) && (s'.tasks[k].didRun ==> k in s'.bodies)
      {
        assert TaskOk(w, s.tasks[k]);
      }
    }
  }

  lemma TaskStoresKeepInv(w: World, s: State, e: Event)
    requires Inv(w, s) && (e.ReportOutcome? || e.StoreReturn? || e.StoreComplete?) && Enabled(w, s, e)
    ensures Inv(w, Step(w, s, e))
  {
    TaskStepChangesOneTask(w, s, e);
    TaskStaysOk(w, s, e);
    SetTaskKeeps(w, s, e.id, Step(w, s, e).tasks[e.id]);
  }

  lemma StepKeepsInv(w: World, s: State, e: Event)
    requires Inv(w, s) && Enabled(w, s, e)
    ensures Inv(w, Step(w, s, e))
  {
    if e.Verify? {
      VerifyKeepsInv(w, s, e);
    } else if e.Certificate? {
      CertificateKeepsInv(w, s, e);
    } else if e.Key? || e.Complete? {
      KeyKeepsInv(w, s, e);
    } else if e.SetDepth? || e.GetTask? || e.FreeSsl? {
      ApplicationKeepsInv(w, s, e);
    } else if e.Run? {
      RunKeepsInv(w, s, e);
    } else {
      TaskStoresKeepInv(w, s, e);
    }
  }

  // ------------------------------------------------------------------------------ runs

  /** The state after the events, if each of them was possible when it came. */
  ghost predicate Reaches(w: World, s: State, events: seq<Event>, s': State)
    decreases |events|
  {
    if events == [] then s' == s
    else Enabled(w, s, events[0]) && Reaches(w, Step(w, s, events[0]), events[1..], s')
  }

  lemma {:induction false} ReachesKeepsInv(w: World, s: State, events: seq<Event>, s': State)
    requires Inv(w, s) && Reaches(w, s, events, s')
    ensures Inv(w, s')
    decreases |events|
  {
    if events != [] {
      StepKeepsInv(w, s, events[0]);
      ReachesKeepsInv(w, Step(w, s, events[0]), events[1..], s');
    }
  }

  /**
   * Whatever the interleaving, an operation that ends answers what it would have answered
   * without a task: the same verdict and error code, the same certificate result, and for a
   * private key exactly the bytes the task stored, if there are any and they fit.
   */
  lemma SuspensionIsTransparent(w: World, depth: nat, events: seq<Event>, s: State)
    requires Reaches(w, NewSsl(depth), events, s)
    ensures forall k :: 0 <= k < |s.calls| ==> CallOk(w, s.calls[k])
  {
    ReachesKeepsInv(w, NewSsl(depth), events, s);
  }

  /**
   * Whatever the interleaving: one reference while a task is parked and none otherwise, each
   * task handed out at most once, run at most once and only after that, freed at most once,
   * and consumed by the operation that made it. When the SSL is freed all have been freed.
   */
  lemma TasksAreConserved(w: World, depth: nat, events: seq<Event>, s: State)
    requires Reaches(w, NewSsl(depth), events, s)
    ensures |s.live| == (if s.slot.Some? then 1 else 0) && (s.slot == None <==> s.op == NoOp)
    ensures NoRepeats(s.handed) && NoRepeats(s.bodies) && NoRepeats(s.freed)
    ensures forall id :: id in s.bodies ==> id in s.handed
    ensures forall id :: 0 <= id < |s.tasks| ==> (id in s.freed <==> !(s.slot.Some? && s.slot.value.id == id))
    ensures forall k :: 0 <= k < |s.consumed| ==>
              s.consumed[k].0 < |s.tasks| && Fits(w, s.tasks[s.consumed[k].0].job, s.consumed[k].1)
    ensures s.closed ==> s.live == {} && forall id :: 0 <= id < |s.tasks| ==> id in s.freed
  {
    ReachesKeepsInv(w, NewSsl(depth), events, s);
  }

  /**
   * A verifier that returns gets the first min(depth, n) certificates in order, and its
   * "unspecified" becomes "no local issuer" exactly when the chain is longer than the depth.
   */
  lemma DepthCut(w: World, chain: seq<Cert>, depth: nat, auth: string)
    requires w.hasVerifier && CertsUsable(chain[..Min(depth, |chain|)])
    requires w.verify(chain[..Min(depth, |chain|)], auth).Returns?
    ensures var code := w.verify(chain[..Min(depth, |chain|)], auth).code;
            Direct(w, Some(chain), depth, auth) ==
              if code == X509_V_OK then VerifyOk
              else if code == X509_V_ERR_UNSPECIFIED && |chain| > depth then
                VerifyInvalid(X509_V_ERR_UNABLE_TO_GET_ISSUER_CERT_LOCALLY)
              else VerifyInvalid(code)
  {
  }

  /** The answer of the last engine call. */
  function LastAnswer(s: State): Answer
    requires s.calls != []
  {
    s.calls[|s.calls| - 1].answer
  }

  predicate Polls(s: State, e: Event) {
    s.op != NoOp && (e.Verify? || e.Certificate? || e.Complete?)
  }

  /** One more call is logged, for this operation. */
  predicate LogsCall(s: State, s': State, op: Op, env: bool) {
    && |s'.calls| == |s.calls| + 1 && s'.calls[..|s.calls|] == s.calls
    && s'.calls[|s.calls|].op == op && s'.calls[|s.calls|].env == env
  }

  /** The task is freed, the slot emptied, and the operation that parked the task has consumed it. */
  predicate Consumes(s: State, s': State, id: TaskId) {
    && s'.slot == None && s'.op == NoOp && s'.freed == s.freed + [id]
    && s'.consumed == s.consumed + [(id, s.op)] && s'.tasks == s.tasks && s'.handed == s.handed
  }

  lemma PollStep(w: World, s: State, e: Event)
    requires OpInv(w, s) && Enabled(w, s, e) && Polls(s, e)
    ensures var s' := Step(w, s, e);
            && LogsCall(s, s', s.op, e.env)
            && (e.Complete? ==> s'.calls[|s.calls|].maxOut == e.maxOut)
            && s'.calls[|s.calls|].memory == (e.Complete? ==> e.memory)
            && (LastAnswer(s') == Retry <==> e.env && !s.tasks[s.slot.value.id].complete)
            && (LastAnswer(s') == Retry || !e.env ==> s' == s.(calls := s'.calls))
            && (e.env && LastAnswer(s') != Retry ==> Consumes(s, s', s.slot.value.id))
  {
  }

  /**
   * With a JNI environment a poll answers retry exactly while the task is not complete, and
   * then changes nothing; the first poll after that consumes the task. Without one a poll
   * fails and changes nothing: the task stays parked.
   */
  lemma PollAnswersRetry(w: World, depth: nat, events: seq<Event>, s: State, e: Event)
    requires Reaches(w, NewSsl(depth), events, s) && Enabled(w, s, e) && Polls(s, e)
    ensures s.slot.Some? && s.slot.value.id < |s.tasks|
    ensures var s' := Step(w, s, e);
            && LogsCall(s, s', s.op, e.env)
            && (e.Complete? ==> s'.calls[|s.calls|].maxOut == e.maxOut && s'.calls[|s.calls|].memory == e.memory)
            && (LastAnswer(s') == Retry <==> e.env && !s.tasks[s.slot.value.id].complete)
            && (LastAnswer(s') == Retry || !e.env ==> s' == s.(calls := s'.calls))
            && (e.env && LastAnswer(s') != Retry ==> Consumes(s, s', s.slot.value.id))
  {
    ReachesKeepsInv(w, NewSsl(depth), events, s);
    PollStep(w, s, e);
  }

  /**
   * A private-key operation that ends fails if method, environment or memory are missing.
   * Otherwise the method called back: its bytes are handed over if they fit, an error counts
   * as no bytes, and success without bytes fails.
   */
  lemma KeyOperationEnds(w: World, depth: nat, events: seq<Event>, s: State, k: nat)
    requires Reaches(w, NewSsl(depth), events, s)
    requires k < |s.calls| && s.calls[k].op.UsingKey? && s.calls[k].answer != Retry
    ensures var c := s.calls[k];
            if !w.hasKeyMethod || !c.env || !c.memory then c.answer == KeyFailed
            else
              match w.key(c.op.job)
              case OnSuccess(Some(bytes)) => c.answer == if |bytes| <= c.maxOut then KeyDone(bytes) else KeyFailed
              case OnSuccess(None) => c.answer == KeyFailed
              case OnError => c.answer == KeyDone([])
              case NoReport => false
  {
    SuspensionIsTransparent(w, depth, events, s);
    assert CallOk(w, s.calls[k]);
  }

  /** A method that reports an error ends the operation with success and no bytes. */
  lemma OnErrorSucceeds(w: World, depth: nat, events: seq<Event>, s: State, k: nat)
    requires Reaches(w, NewSsl(depth), events, s)
    requires k < |s.calls| && s.calls[k].op.UsingKey? && s.calls[k].answer != Retry
    requires w.key(s.calls[k].op.job) == OnError && w.hasKeyMethod && s.calls[k].env && s.calls[k].memory
    ensures s.calls[k].answer == KeyDone([])
  {
    SuspensionIsTransparent(w, depth, events, s);
    assert CallOk(w, s.calls[k]);
  }

  /** The rest of a task's life, from wherever it is, without any other thread. */
  function Remaining(r: Running, id: TaskId): (events: seq<Event>) {
    match r
    case NotStarted => [Run(id), ReportOutcome(id), StoreReturn(id), StoreComplete(id)]
    case Body => [ReportOutcome(id), StoreReturn(id), StoreComplete(id)]
    case Storing(_) => [StoreReturn(id), StoreComplete(id)]
    case Stored => [StoreComplete(id)]
    case _ => []
  }

  /**
   * A task that was handed out can be brought to completion exactly when its job reports:
   * a verifier that throws, a handler that dies with an error and a private-key method that
   * never calls back all leave the engine retrying.
   */
  lemma CompletionNeedsReport(w: World, depth: nat, events: seq<Event>, s: State, id: TaskId)
    requires Reaches(w, NewSsl(depth), events, s) && id < |s.tasks|
    ensures s.tasks[id].complete ==> JobReports(w, s.tasks[id].job)
    ensures id in s.handed && JobReports(w, s.tasks[id].job) ==>
              exists s' :: Reaches(w, s, Remaining(s.tasks[id].running, id), s') && id < |s'.tasks| && s'.tasks[id].complete
  {
    ReachesKeepsInv(w, NewSsl(depth), events, s);
    CompleteReported(w, s, id);
    if id in s.handed && JobReports(w, s.tasks[id].job) {
      var s' := FinishFrom(w, s, id);
    }
  }

  lemma FinishStep(w: World, s: State, id: TaskId)
    requires TaskInv(w, s) && id < |s.tasks| && id in s.handed && JobReports(w, s.tasks[id].job)
    requires Remaining(s.tasks[id].running, id) != []
    ensures var rest := Remaining(s.tasks[id].running, id);
            && Enabled(w, s, rest[0])
            && var next := Step(w, s, rest[0]);
               && id < |next.tasks| && next.handed == s.handed && next.tasks[id].job == s.tasks[id].job
               && Remaining(next.tasks[id].running, id) == rest[1..]
  {
    assert TaskOk(w, s.tasks[id]);
  }

  lemma {:induction false} FinishFrom(w: World, s: State, id: TaskId) returns (s': State)
    requires Inv(w, s) && id < |s.tasks| && id in s.handed && JobReports(w, s.tasks[id].job)
    ensures Reaches(w, s, Remaining(s.tasks[id].running, id), s') && id < |s'.tasks| && s'.tasks[id].complete
    ensures Inv(w, s') && s' == s.(tasks := s'.tasks, bodies := s'.bodies)
    decreases |Remaining(s.tasks[id].running, id)|
  {
    var rest := Remaining(s.tasks[id].running, id);
    if rest == [] {
      assert TaskOk(w, s.tasks[id]);
      s' := s;
    } else {
      FinishStep(w, s, id);
      TaskStepChangesOneTask(w, s, rest[0]);
      StepKeepsInv(w, s, rest[0]);
      s' := FinishFrom(w, Step(w, s, rest[0]), id);
    }
  }

  // ------------------------------------------------------------- a verifier that throws

  /** The suspended verification of a chain whose verifier throws. */
  ghost predicate Throwing(w: World, op: Op) {
    op.Verifying? && op.chain.Some? && GetCerts(op.chain.value, op.depth).Some? &&
    w.verify(GetCerts(op.chain.value, op.depth).value, op.auth) == Throws
  }

  /** Only freeing the SSL ends such an operation. */
  lemma ThrowingStepStays(w: World, s: State, op: Op, e: Event)
    requires Inv(w, s) && Throwing(w, op) && (s.closed || s.op == op) && Enabled(w, s, e)
    ensures Step(w, s, e).closed || Step(w, s, e).op == op
  {
    if !s.closed {
      assert TaskOk(w, s.tasks[s.slot.value.id]);
    }
  }

  lemma {:induction false} ThrowingRunStays(w: World, s: State, op: Op, events: seq<Event>, s': State)
    requires Inv(w, s) && Throwing(w, op) && (s.closed || s.op == op) && Reaches(w, s, events, s')
    ensures Inv(w, s') && (s'.closed || s'.op == op)
    decreases |events|
  {
    if events != [] {
      StepKeepsInv(w, s, events[0]);
      ThrowingStepStays(w, s, op, events[0]);
      ThrowingRunStays(w, Step(w, s, events[0]), op, events[1..], s');
    }
  }

  lemma ThrowingPollRetries(w: World, s: State, e: Event)
    requires Inv(w, s) && Throwing(w, s.op) && !s.closed && e.Verify? && e.env
    ensures Enabled(w, s, e) && Step(w, s, e).calls != [] && LastAnswer(Step(w, s, e)) == Retry
  {
    assert TaskOk(w, s.tasks[s.slot.value.id]);
  }

  /**
   * Where the direct call fails, the task-based one never ends: after whatever else happens,
   * short of freeing the SSL, the operation is still suspended and every poll answers retry.
   */
  lemma ThrowingVerifierNeverEnds(w: World, depth: nat, events: seq<Event>, s: State, more: seq<Event>, s': State, e: Event)
    requires Reaches(w, NewSsl(depth), events, s) && s.slot.Some? && Throwing(w, s.op)
    requires Reaches(w, s, more, s') && !s'.closed
    requires e.Verify? && e.env
    ensures Direct(w, s.op.chain, s.op.depth, s.op.auth) == VerifyInvalid(X509_V_ERR_UNSPECIFIED)
    ensures s'.op == s.op && Enabled(w, s', e)
    ensures Step(w, s', e).calls != [] && LastAnswer(Step(w, s', e)) == Retry
  {
    ReachesKeepsInv(w, NewSsl(depth), events, s);
    ThrowingRunStays(w, s, s.op, more, s');
    ThrowingPollRetries(w, s', e);
  }
}
