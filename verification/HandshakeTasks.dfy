/**
 * Handshake callbacks that are suspended: the engine's call parks one Java task on the SSL
 * and answers "retry", the application takes the task and some thread runs it, and the
 * engine polls until the task is complete. Engine, application and task threads interleave;
 * each store a running task makes is a step of its own.
 */
module HandshakeTasks {
  import opened Bytes

  type TaskId = nat
  type Cert = seq<byte>

  const X509_V_OK := 0
  const X509_V_ERR_UNSPECIFIED := 1
  const X509_V_ERR_UNABLE_TO_GET_ISSUER_CERT_LOCALLY := 20

  // ------------------------------------------------------------------- the application

  /** How the application's callbacks behave. */
  datatype Verdict = Returns(code: int) | Throws
  datatype Handled = Normally | WithException | WithError
  datatype Report = OnSuccess(bytes: Option<seq<byte>>) | OnError | NoReport

  /** What a task does when it runs. The certificate callback gets its arguments as one value. */
  datatype Job =
    | VerifyJob(certs: seq<Cert>, auth: string)
    | CertificateJob(request: seq<byte>)
    | SignJob(algorithm: int, digest: seq<byte>)
    | DecryptJob(input: seq<byte>)

  predicate IsKeyJob(job: Job) {
    job.SignJob? || job.DecryptJob?
  }

  datatype World = World(useTasks: bool, hasVerifier: bool, hasKeyMethod: bool,
                         verify: (seq<Cert>, string) -> Verdict,
                         handle: seq<byte> -> Handled,
                         key: Job -> Report)

  /** What a job reports through its callback, if it ever does: the value and the result bytes. */
  function Outcome(w: World, job: Job): (r: Option<(int, Option<seq<byte>>)>) {
    match job
    case VerifyJob(certs, auth) =>
      var v := w.verify(certs, auth);
      if v.Returns? then Some((v.code, None)) else None
    case CertificateJob(request) =>
      (match w.handle(request)
       case Normally => Some((1, None))
       case WithException => Some((0, None))
       case WithError => None)
    case _ =>
      (match w.key(job)
       case OnSuccess(bytes) => Some((1, bytes))
       case OnError => Some((0, Some([])))
       case NoReport => None)
  }

  // ------------------------------------------------------------------------- the state

  /** How far the thread running a task has come. */
  datatype Running = NotStarted | Body | Storing(ret: int) | Stored | Finished | Dead

  /** A Java task: the fields of SSLTask and SSLPrivateKeyMethodTask. */
  datatype Task = Task(job: Job, didRun: bool, returnValue: int, complete: bool,
                       resultBytes: Option<seq<byte>>, running: Running)

  /** tcn_ssl_task_t */
  datatype Parked = Parked(id: TaskId, consumed: bool)

  /** The engine's operation in progress; it is the only one the engine re-enters. */
  datatype Op =
    | NoOp
    | Verifying(chain: Option<seq<Cert>>, depth: nat, auth: string)
    | Certifying(request: seq<byte>)
    | UsingKey(job: Job)

  /** `KeyUntouched` is a success that leaves the engine's buffer as it is. */
  datatype Answer =
    | Retry
    | VerifyOk | VerifyInvalid(code: int)
    | CertReturn(ret: int)
    | KeyDone(out: seq<byte>) | KeyUntouched | KeyFailed

  /** One call of the engine: the room it offered, and whether a JNI environment and memory were there. */
  datatype Call = Call(op: Op, maxOut: nat, env: bool, memory: bool, answer: Answer)

  /**
   * One SSL and the Java tasks made for it. `live` are the global references held, `freed`,
   * `handed`, `bodies` and `consumed` are histories of frees, of getTask results, of started
   * task bodies and of completed tasks with the operation that consumed them.
   */
  datatype State = State(
    slot: Option<Parked>, depth: nat, arrayLen: nat, chainNum: nat, op: Op, closed: bool,
    tasks: seq<Task>, live: set<TaskId>, freed: seq<TaskId>, handed: seq<TaskId>, bodies: seq<TaskId>,
    consumed: seq<(TaskId, Op)>, calls: seq<Call>)

  function NewSsl(depth: nat): State {
    State(None, depth, 0, 0, NoOp, false, [], {}, [], [], [], [], [])
  }

  // ------------------------------------------------------------- certificate verification

  predicate CertsUsable(certs: seq<Cert>) {
    forall i :: 0 <= i < |certs| ==> certs[i] != []
  }

  /** get_certs: the first min(depth, n) certificates, unless one of them is empty. */
  function GetCerts(chain: seq<Cert>, depth: nat): Option<seq<Cert>> {
    var certs := chain[..Min(depth, |chain|)];
    if CertsUsable(certs) then Some(certs) else None
  }

  /** The rewrite of "unspecified" for a chain that was cut. */
  function Mapped(code: int, cut: bool): int {
    if code == X509_V_ERR_UNSPECIFIED && cut then X509_V_ERR_UNABLE_TO_GET_ISSUER_CERT_LOCALLY else code
  }

  function VerifyAnswer(code: int): Answer {
    if code == X509_V_OK then VerifyOk else VerifyInvalid(code)
  }

  /** What the direct call of the verifier answers; a task must come to the same. */
  function Direct(w: World, chain: Option<seq<Cert>>, depth: nat, auth: string): Answer {
    if chain == None || GetCerts(chain.value, depth) == None then
      VerifyInvalid(X509_V_ERR_UNSPECIFIED)
    else
      var certs := GetCerts(chain.value, depth).value;
      var cut := |certs| < |chain.value|;
      if !w.hasVerifier then VerifyInvalid(Mapped(X509_V_ERR_UNSPECIFIED, cut))
      else
        match w.verify(certs, auth)
        case Throws => VerifyInvalid(X509_V_ERR_UNSPECIFIED)
        case Returns(code) => VerifyAnswer(Mapped(code, cut))
  }

  // --------------------------------------------------------------------- building blocks

  /** tcn_ssl_task_new, with a global reference, and the slot set. */
  function Park(s: State, job: Job, op: Op): State {
    var id := |s.tasks|;
    s.(tasks := s.tasks + [Task(job, false, 0, false, None, NotStarted)],
       slot := Some(Parked(id, false)), live := s.live + {id}, op := op)
  }

  /** tcn_ssl_task_free, and the slot cleared. */
  function Release(s: State): State {
    match s.slot
    case None => s
    case Some(p) => s.(slot := None, live := s.live - {p.id}, freed := s.freed + [p.id])
  }

  /** A poll found the task complete: free it and end the operation. */
  function Finish(s: State): State {
    match s.slot
    case None => s
    case Some(p) => Release(s).(op := NoOp, consumed := s.consumed + [(p.id, s.op)])
  }

  /** The parked task, as the engine sees it through JNI. */
  function ParkedTask(s: State): Option<Task> {
    if s.slot.Some? && s.slot.value.id < |s.tasks| then Some(s.tasks[s.slot.value.id]) else None
  }

  // ---------------------------------------------------------------- the engine's callbacks

  /** tcn_SSL_cert_custom_verify */
  function CustomVerify(w: World, s: State, chain: Option<seq<Cert>>, auth: string, env: bool, memory: bool): (State, Answer) {
    if !env then
      (s, VerifyInvalid(X509_V_ERR_UNSPECIFIED))
    else if ParkedTask(s).Some? then
      var task := ParkedTask(s).value;
      if !task.complete then (s, Retry)
      else (Finish(s), VerifyAnswer(Mapped(task.returnValue, s.arrayLen < s.chainNum)))
    else if chain == None || GetCerts(chain.value, s.depth) == None || !memory then
      (s, VerifyInvalid(X509_V_ERR_UNSPECIFIED))
    else
      var certs := GetCerts(chain.value, s.depth).value;
      if w.hasVerifier && w.useTasks then
        (Park(s, VerifyJob(certs, auth), Verifying(chain, s.depth, auth))
         .(arrayLen := |certs|, chainNum := |chain.value|), Retry)
      else
        (s, Direct(w, chain, s.depth, auth))
  }

  /** certificate_cb */
  function CertificateCb(w: World, s: State, request: seq<byte>, env: bool, memory: bool): (State, Answer) {
    if !env then
      (s, CertReturn(0))
    else if ParkedTask(s).Some? then
      var task := ParkedTask(s).value;
      if !task.complete then (s, Retry) else (Finish(s), CertReturn(task.returnValue))
    else if w.useTasks then
      if memory then (Park(s, CertificateJob(request), Certifying(request)), Retry) else (s, CertReturn(0))
    else
      (s, CertReturn(if w.handle(request) == Normally then 1 else 0))
  }

  /** tcn_private_key_sign_java and tcn_private_key_decrypt_java with tasks in use. */
  function StartKey(w: World, s: State, job: Job, env: bool, memory: bool): (State, Answer) {
    if w.hasKeyMethod && env && memory then (Park(s, job, UsingKey(job)), Retry) else (s, KeyFailed)
  }

  /** What the result bytes of a task mean for the engine's buffer. */
  function KeyAnswer(bytes: Option<seq<byte>>, maxOut: nat, memory: bool): Answer {
    if bytes == None || |bytes.value| > maxOut || !memory then KeyFailed else KeyDone(bytes.value)
  }

  /** tcn_private_key_complete_java */
  function CompleteKey(w: World, s: State, maxOut: nat, env: bool, memory: bool): (State, Answer) {
    if !w.useTasks then
      (s, KeyUntouched)
    else if ParkedTask(s) == None || !env then
      (s, KeyFailed)
    else
      var task := ParkedTask(s).value;
      if !task.complete then (s, Retry) else (Finish(s), KeyAnswer(task.resultBytes, maxOut, memory))
  }

  // ----------------------------------------------------------------------------- the steps

  datatype Event =
    | Verify(chain: Option<seq<Cert>>, auth: string, env: bool, memory: bool)
    | Certificate(request: seq<byte>, env: bool, memory: bool)
    | Key(job: Job, env: bool, memory: bool)
    | Complete(maxOut: nat, env: bool, memory: bool)
    | SetDepth(depth: int)
    | GetTask
    | FreeSsl
    | Run(id: TaskId)
    | ReportOutcome(id: TaskId)
    | StoreReturn(id: TaskId)
    | StoreComplete(id: TaskId)

  /**
   * While a task is parked the engine re-enters only the operation that parked it, through
   * the entry the TLS library uses for it, and it calls nothing on a freed SSL. A task is run
   * by whoever getTask gave it to.
   */
  predicate Enabled(w: World, s: State, e: Event) {
    match e
    case Verify(_, _, _, _) => !s.closed && (s.op == NoOp || s.op.Verifying?)
    case Certificate(_, _, _) => !s.closed && (s.op == NoOp || s.op.Certifying?)
    case Key(job, _, _) => !s.closed && s.op == NoOp && w.useTasks && IsKeyJob(job)
    case Complete(_, _, _) => !s.closed && s.op.UsingKey?
    case SetDepth(_) => !s.closed
    case GetTask => !s.closed
    case FreeSsl => !s.closed
    case Run(id) => id in s.handed && id < |s.tasks|
    case ReportOutcome(id) => id < |s.tasks| && s.tasks[id].running == Body
    case StoreReturn(id) => id < |s.tasks| && s.tasks[id].running.Storing?
    case StoreComplete(id) => id < |s.tasks| && s.tasks[id].running == Stored
  }

  /** The operation a call belongs to: the suspended one, or the one it starts. */
  function OpOf(s: State, started: Op): Op {
    if s.op == NoOp then started else s.op
  }

  function Logged(r: (State, Answer), op: Op, maxOut: nat, env: bool, memory: bool): State {
    r.0.(calls := r.0.calls + [Call(op, maxOut, env, memory, r.1)])
  }

  function SetTask(s: State, id: TaskId, task: Task): State
    requires id < |s.tasks|
  {
    s.(tasks := s.tasks[id := task])
  }

  function Step(w: World, s: State, e: Event): State
    requires Enabled(w, s, e)
  {
    match e
    case Verify(chain, auth, env, memory) =>
      Logged(CustomVerify(w, s, chain, auth, env, memory), OpOf(s, Verifying(chain, s.depth, auth)), 0, env, s.op != NoOp || memory)
    case Certificate(request, env, memory) =>
      Logged(CertificateCb(w, s, request, env, memory), OpOf(s, Certifying(request)), 0, env, s.op != NoOp || memory)
    case Key(job, env, memory) => Logged(StartKey(w, s, job, env, memory), UsingKey(job), 0, env, memory)
    case Complete(maxOut, env, memory) => Logged(CompleteKey(w, s, maxOut, env, memory), s.op, maxOut, env, memory)
    case SetDepth(depth) => if depth >= 0 then s.(depth := depth) else s
    case GetTask =>
      if s.slot == None || s.slot.value.consumed then s
      else s.(slot := Some(s.slot.value.(consumed := true)), handed := s.handed + [s.slot.value.id])
    case FreeSsl => Release(s).(closed := true, op := NoOp)
    case Run(id) =>
      if s.tasks[id].didRun then s
      else SetTask(s, id, s.tasks[id].(didRun := true, running := Body)).(bodies := s.bodies + [id])
    case ReportOutcome(id) =>
      (match Outcome(w, s.tasks[id].job)
       case None => SetTask(s, id, s.tasks[id].(running := Dead))
       case Some((ret, bytes)) => SetTask(s, id, s.tasks[id].(running := Storing(ret), resultBytes := bytes)))
    case StoreReturn(id) =>
      SetTask(s, id, s.tasks[id].(returnValue := s.tasks[id].running.ret, running := Stored))
    case StoreComplete(id) =>
      SetTask(s, id, s.tasks[id].(complete := true, running := Finished))
  }
}
