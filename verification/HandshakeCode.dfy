/**
 * The callbacks of sslcontext.c and ssl.c and the Java tasks as they are written: objects
 * whose fields are updated in place. Each method is proved against the machine of
 * HandshakeTasks, whose state goes along as a ghost argument.
 */
module HandshakeCode {
  import opened Bytes
  import opened HandshakeTasks

  /** SSLTask and its subclasses. `running` is where the thread that runs the task is. */
  class SslTask {
    const job: Job
    var didRun: bool
    var returnValue: int
    var complete: bool
    var resultBytes: Option<seq<byte>>
    var running: Running

    ghost function View(): Task
      reads this
    {
      Task(job, didRun, returnValue, complete, resultBytes, running)
    }

    constructor (job: Job)
      ensures View() == Task(job, false, 0, false, None, NotStarted)
    {
      this.job := job;
      didRun, returnValue, complete, resultBytes, running := false, 0, false, None, NotStarted;
    }

    /** The guard of SSLTask.run. */
    method Start()
      modifies this
      ensures View() == if old(didRun) then old(View()) else old(View()).(didRun := true, running := Body)
    {
      if !didRun {
        didRun := true;
        running := Body;
      }
    }

    /** What the application's callback leaves behind: a value to store and the result bytes, or a dead thread. */
    ghost predicate Reported(w: World, before: Option<seq<byte>>)
      reads this
    {
      match job
      case VerifyJob(certs, auth) =>
        && resultBytes == before
        && (match w.verify(certs, auth)
            case Returns(code) => running == Storing(code)
            case Throws => running == Dead)
      case CertificateJob(request) =>
        && resultBytes == before
        && (match w.handle(request)
            case Normally => running == Storing(1)
            case WithException => running == Storing(0)
            case WithError => running == Dead)
      case _ =>
        (match w.key(job)
         case OnSuccess(bytes) => running == Storing(1) && resultBytes == bytes
         case OnError => running == Storing(0) && resultBytes == Some([])
         case NoReport => running == Dead && resultBytes == before)
    }

    /** The end of a run: complete with the callback's value and bytes, or not complete at all. */
    ghost predicate Done(w: World)
      reads this
    {
      match job
      case VerifyJob(certs, auth) =>
        (match w.verify(certs, auth)
         case Returns(code) => complete && returnValue == code
         case Throws => !complete)
      case CertificateJob(request) =>
        (match w.handle(request)
         case Normally => complete && returnValue == 1
         case WithException => complete && returnValue == 0
         case WithError => !complete)
      case _ =>
        (match w.key(job)
         case OnSuccess(bytes) => complete && returnValue == 1 && resultBytes == bytes
         case OnError => complete && returnValue == 0 && resultBytes == Some([])
         case NoReport => !complete)
    }

    /** runTask of the subclass the job belongs to, up to its call of onResult. */
    method Report(w: World)
      modifies this
      ensures View() == match Outcome(w, job)
                        case None => old(View()).(running := Dead)
                        case Some((ret, bytes)) => old(View()).(running := Storing(ret), resultBytes := if IsKeyJob(job) then bytes else old(resultBytes))
      ensures Reported(w, old(resultBytes))
    {
      running := Dead;
      match job
      case VerifyJob(certs, auth) =>
        var verdict := w.verify(certs, auth);
        if verdict.Returns? {
          running := Storing(verdict.code);
        }
      case CertificateJob(request) =>
        var handled := w.handle(request);
        if handled == Normally {
          running := Storing(1);
        } else if handled == WithException {
          running := Storing(0);
        }
      case _ =>
        var report := w.key(job);
        if report.OnSuccess? {
          resultBytes := report.bytes;
          running := Storing(1);
        } else if report.OnError? {
          resultBytes := Some([]);
          running := Storing(0);
        }
    }

    /** The first store of TaskCallback.onResult. */
    method StoreReturn()
      requires running.Storing?
      modifies this
      ensures View() == old(View()).(returnValue := old(running).ret, running := Stored)
    {
      returnValue := running.ret;
      running := Stored;
    }

    /** The second store of TaskCallback.onResult. */
    method StoreComplete()
      modifies this
      ensures View() == old(View()).(complete := true, running := Finished)
    {
      complete := true;
      running := Finished;
    }

    /** SSLTask.run when nobody looks on: the outcome ends up in the fields, and a second run does nothing. */
    method Run(w: World)
      requires !didRun ==> resultBytes == None
      modifies this
      ensures old(didRun) ==> View() == old(View())
      ensures !old(didRun) && !old(complete) ==> didRun && Done(w)
      ensures !old(didRun) ==>
                match Outcome(w, job)
                case None => didRun && running == Dead && complete == old(complete)
                case Some((ret, bytes)) => View() == Task(job, true, ret, true, bytes, Finished)
    {
      var again := didRun;
      Start();
      if !again {
        Report(w);
        if running.Storing? {
          StoreReturn();
          StoreComplete();
        }
      }
    }
  }

  /** The loop of get_certs. */
  method CollectCerts(chain: seq<Cert>, depth: nat) returns (r: Option<seq<Cert>>)
    ensures r == GetCerts(chain, depth)
    ensures r.Some? <==> forall i :: 0 <= i < |chain| && i < depth ==> |chain[i]| > 0
    ensures r.Some? ==> r.value == if |chain| <= depth then chain else chain[..depth]
  {
    var len := Min(depth, |chain|);
    var certs := [];
    for i := 0 to len
      invariant certs == chain[..i] && CertsUsable(certs)
    {
      if |chain[i]| <= 0 {
        assert chain[..len][i] == [];
        return None;
      }
      certs := certs + [chain[i]];
    }
    return Some(certs);
  }

  /**
   * tcn_ssl_state_t, with the part of the JVM it deals with: `objects` are the Java tasks made
   * for this SSL, a global reference is an index into them, and `live` and `freed` are the
   * references held and the deletions in order.
   */
  class SslState {
    var slot: Option<Parked>
    var depth: nat
    var arrayLen: nat
    var chainNum: nat
    var objects: seq<SslTask>
    var live: set<TaskId>
    var freed: seq<TaskId>

    ghost predicate Mirrors(s: State)
      reads this, objects
    {
      && slot == s.slot && depth == s.depth && arrayLen == s.arrayLen && chainNum == s.chainNum
      && live == s.live && freed == s.freed
      && |objects| == |s.tasks|
      && (forall i :: 0 <= i < |objects| ==> objects[i].View() == s.tasks[i])
      && (forall i, j :: 0 <= i < j < |objects| ==> objects[i] != objects[j])
      && (slot.Some? ==> slot.value.id < |objects|)
    }

    constructor (depth: nat)
      ensures Mirrors(NewSsl(depth)) && objects == []
    {
      this.depth := depth;
      slot, arrayLen, chainNum, objects, live, freed := None, 0, 0, [], {}, [];
    }

    /** tcn_ssl_task_new, with memory at hand, and the slot set. */
    method Park(job: Job, ghost s: State, ghost op: Op)
      requires Mirrors(s)
      modifies this
      ensures Mirrors(HandshakeTasks.Park(s, job, op))
      ensures KeepsTasks(this) && |objects| == |old(objects)| + 1 && objects[|old(objects)|].job == job
      ensures slot == Some(Parked(|old(objects)|, false)) && live == old(live) + {|old(objects)|}
    {
      var task := new SslTask(job);
      var reference := |objects|;
      objects := objects + [task];
      live := live + {reference};
      slot := Some(Parked(reference, false));
    }

    /** The slot is empty, and a reference that was in it is deleted. */
    twostate predicate Emptied()
      reads this
    {
      && slot == None
      && live == old(live) - (if old(slot).Some? then {old(slot).value.id} else {})
      && freed == old(freed) + (if old(slot).Some? then [old(slot).value.id] else [])
    }

    /** tcn_ssl_task_free, and the slot cleared. */
    method Release(ghost s: State)
      requires Mirrors(s)
      modifies this`slot, this`live, this`freed
      ensures Mirrors(HandshakeTasks.Release(s)) && Emptied()
    {
      if slot.Some? {
        live := live - {slot.value.id};
        freed := freed + [slot.value.id];
        slot := None;
      }
    }

    /** SSL.setVerify, as far as the depth goes. */
    method SetDepth(w: World, depth: int, ghost s: State)
      requires Mirrors(s) && Enabled(w, s, Event.SetDepth(depth))
      modifies this`depth
      ensures Mirrors(Step(w, s, Event.SetDepth(depth)))
      ensures this.depth == if depth >= 0 then depth else old(this.depth)
    {
      if depth >= 0 {
        this.depth := depth;
      }
    }

    /** SSL.getTask: the parked task the first time, null afterwards. */
    method GetTask(w: World, ghost s: State) returns (r: SslTask?)
      requires Mirrors(s) && Enabled(w, s, Event.GetTask)
      modifies this`slot
      ensures Mirrors(Step(w, s, Event.GetTask))
      ensures r != null <==> old(slot).Some? && !old(slot).value.consumed
      ensures r != null ==> r == objects[old(slot).value.id] && slot == Some(Parked(old(slot).value.id, true))
      ensures r == null ==> slot == old(slot)
      ensures Step(w, s, Event.GetTask).handed == s.handed + if r == null then [] else [old(slot).value.id]
    {
      if slot == None || slot.value.consumed {
        return null;
      }
      slot := Some(Parked(slot.value.id, true));
      return objects[slot.value.id];
    }

    /** free_ssl_state */
    method Free(w: World, ghost s: State)
      requires Mirrors(s) && Enabled(w, s, FreeSsl)
      modifies this`slot, this`live, this`freed
      ensures Emptied() && Mirrors(Step(w, s, FreeSsl))
    {
      Release(s);
    }
  }

  /** The tasks there were stay, and those that came are new. */
  twostate predicate KeepsTasks(ssl: SslState)
    reads ssl
  {
    old(ssl.objects) <= ssl.objects && forall k :: |old(ssl.objects)| <= k < |ssl.objects| ==> fresh(ssl.objects[k])
  }

  /** Whether a call finds a parked task, and whether that is complete. */
  ghost predicate HasTask(ssl: SslState?, complete: bool)
    reads ssl, if ssl == null then {} else set i | 0 <= i < |ssl.objects| :: ssl.objects[i]
  {
    ssl != null && ssl.slot.Some? && ssl.slot.value.id < |ssl.objects| && ssl.objects[ssl.slot.value.id].complete == complete
  }

  /** The end of tcn_SSL_cert_custom_verify, with the rewrite for a chain that was cut. */
  function VerifyEnd(result: int, len: nat, chainNum: nat): Answer {
    var r := if result == X509_V_ERR_UNSPECIFIED && len < chainNum then X509_V_ERR_UNABLE_TO_GET_ISSUER_CERT_LOCALLY else result;
    if r == X509_V_OK then VerifyOk else VerifyInvalid(r)
  }

  /** The part of tcn_SSL_cert_custom_verify that starts a verification. */
  method StartVerify(ssl: SslState, w: World, chain: Option<seq<Cert>>, auth: string, memory: bool, ghost s: State)
    returns (answer: Answer)
    requires ssl.Mirrors(s) && ssl.slot == None
    modifies ssl
    ensures var r := HandshakeTasks.CustomVerify(w, s, chain, auth, true, memory);
            ssl.Mirrors(r.0) && answer == r.1 && KeepsTasks(ssl)
  {
    if chain == None {
      return VerifyInvalid(X509_V_ERR_UNSPECIFIED);
    }
    var certs := CollectCerts(chain.value, ssl.depth);
    if certs == None || !memory {
      return VerifyInvalid(X509_V_ERR_UNSPECIFIED);
    }
    var len := |certs.value|;
    if !w.hasVerifier {
      return VerifyEnd(X509_V_ERR_UNSPECIFIED, len, |chain.value|);
    }
    if w.useTasks {
      ssl.Park(VerifyJob(certs.value, auth), s, Verifying(chain, s.depth, auth));
      ssl.arrayLen := len;
      ssl.chainNum := |chain.value|;
      return Retry;
    }
    var verdict := w.verify(certs.value, auth);
    if verdict == Throws {
      return VerifyInvalid(X509_V_ERR_UNSPECIFIED);
    }
    return VerifyEnd(verdict.code, len, |chain.value|);
  }

  /** tcn_SSL_cert_custom_verify; `ssl` is null for an SSL without state. */
  method CustomVerify(ssl: SslState?, w: World, chain: Option<seq<Cert>>, auth: string, env: bool, memory: bool, ghost s: State)
    returns (answer: Answer)
    requires ssl != null ==> ssl.Mirrors(s)
    modifies ssl
    ensures ssl == null ==> answer == VerifyInvalid(X509_V_ERR_UNSPECIFIED)
    ensures ssl != null ==>
              var r := HandshakeTasks.CustomVerify(w, s, chain, auth, env, memory);
              ssl.Mirrors(r.0) && answer == r.1 && KeepsTasks(ssl)
    ensures !env ==> answer == VerifyInvalid(1) && (ssl != null ==> ssl.slot == old(ssl.slot))
    ensures env && old(HasTask(ssl, false)) ==> answer == Retry && ssl.slot == old(ssl.slot)
    ensures env && old(HasTask(ssl, true)) ==>
              var code, cut := old(ssl.objects[ssl.slot.value.id].returnValue), old(ssl.arrayLen < ssl.chainNum);
              ssl.Emptied() && answer == if code == 0 then VerifyOk else VerifyInvalid(if code == 1 && cut then 20 else code)
  {
    if ssl == null || !env {
      return VerifyInvalid(X509_V_ERR_UNSPECIFIED);
    }
    if ssl.slot == None {
      answer := StartVerify(ssl, w, chain, auth, memory, s);
      return;
    }
    var task := ssl.objects[ssl.slot.value.id];
    if !task.complete {
      return Retry;
    }
    var result := task.returnValue;
    ssl.Release(s);
    return VerifyEnd(result, ssl.arrayLen, ssl.chainNum);
  }

  /** certificate_cb */
  method CertificateCb(ssl: SslState?, w: World, request: seq<byte>, env: bool, memory: bool, ghost s: State)
    returns (answer: Answer)
    requires ssl != null ==> ssl.Mirrors(s)
    modifies ssl
    ensures ssl == null ==> answer == CertReturn(0)
    ensures ssl != null ==>
              var r := HandshakeTasks.CertificateCb(w, s, request, env, memory);
              ssl.Mirrors(r.0) && answer == r.1 && KeepsTasks(ssl)
    ensures !env ==> answer == CertReturn(0) && (ssl != null ==> ssl.slot == old(ssl.slot))
    ensures env && old(HasTask(ssl, false)) ==> answer == Retry && ssl.slot == old(ssl.slot)
    ensures env && old(HasTask(ssl, true)) ==>
              ssl.Emptied() && answer == CertReturn(old(ssl.objects[ssl.slot.value.id].returnValue))
  {
    if ssl == null || !env {
      return CertReturn(0);
    }
    if ssl.slot.Some? {
      var task := ssl.objects[ssl.slot.value.id];
      if !task.complete {
        return Retry;
      }
      var ret := task.returnValue;
      ssl.Release(s);
      return CertReturn(ret);
    }
    if w.useTasks {
      if !memory {
        return CertReturn(0);
      }
      ssl.Park(CertificateJob(request), s, Certifying(request));
      return Retry;
    }
    var handled := w.handle(request);
    return CertReturn(if handled == Normally then 1 else 0);
  }

  /** tcn_private_key_sign_java and tcn_private_key_decrypt_java with tasks in use. */
  method StartKey(ssl: SslState?, w: World, job: Job, env: bool, memory: bool, ghost s: State) returns (answer: Answer)
    requires ssl != null ==> ssl.Mirrors(s)
    modifies ssl
    ensures ssl == null ==> answer == KeyFailed
    ensures ssl != null ==>
              var r := HandshakeTasks.StartKey(w, s, job, env, memory);
              ssl.Mirrors(r.0) && answer == r.1 && KeepsTasks(ssl)
    ensures answer == if ssl != null && w.hasKeyMethod && env && memory then Retry else KeyFailed
    ensures answer == Retry ==>
              && |ssl.objects| == |old(ssl.objects)| + 1 && ssl.objects[|old(ssl.objects)|].job == job
              && ssl.slot == Some(Parked(|old(ssl.objects)|, false))
  {
    if ssl == null || !w.hasKeyMethod || !env || !memory {
      return KeyFailed;
    }
    ssl.Park(job, s, UsingKey(job));
    return Retry;
  }

  /** tcn_private_key_complete_java; `out` is the engine's buffer. */
  method CompleteKey(ssl: SslState?, w: World, out: array<byte>, env: bool, memory: bool, ghost s: State)
    returns (answer: Answer, outLen: nat)
    requires ssl != null ==> ssl.Mirrors(s)
    modifies ssl, out
    ensures ssl == null ==> answer == KeyFailed
    ensures ssl != null ==>
              var r := HandshakeTasks.CompleteKey(w, s, out.Length, env, memory);
              ssl.Mirrors(r.0) && answer == r.1 && KeepsTasks(ssl)
    ensures w.useTasks && !env ==> answer == KeyFailed && (ssl != null ==> ssl.slot == old(ssl.slot))
    ensures w.useTasks && env && old(HasTask(ssl, false)) ==> answer == Retry && ssl.slot == old(ssl.slot)
    ensures w.useTasks && env && old(HasTask(ssl, true)) ==>
              var bytes := old(ssl.objects[ssl.slot.value.id].resultBytes);
              && ssl.Emptied()
              && answer == if bytes.Some? && |bytes.value| <= out.Length && memory then KeyDone(bytes.value) else KeyFailed
    ensures answer.KeyDone? ==>
              outLen == |answer.out| <= out.Length && out[..] == Overwrite(old(out[..]), 0, answer.out)
    ensures !answer.KeyDone? ==> out[..] == old(out[..])
  {
    outLen := 0;
    if ssl == null {
      return KeyFailed, outLen;
    }
    if !w.useTasks {
      return KeyUntouched, outLen;
    }
    if ssl.slot == None || !env {
      return KeyFailed, outLen;
    }
    var task := ssl.objects[ssl.slot.value.id];
    if !task.complete {
      return Retry, outLen;
    }
    var resultBytes := task.resultBytes;
    ssl.Release(s);
    if resultBytes == None || out.Length < |resultBytes.value| || !memory {
      return KeyFailed, outLen;
    }
    CopyInto(out, 0, resultBytes.value);
    return KeyDone(resultBytes.value), |resultBytes.value|;
  }
}
