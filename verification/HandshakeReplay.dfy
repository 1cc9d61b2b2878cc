/**
 * Any possible sequence of events, on the objects of HandshakeCode: the machine goes along
 * as a ghost, so what is proved over its runs holds of the answers these objects give.
 */
module HandshakeReplay {
  import opened Bytes
  import opened HandshakeTasks
  import opened HandshakeRuns
  import opened HandshakeCode

  /** Each event is possible when its turn comes. */
  ghost predicate Possible(w: World, s: State, events: seq<Event>)
    decreases |events|
  {
    events == [] || (Enabled(w, s, events[0]) && Possible(w, Step(w, s, events[0]), events[1..]))
  }

  lemma {:induction false} ReachesThen(w: World, s: State, events: seq<Event>, s': State, e: Event)
    requires Reaches(w, s, events, s') && Enabled(w, s', e)
    ensures Reaches(w, s, events + [e], Step(w, s', e))
    decreases |events|
  {
    if events == [] {
      assert (events + [e])[1..] == [];
      assert Reaches(w, Step(w, s, e), [], Step(w, s, e));
    } else {
      ReachesThen(w, Step(w, s, events[0]), events[1..], s', e);
      assert (events + [e])[1..] == events[1..] + [e];
    }
  }

  predicate IsEngineCall(e: Event) {
    e.Verify? || e.Certificate? || e.Key? || e.Complete?
  }

  /** What an engine call does apart from being logged. */
  function EngineResult(w: World, s: State, e: Event): (State, Answer)
    requires IsEngineCall(e)
  {
    match e
    case Verify(chain, auth, env, memory) => HandshakeTasks.CustomVerify(w, s, chain, auth, env, memory)
    case Certificate(request, env, memory) => HandshakeTasks.CertificateCb(w, s, request, env, memory)
    case Key(job, env, memory) => HandshakeTasks.StartKey(w, s, job, env, memory)
    case Complete(maxOut, env, memory) => HandshakeTasks.CompleteKey(w, s, maxOut, env, memory)
  }

  lemma EngineStepIsLogged(w: World, s: State, e: Event)
    requires Enabled(w, s, e) && IsEngineCall(e)
    ensures var s', r := Step(w, s, e), EngineResult(w, s, e);
            && s' == r.0.(calls := s'.calls)
            && |s'.calls| == |s.calls| + 1 && s'.calls[..|s.calls|] == s.calls && LastAnswer(s') == r.1
  {
  }

  /** The engine's calls, with the answer that came back. */
  method EngineCall(ssl: SslState, w: World, e: Event, ghost s: State) returns (answer: Answer)
    requires ssl.Mirrors(s) && IsEngineCall(e)
    modifies ssl
    ensures ssl.Mirrors(EngineResult(w, s, e).0) && answer == EngineResult(w, s, e).1 && KeepsTasks(ssl)
  {
    match e
    case Verify(chain, auth, env, memory) =>
      answer := HandshakeCode.CustomVerify(ssl, w, chain, auth, env, memory, s);
    case Certificate(request, env, memory) =>
      answer := HandshakeCode.CertificateCb(ssl, w, request, env, memory, s);
    case Key(job, env, memory) =>
      answer := HandshakeCode.StartKey(ssl, w, job, env, memory, s);
    case Complete(maxOut, env, memory) =>
      var out := new byte[maxOut](_ => 0);
      var outLen: nat;
      answer, outLen := HandshakeCode.CompleteKey(ssl, w, out, env, memory, s);
  }

  /** Calls of the application. */
  method ApplicationCall(ssl: SslState, w: World, e: Event, ghost s: State)
    requires ssl.Mirrors(s) && Enabled(w, s, e) && (e.SetDepth? || e.GetTask? || e.FreeSsl?)
    modifies ssl
    ensures ssl.Mirrors(Step(w, s, e)) && ssl.objects == old(ssl.objects) && Step(w, s, e).calls == s.calls
  {
    match e
    case SetDepth(depth) => ssl.SetDepth(w, depth, s);
    case GetTask => var task := ssl.GetTask(w, s);
    case FreeSsl => ssl.Free(w, s);
  }

  /** The stores a task's thread makes, one at a time. */
  method OneStore(task: SslTask, w: World, e: Event, ghost s: State)
    requires Inv(w, s) && Enabled(w, s, e) && IsTaskStep(e) && task.View() == s.tasks[e.id]
    modifies task
    ensures e.id < |Step(w, s, e).tasks| && task.View() == Step(w, s, e).tasks[e.id]
  {
    assert TaskOk(w, s.tasks[e.id]);
    match e
    case Run(_) => task.Start();
    case ReportOutcome(_) => task.Report(w);
    case StoreReturn(_) => task.StoreReturn();
    case StoreComplete(_) => task.StoreComplete();
  }

  method TaskStep(ssl: SslState, w: World, e: Event, ghost s: State)
    requires ssl.Mirrors(s) && Inv(w, s) && Enabled(w, s, e) && IsTaskStep(e)
    modifies ssl.objects
    ensures ssl.Mirrors(Step(w, s, e))
  {
    TaskStepChangesOneTask(w, s, e);
    OneStore(ssl.objects[e.id], w, e, s);
  }

  /** The answers are those of the logged calls. */
  ghost predicate Answered(s: State, answers: seq<Answer>) {
    |answers| == |s.calls| && forall k :: 0 <= k < |answers| ==> answers[k] == s.calls[k].answer
  }

  lemma AnsweredNext(w: World, s: State, e: Event, answers: seq<Answer>)
    requires Answered(s, answers) && Enabled(w, s, e) && IsEngineCall(e)
    ensures Answered(Step(w, s, e), answers + [EngineResult(w, s, e).1])
  {
    EngineStepIsLogged(w, s, e);
    assert forall k :: 0 <= k < |answers| ==> Step(w, s, e).calls[..|s.calls|][k] == s.calls[k];
  }

  method Perform(ssl: SslState, w: World, e: Event, answers: seq<Answer>, ghost s: State) returns (answers': seq<Answer>)
    requires ssl.Mirrors(s) && Inv(w, s) && Enabled(w, s, e) && Answered(s, answers)
    modifies ssl, ssl.objects
    ensures ssl.Mirrors(Step(w, s, e)) && KeepsTasks(ssl) && Answered(Step(w, s, e), answers')
  {
    answers' := answers;
    if IsEngineCall(e) {
      EngineStepIsLogged(w, s, e);
      AnsweredNext(w, s, e, answers);
      var answer := EngineCall(ssl, w, e, s);
      answers' := answers + [answer];
    } else if IsTaskStep(e) {
      TaskStepChangesOneTask(w, s, e);
      TaskStep(ssl, w, e, s);
    } else {
      ApplicationCall(ssl, w, e, s);
    }
  }

  /** The run so far, and what is still to come. */
  ghost predicate Underway(w: World, depth: nat, events: seq<Event>, i: nat, s: State) {
    i <= |events| && Reaches(w, NewSsl(depth), events[..i], s) && Possible(w, s, events[i..])
  }

  lemma UnderwayFirst(w: World, depth: nat, events: seq<Event>)
    requires Possible(w, NewSsl(depth), events)
    ensures Underway(w, depth, events, 0, NewSsl(depth))
  {
    assert events[0..] == events;
  }

  lemma UnderwayNext(w: World, depth: nat, events: seq<Event>, i: nat, s: State)
    requires Underway(w, depth, events, i, s) && i < |events|
    ensures Enabled(w, s, events[i]) && Underway(w, depth, events, i + 1, Step(w, s, events[i]))
  {
    assert events[i..][0] == events[i] && events[i..][1..] == events[i + 1..];
    assert events[..i] + [events[i]] == events[..i + 1];
    ReachesThen(w, NewSsl(depth), events[..i], s, events[i]);
  }

  method Advance(ssl: SslState, w: World, events: seq<Event>, i: nat, answers: seq<Answer>, ghost depth: nat, ghost s: State)
    returns (answers': seq<Answer>, ghost s': State)
    requires Underway(w, depth, events, i, s) && i < |events| && ssl.Mirrors(s) && Answered(s, answers)
    modifies ssl, ssl.objects
    ensures Underway(w, depth, events, i + 1, s') && ssl.Mirrors(s') && Answered(s', answers') && KeepsTasks(ssl)
  {
    ReachesKeepsInv(w, NewSsl(depth), events[..i], s);
    UnderwayNext(w, depth, events, i, s);
    s' := Step(w, s, events[i]);
    answers' := Perform(ssl, w, events[i], answers, s);
  }

  lemma RunIsOver(w: World, depth: nat, events: seq<Event>, s: State, answers: seq<Answer>)
    requires Underway(w, depth, events, |events|, s) && Answered(s, answers)
    ensures Reaches(w, NewSsl(depth), events, s)
    ensures forall k :: 0 <= k < |answers| ==> CallOk(w, s.calls[k].(answer := answers[k]))
    ensures |s.live| == (if s.slot.Some? then 1 else 0) && NoRepeats(s.freed)
    ensures forall id :: 0 <= id < |s.tasks| ==> (id in s.freed <==> id !in s.live)
  {
    assert events[..|events|] == events;
    ReachesKeepsInv(w, NewSsl(depth), events, s);
    assert forall k :: 0 <= k < |answers| ==> s.calls[k].(answer := answers[k]) == s.calls[k];
  }

  /**
   * Make every event happen, in order, on a new SSL. Each answer the objects gave is that of
   * the same operation without tasks, or retry; the references held and deleted are those of
   * a run in which every task is freed once and none is lost.
   */
  method Replay(w: World, depth: nat, events: seq<Event>) returns (ssl: SslState, answers: seq<Answer>, ghost s: State)
    requires Possible(w, NewSsl(depth), events)
    ensures Reaches(w, NewSsl(depth), events, s) && ssl.Mirrors(s) && Answered(s, answers)
    ensures forall k :: 0 <= k < |answers| ==> CallOk(w, s.calls[k].(answer := answers[k]))
    ensures |ssl.live| == (if ssl.slot.Some? then 1 else 0) && NoRepeats(ssl.freed)
    ensures forall id :: 0 <= id < |ssl.objects| ==> (id in ssl.freed <==> id !in ssl.live)
  {
    ssl := new SslState(depth);
    answers, s := [], NewSsl(depth);
    UnderwayFirst(w, depth, events);
    for i := 0 to |events|
      invariant fresh(ssl) && forall k :: 0 <= k < |ssl.objects| ==> fresh(ssl.objects[k])
      invariant Underway(w, depth, events, i, s) && ssl.Mirrors(s) && Answered(s, answers)
    {
      answers, s := Advance(ssl, w, events, i, answers, depth, s);
    }
    RunIsOver(w, depth, events, s, answers);
  }
}
