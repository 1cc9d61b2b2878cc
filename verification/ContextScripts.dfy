/** What a script of requests comes to: the verify mode and depth of the context and of each SSL. */
module ContextScripts {
  import opened Bytes
  import opened SslContext

  /** What an application may ask for; `SslSet` is setVerify on the SSL created as number `ssl`. */
  datatype Request =
    | Verify(level: int, depth: int)
    | SetVerifier(isNull: bool, fate: Fate)
    | Callback(slot: Slot, isNull: bool, fate: Fate)
    | Compression(isNull: bool, direction: bv32, algorithmId: int, fate: Fate, accepted: bool)
    | NewSsl
    | SslSet(ssl: nat, level: int, depth: int)

  // ------------------------------------------------------------------ what a script comes to

  /** The setVerify calls on the context, in order. */
  function VerifyCalls(script: seq<Request>): (calls: seq<VerifyCall>) {
    if script == [] then []
    else
      var r := script[|script| - 1];
      VerifyCalls(script[..|script| - 1]) + if r.Verify? then [VerifyCall(r.level, r.depth)] else []
  }

  /** Whether a script leaves a verifier: its last registration that did not fail decides. */
  predicate LeavesVerifier(script: seq<Request>) {
    script != [] &&
    var r := script[|script| - 1];
    if r.SetVerifier? && (r.isNull || r.fate == Succeeds) then !r.isNull
    else LeavesVerifier(script[..|script| - 1])
  }

  /** The mode the TLS library ends up with, whatever the order of the calls. */
  function FinalMode(script: seq<Request>): VerifyMode {
    if LeavesVerifier(script) then ModeOf(LastLevel(VerifyCalls(script))) else VerifyNone
  }

  /** An SSL: the calls that shaped its configuration, and the mode installed for it. */
  datatype Settings = Settings(calls: seq<VerifyCall>, installed: VerifyMode)

  function WithCall(s: Settings, call: VerifyCall): Settings {
    Settings(s.calls + [call], ModeOf(LastLevel(s.calls + [call])))
  }

  /** One more request: a new SSL copies what the context has, and only its own calls change one. */
  function Served(ssls: seq<Settings>, before: seq<Request>, r: Request): seq<Settings> {
    match r
    case NewSsl => ssls + [Settings(VerifyCalls(before), FinalMode(before))]
    case SslSet(k, level, depth) =>
      if k < |ssls| then ssls[k := WithCall(ssls[k], VerifyCall(level, depth))] else ssls
    case _ => ssls
  }

  function Ssls(script: seq<Request>): (r: seq<Settings>) {
    if script == [] then []
    else Served(Ssls(script[..|script| - 1]), script[..|script| - 1], script[|script| - 1])
  }

  /** The setVerify calls made on SSL k itself. */
  function OwnCalls(script: seq<Request>, k: nat): (calls: seq<VerifyCall>) {
    if script == [] then []
    else
      var r := script[|script| - 1];
      OwnCalls(script[..|script| - 1], k) + if r.SslSet? && r.ssl == k then [VerifyCall(r.level, r.depth)] else []
  }

  lemma Unfold(script: seq<Request>, r: Request)
    ensures VerifyCalls(script + [r]) == VerifyCalls(script) + if r.Verify? then [VerifyCall(r.level, r.depth)] else []
    ensures LeavesVerifier(script + [r]) ==
              if r.SetVerifier? && (r.isNull || r.fate == Succeeds) then !r.isNull else LeavesVerifier(script)
  {
    assert (script + [r])[..|script|] == script;
  }

  lemma UnfoldSsls(script: seq<Request>, r: Request)
    ensures Ssls(script + [r]) == Served(Ssls(script), script, r)
  {
    assert (script + [r])[..|script|] == script;
  }

  lemma UnfoldOwn(script: seq<Request>, r: Request, k: nat)
    ensures OwnCalls(script + [r], k) ==
              OwnCalls(script, k) + if r.SslSet? && r.ssl == k then [VerifyCall(r.level, r.depth)] else []
  {
    assert (script + [r])[..|script|] == script;
  }

  /** Settings made from a copy of `base` by these calls of the SSL itself. */
  ghost predicate Shaped(s: Settings, base: Settings, own: seq<VerifyCall>) {
    && s.calls == base.calls + own
    && s.installed == if own == [] then base.installed else ModeOf(LastLevel(s.calls))
  }

  lemma ServedKeepsShape(ssls: seq<Settings>, before: seq<Request>, r: Request, k: nat, base: Settings, own: seq<VerifyCall>)
    requires k < |ssls| && Shaped(ssls[k], base, own)
    ensures var own' := own + if r.SslSet? && r.ssl == k then [VerifyCall(r.level, r.depth)] else [];
            k < |Served(ssls, before, r)| && Shaped(Served(ssls, before, r)[k], base, own')
  {
  }

  /**
   * An SSL is shaped by the context calls before its creation and by its own calls, and by
   * nothing else: no later context call, registration or other SSL matters.
   */
  lemma {:induction false} CopyIsIndependent(before: seq<Request>, later: seq<Request>)
    ensures var k, all := |Ssls(before)|, Ssls(before + [NewSsl] + later);
            k < |all| && Shaped(all[k], Settings(VerifyCalls(before), FinalMode(before)), OwnCalls(later, k))
    decreases |later|
  {
    var k, base := |Ssls(before)|, Settings(VerifyCalls(before), FinalMode(before));
    if later == [] {
      UnfoldSsls(before, NewSsl);
      assert before + [NewSsl] + later == before + [NewSsl];
    } else {
      var earlier, last := later[..|later| - 1], later[|later| - 1];
      var script := before + [NewSsl] + earlier;
      CopyIsIndependent(before, earlier);
      UnfoldSsls(script, last);
      UnfoldOwn(earlier, last, k);
      ServedKeepsShape(Ssls(script), script, last, k, base, OwnCalls(earlier, k));
      assert later == earlier + [last] && before + [NewSsl] + later == script + [last];
    }
  }

  /** Registering a verifier just before or just after a setVerify call makes no difference. */
  lemma {:induction false} OrderDoesNotMatter(before: seq<Request>, v: Request, r: Request, after: seq<Request>)
    requires v.Verify? && !r.Verify?
    ensures var x, y := before + [v, r] + after, before + [r, v] + after;
            VerifyCalls(x) == VerifyCalls(y) && LeavesVerifier(x) == LeavesVerifier(y) && FinalMode(x) == FinalMode(y)
    decreases |after|
  {
    if after == [] {
      assert before + [v, r] + after == before + [v] + [r] && before + [r, v] + after == before + [r] + [v];
      Unfold(before, v);
      Unfold(before, r);
      Unfold(before + [v], r);
      Unfold(before + [r], v);
    } else {
      var shorter, last := after[..|after| - 1], after[|after| - 1];
      OrderDoesNotMatter(before, v, r, shorter);
      assert before + [v, r] + after == before + [v, r] + shorter + [last];
      assert before + [r, v] + after == before + [r, v] + shorter + [last];
      Unfold(before + [v, r] + shorter, last);
      Unfold(before + [r, v] + shorter, last);
    }
  }

  // ---------------------------------------------------------- the same, read off the script

  /**
   * The requests that matter to SSL k, created by request p: setVerify on the context before
   * it and on the SSL itself after it. For the context itself p is the end of the script.
   */
  predicate Matters(script: seq<Request>, p: nat, k: nat, i: nat) {
    i < |script| && if i < p then script[i].Verify? else i > p && script[i].SslSet? && script[i].ssl == k
  }

  /** Request i has the last word on the level: those that matter after it all say "ignored". */
  ghost predicate Decides(script: seq<Request>, p: nat, k: nat, i: nat) {
    && Matters(script, p, k, i) && script[i].level != -1
    && forall j: nat :: j > i && Matters(script, p, k, j) ==> script[j].level == -1
  }

  /** Each mode, by the level that has the last word; none at all means no verification. */
  ghost predicate ModeIs(script: seq<Request>, p: nat, k: nat, mode: VerifyMode) {
    && (mode == VerifyPeerFailIfNoCert <==>
          exists i: nat :: Decides(script, p, k, i) && script[i].level != 0 && script[i].level != 1)
    && (mode == VerifyPeer <==> exists i: nat :: Decides(script, p, k, i) && script[i].level == 1)
    && (mode == VerifyNone <==> forall i: nat :: Decides(script, p, k, i) ==> script[i].level == 0)
  }

  /** Request i has the last word on the depth. */
  ghost predicate DecidesDepth(script: seq<Request>, p: nat, k: nat, i: nat) {
    && Matters(script, p, k, i) && script[i].depth >= 0
    && forall j: nat :: j > i && Matters(script, p, k, j) ==> script[j].depth < 0
  }

  ghost predicate DepthIs(script: seq<Request>, p: nat, k: nat, depth: int) {
    && (forall i: nat :: DecidesDepth(script, p, k, i) ==> depth == script[i].depth)
    && ((forall i: nat :: !DecidesDepth(script, p, k, i)) ==> depth == 100)
  }

  /** The calls that matter, in order. */
  function CallsOf(script: seq<Request>, p: nat, k: nat): (calls: seq<VerifyCall>) {
    if script == [] then []
    else
      var n := |script| - 1;
      CallsOf(script[..n], p, k) + if Matters(script, p, k, n) then [VerifyCall(script[n].level, script[n].depth)] else []
  }

  lemma OneMoreCall(script: seq<Request>, p: nat, k: nat)
    requires script != []
    ensures var n := |script| - 1;
            var calls, before := CallsOf(script, p, k), CallsOf(script[..n], p, k);
            if Matters(script, p, k, n) then
              && LastLevel(calls) == (if script[n].level == -1 then LastLevel(before) else script[n].level)
              && LastDepth(calls) == (if script[n].depth < 0 then LastDepth(before) else script[n].depth)
            else calls == before
  {
    var n := |script| - 1;
    var before := CallsOf(script[..n], p, k);
    if Matters(script, p, k, n) {
      var call := VerifyCall(script[n].level, script[n].depth);
      assert (before + [call])[..|before|] == before;
    }
  }

  lemma MattersInFront(script: seq<Request>, p: nat, k: nat, j: nat)
    requires j + 1 < |script|
    ensures Matters(script, p, k, j) == Matters(script[..|script| - 1], p, k, j) && script[j] == script[..|script| - 1][j]
  {
  }

  /** No request that matters sets a level, or a depth. */
  ghost predicate AllIgnored(script: seq<Request>, p: nat, k: nat) {
    forall j: nat :: Matters(script, p, k, j) ==> script[j].level == -1
  }

  ghost predicate AllNegative(script: seq<Request>, p: nat, k: nat) {
    forall j: nat :: Matters(script, p, k, j) ==> script[j].depth < 0
  }

  /** One more request that matters and sets something decides; any other one leaves things as they were. */
  lemma DecidesNext(script: seq<Request>, p: nat, k: nat)
    requires script != []
    ensures var n := |script| - 1;
            var front, sets := script[..n], Matters(script, p, k, n) && script[n].level != -1;
            && (sets ==> Decides(script, p, k, n))
            && (!sets ==> forall i: nat :: Decides(front, p, k, i) ==> Decides(script, p, k, i) && script[i] == front[i])
            && (!sets && AllIgnored(front, p, k) ==> AllIgnored(script, p, k))
  {
    forall j: nat | j + 1 < |script|
      ensures Matters(script, p, k, j) == Matters(script[..|script| - 1], p, k, j) && script[j] == script[..|script| - 1][j]
    {
      MattersInFront(script, p, k, j);
    }
  }

  lemma DecidesDepthNext(script: seq<Request>, p: nat, k: nat)
    requires script != []
    ensures var n := |script| - 1;
            var front, sets := script[..n], Matters(script, p, k, n) && script[n].depth >= 0;
            && (sets ==> DecidesDepth(script, p, k, n))
            && (!sets ==> forall i: nat :: DecidesDepth(front, p, k, i) ==> DecidesDepth(script, p, k, i) && script[i] == front[i])
            && (!sets && AllNegative(front, p, k) ==> AllNegative(script, p, k))
  {
    forall j: nat | j + 1 < |script|
      ensures Matters(script, p, k, j) == Matters(script[..|script| - 1], p, k, j) && script[j] == script[..|script| - 1][j]
    {
      MattersInFront(script, p, k, j);
    }
  }

  lemma {:induction false} WhoDecides(script: seq<Request>, p: nat, k: nat) returns (i: Option<nat>)
    ensures i.Some? ==> Decides(script, p, k, i.value) && LastLevel(CallsOf(script, p, k)) == script[i.value].level
    ensures i == None ==> LastLevel(CallsOf(script, p, k)) == 0 && AllIgnored(script, p, k)
  {
    if script == [] {
      return None;
    }
    var n := |script| - 1;
    i := WhoDecides(script[..n], p, k);
    OneMoreCall(script, p, k);
    DecidesNext(script, p, k);
    if Matters(script, p, k, n) && script[n].level != -1 {
      i := Some(n);
    }
  }

  lemma {:induction false} WhoDecidesDepth(script: seq<Request>, p: nat, k: nat) returns (i: Option<nat>)
    ensures i.Some? ==> DecidesDepth(script, p, k, i.value) && LastDepth(CallsOf(script, p, k)) == script[i.value].depth
    ensures i == None ==> LastDepth(CallsOf(script, p, k)) == 100 && AllNegative(script, p, k)
  {
    if script == [] {
      return None;
    }
    var n := |script| - 1;
    i := WhoDecidesDepth(script[..n], p, k);
    OneMoreCall(script, p, k);
    DecidesDepthNext(script, p, k);
    if Matters(script, p, k, n) && script[n].depth >= 0 {
      i := Some(n);
    }
  }

  /** The closed forms are those of the script's own indices. */
  lemma TablesOfCalls(script: seq<Request>, p: nat, k: nat)
    ensures ModeIs(script, p, k, ModeOf(LastLevel(CallsOf(script, p, k))))
    ensures DepthIs(script, p, k, LastDepth(CallsOf(script, p, k)))
  {
    var i := WhoDecides(script, p, k);
    var j := WhoDecidesDepth(script, p, k);
    assert j.Some? ==> DecidesDepth(script, p, k, j.value);
  }

  lemma {:induction false} ContextCalls(script: seq<Request>, p: nat, k: nat)
    requires |script| <= p
    ensures CallsOf(script, p, k) == VerifyCalls(script)
  {
    if script != [] {
      ContextCalls(script[..|script| - 1], p, k);
    }
  }

  lemma {:induction false} SslCalls(before: seq<Request>, later: seq<Request>, k: nat)
    ensures CallsOf(before + [NewSsl] + later, |before|, k) == VerifyCalls(before) + OwnCalls(later, k)
    decreases |later|
  {
    var script := before + [NewSsl] + later;
    var n := |script| - 1;
    if later == [] {
      ContextCalls(before, |before|, k);
      assert script[..n] == before;
    } else {
      SslCalls(before, later[..|later| - 1], k);
      assert script[..n] == before + [NewSsl] + later[..|later| - 1];
      assert script[n] == later[|later| - 1];
    }
  }

  /** A successful registration that no later null undoes. */
  ghost predicate Registers(script: seq<Request>, i: nat) {
    && i < |script| && script[i].SetVerifier? && !script[i].isNull && script[i].fate == Succeeds
    && forall j :: i < j < |script| && script[j].SetVerifier? ==> !script[j].isNull
  }

  lemma {:induction false} VerifierIsLeft(script: seq<Request>)
    ensures LeavesVerifier(script) <==> exists i: nat :: Registers(script, i)
  {
    if script != [] {
      var n := |script| - 1;
      VerifierIsLeft(script[..n]);
      assert forall i: nat :: i < n && Registers(script, i) ==> Registers(script[..n], i);
      if LeavesVerifier(script) {
        if script[n].SetVerifier? && script[n].fate == Succeeds {
          assert Registers(script, n);
        } else {
          var i: nat :| Registers(script[..n], i);
          assert Registers(script, i);
        }
      }
    }
  }

  /** The context ends with the mode of the level that has the last word if a verifier is left, and with NONE otherwise. */
  ghost predicate ContextIs(script: seq<Request>, mode: VerifyMode, depth: int) {
    && ((exists i: nat :: Registers(script, i)) ==> ModeIs(script, |script|, 0, mode))
    && ((forall i: nat :: !Registers(script, i)) ==> mode == VerifyNone)
    && DepthIs(script, |script|, 0, depth)
  }

  lemma ContextTable(script: seq<Request>)
    ensures ContextIs(script, FinalMode(script), LastDepth(VerifyCalls(script)))
  {
    ContextCalls(script, |script|, 0);
    TablesOfCalls(script, |script|, 0);
    VerifierIsLeft(script);
  }

  /** The number of SSLs a script creates. */
  function Created(script: seq<Request>): (n: nat) {
    if script == [] then 0 else Created(script[..|script| - 1]) + if script[|script| - 1].NewSsl? then 1 else 0
  }

  lemma {:induction false} CreatedSsls(script: seq<Request>)
    ensures |Ssls(script)| == Created(script)
  {
    if script != [] {
      CreatedSsls(script[..|script| - 1]);
    }
  }

  predicate SetsSsl(r: Request, k: nat) {
    r.SslSet? && r.ssl == k
  }

  lemma {:induction false} NoOwnCalls(later: seq<Request>, k: nat)
    ensures OwnCalls(later, k) == [] <==> forall i :: 0 <= i < |later| ==> !SetsSsl(later[i], k)
  {
    if later != [] {
      NoOwnCalls(later[..|later| - 1], k);
    }
  }

  /**
   * An SSL created by request p has the mode of the level that has the last word for it, if
   * it was set itself or the context had a verifier when it was created, and NONE otherwise.
   */
  ghost predicate SslIs(script: seq<Request>, p: nat, k: nat, mode: VerifyMode, depth: int)
    requires p <= |script|
  {
    && ((exists i :: p < i < |script| && SetsSsl(script[i], k)) || (exists i: nat :: Registers(script[..p], i)) ==>
          ModeIs(script, p, k, mode))
    && ((forall i :: p < i < |script| ==> !SetsSsl(script[i], k)) && (forall i: nat :: !Registers(script[..p], i)) ==>
          mode == VerifyNone)
    && DepthIs(script, p, k, depth)
  }

  /** What SSL k ends up with, over the calls that matter to it. */
  lemma SslSettings(before: seq<Request>, later: seq<Request>)
    ensures var k, script := |Ssls(before)|, before + [NewSsl] + later;
            && k < |Ssls(script)| && Ssls(script)[k].calls == CallsOf(script, |before|, k)
            && Ssls(script)[k].installed ==
                 if LeavesVerifier(before) || OwnCalls(later, k) != [] then ModeOf(LastLevel(CallsOf(script, |before|, k)))
                 else VerifyNone
  {
    var k := |Ssls(before)|;
    CopyIsIndependent(before, later);
    SslCalls(before, later, k);
    assert OwnCalls(later, k) == [] ==> VerifyCalls(before) + OwnCalls(later, k) == VerifyCalls(before);
  }

  lemma SetAfter(script: seq<Request>, p: nat, k: nat)
    requires p < |script|
    ensures OwnCalls(script[p + 1..], k) == [] <==> forall i :: p < i < |script| ==> !SetsSsl(script[i], k)
  {
    var later := script[p + 1..];
    NoOwnCalls(later, k);
    forall i | p < i < |script|
      ensures script[i] == later[i - p - 1]
    {
    }
    assert forall i :: 0 <= i < |later| ==> later[i] == script[p + 1 + i];
  }

  lemma SslTable(script: seq<Request>, p: nat)
    requires p < |script| && script[p].NewSsl?
    ensures var k := Created(script[..p]);
            k < |Ssls(script)| && SslIs(script, p, k, Ssls(script)[k].installed, LastDepth(Ssls(script)[k].calls))
  {
    var k := Created(script[..p]);
    CreatedSsls(script[..p]);
    assert script == script[..p] + [NewSsl] + script[p + 1..];
    SslSettings(script[..p], script[p + 1..]);
    TablesOfCalls(script, p, k);
    VerifierIsLeft(script[..p]);
    SetAfter(script, p, k);
  }
}
