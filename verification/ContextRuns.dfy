/** Contexts under any sequence of requests, and the SSLs created on the way. */
module ContextRuns {
  import opened Bytes
  import opened SslContext
  import opened ContextScripts

  method Serve(c: Context, r: Request)
    requires c.Valid() && CertRequestedCallback !in c.slots
    modifies c, c.refs, c.config
    ensures c.Valid() && CertRequestedCallback !in c.slots
    ensures c.calls == old(c.calls) + if r.Verify? then [VerifyCall(r.level, r.depth)] else []
    ensures Verifier in c.slots <==>
              if r.SetVerifier? && (r.isNull || r.fate == Succeeds) then !r.isNull else Verifier in old(c.slots)
  {
    match r
    case Verify(level, depth) =>
      c.SetVerify(level, depth);
    case SetVerifier(isNull, fate) =>
      c.SetCertVerifyCallback(isNull, fate);
    case Callback(at, isNull, fate) =>
      if at != Verifier && at != CertRequestedCallback {
        c.SetCallback(at, isNull, fate);
      }
    case Compression(isNull, direction, algorithmId, fate, accepted) =>
      var result := c.AddCompression(isNull, direction, algorithmId, fate, accepted);
    case _ =>
  }

  ghost function Configs(ssls: seq<SslVerify>): set<object> {
    set o: SslVerify | o in ssls :: o.config
  }

  /** The objects hold these settings. */
  ghost predicate Tracks(ssls: seq<SslVerify>, settings: seq<Settings>)
    reads ssls, Configs(ssls)
  {
    && |ssls| == |settings|
    && forall i :: 0 <= i < |ssls| ==>
         ssls[i].config in Configs(ssls) && ssls[i].Valid() &&
         ssls[i].calls == settings[i].calls && ssls[i].installed == settings[i].installed
  }

  /** No two SSLs, and no SSL and the context, share a configuration. */
  ghost predicate Apart(c: Context, ssls: seq<SslVerify>) {
    && (forall i :: 0 <= i < |ssls| ==> ssls[i].config != c.config)
    && (forall i, j :: 0 <= i < j < |ssls| ==> ssls[i] != ssls[j] && ssls[i].config != ssls[j].config)
  }

  /** The context and the SSLs are what the requests so far come to. */
  ghost predicate Reflects(c: Context, ssls: seq<SslVerify>, script: seq<Request>)
    reads c, c.refs, c.config, ssls, Configs(ssls)
  {
    && c.Valid() && CertRequestedCallback !in c.slots && c.calls == VerifyCalls(script)
    && (Verifier in c.slots <==> LeavesVerifier(script))
    && Apart(c, ssls) && Tracks(ssls, Ssls(script))
  }

  method ServeContext(c: Context, ssls: seq<SslVerify>, r: Request, ghost script: seq<Request>)
    requires Reflects(c, ssls, script) && !r.NewSsl? && !r.SslSet?
    modifies c, c.refs, c.config
    ensures Reflects(c, ssls, script + [r])
  {
    Serve(c, r);
    Unfold(script, r);
    UnfoldSsls(script, r);
  }

  lemma TracksOneMore(ssls: seq<SslVerify>, settings: seq<Settings>, ssl: SslVerify, one: Settings)
    requires Tracks(ssls, settings) && ssl.Valid() && ssl.calls == one.calls && ssl.installed == one.installed
    ensures Tracks(ssls + [ssl], settings + [one])
  {
    var all := ssls + [ssl];
    forall i | 0 <= i < |all|
      ensures all[i].config in Configs(all) && all[i].Valid()
      ensures all[i].calls == (settings + [one])[i].calls && all[i].installed == (settings + [one])[i].installed
    {
      assert all[i] in all;
      assert i < |ssls| ==> all[i] == ssls[i] && ssls[i].Valid();
    }
  }

  lemma ApartOneMore(c: Context, ssls: seq<SslVerify>, ssl: SslVerify)
    requires Apart(c, ssls) && ssl.config != c.config
    requires forall i :: 0 <= i < |ssls| ==> ssls[i] != ssl && ssls[i].config != ssl.config
    ensures Apart(c, ssls + [ssl])
  {
  }

  method ServeNewSsl(c: Context, ssls: seq<SslVerify>, ghost script: seq<Request>) returns (ssl: SslVerify)
    requires Reflects(c, ssls, script)
    ensures fresh(ssl) && fresh(ssl.config) && Reflects(c, ssls + [ssl], script + [NewSsl])
  {
    ssl := new SslVerify(c);
    Unfold(script, NewSsl);
    UnfoldSsls(script, NewSsl);
    TracksOneMore(ssls, Ssls(script), ssl, Settings(VerifyCalls(script), FinalMode(script)));
    ApartOneMore(c, ssls, ssl);
  }

  method ServeSslSet(c: Context, ssls: seq<SslVerify>, k: nat, level: int, depth: int, ghost script: seq<Request>)
    requires Reflects(c, ssls, script) && k < |ssls|
    modifies ssls[k], ssls[k].config
    ensures Reflects(c, ssls, script + [SslSet(k, level, depth)])
  {
    ssls[k].SetVerify(level, depth);
    Unfold(script, SslSet(k, level, depth));
    UnfoldSsls(script, SslSet(k, level, depth));
  }

  method ServeAny(c: Context, ssls: seq<SslVerify>, r: Request, ghost script: seq<Request>) returns (ssls': seq<SslVerify>)
    requires Reflects(c, ssls, script)
    modifies c, c.refs, c.config, ssls, Configs(ssls)
    ensures Reflects(c, ssls', script + [r]) && ssls <= ssls'
    ensures forall k :: |ssls| <= k < |ssls'| ==> fresh(ssls'[k]) && fresh(ssls'[k].config)
  {
    ssls' := ssls;
    if r.NewSsl? {
      var ssl := ServeNewSsl(c, ssls, script);
      ssls' := ssls + [ssl];
    } else if !r.SslSet? {
      ServeContext(c, ssls, r, script);
    } else if r.ssl < |ssls| {
      ServeSslSet(c, ssls, r.ssl, r.level, r.depth, script);
    } else {
      Unfold(script, r);
      UnfoldSsls(script, r);
    }
  }

  lemma SslTables(ssls: seq<SslVerify>, script: seq<Request>)
    requires Tracks(ssls, Ssls(script))
    ensures forall p :: 0 <= p < |script| && script[p].NewSsl? ==>
              var k := Created(script[..p]);
              k < |ssls| && SslIs(script, p, k, ssls[k].installed, ssls[k].config.depth)
  {
    forall p | 0 <= p < |script| && script[p].NewSsl?
      ensures var k := Created(script[..p]);
              k < |ssls| && SslIs(script, p, k, ssls[k].installed, ssls[k].config.depth)
    {
      SslTable(script, p);
      assert ssls[Created(script[..p])].Valid();
    }
  }

  /** A new context that is asked everything in the script, in order. */
  method ServeAll(script: seq<Request>) returns (c: Context, ssls: seq<SslVerify>)
    ensures Reflects(c, ssls, script) && fresh(c) && fresh(c.refs)
  {
    c := new Context();
    ssls := [];
    for i := 0 to |script|
      invariant fresh(c) && fresh(c.refs) && fresh(c.config)
      invariant forall k :: 0 <= k < |ssls| ==> fresh(ssls[k]) && fresh(ssls[k].config)
      invariant Reflects(c, ssls, script[..i])
    {
      assert script[..i] + [script[i]] == script[..i + 1];
      ssls := ServeAny(c, ssls, script[i], script[..i]);
    }
    assert script[..|script|] == script;
  }

  /**
   * Any sequence of registrations, settings and new SSLs, then cleanup: the installed mode and
   * the depth of the context and of every SSL are those of the script, references match the
   * slots before cleanup, and afterwards each reference ever made was deleted exactly once.
   */
  method RunContext(script: seq<Request>)
    returns (mode: VerifyMode, depth: int, slotsUsed: nat, liveRefs: nat, made: nat, deleted: seq<Ref>, ssls: seq<SslVerify>)
    ensures mode == FinalMode(script) && depth == LastDepth(VerifyCalls(script)) >= 0
    ensures |ssls| == |Ssls(script)|
    ensures forall k :: 0 <= k < |ssls| ==>
              && ssls[k].installed == Ssls(script)[k].installed
              && ssls[k].config.depth == LastDepth(Ssls(script)[k].calls) >= 0
              && ModeOf(ssls[k].config.mode) == ModeOf(LastLevel(Ssls(script)[k].calls))
    ensures ContextIs(script, mode, depth)
    ensures forall p :: 0 <= p < |script| && script[p].NewSsl? ==>
              var k := Created(script[..p]);
              k < |ssls| && SslIs(script, p, k, ssls[k].installed, ssls[k].config.depth)
    ensures liveRefs == slotsUsed
    ensures NoRepeats(deleted) && forall r: Ref :: r in deleted <==> r < made
  {
    var c: Context;
    c, ssls := ServeAll(script);
    mode, depth := c.installed, c.config.depth;
    ContextTable(script);
    SslTables(ssls, script);
    slotsUsed, liveRefs := |c.slots|, |c.refs.live|;
    OwnedCount(c.slots, c.refs.live);
    c.Cleanup(true);
    made, deleted := c.refs.made, c.refs.deleted;
    assert forall r: Ref :: r !in c.refs.live;
  }
}
