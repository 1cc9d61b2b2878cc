/**
 * The context of sslcontext.c: verify configuration and the global references of its
 * callbacks, updated in place by setters that may come in any order and may fail.
 */
module SslContext {
  import opened Bytes

  // ------------------------------------------------------------------- verify configuration

  const SSL_CVERIFY_IGNORED := -1
  const SSL_CVERIFY_NONE := 0
  const SSL_CVERIFY_OPTIONAL := 1
  const SSL_CVERIFY_REQUIRED := 2

  datatype VerifyMode = VerifyNone | VerifyPeer | VerifyPeerFailIfNoCert

  const DEFAULT_DEPTH := 100

  /** One call of setVerify. */
  datatype VerifyCall = VerifyCall(level: int, depth: int)

  /** The level the calls leave behind: the last one that is not "ignored", NONE to begin with. */
  function LastLevel(calls: seq<VerifyCall>): int {
    if calls == [] then SSL_CVERIFY_NONE
    else
      var last := calls[|calls| - 1].level;
      if last == SSL_CVERIFY_IGNORED then LastLevel(calls[..|calls| - 1]) else last
  }

  /** The depth the calls leave behind: the last one that is not negative. */
  function LastDepth(calls: seq<VerifyCall>): (d: int)
    ensures d >= 0
  {
    if calls == [] then DEFAULT_DEPTH
    else
      var last := calls[|calls| - 1].depth;
      if last < 0 then LastDepth(calls[..|calls| - 1]) else last
  }

  /** What a level means to the TLS library; every unknown level means "required". */
  function ModeOf(level: int): VerifyMode {
    if level == SSL_CVERIFY_NONE then VerifyNone
    else if level == SSL_CVERIFY_OPTIONAL then VerifyPeer
    else VerifyPeerFailIfNoCert
  }

  /** tcn_ssl_verify_config_t */
  class VerifyConfig {
    var depth: int
    var mode: int

    /** These calls, in this order, would have led here. */
    ghost predicate After(calls: seq<VerifyCall>)
      reads this
    {
      && depth == LastDepth(calls)
      && ModeOf(mode) == ModeOf(LastLevel(calls))
      && (mode == SSL_CVERIFY_NONE || mode == SSL_CVERIFY_OPTIONAL || mode == SSL_CVERIFY_REQUIRED)
    }

    constructor ()
      ensures After([]) && depth == 100 && mode == 0
    {
      depth, mode := DEFAULT_DEPTH, SSL_CVERIFY_NONE;
    }

    constructor Copy(c: VerifyConfig)
      ensures depth == c.depth && mode == c.mode
    {
      depth, mode := c.depth, c.mode;
    }

    /** tcn_set_verify_config */
    method Set(level: int, depth: int, ghost calls: seq<VerifyCall>) returns (r: VerifyMode)
      requires After(calls)
      modifies this
      ensures After(calls + [VerifyCall(level, depth)])
      ensures r == ModeOf(LastLevel(calls + [VerifyCall(level, depth)]))
      ensures this.depth == if depth >= 0 then depth else old(this.depth)
      ensures mode == (if level == -1 then old(mode) else if level == 0 || level == 1 then level else 2)
      ensures level == 0 ==> r == VerifyNone
      ensures level == 1 ==> r == VerifyPeer
      ensures level != -1 && level != 0 && level != 1 ==> r == VerifyPeerFailIfNoCert
      ensures level == -1 ==>
                r == if old(mode) == 0 then VerifyNone else if old(mode) == 1 then VerifyPeer else VerifyPeerFailIfNoCert
    {
      assert (calls + [VerifyCall(level, depth)])[..|calls|] == calls;
      if depth >= 0 {
        this.depth := depth;
      }
      if level == SSL_CVERIFY_IGNORED {
        return if mode == SSL_CVERIFY_NONE then VerifyNone
               else if mode == SSL_CVERIFY_OPTIONAL then VerifyPeer
               else VerifyPeerFailIfNoCert;
      } else if level == SSL_CVERIFY_NONE {
        mode := SSL_CVERIFY_NONE;
        return VerifyNone;
      } else if level == SSL_CVERIFY_OPTIONAL {
        mode := SSL_CVERIFY_OPTIONAL;
        return VerifyPeer;
      } else {
        mode := SSL_CVERIFY_REQUIRED;
        return VerifyPeerFailIfNoCert;
      }
    }
  }

  // ---------------------------------------------------------------------- global references

  /** The context fields that hold a JNI global reference. */
  datatype Slot =
    | PrivateKeyMethod | ZlibAlgorithm | BrotliAlgorithm | ZstdAlgorithm | KeyLogCallback
    | SessionCache | Verifier | CertRequestedCallback | CertificateCallback | SniHostnameMatcher

  type Ref = nat

  /** Every global reference ever made: how many, which are live, and the deletions in order. */
  class GlobalRefs {
    var made: nat
    var live: set<Ref>
    var deleted: seq<Ref>

    ghost predicate Valid()
      reads this
    {
      && (forall r: Ref :: r in live <==> r < made && r !in deleted)
      && (forall r: Ref :: r in deleted ==> r < made)
      && NoRepeats(deleted)
    }

    constructor ()
      ensures Valid() && made == 0 && live == {} && deleted == []
    {
      made, live, deleted := 0, {}, [];
    }

    method New() returns (r: Ref)
      requires Valid()
      modifies this
      ensures Valid() && r == old(made) && r !in old(live) && live == old(live) + {r} && made == old(made) + 1 && deleted == old(deleted)
    {
      r := made;
      made := made + 1;
      live := live + {r};
    }

    method Delete(r: Ref)
      requires Valid() && r in live
      modifies this
      ensures Valid() && live == old(live) - {r} && made == old(made) && deleted == old(deleted) + [r]
    {
      live := live - {r};
      deleted := deleted + [r];
    }
  }

  const COMPRESS: bv32 := 1
  const DECOMPRESS: bv32 := 2

  predicate HasDirection(direction: bv32) {
    direction & COMPRESS != 0 || direction & DECOMPRESS != 0
  }

  function AlgorithmSlot(algorithmId: int): Option<Slot> {
    match algorithmId
    case 1 => Some(ZlibAlgorithm)
    case 2 => Some(BrotliAlgorithm)
    case 3 => Some(ZstdAlgorithm)
    case _ => None
  }

  /** A live reference for every occupied slot, a different one each, and no others. */
  ghost predicate Owns(slots: map<Slot, Ref>, live: set<Ref>) {
    && (forall a :: a in slots ==> slots[a] in live)
    && (forall r :: r in live ==> exists a :: a in slots && slots[a] == r)
    && forall a, b :: a in slots && b in slots && a != b ==> slots[a] != slots[b]
  }

  lemma OwnsDrop(slots: map<Slot, Ref>, live: set<Ref>, at: Slot)
    requires Owns(slots, live) && at in slots
    ensures Owns(slots - {at}, live - {slots[at]})
  {
    var slots', live' := slots - {at}, live - {slots[at]};
    forall r | r in live'
      ensures exists a :: a in slots' && slots'[a] == r
    {
      var a :| a in slots && slots[a] == r;
      assert slots'[a] == r;
    }
  }

  lemma OwnsAdd(slots: map<Slot, Ref>, live: set<Ref>, at: Slot, r: Ref)
    requires Owns(slots, live) && at !in slots && r !in live
    ensures Owns(slots[at := r], live + {r})
  {
    var slots', live' := slots[at := r], live + {r};
    forall x | x in live'
      ensures exists a :: a in slots' && slots'[a] == x
    {
      if x == r {
        assert slots'[at] == x;
      } else {
        var a :| a in slots && slots[a] == x;
        assert slots'[a] == x;
      }
    }
  }

  lemma OwnsPut(slots: map<Slot, Ref>, live: set<Ref>, at: Slot, r: Ref)
    requires Owns(slots, live) && r !in live
    ensures Owns(slots[at := r], if at in slots then (live + {r}) - {slots[at]} else live + {r})
  {
    if at in slots {
      OwnsDrop(slots, live, at);
      OwnsAdd(slots - {at}, live - {slots[at]}, at, r);
      assert (slots - {at})[at := r] == slots[at := r];
      assert live - {slots[at]} + {r} == (live + {r}) - {slots[at]};
    } else {
      OwnsAdd(slots, live, at, r);
    }
  }

  // ---------------------------------------------------------------------------- the context

  /** How far a registration gets: the method lookup, then the new reference. */
  datatype Fate = NoMethod | NoMemory | Succeeds

  class Context {
    const refs: GlobalRefs
    const config: VerifyConfig
    var slots: map<Slot, Ref>
    var installed: VerifyMode            // what the TLS library was last told
    ghost var calls: seq<VerifyCall>      // every setVerify so far

    ghost predicate Valid()
      reads this, refs, config
    {
      && refs.Valid() && Owns(slots, refs.live)
      && config.After(calls)
      && installed == (if Verifier in slots then ModeOf(LastLevel(calls)) else VerifyNone)
    }

    constructor ()
      ensures Valid() && fresh(refs) && fresh(config) && slots == map[] && calls == [] && refs.made == 0
      ensures config.depth == 100 && config.mode == 0 && installed == VerifyNone
    {
      refs := new GlobalRefs();
      config := new VerifyConfig();
      slots, installed, calls := map[], VerifyNone, [];
    }

    /** SSLContext.setVerify */
    method SetVerify(level: int, depth: int)
      requires Valid()
      modifies this`installed, this`calls, config
      ensures Valid() && calls == old(calls) + [VerifyCall(level, depth)]
      ensures config.depth == if depth >= 0 then depth else old(config.depth)
      ensures installed == if Verifier !in slots then old(installed) else
                             match config.mode case 0 => VerifyNone case 1 => VerifyPeer case _ => VerifyPeerFailIfNoCert
      ensures config.mode == (if level == -1 then old(config.mode) else if level == 0 || level == 1 then level else 2)
    {
      var mode := config.Set(level, depth, calls);
      calls := calls + [VerifyCall(level, depth)];
      if Verifier in slots {
        installed := mode;
      }
    }

    /** Store a new reference and delete the old one, as every successful setter does. */
    method Replace(at: Slot)
      requires refs.Valid() && Owns(slots, refs.live)
      modifies this`slots, refs
      ensures refs.Valid() && Owns(slots, refs.live) && slots == old(slots)[at := old(refs.made)]
      ensures refs.made == old(refs.made) + 1
      ensures refs.deleted == old(refs.deleted) + if at in old(slots) then [old(slots)[at]] else []
    {
      var previous := slots;
      var r := refs.New();
      OwnsPut(previous, refs.live - {r}, at, r);
      assert refs.live - {r} + {r} == refs.live;
      slots := slots[at := r];
      if at in previous {
        refs.Delete(previous[at]);
      }
    }

    /** Clear a slot and delete its reference, as every setter does for null. */
    method Drop(at: Slot)
      requires refs.Valid() && Owns(slots, refs.live)
      modifies this`slots, refs
      ensures refs.Valid() && Owns(slots, refs.live) && slots == old(slots) - {at}
      ensures refs.made == old(refs.made)
      ensures refs.deleted == old(refs.deleted) + if at in old(slots) then [old(slots)[at]] else []
    {
      if at in slots {
        var r := slots[at];
        OwnsDrop(slots, refs.live, at);
        slots := slots - {at};
        refs.Delete(r);
      }
    }

    /** setCertVerifyCallback */
    method SetCertVerifyCallback(isNull: bool, fate: Fate)
      requires Valid()
      modifies this`slots, this`installed, refs, config
      ensures Valid() && calls == old(calls)
      ensures !isNull && fate != Succeeds ==> slots == old(slots) && refs.live == old(refs.live) && refs.made == old(refs.made)
      ensures isNull ==> slots == old(slots) - {Verifier}
      ensures !isNull && fate == Succeeds ==>
                && slots == old(slots)[Verifier := old(refs.made)] && refs.made == old(refs.made) + 1
                && installed == match config.mode case 0 => VerifyNone case 1 => VerifyPeer case _ => VerifyPeerFailIfNoCert
      ensures isNull ==> installed == VerifyNone
      ensures config.mode == old(config.mode) && config.depth == old(config.depth)
    {
      if isNull {
        installed := VerifyNone;
        Drop(Verifier);
      } else if fate == Succeeds {
        SameAgain(calls, config.mode, config.depth);
        Replace(Verifier);
        installed := config.Set(config.mode, config.depth, calls);
      }
    }

    /** The other callback setters; in this build the certificate-requested one only throws. */
    method SetCallback(at: Slot, isNull: bool, fate: Fate)
      requires Valid() && at != Verifier && at != CertRequestedCallback
      modifies this`slots, refs
      ensures Valid()
      ensures !isNull && fate != Succeeds ==> slots == old(slots) && refs.live == old(refs.live) && refs.made == old(refs.made)
      ensures isNull ==> slots == old(slots) - {at}
      ensures !isNull && fate == Succeeds ==> slots == old(slots)[at := old(refs.made)] && refs.made == old(refs.made) + 1
      ensures isNull || fate == Succeeds ==>
                refs.deleted == old(refs.deleted) + if at in old(slots) then [old(slots)[at]] else []
    {
      if isNull {
        Drop(at);
      } else if fate == Succeeds {
        Replace(at);
      }
    }

    /**
     * addCertificateCompressionAlgorithm0: the reference is made first and given back when
     * the algorithm is unknown or the TLS library refuses it.
     */
    method AddCompression(isNull: bool, direction: bv32, algorithmId: int, fate: Fate, accepted: bool) returns (result: bool)
      requires Valid()
      modifies this`slots, refs
      ensures Valid()
      ensures result <==> !isNull && direction & 3 != 0 && fate == Succeeds && 1 <= algorithmId <= 3 && accepted
      ensures result ==>
                slots == old(slots)[match algorithmId case 1 => ZlibAlgorithm case 2 => BrotliAlgorithm case _ => ZstdAlgorithm
                                    := old(refs.made)]
      ensures !result ==> slots == old(slots) && refs.live == old(refs.live)
    {
      if isNull || !HasDirection(direction) || fate != Succeeds {
        return false;
      }
      var r := refs.New();
      var at := AlgorithmSlot(algorithmId);
      if at == None || !accepted {
        refs.Delete(r);
        assert refs.live == old(refs.live);
        return false;
      }
      OwnsPut(slots, old(refs.live), at.value, r);
      var previous := slots;
      if at.value in previous {
        refs.Delete(previous[at.value]);
      }
      slots := slots[at.value := r];
      return true;
    }

    /** One block of ssl_context_cleanup; without a JNI environment the reference cannot be deleted. */
    method Release(at: Slot, hasEnv: bool)
      requires refs.Valid() && (hasEnv ==> Owns(slots, refs.live))
      modifies this`slots, refs
      ensures refs.Valid() && slots == old(slots) - {at}
      ensures hasEnv ==> Owns(slots, refs.live)
      ensures !hasEnv ==> refs.live == old(refs.live)
    {
      if hasEnv {
        Drop(at);
      } else {
        slots := slots - {at};
      }
    }

    /** ssl_context_cleanup: all slots end up empty, and with a JNI environment no reference is left. */
    method Cleanup(hasEnv: bool)
      requires Valid()
      modifies this`slots, refs
      ensures slots == map[] && refs.Valid()
      ensures hasEnv ==> refs.live == {}
      ensures !hasEnv ==> refs.live == old(refs.live)
    {
      Release(PrivateKeyMethod, hasEnv);
      Release(ZlibAlgorithm, hasEnv);
      Release(BrotliAlgorithm, hasEnv);
      Release(ZstdAlgorithm, hasEnv);
      Release(KeyLogCallback, hasEnv);
      Release(SessionCache, hasEnv);
      Release(Verifier, hasEnv);
      Release(CertRequestedCallback, hasEnv);
      Release(CertificateCallback, hasEnv);
      Release(SniHostnameMatcher, hasEnv);
      NoSlotLeft(slots);
    }
  }

  lemma NoSlotLeft(slots: map<Slot, Ref>)
    requires PrivateKeyMethod !in slots && ZlibAlgorithm !in slots && BrotliAlgorithm !in slots && ZstdAlgorithm !in slots
    requires KeyLogCallback !in slots && SessionCache !in slots && Verifier !in slots && CertRequestedCallback !in slots
    requires CertificateCallback !in slots && SniHostnameMatcher !in slots
    ensures slots == map[]
  {
    forall at: Slot
      ensures at !in slots
    {
      match at {
        case PrivateKeyMethod =>
        case ZlibAlgorithm =>
        case BrotliAlgorithm =>
        case ZstdAlgorithm =>
        case KeyLogCallback =>
        case SessionCache =>
        case Verifier =>
        case CertRequestedCallback =>
        case CertificateCallback =>
        case SniHostnameMatcher =>
      }
    }
  }

  /** The verify settings of one SSL: a copy made by newSSL, changed only through the SSL. */
  class SslVerify {
    const config: VerifyConfig
    var installed: VerifyMode
    ghost var calls: seq<VerifyCall>     // those of the context before the copy, then its own

    ghost predicate Valid()
      reads this, config
    {
      config.After(calls)
    }

    constructor (context: Context)
      requires context.Valid()
      ensures Valid() && fresh(config) && calls == context.calls && installed == context.installed
      ensures config.depth == context.config.depth && config.mode == context.config.mode
    {
      config := new VerifyConfig.Copy(context.config);
      installed := context.installed;
      calls := context.calls;
    }

    /** SSL.setVerify */
    method SetVerify(level: int, depth: int)
      requires Valid()
      modifies this, config
      ensures Valid() && calls == old(calls) + [VerifyCall(level, depth)]
      ensures installed == ModeOf(LastLevel(calls))
      ensures config.depth == if depth >= 0 then depth else old(config.depth)
      ensures config.mode == (if level == -1 then old(config.mode) else if level == 0 || level == 1 then level else 2)
      ensures installed == match config.mode case 0 => VerifyNone case 1 => VerifyPeer case _ => VerifyPeerFailIfNoCert
    {
      installed := config.Set(level, depth, calls);
      calls := calls + [VerifyCall(level, depth)];
    }
  }

  /** Setting the configuration to what it already is counts for nothing. */
  lemma SameAgain(calls: seq<VerifyCall>, level: int, depth: int)
    requires depth == LastDepth(calls) && ModeOf(level) == ModeOf(LastLevel(calls)) && level != SSL_CVERIFY_IGNORED
    ensures var again := calls + [VerifyCall(level, depth)];
            LastDepth(again) == LastDepth(calls) && ModeOf(LastLevel(again)) == ModeOf(LastLevel(calls))
  {
  }

  lemma {:induction false} OwnedCount(slots: map<Slot, Ref>, live: set<Ref>)
    requires Owns(slots, live)
    ensures |live| == |slots|
    decreases |live|
  {
    if slots == map[] {
      assert live == {};
    } else {
      var at :| at in slots;
      OwnsDrop(slots, live, at);
      assert slots[at] in live;
      OwnedCount(slots - {at}, live - {slots[at]});
      assert (slots - {at}).Keys == slots.Keys - {at};
    }
  }
}
