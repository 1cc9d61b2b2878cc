/**
 * What key rotation means for tickets, over every interleaving of callbacks and installs:
 * which ticket is accepted, with which key, and when it is renewed. A ticket is the name of
 * a key together with a value bound to that key, as in section 4 of RFC 5077.
 */
module TicketRotation {
  import opened Bytes
  import opened TicketKeys
  import opened TicketLock

  /** The value the ticket callback returns to the TLS library. */
  function ReturnCode(a: Answer): int {
    if a.found == None then 0
    else if a.query.Issue? then if a.random then 1 else -1
    else if a.found.value.current then 1 else 2
  }

  /** A name is used for one key only, in all lists ever installed. */
  ghost predicate NamesIdentifyKeys(log: seq<seq<TicketKey>>) {
    forall v, w, i, j :: 0 <= v < |log| && 0 <= w < |log| && 0 <= i < |log[v]| && 0 <= j < |log[w]| ==>
                           log[v][i].name == log[w][j].name ==> log[v][i] == log[w][j]
  }

  predicate IssuedTicket(a: Answer) { a.query.Issue? && ReturnCode(a) == 1 }

  predicate Presents(b: Answer, a: Answer)
    requires IssuedTicket(a)
  {
    b.query == Resume(a.found.value.key.name)
  }

  /** The key of an issued ticket was the first of the list installed then. */
  lemma IssuedWithCurrentKey(s: State, a: Answer)
    requires Honest(s, a) && IssuedTicket(a)
    ensures s.log[a.since] != [] && a.found.value.key == s.log[a.since][0]
  {
  }

  /** What a presented ticket gets from the one list its callback saw. */
  lemma PresentedTicket(s: State, a: Answer, b: Answer)
    requires Honest(s, a) && Honest(s, b) && IssuedTicket(a) && Presents(b, a)
    requires NamesIdentifyKeys(s.log)
    ensures var key, keys := a.found.value.key, s.log[b.since];
            && (ReturnCode(b) != 0 <==> key in keys)
            && (b.found.Some? ==> b.found.value.key == key)
            && (ReturnCode(b) == 2 <==> key in keys && keys[0] != key)
            && (ReturnCode(b) == 1 <==> keys != [] && keys[0] == key)
  {
  }

  /**
   * Over every run: a ticket issued in it and presented in it is accepted exactly when its
   * key is in the list installed during that callback, is opened with the key that sealed
   * it, and is renewed exactly when that key is listed but no longer first.
   */
  lemma RotationOverRuns(events: seq<Event>, s: State, i: nat, j: nat)
    requires Reaches(INITIAL, events, s) && NamesIdentifyKeys(s.log)
    requires i < |s.answers| && j < |s.answers|
    requires IssuedTicket(s.answers[i]) && Presents(s.answers[j], s.answers[i])
    ensures var key, b := s.answers[i].found.value.key, s.answers[j];
            && b.since == b.until < |s.log|
            && (ReturnCode(b) != 0 <==> key in s.log[b.since])
            && (ReturnCode(b) != 0 ==> b.found.value.key == key)
            && (ReturnCode(b) == 2 <==> key in s.log[b.since] && s.log[b.since][0] != key)
  {
    LookupsAreLinearizable(events, s);
    assert Honest(s, s.answers[i]) && Honest(s, s.answers[j]);
    PresentedTicket(s, s.answers[i], s.answers[j]);
  }

  // -------------------------------------------------------- rotation that keeps K keys

  /** A new first key in front, and no more than `keep` keys in all. */
  function Rotated(keys: seq<TicketKey>, key: TicketKey, keep: nat): seq<TicketKey> {
    ([key] + keys)[..Min(keep, 1 + |keys|)]
  }

  /** One rotation, to a key other than `key`. */
  predicate RotatesPast(before: seq<TicketKey>, after: seq<TicketKey>, key: TicketKey, keep: nat) {
    after != [] && after[0] != key && after == Rotated(before, after[0], keep)
  }

  /** Every install after version v is such a rotation. */
  ghost predicate RotatesFrom(log: seq<seq<TicketKey>>, v: nat, key: TicketKey, keep: nat) {
    forall w :: v < w < |log| ==> RotatesPast(log[w - 1], log[w], key, keep)
  }

  /** After n rotations the key is at index n of the list, or gone if no more than n keys are kept. */
  ghost predicate SitsAt(keys: seq<TicketKey>, key: TicketKey, n: nat, keep: nat) {
    && (forall i :: 0 <= i < |keys| && i < n ==> keys[i] != key)
    && if n < keep then n < |keys| && keys[n] == key else |keys| <= n
  }

  lemma SinksByOne(before: seq<TicketKey>, after: seq<TicketKey>, key: TicketKey, n: nat, keep: nat)
    requires SitsAt(before, key, n, keep) && RotatesPast(before, after, key, keep)
    ensures SitsAt(after, key, n + 1, keep)
  {
  }

  lemma {:induction false} KeySinks(log: seq<seq<TicketKey>>, v: nat, w: nat, key: TicketKey, keep: nat)
    requires v <= w < |log| && keep > 0 && RotatesFrom(log, v, key, keep)
    requires log[v] != [] && log[v][0] == key
    ensures SitsAt(log[w], key, w - v, keep)
    decreases w
  {
    if v < w {
      KeySinks(log, v, w - 1, key, keep);
      SinksByOne(log[w - 1], log[w], key, w - 1 - v, keep);
    }
  }

  /** Keeping K keys, a ticket survives K - 1 rotations and not one more. */
  lemma SurvivesExactly(log: seq<seq<TicketKey>>, v: nat, w: nat, key: TicketKey, keep: nat)
    requires v <= w < |log| && keep > 0 && RotatesFrom(log, v, key, keep)
    requires log[v] != [] && log[v][0] == key
    ensures key in log[w] <==> w - v <= keep - 1
    ensures key in log[w] ==> (log[w][0] == key <==> w == v)
  {
    KeySinks(log, v, w, key, keep);
  }

  /** The same over runs: how a ticket fares depends only on how many rotations lie in between. */
  lemma TicketLifetime(events: seq<Event>, s: State, i: nat, j: nat, keep: nat)
    requires Reaches(INITIAL, events, s) && NamesIdentifyKeys(s.log)
    requires i < |s.answers| && j < |s.answers| && s.answers[i].since <= s.answers[j].since
    requires IssuedTicket(s.answers[i]) && Presents(s.answers[j], s.answers[i])
    requires keep > 0 && RotatesFrom(s.log, s.answers[i].since, s.answers[i].found.value.key, keep)
    ensures var n := s.answers[j].since - s.answers[i].since;
            ReturnCode(s.answers[j]) == if n == 0 then 1 else if n < keep then 2 else 0
  {
    var a, b := s.answers[i], s.answers[j];
    LookupsAreLinearizable(events, s);
    assert Honest(s, a) && Honest(s, b);
    IssuedWithCurrentKey(s, a);
    SurvivesExactly(s.log, a.since, b.since, a.found.value.key, keep);
    PresentedTicket(s, a, b);
  }
}
