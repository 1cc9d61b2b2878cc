/**
 * ALPN and NPN protocol lists: the encoder of SSLContext.java and the selector of
 * sslutils.c, with the wire format of section 3.1 of RFC 7301 and the selection rule
 * of its section 3.2.
 */
module Alpn {
  import opened Bytes

  type Name = seq<byte>

  /** Longer names are left out by the encoder (MAX_ALPN_NPN_PROTO_SIZE). */
  const MAX_PROTO_SIZE := 65535

  // ------------------------------------------------------------------- the wire format

  /** The position after the entry at p; it may lie past the end. */
  function Next(wire: seq<byte>, p: nat): (n: nat)
    requires p < |wire|
  {
    p + 1 + wire[p] as int
  }

  /** The names a walk from p visits; an entry that runs past the end is not one of them. */
  function NamesFrom(wire: seq<byte>, p: nat): (names: seq<Name>)
    decreases |wire| - p
  {
    if p >= |wire| || Next(wire, p) > |wire| then []
    else [wire[p + 1..Next(wire, p)]] + NamesFrom(wire, Next(wire, p))
  }

  function WireNames(wire: seq<byte>): (names: seq<Name>) {
    NamesFrom(wire, 0)
  }

  /** The walk from p ends exactly at the end of the buffer. */
  predicate WellFormedFrom(wire: seq<byte>, p: nat)
    decreases |wire| - p
  {
    p == |wire| || (p < |wire| && WellFormedFrom(wire, Next(wire, p)))
  }

  predicate WellFormed(wire: seq<byte>) {
    WellFormedFrom(wire, 0)
  }

  /** One name as the encoder writes it: the length byte keeps the low eight bits only. */
  function Entry(name: Name): (r: seq<byte>) {
    if |name| <= MAX_PROTO_SIZE then [(|name| % 256) as byte] + name else []
  }

  function Wire(names: seq<Name>): (r: seq<byte>) {
    if names == [] then [] else Entry(names[0]) + Wire(names[1..])
  }

  lemma {:induction false} WireAppend(names: seq<Name>, name: Name)
    ensures Wire(names + [name]) == Wire(names) + Entry(name)
  {
    if names == [] {
      assert Wire([name]) == Entry(name) + Wire([]);
    } else {
      assert (names + [name])[1..] == names[1..] + [name];
      WireAppend(names[1..], name);
    }
  }

  /** A name adds the low eight bits of its length and its bytes, or nothing if it has more than 65535 bytes. */
  lemma WireGrows(names: seq<Name>, name: Name)
    ensures Wire([]) == []
    ensures Wire(names + [name]) == Wire(names) + if |name| > 65535 then [] else [(|name| % 256) as byte] + name
  {
    WireAppend(names, name);
  }

  /** protocolsToWireFormat */
  method ProtocolsToWireFormat(protocols: seq<Name>) returns (wire: seq<byte>)
    ensures wire == Wire(protocols)
    ensures (forall k :: 0 <= k < |protocols| ==> |protocols[k]| <= 255) ==> WellFormed(wire) && WireNames(wire) == protocols
  {
    wire := [];
    for k := 0 to |protocols|
      invariant wire == Wire(protocols[..k])
    {
      var bytes := protocols[k];
      if |bytes| <= MAX_PROTO_SIZE {
        wire := wire + [(|bytes| % 256) as byte];
        wire := wire + bytes;
      }
      WireAppend(protocols[..k], bytes);
      assert protocols[..k + 1] == protocols[..k] + [bytes];
    }
    assert protocols[..|protocols|] == protocols;
    if forall k :: 0 <= k < |protocols| ==> |protocols[k]| <= 255 {
      ShortNamesSurvive(protocols);
    }
  }

  lemma SliceShift(front: seq<byte>, wire: seq<byte>, a: nat, b: nat)
    requires a <= b <= |wire|
    ensures (front + wire)[|front| + a..|front| + b] == wire[a..b]
  {
  }

  /** A walk sees the same names wherever the bytes it walks over are placed. */
  lemma {:induction false} NamesShift(front: seq<byte>, wire: seq<byte>, p: nat)
    ensures NamesFrom(front + wire, |front| + p) == NamesFrom(wire, p)
    ensures WellFormedFrom(front + wire, |front| + p) == WellFormedFrom(wire, p)
    decreases |wire| - p
  {
    if p < |wire| {
      var all, at, n := front + wire, |front| + p, Next(wire, p);
      assert all[at] == wire[p] && Next(all, at) == |front| + n;
      if n <= |wire| {
        SliceShift(front, wire, p + 1, n);
        NamesShift(front, wire, n);
        assert NamesFrom(all, at) == [wire[p + 1..n]] + NamesFrom(all, |front| + n);
        assert NamesFrom(wire, p) == [wire[p + 1..n]] + NamesFrom(wire, n);
      } else {
        assert !WellFormedFrom(all, |front| + n) && !WellFormedFrom(wire, n);
      }
    }
  }

  lemma PrependEntry(name: Name, rest: seq<byte>)
    requires |name| <= 255
    ensures WireNames(Entry(name) + rest) == [name] + WireNames(rest)
    ensures WellFormed(Entry(name) + rest) == WellFormed(rest)
  {
    var entry := Entry(name);
    var wire := entry + rest;
    assert wire[0] == entry[0] && Next(wire, 0) == |entry| + 0 <= |wire|;
    assert wire[1..|entry|] == name;
    NamesShift(entry, rest, 0);
  }

  lemma {:induction false} ShortNamesSurvive(names: seq<Name>)
    requires forall k :: 0 <= k < |names| ==> |names[k]| <= 255
    ensures WellFormed(Wire(names)) && WireNames(Wire(names)) == names
  {
    if names != [] {
      ShortNamesSurvive(names[1..]);
      PrependEntry(names[0], Wire(names[1..]));
      assert names == [names[0]] + names[1..];
    }
  }

  lemma {:induction false} NamesAreShort(wire: seq<byte>, p: nat, k: nat)
    requires k < |NamesFrom(wire, p)|
    ensures |NamesFrom(wire, p)[k]| <= 255
    decreases |wire| - p
  {
    if k > 0 {
      NamesAreShort(wire, Next(wire, p), k - 1);
    }
  }

  /** The list comes back from the wire exactly when no name is longer than its length byte can say. */
  lemma RoundTrip(names: seq<Name>)
    ensures WireNames(Wire(names)) == names <==> forall k :: 0 <= k < |names| ==> |names[k]| <= 255
  {
    if forall k :: 0 <= k < |names| ==> |names[k]| <= 255 {
      ShortNamesSurvive(names);
    } else {
      var k :| 0 <= k < |names| && |names[k]| > 255;
      if k < |WireNames(Wire(names))| {
        NamesAreShort(Wire(names), 0, k);
      }
    }
  }

  // ---------------------------------------------------------------------- the selector

  /**
   * `Selected` points into the peer's bytes, `MyLast` into the configured ones. `LeavesList`
   * says that the walk reads past the configured bytes, where nothing determines the answer.
   */
  datatype Selection = Selected(start: nat, len: nat) | MyLast(start: nat, len: nat) | NoAck | LeavesList

  const CHOOSE_MY_LAST_PROTOCOL := 1

  /** The first configured name that the peer lists. */
  ghost predicate Preferred(configured: seq<Name>, offered: seq<Name>, k: nat) {
    k < |configured| && configured[k] in offered && forall j :: 0 <= j < k ==> configured[j] !in offered
  }

  ghost predicate Common(configured: seq<Name>, offered: seq<Name>) {
    exists k :: 0 <= k < |configured| && configured[k] in offered
  }

  /** From p on, the first entry with that name starts it at `start`. */
  ghost predicate FirstEntry(wire: seq<byte>, p: nat, start: nat, name: Name)
    decreases |wire| - p
  {
    && p < |wire| && Next(wire, p) <= |wire|
    && if wire[p + 1..Next(wire, p)] == name then start == p + 1 else FirstEntry(wire, Next(wire, p), start, name)
  }

  lemma {:induction false} FirstEntryIsInside(wire: seq<byte>, p: nat, start: nat, name: Name)
    requires FirstEntry(wire, p, start, name)
    ensures p < start && start + |name| <= |wire| && wire[start..start + |name|] == name
    ensures wire[start - 1] as int == |name| && name in NamesFrom(wire, p)
    decreases |wire| - p
  {
    if wire[p + 1..Next(wire, p)] != name {
      FirstEntryIsInside(wire, Next(wire, p), start, name);
    }
  }

  /** From p on, some complete entry has a name of this length. */
  ghost predicate HasLength(wire: seq<byte>, p: nat, len: nat)
    decreases |wire| - p
  {
    p < |wire| && Next(wire, p) <= |wire| && (wire[p] as int == len || HasLength(wire, Next(wire, p), len))
  }

  /** What the inner loop finds for one configured entry. */
  datatype Search = Found(start: nat) | Absent | ReadsPast

  /** The walk has come to p without having met the name. */
  ghost predicate NotMet(wire: seq<byte>, p: nat, name: Name) {
    && (name in WireNames(wire) <==> name in NamesFrom(wire, p))
    && forall start: nat :: FirstEntry(wire, p, start, name) ==> FirstEntry(wire, 0, start, name)
  }

  lemma NotMetNext(wire: seq<byte>, p: nat, name: Name)
    requires NotMet(wire, p, name) && p < |wire| && (Next(wire, p) <= |wire| ==> wire[p + 1..Next(wire, p)] != name)
    ensures NotMet(wire, Next(wire, p), name)
  {
    var n := Next(wire, p);
    if n <= |wire| {
      assert NamesFrom(wire, p) == [wire[p + 1..n]] + NamesFrom(wire, n);
    } else {
      assert NamesFrom(wire, p) == [] && NamesFrom(wire, n) == [];
    }
    forall start: nat | FirstEntry(wire, n, start, name)
      ensures FirstEntry(wire, 0, start, name)
    {
      assert FirstEntry(wire, p, start, name);
    }
  }

  lemma Met(wire: seq<byte>, p: nat, name: Name)
    requires NotMet(wire, p, name) && p < |wire| && Next(wire, p) <= |wire| && wire[p + 1..Next(wire, p)] == name
    ensures name in WireNames(wire) && FirstEntry(wire, 0, p + 1, name)
  {
    assert FirstEntry(wire, p, p + 1, name);
    assert NamesFrom(wire, p)[0] == name;
  }

  /**
   * The inner loop: look for the configured entry of `len` bytes at `at` among the peer's
   * entries. An entry that is cut off is compared only with a name of the same length.
   */
  method FindInPeer(peer: seq<byte>, supported: seq<byte>, at: nat, len: nat) returns (r: Search)
    ensures at + len <= |supported| ==>
              var target := supported[at..at + len];
              && r != ReadsPast
              && (r.Found? <==> target in WireNames(peer))
              && (r.Found? ==> FirstEntry(peer, 0, r.start, target))
    ensures at + len > |supported| ==> r == if HasLength(peer, 0, len) then ReadsPast else Absent
  {
    ghost var whole := at + len <= |supported|;
    ghost var target := if whole then supported[at..at + len] else [];
    var p := 0;
    while p < |peer|
      invariant 0 <= p
      invariant whole ==> NotMet(peer, p, target)
      invariant !whole ==> HasLength(peer, 0, len) == HasLength(peer, p, len)
      decreases |peer| - p
    {
      ghost var before := p;
      var protoLen := peer[p] as int;
      p := p + 1;
      if p + protoLen <= |peer| && len == protoLen {
        if at + len > |supported| {
          return ReadsPast;
        }
        if supported[at..at + len] == peer[p..p + protoLen] {
          Met(peer, before, target);
          return Found(p);
        }
      }
      p := p + protoLen;
      if whole {
        NotMetNext(peer, before, target);
      }
    }
    return Absent;
  }

  /** Where the entry that runs past the end starts. */
  ghost function CutAt(wire: seq<byte>, p: nat): (cut: nat)
    requires p <= |wire| && !WellFormedFrom(wire, p)
    ensures p <= cut < |wire| && Next(wire, cut) > |wire|
    decreases |wire| - p
  {
    if Next(wire, p) > |wire| then p else CutAt(wire, Next(wire, p))
  }

  /** The outer walk is at `pos` and has passed exactly the first k names. */
  ghost predicate At(wire: seq<byte>, pos: nat, k: nat) {
    && k <= |WireNames(wire)| && NamesFrom(wire, pos) == WireNames(wire)[k..]
    && WellFormed(wire) == WellFormedFrom(wire, pos)
    && (!WellFormed(wire) && pos <= |wire| ==> CutAt(wire, pos) == CutAt(wire, 0))
  }

  lemma AtNext(wire: seq<byte>, pos: nat, k: nat)
    requires At(wire, pos, k) && pos < |wire|
    ensures Next(wire, pos) > |wire| ==> k == |WireNames(wire)| && !WellFormed(wire) && CutAt(wire, 0) == pos
    ensures Next(wire, pos) <= |wire| ==>
              k < |WireNames(wire)| && WireNames(wire)[k] == wire[pos + 1..Next(wire, pos)] && At(wire, Next(wire, pos), k + 1)
  {
    if Next(wire, pos) <= |wire| {
      assert WireNames(wire)[k..][1..] == WireNames(wire)[k + 1..];
    } else {
      assert !WellFormedFrom(wire, Next(wire, pos));
    }
  }

  /** None of the first k configured names is offered. */
  ghost predicate Passed(configured: seq<Name>, offered: seq<Name>, k: nat) {
    k <= |configured| && forall j :: 0 <= j < k ==> configured[j] !in offered
  }

  /** What `Selected` means: the preferred name, at its first place in the peer's list. */
  ghost predicate Chosen(peer: seq<byte>, supported: seq<byte>, start: nat, len: nat, k: nat) {
    && Preferred(WireNames(supported), WireNames(peer), k)
    && len == |WireNames(supported)[k]|
    && FirstEntry(peer, 0, start, WireNames(supported)[k])
  }

  /**
   * The answer without a shared name. A well-formed list is always left. A list that is cut
   * off is left when the peer has a name of the length the cut entry claims, or when that
   * length does not bring the index, which has not counted length bytes, past the end.
   */
  ghost function Unmatched(peer: seq<byte>, supported: seq<byte>, failureBehavior: int): Selection {
    if supported == [] then NoAck
    else if WellFormed(supported) then LeavesList
    else
      var cut := CutAt(supported, 0);
      var len := supported[cut] as int;
      if HasLength(peer, 0, len) || cut - |WireNames(supported)| + len < |supported| then LeavesList
      else if failureBehavior == CHOOSE_MY_LAST_PROTOCOL then MyLast(cut + 1, len)
      else NoAck
  }

  /** What the answer is, for all bytes on both sides. */
  ghost predicate Correct(peer: seq<byte>, supported: seq<byte>, failureBehavior: int, r: Selection) {
    if Common(WireNames(supported), WireNames(peer)) then
      && r.Selected? && 1 <= r.start && r.start + r.len <= |peer| && peer[r.start - 1] as int == r.len
      && exists k: nat :: Chosen(peer, supported, r.start, r.len, k)
    else
      r == Unmatched(peer, supported, failureBehavior)
  }

  lemma FoundIsCorrect(peer: seq<byte>, supported: seq<byte>, failureBehavior: int, start: nat, k: nat)
    requires Passed(WireNames(supported), WireNames(peer), k) && k < |WireNames(supported)|
    requires FirstEntry(peer, 0, start, WireNames(supported)[k])
    ensures Correct(peer, supported, failureBehavior, Selected(start, |WireNames(supported)[k]|))
  {
    FirstEntryIsInside(peer, 0, start, WireNames(supported)[k]);
    assert Chosen(peer, supported, start, |WireNames(supported)[k]|, k);
  }

  lemma NotFoundIsCorrect(peer: seq<byte>, supported: seq<byte>, failureBehavior: int, r: Selection)
    requires Passed(WireNames(supported), WireNames(peer), |WireNames(supported)|)
    requires r == Unmatched(peer, supported, failureBehavior)
    ensures Correct(peer, supported, failureBehavior, r)
  {
  }

  /**
   * Where the outer walk is: inside the list, k names behind it, or past the end after a
   * cut-off entry. The index `i` counts the bytes of the names but not their length bytes.
   */
  ghost predicate Walking(peer: seq<byte>, supported: seq<byte>, i: nat, pos: nat, k: nat, last: Selection) {
    && Passed(WireNames(supported), WireNames(peer), k)
    && if pos <= |supported| then
         pos == i + k && (i < |supported| || supported == []) && At(supported, pos, k) && (supported == [] ==> last == NoAck)
       else
         && k == |WireNames(supported)| && !WellFormed(supported)
         && var cut := CutAt(supported, 0);
            var len := supported[cut] as int;
            last == MyLast(cut + 1, len) && i == cut - k + len && !HasLength(peer, 0, len)
  }

  lemma WalkingNext(peer: seq<byte>, supported: seq<byte>, i: nat, pos: nat, k: nat, last: Selection)
    requires Walking(peer, supported, i, pos, k, last) && pos < |supported|
    requires Next(supported, pos) <= |supported| ==> supported[pos + 1..Next(supported, pos)] !in WireNames(peer)
    requires Next(supported, pos) > |supported| ==> !HasLength(peer, 0, supported[pos] as int)
    ensures var len := supported[pos] as int;
            Walking(peer, supported, i + len, pos + 1 + len, if pos + 1 + len <= |supported| then k + 1 else k, MyLast(pos + 1, len))
  {
    AtNext(supported, pos, k);
  }

  /** select_next_proto */
  method SelectNextProto(peer: seq<byte>, supported: seq<byte>, failureBehavior: int) returns (r: Selection)
    ensures Correct(peer, supported, failureBehavior, r)
  {
    var i, pos := 0, 0;
    var last := NoAck;
    ghost var k := 0;
    while i < |supported|
      invariant 0 <= i && 0 <= pos && Walking(peer, supported, i, pos, k, last)
      decreases |supported| - i, |supported| - pos
    {
      if pos >= |supported| {
        NotFoundIsCorrect(peer, supported, failureBehavior, LeavesList);
        return LeavesList;
      }
      AtNext(supported, pos, k);
      var targetLen := supported[pos] as int;
      var search := FindInPeer(peer, supported, pos + 1, targetLen);
      if search.ReadsPast? {
        NotFoundIsCorrect(peer, supported, failureBehavior, LeavesList);
        return LeavesList;
      }
      if search.Found? {
        FoundIsCorrect(peer, supported, failureBehavior, search.start, k);
        return Selected(search.start, targetLen);
      }
      WalkingNext(peer, supported, i, pos, k, last);
      pos := pos + 1;
      last := MyLast(pos, targetLen);
      i := i + targetLen;
      pos := pos + targetLen;
      k := if pos <= |supported| then k + 1 else k;
    }
    r := if failureBehavior == CHOOSE_MY_LAST_PROTOCOL && last.MyLast? then last else NoAck;
    NotFoundIsCorrect(peer, supported, failureBehavior, r);
  }

  // --------------------------------------------------------- what that says of the answer

  lemma {:induction false} FirstEntryIsUnique(wire: seq<byte>, p: nat, a: nat, b: nat, name: Name)
    requires FirstEntry(wire, p, a, name) && FirstEntry(wire, p, b, name)
    ensures a == b
    decreases |wire| - p
  {
    if wire[p + 1..Next(wire, p)] != name {
      FirstEntryIsUnique(wire, Next(wire, p), a, b, name);
    }
  }

  /** The two buffers and the failure behaviour determine the answer. */
  lemma AnswerIsDetermined(peer: seq<byte>, supported: seq<byte>, failureBehavior: int, a: Selection, b: Selection)
    requires Correct(peer, supported, failureBehavior, a) && Correct(peer, supported, failureBehavior, b)
    ensures a == b
  {
    if Common(WireNames(supported), WireNames(peer)) {
      var j: nat :| Chosen(peer, supported, a.start, a.len, j);
      var k: nat :| Chosen(peer, supported, b.start, b.len, k);
      assert j == k;
      FirstEntryIsUnique(peer, 0, a.start, b.start, WireNames(supported)[k]);
    }
  }

  /** For lists the encoder can carry: a shared name is selected, and without one the walk leaves the list. */
  lemma EncodedListAnswer(names: seq<Name>, peer: seq<byte>, failureBehavior: int, r: Selection)
    requires forall k :: 0 <= k < |names| ==> |names[k]| <= 255
    requires Correct(peer, Wire(names), failureBehavior, r)
    ensures r.Selected? <==> Common(names, WireNames(peer))
    ensures r == LeavesList <==> names != [] && !Common(names, WireNames(peer))
    ensures r == NoAck <==> names == []
  {
    ShortNamesSurvive(names);
  }

  /** One configured name, another one offered: the walk leaves the list. */
  lemma OneNameNotOffered(mine: byte, other: byte, failureBehavior: int, r: Selection)
    requires mine != other && Correct(Wire([[other]]), Wire([[mine]]), failureBehavior, r)
    ensures Wire([[mine]]) == [1, mine] && r == LeavesList
  {
    ShortNamesSurvive([[other]]);
    EncodedListAnswer([[mine]], Wire([[other]]), failureBehavior, r);
    assert Wire([[mine]]) == Entry([mine]) + Wire([]);
  }

  predicate OffersLength(offered: seq<Name>, len: nat) {
    exists k :: 0 <= k < |offered| && |offered[k]| == len
  }

  lemma {:induction false} LengthIsOffered(wire: seq<byte>, p: nat, len: nat)
    ensures HasLength(wire, p, len) <==> OffersLength(NamesFrom(wire, p), len)
    decreases |wire| - p
  {
    if p < |wire| && Next(wire, p) <= |wire| {
      var names, rest := NamesFrom(wire, p), NamesFrom(wire, Next(wire, p));
      LengthIsOffered(wire, Next(wire, p), len);
      assert names == [names[0]] + rest && |names[0]| == wire[p] as int;
      assert forall k :: 0 <= k < |rest| ==> rest[k] == names[k + 1];
    }
  }

  lemma {:induction false} CutShift(front: seq<byte>, wire: seq<byte>, p: nat)
    requires p <= |wire| && !WellFormedFrom(wire, p) && !WellFormedFrom(front + wire, |front| + p)
    ensures CutAt(front + wire, |front| + p) == |front| + CutAt(wire, p)
    decreases |wire| - p
  {
    var all, at, n := front + wire, |front| + p, Next(wire, p);
    assert all[at] == wire[p] && Next(all, at) == |front| + n;
    if n <= |wire| {
      NamesShift(front, wire, n);
      CutShift(front, wire, n);
    }
  }

  /** These are the complete entries, and then there is one that is cut off. */
  ghost predicate EndsCut(wire: seq<byte>, names: seq<Name>, cut: nat) {
    !WellFormed(wire) && WireNames(wire) == names && CutAt(wire, 0) == cut
  }

  lemma PrependCut(name: Name, wire: seq<byte>, names: seq<Name>, cut: nat)
    requires |name| <= 255 && EndsCut(wire, names, cut)
    ensures EndsCut(Entry(name) + wire, [name] + names, 1 + |name| + cut)
  {
    PrependEntry(name, wire);
    var entry := Entry(name);
    var all := entry + wire;
    assert all[0] == entry[0] && Next(all, 0) == |entry| + 0 <= |all|;
    CutShift(entry, wire, 0);
  }

  /** The same with the longer list under its own name. */
  lemma PrependCutTo(name: Name, inner: seq<byte>, wire: seq<byte>, names: seq<Name>, cut: nat)
    requires names != [] && name == names[0] && |name| <= 255 && EndsCut(inner, names[1..], cut) && wire == Entry(name) + inner
    ensures EndsCut(wire, names, 1 + |name| + cut)
  {
    PrependCut(name, inner, names[1..], cut);
    assert [name] + names[1..] == names;
  }

  lemma EntryInFront(names: seq<Name>, rest: seq<byte>)
    requires names != [] && |names[0]| <= 255
    ensures Wire(names) + rest == Entry(names[0]) + (Wire(names[1..]) + rest)
    ensures |Wire(names)| == 1 + |names[0]| + |Wire(names[1..])|
  {
    Assoc(Entry(names[0]), Wire(names[1..]), rest);
  }

  lemma Assoc(a: seq<byte>, b: seq<byte>, c: seq<byte>)
    ensures a + b + c == a + (b + c)
  {
  }

  /** Complete entries in front of a cut-off one are all walked over. */
  lemma {:induction false} CutBehind(names: seq<Name>, rest: seq<byte>, cut: nat)
    requires (forall k :: 0 <= k < |names| ==> |names[k]| <= 255) && EndsCut(rest, [], cut)
    ensures EndsCut(Wire(names) + rest, names, |Wire(names)| + cut)
  {
    if names == [] {
      assert Wire(names) + rest == rest;
    } else {
      var later := names[1..];
      CutBehind(later, rest, cut);
      EntryInFront(names, rest);
      PrependCutTo(names[0], Wire(later) + rest, Wire(names) + rest, names, |Wire(later)| + cut);
    }
  }

  /**
   * A list that ends in an entry of `len` bytes cut off after `tail`. With a shared name that
   * is selected. Otherwise the walk leaves the list if the peer has a name of that length or
   * if all name bytes and `len` together are fewer than the bytes of the list; if not, the
   * fallback chooses the cut entry for failure behaviour 1 and nothing for any other.
   */
  lemma CutListAnswer(names: seq<Name>, len: byte, tail: seq<byte>, peer: seq<byte>, failureBehavior: int, r: Selection)
    requires (forall k :: 0 <= k < |names| ==> |names[k]| <= 255) && |tail| < len as int
    requires Correct(peer, Wire(names) + ([len] + tail), failureBehavior, r)
    ensures r.Selected? <==> Common(names, WireNames(peer))
    ensures !Common(names, WireNames(peer)) ==>
              r == if OffersLength(WireNames(peer), len as int) || len as int < |names| + 1 + |tail| then LeavesList
                   else if failureBehavior == 1 then MyLast(|Wire(names)| + 1, len as int)
                   else NoAck
  {
    var rest := [len] + tail;
    assert Next(rest, 0) > |rest| && !WellFormedFrom(rest, Next(rest, 0));
    CutBehind(names, rest, 0);
    LengthIsOffered(peer, 0, len as int);
  }
}
