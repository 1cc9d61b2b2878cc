/**
 * Session-ticket keys: the record of SessionTicketKey.java, its serialized form, the parser
 * of setSessionTicketKeys0 and the lookup of sslcontext.c.
 */
module TicketKeys {
  import opened Bytes

  const NAME_SIZE := 16
  const HMAC_KEY_SIZE := 16
  const AES_KEY_SIZE := 16
  const TICKET_KEY_SIZE := 48

  datatype KeyRecord = KeyRecord(name: seq<byte>, hmac: seq<byte>, aes: seq<byte>)

  predicate SizesOk(k: KeyRecord) {
    |k.name| == NAME_SIZE && |k.hmac| == HMAC_KEY_SIZE && |k.aes| == AES_KEY_SIZE
  }

  /** What the constructor of SessionTicketKey accepts; it throws for every other record. */
  type TicketKey = k: KeyRecord | SizesOk(k)
    witness KeyRecord(seq(16, _ => 0), seq(16, _ => 0), seq(16, _ => 0))

  // --------------------------------------------------------------------- serialization

  function Encode(k: TicketKey): (b: seq<byte>)
    ensures |b| == TICKET_KEY_SIZE
  {
    k.name + k.hmac + k.aes
  }

  function Flat(keys: seq<TicketKey>): (b: seq<byte>)
    ensures |b| == TICKET_KEY_SIZE * |keys|
  {
    if keys == [] then [] else Flat(keys[..|keys| - 1]) + Encode(keys[|keys| - 1])
  }

  lemma {:induction false} FlatSlice(keys: seq<TicketKey>, i: nat)
    requires i < |keys|
    ensures Flat(keys)[TICKET_KEY_SIZE * i..TICKET_KEY_SIZE * i + TICKET_KEY_SIZE] == Encode(keys[i])
  {
    var n := |keys| - 1;
    if i < n {
      FlatSlice(keys[..n], i);
      assert Flat(keys)[TICKET_KEY_SIZE * i..TICKET_KEY_SIZE * i + TICKET_KEY_SIZE]
          == Flat(keys[..n])[TICKET_KEY_SIZE * i..TICKET_KEY_SIZE * i + TICKET_KEY_SIZE];
    }
  }

  /** Record i of some bytes holds this key: its name, its HMAC key and its AES key, 16 bytes each. */
  ghost predicate HoldsAt(bytes: seq<byte>, i: nat, key: TicketKey) {
    && 48 * i + 48 <= |bytes|
    && bytes[48 * i..48 * i + 16] == key.name
    && bytes[48 * i + 16..48 * i + 32] == key.hmac
    && bytes[48 * i + 32..48 * i + 48] == key.aes
  }

  lemma RecordIsKey(bytes: seq<byte>, i: nat, key: TicketKey)
    requires 48 * i + 48 <= |bytes|
    ensures bytes[48 * i..48 * i + 48] == Encode(key) <==> HoldsAt(bytes, i, key)
  {
    var at := 48 * i;
    var piece := bytes[at..at + 48];
    SliceOfSlice(bytes, at, at + 48, 0, 16);
    SliceOfSlice(bytes, at, at + 48, 16, 32);
    SliceOfSlice(bytes, at, at + 48, 32, 48);
    assert piece == piece[0..16] + piece[16..32] + piece[32..48];
    assert Encode(key)[0..16] == key.name && Encode(key)[16..32] == key.hmac && Encode(key)[32..48] == key.aes;
  }

  lemma SliceOfSlice(b: seq<byte>, lo: nat, hi: nat, x: nat, y: nat)
    requires x <= y <= hi - lo && hi <= |b|
    ensures b[lo..hi][x..y] == b[lo + x..lo + y]
  {
    forall k | 0 <= k < y - x
      ensures b[lo..hi][x..y][k] == b[lo + x..lo + y][k]
    {
      assert b[lo..hi][x + k] == b[lo + x + k];
    }
  }

  lemma EncodeIsInjective(a: TicketKey, b: TicketKey)
    requires Encode(a) == Encode(b)
    ensures a == b
  {
    assert a.name == Encode(a)[..16] && a.hmac == Encode(a)[16..32] && a.aes == Encode(a)[32..];
    assert b.name == Encode(b)[..16] && b.hmac == Encode(b)[16..32] && b.aes == Encode(b)[32..];
  }

  /** The key whose 48 bytes these are. */
  function Decode(b: seq<byte>): (k: TicketKey)
    requires |b| == TICKET_KEY_SIZE
    ensures Encode(k) == b
  {
    KeyRecord(b[..16], b[16..32], b[32..])
  }

  /** setSessionTicketKeys: `None` is the IllegalArgumentException for an empty list. */
  method Serialize(keys: seq<TicketKey>) returns (r: Option<array<byte>>)
    ensures r.Some? <==> keys != []
    ensures r.Some? ==> fresh(r.value) && r.value[..] == Flat(keys)
    ensures r.Some? ==> r.value.Length == 48 * |keys| && forall i :: 0 <= i < |keys| ==> HoldsAt(r.value[..], i, keys[i])
  {
    if |keys| == 0 {
      return None;
    }
    var binaryKeys := new byte[|keys| * TICKET_KEY_SIZE](_ => 0);
    for i := 0 to |keys|
      invariant binaryKeys[..TICKET_KEY_SIZE * i] == Flat(keys[..i])
    {
      SerializeOne(binaryKeys, TICKET_KEY_SIZE * i, keys[i]);
      assert keys[..i + 1][..i] == keys[..i];
      assert binaryKeys[..TICKET_KEY_SIZE * (i + 1)]
          == binaryKeys[..TICKET_KEY_SIZE * i] + binaryKeys[TICKET_KEY_SIZE * i..TICKET_KEY_SIZE * i + TICKET_KEY_SIZE];
    }
    assert keys[..|keys|] == keys && binaryKeys[..TICKET_KEY_SIZE * |keys|] == binaryKeys[..];
    forall i | 0 <= i < |keys|
      ensures HoldsAt(binaryKeys[..], i, keys[i])
    {
      FlatSlice(keys, i);
      RecordIsKey(binaryKeys[..], i, keys[i]);
    }
    return Some(binaryKeys);
  }

  method SerializeOne(dst: array<byte>, at: nat, key: TicketKey)
    requires at + TICKET_KEY_SIZE <= dst.Length
    modifies dst
    ensures dst[..at] == old(dst[..at]) && dst[at..at + TICKET_KEY_SIZE] == Encode(key)
  {
    var was := dst[..];
    var dstCurPos := at;
    CopyInto(dst, dstCurPos, key.name);
    dstCurPos := dstCurPos + NAME_SIZE;
    CopyInto(dst, dstCurPos, key.hmac);
    OverwriteTwice(was, at, key.name, key.hmac);
    dstCurPos := dstCurPos + HMAC_KEY_SIZE;
    CopyInto(dst, dstCurPos, key.aes);
    OverwriteTwice(was, at, key.name + key.hmac, key.aes);
    assert dst[..] == Overwrite(was, at, Encode(key));
  }

  /** `keys` are the whole records of `bytes`; a shorter piece at the end is dropped. */
  ghost predicate ParsedFrom(bytes: seq<byte>, keys: seq<TicketKey>) {
    && |keys| == |bytes| / TICKET_KEY_SIZE
    && forall i :: 0 <= i < |keys| ==>
         Encode(keys[i]) == bytes[TICKET_KEY_SIZE * i..TICKET_KEY_SIZE * i + TICKET_KEY_SIZE]
  }

  /** The parser in setSessionTicketKeys0. */
  method Parse(bytes: seq<byte>) returns (ticketKeys: seq<TicketKey>)
    ensures ParsedFrom(bytes, ticketKeys)
    ensures |ticketKeys| == |bytes| / 48 && forall i :: 0 <= i < |ticketKeys| ==> HoldsAt(bytes, i, ticketKeys[i])
  {
    var cnt := |bytes| / TICKET_KEY_SIZE;
    ticketKeys := [];
    for i := 0 to cnt
      invariant |ticketKeys| == i
      invariant forall j :: 0 <= j < i ==> HoldsAt(bytes, j, ticketKeys[j])
    {
      var at := TICKET_KEY_SIZE * i;
      assert at + TICKET_KEY_SIZE <= TICKET_KEY_SIZE * cnt;
      var key := KeyRecord(bytes[at..at + 16], bytes[at + 16..at + 32], bytes[at + 32..at + 48]);
      ticketKeys := ticketKeys + [key];
    }
    forall i | 0 <= i < cnt
      ensures Encode(ticketKeys[i]) == bytes[TICKET_KEY_SIZE * i..TICKET_KEY_SIZE * i + TICKET_KEY_SIZE]
    {
      assert HoldsAt(bytes, i, ticketKeys[i]);
      RecordIsKey(bytes, i, ticketKeys[i]);
    }
  }

  /** What the parser makes of the serialized bytes is the list that was serialized. */
  lemma KeysRoundTrip(keys: seq<TicketKey>, parsed: seq<TicketKey>)
    ensures ParsedFrom(Flat(keys), parsed) <==> parsed == keys
  {
    if ParsedFrom(Flat(keys), parsed) {
      forall i | 0 <= i < |keys|
        ensures parsed[i] == keys[i]
      {
        FlatSlice(keys, i);
        EncodeIsInjective(parsed[i], keys[i]);
      }
    }
    if parsed == keys {
      forall i | 0 <= i < |keys|
        ensures Encode(keys[i]) == Flat(keys)[TICKET_KEY_SIZE * i..TICKET_KEY_SIZE * i + TICKET_KEY_SIZE]
      {
        FlatSlice(keys, i);
      }
    }
  }

  // ---------------------------------------------------------------------------- lookup

  /** What the ticket callback asks for: the key to issue with, or the key of a presented name. */
  datatype Query = Issue | Resume(name: seq<byte>)

  datatype Hit = Hit(key: TicketKey, current: bool)

  predicate Matches(q: Query, k: TicketKey) {
    q.Issue? || k.name == q.name
  }

  /** The answer is the earliest matching key, current exactly when it is the first of the list. */
  ghost predicate Answers(keys: seq<TicketKey>, q: Query, found: Option<Hit>) {
    match found
    case None => forall i :: 0 <= i < |keys| ==> !Matches(q, keys[i])
    case Some(hit) => exists i: nat :: AnswersAt(keys, q, hit, i)
  }

  ghost predicate AnswersAt(keys: seq<TicketKey>, q: Query, hit: Hit, i: nat) {
    && i < |keys| && keys[i] == hit.key && Matches(q, keys[i]) && hit.current == (i == 0)
    && forall j :: 0 <= j < i ==> !Matches(q, keys[j])
  }

  lemma AnswerIsUnique(keys: seq<TicketKey>, q: Query, a: Option<Hit>, b: Option<Hit>)
    requires Answers(keys, q, a) && Answers(keys, q, b)
    ensures a == b
  {
  }

  /** find_session_key, and current_session_key, on a list nobody else touches. */
  method FindSessionKey(keys: seq<TicketKey>, q: Query) returns (found: Option<Hit>)
    ensures Answers(keys, q, found)
  {
    for i := 0 to |keys|
      invariant forall j :: 0 <= j < i ==> !Matches(q, keys[j])
    {
      if Matches(q, keys[i]) {
        assert AnswersAt(keys, q, Hit(keys[i], i == 0), i);
        return Some(Hit(keys[i], i == 0));
      }
    }
    return None;
  }
}
