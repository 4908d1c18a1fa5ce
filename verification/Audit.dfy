/** The digest-linked audit chain over an append-only, key-ordered bucket. */
module Audit {
  import opened Text
  import opened Contract

  const MAX_FIELD: nat := 128
  const KEY_WIDTH: nat := 20
  const MAX_UINT64: nat := 0xFFFF_FFFF_FFFF_FFFF

  /** An aggregate is named outright or by a prefix and a SHA-256 of its ID. */
  datatype AggregateID = Named(text: string) | Hashed(prefix: string, preimage: string)

  datatype Fields = Fields(
    schema: Schema, eventID: string, aggregateType: string, aggregateID: AggregateID, actor: string,
    action: string, result: string, reason: string, occurredAt: Time)

  /** SHA-256 of the canonical document, idealised as injective: a digest is
      its preimage. `NoDigest` is the empty string that opens the chain. */
  datatype Digest = NoDigest | Sha256(fields: Fields, previous: Digest)

  datatype Event = Event(fields: Fields, previous: Digest, digest: Digest)

  type Bucket = map<string, Event>

  datatype ChainState = ChainState(nextIndex: nat, previous: Digest)

  datatype Error = ChainInvalid | ChainCapacity | InvalidEvent | AppendOnly

  /* ---- Fields and keys ---- */

  predicate IsAuditChar(c: char) {
    'a' <= c <= 'z' || 'A' <= c <= 'Z' || '0' <= c <= '9' || c in "._-:/@"
  }

  predicate ValidField(value: string) {
    0 < |value| <= MAX_FIELD && forall i :: 0 <= i < |value| ==> IsAuditChar(value[i])
  }

  predicate ValidFields(f: Fields) {
    && f.schema == V1
    && f.occurredAt != ZERO_TIME
    && ValidField(f.eventID)
    && ValidField(f.aggregateType)
    && (f.aggregateID.Named? ==> ValidField(f.aggregateID.text))
    && ValidField(f.actor)
    && ValidField(f.action)
    && ValidField(f.result)
    && ValidField(f.reason)
  }

  /** `%020d`; every unsigned 64-bit index fits in twenty digits. */
  function EventKey(index: nat): string
    requires index <= MAX_UINT64
  {
    Padded(index, KEY_WIDTH)
  }

  lemma IndexFits(index: nat)
    requires index <= MAX_UINT64
    ensures index < Pow10(KEY_WIDTH)
  {
    assert Pow10(10) == 10_000_000_000;
    Pow10Add(10, 10);
  }

  lemma {:induction false} Pow10Add(a: nat, b: nat)
    ensures Pow10(a + b) == Pow10(a) * Pow10(b)
  {
    if a > 0 {
      Pow10Add(a - 1, b);
    }
  }

  lemma EventKeyOrder(a: nat, b: nat)
    requires a <= MAX_UINT64 && b <= MAX_UINT64
    ensures Less(EventKey(a), EventKey(b)) <==> a < b
    ensures EventKey(a) == EventKey(b) ==> a == b
  {
    IndexFits(a);
    IndexFits(b);
    PaddedOrder(a, b, KEY_WIDTH);
    PaddedOrder(b, a, KEY_WIDTH);
    LessIrreflexive(EventKey(a));
  }

  /* ---- Reading the chain ---- */

  /** A stored event carries the digest of its own canonical document. */
  predicate ValidStored(e: Event) {
    ValidFields(e.fields) && e.digest == Sha256(e.fields, e.previous)
  }

  function ReadFrom(b: Bucket, keys: seq<string>, state: ChainState, seen: set<string>): Result<ChainState, Error>
    requires forall k :: k in keys ==> k in b
    requires state.nextIndex <= MAX_UINT64
  {
    if keys == [] then Ok(state)
    else if keys[0] != EventKey(state.nextIndex) then Err(ChainInvalid)
    else
      var e := b[keys[0]];
      if !ValidStored(e) || e.previous != state.previous || e.fields.eventID in seen then Err(ChainInvalid)
      else if state.nextIndex == MAX_UINT64 then Err(ChainCapacity)
      else ReadFrom(b, keys[1..], ChainState(state.nextIndex + 1, e.digest), seen + {e.fields.eventID})
  }

  function ReadChain(b: Bucket): Result<ChainState, Error> {
    ReadFrom(b, SortedKeys(b.Keys), ChainState(0, NoDigest), {})
  }

  /* ---- What a chain is ---- */

  function LastDigest(events: seq<Event>): Digest {
    if events == [] then NoDigest else events[|events| - 1].digest
  }

  /** Self-digested events, each linked to the one before, with distinct IDs. */
  predicate Linked(events: seq<Event>) {
    events == [] ||
    var init, last := events[..|events| - 1], events[|events| - 1];
    && Linked(init)
    && ValidFields(last.fields)
    && last.digest == Sha256(last.fields, last.previous)
    && last.previous == LastDigest(init)
    && last.fields.eventID !in EventIDs(init)
  }

  /** The bucket holds exactly `events`, each under its index key. */
  ghost predicate IsChain(b: Bucket, events: seq<Event>) {
    && |events| <= MAX_UINT64
    && Linked(events)
    && (forall i :: 0 <= i < |events| ==> EventKey(i) in b && b[EventKey(i)] == events[i])
    && (forall k :: k in b ==> exists i :: 0 <= i < |events| && k == EventKey(i))
  }

  ghost predicate HoldsChain(b: Bucket) {
    exists events :: IsChain(b, events)
  }

  function EventIDs(events: seq<Event>): set<string> {
    set e | e in events :: e.fields.eventID
  }

  ghost function IndexKeys(n: nat): seq<string>
    requires n <= MAX_UINT64
  {
    seq(n, i requires 0 <= i < n => EventKey(i))
  }

  lemma IndexKeysSorted(n: nat)
    requires n <= MAX_UINT64
    ensures IsSorted(IndexKeys(n))
  {
    var keys := IndexKeys(n);
    forall i, j | 0 <= i < j < |keys| ensures Less(keys[i], keys[j]) {
      EventKeyOrder(i, j);
    }
  }

  /** Byte order is index order, so iteration yields the events in sequence. */
  lemma ChainKeys(b: Bucket, events: seq<Event>)
    requires IsChain(b, events)
    ensures SortedKeys(b.Keys) == IndexKeys(|events|)
  {
    hide EventKey, Linked, Less;
    var keys, indexed := SortedKeys(b.Keys), IndexKeys(|events|);
    IndexKeysSorted(|events|);
    forall k ensures k in keys <==> k in indexed {
      if k in keys {
        var i :| 0 <= i < |events| && k == EventKey(i);
        assert indexed[i] == k;
      }
      if k in indexed {
        var i :| 0 <= i < |indexed| && indexed[i] == k;
        assert EventKey(i) in b;
      }
    }
    SortedUnique(keys, indexed);
  }

  lemma {:induction false} LinkedPrefix(events: seq<Event>, n: nat)
    requires Linked(events) && n <= |events|
    ensures Linked(events[..n])
  {
    if n < |events| {
      LinkedPrefix(events[..|events| - 1], n);
      assert events[..|events| - 1][..n] == events[..n];
    } else {
      assert events[..n] == events;
    }
  }

  lemma {:induction false} LinkedSnoc(events: seq<Event>, e: Event)
    ensures Linked(events + [e])
       <==> Linked(events) && ValidStored(e) && e.previous == LastDigest(events)
            && e.fields.eventID !in EventIDs(events)
  {
    assert (events + [e])[..|events|] == events;
  }

  /** `keys` name the events that may follow `read`, and nothing else. */
  predicate Follows(b: Bucket, keys: seq<string>, read: seq<Event>)
    requires forall k :: k in keys ==> k in b
    decreases |keys|
  {
    keys == [] ||
    (&& |read| < MAX_UINT64
     && keys[0] == EventKey(|read|)
     && Linked(read + [b[keys[0]]])
     && Follows(b, keys[1..], read + [b[keys[0]]]))
  }

  /** The events read once `keys` have been visited after `read`. */
  function Extended(b: Bucket, keys: seq<string>, read: seq<Event>): seq<Event>
    requires forall k :: k in keys ==> k in b
    decreases |keys|
  {
    if keys == [] then read else Extended(b, keys[1..], read + [b[keys[0]]])
  }

  lemma EventIDsSnoc(events: seq<Event>, e: Event)
    ensures EventIDs(events + [e]) == EventIDs(events) + {e.fields.eventID}
  {
    assert forall x :: x in events + [e] <==> x in events || x == e;
  }

  /** The running state of the scan summarises the events read so far. */
  lemma {:induction false} ScanFollows(b: Bucket, keys: seq<string>, read: seq<Event>)
    requires forall k :: k in keys ==> k in b
    requires Linked(read) && |read| <= MAX_UINT64
    ensures var r := ReadFrom(b, keys, ChainState(|read|, LastDigest(read)), EventIDs(read));
            var all := Extended(b, keys, read);
            && (r.Ok? <==> Follows(b, keys, read))
            && (r.Ok? ==> r.value == ChainState(|all|, LastDigest(all)))
    decreases |keys|
  {
    if keys != [] {
      var e := b[keys[0]];
      LinkedSnoc(read, e);
      EventIDsSnoc(read, e);
      if |read| < MAX_UINT64 && keys[0] == EventKey(|read|) && Linked(read + [e]) {
        ScanFollows(b, keys[1..], read + [e]);
      }
    }
  }

  lemma {:induction false} FollowsIsIndexed(b: Bucket, keys: seq<string>, read: seq<Event>)
    requires forall k :: k in keys ==> k in b
    requires Linked(read) && |read| <= MAX_UINT64 && Follows(b, keys, read)
    ensures var all := Extended(b, keys, read);
            && |all| == |read| + |keys| <= MAX_UINT64
            && Linked(all)
            && read <= all
            && forall i :: |read| <= i < |all| ==> keys[i - |read|] == EventKey(i) && all[i] == b[EventKey(i)]
    decreases |keys|
  {
    hide EventKey, ValidStored, EventIDs;
    if keys != [] {
      var next := read + [b[keys[0]]];
      FollowsIsIndexed(b, keys[1..], next);
      var all := Extended(b, keys, read);
      forall i | |read| <= i < |all| ensures keys[i - |read|] == EventKey(i) && all[i] == b[EventKey(i)] {
        if i > |read| {
          assert keys[i - |read|] == keys[1..][i - |next|];
        } else {
          assert all[i] == next[i];
        }
      }
    }
  }

  lemma {:induction false} ChainFollows(b: Bucket, events: seq<Event>, n: nat)
    requires IsChain(b, events) && n <= |events|
    requires forall k :: k in IndexKeys(|events|)[n..] ==> k in b
    ensures Follows(b, IndexKeys(|events|)[n..], events[..n])
    ensures Extended(b, IndexKeys(|events|)[n..], events[..n]) == events
    decreases |events| - n
  {
    hide EventKey, ValidStored, EventIDs;
    var keys := IndexKeys(|events|);
    if n == |events| {
      assert events[..n] == events;
    } else {
      assert keys[n..][0] == EventKey(n) && keys[n..][1..] == keys[n + 1..];
      assert events[..n] + [events[n]] == events[..n + 1];
      LinkedPrefix(events, n + 1);
      ChainFollows(b, events, n + 1);
    }
  }

  lemma EmptyChain()
    ensures Linked([]) && EventIDs([]) == {} && LastDigest([]) == NoDigest
  {
  }

  lemma ChainReads(b: Bucket, events: seq<Event>)
    requires IsChain(b, events)
    ensures ReadChain(b) == Ok(ChainState(|events|, LastDigest(events)))
  {
    ChainKeys(b, events);
    var keys := IndexKeys(|events|);
    assert keys[0..] == keys && events[..0] == [];
    ChainFollows(b, events, 0);
    EmptyChain();
    ScanFollows(b, keys, []);
  }

  lemma ReadIsChain(b: Bucket)
    requires ReadChain(b).Ok?
    ensures HoldsChain(b)
  {
    var keys := SortedKeys(b.Keys);
    EmptyChain();
    hide EventKey, Linked, IsSorted, SortedKeys, EventIDs;
    ScanFollows(b, keys, []);
    FollowsIsIndexed(b, keys, []);
    var events := Extended(b, keys, []);
    forall i | 0 <= i < |events| ensures EventKey(i) in b && b[EventKey(i)] == events[i] {
      assert keys[i] in b;
    }
    forall k | k in b ensures exists i :: 0 <= i < |events| && k == EventKey(i) {
      var i :| 0 <= i < |keys| && keys[i] == k;
      assert keys[i - 0] == EventKey(i);
    }
    assert IsChain(b, events);
  }

  /** `ReadChain` accepts a bucket exactly when it is a chain, and then reports
      its length and last digest. */
  lemma ReadChainIff(b: Bucket)
    ensures ReadChain(b).Ok? <==> HoldsChain(b)
    ensures forall events :: IsChain(b, events) ==> ReadChain(b) == Ok(ChainState(|events|, LastDigest(events)))
  {
    forall events | IsChain(b, events) ensures ReadChain(b) == Ok(ChainState(|events|, LastDigest(events))) {
      ChainReads(b, events);
    }
    if ReadChain(b).Ok? { ReadIsChain(b); }
  }

  /* ---- Appending ---- */

  /** `Append` with its mutation already applied to the other buckets. */
  function Appended(b: Bucket, event: Event): Result<Bucket, Error> {
    match ReadChain(b)
    case Err(e) => Err(e)
    case Ok(state) =>
      if event.previous != NoDigest || event.digest != NoDigest || !ValidFields(event.fields) then Err(InvalidEvent)
      else if state.nextIndex >= MAX_UINT64 then Err(ChainCapacity)
      else
        var key := EventKey(state.nextIndex);
        if key in b then Err(AppendOnly)
        else Ok(b[key := Event(event.fields, state.previous, Sha256(event.fields, state.previous))])
  }

  predicate Fresh(event: Event) {
    event.previous == NoDigest && event.digest == NoDigest && ValidFields(event.fields)
  }

  /** The event `Appended` stores at the end of `events`. */
  function Sealed(events: seq<Event>, event: Event): Event {
    Event(event.fields, LastDigest(events), Sha256(event.fields, LastDigest(events)))
  }

  /** The next index key is never taken. */
  lemma NextKeyAbsent(b: Bucket, events: seq<Event>)
    requires IsChain(b, events) && |events| < MAX_UINT64
    ensures EventKey(|events|) !in b
  {
    if EventKey(|events|) in b {
      var i :| 0 <= i < |events| && EventKey(|events|) == EventKey(i);
      EventKeyOrder(i, |events|);
    }
  }

  /** The bucket once `e` is stored after `events`. */
  function Stored(b: Bucket, events: seq<Event>, e: Event): Bucket
    requires |events| <= MAX_UINT64
  {
    b[EventKey(|events|) := e]
  }

  lemma StoredIndexed(b: Bucket, events: seq<Event>, e: Event)
    requires IsChain(b, events) && |events| < MAX_UINT64
    ensures var all := events + [e];
            && (forall i :: 0 <= i < |all| ==>
                  EventKey(i) in Stored(b, events, e) && Stored(b, events, e)[EventKey(i)] == all[i])
            && (forall k :: k in Stored(b, events, e) ==> exists i :: 0 <= i < |all| && k == EventKey(i))
  {
    hide EventKey, Linked;
    var n, all := |events|, events + [e];
    forall i | 0 <= i < |all| ensures EventKey(i) in Stored(b, events, e)
        && Stored(b, events, e)[EventKey(i)] == all[i] {
      if i < n { EventKeyOrder(i, n); }
    }
    forall k | k in Stored(b, events, e) ensures exists i :: 0 <= i < |all| && k == EventKey(i) {
      if k == EventKey(n) {
        assert 0 <= n < |all|;
      } else {
        var i :| 0 <= i < n && k == EventKey(i);
        assert 0 <= i < |all|;
      }
    }
  }

  lemma StoredIsChainIff(b: Bucket, events: seq<Event>, e: Event)
    requires IsChain(b, events) && |events| < MAX_UINT64
    requires ValidStored(e) && e.previous == LastDigest(events)
    ensures HoldsChain(Stored(b, events, e)) <==> e.fields.eventID !in EventIDs(events)
    ensures e.fields.eventID !in EventIDs(events) ==> IsChain(Stored(b, events, e), events + [e])
  {
    hide EventKey, EventIDs, ValidStored;
    StoredIndexed(b, events, e);
    LinkedSnoc(events, e);
    if e.fields.eventID !in EventIDs(events) {
      assert IsChain(Stored(b, events, e), events + [e]);
    }
    if HoldsChain(Stored(b, events, e)) {
      var any :| IsChain(Stored(b, events, e), any);
      SameBucketSameChain(Stored(b, events, e), any, events + [e]);
    }
  }

  /** An append succeeds exactly when the chain can be read and has room and the event
      is well formed; the refusal of a taken key cannot happen. */
  lemma AppendedIff(b: Bucket, event: Event)
    ensures Appended(b, event).Ok? <==>
            && ReadChain(b).Ok? && ReadChain(b).value.nextIndex < MAX_UINT64
            && event.previous == NoDigest && event.digest == NoDigest && ValidFields(event.fields)
  {
    hide ReadChain, EventKey, ValidFields, IsChain;
    if ReadChain(b).Ok? {
      ReadChainIff(b);
      var events :| IsChain(b, events);
      ChainFits(b, events);
      if |events| < MAX_UINT64 { NextKeyAbsent(b, events); }
    }
  }

  lemma ChainFits(b: Bucket, events: seq<Event>)
    requires IsChain(b, events)
    ensures |events| <= MAX_UINT64
  {
  }

  /** An append to a chain succeeds, keeps every old event in place, and leaves a
      chain exactly when the new event ID was unused: a reused ID is accepted
      now and makes every later read fail. */
  lemma AppendExtends(b: Bucket, events: seq<Event>, event: Event)
    requires IsChain(b, events) && |events| < MAX_UINT64 && Fresh(event)
    ensures var e := Sealed(events, event);
            && EventKey(|events|) !in b
            && Appended(b, event) == Ok(Stored(b, events, e))
            && (ReadChain(Stored(b, events, e)).Ok? <==> event.fields.eventID !in EventIDs(events))
            && (event.fields.eventID !in EventIDs(events) ==> IsChain(Stored(b, events, e), events + [e]))
  {
    ChainReads(b, events);
    NextKeyAbsent(b, events);
    var e := Sealed(events, event);
    hide EventKey, ReadChain, EventIDs, Linked;
    StoredIsChainIff(b, events, e);
    ReadChainIff(Stored(b, events, e));
  }

  const SAMPLE := Event(Fields(V1, "e", "t", Named("g"), "s", "a", "r", "c", SECOND), NoDigest, NoDigest)

  lemma SampleFresh()
    ensures Fresh(SAMPLE)
  {
    assert ValidField("e") && ValidField("t") && ValidField("g") && ValidField("s");
    assert ValidField("a") && ValidField("r") && ValidField("c");
  }

  /** One event appended twice: both appends succeed, the first leaves a chain, and
      after the second nothing can be read or appended any more. */
  lemma ReusedIDUnreadable()
    ensures var once := Appended(map[], SAMPLE);
            && once.Ok? && ReadChain(once.value).Ok?
            && var twice := Appended(once.value, SAMPLE);
            && twice.Ok? && ReadChain(twice.value).Err?
            && forall next :: Appended(twice.value, next).Err?
  {
    SampleFresh();
    EmptyChain();
    assert IsChain(map[], []);
    AppendExtends(map[], [], SAMPLE);
    hide EventKey, ReadChain, IsChain, Fresh;
    var e := Sealed([], SAMPLE);
    var b := Stored(map[], [], e);
    assert [] + [e] == [e];
    AppendExtends(b, [e], SAMPLE);
    assert e in [e] && e.fields.eventID in EventIDs([e]);
  }

  /** A bucket can be read as a sequence in one way only. */
  lemma SameBucketSameChain(b: Bucket, chain: seq<Event>, all: seq<Event>)
    requires IsChain(b, chain)
    requires |all| <= MAX_UINT64
    requires forall i :: 0 <= i < |all| ==> EventKey(i) in b && b[EventKey(i)] == all[i]
    requires forall k :: k in b ==> exists i :: 0 <= i < |all| && k == EventKey(i)
    ensures chain == all
  {
    if |chain| < |all| { NextKeyAbsent(b, chain); }
  }

  /* ---- Tamper evidence ---- */

  /** The last digest determines the whole history: two chains that end in the
      same digest are event for event the same. */
  lemma {:induction false} DigestDeterminesEvents(a: seq<Event>, b: seq<Event>)
    requires Linked(a) && Linked(b)
    requires LastDigest(a) == LastDigest(b)
    ensures a == b
    decreases |a|
  {
    if a != [] {
      var m, n := |a| - 1, |b| - 1;
      DigestDeterminesEvents(a[..m], b[..n]);
      assert a == a[..m] + [a[m]] && b == b[..n] + [b[n]];
    }
  }

  lemma SameChainSameBucket(a: Bucket, b: Bucket, events: seq<Event>)
    requires IsChain(a, events) && IsChain(b, events)
    ensures a == b
  {
    assert forall k :: k in a <==> k in b;
  }

  /** So no modification, deletion, insertion or reordering of a stored chain
      survives a read that still reports the same last digest. */
  lemma TamperEvident(before: Bucket, after: Bucket)
    requires ReadChain(before).Ok? && ReadChain(after).Ok?
    requires ReadChain(before).value.previous == ReadChain(after).value.previous
    ensures before == after
  {
    ReadChainIff(before);
    ReadChainIff(after);
    var a :| IsChain(before, a);
    var b :| IsChain(after, b);
    DigestDeterminesEvents(a, b);
    SameChainSameBucket(before, after, a);
  }

  /* ---- The loops ---- */

  method CheckField(value: string) returns (ok: bool)
    ensures ok <==> ValidField(value)
  {
    if value == "" || |value| > MAX_FIELD {
      return false;
    }
    for i := 0 to |value|
      invariant forall k :: 0 <= k < i ==> IsAuditChar(value[k])
    {
      var c := value[i];
      if !('a' <= c <= 'z') && !('A' <= c <= 'Z') && !('0' <= c <= '9') && c !in "._-:/@" {
        return false;
      }
    }
    ok := true;
  }

  /** A hashed aggregate is a prefix and hexadecimal digits, which are in the class. */
  method CheckFields(f: Fields) returns (ok: bool)
    ensures ok <==> ValidFields(f)
  {
    hide ValidField;
    if f.schema != V1 || f.occurredAt == ZERO_TIME {
      return false;
    }
    var values := [f.eventID, f.aggregateType, f.actor, f.action, f.result, f.reason]
      + if f.aggregateID.Named? then [f.aggregateID.text] else [];
    for i := 0 to |values|
      invariant forall k :: 0 <= k < i ==> ValidField(values[k])
    {
      var fits := CheckField(values[i]);
      if !fits {
        assert values[i] in values && !ValidFields(f);
        return false;
      }
    }
    assert values[0] == f.eventID && values[1] == f.aggregateType && values[2] == f.actor && values[3] == f.action;
    assert values[4] == f.result && values[5] == f.reason;
    assert f.aggregateID.Named? ==> values[6] == f.aggregateID.text;
    ok := true;
  }

  method ScanChain(b: Bucket) returns (r: Result<ChainState, Error>)
    ensures r == ReadChain(b)
    ensures r.Ok? <==> HoldsChain(b)
  {
    hide EventKey, IsSorted, SortedKeys, HoldsChain, ValidFields;
    ReadChainIff(b);
    var keys := SortedKeys(b.Keys);
    var state := ChainState(0, NoDigest);
    var seen: set<string> := {};
    assert keys[0..] == keys;
    for i := 0 to |keys|
      invariant state.nextIndex <= MAX_UINT64
      invariant ReadChain(b) == ReadFrom(b, keys[i..], state, seen)
    {
      assert keys[i..][0] == keys[i] && keys[i..][1..] == keys[i + 1..];
      if keys[i] != EventKey(state.nextIndex) {
        return Err(ChainInvalid);
      }
      var e := b[keys[i]];
      var fits := CheckFields(e.fields);
      if !fits || e.digest != Sha256(e.fields, e.previous) {
        return Err(ChainInvalid);
      }
      if e.previous != state.previous || e.fields.eventID in seen {
        return Err(ChainInvalid);
      }
      seen := seen + {e.fields.eventID};
      if state.nextIndex == MAX_UINT64 {
        return Err(ChainCapacity);
      }
      state := ChainState(state.nextIndex + 1, e.digest);
    }
    r := Ok(state);
  }

  /** The append-only bucket: events are added at the next index and never
      replaced or removed. */
  class AuditLog {
    var events: Bucket

    constructor ()
      ensures events == map[]
    {
      events := map[];
    }

    method Append(event: Event) returns (r: Result<Event, Error>)
      modifies this
      ensures r.Err? ==> events == old(events) && Appended(old(events), event) == Err(r.error)
      ensures r.Ok? ==> Appended(old(events), event) == Ok(events)
      ensures forall k :: k in old(events) ==> k in events && events[k] == old(events)[k]
    {
      var chain := ScanChain(events);
      if chain.Err? {
        return Err(chain.error);
      }
      if event.previous != NoDigest || event.digest != NoDigest {
        return Err(InvalidEvent);
      }
      var fits := CheckFields(event.fields);
      if !fits {
        return Err(InvalidEvent);
      }
      if chain.value.nextIndex >= MAX_UINT64 {
        return Err(ChainCapacity);
      }
      var stored := Event(event.fields, chain.value.previous, Sha256(event.fields, chain.value.previous));
      var key := EventKey(chain.value.nextIndex);
      if key in events {
        return Err(AppendOnly);
      }
      events := events[key := stored];
      r := Ok(stored);
    }
  }
}
