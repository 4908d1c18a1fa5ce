/** Alert ingress: replay receipts, and how often one signed webhook can be accepted. */
module Ingress {
  import opened Text
  import opened Contract
  import W = Webhook

  const TOLERANCE: int := 300 * SECOND
  const MAX_BODY: nat := 64 * 1024

  /** The least retention under which an id and timestamp is accepted only once. */
  const SAFE_RETENTION: int := 601 * SECOND

  /** Webhook id to the time its receipt expires. */
  type Receipts = map<string, Time>

  datatype Error = InvalidAlert | Replay

  datatype Config = Config(secrets: seq<W.Secret>, retention: int, maxBody: nat)

  predicate ValidConfig(c: Config) {
    c.secrets != [] && c.retention >= 60 * SECOND && 1 <= c.maxBody <= MAX_BODY
  }

  /* ---- The receipt transaction ---- */

  predicate Readable(receipts: Receipts) {
    forall id :: id in receipts ==> receipts[id] != ZERO_TIME
  }

  function Live(receipts: Receipts, now: Time): Receipts {
    map id | id in receipts && receipts[id] > now :: receipts[id]
  }

  /** Drops what has expired and records the id, or changes nothing. */
  function Committed(receipts: Receipts, id: string, now: Time, retention: int): Result<Receipts, Error> {
    if !Readable(receipts) then Err(InvalidAlert)
    else if id in Live(receipts, now) then Err(Replay)
    else Ok(Live(receipts, now)[id := now + retention])
  }

  class Ledger {
    var receipts: Receipts

    constructor ()
      ensures receipts == map[]
    {
      receipts := map[];
    }

    /** The transaction: expired keys are collected, deleted, and the id inserted;
        an error rolls all of it back. */
    method Commit(id: string, now: Time, retention: int) returns (r: Option<Error>)
      modifies this
      ensures match Committed(old(receipts), id, now, retention)
              case Ok(after) => r == None && receipts == after
              case Err(e) => r == Some(e) && receipts == old(receipts)
    {
      var expired: seq<string> := [];
      var rest := receipts.Keys;
      while rest != {}
        invariant rest <= receipts.Keys
        invariant forall k :: k in receipts && k !in rest ==> receipts[k] != ZERO_TIME
        invariant forall k :: k in expired <==> k in receipts && k !in rest && receipts[k] <= now
        decreases |rest|
      {
        var k :| k in rest;
        if receipts[k] == ZERO_TIME {
          return Some(InvalidAlert);
        }
        if receipts[k] <= now {
          expired := expired + [k];
        }
        rest := rest - {k};
      }
      var transaction := receipts;
      for n := 0 to |expired|
        invariant transaction == map k | k in receipts && k !in expired[..n] :: receipts[k]
      {
        transaction := transaction - {expired[n]};
        assert expired[..n + 1] == expired[..n] + [expired[n]];
      }
      assert expired[..|expired|] == expired;
      assert transaction == Live(receipts, now);
      if id in transaction {
        return Some(Replay);
      }
      receipts := transaction[id := now + retention];
      r := None;
    }
  }

  /* ---- Calls in flight ---- */

  datatype Call = Checked(headers: W.Headers, now: Time)

  datatype Acceptance = Acceptance(headers: W.Headers, now: Time)

  /** `accepted` lists the acceptances in the order of their commits. */
  datatype State = State(receipts: Receipts, calls: map<nat, Call>, accepted: seq<Acceptance>)

  const INIT := State(map[], map[], [])

  /** `usable` is whether the body decodes and names a registered target and rule. */
  datatype Label =
    | Begin(id: nat, headers: W.Headers, body: string, now: Time, usable: bool)
    | Commit(id: nat)
    | Crash(ids: set<nat>)

  /** Signature, timestamp, an early replay check and the payload, all before
      the transaction. */
  predicate Admissible(mac: W.Mac, c: Config, receipts: Receipts, h: W.Headers, body: string, now: Time, usable: bool) {
    && 0 < |body| <= c.maxBody
    && now != ZERO_TIME
    && W.Verified(mac, c.secrets, h, body, now, TOLERANCE) == None
    && !(h.id in receipts && (receipts[h.id] == ZERO_TIME || receipts[h.id] > now))
    && usable
  }

  function Settled(c: Config, s: State, id: nat): State
    requires id in s.calls
  {
    var call := s.calls[id];
    match Committed(s.receipts, call.headers.id, call.now, c.retention)
    case Err(_) => s.(calls := s.calls - {id})
    case Ok(receipts) => State(receipts, s.calls - {id}, s.accepted + [Acceptance(call.headers, call.now)])
  }

  function Step(mac: W.Mac, c: Config, s: State, l: Label): State {
    match l
    case Begin(id, h, body, now, usable) =>
      if id in s.calls || !Admissible(mac, c, s.receipts, h, body, now, usable) then s
      else s.(calls := s.calls[id := Checked(h, now)])
    case Commit(id) => if id in s.calls then Settled(c, s, id) else s
    case Crash(ids) => s.(calls := s.calls - ids)
  }

  function Run(mac: W.Mac, c: Config, labels: seq<Label>): State {
    if labels == [] then INIT else Step(mac, c, Run(mac, c, labels[..|labels| - 1]), labels[|labels| - 1])
  }

  /** Clock readings follow commit order. */
  predicate Ordered(accepted: seq<Acceptance>) {
    forall i, k :: 0 <= i < k < |accepted| ==> accepted[i].now <= accepted[k].now
  }

  /* ---- Acceptances of one id lie a retention apart ---- */

  predicate InTime(h: W.Headers, now: Time) {
    var timestamp := W.ParseTimestamp(h.timestamp);
    timestamp.Some? && W.WithinTolerance(timestamp.value, W.Unix(now), TOLERANCE / SECOND) && W.Unix(now) >= 0
  }

  ghost predicate Spaced(accepted: seq<Acceptance>, retention: int) {
    forall i, k :: 0 <= i < k < |accepted| && accepted[i].headers.id == accepted[k].headers.id ==>
      accepted[k].now >= accepted[i].now + retention
  }

  /** As long as commits have followed the clock, every acceptance that is not a
      retention old still has its receipt. */
  ghost predicate Inv(c: Config, s: State) {
    && Readable(s.receipts)
    && (forall id :: id in s.calls ==> InTime(s.calls[id].headers, s.calls[id].now))
    && (forall i :: 0 <= i < |s.accepted| ==> InTime(s.accepted[i].headers, s.accepted[i].now))
    && (Ordered(s.accepted) ==>
          && Spaced(s.accepted, c.retention)
          && forall i :: 0 <= i < |s.accepted| ==> Remembered(s, i, c.retention))
  }

  /** The receipt of an acceptance outlives everything accepted so far, or the
      retention has passed. */
  predicate Remembered(s: State, i: nat, retention: int)
    requires i < |s.accepted|
  {
    var a := s.accepted[i];
    || (a.headers.id in s.receipts && s.receipts[a.headers.id] >= a.now + retention)
    || s.accepted[|s.accepted| - 1].now >= a.now + retention
  }

  lemma OrderedPrefix(accepted: seq<Acceptance>, a: Acceptance)
    requires Ordered(accepted + [a])
    ensures Ordered(accepted) && forall i :: 0 <= i < |accepted| ==> accepted[i].now <= a.now
  {
    var all := accepted + [a];
    forall i, k | 0 <= i < k < |accepted| ensures accepted[i].now <= accepted[k].now {
      assert all[i].now <= all[k].now;
    }
    forall i | 0 <= i < |accepted| ensures accepted[i].now <= a.now {
      assert all[i].now <= all[|accepted|].now;
    }
  }

  /** An acceptance that the transaction lets through is a retention after every
      earlier one with its id. */
  lemma AcceptedLater(c: Config, s: State, h: W.Headers, now: Time, i: nat)
    requires Inv(c, s) && Committed(s.receipts, h.id, now, c.retention).Ok?
    requires Ordered(s.accepted + [Acceptance(h, now)])
    requires i < |s.accepted| && s.accepted[i].headers.id == h.id
    ensures now >= s.accepted[i].now + c.retention
  {
    OrderedPrefix(s.accepted, Acceptance(h, now));
    hide InTime;
    assert Remembered(s, i, c.retention);
  }

  lemma CommitSpaced(c: Config, s: State, id: nat)
    requires Inv(c, s) && id in s.calls
        && Committed(s.receipts, s.calls[id].headers.id, s.calls[id].now, c.retention).Ok?
    requires Ordered(s.accepted + [Acceptance(s.calls[id].headers, s.calls[id].now)])
    ensures Spaced(s.accepted + [Acceptance(s.calls[id].headers, s.calls[id].now)], c.retention)
  {
    var h, now := s.calls[id].headers, s.calls[id].now;
    var all := s.accepted + [Acceptance(h, now)];
    OrderedPrefix(s.accepted, Acceptance(h, now));
    forall i, k | 0 <= i < k < |all| && all[i].headers.id == all[k].headers.id
      ensures all[k].now >= all[i].now + c.retention
    {
      hide InTime;
      if k == |s.accepted| { AcceptedLater(c, s, h, now, i); }
    }
  }

  lemma CommitRemembers(mac: W.Mac, c: Config, s: State, id: nat, i: nat)
    requires Inv(c, s) && id in s.calls
        && Committed(s.receipts, s.calls[id].headers.id, s.calls[id].now, c.retention).Ok?
    requires Ordered(Step(mac, c, s, Commit(id)).accepted) && i <= |s.accepted|
    ensures Remembered(Step(mac, c, s, Commit(id)), i, c.retention)
  {
    hide InTime;
    var h, now := s.calls[id].headers, s.calls[id].now;
    OrderedPrefix(s.accepted, Acceptance(h, now));
    var s' := Step(mac, c, s, Commit(id));
    if i < |s.accepted| {
      assert Remembered(s, i, c.retention) && s'.accepted[i] == s.accepted[i];
      if s.accepted[i].headers.id == h.id { AcceptedLater(c, s, h, now, i); }
    }
  }

  lemma StepKeeps(mac: W.Mac, c: Config, s: State, l: Label)
    requires Inv(c, s) && c.retention >= 0
    ensures Inv(c, Step(mac, c, s, l))
  {
    hide InTime, Spaced, Remembered, Ordered;
    match l
    case Begin(id, h, body, now, usable) =>
      if id !in s.calls && Admissible(mac, c, s.receipts, h, body, now, usable) {
        VerifiedInTime(mac, c, h, body, now);
      }
      BeginKeeps(mac, c, s, l);
    case Commit(id) =>
      if id in s.calls && Committed(s.receipts, s.calls[id].headers.id, s.calls[id].now, c.retention).Ok? {
        CommitKeeps(mac, c, s, id);
      } else {
        RememberedSame(s, Step(mac, c, s, l), c.retention);
      }
    case Crash(ids) => RememberedSame(s, Step(mac, c, s, l), c.retention);
  }

  lemma VerifiedInTime(mac: W.Mac, c: Config, h: W.Headers, body: string, now: Time)
    requires W.Verified(mac, c.secrets, h, body, now, TOLERANCE) == None
    ensures InTime(h, now)
  {
    hide W.ParsedSignatures, W.SignedBy, W.ValidMessageID;
  }

  lemma RememberedSame(s: State, s': State, retention: int)
    requires s'.receipts == s.receipts && s'.accepted == s.accepted
    ensures forall i :: 0 <= i < |s.accepted| ==> (Remembered(s', i, retention) <==> Remembered(s, i, retention))
  {
  }

  lemma BeginKeeps(mac: W.Mac, c: Config, s: State, l: Label)
    requires Inv(c, s) && l.Begin?
    requires l.id !in s.calls && Admissible(mac, c, s.receipts, l.headers, l.body, l.now, l.usable) ==>
        InTime(l.headers, l.now)
    ensures Inv(c, Step(mac, c, s, l))
  {
    RememberedSame(s, Step(mac, c, s, l), c.retention);
    hide InTime, Spaced, Remembered, Ordered, Admissible;
  }

  lemma CommitKeeps(mac: W.Mac, c: Config, s: State, id: nat)
    requires Inv(c, s) && c.retention >= 0
    requires id in s.calls && Committed(s.receipts, s.calls[id].headers.id, s.calls[id].now, c.retention).Ok?
    ensures Inv(c, Step(mac, c, s, Commit(id)))
  {
    var s' := Step(mac, c, s, Commit(id));
    if Ordered(s'.accepted) {
      CommitSpaced(c, s, id);
      forall i | 0 <= i < |s'.accepted| ensures Remembered(s', i, c.retention) { CommitRemembers(mac, c, s, id, i); }
    }
    CommitReadable(c, s, id);
    hide Spaced, Remembered, Ordered;
  }

  lemma CommitReadable(c: Config, s: State, id: nat)
    requires Inv(c, s) && c.retention >= 0 && id in s.calls
    requires Committed(s.receipts, s.calls[id].headers.id, s.calls[id].now, c.retention).Ok?
    ensures Readable(Committed(s.receipts, s.calls[id].headers.id, s.calls[id].now, c.retention).value)
  {
    hide Spaced, Remembered, Ordered;
    assert InTime(s.calls[id].headers, s.calls[id].now);
    assert s.calls[id].now > 0;
  }

  lemma InitInv(c: Config)
    ensures Inv(c, INIT)
  {
  }

  lemma {:induction false} RunKeeps(mac: W.Mac, c: Config, labels: seq<Label>)
    requires c.retention >= 0
    ensures Inv(c, Run(mac, c, labels))
  {
    hide Step, Inv;
    if labels == [] {
      InitInv(c);
    } else {
      RunKeeps(mac, c, labels[..|labels| - 1]);
      StepKeeps(mac, c, Run(mac, c, labels[..|labels| - 1]), labels[|labels| - 1]);
    }
  }

  /** In every schedule whose clock readings follow commit order, acceptances of
      one webhook id are at least the retention apart. */
  lemma {:induction false} RetentionApart(mac: W.Mac, c: Config, labels: seq<Label>, i: nat, k: nat)
    requires ValidConfig(c) && Ordered(Run(mac, c, labels).accepted)
    requires i < k < |Run(mac, c, labels).accepted|
    requires Run(mac, c, labels).accepted[i].headers.id == Run(mac, c, labels).accepted[k].headers.id
    ensures Run(mac, c, labels).accepted[k].now >= Run(mac, c, labels).accepted[i].now + c.retention
  {
    RunKeeps(mac, c, labels);
    hide Run, InTime;
  }

  /* ---- At most once, exactly from 601 seconds on ---- */

  predicate SameMessage(a: Acceptance, b: Acceptance) {
    a.headers.id == b.headers.id && a.headers.timestamp == b.headers.timestamp
  }

  /** No id and timestamp is accepted twice in a schedule in clock order. */
  ghost predicate AtMostOnce(mac: W.Mac, c: Config) {
    forall labels: seq<Label>, i, k ::
      Ordered(Run(mac, c, labels).accepted) && 0 <= i < k < |Run(mac, c, labels).accepted| ==>
        !SameMessage(Run(mac, c, labels).accepted[i], Run(mac, c, labels).accepted[k])
  }

  /** Every request of the schedule has this body. */
  predicate Carries(labels: seq<Label>, body: string) {
    forall i :: 0 <= i < |labels| && labels[i].Begin? ==> labels[i].body == body
  }

  ghost predicate AtMostOnceWith(mac: W.Mac, c: Config, body: string) {
    forall labels: seq<Label>, i, k ::
      Carries(labels, body) && Ordered(Run(mac, c, labels).accepted) && 0 <= i < k < |Run(mac, c, labels).accepted| ==>
        !SameMessage(Run(mac, c, labels).accepted[i], Run(mac, c, labels).accepted[k])
  }

  lemma InTimeApart(a: Acceptance, b: Acceptance)
    requires InTime(a.headers, a.now) && InTime(b.headers, b.now) && SameMessage(a, b)
    ensures b.now - a.now < SAFE_RETENTION
  {
  }

  lemma SafeRetention(mac: W.Mac, c: Config)
    requires ValidConfig(c) && c.retention >= SAFE_RETENTION
    ensures AtMostOnce(mac, c)
  {
    forall labels: seq<Label>, i, k |
      Ordered(Run(mac, c, labels).accepted) && 0 <= i < k < |Run(mac, c, labels).accepted|
      ensures !SameMessage(Run(mac, c, labels).accepted[i], Run(mac, c, labels).accepted[k])
    {
      var accepted := Run(mac, c, labels).accepted;
      RunKeeps(mac, c, labels);
      hide Run;
      if SameMessage(accepted[i], accepted[k]) {
        RetentionApart(mac, c, labels, i, k);
        InTimeApart(accepted[i], accepted[k]);
      }
    }
  }

  const MESSAGE: string := "m"

  /** Signed at second 300 of the epoch. */
  const SIGNED_AT: Time := (W.EPOCH + 300) * SECOND
  const EARLIEST: Time := SIGNED_AT - TOLERANCE
  const LATEST: Time := SIGNED_AT + TOLERANCE + SECOND - 1

  /** The same request at both ends of its tolerance. */
  function Twice(h: W.Headers, body: string): seq<Label> {
    [Begin(0, h, body, EARLIEST, true), Commit(0), Begin(0, h, body, LATEST, true), Commit(0)]
  }

  lemma VerifiesAt(mac: W.Mac, c: Config, body: string, now: Time) returns (h: W.Headers)
    requires ValidConfig(c) && (now == EARLIEST || now == LATEST)
    ensures W.Signed(mac, c.secrets, MESSAGE, SIGNED_AT, body) == Ok(h) && h.id == MESSAGE
    ensures W.Verified(mac, c.secrets, h, body, now, TOLERANCE) == None
  {
    assert W.ValidMessageID(MESSAGE);
    assert W.Unix(SIGNED_AT) == 300 && (W.Unix(now) == 0 || W.Unix(now) == 600);
    hide W.ValidMessageID;
    W.SharedSecretVerifies(mac, c.secrets, c.secrets, c.secrets[0], MESSAGE, SIGNED_AT, body, now, TOLERANCE);
    hide W.Verified;
    h := W.Signed(mac, c.secrets, MESSAGE, SIGNED_AT, body).value;
  }

  lemma VerifiesBoth(mac: W.Mac, c: Config, body: string) returns (h: W.Headers)
    requires ValidConfig(c)
    ensures W.Verified(mac, c.secrets, h, body, EARLIEST, TOLERANCE) == None
    ensures W.Verified(mac, c.secrets, h, body, LATEST, TOLERANCE) == None
  {
    hide W.Verified, W.Signed;
    h := VerifiesAt(mac, c, body, EARLIEST);
    var h' := VerifiesAt(mac, c, body, LATEST);
  }

  lemma AcceptsOnce(mac: W.Mac, c: Config, s: State, h: W.Headers, body: string, now: Time)
    requires ValidConfig(c) && 0 < |body| <= c.maxBody && s.calls == map[] && Readable(s.receipts) && now > 0
    requires W.Verified(mac, c.secrets, h, body, now, TOLERANCE) == None
    requires h.id in s.receipts ==> s.receipts[h.id] <= now
    ensures var s' := Step(mac, c, Step(mac, c, s, Begin(0, h, body, now, true)), Commit(0));
            && s'.calls == map[] && Readable(s'.receipts) && s'.accepted == s.accepted + [Acceptance(h, now)]
            && s'.receipts == Live(s.receipts, now)[h.id := now + c.retention]
  {
    hide W.Verified;
    assert Admissible(mac, c, s.receipts, h, body, now, true);
    hide Admissible;
  }

  lemma {:induction false} RunFour(mac: W.Mac, c: Config, a: Label, b: Label, d: Label, e: Label)
    ensures Run(mac, c, [a, b, d, e]) == Step(mac, c, Step(mac, c, Step(mac, c, Step(mac, c, INIT, a), b), d), e)
  {
    hide Step;
    assert [a, b, d, e][..3] == [a, b, d] && [a, b, d][..2] == [a, b] && [a, b][..1] == [a] && [a][..0] == [];
    assert Run(mac, c, [a]) == Step(mac, c, INIT, a);
    assert Run(mac, c, [a, b]) == Step(mac, c, Run(mac, c, [a]), b);
    assert Run(mac, c, [a, b, d]) == Step(mac, c, Run(mac, c, [a, b]), d);
  }

  /** With any shorter retention, and whatever body within the limit decodes to an
      alert, one signed request is accepted twice: first 300 seconds early, then
      at the last instant of its tolerance. */
  lemma AcceptedTwice(mac: W.Mac, c: Config, body: string) returns (labels: seq<Label>)
    requires ValidConfig(c) && c.retention < SAFE_RETENTION && 0 < |body| <= c.maxBody
    ensures Carries(labels, body)
    ensures var accepted := Run(mac, c, labels).accepted;
            |accepted| == 2 && Ordered(accepted) && SameMessage(accepted[0], accepted[1])
  {
    hide W.Verified, W.Signed, Run;
    var h := VerifiesBoth(mac, c, body);
    labels := Twice(h, body);
    TwiceAccepts(mac, c, h, body);
  }

  lemma {:induction false} TwiceAccepts(mac: W.Mac, c: Config, h: W.Headers, body: string)
    requires ValidConfig(c) && c.retention < SAFE_RETENTION && 0 < |body| <= c.maxBody
    requires W.Verified(mac, c.secrets, h, body, EARLIEST, TOLERANCE) == None
    requires W.Verified(mac, c.secrets, h, body, LATEST, TOLERANCE) == None
    ensures Run(mac, c, Twice(h, body)).accepted == [Acceptance(h, EARLIEST), Acceptance(h, LATEST)]
  {
    hide W.Verified, Step, Run;
    var l := Twice(h, body);
    RunFour(mac, c, l[0], l[1], l[2], l[3]);
    AcceptsOnce(mac, c, INIT, h, body, EARLIEST);
    var s := Step(mac, c, Step(mac, c, INIT, l[0]), l[1]);
    assert s.receipts[h.id] == EARLIEST + c.retention;
    AcceptsOnce(mac, c, s, h, body, LATEST);
  }

  /** The replay bound is exact, already for the schedules of any one body within
      the limit: at most once if and only if the retention is at least 601
      seconds, although configurations down to 60 seconds are allowed. */
  lemma AtMostOnceIff(mac: W.Mac, c: Config, body: string)
    requires ValidConfig(c) && 0 < |body| <= c.maxBody
    ensures AtMostOnceWith(mac, c, body) <==> c.retention >= SAFE_RETENTION
    ensures AtMostOnce(mac, c) <==> c.retention >= SAFE_RETENTION
  {
    if c.retention >= SAFE_RETENTION {
      SafeRetention(mac, c);
    } else {
      var labels := AcceptedTwice(mac, c, body);
      hide Run, Ordered, SameMessage, Carries;
      assert 0 <= 0 < 1 < |Run(mac, c, labels).accepted|;
    }
  }

  /* ---- Clock order is needed ---- */

  const OTHER: string := "n"

  /** One request twice in flight, and another that reads a clock a retention
      later yet commits between the two. */
  function Overtaken(h: W.Headers, other: W.Headers, body: string, later: Time): seq<Label> {
    [Begin(0, h, body, SIGNED_AT, true), Begin(1, h, body, SIGNED_AT, true), Commit(0),
     Begin(2, other, body, later, true), Commit(2), Commit(1)]
  }

  lemma VerifiesNow(mac: W.Mac, c: Config, body: string, id: string, now: Time) returns (h: W.Headers)
    requires ValidConfig(c) && W.ValidMessageID(id) && now >= SIGNED_AT && W.Representable(now)
    ensures h.id == id && W.Verified(mac, c.secrets, h, body, now, TOLERANCE) == None
  {
    hide W.ValidMessageID;
    W.SharedSecretVerifies(mac, c.secrets, c.secrets, c.secrets[0], id, now, body, now, TOLERANCE);
    hide W.Verified;
    h := W.Signed(mac, c.secrets, id, now, body).value;
  }

  lemma {:induction false} RunSix(mac: W.Mac, c: Config, a: Label, b: Label, d: Label, e: Label, f: Label, g: Label)
    ensures Run(mac, c, [a, b, d, e, f, g]) ==
            Step(mac, c, Step(mac, c, Step(mac, c, Step(mac, c, Step(mac, c, Step(mac, c, INIT, a), b), d), e), f), g)
  {
    hide Step;
    RunFour(mac, c, a, b, d, e);
    assert [a, b, d, e, f, g][..5] == [a, b, d, e, f] && [a, b, d, e, f][..4] == [a, b, d, e];
    assert Run(mac, c, [a, b, d, e, f]) == Step(mac, c, Run(mac, c, [a, b, d, e]), f);
  }

  lemma BothChecked(mac: W.Mac, c: Config, h: W.Headers, body: string)
    requires ValidConfig(c) && 0 < |body| <= c.maxBody
    requires W.Verified(mac, c.secrets, h, body, SIGNED_AT, TOLERANCE) == None
    ensures var s := Step(mac, c, INIT, Begin(0, h, body, SIGNED_AT, true));
            Step(mac, c, s, Begin(1, h, body, SIGNED_AT, true)) ==
            State(map[], map[0 := Checked(h, SIGNED_AT), 1 := Checked(h, SIGNED_AT)], [])
  {
    hide W.Verified;
    assert Admissible(mac, c, map[], h, body, SIGNED_AT, true);
    hide Admissible;
  }

  lemma Overtakes(mac: W.Mac, c: Config, h: W.Headers, other: W.Headers, body: string)
    requires ValidConfig(c) && 0 < |body| <= c.maxBody && h.id == MESSAGE && other.id == OTHER
    requires W.Verified(mac, c.secrets, other, body, SIGNED_AT + c.retention, TOLERANCE) == None
    ensures var s := State(map[], map[0 := Checked(h, SIGNED_AT), 1 := Checked(h, SIGNED_AT)], []);
            var later := SIGNED_AT + c.retention;
            var s2 := Step(mac, c, Step(mac, c, s, Commit(0)), Begin(2, other, body, later, true));
            var s' := Step(mac, c, s2, Commit(2));
            && s'.receipts == map[OTHER := later + c.retention]
            && s'.accepted == [Acceptance(h, SIGNED_AT), Acceptance(other, later)]
            && s'.calls == map[1 := Checked(h, SIGNED_AT)]
  {
    hide W.Verified;
    var later := SIGNED_AT + c.retention;
    var one := State(map[MESSAGE := later], map[1 := Checked(h, SIGNED_AT)], [Acceptance(h, SIGNED_AT)]);
    var both := State(map[], map[0 := Checked(h, SIGNED_AT), 1 := Checked(h, SIGNED_AT)], []);
    assert Step(mac, c, both, Commit(0)) == one;
    assert Admissible(mac, c, one.receipts, other, body, later, true);
    hide Admissible;
    assert Live(one.receipts, later) == map[];
  }

  lemma {:induction false} OvertakenAccepts(mac: W.Mac, c: Config, h: W.Headers, other: W.Headers, body: string)
    requires ValidConfig(c) && 0 < |body| <= c.maxBody && h.id == MESSAGE && other.id == OTHER
    requires W.Verified(mac, c.secrets, h, body, SIGNED_AT, TOLERANCE) == None
    requires W.Verified(mac, c.secrets, other, body, SIGNED_AT + c.retention, TOLERANCE) == None
    ensures Run(mac, c, Overtaken(h, other, body, SIGNED_AT + c.retention)).accepted
         == [Acceptance(h, SIGNED_AT), Acceptance(other, SIGNED_AT + c.retention), Acceptance(h, SIGNED_AT)]
  {
    assert SIGNED_AT > 0;
    hide W.Verified, Step, Run, SIGNED_AT;
    var l := Overtaken(h, other, body, SIGNED_AT + c.retention);
    RunSix(mac, c, l[0], l[1], l[2], l[3], l[4], l[5]);
    BothChecked(mac, c, h, body);
    Overtakes(mac, c, h, other, body);
    var s := State(map[], map[0 := Checked(h, SIGNED_AT), 1 := Checked(h, SIGNED_AT)], []);
    var s' := Step(mac, c, Step(mac, c, Step(mac, c, s, l[2]), l[3]), l[4]);
    SettlesLast(mac, c, s', h);
  }

  /** Whatever the retention and the body, a purge that runs ahead of the clock of a
      call still in flight lets one request in twice. */
  lemma ClockOrderNeeded(mac: W.Mac, c: Config, body: string) returns (labels: seq<Label>)
    requires ValidConfig(c) && 0 < |body| <= c.maxBody && W.Representable(SIGNED_AT + c.retention)
    ensures Carries(labels, body)
    ensures var accepted := Run(mac, c, labels).accepted;
            |accepted| == 3 && accepted[0] == accepted[2] && !Ordered(accepted)
  {
    assert W.ValidMessageID(MESSAGE) && W.ValidMessageID(OTHER);
    hide W.Verified, W.ValidMessageID, Run;
    var h := VerifiesNow(mac, c, body, MESSAGE, SIGNED_AT);
    var other := VerifiesNow(mac, c, body, OTHER, SIGNED_AT + c.retention);
    labels := Overtaken(h, other, body, SIGNED_AT + c.retention);
    OvertakenAccepts(mac, c, h, other, body);
    var accepted := Run(mac, c, labels).accepted;
    assert accepted[1].now > accepted[2].now;
  }

  lemma SettlesLast(mac: W.Mac, c: Config, s: State, h: W.Headers)
    requires s.calls == map[1 := Checked(h, SIGNED_AT)] && Readable(s.receipts) && h.id !in s.receipts
    ensures Step(mac, c, s, Commit(1)).accepted == s.accepted + [Acceptance(h, SIGNED_AT)]
  {
  }
}
