/** What every sequence of signals keeps, and when a replayed signal changes nothing. */
module CorrelatorTheorems {
  import opened Text
  import opened Contract
  import opened Correlator
  import J = Journal
  import W = Webhook

  datatype Arrival = Arrival(signal: Signal, incidentID: string)

  function Run(window: int, arrivals: seq<Arrival>): Bucket
    requires window > 0
  {
    if arrivals == [] then map[]
    else
      var last := arrivals[|arrivals| - 1];
      Ingest(Run(window, arrivals[..|arrivals| - 1]), last.signal, window, last.incidentID).bucket
  }

  predicate RecordOK(key: string, r: Record) {
    ValidRecord(r) && r.incident.dedupeKey == key && |r.incident.ruleIDs| == 1
  }

  ghost predicate Inv(b: Bucket) {
    forall k :: k in b ==> RecordOK(k, b[k])
  }

  /** Identity is fixed, severity never falls, the public state follows the
      incident table or stutters, and a terminal incident is final. */
  predicate Follows(a: Incident, b: Incident) {
    && b == a.(state := b.state, severity := b.severity, terminalAt := b.terminalAt)
    && SeverityRank(a.severity) <= SeverityRank(b.severity)
    && (a.state == b.state || CanIncidentTransition(a.state, b.state))
    && (a.state == b.state ==> a.terminalAt == b.terminalAt)
    && (TerminalIncident(a.state) ==> b == a)
  }

  /** A signal writes at most one record, and only legally; a new one is an open
      candidate. */
  ghost predicate Moves(b: Bucket, b': Bucket) {
    || b' == b
    || exists key :: && key in b' && b' == b[key := b'[key]]
                     && (key in b ==> Follows(b[key].incident, b'[key].incident))
                     && (key !in b ==> b'[key].incident.state == Open && b'[key].phase == Candidate)
  }

  lemma AdvancedFollows(r: Record, s: Signal)
    requires ValidRecord(r) && s.observation.observedAt != ZERO_TIME
    ensures Follows(r.incident, Advanced(r, s).incident)
    ensures PhaseMatches(Advanced(r, s).phase, Advanced(r, s).incident.state)
    ensures ValidIncident(Advanced(r, s).incident) && Advanced(r, s).seen == r.seen && Advanced(r, s).schema == V1
  {
  }

  lemma AppendedDistinct(inputs: seq<Input>, input: Input)
    requires Distinct(inputs) && input !in inputs
    ensures Distinct(AppendBounded(inputs, input)) && 0 < |AppendBounded(inputs, input)| <= MAX_SEEN
  {
  }

  /** Updating a valid record never fails. */
  lemma UpdatedOK(b: Bucket, key: string, s: Signal)
    requires Inv(b) && key in b && s.observation.observedAt != ZERO_TIME
    ensures var u := Updated(b, key, b[key], s);
            && u.answer.Ok? && Inv(u.bucket) && Moves(b, u.bucket)
            && (InputOf(s) in b[key].seen ==> u.bucket == b && u.answer.value.duplicate)
            && (InputOf(s) !in b[key].seen ==>
                  && key in u.bucket && u.bucket == b[key := u.bucket[key]]
                  && u.bucket[key].seen == AppendBounded(b[key].seen, InputOf(s))
                  && u.bucket[key].incident == Advanced(b[key], s).incident
                  && u.bucket[key].phase == Advanced(b[key], s).phase)
  {
    hide InputOf, AppendBounded, Follows, Advanced;
    var r := b[key];
    assert RecordOK(key, r);
    if InputOf(s) !in r.seen {
      var r1 := r.(seen := AppendBounded(r.seen, InputOf(s)));
      AppendedDistinct(r.seen, InputOf(s));
      AdvancedFollows(r1, s);
      SeenAside(r, r1.seen, s);
      FollowsIdentity(r1.incident, Advanced(r1, s).incident);
    }
  }

  lemma FollowsIdentity(a: Incident, b: Incident)
    requires Follows(a, b)
    ensures b.dedupeKey == a.dedupeKey && b.ruleIDs == a.ruleIDs && b.targetID == a.targetID && b.openedAt == a.openedAt
  {
  }

  lemma SeenAside(r: Record, seen: seq<Input>, s: Signal)
    ensures Advanced(r.(seen := seen), s).incident == Advanced(r, s).incident
    ensures Advanced(r.(seen := seen), s).phase == Advanced(r, s).phase
  {
  }

  lemma NormalizedTime(s: Signal)
    requires Normalized(s).Some?
    ensures Normalized(s).value.observation == s.observation && s.observation.observedAt != ZERO_TIME
    ensures !Blank(s.observation.targetID) && !Blank(s.observation.ruleID)
  {
  }

  lemma CandidateOK(s: Signal, key: string, incidentID: string)
    requires s.observation.observedAt != ZERO_TIME && !Blank(s.observation.targetID) && !Blank(incidentID) && key != ""
    ensures RecordOK(key, NewCandidate(s, key, incidentID))
  {
  }

  lemma DedupeKeyNonEmpty(o: Observation, window: int)
    requires window > 0
    ensures DedupeKey(o, window) != ""
  {
  }

  lemma IngestKeeps(b: Bucket, signal: Signal, window: int, incidentID: string)
    requires window > 0 && Inv(b)
    ensures var b' := Ingest(b, signal, window, incidentID).bucket;
            Inv(b') && Moves(b, b')
  {
    if Normalized(signal).Some? {
      NormalizedTime(signal);
      hide Normalized, Updated, DedupeKey, FindActive, Blank;
      var s := Normalized(signal).value;
      var key := DedupeKey(s.observation, window);
      DedupeKeyNonEmpty(s.observation, window);
      if key in b {
        UpdatedOK(b, key, s);
      } else if s.observation.health == Healthy {
        if FindActive(b, s.observation).Some? { UpdatedOK(b, FindActive(b, s.observation).value, s); }
      } else if !Blank(incidentID) {
        CandidateOK(s, key, incidentID);
        var b' := Ingest(b, signal, window, incidentID).bucket;
        assert b' == b[key := b'[key]];
      }
    }
  }

  lemma {:induction false} ReachableInv(window: int, arrivals: seq<Arrival>)
    requires window > 0
    ensures Inv(Run(window, arrivals))
  {
    hide Ingest, Inv;
    if arrivals == [] {
      EmptyInv();
    } else {
      var last := arrivals[|arrivals| - 1];
      ReachableInv(window, arrivals[..|arrivals| - 1]);
      IngestKeeps(Run(window, arrivals[..|arrivals| - 1]), last.signal, window, last.incidentID);
    }
  }

  lemma EmptyInv()
    ensures Inv(map[])
  {
  }

  /** After any signals, every record is valid under its own key, terminal time is
      set exactly on terminal incidents, and the next signal moves legally. */
  lemma {:induction false} IncidentsRefine(window: int, arrivals: seq<Arrival>, next: Arrival)
    requires window > 0
    ensures var b := Run(window, arrivals);
            && (forall k :: k in b ==> ValidRecord(b[k]) && b[k].incident.dedupeKey == k)
            && (forall k :: k in b ==> (TerminalIncident(b[k].incident.state) <==> b[k].incident.terminalAt != NO_TIME))
            && Moves(b, Ingest(b, next.signal, window, next.incidentID).bucket)
  {
    ReachableInv(window, arrivals);
    hide Run, Ingest, Moves;
    var b := Run(window, arrivals);
    IngestKeeps(b, next.signal, window, next.incidentID);
    assert forall k :: k in b ==> RecordOK(k, b[k]);
  }

  /* ---- Whole runs ---- */

  function Rank(s: IncidentState): nat {
    match s
    case Open => 0
    case Analyzing => 1
    case AwaitingApproval => 1
    case Recovering => 2
    case IncidentStabilizing => 3
    case Closed => 4
    case IncidentFailed => 4
  }

  /** The net effect of any number of signals on one incident. */
  predicate Leads(a: Incident, b: Incident) {
    && b == a.(state := b.state, severity := b.severity, terminalAt := b.terminalAt)
    && SeverityRank(a.severity) <= SeverityRank(b.severity)
    && (a.state == b.state || Rank(a.state) < Rank(b.state))
    && (TerminalIncident(a.state) ==> b == a)
  }

  lemma MovesLeads(b: Bucket, b': Bucket, k: string)
    requires Inv(b) && Inv(b') && Moves(b, b') && k in b
    ensures k in b' && Leads(b[k].incident, b'[k].incident)
  {
    hide ValidRecord;
    if b' != b {
      var key :| key in b' && b' == b[key := b'[key]] && (key in b ==> Follows(b[key].incident, b'[key].incident));
      assert RecordOK(k, b[k]) && RecordOK(k, b'[k]);
      PhaseState(b[k]);
      PhaseState(b'[k]);
    }
  }

  /** The correlator never leaves an incident waiting for approval. */
  lemma PhaseState(r: Record)
    requires ValidRecord(r)
    ensures r.incident.state != AwaitingApproval
  {
  }

  lemma {:induction false} RunLeads(window: int, before: seq<Arrival>, after: seq<Arrival>, k: string)
    requires window > 0 && k in Run(window, before)
    ensures k in Run(window, before + after)
    ensures Leads(Run(window, before)[k].incident, Run(window, before + after)[k].incident)
  {
    hide Ingest, Inv, Moves;
    if after == [] {
      assert before + after == before;
    } else {
      var init, last := after[..|after| - 1], after[|after| - 1];
      RunLeads(window, before, init, k);
      assert (before + after)[..|before + after| - 1] == before + init;
      ReachableInv(window, before + init);
      IngestKeeps(Run(window, before + init), last.signal, window, last.incidentID);
      MovesLeads(Run(window, before + init), Run(window, before + after), k);
    }
  }

  function StateChanges(window: int, arrivals: seq<Arrival>, k: string): nat
    requires window > 0
  {
    if arrivals == [] then 0
    else
      var init := arrivals[..|arrivals| - 1];
      var b, b' := Run(window, init), Run(window, arrivals);
      StateChanges(window, init, k)
      + if k in b && k in b' && b[k].incident.state != b'[k].incident.state then 1 else 0
  }

  /** An incident changes state at most four times, however many signals arrive. */
  lemma {:induction false} StateChangesBounded(window: int, arrivals: seq<Arrival>, k: string)
    requires window > 0
    ensures StateChanges(window, arrivals, k) <= 4
    ensures k in Run(window, arrivals) ==>
        StateChanges(window, arrivals, k) <= Rank(Run(window, arrivals)[k].incident.state)
    ensures k !in Run(window, arrivals) ==> StateChanges(window, arrivals, k) == 0
  {
    hide Ingest, Inv, Moves;
    if arrivals != [] {
      var init, last := arrivals[..|arrivals| - 1], arrivals[|arrivals| - 1];
      StateChangesBounded(window, init, k);
      ReachableInv(window, init);
      IngestKeeps(Run(window, init), last.signal, window, last.incidentID);
      if k in Run(window, init) { MovesLeads(Run(window, init), Run(window, arrivals), k); }
    }
  }

  /* ---- The input window of a record ---- */

  /** Every signal ever folded into a record, oldest first. */
  function History(window: int, arrivals: seq<Arrival>, k: string): seq<Signal>
    requires window > 0
  {
    if arrivals == [] then []
    else
      var init, last := arrivals[..|arrivals| - 1], arrivals[|arrivals| - 1];
      var b, b' := Run(window, init), Run(window, arrivals);
      if k in b' && (k !in b || b[k] != b'[k]) && Normalized(last.signal).Some?
        then History(window, init, k) + [Normalized(last.signal).value]
      else History(window, init, k)
  }

  function Inputs(signals: seq<Signal>): seq<Input> {
    seq(|signals|, i requires 0 <= i < |signals| => InputOf(signals[i]))
  }

  lemma LastOfAppend<T>(s: seq<T>, x: T, n: nat)
    requires n > 0
    ensures LastOf(LastOf(s, n) + [x], n) == LastOf(s + [x], n)
  {
  }

  /** How one signal changes a record, apart from whether it does. */
  ghost predicate FoldsIn(b: Bucket, b': Bucket, k: string, s: Signal) {
    && k in b'
    && (k in b ==>
          && b'[k].seen == AppendBounded(b[k].seen, InputOf(s))
          && b'[k].incident == Advanced(b[k], s).incident && b'[k].phase == Advanced(b[k], s).phase)
    && (k !in b ==> exists incidentID :: b'[k] == NewCandidate(s, k, incidentID))
  }

  lemma IngestFolds(b: Bucket, signal: Signal, window: int, incidentID: string, k: string)
    requires window > 0 && Inv(b)
    ensures var b' := Ingest(b, signal, window, incidentID).bucket;
            && (k in b ==> k in b')
            && (k in b' && (k !in b || b[k] != b'[k]) ==>
                  Normalized(signal).Some? && FoldsIn(b, b', k, Normalized(signal).value))
  {
    hide Normalized, Updated, DedupeKey, FindActive, Blank, ValidRecord, AppendBounded, InputOf, Inv, Readable,
      Advanced, NewCandidate;
    if Normalized(signal).Some? {
      NormalizedTime(signal);
      var s := Normalized(signal).value;
      var key := DedupeKey(s.observation, window);
      if key in b {
        UpdatedFolds(b, key, s, k);
      } else if s.observation.health == Healthy && FindActive(b, s.observation).Some? {
        UpdatedFolds(b, FindActive(b, s.observation).value, s, k);
      }
    }
  }

  lemma UpdatedFolds(b: Bucket, key: string, s: Signal, k: string)
    requires Inv(b) && key in b && s.observation.observedAt != ZERO_TIME
    ensures var b' := Updated(b, key, b[key], s).bucket;
            && (k in b <==> k in b')
            && (k in b && b[k] != b'[k] ==> FoldsIn(b, b', k, s))
  {
    hide Updated, ValidRecord, AppendBounded, InputOf, Moves, Advanced;
    UpdatedOK(b, key, s);
  }

  lemma InputsSnoc(signals: seq<Signal>, s: Signal)
    ensures Inputs(signals + [s]) == Inputs(signals) + [InputOf(s)]
  {
  }

  /** A record lists exactly the last 256 inputs folded into it. */
  lemma {:induction false} SeenIsLast256(window: int, arrivals: seq<Arrival>, k: string)
    requires window > 0
    ensures var b := Run(window, arrivals);
            if k in b then b[k].seen == LastOf(Inputs(History(window, arrivals, k)), MAX_SEEN)
            else History(window, arrivals, k) == []
  {
    hide Ingest, Inv, InputOf, Normalized, Advanced;
    if arrivals != [] {
      var init, last := arrivals[..|arrivals| - 1], arrivals[|arrivals| - 1];
      SeenIsLast256(window, init, k);
      ReachableInv(window, init);
      IngestFolds(Run(window, init), last.signal, window, last.incidentID, k);
      if Normalized(last.signal).Some? {
        var s := Normalized(last.signal).value;
        InputsSnoc(History(window, init, k), s);
        LastOfAppend(Inputs(History(window, init, k)), InputOf(s), MAX_SEEN);
      }
    }
  }

  /* ---- The lifecycle in closed form ---- */

  /** The record after its signals, one at a time. */
  function Fold(key: string, incidentID: string, signals: seq<Signal>): Record
    requires signals != []
  {
    if |signals| == 1 then NewCandidate(signals[0], key, incidentID)
    else Advanced(Fold(key, incidentID, signals[..|signals| - 1]), signals[|signals| - 1])
  }

  /** How many signals from position `from` on report `health`. */
  function RunOf(signals: seq<Signal>, from: nat, health: Health): nat
    requires from <= |signals|
    decreases |signals| - from
  {
    if from < |signals| && signals[from].observation.health == health then 1 + RunOf(signals, from + 1, health) else 0
  }

  lemma {:induction false} RunOfWithin(signals: seq<Signal>, from: nat, health: Health)
    requires from <= |signals|
    ensures from + RunOf(signals, from, health) <= |signals|
    decreases |signals| - from
  {
    if from < |signals| && signals[from].observation.health == health { RunOfWithin(signals, from + 1, health); }
  }

  /** The state an incident is in after its signals, the first of which opened it:
      a healthy second signal closes it; further failures confirm it; then the
      first, second and third healthy signal in a row move it on to recovering,
      stabilizing and closed, and a failure before the third fails it. */
  function Lifecycle(signals: seq<Signal>): IncidentState
    requires signals != []
  {
    var failures := RunOf(signals, 1, Unhealthy);
    RunOfWithin(signals, 1, Unhealthy);
    var recoveries := RunOf(signals, 1 + failures, Healthy);
    if failures == 0 then if |signals| == 1 then Open else Closed
    else if recoveries >= 3 then Closed
    else if 1 + failures + recoveries < |signals| then IncidentFailed
    else if recoveries == 0 then Analyzing
    else if recoveries == 1 then Recovering
    else IncidentStabilizing
  }

  predicate Decisive(signals: seq<Signal>) {
    forall i :: 0 <= i < |signals| ==>
        signals[i].observation.health == Healthy || signals[i].observation.health == Unhealthy
  }

  /** One more signal extends a run only if the run reached the end. */
  lemma {:induction false} RunOfSnoc(signals: seq<Signal>, s: Signal, from: nat, health: Health)
    requires from <= |signals|
    ensures RunOf(signals + [s], from, health) ==
            RunOf(signals, from, health)
            + if from + RunOf(signals, from, health) == |signals| && s.observation.health == health then 1 else 0
    decreases |signals| - from
  {
    if from < |signals| {
      assert (signals + [s])[from] == signals[from];
      if signals[from].observation.health == health { RunOfSnoc(signals, s, from + 1, health); }
      RunOfWithin(signals, from, health);
    } else {
      assert (signals + [s])[from] == s;
      assert RunOf(signals + [s], from + 1, health) == 0;
    }
  }

  /** The lifecycle as a transition, given what the next signal reports. */
  function Next(state: IncidentState, health: Health): IncidentState {
    match state
    case Open => if health == Unhealthy then Analyzing else Closed
    case Analyzing => if health == Unhealthy then Analyzing else Recovering
    case Recovering => if health == Unhealthy then IncidentFailed else IncidentStabilizing
    case IncidentStabilizing => if health == Unhealthy then IncidentFailed else Closed
    case _ => state
  }

  lemma LifecycleSnoc(signals: seq<Signal>, s: Signal)
    requires signals != [] && Decisive(signals + [s])
    ensures Lifecycle(signals + [s]) == Next(Lifecycle(signals), s.observation.health)
  {
    var all := signals + [s];
    assert all[|signals|] == s;
    RunOfWithin(signals, 1, Unhealthy);
    RunOfSnoc(signals, s, 1, Unhealthy);
    var f := RunOf(signals, 1, Unhealthy);
    RunOfWithin(signals, 1 + f, Healthy);
    RunOfSnoc(signals, s, 1 + f, Healthy);
    EndOfRun(signals, 1, Unhealthy);
    EndOfRun(signals, 1 + f, Healthy);
    EndOfRun(all, 1, Unhealthy);
    if 1 + f == |signals| && s.observation.health == Unhealthy {
      assert RunOf(all, 2 + f, Healthy) == 0;
    }
    hide RunOf;
  }

  /** A run stops at the end or at a signal of another kind. */
  lemma {:induction false} EndOfRun(signals: seq<Signal>, from: nat, health: Health)
    requires from <= |signals|
    ensures var end := from + RunOf(signals, from, health);
            end <= |signals| && (end < |signals| ==> signals[end].observation.health != health)
            && (from < |signals| && signals[from].observation.health == health ==> end > from)
    decreases |signals| - from
  {
    if from < |signals| && signals[from].observation.health == health { EndOfRun(signals, from + 1, health); }
  }

  lemma AdvancedNext(r: Record, s: Signal)
    requires PhaseMatches(r.phase, r.incident.state)
        && (s.observation.health == Healthy || s.observation.health == Unhealthy)
    ensures Advanced(r, s).incident.state == Next(r.incident.state, s.observation.health)
    ensures PhaseMatches(Advanced(r, s).phase, Advanced(r, s).incident.state)
  {
  }

  lemma {:induction false} FoldIsLifecycle(key: string, incidentID: string, signals: seq<Signal>)
    requires signals != [] && Decisive(signals)
    ensures Fold(key, incidentID, signals).incident.state == Lifecycle(signals)
    ensures PhaseMatches(Fold(key, incidentID, signals).phase, Fold(key, incidentID, signals).incident.state)
  {
    hide Advanced, Next;
    if |signals| > 1 {
      var init, last := signals[..|signals| - 1], signals[|signals| - 1];
      assert init + [last] == signals;
      FoldIsLifecycle(key, incidentID, init);
      AdvancedNext(Fold(key, incidentID, init), last);
      LifecycleSnoc(init, last);
    } else {
      assert RunOf(signals, 1, Unhealthy) == 0;
    }
  }

  lemma AdvancedByIncident(a: Record, b: Record, s: Signal)
    requires a.incident == b.incident && a.phase == b.phase
    ensures Advanced(a, s).incident == Advanced(b, s).incident && Advanced(a, s).phase == Advanced(b, s).phase
  {
  }

  lemma NormalizedDecisive(s: Signal)
    requires Normalized(s).Some?
    ensures var h := Normalized(s).value.observation.health; h == Healthy || h == Unhealthy
  {
  }

  /** In every run an incident is the fold of the signals its record took in, and so
      its state is the closed form of their reports. */
  lemma {:induction false} IncidentIsItsHistory(window: int, arrivals: seq<Arrival>, k: string)
    requires window > 0 && k in Run(window, arrivals)
    ensures var h, r := History(window, arrivals, k), Run(window, arrivals)[k];
            && h != [] && Decisive(h)
            && r.incident == Fold(k, r.incident.incidentID, h).incident
            && r.phase == Fold(k, r.incident.incidentID, h).phase
            && r.incident.state == Lifecycle(h)
  {
    hide Ingest, Inv, Normalized, Advanced, Lifecycle, AppendBounded;
    var init, last := arrivals[..|arrivals| - 1], arrivals[|arrivals| - 1];
    var b, b' := Run(window, init), Run(window, arrivals);
    ReachableInv(window, init);
    IngestFolds(b, last.signal, window, last.incidentID, k);
    SeenIsLast256(window, init, k);
    if Normalized(last.signal).Some? { NormalizedDecisive(last.signal); }
    var h := History(window, arrivals, k);
    if k in b {
      IncidentIsItsHistory(window, init, k);
      if b[k] != b'[k] {
        var s := Normalized(last.signal).value;
        var h0 := History(window, init, k);
        assert h == h0 + [s] && h[..|h| - 1] == h0;
        AdvancedByIncident(b[k], Fold(k, b[k].incident.incidentID, h0), s);
        AdvancedKeepsID(b[k], s);
      }
    } else {
      assert h == [Normalized(last.signal).value];
    }
    FoldIsLifecycle(k, b'[k].incident.incidentID, h);
  }

  lemma AdvancedKeepsID(r: Record, s: Signal)
    ensures Advanced(r, s).incident.incidentID == r.incident.incidentID
  {
  }

  /* ---- The active record ---- */

  lemma {:induction false} ScanLatest(b: Bucket, o: Observation, keys: seq<string>)
    requires IsSorted(keys) && forall k :: k in keys ==> k in b
    ensures match Scan(b, o, keys)
            case None => forall k :: k in keys ==> !Active(b[k], o)
            case Some(best) =>
              && best in keys && Active(b[best], o)
              && forall k :: k in keys && Active(b[k], o) && k != best ==>
                   || b[k].incident.openedAt < b[best].incident.openedAt
                   || (b[k].incident.openedAt == b[best].incident.openedAt && Less(best, k))
  {
    hide Active, Less;
    if keys != [] {
      var init, last := keys[..|keys| - 1], keys[|keys| - 1];
      assert IsSorted(init) by {
        forall i, j | 0 <= i < j < |init| ensures Less(init[i], init[j]) { assert Less(keys[i], keys[j]); }
      }
      ScanLatest(b, o, init);
      forall k | k in init ensures Less(k, last) {
        var i :| 0 <= i < |init| && init[i] == k;
        assert Less(keys[i], keys[|keys| - 1]);
      }
      assert forall k :: k in keys ==> k in init || k == last;
    }
  }

  /** A healthy signal without a record of its own goes to the most recently opened
      active incident of its target and rule, and to the first key among equals;
      it is ignored exactly when there is none. */
  lemma FindActiveIsLatest(b: Bucket, o: Observation)
    ensures match FindActive(b, o)
            case None => ActiveKeys(b, o) == {}
            case Some(k) => IsLatest(b, o, k)
    ensures forall k :: IsLatest(b, o, k) ==> FindActive(b, o) == Some(k)
  {
    hide Active, Less, IsSorted;
    ScanLatest(b, o, SortedKeys(b.Keys));
    forall k | IsLatest(b, o, k) ensures FindActive(b, o) == Some(k) {
      assert ActiveKeys(b, o) != {};
      LatestUnique(b, o, k, FindActive(b, o).value);
    }
  }

  /* ---- Replays ---- */

  /** A signal that its own record still lists changes nothing, in any bucket. */
  lemma ListedIsDuplicate(b: Bucket, signal: Signal, window: int, incidentID: string)
    requires window > 0 && Normalized(signal).Some?
    requires var key := DedupeKey(signal.observation, window);
             key in b && ValidRecord(b[key]) && InputOf(Normalized(signal).value) in b[key].seen
    ensures Ingest(b, signal, window, incidentID) ==
            Ingested(b, Ok(Answer(Some(b[DedupeKey(signal.observation, window)].incident), true, false)))
  {
    NormalizedTime(signal);
  }

  /** The signal has no record of its own, is healthy, and would be routed to an
      active incident that has not seen it. */
  predicate RoutedAnew(b: Bucket, s: Signal, window: int)
    requires window > 0
  {
    && DedupeKey(s.observation, window) !in b
    && s.observation.health == Healthy
    && FindActive(b, s.observation).Some?
    && InputOf(s) !in b[FindActive(b, s.observation).value].seen
  }

  lemma RoutedAgainIff(b: Bucket, signal: Signal, window: int, incidentID: string, incidentID': string)
    requires window > 0 && Inv(b) && Normalized(signal).Some?
    requires Ingest(b, signal, window, incidentID).answer.Ok?
    ensures var b' := Ingest(b, signal, window, incidentID).bucket;
            Ingest(b', signal, window, incidentID').bucket != b' <==> RoutedAnew(b', Normalized(signal).value, window)
  {
    hide Normalized, DedupeKey, Updated, FindActive, InputOf, Moves, Ingest, Inv, ValidRecord;
    NormalizedTime(signal);
    IngestKeeps(b, signal, window, incidentID);
    IngestSees(b, signal, window, incidentID);
    AgainChangesIff(Ingest(b, signal, window, incidentID).bucket, signal, window, incidentID');
  }

  /** The active record depends only on which records are active and when they were
      opened. */
  lemma SameActive(b: Bucket, b': Bucket, o: Observation)
    requires ActiveKeys(b, o) == ActiveKeys(b', o)
    requires forall k :: k in ActiveKeys(b, o) ==> b[k].incident.openedAt == b'[k].incident.openedAt
    ensures FindActive(b, o) == FindActive(b', o)
  {
    hide FindActive, Active, Less;
    FindActiveIsLatest(b, o);
    FindActiveIsLatest(b', o);
    if FindActive(b, o).Some? {
      assert IsLatest(b', o, FindActive(b, o).value);
    }
  }

  /** The signal has no record of its own and is healthy; it ends the active
      incident it is routed to; and the next active incident in line has not
      seen it either. */
  predicate EndsAndMovesOn(b: Bucket, s: Signal, window: int)
    requires window > 0
  {
    && DedupeKey(s.observation, window) !in b
    && s.observation.health == Healthy
    && FindActive(b, s.observation).Some?
    && var k := FindActive(b, s.observation).value;
    && InputOf(s) !in b[k].seen
    && Advanced(b[k], s).phase == Terminal
    && FindActive(b - {k}, s.observation).Some?
    && InputOf(s) !in b[FindActive(b - {k}, s.observation).value].seen
  }

  lemma AdvancedActive(r: Record, r': Record, s: Signal)
    requires r'.incident == Advanced(r, s).incident && r'.phase == Advanced(r, s).phase && Active(r, s.observation)
    ensures Active(r', s.observation) <==> r'.phase != Terminal
    ensures r'.incident.openedAt == r.incident.openedAt
  {
  }

  /** Where the same signal is routed after it was folded into the active record. */
  lemma RoutedNext(b: Bucket, b': Bucket, s: Signal, k: string)
    requires FindActive(b, s.observation) == Some(k) && k in b' && b' == b[k := b'[k]]
    requires b'[k].incident == Advanced(b[k], s).incident && b'[k].phase == Advanced(b[k], s).phase
    ensures FindActive(b', s.observation) ==
            if Advanced(b[k], s).phase == Terminal then FindActive(b - {k}, s.observation) else Some(k)
  {
    var o := s.observation;
    FindActiveIsLatest(b, o);
    hide FindActive, Advanced;
    assert Active(b[k], o);
    AdvancedActive(b[k], b'[k], s);
    hide Active;
    if Advanced(b[k], s).phase == Terminal {
      assert ActiveKeys(b', o) == ActiveKeys(b - {k}, o);
      SameActive(b', b - {k}, o);
    } else {
      assert ActiveKeys(b', o) == ActiveKeys(b, o);
      SameActive(b', b, o);
    }
  }

  /** Ingesting a signal a second time in a row changes something exactly when the
      first time it ends an incident of another window that has not seen it, and
      the next active incident of its target and rule has not seen it either. */
  lemma ReplayChangesIff(b: Bucket, signal: Signal, window: int, incidentID: string, incidentID': string)
    requires window > 0 && Inv(b) && Normalized(signal).Some?
    requires Ingest(b, signal, window, incidentID).answer.Ok?
    ensures var b' := Ingest(b, signal, window, incidentID).bucket;
            Ingest(b', signal, window, incidentID').bucket != b' <==>
                EndsAndMovesOn(b, Normalized(signal).value, window)
  {
    hide Normalized, DedupeKey, Updated, FindActive, InputOf, Moves, Inv, ValidRecord, Advanced, AppendBounded, Blank;
    RoutedAgainIff(b, signal, window, incidentID, incidentID');
    IngestSees(b, signal, window, incidentID);
    NormalizedTime(signal);
    var s := Normalized(signal).value;
    var b', key := Ingest(b, signal, window, incidentID).bucket, DedupeKey(s.observation, window);
    if key in b {
      UpdatedOK(b, key, s);
    } else if s.observation.health == Healthy && FindActive(b, s.observation).Some? {
      var k := FindActive(b, s.observation).value;
      UpdatedOK(b, k, s);
      if InputOf(s) !in b[k].seen {
        RoutedNext(b, b', s, k);
        AppendedLast(b[k].seen, InputOf(s));
      }
    }
  }

  lemma AppendedLast(inputs: seq<Input>, input: Input)
    ensures input in AppendBounded(inputs, input)
  {
    var all := AppendBounded(inputs, input);
    assert all[|all| - 1] == input;
  }

  lemma AgainChangesIff(b: Bucket, signal: Signal, window: int, incidentID: string)
    requires window > 0 && Inv(b) && Normalized(signal).Some?
    requires var key := DedupeKey(signal.observation, window);
             && (key in b ==> InputOf(Normalized(signal).value) in b[key].seen)
             && (key !in b ==> signal.observation.health == Healthy)
    ensures Ingest(b, signal, window, incidentID).bucket != b <==> RoutedAnew(b, Normalized(signal).value, window)
  {
    assert Readable(b) by { forall k | k in b ensures ValidRecord(b[k]) { assert RecordOK(k, b[k]); } }
    hide Normalized, DedupeKey, Updated, FindActive, InputOf, Moves, AppendBounded, ValidRecord;
    NormalizedTime(signal);
    var s := Normalized(signal).value;
    var key := DedupeKey(s.observation, window);
    if key in b {
      UpdatedOK(b, key, s);
    } else if FindActive(b, s.observation).Some? {
      var k := FindActive(b, s.observation).value;
      UpdatedOK(b, k, s);
      if InputOf(s) !in b[k].seen { GrowsSeen(b[k], s); }
    }
  }

  lemma GrowsSeen(r: Record, s: Signal)
    requires ValidRecord(r) && InputOf(s) !in r.seen
    ensures AppendBounded(r.seen, InputOf(s)) != r.seen
  {
    var seen := AppendBounded(r.seen, InputOf(s));
    assert seen[|seen| - 1] == InputOf(s);
  }

  /** A signal that gets a record of its own is listed there. */
  lemma IngestSees(b: Bucket, signal: Signal, window: int, incidentID: string)
    requires window > 0 && Inv(b) && Normalized(signal).Some?
    requires Ingest(b, signal, window, incidentID).answer.Ok?
    ensures var b', key := Ingest(b, signal, window, incidentID).bucket, DedupeKey(signal.observation, window);
            && (key in b' ==> InputOf(Normalized(signal).value) in b'[key].seen)
            && (key !in b' ==> signal.observation.health == Healthy)
  {
    hide Normalized, DedupeKey, Updated, FindActive, InputOf, Moves, Blank, Inv, ValidRecord, Advanced, AppendBounded,
      Readable;
    NormalizedTime(signal);
    var s := Normalized(signal).value;
    var key := DedupeKey(s.observation, window);
    if key in b {
      UpdatedOK(b, key, s);
      AppendedLast(b[key].seen, InputOf(s));
    } else if s.observation.health == Healthy && FindActive(b, s.observation).Some? {
      UpdatedOK(b, FindActive(b, s.observation).value, s);
    }
  }

  /* ---- Dedupe keys ---- */

  lemma AfterSlash(a: string, x: string)
    requires SlashFree(x)
    ensures forall i :: |a| < i < |a + "/" + x| ==> (a + "/" + x)[i] != '/'
  {
    var s := a + "/" + x;
    forall i | |a| < i < |s| ensures s[i] != '/' {
      assert s[i] == x[i - |a| - 1];
    }
  }

  lemma LastSlash(a: string, x: string, b: string, y: string)
    requires SlashFree(x) && SlashFree(y) && a + "/" + x == b + "/" + y
    ensures a == b && x == y
  {
    var s := a + "/" + x;
    AfterSlash(a, x);
    AfterSlash(b, y);
    assert s[|a|] == '/' && s[|b|] == '/';
    assert |a| == |b|;
    assert a == s[..|a|] && b == s[..|b|];
    assert x == s[|a| + 1..] && y == s[|b| + 1..];
  }

  lemma ItoaInjective(m: int, n: int)
    requires J.Itoa(m) == J.Itoa(n)
    ensures m == n
  {
    if m >= 0 { ParseFormat(m); }
    if n >= 0 { ParseFormat(n); }
    if m < 0 { ParseFormat(-m); assert J.Itoa(m)[1..] == Format(-m) && J.Itoa(m)[0] == '-'; }
    if n < 0 { ParseFormat(-n); assert J.Itoa(n)[1..] == Format(-n) && J.Itoa(n)[0] == '-'; }
    assert IsDigit('0') && !IsDigit('-');
    assert m >= 0 ==> IsDigit(J.Itoa(m)[0]);
    assert n >= 0 ==> IsDigit(J.Itoa(n)[0]);
  }

  lemma ItoaSlashFree(n: int)
    ensures SlashFree(J.Itoa(n))
  {
    if n >= 0 { ParseFormat(n); } else { ParseFormat(-n); }
    assert !IsDigit('/');
  }

  /** The part of a dedupe key that names the rule. */
  function RuleName(o: Observation): string {
    o.targetID + "/" + o.ruleID
  }

  function WindowName(o: Observation, window: int): string
    requires window > 0
  {
    J.Itoa(WindowStart(o.observedAt, window) - W.EPOCH * SECOND)
  }

  lemma SameWindow(s: Time, t: Time, window: int)
    requires window > 0
    ensures WindowStart(s, window) == WindowStart(t, window) <==> s / window == t / window
  {
    assert WindowStart(s, window) == s / window * window && WindowStart(t, window) == t / window * window;
    if WindowStart(s, window) == WindowStart(t, window) {
      assert (s / window - t / window) * window == 0;
    }
  }

  /** Whatever the identifiers hold, observations share a record exactly when their
      windows agree and their targets and rules read the same joined by a slash:
      the window is the text after the last slash. */
  lemma DedupeKeysAgreeIff(a: Observation, b: Observation, window: int)
    requires window > 0
    ensures DedupeKey(a, window) == DedupeKey(b, window) <==>
            && RuleName(a) == RuleName(b)
            && a.observedAt / window == b.observedAt / window
  {
    SameWindow(a.observedAt, b.observedAt, window);
    assert DedupeKey(a, window) == RuleName(a) + "/" + WindowName(a, window);
    assert DedupeKey(b, window) == RuleName(b) + "/" + WindowName(b, window);
    ItoaSlashFree(WindowStart(a.observedAt, window) - W.EPOCH * SECOND);
    ItoaSlashFree(WindowStart(b.observedAt, window) - W.EPOCH * SECOND);
    if DedupeKey(a, window) == DedupeKey(b, window) {
      LastSlash(RuleName(a), WindowName(a, window), RuleName(b), WindowName(b, window));
      ItoaInjective(WindowStart(a.observedAt, window) - W.EPOCH * SECOND,
          WindowStart(b.observedAt, window) - W.EPOCH * SECOND);
    }
  }

  /** Registered target identifiers hold no slash, and then a shared record means
      the same target, rule and window, whatever the rule identifiers hold. */
  lemma DedupeKeyInjective(a: Observation, b: Observation, window: int)
    requires window > 0 && SlashFree(a.targetID) && SlashFree(b.targetID)
    ensures DedupeKey(a, window) == DedupeKey(b, window) <==>
            && a.targetID == b.targetID && a.ruleID == b.ruleID
            && a.observedAt / window == b.observedAt / window
  {
    DedupeKeysAgreeIff(a, b, window);
    if RuleName(a) == RuleName(b) {
      FirstSlash(a.targetID, a.ruleID, b.targetID, b.ruleID);
    }
  }

  /** A slash in a target identifier lets different rules share a record. Only a
      direct call can pass one: registration refuses it. */
  lemma DedupeKeysCollide(t: Time, window: int)
    requires window > 0
    ensures DedupeKey(Observation(V1, "o", "a/b", "c", t, Unhealthy), window)
         == DedupeKey(Observation(V1, "o", "a", "b/c", t, Unhealthy), window)
  {
    var o, p := Observation(V1, "o", "a/b", "c", t, Unhealthy), Observation(V1, "o", "a", "b/c", t, Unhealthy);
    assert RuleName(o) == "a/b/c" == RuleName(p);
    DedupeKeysAgreeIff(o, p, window);
  }

  /* ---- A replay that does change something ---- */

  /** The default window, and a time in each of three windows in a row. */
  const WINDOW: int := 300 * SECOND
  const T1: Time := W.EPOCH * SECOND + SECOND
  const T2: Time := T1 + WINDOW
  const T3: Time := T2 + WINDOW

  function At(t: Time, health: Health): Observation {
    Observation(V1, if health == Healthy then "h" else "u", "a", "b", t, health)
  }

  function Seen(t: Time, health: Health): Signal {
    Signal("observer", "", Warning, At(t, health))
  }

  function KeyAt(t: Time): string {
    DedupeKey(At(t, Unhealthy), WINDOW)
  }

  function CandidateAt(t: Time): Record {
    NewCandidate(Seen(t, Unhealthy), KeyAt(t), "i")
  }

  /** Two failures in different windows, then a recovery in a third. */
  const REPLAYED: seq<Arrival> := [Arrival(Seen(T1, Unhealthy), "i"), Arrival(Seen(T2, Unhealthy), "i")]
  const RECOVERY := Seen(T3, Healthy)

  lemma Plain(t: Time, health: Health)
    requires t != ZERO_TIME && (health == Healthy || health == Unhealthy)
    ensures Normalized(Seen(t, health)) == Some(Seen(t, health))
  {
    var s := Seen(t, health);
    assert !IsSpace('h') && !IsSpace('u') && !IsSpace('a') && !IsSpace('b') && !IsSpace('o');
    assert "h"[0] == 'h' && "u"[0] == 'u' && "a"[0] == 'a' && "b"[0] == 'b' && "observer"[0] == 'o';
    hide IsSpace;
    assert !Blank(s.observation.observationID) && !Blank("a") && !Blank("b") && !Blank("observer");
  }

  lemma KeysDiffer(s: Time, t: Time, health: Health)
    requires s / WINDOW != t / WINDOW
    ensures KeyAt(s) != DedupeKey(At(t, health), WINDOW)
  {
    DedupeKeyInjective(At(s, Unhealthy), At(t, health), WINDOW);
  }

  lemma Opens(b: Bucket, t: Time)
    requires t != ZERO_TIME && KeyAt(t) !in b
    ensures Ingest(b, Seen(t, Unhealthy), WINDOW, "i").bucket == b[KeyAt(t) := CandidateAt(t)]
  {
    Plain(t, Unhealthy);
    assert !IsSpace("i"[0]) && !IsSpace("a"[0]);
    assert !Blank("i") && !Blank("a");
    DedupeKeyNonEmpty(At(t, Unhealthy), WINDOW);
    hide Normalized, DedupeKey, IsSpace, Blank;
    CandidateOK(Seen(t, Unhealthy), KeyAt(t), "i");
  }

  lemma TwoOpen()
    ensures KeyAt(T1) != KeyAt(T2)
    ensures Run(WINDOW, REPLAYED) == map[KeyAt(T1) := CandidateAt(T1), KeyAt(T2) := CandidateAt(T2)]
  {
    KeysDiffer(T1, T2, Unhealthy);
    Opens(map[], T1);
    Opens(map[KeyAt(T1) := CandidateAt(T1)], T2);
    hide Ingest, KeyAt, CandidateAt;
    assert REPLAYED[..1] == [REPLAYED[0]] && REPLAYED[..1][..0] == [];
    assert Run(WINDOW, REPLAYED[..1]) == map[KeyAt(T1) := CandidateAt(T1)];
  }

  const ENDED := Advanced(CandidateAt(T2).(seen := AppendBounded(CandidateAt(T2).seen, InputOf(RECOVERY))), RECOVERY)

  lemma RecordsThere()
    ensures Active(CandidateAt(T1), RECOVERY.observation) && Active(CandidateAt(T2), RECOVERY.observation)
    ensures CandidateAt(T1).incident.openedAt < CandidateAt(T2).incident.openedAt
    ensures InputOf(RECOVERY) !in CandidateAt(T1).seen && InputOf(RECOVERY) !in CandidateAt(T2).seen
    ensures !Active(ENDED, RECOVERY.observation)
  {
    hide DedupeKey;
  }

  /** Of two records, the later active one; or the only active one. */
  lemma LatestOfTwo(b: Bucket, o: Observation, k: string, l: string)
    requires b.Keys == {k, l} && Active(b[k], o)
    requires !Active(b[l], o) || b[l].incident.openedAt < b[k].incident.openedAt
    ensures FindActive(b, o) == Some(k)
  {
    FindActiveIsLatest(b, o);
    hide FindActive, Active, Less;
    assert IsLatest(b, o, k);
  }

  lemma EndsTheLater()
    ensures Ingest(Run(WINDOW, REPLAYED), RECOVERY, WINDOW, "").bucket ==
        map[KeyAt(T1) := CandidateAt(T1), KeyAt(T2) := ENDED]
    ensures Ingest(Run(WINDOW, REPLAYED), RECOVERY, WINDOW, "").answer.Ok?
  {
    hide Run, Normalized, KeyAt, DedupeKey, CandidateAt, Active, InputOf, FindActive, ValidRecord, Advanced,
      AppendBounded, Inv;
    RecordsThere();
    TwoOpen();
    ReachableInv(WINDOW, REPLAYED);
    Plain(T3, Healthy);
    KeysDiffer(T1, T3, Healthy);
    KeysDiffer(T2, T3, Healthy);
    var b := Run(WINDOW, REPLAYED);
    LatestOfTwo(b, RECOVERY.observation, KeyAt(T2), KeyAt(T1));
    UpdatesTo(b, KeyAt(T2));
    InvReadable(b);
  }

  lemma InvReadable(b: Bucket)
    requires Inv(b)
    ensures Readable(b)
  {
    hide ValidRecord;
    forall k | k in b ensures ValidRecord(b[k]) { assert RecordOK(k, b[k]); }
  }

  lemma UpdatesTo(b: Bucket, key: string)
    requires Inv(b) && key in b && InputOf(RECOVERY) !in b[key].seen
    ensures var u := Updated(b, key, b[key], RECOVERY);
            && u.answer.Ok?
            && u.bucket == b[key := Advanced(b[key].(seen := AppendBounded(b[key].seen, InputOf(RECOVERY))), RECOVERY)]
  {
    hide InputOf, AppendBounded, Advanced, Inv, ValidRecord;
    UpdatedOK(b, key, RECOVERY);
  }

  /** Replaying that recovery at once ends the earlier incident too. */
  lemma ReplayChangesAnother()
    ensures var b := Ingest(Run(WINDOW, REPLAYED), RECOVERY, WINDOW, "").bucket;
            Ingest(b, RECOVERY, WINDOW, "").bucket != b
  {
    hide Run, Normalized, KeyAt, DedupeKey, CandidateAt, Active, InputOf, FindActive, Ingest, Advanced,
      AppendBounded, Inv;
    EndsTheLater();
    RecordsThere();
    TwoOpen();
    ReachableInv(WINDOW, REPLAYED);
    Plain(T3, Healthy);
    KeysDiffer(T1, T3, Healthy);
    KeysDiffer(T2, T3, Healthy);
    var b := Ingest(Run(WINDOW, REPLAYED), RECOVERY, WINDOW, "").bucket;
    LatestOfTwo(b, RECOVERY.observation, KeyAt(T1), KeyAt(T2));
    RoutedAgainIff(Run(WINDOW, REPLAYED), RECOVERY, WINDOW, "", "");
  }
}
