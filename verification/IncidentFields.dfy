/** Where a signal goes and what an incident says about its signals, on the fields. */
module IncidentFields {
  import opened Text
  import opened Contract
  import opened Correlator
  import opened CorrelatorTheorems

  /* ---- Signals ---- */

  /** A signal is valid exactly when its observation is complete and decisive and its
      source, alert ID and severity are in order; an empty source is the observer, an
      empty severity a warning, and nothing else is changed. */
  lemma NormalizedIff(s: Signal)
    ensures Normalized(s).Some? <==>
            && s.observation.schema == V1
            && !Blank(s.observation.observationID) && !Blank(s.observation.targetID) && !Blank(s.observation.ruleID)
            && s.observation.observedAt != ZERO_TIME
            && (s.observation.health == Healthy || s.observation.health == Unhealthy)
            && (s.source == "" || (!Blank(s.source) && |s.source| <= 96))
            && |s.alertID| <= 128 && Trimmed(s.alertID)
            && s.severity != OtherSeverity
    ensures Normalized(s).Some? ==>
              Normalized(s).value == Signal(if s.source == "" then "observer" else s.source, s.alertID,
                                            if s.severity == NoSeverity then Warning else s.severity, s.observation)
  {
    assert !IsSpace("observer"[0]);
    assert !Blank("observer");
    hide IsSpace;
  }

  /** External alerts are the same input exactly when source and alert ID agree;
      observations, exactly when their IDs do. */
  lemma InputsAgreeIff(a: Signal, b: Signal)
    requires NulFree(a.source) && NulFree(b.source)
    requires NulFree(a.observation.observationID) && NulFree(b.observation.observationID)
    ensures InputOf(a) == InputOf(b) <==>
            if a.alertID != "" && b.alertID != "" then a.source == b.source && a.alertID == b.alertID
            else a.alertID == b.alertID && a.observation.observationID == b.observation.observationID
  {
    if a.alertID != "" { assert (a.source + "\0" + a.alertID)[|a.source|] == '\0'; }
    if b.alertID != "" { assert (b.source + "\0" + b.alertID)[|b.source|] == '\0'; }
    if a.alertID != "" && b.alertID != "" && InputOf(a) == InputOf(b) {
      FirstNul(a.source, a.alertID, b.source, b.alertID);
    }
  }

  /* ---- Routing ---- */

  /** An incident of this target and rule that was open when the observation was made. */
  predicate Concerns(b: Bucket, o: Observation, k: string) {
    && k in b && b[k].incident.state != Closed && b[k].incident.state != IncidentFailed
    && b[k].incident.targetID == o.targetID && b[k].incident.ruleIDs == [o.ruleID]
    && b[k].incident.openedAt <= o.observedAt
  }

  /** The latest of them, and the first key among those opened at the same time. */
  ghost predicate Latest(b: Bucket, o: Observation, k: string) {
    && Concerns(b, o, k)
    && forall other :: Concerns(b, o, other) && other != k ==>
         || b[other].incident.openedAt < b[k].incident.openedAt
         || (b[other].incident.openedAt == b[k].incident.openedAt && Less(k, other))
  }

  lemma ConcernsActive(b: Bucket, o: Observation, k: string)
    requires Inv(b)
    ensures Concerns(b, o, k) <==> k in ActiveKeys(b, o)
  {
    if k in b { assert RecordOK(k, b[k]); }
  }

  lemma LatestFound(b: Bucket, o: Observation)
    requires Inv(b)
    ensures match FindActive(b, o)
            case None => forall k :: !Concerns(b, o, k)
            case Some(k) => Latest(b, o, k)
    ensures forall k :: Latest(b, o, k) ==> FindActive(b, o) == Some(k)
  {
    FindActiveIsLatest(b, o);
    forall k ensures Concerns(b, o, k) <==> k in ActiveKeys(b, o) { ConcernsActive(b, o, k); }
    hide Concerns, FindActive, ActiveKeys, Less, Inv;
    forall k | Latest(b, o, k) ensures FindActive(b, o) == Some(k) { assert IsLatest(b, o, k); }
  }

  /** The signal changes this record exactly when it is new to it, and no other. */
  ghost predicate GoesTo(b: Bucket, out: Ingested, s: Signal, k: string) {
    && k in b && k in out.bucket && out.bucket == b[k := out.bucket[k]]
    && out.answer == Ok(Answer(Some(out.bucket[k].incident), InputOf(s) in b[k].seen, false))
    && (InputOf(s) in b[k].seen <==> out.bucket == b)
  }

  lemma UpdatedGoes(b: Bucket, s: Signal, k: string)
    requires Inv(b) && k in b && s.observation.observedAt != ZERO_TIME
    ensures GoesTo(b, Updated(b, k, b[k], s), s, k)
  {
    UpdatedOK(b, k, s);
    assert RecordOK(k, b[k]);
    if InputOf(s) !in b[k].seen { GrowsSeen(b[k], s); }
    hide InputOf, AppendBounded, Advanced, ValidRecord, Moves, Inv;
    assert b == b[k := b[k]];
  }

  /** Where a valid signal goes in every reachable bucket: to the record of its own
      target, rule and window if there is one; otherwise a failure opens a candidate,
      and a recovery goes to the latest open incident of its target and rule, or is
      ignored when there is none. */
  lemma {:induction false} RoutedTo(window: int, arrivals: seq<Arrival>, signal: Signal, incidentID: string)
    requires window > 0 && Normalized(signal).Some?
    ensures var b, o, s := Run(window, arrivals), signal.observation, Normalized(signal).value;
            var key, out := DedupeKey(o, window), Ingest(b, signal, window, incidentID);
            if key in b then GoesTo(b, out, s, key)
            else if o.health == Unhealthy then
              if Blank(incidentID) then out == Ingested(b, Err(InvalidOptions))
              else
                var incident :=
                  Incident(V1, incidentID, key, o.targetID, [o.ruleID], Open, s.severity, o.observedAt, NO_TIME);
                out == Ingested(b[key := Record(V1, Candidate, incident, [InputOf(s)])],
                                Ok(Answer(Some(incident), false, false)))
            else
              && ((forall k :: !Concerns(b, o, k)) ==> out == Ingested(b, Ok(Answer(None, false, true))))
              && (forall k :: Latest(b, o, k) ==> GoesTo(b, out, s, k))
  {
    ReachableInv(window, arrivals);
    NormalizedTime(signal);
    NormalizedDecisive(signal);
    var b, o, s := Run(window, arrivals), signal.observation, Normalized(signal).value;
    var key := DedupeKey(o, window);
    InvReadable(b);
    DedupeKeyNonEmpty(o, window);
    LatestFound(b, o);
    hide Run, Normalized, DedupeKey, Updated, InputOf, Inv, Blank, FindActive, GoesTo, Latest, Readable, Concerns;
    if key in b {
      UpdatedGoes(b, s, key);
      RecordValid(b, key);
    } else if o.health == Unhealthy {
      if !Blank(incidentID) { CandidateOK(s, key, incidentID); }
    } else if FindActive(b, o).Some? {
      UpdatedGoes(b, s, FindActive(b, o).value);
      LatestConcerns(b, o, FindActive(b, o).value);
    }
  }

  lemma RecordValid(b: Bucket, k: string)
    requires Inv(b) && k in b
    ensures ValidRecord(b[k])
  {
    hide ValidRecord;
    assert RecordOK(k, b[k]);
  }

  lemma LatestConcerns(b: Bucket, o: Observation, k: string)
    requires Latest(b, o, k)
    ensures Concerns(b, o, k)
  {
  }

  /* ---- The fields of an incident ---- */

  /** The number of signals up to and including the one that ended the incident. */
  function Span(signals: seq<Signal>): (n: nat)
    requires signals != []
    ensures 1 <= n <= |signals|
  {
    if |signals| == 1 then 1
    else
      var init := signals[..|signals| - 1];
      if TerminalIncident(Lifecycle(init)) then Span(init) else |signals|
  }

  ghost predicate Has(signals: seq<Signal>, severity: Severity) {
    exists i :: 0 <= i < |signals| && signals[i].severity == severity
  }

  /** The highest severity among the signals. */
  ghost predicate Highest(signals: seq<Signal>, severity: Severity) {
    && (severity == Critical <==> Has(signals, Critical))
    && (severity == Warning <==> Has(signals, Warning) && !Has(signals, Critical))
    && (severity == Info <==> Has(signals, Info) && !Has(signals, Warning) && !Has(signals, Critical))
  }

  predicate Known(s: Severity) {
    s == Info || s == Warning || s == Critical
  }

  lemma HasSnoc(signals: seq<Signal>, s: Signal, severity: Severity)
    ensures Has(signals + [s], severity) <==> Has(signals, severity) || s.severity == severity
  {
    var all := signals + [s];
    if Has(signals, severity) {
      var i :| 0 <= i < |signals| && signals[i].severity == severity;
      assert all[i].severity == severity;
    }
    assert all[|signals|] == s;
  }

  /** The fields of the fold. Only signals up to its end count. */
  ghost predicate FieldsAre(i: Incident, signals: seq<Signal>)
    requires signals != []
  {
    var n := Span(signals);
    && Highest(signals[..n], i.severity)
    && i.openedAt == signals[0].observation.observedAt
    && i.targetID == signals[0].observation.targetID && i.ruleIDs == [signals[0].observation.ruleID]
    && i.terminalAt == if TerminalIncident(Lifecycle(signals)) then signals[n - 1].observation.observedAt else NO_TIME
  }

  ghost predicate AllKnown(signals: seq<Signal>) {
    forall i :: 0 <= i < |signals| ==> Known(signals[i].severity)
  }

  lemma {:induction false} FoldFields(key: string, incidentID: string, signals: seq<Signal>)
    requires signals != [] && Decisive(signals) && AllKnown(signals)
    ensures FieldsAre(Fold(key, incidentID, signals).incident, signals)
    ensures Known(Fold(key, incidentID, signals).incident.severity)
    ensures !TerminalIncident(Lifecycle(signals)) ==> Span(signals) == |signals|
  {
    if |signals| == 1 {
      FirstFields(key, incidentID, signals);
    } else {
      var init, last := signals[..|signals| - 1], signals[|signals| - 1];
      assert init + [last] == signals;
      FoldFields(key, incidentID, init);
      FoldIsLifecycle(key, incidentID, init);
      LifecycleSnoc(init, last);
      FoldStep(key, incidentID, init, last);
      AdvancedNext(Fold(key, incidentID, init), last);
      SpanSnoc(init, last);
      hide Lifecycle, Fold, FieldsAre, Advanced, Span;
      var r := Fold(key, incidentID, init);
      if TerminalIncident(Lifecycle(init)) {
        OverStays(r, last);
        OverFields(r.incident, init, last);
      } else {
        OpenFields(r, init, last);
      }
    }
  }

  lemma {:induction false} FoldStep(key: string, incidentID: string, init: seq<Signal>, last: Signal)
    requires init != []
    ensures Fold(key, incidentID, init + [last]) == Advanced(Fold(key, incidentID, init), last)
  {
    assert (init + [last])[..|init|] == init;
  }

  lemma FirstFields(key: string, incidentID: string, signals: seq<Signal>)
    requires |signals| == 1 && AllKnown(signals)
    ensures FieldsAre(NewCandidate(signals[0], key, incidentID).incident, signals)
    ensures !TerminalIncident(Lifecycle(signals))
  {
    var s := signals[0];
    assert signals[..1] == [] + [s];
    HasSnoc([], s, Critical);
    HasSnoc([], s, Warning);
    HasSnoc([], s, Info);
    assert Lifecycle(signals) == Open;
  }

  /** What one more signal does to the fields of an incident that is not over. */
  lemma AdvancedFields(r: Record, s: Signal)
    requires PhaseMatches(r.phase, r.incident.state) && !TerminalIncident(r.incident.state)
    requires s.observation.health == Healthy || s.observation.health == Unhealthy
    requires Known(r.incident.severity) && Known(s.severity)
    ensures var i, i' := r.incident, Advanced(r, s).incident;
            && i'.openedAt == i.openedAt && i'.targetID == i.targetID && i'.ruleIDs == i.ruleIDs
            && i'.terminalAt == (if TerminalIncident(i'.state) then s.observation.observedAt else i.terminalAt)
            && (i'.severity == Critical <==> i.severity == Critical || s.severity == Critical)
            && (i'.severity == Info <==> i.severity == Info && s.severity == Info) && Known(i'.severity)
  {
  }

  lemma OverStays(r: Record, s: Signal)
    requires PhaseMatches(r.phase, r.incident.state) && TerminalIncident(r.incident.state)
    ensures Advanced(r, s) == r
  {
  }

  lemma {:induction false} SpanSnoc(init: seq<Signal>, last: Signal)
    requires init != []
    ensures Span(init + [last]) == if TerminalIncident(Lifecycle(init)) then Span(init) else |init| + 1
  {
    hide Lifecycle;
    assert (init + [last])[..|init|] == init;
  }

  lemma OverFields(i: Incident, init: seq<Signal>, last: Signal)
    requires init != [] && FieldsAre(i, init)
    requires TerminalIncident(Lifecycle(init)) && TerminalIncident(Lifecycle(init + [last]))
    ensures FieldsAre(i, init + [last])
  {
    hide Lifecycle, Highest;
    SpanSnoc(init, last);
    hide Span;
    var all := init + [last];
    assert all[..Span(init)] == init[..Span(init)] && all[0] == init[0] && all[Span(init) - 1] == init[Span(init) - 1];
  }

  lemma {:induction false} OpenFields(r: Record, init: seq<Signal>, last: Signal)
    requires init != [] && FieldsAre(r.incident, init) && Known(r.incident.severity) && Known(last.severity)
    requires PhaseMatches(r.phase, r.incident.state) && r.incident.state == Lifecycle(init)
    requires last.observation.health == Healthy || last.observation.health == Unhealthy
    requires !TerminalIncident(Lifecycle(init)) && Span(init) == |init|
    requires Lifecycle(init + [last]) == Advanced(r, last).incident.state
    ensures FieldsAre(Advanced(r, last).incident, init + [last]) && Known(Advanced(r, last).incident.severity)
  {
    AdvancedFields(r, last);
    SpanSnoc(init, last);
    hide Lifecycle, Advanced, Highest, Span;
    var all := init + [last];
    assert all[..|all|] == all && init[..|init|] == init && all[0] == init[0] && all[|init|] == last;
    HighestSnoc(init, last, r.incident.severity, Advanced(r, last).incident.severity);
  }

  lemma HighestSnoc(init: seq<Signal>, last: Signal, before: Severity, after: Severity)
    requires Highest(init, before) && Known(before) && Known(last.severity) && Known(after)
    requires after == Critical <==> before == Critical || last.severity == Critical
    requires after == Info <==> before == Info && last.severity == Info
    ensures Highest(init + [last], after)
  {
    HasSnoc(init, last, Critical);
    HasSnoc(init, last, Warning);
    HasSnoc(init, last, Info);
    hide Has;
  }

  lemma {:induction false} HistoryKnown(window: int, arrivals: seq<Arrival>, k: string)
    requires window > 0
    ensures AllKnown(History(window, arrivals, k))
  {
    hide Ingest;
    if arrivals != [] {
      var last := arrivals[|arrivals| - 1];
      HistoryKnown(window, arrivals[..|arrivals| - 1], k);
      if Normalized(last.signal).Some? {
        NormalizedIff(last.signal);
        hide Normalized, Run;
      }
    }
  }

  /** In every run an incident names the target, rule and time of the signal that
      opened it, the highest severity of the signals it took in until it ended, and
      the time of the one that ended it. */
  lemma {:induction false} IncidentSays(window: int, arrivals: seq<Arrival>, k: string)
    requires window > 0 && k in Run(window, arrivals)
    ensures var h, i := History(window, arrivals, k), Run(window, arrivals)[k].incident;
            && h != []
            && i.targetID == h[0].observation.targetID && i.ruleIDs == [h[0].observation.ruleID]
            && i.openedAt == h[0].observation.observedAt
            && Highest(h[..Span(h)], i.severity)
            && i.terminalAt == if TerminalIncident(i.state) then h[Span(h) - 1].observation.observedAt else NO_TIME
  {
    IncidentIsItsHistory(window, arrivals, k);
    HistoryKnown(window, arrivals, k);
    hide Run, History, Lifecycle, Fold, Span, Highest, Decisive, AllKnown;
    var h, i := History(window, arrivals, k), Run(window, arrivals)[k].incident;
    FoldFields(k, i.incidentID, h);
  }

  lemma {:induction false} FullSpan(signals: seq<Signal>)
    requires signals != [] && Decisive(signals) && !TerminalIncident(Lifecycle(signals))
    ensures Span(signals) == |signals|
  {
    if |signals| > 1 {
      var init, last := signals[..|signals| - 1], signals[|signals| - 1];
      assert init + [last] == signals;
      LifecycleSnoc(init, last);
    }
    hide Lifecycle;
  }

  /** The span ends at the first signal after which the incident is over. */
  lemma {:induction false} SpanIsFirst(signals: seq<Signal>, n: nat)
    requires signals != [] && Decisive(signals) && 1 <= n < Span(signals)
    ensures !TerminalIncident(Lifecycle(signals[..n]))
  {
    hide Lifecycle;
    var init := signals[..|signals| - 1];
    if n < |init| {
      assert init[..n] == signals[..n];
      if !TerminalIncident(Lifecycle(init)) { FullSpan(init); }
      SpanIsFirst(init, n);
    } else {
      assert signals[..n] == init;
    }
  }
}
