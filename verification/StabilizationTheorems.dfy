/** When a decided stabilization result is final, what a single `Verify` call does,
    and what is left after a crash between finalizing and persisting. */
module StabilizationTheorems {
  import opened Text
  import opened Contract
  import opened Stabilization
  import opened StabilizationRuns
  import J = Journal
  import R = Recovery
  import T = RecoveryTheorems

  /** The writes of the recovery protocol are the `Elsewhere` writes: every step
      of every recovery schedule is one. */
  lemma {:induction false} RecoveryIsElsewhere(s: State, labels: seq<R.Label>, l: R.Label)
    requires s.journal == R.Run(R.INIT, labels).store.journal
    ensures var j := R.Step(R.Run(R.INIT, labels), l).store.journal;
            Step(s, Elsewhere(j)) == s.(journal := j)
  {
    hide R.Step, J.WellFormed, J.Evolves;
    T.JournalRefines(labels, l);
    assert (labels + [l])[..|labels|] == labels;
    assert R.Run(R.INIT, labels + [l]) == R.Step(R.Run(R.INIT, labels), l);
    T.JournalRefines(labels + [l], l);
  }

  /* ---- Decided results ---- */

  predicate Decided(s: State, key: string) {
    key in s.results && s.results[key].outcome != StillPending
  }

  /** The call may still persist something under `key`. */
  predicate WorksOn(c: Call, key: string) {
    KeyOf(c.record) == key
  }

  lemma JudgedKeepsKey(q: Request, r: Record, now: Time, reading: Reading, retry: Option<RetryState>)
    ensures KeyOf(Judged(q, r, now, reading, retry)) == KeyOf(r)
  {
    hide Fault, RetryDecision, Deadline, ResultKey;
  }

  lemma BegunElsewhere(s: State, q: Request, now: Time, key: string)
    requires Inv(s) && Decided(s, key) && Begun(s.results, q, now).Some?
    ensures !WorksOn(Begun(s.results, q, now).value, key)
  {
    hide CallOK, J.WellFormed, ResultKey, ValidRequest, ValidResult;
  }

  /** A decided result is never touched again unless another call for the same
      command and attempt was already past its load. */
  lemma {:induction false} QuietIsFinal(s: State, labels: seq<Label>, key: string)
    requires Inv(s) && Decided(s, key)
    requires forall id :: id in s.calls ==> !WorksOn(s.calls[id], key)
    ensures var s' := Run(s, labels);
            && key in s'.results && s'.results[key] == s.results[key]
            && forall id :: id in s'.calls ==> !WorksOn(s'.calls[id], key)
  {
    hide Step, WorksOn, Inv;
    if labels != [] {
      var init := labels[..|labels| - 1];
      QuietIsFinal(s, init, key);
      RunKeeps(s, init);
      QuietStep(Run(s, init), labels[|labels| - 1], key);
    }
  }

  lemma QuietStep(s: State, l: Label, key: string)
    requires Inv(s) && Decided(s, key)
    requires forall id :: id in s.calls ==> !WorksOn(s.calls[id], key)
    ensures key in Step(s, l).results && Step(s, l).results[key] == s.results[key]
    ensures forall id :: id in Step(s, l).calls ==> !WorksOn(Step(s, l).calls[id], key)
  {
    hide Inv, Begun, J.WellFormed, J.Evolves, Judged, KeyOf, J.FindByCommandID, J.UpdateRecord, ValidToken, Verdict,
      ValidResult, Terminal;
    match l
    case Begin(id, q, now) => if Begun(s.results, q, now).Some? { BegunElsewhere(s, q, now, key); }
    case Judge(id, reading, retry) =>
      if id in s.calls && s.calls[id].Probing? {
        var c := s.calls[id];
        assert !WorksOn(c, key);
        JudgedKeepsKey(c.request, c.record, c.now, reading, retry);
      }
    case _ =>
      if !l.Elsewhere? && !l.Crash? && l.id in s.calls {
        assert !WorksOn(s.calls[l.id], key);
      }
  }

  /* ---- The race that turns a decided result back into a pending one ---- */

  /** The call can still persist a pending record: it is about to, or it was
      loaded in time with a sample count that leaves room for one more. */
  predicate CanRevert(c: Call, key: string) {
    && WorksOn(c, key)
    && match c
       case Saving(r) => r.outcome == StillPending && ValidResult(r)
       case Probing(q, r, now) =>
         && now <= Deadline(q, r) && r.healthySamples < MAX_SAMPLES
         && !(r.healthySamples + 1 >= q.samples && now >= Deadline(q, r))
       case _ => false
  }

  ghost predicate Racing(s: State, key: string) {
    exists id :: id in s.calls && CanRevert(s.calls[id], key)
  }

  lemma JudgedReverts(q: Request, r: Record, now: Time, reading: Reading, retry: Option<RetryState>, key: string)
    requires ValidRequest(q) && Undecided(q, r)
    ensures CanRevert(AfterJudging(Judged(q, r, now, reading, retry)), key) ==> CanRevert(Probing(q, r, now), key)
  {
    JudgedKeepsKey(q, r, now, reading, retry);
    JudgedValidIff(q, r, now, reading, retry);
    hide ValidResult, RetryDecision, KeyOf, MeetsRules, ValidSample, ValidRequest;
  }

  lemma RaceStep(s: State, l: Label, key: string)
    requires Inv(s) && Decided(s, key) && !Racing(s, key)
    ensures Decided(Step(s, l), key) && !Racing(Step(s, l), key)
  {
    hide J.WellFormed, J.Evolves, StoredOK, Judged, CanRevert, Begun, J.FindByCommandID, J.UpdateRecord, ValidToken,
      AfterJudging, Verdict, Terminal;
    forall id | id in Step(s, l).calls ensures !CanRevert(Step(s, l).calls[id], key) {
      CallStep(s, l, key, id);
    }
    if l.Save? && l.id in s.calls && s.calls[l.id].Saving? {
      SavedDecided(s, l.id, key);
    }
  }

  lemma SavedDecided(s: State, id: nat, key: string)
    requires Decided(s, key) && !Racing(s, key) && id in s.calls && s.calls[id].Saving?
    ensures var results := Saved(s.results, s.calls[id].record);
            key in results && results[key].outcome != StillPending
  {
    hide ValidResult, KeyOf;
    assert !CanRevert(s.calls[id], key);
  }

  lemma CallStep(s: State, l: Label, key: string, id: nat)
    requires Inv(s) && Decided(s, key) && !Racing(s, key)
    requires id in Step(s, l).calls
    ensures !CanRevert(Step(s, l).calls[id], key)
  {
    hide J.WellFormed, J.Evolves, StoredOK, Judged, CanRevert, Begun, J.FindByCommandID, J.UpdateRecord, ValidToken,
      AfterJudging, Terminal, Saved, ValidResult, Undecided, ValidRequest;
    if id in s.calls && Step(s, l).calls[id] == s.calls[id] {
      assert !CanRevert(s.calls[id], key);
    } else if l.Begin? {
      BegunElsewhere(s, l.request, l.now, key);
      NotWorkingNoRevert(Step(s, l).calls[id], key);
    } else if l.Judge? {
      var c := s.calls[id];
      assert CallOK(s.journal, c) && !CanRevert(c, key);
      JudgedReverts(c.request, c.record, c.now, l.reading, l.retry, key);
      ProbingOnly(c);
    } else {
      NoRevertAfterVerdict(s, l, key, id);
    }
  }

  lemma ProbingOnly(c: Call)
    requires c.Probing?
    ensures Probing(c.request, c.record, c.now) == c
  {
  }

  lemma NotWorkingNoRevert(c: Call, key: string)
    requires !WorksOn(c, key)
    ensures !CanRevert(c, key)
  {
  }

  lemma NoRevertAfterVerdict(s: State, l: Label, key: string, id: nat)
    requires Inv(s) && id in Step(s, l).calls && !l.Begin? && !l.Judge?
    requires !(id in s.calls && Step(s, l).calls[id] == s.calls[id])
    ensures !CanRevert(Step(s, l).calls[id], key)
  {
    hide J.WellFormed, J.Evolves, StoredOK, J.FindByCommandID, J.UpdateRecord, ValidToken, Terminal, ValidResult, KeyOf;
  }

  /* ---- ... and the schedule that makes it happen ---- */

  lemma ProbingReverts(q: Request, r: Record, now: Time, key: string)
    requires CanRevert(Probing(q, r, now), key) && ValidRequest(q) && Undecided(q, r)
    ensures CanRevert(AfterJudging(Judged(q, r, now, ReadingFor(q), None)), key)
    ensures AfterJudging(Judged(q, r, now, ReadingFor(q), None)).Saving?
  {
    HealthyMeets(q.target.probeRules);
    hide MeetsRules, ValidSample, HealthyMetrics;
    JudgedValidIff(q, r, now, ReadingFor(q), None);
    JudgedKeepsKey(q, r, now, ReadingFor(q), None);
    hide ValidResult, KeyOf, ValidRequest;
  }

  ghost predicate Reverted(s: State, key: string) {
    key in s.results && s.results[key].outcome == StillPending
  }

  lemma {:induction false} RunTwo(s: State, a: Label, b: Label)
    ensures Run(s, [a, b]) == Step(Step(s, a), b)
  {
    hide Step;
    assert [a, b][..1] == [a] && [a][..0] == [];
    assert Run(s, [a]) == Step(Run(s, []), a);
  }

  /** A pending record saved by a racing call replaces the decided one. */
  lemma SaveReverts(s: State, id: nat, key: string)
    requires id in s.calls && s.calls[id].Saving? && CanRevert(s.calls[id], key)
    ensures Reverted(Step(s, Save(id)), key)
  {
    hide ValidResult, KeyOf;
  }

  lemma RaceReverts(s: State, id: nat, key: string) returns (labels: seq<Label>)
    requires Inv(s) && id in s.calls && CanRevert(s.calls[id], key)
    ensures Reverted(Run(s, labels), key)
  {
    var c := s.calls[id];
    assert CallOK(s.journal, c);
    hide Inv, Judged, AfterJudging, ValidRequest, Undecided, ReadingFor, KeyOf, Deadline, ValidResult, Reverted;
    if c.Saving? {
      labels := [Save(id)];
      SaveReverts(s, id, key);
      assert labels[..0] == [];
    } else {
      ProbingReverts(c.request, c.record, c.now, key);
      ProbingOnly(c);
      hide CanRevert;
      var judge := Judge(id, ReadingFor(c.request), None);
      labels := [judge, Save(id)];
      RunTwo(s, judge, Save(id));
      SaveReverts(Step(s, judge), id, key);
    }
  }

  /** A decided result can turn back into a pending one exactly when a call for
      the same command and attempt is racing: it loaded its record before the
      decision and is still in a position to persist a pending one. */
  lemma {:induction false} RevertsIff(s: State, key: string)
    requires Inv(s) && Decided(s, key)
    ensures (exists labels :: Reverted(Run(s, labels), key)) <==> Racing(s, key)
  {
    hide Inv, CanRevert, Run;
    if Racing(s, key) {
      var id :| id in s.calls && CanRevert(s.calls[id], key);
      var labels := RaceReverts(s, id, key);
    }
    if !Racing(s, key) {
      forall labels ensures !Reverted(Run(s, labels), key) { StaysDecided(s, labels, key); }
    }
  }

  lemma {:induction false} StaysDecided(s: State, labels: seq<Label>, key: string)
    requires Inv(s) && Decided(s, key) && !Racing(s, key)
    ensures Decided(Run(s, labels), key) && !Racing(Run(s, labels), key)
  {
    hide Step, Inv, Racing, Decided;
    if labels != [] {
      var init := labels[..|labels| - 1];
      StaysDecided(s, init, key);
      RunKeeps(s, init);
      RaceStep(Run(s, init), labels[|labels| - 1], key);
    }
  }
}
