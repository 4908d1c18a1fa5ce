/** One `Verify` call run to its end: the verifier updating its two buckets in place,
    its meaning as a function, and what a rerun after a crash can still do. */
module Verifier {
  import opened Text
  import opened Contract
  import opened Stabilization
  import opened StabilizationRuns
  import J = Journal

  datatype Verified = Verified(journal: J.Bucket, results: Results, answer: Result<Record, Error>)

  /** The journal once the command is finalized; `None` when that failed. */
  function Finalized(j: J.Bucket, r: Record): Option<J.Bucket> {
    if Verdict(r) == None then Some(j)
    else match Found(j, r)
      case None => None
      case Some(c) =>
        if !c.Completing? then Some(j)
        else match J.UpdateRecord(j, c.key, J.Complete(Terminal(Verdict(r).value)))
          case Err(_) => None
          case Ok(u) => Some(u.journal)
  }

  predicate RetryLost(q: Request, r: Record, now: Time, reading: Reading, retry: Option<RetryState>) {
    Fault(q, r, now, reading) != NoFailure && q.attempt + 1 < q.maxAttempts && retry == None
  }

  function VerifyOnce(j: J.Bucket, results: Results, q: Request, now: Time, reading: Reading,
                      retry: Option<RetryState>): Verified {
    if !ValidRequest(q) then Verified(j, results, Err(InvalidRequest))
    else if now == ZERO_TIME then Verified(j, results, Err(InvalidOptions))
    else match Load(results, q.command.commandID, q.attempt)
      case Err(e) => Verified(j, results, Err(e))
      case Ok(None) => Attempted(j, results, q, Fresh(q, now), now, reading, retry)
      case Ok(Some(r)) =>
        if r.outcome != StillPending then Verified(j, results, Ok(r))
        else Attempted(j, results, q, r, now, reading, retry)
  }

  function Attempted(j: J.Bucket, results: Results, q: Request, r: Record, now: Time, reading: Reading,
                     retry: Option<RetryState>): Verified
  {
    var judged := Judged(q, r, now, reading, retry);
    match Finalized(j, judged)
    case None => Verified(j, results, Err(Unfinalized))
    case Some(j') =>
      if !ValidResult(judged) then Verified(j', results, Err(CorruptResult))
      else Verified(j', Saved(results, judged),
                    if RetryLost(q, r, now, reading, retry) then Err(RetryUnavailable(judged)) else Ok(judged))
  }

  class Verifier {
    var journal: J.Bucket
    var results: Results

    constructor (journal: J.Bucket)
      ensures this.journal == journal && results == map[]
    {
      this.journal, results := journal, map[];
    }

    /** Records the terminal outcome in the journal, idempotently. */
    method Complete(r: Record) returns (ok: bool)
      requires Verdict(r).Some?
      modifies this`journal
      ensures ok <==> Finalized(old(journal), r).Some?
      ensures journal == if ok then Finalized(old(journal), r).value else old(journal)
    {
      hide J.FindByCommandID, J.UpdateRecord, ValidToken, Verdict, Terminal;
      var next := Found(journal, r);
      if next == None {
        return false;
      }
      if next.value.Saving? {
        return true;
      }
      var updated := J.UpdateRecord(journal, next.value.key, J.Complete(Terminal(Verdict(r).value)));
      if updated.Err? {
        return false;
      }
      journal := updated.value.journal;
      ok := true;
    }

    method Persist(r: Record) returns (ok: bool)
      modifies this`results
      ensures ok <==> ValidResult(r)
      ensures results == Saved(old(results), r)
    {
      if !ValidResult(r) {
        return false;
      }
      results := results[KeyOf(r) := r];
      ok := true;
    }

    method Verify(q: Request, now: Time, reading: Reading, retry: Option<RetryState>) returns (r: Result<Record, Error>)
      modifies this
      ensures Verified(journal, results, r) == VerifyOnce(old(journal), old(results), q, now, reading, retry)
    {
      hide ValidRequest, ValidResult, Found, Judged, Verdict;
      if !ValidRequest(q) {
        return Err(InvalidRequest);
      }
      if now == ZERO_TIME {
        return Err(InvalidOptions);
      }
      var loaded := Load(results, q.command.commandID, q.attempt);
      if loaded.Err? {
        return Err(loaded.error);
      }
      if loaded.value.Some? && loaded.value.value.outcome != StillPending {
        return Ok(loaded.value.value);
      }
      var record := if loaded.value.Some? then loaded.value.value else Fresh(q, now);
      var judged := Judged(q, record, now, reading, retry);
      if Verdict(judged).Some? {
        var completed := Complete(judged);
        if !completed {
          return Err(Unfinalized);
        }
      }
      var persisted := Persist(judged);
      if !persisted {
        return Err(CorruptResult);
      }
      if RetryLost(q, record, now, reading, retry) {
        return Err(RetryUnavailable(judged));
      }
      r := Ok(judged);
    }
  }

  /* ---- The call is its own uninterrupted schedule ---- */

  function Uninterrupted(id: nat, q: Request, now: Time, reading: Reading, retry: Option<RetryState>): seq<Label> {
    [Begin(id, q, now), Judge(id, reading, retry), Find(id), Complete(id), Save(id)]
  }

  ghost function Steps(s: State, id: nat, q: Request, now: Time, reading: Reading, retry: Option<RetryState>): State {
    Step(Step(Step(Step(Step(s, Begin(id, q, now)), Judge(id, reading, retry)), Find(id)), Complete(id)), Save(id))
  }

  lemma {:induction false} RunFive(s: State, a: Label, b: Label, c: Label, d: Label, e: Label)
    ensures Run(s, [a, b, c, d, e]) == Step(Step(Step(Step(Step(s, a), b), c), d), e)
  {
    hide Step;
    assert [a, b, c, d, e][..4] == [a, b, c, d] && [a, b, c, d][..3] == [a, b, c] && [a, b, c][..2] == [a, b];
    assert [a, b][..1] == [a] && [a][..0] == [];
    assert Run(s, [a]) == Step(s, a);
    assert Run(s, [a, b]) == Step(Run(s, [a]), b);
    assert Run(s, [a, b, c]) == Step(Run(s, [a, b]), c);
    assert Run(s, [a, b, c, d]) == Step(Run(s, [a, b, c]), d);
  }

  /** Finding, completing and saving a judged record. */
  lemma FinishSteps(s: State, id: nat, r: Record)
    requires id in s.calls && s.calls[id] == AfterJudging(r)
    ensures var s' := Step(Step(Step(s, Find(id)), Complete(id)), Save(id));
            s' == match Finalized(s.journal, r)
                  case None => s.(calls := s.calls - {id})
                  case Some(j) => State(j, Saved(s.results, r), s.calls - {id})
  {
    hide J.FindByCommandID, J.UpdateRecord, ValidToken, Terminal, ValidResult, KeyOf, J.WellFormed, J.Evolves, Saved;
    assert (s.calls[id := Saving(r)]) - {id} == s.calls - {id};
    if Verdict(r) == None {
      assert Step(Step(s, Find(id)), Complete(id)) == s;
    } else if Found(s.journal, r) == None {
      assert Step(s, Find(id)) == s.(calls := s.calls - {id});
    } else if Found(s.journal, r).value.Saving? {
      assert Step(Step(s, Find(id)), Complete(id)) == s.(calls := s.calls[id := Saving(r)]);
    } else {
      CompleteSteps(s, id, r);
    }
  }

  lemma CompleteSteps(s: State, id: nat, r: Record)
    requires id in s.calls && s.calls[id] == Finding(r) && Verdict(r).Some?
    requires Found(s.journal, r).Some? && Found(s.journal, r).value.Completing?
    ensures var s' := Step(Step(Step(s, Find(id)), Complete(id)), Save(id));
            s' == match Finalized(s.journal, r)
                  case None => s.(calls := s.calls - {id})
                  case Some(j) => State(j, Saved(s.results, r), s.calls - {id})
  {
    hide J.FindByCommandID, J.UpdateRecord, ValidToken, Terminal, ValidResult, KeyOf, J.WellFormed, J.Evolves,
      Saved, Verdict;
    var c := Found(s.journal, r).value;
    assert Step(s, Find(id)) == s.(calls := s.calls[id := c]);
    assert s.calls[id := c][id := Saving(r)] - {id} == s.calls - {id};
    assert s.calls[id := c] - {id} == s.calls - {id};
  }

  /** `Verify` does what its schedule does when nothing else moves. */
  lemma {:induction false} VerifyIsRun(s: State, id: nat, q: Request, now: Time, reading: Reading,
                                       retry: Option<RetryState>)
    requires id !in s.calls
    ensures var v := VerifyOnce(s.journal, s.results, q, now, reading, retry);
            Run(s, Uninterrupted(id, q, now, reading, retry)) == State(v.journal, v.results, s.calls)
  {
    hide ValidRequest, ValidResult, Judged, Step, Finalized, Saved, AfterJudging;
    RunFive(s, Begin(id, q, now), Judge(id, reading, retry), Find(id), Complete(id), Save(id));
    BeginSteps(s, id, q, now, reading, retry);
  }

  lemma BeginSteps(s: State, id: nat, q: Request, now: Time, reading: Reading, retry: Option<RetryState>)
    requires id !in s.calls
    ensures var v := VerifyOnce(s.journal, s.results, q, now, reading, retry);
            Steps(s, id, q, now, reading, retry) == State(v.journal, v.results, s.calls)
  {
    hide ValidRequest, ValidResult, Judged, Finalized, AfterJudging, J.WellFormed, J.Evolves, Completed, Found,
      Fresh, KeyOf, RetryLost;
    var begun := Begun(s.results, q, now);
    if begun == None {
      assert Step(s, Begin(id, q, now)) == s;
    } else {
      var c := begun.value;
      var r := Judged(q, c.record, now, reading, retry);
      var s2 := Step(Step(s, Begin(id, q, now)), Judge(id, reading, retry));
      assert s2 == s.(calls := s.calls[id := AfterJudging(r)]);
      FinishSteps(s2, id, r);
      assert s2.calls - {id} == s.calls;
      hide Step;
      assert VerifyOnce(s.journal, s.results, q, now, reading, retry) ==
          Attempted(s.journal, s.results, q, c.record, now, reading, retry);
    }
  }

  /* ---- After a crash between finalizing and persisting ---- */

  /** The command is already final in the journal and its result is not. Then a
      rerun of `Verify` never changes the journal, and it stores a decided result
      exactly when it judges the attempt the same way and the record is valid.
      After a success that takes a healthy reading at the very deadline with
      fewer than 256 samples counted; any later rerun is refused for good. */
  lemma AfterCrash(j: J.Bucket, results: Results, key: J.Key, succeeded: bool,
                   q: Request, r: Record, now: Time, reading: Reading, retry: Option<RetryState>)
    requires ValidRequest(q) && ValidToken(q.command.commandID, MAX_ID) && now != ZERO_TIME
    requires J.FindByCommandID(j, q.command.commandID) == Ok(Some(key))
    requires Finished(j, key, q.command.commandID, succeeded)
    requires match Load(results, q.command.commandID, q.attempt)
             case Err(_) => false
             case Ok(None) => r == Fresh(q, now)
             case Ok(Some(stored)) => r == stored && stored.outcome == StillPending
    ensures var v := VerifyOnce(j, results, q, now, reading, retry);
            var k := ResultKey(q.command.commandID, q.attempt);
            && v.journal == j
            && ((k in v.results && v.results[k].outcome != StillPending) <==>
                if succeeded then
                  && now == Deadline(q, r) && q.samples - 1 <= r.healthySamples < MAX_SAMPLES
                  && Fault(q, r, now, reading) == NoFailure
                else Fault(q, r, now, reading) != NoFailure)
  {
    hide J.FindByCommandID, ValidToken, ValidRequest, Judged, Found, Fault, Finalized, ResultKey, ValidResult,
      RetryLost, Finished;
    var judged := Judged(q, r, now, reading, retry);
    LoadedUndecided(results, q, r, now);
    JudgedValidIff(q, r, now, reading, retry);
    JudgedOutcome(q, r, now, reading, retry);
    Refinalized(j, key, succeeded, judged);
    hide Fresh, Undecided;
  }

  lemma LoadedUndecided(results: Results, q: Request, r: Record, now: Time)
    requires ValidRequest(q) && now != ZERO_TIME
    requires match Load(results, q.command.commandID, q.attempt)
             case Err(_) => false
             case Ok(None) => r == Fresh(q, now)
             case Ok(Some(stored)) => r == stored && stored.outcome == StillPending
    ensures Undecided(q, r)
  {
  }

  lemma JudgedOutcome(q: Request, r: Record, now: Time, reading: Reading, retry: Option<RetryState>)
    requires Undecided(q, r)
    ensures var judged := Judged(q, r, now, reading, retry);
            && judged.commandID == q.command.commandID && judged.attempt == q.attempt
            && (Verdict(judged) == Some(false) <==> Fault(q, r, now, reading) != NoFailure)
            && (Verdict(judged) == Some(true) <==>
                  Fault(q, r, now, reading) == NoFailure && now == Deadline(q, r) && r.healthySamples + 1 >= q.samples)
            && (Verdict(judged) == None <==> judged.outcome == StillPending)
  {
    FaultInTime(q, r, now, reading);
    hide Fault, RetryDecision, ValidResult;
  }

  lemma FaultInTime(q: Request, r: Record, now: Time, reading: Reading)
    ensures Fault(q, r, now, reading) == NoFailure ==> now <= Deadline(q, r)
  {
  }

  /** Finalizing a finished command succeeds only with the same verdict, and
      never changes the journal. */
  lemma Refinalized(j: J.Bucket, key: J.Key, succeeded: bool, r: Record)
    requires J.FindByCommandID(j, r.commandID) == Ok(Some(key)) && ValidToken(r.commandID, MAX_ID)
    requires Finished(j, key, r.commandID, succeeded)
    ensures Finalized(j, r) == if Verdict(r) == Some(!succeeded) then None else Some(j)
  {
    hide J.FindByCommandID, ValidToken, J.ValidRecord, J.RecordKey;
    if Verdict(r) == Some(!succeeded) {
      assert J.Apply(J.Complete(Terminal(!succeeded)), j[key].record).Err?;
    }
  }
}
