/** Inputs on which the verifier does not do what its documentation says: a schedule
    in which a decided result turns back into a pending one, a late success that is
    a timeout, and a sample too many. */
module StabilizationRace {
  import opened Text
  import opened Contract
  import opened Stabilization
  import opened StabilizationRuns
  import opened StabilizationTheorems
  import J = Journal
  import P = Policy
  import opened RecoveryRace
  import V = Verifier
  import Serial

  const STABILIZING := J.Moved(RECORD, J.PhaseStabilizing, Stabilizing)
  const FAILED := J.Moved(RECORD, J.PhaseCompleted, Failed)
  const ATTEMPT := Request(STABILIZING.command, TARGET, 2, SECOND, 1, 0)
  const LOADED := Fresh(ATTEMPT, 5)
  const DECIDED := LOADED.(outcome := GaveUp, failure := DockerUnavailable, retryReason := P.RetryExhausted)

  /* The command reaches stabilization, both calls load, and the second decides. */
  const REACH: seq<Label> := [Elsewhere(JournalAt(RECORD)), Elsewhere(JournalAt(APPROVED)),
      Elsewhere(JournalAt(STARTED))]
  const LOAD: seq<Label> := [Elsewhere(JournalAt(STABILIZING)), Begin(0, ATTEMPT, 5), Begin(1, ATTEMPT, 5)]
  const DECIDE: seq<Label> := [Judge(1, Unreadable(DockerDown), None), Find(1), Complete(1)]
  const RACE := REACH + LOAD + DECIDE + [Save(1)]

  lemma StagesValid()
    ensures J.ValidRecord(STABILIZING) && J.ValidRecord(FAILED)
    ensures J.RecordKey(STABILIZING.command) == KEY && J.RecordKey(FAILED.command) == KEY
  {
    assert J.Effect(STABILIZING.command) == J.Effect(COMMAND) == J.Effect(FAILED.command);
  }

  lemma StageHolds(r: J.Record)
    requires J.ValidRecord(r) && J.RecordKey(r.command) == KEY
    ensures J.WellFormed(JournalAt(r))
  {
    RecordsValid();
    hide J.ValidRecord, J.RecordKey, J.IdempotencyKey;
  }

  lemma StageFollows(a: J.Record, b: J.Record)
    requires J.LegalWrite(a, b)
    ensures J.Evolves(JournalAt(a), JournalAt(b))
  {
    RecordsValid();
    hide J.LegalWrite, J.RecordKey, J.IdempotencyKey, J.ValidRecord;
  }

  lemma Advances(j: J.Bucket, r: J.Record)
    requires J.ValidRecord(r) && J.RecordKey(r.command) == KEY && J.Evolves(j, JournalAt(r))
    ensures Step(INIT.(journal := j), Elsewhere(JournalAt(r))) == INIT.(journal := JournalAt(r))
  {
    StageHolds(r);
    hide J.WellFormed, J.Evolves, JournalAt, J.ValidRecord, J.RecordKey;
  }

  lemma FirstStage()
    ensures J.Evolves(map[], JournalAt(RECORD))
  {
    RecordsValid();
    hide J.RecordKey, J.IdempotencyKey, J.ValidRecord;
  }

  lemma {:induction false} RunThree(s: State, a: Label, b: Label, c: Label)
    ensures Run(s, [a, b, c]) == Step(Step(Step(s, a), b), c)
  {
    hide Step;
    RunTwo(s, a, b);
    assert [a, b, c][..2] == [a, b];
  }

  lemma StagesFollow()
    ensures J.LegalWrite(RECORD, APPROVED) && J.LegalWrite(APPROVED, STARTED) && J.LegalWrite(STARTED, STABILIZING)
  {
    hide J.RecordKey, J.IdempotencyKey;
  }

  lemma Reaches()
    ensures Run(INIT, REACH) == INIT.(journal := JournalAt(STARTED))
  {
    RecordsValid();
    StagesFollow();
    FirstStage();
    StageFollows(RECORD, APPROVED);
    StageFollows(APPROVED, STARTED);
    hide J.ValidRecord, J.RecordKey, J.Evolves, JournalAt, Step, Run, J.LegalWrite;
    Advances(map[], RECORD);
    Advances(JournalAt(RECORD), APPROVED);
    Advances(JournalAt(APPROVED), STARTED);
    RunThree(INIT, REACH[0], REACH[1], REACH[2]);
  }

  function Both(j: J.Bucket, results: Results, second: Call): State {
    State(j, results, map[0 := Probing(ATTEMPT, LOADED, 5), 1 := second])
  }

  lemma Begins(s: State)
    requires s == INIT.(journal := s.journal)
    ensures Step(Step(s, Begin(0, ATTEMPT, 5)), Begin(1, ATTEMPT, 5)) ==
        Both(s.journal, map[], Probing(ATTEMPT, LOADED, 5))
  {
    assert ValidRequest(ATTEMPT);
    hide ResultKey, ValidRequest;
    assert Begun(map[], ATTEMPT, 5) == Some(Probing(ATTEMPT, LOADED, 5));
    hide Begun;
  }

  lemma Judges(j: J.Bucket)
    ensures Step(Both(j, map[], Probing(ATTEMPT, LOADED, 5)), Judge(1, Unreadable(DockerDown), None))
         == Both(j, map[], Finding(DECIDED))
  {
    assert Judged(ATTEMPT, LOADED, 5, Unreadable(DockerDown), None) == DECIDED;
    hide Judged;
  }

  lemma OneRecord(r: J.Record)
    requires J.ValidRecord(r) && J.RecordKey(r.command) == KEY && r.command.commandID == "c"
    ensures J.FindByCommandID(JournalAt(r), "c") == Ok(Some(KEY))
  {
    hide J.ValidRecord, J.RecordKey, J.IdempotencyKey, J.WellFormed, J.FindByCommandID;
    StageHolds(r);
    RecordsValid();
    J.FindIff(JournalAt(r), "c", KEY);
  }

  lemma FindsOne()
    ensures J.FindByCommandID(JournalAt(STABILIZING), "c") == Ok(Some(KEY))
  {
    StagesValid();
    hide J.FindByCommandID, J.ValidRecord, J.RecordKey, JournalAt;
    OneRecord(STABILIZING);
  }

  lemma Finds()
    ensures Step(Both(JournalAt(STABILIZING), map[], Finding(DECIDED)), Find(1))
         == Both(JournalAt(STABILIZING), map[], Completing(DECIDED, KEY))
  {
    hide J.FindByCommandID, J.ValidRecord, J.RecordKey, J.IdempotencyKey;
    assert ValidToken("c", MAX_ID);
    FindsOne();
  }

  lemma Fails()
    ensures J.UpdateRecord(JournalAt(STABILIZING), KEY, J.Complete(Failed)) == Ok(J.Updated(JournalAt(FAILED), FAILED))
  {
    StagesValid();
    hide J.UpdateRecord, J.ValidRecord, J.RecordKey, JournalAt;
    Writing(STABILIZING, FAILED, J.Complete(Failed));
  }

  lemma Completes()
    ensures Step(Both(JournalAt(STABILIZING), map[], Completing(DECIDED, KEY)), Complete(1))
         == Both(JournalAt(FAILED), map[], Saving(DECIDED))
  {
    hide J.UpdateRecord, J.ValidRecord, J.RecordKey, JournalAt;
    Fails();
  }

  lemma Saves(j: J.Bucket)
    ensures var s := Step(Both(j, map[], Saving(DECIDED)), Save(1));
            && s.results == map[KeyOf(DECIDED) := DECIDED]
            && s.calls == map[0 := Probing(ATTEMPT, LOADED, 5)]
  {
    assert ValidResult(DECIDED);
    hide ValidResult, ResultKey;
  }

  lemma {:induction false} RunConcat(s: State, p: seq<Label>, q: seq<Label>)
    ensures Run(s, p + q) == Run(Run(s, p), q)
  {
    hide Step;
    if q == [] {
      assert p + q == p;
    } else {
      assert (p + q)[..|p + q| - 1] == p + q[..|q| - 1];
      RunConcat(s, p, q[..|q| - 1]);
    }
  }

  lemma Loads()
    ensures Run(INIT.(journal := JournalAt(STARTED)), LOAD)
         == Both(JournalAt(STABILIZING), map[], Probing(ATTEMPT, LOADED, 5))
  {
    StagesValid();
    StagesFollow();
    StageFollows(STARTED, STABILIZING);
    hide J.ValidRecord, J.RecordKey, J.Evolves, JournalAt, Step, Run, J.LegalWrite;
    Advances(JournalAt(STARTED), STABILIZING);
    Begins(INIT.(journal := JournalAt(STABILIZING)));
    RunThree(INIT.(journal := JournalAt(STARTED)), LOAD[0], LOAD[1], LOAD[2]);
  }

  lemma Decides()
    ensures Run(Both(JournalAt(STABILIZING), map[], Probing(ATTEMPT, LOADED, 5)), DECIDE)
         == Both(JournalAt(FAILED), map[], Saving(DECIDED))
  {
    hide JournalAt, Step, Run, Both;
    Judges(JournalAt(STABILIZING));
    Finds();
    Completes();
    RunThree(Both(JournalAt(STABILIZING), map[], Probing(ATTEMPT, LOADED, 5)), DECIDE[0], DECIDE[1], DECIDE[2]);
  }

  lemma {:induction false} RunOne(s: State, l: Label)
    ensures Run(s, [l]) == Step(s, l)
  {
    hide Step;
    assert [l][..0] == [];
  }

  lemma Races()
    ensures var s := Run(INIT, RACE);
            && s.results == map[KeyOf(DECIDED) := DECIDED]
            && s.calls == map[0 := Probing(ATTEMPT, LOADED, 5)]
  {
    hide Run, Step, JournalAt, KeyOf, Both;
    Reaches();
    Loads();
    Decides();
    RunConcat(INIT, REACH, LOAD);
    RunConcat(INIT, REACH + LOAD, DECIDE);
    RunConcat(INIT, REACH + LOAD + DECIDE, [Save(1)]);
    RunOne(Both(JournalAt(FAILED), map[], Saving(DECIDED)), Save(1));
    Saves(JournalAt(FAILED));
  }

  /** The verifier does not keep decided results: after this schedule a stored
      failure can be overwritten by a pending record. */
  lemma DecidedCanRevert()
    ensures var s := Run(INIT, RACE);
            Decided(s, KeyOf(DECIDED)) && exists labels :: Reverted(Run(s, labels), KeyOf(DECIDED))
  {
    Races();
    RunKeeps(INIT, RACE);
    hide Run, Inv;
    var s := Run(INIT, RACE);
    assert CanRevert(s.calls[0], KeyOf(DECIDED));
    RevertsIff(s, KeyOf(DECIDED));
  }

  /* ---- A late success is a timeout ---- */

  function HealthyAt(now: Time): Serial.Turn {
    Serial.Turn(now, ReadingFor(ATTEMPT), None)
  }

  /** One nanosecond after the window of one second. */
  const TOO_LATE: Time := 5 + SECOND + 1

  const BEFORE_CALLS := Serial.Buckets(JournalAt(STABILIZING), map[])
  const LATE := LOADED.(outcome := GaveUp, failure := Timeout, retryReason := P.RetryExhausted)

  lemma AttemptValid()
    ensures ValidRequest(ATTEMPT)
  {
  }

  /** Both required samples are counted within the window. */
  lemma BothCounted()
    ensures Serial.After(BEFORE_CALLS, ATTEMPT, [HealthyAt(5), HealthyAt(6)]) ==
            Serial.Buckets(JournalAt(STABILIZING), map[Serial.KeyFor(ATTEMPT) := LOADED.(healthySamples := 2)])
  {
    AttemptValid();
    ReadingForHealthy(ATTEMPT);
    hide ValidRequest, HealthyReading, ReadingFor, JournalAt, ResultKey;
    Serial.SteadyCounts(BEFORE_CALLS, ATTEMPT, [HealthyAt(5), HealthyAt(6)]);
  }

  lemma LateJudged()
    ensures Judged(ATTEMPT, LOADED.(healthySamples := 2), TOO_LATE, ReadingFor(ATTEMPT), None) == LATE
  {
  }

  lemma LateFinalized()
    ensures V.Finalized(JournalAt(STABILIZING), LATE) == Some(JournalAt(FAILED))
  {
    hide J.FindByCommandID, J.UpdateRecord, J.ValidRecord, J.RecordKey, J.IdempotencyKey;
    assert ValidToken("c", MAX_ID);
    FindsOne();
    Fails();
  }

  const COUNTED := LOADED.(healthySamples := 2)

  lemma RecordsKept()
    ensures ValidResult(COUNTED) && ValidResult(LATE) && KeyOf(LATE) == Serial.KeyFor(ATTEMPT)
  {
  }

  lemma LateCall()
    ensures Serial.Called(Serial.Buckets(JournalAt(STABILIZING), map[Serial.KeyFor(ATTEMPT) := COUNTED]), ATTEMPT,
        HealthyAt(TOO_LATE))
         == V.Verified(JournalAt(FAILED), map[Serial.KeyFor(ATTEMPT) := LATE], Ok(LATE))
  {
    hide ValidRequest, ReadingFor, JournalAt, ResultKey, Judged, V.Finalized, ValidResult, Serial.Called,
      Serial.StartsFrom, Undecided;
    RecordsKept();
    AttemptValid();
    LateJudged();
    LateFinalized();
    var b := Serial.Buckets(JournalAt(STABILIZING), map[Serial.KeyFor(ATTEMPT) := COUNTED]);
    Serial.StoredStart(b, ATTEMPT, TOO_LATE, COUNTED);
    Serial.CalledFrom(b, ATTEMPT, HealthyAt(TOO_LATE), COUNTED);
  }

  /** Both samples are in, the window has passed in full, and the service is
      still healthy one instant later: the attempt ends in a timeout and the
      command is failed. */
  lemma LateSuccessTimesOut()
    ensures var b := Serial.After(BEFORE_CALLS, ATTEMPT, [HealthyAt(5), HealthyAt(6)]);
            && Serial.KeyFor(ATTEMPT) in b.results
            && b.results[Serial.KeyFor(ATTEMPT)].healthySamples == ATTEMPT.samples
            && Serial.Called(b, ATTEMPT, HealthyAt(TOO_LATE)) ==
               V.Verified(JournalAt(FAILED), map[Serial.KeyFor(ATTEMPT) := LATE], Ok(LATE))
  {
    hide Serial.After, Serial.Called, ReadingFor, JournalAt, ResultKey;
    BothCounted();
    LateCall();
  }

  /* ---- One sample too many ---- */

  /** After 256 healthy samples within the window the next one is refused. */
  lemma SampleTooMany()
    ensures var full := Serial.After(BEFORE_CALLS, ATTEMPT, seq(MAX_SAMPLES, i => HealthyAt(5)));
            && Serial.KeyFor(ATTEMPT) in full.results
            && full.results[Serial.KeyFor(ATTEMPT)].healthySamples == MAX_SAMPLES
            && Serial.Called(full, ATTEMPT, HealthyAt(5)) == V.Verified(full.journal, full.results, Err(CorruptResult))
  {
    AttemptValid();
    ReadingForHealthy(ATTEMPT);
    hide ValidRequest, HealthyReading, ReadingFor, JournalAt, ResultKey, Serial.After, Serial.Called;
    var turns := seq(MAX_SAMPLES, i => HealthyAt(5));
    Serial.CountEndsAt256(BEFORE_CALLS, ATTEMPT, turns, [HealthyAt(5)]);
    assert [HealthyAt(5)][0] == HealthyAt(5);
  }
}
