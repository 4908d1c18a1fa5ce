/** A schedule in which a command is executed after it was moved to
    verify-and-notify: reconciliation runs between the journal's start
    transaction and the adapter call. */
module RecoveryRace {
  import opened Text
  import opened Contract
  import opened Recovery
  import opened RecoverySafety
  import P = Policy
  import J = Journal
  import A = Approvals
  import T = RecoveryTheorems

  const TARGET := ServiceTarget(V1, "t", DOCKER_ADAPTER, "container:s", [], true)
  const ACTION := TypedAction(ContainerRestart, "container:s", SECOND, 0)
  const RUNBOOK := P.RegisteredRunbook(
    Runbook(V1, "r", "d", [ACTION], RiskLow, true, false, [], 1, 1, SECOND), "t", false)
  const SNAPSHOT := P.Snapshot([RUNBOOK], [])
  const INPUT := P.Input("r", "d", "t", 0, "", false, [], map[], ZERO_TIME, ZERO_TIME, 0, None, false)
  const REQUEST := Request("i", TARGET, SNAPSHOT, INPUT, 100, "k")
  const VIEW := ExecutionState(TARGET, SNAPSHOT, INPUT)

  const COMMAND := RecoveryCommand(V1, "c", "i", "r", "d", "t", 0, RiskLow, "", 1, 100, "k", Pending)
  const RECORD := J.Record(V1, COMMAND, TARGET, ACTION, J.PhasePending, None)
  const KEY := J.RecordKey(COMMAND)
  const INDEX := J.IdempotencyKey("k")
  const AUTH := Auth(VIEW, VIEW, 3)

  /** The journal with the one record in a given phase. */
  function JournalAt(r: J.Record): J.Bucket {
    map[KEY := J.RecordDoc(r), INDEX := J.IndexDoc(KEY)]
  }

  function At(r: J.Record, calls: map<nat, Call>, trace: seq<Execution>): State {
    State(A.Buckets(JournalAt(r), map[], map[]), calls, trace)
  }

  const APPROVED := J.Moved(RECORD, J.PhaseApproved, Approved)
  const STARTED := J.Moved(RECORD, J.PhaseExecuting, Executing)
  const MARKED := STARTED.(phase := J.PhaseVerify, reconciliation := Some(J.Reconciliation(4, false, NO_SNAPSHOT)))

  const BEFORE: seq<Label> := [
    Submit(0, REQUEST, "c", 1), Transact(0), Recheck(0, Some(VIEW), 2), Validate(0, true), Recheck(0, Some(VIEW), 3),
    Publish(0, true), Transact(0), Transact(0), Reconcile(1, [KEY]), Observe(1, None, 4), Transact(1)]

  lemma Allows(now: Time)
    requires now > 0
    ensures P.Evaluate(SNAPSHOT, PolicyInput(INPUT, "c", now)) == P.Decision(P.Allow, P.Allowed)
  {
    assert P.RunbookIDs([RUNBOOK]) == ["r"];
    assert P.ValidRegistration(RUNBOOK);
    assert P.ValidSnapshot(SNAPSHOT);
    assert P.FindRunbook([RUNBOOK], "r") == Some(RUNBOOK);
    assert P.CooldownElapsed(0, ZERO_TIME, now);
  }

  lemma RecordsValid()
    ensures J.ValidRecord(RECORD) && J.ValidRecord(APPROVED) && J.ValidRecord(STARTED) && J.ValidRecord(MARKED)
    ensures J.RecordKey(APPROVED.command) == KEY && J.RecordKey(STARTED.command) == KEY
        && J.RecordKey(MARKED.command) == KEY
    ensures KEY.CommandKey? && INDEX.IndexKey?
  {
    assert J.Effect(APPROVED.command) == J.Effect(COMMAND) == J.Effect(STARTED.command);
  }

  lemma RequestValid()
    ensures ValidRequest(REQUEST) && ValidToken("c", MAX_ID)
  {
  }

  lemma Submitting()
    ensures Step(INIT, Submit(0, REQUEST, "c", 1)) == INIT.(calls := map[0 := Persisting(RECORD, P.Allow)])
  {
    RequestValid();
    Allows(1);
    hide P.Evaluate, ValidRequest, ValidToken;
    assert P.FindRunbook([RUNBOOK], "r") == Some(RUNBOOK);
  }

  lemma PersistingIt()
    ensures Step(INIT.(calls := map[0 := Persisting(RECORD, P.Allow)]), Transact(0))
         == At(RECORD, map[0 := Revalidating(RECORD, false)], [])
  {
    RecordsValid();
    hide J.ValidRecord, J.RecordKey, J.IdempotencyKey;
  }

  lemma Rechecking(second: bool, now: Time)
    requires 0 < now < 100
    ensures Step(At(RECORD, map[0 := Revalidating(RECORD, second)], []), Recheck(0, Some(VIEW), now))
         == At(RECORD, map[0 := if second then Publishing(RECORD, Auth(VIEW, VIEW, now)) else Validating(RECORD)], [])
  {
    Allows(now);
    hide P.Evaluate;
    assert P.FindRunbook([RUNBOOK], "r") == Some(RUNBOOK);
    assert RevalidateState(VIEW, RECORD, now).verdict == P.Allow;
    hide RevalidateState, J.RecordKey, J.IdempotencyKey;
  }

  lemma Passing()
    ensures Step(At(RECORD, map[0 := Validating(RECORD)], []), Validate(0, true))
         == At(RECORD, map[0 := Revalidating(RECORD, true)], [])
    ensures Step(At(RECORD, map[0 := Publishing(RECORD, AUTH)], []), Publish(0, true))
         == At(RECORD, map[0 := Approving(RECORD, AUTH)], [])
  {
    hide JournalAt;
  }

  lemma Writing(before: J.Record, after: J.Record, t: J.Transition)
    requires J.ValidRecord(before) && J.ValidRecord(after)
    requires J.RecordKey(before.command) == KEY && J.RecordKey(after.command) == KEY && J.Apply(t, before) == Ok(after)
    ensures J.UpdateRecord(JournalAt(before), KEY, t) == Ok(J.Updated(JournalAt(after), after))
  {
    RecordsValid();
    hide J.ValidRecord, J.RecordKey, J.IdempotencyKey, J.Apply;
    assert JournalAt(before)[KEY := J.RecordDoc(after)] == JournalAt(after);
  }

  /** A write transaction of a call in flight, by its parts. */
  lemma TransactWrites(s: State, id: nat, key: J.Key, t: J.Transition, u: J.Updated, next: Call)
    requires id in s.calls && PendingWrite(s.calls[id]) == Some((key, t)) && !s.calls[id].Persisting?
    requires J.UpdateRecord(s.store.journal, key, t) == Ok(u) && AfterWrite(s.calls[id], u.record) == Some(next)
    ensures Step(s, Transact(id)) == State(s.store.(journal := u.journal), s.calls[id := next], s.trace)
  {
    hide J.UpdateRecord, J.RecordKey, PendingWrite, AfterWrite;
  }

  lemma ApprovingThenStarting()
    ensures Step(At(RECORD, map[0 := Approving(RECORD, AUTH)], []), Transact(0))
         == At(APPROVED, map[0 := Starting(RECORD, AUTH)], [])
    ensures Step(At(APPROVED, map[0 := Starting(RECORD, AUTH)], []), Transact(0))
         == At(STARTED, map[0 := Acting(STARTED, AUTH)], [])
  {
    RecordsValid();
    Writing(RECORD, APPROVED, J.Approve);
    Writing(APPROVED, STARTED, J.Start);
    hide J.UpdateRecord, J.RecordKey, JournalAt, Step, J.ValidRecord;
    TransactWrites(At(RECORD, map[0 := Approving(RECORD, AUTH)], []), 0, KEY, J.Approve,
                   J.Updated(JournalAt(APPROVED), APPROVED), Starting(RECORD, AUTH));
    TransactWrites(At(APPROVED, map[0 := Starting(RECORD, AUTH)], []), 0, KEY, J.Start,
                   J.Updated(JournalAt(STARTED), STARTED), Acting(STARTED, AUTH));
  }

  const BOTH: map<nat, Call> := map[0 := Acting(STARTED, AUTH), 1 := Reconciling([Stored(KEY, STARTED)])]

  lemma ReconcilingMeanwhile()
    ensures Step(At(STARTED, map[0 := Acting(STARTED, AUTH)], []), Reconcile(1, [KEY])) == At(STARTED, BOTH, [])
  {
    RecordsValid();
    hide J.ValidRecord, J.RecordKey, J.IdempotencyKey;
    var j := JournalAt(STARTED);
    assert !J.Corrupt(j);
    assert ListsReconcilable(j, [KEY]);
    assert Listed(j, [KEY]) == [Stored(KEY, STARTED)];
  }

  const MARKING := Marking(KEY, J.Mark(NO_SNAPSHOT, false, 4), [])

  lemma Observing()
    ensures Step(At(STARTED, BOTH, []), Observe(1, None, 4)) == At(STARTED, BOTH[1 := MARKING], [])
  {
    hide J.RecordKey, JournalAt;
    assert [Stored(KEY, STARTED)][1..] == [];
    assert Observed(BOTH[1], None, 4) == Some(MARKING);
  }

  lemma MarkingIt()
    ensures Step(At(STARTED, BOTH[1 := MARKING], []), Transact(1)) == At(MARKED, BOTH[1 := Reconciling([])], [])
  {
    RecordsValid();
    Writing(STARTED, MARKED, J.Mark(NO_SNAPSHOT, false, 4));
    hide J.UpdateRecord, J.RecordKey, JournalAt, J.ValidRecord, Step;
    TransactWrites(At(STARTED, BOTH[1 := MARKING], []), 1, KEY, J.Mark(NO_SNAPSHOT, false, 4),
                   J.Updated(JournalAt(MARKED), MARKED), Reconciling([]));
  }

  lemma {:induction false} RunFrom(s: State, labels: seq<Label>, i: nat)
    requires i < |labels|
    ensures Run(s, labels[i..]) == Run(Step(s, labels[i]), labels[i + 1..])
  {
    hide Step;
    assert labels[i..] == [labels[i]] + labels[i + 1..];
    T.RunConcat(s, [labels[i]], labels[i + 1..]);
    T.RunOne(s, labels[i]);
  }

  const RACE: State := At(MARKED, BOTH[1 := Reconciling([])], [])

  lemma ReachesApproving()
    ensures Run(INIT, BEFORE) == Run(At(RECORD, map[0 := Approving(RECORD, AUTH)], []), BEFORE[6..])
  {
    hide Step, At, JournalAt, Run, J.RecordKey, J.IdempotencyKey;
    assert BEFORE[0..] == BEFORE;
    RunFrom(INIT, BEFORE, 0);
    Submitting();
    RunFrom(INIT.(calls := map[0 := Persisting(RECORD, P.Allow)]), BEFORE, 1);
    PersistingIt();
    RunFrom(At(RECORD, map[0 := Revalidating(RECORD, false)], []), BEFORE, 2);
    Rechecking(false, 2);
    RunFrom(At(RECORD, map[0 := Validating(RECORD)], []), BEFORE, 3);
    Passing();
    RunFrom(At(RECORD, map[0 := Revalidating(RECORD, true)], []), BEFORE, 4);
    Rechecking(true, 3);
    RunFrom(At(RECORD, map[0 := Publishing(RECORD, AUTH)], []), BEFORE, 5);
  }

  lemma ReachesRace()
    ensures Run(INIT, BEFORE) == RACE
  {
    hide Step, At, JournalAt, J.RecordKey, J.IdempotencyKey;
    ReachesApproving();
    RunFrom(At(RECORD, map[0 := Approving(RECORD, AUTH)], []), BEFORE, 6);
    ApprovingThenStarting();
    RunFrom(At(APPROVED, map[0 := Starting(RECORD, AUTH)], []), BEFORE, 7);
    RunFrom(At(STARTED, map[0 := Acting(STARTED, AUTH)], []), BEFORE, 8);
    ReconcilingMeanwhile();
    RunFrom(At(STARTED, BOTH, []), BEFORE, 9);
    Observing();
    RunFrom(At(STARTED, BOTH[1 := MARKING], []), BEFORE, 10);
    MarkingIt();
    assert BEFORE[11..] == [];
  }

  /** The command is in verify-and-notify and nothing has been executed; one
      label later its effect has been executed. */
  lemma ExecutedAfterVerify()
    ensures var s, s' := Run(INIT, BEFORE), Run(INIT, BEFORE + [Act(0, true)]);
            && KEY in s.store.journal && s.store.journal[KEY].RecordDoc?
            && s.store.journal[KEY].record.phase == J.PhaseVerify
            && s.trace == []
            && |s'.trace| == 1 && KeyOf(s'.trace[0].record) == KEY
  {
    RecordsValid();
    ReachesRace();
    T.RunConcat(INIT, BEFORE, [Act(0, true)]);
    hide J.RecordKey, J.ValidRecord, Run, J.IdempotencyKey;
    T.RunOne(RACE, Act(0, true));
    T.ActAppends(RACE, 0);
  }
}
