/** One execution attempt from its first revalidation to its end, when nothing else
    moves: which checks it takes, and what becomes of the command. */
module RecoveryCall {
  import opened Text
  import opened Contract
  import opened Recovery
  import opened RecoverySafety
  import opened RecoveryTheorems
  import P = Policy
  import J = Journal
  import A = Approvals

  /* ---- What a revalidation decides ---- */

  /** The state that a revalidation sees: the source's own for a command without an
      approval; otherwise with the durable approval of the command, and with a
      revoked one when there is none under the command's approval ID. */
  lemma LoadStateIs(approvals: A.Bucket, base: ExecutionState, c: RecoveryCommand)
    requires A.Matched(approvals) && ValidToken(c.commandID, MAX_ID)
    ensures LoadState(approvals, Some(base), c).Some?
    ensures var loaded := LoadState(approvals, Some(base), c).value;
            if c.approvalID == "" then loaded == base
            else
              && loaded == base.(input := base.input.(approval := loaded.input.approval,
                                                      approvalRevoked := loaded.input.approvalRevoked))
              && loaded.input.approval.Some?
              && if A.DecisionOf(c.commandID) in approvals
                    && approvals[A.DecisionOf(c.commandID)] == A.ReferenceDoc(c.approvalID)
                 then
                   && A.RecordOf(c.approvalID) in approvals
                   && approvals[A.RecordOf(c.approvalID)] == A.ApprovalDoc(loaded.input.approval.value)
                   && loaded.input.approvalRevoked == base.input.approvalRevoked
                 else loaded.input.approvalRevoked
  {
    hide ValidToken, A.ValidApproval;
    if A.DecisionOf(c.commandID) in approvals {
      assert A.Paired(approvals, A.DecisionOf(c.commandID));
      var id := approvals[A.DecisionOf(c.commandID)].approvalID;
      assert A.Paired(approvals, A.RecordOf(id));
    }
  }

  /** The command expired before the check. */
  predicate IsLate(approvals: A.Bucket, base: Option<ExecutionState>, r: J.Record, now: Time) {
    LoadState(approvals, base, r.command).Some? && now != ZERO_TIME && now >= r.command.expiresAt
  }

  /** The check sees a state about this very command in which the policy authorizes
      the journaled action now. */
  ghost predicate Passes(approvals: A.Bucket, base: Option<ExecutionState>, r: J.Record, now: Time) {
    && LoadState(approvals, base, r.command).Some?
    && var loaded := LoadState(approvals, base, r.command).value;
    && now != ZERO_TIME && now < r.command.expiresAt
    && SameAsRegistered(r, loaded)
    && P.Authorized(loaded.snapshot, loaded.input.(commandID := r.command.commandID, now := now))
  }

  function Seen(approvals: A.Bucket, base: Option<ExecutionState>, r: J.Record, now: Time): Auth
    requires LoadState(approvals, base, r.command).Some?
  {
    Auth(base.value, LoadState(approvals, base, r.command).value, now)
  }

  lemma AllowedIff(r: J.Record, loaded: ExecutionState, now: Time)
    ensures RevalidateState(loaded, r, now).verdict == P.Allow <==>
            && SameAsRegistered(r, loaded)
            && P.Authorized(loaded.snapshot, loaded.input.(commandID := r.command.commandID, now := now))
  {
    var input := loaded.input.(commandID := r.command.commandID, now := now);
    P.EvaluateAllowsIff(loaded.snapshot, input);
    P.FindRunbookFinds(loaded.snapshot.runbooks, r.command.runbookID);
    if SameAsRegistered(r, loaded) && P.Authorized(loaded.snapshot, input) {
      var runbook :| runbook in loaded.snapshot.runbooks && runbook.runbook.runbookID == r.command.runbookID
        && 0 <= r.command.actionIndex < |runbook.runbook.typedActions|
        && runbook.runbook.typedActions[r.command.actionIndex] == r.action;
      P.FindRunbookUnique(loaded.snapshot, runbook);
    }
    hide P.Evaluate, P.FindRunbook, P.ValidSnapshot, P.Runnable;
  }

  lemma RevalidateIs(approvals: A.Bucket, base: Option<ExecutionState>, r: J.Record, now: Time)
    ensures Revalidate(approvals, base, r, now) ==
            if IsLate(approvals, base, r, now) then TooLate
            else if Passes(approvals, base, r, now) then Pass(Seen(approvals, base, r, now))
            else Refuse
  {
    var loaded := LoadState(approvals, base, r.command);
    if loaded.Some? { AllowedIff(r, loaded.value, now); }
    hide RevalidateState, SameAsRegistered, P.Authorized, A.LoadApproval;
  }

  /* ---- Single steps ---- */

  /** The call `id` is at `c`, and the journal holds the record it works on as `r`. */
  ghost predicate At(s: State, id: nat, c: Call, r: J.Record) {
    && id in s.calls && s.calls[id] == c
    && Present(s, KeyOf(r)) && s.store.journal[KeyOf(r)].record == r && J.ValidRecord(r)
  }

  function Moved(r: J.Record, phase: J.Phase, state: CommandState): J.Record {
    r.(phase := phase, command := r.command.(state := state))
  }

  lemma MovedKey(r: J.Record, phase: J.Phase, state: CommandState)
    ensures KeyOf(Moved(r, phase, state)) == KeyOf(r)
  {
    assert J.Effect(Moved(r, phase, state).command) == J.Effect(r.command);
  }

  function Wrote(s: State, r: J.Record): State {
    s.(store := s.store.(journal := s.store.journal[KeyOf(r) := J.RecordDoc(r)]))
  }

  lemma Writes(s: State, id: nat, c: Call, r: J.Record, t: J.Transition, r': J.Record)
    requires At(s, id, c, r) && PendingWrite(c) == Some((KeyOf(r), t)) && !c.Persisting?
    requires J.Apply(t, r) == Ok(r') && J.ValidRecord(r') && KeyOf(r') == KeyOf(r)
    ensures Step(s, Transact(id)) ==
            match AfterWrite(c, r')
            case None => Wrote(s, r').(calls := s.calls - {id})
            case Some(next) => Wrote(s, r').(calls := s.calls[id := next])
  {
    hide J.Apply, J.ValidRecord, J.RecordKey, AfterWrite, PendingWrite, J.PersistPending;
  }

  /** A call that ended, and labels that do not fit, change nothing. */
  lemma Idles(s: State, id: nat)
    requires id !in s.calls
    ensures Step(s, Transact(id)) == s && forall ok :: Step(s, Act(id, ok)) == s && Step(s, Publish(id, ok)) == s
  {
  }

  /* ---- The end of a call ---- */

  /** The call is gone, the record is `r`, and the trace is as given. */
  ghost predicate Ends(s: State, s': State, id: nat, r: J.Record, trace: seq<Execution>) {
    s' == Wrote(s, r).(calls := s.calls - {id}, trace := trace)
  }

  lemma RejectionValid(r: J.Record, expired: bool)
    requires J.ValidRecord(r) && (r.phase == J.PhasePending || r.phase == J.PhaseAwaiting)
    ensures var r' := Moved(r, J.PhaseCompleted, if expired then Expired else Denied);
            J.ValidRecord(r') && J.Apply(if expired then J.Expire else J.Deny, r) == Ok(r')
  {
  }

  lemma Rejects(s: State, id: nat, r: J.Record, expired: bool)
    requires At(s, id, Rejecting(r, expired), r) && (r.phase == J.PhasePending || r.phase == J.PhaseAwaiting)
    ensures Ends(s, Step(s, Transact(id)), id, Moved(r, J.PhaseCompleted, if expired then Expired else Denied), s.trace)
  {
    hide J.Apply, J.ValidRecord, J.RecordKey, Step;
    var state := if expired then Expired else Denied;
    MovedKey(r, J.PhaseCompleted, state);
    RejectionValid(r, expired);
    Writes(s, id, Rejecting(r, expired), r, if expired then J.Expire else J.Deny, Moved(r, J.PhaseCompleted, state));
  }

  lemma StartValid(r: J.Record)
    requires J.ValidRecord(r) && (r.phase == J.PhasePending || r.phase == J.PhaseAwaiting)
    requires r.phase == J.PhaseAwaiting ==> r.command.approvalID != ""
    ensures var approved, started := Moved(r, J.PhaseApproved, Approved), Moved(r, J.PhaseExecuting, Executing);
            && J.ValidRecord(approved) && J.Apply(J.Approve, r) == Ok(approved)
            && J.ValidRecord(started) && J.Apply(J.Start, approved) == Ok(started)
  {
  }

  lemma ApprovesAndStarts(s: State, id: nat, r: J.Record, auth: Auth)
    requires At(s, id, Approving(r, auth), r) && (r.phase == J.PhasePending || r.phase == J.PhaseAwaiting)
    requires r.phase == J.PhaseAwaiting ==> r.command.approvalID != ""
    ensures var started := Moved(r, J.PhaseExecuting, Executing);
            var s' := Step(Step(s, Transact(id)), Transact(id));
            && s' == Wrote(s, started).(calls := s.calls[id := Acting(started, auth)])
            && At(s', id, Acting(started, auth), started)
  {
    hide J.Apply, J.ValidRecord, J.RecordKey, Step;
    var approved, started := Moved(r, J.PhaseApproved, Approved), Moved(r, J.PhaseExecuting, Executing);
    MovedKey(r, J.PhaseApproved, Approved);
    MovedKey(r, J.PhaseExecuting, Executing);
    StartValid(r);
    Writes(s, id, Approving(r, auth), r, J.Approve, approved);
    var s1 := Step(s, Transact(id));
    assert At(s1, id, Starting(r, auth), approved);
    Writes(s1, id, Starting(r, auth), approved, J.Start, started);
    assert s1.calls[id := Acting(started, auth)] == s.calls[id := Acting(started, auth)];
    assert Wrote(s1, started).store == Wrote(s, started).store;
  }

  /** Held for verification without a snapshot. */
  function Held(r: J.Record, now: Time): J.Record {
    r.(phase := J.PhaseVerify, reconciliation := Some(J.Reconciliation(now, false, NO_SNAPSHOT)))
  }

  lemma FinishValid(r: J.Record, now: Time)
    requires J.ValidRecord(r) && r.phase == J.PhaseExecuting && now != ZERO_TIME
    ensures r.command.state == Executing
    ensures var r' := Moved(r, J.PhaseStabilizing, Stabilizing);
            J.ValidRecord(r') && J.Apply(J.Finish(Stabilizing), r) == Ok(r')
    ensures J.ValidRecord(Held(r, now)) && J.Apply(J.Mark(NO_SNAPSHOT, false, now), r) == Ok(Held(r, now))
    ensures KeyOf(Held(r, now)) == KeyOf(r)
  {
  }

  lemma ActStep(s: State, id: nat, r: J.Record, auth: Auth, ok: bool)
    requires id in s.calls && s.calls[id] == Acting(r, auth)
    ensures Step(s, Act(id, ok)) ==
            s.(trace := s.trace + [Execution(r, auth, ok)],
               calls := s.calls[id := if ok then Finishing(r) else Uncertain(r, auth.now)])
  {
    hide J.RecordKey, J.ValidRecord, J.PersistPending, J.UpdateRecord, Prepare, Revalidate;
  }

  lemma Acts(s: State, id: nat, r: J.Record, auth: Auth, ok: bool)
    requires At(s, id, Acting(r, auth), r) && r.phase == J.PhaseExecuting && auth.now != ZERO_TIME
    ensures var s' := Step(Step(s, Act(id, ok)), Transact(id));
            var trace := s.trace + [Execution(r, auth, ok)];
            if ok then Ends(s, s', id, Moved(r, J.PhaseStabilizing, Stabilizing), trace)
            else Ends(s, s', id, Held(r, auth.now), trace)
  {
    hide J.Apply, J.ValidRecord, J.RecordKey, Step;
    ActStep(s, id, r, auth, ok);
    FinishValid(r, auth.now);
    MovedKey(r, J.PhaseStabilizing, Stabilizing);
    var s1 := Step(s, Act(id, ok));
    if ok {
      Writes(s1, id, Finishing(r), r, J.Finish(Stabilizing), Moved(r, J.PhaseStabilizing, Stabilizing));
    } else {
      Writes(s1, id, Uncertain(r, auth.now), r, J.Mark(NO_SNAPSHOT, false, auth.now), Held(r, auth.now));
    }
    assert s1.calls - {id} == s.calls - {id};
  }

  /* ---- From the second check on ---- */

  ghost function Tail(s: State, id: nat, published: bool, ok: bool): State {
    var s1 := Step(s, Publish(id, published));
    var s3 := Step(Step(s1, Transact(id)), Transact(id));
    Step(Step(s3, Act(id, ok)), Transact(id))
  }

  lemma PublishStep(s: State, id: nat, r: J.Record, auth: Auth, ok: bool)
    requires id in s.calls && s.calls[id] == Publishing(r, auth) && r.phase != J.PhaseApproved
    ensures Step(s, Publish(id, ok)) ==
            s.(calls := if ok then s.calls[id := Approving(r, auth)] else s.calls - {id})
  {
    hide J.RecordKey, J.ValidRecord, J.PersistPending, J.UpdateRecord, Prepare, Revalidate;
  }

  /** A call whose announcement fails ends without a trace; otherwise it executes once
      and the answer decides. */
  lemma TailRuns(s: State, id: nat, r: J.Record, auth: Auth, published: bool, ok: bool)
    requires At(s, id, Publishing(r, auth), r) && (r.phase == J.PhasePending || r.phase == J.PhaseAwaiting)
    requires (r.phase == J.PhaseAwaiting ==> r.command.approvalID != "") && auth.now != ZERO_TIME
    ensures var s', started := Tail(s, id, published, ok), Moved(r, J.PhaseExecuting, Executing);
            var trace := s.trace + [Execution(started, auth, ok)];
            if !published then s' == s.(calls := s.calls - {id})
            else if ok then Ends(s, s', id, Moved(r, J.PhaseStabilizing, Stabilizing), trace)
            else Ends(s, s', id, Held(started, auth.now), trace)
  {
    hide J.ValidRecord, J.RecordKey, Step;
    PublishStep(s, id, r, auth, published);
    var s1 := Step(s, Publish(id, published));
    if !published {
      Idles(s1, id);
    } else {
      assert At(s1, id, Approving(r, auth), r);
      ApprovesAndStarts(s1, id, r, auth);
      var started := Moved(r, J.PhaseExecuting, Executing);
      var s3 := Step(Step(s1, Transact(id)), Transact(id));
      Acts(s3, id, started, auth, ok);
      MovedKey(r, J.PhaseExecuting, Executing);
      MovedKey(r, J.PhaseStabilizing, Stabilizing);
      MovedKey(started, J.PhaseStabilizing, Stabilizing);
      assert Moved(started, J.PhaseStabilizing, Stabilizing) == Moved(r, J.PhaseStabilizing, Stabilizing);
      HeldKey(started, auth.now);
      assert s3.calls - {id} == s.calls - {id};
      WroteOver(s, started, Moved(r, J.PhaseStabilizing, Stabilizing));
      WroteOver(s, started, Held(started, auth.now));
    }
  }

  lemma HeldKey(r: J.Record, now: Time)
    ensures KeyOf(Held(r, now)) == KeyOf(r)
  {
  }

  lemma WroteOver(s: State, a: J.Record, b: J.Record)
    requires KeyOf(a) == KeyOf(b)
    ensures Wrote(Wrote(s, a), b) == Wrote(s, b)
  {
    hide KeyOf;
  }

  /* ---- The whole call ---- */

  /** Every label the call could need, in order; those that do not fit do nothing. */
  function Uninterrupted(id: nat, first: Option<ExecutionState>, t1: Time, valid: bool,
                         second: Option<ExecutionState>, t2: Time, published: bool, ok: bool): seq<Label>
  {
    [Recheck(id, first, t1), Validate(id, valid), Recheck(id, second, t2), Publish(id, published),
     Transact(id), Transact(id), Act(id, ok), Transact(id)]
  }

  /** A call that is about to reject: nothing before its transaction concerns it. */
  lemma RejectTail(s: State, id: nat, r: J.Record, expired: bool, published: bool, ok: bool)
    requires At(s, id, Rejecting(r, expired), r) && (r.phase == J.PhasePending || r.phase == J.PhaseAwaiting)
    ensures Ends(s, Tail(s, id, published, ok), id,
                 Moved(r, J.PhaseCompleted, if expired then Expired else Denied), s.trace)
  {
    RejectIgnores(s, id, r, expired, published);
    Rejects(s, id, r, expired);
    Idles(Step(s, Transact(id)), id);
    hide Step, J.ValidRecord, J.RecordKey;
  }

  lemma RejectIgnores(s: State, id: nat, r: J.Record, expired: bool, ok: bool)
    requires id in s.calls && s.calls[id] == Rejecting(r, expired)
    ensures Step(s, Publish(id, ok)) == s && Step(s, Validate(id, ok)) == s
    ensures forall base, now :: Step(s, Recheck(id, base, now)) == s
  {
    hide J.RecordKey, J.ValidRecord, J.PersistPending, J.UpdateRecord, Prepare, Revalidate;
  }

  ghost function Head(s: State, id: nat, first: Option<ExecutionState>, t1: Time, valid: bool,
                      second: Option<ExecutionState>, t2: Time): State
  {
    Step(Step(Step(s, Recheck(id, first, t1)), Validate(id, valid)), Recheck(id, second, t2))
  }

  lemma RecheckStep(s: State, id: nat, r: J.Record, second: bool, base: Option<ExecutionState>, now: Time)
    requires id in s.calls && s.calls[id] == Revalidating(r, second)
    ensures Step(s, Recheck(id, base, now)) == s.(calls := s.calls[id :=
              if IsLate(s.store.approvals, base, r, now) then Rejecting(r, true)
              else if !Passes(s.store.approvals, base, r, now) then Rejecting(r, false)
              else if second then Publishing(r, Seen(s.store.approvals, base, r, now))
              else Validating(r)])
  {
    RevalidateIs(s.store.approvals, base, r, now);
    hide J.RecordKey, J.ValidRecord, J.PersistPending, J.UpdateRecord, Prepare, Revalidate, IsLate, Passes;
  }

  lemma ValidateStep(s: State, id: nat, r: J.Record, ok: bool)
    requires id in s.calls && s.calls[id] == Validating(r)
    ensures Step(s, Validate(id, ok)) ==
            s.(calls := s.calls[id := if ok then Revalidating(r, true) else Rejecting(r, false)])
  {
    hide J.RecordKey, J.ValidRecord, J.PersistPending, J.UpdateRecord, Prepare, Revalidate;
  }

  /** Where the call stands after both checks and the adapter's validation. */
  lemma HeadRuns(s: State, id: nat, r: J.Record, first: Option<ExecutionState>, t1: Time, valid: bool,
                 second: Option<ExecutionState>, t2: Time)
    requires id in s.calls && s.calls[id] == Revalidating(r, false)
    ensures var approvals := s.store.approvals;
            Head(s, id, first, t1, valid, second, t2) == s.(calls := s.calls[id :=
              if IsLate(approvals, first, r, t1) then Rejecting(r, true)
              else if !Passes(approvals, first, r, t1) || !valid then Rejecting(r, false)
              else if IsLate(approvals, second, r, t2) then Rejecting(r, true)
              else if !Passes(approvals, second, r, t2) then Rejecting(r, false)
              else Publishing(r, Seen(approvals, second, r, t2))])
  {
    hide Step, IsLate, Passes;
    RecheckStep(s, id, r, false, first, t1);
    var s1 := Step(s, Recheck(id, first, t1));
    if s1.calls[id].Rejecting? {
      RejectIgnores(s1, id, r, s1.calls[id].expired, valid);
    } else {
      ValidateStep(s1, id, r, valid);
      var s2 := Step(s1, Validate(id, valid));
      if valid {
        RecheckStep(s2, id, r, true, second, t2);
      } else {
        RejectIgnores(s2, id, r, false, valid);
      }
    }
  }

  lemma {:induction false} RunEight(s: State, a: Label, b: Label, c: Label, d: Label,
                                    e: Label, f: Label, g: Label, h: Label)
    ensures Run(s, [a, b, c, d, e, f, g, h]) ==
            Step(Step(Step(Step(Step(Step(Step(Step(s, a), b), c), d), e), f), g), h)
  {
    hide Step;
    var l := [a, b, c, d, e, f, g, h];
    assert l[..8][..7] == l[..7] && l[..7][..6] == l[..6] && l[..6][..5] == l[..5] && l[..5][..4] == l[..4];
    assert l[..4][..3] == l[..3] && l[..3][..2] == l[..2] && l[..2][..1] == l[..1] && l[..1][..0] == [] && l[..8] == l;
    assert Run(s, l[..1]) == Step(s, a);
    assert Run(s, l[..2]) == Step(Run(s, l[..1]), b);
    assert Run(s, l[..3]) == Step(Run(s, l[..2]), c);
    assert Run(s, l[..4]) == Step(Run(s, l[..3]), d);
    assert Run(s, l[..5]) == Step(Run(s, l[..4]), e);
    assert Run(s, l[..6]) == Step(Run(s, l[..5]), f);
    assert Run(s, l[..7]) == Step(Run(s, l[..6]), g);
  }

  lemma CallFacts(s: State, id: nat, r: J.Record)
    requires Inv(s) && id in s.calls && s.calls[id] == Revalidating(r, false)
    requires Present(s, KeyOf(r)) && s.store.journal[KeyOf(r)].record == r
    ensures J.ValidRecord(r) && (r.phase == J.PhaseAwaiting ==> r.command.approvalID != "")
  {
    InvFacts(s, id);
    InvStore(s);
    hide Inv, J.ValidRecord, InJournal, A.Sound;
    assert J.Holds(s.store.journal, KeyOf(r));
  }

  /** An attempt on a pending or granted command that nothing disturbs:
      a check after the command's expiry ends it as expired;
      a check that does not pass, or a refusal by the adapter's validation, ends it as
      denied;
      a failed announcement leaves the command as it was;
      otherwise the action is executed once, on the authority of the second check, and
      success leaves the command stabilizing, an error held for verification. */
  lemma {:induction false} UndisturbedCall(p: seq<Label>, id: nat, r: J.Record, first: Option<ExecutionState>,
                                           t1: Time, valid: bool, second: Option<ExecutionState>, t2: Time,
                                           published: bool, ok: bool)
    requires id in Run(INIT, p).calls && Run(INIT, p).calls[id] == Revalidating(r, false)
    requires Present(Run(INIT, p), KeyOf(r)) && Run(INIT, p).store.journal[KeyOf(r)].record == r
    requires r.phase == J.PhasePending || r.phase == J.PhaseAwaiting
    ensures var s, s' := Run(INIT, p), Run(INIT, p + Uninterrupted(id, first, t1, valid, second, t2, published, ok));
            var approvals := s.store.approvals;
            if IsLate(approvals, first, r, t1) then Ends(s, s', id, Moved(r, J.PhaseCompleted, Expired), s.trace)
            else if !Passes(approvals, first, r, t1) || !valid then
              Ends(s, s', id, Moved(r, J.PhaseCompleted, Denied), s.trace)
            else if IsLate(approvals, second, r, t2) then Ends(s, s', id, Moved(r, J.PhaseCompleted, Expired), s.trace)
            else if !Passes(approvals, second, r, t2) then Ends(s, s', id, Moved(r, J.PhaseCompleted, Denied), s.trace)
            else if !published then s' == s.(calls := s.calls - {id})
            else
              var started, auth := Moved(r, J.PhaseExecuting, Executing), Seen(approvals, second, r, t2);
              var trace := s.trace + [Execution(started, auth, ok)];
              if ok then Ends(s, s', id, Moved(r, J.PhaseStabilizing, Stabilizing), trace)
              else Ends(s, s', id, Held(started, t2), trace)
  {
    var s := Run(INIT, p);
    var l := Uninterrupted(id, first, t1, valid, second, t2, published, ok);
    RunConcat(INIT, p, l);
    ReachableInv(p);
    hide Run, Step, Inv, IsLate, J.ValidRecord, J.RecordKey, Passes;
    RunEight(s, l[0], l[1], l[2], l[3], l[4], l[5], l[6], l[7]);
    CallFacts(s, id, r);
    HeadRuns(s, id, r, first, t1, valid, second, t2);
    var h := Head(s, id, first, t1, valid, second, t2);
    assert h.calls - {id} == s.calls - {id};
    var c := h.calls[id];
    assert At(h, id, c, r);
    if c.Rejecting? {
      RejectTail(h, id, r, c.expired, published, ok);
    } else {
      PassesInTime(s.store.approvals, second, r, t2);
      TailRuns(h, id, r, c.auth, published, ok);
    }
  }

  lemma PassesInTime(approvals: A.Bucket, base: Option<ExecutionState>, r: J.Record, now: Time)
    requires Passes(approvals, base, r, now)
    ensures now != ZERO_TIME && LoadState(approvals, base, r.command).Some?
  {
  }

  /* ---- How a call begins ---- */

  /** A resumed call begins exactly for the one record of the command that waits with an
      approval attached. */
  lemma ResumeBegins(s: State, id: nat, commandID: string, key: J.Key)
    requires J.WellFormed(s.store.journal) && id !in s.calls
    ensures J.OnlyRecord(s.store.journal, commandID, key) ==>
            Step(s, Resume(id, commandID)) ==
            var r := s.store.journal[key].record;
            if r.phase == J.PhaseAwaiting && r.command.approvalID != "" then
              s.(calls := s.calls[id := Revalidating(r, false)])
            else s
    ensures (forall k :: !J.OnlyRecord(s.store.journal, commandID, k)) ==> Step(s, Resume(id, commandID)) == s
  {
    hide J.FindByCommandID, J.WellFormed, J.OnlyRecord, ValidToken;
    forall k ensures J.FindByCommandID(s.store.journal, commandID) == Ok(Some(k)) <==>
                     J.OnlyRecord(s.store.journal, commandID, k) {
      J.FindIff(s.store.journal, commandID, k);
    }
    if J.OnlyRecord(s.store.journal, commandID, key) { OnlyFacts(s.store.journal, commandID, key); }
  }

  lemma OnlyFacts(j: J.Bucket, commandID: string, key: J.Key)
    requires J.WellFormed(j) && J.OnlyRecord(j, commandID, key)
    ensures key in j && j[key].RecordDoc? && ValidToken(commandID, MAX_ID)
    ensures j[key].record.phase == J.PhaseAwaiting ==> j[key].record.command.state == Pending
  {
    assert J.Holds(j, key);
    hide J.RecordKey, ValidToken, J.WellFormed;
  }

  /** A prepared submission that is new is journaled under its key and its idempotency
      key, and is tried at once exactly when the policy allows it; a repetition of
      the same effect changes at most the index, and nothing else is changed. */
  lemma SubmitBegins(s: State, id: nat, q: Request, commandID: string, now: Time)
    requires J.WellFormed(s.store.journal) && id !in s.calls
    ensures var s', j := Step(Step(s, Submit(id, q, commandID, now)), Transact(id)), s.store.journal;
            match Prepare(q, commandID, now)
            case None => s' == s
            case Some(p) =>
              var key, index := KeyOf(p.record), J.IdempotencyKey(q.idempotencyKey);
              if key !in j && index !in j && J.ValidRecord(p.record) then
                s' == s.(store := s.store.(journal := j[key := J.RecordDoc(p.record)][index := J.IndexDoc(key)]),
                         calls := if p.verdict == P.Allow then s.calls[id := Revalidating(p.record, false)]
                                  else s.calls)
              else if key in j && index !in j then
                s' == s.(store := s.store.(journal := j[index := J.IndexDoc(key)]))
              else s' == s
  {
    hide Prepare, J.RecordKey, J.IdempotencyKey, J.ValidRecord, J.PersistPending, J.WellFormed;
    match Prepare(q, commandID, now)
    case None =>
    case Some(p) =>
      PreparedKey(q, commandID, now);
      var s1 := Step(s, Submit(id, q, commandID, now));
      assert s1 == s.(calls := s.calls[id := Persisting(p.record, p.verdict)]);
      assert s1.calls - {id} == s.calls;
      PersistIs(s.store.journal, p.record);
      assert s1.calls[id := Revalidating(p.record, false)] == s.calls[id := Revalidating(p.record, false)];
  }

  lemma PreparedKey(q: Request, commandID: string, now: Time)
    requires Prepare(q, commandID, now).Some?
    ensures Prepare(q, commandID, now).value.record.command.idempotencyKey == q.idempotencyKey
  {
    hide P.Evaluate, P.FindRunbook, ValidToken;
  }

  lemma PersistIs(j: J.Bucket, record: J.Record)
    requires J.WellFormed(j)
    ensures var key, index := J.RecordKey(record.command), J.IdempotencyKey(record.command.idempotencyKey);
            match J.PersistPending(j, record)
            case Err(_) =>
              || (index in j && j[index] != J.IndexDoc(key))
              || (key !in j && index !in j && !J.ValidRecord(record))
            case Ok(p) =>
              if key in j then
                p.duplicate && p.journal == (if index in j then j else j[index := J.IndexDoc(key)])
              else
                && index !in j && J.ValidRecord(record) && !p.duplicate && p.record == record
                && p.journal == j[key := J.RecordDoc(record)][index := J.IndexDoc(key)]
  {
    var key, index := J.RecordKey(record.command), J.IdempotencyKey(record.command.idempotencyKey);
    J.KeyKinds(record.command);
    hide J.ValidRecord, J.RecordKey, J.IdempotencyKey;
    if key in j { assert J.Holds(j, key); }
    if index in j { assert J.Holds(j, index); }
  }

  /* ---- Reconciling and completing ---- */

  lemma WriteFails(s: State, id: nat, c: Call, r: J.Record, t: J.Transition)
    requires At(s, id, c, r) && PendingWrite(c) == Some((KeyOf(r), t)) && !c.Persisting? && J.Apply(t, r).Err?
    ensures Step(s, Transact(id)) == s.(calls := s.calls - {id})
  {
    hide J.Apply, J.ValidRecord, J.RecordKey, AfterWrite, PendingWrite, J.PersistPending;
  }

  /** A record as reconciliation leaves it: held for verification, with what Docker
      reported if that is about the command's own target. */
  function Reconciled(r: J.Record, observed: Option<DockerSnapshot>, now: Time): J.Record {
    match observed
    case None => r.(phase := J.PhaseVerify, reconciliation := Some(J.Reconciliation(now, false, NO_SNAPSHOT)))
    case Some(seen) =>
      var own := seen.targetID == r.command.targetID;
      r.(phase := J.PhaseVerify,
         reconciliation := Some(J.Reconciliation(now, own, if own then seen else NO_SNAPSHOT)))
  }

  lemma MarkIs(r: J.Record, observed: Option<DockerSnapshot>, now: Time)
    requires J.ValidRecord(r) && now != ZERO_TIME
    ensures var own := observed.Some? && observed.value.targetID == r.command.targetID;
            var mark := J.Mark(if own then observed.value else NO_SNAPSHOT, own, now);
            if r.phase == J.PhasePending || r.phase == J.PhaseApproved || r.phase == J.PhaseExecuting then
              && J.Apply(mark, r) == Ok(Reconciled(r, observed, now)) && J.ValidRecord(Reconciled(r, observed, now))
              && KeyOf(Reconciled(r, observed, now)) == KeyOf(r)
            else J.Apply(mark, r).Err?
  {
    hide J.RecordKey, ValidToken;
  }

  /** Looking at the record in line: the next transaction marks it. */
  lemma ObserveStep(s: State, id: nat, r: J.Record, rest: seq<Stored>, observed: Option<DockerSnapshot>, now: Time)
    requires id in s.calls && s.calls[id] == Reconciling([Stored(KeyOf(r), r)] + rest)
    ensures var own := observed.Some? && observed.value.targetID == r.command.targetID;
            var mark := J.Mark(if own then observed.value else NO_SNAPSHOT, own, now);
            Step(s, Observe(id, observed, now)) ==
            s.(calls := if now == ZERO_TIME then s.calls - {id} else s.calls[id := Marking(KeyOf(r), mark, rest)])
  {
    hide J.RecordKey;
    var todo := [Stored(KeyOf(r), r)] + rest;
    assert todo[0] == Stored(KeyOf(r), r) && todo[1..] == rest;
  }

  /** One turn of a reconciliation over a record that is as it was listed: a pending,
      approved or executing one is held for verification and the reconciliation goes
      on with the rest. */
  lemma ReconcileTurn(s: State, id: nat, r: J.Record, rest: seq<Stored>, observed: Option<DockerSnapshot>, now: Time)
    requires At(s, id, Reconciling([Stored(KeyOf(r), r)] + rest), r) && now != ZERO_TIME
    requires r.phase == J.PhasePending || r.phase == J.PhaseApproved || r.phase == J.PhaseExecuting
    ensures Step(Step(s, Observe(id, observed, now)), Transact(id)) ==
            Wrote(s, Reconciled(r, observed, now)).(calls := s.calls[id := Reconciling(rest)])
  {
    hide J.Apply, J.ValidRecord, J.RecordKey, Step, Reconciled;
    MarkIs(r, observed, now);
    ObserveStep(s, id, r, rest, observed, now);
    var own := observed.Some? && observed.value.targetID == r.command.targetID;
    var mark := J.Mark(if own then observed.value else NO_SNAPSHOT, own, now);
    var s1 := Step(s, Observe(id, observed, now));
    assert s1.calls[id := Reconciling(rest)] == s.calls[id := Reconciling(rest)];
    MarkingEnds(s1, id, r, mark, rest, Reconciled(r, observed, now));
  }

  lemma MarkingEnds(s: State, id: nat, r: J.Record, mark: J.Transition, rest: seq<Stored>, r': J.Record)
    requires At(s, id, Marking(KeyOf(r), mark, rest), r)
    requires J.Apply(mark, r) == Ok(r') && J.ValidRecord(r') && KeyOf(r') == KeyOf(r)
    ensures Step(s, Transact(id)) == Wrote(s, r').(calls := s.calls[id := Reconciling(rest)])
  {
    hide J.Apply, J.ValidRecord, J.RecordKey, Step, At;
    Writes(s, id, Marking(KeyOf(r), mark, rest), r, mark, r');
  }

  lemma CompleteIs(r: J.Record, succeeded: bool)
    requires J.ValidRecord(r)
    ensures var next := if succeeded then Succeeded else Failed;
            if r.phase == J.PhaseStabilizing then
              && J.Apply(J.Complete(next), r) == Ok(Moved(r, J.PhaseCompleted, next))
              && J.ValidRecord(Moved(r, J.PhaseCompleted, next))
              && r.command.state != next
            else (r.phase == J.PhaseCompleted && r.command.state == next) || J.Apply(J.Complete(next), r).Err?
  {
    hide ValidToken;
  }

  lemma CompleteStep(s: State, id: nat, commandID: string, succeeded: bool, key: J.Key)
    requires J.WellFormed(s.store.journal) && id !in s.calls && J.OnlyRecord(s.store.journal, commandID, key)
    ensures var r, next := s.store.journal[key].record, if succeeded then Succeeded else Failed;
            Step(s, CompleteStabilization(id, commandID, succeeded)) ==
            if r.phase == J.PhaseCompleted && r.command.state == next then s
            else s.(calls := s.calls[id := Completing(key, next)])
  {
    hide J.FindByCommandID, J.WellFormed, J.OnlyRecord, ValidToken;
    J.FindIff(s.store.journal, commandID, key);
    OnlyFacts(s.store.journal, commandID, key);
  }

  /** Finalizing a command: its only record is completed as told if it is stabilizing,
      and nothing changes otherwise. */
  lemma CompletionIs(s: State, id: nat, commandID: string, succeeded: bool, key: J.Key)
    requires J.WellFormed(s.store.journal) && id !in s.calls && J.OnlyRecord(s.store.journal, commandID, key)
    ensures var r := s.store.journal[key].record;
            Step(Step(s, CompleteStabilization(id, commandID, succeeded)), Transact(id)) ==
            if r.phase == J.PhaseStabilizing then
              Wrote(s, Moved(r, J.PhaseCompleted, if succeeded then Succeeded else Failed))
            else s
  {
    hide J.WellFormed, J.OnlyRecord, KeyOf, J.ValidRecord, Wrote, Moved, Step;
    CompleteStep(s, id, commandID, succeeded, key);
    OnlyIsThere(s, commandID, key);
    var r := s.store.journal[key].record;
    var s1 := Step(s, CompleteStabilization(id, commandID, succeeded));
    if s1 == s {
      CompleteIs(r, succeeded);
      Idles(s, id);
    } else {
      assert s1.calls - {id} == s.calls;
      CompletingEnds(s, s1, id, r, succeeded);
    }
  }

  lemma OnlyIsThere(s: State, commandID: string, key: J.Key)
    requires J.WellFormed(s.store.journal) && J.OnlyRecord(s.store.journal, commandID, key)
    ensures Present(s, key) && J.ValidRecord(s.store.journal[key].record) && KeyOf(s.store.journal[key].record) == key
  {
    assert J.Holds(s.store.journal, key);
    hide J.RecordKey, J.ValidRecord;
  }

  lemma CompletingEnds(s: State, s1: State, id: nat, r: J.Record, succeeded: bool)
    requires Present(s, KeyOf(r)) && s.store.journal[KeyOf(r)].record == r && J.ValidRecord(r)
    requires id !in s.calls
    requires s1 == s.(calls := s.calls[id := Completing(KeyOf(r), if succeeded then Succeeded else Failed)])
    requires s1.calls - {id} == s.calls
    requires !(r.phase == J.PhaseCompleted && r.command.state == if succeeded then Succeeded else Failed)
    ensures Step(s1, Transact(id)) ==
            if r.phase == J.PhaseStabilizing then
              Wrote(s, Moved(r, J.PhaseCompleted, if succeeded then Succeeded else Failed))
            else s
  {
    var next := if succeeded then Succeeded else Failed;
    CompleteIs(r, succeeded);
    MovedKey(r, J.PhaseCompleted, next);
    hide J.Apply, J.ValidRecord, J.RecordKey, Step, Moved;
    assert At(s1, id, Completing(KeyOf(r), next), r);
    if r.phase == J.PhaseStabilizing {
      Writes(s1, id, Completing(KeyOf(r), next), r, J.Complete(next), Moved(r, J.PhaseCompleted, next));
    } else {
      WriteFails(s1, id, Completing(KeyOf(r), next), r, J.Complete(next));
    }
  }
}
