/** Where journaled commands and stored approvals come from: every one of them, in
    every schedule, carries what one call asked for. */
module RecoveryOrigins {
  import opened Text
  import opened Contract
  import opened Recovery
  import opened RecoverySafety
  import opened RecoveryTheorems
  import P = Policy
  import J = Journal
  import A = Approvals

  /* ---- Commands come from submissions ---- */

  /** The registered action that a submission names. */
  ghost predicate Names(q: Request, r: J.Record) {
    exists runbook :: runbook in q.snapshot.runbooks && runbook.runbook.runbookID == q.input.runbookID
                      && 0 <= q.input.actionIndex < |runbook.runbook.typedActions|
                      && runbook.runbook.typedActions[q.input.actionIndex] == r.action
                      && runbook.runbook.riskTier == r.command.riskTier
  }

  /** The command carries the submission's identity and times, and its phase what the
      policy said then. */
  ghost predicate SubmittedAs(l: Label, r: J.Record) {
    && l.Submit?
    && var q, c := l.request, r.command;
    && c.commandID == l.commandID && c.incidentID == q.incidentID
    && c.runbookID == q.input.runbookID && c.runbookDigest == q.input.runbookDigest
    && c.targetID == q.input.targetID && r.target == q.target && q.target.targetID == q.input.targetID
    && c.actionIndex == q.input.actionIndex && c.idempotencyKey == q.idempotencyKey
    && c.issuedAt == l.now && c.expiresAt == q.expiresAt && l.now < q.expiresAt
    && Names(q, r)
    && var verdict := P.Evaluate(q.snapshot, q.input.(commandID := l.commandID, now := l.now)).verdict;
    && verdict != P.Deny
    && (r.phase == J.PhaseAwaiting ==> verdict == P.AwaitApproval)
    && (r.phase == J.PhasePending ==> verdict == P.Allow)
  }

  ghost predicate WasSubmitted(labels: seq<Label>, r: J.Record) {
    exists i :: 0 <= i < |labels| && SubmittedAs(labels[i], r)
  }

  lemma PreparedAs(q: Request, commandID: string, now: Time, id: nat)
    requires Prepare(q, commandID, now).Some?
    ensures SubmittedAs(Submit(id, q, commandID, now), Prepare(q, commandID, now).value.record)
    ensures Prepare(q, commandID, now).value.verdict ==
            P.Evaluate(q.snapshot, q.input.(commandID := commandID, now := now)).verdict
  {
    P.EvaluateAwaitsIff(q.snapshot, q.input.(commandID := commandID, now := now));
    P.FindRunbookFinds(q.snapshot.runbooks, q.input.runbookID);
    hide P.Evaluate, P.FindRunbook, P.ValidSnapshot, P.Runnable, ValidToken;
  }

  /** What a record was submitted as survives every legal write. */
  lemma OriginKept(l: Label, a: J.Record, b: J.Record)
    requires SubmittedAs(l, a) && J.LegalWrite(a, b)
    ensures SubmittedAs(l, b)
  {
    hide P.Evaluate, CanTransition;
    var q := l.request;
    var runbook :| runbook in q.snapshot.runbooks && runbook.runbook.runbookID == q.input.runbookID
                   && 0 <= q.input.actionIndex < |runbook.runbook.typedActions|
                   && runbook.runbook.typedActions[q.input.actionIndex] == a.action
                   && runbook.runbook.riskTier == a.command.riskTier;
    assert Names(q, b);
  }

  lemma SubmittedKept(labels: seq<Label>, l: Label, a: J.Record, b: J.Record)
    requires WasSubmitted(labels, a) && J.LegalWrite(a, b)
    ensures WasSubmitted(labels + [l], b)
  {
    hide SubmittedAs, J.LegalWrite;
    var i :| 0 <= i < |labels| && SubmittedAs(labels[i], a);
    OriginKept(labels[i], a, b);
    assert (labels + [l])[i] == labels[i];
  }

  ghost predicate Traced(labels: seq<Label>, s: State) {
    && (forall key :: Present(s, key) ==> WasSubmitted(labels, s.store.journal[key].record))
    && (forall id :: id in s.calls && s.calls[id].Persisting? ==>
          WasSubmitted(labels, s.calls[id].record))
  }

  lemma PersistingStep(s: State, l: Label, a: nat)
    requires a in Step(s, l).calls && Step(s, l).calls[a].Persisting?
    ensures || (a in s.calls && s.calls[a] == Step(s, l).calls[a])
            || (l.Submit? && SubmittedAs(l, Step(s, l).calls[a].record))
  {
    hide Prepare, J.FindByCommandID, ListsReconcilable, J.Corrupt, A.Decide, Revalidate, Listed,
      J.UpdateRecord, J.PersistPending, J.RecordKey, SubmittedAs;
    if l.Submit? {
      if Prepare(l.request, l.commandID, l.now).Some? { PreparedAs(l.request, l.commandID, l.now, l.id); }
    } else {
      OldPersisting(s, l, a);
    }
  }

  lemma OldPersisting(s: State, l: Label, a: nat)
    requires a in Step(s, l).calls && Step(s, l).calls[a].Persisting? && !l.Submit?
    ensures a in s.calls && s.calls[a] == Step(s, l).calls[a]
  {
    hide Prepare, J.FindByCommandID, ListsReconcilable, J.Corrupt, A.Decide, Revalidate, Listed,
      J.UpdateRecord, J.PersistPending, J.RecordKey;
  }

  lemma NewKeyStep(s: State, l: Label, key: J.Key)
    requires Inv(s) && Present(Step(s, l), key) && key !in s.store.journal
    ensures l.Transact? && l.id in s.calls && s.calls[l.id].Persisting?
    ensures Step(s, l).store.journal[key].record == s.calls[l.id].record
  {
    hide Inv, J.UpdateRecord, J.PersistPending, J.FindByCommandID, ListsReconcilable, Listed, J.Corrupt, A.Decide,
      Prepare, Revalidate, J.WellFormed, KeyOf, J.RecordKey, PendingWrite, AfterWrite, A.Sound;
    match l
    case Decide(r, d) => DecideKeys(s.store, r, d);
    case Transact(id) =>
      if id in s.calls {
        InvFacts(s, id);
        InvStore(s);
        var c := s.calls[id];
        if c.Persisting? {
          PersistedKeys(s.store.journal, c.record, key);
        } else if PendingWrite(c).Some? {
          var (k, t) := PendingWrite(c).value;
          J.UpdateEvolves(s.store.journal, k, t);
          hide J.Evolves;
        }
      }
    case _ =>
  }

  lemma DecideKeys(b: A.Buckets, r: A.Request, d: A.Draws)
    ensures A.Decide(b, r, d).store.journal.Keys == b.journal.Keys
  {
    A.DecideAtomic(b, r, d);
    hide A.Decide, A.OneMoreEvent, A.NotedAs;
  }

  lemma PersistedKeys(j: J.Bucket, record: J.Record, key: J.Key)
    requires J.PersistPending(j, record).Ok? && key !in j
    requires var j' := J.PersistPending(j, record).value.journal; key in j' && j'[key].RecordDoc?
    ensures J.PersistPending(j, record).value.journal[key].record == record
  {
    hide J.ValidRecord, J.RecordKey;
  }

  lemma StepTraced(labels: seq<Label>, s: State, l: Label)
    requires Inv(s) && Traced(labels, s)
    ensures Traced(labels + [l], Step(s, l))
  {
    hide Inv, Step, SubmittedAs, J.LegalWrite, A.Sound;
    var s' := Step(s, l);
    StepKeeps(s, l);
    assert (labels + [l])[|labels|] == l;
    forall key | Present(s', key) ensures WasSubmitted(labels + [l], s'.store.journal[key].record) {
      if key in s.store.journal {
        SubmittedKept(labels, l, s.store.journal[key].record, s'.store.journal[key].record);
      } else {
        NewKeyStep(s, l, key);
        SubmittedGrows(labels, l, s.calls[l.id].record);
      }
    }
    forall id | id in s'.calls && s'.calls[id].Persisting? ensures WasSubmitted(labels + [l], s'.calls[id].record) {
      PersistingStep(s, l, id);
      if id in s.calls && s.calls[id] == s'.calls[id] { SubmittedGrows(labels, l, s.calls[id].record); }
    }
  }

  lemma SubmittedGrows(labels: seq<Label>, l: Label, r: J.Record)
    requires WasSubmitted(labels, r)
    ensures WasSubmitted(labels + [l], r)
  {
    hide SubmittedAs;
    var i :| 0 <= i < |labels| && SubmittedAs(labels[i], r);
    assert (labels + [l])[i] == labels[i];
  }

  lemma {:induction false} RunTraced(labels: seq<Label>)
    ensures Traced(labels, Run(INIT, labels))
  {
    hide Step, Inv, SubmittedAs;
    if labels == [] {
    } else {
      var init, last := labels[..|labels| - 1], labels[|labels| - 1];
      RunTraced(init);
      ReachableInv(init);
      hide Traced;
      StepTraced(init, Run(INIT, init), last);
      assert init + [last] == labels;
    }
  }

  /** Every journaled command was submitted: it has the identity, times, target and
      registered action of one submission that the policy did not deny, and it waits
      for approval only if the policy asked for one then. */
  lemma {:induction false} CommandOrigin(labels: seq<Label>, key: J.Key)
    requires Present(Run(INIT, labels), key)
    ensures exists i :: 0 <= i < |labels| && SubmittedAs(labels[i], Run(INIT, labels).store.journal[key].record)
  {
    RunTraced(labels);
    hide Run, SubmittedAs;
  }

  /* ---- Approvals come from decisions ---- */

  /** The label is a decision call that was recorded. */
  ghost predicate RecordedAt(labels: seq<Label>, i: int) {
    && 0 <= i < |labels| && labels[i].Decide?
    && A.Decide(Run(INIT, labels[..i]).store, labels[i].decision, labels[i].draws).result.Ok?
  }

  /** A recorded decision call that drew this approval ID. */
  ghost predicate Issues(labels: seq<Label>, i: int, id: string) {
    RecordedAt(labels, i) && labels[i].draws.approvalID == id
  }

  /** The approval is what that call asked for, at the time it read. */
  ghost predicate DecidedAs(l: Label, a: Approval) {
    && l.Decide?
    && a == Approval(V1, l.draws.approvalID, l.decision.commandID, l.decision.decision, l.decision.actor,
                     l.decision.reason, l.draws.now, l.decision.expiresAt)
  }

  lemma OnlyDecide(s: State, l: Label)
    requires !l.Decide?
    ensures Step(s, l).store.approvals == s.store.approvals
  {
    hide Prepare, J.FindByCommandID, ListsReconcilable, J.Corrupt, A.Decide, Revalidate, Listed,
      J.UpdateRecord, J.PersistPending, J.RecordKey;
  }

  /** The decision's approval and its index entry are new, and nothing else changes. */
  ghost predicate AddsDecision(before: A.Bucket, after: A.Bucket, l: Label) {
    && l.Decide?
    && var record := A.RecordOf(l.draws.approvalID);
    && record !in before && record in after && after[record].ApprovalDoc? && DecidedAs(l, after[record].approval)
    && after == before[record := after[record]]
                      [A.DecisionOf(l.decision.commandID) := A.ReferenceDoc(l.draws.approvalID)]
  }

  /** A step adds the approval of a recorded decision, or none. */
  lemma ApprovalStep(s: State, l: Label)
    ensures var before, after := s.store.approvals, Step(s, l).store.approvals;
            if l.Decide? && A.Decide(s.store, l.decision, l.draws).result.Ok? then AddsDecision(before, after, l)
            else after == before
  {
    if l.Decide? {
      A.DecideAtomic(s.store, l.decision, l.draws);
      assert Step(s, l).store == A.Decide(s.store, l.decision, l.draws).store;
      hide A.Decide, A.OneMoreEvent, A.NotedAs, Step;
    } else {
      OnlyDecide(s, l);
      hide Step, A.Decide;
    }
  }

  lemma {:induction false} PrefixRun(labels: seq<Label>)
    requires labels != []
    ensures Run(INIT, labels) == Step(Run(INIT, labels[..|labels| - 1]), labels[|labels| - 1])
  {
    hide Step;
  }

  /** Whatever was recorded before is recorded after one more label. */
  lemma RecordedPrefix(labels: seq<Label>, i: int)
    requires 0 <= i < |labels| - 1
    ensures RecordedAt(labels, i) <==> RecordedAt(labels[..|labels| - 1], i)
  {
    hide A.Decide, Run;
    assert labels[..|labels| - 1][..i] == labels[..i];
  }

  lemma {:induction false} ApprovalIssued(labels: seq<Label>, id: string)
    requires A.RecordOf(id) in Run(INIT, labels).store.approvals
    ensures var doc := Run(INIT, labels).store.approvals[A.RecordOf(id)];
            doc.ApprovalDoc? && exists i :: Issues(labels, i, id) && DecidedAs(labels[i], doc.approval)
  {
    hide Step, A.Decide, DecidedAs;
    if labels != [] {
      var init, last := labels[..|labels| - 1], labels[|labels| - 1];
      PrefixRun(labels);
      ApprovalStep(Run(INIT, init), last);
      hide Run;
      if A.RecordOf(id) in Run(INIT, init).store.approvals {
        ApprovalIssued(init, id);
        var i :| Issues(init, i, id) && DecidedAs(init[i], Run(INIT, init).store.approvals[A.RecordOf(id)].approval);
        RecordedPrefix(labels, i);
        assert Issues(labels, i, id);
      } else {
        assert Issues(labels, |init|, id);
      }
    }
  }

  lemma NotIssuedBefore(labels: seq<Label>, k: int, id: string)
    requires Issues(labels, k, id)
    ensures forall i :: 0 <= i < k ==> !Issues(labels, i, id)
  {
    ApprovalStep(Run(INIT, labels[..k]), labels[k]);
    hide A.Decide, Run, Step, DecidedAs;
    NoneBefore(labels[..k], id);
    forall i | 0 <= i < k ensures !Issues(labels, i, id) {
      assert labels[..k][..i] == labels[..i];
      assert RecordedAt(labels, i) <==> RecordedAt(labels[..k], i);
    }
  }

  lemma IssuedWithin(labels: seq<Label>, i: int, id: string)
    requires Issues(labels, i, id)
    ensures 0 <= i
  {
    hide A.Decide, Run;
  }

  /** Every stored approval comes from exactly one recorded decision, with that call's
      approval ID, command, decision, actor, reason, clock reading and requested
      expiry. */
  lemma {:induction false} ApprovalOrigin(labels: seq<Label>, id: string)
    requires A.RecordOf(id) in Run(INIT, labels).store.approvals
    ensures var doc := Run(INIT, labels).store.approvals[A.RecordOf(id)];
            && doc.ApprovalDoc?
            && (exists i :: Issues(labels, i, id) && DecidedAs(labels[i], doc.approval))
    ensures forall i, k :: Issues(labels, i, id) && Issues(labels, k, id) ==> i == k
  {
    hide Run, Issues, DecidedAs;
    ApprovalIssued(labels, id);
    forall i, k | Issues(labels, i, id) && Issues(labels, k, id) ensures i == k {
      NotIssuedBefore(labels, i, id);
      NotIssuedBefore(labels, k, id);
      IssuedWithin(labels, i, id);
      IssuedWithin(labels, k, id);
    }
  }

  /** A recorded decision leaves its approval in the store for good. */
  lemma {:induction false} NoneBefore(labels: seq<Label>, id: string)
    requires A.RecordOf(id) !in Run(INIT, labels).store.approvals
    ensures forall i :: RecordedAt(labels, i) ==> labels[i].draws.approvalID != id
  {
    hide Step, A.Decide, DecidedAs;
    if labels != [] {
      var init, last := labels[..|labels| - 1], labels[|labels| - 1];
      PrefixRun(labels);
      ApprovalStep(Run(INIT, init), last);
      hide Run;
      NoneBefore(init, id);
      forall i | RecordedAt(labels, i) ensures labels[i].draws.approvalID != id {
        if i < |init| { RecordedPrefix(labels, i); }
      }
    }
  }

  /** An execution under a runbook of medium or high risk, one that asks for approval, or
      one that is not automatic, with a source that vouches for none itself, was
      granted by exactly one decision call for that very command and approval ID,
      by an approver authorized in the state just loaded, and the second
      revalidation is before the expiry that this call asked for. */
  lemma {:induction false} GrantBehindExecution(labels: seq<Label>, l: Label)
    requires Step(Run(INIT, labels), l).trace != Run(INIT, labels).trace
    ensures |Step(Run(INIT, labels), l).trace| == |Run(INIT, labels).trace| + 1
    ensures var e := Step(Run(INIT, labels), l).trace[|Run(INIT, labels).trace|];
            (exists r :: r in e.auth.loaded.snapshot.runbooks && r.runbook.runbookID == e.record.command.runbookID
                         && (r.runbook.riskTier != RiskLow || r.runbook.approvalRequired || !r.runbook.autoExecute))
            && e.auth.base.input.approval == None ==>
              exists i :: RecordedAt(labels, i) && labels[i].decision.decision == Granted
                          && labels[i].decision.commandID == e.record.command.commandID
                          && labels[i].draws.approvalID == e.record.command.approvalID
                          && labels[i].decision.actor in e.auth.loaded.snapshot.approvers
                          && e.auth.now < labels[i].decision.expiresAt
  {
    ApprovalGate(labels, l);
    hide Run, Step, InJournal, RevalidateState, A.Sound;
    var s := Run(INIT, labels);
    var e := Step(s, l).trace[|s.trace|];
    if NeedsApproval(e.auth, e.record.command) && e.auth.base.input.approval == None {
      ApprovalOrigin(labels, e.record.command.approvalID);
    }
  }

  /* ---- How a command enters ---- */

  /** The command of a submission, as it is first journaled. */
  function Journaled(q: Request, commandID: string, now: Time, action: TypedAction, risk: RiskTier, approvalID: string,
                     phase: J.Phase): J.Record
  {
    J.Record(
      V1,
      RecoveryCommand(V1, commandID, q.incidentID, q.input.runbookID, q.input.runbookDigest, q.input.targetID,
                      q.input.actionIndex, risk, approvalID, now, q.expiresAt, q.idempotencyKey, Pending),
      q.target, action, phase, None)
  }

  /** The submission names itself, its target and an unexpired time properly. */
  predicate InOrder(q: Request, commandID: string, now: Time) {
    && ValidToken(q.incidentID, MAX_ID) && ValidToken(q.idempotencyKey, MAX_KEY)
    && ValidToken(q.input.runbookID, MAX_ID) && ValidToken(q.input.runbookDigest, MAX_KEY)
    && ValidToken(q.input.targetID, MAX_ID) && q.input.actionIndex >= 0 && q.input.commandID == ""
    && q.target.schema == V1 && q.target.targetID == q.input.targetID && q.target.adapterType == "docker"
    && q.target.enabled && ValidToken(q.target.selector, MAX_KEY)
    && ValidToken(commandID, MAX_ID) && now != ZERO_TIME && q.expiresAt != ZERO_TIME && now < q.expiresAt
  }

  /** A submission is prepared exactly when it is in order and the policy does not deny
      it; the command then waits for approval exactly when the policy asks for one. */
  lemma PreparedIff(q: Request, commandID: string, now: Time)
    ensures var verdict := P.Evaluate(q.snapshot, q.input.(commandID := commandID, now := now)).verdict;
            && (Prepare(q, commandID, now).Some? <==> InOrder(q, commandID, now) && verdict != P.Deny)
            && (Prepare(q, commandID, now).Some? ==>
                  && Prepare(q, commandID, now).value.verdict == verdict
                  && exists runbook :: runbook in q.snapshot.runbooks && runbook.runbook.runbookID == q.input.runbookID
                       && 0 <= q.input.actionIndex < |runbook.runbook.typedActions|
                       && Prepare(q, commandID, now).value.record ==
                          Journaled(q, commandID, now, runbook.runbook.typedActions[q.input.actionIndex],
                                    runbook.runbook.riskTier,
                                    if q.input.approval.Some? then q.input.approval.value.approvalID else "",
                                    if verdict == P.AwaitApproval then J.PhaseAwaiting else J.PhasePending))
  {
    var input := q.input.(commandID := commandID, now := now);
    P.FindRunbookFinds(q.snapshot.runbooks, q.input.runbookID);
    if P.Evaluate(q.snapshot, input).verdict != P.Deny { NotDenied(q.snapshot, input); }
    hide P.Evaluate, P.FindRunbook, ValidToken;
  }

  lemma NotDenied(s: P.Snapshot, input: P.Input)
    requires P.Evaluate(s, input).verdict != P.Deny
    ensures var found := P.FindRunbook(s.runbooks, input.runbookID);
            found.Some? && 0 <= input.actionIndex < |found.value.runbook.typedActions|
  {
    hide P.ValidSnapshot, P.FindRunbook, P.PreconditionsMet, P.CooldownElapsed;
  }
}
