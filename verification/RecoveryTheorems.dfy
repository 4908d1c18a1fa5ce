/** The guarantees of the recovery protocol, each for every schedule. */
module RecoveryTheorems {
  import opened Text
  import opened Contract
  import opened Recovery
  import opened RecoverySafety
  import P = Policy
  import J = Journal
  import A = Approvals

  lemma {:induction false} ReachableInv(labels: seq<Label>)
    ensures Inv(Run(INIT, labels))
  {
    InitInv();
    hide Inv, Run;
    RunKeeps(INIT, labels);
  }

  lemma {:induction false} RunConcat(s: State, p: seq<Label>, q: seq<Label>)
    ensures Run(s, p + q) == Run(Run(s, p), q)
  {
    hide Step;
    if q == [] {
      assert p + q == p;
    } else {
      assert (p + q)[..|p + q| - 1] == p + q[..|q| - 1];
      RunConcat(s, p, q[..|q| - 1]);
    }
  }

  lemma {:induction false} RunOne(s: State, l: Label)
    ensures Run(s, [l]) == Step(s, l)
  {
    hide Step;
    assert [l][..0] == [];
  }

  /* ---- At most one execution per effect ---- */

  /** In no schedule does `Adapter.Execute` run twice for one incident, runbook,
      digest, target and action. */
  lemma {:induction false} AtMostOnce(labels: seq<Label>, i: nat, k: nat)
    requires i < k < |Run(INIT, labels).trace|
    ensures var trace := Run(INIT, labels).trace;
            !J.SameEffect(trace[i].record.command, trace[k].record.command)
  {
    ReachableInv(labels);
    hide Run, CallsOK, TraceOK, A.Sound;
    var trace := Run(INIT, labels).trace;
    var a, b := trace[i].record.command, trace[k].record.command;
    assert J.SameEffect(a, b) ==> J.Effect(a) == J.Effect(b);
  }

  /* ---- Nothing executes without its grant ---- */

  lemma TraceStep(s: State, l: Label)
    ensures || Step(s, l).trace == s.trace
            || (&& l.Act? && l.id in s.calls && s.calls[l.id].Acting?
                && Step(s, l).trace == s.trace + [Execution(s.calls[l.id].record, s.calls[l.id].auth, l.ok)])
  {
    hide Submitted, Resumed, Completion, ListsReconcilable, J.Corrupt, A.Decide, Rechecked, Observed, Listed,
      J.UpdateRecord, J.PersistPending, PendingWrite, AfterWrite;
  }

  /** Every execution was revalidated before the command's expiry, and one under
      a runbook that needs approval, with a source that vouches for none
      itself, finds in the store a durable grant for that command and approval
      ID, by an approver authorized in the state just loaded, not yet expired at
      the revalidation time. */
  lemma {:induction false} ApprovalGate(labels: seq<Label>, l: Label)
    requires Step(Run(INIT, labels), l).trace != Run(INIT, labels).trace
    ensures var s := Run(INIT, labels);
            && |Step(s, l).trace| == |s.trace| + 1 && s.trace <= Step(s, l).trace
            && var e := Step(s, l).trace[|s.trace|];
            && e.record.command.state == Executing
            && e.auth.now < e.record.command.expiresAt
            && (e.auth.base.input.approval == None && NeedsApproval(e.auth, e.record.command)
                ==> HasGrant(s.store.approvals, e.record.command, e.auth))
  {
    var s := Run(INIT, labels);
    ReachableInv(labels);
    TraceStep(s, l);
    hide Run, Step, Inv, HasGrant, NeedsApproval, InJournal, RevalidateState, A.Sound;
    InvFacts(s, l.id);
    ActFact(s, l.id);
  }

  /** The state loaded at the last revalidation is about this very command, and the
      action and target executed are the registered ones. */
  ghost predicate SameAsRegistered(r: J.Record, loaded: ExecutionState) {
    && loaded.input.runbookID == r.command.runbookID
    && loaded.input.runbookDigest == r.command.runbookDigest
    && loaded.input.targetID == r.command.targetID
    && loaded.input.actionIndex == r.command.actionIndex
    && loaded.target.schema == r.target.schema
    && loaded.target.targetID == r.target.targetID
    && loaded.target.adapterType == r.target.adapterType
    && loaded.target.selector == r.target.selector
    && loaded.target.enabled == r.target.enabled
    && exists runbook :: runbook in loaded.snapshot.runbooks && runbook.runbook.runbookID == r.command.runbookID
         && 0 <= r.command.actionIndex < |runbook.runbook.typedActions|
         && runbook.runbook.typedActions[r.command.actionIndex] == r.action
  }

  /** Whatever is executed in any schedule was authorized by the policy under the
      state loaded last, for the same runbook, digest, target and action index,
      and is the action that the runbook registers there. */
  lemma {:induction false} ExecutesOnlyAuthorized(labels: seq<Label>, i: nat)
    requires i < |Run(INIT, labels).trace|
    ensures var e := Run(INIT, labels).trace[i];
            && P.Authorized(e.auth.loaded.snapshot,
                            e.auth.loaded.input.(commandID := e.record.command.commandID, now := e.auth.now))
            && SameAsRegistered(e.record, e.auth.loaded)
  {
    ReachableInv(labels);
    var e := Run(INIT, labels).trace[i];
    hide Run, CallsOK, Exclusive, A.Sound, InJournal, HasGrant, NeedsApproval;
    assert ActOK(Run(INIT, labels).store, e.record, e.auth);
    AllowedIsRegistered(e.record, e.auth);
  }

  lemma AllowedIsRegistered(r: J.Record, auth: Auth)
    requires RevalidateState(auth.loaded, r, auth.now).verdict == P.Allow
    ensures P.Authorized(auth.loaded.snapshot, auth.loaded.input.(commandID := r.command.commandID, now := auth.now))
    ensures SameAsRegistered(r, auth.loaded)
  {
    P.EvaluateAllowsIff(auth.loaded.snapshot, PolicyInput(auth.loaded.input, r.command.commandID, auth.now));
    P.FindRunbookFinds(auth.loaded.snapshot.runbooks, r.command.runbookID);
    hide P.Evaluate, P.Authorized, P.FindRunbook;
  }

  /* ---- The journal refines the command lifecycle ---- */

  /** Every reachable journal is well formed, and every step writes it only
      legally: at most one step of the command table per record, with a strict
      rise in phase rank on every phase change. */
  lemma {:induction false} JournalRefines(labels: seq<Label>, l: Label)
    ensures J.WellFormed(Run(INIT, labels).store.journal)
    ensures J.Evolves(Run(INIT, labels).store.journal, Step(Run(INIT, labels), l).store.journal)
  {
    var s := Run(INIT, labels);
    ReachableInv(labels);
    hide Run, Step, Inv, J.WellFormed, J.Evolves, A.Sound;
    InvStore(s);
    StepKeeps(s, l);
  }

  lemma {:induction false} RunMatures(s: State, labels: seq<Label>)
    requires Inv(s)
    ensures J.Matures(s.store.journal, Run(s, labels).store.journal)
    ensures A.Grows(s.store.approvals, Run(s, labels).store.approvals)
  {
    hide Step, Inv, J.Matures, J.Evolves, A.Sound;
    if labels == [] {
      J.MaturesReflexive(s.store.journal);
    } else {
      var middle := Run(s, labels[..|labels| - 1]);
      RunMatures(s, labels[..|labels| - 1]);
      RunKeeps(s, labels[..|labels| - 1]);
      StepKeeps(middle, labels[|labels| - 1]);
      J.EvolvesMatures(middle.store.journal, Run(s, labels).store.journal);
      J.MaturesTransitive(s.store.journal, middle.store.journal, Run(s, labels).store.journal);
    }
  }

  predicate Present(s: State, key: J.Key) {
    key in s.store.journal && s.store.journal[key].RecordDoc?
  }

  /** How often the phase of one record changes along a schedule. */
  function PhaseChanges(labels: seq<Label>, key: J.Key): nat {
    if labels == [] then 0
    else
      var init := labels[..|labels| - 1];
      var before, after := Run(INIT, init), Run(INIT, labels);
      PhaseChanges(init, key) +
      if Present(before, key) && Present(after, key)
         && before.store.journal[key].record.phase != after.store.journal[key].record.phase then 1 else 0
  }

  lemma PhaseRises(j: J.Bucket, j': J.Bucket, key: J.Key)
    requires J.Evolves(j, j') && key in j && j[key].RecordDoc?
    ensures key in j' && j'[key].RecordDoc?
    ensures j[key].record.phase == j'[key].record.phase || J.Rank(j[key].record.phase) < J.Rank(j'[key].record.phase)
  {
    hide J.SameIdentity, CanTransition;
  }

  /** A command changes phase at most four times, whatever happens. */
  lemma {:induction false} PhaseChangesBounded(labels: seq<Label>, key: J.Key)
    ensures PhaseChanges(labels, key)
         <= if Present(Run(INIT, labels), key) then J.Rank(Run(INIT, labels).store.journal[key].record.phase) else 0
    ensures PhaseChanges(labels, key) <= 4
  {
    hide Step, J.WellFormed, J.Evolves;
    if labels != [] {
      var init := labels[..|labels| - 1];
      PhaseChangesBounded(init, key);
      JournalRefines(init, labels[|labels| - 1]);
      if Present(Run(INIT, init), key) {
        PhaseRises(Run(INIT, init).store.journal, Run(INIT, labels).store.journal, key);
      }
    }
  }

  /** Once written, an idempotency key points at the same record for ever, and
      the record is there. */
  lemma {:induction false} IndexForever(p: seq<Label>, q: seq<Label>, index: J.Key)
    requires index in Run(INIT, p).store.journal && Run(INIT, p).store.journal[index].IndexDoc?
    ensures var before, after := Run(INIT, p).store.journal, Run(INIT, p + q).store.journal;
            && index in after && after[index] == before[index]
            && var key := before[index].target;
            && key in before && before[key].RecordDoc? && key in after && after[key].RecordDoc?
            && J.SameIdentity(before[key].record, after[key].record)
  {
    var s := Run(INIT, p);
    RunConcat(INIT, p, q);
    ReachableInv(p);
    hide Run, Inv, A.Sound, J.ValidRecord, J.RecordKey, J.SameIdentity, J.Reaches;
    InvStore(s);
    assert J.Holds(s.store.journal, index);
    assert J.Holds(s.store.journal, s.store.journal[index].target);
    RunMatures(s, q);
  }

  /* ---- Rejected commands never execute ---- */

  /** A command that is denied or expired at any point of a schedule is executed
      neither before nor after that point. */
  lemma {:induction false} RejectedNeverExecutes(p: seq<Label>, q: seq<Label>, key: J.Key, i: nat)
    requires Present(Run(INIT, p), key)
    requires Run(INIT, p).store.journal[key].record.command.state in {Denied, Expired}
    requires i < |Run(INIT, p + q).trace|
    ensures KeyOf(Run(INIT, p + q).trace[i].record) != key
  {
    var s, s' := Run(INIT, p), Run(INIT, p + q);
    RunConcat(INIT, p, q);
    ReachableInv(p);
    ReachableInv(p + q);
    hide Run, A.Sound, J.RecordKey, Authorised, CallsOK, Exclusive, J.SameIdentity;
    RunMatures(s, q);
    var r := s'.trace[i].record;
    assert ActOK(s'.store, r, s'.trace[i].auth);
    assert KeyOf(r) == key ==> J.Leads(s.store.journal[key].record, s'.store.journal[key].record);
  }

  /* ---- Verify-and-notify and the one race it leaves ---- */

  /** A call that has started the effect under `key` and has not yet acted. */
  ghost predicate BeingActed(s: State, key: J.Key) {
    exists id :: id in s.calls && s.calls[id].Acting? && KeyOf(s.calls[id].record) == key
  }

  lemma ActingStep(s: State, l: Label, a: nat)
    requires a in Step(s, l).calls && Step(s, l).calls[a].Acting?
    ensures a in s.calls
    ensures || s.calls[a] == Step(s, l).calls[a]
            || (&& s.calls[a].Starting?
                && var u := J.UpdateRecord(s.store.journal, KeyOf(s.calls[a].record), J.Start);
                   u.Ok? && Step(s, l).calls[a].record == u.value.record)
  {
    hide Prepare, J.FindByCommandID, ListsReconcilable, J.Corrupt, A.Decide, Revalidate, Listed,
      J.UpdateRecord, J.PersistPending, J.RecordKey;
  }

  lemma StartNeedsApproved(j: J.Bucket, key: J.Key)
    requires J.UpdateRecord(j, key, J.Start).Ok?
    ensures key in j && j[key].RecordDoc? && j[key].record.phase == J.PhaseApproved
    ensures J.RecordKey(J.UpdateRecord(j, key, J.Start).value.record.command) == key
  {
    hide J.ValidRecord, J.RecordKey;
  }

  /** A record held for verification that no call is acting on stays that way. */
  lemma QuietStep(s: State, l: Label, key: J.Key)
    requires Inv(s) && Present(s, key) && s.store.journal[key].record.phase == J.PhaseVerify
    requires !BeingActed(s, key)
    ensures Present(Step(s, l), key) && Step(s, l).store.journal[key].record.phase == J.PhaseVerify
    ensures !BeingActed(Step(s, l), key)
    ensures forall i :: |s.trace| <= i < |Step(s, l).trace| ==> KeyOf(Step(s, l).trace[i].record) != key
  {
    hide Inv, Step, J.RecordKey, J.UpdateRecord, A.Sound;
    StepKeeps(s, l);
    var s' := Step(s, l);
    J.EvolvesMatures(s.store.journal, s'.store.journal);
    J.TerminalAbsorbs(s.store.journal[key].record, s'.store.journal[key].record);
    TraceStep(s, l);
    if BeingActed(s', key) {
      var a :| a in s'.calls && s'.calls[a].Acting? && KeyOf(s'.calls[a].record) == key;
      ActingStep(s, l, a);
      if s.calls[a] != s'.calls[a] {
        StartNeedsApproved(s.store.journal, KeyOf(s.calls[a].record));
      }
    }
  }

  lemma {:induction false} QuietRun(s: State, labels: seq<Label>, key: J.Key)
    requires Inv(s) && Present(s, key) && s.store.journal[key].record.phase == J.PhaseVerify
    requires !BeingActed(s, key)
    ensures Present(Run(s, labels), key) && Run(s, labels).store.journal[key].record.phase == J.PhaseVerify
    ensures !BeingActed(Run(s, labels), key)
    ensures |s.trace| <= |Run(s, labels).trace|
    ensures forall i :: |s.trace| <= i < |Run(s, labels).trace| ==> KeyOf(Run(s, labels).trace[i].record) != key
  {
    hide Inv, Step, J.RecordKey, BeingActed;
    if labels != [] {
      var init := labels[..|labels| - 1];
      QuietRun(s, init, key);
      RunKeeps(s, init);
      TraceStep(Run(s, init), labels[|labels| - 1]);
      QuietStep(Run(s, init), labels[|labels| - 1], key);
    }
  }

  /** Some continuation executes the effect under `key`. */
  ghost predicate MayStillExecute(s: State, key: J.Key) {
    exists labels: seq<Label>, i: nat ::
      |s.trace| <= i < |Run(s, labels).trace| && KeyOf(Run(s, labels).trace[i].record) == key
  }

  /** A command already moved to verify-and-notify can still be executed exactly
      when a live call had started it and not yet reached the adapter: the
      journal alone does not stop that call. */
  lemma {:induction false} ExecutesAfterVerifyIff(p: seq<Label>, key: J.Key)
    requires Present(Run(INIT, p), key) && Run(INIT, p).store.journal[key].record.phase == J.PhaseVerify
    ensures MayStillExecute(Run(INIT, p), key) <==> BeingActed(Run(INIT, p), key)
  {
    var s := Run(INIT, p);
    ReachableInv(p);
    hide Inv, Step, J.RecordKey;
    if BeingActed(s, key) {
      var id :| id in s.calls && s.calls[id].Acting? && KeyOf(s.calls[id].record) == key;
      ActAppends(s, id);
      RunOne(s, Act(id, true));
      hide Run;
      assert KeyOf(Run(s, [Act(id, true)]).trace[|s.trace|].record) == key;
    } else if MayStillExecute(s, key) {
      var labels: seq<Label>, i: nat :|
        |s.trace| <= i < |Run(s, labels).trace| && KeyOf(Run(s, labels).trace[i].record) == key;
      hide Run;
      QuietRun(s, labels, key);
    }
  }

  lemma ActAppends(s: State, id: nat)
    requires id in s.calls && s.calls[id].Acting?
    ensures Step(s, Act(id, true)).trace == s.trace + [Execution(s.calls[id].record, s.calls[id].auth, true)]
  {
    hide Submitted, Resumed, Completion, ListsReconcilable, J.Corrupt, A.Decide, Rechecked, Observed, Listed,
      Transacted;
  }

  /* ---- After a restart ---- */

  /** A call on its way to executing the effect under `key`. */
  predicate Engaged(c: Call, key: J.Key) {
    (c.Revalidating? || c.Validating? || c.Publishing? || c.Approving? || c.Starting? || c.Acting?)
        && KeyOf(c.record) == key
  }

  /** The record is past waiting for a decision, and no call is executing it. */
  ghost predicate Idle(s: State, key: J.Key) {
    && Present(s, key) && s.store.journal[key].record.phase != J.PhaseAwaiting
    && forall id :: id in s.calls ==> !Engaged(s.calls[id], key)
  }

  lemma IdleRecord(j: J.Bucket, j': J.Bucket, key: J.Key)
    requires J.Evolves(j, j') && key in j && j[key].RecordDoc? && j[key].record.phase != J.PhaseAwaiting
    ensures key in j' && j'[key].RecordDoc? && j'[key].record.phase != J.PhaseAwaiting
  {
    hide J.SameIdentity, CanTransition;
  }

  lemma FoundKey(j: J.Bucket, commandID: string)
    ensures match J.FindByCommandID(j, commandID)
            case Ok(Some(key)) => key in j && j[key].RecordDoc? && J.RecordKey(j[key].record.command) == key
            case _ => true
  {
    hide J.ValidRecord, J.RecordKey, J.Corrupt;
  }

  lemma UpdatedKey(j: J.Bucket, key: J.Key, t: J.Transition)
    ensures J.UpdateRecord(j, key, t).Ok? ==> J.RecordKey(J.UpdateRecord(j, key, t).value.record.command) == key
  {
    hide J.ValidRecord, J.RecordKey, J.Apply;
  }

  lemma PersistedNew(j: J.Bucket, record: J.Record)
    ensures J.PersistPending(j, record).Ok? && !J.PersistPending(j, record).value.duplicate ==>
              J.PersistPending(j, record).value.record == record && J.RecordKey(record.command) !in j
  {
    hide J.ValidRecord, J.RecordKey, J.IdempotencyKey;
  }

  /** A call becomes engaged only from an engaged call, for a new record, or for one
      that still waits for its decision. */
  lemma EngagedStep(s: State, l: Label, a: nat, key: J.Key)
    requires a in Step(s, l).calls && Engaged(Step(s, l).calls[a], key)
    ensures || (a in s.calls && Engaged(s.calls[a], key))
            || !Present(s, key)
            || s.store.journal[key].record.phase == J.PhaseAwaiting
  {
    hide J.RecordKey, J.UpdateRecord, J.PersistPending, J.FindByCommandID, ListsReconcilable, Listed, J.Corrupt,
      A.Decide, Revalidate, Prepare;
    match l
    case Resume(id, commandID) => FoundKey(s.store.journal, commandID);
    case Transact(id) =>
      if id in s.calls && id == a {
        var c := s.calls[id];
        if c.Persisting? {
          PersistedNew(s.store.journal, c.record);
        } else if PendingWrite(c).Some? {
          UpdatedKey(s.store.journal, PendingWrite(c).value.0, PendingWrite(c).value.1);
        }
      }
    case _ =>
  }

  lemma IdleStep(s: State, l: Label, key: J.Key)
    requires Inv(s) && Idle(s, key)
    ensures Idle(Step(s, l), key) && |s.trace| <= |Step(s, l).trace|
    ensures forall i :: |s.trace| <= i < |Step(s, l).trace| ==> KeyOf(Step(s, l).trace[i].record) != key
  {
    hide Inv, Step, J.RecordKey, J.Evolves, A.Sound;
    StepKeeps(s, l);
    IdleRecord(s.store.journal, Step(s, l).store.journal, key);
    TraceStep(s, l);
    forall a | a in Step(s, l).calls ensures !Engaged(Step(s, l).calls[a], key) {
      if Engaged(Step(s, l).calls[a], key) { EngagedStep(s, l, a, key); }
    }
  }

  lemma {:induction false} IdleRun(s: State, labels: seq<Label>, key: J.Key)
    requires Inv(s) && Idle(s, key)
    ensures Idle(Run(s, labels), key) && |s.trace| <= |Run(s, labels).trace|
    ensures forall i :: |s.trace| <= i < |Run(s, labels).trace| ==> KeyOf(Run(s, labels).trace[i].record) != key
  {
    hide Inv, Step, J.RecordKey, Idle;
    if labels != [] {
      var init := labels[..|labels| - 1];
      IdleRun(s, init, key);
      RunKeeps(s, init);
      TraceStep(Run(s, init), labels[|labels| - 1]);
      IdleStep(Run(s, init), labels[|labels| - 1], key);
    }
  }

  /** With no call in flight, as after a restart, a command that is present and not
      waiting for a decision is never executed later, reconciled or not. */
  lemma {:induction false} NeverExecutedAfterRestart(p: seq<Label>, q: seq<Label>, key: J.Key, i: nat)
    requires Run(INIT, p).calls == map[]
    requires Present(Run(INIT, p), key) && Run(INIT, p).store.journal[key].record.phase != J.PhaseAwaiting
    requires |Run(INIT, p).trace| <= i < |Run(INIT, p + q).trace|
    ensures KeyOf(Run(INIT, p + q).trace[i].record) != key
  {
    RunConcat(INIT, p, q);
    ReachableInv(p);
    hide Run, Inv, J.RecordKey;
    IdleRun(Run(INIT, p), q, key);
  }

  /* ---- At most one decision per command ---- */

  predicate Decides(s: State, l: Label, commandID: string) {
    l.Decide? && l.decision.commandID == commandID && A.Decide(s.store, l.decision, l.draws).result.Ok?
  }

  function Decisions(labels: seq<Label>, commandID: string): nat {
    if labels == [] then 0
    else
      var init := labels[..|labels| - 1];
      Decisions(init, commandID) + if Decides(Run(INIT, init), labels[|labels| - 1], commandID) then 1 else 0
  }

  lemma DecisionIsNew(s: State, l: Label, commandID: string)
    requires Decides(s, l, commandID)
    ensures A.DecisionOf(commandID) !in s.store.approvals
    ensures A.DecisionOf(commandID) in Step(s, l).store.approvals
  {
    hide A.Decide, Advance, Submitted, Resumed, Completion, ListsReconcilable;
    A.DecideAtomic(s.store, l.decision, l.draws);
  }

  /** Over any schedule a command is granted or denied at most once. */
  lemma {:induction false} DecidedAtMostOnce(labels: seq<Label>, commandID: string)
    ensures Decisions(labels, commandID) <= 1
    ensures Decisions(labels, commandID) == 1 ==> A.DecisionOf(commandID) in Run(INIT, labels).store.approvals
  {
    if labels != [] {
      var init, last := labels[..|labels| - 1], labels[|labels| - 1];
      DecidedAtMostOnce(init, commandID);
      ReachableInv(init);
      hide Step, Inv, Decides, J.Evolves, A.Sound;
      StepKeeps(Run(INIT, init), last);
      if Decides(Run(INIT, init), last, commandID) { DecisionIsNew(Run(INIT, init), last, commandID); }
    }
  }

  /** Approval records and the command index are inverse in every reachable
      store, and neither is ever overwritten. */
  lemma {:induction false} ApprovalsPermanent(p: seq<Label>, q: seq<Label>)
    ensures A.Matched(Run(INIT, p).store.approvals)
    ensures A.Grows(Run(INIT, p).store.approvals, Run(INIT, p + q).store.approvals)
  {
    RunConcat(INIT, p, q);
    ReachableInv(p);
    hide Run, CallsOK, TraceOK, Exclusive, A.Matched, A.Grows, J.WellFormed;
    RunMatures(Run(INIT, p), q);
  }
}
