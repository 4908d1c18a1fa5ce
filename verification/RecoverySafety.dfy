/** Whole-run safety of the recovery protocol: for every schedule of any number
    of interleaved and crashing calls. */
module RecoverySafety {
  import opened Text
  import opened Contract
  import opened Recovery
  import P = Policy
  import J = Journal
  import A = Approvals

  /* ---- What each call in flight may rely on ---- */

  function KeyOf(r: J.Record): J.Key {
    J.RecordKey(r.command)
  }

  /** The journal still holds this record, possibly in a later phase. */
  ghost predicate InJournal(j: J.Bucket, r: J.Record) {
    KeyOf(r) in j && j[KeyOf(r)].RecordDoc? && J.Leads(r, j[KeyOf(r)].record)
  }

  /** No decision can be attached to this record any more. */
  predicate ApprovalFixed(r: J.Record) {
    r.phase != J.PhaseAwaiting || r.command.approvalID != ""
  }

  /** A durable grant for exactly this command and approval ID, by an approver
      authorized in the loaded state, still live at the revalidation time. */
  predicate HasGrant(approvals: A.Bucket, c: RecoveryCommand, auth: Auth) {
    && A.DecisionOf(c.commandID) in approvals
    && approvals[A.DecisionOf(c.commandID)] == A.ReferenceDoc(c.approvalID)
    && A.RecordOf(c.approvalID) in approvals
    && approvals[A.RecordOf(c.approvalID)].ApprovalDoc?
    && var a := approvals[A.RecordOf(c.approvalID)].approval;
    && a.decision == Granted
    && a.commandID == c.commandID
    && a.approvalID == c.approvalID
    && a.approver in auth.loaded.snapshot.approvers
    && auth.now < a.expiresAt
  }

  /** The command's runbook, as registered in the state loaded, is of medium or high
      risk, asks for approval, or is not automatic. */
  predicate NeedsApproval(auth: Auth, c: RecoveryCommand) {
    exists r :: r in auth.loaded.snapshot.runbooks && r.runbook.runbookID == c.runbookID
                && (r.runbook.riskTier != RiskLow || r.runbook.approvalRequired || !r.runbook.autoExecute)
  }

  /** The second revalidation allowed this record in time, and if its runbook
      needs approval and the wrapped source vouched for none itself, a durable
      grant backs it. */
  predicate Authorised(approvals: A.Bucket, r: J.Record, auth: Auth) {
    && auth.now != ZERO_TIME
    && auth.now < r.command.expiresAt
    && RevalidateState(auth.loaded, r, auth.now).verdict == P.Allow
    && (auth.base.input.approval == None && NeedsApproval(auth, r.command) ==> HasGrant(approvals, r.command, auth))
  }

  ghost predicate CallOK(store: A.Buckets, c: Call) {
    match c
    case Persisting(r, verdict) => J.Initial(r) && (verdict == P.Allow ==> r.phase == J.PhasePending)
    case Revalidating(r, _) => InJournal(store.journal, r) && ApprovalFixed(r)
    case Validating(r) => InJournal(store.journal, r) && ApprovalFixed(r)
    case Publishing(r, auth) =>
      InJournal(store.journal, r) && ApprovalFixed(r) && Authorised(store.approvals, r, auth)
    case Approving(r, auth) =>
      InJournal(store.journal, r) && ApprovalFixed(r) && Authorised(store.approvals, r, auth)
    case Starting(r, auth) =>
      InJournal(store.journal, r) && ApprovalFixed(r) && Authorised(store.approvals, r, auth)
    case Acting(r, auth) => ActOK(store, r, auth)
    case _ => true
  }

  /** An execution, planned or done: its record has reached the executing phase. */
  ghost predicate ActOK(store: A.Buckets, r: J.Record, auth: Auth) {
    && InJournal(store.journal, r)
    && r.phase == J.PhaseExecuting && r.command.state == Executing
    && Authorised(store.approvals, r, auth)
  }

  /* ---- The invariant ---- */

  ghost predicate CallsOK(s: State) {
    forall id :: id in s.calls ==> CallOK(s.store, s.calls[id])
  }

  ghost predicate TraceOK(s: State) {
    forall i :: 0 <= i < |s.trace| ==> ActOK(s.store, s.trace[i].record, s.trace[i].auth)
  }

  /** An effect is about to be executed by one call at most, has been executed
      once at most, and never both. */
  ghost predicate Exclusive(s: State) {
    && (forall a, b :: a in s.calls && b in s.calls && a != b && s.calls[a].Acting? && s.calls[b].Acting?
          ==> KeyOf(s.calls[a].record) != KeyOf(s.calls[b].record))
    && (forall i, k :: 0 <= i < k < |s.trace| ==> KeyOf(s.trace[i].record) != KeyOf(s.trace[k].record))
    && (forall a, i :: a in s.calls && s.calls[a].Acting? && 0 <= i < |s.trace|
          ==> KeyOf(s.calls[a].record) != KeyOf(s.trace[i].record))
  }

  ghost predicate Inv(s: State) {
    A.Sound(s.store) && CallsOK(s) && TraceOK(s) && Exclusive(s)
  }

  /* ---- Facts survive legal moves of the store ---- */

  lemma InJournalKept(j: J.Bucket, j': J.Bucket, r: J.Record)
    requires InJournal(j, r) && J.Matures(j, j')
    ensures InJournal(j', r)
  {
    hide J.RecordKey, J.Leads;
    J.LeadsTransitive(r, j[KeyOf(r)].record, j'[KeyOf(r)].record);
  }

  lemma AuthorisedKept(a: A.Bucket, a': A.Bucket, r: J.Record, auth: Auth)
    requires Authorised(a, r, auth) && A.Grows(a, a')
    ensures Authorised(a', r, auth)
  {
    hide RevalidateState, NeedsApproval;
  }

  lemma RecordKept(b: A.Buckets, b': A.Buckets, r: J.Record)
    requires InJournal(b.journal, r) && A.SoundMove(b, b')
    ensures InJournal(b'.journal, r)
  {
    hide InJournal, A.Sound, J.Evolves, J.Matures, A.Grows;
    J.EvolvesMatures(b.journal, b'.journal);
    InJournalKept(b.journal, b'.journal, r);
  }

  lemma ClearedKept(b: A.Buckets, b': A.Buckets, r: J.Record, auth: Auth)
    requires InJournal(b.journal, r) && Authorised(b.approvals, r, auth) && A.SoundMove(b, b')
    ensures InJournal(b'.journal, r) && Authorised(b'.approvals, r, auth)
  {
    hide InJournal, Authorised, A.Sound, J.Evolves, A.Grows;
    RecordKept(b, b', r);
    AuthorisedKept(b.approvals, b'.approvals, r, auth);
  }

  lemma CallKept(b: A.Buckets, b': A.Buckets, c: Call)
    requires CallOK(b, c) && A.SoundMove(b, b')
    ensures CallOK(b', c)
  {
    hide InJournal, Authorised, A.SoundMove, ApprovalFixed, J.Initial;
    match c
    case Revalidating(r, _) => RecordKept(b, b', r);
    case Validating(r) => RecordKept(b, b', r);
    case Publishing(r, auth) => ClearedKept(b, b', r, auth);
    case Approving(r, auth) => ClearedKept(b, b', r, auth);
    case Starting(r, auth) => ClearedKept(b, b', r, auth);
    case Acting(r, auth) => ClearedKept(b, b', r, auth);
    case _ =>
  }

  /** A legal store move under all calls and the whole trace. */
  lemma StoreMoves(s: State, store: A.Buckets)
    requires Inv(s) && A.SoundMove(s.store, store)
    ensures Inv(s.(store := store))
  {
    hide CallOK, ActOK, A.SoundMove, J.RecordKey;
    assert A.Sound(store) by { SoundAfter(s.store, store); }
    forall id | id in s.calls ensures CallOK(store, s.calls[id]) {
      CallKept(s.store, store, s.calls[id]);
    }
    forall i | 0 <= i < |s.trace| ensures ActOK(store, s.trace[i].record, s.trace[i].auth) {
      ActKept(s.store, store, s.trace[i].record, s.trace[i].auth);
    }
  }

  lemma SoundAfter(b: A.Buckets, b': A.Buckets)
    requires A.SoundMove(b, b')
    ensures A.Sound(b')
  {
  }

  lemma ActKept(b: A.Buckets, b': A.Buckets, r: J.Record, auth: Auth)
    requires ActOK(b, r, auth) && A.SoundMove(b, b')
    ensures ActOK(b', r, auth)
  {
    hide InJournal, Authorised, A.SoundMove, J.Rank;
    ClearedKept(b, b', r, auth);
  }

  /** Nobody has executed, or is about to execute, this effect. */
  ghost predicate Unclaimed(s: State, key: J.Key) {
    && (forall a :: a in s.calls && s.calls[a].Acting? ==> KeyOf(s.calls[a].record) != key)
    && (forall i :: 0 <= i < |s.trace| ==> KeyOf(s.trace[i].record) != key)
  }

  lemma GoKeeps(s: State, id: nat, c: Call)
    requires Inv(s) && CallOK(s.store, c)
    requires c.Acting? ==> Unclaimed(s, KeyOf(c.record))
    ensures Inv(Go(s, id, c))
  {
    hide CallOK, ActOK, A.Sound, J.RecordKey;
  }

  lemma DropKeeps(s: State, ids: set<nat>)
    requires Inv(s)
    ensures Inv(s.(calls := s.calls - ids))
  {
    hide CallOK, ActOK, A.Sound, J.RecordKey;
  }

  /* ---- Revalidation yields an authorisation ---- */

  lemma PassAuthorises(approvals: A.Bucket, base: Option<ExecutionState>, r: J.Record, now: Time)
    requires A.Matched(approvals)
    requires Revalidate(approvals, base, r, now).Pass?
    ensures Authorised(approvals, r, Revalidate(approvals, base, r, now).auth)
  {
    var auth := Revalidate(approvals, base, r, now).auth;
    if auth.base.input.approval == None && NeedsApproval(auth, r.command) {
      var input := PolicyInput(auth.loaded.input, r.command.commandID, now);
      var runbook :| runbook in auth.loaded.snapshot.runbooks && runbook.runbook.runbookID == r.command.runbookID
        && (runbook.runbook.riskTier != RiskLow || runbook.runbook.approvalRequired || !runbook.runbook.autoExecute);
      P.AllowNeedsGrant(auth.loaded.snapshot, input, runbook);
      hide P.Evaluate, A.ValidApproval, P.FindRunbook;
      LoadedGrant(approvals, auth.base, r.command);
    }
  }

  lemma LoadedGrant(approvals: A.Bucket, base: ExecutionState, c: RecoveryCommand)
    requires base.input.approval == None
    requires LoadState(approvals, Some(base), c).Some?
    ensures var loaded := LoadState(approvals, Some(base), c).value;
            loaded.input.approval.Some? && !loaded.input.approvalRevoked ==>
              && A.DecisionOf(c.commandID) in approvals
              && approvals[A.DecisionOf(c.commandID)] == A.ReferenceDoc(c.approvalID)
              && A.RecordOf(c.approvalID) in approvals
              && approvals[A.RecordOf(c.approvalID)] == A.ApprovalDoc(loaded.input.approval.value)
              && loaded.input.approval.value.approvalID == c.approvalID
  {
  }

  /* ---- Every step keeps the invariant and moves the store legally ---- */

  ghost predicate Kept(s: State, s': State) {
    Inv(s') && A.SoundMove(s.store, s'.store)
  }

  lemma StoreStays(s: State)
    requires Inv(s)
    ensures A.SoundMove(s.store, s.store)
  {
    A.SoundStay(s.store, s.store.audit);
  }

  lemma InvFacts(s: State, id: nat)
    requires Inv(s) && id in s.calls
    ensures CallOK(s.store, s.calls[id]) && A.Sound(s.store)
  {
    hide CallOK, TraceOK, Exclusive, A.Sound;
  }

  lemma InvStore(s: State)
    requires Inv(s)
    ensures A.Sound(s.store) && J.WellFormed(s.store.journal)
  {
    hide CallsOK, TraceOK, Exclusive, J.WellFormed, A.Matched;
  }

  lemma RecordInJournal(j: J.Bucket, key: J.Key)
    requires key in j && key.CommandKey? && J.Holds(j, key)
    ensures KeyOf(j[key].record) == key && InJournal(j, j[key].record)
  {
    hide J.ValidRecord;
  }

  lemma PreparedIsInitial(q: Request, commandID: string, now: Time)
    requires Prepare(q, commandID, now).Some?
    ensures var p := Prepare(q, commandID, now).value;
            J.Initial(p.record) && (p.verdict == P.Allow ==> p.record.phase == J.PhasePending)
  {
    hide ValidRequest, P.Evaluate, P.FindRunbook;
  }

  lemma BeginKeeps(s: State, id: nat, c: Option<Call>)
    requires Inv(s) && (c.Some? ==> CallOK(s.store, c.value) && !c.value.Acting?)
    ensures Kept(s, Begin(s, id, c))
  {
    hide Inv, CallOK, A.SoundMove;
    StoreStays(s);
    if c.Some? { GoKeeps(s, id, c.value); }
  }

  lemma SubmitKeeps(s: State, id: nat, q: Request, commandID: string, now: Time)
    requires Inv(s)
    ensures Kept(s, Begin(s, id, Submitted(q, commandID, now)))
  {
    if Prepare(q, commandID, now).Some? { PreparedIsInitial(q, commandID, now); }
    hide Prepare, Inv;
    BeginKeeps(s, id, Submitted(q, commandID, now));
  }

  lemma ResumeKeeps(s: State, id: nat, commandID: string)
    requires Inv(s)
    ensures Kept(s, Begin(s, id, Resumed(s.store.journal, commandID)))
  {
    var j := s.store.journal;
    hide J.FindByCommandID, Inv, ValidToken;
    match J.FindByCommandID(j, commandID) {
      case Ok(Some(key)) =>
        RecordInJournal(j, key);
      case _ =>
    }
    hide InJournal, J.Holds;
    BeginKeeps(s, id, Resumed(j, commandID));
  }

  lemma CompletionKeeps(s: State, id: nat, commandID: string, succeeded: bool)
    requires Inv(s)
    ensures Kept(s, Begin(s, id, Completion(s.store.journal, commandID, succeeded)))
  {
    hide J.FindByCommandID, Inv, ValidToken;
    BeginKeeps(s, id, Completion(s.store.journal, commandID, succeeded));
  }

  lemma RecheckKeeps(s: State, id: nat, base: Option<ExecutionState>, now: Time)
    requires Inv(s) && id in s.calls && s.calls[id].Revalidating?
    ensures Kept(s, Go(s, id, Rechecked(s, s.calls[id], base, now)))
  {
    var c := s.calls[id];
    StoreStays(s);
    InvFacts(s, id);
    RecheckedOK(s.store, c, base, now);
    hide Inv, CallOK, Revalidate, A.SoundMove;
    assert Rechecked(s, c, base, now) == Rechecked(State(s.store, map[], []), c, base, now);
    GoKeeps(s, id, Rechecked(s, c, base, now));
  }

  lemma RecheckedOK(store: A.Buckets, c: Call, base: Option<ExecutionState>, now: Time)
    requires c.Revalidating? && CallOK(store, c) && A.Sound(store)
    ensures var next := Rechecked(State(store, map[], []), c, base, now);
            CallOK(store, next) && !next.Acting?
  {
    hide Revalidate, InJournal, Authorised, A.Matched, J.WellFormed;
    if Revalidate(store.approvals, base, c.record, now).Pass? {
      PassAuthorises(store.approvals, base, c.record, now);
    }
  }

  /** The external calls other than `Execute`. */
  lemma SimpleKeeps(s: State, id: nat, l: Label)
    requires Inv(s) && id in s.calls && (l.Validate? || l.Publish? || l.Observe?)
    ensures Kept(s, Advance(s, id, l))
  {
    hide Inv, A.SoundMove, A.Sound, CallOK, Observed;
    var c := s.calls[id];
    StoreStays(s);
    InvFacts(s, id);
    DropKeeps(s, {id});
    SimpleOK(s.store, c);
    match l
    case Validate(_, ok) =>
      if c.Validating? { GoKeeps(s, id, if ok then Revalidating(c.record, true) else Rejecting(c.record, false)); }
    case Publish(_, ok) =>
      if c.Publishing? && ok {
        GoKeeps(s, id, if c.record.phase != J.PhaseApproved then Approving(c.record, c.auth)
            else Starting(c.record, c.auth));
      }
    case Observe(_, observed, now) =>
      if c.Reconciling? && Observed(c, observed, now).Some? {
        MarkingOK(s.store, c, observed, now);
        GoKeeps(s, id, Observed(c, observed, now).value);
      }
  }

  lemma SimpleOK(store: A.Buckets, c: Call)
    requires CallOK(store, c)
    ensures c.Validating? ==> CallOK(store, Revalidating(c.record, true)) && CallOK(store, Rejecting(c.record, false))
    ensures c.Publishing? ==> CallOK(store, Approving(c.record, c.auth)) && CallOK(store, Starting(c.record, c.auth))
  {
    hide InJournal, Authorised, ApprovalFixed;
  }

  lemma MarkingOK(store: A.Buckets, c: Call, observed: Option<DockerSnapshot>, now: Time)
    requires c.Reconciling? && Observed(c, observed, now).Some?
    ensures CallOK(store, Observed(c, observed, now).value) && Observed(c, observed, now).value.Marking?
  {
  }

  /** `Adapter.Execute`: the effect moves from about-to-happen to happened. */
  lemma ActKeeps(s: State, id: nat, ok: bool)
    requires Inv(s) && id in s.calls && s.calls[id].Acting?
    ensures Kept(s, Executed(s, id, s.calls[id], ok))
  {
    hide ActOK, CallOK, A.Sound, A.SoundMove, J.RecordKey, Exclusive;
    var c := s.calls[id];
    StoreStays(s);
    InvFacts(s, id);
    var s' := Executed(s, id, c, ok);
    assert Exclusive(s') by { ActExclusive(s, id, ok); }
    assert ActOK(s.store, c.record, c.auth) by { ActFact(s, id); }
    assert TraceOK(s') by {
      forall i | 0 <= i < |s'.trace| ensures ActOK(s'.store, s'.trace[i].record, s'.trace[i].auth) {
        if i < |s.trace| { assert s'.trace[i] == s.trace[i]; }
      }
    }
    AfterActOK(s.store, s'.calls[id]);
    assert CallsOK(s');
  }

  lemma AfterActOK(store: A.Buckets, c: Call)
    requires c.Finishing? || c.Uncertain?
    ensures CallOK(store, c)
  {
  }

  lemma ActFact(s: State, id: nat)
    requires id in s.calls && CallOK(s.store, s.calls[id]) && s.calls[id].Acting?
    ensures ActOK(s.store, s.calls[id].record, s.calls[id].auth)
  {
    hide ActOK;
  }

  lemma ActExclusive(s: State, id: nat, ok: bool)
    requires Exclusive(s) && id in s.calls && s.calls[id].Acting?
    ensures Exclusive(Executed(s, id, s.calls[id], ok))
  {
    hide J.RecordKey;
    var s' := Executed(s, id, s.calls[id], ok);
    forall i, k | 0 <= i < k < |s'.trace| ensures KeyOf(s'.trace[i].record) != KeyOf(s'.trace[k].record) {
      assert s'.trace[i] == s.trace[i];
    }
  }

  /* ---- Transactions ---- */

  lemma JournalMoves(s: State, journal: J.Bucket)
    requires Inv(s) && J.WellFormed(journal) && J.Evolves(s.store.journal, journal)
    ensures Kept(s, Commit(s, journal))
  {
    assert A.SoundMove(s.store, s.store.(journal := journal));
    hide Inv, A.SoundMove, J.WellFormed, J.Evolves;
    StoreMoves(s, s.store.(journal := journal));
  }

  lemma PersistKeeps(s: State, id: nat)
    requires Inv(s) && id in s.calls && s.calls[id].Persisting?
    ensures Kept(s, Persist(s, id, s.calls[id].record, s.calls[id].verdict))
  {
    var c := s.calls[id];
    InvFacts(s, id);
    StoreStays(s);
    assert J.Initial(c.record) && (c.verdict == P.Allow ==> c.record.phase == J.PhasePending);
    assert J.WellFormed(s.store.journal);
    hide Inv, A.SoundMove, A.Sound, J.WellFormed, J.Evolves, J.PersistPending, CallOK, J.RecordKey,
      J.IdempotencyKey, J.Initial;
    DropKeeps(s, {id});
    J.PersistEvolves(s.store.journal, c.record);
    match J.PersistPending(s.store.journal, c.record)
    case Err(_) =>
    case Ok(p) =>
      JournalMoves(s, p.journal);
      var committed := Commit(s, p.journal);
      DropKeeps(committed, {id});
      if !p.duplicate && c.verdict == P.Allow {
        FreshCallOK(committed.store, p.record);
        GoKeeps(committed, id, Revalidating(p.record, false));
      }
  }

  lemma FreshCallOK(store: A.Buckets, r: J.Record)
    requires KeyOf(r) in store.journal && store.journal[KeyOf(r)] == J.RecordDoc(r) && r.phase == J.PhasePending
    ensures CallOK(store, Revalidating(r, false))
  {
    hide J.RecordKey;
  }

  /** The record that `Start` writes is cleared for execution. */
  lemma StartCleared(store: A.Buckets, r: J.Record, auth: Auth, started: J.Record)
    requires InJournal(store.journal, r) && ApprovalFixed(r) && Authorised(store.approvals, r, auth)
    requires J.Apply(J.Start, store.journal[KeyOf(r)].record) == Ok(started)
    ensures KeyOf(started) == KeyOf(r) && started.phase == J.PhaseExecuting && started.command.state == Executing
    ensures Authorised(store.approvals, started, auth)
  {
    assert J.Leads(r, started);
    assert J.Effect(started.command) == J.Effect(r.command);
    SameAuthorisation(store.approvals, r, started, auth);
  }

  lemma SameAuthorisation(approvals: A.Bucket, r: J.Record, later: J.Record, auth: Auth)
    requires Authorised(approvals, r, auth) && J.SameIdentity(r, later)
    requires later.command.approvalID == r.command.approvalID
    ensures Authorised(approvals, later, auth)
  {
    hide P.Evaluate;
    assert RevalidateState(auth.loaded, later, auth.now) == RevalidateState(auth.loaded, r, auth.now);
  }

  /** While a record is only approved, nobody has executed it or is about to. */
  lemma ApprovedUnclaimed(s: State, key: J.Key)
    requires Inv(s) && key in s.store.journal && s.store.journal[key].RecordDoc?
    requires J.Rank(s.store.journal[key].record.phase) < 2
    ensures Unclaimed(s, key)
  {
    hide J.RecordKey, Authorised, A.Sound;
    forall a | a in s.calls && s.calls[a].Acting? ensures KeyOf(s.calls[a].record) != key {
      assert CallOK(s.store, s.calls[a]);
    }
    forall i | 0 <= i < |s.trace| ensures KeyOf(s.trace[i].record) != key {
      assert ActOK(s.store, s.trace[i].record, s.trace[i].auth);
    }
  }

  lemma WriteKeeps(s: State, id: nat)
    requires Inv(s) && id in s.calls && PendingWrite(s.calls[id]).Some?
    ensures var (key, t) := PendingWrite(s.calls[id]).value;
            Kept(s, Write(s, id, s.calls[id], key, t))
  {
    var c := s.calls[id];
    var (key, t) := PendingWrite(c).value;
    assert CallOK(s.store, c) && J.WellFormed(s.store.journal);
    StoreStays(s);
    DropKeeps(s, {id});
    J.UpdateEvolves(s.store.journal, key, t);
    match J.UpdateRecord(s.store.journal, key, t)
    case Err(_) =>
    case Ok(u) =>
      JournalMoves(s, u.journal);
      var committed := Commit(s, u.journal);
      AfterWriteOK(s, c, u);
      hide Inv, A.SoundMove, J.WellFormed, J.Evolves, J.UpdateRecord, CallOK, AfterWrite, Unclaimed;
      DropKeeps(committed, {id});
      if AfterWrite(c, u.record).Some? { GoKeeps(committed, id, AfterWrite(c, u.record).value); }
  }

  lemma AfterWriteOK(s: State, c: Call, u: J.Updated)
    requires Inv(s) && CallOK(s.store, c) && PendingWrite(c).Some?
    requires var (key, t) := PendingWrite(c).value; J.UpdateRecord(s.store.journal, key, t) == Ok(u)
    requires A.SoundMove(s.store, s.store.(journal := u.journal))
    ensures match AfterWrite(c, u.record)
            case None => true
            case Some(next) =>
              && CallOK(s.store.(journal := u.journal), next)
              && (next.Acting? ==> Unclaimed(Commit(s, u.journal), KeyOf(next.record)))
  {
    var store := s.store.(journal := u.journal);
    hide Inv, ActOK, Authorised, InJournal, A.SoundMove, J.UpdateRecord, Unclaimed;
    match c
    case Approving(r, auth) => CallKept(s.store, store, Starting(r, auth));
    case Starting(r, auth) => StartOK(s, r, auth, u);
    case _ =>
  }

  lemma StartOK(s: State, r: J.Record, auth: Auth, u: J.Updated)
    requires Inv(s) && InJournal(s.store.journal, r) && ApprovalFixed(r) && Authorised(s.store.approvals, r, auth)
    requires J.UpdateRecord(s.store.journal, KeyOf(r), J.Start) == Ok(u)
    ensures ActOK(s.store.(journal := u.journal), u.record, auth)
    ensures Unclaimed(Commit(s, u.journal), KeyOf(u.record))
  {
    hide J.RecordKey, Authorised, J.WellFormed, J.Evolves, J.UpdateRecord, J.LegalWrite, Inv, Unclaimed, A.Sound;
    var key := KeyOf(r);
    InvStore(s);
    J.UpdateEvolves(s.store.journal, key, J.Start);
    StartCleared(s.store, r, auth, u.record);
    ApprovedUnclaimed(s, key);
    StillUnclaimed(s, u.journal, key);
    LeadsReflexive(u.record);
  }

  lemma StillUnclaimed(s: State, journal: J.Bucket, key: J.Key)
    requires Unclaimed(s, key)
    ensures Unclaimed(Commit(s, journal), key)
  {
    hide J.RecordKey;
  }

  lemma LeadsReflexive(r: J.Record)
    ensures J.Leads(r, r)
  {
  }

  /* ---- All labels ---- */

  lemma AdvanceKeeps(s: State, id: nat, l: Label)
    requires Inv(s) && id in s.calls
    ensures Kept(s, Advance(s, id, l))
  {
    var c := s.calls[id];
    StoreStays(s);
    hide Inv, A.SoundMove, Rechecked, Executed, Persist, Write, PendingWrite;
    match l
    case Recheck(_, base, now) => if c.Revalidating? { RecheckKeeps(s, id, base, now); }
    case Validate(_, _) => SimpleKeeps(s, id, l);
    case Publish(_, _) => SimpleKeeps(s, id, l);
    case Observe(_, _, _) => SimpleKeeps(s, id, l);
    case Act(_, ok) => if c.Acting? { ActKeeps(s, id, ok); }
    case Transact(_) =>
      if c.Persisting? {
        PersistKeeps(s, id);
      } else if PendingWrite(c).Some? {
        WriteKeeps(s, id);
      }
    case _ =>
  }

  lemma ReconcileKeeps(s: State, id: nat, order: seq<J.Key>)
    requires Inv(s) && ListsReconcilable(s.store.journal, order)
    ensures Kept(s, Go(s, id, Reconciling(Listed(s.store.journal, order))))
  {
    StoreStays(s);
    hide Inv, A.SoundMove, ListsReconcilable, Listed;
    GoKeeps(s, id, Reconciling(Listed(s.store.journal, order)));
  }

  /** Each step preserves the invariant, and changes the store only by a legal
      journal write or by adding a decision. */
  lemma StepKeeps(s: State, l: Label)
    requires Inv(s)
    ensures Inv(Step(s, l)) && A.SoundMove(s.store, Step(s, l).store)
  {
    StoreStays(s);
    assert A.Sound(s.store);
    hide Inv, A.SoundMove, Begin, Submitted, Resumed, Completion, Advance, ListsReconcilable, J.Corrupt, A.Decide,
      A.Sound;
    match l
    case Submit(id, q, commandID, now) => SubmitKeeps(s, id, q, commandID, now);
    case Resume(id, commandID) => ResumeKeeps(s, id, commandID);
    case CompleteStabilization(id, commandID, succeeded) => CompletionKeeps(s, id, commandID, succeeded);
    case Reconcile(id, order) =>
      if ListsReconcilable(s.store.journal, order) { ReconcileKeeps(s, id, order); }
    case Decide(r, d) =>
      A.DecideMove(s.store, r, d);
      StoreMoves(s, A.Decide(s.store, r, d).store);
    case Crash(ids) => DropKeeps(s, ids);
    case _ => if l.id in s.calls { AdvanceKeeps(s, l.id, l); }
  }

  lemma {:induction false} RunKeeps(s: State, labels: seq<Label>)
    requires Inv(s)
    ensures Inv(Run(s, labels))
  {
    hide Inv, Step, A.SoundMove;
    if labels != [] {
      RunKeeps(s, labels[..|labels| - 1]);
      StepKeeps(Run(s, labels[..|labels| - 1]), labels[|labels| - 1]);
    }
  }

  lemma InitInv()
    ensures Inv(INIT)
  {
  }
}
