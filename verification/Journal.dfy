/** The recovery command journal: records, their phase transitions, and the
    transactions that write them. */
module Journal {
  import opened Text
  import opened Contract

  datatype Phase =
    | PhasePending
    | PhaseAwaiting
    | PhaseApproved
    | PhaseExecuting
    | PhaseStabilizing
    | PhaseCompleted
    | PhaseVerify

  datatype Reconciliation = Reconciliation(observedAt: Time, verified: bool, snapshot: DockerSnapshot)

  datatype Record = Record(
    schema: Schema, command: RecoveryCommand, target: ServiceTarget, action: TypedAction,
    phase: Phase, reconciliation: Option<Reconciliation>)

  /** A bucket key: `command/` or `idempotency/` followed by the SHA-256 of an
      identity, with the hash idealised as injective. */
  datatype Key = CommandKey(identity: string) | IndexKey(identity: string)

  datatype Doc = RecordDoc(record: Record) | IndexDoc(target: Key)

  type Bucket = map<Key, Doc>

  datatype Error = CorruptJournal | NotExecutable | IdempotencyConflict | InvalidRequest

  /* ---- Keys ---- */

  function Itoa(i: int): string {
    if i < 0 then "-" + Format(-i) else Format(i)
  }

  /** The effect a command stands for. */
  function Effect(c: RecoveryCommand): seq<string> {
    [c.incidentID, c.runbookID, c.runbookDigest, c.targetID, Itoa(c.actionIndex)]
  }

  function RecordKey(c: RecoveryCommand): Key {
    CommandKey(Joined(Effect(c)))
  }

  function IdempotencyKey(key: string): Key {
    IndexKey(Joined([key]))
  }

  predicate ValidNames(c: RecoveryCommand) {
    && ValidToken(c.commandID, MAX_ID)
    && ValidToken(c.incidentID, MAX_ID)
    && ValidToken(c.runbookID, MAX_ID)
    && ValidToken(c.runbookDigest, MAX_KEY)
    && ValidToken(c.targetID, MAX_ID)
    && ValidToken(c.idempotencyKey, MAX_KEY)
    && (c.approvalID == "" || ValidToken(c.approvalID, MAX_ID))
  }

  predicate SameEffect(a: RecoveryCommand, b: RecoveryCommand) {
    && a.incidentID == b.incidentID
    && a.runbookID == b.runbookID
    && a.runbookDigest == b.runbookDigest
    && a.targetID == b.targetID
    && a.actionIndex == b.actionIndex
  }

  /** Two well-named commands share a journal key exactly when they stand for
      the same effect. */
  lemma RecordKeyInjective(a: RecoveryCommand, b: RecoveryCommand)
    requires ValidNames(a) && ValidNames(b) && a.actionIndex >= 0 && b.actionIndex >= 0
    ensures RecordKey(a) == RecordKey(b) <==> SameEffect(a, b)
  {
    if RecordKey(a) == RecordKey(b) {
      FormatNulFree(a.actionIndex);
      FormatNulFree(b.actionIndex);
      JoinedInjective(Effect(a), Effect(b));
      assert Effect(a)[0] == Effect(b)[0] && Effect(a)[1] == Effect(b)[1] && Effect(a)[2] == Effect(b)[2];
      assert Effect(a)[3] == Effect(b)[3] && Effect(a)[4] == Effect(b)[4];
      FormatInjective(a.actionIndex, b.actionIndex);
    }
  }

  lemma IdempotencyKeyInjective(a: string, b: string)
    requires ValidToken(a, MAX_KEY) && ValidToken(b, MAX_KEY)
    ensures IdempotencyKey(a) == IdempotencyKey(b) <==> a == b
  {
    if IdempotencyKey(a) == IdempotencyKey(b) {
      JoinedInjective([a], [b]);
      assert [a][0] == [b][0];
    }
  }

  /* ---- Valid records ---- */

  predicate ValidPhase(phase: Phase, state: CommandState) {
    match phase
    case PhasePending => state == Pending
    case PhaseAwaiting => state == Pending
    case PhaseApproved => state == Approved
    case PhaseExecuting => state == Executing
    case PhaseStabilizing => state == Stabilizing
    case PhaseCompleted => state == Succeeded || state == Failed || state == Denied || state == Expired
    case PhaseVerify => state == Pending || state == Approved || state == Executing
  }

  predicate ValidJournalAction(a: TypedAction, selector: string) {
    && a.targetSelector == selector
    && a.stopTimeout > 0
    && a.cooldown >= 0
    && (a.actionType == ContainerRestart || a.actionType == ComposeServiceRestart)
  }

  predicate ValidTarget(t: ServiceTarget, targetID: string) {
    && t.schema == V1
    && t.targetID == targetID
    && t.adapterType == DOCKER_ADAPTER
    && t.enabled
    && ValidToken(t.selector, MAX_KEY)
  }

  predicate ValidReconciliation(r: Record) {
    if r.phase == PhaseVerify then
      && r.reconciliation.Some?
      && r.reconciliation.value.observedAt != ZERO_TIME
      && (r.reconciliation.value.verified ==> r.reconciliation.value.snapshot.targetID == r.command.targetID)
      && (!r.reconciliation.value.verified ==> r.reconciliation.value.snapshot == NO_SNAPSHOT)
    else r.reconciliation == None
  }

  predicate ValidRecord(r: Record) {
    && r.schema == V1
    && ValidCommand(r.command)
    && ValidNames(r.command)
    && r.command.riskTier != OtherRisk
    && ValidTarget(r.target, r.command.targetID)
    && ValidJournalAction(r.action, r.target.selector)
    && ValidPhase(r.phase, r.command.state)
    && ValidReconciliation(r)
  }

  /** The check on every record that is read or written. */
  method CheckRecord(r: Record) returns (ok: bool)
    ensures ok <==> ValidRecord(r)
  {
    hide ValidToken, ValidCommand;
    var c, t, a := r.command, r.target, r.action;
    if r.schema != V1 || !ValidCommand(c) || !ValidToken(c.commandID, MAX_ID) || !ValidToken(c.incidentID, MAX_ID)
       || !ValidToken(c.runbookID, MAX_ID) || !ValidToken(c.runbookDigest, MAX_KEY) || !ValidToken(c.targetID, MAX_ID)
       || !ValidToken(c.idempotencyKey, MAX_KEY) || (c.approvalID != "" && !ValidToken(c.approvalID, MAX_ID))
       || (c.riskTier != RiskLow && c.riskTier != RiskMedium && c.riskTier != RiskHigh) {
      return false;
    }
    if t.schema != V1 || t.targetID != c.targetID || t.adapterType != DOCKER_ADAPTER || !t.enabled
       || !ValidToken(t.selector, MAX_KEY) {
      return false;
    }
    if a.targetSelector != t.selector || a.stopTimeout <= 0 || a.cooldown < 0
       || (a.actionType != ContainerRestart && a.actionType != ComposeServiceRestart) {
      return false;
    }
    match r.phase {
      case PhasePending => ok := c.state == Pending;
      case PhaseAwaiting => ok := c.state == Pending;
      case PhaseApproved => ok := c.state == Approved;
      case PhaseExecuting => ok := c.state == Executing;
      case PhaseStabilizing => ok := c.state == Stabilizing;
      case PhaseCompleted => ok := c.state in {Succeeded, Failed, Denied, Expired};
      case PhaseVerify => ok := c.state in {Pending, Approved, Executing};
    }
    if !ok || r.phase != PhaseVerify {
      return ok && r.reconciliation == None;
    }
    if r.reconciliation == None || r.reconciliation.value.observedAt == ZERO_TIME {
      return false;
    }
    var seen := r.reconciliation.value;
    ok := if seen.verified then seen.snapshot.targetID == c.targetID else seen.snapshot == NO_SNAPSHOT;
  }

  /* ---- Phase transitions ---- */

  datatype Transition =
    | Deny
    | Expire
    | Approve
    | Start
    | Finish(next: CommandState)
    | Complete(next: CommandState)
    | Mark(snapshot: DockerSnapshot, verified: bool, now: Time)

  predicate Reconcilable(phase: Phase) {
    phase == PhasePending || phase == PhaseApproved || phase == PhaseExecuting
  }

  function Moved(r: Record, phase: Phase, state: CommandState): Record {
    r.(command := r.command.(state := state), phase := phase)
  }

  /** Ends a command that has not been approved for execution. */
  function Rejected(r: Record, state: CommandState): Result<Record, Error> {
    if (r.phase != PhasePending && r.phase != PhaseAwaiting) || r.command.state != Pending then Err(NotExecutable)
    else if !CanTransition(r.command.state, state) then Err(NotExecutable)
    else Ok(Moved(r, PhaseCompleted, state))
  }

  function Apply(t: Transition, r: Record): Result<Record, Error> {
    match t
    case Deny => Rejected(r, Denied)
    case Expire => Rejected(r, Expired)
    case Approve =>
      if (r.phase != PhasePending && r.phase != PhaseAwaiting) || r.command.state != Pending then Err(NotExecutable)
      else if r.phase == PhaseAwaiting && r.command.approvalID == "" then Err(NotExecutable)
      else Ok(Moved(r, PhaseApproved, Approved))
    case Start =>
      if r.phase != PhaseApproved || r.command.state != Approved then Err(NotExecutable)
      else Ok(Moved(r, PhaseExecuting, Executing))
    case Finish(next) =>
      if next != Stabilizing && next != Failed then Err(InvalidRequest)
      else if r.phase != PhaseExecuting || r.command.state != Executing then Err(NotExecutable)
      else Ok(Moved(r, if next == Stabilizing then PhaseStabilizing else PhaseCompleted, next))
    case Complete(next) =>
      if next != Succeeded && next != Failed then Err(InvalidRequest)
      else if r.phase == PhaseCompleted && r.command.state == next then Ok(r)
      else if r.phase != PhaseStabilizing || r.command.state != Stabilizing then Err(NotExecutable)
      else Ok(Moved(r, PhaseCompleted, next))
    case Mark(snapshot, verified, now) =>
      if !Reconcilable(r.phase) then Err(NotExecutable)
      else
        var matched := verified && snapshot.targetID == r.command.targetID;
        var kept := if verified && !matched then NO_SNAPSHOT else snapshot;
        Ok(r.(phase := PhaseVerify, reconciliation := Some(Reconciliation(now, matched, kept))))
  }

  /* ---- Transactions ---- */

  function LoadRecord(j: Bucket, key: Key): Result<Option<Record>, Error> {
    if key !in j then Ok(None)
    else match j[key]
      case IndexDoc(_) => Err(CorruptJournal)
      case RecordDoc(r) =>
        if !ValidRecord(r) || RecordKey(r.command) != key then Err(CorruptJournal) else Ok(Some(r))
  }

  function PutRecord(j: Bucket, key: Key, r: Record): Result<Bucket, Error> {
    if RecordKey(r.command) != key || !ValidRecord(r) then Err(CorruptJournal) else Ok(j[key := RecordDoc(r)])
  }

  datatype Updated = Updated(journal: Bucket, record: Record)

  function UpdateRecord(j: Bucket, key: Key, t: Transition): Result<Updated, Error> {
    match LoadRecord(j, key)
    case Err(e) => Err(e)
    case Ok(None) => Err(CorruptJournal)
    case Ok(Some(r)) =>
      match Apply(t, r)
      case Err(e) => Err(e)
      case Ok(r') =>
        match PutRecord(j, key, r')
        case Err(e) => Err(e)
        case Ok(j') => Ok(Updated(j', r'))
  }

  datatype Persisted = Persisted(journal: Bucket, record: Record, duplicate: bool)

  function PersistPending(j: Bucket, record: Record): Result<Persisted, Error> {
    var key := RecordKey(record.command);
    var index := IdempotencyKey(record.command.idempotencyKey);
    if index in j then
      if j[index] != IndexDoc(key) then Err(IdempotencyConflict)
      else match LoadRecord(j, key)
        case Err(e) => Err(e)
        case Ok(None) => Err(CorruptJournal)
        case Ok(Some(existing)) => Ok(Persisted(j, existing, true))
    else match LoadRecord(j, key)
      case Err(e) => Err(e)
      case Ok(Some(existing)) => Ok(Persisted(j[index := IndexDoc(key)], existing, true))
      case Ok(None) =>
        match PutRecord(j, key, record)
        case Err(e) => Err(e)
        case Ok(j') => Ok(Persisted(j'[index := IndexDoc(key)], record, false))
  }

  /* ---- The journal invariant ---- */

  /** Command keys hold valid records of their own effect; index keys point at
      a record that is present. */
  predicate Holds(j: Bucket, k: Key)
    requires k in j
  {
    match k
    case CommandKey(_) => j[k].RecordDoc? && ValidRecord(j[k].record) && RecordKey(j[k].record.command) == k
    case IndexKey(_) => j[k].IndexDoc? && j[k].target.CommandKey? && j[k].target in j
  }

  ghost predicate WellFormed(j: Bucket) {
    forall k :: k in j ==> Holds(j, k)
  }

  /* ---- How records may change ---- */

  /** Everything but state, approval association and phase is fixed at creation. */
  predicate SameIdentity(a: Record, b: Record) {
    && b.schema == a.schema
    && b.command == a.command.(state := b.command.state, approvalID := b.command.approvalID)
    && b.target == a.target
    && b.action == a.action
  }

  function Rank(p: Phase): nat {
    match p
    case PhasePending => 0
    case PhaseAwaiting => 0
    case PhaseApproved => 1
    case PhaseExecuting => 2
    case PhaseStabilizing => 3
    case PhaseCompleted => 4
    case PhaseVerify => 4
  }

  predicate AssignsApproval(a: Record, b: Record) {
    a.phase == PhaseAwaiting && a.command.approvalID == "" && b.command.approvalID != ""
  }

  /** One write: nothing, an approval association, or a strict rise in rank
      whose state change the command table permits. */
  predicate LegalWrite(a: Record, b: Record) {
    && SameIdentity(a, b)
    && (a.command.approvalID == b.command.approvalID || AssignsApproval(a, b))
    && (|| b == a.(command := a.command.(approvalID := b.command.approvalID))
        || (Rank(a.phase) < Rank(b.phase)
            && (a.command.state == b.command.state || CanTransition(a.command.state, b.command.state))))
  }

  /** The command states reachable through the command table. */
  predicate Reaches(from: CommandState, to: CommandState) {
    || from == to
    || match from
       case Pending => true
       case Approved => to in {Executing, Expired, Stabilizing, Succeeded, Failed}
       case Executing => to in {Stabilizing, Succeeded, Failed}
       case Stabilizing => to in {Succeeded, Failed}
       case _ => false
  }

  /** The net effect of any number of writes. */
  predicate Leads(a: Record, b: Record) {
    && SameIdentity(a, b)
    && Reaches(a.command.state, b.command.state)
    && (a.command.approvalID == b.command.approvalID || AssignsApproval(a, b))
    && (|| b == a.(command := a.command.(approvalID := b.command.approvalID))
        || Rank(a.phase) < Rank(b.phase))
  }

  ghost predicate Evolves(j: Bucket, j': Bucket) {
    && (forall k :: k in j ==> k in j' && j[k].RecordDoc? == j'[k].RecordDoc?)
    && (forall k :: k in j && j[k].IndexDoc? ==> j'[k] == j[k])
    && (forall k :: k in j && j[k].RecordDoc? ==> LegalWrite(j[k].record, j'[k].record))
    && (forall k :: k in j' && k !in j && j'[k].RecordDoc? ==>
          Rank(j'[k].record.phase) == 0 && j'[k].record.command.state == Pending)
  }

  ghost predicate Matures(j: Bucket, j': Bucket) {
    && (forall k :: k in j ==> k in j' && j[k].RecordDoc? == j'[k].RecordDoc?)
    && (forall k :: k in j && j[k].IndexDoc? ==> j'[k] == j[k])
    && (forall k :: k in j && j[k].RecordDoc? ==> Leads(j[k].record, j'[k].record))
  }

  lemma MaturesReflexive(j: Bucket)
    ensures Matures(j, j) && Evolves(j, j)
  {
  }

  lemma LeadsTransitive(a: Record, b: Record, c: Record)
    requires Leads(a, b) && Leads(b, c)
    ensures Leads(a, c)
  {
  }

  lemma MaturesTransitive(a: Bucket, b: Bucket, c: Bucket)
    requires Matures(a, b) && Matures(b, c)
    ensures Matures(a, c)
  {
    forall k | k in a && a[k].RecordDoc? ensures Leads(a[k].record, c[k].record) {
      LeadsTransitive(a[k].record, b[k].record, c[k].record);
    }
  }

  lemma EvolvesMatures(j: Bucket, j': Bucket)
    requires Evolves(j, j')
    ensures Matures(j, j')
  {
  }

  /** Completed and verify-and-notify are absorbing. */
  lemma TerminalAbsorbs(a: Record, b: Record)
    requires Leads(a, b) && (a.phase == PhaseCompleted || a.phase == PhaseVerify)
    ensures b == a
  {
  }

  /* ---- Every transaction keeps the invariant and is legal ---- */

  lemma ApplyLegal(t: Transition, r: Record)
    requires ValidRecord(r) && Apply(t, r).Ok?
    ensures LegalWrite(r, Apply(t, r).value)
    ensures RecordKey(Apply(t, r).value.command) == RecordKey(r.command)
  {
    assert Effect(Apply(t, r).value.command) == Effect(r.command);
  }

  /** What each transition does to a valid record, by its phase alone. Rejecting asks for
      a pending or waiting record, approving for a pending one or one that waits with
      a decision attached, and starting, finishing and completing each for the phase
      before; completing again as before is allowed. */
  lemma TransitionIs(t: Transition, r: Record)
    requires ValidRecord(r)
    ensures match t
            case Deny =>
              if r.phase in {PhasePending, PhaseAwaiting} then
                Apply(t, r) == Ok(r.(phase := PhaseCompleted, command := r.command.(state := Denied)))
              else Apply(t, r).Err?
            case Expire =>
              if r.phase in {PhasePending, PhaseAwaiting} then
                Apply(t, r) == Ok(r.(phase := PhaseCompleted, command := r.command.(state := Expired)))
              else Apply(t, r).Err?
            case Approve =>
              if r.phase == PhasePending || (r.phase == PhaseAwaiting && r.command.approvalID != "") then
                Apply(t, r) == Ok(r.(phase := PhaseApproved, command := r.command.(state := Approved)))
              else Apply(t, r).Err?
            case Start =>
              if r.phase == PhaseApproved then
                Apply(t, r) == Ok(r.(phase := PhaseExecuting, command := r.command.(state := Executing)))
              else Apply(t, r).Err?
            case Finish(next) =>
              if r.phase == PhaseExecuting && next == Stabilizing then
                Apply(t, r) == Ok(r.(phase := PhaseStabilizing, command := r.command.(state := Stabilizing)))
              else if r.phase == PhaseExecuting && next == Failed then
                Apply(t, r) == Ok(r.(phase := PhaseCompleted, command := r.command.(state := Failed)))
              else Apply(t, r).Err?
            case Complete(next) =>
              if next in {Succeeded, Failed} && r.phase == PhaseStabilizing then
                Apply(t, r) == Ok(r.(phase := PhaseCompleted, command := r.command.(state := next)))
              else if next in {Succeeded, Failed} && r.command.state == next then Apply(t, r) == Ok(r)
              else Apply(t, r).Err?
            case Mark(snapshot, verified, now) =>
              if r.phase !in {PhasePending, PhaseApproved, PhaseExecuting} then Apply(t, r).Err?
              else
                && Apply(t, r).Ok?
                && Apply(t, r).value == r.(phase := PhaseVerify, reconciliation := Apply(t, r).value.reconciliation)
                && Apply(t, r).value.reconciliation.Some?
                && var seen, own := Apply(t, r).value.reconciliation.value, snapshot.targetID == r.command.targetID;
                && seen.observedAt == now
                && (seen.verified <==> verified && own)
                && seen.snapshot == (if verified && !own then NO_SNAPSHOT else snapshot)
  {
    hide ValidToken;
  }

  /** An untouched document still holds when keys are only added. */
  lemma HoldsKept(j: Bucket, j': Bucket, k: Key)
    requires k in j && Holds(j, k)
    requires k in j' && j'[k] == j[k] && j.Keys <= j'.Keys
    ensures Holds(j', k)
  {
  }

  lemma WriteEvolves(j: Bucket, key: Key, r: Record)
    requires WellFormed(j) && key in j && key.CommandKey?
    requires RecordKey(r.command) == key && ValidRecord(r) && LegalWrite(j[key].record, r)
    ensures WellFormed(j[key := RecordDoc(r)]) && Evolves(j, j[key := RecordDoc(r)])
  {
    hide RecordKey, ValidRecord;
    var j' := j[key := RecordDoc(r)];
    assert Holds(j, key);
    assert Holds(j', key);
    forall k | k in j' ensures Holds(j', k) {
      if k != key { HoldsKept(j, j', k); }
    }
  }

  lemma UpdateEvolves(j: Bucket, key: Key, t: Transition)
    requires WellFormed(j)
    ensures match UpdateRecord(j, key, t)
            case Err(_) => true
            case Ok(u) =>
              && key in j && j[key].RecordDoc?
              && u.journal == j[key := RecordDoc(u.record)]
              && Apply(t, j[key].record) == Ok(u.record)
              && LegalWrite(j[key].record, u.record)
              && WellFormed(u.journal) && Evolves(j, u.journal)
  {
    if key in j {
      assert Holds(j, key);
      if UpdateRecord(j, key, t).Ok? {
        ApplyLegal(t, j[key].record);
        WriteEvolves(j, key, UpdateRecord(j, key, t).value.record);
      }
    }
  }

  lemma WriteNothing(r: Record)
    ensures LegalWrite(r, r)
  {
  }

  lemma KeyKinds(c: RecoveryCommand)
    ensures RecordKey(c).CommandKey? && IdempotencyKey(c.idempotencyKey).IndexKey?
  {
  }

  /** A pending record is new, valid, and not yet decided. */
  predicate Initial(r: Record) {
    Rank(r.phase) == 0 && r.command.state == Pending
  }

  lemma PersistEvolves(j: Bucket, record: Record)
    requires WellFormed(j) && Initial(record)
    ensures match PersistPending(j, record)
            case Err(_) => true
            case Ok(p) =>
              var key := RecordKey(record.command);
              && WellFormed(p.journal) && Evolves(j, p.journal)
              && key in p.journal && p.journal[key] == RecordDoc(p.record)
              && p.journal[IdempotencyKey(record.command.idempotencyKey)] == IndexDoc(key)
              && (p.duplicate <==> key in j)
              && (p.duplicate ==> j[key] == p.journal[key])
              && (!p.duplicate ==> p.record == record)
  {
    hide RecordKey, ValidRecord, IdempotencyKey, Rank, CanTransition, SameIdentity;
    assert forall r: Record :: LegalWrite(r, r) by { forall r: Record ensures LegalWrite(r, r) { WriteNothing(r); } }
    hide LegalWrite;
    var key, index := RecordKey(record.command), IdempotencyKey(record.command.idempotencyKey);
    assert key.CommandKey? && index.IndexKey? by { KeyKinds(record.command); }
    match PersistPending(j, record)
    case Err(_) =>
    case Ok(p) =>
      if key in j {
        assert Holds(j, key);
      }
      assert Holds(p.journal, key);
      forall k | k in p.journal ensures Holds(p.journal, k) {
        if k in j { HoldsKept(j, p.journal, k); }
      }
  }

  /** An idempotency key that is taken answers for its own effect and for no
      other: reuse for a different effect is refused without any change, and the
      indexed record is always there. */
  lemma IdempotencyExact(j: Bucket, record: Record)
    requires WellFormed(j) && ValidNames(record.command) && record.command.actionIndex >= 0
    requires IdempotencyKey(record.command.idempotencyKey) in j
    ensures var index := IdempotencyKey(record.command.idempotencyKey);
            && j[index].IndexDoc? && j[index].target in j && j[j[index].target].RecordDoc?
            && var holder := j[j[index].target].record;
            && (PersistPending(j, record).Ok? <==> SameEffect(holder.command, record.command))
            && (PersistPending(j, record).Ok? ==> PersistPending(j, record).value == Persisted(j, holder, true))
            && (PersistPending(j, record).Err? ==> PersistPending(j, record).error == IdempotencyConflict)
  {
    var index := IdempotencyKey(record.command.idempotencyKey);
    assert Holds(j, index);
    var key := j[index].target;
    assert Holds(j, key);
    RecordKeyInjective(j[key].record.command, record.command);
  }

  /* ---- Finding a command by ID ---- */

  predicate Corrupt(j: Bucket) {
    exists k :: k in j && k.CommandKey? && !Holds(j, k)
  }

  function Matches(j: Bucket, commandID: string): set<Key> {
    set k | k in j && k.CommandKey? && j[k].RecordDoc? && j[k].record.command.commandID == commandID
  }

  lemma SingletonUnique<T>(s: set<T>, a: T, b: T)
    requires |s| == 1 && a in s && b in s
    ensures a == b
  {
    if a != b {
      assert {a, b} <= s;
      assert |{a, b}| == 2;
      SubsetSize({a, b}, s);
    }
  }

  lemma {:induction false} SubsetSize<T>(a: set<T>, b: set<T>)
    requires a <= b
    ensures |a| <= |b|
    decreases |a|
  {
    if a != {} {
      var x :| x in a;
      SubsetSize(a - {x}, b - {x});
    }
  }

  function Only(s: set<Key>): (k: Key)
    requires |s| == 1
    ensures k in s
  {
    assert s != {};
    assert forall a, b :: a in s && b in s ==> a == b by {
      forall a, b | a in s && b in s ensures a == b { SingletonUnique(s, a, b); }
    }
    var k :| k in s;
    k
  }

  /** The record with a command ID; two of them mean a corrupt journal. */
  function FindByCommandID(j: Bucket, commandID: string): (r: Result<Option<Key>, Error>)
    ensures r.Ok? && r.value.Some? ==>
              && r.value.value in j && Holds(j, r.value.value) && r.value.value.CommandKey?
              && j[r.value.value].record.command.commandID == commandID
  {
    if Corrupt(j) then Err(CorruptJournal)
    else if |Matches(j, commandID)| == 0 then Ok(None)
    else if |Matches(j, commandID)| == 1 then Ok(Some(Only(Matches(j, commandID))))
    else Err(CorruptJournal)
  }

  lemma WellFormedNotCorrupt(j: Bucket)
    requires WellFormed(j)
    ensures !Corrupt(j)
  {
  }

  /** The one record with this command ID. */
  ghost predicate OnlyRecord(j: Bucket, commandID: string, key: Key) {
    && key in j && key.CommandKey? && j[key].RecordDoc? && j[key].record.command.commandID == commandID
    && forall k :: (k in j && k.CommandKey? && j[k].RecordDoc? && j[k].record.command.commandID == commandID) ==>
                     k == key
  }

  /** In a well-formed journal the search finds exactly the unique record. */
  lemma FindIff(j: Bucket, commandID: string, key: Key)
    requires WellFormed(j)
    ensures FindByCommandID(j, commandID) == Ok(Some(key)) <==> OnlyRecord(j, commandID, key)
  {
    WellFormedNotCorrupt(j);
    hide ValidRecord, RecordKey, Corrupt;
    var found := Matches(j, commandID);
    if OnlyRecord(j, commandID, key) {
      assert found == {key};
    }
    if FindByCommandID(j, commandID) == Ok(Some(key)) {
      forall k | k in j && k.CommandKey? && j[k].RecordDoc? && j[k].record.command.commandID == commandID
        ensures k == key
      {
        SingletonUnique(found, k, key);
      }
    }
  }
}
