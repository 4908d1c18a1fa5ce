/** The recovery protocol as interleaved calls over one durable store.

    Every step is one store transaction or one external call of one call in
    flight, so that any other call, and a crash, can fall in between. */
module Recovery {
  import opened Text
  import opened Contract
  import P = Policy
  import J = Journal
  import A = Approvals

  /* ---- Requests and the daemon-owned execution view ---- */

  datatype Request = Request(
    incidentID: string, target: ServiceTarget, snapshot: P.Snapshot, input: P.Input,
    expiresAt: Time, idempotencyKey: string)

  datatype ExecutionState = ExecutionState(target: ServiceTarget, snapshot: P.Snapshot, input: P.Input)

  predicate ValidRequest(q: Request) {
    && ValidToken(q.incidentID, MAX_ID)
    && ValidToken(q.idempotencyKey, MAX_KEY)
    && ValidToken(q.input.runbookID, MAX_ID)
    && ValidToken(q.input.runbookDigest, MAX_KEY)
    && ValidToken(q.input.targetID, MAX_ID)
    && q.input.actionIndex >= 0
    && q.input.commandID == ""
    && q.expiresAt != ZERO_TIME
    && J.ValidTarget(q.target, q.input.targetID)
  }

  function PolicyInput(input: P.Input, commandID: string, now: Time): P.Input {
    input.(commandID := commandID, now := now)
  }

  datatype Prepared = Prepared(record: J.Record, verdict: P.Verdict)

  function NewCommand(q: Request, commandID: string, now: Time, risk: RiskTier): RecoveryCommand {
    RecoveryCommand(
      V1, commandID, q.incidentID, q.input.runbookID, q.input.runbookDigest, q.target.targetID,
      q.input.actionIndex, risk, if q.input.approval.Some? then q.input.approval.value.approvalID else "",
      now, q.expiresAt, q.idempotencyKey, Pending)
  }

  /** The record a submission asks to journal; `None` for every refusal that
      comes before the journal. */
  function Prepare(q: Request, commandID: string, now: Time): Option<Prepared> {
    if !ValidRequest(q) || now == ZERO_TIME || now >= q.expiresAt || !ValidToken(commandID, MAX_ID) then None
    else
      var decision := P.Evaluate(q.snapshot, PolicyInput(q.input, commandID, now));
      var found := P.FindRunbook(q.snapshot.runbooks, q.input.runbookID);
      if decision.verdict == P.Deny || found == None then None
      else
        var runbook := found.value.runbook;
        if q.input.actionIndex < 0 || q.input.actionIndex >= |runbook.typedActions| then None
        else
          var phase := if decision.verdict == P.AwaitApproval then J.PhaseAwaiting else J.PhasePending;
          Some(Prepared(
            J.Record(V1, NewCommand(q, commandID, now, runbook.riskTier), q.target,
                     runbook.typedActions[q.input.actionIndex], phase, None),
            decision.verdict))
  }

  /* ---- Revalidation ---- */

  const NO_APPROVAL := Approval(OtherSchema, "", "", OtherDecision, "", "", ZERO_TIME, ZERO_TIME)

  /** The wrapped source's view with the command's durable approval attached;
      `None` for `base` stands for a source that failed. */
  function LoadState(approvals: A.Bucket, base: Option<ExecutionState>, c: RecoveryCommand): Option<ExecutionState> {
    match base
    case None => None
    case Some(state) =>
      if c.approvalID == "" then Some(state)
      else match A.LoadApproval(approvals, c.commandID)
        case Err(_) => None
        case Ok(None) => Some(state.(input := state.input.(approval := Some(NO_APPROVAL), approvalRevoked := true)))
        case Ok(Some(a)) =>
          if a.approvalID != c.approvalID || a.commandID != c.commandID then
            Some(state.(input := state.input.(approval := Some(NO_APPROVAL), approvalRevoked := true)))
          else Some(state.(input := state.input.(approval := Some(a))))
  }

  predicate SameExecutionTarget(a: ServiceTarget, b: ServiceTarget) {
    a.schema == b.schema && a.targetID == b.targetID && a.adapterType == b.adapterType
    && a.selector == b.selector && a.enabled == b.enabled
  }

  function RevalidateState(state: ExecutionState, record: J.Record, now: Time): P.Decision {
    var c := record.command;
    if state.input.runbookID != c.runbookID || state.input.runbookDigest != c.runbookDigest
      || state.input.targetID != c.targetID || state.input.actionIndex != c.actionIndex
      || !SameExecutionTarget(state.target, record.target) then P.Denied(P.InvalidPolicy)
    else
      var found := P.FindRunbook(state.snapshot.runbooks, c.runbookID);
      if found == None || c.actionIndex < 0 || c.actionIndex >= |found.value.runbook.typedActions|
        || found.value.runbook.typedActions[c.actionIndex] != record.action then P.Denied(P.InvalidPolicy)
      else P.Evaluate(state.snapshot, PolicyInput(state.input, c.commandID, now))
  }

  /** What a passed revalidation saw. */
  datatype Auth = Auth(base: ExecutionState, loaded: ExecutionState, now: Time)

  datatype Check = Refuse | TooLate | Pass(auth: Auth)

  function Revalidate(approvals: A.Bucket, base: Option<ExecutionState>, record: J.Record, now: Time): Check {
    match LoadState(approvals, base, record.command)
    case None => Refuse
    case Some(loaded) =>
      if now == ZERO_TIME then Refuse
      else if now >= record.command.expiresAt then TooLate
      else if RevalidateState(loaded, record, now).verdict != P.Allow then Refuse
      else if base == None then Refuse
      else Pass(Auth(base.value, loaded, now))
  }

  /* ---- Calls in flight ---- */

  datatype Stored = Stored(key: J.Key, record: J.Record)

  datatype Call =
    | Persisting(record: J.Record, verdict: P.Verdict)
    | Revalidating(record: J.Record, second: bool)
    | Validating(record: J.Record)
    | Publishing(record: J.Record, auth: Auth)
    | Approving(record: J.Record, auth: Auth)
    | Starting(record: J.Record, auth: Auth)
    | Acting(record: J.Record, auth: Auth)
    | Finishing(record: J.Record)
    | Uncertain(record: J.Record, now: Time)
    | Rejecting(record: J.Record, expired: bool)
    | Reconciling(todo: seq<Stored>)
    | Marking(key: J.Key, mark: J.Transition, todo: seq<Stored>)
    | Completing(key: J.Key, next: CommandState)

  /** One call of `Adapter.Execute`, and whether it succeeded. */
  datatype Execution = Execution(record: J.Record, auth: Auth, ok: bool)

  datatype State = State(store: A.Buckets, calls: map<nat, Call>, trace: seq<Execution>)

  const INIT := State(A.Buckets(map[], map[], map[]), map[], [])

  /** Who moves next, and what the clock, the ID generators, the state source
      and the Docker adapter answer. A label that is not enabled does nothing. */
  datatype Label =
    | Submit(id: nat, request: Request, commandID: string, now: Time)
    | Resume(id: nat, commandID: string)
    | Reconcile(id: nat, order: seq<J.Key>)
    | CompleteStabilization(id: nat, commandID: string, succeeded: bool)
    | Decide(decision: A.Request, draws: A.Draws)
    | Recheck(id: nat, base: Option<ExecutionState>, now: Time)
    | Validate(id: nat, ok: bool)
    | Publish(id: nat, ok: bool)
    | Act(id: nat, ok: bool)
    | Observe(id: nat, observed: Option<DockerSnapshot>, now: Time)
    | Transact(id: nat)
    | Crash(ids: set<nat>)

  function Drop(s: State, id: nat): State {
    s.(calls := s.calls - {id})
  }

  function Go(s: State, id: nat, c: Call): State {
    s.(calls := s.calls[id := c])
  }

  function Commit(s: State, journal: J.Bucket): State {
    s.(store := s.store.(journal := journal))
  }

  function Begin(s: State, id: nat, c: Option<Call>): State {
    if c == None then s else Go(s, id, c.value)
  }

  function Submitted(q: Request, commandID: string, now: Time): Option<Call> {
    match Prepare(q, commandID, now)
    case None => None
    case Some(p) => Some(Persisting(p.record, p.verdict))
  }

  /** Only a command that waits with a durable grant is resumed. */
  function Resumed(j: J.Bucket, commandID: string): Option<Call> {
    if !ValidToken(commandID, MAX_ID) then None
    else match J.FindByCommandID(j, commandID)
      case Ok(Some(key)) =>
        var record := j[key].record;
        if record.phase == J.PhaseAwaiting && record.command.state == Pending && record.command.approvalID != "" then
          Some(Revalidating(record, false))
        else None
      case _ => None
  }

  function Completion(j: J.Bucket, commandID: string, succeeded: bool): Option<Call> {
    if !ValidToken(commandID, MAX_ID) then None
    else match J.FindByCommandID(j, commandID)
      case Ok(Some(key)) =>
        var next := if succeeded then Succeeded else Failed;
        if j[key].record.phase == J.PhaseCompleted && j[key].record.command.state == next then None
        else Some(Completing(key, next))
      case _ => None
  }

  /** `order` lists every reconcilable record once. */
  predicate ListsReconcilable(j: J.Bucket, order: seq<J.Key>) {
    && (forall i, k :: 0 <= i < k < |order| ==> order[i] != order[k])
    && (forall key :: key in order ==> key in j && j[key].RecordDoc? && J.Reconcilable(j[key].record.phase))
    && (forall key :: key in j && j[key].RecordDoc? && J.Reconcilable(j[key].record.phase) ==> key in order)
  }

  function Listed(j: J.Bucket, order: seq<J.Key>): seq<Stored>
    requires forall key :: key in order ==> key in j && j[key].RecordDoc?
  {
    seq(|order|, i requires 0 <= i < |order| => Stored(order[i], j[order[i]].record))
  }

  function Rechecked(s: State, c: Call, base: Option<ExecutionState>, now: Time): Call
    requires c.Revalidating?
  {
    match Revalidate(s.store.approvals, base, c.record, now)
    case Refuse => Rejecting(c.record, false)
    case TooLate => Rejecting(c.record, true)
    case Pass(auth) => if c.second then Publishing(c.record, auth) else Validating(c.record)
  }

  function Observed(c: Call, observed: Option<DockerSnapshot>, now: Time): Option<Call>
    requires c.Reconciling?
  {
    if c.todo == [] || now == ZERO_TIME then None
    else
      var stored := c.todo[0];
      var verified := observed.Some? && observed.value.targetID == stored.record.command.targetID;
      Some(Marking(stored.key, J.Mark(if verified then observed.value else NO_SNAPSHOT, verified, now), c.todo[1..]))
  }

  /** The journal transaction a call is about to run, and what follows it. */
  function PendingWrite(c: Call): Option<(J.Key, J.Transition)> {
    match c
    case Approving(record, _) => Some((J.RecordKey(record.command), J.Approve))
    case Starting(record, _) => Some((J.RecordKey(record.command), J.Start))
    case Finishing(record) => Some((J.RecordKey(record.command), J.Finish(Stabilizing)))
    case Uncertain(record, now) => Some((J.RecordKey(record.command), J.Mark(NO_SNAPSHOT, false, now)))
    case Rejecting(record, expired) => Some((J.RecordKey(record.command), if expired then J.Expire else J.Deny))
    case Marking(key, mark, _) => Some((key, mark))
    case Completing(key, next) => Some((key, J.Complete(next)))
    case _ => None
  }

  function AfterWrite(c: Call, written: J.Record): Option<Call> {
    match c
    case Approving(record, auth) => Some(Starting(record, auth))
    case Starting(_, auth) => Some(Acting(written, auth))
    case Marking(_, _, todo) => Some(Reconciling(todo))
    case _ => None
  }

  function Persist(s: State, id: nat, record: J.Record, verdict: P.Verdict): State {
    match J.PersistPending(s.store.journal, record)
    case Err(_) => Drop(s, id)
    case Ok(p) =>
      if p.duplicate || verdict != P.Allow then Drop(Commit(s, p.journal), id)
      else Go(Commit(s, p.journal), id, Revalidating(p.record, false))
  }

  function Write(s: State, id: nat, c: Call, key: J.Key, t: J.Transition): State {
    match J.UpdateRecord(s.store.journal, key, t)
    case Err(_) => Drop(s, id)
    case Ok(u) =>
      match AfterWrite(c, u.record)
      case None => Drop(Commit(s, u.journal), id)
      case Some(next) => Go(Commit(s, u.journal), id, next)
  }

  function Transacted(s: State, id: nat, c: Call): State {
    if c.Persisting? then Persist(s, id, c.record, c.verdict)
    else match PendingWrite(c)
      case None => s
      case Some((key, t)) => Write(s, id, c, key, t)
  }

  function Executed(s: State, id: nat, c: Call, ok: bool): State
    requires c.Acting?
  {
    Go(s.(trace := s.trace + [Execution(c.record, c.auth, ok)]), id,
       if ok then Finishing(c.record) else Uncertain(c.record, c.auth.now))
  }

  /** A label of a call in flight. */
  function Advance(s: State, id: nat, l: Label): State
    requires id in s.calls
  {
    var c := s.calls[id];
    match l
    case Recheck(_, base, now) => if c.Revalidating? then Go(s, id, Rechecked(s, c, base, now)) else s
    case Validate(_, ok) =>
      if c.Validating? then Go(s, id, if ok then Revalidating(c.record, true) else Rejecting(c.record, false)) else s
    case Publish(_, ok) =>
      if !c.Publishing? then s
      else if !ok then Drop(s, id)
      else Go(s, id, if c.record.phase != J.PhaseApproved then Approving(c.record, c.auth)
          else Starting(c.record, c.auth))
    case Act(_, ok) => if c.Acting? then Executed(s, id, c, ok) else s
    case Observe(_, observed, now) =>
      if !c.Reconciling? then s
      else if Observed(c, observed, now) == None then Drop(s, id)
      else Go(s, id, Observed(c, observed, now).value)
    case Transact(_) => Transacted(s, id, c)
    case _ => s
  }

  function Step(s: State, l: Label): State {
    match l
    case Submit(id, q, commandID, now) => if id in s.calls then s else Begin(s, id, Submitted(q, commandID, now))
    case Resume(id, commandID) => if id in s.calls then s else Begin(s, id, Resumed(s.store.journal, commandID))
    case CompleteStabilization(id, commandID, succeeded) =>
      if id in s.calls then s else Begin(s, id, Completion(s.store.journal, commandID, succeeded))
    case Reconcile(id, order) =>
      if id in s.calls || J.Corrupt(s.store.journal) || !ListsReconcilable(s.store.journal, order) then s
      else Go(s, id, Reconciling(Listed(s.store.journal, order)))
    case Decide(r, d) => s.(store := A.Decide(s.store, r, d).store)
    case Crash(ids) => s.(calls := s.calls - ids)
    case _ => if l.id in s.calls then Advance(s, l.id, l) else s
  }

  /** The state after a whole schedule. */
  function Run(s: State, labels: seq<Label>): State {
    if labels == [] then s else Step(Run(s, labels[..|labels| - 1]), labels[|labels| - 1])
  }
}
