/** Local approval decisions: one transaction over the journal, the approvals
    bucket and the audit chain. */
module Approvals {
  import opened Text
  import opened Contract
  import Audit
  import J = Journal

  const MAX_REASON: nat := 96

  /** `record/<approval ID>` and `command/<command ID>`. */
  datatype Key = RecordOf(approvalID: string) | DecisionOf(commandID: string)

  datatype Doc = ApprovalDoc(approval: Approval) | ReferenceDoc(approvalID: string)

  type Bucket = map<Key, Doc>

  datatype Buckets = Buckets(journal: J.Bucket, approvals: Bucket, audit: Audit.Bucket)

  datatype Request = Request(
    commandID: string, decision: ApprovalDecision, actor: string, requestID: string,
    reason: string, expiresAt: Time)

  /** What the manager draws from its clock and ID generators during one call. */
  datatype Draws = Draws(now: Time, approvalID: string, auditID: string, auditNow: Time)

  datatype Error =
    | InvalidOptions
    | InvalidDecision
    | CommandNotFound
    | DecisionConflict
    | CommandExpired
    | JournalError(cause: J.Error)
    | AuditError(reason: Audit.Error)

  datatype Decided = Decided(approval: Approval, command: RecoveryCommand)

  /* ---- Validation ---- */

  predicate ValidReason(value: string) {
    0 < |value| <= MAX_REASON && forall i :: 0 <= i < |value| ==> Audit.IsAuditChar(value[i])
  }

  predicate ValidAuditRequest(r: Request) {
    && ValidToken(r.commandID, MAX_ID)
    && ValidToken(r.actor, MAX_ID)
    && ValidToken(r.requestID, MAX_ID)
    && ValidReason(r.reason)
  }

  predicate ValidRequest(r: Request) {
    ValidAuditRequest(r) && (r.decision == Granted || r.decision == Refused) && r.expiresAt != ZERO_TIME
  }

  predicate ValidApproval(a: Approval) {
    && a.schema == V1
    && ValidToken(a.approvalID, MAX_ID)
    && ValidToken(a.commandID, MAX_ID)
    && (a.decision == Granted || a.decision == Refused)
    && ValidToken(a.approver, MAX_ID)
    && ValidReason(a.reason)
    && a.createdAt != ZERO_TIME
    && a.expiresAt != ZERO_TIME
    && a.expiresAt > a.createdAt
  }

  /* ---- The transaction ---- */

  /** Why a decision was audited the way it was. */
  datatype Note = Accepted(reason: string) | InvalidApproval | NotFound | Conflict | TooLate

  function ResultText(n: Note): string {
    if n.Accepted? then "accepted" else "rejected"
  }

  function ReasonText(n: Note): string {
    match n
    case Accepted(reason) => reason
    case InvalidApproval => "invalid_approval"
    case NotFound => "command_not_found"
    case Conflict => "decision_conflict"
    case TooLate => "command_expired"
  }

  function AuditEvent(r: Request, d: Draws, note: Note): Audit.Event {
    Audit.Event(
      Audit.Fields(V1, d.auditID, "recovery_approval", Audit.Hashed("command-", r.commandID), r.actor,
                   "approval.decide", ResultText(note), ReasonText(note), d.auditNow),
      Audit.NoDigest, Audit.NoDigest)
  }

  function AppendAudit(audit: Audit.Bucket, r: Request, d: Draws, note: Note): Result<Audit.Bucket, Error> {
    if !ValidToken(d.auditID, MAX_ID) || d.auditNow == ZERO_TIME then Err(InvalidOptions)
    else match Audit.Appended(audit, AuditEvent(r, d, note))
      case Err(e) => Err(AuditError(e))
      case Ok(audit') => Ok(audit')
  }

  datatype Outcome = Outcome(store: Buckets, result: Result<Decided, Error>)

  /** Commits `store` with one audit event, or rolls everything back. */
  function Audited(before: Buckets, store: Buckets, r: Request, d: Draws, note: Note,
                   answer: Result<Decided, Error>): Outcome
  {
    match AppendAudit(before.audit, r, d, note)
    case Err(e) => Outcome(before, Err(e))
    case Ok(audit) => Outcome(store.(audit := audit), answer)
  }

  function Refusal(b: Buckets, r: Request, d: Draws, note: Note, error: Error): Outcome {
    Audited(b, b, r, d, note, Err(error))
  }

  function NewApproval(r: Request, d: Draws, command: RecoveryCommand): Approval {
    Approval(V1, d.approvalID, command.commandID, r.decision, r.actor, r.reason, d.now, r.expiresAt)
  }

  function Decide(b: Buckets, r: Request, d: Draws): Outcome {
    if !ValidRequest(r) then
      if ValidAuditRequest(r) then Refusal(b, r, d, InvalidApproval, InvalidDecision)
      else Outcome(b, Err(InvalidDecision))
    else if d.now == ZERO_TIME || !ValidToken(d.approvalID, MAX_ID) then Outcome(b, Err(InvalidOptions))
    else match J.FindByCommandID(b.journal, r.commandID)
      case Err(e) => Outcome(b, Err(JournalError(e)))
      case Ok(None) => Refusal(b, r, d, NotFound, CommandNotFound)
      case Ok(Some(key)) => DecideRecord(b, r, d, key)
  }

  function DecideRecord(b: Buckets, r: Request, d: Draws, key: J.Key): Outcome
    requires key in b.journal && b.journal[key].RecordDoc?
  {
    var record := b.journal[key].record;
    if record.phase != J.PhaseAwaiting || record.command.state != Pending || record.command.approvalID != "" then
      Refusal(b, r, d, Conflict, DecisionConflict)
    else if d.now >= record.command.expiresAt || d.now >= r.expiresAt then ExpireRecord(b, r, d, key)
    else DecideOpen(b, r, d, key)
  }

  function ExpireRecord(b: Buckets, r: Request, d: Draws, key: J.Key): Outcome
    requires key in b.journal && b.journal[key].RecordDoc?
  {
    match J.Rejected(b.journal[key].record, Expired)
    case Err(e) => Outcome(b, Err(JournalError(e)))
    case Ok(expired) =>
      match J.PutRecord(b.journal, key, expired)
      case Err(e) => Outcome(b, Err(JournalError(e)))
      case Ok(journal) => Audited(b, b.(journal := journal), r, d, TooLate, Err(CommandExpired))
  }

  /** A decision in time on a record that still awaits one. */
  function DecideOpen(b: Buckets, r: Request, d: Draws, key: J.Key): Outcome
    requires key in b.journal && b.journal[key].RecordDoc?
  {
    var command := b.journal[key].record.command;
    var approval := NewApproval(r, d, command);
    if r.expiresAt > command.expiresAt then Refusal(b, r, d, InvalidApproval, InvalidDecision)
    else if RecordOf(d.approvalID) in b.approvals then Outcome(b, Err(InvalidOptions))
    else if DecisionOf(r.commandID) in b.approvals then Refusal(b, r, d, Conflict, DecisionConflict)
    else if !ValidApproval(approval) then Outcome(b, Err(InvalidDecision))
    else Record(b, r, d, key, approval)
  }

  /** The record once an approval decision is attached to it. */
  function Attached(record: J.Record, a: Approval): Result<J.Record, J.Error> {
    var associated := record.(command := record.command.(approvalID := a.approvalID));
    if a.decision == Refused then J.Rejected(associated, Denied) else Ok(associated)
  }

  function Record(b: Buckets, r: Request, d: Draws, key: J.Key, a: Approval): Outcome
    requires key in b.journal && b.journal[key].RecordDoc?
  {
    match Attached(b.journal[key].record, a)
    case Err(e) => Outcome(b, Err(JournalError(e)))
    case Ok(record) =>
      match J.PutRecord(b.journal, key, record)
      case Err(e) => Outcome(b, Err(JournalError(e)))
      case Ok(journal) =>
        Audited(b,
                b.(journal := journal,
                   approvals := b.approvals[RecordOf(a.approvalID) := ApprovalDoc(a)]
                                           [DecisionOf(a.commandID) := ReferenceDoc(a.approvalID)]),
                r, d, Accepted(r.reason), Ok(Decided(a, record.command)))
  }

  /* ---- The approvals invariant ---- */

  /** Approval records and the command index are inverse to each other. */
  ghost predicate Matched(approvals: Bucket) {
    forall k :: k in approvals ==> Paired(approvals, k)
  }

  predicate Paired(approvals: Bucket, k: Key)
    requires k in approvals
  {
    match k
    case RecordOf(id) =>
      && approvals[k].ApprovalDoc? && approvals[k].approval.approvalID == id
      && ValidApproval(approvals[k].approval)
      && DecisionOf(approvals[k].approval.commandID) in approvals
      && approvals[DecisionOf(approvals[k].approval.commandID)] == ReferenceDoc(id)
    case DecisionOf(commandID) =>
      && approvals[k].ReferenceDoc?
      && RecordOf(approvals[k].approvalID) in approvals
      && approvals[RecordOf(approvals[k].approvalID)].ApprovalDoc?
      && approvals[RecordOf(approvals[k].approvalID)].approval.commandID == commandID
  }

  /** Nothing that was written is ever changed or removed. */
  ghost predicate Grows<K, V>(a: map<K, V>, b: map<K, V>) {
    forall k :: k in a ==> k in b && b[k] == a[k]
  }

  function LoadApproval(approvals: Bucket, commandID: string): Result<Option<Approval>, Error> {
    if !ValidToken(commandID, MAX_ID) then Err(InvalidDecision)
    else if DecisionOf(commandID) !in approvals then Ok(None)
    else
      var reference := approvals[DecisionOf(commandID)];
      if !reference.ReferenceDoc? || RecordOf(reference.approvalID) !in approvals
          then Err(JournalError(J.CorruptJournal))
      else match approvals[RecordOf(reference.approvalID)]
        case ReferenceDoc(_) => Err(JournalError(J.CorruptJournal))
        case ApprovalDoc(a) =>
          if !ValidApproval(a) || a.commandID != commandID || a.approvalID != reference.approvalID then
            Err(JournalError(J.CorruptJournal))
          else Ok(Some(a))
  }

  /* ---- Decision atomicity ---- */

  /** Exactly one audit event is new. */
  ghost predicate OneMoreEvent(before: Audit.Bucket, after: Audit.Bucket) {
    |after| == |before| + 1 && Grows(before, after)
  }

  lemma AuditGrowsByOne(audit: Audit.Bucket, r: Request, d: Draws, note: Note)
    ensures match AppendAudit(audit, r, d, note)
            case Ok(audit') => OneMoreEvent(audit, audit')
            case Err(_) => true
  {
    hide Audit.ReadChain, Audit.EventKey, Audit.ValidFields, ValidToken;
  }

  /** The new event says who decided on which command, when, with what result and why. */
  ghost predicate NotedAs(before: Audit.Bucket, after: Audit.Bucket, r: Request, d: Draws,
                          result: string, reason: string)
  {
    Audit.Appended(before, Audit.Event(
      Audit.Fields(V1, d.auditID, "recovery_approval", Audit.Hashed("command-", r.commandID), r.actor,
                   "approval.decide", result, reason, d.auditNow),
      Audit.NoDigest, Audit.NoDigest)) == Ok(after)
  }

  /** A recorded decision: the approval carries the request and the clock reading, the
      record carries the approval, and a refusal ends the command. */
  ghost predicate RecordsDecision(before: Buckets, after: Buckets, key: J.Key, r: Request, d: Draws, decided: Decided) {
    && key in before.journal && before.journal[key].RecordDoc?
    && var record := before.journal[key].record;
    && record.command.commandID == r.commandID
    && record.phase == J.PhaseAwaiting && record.command.state == Pending && record.command.approvalID == ""
    && (r.decision == Granted || r.decision == Refused)
    && d.now < r.expiresAt <= record.command.expiresAt
    && RecordOf(d.approvalID) !in before.approvals && DecisionOf(r.commandID) !in before.approvals
    && decided.approval == Approval(V1, d.approvalID, r.commandID, r.decision, r.actor, r.reason, d.now, r.expiresAt)
    && after.approvals == before.approvals[RecordOf(d.approvalID) := ApprovalDoc(decided.approval)]
                                          [DecisionOf(r.commandID) := ReferenceDoc(d.approvalID)]
    && decided.command == record.command.(approvalID := d.approvalID,
                                          state := if r.decision == Granted then Pending else Denied)
    && after.journal == before.journal[key := J.RecordDoc(
         record.(command := decided.command,
                 phase := if r.decision == Granted then J.PhaseAwaiting else J.PhaseCompleted))]
    && NotedAs(before.audit, after.audit, r, d, "accepted", r.reason)
  }

  /** A decision that came too late ends the command as expired. */
  ghost predicate RecordsExpiry(before: Buckets, after: Buckets, key: J.Key, r: Request, d: Draws) {
    && key in before.journal && before.journal[key].RecordDoc?
    && var record := before.journal[key].record;
    && record.command.commandID == r.commandID
    && record.phase == J.PhaseAwaiting && record.command.state == Pending && record.command.approvalID == ""
    && (d.now >= record.command.expiresAt || d.now >= r.expiresAt)
    && after.journal == before.journal[key := J.RecordDoc(
         record.(command := record.command.(state := Expired), phase := J.PhaseCompleted))]
    && after.approvals == before.approvals
    && NotedAs(before.audit, after.audit, r, d, "rejected", "command_expired")
  }

  /** Any other refusal that is noted leaves journal and approvals alone. */
  ghost predicate OnlyNoted(before: Buckets, after: Buckets, r: Request, d: Draws, reason: string) {
    after.journal == before.journal && after.approvals == before.approvals
    && NotedAs(before.audit, after.audit, r, d, "rejected", reason)
  }

  /** What an answer commits. */
  ghost predicate Commits(before: Buckets, out: Outcome, r: Request, d: Draws) {
    match out.result
    case Ok(decided) => exists key :: RecordsDecision(before, out.store, key, r, d, decided)
    case Err(CommandExpired) => exists key :: RecordsExpiry(before, out.store, key, r, d)
    case Err(InvalidDecision) => OnlyNoted(before, out.store, r, d, "invalid_approval")
    case Err(CommandNotFound) => OnlyNoted(before, out.store, r, d, "command_not_found")
    case Err(DecisionConflict) => OnlyNoted(before, out.store, r, d, "decision_conflict")
    case Err(_) => false
  }

  lemma AppendNotes(audit: Audit.Bucket, r: Request, d: Draws, note: Note)
    ensures match AppendAudit(audit, r, d, note)
            case Ok(audit') =>
              && OneMoreEvent(audit, audit')
              && (note.Accepted? ==> NotedAs(audit, audit', r, d, "accepted", note.reason))
              && (note == InvalidApproval ==> NotedAs(audit, audit', r, d, "rejected", "invalid_approval"))
              && (note == NotFound ==> NotedAs(audit, audit', r, d, "rejected", "command_not_found"))
              && (note == Conflict ==> NotedAs(audit, audit', r, d, "rejected", "decision_conflict"))
              && (note == TooLate ==> NotedAs(audit, audit', r, d, "rejected", "command_expired"))
            case Err(_) => true
  {
    AuditGrowsByOne(audit, r, d, note);
    hide Audit.Appended, ValidToken, OneMoreEvent;
  }

  /** Every decision call either leaves the store exactly as it was, or commits one
      audit event about itself together with the whole of its state change: a
      recorded decision, an expiry, or no other change at all. */
  lemma DecideAtomic(b: Buckets, r: Request, d: Draws)
    ensures var out := Decide(b, r, d);
            || (out.store == b && out.result.Err?)
            || (OneMoreEvent(b.audit, out.store.audit) && Commits(b, out, r, d))
  {
    hide ValidToken, ValidReason;
    AppendNotes(b.audit, r, d, InvalidApproval);
    AppendNotes(b.audit, r, d, NotFound);
    hide AppendAudit, NotedAs, OneMoreEvent;
    match J.FindByCommandID(b.journal, r.commandID)
    case Ok(Some(key)) => if ValidRequest(r) { DecideRecordAtomic(b, r, d, key); }
    case _ =>
  }

  lemma DecideRecordAtomic(b: Buckets, r: Request, d: Draws, key: J.Key)
    requires ValidRequest(r)
    requires key in b.journal && b.journal[key].RecordDoc? && b.journal[key].record.command.commandID == r.commandID
    ensures var out := DecideRecord(b, r, d, key);
            || (out.store == b && out.result.Err?)
            || (OneMoreEvent(b.audit, out.store.audit) && Commits(b, out, r, d))
  {
    hide J.RecordKey, J.ValidRecord, ValidToken, ValidReason, ValidApproval;
    AppendNotes(b.audit, r, d, Conflict);
    AppendNotes(b.audit, r, d, TooLate);
    AppendNotes(b.audit, r, d, InvalidApproval);
    AppendNotes(b.audit, r, d, Accepted(r.reason));
    hide AppendAudit, NotedAs, OneMoreEvent;
    var out := DecideRecord(b, r, d, key);
    if out.store != b {
      match out.result
      case Ok(decided) => assert RecordsDecision(b, out.store, key, r, d, decided);
      case Err(CommandExpired) => assert RecordsExpiry(b, out.store, key, r, d);
      case Err(_) =>
    }
  }

  /* ---- When a decision is recorded ---- */

  /** The one record of the command, still waiting for its decision. */
  ghost predicate Waits(j: J.Bucket, commandID: string, key: J.Key) {
    && J.OnlyRecord(j, commandID, key)
    && j[key].record.phase == J.PhaseAwaiting && j[key].record.command.approvalID == ""
  }

  /** The call can be noted in the audit chain. */
  predicate CanNote(audit: Audit.Bucket, r: Request, d: Draws, reason: string) {
    && Audit.ValidField(d.auditID) && Audit.ValidField(r.actor) && Audit.ValidField(reason) && d.auditNow != ZERO_TIME
    && Audit.ReadChain(audit).Ok? && Audit.ReadChain(audit).value.nextIndex < Audit.MAX_UINT64
  }

  /** The request itself is in order. */
  predicate InOrder(r: Request) {
    && ValidToken(r.commandID, MAX_ID) && ValidToken(r.actor, MAX_ID) && ValidToken(r.requestID, MAX_ID)
    && 0 < |r.reason| <= MAX_REASON && (forall i :: 0 <= i < |r.reason| ==> Audit.IsAuditChar(r.reason[i]))
    && (r.decision == Granted || r.decision == Refused)
    && r.expiresAt != ZERO_TIME
  }

  lemma FieldIsToken(s: string)
    requires Audit.ValidField(s)
    ensures ValidToken(s, MAX_ID)
  {
    assert forall c :: Audit.IsAuditChar(c) ==> !IsSpace(c) && c != '\0';
    hide Audit.IsAuditChar, IsSpace;
  }

  lemma NoteFields()
    ensures Audit.ValidField("recovery_approval") && Audit.ValidField("approval.decide")
    ensures Audit.ValidField("accepted") && Audit.ValidField("rejected") && Audit.ValidField("command_expired")
  {
  }

  lemma AppendAuditIff(audit: Audit.Bucket, r: Request, d: Draws, note: Note)
    requires note.Accepted? || note == TooLate
    ensures AppendAudit(audit, r, d, note).Ok? <==> CanNote(audit, r, d, ReasonText(note))
  {
    NoteFields();
    Audit.AppendedIff(audit, AuditEvent(r, d, note));
    hide Audit.Appended, Audit.ReadChain, Audit.ValidField, ValidToken;
    if Audit.ValidField(d.auditID) { FieldIsToken(d.auditID); }
  }

  lemma WaitsFound(j: J.Bucket, commandID: string)
    requires J.WellFormed(j)
    ensures forall key :: Waits(j, commandID, key) ==>
              && J.FindByCommandID(j, commandID) == Ok(Some(key)) && J.Holds(j, key)
              && j[key].record.command.state == Pending
    ensures match J.FindByCommandID(j, commandID)
            case Ok(Some(key)) =>
              j[key].record.phase == J.PhaseAwaiting && j[key].record.command.approvalID == "" ==>
                Waits(j, commandID, key)
            case _ => true
  {
    forall key ensures J.FindByCommandID(j, commandID) == Ok(Some(key)) <==> J.OnlyRecord(j, commandID, key) {
      J.FindIff(j, commandID, key);
    }
    hide J.ValidRecord, J.RecordKey, J.FindByCommandID;
    forall key | Waits(j, commandID, key) ensures J.Holds(j, key) && j[key].record.command.state == Pending {
      assert J.Holds(j, key);
      AwaitingIsPending(j[key].record);
    }
  }

  lemma AwaitingIsPending(r: J.Record)
    requires J.ValidRecord(r) && r.phase == J.PhaseAwaiting
    ensures r.command.state == Pending
  {
  }

  /** A decision is recorded exactly when the request is in order and in time for a
      command that waits and was never decided, asks for no longer than the command
      lasts, the drawn approval ID is well formed and new, and the decision can be
      noted. */
  lemma DecisionRecordedIff(b: Buckets, r: Request, d: Draws)
    requires Sound(b)
    ensures Decide(b, r, d).result.Ok? <==>
            && InOrder(r) && d.now != ZERO_TIME && ValidToken(d.approvalID, MAX_ID)
            && RecordOf(d.approvalID) !in b.approvals && DecisionOf(r.commandID) !in b.approvals
            && CanNote(b.audit, r, d, r.reason)
            && exists key :: Waits(b.journal, r.commandID, key)
                             && d.now < r.expiresAt <= b.journal[key].record.command.expiresAt
  {
    InOrderIff(r);
    hide J.FindByCommandID, J.WellFormed, Matched, CanNote, AppendAudit, Waits, ValidRequest, InOrder, DecideRecord,
      ValidToken, Refusal, ValidAuditRequest;
    WaitsFound(b.journal, r.commandID);
    AppendAuditIff(b.audit, r, d, Accepted(r.reason));
    if ValidRequest(r) && d.now != ZERO_TIME && ValidToken(d.approvalID, MAX_ID) {
      match J.FindByCommandID(b.journal, r.commandID)
      case Ok(Some(key)) => RecordedIffFound(b, r, d, key);
      case _ =>
    }
    RefusalErrs(b, r, d);
  }

  lemma RefusalErrs(b: Buckets, r: Request, d: Draws)
    ensures forall note, error :: Refusal(b, r, d, note, error).result.Err?
  {
    hide AppendAudit;
  }

  lemma InOrderIff(r: Request)
    ensures InOrder(r) <==> ValidRequest(r)
  {
    hide ValidToken, Audit.IsAuditChar;
  }

  lemma RecordedIffFound(b: Buckets, r: Request, d: Draws, key: J.Key)
    requires Sound(b) && J.FindByCommandID(b.journal, r.commandID) == Ok(Some(key))
    requires ValidRequest(r) && d.now != ZERO_TIME && ValidToken(d.approvalID, MAX_ID)
    ensures Decide(b, r, d).result.Ok? <==>
            && RecordOf(d.approvalID) !in b.approvals && DecisionOf(r.commandID) !in b.approvals
            && CanNote(b.audit, r, d, r.reason)
            && exists k :: Waits(b.journal, r.commandID, k)
                           && d.now < r.expiresAt <= b.journal[k].record.command.expiresAt
  {
    WaitsFound(b.journal, r.commandID);
    AppendAuditIff(b.audit, r, d, Accepted(r.reason));
    assert J.Holds(b.journal, key);
    RecordedIffOpen(b, r, d, key);
    hide J.FindByCommandID, J.WellFormed, Matched, CanNote, AppendAudit, ValidRequest, DecideRecord, ValidToken,
      Refusal,
      ValidAuditRequest, Waits;
    if b.journal[key].record.phase == J.PhaseAwaiting && b.journal[key].record.command.approvalID == "" {
      assert Waits(b.journal, r.commandID, key);
    }
    forall k | Waits(b.journal, r.commandID, k)
      ensures k == key && b.journal[key].record.phase == J.PhaseAwaiting
      ensures b.journal[key].record.command.approvalID == ""
    {
      WaitsFacts(b.journal, r.commandID, k);
    }
  }

  lemma WaitsFacts(j: J.Bucket, commandID: string, key: J.Key)
    requires Waits(j, commandID, key)
    ensures j[key].record.phase == J.PhaseAwaiting && j[key].record.command.approvalID == ""
  {
  }

  lemma RecordedIffOpen(b: Buckets, r: Request, d: Draws, key: J.Key)
    requires key in b.journal && key.CommandKey? && J.Holds(b.journal, key)
    requires b.journal[key].record.command.commandID == r.commandID
    requires AppendAudit(b.audit, r, d, Accepted(r.reason)).Ok? <==> CanNote(b.audit, r, d, r.reason)
    requires ValidRequest(r) && d.now != ZERO_TIME && ValidToken(d.approvalID, MAX_ID)
    ensures DecideRecord(b, r, d, key).result.Ok? <==>
            && b.journal[key].record.phase == J.PhaseAwaiting && b.journal[key].record.command.approvalID == ""
            && RecordOf(d.approvalID) !in b.approvals && DecisionOf(r.commandID) !in b.approvals
            && CanNote(b.audit, r, d, r.reason)
            && d.now < r.expiresAt <= b.journal[key].record.command.expiresAt
  {
    hide AppendAudit, CanNote, J.RecordKey, J.ValidRecord, ValidToken, ValidRequest, ValidApproval, Refusal, Attached,
      NewApproval;
    var record := b.journal[key].record;
    var a := NewApproval(r, d, record.command);
    NewApprovalFacts(r, d, record.command);
    RefusalErrs(b, r, d);
    if record.phase == J.PhaseAwaiting {
      AttachedValid(record, a);
    }
  }

  lemma NewApprovalFacts(r: Request, d: Draws, command: RecoveryCommand)
    requires ValidRequest(r) && d.now != ZERO_TIME && ValidToken(d.approvalID, MAX_ID)
    requires command.commandID == r.commandID
    ensures NewApproval(r, d, command).approvalID == d.approvalID && NewApproval(r, d, command).commandID == r.commandID
    ensures ValidApproval(NewApproval(r, d, command)) <==> r.expiresAt > d.now
  {
    hide ValidToken;
  }

  /** A call ends a waiting command as expired exactly when it is in order, comes after
      the command's or the requested expiry, and can be noted. */
  lemma ExpiryRecordedIff(b: Buckets, r: Request, d: Draws)
    requires Sound(b)
    ensures Decide(b, r, d).result == Err(CommandExpired) <==>
            && InOrder(r) && d.now != ZERO_TIME && ValidToken(d.approvalID, MAX_ID)
            && CanNote(b.audit, r, d, "command_expired")
            && exists key :: Waits(b.journal, r.commandID, key)
                             && (d.now >= b.journal[key].record.command.expiresAt || d.now >= r.expiresAt)
  {
    InOrderIff(r);
    hide J.FindByCommandID, J.WellFormed, Matched, CanNote, AppendAudit, Waits, ValidRequest, InOrder, DecideRecord,
      ValidToken, Refusal, ValidAuditRequest;
    WaitsFound(b.journal, r.commandID);
    if ValidRequest(r) && d.now != ZERO_TIME && ValidToken(d.approvalID, MAX_ID) {
      match J.FindByCommandID(b.journal, r.commandID)
      case Ok(Some(key)) => ExpiryIffFound(b, r, d, key);
      case _ =>
    }
    RefusalAnswers(b, r, d);
  }

  lemma RefusalAnswers(b: Buckets, r: Request, d: Draws)
    ensures forall note, error :: error != CommandExpired ==>
              Refusal(b, r, d, note, error).result != Err(CommandExpired)
  {
    hide Audit.Appended, ValidToken;
  }

  lemma ExpiryIffFound(b: Buckets, r: Request, d: Draws, key: J.Key)
    requires Sound(b) && J.FindByCommandID(b.journal, r.commandID) == Ok(Some(key))
    requires ValidRequest(r) && d.now != ZERO_TIME && ValidToken(d.approvalID, MAX_ID)
    ensures Decide(b, r, d).result == Err(CommandExpired) <==>
            && CanNote(b.audit, r, d, "command_expired")
            && exists k :: Waits(b.journal, r.commandID, k)
                           && (d.now >= b.journal[k].record.command.expiresAt || d.now >= r.expiresAt)
  {
    WaitsFound(b.journal, r.commandID);
    assert J.Holds(b.journal, key);
    ExpiryIffOpen(b, r, d, key);
    hide J.FindByCommandID, J.WellFormed, Matched, CanNote, AppendAudit, ValidRequest, DecideRecord, ValidToken,
      Refusal,
      ValidAuditRequest, Waits;
    if b.journal[key].record.phase == J.PhaseAwaiting && b.journal[key].record.command.approvalID == "" {
      assert Waits(b.journal, r.commandID, key);
    }
    forall k | Waits(b.journal, r.commandID, k)
      ensures k == key && b.journal[key].record.phase == J.PhaseAwaiting
      ensures b.journal[key].record.command.approvalID == ""
    {
      WaitsFacts(b.journal, r.commandID, k);
    }
  }

  lemma ExpiryIffOpen(b: Buckets, r: Request, d: Draws, key: J.Key)
    requires key in b.journal && key.CommandKey? && J.Holds(b.journal, key)
    ensures DecideRecord(b, r, d, key).result == Err(CommandExpired) <==>
            && b.journal[key].record.phase == J.PhaseAwaiting && b.journal[key].record.command.approvalID == ""
            && CanNote(b.audit, r, d, "command_expired")
            && (d.now >= b.journal[key].record.command.expiresAt || d.now >= r.expiresAt)
  {
    var record := b.journal[key].record;
    AppendAuditIff(b.audit, r, d, TooLate);
    RefusalAnswers(b, r, d);
    RecordAnswers(b, r, d, key);
    if record.phase == J.PhaseAwaiting { ExpiredValid(record); }
    hide AppendAudit, CanNote, J.RecordKey, J.ValidRecord, Refusal, ValidApproval, Record;
    NoteAnswers(b.audit, r, d, TooLate);
  }

  lemma NoteAnswers(audit: Audit.Bucket, r: Request, d: Draws, note: Note)
    ensures AppendAudit(audit, r, d, note) != Err(CommandExpired)
  {
    hide Audit.Appended, ValidToken;
  }

  lemma RecordAnswers(b: Buckets, r: Request, d: Draws, key: J.Key)
    requires key in b.journal && b.journal[key].RecordDoc?
    ensures forall a :: Record(b, r, d, key, a).result != Err(CommandExpired)
  {
    hide Audit.Appended, ValidToken, J.PutRecord, Attached;
  }

  lemma ExpiredValid(record: J.Record)
    requires J.ValidRecord(record) && record.phase == J.PhaseAwaiting
    ensures record.command.state == Pending
    ensures J.Rejected(record, Expired).Ok? && J.ValidRecord(J.Rejected(record, Expired).value)
    ensures J.RecordKey(J.Rejected(record, Expired).value.command) == J.RecordKey(record.command)
  {
    assert J.Effect(J.Rejected(record, Expired).value.command) == J.Effect(record.command);
  }

  lemma AttachedValid(record: J.Record, a: Approval)
    requires J.ValidRecord(record) && record.phase == J.PhaseAwaiting && ValidToken(a.approvalID, MAX_ID)
    ensures record.command.state == Pending
    ensures Attached(record, a).Ok? && J.ValidRecord(Attached(record, a).value)
    ensures J.RecordKey(Attached(record, a).value.command) == J.RecordKey(record.command)
  {
    assert J.Effect(Attached(record, a).value.command) == J.Effect(record.command);
  }

  /* ---- A decision is a legal journal write and is never overwritten ---- */

  ghost predicate Sound(b: Buckets) {
    J.WellFormed(b.journal) && Matched(b.approvals)
  }

  /** A legal move of the store: both invariants hold afterwards, the journal has
      evolved by one legal write and no approval was changed. */
  ghost predicate SoundMove(b: Buckets, b': Buckets) {
    && Sound(b')
    && J.Evolves(b.journal, b'.journal)
    && Grows(b.approvals, b'.approvals)
  }

  lemma SoundStay(b: Buckets, audit: Audit.Bucket)
    requires Sound(b)
    ensures SoundMove(b, b) && SoundMove(b, b.(audit := audit))
  {
    J.MaturesReflexive(b.journal);
  }

  lemma AttachedLegal(record: J.Record, a: Approval)
    requires record.phase == J.PhaseAwaiting && record.command.approvalID == "" && a.approvalID != ""
    requires record.command.state == Pending
    ensures Attached(record, a).Ok?
    ensures J.LegalWrite(record, Attached(record, a).value)
  {
  }

  lemma MatchedExtends(approvals: Bucket, a: Approval)
    requires Matched(approvals) && ValidApproval(a)
    requires RecordOf(a.approvalID) !in approvals && DecisionOf(a.commandID) !in approvals
    ensures var approvals' := approvals[RecordOf(a.approvalID) := ApprovalDoc(a)]
                                       [DecisionOf(a.commandID) := ReferenceDoc(a.approvalID)];
            Matched(approvals') && Grows(approvals, approvals')
  {
    hide ValidApproval;
    var approvals' := approvals[RecordOf(a.approvalID) := ApprovalDoc(a)]
                               [DecisionOf(a.commandID) := ReferenceDoc(a.approvalID)];
    forall k | k in approvals' ensures Paired(approvals', k) {
      if k in approvals { assert Paired(approvals, k); }
    }
  }

  lemma JournalMove(b: Buckets, key: J.Key, r: J.Record, approvals: Bucket, audit: Audit.Bucket)
    requires Sound(b) && key in b.journal && key.CommandKey? && b.journal[key].RecordDoc?
    requires J.LegalWrite(b.journal[key].record, r) && J.PutRecord(b.journal, key, r).Ok?
    requires Matched(approvals) && Grows(b.approvals, approvals)
    ensures SoundMove(b, Buckets(J.PutRecord(b.journal, key, r).value, approvals, audit))
  {
    J.WriteEvolves(b.journal, key, r);
  }

  lemma AuditedMove(b: Buckets, store: Buckets, r: Request, d: Draws, note: Note,
                    answer: Result<Decided, Error>)
    requires Sound(b) && forall audit :: SoundMove(b, store.(audit := audit))
    ensures SoundMove(b, Audited(b, store, r, d, note, answer).store)
  {
    SoundStay(b, b.audit);
  }

  lemma RefusalMove(b: Buckets, r: Request, d: Draws, note: Note, error: Error)
    requires Sound(b)
    ensures SoundMove(b, Refusal(b, r, d, note, error).store)
  {
    forall audit ensures SoundMove(b, b.(audit := audit)) { SoundStay(b, audit); }
    AuditedMove(b, b, r, d, note, Err(error));
  }

  lemma RecordMove(b: Buckets, r: Request, d: Draws, key: J.Key, a: Approval)
    requires Sound(b) && key in b.journal && key.CommandKey? && b.journal[key].RecordDoc?
    requires b.journal[key].record.phase == J.PhaseAwaiting && b.journal[key].record.command.state == Pending
    requires b.journal[key].record.command.approvalID == "" && a.approvalID != ""
    requires ValidApproval(a) && RecordOf(a.approvalID) !in b.approvals && DecisionOf(a.commandID) !in b.approvals
    ensures SoundMove(b, Record(b, r, d, key, a).store)
  {
    var record := b.journal[key].record;
    SoundStay(b, b.audit);
    AttachedLegal(record, a);
    MatchedExtends(b.approvals, a);
    hide AppendAudit, J.PutRecord, ValidApproval, Attached, SoundMove, Matched, J.WellFormed;
    var attached := Attached(record, a).value;
    if J.PutRecord(b.journal, key, attached).Ok? {
      var approvals := b.approvals[RecordOf(a.approvalID) := ApprovalDoc(a)]
                                  [DecisionOf(a.commandID) := ReferenceDoc(a.approvalID)];
      var store := b.(journal := J.PutRecord(b.journal, key, attached).value, approvals := approvals);
      forall audit ensures SoundMove(b, store.(audit := audit)) {
        JournalMove(b, key, attached, approvals, audit);
        assert store.(audit := audit) == Buckets(store.journal, approvals, audit);
      }
      AuditedMove(b, store, r, d, Accepted(r.reason), Ok(Decided(a, attached.command)));
    }
  }

  lemma RejectedLegal(record: J.Record, state: CommandState)
    requires J.Rejected(record, state).Ok?
    ensures J.LegalWrite(record, J.Rejected(record, state).value)
  {
  }

  lemma ExpiryMove(b: Buckets, r: Request, d: Draws, key: J.Key)
    requires Sound(b) && key in b.journal && key.CommandKey? && b.journal[key].RecordDoc?
    ensures SoundMove(b, ExpireRecord(b, r, d, key).store)
  {
    var record := b.journal[key].record;
    SoundStay(b, b.audit);
    if J.Rejected(record, Expired).Ok? {
      RejectedLegal(record, Expired);
      hide AppendAudit, J.PutRecord, Audited, SoundMove, Matched, J.WellFormed, J.Rejected, J.LegalWrite;
      var expired := J.Rejected(record, Expired).value;
      if J.PutRecord(b.journal, key, expired).Ok? {
        var store := b.(journal := J.PutRecord(b.journal, key, expired).value);
        forall audit ensures SoundMove(b, store.(audit := audit)) {
          JournalMove(b, key, expired, b.approvals, audit);
          assert store.(audit := audit) == Buckets(store.journal, b.approvals, audit);
        }
        AuditedMove(b, store, r, d, TooLate, Err(CommandExpired));
      }
    }
  }

  lemma OpenMove(b: Buckets, r: Request, d: Draws, key: J.Key)
    requires Sound(b) && key in b.journal && key.CommandKey? && b.journal[key].RecordDoc?
    requires b.journal[key].record.command.commandID == r.commandID
    requires b.journal[key].record.phase == J.PhaseAwaiting && b.journal[key].record.command.state == Pending
    requires b.journal[key].record.command.approvalID == ""
    ensures SoundMove(b, DecideOpen(b, r, d, key).store)
  {
    var a := NewApproval(r, d, b.journal[key].record.command);
    SoundStay(b, b.audit);
    RefusalMove(b, r, d, Conflict, DecisionConflict);
    RefusalMove(b, r, d, InvalidApproval, InvalidDecision);
    assert ValidApproval(a) ==> a.approvalID != "";
    hide ValidApproval, Refusal, SoundMove, Sound, Record;
    if ValidApproval(a) && RecordOf(a.approvalID) !in b.approvals && DecisionOf(a.commandID) !in b.approvals {
      RecordMove(b, r, d, key, a);
    }
  }

  lemma DecideRecordMove(b: Buckets, r: Request, d: Draws, key: J.Key)
    requires Sound(b) && key in b.journal && key.CommandKey? && b.journal[key].RecordDoc?
    requires b.journal[key].record.command.commandID == r.commandID
    ensures SoundMove(b, DecideRecord(b, r, d, key).store)
  {
    hide Refusal, ExpireRecord, DecideOpen, SoundMove, Sound;
    RefusalMove(b, r, d, Conflict, DecisionConflict);
    ExpiryMove(b, r, d, key);
    var record := b.journal[key].record;
    if record.phase == J.PhaseAwaiting && record.command.state == Pending && record.command.approvalID == "" {
      OpenMove(b, r, d, key);
    }
  }

  /** On a sound store a decision keeps both invariants, moves the journal only
      legally and adds to the approvals without touching what is there. */
  lemma DecideMove(b: Buckets, r: Request, d: Draws)
    requires Sound(b)
    ensures SoundMove(b, Decide(b, r, d).store)
  {
    hide ValidAuditRequest, ValidToken, Refusal, SoundMove, Sound, DecideRecord, J.FindByCommandID, J.ValidRecord,
      J.RecordKey;
    SoundStay(b, b.audit);
    RefusalMove(b, r, d, InvalidApproval, InvalidDecision);
    RefusalMove(b, r, d, NotFound, CommandNotFound);
    match J.FindByCommandID(b.journal, r.commandID)
    case Ok(Some(key)) => DecideRecordMove(b, r, d, key);
    case _ =>
  }
}
