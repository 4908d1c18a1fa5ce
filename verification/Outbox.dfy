/** The transactional outbox as a state machine: publications, enqueues and one
    delivery round at a time, interleaved and interrupted at every transaction. */
module Outbox {
  import opened Text
  import opened Contract
  import opened Delivery
  import opened Publishers
  import Audit
  import J = Journal

  /* ---- Publications in flight ---- */

  /** A lifecycle publication that belongs to a terminal one carries its report. */
  datatype Call =
    | LoadingReport(report: Report, event: Event)
    | StoringReport(report: Report, event: Event)
    | LoadingEvent(event: Event, paired: Option<Report>)
    | StoringEvent(event: Event, paired: Option<Report>)

  /** A delivery round holds the dispatcher's mutex: the items still to visit and,
      after a send, the action to record on the first of them. */
  datatype Round = Round(now: Time, todo: seq<Item>, action: Option<Action>)

  /** A publication that returned without an error. */
  datatype Done = Done(event: Event, paired: Option<Report>)

  datatype State = State(box: Box, round: Option<Round>, calls: map<nat, Call>, done: seq<Done>)

  const INIT := State(EMPTY, None, map[], [])

  datatype Label =
    | Publish(id: nat, event: Event)
    | PublishTerminal(id: nat, input: Terminal, clock: Time)
    | Load(id: nat)
    | Enqueue(id: nat, draws: Draws)
    | StartRound(now: Time, items: seq<Item>)
    | Send(reply: Reply)
    | Settle(auditID: string)
    | AuditElsewhere(note: Audit.Event)
    | Crash(ids: set<nat>, stop: bool)

  function Go(s: State, id: nat, next: Option<Call>): State {
    s.(calls := if next == None then s.calls - {id} else s.calls[id := next.value])
  }

  function Finish(s: State, id: nat, e: Event, paired: Option<Report>): State {
    Go(s, id, None).(done := s.done + [Done(e, paired)])
  }

  function Loaded(s: State, id: nat, c: Call): State {
    match c
    case LoadingReport(r, e) =>
      if r.id !in s.box.reports then Go(s, id, Some(StoringReport(r, e)))
      else if s.box.reports[r.id] == r then Go(s, id, Some(LoadingEvent(e, Some(r))))
      else Go(s, id, None)
    case LoadingEvent(e, paired) =>
      if e.id !in s.box.events then Go(s, id, Some(StoringEvent(e, paired)))
      else if s.box.events[e.id] == e then Finish(s, id, e, paired)
      else Go(s, id, None)
    case _ => s
  }

  /** A payload found inside the transaction is loaded and compared again. */
  function Stored(c: Config, s: State, id: nat, call: Call, d: Draws): State {
    match call
    case StoringReport(r, e) => ReportStored(s, id, r, e, StoreReport(c, s.box, r, e.occurredAt, d))
    case StoringEvent(e, paired) => EventStored(s, id, e, paired, StoreEvent(c, s.box, e, d))
    case _ => s
  }

  function ReportStored(s: State, id: nat, r: Report, e: Event, result: Result<Box, Refusal>): State {
    match result
    case Ok(box) => Go(s.(box := box), id, Some(LoadingEvent(e, Some(r))))
    case Err(AlreadyStored) => Go(s, id, Some(LoadingReport(r, e)))
    case Err(NotQueued) => Go(s, id, None)
  }

  function EventStored(s: State, id: nat, e: Event, paired: Option<Report>, result: Result<Box, Refusal>): State {
    match result
    case Ok(box) => Finish(s.(box := box), id, e, paired)
    case Err(AlreadyStored) => Go(s, id, Some(LoadingEvent(e, paired)))
    case Err(NotQueued) => Go(s, id, None)
  }

  /* ---- A delivery round ---- */

  function Sent(c: Config, s: State, reply: Reply): State
    requires s.round.Some?
  {
    var r := s.round.value;
    if r.action.Some? then s
    else if r.todo == [] then s.(round := None)
    else match Due(c.limits, r.todo[0], r.now, reply)
      case None => s.(round := Some(Round(r.now, r.todo[1..], None)))
      case Some(action) => s.(round := Some(r.(action := Some(action))))
  }

  /** An error ends the round. */
  function Recorded(s: State, auditID: string): State
    requires s.round.Some?
  {
    var r := s.round.value;
    if r.action == None || r.todo == [] then s
    else match Settled(Books(s.box.queue, s.box.audit), r.todo[0].deliveryID, r.action.value, r.now, auditID)
      case Err(_) => s.(round := None)
      case Ok(books) =>
        s.(box := s.box.(queue := books.queue, audit := books.audit), round := Some(Round(r.now, r.todo[1..], None)))
  }

  /** An append to the shared audit chain by another component. */
  function AuditedElsewhere(b: Box, event: Audit.Event): Box {
    if event.fields.aggregateType == AGGREGATE then b
    else match Audit.Appended(b.audit, event)
      case Err(_) => b
      case Ok(audit) => b.(audit := audit)
  }

  ghost function Step(c: Config, s: State, l: Label): State {
    match l
    case Publish(id, e) => if id in s.calls || !ValidEvent(e) then s else Go(s, id, Some(LoadingEvent(e, None)))
    case PublishTerminal(id, input, clock) =>
      if id in s.calls || Compose(input, clock) == None then s
      else Go(s, id, Some(LoadingReport(Compose(input, clock).value.report, Compose(input, clock).value.event)))
    case Load(id) => if id in s.calls then Loaded(s, id, s.calls[id]) else s
    case Enqueue(id, d) => if id in s.calls then Stored(c, s, id, s.calls[id], d) else s
    case StartRound(now, items) =>
      if s.round.Some? || now == ZERO_TIME || !Listed(s.box.queue, items) then s
      else s.(round := Some(Round(now, items, None)))
    case Send(reply) => if s.round.Some? then Sent(c, s, reply) else s
    case Settle(auditID) => if s.round.Some? then Recorded(s, auditID) else s
    case AuditElsewhere(event) => s.(box := AuditedElsewhere(s.box, event))
    case Crash(ids, stop) => s.(calls := s.calls - ids, round := if stop then None else s.round)
  }

  ghost function Run(c: Config, labels: seq<Label>): State {
    if labels == [] then INIT else Step(c, Run(c, labels[..|labels| - 1]), labels[|labels| - 1])
  }

  /* ---- Invariants ---- */

  predicate ItemOK(l: Limits, id: string, i: Item) {
    && ValidItem(i)
    && i.deliveryID == id
    && i.nextAt > 0
    && (i.state != Delivered ==> i.attempts < l.maxAttempts)
    && (i.state == Delivered ==> 1 <= i.attempts <= l.maxAttempts)
  }

  ghost predicate QueueOK(l: Limits, queue: Queue) {
    && (forall id :: id in queue ==> ItemOK(l, id, queue[id]))
    && (forall a, b :: a in queue && b in queue && queue[a].webhookID == queue[b].webhookID ==> a == b)
    && |WaitingIDs(queue)| <= l.maxItems
  }

  predicate Names(queue: Queue, id: string, t: PayloadType, ref: Ref) {
    id in queue && queue[id].payloadType == t && queue[id].ref == ref
  }

  predicate Holds(b: Box, t: PayloadType, ref: Ref) {
    if t == LifecyclePayload then ref in b.events else ref in b.reports
  }

  /** Exactly one queue item of the type names the payload. */
  ghost predicate NamedOnce(queue: Queue, t: PayloadType, ref: Ref) {
    && (exists id :: Names(queue, id, t, ref))
    && (forall a, b :: Names(queue, a, t, ref) && Names(queue, b, t, ref) ==> a == b)
  }

  /** A payload is stored exactly when one queue item names it. */
  ghost predicate Exact(b: Box) {
    && (forall t, ref :: Holds(b, t, ref) ==> NamedOnce(b.queue, t, ref))
    && (forall t, ref, id :: Names(b.queue, id, t, ref) ==> Holds(b, t, ref))
    && (forall ref :: ref in b.events ==> b.events[ref].id == ref)
    && (forall ref :: ref in b.reports ==> b.reports[ref].id == ref)
  }

  /** Nothing but the round's own transactions touches the items it visits. */
  ghost predicate RoundOK(c: Config, queue: Queue, r: Round) {
    && (forall i :: 0 <= i < |r.todo| ==>
          r.todo[i].deliveryID in queue && queue[r.todo[i].deliveryID] == r.todo[i] && r.todo[i].state == Waiting)
    && (forall i, k :: 0 <= i < k < |r.todo| ==> r.todo[i].deliveryID != r.todo[k].deliveryID)
    && (r.action.Some? ==>
          r.todo != [] && exists reply :: Due(c.limits, r.todo[0], r.now, reply) == r.action)
  }

  predicate ReportKept(b: Box, paired: Option<Report>) {
    paired.Some? ==> paired.value.id in b.reports && b.reports[paired.value.id] == paired.value
  }

  predicate EventKept(b: Box, e: Event) {
    e.id in b.events && b.events[e.id] == e
  }

  predicate CallOK(b: Box, c: Call) {
    match c
    case LoadingEvent(_, paired) => ReportKept(b, paired)
    case StoringEvent(_, paired) => ReportKept(b, paired)
    case _ => true
  }

  /** The audit events about one delivery, whatever else the chain holds. */
  function Notes(audit: Audit.Bucket, id: string): set<string> {
    set k | k in audit && audit[k].fields.aggregateType == AGGREGATE && audit[k].fields.aggregateID == Audit.Named(id)
  }

  predicate Failure(s: ItemState) {
    s == TimedOut || s == GivenUp
  }

  ghost predicate Audited(b: Box) {
    forall id :: |Notes(b.audit, id)| == if id in b.queue && Failure(b.queue[id].state) then 1 else 0
  }

  ghost predicate Inv(c: Config, s: State) {
    && QueueOK(c.limits, s.box.queue)
    && Exact(s.box)
    && Audited(s.box)
    && (s.round.Some? ==> RoundOK(c, s.box.queue, s.round.value))
    && (forall id :: id in s.calls ==> CallOK(s.box, s.calls[id]))
    && (forall i :: 0 <= i < |s.done| ==> EventKept(s.box, s.done[i].event) && ReportKept(s.box, s.done[i].paired))
  }

  /* ---- How the store may change ---- */

  /** Identity fields are constant, attempts never fall, and an item that is no
      longer waiting never changes. */
  predicate ItemLeads(a: Item, b: Item) {
    && b == a.(attempts := b.attempts, nextAt := b.nextAt, state := b.state)
    && a.attempts <= b.attempts
    && (a.state != Waiting ==> b == a)
  }

  ghost predicate BoxLeads(b: Box, b': Box) {
    && (forall id :: id in b.queue ==> id in b'.queue && ItemLeads(b.queue[id], b'.queue[id]))
    && (forall ref :: ref in b.events ==> ref in b'.events && b'.events[ref] == b.events[ref])
    && (forall ref :: ref in b.reports ==> ref in b'.reports && b'.reports[ref] == b.reports[ref])
  }

  /* ---- Enqueueing ---- */

  lemma NewItemOK(l: Limits, q: Request, d: Draws)
    requires ValidLimits(l) && NewItem(l, q, d).Some?
    ensures ItemOK(l, d.deliveryID, NewItem(l, q, d).value)
    ensures NewItem(l, q, d).value.state == Waiting && NewItem(l, q, d).value.attempts == 0
    ensures NewItem(l, q, d).value.payloadType == q.payloadType && NewItem(l, q, d).value.ref == q.ref
  {
    assert d.now > 0;
    hide ValidToken;
    if q.ref.Given? { TokenNonEmpty(q.ref.name, MAX_REF); }
    TokenNonEmpty(q.destination, MAX_DESTINATION);
    TokenNonEmpty(d.deliveryID, MAX_REF);
  }

  lemma TokenNonEmpty(s: string, limit: nat)
    requires ValidToken(s, limit)
    ensures s != ""
  {
  }

  lemma AcceptedOK(l: Limits, queue: Queue, item: Item)
    requires QueueOK(l, queue) && ItemOK(l, item.deliveryID, item) && item.state == Waiting
    requires Accepted(l, queue, item).Ok?
    ensures var queue' := Accepted(l, queue, item).value;
            && item.deliveryID !in queue && queue' == queue[item.deliveryID := item]
            && QueueOK(l, queue')
  {
    hide ItemOK, ValidItem, Readable, QueueOK;
    UnusedWebhook(queue, item.webhookID);
    hide WebhookInUse;
    InsertedOK(l, queue, item);
  }

  lemma UnusedWebhook(queue: Queue, webhookID: string)
    requires !WebhookInUse(queue, webhookID)
    ensures forall a :: a in queue ==> queue[a].webhookID != webhookID
  {
  }

  lemma InsertedOK(l: Limits, queue: Queue, item: Item)
    requires QueueOK(l, queue) && ItemOK(l, item.deliveryID, item) && item.state == Waiting
    requires item.deliveryID !in queue && |WaitingIDs(queue)| < l.maxItems
    requires forall a :: a in queue ==> queue[a].webhookID != item.webhookID
    ensures QueueOK(l, queue[item.deliveryID := item])
  {
    hide ItemOK;
    var queue' := queue[item.deliveryID := item];
    assert WaitingIDs(queue') == WaitingIDs(queue) + {item.deliveryID};
  }

  /** The box once a payload and its item are stored. */
  ghost predicate Adds(b: Box, b': Box, t: PayloadType, ref: Ref, item: Item) {
    && item.deliveryID !in b.queue && item.payloadType == t && item.ref == ref && item.state == Waiting
    && b'.queue == b.queue[item.deliveryID := item]
    && b'.audit == b.audit
    && !Holds(b, t, ref)
    && (forall u, other :: Holds(b', u, other) <==> Holds(b, u, other) || (u == t && other == ref))
  }

  lemma AddsExact(b: Box, b': Box, t: PayloadType, ref: Ref, item: Item)
    requires Exact(b) && Adds(b, b', t, ref, item)
    requires forall r :: r in b'.events ==> b'.events[r].id == r
    requires forall r :: r in b'.reports ==> b'.reports[r].id == r
    ensures Exact(b')
  {
    hide Holds;
    forall u, other | Holds(b', u, other) ensures NamedOnce(b'.queue, u, other) {
      AddsNamed(b, b', t, ref, item, u, other);
    }
    forall u, other, id | Names(b'.queue, id, u, other) ensures Holds(b', u, other) {
      assert id == item.deliveryID || Names(b.queue, id, u, other);
    }
  }

  lemma AddsNamed(b: Box, b': Box, t: PayloadType, ref: Ref, item: Item, u: PayloadType, other: Ref)
    requires Exact(b) && Adds(b, b', t, ref, item) && Holds(b', u, other)
    ensures NamedOnce(b'.queue, u, other)
  {
    hide Holds;
    if u == t && other == ref {
      assert Names(b'.queue, item.deliveryID, t, ref);
      assert forall id :: Names(b'.queue, id, t, ref) ==> id == item.deliveryID || Names(b.queue, id, t, ref);
    } else {
      var id :| Names(b.queue, id, u, other);
      assert Names(b'.queue, id, u, other);
      assert forall a :: Names(b'.queue, a, u, other) ==> Names(b.queue, a, u, other);
    }
  }

  lemma AddsAudited(b: Box, b': Box, t: PayloadType, ref: Ref, item: Item)
    requires Audited(b) && Adds(b, b', t, ref, item)
    ensures Audited(b')
  {
    hide Holds;
    forall id ensures |Notes(b'.audit, id)| == if id in b'.queue && Failure(b'.queue[id].state) then 1 else 0 {
      assert |Notes(b.audit, id)| == if id in b.queue && Failure(b.queue[id].state) then 1 else 0;
    }
  }

  lemma StoreEventOK(c: Config, b: Box, e: Event, d: Draws)
    requires ValidConfig(c) && QueueOK(c.limits, b.queue) && Exact(b) && Audited(b)
    requires StoreEvent(c, b, e, d).Ok?
    ensures var b' := StoreEvent(c, b, e, d).value;
            && QueueOK(c.limits, b'.queue) && Exact(b') && Audited(b') && BoxLeads(b, b') && EventKept(b', e)
  {
    hide NewItem, Accepted, QueueOK, Audited;
    var b' := StoreEvent(c, b, e, d).value;
    var q := Request(LifecyclePayload, e.id, c.eventDestination, e.occurredAt + c.eventTTL);
    var item := NewItem(c.limits, q, d).value;
    NewItemOK(c.limits, q, d);
    NewItemID(c.limits, q, d);
    AcceptedOK(c.limits, b.queue, item);
    assert Adds(b, b', LifecyclePayload, e.id, item);
    AddsExact(b, b', LifecyclePayload, e.id, item);
    AddsAudited(b, b', LifecyclePayload, e.id, item);
  }

  lemma NewItemID(l: Limits, q: Request, d: Draws)
    requires NewItem(l, q, d).Some?
    ensures NewItem(l, q, d).value.deliveryID == d.deliveryID
  {
  }

  lemma StoreReportOK(c: Config, b: Box, r: Report, at: Time, d: Draws)
    requires ValidConfig(c) && QueueOK(c.limits, b.queue) && Exact(b) && Audited(b)
    requires StoreReport(c, b, r, at, d).Ok?
    ensures var b' := StoreReport(c, b, r, at, d).value;
            && QueueOK(c.limits, b'.queue) && Exact(b') && Audited(b') && BoxLeads(b, b') && ReportKept(b', Some(r))
  {
    hide NewItem, Accepted, QueueOK, Audited;
    var b' := StoreReport(c, b, r, at, d).value;
    var q := Request(ReportPayload, r.id, c.reportDestination, at + c.reportTTL);
    var item := NewItem(c.limits, q, d).value;
    NewItemOK(c.limits, q, d);
    NewItemID(c.limits, q, d);
    AcceptedOK(c.limits, b.queue, item);
    assert Adds(b, b', ReportPayload, r.id, item);
    AddsExact(b, b', ReportPayload, r.id, item);
    AddsAudited(b, b', ReportPayload, r.id, item);
  }

  /* ---- Recording a processed item ---- */

  /** What the action makes of the item. */
  function Outcome(i: Item, a: Action): Item {
    match a
    case MarkDelivered => i.(attempts := i.attempts + 1, state := Delivered)
    case Reschedule(attempts, nextAt) => i.(attempts := attempts, nextAt := nextAt)
    case End(state, _) => i.(state := state)
  }

  lemma DueOutcome(l: Limits, i: Item, now: Time, reply: Reply)
    requires ValidLimits(l) && ItemOK(l, i.deliveryID, i) && i.state == Waiting && Due(l, i, now, reply).Some?
    ensures var a := Due(l, i, now, reply).value;
            && ItemOK(l, i.deliveryID, Outcome(i, a)) && ItemLeads(i, Outcome(i, a)) && Outcome(i, a) != i
            && (a.End? <==> Failure(Outcome(i, a).state)) && (a.End? ==> Failure(a.state))
            && (a.MarkDelivered? ==> now < i.expiresAt)
  {
    DelayMonotone(l.initialBackoff, l.maxBackoff, i.attempts + 1, i.attempts + 1);
    hide Delay;
  }

  /** An item can be ended: both IDs are fit for an audit field, and the chain can be
      read and has room. */
  predicate CanEnd(audit: Audit.Bucket, id: string, auditID: string) {
    && Audit.ValidField(auditID) && Audit.ValidField(id)
    && Audit.ReadChain(audit).Ok? && Audit.ReadChain(audit).value.nextIndex < Audit.MAX_UINT64
  }

  lemma FailureFields()
    ensures Audit.ValidField(AGGREGATE) && Audit.ValidField("system") && Audit.ValidField("delivery.failed")
    ensures Audit.ValidField("failed") && Audit.ValidField("expired") && Audit.ValidField("attempts_exhausted")
  {
  }

  lemma FieldIsToken(s: string)
    requires Audit.ValidField(s)
    ensures ValidToken(s, MAX_REF)
  {
    assert forall c :: Audit.IsAuditChar(c) ==> !IsSpace(c) && c != '\0';
    hide Audit.IsAuditChar, IsSpace;
  }

  lemma FailureAppends(audit: Audit.Bucket, id: string, auditID: string, now: Time, reason: string)
    requires now != ZERO_TIME && (reason == "expired" || reason == "attempts_exhausted")
    ensures (ValidToken(auditID, MAX_REF) && Audit.Appended(audit, FailureEvent(id, auditID, now, reason)).Ok?) <==>
            CanEnd(audit, id, auditID)
  {
    hide Audit.Appended, Audit.ReadChain, Audit.ValidField, ValidToken;
    FailureFields();
    Audit.AppendedIff(audit, FailureEvent(id, auditID, now, reason));
    if Audit.ValidField(auditID) { FieldIsToken(auditID); }
  }

  lemma DueReasons(l: Limits, i: Item, now: Time, reply: Reply)
    requires i.nextAt > 0 && ValidItem(i) && Due(l, i, now, reply).Some?
    ensures now > 0
    ensures var a := Due(l, i, now, reply).value;
            a.End? ==> a.reason == "expired" || a.reason == "attempts_exhausted"
  {
    hide Delay;
  }

  /** An action from a due item is always recorded, except an ending, which is
      recorded exactly when the item can be ended. */
  lemma SettledOutcome(l: Limits, b: Books, i: Item, now: Time, reply: Reply, auditID: string)
    requires ValidLimits(l) && i.deliveryID in b.queue && b.queue[i.deliveryID] == i
    requires ItemOK(l, i.deliveryID, i) && i.state == Waiting && Due(l, i, now, reply).Some?
    ensures var a := Due(l, i, now, reply).value;
            var settled := Settled(b, i.deliveryID, a, now, auditID);
            && (settled.Ok? <==> (a.End? ==> CanEnd(b.audit, i.deliveryID, auditID)))
            && match settled
               case Err(e) => e == InvalidRequest || e == AuditRefused
               case Ok(b') =>
                 && b'.queue == b.queue[i.deliveryID := Outcome(i, a)]
                 && (if a.End?
                     then Audit.Appended(b.audit, FailureEvent(i.deliveryID, auditID, now, a.reason)) == Ok(b'.audit)
                     else b'.audit == b.audit)
  {
    DueOutcome(l, i, now, reply);
    DueReasons(l, i, now, reply);
    hide Due, ValidToken, Audit.Appended, CanEnd;
    var a := Due(l, i, now, reply).value;
    if a.End? { FailureAppends(b.audit, i.deliveryID, auditID, now, a.reason); }
  }

  /** An append adds to the notes of the delivery it is about, and to no other. */
  lemma AppendedNotes(audit: Audit.Bucket, event: Audit.Event, other: string)
    requires Audit.Appended(audit, event).Ok?
    ensures var audit' := Audit.Appended(audit, event).value;
            var about := event.fields.aggregateType == AGGREGATE && event.fields.aggregateID == Audit.Named(other);
            |Notes(audit', other)| == |Notes(audit, other)| + if about then 1 else 0
  {
    hide Audit.ReadChain, Audit.ValidFields, Audit.EventKey;
    var audit' := Audit.Appended(audit, event).value;
    var key := Audit.EventKey(Audit.ReadChain(audit).value.nextIndex);
    assert key !in audit && audit' == audit[key := audit'[key]];
    assert audit'[key].fields == event.fields;
    if event.fields.aggregateType == AGGREGATE && event.fields.aggregateID == Audit.Named(other) {
      assert Notes(audit', other) == Notes(audit, other) + {key};
    } else {
      assert Notes(audit', other) == Notes(audit, other);
    }
  }

  /** The box with one waiting item replaced by its outcome. */
  ghost predicate Replaces(b: Box, b': Box, i: Item, i': Item) {
    && i.deliveryID in b.queue && b.queue[i.deliveryID] == i && i.state == Waiting
    && b'.queue == b.queue[i.deliveryID := i']
    && b'.events == b.events && b'.reports == b.reports
    && ItemLeads(i, i')
  }

  lemma ReplacesQueueOK(l: Limits, b: Box, b': Box, i: Item, i': Item)
    requires QueueOK(l, b.queue) && Replaces(b, b', i, i') && ItemOK(l, i.deliveryID, i')
    ensures QueueOK(l, b'.queue)
  {
    hide ItemOK;
    var id := i.deliveryID;
    assert forall a :: a in b.queue ==> b'.queue[a].webhookID == b.queue[a].webhookID;
    assert WaitingIDs(b'.queue) <= WaitingIDs(b.queue);
    J.SubsetSize(WaitingIDs(b'.queue), WaitingIDs(b.queue));
  }

  lemma ReplacesExact(b: Box, b': Box, i: Item, i': Item)
    requires Exact(b) && Replaces(b, b', i, i')
    ensures Exact(b')
  {
    assert forall t, ref, id :: Names(b'.queue, id, t, ref) <==> Names(b.queue, id, t, ref);
    hide Names;
    forall t, ref | Holds(b', t, ref) ensures NamedOnce(b'.queue, t, ref) {
      assert Holds(b, t, ref);
      var id :| Names(b.queue, id, t, ref);
      assert Names(b'.queue, id, t, ref);
    }
  }

  lemma ReplacesLeads(b: Box, b': Box, i: Item, i': Item)
    requires Replaces(b, b', i, i')
    ensures BoxLeads(b, b')
  {
  }

  lemma EndAudited(b: Box, b': Box, i: Item, i': Item, auditID: string, now: Time, reason: string)
    requires Audited(b) && Replaces(b, b', i, i') && Failure(i'.state)
    requires Audit.Appended(b.audit, FailureEvent(i.deliveryID, auditID, now, reason)) == Ok(b'.audit)
    ensures Audited(b')
  {
    hide Audit.Appended;
    forall id ensures |Notes(b'.audit, id)| == if id in b'.queue && Failure(b'.queue[id].state) then 1 else 0 {
      AppendedNotes(b.audit, FailureEvent(i.deliveryID, auditID, now, reason), id);
      assert |Notes(b.audit, id)| == if id in b.queue && Failure(b.queue[id].state) then 1 else 0;
    }
  }

  lemma KeptAudited(b: Box, b': Box, i: Item, i': Item)
    requires Audited(b) && Replaces(b, b', i, i') && !Failure(i'.state) && b'.audit == b.audit
    ensures Audited(b')
  {
    forall id ensures |Notes(b'.audit, id)| == if id in b'.queue && Failure(b'.queue[id].state) then 1 else 0 {
      assert |Notes(b.audit, id)| == if id in b.queue && Failure(b.queue[id].state) then 1 else 0;
    }
  }

  lemma ElsewhereAudited(b: Box, event: Audit.Event)
    requires Audited(b)
    ensures Audited(AuditedElsewhere(b, event))
  {
    hide Audit.Appended, Notes;
    var b' := AuditedElsewhere(b, event);
    forall id ensures |Notes(b'.audit, id)| == if id in b'.queue && Failure(b'.queue[id].state) then 1 else 0 {
      assert |Notes(b.audit, id)| == if id in b.queue && Failure(b.queue[id].state) then 1 else 0;
      if b' != b { AppendedNotes(b.audit, event, id); }
    }
  }
}
