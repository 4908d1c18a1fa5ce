/** What every schedule of the outbox keeps. */
module OutboxTheorems {
  import opened Text
  import opened Contract
  import opened Delivery
  import opened Publishers
  import opened Outbox
  import Audit

  ghost predicate BoxOK(c: Config, b: Box) {
    QueueOK(c.limits, b.queue) && Exact(b) && Audited(b)
  }

  /* ---- What stays true when the store moves on ---- */

  lemma LeadsReflexive(b: Box)
    ensures BoxLeads(b, b)
  {
  }

  lemma LeadsTransitive(a: Box, b: Box, d: Box)
    requires BoxLeads(a, b) && BoxLeads(b, d)
    ensures BoxLeads(a, d)
  {
  }

  lemma KeptForever(b: Box, b': Box, e: Event, paired: Option<Report>)
    requires BoxLeads(b, b')
    ensures EventKept(b, e) ==> EventKept(b', e)
    ensures ReportKept(b, paired) ==> ReportKept(b', paired)
  {
  }

  lemma CallForever(b: Box, b': Box, call: Call)
    requires BoxLeads(b, b') && CallOK(b, call)
    ensures CallOK(b', call)
  {
    hide BoxLeads;
    match call
    case LoadingEvent(e, paired) => KeptForever(b, b', e, paired);
    case StoringEvent(e, paired) => KeptForever(b, b', e, paired);
    case _ =>
  }

  /** The rest of the invariant follows a legal move of the store. */
  lemma BoxMoves(c: Config, s: State, b': Box, round: Option<Round>)
    requires Inv(c, s) && BoxOK(c, b') && BoxLeads(s.box, b')
    requires round.Some? ==> RoundOK(c, b'.queue, round.value)
    ensures Inv(c, s.(box := b', round := round))
  {
    hide QueueOK, Exact, Audited, RoundOK, BoxLeads, CallOK, EventKept, ReportKept;
    forall id | id in s.calls ensures CallOK(b', s.calls[id]) { CallForever(s.box, b', s.calls[id]); }
    forall i | 0 <= i < |s.done| ensures EventKept(b', s.done[i].event) && ReportKept(b', s.done[i].paired) {
      KeptForever(s.box, b', s.done[i].event, s.done[i].paired);
    }
  }

  lemma GoKeeps(c: Config, s: State, id: nat, next: Option<Call>)
    requires Inv(c, s) && (next.Some? ==> CallOK(s.box, next.value))
    ensures Inv(c, Go(s, id, next))
  {
    hide QueueOK, Exact, Audited, RoundOK, CallOK, EventKept, ReportKept;
  }

  lemma FinishKeeps(c: Config, s: State, id: nat, e: Event, paired: Option<Report>)
    requires Inv(c, s) && EventKept(s.box, e) && ReportKept(s.box, paired)
    ensures Inv(c, Finish(s, id, e, paired))
  {
    hide QueueOK, Exact, Audited, RoundOK, CallOK, EventKept, ReportKept;
  }

  /** A round does not see the items that are enqueued while it runs. */
  lemma RoundIgnoresNew(c: Config, queue: Queue, queue': Queue, r: Round)
    requires RoundOK(c, queue, r) && forall id :: id in queue ==> id in queue' && queue'[id] == queue[id]
    ensures RoundOK(c, queue', r)
  {
    hide Due;
  }

  /* ---- Publications ---- */

  lemma LoadKeeps(c: Config, s: State, id: nat)
    requires Inv(c, s) && id in s.calls
    ensures Inv(c, Loaded(s, id, s.calls[id])) && Loaded(s, id, s.calls[id]).box == s.box
  {
    var call := s.calls[id];
    assert CallOK(s.box, call);
    hide Inv;
    match call
    case LoadingReport(r, e) =>
      if r.id !in s.box.reports { GoKeeps(c, s, id, Some(StoringReport(r, e))); }
      else if s.box.reports[r.id] == r { GoKeeps(c, s, id, Some(LoadingEvent(e, Some(r)))); }
      else { GoKeeps(c, s, id, None); }
    case LoadingEvent(e, paired) =>
      if e.id !in s.box.events { GoKeeps(c, s, id, Some(StoringEvent(e, paired))); }
      else if s.box.events[e.id] == e { FinishKeeps(c, s, id, e, paired); }
      else { GoKeeps(c, s, id, None); }
    case _ =>
  }

  lemma AddedQueue(c: Config, b: Box, e: Event, r: Report, at: Time, d: Draws)
    ensures StoreEvent(c, b, e, d).Ok? ==> forall id :: id in b.queue ==>
              id in StoreEvent(c, b, e, d).value.queue && StoreEvent(c, b, e, d).value.queue[id] == b.queue[id]
    ensures StoreReport(c, b, r, at, d).Ok? ==> forall id :: id in b.queue ==>
              id in StoreReport(c, b, r, at, d).value.queue
                  && StoreReport(c, b, r, at, d).value.queue[id] == b.queue[id]
  {
    hide NewItem, Readable, WebhookInUse, ValidItem;
  }

  lemma BoxStored(c: Config, s: State, b': Box)
    requires Inv(c, s) && BoxOK(c, b') && BoxLeads(s.box, b')
    requires forall id :: id in s.box.queue ==> id in b'.queue && b'.queue[id] == s.box.queue[id]
    ensures Inv(c, s.(box := b'))
  {
    if s.round.Some? { RoundIgnoresNew(c, s.box.queue, b'.queue, s.round.value); }
    hide Inv, BoxOK, BoxLeads, RoundOK;
    BoxMoves(c, s, b', s.round);
  }

  lemma ReportStoredKeeps(c: Config, s: State, id: nat, r: Report, e: Event, d: Draws)
    requires ValidConfig(c) && Inv(c, s)
    ensures var s' := ReportStored(s, id, r, e, StoreReport(c, s.box, r, e.occurredAt, d));
            Inv(c, s') && BoxLeads(s.box, s'.box)
  {
    hide StoreReport, QueueOK, Exact, Audited, CallOK, RoundOK, EventKept, ReportKept, BoxLeads;
    LeadsReflexive(s.box);
    match StoreReport(c, s.box, r, e.occurredAt, d)
    case Ok(b') =>
      StoreReportOK(c, s.box, r, e.occurredAt, d);
      AddedQueue(c, s.box, e, r, e.occurredAt, d);
      BoxStored(c, s, b');
      PairedOK(b', e, Some(r));
      GoKeeps(c, s.(box := b'), id, Some(LoadingEvent(e, Some(r))));
    case Err(AlreadyStored) =>
      UnpairedOK(s.box, r, e);
      GoKeeps(c, s, id, Some(LoadingReport(r, e)));
    case Err(NotQueued) => GoKeeps(c, s, id, None);
  }

  lemma PairedOK(b: Box, e: Event, paired: Option<Report>)
    requires ReportKept(b, paired)
    ensures CallOK(b, LoadingEvent(e, paired)) && CallOK(b, StoringEvent(e, paired))
  {
  }

  lemma UnpairedOK(b: Box, r: Report, e: Event)
    ensures CallOK(b, LoadingReport(r, e)) && CallOK(b, StoringReport(r, e)) && CallOK(b, LoadingEvent(e, None))
  {
  }

  lemma EventStoredKeeps(c: Config, s: State, id: nat, e: Event, paired: Option<Report>, d: Draws)
    requires ValidConfig(c) && Inv(c, s) && ReportKept(s.box, paired)
    ensures var s' := EventStored(s, id, e, paired, StoreEvent(c, s.box, e, d));
            Inv(c, s') && BoxLeads(s.box, s'.box)
  {
    hide StoreEvent, QueueOK, Exact, Audited, CallOK, RoundOK, EventKept, ReportKept, BoxLeads;
    LeadsReflexive(s.box);
    match StoreEvent(c, s.box, e, d)
    case Ok(b') =>
      StoreEventOK(c, s.box, e, d);
      AddedQueue(c, s.box, e, Report(e.id, "", [], ""), ZERO_TIME, d);
      BoxStored(c, s, b');
      KeptForever(s.box, b', e, paired);
      FinishKeeps(c, s.(box := b'), id, e, paired);
    case Err(AlreadyStored) =>
      PairedOK(s.box, e, paired);
      GoKeeps(c, s, id, Some(LoadingEvent(e, paired)));
    case Err(NotQueued) => GoKeeps(c, s, id, None);
  }

  lemma EnqueueKeeps(c: Config, s: State, id: nat, d: Draws)
    requires ValidConfig(c) && Inv(c, s) && id in s.calls
    ensures var s' := Stored(c, s, id, s.calls[id], d); Inv(c, s') && BoxLeads(s.box, s'.box)
  {
    var call := s.calls[id];
    assert CallOK(s.box, call);
    LeadsReflexive(s.box);
    hide Inv, ReportStored, EventStored, StoreEvent, StoreReport, BoxLeads, ReportKept;
    match call
    case StoringReport(r, e) => ReportStoredKeeps(c, s, id, r, e, d);
    case StoringEvent(e, paired) => EventStoredKeeps(c, s, id, e, paired, d);
    case _ =>
  }

  /* ---- Delivery rounds ---- */

  lemma SendKeeps(c: Config, s: State, reply: Reply)
    requires Inv(c, s) && s.round.Some?
    ensures Inv(c, Sent(c, s, reply)) && Sent(c, s, reply).box == s.box
  {
    hide QueueOK, Exact, Audited, CallOK, EventKept, ReportKept, Due;
  }

  lemma SettleStep(c: Config, s: State, auditID: string)
    requires ValidConfig(c) && Inv(c, s) && s.round.Some? && s.round.value.action.Some?
    ensures var r, s' := s.round.value, Recorded(s, auditID);
            var i, a := r.todo[0], r.action.value;
            var refused := a.End? && !CanEnd(s.box.audit, i.deliveryID, auditID);
            && (refused ==> s' == s.(round := None))
            && (!refused ==>
                && Replaces(s.box, s'.box, i, Outcome(i, a)) && ItemOK(c.limits, i.deliveryID, Outcome(i, a))
                && Outcome(i, a) != i && s'.round == Some(Round(r.now, r.todo[1..], None))
                && s' == s.(box := s'.box, round := s'.round)
                && BoxOK(c, s'.box))
  {
    hide Exact, Audited, CallOK, EventKept, ReportKept, Settled, Due, ItemOK, CanEnd;
    var r := s.round.value;
    var i, a := r.todo[0], r.action.value;
    var reply :| Due(c.limits, i, r.now, reply) == Some(a);
    assert ItemOK(c.limits, i.deliveryID, i);
    SettledOutcome(c.limits, Books(s.box.queue, s.box.audit), i, r.now, reply, auditID);
    DueOutcome(c.limits, i, r.now, reply);
    hide QueueOK, Outcome, ItemLeads;
    var s' := Recorded(s, auditID);
    if !(a.End? && !CanEnd(s.box.audit, i.deliveryID, auditID)) {
      var i' := Outcome(i, a);
      ReplacesQueueOK(c.limits, s.box, s'.box, i, i');
      ReplacesExact(s.box, s'.box, i, i');
      if a.End? {
        EndAudited(s.box, s'.box, i, i', auditID, r.now, a.reason);
      } else {
        KeptAudited(s.box, s'.box, i, i');
      }
    }
  }

  lemma RestOK(c: Config, b: Box, b': Box, r: Round, i': Item)
    requires RoundOK(c, b.queue, r) && r.todo != [] && Replaces(b, b', r.todo[0], i')
    ensures RoundOK(c, b'.queue, Round(r.now, r.todo[1..], None))
  {
    hide Due, ItemLeads;
  }

  lemma SettleKeeps(c: Config, s: State, auditID: string)
    requires ValidConfig(c) && Inv(c, s) && s.round.Some?
    ensures Inv(c, Recorded(s, auditID)) && BoxLeads(s.box, Recorded(s, auditID).box)
  {
    hide QueueOK, Exact, Audited, CallOK, EventKept, ReportKept, Settled, Due, ItemOK, BoxLeads, Replaces, Outcome;
    LeadsReflexive(s.box);
    var r := s.round.value;
    if r.action.Some? {
      SettleStep(c, s, auditID);
      var s' := Recorded(s, auditID);
      var i := r.todo[0];
      if s' != s.(round := None) {
        var i' := Outcome(i, r.action.value);
        ReplacesLeads(s.box, s'.box, i, i');
        RestOK(c, s.box, s'.box, r, i');
        BoxMoves(c, s, s'.box, s'.round);
      }
    }
  }

  lemma StartKeeps(c: Config, s: State, now: Time, items: seq<Item>)
    requires Inv(c, s) && Listed(s.box.queue, items)
    ensures Inv(c, s.(round := Some(Round(now, items, None))))
  {
    hide QueueOK, Exact, Audited, CallOK, EventKept, ReportKept, Due;
  }

  lemma StepKeeps(c: Config, s: State, l: Label)
    requires ValidConfig(c) && Inv(c, s)
    ensures Inv(c, Step(c, s, l)) && BoxLeads(s.box, Step(c, s, l).box)
  {
    hide QueueOK, Exact, Audited, CallOK, EventKept, ReportKept, RoundOK, BoxLeads, Go, Loaded, Stored, Sent, Recorded,
      ValidEvent, Compose, Listed, ValidConfig;
    LeadsReflexive(s.box);
    match l
    case Publish(id, e) =>
      UnpairedOK(s.box, Report(e.id, "", [], ""), e);
      GoKeeps(c, s, id, Some(LoadingEvent(e, None)));
      GoSameBox(s, id, Some(LoadingEvent(e, None)));
    case PublishTerminal(id, input, clock) =>
      if Compose(input, clock).Some? {
        var x := Compose(input, clock).value;
        UnpairedOK(s.box, x.report, x.event);
        GoKeeps(c, s, id, Some(LoadingReport(x.report, x.event)));
        GoSameBox(s, id, Some(LoadingReport(x.report, x.event)));
      }
    case Load(id) => if id in s.calls { LoadKeeps(c, s, id); }
    case Enqueue(id, d) => if id in s.calls { EnqueueKeeps(c, s, id, d); }
    case StartRound(now, items) => if Listed(s.box.queue, items) { StartKeeps(c, s, now, items); }
    case Send(reply) => if s.round.Some? { SendKeeps(c, s, reply); }
    case Settle(auditID) => if s.round.Some? { SettleKeeps(c, s, auditID); }
    case AuditElsewhere(event) => ElsewhereKeeps(c, s, event);
    case Crash(ids, stop) =>
  }

  /** Appends by other components leave the outbox invariant alone. */
  lemma ElsewhereKeeps(c: Config, s: State, event: Audit.Event)
    requires Inv(c, s)
    ensures Inv(c, s.(box := AuditedElsewhere(s.box, event))) && BoxLeads(s.box, AuditedElsewhere(s.box, event))
  {
    hide QueueOK, Exact, Audited, RoundOK, CallOK, EventKept, ReportKept, BoxLeads, AuditedElsewhere;
    var b' := AuditedElsewhere(s.box, event);
    ElsewhereAudited(s.box, event);
    OnlyAudit(s.box, event);
    SameExact(s.box, b');
    BoxMoves(c, s, b', s.round);
  }

  lemma OnlyAudit(b: Box, event: Audit.Event)
    ensures var b' := AuditedElsewhere(b, event);
            && b'.queue == b.queue && b'.events == b.events && b'.reports == b.reports && BoxLeads(b, b')
  {
    hide Audit.Appended;
  }

  lemma SameExact(b: Box, b': Box)
    requires Exact(b) && b'.queue == b.queue && b'.events == b.events && b'.reports == b.reports
    ensures Exact(b')
  {
    hide NamedOnce, Names;
    forall t, ref | Holds(b', t, ref) ensures NamedOnce(b'.queue, t, ref) { assert Holds(b, t, ref); }
    forall t, ref, id | Names(b'.queue, id, t, ref) ensures Holds(b', t, ref) { assert Holds(b, t, ref); }
  }

  lemma GoSameBox(s: State, id: nat, next: Option<Call>)
    ensures Go(s, id, next).box == s.box
  {
  }

  lemma InitInv(c: Config)
    requires ValidConfig(c)
    ensures Inv(c, INIT)
  {
    assert WaitingIDs(map[]) == {};
    forall id ensures |Notes(map[], id)| == 0 { assert Notes(map[], id) == {}; }
  }

  lemma {:induction false} RunKeeps(c: Config, labels: seq<Label>)
    requires ValidConfig(c)
    ensures Inv(c, Run(c, labels))
  {
    hide Step, Inv, ValidConfig;
    if labels == [] {
      InitInv(c);
    } else {
      RunKeeps(c, labels[..|labels| - 1]);
      StepKeeps(c, Run(c, labels[..|labels| - 1]), labels[|labels| - 1]);
    }
  }

  /* ---- Theorems over every schedule ---- */

  /** A payload is stored if and only if exactly one queue item of its type names
      it. */
  lemma {:induction false} StoredIffQueuedOnce(c: Config, labels: seq<Label>, t: PayloadType, ref: Ref)
    requires ValidConfig(c)
    ensures var b := Run(c, labels).box;
            && (Holds(b, t, ref) <==> NamedOnce(b.queue, t, ref))
            && (Holds(b, t, ref) <==> exists id :: Names(b.queue, id, t, ref))
  {
    RunKeeps(c, labels);
    hide Run, QueueOK, Audited, RoundOK, CallOK, EventKept, ReportKept, Holds, Names;
  }

  /** Payloads never change or disappear, and neither do the identities of queue
      items; an item that stopped waiting stays as it is. */
  lemma {:induction false} StoreOnlyGrows(c: Config, before: seq<Label>, after: seq<Label>)
    requires ValidConfig(c)
    ensures BoxLeads(Run(c, before).box, Run(c, before + after).box)
  {
    hide Step, BoxLeads, Inv, ValidConfig;
    if after == [] {
      assert before + after == before;
      LeadsReflexive(Run(c, before).box);
    } else {
      var init := after[..|after| - 1];
      StoreOnlyGrows(c, before, init);
      assert (before + after)[..|before + after| - 1] == before + init;
      RunKeeps(c, before + init);
      StepKeeps(c, Run(c, before + init), after[|after| - 1]);
      LeadsTransitive(Run(c, before).box, Run(c, before + init).box, Run(c, before + after).box);
    }
  }

  /** Every waiting item has attempts left and a next attempt before its expiry;
      webhook IDs are unique; the waiting items never exceed the bound; and each
      item that was given up or timed out has exactly one audit event. */
  lemma {:induction false} QueueBounds(c: Config, labels: seq<Label>)
    requires ValidConfig(c)
    ensures var b := Run(c, labels).box;
            && |WaitingIDs(b.queue)| <= c.limits.maxItems
            && (forall id :: id in b.queue ==>
                  && b.queue[id].deliveryID == id && b.queue[id].nextAt < b.queue[id].expiresAt
                  && 0 <= b.queue[id].attempts <= c.limits.maxAttempts
                  && (b.queue[id].state == Waiting ==> b.queue[id].attempts < c.limits.maxAttempts))
            && (forall x, y :: x in b.queue && y in b.queue && b.queue[x].webhookID == b.queue[y].webhookID ==> x == y)
            && (forall id :: |Notes(b.audit, id)| == if id in b.queue && Failure(b.queue[id].state) then 1 else 0)
  {
    RunKeeps(c, labels);
    hide Run, Exact, RoundOK, CallOK, EventKept, ReportKept, Notes;
    var b := Run(c, labels).box;
    assert forall id :: id in b.queue ==> ItemOK(c.limits, id, b.queue[id]);
  }

  /* ---- Conservation of attempts ---- */

  function Weight(i: Item): int {
    i.attempts + if Failure(i.state) then 1 else 0
  }

  /** A step leaves an item alone or records one processing of it. */
  lemma StepWeight(c: Config, s: State, l: Label, id: string)
    requires ValidConfig(c) && Inv(c, s)
    ensures var q, q' := s.box.queue, Step(c, s, l).box.queue;
            && (id in q ==> id in q' && (q'[id] == q[id] || Weight(q'[id]) == Weight(q[id]) + 1))
            && (id !in q && id in q' ==> Weight(q'[id]) == 0)
  {
    hide QueueOK, Exact, Audited, CallOK, EventKept, ReportKept, RoundOK, Inv, Due, Weight;
    match l
    case Settle(auditID) =>
      if s.round.Some? && s.round.value.action.Some? {
        SettleStep(c, s, auditID);
        SettleWeight(c, s);
        hide Recorded, Outcome, ItemOK, BoxOK, ItemLeads;
      }
    case Enqueue(n, d) =>
      if n in s.calls {
        StoreWeight(c, s.box, s.calls[n], d, id);
        hide StoreEvent, StoreReport;
      }
    case _ => hide Sent, Loaded, Listed, Compose, ValidEvent;
  }

  lemma SettleWeight(c: Config, s: State)
    requires ValidConfig(c) && Inv(c, s) && s.round.Some? && s.round.value.action.Some?
    ensures var r := s.round.value;
            Weight(Outcome(r.todo[0], r.action.value)) == Weight(r.todo[0]) + 1
  {
    hide Exact, Audited, CallOK, EventKept, ReportKept, Delay;
    var r := s.round.value;
    var reply :| Due(c.limits, r.todo[0], r.now, reply) == r.action;
    assert ItemOK(c.limits, r.todo[0].deliveryID, r.todo[0]);
  }

  lemma StoreWeight(c: Config, b: Box, call: Call, d: Draws, id: string)
    requires ValidConfig(c)
    ensures StoreEvent(c, b, call.event, d).Ok? ==>
              var q := StoreEvent(c, b, call.event, d).value.queue;
              (id in b.queue ==> id in q && q[id] == b.queue[id]) && (id !in b.queue && id in q ==> Weight(q[id]) == 0)
    ensures call.StoringReport? && StoreReport(c, b, call.report, call.event.occurredAt, d).Ok? ==>
              var q := StoreReport(c, b, call.report, call.event.occurredAt, d).value.queue;
              (id in b.queue ==> id in q && q[id] == b.queue[id]) && (id !in b.queue && id in q ==> Weight(q[id]) == 0)
  {
    hide ValidToken, Readable, WebhookInUse, ValidItem, ValidRef;
  }

  /** How often the stored item changes along a schedule. */
  ghost function Processings(c: Config, labels: seq<Label>, id: string): nat {
    if labels == [] then 0
    else
      var init := labels[..|labels| - 1];
      var q, q' := Run(c, init).box.queue, Run(c, labels).box.queue;
      Processings(c, init, id) + if id in q && id in q' && q'[id] != q[id] then 1 else 0
  }

  /** Attempts are conserved: an item's recorded attempts, plus the ending itself
      for one that failed, are exactly the processings it has had. So it is
      processed at most `maxAttempts` times and is no longer waiting then. */
  lemma {:induction false} AttemptsConserved(c: Config, labels: seq<Label>, id: string)
    requires ValidConfig(c)
    ensures var q := Run(c, labels).box.queue;
            && (id in q ==> Weight(q[id]) == Processings(c, labels, id))
            && (id !in q ==> Processings(c, labels, id) == 0)
  {
    hide Step, Weight, Inv, ValidConfig;
    if labels != [] {
      var init := labels[..|labels| - 1];
      AttemptsConserved(c, init, id);
      RunKeeps(c, init);
      StepWeight(c, Run(c, init), labels[|labels| - 1], id);
    }
  }

  lemma {:induction false} ProcessedAtMost(c: Config, labels: seq<Label>, id: string)
    requires ValidConfig(c)
    ensures Processings(c, labels, id) <= c.limits.maxAttempts
    ensures id in Run(c, labels).box.queue && Processings(c, labels, id) == c.limits.maxAttempts ==>
              Run(c, labels).box.queue[id].state != Waiting
  {
    AttemptsConserved(c, labels, id);
    QueueBounds(c, labels);
    RunKeeps(c, labels);
    hide Run, Exact, Audited, RoundOK, CallOK, EventKept, ReportKept, Processings;
    var q := Run(c, labels).box.queue;
    assert id in q ==> ItemOK(c.limits, id, q[id]);
  }

  /** The action to record is an ending that the audit chain will not take. */
  predicate EndRefused(s: State, auditID: string)
    requires s.round.Some? && s.round.value.action.Some? && s.round.value.todo != []
  {
    s.round.value.action.value.End? && !CanEnd(s.box.audit, s.round.value.todo[0].deliveryID, auditID)
  }

  /** A due processing that reaches its transaction changes the item, and so counts,
      exactly unless it is an ending that cannot be audited: that one changes
      nothing and stops the round. */
  lemma {:induction false} ProcessingRecorded(c: Config, labels: seq<Label>, auditID: string)
    requires ValidConfig(c)
    requires Run(c, labels).round.Some? && Run(c, labels).round.value.action.Some?
    ensures var s, s' := Run(c, labels), Step(c, Run(c, labels), Settle(auditID));
            && s.round.value.todo != []
            && var id := s.round.value.todo[0].deliveryID;
            && id in s.box.queue && id in s'.box.queue
            && (s'.box.queue[id] != s.box.queue[id] <==> !EndRefused(s, auditID))
            && (EndRefused(s, auditID) ==> s' == s.(round := None))
  {
    hide Run, Inv, Step, EndRefused;
    RunKeeps(c, labels);
    SettleRecords(c, Run(c, labels), auditID);
  }

  lemma SettleRecords(c: Config, s: State, auditID: string)
    requires ValidConfig(c) && Inv(c, s) && s.round.Some? && s.round.value.action.Some?
    ensures var s' := Step(c, s, Settle(auditID));
            && s.round.value.todo != []
            && var id := s.round.value.todo[0].deliveryID;
            && id in s.box.queue && id in s'.box.queue
            && (s'.box.queue[id] != s.box.queue[id] <==> !EndRefused(s, auditID))
            && (EndRefused(s, auditID) ==> s' == s.(round := None))
  {
    hide Inv, Step, Recorded, Outcome, ItemOK, BoxOK, ItemLeads, CanEnd;
    StepRecords(c, s, auditID);
    ActionHasItem(c, s);
    FirstInQueue(c, s);
    SettleStep(c, s, auditID);
  }

  lemma FirstInQueue(c: Config, s: State)
    requires Inv(c, s) && s.round.Some? && s.round.value.todo != []
    ensures var i := s.round.value.todo[0]; i.deliveryID in s.box.queue && s.box.queue[i.deliveryID] == i
  {
    hide QueueOK, Exact, Audited, CallOK, EventKept, ReportKept;
  }

  lemma StepRecords(c: Config, s: State, auditID: string)
    requires s.round.Some?
    ensures Step(c, s, Settle(auditID)) == Recorded(s, auditID)
  {
    hide Recorded;
  }

  lemma ActionHasItem(c: Config, s: State)
    requires Inv(c, s) && s.round.Some? && s.round.value.action.Some?
    ensures s.round.value.todo != []
  {
    hide QueueOK, Exact, Audited, CallOK, EventKept, ReportKept;
  }

  /* ---- Items that cannot be ended ---- */

  ghost predicate ValidNotes(audit: Audit.Bucket) {
    forall k :: k in audit ==> Audit.ValidFields(audit[k].fields)
  }

  lemma AppendedValid(audit: Audit.Bucket, event: Audit.Event)
    requires ValidNotes(audit) && Audit.Appended(audit, event).Ok?
    ensures ValidNotes(Audit.Appended(audit, event).value)
  {
    hide Audit.ReadChain, Audit.ValidFields, Audit.EventKey;
  }

  lemma SettledNotes(b: Books, id: string, action: Action, now: Time, auditID: string)
    requires ValidNotes(b.audit)
    ensures Settled(b, id, action, now, auditID).Ok? ==> ValidNotes(Settled(b, id, action, now, auditID).value.audit)
  {
    hide Audit.Appended, ValidToken, ValidItem, ValidNotes;
    if action.End? {
      var event := FailureEvent(id, auditID, now, action.reason);
      if Audit.Appended(b.audit, event).Ok? { AppendedValid(b.audit, event); }
    }
  }

  lemma StepNotes(c: Config, s: State, l: Label)
    requires ValidNotes(s.box.audit)
    ensures ValidNotes(Step(c, s, l).box.audit)
  {
    hide ValidNotes, Audit.Appended, Settled, NewItem, Accepted, Due, Compose, ValidEvent, Listed;
    match l
    case Settle(auditID) =>
      if s.round.Some? && s.round.value.action.Some? && s.round.value.todo != [] {
        var r := s.round.value;
        SettledNotes(Books(s.box.queue, s.box.audit), r.todo[0].deliveryID, r.action.value, r.now, auditID);
      }
    case AuditElsewhere(note) => if Audit.Appended(s.box.audit, note).Ok? { AppendedValid(s.box.audit, note); }
    case _ =>
  }

  lemma {:induction false} RunNotes(c: Config, labels: seq<Label>)
    ensures ValidNotes(Run(c, labels).box.audit)
  {
    hide Step;
    if labels != [] {
      hide ValidNotes;
      RunNotes(c, labels[..|labels| - 1]);
      StepNotes(c, Run(c, labels[..|labels| - 1]), labels[|labels| - 1]);
    }
  }

  /** An item whose ID is not fit for an audit field never ends as failed or expired:
      in every schedule it is pending until it is delivered. */
  lemma {:induction false} UnauditableNeverEnds(c: Config, labels: seq<Label>, id: string)
    requires ValidConfig(c) && id in Run(c, labels).box.queue && !Audit.ValidField(id)
    ensures var state := Run(c, labels).box.queue[id].state;
            state == Waiting || state == Delivered
  {
    RunNotes(c, labels);
    RunKeeps(c, labels);
    hide Run, QueueOK, Exact, RoundOK, CallOK, EventKept, ReportKept, Audit.ValidField;
    var b := Run(c, labels).box;
    assert |Notes(b.audit, id)| == if Failure(b.queue[id].state) then 1 else 0;
    NotedIsFit(b.audit, id);
  }

  lemma NotedIsFit(audit: Audit.Bucket, id: string)
    requires ValidNotes(audit)
    ensures |Notes(audit, id)| > 0 ==> Audit.ValidField(id)
  {
    hide Audit.ValidField;
    if |Notes(audit, id)| > 0 {
      assert Notes(audit, id) != {};
      var k :| k in Notes(audit, id);
      assert Audit.ValidFields(audit[k].fields);
    }
  }

  /** Every round from here on is at or past time `t`. */
  predicate RoundsFrom(s: State, labels: seq<Label>, t: Time) {
    && (s.round.Some? ==> s.round.value.now >= t)
    && forall i :: 0 <= i < |labels| && labels[i].StartRound? ==> labels[i].now >= t
  }

  lemma StuckStep(c: Config, s: State, l: Label, id: string)
    requires ValidConfig(c) && Inv(c, s)
    requires id in s.box.queue && s.box.queue[id].state == Waiting && !Audit.ValidField(id)
    requires RoundsFrom(s, [l], s.box.queue[id].expiresAt)
    ensures id in Step(c, s, l).box.queue && Step(c, s, l).box.queue[id] == s.box.queue[id]
    ensures Step(c, s, l).round.Some? ==> Step(c, s, l).round.value.now >= s.box.queue[id].expiresAt
  {
    hide QueueOK, Exact, Audited, CallOK, EventKept, ReportKept, Inv, Due, NewItem, Accepted, Audit.Appended,
      Audit.ValidField, Listed, Compose, ValidEvent, CanEnd, Settled, ItemOK, Outcome;
    match l
    case Settle(auditID) =>
      if s.round.Some? && s.round.value.action.Some? {
        SettleStep(c, s, auditID);
        FirstInQueue(c, s);
        if s.round.value.todo[0].deliveryID == id {
          ExpiredEnds(c, s);
          assert !CanEnd(s.box.audit, id, auditID) by { CanEndField(s.box.audit, id, auditID); }
        }
      }
    case Enqueue(n, d) => if n in s.calls { StoreWeight(c, s.box, s.calls[n], d, id); }
    case StartRound(now, items) => assert [l][0].now == now;
    case _ =>
  }

  lemma CanEndField(audit: Audit.Bucket, id: string, auditID: string)
    ensures CanEnd(audit, id, auditID) ==> Audit.ValidField(id)
  {
  }

  lemma ExpiredEnds(c: Config, s: State)
    requires Inv(c, s) && s.round.Some? && s.round.value.action.Some? && s.round.value.todo != []
    requires s.round.value.now >= s.round.value.todo[0].expiresAt
    ensures s.round.value.action.value.End?
  {
    hide QueueOK, Exact, Audited, CallOK, EventKept, ReportKept;
    var r := s.round.value;
    var reply :| Due(c.limits, r.todo[0], r.now, reply) == r.action;
  }

  /** Once such an item has expired it stays pending for good: no schedule whose rounds
      run past its expiry ever changes it, and every round that comes to it stops
      there. */
  lemma {:induction false} UnauditableStaysForever(c: Config, before: seq<Label>, after: seq<Label>, id: string)
    requires ValidConfig(c) && id in Run(c, before).box.queue && Run(c, before).box.queue[id].state == Waiting
    requires !Audit.ValidField(id) && RoundsFrom(Run(c, before), after, Run(c, before).box.queue[id].expiresAt)
    ensures var s, s' := Run(c, before), Run(c, before + after);
            && id in s'.box.queue && s'.box.queue[id] == s.box.queue[id]
            && (s'.round.Some? ==> s'.round.value.now >= s.box.queue[id].expiresAt)
  {
    hide Step, Inv, Audit.ValidField;
    if after == [] {
      assert before + after == before;
    } else {
      var init, last := after[..|after| - 1], after[|after| - 1];
      UnauditableStaysForever(c, before, init, id);
      assert (before + after)[..|before + after| - 1] == before + init;
      RunKeeps(c, before + init);
      StuckStep(c, Run(c, before + init), last, id);
    }
  }

  /* ---- Completed publications ---- */

  /** Whenever a publication has returned without an error, its event is stored as
      given with exactly one lifecycle item; a terminal one has its report
      stored as composed with exactly one report item as well, in that state and
      in every later one. */
  lemma {:induction false} CompletedExactlyOnce(c: Config, labels: seq<Label>, i: nat)
    requires ValidConfig(c) && i < |Run(c, labels).done|
    ensures var b, d := Run(c, labels).box, Run(c, labels).done[i];
            && EventKept(b, d.event) && NamedOnce(b.queue, LifecyclePayload, d.event.id)
            && ReportKept(b, d.paired)
            && (d.paired.Some? ==> NamedOnce(b.queue, ReportPayload, d.paired.value.id))
  {
    RunKeeps(c, labels);
    hide Run, QueueOK, Audited, RoundOK, CallOK, NamedOnce;
    var b, d := Run(c, labels).box, Run(c, labels).done[i];
    assert Holds(b, LifecyclePayload, d.event.id);
    if d.paired.Some? {
      assert Holds(b, ReportPayload, d.paired.value.id);
    }
  }
}
