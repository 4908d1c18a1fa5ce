/** What the receiver's answers do to a queued item over every schedule. */
module DeliveryRuns {
  import opened Text
  import opened Contract
  import opened Delivery
  import opened DeliveryRound
  import opened Publishers
  import opened Outbox
  import opened OutboxTheorems
  import Audit

  /* ---- One processing ---- */

  /** The round is about to send, or pass over, the item under this ID. */
  predicate Facing(s: State, id: string) {
    && s.round.Some? && s.round.value.action == None && s.round.value.todo != []
    && s.round.value.todo[0].deliveryID == id
  }

  lemma SendIs(c: Config, s: State, reply: Reply)
    requires s.round.Some?
    ensures Step(c, s, Send(reply)) == Sent(c, s, reply)
  {
    hide Sent;
  }

  lemma FacingFacts(c: Config, s: State, id: string)
    requires Inv(c, s) && Facing(s, id)
    ensures var i := s.round.value.todo[0];
            id in s.box.queue && s.box.queue[id] == i && i.state == Waiting && ItemOK(c.limits, id, i)
  {
    hide Exact, Audited, CallOK, EventKept, ReportKept, ItemOK;
  }

  /** The item a round faces is sent and its answer recorded: unless it ends and the
      end cannot be audited, it meets its fate and nothing else in the queue moves. */
  lemma {:induction false} ProcessedAs(c: Config, labels: seq<Label>, id: string, reply: Reply, auditID: string)
    requires ValidConfig(c) && Facing(Run(c, labels), id)
    ensures var s := Run(c, labels);
            var i, now := s.round.value.todo[0], s.round.value.now;
            var s' := Step(c, Step(c, s, Send(reply)), Settle(auditID));
            && id in s.box.queue && i == s.box.queue[id] && i.attempts >= 0
            && id in s'.box.queue && s'.box.queue == s.box.queue[id := s'.box.queue[id]]
            && (Fate(c.limits, i, s'.box.queue[id], now, reply == Answered2xx)
                || (s'.box.queue[id] == i && s'.round == None && !CanEnd(s.box.audit, id, auditID)))
  {
    RunKeeps(c, labels);
    var s := Run(c, labels);
    hide Run, Inv, Step, Fate, Settled;
    FacingFacts(c, s, id);
    var i, now := s.round.value.todo[0], s.round.value.now;
    FateIs(c.limits, i, now, reply);
    StepKeeps(c, s, Send(reply));
    SendIs(c, s, reply);
    SentFacing(c, s, id, reply, auditID);
  }

  lemma SentFacing(c: Config, s: State, id: string, reply: Reply, auditID: string)
    requires ValidConfig(c) && Inv(c, s) && Facing(s, id) && Inv(c, Sent(c, s, reply))
    ensures var s' := Step(c, Sent(c, s, reply), Settle(auditID));
            var i, now := s.round.value.todo[0], s.round.value.now;
            && id in s'.box.queue && s'.box.queue == s.box.queue[id := s'.box.queue[id]]
            && (s'.box.queue[id] == After(c.limits, i, now, reply)
                || (s'.box.queue[id] == i && s'.round == None && !CanEnd(s.box.audit, id, auditID)))
  {
    FacingFacts(c, s, id);
    hide Inv, Step, Settled, Due, ItemOK, CanEnd, BoxOK, Outcome, Recorded, ItemLeads;
    var i, now := s.round.value.todo[0], s.round.value.now;
    var s1 := Sent(c, s, reply);
    assert s.box.queue == s.box.queue[id := i];
    StepRecords(c, s1, auditID);
    if s1.round.value.action == None {
      NothingToRecord(s1, auditID);
    } else {
      SettleStep(c, s1, auditID);
    }
  }

  lemma NothingToRecord(s: State, auditID: string)
    requires s.round.Some? && s.round.value.action == None
    ensures Recorded(s, auditID) == s
  {
  }

  /* ---- The last answer about an item ---- */

  /** The answer to the last send of the item along a schedule. */
  ghost function LastReply(c: Config, labels: seq<Label>, id: string): Option<Reply> {
    if labels == [] then None
    else
      var init, l := labels[..|labels| - 1], labels[|labels| - 1];
      var s := Run(c, init);
      if l.Send? && Facing(s, id) && s.round.value.todo[0].nextAt <= s.round.value.now < s.round.value.todo[0].expiresAt
          then Some(l.reply)
      else LastReply(c, init, id)
  }

  /** An item's state, and the action about to be recorded on it, fit the answer. */
  predicate ItemFits(i: Item, last: Option<Reply>) {
    && (i.state == Delivered ==> last == Some(Answered2xx))
    && (i.state == GivenUp ==> last.Some? && last != Some(Answered2xx))
    && (i.attempts > 0 ==> last.Some?)
  }

  predicate ActionFits(a: Action, last: Option<Reply>) {
    match a
    case MarkDelivered => last == Some(Answered2xx)
    case Reschedule(_, _) => last.Some? && last != Some(Answered2xx)
    case End(state, _) => state != Delivered && (state == GivenUp ==> last.Some? && last != Some(Answered2xx))
  }

  /** The round has sent the item under this ID and is about to record the result. */
  predicate Recording(s: State, id: string) {
    && s.round.Some? && s.round.value.action.Some? && s.round.value.todo != []
    && s.round.value.todo[0].deliveryID == id
  }

  predicate Fits(s: State, id: string, last: Option<Reply>) {
    && (id in s.box.queue ==> ItemFits(s.box.queue[id], last))
    && (Recording(s, id) ==> ActionFits(s.round.value.action.value, last))
  }

  lemma DueFits(l: Limits, i: Item, now: Time, reply: Reply, before: Option<Reply>)
    requires Due(l, i, now, reply).Some?
    ensures ActionFits(Due(l, i, now, reply).value,
                       if i.nextAt <= now < i.expiresAt then Some(reply) else before)
  {
    hide Delay;
  }

  lemma OutcomeFits(i: Item, a: Action, last: Option<Reply>)
    requires i.state == Waiting && ItemFits(i, last) && ActionFits(a, last)
    ensures ItemFits(Outcome(i, a), last)
  {
  }

  lemma SendFits(c: Config, s: State, reply: Reply, id: string, before: Option<Reply>)
    requires Inv(c, s) && s.round.Some? && Fits(s, id, before)
    ensures var sent := && Facing(s, id)
                        && s.round.value.todo[0].nextAt <= s.round.value.now < s.round.value.todo[0].expiresAt;
            Fits(Sent(c, s, reply), id, if sent then Some(reply) else before)
  {
    if Facing(s, id) { FacingFacts(c, s, id); }
    hide Inv, Due, ItemOK, ActionFits;
    if Facing(s, id) && Due(c.limits, s.round.value.todo[0], s.round.value.now, reply).Some? {
      DueFits(c.limits, s.round.value.todo[0], s.round.value.now, reply, before);
    }
  }

  lemma SettleFits(c: Config, s: State, auditID: string, id: string, last: Option<Reply>)
    requires ValidConfig(c) && Inv(c, s) && s.round.Some? && Fits(s, id, last)
    ensures Fits(Recorded(s, auditID), id, last)
  {
    if s.round.value.action.Some? {
      ActionHasItem(c, s);
      FirstInQueue(c, s);
      SettleStep(c, s, auditID);
      hide Inv, Settled, Due, ItemOK, CanEnd, BoxOK, Recorded, ItemLeads, Outcome, ActionFits, ItemFits;
      var i, a := s.round.value.todo[0], s.round.value.action.value;
      if i.deliveryID == id && Recorded(s, auditID) != s.(round := None) { OutcomeFits(i, a, last); }
    } else {
      NothingToRecord(s, auditID);
    }
  }

  lemma EnqueueFits(c: Config, s: State, n: nat, d: Draws, id: string, last: Option<Reply>)
    requires ValidConfig(c) && Inv(c, s) && n in s.calls && Fits(s, id, last)
    ensures Fits(Stored(c, s, n, s.calls[n], d), id, last)
  {
    hide Inv, Stored, BoxLeads, ActionFits, Weight, StoreEvent, StoreReport;
    EnqueueKeeps(c, s, n, d);
    StoredQueue(c, s, n, d, id);
    var s' := Stored(c, s, n, s.calls[n], d);
    if id in s'.box.queue { NewWaits(c, s', id); }
  }

  lemma StoredQueue(c: Config, s: State, n: nat, d: Draws, id: string)
    requires ValidConfig(c) && n in s.calls
    ensures var s' := Stored(c, s, n, s.calls[n], d);
            var q, q' := s.box.queue, s'.box.queue;
            && s'.round == s.round
            && (id in q ==> id in q' && q'[id] == q[id])
            && (id !in q && id in q' ==> Weight(q'[id]) == 0)
  {
    hide StoreEvent, StoreReport, Weight;
    StoreWeight(c, s.box, s.calls[n], d, id);
  }

  /** An item with no weight has never been processed. */
  lemma NewWaits(c: Config, s: State, id: string)
    requires Inv(c, s) && id in s.box.queue
    ensures Weight(s.box.queue[id]) == 0 ==> s.box.queue[id].state == Waiting && s.box.queue[id].attempts == 0
  {
    hide Exact, Audited, CallOK, EventKept, ReportKept, RoundOK;
    assert ItemOK(c.limits, id, s.box.queue[id]);
  }

  lemma StepFits(c: Config, s: State, l: Label, id: string, before: Option<Reply>)
    requires ValidConfig(c) && Inv(c, s) && Fits(s, id, before)
    ensures var sent := && l.Send? && Facing(s, id)
                        && s.round.value.todo[0].nextAt <= s.round.value.now < s.round.value.todo[0].expiresAt;
            Fits(Step(c, s, l), id, if sent then Some(l.reply) else before)
  {
    hide Inv, Sent, Recorded, Stored, Listed, Compose, ValidEvent, ActionFits, ItemFits, AuditedElsewhere, Fits;
    match l
    case Send(reply) => if s.round.Some? { SendFits(c, s, reply, id, before); }
    case Settle(auditID) => if s.round.Some? { SettleFits(c, s, auditID, id, before); }
    case Enqueue(n, d) => if n in s.calls { EnqueueFits(c, s, n, d, id, before); }
    case _ => ElsewhereFits(c, s, l, id, before);
  }

  lemma ElsewhereFits(c: Config, s: State, l: Label, id: string, last: Option<Reply>)
    requires Fits(s, id, last) && !l.Send? && !l.Settle? && !l.Enqueue?
    ensures Fits(Step(c, s, l), id, last)
  {
    hide Listed, Compose, ValidEvent, ActionFits, ItemFits, Audit.Appended;
  }

  lemma {:induction false} RunFits(c: Config, labels: seq<Label>, id: string)
    requires ValidConfig(c)
    ensures Fits(Run(c, labels), id, LastReply(c, labels, id))
  {
    hide Step, Inv, Fits, Facing;
    if labels == [] {
      NothingFits(id);
    } else {
      var init := labels[..|labels| - 1];
      RunFits(c, init, id);
      RunKeeps(c, init);
      StepFits(c, Run(c, init), labels[|labels| - 1], id, LastReply(c, init, id));
    }
  }

  lemma NothingFits(id: string)
    ensures Fits(INIT, id, None)
  {
  }

  /** In every schedule a delivered item was answered 2xx at its last send, an item
      that was given up was sent and not answered 2xx, and an item with attempts on
      record has been sent. */
  lemma {:induction false} AnswerDecides(c: Config, labels: seq<Label>, id: string)
    requires ValidConfig(c) && id in Run(c, labels).box.queue
    ensures var i, last := Run(c, labels).box.queue[id], LastReply(c, labels, id);
            && (i.state == Delivered ==> last == Some(Answered2xx))
            && (i.state == GivenUp ==> last.Some? && last != Some(Answered2xx))
            && (i.attempts > 0 ==> last.Some?)
  {
    RunFits(c, labels, id);
    hide Run, LastReply;
  }

  /* ---- What the audit chain says of a failed item ---- */

  /** The event tells of this item's end, with the reason that belongs to it. */
  predicate TellsOf(f: Audit.Fields, queue: Queue, id: string) {
    && f.aggregateID == Audit.Named(id) && f.actor == "system" && f.action == "delivery.failed" && f.result == "failed"
    && id in queue
    && (if f.reason == "expired" then queue[id].state == TimedOut
        else f.reason == "attempts_exhausted" && queue[id].state == GivenUp)
  }

  ghost predicate Told(b: Box) {
    forall k :: k in b.audit && b.audit[k].fields.aggregateType == AGGREGATE ==>
                exists id :: TellsOf(b.audit[k].fields, b.queue, id)
  }

  lemma TellsForever(f: Audit.Fields, b: Box, b': Box, id: string)
    requires TellsOf(f, b.queue, id) && BoxLeads(b, b')
    ensures TellsOf(f, b'.queue, id)
  {
    assert ItemLeads(b.queue[id], b'.queue[id]);
  }

  /** A legal move of the store that appends at most one event keeps the account. */
  lemma ToldForever(b: Box, b': Box, event: Audit.Event)
    requires Told(b) && BoxLeads(b, b')
    requires b'.audit == b.audit || Audit.Appended(b.audit, event) == Ok(b'.audit)
    requires event.fields.aggregateType == AGGREGATE ==> exists id :: TellsOf(event.fields, b'.queue, id)
    ensures Told(b')
  {
    hide BoxLeads, TellsOf, Audit.ReadChain, Audit.ValidFields, Audit.EventKey;
    forall k | k in b'.audit && b'.audit[k].fields.aggregateType == AGGREGATE
      ensures exists id :: TellsOf(b'.audit[k].fields, b'.queue, id)
    {
      if k in b.audit && b'.audit[k] == b.audit[k] {
        var id :| TellsOf(b.audit[k].fields, b.queue, id);
        TellsForever(b.audit[k].fields, b, b', id);
      } else {
        assert b'.audit[k].fields == event.fields;
      }
    }
  }

  lemma EndTells(l: Limits, i: Item, now: Time, reply: Reply, queue: Queue, auditID: string)
    requires Due(l, i, now, reply).Some? && Due(l, i, now, reply).value.End?
    requires i.deliveryID in queue && queue[i.deliveryID] == Outcome(i, Due(l, i, now, reply).value)
    ensures TellsOf(FailureEvent(i.deliveryID, auditID, now, Due(l, i, now, reply).value.reason).fields, queue,
                    i.deliveryID)
  {
    hide Delay;
  }

  lemma SettleTells(c: Config, s: State, auditID: string)
    requires ValidConfig(c) && Inv(c, s) && s.round.Some? && Told(s.box)
    ensures Told(Recorded(s, auditID).box)
  {
    SettleKeeps(c, s, auditID);
    var r, s' := s.round.value, Recorded(s, auditID);
    if r.action.Some? && s'.box != s.box {
      ActionHasItem(c, s);
      FirstInQueue(c, s);
      var i, a := r.todo[0], r.action.value;
      var reply := RoundReply(c, s);
      hide Inv, Told, Settled, Due, ItemOK, BoxLeads, Outcome;
      SettledOutcome(c.limits, Books(s.box.queue, s.box.audit), i, r.now, reply, auditID);
      if a.End? {
        var event := FailureEvent(i.deliveryID, auditID, r.now, a.reason);
        EndTells(c.limits, i, r.now, reply, s'.box.queue, auditID);
        ToldForever(s.box, s'.box, event);
      } else {
        ToldForever(s.box, s'.box, Audit.SAMPLE);
      }
    }
  }

  lemma RoundReply(c: Config, s: State) returns (reply: Reply)
    requires Inv(c, s) && s.round.Some? && s.round.value.action.Some?
    ensures s.round.value.todo != [] && ItemOK(c.limits, s.round.value.todo[0].deliveryID, s.round.value.todo[0])
    ensures s.round.value.todo[0].state == Waiting
    ensures Due(c.limits, s.round.value.todo[0], s.round.value.now, reply) == s.round.value.action
  {
    hide Exact, Audited, CallOK, EventKept, ReportKept, Due, ItemOK;
    var r := s.round.value;
    reply :| Due(c.limits, r.todo[0], r.now, reply) == r.action;
  }

  lemma AuditStep(c: Config, s: State, l: Label)
    ensures !l.Settle? && !l.AuditElsewhere? ==> Step(c, s, l).box.audit == s.box.audit
    ensures l.AuditElsewhere? && Step(c, s, l).box.audit != s.box.audit ==>
              && l.note.fields.aggregateType != AGGREGATE
              && Audit.Appended(s.box.audit, l.note) == Ok(Step(c, s, l).box.audit)
  {
    hide Settled, Listed, Compose, ValidEvent, Audit.Appended, Recorded, NewItem, Accepted, Due;
  }

  lemma StepTells(c: Config, s: State, l: Label)
    requires ValidConfig(c) && Inv(c, s) && Told(s.box)
    ensures Told(Step(c, s, l).box)
  {
    hide Inv, Told, Audit.Appended, BoxLeads, Recorded;
    if l.Settle? {
      if s.round.Some? { SettleTells(c, s, l.auditID); }
    } else {
      AuditStep(c, s, l);
      StepKeeps(c, s, l);
      hide Step;
      var elsewhere := l.AuditElsewhere? && Step(c, s, l).box.audit != s.box.audit;
      ToldForever(s.box, Step(c, s, l).box, if elsewhere then l.note else Audit.SAMPLE);
    }
  }

  lemma {:induction false} RunTells(c: Config, labels: seq<Label>)
    requires ValidConfig(c)
    ensures Told(Run(c, labels).box)
  {
    hide Step, Inv;
    if labels != [] {
      hide Told;
      RunTells(c, labels[..|labels| - 1]);
      RunKeeps(c, labels[..|labels| - 1]);
      StepTells(c, Run(c, labels[..|labels| - 1]), labels[|labels| - 1]);
    }
  }

  /** In every schedule an item that timed out has exactly one audit event and it says
      "expired", an item that was given up has exactly one and it says
      "attempts_exhausted", and no other item has any. */
  lemma {:induction false} NoteTellsState(c: Config, labels: seq<Label>, id: string)
    requires ValidConfig(c)
    ensures var b := Run(c, labels).box;
            var ended := id in b.queue && (b.queue[id].state == TimedOut || b.queue[id].state == GivenUp);
            && |Notes(b.audit, id)| == (if ended then 1 else 0)
            && (forall k :: k in Notes(b.audit, id) ==>
                  && ended && k in b.audit
                  && b.audit[k].fields.reason ==
                     (if b.queue[id].state == TimedOut then "expired" else "attempts_exhausted")
                  && b.audit[k].fields.result == "failed" && b.audit[k].fields.action == "delivery.failed")
  {
    RunTells(c, labels);
    RunKeeps(c, labels);
    hide Run, QueueOK, Exact, RoundOK, CallOK, EventKept, ReportKept;
    var b := Run(c, labels).box;
    forall k | k in Notes(b.audit, id) ensures TellsOf(b.audit[k].fields, b.queue, id) {
      var other :| TellsOf(b.audit[k].fields, b.queue, other);
    }
    assert |Notes(b.audit, id)| == if id in b.queue && Failure(b.queue[id].state) then 1 else 0;
  }

  /* ---- Where an item goes and how long it lives ---- */

  predicate Addressed(c: Config, b: Box, i: Item) {
    if i.payloadType == LifecyclePayload then
      && i.ref in b.events && i.destination == c.eventDestination
      && i.expiresAt == b.events[i.ref].occurredAt + c.eventTTL
    else i.ref in b.reports && i.destination == c.reportDestination
  }

  ghost predicate AllAddressed(c: Config, b: Box) {
    forall id :: id in b.queue ==> Addressed(c, b, b.queue[id])
  }

  lemma AddressedForever(c: Config, b: Box, b': Box, id: string)
    requires BoxLeads(b, b') && id in b.queue && Addressed(c, b, b.queue[id])
    ensures id in b'.queue && Addressed(c, b', b'.queue[id])
  {
    assert ItemLeads(b.queue[id], b'.queue[id]);
  }

  lemma StoredAddressed(c: Config, s: State, n: nat, d: Draws, id: string)
    requires n in s.calls && id !in s.box.queue && id in Stored(c, s, n, s.calls[n], d).box.queue
    ensures var b' := Stored(c, s, n, s.calls[n], d).box; Addressed(c, b', b'.queue[id])
  {
    hide StoreEvent, StoreReport, CanQueue;
    match s.calls[n]
    case StoringReport(r, e) => ReportStoredIff(c, s.box, r, e.occurredAt, d);
    case StoringEvent(e, _) => EventStoredIff(c, s.box, e, d);
    case _ =>
  }

  lemma StepAddressed(c: Config, s: State, l: Label)
    requires ValidConfig(c) && Inv(c, s) && AllAddressed(c, s.box)
    ensures AllAddressed(c, Step(c, s, l).box)
  {
    StepKeeps(c, s, l);
    hide Inv, BoxLeads, Addressed;
    var b' := Step(c, s, l).box;
    forall id | id in b'.queue ensures Addressed(c, b', b'.queue[id]) {
      if id in s.box.queue {
        AddressedForever(c, s.box, b', id);
      } else {
        NewByEnqueue(c, s, l);
        StoredAddressed(c, s, l.id, l.draws, id);
      }
    }
  }

  lemma NewByEnqueue(c: Config, s: State, l: Label)
    requires ValidConfig(c) && Inv(c, s)
    ensures if l.Enqueue? && l.id in s.calls then Step(c, s, l) == Stored(c, s, l.id, s.calls[l.id], l.draws)
            else Step(c, s, l).box.queue.Keys == s.box.queue.Keys
  {
    hide Inv, Recorded, Stored, Sent, Loaded, Listed, Compose, ValidEvent, AuditedElsewhere;
    match l
    case Settle(auditID) => if s.round.Some? { SettleKeys(c, s, auditID); }
    case Load(id) => if id in s.calls { LoadKeeps(c, s, id); }
    case Send(reply) => if s.round.Some? { SendKeeps(c, s, reply); }
    case AuditElsewhere(event) => OnlyAudit(s.box, event);
    case _ =>
  }

  lemma SettleKeys(c: Config, s: State, auditID: string)
    requires ValidConfig(c) && Inv(c, s) && s.round.Some?
    ensures Recorded(s, auditID).box.queue.Keys == s.box.queue.Keys
  {
    hide Inv, Recorded, ItemOK, Outcome, BoxOK, CanEnd, ItemLeads;
    if s.round.value.action.Some? { SettleStep(c, s, auditID); } else { NothingToRecord(s, auditID); }
  }

  /** In every schedule a lifecycle item is addressed to the event destination and
      expires when its event's time to live is over; a report item is addressed to
      the report destination. */
  lemma {:induction false} QueuedFor(c: Config, labels: seq<Label>)
    requires ValidConfig(c)
    ensures var b := Run(c, labels).box;
            forall id :: id in b.queue ==>
              if b.queue[id].payloadType == LifecyclePayload then
                && b.queue[id].ref in b.events && b.queue[id].destination == c.eventDestination
                && b.queue[id].expiresAt == b.events[b.queue[id].ref].occurredAt + c.eventTTL
              else b.queue[id].ref in b.reports && b.queue[id].destination == c.reportDestination
  {
    hide Step, Inv;
    if labels != [] {
      var init := labels[..|labels| - 1];
      QueuedFor(c, init);
      RunKeeps(c, init);
      assert AllAddressed(c, Run(c, init).box);
      StepAddressed(c, Run(c, init), labels[|labels| - 1]);
    }
  }
}
