/** One terminal publication run to its end, its repetition after a failure between
    its two transactions, and the publisher that does it in place. */
module Publication {
  import opened Text
  import opened Contract
  import opened Delivery
  import opened Publishers
  import opened Outbox
  import opened OutboxTheorems
  import J = Journal
  import W = Webhook

  datatype Published = Published(box: Box, ok: bool)

  function PublishedEvent(c: Config, b: Box, e: Event, d: Draws): Published {
    if e.id in b.events then Published(b, b.events[e.id] == e)
    else match StoreEvent(c, b, e, d)
      case Ok(b') => Published(b', true)
      case Err(_) => Published(b, false)
  }

  function PublishedTerminal(c: Config, b: Box, t: Terminal, clock: Time, dr: Draws, de: Draws): Published {
    match Compose(t, clock)
    case None => Published(b, false)
    case Some(x) =>
      if x.report.id in b.reports then
        if b.reports[x.report.id] == x.report then PublishedEvent(c, b, x.event, de) else Published(b, false)
      else match StoreReport(c, b, x.report, x.event.occurredAt, dr)
        case Ok(b') => PublishedEvent(c, b', x.event, de)
        case Err(_) => Published(b, false)
  }

  class Publisher {
    const config: Config
    var box: Box

    constructor (config: Config)
      ensures this.config == config && box == EMPTY
    {
      this.config := config;
      box := EMPTY;
    }

    method Publish(e: Event, d: Draws) returns (ok: bool)
      modifies this`box
      ensures Published(box, ok) ==
              if ValidEvent(e) then PublishedEvent(config, old(box), e, d) else Published(old(box), false)
    {
      hide StoreEvent, ValidEvent;
      if !ValidEvent(e) {
        return false;
      }
      if e.id in box.events {
        return box.events[e.id] == e;
      }
      var stored := StoreEvent(config, box, e, d);
      if stored.Err? {
        return false;
      }
      box := stored.value;
      ok := true;
    }

    method PublishTerminal(t: Terminal, clock: Time, dr: Draws, de: Draws) returns (ok: bool)
      modifies this`box
      ensures Published(box, ok) == PublishedTerminal(config, old(box), t, clock, dr, de)
    {
      var composed := Compose(t, clock);
      if composed == None {
        return false;
      }
      var report, event := composed.value.report, composed.value.event;
      ComposedValid(t, clock);
      hide StoreReport, StoreEvent, Compose, PublishedEvent, ValidEvent;
      if report.id in box.reports {
        if box.reports[report.id] != report {
          return false;
        }
      } else {
        var stored := StoreReport(config, box, report, event.occurredAt, dr);
        if stored.Err? {
          return false;
        }
        box := stored.value;
      }
      ok := Publish(event, de);
    }
  }

  /** The composed event always passes the lifecycle publisher's own checks. */
  lemma ComposedValid(t: Terminal, clock: Time)
    requires Compose(t, clock).Some?
    ensures ValidEvent(Compose(t, clock).value.event)
  {
    hide ValidToken, ValidEvidence;
    ReasonsValid();
    hide ValidReason;
  }

  lemma ReasonsValid()
    ensures ValidReason("terminal_failed") && ValidReason("terminal_closed")
  {
  }

  /** Reports share an ID exactly when their lifecycle events do, and both exactly
      when incident, terminal state and key agree. */
  lemma ComposedPairs(t: Terminal, clock: Time, t': Terminal, clock': Time)
    requires Compose(t, clock).Some? && Compose(t', clock').Some?
    ensures var x, x' := Compose(t, clock).value, Compose(t', clock').value;
            && (x.report.id == x'.report.id <==>
                  t.incidentID == t'.incidentID && t.state == t'.state && t.key == t'.key)
            && (x.event.id == x'.event.id <==> x.report.id == x'.report.id)
  {
    var x, x' := Compose(t, clock).value, Compose(t', clock').value;
    StableReportIDInjective(t.incidentID, t.state, t.key, t'.incidentID, t'.state, t'.key);
    StableEventIDInjective(x.event.eventType, t.incidentID, t.key, x'.event.eventType, t'.incidentID, t'.key);
    hide StableReportID, StableEventID, ValidToken, ValidEvidence;
  }

  /* ---- Repeating a publication ---- */

  /** The report and the event of this input are in the store as composed. */
  predicate Complete(b: Box, x: Composed) {
    EventKept(b, x.event) && ReportKept(b, Some(x.report))
  }

  ghost predicate OnceEach(b: Box, x: Composed) {
    NamedOnce(b.queue, ReportPayload, x.report.id) && NamedOnce(b.queue, LifecyclePayload, x.event.id)
  }

  lemma ExplicitTime(t: Terminal, clock: Time, clock': Time)
    requires t.occurredAt != ZERO_TIME
    ensures Compose(t, clock) == Compose(t, clock')
  {
  }

  lemma PublishedEventOK(c: Config, b: Box, e: Event, d: Draws)
    requires ValidConfig(c) && BoxOK(c, b)
    ensures var p := PublishedEvent(c, b, e, d);
            && BoxOK(c, p.box) && BoxLeads(b, p.box) && (p.ok ==> EventKept(p.box, e))
            && p.box.reports == b.reports
  {
    hide StoreEvent, QueueOK, Exact, Audited, BoxLeads;
    LeadsReflexive(b);
    if e.id !in b.events && StoreEvent(c, b, e, d).Ok? {
      StoreEventOK(c, b, e, d);
      EventOnly(c, b, e, d);
    }
  }

  lemma EventOnly(c: Config, b: Box, e: Event, d: Draws)
    requires StoreEvent(c, b, e, d).Ok?
    ensures StoreEvent(c, b, e, d).value.reports == b.reports
  {
    hide NewItem, Accepted;
  }

  /** A publication that succeeds leaves exactly one report item and exactly one
      lifecycle item, from any store the publishers can have reached. */
  lemma SuccessIsOnceEach(c: Config, b: Box, t: Terminal, clock: Time, dr: Draws, de: Draws)
    requires ValidConfig(c) && BoxOK(c, b)
    ensures var p := PublishedTerminal(c, b, t, clock, dr, de);
            && BoxOK(c, p.box) && BoxLeads(b, p.box)
            && (p.ok ==> Complete(p.box, Compose(t, clock).value) && OnceEach(p.box, Compose(t, clock).value))
  {
    hide Compose, StoreReport, QueueOK, Exact, Audited, BoxLeads, PublishedEvent, EventKept, NamedOnce;
    LeadsReflexive(b);
    var p := PublishedTerminal(c, b, t, clock, dr, de);
    if Compose(t, clock).Some? {
      var x := Compose(t, clock).value;
      if x.report.id in b.reports {
        PublishedEventOK(c, b, x.event, de);
      } else if StoreReport(c, b, x.report, x.event.occurredAt, dr).Ok? {
        var b' := StoreReport(c, b, x.report, x.event.occurredAt, dr).value;
        StoreReportOK(c, b, x.report, x.event.occurredAt, dr);
        PublishedEventOK(c, b', x.event, de);
        LeadsTransitive(b, b', p.box);
      }
      if p.ok { CompleteOnce(p.box, x); }
    }
  }

  lemma CompleteOnce(b: Box, x: Composed)
    requires Exact(b) && Complete(b, x)
    ensures OnceEach(b, x)
  {
    hide NamedOnce;
    assert Holds(b, ReportPayload, x.report.id) && Holds(b, LifecyclePayload, x.event.id);
  }

  /** Repeating a completed publication with an explicit time succeeds and changes
      nothing, whatever the clock and the generators now say. */
  lemma RepeatIsNoOp(c: Config, b: Box, t: Terminal, clock: Time, clock': Time, dr: Draws, de: Draws)
    requires Compose(t, clock).Some? && t.occurredAt != ZERO_TIME && Complete(b, Compose(t, clock).value)
    ensures PublishedTerminal(c, b, t, clock', dr, de) == Published(b, true)
  {
    ExplicitTime(t, clock, clock');
    hide Compose, StoreReport, StoreEvent;
  }

  /* ---- Completing the paired event ---- */

  /** What the lifecycle publisher asks the queue for. */
  function EventRequest(c: Config, e: Event): Request {
    Request(LifecyclePayload, e.id, c.eventDestination, e.occurredAt + c.eventTTL)
  }

  /** The report of an earlier call is stored, whatever else has happened since. With
      an explicit time the repetition adds no report, and it completes exactly
      when the event is already there as composed, or is absent and its item can
      be queued now: in particular only before the event's expiry. */
  lemma RetryAfterReport(c: Config, b: Box, t: Terminal, clock: Time, clock': Time, dr: Draws, de: Draws)
    requires ValidConfig(c) && BoxOK(c, b) && t.occurredAt != ZERO_TIME && Compose(t, clock).Some?
    requires ReportKept(b, Some(Compose(t, clock).value.report))
    ensures var x := Compose(t, clock).value;
            var p := PublishedTerminal(c, b, t, clock', dr, de);
            && p.box.reports == b.reports
            && (p.ok <==>
                if x.event.id in b.events then b.events[x.event.id] == x.event
                else CanQueue(c.limits, b.queue, EventRequest(c, x.event), de))
            && (p.ok ==> OnceEach(p.box, x))
  {
    ExplicitTime(t, clock, clock');
    ComposedTime(t, clock);
    ComposedRefs(t, clock);
    hide Compose, StoreReport, StoreEvent, QueueOK, Exact, Audited, BoxLeads, OnceEach, PublishedEvent, CanQueue,
      ValidRef;
    var x := Compose(t, clock).value;
    SuccessIsOnceEach(c, b, t, clock', dr, de);
    PublishedEventOK(c, b, x.event, de);
    EventIff(c, b, x.event, de);
    EventStoredIff(c, b, x.event, de);
  }

  /** So it is in every store that publications, delivery rounds and crashes reach,
      and the report that a publication stored is there in all of them from then
      on. */
  lemma {:induction false} RetryInAnySchedule(c: Config, before: seq<Label>, after: seq<Label>, t: Terminal,
                                              clock: Time, clock': Time, dr: Draws, de: Draws)
    requires ValidConfig(c) && t.occurredAt != ZERO_TIME && Compose(t, clock).Some?
    requires ReportKept(Run(c, before).box, Some(Compose(t, clock).value.report))
    ensures var x, b := Compose(t, clock).value, Run(c, before + after).box;
            var p := PublishedTerminal(c, b, t, clock', dr, de);
            && ReportKept(b, Some(x.report)) && p.box.reports == b.reports
            && (p.ok <==>
                if x.event.id in b.events then b.events[x.event.id] == x.event
                else CanQueue(c.limits, b.queue, EventRequest(c, x.event), de))
            && (p.ok ==> OnceEach(p.box, x))
  {
    hide Compose, Run, PublishedTerminal, CanQueue, OnceEach, QueueOK, Exact, Audited, RoundOK, CallOK;
    var x, b := Compose(t, clock).value, Run(c, before + after).box;
    StoreOnlyGrows(c, before, after);
    RunKeeps(c, before + after);
    KeptForever(Run(c, before).box, b, x.event, Some(x.report));
    RetryAfterReport(c, b, t, clock, clock', dr, de);
  }

  lemma ComposedRefs(t: Terminal, clock: Time)
    requires Compose(t, clock).Some?
    ensures ValidRef(Compose(t, clock).value.event.id, MAX_REF) && ValidRef(Compose(t, clock).value.report.id, MAX_REF)
  {
  }

  lemma EventIff(c: Config, b: Box, e: Event, d: Draws)
    ensures PublishedEvent(c, b, e, d).ok <==>
            if e.id in b.events then b.events[e.id] == e else StoreEvent(c, b, e, d).Ok?
  {
    hide StoreEvent;
  }

  /** Once the event would have expired, no repetition completes a publication whose
      event is missing, and none changes anything. */
  lemma LateRetryFails(c: Config, b: Box, t: Terminal, clock: Time, dr: Draws, de: Draws)
    requires t.occurredAt != ZERO_TIME && Compose(t, clock).Some?
    requires ReportKept(b, Some(Compose(t, clock).value.report)) && Compose(t, clock).value.event.id !in b.events
    requires de.now >= t.occurredAt + c.eventTTL
    ensures PublishedTerminal(c, b, t, clock, dr, de) == Published(b, false)
  {
    ComposedTime(t, clock);
    hide Compose, StoreReport, Accepted, ValidToken, W.ValidMessageID;
  }

  /** One repetition: its clock for the input, and its draws for the two items. */
  datatype Retry = Retry(clock: Time, report: Draws, event: Draws)

  function Retried(c: Config, b: Box, t: Terminal, retries: seq<Retry>): Published {
    if retries == [] then Published(b, false)
    else
      var before, last := Retried(c, b, t, retries[..|retries| - 1]), retries[|retries| - 1];
      PublishedTerminal(c, before.box, t, last.clock, last.report, last.event)
  }

  /** The documented promise that a retry completes a missing paired event fails for
      good once the event's lifetime is over: however many retries follow, none
      succeeds and the event is never stored. */
  lemma {:induction false} NeverCompleted(c: Config, b: Box, t: Terminal, clock: Time, retries: seq<Retry>)
    requires t.occurredAt != ZERO_TIME && Compose(t, clock).Some?
    requires ReportKept(b, Some(Compose(t, clock).value.report)) && Compose(t, clock).value.event.id !in b.events
    requires forall i :: 0 <= i < |retries| ==> retries[i].event.now >= t.occurredAt + c.eventTTL
    ensures Retried(c, b, t, retries) == Published(b, false)
  {
    hide Compose, PublishedTerminal;
    if retries != [] {
      var init, last := retries[..|retries| - 1], retries[|retries| - 1];
      NeverCompleted(c, b, t, clock, init);
      ExplicitTime(t, clock, last.clock);
      LateRetryFails(c, b, t, last.clock, last.report, last.event);
    }
  }

  lemma ComposedTime(t: Terminal, clock: Time)
    requires Compose(t, clock).Some?
    ensures Compose(t, clock).value.event.occurredAt == if t.occurredAt == ZERO_TIME then clock else t.occurredAt
  {
  }

  /** Without an explicit time the repetition reads its own clock: once the event
      is stored it succeeds exactly when both calls read the same time. It
      changes nothing either way. */
  lemma ZeroTimeRepeatIff(c: Config, b: Box, t: Terminal, clock: Time, clock': Time, dr: Draws, de: Draws)
    requires t.occurredAt == ZERO_TIME && Compose(t, clock).Some? && Complete(b, Compose(t, clock).value)
    ensures PublishedTerminal(c, b, t, clock', dr, de) == Published(b, clock' == clock)
  {
    hide StoreReport, StoreEvent, StableReportID, StableEventID, ValidToken, ValidEvidence;
    if clock' != ZERO_TIME {
      var x, x' := Compose(t, clock).value, Compose(t, clock').value;
      assert x'.report == x.report && x'.event == x.event.(occurredAt := clock');
    }
  }

  /* ---- Two inputs on which the documented behaviour fails ---- */

  const AT: Time := (W.EPOCH + 1) * SECOND
  const CONFIG := Config(Limits(2, 1, MILLISECOND, MILLISECOND, {"d"}), "d", SECOND, "d", SECOND)
  const TIMED := Terminal("i", Closed, "k", AT, [], None, true, "", true)
  const UNTIMED := TIMED.(occurredAt := ZERO_TIME)
  const FIRST := Draws(AT, "a", "a")
  const NEXT := Draws(AT, "b", "b")

  lemma ConcreteInputs()
    ensures ValidConfig(CONFIG) && BoxOK(CONFIG, EMPTY)
    ensures ValidToken("d", MAX_DESTINATION) && ValidToken("a", MAX_REF) && ValidToken("b", MAX_REF)
    ensures W.ValidMessageID("a") && W.ValidMessageID("b") && W.Unix(AT) >= 0
    ensures Compose(TIMED, ZERO_TIME).Some? && Compose(UNTIMED, AT) == Compose(TIMED, ZERO_TIME)
  {
    InitInv(CONFIG);
    assert ValidToken("i", MAX_ID) && ValidToken("k", MAX_ID);
    hide ValidToken;
  }

  /** The report of the concrete input goes into an empty store. */
  lemma ReportGoesIn() returns (b: Box)
    ensures var x := Compose(TIMED, ZERO_TIME).value;
            && StoreReport(CONFIG, EMPTY, x.report, AT, FIRST) == Ok(b) && BoxOK(CONFIG, b)
            && ReportKept(b, Some(x.report)) && b.events == map[]
            && b.queue.Keys == {"a"} && b.queue["a"].webhookID == "a"
  {
    ConcreteInputs();
    ComposedRefs(TIMED, ZERO_TIME);
    var x := Compose(TIMED, ZERO_TIME).value;
    hide Compose, ValidToken, W.ValidMessageID, W.Unix, Exact, Audited;
    assert WaitingIDs(EMPTY.queue) == {};
    assert CanQueue(CONFIG.limits, EMPTY.queue, Request(ReportPayload, x.report.id, "d", AT + SECOND), FIRST);
    ReportStoredIff(CONFIG, EMPTY, x.report, AT, FIRST);
    b := StoreReport(CONFIG, EMPTY, x.report, AT, FIRST).value;
    hide QueueOK, CanQueue;
    StoreReportOK(CONFIG, EMPTY, x.report, AT, FIRST);
  }

  /** A call stops after storing its report; from one second after the incident on,
      no retry ever completes the lifecycle event. */
  lemma {:induction false} MissedForGood(retries: seq<Retry>)
    requires forall i :: 0 <= i < |retries| ==> retries[i].event.now >= AT + SECOND
    ensures var x := Compose(TIMED, ZERO_TIME).value;
            var stored := StoreReport(CONFIG, EMPTY, x.report, AT, FIRST);
            stored.Ok? && Retried(CONFIG, stored.value, TIMED, retries) == Published(stored.value, false)
  {
    var b := ReportGoesIn();
    ConcreteInputs();
    hide Compose, Retried, StoreReport, BoxOK, ValidToken, W.ValidMessageID, W.Unix;
    NeverCompleted(CONFIG, b, TIMED, ZERO_TIME, retries);
  }

  /** Without a time of its own the input publishes once; repeated a nanosecond
      later it is refused, although nothing is missing. */
  lemma RepeatedLaterFails()
    ensures var p := PublishedTerminal(CONFIG, EMPTY, UNTIMED, AT, FIRST, NEXT);
            p.ok && PublishedTerminal(CONFIG, p.box, UNTIMED, AT + 1, FIRST, NEXT) == Published(p.box, false)
  {
    var b := ReportGoesIn();
    ConcreteInputs();
    ComposedTime(TIMED, ZERO_TIME);
    ComposedRefs(TIMED, ZERO_TIME);
    var x := Compose(TIMED, ZERO_TIME).value;
    hide Compose, StoreReport, StoreEvent, ValidToken, W.ValidMessageID, W.Unix, Exact, Audited, QueueOK;
    OneWaiting(b.queue);
    assert CanQueue(CONFIG.limits, b.queue, EventRequest(CONFIG, x.event), NEXT);
    EventStoredIff(CONFIG, b, x.event, NEXT);
    var p := PublishedTerminal(CONFIG, EMPTY, UNTIMED, AT, FIRST, NEXT);
    assert p.ok;
    SuccessIsOnceEach(CONFIG, EMPTY, UNTIMED, AT, FIRST, NEXT);
    ZeroTimeRepeatIff(CONFIG, p.box, UNTIMED, AT, AT + 1, FIRST, NEXT);
  }

  lemma OneWaiting(queue: Queue)
    requires queue.Keys == {"a"}
    ensures |WaitingIDs(queue)| <= 1
  {
    J.SubsetSize(WaitingIDs(queue), {"a"});
  }

  /* ---- The call is its own uninterrupted schedule ---- */

  lemma NotStoredTwice(c: Config, b: Box, e: Event, d: Draws)
    requires e.id !in b.events
    ensures StoreEvent(c, b, e, d) != Err(AlreadyStored)
  {
    hide NewItem, Accepted;
  }

  lemma ReportNotStoredTwice(c: Config, b: Box, r: Report, at: Time, d: Draws)
    requires r.id !in b.reports
    ensures StoreReport(c, b, r, at, d) != Err(AlreadyStored)
  {
    hide NewItem, Accepted;
  }

  /** Loading and storing an event, when nothing else moves. */
  lemma EventSteps(c: Config, s: State, id: nat, e: Event, paired: Option<Report>, d: Draws)
    requires id in s.calls && s.calls[id] == LoadingEvent(e, paired)
    ensures var p := PublishedEvent(c, s.box, e, d);
            Step(c, Step(c, s, Load(id)), Enqueue(id, d)) ==
            s.(box := p.box, calls := s.calls - {id}, done := if p.ok then s.done + [Done(e, paired)] else s.done)
  {
    hide StoreEvent, StoreReport, Compose, ValidEvent, Listed;
    if e.id !in s.box.events {
      NotStoredTwice(c, s.box, e, d);
      assert s.calls[id := StoringEvent(e, paired)] - {id} == s.calls - {id};
    }
  }

  /** Loading and storing a report: the call goes on to its event or ends. */
  lemma ReportSteps(c: Config, s: State, id: nat, r: Report, e: Event, d: Draws)
    requires id in s.calls && s.calls[id] == LoadingReport(r, e)
    ensures var s' := Step(c, Step(c, s, Load(id)), Enqueue(id, d));
            if r.id in s.box.reports then
              s' == if s.box.reports[r.id] == r then s.(calls := s.calls[id := LoadingEvent(e, Some(r))])
                    else s.(calls := s.calls - {id})
            else match StoreReport(c, s.box, r, e.occurredAt, d)
              case Ok(b) => s' == s.(box := b, calls := s.calls[id := LoadingEvent(e, Some(r))])
              case Err(_) => s' == s.(calls := s.calls - {id})
  {
    hide StoreEvent, StoreReport, Compose, ValidEvent, Listed;
    if r.id !in s.box.reports {
      ReportNotStoredTwice(c, s.box, r, e.occurredAt, d);
      assert s.calls[id := StoringReport(r, e)] - {id} == s.calls - {id};
      assert s.calls[id := StoringReport(r, e)][id := LoadingEvent(e, Some(r))] ==
          s.calls[id := LoadingEvent(e, Some(r))];
    }
  }

  ghost function Uninterrupted(c: Config, s: State, id: nat, t: Terminal, clock: Time, dr: Draws, de: Draws): State {
    var s1 := Step(c, s, PublishTerminal(id, t, clock));
    var s2 := Step(c, Step(c, s1, Load(id)), Enqueue(id, dr));
    Step(c, Step(c, s2, Load(id)), Enqueue(id, de))
  }

  /** `PublishTerminal` does what its schedule does when nothing else moves, and
      reports success exactly when the schedule completes. */
  lemma PublishIsRun(c: Config, s: State, id: nat, t: Terminal, clock: Time, dr: Draws, de: Draws)
    requires id !in s.calls
    ensures var p, s' := PublishedTerminal(c, s.box, t, clock, dr, de), Uninterrupted(c, s, id, t, clock, dr, de);
            && s'.box == p.box && s'.calls == s.calls && s'.round == s.round
            && (p.ok <==> s'.done != s.done)
  {
    hide StoreEvent, StoreReport, Compose, ValidEvent, Listed, PublishedEvent;
    if Compose(t, clock).Some? {
      var x := Compose(t, clock).value;
      var s1 := Step(c, s, PublishTerminal(id, t, clock));
      assert s1 == s.(calls := s.calls[id := LoadingReport(x.report, x.event)]);
      ReportSteps(c, s1, id, x.report, x.event, dr);
      var s2 := Step(c, Step(c, s1, Load(id)), Enqueue(id, dr));
      assert s1.calls - {id} == s.calls;
      if id in s2.calls {
        EventSteps(c, s2, id, x.event, Some(x.report), de);
        assert s2.calls - {id} == s.calls;
      }
    }
  }
}
