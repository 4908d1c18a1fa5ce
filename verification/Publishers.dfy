/** The lifecycle and report publishers: payloads, their stable identities, and the
    transactions that store a payload together with its queue item. */
module Publishers {
  import opened Text
  import opened Contract
  import opened Delivery
  import Audit

  const MAX_REASON: nat := 96
  const MAX_EVIDENCE: nat := 64

  datatype EventType =
    | IncidentConfirmed
    | AnalysisUnavailable
    | PolicyDenied
    | ApprovalRequested
    | RecoveryStarted
    | IncidentClosed
    | IncidentFailedEvent

  function TypeName(t: EventType): string {
    match t
    case IncidentConfirmed => "incident.confirmed"
    case AnalysisUnavailable => "analysis.unavailable"
    case PolicyDenied => "policy.denied"
    case ApprovalRequested => "approval.requested"
    case RecoveryStarted => "recovery.started"
    case IncidentClosed => "incident.closed"
    case IncidentFailedEvent => "incident.failed"
  }

  datatype Event = Event(
    id: Ref, eventType: EventType, incidentID: string, occurredAt: Time, reason: string, evidence: seq<string>)

  /** Everything a report says beyond its identity and evidence is one text. */
  datatype Report = Report(id: Ref, incidentID: string, evidence: seq<string>, content: string)

  predicate ValidReason(value: string) {
    0 < |value| <= MAX_REASON
    && forall i :: 0 <= i < |value| ==> 'a' <= value[i] <= 'z' || IsDigit(value[i]) || value[i] in "_-."
  }

  predicate ValidEvidence(refs: seq<string>) {
    && |refs| <= MAX_EVIDENCE
    && (forall i :: 0 <= i < |refs| ==> ValidToken(refs[i], MAX_ID))
    && Distinct(refs)
  }

  predicate ValidEvent(e: Event) {
    && ValidRef(e.id, MAX_ID)
    && ValidToken(e.incidentID, MAX_ID)
    && ValidReason(e.reason)
    && e.occurredAt != ZERO_TIME
    && ValidEvidence(e.evidence)
  }

  /* ---- Stable identities ---- */

  function Identity(kind: string, incidentID: string, key: string): string {
    kind + "\0" + incidentID + "\0" + key
  }

  function StableEventID(t: EventType, incidentID: string, key: string): Ref {
    Digested("lifecycle-", Identity(TypeName(t), incidentID, key))
  }

  function StateName(s: IncidentState): string {
    match s
    case Open => "open"
    case Analyzing => "analyzing"
    case AwaitingApproval => "awaiting_approval"
    case Recovering => "recovering"
    case IncidentStabilizing => "stabilizing"
    case Closed => "closed"
    case IncidentFailed => "failed"
  }

  function StableReportID(incidentID: string, s: IncidentState, key: string): Ref {
    Digested("report-", Identity(StateName(s), incidentID, key))
  }

  lemma IdentityInjective(k: string, i: string, x: string, k': string, i': string, x': string)
    requires NulFree(k) && NulFree(k') && NulFree(i) && NulFree(i')
    ensures Identity(k, i, x) == Identity(k', i', x') <==> k == k' && i == i' && x == x'
  {
    if Identity(k, i, x) == Identity(k', i', x') {
      assert Identity(k, i, x) == k + "\0" + (i + "\0" + x);
      assert Identity(k', i', x') == k' + "\0" + (i' + "\0" + x');
      FirstNul(k, i + "\0" + x, k', i' + "\0" + x');
      FirstNul(i, x, i', x');
    }
  }

  lemma TypeNames(t: EventType, u: EventType)
    ensures NulFree(TypeName(t)) && (TypeName(t) == TypeName(u) ==> t == u)
  {
  }

  lemma StateNames(s: IncidentState, u: IncidentState)
    ensures NulFree(StateName(s)) && (StateName(s) == StateName(u) ==> s == u)
  {
  }

  /** Events share an ID exactly when they agree on type, incident and key,
      whatever the key contains. */
  lemma StableEventIDInjective(t: EventType, i: string, x: string, t': EventType, i': string, x': string)
    requires ValidToken(i, MAX_ID) && ValidToken(i', MAX_ID)
    ensures StableEventID(t, i, x) == StableEventID(t', i', x') <==> t == t' && i == i' && x == x'
  {
    TypeNames(t, t');
    TypeNames(t', t);
    hide TypeName;
    IdentityInjective(TypeName(t), i, x, TypeName(t'), i', x');
  }

  lemma StableReportIDInjective(i: string, s: IncidentState, x: string, i': string, s': IncidentState, x': string)
    requires ValidToken(i, MAX_ID) && ValidToken(i', MAX_ID)
    ensures StableReportID(i, s, x) == StableReportID(i', s', x') <==> s == s' && i == i' && x == x'
  {
    StateNames(s, s');
    StateNames(s', s);
    hide StateName;
    IdentityInjective(StateName(s), i, x, StateName(s'), i', x');
  }

  /* ---- The shared store ---- */

  datatype Box = Box(queue: Queue, audit: Audit.Bucket, events: map<Ref, Event>, reports: map<Ref, Report>)

  const EMPTY := Box(map[], map[], map[], map[])

  datatype Config = Config(
    limits: Limits, eventDestination: string, eventTTL: int, reportDestination: string, reportTTL: int)

  predicate ValidConfig(c: Config) {
    && ValidLimits(c.limits)
    && SECOND <= c.eventTTL <= 30 * 24 * 3600 * SECOND
    && SECOND <= c.reportTTL <= 30 * 24 * 3600 * SECOND
  }

  datatype Refusal = AlreadyStored | NotQueued

  /** Payload and queue item commit together or not at all. */
  function StoreEvent(c: Config, b: Box, e: Event, d: Draws): Result<Box, Refusal> {
    match NewItem(c.limits, Request(LifecyclePayload, e.id, c.eventDestination, e.occurredAt + c.eventTTL), d)
    case None => Err(NotQueued)
    case Some(item) =>
      if e.id in b.events then Err(AlreadyStored)
      else match Accepted(c.limits, b.queue, item)
        case Err(_) => Err(NotQueued)
        case Ok(queue) => Ok(b.(queue := queue, events := b.events[e.id := e]))
  }

  function StoreReport(c: Config, b: Box, r: Report, occurredAt: Time, d: Draws): Result<Box, Refusal> {
    match NewItem(c.limits, Request(ReportPayload, r.id, c.reportDestination, occurredAt + c.reportTTL), d)
    case None => Err(NotQueued)
    case Some(item) =>
      if r.id in b.reports then Err(AlreadyStored)
      else match Accepted(c.limits, b.queue, item)
        case Err(_) => Err(NotQueued)
        case Ok(queue) => Ok(b.(queue := queue, reports := b.reports[r.id := r]))
  }

  /** An event is stored exactly when it is new and its item can be queued, for the
      event destination and until its time to live is over. */
  lemma EventStoredIff(c: Config, b: Box, e: Event, d: Draws)
    ensures var q := Request(LifecyclePayload, e.id, c.eventDestination, e.occurredAt + c.eventTTL);
            && (StoreEvent(c, b, e, d).Ok? <==> e.id !in b.events && CanQueue(c.limits, b.queue, q, d))
            && (StoreEvent(c, b, e, d).Ok? ==>
                  StoreEvent(c, b, e, d).value ==
                  b.(events := b.events[e.id := e],
                     queue := b.queue[d.deliveryID := Item(d.deliveryID, LifecyclePayload, e.id, d.webhookID,
                                                           c.eventDestination, 0, d.now, e.occurredAt + c.eventTTL,
                                                           Waiting)]))
  {
    hide NewItem, Accepted, CanQueue;
    QueuedIff(c.limits, b.queue, Request(LifecyclePayload, e.id, c.eventDestination, e.occurredAt + c.eventTTL), d);
  }

  lemma ReportStoredIff(c: Config, b: Box, r: Report, at: Time, d: Draws)
    ensures var q := Request(ReportPayload, r.id, c.reportDestination, at + c.reportTTL);
            && (StoreReport(c, b, r, at, d).Ok? <==> r.id !in b.reports && CanQueue(c.limits, b.queue, q, d))
            && (StoreReport(c, b, r, at, d).Ok? ==>
                  StoreReport(c, b, r, at, d).value ==
                  b.(reports := b.reports[r.id := r],
                     queue := b.queue[d.deliveryID := Item(d.deliveryID, ReportPayload, r.id, d.webhookID,
                                                           c.reportDestination, 0, d.now, at + c.reportTTL, Waiting)]))
  {
    hide NewItem, Accepted, CanQueue;
    QueuedIff(c.limits, b.queue, Request(ReportPayload, r.id, c.reportDestination, at + c.reportTTL), d);
  }

  /* ---- Terminal publications ---- */

  /** `valid` stands for the checks on the analysis' own texts. */
  datatype Analysis = Analysis(incidentID: string, evidence: seq<string>, valid: bool)

  /** `content` and `composable` stand for the report texts and their checks. */
  datatype Terminal = Terminal(
    incidentID: string, state: IncidentState, key: string, occurredAt: Time, evidence: seq<string>,
    analysis: Option<Analysis>, analysisUnavailable: bool, content: string, composable: bool)

  datatype Composed = Composed(report: Report, event: Event)

  /** The references followed by the new ones among `more`. */
  function Merged(refs: seq<string>, more: seq<string>): seq<string> {
    if more == [] then refs
    else
      var merged, last := Merged(refs, more[..|more| - 1]), more[|more| - 1];
      if last in merged then merged else merged + [last]
  }

  /** Nothing is lost, added or repeated, and the given references come first. */
  lemma {:induction false} MergedIs(refs: seq<string>, more: seq<string>)
    ensures refs <= Merged(refs, more)
    ensures forall x :: x in Merged(refs, more) <==> x in refs || x in more
    ensures Distinct(refs) ==> Distinct(Merged(refs, more))
  {
    if more != [] {
      var init := more[..|more| - 1];
      MergedIs(refs, init);
      assert more == init + [more[|more| - 1]];
    }
  }

  /** The evidence of a report: the input's and the analysis'. There is an analysis of
      this incident, or it is said to be unavailable, never both. */
  function Gathered(t: Terminal): Option<seq<string>> {
    match t.analysis
    case None => if t.analysisUnavailable then Some(t.evidence) else None
    case Some(a) =>
      if t.analysisUnavailable || !a.valid || a.incidentID != t.incidentID || !ValidEvidence(a.evidence)
        || !ValidEvidence(Merged(t.evidence, a.evidence)) then None
      else Some(Merged(t.evidence, a.evidence))
  }

  method GatherEvidence(t: Terminal) returns (r: Option<seq<string>>)
    ensures r == Gathered(t)
  {
    hide ValidEvidence;
    if t.analysis == None {
      if !t.analysisUnavailable {
        return None;
      }
      return Some(t.evidence);
    }
    var a := t.analysis.value;
    if t.analysisUnavailable || !a.valid || a.incidentID != t.incidentID || !ValidEvidence(a.evidence) {
      return None;
    }
    var refs := t.evidence;
    for i := 0 to |a.evidence|
      invariant refs == Merged(t.evidence, a.evidence[..i])
    {
      assert a.evidence[..i + 1][..i] == a.evidence[..i];
      if a.evidence[i] !in refs {
        refs := refs + [a.evidence[i]];
      }
    }
    assert a.evidence[..|a.evidence|] == a.evidence;
    if !ValidEvidence(refs) {
      return None;
    }
    r := Some(refs);
  }

  /** The report and its lifecycle event; the clock is read only for an input
      without a time. */
  function Compose(t: Terminal, clock: Time): Option<Composed> {
    var occurredAt := if t.occurredAt == ZERO_TIME then clock else t.occurredAt;
    if !ValidToken(t.incidentID, MAX_ID) || !ValidToken(t.key, MAX_ID) || !TerminalIncident(t.state)
      || occurredAt == ZERO_TIME || !ValidEvidence(t.evidence) || !t.composable || Gathered(t) == None then None
    else
      var eventType := if t.state == IncidentFailed then IncidentFailedEvent else IncidentClosed;
      var reason := if t.state == IncidentFailed then "terminal_failed" else "terminal_closed";
      var evidence := Gathered(t).value;
      Some(Composed(
        Report(StableReportID(t.incidentID, t.state, t.key), t.incidentID, evidence, t.content),
        Event(StableEventID(eventType, t.incidentID, t.key), eventType, t.incidentID, occurredAt, reason, evidence)))
  }

  /** A closed incident is announced as closed and a failed one as failed, with the
      reason to match, at the input's time or, failing that, the clock's; report and
      event carry the same incident and the same evidence, all of it and no other. */
  lemma ComposedIs(t: Terminal, clock: Time)
    requires Compose(t, clock).Some?
    ensures var report, event := Compose(t, clock).value.report, Compose(t, clock).value.event;
            && (t.state == Closed || t.state == IncidentFailed)
            && (t.state == Closed ==>
                && event.eventType == IncidentClosed && event.reason == "terminal_closed"
                && event.id == Digested("lifecycle-", "incident.closed" + "\0" + t.incidentID + "\0" + t.key)
                && report.id == Digested("report-", "closed" + "\0" + t.incidentID + "\0" + t.key))
            && (t.state == IncidentFailed ==>
                && event.eventType == IncidentFailedEvent && event.reason == "terminal_failed"
                && event.id == Digested("lifecycle-", "incident.failed" + "\0" + t.incidentID + "\0" + t.key)
                && report.id == Digested("report-", "failed" + "\0" + t.incidentID + "\0" + t.key))
            && event.occurredAt == (if t.occurredAt != ZERO_TIME then t.occurredAt else clock)
            && event.incidentID == report.incidentID == t.incidentID && report.content == t.content
            && event.evidence == report.evidence && t.evidence <= report.evidence && Distinct(report.evidence)
            && (forall x :: x in report.evidence <==>
                  x in t.evidence || (t.analysis.Some? && x in t.analysis.value.evidence))
  {
    hide ValidToken, Merged;
    if t.analysis.Some? { MergedIs(t.evidence, t.analysis.value.evidence); }
  }

  /** Something is composed exactly when incident and key are named, the state is
      terminal, a time is known, the texts pass, the evidence is in order, and there
      is either an analysis of this very incident or word that there is none. */
  lemma ComposedIff(t: Terminal, clock: Time)
    ensures Compose(t, clock).Some? <==>
            && ValidToken(t.incidentID, MAX_ID) && ValidToken(t.key, MAX_ID)
            && (t.state == Closed || t.state == IncidentFailed)
            && (t.occurredAt != ZERO_TIME || clock != ZERO_TIME)
            && t.composable && ValidEvidence(t.evidence)
            && (t.analysis.None? <==> t.analysisUnavailable)
            && (t.analysis.Some? ==>
                && t.analysis.value.valid && t.analysis.value.incidentID == t.incidentID
                && ValidEvidence(t.analysis.value.evidence)
                && ValidEvidence(Merged(t.evidence, t.analysis.value.evidence)))
  {
    hide ValidToken, ValidEvidence;
  }
}
