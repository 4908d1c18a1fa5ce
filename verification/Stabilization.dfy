/** The post-recovery verifier: one health sample judged, the command finalized in
    the journal first and the result persisted second. */
module Stabilization {
  import opened Text
  import opened Contract
  import P = Policy
  import J = Journal

  const MAX_SAMPLES: nat := 256

  /* ---- Health samples ---- */

  datatype Metric = Finite(value: real) | NotFinite

  datatype Sample = Sample(healthy: bool, metrics: map<string, Metric>)

  datatype ProbeError = DockerDown | DeadlineExceeded | OtherProbeError

  datatype Reading = Observed(sample: Sample) | Unreadable(error: ProbeError)

  predicate ValidSample(s: Sample) {
    forall name :: name in s.metrics ==> s.metrics[name].Finite?
  }

  const AVAILABILITY: string := "availability"

  /** Availability must not fall below its threshold; any other signal must not
      rise above it. */
  predicate MeetsRule(metrics: map<string, Metric>, rule: ProbeRule) {
    && rule.signalType in metrics
    && metrics[rule.signalType].Finite?
    && (if rule.signalType == AVAILABILITY then metrics[rule.signalType].value >= rule.threshold
        else metrics[rule.signalType].value <= rule.threshold)
  }

  predicate MeetsRules(metrics: map<string, Metric>, rules: seq<ProbeRule>) {
    forall rule :: rule in rules ==> MeetsRule(metrics, rule)
  }

  method CheckSample(sample: Sample) returns (ok: bool)
    ensures ok <==> ValidSample(sample)
  {
    var rest := sample.metrics.Keys;
    while rest != {}
      invariant rest <= sample.metrics.Keys
      invariant forall name :: name in sample.metrics && name !in rest ==> sample.metrics[name].Finite?
      decreases |rest|
    {
      var name :| name in rest;
      if sample.metrics[name].NotFinite? {
        return false;
      }
      rest := rest - {name};
    }
    ok := true;
  }

  method CheckRules(sample: Sample, rules: seq<ProbeRule>) returns (ok: bool)
    requires ValidSample(sample)
    ensures ok <==> MeetsRules(sample.metrics, rules)
  {
    for i := 0 to |rules|
      invariant forall k :: 0 <= k < i ==> MeetsRule(sample.metrics, rules[k])
    {
      var rule := rules[i];
      assert rule in rules;
      if rule.signalType !in sample.metrics {
        return false;
      }
      var value := sample.metrics[rule.signalType].value;
      if rule.signalType == AVAILABILITY {
        if value < rule.threshold {
          return false;
        }
        continue;
      }
      if value > rule.threshold {
        return false;
      }
    }
    ok := true;
  }

  /* ---- Requests and durable results ---- */

  datatype Request = Request(
    command: RecoveryCommand, target: ServiceTarget, samples: int, window: int, maxAttempts: int, attempt: int)

  datatype RetryState = RetryState(target: ServiceTarget, snapshot: P.Snapshot, input: P.Input)

  datatype Outcome = StillPending | Passed | RetryScheduled | GaveUp | OtherOutcome

  datatype FailureReason =
    NoFailure | Unhealthy | Flapping | Timeout | MetricRegression | DockerUnavailable | ProbeFailed | OtherFailure

  datatype Record = Record(
    schema: Schema, commandID: string, executionSucceeded: bool, attempt: int, startedAt: Time,
    healthySamples: int, outcome: Outcome, failure: FailureReason, retryReason: P.Reason, nextAttempt: int)

  predicate ValidRequest(q: Request) {
    && ValidCommand(q.command)
    && q.command.state == Stabilizing
    && q.target.schema == V1
    && q.target.enabled
    && q.target.targetID == q.command.targetID
    && 1 <= q.samples <= MAX_SAMPLES
    && q.window > 0
    && q.maxAttempts >= 1
    && 0 <= q.attempt < q.maxAttempts
  }

  predicate ValidResult(r: Record) {
    && r.schema == V1
    && r.commandID != ""
    && r.executionSucceeded
    && r.attempt >= 0
    && r.startedAt != ZERO_TIME
    && 0 <= r.healthySamples <= MAX_SAMPLES
    && r.nextAttempt >= -1
    && match r.outcome
       case StillPending => r.failure == NoFailure && r.retryReason == P.NoReason && r.nextAttempt == -1
       case Passed => r.failure == NoFailure && r.retryReason == P.NoReason && r.nextAttempt == -1
       case RetryScheduled =>
         r.failure != NoFailure && r.failure != OtherFailure && r.retryReason == P.Allowed
             && r.nextAttempt == r.attempt + 1
       case GaveUp => r.failure != NoFailure && r.failure != OtherFailure && r.nextAttempt == -1
       case OtherOutcome => false
  }

  /** The hashed identity of a result key, with the hash idealised as injective. */
  function ResultKey(commandID: string, attempt: int): string {
    commandID + ['\0'] + J.Itoa(attempt)
  }

  lemma LastNul(a: string, x: string)
    requires NulFree(x)
    ensures forall i :: |a| < i < |a + ['\0'] + x| ==> (a + ['\0'] + x)[i] != '\0'
  {
    var s := a + ['\0'] + x;
    forall i | |a| < i < |s| ensures s[i] != '\0' {
      assert s[i] == x[i - |a| - 1];
    }
  }

  lemma SuffixDecides(a: string, b: string, x: string, y: string)
    requires NulFree(x) && NulFree(y) && a + ['\0'] + x == b + ['\0'] + y
    ensures a == b && x == y
  {
    var s := a + ['\0'] + x;
    LastNul(a, x);
    LastNul(b, y);
    assert s[|a|] == '\0' && s[|b|] == '\0';
    assert |a| == |b|;
    assert a == s[..|a|] && b == s[..|b|];
    assert x == s[|a| + 1..] && y == s[|b| + 1..];
  }

  /** Results of different commands or attempts never share a key. */
  lemma ResultKeyInjective(c: string, m: nat, d: string, n: nat)
    ensures ResultKey(c, m) == ResultKey(d, n) <==> c == d && m == n
  {
    if ResultKey(c, m) == ResultKey(d, n) {
      FormatNulFree(m);
      FormatNulFree(n);
      SuffixDecides(c, d, Format(m), Format(n));
      FormatInjective(m, n);
    }
  }

  /* ---- One judgement ---- */

  function Fresh(q: Request, now: Time): Record {
    Record(V1, q.command.commandID, true, q.attempt, now, 0, StillPending, NoFailure, P.NoReason, -1)
  }

  function Deadline(q: Request, r: Record): Time {
    r.startedAt + q.window
  }

  function ProbeFailure(e: ProbeError): FailureReason {
    match e
    case DockerDown => DockerUnavailable
    case DeadlineExceeded => Timeout
    case OtherProbeError => ProbeFailed
  }

  /** Why this reading fails the attempt; `NoFailure` when it does not. */
  function Fault(q: Request, r: Record, now: Time, reading: Reading): FailureReason {
    if now > Deadline(q, r) then Timeout
    else match reading
      case Unreadable(e) => ProbeFailure(e)
      case Observed(s) =>
        if !ValidSample(s) then ProbeFailed
        else if !s.healthy then (if r.healthySamples > 0 then Flapping else Unhealthy)
        else if !MeetsRules(s.metrics, q.target.probeRules) then MetricRegression
        else NoFailure
  }

  predicate SameTarget(a: ServiceTarget, b: ServiceTarget) {
    a.schema == b.schema && a.targetID == b.targetID && a.adapterType == b.adapterType
    && a.selector == b.selector && a.enabled == b.enabled
  }

  function RetryInput(q: Request, input: P.Input, now: Time): P.Input {
    input.(commandID := q.command.commandID, runbookDigest := q.command.runbookDigest, now := now,
           attemptCount := if input.attemptCount >= q.attempt + 1 then input.attemptCount else q.attempt + 1)
  }

  predicate SameRetry(q: Request, s: RetryState) {
    && s.input.runbookID == q.command.runbookID
    && s.input.targetID == q.command.targetID
    && s.input.actionIndex == q.command.actionIndex
    && SameTarget(s.target, q.target)
  }

  function RetryDecision(q: Request, s: RetryState, now: Time): P.Decision {
    if !SameRetry(q, s) then P.Denied(P.InvalidPolicy) else P.Evaluate(s.snapshot, RetryInput(q, s.input, now))
  }

  /** The record of a failed attempt; `None` for `retry` is a state that could
      not be loaded. */
  function FailedRecord(q: Request, r: Record, now: Time, failure: FailureReason, retry: Option<RetryState>): Record {
    var failed := r.(failure := failure, healthySamples := 0, nextAttempt := -1);
    if q.attempt + 1 >= q.maxAttempts then failed.(outcome := GaveUp, retryReason := P.RetryExhausted)
    else match retry
      case None => failed.(outcome := GaveUp, retryReason := P.InvalidPolicy)
      case Some(state) =>
        var decision := RetryDecision(q, state, now);
        if decision.verdict == P.Allow then
          failed.(outcome := RetryScheduled, retryReason := decision.reason, nextAttempt := q.attempt + 1)
        else failed.(outcome := GaveUp, retryReason := decision.reason)
  }

  function Judged(q: Request, r: Record, now: Time, reading: Reading, retry: Option<RetryState>): Record {
    var fault := Fault(q, r, now, reading);
    if fault != NoFailure then FailedRecord(q, r, now, fault, retry)
    else
      var counted := r.(healthySamples := r.healthySamples + 1);
      if counted.healthySamples >= q.samples && now >= Deadline(q, r) then counted.(outcome := Passed) else counted
  }

  /** What the journal is told before a record is persisted; nothing while the
      attempt is pending. */
  function Verdict(r: Record): Option<bool> {
    match r.outcome
    case Passed => Some(true)
    case RetryScheduled => Some(false)
    case GaveUp => Some(false)
    case _ => None
  }

  /** The record an attempt is at: pending, and about this command and attempt. */
  predicate Undecided(q: Request, r: Record) {
    ValidResult(r) && r.outcome == StillPending && r.commandID == q.command.commandID && r.attempt == q.attempt
  }

  /** A command passes exactly when a healthy reading that meets every rule and
      completes the required run arrives at the very end of the window. The
      code treats anything later as a timeout, so "the full window passes" has a
      single instant in which success is possible. */
  lemma PassesIff(q: Request, r: Record, now: Time, reading: Reading, retry: Option<RetryState>)
    requires Undecided(q, r)
    ensures Judged(q, r, now, reading, retry).outcome == Passed <==>
            && now == r.startedAt + q.window
            && r.healthySamples + 1 >= q.samples
            && reading.Observed? && ValidSample(reading.sample) && reading.sample.healthy
            && MeetsRules(reading.sample.metrics, q.target.probeRules)
  {
    hide ValidSample, MeetsRules, P.Evaluate, ValidResult;
  }

  /* ---- Healthy readings ---- */

  predicate HealthyReading(q: Request, reading: Reading) {
    reading.Observed? && ValidSample(reading.sample) && reading.sample.healthy
    && MeetsRules(reading.sample.metrics, q.target.probeRules)
  }

  /** A healthy reading in time is what an attempt goes on with. */
  predicate Healthy(q: Request, r: Record, now: Time, reading: Reading) {
    now <= r.startedAt + q.window && HealthyReading(q, reading)
  }

  /** Which failure each reading counts as: a late one or a probe that ran out of
      time is a timeout; a missing daemon and any other unreadable or non-finite
      probe have their own reasons; an unhealthy one is flapping after a healthy
      one; a healthy one that breaks a rule is a regression. */
  lemma FaultIs(q: Request, r: Record, now: Time, reading: Reading)
    ensures var fault, late := Fault(q, r, now, reading), now > r.startedAt + q.window;
            && (fault == NoFailure <==> Healthy(q, r, now, reading))
            && (fault == Timeout <==> late || reading == Unreadable(DeadlineExceeded))
            && (fault == DockerUnavailable <==> !late && reading == Unreadable(DockerDown))
            && (fault == ProbeFailed <==>
                && !late
                && (reading == Unreadable(OtherProbeError) || (reading.Observed? && !ValidSample(reading.sample))))
            && (fault == Flapping <==>
                && !late && reading.Observed? && ValidSample(reading.sample) && !reading.sample.healthy
                && r.healthySamples > 0)
            && (fault == Unhealthy <==>
                && !late && reading.Observed? && ValidSample(reading.sample) && !reading.sample.healthy
                && r.healthySamples <= 0)
            && (fault == MetricRegression <==>
                && !late && reading.Observed? && ValidSample(reading.sample) && reading.sample.healthy
                && exists rule :: rule in q.target.probeRules && !MeetsRule(reading.sample.metrics, rule))
  {
    hide MeetsRule, ValidSample;
  }

  /** The current state still describes the command that failed. */
  predicate SameCommand(q: Request, s: RetryState) {
    && s.input.runbookID == q.command.runbookID
    && s.input.targetID == q.command.targetID
    && s.input.actionIndex == q.command.actionIndex
    && s.target.schema == q.target.schema
    && s.target.targetID == q.target.targetID
    && s.target.adapterType == q.target.adapterType
    && s.target.selector == q.target.selector
    && s.target.enabled == q.target.enabled
  }

  /** A registered runbook under which the command may be tried once more now: it
      has not changed since, its conditions hold, its cooldown is over, and both the
      attempts on record and the one to come stay below its maximum. */
  predicate Permits(p: P.RegisteredRunbook, approvers: seq<string>, q: Request, input: P.Input, now: Time) {
    var runbook := p.runbook;
    && runbook.runbookID == q.command.runbookID
    && runbook.digest == q.command.runbookDigest
    && p.targetID == q.command.targetID
    && 0 <= q.command.actionIndex < |runbook.typedActions|
    && (p.analysisRequired ==> input.analysisAvailable && runbook.runbookID in input.candidates)
    && "" !in runbook.preconditions && Distinct(runbook.preconditions)
    && (forall c :: c in runbook.preconditions ==> c in input.preconditions && input.preconditions[c])
    && (var cooldown := runbook.typedActions[q.command.actionIndex].cooldown;
        && cooldown >= 0
        && (input.lastAttemptAt != ZERO_TIME ==> now != ZERO_TIME && now >= input.lastAttemptAt + cooldown))
    && q.attempt + 1 < runbook.maxAttempts && input.attemptCount < runbook.maxAttempts
    && runbook.recoverySamples >= 1
    && runbook.window > 0
    && match input.approval
       case None => runbook.riskTier == RiskLow && runbook.autoExecute && !runbook.approvalRequired
       case Some(a) =>
         && !input.approvalRevoked && a.approver in approvers
         && a.schema == V1 && a.approvalID != "" && a.decision == Granted && a.commandID == q.command.commandID
         && a.createdAt != ZERO_TIME && a.createdAt < a.expiresAt && a.expiresAt != ZERO_TIME
         && now != ZERO_TIME && now < a.expiresAt
  }

  /** A retry is scheduled exactly when the attempt failed, another one is left, the
      state could be loaded and still describes this command, and a registered
      runbook permits one more attempt. */
  lemma RetryIff(q: Request, r: Record, now: Time, reading: Reading, retry: Option<RetryState>)
    requires Undecided(q, r)
    ensures Judged(q, r, now, reading, retry).outcome == RetryScheduled <==>
            && !Healthy(q, r, now, reading)
            && q.attempt + 1 < q.maxAttempts
            && retry.Some? && SameCommand(q, retry.value) && P.ValidSnapshot(retry.value.snapshot)
            && q.command.runbookID != "" && q.command.runbookDigest != ""
            && q.command.targetID != "" && q.command.commandID != ""
            && exists p :: p in retry.value.snapshot.runbooks
                           && Permits(p, retry.value.snapshot.approvers, q, retry.value.input, now)
  {
    FaultIs(q, r, now, reading);
    if retry.Some? { RetryAllowedIff(q, retry.value, now); }
    hide P.Evaluate, P.ValidSnapshot, Permits, Fault, ValidResult, RetryDecision, SameCommand, Healthy;
    assert 0 <= q.attempt by { assert r.attempt == q.attempt; }
  }

  lemma RetryAllowedIff(q: Request, s: RetryState, now: Time)
    ensures q.attempt >= 0 ==>
              (RetryDecision(q, s, now).verdict == P.Allow <==>
               && SameCommand(q, s) && P.ValidSnapshot(s.snapshot)
               && q.command.runbookID != "" && q.command.runbookDigest != ""
               && q.command.targetID != "" && q.command.commandID != ""
               && exists p :: p in s.snapshot.runbooks && Permits(p, s.snapshot.approvers, q, s.input, now))
  {
    if q.attempt >= 0 {
      var input := RetryInput(q, s.input, now);
      P.EvaluateAllowsIff(s.snapshot, input);
      if SameCommand(q, s) {
        forall p | p in s.snapshot.runbooks
          ensures (&& p.runbook.runbookID == input.runbookID && P.Runnable(p, input)
                   && P.ApprovalSatisfied(p, P.Approvers(s.snapshot), input)) <==>
                  Permits(p, s.snapshot.approvers, q, s.input, now)
        {
          PermitsIff(p, s.snapshot, q, s, now);
        }
      }
      hide P.Evaluate, P.ValidSnapshot, Permits, P.Runnable, P.ApprovalSatisfied;
    }
  }

  lemma PermitsIff(p: P.RegisteredRunbook, snapshot: P.Snapshot, q: Request, s: RetryState, now: Time)
    requires SameCommand(q, s) && q.attempt >= 0
    ensures var input := RetryInput(q, s.input, now);
            (&& p.runbook.runbookID == input.runbookID && P.Runnable(p, input)
             && P.ApprovalSatisfied(p, P.Approvers(snapshot), input)) <==>
            Permits(p, snapshot.approvers, q, s.input, now)
  {
    hide Distinct;
  }

  /** Everything one judgement does to the record. A healthy reading is counted, and
      passes the attempt when it completes the run at the end of the window; any
      other empties the count, and names the failure and why there is, or is not, a
      next attempt. */
  lemma JudgedIs(q: Request, r: Record, now: Time, reading: Reading, retry: Option<RetryState>)
    requires Undecided(q, r)
    ensures var judged := Judged(q, r, now, reading, retry);
            if Healthy(q, r, now, reading) then
              var passed := now == r.startedAt + q.window && r.healthySamples + 1 >= q.samples;
              judged == r.(healthySamples := r.healthySamples + 1, outcome := if passed then Passed else StillPending)
            else
              && judged == r.(healthySamples := 0, failure := Fault(q, r, now, reading), outcome := judged.outcome,
                              retryReason := judged.retryReason, nextAttempt := judged.nextAttempt)
              && (judged.outcome == RetryScheduled || judged.outcome == GaveUp)
              && judged.nextAttempt == (if judged.outcome == RetryScheduled then q.attempt + 1 else -1)
              && judged.retryReason == RetryReason(q, now, retry)
  {
    FaultIs(q, r, now, reading);
    if retry.Some? { RetryReasonIs(q, retry.value, now); }
    hide P.Evaluate, P.ValidSnapshot, Fault, ValidResult, RetryDecision, HealthyReading;
  }

  /** The last attempt is exhausted, a lost or foreign state is invalid, and every
      other reason is the policy's for this command, now, at the next attempt. */
  function RetryReason(q: Request, now: Time, retry: Option<RetryState>): P.Reason {
    if q.attempt + 1 >= q.maxAttempts then P.RetryExhausted
    else if retry == None || !SameCommand(q, retry.value) then P.InvalidPolicy
    else
      var input := retry.value.input;
      var count := if input.attemptCount > q.attempt then input.attemptCount else q.attempt + 1;
      P.Evaluate(retry.value.snapshot,
                 input.(commandID := q.command.commandID, runbookDigest := q.command.runbookDigest, now := now,
                        attemptCount := count)).reason
  }

  lemma RetryReasonIs(q: Request, s: RetryState, now: Time)
    ensures q.attempt + 1 < q.maxAttempts ==> RetryDecision(q, s, now).reason == RetryReason(q, now, Some(s))
  {
    hide P.Evaluate;
  }

  lemma JudgedShape(q: Request, r: Record, now: Time, reading: Reading, retry: Option<RetryState>)
    requires r.outcome == StillPending
    ensures var judged := Judged(q, r, now, reading, retry);
            && (judged.outcome == StillPending || judged.outcome == Passed ==>
                  && HealthyReading(q, reading) && now <= Deadline(q, r)
                  && judged.healthySamples == r.healthySamples + 1 && judged.startedAt == r.startedAt)
            && (judged.outcome == Passed ==> now == Deadline(q, r) && judged.healthySamples >= q.samples)
  {
    hide ValidSample, MeetsRules, RetryDecision;
  }

  function Best(rule: ProbeRule, metrics: map<string, Metric>): real {
    if rule.signalType !in metrics || metrics[rule.signalType].NotFinite? then rule.threshold
    else
      var seen := metrics[rule.signalType].value;
      if (rule.signalType == AVAILABILITY) == (seen >= rule.threshold) then seen else rule.threshold
  }

  /** Values that meet every rule: the highest availability asked for, and the
      lowest bound on any other signal. */
  function HealthyMetrics(rules: seq<ProbeRule>): map<string, Metric> {
    if rules == [] then map[]
    else
      var metrics, last := HealthyMetrics(rules[..|rules| - 1]), rules[|rules| - 1];
      metrics[last.signalType := Finite(Best(last, metrics))]
  }

  lemma {:induction false} HealthyMeets(rules: seq<ProbeRule>)
    ensures MeetsRules(HealthyMetrics(rules), rules) && ValidSample(Sample(true, HealthyMetrics(rules)))
  {
    if rules != [] {
      var init, last := rules[..|rules| - 1], rules[|rules| - 1];
      HealthyMeets(init);
      forall rule | rule in rules ensures MeetsRule(HealthyMetrics(rules), rule) {
        assert rule == last || rule in init;
      }
    }
  }

  function ReadingFor(q: Request): Reading {
    Observed(Sample(true, HealthyMetrics(q.target.probeRules)))
  }

  lemma ReadingForHealthy(q: Request)
    ensures HealthyReading(q, ReadingFor(q))
  {
    HealthyMeets(q.target.probeRules);
    hide HealthyMetrics, MeetsRules, ValidSample;
  }

  /** A healthy reading before the deadline is counted and leaves the attempt
      pending. */
  lemma HealthyCounts(q: Request, r: Record, now: Time, reading: Reading, retry: Option<RetryState>)
    requires HealthyReading(q, reading) && now < Deadline(q, r)
    ensures Judged(q, r, now, reading, retry) == r.(healthySamples := r.healthySamples + 1)
  {
    hide MeetsRules, ValidSample, RetryDecision;
  }

  lemma AllowReason(s: P.Snapshot, input: P.Input)
    ensures P.Evaluate(s, input).verdict == P.Allow ==> P.Evaluate(s, input).reason == P.Allowed
  {
    hide P.ValidSnapshot, P.FindRunbook, P.PreconditionsMet, P.CooldownElapsed, P.NeedsApproval;
  }

  /** The new record can be persisted unless a 257th healthy sample in a row is
      counted: the code bounds the request's samples, not the count. */
  lemma JudgedValidIff(q: Request, r: Record, now: Time, reading: Reading, retry: Option<RetryState>)
    requires ValidRequest(q) && Undecided(q, r)
    ensures ValidResult(Judged(q, r, now, reading, retry)) <==>
            Fault(q, r, now, reading) != NoFailure || r.healthySamples < MAX_SAMPLES
  {
    if retry.Some? {
      AllowReason(retry.value.snapshot, RetryInput(q, retry.value.input, now));
    }
    FaultKnown(q, r, now, reading);
    hide P.Evaluate, Fault, RetryInput, SameRetry, ValidRequest;
    assert 0 <= q.attempt by { assert r.attempt == q.attempt; }
  }

  lemma FaultKnown(q: Request, r: Record, now: Time, reading: Reading)
    ensures Fault(q, r, now, reading) != OtherFailure
  {
  }
}
