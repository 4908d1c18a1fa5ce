/** The probe scheduler: the sliding evaluation of one rule against its whole sample
    history, and concurrent cycles over shared schedule state. */
module Observer {
  import opened Text
  import opened Contract

  const MAX_SAMPLES: nat := 256

  datatype Sample = Sample(at: Time, failed: bool)

  datatype RuleState = RuleState(failures: nat, recoveries: nat, samples: seq<Sample>)

  const NEW := RuleState(0, 0, [])

  datatype Verdict = IsHealthy | IsUnhealthy | Unknown

  /* ---- Evaluation as the code does it ---- */

  /** Leading samples older than the cutoff are dropped. */
  function Trimmed(samples: seq<Sample>, cutoff: Time): seq<Sample> {
    if samples != [] && samples[0].at < cutoff then Trimmed(samples[1..], cutoff) else samples
  }

  function Kept(samples: seq<Sample>, cutoff: Time): seq<Sample> {
    var trimmed := Trimmed(samples, cutoff);
    if |trimmed| > MAX_SAMPLES then trimmed[|trimmed| - MAX_SAMPLES..] else trimmed
  }

  function Reset(s: RuleState, rule: ProbeRule, now: Time): RuleState {
    if s.samples != [] && now - s.samples[|s.samples| - 1].at > rule.sloWindow
        then s.(failures := 0, recoveries := 0) else s
  }

  function Observed(s: RuleState, rule: ProbeRule, now: Time, failed: bool): RuleState {
    var r := Reset(s, rule, now);
    RuleState(
      if failed then r.failures + 1 else 0,
      if failed then 0 else r.recoveries + 1,
      Kept(r.samples + [Sample(now, failed)], now - rule.sloWindow))
  }

  function Judged(s: RuleState, rule: ProbeRule): Verdict {
    if s.failures >= rule.consecutiveFailures then IsUnhealthy
    else if s.recoveries >= rule.recoverySamples then IsHealthy
    else Unknown
  }

  /* ---- Evaluation over the whole history ---- */

  datatype Entry = Entry(rule: ProbeRule, at: Time, failed: bool)

  /** What a registered rule guarantees and the evaluation relies on. */
  predicate ValidRule(r: ProbeRule) {
    r.interval >= SECOND && r.sloWindow >= r.interval && r.consecutiveFailures >= 1 && r.recoverySamples >= 1
  }

  ghost predicate ValidHistory(h: seq<Entry>) {
    forall i :: 0 <= i < |h| ==> ValidRule(h[i].rule)
  }

  /** The length of the last run of equal samples whose gaps stay within the SLO
      window in force at each sample. */
  function TrailingRun(h: seq<Entry>, failed: bool): nat {
    if h == [] || h[|h| - 1].failed != failed then 0
    else if |h| > 1 && h[|h| - 1].at - h[|h| - 2].at <= h[|h| - 1].rule.sloWindow
        then 1 + TrailingRun(h[..|h| - 1], failed)
    else 1
  }

  /** The last `n` samples are all of one kind, with no gap beyond the window. */
  predicate EndsWith(h: seq<Entry>, failed: bool, n: int) {
    && n <= |h|
    && (forall i :: |h| - n <= i < |h| ==> h[i].failed == failed)
    && (forall i :: |h| - n < i < |h| ==> h[i].at - h[i - 1].at <= h[i].rule.sloWindow)
  }

  lemma {:induction false} TrailingRunIff(h: seq<Entry>, failed: bool, n: nat)
    ensures TrailingRun(h, failed) >= n <==> EndsWith(h, failed, n)
  {
    if n > 0 && h != [] {
      var init := h[..|h| - 1];
      TrailingRunIff(init, failed, n - 1);
      if EndsWith(h, failed, n) {
        assert forall i :: |init| - (n - 1) <= i < |init| ==> init[i] == h[i];
      }
      if TrailingRun(h, failed) >= n {
        assert forall i :: |h| - n <= i < |h| - 1 ==> h[i] == init[i];
      }
    }
  }

  /** The state after a history, sample by sample. */
  function Folded(h: seq<Entry>): RuleState {
    if h == [] then NEW
    else
      var last := h[|h| - 1];
      Observed(Folded(h[..|h| - 1]), last.rule, last.at, last.failed)
  }

  lemma {:induction false} TrimmedKeepsLast(samples: seq<Sample>, cutoff: Time)
    requires samples != [] && samples[|samples| - 1].at >= cutoff
    ensures Trimmed(samples, cutoff) != []
        && Trimmed(samples, cutoff)[|Trimmed(samples, cutoff)| - 1] == samples[|samples| - 1]
  {
    if samples[0].at < cutoff {
      TrimmedKeepsLast(samples[1..], cutoff);
    }
  }

  lemma KeptLast(samples: seq<Sample>, cutoff: Time)
    requires samples != [] && samples[|samples| - 1].at >= cutoff
    ensures 0 < |Kept(samples, cutoff)| <= MAX_SAMPLES
    ensures Kept(samples, cutoff)[|Kept(samples, cutoff)| - 1] == samples[|samples| - 1]
  {
    TrimmedKeepsLast(samples, cutoff);
    hide Trimmed;
  }

  /** Trimming and bounding the samples never loses the one that decides whether
      the next gap breaks a run. */
  lemma {:induction false} FoldedAgrees(h: seq<Entry>)
    requires ValidHistory(h)
    ensures var s := Folded(h);
            && s.failures == TrailingRun(h, true)
            && s.recoveries == TrailingRun(h, false)
            && |s.samples| <= MAX_SAMPLES
            && (h != [] ==> s.samples != [] && s.samples[|s.samples| - 1] == Sample(h[|h| - 1].at, h[|h| - 1].failed))
            && (h == [] ==> s.samples == [])
  {
    hide Kept;
    if h != [] {
      var init, last := h[..|h| - 1], h[|h| - 1];
      FoldedAgrees(init);
      var before := Folded(init);
      assert ValidRule(last.rule);
      KeptLast(before.samples + [Sample(last.at, last.failed)], last.at - last.rule.sloWindow);
      OnlyOneRun(init);
    }
  }

  lemma {:induction false} OnlyOneRun(h: seq<Entry>)
    ensures TrailingRun(h, true) == 0 || TrailingRun(h, false) == 0
    ensures h == [] ==> TrailingRun(h, true) == 0 && TrailingRun(h, false) == 0
  {
  }

  /** The verdict on a sample is a statement about the full history: unhealthy
      exactly when the last `consecutiveFailures` samples all failed without a
      gap beyond the window; otherwise healthy exactly when the last
      `recoverySamples` all passed that way. */
  lemma {:induction false} VerdictIff(h: seq<Entry>)
    requires ValidHistory(h) && h != []
    ensures var rule := h[|h| - 1].rule;
            var verdict := Judged(Folded(h), rule);
            && (verdict == IsUnhealthy <==> EndsWith(h, true, rule.consecutiveFailures))
            && (verdict == IsHealthy <==>
                  !EndsWith(h, true, rule.consecutiveFailures) && EndsWith(h, false, rule.recoverySamples))
  {
    var rule := h[|h| - 1].rule;
    assert ValidRule(rule);
    FoldedAgrees(h);
    TrailingRunIff(h, true, rule.consecutiveFailures);
    TrailingRunIff(h, false, rule.recoverySamples);
    hide Folded, EndsWith, TrailingRun;
  }

  /* ---- The schedule ---- */

  function KeyOf(targetID: string, ruleID: string): string {
    targetID + "/" + ruleID
  }

  /** Rules share a schedule key exactly when target and rule read the same joined by
      a slash; registered targets hold none, and then a key is one target and rule. */
  lemma KeysAgreeIff(t: string, r: string, t': string, r': string)
    requires SlashFree(t) && SlashFree(t')
    ensures KeyOf(t, r) == KeyOf(t', r') <==> t == t' && r == r'
  {
    if KeyOf(t, r) == KeyOf(t', r') { FirstSlash(t, r, t', r'); }
  }

  function StateOf(states: map<string, RuleState>, key: string): RuleState {
    if key in states then states[key] else NEW
  }

  predicate IsDue(running: set<string>, lastRun: map<string, Time>, key: string, rule: ProbeRule, now: Time) {
    key !in running && !(key in lastRun && lastRun[key] != ZERO_TIME && now - lastRun[key] < rule.interval)
  }

  /* ---- Concurrent cycles ---- */

  /** A probe between its start and its finish, by the cycle that runs it. */
  datatype Probe = Probe(key: string, rule: ProbeRule, now: Time)

  datatype Reading = Reading(key: string, history: seq<Entry>, verdict: Verdict)

  /** `starts` and `readings` are logs of what has happened; `histories` holds
      every sample evaluated per key. */
  datatype State = State(
    lastRun: map<string, Time>, running: set<string>, states: map<string, RuleState>,
    probes: map<nat, Probe>, starts: seq<Probe>, histories: map<string, seq<Entry>>, readings: seq<Reading>)

  const INIT := State(map[], {}, map[], map[], [], map[], [])

  datatype Label =
    | Start(cycle: nat, key: string, rule: ProbeRule, now: Time)
    | Sampled(cycle: nat, failed: bool)
    | Finished(cycle: nat)

  function HistoryOf(s: State, key: string): seq<Entry> {
    if key in s.histories then s.histories[key] else []
  }

  function Evaluated(s: State, p: Probe, failed: bool): State {
    var h := HistoryOf(s, p.key) + [Entry(p.rule, p.now, failed)];
    var after := Observed(StateOf(s.states, p.key), p.rule, p.now, failed);
    s.(states := s.states[p.key := after], histories := s.histories[p.key := h],
       readings := s.readings + [Reading(p.key, h, Judged(after, p.rule))])
  }

  /** A cycle probes one rule at a time and always finishes what it started. */
  function Step(s: State, l: Label): State {
    match l
    case Start(cycle, key, rule, now) =>
      if cycle in s.probes || now == ZERO_TIME || !ValidRule(rule) || !IsDue(s.running, s.lastRun, key, rule, now)
          then s
      else
        s.(running := s.running + {key}, probes := s.probes[cycle := Probe(key, rule, now)],
           starts := s.starts + [Probe(key, rule, now)])
    case Sampled(cycle, failed) => if cycle in s.probes then Evaluated(s, s.probes[cycle], failed) else s
    case Finished(cycle) =>
      if cycle !in s.probes then s
      else
        var p := s.probes[cycle];
        s.(running := s.running - {p.key}, lastRun := s.lastRun[p.key := p.now], probes := s.probes - {cycle})
  }

  function Run(labels: seq<Label>): State {
    if labels == [] then INIT else Step(Run(labels[..|labels| - 1]), labels[|labels| - 1])
  }

  /* ---- The scheduler in place ---- */

  /** The fields of the scheduler are those of the state. */
  predicate SameBoard(s: State, lastRun: map<string, Time>, running: set<string>, states: map<string, RuleState>) {
    s.lastRun == lastRun && s.running == running && s.states == states
  }

  class Scheduler {
    var lastRun: map<string, Time>
    var running: set<string>
    var states: map<string, RuleState>

    constructor ()
      ensures lastRun == map[] && running == {} && states == map[]
    {
      lastRun, running, states := map[], {}, map[];
    }

    method StartDue(targetID: string, rule: ProbeRule, now: Time) returns (started: bool)
      modifies this`running
      ensures started <==> IsDue(old(running), lastRun, KeyOf(targetID, rule.ruleID), rule, now)
      ensures running == if started then old(running) + {KeyOf(targetID, rule.ruleID)} else old(running)
      ensures now != ZERO_TIME && ValidRule(rule) ==>
                forall s: State, cycle: nat :: SameBoard(s, lastRun, old(running), states) && cycle !in s.probes ==>
                  SameBoard(Step(s, Start(cycle, KeyOf(targetID, rule.ruleID), rule, now)), lastRun, running, states)
    {
      var key := KeyOf(targetID, rule.ruleID);
      if key in running {
        return false;
      }
      if key in lastRun && lastRun[key] != ZERO_TIME && now - lastRun[key] < rule.interval {
        return false;
      }
      running := running + {key};
      started := true;
    }

    /** Ends the probe of a key that a cycle started: the step of the schedule, after
        which the key is due again exactly once the rule's interval has passed. */
    method Finish(targetID: string, ruleID: string, now: Time)
      modifies this`running, this`lastRun
      ensures running == old(running) - {KeyOf(targetID, ruleID)}
      ensures lastRun == old(lastRun)[KeyOf(targetID, ruleID) := now]
      ensures forall s: State, cycle: nat ::
                (&& SameBoard(s, old(lastRun), old(running), states)
                 && cycle in s.probes && s.probes[cycle].key == KeyOf(targetID, ruleID) && s.probes[cycle].now == now)
                ==> SameBoard(Step(s, Finished(cycle)), lastRun, running, states)
      ensures now != ZERO_TIME ==> forall rule: ProbeRule, later: Time :: rule.ruleID == ruleID ==>
                (IsDue(running, lastRun, KeyOf(targetID, rule.ruleID), rule, later) <==> later >= now + rule.interval)
    {
      var key := KeyOf(targetID, ruleID);
      running := running - {key};
      lastRun := lastRun[key := now];
    }

    static method KeepSamples(all: seq<Sample>, cutoff: Time) returns (samples: seq<Sample>)
      ensures samples == Kept(all, cutoff)
    {
      var first := 0;
      while first < |all| && all[first].at < cutoff
        invariant 0 <= first <= |all|
        invariant Trimmed(all[first..], cutoff) == Trimmed(all, cutoff)
      {
        assert all[first..][1..] == all[first + 1..];
        first := first + 1;
      }
      samples := all[first..];
      if |samples| > MAX_SAMPLES {
        samples := samples[|samples| - MAX_SAMPLES..];
      }
    }

    method Evaluate(targetID: string, rule: ProbeRule, now: Time, failed: bool) returns (verdict: Verdict)
      modifies this`states
      ensures var key := KeyOf(targetID, rule.ruleID);
              var after := Observed(StateOf(old(states), key), rule, now, failed);
              states == old(states)[key := after] && verdict == Judged(after, rule)
      ensures forall s: State, cycle: nat ::
                (&& SameBoard(s, lastRun, running, old(states))
                 && cycle in s.probes && s.probes[cycle] == Probe(KeyOf(targetID, rule.ruleID), rule, now))
                ==> (var s' := Step(s, Sampled(cycle, failed));
                     && SameBoard(s', lastRun, running, states)
                     && |s'.readings| > 0 && s'.readings[|s'.readings| - 1].verdict == verdict)
    {
      hide Kept, KeyOf;
      var key := KeyOf(targetID, rule.ruleID);
      var state := if key in states then states[key] else NEW;
      if |state.samples| > 0 && now - state.samples[|state.samples| - 1].at > rule.sloWindow {
        state := state.(failures := 0, recoveries := 0);
      }
      var samples := KeepSamples(state.samples + [Sample(now, failed)], now - rule.sloWindow);
      state := state.(samples := samples);
      if failed {
        state := state.(failures := state.failures + 1, recoveries := 0);
      } else {
        state := state.(recoveries := state.recoveries + 1, failures := 0);
      }
      states := states[key := state];
      if state.failures >= rule.consecutiveFailures {
        return IsUnhealthy;
      }
      if state.recoveries >= rule.recoverySamples {
        return IsHealthy;
      }
      verdict := Unknown;
    }
  }

  /* ---- What concurrent cycles keep ---- */

  /** A start of a key is over once its time is the key's last run, or a later one. */
  predicate Past(s: State, p: Probe) {
    p.key in s.lastRun && s.lastRun[p.key] != ZERO_TIME && s.lastRun[p.key] >= p.now
  }

  ghost predicate Spaced(starts: seq<Probe>) {
    forall i, k :: 0 <= i < k < |starts| && starts[i].key == starts[k].key ==>
      starts[k].now - starts[i].now >= starts[k].rule.interval
  }

  ghost predicate Inv(s: State) {
    && (forall c :: c in s.probes ==>
          s.probes[c].key in s.running && s.probes[c].now != ZERO_TIME && ValidRule(s.probes[c].rule))
    && (forall c, d :: c in s.probes && d in s.probes && s.probes[c].key == s.probes[d].key ==> c == d)
    && (forall i :: 0 <= i < |s.starts| ==> ValidRule(s.starts[i].rule))
    && (forall i :: 0 <= i < |s.starts| ==>
          Past(s, s.starts[i]) || exists c :: c in s.probes && s.probes[c] == s.starts[i])
    && (forall c :: c in s.probes ==> NotBefore(s, s.probes[c]))
    && Spaced(s.starts)
  }

  /** A running probe is not earlier than anything started before it. */
  ghost predicate NotBefore(s: State, p: Probe) {
    && (p.key in s.lastRun ==> s.lastRun[p.key] == ZERO_TIME || p.now >= s.lastRun[p.key])
    && forall i :: 0 <= i < |s.starts| && s.starts[i].key == p.key ==> s.starts[i].now <= p.now
  }

  lemma StartSpaced(s: State, l: Label)
    requires Inv(s) && l.Start? && l.cycle !in s.probes && l.now != ZERO_TIME && ValidRule(l.rule)
    requires IsDue(s.running, s.lastRun, l.key, l.rule, l.now)
    ensures Spaced(s.starts + [Probe(l.key, l.rule, l.now)])
    ensures forall i :: 0 <= i < |s.starts| && s.starts[i].key == l.key ==>
        Past(s, s.starts[i]) && s.starts[i].now <= l.now
  {
    hide ValidRule;
    forall i | 0 <= i < |s.starts| && s.starts[i].key == l.key
      ensures Past(s, s.starts[i]) && l.now - s.starts[i].now >= l.rule.interval
    {
    }
    assert l.rule.interval >= 0 by { assert ValidRule(l.rule); IntervalPositive(l.rule); }
  }

  lemma IntervalPositive(r: ProbeRule)
    requires ValidRule(r)
    ensures r.interval >= SECOND
  {
  }

  lemma StartKeeps(s: State, l: Label)
    requires Inv(s) && l.Start?
    ensures Inv(Step(s, l))
  {
    var s' := Step(s, l);
    if s' != s {
      StartSpaced(s, l);
      hide ValidRule, Spaced;
      StartAccounted(s, l);
      StartNotBefore(s, l);
      hide Past, NotBefore;
    }
  }

  lemma StartAccounted(s: State, l: Label)
    requires Inv(s) && l.Start? && Step(s, l) != s
    ensures var s' := Step(s, l);
            forall i :: 0 <= i < |s'.starts| ==>
              Past(s', s'.starts[i]) || exists c :: c in s'.probes && s'.probes[c] == s'.starts[i]
  {
    hide ValidRule, Spaced, NotBefore;
    var s' := Step(s, l);
    forall i | 0 <= i < |s'.starts|
      ensures Past(s', s'.starts[i]) || exists c :: c in s'.probes && s'.probes[c] == s'.starts[i]
    {
      if i == |s.starts| {
        assert s'.probes[l.cycle] == s'.starts[i];
      } else if !Past(s, s.starts[i]) {
        var c :| c in s.probes && s.probes[c] == s.starts[i];
        assert s'.probes[c] == s.starts[i];
      }
    }
  }

  lemma StartNotBefore(s: State, l: Label)
    requires Inv(s) && l.Start? && Step(s, l) != s
    ensures var s' := Step(s, l);
            forall c :: c in s'.probes ==> NotBefore(s', s'.probes[c])
  {
    StartSpaced(s, l);
    hide ValidRule, Spaced, Past;
    var s' := Step(s, l);
    forall c | c in s'.probes ensures NotBefore(s', s'.probes[c]) {
      if c != l.cycle {
        assert NotBefore(s, s.probes[c]) && s.probes[c].key != l.key;
      } else {
        assert l.rule.interval >= 0 by { assert ValidRule(l.rule); IntervalPositive(l.rule); }
      }
    }
  }

  lemma FinishKeeps(s: State, cycle: nat)
    requires Inv(s)
    ensures Inv(Step(s, Finished(cycle)))
  {
    hide ValidRule, Spaced;
    var s' := Step(s, Finished(cycle));
    if cycle in s.probes {
      var p := s.probes[cycle];
      assert NotBefore(s, p);
      forall i | 0 <= i < |s'.starts|
        ensures Past(s', s'.starts[i]) || exists c :: c in s'.probes && s'.probes[c] == s'.starts[i]
      {
        if s.starts[i].key != p.key && !Past(s, s.starts[i]) {
          var c :| c in s.probes && s.probes[c] == s.starts[i];
          assert s'.probes[c] == s.starts[i];
        }
      }
      forall c | c in s'.probes ensures NotBefore(s', s'.probes[c]) {
        assert NotBefore(s, s.probes[c]) && s.probes[c].key != p.key;
      }
    }
  }

  lemma SampleKeeps(s: State, cycle: nat, failed: bool)
    requires Inv(s)
    ensures Inv(Step(s, Sampled(cycle, failed)))
  {
    hide ValidRule, Spaced, Observed, Judged, StateOf, HistoryOf;
    var s' := Step(s, Sampled(cycle, failed));
    assert forall p :: Past(s', p) <==> Past(s, p);
    forall c | c in s'.probes ensures NotBefore(s', s'.probes[c]) { assert NotBefore(s, s.probes[c]); }
  }

  lemma {:induction false} RunKeeps(labels: seq<Label>)
    ensures Inv(Run(labels))
  {
    hide Step, Inv;
    if labels == [] {
      InitInv();
    } else {
      RunKeeps(labels[..|labels| - 1]);
      var s, l := Run(labels[..|labels| - 1]), labels[|labels| - 1];
      match l
      case Start(_, _, _, _) => StartKeeps(s, l);
      case Sampled(cycle, failed) => SampleKeeps(s, cycle, failed);
      case Finished(cycle) => FinishKeeps(s, cycle);
    }
  }

  lemma InitInv()
    ensures Inv(INIT)
  {
  }

  /** However cycles interleave, no two probes of one key run at once, and by their
      cycle times every start is at least the rule's interval after every earlier
      start of its key. */
  lemma {:induction false} ProbesNeverOverlap(labels: seq<Label>)
    ensures var s := Run(labels);
            && (forall c, d :: c in s.probes && d in s.probes && s.probes[c].key == s.probes[d].key ==> c == d)
            && (forall i, k :: 0 <= i < k < |s.starts| && s.starts[i].key == s.starts[k].key ==>
                  s.starts[k].now - s.starts[i].now >= s.starts[k].rule.interval)
  {
    RunKeeps(labels);
    hide Run, ValidRule;
  }

  /* ---- Verdicts of concurrent cycles ---- */

  ghost predicate HistoriesAgree(s: State) {
    && (forall key :: StateOf(s.states, key) == Folded(HistoryOf(s, key)) && ValidHistory(HistoryOf(s, key)))
    && (forall i :: 0 <= i < |s.readings| ==> ReadingOK(s.readings[i]))
  }

  ghost predicate ReadingOK(r: Reading) {
    r.history != [] && ValidHistory(r.history)
        && r.verdict == Judged(Folded(r.history), r.history[|r.history| - 1].rule)
  }

  lemma EvaluatedAgrees(s: State, p: Probe, failed: bool)
    requires HistoriesAgree(s) && ValidRule(p.rule)
    ensures HistoriesAgree(Evaluated(s, p, failed))
  {
    hide Observed, Judged, ValidRule, Folded;
    var s' := Evaluated(s, p, failed);
    var h := HistoryOf(s, p.key);
    var e := Entry(p.rule, p.now, failed);
    assert StateOf(s.states, p.key) == Folded(h) && ValidHistory(h);
    FoldedSnoc(h, e);
    assert ValidHistory(h + [e]);
    forall key ensures StateOf(s'.states, key) == Folded(HistoryOf(s', key)) && ValidHistory(HistoryOf(s', key)) {
      hide ValidHistory;
      assert StateOf(s.states, key) == Folded(HistoryOf(s, key)) && ValidHistory(HistoryOf(s, key));
    }
    ReadingsSnoc(s.readings, Reading(p.key, h + [e], Judged(Folded(h + [e]), p.rule)));
  }

  lemma {:induction false} FoldedSnoc(h: seq<Entry>, e: Entry)
    ensures Folded(h + [e]) == Observed(Folded(h), e.rule, e.at, e.failed)
  {
    hide Observed;
    assert (h + [e])[..|h|] == h;
  }

  lemma ReadingsSnoc(readings: seq<Reading>, r: Reading)
    requires (forall i :: 0 <= i < |readings| ==> ReadingOK(readings[i])) && ReadingOK(r)
    ensures forall i :: 0 <= i < |readings + [r]| ==> ReadingOK((readings + [r])[i])
  {
    hide ReadingOK;
  }

  lemma {:induction false} RunAgrees(labels: seq<Label>)
    ensures HistoriesAgree(Run(labels))
  {
    hide Evaluated, Inv, ReadingOK, ValidRule, Folded;
    if labels == [] {
      InitAgrees();
    } else {
      var s, l := Run(labels[..|labels| - 1]), labels[|labels| - 1];
      RunAgrees(labels[..|labels| - 1]);
      RunKeeps(labels[..|labels| - 1]);
      if l.Sampled? && l.cycle in s.probes {
        ProbeValid(s, l.cycle);
        EvaluatedAgrees(s, s.probes[l.cycle], l.failed);
      } else {
        SameHistories(s, Step(s, l));
      }
    }
  }

  lemma ProbeValid(s: State, c: nat)
    requires Inv(s) && c in s.probes
    ensures ValidRule(s.probes[c].rule)
  {
  }

  lemma InitAgrees()
    ensures HistoriesAgree(INIT)
  {
  }

  lemma SameHistories(s: State, s': State)
    requires HistoriesAgree(s) && s'.states == s.states && s'.histories == s.histories && s'.readings == s.readings
    ensures HistoriesAgree(s')
  {
    hide Folded, ReadingOK;
    forall key ensures StateOf(s'.states, key) == Folded(HistoryOf(s', key)) && ValidHistory(HistoryOf(s', key)) {
      assert StateOf(s.states, key) == Folded(HistoryOf(s, key)) && ValidHistory(HistoryOf(s, key));
    }
  }

  /** Every verdict that any interleaving of cycles produces is the specified one
      for the full history of its key at that moment. */
  lemma {:induction false} ReadingsMeetSpecification(labels: seq<Label>, i: nat)
    requires i < |Run(labels).readings|
    ensures var r := Run(labels).readings[i];
            && r.history != []
            && var rule := r.history[|r.history| - 1].rule;
            && (r.verdict == IsUnhealthy <==> EndsWith(r.history, true, rule.consecutiveFailures))
            && (r.verdict == IsHealthy <==>
                  !EndsWith(r.history, true, rule.consecutiveFailures)
                      && EndsWith(r.history, false, rule.recoverySamples))
  {
    RunAgrees(labels);
    hide Run, EndsWith, Folded;
    var r := Run(labels).readings[i];
    assert ReadingOK(r);
    assert ValidRule(r.history[|r.history| - 1].rule);
    VerdictIff(r.history);
  }
}
