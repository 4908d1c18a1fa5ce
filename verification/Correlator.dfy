/** The incident correlator: one signal folded into the bucket of incident records. */
module Correlator {
  import opened Text
  import opened Contract
  import J = Journal
  import W = Webhook

  const MAX_SEEN: nat := 256
  const MAX_SOURCE: nat := 96
  const MAX_RULES: nat := 64
  const NO_TIME: Time := ZERO_TIME

  datatype Severity = Info | Warning | Critical | NoSeverity | OtherSeverity

  datatype Health = Healthy | Unhealthy | OtherHealth

  datatype Observation = Observation(
    schema: Schema, observationID: string, targetID: string, ruleID: string, observedAt: Time, health: Health)

  datatype Signal = Signal(source: string, alertID: string, severity: Severity, observation: Observation)

  datatype Phase = Candidate | Confirmed | InRecovery | Terminal

  datatype Incident = Incident(
    schema: Schema, incidentID: string, dedupeKey: string, targetID: string, ruleIDs: seq<string>,
    state: IncidentState, severity: Severity, openedAt: Time, terminalAt: Time)

  /** The SHA-256 of an input identity, idealised as injective. */
  datatype Input = Input(identity: string)

  datatype Record = Record(schema: Schema, phase: Phase, incident: Incident, seen: seq<Input>)

  type Bucket = map<string, Record>

  datatype Error = InvalidOptions | InvalidSignal | CorruptIncident

  datatype Answer = Answer(incident: Option<Incident>, duplicate: bool, ignored: bool)

  /* ---- Signals ---- */

  predicate Blank(s: string) {
    forall i :: 0 <= i < |s| ==> IsSpace(s[i])
  }

  /** `strings.TrimSpace(s) == s`. */
  predicate Trimmed(s: string) {
    s != "" ==> !IsSpace(s[0]) && !IsSpace(s[|s| - 1])
  }

  /** The signal with its defaults filled in; `None` when it is invalid. */
  function Normalized(s: Signal): Option<Signal> {
    var o := s.observation;
    if o.schema != V1 || Blank(o.observationID) || Blank(o.targetID) || Blank(o.ruleID) || o.observedAt == ZERO_TIME
      || (o.health != Healthy && o.health != Unhealthy) then None
    else
      var source := if s.source == "" then "observer" else s.source;
      var severity := if s.severity == NoSeverity then Warning else s.severity;
      if |source| > MAX_SOURCE || |s.alertID| > MAX_ID || Blank(source) || !Trimmed(s.alertID)
          || severity == OtherSeverity
        then None
      else Some(s.(source := source, severity := severity))
  }

  function InputOf(s: Signal): Input {
    Input(if s.alertID != "" then s.source + "\0" + s.alertID else s.observation.observationID)
  }

  function WindowStart(t: Time, window: int): Time
    requires window > 0
  {
    t - t % window
  }

  function DedupeKey(o: Observation, window: int): string
    requires window > 0
  {
    o.targetID + "/" + o.ruleID + "/" + J.Itoa(WindowStart(o.observedAt, window) - W.EPOCH * SECOND)
  }

  /* ---- Records ---- */

  function SeverityRank(s: Severity): nat {
    match s
    case Critical => 3
    case Warning => 2
    case Info => 1
    case _ => 0
  }

  predicate PhaseMatches(p: Phase, s: IncidentState) {
    match p
    case Candidate => s == Open
    case Confirmed => s == Analyzing
    case InRecovery => s == Recovering || s == IncidentStabilizing
    case Terminal => s == Closed || s == IncidentFailed
  }

  predicate ValidIncident(i: Incident) {
    && i.schema == V1
    && i.incidentID != ""
    && i.targetID != ""
    && i.openedAt != ZERO_TIME
    && 0 < |i.ruleIDs| <= MAX_RULES
    && (TerminalIncident(i.state) <==> i.terminalAt != NO_TIME)
  }

  predicate ValidRecord(r: Record) {
    && r.schema == V1
    && 0 < |r.seen| <= MAX_SEEN
    && ValidIncident(r.incident)
    && r.incident.dedupeKey != ""
    && PhaseMatches(r.phase, r.incident.state)
    && Distinct(r.seen)
  }

  /* ---- Advancing an incident ---- */

  function Ended(r: Record, state: IncidentState, at: Time): Record {
    r.(phase := Terminal, incident := r.incident.(state := state, terminalAt := at))
  }

  function Moved(r: Record, phase: Phase, state: IncidentState): Record {
    r.(phase := phase, incident := r.incident.(state := state))
  }

  function AdvancedUnhealthy(r: Record, at: Time): Record {
    match r.phase
    case Candidate => Moved(r, Confirmed, Analyzing)
    case InRecovery => Ended(r, IncidentFailed, at)
    case _ => r
  }

  function AdvancedHealthy(r: Record, at: Time): Record {
    match r.phase
    case Candidate => Ended(r, Closed, at)
    case Confirmed => Moved(r, InRecovery, Recovering)
    case InRecovery =>
      if r.incident.state == Recovering then Moved(r, InRecovery, IncidentStabilizing) else Ended(r, Closed, at)
    case Terminal => r
  }

  function Advanced(r: Record, s: Signal): Record {
    if r.phase == Terminal then r
    else
      var raised := if SeverityRank(s.severity) > SeverityRank(r.incident.severity)
                    then r.(incident := r.incident.(severity := s.severity)) else r;
      if s.observation.health == Unhealthy then AdvancedUnhealthy(raised, s.observation.observedAt)
      else AdvancedHealthy(raised, s.observation.observedAt)
  }

  /** The last `n` elements. */
  function LastOf<T>(s: seq<T>, n: nat): seq<T> {
    if |s| <= n then s else s[|s| - n..]
  }

  function AppendBounded(inputs: seq<Input>, input: Input): seq<Input> {
    LastOf(inputs + [input], MAX_SEEN)
  }

  datatype Ingested = Ingested(bucket: Bucket, answer: Result<Answer, Error>)

  function Updated(b: Bucket, key: string, r: Record, s: Signal): Ingested {
    if InputOf(s) in r.seen then Ingested(b, Ok(Answer(Some(r.incident), true, false)))
    else
      var r' := Advanced(r.(seen := AppendBounded(r.seen, InputOf(s))), s);
      if !ValidRecord(r') then Ingested(b, Err(CorruptIncident))
      else Ingested(b[key := r'], Ok(Answer(Some(r'.incident), false, false)))
  }

  function NewCandidate(s: Signal, key: string, incidentID: string): Record {
    var o := s.observation;
    Record(V1, Candidate, Incident(V1, incidentID, key, o.targetID, [o.ruleID], Open, s.severity, o.observedAt,
        NO_TIME),
           [InputOf(s)])
  }

  /* ---- The active record of a healthy signal ---- */

  predicate Readable(b: Bucket) {
    forall k :: k in b ==> ValidRecord(b[k])
  }

  predicate Active(r: Record, o: Observation) {
    r.phase != Terminal && r.incident.targetID == o.targetID && r.incident.ruleIDs == [o.ruleID]
    && o.observedAt >= r.incident.openedAt
  }

  function ActiveKeys(b: Bucket, o: Observation): set<string> {
    set k | k in b && Active(b[k], o)
  }

  /** The most recently opened active record; the first key in byte order among
      equals. */
  ghost predicate IsLatest(b: Bucket, o: Observation, k: string) {
    && k in ActiveKeys(b, o)
    && forall other :: other in ActiveKeys(b, o) && other != k ==>
         || b[other].incident.openedAt < b[k].incident.openedAt
         || (b[other].incident.openedAt == b[k].incident.openedAt && Less(k, other))
  }

  lemma LatestUnique(b: Bucket, o: Observation, k: string, k': string)
    requires IsLatest(b, o, k) && IsLatest(b, o, k')
    ensures k == k'
  {
    if k != k' {
      LessAsymmetric(k, k');
    }
  }

  /** One pass over the keys in byte order. */
  function Scan(b: Bucket, o: Observation, keys: seq<string>): (r: Option<string>)
    requires forall k :: k in keys ==> k in b
    ensures r.Some? ==> r.value in b
  {
    if keys == [] then None
    else
      var best, k := Scan(b, o, keys[..|keys| - 1]), keys[|keys| - 1];
      if Active(b[k], o) && (best == None || b[k].incident.openedAt > b[best.value].incident.openedAt) then Some(k)
          else best
  }

  function FindActive(b: Bucket, o: Observation): (r: Option<string>)
    ensures r.Some? ==> r.value in b
  {
    Scan(b, o, SortedKeys(b.Keys))
  }

  /* ---- Ingesting a signal ---- */

  function Ingest(b: Bucket, signal: Signal, window: int, incidentID: string): Ingested
    requires window > 0
  {
    match Normalized(signal)
    case None => Ingested(b, Err(InvalidSignal))
    case Some(s) => IngestNormal(b, s, window, incidentID)
  }

  function IngestNormal(b: Bucket, s: Signal, window: int, incidentID: string): Ingested
    requires window > 0
  {
    var key := DedupeKey(s.observation, window);
    if key in b then
      if !ValidRecord(b[key]) then Ingested(b, Err(CorruptIncident)) else Updated(b, key, b[key], s)
    else if s.observation.health == Healthy then
      if !Readable(b) then Ingested(b, Err(CorruptIncident))
      else match FindActive(b, s.observation)
        case None => Ingested(b, Ok(Answer(None, false, true)))
        case Some(k) => Updated(b, k, b[k], s)
    else if Blank(incidentID) then Ingested(b, Err(InvalidOptions))
    else
      var r := NewCandidate(s, key, incidentID);
      if !ValidRecord(r) then Ingested(b, Err(CorruptIncident))
      else Ingested(b[key := r], Ok(Answer(Some(r.incident), false, false)))
  }

  /* ---- In place ---- */

  method Contains(inputs: seq<Input>, input: Input) returns (found: bool)
    ensures found <==> input in inputs
  {
    for i := 0 to |inputs|
      invariant input !in inputs[..i]
    {
      if inputs[i] == input {
        return true;
      }
    }
    found := false;
  }

  method CheckDistinct(inputs: seq<Input>) returns (ok: bool)
    ensures ok <==> Distinct(inputs)
  {
    var seen: set<Input> := {};
    for i := 0 to |inputs|
      invariant seen == set k | 0 <= k < i :: inputs[k]
      invariant Distinct(inputs[..i])
    {
      if inputs[i] in seen {
        return false;
      }
      seen := seen + {inputs[i]};
    }
    assert inputs[..|inputs|] == inputs;
    ok := true;
  }

  /** The check on every record that is read or written. */
  method CheckRecord(r: Record) returns (ok: bool)
    ensures ok <==> ValidRecord(r)
  {
    var i := r.incident;
    if r.schema != V1 || |r.seen| == 0 || |r.seen| > MAX_SEEN {
      return false;
    }
    if i.schema != V1 || i.incidentID == "" || i.targetID == "" || i.openedAt == ZERO_TIME
       || |i.ruleIDs| == 0 || |i.ruleIDs| > MAX_RULES {
      return false;
    }
    var ended := i.state == Closed || i.state == IncidentFailed;
    if ended != (i.terminalAt != NO_TIME) || i.dedupeKey == "" {
      return false;
    }
    if r.phase == Terminal && !ended {
      return false;
    }
    if (r.phase == Candidate && i.state != Open) || (r.phase == Confirmed && i.state != Analyzing)
       || (r.phase == InRecovery && i.state != Recovering && i.state != IncidentStabilizing) {
      return false;
    }
    ok := CheckDistinct(r.seen);
  }

  class Correlator {
    const window: int
    var bucket: Bucket

    constructor (window: int)
      ensures this.window == window && bucket == map[]
    {
      this.window := window;
      bucket := map[];
    }

    /** The scan over the bucket in key order. */
    method FindActiveRecord(o: Observation) returns (r: Result<Option<string>, Error>)
      ensures r == if Readable(bucket) then Ok(FindActive(bucket, o)) else Err(CorruptIncident)
    {
      hide ValidRecord, Active, IsSorted;
      var keys := SortedKeys(bucket.Keys);
      var latest: Option<string> := None;
      for n := 0 to |keys|
        invariant forall k :: k in keys[..n] ==> k in bucket && ValidRecord(bucket[k])
        invariant latest == Scan(bucket, o, keys[..n])
      {
        assert keys[n] in keys && keys[..n + 1][..n] == keys[..n];
        var valid := CheckRecord(bucket[keys[n]]);
        if !valid {
          return Err(CorruptIncident);
        }
        assert keys[..n + 1] == keys[..n] + [keys[n]];
        if Active(bucket[keys[n]], o)
           && (latest == None || bucket[keys[n]].incident.openedAt > bucket[latest.value].incident.openedAt) {
          latest := Some(keys[n]);
        }
      }
      assert keys[..|keys|] == keys;
      r := Ok(latest);
    }

    method UpdateRecord(key: string, r: Record, s: Signal) returns (answer: Result<Answer, Error>)
      modifies this`bucket
      ensures Ingested(bucket, answer) == Updated(old(bucket), key, r, s)
    {
      hide ValidRecord;
      var seen := Contains(r.seen, InputOf(s));
      if seen {
        return Ok(Answer(Some(r.incident), true, false));
      }
      var record := r.(seen := AppendBounded(r.seen, InputOf(s)));
      record := Advanced(record, s);
      var valid := CheckRecord(record);
      if !valid {
        return Err(CorruptIncident);
      }
      bucket := bucket[key := record];
      answer := Ok(Answer(Some(record.incident), false, false));
    }

    method IngestSignal(signal: Signal, incidentID: string) returns (answer: Result<Answer, Error>)
      requires window > 0
      modifies this`bucket
      ensures Ingested(bucket, answer) == Ingest(old(bucket), signal, window, incidentID)
    {
      hide ValidRecord, Normalized, DedupeKey, Updated, FindActive, NewCandidate, Blank;
      var normalized := Normalized(signal);
      if normalized == None {
        return Err(InvalidSignal);
      }
      var s := normalized.value;
      var key := DedupeKey(s.observation, window);
      if key in bucket {
        var valid := CheckRecord(bucket[key]);
        if !valid {
          return Err(CorruptIncident);
        }
        answer := UpdateRecord(key, bucket[key], s);
        return;
      }
      if s.observation.health == Healthy {
        var found := FindActiveRecord(s.observation);
        if found.Err? {
          return Err(found.error);
        }
        if found.value == None {
          return Ok(Answer(None, false, true));
        }
        answer := UpdateRecord(found.value.value, bucket[found.value.value], s);
        return;
      }
      if Blank(incidentID) {
        return Err(InvalidOptions);
      }
      var record := NewCandidate(s, key, incidentID);
      var valid := CheckRecord(record);
      if !valid {
        return Err(CorruptIncident);
      }
      bucket := bucket[key := record];
      answer := Ok(Answer(Some(record.incident), false, false));
    }
  }
}
