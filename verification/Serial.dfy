/** `Verify` calls for one attempt, one after the other: what a stored success means,
    and how far the sample count can go. */
module Serial {
  import opened Text
  import opened Contract
  import opened Stabilization
  import opened StabilizationRuns
  import opened Verifier
  import J = Journal

  /** What one call is given. */
  datatype Turn = Turn(now: Time, reading: Reading, retry: Option<RetryState>)

  datatype Buckets = Buckets(journal: J.Bucket, results: Results)

  function Called(b: Buckets, q: Request, t: Turn): Verified {
    VerifyOnce(b.journal, b.results, q, t.now, t.reading, t.retry)
  }

  function After(b: Buckets, q: Request, turns: seq<Turn>): Buckets {
    if turns == [] then b
    else
      var v := Called(After(b, q, turns[..|turns| - 1]), q, turns[|turns| - 1]);
      Buckets(v.journal, v.results)
  }

  function KeyFor(q: Request): string {
    ResultKey(q.command.commandID, q.attempt)
  }

  lemma {:induction false} AfterSnoc(b: Buckets, q: Request, turns: seq<Turn>, t: Turn)
    ensures var v := Called(After(b, q, turns), q, t);
            After(b, q, turns + [t]) == Buckets(v.journal, v.results)
  {
    hide Called;
    assert (turns + [t])[..|turns|] == turns;
  }

  /* ---- One call on an attempt that is not decided ---- */

  /** The record a call starts from. */
  predicate Loads(results: Results, q: Request, now: Time, r: Record) {
    Load(results, q.command.commandID, q.attempt) ==
    if KeyFor(q) in results then Ok(Some(r)) else Ok(None)
  }

  ghost predicate StartsFrom(b: Buckets, q: Request, now: Time, r: Record) {
    && Loads(b.results, q, now, r) && r.outcome == StillPending
    && (KeyFor(q) !in b.results ==> r == Fresh(q, now))
  }

  lemma CalledFrom(b: Buckets, q: Request, t: Turn, r: Record)
    requires ValidRequest(q) && t.now != ZERO_TIME && StartsFrom(b, q, t.now, r)
    ensures Undecided(q, r)
    ensures Called(b, q, t) == Attempted(b.journal, b.results, q, r, t.now, t.reading, t.retry)
  {
    LoadedUndecided(b.results, q, r, t.now);
    hide ValidRequest, ValidResult, Attempted, ResultKey, Fresh, Undecided;
  }

  /** A healthy reading in time is saved, as long as the count has room. */
  lemma Counted(b: Buckets, q: Request, t: Turn, r: Record)
    requires ValidRequest(q) && t.now != ZERO_TIME && StartsFrom(b, q, t.now, r)
    requires HealthyReading(q, t.reading) && t.now < Deadline(q, r)
    ensures var v := Called(b, q, t);
            && v.journal == b.journal
            && (r.healthySamples < MAX_SAMPLES ==>
                  v.results == b.results[KeyFor(q) := r.(healthySamples := r.healthySamples + 1)] && v.answer.Ok?)
            && (r.healthySamples == MAX_SAMPLES ==> v.results == b.results && v.answer == Err(CorruptResult))
  {
    CalledFrom(b, q, t, r);
    HealthyCounts(q, r, t.now, t.reading, t.retry);
    hide Judged, HealthyReading, Called, ResultKey, ValidRequest, Fault, Deadline, StartsFrom;
    JudgedValidIff(q, r, t.now, t.reading, t.retry);
    HealthyNoFault(q, r, t.now, t.reading);
  }

  lemma HealthyNoFault(q: Request, r: Record, now: Time, reading: Reading)
    requires HealthyReading(q, reading) && now < Deadline(q, r)
    ensures Fault(q, r, now, reading) == NoFailure
  {
    hide MeetsRules, ValidSample;
  }

  /* ---- Counting up to the limit ---- */

  /** Healthy readings strictly within the window that opens with the first. */
  predicate Steady(q: Request, turns: seq<Turn>) {
    forall i :: 0 <= i < |turns| ==>
      HealthyReading(q, turns[i].reading) && turns[i].now != ZERO_TIME && turns[i].now < turns[0].now + q.window
  }

  /** Up to 256 of them are all counted and nothing else happens. */
  lemma {:induction false} SteadyCounts(b: Buckets, q: Request, turns: seq<Turn>)
    requires ValidRequest(q) && KeyFor(q) !in b.results
    requires 0 < |turns| <= MAX_SAMPLES && Steady(q, turns)
    ensures After(b, q, turns) ==
            Buckets(b.journal, b.results[KeyFor(q) := Fresh(q, turns[0].now).(healthySamples := |turns|)])
  {
    hide Called, HealthyReading, ValidRequest, ResultKey;
    var init, last := turns[..|turns| - 1], turns[|turns| - 1];
    assert init + [last] == turns;
    AfterSnoc(b, q, init, last);
    if init == [] {
      FreshStart(b, q, last.now);
      Counted(b, q, last, Fresh(q, last.now));
    } else {
      assert Steady(q, init);
      SteadyCounts(b, q, init);
      var r := Fresh(q, turns[0].now).(healthySamples := |init|);
      FreshValid(q, turns[0].now, |init|);
      StoredStart(After(b, q, init), q, last.now, r);
      Counted(After(b, q, init), q, last, r);
    }
  }

  lemma FreshValid(q: Request, now: Time, n: nat)
    requires ValidRequest(q) && now != ZERO_TIME && n <= MAX_SAMPLES
    ensures ValidResult(Fresh(q, now).(healthySamples := n))
  {
  }

  lemma FreshStart(b: Buckets, q: Request, now: Time)
    requires KeyFor(q) !in b.results
    ensures StartsFrom(b, q, now, Fresh(q, now))
  {
  }

  lemma StoredStart(b: Buckets, q: Request, now: Time, r: Record)
    requires KeyFor(q) in b.results && b.results[KeyFor(q)] == r && ValidResult(r) && r.outcome == StillPending
    requires r.commandID == q.command.commandID && r.attempt == q.attempt
    ensures StartsFrom(b, q, now, r)
  {
    hide ValidResult, ResultKey;
  }

  /** With 256 samples counted, a healthy sample within the window is refused. */
  lemma {:induction false} RefusedAt256(b: Buckets, q: Request, turns: seq<Turn>, next: Turn)
    requires ValidRequest(q) && KeyFor(q) !in b.results && |turns| == MAX_SAMPLES && Steady(q, turns + [next])
    ensures var full := After(b, q, turns);
            && KeyFor(q) in full.results && full.results[KeyFor(q)].healthySamples == MAX_SAMPLES
            && Called(full, q, next) == Verified(full.journal, full.results, Err(CorruptResult))
  {
    var all := turns + [next];
    assert forall i :: 0 <= i < |turns| ==> all[i] == turns[i];
    assert all[|turns|] == next;
    hide Called, HealthyReading, ValidRequest, ResultKey;
    SteadyCounts(b, q, turns);
    var r := Fresh(q, turns[0].now).(healthySamples := MAX_SAMPLES);
    FreshValid(q, turns[0].now, MAX_SAMPLES);
    StoredStart(After(b, q, turns), q, next.now, r);
    Counted(After(b, q, turns), q, next, r);
    CalledSame(After(b, q, turns), q, next);
  }

  /** The 257th healthy sample within the window is refused, and so is every later
      one: however many follow, the count stays at 256 and nothing is stored. */
  lemma {:induction false} CountEndsAt256(b: Buckets, q: Request, turns: seq<Turn>, more: seq<Turn>)
    requires ValidRequest(q) && KeyFor(q) !in b.results && |turns| == MAX_SAMPLES && Steady(q, turns + more)
    ensures var full := After(b, q, turns);
            && KeyFor(q) in full.results && full.results[KeyFor(q)].healthySamples == MAX_SAMPLES
            && After(b, q, turns + more) == full
            && forall i :: 0 <= i < |more| ==>
                 Called(full, q, more[i]) == Verified(full.journal, full.results, Err(CorruptResult))
  {
    hide Called, HealthyReading, ValidRequest, ResultKey;
    var full := After(b, q, turns);
    if more == [] {
      assert turns + more == turns;
      SteadyCounts(b, q, turns);
    } else {
      var init, last := more[..|more| - 1], more[|more| - 1];
      assert more == init + [last];
      SteadyParts(q, turns, init, last);
      CountEndsAt256(b, q, turns, init);
      assert turns + more == turns + init + [last];
      AfterSnoc(b, q, turns + init, last);
      RefusedAt256(b, q, turns, last);
    }
  }

  lemma SteadyParts(q: Request, turns: seq<Turn>, init: seq<Turn>, last: Turn)
    requires turns != [] && Steady(q, turns + (init + [last]))
    ensures Steady(q, turns + init) && Steady(q, turns + [last])
  {
    hide HealthyReading;
    var all := turns + (init + [last]);
    assert all[|turns| + |init|] == last;
    assert forall i :: 0 <= i < |turns + init| ==> (turns + init)[i] == all[i];
    assert forall i :: 0 <= i < |turns| ==> (turns + [last])[i] == all[i];
  }

  lemma CalledSame(b: Buckets, q: Request, t: Turn)
    requires Called(b, q, t).journal == b.journal && Called(b, q, t).results == b.results
    requires Called(b, q, t).answer == Err(CorruptResult)
    ensures Called(b, q, t) == Verified(b.journal, b.results, Err(CorruptResult))
  {
  }

  /* ---- What a stored success means ---- */

  /** The command is found and stabilizing, so that either outcome can be recorded. */
  ghost predicate Open(j: J.Bucket, q: Request, key: J.Key) {
    && J.WellFormed(j) && ValidToken(q.command.commandID, MAX_ID)
    && J.FindByCommandID(j, q.command.commandID) == Ok(Some(key))
    && key in j && j[key].RecordDoc? && key.CommandKey?
    && j[key].record.phase == J.PhaseStabilizing && j[key].record.command.state == Stabilizing
  }

  lemma OpenCompletes(j: J.Bucket, q: Request, key: J.Key, succeeded: bool)
    requires Open(j, q, key)
    ensures J.UpdateRecord(j, key, J.Complete(Terminal(succeeded))).Ok?
  {
    hide J.FindByCommandID, ValidToken, J.RecordKey;
    assert J.Holds(j, key);
    var r := j[key].record;
    var r' := J.Moved(r, J.PhaseCompleted, Terminal(succeeded));
    SameKey(r, r');
    assert J.ValidRecord(r');
  }

  lemma SameKey(r: J.Record, r': J.Record)
    requires J.Effect(r.command) == J.Effect(r'.command)
    ensures J.RecordKey(r.command) == J.RecordKey(r'.command)
  {
  }

  lemma OpenFinalizes(j: J.Bucket, q: Request, key: J.Key, r: Record)
    requires Open(j, q, key) && r.commandID == q.command.commandID
    ensures Finalized(j, r).Some?
  {
    if Verdict(r).Some? { OpenCompletes(j, q, key, Verdict(r).value); }
    hide J.FindByCommandID, ValidToken, J.UpdateRecord, J.WellFormed;
  }

  /** The first `n` readings are all healthy. */
  predicate AllHealthy(q: Request, turns: seq<Turn>, n: nat) {
    n <= |turns| && forall i :: 0 <= i < n ==> HealthyReading(q, turns[i].reading)
  }

  /** After `n` samples the attempt passed: enough of them, all healthy, the first
      opening the window and the last closing it. */
  predicate PassedAt(q: Request, turns: seq<Turn>, n: nat) {
    && q.samples <= n <= MAX_SAMPLES && 0 < n <= |turns|
    && AllHealthy(q, turns, n)
    && turns[n - 1].now == turns[0].now + q.window
  }

  /** While the attempt is pending every sample was healthy and is counted, until the
      count is full. */
  ghost predicate Tracks(b: Buckets, now: Buckets, q: Request, turns: seq<Turn>) {
    && turns != [] && KeyFor(q) in now.results
    && var r := now.results[KeyFor(q)];
    && ValidResult(r) && r.commandID == q.command.commandID && r.attempt == q.attempt
    && (r.outcome == StillPending ==>
          && r.startedAt == turns[0].now
          && (if |turns| <= MAX_SAMPLES
                then r.healthySamples == |turns| && now.journal == b.journal && AllHealthy(q, turns, |turns|)
              else r.healthySamples == MAX_SAMPLES))
    && (r.outcome == Passed ==> exists n :: PassedAt(q, turns, n))
  }

  lemma {:induction false} SerialTracks(b: Buckets, q: Request, key: J.Key, turns: seq<Turn>)
    requires ValidRequest(q) && KeyFor(q) !in b.results && Open(b.journal, q, key)
    requires turns != [] && forall i :: 0 <= i < |turns| ==> turns[i].now != ZERO_TIME
    ensures Tracks(b, After(b, q, turns), q, turns)
  {
    hide Called, ValidRequest, ResultKey, Tracks, Open;
    var init, last := turns[..|turns| - 1], turns[|turns| - 1];
    assert init + [last] == turns;
    AfterSnoc(b, q, init, last);
    if init == [] {
      FirstTracks(b, q, key, last);
    } else {
      SerialTracks(b, q, key, init);
      NextTracks(b, After(b, q, init), q, key, init, last);
    }
  }

  lemma FirstTracks(b: Buckets, q: Request, key: J.Key, t: Turn)
    requires ValidRequest(q) && KeyFor(q) !in b.results && Open(b.journal, q, key) && t.now != ZERO_TIME
    ensures var v := Called(b, q, t); Tracks(b, Buckets(v.journal, v.results), q, [t])
  {
    var r := Fresh(q, t.now);
    FreshStart(b, q, t.now);
    CalledFrom(b, q, t, r);
    assert q.window > 0;
    OpenStep(b, q, key, t, r);
    JudgedShape(q, r, t.now, t.reading, t.retry);
    hide Called, Judged, HealthyReading, ValidRequest, ResultKey, ValidResult, Open, StartsFrom, Undecided;
  }

  /** On an open command a call on a pending attempt stores its judgement, unless the
      count is full and the reading healthy. */
  lemma OpenStep(b: Buckets, q: Request, key: J.Key, t: Turn, r: Record)
    requires ValidRequest(q) && t.now != ZERO_TIME && StartsFrom(b, q, t.now, r) && Open(b.journal, q, key)
    requires r.healthySamples < MAX_SAMPLES
    ensures var v, judged := Called(b, q, t), Judged(q, r, t.now, t.reading, t.retry);
            && v.results == b.results[KeyFor(q) := judged] && ValidResult(judged)
            && judged.commandID == q.command.commandID && judged.attempt == q.attempt
            && (judged.outcome == StillPending ==> v.journal == b.journal)
  {
    CalledFrom(b, q, t, r);
    JudgedValidIff(q, r, t.now, t.reading, t.retry);
    JudgedOutcome(q, r, t.now, t.reading, t.retry);
    hide Called, Judged, ResultKey, ValidRequest, Fault, ValidResult, StartsFrom, Found, Undecided, Open;
    OpenFinalizes(b.journal, q, key, Judged(q, r, t.now, t.reading, t.retry));
  }

  lemma NextTracks(b: Buckets, before: Buckets, q: Request, key: J.Key, init: seq<Turn>, t: Turn)
    requires ValidRequest(q) && Open(b.journal, q, key) && t.now != ZERO_TIME && Tracks(b, before, q, init)
    ensures var v := Called(before, q, t); Tracks(b, Buckets(v.journal, v.results), q, init + [t])
  {
    var r := before.results[KeyFor(q)];
    if r.outcome != StillPending {
      DecidedStays(before, q, t);
      KeepsPassed(q, init, t);
    } else {
      StoredStart(before, q, t.now, r);
      if |init| < MAX_SAMPLES {
        OpenStep(before, q, key, t, r);
        JudgedShape(q, r, t.now, t.reading, t.retry);
        TracksCounted(b, before, Called(before, q, t), q, init, t, r);
      } else {
        FullStays(before, q, t, r);
        TracksFull(b, before, Called(before, q, t), q, init, t);
      }
    }
  }

  lemma DecidedStays(b: Buckets, q: Request, t: Turn)
    requires ValidRequest(q) && t.now != ZERO_TIME && KeyFor(q) in b.results && ValidResult(b.results[KeyFor(q)])
    requires b.results[KeyFor(q)].commandID == q.command.commandID && b.results[KeyFor(q)].attempt == q.attempt
    requires b.results[KeyFor(q)].outcome != StillPending
    ensures Called(b, q, t).results == b.results
  {
    hide ValidRequest, ValidResult, ResultKey;
  }

  lemma KeepsPassed(q: Request, init: seq<Turn>, t: Turn)
    ensures (exists n :: PassedAt(q, init, n)) ==> exists n :: PassedAt(q, init + [t], n)
  {
    hide HealthyReading;
    if exists n :: PassedAt(q, init, n) {
      var n :| PassedAt(q, init, n);
      assert PassedAt(q, init + [t], n);
    }
  }

  lemma TracksCounted(b: Buckets, before: Buckets, v: Verified, q: Request, init: seq<Turn>, t: Turn, r: Record)
    requires Tracks(b, before, q, init) && |init| < MAX_SAMPLES
    requires r == before.results[KeyFor(q)] && r.outcome == StillPending
    requires KeyFor(q) in v.results && ValidResult(v.results[KeyFor(q)])
    requires var judged := v.results[KeyFor(q)];
             && judged.commandID == q.command.commandID && judged.attempt == q.attempt
             && (judged.outcome == StillPending ==> v.journal == before.journal)
             && (judged.outcome == StillPending || judged.outcome == Passed ==>
                   && HealthyReading(q, t.reading)
                   && judged.healthySamples == r.healthySamples + 1 && judged.startedAt == r.startedAt)
             && (judged.outcome == Passed ==> t.now == Deadline(q, r) && judged.healthySamples >= q.samples)
    ensures Tracks(b, Buckets(v.journal, v.results), q, init + [t])
  {
    hide HealthyReading, ValidResult, KeyFor;
    var turns, judged := init + [t], v.results[KeyFor(q)];
    assert turns[|init|] == t && turns[0] == init[0];
    if judged.outcome == Passed {
      assert PassedAt(q, turns, |turns|);
    }
  }

  /** With 256 samples counted, a call stores a failure or nothing. */
  lemma FullStays(b: Buckets, q: Request, t: Turn, r: Record)
    requires ValidRequest(q) && t.now != ZERO_TIME && StartsFrom(b, q, t.now, r) && KeyFor(q) in b.results
    requires r.healthySamples == MAX_SAMPLES
    ensures var v := Called(b, q, t);
            || v.results == b.results
            || (&& KeyFor(q) in v.results && ValidResult(v.results[KeyFor(q)])
                && v.results[KeyFor(q)].commandID == q.command.commandID && v.results[KeyFor(q)].attempt == q.attempt
                && v.results[KeyFor(q)].outcome != StillPending && v.results[KeyFor(q)].outcome != Passed)
  {
    CalledFrom(b, q, t, r);
    JudgedValidIff(q, r, t.now, t.reading, t.retry);
    JudgedOutcome(q, r, t.now, t.reading, t.retry);
    hide Called, Judged, ResultKey, ValidRequest, Fault, ValidResult, StartsFrom, Found, Finalized, Undecided;
  }

  lemma TracksFull(b: Buckets, before: Buckets, v: Verified, q: Request, init: seq<Turn>, t: Turn)
    requires Tracks(b, before, q, init) && before.results[KeyFor(q)].outcome == StillPending && |init| >= MAX_SAMPLES
    requires || v.results == before.results
             || (&& KeyFor(q) in v.results && ValidResult(v.results[KeyFor(q)])
                 && v.results[KeyFor(q)].commandID == q.command.commandID && v.results[KeyFor(q)].attempt == q.attempt
                 && v.results[KeyFor(q)].outcome != StillPending && v.results[KeyFor(q)].outcome != Passed)
    ensures Tracks(b, Buckets(v.journal, v.results), q, init + [t])
  {
    hide HealthyReading, ValidResult, KeyFor;
    assert (init + [t])[0] == init[0];
  }

  /** A success stored by calls one after the other, on a command that was
      stabilizing when they began, means that their first `n` readings, at least
      the required number and at most 256, were all healthy, the first opening
      the window and the last closing it. */
  lemma {:induction false} PassedMeans(b: Buckets, q: Request, key: J.Key, turns: seq<Turn>)
    requires ValidRequest(q) && KeyFor(q) !in b.results && Open(b.journal, q, key)
    requires turns != [] && forall i :: 0 <= i < |turns| ==> turns[i].now != ZERO_TIME
    requires KeyFor(q) in After(b, q, turns).results && After(b, q, turns).results[KeyFor(q)].outcome == Passed
    ensures exists n :: PassedAt(q, turns, n)
  {
    SerialTracks(b, q, key, turns);
    hide After, Open, PassedAt, ValidResult;
  }
}
