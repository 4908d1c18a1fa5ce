/** Any number of `Verify` calls interleaved with each other, with crashes and with
    arbitrary legal journal writes by the rest of the recovery protocol. */
module StabilizationRuns {
  import opened Text
  import opened Contract
  import opened Stabilization
  import J = Journal

  type Results = map<string, Record>

  function KeyOf(r: Record): string {
    ResultKey(r.commandID, r.attempt)
  }

  datatype Error =
    InvalidRequest | InvalidOptions | CorruptResult | Unfinalized | RetryUnavailable(record: Record)

  function Load(results: Results, commandID: string, attempt: int): Result<Option<Record>, Error> {
    var key := ResultKey(commandID, attempt);
    if key !in results then Ok(None)
    else if !ValidResult(results[key]) || results[key].commandID != commandID || results[key].attempt != attempt then
      Err(CorruptResult)
    else Ok(Some(results[key]))
  }

  /* ---- Calls in flight, one store transaction or external call per step ---- */

  datatype Call =
    | Probing(request: Request, record: Record, now: Time)
    | Finding(record: Record)
    | Completing(record: Record, key: J.Key)
    | Saving(record: Record)

  datatype State = State(journal: J.Bucket, results: Results, calls: map<nat, Call>)

  const INIT := State(map[], map[], map[])

  datatype Label =
    | Begin(id: nat, request: Request, now: Time)
    | Judge(id: nat, reading: Reading, retry: Option<RetryState>)
    | Find(id: nat)
    | Complete(id: nat)
    | Save(id: nat)
    | Elsewhere(journal: J.Bucket)
    | Crash(ids: set<nat>)

  /** A call starts by loading its result; a decided one is answered at once. */
  function Begun(results: Results, q: Request, now: Time): Option<Call> {
    if !ValidRequest(q) || now == ZERO_TIME then None
    else match Load(results, q.command.commandID, q.attempt)
      case Err(_) => None
      case Ok(None) => Some(Probing(q, Fresh(q, now), now))
      case Ok(Some(r)) => if r.outcome != StillPending then None else Some(Probing(q, r, now))
  }

  function AfterJudging(r: Record): Call {
    if Verdict(r) == None then Saving(r) else Finding(r)
  }

  function Terminal(succeeded: bool): CommandState {
    if succeeded then Succeeded else Failed
  }

  function Found(j: J.Bucket, r: Record): Option<Call>
    requires Verdict(r).Some?
  {
    if !ValidToken(r.commandID, MAX_ID) then None
    else match J.FindByCommandID(j, r.commandID)
      case Ok(Some(key)) =>
        if j[key].record.phase == J.PhaseCompleted && j[key].record.command.state == Terminal(Verdict(r).value) then
          Some(Saving(r))
        else Some(Completing(r, key))
      case _ => None
  }

  function Moved(s: State, id: nat, next: Option<Call>): State {
    s.(calls := if next == None then s.calls - {id} else s.calls[id := next.value])
  }

  function Completed(s: State, id: nat, c: Call): State
    requires c.Completing? && Verdict(c.record).Some?
  {
    match J.UpdateRecord(s.journal, c.key, J.Complete(Terminal(Verdict(c.record).value)))
    case Err(_) => Moved(s, id, None)
    case Ok(u) => Moved(s.(journal := u.journal), id, Some(Saving(c.record)))
  }

  function Saved(results: Results, r: Record): Results {
    if ValidResult(r) then results[KeyOf(r) := r] else results
  }

  function Advance(s: State, id: nat, l: Label): State
    requires id in s.calls
  {
    var c := s.calls[id];
    match l
    case Judge(_, reading, retry) =>
      if c.Probing? then Moved(s, id, Some(AfterJudging(Judged(c.request, c.record, c.now, reading, retry)))) else s
    case Find(_) => if c.Finding? && Verdict(c.record).Some? then Moved(s, id, Found(s.journal, c.record)) else s
    case Complete(_) => if c.Completing? && Verdict(c.record).Some? then Completed(s, id, c) else s
    case Save(_) => if c.Saving? then Moved(s.(results := Saved(s.results, c.record)), id, None) else s
    case _ => s
  }

  /** `Elsewhere` is any legal write by the coordinator and the approval manager. */
  ghost function Step(s: State, l: Label): State {
    match l
    case Begin(id, q, now) =>
      if id in s.calls || Begun(s.results, q, now) == None then s else Moved(s, id, Begun(s.results, q, now))
    case Elsewhere(j) => if J.WellFormed(j) && J.Evolves(s.journal, j) then s.(journal := j) else s
    case Crash(ids) => s.(calls := s.calls - ids)
    case _ => if l.id in s.calls then Advance(s, l.id, l) else s
  }

  ghost function Run(s: State, labels: seq<Label>): State {
    if labels == [] then s else Step(Run(s, labels[..|labels| - 1]), labels[|labels| - 1])
  }

  /* ---- Agreement ---- */

  predicate Finished(j: J.Bucket, key: J.Key, commandID: string, succeeded: bool) {
    && key in j && key.CommandKey? && j[key].RecordDoc?
    && j[key].record.command.commandID == commandID
    && j[key].record.phase == J.PhaseCompleted
    && j[key].record.command.state == Terminal(succeeded)
  }

  /** A decided result is backed by the same terminal state in the journal. */
  ghost predicate Agrees(j: J.Bucket, r: Record) {
    Verdict(r).Some? ==> exists key :: Finished(j, key, r.commandID, Verdict(r).value)
  }

  ghost predicate StoredOK(j: J.Bucket, key: string, r: Record) {
    ValidResult(r) && key == KeyOf(r) && Agrees(j, r)
  }

  ghost predicate CallOK(j: J.Bucket, c: Call) {
    match c
    case Probing(q, r, now) => ValidRequest(q) && Undecided(q, r)
    case Finding(r) => Verdict(r).Some?
    case Completing(r, key) =>
      Verdict(r).Some? && key in j && key.CommandKey? && j[key].RecordDoc?
          && j[key].record.command.commandID == r.commandID
    case Saving(r) => Agrees(j, r)
  }

  ghost predicate Inv(s: State) {
    && J.WellFormed(s.journal)
    && (forall key :: key in s.results ==> StoredOK(s.journal, key, s.results[key]))
    && (forall id :: id in s.calls ==> CallOK(s.journal, s.calls[id]))
  }

  /** A finished command stays as it is under every legal write. */
  lemma FinishedForever(j: J.Bucket, j': J.Bucket, key: J.Key, commandID: string, succeeded: bool)
    requires J.Evolves(j, j') && Finished(j, key, commandID, succeeded)
    ensures Finished(j', key, commandID, succeeded)
  {
    hide CanTransition;
    assert J.LegalWrite(j[key].record, j'[key].record);
    assert j'[key].record == j[key].record;
  }

  lemma AgreesForever(j: J.Bucket, j': J.Bucket, r: Record)
    requires J.Evolves(j, j') && Agrees(j, r)
    ensures Agrees(j', r)
  {
    hide J.Evolves, Finished;
    if Verdict(r).Some? {
      var key :| Finished(j, key, r.commandID, Verdict(r).value);
      FinishedForever(j, j', key, r.commandID, Verdict(r).value);
    }
  }

  lemma CallForever(j: J.Bucket, j': J.Bucket, c: Call)
    requires J.Evolves(j, j') && CallOK(j, c)
    ensures CallOK(j', c)
  {
    if c.Saving? {
      AgreesForever(j, j', c.record);
    } else if c.Completing? {
      assert J.LegalWrite(j[c.key].record, j'[c.key].record);
    }
  }

  lemma JournalMoves(s: State, j': J.Bucket)
    requires Inv(s) && J.WellFormed(j') && J.Evolves(s.journal, j')
    ensures Inv(s.(journal := j'))
  {
    hide J.Evolves, J.WellFormed, CallOK, Agrees, ValidResult;
    forall key | key in s.results ensures StoredOK(j', key, s.results[key]) {
      AgreesForever(s.journal, j', s.results[key]);
    }
    forall id | id in s.calls ensures CallOK(j', s.calls[id]) {
      CallForever(s.journal, j', s.calls[id]);
    }
  }

  lemma MovedKeeps(s: State, id: nat, next: Option<Call>)
    requires Inv(s) && (next.Some? ==> CallOK(s.journal, next.value))
    ensures Inv(Moved(s, id, next))
  {
    hide J.WellFormed, CallOK, StoredOK;
  }

  lemma BeginKeeps(s: State, id: nat, q: Request, now: Time)
    requires Inv(s) && Begun(s.results, q, now).Some?
    ensures Inv(Moved(s, id, Begun(s.results, q, now)))
  {
    assert CallOK(s.journal, Begun(s.results, q, now).value) by { hide Inv; }
    MovedKeeps(s, id, Begun(s.results, q, now));
  }

  lemma JudgeKeeps(s: State, id: nat, r: Record)
    requires Inv(s)
    ensures Inv(Moved(s, id, Some(AfterJudging(r))))
  {
    MovedKeeps(s, id, Some(AfterJudging(r)));
  }

  lemma FindKeeps(s: State, id: nat, r: Record)
    requires Inv(s) && Verdict(r).Some?
    ensures Inv(Moved(s, id, Found(s.journal, r)))
  {
    hide Inv, J.FindByCommandID, ValidToken, J.ValidRecord, J.RecordKey, Verdict, Terminal;
    var next := Found(s.journal, r);
    if next.Some? {
      var key := J.FindByCommandID(s.journal, r.commandID).value.value;
      assert next == Some(Saving(r)) ==> Finished(s.journal, key, r.commandID, Verdict(r).value);
    }
    MovedKeeps(s, id, next);
  }

  lemma CompleteFinishes(j: J.Bucket, key: J.Key, commandID: string, succeeded: bool)
    requires J.WellFormed(j) && key in j && key.CommandKey? && j[key].RecordDoc?
    requires j[key].record.command.commandID == commandID
    ensures match J.UpdateRecord(j, key, J.Complete(Terminal(succeeded)))
            case Err(_) => true
            case Ok(u) =>
              && J.WellFormed(u.journal) && J.Evolves(j, u.journal)
              && Finished(u.journal, key, commandID, succeeded)
  {
    J.UpdateEvolves(j, key, J.Complete(Terminal(succeeded)));
    hide J.UpdateRecord, J.WellFormed, J.Evolves, J.LegalWrite, J.Apply;
    match J.UpdateRecord(j, key, J.Complete(Terminal(succeeded)))
    case Err(_) =>
    case Ok(u) => CompletedIsFinished(j[key].record, Terminal(succeeded));
  }

  lemma CompleteKeeps(s: State, id: nat, c: Call)
    requires Inv(s) && c.Completing? && CallOK(s.journal, c)
    ensures Inv(Completed(s, id, c))
  {
    hide J.UpdateRecord, J.WellFormed, J.Evolves, Finished, Terminal, Moved, StoredOK;
    CompleteFinishes(s.journal, c.key, c.record.commandID, Verdict(c.record).value);
    hide Inv, Verdict;
    match J.UpdateRecord(s.journal, c.key, J.Complete(Terminal(Verdict(c.record).value)))
    case Err(_) => MovedKeeps(s, id, None);
    case Ok(u) =>
      JournalMoves(s, u.journal);
      assert Finished(u.journal, c.key, c.record.commandID, Verdict(c.record).value);
      MovedKeeps(s.(journal := u.journal), id, Some(Saving(c.record)));
  }

  lemma CompletedIsFinished(r: J.Record, next: CommandState)
    requires J.Apply(J.Complete(next), r).Ok?
    ensures var r' := J.Apply(J.Complete(next), r).value;
            r'.phase == J.PhaseCompleted && r'.command.state == next && r'.command.commandID == r.command.commandID
  {
  }

  lemma SaveKeeps(s: State, id: nat, r: Record)
    requires Inv(s) && Agrees(s.journal, r)
    ensures Inv(Moved(s.(results := Saved(s.results, r)), id, None))
  {
    hide J.WellFormed, CallOK, Agrees, ValidResult, KeyOf;
    MovedKeeps(s.(results := Saved(s.results, r)), id, None);
  }

  lemma StepKeeps(s: State, l: Label)
    requires Inv(s)
    ensures Inv(Step(s, l))
  {
    hide J.WellFormed, J.Evolves, CallOK, StoredOK, Judged, Moved, Found, Completed, Saved, AfterJudging, Begun;
    match l
    case Begin(id, q, now) => if Begun(s.results, q, now).Some? { BeginKeeps(s, id, q, now); }
    case Elsewhere(j) => if J.WellFormed(j) && J.Evolves(s.journal, j) { JournalMoves(s, j); }
    case Crash(ids) =>
    case _ => if l.id in s.calls { AdvanceKeeps(s, l.id, l); }
  }

  lemma AdvanceKeeps(s: State, id: nat, l: Label)
    requires Inv(s) && id in s.calls
    ensures Inv(Advance(s, id, l))
  {
    var c := s.calls[id];
    assert CallOK(s.journal, c);
    hide Inv, Judged, Moved, Found, Completed, Saved, AfterJudging, Agrees, Undecided, ValidRequest;
    match l
    case Judge(_, reading, retry) =>
      if c.Probing? { JudgeKeeps(s, id, Judged(c.request, c.record, c.now, reading, retry)); }
    case Find(_) => if c.Finding? { FindKeeps(s, id, c.record); }
    case Complete(_) => if c.Completing? { CompleteKeeps(s, id, c); }
    case Save(_) => if c.Saving? { SaveKeeps(s, id, c.record); }
    case _ =>
  }

  lemma {:induction false} RunKeeps(s: State, labels: seq<Label>)
    requires Inv(s)
    ensures Inv(Run(s, labels))
  {
    hide Inv, Step;
    if labels != [] {
      RunKeeps(s, labels[..|labels| - 1]);
      StepKeeps(Run(s, labels[..|labels| - 1]), labels[|labels| - 1]);
    }
  }

  /** The command is completed in the journal, in this state. */
  predicate EndedAs(j: J.Bucket, key: J.Key, commandID: string, state: CommandState) {
    && key in j && key.CommandKey? && j[key].RecordDoc?
    && j[key].record.command.commandID == commandID
    && j[key].record.phase == J.PhaseCompleted
    && j[key].record.command.state == state
  }

  /** The journal state behind each outcome; a pending attempt asks for none. */
  ghost predicate Backed(j: J.Bucket, r: Record) {
    && (r.outcome == Passed ==> exists key :: EndedAs(j, key, r.commandID, Succeeded))
    && (r.outcome == RetryScheduled || r.outcome == GaveUp ==> exists key :: EndedAs(j, key, r.commandID, Failed))
  }

  lemma AgreesIsBacked(j: J.Bucket, r: Record)
    ensures Agrees(j, r) <==> Backed(j, r)
  {
    assert forall key, ok :: Finished(j, key, r.commandID, ok) <==> EndedAs(j, key, r.commandID, Terminal(ok));
    assert Terminal(true) == Succeeded && Terminal(false) == Failed;
    hide Finished, EndedAs;
    if Backed(j, r) && Verdict(r).Some? {
      var key :| EndedAs(j, key, r.commandID, Terminal(Verdict(r).value));
      assert Finished(j, key, r.commandID, Verdict(r).value);
    }
  }

  /** In every schedule, a stored success is a command the journal holds as
      succeeded and a stored failure or scheduled retry is one it holds as failed,
      wherever crashes fall; and when the command ID names one record, that is the
      record in question. */
  lemma {:induction false} Agreement(labels: seq<Label>, key: string)
    requires key in Run(INIT, labels).results
    ensures var s := Run(INIT, labels);
            var r := s.results[key];
            && ValidResult(r) && Backed(s.journal, r)
            && (forall k :: J.FindByCommandID(s.journal, r.commandID) == Ok(Some(k)) ==>
                  && (r.outcome == Passed ==> EndedAs(s.journal, k, r.commandID, Succeeded))
                  && (r.outcome == RetryScheduled || r.outcome == GaveUp ==>
                        EndedAs(s.journal, k, r.commandID, Failed)))
  {
    RunKeeps(INIT, labels);
    hide Run, CallOK, J.WellFormed, ValidResult;
    var s := Run(INIT, labels);
    var r := s.results[key];
    AgreesIsBacked(s.journal, r);
    forall k | J.FindByCommandID(s.journal, r.commandID) == Ok(Some(k))
      ensures r.outcome == Passed ==> EndedAs(s.journal, k, r.commandID, Succeeded)
      ensures r.outcome == RetryScheduled || r.outcome == GaveUp ==> EndedAs(s.journal, k, r.commandID, Failed)
    {
      hide J.FindByCommandID;
      if r.outcome == Passed {
        var k' :| EndedAs(s.journal, k', r.commandID, Succeeded);
        FoundIsOnly(s.journal, r.commandID, k, k');
      } else if r.outcome == RetryScheduled || r.outcome == GaveUp {
        var k' :| EndedAs(s.journal, k', r.commandID, Failed);
        FoundIsOnly(s.journal, r.commandID, k, k');
      }
    }
  }

  lemma FoundIsOnly(j: J.Bucket, commandID: string, k: J.Key, k': J.Key)
    requires J.FindByCommandID(j, commandID) == Ok(Some(k))
    requires k' in j && k'.CommandKey? && j[k'].RecordDoc? && j[k'].record.command.commandID == commandID
    ensures k' == k
  {
    hide J.Corrupt;
    J.SingletonUnique(J.Matches(j, commandID), k, k');
  }
}
