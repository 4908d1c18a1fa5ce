/** The recovery protocol and the stabilization verifier over one store: a verifier
    that finalizes a command does so through the coordinator's own call. */
module Joint {
  import opened Text
  import opened Contract
  import J = Journal
  import R = Recovery
  import T = RecoveryTheorems
  import RS = RecoverySafety
  import RA = RecoveryAnswers
  import S = Stabilization
  import V = StabilizationRuns
  import VT = StabilizationTheorems

  /** Both machines share the journal, which lives in `core`. */
  datatype State = State(core: R.State, results: V.Results, calls: map<nat, V.Call>)

  const INIT := State(R.INIT, map[], map[])

  /** `sub` is the coordinator call that a verifier call makes to finalize. */
  datatype Label =
    | Core(step: R.Label)
    | Verify(move: V.Label)
    | Find(id: nat, sub: nat)
    | Complete(id: nat, sub: nat)

  /** What the verifier sees. */
  function View(s: State): V.State {
    V.State(s.core.store.journal, s.results, s.calls)
  }

  function Combined(core: R.State, v: V.State): State {
    State(core, v.results, v.calls)
  }

  /** The verifier's steps that leave the journal alone. */
  predicate Private(l: V.Label) {
    l.Begin? || l.Judge? || l.Save? || l.Crash?
  }

  predicate IsFinding(s: State, id: nat) {
    id in s.calls && s.calls[id].Finding? && S.Verdict(s.calls[id].record).Some?
  }

  /** The verifier call waits for this coordinator call. */
  predicate IsCompleting(s: State, id: nat, sub: nat) {
    && id in s.calls && s.calls[id].Completing? && S.Verdict(s.calls[id].record).Some?
    && sub in s.core.calls
    && s.core.calls[sub] == R.Completing(s.calls[id].key, V.Terminal(S.Verdict(s.calls[id].record).value))
  }

  function Finalize(s: State, id: nat, sub: nat): R.Label
    requires IsFinding(s, id)
  {
    R.CompleteStabilization(sub, s.calls[id].record.commandID, S.Verdict(s.calls[id].record).value)
  }

  ghost function Step(s: State, l: Label): State {
    match l
    case Core(step) => s.(core := R.Step(s.core, step))
    case Verify(move) => if Private(move) then Combined(s.core, V.Step(View(s), move)) else s
    case Find(id, sub) =>
      if IsFinding(s, id) && sub !in s.core.calls
          then Combined(R.Step(s.core, Finalize(s, id, sub)), V.Step(View(s), V.Find(id)))
      else s
    case Complete(id, sub) =>
      if IsCompleting(s, id, sub) then Combined(R.Step(s.core, R.Transact(sub)), V.Step(View(s), V.Complete(id))) else s
  }

  ghost function Run(labels: seq<Label>): State {
    if labels == [] then INIT else Step(Run(labels[..|labels| - 1]), labels[|labels| - 1])
  }

  /* ---- The two halves of finalizing are the same transactions ---- */

  /** The verifier goes on to complete a record exactly when the coordinator's call
      is begun for that record and outcome. */
  lemma FindIsCompletion(s: State, id: nat, sub: nat)
    requires IsFinding(s, id) && sub !in s.core.calls
    ensures var s' := Step(s, Find(id, sub));
            && s'.core.store == s.core.store
            && (sub in s'.core.calls <==> id in s'.calls && s'.calls[id].Completing?)
            && (sub in s'.core.calls ==> IsCompleting(s', id, sub))
  {
    hide J.FindByCommandID, ValidToken, J.Corrupt, J.WellFormed, J.Evolves, R.ListsReconcilable, R.Prepare;
  }

  /** Completing it is one and the same journal transaction. */
  lemma CompleteIsTransact(s: State, id: nat, sub: nat)
    requires IsCompleting(s, id, sub)
    ensures R.Step(s.core, R.Transact(sub)).store.journal == V.Step(View(s), V.Complete(id)).journal
  {
    hide J.UpdateRecord, J.WellFormed, J.Evolves, J.PersistPending;
  }

  lemma PrivateStep(v: V.State, l: V.Label)
    requires Private(l)
    ensures V.Step(v, l).journal == v.journal
  {
    hide J.WellFormed, J.Evolves, V.Begun, S.Judged;
  }

  lemma FindKeepsJournal(v: V.State, id: nat)
    ensures V.Step(v, V.Find(id)).journal == v.journal
  {
    hide J.WellFormed, J.Evolves, V.Found;
  }

  lemma {:induction false} RecoverySnoc(labels: seq<R.Label>, l: R.Label)
    ensures R.Run(R.INIT, labels + [l]) == R.Step(R.Run(R.INIT, labels), l)
  {
    hide R.Step;
    assert (labels + [l])[..|labels|] == labels;
  }

  lemma {:induction false} VerifierSnoc(labels: seq<V.Label>, l: V.Label)
    ensures V.Run(V.INIT, labels + [l]) == V.Step(V.Run(V.INIT, labels), l)
  {
    hide V.Step;
    assert (labels + [l])[..|labels|] == labels;
  }

  /** The schedules of the two halves of a joint schedule. */
  ghost predicate Halves(s: State, recovery: seq<R.Label>, verifier: seq<V.Label>) {
    s.core == R.Run(R.INIT, recovery) && View(s) == V.Run(V.INIT, verifier)
  }

  lemma StepHalves(s: State, l: Label, recovery: seq<R.Label>, verifier: seq<V.Label>)
    returns (recovery': seq<R.Label>, verifier': seq<V.Label>)
    requires Halves(s, recovery, verifier)
    ensures Halves(Step(s, l), recovery', verifier')
  {
    hide R.Run, V.Run, R.Step, V.Step;
    recovery', verifier' := recovery, verifier;
    match l
    case Core(step) =>
      recovery', verifier' := recovery + [step], verifier + [V.Elsewhere(R.Step(s.core, step).store.journal)];
      RecoverySnoc(recovery, step);
      VerifierSnoc(verifier, V.Elsewhere(R.Step(s.core, step).store.journal));
      VT.RecoveryIsElsewhere(View(s), recovery, step);
    case Verify(move) =>
      if Private(move) {
        verifier' := verifier + [move];
        VerifierSnoc(verifier, move);
        PrivateStep(View(s), move);
      }
    case Find(id, sub) =>
      if IsFinding(s, id) && sub !in s.core.calls {
        recovery', verifier' := recovery + [Finalize(s, id, sub)], verifier + [V.Find(id)];
        RecoverySnoc(recovery, Finalize(s, id, sub));
        VerifierSnoc(verifier, V.Find(id));
        FindIsCompletion(s, id, sub);
        FindKeepsJournal(View(s), id);
      }
    case Complete(id, sub) =>
      if IsCompleting(s, id, sub) {
        recovery', verifier' := recovery + [R.Transact(sub)], verifier + [V.Complete(id)];
        RecoverySnoc(recovery, R.Transact(sub));
        VerifierSnoc(verifier, V.Complete(id));
        CompleteIsTransact(s, id, sub);
      }
  }

  /** Every joint schedule is at once a schedule of the recovery protocol and one of
      the verifier, so that whatever holds of either holds of the whole. */
  lemma {:induction false} JointIsBoth(labels: seq<Label>) returns (recovery: seq<R.Label>, verifier: seq<V.Label>)
    ensures Halves(Run(labels), recovery, verifier)
  {
    hide Step;
    if labels == [] {
      recovery, verifier := [], [];
    } else {
      recovery, verifier := JointIsBoth(labels[..|labels| - 1]);
      recovery, verifier := StepHalves(Run(labels[..|labels| - 1]), labels[|labels| - 1], recovery, verifier);
    }
  }

  /** In every joint schedule stored results agree with the journal. */
  lemma {:induction false} Agreement(labels: seq<Label>, key: string)
    requires key in Run(labels).results
    ensures var s := Run(labels);
            && S.ValidResult(s.results[key]) && V.Backed(s.core.store.journal, s.results[key])
  {
    var recovery, verifier := JointIsBoth(labels);
    hide Run, R.Run, V.Run, S.ValidResult, V.Backed;
    V.Agreement(verifier, key);
  }

  /** The adapter was asked exactly once for the record under this key, and said yes. */
  ghost predicate ExecutedOnce(trace: seq<R.Execution>, key: J.Key) {
    && (exists i :: 0 <= i < |trace| && RS.KeyOf(trace[i].record) == key && trace[i].ok)
    && (forall i, k :: 0 <= i < k < |trace| ==> RS.KeyOf(trace[i].record) != key || RS.KeyOf(trace[k].record) != key)
  }

  /** In every joint schedule a decided result is one of a command whose effect was
      executed exactly once, successfully: a success of one that the journal holds as
      succeeded, a failure or scheduled retry of one that it holds as failed. */
  lemma DecidedWasExecuted(labels: seq<Label>, key: string) returns (command: J.Key)
    requires key in Run(labels).results && Run(labels).results[key].outcome != S.StillPending
    ensures var s := Run(labels);
            && V.EndedAs(s.core.store.journal, command, s.results[key].commandID,
                         if s.results[key].outcome == S.Passed then Succeeded else Failed)
            && ExecutedOnce(s.core.trace, command)
  {
    var recovery, verifier := JointIsBoth(labels);
    hide Run, R.Run, V.Run, V.EndedAs, ExecutedOnce;
    V.Agreement(verifier, key);
    var s := Run(labels);
    command := BackedBy(s.core.store.journal, s.results[key]);
    EndedWasExecuted(recovery, command, s.results[key].commandID,
        if s.results[key].outcome == S.Passed then Succeeded else Failed);
  }

  lemma BackedBy(j: J.Bucket, r: S.Record) returns (command: J.Key)
    requires S.ValidResult(r) && V.Backed(j, r) && r.outcome != S.StillPending
    ensures V.EndedAs(j, command, r.commandID, if r.outcome == S.Passed then Succeeded else Failed)
  {
    hide V.EndedAs;
    if r.outcome == S.Passed {
      command :| V.EndedAs(j, command, r.commandID, Succeeded);
    } else {
      command :| V.EndedAs(j, command, r.commandID, Failed);
    }
  }

  lemma {:induction false} EndedWasExecuted(recovery: seq<R.Label>, command: J.Key, commandID: string,
                                            state: CommandState)
    requires V.EndedAs(R.Run(R.INIT, recovery).store.journal, command, commandID, state)
    requires state == Succeeded || state == Failed
    ensures ExecutedOnce(R.Run(R.INIT, recovery).trace, command)
  {
    hide R.Run, RS.KeyOf;
    RA.PastMeansExecuted(recovery, command);
  }

  /** In every joint schedule no effect is executed twice. */
  lemma {:induction false} AtMostOnce(labels: seq<Label>, i: nat, k: nat)
    requires i < k < |Run(labels).core.trace|
    ensures var trace := Run(labels).core.trace;
            !J.SameEffect(trace[i].record.command, trace[k].record.command)
  {
    var recovery, verifier := JointIsBoth(labels);
    hide Run, R.Run, V.Run;
    T.AtMostOnce(recovery, i, k);
  }
}
