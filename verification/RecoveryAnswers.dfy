/** What the adapter's answer does to a command: over every schedule, and for one call
    that nothing disturbs. */
module RecoveryAnswers {
  import opened Text
  import opened Contract
  import opened Recovery
  import opened RecoverySafety
  import opened RecoveryTheorems
  import P = Policy
  import J = Journal
  import A = Approvals

  /* ---- Only a successful execution leads on ---- */

  ghost predicate ExecutedOK(trace: seq<Execution>, key: J.Key) {
    exists i :: 0 <= i < |trace| && KeyOf(trace[i].record) == key && trace[i].ok
  }

  predicate PastExecution(state: CommandState) {
    state == Stabilizing || state == Succeeded || state == Failed
  }

  ghost predicate Answered(s: State) {
    && (forall key :: Present(s, key) && PastExecution(s.store.journal[key].record.command.state) ==>
          ExecutedOK(s.trace, key))
    && (forall id :: id in s.calls && s.calls[id].Finishing? ==> ExecutedOK(s.trace, KeyOf(s.calls[id].record)))
    && (forall id :: id in s.calls && s.calls[id].Marking? ==> s.calls[id].mark.Mark?)
  }

  lemma ExecutedStays(s: State, l: Label, key: J.Key)
    requires ExecutedOK(s.trace, key)
    ensures ExecutedOK(Step(s, l).trace, key)
  {
    TraceStep(s, l);
    hide Step, KeyOf;
    var i :| 0 <= i < |s.trace| && KeyOf(s.trace[i].record) == key && s.trace[i].ok;
    assert Step(s, l).trace[i] == s.trace[i];
  }

  lemma FinishingStep(s: State, l: Label, a: nat)
    requires a in Step(s, l).calls && Step(s, l).calls[a].Finishing?
    ensures a in s.calls
    ensures || s.calls[a] == Step(s, l).calls[a]
            || (&& l == Act(a, true) && s.calls[a].Acting? && s.calls[a].record == Step(s, l).calls[a].record
                && Step(s, l).trace == s.trace + [Execution(s.calls[a].record, s.calls[a].auth, true)])
  {
    hide Prepare, J.FindByCommandID, ListsReconcilable, J.Corrupt, A.Decide, Revalidate, Listed,
      J.UpdateRecord, J.PersistPending, J.RecordKey;
  }

  lemma MarkingStep(s: State, l: Label, a: nat)
    requires a in Step(s, l).calls && Step(s, l).calls[a].Marking?
    ensures (a in s.calls && s.calls[a] == Step(s, l).calls[a]) || Step(s, l).calls[a].mark.Mark?
  {
    hide Prepare, J.FindByCommandID, ListsReconcilable, J.Corrupt, A.Decide, Revalidate, Listed,
      J.UpdateRecord, J.PersistPending, J.RecordKey;
  }

  /** A write makes a record stabilizing only on behalf of a finishing call, and
      terminal only from there. */
  lemma WriteReaches(j: J.Bucket, c: Call, key: J.Key, t: J.Transition, k: J.Key)
    requires J.WellFormed(j) && PendingWrite(c) == Some((key, t)) && J.UpdateRecord(j, key, t).Ok?
    requires c.Marking? ==> c.mark.Mark?
    requires var j' := J.UpdateRecord(j, key, t).value.journal;
             k in j' && j'[k].RecordDoc? && PastExecution(j'[k].record.command.state)
    ensures || (k in j && j[k].RecordDoc? && PastExecution(j[k].record.command.state))
            || (c.Finishing? && KeyOf(c.record) == k)
  {
    hide J.UpdateRecord, J.WellFormed, J.Evolves, J.LegalWrite, J.RecordKey, J.Apply, PendingWrite;
    J.UpdateEvolves(j, key, t);
    if k == key { ApplyReaches(c, key, t, j[key].record); }
  }

  lemma ApplyReaches(c: Call, key: J.Key, t: J.Transition, r: J.Record)
    requires PendingWrite(c) == Some((key, t)) && (c.Marking? ==> c.mark.Mark?)
    requires J.Apply(t, r).Ok? && PastExecution(J.Apply(t, r).value.command.state)
    ensures PastExecution(r.command.state) || (c.Finishing? && KeyOf(c.record) == key)
  {
    hide J.RecordKey;
  }

  lemma DecideReaches(b: A.Buckets, r: A.Request, d: A.Draws, k: J.Key)
    requires var j' := A.Decide(b, r, d).store.journal;
             k in j' && j'[k].RecordDoc? && PastExecution(j'[k].record.command.state)
    ensures k in b.journal && b.journal[k].RecordDoc? && PastExecution(b.journal[k].record.command.state)
  {
    A.DecideAtomic(b, r, d);
    hide A.Decide, A.OneMoreEvent;
  }

  lemma PersistReaches(j: J.Bucket, record: J.Record, k: J.Key)
    requires J.WellFormed(j) && J.Initial(record) && J.PersistPending(j, record).Ok?
    requires var j' := J.PersistPending(j, record).value.journal;
             k in j' && j'[k].RecordDoc? && PastExecution(j'[k].record.command.state)
    ensures k in j && j[k].RecordDoc? && PastExecution(j[k].record.command.state)
  {
    J.PersistEvolves(j, record);
    hide J.PersistPending, J.WellFormed, J.RecordKey, J.IdempotencyKey, J.SameIdentity;
    var j' := J.PersistPending(j, record).value.journal;
    if k in j {
      PersistSame(j, record, k);
    }
  }

  lemma PersistSame(j: J.Bucket, record: J.Record, k: J.Key)
    requires J.PersistPending(j, record).Ok? && k in j && k.CommandKey?
    ensures J.PersistPending(j, record).value.journal[k] == j[k]
  {
    hide J.ValidRecord, J.RecordKey;
  }

  lemma TransactStep(s: State, id: nat, key: J.Key)
    requires id in s.calls && (s.calls[id].Marking? ==> s.calls[id].mark.Mark?)
    requires Inv(s) && Present(Transacted(s, id, s.calls[id]), key)
    requires PastExecution(Transacted(s, id, s.calls[id]).store.journal[key].record.command.state)
    ensures || (Present(s, key) && PastExecution(s.store.journal[key].record.command.state))
            || (s.calls[id].Finishing? && KeyOf(s.calls[id].record) == key)
  {
    hide Inv, J.UpdateRecord, J.PersistPending, J.WellFormed, KeyOf, J.RecordKey, PendingWrite, AfterWrite, A.Sound;
    InvFacts(s, id);
    InvStore(s);
    var c := s.calls[id];
    if c.Persisting? {
      if J.PersistPending(s.store.journal, c.record).Ok? { PersistReaches(s.store.journal, c.record, key); }
    } else if PendingWrite(c).Some? {
      var (k, t) := PendingWrite(c).value;
      if J.UpdateRecord(s.store.journal, k, t).Ok? { WriteReaches(s.store.journal, c, k, t, key); }
    }
  }

  lemma JournalStep(s: State, l: Label, key: J.Key)
    requires forall id :: id in s.calls && s.calls[id].Marking? ==> s.calls[id].mark.Mark?
    requires Inv(s) && Present(Step(s, l), key) && PastExecution(Step(s, l).store.journal[key].record.command.state)
    ensures || (Present(s, key) && PastExecution(s.store.journal[key].record.command.state))
            || exists id :: id in s.calls && s.calls[id].Finishing? && KeyOf(s.calls[id].record) == key
  {
    hide Inv, J.FindByCommandID, ListsReconcilable, Listed, J.Corrupt, A.Decide, Prepare, Revalidate, J.WellFormed,
      KeyOf, A.Sound, Transacted;
    match l
    case Decide(r, d) =>
      InvStore(s);
      DecideReaches(s.store, r, d, key);
    case Transact(id) => if id in s.calls { TransactStep(s, id, key); }
    case _ =>
  }

  lemma StepAnswered(s: State, l: Label)
    requires Inv(s) && Answered(s)
    ensures Answered(Step(s, l))
  {
    hide Inv, Step, ExecutedOK, KeyOf;
    var s' := Step(s, l);
    forall key | Present(s', key) && PastExecution(s'.store.journal[key].record.command.state)
      ensures ExecutedOK(s'.trace, key)
    {
      JournalStep(s, l, key);
      ExecutedStays(s, l, key);
    }
    forall id | id in s'.calls && s'.calls[id].Marking? ensures s'.calls[id].mark.Mark? { MarkingStep(s, l, id); }
    forall id | id in s'.calls && s'.calls[id].Finishing? ensures ExecutedOK(s'.trace, KeyOf(s'.calls[id].record)) {
      FinishingStep(s, l, id);
      if s.calls[id] == s'.calls[id] {
        ExecutedStays(s, l, KeyOf(s.calls[id].record));
      } else {
        LastExecuted(s'.trace, KeyOf(s'.calls[id].record));
      }
    }
  }

  lemma LastExecuted(trace: seq<Execution>, key: J.Key)
    requires trace != [] && KeyOf(trace[|trace| - 1].record) == key && trace[|trace| - 1].ok
    ensures ExecutedOK(trace, key)
  {
    hide KeyOf;
  }

  lemma {:induction false} ReachableAnswered(labels: seq<Label>)
    ensures Answered(Run(INIT, labels))
  {
    hide Step, Inv, Answered;
    if labels == [] {
      InitAnswered();
    } else {
      ReachableAnswered(labels[..|labels| - 1]);
      ReachableInv(labels[..|labels| - 1]);
      StepAnswered(Run(INIT, labels[..|labels| - 1]), labels[|labels| - 1]);
    }
  }

  lemma InitAnswered()
    ensures Answered(INIT)
  {
  }

  /** In every schedule a command that is stabilizing, succeeded or failed has been
      executed exactly once, and the adapter answered with success. */
  lemma {:induction false} PastMeansExecuted(labels: seq<Label>, key: J.Key)
    requires Present(Run(INIT, labels), key)
    requires PastExecution(Run(INIT, labels).store.journal[key].record.command.state)
    ensures var trace := Run(INIT, labels).trace;
            && (exists i :: 0 <= i < |trace| && KeyOf(trace[i].record) == key && trace[i].ok)
            && (forall i, k :: 0 <= i < k < |trace| ==> KeyOf(trace[i].record) != key || KeyOf(trace[k].record) != key)
  {
    ReachableAnswered(labels);
    ReachableInv(labels);
    hide Run, CallsOK, TraceOK, A.Sound, KeyOf;
  }

  /** After an execution that the adapter answered with an error, the command is
      executing or held for verification, in that state and in every later one. */
  lemma {:induction false} ErrorIsHeld(labels: seq<Label>, i: nat)
    requires i < |Run(INIT, labels).trace| && !Run(INIT, labels).trace[i].ok
    ensures var s := Run(INIT, labels);
            var key := KeyOf(s.trace[i].record);
            && Present(s, key)
            && s.store.journal[key].record.command.state == Executing
            && s.store.journal[key].record.phase in {J.PhaseExecuting, J.PhaseVerify}
  {
    ReachableInv(labels);
    var s := Run(INIT, labels);
    var e := s.trace[i];
    var key := KeyOf(e.record);
    assert ActOK(s.store, e.record, e.auth);
    InvStore(s);
    assert J.Holds(s.store.journal, key);
    if PastExecution(s.store.journal[key].record.command.state) {
      PastMeansExecuted(labels, key);
      hide Run, KeyOf;
    }
    hide Run, Inv, KeyOf, Authorised, A.Sound, J.WellFormed, J.SameIdentity;
    ExecutingLeads(e.record, s.store.journal[key].record);
  }

  lemma ExecutingLeads(a: J.Record, b: J.Record)
    requires J.Leads(a, b) && J.ValidRecord(b) && a.phase == J.PhaseExecuting && a.command.state == Executing
    ensures b.command.state == Executing || PastExecution(b.command.state)
    ensures b.command.state == Executing ==> b.phase == J.PhaseExecuting || b.phase == J.PhaseVerify
  {
  }
}
