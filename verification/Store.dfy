/** The daemon-owned store with one field per bucket, and the transactions that
    the coordinator and the approval manager run on it in place. */
module Store {
  import opened Text
  import opened Contract
  import Audit
  import J = Journal
  import A = Approvals
  import R = Recovery

  datatype Journaled = Journaled(record: J.Record, duplicate: bool)

  datatype Reconciled = Reconciled(command: RecoveryCommand, verified: bool, snapshot: DockerSnapshot)

  /** A reconciled record: held for verification with what Docker reported, kept
      only when it is about the command's own target. */
  function Settled(r: J.Record, observed: Option<DockerSnapshot>, now: Time): J.Record {
    var verified := observed.Some? && observed.value.targetID == r.command.targetID;
    r.(phase := J.PhaseVerify,
       reconciliation := Some(J.Reconciliation(now, verified, if verified then observed.value else NO_SNAPSHOT)))
  }

  lemma MarkSettles(r: J.Record, observed: Option<DockerSnapshot>, now: Time)
    requires J.ValidRecord(r) && J.Reconcilable(r.phase) && now != ZERO_TIME
    ensures var verified := observed.Some? && observed.value.targetID == r.command.targetID;
            var mark := J.Mark(if verified then observed.value else NO_SNAPSHOT, verified, now);
            J.Apply(mark, r) == Ok(Settled(r, observed, now))
    ensures J.ValidRecord(Settled(r, observed, now))
    ensures J.RecordKey(Settled(r, observed, now).command) == J.RecordKey(r.command)
    ensures J.LegalWrite(r, Settled(r, observed, now))
  {
  }

  predicate IsReconcilable(j: J.Bucket, key: J.Key) {
    key in j && key.CommandKey? && j[key].RecordDoc? && J.Reconcilable(j[key].record.phase)
  }

  /** `order` names every record to reconcile exactly once. */
  ghost predicate Lists(j: J.Bucket, order: seq<J.Key>) {
    && (forall i, k :: 0 <= i < k < |order| ==> order[i] != order[k])
    && (forall i :: 0 <= i < |order| ==> IsReconcilable(j, order[i]))
    && (forall key :: IsReconcilable(j, key) ==> key in order)
  }

  /** What each listed record becomes, given the clock readings and what Docker
      reports for a target. */
  ghost function Goals(j: J.Bucket, order: seq<J.Key>,
                       clock: nat -> Time, observe: ServiceTarget -> Option<DockerSnapshot>): (goals: seq<J.Record>)
    requires Lists(j, order)
    ensures |goals| == |order|
    ensures forall i :: 0 <= i < |order| ==>
              goals[i] == Settled(j[order[i]].record, observe(j[order[i]].record.target), clock(i))
  {
    seq(|order|, i requires 0 <= i < |order| =>
      Settled(j[order[i]].record, observe(j[order[i]].record.target), clock(i)))
  }

  /** The first `n` listed documents of `before` are replaced by their goals in
      `after` and reported; every other document is as it was. */
  ghost predicate SettledUpTo(before: J.Bucket, after: J.Bucket, order: seq<J.Key>, goals: seq<J.Record>,
                              n: nat, reports: seq<Reconciled>)
  {
    && n <= |order| == |goals| && |reports| == n
    && after.Keys == before.Keys
    && (forall i :: 0 <= i < n ==> order[i] in after && after[order[i]] == J.RecordDoc(goals[i]))
    && (forall i :: 0 <= i < n ==> reports[i] == ReportOf(goals[i]))
    && (forall k :: k in after && k !in order[..n] ==> after[k] == before[k])
  }

  lemma SettleNext(before: J.Bucket, j: J.Bucket, order: seq<J.Key>, goals: seq<J.Record>, n: nat,
                   reports: seq<Reconciled>, j': J.Bucket)
    requires SettledUpTo(before, j, order, goals, n, reports) && n < |order| && order[n] in before
    requires forall i :: 0 <= i < n ==> order[i] != order[n]
    requires j' == j[order[n] := J.RecordDoc(goals[n])]
    ensures SettledUpTo(before, j', order, goals, n + 1, reports + [ReportOf(goals[n])])
  {
    hide ReportOf;
    assert order[..n + 1] == order[..n] + [order[n]];
    assert j'.Keys == before.Keys;
  }

  lemma NothingLeft(before: J.Bucket, j: J.Bucket, order: seq<J.Key>, goals: seq<J.Record>, reports: seq<Reconciled>)
    requires SettledUpTo(before, j, order, goals, |order|, reports) && Lists(before, order)
    requires forall i :: 0 <= i < |order| ==> goals[i].phase == J.PhaseVerify
    ensures forall k :: !IsReconcilable(j, k)
  {
    hide ReportOf;
    assert order[..|order|] == order;
    forall k ensures !IsReconcilable(j, k) {
      if k in order {
        var i :| 0 <= i < |order| && order[i] == k;
        assert j[k].record.phase == J.PhaseVerify;
      }
    }
  }

  class Store {
    var journal: J.Bucket
    var approvals: A.Bucket
    var audit: Audit.Bucket

    constructor ()
      ensures Buckets() == A.Buckets(map[], map[], map[]) && A.Sound(Buckets())
    {
      journal, approvals, audit := map[], map[], map[];
    }

    function Buckets(): A.Buckets
      reads this
    {
      A.Buckets(journal, approvals, audit)
    }

    /* ---- The journal ---- */

    method PersistPending(record: J.Record) returns (r: Result<Journaled, J.Error>)
      modifies this`journal
      ensures match J.PersistPending(old(journal), record)
              case Ok(p) => journal == p.journal && r == Ok(Journaled(p.record, p.duplicate))
              case Err(e) => journal == old(journal) && r == Err(e)
      ensures old(J.WellFormed(journal)) && J.Initial(record) ==>
                J.WellFormed(journal) && J.Evolves(old(journal), journal)
    {
      hide J.RecordKey, J.IdempotencyKey, J.ValidRecord, J.LegalWrite, J.Initial;
      if J.WellFormed(journal) && J.Initial(record) {
        J.PersistEvolves(journal, record);
        J.MaturesReflexive(journal);
      }
      hide J.WellFormed, J.Evolves;
      var key := J.RecordKey(record.command);
      var index := J.IdempotencyKey(record.command.idempotencyKey);
      if index in journal {
        if journal[index] != J.IndexDoc(key) {
          return Err(J.IdempotencyConflict);
        }
        var existing := J.LoadRecord(journal, key);
        if existing.Err? {
          return Err(existing.error);
        }
        if existing.value == None {
          return Err(J.CorruptJournal);
        }
        return Ok(Journaled(existing.value.value, true));
      }
      var existing := J.LoadRecord(journal, key);
      if existing.Err? {
        return Err(existing.error);
      }
      if existing.value.Some? {
        journal := journal[index := J.IndexDoc(key)];
        return Ok(Journaled(existing.value.value, true));
      }
      var put := J.PutRecord(journal, key, record);
      if put.Err? {
        return Err(put.error);
      }
      journal := put.value;
      journal := journal[index := J.IndexDoc(key)];
      r := Ok(Journaled(record, false));
    }

    method UpdateRecord(key: J.Key, t: J.Transition) returns (r: Result<J.Record, J.Error>)
      modifies this`journal
      ensures match J.UpdateRecord(old(journal), key, t)
              case Ok(u) => journal == u.journal && r == Ok(u.record)
              case Err(e) => journal == old(journal) && r == Err(e)
      ensures old(J.WellFormed(journal)) ==> J.WellFormed(journal) && J.Evolves(old(journal), journal)
    {
      hide J.RecordKey, J.ValidRecord, J.LegalWrite, J.Apply;
      if J.WellFormed(journal) {
        J.UpdateEvolves(journal, key, t);
        J.MaturesReflexive(journal);
      }
      hide J.WellFormed, J.Evolves;
      var loaded := J.LoadRecord(journal, key);
      if loaded.Err? {
        return Err(loaded.error);
      }
      if loaded.value == None {
        return Err(J.CorruptJournal);
      }
      var record := loaded.value.value;
      var applied := J.Apply(t, record);
      if applied.Err? {
        return Err(applied.error);
      }
      record := applied.value;
      var put := J.PutRecord(journal, key, record);
      if put.Err? {
        return Err(put.error);
      }
      journal := put.value;
      r := Ok(record);
    }

    /** A scan of the whole bucket, in any order. */
    method FindByCommandID(commandID: string) returns (r: Result<Option<J.Key>, J.Error>)
      ensures r == J.FindByCommandID(journal, commandID)
    {
      var rest := journal.Keys;
      var found: Option<J.Key> := None;
      hide J.ValidRecord, J.RecordKey;
      while rest != {}
        invariant rest <= journal.Keys
        invariant forall k :: k in journal && k !in rest && k.CommandKey? ==> J.Holds(journal, k)
        invariant J.Matches(journal, commandID) - rest == if found == None then {} else {found.value}
        decreases |rest|
      {
        var k :| k in rest;
        rest := rest - {k};
        if k.CommandKey? {
          if !J.Holds(journal, k) {
            return Err(J.CorruptJournal);
          }
          if journal[k].record.command.commandID == commandID {
            if found.Some? {
              J.SubsetSize({found.value, k}, J.Matches(journal, commandID));
              return Err(J.CorruptJournal);
            }
            found := Some(k);
          }
        }
      }
      assert J.Matches(journal, commandID) - rest == J.Matches(journal, commandID);
      r := Ok(found);
    }

    /* ---- Approval decisions ---- */

    method Decide(request: A.Request, draws: A.Draws) returns (r: Result<A.Decided, A.Error>)
      modifies this
      ensures A.Outcome(Buckets(), r) == A.Decide(old(Buckets()), request, draws)
      ensures old(A.Sound(Buckets())) ==> A.SoundMove(old(Buckets()), Buckets())
    {
      if A.Sound(Buckets()) { A.DecideMove(Buckets(), request, draws); }
      hide A.SoundMove, A.Sound, A.DecideRecord, A.Refusal, A.ValidRequest, A.ValidAuditRequest, J.FindByCommandID;
      var outcome: A.Outcome;
      if !A.ValidRequest(request) {
        if !A.ValidAuditRequest(request) {
          return Err(A.InvalidDecision);
        }
        outcome := A.Refusal(Buckets(), request, draws, A.InvalidApproval, A.InvalidDecision);
      } else if draws.now == ZERO_TIME || !ValidToken(draws.approvalID, MAX_ID) {
        return Err(A.InvalidOptions);
      } else {
        var found := FindByCommandID(request.commandID);
        match found {
          case Err(e) => return Err(A.JournalError(e));
          case Ok(None) => outcome := A.Refusal(Buckets(), request, draws, A.NotFound, A.CommandNotFound);
          case Ok(Some(key)) => outcome := A.DecideRecord(Buckets(), request, draws, key);
        }
      }
      journal, approvals, audit := outcome.store.journal, outcome.store.approvals, outcome.store.audit;
      r := outcome.result;
    }

    /* ---- Reconciliation, run in isolation ---- */

    method ReconcilableRecords() returns (r: Result<seq<R.Stored>, J.Error>, ghost order: seq<J.Key>)
      ensures r.Err? <==> J.Corrupt(journal)
      ensures r.Ok? ==>
                && Lists(journal, order) && |r.value| == |order|
                && forall i :: 0 <= i < |order| ==> r.value[i] == R.Stored(order[i], journal[order[i]].record)
    {
      hide J.ValidRecord, J.RecordKey;
      order := [];
      var records: seq<R.Stored> := [];
      var rest := journal.Keys;
      while rest != {}
        invariant rest <= journal.Keys
        invariant forall k :: k in journal && k !in rest && k.CommandKey? ==> J.Holds(journal, k)
        invariant |records| == |order|
        invariant forall i, k :: 0 <= i < k < |order| ==> order[i] != order[k]
        invariant forall i :: 0 <= i < |order| ==> IsReconcilable(journal, order[i]) && order[i] !in rest
        invariant forall key :: IsReconcilable(journal, key) && key !in rest ==> key in order
        invariant forall i :: 0 <= i < |order| ==> records[i] == R.Stored(order[i], journal[order[i]].record)
        decreases |rest|
      {
        var k :| k in rest;
        if k.CommandKey? {
          if !J.Holds(journal, k) {
            return Err(J.CorruptJournal), order;
          }
          if J.Reconcilable(journal[k].record.phase) {
            records := records + [R.Stored(k, journal[k].record)];
            order := order + [k];
          }
        }
        rest := rest - {k};
      }
      r := Ok(records);
    }

    /** Marks one listed record with what Docker reported for it. */
    method SettleOne(stored: R.Stored, observed: Option<DockerSnapshot>, now: Time) returns (record: J.Record)
      requires !J.Corrupt(journal) && now != ZERO_TIME
      requires IsReconcilable(journal, stored.key) && journal[stored.key].record == stored.record
      modifies this`journal
      ensures record == Settled(stored.record, observed, now)
      ensures journal == old(journal)[stored.key := J.RecordDoc(record)]
      ensures !J.Corrupt(journal)
      ensures old(J.WellFormed(journal)) ==> J.WellFormed(journal)
    {
      assert J.Holds(journal, stored.key);
      hide J.ValidRecord, J.RecordKey, J.Evolves, J.LegalWrite, J.Apply, Settled;
      var verified := observed.Some? && observed.value.targetID == stored.record.command.targetID;
      var snapshot := if verified then observed.value else NO_SNAPSHOT;
      MarkSettles(stored.record, observed, now);
      var updated := UpdateRecord(stored.key, J.Mark(snapshot, verified, now));
      record := updated.value;
    }

    /** Every pending, approved or executing record ends in verify-and-notify with
        the observed Docker state, every other document is untouched, and none is
        left to reconcile. The method has no adapter to execute anything with. */
    method Reconcile(clock: nat -> Time, observe: ServiceTarget -> Option<DockerSnapshot>)
      returns (r: Result<seq<Reconciled>, J.Error>, ghost order: seq<J.Key>)
      modifies this`journal
      ensures old(J.WellFormed(journal)) ==> J.WellFormed(journal)
      ensures journal.Keys == old(journal).Keys
      ensures old(J.Corrupt(journal)) ==> r.Err? && journal == old(journal)
      ensures !old(J.Corrupt(journal)) && (forall n :: clock(n) != ZERO_TIME) ==> r.Ok?
      ensures r.Ok? ==>
                && Lists(old(journal), order)
                && SettledUpTo(old(journal), journal, order, Goals(old(journal), order, clock, observe), |order|,
                    r.value)
                && (forall k :: !IsReconcilable(journal, k))
      ensures !old(J.Corrupt(journal)) && (forall k :: !IsReconcilable(old(journal), k)) ==>
                r == Ok([]) && journal == old(journal)
    {
      hide J.ValidRecord, J.RecordKey, J.Evolves, J.LegalWrite, J.Apply, ReportOf, J.Reconcilable;
      var records;
      records, order := ReconcilableRecords();
      if records.Err? {
        return Err(records.error), order;
      }
      ghost var before, goals := journal, Goals(journal, order, clock, observe);
      assert |order| > 0 ==> IsReconcilable(before, order[0]);
      var results: seq<Reconciled> := [];
      for n := 0 to |records.value|
        invariant !J.Corrupt(journal) && (J.WellFormed(before) ==> J.WellFormed(journal))
        invariant SettledUpTo(before, journal, order, goals, n, results)
      {
        assert IsReconcilable(before, order[n]);
        var now := clock(n);
        if now == ZERO_TIME {
          return Err(J.InvalidRequest), order;
        }
        var stored := records.value[n];
        assert J.Holds(before, order[n]);
        assert order[n] !in order[..n];
        ghost var was := journal;
        var updated := SettleOne(stored, observe(stored.record.target), now);
        SettleNext(before, was, order, goals, n, results, journal);
        results := results + [ReportOf(updated)];
      }
      assert forall i :: 0 <= i < |order| ==> goals[i].phase == J.PhaseVerify;
      NothingLeft(before, journal, order, goals, results);
      r := Ok(results);
    }
  }

  function ReportOf(r: J.Record): Reconciled {
    match r.reconciliation
    case Some(seen) => Reconciled(r.command, seen.verified, if seen.verified then seen.snapshot else NO_SNAPSHOT)
    case None => Reconciled(r.command, false, NO_SNAPSHOT)
  }
}
