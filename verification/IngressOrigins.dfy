/** Where an accepted alert comes from, and exactly when one is accepted. */
module IngressOrigins {
  import opened Text
  import opened Contract
  import opened Ingress
  import W = Webhook
  import T = WebhookTheorems

  /** A usable request of admissible size that carries an authentic signature over its
      own id, timestamp and body, not older or newer than five minutes. */
  ghost predicate Genuine(mac: W.Mac, c: Config, h: W.Headers, body: string, now: Time, usable: bool) {
    && usable && 1 <= |body| <= c.maxBody
    && T.Named(h.id) && T.Timely(h.timestamp, now, 300 * SECOND) && T.Authentic(mac, c.secrets, h, body)
  }

  lemma AdmissibleIff(mac: W.Mac, c: Config, receipts: Receipts, h: W.Headers, body: string, now: Time, usable: bool)
    ensures Admissible(mac, c, receipts, h, body, now, usable) <==>
            && Genuine(mac, c, h, body, now, usable)
            && (h.id in receipts ==> receipts[h.id] != ZERO_TIME && receipts[h.id] <= now)
  {
    T.VerifiedIff(mac, c.secrets, h, body, now, TOLERANCE);
    hide W.Verified, T.Named, T.Authentic, AllDigits, Parse;
    assert T.Timely(h.timestamp, now, TOLERANCE) ==> now != ZERO_TIME;
  }

  /** The acceptance goes back to the request at this place of the schedule. */
  ghost predicate From(mac: W.Mac, c: Config, l: Label, h: W.Headers, now: Time) {
    && l.Begin? && l.headers == h && l.now == now
    && Genuine(mac, c, h, l.body, now, l.usable)
  }

  ghost predicate Begun(mac: W.Mac, c: Config, labels: seq<Label>, h: W.Headers, now: Time) {
    exists n :: 0 <= n < |labels| && From(mac, c, labels[n], h, now)
  }

  ghost predicate AllBegun(mac: W.Mac, c: Config, labels: seq<Label>, s: State) {
    && (forall id :: id in s.calls ==> Begun(mac, c, labels, s.calls[id].headers, s.calls[id].now))
    && (forall i :: 0 <= i < |s.accepted| ==> Begun(mac, c, labels, s.accepted[i].headers, s.accepted[i].now))
  }

  lemma BegunStays(mac: W.Mac, c: Config, labels: seq<Label>, l: Label, h: W.Headers, now: Time)
    requires Begun(mac, c, labels, h, now)
    ensures Begun(mac, c, labels + [l], h, now)
  {
    hide From;
    var n :| 0 <= n < |labels| && From(mac, c, labels[n], h, now);
    assert (labels + [l])[n] == labels[n];
  }

  /** What is new after a step was in flight before, or begins with it. */
  lemma StepNews(mac: W.Mac, c: Config, s: State, l: Label)
    ensures var s' := Step(mac, c, s, l);
            && (forall id :: id in s'.calls ==>
                  || (id in s.calls && s'.calls[id] == s.calls[id])
                  || (&& l.Begin? && Admissible(mac, c, s.receipts, l.headers, l.body, l.now, l.usable)
                      && s'.calls[id] == Checked(l.headers, l.now)))
            && (|| s'.accepted == s.accepted
                || (&& l.Commit? && l.id in s.calls
                    && s'.accepted == s.accepted + [Acceptance(s.calls[l.id].headers, s.calls[l.id].now)]))
  {
    hide Admissible, Committed;
  }

  lemma FirstBegun(mac: W.Mac, c: Config, labels: seq<Label>, receipts: Receipts, l: Label)
    requires l.Begin? && Admissible(mac, c, receipts, l.headers, l.body, l.now, l.usable)
    ensures Begun(mac, c, labels + [l], l.headers, l.now)
  {
    AdmissibleIff(mac, c, receipts, l.headers, l.body, l.now, l.usable);
    hide Admissible, Genuine;
    assert (labels + [l])[|labels|] == l;
    assert From(mac, c, (labels + [l])[|labels|], l.headers, l.now);
  }

  lemma StepBegun(mac: W.Mac, c: Config, labels: seq<Label>, s: State, l: Label)
    requires AllBegun(mac, c, labels, s)
    ensures AllBegun(mac, c, labels + [l], Step(mac, c, s, l))
  {
    hide Step, Begun, Admissible;
    StepNews(mac, c, s, l);
    if l.Begin? && Admissible(mac, c, s.receipts, l.headers, l.body, l.now, l.usable) {
      FirstBegun(mac, c, labels, s.receipts, l);
    }
    var s', all := Step(mac, c, s, l), labels + [l];
    forall id | id in s'.calls ensures Begun(mac, c, all, s'.calls[id].headers, s'.calls[id].now) {
      if id in s.calls && s'.calls[id] == s.calls[id] {
        BegunStays(mac, c, labels, l, s.calls[id].headers, s.calls[id].now);
      }
    }
    forall i | 0 <= i < |s'.accepted| ensures Begun(mac, c, all, s'.accepted[i].headers, s'.accepted[i].now) {
      BegunStays(mac, c, labels, l, s'.accepted[i].headers, s'.accepted[i].now);
    }
  }

  lemma {:induction false} RunBegun(mac: W.Mac, c: Config, labels: seq<Label>)
    ensures AllBegun(mac, c, labels, Run(mac, c, labels))
  {
    hide Step, Begun;
    if labels != [] {
      var init, l := labels[..|labels| - 1], labels[|labels| - 1];
      RunBegun(mac, c, init);
      hide AllBegun;
      StepBegun(mac, c, init, Run(mac, c, init), l);
      assert init + [l] == labels;
    }
  }

  /** In every schedule an accepted alert was a genuine request of that schedule, with
      the headers and at the time it was accepted for. */
  lemma {:induction false} AcceptedWasGenuine(mac: W.Mac, c: Config, labels: seq<Label>, i: nat)
    requires i < |Run(mac, c, labels).accepted|
    ensures var a := Run(mac, c, labels).accepted[i];
            exists n :: && 0 <= n < |labels|
                        && labels[n].Begin? && labels[n].headers == a.headers && labels[n].now == a.now
                        && Genuine(mac, c, a.headers, labels[n].body, a.now, labels[n].usable)
  {
    RunBegun(mac, c, labels);
    hide Run, Genuine;
    var a := Run(mac, c, labels).accepted[i];
    assert Begun(mac, c, labels, a.headers, a.now);
    var n :| 0 <= n < |labels| && From(mac, c, labels[n], a.headers, a.now);
  }

  /** Undisturbed, a request is accepted exactly when it is genuine and no receipt of
      its id is live; then expired receipts go and its own is kept for the
      retention, and otherwise nothing changes. */
  lemma AcceptedIff(mac: W.Mac, c: Config, s: State, id: nat, h: W.Headers, body: string, now: Time, usable: bool)
    requires id !in s.calls && Readable(s.receipts)
    ensures var s' := Step(mac, c, Step(mac, c, s, Begin(id, h, body, now, usable)), Commit(id));
            if Genuine(mac, c, h, body, now, usable) && (h.id in s.receipts ==> s.receipts[h.id] <= now) then
              && s'.calls == s.calls && s'.accepted == s.accepted + [Acceptance(h, now)]
              && h.id in s'.receipts && s'.receipts[h.id] == now + c.retention
              && (forall k :: k != h.id ==> (k in s'.receipts <==> k in s.receipts && s.receipts[k] > now))
              && (forall k :: k != h.id && k in s'.receipts ==> s'.receipts[k] == s.receipts[k])
            else s' == s
  {
    AdmissibleIff(mac, c, s.receipts, h, body, now, usable);
    hide Admissible, Genuine;
    var s1 := Step(mac, c, s, Begin(id, h, body, now, usable));
    assert id in s1.calls ==> s1.calls - {id} == s.calls;
  }
}
