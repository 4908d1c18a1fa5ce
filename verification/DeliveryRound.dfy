/** What one uninterrupted delivery round does to the whole queue. */
module DeliveryRound {
  import opened Text
  import opened Contract
  import opened Delivery
  import opened Outbox
  import Audit
  import W = Webhook

  /** The item after a round: its outcome if it was due, itself otherwise. */
  function After(l: Limits, i: Item, now: Time, reply: Reply): Item {
    if i.state != Waiting then i
    else match Due(l, i, now, reply)
      case None => i
      case Some(a) => Outcome(i, a)
  }

  ghost predicate VisitedUpTo(l: Limits, b: Books, b': Books, items: seq<Item>, n: nat, now: Time,
                              replies: string -> Reply) {
    && n <= |items| && b'.queue.Keys == b.queue.Keys
    && (forall i :: 0 <= i < n ==>
          items[i].deliveryID in b'.queue
          && b'.queue[items[i].deliveryID] == After(l, items[i], now, replies(items[i].deliveryID)))
    && (forall id :: id in b.queue && (forall i :: 0 <= i < n ==> items[i].deliveryID != id) ==>
          b'.queue[id] == b.queue[id])
  }

  lemma VisitNext(l: Limits, b: Books, b': Books, items: seq<Item>, n: nat, now: Time,
                  replies: string -> Reply, auditIDs: string -> string)
    requires ValidLimits(l) && QueueOK(l, b.queue) && Listed(b.queue, items) && n < |items|
    requires VisitedUpTo(l, b, b', items, n, now, replies)
    requires Visited(l, b', items[n], now, replies, auditIDs).error == None
    ensures VisitedUpTo(l, b, Visited(l, b', items[n], now, replies, auditIDs).books, items, n + 1, now, replies)
  {
    hide Visited, After;
    assert ItemOK(l, items[n].deliveryID, items[n]);
    hide QueueOK, ItemOK;
    assert b'.queue[items[n].deliveryID] == items[n];
    VisitOne(l, b', items[n], now, replies, auditIDs);
    ReplaceNext(l, b, b', Visited(l, b', items[n], now, replies, auditIDs).books, items, n, now, replies);
  }

  lemma ReplaceNext(l: Limits, b: Books, b': Books, b2: Books, items: seq<Item>, n: nat, now: Time,
                    replies: string -> Reply)
    requires VisitedUpTo(l, b, b', items, n, now, replies) && n < |items| && items[n].deliveryID in b.queue
    requires forall i, k :: 0 <= i < k < |items| ==> items[i].deliveryID != items[k].deliveryID
    requires b2.queue == b'.queue[items[n].deliveryID := After(l, items[n], now, replies(items[n].deliveryID))]
    ensures VisitedUpTo(l, b, b2, items, n + 1, now, replies)
  {
    hide After;
    assert b2.queue.Keys == b.queue.Keys;
  }

  lemma VisitOne(l: Limits, b: Books, item: Item, now: Time, replies: string -> Reply, auditIDs: string -> string)
    requires ValidLimits(l) && ItemOK(l, item.deliveryID, item) && item.state == Waiting
    requires item.deliveryID in b.queue && b.queue[item.deliveryID] == item
    requires Visited(l, b, item, now, replies, auditIDs).error == None
    ensures Visited(l, b, item, now, replies, auditIDs).books.queue
         == b.queue[item.deliveryID := After(l, item, now, replies(item.deliveryID))]
  {
    var reply := replies(item.deliveryID);
    if Due(l, item, now, reply).Some? {
      SettledOutcome(l, b, item, now, reply, auditIDs(item.deliveryID));
    } else {
      assert b.queue[item.deliveryID := item] == b.queue;
    }
    hide Due, Settled, ItemOK, Outcome;
  }

  lemma {:induction false} RoundPrefix(l: Limits, b: Books, items: seq<Item>, n: nat, now: Time,
                                       replies: string -> Reply, auditIDs: string -> string)
    requires ValidLimits(l) && QueueOK(l, b.queue) && Listed(b.queue, items) && n <= |items|
    requires Rounded(l, b, items[..n], now, replies, auditIDs).error == None
    ensures VisitedUpTo(l, b, Rounded(l, b, items[..n], now, replies, auditIDs).books, items, n, now, replies)
  {
    hide Visited, QueueOK, Listed, After, VisitedUpTo;
    if n == 0 {
      NothingVisited(l, b, items, now, replies);
    } else {
      assert items[..n][..n - 1] == items[..n - 1];
      RoundPrefix(l, b, items, n - 1, now, replies, auditIDs);
      VisitNext(l, b, Rounded(l, b, items[..n - 1], now, replies, auditIDs).books, items, n - 1, now, replies,
          auditIDs);
    }
  }

  lemma NothingVisited(l: Limits, b: Books, items: seq<Item>, now: Time, replies: string -> Reply)
    ensures VisitedUpTo(l, b, b, items, 0, now, replies)
  {
  }

  /** What becomes of a waiting item at time `now`. An item due before its expiry is
      sent: with a 2xx answer it is delivered; otherwise it is given up at its last
      attempt, expires if the doubled and capped delay reaches its expiry, and is
      due again after that delay if not. An expired item times out unsent, and an
      item that is not due stays as it is. */
  predicate Fate(l: Limits, i: Item, i': Item, now: Time, ok: bool)
    requires i.attempts >= 0
  {
    var due := i.nextAt <= now < i.expiresAt;
    var last := i.attempts + 1 >= l.maxAttempts;
    var next := now + Min(l.initialBackoff * Pow2(i.attempts), l.maxBackoff);
    var again := due && !ok && !last && next < i.expiresAt;
    && (i'.state == Delivered <==> due && ok)
    && (i'.state == GivenUp <==> due && !ok && last)
    && (i'.state == TimedOut <==> now >= i.expiresAt || (due && !ok && !last && next >= i.expiresAt))
    && i'.attempts == i.attempts + (if (due && ok) || again then 1 else 0)
    && i'.nextAt == (if again then next else i.nextAt)
    && i' == i.(attempts := i'.attempts, nextAt := i'.nextAt, state := i'.state)
  }

  lemma FateIs(l: Limits, i: Item, now: Time, reply: Reply)
    requires i.state == Waiting && ValidItem(i)
    ensures Fate(l, i, After(l, i, now, reply), now, reply == Answered2xx)
  {
    hide Pow2;
  }

  /** A round without an error gives every waiting item its fate exactly once,
      whatever the order it visits them in, and touches nothing else. */
  lemma {:induction false} RoundExact(l: Limits, b: Books, items: seq<Item>, now: Time, replies: string -> Reply,
                                      auditIDs: string -> string)
    requires ValidLimits(l) && QueueOK(l, b.queue) && Listed(b.queue, items)
    requires Rounded(l, b, items, now, replies, auditIDs).error == None
    ensures var queue := Rounded(l, b, items, now, replies, auditIDs).books.queue;
            && queue.Keys == b.queue.Keys
            && forall id :: id in queue ==>
                 if b.queue[id].state == Waiting then
                   b.queue[id].attempts >= 0 && Fate(l, b.queue[id], queue[id], now, replies(id) == Answered2xx)
                 else queue[id] == b.queue[id]
  {
    assert items[..|items|] == items;
    assert forall id :: id in b.queue ==> ItemOK(l, id, b.queue[id]) && b.queue[id].deliveryID == id;
    RoundPrefix(l, b, items, |items|, now, replies, auditIDs);
    hide QueueOK, Rounded, Due, Outcome, Fate;
    var queue := Rounded(l, b, items, now, replies, auditIDs).books.queue;
    forall id | id in queue
      ensures queue[id] == After(l, b.queue[id], now, replies(id))
      ensures b.queue[id].state == Waiting ==>
                ValidItem(b.queue[id]) && Fate(l, b.queue[id], queue[id], now, replies(id) == Answered2xx)
    {
      assert ItemOK(l, id, b.queue[id]);
      if b.queue[id].state == Waiting {
        var i :| 0 <= i < |items| && items[i] == b.queue[id];
        assert queue[items[i].deliveryID] == After(l, items[i], now, replies(items[i].deliveryID));
        FateIs(l, items[i], now, replies(id));
      } else {
        assert forall i :: 0 <= i < |items| ==> items[i].deliveryID != id;
      }
    }
  }

  /** After its attempt number `attempts + 1` failed at `now`, an item is sent again
      exactly from `now` plus the doubled and capped delay on, and before its
      expiry. */
  lemma BackoffBetweenAttempts(l: Limits, i: Item, now: Time, reply: Reply, later: Time, reply': Reply)
    requires ValidLimits(l) && i.attempts >= 0
    requires Due(l, i, now, reply).Some? && Due(l, i, now, reply).value.Reschedule?
    ensures var i' := Outcome(i, Due(l, i, now, reply).value);
            var wait := Min(l.initialBackoff * Pow2(i.attempts), l.maxBackoff);
            && i'.attempts == i.attempts + 1
            && ((Due(l, i', later, reply').Some? && later < i'.expiresAt) <==> now + wait <= later < i.expiresAt)
  {
    hide Pow2;
  }

  /* ---- A limit that is not enforced ---- */

  const UNFIT: string := "a b"
  const ONE_ATTEMPT := Limits(1, 1, MILLISECOND, MILLISECOND, {"d"})
  const SENT_AT: Time := (W.EPOCH + 1) * SECOND
  const LAST_CHANCE := Item(UNFIT, LifecyclePayload, Given("e"), "w", "d", 0, SENT_AT, SENT_AT + SECOND, Waiting)

  lemma UnfitID()
    ensures ValidToken(UNFIT, MAX_REF) && !Audit.ValidField(UNFIT)
  {
    assert UNFIT[1] == ' ' && !Audit.IsAuditChar(' ');
  }

  /** The queue accepts the item, since its ID is a valid token. */
  lemma UnfitIsQueued()
    ensures var q := Request(LifecyclePayload, Given("e"), "d", SENT_AT + SECOND);
            NewItem(ONE_ATTEMPT, q, Draws(SENT_AT, UNFIT, "w")) == Some(LAST_CHANCE)
    ensures Accepted(ONE_ATTEMPT, map[], LAST_CHANCE) == Ok(map[UNFIT := LAST_CHANCE])
  {
    UnfitID();
    assert ValidToken("e", MAX_REF) && ValidToken("d", MAX_DESTINATION) && W.ValidMessageID("w");
    hide ValidToken, W.ValidMessageID, Audit.ValidField;
    assert WaitingIDs(map[]) == {};
  }

  /** One attempt is allowed. Yet whenever a round comes to the item before its expiry
      and the send fails, the item is left as it was, due to be sent again: the
      number of sends has no bound. */
  lemma {:induction false} SentWithoutLimit(audit: Audit.Bucket, now: Time, replies: string -> Reply,
                                            auditIDs: string -> string)
    requires SENT_AT <= now < SENT_AT + SECOND && replies(UNFIT) != Answered2xx
    ensures var b := Books(map[UNFIT := LAST_CHANCE], audit);
            var round := Rounded(ONE_ATTEMPT, b, [LAST_CHANCE], now, replies, auditIDs);
            && round.books == b && round.error.Some?
            && Due(ONE_ATTEMPT, LAST_CHANCE, now, replies(UNFIT)) == Some(End(GivenUp, "attempts_exhausted"))
  {
    UnfitID();
    var b := Books(map[UNFIT := LAST_CHANCE], audit);
    assert ItemOK(ONE_ATTEMPT, UNFIT, LAST_CHANCE);
    hide ItemOK, Audit.ValidField;
    SettledOutcome(ONE_ATTEMPT, b, LAST_CHANCE, now, replies(UNFIT), auditIDs(UNFIT));
    hide Settled, Audit.ReadChain, Audit.Appended;
    assert [LAST_CHANCE][..0] == [];
    assert Rounded(ONE_ATTEMPT, b, [], now, replies, auditIDs) == Progress(b, None);
  }
}
