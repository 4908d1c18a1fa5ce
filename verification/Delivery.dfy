/** The delivery queue: bounded enqueue, capped exponential backoff, and the
    transactions that record one processed item. */
module Delivery {
  import opened Text
  import opened Contract
  import Audit
  import W = Webhook

  const MAX_REF: nat := 256
  const MAX_DESTINATION: nat := 128
  const MAX_QUEUE: nat := 10_000
  const MAX_ATTEMPTS: nat := 32
  const MILLISECOND: int := 1_000_000

  /** The aggregate type of the delivery events in the audit chain. */
  const AGGREGATE: string := "delivery"

  /* ---- Backoff ---- */

  newtype int64 = x: int | -0x8000_0000_0000_0000 <= x < 0x8000_0000_0000_0000

  function Pow2(n: nat): (p: nat)
    ensures p >= 1
  {
    if n == 0 then 1 else 2 * Pow2(n - 1)
  }

  function Min(a: int, b: int): int {
    if a < b then a else b
  }

  /** The delay before retry `attempt`. */
  function Delay(initial: int, cap: int, attempt: int): int {
    if attempt < 1 then initial else Min(initial * Pow2(attempt - 1), cap)
  }

  lemma {:induction false} Pow2Doubles(initial: int, n: nat, m: nat)
    requires initial > 0 && n <= m
    ensures initial * Pow2(n) <= initial * Pow2(m)
    decreases m - n
  {
    if n < m {
      assert initial * Pow2(n + 1) == 2 * (initial * Pow2(n));
      Pow2Doubles(initial, n + 1, m);
    }
  }

  /** The loop on 64-bit durations: it never overflows and returns the closed form. */
  method Backoff(initial: int64, cap: int64, attempt: int64) returns (delay: int64)
    requires 0 < initial <= cap
    ensures delay as int == Delay(initial as int, cap as int, attempt as int)
  {
    if attempt < 1 {
      return initial;
    }
    var backoff := initial;
    var retry: int64 := 1;
    while retry < attempt && backoff < cap
      invariant 1 <= retry <= attempt && 0 < backoff <= cap
      invariant backoff as int == initial as int * Pow2(retry as int - 1)
    {
      if backoff > cap / 2 {
        Pow2Doubles(initial as int, retry as int, attempt as int - 1);
        assert initial as int * Pow2(retry as int) == 2 * (backoff as int);
        return cap;
      }
      backoff := backoff * 2;
      retry := retry + 1;
    }
    if retry < attempt {
      Pow2Doubles(initial as int, retry as int - 1, attempt as int - 1);
    }
    delay := if backoff < cap then backoff else cap;
  }

  /** Delays never shrink from one attempt to the next, and stay within the cap. */
  lemma DelayMonotone(initial: int, cap: int, a: int, b: int)
    requires 0 < initial <= cap && a <= b
    ensures initial <= Delay(initial, cap, a) <= Delay(initial, cap, b) <= cap
  {
    if a >= 1 {
      Pow2Doubles(initial, 0, a - 1);
      Pow2Doubles(initial, a - 1, b - 1);
    } else if b >= 1 {
      Pow2Doubles(initial, 0, b - 1);
    }
  }

  /* ---- Queue items ---- */

  datatype PayloadType = LifecyclePayload | ReportPayload

  /** A reference given outright, or a prefix with the SHA-256 of an identity,
      idealised as injective. */
  datatype Ref = Given(name: string) | Digested(prefix: string, identity: string)

  predicate ValidRef(r: Ref, limit: nat) {
    r.Given? ==> ValidToken(r.name, limit)
  }

  datatype ItemState = Waiting | Delivered | TimedOut | GivenUp

  datatype Item = Item(
    deliveryID: string, payloadType: PayloadType, ref: Ref, webhookID: string, destination: string,
    attempts: int, nextAt: Time, expiresAt: Time, state: ItemState)

  /** Delivery ID to item: the hashed key is idealised as its ID. */
  type Queue = map<string, Item>

  datatype Limits = Limits(
    maxItems: int, maxAttempts: int, initialBackoff: int, maxBackoff: int, destinations: set<string>)

  predicate ValidLimits(l: Limits) {
    && 1 <= l.maxItems <= MAX_QUEUE
    && 1 <= l.maxAttempts <= MAX_ATTEMPTS
    && MILLISECOND <= l.initialBackoff <= l.maxBackoff
  }

  datatype Request = Request(payloadType: PayloadType, ref: Ref, destination: string, expiresAt: Time)

  datatype Draws = Draws(now: Time, deliveryID: string, webhookID: string)

  datatype Error = InvalidRequest | QueueFull | Conflict | CorruptQueue | AuditRefused

  predicate ValidItem(i: Item) {
    && i.deliveryID != ""
    && (i.ref.Given? ==> i.ref.name != "")
    && i.webhookID != ""
    && i.destination != ""
    && i.attempts >= 0
    && i.nextAt != ZERO_TIME
    && i.expiresAt != ZERO_TIME
    && i.expiresAt > i.nextAt
  }

  predicate Readable(queue: Queue) {
    forall id :: id in queue ==> ValidItem(queue[id])
  }

  /** Every item is valid and sits under its own key. */
  predicate Filed(queue: Queue) {
    Readable(queue) && forall id :: id in queue ==> queue[id].deliveryID == id
  }

  function WaitingIDs(queue: Queue): set<string> {
    set id | id in queue && queue[id].state == Waiting
  }

  predicate WebhookInUse(queue: Queue, webhookID: string) {
    exists id :: id in queue && queue[id].webhookID == webhookID
  }

  /** The item a request asks for; `None` when the request is refused before the
      transaction. */
  function NewItem(l: Limits, q: Request, d: Draws): Option<Item> {
    if !ValidRef(q.ref, MAX_REF) || !ValidToken(q.destination, MAX_DESTINATION) || q.expiresAt == ZERO_TIME
      || q.destination !in l.destinations || d.now == ZERO_TIME || d.now >= q.expiresAt
      || !ValidToken(d.deliveryID, MAX_REF) || !W.ValidMessageID(d.webhookID) || W.Unix(d.now) < 0 then None
    else Some(Item(d.deliveryID, q.payloadType, q.ref, d.webhookID, q.destination, 0, d.now, q.expiresAt, Waiting))
  }

  function Accepted(l: Limits, queue: Queue, item: Item): Result<Queue, Error> {
    if !Readable(queue) then Err(CorruptQueue)
    else if |WaitingIDs(queue)| >= l.maxItems then Err(QueueFull)
    else if item.deliveryID in queue || WebhookInUse(queue, item.webhookID) then Err(Conflict)
    else if !ValidItem(item) then Err(CorruptQueue)
    else Ok(queue[item.deliveryID := item])
  }

  /** A request is queued under these draws: it names a payload and an allowed
      destination, has not expired, the drawn IDs are well formed and new, and the
      queue is readable and has room. */
  ghost predicate CanQueue(l: Limits, queue: Queue, q: Request, d: Draws) {
    && ValidRef(q.ref, MAX_REF)
    && ValidToken(q.destination, MAX_DESTINATION) && q.destination in l.destinations
    && q.expiresAt != ZERO_TIME && d.now != ZERO_TIME && d.now < q.expiresAt && W.Unix(d.now) >= 0
    && ValidToken(d.deliveryID, MAX_REF) && d.deliveryID !in queue
    && W.ValidMessageID(d.webhookID) && (forall id :: id in queue ==> queue[id].webhookID != d.webhookID)
    && Readable(queue)
    && |WaitingIDs(queue)| < l.maxItems
  }

  /** That is exactly when the transaction adds an item, which waits at once with no
      attempt behind it. */
  lemma QueuedIff(l: Limits, queue: Queue, q: Request, d: Draws)
    ensures (NewItem(l, q, d).Some? && Accepted(l, queue, NewItem(l, q, d).value).Ok?) <==> CanQueue(l, queue, q, d)
    ensures CanQueue(l, queue, q, d) ==>
              Accepted(l, queue, NewItem(l, q, d).value).value ==
              queue[d.deliveryID := Item(d.deliveryID, q.payloadType, q.ref, d.webhookID, q.destination,
                                         0, d.now, q.expiresAt, Waiting)]
  {
    hide Readable;
  }

  /* ---- Processing one item ---- */

  datatype Reply = Answered2xx | PayloadUnavailable | EndpointFailed

  /** What a processed item is to become. */
  datatype Action =
    | MarkDelivered
    | Reschedule(attempts: int, nextAt: Time)
    | End(state: ItemState, reason: string)

  function RetryOrFail(l: Limits, item: Item, now: Time): Action {
    if item.attempts + 1 >= l.maxAttempts then End(GivenUp, "attempts_exhausted")
    else
      var nextAt := now + Delay(l.initialBackoff, l.maxBackoff, item.attempts + 1);
      if nextAt >= item.expiresAt then End(TimedOut, "expired") else Reschedule(item.attempts + 1, nextAt)
  }

  /** An item past its expiry is ended without a send; `None` is not due yet. */
  function Due(l: Limits, item: Item, now: Time, reply: Reply): Option<Action> {
    if now >= item.expiresAt then Some(End(TimedOut, "expired"))
    else if now < item.nextAt then None
    else if reply == Answered2xx then Some(MarkDelivered)
    else Some(RetryOrFail(l, item, now))
  }

  datatype Books = Books(queue: Queue, audit: Audit.Bucket)

  function FailureEvent(id: string, auditID: string, now: Time, reason: string): Audit.Event {
    Audit.Event(
      Audit.Fields(V1, auditID, AGGREGATE, Audit.Named(id), "system", "delivery.failed", "failed", reason, now),
      Audit.NoDigest, Audit.NoDigest)
  }

  function Put(b: Books, item: Item): Result<Books, Error> {
    if !ValidItem(item) then Err(CorruptQueue) else Ok(b.(queue := b.queue[item.deliveryID := item]))
  }

  /** The transaction that records an action on the item as it is now. */
  function Settled(b: Books, id: string, action: Action, now: Time, auditID: string): Result<Books, Error> {
    if action.End? && !ValidToken(auditID, MAX_REF) then Err(InvalidRequest)
    else if id !in b.queue || !ValidItem(b.queue[id]) || b.queue[id].deliveryID != id then Err(CorruptQueue)
    else
      var item := b.queue[id];
      match action
      case MarkDelivered =>
        if item.state == Delivered then Ok(b)
        else if item.state != Waiting || now >= item.expiresAt then Err(CorruptQueue)
        else Put(b, item.(attempts := item.attempts + 1, state := Delivered))
      case Reschedule(attempts, nextAt) =>
        if item.state != Waiting then Err(CorruptQueue) else Put(b, item.(attempts := attempts, nextAt := nextAt))
      case End(state, reason) =>
        if item.state == state then Ok(b)
        else if item.state != Waiting then Err(CorruptQueue)
        else Ended(b, id, item, state, now, reason, auditID)
  }

  /** The change and its audit event commit together. */
  function Ended(b: Books, id: string, item: Item, state: ItemState, now: Time, reason: string, auditID: string)
    : Result<Books, Error>
  {
    match Audit.Appended(b.audit, FailureEvent(id, auditID, now, reason))
    case Err(_) => Err(AuditRefused)
    case Ok(audit) => Put(b.(audit := audit), item.(state := state))
  }

  /* ---- A whole round ---- */

  datatype Progress = Progress(books: Books, error: Option<Error>)

  /** The items one after the other, up to the first error. */
  function Rounded(l: Limits, b: Books, items: seq<Item>, now: Time,
                   replies: string -> Reply, auditIDs: string -> string): Progress
  {
    if items == [] then Progress(b, None)
    else
      var before := Rounded(l, b, items[..|items| - 1], now, replies, auditIDs);
      if before.error.Some? then before
      else Visited(l, before.books, items[|items| - 1], now, replies, auditIDs)
  }

  function Visited(l: Limits, b: Books, item: Item, now: Time,
                   replies: string -> Reply, auditIDs: string -> string): Progress
  {
    match Due(l, item, now, replies(item.deliveryID))
    case None => Progress(b, None)
    case Some(action) =>
      match Settled(b, item.deliveryID, action, now, auditIDs(item.deliveryID))
      case Err(e) => Progress(b, Some(e))
      case Ok(b') => Progress(b', None)
  }

  lemma {:induction false} ErrorEnds(l: Limits, b: Books, items: seq<Item>, n: nat, now: Time,
                                     replies: string -> Reply, auditIDs: string -> string)
    requires n <= |items| && Rounded(l, b, items[..n], now, replies, auditIDs).error.Some?
    ensures Rounded(l, b, items, now, replies, auditIDs) == Rounded(l, b, items[..n], now, replies, auditIDs)
  {
    hide Visited;
    if n == |items| {
      assert items[..n] == items;
    } else {
      assert items[..|items| - 1][..n] == items[..n];
      ErrorEnds(l, b, items[..|items| - 1], n, now, replies, auditIDs);
    }
  }

  lemma NoneCounted(queue: Queue)
    ensures WaitingIDs(queue) - queue.Keys == {}
  {
  }

  lemma OneCounted(queue: Queue, rest: set<string>, id: string)
    requires id in rest && id in queue
    ensures |WaitingIDs(queue) - (rest - {id})| ==
            |WaitingIDs(queue) - rest| + if queue[id].state == Waiting then 1 else 0
  {
    if queue[id].state == Waiting {
      assert WaitingIDs(queue) - (rest - {id}) == WaitingIDs(queue) - rest + {id};
    } else {
      assert WaitingIDs(queue) - (rest - {id}) == WaitingIDs(queue) - rest;
    }
  }

  /* ---- The dispatcher in place ---- */

  class Dispatcher {
    const limits: Limits
    var queue: Queue
    var audit: Audit.Bucket

    constructor (limits: Limits)
      ensures this.limits == limits && queue == map[] && audit == map[]
    {
      this.limits := limits;
      queue, audit := map[], map[];
    }

    /** Counts the waiting items; fails on an unreadable one. */
    method CountPending() returns (r: Option<nat>)
      ensures r == if Readable(queue) then Some(|WaitingIDs(queue)|) else None
    {
      hide ValidItem;
      var pending := 0;
      var rest := queue.Keys;
      NoneCounted(queue);
      while rest != {}
        invariant rest <= queue.Keys
        invariant forall id :: id in queue && id !in rest ==> ValidItem(queue[id])
        invariant pending == |WaitingIDs(queue) - rest|
        decreases |rest|
      {
        var id :| id in rest;
        if !ValidItem(queue[id]) {
          return None;
        }
        OneCounted(queue, rest, id);
        rest := rest - {id};
        if queue[id].state == Waiting {
          pending := pending + 1;
        }
      }
      assert WaitingIDs(queue) - rest == WaitingIDs(queue);
      r := Some(pending);
    }

    method IsWebhookInUse(webhookID: string) returns (inUse: bool)
      ensures inUse <==> WebhookInUse(queue, webhookID)
    {
      inUse := false;
      var rest := queue.Keys;
      while rest != {}
        invariant rest <= queue.Keys
        invariant inUse <==> exists id :: id in queue && id !in rest && queue[id].webhookID == webhookID
        decreases |rest|
      {
        var id :| id in rest;
        if queue[id].webhookID == webhookID {
          inUse := true;
        }
        rest := rest - {id};
      }
    }

    method Enqueue(q: Request, d: Draws) returns (r: Result<Item, Error>)
      modifies this`queue
      ensures match NewItem(limits, q, d)
              case None => r == Err(InvalidRequest) && queue == old(queue)
              case Some(item) =>
                match Accepted(limits, old(queue), item)
                case Ok(after) => r == Ok(item) && queue == after
                case Err(e) => r == Err(e) && queue == old(queue)
    {
      hide ValidItem, ValidToken, W.ValidMessageID;
      var item := NewItem(limits, q, d);
      if item == None {
        return Err(InvalidRequest);
      }
      var pending := CountPending();
      if pending == None {
        return Err(CorruptQueue);
      }
      if pending.value >= limits.maxItems {
        return Err(QueueFull);
      }
      if item.value.deliveryID in queue {
        return Err(Conflict);
      }
      var inUse := IsWebhookInUse(item.value.webhookID);
      if inUse {
        return Err(Conflict);
      }
      if !ValidItem(item.value) {
        return Err(CorruptQueue);
      }
      queue := queue[item.value.deliveryID := item.value];
      r := Ok(item.value);
    }

    /** The waiting items, each once, in some order. */
    method PendingItems() returns (r: Option<seq<Item>>)
      ensures r.Some? <==> Filed(queue)
      ensures r.Some? ==> Listed(queue, r.value)
    {
      hide ValidItem;
      var items: seq<Item> := [];
      var rest := queue.Keys;
      while rest != {}
        invariant rest <= queue.Keys
        invariant forall id :: id in queue && id !in rest ==> ValidItem(queue[id]) && queue[id].deliveryID == id
        invariant forall i :: 0 <= i < |items| ==>
                    items[i].deliveryID in queue && items[i].deliveryID !in rest
                        && queue[items[i].deliveryID] == items[i]
                    && items[i].state == Waiting
        invariant forall i, k :: 0 <= i < k < |items| ==> items[i].deliveryID != items[k].deliveryID
        invariant forall id :: id in queue && id !in rest && queue[id].state == Waiting ==> queue[id] in items
        decreases |rest|
      {
        var id :| id in rest;
        if !ValidItem(queue[id]) || queue[id].deliveryID != id {
          return None;
        }
        if queue[id].state == Waiting {
          items := items + [queue[id]];
        }
        rest := rest - {id};
      }
      r := Some(items);
    }

    /** One round in isolation: every waiting item visited once, in some order. */
    method DeliverDue(now: Time, replies: string -> Reply, auditIDs: string -> string)
      returns (error: Option<Error>, ghost items: seq<Item>)
      modifies this`queue, this`audit
      ensures now == ZERO_TIME ==> error == Some(InvalidRequest) && queue == old(queue) && audit == old(audit)
      ensures now != ZERO_TIME && !old(Filed(queue)) ==>
                error == Some(CorruptQueue) && queue == old(queue) && audit == old(audit)
      ensures now != ZERO_TIME && old(Filed(queue)) ==>
                && Listed(old(queue), items)
                && Progress(Books(queue, audit), error)
                   == Rounded(limits, Books(old(queue), old(audit)), items, now, replies, auditIDs)
    {
      hide Visited, Filed, Listed;
      items := [];
      if now == ZERO_TIME {
        return Some(InvalidRequest), items;
      }
      var loaded := PendingItems();
      if loaded == None {
        return Some(CorruptQueue), items;
      }
      items := loaded.value;
      var todo := loaded.value;
      ghost var before := Books(queue, audit);
      for n := 0 to |todo|
        invariant Rounded(limits, before, todo[..n], now, replies, auditIDs) == Progress(Books(queue, audit), None)
      {
        assert todo[..n + 1][..n] == todo[..n];
        var step := Visited(limits, Books(queue, audit), todo[n], now, replies, auditIDs);
        assert Rounded(limits, before, todo[..n + 1], now, replies, auditIDs) == step;
        if step.error.Some? {
          VisitedError(limits, Books(queue, audit), todo[n], now, replies, auditIDs);
          ErrorEnds(limits, before, todo, n + 1, now, replies, auditIDs);
          return step.error, items;
        }
        queue, audit := step.books.queue, step.books.audit;
      }
      assert todo[..|todo|] == todo;
      error := None;
    }
  }

  /** A failed visit leaves everything as it was. */
  lemma VisitedError(l: Limits, b: Books, item: Item, now: Time, replies: string -> Reply, auditIDs: string -> string)
    requires Visited(l, b, item, now, replies, auditIDs).error.Some?
    ensures Visited(l, b, item, now, replies, auditIDs).books == b
  {
  }

  /** `items` are the waiting items of the queue, each exactly once. */
  ghost predicate Listed(queue: Queue, items: seq<Item>) {
    && (forall i :: 0 <= i < |items| ==>
          items[i].deliveryID in queue && queue[items[i].deliveryID] == items[i] && items[i].state == Waiting)
    && (forall i, k :: 0 <= i < k < |items| ==> items[i].deliveryID != items[k].deliveryID)
    && (forall id :: id in queue && queue[id].state == Waiting ==> queue[id] in items)
  }
}
