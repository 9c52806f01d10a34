/** Webhook deliveries: the first attempt, the retry ticks and the dead letters. */
module Webhook {
  import opened Options
  import opened Lists
  import opened Scopes
  import Backoff

  datatype DeliveryStatus = Pending | Delivered | Failed | Dlq

  datatype Event = Event(id: string, typ: string, scope: Scope)

  datatype Value = Text(text: string) | Number(n: int) | DeliveryId(id: nat) | Time(t: int) | EventBody(event: Event)

  /** What is kept and sent as a JSON object. */
  type Payload = map<string, Value>

  datatype Endpoint = Endpoint(id: string, scope: Scope, url: string, events: seq<string>, enabled: bool)

  datatype Delivery = Delivery(
    id: nat,
    webhookId: string,
    event: Event,
    targetUrl: string,
    status: DeliveryStatus,
    attemptNo: int,
    maxAttempts: int,
    nextRetryAt: Option<int>,
    statusCode: int,
    payload: Payload,
    createdAt: int,
    deliveredAt: Option<int>)

  /** An attempt ends without an answer, or with a status code. */
  datatype Reply = NoAnswer | Answer(code: int)

  /** The world's part in one attempt: the reply, and the clock before and after. */
  datatype Outcome = Outcome(reply: Reply, began: int, ended: int)

  // ---------------------------------------------------------------- what one attempt does

  function MarkFailed(d: Delivery, defaultMax: int, now: int): Delivery {
    var max := if d.maxAttempts <= 0 then defaultMax else d.maxAttempts;
    if d.attemptNo >= max then d.(maxAttempts := max, status := Dlq)
    else d.(maxAttempts := max, status := Failed, nextRetryAt := Some(now + Backoff.WebhookBackoff(d.attemptNo)))
  }

  /** The end of an attempt, the first or a later one. */
  function Settle(d: Delivery, defaultMax: int, o: Outcome): Delivery {
    match o.reply
    case NoAnswer => MarkFailed(d, defaultMax, o.ended)
    case Answer(code) =>
      if 200 <= code < 300 then d.(statusCode := code, status := Delivered, deliveredAt := Some(o.ended))
      else MarkFailed(d.(statusCode := code), defaultMax, o.ended)
  }

  function FirstPayload(evt: Event, now: int): Payload {
    map["type" := Text(evt.typ), "event" := EventBody(evt), "sent_at" := Time(now)]
  }

  function Deliver(e: Endpoint, evt: Event, id: nat, defaultMax: int, o: Outcome): Delivery {
    Settle(Delivery(id, e.id, evt, e.url, Pending, 1, defaultMax, None, 0, FirstPayload(evt, o.began), o.began, None),
           defaultMax, o)
  }

  /** The retry marks a payload it finds; an empty one is replaced for sending only. */
  function Stamp(p: Payload, id: nat, attemptNo: int): Payload {
    if p == map[] then p else p["delivery_id" := DeliveryId(id)]["retry_attempt" := Number(attemptNo)]
  }

  function Retry(d: Delivery, defaultMax: int, o: Outcome): Delivery {
    Settle(d.(attemptNo := d.attemptNo + 1, nextRetryAt := None, payload := Stamp(d.payload, d.id, d.attemptNo + 1)),
           defaultMax, o)
  }

  /** The i-th endpoint is the first with this id. */
  ghost predicate FirstWithId(endpoints: seq<Endpoint>, id: string, i: nat) {
    i < |endpoints| && endpoints[i].id == id && forall j :: 0 <= j < i ==> endpoints[j].id != id
  }

  function FindEndpoint(endpoints: seq<Endpoint>, id: string): (e: Option<Endpoint>)
    ensures e.Some? ==> exists i: nat :: FirstWithId(endpoints, id, i) && e.value == endpoints[i]
    ensures e.None? ==> forall i :: 0 <= i < |endpoints| ==> endpoints[i].id != id
  {
    var i := FirstIndex(endpoints, (x: Endpoint) => x.id == id);
    if i < |endpoints| then assert FirstWithId(endpoints, id, i); Some(endpoints[i]) else None
  }

  /** What a retry tick does with a due delivery. */
  function Process(d: Delivery, endpoints: seq<Endpoint>, defaultMax: int, o: Outcome): Delivery {
    var e := FindEndpoint(endpoints, d.webhookId);
    if e.None? || !e.value.enabled then d.(status := Dlq) else Retry(d, defaultMax, o)
  }

  // ---------------------------------------------------------------- attempts in fields

  /** How long attempt n keeps the next one waiting: min(2^(n-1), 64) minutes, in nanoseconds. */
  function Pause(n: int): int {
    Backoff.Min(Backoff.Pow2(if n <= 1 then 0 else n - 1), 64) * 60_000_000_000
  }

  /**
   * d as an attempt finds it, r as it leaves it: delivered by an answer from 200 to 299, dead if it was
   * the last attempt, and otherwise to be tried again after the pause.
   */
  ghost predicate EndsAs(d: Delivery, r: Delivery, M: int, o: Outcome) {
    var code := if o.reply.Answer? then o.reply.code else d.statusCode;
    var max := if d.maxAttempts > 0 then d.maxAttempts else M;
    if o.reply.Answer? && 200 <= o.reply.code <= 299 then
      r == d.(statusCode := code, status := Delivered, deliveredAt := Some(o.ended))
    else if d.attemptNo < max then
      r == d.(statusCode := code, maxAttempts := max, status := Failed,
              nextRetryAt := Some(o.ended + Pause(d.attemptNo)))
    else
      r == d.(statusCode := code, maxAttempts := max, status := Dlq)
  }

  /** r is the delivery of an event as its first attempt leaves it. */
  ghost predicate FirstAs(e: Endpoint, evt: Event, id: nat, r: Delivery, M: int, o: Outcome) {
    var payload := map["type" := Text(evt.typ), "event" := EventBody(evt), "sent_at" := Time(o.began)];
    EndsAs(Delivery(id, e.id, evt, e.url, Pending, 1, M, None, 0, payload, o.began, None), r, M, o)
  }

  /** r is d after one more attempt, which leaves its number and the delivery's id in a payload that was there. */
  ghost predicate RetriedAs(d: Delivery, r: Delivery, M: int, o: Outcome) {
    var marks := map["delivery_id" := DeliveryId(d.id), "retry_attempt" := Number(d.attemptNo + 1)];
    var payload := if d.payload == map[] then map[] else d.payload + marks;
    EndsAs(d.(attemptNo := d.attemptNo + 1, nextRetryAt := None, payload := payload), r, M, o)
  }

  /** r is d after a tick handled it: tried again if the first endpoint with its id is enabled, dead if not. */
  ghost predicate ProcessedAs(d: Delivery, r: Delivery, endpoints: seq<Endpoint>, M: int, o: Outcome) {
    if exists i: nat :: FirstWithId(endpoints, d.webhookId, i) && endpoints[i].enabled then RetriedAs(d, r, M, o)
    else r == d.(status := Dlq)
  }

  lemma SettleInFields(d: Delivery, M: int, o: Outcome)
    ensures EndsAs(d, Settle(d, M, o), M, o)
  {
    if d.attemptNo >= 1 {
      Backoff.WebhookBackoffIsCapped(d.attemptNo, d.attemptNo);
    } else {
      Backoff.WebhookBackoffIsCapped(1, 1);
    }
  }

  lemma ProcessInFields(d: Delivery, endpoints: seq<Endpoint>, M: int, o: Outcome)
    ensures ProcessedAs(d, Process(d, endpoints, M, o), endpoints, M, o)
  {
    var n := d.attemptNo + 1;
    var marks := map["delivery_id" := DeliveryId(d.id), "retry_attempt" := Number(n)];
    assert d.payload != map[] ==> Stamp(d.payload, d.id, n) == d.payload + marks;
    SettleInFields(d.(attemptNo := n, nextRetryAt := None, payload := Stamp(d.payload, d.id, n)), M, o);
  }

  // ---------------------------------------------------------------- what a dispatch does

  predicate Subscribed(e: Endpoint, typ: string) {
    e.events == [] || "*" in e.events || typ in e.events
  }

  predicate Addressed(e: Endpoint, evt: Event) {
    e.enabled && SameScope(e.scope, evt.scope) && Subscribed(e, evt.typ)
  }

  /** The endpoints an event goes to, in store order. */
  function Addressees(endpoints: seq<Endpoint>, evt: Event): seq<Endpoint> {
    if endpoints == [] then []
    else
      var last := endpoints[|endpoints| - 1];
      Addressees(endpoints[..|endpoints| - 1], evt) + if Addressed(last, evt) then [last] else []
  }

  /** The endpoints at `picked`, in order: the enabled ones of the scope that want this type, or every type. */
  ghost predicate GoesTo(endpoints: seq<Endpoint>, evt: Event, to: seq<Endpoint>, picked: seq<nat>) {
    && SelectsAt(endpoints, to, picked)
    && forall i: nat :: i < |endpoints| ==>
         var e := endpoints[i];
         i in picked <==> e.enabled && SameScope(e.scope, evt.scope) &&
                          (e.events == [] || "*" in e.events || evt.typ in e.events)
  }

  lemma GoesToNext(front: seq<Endpoint>, last: Endpoint, evt: Event, to: seq<Endpoint>, picked: seq<nat>)
    requires GoesTo(front, evt, to, picked)
    ensures if Addressed(last, evt) then GoesTo(front + [last], evt, to + [last], picked + [|front|])
            else GoesTo(front + [last], evt, to, picked)
  {
    SelectsNext(front, to, picked, last);
  }

  /** Every addressed endpoint once for each time it is stored, in store order, and no other. */
  lemma {:induction false} AddresseesExact(endpoints: seq<Endpoint>, evt: Event) returns (picked: seq<nat>)
    ensures GoesTo(endpoints, evt, Addressees(endpoints, evt), picked)
  {
    picked := [];
    if endpoints != [] {
      var front, last := endpoints[..|endpoints| - 1], endpoints[|endpoints| - 1];
      picked := AddresseesExact(front, evt);
      GoesToNext(front, last, evt, Addressees(front, evt), picked);
      assert endpoints == front + [last];
      picked := picked + if Addressed(last, evt) then [|front|] else [];
    }
  }

  function Deliveries(to: seq<Endpoint>, evt: Event, first: nat, defaultMax: int,
                      outcome: nat -> Outcome): (ds: seq<Delivery>)
    ensures |ds| == |to|
  {
    seq(|to|, k requires 0 <= k < |to| => Deliver(to[k], evt, first + k, defaultMax, outcome(k)))
  }

  /** One delivery for each of these endpoints, as its first attempt left it, with ids from `first` on. */
  ghost predicate SentTo(to: seq<Endpoint>, evt: Event, first: nat, out: seq<Delivery>, M: int,
                         outcome: nat -> Outcome)
  {
    |out| == |to| && forall k :: 0 <= k < |to| ==> FirstAs(to[k], evt, first + k, out[k], M, outcome(k))
  }

  ghost predicate DispatchesTo(endpoints: seq<Endpoint>, evt: Event, first: nat, out: seq<Delivery>, M: int,
                               outcome: nat -> Outcome)
  {
    exists to, picked :: GoesTo(endpoints, evt, to, picked) && SentTo(to, evt, first, out, M, outcome)
  }

  lemma DispatchInFields(endpoints: seq<Endpoint>, evt: Event, first: nat, M: int, outcome: nat -> Outcome)
    ensures DispatchesTo(endpoints, evt, first,
                         Deliveries(Addressees(endpoints, evt), evt, first, M, outcome), M, outcome)
  {
    var to := Addressees(endpoints, evt);
    var picked := AddresseesExact(endpoints, evt);
    var out := Deliveries(to, evt, first, M, outcome);
    forall k | 0 <= k < |to| ensures FirstAs(to[k], evt, first + k, out[k], M, outcome(k)) {
      var o := outcome(k);
      SettleInFields(Delivery(first + k, to[k].id, evt, to[k].url, Pending, 1, M, None, 0,
                              FirstPayload(evt, o.began), o.began, None), M, o);
    }
    assert GoesTo(endpoints, evt, to, picked) && SentTo(to, evt, first, out, M, outcome);
  }

  /** One more endpoint: its delivery, if it is addressed. */
  lemma DispatchGoesOn(endpoints: seq<Endpoint>, i: nat, evt: Event, first: nat, defaultMax: int,
                       outcome: nat -> Outcome)
    requires i < |endpoints|
    ensures var before := Deliveries(Addressees(endpoints[..i], evt), evt, first, defaultMax, outcome);
            Deliveries(Addressees(endpoints[..i + 1], evt), evt, first, defaultMax, outcome) ==
            before + if Addressed(endpoints[i], evt)
                     then [Deliver(endpoints[i], evt, first + |before|, defaultMax, outcome(|before|))] else []
  {
    assert endpoints[..i + 1][..i] == endpoints[..i];
  }

  // ---------------------------------------------------------------- what a tick does

  /** One tick: what it can see, its time, its limit if that is positive, and the outcomes in order. */
  datatype Batch = Batch(endpoints: seq<Endpoint>, defaultMax: int, now: int, max: int, outcome: nat -> Outcome)

  predicate Due(d: Delivery, now: int) {
    d.status == Failed && d.nextRetryAt.Some? && d.nextRetryAt.value <= now
  }

  function DueCount(items: seq<Delivery>, now: int): nat {
    if items == [] then 0 else DueCount(items[..|items| - 1], now) + if Due(items[|items| - 1], now) then 1 else 0
  }

  /** How many of the items a tick handles. */
  function Handled(items: seq<Delivery>, b: Batch): nat {
    if b.max <= 0 then DueCount(items, b.now) else Backoff.Min(b.max, DueCount(items, b.now))
  }

  /** The tick takes the i-th item: it is due, and fewer than `max` due items come before it. */
  predicate Takes(items: seq<Delivery>, b: Batch, i: nat)
    requires i < |items|
  {
    Due(items[i], b.now) && (b.max <= 0 || DueCount(items[..i], b.now) < b.max)
  }

  function TickItem(items: seq<Delivery>, b: Batch, i: nat): Delivery
    requires i < |items|
  {
    if Takes(items, b, i) then Process(items[i], b.endpoints, b.defaultMax, b.outcome(DueCount(items[..i], b.now)))
    else items[i]
  }

  function Tick(items: seq<Delivery>, b: Batch): (r: seq<Delivery>)
    ensures |r| == |items|
  {
    seq(|items|, i requires 0 <= i < |items| => TickItem(items, b, i))
  }

  /** The handled items, as they were left. */
  function Reported(items: seq<Delivery>, b: Batch, n: nat): seq<Delivery>
    requires n <= |items|
  {
    if n == 0 then []
    else Reported(items, b, n - 1) +
         if Takes(items, b, n - 1) then [TickItem(items, b, n - 1)] else []
  }

  lemma {:induction false} DueCountGrows(items: seq<Delivery>, now: int, i: nat, j: nat)
    requires i <= j <= |items|
    ensures DueCount(items[..i], now) <= DueCount(items[..j], now)
    decreases j
  {
    if i < j {
      DueCountStep(items, now, j - 1);
      DueCountGrows(items, now, i, j - 1);
    }
  }

  lemma DueCountStep(items: seq<Delivery>, now: int, i: nat)
    requires i < |items|
    ensures DueCount(items[..i + 1], now) == DueCount(items[..i], now) + if Due(items[i], now) then 1 else 0
  {
    assert items[..i + 1][..i] == items[..i];
  }

  lemma FullLeaves(items: seq<Delivery>, b: Batch, i: nat, k: nat)
    requires i <= k < |items| && 0 < b.max <= DueCount(items[..i], b.now)
    ensures !Takes(items, b, k)
  {
    DueCountGrows(items, b.now, i, k);
  }

  /** A full batch takes nothing more. */
  lemma FullTakesNoMore(items: seq<Delivery>, b: Batch, i: nat, j: nat)
    requires i <= j <= |items| && 0 < b.max <= DueCount(items[..i], b.now)
    ensures forall k :: i <= k < j ==> !Takes(items, b, k)
    ensures Reported(items, b, j) == Reported(items, b, i)
    decreases j
  {
    if i < j {
      FullLeaves(items, b, i, j - 1);
      FullTakesNoMore(items, b, i, j - 1);
    }
  }

  // ---------------------------------------------------------------- a tick in fields

  /** The tick handled the deliveries at `picked`, in store order: each had failed and its retry time had come. */
  ghost predicate HandlesDue(before: seq<Delivery>, after: seq<Delivery>, out: seq<Delivery>, picked: seq<nat>,
                             b: Batch)
  {
    && Increasing(picked) && |out| == |picked| && |after| == |before|
    && forall k :: 0 <= k < |picked| ==>
         && picked[k] < |before| && out[k] == after[picked[k]]
         && var d := before[picked[k]];
            && d.status == Failed && d.nextRetryAt.Some? && d.nextRetryAt.value <= b.now
            && ProcessedAs(d, out[k], b.endpoints, b.defaultMax, b.outcome(k))
  }

  /** The others stay as they were; one that was due is left only by a tick with a limit, used up before it. */
  ghost predicate LeavesRest(before: seq<Delivery>, after: seq<Delivery>, picked: seq<nat>, now: int, max: int) {
    && (max > 0 ==> |picked| <= max)
    && |after| == |before|
    && forall i: nat :: i < |before| && i !in picked ==>
         && after[i] == before[i]
         && (before[i].status == Failed && before[i].nextRetryAt.Some? && before[i].nextRetryAt.value <= now ==>
               max > 0 && |picked| == max && forall k :: 0 <= k < |picked| ==> picked[k] < i)
  }

  ghost predicate TicksTo(before: seq<Delivery>, after: seq<Delivery>, out: seq<Delivery>, b: Batch) {
    exists picked: seq<nat> ::
      HandlesDue(before, after, out, picked, b) && LeavesRest(before, after, picked, b.now, b.max)
  }

  /** The positions a tick takes among the first n. */
  function Picks(items: seq<Delivery>, b: Batch, n: nat): (picked: seq<nat>)
    requires n <= |items|
    ensures forall i: nat :: i in picked <==> i < n && Takes(items, b, i)
    ensures Increasing(picked)
  {
    if n == 0 then []
    else
      var before := Picks(items, b, n - 1);
      assert forall k :: 0 <= k < |before| ==> before[k] in before;
      before + if Takes(items, b, n - 1) then [n - 1] else []
  }

  lemma {:induction false} PicksAreDue(items: seq<Delivery>, b: Batch, n: nat)
    requires n <= |items|
    ensures var c, picked := DueCount(items[..n], b.now), Picks(items, b, n);
            |picked| == if b.max <= 0 then c else Backoff.Min(b.max, c)
    ensures var picked, out := Picks(items, b, n), Reported(items, b, n);
            |out| == |picked| && forall k :: 0 <= k < |picked| ==>
              && picked[k] < |items| && out[k] == TickItem(items, b, picked[k])
              && Takes(items, b, picked[k]) && DueCount(items[..picked[k]], b.now) == k
  {
    if n > 0 {
      PicksAreDue(items, b, n - 1);
      DueCountStep(items, b.now, n - 1);
      assert forall k :: 0 <= k < |Picks(items, b, n)| ==> Picks(items, b, n)[k] in Picks(items, b, n);
    }
  }

  lemma PicksHandleDue(items: seq<Delivery>, b: Batch)
    ensures HandlesDue(items, Tick(items, b), Reported(items, b, |items|), Picks(items, b, |items|), b)
  {
    PicksAreDue(items, b, |items|);
    var picked := Picks(items, b, |items|);
    forall k | 0 <= k < |picked|
      ensures picked[k] < |items| && ProcessedAs(items[picked[k]], Tick(items, b)[picked[k]], b.endpoints,
                                                 b.defaultMax, b.outcome(k))
    {
      assert picked[k] in picked;
      ProcessInFields(items[picked[k]], b.endpoints, b.defaultMax, b.outcome(k));
    }
  }

  /** Where a due item is left, the batch is full. */
  lemma LeftMeansFull(items: seq<Delivery>, b: Batch, i: nat)
    requires i < |items| && Due(items[i], b.now) && !Takes(items, b, i)
    ensures b.max > 0 && DueCount(items[..i], b.now) >= b.max && DueCount(items, b.now) >= b.max
    ensures forall j: nat :: j < |items| && Takes(items, b, j) ==> j < i
  {
    assert items[..|items|] == items;
    DueCountGrows(items, b.now, i, |items|);
    FullTakesNoMore(items, b, i, |items|);
  }

  lemma PicksLeaveRest(items: seq<Delivery>, b: Batch)
    ensures LeavesRest(items, Tick(items, b), Picks(items, b, |items|), b.now, b.max)
  {
    PicksAreDue(items, b, |items|);
    var picked := Picks(items, b, |items|);
    assert items[..|items|] == items;
    forall i: nat | i < |items| && Due(items[i], b.now) && i !in picked
      ensures b.max > 0 && |picked| == b.max && forall k :: 0 <= k < |picked| ==> picked[k] < i
    {
      LeftMeansFull(items, b, i);
      assert forall k :: 0 <= k < |picked| ==> picked[k] in picked;
    }
  }

  lemma TickInFields(items: seq<Delivery>, b: Batch)
    ensures TicksTo(items, Tick(items, b), Reported(items, b, |items|), b)
  {
    PicksHandleDue(items, b);
    PicksLeaveRest(items, b);
  }

  // ---------------------------------------------------------------- the service

  ghost predicate UniqueIds(items: seq<Delivery>) {
    forall i, j :: 0 <= i < j < |items| ==> items[i].id != items[j].id
  }

  function IndexOf(items: seq<Delivery>, id: nat): (i: nat)
    ensures i <= |items|
    ensures i < |items| ==> items[i].id == id
    ensures forall j :: 0 <= j < i ==> items[j].id != id
  {
    FirstIndex(items, (x: Delivery) => x.id == id)
  }

  function Put(items: seq<Delivery>, d: Delivery): seq<Delivery> {
    var i := IndexOf(items, d.id);
    if i < |items| then items[i := d] else items + [d]
  }

  /** The first delivery with this id is replaced; if there is none, the new one is added at the end. */
  lemma PutInFields(items: seq<Delivery>, d: Delivery)
    ensures (forall i :: 0 <= i < |items| ==> items[i].id != d.id) ==> Put(items, d) == items + [d]
    ensures forall i :: 0 <= i < |items| && items[i].id == d.id && (forall j :: 0 <= j < i ==> items[j].id != d.id) ==>
              Put(items, d) == items[i := d]
  {
    var k := IndexOf(items, d.id);
    forall i | 0 <= i < |items| && items[i].id == d.id && (forall j :: 0 <= j < i ==> items[j].id != d.id)
      ensures Put(items, d) == items[i := d]
    {
      assert i == k;
    }
  }

  lemma PutAt(items: seq<Delivery>, i: nat, d: Delivery)
    requires UniqueIds(items) && i < |items| && items[i].id == d.id
    ensures Put(items, d) == items[i := d]
  {
  }

  /** The state of the loop before its i-th item. */
  ghost predicate Ticked(items: seq<Delivery>, b: Batch, i: nat, current: seq<Delivery>, out: seq<Delivery>)
    requires i <= |items|
  {
    && |current| == |items|
    && (forall j :: 0 <= j < i ==> current[j] == TickItem(items, b, j))
    && (forall j :: i <= j < |items| ==> current[j] == items[j])
    && out == Reported(items, b, i)
    && |out| == DueCount(items[..i], b.now)
    && (b.max > 0 ==> |out| <= b.max)
  }

  lemma TickSkips(items: seq<Delivery>, b: Batch, i: nat, current: seq<Delivery>, out: seq<Delivery>)
    requires i < |items| && Ticked(items, b, i, current, out) && !Due(items[i], b.now)
    ensures Ticked(items, b, i + 1, current, out)
  {
    DueCountStep(items, b.now, i);
  }

  lemma TickedNext(items: seq<Delivery>, b: Batch, i: nat, current: seq<Delivery>, out: seq<Delivery>, d: Delivery)
    requires i < |items| && Ticked(items, b, i, current, out)
    requires Takes(items, b, i) && d == TickItem(items, b, i)
    ensures Ticked(items, b, i + 1, current[i := d], out + [d])
  {
    DueCountStep(items, b.now, i);
  }

  lemma TickTakes(items: seq<Delivery>, b: Batch, i: nat, current: seq<Delivery>, out: seq<Delivery>, d: Delivery)
    requires UniqueIds(items) && i < |items| && Ticked(items, b, i, current, out)
    requires Due(items[i], b.now) && (b.max <= 0 || |out| < b.max)
    requires d == Process(items[i], b.endpoints, b.defaultMax, b.outcome(|out|))
    ensures Ticked(items, b, i + 1, Put(current, d), out + [d])
  {
    TickedNext(items, b, i, current, out, d);
    assert forall j :: 0 <= j < |items| ==> current[j].id == items[j].id;
    PutAt(current, i, d);
  }

  lemma TickEnds(items: seq<Delivery>, b: Batch, i: nat, current: seq<Delivery>, out: seq<Delivery>)
    requires i <= |items| && Ticked(items, b, i, current, out) && (i == |items| || (b.max > 0 && |out| >= b.max))
    ensures current == Tick(items, b) && out == Reported(items, b, |items|) && |out| == Handled(items, b)
  {
    assert items[..|items|] == items;
    DueCountGrows(items, b.now, i, |items|);
    if i < |items| {
      FullTakesNoMore(items, b, i, |items|);
    }
  }

  class WebhookService {
    var endpoints: seq<Endpoint>
    var deliveries: seq<Delivery>
    var nextId: nat
    const maxAttempts: int

    constructor ()
      ensures endpoints == [] && deliveries == [] && nextId == 0 && maxAttempts == 5
    {
      endpoints, deliveries, nextId, maxAttempts := [], [], 0, 5;
    }

    method GetEndpointByID(id: string) returns (e: Option<Endpoint>)
      ensures e == FindEndpoint(endpoints, id)
    {
      for i := 0 to |endpoints|
        invariant forall j :: 0 <= j < i ==> endpoints[j].id != id
      {
        if endpoints[i].id == id {
          return Some(endpoints[i]);
        }
      }
      return None;
    }

    method UpdateDelivery(d: Delivery)
      modifies this`deliveries
      ensures deliveries == Put(old(deliveries), d)
    {
      for i := 0 to |deliveries|
        invariant deliveries == old(deliveries)
        invariant forall j :: 0 <= j < i ==> deliveries[j].id != d.id
      {
        if deliveries[i].id == d.id {
          deliveries := deliveries[i := d];
          return;
        }
      }
      deliveries := deliveries + [d];
    }

    method DispatchExecutionEvent(evt: Event, outcome: nat -> Outcome) returns (out: seq<Delivery>)
      modifies this`deliveries, this`nextId
      ensures out == Deliveries(Addressees(endpoints, evt), evt, old(nextId), maxAttempts, outcome)
      ensures deliveries == old(deliveries) + out
      ensures nextId == old(nextId) + |out|
      ensures DispatchesTo(endpoints, evt, old(nextId), out, maxAttempts, outcome)
    {
      out := [];
      for i := 0 to |endpoints|
        invariant endpoints == old(endpoints)
        invariant out == Deliveries(Addressees(endpoints[..i], evt), evt, old(nextId), maxAttempts, outcome)
        invariant deliveries == old(deliveries) + out
        invariant nextId == old(nextId) + |out|
      {
        var e := endpoints[i];
        DispatchGoesOn(endpoints, i, evt, old(nextId), maxAttempts, outcome);
        if !e.enabled || !SameScope(e.scope, evt.scope) || !Subscribed(e, evt.typ) {
          continue;
        }
        var d := Deliver(e, evt, nextId, maxAttempts, outcome(|out|));
        nextId := nextId + 1;
        deliveries := deliveries + [d];
        out := out + [d];
      }
      assert endpoints[..|endpoints|] == endpoints;
      DispatchInFields(endpoints, evt, old(nextId), maxAttempts, outcome);
    }

    /** A delivery whose endpoint is missing or disabled is given up. */
    method HandleDelivery(item: Delivery, o: Outcome) returns (r: Delivery)
      ensures r == Process(item, endpoints, maxAttempts, o)
    {
      var endpoint := GetEndpointByID(item.webhookId);
      if endpoint.None? || !endpoint.value.enabled {
        r := item.(status := Dlq);
      } else {
        r := Retry(item, maxAttempts, o);
      }
    }

    /** The loop of a tick, which ends before the i-th delivery. */
    method RetryDue(now: int, max: int, outcome: nat -> Outcome, ghost b: Batch)
        returns (out: seq<Delivery>, ghost i: nat)
      requires UniqueIds(deliveries) && b == Batch(endpoints, maxAttempts, now, max, outcome)
      modifies this`deliveries
      ensures i <= |old(deliveries)| && Ticked(old(deliveries), b, i, deliveries, out)
      ensures i == |old(deliveries)| || (max > 0 && |out| >= max)
    {
      var items := deliveries;
      out := [];
      var k := 0;
      while k < |items|
        invariant k <= |items|
        invariant Ticked(items, b, k, deliveries, out)
      {
        if max > 0 && |out| >= max {
          return out, k;
        }
        var item := items[k];
        if item.status != Failed || item.nextRetryAt.None? || item.nextRetryAt.value > now {
          TickSkips(items, b, k, deliveries, out);
        } else {
          item := HandleDelivery(item, outcome(|out|));
          TickTakes(items, b, k, deliveries, out, item);
          UpdateDelivery(item);
          out := out + [item];
        }
        k := k + 1;
      }
      i := k;
    }

    method RetryFailedDeliveries(now: int, max: int, outcome: nat -> Outcome) returns (out: seq<Delivery>)
      requires UniqueIds(deliveries)
      modifies this`deliveries
      ensures var b := Batch(endpoints, maxAttempts, now, max, outcome);
              && deliveries == Tick(old(deliveries), b)
              && |out| == Handled(old(deliveries), b)
              && TicksTo(old(deliveries), deliveries, out, b)
    {
      ghost var b, items := Batch(endpoints, maxAttempts, now, max, outcome), deliveries;
      ghost var i;
      out, i := RetryDue(now, max, outcome, b);
      TickEnds(items, b, i, deliveries, out);
      TickInFields(items, b);
    }
  }
}
