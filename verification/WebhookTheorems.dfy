/** What holds of webhook deliveries over every sequence of dispatches, ticks and endpoint changes. */
module WebhookTheorems {
  import opened Options
  import opened Webhook
  import Backoff

  datatype State = State(endpoints: seq<Endpoint>, deliveries: seq<Delivery>, nextId: nat)

  datatype Action =
    | Dispatch(evt: Event, replies: nat -> Outcome)
    | RetryTick(now: int, max: int, retries: nat -> Outcome)
    | SetEndpoints(endpoints: seq<Endpoint>)

  function Step(s: State, a: Action, maxAttempts: int): State {
    match a
    case Dispatch(evt, replies) =>
      var ds := Deliveries(Addressees(s.endpoints, evt), evt, s.nextId, maxAttempts, replies);
      s.(deliveries := s.deliveries + ds, nextId := s.nextId + |ds|)
    case RetryTick(now, max, retries) =>
      s.(deliveries := Tick(s.deliveries, Batch(s.endpoints, maxAttempts, now, max, retries)))
    case SetEndpoints(endpoints) => s.(endpoints := endpoints)
  }

  function RunAll(s: State, actions: seq<Action>, maxAttempts: int): State {
    if actions == [] then s
    else Step(RunAll(s, actions[..|actions| - 1], maxAttempts), actions[|actions| - 1], maxAttempts)
  }

  /** A step does what the service's methods promise, with the state they leave. */
  lemma StepInFields(s: State, a: Action, M: int) returns (out: seq<Delivery>)
    ensures var after := Step(s, a, M);
            match a
            case Dispatch(evt, replies) =>
              && after == s.(deliveries := s.deliveries + out, nextId := s.nextId + |out|)
              && DispatchesTo(s.endpoints, evt, s.nextId, out, M, replies)
            case RetryTick(now, max, retries) =>
              && after == s.(deliveries := after.deliveries)
              && TicksTo(s.deliveries, after.deliveries, out, Batch(s.endpoints, M, now, max, retries))
            case SetEndpoints(endpoints) => after == s.(endpoints := endpoints)
  {
    out := [];
    if a.Dispatch? {
      out := Deliveries(Addressees(s.endpoints, a.evt), a.evt, s.nextId, M, a.replies);
      DispatchInFields(s.endpoints, a.evt, s.nextId, M, a.replies);
    } else if a.RetryTick? {
      var b := Batch(s.endpoints, M, a.now, a.max, a.retries);
      out := Reported(s.deliveries, b, |s.deliveries|);
      TickInFields(s.deliveries, b);
    }
  }

  // ---------------------------------------------------------------- what every stored delivery satisfies

  /** The payload it was first sent with. */
  function Original(d: Delivery): Payload {
    FirstPayload(d.event, d.createdAt)
  }

  /** With M attempts allowed: a delivery waits for a retry only while it has attempts left, and none is pending. */
  predicate StoredOk(d: Delivery, M: int) {
    && d.maxAttempts == M && 1 <= d.attemptNo && (d.attemptNo == 1 || d.attemptNo <= M)
    && d.status != Pending
    && (d.status == Failed ==> d.attemptNo < M && d.nextRetryAt.Some?)
    && d.payload == if d.attemptNo == 1 then Original(d) else Stamp(Original(d), d.id, d.attemptNo)
  }

  ghost predicate Inv(s: State, M: int) {
    && UniqueIds(s.deliveries)
    && (forall i :: 0 <= i < |s.deliveries| ==> s.deliveries[i].id < s.nextId)
    && AllStoredOk(s.deliveries, M)
  }

  ghost predicate AllStoredOk(items: seq<Delivery>, M: int) {
    forall i :: 0 <= i < |items| ==> StoredOk(items[i], M)
  }

  lemma DeliverOk(e: Endpoint, evt: Event, id: nat, M: int, o: Outcome)
    ensures StoredOk(Deliver(e, evt, id, M, o), M) && Deliver(e, evt, id, M, o).id == id
  {
  }

  lemma RestampIsStamp(p: Payload, id: nat, a: int, b: int)
    requires p != map[]
    ensures Stamp(Stamp(p, id, a), id, b) == Stamp(p, id, b)
  {
    var q := Stamp(p, id, a);
    assert "retry_attempt" in q && q != map[];
  }

  lemma ProcessOk(d: Delivery, endpoints: seq<Endpoint>, M: int, o: Outcome)
    requires StoredOk(d, M) && d.status == Failed
    ensures var r := Process(d, endpoints, M, o); StoredOk(r, M) && r.id == d.id
  {
    assert "type" in Original(d);
    if d.attemptNo > 1 {
      RestampIsStamp(Original(d), d.id, d.attemptNo, d.attemptNo + 1);
    }
  }

  lemma TickOk(items: seq<Delivery>, b: Batch)
    requires AllStoredOk(items, b.defaultMax)
    ensures AllStoredOk(Tick(items, b), b.defaultMax)
    ensures forall i :: 0 <= i < |items| ==> Tick(items, b)[i].id == items[i].id
  {
    forall i | 0 <= i < |items|
      ensures StoredOk(Tick(items, b)[i], b.defaultMax) && Tick(items, b)[i].id == items[i].id
    {
      if Takes(items, b, i) {
        ProcessOk(items[i], b.endpoints, b.defaultMax, b.outcome(DueCount(items[..i], b.now)));
      }
    }
  }

  lemma StepKeepsInv(s: State, a: Action, M: int)
    requires Inv(s, M)
    ensures Inv(Step(s, a, M), M)
  {
    match a
    case Dispatch(evt, replies) =>
      var to := Addressees(s.endpoints, evt);
      var ds := Deliveries(to, evt, s.nextId, M, replies);
      forall k | 0 <= k < |ds| ensures StoredOk(ds[k], M) && ds[k].id == s.nextId + k {
        DeliverOk(to[k], evt, s.nextId + k, M, replies(k));
      }
    case RetryTick(now, max, retries) => TickOk(s.deliveries, Batch(s.endpoints, M, now, max, retries));
    case SetEndpoints(_) =>
  }

  /** For any limit M, positive or not, over every run. */
  lemma {:induction false} RunKeepsInv(s: State, actions: seq<Action>, M: int)
    requires Inv(s, M)
    ensures Inv(RunAll(s, actions, M), M)
  {
    if actions != [] {
      RunKeepsInv(s, actions[..|actions| - 1], M);
      StepKeepsInv(RunAll(s, actions[..|actions| - 1], M), actions[|actions| - 1], M);
    }
  }

  // ---------------------------------------------------------------- what never changes

  /** A payload without what retries write into it. */
  function Unstamped(p: Payload): Payload {
    p - {"delivery_id", "retry_attempt"}
  }

  /** What may become of a delivery: an end is final, and what was sent stays what it was. */
  ghost predicate Follows(a: Delivery, b: Delivery) {
    && b.id == a.id && b.webhookId == a.webhookId && b.event == a.event && b.targetUrl == a.targetUrl &&
       b.createdAt == a.createdAt
    && Unstamped(b.payload) == Unstamped(a.payload)
    && a.attemptNo <= b.attemptNo
    && (a.status == Delivered || a.status == Dlq ==> b == a)
  }

  lemma ProcessFollows(d: Delivery, endpoints: seq<Endpoint>, defaultMax: int, o: Outcome)
    requires d.status == Failed
    ensures Follows(d, Process(d, endpoints, defaultMax, o))
  {
    assert Unstamped(Stamp(d.payload, d.id, d.attemptNo + 1)) == Unstamped(d.payload);
  }

  ghost predicate AllFollow(before: seq<Delivery>, after: seq<Delivery>) {
    |before| <= |after| && forall i :: 0 <= i < |before| ==> Follows(before[i], after[i])
  }

  lemma StepFollows(s: State, a: Action, M: int)
    ensures AllFollow(s.deliveries, Step(s, a, M).deliveries)
  {
    if a.RetryTick? {
      var b := Batch(s.endpoints, M, a.now, a.max, a.retries);
      forall i | 0 <= i < |s.deliveries| ensures Follows(s.deliveries[i], Tick(s.deliveries, b)[i]) {
        if Takes(s.deliveries, b, i) {
          ProcessFollows(s.deliveries[i], b.endpoints, M, b.outcome(DueCount(s.deliveries[..i], b.now)));
        }
      }
    }
  }

  /**
   * Over every run from any store, even one the rules above do not hold of: no delivery is lost or moved,
   * delivered and dead ones never change again, and no payload changes but for the two retry keys.
   */
  lemma {:induction false} RunFollows(s: State, actions: seq<Action>, M: int)
    ensures AllFollow(s.deliveries, RunAll(s, actions, M).deliveries)
  {
    if actions != [] {
      var m := RunAll(s, actions[..|actions| - 1], M);
      RunFollows(s, actions[..|actions| - 1], M);
      StepFollows(m, actions[|actions| - 1], M);
      var after := RunAll(s, actions, M).deliveries;
      forall i | 0 <= i < |s.deliveries| ensures Follows(s.deliveries[i], after[i]) {
        assert Follows(s.deliveries[i], m.deliveries[i]) && Follows(m.deliveries[i], after[i]);
      }
    }
  }

  // ---------------------------------------------------------------- one attempt

  /**
   * An attempt whose request was not accepted leaves its delivery dead if that was the last attempt, and
   * otherwise waiting for exactly min(2^(n-1), 64) minutes from the end of attempt n.
   */
  lemma RetryOutcome(d: Delivery, endpoints: seq<Endpoint>, M: int, o: Outcome)
    requires StoredOk(d, M) && d.status == Failed
    ensures var e := FindEndpoint(endpoints, d.webhookId);
            var r := Process(d, endpoints, M, o);
            var n := d.attemptNo + 1;
            if e.None? || !e.value.enabled then r == d.(status := Dlq)
            else if o.reply.Answer? && 200 <= o.reply.code < 300 then
              r.status == Delivered && r.deliveredAt == Some(o.ended) && r.nextRetryAt == None && r.attemptNo == n
            else if n == M then r.status == Dlq && r.attemptNo == n
            else r.status == Failed && r.attemptNo == n
                 && r.nextRetryAt == Some(o.ended + Backoff.Min(Backoff.Pow2(n - 1), 64) * 60_000_000_000)
  {
    Backoff.WebhookBackoffIsCapped(d.attemptNo + 1, d.attemptNo + 1);
  }

  // ---------------------------------------------------------------- no retry before its time

  /** Action a made an attempt to send the p-th delivery, and that attempt ended at t. */
  ghost predicate Attempts(before: State, a: Action, after: State, M: int, p: nat, t: int) {
    match a
    case Dispatch(evt, replies) =>
      |before.deliveries| <= p < |after.deliveries| && t == replies(p - |before.deliveries|).ended
    case RetryTick(now, max, retries) =>
      && p < |before.deliveries| && p < |after.deliveries|
      && before.deliveries[p].attemptNo < after.deliveries[p].attemptNo
      && exists picked, out, k: nat :: AsPicked(before, after, M, now, max, retries, picked, out, k, p) &&
                                       t == retries(k).ended
    case SetEndpoints(_) => false
  }

  /** The p-th delivery was the k-th the tick handled. */
  ghost predicate AsPicked(before: State, after: State, M: int, now: int, max: int, retries: nat -> Outcome,
                           picked: seq<nat>, out: seq<Delivery>, k: nat, p: nat)
  {
    && k < |picked| && picked[k] == p
    && HandlesDue(before.deliveries, after.deliveries, out, picked, Batch(before.endpoints, M, now, max, retries))
  }

  /** r is to be retried, at a time its attempt set when it ended at t. */
  ghost predicate SetTo(r: Delivery, t: int) {
    r.status == Failed ==> r.nextRetryAt == Some(t + Pause(r.attemptNo))
  }

  lemma ProcessSetsTime(d: Delivery, r: Delivery, endpoints: seq<Endpoint>, M: int, o: Outcome)
    requires ProcessedAs(d, r, endpoints, M, o) && d.attemptNo < r.attemptNo
    ensures SetTo(r, o.ended)
  {
  }

  /** An attempt that leaves its delivery to be retried sets the time of the next one. */
  lemma AttemptSetsTime(before: State, a: Action, after: State, M: int, p: nat, t: int)
    requires after == Step(before, a, M) && Attempts(before, a, after, M, p, t)
    ensures SetTo(after.deliveries[p], t)
  {
    if a.Dispatch? {
      FirstSetsTime(before.endpoints, a.evt, before.nextId, M, a.replies, p - |before.deliveries|);
    } else {
      var picked, out, k: nat :| AsPicked(before, after, M, a.now, a.max, a.retries, picked, out, k, p) &&
                                 t == a.retries(k).ended;
      ProcessSetsTime(before.deliveries[p], after.deliveries[p], before.endpoints, M, a.retries(k));
    }
  }

  lemma FirstSetsTime(endpoints: seq<Endpoint>, evt: Event, first: nat, M: int, outcome: nat -> Outcome, k: nat)
    requires k < |Addressees(endpoints, evt)|
    ensures SetTo(Deliveries(Addressees(endpoints, evt), evt, first, M, outcome)[k], outcome(k).ended)
  {
    var e, o := Addressees(endpoints, evt)[k], outcome(k);
    SettleInFields(Delivery(first + k, e.id, evt, e.url, Pending, 1, M, None, 0, FirstPayload(evt, o.began),
                            o.began, None), M, o);
  }

  /** What any later state may hold of a delivery: the same, dead, or tried again. */
  ghost predicate WaitsOrGoes(d: Delivery, r: Delivery) {
    (r == d || r.status == Dlq || r.attemptNo > d.attemptNo) && r.attemptNo >= d.attemptNo
  }

  lemma ProcessWaits(d: Delivery, endpoints: seq<Endpoint>, M: int, o: Outcome)
    ensures var r := Process(d, endpoints, M, o); WaitsOrGoes(d, r) && r.attemptNo <= d.attemptNo + 1
  {
  }

  /** One step tries a delivery once at most, and only a tick past the time set does. */
  lemma StepWaits(s: State, a: Action, after: State, M: int, p: nat)
    requires after == Step(s, a, M) && p < |s.deliveries|
    ensures p < |after.deliveries|
    ensures var d, r := s.deliveries[p], after.deliveries[p];
            && WaitsOrGoes(d, r) && r.attemptNo <= d.attemptNo + 1
            && (r != d ==> d.status == Failed && a.RetryTick? && d.nextRetryAt.Some? && d.nextRetryAt.value <= a.now)
  {
    if a.RetryTick? {
      var b := Batch(s.endpoints, M, a.now, a.max, a.retries);
      ProcessWaits(s.deliveries[p], b.endpoints, M, b.outcome(DueCount(s.deliveries[..p], b.now)));
    }
  }

  lemma {:induction false} RunWaits(s: State, actions: seq<Action>, M: int, i: nat, j: nat, p: nat)
    requires i <= j <= |actions| && p < |RunAll(s, actions[..i], M).deliveries|
    ensures p < |RunAll(s, actions[..j], M).deliveries|
    ensures WaitsOrGoes(RunAll(s, actions[..i], M).deliveries[p], RunAll(s, actions[..j], M).deliveries[p])
    decreases j
  {
    if i < j {
      RunWaits(s, actions, M, i, j - 1, p);
      assert actions[..j][..j - 1] == actions[..j - 1];
      StepWaits(RunAll(s, actions[..j - 1], M), actions[j - 1], RunAll(s, actions[..j], M), M, p);
    }
  }

  /** d, set to be tried again, is what the p-th delivery was when it last waited. */
  lemma TriedInTime(d: Delivery, s: State, a: Action, after: State, M: int, p: nat, n: nat, t: int)
    requires after == Step(s, a, M) && p < |s.deliveries| && p < |after.deliveries|
    requires SetTo(d, t) && WaitsOrGoes(d, s.deliveries[p]) && d.attemptNo == n >= 1
    requires s.deliveries[p].attemptNo < after.deliveries[p].attemptNo == n + 1
    ensures a.RetryTick? && a.now >= t + Backoff.Min(Backoff.Pow2(n - 1), 64) * 60_000_000_000
  {
    StepWaits(s, a, after, M, p);
  }

  /**
   * Over every run from any store: when one action made attempt n to send a delivery, which ended at t, and a
   * later one makes attempt n + 1, that is a tick no earlier than min(2^(n-1), 64) minutes after t.
   */
  lemma RetryWaits(s: State, actions: seq<Action>, M: int, i: nat, j: nat, p: nat, n: nat, t: int)
    requires i < j < |actions|
    requires var before, after := RunAll(s, actions[..i], M), RunAll(s, actions[..i + 1], M);
             Attempts(before, actions[i], after, M, p, t) && after.deliveries[p].attemptNo == n >= 1
    requires var before, after := RunAll(s, actions[..j], M), RunAll(s, actions[..j + 1], M);
             && p < |before.deliveries| && p < |after.deliveries|
             && before.deliveries[p].attemptNo < after.deliveries[p].attemptNo == n + 1
    ensures actions[j].RetryTick? && actions[j].now >= t + Backoff.Min(Backoff.Pow2(n - 1), 64) * 60_000_000_000
  {
    RunStep(s, actions, M, i);
    RunStep(s, actions, M, j);
    var was, next := RunAll(s, actions[..i], M), RunAll(s, actions[..i + 1], M);
    AttemptSetsTime(was, actions[i], next, M, p, t);
    RunWaits(s, actions, M, i + 1, j, p);
    TriedInTime(next.deliveries[p], RunAll(s, actions[..j], M), actions[j], RunAll(s, actions[..j + 1], M), M, p, n, t);
  }

  lemma RunStep(s: State, actions: seq<Action>, M: int, i: nat)
    requires i < |actions|
    ensures RunAll(s, actions[..i + 1], M) == Step(RunAll(s, actions[..i], M), actions[i], M)
  {
    assert actions[..i + 1][..i] == actions[..i];
  }

  // ---------------------------------------------------------------- retries come to an end

  /** The attempts that waiting deliveries have left, in all. */
  function Work(items: seq<Delivery>): nat {
    if items == [] then 0
    else Work(items[..|items| - 1]) + Left(items[|items| - 1])
  }

  function Left(d: Delivery): nat {
    if d.status == Failed && d.attemptNo < d.maxAttempts then d.maxAttempts - d.attemptNo else 0
  }

  /** How many of the first n items the tick takes. */
  function Taken(items: seq<Delivery>, b: Batch, n: nat): nat
    requires n <= |items|
  {
    Handled(items[..n], b)
  }

  lemma ProcessUsesAnAttempt(d: Delivery, endpoints: seq<Endpoint>, M: int, o: Outcome)
    requires StoredOk(d, M) && d.status == Failed
    ensures Left(Process(d, endpoints, M, o)) < Left(d)
  {
  }

  lemma {:induction false} WorkOfPrefix(items: seq<Delivery>, b: Batch, n: nat)
    requires AllStoredOk(items, b.defaultMax) && n <= |items|
    ensures Work(Tick(items, b)[..n]) + Taken(items, b, n) <= Work(items[..n])
  {
    if n > 0 {
      WorkOfPrefix(items, b, n - 1);
      DueCountStep(items, b.now, n - 1);
      assert Tick(items, b)[..n][..n - 1] == Tick(items, b)[..n - 1] && items[..n][..n - 1] == items[..n - 1];
      if Takes(items, b, n - 1) {
        ProcessUsesAnAttempt(items[n - 1], b.endpoints, b.defaultMax, b.outcome(DueCount(items[..n - 1], b.now)));
      }
    }
  }

  /** Every delivery a tick handles uses up at least one attempt of those left. */
  lemma TickUsesWork(items: seq<Delivery>, b: Batch)
    requires AllStoredOk(items, b.defaultMax)
    ensures Work(Tick(items, b)) + Handled(items, b) <= Work(items)
  {
    WorkOfPrefix(items, b, |items|);
    assert items[..|items|] == items && Tick(items, b)[..|items|] == Tick(items, b);
  }

  ghost predicate AllDue(items: seq<Delivery>, now: int) {
    forall i :: 0 <= i < |items| && items[i].status == Failed ==>
      items[i].nextRetryAt.Some? && items[i].nextRetryAt.value <= now
  }

  predicate NoneFailed(items: seq<Delivery>) {
    forall i :: 0 <= i < |items| ==> items[i].status != Failed
  }

  lemma {:induction false} SomeDueCounts(items: seq<Delivery>, now: int, i: nat)
    requires i < |items| && Due(items[i], now)
    ensures DueCount(items, now) >= 1
    decreases |items|
  {
    if i < |items| - 1 {
      SomeDueCounts(items[..|items| - 1], now, i);
    }
  }

  lemma {:induction false} NoWorkNoneFailed(items: seq<Delivery>, M: int)
    requires AllStoredOk(items, M)
    ensures Work(items) == 0 <==> NoneFailed(items)
  {
    if items != [] {
      var front, last := items[..|items| - 1], items[|items| - 1];
      NoWorkNoneFailed(front, M);
      assert StoredOk(last, M);
      assert NoneFailed(items) <==> NoneFailed(front) && last.status != Failed by {
        assert items == front + [last];
      }
    }
  }

  function RunTicks(items: seq<Delivery>, bs: seq<Batch>): seq<Delivery>
    decreases |bs|
  {
    if bs == [] then items else RunTicks(Tick(items, bs[0]), bs[1..])
  }

  /** Each tick comes after all waiting deliveries are due. */
  ghost predicate Timely(items: seq<Delivery>, bs: seq<Batch>)
    decreases |bs|
  {
    bs == [] || (AllDue(items, bs[0].now) && Timely(Tick(items, bs[0]), bs[1..]))
  }

  /**
   * Whatever the endpoints answer and whatever the batch limits are, as many timely ticks as there are
   * attempts left settle every delivery.
   */
  lemma {:induction false} TicksSettleAll(items: seq<Delivery>, bs: seq<Batch>, M: int)
    requires AllStoredOk(items, M) && Timely(items, bs)
    requires forall k :: 0 <= k < |bs| ==> bs[k].defaultMax == M
    requires |bs| >= Work(items)
    ensures NoneFailed(RunTicks(items, bs))
    decreases |bs|
  {
    if bs == [] {
      NoWorkNoneFailed(items, M);
    } else {
      TickUsesWork(items, bs[0]);
      TickOk(items, bs[0]);
      NoWorkNoneFailed(items, M);
      if !NoneFailed(items) {
        var i :| 0 <= i < |items| && items[i].status == Failed;
        SomeDueCounts(items, bs[0].now, i);
      }
      TicksSettleAll(Tick(items, bs[0]), bs[1..], M);
    }
  }
}
