/**
 * The durable queue: one row per task, and one function per SQL statement saying what the statement
 * does to the table. `PostgresQueue` is the queue object; each of its methods runs one statement.
 * Times and durations are integers in nanoseconds; rows are named by their position in the table.
 */
module LeaseQueue {
  import opened Options
  import opened Lists
  import Backoff

  datatype Status = Ready | Leased | Acked | Dlq

  /** A row of task_queue. The empty lease token is None; tokens drawn by the database are numbers. */
  datatype Row = Row(
    tenant: string,
    project: string,
    task: string,
    status: Status,
    attemptNo: nat,
    availableAt: int,
    leaseId: Option<nat>,
    leaseUntil: Option<int>,
    worker: string,
    createdAt: int)

  datatype TaskRef = TaskRef(
    tenant: string,
    project: string,
    task: string,
    leaseId: nat,
    attemptNo: nat,
    visibleAt: int,
    leaseUntil: int,
    enqueuedAt: int)

  datatype NackOptions = NackOptions(
    retryable: bool,
    backoff: int,
    dlq: bool,
    maxAttempts: int,
    nextVisible: Option<int>)

  /** Whole seconds of a duration, truncated toward zero, back in nanoseconds. */
  function WholeSeconds(d: int): (w: int)
    ensures w % 1_000_000_000 == 0
    ensures d >= 0 ==> 0 <= w <= d < w + 1_000_000_000
    ensures d < 0 ==> w - 1_000_000_000 < d <= w <= 0
  {
    if d >= 0 then d / Backoff.SECOND * Backoff.SECOND else -(-d / Backoff.SECOND * Backoff.SECOND)
  }

  predicate SameKey(a: Row, tenant: string, project: string, task: string) {
    a.tenant == tenant && a.project == project && a.task == task
  }

  predicate Matches(r: Row, task: string, lease: Option<nat>, worker: string) {
    r.task == task && r.leaseId == lease && r.worker == worker
  }

  predicate Eligible(r: Row, now: int) {
    r.status == Ready && r.availableAt <= now
  }

  predicate Expired(r: Row, now: int) {
    r.status == Leased && r.leaseUntil.Some? && r.leaseUntil.value < now
  }

  // ------------------------------------------------------ choosing rows under ORDER BY, LIMIT and SKIP LOCKED

  type Key = (int, int)

  predicate Earlier(a: Key, b: Key) {
    a.0 < b.0 || (a.0 == b.0 && a.1 < b.1)
  }

  ghost predicate Distinct(picked: seq<nat>) {
    forall a, b :: 0 <= a < b < |picked| ==> picked[a] != picked[b]
  }

  /**
   * What `ORDER BY key ... SKIP LOCKED LIMIT limit` may return when `cands` are the unlocked rows that
   * satisfy the WHERE clause. Ties in the key may be broken either way.
   */
  ghost predicate IsPick(keys: seq<Key>, cands: set<nat>, limit: nat, picked: seq<nat>)
    requires forall i :: i in cands ==> i < |keys|
  {
    && |picked| <= limit
    && Distinct(picked)
    && (forall a :: 0 <= a < |picked| ==> picked[a] in cands)
    && (forall a, b :: 0 <= a < b < |picked| ==> !Earlier(keys[picked[b]], keys[picked[a]]))
    && (|picked| < limit ==> forall i :: i in cands ==> i in picked)
    && (forall i, a :: i in cands && i !in picked && 0 <= a < |picked| ==> !Earlier(keys[i], keys[picked[a]]))
  }

  ghost function Elems(s: seq<nat>): set<nat> {
    set x | x in s
  }

  lemma {:induction false} DistinctCount(s: seq<nat>)
    requires Distinct(s)
    ensures |Elems(s)| == |s|
  {
    if s == [] {
      assert Elems(s) == {};
    } else {
      var last := s[|s| - 1];
      var front := s[..|s| - 1];
      DistinctCount(front);
      assert last !in Elems(front);
      assert Elems(s) == Elems(front) + {last} by {
        assert s == front + [last];
      }
    }
  }

  /** A pick takes exactly min(limit, candidates) rows. */
  lemma PickTakesMin(keys: seq<Key>, cands: set<nat>, limit: nat, picked: seq<nat>)
    requires forall i :: i in cands ==> i < |keys|
    requires IsPick(keys, cands, limit, picked)
    ensures |picked| == Backoff.Min(limit, |cands|)
  {
    DistinctCount(picked);
    SubsetCount(Elems(picked), cands);
    if |picked| < limit {
      assert Elems(picked) == cands;
    }
  }

  /** The part of IsPick that the updates need. */
  lemma PickedRows(keys: seq<Key>, cands: set<nat>, limit: nat, picked: seq<nat>)
    requires forall i :: i in cands ==> i < |keys|
    requires IsPick(keys, cands, limit, picked)
    ensures forall a :: 0 <= a < |picked| ==> picked[a] < |keys| && picked[a] in cands
    ensures Distinct(picked)
  {
  }

  function LeaseKeys(rows: seq<Row>): (k: seq<Key>)
    ensures |k| == |rows|
  {
    seq(|rows|, i requires 0 <= i < |rows| => (rows[i].availableAt, rows[i].createdAt))
  }

  function ReclaimKeys(rows: seq<Row>): (k: seq<Key>)
    ensures |k| == |rows|
  {
    seq(|rows|, i requires 0 <= i < |rows| => (if rows[i].leaseUntil.Some? then rows[i].leaseUntil.value else 0, 0))
  }

  function LeaseCandidates(rows: seq<Row>, now: int, locked: set<nat>): (c: set<nat>)
    ensures forall i :: i in c ==> i < |rows|
  {
    set i: nat | i < |rows| && Eligible(rows[i], now) && i !in locked
  }

  function ReclaimCandidates(rows: seq<Row>, now: int, locked: set<nat>): (c: set<nat>)
    ensures forall i :: i in c ==> i < |rows|
  {
    set i: nat | i < |rows| && Expired(rows[i], now) && i !in locked
  }

  // ---------------------------------------------------------------- what each statement does to the table

  function EnqueueRows(rows: seq<Row>, tenant: string, project: string, task: string, availableAt: Option<int>,
                       now: int): seq<Row> {
    if exists i :: 0 <= i < |rows| && SameKey(rows[i], tenant, project, task) then rows
    else
      var visible := if availableAt.Some? then availableAt.value else now;
      rows + [Row(tenant, project, task, Ready, 0, visible, None, None, "", now)]
  }

  function LeaseRow(r: Row, lease: nat, worker: string, until: int): Row {
    r.(status := Leased, worker := worker, leaseId := Some(lease), leaseUntil := Some(until),
       attemptNo := r.attemptNo + 1)
  }

  function ReclaimRow(r: Row, now: int): Row {
    r.(status := Ready, availableAt := now, leaseId := None, worker := "", leaseUntil := None)
  }

  /** The picked rows are leased in turn, each with the next fresh token. */
  function LeaseRows(rows: seq<Row>, picked: seq<nat>, first: nat, worker: string, until: int): (r: seq<Row>)
    ensures |r| == |rows|
    decreases |picked|
  {
    if picked == [] then rows
    else
      var k := |picked| - 1;
      var before := LeaseRows(rows, picked[..k], first, worker, until);
      if picked[k] < |rows| then before[picked[k] := LeaseRow(before[picked[k]], first + k, worker, until)] else before
  }

  function ReclaimRows(rows: seq<Row>, picked: seq<nat>, now: int): (r: seq<Row>)
    ensures |r| == |rows|
    decreases |picked|
  {
    if picked == [] then rows
    else
      var k := |picked| - 1;
      var before := ReclaimRows(rows, picked[..k], now);
      if picked[k] < |rows| then before[picked[k] := ReclaimRow(before[picked[k]], now)] else before
  }

  lemma {:induction false} OthersKept(rows: seq<Row>, picked: seq<nat>, first: nat, worker: string, until: int,
                                      now: int, i: nat)
    requires i < |rows| && i !in picked
    ensures LeaseRows(rows, picked, first, worker, until)[i] == rows[i]
    ensures ReclaimRows(rows, picked, now)[i] == rows[i]
    decreases |picked|
  {
    if picked != [] {
      OthersKept(rows, picked[..|picked| - 1], first, worker, until, now, i);
    }
  }

  /** The a-th picked row is leased with the a-th fresh token, or reclaimed. */
  lemma {:induction false} PickedUpdated(rows: seq<Row>, picked: seq<nat>, first: nat, worker: string, until: int,
                                         now: int, a: nat)
    requires a < |picked| && picked[a] < |rows| && Distinct(picked)
    ensures LeaseRows(rows, picked, first, worker, until)[picked[a]] ==
            LeaseRow(rows[picked[a]], first + a, worker, until)
    ensures ReclaimRows(rows, picked, now)[picked[a]] == ReclaimRow(rows[picked[a]], now)
    decreases |picked|
  {
    var k := |picked| - 1;
    if a == k {
      OthersKept(rows, picked[..k], first, worker, until, now, picked[k]);
    } else {
      PickedUpdated(rows, picked[..k], first, worker, until, now, a);
      assert picked[k] != picked[a];
    }
  }

  /** Leased, and by the lease that answers to this token. */
  predicate Held(r: Row, task: string, lease: Option<nat>, worker: string) {
    Matches(r, task, lease, worker) && r.status == Leased
  }

  function HeartbeatRows(rows: seq<Row>, task: string, lease: Option<nat>, worker: string, until: int): (r: seq<Row>)
    ensures |r| == |rows|
  {
    seq(|rows|, i requires 0 <= i < |rows| =>
      if Held(rows[i], task, lease, worker) then rows[i].(leaseUntil := Some(until)) else rows[i])
  }

  /** Ack has no status test and leaves the token in the row. */
  function AckRows(rows: seq<Row>, task: string, lease: Option<nat>, worker: string): (r: seq<Row>)
    ensures |r| == |rows|
  {
    seq(|rows|, i requires 0 <= i < |rows| =>
      if Matches(rows[i], task, lease, worker) then rows[i].(status := Acked) else rows[i])
  }

  function NackStatus(attemptNo: nat, opts: NackOptions): Status {
    if opts.maxAttempts > 0 && attemptNo >= opts.maxAttempts then Dlq
    else if opts.dlq || !opts.retryable then Dlq
    else Ready
  }

  function NackRow(r: Row, opts: NackOptions, now: int): Row {
    r.(status := NackStatus(r.attemptNo, opts),
       availableAt := if opts.nextVisible.Some? then opts.nextVisible.value else now + opts.backoff,
       leaseId := None, leaseUntil := None, worker := "")
  }

  function NackRows(rows: seq<Row>, task: string, lease: Option<nat>, worker: string, opts: NackOptions,
                    now: int): (r: seq<Row>)
    ensures |r| == |rows|
  {
    seq(|rows|, i requires 0 <= i < |rows| =>
      if Matches(rows[i], task, lease, worker) then NackRow(rows[i], opts, now) else rows[i])
  }

  predicate InFlight(r: Row, tenant: string, project: string) {
    r.tenant == tenant && r.project == project && (r.status == Ready || r.status == Leased)
  }

  function RefOf(r: Row): TaskRef
    requires r.leaseId.Some? && r.leaseUntil.Some?
  {
    TaskRef(r.tenant, r.project, r.task, r.leaseId.value, r.attemptNo, r.availableAt, r.leaseUntil.value, r.createdAt)
  }

  // ---------------------------------------------------------------- the same, column by column

  /**
   * Which rows a lease takes: ready ones whose time has come and that nobody has locked, as many as there
   * are up to the limit, by their time, and those of one time by their age.
   */
  ghost predicate TakesDue(rows: seq<Row>, now: int, locked: set<nat>, limit: nat, picked: seq<nat>) {
    var due := set i: nat | i < |rows| && rows[i].status == Ready && rows[i].availableAt <= now && i !in locked;
    && |picked| == (if |due| < limit then |due| else limit)
    && (forall a :: 0 <= a < |picked| ==> picked[a] in due)
    && (forall a, b :: 0 <= a < b < |picked| ==> picked[a] != picked[b] && NoLater(rows[picked[a]], rows[picked[b]]))
    && (forall a, i :: 0 <= a < |picked| && i in due && i !in picked ==> NoLater(rows[picked[a]], rows[i]))
  }

  ghost predicate NoLater(r: Row, q: Row) {
    r.availableAt < q.availableAt || (r.availableAt == q.availableAt && r.createdAt <= q.createdAt)
  }

  /** Which rows a reclaim takes: leased ones whose end is past, the one that ended first before the others. */
  ghost predicate TakesExpired(rows: seq<Row>, now: int, locked: set<nat>, limit: nat, picked: seq<nat>) {
    var expired := set i: nat | i < |rows| && rows[i].status == Leased && i !in locked
                                && rows[i].leaseUntil.Some? && rows[i].leaseUntil.value < now;
    && |picked| == (if |expired| < limit then |expired| else limit)
    && (forall a :: 0 <= a < |picked| ==> picked[a] in expired)
    && (forall a, b :: 0 <= a < b < |picked| ==>
          picked[a] != picked[b] && rows[picked[a]].leaseUntil.value <= rows[picked[b]].leaseUntil.value)
    && (forall a, i :: 0 <= a < |picked| && i in expired && i !in picked ==>
          rows[picked[a]].leaseUntil.value <= rows[i].leaseUntil.value)
  }

  /** The picked rows are leased in turn, with the tokens from `first` on, and no other row changes. */
  ghost predicate LeasedAs(before: seq<Row>, after: seq<Row>, picked: seq<nat>, first: nat, worker: string,
                           until: int) {
    && |after| == |before|
    && (forall i: nat :: i < |before| && i !in picked ==> after[i] == before[i])
    && (forall a :: 0 <= a < |picked| ==>
          && picked[a] < |before|
          && var r := before[picked[a]];
             after[picked[a]] == r.(status := Leased, worker := worker, leaseId := Some(first + a),
                                    leaseUntil := Some(until), attemptNo := r.attemptNo + 1))
  }

  /** The picked rows are ready at once, without worker, token and end, and no other row changes. */
  ghost predicate ReclaimedAs(before: seq<Row>, after: seq<Row>, picked: seq<nat>, now: int) {
    && |after| == |before|
    && (forall i: nat :: i < |before| && i !in picked ==> after[i] == before[i])
    && (forall i :: i in picked ==>
          && i < |before|
          && after[i] == before[i].(status := Ready, availableAt := now, worker := "",
                                    leaseId := None, leaseUntil := None))
  }

  /** What is returned of the picked rows, as they are after the lease. */
  ghost predicate ReferTo(before: seq<Row>, picked: seq<nat>, first: nat, until: int, refs: seq<TaskRef>) {
    && |refs| == |picked|
    && forall a :: 0 <= a < |picked| ==>
         && picked[a] < |before|
         && var r := before[picked[a]];
            refs[a] ==
            TaskRef(r.tenant, r.project, r.task, first + a, r.attemptNo + 1, r.availableAt, until, r.createdAt)
  }

  lemma RefsInColumns(before: seq<Row>, after: seq<Row>, picked: seq<nat>, first: nat, worker: string, until: int,
                      refs: seq<TaskRef>)
    requires LeasedAs(before, after, picked, first, worker, until) && |refs| == |picked|
    requires forall a :: 0 <= a < |picked| ==> refs[a] == RefOf(after[picked[a]])
    ensures ReferTo(before, picked, first, until, refs)
  {
  }

  lemma LeasedRowsRefer(before: seq<Row>, after: seq<Row>, picked: seq<nat>, first: nat, worker: string, until: int)
    requires LeasedAs(before, after, picked, first, worker, until)
    ensures forall a :: 0 <= a < |picked| ==>
              picked[a] < |after| && after[picked[a]].leaseId == Some(first + a) && after[picked[a]].leaseUntil.Some?
  {
  }

  lemma PickTakesDue(rows: seq<Row>, now: int, locked: set<nat>, limit: nat, picked: seq<nat>)
    requires IsPick(LeaseKeys(rows), LeaseCandidates(rows, now, locked), limit, picked)
    ensures TakesDue(rows, now, locked, limit, picked)
  {
    PickTakesMin(LeaseKeys(rows), LeaseCandidates(rows, now, locked), limit, picked);
    assert LeaseCandidates(rows, now, locked) ==
      set i: nat | i < |rows| && rows[i].status == Ready && rows[i].availableAt <= now && i !in locked;
  }

  lemma PickTakesExpired(rows: seq<Row>, now: int, locked: set<nat>, limit: nat, picked: seq<nat>)
    requires IsPick(ReclaimKeys(rows), ReclaimCandidates(rows, now, locked), limit, picked)
    ensures TakesExpired(rows, now, locked, limit, picked)
  {
    PickTakesMin(ReclaimKeys(rows), ReclaimCandidates(rows, now, locked), limit, picked);
    assert ReclaimCandidates(rows, now, locked) ==
      set i: nat | i < |rows| && rows[i].status == Leased && i !in locked
                   && rows[i].leaseUntil.Some? && rows[i].leaseUntil.value < now;
  }

  lemma LeaseRowsInColumns(rows: seq<Row>, picked: seq<nat>, first: nat, worker: string, until: int)
    requires Distinct(picked) && forall a :: 0 <= a < |picked| ==> picked[a] < |rows|
    ensures LeasedAs(rows, LeaseRows(rows, picked, first, worker, until), picked, first, worker, until)
  {
    forall i: nat | i < |rows| && i !in picked ensures LeaseRows(rows, picked, first, worker, until)[i] == rows[i] {
      OthersKept(rows, picked, first, worker, until, 0, i);
    }
    forall a | 0 <= a < |picked|
      ensures LeaseRows(rows, picked, first, worker, until)[picked[a]] ==
              LeaseRow(rows[picked[a]], first + a, worker, until)
    {
      PickedUpdated(rows, picked, first, worker, until, 0, a);
    }
  }

  lemma ReclaimRowsInColumns(rows: seq<Row>, picked: seq<nat>, now: int)
    requires Distinct(picked) && forall a :: 0 <= a < |picked| ==> picked[a] < |rows|
    ensures ReclaimedAs(rows, ReclaimRows(rows, picked, now), picked, now)
  {
    forall i: nat | i < |rows| && i !in picked ensures ReclaimRows(rows, picked, now)[i] == rows[i] {
      OthersKept(rows, picked, 0, "", 0, now, i);
    }
    forall a | 0 <= a < |picked|
      ensures ReclaimRows(rows, picked, now)[picked[a]] == ReclaimRow(rows[picked[a]], now)
    {
      PickedUpdated(rows, picked, 0, "", 0, now, a);
    }
  }

  // ---------------------------------------------------------------- the queue object

  /**
   * Selects rows for a LIMITed statement: repeatedly the earliest candidate left.
   */
  method Pick(keys: seq<Key>, cands: set<nat>, limit: nat) returns (picked: seq<nat>)
    requires forall i :: i in cands ==> i < |keys|
    ensures IsPick(keys, cands, limit, picked)
  {
    picked := [];
    var left := cands;
    while |picked| < limit && left != {}
      invariant left <= cands
      invariant forall i :: i in cands <==> i in left || i in picked
      invariant forall a :: 0 <= a < |picked| ==> picked[a] !in left
      invariant |picked| <= limit
      invariant Distinct(picked)
      invariant forall a, b :: 0 <= a < b < |picked| ==> !Earlier(keys[picked[b]], keys[picked[a]])
      invariant forall i, a :: i in left && 0 <= a < |picked| ==> !Earlier(keys[i], keys[picked[a]])
      decreases left
    {
      var best := EarliestOf(keys, left);
      picked := picked + [best];
      left := left - {best};
    }
  }

  method EarliestOf(keys: seq<Key>, s: set<nat>) returns (best: nat)
    requires s != {}
    requires forall i :: i in s ==> i < |keys|
    ensures best in s
    ensures forall i :: i in s ==> !Earlier(keys[i], keys[best])
  {
    best :| best in s;
    for n := 0 to |keys|
      invariant best in s
      invariant forall i :: i in s && i < n ==> !Earlier(keys[i], keys[best])
    {
      if n in s && Earlier(keys[n], keys[best]) {
        best := n;
      }
    }
  }

  class PostgresQueue {
    var rows: seq<Row>
    /** The source of lease tokens; every token drawn so far is smaller. */
    var nextLease: nat

    constructor ()
      ensures rows == [] && nextLease == 0
    {
      rows, nextLease := [], 0;
    }

    method Enqueue(tenant: string, project: string, task: string, availableAt: Option<int>, now: int)
      modifies this`rows
      ensures rows == EnqueueRows(old(rows), tenant, project, task, availableAt, now)
      ensures var known := exists r :: r in old(rows) && r.tenant == tenant && r.project == project && r.task == task;
              var visible := if availableAt.Some? then availableAt.value else now;
              rows == if known then old(rows)
                      else old(rows) + [Row(tenant, project, task, Ready, 0, visible, None, None, "", now)]
    {
      for i := 0 to |rows|
        invariant rows == old(rows)
        invariant forall j :: 0 <= j < i ==> !SameKey(rows[j], tenant, project, task)
      {
        if SameKey(rows[i], tenant, project, task) {
          return;
        }
      }
      var at := if availableAt.Some? then availableAt.value else now;
      rows := rows + [Row(tenant, project, task, Ready, 0, at, None, None, "", now)];
    }

    method LeaseNext(worker: string, maxItems: int, leaseDuration: int, now: int, locked: set<nat>)
        returns (refs: seq<TaskRef>, ghost picked: seq<nat>)
      modifies this
      ensures IsPick(LeaseKeys(old(rows)), LeaseCandidates(old(rows), now, locked),
                     if maxItems <= 0 then 1 else maxItems, picked)
      ensures TakesDue(old(rows), now, locked, if maxItems <= 0 then 1 else maxItems, picked)
      ensures var until := now + WholeSeconds(if leaseDuration <= 0 then 30_000_000_000 else leaseDuration);
              && rows == LeaseRows(old(rows), picked, old(nextLease), worker, until)
              && LeasedAs(old(rows), rows, picked, old(nextLease), worker, until)
              && ReferTo(old(rows), picked, old(nextLease), until, refs)
      ensures nextLease == old(nextLease) + |picked|
    {
      refs, picked := LeaseUntil(worker, if maxItems <= 0 then 1 else maxItems,
                                 now + WholeSeconds(if leaseDuration <= 0 then 30_000_000_000 else leaseDuration),
                                 now, locked);
    }

    /** The statement, its defaults filled in. */
    method LeaseUntil(worker: string, limit: nat, until: int, now: int, locked: set<nat>)
        returns (refs: seq<TaskRef>, ghost picked: seq<nat>)
      modifies this
      ensures IsPick(LeaseKeys(old(rows)), LeaseCandidates(old(rows), now, locked), limit, picked)
      ensures TakesDue(old(rows), now, locked, limit, picked)
      ensures rows == LeaseRows(old(rows), picked, old(nextLease), worker, until)
      ensures LeasedAs(old(rows), rows, picked, old(nextLease), worker, until)
      ensures ReferTo(old(rows), picked, old(nextLease), until, refs)
      ensures nextLease == old(nextLease) + |picked|
    {
      var chosen := SelectDue(now, locked, limit);
      picked := chosen;
      UpdatePicked(chosen, worker, until);
      LeasedRowsRefer(old(rows), rows, chosen, old(nextLease), worker, until);
      refs := Returning(chosen);
      RefsInColumns(old(rows), rows, chosen, old(nextLease), worker, until, refs);
    }

    /** The SELECT half of LeaseNext. */
    method SelectDue(now: int, locked: set<nat>, limit: nat) returns (chosen: seq<nat>)
      ensures IsPick(LeaseKeys(rows), LeaseCandidates(rows, now, locked), limit, chosen)
      ensures TakesDue(rows, now, locked, limit, chosen)
      ensures Distinct(chosen) && forall a :: 0 <= a < |chosen| ==> chosen[a] < |rows|
    {
      chosen := Pick(LeaseKeys(rows), LeaseCandidates(rows, now, locked), limit);
      PickedRows(LeaseKeys(rows), LeaseCandidates(rows, now, locked), limit, chosen);
      PickTakesDue(rows, now, locked, limit, chosen);
    }

    /** The RETURNING half of LeaseNext. */
    method Returning(chosen: seq<nat>) returns (refs: seq<TaskRef>)
      requires forall a :: 0 <= a < |chosen| ==> chosen[a] < |rows|
      requires forall a :: 0 <= a < |chosen| ==> rows[chosen[a]].leaseId.Some? && rows[chosen[a]].leaseUntil.Some?
      ensures |refs| == |chosen|
      ensures forall a :: 0 <= a < |chosen| ==> refs[a] == RefOf(rows[chosen[a]])
    {
      refs := [];
      for k := 0 to |chosen|
        invariant |refs| == k
        invariant forall a :: 0 <= a < k ==> refs[a] == RefOf(rows[chosen[a]])
      {
        refs := refs + [RefOf(rows[chosen[k]])];
      }
    }

    /** The UPDATE half of LeaseNext. */
    method UpdatePicked(chosen: seq<nat>, worker: string, until: int)
      requires forall a :: 0 <= a < |chosen| ==> chosen[a] < |rows|
      requires Distinct(chosen)
      modifies this
      ensures rows == LeaseRows(old(rows), chosen, old(nextLease), worker, until)
      ensures LeasedAs(old(rows), rows, chosen, old(nextLease), worker, until)
      ensures nextLease == old(nextLease) + |chosen|
    {
      LeaseRowsInColumns(rows, chosen, nextLease, worker, until);
      for k := 0 to |chosen|
        invariant |rows| == |old(rows)|
        invariant rows == LeaseRows(old(rows), chosen[..k], old(nextLease), worker, until)
        invariant nextLease == old(nextLease) + k
      {
        assert chosen[..k + 1][..k] == chosen[..k];
        OthersKept(old(rows), chosen[..k], old(nextLease), worker, until, 0, chosen[k]);
        rows := rows[chosen[k] := LeaseRow(rows[chosen[k]], nextLease, worker, until)];
        nextLease := nextLease + 1;
      }
      assert chosen[..|chosen|] == chosen;
    }

    /**
     * Extends the lease of each leased row that answers to this token, and no other row; false when there
     * is none, and then nothing changes.
     */
    method Heartbeat(task: string, lease: Option<nat>, worker: string, extendBy: int, now: int) returns (found: bool)
      modifies this`rows
      ensures |rows| == |old(rows)|
      ensures forall i :: 0 <= i < |rows| ==>
                var r := old(rows)[i];
                var held := r.task == task && r.leaseId == lease && r.worker == worker && r.status == Leased;
                rows[i] == if held then r.(leaseUntil := Some(now + WholeSeconds(extendBy))) else r
      ensures rows == HeartbeatRows(old(rows), task, lease, worker, now + WholeSeconds(extendBy))
      ensures found <==>
                exists r ::
                  r in old(rows) && r.task == task && r.leaseId == lease && r.worker == worker && r.status == Leased
      ensures !found ==> rows == old(rows)
    {
      var until := now + WholeSeconds(extendBy);
      found := false;
      for i := 0 to |rows|
        invariant |rows| == |old(rows)|
        invariant forall j :: 0 <= j < i ==> rows[j] == HeartbeatRows(old(rows), task, lease, worker, until)[j]
        invariant forall j :: i <= j < |rows| ==> rows[j] == old(rows)[j]
        invariant found <==> exists j :: 0 <= j < i && Held(old(rows)[j], task, lease, worker)
      {
        if Held(rows[i], task, lease, worker) {
          rows := rows[i := rows[i].(leaseUntil := Some(until))];
          found := true;
        }
      }
    }

    /**
     * Every row that answers to this token is acked, whatever its status was, and keeps all else, the token
     * included; no other row changes. So a token no row carries does nothing, and a second Ack does nothing.
     */
    method Ack(task: string, lease: Option<nat>, worker: string)
      modifies this`rows
      ensures |rows| == |old(rows)|
      ensures forall i :: 0 <= i < |rows| ==>
                var r := old(rows)[i];
                var answers := r.task == task && r.leaseId == lease && r.worker == worker;
                rows[i] == if answers then r.(status := Acked) else r
      ensures rows == AckRows(old(rows), task, lease, worker) == AckRows(rows, task, lease, worker)
    {
      for i := 0 to |rows|
        invariant |rows| == |old(rows)|
        invariant forall j :: 0 <= j < i ==> rows[j] == AckRows(old(rows), task, lease, worker)[j]
        invariant forall j :: i <= j < |rows| ==> rows[j] == old(rows)[j]
      {
        if Matches(rows[i], task, lease, worker) {
          rows := rows[i := rows[i].(status := Acked)];
        }
      }
    }

    /**
     * Every row that answers to this token loses it, and is dead if it used up its attempts or may not be
     * retried, and otherwise ready again after the delay; no other row changes. So, given a token, a second
     * Nack with it does nothing.
     */
    method Nack(task: string, lease: Option<nat>, worker: string, opts: NackOptions, now: int)
      modifies this`rows
      ensures |rows| == |old(rows)|
      ensures forall i :: 0 <= i < |rows| ==>
                var r := old(rows)[i];
                var answers := r.task == task && r.leaseId == lease && r.worker == worker;
                var dead := (0 < opts.maxAttempts <= r.attemptNo) || opts.dlq || !opts.retryable;
                var at := if opts.nextVisible.Some? then opts.nextVisible.value else now + opts.backoff;
                rows[i] == if answers
                           then r.(status := if dead then Dlq else Ready, availableAt := at,
                                   leaseId := None, leaseUntil := None, worker := "")
                           else r
      ensures rows == NackRows(old(rows), task, lease, worker, opts, now)
      ensures lease.Some? ==> rows == NackRows(rows, task, lease, worker, opts, now)
    {
      for i := 0 to |rows|
        invariant |rows| == |old(rows)|
        invariant forall j :: 0 <= j < i ==> rows[j] == NackRows(old(rows), task, lease, worker, opts, now)[j]
        invariant forall j :: i <= j < |rows| ==> rows[j] == old(rows)[j]
      {
        if Matches(rows[i], task, lease, worker) {
          rows := rows[i := NackRow(rows[i], opts, now)];
        }
      }
    }

    method ReclaimExpiredLeases(limit: int, now: int, locked: set<nat>) returns (n: nat, ghost picked: seq<nat>)
      modifies this`rows
      ensures IsPick(ReclaimKeys(old(rows)), ReclaimCandidates(old(rows), now, locked),
                     if limit <= 0 then 100 else limit, picked)
      ensures rows == ReclaimRows(old(rows), picked, now)
      ensures n == |picked|
      ensures TakesExpired(old(rows), now, locked, if limit <= 0 then 100 else limit, picked)
      ensures ReclaimedAs(old(rows), rows, picked, now)
    {
      var chosen := Pick(ReclaimKeys(rows), ReclaimCandidates(rows, now, locked), if limit <= 0 then 100 else limit);
      picked := chosen;
      PickTakesExpired(rows, now, locked, if limit <= 0 then 100 else limit, chosen);
      ReclaimRowsInColumns(rows, chosen, now);
      for k := 0 to |chosen|
        invariant rows == ReclaimRows(old(rows), chosen[..k], now)
      {
        assert chosen[..k + 1][..k] == chosen[..k];
        OthersKept(old(rows), chosen[..k], 0, "", 0, now, chosen[k]);
        rows := rows[chosen[k] := ReclaimRow(rows[chosen[k]], now)];
      }
      assert chosen[..|chosen|] == chosen;
      n := |chosen|;
    }

    method Depth(tenant: string, project: string) returns (n: nat)
      ensures n == |set i: nat | i < |rows| && rows[i].tenant == tenant && rows[i].project == project
                                 && (rows[i].status == Ready || rows[i].status == Leased)|
    {
      n := 0;
      for k := 0 to |rows|
        invariant n == |set i: nat | i < k && InFlight(rows[i], tenant, project)|
      {
        ghost var before := set i: nat | i < k && InFlight(rows[i], tenant, project);
        ghost var after := set i: nat | i < k + 1 && InFlight(rows[i], tenant, project);
        assert k !in before;
        if InFlight(rows[k], tenant, project) {
          assert after == before + {k};
          n := n + 1;
        } else {
          assert after == before;
        }
      }
      assert (set i: nat | i < |rows| && InFlight(rows[i], tenant, project)) ==
        set i: nat | i < |rows| && rows[i].tenant == tenant && rows[i].project == project
                     && (rows[i].status == Ready || rows[i].status == Leased);
    }
  }
}
