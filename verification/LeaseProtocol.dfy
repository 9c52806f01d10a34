/**
 * The durable worker pools sharing one queue, as a state machine over the queue's SQL statements.
 * Any number of workers lease, heartbeat and settle tasks, or die without settling; a reclaimer takes
 * expired leases back. Every statement is one atomic step and the clock never runs backwards.
 */
module LeaseProtocol {
  import opened Options
  import opened LeaseQueue
  import Backoff

  datatype Config = Config(maxAttempts: nat, maxBackoff: int, leaseDuration: int, unspecified: int)

  /** A lease handed to a worker: the row it came from, what the worker was told, and whether it has settled. */
  datatype Ticket = Ticket(row: nat, ref: TaskRef, worker: string, settled: bool)

  /**
   * `issued[n]` is the lease with token n. `reclaims` holds a row once per reclaim of it, `late` once per
   * reclaim that found it at the attempt limit or past it, and `effective` counts the Acks and Nacks that
   * updated a row; these three only record history.
   */
  datatype State = State(rows: seq<Row>, issued: seq<Ticket>, reclaims: multiset<nat>, late: multiset<nat>,
                         effective: nat, clock: int)

  datatype Action =
    | Enqueue(tenant: string, project: string, task: string, availableAt: Option<int>)
    | Lease(worker: string, maxItems: int, leaseLocked: set<nat>, leased: seq<nat>)
    | Heartbeat(beat: nat)
    | Ack(acked: nat)
    | Nack(nacked: nat)
    | Reclaim(limit: int, reclaimLocked: set<nat>, reclaimed: seq<nat>)

  datatype Event = At(now: int, act: Action)

  function Init(clock: int): State {
    State([], [], multiset{}, multiset{}, 0, clock)
  }

  /** The Nack a pool issues when the handler of an attempt returned an error. */
  function PoolNack(cfg: Config, attemptNo: nat): NackOptions {
    NackOptions(true, Backoff.PoolBackoff(attemptNo, cfg.maxBackoff, cfg.unspecified), false, cfg.maxAttempts, None)
  }

  function LeaseLimit(maxItems: int): nat {
    if maxItems <= 0 then 1 else maxItems
  }

  function ReclaimLimit(limit: int): nat {
    if limit <= 0 then 100 else limit
  }

  /**
   * Who may do what: a worker may heartbeat any lease it was given at any time, even after settling it,
   * and settles each lease at most once. MoveToDLQ has no caller and is no step.
   */
  ghost predicate Enabled(s: State, e: Event) {
    s.clock <= e.now &&
    match e.act
    case Enqueue(_, _, _, _) => true
    case Lease(_, maxItems, locked, picked) =>
      IsPick(LeaseKeys(s.rows), LeaseCandidates(s.rows, e.now, locked), LeaseLimit(maxItems), picked)
    case Heartbeat(n) => n < |s.issued|
    case Ack(n) => n < |s.issued| && !s.issued[n].settled
    case Nack(n) => n < |s.issued| && !s.issued[n].settled
    case Reclaim(limit, locked, picked) =>
      IsPick(ReclaimKeys(s.rows), ReclaimCandidates(s.rows, e.now, locked), ReclaimLimit(limit), picked)
  }

  /** What LeaseNext and ReclaimExpiredLeases select by default and otherwise, these steps may select. */
  lemma DefaultLimits(s: State, now: int, worker: string, limit: int, locked: set<nat>, picked: seq<nat>)
    requires s.clock <= now
    ensures IsPick(LeaseKeys(s.rows), LeaseCandidates(s.rows, now, locked), if limit <= 0 then 1 else limit, picked)
            <==> Enabled(s, At(now, Lease(worker, limit, locked, picked)))
    ensures IsPick(ReclaimKeys(s.rows), ReclaimCandidates(s.rows, now, locked),
                   if limit <= 0 then 100 else limit, picked)
            <==> Enabled(s, At(now, Reclaim(limit, locked, picked)))
  {
  }

  /** One row leased, with the next token. */
  ghost function LeaseOne(s: State, i: nat, worker: string, until: int): State
    requires i < |s.rows|
  {
    var row := LeaseRow(s.rows[i], |s.issued|, worker, until);
    s.(rows := s.rows[i := row], issued := s.issued + [Ticket(i, RefOf(row), worker, false)])
  }

  ghost function ReclaimOne(cfg: Config, s: State, i: nat, now: int): State
    requires i < |s.rows|
  {
    s.(rows := s.rows[i := ReclaimRow(s.rows[i], now)],
       reclaims := s.reclaims + multiset{i},
       late := if s.rows[i].attemptNo >= cfg.maxAttempts then s.late + multiset{i} else s.late)
  }

  ghost function LeaseAll(s: State, picked: seq<nat>, worker: string, until: int): (t: State)
    ensures |t.rows| == |s.rows|
    decreases |picked|
  {
    if picked == [] then s
    else
      var k := |picked| - 1;
      var t := LeaseAll(s, picked[..k], worker, until);
      if picked[k] < |t.rows| then LeaseOne(t, picked[k], worker, until) else t
  }

  ghost function ReclaimAll(cfg: Config, s: State, picked: seq<nat>, now: int): (t: State)
    ensures |t.rows| == |s.rows|
    decreases |picked|
  {
    if picked == [] then s
    else
      var k := |picked| - 1;
      var t := ReclaimAll(cfg, s, picked[..k], now);
      if picked[k] < |t.rows| then ReclaimOne(cfg, t, picked[k], now) else t
  }

  /** Some row answers to this lease of this task held by this worker. */
  ghost predicate Affects(rows: seq<Row>, task: string, lease: nat, worker: string) {
    exists i :: 0 <= i < |rows| && Matches(rows[i], task, Some(lease), worker)
  }

  ghost function Settle(s: State, n: nat, rows: seq<Row>): State
    requires n < |s.issued|
  {
    var t := s.issued[n];
    s.(rows := rows,
       issued := s.issued[n := t.(settled := true)],
       effective := s.effective + if Affects(s.rows, t.ref.task, n, t.worker) then 1 else 0)
  }

  ghost function Act(cfg: Config, s: State, e: Event): State
    requires Enabled(s, e)
  {
    match e.act
    case Enqueue(tenant, project, task, availableAt) =>
      s.(rows := EnqueueRows(s.rows, tenant, project, task, availableAt, e.now))
    case Lease(worker, _, _, picked) => LeaseAll(s, picked, worker, e.now + WholeSeconds(cfg.leaseDuration))
    case Heartbeat(n) =>
      var t := s.issued[n];
      s.(rows := HeartbeatRows(s.rows, t.ref.task, Some(n), t.worker, e.now + WholeSeconds(cfg.leaseDuration)))
    case Ack(n) =>
      var t := s.issued[n];
      Settle(s, n, AckRows(s.rows, t.ref.task, Some(n), t.worker))
    case Nack(n) =>
      var t := s.issued[n];
      Settle(s, n, NackRows(s.rows, t.ref.task, Some(n), t.worker, PoolNack(cfg, t.ref.attemptNo), e.now))
    case Reclaim(_, _, picked) => ReclaimAll(cfg, s, picked, e.now)
  }

  ghost function Step(cfg: Config, s: State, e: Event): State
    requires Enabled(s, e)
  {
    Act(cfg, s, e).(clock := e.now)
  }

  /** The statements run in this order from `s`; a worker that dies simply takes no further steps. */
  ghost predicate CanRun(cfg: Config, s: State, es: seq<Event>)
    decreases |es|, 0
  {
    es == [] ||
    (CanRun(cfg, s, es[..|es| - 1]) && Enabled(Run(cfg, s, es[..|es| - 1]), es[|es| - 1]))
  }

  ghost function Run(cfg: Config, s: State, es: seq<Event>): State
    requires CanRun(cfg, s, es)
    decreases |es|, 1
  {
    if es == [] then s else Step(cfg, Run(cfg, s, es[..|es| - 1]), es[|es| - 1])
  }

  // ---------------------------------------------------------------- sums and counts

  ghost function Sum(s: seq<nat>): nat {
    if s == [] then 0 else Sum(s[..|s| - 1]) + s[|s| - 1]
  }

  lemma {:induction false} SumUpdate(s: seq<nat>, i: nat, x: nat)
    requires i < |s|
    ensures Sum(s[i := x]) == Sum(s) - s[i] + x
  {
    var k := |s| - 1;
    if i == k {
      assert s[i := x][..k] == s[..k];
    } else {
      SumUpdate(s[..k], i, x);
      assert s[i := x][..k] == s[..k][i := x];
    }
  }

  lemma SumAppend(s: seq<nat>, x: nat)
    ensures Sum(s + [x]) == Sum(s) + x
  {
    assert (s + [x])[..|s|] == s;
  }

  ghost function Attempts(rows: seq<Row>): (a: seq<nat>)
    ensures |a| == |rows|
  {
    seq(|rows|, i requires 0 <= i < |rows| => rows[i].attemptNo)
  }

  ghost function LeasedBits(rows: seq<Row>): (a: seq<nat>)
    ensures |a| == |rows|
  {
    seq(|rows|, i requires 0 <= i < |rows| => if rows[i].status == Leased then 1 else 0)
  }

  lemma UpdateSums(rows: seq<Row>, i: nat, r: Row)
    requires i < |rows|
    ensures Sum(Attempts(rows[i := r])) == Sum(Attempts(rows)) - rows[i].attemptNo + r.attemptNo
    ensures Sum(LeasedBits(rows[i := r])) ==
            Sum(LeasedBits(rows)) - (if rows[i].status == Leased then 1 else 0) + (if r.status == Leased then 1 else 0)
  {
    assert Attempts(rows[i := r]) == Attempts(rows)[i := r.attemptNo];
    SumUpdate(Attempts(rows), i, r.attemptNo);
    var b := if r.status == Leased then 1 else 0;
    assert LeasedBits(rows[i := r]) == LeasedBits(rows)[i := b];
    SumUpdate(LeasedBits(rows), i, b);
  }

  lemma AppendSums(rows: seq<Row>, r: Row)
    requires r.attemptNo == 0 && r.status == Ready
    ensures Sum(Attempts(rows + [r])) == Sum(Attempts(rows))
    ensures Sum(LeasedBits(rows + [r])) == Sum(LeasedBits(rows))
  {
    assert Attempts(rows + [r]) == Attempts(rows) + [0];
    SumAppend(Attempts(rows), 0);
    assert LeasedBits(rows + [r]) == LeasedBits(rows) + [0];
    SumAppend(LeasedBits(rows), 0);
  }

  /** How many of these leases were on row i. */
  ghost function CountRow(issued: seq<Ticket>, i: nat): nat {
    if issued == [] then 0
    else CountRow(issued[..|issued| - 1], i) + if issued[|issued| - 1].row == i then 1 else 0
  }

  lemma CountAppend(issued: seq<Ticket>, t: Ticket, i: nat)
    ensures CountRow(issued + [t], i) == CountRow(issued, i) + if t.row == i then 1 else 0
  {
    assert (issued + [t])[..|issued|] == issued;
  }

  lemma {:induction false} CountSettle(issued: seq<Ticket>, n: nat, i: nat)
    requires n < |issued|
    ensures CountRow(issued[n := issued[n].(settled := true)], i) == CountRow(issued, i)
  {
    var k := |issued| - 1;
    var after := issued[n := issued[n].(settled := true)];
    if n == k {
      assert after[..k] == issued[..k];
    } else {
      CountSettle(issued[..k], n, i);
      assert after[..k] == issued[..k][n := issued[n].(settled := true)];
    }
  }

  lemma {:induction false} CountPrefix(issued: seq<Ticket>, n: nat, i: nat)
    requires n <= |issued|
    ensures CountRow(issued[..n], i) <= CountRow(issued, i)
  {
    if n == |issued| {
      assert issued[..n] == issued;
    } else {
      CountPrefix(issued[..|issued| - 1], n, i);
      assert issued[..|issued| - 1][..n] == issued[..n];
    }
  }

  lemma {:induction false} CountNone(issued: seq<Ticket>, i: nat)
    requires forall n :: 0 <= n < |issued| ==> issued[n].row != i
    ensures CountRow(issued, i) == 0
  {
    if issued != [] {
      CountNone(issued[..|issued| - 1], i);
    }
  }

  // ---------------------------------------------------------------- the invariant

  ghost predicate UniqueKeys(rows: seq<Row>) {
    forall i, j :: 0 <= i < j < |rows| ==> !SameKey(rows[i], rows[j].tenant, rows[j].project, rows[j].task)
  }

  /** Row i carries the token of one of its own leases, the latest. */
  ghost predicate Holds(r: Row, i: nat, issued: seq<Ticket>, settled: bool) {
    && r.leaseId.Some? && r.leaseId.value < |issued|
    && var t := issued[r.leaseId.value];
       t.row == i && t.worker == r.worker && t.ref.attemptNo == r.attemptNo && t.settled == settled
  }

  ghost predicate RowOk(r: Row, i: nat, issued: seq<Ticket>) {
    match r.status
    case Ready => r.leaseId.None?
    case Leased => r.leaseUntil.Some? && Holds(r, i, issued, false)
    case Acked => Holds(r, i, issued, true)
    case Dlq => r.leaseId.None?
  }

  ghost predicate TicketOk(rows: seq<Row>, issued: seq<Ticket>, n: nat)
    requires n < |issued|
  {
    var t := issued[n];
    && t.row < |rows|
    && t.ref.leaseId == n
    && SameKey(rows[t.row], t.ref.tenant, t.ref.project, t.ref.task)
    && t.ref.attemptNo == CountRow(issued[..n], t.row) + 1
  }

  ghost predicate RowsOk(rows: seq<Row>, issued: seq<Ticket>) {
    forall i :: 0 <= i < |rows| ==> RowOk(rows[i], i, issued)
  }

  ghost predicate TicketsOk(rows: seq<Row>, issued: seq<Ticket>) {
    forall n :: 0 <= n < |issued| ==> TicketOk(rows, issued, n)
  }

  ghost predicate Counted(rows: seq<Row>, issued: seq<Ticket>) {
    forall i :: 0 <= i < |rows| ==> rows[i].attemptNo == CountRow(issued, i)
  }

  ghost predicate Shape(s: State) {
    UniqueKeys(s.rows) && RowsOk(s.rows, s.issued) && TicketsOk(s.rows, s.issued) && Counted(s.rows, s.issued)
  }

  /**
   * How far a row is from the limit M: with no late reclaim its attempts, and the one it is ready for, are
   * within it, and with k late reclaims they are exactly k past it.
   */
  predicate WithinLimit(M: nat, r: Row, k: nat) {
    var attempts := r.attemptNo + if r.status == Ready then 1 else 0;
    if k == 0 then attempts <= M else attempts == M + k
  }

  ghost predicate Bounded(cfg: Config, s: State) {
    && (forall i :: 0 <= i < |s.rows| ==> WithinLimit(cfg.maxAttempts, s.rows[i], s.late[i]))
    && (forall i :: i in s.late ==> i < |s.rows|)
    && s.late <= s.reclaims
  }

  /** Every lease is still out, or ended by one effective Ack or Nack, or by one reclaim. */
  ghost predicate Conserved(s: State) {
    && |s.issued| == Sum(Attempts(s.rows))
    && |s.issued| == s.effective + |s.reclaims| + Sum(LeasedBits(s.rows))
  }

  ghost predicate Inv(cfg: Config, s: State) {
    Shape(s) && Bounded(cfg, s) && Conserved(s)
  }

  /** Only the row a lease was taken from can carry its token. */
  lemma TokenFindsItsRow(s: State, n: nat, i: nat)
    requires Shape(s) && n < |s.issued| && i < |s.rows|
    ensures s.rows[i].leaseId == Some(n) ==> s.issued[n].row == i
    ensures Matches(s.rows[i], s.issued[n].ref.task, Some(n), s.issued[n].worker) <==> s.rows[i].leaseId == Some(n)
  {
    assert RowOk(s.rows[i], i, s.issued);
    assert TicketOk(s.rows, s.issued, n);
  }

  /** The lease is the one its row currently answers to. */
  ghost predicate Current(s: State, n: nat)
    requires n < |s.issued|
  {
    s.issued[n].row < |s.rows| && s.rows[s.issued[n].row].leaseId == Some(n)
  }

  lemma AffectsIffCurrent(s: State, n: nat)
    requires Shape(s) && n < |s.issued|
    ensures Affects(s.rows, s.issued[n].ref.task, n, s.issued[n].worker) <==> Current(s, n)
  {
    if Affects(s.rows, s.issued[n].ref.task, n, s.issued[n].worker) {
      var i: nat :| i < |s.rows| && Matches(s.rows[i], s.issued[n].ref.task, Some(n), s.issued[n].worker);
      TokenFindsItsRow(s, n, i);
    }
    if Current(s, n) {
      TokenFindsItsRow(s, n, s.issued[n].row);
    }
  }

  // ------------------------------------------------ changing one row, adding one ticket, settling one ticket

  lemma KeysKept(rows: seq<Row>, issued: seq<Ticket>, i: nat, r: Row)
    requires i < |rows| && SameKey(r, rows[i].tenant, rows[i].project, rows[i].task)
    requires UniqueKeys(rows) && TicketsOk(rows, issued)
    ensures UniqueKeys(rows[i := r]) && TicketsOk(rows[i := r], issued)
  {
    var after := rows[i := r];
    forall n | 0 <= n < |issued| ensures TicketOk(after, issued, n) {
      assert TicketOk(rows, issued, n);
    }
  }

  lemma RowKept(rows: seq<Row>, issued: seq<Ticket>, i: nat, r: Row)
    requires i < |rows| && RowsOk(rows, issued) && RowOk(r, i, issued)
    ensures RowsOk(rows[i := r], issued)
  {
    var after := rows[i := r];
    forall j | 0 <= j < |after| ensures RowOk(after[j], j, issued) {
      assert RowOk(rows[j], j, issued);
    }
  }

  lemma RowChanged(cfg: Config, s: State, i: nat, r: Row)
    requires Shape(s) && i < |s.rows|
    requires SameKey(r, s.rows[i].tenant, s.rows[i].project, s.rows[i].task)
    requires r.attemptNo == s.rows[i].attemptNo && RowOk(r, i, s.issued)
    ensures Shape(s.(rows := s.rows[i := r]))
  {
    KeysKept(s.rows, s.issued, i, r);
    RowKept(s.rows, s.issued, i, r);
  }

  lemma RowsOkAppend(rows: seq<Row>, issued: seq<Ticket>, t: Ticket)
    requires RowsOk(rows, issued)
    ensures RowsOk(rows, issued + [t])
  {
    forall j | 0 <= j < |rows| ensures RowOk(rows[j], j, issued + [t]) {
      assert RowOk(rows[j], j, issued);
    }
  }

  lemma TicketsOkAppend(rows: seq<Row>, issued: seq<Ticket>, t: Ticket)
    requires TicketsOk(rows, issued)
    requires t.row < |rows| && t.ref.leaseId == |issued| && t.ref.attemptNo == CountRow(issued, t.row) + 1
    requires SameKey(rows[t.row], t.ref.tenant, t.ref.project, t.ref.task)
    ensures TicketsOk(rows, issued + [t])
  {
    forall m | 0 <= m <= |issued| ensures TicketOk(rows, issued + [t], m) {
      assert (issued + [t])[..m] == issued[..m];
      if m < |issued| {
        assert TicketOk(rows, issued, m);
      } else {
        assert issued[..m] == issued;
      }
    }
  }

  function Settled(issued: seq<Ticket>, n: nat): seq<Ticket>
    requires n < |issued|
  {
    issued[n := issued[n].(settled := true)]
  }

  lemma TicketsOkSettle(rows: seq<Row>, issued: seq<Ticket>, n: nat)
    requires TicketsOk(rows, issued) && n < |issued|
    ensures TicketsOk(rows, Settled(issued, n))
  {
    forall m | 0 <= m < |issued| ensures TicketOk(rows, Settled(issued, n), m) {
      assert TicketOk(rows, issued, m);
      if n < m {
        CountSettle(issued[..m], n, issued[m].row);
        assert Settled(issued, n)[..m] == Settled(issued[..m], n);
      } else {
        assert Settled(issued, n)[..m] == issued[..m];
      }
    }
  }

  lemma RowsOkSettle(rows: seq<Row>, issued: seq<Ticket>, n: nat)
    requires RowsOk(rows, issued) && n < |issued|
    requires forall j :: 0 <= j < |rows| ==> rows[j].leaseId != Some(n)
    ensures RowsOk(rows, Settled(issued, n))
  {
    forall j | 0 <= j < |rows| ensures RowOk(rows[j], j, Settled(issued, n)) {
      assert RowOk(rows[j], j, issued);
    }
  }

  lemma CountedSettle(rows: seq<Row>, issued: seq<Ticket>, n: nat)
    requires Counted(rows, issued) && n < |issued|
    ensures Counted(rows, Settled(issued, n))
  {
    forall j | 0 <= j < |rows| ensures rows[j].attemptNo == CountRow(Settled(issued, n), j) {
      CountSettle(issued, n, j);
    }
  }

  lemma NotCurrentAnywhere(s: State, n: nat)
    requires Shape(s) && n < |s.issued| && !Current(s, n)
    ensures forall j :: 0 <= j < |s.rows| ==> s.rows[j].leaseId != Some(n)
  {
    forall j | 0 <= j < |s.rows| ensures s.rows[j].leaseId != Some(n) {
      TokenFindsItsRow(s, n, j);
    }
  }

  // ------------------------------------------------ every action keeps the invariant

  lemma EnqueueShape(s: State, r: Row)
    requires Shape(s) && r.attemptNo == 0 && r.status == Ready && r.leaseId == None
    requires forall i :: 0 <= i < |s.rows| ==> !SameKey(s.rows[i], r.tenant, r.project, r.task)
    ensures Shape(s.(rows := s.rows + [r]))
  {
    forall n | 0 <= n < |s.issued| ensures TicketOk(s.rows + [r], s.issued, n) && s.issued[n].row != |s.rows| {
      assert TicketOk(s.rows, s.issued, n);
    }
    CountNone(s.issued, |s.rows|);
    forall i | 0 <= i <= |s.rows| ensures RowOk((s.rows + [r])[i], i, s.issued) {
      if i < |s.rows| {
        assert RowOk(s.rows[i], i, s.issued);
      }
    }
  }

  lemma EnqueueKeepsInv(cfg: Config, s: State, e: Event)
    requires Inv(cfg, s) && e.act.Enqueue? && Enabled(s, e) && cfg.maxAttempts >= 1
    ensures Inv(cfg, Step(cfg, s, e))
  {
    var t := Step(cfg, s, e);
    if t.rows != s.rows {
      var r := t.rows[|s.rows|];
      assert t.rows == s.rows + [r];
      EnqueueShape(s, r);
      AppendSums(s.rows, r);
    }
  }

  lemma LeaseOneShape(s: State, i: nat, worker: string, until: int)
    requires Shape(s) && i < |s.rows| && s.rows[i].status == Ready
    ensures Shape(LeaseOne(s, i, worker, until))
  {
    var t := LeaseOne(s, i, worker, until);
    var n := |s.issued|;
    KeysKept(s.rows, s.issued, i, t.rows[i]);
    TicketsOkAppend(t.rows, s.issued, t.issued[n]);
    RowsOkAppend(s.rows, s.issued, t.issued[n]);
    RowKept(s.rows, t.issued, i, t.rows[i]);
    forall j | 0 <= j < |t.rows| ensures t.rows[j].attemptNo == CountRow(t.issued, j) {
      CountAppend(s.issued, t.issued[n], j);
    }
  }

  lemma LeaseOneKeepsInv(cfg: Config, s: State, i: nat, worker: string, until: int)
    requires Inv(cfg, s) && i < |s.rows| && s.rows[i].status == Ready
    ensures Inv(cfg, LeaseOne(s, i, worker, until))
  {
    LeaseOneShape(s, i, worker, until);
    UpdateSums(s.rows, i, LeaseRow(s.rows[i], |s.issued|, worker, until));
  }

  lemma ReclaimOneShape(cfg: Config, s: State, i: nat, now: int)
    requires Shape(s) && i < |s.rows| && s.rows[i].status == Leased
    ensures Shape(ReclaimOne(cfg, s, i, now))
  {
    assert RowOk(s.rows[i], i, s.issued);
    RowChanged(cfg, s, i, ReclaimRow(s.rows[i], now));
  }

  lemma ReclaimOneBounded(cfg: Config, s: State, i: nat, now: int)
    requires Bounded(cfg, s) && i < |s.rows| && s.rows[i].status == Leased
    ensures Bounded(cfg, ReclaimOne(cfg, s, i, now))
  {
    assert WithinLimit(cfg.maxAttempts, s.rows[i], s.late[i]);
  }

  lemma ReclaimOneKeepsInv(cfg: Config, s: State, i: nat, now: int)
    requires Inv(cfg, s) && i < |s.rows| && s.rows[i].status == Leased
    ensures Inv(cfg, ReclaimOne(cfg, s, i, now))
  {
    ReclaimOneShape(cfg, s, i, now);
    ReclaimOneBounded(cfg, s, i, now);
    UpdateSums(s.rows, i, ReclaimRow(s.rows[i], now));
  }

  /** The rows a batch statement takes: distinct, and all ready, or all leased. */
  ghost predicate Takes(rows: seq<Row>, picked: seq<nat>, status: Status) {
    Distinct(picked) && forall a :: 0 <= a < |picked| ==> picked[a] < |rows| && rows[picked[a]].status == status
  }

  /** Row by row, the table ends as the statement leaves it, and a lease is issued for each row. */
  lemma {:induction false} LeaseAllRows(s: State, picked: seq<nat>, worker: string, until: int)
    requires forall a :: 0 <= a < |picked| ==> picked[a] < |s.rows|
    ensures var t := LeaseAll(s, picked, worker, until);
            t.rows == LeaseRows(s.rows, picked, |s.issued|, worker, until) &&
            t.reclaims == s.reclaims && t.late == s.late && t.effective == s.effective &&
            |t.issued| == |s.issued| + |picked| && s.issued <= t.issued
    decreases |picked|
  {
    if picked != [] {
      LeaseAllRows(s, picked[..|picked| - 1], worker, until);
    }
  }

  /** The last of the batch, whose row the others left alone. */
  lemma LeaseAllLast(s: State, picked: seq<nat>, worker: string, until: int)
    requires picked != [] && Takes(s.rows, picked, Ready)
    ensures var k := |picked| - 1;
            var t := LeaseAll(s, picked[..k], worker, until);
            && Takes(s.rows, picked[..k], Ready)
            && picked[k] < |t.rows| && t.rows[picked[k]] == s.rows[picked[k]]
            && LeaseAll(s, picked, worker, until) == LeaseOne(t, picked[k], worker, until)
  {
    var k := |picked| - 1;
    LeaseAllRows(s, picked[..k], worker, until);
    OthersKept(s.rows, picked[..k], |s.issued|, worker, until, 0, picked[k]);
  }

  lemma {:induction false} LeaseAllKeepsInv(cfg: Config, s: State, picked: seq<nat>, worker: string, until: int)
    requires Inv(cfg, s) && Takes(s.rows, picked, Ready)
    ensures Inv(cfg, LeaseAll(s, picked, worker, until))
    decreases |picked|
  {
    if picked != [] {
      var k := |picked| - 1;
      LeaseAllLast(s, picked, worker, until);
      LeaseAllKeepsInv(cfg, s, picked[..k], worker, until);
      LeaseOneKeepsInv(cfg, LeaseAll(s, picked[..k], worker, until), picked[k], worker, until);
    }
  }

  /** A batch lease is the UPDATE statement: the same rows, tokens in the order picked, nothing else touched. */
  lemma LeaseAllIsStatement(cfg: Config, s: State, picked: seq<nat>, worker: string, until: int)
    requires Inv(cfg, s) && Takes(s.rows, picked, Ready)
    ensures var t := LeaseAll(s, picked, worker, until);
            Inv(cfg, t) && t.rows == LeaseRows(s.rows, picked, |s.issued|, worker, until) &&
            t.reclaims == s.reclaims && t.effective == s.effective &&
            |t.issued| == |s.issued| + |picked| && s.issued <= t.issued
  {
    LeaseAllRows(s, picked, worker, until);
    LeaseAllKeepsInv(cfg, s, picked, worker, until);
  }

  lemma {:induction false} ReclaimAllIsStatement(cfg: Config, s: State, picked: seq<nat>, now: int)
    requires Inv(cfg, s) && Takes(s.rows, picked, Leased)
    ensures var t := ReclaimAll(cfg, s, picked, now);
            Inv(cfg, t) && t.rows == ReclaimRows(s.rows, picked, now) &&
            t.issued == s.issued && t.effective == s.effective && |t.reclaims| == |s.reclaims| + |picked|
    decreases |picked|
  {
    if picked != [] {
      var k := |picked| - 1;
      ReclaimAllIsStatement(cfg, s, picked[..k], now);
      OthersKept(s.rows, picked[..k], 0, "", 0, now, picked[k]);
      ReclaimOneKeepsInv(cfg, ReclaimAll(cfg, s, picked[..k], now), picked[k], now);
    }
  }

  /** A statement aimed at lease n that rewrites matching rows with f, seen from the lease's row. */
  lemma StaleChangesNothing(s: State, n: nat, rows: seq<Row>)
    requires Shape(s) && n < |s.issued| && |rows| == |s.rows|
    requires forall i :: 0 <= i < |rows| && !Matches(s.rows[i], s.issued[n].ref.task, Some(n), s.issued[n].worker) ==>
               rows[i] == s.rows[i]
    ensures Current(s, n) ==> rows == s.rows[s.issued[n].row := rows[s.issued[n].row]]
    ensures !Current(s, n) ==> rows == s.rows
  {
    assert TicketOk(s.rows, s.issued, n);
    forall i | 0 <= i < |rows| && (i != s.issued[n].row || !Current(s, n))
      ensures rows[i] == s.rows[i]
    {
      TokenFindsItsRow(s, n, i);
    }
  }

  /** Before it settles, a current lease is on a leased row. */
  lemma UnsettledIsLeased(s: State, n: nat)
    requires Shape(s) && n < |s.issued| && Current(s, n)
    ensures RowOk(s.rows[s.issued[n].row], s.issued[n].row, s.issued)
    ensures !s.issued[n].settled ==> s.rows[s.issued[n].row].status == Leased
    ensures s.issued[n].settled ==> s.rows[s.issued[n].row].status == Acked
  {
  }

  /** What settling makes of the row of a lease: acked, dead, or ready again below the limit. */
  predicate Settles(cfg: Config, was: Row, r: Row) {
    && SameKey(r, was.tenant, was.project, was.task) && r.attemptNo == was.attemptNo
    && (|| r == was.(status := Acked)
        || (r.status == Dlq && r.leaseId == None)
        || (r.status == Ready && r.leaseId == None && r.attemptNo < cfg.maxAttempts))
  }

  lemma SettleRowsOk(s: State, n: nat, r: Row)
    requires Shape(s) && n < |s.issued| && !s.issued[n].settled && Current(s, n)
    requires var was := s.rows[s.issued[n].row];
             r == was.(status := Acked) || ((r.status == Dlq || r.status == Ready) && r.leaseId == None)
    ensures RowsOk(s.rows[s.issued[n].row := r], Settled(s.issued, n))
  {
    var i := s.issued[n].row;
    UnsettledIsLeased(s, n);
    var cleared := s.rows[i].(status := Ready, leaseId := None);
    RowKept(s.rows, s.issued, i, cleared);
    var mid := s.rows[i := cleared];
    forall j | 0 <= j < |mid| ensures mid[j].leaseId != Some(n) {
      if j != i {
        TokenFindsItsRow(s, n, j);
      }
    }
    RowsOkSettle(mid, s.issued, n);
    RowKept(mid, Settled(s.issued, n), i, r);
    assert mid[i := r] == s.rows[i := r];
  }

  lemma SettleShape(cfg: Config, s: State, n: nat, r: Row)
    requires Shape(s) && n < |s.issued| && !s.issued[n].settled && Current(s, n) &&
             Settles(cfg, s.rows[s.issued[n].row], r)
    ensures Shape(Settle(s, n, s.rows[s.issued[n].row := r]))
  {
    var i := s.issued[n].row;
    KeysKept(s.rows, s.issued, i, r);
    TicketsOkSettle(s.rows[i := r], s.issued, n);
    SettleRowsOk(s, n, r);
    CountedSettle(s.rows[i := r], s.issued, n);
  }

  /** A current lease that has not settled settles with its row. */
  lemma SettleCurrent(cfg: Config, s: State, n: nat, r: Row)
    requires Inv(cfg, s) && n < |s.issued| && !s.issued[n].settled && Current(s, n) &&
             Settles(cfg, s.rows[s.issued[n].row], r)
    ensures Inv(cfg, Settle(s, n, s.rows[s.issued[n].row := r]))
  {
    SettleShape(cfg, s, n, r);
    SettleConserved(cfg, s, n, r, Settle(s, n, s.rows[s.issued[n].row := r]));
  }

  lemma SettleConserved(cfg: Config, s: State, n: nat, r: Row, t: State)
    requires Shape(s) && Conserved(s) && n < |s.issued| && !s.issued[n].settled && Current(s, n)
    requires Settles(cfg, s.rows[s.issued[n].row], r) && t == Settle(s, n, s.rows[s.issued[n].row := r])
    ensures Conserved(t)
  {
    UnsettledIsLeased(s, n);
    AffectsIffCurrent(s, n);
    UpdateSums(s.rows, s.issued[n].row, r);
  }

  lemma SettleStale(cfg: Config, s: State, n: nat)
    requires Inv(cfg, s) && n < |s.issued| && !Current(s, n)
    ensures Inv(cfg, Settle(s, n, s.rows))
  {
    AffectsIffCurrent(s, n);
    NotCurrentAnywhere(s, n);
    RowsOkSettle(s.rows, s.issued, n);
    TicketsOkSettle(s.rows, s.issued, n);
    CountedSettle(s.rows, s.issued, n);
  }

  lemma ExtendedKeepsInv(cfg: Config, s: State, i: nat, until: int)
    requires Inv(cfg, s) && i < |s.rows| && s.rows[i].status == Leased
    ensures Inv(cfg, s.(rows := s.rows[i := s.rows[i].(leaseUntil := Some(until))]))
  {
    var r := s.rows[i].(leaseUntil := Some(until));
    assert RowOk(s.rows[i], i, s.issued);
    RowChanged(cfg, s, i, r);
    UpdateSums(s.rows, i, r);
  }

  /** A heartbeat extends the row of its lease, if that is current and leased, or changes nothing. */
  lemma HeartbeatShape(s: State, n: nat, until: int)
    requires Shape(s) && n < |s.issued|
    ensures var rows := HeartbeatRows(s.rows, s.issued[n].ref.task, Some(n), s.issued[n].worker, until);
            rows == if Current(s, n) && s.rows[s.issued[n].row].status == Leased
                    then s.rows[s.issued[n].row := s.rows[s.issued[n].row].(leaseUntil := Some(until))] else s.rows
  {
    StaleChangesNothing(s, n, HeartbeatRows(s.rows, s.issued[n].ref.task, Some(n), s.issued[n].worker, until));
    if Current(s, n) {
      TokenFindsItsRow(s, n, s.issued[n].row);
    }
  }

  lemma HeartbeatOk(cfg: Config, s: State, n: nat, until: int, t: State)
    requires Inv(cfg, s) && n < |s.issued|
    requires t == s.(rows := HeartbeatRows(s.rows, s.issued[n].ref.task, Some(n), s.issued[n].worker, until))
    ensures Inv(cfg, t)
  {
    HeartbeatShape(s, n, until);
    if Current(s, n) && s.rows[s.issued[n].row].status == Leased {
      ExtendedKeepsInv(cfg, s, s.issued[n].row, until);
    }
  }

  lemma HeartbeatAct(cfg: Config, s: State, e: Event)
    requires e.act.Heartbeat? && Enabled(s, e)
    ensures var t := s.issued[e.act.beat];
            Act(cfg, s, e) ==
            s.(rows := HeartbeatRows(s.rows, t.ref.task, Some(e.act.beat), t.worker,
                                     e.now + WholeSeconds(cfg.leaseDuration)))
  {
  }

  lemma HeartbeatKeepsInv(cfg: Config, s: State, e: Event)
    requires Inv(cfg, s) && e.act.Heartbeat? && Enabled(s, e)
    ensures Inv(cfg, Act(cfg, s, e))
  {
    HeartbeatAct(cfg, s, e);
    HeartbeatOk(cfg, s, e.act.beat, e.now + WholeSeconds(cfg.leaseDuration), Act(cfg, s, e));
  }

  lemma SettlingKeepsInv(cfg: Config, s: State, e: Event)
    requires cfg.maxAttempts >= 1 && Inv(cfg, s) && (e.act.Ack? || e.act.Nack?) && Enabled(s, e)
    ensures Inv(cfg, Step(cfg, s, e))
  {
    var n := if e.act.Ack? then e.act.acked else e.act.nacked;
    var t := Step(cfg, s, e);
    StaleChangesNothing(s, n, t.rows);
    if Current(s, n) {
      var was := s.rows[s.issued[n].row];
      TokenFindsItsRow(s, n, s.issued[n].row);
      assert t.rows[s.issued[n].row] ==
        if e.act.Ack? then was.(status := Acked) else NackRow(was, PoolNack(cfg, s.issued[n].ref.attemptNo), e.now);
      SettleCurrent(cfg, s, n, t.rows[s.issued[n].row]);
    } else {
      SettleStale(cfg, s, n);
    }
  }

  lemma BatchTakes(s: State, e: Event)
    requires Enabled(s, e)
    ensures e.act.Lease? ==> Takes(s.rows, e.act.leased, Ready)
    ensures e.act.Reclaim? ==> Takes(s.rows, e.act.reclaimed, Leased)
  {
    match e.act
    case Lease(_, maxItems, locked, picked) =>
      PickedRows(LeaseKeys(s.rows), LeaseCandidates(s.rows, e.now, locked), LeaseLimit(maxItems), picked);
    case Reclaim(limit, locked, picked) =>
      PickedRows(ReclaimKeys(s.rows), ReclaimCandidates(s.rows, e.now, locked), ReclaimLimit(limit), picked);
    case _ =>
  }

  lemma LeaseOk(cfg: Config, s: State, picked: seq<nat>, worker: string, until: int, t: State)
    requires Inv(cfg, s) && Takes(s.rows, picked, Ready) && t == LeaseAll(s, picked, worker, until)
    ensures Inv(cfg, t)
  {
    LeaseAllKeepsInv(cfg, s, picked, worker, until);
  }

  lemma LeaseKeepsInv(cfg: Config, s: State, e: Event)
    requires Inv(cfg, s) && e.act.Lease? && Enabled(s, e)
    ensures Inv(cfg, Act(cfg, s, e))
  {
    BatchTakes(s, e);
    LeaseOk(cfg, s, e.act.leased, e.act.worker, e.now + WholeSeconds(cfg.leaseDuration), Act(cfg, s, e));
  }

  lemma ReclaimKeepsInv(cfg: Config, s: State, e: Event)
    requires Inv(cfg, s) && e.act.Reclaim? && Enabled(s, e)
    ensures Inv(cfg, Act(cfg, s, e))
  {
    BatchTakes(s, e);
    ReclaimAllIsStatement(cfg, s, e.act.reclaimed, e.now);
  }

  /** The clock is no part of the invariant. */
  lemma ClockIsFree(cfg: Config, s: State, now: int)
    requires Inv(cfg, s)
    ensures Inv(cfg, s.(clock := now))
  {
  }

  lemma ActKeepsInv(cfg: Config, s: State, e: Event)
    requires Inv(cfg, s) && (e.act.Heartbeat? || e.act.Lease? || e.act.Reclaim?) && Enabled(s, e)
    ensures Inv(cfg, Act(cfg, s, e))
  {
    if e.act.Heartbeat? {
      HeartbeatKeepsInv(cfg, s, e);
    } else if e.act.Lease? {
      LeaseKeepsInv(cfg, s, e);
    } else {
      ReclaimKeepsInv(cfg, s, e);
    }
  }

  lemma StepKeepsInv(cfg: Config, s: State, e: Event)
    requires cfg.maxAttempts >= 1 && Inv(cfg, s) && Enabled(s, e)
    ensures Inv(cfg, Step(cfg, s, e))
  {
    if e.act.Enqueue? {
      EnqueueKeepsInv(cfg, s, e);
    } else if e.act.Ack? || e.act.Nack? {
      SettlingKeepsInv(cfg, s, e);
    } else {
      ActKeepsInv(cfg, s, e);
      ClockIsFree(cfg, Act(cfg, s, e), e.now);
    }
  }

  lemma {:induction false} RunKeepsInv(cfg: Config, s: State, es: seq<Event>)
    requires cfg.maxAttempts >= 1 && Inv(cfg, s) && CanRun(cfg, s, es)
    ensures Inv(cfg, Run(cfg, s, es))
    decreases |es|
  {
    if es != [] {
      RunKeepsInv(cfg, s, es[..|es| - 1]);
      StepKeepsInv(cfg, Run(cfg, s, es[..|es| - 1]), es[|es| - 1]);
    }
  }

  // ---------------------------------------------------------------- theorems about every run

  ghost predicate Reachable(cfg: Config, s: State) {
    exists clock, es :: CanRun(cfg, Init(clock), es) && s == Run(cfg, Init(clock), es)
  }

  lemma ReachableInv(cfg: Config, s: State)
    requires cfg.maxAttempts >= 1 && Reachable(cfg, s)
    ensures Inv(cfg, s)
  {
    var clock, es :| CanRun(cfg, Init(clock), es) && s == Run(cfg, Init(clock), es);
    RunKeepsInv(cfg, Init(clock), es);
  }
}
