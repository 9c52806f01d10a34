/**
 * The queue's machine and the Postgres path as one system over one task table: creations enqueue, leases
 * give rise to handler calls, and what a call returns is what its lease is settled with.
 */
module DurableSystem {
  import opened MetadataStore
  import opened DurableProtocol
  import opened DurableCreations
  import LeaseQueue
  import L = LeaseProtocol
  import LeaseTheorems

  /** The queue's state, and the events of the Postgres path so far. A handler goes by the token of its lease. */
  datatype System = System(l: L.State, es: seq<Event>)

  datatype Move = PathStep(ev: Event) | QueueStep(e: L.Event)

  ghost function Path(upsert: bool, s: System): State
    requires CanRun(upsert, Init(), s.es)
  {
    RunAll(upsert, Init(), s.es)
  }

  ghost predicate Begun(es: seq<Event>, n: nat) {
    exists i :: 0 <= i < |es| && es[i].Begin? && es[i].h == n
  }

  /** A call is made for a lease that is out, once, with the lease's task and attempt number. */
  ghost predicate CallOf(l: L.State, n: nat, a: Attempt) {
    n < |l.issued| && a.attemptNo == l.issued[n].ref.attemptNo && a.executionId == l.issued[n].ref.task
  }

  /**
   * The queue moves only by its statements, and only creations enqueue. A lease is acked when its handler
   * returned without an error, and nacked when it returned one or could not read the execution.
   */
  ghost predicate MayMove(upsert: bool, s: System, m: Move) {
    CanRun(upsert, Init(), s.es) &&
    match m
    case PathStep(ev) =>
      && !ev.QueueMoves? && Enabled(Path(upsert, s), ev)
      && (ev.Create? ==> s.l.clock <= ev.now)
      && (ev.Begin? ==> CallOf(s.l, ev.h, ev.attempt) && !s.l.issued[ev.h].settled && !Begun(s.es, ev.h))
    case QueueStep(e) =>
      var d := Path(upsert, s);
      && L.Enabled(s.l, e) && !e.act.Enqueue?
      && (e.act.Ack? ==> e.act.acked in d.handlers && d.handlers[e.act.acked].phase == Returned(true))
      && (e.act.Nack? && Begun(s.es, e.act.nacked) ==>
            e.act.nacked in d.handlers && d.handlers[e.act.nacked].phase == Returned(false))
  }

  function Enqueuing(ev: Event): L.Event
    requires ev.Create?
  {
    L.At(ev.now, L.Enqueue(ev.e.tenant, ev.e.project, ev.e.id, ev.availableAt))
  }

  ghost function Moved(cfg: L.Config, upsert: bool, s: System, m: Move): System
    requires MayMove(upsert, s, m)
  {
    match m
    case PathStep(ev) =>
      System(if ev.Create? && ev.after != Path(upsert, s).db then L.Step(cfg, s.l, Enqueuing(ev)) else s.l, s.es + [ev])
    case QueueStep(e) =>
      var l := L.Step(cfg, s.l, e);
      System(l, s.es + [QueueMoves(l.rows)])
  }

  ghost predicate MayRun(cfg: L.Config, upsert: bool, clock: int, ms: seq<Move>)
    decreases |ms|, 0
  {
    ms == [] || (MayRun(cfg, upsert, clock, ms[..|ms| - 1]) &&
                 MayMove(upsert, SystemAfter(cfg, upsert, clock, ms[..|ms| - 1]), ms[|ms| - 1]))
  }

  /** The system after a run from the empty database. */
  ghost function SystemAfter(cfg: L.Config, upsert: bool, clock: int, ms: seq<Move>): System
    requires MayRun(cfg, upsert, clock, ms)
    decreases |ms|, 1
  {
    if ms == [] then System(L.Init(clock), [])
    else Moved(cfg, upsert, SystemAfter(cfg, upsert, clock, ms[..|ms| - 1]), ms[|ms| - 1])
  }

  // ---------------------------------------------------------------- the two machines stay together

  /** Every handler call was made for a lease of its own. */
  ghost predicate OneCallPerLease(l: L.State, es: seq<Event>) {
    && (forall i :: 0 <= i < |es| && es[i].Begin? ==> CallOf(l, es[i].h, es[i].attempt))
    && (forall i, j :: 0 <= i < j < |es| && es[i].Begin? && es[j].Begin? ==> es[i].h != es[j].h)
  }

  ghost predicate Together(cfg: L.Config, upsert: bool, s: System) {
    && CanRun(upsert, Init(), s.es) && L.Reachable(cfg, s.l)
    && Path(upsert, s).db.queue == s.l.rows
    && OneCallPerLease(s.l, s.es)
  }

  predicate SameTask(a: LeaseQueue.Row, b: LeaseQueue.Row) {
    LeaseQueue.SameKey(a, b.tenant, b.project, b.task)
  }

  lemma {:induction false} LeaseKeepsTask(rows: seq<LeaseQueue.Row>, picked: seq<nat>, first: nat, worker: string,
                                          until: int, i: nat)
    requires i < |rows|
    ensures SameTask(rows[i], LeaseQueue.LeaseRows(rows, picked, first, worker, until)[i])
    decreases |picked|
  {
    if picked != [] {
      LeaseKeepsTask(rows, picked[..|picked| - 1], first, worker, until, i);
    }
  }

  lemma {:induction false} ReclaimKeepsTask(rows: seq<LeaseQueue.Row>, picked: seq<nat>, now: int, i: nat)
    requires i < |rows|
    ensures SameTask(rows[i], LeaseQueue.ReclaimRows(rows, picked, now)[i])
    decreases |picked|
  {
    if picked != [] {
      ReclaimKeepsTask(rows, picked[..|picked| - 1], now, i);
    }
  }

  lemma LeasesKeepTasks(rows: seq<LeaseQueue.Row>, picked: seq<nat>, first: nat, worker: string, until: int)
    ensures SameTasks(rows, LeaseQueue.LeaseRows(rows, picked, first, worker, until))
  {
    forall i: nat | i < |rows| ensures SameTask(rows[i], LeaseQueue.LeaseRows(rows, picked, first, worker, until)[i]) {
      LeaseKeepsTask(rows, picked, first, worker, until, i);
    }
  }

  lemma ReclaimsKeepTasks(rows: seq<LeaseQueue.Row>, picked: seq<nat>, now: int)
    ensures SameTasks(rows, LeaseQueue.ReclaimRows(rows, picked, now))
  {
    forall i: nat | i < |rows| ensures SameTask(rows[i], LeaseQueue.ReclaimRows(rows, picked, now)[i]) {
      ReclaimKeepsTask(rows, picked, now, i);
    }
  }

  lemma LeasedRows(cfg: L.Config, l: L.State, e: L.Event, t: L.State)
    requires L.Enabled(l, e) && e.act.Lease? && t == L.Step(cfg, l, e)
    ensures t.rows == LeaseQueue.LeaseRows(l.rows, e.act.leased, |l.issued|, e.act.worker,
                                           e.now + LeaseQueue.WholeSeconds(cfg.leaseDuration))
  {
    L.BatchTakes(l, e);
    L.LeaseAllRows(l, e.act.leased, e.act.worker, e.now + LeaseQueue.WholeSeconds(cfg.leaseDuration));
  }

  lemma ReclaimedRows(cfg: L.Config, l: L.State, e: L.Event, t: L.State)
    requires L.Inv(cfg, l) && L.Enabled(l, e) && e.act.Reclaim? && t == L.Step(cfg, l, e)
    ensures t.rows == LeaseQueue.ReclaimRows(l.rows, e.act.reclaimed, e.now)
  {
    L.BatchTakes(l, e);
    L.ReclaimAllIsStatement(cfg, l, e.act.reclaimed, e.now);
  }

  lemma BatchKeepsTasks(cfg: L.Config, l: L.State, e: L.Event)
    requires L.Inv(cfg, l) && L.Enabled(l, e) && (e.act.Lease? || e.act.Reclaim?)
    ensures SameTasks(l.rows, L.Step(cfg, l, e).rows)
  {
    if e.act.Lease? {
      LeasedRows(cfg, l, e, L.Step(cfg, l, e));
      LeasesKeepTasks(l.rows, e.act.leased, |l.issued|, e.act.worker,
                      e.now + LeaseQueue.WholeSeconds(cfg.leaseDuration));
    } else {
      ReclaimedRows(cfg, l, e, L.Step(cfg, l, e));
      ReclaimsKeepTasks(l.rows, e.act.reclaimed, e.now);
    }
  }

  /** No statement but Enqueue changes which tasks there are. */
  lemma StatementsKeepTasks(cfg: L.Config, l: L.State, e: L.Event)
    requires L.Inv(cfg, l) && L.Enabled(l, e) && !e.act.Enqueue?
    ensures SameTasks(l.rows, L.Step(cfg, l, e).rows)
  {
    if e.act.Lease? || e.act.Reclaim? {
      BatchKeepsTasks(cfg, l, e);
    }
  }

  /** Only creations and the queue itself move rows. */
  lemma QueueStays(upsert: bool, s: State, ev: Event)
    requires Enabled(s, ev) && !ev.Create? && !ev.QueueMoves?
    ensures Step(upsert, s, ev).db.queue == s.db.queue
  {
  }

  /** What is issued stays issued. */
  lemma CallsKept(cfg: L.Config, l: L.State, e: L.Event, es: seq<Event>)
    requires L.Inv(cfg, l) && L.Enabled(l, e) && OneCallPerLease(l, es)
    ensures OneCallPerLease(L.Step(cfg, l, e), es)
  {
    LeaseTheorems.StepPreserves(cfg, l, e);
    forall i | 0 <= i < |es| && es[i].Begin? ensures CallOf(L.Step(cfg, l, e), es[i].h, es[i].attempt) {
      assert CallOf(l, es[i].h, es[i].attempt);
    }
  }

  lemma CallAdded(l: L.State, es: seq<Event>, ev: Event)
    requires OneCallPerLease(l, es)
    requires ev.Begin? ==> CallOf(l, ev.h, ev.attempt) && !Begun(es, ev.h)
    ensures OneCallPerLease(l, es + [ev])
  {
  }

  lemma QueueStepTogether(cfg: L.Config, upsert: bool, s: System, e: L.Event)
    requires cfg.maxAttempts >= 1 && Together(cfg, upsert, s) && MayMove(upsert, s, QueueStep(e))
    ensures Together(cfg, upsert, Moved(cfg, upsert, s, QueueStep(e)))
  {
    var l := L.Step(cfg, s.l, e);
    L.ReachableInv(cfg, s.l);
    LeaseTheorems.ReachableStep(cfg, s.l, e);
    StatementsKeepTasks(cfg, s.l, e);
    CallsKept(cfg, s.l, e, s.es);
    CallAdded(l, s.es, QueueMoves(l.rows));
    Extend(upsert, Init(), s.es, QueueMoves(l.rows), s.es + [QueueMoves(l.rows)]);
  }

  lemma CreationTogether(cfg: L.Config, upsert: bool, s: System, ev: Event)
    requires cfg.maxAttempts >= 1 && Together(cfg, upsert, s) && MayMove(upsert, s, PathStep(ev)) && ev.Create?
    ensures Together(cfg, upsert, Moved(cfg, upsert, s, PathStep(ev)))
  {
    var d := Path(upsert, s);
    CreateOutcome(d, ev);
    Extend(upsert, Init(), s.es, ev, s.es + [ev]);
    CallAdded(s.l, s.es, ev);
    if ev.after != d.db {
      L.ReachableInv(cfg, s.l);
      LeaseTheorems.ReachableStep(cfg, s.l, Enqueuing(ev));
      CallsKept(cfg, s.l, Enqueuing(ev), s.es + [ev]);
    }
  }

  lemma PathStepTogether(cfg: L.Config, upsert: bool, s: System, ev: Event)
    requires cfg.maxAttempts >= 1 && Together(cfg, upsert, s) && MayMove(upsert, s, PathStep(ev)) && !ev.Create?
    ensures Together(cfg, upsert, Moved(cfg, upsert, s, PathStep(ev)))
  {
    Extend(upsert, Init(), s.es, ev, s.es + [ev]);
    QueueStays(upsert, Path(upsert, s), ev);
    CallAdded(s.l, s.es, ev);
  }

  /** Over every run of the system: both machines are in states their own runs reach, with one table between them. */
  lemma {:induction false} StaysTogether(cfg: L.Config, upsert: bool, clock: int, ms: seq<Move>)
    requires cfg.maxAttempts >= 1 && MayRun(cfg, upsert, clock, ms)
    ensures Together(cfg, upsert, SystemAfter(cfg, upsert, clock, ms))
    decreases |ms|
  {
    if ms == [] {
      assert L.CanRun(cfg, L.Init(clock), []) && L.Init(clock) == L.Run(cfg, L.Init(clock), []);
    } else {
      var front, last := ms[..|ms| - 1], ms[|ms| - 1];
      StaysTogether(cfg, upsert, clock, front);
      var s := SystemAfter(cfg, upsert, clock, front);
      if last.QueueStep? {
        QueueStepTogether(cfg, upsert, s, last.e);
      } else if last.ev.Create? {
        CreationTogether(cfg, upsert, s, last.ev);
      } else {
        PathStepTogether(cfg, upsert, s, last.ev);
      }
    }
  }

  // ---------------------------------------------------------------- leases number the attempts

  /** A task id names one row, because an execution has one. */
  lemma TaskNamesRow(cfg: L.Config, upsert: bool, s: System)
    requires cfg.maxAttempts >= 1 && Together(cfg, upsert, s)
    ensures TasksDistinct(s.l.rows) && TasksKnown(s.l.rows, Path(upsert, s).db.executions)
    ensures forall n: nat :: n < |s.l.issued| ==>
              s.l.issued[n].row < |s.l.rows| && s.l.rows[s.l.issued[n].row].task == s.l.issued[n].ref.task
    ensures forall m: nat, n: nat :: m < n < |s.l.issued| && s.l.issued[m].ref.task == s.l.issued[n].ref.task ==>
              s.l.issued[m].row == s.l.issued[n].row
  {
    CreationsAreAllOrNothing(upsert, s.es);
    L.ReachableInv(cfg, s.l);
    forall n: nat | n < |s.l.issued|
      ensures s.l.issued[n].row < |s.l.rows| && s.l.rows[s.l.issued[n].row].task == s.l.issued[n].ref.task
    {
      assert L.TicketOk(s.l.rows, s.l.issued, n);
    }
  }

  lemma TwoCallsDiffer(cfg: L.Config, upsert: bool, s: System, m: nat, n: nat, a: Attempt, b: Attempt)
    requires cfg.maxAttempts >= 1 && Together(cfg, upsert, s) && m < n && CallOf(s.l, m, a) && CallOf(s.l, n, b)
    ensures !SameAttempt(a, b)
  {
    if s.l.issued[m].ref.task == s.l.issued[n].ref.task {
      TaskNamesRow(cfg, upsert, s);
      L.ReachableInv(cfg, s.l);
      LeaseTheorems.SameTaskIffSameRow(s.l, m, n);
      LeaseTheorems.AttemptKeysAreFresh(cfg, s.l, m, n);
    }
  }

  /** However the queue came to hand out the leases, no two calls share an execution and an attempt number. */
  lemma LeasesNumberCalls(cfg: L.Config, upsert: bool, clock: int, ms: seq<Move>)
    requires cfg.maxAttempts >= 1 && MayRun(cfg, upsert, clock, ms)
    ensures NumbersFresh(SystemAfter(cfg, upsert, clock, ms).es)
  {
    StaysTogether(cfg, upsert, clock, ms);
    var s := SystemAfter(cfg, upsert, clock, ms);
    forall i, j | 0 <= i < j < |s.es| && s.es[i].Begin? && s.es[j].Begin?
      ensures !SameAttempt(s.es[i].attempt, s.es[j].attempt)
    {
      if s.es[i].h < s.es[j].h {
        TwoCallsDiffer(cfg, upsert, s, s.es[i].h, s.es[j].h, s.es[i].attempt, s.es[j].attempt);
      } else {
        TwoCallsDiffer(cfg, upsert, s, s.es[j].h, s.es[i].h, s.es[j].attempt, s.es[i].attempt);
      }
    }
  }

  /** So in every run of the system the insert that opens an attempt meets neither its id nor its key. */
  lemma LeasedAttemptsOpen(cfg: L.Config, upsert: bool, clock: int, ms: seq<Move>, h: nat)
    requires cfg.maxAttempts >= 1 && MayRun(cfg, upsert, clock, ms)
    requires CanRun(upsert, Init(), SystemAfter(cfg, upsert, clock, ms).es)
    requires var d := Path(upsert, SystemAfter(cfg, upsert, clock, ms)); h in d.handlers && d.handlers[h].phase == Read
    ensures var d := Path(upsert, SystemAfter(cfg, upsert, clock, ms));
            !AttemptClash(d.db.attempts, d.handlers[h].attempt)
  {
    LeasesNumberCalls(cfg, upsert, clock, ms);
    OpeningNeverClashes(upsert, SystemAfter(cfg, upsert, clock, ms).es);
  }
}
