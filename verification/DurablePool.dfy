/** The durable worker pool object: its defaults, and the queue statements its loops issue. */
module DurablePool {
  import opened Options
  import opened LeaseQueue
  import LeaseProtocol
  import Backoff

  class DurableWorkerPool {
    const queue: PostgresQueue
    const workerID: string
    const workerCount: int
    const leaseDuration: int
    const heartbeatInterval: int
    const pollInterval: int
    const reclaimInterval: int
    const maxAttempts: nat
    const maxBackoff: int
    const unspecified: int
    var active: int

    /** Missing or non-positive options take their defaults, so every pool has a limit of at least one attempt. */
    constructor (queue: PostgresQueue, workerID: string, workerCount: int, leaseDuration: int, heartbeatInterval: int,
                 pollInterval: int, reclaimInterval: int, maxAttempts: int, maxBackoff: int, unspecified: int)
      ensures this.queue == queue && active == 0
      ensures this.workerID == if workerID == "" then "worker-unknown" else workerID
      ensures this.workerCount == if workerCount <= 0 then 1 else workerCount
      ensures this.pollInterval == if pollInterval <= 0 then Backoff.SECOND / 2 else pollInterval
      ensures this.reclaimInterval == if reclaimInterval <= 0 then this.leaseDuration else reclaimInterval
      ensures this.workerCount >= 1 && this.leaseDuration > 0 && this.pollInterval > 0
      ensures this.reclaimInterval > 0 && this.maxAttempts >= 1 && this.maxBackoff > 0
      ensures this.leaseDuration == if leaseDuration <= 0 then 30 * Backoff.SECOND else leaseDuration
      ensures this.heartbeatInterval == if heartbeatInterval <= 0 then this.leaseDuration / 3 else heartbeatInterval
      ensures this.maxAttempts == if maxAttempts <= 0 then 3 else maxAttempts
      ensures this.maxBackoff == if maxBackoff <= 0 then 60 * Backoff.SECOND else maxBackoff
      ensures this.unspecified == unspecified
    {
      this.queue := queue;
      this.workerID := if workerID == "" then "worker-unknown" else workerID;
      this.workerCount := if workerCount <= 0 then 1 else workerCount;
      var lease := if leaseDuration <= 0 then 30 * Backoff.SECOND else leaseDuration;
      this.leaseDuration := lease;
      this.heartbeatInterval := if heartbeatInterval <= 0 then lease / 3 else heartbeatInterval;
      this.pollInterval := if pollInterval <= 0 then Backoff.SECOND / 2 else pollInterval;
      this.reclaimInterval := if reclaimInterval <= 0 then lease else reclaimInterval;
      this.maxAttempts := if maxAttempts <= 0 then 3 else maxAttempts;
      this.maxBackoff := if maxBackoff <= 0 then 60 * Backoff.SECOND else maxBackoff;
      this.unspecified := unspecified;
      this.active := 0;
    }

    function Config(): LeaseProtocol.Config {
      LeaseProtocol.Config(maxAttempts, maxBackoff, leaseDuration, unspecified)
    }

    /** The statement that settles a task, as a step of the queue's machine. */
    function Settling(ref: TaskRef, failed: bool, now: int): LeaseProtocol.Event {
      LeaseProtocol.At(now, if failed then LeaseProtocol.Nack(ref.leaseId) else LeaseProtocol.Ack(ref.leaseId))
    }

    /** The task was leased by this pool, and not settled, in a state of the queue's machine with this table. */
    ghost predicate Holds(s: LeaseProtocol.State, ref: TaskRef)
      reads queue
    {
      && s.rows == queue.rows && ref.leaseId < |s.issued|
      && s.issued[ref.leaseId].ref == ref && s.issued[ref.leaseId].worker == workerID && !s.issued[ref.leaseId].settled
    }

    /**
     * The end of a task: one Ack if the handler succeeded, one Nack if it did not, and never both. From any
     * state of the queue's machine in which this pool holds the task, that is one of its steps.
     */
    method HandleOne(ref: TaskRef, failed: bool, now: int, ghost s: LeaseProtocol.State)
      requires Holds(s, ref) && s.clock <= now
      modifies queue`rows, this`active
      ensures active == old(active)
      ensures queue.rows ==
              if failed
              then NackRows(old(queue.rows), ref.task, Some(ref.leaseId), workerID,
                            LeaseProtocol.PoolNack(Config(), ref.attemptNo), now)
              else AckRows(old(queue.rows), ref.task, Some(ref.leaseId), workerID)
      ensures LeaseProtocol.Enabled(s, Settling(ref, failed, now))
      ensures queue.rows == LeaseProtocol.Step(Config(), s, Settling(ref, failed, now)).rows
    {
      active := active + 1;
      if !failed {
        queue.Ack(ref.task, Some(ref.leaseId), workerID);
      } else {
        var backoff := Backoff.PoolBackoff(ref.attemptNo, maxBackoff, unspecified);
        queue.Nack(ref.task, Some(ref.leaseId), workerID, NackOptions(true, backoff, false, maxAttempts, None), now);
      }
      active := active - 1;
    }

    /** A heartbeat tick for a task this pool was given, settled or not: a step of the queue's machine. */
    method Beat(ref: TaskRef, now: int, ghost s: LeaseProtocol.State) returns (found: bool)
      requires s.rows == queue.rows && s.clock <= now && ref.leaseId < |s.issued|
      requires s.issued[ref.leaseId].ref == ref && s.issued[ref.leaseId].worker == workerID
      modifies queue`rows
      ensures queue.rows == HeartbeatRows(old(queue.rows), ref.task, Some(ref.leaseId), workerID,
                                          now + WholeSeconds(leaseDuration))
      ensures var e := LeaseProtocol.At(now, LeaseProtocol.Heartbeat(ref.leaseId));
              LeaseProtocol.Enabled(s, e) && LeaseProtocol.Step(Config(), s, e).rows == queue.rows
    {
      found := queue.Heartbeat(ref.task, Some(ref.leaseId), workerID, leaseDuration, now);
    }

    /**
     * One poll tick that nobody interrupts: at most one task is leased, and whatever was leased is
     * settled under its own token at time `done`. It is a run of the queue's machine; what others do in
     * between is in that machine's runs.
     */
    method PollOnce(now: int, locked: set<nat>, failed: bool, done: int, ghost s: LeaseProtocol.State)
        returns (ghost picked: seq<nat>, ghost es: seq<LeaseProtocol.Event>)
      requires leaseDuration > 0 && s.clock <= now <= done
      requires s.rows == queue.rows && |s.issued| == queue.nextLease
      modifies queue, this`active
      ensures IsPick(LeaseKeys(old(queue.rows)), LeaseCandidates(old(queue.rows), now, locked), 1, picked)
      ensures picked == [] ==> queue.rows == old(queue.rows)
      ensures picked != [] ==>
                var token := old(queue.nextLease);
                var leased := LeaseRows(old(queue.rows), picked, token, workerID, now + WholeSeconds(leaseDuration));
                var task := leased[picked[0]];
                queue.rows ==
                if failed
                then NackRows(leased, task.task, Some(token), workerID,
                              LeaseProtocol.PoolNack(Config(), task.attemptNo), done)
                else AckRows(leased, task.task, Some(token), workerID)
      ensures LeaseProtocol.CanRun(Config(), s, es) && LeaseProtocol.Run(Config(), s, es).rows == queue.rows
    {
      var refs;
      ghost var e, t;
      refs, picked, e, t := LeaseOne(now, locked, s);
      es := [e];
      if |refs| == 0 {
        return;
      }
      HandleOne(refs[0], failed, done, t);
      es := [e] + [Settling(refs[0], failed, done)];
      OneMore(Config(), s, [e], Settling(refs[0], failed, done));
    }

    /** The lease of at most one task, as a step of the queue's machine. */
    method LeaseOne(now: int, locked: set<nat>, ghost s: LeaseProtocol.State)
        returns (refs: seq<TaskRef>, ghost picked: seq<nat>, ghost e: LeaseProtocol.Event,
                 ghost t: LeaseProtocol.State)
      requires leaseDuration > 0 && s.clock <= now && s.rows == queue.rows && |s.issued| == queue.nextLease
      modifies queue
      ensures IsPick(LeaseKeys(old(queue.rows)), LeaseCandidates(old(queue.rows), now, locked), 1, picked)
      ensures queue.rows == LeaseRows(old(queue.rows), picked, old(queue.nextLease), workerID,
                                      now + WholeSeconds(leaseDuration))
      ensures LeaseProtocol.CanRun(Config(), s, [e]) && t == LeaseProtocol.Run(Config(), s, [e])
      ensures t.rows == queue.rows && t.clock == now && |refs| == |picked| <= 1
      ensures |refs| == 1 ==>
                && Holds(t, refs[0]) && picked[0] < |queue.rows| && queue.rows[picked[0]].task == refs[0].task
                && queue.rows[picked[0]].attemptNo == refs[0].attemptNo && refs[0].leaseId == old(queue.nextLease)
    {
      refs, picked := queue.LeaseNext(workerID, 1, leaseDuration, now, locked);
      e := LeaseProtocol.At(now, LeaseProtocol.Lease(workerID, 1, locked, picked));
      t := LeasedOne(Config(), s, e, queue.rows);
    }

    /** A reclaim tick takes back up to a hundred leases, and is a step of the queue's machine. */
    method ReclaimTick(now: int, locked: set<nat>, ghost s: LeaseProtocol.State)
        returns (n: nat, ghost picked: seq<nat>)
      requires s.clock <= now && s.rows == queue.rows && LeaseProtocol.Inv(Config(), s)
      modifies queue`rows
      ensures TakesExpired(old(queue.rows), now, locked, 100, picked)
      ensures ReclaimedAs(old(queue.rows), queue.rows, picked, now) && n == |picked|
      ensures var e := LeaseProtocol.At(now, LeaseProtocol.Reclaim(100, locked, picked));
              LeaseProtocol.Enabled(s, e) && LeaseProtocol.Step(Config(), s, e).rows == queue.rows
    {
      n, picked := queue.ReclaimExpiredLeases(100, now, locked);
      LeaseProtocol.BatchTakes(s, LeaseProtocol.At(now, LeaseProtocol.Reclaim(100, locked, picked)));
      LeaseProtocol.ReclaimAllIsStatement(Config(), s, picked, now);
    }
  }

  lemma OneMore(cfg: LeaseProtocol.Config, s: LeaseProtocol.State, es: seq<LeaseProtocol.Event>, e: LeaseProtocol.Event)
    requires LeaseProtocol.CanRun(cfg, s, es) && LeaseProtocol.Enabled(LeaseProtocol.Run(cfg, s, es), e)
    ensures LeaseProtocol.CanRun(cfg, s, es + [e])
    ensures LeaseProtocol.Run(cfg, s, es + [e]) == LeaseProtocol.Step(cfg, LeaseProtocol.Run(cfg, s, es), e)
  {
    assert (es + [e])[..|es|] == es;
  }

  /** The lease of at most one row, as a step of the queue's machine, and the ticket it issues. */
  lemma LeasedOne(cfg: LeaseProtocol.Config, s: LeaseProtocol.State, e: LeaseProtocol.Event, rows: seq<Row>)
      returns (t: LeaseProtocol.State)
    requires e.act.Lease? && LeaseProtocol.Enabled(s, e) && |e.act.leased| <= 1
    requires rows == LeaseRows(s.rows, e.act.leased, |s.issued|, e.act.worker, e.now + WholeSeconds(cfg.leaseDuration))
    ensures LeaseProtocol.CanRun(cfg, s, [e]) && t == LeaseProtocol.Run(cfg, s, [e]) && t.rows == rows &&
            t.clock == e.now
    ensures e.act.leased != [] ==>
              && |t.issued| == |s.issued| + 1 && e.act.leased[0] < |rows|
              && rows[e.act.leased[0]].leaseId.Some? && rows[e.act.leased[0]].leaseUntil.Some?
              && t.issued[|s.issued|] == LeaseProtocol.Ticket(e.act.leased[0], RefOf(rows[e.act.leased[0]]),
                                                              e.act.worker, false)
  {
    assert LeaseProtocol.CanRun(cfg, s, []);
    OneMore(cfg, s, [], e);
    assert [] + [e] == [e];
    t := LeaseProtocol.Step(cfg, s, e);
    LeaseProtocol.BatchTakes(s, e);
    LeaseProtocol.LeaseAllRows(s, e.act.leased, e.act.worker, e.now + WholeSeconds(cfg.leaseDuration));
    if e.act.leased != [] {
      assert e.act.leased[..0] == [];
    }
  }
}
