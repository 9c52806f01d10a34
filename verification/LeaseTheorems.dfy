/** What the lease protocol guarantees in every reachable state and over every continuation of a run. */
module LeaseTheorems {
  import opened Options
  import opened Lists
  import opened LeaseQueue
  import opened LeaseProtocol
  import Backoff

  // ---------------------------------------------------------------- fencing

  /**
   * A lease that has not settled can still act on the table exactly while its row answers to it;
   * a heartbeat that lands after its own Ack or Nack, or after a reclaim, finds nothing to update.
   */
  lemma Fencing(cfg: Config, s: State, n: nat, opts: NackOptions, now: int, until: int)
    requires cfg.maxAttempts >= 1 && Reachable(cfg, s) && n < |s.issued|
    ensures var t := s.issued[n];
            && (!t.settled ==> (AckRows(s.rows, t.ref.task, Some(n), t.worker) != s.rows <==> Current(s, n)))
            && (!t.settled ==>
                  (NackRows(s.rows, t.ref.task, Some(n), t.worker, opts, now) != s.rows <==> Current(s, n)))
            && (!Current(s, n) || t.settled ==> HeartbeatRows(s.rows, t.ref.task, Some(n), t.worker, until) == s.rows)
            && (!Current(s, n) ==> AckRows(s.rows, t.ref.task, Some(n), t.worker) == s.rows)
            && (!Current(s, n) ==> NackRows(s.rows, t.ref.task, Some(n), t.worker, opts, now) == s.rows)
  {
    ReachableInv(cfg, s);
    var t := s.issued[n];
    var acked := AckRows(s.rows, t.ref.task, Some(n), t.worker);
    var nacked := NackRows(s.rows, t.ref.task, Some(n), t.worker, opts, now);
    var beaten := HeartbeatRows(s.rows, t.ref.task, Some(n), t.worker, until);
    StaleChangesNothing(s, n, acked);
    StaleChangesNothing(s, n, nacked);
    StaleChangesNothing(s, n, beaten);
    if Current(s, n) {
      UnsettledIsLeased(s, n);
      TokenFindsItsRow(s, n, t.row);
      if !t.settled {
        assert acked[t.row].status != s.rows[t.row].status;
        assert nacked[t.row].leaseId != s.rows[t.row].leaseId;
      } else {
        assert beaten[t.row] == s.rows[t.row];
      }
    }
  }

  /** A row is leased exactly while one of its leases is out: unsettled and current. There is never a second. */
  lemma OneLeaseOut(cfg: Config, s: State, i: nat)
    requires cfg.maxAttempts >= 1 && Reachable(cfg, s) && i < |s.rows|
    ensures s.rows[i].status == Leased <==>
            exists n: nat :: n < |s.issued| && s.issued[n].row == i && Current(s, n) && !s.issued[n].settled
    ensures forall m: nat, n: nat | m < |s.issued| && n < |s.issued| && s.issued[m].row == i && s.issued[n].row == i ::
              Current(s, m) && Current(s, n) ==> m == n
  {
    ReachableInv(cfg, s);
    assert RowOk(s.rows[i], i, s.issued);
    if s.rows[i].status == Leased {
      assert Current(s, s.rows[i].leaseId.value);
    }
    if exists n: nat :: n < |s.issued| && s.issued[n].row == i && Current(s, n) && !s.issued[n].settled {
      var n: nat :| n < |s.issued| && s.issued[n].row == i && Current(s, n) && !s.issued[n].settled;
      UnsettledIsLeased(s, n);
    }
  }

  // ---------------------------------------------------------------- what one step may do to a row and to a lease

  predicate Final(r: Row) {
    r.status == Acked || r.status == Dlq
  }

  ghost predicate Preserved(s: State, t: State) {
    && |s.rows| <= |t.rows| && |s.issued| <= |t.issued|
    && (forall i :: 0 <= i < |s.rows| && Final(s.rows[i]) ==> t.rows[i] == s.rows[i])
    && (forall n :: 0 <= n < |s.issued| ==> t.issued[n].row == s.issued[n].row && t.issued[n].ref == s.issued[n].ref)
    && (forall n: nat :: n < |s.issued| && !Current(s, n) ==> !Current(t, n))
  }

  /** A batch statement touches only rows that are not final, and never brings an old token back. */
  lemma BatchPreserves(s: State, t: State, picked: seq<nat>)
    requires TicketsOk(s.rows, s.issued) && |t.rows| == |s.rows| && s.issued <= t.issued
    requires forall i :: 0 <= i < |s.rows| && i !in picked ==> t.rows[i] == s.rows[i]
    requires forall i :: 0 <= i < |s.rows| && i in picked ==>
               !Final(s.rows[i]) && (t.rows[i].leaseId.None? || t.rows[i].leaseId.value >= |s.issued|)
    ensures Preserved(s, t)
  {
    forall n: nat | n < |s.issued| && !Current(s, n) ensures !Current(t, n) {
      assert TicketOk(s.rows, s.issued, n);
    }
  }

  lemma LeasePreserves(cfg: Config, s: State, picked: seq<nat>, worker: string, until: int)
    requires Inv(cfg, s) && Takes(s.rows, picked, Ready)
    ensures Preserved(s, LeaseAll(s, picked, worker, until))
  {
    LeaseAllIsStatement(cfg, s, picked, worker, until);
    var t := LeaseAll(s, picked, worker, until);
    forall i | 0 <= i < |s.rows|
      ensures i !in picked ==> t.rows[i] == s.rows[i]
      ensures i in picked ==>
                s.rows[i].status == Ready && t.rows[i].leaseId.Some? && t.rows[i].leaseId.value >= |s.issued|
    {
      if i in picked {
        var a: nat :| a < |picked| && picked[a] == i;
        PickedUpdated(s.rows, picked, |s.issued|, worker, until, 0, a);
      } else {
        OthersKept(s.rows, picked, |s.issued|, worker, until, 0, i);
      }
    }
    BatchPreserves(s, t, picked);
  }

  lemma ReclaimPreserves(cfg: Config, s: State, picked: seq<nat>, now: int)
    requires Inv(cfg, s) && Takes(s.rows, picked, Leased)
    ensures Preserved(s, ReclaimAll(cfg, s, picked, now))
  {
    ReclaimAllIsStatement(cfg, s, picked, now);
    var t := ReclaimAll(cfg, s, picked, now);
    forall i | 0 <= i < |s.rows|
      ensures i !in picked ==> t.rows[i] == s.rows[i]
      ensures i in picked ==> s.rows[i].status == Leased && t.rows[i].leaseId == None
    {
      if i in picked {
        var a: nat :| a < |picked| && picked[a] == i;
        PickedUpdated(s.rows, picked, 0, "", 0, now, a);
      } else {
        OthersKept(s.rows, picked, 0, "", 0, now, i);
      }
    }
    BatchPreserves(s, t, picked);
  }

  lemma EnqueuePreserves(cfg: Config, s: State, e: Event)
    requires Inv(cfg, s) && e.act.Enqueue? && Enabled(s, e)
    ensures Preserved(s, Step(cfg, s, e))
  {
    forall n: nat | n < |s.issued| && !Current(s, n) ensures !Current(Step(cfg, s, e), n) {
      assert TicketOk(s.rows, s.issued, n);
    }
  }

  /** A statement aimed at one lease touches only the row that answers to it, which is not final before it settles. */
  lemma RowPreserves(s: State, t: State, i: nat)
    requires TicketsOk(s.rows, s.issued) && i < |s.rows| == |t.rows| && t.rows == s.rows[i := t.rows[i]] &&
             |t.issued| == |s.issued|
    requires !Final(s.rows[i]) || t.rows[i] == s.rows[i]
    requires t.rows[i].leaseId == s.rows[i].leaseId || t.rows[i].leaseId == None
    requires forall n :: 0 <= n < |s.issued| ==>
               t.issued[n].row == s.issued[n].row && t.issued[n].ref == s.issued[n].ref
    ensures Preserved(s, t)
  {
    forall n: nat | n < |s.issued| && !Current(s, n) ensures !Current(t, n) {
      assert TicketOk(s.rows, s.issued, n);
    }
  }

  lemma AimedPreserves(cfg: Config, s: State, e: Event)
    requires Inv(cfg, s) && (e.act.Heartbeat? || e.act.Ack? || e.act.Nack?) && Enabled(s, e)
    ensures Preserved(s, Step(cfg, s, e))
  {
    var t := Step(cfg, s, e);
    var n := if e.act.Heartbeat? then e.act.beat else if e.act.Ack? then e.act.acked else e.act.nacked;
    assert TicketOk(s.rows, s.issued, n);
    StaleChangesNothing(s, n, t.rows);
    if Current(s, n) {
      UnsettledIsLeased(s, n);
      TokenFindsItsRow(s, n, s.issued[n].row);
    }
    RowPreserves(s, t, s.issued[n].row);
  }

  lemma BatchStepPreserves(cfg: Config, s: State, e: Event)
    requires Inv(cfg, s) && Enabled(s, e) && (e.act.Lease? || e.act.Reclaim?)
    ensures Preserved(s, Act(cfg, s, e))
  {
    BatchTakes(s, e);
    if e.act.Lease? {
      LeasePreserves(cfg, s, e.act.leased, e.act.worker, e.now + WholeSeconds(cfg.leaseDuration));
    } else {
      ReclaimPreserves(cfg, s, e.act.reclaimed, e.now);
    }
  }

  lemma ClockPreserves(s: State, t: State, now: int)
    requires Preserved(s, t)
    ensures Preserved(s, t.(clock := now))
  {
  }

  lemma StepPreserves(cfg: Config, s: State, e: Event)
    requires Inv(cfg, s) && Enabled(s, e)
    ensures Preserved(s, Step(cfg, s, e))
  {
    if e.act.Lease? || e.act.Reclaim? {
      BatchStepPreserves(cfg, s, e);
      ClockPreserves(s, Act(cfg, s, e), e.now);
    } else if e.act.Enqueue? {
      EnqueuePreserves(cfg, s, e);
    } else {
      AimedPreserves(cfg, s, e);
    }
  }

  /**
   * Over every continuation of a run: an acked or dead row never changes again in any field, and a
   * lease that stopped being current never becomes current again.
   */
  lemma {:induction false} EndsAreAbsorbing(cfg: Config, s: State, es: seq<Event>)
    requires cfg.maxAttempts >= 1 && Inv(cfg, s) && CanRun(cfg, s, es)
    ensures Preserved(s, Run(cfg, s, es))
    decreases |es|
  {
    if es != [] {
      var front := es[..|es| - 1];
      EndsAreAbsorbing(cfg, s, front);
      RunKeepsInv(cfg, s, front);
      StepPreserves(cfg, Run(cfg, s, front), es[|es| - 1]);
    }
  }

  // ---------------------------------------------------------------- how long a lease lasts

  /** The lease is out: not settled, and its row answers to it. */
  ghost predicate Out(s: State, n: nat) {
    && n < |s.issued| && !s.issued[n].settled
    && s.issued[n].row < |s.rows| && s.rows[s.issued[n].row].leaseId == Some(n)
  }

  /** What ends a lease that is out: its own Ack or Nack, or a reclaim of its row. */
  predicate Ends(e: Event, n: nat, i: nat) {
    e.act == Ack(n) || e.act == Nack(n) || (e.act.Reclaim? && i in e.act.reclaimed)
  }

  /** The row of a lease that is out is not ready, and so not leased again. */
  lemma LeaseOut(s: State, picked: seq<nat>, worker: string, until: int, n: nat, t: State)
    requires Shape(s) && Takes(s.rows, picked, Ready) && Out(s, n) && t == LeaseAll(s, picked, worker, until)
    ensures Out(t, n) && t.issued[n] == s.issued[n] && t.rows[s.issued[n].row] == s.rows[s.issued[n].row]
  {
    UnsettledIsLeased(s, n);
    LeaseAllRows(s, picked, worker, until);
    OthersKept(s.rows, picked, |s.issued|, worker, until, 0, s.issued[n].row);
  }

  lemma ReclaimOut(cfg: Config, s: State, picked: seq<nat>, now: int, n: nat, t: State)
    requires Inv(cfg, s) && Takes(s.rows, picked, Leased) && Out(s, n) && t == ReclaimAll(cfg, s, picked, now)
    ensures t.issued == s.issued && (Out(t, n) <==> s.issued[n].row !in picked)
    ensures s.issued[n].row !in picked ==> t.rows[s.issued[n].row] == s.rows[s.issued[n].row]
  {
    var i := s.issued[n].row;
    ReclaimAllIsStatement(cfg, s, picked, now);
    if i in picked {
      var a: nat :| a < |picked| && picked[a] == i;
      PickedUpdated(s.rows, picked, 0, "", 0, now, a);
    } else {
      OthersKept(s.rows, picked, 0, "", 0, now, i);
    }
  }

  lemma BatchOut(cfg: Config, s: State, e: Event, n: nat, t: State)
    requires Inv(cfg, s) && Enabled(s, e) && (e.act.Lease? || e.act.Reclaim?) && Out(s, n) && t == Act(cfg, s, e)
    ensures Out(t, n) <==> !Ends(e, n, s.issued[n].row)
    ensures n < |t.issued| && t.issued[n] == s.issued[n]
    ensures Out(t, n) ==> t.rows[s.issued[n].row].leaseUntil == s.rows[s.issued[n].row].leaseUntil
  {
    BatchTakes(s, e);
    if e.act.Lease? {
      LeaseOut(s, e.act.leased, e.act.worker, e.now + WholeSeconds(cfg.leaseDuration), n, t);
    } else {
      ReclaimOut(cfg, s, e.act.reclaimed, e.now, n, t);
    }
  }

  /** And after a statement aimed at one lease. */
  lemma AimedOut(cfg: Config, s: State, e: Event, n: nat, t: State)
    requires Inv(cfg, s) && Enabled(s, e) && (e.act.Heartbeat? || e.act.Ack? || e.act.Nack?) && Out(s, n)
    requires t == Step(cfg, s, e)
    ensures Out(t, n) <==> !Ends(e, n, s.issued[n].row)
    ensures n < |t.issued| && t.issued[n].row == s.issued[n].row
    ensures Out(t, n) ==> t.rows[s.issued[n].row].leaseUntil ==
                          if e.act == Heartbeat(n) then Some(e.now + WholeSeconds(cfg.leaseDuration))
                          else s.rows[s.issued[n].row].leaseUntil
  {
    var m := if e.act.Heartbeat? then e.act.beat else if e.act.Ack? then e.act.acked else e.act.nacked;
    StaleChangesNothing(s, m, t.rows);
    UnsettledIsLeased(s, n);
    if m == n {
      TokenFindsItsRow(s, n, s.issued[n].row);
    }
  }

  /**
   * A lease that is out stays out over a step unless that is its own Ack or Nack, or a reclaim of its row,
   * which comes after the row's end; and only its own heartbeat moves that end.
   */
  lemma LeaseEndsIff(cfg: Config, s: State, e: Event, n: nat)
    requires Inv(cfg, s) && Enabled(s, e) && Out(s, n)
    ensures var t := Step(cfg, s, e);
            var i := s.issued[n].row;
            && n < |t.issued| && t.issued[n].row == i && (Out(t, n) <==> !Ends(e, n, i))
            && s.rows[i].leaseUntil.Some?
            && (e.act.Reclaim? && i in e.act.reclaimed ==> s.rows[i].leaseUntil.value < e.now)
            && (Out(t, n) ==> t.rows[i].leaseUntil ==
                              if e.act == Heartbeat(n) then Some(e.now + WholeSeconds(cfg.leaseDuration))
                              else s.rows[i].leaseUntil)
  {
    UnsettledIsLeased(s, n);
    assert RowOk(s.rows[s.issued[n].row], s.issued[n].row, s.issued);
    if e.act.Lease? || e.act.Reclaim? {
      BatchOut(cfg, s, e, n, Act(cfg, s, e));
      if e.act.Reclaim? {
        PickTakesExpired(s.rows, e.now, e.act.reclaimLocked, ReclaimLimit(e.act.limit), e.act.reclaimed);
      }
    } else if !e.act.Enqueue? {
      AimedOut(cfg, s, e, n, Step(cfg, s, e));
    }
  }

  /** Nobody settles the lease, and every reclaim comes no later than `until`. */
  ghost predicate Undisturbed(es: seq<Event>, n: nat, until: int) {
    forall k :: 0 <= k < |es| ==>
      es[k].act != Ack(n) && es[k].act != Nack(n) && (es[k].act.Reclaim? ==> es[k].now <= until)
  }

  lemma {:induction false} StaysOut(cfg: Config, s: State, n: nat, es: seq<Event>, until: int)
    requires cfg.maxAttempts >= 1 && Inv(cfg, s) && CanRun(cfg, s, es) && Out(s, n) && Undisturbed(es, n, until)
    requires s.rows[s.issued[n].row].leaseUntil.Some? && s.rows[s.issued[n].row].leaseUntil.value >= until
    requires until <= s.clock + WholeSeconds(cfg.leaseDuration)
    ensures var t := Run(cfg, s, es);
            && Out(t, n) && t.issued[n].row == s.issued[n].row && s.clock <= t.clock
            && t.rows[t.issued[n].row].leaseUntil.Some? && t.rows[t.issued[n].row].leaseUntil.value >= until
    decreases |es|
  {
    if es != [] {
      var front, last := es[..|es| - 1], es[|es| - 1];
      StaysOut(cfg, s, n, front, until);
      RunKeepsInv(cfg, s, front);
      LeaseEndsIff(cfg, Run(cfg, s, front), last, n);
    }
  }

  /** The leases a step issues are out, until the lease duration, in whole seconds, after the step. */
  lemma IssuedIsOut(cfg: Config, s: State, e: Event, n: nat, until: int, t: State)
    requires Inv(cfg, s) && e.act.Lease? && Enabled(s, e) && until == e.now + WholeSeconds(cfg.leaseDuration)
    requires t == Step(cfg, s, e) && |s.issued| <= n < |t.issued|
    ensures Out(t, n) && t.rows[t.issued[n].row].leaseUntil == Some(until)
  {
    LeaseSteps(cfg, s, e, until, t);
    LeasedIsOut(s, e.act.leased, e.act.worker, until, n - |s.issued|, LeaseAll(s, e.act.leased, e.act.worker, until));
  }

  lemma LeaseSteps(cfg: Config, s: State, e: Event, until: int, t: State)
    requires e.act.Lease? && Enabled(s, e) && t == Step(cfg, s, e) && until == e.now + WholeSeconds(cfg.leaseDuration)
    ensures Takes(s.rows, e.act.leased, Ready)
    ensures t == LeaseAll(s, e.act.leased, e.act.worker, until).(clock := e.now)
  {
    BatchTakes(s, e);
  }

  lemma LeasedIsOut(s: State, picked: seq<nat>, worker: string, until: int, a: nat, t: State)
    requires Takes(s.rows, picked, Ready) && t == LeaseAll(s, picked, worker, until) && |s.issued| + a < |t.issued|
    ensures Out(t, |s.issued| + a) && t.rows[t.issued[|s.issued| + a].row].leaseUntil == Some(until)
  {
    LeaseAllRows(s, picked, worker, until);
    LeaseAllTickets(s, picked, worker, until, a);
    PickedUpdated(s.rows, picked, |s.issued|, worker, until, 0, a);
  }

  lemma {:induction false} LeaseAllTickets(s: State, picked: seq<nat>, worker: string, until: int, a: nat)
    requires a < |picked| && forall b :: 0 <= b < |picked| ==> picked[b] < |s.rows|
    ensures var t := LeaseAll(s, picked, worker, until);
            && |s.issued| + a < |t.issued|
            && t.issued[|s.issued| + a].row == picked[a] && !t.issued[|s.issued| + a].settled
    decreases |picked|
  {
    var k := |picked| - 1;
    LeaseAllRows(s, picked[..k], worker, until);
    if a < k {
      LeaseAllTickets(s, picked[..k], worker, until, a);
    }
  }

  /**
   * A lease given at some time keeps its row, over every continuation in which it is not settled, for as
   * long as no reclaim comes later than that time plus the whole seconds of the lease duration.
   */
  lemma LeaseIsKept(cfg: Config, s: State, e: Event, n: nat, es: seq<Event>)
    requires cfg.maxAttempts >= 1 && Reachable(cfg, s) && e.act.Lease? && Enabled(s, e)
    requires |s.issued| <= n < |Step(cfg, s, e).issued| && CanRun(cfg, Step(cfg, s, e), es)
    requires Undisturbed(es, n, e.now + WholeSeconds(cfg.leaseDuration))
    ensures var t := Run(cfg, Step(cfg, s, e), es);
            var i := Step(cfg, s, e).issued[n].row;
            i < |t.rows| && t.rows[i].status == Leased && t.rows[i].leaseId == Some(n)
  {
    ReachableInv(cfg, s);
    StepKeepsInv(cfg, s, e);
    var until := e.now + WholeSeconds(cfg.leaseDuration);
    IssuedIsOut(cfg, s, e, n, until, Step(cfg, s, e));
    StaysOut(cfg, Step(cfg, s, e), n, es, until);
    RunKeepsInv(cfg, Step(cfg, s, e), es);
    UnsettledIsLeased(Run(cfg, Step(cfg, s, e), es), n);
  }

  // ---------------------------------------------------------------- how many leases there can be

  lemma TimesStep(k: nat, m: nat)
    ensures (k + 1) * m == k * m + m
  {
  }

  lemma {:induction false} SumBound(rows: seq<Row>, extra: multiset<nat>, m: nat)
    requires forall i :: 0 <= i < |rows| ==> rows[i].attemptNo <= m + extra[i]
    ensures Sum(Attempts(rows)) <= |rows| * m + |extra|
  {
    if rows != [] {
      var k := |rows| - 1;
      var front, rest := rows[..k], extra[k := 0];
      assert forall i :: 0 <= i < k ==> front[i].attemptNo <= m + rest[i];
      SumBound(front, rest, m);
      TimesStep(k, m);
      assert Attempts(rows)[..k] == Attempts(front);
    }
  }

  /**
   * With an attempt limit M >= 1, a row is past it, or ready to get past it, exactly if a reclaim found it
   * at the limit or past it, and then it is past by exactly the number of such reclaims.
   */
  lemma LimitIsPassedIff(cfg: Config, s: State, i: nat)
    requires cfg.maxAttempts >= 1 && Reachable(cfg, s) && i < |s.rows|
    ensures var r := s.rows[i];
            && (r.status == Ready ==> (r.attemptNo >= cfg.maxAttempts <==> s.late[i] > 0))
            && (r.status == Ready && s.late[i] > 0 ==> r.attemptNo == cfg.maxAttempts + s.late[i] - 1)
            && (r.status != Ready ==> (r.attemptNo > cfg.maxAttempts <==> s.late[i] > 0))
            && (r.status != Ready && s.late[i] > 0 ==> r.attemptNo == cfg.maxAttempts + s.late[i])
    ensures s.late[i] <= s.reclaims[i]
  {
    ReachableInv(cfg, s);
    assert WithinLimit(cfg.maxAttempts, s.rows[i], s.late[i]);
  }

  lemma SubMultisetCount(a: multiset<nat>, b: multiset<nat>)
    requires a <= b
    ensures |a| <= |b|
  {
    assert b == a + (b - a);
  }

  /**
   * So n rows and R reclaims, L of them late, allow at most n*M + L <= n*M + R leases, and every lease is
   * accounted for: still out, ended by one effective Ack or Nack, or by one reclaim.
   */
  lemma LeasesAreBounded(cfg: Config, s: State)
    requires cfg.maxAttempts >= 1 && Reachable(cfg, s)
    ensures forall i :: 0 <= i < |s.rows| ==> s.rows[i].attemptNo <= cfg.maxAttempts + s.reclaims[i]
    ensures forall i :: 0 <= i < |s.rows| && s.rows[i].status == Ready ==>
              s.rows[i].attemptNo <= cfg.maxAttempts - 1 + s.reclaims[i]
    ensures |s.issued| <= |s.rows| * cfg.maxAttempts + |s.late| <= |s.rows| * cfg.maxAttempts + |s.reclaims|
    ensures |s.issued| == s.effective + |s.reclaims| + Sum(LeasedBits(s.rows))
  {
    ReachableInv(cfg, s);
    forall i | 0 <= i < |s.rows|
      ensures WithinLimit(cfg.maxAttempts, s.rows[i], s.late[i]) && s.late[i] <= s.reclaims[i]
    {
    }
    SumBound(s.rows, s.late, cfg.maxAttempts);
    SubMultisetCount(s.late, s.reclaims);
  }

  // ---------------------------------------------------------------- attempt numbers

  predicate SameTask(a: TaskRef, b: TaskRef) {
    a.tenant == b.tenant && a.project == b.project && a.task == b.task
  }

  ghost function EarlierLeases(s: State, n: nat): set<nat>
    requires n < |s.issued|
  {
    set m: nat | m < n && SameTask(s.issued[m].ref, s.issued[n].ref)
  }

  lemma SameTaskIffSameRow(s: State, m: nat, n: nat)
    requires Shape(s) && m < |s.issued| && n < |s.issued|
    ensures SameTask(s.issued[m].ref, s.issued[n].ref) <==> s.issued[m].row == s.issued[n].row
  {
    assert TicketOk(s.rows, s.issued, m) && TicketOk(s.rows, s.issued, n);
    var i, j := s.issued[m].row, s.issued[n].row;
    if i != j {
      var lo, hi := if i < j then i else j, if i < j then j else i;
      assert !SameKey(s.rows[lo], s.rows[hi].tenant, s.rows[hi].project, s.rows[hi].task);
    }
  }

  ghost function LeasesOf(issued: seq<Ticket>, i: nat): set<nat> {
    set m: nat | m < |issued| && issued[m].row == i
  }

  lemma {:induction false} CountIsCardinality(issued: seq<Ticket>, i: nat)
    ensures CountRow(issued, i) == |LeasesOf(issued, i)|
  {
    if issued == [] {
      assert LeasesOf(issued, i) == {};
    } else {
      var k := |issued| - 1;
      CountIsCardinality(issued[..k], i);
      var front, all := LeasesOf(issued[..k], i), LeasesOf(issued, i);
      if issued[k].row == i {
        assert all == front + {k};
        assert k !in front;
      } else {
        assert all == front;
      }
    }
  }

  /** The successive leases of one task are numbered 1, 2, 3, ... through every mix of Nacks and reclaims. */
  lemma AttemptsAreConsecutive(cfg: Config, s: State, n: nat)
    requires cfg.maxAttempts >= 1 && Reachable(cfg, s) && n < |s.issued|
    ensures s.issued[n].ref.attemptNo == 1 + |EarlierLeases(s, n)|
  {
    ReachableInv(cfg, s);
    assert TicketOk(s.rows, s.issued, n);
    CountIsCardinality(s.issued[..n], s.issued[n].row);
    forall m: nat | m < n
      ensures SameTask(s.issued[m].ref, s.issued[n].ref) <==> s.issued[..n][m].row == s.issued[n].row
    {
      SameTaskIffSameRow(s, m, n);
    }
    assert EarlierLeases(s, n) == LeasesOf(s.issued[..n], s.issued[n].row);
  }

  /** So an insert keyed by task and attempt number never meets a row left by another lease of that task. */
  lemma AttemptKeysAreFresh(cfg: Config, s: State, m: nat, n: nat)
    requires cfg.maxAttempts >= 1 && Reachable(cfg, s) && m < n < |s.issued|
    requires SameTask(s.issued[m].ref, s.issued[n].ref)
    ensures s.issued[m].ref.attemptNo < s.issued[n].ref.attemptNo
  {
    AttemptsAreConsecutive(cfg, s, m);
    AttemptsAreConsecutive(cfg, s, n);
    assert EarlierLeases(s, m) + {m} <= EarlierLeases(s, n);
    SubsetCount(EarlierLeases(s, m) + {m}, EarlierLeases(s, n));
  }

  // ---------------------------------------------------------------- concurrent leases, and the delay of a Nack

  /**
   * Two LeaseNext statements never take the same row: a second that overlaps the first skips the rows
   * the first holds locked, which is how candidates are defined, and a second that follows it sees them
   * leased, which is what there is to prove.
   */
  lemma LeasesAreDisjoint(rows: seq<Row>, now: int, locked: set<nat>, limit: nat, picked: seq<nat>, first: nat,
                          worker: string, until: int,
                          now': int, locked': set<nat>, limit': nat, picked': seq<nat>)
    requires IsPick(LeaseKeys(rows), LeaseCandidates(rows, now, locked), limit, picked)
    requires || (Elems(picked) <= locked' &&
                 IsPick(LeaseKeys(rows), LeaseCandidates(rows, now', locked'), limit', picked'))
             || (var after := LeaseRows(rows, picked, first, worker, until);
                 IsPick(LeaseKeys(after), LeaseCandidates(after, now', locked'), limit', picked'))
    ensures Elems(picked) !! Elems(picked')
  {
    var after := LeaseRows(rows, picked, first, worker, until);
    forall i | i in Elems(picked) ensures i !in LeaseCandidates(after, now', locked') {
      var a :| 0 <= a < |picked| && picked[a] == i;
      PickedUpdated(rows, picked, first, worker, until, 0, a);
    }
    assert forall i :: i in Elems(picked') ==> exists b :: 0 <= b < |picked'| && picked'[b] == i;
  }

  /**
   * A pool Nack that leaves its row ready makes it visible again after exactly the intended delay, for limits up to
   * 35.
   */
  lemma NackDelay(cfg: Config, s: State, n: nat, now: int)
    requires 1 <= cfg.maxAttempts <= 35 && Reachable(cfg, s) && n < |s.issued| && !s.issued[n].settled && Current(s, n)
    ensures var t := s.issued[n];
            var r := NackRows(s.rows, t.ref.task, Some(n), t.worker, PoolNack(cfg, t.ref.attemptNo), now)[t.row];
            && (r.status == Ready <==> t.ref.attemptNo < cfg.maxAttempts)
            && (r.status == Dlq <==> t.ref.attemptNo >= cfg.maxAttempts)
            && (r.status == Ready ==> r.availableAt == now + Backoff.IdealBackoff(t.ref.attemptNo, cfg.maxBackoff))
  {
    ReachableInv(cfg, s);
    UnsettledIsLeased(s, n);
    TokenFindsItsRow(s, n, s.issued[n].row);
    if s.issued[n].ref.attemptNo < cfg.maxAttempts {
      Backoff.PoolBackoffIsIdeal(s.issued[n].ref.attemptNo, cfg.maxBackoff, cfg.unspecified);
    }
  }

  // ---------------------------------------------------------------- the attempt bound is exact

  lemma ReachableStep(cfg: Config, s: State, e: Event)
    requires Reachable(cfg, s) && Enabled(s, e)
    ensures Reachable(cfg, Step(cfg, s, e))
  {
    var clock, es :| CanRun(cfg, Init(clock), es) && s == Run(cfg, Init(clock), es);
    var more := es + [e];
    assert more[..|more| - 1] == es;
    assert CanRun(cfg, Init(clock), more) && Step(cfg, s, e) == Run(cfg, Init(clock), more);
  }

  function Later(a: int, b: int): (m: int)
    ensures m >= a && m >= b
  {
    if a < b then b else a
  }

  /** Row i has this status and attempt number. */
  predicate RowAt(s: State, i: nat, status: Status, attemptNo: nat) {
    i < |s.rows| && s.rows[i].status == status && s.rows[i].attemptNo == attemptNo
  }

  /** No row but the i-th changed. */
  ghost predicate OnlyRow(s: State, t: State, i: nat) {
    && |t.rows| == |s.rows|
    && forall j :: 0 <= j < |s.rows| ==> if j == i then t.rows[j].task == s.rows[j].task else t.rows[j] == s.rows[j]
  }

  ghost function Below(n: nat): (s: set<nat>)
    ensures forall j: nat :: j in s <==> j < n
  {
    if n == 0 then {} else Below(n - 1) + {n - 1}
  }

  ghost function AllBut(n: nat, i: nat): set<nat> {
    Below(n) - {i}
  }

  lemma OnlyEligible(s: State, i: nat, now: int)
    requires i < |s.rows| && s.rows[i].status == Ready && s.rows[i].availableAt <= now
    ensures IsPick(LeaseKeys(s.rows), LeaseCandidates(s.rows, now, AllBut(|s.rows|, i)), 1, [i])
  {
    assert LeaseCandidates(s.rows, now, AllBut(|s.rows|, i)) == {i};
  }

  /** A lease that finds only row i free. */
  lemma LeaseOf(cfg: Config, s: State, i: nat) returns (e: Event)
    requires i < |s.rows| && s.rows[i].status == Ready
    ensures e.act.Lease? && Enabled(s, e)
    ensures var t := Step(cfg, s, e);
            && RowAt(t, i, Leased, s.rows[i].attemptNo + 1) && OnlyRow(s, t, i)
            && t.reclaims == s.reclaims && t.late == s.late
            && |t.issued| == |s.issued| + 1 && CurrentTicket(t, |s.issued|, i)
  {
    e := At(Later(s.clock, s.rows[i].availableAt), Lease("w", 1, AllBut(|s.rows|, i), [i]));
    OnlyEligible(s, i, e.now);
    LeaseAlone(s, i, e.now + WholeSeconds(cfg.leaseDuration));
  }

  /** Lease n is of row i, is not settled, and is what the row says. */
  predicate CurrentTicket(s: State, n: nat, i: nat) {
    && n < |s.issued| && i < |s.rows| && s.issued[n].row == i && !s.issued[n].settled
    && s.rows[i].leaseId == Some(n)
    && s.issued[n].ref.task == s.rows[i].task && s.issued[n].ref.attemptNo == s.rows[i].attemptNo
  }

  lemma CanLease(cfg: Config, s: State, i: nat, a: nat) returns (t: State)
    requires cfg.maxAttempts >= 1 && Reachable(cfg, s) && RowAt(s, i, Ready, a)
    ensures Reachable(cfg, t) && RowAt(t, i, Leased, a + 1) && OnlyRow(s, t, i) && t.reclaims == s.reclaims
  {
    var e := LeaseOf(cfg, s, i);
    ReachableStep(cfg, s, e);
    t := Step(cfg, s, e);
  }

  lemma LeaseAlone(s: State, i: nat, until: int)
    requires i < |s.rows|
    ensures LeaseAll(s, [i], "w", until) == LeaseOne(s, i, "w", until)
  {
    assert [i][..0] == [];
  }

  /** A reclaim, after the lease has run out, that finds only row i free. */
  lemma ReclaimOf(cfg: Config, s: State, i: nat) returns (e: Event)
    requires cfg.maxAttempts >= 1 && Reachable(cfg, s) && i < |s.rows| && s.rows[i].status == Leased
    ensures e.act.Reclaim? && Enabled(s, e)
    ensures var t := Step(cfg, s, e);
            && RowAt(t, i, Ready, s.rows[i].attemptNo) && OnlyRow(s, t, i) && t.issued == s.issued
            && t.reclaims == s.reclaims + multiset{i}
            && t.late == if s.rows[i].attemptNo >= cfg.maxAttempts then s.late + multiset{i} else s.late
  {
    ReachableInv(cfg, s);
    assert RowOk(s.rows[i], i, s.issued);
    var now := Later(s.clock, s.rows[i].leaseUntil.value + 1);
    e := At(now, Reclaim(1, AllBut(|s.rows|, i), [i]));
    assert ReclaimCandidates(s.rows, now, AllBut(|s.rows|, i)) == {i};
    ReclaimAlone(cfg, s, i, now);
  }

  lemma ReclaimAlone(cfg: Config, s: State, i: nat, now: int)
    requires i < |s.rows|
    ensures ReclaimAll(cfg, s, [i], now) == ReclaimOne(cfg, s, i, now)
  {
    assert [i][..0] == [];
  }

  lemma CanReclaim(cfg: Config, s: State, i: nat, a: nat) returns (t: State)
    requires cfg.maxAttempts >= 1 && Reachable(cfg, s) && RowAt(s, i, Leased, a)
    ensures Reachable(cfg, t) && RowAt(t, i, Ready, a) && OnlyRow(s, t, i) && t.reclaims == s.reclaims + multiset{i}
  {
    var e := ReclaimOf(cfg, s, i);
    ReachableStep(cfg, s, e);
    t := Step(cfg, s, e);
  }

  /** The pool's Nack of the lease row i is out on. */
  lemma NackOf(cfg: Config, s: State, i: nat) returns (e: Event)
    requires cfg.maxAttempts >= 1 && Reachable(cfg, s) && i < |s.rows| && s.rows[i].status == Leased
    ensures s.rows[i].leaseId.Some? && e == At(s.clock, Nack(s.rows[i].leaseId.value)) && Enabled(s, e)
    ensures var t := Step(cfg, s, e);
            && RowAt(t, i, if s.rows[i].attemptNo < cfg.maxAttempts then Ready else Dlq, s.rows[i].attemptNo)
            && OnlyRow(s, t, i) && |t.issued| == |s.issued| && t.reclaims == s.reclaims && t.late == s.late
  {
    ReachableInv(cfg, s);
    assert RowOk(s.rows[i], i, s.issued);
    var n := s.rows[i].leaseId.value;
    e := At(s.clock, Nack(n));
    TokenFindsItsRow(s, n, i);
    StaleChangesNothing(s, n, Step(cfg, s, e).rows);
  }

  lemma CanNack(cfg: Config, s: State, i: nat, a: nat) returns (t: State)
    requires cfg.maxAttempts >= 1 && Reachable(cfg, s) && RowAt(s, i, Leased, a) && a < cfg.maxAttempts
    ensures Reachable(cfg, t) && RowAt(t, i, Ready, a) && OnlyRow(s, t, i) && t.reclaims == s.reclaims
  {
    var e := NackOf(cfg, s, i);
    ReachableStep(cfg, s, e);
    t := Step(cfg, s, e);
  }

  /** From a ready row with no attempts yet to its last lease within the limit. */
  lemma {:induction false} LeasedTimes(cfg: Config, s: State, i: nat, a: nat) returns (t: State)
    requires cfg.maxAttempts >= 1 && Reachable(cfg, s) && RowAt(s, i, Ready, 0) && 1 <= a <= cfg.maxAttempts
    ensures Reachable(cfg, t) && RowAt(t, i, Leased, a) && OnlyRow(s, t, i) && t.reclaims == s.reclaims
    decreases a
  {
    if a == 1 {
      t := CanLease(cfg, s, i, 0);
    } else {
      var leased := LeasedTimes(cfg, s, i, a - 1);
      var ready := CanNack(cfg, leased, i, a - 1);
      t := CanLease(cfg, ready, i, a - 1);
    }
  }

  /** A name of its own for each row. */
  function Name(n: nat): (s: string)
    ensures |s| == n
  {
    seq(n, i => 'x')
  }

  predicate ExhaustedRow(row: Row, i: nat, M: nat, r: nat) {
    row.status == Leased && row.attemptNo == (if i == 0 then M + r else M) && row.task == Name(i)
  }

  /** n rows, all leased for the M-th time, but the first, if r is positive, r times more, after as many reclaims. */
  ghost predicate Exhausted(s: State, n: nat, M: nat, r: nat) {
    && |s.rows| == n && |s.reclaims| == r
    && forall i :: 0 <= i < n ==> ExhaustedRow(s.rows[i], i, M, r)
  }

  lemma CanAddRow(cfg: Config, s: State, n: nat) returns (t: State)
    requires cfg.maxAttempts >= 1 && Reachable(cfg, s) && Exhausted(s, n, cfg.maxAttempts, 0)
    ensures Reachable(cfg, t) && Exhausted(t, n + 1, cfg.maxAttempts, 0)
  {
    var e := At(s.clock, Enqueue("t", "p", Name(n), None));
    ReachableStep(cfg, s, e);
    var u := Step(cfg, s, e);
    assert forall i :: 0 <= i < n ==> ExhaustedRow(s.rows[i], i, cfg.maxAttempts, 0) && |s.rows[i].task| == i;
    assert u.rows[..n] == s.rows && RowAt(u, n, Ready, 0) && u.rows[n].task == Name(n);
    t := LeasedTimes(cfg, u, n, cfg.maxAttempts);
    forall i | 0 <= i <= n ensures ExhaustedRow(t.rows[i], i, cfg.maxAttempts, 0) {
      if i < n {
        assert ExhaustedRow(s.rows[i], i, cfg.maxAttempts, 0) && t.rows[i] == u.rows[i] == s.rows[i];
      }
    }
  }

  lemma {:induction false} RowsExhausted(cfg: Config, n: nat) returns (s: State)
    requires cfg.maxAttempts >= 1
    ensures Reachable(cfg, s) && Exhausted(s, n, cfg.maxAttempts, 0)
  {
    if n == 0 {
      s := Init(0);
      assert CanRun(cfg, Init(0), []) && Init(0) == Run(cfg, Init(0), []);
    } else {
      var before := RowsExhausted(cfg, n - 1);
      s := CanAddRow(cfg, before, n - 1);
    }
  }

  lemma {:induction false} ExhaustedSum(s: State, n: nat, M: nat, r: nat, k: nat)
    requires Exhausted(s, n, M, r) && k <= n
    ensures Sum(Attempts(s.rows)[..k]) == k * M + if k == 0 then 0 else r
  {
    if k > 0 {
      ExhaustedSum(s, n, M, r, k - 1);
      TimesStep(k - 1, M);
      assert Attempts(s.rows)[..k][..k - 1] == Attempts(s.rows)[..k - 1];
      assert ExhaustedRow(s.rows[k - 1], k - 1, M, r);
    }
  }

  lemma CanReclaimLate(cfg: Config, s: State, n: nat, r: nat) returns (t: State)
    requires cfg.maxAttempts >= 1 && n >= 1 && Reachable(cfg, s) && Exhausted(s, n, cfg.maxAttempts, r)
    ensures Reachable(cfg, t) && Exhausted(t, n, cfg.maxAttempts, r + 1)
  {
    assert ExhaustedRow(s.rows[0], 0, cfg.maxAttempts, r);
    var ready := CanReclaim(cfg, s, 0, cfg.maxAttempts + r);
    t := CanLease(cfg, ready, 0, cfg.maxAttempts + r);
    forall i | 0 <= i < n ensures ExhaustedRow(t.rows[i], i, cfg.maxAttempts, r + 1) {
      assert ExhaustedRow(s.rows[i], i, cfg.maxAttempts, r);
      if i > 0 {
        assert t.rows[i] == ready.rows[i] == s.rows[i];
      }
    }
  }

  lemma {:induction false} ReclaimedTimes(cfg: Config, n: nat, r: nat) returns (s: State)
    requires cfg.maxAttempts >= 1 && n >= 1
    ensures Reachable(cfg, s) && Exhausted(s, n, cfg.maxAttempts, r)
    decreases r
  {
    if r == 0 {
      s := RowsExhausted(cfg, n);
    } else {
      var before := ReclaimedTimes(cfg, n, r - 1);
      s := CanReclaimLate(cfg, before, n, r - 1);
    }
  }

  /**
   * The bound cannot be lowered: for every limit M, every n >= 1 and every R, some run with n rows and R reclaims
   * has n*M + R leases.
   */
  lemma BoundIsAttained(cfg: Config, n: nat, r: nat) returns (s: State)
    requires cfg.maxAttempts >= 1 && n >= 1
    ensures Reachable(cfg, s) && |s.rows| == n && |s.reclaims| == r && |s.issued| == n * cfg.maxAttempts + r
  {
    s := ReclaimedTimes(cfg, n, r);
    ExhaustedSum(s, n, cfg.maxAttempts, r, n);
    assert Attempts(s.rows)[..n] == Attempts(s.rows);
    assert Conserved(s) by {
      ReachableInv(cfg, s);
    }
  }
}
