/** Runs of the system that start an execution's plugins as often as the bound allows, and end in the dead letters. */
module DurableSystemRuns {
  import opened Executions
  import opened MetadataStore
  import opened DurableProtocol
  import opened DurableFinality
  import opened DurableSystem
  import opened Options
  import LeaseQueue
  import L = LeaseProtocol
  import LeaseTheorems

  // ---------------------------------------------------------------- what every move keeps

  /** A move of the Postgres path, which stands at d. */
  ghost predicate CanStep(s: System, d: State, ev: Event) {
    && !ev.QueueMoves? && Enabled(d, ev)
    && (ev.Create? ==> s.l.clock <= ev.now)
    && (ev.Begin? ==> CallOf(s.l, ev.h, ev.attempt) && !s.l.issued[ev.h].settled && !Begun(s.es, ev.h))
  }

  ghost function Stepped(cfg: L.Config, s: System, d: State, ev: Event): System
    requires CanStep(s, d, ev)
  {
    System(if ev.Create? && ev.after != d.db then L.Step(cfg, s.l, Enqueuing(ev)) else s.l, s.es + [ev])
  }

  /** A move of the queue, other than an Ack. */
  ghost predicate CanQueue(s: System, d: State, e: L.Event) {
    && L.Enabled(s.l, e) && !e.act.Enqueue? && !e.act.Ack?
    && (e.act.Nack? && Begun(s.es, e.act.nacked) ==>
          e.act.nacked in d.handlers && d.handlers[e.act.nacked].phase == Returned(false))
  }

  ghost function QueueMoved(cfg: L.Config, s: System, e: L.Event): System
    requires L.Enabled(s.l, e)
  {
    var l := L.Step(cfg, s.l, e);
    System(l, s.es + [QueueMoves(l.rows)])
  }

  /** The Postgres path after the queue moved under it. */
  function Under(d: State, rows: seq<LeaseQueue.Row>): State {
    d.(db := d.db.(queue := rows))
  }

  function Start(): System {
    System(L.Init(0), [])
  }

  /** A property of the empty system, with the insert as written, that these moves keep. */
  ghost predicate Kept(cfg: L.Config, at: (System, State) -> bool) {
    && at(Start(), Init())
    && (forall s, d, ev :: at(s, d) && CanStep(s, d, ev) ==> at(Stepped(cfg, s, d, ev), Step(false, d, ev)))
    && (forall s, d, e :: at(s, d) && CanQueue(s, d, e) ==>
          at(QueueMoved(cfg, s, e), Under(d, L.Step(cfg, s.l, e).rows)))
    && (forall s, d {:trigger at(s, d), L.Reachable(cfg, s.l)} :: at(s, d) ==> L.Reachable(cfg, s.l))
  }

  // ---------------------------------------------------------------- being reached is such a property

  ghost predicate Arrives(cfg: L.Config, s: System) {
    exists clock, ms :: MayRun(cfg, false, clock, ms) && s == SystemAfter(cfg, false, clock, ms)
  }

  ghost predicate Reached(cfg: L.Config, s: System, d: State) {
    Arrives(cfg, s) && Leads(false, Init(), s.es, d)
  }

  lemma ArrivesNext(cfg: L.Config, s: System, m: Move)
    requires Arrives(cfg, s) && MayMove(false, s, m)
    ensures Arrives(cfg, Moved(cfg, false, s, m))
  {
    var clock, ms :| MayRun(cfg, false, clock, ms) && s == SystemAfter(cfg, false, clock, ms);
    var more := ms + [m];
    assert more[..|more| - 1] == ms;
    assert MayRun(cfg, false, clock, more) && Moved(cfg, false, s, m) == SystemAfter(cfg, false, clock, more);
  }

  lemma ArrivesTogether(cfg: L.Config, s: System)
    requires cfg.maxAttempts >= 1 && Arrives(cfg, s)
    ensures Together(cfg, false, s)
  {
    var clock, ms :| MayRun(cfg, false, clock, ms) && s == SystemAfter(cfg, false, clock, ms);
    StaysTogether(cfg, false, clock, ms);
  }

  lemma StartIsReached(cfg: L.Config)
    ensures Reached(cfg, Start(), Init())
  {
    assert MayRun(cfg, false, 0, []) && Start() == SystemAfter(cfg, false, 0, []);
  }

  lemma StepIsReached(cfg: L.Config, s: System, d: State, ev: Event)
    requires Reached(cfg, s, d) && CanStep(s, d, ev)
    ensures Reached(cfg, Stepped(cfg, s, d, ev), Step(false, d, ev))
  {
    ArrivesNext(cfg, s, PathStep(ev));
    LeadsNext(false, Init(), s.es, d, ev);
  }

  lemma QueueIsReached(cfg: L.Config, s: System, d: State, e: L.Event)
    requires cfg.maxAttempts >= 1 && Reached(cfg, s, d) && CanQueue(s, d, e)
    ensures Reached(cfg, QueueMoved(cfg, s, e), Under(d, L.Step(cfg, s.l, e).rows))
  {
    ArrivesTogether(cfg, s);
    L.ReachableInv(cfg, s.l);
    StatementsKeepTasks(cfg, s.l, e);
    ArrivesNext(cfg, s, QueueStep(e));
    LeadsNext(false, Init(), s.es, d, QueueMoves(L.Step(cfg, s.l, e).rows));
  }

  lemma ReachedIsKept(cfg: L.Config)
    requires cfg.maxAttempts >= 1
    ensures Kept(cfg, (s, d) => Reached(cfg, s, d))
  {
    StartIsReached(cfg);
    forall s, d, ev | Reached(cfg, s, d) && CanStep(s, d, ev)
      ensures Reached(cfg, Stepped(cfg, s, d, ev), Step(false, d, ev))
    {
      StepIsReached(cfg, s, d, ev);
    }
    forall s, d, e | Reached(cfg, s, d) && CanQueue(s, d, e)
      ensures Reached(cfg, QueueMoved(cfg, s, e), Under(d, L.Step(cfg, s.l, e).rows))
    {
      QueueIsReached(cfg, s, d, e);
    }
    forall s, d | Reached(cfg, s, d) ensures L.Reachable(cfg, s.l) {
      ArrivesTogether(cfg, s);
    }
  }

  // ---------------------------------------------------------------- one lease and its handler call

  /** Steps that neither begin a call nor belong to the queue, to a creation or to a cancel. */
  predicate OwnStep(ev: Event) {
    !ev.Begin? && !ev.QueueMoves? && !ev.Create? && !ev.CancelRead? && !ev.CancelWrite?
  }

  lemma OwnStepOn(cfg: L.Config, at: (System, State) -> bool, s: System, d: State, ev: Event)
    requires Kept(cfg, at) && at(s, d) && Enabled(d, ev) && OwnStep(ev)
    ensures at(System(s.l, s.es + [ev]), Step(false, d, ev))
  {
    assert CanStep(s, d, ev);
  }

  /** What leads on in the Postgres path leads on in the system. */
  lemma {:induction false} PathOn(cfg: L.Config, at: (System, State) -> bool, s: System, d: State, es: seq<Event>,
                                  t: State)
    requires Kept(cfg, at) && at(s, d) && Leads(false, d, es, t) && forall ev :: ev in es ==> OwnStep(ev)
    ensures at(System(s.l, s.es + es), t)
    decreases |es|
  {
    if es == [] {
      assert s.es + es == s.es;
    } else {
      var m := LeadsRest(false, d, es, t);
      assert es[0] in es;
      OwnStepOn(cfg, at, s, d, es[0]);
      PathOn(cfg, at, System(s.l, s.es + [es[0]]), m, es[1..], t);
      assert s.es + [es[0]] + es[1..] == s.es + es;
    }
  }

  /** Nobody asked for a cancel, and only the leases before the a-th had calls. */
  predicate CallsBelow(es: seq<Event>, a: nat) {
    && (forall i :: 0 <= i < |es| ==> !es[i].CancelRead? && !es[i].CancelWrite?)
    && (forall i :: 0 <= i < |es| && es[i].Begin? ==> es[i].h < a)
  }

  /** The database and the handlers after `a` calls on the one execution, each of which recorded its attempt. */
  ghost predicate Called(d: State, e: Exec, a: nat) {
    && d.db.executions == map[e.id := e.(status := if a == 0 then Queued else Running)]
    && d.runs == multiset{}[e.id := a]
    && (forall h :: h in d.handlers ==> h < a && d.handlers[h].attempt.id < a)
    && (forall i :: 0 <= i < |d.db.attempts| ==> d.db.attempts[i].id < a && d.db.attempts[i].attemptNo <= a)
    && UnusedFrom(d.db, 2 + 3 * a)
  }

  /** The one row of the table, leased `a` times. */
  predicate Leased(l: L.State, e: Exec, a: nat, status: LeaseQueue.Status) {
    && |l.rows| == 1 && l.rows[0].task == e.id && l.rows[0].status == status && l.rows[0].attemptNo == a
    && |l.issued| == a
  }

  function CallBegin(e: Exec, a: nat): Event {
    Begin(a, Attempt(a, e.id, a + 1, AttemptRunning))
  }

  /** The rest of a call, as written, when no statement is aborted. */
  function CallSteps(h: nat, rows: seq<ResultRow>, n: nat): seq<Event> {
    [Open(h, n, 3), Enter(h, n + 1, n + 1, 4)] + [RunPlugins(h, rows), Close(h, n + 2, 3), Report(h, n + 2, 3)]
  }

  /** The next call is past its gate. */
  ghost predicate PastGate(d: State, e: Exec, a: nat, t: State) {
    && t.db.executions == map[e.id := e.(status := Running)] && t.runs == d.runs + multiset{e.id}
    && t.db.attempts == d.db.attempts + [CallBegin(e, a).attempt] && UnusedFrom(t.db, 2 + 3 * a + 2)
    && a in t.handlers && t.handlers == d.handlers[a := t.handlers[a]] && t.handlers[a].id == e.id
    && t.handlers[a].attempt == CallBegin(e, a).attempt && t.handlers[a].phase == Entered
  }

  lemma CallCanBegin(d: State, e: Exec, a: nat)
    requires Called(d, e, a)
    ensures Enabled(d, CallBegin(e, a)) && !AttemptClash(d.db.attempts, CallBegin(e, a).attempt)
  {
  }

  lemma CallEnters(d: State, e: Exec, a: nat) returns (t: State)
    requires Called(d, e, a) && Enabled(d, CallBegin(e, a)) && e.status == Queued
    requires !AttemptClash(d.db.attempts, CallBegin(e, a).attempt)
    ensures Leads(false, Step(false, d, CallBegin(e, a)), CallSteps(a, [], 2 + 3 * a)[..2], t)
    ensures PastGate(d, e, a, t)
  {
    var es;
    es, t := HandlerEnters(false, d, a, CallBegin(e, a).attempt, 2 + 3 * a);
    var begun := LeadsRest(false, d, es, t);
    assert es[1..] == CallSteps(a, [], 2 + 3 * a)[..2];
    OnlyStatus(d.db, e, if a == 0 then Queued else Running, Running);
  }

  /** And to its return: it ran the plugins, and returns an error. */
  lemma CallReturns(d: State, e: Exec, a: nat, rows: seq<ResultRow>, entered: State) returns (t: State)
    requires Called(d, e, a) && RowsFor(rows, e.id, e.pluginIds) && PastGate(d, e, a, entered)
    ensures Leads(false, entered, CallSteps(a, rows, 2 + 3 * a)[2..], t)
    ensures Called(t, e, a + 1) && a in t.handlers && t.handlers[a].phase == Returned(false)
  {
    assert entered.db.attempts[|d.db.attempts|] == CallBegin(e, a).attempt;
    var es;
    es, t := HandlerFails(entered, a, rows, 2 + 3 * a + 2);
    assert es == CallSteps(a, rows, 2 + 3 * a)[2..];
  }

  lemma OneCall(d: State, e: Exec, a: nat, rows: seq<ResultRow>) returns (t: State)
    requires Called(d, e, a) && RowsFor(rows, e.id, e.pluginIds) && e.status == Queued
    ensures Enabled(d, CallBegin(e, a))
    ensures Leads(false, Step(false, d, CallBegin(e, a)), CallSteps(a, rows, 2 + 3 * a), t)
    ensures Called(t, e, a + 1) && a in t.handlers && t.handlers[a].phase == Returned(false)
  {
    var es := CallSteps(a, rows, 2 + 3 * a);
    CallCanBegin(d, e, a);
    var entered := CallEnters(d, e, a);
    t := CallReturns(d, e, a, rows, entered);
    assert CallSteps(a, [], 2 + 3 * a)[..2] == es[..2] && es == es[..2] + es[2..];
    LeadsOn(false, Step(false, d, CallBegin(e, a)), es[..2], entered, es[2..], t);
  }

  /** The one row is leased for the a-th time, and its call has failed. */
  ghost predicate Failing(cfg: L.Config, s: System, d: State, e: Exec, a: nat) {
    && a >= 1 && Called(d, e, a) && Leased(s.l, e, a, LeaseQueue.Leased) && CallsBelow(s.es, a)
    && s.l.rows[0].leaseId == Some(a - 1) && a - 1 in d.handlers && d.handlers[a - 1].phase == Returned(false)
    && s.l.late[0] == if a <= cfg.maxAttempts then 0 else a - cfg.maxAttempts
  }

  /** The one row is ready after `a` leases and calls. */
  ghost predicate Waits(cfg: L.Config, s: System, d: State, e: Exec, a: nat) {
    && Called(d, e, a) && Leased(s.l, e, a, LeaseQueue.Ready) && CallsBelow(s.es, a)
    && s.l.late[0] == if a < cfg.maxAttempts then 0 else a - cfg.maxAttempts + 1
  }

  /** A call for the lease that is out. */
  lemma CallOn(cfg: L.Config, at: (System, State) -> bool, s: System, d: State, e: Exec, a: nat, rows: seq<ResultRow>,
               t: System)
      returns (u: State)
    requires Kept(cfg, at) && at(s, d) && Called(d, e, a) && RowsFor(rows, e.id, e.pluginIds)
    requires LeaseTheorems.CurrentTicket(s.l, a, 0) && Leased(s.l, e, a + 1, LeaseQueue.Leased)
    requires CallsBelow(s.es, a) && e.status == Queued
    requires t == System(s.l, s.es + [CallBegin(e, a)] + CallSteps(a, rows, 2 + 3 * a))
    ensures at(t, u) && Called(u, e, a + 1) && a in u.handlers && u.handlers[a].phase == Returned(false)
  {
    u := OneCall(d, e, a, rows);
    assert CanStep(s, d, CallBegin(e, a));
    PathOn(cfg, at, System(s.l, s.es + [CallBegin(e, a)]), Step(false, d, CallBegin(e, a)),
           CallSteps(a, rows, 2 + 3 * a), u);
  }

  /** A lease of the one row. */
  lemma LeaseOn(cfg: L.Config, at: (System, State) -> bool, s: System, d: State, e: Exec, a: nat)
      returns (t: System, u: State)
    requires Kept(cfg, at) && at(s, d) && Waits(cfg, s, d, e, a)
    ensures at(t, u) && Called(u, e, a) && CallsBelow(t.es, a) && t.l.late == s.l.late
    ensures Leased(t.l, e, a + 1, LeaseQueue.Leased) && LeaseTheorems.CurrentTicket(t.l, a, 0)
  {
    var ev := LeaseTheorems.LeaseOf(cfg, s.l, 0);
    assert CanQueue(s, d, ev);
    t, u := QueueMoved(cfg, s, ev), Under(d, L.Step(cfg, s.l, ev).rows);
  }

  /** A lease and its call. */
  lemma LeaseAndCall(cfg: L.Config, at: (System, State) -> bool, s: System, d: State, e: Exec, a: nat,
                     rows: seq<ResultRow>)
      returns (t: System, u: State)
    requires Kept(cfg, at) && at(s, d) && Waits(cfg, s, d, e, a)
    requires e.status == Queued && RowsFor(rows, e.id, e.pluginIds)
    ensures at(t, u) && Failing(cfg, t, u, e, a + 1)
  {
    var leased, between := LeaseOn(cfg, at, s, d, e, a);
    t := System(leased.l, leased.es + [CallBegin(e, a)] + CallSteps(a, rows, 2 + 3 * a));
    u := CallOn(cfg, at, leased, between, e, a, rows, t);
  }

  // ---------------------------------------------------------------- call after call

  lemma NackHere(cfg: L.Config, at: (System, State) -> bool, s: System, d: State) returns (ev: L.Event)
    requires cfg.maxAttempts >= 1 && Kept(cfg, at) && at(s, d) && |s.l.rows| == 1
    requires s.l.rows[0].status == LeaseQueue.Leased
    ensures s.l.rows[0].leaseId.Some? && ev == L.At(s.l.clock, L.Nack(s.l.rows[0].leaseId.value))
    ensures L.Enabled(s.l, ev)
    ensures var t := L.Step(cfg, s.l, ev);
            var row := s.l.rows[0];
            && LeaseTheorems.RowAt(t, 0, if row.attemptNo < cfg.maxAttempts then LeaseQueue.Ready else LeaseQueue.Dlq,
                                   row.attemptNo)
            && LeaseTheorems.OnlyRow(s.l, t, 0) && |t.issued| == |s.l.issued| && t.late == s.l.late
  {
    assert L.Reachable(cfg, s.l);
    ev := LeaseTheorems.NackOf(cfg, s.l, 0);
  }

  /** Below the limit the call's Nack makes the row ready again; at the limit it ends it. */
  lemma NackOn(cfg: L.Config, at: (System, State) -> bool, s: System, d: State, e: Exec, a: nat)
      returns (t: System, u: State)
    requires cfg.maxAttempts >= 1 && Kept(cfg, at) && at(s, d) && Failing(cfg, s, d, e, a)
    ensures at(t, u) && Called(u, e, a) && CallsBelow(t.es, a) && t.l.late == s.l.late
    ensures Leased(t.l, e, a, if a < cfg.maxAttempts then LeaseQueue.Ready else LeaseQueue.Dlq)
  {
    var ev := NackHere(cfg, at, s, d);
    assert CanQueue(s, d, ev);
    t, u := QueueMoved(cfg, s, ev), Under(d, L.Step(cfg, s.l, ev).rows);
  }

  lemma ReclaimHere(cfg: L.Config, at: (System, State) -> bool, s: System, d: State) returns (ev: L.Event)
    requires cfg.maxAttempts >= 1 && Kept(cfg, at) && at(s, d) && |s.l.rows| == 1
    requires s.l.rows[0].status == LeaseQueue.Leased && s.l.rows[0].attemptNo >= cfg.maxAttempts
    ensures ev.act.Reclaim? && L.Enabled(s.l, ev)
    ensures var t := L.Step(cfg, s.l, ev);
            && LeaseTheorems.RowAt(t, 0, LeaseQueue.Ready, s.l.rows[0].attemptNo)
            && LeaseTheorems.OnlyRow(s.l, t, 0) && t.issued == s.l.issued && t.late == s.l.late + multiset{0}
  {
    assert L.Reachable(cfg, s.l);
    ev := LeaseTheorems.ReclaimOf(cfg, s.l, 0);
  }

  /** A reclaim at the limit or past it makes the row ready, and past the limit when it is leased again. */
  lemma ReclaimOn(cfg: L.Config, at: (System, State) -> bool, s: System, d: State, e: Exec, a: nat)
      returns (t: System, u: State)
    requires cfg.maxAttempts >= 1 && Kept(cfg, at) && at(s, d) && Failing(cfg, s, d, e, a) && a >= cfg.maxAttempts
    ensures at(t, u) && Waits(cfg, t, u, e, a)
  {
    var ev := ReclaimHere(cfg, at, s, d);
    assert CanQueue(s, d, ev);
    t, u := QueueMoved(cfg, s, ev), Under(d, L.Step(cfg, s.l, ev).rows);
  }

  /** A Nack below the limit and a reclaim at it or past it both make the row ready again. */
  lemma ReadyAgain(cfg: L.Config, at: (System, State) -> bool, s: System, d: State, e: Exec, a: nat)
      returns (t: System, u: State)
    requires cfg.maxAttempts >= 1 && Kept(cfg, at) && at(s, d) && Failing(cfg, s, d, e, a)
    ensures at(t, u) && Waits(cfg, t, u, e, a)
  {
    if a < cfg.maxAttempts {
      t, u := NackOn(cfg, at, s, d, e, a);
    } else {
      t, u := ReclaimOn(cfg, at, s, d, e, a);
    }
  }

  lemma CreatedWaits(cfg: L.Config, at: (System, State) -> bool, e: Exec) returns (s: System, d: State)
    requires cfg.maxAttempts >= 1 && Kept(cfg, at) && e.status == Queued
    ensures at(s, d) && Waits(cfg, s, d, e, 0)
  {
    var ev := CreationOf(false, e);
    assert CanStep(Start(), Init(), ev);
    s, d := Stepped(cfg, Start(), Init(), ev), Step(false, Init(), ev);
    assert s.es == [ev];
  }

  lemma {:induction false} FailsTimes(cfg: L.Config, at: (System, State) -> bool, e: Exec, rows: seq<ResultRow>, a: nat)
      returns (s: System, d: State)
    requires cfg.maxAttempts >= 1 && Kept(cfg, at) && a >= 1
    requires e.status == Queued && RowsFor(rows, e.id, e.pluginIds)
    ensures at(s, d) && Failing(cfg, s, d, e, a)
    decreases a
  {
    var ready, between;
    if a == 1 {
      ready, between := CreatedWaits(cfg, at, e);
    } else {
      var failed, after := FailsTimes(cfg, at, e, rows, a - 1);
      ready, between := ReadyAgain(cfg, at, failed, after, e, a - 1);
    }
    s, d := LeaseAndCall(cfg, at, ready, between, e, a - 1, rows);
  }

  /** The last Nack, at the limit or past it. */
  lemma EndsDead(cfg: L.Config, at: (System, State) -> bool, e: Exec, rows: seq<ResultRow>, r: nat)
      returns (s: System, d: State)
    requires cfg.maxAttempts >= 1 && Kept(cfg, at) && e.status == Queued && RowsFor(rows, e.id, e.pluginIds)
    ensures var a := cfg.maxAttempts + r;
            at(s, d) && Called(d, e, a) && CallsBelow(s.es, a) && Leased(s.l, e, a, LeaseQueue.Dlq) && s.l.late[0] == r
  {
    var failed, after := FailsTimes(cfg, at, e, rows, cfg.maxAttempts + r);
    s, d := NackOn(cfg, at, failed, after, e, cfg.maxAttempts + r);
  }

  /**
   * The bound on starts is reached, for every limit M and every number r of late reclaims: with the insert
   * as written, and though no statement is aborted, a run of the system starts the plugins of an execution
   * nobody cancels M + r times and leaves its row in the dead letters.
   */
  lemma StartsReachBound(cfg: L.Config, e: Exec, rows: seq<ResultRow>, r: nat) returns (clock: int, ms: seq<Move>)
    requires cfg.maxAttempts >= 1 && e.status == Queued && RowsFor(rows, e.id, e.pluginIds)
    ensures MayRun(cfg, false, clock, ms)
    ensures var s := SystemAfter(cfg, false, clock, ms);
            && CanRun(false, Init(), s.es)
            && (forall i :: 0 <= i < |s.es| ==> !s.es[i].CancelRead? && !s.es[i].CancelWrite?)
            && |s.l.rows| == 1 && s.l.rows[0].task == e.id && s.l.rows[0].status == LeaseQueue.Dlq
            && s.l.late[0] == r && Path(false, s).db.executions == map[e.id := e.(status := Running)]
            && Path(false, s).runs[e.id] == s.l.rows[0].attemptNo == cfg.maxAttempts + r
  {
    ReachedIsKept(cfg);
    var s, d := EndsDead(cfg, (s, d) => Reached(cfg, s, d), e, rows, r);
    clock, ms :| MayRun(cfg, false, clock, ms) && s == SystemAfter(cfg, false, clock, ms);
  }
}
