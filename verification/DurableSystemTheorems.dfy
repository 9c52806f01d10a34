/** What the queue and the Postgres path guarantee together. */
module DurableSystemTheorems {
  import opened Executions
  import opened MetadataStore
  import opened DurableProtocol
  import opened DurableTheorems
  import opened DurableSystem
  import DurableFinality
  import LeaseQueue
  import L = LeaseProtocol
  import LeaseTheorems
  import Lists

  // ---------------------------------------------------------------- handlers and their leases

  /** A handler keeps its execution, its attempt and the status it read. */
  lemma HandlersKept(upsert: bool, s: State, ev: Event, h: nat, t: State)
    requires Enabled(s, ev) && t == Step(upsert, s, ev) && h in t.handlers && !(ev.Begin? && ev.h == h)
    ensures h in s.handlers
    ensures var d, was := t.handlers[h], s.handlers[h]; d.id == was.id && d.attempt == was.attempt && d.seen == was.seen
  {
    if ev.Enter? {
    } else if ev.Open? || ev.Close? || ev.Finalize? || ev.Report? {
    } else if ev.Begin? || ev.Die? {
    } else if ev.RunPlugins? || ev.Break? {
    }
  }

  /** A handler that is alive was called for the lease whose token it goes by. */
  ghost predicate HandlersCalled(l: L.State, s: State) {
    forall h :: h in s.handlers ==> CallOf(l, h, s.handlers[h].attempt)
  }

  lemma HandlersCalledStep(upsert: bool, l: L.State, s: State, ev: Event)
    requires HandlersCalled(l, s) && Enabled(s, ev) && (ev.Begin? ==> CallOf(l, ev.h, ev.attempt))
    ensures HandlersCalled(l, Step(upsert, s, ev))
  {
    forall h | h in Step(upsert, s, ev).handlers ensures CallOf(l, h, Step(upsert, s, ev).handlers[h].attempt) {
      if !(ev.Begin? && ev.h == h) {
        HandlersKept(upsert, s, ev, h, Step(upsert, s, ev));
      }
    }
  }

  lemma HandlersCalledLater(cfg: L.Config, l: L.State, e: L.Event, s: State)
    requires L.Inv(cfg, l) && L.Enabled(l, e) && HandlersCalled(l, s)
    ensures HandlersCalled(L.Step(cfg, l, e), s)
  {
    LeaseTheorems.StepPreserves(cfg, l, e);
    forall h | h in s.handlers ensures CallOf(L.Step(cfg, l, e), h, s.handlers[h].attempt) {
      assert CallOf(l, h, s.handlers[h].attempt);
    }
  }

  lemma {:induction false} HandlersStayCalled(cfg: L.Config, upsert: bool, clock: int, ms: seq<Move>)
    requires cfg.maxAttempts >= 1 && MayRun(cfg, upsert, clock, ms)
    ensures var s := SystemAfter(cfg, upsert, clock, ms);
            CanRun(upsert, Init(), s.es) && HandlersCalled(s.l, Path(upsert, s))
    decreases |ms|
  {
    StaysTogether(cfg, upsert, clock, ms);
    if ms != [] {
      var front, last := ms[..|ms| - 1], ms[|ms| - 1];
      HandlersStayCalled(cfg, upsert, clock, front);
      StaysTogether(cfg, upsert, clock, front);
      HandlersCalledMove(cfg, upsert, SystemAfter(cfg, upsert, clock, front), last);
    }
  }

  lemma HandlersCalledMove(cfg: L.Config, upsert: bool, s: System, m: Move)
    requires cfg.maxAttempts >= 1 && Together(cfg, upsert, s) && MayMove(upsert, s, m)
    requires HandlersCalled(s.l, Path(upsert, s)) && CanRun(upsert, Init(), Moved(cfg, upsert, s, m).es)
    ensures HandlersCalled(Moved(cfg, upsert, s, m).l, Path(upsert, Moved(cfg, upsert, s, m)))
  {
    var d := Path(upsert, s);
    L.ReachableInv(cfg, s.l);
    if m.QueueStep? {
      var rows := L.Step(cfg, s.l, m.e).rows;
      HandlersCalledLater(cfg, s.l, m.e, d);
      PathAfter(upsert, s, QueueMoves(rows));
    } else {
      HandlersCalledStep(upsert, s.l, d, m.ev);
      PathAfter(upsert, s, m.ev);
      if m.ev.Create? {
        HandlersCalledLater(cfg, s.l, Enqueuing(m.ev), Step(upsert, d, m.ev));
      }
    }
  }

  /** One more event of the path. */
  lemma PathAfter(upsert: bool, s: System, ev: Event)
    requires CanRun(upsert, Init(), s.es) && CanRun(upsert, Init(), s.es + [ev])
    ensures Enabled(Path(upsert, s), ev) && RunAll(upsert, Init(), s.es + [ev]) == Step(upsert, Path(upsert, s), ev)
  {
    assert (s.es + [ev])[..|s.es|] == s.es;
  }

  // ---------------------------------------------------------------- as written, nothing but canceled work is acked

  /** A handler that read Canceled is on a canceled execution. */
  ghost predicate SeenCanceled(s: State) {
    forall h :: h in s.handlers && s.handlers[h].seen == Canceled ==>
      s.handlers[h].id in s.db.executions && s.db.executions[s.handlers[h].id].status == Canceled
  }

  lemma SeenCanceledStep(s: State, ev: Event)
    requires StuckInv(s) && SeenCanceled(s) && Enabled(s, ev)
    ensures SeenCanceled(Step(false, s, ev))
  {
    var t := Step(false, s, ev);
    forall h | h in t.handlers && t.handlers[h].seen == Canceled
      ensures t.handlers[h].id in t.db.executions && t.db.executions[t.handlers[h].id].status == Canceled
    {
      if ev.Begin? && ev.h == h {
        assert t.db == s.db;
      } else {
        HandlersKept(false, s, ev, h, Step(false, s, ev));
        DurableFinality.AsWrittenCanceledStep(s, ev, s.handlers[h].id);
      }
    }
  }

  lemma {:induction false} SeenCanceledRun(es: seq<Event>)
    requires CanRun(false, Init(), es)
    ensures SeenCanceled(RunAll(false, Init(), es))
    decreases |es|
  {
    if es != [] {
      SeenCanceledRun(es[..|es| - 1]);
      AsWrittenNothingFinishes(es[..|es| - 1]);
      SeenCanceledStep(RunAll(false, Init(), es[..|es| - 1]), es[|es| - 1]);
    }
  }

  /** What makes a row acked is the Ack of a lease of its task. */
  lemma AckedOnlyByAck(cfg: L.Config, l: L.State, e: L.Event, i: nat)
    requires L.Inv(cfg, l) && L.Enabled(l, e) && i < |l.rows|
    ensures i < |L.Step(cfg, l, e).rows| && L.Step(cfg, l, e).rows[i].task == l.rows[i].task
    ensures L.Step(cfg, l, e).rows[i].status == LeaseQueue.Acked && l.rows[i].status != LeaseQueue.Acked ==>
              e.act.Ack? && l.issued[e.act.acked].ref.task == l.rows[i].task
  {
    if e.act.Lease? || e.act.Reclaim? {
      BatchAcksNothing(cfg, l, e, i);
    }
  }

  lemma BatchAcksNothing(cfg: L.Config, l: L.State, e: L.Event, i: nat)
    requires L.Inv(cfg, l) && L.Enabled(l, e) && i < |l.rows| && (e.act.Lease? || e.act.Reclaim?)
    ensures i < |L.Step(cfg, l, e).rows| && L.Step(cfg, l, e).rows[i].task == l.rows[i].task
    ensures L.Step(cfg, l, e).rows[i].status == LeaseQueue.Acked ==> l.rows[i].status == LeaseQueue.Acked
  {
    if e.act.Lease? {
      LeasedRows(cfg, l, e, L.Step(cfg, l, e));
      StatementAcksNothing(l.rows, e.act.leased, |l.issued|, e.act.worker,
                           e.now + LeaseQueue.WholeSeconds(cfg.leaseDuration), 0, i);
    } else {
      ReclaimedRows(cfg, l, e, L.Step(cfg, l, e));
      StatementAcksNothing(l.rows, e.act.reclaimed, 0, "", 0, e.now, i);
    }
  }

  lemma {:induction false} StatementAcksNothing(rows: seq<LeaseQueue.Row>, picked: seq<nat>, first: nat, worker: string,
                                                until: int, now: int, i: nat)
    requires i < |rows|
    ensures LeaseQueue.LeaseRows(rows, picked, first, worker, until)[i].status == LeaseQueue.Acked ==>
              rows[i].status == LeaseQueue.Acked
    ensures LeaseQueue.ReclaimRows(rows, picked, now)[i].status == LeaseQueue.Acked ==>
              rows[i].status == LeaseQueue.Acked
    ensures LeaseQueue.LeaseRows(rows, picked, first, worker, until)[i].task == rows[i].task
    ensures LeaseQueue.ReclaimRows(rows, picked, now)[i].task == rows[i].task
    decreases |picked|
  {
    if picked != [] {
      StatementAcksNothing(rows, picked[..|picked| - 1], first, worker, until, now, i);
    }
  }

  /** Acked rows belong to canceled executions. */
  ghost predicate AckedCanceled(rows: seq<LeaseQueue.Row>, executions: map<string, Exec>) {
    forall i :: 0 <= i < |rows| && rows[i].status == LeaseQueue.Acked ==>
      rows[i].task in executions && executions[rows[i].task].status == Canceled
  }

  lemma AckedCanceledByQueue(cfg: L.Config, s: System, e: L.Event)
    requires cfg.maxAttempts >= 1 && Together(cfg, false, s) && MayMove(false, s, QueueStep(e))
    requires HandlersCalled(s.l, Path(false, s)) && AckedCanceled(s.l.rows, Path(false, s).db.executions)
    ensures AckedCanceled(L.Step(cfg, s.l, e).rows, Path(false, s).db.executions)
  {
    var d := Path(false, s);
    L.ReachableInv(cfg, s.l);
    StatementsKeepTasks(cfg, s.l, e);
    if e.act.Ack? {
      SeenCanceledRun(s.es);
      AsWrittenNothingFinishes(s.es);
      GateRun(false, Init(), s.es);
      assert HandlerOk(d.handlers[e.act.acked], d.entered) && CallOf(s.l, e.act.acked, d.handlers[e.act.acked].attempt);
    }
    forall i | 0 <= i < |s.l.rows| && L.Step(cfg, s.l, e).rows[i].status == LeaseQueue.Acked
      ensures s.l.rows[i].task in d.db.executions && d.db.executions[s.l.rows[i].task].status == Canceled
    {
      AckedOnlyByAck(cfg, s.l, e, i);
    }
  }

  lemma AckedCanceledByPath(s: State, ev: Event)
    requires StuckInv(s) && Enabled(s, ev) && !ev.Create? && !ev.QueueMoves? &&
             AckedCanceled(s.db.queue, s.db.executions)
    ensures AckedCanceled(Step(false, s, ev).db.queue, Step(false, s, ev).db.executions)
  {
    QueueStays(false, s, ev);
    forall i | 0 <= i < |s.db.queue| && s.db.queue[i].status == LeaseQueue.Acked
      ensures s.db.queue[i].task in Step(false, s, ev).db.executions &&
              Step(false, s, ev).db.executions[s.db.queue[i].task].status == Canceled
    {
      DurableFinality.AsWrittenCanceledStep(s, ev, s.db.queue[i].task);
    }
  }

  lemma AckedCanceledByCreation(s: State, ev: Event)
    requires Enabled(s, ev) && ev.Create? && AckedCanceled(s.db.queue, s.db.executions)
    ensures AckedCanceled(Step(false, s, ev).db.queue, Step(false, s, ev).db.executions)
  {
    CreateOutcome(s, ev);
  }

  lemma AckedCanceledMove(cfg: L.Config, s: System, m: Move)
    requires cfg.maxAttempts >= 1 && Together(cfg, false, s) && MayMove(false, s, m) &&
             Together(cfg, false, Moved(cfg, false, s, m))
    requires HandlersCalled(s.l, Path(false, s)) && AckedCanceled(s.l.rows, Path(false, s).db.executions)
    ensures var t := Moved(cfg, false, s, m); AckedCanceled(t.l.rows, Path(false, t).db.executions)
  {
    if m.QueueStep? {
      AckedCanceledByQueue(cfg, s, m.e);
      PathAfter(false, s, QueueMoves(L.Step(cfg, s.l, m.e).rows));
    } else {
      PathAfter(false, s, m.ev);
      AsWrittenNothingFinishes(s.es);
      if m.ev.Create? {
        AckedCanceledByCreation(Path(false, s), m.ev);
      } else {
        AckedCanceledByPath(Path(false, s), m.ev);
      }
    }
  }

  /**
   * With the insert as written, in every run of the system, a row is acked only if its execution is
   * canceled. All other work stays ready or leased, or ends in the dead letters.
   */
  lemma {:induction false} OnlyCanceledIsAcked(cfg: L.Config, clock: int, ms: seq<Move>)
    requires cfg.maxAttempts >= 1 && MayRun(cfg, false, clock, ms)
    ensures var s := SystemAfter(cfg, false, clock, ms);
            CanRun(false, Init(), s.es) && AckedCanceled(s.l.rows, Path(false, s).db.executions)
    decreases |ms|
  {
    StaysTogether(cfg, false, clock, ms);
    if ms != [] {
      var front, last := ms[..|ms| - 1], ms[|ms| - 1];
      OnlyCanceledIsAcked(cfg, clock, front);
      StaysTogether(cfg, false, clock, front);
      HandlersStayCalled(cfg, false, clock, front);
      AckedCanceledMove(cfg, SystemAfter(cfg, false, clock, front), last);
    }
  }

  // ---------------------------------------------------------------- how often plugins are started

  /** The leases handler calls on this execution were made for. */
  function Calls(es: seq<Event>, id: string): set<nat> {
    if es == [] then {}
    else
      var last := es[|es| - 1];
      Calls(es[..|es| - 1], id) + if last.Begin? && last.attempt.executionId == id then {last.h} else {}
  }

  /** Its handlers that have not come to their gate. */
  ghost function Before(s: State, id: string): set<nat> {
    set h | h in s.handlers && s.handlers[h].id == id && (s.handlers[h].phase == Read || s.handlers[h].phase == Opened)
  }

  lemma {:induction false} CallsAreBegun(es: seq<Event>, id: string, h: nat)
    ensures h in Calls(es, id) ==>
              exists i :: 0 <= i < |es| && es[i].Begin? && es[i].h == h && es[i].attempt.executionId == id
  {
    if es != [] && h in Calls(es, id) {
      var k := |es| - 1;
      if h in Calls(es[..k], id) {
        CallsAreBegun(es[..k], id, h);
        var i :| 0 <= i < k && es[..k][i].Begin? && es[..k][i].h == h && es[..k][i].attempt.executionId == id;
        assert es[i].h == h;
      }
    }
  }

  /** No step but a call's beginning brings a handler before its gate. */
  lemma BeforeShrinks(upsert: bool, s: State, ev: Event, id: string)
    requires Enabled(s, ev) && !ev.Begin?
    ensures Before(Step(upsert, s, ev), id) <= Before(s, id)
  {
  }

  /** Starts are counted at the gate, which the handler has then passed. */
  lemma StartIsPassage(upsert: bool, s: State, ev: Event, id: string)
    requires Enabled(s, ev)
    ensures var t := Step(upsert, s, ev);
            || t.runs[id] == s.runs[id]
            || (ev.Enter? && t.runs[id] == s.runs[id] + 1 && ev.h in Before(s, id) && ev.h !in Before(t, id))
  {
  }

  /** Each passage of the gate uses up a handler that was before it. */
  lemma GateUsesHandler(upsert: bool, s: State, ev: Event, id: string)
    requires Enabled(s, ev) && !ev.Begin?
    ensures Step(upsert, s, ev).runs[id] + |Before(Step(upsert, s, ev), id)| <= s.runs[id] + |Before(s, id)|
  {
    BeforeShrinks(upsert, s, ev, id);
    StartIsPassage(upsert, s, ev, id);
    UsedUp(Before(s, id), Before(Step(upsert, s, ev), id), s.runs[id], Step(upsert, s, ev).runs[id],
           if ev.Enter? then ev.h else 0);
  }

  lemma UsedUp(before: set<nat>, after: set<nat>, runs: nat, runs': nat, h: nat)
    requires after <= before && (runs' == runs || (runs' == runs + 1 && h in before && h !in after))
    ensures runs' + |after| <= runs + |before|
  {
    if runs' == runs {
      Lists.SubsetCount(after, before);
    } else {
      Lists.SubsetCount(after, before - {h});
    }
  }

  lemma BeginBefore(upsert: bool, s: State, ev: Event, id: string)
    requires Enabled(s, ev) && ev.Begin?
    ensures Before(Step(upsert, s, ev), id) <= Before(s, id) + if ev.attempt.executionId == id then {ev.h} else {}
  {
  }

  lemma BeginAddsHandler(upsert: bool, s: State, ev: Event, id: string)
    requires Enabled(s, ev) && ev.Begin?
    ensures var t := Step(upsert, s, ev);
            t.runs == s.runs && |Before(t, id)| <= |Before(s, id)| + if ev.attempt.executionId == id then 1 else 0
  {
    BeginBefore(upsert, s, ev, id);
    Lists.SubsetCount(Before(Step(upsert, s, ev), id),
                           Before(s, id) + if ev.attempt.executionId == id then {ev.h} else {});
  }

  lemma {:induction false} StartsAreCalls(upsert: bool, es: seq<Event>, id: string)
    requires CanRun(upsert, Init(), es)
    requires forall i, j :: 0 <= i < j < |es| && es[i].Begin? && es[j].Begin? ==> es[i].h != es[j].h
    ensures RunAll(upsert, Init(), es).runs[id] + |Before(RunAll(upsert, Init(), es), id)| <= |Calls(es, id)|
    decreases |es|
  {
    if es != [] {
      var front, last := es[..|es| - 1], es[|es| - 1];
      StartsAreCalls(upsert, front, id);
      if last.Begin? {
        BeginAddsHandler(upsert, RunAll(upsert, Init(), front), last, id);
        CallsAreBegun(front, id, last.h);
      } else {
        GateUsesHandler(upsert, RunAll(upsert, Init(), front), last, id);
      }
    }
  }

  /**
   * In every run of the system, the plugins of an execution are started at most as often as its row was
   * leased, which is at most M times and once more for each reclaim that found it at the limit.
   */
  lemma StartsAreBounded(cfg: L.Config, upsert: bool, clock: int, ms: seq<Move>, i: nat)
    requires cfg.maxAttempts >= 1 && MayRun(cfg, upsert, clock, ms)
    requires CanRun(upsert, Init(), SystemAfter(cfg, upsert, clock, ms).es) &&
             i < |SystemAfter(cfg, upsert, clock, ms).l.rows|
    ensures var s := SystemAfter(cfg, upsert, clock, ms);
            Path(upsert, s).runs[s.l.rows[i].task] <= s.l.rows[i].attemptNo <= cfg.maxAttempts + s.l.late[i]
  {
    var s := SystemAfter(cfg, upsert, clock, ms);
    StaysTogether(cfg, upsert, clock, ms);
    var id := s.l.rows[i].task;
    StartsAreCalls(upsert, s.es, id);
    CallsAreLeases(cfg, upsert, s, i);
    L.ReachableInv(cfg, s.l);
    LeaseTheorems.CountIsCardinality(s.l.issued, i);
    LeaseTheorems.LimitIsPassedIff(cfg, s.l, i);
  }

  lemma CallsAreLeases(cfg: L.Config, upsert: bool, s: System, i: nat)
    requires cfg.maxAttempts >= 1 && Together(cfg, upsert, s) && i < |s.l.rows|
    ensures |Calls(s.es, s.l.rows[i].task)| <= |LeaseTheorems.LeasesOf(s.l.issued, i)|
  {
    var id := s.l.rows[i].task;
    TaskNamesRow(cfg, upsert, s);
    forall h | h in Calls(s.es, id) ensures h in LeaseTheorems.LeasesOf(s.l.issued, i) {
      CallsAreBegun(s.es, id, h);
      var k :| 0 <= k < |s.es| && s.es[k].Begin? && s.es[k].h == h && s.es[k].attempt.executionId == id;
      assert CallOf(s.l, h, s.es[k].attempt);
    }
    Lists.SubsetCount(Calls(s.es, id), LeaseTheorems.LeasesOf(s.l.issued, i));
  }
}
