/** What holds of the Postgres path in every run, for the statements as written and for the upsert in their place. */
module DurableTheorems {
  import opened Executions
  import opened MetadataStore
  import opened DurableProtocol

  // ---------------------------------------------------------------- cancel before start

  /**
   * An execution no transition to Running was committed for is queued or canceled and has not run;
   * one that entered is no longer queued.
   */
  ghost predicate ExecOk(id: string, e: Exec, entered: set<string>, runs: multiset<string>) {
    && e.id == id
    && (id !in entered ==> (e.status == Queued || e.status == Canceled) && runs[id] == 0)
    && (id in entered ==> e.status != Queued)
  }

  /** A handler past the gate, or that read anything but Queued or Canceled, is on an execution that entered. */
  ghost predicate HandlerOk(d: Handler, entered: set<string>) {
    && (d.seen == Queued || d.seen == Canceled || d.id in entered)
    && (d.phase == Read || d.phase == Opened || d.phase.Returned? || d.id in entered)
    && d.attempt.executionId == d.id
  }

  /** A cancel goes by a status it could cancel, and read anything but Queued only of an execution that entered. */
  ghost predicate CancelerOk(k: Canceler, entered: set<string>) {
    CanCancel(k.seen) && (k.seen == Queued || k.id in entered)
  }

  ghost predicate GateInv(s: State) {
    && (forall id :: id in s.db.executions ==> ExecOk(id, s.db.executions[id], s.entered, s.runs))
    && (forall h :: h in s.handlers ==> HandlerOk(s.handlers[h], s.entered) && s.handlers[h].id in s.db.executions)
    && (forall c :: c in s.cancelers ==> CancelerOk(s.cancelers[c], s.entered) && s.cancelers[c].id in s.db.executions)
    && s.entered <= s.db.executions.Keys
    && (forall id :: id in s.runs ==> id in s.db.executions)
  }

  lemma FinalIsReported(rows: seq<ResultRow>)
    ensures FinalOf(rows) != Queued && FinalOf(rows) != Running && FinalOf(rows) != Canceled && FinalOf(rows) != Pending
  {
  }

  /** One handler moves, the executions stay. */
  lemma GateMove(s: State, t: State, h: nat)
    requires GateInv(s) && h in s.handlers && h in t.handlers
    requires t.db.executions == s.db.executions && t.entered == s.entered && t.runs == s.runs &&
             t.cancelers == s.cancelers
    requires t.handlers == s.handlers[h := s.handlers[h].(phase := t.handlers[h].phase)]
    requires HandlerOk(t.handlers[h], s.entered)
    ensures GateInv(t)
  {
  }

  /** A handler passes the gate, for an execution that has entered or by a transition that commits. */
  lemma GatePassed(s: State, t: State, h: nat)
    requires GateInv(s) && h in s.handlers && HandlerOk(s.handlers[h], s.entered)
    requires || (t.db.executions == s.db.executions && t.entered == s.entered && s.handlers[h].id in s.entered)
             || (t.db.executions == WithStatus(s.db, s.handlers[h].id, Running).executions &&
                 t.entered == s.entered + {s.handlers[h].id})
    requires t.runs == s.runs + multiset{s.handlers[h].id} && t.cancelers == s.cancelers
    requires t.handlers == s.handlers[h := s.handlers[h].(phase := Entered)]
    ensures GateInv(t)
  {
    forall id | id in t.db.executions ensures ExecOk(id, t.db.executions[id], t.entered, t.runs) {
      assert ExecOk(id, s.db.executions[id], s.entered, s.runs);
    }
  }

  lemma GateEnter(upsert: bool, s: State, ev: Event)
    requires GateInv(s) && ev.Enter? && Enabled(s, ev)
    ensures GateInv(Step(upsert, s, ev))
  {
    var t := Step(upsert, s, ev);
    var d := s.handlers[ev.h];
    assert HandlerOk(d, s.entered) && ExecOk(d.id, s.db.executions[d.id], s.entered, s.runs);
    if t.handlers[ev.h].phase == Entered {
      GatePassed(s, t, ev.h);
    } else {
      GateMove(s, t, ev.h);
    }
  }

  lemma GateHandler(upsert: bool, s: State, ev: Event)
    requires GateInv(s) && (ev.Open? || ev.RunPlugins? || ev.Break? || ev.Close? || ev.Report?) && Enabled(s, ev)
    ensures GateInv(Step(upsert, s, ev))
  {
    assert HandlerOk(s.handlers[ev.h], s.entered);
    GateMove(s, Step(upsert, s, ev), ev.h);
  }

  lemma GateFinalize(upsert: bool, s: State, ev: Event)
    requires GateInv(s) && ev.Finalize? && Enabled(s, ev)
    ensures GateInv(Step(upsert, s, ev))
  {
    var d := s.handlers[ev.h];
    assert HandlerOk(d, s.entered) && ExecOk(d.id, s.db.executions[d.id], s.entered, s.runs);
    FinalIsReported(d.phase.closing);
  }

  lemma GateCancelRead(upsert: bool, s: State, ev: Event)
    requires GateInv(s) && ev.CancelRead? && Enabled(s, ev)
    ensures GateInv(Step(upsert, s, ev))
  {
    assert ExecOk(ev.id, s.db.executions[ev.id], s.entered, s.runs);
  }

  lemma GateCancelWrite(upsert: bool, s: State, ev: Event, t: State)
    requires GateInv(s) && ev.CancelWrite? && Enabled(s, ev) && t == Step(upsert, s, ev)
    ensures GateInv(t)
  {
    var k := s.cancelers[ev.c];
    assert CancelerOk(k, s.entered) && ExecOk(k.id, s.db.executions[k.id], s.entered, s.runs);
    assert t.handlers == s.handlers && t.cancelers == s.cancelers - {ev.c};
    assert t.runs == s.runs && t.entered == s.entered;
    assert t.db.executions == s.db.executions || t.db.executions == WithStatus(s.db, k.id, Canceled).executions;
  }

  lemma GateStep(upsert: bool, s: State, ev: Event)
    requires GateInv(s) && Enabled(s, ev)
    ensures GateInv(Step(upsert, s, ev))
  {
    if ev.Create? {
      CreateOutcome(s, ev);
    } else if ev.Begin? {
      assert ExecOk(ev.attempt.executionId, s.db.executions[ev.attempt.executionId], s.entered, s.runs);
    } else if ev.Enter? {
      GateEnter(upsert, s, ev);
    } else if ev.Finalize? {
      GateFinalize(upsert, s, ev);
    } else if ev.CancelRead? {
      GateCancelRead(upsert, s, ev);
    } else if ev.CancelWrite? {
      GateCancelWrite(upsert, s, ev, Step(upsert, s, ev));
    } else if !ev.Die? && !ev.QueueMoves? {
      GateHandler(upsert, s, ev);
    }
  }

  lemma {:induction false} GateRun(upsert: bool, s: State, es: seq<Event>)
    requires GateInv(s) && CanRun(upsert, s, es)
    ensures GateInv(RunAll(upsert, s, es))
    decreases |es|
  {
    if es != [] {
      GateRun(upsert, s, es[..|es| - 1]);
      GateStep(upsert, RunAll(upsert, s, es[..|es| - 1]), es[|es| - 1]);
    }
  }

  /** The steps that leave the executions and their history alone. */
  predicate Quiet(ev: Event) {
    !ev.Create? && !ev.Enter? && !ev.CancelWrite? && !ev.Finalize?
  }

  lemma QuietStep(upsert: bool, s: State, ev: Event)
    requires Enabled(s, ev) && Quiet(ev)
    ensures var t := Step(upsert, s, ev);
            t.db.executions == s.db.executions && t.entered == s.entered && t.left == s.left
  {
  }

  /** Canceled, and never entered. */
  predicate CanceledBeforeStart(s: State, id: string) {
    id in s.db.executions && s.db.executions[id].status == Canceled && id !in s.entered
  }

  lemma CanceledEnter(upsert: bool, s: State, ev: Event, id: string)
    requires Enabled(s, ev) && CanceledBeforeStart(s, id) && (ev.Enter? || ev.Finalize?)
    requires HandlerOk(s.handlers[ev.h], s.entered)
    ensures CanceledBeforeStart(Step(upsert, s, ev), id)
  {
  }

  lemma CanceledStep(upsert: bool, s: State, ev: Event, id: string)
    requires GateInv(s) && Enabled(s, ev) && CanceledBeforeStart(s, id)
    ensures CanceledBeforeStart(Step(upsert, s, ev), id)
  {
    if Quiet(ev) {
      QuietStep(upsert, s, ev);
    } else if ev.Create? {
      CreateOutcome(s, ev);
    } else if ev.Enter? || ev.Finalize? {
      CanceledEnter(upsert, s, ev, id);
    }
  }

  /**
   * An execution canceled before any transition to Running was committed stays canceled and its plugins
   * never run, whatever leases, retries, cancels and crashes follow, and whichever attempt statement is used.
   */
  lemma {:induction false} CanceledBeforeStartForever(upsert: bool, s: State, es: seq<Event>, id: string)
    requires GateInv(s) && CanRun(upsert, s, es) && CanceledBeforeStart(s, id)
    ensures CanceledBeforeStart(RunAll(upsert, s, es), id)
    ensures RunAll(upsert, s, es).runs[id] == 0
    decreases |es|
  {
    if es != [] {
      var front := es[..|es| - 1];
      CanceledBeforeStartForever(upsert, s, front, id);
      GateRun(upsert, s, front);
      CanceledStep(upsert, RunAll(upsert, s, front), es[|es| - 1], id);
    }
    GateRun(upsert, s, es);
    assert ExecOk(id, RunAll(upsert, s, es).db.executions[id], RunAll(upsert, s, es).entered,
                  RunAll(upsert, s, es).runs);
  }

  // ---------------------------------------------------------------- the race out of Queued

  /** Each execution leaves Queued at most once: it has left exactly if it is no longer queued. */
  ghost predicate LeftOnce(s: State) {
    && (forall id :: id in s.db.executions ==> s.left[id] == if s.db.executions[id].status == Queued then 0 else 1)
    && (forall id :: id in s.left ==> id in s.db.executions)
  }

  lemma LeftOnceSwap(s: State, id: string, from: Status, to: Status, ev: ExecEvent, audit: AuditLog, failAt: nat)
    requires LeftOnce(s) && to != Queued
    ensures LeftOnce(Swap(s, id, from, to, ev, audit, failAt).0)
  {
  }

  lemma LeftOnceFinalize(upsert: bool, s: State, ev: Event)
    requires LeftOnce(s) && ev.Finalize? && Enabled(s, ev)
    requires var d := s.handlers[ev.h]; d.id in s.db.executions && s.db.executions[d.id].status != Queued
    ensures LeftOnce(Step(upsert, s, ev))
  {
    FinalIsReported(s.handlers[ev.h].phase.closing);
  }

  lemma LeftOnceCreate(upsert: bool, s: State, ev: Event)
    requires LeftOnce(s) && ev.Create? && Enabled(s, ev)
    ensures LeftOnce(Step(upsert, s, ev))
  {
    CreateOutcome(s, ev);
  }

  lemma LeftOnceStep(upsert: bool, s: State, ev: Event)
    requires GateInv(s) && LeftOnce(s) && Enabled(s, ev)
    ensures LeftOnce(Step(upsert, s, ev))
  {
    if Quiet(ev) {
      QuietStep(upsert, s, ev);
    } else if ev.Create? {
      LeftOnceCreate(upsert, s, ev);
    } else if ev.Finalize? {
      var d := s.handlers[ev.h];
      assert HandlerOk(d, s.entered) && ExecOk(d.id, s.db.executions[d.id], s.entered, s.runs);
      LeftOnceFinalize(upsert, s, ev);
    } else {
      LeftOnceMove(upsert, s, ev);
    }
  }

  /** The history of exits depends on the executions and itself alone. */
  lemma LeftOnceSame(s: State, t: State)
    requires LeftOnce(s) && t.db.executions == s.db.executions && t.left == s.left
    ensures LeftOnce(t)
  {
  }

  lemma LeftOnceMove(upsert: bool, s: State, ev: Event)
    requires LeftOnce(s) && (ev.Enter? || ev.CancelWrite?) && Enabled(s, ev)
    ensures LeftOnce(Step(upsert, s, ev))
  {
    var t := Step(upsert, s, ev);
    if ev.Enter? {
      var d := s.handlers[ev.h];
      var started, audit := ExecEvent(ev.evId, d.id, EventStarted, Running), AuditLog(ev.auditId, d.id, AuditStarted);
      LeftOnceSwap(s, d.id, d.seen, Running, started, audit, ev.failAt);
      LeftOnceSame(if d.seen == Canceled || d.seen == Running then s
                   else Swap(s, d.id, d.seen, Running, started, audit, ev.failAt).0, t);
    } else {
      var k := s.cancelers[ev.c];
      var canceled, audit := ExecEvent(ev.evId, k.id, EventCanceled, Canceled),
                             AuditLog(ev.auditId, k.id, AuditCanceled);
      LeftOnceSwap(s, k.id, k.seen, Canceled, canceled, audit, ev.failAt);
      LeftOnceSame(Swap(s, k.id, k.seen, Canceled, canceled, audit, ev.failAt).0, t);
    }
  }

  /** Over every run, the compare-and-sets out of Queued that commit are one per execution that is no longer queued. */
  lemma {:induction false} OneWinnerOutOfQueued(upsert: bool, es: seq<Event>)
    requires CanRun(upsert, Init(), es)
    ensures LeftOnce(RunAll(upsert, Init(), es))
    decreases |es|
  {
    if es != [] {
      var front := es[..|es| - 1];
      OneWinnerOutOfQueued(upsert, front);
      GateRun(upsert, Init(), front);
      LeftOnceStep(upsert, RunAll(upsert, Init(), front), es[|es| - 1]);
    }
  }

  /** A transaction's statements get through: none of the first `last` aborts, and its ids were not used before. */
  predicate Commits(db: DB, evId: nat, auditId: nat, failAt: nat, last: nat) {
    && failAt >= last
    && (forall i :: 0 <= i < |db.events| ==> db.events[i].id != evId)
    && (forall i :: 0 <= i < |db.audits| ==> db.audits[i].id != auditId)
  }

  /** A worker's start and a user's cancel of one queued execution, both having read Queued, and no failures ahead. */
  ghost predicate Racing(s: State, start: Event, cancel: Event) {
    && start.Enter? && cancel.CancelWrite? && Enabled(s, start) && Enabled(s, cancel)
    && var d, k := s.handlers[start.h], s.cancelers[cancel.c];
       && k.id == d.id && d.seen == k.seen == Queued
       && d.id in s.db.executions && s.db.executions[d.id].status == Queued
       && Commits(s.db, start.evId, start.auditId, start.failAt, 4)
       && Commits(s.db, cancel.evId, cancel.auditId, cancel.failAt, 4)
  }

  lemma StartFirst(upsert: bool, s: State, start: Event, cancel: Event) returns (t: State, u: State)
    requires Racing(s, start, cancel)
    ensures t == Step(upsert, s, start) && Enabled(t, cancel) && u == Step(upsert, t, cancel)
    ensures var id := s.handlers[start.h].id; id in t.db.executions && t.db.executions[id].status == Running
    ensures start.h in t.handlers && t.handlers[start.h].phase == Entered && u.db == t.db
  {
    t := Step(upsert, s, start);
    u := Step(upsert, t, cancel);
  }

  lemma CancelFirst(upsert: bool, s: State, start: Event, cancel: Event) returns (t: State, u: State)
    requires Racing(s, start, cancel)
    ensures t == Step(upsert, s, cancel) && Enabled(t, start) && u == Step(upsert, t, start)
    ensures var id := s.handlers[start.h].id; id in t.db.executions && t.db.executions[id].status == Canceled
    ensures u.db == t.db && start.h in u.handlers && u.handlers[start.h].phase == Returned(false)
  {
    t := Step(upsert, s, cancel);
    u := Step(upsert, t, start);
  }

  /**
   * Run to the end in either order, the first wins, the second changes nothing in the database, and the
   * loser knows it lost.
   */
  lemma RaceFromQueued(upsert: bool, s: State, start: Event, cancel: Event)
      returns (started: State, lost: State, canceled: State, refused: State)
    requires Racing(s, start, cancel)
    ensures started == Step(upsert, s, start) && Enabled(started, cancel) && lost == Step(upsert, started, cancel)
    ensures canceled == Step(upsert, s, cancel) && Enabled(canceled, start) && refused == Step(upsert, canceled, start)
    ensures lost.db == started.db && refused.db == canceled.db
    ensures var id := s.handlers[start.h].id;
            && id in started.db.executions && started.db.executions[id].status == Running
            && id in canceled.db.executions && canceled.db.executions[id].status == Canceled
    ensures start.h in started.handlers && started.handlers[start.h].phase == Entered
    ensures start.h in refused.handlers && refused.handlers[start.h].phase == Returned(false)
  {
    started, lost := StartFirst(upsert, s, start, cancel);
    canceled, refused := CancelFirst(upsert, s, start, cancel);
  }

  // ---------------------------------------------------------------- as written, nothing is ever finalized

  predicate Recorded(attempts: seq<Attempt>, id: nat) {
    exists i :: 0 <= i < |attempts| && attempts[i].id == id
  }

  /** A handler that opened its attempt has a row under the attempt's id, so inserting that id again must fail. */
  ghost predicate StuckOk(d: Handler, attempts: seq<Attempt>) {
    match d.phase
    case Read => true
    case Closed(_) => false
    case Returned(ok) => ok ==> d.seen == Canceled
    case _ => Recorded(attempts, d.attempt.id)
  }

  ghost predicate StuckInv(s: State) {
    && (forall h :: h in s.handlers ==> StuckOk(s.handlers[h], s.db.attempts))
    && (forall id :: id in s.db.executions ==>
          var st := s.db.executions[id].status; st == Queued || st == Running || st == Canceled)
    && s.db.results == []
  }

  lemma RecordedGrows(attempts: seq<Attempt>, a: Attempt, id: nat)
    ensures Recorded(attempts, id) ==> Recorded(attempts + [a], id)
    ensures Recorded(attempts + [a], a.id)
  {
    if Recorded(attempts, id) {
      var i :| 0 <= i < |attempts| && attempts[i].id == id;
      assert (attempts + [a])[i].id == id;
    }
    assert (attempts + [a])[|attempts|] == a;
  }

  /** Attempts only ever grow by one row, and never by a row whose id is there. */
  lemma AttemptGrows(db: DB, a: Attempt, ev: ExecEvent, failAt: nat)
    ensures var (after, ok) := AppendAttemptTx(db, a, ev, false, failAt);
            && after.executions == db.executions && after.results == db.results
            && after.queue == db.queue && after.audits == db.audits
            && (after.attempts == db.attempts || after.attempts == db.attempts + [a])
            && (ok ==> after.attempts == db.attempts + [a])
            && (Recorded(db.attempts, a.id) ==> !ok)
  {
  }

  lemma StuckMove(s: State, t: State, h: nat)
    requires StuckInv(s) && h in s.handlers && h in t.handlers && t.handlers == s.handlers[h := t.handlers[h]]
    requires t.db.attempts == s.db.attempts || exists a :: t.db.attempts == s.db.attempts + [a]
    requires t.db.executions == s.db.executions && t.db.results == s.db.results
    requires StuckOk(t.handlers[h], t.db.attempts)
    ensures StuckInv(t)
  {
    forall k | k in t.handlers ensures StuckOk(t.handlers[k], t.db.attempts) {
      if k != h && t.db.attempts != s.db.attempts {
        var a :| t.db.attempts == s.db.attempts + [a];
        RecordedGrows(s.db.attempts, a, s.handlers[k].attempt.id);
      }
    }
  }

  lemma StuckAppend(s: State, ev: Event)
    requires StuckInv(s) && (ev.Open? || ev.Close? || ev.Report?) && Enabled(s, ev)
    ensures StuckInv(Step(false, s, ev))
  {
    var d := s.handlers[ev.h];
    assert StuckOk(d, s.db.attempts);
    var status := if ev.Open? then d.attempt.status else if ev.Close? then AttemptSuccess else AttemptFailed;
    var a := d.attempt.(status := status);
    var e := if ev.Open? then ExecEvent(ev.evId, d.id, EventStarted, Running)
             else if ev.Close? then ExecEvent(ev.evId, d.id, EventFinished, FinalOf(d.phase.rows))
             else ExecEvent(ev.evId, d.id, EventFailed, Failed);
    AttemptGrows(s.db, a, e, ev.failAt);
    RecordedGrows(s.db.attempts, a, d.attempt.id);
    StuckMove(s, Step(false, s, ev), ev.h);
  }

  lemma NeverClosed(s: State, h: nat)
    requires StuckInv(s) && h in s.handlers
    ensures !s.handlers[h].phase.Closed?
  {
    assert StuckOk(s.handlers[h], s.db.attempts);
  }

  /** The steps that touch neither the attempts nor the results, and keep each handler's standing. */
  lemma StuckRest(s: State, ev: Event)
    requires Enabled(s, ev) && Quiet(ev) && !ev.Open? && !ev.Close? && !ev.Report?
    requires forall h :: h in s.handlers ==> StuckOk(s.handlers[h], s.db.attempts)
    ensures var t := Step(false, s, ev);
            && t.db.attempts == s.db.attempts && t.db.results == s.db.results
            && (forall h :: h in t.handlers ==> StuckOk(t.handlers[h], s.db.attempts))
  {
  }

  lemma StuckQuiet(s: State, ev: Event)
    requires StuckInv(s) && Enabled(s, ev) && Quiet(ev) && !ev.Open? && !ev.Close? && !ev.Report?
    ensures StuckInv(Step(false, s, ev))
  {
    QuietStep(false, s, ev);
    StuckRest(s, ev);
  }

  lemma StuckCancel(s: State, ev: Event, t: State)
    requires StuckInv(s) && Enabled(s, ev) && ev.CancelWrite? && t == Step(false, s, ev)
    ensures StuckInv(t)
  {
    assert t.handlers == s.handlers && t.db.attempts == s.db.attempts;
  }

  lemma StuckEnter(s: State, ev: Event, t: State)
    requires StuckInv(s) && Enabled(s, ev) && ev.Enter? && t == Step(false, s, ev)
    ensures StuckInv(t)
  {
    assert StuckOk(s.handlers[ev.h], s.db.attempts);
    assert t.handlers == s.handlers[ev.h := t.handlers[ev.h]] && t.db.attempts == s.db.attempts;
  }

  lemma StuckStep(s: State, ev: Event)
    requires StuckInv(s) && Enabled(s, ev)
    ensures StuckInv(Step(false, s, ev))
  {
    if ev.Open? || ev.Close? || ev.Report? {
      StuckAppend(s, ev);
    } else if Quiet(ev) {
      StuckQuiet(s, ev);
    } else if ev.Create? {
      CreateOutcome(s, ev);
    } else if ev.Finalize? {
      NeverClosed(s, ev.h);
    } else if ev.Enter? {
      StuckEnter(s, ev, Step(false, s, ev));
    } else {
      StuckCancel(s, ev, Step(false, s, ev));
    }
  }

  /**
   * With the insert as written, over every run: no execution ever has a status other than Queued, Running
   * or Canceled, no result row is ever stored, and the only handler calls that return without an error
   * are those that found their execution canceled.
   */
  lemma {:induction false} AsWrittenNothingFinishes(es: seq<Event>)
    requires CanRun(false, Init(), es)
    ensures StuckInv(RunAll(false, Init(), es))
    ensures var s := RunAll(false, Init(), es);
            && s.db.results == []
            && (forall id :: id in s.db.executions ==> s.db.executions[id].status in {Queued, Running, Canceled})
            && (forall h :: h in s.handlers && s.handlers[h].phase == Returned(true) ==> s.handlers[h].seen == Canceled)
    decreases |es|
  {
    if es != [] {
      AsWrittenNothingFinishes(es[..|es| - 1]);
      StuckStep(RunAll(false, Init(), es[..|es| - 1]), es[|es| - 1]);
    }
  }
}
