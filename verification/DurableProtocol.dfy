/**
 * The Postgres path as a state machine: creations, any number of leased handlers, user cancels that read
 * and then compare-and-set, workers that die, and the queue moving underneath. Every transaction is one
 * step and may abort. `upsert` false is the attempt insert the metadata store really issues; true is
 * the upsert of the attempt repository in its place.
 */
module DurableProtocol {
  import opened Options
  import opened Executions
  import opened MetadataStore
  import LeaseQueue

  /** Where a call of the leased handler stands. */
  datatype Phase =
    | Read
    | Opened
    | Entered
    | Ran(rows: seq<ResultRow>)
    | Closed(closing: seq<ResultRow>)
    | Broken
    | Returned(ok: bool)

  /** `seen` is the status the handler read at its start and goes by from then on. */
  datatype Handler = Handler(id: string, attempt: Attempt, seen: Status, phase: Phase)

  datatype Canceler = Canceler(id: string, seen: Status)

  /**
   * `entered` holds the executions a transition to Running was committed for, `runs` an execution once
   * per handler that got past its gate, after which its plugins run, so a start that the handler's death
   * cuts off counts too, and `left` an execution once per committed transition out of Queued. These three
   * only record history.
   */
  datatype State = State(
    db: DB,
    handlers: map<nat, Handler>,
    cancelers: map<nat, Canceler>,
    entered: set<string>,
    runs: multiset<string>,
    left: multiset<string>)

  datatype Event =
    | Create(e: Exec, created: nat, queued: nat, auditId: nat, availableAt: Option<int>, now: int, failAt: nat,
             after: DB, r: CreateResult)
    | Begin(h: nat, attempt: Attempt)
    | Open(h: nat, evId: nat, failAt: nat)
    | Enter(h: nat, evId: nat, auditId: nat, failAt: nat)
    | RunPlugins(h: nat, rows: seq<ResultRow>)
    | Break(h: nat)
    | Close(h: nat, evId: nat, failAt: nat)
    | Finalize(h: nat, evId: nat, auditId: nat, failAt: nat)
    | Report(h: nat, evId: nat, failAt: nat)
    | Die(h: nat)
    | CancelRead(c: nat, id: string)
    | CancelWrite(c: nat, evId: nat, auditId: nat, failAt: nat)
    | QueueMoves(queue: seq<LeaseQueue.Row>)

  function Init(): State {
    State(DB(map[], [], [], [], [], []), map[], map[], {}, multiset{}, multiset{})
  }

  function CreationEvents(id: string, created: nat, queued: nat): seq<ExecEvent> {
    [ExecEvent(created, id, EventCreated, Pending), ExecEvent(queued, id, EventQueued, Queued)]
  }

  function FinalOf(rows: seq<ResultRow>): Status {
    Aggregate(seq(|rows|, i requires 0 <= i < |rows| => Result(0, rows[i].pluginId, rows[i].status, 0)))
  }

  /** Counted out: all succeeded, some did, none did and all timed out, or none of these. */
  ghost predicate CountsTo(rows: seq<ResultRow>, final: Status) {
    var n := |rows|;
    var ok := |set i: nat | i < n && rows[i].status == PluginSuccess|;
    var late := |set i: nat | i < n && rows[i].status == PluginTimeout|;
    && (final == Success <==> n > 0 && ok == n)
    && (final == PartialSuccess <==> 0 < ok < n)
    && (final == Timeout <==> n > 0 && ok == 0 && late == n)
    && (final == Failed <==> n == 0 || (ok == 0 && late < n))
  }

  lemma FinalByCounts(rows: seq<ResultRow>)
    ensures CountsTo(rows, FinalOf(rows))
  {
    var results := seq(|rows|, i requires 0 <= i < |rows| => Result(0, rows[i].pluginId, rows[i].status, 0));
    AggregateByCounts(results);
    assert Those(results, PluginSuccess) == set i: nat | i < |rows| && rows[i].status == PluginSuccess;
    assert Those(results, PluginTimeout) == set i: nat | i < |rows| && rows[i].status == PluginTimeout;
  }

  ghost predicate RowsFor(rows: seq<ResultRow>, id: string, pluginIds: seq<string>) {
    |rows| == |pluginIds| &&
    forall i :: 0 <= i < |rows| ==> rows[i].executionId == id && rows[i].pluginId == pluginIds[i]
  }

  /** Moving rows between ready, leased, acked and dead keeps their keys. */
  ghost predicate SameTasks(a: seq<LeaseQueue.Row>, b: seq<LeaseQueue.Row>) {
    |a| == |b| && forall i :: 0 <= i < |a| ==> LeaseQueue.SameKey(a[i], b[i].tenant, b[i].project, b[i].task)
  }

  /** Attempt ids and execution ids are drawn fresh; a handler begins on an execution it finds. */
  ghost predicate Enabled(s: State, ev: Event) {
    match ev
    case Create(e, created, queued, auditId, availableAt, now, failAt, after, r) =>
      e.id !in s.db.executions && e.status == Queued &&
      CreateTx(s.db, e, CreationEvents(e.id, created, queued), AuditLog(auditId, e.id, AuditCreated), availableAt, now,
               failAt, after, r)
    case Begin(h, attempt) =>
      h !in s.handlers && attempt.executionId in s.db.executions && attempt.status == AttemptRunning &&
      (forall i :: 0 <= i < |s.db.attempts| ==> s.db.attempts[i].id != attempt.id) &&
      (forall k :: k in s.handlers ==> s.handlers[k].attempt.id != attempt.id)
    case Open(h, _, _) => h in s.handlers && s.handlers[h].phase == Read
    case Enter(h, _, _, _) => h in s.handlers && s.handlers[h].phase == Opened
    case RunPlugins(h, rows) =>
      h in s.handlers && s.handlers[h].phase == Entered && s.handlers[h].id in s.db.executions &&
      RowsFor(rows, s.handlers[h].id, s.db.executions[s.handlers[h].id].pluginIds)
    case Break(h) =>
      h in s.handlers && (s.handlers[h].phase == Entered || s.handlers[h].phase.Ran? || s.handlers[h].phase.Closed?)
    case Close(h, _, _) => h in s.handlers && s.handlers[h].phase.Ran?
    case Finalize(h, _, _, _) => h in s.handlers && s.handlers[h].phase.Closed?
    case Report(h, _, _) => h in s.handlers && s.handlers[h].phase == Broken
    case Die(h) => h in s.handlers
    case CancelRead(c, id) => c !in s.cancelers && id in s.db.executions && CanCancel(s.db.executions[id].status)
    case CancelWrite(c, _, _, _) => c in s.cancelers
    case QueueMoves(queue) => SameTasks(s.db.queue, queue)
  }

  function Move(s: State, h: nat, phase: Phase): State
    requires h in s.handlers
  {
    s.(handlers := s.handlers[h := s.handlers[h].(phase := phase)])
  }

  /** A committed compare-and-set leaves its mark in the history. */
  function Swap(s: State, id: string, from: Status, to: Status, ev: ExecEvent, audit: AuditLog,
                failAt: nat): (State, bool) {
    var (db, ok) := TransitionTx(s.db, id, from, to, ev, audit, failAt);
    (if ok then s.(db := db,
                   entered := if to == Running then s.entered + {id} else s.entered,
                   left := if from == Queued && to != Queued then s.left + multiset{id} else s.left)
     else s, ok)
  }

  ghost function Step(upsert: bool, s: State, ev: Event): State
    requires Enabled(s, ev)
  {
    match ev
    case Create(_, _, _, _, _, _, _, after, _) => s.(db := after)
    case Begin(h, attempt) =>
      var seen := s.db.executions[attempt.executionId].status;
      s.(handlers := s.handlers[h := Handler(attempt.executionId, attempt, seen, Read)])
    case Open(h, evId, failAt) =>
      var d := s.handlers[h];
      var (db, ok) := AppendAttemptTx(s.db, d.attempt, ExecEvent(evId, d.id, EventStarted, Running), upsert, failAt);
      Move(s.(db := db), h, if ok then Opened else Returned(false))
    case Enter(h, evId, auditId, failAt) =>
      var d := s.handlers[h];
      if d.seen == Canceled then Move(s, h, Returned(true))
      else if d.seen == Running then Move(s, h, Entered).(runs := s.runs + multiset{d.id})
      else
        var (t, ok) := Swap(s, d.id, d.seen, Running, ExecEvent(evId, d.id, EventStarted, Running),
                            AuditLog(auditId, d.id, AuditStarted), failAt);
        if ok then Move(t, h, Entered).(runs := s.runs + multiset{d.id}) else Move(t, h, Returned(false))
    case RunPlugins(h, rows) => Move(s, h, Ran(rows))
    case Break(h) => Move(s, h, Broken)
    case Close(h, evId, failAt) =>
      var d := s.handlers[h];
      var final := FinalOf(d.phase.rows);
      var (db, ok) := AppendAttemptTx(s.db, d.attempt.(status := AttemptSuccess),
                                      ExecEvent(evId, d.id, EventFinished, final), upsert, failAt);
      Move(s.(db := db), h, if ok then Closed(d.phase.rows) else Broken)
    case Finalize(h, evId, auditId, failAt) =>
      var d := s.handlers[h];
      var final := FinalOf(d.phase.closing);
      var (db, ok) := FinalizeTx(s.db, d.id, d.phase.closing, final, ExecEvent(evId, d.id, EventFinished, final),
                                 AuditLog(auditId, d.id, AuditFinished), failAt);
      Move(s.(db := db), h, if ok then Returned(true) else Broken)
    case Report(h, evId, failAt) =>
      var d := s.handlers[h];
      var (db, _) := AppendAttemptTx(s.db, d.attempt.(status := AttemptFailed),
                                     ExecEvent(evId, d.id, EventFailed, Failed), upsert, failAt);
      Move(s.(db := db), h, Returned(false))
    case Die(h) => s.(handlers := s.handlers - {h})
    case CancelRead(c, id) => s.(cancelers := s.cancelers[c := Canceler(id, s.db.executions[id].status)])
    case CancelWrite(c, evId, auditId, failAt) =>
      var k := s.cancelers[c];
      var (t, _) := Swap(s, k.id, k.seen, Canceled, ExecEvent(evId, k.id, EventCanceled, Canceled),
                         AuditLog(auditId, k.id, AuditCanceled), failAt);
      t.(cancelers := t.cancelers - {c})
    case QueueMoves(queue) => s.(db := s.db.(queue := queue))
  }

  ghost predicate CanRun(upsert: bool, s: State, es: seq<Event>)
    decreases |es|, 0
  {
    es == [] || (CanRun(upsert, s, es[..|es| - 1]) && Enabled(RunAll(upsert, s, es[..|es| - 1]), es[|es| - 1]))
  }

  ghost function RunAll(upsert: bool, s: State, es: seq<Event>): State
    requires CanRun(upsert, s, es)
    decreases |es|, 1
  {
    if es == [] then s else Step(upsert, RunAll(upsert, s, es[..|es| - 1]), es[|es| - 1])
  }

  /** One more step. */
  lemma Extend(upsert: bool, s: State, es: seq<Event>, ev: Event, more: seq<Event>)
    requires CanRun(upsert, s, es) && Enabled(RunAll(upsert, s, es), ev) && more == es + [ev]
    ensures CanRun(upsert, s, more) && RunAll(upsert, s, more) == Step(upsert, RunAll(upsert, s, es), ev)
  {
    assert more[..|more| - 1] == es;
  }

  /** The events lead from s to t. */
  ghost predicate Leads(upsert: bool, s: State, es: seq<Event>, t: State) {
    CanRun(upsert, s, es) && RunAll(upsert, s, es) == t
  }

  lemma LeadsNext(upsert: bool, s: State, es: seq<Event>, t: State, ev: Event)
    requires Leads(upsert, s, es, t) && Enabled(t, ev)
    ensures Leads(upsert, s, es + [ev], Step(upsert, t, ev))
  {
    Extend(upsert, s, es, ev, es + [ev]);
  }

  // ---------------------------------------------------------------- what a step does to the executions

  /** Executions appear, and change in nothing but status. */
  datatype Write = Nothing | Added(e: Exec) | One(id: string, to: Status)

  ghost predicate Wrote(a: map<string, Exec>, b: map<string, Exec>, w: Write) {
    match w
    case Nothing => b == a
    case Added(e) => e.id !in a && b == a[e.id := e]
    case One(id, to) => id in a && b == a[id := a[id].(status := to)]
  }

  /** What a committed creation makes of the database. */
  function AfterCreate(db: DB, ev: Event): DB
    requires ev.Create?
  {
    Announced(db.(executions := db.executions[ev.e.id := ev.e]), ev.e, CreationEvents(ev.e.id, ev.created, ev.queued),
              AuditLog(ev.auditId, ev.e.id, AuditCreated), ev.availableAt, ev.now)
  }

  /** A creation commits as a whole, and only if no other execution has its key, or leaves no trace. */
  lemma CreateOutcome(s: State, ev: Event)
    requires ev.Create? && Enabled(s, ev)
    ensures ev.after == s.db || (ev.after == AfterCreate(s.db, ev) && Conflicts(s.db.executions, ev.e) == {})
    ensures ev.after == s.db ||
            var e := ev.e;
            && (forall id :: !Rival(s.db.executions, id, e)) && ev.after.executions == s.db.executions[e.id := e]
            && ev.after.events == s.db.events + [ExecEvent(ev.created, e.id, EventCreated, Pending),
                                                 ExecEvent(ev.queued, e.id, EventQueued, Queued)]
            && ev.after.audits == s.db.audits + [AuditLog(ev.auditId, e.id, AuditCreated)]
            && QueuesAs(s.db.queue, ev.after.queue, e, ev.availableAt, ev.now)
            && ev.after.attempts == s.db.attempts && ev.after.results == s.db.results
  {
    CreateInColumns(s.db, ev.e, CreationEvents(ev.e.id, ev.created, ev.queued),
                    AuditLog(ev.auditId, ev.e.id, AuditCreated), ev.availableAt, ev.now, ev.failAt, ev.after, ev.r);
    if ev.r.Made? {
      assert !Rival(s.db.executions, ev.e.id, ev.e);
    }
  }

  lemma StepWrites(upsert: bool, s: State, ev: Event) returns (w: Write)
    requires Enabled(s, ev)
    ensures Wrote(s.db.executions, Step(upsert, s, ev).db.executions, w)
    ensures w.Added? ==> ev.Create? && ev.e == w.e && Conflicts(s.db.executions, ev.e) == {}
    ensures w.One? ==> ev.Enter? || ev.CancelWrite? || ev.Finalize?
    ensures w.One? && ev.Enter? ==> w == One(s.handlers[ev.h].id, Running)
    ensures w.One? && ev.Enter? ==> s.db.executions[w.id].status == s.handlers[ev.h].seen != Canceled
    ensures w.One? && ev.CancelWrite? ==> w == One(s.cancelers[ev.c].id, Canceled)
    ensures w.One? && ev.CancelWrite? ==> s.db.executions[w.id].status == s.cancelers[ev.c].seen
    ensures w.One? && ev.Finalize? ==> w == One(s.handlers[ev.h].id, FinalOf(s.handlers[ev.h].phase.closing))
  {
    var t := Step(upsert, s, ev);
    match ev
    case Create(_, _, _, _, _, _, _, _, _) =>
      CreateOutcome(s, ev);
      w := if ev.after == s.db then Nothing else Added(ev.e);
    case Enter(h, _, _, _) => w := if t.db == s.db then Nothing else One(s.handlers[h].id, Running);
    case CancelWrite(c, _, _, _) => w := if t.db == s.db then Nothing else One(s.cancelers[c].id, Canceled);
    case Finalize(h, _, _, _) =>
      w := if t.db == s.db || s.handlers[h].id !in s.db.executions then Nothing
           else One(s.handlers[h].id, FinalOf(s.handlers[h].phase.closing));
    case _ => w := Nothing;
  }
}
