/** Creations on the Postgres path are all or nothing, and the attempts of its handlers never collide. */
module DurableCreations {
  import opened Executions
  import opened MetadataStore
  import opened DurableProtocol
  import opened DurableTheorems
  import LeaseQueue

  // ---------------------------------------------------------------- creation is all or nothing

  predicate IsCreation(t: EventType) {
    t == EventCreated || t == EventQueued
  }

  /** The creation events of one execution, in order. */
  function CreationTypes(events: seq<ExecEvent>, id: string): seq<EventType> {
    if events == [] then []
    else
      var front := CreationTypes(events[..|events| - 1], id);
      var last := events[|events| - 1];
      if last.executionId == id && IsCreation(last.typ) then front + [last.typ] else front
  }

  function CreationAudits(audits: seq<AuditLog>, id: string): nat {
    if audits == [] then 0
    else
      var last := audits[|audits| - 1];
      CreationAudits(audits[..|audits| - 1], id) + if last.resourceId == id && last.action == AuditCreated then 1 else 0
  }

  lemma TypesAppend(events: seq<ExecEvent>, ev: ExecEvent, id: string)
    ensures CreationTypes(events + [ev], id) ==
            CreationTypes(events, id) + if ev.executionId == id && IsCreation(ev.typ) then [ev.typ] else []
  {
    assert (events + [ev])[..|events|] == events;
  }

  lemma AuditsAppend(audits: seq<AuditLog>, a: AuditLog, id: string)
    ensures CreationAudits(audits + [a], id) ==
            CreationAudits(audits, id) + if a.resourceId == id && a.action == AuditCreated then 1 else 0
  {
    assert (audits + [a])[..|audits|] == audits;
  }

  ghost predicate HasRow(queue: seq<LeaseQueue.Row>, e: Exec) {
    exists i :: 0 <= i < |queue| && LeaseQueue.SameKey(queue[i], e.tenant, e.project, e.id)
  }

  ghost predicate TasksKnown(queue: seq<LeaseQueue.Row>, executions: map<string, Exec>) {
    forall i :: 0 <= i < |queue| ==> queue[i].task in executions
  }

  ghost predicate TasksDistinct(queue: seq<LeaseQueue.Row>) {
    forall i, j :: 0 <= i < j < |queue| ==> queue[i].task != queue[j].task
  }

  /** Executions stand under their ids, and idempotency keys are unique. */
  ghost predicate Keyed(executions: map<string, Exec>) {
    UniqueKeys(executions) && forall id :: id in executions ==> executions[id].id == id
  }

  /** Each execution has exactly one queue row, and each row an execution. */
  ghost predicate Enqueued(queue: seq<LeaseQueue.Row>, executions: map<string, Exec>) {
    && TasksKnown(queue, executions) && TasksDistinct(queue)
    && forall id :: id in executions ==> HasRow(queue, executions[id])
  }

  /** Each execution, and nothing else, has its two creation events, in order, and one creation audit entry. */
  ghost predicate Historied(events: seq<ExecEvent>, audits: seq<AuditLog>, executions: map<string, Exec>) {
    && (forall id :: CreationTypes(events, id) == if id in executions then [EventCreated, EventQueued] else [])
    && (forall id :: CreationAudits(audits, id) == if id in executions then 1 else 0)
  }

  /**
   * Every execution has exactly one queue row, its two creation events and one creation audit entry; every
   * queue row has an execution; and the idempotency keys are unique.
   */
  ghost predicate Consistent(db: DB) {
    && Keyed(db.executions)
    && Enqueued(db.queue, db.executions)
    && Historied(db.events, db.audits, db.executions)
  }

  /** A change that creates nothing: a status, an event and an audit entry of other kinds, rows moved in the queue. */
  ghost predicate Touched(a: DB, b: DB) {
    && (b.executions == a.executions ||
        exists id, to :: id in a.executions && b.executions == a.executions[id := a.executions[id].(status := to)])
    && SameTasks(a.queue, b.queue)
    && (b.events == a.events || exists ev: ExecEvent :: !IsCreation(ev.typ) && b.events == a.events + [ev])
    && (b.audits == a.audits || exists au: AuditLog :: au.action != AuditCreated && b.audits == a.audits + [au])
  }

  lemma HistoryFollows(a: DB, b: DB, id: string)
    requires Touched(a, b)
    ensures CreationTypes(b.events, id) == CreationTypes(a.events, id) &&
            CreationAudits(b.audits, id) == CreationAudits(a.audits, id)
  {
    if b.events != a.events {
      var ev: ExecEvent :| !IsCreation(ev.typ) && b.events == a.events + [ev];
      TypesAppend(a.events, ev, id);
    }
    if b.audits != a.audits {
      var au: AuditLog :| au.action != AuditCreated && b.audits == a.audits + [au];
      AuditsAppend(a.audits, au, id);
    }
  }

  lemma ExecutionsFollow(a: DB, b: DB)
    requires Touched(a, b)
    ensures b.executions.Keys == a.executions.Keys
    ensures forall id :: id in a.executions ==> b.executions[id] == a.executions[id].(status := b.executions[id].status)
  {
  }

  lemma TouchedStaysConsistent(a: DB, b: DB)
    requires Consistent(a) && Touched(a, b)
    ensures Consistent(b)
  {
    forall id
      ensures CreationTypes(b.events, id) == CreationTypes(a.events, id) &&
              CreationAudits(b.audits, id) == CreationAudits(a.audits, id)
    {
      HistoryFollows(a, b, id);
    }
    ExecutionsFollow(a, b);
    QueueFollows(a, b);
    KeysFollow(a, b);
  }

  lemma QueueFollows(a: DB, b: DB)
    requires SameTasks(a.queue, b.queue) && b.executions.Keys == a.executions.Keys
    requires forall id :: id in a.executions ==>
               b.executions[id] == a.executions[id].(status := b.executions[id].status)
    requires forall id :: id in a.executions ==> HasRow(a.queue, a.executions[id])
    ensures forall id :: id in b.executions ==> HasRow(b.queue, b.executions[id])
  {
    forall id | id in b.executions ensures HasRow(b.queue, b.executions[id]) {
      var e := a.executions[id];
      assert HasRow(a.queue, e);
      var i :| 0 <= i < |a.queue| && LeaseQueue.SameKey(a.queue[i], e.tenant, e.project, e.id);
      assert LeaseQueue.SameKey(a.queue[i], b.queue[i].tenant, b.queue[i].project, b.queue[i].task);
    }
  }

  lemma KeysFollow(a: DB, b: DB)
    requires UniqueKeys(a.executions) && b.executions.Keys == a.executions.Keys
    requires forall id :: id in a.executions ==>
               b.executions[id] == a.executions[id].(status := b.executions[id].status)
    ensures UniqueKeys(b.executions)
  {
    forall x, y | x in b.executions && y in b.executions && x != y && b.executions[x].key != ""
      ensures !SameKey(b.executions[x], b.executions[y])
    {
      assert !SameKey(a.executions[x], a.executions[y]);
    }
  }

  lemma AppendTouches(db: DB, a: Attempt, ev: ExecEvent, upsert: bool, failAt: nat)
    requires !IsCreation(ev.typ)
    ensures Touched(db, AppendAttemptTx(db, a, ev, upsert, failAt).0)
  {
  }

  lemma TransitionTouches(db: DB, id: string, from: Status, to: Status, ev: ExecEvent, audit: AuditLog, failAt: nat)
    requires !IsCreation(ev.typ) && audit.action != AuditCreated
    ensures Touched(db, TransitionTx(db, id, from, to, ev, audit, failAt).0)
  {
    if id in db.executions {
      assert WithStatus(db, id, to).executions == db.executions[id := db.executions[id].(status := to)];
    }
  }

  lemma FinalizeTouches(db: DB, id: string, rows: seq<ResultRow>, final: Status, ev: ExecEvent, audit: AuditLog,
                        failAt: nat)
    requires !IsCreation(ev.typ) && audit.action != AuditCreated
    ensures Touched(db, FinalizeTx(db, id, rows, final, ev, audit, failAt).0)
  {
    if id in db.executions {
      assert WithStatus(db, id, final).executions == db.executions[id := db.executions[id].(status := final)];
    }
  }

  lemma StepTouches(upsert: bool, s: State, ev: Event)
    requires Enabled(s, ev) && !ev.Create?
    ensures Touched(s.db, Step(upsert, s, ev).db)
  {
    match ev
    case Open(h, evId, failAt) =>
      AppendTouches(s.db, s.handlers[h].attempt, ExecEvent(evId, s.handlers[h].id, EventStarted, Running), upsert,
                    failAt);
    case Close(h, evId, failAt) =>
      var d := s.handlers[h];
      AppendTouches(s.db, d.attempt.(status := AttemptSuccess),
                    ExecEvent(evId, d.id, EventFinished, FinalOf(d.phase.rows)), upsert, failAt);
    case Report(h, evId, failAt) =>
      AppendTouches(s.db, s.handlers[h].attempt.(status := AttemptFailed),
                    ExecEvent(evId, s.handlers[h].id, EventFailed, Failed), upsert, failAt);
    case Enter(h, evId, auditId, failAt) =>
      var d := s.handlers[h];
      TransitionTouches(s.db, d.id, d.seen, Running, ExecEvent(evId, d.id, EventStarted, Running),
                        AuditLog(auditId, d.id, AuditStarted), failAt);
    case CancelWrite(c, evId, auditId, failAt) =>
      var k := s.cancelers[c];
      TransitionTouches(s.db, k.id, k.seen, Canceled, ExecEvent(evId, k.id, EventCanceled, Canceled),
                        AuditLog(auditId, k.id, AuditCanceled), failAt);
    case Finalize(h, evId, auditId, failAt) =>
      var d := s.handlers[h];
      var final := FinalOf(d.phase.closing);
      FinalizeTouches(s.db, d.id, d.phase.closing, final, ExecEvent(evId, d.id, EventFinished, final),
                      AuditLog(auditId, d.id, AuditFinished), failAt);
    case _ =>
  }

  lemma CreatedHistory(db: DB, ev: Event, id: string)
    requires ev.Create?
    ensures CreationTypes(AfterCreate(db, ev).events, id) ==
            CreationTypes(db.events, id) + if id == ev.e.id then [EventCreated, EventQueued] else []
    ensures CreationAudits(AfterCreate(db, ev).audits, id) ==
            CreationAudits(db.audits, id) + if id == ev.e.id then 1 else 0
  {
    var evs := CreationEvents(ev.e.id, ev.created, ev.queued);
    assert db.events + evs == db.events + [evs[0]] + [evs[1]];
    TypesAppend(db.events, evs[0], id);
    TypesAppend(db.events + [evs[0]], evs[1], id);
    AuditsAppend(db.audits, AuditLog(ev.auditId, ev.e.id, AuditCreated), id);
  }

  lemma HasRowAppend(queue: seq<LeaseQueue.Row>, row: LeaseQueue.Row, e: Exec)
    ensures HasRow(queue, e) || LeaseQueue.SameKey(row, e.tenant, e.project, e.id) ==> HasRow(queue + [row], e)
  {
    if HasRow(queue, e) {
      var i :| 0 <= i < |queue| && LeaseQueue.SameKey(queue[i], e.tenant, e.project, e.id);
      assert (queue + [row])[i] == queue[i];
    }
    assert (queue + [row])[|queue|] == row;
  }

  lemma TasksAppend(queue: seq<LeaseQueue.Row>, row: LeaseQueue.Row, executions: map<string, Exec>, e: Exec)
    requires TasksKnown(queue, executions) && TasksDistinct(queue) && row.task == e.id && e.id !in executions
    ensures TasksKnown(queue + [row], executions[e.id := e]) && TasksDistinct(queue + [row])
  {
  }

  /** The creation of a fresh execution appends its queue row. */
  lemma CreateEnqueues(db: DB, ev: Event) returns (row: LeaseQueue.Row)
    requires TasksKnown(db.queue, db.executions) && ev.Create? && ev.e.id !in db.executions
    ensures AfterCreate(db, ev).queue == db.queue + [row]
    ensures LeaseQueue.SameKey(row, ev.e.tenant, ev.e.project, ev.e.id)
  {
    assert forall i :: 0 <= i < |db.queue| ==> db.queue[i].task != ev.e.id;
    row := AfterCreate(db, ev).queue[|db.queue|];
  }

  lemma CreatedHistories(db: DB, ev: Event, after: DB)
    requires Historied(db.events, db.audits, db.executions) && ev.Create? && ev.e.id !in db.executions
    requires after == AfterCreate(db, ev)
    ensures Historied(after.events, after.audits, after.executions)
  {
    forall id
      ensures CreationTypes(after.events, id) == if id in after.executions then [EventCreated, EventQueued] else []
    {
      CreatedHistory(db, ev, id);
    }
    forall id ensures CreationAudits(after.audits, id) == if id in after.executions then 1 else 0 {
      CreatedHistory(db, ev, id);
    }
  }

  lemma CreatedRows(queue: seq<LeaseQueue.Row>, row: LeaseQueue.Row, executions: map<string, Exec>, e: Exec)
    requires Enqueued(queue, executions) && e.id !in executions && LeaseQueue.SameKey(row, e.tenant, e.project, e.id)
    ensures Enqueued(queue + [row], executions[e.id := e])
  {
    TasksAppend(queue, row, executions, e);
    var known := executions[e.id := e];
    forall id | id in known ensures HasRow(queue + [row], known[id]) {
      HasRowAppend(queue, row, known[id]);
    }
  }

  lemma CreatedEnqueued(db: DB, ev: Event, after: DB)
    requires Enqueued(db.queue, db.executions) && ev.Create? && ev.e.id !in db.executions &&
             after == AfterCreate(db, ev)
    ensures Enqueued(after.queue, after.executions)
  {
    var row := CreateEnqueues(db, ev);
    CreatedRows(db.queue, row, db.executions, ev.e);
  }

  lemma CreatedStaysConsistent(db: DB, ev: Event, after: DB)
    requires Consistent(db) && ev.Create? && ev.e.id !in db.executions && Conflicts(db.executions, ev.e) == {}
    requires after == AfterCreate(db, ev)
    ensures Consistent(after)
  {
    CreatedKeyed(db, ev, after);
    CreatedEnqueued(db, ev, after);
    CreatedHistories(db, ev, after);
  }

  lemma CreatedKeyed(db: DB, ev: Event, after: DB)
    requires Keyed(db.executions) && ev.Create? && ev.e.id !in db.executions && Conflicts(db.executions, ev.e) == {}
    requires after == AfterCreate(db, ev)
    ensures Keyed(after.executions)
  {
    CreatedKeys(db.executions, ev.e);
  }

  lemma CreatedKeys(executions: map<string, Exec>, e: Exec)
    requires UniqueKeys(executions) && Conflicts(executions, e) == {} && e.id !in executions
    ensures UniqueKeys(executions[e.id := e])
  {
    forall id | id in executions && e.key != "" ensures !SameKey(executions[id], e) && !SameKey(e, executions[id]) {
      assert id !in Conflicts(executions, e);
    }
  }

  /** After any sequence of creations, each aborted at any statement or not, mixed with everything else that runs. */
  lemma {:induction false} CreationsAreAllOrNothing(upsert: bool, es: seq<Event>)
    requires CanRun(upsert, Init(), es)
    ensures Consistent(RunAll(upsert, Init(), es).db)
    decreases |es|
  {
    if es != [] {
      var front, last := es[..|es| - 1], es[|es| - 1];
      CreationsAreAllOrNothing(upsert, front);
      var s := RunAll(upsert, Init(), front);
      if last.Create? {
        CreateOutcome(s, last);
        if last.after != s.db {
          CreatedStaysConsistent(s.db, last, last.after);
        }
      } else {
        StepTouches(upsert, s, last);
        TouchedStaysConsistent(s.db, Step(upsert, s, last).db);
      }
    }
  }

  // ---------------------------------------------------------------- the first insert of an attempt

  /** No two handler calls of the run were given the same attempt number for the same execution. */
  predicate NumbersFresh(es: seq<Event>) {
    forall i, j :: 0 <= i < j < |es| && es[i].Begin? && es[j].Begin? ==> !SameAttempt(es[i].attempt, es[j].attempt)
  }

  ghost predicate Begun(es: seq<Event>, a: Attempt) {
    exists i :: 0 <= i < |es| && es[i].Begin? && SameAttempt(es[i].attempt, a)
  }

  ghost predicate NumbersInv(s: State, es: seq<Event>) {
    && (forall i :: 0 <= i < |s.db.attempts| ==> Begun(es, s.db.attempts[i]))
    && (forall h :: h in s.handlers ==> Begun(es, s.handlers[h].attempt))
    && (forall g, h :: g in s.handlers && h in s.handlers && g != h ==>
          !SameAttempt(s.handlers[g].attempt, s.handlers[h].attempt) &&
          s.handlers[g].attempt.id != s.handlers[h].attempt.id)
    && (forall h :: h in s.handlers && s.handlers[h].phase == Read ==>
          !AttemptClash(s.db.attempts, s.handlers[h].attempt))
  }

  lemma BegunGrows(es: seq<Event>, ev: Event, a: Attempt)
    ensures Begun(es, a) ==> Begun(es + [ev], a)
    ensures ev.Begin? && SameAttempt(ev.attempt, a) ==> Begun(es + [ev], a)
  {
    if Begun(es, a) {
      var i :| 0 <= i < |es| && es[i].Begin? && SameAttempt(es[i].attempt, a);
      assert (es + [ev])[i] == es[i];
    }
    assert (es + [ev])[|es|] == ev;
  }

  /** The attempt rows after an insert or an upsert: the same keys and ids, or one more row. */
  ghost predicate AttemptRows(before: seq<Attempt>, after: seq<Attempt>, a: Attempt) {
    || after == before + [a]
    || (|after| == |before| &&
        forall i :: 0 <= i < |before| ==> after[i].id == before[i].id && SameAttempt(after[i], before[i]))
  }

  lemma NumbersAppend(s: State, t: State, es: seq<Event>, h: nat, a: Attempt)
    requires NumbersInv(s, es) && h in s.handlers && SameAttempt(a, s.handlers[h].attempt) &&
             a.id == s.handlers[h].attempt.id
    requires AttemptRows(s.db.attempts, t.db.attempts, a)
    requires h in t.handlers && t.handlers == s.handlers[h := s.handlers[h].(phase := t.handlers[h].phase)] &&
             t.handlers[h].phase != Read
    ensures NumbersInv(t, es)
  {
    forall i | 0 <= i < |t.db.attempts| ensures Begun(es, t.db.attempts[i]) {
      if i < |s.db.attempts| {
        assert Begun(es, s.db.attempts[i]);
      }
    }
    forall g | g in t.handlers && t.handlers[g].phase == Read
      ensures !AttemptClash(t.db.attempts, t.handlers[g].attempt)
    {
      assert !AttemptClash(s.db.attempts, s.handlers[g].attempt);
    }
  }

  /** The attempts stay, no call begins, and none is back at its read. */
  ghost predicate SameCalls(s: State, t: State) {
    && t.db.attempts == s.db.attempts
    && (forall h :: h in t.handlers ==> h in s.handlers && t.handlers[h].attempt == s.handlers[h].attempt)
    && (forall h :: h in t.handlers && t.handlers[h].phase == Read ==> s.handlers[h].phase == Read)
  }

  lemma NumbersMove(s: State, t: State, es: seq<Event>)
    requires NumbersInv(s, es) && SameCalls(s, t)
    ensures NumbersInv(t, es)
  {
  }

  lemma BegunDiffers(es: seq<Event>, ev: Event, a: Attempt)
    requires ev.Begin? && NumbersFresh(es + [ev]) && Begun(es, a)
    ensures !SameAttempt(a, ev.attempt)
  {
    var i :| 0 <= i < |es| && es[i].Begin? && SameAttempt(es[i].attempt, a);
    assert (es + [ev])[i] == es[i] && (es + [ev])[|es|] == ev;
  }

  lemma NumbersLater(s: State, es: seq<Event>, ev: Event)
    requires NumbersInv(s, es)
    ensures NumbersInv(s, es + [ev])
  {
    forall a ensures Begun(es, a) ==> Begun(es + [ev], a) {
      BegunGrows(es, ev, a);
    }
  }

  lemma NumbersBegin(s: State, t: State, es: seq<Event>, ev: Event)
    requires NumbersInv(s, es) && ev.Begin? && Enabled(s, ev) && NumbersFresh(es + [ev])
    requires t.db.attempts == s.db.attempts && ev.h in t.handlers && t.handlers == s.handlers[ev.h := t.handlers[ev.h]]
    requires t.handlers[ev.h].attempt == ev.attempt
    ensures NumbersInv(t, es + [ev])
  {
    forall i | 0 <= i < |s.db.attempts| ensures !SameAttempt(s.db.attempts[i], ev.attempt) {
      BegunDiffers(es, ev, s.db.attempts[i]);
    }
    forall h | h in s.handlers ensures !SameAttempt(s.handlers[h].attempt, ev.attempt) {
      BegunDiffers(es, ev, s.handlers[h].attempt);
    }
    NumbersLater(s, es, ev);
    BegunGrows(es, ev, ev.attempt);
  }

  lemma AppendsOrUpdates(db: DB, a: Attempt, ev: ExecEvent, upsert: bool, failAt: nat)
    ensures AttemptRows(db.attempts, AppendAttemptTx(db, a, ev, upsert, failAt).0.attempts, a)
  {
  }

  lemma NumbersAttempt(upsert: bool, s: State, es: seq<Event>, ev: Event)
    requires NumbersInv(s, es) && (ev.Open? || ev.Close? || ev.Report?) && Enabled(s, ev)
    ensures NumbersInv(Step(upsert, s, ev), es)
  {
    var d := s.handlers[ev.h];
    var t := Step(upsert, s, ev);
    match ev
    case Open(h, evId, failAt) =>
      AppendsOrUpdates(s.db, d.attempt, ExecEvent(evId, d.id, EventStarted, Running), upsert, failAt);
      NumbersAppend(s, t, es, h, d.attempt);
    case Close(h, evId, failAt) =>
      AppendsOrUpdates(s.db, d.attempt.(status := AttemptSuccess),
                       ExecEvent(evId, d.id, EventFinished, FinalOf(d.phase.rows)), upsert, failAt);
      NumbersAppend(s, t, es, h, d.attempt.(status := AttemptSuccess));
    case Report(h, evId, failAt) =>
      AppendsOrUpdates(s.db, d.attempt.(status := AttemptFailed), ExecEvent(evId, d.id, EventFailed, Failed), upsert,
                       failAt);
      NumbersAppend(s, t, es, h, d.attempt.(status := AttemptFailed));
  }

  lemma QuietSameCalls(upsert: bool, s: State, ev: Event)
    requires Enabled(s, ev) && Quiet(ev) && !ev.Begin? && !ev.Open? && !ev.Close? && !ev.Report?
    ensures SameCalls(s, Step(upsert, s, ev))
  {
  }

  lemma EnterSameCalls(upsert: bool, s: State, ev: Event, t: State)
    requires Enabled(s, ev) && ev.Enter? && t == Step(upsert, s, ev)
    ensures SameCalls(s, t)
  {
    assert t.handlers == s.handlers[ev.h := t.handlers[ev.h]];
  }

  lemma CancelSameCalls(upsert: bool, s: State, ev: Event, t: State)
    requires Enabled(s, ev) && ev.CancelWrite? && t == Step(upsert, s, ev)
    ensures SameCalls(s, t)
  {
    assert t.handlers == s.handlers;
  }

  lemma LoudSameCalls(upsert: bool, s: State, ev: Event)
    requires Enabled(s, ev) && !Quiet(ev)
    ensures SameCalls(s, Step(upsert, s, ev))
  {
    if ev.Create? {
      CreateOutcome(s, ev);
    } else if ev.Enter? {
      EnterSameCalls(upsert, s, ev, Step(upsert, s, ev));
    } else if ev.CancelWrite? {
      CancelSameCalls(upsert, s, ev, Step(upsert, s, ev));
    }
  }

  lemma NumbersStep(upsert: bool, s: State, es: seq<Event>, ev: Event)
    requires NumbersInv(s, es) && Enabled(s, ev) && NumbersFresh(es + [ev])
    ensures NumbersInv(Step(upsert, s, ev), es + [ev])
  {
    if ev.Begin? {
      NumbersBegin(s, Step(upsert, s, ev), es, ev);
    } else {
      NumbersLater(s, es, ev);
      if ev.Open? || ev.Close? || ev.Report? {
        NumbersAttempt(upsert, s, es + [ev], ev);
      } else {
        if Quiet(ev) {
          QuietSameCalls(upsert, s, ev);
        } else {
          LoudSameCalls(upsert, s, ev);
        }
        NumbersMove(s, Step(upsert, s, ev), es + [ev]);
      }
    }
  }

  /**
   * If the queue numbers the leases of an execution without repeating, as it does, then in every run the
   * insert that opens an attempt finds neither its id nor its (execution, attempt number) taken.
   */
  lemma {:induction false} OpeningNeverClashes(upsert: bool, es: seq<Event>)
    requires CanRun(upsert, Init(), es) && NumbersFresh(es)
    ensures NumbersInv(RunAll(upsert, Init(), es), es)
    ensures var s := RunAll(upsert, Init(), es);
            forall h :: h in s.handlers && s.handlers[h].phase == Read ==>
              !AttemptClash(s.db.attempts, s.handlers[h].attempt)
    decreases |es|
  {
    if es != [] {
      var front, last := es[..|es| - 1], es[|es| - 1];
      OpeningNeverClashes(upsert, front);
      assert es == front + [last];
      NumbersStep(upsert, RunAll(upsert, Init(), front), front, last);
    }
  }
}
