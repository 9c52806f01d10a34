/** The leased handler as one uninterrupted call. */
module DurableHandler {
  import opened Executions
  import opened MetadataStore
  import opened DurableProtocol

  /** The statement at which each of a handler's transactions fails, if it is small enough to be one of theirs. */
  datatype Faults = Faults(open: nat, enter: nat, close: nat, finalize: nat, report: nat)

  /** The aggregate depends on the statuses alone. */
  lemma SameStatusesSameAggregate(a: seq<Result>, b: seq<Result>)
    requires |a| == |b| && forall i :: 0 <= i < |a| ==> a[i].status == b[i].status
    ensures Aggregate(a) == Aggregate(b)
  {
  }

  /** An attempt that was appended can be found. */
  lemma AppendedClashes(db: DB, a: Attempt, ev: ExecEvent, upsert: bool, failAt: nat)
    ensures var (after, ok) := AppendAttemptTx(db, a, ev, upsert, failAt); ok ==> AttemptClash(after.attempts, a)
  {
    var (after, ok) := AppendAttemptTx(db, a, ev, upsert, failAt);
    if ok {
      if after.attempts == db.attempts + [a] {
        assert after.attempts[|db.attempts|] == a;
      } else {
        var i :| 0 <= i < |db.attempts| && SameAttempt(db.attempts[i], a);
        assert SameAttempt(after.attempts[i], a);
      }
    }
  }

  // ---------------------------------------------------------------- a call, transaction by transaction

  /** The gate by the status read before: a canceled or running execution is left alone, any other is to be running. */
  ghost predicate GatesAs(started: DB, entered: DB, id: string, seen: Status, evId: nat, failAt: nat, ok: bool) {
    if seen == Canceled || seen == Running then entered == started && ok
    else TransitionsAs(started, entered, id, seen, Running, ExecEvent(evId + 1, id, EventStarted, Running),
                       AuditLog(evId, id, AuditStarted), failAt, ok)
  }

  /** What the plugins report, as the rows to store. */
  ghost function RowsOf(id: string, pluginIds: seq<string>, outcome: nat -> (PluginStatus, int)): seq<ResultRow> {
    seq(|pluginIds|, k requires 0 <= k < |pluginIds| => ResultRow(id, pluginIds[k], outcome(k).0))
  }

  /** The attempt is closed as a success, and then the execution gets its final status and its results. */
  ghost predicate RunsAs(entered: DB, closed: DB, after: DB, a: Attempt, rows: seq<ResultRow>, final: Status, evId: nat,
                         f: Faults, upsert: bool, ok: bool)
  {
    var id, attempt := a.executionId, a.(status := AttemptSuccess);
    var finished := ExecEvent(evId + 2, id, EventFinished, final);
    if AppendsAs(entered, closed, attempt, finished, upsert, f.close, true) then
      FinalizesAs(closed, after, id, rows, final, ExecEvent(evId + 3, id, EventFinished, final),
                  AuditLog(evId + 1, id, AuditFinished), f.finalize, ok)
    else AppendsAs(entered, closed, attempt, finished, upsert, f.close, false) && after == closed && !ok
  }

  /** A call that did not get to its end closes the attempt as a failure, if that commits. */
  ghost predicate ReportsAs(ran: DB, after: DB, a: Attempt, evId: nat, upsert: bool, failAt: nat, ok: bool) {
    if ok then after == ran
    else
      var failed := ExecEvent(evId + 4, a.executionId, EventFailed, Failed);
      || AppendsAs(ran, after, a.(status := AttemptFailed), failed, upsert, failAt, true)
      || AppendsAs(ran, after, a.(status := AttemptFailed), failed, upsert, failAt, false)
  }

  /** The databases a call leaves on its way, and the final status it works out. */
  datatype Trace = Trace(started: DB, entered: DB, closed: DB, ran: DB, final: Status)

  /** A whole call on an execution that was e: opening, gate, plugins and their end, or the report of a failure. */
  ghost predicate CallsAs(before: DB, after: DB, e: Exec, a: Attempt, runs: bool, rows: seq<ResultRow>, evId: nat,
                          f: Faults, upsert: bool, ok: bool, tr: Trace)
  {
    var opening := ExecEvent(evId, a.executionId, EventStarted, Running);
    if AppendsAs(before, tr.started, a, opening, upsert, f.open, false) then after == tr.started && !ok
    else && AppendsAs(before, tr.started, a, opening, upsert, f.open, true)
         && if e.status == Canceled then after == tr.started && ok
            else if GatesAs(tr.started, tr.entered, a.executionId, e.status, evId, f.enter, false)
            then after == tr.entered && !ok
            else && GatesAs(tr.started, tr.entered, a.executionId, e.status, evId, f.enter, true)
                 && EndsAs(after, a, runs, rows, evId, f, upsert, ok, tr)
  }

  /** From the gate on. */
  ghost predicate EndsAs(after: DB, a: Attempt, runs: bool, rows: seq<ResultRow>, evId: nat, f: Faults, upsert: bool,
                         ok: bool, tr: Trace)
  {
    && (if runs then CountsTo(rows, tr.final) &&
                     RunsAs(tr.entered, tr.closed, tr.ran, a, rows, tr.final, evId, f, upsert, ok)
        else tr.ran == tr.entered && !ok)
    && ReportsAs(tr.ran, after, a, evId, upsert, f.report, ok)
  }

  // ---------------------------------------------------------------- the handler's steps in the protocol

  /** Handler h of t works on `task` with this attempt, read this status, and stands at this phase. */
  ghost predicate Stands(t: State, h: nat, d: Handler) {
    h in t.handlers && t.handlers[h] == d && d.attempt.executionId == d.id && d.id in t.db.executions
  }

  lemma OpenStep(upsert: bool, t: State, h: nat, d: Handler, evId: nat, failAt: nat)
    requires Stands(t, h, d) && d.phase == Read
    ensures var ev := Open(h, evId, failAt);
            var (db, ok) := AppendAttemptTx(t.db, d.attempt, ExecEvent(evId, d.id, EventStarted, Running), upsert,
                                            failAt);
            Enabled(t, ev) && Step(upsert, t, ev).db == db &&
            Stands(Step(upsert, t, ev), h, d.(phase := if ok then Opened else Returned(false)))
  {
  }

  lemma EnterStep(upsert: bool, t: State, h: nat, d: Handler, evId: nat, auditId: nat, failAt: nat)
    requires Stands(t, h, d) && d.phase == Opened
    ensures var ev := Enter(h, evId, auditId, failAt);
            var (db, ok) := TransitionTx(t.db, d.id, d.seen, Running, ExecEvent(evId, d.id, EventStarted, Running),
                                         AuditLog(auditId, d.id, AuditStarted), failAt);
            && Enabled(t, ev)
            && (if d.seen == Canceled || d.seen == Running then Step(upsert, t, ev).db == t.db
                else Step(upsert, t, ev).db == db)
            && Stands(Step(upsert, t, ev), h,
                      d.(phase := if d.seen == Canceled then Returned(true)
                                  else if d.seen == Running || ok then Entered
                                  else Returned(false)))
  {
  }

  lemma RunStep(upsert: bool, t: State, h: nat, d: Handler, rows: seq<ResultRow>)
    requires Stands(t, h, d) && d.phase == Entered && RowsFor(rows, d.id, t.db.executions[d.id].pluginIds)
    ensures Enabled(t, RunPlugins(h, rows)) && Step(upsert, t, RunPlugins(h, rows)).db == t.db
    ensures Stands(Step(upsert, t, RunPlugins(h, rows)), h, d.(phase := Ran(rows)))
  {
  }

  lemma BreakStep(upsert: bool, t: State, h: nat, d: Handler)
    requires Stands(t, h, d) && d.phase == Entered
    ensures Enabled(t, Break(h)) && Step(upsert, t, Break(h)).db == t.db
    ensures Stands(Step(upsert, t, Break(h)), h, d.(phase := Broken))
  {
  }

  lemma CloseStep(upsert: bool, t: State, h: nat, d: Handler, evId: nat, failAt: nat)
    requires Stands(t, h, d) && d.phase.Ran?
    ensures var ev := Close(h, evId, failAt);
            var final := FinalOf(d.phase.rows);
            var (db, ok) := AppendAttemptTx(t.db, d.attempt.(status := AttemptSuccess),
                                            ExecEvent(evId, d.id, EventFinished, final), upsert, failAt);
            && Enabled(t, ev) && Step(upsert, t, ev).db == db
            && Stands(Step(upsert, t, ev), h, d.(phase := if ok then Closed(d.phase.rows) else Broken))
  {
  }

  lemma FinalizeStep(upsert: bool, t: State, h: nat, d: Handler, evId: nat, auditId: nat, failAt: nat)
    requires Stands(t, h, d) && d.phase.Closed?
    ensures var ev := Finalize(h, evId, auditId, failAt);
            var final := FinalOf(d.phase.closing);
            var (db, ok) := FinalizeTx(t.db, d.id, d.phase.closing, final, ExecEvent(evId, d.id, EventFinished, final),
                                       AuditLog(auditId, d.id, AuditFinished), failAt);
            && Enabled(t, ev) && Step(upsert, t, ev).db == db
            && Stands(Step(upsert, t, ev), h, d.(phase := if ok then Returned(true) else Broken))
  {
  }

  lemma ReportStep(upsert: bool, t: State, h: nat, d: Handler, evId: nat, failAt: nat)
    requires Stands(t, h, d) && d.phase == Broken
    ensures var ev := Report(h, evId, failAt);
            var (db, ok) := AppendAttemptTx(t.db, d.attempt.(status := AttemptFailed),
                                            ExecEvent(evId, d.id, EventFailed, Failed), upsert, failAt);
            Enabled(t, ev) && Step(upsert, t, ev).db == db &&
            Stands(Step(upsert, t, ev), h, d.(phase := Returned(false)))
  {
  }

  /** The insert that opens the attempt, with ids drawn from n on. */
  predicate OpeningCommits(db: DB, task: string, attemptNo: nat, n: nat, upsert: bool, failAt: nat) {
    AppendAttemptTx(db, Attempt(n, task, attemptNo, AttemptRunning), ExecEvent(n + 1, task, EventStarted, Running),
                    upsert, failAt).1
  }

  class MetadataExecutionHandler {
    const store: Store
    /** The source of attempt, event and audit ids. */
    var nextId: nat

    constructor (store: Store)
      ensures this.store == store && nextId == 0
    {
      this.store, nextId := store, 0;
    }

    /**
     * The call is a run of the protocol's handler from its beginning to its return. With the insert as
     * written it returns without an error if and only if it read Canceled and its opening insert committed.
     * `found`, `panics` and `outcome` are what the plugins come to; `s` is any protocol state with this
     * database.
     */
    method HandleLeasedExecution(task: string, attemptNo: nat, found: bool, panics: bool,
                                 outcome: nat -> (PluginStatus, int), f: Faults,
                                 ghost s: State, ghost h: nat)
        returns (ok: bool, ghost es: seq<Event>, ghost tr: Trace)
      requires s.db == store.db && h !in s.handlers
      requires forall i :: 0 <= i < |s.db.attempts| ==> s.db.attempts[i].id < nextId
      requires forall k :: k in s.handlers ==> s.handlers[k].attempt.id < nextId
      modifies store, this
      ensures CanRun(store.upserts, s, es) && RunAll(store.upserts, s, es).db == store.db
      ensures task !in s.db.executions ==> !ok && es == [] && store.db == s.db
      ensures task in s.db.executions ==>
                var e := s.db.executions[task];
                CallsAs(s.db, store.db, e, Attempt(old(nextId), task, attemptNo, AttemptRunning), found && !panics,
                        RowsOf(task, e.pluginIds, outcome), old(nextId) + 1, f, store.upserts, ok, tr)
      ensures task in s.db.executions ==>
                var t := RunAll(store.upserts, s, es);
                h in t.handlers && t.handlers[h].id == task && t.handlers[h].phase == Returned(ok)
      ensures !store.upserts ==>
                (ok <==> task in s.db.executions && s.db.executions[task].status == Canceled
                         && OpeningCommits(s.db, task, attemptNo, old(nextId), false, f.open))
    {
      es, tr := [], Trace(store.db, store.db, store.db, store.db, Failed);
      if task !in store.db.executions {
        return false, es, tr;
      }
      var e := store.db.executions[task];
      var attempt := Attempt(nextId, task, attemptNo, AttemptRunning);
      var evId := nextId + 1;
      nextId := nextId + 6;
      ghost var d := Handler(task, attempt, e.status, Read);
      ghost var t := Step(store.upserts, s, Begin(h, attempt));
      LeadsNext(store.upserts, s, es, s, Begin(h, attempt));
      es := es + [Begin(h, attempt)];
      ok := store.AppendAttempt(attempt, ExecEvent(evId, task, EventStarted, Running), f.open);
      assert ok == OpeningCommits(s.db, task, attemptNo, attempt.id, store.upserts, f.open);
      OpenStep(store.upserts, t, h, d, evId, f.open);
      LeadsNext(store.upserts, s, es, t, Open(h, evId, f.open));
      es, t := es + [Open(h, evId, f.open)], Step(store.upserts, t, Open(h, evId, f.open));
      if !ok {
        return;
      }
      AppendedClashes(s.db, attempt, ExecEvent(evId, task, EventStarted, Running), store.upserts, f.open);
      ghost var started := store.db;
      tr := tr.(started := started);
      ok, es, t := PassGate(e, attempt, f, evId, s, es, t, h, d.(phase := Opened));
      if !ok || e.status == Canceled {
        tr := tr.(entered := store.db);
        return;
      }
      ok, es, t, tr := RunToEnd(e.pluginIds, attempt, found, panics, outcome, f, evId, s, es, t, h,
                                d.(phase := Entered));
      tr := tr.(started := started);
    }

    /** The cancel check and the transition to Running. */
    method PassGate(e: Exec, attempt: Attempt, f: Faults, evId: nat, ghost s: State, ghost es: seq<Event>,
                    ghost t: State, ghost h: nat, ghost d: Handler)
        returns (ok: bool, ghost es': seq<Event>, ghost t': State)
      requires Leads(store.upserts, s, es, t) && t.db == store.db && Stands(t, h, d) && d.phase == Opened
      requires d.attempt == attempt && d.seen == e.status
      modifies store
      ensures Leads(store.upserts, s, es', t') && t'.db == store.db
      ensures Stands(t', h, d.(phase := if ok && e.status != Canceled then Entered else Returned(ok)))
      ensures e.status == Canceled ==> ok
      ensures GatesAs(old(store.db), store.db, attempt.executionId, e.status, evId, f.enter, ok)
      ensures store.db.attempts == old(store.db.attempts) && store.db.executions.Keys == old(store.db.executions.Keys)
      ensures d.id in store.db.executions &&
              store.db.executions[d.id].pluginIds == old(store.db.executions[d.id].pluginIds)
    {
      var task := attempt.executionId;
      ok := true;
      if e.status != Canceled && e.status != Running {
        ok := store.TransitionExecutionWithEvent(task, e.status, Running,
                                                 ExecEvent(evId + 1, task, EventStarted, Running),
                                                 AuditLog(evId, task, AuditStarted), f.enter);
      }
      EnterStep(store.upserts, t, h, d, evId + 1, evId, f.enter);
      LeadsNext(store.upserts, s, es, t, Enter(h, evId + 1, evId, f.enter));
      es', t' := es + [Enter(h, evId + 1, evId, f.enter)], Step(store.upserts, t, Enter(h, evId + 1, evId, f.enter));
    }

    /** The plugins, their results, and the failure write deferred until the end. */
    method RunToEnd(pluginIds: seq<string>, attempt: Attempt, found: bool, panics: bool,
                    outcome: nat -> (PluginStatus, int), f: Faults, evId: nat,
                    ghost s: State, ghost es: seq<Event>, ghost t: State, ghost h: nat, ghost d: Handler)
        returns (ok: bool, ghost es': seq<Event>, ghost t': State, ghost tr: Trace)
      requires Leads(store.upserts, s, es, t) && t.db == store.db && Stands(t, h, d) && d.phase == Entered &&
               d.attempt == attempt
      requires pluginIds == store.db.executions[d.id].pluginIds && AttemptClash(store.db.attempts, attempt)
      modifies store
      ensures Leads(store.upserts, s, es', t') && t'.db == store.db && Stands(t', h, d.(phase := Returned(ok)))
      ensures ok ==> store.upserts
      ensures tr.entered == old(store.db)
      ensures EndsAs(store.db, attempt, found && !panics, RowsOf(attempt.executionId, pluginIds, outcome), evId, f,
                     store.upserts, ok, tr)
    {
      tr := Trace(store.db, store.db, store.db, store.db, Failed);
      if !found || panics {
        BreakStep(store.upserts, t, h, d);
        LeadsNext(store.upserts, s, es, t, Break(h));
        es', t' := es + [Break(h)], Step(store.upserts, t, Break(h));
        ok := false;
      } else {
        ghost var closed, final;
        ok, es', t', closed, final := RunAndClose(pluginIds, attempt, outcome, f, evId, s, es, t, h, d);
        tr := tr.(closed := closed, ran := store.db, final := final);
      }
      if !ok {
        ReportStep(store.upserts, t', h, d.(phase := Broken), evId + 4, f.report);
        LeadsNext(store.upserts, s, es', t', Report(h, evId + 4, f.report));
        es', t' := es' + [Report(h, evId + 4, f.report)], Step(store.upserts, t', Report(h, evId + 4, f.report));
        var reported := store.AppendAttempt(attempt.(status := AttemptFailed),
                                            ExecEvent(evId + 4, attempt.executionId, EventFailed, Failed), f.report);
      }
    }

    /** The run of the plugins, the second append and the finalization. */
    method RunAndClose(pluginIds: seq<string>, attempt: Attempt, outcome: nat -> (PluginStatus, int), f: Faults,
                       evId: nat,
                       ghost s: State, ghost es: seq<Event>, ghost t: State, ghost h: nat, ghost d: Handler)
        returns (ok: bool, ghost es': seq<Event>, ghost t': State, ghost closed: DB, ghost final: Status)
      requires Leads(store.upserts, s, es, t) && t.db == store.db && Stands(t, h, d) && d.phase == Entered &&
               d.attempt == attempt
      requires pluginIds == store.db.executions[d.id].pluginIds && AttemptClash(store.db.attempts, attempt)
      modifies store
      ensures Leads(store.upserts, s, es', t') && t'.db == store.db &&
              Stands(t', h, d.(phase := if ok then Returned(true) else Broken))
      ensures ok ==> store.upserts
      ensures CountsTo(RowsOf(attempt.executionId, pluginIds, outcome), final)
      ensures RunsAs(old(store.db), closed, store.db, attempt, RowsOf(attempt.executionId, pluginIds, outcome), final,
                     evId, f, store.upserts, ok)
    {
      var task := attempt.executionId;
      var results := Executions.RunPlugins(0, pluginIds, outcome);
      var status := AggregateExecutionStatus(results);
      final := status;
      var rows := seq(|results|, i requires 0 <= i < |results| =>
                        ResultRow(task, results[i].pluginId, results[i].status));
      assert rows == RowsOf(task, pluginIds, outcome);
      FinalByCounts(rows);
      assert final == FinalOf(rows) by {
        SameStatusesSameAggregate(results,
                                  seq(|rows|, i requires 0 <= i < |rows| =>
                                        Result(0, rows[i].pluginId, rows[i].status, 0)));
      }
      ghost var ran := DurableProtocol.RunPlugins(h, rows);
      RunStep(store.upserts, t, h, d, rows);
      LeadsNext(store.upserts, s, es, t, ran);
      es', t' := es + [ran], Step(store.upserts, t, ran);
      ok := store.AppendAttempt(attempt.(status := AttemptSuccess), ExecEvent(evId + 2, task, EventFinished, status),
                                f.close);
      closed := store.db;
      CloseStep(store.upserts, t', h, d.(phase := Ran(rows)), evId + 2, f.close);
      LeadsNext(store.upserts, s, es', t', Close(h, evId + 2, f.close));
      es', t' := es' + [Close(h, evId + 2, f.close)], Step(store.upserts, t', Close(h, evId + 2, f.close));
      if ok {
        ok := store.AppendResultAndFinalize(task, rows, status, ExecEvent(evId + 3, task, EventFinished, status),
                                            AuditLog(evId + 1, task, AuditFinished), f.finalize);
        FinalizeStep(store.upserts, t', h, d.(phase := Closed(rows)), evId + 3, evId + 1, f.finalize);
        LeadsNext(store.upserts, s, es', t', Finalize(h, evId + 3, evId + 1, f.finalize));
        es', t' := es' + [Finalize(h, evId + 3, evId + 1, f.finalize)],
                   Step(store.upserts, t', Finalize(h, evId + 3, evId + 1, f.finalize));
      }
    }
  }
}
