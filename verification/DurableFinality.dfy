/** When a final status is final on the Postgres path: exactly when not, as written, and with the upsert. */
module DurableFinality {
  import opened Options
  import opened Executions
  import opened MetadataStore
  import opened DurableProtocol
  import opened DurableTheorems

  // ---------------------------------------------------------------- final statuses on this path

  /**
   * A step that replaces this execution's status: a transition to Running by a handler that read that very
   * status, and did not read Canceled, or a finalization with another status, when no statement aborts and
   * the ids of the event and the audit entry are unused.
   */
  ghost predicate Replaces(s: State, ev: Event, id: string)
    requires Enabled(s, ev) && id in s.db.executions
  {
    var status := s.db.executions[id].status;
    match ev
    case Enter(h, evId, auditId, failAt) =>
      var d := s.handlers[h];
      && d.id == id && d.seen == status && status != Canceled && status != Running
      && Commits(s.db, evId, auditId, failAt, 4)
    case Finalize(h, evId, auditId, failAt) =>
      var d := s.handlers[h];
      && d.id == id && FinalOf(d.phase.closing) != status
      && Commits(s.db, evId, auditId, failAt, |d.phase.closing| + 4)
    case _ => false
  }

  lemma FinalStepIff(upsert: bool, s: State, ev: Event, id: string)
    requires GateInv(s) && Enabled(s, ev) && id in s.db.executions && IsFinal(s.db.executions[id].status)
    ensures id in Step(upsert, s, ev).db.executions
    ensures Step(upsert, s, ev).db.executions[id] != s.db.executions[id] <==> Replaces(s, ev, id)
  {
    if Quiet(ev) {
      QuietStep(upsert, s, ev);
    } else if ev.Create? {
      CreateOutcome(s, ev);
    } else if ev.CancelWrite? {
      assert CancelerOk(s.cancelers[ev.c], s.entered);
    } else if ev.Enter? {
      FinalByEnterIff(upsert, s, ev, id, Step(upsert, s, ev));
    } else {
      FinalByFinalizeIff(upsert, s, ev, id, Step(upsert, s, ev));
    }
  }

  lemma FinalByEnterIff(upsert: bool, s: State, ev: Event, id: string, t: State)
    requires Enabled(s, ev) && ev.Enter? && t == Step(upsert, s, ev)
    requires id in s.db.executions && IsFinal(s.db.executions[id].status)
    ensures id in t.db.executions && (t.db.executions[id] != s.db.executions[id] <==> Replaces(s, ev, id))
  {
  }

  lemma FinalByFinalizeIff(upsert: bool, s: State, ev: Event, id: string, t: State)
    requires Enabled(s, ev) && ev.Finalize? && t == Step(upsert, s, ev)
    requires id in s.db.executions && IsFinal(s.db.executions[id].status)
    ensures id in t.db.executions && (t.db.executions[id] != s.db.executions[id] <==> Replaces(s, ev, id))
  {
  }

  /**
   * In every reachable state, the steps that change an execution with a final status are exactly those that replace
   * it.
   */
  lemma FinalLeavesIff(upsert: bool, es: seq<Event>, ev: Event, id: string)
    requires CanRun(upsert, Init(), es) && Enabled(RunAll(upsert, Init(), es), ev)
    requires id in RunAll(upsert, Init(), es).db.executions &&
             IsFinal(RunAll(upsert, Init(), es).db.executions[id].status)
    ensures var s := RunAll(upsert, Init(), es);
            var t := Step(upsert, s, ev);
            id in t.db.executions && (t.db.executions[id] != s.db.executions[id] <==> Replaces(s, ev, id))
  {
    GateRun(upsert, Init(), es);
    FinalStepIff(upsert, RunAll(upsert, Init(), es), ev, id);
  }

  /** No step of the run replaces this execution's status. */
  ghost predicate NeverReplaced(upsert: bool, s: State, es: seq<Event>, id: string)
    requires CanRun(upsert, s, es)
    decreases |es|
  {
    es == [] ||
    (NeverReplaced(upsert, s, es[..|es| - 1], id) &&
     var m := RunAll(upsert, s, es[..|es| - 1]); id in m.db.executions && !Replaces(m, es[|es| - 1], id))
  }

  /** Over every run, a final status is kept for as long as no step replaces it. */
  lemma {:induction false} FinalKept(upsert: bool, s: State, es: seq<Event>, id: string)
    requires GateInv(s) && CanRun(upsert, s, es) && id in s.db.executions && IsFinal(s.db.executions[id].status)
    requires NeverReplaced(upsert, s, es, id)
    ensures id in RunAll(upsert, s, es).db.executions && RunAll(upsert, s, es).db.executions[id] == s.db.executions[id]
    decreases |es|
  {
    if es != [] {
      var front := es[..|es| - 1];
      FinalKept(upsert, s, front, id);
      GateRun(upsert, s, front);
      FinalStepIff(upsert, RunAll(upsert, s, front), es[|es| - 1], id);
    }
  }

  // ---------------------------------------------------------------- as written, Canceled is final

  lemma AsWrittenCanceledStep(s: State, ev: Event, id: string)
    requires StuckInv(s) && Enabled(s, ev) && id in s.db.executions && s.db.executions[id].status == Canceled
    ensures id in Step(false, s, ev).db.executions && Step(false, s, ev).db.executions[id] == s.db.executions[id]
  {
    if Quiet(ev) {
      QuietStep(false, s, ev);
    } else if ev.Create? {
      CreateOutcome(s, ev);
    } else if ev.Finalize? {
      NeverClosed(s, ev.h);
    }
  }

  lemma {:induction false} StuckRun(s: State, es: seq<Event>)
    requires StuckInv(s) && CanRun(false, s, es)
    ensures StuckInv(RunAll(false, s, es))
    decreases |es|
  {
    if es != [] {
      StuckRun(s, es[..|es| - 1]);
      StuckStep(RunAll(false, s, es[..|es| - 1]), es[|es| - 1]);
    }
  }

  lemma {:induction false} AsWrittenCanceledRun(s: State, es: seq<Event>, id: string)
    requires StuckInv(s) && CanRun(false, s, es) && id in s.db.executions && s.db.executions[id].status == Canceled
    ensures id in RunAll(false, s, es).db.executions && RunAll(false, s, es).db.executions[id] == s.db.executions[id]
    decreases |es|
  {
    if es != [] {
      AsWrittenCanceledRun(s, es[..|es| - 1], id);
      StuckRun(s, es[..|es| - 1]);
      AsWrittenCanceledStep(RunAll(false, s, es[..|es| - 1]), es[|es| - 1], id);
    }
  }

  /**
   * With the insert as written, in every reachable state the only final status is Canceled, and it is
   * absorbing over every continuation, also when the cancel came after the start.
   */
  lemma AsWrittenFinalIsAbsorbing(es: seq<Event>, more: seq<Event>, id: string)
    requires CanRun(false, Init(), es) && CanRun(false, RunAll(false, Init(), es), more)
    requires id in RunAll(false, Init(), es).db.executions &&
             IsFinal(RunAll(false, Init(), es).db.executions[id].status)
    ensures var s := RunAll(false, Init(), es);
            var t := RunAll(false, s, more);
            s.db.executions[id].status == Canceled && id in t.db.executions &&
            t.db.executions[id] == s.db.executions[id]
  {
    AsWrittenNothingFinishes(es);
    AsWrittenCanceledRun(RunAll(false, Init(), es), more, id);
  }

  // ---------------------------------------------------------------- as written, a handler fails at its end

  /** The second insert of the attempt is refused, and so is the one that would report it. */
  lemma AppendRefused(db: DB, a: Attempt, ev: ExecEvent, failAt: nat)
    requires AttemptClash(db.attempts, a)
    ensures AppendAttemptTx(db, a, ev, false, failAt) == (db, false)
  {
  }

  lemma ClosingBreaks(s: State, h: nat, rows: seq<ResultRow>, n: nat)
    requires h in s.handlers && s.handlers[h].phase == Ran(rows) && AttemptClash(s.db.attempts, s.handlers[h].attempt)
    ensures Step(false, s, Close(h, n, 3)) == Move(s, h, Broken)
  {
    var d := s.handlers[h];
    AppendRefused(s.db, d.attempt.(status := AttemptSuccess), ExecEvent(n, d.id, EventFinished, FinalOf(rows)), 3);
  }

  lemma ReportReturns(s: State, h: nat, n: nat)
    requires h in s.handlers && s.handlers[h].phase == Broken && AttemptClash(s.db.attempts, s.handlers[h].attempt)
    ensures Step(false, s, Report(h, n, 3)) == Move(s, h, Returned(false))
  {
    var d := s.handlers[h];
    AppendRefused(s.db, d.attempt.(status := AttemptFailed), ExecEvent(n, d.id, EventFailed, Failed), 3);
  }

  /** So, though its plugins ran and no statement was aborted, the handler returns an error and leaves no result. */
  lemma HandlerFails(s: State, h: nat, rows: seq<ResultRow>, n: nat) returns (es: seq<Event>, t: State)
    requires h in s.handlers && s.handlers[h].phase == Entered && Enabled(s, RunPlugins(h, rows))
    requires AttemptClash(s.db.attempts, s.handlers[h].attempt)
    ensures es == [RunPlugins(h, rows), Close(h, n, 3), Report(h, n, 3)]
    ensures Leads(false, s, es, t) && t == Move(s, h, Returned(false))
  {
    var ran := Step(false, s, RunPlugins(h, rows));
    ClosingBreaks(ran, h, rows, n);
    var broken := Step(false, ran, Close(h, n, 3));
    ReportReturns(broken, h, n);
    t := Step(false, broken, Report(h, n, 3));
    es := ThreeSteps(false, s, RunPlugins(h, rows), ran, Close(h, n, 3), broken, Report(h, n, 3), t);
  }

  // ---------------------------------------------------------------- with the upsert, a lease runs to its end

  lemma LeadsLast(upsert: bool, s: State, es: seq<Event>, t: State) returns (m: State)
    requires Leads(upsert, s, es, t) && es != []
    ensures Leads(upsert, s, es[..|es| - 1], m) && Enabled(m, es[|es| - 1]) && Step(upsert, m, es[|es| - 1]) == t
  {
    m := RunAll(upsert, s, es[..|es| - 1]);
  }

  /** The first step of a run, and the rest. */
  lemma {:induction false} LeadsRest(upsert: bool, s: State, es: seq<Event>, t: State) returns (m: State)
    requires Leads(upsert, s, es, t) && es != []
    ensures Enabled(s, es[0]) && m == Step(upsert, s, es[0]) && Leads(upsert, m, es[1..], t)
    decreases |es|
  {
    var front, last := es[..|es| - 1], es[|es| - 1];
    var before := LeadsLast(upsert, s, es, t);
    if front == [] {
      m := t;
      assert es[1..] == [];
    } else {
      m := LeadsRest(upsert, s, front, before);
      LeadsNext(upsert, m, front[1..], before, last);
      assert es[1..] == front[1..] + [last];
    }
  }

  lemma {:induction false} LeadsOn(upsert: bool, s: State, es: seq<Event>, t: State, more: seq<Event>, u: State)
    requires Leads(upsert, s, es, t) && Leads(upsert, t, more, u)
    ensures Leads(upsert, s, es + more, u)
    decreases |more|
  {
    if more == [] {
      assert es + more == es;
    } else {
      var front, last := more[..|more| - 1], more[|more| - 1];
      var m := LeadsLast(upsert, t, more, u);
      LeadsOn(upsert, s, es, t, front, m);
      LeadsNext(upsert, s, es + front, m, last);
      assert es + more == es + front + [last];
    }
  }

  /** Three enabled steps in a row are a run. */
  lemma ThreeSteps(upsert: bool, s: State, x: Event, t: State, y: Event, u: State, z: Event, v: State)
      returns (es: seq<Event>)
    requires Enabled(s, x) && t == Step(upsert, s, x) && Enabled(t, y) && u == Step(upsert, t, y)
    requires Enabled(u, z) && v == Step(upsert, u, z)
    ensures Leads(upsert, s, es, v) && es == [x, y, z]
  {
    assert Leads(upsert, s, [], s);
    LeadsNext(upsert, s, [], s, x);
    LeadsNext(upsert, s, [] + [x], t, y);
    LeadsNext(upsert, s, [] + [x] + [y], u, z);
    es := [] + [x] + [y] + [z];
  }

  /** Nothing but this handler's own steps. */
  ghost predicate OnlyHandler(es: seq<Event>, h: nat) {
    forall i :: 0 <= i < |es| ==> OfHandler(es[i], h)
  }

  predicate OfHandler(ev: Event, h: nat) {
    match ev
    case Begin(g, _) => g == h
    case Open(g, _, _) => g == h
    case Enter(g, _, _, _) => g == h
    case RunPlugins(g, _) => g == h
    case Close(g, _, _) => g == h
    case Finalize(g, _, _, _) => g == h
    case _ => false
  }

  /** Event and audit ids from n on are unused. */
  ghost predicate UnusedFrom(db: DB, n: nat) {
    && (forall i :: 0 <= i < |db.events| ==> db.events[i].id < n)
    && (forall i :: 0 <= i < |db.audits| ==> db.audits[i].id < n)
  }

  lemma AttemptBegins(upsert: bool, s: State, h: nat, a: Attempt)
    requires Enabled(s, Begin(h, a))
    ensures var d := Handler(a.executionId, a, s.db.executions[a.executionId].status, Read);
            Step(upsert, s, Begin(h, a)) == s.(handlers := s.handlers[h := d])
  {
  }

  lemma AttemptOpens(upsert: bool, s: State, h: nat, n: nat)
    requires h in s.handlers && s.handlers[h].phase == Read && s.handlers[h].id in s.db.executions
    requires s.handlers[h].attempt.executionId == s.handlers[h].id &&
             !AttemptClash(s.db.attempts, s.handlers[h].attempt)
    requires UnusedFrom(s.db, n)
    ensures var t := Step(upsert, s, Open(h, n, 3));
            && t == Move(s, h, Opened).(db := t.db) && UnusedFrom(t.db, n + 1) && t.db.results == s.db.results
            && t.db.executions == s.db.executions && t.db.attempts == s.db.attempts + [s.handlers[h].attempt]
  {
  }

  lemma GatePasses(upsert: bool, s: State, h: nat, n: nat)
    requires h in s.handlers && s.handlers[h].phase == Opened && UnusedFrom(s.db, n)
    requires s.handlers[h].id in s.db.executions &&
             s.db.executions[s.handlers[h].id].status == s.handlers[h].seen != Canceled
    ensures var t := Step(upsert, s, Enter(h, n, n, 4));
            && t.handlers == s.handlers[h := s.handlers[h].(phase := Entered)] && t.cancelers == s.cancelers
            && UnusedFrom(t.db, n + 1)
            && t.db.executions == WithStatus(s.db, s.handlers[h].id, Running).executions
            && t.db.attempts == s.db.attempts && t.db.results == s.db.results
            && t.runs == s.runs + multiset{s.handlers[h].id}
  {
  }

  lemma HandlerOpens(upsert: bool, s: State, h: nat, a: Attempt, n: nat) returns (es: seq<Event>, t: State)
    requires Enabled(s, Begin(h, a)) && UnusedFrom(s.db, n) && !AttemptClash(s.db.attempts, a)
    ensures Leads(upsert, s, es, t) && es == [Begin(h, a), Open(h, n, 3)]
    ensures t == s.(db := t.db, handlers := t.handlers) && UnusedFrom(t.db, n + 1)
    ensures t.handlers == s.handlers[h := Handler(a.executionId, a, s.db.executions[a.executionId].status, Opened)]
    ensures t.db.executions == s.db.executions && t.db.attempts == s.db.attempts + [a] && t.db.results == s.db.results
  {
    var m := Step(upsert, s, Begin(h, a));
    AttemptBegins(upsert, s, h, a);
    AttemptOpens(upsert, m, h, n);
    t := Step(upsert, m, Open(h, n, 3));
    assert Leads(upsert, s, [], s);
    LeadsNext(upsert, s, [], s, Begin(h, a));
    LeadsNext(upsert, s, [] + [Begin(h, a)], m, Open(h, n, 3));
    es := [] + [Begin(h, a)] + [Open(h, n, 3)];
  }

  /** The handler's start: its attempt is recorded, and its execution is running when it passes the gate. */
  lemma HandlerEnters(upsert: bool, s: State, h: nat, a: Attempt, n: nat) returns (es: seq<Event>, t: State)
    requires Enabled(s, Begin(h, a)) && UnusedFrom(s.db, n) && !AttemptClash(s.db.attempts, a)
    requires s.db.executions[a.executionId].status != Canceled
    ensures Leads(upsert, s, es, t) && OnlyHandler(es, h)
    ensures t.handlers == s.handlers[h := Handler(a.executionId, a, s.db.executions[a.executionId].status, Entered)] &&
            t.cancelers == s.cancelers
    ensures t.db.executions == WithStatus(s.db, a.executionId, Running).executions
    ensures t.db.attempts == s.db.attempts + [a] && t.db.results == s.db.results && UnusedFrom(t.db, n + 2)
    ensures t.runs == s.runs + multiset{a.executionId}
    ensures es == [Begin(h, a), Open(h, n, 3), Enter(h, n + 1, n + 1, 4)]
  {
    var opening, begun := HandlerOpens(upsert, s, h, a, n);
    GatePasses(upsert, begun, h, n + 1);
    LeadsNext(upsert, s, opening, begun, Enter(h, n + 1, n + 1, 4));
    es, t := opening + [Enter(h, n + 1, n + 1, 4)], Step(upsert, begun, Enter(h, n + 1, n + 1, 4));
  }

  lemma AttemptCloses(s: State, h: nat, rows: seq<ResultRow>, n: nat)
    requires h in s.handlers && s.handlers[h].phase == Ran(rows) && s.handlers[h].id in s.db.executions
    requires s.handlers[h].attempt.executionId == s.handlers[h].id && UnusedFrom(s.db, n)
    requires exists i :: 0 <= i < |s.db.attempts| && SameAttempt(s.db.attempts[i], s.handlers[h].attempt)
    ensures var t := Step(true, s, Close(h, n, 3));
            && t == Move(s, h, Closed(rows)).(db := t.db) && UnusedFrom(t.db, n + 1)
            && t.db.executions == s.db.executions && t.db.results == s.db.results
            && t.db.attempts == UpsertAttempt(s.db.attempts, s.handlers[h].attempt.(status := AttemptSuccess))
  {
  }

  lemma ExecutionCloses(s: State, h: nat, rows: seq<ResultRow>, n: nat)
    requires h in s.handlers && s.handlers[h].phase == Closed(rows) && s.handlers[h].id in s.db.executions &&
             UnusedFrom(s.db, n)
    ensures var t := Step(true, s, Finalize(h, n, n, |rows| + 4));
            && t == Move(s, h, Returned(true)).(db := t.db)
            && t.db.executions == WithStatus(s.db, s.handlers[h].id, FinalOf(rows)).executions
            && t.db.results == s.db.results + rows
            && t.db.attempts == s.db.attempts && UnusedFrom(t.db, n + 1)
  {
  }

  lemma HandlerCloses(s: State, h: nat, rows: seq<ResultRow>, n: nat) returns (es: seq<Event>, t: State)
    requires h in s.handlers && s.handlers[h].phase == Entered && s.handlers[h].attempt.executionId == s.handlers[h].id
    requires Enabled(s, RunPlugins(h, rows)) && UnusedFrom(s.db, n)
    requires exists i :: 0 <= i < |s.db.attempts| && SameAttempt(s.db.attempts[i], s.handlers[h].attempt)
    ensures Leads(true, s, es, t) && es == [RunPlugins(h, rows), Close(h, n, 3)]
    ensures t == Move(s, h, Closed(rows)).(db := t.db) && UnusedFrom(t.db, n + 1)
    ensures t.db.executions == s.db.executions && t.db.results == s.db.results
    ensures t.db.attempts == UpsertAttempt(s.db.attempts, s.handlers[h].attempt.(status := AttemptSuccess))
  {
    var m := Step(true, s, RunPlugins(h, rows));
    AttemptCloses(m, h, rows, n);
    t := Step(true, m, Close(h, n, 3));
    assert Leads(true, s, [], s);
    LeadsNext(true, s, [], s, RunPlugins(h, rows));
    LeadsNext(true, s, [] + [RunPlugins(h, rows)], m, Close(h, n, 3));
    es := [] + [RunPlugins(h, rows)] + [Close(h, n, 3)];
  }

  /** Its end: the attempt is closed by the upsert and the execution finalized, over whatever status it has by then. */
  lemma HandlerFinishes(s: State, h: nat, rows: seq<ResultRow>, n: nat) returns (es: seq<Event>, t: State)
    requires h in s.handlers && s.handlers[h].phase == Entered && s.handlers[h].attempt.executionId == s.handlers[h].id
    requires Enabled(s, RunPlugins(h, rows)) && UnusedFrom(s.db, n)
    requires exists i :: 0 <= i < |s.db.attempts| && SameAttempt(s.db.attempts[i], s.handlers[h].attempt)
    ensures Leads(true, s, es, t) && OnlyHandler(es, h)
    ensures h in t.handlers && t.handlers[h].phase == Returned(true)
    ensures t.db.executions == WithStatus(s.db, s.handlers[h].id, FinalOf(rows)).executions
    ensures t.db.results == s.db.results + rows && t.runs == s.runs && t.cancelers == s.cancelers
    ensures t.db.attempts == UpsertAttempt(s.db.attempts, s.handlers[h].attempt.(status := AttemptSuccess))
    ensures t.handlers == s.handlers[h := s.handlers[h].(phase := Returned(true))] && UnusedFrom(t.db, n + 2)
  {
    var closing, closed := HandlerCloses(s, h, rows, n);
    ExecutionCloses(closed, h, rows, n + 1);
    LeadsNext(true, s, closing, closed, Finalize(h, n + 1, n + 1, |rows| + 4));
    es := closing + [Finalize(h, n + 1, n + 1, |rows| + 4)];
    t := Step(true, closed, Finalize(h, n + 1, n + 1, |rows| + 4));
  }

  /**
   * With the upsert, a new lease of an execution that is not canceled, handled without interruption, runs
   * its plugins and ends with the aggregate of their results. That includes an execution that had already
   * ended as anything but Canceled: its plugins run again and its final status is replaced.
   */
  lemma LeaseRunsAgain(s: State, h: nat, a: Attempt, rows: seq<ResultRow>, n: nat)
      returns (start: seq<Event>, entered: State, end: seq<Event>, t: State)
    requires Enabled(s, Begin(h, a)) && UnusedFrom(s.db, n) && !AttemptClash(s.db.attempts, a)
    requires s.db.executions[a.executionId].status != Canceled
    requires RowsFor(rows, a.executionId, s.db.executions[a.executionId].pluginIds)
    ensures Leads(true, s, start, entered) && Leads(true, entered, end, t) && OnlyHandler(start, h) &&
            OnlyHandler(end, h)
    ensures entered.db.executions == WithStatus(s.db, a.executionId, Running).executions
    ensures t.db.executions == WithStatus(s.db, a.executionId, FinalOf(rows)).executions
    ensures t.db.results == s.db.results + rows && t.runs == s.runs + multiset{a.executionId}
    ensures t.handlers ==
            s.handlers[h := Handler(a.executionId, a, s.db.executions[a.executionId].status, Returned(true))]
    ensures |t.db.attempts| == |s.db.attempts| + 1 && UnusedFrom(t.db, n + 4)
    ensures forall i :: 0 <= i <= |s.db.attempts| ==>
              t.db.attempts[i].id == (s.db.attempts + [a])[i].id &&
              SameAttempt(t.db.attempts[i], (s.db.attempts + [a])[i])
  {
    start, entered := HandlerEnters(true, s, h, a, n);
    assert entered.db.attempts[|s.db.attempts|] == a;
    end, t := HandlerFinishes(entered, h, rows, n + 2);
  }

  /** A cancel that commits while the plugins run is overwritten by the end of the handler. */
  lemma CancelIsOverwritten(s: State, c: nat, h: nat, rows: seq<ResultRow>, n: nat)
      returns (canceled: State, end: seq<Event>, t: State)
    requires h in s.handlers && s.handlers[h].phase == Entered && s.handlers[h].attempt.executionId == s.handlers[h].id
    requires Enabled(s, RunPlugins(h, rows)) && UnusedFrom(s.db, n)
    requires exists i :: 0 <= i < |s.db.attempts| && SameAttempt(s.db.attempts[i], s.handlers[h].attempt)
    requires c in s.cancelers && s.cancelers[c] == Canceler(s.handlers[h].id, Running) &&
             s.db.executions[s.handlers[h].id].status == Running
    ensures Enabled(s, CancelWrite(c, n, n, 4)) && canceled == Step(true, s, CancelWrite(c, n, n, 4))
    ensures canceled.db.executions == WithStatus(s.db, s.handlers[h].id, Canceled).executions
    ensures Leads(true, canceled, end, t) && OnlyHandler(end, h)
    ensures t.db.executions == WithStatus(s.db, s.handlers[h].id, FinalOf(rows)).executions
  {
    canceled := Step(true, s, CancelWrite(c, n, n, 4));
    CancelCommits(s, c, n, canceled);
    end, t := HandlerFinishes(canceled, h, rows, n + 1);
  }

  lemma CancelCommits(s: State, c: nat, n: nat, t: State)
    requires c in s.cancelers && t == Step(true, s, CancelWrite(c, n, n, 4)) && UnusedFrom(s.db, n)
    requires s.cancelers[c].id in s.db.executions && s.db.executions[s.cancelers[c].id].status == s.cancelers[c].seen
    ensures t.db.executions == WithStatus(s.db, s.cancelers[c].id, Canceled).executions && UnusedFrom(t.db, n + 1)
    ensures t.handlers == s.handlers && t.db.attempts == s.db.attempts && t.db.results == s.db.results
  {
  }

  // ---------------------------------------------------------------- and both overwrites happen

  ghost predicate Reachable(upsert: bool, s: State) {
    exists es :: Leads(upsert, Init(), es, s)
  }

  lemma ReachableOn(upsert: bool, s: State, es: seq<Event>, t: State)
    requires Reachable(upsert, s) && Leads(upsert, s, es, t)
    ensures Reachable(upsert, t)
  {
    var before :| Leads(upsert, Init(), before, s);
    LeadsOn(upsert, Init(), before, s, es, t);
    assert Leads(upsert, Init(), before + es, t);
  }

  lemma ReachableStep(upsert: bool, s: State, ev: Event)
    requires Reachable(upsert, s) && Enabled(s, ev)
    ensures Reachable(upsert, Step(upsert, s, ev))
  {
    var es :| Leads(upsert, Init(), es, s);
    LeadsNext(upsert, Init(), es, s, ev);
  }

  /** A creation in the empty database that nothing aborts. */
  lemma CreationOf(upsert: bool, e: Exec) returns (ev: Event)
    requires e.status == Queued
    ensures ev.Create? && ev.e == e && ev.now == 0 && ev.availableAt == None && Enabled(Init(), ev)
    ensures ev.after != Init().db
    ensures var s := Step(upsert, Init(), ev);
            && s.db.executions == map[e.id := e] && s.db.attempts == [] && s.db.results == []
            && UnusedFrom(s.db, 2) && s == Init().(db := s.db)
  {
    var db := Init().db;
    var evs := CreationEvents(e.id, 0, 1);
    var made := db.(executions := db.executions[e.id := e]);
    var after := Announced(made, e, evs, AuditLog(0, e.id, AuditCreated), None, 0);
    ev := Create(e, 0, 1, 0, None, 0, 6, after, Made(e));
    assert Conflicts(db.executions, e) == {};
    assert made.events + evs[..0] == [] && made.events + evs[..1] == [evs[0]];
    assert EventsInsert(made, evs);
    assert e.id in after.executions;
  }

  /** One execution, just created. */
  lemma FirstCreation(upsert: bool, e: Exec) returns (s: State)
    requires e.status == Queued
    ensures Reachable(upsert, s) && s.db.executions == map[e.id := e] && s.db.attempts == [] && s.db.results == []
    ensures UnusedFrom(s.db, 2) && s.handlers == map[] && s.cancelers == map[]
  {
    var ev := CreationOf(upsert, e);
    assert Leads(upsert, Init(), [], Init());
    ReachableStep(upsert, Init(), ev);
    s := Step(upsert, Init(), ev);
  }

  /** For every execution and all results, a reachable state in which it has ended with their aggregate. */
  lemma EndIsReachable(e: Exec, rows: seq<ResultRow>) returns (s: State)
    requires e.status == Queued && RowsFor(rows, e.id, e.pluginIds)
    ensures Reachable(true, s) && s.db.executions == map[e.id := e.(status := FinalOf(rows))] && s.handlers.Keys == {0}
    ensures UnusedFrom(s.db, 6) && |s.db.attempts| == 1
    ensures s.db.attempts[0].id == 0 && s.db.attempts[0].attemptNo == 1 && s.handlers[0].attempt.id == 0
  {
    var a := Attempt(0, e.id, 1, AttemptRunning);
    var created := FirstCreation(true, e);
    var start, entered, end;
    start, entered, end, s := LeaseRunsAgain(created, 0, a, rows, 2);
    ReachableOn(true, created, start, entered);
    ReachableOn(true, entered, end, s);
  }

  /** The queue's next lease of an execution that has ended. */
  lemma SecondCall(s: State, id: string) returns (a: Attempt)
    requires id in s.db.executions && s.handlers.Keys == {0} && s.handlers[0].attempt.id == 0
    requires |s.db.attempts| == 1 && s.db.attempts[0].id == 0 && s.db.attempts[0].attemptNo == 1
    ensures a == Attempt(1, id, 2, AttemptRunning) && Enabled(s, Begin(1, a)) && !AttemptClash(s.db.attempts, a)
  {
    a := Attempt(1, id, 2, AttemptRunning);
  }

  /**
   * For every execution and all results: with the upsert, a reachable state in which it has ended with one
   * aggregate, and a run from there in which the next lease runs its plugins again and replaces it.
   */
  lemma RerunIsReachable(e: Exec, rows: seq<ResultRow>, again: seq<ResultRow>)
      returns (s: State, start: seq<Event>, entered: State, end: seq<Event>, t: State)
    requires e.status == Queued && RowsFor(rows, e.id, e.pluginIds) && RowsFor(again, e.id, e.pluginIds)
    ensures Reachable(true, s) && s.db.executions == map[e.id := e.(status := FinalOf(rows))]
    ensures Leads(true, s, start, entered) && Leads(true, entered, end, t)
    ensures t.db.executions == map[e.id := e.(status := FinalOf(again))] && t.runs == s.runs + multiset{e.id}
  {
    FinalIsReported(rows);
    s := EndIsReachable(e, rows);
    var a := SecondCall(s, e.id);
    start, entered, end, t := LeaseRunsAgain(s, 1, a, again, 6);
  }

  /** For every execution, a reachable state in which its handler runs and a cancel has read so. */
  lemma RunningIsReachable(e: Exec) returns (s: State)
    requires e.status == Queued
    ensures Reachable(true, s) && s.db.executions == map[e.id := e.(status := Running)] && UnusedFrom(s.db, 4)
    ensures 0 in s.handlers && s.handlers[0] == Handler(e.id, Attempt(0, e.id, 1, AttemptRunning), Queued, Entered)
    ensures |s.db.attempts| == 1 && SameAttempt(s.db.attempts[0], s.handlers[0].attempt) && 0 in s.cancelers &&
            s.cancelers[0] == Canceler(e.id, Running)
  {
    var created := FirstCreation(true, e);
    var start, entered := HandlerEnters(true, created, 0, Attempt(0, e.id, 1, AttemptRunning), 2);
    ReachableOn(true, created, start, entered);
    s := CancelAsks(entered, 0, e.id);
  }

  lemma CancelAsks(s: State, c: nat, id: string) returns (t: State)
    requires Reachable(true, s) && c !in s.cancelers && id in s.db.executions && s.db.executions[id].status == Running
    ensures Reachable(true, t) && t == s.(cancelers := s.cancelers[c := Canceler(id, Running)])
  {
    ReachableStep(true, s, CancelRead(c, id));
    t := Step(true, s, CancelRead(c, id));
  }

  lemma OnlyStatus(db: DB, e: Exec, from: Status, to: Status)
    requires db.executions == map[e.id := e.(status := from)]
    ensures WithStatus(db, e.id, to).executions == map[e.id := e.(status := to)]
  {
  }

  /**
   * For every execution and all results: with the upsert, a reachable state in which it is canceled while
   * its handler runs, and a run from there in which that handler's end replaces the cancel.
   */
  lemma LostCancelIsReachable(e: Exec, rows: seq<ResultRow>) returns (s: State, es: seq<Event>, t: State)
    requires e.status == Queued && RowsFor(rows, e.id, e.pluginIds)
    ensures Reachable(true, s) && s.db.executions == map[e.id := e.(status := Canceled)]
    ensures Leads(true, s, es, t) && t.db.executions == map[e.id := e.(status := FinalOf(rows))] &&
            FinalOf(rows) != Canceled
  {
    FinalIsReported(rows);
    var running := RunningIsReachable(e);
    s, es, t := CancelIsOverwritten(running, 0, 0, rows, 4);
    ReachableStep(true, running, CancelWrite(0, 4, 4, 4));
    OnlyStatus(running.db, e, Running, Canceled);
    OnlyStatus(running.db, e, Running, FinalOf(rows));
  }
}
