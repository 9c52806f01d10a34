/** What holds of the local path in every reachable state and over every continuation of a run. */
module LocalTheorems {
  import opened Executions
  import opened ExecutionRepository
  import opened ExecutionService
  import opened LocalProtocol

  /** Through cancels, crashes, restarts and recoveries, the plugins of an execution are started at most once. */
  lemma PluginsStartAtMostOnce(size: nat, es: seq<Event>, id: nat)
    requires CanRun(Init(size), es)
    ensures RunAll(Init(size), es).runs[id] <= 1
  {
    var s := RunAll(Init(size), es);
    RunAllKeepsInv(Init(size), es);
    if id < |s.items| {
      assert StatusOk(View(s, id));
    }
  }

  ghost function Holders(s: State, id: nat): set<nat> {
    set w | w in s.workers && s.workers[w].id == id
  }

  lemma {:induction false} CountInDistinct(q: seq<nat>, id: nat)
    requires forall i, j :: 0 <= i < j < |q| ==> q[i] != q[j]
    ensures multiset(q)[id] == if id in q then 1 else 0
  {
    if q != [] {
      var k := |q| - 1;
      CountInDistinct(q[..k], id);
      assert q == q[..k] + [q[k]];
    }
  }

  /** An execution is in the queue or with a worker, once, or in neither. */
  lemma OneHandAtMost(size: nat, es: seq<Event>, id: nat)
    requires CanRun(Init(size), es)
    ensures multiset(RunAll(Init(size), es).queue)[id] + |Holders(RunAll(Init(size), es), id)| <= 1
  {
    var s := RunAll(Init(size), es);
    RunAllKeepsInv(Init(size), es);
    CountInDistinct(s.queue, id);
    var h := Holders(s, id);
    if h != {} {
      var w :| w in h;
      assert s.workers[w].id !in s.queue;
      assert h == {w};
    }
  }

  /**
   * Success, PartialSuccess and Timeout are backed by exactly one saved result per plugin, in order, that add up to
   * the status.
   */
  lemma ReportedStatusHasResults(s: State, id: nat)
    requires Reachable(s) && id < |s.items| && Reported(s.items[id].status)
    ensures OnePerPlugin(ResultsOf(s.results, id), id, s.items[id].pluginIds)
    ensures Aggregate(ResultsOf(s.results, id)) == s.items[id].status
  {
    ReachableInv(s);
    assert StatusOk(View(s, id));
    assert s.items[id].id == id;
  }

  // ---------------------------------------------------------------- the transition table

  /**
   * The one write that does not consult the table: a create call whose Submit was rejected fails its
   * execution, whatever has become of it.
   */
  predicate Overwrites(s: State, ev: Event) {
    ev.WriteFailed? && ev.id < |s.items| && s.items[ev.id].status == Canceled
  }

  /** Between two states: the executions of the first are still there, changed in nothing but status. */
  ghost predicate Extends(s: State, t: State) {
    && |s.items| <= |t.items|
    && forall id :: 0 <= id < |s.items| ==> t.items[id] == s.items[id].(status := t.items[id].status)
  }

  ghost predicate FollowsTable(s: State, t: State)
    requires |s.items| <= |t.items|
  {
    forall id :: 0 <= id < |s.items| ==>
      t.items[id].status == s.items[id].status || CanTransit(s.items[id].status, t.items[id].status)
  }

  /** What a step writes: nothing, a new record, or one status of one execution. */
  datatype Write = Nothing | Appended(e: Execution) | One(id: nat, to: Status)

  ghost predicate Wrote(items: seq<Execution>, after: seq<Execution>, w: Write) {
    match w
    case Nothing => after == items
    case Appended(e) => after == items + [e]
    case One(id, to) => id < |items| && after == With(items, id, to)
  }

  lemma WorkerWrites(s: State, w: nat, to: Status, auditOk: bool, yes: Phase, no: Phase) returns (wr: Write)
    requires Ids(s.items) && w in s.workers
    ensures Wrote(s.items, WorkerTransits(s, w, to, auditOk, yes, no).items, wr)
    ensures wr.Nothing? || (wr.One? && CanTransit(s.items[wr.id].status, wr.to))
  {
    var id := s.workers[w].id;
    Writes(s.items, id, to);
    wr := if auditOk && Transits(s.items, id, to) then One(id, to) else Nothing;
  }

  lemma RecoverWrites(s: State, sent: bool) returns (wr: Write)
    requires Inv(s) && s.recovering != []
    ensures Wrote(s.items, RecoverNext(s, sent).items, wr)
    ensures wr.Nothing? || (wr.One? && (CanTransit(s.items[wr.id].status, wr.to) || s.items[wr.id].status == wr.to))
  {
    RecoverShape(s, sent);
    wr := if RecoverNext(s, sent).items == s.items then Nothing
          else One(s.recovering[0].id, if Waiting(s.recovering[0].status) then Queued else Failed);
  }

  lemma MarkWrites(s: State, id: nat, t: State) returns (wr: Write)
    requires Ids(s.items) && Enabled(s, CreatorMarks(id)) && t == Step(s, CreatorMarks(id))
    ensures Wrote(s.items, t.items, wr)
    ensures wr.Nothing? || (wr.One? && CanTransit(s.items[wr.id].status, wr.to))
  {
    Writes(s.items, id, Queued);
    wr := if Transits(s.items, id, Queued) then One(id, Queued) else Nothing;
  }

  lemma CancelWrites(s: State, id: nat, t: State) returns (wr: Write)
    requires Ids(s.items) && Enabled(s, Cancel(id)) && t == Step(s, Cancel(id))
    ensures Wrote(s.items, t.items, wr)
    ensures wr.Nothing? || (wr.One? && CanTransit(s.items[wr.id].status, wr.to))
  {
    Writes(s.items, id, Canceled);
    wr := if id < |s.items| && CanCancel(s.items[id].status) then One(id, Canceled) else Nothing;
  }

  lemma FailureWrites(s: State, id: nat, t: State)
    requires Inv(s) && Enabled(s, WriteFailed(id)) && t == Step(s, WriteFailed(id))
    ensures id < |s.items| && t.items == With(s.items, id, Failed)
    ensures CanTransit(s.items[id].status, Failed) || Overwrites(s, WriteFailed(id))
  {
    Writes(s.items, id, Failed);
    assert CreateOk(View(s, id), s.creating[id]);
  }

  lemma StepWrites(s: State, ev: Event) returns (wr: Write)
    requires Inv(s) && Enabled(s, ev)
    ensures Wrote(s.items, Step(s, ev).items, wr)
    ensures wr.Appended? ==> ev.Create? && ev.e == wr.e
    ensures wr.One? ==> CanTransit(s.items[wr.id].status, wr.to) || s.items[wr.id].status == wr.to || Overwrites(s, ev)
    ensures Overwrites(s, ev) ==> wr == One(ev.id, Failed)
  {
    if ev.Create? {
      wr := if CreateRecord(s.items, ev.e).2 then Appended(ev.e) else Nothing;
    } else if ev.CreatorMarks? {
      wr := MarkWrites(s, ev.id, Step(s, ev));
    } else if ev.Cancel? {
      wr := CancelWrites(s, ev.id, Step(s, ev));
    } else if ev.WriteFailed? {
      FailureWrites(s, ev.id, Step(s, ev));
      wr := One(ev.id, Failed);
    } else if ev.Recover? {
      wr := RecoverWrites(s, ev.sent);
    } else if ev.Start? {
      wr := WorkerWrites(s, ev.w, Running, ev.auditOk, Started, Failing);
    } else if ev.Finish? {
      wr := WorkerWrites(s, ev.w, Aggregate(s.workers[ev.w].phase.saved), ev.auditOk, Done, Failing);
    } else if ev.Fail? {
      wr := WorkerWrites(s, ev.w, Failed, ev.auditOk, Done, Done);
    } else {
      wr := Nothing;
    }
  }

  lemma WroteFollows(s: State, t: State, wr: Write)
    requires Wrote(s.items, t.items, wr)
    ensures Extends(s, t)
    ensures FollowsTable(s, t) <==>
              (wr.One? ==> CanTransit(s.items[wr.id].status, wr.to) || s.items[wr.id].status == wr.to)
  {
    if wr.One? {
      assert t.items[wr.id].status == wr.to;
    }
  }

  /**
   * Every status change of every step is an edge of the table, except when a rejected create call
   * overwrites an execution that was canceled meanwhile: exactly then.
   */
  lemma StepFollowsTableIff(s: State, ev: Event)
    requires Inv(s) && Enabled(s, ev)
    ensures Extends(s, Step(s, ev))
    ensures FollowsTable(s, Step(s, ev)) <==> !Overwrites(s, ev)
  {
    var wr := StepWrites(s, ev);
    WroteFollows(s, Step(s, ev), wr);
  }

  /** The run from s contains no such overwrite. */
  ghost predicate NoOverwrite(s: State, es: seq<Event>)
    requires CanRun(s, es)
    decreases |es|
  {
    es == [] || (NoOverwrite(s, es[..|es| - 1]) && !Overwrites(RunAll(s, es[..|es| - 1]), es[|es| - 1]))
  }

  lemma KeptByStep(s: State, ev: Event, id: nat)
    requires Inv(s) && Enabled(s, ev) && !Overwrites(s, ev) && id < |s.items| && IsFinal(s.items[id].status)
    ensures id < |Step(s, ev).items| && Step(s, ev).items[id] == s.items[id]
  {
    StepFollowsTableIff(s, ev);
    FinalStays(s, Step(s, ev), id);
  }

  lemma FinalStays(s: State, t: State, id: nat)
    requires Extends(s, t) && FollowsTable(s, t) && id < |s.items| && IsFinal(s.items[id].status)
    ensures t.items[id] == s.items[id]
  {
  }

  lemma KeptByLast(s: State, front: seq<Event>, last: Event, id: nat)
    requires Inv(s) && CanRun(s, front) && Enabled(RunAll(s, front), last) && !Overwrites(RunAll(s, front), last)
    requires id < |RunAll(s, front).items| && IsFinal(RunAll(s, front).items[id].status)
    ensures var m := RunAll(s, front); id < |Step(m, last).items| && Step(m, last).items[id] == m.items[id]
  {
    RunAllKeepsInv(s, front);
    KeptByStep(RunAll(s, front), last, id);
  }

  /** Over every run free of that overwrite, a final status is final: nothing changes it again. */
  lemma {:induction false} FinalIsAbsorbing(s: State, es: seq<Event>, id: nat)
    requires Inv(s) && CanRun(s, es) && NoOverwrite(s, es)
    requires id < |s.items| && IsFinal(s.items[id].status)
    ensures var t := RunAll(s, es); id < |t.items| && t.items[id] == s.items[id]
    decreases |es|
  {
    if es != [] {
      FinalIsAbsorbing(s, es[..|es| - 1], id);
      KeptByLast(s, es[..|es| - 1], es[|es| - 1], id);
    }
  }

  /** Some create call of the run was rejected and failed this execution. */
  predicate Rejected(es: seq<Event>, id: nat) {
    es != [] && (es[|es| - 1] == WriteFailed(id) || Rejected(es[..|es| - 1], id))
  }

  /** In general the overwrite is the whole exception: a final status stays, or it was Canceled and became Failed. */
  predicate StaysOrFails(before: Execution, after: Execution, rejected: bool) {
    after == before || (before.status == Canceled && rejected && after == before.(status := Failed))
  }

  lemma FinalStep(s: State, ev: Event, id: nat)
    requires Inv(s) && Enabled(s, ev) && id < |s.items| && IsFinal(s.items[id].status)
    ensures id < |Step(s, ev).items| && StaysOrFails(s.items[id], Step(s, ev).items[id], ev == WriteFailed(id))
  {
    var wr := StepWrites(s, ev);
  }

  lemma FinalLast(s: State, front: seq<Event>, last: Event, id: nat)
    requires Inv(s) && CanRun(s, front) && Enabled(RunAll(s, front), last)
    requires id < |RunAll(s, front).items| && IsFinal(RunAll(s, front).items[id].status)
    ensures var m := RunAll(s, front);
            id < |Step(m, last).items| && StaysOrFails(m.items[id], Step(m, last).items[id], last == WriteFailed(id))
  {
    RunAllKeepsInv(s, front);
    FinalStep(RunAll(s, front), last, id);
  }

  lemma {:induction false} FinalOrOverwritten(s: State, es: seq<Event>, id: nat)
    requires Inv(s) && CanRun(s, es) && id < |s.items| && IsFinal(s.items[id].status)
    ensures id < |RunAll(s, es).items| && StaysOrFails(s.items[id], RunAll(s, es).items[id], Rejected(es, id))
    decreases |es|
  {
    if es != [] {
      FinalOrOverwritten(s, es[..|es| - 1], id);
      FinalLast(s, es[..|es| - 1], es[|es| - 1], id);
    }
  }

  lemma ReachableStep(s: State, ev: Event)
    requires Reachable(s) && Enabled(s, ev)
    ensures Reachable(Step(s, ev))
  {
    var size, es :| CanRun(Init(size), es) && s == RunAll(Init(size), es);
    var more := es + [ev];
    assert more[..|more| - 1] == es;
    assert CanRun(Init(size), more) && Step(s, ev) == RunAll(Init(size), more);
  }

  /** One execution, created, marked queued and refused by the queue, whatever its size: its context may be done. */
  lemma RefusedIsReachable(e: Execution, size: nat) returns (s: State)
    requires e.id == 0 && e.status == Pending && e.key == ""
    ensures Reachable(s) && s.size == size && Enabled(s, Cancel(0)) && s.items == [e.(status := Queued)]
    ensures 0 in s.creating && s.creating[0] == CreatePhase.Rejected
  {
    var s0 := Init(size);
    assert CanRun(Init(size), []) && s0 == RunAll(Init(size), []);
    ReachableStep(s0, Create(e));
    var s1 := Step(s0, Create(e));
    Writes(s1.items, 0, Queued);
    ReachableStep(s1, CreatorMarks(0));
    var s2 := Step(s1, CreatorMarks(0));
    ReachableStep(s2, SubmitFails(0));
    s := Step(s2, SubmitFails(0));
  }

  /** The overwrite does happen: such an execution gets canceled, and is then failed. */
  lemma OverwriteIsReachable(e: Execution, size: nat) returns (s: State)
    requires e.id == 0 && e.status == Pending && e.key == ""
    ensures Reachable(s) && s.size == size && Enabled(s, WriteFailed(0)) && Overwrites(s, WriteFailed(0))
    ensures var t := Step(s, WriteFailed(0)); t.items[0].status == Failed && s.items[0].status == Canceled
  {
    var refused := RefusedIsReachable(e, size);
    Writes(refused.items, 0, Canceled);
    ReachableStep(refused, Cancel(0));
    s := Step(refused, Cancel(0));
    Writes(s.items, 0, Failed);
  }

  // ---------------------------------------------------------------- an execution that ended before it started

  /** It has ended, its plugins never ran, and no worker is past its start. */
  ghost predicate EndedUnstarted(s: State, id: nat) {
    && id < |s.items| && IsFinal(s.items[id].status) && s.runs[id] == 0
    && forall w :: w in s.workers && s.workers[w].id == id ==> !s.workers[w].phase.Started?
  }

  lemma UnstartedStep(s: State, ev: Event, id: nat)
    requires Enabled(s, ev) && EndedUnstarted(s, id) && !ev.Recover? && !ev.Start? && !ev.Finish? && !ev.Fail?
    ensures var t := Step(s, ev);
            t.runs[id] == 0 && forall w :: w in t.workers && t.workers[w].id == id ==> !t.workers[w].phase.Started?
  {
  }

  lemma UnstartedTransit(s: State, w: nat, to: Status, auditOk: bool, yes: Phase, no: Phase, id: nat)
    requires EndedUnstarted(s, id) && w in s.workers && !no.Started?
    requires yes.Started? && s.workers[w].id == id ==> !Transits(s.items, id, to)
    ensures var t := WorkerTransits(s, w, to, auditOk, yes, no);
            t.runs[id] == 0 && forall v :: v in t.workers && t.workers[v].id == id ==> !t.workers[v].phase.Started?
  {
  }

  lemma UnstartedWorkerStep(s: State, ev: Event, id: nat)
    requires Ids(s.items) && Enabled(s, ev) && EndedUnstarted(s, id) && (ev.Start? || ev.Finish? || ev.Fail?)
    ensures var t := Step(s, ev);
            t.runs[id] == 0 && forall w :: w in t.workers && t.workers[w].id == id ==> !t.workers[w].phase.Started?
  {
    if ev.Start? {
      Writes(s.items, id, Running);
      UnstartedTransit(s, ev.w, Running, ev.auditOk, Started, Failing, id);
    } else if ev.Finish? {
      UnstartedTransit(s, ev.w, Aggregate(s.workers[ev.w].phase.saved), ev.auditOk, Done, Failing, id);
    } else {
      UnstartedTransit(s, ev.w, Failed, ev.auditOk, Done, Done, id);
    }
  }

  lemma UnstartedRecovery(s: State, sent: bool, id: nat)
    requires Ids(s.items) && s.recovering != [] && EndedUnstarted(s, id)
    ensures var t := RecoverNext(s, sent); t.runs == s.runs && t.workers == s.workers
  {
  }

  lemma EndedUnstartedStep(s: State, ev: Event, id: nat)
    requires Inv(s) && Enabled(s, ev) && EndedUnstarted(s, id)
    ensures EndedUnstarted(Step(s, ev), id)
  {
    FinalStep(s, ev, id);
    if ev.Recover? {
      UnstartedRecovery(s, ev.sent, id);
    } else if ev.Start? || ev.Finish? || ev.Fail? {
      UnstartedWorkerStep(s, ev, id);
    } else {
      UnstartedStep(s, ev, id);
    }
  }

  /** Canceled or failed before it started, an execution never runs, whatever holds its id and whatever follows. */
  lemma {:induction false} EndedUnstartedNeverRuns(s: State, es: seq<Event>, id: nat)
    requires Inv(s) && CanRun(s, es) && EndedUnstarted(s, id)
    ensures RunAll(s, es).runs[id] == 0
    ensures EndedUnstarted(RunAll(s, es), id)
    decreases |es|
  {
    if es != [] {
      var front := es[..|es| - 1];
      EndedUnstartedNeverRuns(s, front, id);
      RunAllKeepsInv(s, front);
      EndedUnstartedStep(RunAll(s, front), es[|es| - 1], id);
    }
  }

  // ---------------------------------------------------------------- idempotency keys under interleaving

  lemma KeysKept(items: seq<Execution>, after: seq<Execution>)
    requires UniqueKeys(items) && |after| == |items|
    requires forall i :: 0 <= i < |items| ==> after[i] == items[i].(status := after[i].status)
    ensures UniqueKeys(after)
  {
    forall i, j | 0 <= i < j < |after| && after[i].key != "" ensures !SameRequestKey(after[i], after[j]) {
      assert !SameRequestKey(items[i], items[j]);
    }
  }

  /** In every interleaving there is at most one execution per scope, user and non-empty key. */
  lemma {:induction false} KeysStayUnique(s: State, es: seq<Event>)
    requires Inv(s) && UniqueKeys(s.items) && CanRun(s, es)
    ensures UniqueKeys(RunAll(s, es).items)
    decreases |es|
  {
    if es != [] {
      var front, last := es[..|es| - 1], es[|es| - 1];
      KeysStayUnique(s, front);
      RunAllKeepsInv(s, front);
      var m := RunAll(s, front);
      if !last.Create? {
        StepFollowsTableIff(m, last);
        SameLength(m, last);
        KeysKept(m.items, Step(m, last).items);
      }
    }
  }

  lemma SameLength(s: State, ev: Event)
    requires Inv(s) && Enabled(s, ev) && !ev.Create?
    ensures |Step(s, ev).items| == |s.items|
  {
    if ev.Recover? {
      RecoverShape(s, ev.sent);
    }
  }
}
