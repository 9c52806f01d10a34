/** Which steps of the local path leave a waiting execution to nobody, and that no others do. */
module LocalWork {
  import opened Executions
  import opened ExecutionRepository
  import opened ExecutionService
  import opened LocalProtocol
  import opened LocalTheorems

  ghost predicate WithWorker(s: State, id: nat) {
    exists w :: w in s.workers && s.workers[w].id == id && s.workers[w].phase != Done
  }

  ghost predicate OnList(s: State, id: nat) {
    exists k :: 0 <= k < |s.recovering| && s.recovering[k].id == id
  }

  /** Its turn will come: it is in the queue, being created, with a worker that is not done, or on the recovery list. */
  ghost predicate Held(s: State, id: nat) {
    id in s.queue || id in s.creating || WithWorker(s, id) || OnList(s, id)
  }

  /** In no two of these places at once. */
  ghost predicate HeldOnce(s: State, id: nat) {
    && !(id in s.queue && (id in s.creating || WithWorker(s, id) || OnList(s, id)))
    && !(id in s.creating && (WithWorker(s, id) || OnList(s, id)))
    && !(WithWorker(s, id) && OnList(s, id))
  }

  lemma HandsExclude(s: State, id: nat)
    requires Inv(s)
    ensures HeldOnce(s, id)
  {
  }

  ghost predicate AllHeld(s: State) {
    forall id :: 0 <= id < |s.items| && Waiting(s.items[id].status) ==> Held(s, id)
  }

  /**
   * A create call that ends at a failed audit before its execution was marked or canceled; a worker that
   * ends, its own failure not audited, while its execution is still queued; recovery that gives up.
   */
  predicate Loses(s: State, ev: Event)
    requires ev.Recover? ==> s.recovering != []
  {
    match ev
    case CreatorStops(id) => id < |s.items| && s.items[id].status == Pending
    case Fail(w, auditOk) =>
      !auditOk && w in s.workers && s.workers[w].id < |s.items| && s.items[s.workers[w].id].status == Queued
    case Recover(sent) => !sent && Waiting(s.recovering[0].status)
    case _ => false
  }

  // ---------------------------------------------------------------- one step

  /** Every hand but those on this execution stays, and this one is held or not waiting. */
  lemma OthersHeld(s: State, t: State, id: nat)
    requires AllHeld(s) && |t.items| == |s.items|
    requires forall i :: 0 <= i < |s.items| && i != id ==> t.items[i] == s.items[i] && (Held(s, i) ==> Held(t, i))
    requires id < |t.items| && Waiting(t.items[id].status) ==> Held(t, id)
    ensures AllHeld(t)
  {
  }

  lemma CreateHolds(s: State, e: Execution, t: State)
    requires Inv(s) && Enabled(s, Create(e)) && t == Step(s, Create(e)) && AllHeld(s)
    ensures AllHeld(t)
  {
    forall id | 0 <= id < |s.items| && Held(s, id) ensures Held(t, id) {
      HandsKept(s, t, id);
    }
  }

  /** The queue, the workers and the list are as they were; creating calls only join. */
  lemma HandsKept(s: State, t: State, id: nat)
    requires t.queue == s.queue && t.workers == s.workers && t.recovering == s.recovering
    requires id in s.creating ==> id in t.creating
    ensures Held(s, id) ==> Held(t, id)
  {
  }

  /** A creating call moves on or ends, and may have put its execution into the queue. */
  lemma CallerMoves(s: State, t: State, id: nat)
    requires AllHeld(s) && id < |s.items| == |t.items| && t.workers == s.workers && t.recovering == s.recovering
    requires t.creating.Keys == s.creating.Keys || t.creating == s.creating - {id}
    requires t.queue == s.queue || t.queue == s.queue + [id]
    requires forall i :: 0 <= i < |s.items| && i != id ==> t.items[i] == s.items[i]
    requires Waiting(t.items[id].status) ==> Held(t, id)
    ensures AllHeld(t)
  {
    forall i | 0 <= i < |s.items| && i != id ensures Held(s, i) ==> Held(t, i) {
    }
    OthersHeld(s, t, id);
  }

  lemma MarkHolds(s: State, ev: Event, t: State)
    requires Inv(s) && Enabled(s, ev) && ev.CreatorMarks? && t == Step(s, ev) && AllHeld(s)
    ensures AllHeld(t)
  {
    MarkShape(s, ev.id, t);
    CallerMoves(s, t, ev.id);
  }

  lemma MarkShape(s: State, id: nat, t: State)
    requires Ids(s.items) && CreatorsOk(s) && Enabled(s, CreatorMarks(id)) && t == Step(s, CreatorMarks(id))
    ensures id < |s.items|
    ensures || t == s.(items := With(s.items, id, Queued), creating := s.creating[id := MarkedQueued])
            || (t == s.(creating := s.creating - {id}) && !Waiting(s.items[id].status))
  {
    Writes(s.items, id, Queued);
    assert CreateOk(View(s, id), s.creating[id]);
  }

  lemma StopHolds(s: State, ev: Event, t: State)
    requires Inv(s) && Enabled(s, ev) && ev.CreatorStops? && t == Step(s, ev) && AllHeld(s)
    ensures AllHeld(t) <==> !Loses(s, ev)
  {
    assert CreateOk(View(s, ev.id), s.creating[ev.id]);
    if Loses(s, ev) {
      assert s.recovering == [] && !Held(t, ev.id);
    } else {
      CallerMoves(s, t, ev.id);
    }
  }

  lemma SubmitHolds(s: State, ev: Event, t: State)
    requires Inv(s) && Enabled(s, ev) && t == Step(s, ev) && AllHeld(s)
    requires ev.Submit? || ev.SubmitFails?
    ensures AllHeld(t)
  {
    CallerMoves(s, t, ev.id);
  }

  lemma FailureHolds(s: State, ev: Event, t: State)
    requires Inv(s) && Enabled(s, ev) && ev.WriteFailed? && t == Step(s, ev) && AllHeld(s)
    ensures AllHeld(t)
  {
    Writes(s.items, ev.id, Failed);
    CallerMoves(s, t, ev.id);
  }

  lemma CancelHolds(s: State, id: nat, t: State)
    requires Inv(s) && Enabled(s, Cancel(id)) && t == Step(s, Cancel(id)) && AllHeld(s)
    ensures AllHeld(t)
  {
    Writes(s.items, id, Canceled);
    forall i | 0 <= i < |s.items| && Held(s, i) ensures Held(t, i) {
      HandsKept(s, t, i);
    }
  }

  lemma ReceiveHolds(s: State, w: nat, t: State)
    requires Inv(s) && Enabled(s, Receive(w)) && t == Step(s, Receive(w)) && AllHeld(s)
    ensures AllHeld(t)
  {
    assert s.queue == [s.queue[0]] + t.queue;
    assert t.workers[w].id == s.queue[0] && t.workers[w].phase == Taken;
    forall i | 0 <= i < |s.items| && Held(s, i) ensures Held(t, i) {
      if WithWorker(s, i) {
        var v :| v in s.workers && s.workers[v].id == i && s.workers[v].phase != Done;
        assert t.workers[v] == s.workers[v];
      }
    }
  }

  /** One worker moved or left; what the others hold they keep holding. */
  lemma OtherWorkers(s: State, t: State, w: nat, i: nat)
    requires t.queue == s.queue && t.creating == s.creating && t.recovering == s.recovering && w in s.workers
    requires forall v :: v in s.workers && v != w ==> v in t.workers && t.workers[v] == s.workers[v]
    requires i != s.workers[w].id || s.workers[w].phase == Done
    ensures Held(s, i) ==> Held(t, i)
  {
    if WithWorker(s, i) {
      var v :| v in s.workers && s.workers[v].id == i && s.workers[v].phase != Done;
      assert t.workers[v] == s.workers[v];
    }
  }

  lemma LeaveHolds(s: State, w: nat, t: State)
    requires Enabled(s, Leave(w)) && t == Step(s, Leave(w)) && AllHeld(s)
    ensures AllHeld(t)
  {
    forall i | 0 <= i < |s.items| && Held(s, i) ensures Held(t, i) {
      OtherWorkers(s, t, w, i);
    }
  }

  /** A worker's move, by where it leaves the worker and its execution. */
  lemma MoveHolds(s: State, t: State, w: nat)
    requires AllHeld(s) && w in s.workers && w in t.workers && t.workers == s.workers[w := t.workers[w]]
    requires t.workers[w].id == s.workers[w].id < |s.items| == |t.items|
    requires t.queue == s.queue && t.creating == s.creating && t.recovering == s.recovering
    requires forall i :: 0 <= i < |s.items| && i != s.workers[w].id ==> t.items[i] == s.items[i]
    requires t.workers[w].phase != Done || !Waiting(t.items[t.workers[w].id].status)
    ensures AllHeld(t)
  {
    forall i | 0 <= i < |s.items| && i != s.workers[w].id ensures Held(s, i) ==> Held(t, i) {
      OtherWorkers(s, t, w, i);
    }
    OthersHeld(s, t, s.workers[w].id);
  }

  lemma AdvanceHolds(s: State, ev: Event, t: State)
    requires Inv(s) && Enabled(s, ev) && t == Step(s, ev) && AllHeld(s)
    requires ev.Load? || ev.Run? || ev.Save? || ev.Break?
    ensures AllHeld(t)
  {
    Writes(s.items, s.workers[ev.w].id, Running);
    MoveHolds(s, t, ev.w);
  }

  /** Whether or not its status changes, this worker goes on or the execution waits no more. */
  lemma TransitHolds(s: State, w: nat, to: Status, auditOk: bool, yes: Phase, no: Phase, t: State)
    requires Ids(s.items) && AllHeld(s) && w in s.workers && s.workers[w].id < |s.items|
    requires t == WorkerTransits(s, w, to, auditOk, yes, no).(runs := t.runs) && !Waiting(to)
    requires no != Done || !Waiting(t.items[s.workers[w].id].status)
    ensures AllHeld(t)
  {
    Writes(s.items, s.workers[w].id, to);
    MoveHolds(s, t, w);
  }

  lemma StartHolds(s: State, w: nat, auditOk: bool, t: State)
    requires Inv(s) && Enabled(s, Start(w, auditOk)) && t == Step(s, Start(w, auditOk)) && AllHeld(s)
    ensures AllHeld(t)
  {
    TransitHolds(s, w, Running, auditOk, Started, Failing, t);
  }

  lemma FinishHolds(s: State, w: nat, auditOk: bool, t: State)
    requires Inv(s) && Enabled(s, Finish(w, auditOk)) && t == Step(s, Finish(w, auditOk)) && AllHeld(s)
    ensures AllHeld(t)
  {
    TransitHolds(s, w, Aggregate(s.workers[w].phase.saved), auditOk, Done, Failing, t);
  }

  /** The one hand on an execution is a worker's, and the worker is done. */
  lemma NobodyElse(s: State, t: State, w: nat)
    requires Exclusive(s) && w in s.workers && w in t.workers && t.workers == s.workers[w := t.workers[w]]
    requires t.workers[w].id == s.workers[w].id && t.workers[w].phase == Done
    requires t.queue == s.queue && t.creating == s.creating && t.recovering == s.recovering
    ensures !Held(t, s.workers[w].id)
  {
  }

  lemma FailHolds(s: State, w: nat, auditOk: bool, t: State)
    requires Inv(s) && Enabled(s, Fail(w, auditOk)) && t == Step(s, Fail(w, auditOk)) && AllHeld(s)
    ensures AllHeld(t) <==> !Loses(s, Fail(w, auditOk))
  {
    var id := s.workers[w].id;
    assert PhaseOk(View(s, id), s.workers[w].phase);
    if Loses(s, Fail(w, auditOk)) {
      NobodyElse(s, t, w);
    } else {
      Writes(s.items, id, Failed);
      TransitHolds(s, w, Failed, auditOk, Done, Done, t);
    }
  }

  lemma {:induction false} ListedIfIncomplete(items: seq<Execution>, id: nat)
    requires Ids(items) && id < |items| && Incomplete(items[id].status)
    ensures items[id] in FilterIncomplete(items)
    decreases |items|
  {
    if id < |items| - 1 {
      ListedIfIncomplete(items[..|items| - 1], id);
    }
  }

  /** After a crash everything that waits is on the recovery list, also what had been lost before. */
  lemma CrashHolds(s: State)
    requires Ids(s.items)
    ensures AllHeld(Step(s, Crash))
  {
    var t := Step(s, Crash);
    forall id | 0 <= id < |t.items| && Waiting(t.items[id].status) ensures Held(t, id) {
      ListedIfIncomplete(s.items, id);
      var k :| 0 <= k < |t.recovering| && t.recovering[k] == s.items[id];
      assert t.recovering[k].id == id;
    }
  }

  lemma RecoverHolds(s: State, sent: bool, t: State)
    requires Inv(s) && Enabled(s, Recover(sent)) && t == Step(s, Recover(sent)) && AllHeld(s)
    ensures AllHeld(t) <==> !Loses(s, Recover(sent))
  {
    if Loses(s, Recover(sent)) {
      GivingUpLoses(s, t);
    } else {
      RestHolds(s, sent, t);
    }
  }

  lemma GivingUpLoses(s: State, t: State)
    requires Inv(s) && Enabled(s, Recover(false)) && t == Step(s, Recover(false)) && Loses(s, Recover(false))
    ensures !AllHeld(t)
  {
    var id := s.recovering[0].id;
    Writes(s.items, id, Queued);
    assert t.recovering == [] && t.queue == s.queue && t.workers == s.workers && t.creating == map[];
    assert !Held(t, id);
  }

  lemma RestHolds(s: State, sent: bool, t: State)
    requires Inv(s) && Enabled(s, Recover(sent)) && t == Step(s, Recover(sent))
    requires AllHeld(s) && !Loses(s, Recover(sent))
    ensures AllHeld(t)
  {
    var id := s.recovering[0].id;
    RecoverShape(s, sent);
    Writes(s.items, id, Queued);
    forall i | 0 <= i < |s.items| && i != id ensures t.items[i] == s.items[i] && (Held(s, i) ==> Held(t, i)) {
      RestListed(s, t, i);
    }
    OthersHeld(s, t, id);
  }

  lemma RestListed(s: State, t: State, i: nat)
    requires s.recovering != [] && t.recovering == s.recovering[1..] && i != s.recovering[0].id
    requires t.workers == s.workers && t.creating == s.creating && forall q :: q in s.queue ==> q in t.queue
    ensures Held(s, i) ==> Held(t, i)
  {
    if OnList(s, i) {
      var k :| 0 <= k < |s.recovering| && s.recovering[k].id == i;
      assert t.recovering[k - 1] == s.recovering[k];
    }
  }

  lemma CreatorHoldsIff(s: State, ev: Event, t: State)
    requires Inv(s) && Enabled(s, ev) && t == Step(s, ev) && AllHeld(s)
    requires ev.CreatorMarks? || ev.CreatorStops? || ev.Submit? || ev.SubmitFails? || ev.WriteFailed?
    ensures AllHeld(t) <==> !Loses(s, ev)
  {
    if ev.CreatorMarks? {
      MarkHolds(s, ev, t);
    } else if ev.CreatorStops? {
      StopHolds(s, ev, t);
    } else if ev.WriteFailed? {
      FailureHolds(s, ev, t);
    } else {
      SubmitHolds(s, ev, t);
    }
  }

  lemma WorkHoldsIff(s: State, ev: Event, t: State)
    requires Inv(s) && Enabled(s, ev) && t == Step(s, ev) && AllHeld(s)
    requires ev.Receive? || ev.Load? || ev.Start? || ev.Run? || ev.Save? || ev.Finish? || ev.Break? || ev.Fail? ||
             ev.Leave?
    ensures AllHeld(t) <==> !Loses(s, ev)
  {
    match ev
    case Receive(w) => ReceiveHolds(s, w, t);
    case Start(w, auditOk) => StartHolds(s, w, auditOk, t);
    case Finish(w, auditOk) => FinishHolds(s, w, auditOk, t);
    case Fail(w, auditOk) => FailHolds(s, w, auditOk, t);
    case Leave(w) => LeaveHolds(s, w, t);
    case _ => AdvanceHolds(s, ev, t);
  }

  /** Where nothing was lost before, a step loses a waiting execution exactly if it is one of those three. */
  lemma StepHoldsIff(s: State, ev: Event)
    requires Inv(s) && Enabled(s, ev) && AllHeld(s)
    ensures AllHeld(Step(s, ev)) <==> !Loses(s, ev)
  {
    if ev.Crash? {
      CrashHolds(s);
    } else if ev.Recover? {
      RecoverHolds(s, ev.sent, Step(s, ev));
    } else if ev.Create? {
      CreateHolds(s, ev.e, Step(s, ev));
    } else if ev.Cancel? {
      CancelHolds(s, ev.id, Step(s, ev));
    } else if ev.CreatorMarks? || ev.CreatorStops? || ev.Submit? || ev.SubmitFails? || ev.WriteFailed? {
      CreatorHoldsIff(s, ev, Step(s, ev));
    } else {
      WorkHoldsIff(s, ev, Step(s, ev));
    }
  }

  // ---------------------------------------------------------------- whole runs

  /** No step since the last crash, or since the beginning, lost anything. */
  ghost predicate NoLoss(s: State, es: seq<Event>)
    requires CanRun(s, es)
    decreases |es|
  {
    es == [] || es[|es| - 1].Crash? ||
    (NoLoss(s, es[..|es| - 1]) && !Loses(RunAll(s, es[..|es| - 1]), es[|es| - 1]))
  }

  /**
   * Over every run in which nothing was lost since the last crash, whatever waits is in the queue, being
   * created, with a worker or on the recovery list, and in one of these places only.
   */
  lemma WaitingIsHeld(size: nat, es: seq<Event>, id: nat)
    requires CanRun(Init(size), es) && NoLoss(Init(size), es) && id < |RunAll(Init(size), es).items|
    ensures var s := RunAll(Init(size), es);
            HeldOnce(s, id) && (Waiting(s.items[id].status) ==> Held(s, id))
  {
    AllStayHeld(size, es);
    RunAllKeepsInv(Init(size), es);
    HandsExclude(RunAll(Init(size), es), id);
  }

  lemma {:induction false} AllStayHeld(size: nat, es: seq<Event>)
    requires CanRun(Init(size), es) && NoLoss(Init(size), es)
    ensures AllHeld(RunAll(Init(size), es))
    decreases |es|
  {
    if es != [] {
      var front, last := es[..|es| - 1], es[|es| - 1];
      RunAllKeepsInv(Init(size), front);
      if last.Crash? {
        CrashHolds(RunAll(Init(size), front));
      } else {
        AllStayHeld(size, front);
        StepHoldsIff(RunAll(Init(size), front), last);
      }
    }
  }

  // ---------------------------------------------------------------- and all three happen

  ghost predicate Sound(s: State) {
    Reachable(s) && AllHeld(s)
  }

  lemma SoundStep(s: State, ev: Event, t: State)
    requires Sound(s) && Enabled(s, ev) && !Loses(s, ev) && t == Step(s, ev)
    ensures Sound(t)
  {
    ReachableInv(s);
    ReachableStep(s, ev);
    StepHoldsIff(s, ev);
  }

  lemma CreatedIsSound(e: Execution, size: nat) returns (s: State)
    requires e.id == 0 && e.status == Pending && e.key == ""
    ensures Sound(s) && s == Init(size).(items := [e], creating := map[0 := Stored])
  {
    assert CanRun(Init(size), []) && Init(size) == RunAll(Init(size), []);
    s := Step(Init(size), Create(e));
    SoundStep(Init(size), Create(e), s);
  }

  /** A create call whose audit entry fails leaves its execution pending, with nobody to queue it. */
  lemma CreatorLossIsReachable(e: Execution, size: nat) returns (s: State)
    requires e.id == 0 && e.status == Pending && e.key == ""
    ensures Sound(s) && Enabled(s, CreatorStops(0)) && Loses(s, CreatorStops(0))
  {
    s := CreatedIsSound(e, size);
  }

  /** A worker that could not start its execution, and could not audit that it failed it, leaves it queued. */
  lemma WorkerLossIsReachable(e: Execution, size: nat) returns (s: State)
    requires e.id == 0 && e.status == Pending && e.key == "" && size >= 1
    ensures Sound(s) && Enabled(s, Fail(0, false)) && Loses(s, Fail(0, false))
  {
    var created := CreatedIsSound(e, size);
    Writes(created.items, 0, Queued);
    var marked := Step(created, CreatorMarks(0));
    SoundStep(created, CreatorMarks(0), marked);
    var sent := Step(marked, Submit(0));
    SoundStep(marked, Submit(0), sent);
    var taken := Step(sent, Receive(0));
    SoundStep(sent, Receive(0), taken);
    s := Step(taken, Break(0));
    SoundStep(taken, Break(0), s);
  }

  /** Recovery that gives up at its first item leaves it, and all that follow, to nobody. */
  lemma RecoveryLossIsReachable(e: Execution, size: nat) returns (s: State)
    requires e.id == 0 && e.status == Pending && e.key == ""
    ensures Sound(s) && Enabled(s, Recover(false)) && Loses(s, Recover(false))
  {
    var created := CreatedIsSound(e, size);
    s := Step(created, Crash);
    SoundStep(created, Crash, s);
    assert FilterIncomplete([e]) == [e] by {
      assert [e][..0] == [];
    }
  }
}
