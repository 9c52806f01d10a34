/**
 * The local path as a state machine: callers creating and canceling executions, workers draining the
 * in-memory queue, crashes, and recovery after a restart, in any interleaving. Each store call and each
 * service call on one execution is one step; CreateExecution is split into its insert, its MarkQueued,
 * its Submit and the status write that follows a rejected Submit.
 */
module LocalProtocol {
  import opened Executions
  import opened ExecutionRepository
  import opened ExecutionService

  /** Where a CreateExecution call stands after its insert. */
  datatype CreatePhase = Stored | MarkedQueued | Rejected

  /** Where a worker stands with the execution it received. */
  datatype Phase =
    | Taken
    | Loaded
    | Started
    | Ran(ran: seq<Result>)
    | Saved(saved: seq<Result>)
    | Failing
    | Done

  datatype Task = Task(id: nat, phase: Phase)

  /**
   * `runs` holds an id once for each time a worker got past MarkRunning, after which its plugins run, so a
   * start that a crash cuts off counts too; it only records history.
   */
  datatype State = State(
    items: seq<Execution>,
    results: seq<Result>,
    queue: seq<nat>,
    size: nat,
    creating: map<nat, CreatePhase>,
    workers: map<nat, Task>,
    recovering: seq<Execution>,
    runs: multiset<nat>)

  datatype Event =
    | Create(e: Execution)
    | CreatorMarks(id: nat)
    | CreatorStops(id: nat)
    | Submit(id: nat)
    | SubmitFails(id: nat)
    | WriteFailed(id: nat)
    | Cancel(id: nat)
    | Receive(w: nat)
    | Load(w: nat)
    | Start(w: nat, auditOk: bool)
    | Run(w: nat, results: seq<Result>)
    | Save(w: nat)
    | Finish(w: nat, auditOk: bool)
    | Break(w: nat)
    | Fail(w: nat, auditOk: bool)
    | Leave(w: nat)
    | Crash
    | Recover(sent: bool)

  function Init(size: nat): State {
    State([], [], [], size, map[], map[], [], multiset{})
  }

  /** The saved results of one execution, as the result store lists them. */
  function ResultsOf(results: seq<Result>, id: nat): seq<Result> {
    if results == [] then []
    else
      var front := ResultsOf(results[..|results| - 1], id);
      if results[|results| - 1].executionId == id then front + [results[|results| - 1]] else front
  }

  predicate Creating(s: State, id: nat, p: CreatePhase) {
    id in s.creating && s.creating[id] == p
  }

  /** Requests are served only once recovery is over. A rejected Submit needs no full queue: its context may be done. */
  ghost predicate Enabled(s: State, ev: Event) {
    match ev
    case Create(e) => s.recovering == [] && e.id == |s.items| && e.status == Pending
    case CreatorMarks(id) => Creating(s, id, Stored)
    case CreatorStops(id) => Creating(s, id, Stored)
    case Submit(id) => Creating(s, id, MarkedQueued) && |s.queue| < s.size
    case SubmitFails(id) => Creating(s, id, MarkedQueued)
    case WriteFailed(id) => Creating(s, id, Rejected)
    case Cancel(id) => s.recovering == []
    case Receive(w) => w !in s.workers && s.queue != []
    case Load(w) => w in s.workers && s.workers[w].phase.Taken?
    case Start(w, _) => w in s.workers && s.workers[w].phase.Loaded?
    case Run(w, results) =>
      w in s.workers && s.workers[w].phase.Started? && s.workers[w].id < |s.items| &&
      OnePerPlugin(results, s.workers[w].id, s.items[s.workers[w].id].pluginIds)
    case Save(w) => w in s.workers && s.workers[w].phase.Ran?
    case Finish(w, _) => w in s.workers && s.workers[w].phase.Saved?
    case Break(w) => w in s.workers
    case Fail(w, _) => w in s.workers && s.workers[w].phase.Failing?
    case Leave(w) => w in s.workers && s.workers[w].phase.Done?
    case Crash => true
    case Recover(sent) => s.recovering != [] && (sent ==> |s.queue| < s.size)
  }

  function StatusOf(items: seq<Execution>, id: nat): Status {
    var i := IndexOf(items, id);
    if i < |items| then items[i].status else Failed
  }

  function Advance(s: State, w: nat, phase: Phase): State
    requires w in s.workers
  {
    s.(workers := s.workers[w := s.workers[w].(phase := phase)])
  }

  /** A guarded status change by a worker, which moves to `yes` if it happened and to `no` if it did not. */
  function WorkerTransits(s: State, w: nat, to: Status, auditOk: bool, yes: Phase, no: Phase): State
    requires w in s.workers
  {
    var id := s.workers[w].id;
    if auditOk && Transits(s.items, id, to) then Advance(s, w, yes).(items := Transit(s.items, id, to))
    else Advance(s, w, no)
  }

  /** One item of the recovery list. Recovery gives up, and requests are served, when an item is not sent. */
  function RecoverNext(s: State, sent: bool): State
    requires s.recovering != []
  {
    var e := s.recovering[0];
    if Waiting(e.status) then
      if e.status == Pending && !Transits(s.items, e.id, Queued) then s.(recovering := [])
      else
        var items := if e.status == Pending then Transit(s.items, e.id, Queued) else s.items;
        if sent then s.(items := items, queue := s.queue + [e.id], recovering := s.recovering[1..])
        else s.(items := items, recovering := [])
    else if e.status == Running then s.(items := SetStatus(s.items, e.id, Failed), recovering := s.recovering[1..])
    else s.(recovering := s.recovering[1..])
  }

  ghost function Step(s: State, ev: Event): State
    requires Enabled(s, ev)
  {
    match ev
    case Create(e) =>
      var (items, _, created) := CreateRecord(s.items, e);
      if created then s.(items := items, creating := s.creating[e.id := Stored]) else s
    case CreatorMarks(id) =>
      if Transits(s.items, id, Queued)
      then s.(items := Transit(s.items, id, Queued), creating := s.creating[id := MarkedQueued])
      else s.(creating := s.creating - {id})
    case CreatorStops(id) => s.(creating := s.creating - {id})
    case Submit(id) => s.(queue := s.queue + [id], creating := s.creating - {id})
    case SubmitFails(id) => s.(creating := s.creating[id := Rejected])
    case WriteFailed(id) => s.(items := SetStatus(s.items, id, Failed), creating := s.creating - {id})
    case Cancel(id) => s.(items := if CanCancel(StatusOf(s.items, id)) then SetStatus(s.items, id, Canceled)
                                   else s.items)
    case Receive(w) => s.(queue := s.queue[1..], workers := s.workers[w := Task(s.queue[0], Taken)])
    case Load(w) => Advance(s, w, if StatusOf(s.items, s.workers[w].id) == Canceled then Done else Loaded)
    case Start(w, auditOk) =>
      var id := s.workers[w].id;
      var t := WorkerTransits(s, w, Running, auditOk, Started, Failing);
      if auditOk && Transits(s.items, id, Running) then t.(runs := s.runs + multiset{id}) else t
    case Run(w, results) => Advance(s, w, Ran(results))
    case Save(w) => Advance(s, w, Saved(s.workers[w].phase.ran)).(results := s.results + s.workers[w].phase.ran)
    case Finish(w, auditOk) => WorkerTransits(s, w, Aggregate(s.workers[w].phase.saved), auditOk, Done, Failing)
    case Break(w) => Advance(s, w, Failing)
    case Fail(w, auditOk) => WorkerTransits(s, w, Failed, auditOk, Done, Done)
    case Leave(w) => s.(workers := s.workers - {w})
    case Crash => s.(queue := [], creating := map[], workers := map[], recovering := FilterIncomplete(s.items))
    case Recover(sent) => RecoverNext(s, sent)
  }

  ghost predicate CanRun(s: State, es: seq<Event>)
    decreases |es|, 0
  {
    es == [] || (CanRun(s, es[..|es| - 1]) && Enabled(RunAll(s, es[..|es| - 1]), es[|es| - 1]))
  }

  ghost function RunAll(s: State, es: seq<Event>): State
    requires CanRun(s, es)
    decreases |es|, 1
  {
    if es == [] then s else Step(RunAll(s, es[..|es| - 1]), es[|es| - 1])
  }

  /** The events so far lead from s to t. */
  ghost predicate Leads(s: State, es: seq<Event>, t: State) {
    CanRun(s, es) && RunAll(s, es) == t
  }

  lemma LeadsOn(s: State, es: seq<Event>, t: State, ev: Event)
    requires Leads(s, es, t) && Enabled(t, ev)
    ensures Leads(s, es + [ev], Step(t, ev))
  {
    assert (es + [ev])[..|es|] == es;
  }

  // ---------------------------------------------------------------- the invariant

  /** Everything the store knows about one execution. */
  datatype Slice = Slice(e: Execution, runs: nat, saved: seq<Result>)

  ghost function View(s: State, id: nat): Slice
    requires id < |s.items|
  {
    Slice(s.items[id], s.runs[id], ResultsOf(s.results, id))
  }

  ghost predicate Fresh(v: Slice) {
    v.runs == 0 && v.saved == []
  }

  ghost predicate WaitOk(v: Slice) {
    (v.e.status == Queued || v.e.status == Canceled) && Fresh(v)
  }

  ghost predicate CreateOk(v: Slice, p: CreatePhase) {
    if p.Stored? then (v.e.status == Pending || v.e.status == Canceled) && Fresh(v) else WaitOk(v)
  }

  ghost predicate PhaseOk(v: Slice, p: Phase) {
    match p
    case Taken => WaitOk(v)
    case Loaded => WaitOk(v)
    case Started => (v.e.status == Running || v.e.status == Canceled) && v.runs == 1 && v.saved == []
    case Ran(rs) =>
      (v.e.status == Running || v.e.status == Canceled) && v.runs == 1 && v.saved == [] &&
      OnePerPlugin(rs, v.e.id, v.e.pluginIds)
    case Saved(rs) =>
      (v.e.status == Running || v.e.status == Canceled) && v.runs == 1 && v.saved == rs &&
      OnePerPlugin(rs, v.e.id, v.e.pluginIds)
    case Failing => v.e.status != Pending
    case Done => v.e.status != Pending
  }

  /** The statuses only a completed run of the plugins leads to. */
  predicate Reported(s: Status) {
    s == Success || s == PartialSuccess || s == Timeout
  }

  ghost predicate StatusOk(v: Slice) {
    && v.runs <= 1
    && (Waiting(v.e.status) ==> Fresh(v))
    && (Reported(v.e.status) ==> OnePerPlugin(v.saved, v.e.id, v.e.pluginIds) && Aggregate(v.saved) == v.e.status)
  }

  ghost predicate Ids(items: seq<Execution>) {
    forall i :: 0 <= i < |items| ==> items[i].id == i
  }

  ghost predicate StatusesOk(s: State) {
    forall id :: 0 <= id < |s.items| ==> StatusOk(View(s, id))
  }

  ghost predicate QueueOk(s: State) {
    forall k :: 0 <= k < |s.queue| ==> s.queue[k] < |s.items| && WaitOk(View(s, s.queue[k]))
  }

  ghost predicate WorkersOk(s: State) {
    forall w :: w in s.workers ==> s.workers[w].id < |s.items| && PhaseOk(View(s, s.workers[w].id), s.workers[w].phase)
  }

  ghost predicate CreatorsOk(s: State) {
    forall id :: id in s.creating ==> id < |s.items| && CreateOk(View(s, id), s.creating[id])
  }

  /** While recovery lasts, what is left of its list is what the store still says. */
  ghost predicate RecoveryOk(s: State) {
    && (forall k :: 0 <= k < |s.recovering| ==>
          s.recovering[k].id < |s.items| && s.items[s.recovering[k].id] == s.recovering[k])
    && (s.recovering != [] ==> s.creating == map[])
  }

  /** No execution is in two hands: twice in the queue, with two workers, or in two of these places. */
  ghost predicate Exclusive(s: State) {
    && (forall i, j :: 0 <= i < j < |s.queue| ==> s.queue[i] != s.queue[j])
    && (forall i, j :: 0 <= i < j < |s.recovering| ==> s.recovering[i].id != s.recovering[j].id)
    && (forall v, w :: v in s.workers && w in s.workers && v != w ==> s.workers[v].id != s.workers[w].id)
    && (forall w :: w in s.workers ==> s.workers[w].id !in s.queue && s.workers[w].id !in s.creating)
    && (forall id :: id in s.creating ==> id !in s.queue)
    && (forall k :: 0 <= k < |s.recovering| ==> s.recovering[k].id !in s.queue)
    && (forall k, w :: 0 <= k < |s.recovering| && w in s.workers ==> s.recovering[k].id != s.workers[w].id)
  }

  ghost predicate Known(s: State) {
    forall k :: 0 <= k < |s.results| ==> s.results[k].executionId < |s.items|
  }

  ghost predicate KnownRuns(s: State) {
    forall id :: id in s.runs ==> id < |s.items|
  }

  ghost predicate Inv(s: State) {
    && Ids(s.items) && Known(s) && KnownRuns(s) && StatusesOk(s)
    && QueueOk(s) && WorkersOk(s) && CreatorsOk(s) && RecoveryOk(s) && Exclusive(s)
  }

  // ---------------------------------------------------------------- helpers

  lemma Found(items: seq<Execution>, id: nat)
    requires Ids(items)
    ensures id < |items| ==> IndexOf(items, id) == id
    ensures id >= |items| ==> IndexOf(items, id) == |items|
  {
    if id < |items| {
      assert items[id].id == id;
    }
  }

  lemma {:induction false} ResultsOfAppend(results: seq<Result>, more: seq<Result>, id: nat)
    ensures ResultsOf(results + more, id) == ResultsOf(results, id) + ResultsOf(more, id)
    decreases |more|
  {
    if more == [] {
      assert results + more == results;
    } else {
      var k := |more| - 1;
      ResultsOfAppend(results, more[..k], id);
      assert (results + more)[..|results + more| - 1] == results + more[..k];
    }
  }

  lemma {:induction false} ResultsOfOne(results: seq<Result>, owner: nat, id: nat)
    requires forall k :: 0 <= k < |results| ==> results[k].executionId == owner
    ensures ResultsOf(results, id) == if id == owner then results else []
    decreases |results|
  {
    if results != [] {
      ResultsOfOne(results[..|results| - 1], owner, id);
    }
  }

  lemma {:induction false} ResultsOfUnknown(results: seq<Result>, id: nat)
    requires forall k :: 0 <= k < |results| ==> results[k].executionId != id
    ensures ResultsOf(results, id) == []
    decreases |results|
  {
    if results != [] {
      ResultsOfUnknown(results[..|results| - 1], id);
    }
  }

  /** The list with one status changed. */
  function With(items: seq<Execution>, id: nat, status: Status): seq<Execution>
    requires id < |items|
  {
    items[id := items[id].(status := status)]
  }

  /** Guarded and unguarded status writes, when ids are positions. */
  lemma Writes(items: seq<Execution>, id: nat, to: Status)
    requires Ids(items)
    ensures Transits(items, id, to) <==> id < |items| && CanTransit(items[id].status, to)
    ensures Transit(items, id, to) == if Transits(items, id, to) then With(items, id, to) else items
    ensures SetStatus(items, id, to) == if id < |items| then With(items, id, to) else items
    ensures StatusOf(items, id) == if id < |items| then items[id].status else Failed
  {
    Found(items, id);
  }

  // ---------------------------------------------------------------- every step keeps the invariant

  lemma AppendedStatuses(s: State, t: State, e: Execution)
    requires Inv(s) && e.id == |s.items| && e.status == Pending
    requires t == s.(items := s.items + [e], creating := s.creating[e.id := Stored])
    ensures StatusesOk(t) && forall id: nat :: id < |s.items| ==> View(t, id) == View(s, id)
  {
    ResultsOfUnknown(s.results, e.id);
    forall id: nat | id < |s.items| ensures View(t, id) == View(s, id) && StatusOk(View(t, id)) {
      assert StatusOk(View(s, id));
    }
  }

  lemma Appended(s: State, t: State, e: Execution)
    requires Inv(s) && s.recovering == [] && e.id == |s.items| && e.status == Pending
    requires t == s.(items := s.items + [e], creating := s.creating[e.id := Stored])
    ensures Inv(t)
  {
    AppendedStatuses(s, t, e);
    AppendedExclusive(s, t, e);
    ResultsOfUnknown(s.results, e.id);
  }

  lemma AppendedExclusive(s: State, t: State, e: Execution)
    requires Exclusive(s) && QueueOk(s) && WorkersOk(s) && s.recovering == [] && e.id == |s.items|
    requires t == s.(items := s.items + [e], creating := s.creating[e.id := Stored])
    ensures Exclusive(t)
  {
  }

  lemma CreateKeepsInv(s: State, e: Execution)
    requires Inv(s) && Enabled(s, Create(e))
    ensures Inv(Step(s, Create(e)))
  {
    if CreateRecord(s.items, e).2 {
      Appended(s, Step(s, Create(e)), e);
    }
  }

  /** Only this execution changed, and whoever holds it now may. */
  ghost predicate OnlyChanged(s: State, t: State, id: nat) {
    && id < |s.items| == |t.items| && Ids(t.items) && Known(t) && KnownRuns(t)
    && (forall i: nat :: i < |s.items| && i != id ==> View(t, i) == View(s, i))
    && StatusOk(View(t, id))
    && (forall k :: 0 <= k < |t.queue| ==>
          (t.queue[k] != id && t.queue[k] in s.queue) || (t.queue[k] == id && WaitOk(View(t, id))))
    && (forall w :: w in t.workers ==>
          || (t.workers[w].id != id && w in s.workers && t.workers[w] == s.workers[w])
          || (t.workers[w].id == id && PhaseOk(View(t, id), t.workers[w].phase)))
    && (forall c :: c in t.creating ==>
          || (c != id && c in s.creating && t.creating[c] == s.creating[c])
          || (c == id && CreateOk(View(t, id), t.creating[c])))
    && (forall k :: 0 <= k < |t.recovering| ==> t.recovering[k] in s.recovering && t.recovering[k].id != id)
    && (t.recovering != [] ==> t.creating == map[])
  }

  lemma OnlyChangedKeepsInv(s: State, t: State, id: nat)
    requires Inv(s) && OnlyChanged(s, t, id) && Exclusive(t)
    ensures Inv(t)
  {
    forall k | 0 <= k < |t.queue| ensures t.queue[k] < |t.items| && WaitOk(View(t, t.queue[k])) {
    }
    forall w | w in t.workers
      ensures t.workers[w].id < |t.items| && PhaseOk(View(t, t.workers[w].id), t.workers[w].phase)
    {
    }
    forall k | 0 <= k < |t.recovering|
      ensures t.recovering[k].id < |t.items| && t.items[t.recovering[k].id] == t.recovering[k]
    {
      var i := t.recovering[k].id;
      assert View(t, i) == View(s, i);
    }
  }

  lemma CreatorExclusive(s: State, t: State, id: nat)
    requires Exclusive(s) && id in s.creating && t.workers == s.workers && t.recovering == s.recovering == []
    requires || (t.creating == s.creating - {id} && (t.queue == s.queue || t.queue == s.queue + [id]))
             || (t.queue == s.queue && t.creating.Keys == s.creating.Keys)
    ensures Exclusive(t)
  {
  }

  lemma CreatorStep(s: State, t: State, id: nat)
    requires Inv(s) && id in s.creating
    requires t.workers == s.workers && t.recovering == s.recovering && t.results == s.results && t.runs == s.runs
    requires id < |s.items| && (t.items == s.items || exists st :: t.items == With(s.items, id, st))
    requires StatusOk(View(t, id))
    requires || (t.queue == s.queue && t.creating == s.creating - {id})
             || (t.queue == s.queue + [id] && t.creating == s.creating - {id} && WaitOk(View(t, id)))
             || (t.queue == s.queue && id in t.creating && t.creating == s.creating[id := t.creating[id]] &&
                 CreateOk(View(t, id), t.creating[id]))
    ensures Inv(t)
  {
    assert s.recovering == [];
    CreatorExclusive(s, t, id);
    assert OnlyChanged(s, t, id);
    OnlyChangedKeepsInv(s, t, id);
  }

  lemma CreatorMarksKeepsInv(s: State, id: nat)
    requires Inv(s) && Enabled(s, CreatorMarks(id))
    ensures Inv(Step(s, CreatorMarks(id)))
  {
    Writes(s.items, id, Queued);
    assert CreateOk(View(s, id), s.creating[id]) && StatusOk(View(s, id));
    CreatorStep(s, Step(s, CreatorMarks(id)), id);
  }

  lemma CreatorKeepsInv(s: State, ev: Event, t: State)
    requires Inv(s) && (ev.CreatorStops? || ev.Submit? || ev.SubmitFails?) && Enabled(s, ev) && t == Step(s, ev)
    ensures Inv(t)
  {
    assert CreateOk(View(s, ev.id), s.creating[ev.id]) && StatusOk(View(s, ev.id));
    assert View(t, ev.id) == View(s, ev.id);
    CreatorStep(s, t, ev.id);
  }

  lemma WriteFailedKeepsInv(s: State, id: nat, t: State)
    requires Inv(s) && Enabled(s, WriteFailed(id)) && t == Step(s, WriteFailed(id))
    ensures Inv(t)
  {
    Writes(s.items, id, Failed);
    assert CreateOk(View(s, id), s.creating[id]) && StatusOk(View(s, id));
    CreatorStep(s, t, id);
  }

  /** Canceling an execution suits whoever holds it. */
  lemma CanceledSuits(v: Slice, p: Phase, c: CreatePhase)
    requires CanCancel(v.e.status) && StatusOk(v)
    ensures var u := v.(e := v.e.(status := Canceled));
            && StatusOk(u) && (PhaseOk(v, p) ==> PhaseOk(u, p))
            && (CreateOk(v, c) ==> CreateOk(u, c)) && (WaitOk(v) ==> WaitOk(u))
  {
  }

  lemma CancelKeepsInv(s: State, id: nat)
    requires Inv(s) && Enabled(s, Cancel(id))
    ensures Inv(Step(s, Cancel(id)))
  {
    Writes(s.items, id, Canceled);
    if id < |s.items| && CanCancel(s.items[id].status) {
      var t := Step(s, Cancel(id));
      CancelChanges(s, id, t);
      OnlyChangedKeepsInv(s, t, id);
    }
  }

  lemma CancelChanges(s: State, id: nat, t: State)
    requires Inv(s) && s.recovering == [] && id < |s.items| && CanCancel(s.items[id].status)
    requires t == s.(items := With(s.items, id, Canceled))
    ensures OnlyChanged(s, t, id) && Exclusive(t)
  {
    var v := View(s, id);
    assert StatusOk(v) && View(t, id) == v.(e := v.e.(status := Canceled));
    CanceledSuits(v, Done, Stored);
    forall w | w in s.workers && s.workers[w].id == id ensures PhaseOk(View(t, id), s.workers[w].phase) {
      CanceledSuits(v, s.workers[w].phase, Stored);
    }
    forall c | c in s.creating && c == id ensures CreateOk(View(t, id), s.creating[c]) {
      CanceledSuits(v, Done, s.creating[c]);
    }
  }

  lemma ReceiveExclusive(s: State, t: State, w: nat)
    requires Exclusive(s) && s.queue != [] && w !in s.workers
    requires t.queue == s.queue[1..] && t.workers == s.workers[w := Task(s.queue[0], Taken)]
    requires t.creating == s.creating && t.recovering == s.recovering
    ensures Exclusive(t) && s.queue[0] !in t.queue && s.queue[0] !in t.creating
    ensures forall k :: 0 <= k < |t.recovering| ==> t.recovering[k].id != s.queue[0]
    ensures forall v :: v in s.workers ==> s.workers[v].id != s.queue[0]
  {
    assert s.queue == [s.queue[0]] + t.queue;
    assert forall k :: 0 <= k < |t.queue| ==> t.queue[k] == s.queue[k + 1];
  }

  lemma ReceiveKeepsInv(s: State, w: nat)
    requires Inv(s) && Enabled(s, Receive(w))
    ensures Inv(Step(s, Receive(w)))
  {
    var t := Step(s, Receive(w));
    ReceiveExclusive(s, t, w);
    ReceiveChanges(s, t, w);
    OnlyChangedKeepsInv(s, t, s.queue[0]);
  }

  lemma ReceiveChanges(s: State, t: State, w: nat)
    requires Inv(s) && Enabled(s, Receive(w)) && t == Step(s, Receive(w))
    ensures OnlyChanged(s, t, s.queue[0])
  {
    var id := s.queue[0];
    assert WaitOk(View(s, id)) && View(t, id) == View(s, id) && StatusOk(View(s, id));
  }

  /** A worker's step: the execution it holds and its own phase change together, nothing else does. */
  lemma WorkerStep(s: State, t: State, w: nat)
    requires Inv(s) && w in s.workers && w in t.workers && t.workers == s.workers[w := t.workers[w]]
    requires t.workers[w].id == s.workers[w].id
    requires t.queue == s.queue && t.creating == s.creating && t.recovering == s.recovering
    requires |t.items| == |s.items| && Ids(t.items) && Known(t) && KnownRuns(t)
    requires forall i: nat :: i < |s.items| && i != s.workers[w].id ==> View(t, i) == View(s, i)
    requires StatusOk(View(t, s.workers[w].id)) && PhaseOk(View(t, s.workers[w].id), t.workers[w].phase)
    ensures Inv(t)
  {
    assert Exclusive(t);
    OnlyChangedKeepsInv(s, t, s.workers[w].id);
  }

  lemma TransitsKeepsInv(s: State, w: nat, to: Status, auditOk: bool, yes: Phase, no: Phase)
    requires Inv(s) && w in s.workers && s.workers[w].id < |s.items|
    requires var v := View(s, s.workers[w].id);
             var u := v.(e := v.e.(status := to));
             && PhaseOk(v, no)
             && (CanTransit(v.e.status, to) ==> StatusOk(u) && PhaseOk(u, yes))
    ensures Inv(WorkerTransits(s, w, to, auditOk, yes, no))
  {
    Writes(s.items, s.workers[w].id, to);
    if auditOk && Transits(s.items, s.workers[w].id, to) {
      TransitedKeepsInv(s, w, to, yes, WorkerTransits(s, w, to, auditOk, yes, no));
    } else {
      MovedKeepsInv(s, w, no, WorkerTransits(s, w, to, auditOk, yes, no));
    }
  }

  /** The worker moves on, and its execution has a new status. */
  lemma TransitedKeepsInv(s: State, w: nat, to: Status, phase: Phase, t: State)
    requires Inv(s) && w in s.workers && s.workers[w].id < |s.items|
    requires var v := View(s, s.workers[w].id);
             var u := v.(e := v.e.(status := to));
             StatusOk(u) && PhaseOk(u, phase)
    requires t == Advance(s, w, phase).(items := With(s.items, s.workers[w].id, to))
    ensures Inv(t)
  {
    assert forall i: nat :: i < |s.items| && i != s.workers[w].id ==> View(t, i) == View(s, i);
    WorkerStep(s, t, w);
  }

  /** The worker moves on, and nothing else changes. */
  lemma MovedKeepsInv(s: State, w: nat, phase: Phase, t: State)
    requires Inv(s) && w in s.workers && s.workers[w].id < |s.items| && PhaseOk(View(s, s.workers[w].id), phase)
    requires t == Advance(s, w, phase)
    ensures Inv(t)
  {
    assert forall i: nat :: i < |s.items| ==> View(t, i) == View(s, i);
    assert StatusOk(View(s, s.workers[w].id));
    WorkerStep(s, t, w);
  }

  lemma StartKeepsInv(s: State, w: nat, auditOk: bool)
    requires Inv(s) && Enabled(s, Start(w, auditOk))
    ensures Inv(Step(s, Start(w, auditOk)))
  {
    var task := s.workers[w];
    assert PhaseOk(View(s, task.id), task.phase) && StatusOk(View(s, task.id));
    Writes(s.items, task.id, Running);
    if auditOk && Transits(s.items, task.id, Running) {
      StartedKeepsInv(s, w);
    } else {
      MovedKeepsInv(s, w, Failing, Advance(s, w, Failing));
    }
  }

  /** The execution is running, and counted. */
  lemma StartedKeepsInv(s: State, w: nat)
    requires Inv(s) && w in s.workers && s.workers[w].id < |s.items|
    requires WaitOk(View(s, s.workers[w].id)) && s.items[s.workers[w].id].status == Queued
    ensures Inv(Advance(s, w, Started).(items := With(s.items, s.workers[w].id, Running),
                                        runs := s.runs + multiset{s.workers[w].id}))
  {
    var id := s.workers[w].id;
    var t := Advance(s, w, Started).(items := With(s.items, id, Running), runs := s.runs + multiset{id});
    assert forall i: nat :: i < |s.items| && i != id ==> View(t, i) == View(s, i);
    WorkerStep(s, t, w);
  }

  lemma FinishKeepsInv(s: State, w: nat, auditOk: bool)
    requires Inv(s) && Enabled(s, Finish(w, auditOk))
    ensures Inv(Step(s, Finish(w, auditOk)))
  {
    var task := s.workers[w];
    assert PhaseOk(View(s, task.id), task.phase) && StatusOk(View(s, task.id));
    TransitsKeepsInv(s, w, Aggregate(task.phase.saved), auditOk, Done, Failing);
  }

  lemma FailKeepsInv(s: State, w: nat, auditOk: bool)
    requires Inv(s) && Enabled(s, Fail(w, auditOk))
    ensures Inv(Step(s, Fail(w, auditOk)))
  {
    var task := s.workers[w];
    assert PhaseOk(View(s, task.id), task.phase) && StatusOk(View(s, task.id));
    TransitsKeepsInv(s, w, Failed, auditOk, Done, Done);
  }

  lemma AdvanceKeepsInv(s: State, ev: Event)
    requires Inv(s) && (ev.Load? || ev.Break?) && Enabled(s, ev)
    ensures Inv(Step(s, ev))
  {
    var id := s.workers[ev.w].id;
    Writes(s.items, id, Failed);
    assert PhaseOk(View(s, id), s.workers[ev.w].phase) && StatusOk(View(s, id));
    WorkerStep(s, Step(s, ev), ev.w);
  }

  lemma RunKeepsInv(s: State, w: nat, results: seq<Result>)
    requires Inv(s) && Enabled(s, Run(w, results))
    ensures Inv(Step(s, Run(w, results)))
  {
    var id := s.workers[w].id;
    assert PhaseOk(View(s, id), s.workers[w].phase) && StatusOk(View(s, id));
    assert s.items[id].id == id;
    WorkerStep(s, Step(s, Run(w, results)), w);
  }

  lemma SaveKeepsInv(s: State, w: nat)
    requires Inv(s) && Enabled(s, Save(w))
    ensures Inv(Step(s, Save(w)))
  {
    var id := s.workers[w].id;
    var rs := s.workers[w].phase.ran;
    var t := Step(s, Save(w));
    assert PhaseOk(View(s, id), s.workers[w].phase) && StatusOk(View(s, id));
    forall i: nat | i < |s.items|
      ensures ResultsOf(t.results, i) == ResultsOf(s.results, i) + if i == id then rs else []
    {
      ResultsOfAppend(s.results, rs, i);
      ResultsOfOne(rs, id, i);
    }
    WorkerStep(s, t, w);
  }

  lemma LeaveKeepsInv(s: State, w: nat)
    requires Inv(s) && Enabled(s, Leave(w))
    ensures Inv(Step(s, Leave(w)))
  {
    var t := Step(s, Leave(w));
    assert Exclusive(t);
    OnlyChangedKeepsInv(s, t, s.workers[w].id);
  }

  /** A list of executions of the store as they are now, in store order. */
  ghost predicate Snapshot(items: seq<Execution>, f: seq<Execution>) {
    && (forall k :: 0 <= k < |f| ==> f[k].id < |items| && items[f[k].id] == f[k])
    && (forall i, j :: 0 <= i < j < |f| ==> f[i].id < f[j].id)
  }

  lemma {:induction false} FilterIsSnapshot(items: seq<Execution>)
    requires Ids(items)
    ensures Snapshot(items, FilterIncomplete(items))
    decreases |items|
  {
    if items != [] {
      var n := |items| - 1;
      FilterIsSnapshot(items[..n]);
      var front := FilterIncomplete(items[..n]);
      assert Snapshot(items, front);
      assert items[n].id == n;
    }
  }

  lemma CrashKeepsInv(s: State)
    requires Inv(s)
    ensures Inv(Step(s, Crash))
  {
    FilterIsSnapshot(s.items);
    var t := Step(s, Crash);
    assert forall i: nat :: i < |s.items| ==> View(t, i) == View(s, i);
  }

  /** Taking the first item off the recovery list, with or without queueing it, or dropping the list. */
  lemma RecoverExclusive(s: State, t: State)
    requires Exclusive(s) && s.recovering != [] && t.workers == s.workers && t.creating == s.creating == map[]
    requires t.recovering == [] || t.recovering == s.recovering[1..]
    requires t.queue == s.queue || (t.queue == s.queue + [s.recovering[0].id])
    ensures Exclusive(t)
  {
  }

  /** The outcomes RecoverNext can have. */
  lemma RecoverShape(s: State, sent: bool)
    requires Ids(s.items) && s.recovering != [] && s.recovering[0].id < |s.items| &&
             s.items[s.recovering[0].id] == s.recovering[0]
    ensures var t := RecoverNext(s, sent);
            var e := s.recovering[0];
            && t == s.(items := t.items, queue := t.queue, recovering := t.recovering)
            && (t.recovering == [] || t.recovering == s.recovering[1..])
            && (t.items == s.items || (Waiting(e.status) && t.items == With(s.items, e.id, Queued))
                                   || (e.status == Running && t.items == With(s.items, e.id, Failed)))
            && (t.queue == s.queue ||
                (t.queue == s.queue + [e.id] && Waiting(e.status) && t.items[e.id].status == Queued))
  {
    Writes(s.items, s.recovering[0].id, Queued);
    Writes(s.items, s.recovering[0].id, Failed);
  }

  lemma RecoverKeepsInv(s: State, sent: bool)
    requires Inv(s) && Enabled(s, Recover(sent))
    ensures Inv(Step(s, Recover(sent)))
  {
    var t := RecoverNext(s, sent);
    RecoverShape(s, sent);
    RecoverExclusive(s, t);
    RecoverChangesOne(s, t);
    OnlyChangedKeepsInv(s, t, s.recovering[0].id);
  }

  lemma RecoverChangesOne(s: State, t: State)
    requires Inv(s) && s.recovering != [] && s.recovering[0].id < |s.items|
    requires var e := s.recovering[0];
             && (t.items == s.items || (Waiting(e.status) && t.items == With(s.items, e.id, Queued))
                                    || (e.status == Running && t.items == With(s.items, e.id, Failed)))
             && (t.queue == s.queue || (t.queue == s.queue + [e.id] && t.items[e.id].status == Queued))
    requires t.results == s.results && t.runs == s.runs && t.workers == s.workers && t.creating == s.creating
    requires t.recovering == [] || t.recovering == s.recovering[1..]
    ensures OnlyChanged(s, t, s.recovering[0].id)
  {
    var id := s.recovering[0].id;
    assert StatusOk(View(s, id));
    assert s.items[id] == s.recovering[0];
  }

  lemma WorkerStepKeepsInv(s: State, ev: Event)
    requires Inv(s) && Enabled(s, ev)
    requires ev.Receive? || ev.Load? || ev.Start? || ev.Run? || ev.Save? || ev.Finish? || ev.Break? || ev.Fail? ||
             ev.Leave?
    ensures Inv(Step(s, ev))
  {
    match ev
    case Receive(w) => ReceiveKeepsInv(s, w);
    case Start(w, auditOk) => StartKeepsInv(s, w, auditOk);
    case Run(w, results) => RunKeepsInv(s, w, results);
    case Save(w) => SaveKeepsInv(s, w);
    case Finish(w, auditOk) => FinishKeepsInv(s, w, auditOk);
    case Fail(w, auditOk) => FailKeepsInv(s, w, auditOk);
    case Leave(w) => LeaveKeepsInv(s, w);
    case _ => AdvanceKeepsInv(s, ev);
  }

  lemma CallKeepsInv(s: State, ev: Event)
    requires Inv(s) && Enabled(s, ev)
    requires ev.Create? || ev.CreatorMarks? || ev.CreatorStops? || ev.Submit? || ev.SubmitFails? || ev.WriteFailed? ||
             ev.Cancel?
    ensures Inv(Step(s, ev))
  {
    if ev.Create? {
      CreateKeepsInv(s, ev.e);
    } else if ev.CreatorMarks? {
      CreatorMarksKeepsInv(s, ev.id);
    } else if ev.Cancel? {
      CancelKeepsInv(s, ev.id);
    } else if ev.WriteFailed? {
      WriteFailedKeepsInv(s, ev.id, Step(s, ev));
    } else {
      CreatorKeepsInv(s, ev, Step(s, ev));
    }
  }

  lemma StepKeepsInv(s: State, ev: Event)
    requires Inv(s) && Enabled(s, ev)
    ensures Inv(Step(s, ev))
  {
    if ev.Crash? {
      CrashKeepsInv(s);
    } else if ev.Recover? {
      RecoverKeepsInv(s, ev.sent);
    } else if ev.Create? || ev.CreatorMarks? || ev.CreatorStops? || ev.Submit? || ev.SubmitFails? ||
              ev.WriteFailed? || ev.Cancel? {
      CallKeepsInv(s, ev);
    } else {
      WorkerStepKeepsInv(s, ev);
    }
  }

  lemma {:induction false} RunAllKeepsInv(s: State, es: seq<Event>)
    requires Inv(s) && CanRun(s, es)
    ensures Inv(RunAll(s, es))
    decreases |es|
  {
    if es != [] {
      RunAllKeepsInv(s, es[..|es| - 1]);
      StepKeepsInv(RunAll(s, es[..|es| - 1]), es[|es| - 1]);
    }
  }

  ghost predicate Reachable(s: State) {
    exists size, es :: CanRun(Init(size), es) && s == RunAll(Init(size), es)
  }

  lemma ReachableInv(s: State)
    requires Reachable(s)
    ensures Inv(s)
  {
    var size, es :| CanRun(Init(size), es) && s == RunAll(Init(size), es);
    RunAllKeepsInv(Init(size), es);
  }
}
