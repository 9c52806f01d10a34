/** The local worker's handling of one id as one uninterrupted call. */
module LocalWorker {
  import opened Executions
  import opened ExecutionRepository
  import opened ExecutionService
  import opened LocalProtocol

  /** Worker v of t has this id and stands at this phase, and the stores are those of t. */
  ghost predicate Stands(t: State, v: nat, id: nat, phase: Phase, items: seq<Execution>, results: seq<Result>) {
    v in t.workers && t.workers[v] == Task(id, phase) && t.items == items && t.results == results && Ids(t.items)
  }

  lemma TransitKeepsIds(items: seq<Execution>, id: nat, to: Status)
    requires Ids(items)
    ensures Ids(Transit(items, id, to)) && |Transit(items, id, to)| == |items|
    ensures id < |items| ==> Transit(items, id, to)[id].pluginIds == items[id].pluginIds
  {
    Writes(items, id, to);
  }

  lemma LoadStep(s: State, es: seq<Event>, t: State, v: nat, id: nat,
                 items: seq<Execution>, results: seq<Result>) returns (es': seq<Event>, t': State)
    requires Leads(s, es, t) && Stands(t, v, id, Taken, items, results)
    ensures Leads(s, es', t')
    ensures Stands(t', v, id, if StatusOf(items, id) == Canceled then Done else Loaded, items, results)
    ensures t'.runs == t.runs
  {
    LeadsOn(s, es, t, Load(v));
    es', t' := es + [Load(v)], Step(t, Load(v));
  }

  lemma BreakStep(s: State, es: seq<Event>, t: State, v: nat, id: nat, phase: Phase,
                  items: seq<Execution>, results: seq<Result>) returns (es': seq<Event>, t': State)
    requires Leads(s, es, t) && Stands(t, v, id, phase, items, results)
    ensures Leads(s, es', t') && Stands(t', v, id, Failing, items, results)
    ensures t'.runs == t.runs
  {
    LeadsOn(s, es, t, Break(v));
    es', t' := es + [Break(v)], Step(t, Break(v));
  }

  lemma StartStep(s: State, es: seq<Event>, t: State, v: nat, id: nat, auditOk: bool,
                  items: seq<Execution>, results: seq<Result>) returns (es': seq<Event>, t': State)
    requires Leads(s, es, t) && Stands(t, v, id, Loaded, items, results)
    ensures Leads(s, es', t')
    ensures Stands(t', v, id, if auditOk && Transits(items, id, Running) then Started else Failing,
                   if auditOk then Transit(items, id, Running) else items, results)
    ensures t'.runs == t.runs + if auditOk && Transits(items, id, Running) then multiset{id} else multiset{}
  {
    TransitKeepsIds(items, id, Running);
    LeadsOn(s, es, t, Start(v, auditOk));
    es', t' := es + [Start(v, auditOk)], Step(t, Start(v, auditOk));
  }

  lemma PluginsStep(s: State, es: seq<Event>, t: State, v: nat, id: nat, rs: seq<Result>,
                    items: seq<Execution>, results: seq<Result>) returns (es': seq<Event>, t': State)
    requires Leads(s, es, t) && Stands(t, v, id, Started, items, results)
    requires id < |items| && OnePerPlugin(rs, id, items[id].pluginIds)
    ensures Leads(s, es', t') && Stands(t', v, id, Ran(rs), items, results)
    ensures t'.runs == t.runs
  {
    LeadsOn(s, es, t, Run(v, rs));
    es', t' := es + [Run(v, rs)], Step(t, Run(v, rs));
  }

  lemma SaveStep(s: State, es: seq<Event>, t: State, v: nat, id: nat, rs: seq<Result>,
                 items: seq<Execution>, results: seq<Result>) returns (es': seq<Event>, t': State)
    requires Leads(s, es, t) && Stands(t, v, id, Ran(rs), items, results)
    ensures Leads(s, es', t') && Stands(t', v, id, Saved(rs), items, results + rs)
    ensures t'.runs == t.runs
  {
    LeadsOn(s, es, t, Save(v));
    es', t' := es + [Save(v)], Step(t, Save(v));
  }

  lemma FinishStep(s: State, es: seq<Event>, t: State, v: nat, id: nat, rs: seq<Result>, auditOk: bool,
                   items: seq<Execution>, results: seq<Result>) returns (es': seq<Event>, t': State)
    requires Leads(s, es, t) && Stands(t, v, id, Saved(rs), items, results)
    ensures Leads(s, es', t')
    ensures Stands(t', v, id, if auditOk && Transits(items, id, Aggregate(rs)) then Done else Failing,
                   if auditOk then Transit(items, id, Aggregate(rs)) else items, results)
    ensures t'.runs == t.runs
  {
    TransitKeepsIds(items, id, Aggregate(rs));
    LeadsOn(s, es, t, Finish(v, auditOk));
    es', t' := es + [Finish(v, auditOk)], Step(t, Finish(v, auditOk));
  }

  lemma FailStep(s: State, es: seq<Event>, t: State, v: nat, id: nat, auditOk: bool,
                 items: seq<Execution>, results: seq<Result>) returns (es': seq<Event>, t': State)
    requires Leads(s, es, t) && Stands(t, v, id, Failing, items, results)
    ensures Leads(s, es', t')
    ensures Stands(t', v, id, Done, if auditOk then Transit(items, id, Failed) else items, results)
    ensures t'.runs == t.runs
  {
    TransitKeepsIds(items, id, Failed);
    LeadsOn(s, es, t, Fail(v, auditOk));
    es', t' := es + [Fail(v, auditOk)], Step(t, Fail(v, auditOk));
  }

  // ---------------------------------------------------------------- what a call comes to

  /** What the plugins, the result store and the audit log come to during one call. */
  datatype World = World(
    found: bool,
    panics: bool,
    outcome: nat -> (PluginStatus, int),
    saves: bool,
    startAudit: bool,
    finishAudit: bool,
    failAudit: bool)

  /** It started, and if the plugins ran through and their results could be stored, these are the results. */
  ghost predicate Reports(e: Execution, started: bool, rs: seq<Result>, w: World) {
    if started && w.found && !w.panics && w.saves then
      && |rs| == |e.pluginIds|
      && forall k :: 0 <= k < |rs| ==> rs[k] == Result(e.id, e.pluginIds[k], w.outcome(k).0, w.outcome(k).1)
    else rs == []
  }

  /** How often this call starts the plugins. */
  ghost function Starts(items: seq<Execution>, id: nat, w: World): multiset<nat> {
    if id < |items| && items[id].status == Queued && w.startAudit then multiset{id} else multiset{}
  }

  /** The status in which RunExecutionSafely leaves an execution, and whether it returns without an error. */
  ghost predicate TriedAs(e: Execution, to: Status, rs: seq<Result>, w: World, ok: bool) {
    var started := e.status == Queued && w.startAudit;
    var finished := started && w.found && !w.panics && w.saves && w.finishAudit;
    && Reports(e, started, rs, w)
    && (ok <==> finished || e.status == Canceled)
    && if finished then AggregatesTo(rs, to) else to == if started then Running else e.status
  }

  /** The same once the worker has dealt with an error: what is not final yet fails, if that can be audited. */
  ghost predicate HandledAs(e: Execution, to: Status, rs: seq<Result>, w: World) {
    var started := e.status == Queued && w.startAudit;
    && Reports(e, started, rs, w)
    && if started && w.found && !w.panics && w.saves && w.finishAudit then AggregatesTo(rs, to)
       else if w.failAudit && e.status in {Pending, Queued, Running} then to == Failed
       else to == if started then Running else e.status
  }

  /** Nothing but the status of this record changes, and the results are added at the end. */
  ghost predicate Touches(items: seq<Execution>, after: seq<Execution>, id: nat, to: Status,
                          results: seq<Result>, stored: seq<Result>, rs: seq<Result>)
    requires id < |items|
  {
    after == items[id := items[id].(status := to)] && stored == results + rs
  }

  lemma GuardedAt(items: seq<Execution>, after: seq<Execution>, id: nat, from: set<Status>, to: Status, auditOk: bool,
                  ok: bool)
    requires Ids(items) && Guarded(items, after, id, from, to, auditOk, ok)
    ensures id < |items| ==> (ok <==> auditOk && items[id].status in from)
    ensures id >= |items| ==> !ok
    ensures after == if ok then items[id := items[id].(status := to)] else items
  {
    if id < |items| {
      assert FirstWithId(items, id, id);
    }
  }

  /** A started execution whose run ended like this was tried like this. */
  lemma StartedIsTried(items: seq<Execution>, started: seq<Execution>, after: seq<Execution>, id: nat,
                       rs: seq<Result>, w: World, ok: bool)
    requires id < |items| && items[id].status == Queued && w.startAudit
    requires started == items[id := items[id].(status := Running)] && Reports(started[id], true, rs, w)
    requires |after| == |items| && after == started[id := started[id].(status := after[id].status)]
    requires ok <==> w.found && !w.panics && w.saves && w.finishAudit
    requires if ok then AggregatesTo(rs, after[id].status) else after[id].status == Running
    ensures after == items[id := items[id].(status := after[id].status)]
    ensures TriedAs(items[id], after[id].status, rs, w, ok)
  {
  }

  /** What was tried without an error is handled; after an error what is not final fails if that can be audited. */
  lemma TriedIsHandled(e: Execution, tried: Status, to: Status, rs: seq<Result>, w: World, ok: bool, failed: bool)
    requires TriedAs(e, tried, rs, w, ok)
    requires ok ==> to == tried && !failed
    requires !ok ==> (failed <==> w.failAudit && tried in {Pending, Queued, Running})
    requires to == if failed then Failed else tried
    ensures HandledAs(e, to, rs, w)
  {
  }

  class ExecutionWorker {
    const service: Service
    /** The result store. */
    var results: seq<Result>

    constructor (service: Service)
      ensures this.service == service && results == []
    {
      this.service, results := service, [];
    }

    /**
     * The call is a run of the protocol's worker from the received id to its end; `s` is any protocol state
     * with these stores in which worker v received the id.
     */
    method HandleExecution(id: nat, w: World, ghost s: State, ghost v: nat) returns (ghost es: seq<Event>)
      requires Stands(s, v, id, Taken, service.repo.items, results)
      modifies service.repo, this
      ensures CanRun(s, es) && Stands(RunAll(s, es), v, id, Done, service.repo.items, results)
      ensures RunAll(s, es).runs == s.runs + Starts(old(service.repo.items), id, w)
      ensures id >= |old(service.repo.items)| ==>
                service.repo.items == old(service.repo.items) && results == old(results)
      ensures id < |old(service.repo.items)| ==> exists to, rs ::
                && Touches(old(service.repo.items), service.repo.items, id, to, old(results), results, rs)
                && HandledAs(old(service.repo.items)[id], to, rs, w)
    {
      ghost var t, rs;
      var ok, failed := true, false;
      ok, es, t, rs := RunExecutionSafely(id, w, s, v);
      ghost var tried := service.repo.items;
      if !ok {
        es, t := FailStep(s, es, t, v, id, w.failAudit, tried, results);
        failed := service.FinishExecution(id, Failed, w.failAudit);
        GuardedAt(tried, service.repo.items, id, Sources(Failed), Failed, w.failAudit, failed);
      }
      if id < |tried| {
        ghost var to := service.repo.items[id].status;
        TriedIsHandled(old(service.repo.items)[id], tried[id].status, to, rs, w, ok, failed);
        assert Touches(old(service.repo.items), service.repo.items, id, to, old(results), results, rs);
      }
    }

    /** False when it returns an error, or when the plugins panic. */
    method RunExecutionSafely(id: nat, w: World, ghost s: State, ghost v: nat)
        returns (ok: bool, ghost es: seq<Event>, ghost t: State, ghost rs: seq<Result>)
      requires Stands(s, v, id, Taken, service.repo.items, results)
      modifies service.repo, this
      ensures Leads(s, es, t) && Stands(t, v, id, if ok then Done else Failing, service.repo.items, results)
      ensures t.runs == s.runs + Starts(old(service.repo.items), id, w)
      ensures id >= |old(service.repo.items)| ==>
                !ok && service.repo.items == old(service.repo.items) && results == old(results)
      ensures id < |old(service.repo.items)| ==>
                && id < |service.repo.items|
                && Touches(old(service.repo.items), service.repo.items, id, service.repo.items[id].status,
                           old(results), results, rs)
                && TriedAs(old(service.repo.items)[id], service.repo.items[id].status, rs, w, ok)
    {
      es, t, rs := [], s, [];
      var e := service.repo.GetByID(id);
      Found(service.repo.items, id);
      if e.None? {
        es, t := BreakStep(s, es, t, v, id, Taken, service.repo.items, results);
        return false, es, t, [];
      }
      es, t := LoadStep(s, es, t, v, id, service.repo.items, results);
      if e.value.status == Canceled {
        return true, es, t, [];
      }
      ok, es, t, rs := StartAndRun(id, e.value.pluginIds, w, s, es, t, v);
    }

    /** From MarkRunning on. */
    method StartAndRun(id: nat, pluginIds: seq<string>, w: World,
                       ghost s: State, ghost es: seq<Event>, ghost t: State, ghost v: nat)
        returns (ok: bool, ghost es': seq<Event>, ghost t': State, ghost rs: seq<Result>)
      requires Leads(s, es, t) && Stands(t, v, id, Loaded, service.repo.items, results)
      requires id < |service.repo.items| && service.repo.items[id].pluginIds == pluginIds
      requires service.repo.items[id].status != Canceled
      modifies service.repo, this
      ensures Leads(s, es', t') && Stands(t', v, id, if ok then Done else Failing, service.repo.items, results)
      ensures t'.runs == t.runs + Starts(old(service.repo.items), id, w)
      ensures && id < |service.repo.items|
              && Touches(old(service.repo.items), service.repo.items, id, service.repo.items[id].status,
                         old(results), results, rs)
              && TriedAs(old(service.repo.items)[id], service.repo.items[id].status, rs, w, ok)
    {
      rs := [];
      ghost var loaded := service.repo.items;
      es', t' := StartStep(s, es, t, v, id, w.startAudit, loaded, results);
      ok := service.MarkRunning(id, w.startAudit);
      GuardedAt(loaded, service.repo.items, id, {Queued}, Running, w.startAudit, ok);
      if ok {
        ghost var started := service.repo.items;
        ok, es', t', rs := RunAndSave(id, pluginIds, w, s, es', t', v);
        StartedIsTried(loaded, started, service.repo.items, id, rs, w, ok);
      }
    }

    /** The plugins, their results, and the final status. */
    method RunAndSave(id: nat, pluginIds: seq<string>, w: World,
                      ghost s: State, ghost es: seq<Event>, ghost t: State, ghost v: nat)
        returns (ok: bool, ghost es': seq<Event>, ghost t': State, ghost rs: seq<Result>)
      requires Leads(s, es, t) && Stands(t, v, id, Started, service.repo.items, results)
      requires id < |service.repo.items| && service.repo.items[id].pluginIds == pluginIds
      requires service.repo.items[id].status == Running
      modifies service.repo, this
      ensures Leads(s, es', t') && Stands(t', v, id, if ok then Done else Failing, service.repo.items, results)
      ensures t'.runs == t.runs
      ensures ok <==> w.found && !w.panics && w.saves && w.finishAudit
      ensures id < |service.repo.items| && Reports(old(service.repo.items)[id], true, rs, w)
      ensures Touches(old(service.repo.items), service.repo.items, id, service.repo.items[id].status,
                      old(results), results, rs)
      ensures if ok then AggregatesTo(rs, service.repo.items[id].status) else service.repo.items[id].status == Running
    {
      ghost var items := service.repo.items;
      rs := [];
      if !w.found || w.panics {
        es', t' := BreakStep(s, es, t, v, id, Started, items, results);
        return false, es', t', [];
      }
      var out := RunPlugins(id, pluginIds, w.outcome);
      es', t' := PluginsStep(s, es, t, v, id, out, items, results);
      if !w.saves {
        es', t' := BreakStep(s, es', t', v, id, Ran(out), items, results);
        return false, es', t', [];
      }
      rs := out;
      es', t' := SaveStep(s, es', t', v, id, out, items, results);
      results := results + out;
      es', t' := FinishStep(s, es', t', v, id, out, w.finishAudit, items, results);
      var final := AggregateExecutionStatus(out);
      ok := service.FinishExecution(id, final, w.finishAudit);
      TableIsEdges(Running, final);
      GuardedAt(items, service.repo.items, id, Sources(final), final, w.finishAudit, ok);
    }
  }
}
