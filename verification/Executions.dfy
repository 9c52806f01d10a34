/** Execution statuses, the transition table, and what the results of the plugins add up to. */
module Executions {
  import opened Lists

  datatype Status = Pending | Queued | Running | Success | PartialSuccess | Failed | Timeout | Canceled

  predicate CanTransit(from: Status, to: Status) {
    match from
    case Pending => to == Queued || to == Canceled || to == Failed
    case Queued => to == Running || to == Canceled || to == Failed
    case Running => to == Success || to == PartialSuccess || to == Failed || to == Timeout || to == Canceled
    case _ => false
  }

  /** All edges of the table. */
  ghost const EDGES: set<(Status, Status)> := {
    (Pending, Queued), (Pending, Canceled), (Pending, Failed),
    (Queued, Running), (Queued, Canceled), (Queued, Failed),
    (Running, Success), (Running, PartialSuccess), (Running, Failed), (Running, Timeout), (Running, Canceled)
  }

  lemma TableIsEdges(from: Status, to: Status)
    ensures CanTransit(from, to) <==> (from, to) in EDGES
    ensures CanCancel(from) <==> from == Pending || from == Queued || from == Running
    ensures IsFinal(from) <==> from != Pending && from != Queued && from != Running
  {
  }

  predicate CanCancel(s: Status) {
    s == Pending || s == Queued || s == Running
  }

  predicate IsFinal(s: Status) {
    s == Success || s == PartialSuccess || s == Failed || s == Timeout || s == Canceled
  }

  /** How far an execution has come; every edge of the table raises it. */
  function Progress(s: Status): nat {
    match s case Pending => 0 case Queued => 1 case Running => 2 case _ => 3
  }

  /**
   * The three tables agree: a status is final exactly when no edge leaves it, it can be canceled exactly
   * when it has an edge to Canceled, and no edge leads back.
   */
  lemma TablesAgree(s: Status)
    ensures IsFinal(s) <==> forall t :: !CanTransit(s, t)
    ensures CanCancel(s) <==> CanTransit(s, Canceled)
    ensures forall t :: CanTransit(s, t) ==> Progress(s) < Progress(t)
  {
    if !IsFinal(s) {
      assert CanTransit(s, Failed);
    }
  }

  datatype PluginStatus = PluginSuccess | PluginFailed | PluginTimeout | InvalidOutput | RuntimeError | PluginCanceled

  datatype Result = Result(executionId: nat, pluginId: string, status: PluginStatus, durationMs: int)

  /** What the results of an execution mean, said of all of them at once. */
  function Aggregate(results: seq<Result>): Status {
    if results == [] then Failed
    else if forall i :: 0 <= i < |results| ==> results[i].status == PluginSuccess then Success
    else if exists i :: 0 <= i < |results| && results[i].status == PluginSuccess then PartialSuccess
    else if forall i :: 0 <= i < |results| ==> results[i].status == PluginTimeout then Timeout
    else Failed
  }

  /** The positions of the results with this status. */
  ghost function Those(results: seq<Result>, status: PluginStatus): set<nat> {
    set i: nat | i < |results| && results[i].status == status
  }

  /** Counted out: all succeeded, some did, none did and all timed out, or none of these. */
  ghost predicate AggregatesTo(results: seq<Result>, final: Status) {
    var n, ok, late := |results|, |Those(results, PluginSuccess)|, |Those(results, PluginTimeout)|;
    && (final == Success <==> n > 0 && ok == n)
    && (final == PartialSuccess <==> 0 < ok < n)
    && (final == Timeout <==> n > 0 && ok == 0 && late == n)
    && (final == Failed <==> n == 0 || (ok == 0 && late < n))
  }

  lemma AllOrNone(results: seq<Result>, status: PluginStatus)
    ensures |Those(results, status)| <= |results|
    ensures |Those(results, status)| == |results| <==>
            forall i :: 0 <= i < |results| ==> results[i].status == status
    ensures |Those(results, status)| > 0 <==> exists i :: 0 <= i < |results| && results[i].status == status
  {
    var all := Below(|results|);
    SubsetCount(Those(results, status), all);
    if exists i :: 0 <= i < |results| && results[i].status == status {
      var i :| 0 <= i < |results| && results[i].status == status;
      assert i in Those(results, status);
    }
    if |Those(results, status)| == |results| {
      forall i | 0 <= i < |results| ensures results[i].status == status {
        assert i in all;
      }
    }
    if forall i :: 0 <= i < |results| ==> results[i].status == status {
      assert Those(results, status) == all;
    }
  }

  ghost function Below(n: nat): (s: set<nat>)
    ensures |s| == n && forall j: nat :: j in s <==> j < n
  {
    if n == 0 then {} else Below(n - 1) + {n - 1}
  }

  lemma AggregateByCounts(results: seq<Result>)
    ensures AggregatesTo(results, Aggregate(results))
  {
    AllOrNone(results, PluginSuccess);
    AllOrNone(results, PluginTimeout);
  }

  /** The counting loop computes that meaning. */
  method AggregateExecutionStatus(results: seq<Result>) returns (final: Status)
    ensures final == Aggregate(results) && AggregatesTo(results, final)
    ensures CanTransit(Running, final) && final != Canceled
  {
    AggregateByCounts(results);
    if |results| == 0 {
      return Failed;
    }
    var success, timeout := 0, 0;
    for k := 0 to |results|
      invariant 0 <= success <= k && 0 <= timeout <= k
      invariant success == k <==> forall i :: 0 <= i < k ==> results[i].status == PluginSuccess
      invariant success > 0 <==> exists i :: 0 <= i < k && results[i].status == PluginSuccess
      invariant timeout == k <==> forall i :: 0 <= i < k ==> results[i].status == PluginTimeout
    {
      if results[k].status == PluginSuccess {
        success := success + 1;
      }
      if results[k].status == PluginTimeout {
        timeout := timeout + 1;
      }
    }
    if success == |results| {
      return Success;
    }
    if success > 0 {
      return PartialSuccess;
    }
    if timeout == |results| {
      return Timeout;
    }
    return Failed;
  }

  datatype Summary = Summary(total: int, success: int, failed: int, timeout: int, durationMs: int)

  lemma ThoseStep(results: seq<Result>, k: nat, status: PluginStatus)
    requires k < |results|
    ensures |Those(results[..k + 1], status)| ==
            |Those(results[..k], status)| + if results[k].status == status then 1 else 0
  {
    var before := Those(results[..k], status);
    assert Those(results[..k + 1], status) == if results[k].status == status then before + {k} else before;
  }

  /** The sum is that of the parts, in whatever parts the list is taken. */
  lemma {:induction false} TotalDurationAdds(a: seq<Result>, b: seq<Result>)
    ensures TotalDuration(a + b) == TotalDuration(a) + TotalDuration(b)
    ensures |a| == 1 ==> TotalDuration(a) == a[0].durationMs
    decreases |b|
  {
    if b == [] {
      assert a + b == a;
    } else {
      TotalDurationAdds(a, b[..|b| - 1]);
      assert (a + b)[..|a + b| - 1] == a + b[..|b| - 1];
    }
  }

  function TotalDuration(results: seq<Result>): int {
    if results == [] then 0 else TotalDuration(results[..|results| - 1]) + results[|results| - 1].durationMs
  }

  /** Every result is counted once: as a success, as a timeout, or as a failure of any other kind. */
  method BuildExecutionSummary(results: seq<Result>) returns (s: Summary)
    ensures s.total == |results| == s.success + s.failed + s.timeout
    ensures s.success == |Those(results, PluginSuccess)| && s.timeout == |Those(results, PluginTimeout)|
    ensures s.durationMs == TotalDuration(results)
  {
    var ok, failed, timeout, dur := 0, 0, 0, 0;
    for k := 0 to |results|
      invariant ok + failed + timeout == k
      invariant ok == |Those(results[..k], PluginSuccess)|
      invariant timeout == |Those(results[..k], PluginTimeout)|
      invariant dur == TotalDuration(results[..k])
    {
      assert results[..k + 1][..k] == results[..k];
      ThoseStep(results, k, PluginSuccess);
      ThoseStep(results, k, PluginTimeout);
      dur := dur + results[k].durationMs;
      match results[k].status
      case PluginSuccess => ok := ok + 1;
      case PluginTimeout => timeout := timeout + 1;
      case _ => failed := failed + 1;
    }
    assert results[..|results|] == results;
    s := Summary(|results|, ok, failed, timeout, dur);
  }

  /** One result for each plugin of the request, in order. */
  ghost predicate OnePerPlugin(results: seq<Result>, executionId: nat, pluginIds: seq<string>) {
    && |results| == |pluginIds|
    && forall i :: 0 <= i < |results| ==> results[i].executionId == executionId && results[i].pluginId == pluginIds[i]
  }

  /** Runs the plugins one after another; `outcome(i)` is what the i-th run reports. */
  method RunPlugins(executionId: nat, pluginIds: seq<string>, outcome: nat -> (PluginStatus, int))
      returns (out: seq<Result>)
    ensures OnePerPlugin(out, executionId, pluginIds)
    ensures forall i :: 0 <= i < |out| ==> (out[i].status, out[i].durationMs) == outcome(i)
  {
    out := [];
    for i := 0 to |pluginIds|
      invariant |out| == i
      invariant forall j :: 0 <= j < i ==> out[j].executionId == executionId && out[j].pluginId == pluginIds[j]
      invariant forall j :: 0 <= j < i ==> (out[j].status, out[j].durationMs) == outcome(j)
    {
      var (status, ms) := outcome(i);
      out := out + [Result(executionId, pluginIds[i], status, ms)];
    }
  }
}
