/** The local execution service and its in-memory queue. Each call runs alone; see LocalProtocol for interleavings. */
module ExecutionService {
  import opened Options
  import opened Lists
  import opened Executions
  import opened Digests
  import opened ExecutionRepository
  import opened Scopes

  /** A buffered channel of execution ids. */
  class ExecutionQueue {
    const size: nat
    var ch: seq<nat>

    constructor (size: nat)
      ensures this.size == size && ch == []
    {
      this.size := size;
      ch := [];
    }

    /**
     * Sends without blocking. When the buffer has room and the context is done both cases are ready
     * and the runtime picks either: `send` is its choice.
     */
    method Submit(id: nat, ctxDone: bool, send: bool) returns (ok: bool)
      modifies this
      ensures ok <==> |old(ch)| < size && (!ctxDone || send)
      ensures ch == if ok then old(ch) + [id] else old(ch)
    {
      if |ch| < size && (!ctxDone || send) {
        ch := ch + [id];
        return true;
      }
      return false;
    }

    /** What a worker's receive does. */
    method Receive() returns (id: Option<nat>)
      modifies this
      ensures old(ch) == [] ==> id == None && ch == []
      ensures old(ch) != [] ==> id == Some(old(ch)[0]) && ch == old(ch)[1..]
    {
      if |ch| == 0 {
        return None;
      }
      id := Some(ch[0]);
      ch := ch[1..];
    }
  }

  predicate CanView(user: User, e: Execution) {
    && (user.role == SuperAdmin || SameScope(user.scope, e.scope))
    && (user.role != PlainUser || e.user == user.id)
  }

  /** Whose executions a user gets to see, by role. */
  lemma CanViewByRole(user: User, e: Execution)
    ensures user.role == PlainUser ==> (CanView(user, e) <==> SameScope(user.scope, e.scope) && e.user == user.id)
    ensures user.role == Admin ==> (CanView(user, e) <==> SameScope(user.scope, e.scope))
    ensures user.role == SuperAdmin ==> CanView(user, e)
  {
  }

  /** An unfinished execution that is the user's own, or of an admin's scope, or any for a super admin. */
  ghost predicate Cancelable(user: User, e: Execution) {
    && e.status in {Pending, Queued, Running}
    && (user.role == SuperAdmin || (SameScope(user.scope, e.scope) && (user.role == Admin || e.user == user.id)))
  }

  // ---------------------------------------------------------------- guarded status changes

  predicate Transits(items: seq<Execution>, id: nat, to: Status) {
    var i := IndexOf(items, id);
    i < |items| && CanTransit(items[i].status, to)
  }

  /** Read, check the table, write: an unknown id or a missing edge leaves the list alone. */
  function Transit(items: seq<Execution>, id: nat, to: Status): seq<Execution> {
    if Transits(items, id, to) then SetStatus(items, id, to) else items
  }

  /** The statuses with an edge to this one. */
  ghost function Sources(to: Status): set<Status> {
    match to
    case Pending => {}
    case Queued => {Pending}
    case Running => {Queued}
    case Success => {Running}
    case PartialSuccess => {Running}
    case Timeout => {Running}
    case Failed => {Pending, Queued, Running}
    case Canceled => {Pending, Queued, Running}
  }

  /** The first record with the id had one of these statuses and gets the new one; no other record changes. */
  ghost predicate Moves(items: seq<Execution>, after: seq<Execution>, id: nat, from: set<Status>, to: Status) {
    exists i: nat ::
      FirstWithId(items, id, i) && items[i].status in from && after == items[i := items[i].(status := to)]
  }

  /** There is no such record, or it has none of these statuses. */
  ghost predicate Stuck(items: seq<Execution>, id: nat, from: set<Status>) {
    forall i: nat :: FirstWithId(items, id, i) ==> items[i].status !in from
  }

  /** A status change that happens exactly if it may and its audit entry could be written. */
  ghost predicate Guarded(items: seq<Execution>, after: seq<Execution>, id: nat, from: set<Status>, to: Status,
                          auditOk: bool, ok: bool)
  {
    if ok then auditOk && Moves(items, after, id, from, to)
    else after == items && (auditOk ==> Stuck(items, id, from))
  }

  lemma TransitInFields(items: seq<Execution>, id: nat, to: Status)
    ensures Transits(items, id, to) ==> Moves(items, Transit(items, id, to), id, Sources(to), to)
    ensures !Transits(items, id, to) ==> Transit(items, id, to) == items && Stuck(items, id, Sources(to))
  {
    var i := IndexOf(items, id);
    assert i < |items| ==> FirstWithId(items, id, i);
  }

  // ---------------------------------------------------------------- recovery

  predicate Waiting(s: Status) {
    s == Pending || s == Queued
  }

  function WaitingIds(items: seq<Execution>): seq<nat> {
    if items == [] then []
    else
      var front := WaitingIds(items[..|items| - 1]);
      if Waiting(items[|items| - 1].status) then front + [items[|items| - 1].id] else front
  }

  /** What recovery makes of a status: waiting work is queued, running work is failed, the rest stays. */
  function Recovered(s: Status): Status {
    if Waiting(s) then Queued else if s == Running then Failed else s
  }

  /** How many incomplete items come before position i. */
  ghost function Rank(items: seq<Execution>, i: nat): nat
    requires i <= |items|
  {
    |FilterIncomplete(items[..i])|
  }

  lemma {:induction false} FilterPrefix(items: seq<Execution>, i: nat)
    requires i <= |items|
    ensures Rank(items, i) <= |FilterIncomplete(items)|
    ensures FilterIncomplete(items[..i]) == FilterIncomplete(items)[..Rank(items, i)]
    ensures i < |items| && Incomplete(items[i].status) ==>
              Rank(items, i) < |FilterIncomplete(items)| && FilterIncomplete(items)[Rank(items, i)] == items[i]
    decreases |items|
  {
    if i == |items| {
      assert items[..i] == items;
    } else {
      var n := |items| - 1;
      FilterPrefix(items[..n], i);
      assert items[..n][..i] == items[..i];
      if i == n {
        assert items[..n] == items[..i];
      }
    }
  }

  lemma RankMonotone(items: seq<Execution>, i: nat, j: nat)
    requires i < j <= |items|
    ensures Rank(items, i) + (if Incomplete(items[i].status) then 1 else 0) <= Rank(items, j)
  {
    FilterPrefix(items[..j], i);
    assert items[..j][..i] == items[..i];
    assert items[..j][i] == items[i];
  }

  /** The position of the k-th incomplete item. */
  lemma {:induction false} PositionOf(items: seq<Execution>, k: nat) returns (i: nat)
    requires k < |FilterIncomplete(items)|
    ensures i < |items| && Incomplete(items[i].status) && Rank(items, i) == k && items[i] == FilterIncomplete(items)[k]
    decreases |items|
  {
    var n := |items| - 1;
    if k < |FilterIncomplete(items[..n])| {
      i := PositionOf(items[..n], k);
      assert items[..n][..i] == items[..i];
    } else {
      i := n;
    }
  }

  lemma {:induction false} WaitingIdsOfFilter(items: seq<Execution>)
    ensures WaitingIds(FilterIncomplete(items)) == WaitingIds(items)
    decreases |items|
  {
    if items != [] {
      var n := |items| - 1;
      WaitingIdsOfFilter(items[..n]);
      var front := FilterIncomplete(items[..n]);
      if Incomplete(items[n].status) {
        assert (front + [items[n]])[..|front|] == front;
      }
    }
  }

  lemma {:induction false} WaitingIdsPrefix(items: seq<Execution>, k: nat)
    requires k <= |items|
    ensures WaitingIds(items[..k]) <= WaitingIds(items)
    ensures k < |items| && Waiting(items[k].status) ==> |WaitingIds(items[..k])| < |WaitingIds(items)|
    decreases |items|
  {
    if k == |items| {
      assert items[..k] == items;
    } else {
      var n := |items| - 1;
      WaitingIdsPrefix(items[..n], k);
      assert items[..n][..k] == items[..k];
    }
  }

  lemma WaitingIdsStep(items: seq<Execution>, k: nat)
    requires k < |items|
    ensures WaitingIds(items[..k + 1]) ==
            WaitingIds(items[..k]) + if Waiting(items[k].status) then [items[k].id] else []
  {
    assert items[..k + 1][..k] == items[..k];
  }

  /** The ids of the items at `picked`, in order: those pending or queued. */
  ghost predicate AreWaiting(items: seq<Execution>, ids: seq<nat>, picked: seq<nat>) {
    && Increasing(picked) && |ids| == |picked|
    && (forall k :: 0 <= k < |picked| ==> picked[k] < |items| && ids[k] == items[picked[k]].id)
    && forall i: nat :: i < |items| ==> (i in picked <==> items[i].status == Pending || items[i].status == Queued)
  }

  lemma {:induction false} WaitingIdsInFields(items: seq<Execution>) returns (picked: seq<nat>)
    ensures AreWaiting(items, WaitingIds(items), picked)
  {
    picked := [];
    if items != [] {
      var front, last := items[..|items| - 1], items[|items| - 1];
      picked := WaitingIdsInFields(front);
      SelectsNext(front, seq(|picked|, k requires 0 <= k < |picked| => front[picked[k]]), picked, last);
      assert items == front + [last];
      picked := if Waiting(last.status) then picked + [|front|] else picked;
    }
  }

  /** The store after the first k incomplete items were handled. */
  ghost predicate HandledUpTo(before: seq<Execution>, after: seq<Execution>, k: nat) {
    && |after| == |before|
    && forall i :: 0 <= i < |before| ==>
         after[i] == if Rank(before, i) < k then before[i].(status := Recovered(before[i].status)) else before[i]
  }

  // ---------------------------------------------------------------- the service object

  datatype CreateOutcome =
    | InvalidArgument
    | PluginRejected
    | Conflict
    | Hit(existing: Execution)
    | AuditFailed
    | QueueFull
    | Created(execution: Execution)

  class Service {
    const repo: Repository
    const queue: ExecutionQueue
    var nextId: nat

    ghost predicate Valid()
      reads this, repo, queue
    {
      && UniqueIds(repo.items) && UniqueKeys(repo.items) && Hashed(repo.items)
      && (forall i :: 0 <= i < |repo.items| ==> repo.items[i].id < nextId)
      && |queue.ch| <= queue.size
    }

    constructor (repo: Repository, queue: ExecutionQueue)
      requires repo.items == [] && queue.ch == []
      ensures this.repo == repo && this.queue == queue && Valid()
    {
      this.repo := repo;
      this.queue := queue;
      nextId := 0;
    }

    method MarkQueued(id: nat) returns (ok: bool)
      modifies repo
      ensures repo.items == Transit(old(repo.items), id, Queued)
      ensures ok <==> Transits(old(repo.items), id, Queued)
      ensures Guarded(old(repo.items), repo.items, id, {Pending}, Queued, true, ok)
    {
      ok := ChangeStatus(id, Queued, true);
    }

    method MarkRunning(id: nat, auditOk: bool) returns (ok: bool)
      modifies repo
      ensures repo.items == if auditOk then Transit(old(repo.items), id, Running) else old(repo.items)
      ensures ok <==> auditOk && Transits(old(repo.items), id, Running)
      ensures Guarded(old(repo.items), repo.items, id, {Queued}, Running, auditOk, ok)
    {
      ok := ChangeStatus(id, Running, auditOk);
    }

    method FinishExecution(id: nat, status: Status, auditOk: bool) returns (ok: bool)
      modifies repo
      ensures repo.items == if auditOk then Transit(old(repo.items), id, status) else old(repo.items)
      ensures ok <==> auditOk && Transits(old(repo.items), id, status)
      ensures Guarded(old(repo.items), repo.items, id, Sources(status), status, auditOk, ok)
    {
      ok := ChangeStatus(id, status, auditOk);
    }

    /** Read the execution, check the edge, record the audit entry, write the status. */
    method ChangeStatus(id: nat, to: Status, auditOk: bool) returns (ok: bool)
      modifies repo
      ensures repo.items == if auditOk then Transit(old(repo.items), id, to) else old(repo.items)
      ensures ok <==> auditOk && Transits(old(repo.items), id, to)
      ensures Guarded(old(repo.items), repo.items, id, Sources(to), to, auditOk, ok)
    {
      TransitInFields(repo.items, id, to);
      var e := repo.GetByID(id);
      if e.None? || !CanTransit(e.value.status, to) || !auditOk {
        return false;
      }
      repo.UpdateStatus(id, to);
      return true;
    }

    /**
     * Cancels what the user may see and the table allows; an audit failure is reported after the status was
     * written.
     */
    method CancelExecution(user: User, id: nat, auditOk: bool) returns (ok: bool)
      modifies repo
      ensures var i := IndexOf(old(repo.items), id);
              var allowed :=
                i < |old(repo.items)| && CanView(user, old(repo.items)[i]) && CanCancel(old(repo.items)[i].status);
              && repo.items == (if allowed then SetStatus(old(repo.items), id, Canceled) else old(repo.items))
              && (ok <==> allowed && auditOk)
      ensures if exists i: nat :: FirstWithId(old(repo.items), id, i) && Cancelable(user, old(repo.items)[i])
              then Moves(old(repo.items), repo.items, id, {Pending, Queued, Running}, Canceled) && ok == auditOk
              else repo.items == old(repo.items) && !ok
    {
      assert IndexOf(repo.items, id) < |repo.items| ==> FirstWithId(repo.items, id, IndexOf(repo.items, id));
      var e := repo.GetByID(id);
      if e.None? || !CanView(user, e.value) || !CanCancel(e.value.status) {
        return false;
      }
      repo.UpdateStatus(id, Canceled);
      return auditOk;
    }

    /**
     * Creates an execution and publishes it, unless the request is malformed, its plugins cannot run,
     * or its key was used before. Only an execution that was really created changes the store.
     */
    method CreateExecution(user: User, pluginIds: seq<string>, input: Option<Input>, executable: bool, key: string,
                           auditOk: bool, ctxDone: bool, send: bool) returns (r: CreateOutcome)
      requires Valid()
      modifies this, repo, queue
      ensures Valid()
      ensures r.InvalidArgument? <==> pluginIds == [] || input.None?
      ensures r.PluginRejected? <==> pluginIds != [] && input.Some? && !executable
      ensures r.InvalidArgument? || r.PluginRejected? || r.Conflict? || r.Hit? ==>
                repo.items == old(repo.items) && queue.ch == old(queue.ch)
      ensures r.Hit? ==>
                && r.existing in old(repo.items) && r.existing.user == user.id && r.existing.key == key != ""
                && SameScope(r.existing.scope, user.scope)
                && r.existing.input == input.value && multiset(r.existing.pluginIds) == multiset(pluginIds)
      ensures r.Conflict? ==>
                key != "" &&
                exists x: Execution |
                  x in old(repo.items) && x.user == user.id && x.key == key && SameScope(x.scope, user.scope) ::
                  x.input != input.value || multiset(x.pluginIds) != multiset(pluginIds)
      ensures r.AuditFailed? || r.QueueFull? || r.Created? ==>
                && (key == "" ||
                    forall x :: x in old(repo.items) ==>
                      !(x.user == user.id && x.key == key && SameScope(x.scope, user.scope)))
                && |repo.items| == |old(repo.items)| + 1 && repo.items[..|old(repo.items)|] == old(repo.items)
                && var e := repo.items[|old(repo.items)|];
                   && e.id == old(nextId) && e.user == user.id && e.key == key && e.scope == Normalize(user.scope)
                   && e.inputHash == HashInput(e.input) && e.pluginIdsHash == HashStrings(e.pluginIds)
                   && e.pluginIds == pluginIds && e.input == input.value
                   && e.status == (if r.AuditFailed? then Pending else if r.QueueFull? then Failed else Queued)
                   && (r.Created? ==> r.execution == e)
      ensures r.AuditFailed? ==> !auditOk
      ensures r.QueueFull? ==> auditOk && (|old(queue.ch)| == queue.size || (ctxDone && !send))
      ensures r.Created? ==> auditOk && |old(queue.ch)| < queue.size && (!ctxDone || send)
      ensures queue.ch == if r.Created? then old(queue.ch) + [old(nextId)] else old(queue.ch)
    {
      if |pluginIds| == 0 || input.None? {
        return InvalidArgument;
      }
      if !executable {
        return PluginRejected;
      }
      var e := Execution(nextId, Normalize(user.scope), user.id, pluginIds, input.value, HashInput(input.value),
                         HashStrings(pluginIds), key, Pending);
      CreateRecordIsIdempotent(repo.items, e);
      ghost var before := repo.items;
      var out, created := repo.CreateWithIdempotency(e);
      if !created {
        assert SameRequestKey(out, e) && out in before;
        HashStringsIgnoresOrder(out.pluginIds, pluginIds);
        if out.inputHash != e.inputHash || out.pluginIdsHash != e.pluginIdsHash {
          return Conflict;
        }
        return Hit(out);
      }
      nextId := nextId + 1;
      r := Publish(e, auditOk, ctxDone, send, before);
    }

    /** The half of CreateExecution that follows the insert of a fresh record. */
    method Publish(e: Execution, auditOk: bool, ctxDone: bool, send: bool, ghost before: seq<Execution>)
        returns (r: CreateOutcome)
      requires repo.items == before + [e] && e.status == Pending
      requires UniqueIds(repo.items) && UniqueKeys(repo.items) && Hashed(repo.items)
      modifies repo, queue
      ensures UniqueIds(repo.items) && UniqueKeys(repo.items) && Hashed(repo.items)
      ensures r.AuditFailed? || r.QueueFull? || r.Created?
      ensures repo.items ==
              before + [e.(status := if r.AuditFailed? then Pending else if r.QueueFull? then Failed else Queued)]
      ensures r.Created? ==> r.execution == e.(status := Queued)
      ensures r.AuditFailed? ==> !auditOk
      ensures r.QueueFull? ==> auditOk && (|old(queue.ch)| >= queue.size || (ctxDone && !send))
      ensures r.Created? ==> auditOk && |old(queue.ch)| < queue.size && (!ctxDone || send)
      ensures queue.ch == if r.Created? then old(queue.ch) + [e.id] else old(queue.ch)
    {
      if !auditOk {
        return AuditFailed;
      }
      LastIndex(before, e);
      SetStatusKeeps(repo.items, e.id, Queued);
      var marked := MarkQueued(e.id);
      assert marked && repo.items == before + [e.(status := Queued)];
      var ok := queue.Submit(e.id, ctxDone, send);
      if !ok {
        LastIndex(before, e.(status := Queued));
        SetStatusKeeps(repo.items, e.id, Failed);
        repo.UpdateStatus(e.id, Failed);
        return QueueFull;
      }
      return Created(e.(status := Queued));
    }

    /** One item of the recovery list: false when it should be queued and the queue does not take it. */
    method RecoverOne(e: Execution, ctxDone: bool, send: bool, ghost before: seq<Execution>, ghost k: nat)
        returns (sent: bool)
      requires UniqueIds(before) && HandledUpTo(before, repo.items, k) && |queue.ch| <= queue.size
      requires k < |FilterIncomplete(before)| && e == FilterIncomplete(before)[k]
      modifies repo, queue
      ensures HandledUpTo(before, repo.items, k + 1)
      ensures sent <==> e.status == Running || (|old(queue.ch)| < queue.size && (!ctxDone || send))
      ensures queue.ch == if sent && Waiting(e.status) then old(queue.ch) + [e.id] else old(queue.ch)
      ensures Incomplete(e.status)
    {
      ghost var at := PositionOf(before, k);
      HandleOne(before, repo.items, k, at);
      sent := true;
      if e.status == Running {
        repo.UpdateStatus(e.id, Failed);
      } else {
        if e.status == Pending {
          var marked := MarkQueued(e.id);
        }
        sent := queue.Submit(e.id, ctxDone, send);
      }
    }

    /** The loop over the recovery list: `handled` counts the items up to and with one that was not taken. */
    method RecoverItems(items: seq<Execution>, ctxDone: nat -> bool, send: nat -> bool)
        returns (recovered: nat, ok: bool, ghost handled: nat)
      requires UniqueIds(repo.items) && items == FilterIncomplete(repo.items) && |queue.ch| <= queue.size
      modifies repo, queue
      ensures ListHandled(old(repo.items), repo.items, old(queue.ch), queue.ch, ok, handled)
      ensures |queue.ch| == |old(queue.ch)| + recovered <= queue.size
      ensures !ok ==> |queue.ch| == queue.size || (ctxDone(handled - 1) && !send(handled - 1))
    {
      ghost var before, sent0 := repo.items, queue.ch;
      recovered := 0;
      var k := 0;
      while k < |items|
        invariant 0 <= k <= |items|
        invariant Recovering(before, items, repo.items, sent0, queue.ch, k)
        invariant |queue.ch| == |sent0| + recovered <= queue.size
      {
        var sent := RecoverOne(items[k], ctxDone(k), send(k), before, k);
        if !sent {
          RecoveryGivesUp(before, items, repo.items, sent0, queue.ch, k);
          return recovered, false, k + 1;
        }
        RecoveryGoesOn(before, items, repo.items, sent0, queue.ch, k);
        if Waiting(items[k].status) {
          recovered := recovered + 1;
        }
        k := k + 1;
      }
      RecoveryEnds(before, items, repo.items, sent0, queue.ch);
      return recovered, true, k;
    }

    /**
     * After a restart: the incomplete executions, in store order. Running ones fail; waiting ones are
     * queued until the queue does not take one, because it is full or, with the context done at that item,
     * by the runtime's choice. `stop` is the position of that one in the store.
     */
    method RecoverIncompleteExecutions(ctxDone: nat -> bool, send: nat -> bool)
        returns (recovered: nat, ok: bool, ghost stop: nat, ghost handled: nat)
      requires UniqueIds(repo.items) && |queue.ch| <= queue.size
      modifies repo, queue
      ensures RecoveredUpTo(old(repo.items), repo.items, stop)
      ensures if ok then stop == |old(repo.items)|
              else stop < |old(repo.items)| &&
                   (old(repo.items)[stop].status == Pending || old(repo.items)[stop].status == Queued)
      ensures queue.ch == old(queue.ch) + WaitingIds(old(repo.items)[..stop])
      ensures exists ids, picked :: queue.ch == old(queue.ch) + ids && AreWaiting(old(repo.items)[..stop], ids, picked)
      ensures recovered == |queue.ch| - |old(queue.ch)|
      ensures |queue.ch| <= queue.size
      ensures ok ==> |old(queue.ch)| + |WaitingIds(old(repo.items))| <= queue.size
      ensures !ok ==> handled > 0 && (|queue.ch| == queue.size || (ctxDone(handled - 1) && !send(handled - 1)))
      ensures !ok && |queue.ch| == queue.size ==> |old(queue.ch)| + |WaitingIds(old(repo.items))| > queue.size
      ensures ListHandled(old(repo.items), repo.items, old(queue.ch), queue.ch, ok, handled)
    {
      ghost var before, sent0 := repo.items, queue.ch;
      var items := repo.ListIncomplete();
      recovered, ok, handled := RecoverItems(items, ctxDone, send);
      stop := RecoveryIsOver(before, items, repo.items, sent0, queue.ch, ok, handled);
    }
  }

  /** The store and the queue after the first k items of the list. */
  ghost predicate Recovering(before: seq<Execution>, items: seq<Execution>, after: seq<Execution>, sent0: seq<nat>,
                             sent: seq<nat>, k: nat)
    requires k <= |items|
  {
    items == FilterIncomplete(before) && HandledUpTo(before, after, k) && sent == sent0 + WaitingIds(items[..k])
  }

  /** The store and the queue when recovery is over, by the list: the last item handled may not have been queued. */
  ghost predicate ListHandled(before: seq<Execution>, after: seq<Execution>, sent0: seq<nat>, sent: seq<nat>, ok: bool,
                              handled: nat) {
    var items := FilterIncomplete(before);
    && HandledUpTo(before, after, handled)
    && if ok then handled == |items| && sent == sent0 + WaitingIds(items)
       else && 0 < handled <= |items| && Waiting(items[handled - 1].status)
            && sent == sent0 + WaitingIds(items[..handled - 1])
  }

  lemma RecoveryGoesOn(before: seq<Execution>, items: seq<Execution>, after: seq<Execution>, sent0: seq<nat>,
                       sent: seq<nat>, k: nat)
    requires k < |items| && items == FilterIncomplete(before) && HandledUpTo(before, after, k + 1)
    requires sent == sent0 + WaitingIds(items[..k]) + if Waiting(items[k].status) then [items[k].id] else []
    ensures Recovering(before, items, after, sent0, sent, k + 1)
  {
    WaitingIdsStep(items, k);
  }

  lemma RecoveryGivesUp(before: seq<Execution>, items: seq<Execution>, after: seq<Execution>, sent0: seq<nat>,
                        sent: seq<nat>, k: nat)
    requires k < |items| && Waiting(items[k].status) && items == FilterIncomplete(before)
    requires HandledUpTo(before, after, k + 1) && sent == sent0 + WaitingIds(items[..k])
    ensures ListHandled(before, after, sent0, sent, false, k + 1)
  {
  }

  lemma RecoveryEnds(before: seq<Execution>, items: seq<Execution>, after: seq<Execution>, sent0: seq<nat>,
                     sent: seq<nat>)
    requires Recovering(before, items, after, sent0, sent, |items|)
    ensures RecoveredUpTo(before, after, |before|)
    ensures sent == sent0 + WaitingIds(before[..|before|]) && WaitingIds(before[..|before|]) == WaitingIds(before)
    ensures ListHandled(before, after, sent0, sent, true, |items|)
  {
    FinishedAll(before, after);
    assert items[..|items|] == items;
  }

  lemma RecoveryStops(before: seq<Execution>, items: seq<Execution>, after: seq<Execution>, sent0: seq<nat>,
                      sent: seq<nat>, k: nat)
      returns (stop: nat)
    requires k < |items| && Waiting(items[k].status) && items == FilterIncomplete(before)
    requires HandledUpTo(before, after, k + 1) && sent == sent0 + WaitingIds(items[..k])
    ensures stop < |before| && Waiting(before[stop].status) && RecoveredUpTo(before, after, stop)
    ensures sent == sent0 + WaitingIds(before[..stop]) && |WaitingIds(before[..stop])| < |WaitingIds(before)|
    ensures ListHandled(before, after, sent0, sent, false, k + 1)
  {
    stop := StoppedAt(before, after, k);
  }

  lemma RecoveryIsOver(before: seq<Execution>, items: seq<Execution>, after: seq<Execution>, sent0: seq<nat>,
                       sent: seq<nat>, ok: bool, handled: nat)
      returns (stop: nat)
    requires items == FilterIncomplete(before) && ListHandled(before, after, sent0, sent, ok, handled)
    ensures RecoveredUpTo(before, after, stop)
    ensures if ok then stop == |before| && WaitingIds(before[..stop]) == WaitingIds(before)
            else && stop < |before| && (before[stop].status == Pending || before[stop].status == Queued)
                 && |WaitingIds(before[..stop])| < |WaitingIds(before)|
    ensures sent == sent0 + WaitingIds(before[..stop])
    ensures exists ids, picked :: sent == sent0 + ids && AreWaiting(before[..stop], ids, picked)
  {
    if ok {
      stop := |before|;
      assert items[..|items|] == items;
      RecoveryEnds(before, items, after, sent0, sent);
    } else {
      stop := RecoveryStops(before, items, after, sent0, sent, handled - 1);
    }
    var picked := WaitingIdsInFields(before[..stop]);
  }

  /**
   * The items before position `stop` went where recovery sends them; the one at `stop`, if any, is
   * queued in the store only; later ones are untouched.
   */
  ghost predicate RecoveredUpTo(before: seq<Execution>, after: seq<Execution>, stop: nat) {
    && |after| == |before|
    && (forall i :: 0 <= i < |before| && i < stop ==>
          var s := before[i].status;
          after[i] == before[i].(status := if s == Pending || s == Queued then Queued
                                           else if s == Running then Failed else s))
    && (stop < |before| ==> after[stop] == before[stop].(status := Queued))
    && (forall i :: stop < i < |before| ==> after[i] == before[i])
  }

  lemma LastIndex(before: seq<Execution>, e: Execution)
    requires UniqueIds(before + [e])
    ensures IndexOf(before + [e], e.id) == |before|
  {
    var i := IndexOf(before + [e], e.id);
    assert (before + [e])[|before|] == e;
  }

  lemma FoundAt(items: seq<Execution>, at: nat)
    requires UniqueIds(items) && at < |items|
    ensures IndexOf(items, items[at].id) == at
  {
    var i := IndexOf(items, items[at].id);
  }

  lemma HandledKeepsIds(before: seq<Execution>, after: seq<Execution>, k: nat)
    requires UniqueIds(before) && HandledUpTo(before, after, k)
    ensures UniqueIds(after)
  {
    assert forall i :: 0 <= i < |before| ==> after[i].id == before[i].id;
  }

  /** Handling the k-th incomplete item is one status change at its position. */
  lemma HandleOne(before: seq<Execution>, after: seq<Execution>, k: nat, at: nat)
    requires UniqueIds(before) && HandledUpTo(before, after, k)
    requires at < |before| && Incomplete(before[at].status) && Rank(before, at) == k
    ensures IndexOf(after, before[at].id) == at && after[at] == before[at]
    ensures HandledUpTo(before, SetStatus(after, before[at].id, Recovered(before[at].status)), k + 1)
    ensures before[at].status == Queued ==> HandledUpTo(before, after, k + 1)
  {
    HandledKeepsIds(before, after, k);
    FoundAt(after, at);
    forall i | 0 <= i < |before| && i != at
      ensures Incomplete(before[i].status) ==> Rank(before, i) != k
      ensures !Incomplete(before[i].status) ==> Recovered(before[i].status) == before[i].status
    {
      if i < at {
        RankMonotone(before, i, at);
      } else {
        RankMonotone(before, at, i);
      }
    }
  }

  /** The queue filled up at the k-th incomplete item. */
  lemma StoppedAt(before: seq<Execution>, after: seq<Execution>, k: nat) returns (at: nat)
    requires HandledUpTo(before, after, k + 1)
    requires k < |FilterIncomplete(before)| && Waiting(FilterIncomplete(before)[k].status)
    ensures at < |before| && Waiting(before[at].status)
    ensures RecoveredUpTo(before, after, at)
    ensures WaitingIds(before[..at]) == WaitingIds(FilterIncomplete(before)[..k])
    ensures |WaitingIds(before[..at])| < |WaitingIds(before)|
  {
    at := PositionOf(before, k);
    FilterPrefix(before, at);
    WaitingIdsOfFilter(before[..at]);
    WaitingIdsPrefix(before, at);
    forall i | 0 <= i < |before| && i != at
      ensures i < at ==> Rank(before, i) <= k
      ensures i > at ==> Rank(before, i) > k
    {
      if i < at {
        RankMonotone(before, i, at);
      } else {
        RankMonotone(before, at, i);
      }
    }
  }

  lemma FinishedAll(before: seq<Execution>, after: seq<Execution>)
    requires HandledUpTo(before, after, |FilterIncomplete(before)|)
    ensures RecoveredUpTo(before, after, |before|)
    ensures WaitingIds(before[..|before|]) == WaitingIds(FilterIncomplete(before)) == WaitingIds(before)
  {
    forall i | 0 <= i < |before|
      ensures after[i] == before[i].(status := Recovered(before[i].status))
    {
      FilterPrefix(before, i);
    }
    WaitingIdsOfFilter(before);
    assert before[..|before|] == before;
  }
}
