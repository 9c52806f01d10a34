/** The enterprise execution service: create in one transaction, cancel by a read and a compare-and-set. */
module EnterpriseExecution {
  import opened Options
  import opened Scopes
  import opened Executions
  import opened Digests
  import opened MetadataStore
  import DurableProtocol

  datatype Outcome =
    | Denied
    | InvalidArgument
    | PluginRejected
    | StoreFailed
    | Conflict
    | Hit(existing: Exec)
    | Created(created: Exec)

  /** Stored hashes are those of the stored lists. */
  ghost predicate Hashed(executions: map<string, Exec>) {
    forall id :: id in executions ==> executions[id].pluginIdsHash == HashStrings(executions[id].pluginIds)
  }

  /** The record a request asks for. */
  function Requested(id: string, user: User, pluginIds: seq<string>, input: Input, key: string): Exec {
    var scope := Normalize(user.scope);
    Exec(id, scope.tenant, scope.project, user.id, pluginIds, HashInput(input), HashStrings(pluginIds), key, Queued)
  }

  predicate MayView(user: User, e: Exec) {
    && (user.role == SuperAdmin || SameScope(user.scope, Scope(e.tenant, e.project)))
    && (user.role != PlainUser || e.user == user.id)
  }

  /** The same input, and the same plugins in any order. */
  ghost predicate SameRequest(a: Exec, b: Exec) {
    a.inputHash == b.inputHash && multiset(a.pluginIds) == multiset(b.pluginIds)
  }

  /** The record of this request: queued, in the user's scope or the default one, with the hashes of its lists. */
  ghost predicate AskedBy(e: Exec, id: string, user: User, pluginIds: seq<string>, input: Input, key: string) {
    && e.id == id && e.user == user.id && e.pluginIds == pluginIds && e.key == key && e.status == Queued
    && e.tenant == (if user.scope.tenant == "" then "tenant_default" else user.scope.tenant)
    && e.project == (if user.scope.project == "" then "project_default" else user.scope.project)
    && e.inputHash == HashInput(input) && e.pluginIdsHash == HashStrings(pluginIds)
  }

  /** e was made: nothing had its key, and it is there with its two events, its audit entry and its queue row. */
  ghost predicate MadeAs(before: DB, after: DB, e: Exec, n: nat, now: int) {
    && (forall x :: !Rival(before.executions, x, e))
    && after.executions == before.executions[e.id := e]
    && after.events == before.events + [ExecEvent(n, e.id, EventCreated, Pending),
                                        ExecEvent(n + 1, e.id, EventQueued, Queued)]
    && after.audits == before.audits + [AuditLog(n, e.id, AuditCreated)]
    && QueuesAs(before.queue, after.queue, e, Some(now), now)
    && after.attempts == before.attempts && after.results == before.results
  }

  /** An execution with e's key that asked for the same is the answer, but for its plugin list. */
  ghost predicate Answers(executions: map<string, Exec>, e: Exec, answer: Exec) {
    exists x :: Rival(executions, x, e) && SameRequest(executions[x], e) && answer == executions[x].(pluginIds := [])
  }

  /** An execution with e's key asked for something else. */
  ghost predicate Clashes(executions: map<string, Exec>, e: Exec) {
    exists x :: Rival(executions, x, e) && !SameRequest(executions[x], e)
  }

  /** It may be canceled by this user: unfinished, and their own, or of an admin's scope, or any for a super admin. */
  ghost predicate Cancelable(user: User, e: Exec) {
    && e.status in {Pending, Queued, Running}
    && (user.role == SuperAdmin ||
        (SameScope(user.scope, Scope(e.tenant, e.project)) && (user.role == Admin || e.user == user.id)))
  }

  lemma SameHashesSameRequest(a: Exec, b: Exec)
    requires a.pluginIdsHash == HashStrings(a.pluginIds) && b.pluginIdsHash == HashStrings(b.pluginIds)
    ensures SameRequest(a, b) <==> a.inputHash == b.inputHash && a.pluginIdsHash == b.pluginIdsHash
  {
    HashStringsIgnoresOrder(a.pluginIds, b.pluginIds);
  }

  class EnterpriseExecutionService {
    const store: Store
    /** The source of event and audit ids. */
    var nextId: nat

    constructor (store: Store)
      ensures this.store == store && nextId == 0
    {
      this.store, nextId := store, 0;
    }

    /**
     * `id` is the fresh id drawn, `allowed` the policy's decision, `executable` that of the plugin check.
     * A key used before is answered with the execution made for it exactly if the input is the same and the
     * plugins are a permutation, is a conflict otherwise, and changes nothing either way.
     */
    method CreateExecution(user: User, pluginIds: seq<string>, input: Option<Input>, key: string, id: string,
                           allowed: bool, executable: bool, now: int, failAt: nat) returns (r: Outcome)
      requires id !in store.db.executions && Hashed(store.db.executions)
      requires forall i :: 0 <= i < |store.db.events| ==> store.db.events[i].id < nextId
      requires forall i :: 0 <= i < |store.db.audits| ==> store.db.audits[i].id < nextId
      modifies this, store
      ensures Hashed(store.db.executions)
      ensures !r.Created? ==> store.db == old(store.db)
      ensures r.Denied? <==> !allowed
      ensures r.InvalidArgument? <==> allowed && (pluginIds == [] || input.None?)
      ensures r.PluginRejected? <==> allowed && pluginIds != [] && input.Some? && !executable
      ensures r.StoreFailed? ==> failAt < 6
      ensures r.Created? ==> MadeAs(old(store.db), store.db, r.created, old(nextId), now)
      ensures r.Created? || r.Hit? || r.Conflict? ==>
                var e := Requested(id, user, pluginIds, input.value, key);
                && AskedBy(e, id, user, pluginIds, input.value, key)
                && (r.Created? ==> r.created == e)
                && (r.Hit? ==> Answers(old(store.db.executions), e, r.existing))
                && (r.Conflict? ==> Clashes(old(store.db.executions), e))
    {
      if !allowed {
        return Denied;
      }
      if |pluginIds| == 0 || input.None? {
        return InvalidArgument;
      }
      if !executable {
        return PluginRejected;
      }
      var e := Requested(id, user, pluginIds, input.value, key);
      var evs := DurableProtocol.CreationEvents(id, nextId, nextId + 1);
      var audit := AuditLog(nextId, id, AuditCreated);
      nextId := nextId + 2;
      ghost var before := store.db;
      var made := store.CreateExecutionAndEnqueue(e, evs, audit, Some(now), now, failAt);
      CreationInserts(before.(executions := before.executions[id := e]), id, old(nextId));
      match made
      case Aborted => return StoreFailed;
      case Made(out) => return Created(out);
      case Existing(found) =>
        ghost var x :| Rival(before.executions, x, e) && found == before.executions[x].(pluginIds := []);
        SameHashesSameRequest(before.executions[x], e);
        if found.inputHash != e.inputHash || found.pluginIdsHash != e.pluginIdsHash {
          return Conflict;
        }
        return Hit(found);
    }

    /** Reads, checks, and cancels if the status is still the one read; nobody interferes here. */
    method CancelExecution(user: User, id: string, mayRead: bool, mayCancel: bool, failAt: nat)
        returns (canceled: Option<Exec>)
      modifies this, store
      ensures if id in old(store.db.executions) && mayRead && mayCancel &&
                 Cancelable(user, old(store.db.executions)[id])
              then var e := old(store.db.executions)[id];
                   && TransitionsAs(old(store.db), store.db, id, e.status, Canceled,
                                    ExecEvent(old(nextId), id, EventCanceled, Canceled),
                                    AuditLog(old(nextId), id, AuditCanceled), failAt, canceled.Some?)
                   && (canceled.Some? ==> canceled.value == e.(status := Canceled))
              else canceled == None && store.db == old(store.db)
    {
      if id !in store.db.executions || !mayRead || !MayView(user, store.db.executions[id]) {
        return None;
      }
      var e := store.db.executions[id];
      if !mayCancel || !CanCancel(e.status) {
        return None;
      }
      var n := nextId;
      nextId := nextId + 1;
      var ok := store.TransitionExecutionWithEvent(id, e.status, Canceled, ExecEvent(n, id, EventCanceled, Canceled),
                                                   AuditLog(n, id, AuditCanceled), failAt);
      if !ok {
        return None;
      }
      return Some(store.db.executions[id]);
    }
  }

  /** What a cancel that goes ahead leaves, a read and a write of the state machine's canceler leave. */
  lemma CancelCallIsRun(upsert: bool, s: DurableProtocol.State, c: nat, id: string, n: nat, failAt: nat, after: DB,
                        ok: bool)
      returns (es: seq<DurableProtocol.Event>)
    requires c !in s.cancelers && id in s.db.executions && s.db.executions[id].status in {Pending, Queued, Running}
    requires TransitionsAs(s.db, after, id, s.db.executions[id].status, Canceled,
                           ExecEvent(n, id, EventCanceled, Canceled), AuditLog(n, id, AuditCanceled), failAt, ok)
    ensures DurableProtocol.CanRun(upsert, s, es)
    ensures var t := DurableProtocol.RunAll(upsert, s, es);
            t.db == after && t.handlers == s.handlers && t.cancelers == s.cancelers
  {
    var read := DurableProtocol.CancelRead(c, id);
    var write := DurableProtocol.CancelWrite(c, n, n, failAt);
    var asked := DurableProtocol.Step(upsert, s, read);
    assert DurableProtocol.Leads(upsert, s, [], s);
    DurableProtocol.LeadsNext(upsert, s, [], s, read);
    DurableProtocol.LeadsNext(upsert, s, [] + [read], asked, write);
    es := [] + [read] + [write];
    TransitionInColumns(s.db, id, s.db.executions[id].status, Canceled, ExecEvent(n, id, EventCanceled, Canceled),
                        AuditLog(n, id, AuditCanceled), failAt);
  }

  /** Fresh ids go in. */
  lemma CreationInserts(db: DB, id: string, n: nat)
    requires id in db.executions
    requires forall i :: 0 <= i < |db.events| ==> db.events[i].id < n
    requires forall i :: 0 <= i < |db.audits| ==> db.audits[i].id < n
    ensures EventsInsert(db, DurableProtocol.CreationEvents(id, n, n + 1)) &&
            AuditInserts(db, AuditLog(n, id, AuditCreated))
  {
    var evs := DurableProtocol.CreationEvents(id, n, n + 1);
    assert db.events + evs[..0] == db.events && db.events + evs[..1] == db.events + [evs[0]];
    forall k | 0 <= k < |evs| ensures EventInserts(db.(events := db.events + evs[..k]), evs[k]) {
      assert k == 0 || k == 1;
    }
  }
}
