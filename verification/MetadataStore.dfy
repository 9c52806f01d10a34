/**
 * The transactional metadata store. Each operation is one transaction: `failAt` is the number of the
 * statement that fails, counting from 0 and counting the commit last, or any larger number when none
 * does. Each has a function that says what the transaction makes of the database, all or nothing, and
 * a method that runs its statements one by one and rolls back.
 */
module MetadataStore {
  import opened Options
  import opened Executions
  import opened Digests
  import LeaseQueue

  datatype Exec = Exec(
    id: string,
    tenant: string,
    project: string,
    user: string,
    pluginIds: seq<string>,
    inputHash: InputDigest,
    pluginIdsHash: StringsDigest,
    key: string,
    status: Status)

  datatype EventType = EventCreated | EventQueued | EventStarted | EventFinished | EventFailed | EventCanceled

  datatype ExecEvent = ExecEvent(id: nat, executionId: string, typ: EventType, status: Status)

  datatype AuditAction = AuditCreated | AuditStarted | AuditFinished | AuditCanceled

  datatype AuditLog = AuditLog(id: nat, resourceId: string, action: AuditAction)

  datatype AttemptStatus = AttemptRunning | AttemptSuccess | AttemptFailed

  datatype Attempt = Attempt(id: nat, executionId: string, attemptNo: nat, status: AttemptStatus)

  datatype ResultRow = ResultRow(executionId: string, pluginId: string, status: PluginStatus)

  datatype DB = DB(
    executions: map<string, Exec>,
    events: seq<ExecEvent>,
    audits: seq<AuditLog>,
    queue: seq<LeaseQueue.Row>,
    attempts: seq<Attempt>,
    results: seq<ResultRow>)

  predicate SameKey(a: Exec, b: Exec) {
    a.tenant == b.tenant && a.project == b.project && a.user == b.user && a.key == b.key
  }

  /** At most one execution per tenant, project, user and non-empty key: the partial unique index. */
  ghost predicate UniqueKeys(executions: map<string, Exec>) {
    forall a, b :: a in executions && b in executions && a != b && executions[a].key != "" ==>
      !SameKey(executions[a], executions[b])
  }

  /** The executions whose key the index would find in conflict with e. */
  function Conflicts(executions: map<string, Exec>, e: Exec): set<string> {
    set id | id in executions && e.key != "" && SameKey(executions[id], e)
  }

  // ---------------------------------------------------------------- primary and foreign keys

  predicate EventInserts(db: DB, ev: ExecEvent) {
    ev.executionId in db.executions && forall i :: 0 <= i < |db.events| ==> db.events[i].id != ev.id
  }

  predicate AuditInserts(db: DB, a: AuditLog) {
    forall i :: 0 <= i < |db.audits| ==> db.audits[i].id != a.id
  }

  /** All of these can be inserted, one after another. */
  predicate EventsInsert(db: DB, evs: seq<ExecEvent>) {
    forall k :: 0 <= k < |evs| ==> EventInserts(db.(events := db.events + evs[..k]), evs[k])
  }

  // ---------------------------------------------------------------- create

  /** `found` comes back without its plugin list, which the statement does not return. */
  datatype CreateResult = Aborted | Existing(found: Exec) | Made(made: Exec)

  /** What follows the first statement of a creation it takes for its own: events, audit entry, queue row. */
  function Announced(db: DB, e: Exec, evs: seq<ExecEvent>, audit: AuditLog, availableAt: Option<int>, now: int): DB {
    db.(events := db.events + evs,
        audits := db.audits + [audit],
        queue := LeaseQueue.EnqueueRows(db.queue, e.tenant, e.project, e.id, availableAt, now))
  }

  ghost predicate AnnounceTx(begin: DB, db: DB, e: Exec, evs: seq<ExecEvent>, audit: AuditLog, availableAt: Option<int>,
                             now: int,
                             failAt: nat, after: DB, r: CreateResult) {
    if failAt < |evs| + 4 || !EventsInsert(db, evs) || !AuditInserts(db, audit) then after == begin && r == Aborted
    else after == Announced(db, e, evs, audit, availableAt, now) && r == Made(e)
  }

  /**
   * The upsert on the idempotency index, then the rest for a record taken to be new. The record is
   * taken to be new when the id that comes back is the one sent, even if the upsert found it there.
   */
  ghost predicate CreateTx(db: DB, e: Exec, evs: seq<ExecEvent>, audit: AuditLog, availableAt: Option<int>, now: int,
                           failAt: nat,
                           after: DB, r: CreateResult) {
    var conflicts := Conflicts(db.executions, e);
    if failAt == 0 then after == db && r == Aborted
    else if conflicts != {} then
      exists id :: id in conflicts &&
        if id == e.id then AnnounceTx(db, db, e, evs, audit, availableAt, now, failAt, after, r)
        else after == db && r == if failAt == 1 then Aborted else Existing(db.executions[id].(pluginIds := []))
    else if e.id in db.executions then after == db && r == Aborted
    else AnnounceTx(db, db.(executions := db.executions[e.id := e]), e, evs, audit, availableAt, now, failAt, after, r)
  }

  // ---------------------------------------------------------------- transition

  /** The compare-and-set on the status. */
  predicate Swaps(db: DB, id: string, from: Status) {
    id in db.executions && db.executions[id].status == from
  }

  function WithStatus(db: DB, id: string, to: Status): DB
    requires id in db.executions
  {
    db.(executions := db.executions[id := db.executions[id].(status := to)])
  }

  function TransitionTx(db: DB, id: string, from: Status, to: Status, ev: ExecEvent, audit: AuditLog,
                        failAt: nat): (DB, bool) {
    if failAt < 4 || !Swaps(db, id, from) || !EventInserts(db, ev) || !AuditInserts(db, audit) then (db, false)
    else (WithStatus(db, id, to).(events := db.events + [ev], audits := db.audits + [audit]), true)
  }

  // ---------------------------------------------------------------- attempts

  predicate SameAttempt(a: Attempt, b: Attempt) {
    a.executionId == b.executionId && a.attemptNo == b.attemptNo
  }

  predicate AttemptClash(attempts: seq<Attempt>, a: Attempt) {
    exists i :: 0 <= i < |attempts| && (attempts[i].id == a.id || SameAttempt(attempts[i], a))
  }

  /** The row an upsert on (execution, attempt number) would update. */
  function UpsertAttempt(attempts: seq<Attempt>, a: Attempt): seq<Attempt> {
    seq(|attempts|, i requires 0 <= i < |attempts| =>
      if SameAttempt(attempts[i], a) then attempts[i].(status := a.status) else attempts[i])
  }

  /**
   * The store inserts; `upsert` selects instead the statement the attempt repository uses, which
   * updates the row of the same execution and attempt number if there is one.
   */
  function AppendAttemptTx(db: DB, a: Attempt, ev: ExecEvent, upsert: bool, failAt: nat): (DB, bool) {
    if failAt < 3 || a.executionId !in db.executions || !EventInserts(db, ev) then (db, false)
    else if upsert && exists i :: 0 <= i < |db.attempts| && SameAttempt(db.attempts[i], a) then
      (db.(attempts := UpsertAttempt(db.attempts, a), events := db.events + [ev]), true)
    else if AttemptClash(db.attempts, a) then (db, false)
    else (db.(attempts := db.attempts + [a], events := db.events + [ev]), true)
  }

  // ---------------------------------------------------------------- finalize

  /** Results, then the status, whatever it was, then the event and the audit entry. */
  function FinalizeTx(db: DB, id: string, results: seq<ResultRow>, final: Status, ev: ExecEvent, audit: AuditLog,
                      failAt: nat): (DB, bool) {
    if failAt < |results| + 4 || (results != [] && id !in db.executions)
       || !EventInserts(db, ev) || !AuditInserts(db, audit) then (db, false)
    else
      var written := if id in db.executions then WithStatus(db, id, final) else db;
      (written.(results := db.results + results, events := db.events + [ev], audits := db.audits + [audit]), true)
  }

  // ---------------------------------------------------------------- the transactions, column by column

  /** Primary and foreign keys let these events in: new ids, none twice, and executions that are there. */
  ghost predicate LetsIn(executions: map<string, Exec>, events: seq<ExecEvent>, evs: seq<ExecEvent>) {
    && (forall k :: 0 <= k < |evs| ==> evs[k].executionId in executions)
    && (forall k, i :: 0 <= k < |evs| && 0 <= i < |events| ==> events[i].id != evs[k].id)
    && (forall j, k :: 0 <= j < k < |evs| ==> evs[j].id != evs[k].id)
  }

  ghost predicate NewAudit(audits: seq<AuditLog>, audit: AuditLog) {
    forall i :: 0 <= i < |audits| ==> audits[i].id != audit.id
  }

  /** An execution of the same tenant, project and user under the same key. */
  ghost predicate Rival(executions: map<string, Exec>, id: string, e: Exec) {
    && id in executions && e.key != "" && executions[id].key == e.key
    && executions[id].tenant == e.tenant && executions[id].project == e.project && executions[id].user == e.user
  }

  /** A row that waits for its first lease, unless the queue has one for the task. */
  ghost predicate QueuesAs(before: seq<LeaseQueue.Row>, after: seq<LeaseQueue.Row>, e: Exec, availableAt: Option<int>,
                           now: int)
  {
    var visible := if availableAt == None then now else availableAt.value;
    if exists i :: 0 <= i < |before| && before[i].tenant == e.tenant && before[i].project == e.project &&
                   before[i].task == e.id
    then after == before
    else after == before + [LeaseQueue.Row(e.tenant, e.project, e.id, LeaseQueue.Ready, 0, visible, None, None, "",
                                           now)]
  }

  /**
   * What a creation does: nothing when it aborts or finds a rival under another id; otherwise the record, unless
   * it is there under its own key, all its events, its audit entry and its queue row.
   */
  ghost predicate CreatesAs(before: DB, after: DB, e: Exec, evs: seq<ExecEvent>, audit: AuditLog,
                            availableAt: Option<int>, now: int, r: CreateResult)
  {
    match r
    case Aborted => after == before
    case Existing(found) =>
      after == before && exists id :: Rival(before.executions, id, e) && id != e.id &&
                                      found == before.executions[id].(pluginIds := [])
    case Made(made) =>
      && made == e
      && (if Rival(before.executions, e.id, e) then after.executions == before.executions
          else && e.id !in before.executions && after.executions == before.executions[e.id := e]
               && forall id :: !Rival(before.executions, id, e))
      && LetsIn(after.executions, before.events, evs) && after.events == before.events + evs
      && NewAudit(before.audits, audit) && after.audits == before.audits + [audit]
      && QueuesAs(before.queue, after.queue, e, availableAt, now)
      && after.attempts == before.attempts && after.results == before.results
  }

  /** Without a failing statement only a key can stop a creation. */
  ghost predicate CreatesUnless(before: DB, e: Exec, evs: seq<ExecEvent>, audit: AuditLog, failAt: nat, r: CreateResult)
  {
    if failAt < |evs| + 4 then !r.Made? && (failAt < 2 ==> r.Aborted?)
    else if forall id :: !Rival(before.executions, id, e) then
      r.Made? <==> e.id !in before.executions && NewAudit(before.audits, audit) &&
                   LetsIn(before.executions[e.id := e], before.events, evs)
    else r.Aborted? ==>
           Rival(before.executions, e.id, e) &&
           !(LetsIn(before.executions, before.events, evs) && NewAudit(before.audits, audit))
  }

  /** A status change happens if the status is the one expected, with its event and its audit entry. */
  ghost predicate TransitionsAs(before: DB, after: DB, id: string, from: Status, to: Status, ev: ExecEvent,
                                audit: AuditLog, failAt: nat, ok: bool)
  {
    && (ok <==> && failAt >= 4 && id in before.executions && before.executions[id].status == from
                && LetsIn(before.executions, before.events, [ev]) && NewAudit(before.audits, audit))
    && after == if !ok then before
                else before.(executions := before.executions[id := before.executions[id].(status := to)],
                             events := before.events + [ev], audits := before.audits + [audit])
  }

  ghost predicate HasAttempt(attempts: seq<Attempt>, a: Attempt) {
    exists i :: 0 <= i < |attempts| && attempts[i].executionId == a.executionId && attempts[i].attemptNo == a.attemptNo
  }

  /**
   * An attempt is added, if neither its id nor its execution and number are taken; an upsert sets instead the
   * status of the one with this execution and number. The event goes with it.
   */
  ghost predicate AppendsAs(before: DB, after: DB, a: Attempt, ev: ExecEvent, upsert: bool, failAt: nat, ok: bool) {
    var found := HasAttempt(before.attempts, a);
    && (ok <==> && failAt >= 3 && a.executionId in before.executions
                && LetsIn(before.executions, before.events, [ev])
                && if found then upsert else forall i :: 0 <= i < |before.attempts| ==> before.attempts[i].id != a.id)
    && (!ok ==> after == before)
    && (ok ==> after == before.(attempts := after.attempts, events := before.events + [ev]))
    && (ok && !found ==> after.attempts == before.attempts + [a])
    && (ok && found ==> |after.attempts| == |before.attempts| && forall i :: 0 <= i < |before.attempts| ==>
          var x := before.attempts[i];
          after.attempts[i] == if x.executionId == a.executionId && x.attemptNo == a.attemptNo
                               then x.(status := a.status) else x)
  }

  /** The results are added and the execution gets its final status, whatever it had, with event and audit entry. */
  ghost predicate FinalizesAs(before: DB, after: DB, id: string, results: seq<ResultRow>, final: Status, ev: ExecEvent,
                              audit: AuditLog, failAt: nat, ok: bool)
  {
    && (ok <==> && failAt >= |results| + 4 && (results == [] || id in before.executions)
                && LetsIn(before.executions, before.events, [ev]) && NewAudit(before.audits, audit))
    && after == if !ok then before
                else before.(executions := if id !in before.executions then before.executions
                                           else before.executions[id := before.executions[id].(status := final)],
                             results := before.results + results,
                             events := before.events + [ev], audits := before.audits + [audit])
  }

  lemma EventsLetIn(db: DB, evs: seq<ExecEvent>)
    ensures EventsInsert(db, evs) <==> LetsIn(db.executions, db.events, evs)
  {
    forall k | 0 <= k < |evs|
      ensures EventInserts(db.(events := db.events + evs[..k]), evs[k]) <==>
              && evs[k].executionId in db.executions
              && (forall i :: 0 <= i < |db.events| ==> db.events[i].id != evs[k].id)
              && (forall j :: 0 <= j < k ==> evs[j].id != evs[k].id)
    {
      var seen := db.events + evs[..k];
      assert forall i :: 0 <= i < |db.events| ==> seen[i] == db.events[i];
      assert forall j :: 0 <= j < k ==> seen[|db.events| + j] == evs[j];
    }
  }

  lemma EventLetIn(db: DB, ev: ExecEvent)
    ensures EventInserts(db, ev) <==> LetsIn(db.executions, db.events, [ev])
  {
    assert [ev][0] == ev;
  }

  lemma AnnounceInColumns(begin: DB, db: DB, e: Exec, evs: seq<ExecEvent>, audit: AuditLog, availableAt: Option<int>,
                          now: int, failAt: nat, after: DB, r: CreateResult)
    requires AnnounceTx(begin, db, e, evs, audit, availableAt, now, failAt, after, r)
    ensures r.Made? <==> failAt >= |evs| + 4 && LetsIn(db.executions, db.events, evs) && NewAudit(db.audits, audit)
    ensures r == Made(e) || (r == Aborted && after == begin)
    ensures r.Made? ==>
              && after == db.(events := db.events + evs, audits := db.audits + [audit], queue := after.queue)
              && QueuesAs(db.queue, after.queue, e, availableAt, now)
  {
    EventsLetIn(db, evs);
  }

  lemma CreateInColumns(db: DB, e: Exec, evs: seq<ExecEvent>, audit: AuditLog, availableAt: Option<int>, now: int,
                        failAt: nat, after: DB, r: CreateResult)
    requires CreateTx(db, e, evs, audit, availableAt, now, failAt, after, r)
    ensures CreatesAs(db, after, e, evs, audit, availableAt, now, r)
    ensures CreatesUnless(db, e, evs, audit, failAt, r)
  {
    var conflicts := Conflicts(db.executions, e);
    assert forall id :: id in conflicts <==> Rival(db.executions, id, e);
    if failAt > 0 && conflicts != {} {
      var id :| id in conflicts &&
                if id == e.id then AnnounceTx(db, db, e, evs, audit, availableAt, now, failAt, after, r)
                else after == db && r == if failAt == 1 then Aborted else Existing(db.executions[id].(pluginIds := []));
      if id == e.id {
        AnnounceInColumns(db, db, e, evs, audit, availableAt, now, failAt, after, r);
      }
    } else if failAt > 0 && e.id !in db.executions {
      AnnounceInColumns(db, db.(executions := db.executions[e.id := e]), e, evs, audit, availableAt, now, failAt,
                        after, r);
    }
  }

  lemma TransitionInColumns(db: DB, id: string, from: Status, to: Status, ev: ExecEvent, audit: AuditLog, failAt: nat)
    ensures var (after, ok) := TransitionTx(db, id, from, to, ev, audit, failAt);
            TransitionsAs(db, after, id, from, to, ev, audit, failAt, ok)
  {
    EventLetIn(db, ev);
  }

  lemma AppendInColumns(db: DB, a: Attempt, ev: ExecEvent, upsert: bool, failAt: nat)
    ensures var (after, ok) := AppendAttemptTx(db, a, ev, upsert, failAt);
            AppendsAs(db, after, a, ev, upsert, failAt, ok)
  {
    EventLetIn(db, ev);
    assert HasAttempt(db.attempts, a) <==> exists i :: 0 <= i < |db.attempts| && SameAttempt(db.attempts[i], a);
  }

  lemma FinalizeInColumns(db: DB, id: string, results: seq<ResultRow>, final: Status, ev: ExecEvent, audit: AuditLog,
                          failAt: nat)
    ensures var (after, ok) := FinalizeTx(db, id, results, final, ev, audit, failAt);
            FinalizesAs(db, after, id, results, final, ev, audit, failAt, ok)
  {
    EventLetIn(db, ev);
  }

  // ---------------------------------------------------------------- the store object

  class Store {
    var db: DB
    /** False for the insert AppendAttempt issues; true puts the attempt repository's upsert in its place. */
    const upserts: bool

    constructor (upserts: bool)
      ensures db == DB(map[], [], [], [], [], []) && this.upserts == upserts
    {
      db := DB(map[], [], [], [], [], []);
      this.upserts := upserts;
    }

    method CreateExecutionAndEnqueue(e: Exec, evs: seq<ExecEvent>, audit: AuditLog, availableAt: Option<int>, now: int,
                                     failAt: nat)
        returns (r: CreateResult)
      modifies this
      ensures CreateTx(old(db), e, evs, audit, availableAt, now, failAt, db, r)
      ensures CreatesAs(old(db), db, e, evs, audit, availableAt, now, r)
      ensures CreatesUnless(old(db), e, evs, audit, failAt, r)
    {
      ghost var before := db;
      r := RunCreation(e, evs, audit, availableAt, now, failAt);
      CreateInColumns(before, e, evs, audit, availableAt, now, failAt, db, r);
    }

    /** The statements and the rollback. */
    method RunCreation(e: Exec, evs: seq<ExecEvent>, audit: AuditLog, availableAt: Option<int>, now: int, failAt: nat)
        returns (r: CreateResult)
      modifies this
      ensures CreateTx(old(db), e, evs, audit, availableAt, now, failAt, db, r)
    {
      var begin := db;
      if failAt == 0 {
        return Aborted;
      }
      var conflicts := Conflicts(db.executions, e);
      if conflicts != {} {
        var id :| id in conflicts;
        if id != e.id {
          return if failAt == 1 then Aborted else Existing(db.executions[id].(pluginIds := []));
        }
      } else if e.id in db.executions {
        return Aborted;
      } else {
        db := db.(executions := db.executions[e.id := e]);
      }
      r := Announce(e, evs, audit, availableAt, now, failAt);
      if r == Aborted {
        db := begin;
      }
    }

    /** The statements after the first, without the rollback. */
    method Announce(e: Exec, evs: seq<ExecEvent>, audit: AuditLog, availableAt: Option<int>, now: int, failAt: nat)
        returns (r: CreateResult)
      requires failAt > 0
      modifies this
      ensures r == if failAt < |evs| + 4 || !EventsInsert(old(db), evs) || !AuditInserts(old(db), audit) then Aborted
                   else Made(e)
      ensures r == Made(e) ==> db == Announced(old(db), e, evs, audit, availableAt, now)
    {
      ghost var begin := db;
      for k := 0 to |evs|
        invariant k < failAt
        invariant db == begin.(events := begin.events + evs[..k])
        invariant forall j :: 0 <= j < k ==> EventInserts(begin.(events := begin.events + evs[..j]), evs[j])
      {
        if failAt == k + 1 || !EventInserts(db, evs[k]) {
          return Aborted;
        }
        db := db.(events := db.events + [evs[k]]);
        assert begin.events + evs[..k] + [evs[k]] == begin.events + evs[..k + 1];
      }
      assert evs[..|evs|] == evs;
      if failAt == |evs| + 1 || !AuditInserts(db, audit) {
        return Aborted;
      }
      db := db.(audits := db.audits + [audit]);
      if failAt == |evs| + 2 {
        return Aborted;
      }
      db := db.(queue := LeaseQueue.EnqueueRows(db.queue, e.tenant, e.project, e.id, availableAt, now));
      if failAt == |evs| + 3 {
        return Aborted;
      }
      return Made(e);
    }

    method TransitionExecutionWithEvent(id: string, from: Status, to: Status, ev: ExecEvent, audit: AuditLog,
                                        failAt: nat) returns (ok: bool)
      modifies this
      ensures (db, ok) == TransitionTx(old(db), id, from, to, ev, audit, failAt)
      ensures TransitionsAs(old(db), db, id, from, to, ev, audit, failAt, ok)
    {
      TransitionInColumns(db, id, from, to, ev, audit, failAt);
      var begin := db;
      if failAt == 0 || !Swaps(db, id, from) {
        return false;
      }
      db := WithStatus(db, id, to);
      if failAt == 1 || !EventInserts(db, ev) {
        db := begin;
        return false;
      }
      db := db.(events := db.events + [ev]);
      if failAt == 2 || !AuditInserts(db, audit) {
        db := begin;
        return false;
      }
      db := db.(audits := db.audits + [audit]);
      if failAt == 3 {
        db := begin;
        return false;
      }
      return true;
    }

    method AppendAttempt(a: Attempt, ev: ExecEvent, failAt: nat) returns (ok: bool)
      modifies this
      ensures (db, ok) == AppendAttemptTx(old(db), a, ev, upserts, failAt)
      ensures AppendsAs(old(db), db, a, ev, upserts, failAt, ok)
    {
      AppendInColumns(db, a, ev, upserts, failAt);
      var begin := db;
      if failAt == 0 || a.executionId !in db.executions {
        return false;
      }
      if upserts && exists i :: 0 <= i < |db.attempts| && SameAttempt(db.attempts[i], a) {
        db := db.(attempts := UpsertAttempt(db.attempts, a));
      } else if AttemptClash(db.attempts, a) {
        return false;
      } else {
        db := db.(attempts := db.attempts + [a]);
      }
      if failAt == 1 || !EventInserts(db, ev) {
        db := begin;
        return false;
      }
      db := db.(events := db.events + [ev]);
      if failAt == 2 {
        db := begin;
        return false;
      }
      return true;
    }

    method AppendResultAndFinalize(id: string, results: seq<ResultRow>, final: Status, ev: ExecEvent, audit: AuditLog,
                                   failAt: nat) returns (ok: bool)
      requires forall k :: 0 <= k < |results| ==> results[k].executionId == id
      modifies this
      ensures (db, ok) == FinalizeTx(old(db), id, results, final, ev, audit, failAt)
      ensures FinalizesAs(old(db), db, id, results, final, ev, audit, failAt, ok)
    {
      FinalizeInColumns(db, id, results, final, ev, audit, failAt);
      var begin := db;
      for k := 0 to |results|
        invariant k <= failAt
        invariant k > 0 ==> id in begin.executions
        invariant db == begin.(results := begin.results + results[..k])
      {
        if failAt == k || id !in db.executions {
          db := begin;
          return false;
        }
        db := db.(results := db.results + [results[k]]);
        assert begin.results + results[..k] + [results[k]] == begin.results + results[..k + 1];
      }
      assert results[..|results|] == results;
      if failAt == |results| {
        db := begin;
        return false;
      }
      if id in db.executions {
        db := WithStatus(db, id, final);
      }
      if failAt == |results| + 1 || !EventInserts(db, ev) {
        db := begin;
        return false;
      }
      db := db.(events := db.events + [ev]);
      if failAt == |results| + 2 || !AuditInserts(db, audit) {
        db := begin;
        return false;
      }
      db := db.(audits := db.audits + [audit]);
      if failAt == |results| + 3 {
        db := begin;
        return false;
      }
      return true;
    }
  }

  // ---------------------------------------------------------------- sending the same execution twice

  /**
   * An execution sent again under its own id is never reported as already there. Either the whole
   * transaction aborts, which it must when an event or audit id repeats, or, with fresh ids, the
   * execution is announced a second time and reported as made.
   */
  lemma SameIdIsNeverExisting(db: DB, e: Exec, evs: seq<ExecEvent>, audit: AuditLog, availableAt: Option<int>, now: int,
                              failAt: nat,
                              after: DB, r: CreateResult)
    requires UniqueKeys(db.executions) && e.id in db.executions && SameKey(db.executions[e.id], e)
    requires forall id :: id in db.executions ==> db.executions[id].id == id
    requires CreateTx(db, e, evs, audit, availableAt, now, failAt, after, r)
    ensures !r.Existing?
    ensures r == Aborted ==> after == db
    ensures r.Made? <==> e.key != "" && failAt >= |evs| + 4 && EventsInsert(db, evs) && AuditInserts(db, audit)
    ensures r.Made? ==>
              after.executions == db.executions && after.events == db.events + evs &&
              after.audits == db.audits + [audit]
  {
    forall id | id in Conflicts(db.executions, e) ensures id == e.id {
      assert SameKey(db.executions[id], db.executions[e.id]);
    }
    if e.key != "" {
      assert e.id in Conflicts(db.executions, e);
    }
  }
}
