/** The local service's calls, as their contracts state them, are runs of the local state machine. */
module LocalCalls {
  import opened Executions
  import opened ExecutionRepository
  import opened ExecutionService
  import opened LocalProtocol

  /** The stores a call leaves, in an otherwise unchanged state. */
  ghost predicate Leaves(s: State, es: seq<Event>, items: seq<Execution>, queue: seq<nat>) {
    exists t :: Leads(s, es, t) && t == s.(items := items, queue := queue)
  }

  /** A cancel is one step, or none when the user may not or the table does not allow it. */
  lemma CancelCallIsRun(s: State, id: nat, allowed: bool, items: seq<Execution>) returns (es: seq<Event>)
    requires Ids(s.items) && s.recovering == []
    requires allowed ==> IndexOf(s.items, id) < |s.items| && CanCancel(s.items[IndexOf(s.items, id)].status)
    requires items == if allowed then SetStatus(s.items, id, Canceled) else s.items
    ensures Leaves(s, es, items, s.queue) && es == if allowed then [Cancel(id)] else []
  {
    assert Leads(s, [], s);
    if allowed {
      LeadsOn(s, [], s, Cancel(id));
      es := [] + [Cancel(id)];
      assert Leads(s, es, Step(s, Cancel(id)));
    } else {
      es := [];
    }
  }

  /** A creation whose key is in use is one step that changes nothing. */
  lemma RefusedCallIsRun(s: State, e: Execution) returns (es: seq<Event>)
    requires s.recovering == [] && e.id == |s.items| && e.status == Pending && !CreateRecord(s.items, e).2
    ensures Leaves(s, es, s.items, s.queue) && es == [Create(e)]
  {
    assert Leads(s, [], s);
    LeadsOn(s, [], s, Create(e));
    es := [] + [Create(e)];
    assert Leads(s, es, s);
  }

  /** What a creation that made a record leaves, by its outcome. */
  function Final(r: CreateOutcome): Status {
    if r.AuditFailed? then Pending else if r.QueueFull? then Failed else Queued
  }

  lemma StoredIsRun(s: State, e: Execution) returns (es: seq<Event>, t: State)
    requires s.recovering == [] && e.id == |s.items| && e.status == Pending && CreateRecord(s.items, e).2
    ensures Leads(s, es, t) && t == s.(items := s.items + [e], creating := s.creating[e.id := Stored])
  {
    assert Leads(s, [], s);
    LeadsOn(s, [], s, Create(e));
    es, t := [] + [Create(e)], Step(s, Create(e));
  }

  lemma MarkedIsRun(s: State, e: Execution) returns (es: seq<Event>, t: State)
    requires Ids(s.items) && s.recovering == [] && e.id == |s.items| && e.status == Pending &&
             CreateRecord(s.items, e).2
    ensures Leads(s, es, t)
    ensures t == s.(items := s.items + [e.(status := Queued)], creating := s.creating[e.id := MarkedQueued])
  {
    var before, stored := StoredIsRun(s, e);
    MarkStep(s, e, stored);
    LeadsOn(s, before, stored, CreatorMarks(e.id));
    es, t := before + [CreatorMarks(e.id)], Step(stored, CreatorMarks(e.id));
  }

  lemma MarkStep(s: State, e: Execution, t: State)
    requires Ids(s.items) && e.id == |s.items| && e.status == Pending
    requires t == s.(items := s.items + [e], creating := s.creating[e.id := Stored])
    ensures Enabled(t, CreatorMarks(e.id))
    ensures Step(t, CreatorMarks(e.id)) == s.(items := s.items + [e.(status := Queued)],
                                              creating := s.creating[e.id := MarkedQueued])
  {
    Writes(t.items, e.id, Queued);
    assert With(t.items, e.id, Queued) == s.items + [e.(status := Queued)];
  }

  lemma UnauditedIsRun(s: State, e: Execution) returns (es: seq<Event>)
    requires s.recovering == [] && e.id == |s.items| && e.status == Pending && e.id !in s.creating &&
             CreateRecord(s.items, e).2
    ensures Leaves(s, es, s.items + [e], s.queue)
  {
    var before, stored := StoredIsRun(s, e);
    LeadsOn(s, before, stored, CreatorStops(e.id));
    es := before + [CreatorStops(e.id)];
    assert Leads(s, es, Step(stored, CreatorStops(e.id)));
  }

  /** It is the insert, then the audit failure, or the mark and the send, or the mark, the rejection and the failure. */
  lemma CreateCallIsRun(s: State, e: Execution, r: CreateOutcome) returns (es: seq<Event>)
    requires Ids(s.items) && s.recovering == [] && e.id == |s.items| && e.status == Pending && e.id !in s.creating
    requires CreateRecord(s.items, e).2 && (r.AuditFailed? || r.QueueFull? || r.Created?)
    requires r.Created? ==> |s.queue| < s.size
    ensures Leaves(s, es, s.items + [e.(status := Final(r))], if r.Created? then s.queue + [e.id] else s.queue)
  {
    if r.AuditFailed? {
      es := UnauditedIsRun(s, e);
    } else {
      var before, marked := MarkedIsRun(s, e);
      if r.Created? {
        es := SentIsRun(s, before, marked, e);
      } else {
        es := RejectedIsRun(s, before, marked, e);
      }
    }
  }

  lemma SentIsRun(s: State, before: seq<Event>, t: State, e: Execution) returns (es: seq<Event>)
    requires e.id !in s.creating && Leads(s, before, t) && |s.queue| < s.size
    requires t == s.(items := s.items + [e.(status := Queued)], creating := s.creating[e.id := MarkedQueued])
    ensures Leaves(s, es, s.items + [e.(status := Queued)], s.queue + [e.id])
  {
    LeadsOn(s, before, t, Submit(e.id));
    es := before + [Submit(e.id)];
    assert Leads(s, es, Step(t, Submit(e.id)));
  }

  lemma RejectedIsRun(s: State, before: seq<Event>, t: State, e: Execution) returns (es: seq<Event>)
    requires Ids(s.items) && e.id == |s.items| && e.id !in s.creating && Leads(s, before, t)
    requires t == s.(items := s.items + [e.(status := Queued)], creating := s.creating[e.id := MarkedQueued])
    ensures Leaves(s, es, s.items + [e.(status := Failed)], s.queue)
  {
    LeadsOn(s, before, t, SubmitFails(e.id));
    var u := Step(t, SubmitFails(e.id));
    FailStep(s, e, u);
    LeadsOn(s, before + [SubmitFails(e.id)], u, WriteFailed(e.id));
    es := before + [SubmitFails(e.id)] + [WriteFailed(e.id)];
    assert Leads(s, es, Step(u, WriteFailed(e.id)));
  }

  lemma FailStep(s: State, e: Execution, t: State)
    requires Ids(s.items) && e.id == |s.items| && e.id !in s.creating
    requires t == s.(items := s.items + [e.(status := Queued)], creating := s.creating[e.id := Rejected])
    ensures Enabled(t, WriteFailed(e.id))
    ensures Step(t, WriteFailed(e.id)) == s.(items := s.items + [e.(status := Failed)])
  {
    Writes(t.items, e.id, Failed);
    assert With(t.items, e.id, Failed) == s.items + [e.(status := Failed)];
  }

  // ---------------------------------------------------------------- recovery

  /** The state after the first k items of the recovery list. */
  ghost predicate Recovered(s: State, k: nat, t: State) {
    var items := FilterIncomplete(s.items);
    && k <= |items| && HandledUpTo(s.items, t.items, k)
    && t == s.(items := t.items, queue := s.queue + WaitingIds(items[..k]), recovering := items[k..])
  }

  /** What a recovery step writes. */
  lemma NextItems(t: State, sent: bool)
    requires t.recovering != [] && Incomplete(t.recovering[0].status)
    requires var i := IndexOf(t.items, t.recovering[0].id); i < |t.items| && t.items[i] == t.recovering[0]
    ensures var e := t.recovering[0];
            var u := RecoverNext(t, sent);
            u.items == (if e.status == Queued then t.items
                        else SetStatus(t.items, e.id, ExecutionService.Recovered(e.status)))
    ensures var e := t.recovering[0];
            var u := RecoverNext(t, sent);
            var left := if sent || !Waiting(e.status) then t.recovering[1..] else [];
            u == t.(items := u.items, recovering := left,
                    queue := if sent && Waiting(e.status) then t.queue + [e.id] else t.queue)
  {
  }

  /** The store after one more item. */
  lemma RecoverOneItem(s: State, k: nat, t: State, sent: bool)
    requires Ids(s.items) && Recovered(s, k, t) && k < |FilterIncomplete(s.items)|
    ensures t.recovering != [] && t.recovering[0] == FilterIncomplete(s.items)[k]
    ensures Incomplete(t.recovering[0].status) && HandledUpTo(s.items, RecoverNext(t, sent).items, k + 1)
    ensures var i := IndexOf(t.items, t.recovering[0].id); i < |t.items| && t.items[i] == t.recovering[0]
  {
    var at := PositionOf(s.items, k);
    HandleOne(s.items, t.items, k, at);
    NextItems(t, sent);
  }

  /** One more item, sent or not. */
  lemma RecoverOneStep(s: State, k: nat, t: State, sent: bool, u: State)
    requires Ids(s.items) && Recovered(s, k, t) && k < |FilterIncomplete(s.items)| && u == RecoverNext(t, sent)
    ensures var e := FilterIncomplete(s.items)[k];
            if sent || !Waiting(e.status) then Recovered(s, k + 1, u)
            else HandledUpTo(s.items, u.items, k + 1) && u == t.(items := u.items, recovering := [])
  {
    var items := FilterIncomplete(s.items);
    RecoverOneItem(s, k, t, sent);
    NextItems(t, sent);
    WaitingIdsStep(items, k);
    assert items[k..][1..] == items[k + 1..];
  }

  /** As long as the queue takes them, the items are handled one step each. */
  lemma {:induction false} RecoveryLeads(s: State, k: nat) returns (es: seq<Event>, t: State)
    requires Ids(s.items) && s.recovering == FilterIncomplete(s.items) && k <= |s.recovering|
    requires |s.queue| + |WaitingIds(s.recovering[..k])| <= s.size
    ensures Leads(s, es, t) && Recovered(s, k, t)
    decreases k
  {
    if k == 0 {
      es, t := [], s;
      RecoveryStart(s);
    } else {
      WaitingIdsStep(s.recovering, k - 1);
      var before, m := RecoveryLeads(s, k - 1);
      es, t := RecoveryLeadsOn(s, k - 1, before, m);
    }
  }

  lemma RecoveryLeadsOn(s: State, k: nat, before: seq<Event>, m: State) returns (es: seq<Event>, t: State)
    requires Ids(s.items) && s.recovering == FilterIncomplete(s.items) && k < |s.recovering|
    requires |s.queue| + |WaitingIds(s.recovering[..k + 1])| <= s.size
    requires Leads(s, before, m) && Recovered(s, k, m)
    ensures Leads(s, es, t) && Recovered(s, k + 1, t)
  {
    RecoverOneItem(s, k, m, true);
    WaitingIdsStep(s.recovering, k);
    var sent := Waiting(s.recovering[k].status);
    RecoverOneStep(s, k, m, sent, RecoverNext(m, sent));
    LeadsOn(s, before, m, Recover(sent));
    es, t := before + [Recover(sent)], Step(m, Recover(sent));
  }

  lemma RecoveryStart(s: State)
    requires s.recovering == FilterIncomplete(s.items)
    ensures Leads(s, [], s) && Recovered(s, 0, s)
  {
    assert s.recovering[0..] == s.recovering;
  }

  lemma HandledIsUnique(before: seq<Execution>, a: seq<Execution>, b: seq<Execution>, k: nat)
    requires HandledUpTo(before, a, k) && HandledUpTo(before, b, k)
    ensures a == b
  {
  }

  /**
   * What RecoverIncompleteExecutions leaves, as its contract states it, is what a run of recovery steps
   * from the restart leaves: the list is worked off, or given up at an item that is not sent.
   */
  lemma RecoveryCallIsRun(s: State, after: seq<Execution>, sent: seq<nat>, ok: bool, handled: nat)
      returns (es: seq<Event>)
    requires Ids(s.items) && s.recovering == FilterIncomplete(s.items) && |sent| <= s.size
    requires ListHandled(s.items, after, s.queue, sent, ok, handled)
    ensures Leads(s, es, s.(items := after, queue := sent, recovering := []))
  {
    var items := s.recovering;
    var t;
    if ok {
      assert items[..handled] == items;
      es, t := RecoveryLeads(s, handled);
    } else {
      var m;
      es, m := RecoveryLeads(s, handled - 1);
      RecoverOneStep(s, handled - 1, m, false, RecoverNext(m, false));
      LeadsOn(s, es, m, Recover(false));
      es, t := es + [Recover(false)], Step(m, Recover(false));
    }
    HandledIsUnique(s.items, t.items, after, handled);
  }
}
