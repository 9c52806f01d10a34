/** The local execution store: one list, searched from the front, updated in place. */
module ExecutionRepository {
  import opened Options
  import opened Lists
  import opened Executions
  import opened Digests
  import opened Scopes

  /** Identifiers are drawn from a counter. */
  datatype Execution = Execution(
    id: nat,
    scope: Scope,
    user: string,
    pluginIds: seq<string>,
    input: Input,
    inputHash: InputDigest,
    pluginIdsHash: StringsDigest,
    key: string,
    status: Status)

  // ---------------------------------------------------------------- what the store operations mean

  /** The position of the first item with this id, or the length if there is none. */
  function IndexOf(items: seq<Execution>, id: nat): (i: nat)
    ensures i <= |items|
    ensures i < |items| ==> items[i].id == id
    ensures forall j :: 0 <= j < i ==> items[j].id != id
  {
    FirstIndex(items, (x: Execution) => x.id == id)
  }

  function Put(items: seq<Execution>, e: Execution): seq<Execution> {
    var i := IndexOf(items, e.id);
    if i < |items| then items[i := e] else items + [e]
  }

  /** An unknown id is not an error: nothing happens. */
  function SetStatus(items: seq<Execution>, id: nat, status: Status): (r: seq<Execution>)
    ensures |r| == |items|
  {
    var i := IndexOf(items, id);
    if i < |items| then items[i := items[i].(status := status)] else items
  }

  predicate SameRequestKey(a: Execution, b: Execution) {
    SameScope(a.scope, b.scope) && a.user == b.user && a.key == b.key
  }

  function FindKeyed(items: seq<Execution>, e: Execution): (i: nat)
    ensures i <= |items|
    ensures i < |items| ==> SameRequestKey(items[i], e)
    ensures forall j :: 0 <= j < i ==> !SameRequestKey(items[j], e)
  {
    if items == [] then 0 else if SameRequestKey(items[0], e) then 0 else 1 + FindKeyed(items[1..], e)
  }

  /** The new list, the record the caller gets, and whether it was created. */
  function CreateRecord(items: seq<Execution>, e: Execution): (seq<Execution>, Execution, bool) {
    var i := FindKeyed(items, e);
    if e.key != "" && i < |items| then (items, items[i], false) else (items + [e], e, true)
  }

  predicate Incomplete(s: Status) {
    s == Pending || s == Queued || s == Running
  }

  /** The executions at `picked`, in order: those left unfinished. */
  ghost predicate AreUnfinished(items: seq<Execution>, out: seq<Execution>, picked: seq<nat>) {
    && SelectsAt(items, out, picked)
    && forall i: nat :: i < |items| ==>
         (i in picked <==> items[i].status == Pending || items[i].status == Queued || items[i].status == Running)
  }

  function FilterIncomplete(items: seq<Execution>): seq<Execution> {
    if items == [] then []
    else
      var front := FilterIncomplete(items[..|items| - 1]);
      if Incomplete(items[|items| - 1].status) then front + [items[|items| - 1]] else front
  }

  lemma {:induction false} FilterIsInOrder(items: seq<Execution>) returns (picked: seq<nat>)
    ensures AreUnfinished(items, FilterIncomplete(items), picked)
  {
    picked := [];
    if items != [] {
      var front, last := items[..|items| - 1], items[|items| - 1];
      picked := FilterIsInOrder(front);
      SelectsNext(front, FilterIncomplete(front), picked, last);
      assert items == front + [last];
      picked := if Incomplete(last.status) then picked + [|front|] else picked;
    }
  }

  // ---------------------------------------------------------------- the operations in fields

  /** The i-th record is the first with this id. */
  ghost predicate FirstWithId(items: seq<Execution>, id: nat, i: nat) {
    i < |items| && items[i].id == id && forall j :: 0 <= j < i ==> items[j].id != id
  }

  /** A record made for the same key by the same user in the same scope. */
  ghost predicate Answers(x: Execution, e: Execution) {
    e.key != "" && x.key == e.key && x.user == e.user && SameScope(x.scope, e.scope)
  }

  /** The first record that answers the request, if there is one, and otherwise a new one at the end. */
  ghost predicate CreatesTo(items: seq<Execution>, e: Execution, after: seq<Execution>, out: Execution, created: bool) {
    && (created <==> forall i :: 0 <= i < |items| ==> !Answers(items[i], e))
    && (created ==> after == items + [e] && out == e)
    && (!created ==> after == items && exists i ::
          && 0 <= i < |items| && out == items[i] && Answers(items[i], e)
          && forall j :: 0 <= j < i ==> !Answers(items[j], e))
  }

  // ---------------------------------------------------------------- what every list keeps

  ghost predicate UniqueIds(items: seq<Execution>) {
    forall i, j :: 0 <= i < j < |items| ==> items[i].id != items[j].id
  }

  /** At most one execution per scope, user and non-empty idempotency key. */
  ghost predicate UniqueKeys(items: seq<Execution>) {
    forall i, j :: 0 <= i < j < |items| && items[i].key != "" ==> !SameRequestKey(items[i], items[j])
  }

  ghost predicate Hashed(items: seq<Execution>) {
    forall i :: 0 <= i < |items| ==>
      items[i].inputHash == HashInput(items[i].input) && items[i].pluginIdsHash == HashStrings(items[i].pluginIds)
  }

  lemma SetStatusKeeps(items: seq<Execution>, id: nat, status: Status)
    ensures UniqueIds(items) ==> UniqueIds(SetStatus(items, id, status))
    ensures UniqueKeys(items) ==> UniqueKeys(SetStatus(items, id, status))
    ensures Hashed(items) ==> Hashed(SetStatus(items, id, status))
    ensures forall i :: 0 <= i < |items| && items[i].id != id ==> SetStatus(items, id, status)[i] == items[i]
  {
    var i := IndexOf(items, id);
    var after := SetStatus(items, id, status);
    assert forall j :: 0 <= j < |items| ==> after[j] == items[j].(status := after[j].status);
  }

  /**
   * Whatever list of requests came before: a request whose key is taken by the same user in the same
   * scope creates nothing and gets the one record that took it; any other request is appended.
   */
  lemma CreateRecordIsIdempotent(items: seq<Execution>, e: Execution)
    requires UniqueKeys(items) && Hashed(items)
    requires e.inputHash == HashInput(e.input) && e.pluginIdsHash == HashStrings(e.pluginIds)
    ensures var (after, out, created) := CreateRecord(items, e);
            && UniqueKeys(after) && Hashed(after)
            && (created <==> e.key == "" || forall i :: 0 <= i < |items| ==> !SameRequestKey(items[i], e))
            && (created ==> after == items + [e] && out == e)
            && (!created ==> after == items && out in items && SameRequestKey(out, e))
            && (!created ==> forall x :: x in items && SameRequestKey(x, e) ==> x == out)
  {
    var i := FindKeyed(items, e);
    if e.key != "" && i < |items| {
      OneHasTheKey(items, e, i);
    }
  }

  lemma OneHasTheKey(items: seq<Execution>, e: Execution, i: nat)
    requires UniqueKeys(items) && e.key != "" && i < |items| && SameRequestKey(items[i], e)
    ensures forall x :: x in items && SameRequestKey(x, e) ==> x == items[i]
  {
    forall x | x in items && SameRequestKey(x, e) ensures x == items[i] {
      var j :| 0 <= j < |items| && items[j] == x;
      assert SameRequestKey(items[i], items[j]) && SameRequestKey(items[j], items[i]);
    }
  }

  /** A list of create requests, one after another, as the store sees them. */
  function CreateAll(items: seq<Execution>, requests: seq<Execution>): seq<Execution> {
    if requests == [] then items
    else CreateRecord(CreateAll(items, requests[..|requests| - 1]), requests[|requests| - 1]).0
  }

  lemma {:induction false} StoreStaysSound(requests: seq<Execution>)
    requires Hashed(requests)
    ensures UniqueKeys(CreateAll([], requests)) && Hashed(CreateAll([], requests))
    decreases |requests|
  {
    if requests != [] {
      StoreStaysSound(requests[..|requests| - 1]);
      CreateRecordIsIdempotent(CreateAll([], requests[..|requests| - 1]), requests[|requests| - 1]);
    }
  }

  /** For this request the store has the first of the requests with its key, or nothing if there is none. */
  predicate HasFirst(items: seq<Execution>, requests: seq<Execution>, later: Execution) {
    var i, first := FindKeyed(items, later), FindKeyed(requests, later);
    if first < |requests| then i < |items| && items[i] == requests[first] else i == |items|
  }

  lemma HasFirstStep(items: seq<Execution>, front: seq<Execution>, last: Execution, later: Execution)
    requires HasFirst(items, front, later) && later.key != ""
    ensures HasFirst(CreateRecord(items, last).0, front + [last], later)
  {
    FindKeyedAppend(front, last, later);
    FindKeyedAppend(items, last, later);
    if SameRequestKey(last, later) {
      SameKeySameFind(items, last, later);
    }
  }

  lemma {:induction false} StoreHasFirst(requests: seq<Execution>, later: Execution)
    requires later.key != ""
    ensures HasFirst(CreateAll([], requests), requests, later)
    decreases |requests|
  {
    if requests != [] {
      var front, last := requests[..|requests| - 1], requests[|requests| - 1];
      StoreHasFirst(front, later);
      HasFirstStep(CreateAll([], front), front, last, later);
      assert requests == front + [last];
    }
  }

  /**
   * For every sequence of requests to an empty store, and any later request that carries a non-empty
   * key of the sequence: the store is left alone and the request gets the first record made for the key.
   */
  lemma FirstRequestWins(requests: seq<Execution>, later: Execution)
    requires Hashed(requests) && later.key != ""
    ensures var items := CreateAll([], requests);
            var first := FindKeyed(requests, later);
            && UniqueKeys(items) && Hashed(items)
            && CreateRecord(items, later) ==
               if first < |requests| then (items, requests[first], false) else (items + [later], later, true)
  {
    StoreStaysSound(requests);
    StoreHasFirst(requests, later);
  }

  /** What a second request finds after a first one has been served. */
  lemma CreateThenFind(items: seq<Execution>, e: Execution, later: Execution)
    requires later.key != ""
    ensures var after := CreateRecord(items, e).0;
            var i := FindKeyed(items, later);
            CreateRecord(after, later) ==
            if i < |items| then (after, items[i], false)
            else if SameRequestKey(e, later) then (after, e, false)
            else (after + [later], later, true)
  {
    FindKeyedAppend(items, e, later);
    if SameRequestKey(e, later) {
      SameKeySameFind(items, e, later);
    }
  }

  lemma {:induction false} FindKeyedAppend(items: seq<Execution>, e: Execution, q: Execution)
    ensures var i := FindKeyed(items, q);
            FindKeyed(items + [e], q) == if i < |items| || SameRequestKey(e, q) then i else |items| + 1
    decreases |items|
  {
    if items != [] && !SameRequestKey(items[0], q) {
      FindKeyedAppend(items[1..], e, q);
      assert (items + [e])[1..] == items[1..] + [e];
    }
  }

  lemma {:induction false} SameKeySameFind(items: seq<Execution>, a: Execution, b: Execution)
    requires SameRequestKey(a, b)
    ensures FindKeyed(items, a) == FindKeyed(items, b)
    decreases |items|
  {
    if items != [] {
      SameKeySameFind(items[1..], a, b);
    }
  }

  // ---------------------------------------------------------------- the store object

  class Repository {
    var items: seq<Execution>

    constructor ()
      ensures items == []
    {
      items := [];
    }

    method CreateWithIdempotency(e: Execution) returns (out: Execution, created: bool)
      modifies this
      ensures (items, out, created) == CreateRecord(old(items), e)
      ensures CreatesTo(old(items), e, items, out, created)
    {
      if e.key != "" {
        for i := 0 to |items|
          invariant items == old(items)
          invariant forall j :: 0 <= j < i ==> !SameRequestKey(items[j], e)
        {
          if SameScope(items[i].scope, e.scope) && items[i].user == e.user && items[i].key == e.key {
            return items[i], false;
          }
        }
      }
      items := items + [e];
      return e, true;
    }

    method GetByID(id: nat) returns (r: Option<Execution>)
      ensures r == if IndexOf(items, id) < |items| then Some(items[IndexOf(items, id)]) else None
      ensures forall i: nat :: FirstWithId(items, id, i) ==> r == Some(items[i])
      ensures (forall i :: 0 <= i < |items| ==> items[i].id != id) ==> r == None
    {
      for i := 0 to |items|
        invariant forall j :: 0 <= j < i ==> items[j].id != id
      {
        if items[i].id == id {
          return Some(items[i]);
        }
      }
      return None;
    }

    method Update(e: Execution)
      modifies this
      ensures items == Put(old(items), e)
      ensures forall i: nat :: FirstWithId(old(items), e.id, i) ==> items == old(items)[i := e]
      ensures (forall i :: 0 <= i < |old(items)| ==> old(items)[i].id != e.id) ==> items == old(items) + [e]
    {
      for i := 0 to |items|
        invariant items == old(items)
        invariant forall j :: 0 <= j < i ==> items[j].id != e.id
      {
        if items[i].id == e.id {
          items := items[i := e];
          return;
        }
      }
      items := items + [e];
    }

    method UpdateStatus(id: nat, status: Status)
      modifies this
      ensures items == SetStatus(old(items), id, status)
      ensures forall i: nat :: FirstWithId(old(items), id, i) ==>
                items == old(items)[i := old(items)[i].(status := status)]
      ensures (forall i :: 0 <= i < |old(items)| ==> old(items)[i].id != id) ==> items == old(items)
    {
      var r := GetByID(id);
      if r.None? {
        return;
      }
      Update(r.value.(status := status));
    }

    method ListIncomplete() returns (out: seq<Execution>)
      ensures out == FilterIncomplete(items)
      ensures exists picked :: AreUnfinished(items, out, picked)
    {
      out := [];
      for i := 0 to |items|
        invariant out == FilterIncomplete(items[..i])
      {
        assert items[..i + 1][..i] == items[..i];
        if Incomplete(items[i].status) {
          out := out + [items[i]];
        }
      }
      assert items[..|items|] == items;
      ghost var picked := FilterIsInOrder(items);
    }
  }
}
