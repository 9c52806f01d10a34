/** The reload that brings the stored plugins in line with a directory of manifests. */
module Registry {
  import opened Options
  import opened Scopes
  import opened Plugins

  /** What a directory entry turns out to be. */
  datatype Entry = NoDirectory | BadManifest(problem: string) | Found(dir: string, manifest: Manifest)

  datatype SyncResult = SyncResult(created: nat, updated: nat, removed: nat, errors: seq<string>)

  predicate Names(e: Entry, name: string, version: string) {
    e.Found? && e.manifest.name == name && e.manifest.version == version
  }

  /** A valid manifest for this name and version is there. */
  predicate Seen(entries: seq<Entry>, name: string, version: string) {
    exists i :: 0 <= i < |entries| && Names(entries[i], name, version)
  }

  /** The last such manifest, which is the one that counts. */
  function LastOf(entries: seq<Entry>, name: string, version: string): (e: Entry)
    requires Seen(entries, name, version)
    ensures e in entries && Names(e, name, version)
  {
    var last := entries[|entries| - 1];
    if Names(last, name, version) then last
    else
      assert Seen(entries[..|entries| - 1], name, version) by {
        var i :| 0 <= i < |entries| && Names(entries[i], name, version);
        assert entries[..|entries| - 1][i] == entries[i];
      }
      LastOf(entries[..|entries| - 1], name, version)
  }

  function ManifestCount(entries: seq<Entry>): nat {
    if entries == [] then 0
    else ManifestCount(entries[..|entries| - 1]) + if entries[|entries| - 1].Found? then 1 else 0
  }

  function Problems(entries: seq<Entry>): seq<string> {
    if entries == [] then []
    else
      var last := entries[|entries| - 1];
      Problems(entries[..|entries| - 1]) + if last.BadManifest? then [last.problem] else []
  }

  /** Where the manifests are. */
  ghost function ManifestsAt(entries: seq<Entry>): set<nat> {
    set k: nat | k < |entries| && entries[k].Found?
  }

  /** How many manifests there are. */
  lemma {:induction false} ManifestsCounted(entries: seq<Entry>)
    ensures ManifestCount(entries) == |ManifestsAt(entries)|
  {
    if entries == [] {
      assert ManifestsAt(entries) == {};
    } else {
      var last := |entries| - 1;
      ManifestsCounted(entries[..last]);
      var front := ManifestsAt(entries[..last]);
      assert ManifestsAt(entries) == if entries[last].Found? then front + {last} else front;
    }
  }

  /** The problems come in the order of the entries that have them. */
  lemma {:induction false} ProblemsInOrder(a: seq<Entry>, b: seq<Entry>)
    ensures Problems(a + b) == Problems(a) + Problems(b)
    ensures |a| == 1 ==> Problems(a) == match a[0] case BadManifest(problem) => [problem] case _ => []
    decreases |b|
  {
    if b == [] {
      assert a + b == a;
    } else {
      ProblemsInOrder(a, b[..|b| - 1]);
      assert (a + b)[..|a + b| - 1] == a + b[..|b| - 1];
    }
    if |a| == 1 {
      assert a[..0] == [];
    }
  }

  // ---------------------------------------------------------------- a reload, field by field

  /** The k-th entry is the last with a manifest for this name and version. */
  ghost predicate IsLast(entries: seq<Entry>, k: nat, name: string, version: string) {
    && k < |entries| && entries[k].Found? && entries[k].manifest.name == name && entries[k].manifest.version == version
    && forall j :: k < j < |entries| && entries[j].Found? ==>
         entries[j].manifest.name != name || entries[j].manifest.version != version
  }

  ghost predicate NoManifest(entries: seq<Entry>, name: string, version: string) {
    forall k :: 0 <= k < |entries| && entries[k].Found? ==>
      entries[k].manifest.name != name || entries[k].manifest.version != version
  }

  /** What becomes of a plugin that was there: its last manifest describes it anew, or it is removed. */
  ghost predicate BecomesOf(p: Plugin, entries: seq<Entry>, q: Plugin) {
    && (forall k: nat :: IsLast(entries, k, p.name, p.version) ==>
          q.id == p.id && Described(q, entries[k].manifest, entries[k].dir) && Survives(p.status, q.status))
    && (NoManifest(entries, p.name, p.version) ==> q == p.(status := Removed))
  }

  /** What is new has a manifest, is as the last one says, and is loaded. */
  ghost predicate IsNew(q: Plugin, id: nat, entries: seq<Entry>) {
    && q.id == id && q.status == Loaded && !NoManifest(entries, q.name, q.version)
    && forall k: nat :: IsLast(entries, k, q.name, q.version) ==>
         Described(q, entries[k].manifest, entries[k].dir)
  }

  ghost predicate ReloadsTo(before: seq<Plugin>, n: nat, entries: seq<Entry>, after: seq<Plugin>, n': nat) {
    && |before| <= |after| && n' == n + |after| - |before|
    && (forall i :: 0 <= i < |before| ==> BecomesOf(before[i], entries, after[i]))
    && (forall i :: |before| <= i < |after| ==> IsNew(after[i], n + i - |before|, entries))
    && (forall k :: 0 <= k < |entries| && entries[k].Found? ==>
          exists i :: 0 <= i < |after| && after[i].name == entries[k].manifest.name
                      && after[i].version == entries[k].manifest.version)
  }

  lemma SeenIff(entries: seq<Entry>, name: string, version: string)
    ensures Seen(entries, name, version) <==> !NoManifest(entries, name, version)
  {
    if !NoManifest(entries, name, version) {
      var k :| 0 <= k < |entries| && entries[k].Found? && entries[k].manifest.name == name
               && entries[k].manifest.version == version;
      assert Names(entries[k], name, version);
    }
  }

  lemma {:induction false} LastIsLast(entries: seq<Entry>, k: nat, name: string, version: string)
    requires IsLast(entries, k, name, version)
    ensures Seen(entries, name, version) && LastOf(entries, name, version) == entries[k]
    decreases |entries|
  {
    assert Names(entries[k], name, version);
    var n := |entries| - 1;
    if k < n {
      assert !Names(entries[n], name, version);
      LastIsLast(entries[..n], k, name, version);
    }
  }

  // ---------------------------------------------------------------- what a reload does

  /** The first loop. */
  function Scan(plugins: seq<Plugin>, nextId: nat, entries: seq<Entry>): (seq<Plugin>, nat) {
    if entries == [] then (plugins, nextId)
    else
      var (ps, n) := Scan(plugins, nextId, entries[..|entries| - 1]);
      var last := entries[|entries| - 1];
      if last.Found? then Upsert(ps, n, last.manifest, last.dir) else (ps, n)
  }

  predicate Doomed(p: Plugin, entries: seq<Entry>) {
    p.status != Removed && !Seen(entries, p.name, p.version)
  }

  /** The second loop. */
  function Sweep(plugins: seq<Plugin>, entries: seq<Entry>): (r: seq<Plugin>)
    ensures |r| == |plugins|
  {
    seq(|plugins|, i requires 0 <= i < |plugins| => SweepItem(plugins[i], entries))
  }

  function SweepItem(p: Plugin, entries: seq<Entry>): Plugin {
    if Doomed(p, entries) then p.(status := Removed) else p
  }

  function DoomedCount(plugins: seq<Plugin>, entries: seq<Entry>): nat {
    if plugins == [] then 0
    else DoomedCount(plugins[..|plugins| - 1], entries) + if Doomed(plugins[|plugins| - 1], entries) then 1 else 0
  }

  function Reload(plugins: seq<Plugin>, nextId: nat, entries: seq<Entry>): (seq<Plugin>, nat) {
    var (ps, n) := Scan(plugins, nextId, entries);
    (Sweep(ps, entries), n)
  }

  /** What the store must satisfy, and keeps: ids and names are unique, and scopes are stored filled in. */
  ghost predicate Stored(plugins: seq<Plugin>, nextId: nat) {
    && UniqueIds(plugins) && UniqueNames(plugins)
    && forall i :: 0 <= i < |plugins| ==> plugins[i].id < nextId && Normalize(plugins[i].scope) == plugins[i].scope
  }

  /** Enabling and disabling keep the store in order. */
  lemma SwitchKeepsStored(plugins: seq<Plugin>, nextId: nat, id: nat, from: set<PluginStatus>, to: PluginStatus)
    requires Stored(plugins, nextId) && Switched(plugins, id, from, to).Ok?
    ensures Stored(Put(plugins, Switched(plugins, id, from, to).value), nextId)
  {
    PutAt(plugins, IndexOf(plugins, id), Switched(plugins, id, from, to).value);
  }

  // ---------------------------------------------------------------- the first loop, plugin by plugin

  /** What the manifests make of a plugin that was there before. */
  function Refreshed(p: Plugin, entries: seq<Entry>): Plugin {
    if Seen(entries, p.name, p.version) then
      var e := LastOf(entries, p.name, p.version);
      FromManifest(e.manifest, e.dir, p.id, Revived(p.status))
    else p
  }

  /** A plugin the manifests brought in. */
  ghost predicate Arrived(p: Plugin, entries: seq<Entry>, id: nat) {
    Seen(entries, p.name, p.version) && p == Refreshed(p, entries) && p.status == Loaded && p.id == id
  }

  /** The i-th plugin after the loop. */
  ghost predicate ScannedItem(plugins: seq<Plugin>, nextId: nat, entries: seq<Entry>, i: nat, p: Plugin) {
    if i < |plugins| then p == Refreshed(plugins[i], entries) else Arrived(p, entries, nextId + i - |plugins|)
  }

  ghost predicate Scanned(plugins: seq<Plugin>, nextId: nat, entries: seq<Entry>, ps: seq<Plugin>, n: nat) {
    && Stored(ps, n) && |plugins| <= |ps| && n == nextId + |ps| - |plugins|
    && (forall i :: 0 <= i < |ps| ==> ScannedItem(plugins, nextId, entries, i, ps[i]))
    && AllStored(entries, ps)
  }

  /** Every manifest has its plugin. */
  ghost predicate AllStored(entries: seq<Entry>, ps: seq<Plugin>) {
    forall name, version :: Seen(entries, name, version) ==> FindNamed(ps, name, version) < |ps|
  }

  lemma SeenStep(entries: seq<Entry>, e: Entry, name: string, version: string)
    ensures Seen(entries + [e], name, version) <==> Seen(entries, name, version) || Names(e, name, version)
  {
    var es := entries + [e];
    if Seen(entries, name, version) {
      var i :| 0 <= i < |entries| && Names(entries[i], name, version);
      assert Names(es[i], name, version);
    }
    if Names(e, name, version) {
      assert Names(es[|entries|], name, version);
    }
    if Seen(es, name, version) && !Names(e, name, version) {
      var i :| 0 <= i < |es| && Names(es[i], name, version);
      assert Names(entries[i], name, version);
    }
  }

  lemma RefreshStep(p: Plugin, entries: seq<Entry>, e: Entry)
    ensures Refreshed(p, entries + [e]) ==
            if Names(e, p.name, p.version)
            then FromManifest(e.manifest, e.dir, p.id, Revived(Refreshed(p, entries).status))
            else Refreshed(p, entries)
  {
    SeenStep(entries, e, p.name, p.version);
    assert (entries + [e])[..|entries|] == entries;
  }

  /** What an upsert does to a store in order. */
  lemma UpsertShape(ps: seq<Plugin>, n: nat, m: Manifest, dir: string)
    requires Stored(ps, n)
    ensures var k := FindNamed(ps, m.name, m.version);
            var (qs, n') := Upsert(ps, n, m, dir);
            && Stored(qs, n') && FindNamed(qs, m.name, m.version) < |qs|
            && if k < |ps| then qs == ps[k := FromManifest(m, dir, ps[k].id, Revived(ps[k].status))] && n' == n
               else qs == ps + [FromManifest(m, dir, n, Loaded)] && n' == n + 1
  {
    var k := FindNamed(ps, m.name, m.version);
    var (qs, _) := Upsert(ps, n, m, dir);
    if k < |ps| {
      PutAt(ps, k, FromManifest(m, dir, ps[k].id, Revived(ps[k].status)));
      assert Named(qs[k], m.name, m.version);
    } else {
      assert Named(qs[|ps|], m.name, m.version);
    }
  }

  lemma UpsertItem(plugins: seq<Plugin>, nextId: nat, front: seq<Entry>, e: Entry, ps: seq<Plugin>, n: nat, i: nat)
    requires Scanned(plugins, nextId, front, ps, n) && e.Found?
    requires i < |Upsert(ps, n, e.manifest, e.dir).0|
    ensures ScannedItem(plugins, nextId, front + [e], i, Upsert(ps, n, e.manifest, e.dir).0[i])
  {
    UpsertShape(ps, n, e.manifest, e.dir);
    if i < |ps| {
      assert ScannedItem(plugins, nextId, front, i, ps[i]);
      RefreshStep(ps[i], front, e);
      if i < |plugins| {
        RefreshStep(plugins[i], front, e);
      }
      SeenStep(front, e, ps[i].name, ps[i].version);
    } else {
      var p := FromManifest(e.manifest, e.dir, n, Loaded);
      SeenStep(front, e, p.name, p.version);
      RefreshStep(p, front, e);
      assert Refreshed(p, front) == p;
    }
  }

  lemma UpsertAllStored(front: seq<Entry>, e: Entry, ps: seq<Plugin>, n: nat)
    requires Stored(ps, n) && AllStored(front, ps) && e.Found?
    ensures AllStored(front + [e], Upsert(ps, n, e.manifest, e.dir).0)
  {
    UpsertShape(ps, n, e.manifest, e.dir);
    var (qs, _) := Upsert(ps, n, e.manifest, e.dir);
    forall name, version | Seen(front + [e], name, version) ensures FindNamed(qs, name, version) < |qs| {
      SeenStep(front, e, name, version);
      if Seen(front, name, version) {
        var i := FindNamed(ps, name, version);
        assert Named(qs[i], name, version);
      }
    }
  }

  lemma {:induction false} ScanShape(plugins: seq<Plugin>, nextId: nat, entries: seq<Entry>)
    requires Stored(plugins, nextId)
    ensures var (ps, n) := Scan(plugins, nextId, entries); Scanned(plugins, nextId, entries, ps, n)
  {
    if entries != [] {
      var front, last := entries[..|entries| - 1], entries[|entries| - 1];
      ScanShape(plugins, nextId, front);
      assert entries == front + [last];
      var (ps, n) := Scan(plugins, nextId, front);
      if last.Found? {
        ScanUpserts(plugins, nextId, front, last, ps, n);
      } else {
        ScanSkips(plugins, nextId, front, last, ps, n);
      }
    }
  }

  lemma ScanUpserts(plugins: seq<Plugin>, nextId: nat, front: seq<Entry>, e: Entry, ps: seq<Plugin>, n: nat)
    requires Scanned(plugins, nextId, front, ps, n) && e.Found?
    ensures var (qs, m) := Upsert(ps, n, e.manifest, e.dir); Scanned(plugins, nextId, front + [e], qs, m)
  {
    UpsertShape(ps, n, e.manifest, e.dir);
    UpsertAllStored(front, e, ps, n);
    forall i: nat | i < |Upsert(ps, n, e.manifest, e.dir).0|
      ensures ScannedItem(plugins, nextId, front + [e], i, Upsert(ps, n, e.manifest, e.dir).0[i])
    {
      UpsertItem(plugins, nextId, front, e, ps, n, i);
    }
  }

  lemma ScanSkips(plugins: seq<Plugin>, nextId: nat, front: seq<Entry>, e: Entry, ps: seq<Plugin>, n: nat)
    requires Scanned(plugins, nextId, front, ps, n) && !e.Found?
    ensures Scanned(plugins, nextId, front + [e], ps, n)
  {
    forall i: nat | i < |ps| ensures ScannedItem(plugins, nextId, front + [e], i, ps[i]) {
      assert ScannedItem(plugins, nextId, front, i, ps[i]);
      RefreshStep(ps[i], front, e);
      if i < |plugins| {
        RefreshStep(plugins[i], front, e);
      }
      SeenStep(front, e, ps[i].name, ps[i].version);
    }
    forall name, version | Seen(front + [e], name, version) ensures FindNamed(ps, name, version) < |ps| {
      SeenStep(front, e, name, version);
    }
  }

  // ---------------------------------------------------------------- the program

  /** The ids noted so far are those of the plugins whose manifests were found. */
  ghost predicate Noted(ps: seq<Plugin>, entries: seq<Entry>, seen: set<nat>) {
    forall i :: 0 <= i < |ps| ==> (ps[i].id in seen <==> Seen(entries, ps[i].name, ps[i].version))
  }

  lemma NotedStep(ps: seq<Plugin>, n: nat, front: seq<Entry>, e: Entry, seen: set<nat>)
    requires Stored(ps, n) && AllStored(front, ps) && Noted(ps, front, seen) && e.Found?
    ensures var (qs, m) := Upsert(ps, n, e.manifest, e.dir);
            var k := FindNamed(qs, e.manifest.name, e.manifest.version);
            k < |qs| && Noted(qs, front + [e], seen + {qs[k].id})
  {
    UpsertShape(ps, n, e.manifest, e.dir);
    var (qs, m) := Upsert(ps, n, e.manifest, e.dir);
    var k := FindNamed(qs, e.manifest.name, e.manifest.version);
    forall i | 0 <= i < |qs|
      ensures qs[i].id in seen + {qs[k].id} <==> Seen(front + [e], qs[i].name, qs[i].version)
    {
      SeenStep(front, e, qs[i].name, qs[i].version);
      if i != k {
        assert !Names(e, qs[i].name, qs[i].version) && qs[i].id != qs[k].id;
      }
    }
  }

  lemma NotedSkips(ps: seq<Plugin>, front: seq<Entry>, e: Entry, seen: set<nat>)
    requires Noted(ps, front, seen) && !e.Found?
    ensures Noted(ps, front + [e], seen)
  {
    forall i | 0 <= i < |ps| ensures ps[i].id in seen <==> Seen(front + [e], ps[i].name, ps[i].version) {
      SeenStep(front, e, ps[i].name, ps[i].version);
    }
  }

  lemma SweepAt(current: seq<Plugin>, ps: seq<Plugin>, n: nat, i: nat, p: Plugin)
    requires Stored(ps, n) && |current| == |ps| && (forall j :: 0 <= j < |ps| ==> current[j].id == ps[j].id)
    requires i < |ps| && p.id == ps[i].id && p.scope == ps[i].scope
    ensures Put(current, p) == current[i := p]
  {
    PutAt(current, i, p);
  }

  ghost predicate Counted(before: seq<Plugin>, entries: seq<Entry>, ps: seq<Plugin>, seen: set<nat>, created: nat,
                          updated: nat, errors: seq<string>) {
    && Noted(ps, entries, seen)
    && |ps| == |before| + created && created + updated == ManifestCount(entries) && errors == Problems(entries)
  }

  lemma CountedStep(before: seq<Plugin>, front: seq<Entry>, e: Entry, ps: seq<Plugin>, n: nat, seen: set<nat>,
                    created: nat, updated: nat, errors: seq<string>)
    requires Counted(before, front, ps, seen, created, updated, errors) && Stored(ps, n) && AllStored(front, ps)
    ensures e.NoDirectory? ==> Counted(before, front + [e], ps, seen, created, updated, errors)
    ensures e.BadManifest? ==> Counted(before, front + [e], ps, seen, created, updated, errors + [e.problem])
    ensures e.Found? ==>
              var qs := Upsert(ps, n, e.manifest, e.dir).0;
              var k := FindNamed(qs, e.manifest.name, e.manifest.version);
              var arrived := if FindNamed(ps, e.manifest.name, e.manifest.version) < |ps| then 0 else 1;
              k < |qs| && Counted(before, front + [e], qs, seen + {qs[k].id}, created + arrived, updated + 1 - arrived,
                                  errors)
  {
    assert (front + [e])[..|front|] == front;
    if e.Found? {
      NotedStep(ps, n, front, e, seen);
      UpsertShape(ps, n, e.manifest, e.dir);
    } else {
      NotedSkips(ps, front, e, seen);
    }
  }

  class RegistryService {
    const plugins: PluginService
    const repo: PluginRepository

    constructor (plugins: PluginService)
      ensures this.plugins == plugins && repo == plugins.repo
    {
      this.plugins, this.repo := plugins, plugins.repo;
    }

    /** Without a directory listing nothing happens; `entries` is the listing in directory order. */
    method ReloadPlugins(entries: Option<seq<Entry>>) returns (r: Option<SyncResult>)
      requires plugins.repo == repo && Stored(repo.plugins, plugins.nextId)
      modifies plugins, repo
      ensures entries.None? ==> r == None && repo.plugins == old(repo.plugins) && plugins.nextId == old(plugins.nextId)
      ensures entries.Some? ==>
                && r.Some?
                && (repo.plugins, plugins.nextId) == Reload(old(repo.plugins), old(plugins.nextId), entries.value)
                && |repo.plugins| == |old(repo.plugins)| + r.value.created
                && ReloadsTo(old(repo.plugins), old(plugins.nextId), entries.value, repo.plugins, plugins.nextId)
                && r.value.created + r.value.updated == |ManifestsAt(entries.value)|
                && r.value.removed == |Lost(old(repo.plugins), entries.value)|
                && r.value.errors == Problems(entries.value)
    {
      if entries.None? {
        return None;
      }
      var es := entries.value;
      ghost var before, first := repo.plugins, plugins.nextId;
      var created, updated, errors := 0, 0, [];
      var seen: set<nat> := {};
      for k := 0 to |es|
        invariant (repo.plugins, plugins.nextId) == Scan(before, first, es[..k])
        invariant Counted(before, es[..k], repo.plugins, seen, created, updated, errors)
      {
        ghost var ps, n := repo.plugins, plugins.nextId;
        assert es[..k + 1] == es[..k] + [es[k]] && es[..k + 1][..k] == es[..k];
        ScanShape(before, first, es[..k]);
        CountedStep(before, es[..k], es[k], ps, n, seen, created, updated, errors);
        match es[k]
        case NoDirectory =>
        case BadManifest(problem) => errors := errors + [problem];
        case Found(dir, m) =>
          var existed := repo.GetByNameVersion(m.name, m.version);
          plugins.UpsertFromManifest(m, dir);
          var saved := repo.GetByNameVersion(m.name, m.version);
          seen := seen + {saved.value.id};
          if existed.Some? {
            updated := updated + 1;
          } else {
            created := created + 1;
          }
      }
      assert es[..|es|] == es;
      ScanShape(before, first, es);
      DoomedAll(before, first, es, repo.plugins, plugins.nextId);
      var removed := RemoveUnseen(seen, es);
      ReloadInFields(before, first, es);
      ManifestsCounted(es);
      DoomedCounted(before, es);
      return Some(SyncResult(created, updated, removed, errors));
    }

    /** The second loop. */
    method RemoveUnseen(seen: set<nat>, ghost entries: seq<Entry>) returns (removed: nat)
      requires Stored(repo.plugins, plugins.nextId) && Noted(repo.plugins, entries, seen)
      modifies repo
      ensures repo.plugins == Sweep(old(repo.plugins), entries) && removed == DoomedCount(old(repo.plugins), entries)
    {
      var ps := repo.plugins;
      removed := 0;
      for i := 0 to |ps|
        invariant |repo.plugins| == |ps|
        invariant forall j :: 0 <= j < |ps| ==> repo.plugins[j] == if j < i then SweepItem(ps[j], entries) else ps[j]
        invariant removed == DoomedCount(ps[..i], entries)
      {
        DoomedStep(ps, entries, i);
        var p := ps[i];
        if p.status != Removed && p.id !in seen {
          SweepAt(repo.plugins, ps, plugins.nextId, i, p.(status := Removed));
          repo.Update(p.(status := Removed));
          removed := removed + 1;
        }
      }
      assert ps[..|ps|] == ps;
    }
  }

  // ---------------------------------------------------------------- what a reload comes to

  lemma DoomedStep(plugins: seq<Plugin>, entries: seq<Entry>, i: nat)
    requires i < |plugins|
    ensures DoomedCount(plugins[..i + 1], entries) ==
            DoomedCount(plugins[..i], entries) + if Doomed(plugins[i], entries) then 1 else 0
  {
    assert plugins[..i + 1][..i] == plugins[..i];
  }

  lemma DoomedItem(plugins: seq<Plugin>, nextId: nat, entries: seq<Entry>, p: Plugin, i: nat)
    requires ScannedItem(plugins, nextId, entries, i, p)
    ensures Doomed(p, entries) <==> i < |plugins| && Doomed(plugins[i], entries)
  {
  }

  /** The plugins to remove are among those that were there before. */
  lemma {:induction false} DoomedAfterScan(plugins: seq<Plugin>, nextId: nat, entries: seq<Entry>, ps: seq<Plugin>,
                                           k: nat)
    requires k <= |ps| && forall i :: 0 <= i < k ==> ScannedItem(plugins, nextId, entries, i, ps[i])
    ensures DoomedCount(ps[..k], entries) == DoomedCount(plugins[..if k < |plugins| then k else |plugins|], entries)
    decreases k
  {
    if k > 0 {
      DoomedAfterScan(plugins, nextId, entries, ps, k - 1);
      DoomedStep(ps, entries, k - 1);
      DoomedItem(plugins, nextId, entries, ps[k - 1], k - 1);
      if k - 1 < |plugins| {
        DoomedStep(plugins, entries, k - 1);
      }
    }
  }

  lemma DoomedAll(plugins: seq<Plugin>, nextId: nat, entries: seq<Entry>, ps: seq<Plugin>, n: nat)
    requires Scanned(plugins, nextId, entries, ps, n)
    ensures DoomedCount(ps, entries) == DoomedCount(plugins, entries)
  {
    DoomedAfterScan(plugins, nextId, entries, ps, |ps|);
    assert ps[..|ps|] == ps && plugins[..|plugins|] == plugins;
  }

  /**
   * After a reload a plugin is live exactly if a valid manifest for its name and version is there, every
   * manifest has its plugin, ids and names are unique, and of the plugins that were there each keeps its
   * id and name, and if its manifest is there its status, unless that was Removed, Error or unset.
   */
  lemma ReloadSynchronizes(plugins: seq<Plugin>, nextId: nat, entries: seq<Entry>)
    requires Stored(plugins, nextId)
    ensures var (r, n) := Reload(plugins, nextId, entries);
            && Stored(r, n) && |plugins| <= |r| && AllStored(entries, r)
            && (forall i :: 0 <= i < |r| ==> (r[i].status != Removed <==> Seen(entries, r[i].name, r[i].version)))
            && (forall i :: 0 <= i < |plugins| ==>
                  r[i].id == plugins[i].id && Named(r[i], plugins[i].name, plugins[i].version))
            && (forall i :: 0 <= i < |plugins| && r[i].status != Removed ==> Survives(plugins[i].status, r[i].status))
            && (forall i :: |plugins| <= i < |r| ==> r[i].status == Loaded)
  {
    ScanShape(plugins, nextId, entries);
    var (ps, n) := Scan(plugins, nextId, entries);
    var r := Sweep(ps, entries);
    forall i | 0 <= i < |r|
      ensures r[i].id == ps[i].id && Named(r[i], ps[i].name, ps[i].version)
      ensures r[i].status != Removed <==> Seen(entries, r[i].name, r[i].version)
      ensures i < |plugins| ==> r[i].id == plugins[i].id && Named(r[i], plugins[i].name, plugins[i].version)
      ensures i < |plugins| && r[i].status != Removed ==> Survives(plugins[i].status, r[i].status)
      ensures |plugins| <= i ==> r[i].status == Loaded
    {
      assert ScannedItem(plugins, nextId, entries, i, ps[i]);
    }
    SweepKeepsNames(ps, entries);
  }

  /** And in fields, plugin by plugin. */
  lemma ReloadInFields(plugins: seq<Plugin>, nextId: nat, entries: seq<Entry>)
    requires Stored(plugins, nextId)
    ensures var (r, n) := Reload(plugins, nextId, entries); ReloadsTo(plugins, nextId, entries, r, n)
  {
    ScanShape(plugins, nextId, entries);
    ReloadSynchronizes(plugins, nextId, entries);
    var (ps, _) := Scan(plugins, nextId, entries);
    var (r, n) := Reload(plugins, nextId, entries);
    forall i | 0 <= i < |plugins| ensures BecomesOf(plugins[i], entries, r[i]) {
      assert ScannedItem(plugins, nextId, entries, i, ps[i]);
      RefreshedBecomes(plugins[i], entries);
    }
    forall i | |plugins| <= i < |r| ensures IsNew(r[i], nextId + i - |plugins|, entries) {
      assert ScannedItem(plugins, nextId, entries, i, ps[i]);
      ArrivedIsNew(ps[i], nextId + i - |plugins|, entries);
    }
    forall k | 0 <= k < |entries| && entries[k].Found?
      ensures exists i :: 0 <= i < |r| && r[i].name == entries[k].manifest.name
                          && r[i].version == entries[k].manifest.version
    {
      var m := entries[k].manifest;
      assert Names(entries[k], m.name, m.version);
      assert Named(r[FindNamed(r, m.name, m.version)], m.name, m.version);
    }
  }

  lemma RefreshedBecomes(p: Plugin, entries: seq<Entry>)
    ensures BecomesOf(p, entries, SweepItem(Refreshed(p, entries), entries))
  {
    SeenIff(entries, p.name, p.version);
    forall k: nat | IsLast(entries, k, p.name, p.version)
      ensures Seen(entries, p.name, p.version) && LastOf(entries, p.name, p.version) == entries[k]
    {
      LastIsLast(entries, k, p.name, p.version);
    }
  }

  lemma ArrivedIsNew(p: Plugin, id: nat, entries: seq<Entry>)
    requires Arrived(p, entries, id)
    ensures IsNew(SweepItem(p, entries), id, entries)
  {
    SeenIff(entries, p.name, p.version);
    forall k: nat | IsLast(entries, k, p.name, p.version) ensures Described(p, entries[k].manifest, entries[k].dir) {
      LastIsLast(entries, k, p.name, p.version);
    }
  }

  /** How many plugins a reload removes. */
  lemma {:induction false} DoomedCounted(plugins: seq<Plugin>, entries: seq<Entry>)
    ensures DoomedCount(plugins, entries) == |Lost(plugins, entries)|
  {
    if plugins == [] {
      assert Lost(plugins, entries) == {};
    } else {
      var last := |plugins| - 1;
      DoomedCounted(plugins[..last], entries);
      LostStep(plugins, entries);
    }
  }

  lemma LostStep(plugins: seq<Plugin>, entries: seq<Entry>)
    requires plugins != []
    ensures var last := |plugins| - 1;
            var front := Lost(plugins[..last], entries);
            |Lost(plugins, entries)| == |front| + if Doomed(plugins[last], entries) then 1 else 0
  {
    var last := |plugins| - 1;
    var front := Lost(plugins[..last], entries);
    SeenIff(entries, plugins[last].name, plugins[last].version);
    if Doomed(plugins[last], entries) {
      assert Lost(plugins, entries) == front + {last};
    } else {
      assert Lost(plugins, entries) == front;
    }
  }

  /** The positions of the plugins that are not removed and have no manifest. */
  ghost function Lost(plugins: seq<Plugin>, entries: seq<Entry>): set<nat> {
    set i: nat | i < |plugins| && plugins[i].status != Removed &&
                 NoManifest(entries, plugins[i].name, plugins[i].version)
  }

  lemma SweepKeepsNames(ps: seq<Plugin>, entries: seq<Entry>)
    requires AllStored(entries, ps)
    ensures AllStored(entries, Sweep(ps, entries))
  {
    forall name, version | Seen(entries, name, version) ensures FindNamed(Sweep(ps, entries), name, version) < |ps| {
      assert Named(Sweep(ps, entries)[FindNamed(ps, name, version)], name, version);
    }
  }

  /** What a reload made of a plugin, refreshed again. */
  lemma SecondRefresh(plugins: seq<Plugin>, nextId: nat, entries: seq<Entry>, i: nat, p: Plugin)
    requires ScannedItem(plugins, nextId, entries, i, p)
    ensures Refreshed(SweepItem(p, entries), entries) == SweepItem(p, entries) &&
            !Doomed(SweepItem(p, entries), entries)
  {
  }

  /** A second reload of the same directory changes nothing, creates nothing and removes nothing. */
  lemma SecondReloadChangesNothing(plugins: seq<Plugin>, nextId: nat, entries: seq<Entry>)
    requires Stored(plugins, nextId)
    ensures var (r, n) := Reload(plugins, nextId, entries);
            Reload(r, n, entries) == (r, n) && DoomedCount(r, entries) == 0
  {
    var (r, n) := Reload(plugins, nextId, entries);
    ReloadSynchronizes(plugins, nextId, entries);
    ScanShape(plugins, nextId, entries);
    ScanShape(r, n, entries);
    var (ps, _) := Scan(plugins, nextId, entries);
    var (qs, m) := Scan(r, n, entries);
    if |qs| > |r| {
      NothingArrives(r, n, entries, qs, m);
    }
    forall i | 0 <= i < |r| ensures qs[i] == r[i] && !Doomed(r[i], entries) {
      assert ScannedItem(plugins, nextId, entries, i, ps[i]);
      assert ScannedItem(r, n, entries, i, qs[i]);
      SecondRefresh(plugins, nextId, entries, i, ps[i]);
    }
    assert qs == r && Sweep(qs, entries) == r;
    NoneDoomed(r, entries);
  }

  lemma NothingArrives(r: seq<Plugin>, n: nat, entries: seq<Entry>, qs: seq<Plugin>, m: nat)
    requires AllStored(entries, r) && Scanned(r, n, entries, qs, m)
    ensures |qs| == |r|
  {
    assert forall i :: 0 <= i < |r| ==> ScannedItem(r, n, entries, i, qs[i]) && Named(qs[i], r[i].name, r[i].version);
    if |qs| > |r| {
      var p := qs[|r|];
      assert ScannedItem(r, n, entries, |r|, p);
      var i := FindNamed(r, p.name, p.version);
      assert false;
    }
  }

  lemma {:induction false} NoneDoomed(plugins: seq<Plugin>, entries: seq<Entry>)
    requires forall i :: 0 <= i < |plugins| ==> !Doomed(plugins[i], entries)
    ensures DoomedCount(plugins, entries) == 0
  {
    if plugins != [] {
      NoneDoomed(plugins[..|plugins| - 1], entries);
    }
  }
}
