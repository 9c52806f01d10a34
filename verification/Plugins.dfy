/** Stored plugins: the list, enabling and disabling, the check before an execution, and the upsert from a manifest. */
module Plugins {
  import opened Options
  import opened Lists
  import opened Scopes

  datatype PluginStatus = Unset | Discovered | Loaded | Enabled | Disabled | Error | Removed

  /** `body` stands for all a manifest says besides its name and version. */
  datatype Manifest = Manifest(name: string, version: string, body: string)

  datatype Plugin = Plugin(id: nat, name: string, version: string, scope: Scope, dir: string, body: string,
                           status: PluginStatus)

  function FromManifest(m: Manifest, dir: string, id: nat, status: PluginStatus): Plugin {
    Plugin(id, m.name, m.version, Scope(DEFAULT_TENANT, DEFAULT_PROJECT), dir, m.body, status)
  }

  predicate Named(p: Plugin, name: string, version: string) {
    p.name == name && p.version == version
  }

  ghost predicate UniqueIds(plugins: seq<Plugin>) {
    forall i, j :: 0 <= i < j < |plugins| ==> plugins[i].id != plugins[j].id
  }

  ghost predicate UniqueNames(plugins: seq<Plugin>) {
    forall i, j :: 0 <= i < j < |plugins| ==> !Named(plugins[i], plugins[j].name, plugins[j].version)
  }

  /** The first plugin of this name and version, or the length of the list. */
  function FindNamed(plugins: seq<Plugin>, name: string, version: string): (i: nat)
    ensures i <= |plugins|
    ensures i < |plugins| ==> Named(plugins[i], name, version)
    ensures forall j :: 0 <= j < i ==> !Named(plugins[j], name, version)
  {
    FirstIndex(plugins, (p: Plugin) => Named(p, name, version))
  }

  function IndexOf(plugins: seq<Plugin>, id: nat): (i: nat)
    ensures i <= |plugins|
    ensures i < |plugins| ==> plugins[i].id == id
    ensures forall j :: 0 <= j < i ==> plugins[j].id != id
  {
    FirstIndex(plugins, (x: Plugin) => x.id == id)
  }

  /** The scope is stored with its names filled in. */
  function Put(plugins: seq<Plugin>, p: Plugin): seq<Plugin> {
    var q := p.(scope := Normalize(p.scope));
    var i := IndexOf(plugins, p.id);
    if i < |plugins| then plugins[i := q] else plugins + [q]
  }

  lemma PutAt(plugins: seq<Plugin>, i: nat, p: Plugin)
    requires UniqueIds(plugins) && i < |plugins| && plugins[i].id == p.id && Normalize(p.scope) == p.scope
    ensures Put(plugins, p) == plugins[i := p]
  {
  }

  class PluginRepository {
    var plugins: seq<Plugin>

    constructor ()
      ensures plugins == []
    {
      plugins := [];
    }

    /** The list keeps what it had and gains p, its scope filled in; under a new id, p is then what is found. */
    method Create(p: Plugin)
      modifies this
      ensures |plugins| == |old(plugins)| + 1 && plugins[..|old(plugins)|] == old(plugins)
      ensures plugins[|old(plugins)|] == p.(scope := plugins[|old(plugins)|].scope) &&
              SameScope(p.scope, plugins[|old(plugins)|].scope)
      ensures Normalize(plugins[|old(plugins)|].scope) == plugins[|old(plugins)|].scope
      ensures IndexOf(old(plugins), p.id) == |old(plugins)| ==> IndexOf(plugins, p.id) == |old(plugins)|
    {
      plugins := plugins + [p.(scope := Normalize(p.scope))];
    }

    method Update(p: Plugin)
      modifies this
      ensures plugins == Put(old(plugins), p)
      ensures var i := IndexOf(old(plugins), p.id);
              var q := p.(scope := Normalize(p.scope));
              plugins == if i < |old(plugins)| then old(plugins)[i := q] else old(plugins) + [q]
    {
      var q := p.(scope := Normalize(p.scope));
      for i := 0 to |plugins|
        invariant plugins == old(plugins)
        invariant forall j :: 0 <= j < i ==> plugins[j].id != p.id
      {
        if plugins[i].id == p.id {
          plugins := plugins[i := q];
          return;
        }
      }
      plugins := plugins + [q];
    }

    method GetByID(id: nat) returns (p: Option<Plugin>)
      ensures var i := IndexOf(plugins, id); p == if i < |plugins| then Some(plugins[i]) else None
    {
      for i := 0 to |plugins|
        invariant forall j :: 0 <= j < i ==> plugins[j].id != id
      {
        if plugins[i].id == id {
          return Some(plugins[i]);
        }
      }
      return None;
    }

    method GetByNameVersion(name: string, version: string) returns (p: Option<Plugin>)
      ensures var i := FindNamed(plugins, name, version); p == if i < |plugins| then Some(plugins[i]) else None
    {
      for i := 0 to |plugins|
        invariant forall j :: 0 <= j < i ==> !Named(plugins[j], name, version)
      {
        if Named(plugins[i], name, version) {
          return Some(plugins[i]);
        }
      }
      return None;
    }
  }

  // ---------------------------------------------------------------- the plugin service

  datatype PluginError = NotFound | StateInvalid | Forbidden | NotExecutable(plugin: string)

  datatype Result<T> = Ok(value: T) | Err(error: PluginError)

  /** What a manifest's arrival makes of a stored status. */
  function Revived(s: PluginStatus): PluginStatus {
    if s == Unset || s == Removed || s == Error then Loaded else s
  }

  /** What a manifest found in `dir` says of a plugin. */
  ghost predicate Described(p: Plugin, m: Manifest, dir: string) {
    p.name == m.name && p.version == m.version && p.dir == dir && p.body == m.body &&
    p.scope == Scope("tenant_default", "project_default")
  }

  /** Enabled, Disabled, Loaded and Discovered survive; unset, removed and failed plugins are loaded. */
  predicate Survives(before: PluginStatus, after: PluginStatus) {
    match before
    case Unset => after == Loaded
    case Discovered => after == Discovered
    case Loaded => after == Loaded
    case Enabled => after == Enabled
    case Disabled => after == Disabled
    case Error => after == Loaded
    case Removed => after == Loaded
  }

  /** In fields, what a manifest's arrival does. */
  ghost predicate UpsertsTo(before: seq<Plugin>, n: nat, m: Manifest, dir: string, after: seq<Plugin>, n': nat) {
    var i := FindNamed(before, m.name, m.version);
    if i < |before| then
      && n' == n && |after| == |before| && (forall j :: 0 <= j < |before| && j != i ==> after[j] == before[j])
      && after[i].id == before[i].id && Described(after[i], m, dir) && Survives(before[i].status, after[i].status)
    else
      && n' == n + 1 && |after| == |before| + 1 && after[..|before|] == before
      && after[|before|].id == n && Described(after[|before|], m, dir) && after[|before|].status == Loaded
  }

  lemma UpsertInFields(before: seq<Plugin>, n: nat, m: Manifest, dir: string)
    requires UniqueIds(before)
    ensures var (after, n') := Upsert(before, n, m, dir); UpsertsTo(before, n, m, dir, after, n')
  {
    var i := FindNamed(before, m.name, m.version);
    if i < |before| {
      PutAt(before, i, FromManifest(m, dir, before[i].id, Revived(before[i].status)));
    }
  }

  /** The list and the source of ids after a manifest found in `dir`. */
  function Upsert(plugins: seq<Plugin>, nextId: nat, m: Manifest, dir: string): (seq<Plugin>, nat) {
    var i := FindNamed(plugins, m.name, m.version);
    if i < |plugins| then (Put(plugins, FromManifest(m, dir, plugins[i].id, Revived(plugins[i].status))), nextId)
    else (plugins + [FromManifest(m, dir, nextId, Loaded)], nextId + 1)
  }

  /** Whether, and with which status, a user's request would change a plugin's status. */
  function Switched(plugins: seq<Plugin>, id: nat, from: set<PluginStatus>, to: PluginStatus): Result<Plugin> {
    var i := IndexOf(plugins, id);
    if i == |plugins| then Err(NotFound)
    else if plugins[i].status !in from then Err(StateInvalid)
    else Ok(plugins[i].(status := to))
  }

  /**
   * The first plugin with this id gets the status `to`, its scope filled in, if its status was one of
   * `from`; otherwise nothing changes, and the answer says whether it was missing or in the wrong state.
   */
  ghost predicate Switches(before: seq<Plugin>, after: seq<Plugin>, id: nat, from: set<PluginStatus>, to: PluginStatus,
                           r: Result<Plugin>) {
    var i := IndexOf(before, id);
    if i == |before| then r == Err(NotFound) && after == before
    else if before[i].status !in from then r == Err(StateInvalid) && after == before
    else r == Ok(before[i].(status := to)) &&
         after == before[i := before[i].(status := to, scope := Normalize(before[i].scope))]
  }

  /** In fields: unknown, out of scope, not enabled, in this order, or none of these. */
  ghost predicate Objects(plugins: seq<Plugin>, id: nat, scope: Scope, why: Option<PluginError>) {
    if forall p :: p in plugins ==> p.id != id then why == Some(NotFound)
    else exists i ::
      && 0 <= i < |plugins| && plugins[i].id == id && (forall j :: 0 <= j < i ==> plugins[j].id != id)
      && why == if !SameScope(scope, plugins[i].scope) then Some(Forbidden)
                else if plugins[i].status != Enabled then Some(NotExecutable(plugins[i].name)) else None
  }

  lemma ObjectionInFields(plugins: seq<Plugin>, id: nat, scope: Scope)
    ensures Objects(plugins, id, scope, Objection(plugins, id, scope))
  {
    var i := IndexOf(plugins, id);
    if i < |plugins| {
      assert plugins[i] in plugins;
    }
  }

  /** Why a plugin cannot be executed for a scope, if it cannot. */
  function Objection(plugins: seq<Plugin>, id: nat, scope: Scope): Option<PluginError> {
    var i := IndexOf(plugins, id);
    if i == |plugins| then Some(NotFound)
    else if !SameScope(scope, plugins[i].scope) then Some(Forbidden)
    else if plugins[i].status != Enabled then Some(NotExecutable(plugins[i].name))
    else None
  }

  class PluginService {
    const repo: PluginRepository
    var nextId: nat

    constructor (repo: PluginRepository)
      ensures this.repo == repo && nextId == 0
    {
      this.repo, nextId := repo, 0;
    }

    method EnablePlugin(id: nat) returns (r: Result<Plugin>)
      modifies repo
      ensures r == Switched(old(repo.plugins), id, {Loaded, Disabled}, Enabled)
      ensures repo.plugins == if r.Ok? then Put(old(repo.plugins), r.value) else old(repo.plugins)
      ensures Switches(old(repo.plugins), repo.plugins, id, {Loaded, Disabled}, Enabled, r)
    {
      var p := repo.GetByID(id);
      if p.None? {
        return Err(NotFound);
      }
      if p.value.status != Loaded && p.value.status != Disabled {
        return Err(StateInvalid);
      }
      var q := p.value.(status := Enabled);
      repo.Update(q);
      return Ok(q);
    }

    method DisablePlugin(id: nat) returns (r: Result<Plugin>)
      modifies repo
      ensures r == Switched(old(repo.plugins), id, {Enabled}, Disabled)
      ensures repo.plugins == if r.Ok? then Put(old(repo.plugins), r.value) else old(repo.plugins)
      ensures Switches(old(repo.plugins), repo.plugins, id, {Enabled}, Disabled, r)
    {
      var p := repo.GetByID(id);
      if p.None? {
        return Err(NotFound);
      }
      if p.value.status != Enabled {
        return Err(StateInvalid);
      }
      var q := p.value.(status := Disabled);
      repo.Update(q);
      return Ok(q);
    }

    /** The check of one plugin; `scope` has its names filled in. */
    method CheckExecutable(id: nat, scope: Scope) returns (r: Result<Plugin>)
      requires Normalize(scope) == scope
      ensures r.Ok? <==> Objection(repo.plugins, id, scope) == None
      ensures r.Ok? ==> r.value in repo.plugins && r.value.id == id && r.value.status == Enabled
      ensures r.Err? ==> Objection(repo.plugins, id, scope) == Some(r.error)
    {
      var checkScope := !(scope.tenant == "" || scope.project == "");
      var p := repo.GetByID(id);
      if p.None? {
        return Err(NotFound);
      }
      if checkScope && !SameScope(scope, p.value.scope) {
        return Err(Forbidden);
      }
      if p.value.status != Enabled {
        return Err(NotExecutable(p.value.name));
      }
      return Ok(p.value);
    }

    /**
     * All of the plugins, in the order asked for, if none of them meets an objection; otherwise the
     * objection to the first that does. A caller without a scope is held to the default scope, since
     * filling in the names leaves no scope empty.
     */
    method ValidatePluginsExecutableInScope(ids: seq<nat>, scope: Scope) returns (r: Result<seq<Plugin>>)
      ensures r.Ok? <==> forall k :: 0 <= k < |ids| ==> Objection(repo.plugins, ids[k], Normalize(scope)) == None
      ensures r.Ok? ==> |r.value| == |ids|
      ensures r.Ok? ==> forall k :: 0 <= k < |ids| ==>
                          r.value[k] in repo.plugins && r.value[k].id == ids[k] && r.value[k].status == Enabled
      ensures r.Err? ==>
                exists k ::
                  && 0 <= k < |ids| && Objection(repo.plugins, ids[k], Normalize(scope)) == Some(r.error)
                  && forall j :: 0 <= j < k ==> Objection(repo.plugins, ids[j], Normalize(scope)) == None
    {
      var s := Normalize(scope);
      var out: seq<Plugin> := [];
      for k := 0 to |ids|
        invariant |out| == k
        invariant forall j :: 0 <= j < k ==> Objection(repo.plugins, ids[j], s) == None
        invariant forall j :: 0 <= j < k ==> out[j] in repo.plugins && out[j].id == ids[j] && out[j].status == Enabled
      {
        var p := CheckExecutable(ids[k], s);
        if p.Err? {
          return Err(p.error);
        }
        out := out + [p.value];
      }
      return Ok(out);
    }

    /**
     * A plugin of this name and version is described anew in its place, under its id; its status stays,
     * unless it was unset, removed or in error: then, like a new plugin's, it is loaded.
     */
    method UpsertFromManifest(m: Manifest, dir: string)
      modifies this, repo
      ensures (repo.plugins, nextId) == Upsert(old(repo.plugins), old(nextId), m, dir)
      ensures UniqueIds(old(repo.plugins)) ==>
                UpsertsTo(old(repo.plugins), old(nextId), m, dir, repo.plugins, nextId)
    {
      if UniqueIds(repo.plugins) {
        UpsertInFields(repo.plugins, nextId, m, dir);
      }
      var existing := repo.GetByNameVersion(m.name, m.version);
      if existing.Some? {
        var status := existing.value.status;
        if status == Unset || status == Removed || status == Error {
          status := Loaded;
        }
        repo.Update(FromManifest(m, dir, existing.value.id, status));
        return;
      }
      ghost var before := repo.plugins;
      repo.Create(FromManifest(m, dir, nextId, Loaded));
      assert repo.plugins == before + [FromManifest(m, dir, nextId, Loaded)];
      nextId := nextId + 1;
    }
  }
}
