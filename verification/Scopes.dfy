/** Tenants, projects and users; a missing name stands for the default one. */
module Scopes {
  datatype Scope = Scope(tenant: string, project: string)

  const DEFAULT_TENANT := "tenant_default"
  const DEFAULT_PROJECT := "project_default"

  function Normalize(s: Scope): Scope {
    Scope(if s.tenant == "" then DEFAULT_TENANT else s.tenant, if s.project == "" then DEFAULT_PROJECT else s.project)
  }

  predicate SameScope(a: Scope, b: Scope) {
    Normalize(a) == Normalize(b)
  }

  /** Names are the same if they are equal, or each is missing or the default. */
  lemma SameScopeIff(a: Scope, b: Scope)
    ensures SameScope(a, b) <==>
            && (a.tenant == b.tenant || {a.tenant, b.tenant} == {"", "tenant_default"})
            && (a.project == b.project || {a.project, b.project} == {"", "project_default"})
    ensures SameScope(a, Normalize(a)) && Normalize(a).tenant != "" && Normalize(a).project != ""
  {
  }

  datatype Role = PlainUser | Admin | SuperAdmin

  datatype User = User(id: string, role: Role, scope: Scope)
}
