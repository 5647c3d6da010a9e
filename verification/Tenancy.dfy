/** Organizations and projects. */
module Tenancy {
  import opened Basics
  import opened Types

  datatype Tables = Tables(orgs: map<string, OrgData>, projects: map<string, ProjectData>)

  const Empty := Tables(map[], map[])

  function ProjectsOf(projects: map<string, ProjectData>, org: string): set<string> {
    set k | k in projects && projects[k].orgSlug == org
  }

  function ApplyOrg(t: Tables, op: TenancyOp): Outcome<Tables>
    requires op.CreateOrg? || op.UpdateOrg? || op.DeleteOrg?
  {
    if op.CreateOrg? then
      if op.slug in t.orgs then
        Early(Error(409))
      else
        var org := OrgData(op.slug, op.name, op.contact, op.timestamp, op.timestamp);
        Commit(t.(orgs := t.orgs[op.slug := org]), OrgIs(org), [])
    else if op.slug !in t.orgs then
      Early(Error(404))
    else if op.UpdateOrg? then
      var before := t.orgs[op.slug];
      var org := before.(name := op.newName.GetOr(before.name),
                         contact := op.newContact.GetOr(before.contact), updatedAt := op.timestamp);
      Commit(t.(orgs := t.orgs[op.slug := org]), OrgIs(org), [])
    else if ProjectsOf(t.projects, op.slug) != {} then
      Early(Error(409))
    else
      Commit(t.(orgs := t.orgs - {op.slug}), Deleted(op.slug), [])
  }

  function ApplyProject(t: Tables, op: TenancyOp): Outcome<Tables>
    requires op.CreateProject? || op.DeleteProject?
  {
    if op.CreateProject? then
      if op.slug in t.projects then
        Early(Error(409))
      else if op.orgSlug !in t.orgs then
        Early(Error(404))
      else
        var project := ProjectData(op.slug, op.orgSlug, op.name, op.description, op.timestamp, op.timestamp);
        Commit(t.(projects := t.projects[op.slug := project]), ProjectIs(project), [])
    else if op.slug !in t.projects then
      Early(Error(404))
    else
      Commit(t.(projects := t.projects - {op.slug}), Deleted(op.slug), [])
  }

  function Step(t: Tables, op: TenancyOp): Outcome<Tables> {
    if op.CreateProject? || op.DeleteProject? then ApplyProject(t, op) else ApplyOrg(t, op)
  }

  /** Rows are stored under their slug and every project's organization exists. */
  ghost predicate Sound(t: Tables) {
    && (forall k :: k in t.orgs ==> t.orgs[k].slug == k)
    && (forall k :: k in t.projects ==> t.projects[k].slug == k && t.projects[k].orgSlug in t.orgs)
  }

  lemma StepKeepsSound(t: Tables, op: TenancyOp)
    requires Sound(t)
    ensures var out := Step(t, op); out.Commit? ==> Sound(out.tables)
  {
    if op.DeleteOrg? {
      assert forall k :: k in t.projects && t.projects[k].orgSlug == op.slug ==> k in ProjectsOf(t.projects, op.slug);
    }
  }
}
