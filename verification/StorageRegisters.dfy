/** The registers of volumes and templates. */
module StorageRegisters {
  import opened Basics
  import opened Types
  import opened Storage
  import opened Registers

  datatype VolumePart = VolumeBirth | VolumeSize | VolumeState | VolumePath | VolumeSnapshots | VolumeTouched
  datatype TemplatePart = TemplateBirth | TemplateState | TemplateTouched

  datatype Register = OfVolume(id: string, volume: VolumePart) | OfTemplate(id: string, template: TemplatePart)

  function VolumeField(v: VolumeData, p: VolumePart): Value {
    match p
    case VolumeBirth =>
      VolumeBorn(v.spec.projectSlug, v.spec.nodeId, v.spec.name, v.spec.templateId, v.status.compressionRatio,
                 v.createdAt)
    case VolumeSize => Size(v.spec.sizeBytes)
    case VolumeState => VolumeReport(v.status.phase, v.status.usedBytes, v.status.error)
    case VolumePath => Label(v.status.path)
    case VolumeSnapshots => Snapshots(v.status.snapshots)
    case VolumeTouched => At(v.updatedAt)
  }

  function TemplateField(m: TemplateData, p: TemplatePart): Value {
    match p
    case TemplateBirth =>
      TemplateBorn(m.spec.projectSlug, m.spec.nodeId, m.spec.name, m.spec.sourceUrl, m.status.totalBytes,
                   m.createdAt)
    case TemplateState => TemplateReport(m.status.phase, m.status.sizeBytes, m.status.bytesWritten, m.status.error)
    case TemplateTouched => At(m.updatedAt)
  }

  function Read(t: Tables, r: Register): Option<Value> {
    match r
    case OfVolume(k, p) => if k in t.volumes then Some(VolumeField(t.volumes[k], p)) else None
    case OfTemplate(k, p) => if k in t.templates then Some(TemplateField(t.templates[k], p)) else None
  }

  function VolumeEffect(t: Tables, op: StorageOp, k: string, p: VolumePart): Effect<Value> {
    match op
    case CreateVolume(id, at, project, node, name, size, template) => (
      if id != k then Keep else
      match p
      case VolumeBirth => Set(VolumeBorn(project, node, name, template, 1.0, at))
      case VolumeSize => Set(Size(size))
      case VolumeState => Set(VolumeReport(VolumePending, 0, None))
      case VolumePath => Set(Label(""))
      case VolumeSnapshots => Set(Snapshots([]))
      case VolumeTouched => Set(At(at)))
    case DeleteVolume(id) => if id == k then Erase else Keep
    case UpdateVolumeStatus(id, at, phase, path, used, error) =>
      if id != k then Keep
      else if p.VolumeState? then Set(VolumeReport(phase, used, error))
      else if p.VolumePath? && path.Some? then Set(Label(path.value))
      else if p.VolumeTouched? then Set(At(at)) else Keep
    case ResizeVolume(id, at, size) =>
      if id != k then Keep
      else if p.VolumeSize? then Set(Size(size))
      else if p.VolumeTouched? then Set(At(at)) else Keep
    case CreateSnapshot(snapshot, at, id, name) =>
      if id != k || id !in t.volumes then Keep
      else if p.VolumeSnapshots? then
        Set(Snapshots(t.volumes[id].status.snapshots + [SnapshotData(snapshot, name, at, 0)]))
      else if p.VolumeTouched? then Set(At(at)) else Keep
    case _ => Keep
  }

  /** A template without a source is ready at once. */
  function TemplateEffect(op: StorageOp, k: string, p: TemplatePart): Effect<Value> {
    match op
    case CreateTemplate(id, at, project, node, name, size, url, total) => (
      if id != k then Keep else
      match p
      case TemplateBirth => Set(TemplateBorn(project, node, name, url, total, at))
      case TemplateState => Set(TemplateReport(if url.None? then TemplateReady else TemplatePending, size, 0, None))
      case TemplateTouched => Set(At(at)))
    case UpdateTemplateStatus(id, at, phase, written, size, error) =>
      if id != k then Keep
      else if p.TemplateState? then Set(TemplateReport(phase, size, written, error))
      else if p.TemplateTouched? then Set(At(at)) else Keep
    case _ => Keep
  }

  function EffectOf(t: Tables, op: StorageOp, r: Register): Effect<Value> {
    match r
    case OfVolume(k, p) => VolumeEffect(t, op, k, p)
    case OfTemplate(k, p) => TemplateEffect(op, k, p)
  }

  ghost predicate Writes(t: Tables, op: StorageOp, r: Register, out: Outcome<Tables>) {
    out.Commit? ==> Read(out.tables, r) == EffectOf(t, op, r).On(Read(t, r))
  }

  lemma StepWrites(t: Tables, projects: set<string>, op: StorageOp, r: Register)
    ensures Writes(t, op, r, Step(t, projects, op))
  {
    hide HasSnapshot;
  }
}

/** The registers of organizations and projects. */
module TenancyRegisters {
  import opened Basics
  import opened Types
  import opened Tenancy
  import opened Registers

  datatype OrgPart = OrgBirth | OrgName | OrgContacts | OrgTouched

  datatype Register = OfOrg(slug: string, org: OrgPart) | OfProject(slug: string)

  function OrgField(o: OrgData, p: OrgPart): Value {
    match p
    case OrgBirth => At(o.createdAt)
    case OrgName => Label(o.name)
    case OrgContacts => Contact(o.contact)
    case OrgTouched => At(o.updatedAt)
  }

  function Read(t: Tables, r: Register): Option<Value> {
    match r
    case OfOrg(k, p) => if k in t.orgs then Some(OrgField(t.orgs[k], p)) else None
    case OfProject(k) =>
      if k !in t.projects then None
      else
        var p := t.projects[k];
        Some(ProjectBorn(p.orgSlug, p.name, p.description, p.createdAt, p.updatedAt))
  }

  function EffectOf(op: TenancyOp, r: Register): Effect<Value> {
    match op
    case CreateOrg(at, slug, name, contact) => (
      if !r.OfOrg? || slug != r.slug then Keep else
      match r.org
      case OrgBirth => Set(At(at))
      case OrgName => Set(Label(name))
      case OrgContacts => Set(Contact(contact))
      case OrgTouched => Set(At(at)))
    case UpdateOrg(slug, at, name, contact) =>
      if !r.OfOrg? || slug != r.slug then Keep
      else if r.org.OrgName? && name.Some? then Set(Label(name.value))
      else if r.org.OrgContacts? && contact.Some? then Set(Contact(contact.value))
      else if r.org.OrgTouched? then Set(At(at)) else Keep
    case DeleteOrg(slug) => if r.OfOrg? && slug == r.slug then Erase else Keep
    case CreateProject(at, org, slug, name, description) =>
      if r.OfProject? && slug == r.slug then Set(ProjectBorn(org, name, description, at, at)) else Keep
    case DeleteProject(slug) => if r.OfProject? && slug == r.slug then Erase else Keep
  }

  ghost predicate Writes(t: Tables, op: TenancyOp, r: Register, out: Outcome<Tables>) {
    out.Commit? ==> Read(out.tables, r) == EffectOf(op, r).On(Read(t, r))
  }

  lemma StepWrites(t: Tables, op: TenancyOp, r: Register)
    ensures Writes(t, op, r, Step(t, op))
  {
    hide ProjectsOf;
  }
}
