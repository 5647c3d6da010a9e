/** Volumes and templates: the handlers of `ApiState::apply` that write these
    two tables, as functions of the tables. */
module Storage {
  import opened Basics
  import opened Types

  datatype Tables = Tables(volumes: map<string, VolumeData>, templates: map<string, TemplateData>)

  const Empty := Tables(map[], map[])

  /** Volumes cloned from a template. */
  function Clones(volumes: map<string, VolumeData>, template: string): set<string> {
    set k | k in volumes && volumes[k].spec.templateId == Some(template)
  }

  predicate HasSnapshot(snapshots: seq<SnapshotData>, name: string) {
    exists i :: 0 <= i < |snapshots| && snapshots[i].name == name
  }

  function ApplyCreateVolume(t: Tables, projects: set<string>, op: StorageOp): Outcome<Tables>
    requires op.CreateVolume?
  {
    if op.projectSlug !in projects then
      Early(Error(404))
    else if op.id in t.volumes then
      Early(VolumeIs(t.volumes[op.id]))
    else if exists k :: k in t.volumes && t.volumes[k].spec.projectSlug == op.projectSlug
                        && t.volumes[k].spec.name == op.name then
      Early(Error(409))
    else if op.templateId.Some? && op.templateId.value !in t.templates then
      Early(Error(404))
    else if op.templateId.Some? && t.templates[op.templateId.value].spec.nodeId != op.nodeId then
      Early(Error(409))
    else
      var volume := VolumeData(
        op.id,
        VolumeSpec(op.projectSlug, op.nodeId, op.name, op.sizeBytes, op.templateId),
        VolumeStatus(VolumePending, "", 0, 1.0, [], None), op.timestamp, op.timestamp);
      var templates :=
        if op.templateId.None? then t.templates
        else
          var m := t.templates[op.templateId.value];
          t.templates[op.templateId.value := m.(status := m.status.(cloneCount := m.status.cloneCount + 1))];
      Commit(t.(volumes := t.volumes[op.id := volume], templates := templates),
             VolumeIs(volume), [VolumeCreated(volume)])
  }

  function ApplyDeleteVolume(t: Tables, op: StorageOp): Outcome<Tables>
    requires op.DeleteVolume?
  {
    if op.id !in t.volumes then
      Early(Error(404))
    else
      var spec := t.volumes[op.id].spec;
      var templates :=
        if spec.templateId.None? || spec.templateId.value !in t.templates then t.templates
        else
          var m := t.templates[spec.templateId.value];
          t.templates[spec.templateId.value := m.(status := m.status.(cloneCount := Decrement(m.status.cloneCount)))];
      Commit(t.(volumes := t.volumes - {op.id}, templates := templates),
             Deleted(op.id), [VolumeDeleted(op.id, spec.nodeId)])
  }

  function ApplyUpdateVolumeStatus(t: Tables, op: StorageOp): Outcome<Tables>
    requires op.UpdateVolumeStatus?
  {
    if op.id !in t.volumes then
      Early(Error(404))
    else
      var before := t.volumes[op.id];
      var after := before.(
        status := before.status.(phase := op.volumePhase, path := op.path.GetOr(before.status.path),
                                 usedBytes := op.usedBytes, error := op.error),
        updatedAt := op.timestamp);
      Commit(t.(volumes := t.volumes[op.id := after]),
             VolumeIs(after), [VolumeStatusUpdated(op.id, before, after)])
  }

  function ApplyResizeVolume(t: Tables, op: StorageOp): Outcome<Tables>
    requires op.ResizeVolume?
  {
    if op.id !in t.volumes then
      Early(Error(404))
    else if op.sizeBytes < t.volumes[op.id].spec.sizeBytes then
      Early(Error(400))
    else
      var before := t.volumes[op.id];
      var after := before.(spec := before.spec.(sizeBytes := op.sizeBytes), updatedAt := op.timestamp);
      Commit(t.(volumes := t.volumes[op.id := after]), VolumeIs(after), [])
  }

  function ApplyCreateSnapshot(t: Tables, op: StorageOp): Outcome<Tables>
    requires op.CreateSnapshot?
  {
    if op.volumeId !in t.volumes then
      Early(Error(404))
    else if HasSnapshot(t.volumes[op.volumeId].status.snapshots, op.name) then
      Early(Error(409))
    else
      var before := t.volumes[op.volumeId];
      var snapshot := SnapshotData(op.id, op.name, op.timestamp, 0);
      var after := before.(
        status := before.status.(snapshots := before.status.snapshots + [snapshot]),
        updatedAt := op.timestamp);
      Commit(t.(volumes := t.volumes[op.volumeId := after]), VolumeIs(after), [])
  }

  function ApplyCreateTemplate(t: Tables, op: StorageOp): Outcome<Tables>
    requires op.CreateTemplate?
  {
    if exists k :: k in t.templates && t.templates[k].spec.projectSlug == op.projectSlug
                   && t.templates[k].spec.name == op.name && t.templates[k].status.phase == TemplateReady then
      Early(Error(409))
    else if op.id in t.templates then
      Early(TemplateIs(t.templates[op.id]))
    else
      var phase := if op.sourceUrl.Some? then TemplatePending else TemplateReady;
      var template := TemplateData(
        op.id, TemplateSpec(op.projectSlug, op.nodeId, op.name, op.sourceUrl),
        TemplateStatus(phase, op.sizeBytes, 0, op.totalBytes, 0, None), op.timestamp, op.timestamp);
      Commit(t.(templates := t.templates[op.id := template]),
             TemplateIs(template), [TemplateCreated(template)])
  }

  function ApplyUpdateTemplateStatus(t: Tables, op: StorageOp): Outcome<Tables>
    requires op.UpdateTemplateStatus?
  {
    if op.id !in t.templates then
      Early(Error(404))
    else
      var before := t.templates[op.id];
      var after := before.(
        status := before.status.(phase := op.templatePhase, bytesWritten := op.bytesWritten,
                                 sizeBytes := op.sizeBytes, error := op.error),
        updatedAt := op.timestamp);
      Commit(t.(templates := t.templates[op.id := after]),
             TemplateIs(after), [TemplateUpdated(op.id, before, after)])
  }

  function Step(t: Tables, projects: set<string>, op: StorageOp): Outcome<Tables> {
    if op.CreateVolume? then ApplyCreateVolume(t, projects, op)
    else if op.DeleteVolume? then ApplyDeleteVolume(t, op)
    else if op.UpdateVolumeStatus? then ApplyUpdateVolumeStatus(t, op)
    else if op.ResizeVolume? then ApplyResizeVolume(t, op)
    else if op.CreateSnapshot? then ApplyCreateSnapshot(t, op)
    else if op.CreateTemplate? then ApplyCreateTemplate(t, op)
    else ApplyUpdateTemplateStatus(t, op)
  }
}

/** Clone accounting: what a template's `clone_count` says about the volumes. */
module CloneAccounting {
  import opened Basics
  import opened Types
  import opened Storage

  ghost predicate WellKeyed(t: Tables) {
    && (forall k :: k in t.volumes ==> t.volumes[k].id == k)
    && (forall k :: k in t.templates ==> t.templates[k].id == k)
  }

  /** Every clone's template exists, on the clone's own node. */
  ghost predicate ClonesPlaced(t: Tables) {
    forall k :: k in t.volumes && t.volumes[k].spec.templateId.Some? ==>
      t.volumes[k].spec.templateId.value in t.templates
      && t.templates[t.volumes[k].spec.templateId.value].spec.nodeId == t.volumes[k].spec.nodeId
  }

  ghost predicate CloneCountsExact(t: Tables) {
    forall m :: m in t.templates ==> t.templates[m].status.cloneCount == |Clones(t.volumes, m)|
  }

  predicate NamesDistinct(snapshots: seq<SnapshotData>) {
    forall i, j :: 0 <= i < j < |snapshots| ==> snapshots[i].name != snapshots[j].name
  }

  ghost predicate SnapshotsDistinct(t: Tables) {
    forall k :: k in t.volumes ==> NamesDistinct(t.volumes[k].status.snapshots)
  }

  ghost predicate VolumeNamesUnique(t: Tables) {
    forall j, k :: j in t.volumes && k in t.volumes && j != k ==>
      t.volumes[j].spec.projectSlug != t.volumes[k].spec.projectSlug
      || t.volumes[j].spec.name != t.volumes[k].spec.name
  }

  ghost predicate Sound(t: Tables) {
    WellKeyed(t) && ClonesPlaced(t) && CloneCountsExact(t) && SnapshotsDistinct(t) && VolumeNamesUnique(t)
  }

  lemma InsertedClone(volumes: map<string, VolumeData>, id: string, v: VolumeData, m: string)
    requires id !in volumes
    ensures |Clones(volumes[id := v], m)|
            == |Clones(volumes, m)| + (if v.spec.templateId == Some(m) then 1 else 0)
  {
    if v.spec.templateId == Some(m) {
      assert Clones(volumes[id := v], m) == Clones(volumes, m) + {id};
    } else {
      assert Clones(volumes[id := v], m) == Clones(volumes, m);
    }
  }

  lemma RewrittenClone(volumes: map<string, VolumeData>, id: string, v: VolumeData, m: string)
    requires id in volumes && v.spec.templateId == volumes[id].spec.templateId
    ensures Clones(volumes[id := v], m) == Clones(volumes, m)
  {
  }

  lemma RemovedClone(volumes: map<string, VolumeData>, id: string)
    requires id in volumes
    ensures (volumes - {id})[id := volumes[id]] == volumes
  {
  }

  lemma StepKeepsPlacement(t: Tables, projects: set<string>, op: StorageOp)
    requires WellKeyed(t) && ClonesPlaced(t)
    ensures var out := Step(t, projects, op);
      out.Commit? ==> WellKeyed(out.tables) && ClonesPlaced(out.tables)
  {
  }

  lemma StepKeepsCloneCount(t: Tables, projects: set<string>, op: StorageOp, m: string)
    requires ClonesPlaced(t) && CloneCountsExact(t)
    ensures var out := Step(t, projects, op);
      out.Commit? && m in out.tables.templates ==>
        out.tables.templates[m].status.cloneCount == |Clones(out.tables.volumes, m)|
  {
    var out := Step(t, projects, op);
    if out.Commit? {
      if op.CreateTemplate? && m == op.id {
        assert Clones(t.volumes, m) == {};
      }
      hide Clones;
      if op.CreateVolume? {
        InsertedClone(t.volumes, op.id, out.tables.volumes[op.id], m);
      } else if op.DeleteVolume? {
        RemovedClone(t.volumes, op.id);
        InsertedClone(out.tables.volumes, op.id, t.volumes[op.id], m);
      } else if op.UpdateVolumeStatus? || op.ResizeVolume? {
        RewrittenClone(t.volumes, op.id, out.tables.volumes[op.id], m);
      } else if op.CreateSnapshot? {
        RewrittenClone(t.volumes, op.volumeId, out.tables.volumes[op.volumeId], m);
      }
    }
  }

  lemma StepKeepsSnapshots(t: Tables, projects: set<string>, op: StorageOp)
    requires SnapshotsDistinct(t)
    ensures var out := Step(t, projects, op); out.Commit? ==> SnapshotsDistinct(out.tables)
  {
  }

  lemma StepKeepsNames(t: Tables, projects: set<string>, op: StorageOp)
    requires VolumeNamesUnique(t)
    ensures var out := Step(t, projects, op); out.Commit? ==> VolumeNamesUnique(out.tables)
  {
  }

  /** Every command keeps clone counters exact, clones on their template's node,
      snapshot names distinct per volume and volume names unique per project. */
  lemma StepKeepsSound(t: Tables, projects: set<string>, op: StorageOp)
    requires Sound(t)
    ensures var out := Step(t, projects, op);
      out.Commit? ==> Sound(out.tables)
  {
    hide Step, Clones;
    var out := Step(t, projects, op);
    if out.Commit? {
      StepKeepsPlacement(t, projects, op);
      StepKeepsSnapshots(t, projects, op);
      StepKeepsNames(t, projects, op);
      forall m | m in out.tables.templates
        ensures out.tables.templates[m].status.cloneCount == |Clones(out.tables.volumes, m)|
      {
        StepKeepsCloneCount(t, projects, op, m);
      }
    }
  }

  predicate Grown(v: VolumeData, w: VolumeData) {
    && v.spec.sizeBytes <= w.spec.sizeBytes
    && v.spec.templateId == w.spec.templateId
    && v.status.snapshots <= w.status.snapshots
  }

  /** A volume that survives a command is no smaller, and its clone origin and
      its snapshots are still there. */
  lemma VolumesOnlyGrow(t: Tables, projects: set<string>, op: StorageOp, k: string)
    requires k in t.volumes
    ensures var out := Step(t, projects, op);
      out.Commit? && k in out.tables.volumes ==> Grown(t.volumes[k], out.tables.volumes[k])
  {
  }

  /** Neither `saturating_sub` can saturate: a clone that is deleted is counted. */
  lemma DeletedCloneWasCounted(t: Tables, k: string)
    requires Sound(t) && k in t.volumes && t.volumes[k].spec.templateId.Some?
    ensures var m := t.volumes[k].spec.templateId.value;
      m in t.templates && t.templates[m].status.cloneCount >= 1
  {
    assert k in Clones(t.volumes, t.volumes[k].spec.templateId.value);
  }

  // ------------------------------------------------------------ event stream

  /** Volume ids with their spec except the size (a resize is not announced),
      and template rows without the clone counter. */
  datatype View = View(volumes: map<string, VolumeSpec>, templates: map<string, TemplateData>)

  function Unsized(s: VolumeSpec): VolumeSpec { s.(sizeBytes := 0) }

  function Uncounted(m: TemplateData): TemplateData { m.(status := m.status.(cloneCount := 0)) }

  function VolumeSpecs(volumes: map<string, VolumeData>): map<string, VolumeSpec> {
    map k | k in volumes :: Unsized(volumes[k].spec)
  }

  function Bare(templates: map<string, TemplateData>): map<string, TemplateData> {
    map k | k in templates :: Uncounted(templates[k])
  }

  function ViewOf(t: Tables): View { View(VolumeSpecs(t.volumes), Bare(t.templates)) }

  function See(v: View, e: Event): View {
    match e
    case VolumeCreated(x) => v.(volumes := v.volumes[x.id := Unsized(x.spec)])
    case VolumeStatusUpdated(id, _, x) => v.(volumes := v.volumes[id := Unsized(x.spec)])
    case VolumeDeleted(id, _) => v.(volumes := v.volumes - {id})
    case TemplateCreated(m) => v.(templates := v.templates[m.id := Uncounted(m)])
    case TemplateUpdated(id, _, m) => v.(templates := v.templates[id := Uncounted(m)])
    case _ => v
  }

  function SeeAll(v: View, events: seq<Event>): View {
    Fold(See, v, events)
  }

  lemma PutVolume(volumes: map<string, VolumeData>, k: string, x: VolumeData)
    ensures VolumeSpecs(volumes[k := x]) == VolumeSpecs(volumes)[k := Unsized(x.spec)]
    ensures k in volumes && Unsized(x.spec) == Unsized(volumes[k].spec)
            ==> VolumeSpecs(volumes[k := x]) == VolumeSpecs(volumes)
  {
  }

  lemma DropVolume(volumes: map<string, VolumeData>, k: string)
    ensures VolumeSpecs(volumes - {k}) == VolumeSpecs(volumes) - {k}
  {
  }

  lemma PutTemplate(templates: map<string, TemplateData>, k: string, m: TemplateData)
    ensures Bare(templates[k := m]) == Bare(templates)[k := Uncounted(m)]
    ensures k in templates && Uncounted(m) == Uncounted(templates[k]) ==> Bare(templates[k := m]) == Bare(templates)
  {
  }

  ghost predicate Announced(t: Tables, out: Outcome<Tables>) {
    out.Commit? ==> SeeAll(ViewOf(t), out.events) == ViewOf(out.tables)
  }

  lemma VolumeMoveAnnounced(t: Tables, projects: set<string>, op: StorageOp)
    requires op.CreateVolume? || op.DeleteVolume?
    ensures Announced(t, Step(t, projects, op))
  {
    hide VolumeSpecs, Bare;
    var out := Step(t, projects, op);
    if out.Commit? {
      FoldTwo(See, ViewOf(t), out.events[0], out.events[0]);
      var origin := if op.CreateVolume? then op.templateId else t.volumes[op.id].spec.templateId;
      if origin.Some? && origin.value in t.templates {
        PutTemplate(t.templates, origin.value, out.tables.templates[origin.value]);
      }
      if op.CreateVolume? {
        PutVolume(t.volumes, op.id, out.tables.volumes[op.id]);
      } else {
        DropVolume(t.volumes, op.id);
      }
    }
  }

  /** Folding the events of one command over the view before it gives the view
      after it. */
  lemma StepAnnounced(t: Tables, projects: set<string>, op: StorageOp)
    ensures Announced(t, Step(t, projects, op))
  {
    hide VolumeSpecs, Bare;
    var out := Step(t, projects, op);
    if op.CreateVolume? || op.DeleteVolume? {
      VolumeMoveAnnounced(t, projects, op);
    } else if out.Commit? {
      if op.CreateTemplate? || op.UpdateTemplateStatus? {
        FoldTwo(See, ViewOf(t), out.events[0], out.events[0]);
        PutTemplate(t.templates, op.id, out.tables.templates[op.id]);
      } else {
        var k := if op.CreateSnapshot? then op.volumeId else op.id;
        PutVolume(t.volumes, k, out.tables.volumes[k]);
        if op.UpdateVolumeStatus? { FoldTwo(See, ViewOf(t), out.events[0], out.events[0]); }
      }
    }
  }
}
