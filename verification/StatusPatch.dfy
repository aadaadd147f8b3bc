/**
 The JSON of an extension status, the merge patch built from it
 (frontend_extension_status_patch), and what merging that patch into a stored
 status does to the typed status.
 */
module StatusPatch {
  import opened Prelude
  import opened Sequences
  import opened FeTypes
  import opened FeStatusRules
  import opened MergePatch

  // ----- Scalars -----

  function Str(s: string): Option<Doc> { Some(DString(s)) }
  function Num(n: int): Option<Doc> { Some(DNumber(n)) }
  function OptStr(s: Option<string>): Option<Doc> { if s.Some? then Str(s.value) else None }
  function OptNum(n: Option<int>): Option<Doc> { if n.Some? then Num(n.value) else None }

  function FePhaseDoc(phase: FePhase): Doc {
    DString(match phase case PhasePending => "Pending" case PhasePackaging => "Packaging" case PhaseReady => "Ready" case PhaseFailed => "Failed")
  }

  function JobPhaseDoc(phase: JobPhase): Doc {
    DString(match phase case JobPending => "Pending" case JobRunning => "Running" case JobSucceeded => "Succeeded" case JobFailed => "Failed")
  }

  function PublishPhaseDoc(phase: PublishPhase): Doc {
    DString(match phase
      case NotRequested => "NotRequested" case PublishPending => "Pending" case PublishRunning => "Running"
      case PublishSucceeded => "Succeeded" case PublishFailed => "Failed")
  }

  // ----- Sections -----

  const REF_KEYS := ["namespace", "name", "uid"]
  const STORAGE_KEYS := ["kind", "ref", "key"]
  const ARTIFACT_KEYS := ["storage", "digest", "sizeBytes", "mediaType", "filename", "generatedAt", "sourceHash", "artifactKey"]
  const DOWNLOAD_KEYS := ["ready", "filename", "mediaType"]
  const PACKAGE_JOB_KEYS := ["namespace", "name", "uid", "phase", "startedAt", "finishedAt", "message"]
  const PUBLISH_KEYS := ["phase", "active", "requestId", "artifactDigest", "jobRef", "startedAt", "finishedAt", "lastError"]
  const UNPUBLISH_KEYS := ["phase", "requestId", "extensionName", "jobRef", "startedAt", "finishedAt", "lastError"]
  const CONDITION_KEYS := ["type", "status", "reason", "message", "observedGeneration"]
  const STATUS_KEYS := [
    "phase", "observedGeneration", "observedSourceHash", "observedRebuildToken", "artifact",
    "download", "packageJob", "publish", "unpublish", "conditions"]

  lemma KeysDistinct()
    ensures Distinct(REF_KEYS) && Distinct(STORAGE_KEYS) && Distinct(ARTIFACT_KEYS) && Distinct(DOWNLOAD_KEYS)
    ensures Distinct(PACKAGE_JOB_KEYS) && Distinct(PUBLISH_KEYS) && Distinct(UNPUBLISH_KEYS) && Distinct(CONDITION_KEYS)
    ensures Distinct(STATUS_KEYS)
  {
  }

  ghost function RefField(r: ObjectRef, i: nat): Option<Doc> {
    match i
    case 0 => Str(r.namespace)
    case 1 => Str(r.name)
    case _ => OptStr(r.uid)
  }

  ghost function RefFields(r: ObjectRef): (f: seq<Option<Doc>>)
    ensures |f| == 3 && forall i :: 0 <= i < 3 ==> f[i] == RefField(r, i)
  {
    seq(3, i requires 0 <= i => RefField(r, i))
  }

  ghost function RefDoc(r: ObjectRef): Doc {
    KeysDistinct();
    Record(REF_KEYS, RefFields(r))
  }

  ghost function OptRef(r: Option<ObjectRef>): Option<Doc> { if r.Some? then Some(RefDoc(r.value)) else None }

  ghost function StorageField(a: ArtifactStatus, i: nat): Option<Doc> {
    match i
    case 0 => Str("ConfigMap")
    case 1 => Some(RefDoc(ObjectRef(a.refNamespace, a.refName, a.refUid)))
    case _ => Str(a.key)
  }

  ghost function StorageFields(a: ArtifactStatus): (r: seq<Option<Doc>>)
    ensures |r| == 3 && forall i :: 0 <= i < 3 ==> r[i] == StorageField(a, i)
  {
    seq(3, i requires 0 <= i => StorageField(a, i))
  }

  ghost function StorageDoc(a: ArtifactStatus): Doc {
    KeysDistinct();
    Record(STORAGE_KEYS, StorageFields(a))
  }

  ghost function ArtifactField(a: ArtifactStatus, i: nat): Option<Doc> {
    match i
    case 0 => Some(StorageDoc(a))
    case 1 => Str(a.digest)
    case 2 => Num(a.sizeBytes)
    case 3 => Str(a.mediaType)
    case 4 => Str(a.filename)
    case 5 => Num(a.generatedAt)
    case 6 => Str(a.sourceHash)
    case _ => OptStr(a.artifactKey)
  }

  ghost function ArtifactFields(a: ArtifactStatus): (r: seq<Option<Doc>>)
    ensures |r| == 8 && forall i :: 0 <= i < 8 ==> r[i] == ArtifactField(a, i)
  {
    seq(8, i requires 0 <= i => ArtifactField(a, i))
  }

  ghost function ArtifactDoc(a: ArtifactStatus): Doc {
    KeysDistinct();
    Record(ARTIFACT_KEYS, ArtifactFields(a))
  }

  ghost function DownloadField(d: DownloadStatus, i: nat): Option<Doc> {
    match i
    case 0 => Some(DBool(d.ready))
    case 1 => Str(d.filename)
    case _ => Str(d.mediaType)
  }

  ghost function DownloadFields(d: DownloadStatus): (r: seq<Option<Doc>>)
    ensures |r| == 3 && forall i :: 0 <= i < 3 ==> r[i] == DownloadField(d, i)
  {
    seq(3, i requires 0 <= i => DownloadField(d, i))
  }

  ghost function DownloadDoc(d: DownloadStatus): Doc {
    KeysDistinct();
    Record(DOWNLOAD_KEYS, DownloadFields(d))
  }

  ghost function PackageJobField(p: PackageJobStatus, i: nat): Option<Doc> {
    match i
    case 0 => Str(p.namespace)
    case 1 => Str(p.name)
    case 2 => OptStr(p.uid)
    case 3 => Some(JobPhaseDoc(p.phase))
    case 4 => OptNum(p.startedAt)
    case 5 => OptNum(p.finishedAt)
    case _ => OptStr(p.message)
  }

  ghost function PackageJobFields(p: PackageJobStatus): (r: seq<Option<Doc>>)
    ensures |r| == 7 && forall i :: 0 <= i < 7 ==> r[i] == PackageJobField(p, i)
  {
    seq(7, i requires 0 <= i => PackageJobField(p, i))
  }

  ghost function PackageJobDoc(p: PackageJobStatus): Doc {
    KeysDistinct();
    Record(PACKAGE_JOB_KEYS, PackageJobFields(p))
  }

  ghost function PublishField(p: PublishStatus, i: nat): Option<Doc> {
    match i
    case 0 => Some(PublishPhaseDoc(p.phase))
    case 1 => Some(DBool(p.active))
    case 2 => OptStr(p.requestId)
    case 3 => OptStr(p.artifactDigest)
    case 4 => OptRef(p.jobRef)
    case 5 => OptNum(p.startedAt)
    case 6 => OptNum(p.finishedAt)
    case _ => OptStr(p.lastError)
  }

  ghost function PublishFields(p: PublishStatus): (r: seq<Option<Doc>>)
    ensures |r| == 8 && forall i :: 0 <= i < 8 ==> r[i] == PublishField(p, i)
  {
    seq(8, i requires 0 <= i => PublishField(p, i))
  }

  ghost function PublishDoc(p: PublishStatus): Doc {
    KeysDistinct();
    Record(PUBLISH_KEYS, PublishFields(p))
  }

  ghost function UnpublishField(p: UnpublishStatus, i: nat): Option<Doc> {
    match i
    case 0 => Some(PublishPhaseDoc(p.phase))
    case 1 => OptStr(p.requestId)
    case 2 => OptStr(p.extensionName)
    case 3 => OptRef(p.jobRef)
    case 4 => OptNum(p.startedAt)
    case 5 => OptNum(p.finishedAt)
    case _ => OptStr(p.lastError)
  }

  ghost function UnpublishFields(p: UnpublishStatus): (r: seq<Option<Doc>>)
    ensures |r| == 7 && forall i :: 0 <= i < 7 ==> r[i] == UnpublishField(p, i)
  {
    seq(7, i requires 0 <= i => UnpublishField(p, i))
  }

  ghost function UnpublishDoc(p: UnpublishStatus): Doc {
    KeysDistinct();
    Record(UNPUBLISH_KEYS, UnpublishFields(p))
  }

  ghost function ConditionField(c: Condition, i: nat): Option<Doc> {
    match i
    case 0 => Str(c.kind)
    case 1 => Str(c.status)
    case 2 => Str(c.reason)
    case 3 => OptStr(c.message)
    case _ => OptNum(c.observedGeneration)
  }

  ghost function ConditionFields(c: Condition): (r: seq<Option<Doc>>)
    ensures |r| == 5 && forall i :: 0 <= i < 5 ==> r[i] == ConditionField(c, i)
  {
    seq(5, i requires 0 <= i => ConditionField(c, i))
  }

  ghost function ConditionDoc(c: Condition): Doc {
    KeysDistinct();
    Record(CONDITION_KEYS, ConditionFields(c))
  }

  ghost function ConditionsDoc(cs: seq<Condition>): Option<Doc> {
    if cs == [] then None else Some(DArray(seq(|cs|, i requires 0 <= i < |cs| => ConditionDoc(cs[i]))))
  }

  ghost function OptArtifact(a: Option<ArtifactStatus>): Option<Doc> { if a.Some? then Some(ArtifactDoc(a.value)) else None }
  ghost function OptDownload(d: Option<DownloadStatus>): Option<Doc> { if d.Some? then Some(DownloadDoc(d.value)) else None }
  ghost function OptPackageJob(p: Option<PackageJobStatus>): Option<Doc> { if p.Some? then Some(PackageJobDoc(p.value)) else None }
  ghost function OptPublish(p: Option<PublishStatus>): Option<Doc> { if p.Some? then Some(PublishDoc(p.value)) else None }
  ghost function OptUnpublish(p: Option<UnpublishStatus>): Option<Doc> { if p.Some? then Some(UnpublishDoc(p.value)) else None }

  ghost function StatusField(st: FeStatus, i: nat): Option<Doc> {
    match i
    case 0 => Some(FePhaseDoc(st.phase))
    case 1 => OptNum(st.observedGeneration)
    case 2 => OptStr(st.observedSourceHash)
    case 3 => OptStr(st.observedRebuildToken)
    case 4 => OptArtifact(st.artifact)
    case 5 => OptDownload(st.download)
    case 6 => OptPackageJob(st.packageJob)
    case 7 => OptPublish(st.publish)
    case 8 => OptUnpublish(st.unpublish)
    case _ => ConditionsDoc(st.conditions)
  }

  ghost function StatusFields(st: FeStatus): (r: seq<Option<Doc>>)
    ensures |r| == 10 && forall i :: 0 <= i < 10 ==> r[i] == StatusField(st, i)
  {
    seq(10, i requires 0 <= i => StatusField(st, i))
  }

  /** serde_json::to_value of a status: absent options are skipped. */
  ghost function StatusDoc(st: FeStatus): Doc {
    KeysDistinct();
    Record(STATUS_KEYS, StatusFields(st))
  }

  // ----- The patch -----

  /** An absent section or field is nulled. */
  ghost function OrNull(d: Option<Doc>): Option<Doc> { Some(d.UnwrapOr(DNull)) }

  /** Record values with the one at `last` nulled when absent. */
  ghost function NullAt(values: seq<Option<Doc>>, last: nat): seq<Option<Doc>>
    requires last < |values|
  {
    values[last := OrNull(values[last])]
  }

  ghost function PackageJobPatch(p: PackageJobStatus): Doc {
    KeysDistinct();
    Record(PACKAGE_JOB_KEYS, NullAt(PackageJobFields(p), 6))
  }

  ghost function PackageJobSection(p: Option<PackageJobStatus>): Option<Doc> { Some(if p.Some? then PackageJobPatch(p.value) else DNull) }

  ghost function PublishPatch(p: PublishStatus): Doc {
    KeysDistinct();
    Record(PUBLISH_KEYS, NullAt(PublishFields(p), 7))
  }

  ghost function PublishSection(p: Option<PublishStatus>): Option<Doc> { Some(if p.Some? then PublishPatch(p.value) else DNull) }

  ghost function UnpublishPatch(p: UnpublishStatus): Doc {
    KeysDistinct();
    Record(UNPUBLISH_KEYS, NullAt(UnpublishFields(p), 6))
  }

  ghost function UnpublishSection(p: Option<UnpublishStatus>): Option<Doc> { Some(if p.Some? then UnpublishPatch(p.value) else DNull) }

  ghost function PatchField(st: FeStatus, i: nat): Option<Doc> {
    match i
    case 4 => OrNull(OptArtifact(st.artifact))
    case 5 => OrNull(OptDownload(st.download))
    case 6 => PackageJobSection(st.packageJob)
    case 7 => PublishSection(st.publish)
    case 8 => UnpublishSection(st.unpublish)
    case _ => StatusField(st, i)
  }

  ghost function PatchFields(st: FeStatus): (r: seq<Option<Doc>>)
    ensures |r| == 10 && forall i :: 0 <= i < 10 ==> r[i] == PatchField(st, i)
  {
    seq(10, i requires 0 <= i => PatchField(st, i))
  }

  ghost function PatchDoc(st: FeStatus): Doc {
    KeysDistinct();
    Record(STATUS_KEYS, PatchFields(st))
  }

  /** Binding a key that was absent, or present, in a record of the same keys. */
  lemma SetField(keys: seq<string>, values: seq<Option<Doc>>, i: nat, d: Doc)
    requires |keys| == |values| && Distinct(keys) && i < |keys|
    ensures DObject(Record(keys, values).fields[keys[i] := d]) == Record(keys, values[i := Some(d)])
  {
    var a, b := Record(keys, values).fields[keys[i] := d], Record(keys, values[i := Some(d)]).fields;
    forall k ensures (k in a <==> k in b) && (k in a ==> a[k] == b[k]) {
      RecordField(keys, values[i := Some(d)], i);
      if k in a || k in b {
        var j :| 0 <= j < |keys| && keys[j] == k;
        RecordField(keys, values, j);
        RecordField(keys, values[i := Some(d)], j);
      }
    }
    assert a == b;
  }

  lemma NullLastField(keys: seq<string>, values: seq<Option<Doc>>, last: nat)
    requires |keys| == |values| && Distinct(keys) && last < |keys|
    ensures Record(keys, NullAt(values, last))
            == if values[last].None? then DObject(Record(keys, values).fields[keys[last] := DNull]) else Record(keys, values)
  {
    if values[last].None? {
      SetField(keys, values, last, DNull);
    } else {
      assert NullAt(values, last) == values;
    }
  }

  lemma PackageJobEdit(p: PackageJobStatus)
    ensures PackageJobPatch(p) == if p.message.None? then DObject(PackageJobDoc(p).fields["message" := DNull]) else PackageJobDoc(p)
  {
    KeysDistinct();
    NullLastField(PACKAGE_JOB_KEYS, PackageJobFields(p), 6);
  }

  lemma PublishEdit(p: PublishStatus)
    ensures PublishPatch(p) == if p.lastError.None? then DObject(PublishDoc(p).fields["lastError" := DNull]) else PublishDoc(p)
  {
    KeysDistinct();
    NullLastField(PUBLISH_KEYS, PublishFields(p), 7);
  }

  lemma UnpublishEdit(p: UnpublishStatus)
    ensures UnpublishPatch(p) == if p.lastError.None? then DObject(UnpublishDoc(p).fields["lastError" := DNull]) else UnpublishDoc(p)
  {
    KeysDistinct();
    NullLastField(UNPUBLISH_KEYS, UnpublishFields(p), 6);
  }

  /** `json` is the status document with those values. */
  ghost predicate Encodes(json: map<string, Doc>, values: seq<Option<Doc>>) {
    KeysDistinct();
    |values| == |STATUS_KEYS| && DObject(json) == Record(STATUS_KEYS, values)
  }

  lemma EncodesSet(json: map<string, Doc>, values: seq<Option<Doc>>, i: nat, d: Doc)
    requires Encodes(json, values) && i < |values|
    ensures i < |STATUS_KEYS| && Encodes(json[STATUS_KEYS[i] := d], values[i := Some(d)])
  {
    KeysDistinct();
    SetField(STATUS_KEYS, values, i, d);
  }

  lemma EncodesGet(json: map<string, Doc>, values: seq<Option<Doc>>, i: nat)
    requires Encodes(json, values) && i < |values| && values[i].Some?
    ensures i < |STATUS_KEYS| && STATUS_KEYS[i] in json && json[STATUS_KEYS[i]] == values[i].value
  {
    KeysDistinct();
    RecordField(STATUS_KEYS, values, i);
  }

  method NullArtifactAndDownload(status: FeStatus, json: map<string, Doc>, ghost values: seq<Option<Doc>>) returns (patch: map<string, Doc>)
    requires |values| == 10 && Encodes(json, values)
    requires values[4] == OptArtifact(status.artifact) && values[5] == OptDownload(status.download)
    ensures Encodes(patch, values[4 := OrNull(OptArtifact(status.artifact))][5 := OrNull(OptDownload(status.download))])
  {
    patch := json;
    ghost var next := values[4 := OrNull(OptArtifact(status.artifact))];
    if status.artifact.None? {
      EncodesSet(patch, values, 4, DNull);
      patch := patch["artifact" := DNull];
    } else {
      assert next == values;
    }
    if status.download.None? {
      EncodesSet(patch, next, 5, DNull);
      patch := patch["download" := DNull];
    } else {
      assert next[5 := OrNull(OptDownload(status.download))] == next;
    }
  }

  method PatchPackageJob(status: FeStatus, json: map<string, Doc>, ghost values: seq<Option<Doc>>) returns (patch: map<string, Doc>)
    requires |values| == 10 && Encodes(json, values) && values[6] == OptPackageJob(status.packageJob)
    ensures Encodes(patch, values[6 := PackageJobSection(status.packageJob)])
  {
    patch := json;
    if status.packageJob.None? {
      EncodesSet(patch, values, 6, DNull);
      patch := patch["packageJob" := DNull];
    } else {
      EncodesGet(patch, values, 6);
      PackageJobEdit(status.packageJob.value);
      if status.packageJob.value.message.None? {
        var section := DObject(patch["packageJob"].fields["message" := DNull]);
        EncodesSet(patch, values, 6, section);
        patch := patch["packageJob" := section];
      } else {
        assert values[6 := PackageJobSection(status.packageJob)] == values;
      }
    }
  }

  method PatchPublish(status: FeStatus, json: map<string, Doc>, ghost values: seq<Option<Doc>>) returns (patch: map<string, Doc>)
    requires |values| == 10 && Encodes(json, values) && values[7] == OptPublish(status.publish)
    ensures Encodes(patch, values[7 := PublishSection(status.publish)])
  {
    patch := json;
    if status.publish.None? {
      EncodesSet(patch, values, 7, DNull);
      patch := patch["publish" := DNull];
    } else {
      EncodesGet(patch, values, 7);
      PublishEdit(status.publish.value);
      if status.publish.value.lastError.None? {
        var section := DObject(patch["publish"].fields["lastError" := DNull]);
        EncodesSet(patch, values, 7, section);
        patch := patch["publish" := section];
      } else {
        assert values[7 := PublishSection(status.publish)] == values;
      }
    }
  }

  method PatchUnpublish(status: FeStatus, json: map<string, Doc>, ghost values: seq<Option<Doc>>) returns (patch: map<string, Doc>)
    requires |values| == 10 && Encodes(json, values) && values[8] == OptUnpublish(status.unpublish)
    ensures Encodes(patch, values[8 := UnpublishSection(status.unpublish)])
  {
    patch := json;
    if status.unpublish.None? {
      EncodesSet(patch, values, 8, DNull);
      patch := patch["unpublish" := DNull];
    } else {
      EncodesGet(patch, values, 8);
      UnpublishEdit(status.unpublish.value);
      if status.unpublish.value.lastError.None? {
        var section := DObject(patch["unpublish"].fields["lastError" := DNull]);
        EncodesSet(patch, values, 8, section);
        patch := patch["unpublish" := section];
      } else {
        assert values[8 := UnpublishSection(status.unpublish)] == values;
      }
    }
  }

  lemma StatusDocEncodes(status: FeStatus, json: map<string, Doc>)
    requires DObject(json) == StatusDoc(status)
    ensures |StatusFields(status)| == 10 && Encodes(json, StatusFields(status))
    ensures StatusFields(status)[4] == OptArtifact(status.artifact) && StatusFields(status)[5] == OptDownload(status.download)
    ensures StatusFields(status)[6] == OptPackageJob(status.packageJob) && StatusFields(status)[7] == OptPublish(status.publish)
    ensures StatusFields(status)[8] == OptUnpublish(status.unpublish)
  {
  }

  lemma PatchEncodes(status: FeStatus, json: map<string, Doc>)
    requires |StatusFields(status)| == 10
    requires Encodes(json, StatusFields(status)
      [4 := OrNull(OptArtifact(status.artifact))][5 := OrNull(OptDownload(status.download))]
      [6 := PackageJobSection(status.packageJob)][7 := PublishSection(status.publish)][8 := UnpublishSection(status.unpublish)])
    ensures DObject(json) == PatchDoc(status)
  {
    assert StatusFields(status)
      [4 := OrNull(OptArtifact(status.artifact))][5 := OrNull(OptDownload(status.download))]
      [6 := PackageJobSection(status.packageJob)][7 := PublishSection(status.publish)][8 := UnpublishSection(status.unpublish)]
      == PatchFields(status);
  }

  /**
   frontend_extension_status_patch: start from the serialised status and edit the
   JSON map in place.
   */
  method BuildStatusPatch(status: FeStatus, statusValue: map<string, Doc>) returns (patch: map<string, Doc>)
    requires DObject(statusValue) == StatusDoc(status)
    ensures DObject(patch) == PatchDoc(status)
  {
    hide *;
    StatusDocEncodes(status, statusValue);
    ghost var values := StatusFields(status);
    patch := NullArtifactAndDownload(status, statusValue, values);
    values := values[4 := OrNull(OptArtifact(status.artifact))][5 := OrNull(OptDownload(status.download))];
    patch := PatchPackageJob(status, patch, values);
    values := values[6 := PackageJobSection(status.packageJob)];
    patch := PatchPublish(status, patch, values);
    values := values[7 := PublishSection(status.publish)];
    patch := PatchUnpublish(status, patch, values);
    PatchEncodes(status, patch);
  }

  // ----- Merging -----

  /** A scalar replaces what it is merged into. */
  lemma ScalarMerges(target: Option<Doc>, d: Doc)
    requires !d.DObject? && !d.DNull?
    ensures MergeField(target, Some(d)) == Some(d)
  {
  }

  /** An absent scalar leaves what is stored. */
  lemma OptStrMerges(stored: Option<string>, desired: Option<string>)
    ensures MergeField(OptStr(stored), OptStr(desired)) == OptStr(Or(desired, stored))
  {
  }

  lemma OptNumMerges(stored: Option<int>, desired: Option<int>)
    ensures MergeField(OptNum(stored), OptNum(desired)) == OptNum(Or(desired, stored))
  {
  }

  /** A nulled scalar clears what is stored. */
  lemma NulledMerges(target: Option<Doc>, desired: Option<string>)
    ensures MergeField(target, OrNull(OptStr(desired))) == OptStr(desired)
  {
  }

  lemma RefFieldMerges(stored: Option<ObjectRef>, desired: ObjectRef, i: nat)
    requires i < 3
    ensures MergeField(if stored.Some? then RefField(stored.value, i) else None, RefField(desired, i))
            == RefField(MergeRef(stored, Some(desired)).value, i)
  {
    if i < 2 { ScalarMerges(if stored.Some? then RefField(stored.value, i) else None, RefField(desired, i).value); }
    OptStrMerges(if stored.Some? then stored.value.uid else None, desired.uid);
    hide Merge, MergeField;
  }

  lemma MergeRefs(stored: Option<ObjectRef>, desired: Option<ObjectRef>)
    ensures MergeField(OptRef(stored), OptRef(desired)) == OptRef(MergeRef(stored, desired))
  {
    if desired.Some? {
      KeysDistinct();
      var m := MergeRef(stored, desired).value;
      hide Distinct, Record, RefField;
      forall i | 0 <= i < 3
        ensures MergeField(if stored.Some? then RefField(stored.value, i) else None, RefField(desired.value, i)) == RefField(m, i)
      {
        RefFieldMerges(stored, desired.value, i);
      }
      hide Merge, MergeField;
      MergeSection(
        REF_KEYS, if stored.Some? then Some(RefFields(stored.value)) else None,
        RefFields(desired.value), RefFields(m));
    } else {
      assert MergeField(OptRef(stored), None) == OptRef(stored);
    }
  }

  lemma StorageFieldMerges(stored: Option<ArtifactStatus>, desired: ArtifactStatus, i: nat)
    requires i < 3
    ensures MergeField(if stored.Some? then StorageField(stored.value, i) else None, StorageField(desired, i)) == StorageField(MergeArtifact(stored, desired), i)
  {
    match i
    case 1 =>
      MergeRefs(
        if stored.Some? then Some(ObjectRef(stored.value.refNamespace, stored.value.refName, stored.value.refUid)) else None,
        Some(ObjectRef(desired.refNamespace, desired.refName, desired.refUid)));
    case _ => ScalarMerges(if stored.Some? then StorageField(stored.value, i) else None, StorageField(desired, i).value);
    hide Merge, MergeField;
  }

  lemma MergeStorageDocs(stored: Option<ArtifactStatus>, desired: ArtifactStatus)
    ensures MergeField(if stored.Some? then Some(StorageDoc(stored.value)) else None, Some(StorageDoc(desired))) == Some(StorageDoc(MergeArtifact(stored, desired)))
  {
    KeysDistinct();
    hide Distinct, Record, StorageField, Merge, MergeField;
    forall i | 0 <= i < 3
      ensures MergeField(if stored.Some? then StorageField(stored.value, i) else None, StorageFields(desired)[i]) == StorageField(MergeArtifact(stored, desired), i)
    {
      StorageFieldMerges(stored, desired, i);
    }
    MergeSection(STORAGE_KEYS, if stored.Some? then Some(StorageFields(stored.value)) else None, StorageFields(desired), StorageFields(MergeArtifact(stored, desired)));
  }

  lemma ArtifactFieldMerges(stored: Option<ArtifactStatus>, desired: ArtifactStatus, i: nat)
    requires i < 8
    ensures MergeField(if stored.Some? then ArtifactField(stored.value, i) else None, ArtifactField(desired, i)) == ArtifactField(MergeArtifact(stored, desired), i)
  {
    match i
    case 0 => MergeStorageDocs(stored, desired);
    case 7 => OptStrMerges(if stored.Some? then stored.value.artifactKey else None, desired.artifactKey);
    case _ => ScalarMerges(if stored.Some? then ArtifactField(stored.value, i) else None, ArtifactField(desired, i).value);
    hide Merge, MergeField;
  }

  lemma MergeArtifactDocs(stored: Option<ArtifactStatus>, desired: ArtifactStatus)
    ensures MergeField(if stored.Some? then Some(ArtifactDoc(stored.value)) else None, Some(ArtifactDoc(desired))) == Some(ArtifactDoc(MergeArtifact(stored, desired)))
  {
    KeysDistinct();
    hide Distinct, Record, ArtifactField, Merge, MergeField;
    forall i | 0 <= i < 8
      ensures MergeField(if stored.Some? then ArtifactField(stored.value, i) else None, ArtifactFields(desired)[i]) == ArtifactField(MergeArtifact(stored, desired), i)
    {
      ArtifactFieldMerges(stored, desired, i);
    }
    MergeSection(ARTIFACT_KEYS, if stored.Some? then Some(ArtifactFields(stored.value)) else None, ArtifactFields(desired), ArtifactFields(MergeArtifact(stored, desired)));
  }

  lemma DownloadFieldMerges(stored: Option<DownloadStatus>, desired: DownloadStatus, i: nat)
    requires i < 3
    ensures MergeField(if stored.Some? then DownloadField(stored.value, i) else None, DownloadField(desired, i)) == DownloadField(desired, i)
  {
    ScalarMerges(if stored.Some? then DownloadField(stored.value, i) else None, DownloadField(desired, i).value);
    hide Merge, MergeField;
  }

  lemma MergeDownloadDocs(stored: Option<DownloadStatus>, desired: DownloadStatus)
    ensures MergeField(if stored.Some? then Some(DownloadDoc(stored.value)) else None, Some(DownloadDoc(desired))) == Some(DownloadDoc(desired))
  {
    KeysDistinct();
    hide Distinct, Record, DownloadField, Merge, MergeField;
    forall i | 0 <= i < 3
      ensures MergeField(if stored.Some? then DownloadField(stored.value, i) else None, DownloadFields(desired)[i]) == DownloadField(desired, i)
    {
      DownloadFieldMerges(stored, desired, i);
    }
    MergeSection(DOWNLOAD_KEYS, if stored.Some? then Some(DownloadFields(stored.value)) else None, DownloadFields(desired), DownloadFields(desired));
  }

  lemma PackageJobFieldMerges(stored: Option<PackageJobStatus>, desired: PackageJobStatus, i: nat)
    requires i < 7
    ensures MergeField(if stored.Some? then PackageJobField(stored.value, i) else None, NullAt(PackageJobFields(desired), 6)[i]) == PackageJobField(MergePackageJob(stored, desired), i)
  {
    match i
    case 2 => OptStrMerges(if stored.Some? then stored.value.uid else None, desired.uid);
    case 4 => OptNumMerges(if stored.Some? then stored.value.startedAt else None, desired.startedAt);
    case 5 => OptNumMerges(if stored.Some? then stored.value.finishedAt else None, desired.finishedAt);
    case 6 => NulledMerges(if stored.Some? then OptStr(stored.value.message) else None, desired.message);
    case _ => ScalarMerges(if stored.Some? then PackageJobField(stored.value, i) else None, PackageJobField(desired, i).value);
    hide Merge, MergeField;
  }

  lemma MergePackageJobDocs(stored: Option<PackageJobStatus>, desired: PackageJobStatus)
    ensures MergeField(if stored.Some? then Some(PackageJobDoc(stored.value)) else None, Some(PackageJobPatch(desired))) == Some(PackageJobDoc(MergePackageJob(stored, desired)))
  {
    KeysDistinct();
    hide Distinct, Record, PackageJobField, Merge, MergeField;
    forall i | 0 <= i < 7
      ensures MergeField(if stored.Some? then PackageJobField(stored.value, i) else None, NullAt(PackageJobFields(desired), 6)[i]) == PackageJobField(MergePackageJob(stored, desired), i)
    {
      PackageJobFieldMerges(stored, desired, i);
    }
    MergeSection(PACKAGE_JOB_KEYS, if stored.Some? then Some(PackageJobFields(stored.value)) else None, NullAt(PackageJobFields(desired), 6), PackageJobFields(MergePackageJob(stored, desired)));
  }

  lemma PublishFieldMerges(stored: Option<PublishStatus>, desired: PublishStatus, i: nat)
    requires i < 8
    ensures MergeField(if stored.Some? then PublishField(stored.value, i) else None, NullAt(PublishFields(desired), 7)[i]) == PublishField(MergePublish(stored, desired), i)
  {
    match i
    case 2 => OptStrMerges(if stored.Some? then stored.value.requestId else None, desired.requestId);
    case 3 => OptStrMerges(if stored.Some? then stored.value.artifactDigest else None, desired.artifactDigest);
    case 4 => MergeRefs(if stored.Some? then stored.value.jobRef else None, desired.jobRef);
    case 5 => OptNumMerges(if stored.Some? then stored.value.startedAt else None, desired.startedAt);
    case 6 => OptNumMerges(if stored.Some? then stored.value.finishedAt else None, desired.finishedAt);
    case 7 => NulledMerges(if stored.Some? then OptStr(stored.value.lastError) else None, desired.lastError);
    case _ => ScalarMerges(if stored.Some? then PublishField(stored.value, i) else None, PublishField(desired, i).value);
    hide Merge, MergeField;
  }

  lemma MergePublishDocs(stored: Option<PublishStatus>, desired: PublishStatus)
    ensures MergeField(if stored.Some? then Some(PublishDoc(stored.value)) else None, Some(PublishPatch(desired))) == Some(PublishDoc(MergePublish(stored, desired)))
  {
    KeysDistinct();
    hide Distinct, Record, PublishField, Merge, MergeField;
    forall i | 0 <= i < 8
      ensures MergeField(if stored.Some? then PublishField(stored.value, i) else None, NullAt(PublishFields(desired), 7)[i]) == PublishField(MergePublish(stored, desired), i)
    {
      PublishFieldMerges(stored, desired, i);
    }
    MergeSection(PUBLISH_KEYS, if stored.Some? then Some(PublishFields(stored.value)) else None, NullAt(PublishFields(desired), 7), PublishFields(MergePublish(stored, desired)));
  }

  lemma UnpublishFieldMerges(stored: Option<UnpublishStatus>, desired: UnpublishStatus, i: nat)
    requires i < 7
    ensures MergeField(if stored.Some? then UnpublishField(stored.value, i) else None, NullAt(UnpublishFields(desired), 6)[i]) == UnpublishField(MergeUnpublish(stored, desired), i)
  {
    match i
    case 0 => ScalarMerges(if stored.Some? then UnpublishField(stored.value, i) else None, UnpublishField(desired, i).value);
    case 1 => OptStrMerges(if stored.Some? then stored.value.requestId else None, desired.requestId);
    case 2 => OptStrMerges(if stored.Some? then stored.value.extensionName else None, desired.extensionName);
    case 3 => MergeRefs(if stored.Some? then stored.value.jobRef else None, desired.jobRef);
    case 4 => OptNumMerges(if stored.Some? then stored.value.startedAt else None, desired.startedAt);
    case 5 => OptNumMerges(if stored.Some? then stored.value.finishedAt else None, desired.finishedAt);
    case _ => NulledMerges(if stored.Some? then OptStr(stored.value.lastError) else None, desired.lastError);
    hide Merge, MergeField;
  }

  lemma MergeUnpublishDocs(stored: Option<UnpublishStatus>, desired: UnpublishStatus)
    ensures MergeField(if stored.Some? then Some(UnpublishDoc(stored.value)) else None, Some(UnpublishPatch(desired))) == Some(UnpublishDoc(MergeUnpublish(stored, desired)))
  {
    KeysDistinct();
    hide Distinct, Record, UnpublishField, Merge, MergeField;
    forall i | 0 <= i < 7
      ensures MergeField(if stored.Some? then UnpublishField(stored.value, i) else None, NullAt(UnpublishFields(desired), 6)[i]) == UnpublishField(MergeUnpublish(stored, desired), i)
    {
      UnpublishFieldMerges(stored, desired, i);
    }
    MergeSection(UNPUBLISH_KEYS, if stored.Some? then Some(UnpublishFields(stored.value)) else None, NullAt(UnpublishFields(desired), 6), UnpublishFields(MergeUnpublish(stored, desired)));
  }

  // ----- A section that may be absent on either side -----

  function MergedArtifact(stored: Option<ArtifactStatus>, desired: Option<ArtifactStatus>): Option<ArtifactStatus> {
    if desired.Some? then Some(MergeArtifact(stored, desired.value)) else None
  }

  function MergedPackageJob(stored: Option<PackageJobStatus>, desired: Option<PackageJobStatus>): Option<PackageJobStatus> {
    if desired.Some? then Some(MergePackageJob(stored, desired.value)) else None
  }

  function MergedPublish(stored: Option<PublishStatus>, desired: Option<PublishStatus>): Option<PublishStatus> {
    if desired.Some? then Some(MergePublish(stored, desired.value)) else None
  }

  function MergedUnpublish(stored: Option<UnpublishStatus>, desired: Option<UnpublishStatus>): Option<UnpublishStatus> {
    if desired.Some? then Some(MergeUnpublish(stored, desired.value)) else None
  }

  lemma ArtifactSectionMerges(stored: Option<ArtifactStatus>, desired: Option<ArtifactStatus>)
    ensures MergeField(OptArtifact(stored), OrNull(OptArtifact(desired))) == OptArtifact(MergedArtifact(stored, desired))
  {
    if desired.Some? { MergeArtifactDocs(stored, desired.value); }
  }

  lemma DownloadSectionMerges(stored: Option<DownloadStatus>, desired: Option<DownloadStatus>)
    ensures MergeField(OptDownload(stored), OrNull(OptDownload(desired))) == OptDownload(desired)
  {
    if desired.Some? { MergeDownloadDocs(stored, desired.value); }
  }

  lemma PackageJobSectionMerges(stored: Option<PackageJobStatus>, desired: Option<PackageJobStatus>)
    ensures MergeField(OptPackageJob(stored), PackageJobSection(desired)) == OptPackageJob(MergedPackageJob(stored, desired))
  {
    if desired.Some? { MergePackageJobDocs(stored, desired.value); }
  }

  lemma PublishSectionMerges(stored: Option<PublishStatus>, desired: Option<PublishStatus>)
    ensures MergeField(OptPublish(stored), PublishSection(desired)) == OptPublish(MergedPublish(stored, desired))
  {
    if desired.Some? { MergePublishDocs(stored, desired.value); }
  }

  lemma UnpublishSectionMerges(stored: Option<UnpublishStatus>, desired: Option<UnpublishStatus>)
    ensures MergeField(OptUnpublish(stored), UnpublishSection(desired)) == OptUnpublish(MergedUnpublish(stored, desired))
  {
    if desired.Some? { MergeUnpublishDocs(stored, desired.value); }
  }

  lemma ConditionsMerge(stored: Option<FeStatus>, desired: FeStatus)
    ensures MergeField(if stored.Some? then ConditionsDoc(stored.value.conditions) else None, ConditionsDoc(desired.conditions))
            == ConditionsDoc(MergeStatus(stored, desired).conditions)
  {
  }

  lemma StatusFieldMerges(stored: Option<FeStatus>, desired: FeStatus, i: nat)
    requires i < 10
    ensures MergeField(if stored.Some? then StatusField(stored.value, i) else None, PatchField(desired, i)) == StatusField(MergeStatus(stored, desired), i)
  {
    hide Merge, MergeField;
    match i
    case 4 => ArtifactSectionMerges(if stored.Some? then stored.value.artifact else None, desired.artifact);
    case 5 => DownloadSectionMerges(if stored.Some? then stored.value.download else None, desired.download);
    case 6 => PackageJobSectionMerges(if stored.Some? then stored.value.packageJob else None, desired.packageJob);
    case 7 => PublishSectionMerges(if stored.Some? then stored.value.publish else None, desired.publish);
    case 8 => UnpublishSectionMerges(if stored.Some? then stored.value.unpublish else None, desired.unpublish);
    case 9 => ConditionsMerge(stored, desired);
    case 0 => ScalarMerges(if stored.Some? then StatusField(stored.value, 0) else None, FePhaseDoc(desired.phase));
    case 1 => OptNumMerges(if stored.Some? then stored.value.observedGeneration else None, desired.observedGeneration);
    case 2 => OptStrMerges(if stored.Some? then stored.value.observedSourceHash else None, desired.observedSourceHash);
    case 3 => OptStrMerges(if stored.Some? then stored.value.observedRebuildToken else None, desired.observedRebuildToken);
  }

  /** Merging the patch document into the stored status document is `MergeStatus` on typed statuses. */
  lemma PatchMergesStatus(stored: Option<FeStatus>, desired: FeStatus)
    ensures Merge(if stored.Some? then StatusDoc(stored.value) else DNull, PatchDoc(desired)) == StatusDoc(MergeStatus(stored, desired))
  {
    KeysDistinct();
    forall i | 0 <= i < 10
      ensures MergeField(if stored.Some? then StatusField(stored.value, i) else None, PatchField(desired, i))
              == StatusField(MergeStatus(stored, desired), i)
    {
      StatusFieldMerges(stored, desired, i);
    }
    var patch := PatchDoc(desired);
    assert patch.DObject?;
    hide Distinct, Record, Merge, StatusField, PatchField, MergeStatus;
    MergeSection(
      STATUS_KEYS, if stored.Some? then Some(StatusFields(stored.value)) else None, PatchFields(desired),
      StatusFields(MergeStatus(stored, desired)));
  }
}
