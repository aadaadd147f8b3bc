/**
 The JSON of a status, name by name: every field is found under its own name, with
 its own value, and nothing else is there.
 */
module StatusJson {
  import opened Prelude
  import opened Sequences
  import opened FeTypes
  import opened FeStatusRules
  import opened MergePatch
  import opened StatusPatch

  /** The member of an object, if it is there. */
  ghost function At(d: Doc, key: string): Option<Doc> {
    if d.DObject? && key in d.fields then Some(d.fields[key]) else None
  }

  ghost predicate HasText(d: Doc, key: string, value: Option<string>) {
    At(d, key) == if value.Some? then Some(DString(value.value)) else None
  }

  ghost predicate HasNumber(d: Doc, key: string, value: Option<int>) {
    At(d, key) == if value.Some? then Some(DNumber(value.value)) else None
  }

  ghost predicate OnlyHas(d: Doc, keys: seq<string>) {
    d.DObject? && forall k :: k in d.fields ==> k in keys
  }

  /** In a record, the member of each name is the value at its place. */
  lemma AtField(keys: seq<string>, values: seq<Option<Doc>>, i: nat)
    requires |keys| == |values| && Distinct(keys) && i < |keys|
    ensures At(Record(keys, values), keys[i]) == values[i]
  {
    RecordField(keys, values, i);
  }

  lemma AllFields(keys: seq<string>, values: seq<Option<Doc>>)
    requires |keys| == |values| && Distinct(keys)
    ensures OnlyHas(Record(keys, values), keys) && forall i :: 0 <= i < |keys| ==> At(Record(keys, values), keys[i]) == values[i]
  {
    forall i | 0 <= i < |keys| ensures At(Record(keys, values), keys[i]) == values[i] { AtField(keys, values, i); }
  }

  // ----- Sections -----

  ghost predicate ShowsRef(d: Doc, r: ObjectRef) {
    && OnlyHas(d, REF_KEYS)
    && HasText(d, "namespace", Some(r.namespace)) && HasText(d, "name", Some(r.name)) && HasText(d, "uid", r.uid)
  }

  lemma RefShows(r: ObjectRef)
    ensures ShowsRef(RefDoc(r), r)
  {
    hide Record, Distinct, At, OnlyHas;
    KeysDistinct();
    AllFields(REF_KEYS, RefFields(r));
    assert REF_KEYS[0] == "namespace" && REF_KEYS[1] == "name" && REF_KEYS[2] == "uid";
  }

  ghost predicate HasRef(d: Doc, key: string, r: Option<ObjectRef>) {
    if r.Some? then At(d, key).Some? && ShowsRef(At(d, key).value, r.value) else At(d, key).None?
  }

  ghost predicate ShowsStorage(d: Doc, a: ArtifactStatus) {
    && OnlyHas(d, STORAGE_KEYS)
    && HasText(d, "kind", Some("ConfigMap")) && HasText(d, "key", Some(a.key))
    && HasRef(d, "ref", Some(ObjectRef(a.refNamespace, a.refName, a.refUid)))
  }

  lemma StorageShows(a: ArtifactStatus)
    ensures ShowsStorage(StorageDoc(a), a)
  {
    hide Record, Distinct, At, OnlyHas, ShowsRef, RefDoc;
    KeysDistinct();
    AllFields(STORAGE_KEYS, StorageFields(a));
    RefShows(ObjectRef(a.refNamespace, a.refName, a.refUid));
    assert STORAGE_KEYS[0] == "kind" && STORAGE_KEYS[1] == "ref" && STORAGE_KEYS[2] == "key";
  }

  ghost predicate ShowsArtifact(d: Doc, a: ArtifactStatus) {
    && OnlyHas(d, ARTIFACT_KEYS)
    && At(d, "storage").Some? && ShowsStorage(At(d, "storage").value, a)
    && HasText(d, "digest", Some(a.digest)) && HasNumber(d, "sizeBytes", Some(a.sizeBytes)) && HasText(d, "mediaType", Some(a.mediaType))
    && HasText(d, "filename", Some(a.filename)) && HasNumber(d, "generatedAt", Some(a.generatedAt))
    && HasText(d, "sourceHash", Some(a.sourceHash)) && HasText(d, "artifactKey", a.artifactKey)
  }

  lemma ArtifactShows(a: ArtifactStatus)
    ensures ShowsArtifact(ArtifactDoc(a), a)
  {
    hide Record, Distinct, At, OnlyHas, ShowsStorage, StorageDoc;
    KeysDistinct();
    AllFields(ARTIFACT_KEYS, ArtifactFields(a));
    StorageShows(a);
    assert ARTIFACT_KEYS[0] == "storage" && ARTIFACT_KEYS[1] == "digest" && ARTIFACT_KEYS[2] == "sizeBytes" && ARTIFACT_KEYS[3] == "mediaType";
    assert ARTIFACT_KEYS[4] == "filename" && ARTIFACT_KEYS[5] == "generatedAt" && ARTIFACT_KEYS[6] == "sourceHash" && ARTIFACT_KEYS[7] == "artifactKey";
  }

  ghost predicate ShowsDownload(d: Doc, v: DownloadStatus) {
    && OnlyHas(d, DOWNLOAD_KEYS)
    && At(d, "ready") == Some(DBool(v.ready)) && HasText(d, "filename", Some(v.filename)) && HasText(d, "mediaType", Some(v.mediaType))
  }

  lemma DownloadShows(v: DownloadStatus)
    ensures ShowsDownload(DownloadDoc(v), v)
  {
    hide Record, Distinct, At, OnlyHas;
    KeysDistinct();
    AllFields(DOWNLOAD_KEYS, DownloadFields(v));
    assert DOWNLOAD_KEYS[0] == "ready" && DOWNLOAD_KEYS[1] == "filename" && DOWNLOAD_KEYS[2] == "mediaType";
  }

  ghost predicate ShowsPackageJob(d: Doc, p: PackageJobStatus) {
    && OnlyHas(d, PACKAGE_JOB_KEYS)
    && HasText(d, "namespace", Some(p.namespace)) && HasText(d, "name", Some(p.name)) && HasText(d, "uid", p.uid)
    && HasText(d, "phase", Some(match p.phase
        case JobPending => "Pending" case JobRunning => "Running" case JobSucceeded => "Succeeded" case JobFailed => "Failed"))
    && HasNumber(d, "startedAt", p.startedAt) && HasNumber(d, "finishedAt", p.finishedAt) && HasText(d, "message", p.message)
  }

  lemma PackageJobShows(p: PackageJobStatus)
    ensures ShowsPackageJob(PackageJobDoc(p), p)
  {
    hide Record, Distinct, At, OnlyHas;
    KeysDistinct();
    AllFields(PACKAGE_JOB_KEYS, PackageJobFields(p));
    assert PACKAGE_JOB_KEYS[0] == "namespace" && PACKAGE_JOB_KEYS[1] == "name" && PACKAGE_JOB_KEYS[2] == "uid" && PACKAGE_JOB_KEYS[3] == "phase";
    assert PACKAGE_JOB_KEYS[4] == "startedAt" && PACKAGE_JOB_KEYS[5] == "finishedAt" && PACKAGE_JOB_KEYS[6] == "message";
  }

  ghost function PhaseWord(phase: PublishPhase): string {
    match phase
    case NotRequested => "NotRequested" case PublishPending => "Pending" case PublishRunning => "Running"
    case PublishSucceeded => "Succeeded" case PublishFailed => "Failed"
  }

  ghost predicate ShowsPublish(d: Doc, p: PublishStatus) {
    && OnlyHas(d, PUBLISH_KEYS)
    && HasText(d, "phase", Some(PhaseWord(p.phase))) && At(d, "active") == Some(DBool(p.active))
    && HasText(d, "requestId", p.requestId) && HasText(d, "artifactDigest", p.artifactDigest) && HasRef(d, "jobRef", p.jobRef)
    && HasNumber(d, "startedAt", p.startedAt) && HasNumber(d, "finishedAt", p.finishedAt) && HasText(d, "lastError", p.lastError)
  }

  lemma PublishShows(p: PublishStatus)
    ensures ShowsPublish(PublishDoc(p), p)
  {
    hide Record, Distinct, At, OnlyHas, ShowsRef, RefDoc;
    KeysDistinct();
    AllFields(PUBLISH_KEYS, PublishFields(p));
    if p.jobRef.Some? { RefShows(p.jobRef.value); }
    assert PUBLISH_KEYS[0] == "phase" && PUBLISH_KEYS[1] == "active" && PUBLISH_KEYS[2] == "requestId" && PUBLISH_KEYS[3] == "artifactDigest";
    assert PUBLISH_KEYS[4] == "jobRef" && PUBLISH_KEYS[5] == "startedAt" && PUBLISH_KEYS[6] == "finishedAt" && PUBLISH_KEYS[7] == "lastError";
  }

  ghost predicate ShowsUnpublish(d: Doc, u: UnpublishStatus) {
    && OnlyHas(d, UNPUBLISH_KEYS)
    && HasText(d, "phase", Some(PhaseWord(u.phase)))
    && HasText(d, "requestId", u.requestId) && HasText(d, "extensionName", u.extensionName) && HasRef(d, "jobRef", u.jobRef)
    && HasNumber(d, "startedAt", u.startedAt) && HasNumber(d, "finishedAt", u.finishedAt) && HasText(d, "lastError", u.lastError)
  }

  lemma UnpublishShows(u: UnpublishStatus)
    ensures ShowsUnpublish(UnpublishDoc(u), u)
  {
    hide Record, Distinct, At, OnlyHas, ShowsRef, RefDoc;
    KeysDistinct();
    AllFields(UNPUBLISH_KEYS, UnpublishFields(u));
    if u.jobRef.Some? { RefShows(u.jobRef.value); }
    assert UNPUBLISH_KEYS[0] == "phase" && UNPUBLISH_KEYS[1] == "requestId" && UNPUBLISH_KEYS[2] == "extensionName" && UNPUBLISH_KEYS[3] == "jobRef";
    assert UNPUBLISH_KEYS[4] == "startedAt" && UNPUBLISH_KEYS[5] == "finishedAt" && UNPUBLISH_KEYS[6] == "lastError";
  }

  ghost predicate ShowsCondition(d: Doc, c: Condition) {
    && OnlyHas(d, CONDITION_KEYS)
    && HasText(d, "type", Some(c.kind)) && HasText(d, "status", Some(c.status)) && HasText(d, "reason", Some(c.reason))
    && HasText(d, "message", c.message) && HasNumber(d, "observedGeneration", c.observedGeneration)
  }

  lemma ConditionShows(c: Condition)
    ensures ShowsCondition(ConditionDoc(c), c)
  {
    hide Record, Distinct, At, OnlyHas;
    KeysDistinct();
    AllFields(CONDITION_KEYS, ConditionFields(c));
    assert CONDITION_KEYS[0] == "type" && CONDITION_KEYS[1] == "status" && CONDITION_KEYS[2] == "reason" && CONDITION_KEYS[3] == "message";
    assert CONDITION_KEYS[4] == "observedGeneration";
  }

  // ----- The status -----

  /** The member is there exactly when the section is. */
  ghost predicate SamePresence(d: Doc, key: string, present: bool) {
    At(d, key).Some? <==> present
  }

  ghost predicate ShowsStatus(d: Doc, st: FeStatus) {
    && OnlyHas(d, STATUS_KEYS)
    && HasText(d, "phase", Some(match st.phase
        case PhasePending => "Pending" case PhasePackaging => "Packaging" case PhaseReady => "Ready" case PhaseFailed => "Failed"))
    && HasNumber(d, "observedGeneration", st.observedGeneration) && HasText(d, "observedSourceHash", st.observedSourceHash)
    && HasText(d, "observedRebuildToken", st.observedRebuildToken)
    && SamePresence(d, "artifact", st.artifact.Some?) && (st.artifact.Some? ==> ShowsArtifact(At(d, "artifact").value, st.artifact.value))
    && SamePresence(d, "download", st.download.Some?) && (st.download.Some? ==> ShowsDownload(At(d, "download").value, st.download.value))
    && SamePresence(d, "packageJob", st.packageJob.Some?) && (st.packageJob.Some? ==> ShowsPackageJob(At(d, "packageJob").value, st.packageJob.value))
    && SamePresence(d, "publish", st.publish.Some?) && (st.publish.Some? ==> ShowsPublish(At(d, "publish").value, st.publish.value))
    && SamePresence(d, "unpublish", st.unpublish.Some?) && (st.unpublish.Some? ==> ShowsUnpublish(At(d, "unpublish").value, st.unpublish.value))
    && SamePresence(d, "conditions", st.conditions != [])
    && (st.conditions != [] ==> ShowsConditions(At(d, "conditions").value, st.conditions))
  }

  ghost predicate ShowsConditions(d: Doc, cs: seq<Condition>) {
    d.DArray? && |d.items| == |cs| && forall i :: 0 <= i < |cs| ==> ShowsCondition(d.items[i], cs[i])
  }

  lemma SectionsShow(st: FeStatus)
    ensures st.artifact.Some? ==> ShowsArtifact(ArtifactDoc(st.artifact.value), st.artifact.value)
    ensures st.download.Some? ==> ShowsDownload(DownloadDoc(st.download.value), st.download.value)
    ensures st.packageJob.Some? ==> ShowsPackageJob(PackageJobDoc(st.packageJob.value), st.packageJob.value)
    ensures st.publish.Some? ==> ShowsPublish(PublishDoc(st.publish.value), st.publish.value)
    ensures st.unpublish.Some? ==> ShowsUnpublish(UnpublishDoc(st.unpublish.value), st.unpublish.value)
    ensures st.conditions != [] ==> ShowsConditions(ConditionsDoc(st.conditions).value, st.conditions)
  {
    hide ShowsArtifact, ShowsDownload, ShowsPackageJob, ShowsPublish, ShowsUnpublish, ShowsCondition;
    hide ArtifactDoc, DownloadDoc, PackageJobDoc, PublishDoc, UnpublishDoc, ConditionDoc;
    if st.artifact.Some? { ArtifactShows(st.artifact.value); }
    if st.download.Some? { DownloadShows(st.download.value); }
    if st.packageJob.Some? { PackageJobShows(st.packageJob.value); }
    if st.publish.Some? { PublishShows(st.publish.value); }
    if st.unpublish.Some? { UnpublishShows(st.unpublish.value); }
    forall i | 0 <= i < |st.conditions| ensures ShowsCondition(ConditionDoc(st.conditions[i]), st.conditions[i]) {
      ConditionShows(st.conditions[i]);
    }
  }

  /** The serialised status shows the status, name by name. */
  lemma StatusShows(st: FeStatus)
    ensures ShowsStatus(StatusDoc(st), st)
  {
    hide Record, Distinct, At, OnlyHas, ShowsArtifact, ShowsDownload, ShowsPackageJob, ShowsPublish, ShowsUnpublish, ShowsConditions;
    KeysDistinct();
    AllFields(STATUS_KEYS, StatusFields(st));
    SectionsShow(st);
    hide ArtifactDoc, DownloadDoc, PackageJobDoc, PublishDoc, UnpublishDoc;
    assert STATUS_KEYS[0] == "phase" && STATUS_KEYS[1] == "observedGeneration" && STATUS_KEYS[2] == "observedSourceHash";
    assert STATUS_KEYS[3] == "observedRebuildToken" && STATUS_KEYS[4] == "artifact" && STATUS_KEYS[5] == "download" && STATUS_KEYS[6] == "packageJob";
    assert STATUS_KEYS[7] == "publish" && STATUS_KEYS[8] == "unpublish" && STATUS_KEYS[9] == "conditions";
  }

  /** After the controller has sent its patch, the stored document shows the merged status. */
  lemma PatchedDocumentShows(stored: Option<FeStatus>, desired: FeStatus)
    ensures ShowsStatus(Merge(if stored.Some? then StatusDoc(stored.value) else DNull, PatchDoc(desired)), MergeStatus(stored, desired))
  {
    hide *;
    PatchMergesStatus(stored, desired);
    StatusShows(MergeStatus(stored, desired));
  }
}
