/**
 The objects of the FrontendExtension protocol as the apiserver stores them, and
 the functions of its environment that are not interpreted here.
 */
module FeTypes {
  import opened Prelude
  import opened Text
  import opened Names

  type Bytes = seq<bv8>

  /** The part of an extension's spec that its source hash covers. */
  type Source = string

  /**
   The extension's name, the controller's attempt limit and namespace, and the
   functions this model leaves uninterpreted: digests, validation, the package
   name, message texts and the uids the apiserver assigns.
   */
  datatype World = World(
    feName: string,
    maxAttempts: nat,
    digest: Bytes -> string,
    sourceHash: Source -> string,
    artifactKey: (string, string) -> string,
    requestHash: string -> string,
    packageName: Source -> string,
    valid: Source -> bool,
    invalidMessage: Source -> string,
    exceededMessage: (string, nat, nat, string) -> string,
    workNamespace: string,
    uidAt: nat -> string)

  ghost predicate CollisionFree(w: World) {
    forall a, b :: w.digest(a) == w.digest(b) ==> a == b
  }

  // ----- Status -----

  datatype FePhase = PhasePending | PhasePackaging | PhaseReady | PhaseFailed
  datatype JobPhase = JobPending | JobRunning | JobSucceeded | JobFailed
  datatype PublishPhase = NotRequested | PublishPending | PublishRunning | PublishSucceeded | PublishFailed

  datatype ArtifactStatus = ArtifactStatus(
    refNamespace: string, refName: string, refUid: Option<string>, key: string,
    digest: string, sizeBytes: int, mediaType: string, filename: string, generatedAt: int,
    sourceHash: string, artifactKey: Option<string>)
  datatype DownloadStatus = DownloadStatus(ready: bool, filename: string, mediaType: string)
  datatype PackageJobStatus = PackageJobStatus(
    namespace: string, name: string, uid: Option<string>, phase: JobPhase,
    startedAt: Option<int>, finishedAt: Option<int>, message: Option<string>)
  datatype ObjectRef = ObjectRef(namespace: string, name: string, uid: Option<string>)
  datatype PublishStatus = PublishStatus(
    phase: PublishPhase, active: bool, requestId: Option<string>, artifactDigest: Option<string>, jobRef: Option<ObjectRef>,
    startedAt: Option<int>, finishedAt: Option<int>, lastError: Option<string>)
  datatype UnpublishStatus = UnpublishStatus(
    phase: PublishPhase, requestId: Option<string>, extensionName: Option<string>, jobRef: Option<ObjectRef>,
    startedAt: Option<int>, finishedAt: Option<int>, lastError: Option<string>)
  datatype Condition = Condition(kind: string, status: string, reason: string, message: Option<string>, observedGeneration: Option<int>)

  datatype FeStatus = FeStatus(
    phase: FePhase,
    observedGeneration: Option<int>,
    observedSourceHash: Option<string>,
    observedRebuildToken: Option<string>,
    artifact: Option<ArtifactStatus>,
    download: Option<DownloadStatus>,
    packageJob: Option<PackageJobStatus>,
    publish: Option<PublishStatus>,
    unpublish: Option<UnpublishStatus>,
    conditions: seq<Condition>)

  // ----- Stored objects -----

  datatype PublishTarget = PublishTarget(kind: string, namespace: string, name: string)

  datatype Fe = Fe(
    uid: string,
    generation: int,
    deleting: bool,
    source: Source,
    policyKind: Option<string>,
    policyRef: Option<ObjectRef>,
    annotations: map<string, string>,
    labels: map<string, string>,
    status: Option<FeStatus>)

  datatype JobCondition = JobCondition(kind: string, status: string, reason: Option<string>, message: Option<string>)
  datatype JobStatus = JobStatus(
    conditions: seq<JobCondition>, active: nat, succeeded: nat, failed: nat,
    startTime: Option<int>, completionTime: Option<int>)

  /**
   What a Job was created to do. `requestedSource` is a history variable: the
   source hash named by the publish request at creation, which the object itself
   does not carry.
   */
  datatype JobTask =
    | PackageTask(feUid: string, sourceHash: string, artifactKey: string, configMapName: string)
    | PublishTask(requestId: string, artifactDigest: string, configMapName: string, target: PublishTarget, requestedSource: Option<string>)
    | UnpublishTask(requestId: string, extensionName: string, target: PublishTarget)

  datatype Job = Job(namespace: string, name: string, uid: string, created: int, task: JobTask, status: Option<JobStatus>)

  datatype PackageMetadata = PackageMetadata(
    digest: string, sourceHash: string, filename: string, mediaType: string, sizeBytes: int, generatedAt: int)

  datatype ConfigMap = ConfigMap(
    namespace: string, name: string, uid: Option<string>, resourceVersion: nat, annotations: map<string, string>,
    metadata: Option<PackageMetadata>, package: Option<Bytes>)

  // ----- Names of labels and annotations -----

  const ANNO_REBUILD_TOKEN := "frontend-forge.kubesphere.io/rebuild-token"
  const ANNO_SOURCE_HASH := "frontend-forge.kubesphere.io/source-hash"
  const ANNO_ARTIFACT_KEY := "frontend-forge.kubesphere.io/artifact-key"
  const ANNO_ARTIFACT_DIGEST := "frontend-forge.kubesphere.io/artifact-digest"
  const ANNO_PUBLISH_REQUEST_ID := "frontend-forge.kubesphere.io/publish-request-id"
  const ANNO_PUBLISH_REQUEST_GENERATION := "frontend-forge.kubesphere.io/publish-request-generation"
  const ANNO_PUBLISH_REQUEST_SOURCE_HASH := "frontend-forge.kubesphere.io/publish-request-source-hash"
  const ANNO_PUBLISH_ARTIFACT_DIGEST := "frontend-forge.kubesphere.io/publish-artifact-digest"
  const ANNO_PUBLISH_TARGET_KIND := "frontend-forge.kubesphere.io/publish-target-kind"
  const ANNO_PUBLISH_TARGET_NAMESPACE := "frontend-forge.kubesphere.io/publish-target-namespace"
  const ANNO_PUBLISH_TARGET_NAME := "frontend-forge.kubesphere.io/publish-target-name"
  const ANNO_UNPUBLISH_REQUEST_ID := "frontend-forge.kubesphere.io/unpublish-request-id"
  const ANNO_UNPUBLISH_EXTENSION_NAME := "frontend-forge.kubesphere.io/unpublish-extension-name"
  const ANNO_DELETE_AFTER_UNPUBLISH_REQUEST_ID := "frontend-forge.kubesphere.io/delete-after-unpublish-request-id"
  const LABEL_PACKAGE_STATUS := "frontend-forge.kubesphere.io/package-state"
  const LABEL_PUBLISH_STATUS := "frontend-forge.kubesphere.io/publish-state"
  const LABEL_PUBLISH_FRESH := "frontend-forge.kubesphere.io/publish-fresh"
  const DEPRECATED_LABEL_PACKAGE_STATUS := "Package"
  const DEPRECATED_LABEL_PUBLISH_STATUS := "Publish"
  const PACKAGE_KEY := "package.tgz"
  const DEFAULT_NAMESPACE := "extension-frontend-forge"

  /** The annotations of a publish request are seven different ones. */
  lemma KeysAreDistinct()
    ensures |ANNO_PUBLISH_REQUEST_ID| < |ANNO_PUBLISH_TARGET_KIND| < |ANNO_PUBLISH_ARTIFACT_DIGEST| < |ANNO_PUBLISH_REQUEST_GENERATION| < |ANNO_PUBLISH_REQUEST_SOURCE_HASH|
    ensures |ANNO_PUBLISH_TARGET_NAME| == |ANNO_PUBLISH_TARGET_KIND| && ANNO_PUBLISH_TARGET_NAME != ANNO_PUBLISH_TARGET_KIND
    ensures |ANNO_PUBLISH_TARGET_KIND| < |ANNO_PUBLISH_TARGET_NAMESPACE| < |ANNO_PUBLISH_REQUEST_GENERATION| && ANNO_PUBLISH_TARGET_NAMESPACE != ANNO_PUBLISH_ARTIFACT_DIGEST
  {
  }

  function Anno(fe: Fe, key: string): Option<string> {
    if key in fe.annotations then Some(fe.annotations[key]) else None
  }

  /** An annotation that is present and not empty. */
  function NonEmptyAnno(fe: Fe, key: string): Option<string> {
    if Anno(fe, key).Some? && Anno(fe, key).value != "" then Anno(fe, key) else None
  }

  // ----- Identity of an extension's current source -----

  function SourceHash(w: World, fe: Fe): string {
    w.sourceHash(fe.source)
  }

  function RebuildToken(fe: Fe): string {
    Trim(Anno(fe, ANNO_REBUILD_TOKEN).UnwrapOr(""))
  }

  function ArtifactKey(w: World, fe: Fe): string {
    w.artifactKey(SourceHash(w, fe), RebuildToken(fe))
  }

  function ArtifactConfigMapName(packageName: string, artifactKey: string): string {
    BoundedNamePreservingSuffix("fe-" + packageName, "-" + HashNameSuffix(artifactKey), MAX_NAME)
  }

  function ArtifactName(w: World, fe: Fe): string {
    ArtifactConfigMapName(w.packageName(fe.source), ArtifactKey(w, fe))
  }

  lemma ConfigMapNameInFull(packageName: string, key: string, digits: string)
    requires Clean(packageName) && Sha256(key, digits)
    ensures var name := ArtifactConfigMapName(packageName, key);
      && |name| <= 63 && (|packageName| <= 47 ==> name == "fe-" + packageName + "-" + digits[..12])
      && exists head :: Clean(head) && name == head + "-" + digits[..12]
  {
    hide Clean, BoundedNamePreservingSuffix;
    HashPieces(key, digits);
    ExtensionPrefixClean(packageName);
    SuffixIsKept("fe-" + packageName, "-" + digits[..12], 63);
    var head :| Clean(head) && ArtifactConfigMapName(packageName, key) == head + ("-" + digits[..12]);
    assert head + ("-" + digits[..12]) == head + "-" + digits[..12];
  }

  /** An artifact is stored under the package's name and the start of its key; a long package name is cut, never the key. */
  lemma ArtifactNameInFull(w: World, fe: Fe, digits: string)
    requires Clean(w.packageName(fe.source)) && Sha256(ArtifactKey(w, fe), digits)
    ensures var package, name := w.packageName(fe.source), ArtifactName(w, fe);
      && |name| <= 63 && (|package| <= 47 ==> name == "fe-" + package + "-" + digits[..12])
      && exists head :: Clean(head) && name == head + "-" + digits[..12]
  {
    hide Clean, ArtifactConfigMapName, ArtifactKey, Sha256;
    ConfigMapNameInFull(w.packageName(fe.source), ArtifactKey(w, fe), digits);
  }

  // ----- Observed Job phase -----

  predicate HasTrueCondition(conditions: seq<JobCondition>, kind: string) {
    exists i :: 0 <= i < |conditions| && conditions[i].status == "True" && conditions[i].kind == kind
  }

  function ObservedPhase(status: Option<JobStatus>): JobPhase {
    if status.None? then JobPending
    else
      var st := status.value;
      if HasTrueCondition(st.conditions, "Complete") then JobSucceeded
      else if HasTrueCondition(st.conditions, "Failed") then JobFailed
      else if st.active > 0 then JobRunning
      else if st.succeeded > 0 then JobSucceeded
      else if st.failed > 0 then JobFailed
      else JobPending
  }

  // ----- What a Job's conditions and counters say -----

  /** Some condition of this kind is True. */
  ghost predicate Reports(st: JobStatus, kind: string) {
    exists c :: c in st.conditions && c.kind == kind && c.status == "True"
  }

  /** No terminal condition is True, so the counters decide. */
  ghost predicate CountersDecide(st: JobStatus) {
    !Reports(st, "Complete") && !Reports(st, "Failed")
  }

  ghost predicate JobIsComplete(status: Option<JobStatus>) {
    status.Some? && var st := status.value; Reports(st, "Complete") || (CountersDecide(st) && st.active == 0 && st.succeeded > 0)
  }

  ghost predicate JobHasFailed(status: Option<JobStatus>) {
    status.Some? && var st := status.value;
    || (Reports(st, "Failed") && !Reports(st, "Complete"))
    || (CountersDecide(st) && st.active == 0 && st.succeeded == 0 && st.failed > 0)
  }

  ghost predicate JobIsRunning(status: Option<JobStatus>) {
    status.Some? && CountersDecide(status.value) && status.value.active > 0
  }

  ghost predicate JobHasEnded(status: Option<JobStatus>) {
    JobIsComplete(status) || JobHasFailed(status)
  }

  lemma ReportsTrue(st: JobStatus, kind: string)
    ensures HasTrueCondition(st.conditions, kind) <==> Reports(st, kind)
  {
    if HasTrueCondition(st.conditions, kind) {
      var i :| 0 <= i < |st.conditions| && st.conditions[i].status == "True" && st.conditions[i].kind == kind;
      assert st.conditions[i] in st.conditions;
    }
  }

  /** The observed phase of a Job, on its conditions and counters. */
  lemma PhaseMeans(status: Option<JobStatus>)
    ensures ObservedPhase(status).JobSucceeded? <==> JobIsComplete(status)
    ensures ObservedPhase(status).JobFailed? <==> JobHasFailed(status)
    ensures ObservedPhase(status).JobRunning? <==> JobIsRunning(status)
  {
    hide HasTrueCondition, Reports;
    if status.Some? {
      ReportsTrue(status.value, "Complete");
      ReportsTrue(status.value, "Failed");
    }
  }

  predicate Finished(status: Option<JobStatus>) {
    ObservedPhase(status).JobSucceeded? || ObservedPhase(status).JobFailed?
  }

  function FirstFailed(conditions: seq<JobCondition>): Option<JobCondition> {
    if conditions == [] then None
    else if conditions[0].status == "True" && conditions[0].kind == "Failed" then Some(conditions[0])
    else FirstFailed(conditions[1..])
  }

  function JobMessage(job: Job): Option<string> {
    if job.status.None? then None
    else
      var failed := FirstFailed(job.status.value.conditions);
      if failed.None? then None
      else if failed.value.message.Some? then failed.value.message
      else failed.value.reason
  }

  /** The message of a failed Job is that of its first condition Failed=True, or that condition's reason. */
  ghost predicate IsFirstFailed(st: JobStatus, i: nat) {
    && i < |st.conditions| && st.conditions[i].kind == "Failed" && st.conditions[i].status == "True"
    && forall j :: 0 <= j < i ==> st.conditions[j].kind != "Failed" || st.conditions[j].status != "True"
  }

  lemma MessageMeans(job: Job, i: nat)
    requires job.status.Some? && IsFirstFailed(job.status.value, i)
    ensures var c := job.status.value.conditions[i]; JobMessage(job) == if c.message.Some? then c.message else c.reason
  {
    FirstFailedAt(job.status.value.conditions, i);
  }

  lemma NoMessage(job: Job)
    requires job.status.None? || !Reports(job.status.value, "Failed")
    ensures JobMessage(job) == None
  {
    if job.status.Some? { NoneFailed(job.status.value.conditions); }
  }

  lemma {:induction false} FirstFailedAt(conditions: seq<JobCondition>, i: nat)
    requires i < |conditions| && conditions[i].kind == "Failed" && conditions[i].status == "True"
    requires forall j :: 0 <= j < i ==> conditions[j].kind != "Failed" || conditions[j].status != "True"
    ensures FirstFailed(conditions) == Some(conditions[i])
  {
    if i > 0 { FirstFailedAt(conditions[1..], i - 1); }
  }

  lemma {:induction false} NoneFailed(conditions: seq<JobCondition>)
    requires forall c :: c in conditions ==> c.kind != "Failed" || c.status != "True"
    ensures FirstFailed(conditions) == None
  {
    if conditions != [] {
      assert conditions[0] in conditions;
      NoneFailed(conditions[1..]);
    }
  }

  function StartTime(job: Job): Option<int> {
    if job.status.Some? then job.status.value.startTime else None
  }

  function CompletionTime(job: Job): Option<int> {
    if job.status.Some? then job.status.value.completionTime else None
  }

  /** The two ConfigMap checks of artifact_metadata_from_configmap that name the artifact, then those on its content. */
  function ArtifactMetadata(w: World, cm: ConfigMap, sourceHash: string, artifactKey: string): (r: Option<PackageMetadata>)
    ensures r.Some? <==>
      && ANNO_SOURCE_HASH in cm.annotations && cm.annotations[ANNO_SOURCE_HASH] == sourceHash
      && ANNO_ARTIFACT_KEY in cm.annotations && cm.annotations[ANNO_ARTIFACT_KEY] == artifactKey
      && cm.metadata.Some? && cm.metadata.value.sourceHash == sourceHash
      && cm.package.Some? && w.digest(cm.package.value) == cm.metadata.value.digest
      && ANNO_ARTIFACT_DIGEST in cm.annotations && cm.annotations[ANNO_ARTIFACT_DIGEST] == cm.metadata.value.digest
    ensures r.Some? ==> r == cm.metadata
  {
    if ANNO_SOURCE_HASH !in cm.annotations || cm.annotations[ANNO_SOURCE_HASH] != sourceHash then None
    else if ANNO_ARTIFACT_KEY !in cm.annotations || cm.annotations[ANNO_ARTIFACT_KEY] != artifactKey then None
    else if cm.metadata.None? || cm.metadata.value.sourceHash != sourceHash then None
    else if cm.package.None? || w.digest(cm.package.value) != cm.metadata.value.digest then None
    else if ANNO_ARTIFACT_DIGEST !in cm.annotations || cm.annotations[ANNO_ARTIFACT_DIGEST] != cm.metadata.value.digest then None
    else cm.metadata
  }
}
