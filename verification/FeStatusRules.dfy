/**
 Status construction, publish and unpublish rules of the FrontendExtension
 controller (crates/frontend-extension-controller/src/status.rs, publish.rs,
 unpublish.rs, package.rs).
 */
module FeStatusRules {
  import opened Prelude
  import opened Names
  import opened Sequences
  import opened FeTypes

  // ----- Requests -----

  /** str::parse::<i64> on the generation annotation. */
  function ParseI64(s: string): Option<int> {
    var negative := s != [] && s[0] == '-';
    var digits := if s != [] && (s[0] == '-' || s[0] == '+') then s[1..] else s;
    var n := UnsignedValue(digits);
    if digits == [] || n.None? then None
    else if negative then (if n.value <= 0x8000_0000_0000_0000 then Some(-(n.value as int)) else None)
    else if n.value < 0x8000_0000_0000_0000 then Some(n.value)
    else None
  }

  function UnsignedValue(s: string): Option<nat> {
    if s == [] then Some(0)
    else
      var front, c := UnsignedValue(s[..|s| - 1]), s[|s| - 1];
      if front.Some? && '0' <= c <= '9' then Some(front.value * 10 + (c as int - 48)) else None
  }

  function RequestedGeneration(fe: Fe): Option<int> {
    if Anno(fe, ANNO_PUBLISH_REQUEST_GENERATION).Some? then ParseI64(Anno(fe, ANNO_PUBLISH_REQUEST_GENERATION).value) else None
  }

  function RequestedSourceHash(fe: Fe): Option<string> {
    NonEmptyAnno(fe, ANNO_PUBLISH_REQUEST_SOURCE_HASH)
  }

  function RequestedDigest(fe: Fe): Option<string> {
    NonEmptyAnno(fe, ANNO_PUBLISH_ARTIFACT_DIGEST)
  }

  function TargetRef(fe: Fe): Option<ObjectRef> {
    var name := NonEmptyAnno(fe, ANNO_PUBLISH_TARGET_NAME);
    if name.Some? then Some(ObjectRef(NonEmptyAnno(fe, ANNO_PUBLISH_TARGET_NAMESPACE).UnwrapOr(DEFAULT_NAMESPACE), name.value, None))
    else fe.policyRef
  }

  function TargetKind(fe: Fe): string {
    var kind := NonEmptyAnno(fe, ANNO_PUBLISH_TARGET_KIND);
    if kind.Some? then kind.value else fe.policyKind.UnwrapOr("ConfigMap")
  }

  datatype PublishRequest = PublishRequest(requestId: string, artifactDigest: string, target: PublishTarget)
  datatype UnpublishRequest = UnpublishRequest(requestId: string, extensionName: string, target: PublishTarget)

  const NO_PUBLISH := PublishStatus(NotRequested, false, None, None, None, None, None, None)
  const NO_UNPUBLISH := UnpublishStatus(NotRequested, None, None, None, None, None, None)

  function FailedPublish(requestId: string, digest: Option<string>, message: string): PublishStatus {
    NO_PUBLISH.(phase := PublishFailed, requestId := Some(requestId), artifactDigest := digest, lastError := Some(message))
  }

  predicate Given(fe: Fe, key: string) {
    key in fe.annotations && fe.annotations[key] != ""
  }

  /** The target of a request: named by the target annotations, or by the publish policy. */
  ghost predicate TargetAsked(fe: Fe, target: PublishTarget) {
    && target.kind == (if Given(fe, ANNO_PUBLISH_TARGET_KIND) then fe.annotations[ANNO_PUBLISH_TARGET_KIND]
                       else if fe.policyKind.Some? then fe.policyKind.value else "ConfigMap")
    && (if Given(fe, ANNO_PUBLISH_TARGET_NAME) then
          && target.name == fe.annotations[ANNO_PUBLISH_TARGET_NAME]
          && target.namespace == (if Given(fe, ANNO_PUBLISH_TARGET_NAMESPACE) then fe.annotations[ANNO_PUBLISH_TARGET_NAMESPACE]
                                  else "extension-frontend-forge")
        else fe.policyRef.Some? && target.name == fe.policyRef.value.name && target.namespace == fe.policyRef.value.namespace)
  }

  /** How the publish annotations resolve against the current artifact. */
  datatype PublishOutcome = NoRequest | StaleRequest | RejectedRequest(status: PublishStatus) | Accepted(request: PublishRequest)

  /** The request names a generation, source or artifact that is not the current one. */
  predicate Superseded(fe: Fe, artifact: PackageMetadata) {
    || (RequestedGeneration(fe).Some? && RequestedGeneration(fe).value != fe.generation)
    || (RequestedSourceHash(fe).Some? && RequestedSourceHash(fe).value != artifact.sourceHash)
    || (RequestedDigest(fe).Some? && RequestedDigest(fe).value != artifact.digest)
  }

  /** The request names neither a source nor an artifact, or no target the publisher could write. */
  predicate Incomplete(fe: Fe) {
    || (RequestedSourceHash(fe).None? && RequestedDigest(fe).None?)
    || TargetRef(fe).None? || TargetKind(fe) !in {"ConfigMap", "Secret"}
  }

  function ResolvePublish(fe: Fe, artifact: PackageMetadata): (r: PublishOutcome)
    ensures r.NoRequest? <==> NonEmptyAnno(fe, ANNO_PUBLISH_REQUEST_ID).None?
    ensures r.StaleRequest? <==> !r.NoRequest? && Superseded(fe, artifact)
    ensures r.RejectedRequest? <==> !r.NoRequest? && !Superseded(fe, artifact) && Incomplete(fe)
    ensures r.RejectedRequest? ==> r.status.phase.PublishFailed? && !r.status.active && r.status.requestId == NonEmptyAnno(fe, ANNO_PUBLISH_REQUEST_ID)
    ensures r.Accepted? ==>
      && r.request.artifactDigest == artifact.digest
      && (RequestedSourceHash(fe).Some? ==> RequestedSourceHash(fe).value == artifact.sourceHash)
      && Some(r.request.requestId) == NonEmptyAnno(fe, ANNO_PUBLISH_REQUEST_ID)
  {
    var id := NonEmptyAnno(fe, ANNO_PUBLISH_REQUEST_ID);
    if id.None? then NoRequest
    else if RequestedGeneration(fe).Some? && RequestedGeneration(fe).value != fe.generation then StaleRequest
    else if RequestedSourceHash(fe).Some? && RequestedSourceHash(fe).value != artifact.sourceHash then StaleRequest
    else if RequestedDigest(fe).None? && RequestedSourceHash(fe).None? then
      RejectedRequest(FailedPublish(id.value, None, "publish artifact digest or source hash annotation is required"))
    else if RequestedDigest(fe).Some? && RequestedDigest(fe).value != artifact.digest then StaleRequest
    else
      var digest := RequestedDigest(fe).UnwrapOr(artifact.digest);
      if TargetRef(fe).None? then RejectedRequest(FailedPublish(id.value, Some(digest), "publish targetRef is required"))
      else if TargetKind(fe) != "ConfigMap" && TargetKind(fe) != "Secret" then
        RejectedRequest(FailedPublish(id.value, Some(digest), "publish targetKind must be ConfigMap or Secret"))
      else Accepted(PublishRequest(id.value, digest, PublishTarget(TargetKind(fe), TargetRef(fe).value.namespace, TargetRef(fe).value.name)))
  }

  datatype UnpublishOutcome = NoUnpublish | RejectedUnpublish(status: UnpublishStatus) | AcceptedUnpublish(request: UnpublishRequest)

  function ResolveUnpublish(w: World, fe: Fe): (r: UnpublishOutcome)
    ensures r.NoUnpublish? <==> !Given(fe, ANNO_UNPUBLISH_REQUEST_ID)
    ensures r.RejectedUnpublish? <==> !r.NoUnpublish? && (TargetRef(fe).None? || TargetKind(fe) !in {"ConfigMap", "Secret"})
    ensures r.RejectedUnpublish? ==> r.status.phase.PublishFailed? && r.status.requestId == Some(fe.annotations[ANNO_UNPUBLISH_REQUEST_ID])
    ensures r.AcceptedUnpublish? ==>
      && r.request.requestId == fe.annotations[ANNO_UNPUBLISH_REQUEST_ID]
      && r.request.extensionName == (if Given(fe, ANNO_UNPUBLISH_EXTENSION_NAME) then fe.annotations[ANNO_UNPUBLISH_EXTENSION_NAME] else w.packageName(fe.source))
  {
    var id := NonEmptyAnno(fe, ANNO_UNPUBLISH_REQUEST_ID);
    if id.None? then NoUnpublish
    else
      var name := NonEmptyAnno(fe, ANNO_UNPUBLISH_EXTENSION_NAME).UnwrapOr(w.packageName(fe.source));
      var failed := NO_UNPUBLISH.(phase := PublishFailed, requestId := id, extensionName := Some(name));
      if TargetRef(fe).None? then RejectedUnpublish(failed.(lastError := Some("publish targetRef is required")))
      else if TargetKind(fe) != "ConfigMap" && TargetKind(fe) != "Secret" then
        RejectedUnpublish(failed.(lastError := Some("publish targetKind must be ConfigMap or Secret")))
      else AcceptedUnpublish(UnpublishRequest(id.value, name, PublishTarget(TargetKind(fe), TargetRef(fe).value.namespace, TargetRef(fe).value.name)))
  }

  /** An accepted request, of either kind, is for the target asked for. */
  lemma AcceptedTargets(w: World, fe: Fe, artifact: PackageMetadata)
    ensures ResolvePublish(fe, artifact).Accepted? ==> TargetAsked(fe, ResolvePublish(fe, artifact).request.target)
    ensures ResolveUnpublish(w, fe).AcceptedUnpublish? ==> TargetAsked(fe, ResolveUnpublish(w, fe).request.target)
  {
    TargetIsAsked(fe);
    hide TargetRef, TargetKind, RequestedGeneration, RequestedSourceHash, RequestedDigest, NonEmptyAnno;
  }

  lemma TargetIsAsked(fe: Fe)
    ensures TargetRef(fe).Some? ==> TargetAsked(fe, PublishTarget(TargetKind(fe), TargetRef(fe).value.namespace, TargetRef(fe).value.name))
  {
  }

  /** Why a request is turned down, by what it does not give. */
  ghost function WhyRejected(fe: Fe, bound: bool): string {
    if bound && !Given(fe, ANNO_PUBLISH_REQUEST_SOURCE_HASH) && !Given(fe, ANNO_PUBLISH_ARTIFACT_DIGEST)
    then "publish artifact digest or source hash annotation is required"
    else if !Given(fe, ANNO_PUBLISH_TARGET_NAME) && fe.policyRef.None? then "publish targetRef is required"
    else "publish targetKind must be ConfigMap or Secret"
  }

  /** A rejected publish is stored as failed under its id, with the reason; it has to name a source or an artifact. */
  lemma RejectionSays(fe: Fe, artifact: PackageMetadata)
    ensures var r := ResolvePublish(fe, artifact); r.RejectedRequest? ==>
      && r.status.phase == PublishFailed && !r.status.active && r.status.lastError == Some(WhyRejected(fe, true))
      && Given(fe, ANNO_PUBLISH_REQUEST_ID) && r.status.requestId == Some(fe.annotations[ANNO_PUBLISH_REQUEST_ID])
  {
    hide RequestedGeneration, TargetKind, TargetRef, NonEmptyAnno, Given;
    NoTarget(fe);
    GivenIs(fe, ANNO_PUBLISH_REQUEST_ID);
    GivenIs(fe, ANNO_PUBLISH_REQUEST_SOURCE_HASH);
    GivenIs(fe, ANNO_PUBLISH_ARTIFACT_DIGEST);
  }

  /** And so is an unpublish, with the name it is for. */
  lemma UnpublishRejectionSays(w: World, fe: Fe)
    ensures var r := ResolveUnpublish(w, fe); r.RejectedUnpublish? ==>
      && r.status.phase == PublishFailed && r.status.lastError == Some(WhyRejected(fe, false))
      && Given(fe, ANNO_UNPUBLISH_REQUEST_ID) && r.status.requestId == Some(fe.annotations[ANNO_UNPUBLISH_REQUEST_ID])
      && r.status.extensionName == Some(
           if Given(fe, ANNO_UNPUBLISH_EXTENSION_NAME) then fe.annotations[ANNO_UNPUBLISH_EXTENSION_NAME] else w.packageName(fe.source))
  {
    hide TargetKind, TargetRef, NonEmptyAnno, Given;
    NoTarget(fe);
    GivenIs(fe, ANNO_UNPUBLISH_REQUEST_ID);
    GivenIs(fe, ANNO_UNPUBLISH_EXTENSION_NAME);
  }

  lemma GivenIs(fe: Fe, key: string)
    ensures NonEmptyAnno(fe, key) == if Given(fe, key) then Some(fe.annotations[key]) else None
    ensures Given(fe, key) ==> key in fe.annotations
  {
  }

  lemma NoTarget(fe: Fe)
    ensures TargetRef(fe).None? <==> !Given(fe, ANNO_PUBLISH_TARGET_NAME) && fe.policyRef.None?
  {
  }

  // ----- What the stored status says about requests -----

  function StoredPublish(fe: Fe): Option<PublishStatus> {
    if fe.status.Some? then fe.status.value.publish else None
  }

  function StoredUnpublish(fe: Fe): Option<UnpublishStatus> {
    if fe.status.Some? then fe.status.value.unpublish else None
  }

  function StoredArtifactKey(fe: Fe): Option<string> {
    if fe.status.Some? && fe.status.value.artifact.Some? then fe.status.value.artifact.value.artifactKey else None
  }

  /** A stored publish is kept for the same artifact, or while it is still live. */
  function RetainedPublish(fe: Fe, artifactKey: string): Option<PublishStatus> {
    var publish := StoredPublish(fe);
    if publish.None? then None
    else if StoredArtifactKey(fe) == Some(artifactKey) then publish
    else if publish.value.phase.PublishSucceeded? && publish.value.active then publish
    else None
  }

  function PendingPublish(w: World, fe: Fe): Option<PublishStatus> {
    var id := NonEmptyAnno(fe, ANNO_PUBLISH_REQUEST_ID);
    if id.None? || RequestedSourceHash(fe).None? || RequestedDigest(fe).Some? then None
    else if RequestedGeneration(fe).Some? && RequestedGeneration(fe).value != fe.generation then None
    else if RequestedSourceHash(fe).value != SourceHash(w, fe) then None
    else Some(NO_PUBLISH.(phase := PublishPending, requestId := id))
  }

  predicate Terminal(phase: PublishPhase) {
    phase.PublishSucceeded? || phase.PublishFailed?
  }

  predicate PublishAlreadyFinished(fe: Fe, request: PublishRequest, artifactKey: string) {
    var publish := StoredPublish(fe);
    && publish.Some?
    && publish.value.requestId == Some(request.requestId)
    && publish.value.artifactDigest == Some(request.artifactDigest)
    && StoredArtifactKey(fe) == Some(artifactKey)
    && Terminal(publish.value.phase)
  }

  predicate UnpublishAlreadyFinished(fe: Fe, request: UnpublishRequest) {
    var unpublish := StoredUnpublish(fe);
    && unpublish.Some?
    && unpublish.value.requestId == Some(request.requestId)
    && unpublish.value.extensionName == Some(request.extensionName)
    && Terminal(unpublish.value.phase)
  }

  /** The stored status has a publish section `p`. */
  predicate Records(fe: Fe, p: PublishStatus) {
    fe.status.Some? && fe.status.value.publish == Some(p)
  }

  predicate RecordsArtifact(fe: Fe, artifactKey: string) {
    fe.status.Some? && fe.status.value.artifact.Some? && fe.status.value.artifact.value.artifactKey == Some(artifactKey)
  }

  /** When a request counts as finished, and which publish section is kept without a current request, on the stored status. */
  lemma RecordedMeans(fe: Fe, request: PublishRequest, unpublish: UnpublishRequest, artifactKey: string)
    ensures PublishAlreadyFinished(fe, request, artifactKey) <==>
      && RecordsArtifact(fe, artifactKey)
      && exists p :: Records(fe, p) && p.requestId == Some(request.requestId) && p.artifactDigest == Some(request.artifactDigest)
                     && (p.phase == PublishSucceeded || p.phase == PublishFailed)
    ensures UnpublishAlreadyFinished(fe, unpublish) <==>
      && fe.status.Some? && fe.status.value.unpublish.Some?
      && var u := fe.status.value.unpublish.value;
      && u.requestId == Some(unpublish.requestId) && u.extensionName == Some(unpublish.extensionName)
      && (u.phase == PublishSucceeded || u.phase == PublishFailed)
    ensures forall p :: RetainedPublish(fe, artifactKey) == Some(p) <==>
      Records(fe, p) && (RecordsArtifact(fe, artifactKey) || (p.phase == PublishSucceeded && p.active))
  {
    if PublishAlreadyFinished(fe, request, artifactKey) { assert Records(fe, fe.status.value.publish.value); }
  }

  // ----- Status of Jobs -----

  function JobRef(job: Job): ObjectRef {
    ObjectRef(job.namespace, job.name, Some(job.uid))
  }

  function PackageJobOf(job: Job): PackageJobStatus {
    PackageJobStatus(
      job.namespace, job.name, Some(job.uid), ObservedPhase(job.status), StartTime(job), CompletionTime(job), JobMessage(job))
  }

  function PublishPhaseOf(phase: JobPhase): PublishPhase {
    match phase
    case JobPending => PublishPending
    case JobRunning => PublishRunning
    case JobSucceeded => PublishSucceeded
    case JobFailed => PublishFailed
  }

  function JobError(job: Job, default: string): Option<string> {
    if ObservedPhase(job.status).JobFailed? then Some(JobMessage(job).UnwrapOr(default)) else None
  }

  function PublishStatusOf(request: PublishRequest, job: Job): PublishStatus {
    var phase := PublishPhaseOf(ObservedPhase(job.status));
    PublishStatus(
      phase, phase.PublishSucceeded?, Some(request.requestId), Some(request.artifactDigest), Some(JobRef(job)),
      StartTime(job), CompletionTime(job), JobError(job, "Publish job failed"))
  }

  function UnpublishStatusOf(request: UnpublishRequest, job: Job): UnpublishStatus {
    UnpublishStatus(
      PublishPhaseOf(ObservedPhase(job.status)), Some(request.requestId), Some(request.extensionName), Some(JobRef(job)),
      StartTime(job), CompletionTime(job), JobError(job, "Unpublish job failed"))
  }

  /** A publish or unpublish status is in the phase that the Job's conditions and counters say, with the Job's own times and message. */
  ghost predicate ReportsJob(
    job: Job, phase: PublishPhase, jobRef: Option<ObjectRef>, startedAt: Option<int>, finishedAt: Option<int>,
    lastError: Option<string>, default: string)
  {
    && (phase.PublishSucceeded? <==> JobIsComplete(job.status))
    && (phase.PublishFailed? <==> JobHasFailed(job.status))
    && (phase.PublishRunning? <==> JobIsRunning(job.status))
    && (phase.PublishPending? <==> !JobHasEnded(job.status) && !JobIsRunning(job.status))
    && jobRef == Some(ObjectRef(job.namespace, job.name, Some(job.uid)))
    && startedAt == (if job.status.Some? then job.status.value.startTime else None)
    && finishedAt == (if job.status.Some? then job.status.value.completionTime else None)
    && lastError == (if JobHasFailed(job.status) then Some(JobMessage(job).UnwrapOr(default)) else None)
  }

  ghost predicate ReportsPublish(request: PublishRequest, job: Job, p: PublishStatus) {
    && p.requestId == Some(request.requestId) && p.artifactDigest == Some(request.artifactDigest)
    && (p.active <==> JobIsComplete(job.status))
    && ReportsJob(job, p.phase, p.jobRef, p.startedAt, p.finishedAt, p.lastError, "Publish job failed")
  }

  ghost predicate ReportsUnpublish(request: UnpublishRequest, job: Job, u: UnpublishStatus) {
    && u.requestId == Some(request.requestId) && u.extensionName == Some(request.extensionName)
    && ReportsJob(job, u.phase, u.jobRef, u.startedAt, u.finishedAt, u.lastError, "Unpublish job failed")
  }

  lemma StatusReportsJob(request: PublishRequest, unpublish: UnpublishRequest, job: Job)
    ensures ReportsPublish(request, job, PublishStatusOf(request, job))
    ensures ReportsUnpublish(unpublish, job, UnpublishStatusOf(unpublish, job))
  {
    hide ObservedPhase, JobIsComplete, JobHasFailed, JobIsRunning, JobMessage;
    PhaseMeans(job.status);
  }

  /** The package Job section says the same of a package Job. */
  lemma PackageJobReports(job: Job)
    ensures var p := PackageJobOf(job);
      && p.namespace == job.namespace && p.name == job.name && p.uid == Some(job.uid)
      && (p.phase.JobSucceeded? <==> JobIsComplete(job.status)) && (p.phase.JobFailed? <==> JobHasFailed(job.status))
      && (p.phase.JobRunning? <==> JobIsRunning(job.status))
      && p.startedAt == (if job.status.Some? then job.status.value.startTime else None)
      && p.finishedAt == (if job.status.Some? then job.status.value.completionTime else None)
      && p.message == JobMessage(job)
  {
    hide ObservedPhase, JobIsComplete, JobHasFailed, JobIsRunning, JobMessage;
    PhaseMeans(job.status);
  }

  // ----- Conditions -----

  function FeCondition(kind: string, status: string, reason: string, message: string, generation: int): Condition {
    Condition(kind, status, reason, if message == "" then None else Some(message), Some(generation))
  }

  function PublishCondition(publish: Option<PublishStatus>, generation: int): Condition {
    if publish.Some? && publish.value.phase.PublishSucceeded? then FeCondition("PublishSucceeded", "True", "Succeeded", "", generation)
    else if publish.Some? && publish.value.phase.PublishFailed? then
      FeCondition("PublishSucceeded", "False", "PublishFailed", publish.value.lastError.UnwrapOr(""), generation)
    else FeCondition("PublishSucceeded", "False", "NotRequested", "", generation)
  }

  // ----- The three statuses -----

  const NO_DOWNLOAD := DownloadStatus(false, "", "")

  function NotReadyPublish(w: World, fe: Fe): Option<PublishStatus> {
    var pending := PendingPublish(w, fe);
    if pending.Some? then pending else RetainedPublish(fe, ArtifactKey(w, fe))
  }

  function PackagingStatus(w: World, fe: Fe, job: Job, message: string): FeStatus {
    var publish := NotReadyPublish(w, fe);
    FeStatus(
      PhasePackaging, Some(fe.generation), Some(SourceHash(w, fe)), Some(RebuildToken(fe)),
      None, Some(NO_DOWNLOAD), Some(PackageJobOf(job)), publish, StoredUnpublish(fe),
      [FeCondition("SourceValid", "True", "Validated", "", fe.generation),
       FeCondition("ArtifactReady", "False", "Packaging", message, fe.generation),
       FeCondition("DownloadReady", "False", "ArtifactNotReady", message, fe.generation),
       PublishCondition(publish, fe.generation)])
  }

  function FailedStatus(w: World, fe: Fe, job: Option<Job>, reason: string, message: string): FeStatus {
    var publish := NotReadyPublish(w, fe);
    FeStatus(
      PhaseFailed, Some(fe.generation), Some(SourceHash(w, fe)), Some(RebuildToken(fe)),
      None, Some(NO_DOWNLOAD), if job.Some? then Some(PackageJobOf(job.value)) else None, publish, StoredUnpublish(fe),
      [FeCondition("SourceValid", if reason == "InvalidSource" then "False" else "True", reason, message, fe.generation),
       FeCondition("ArtifactReady", "False", reason, message, fe.generation),
       FeCondition("DownloadReady", "False", "ArtifactNotReady", message, fe.generation),
       PublishCondition(publish, fe.generation)])
  }

  function ReadyStatus(w: World, fe: Fe, cm: ConfigMap, artifact: PackageMetadata, packageJob: Option<PackageJobStatus>): FeStatus {
    FeStatus(
      PhaseReady, Some(fe.generation), Some(SourceHash(w, fe)), Some(RebuildToken(fe)),
      Some(ArtifactStatus(
        cm.namespace, cm.name, cm.uid, PACKAGE_KEY, artifact.digest, artifact.sizeBytes, artifact.mediaType, artifact.filename,
        artifact.generatedAt, artifact.sourceHash, Some(ArtifactKey(w, fe)))),
      Some(DownloadStatus(true, artifact.filename, artifact.mediaType)),
      packageJob, StoredPublish(fe), StoredUnpublish(fe),
      [FeCondition("SourceValid", "True", "Validated", "", fe.generation),
       FeCondition("ArtifactReady", "True", "Generated", "", fe.generation),
       FeCondition("DownloadReady", "True", "Available", "", fe.generation),
       PublishCondition(StoredPublish(fe), fe.generation)])
  }

  function ApplyPublishSync(status: FeStatus, publish: Option<PublishStatus>): FeStatus {
    status.(
      publish := publish,
      conditions := Filter(status.conditions, (c: Condition) => c.kind != "PublishSucceeded")
        + [PublishCondition(publish, status.observedGeneration.UnwrapOr(0))])
  }

  function EffectiveTime(finishedAt: Option<int>, startedAt: Option<int>): Option<int> {
    if finishedAt.Some? then finishedAt else startedAt
  }

  predicate UnpublishedAfter(publish: PublishStatus, unpublish: UnpublishStatus) {
    var p := EffectiveTime(publish.finishedAt, publish.startedAt);
    var u := EffectiveTime(unpublish.finishedAt, unpublish.startedAt);
    p.Some? && u.Some? && u.value >= p.value
  }

  function ApplyUnpublishSync(status: FeStatus, unpublish: Option<UnpublishStatus>): FeStatus {
    var next := status.(unpublish := unpublish);
    if status.publish.Some? && unpublish.Some? && unpublish.value.phase.PublishSucceeded?
       && UnpublishedAfter(status.publish.value, unpublish.value)
    then next.(publish := Some(status.publish.value.(active := false)))
    else next
  }

  predicate ShouldDelete(fe: Fe, unpublish: Option<UnpublishStatus>) {
    var id := NonEmptyAnno(fe, ANNO_DELETE_AFTER_UNPUBLISH_REQUEST_ID);
    id.Some? && unpublish.Some? && unpublish.value.phase.PublishSucceeded? && unpublish.value.requestId == id
  }

  // ----- The observation guard and the labels -----

  predicate Observes(w: World, fe: Fe, status: FeStatus) {
    && status.observedGeneration == Some(fe.generation)
    && status.observedSourceHash == Some(SourceHash(w, fe))
    && status.observedRebuildToken == Some(RebuildToken(fe))
    && (status.artifact.Some? ==> status.artifact.value.artifactKey == Some(ArtifactKey(w, fe)))
  }

  function PackageStateLabel(phase: FePhase): string {
    match phase
    case PhaseReady => "ready"
    case PhaseFailed => "failed"
    case PhasePending => "packaging"
    case PhasePackaging => "packaging"
  }

  function PublishStateLabel(publish: Option<PublishStatus>): string {
    if publish.None? then "not-published"
    else match publish.value.phase
      case PublishPending => "publishing"
      case PublishRunning => "publishing"
      case PublishSucceeded => if publish.value.active then "published" else "not-published"
      case PublishFailed => "failed"
      case NotRequested => "not-published"
  }

  function PublishFreshLabel(status: FeStatus): string {
    if status.artifact.Some? && status.publish.Some? && status.publish.value.phase.PublishSucceeded? && status.publish.value.active
       && status.publish.value.artifactDigest == Some(status.artifact.value.digest)
    then "true" else "false"
  }

  function StatusLabels(status: FeStatus): map<string, string> {
    map[
      LABEL_PACKAGE_STATUS := PackageStateLabel(status.phase),
      LABEL_PUBLISH_STATUS := PublishStateLabel(status.publish),
      LABEL_PUBLISH_FRESH := PublishFreshLabel(status)]
  }

  predicate LabelsNeedPatch(labels: map<string, string>, status: FeStatus) {
    || (exists k :: k in StatusLabels(status) && (k !in labels || labels[k] != StatusLabels(status)[k]))
    || DEPRECATED_LABEL_PACKAGE_STATUS in labels
    || DEPRECATED_LABEL_PUBLISH_STATUS in labels
  }

  /** The merge patch on labels: set the three, null the two deprecated ones. */
  function PatchLabels(labels: map<string, string>, status: FeStatus): map<string, string> {
    (labels - {DEPRECATED_LABEL_PACKAGE_STATUS, DEPRECATED_LABEL_PUBLISH_STATUS}) + StatusLabels(status)
  }

  // ----- Merging a status patch into the stored status -----

  function Or<T>(a: Option<T>, b: Option<T>): Option<T> {
    if a.Some? then a else b
  }

  function MergeArtifact(stored: Option<ArtifactStatus>, desired: ArtifactStatus): ArtifactStatus {
    if stored.None? then desired
    else desired.(
      refUid := Or(desired.refUid, stored.value.refUid),
      artifactKey := Or(desired.artifactKey, stored.value.artifactKey))
  }

  function MergePackageJob(stored: Option<PackageJobStatus>, desired: PackageJobStatus): PackageJobStatus {
    if stored.None? then desired
    else desired.(
      uid := Or(desired.uid, stored.value.uid),
      startedAt := Or(desired.startedAt, stored.value.startedAt),
      finishedAt := Or(desired.finishedAt, stored.value.finishedAt))
  }

  function MergeRef(stored: Option<ObjectRef>, desired: Option<ObjectRef>): Option<ObjectRef> {
    if desired.None? || stored.None? then Or(desired, stored)
    else Some(desired.value.(uid := Or(desired.value.uid, stored.value.uid)))
  }

  function MergePublish(stored: Option<PublishStatus>, desired: PublishStatus): PublishStatus {
    if stored.None? then desired
    else desired.(
      requestId := Or(desired.requestId, stored.value.requestId),
      artifactDigest := Or(desired.artifactDigest, stored.value.artifactDigest),
      jobRef := MergeRef(stored.value.jobRef, desired.jobRef),
      startedAt := Or(desired.startedAt, stored.value.startedAt),
      finishedAt := Or(desired.finishedAt, stored.value.finishedAt))
  }

  function MergeUnpublish(stored: Option<UnpublishStatus>, desired: UnpublishStatus): UnpublishStatus {
    if stored.None? then desired
    else desired.(
      requestId := Or(desired.requestId, stored.value.requestId),
      extensionName := Or(desired.extensionName, stored.value.extensionName),
      jobRef := MergeRef(stored.value.jobRef, desired.jobRef),
      startedAt := Or(desired.startedAt, stored.value.startedAt),
      finishedAt := Or(desired.finishedAt, stored.value.finishedAt))
  }

  /**
   What the stored status becomes when the patch built from `desired` is merged
   into it: missing sections are cleared, but optional fields nested in a
   section survive unless the patch nulls them.
   */
  function MergeStatus(stored: Option<FeStatus>, desired: FeStatus): FeStatus {
    if stored.None? then desired
    else
      var st := stored.value;
      FeStatus(
        desired.phase,
        Or(desired.observedGeneration, st.observedGeneration),
        Or(desired.observedSourceHash, st.observedSourceHash),
        Or(desired.observedRebuildToken, st.observedRebuildToken),
        if desired.artifact.Some? then Some(MergeArtifact(st.artifact, desired.artifact.value)) else None,
        desired.download,
        if desired.packageJob.Some? then Some(MergePackageJob(st.packageJob, desired.packageJob.value)) else None,
        if desired.publish.Some? then Some(MergePublish(st.publish, desired.publish.value)) else None,
        if desired.unpublish.Some? then Some(MergeUnpublish(st.unpublish, desired.unpublish.value)) else None,
        if desired.conditions == [] then st.conditions else desired.conditions)
  }
}
