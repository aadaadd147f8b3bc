/**
 One reconcile of the FrontendExtension controller
 (crates/frontend-extension-controller/src/controller.rs) against an apiserver
 that nobody else writes meanwhile: first as a function from the cluster before
 to the cluster after, then as the source's sequence of reads and writes on a
 mutable server. `FeProtocol` interleaves the same decisions with other actors.
 */
module FeReconcile {
  import opened Prelude
  import opened Text
  import opened Names
  import opened FeTypes
  import opened FeStatusRules

  // ----- Package attempts -----

  datatype Attempt = Attempt(number: nat, job: Job)

  /** The label selector of package_job_selector: the extension's uid and the key up to its label. */
  predicate InGroup(job: Job, feUid: string, keyLabel: string) {
    job.task.PackageTask? && job.task.feUid == feUid && HashLabelValue(job.task.artifactKey) == keyLabel
  }

  /** A Job the controller lists, with the attempt number parsed from its name. */
  predicate IsAttempt(jobs: map<string, Job>, feUid: string, keyLabel: string, a: Attempt) {
    && a.job.name in jobs && jobs[a.job.name] == a.job
    && InGroup(a.job, feUid, keyLabel)
    && PackageAttemptFromName(a.job.name) == Some(a.number)
  }

  /** The order latest_package_attempt maximises: attempt, then creation time, then name. */
  predicate NotAfter(a: Attempt, b: Attempt) {
    a.number < b.number
    || (a.number == b.number && (a.job.created < b.job.created || (a.job.created == b.job.created && Le(a.job.name, b.job.name))))
  }

  ghost predicate IsLatest(jobs: map<string, Job>, feUid: string, keyLabel: string, latest: Option<Attempt>) {
    if latest.None? then forall a :: !IsAttempt(jobs, feUid, keyLabel, a)
    else
      && IsAttempt(jobs, feUid, keyLabel, latest.value)
      && forall a :: IsAttempt(jobs, feUid, keyLabel, a) ==> NotAfter(a, latest.value)
  }

  lemma NotAfterTotal(a: Attempt, b: Attempt)
    ensures NotAfter(a, b) || NotAfter(b, a)
  {
    LeTotal(a.job.name, b.job.name);
  }

  lemma NotAfterTransitive(a: Attempt, b: Attempt, c: Attempt)
    requires NotAfter(a, b) && NotAfter(b, c)
    ensures NotAfter(a, c)
  {
    if Le(a.job.name, b.job.name) && Le(b.job.name, c.job.name) { LeTransitive(a.job.name, b.job.name, c.job.name); }
  }

  /** The listing has at most one latest attempt. */
  lemma LatestIsUnique(jobs: map<string, Job>, feUid: string, keyLabel: string, x: Option<Attempt>, y: Option<Attempt>)
    requires IsLatest(jobs, feUid, keyLabel, x) && IsLatest(jobs, feUid, keyLabel, y)
    ensures x == y
  {
    if x.Some? && y.Some? {
      assert NotAfter(x.value, y.value) && NotAfter(y.value, x.value);
      LeAntisymmetric(x.value.job.name, y.value.job.name);
    }
  }

  /** latest_package_attempt over any listing of the group's Jobs. */
  method LatestAttempt(jobs: map<string, Job>, feUid: string, keyLabel: string) returns (latest: Option<Attempt>)
    ensures IsLatest(jobs, feUid, keyLabel, latest)
    ensures latest.None? <==> forall name, n: nat :: !ListedAs(jobs, feUid, keyLabel, name, n)
    ensures latest.Some? ==> ListedAs(jobs, feUid, keyLabel, latest.value.job.name, latest.value.number) && jobs[latest.value.job.name] == latest.value.job
    ensures latest.Some? ==> forall name, n: nat :: ListedAs(jobs, feUid, keyLabel, name, n) ==> Outranks(latest.value.number, latest.value.job, n, jobs[name])
  {
    latest := None;
    var rest := jobs.Keys;
    while rest != {}
      invariant rest <= jobs.Keys
      invariant latest.Some? ==> IsAttempt(jobs, feUid, keyLabel, latest.value)
      invariant forall a :: IsAttempt(jobs, feUid, keyLabel, a) && a.job.name !in rest ==> latest.Some? && NotAfter(a, latest.value)
      decreases |rest|
    {
      var name: string :| name in rest;
      var job, number, before := jobs[name], PackageAttemptFromName(name), latest;
      if job.name == name && InGroup(job, feUid, keyLabel) && number.Some? {
        var next := Attempt(number.value, job);
        if before.None? {
          NotAfterTotal(next, next);
          latest := Some(next);
        } else {
          NotAfterTotal(next, before.value);
          NotAfterTotal(next, next);
          if NotAfter(before.value, next) { latest := Some(next); }
        }
      }
      forall a | IsAttempt(jobs, feUid, keyLabel, a) && a.job.name !in rest - {name}
        ensures latest.Some? && NotAfter(a, latest.value)
      {
        if a.job.name != name && before != latest { NotAfterTransitive(a, before.value, latest.value); }
      }
      rest := rest - {name};
    }
    ListingMeans(jobs, feUid, keyLabel, latest);
  }

  /** A stored Job is a package Job of this extension, for an artifact key with this label, named as attempt `n`. */
  ghost predicate ListedAs(jobs: map<string, Job>, feUid: string, keyLabel: string, name: string, n: nat) {
    && name in jobs && jobs[name].name == name && PackageAttemptFromName(name) == Some(n)
    && jobs[name].task.PackageTask? && jobs[name].task.feUid == feUid && HashLabelValue(jobs[name].task.artifactKey) == keyLabel
  }

  /** Job `a` has the higher number; at equal numbers the later creation; at equal times the name that is not smaller. */
  ghost predicate Outranks(n: nat, a: Job, m: nat, b: Job) {
    && n >= m
    && (n == m ==> a.created >= b.created)
    && (n == m && a.created == b.created ==> b.name <= a.name || exists i :: SmallerAt(b.name, a.name, i))
  }

  lemma ListingMeans(jobs: map<string, Job>, feUid: string, keyLabel: string, latest: Option<Attempt>)
    requires IsLatest(jobs, feUid, keyLabel, latest)
    ensures latest.None? <==> forall name, n: nat :: !ListedAs(jobs, feUid, keyLabel, name, n)
    ensures latest.Some? ==> ListedAs(jobs, feUid, keyLabel, latest.value.job.name, latest.value.number) && jobs[latest.value.job.name] == latest.value.job
    ensures latest.Some? ==> forall name, n: nat :: ListedAs(jobs, feUid, keyLabel, name, n) ==> Outranks(latest.value.number, latest.value.job, n, jobs[name])
  {
    hide PackageAttemptFromName, HashLabelValue, Le;
    if latest.Some? { assert ListedAs(jobs, feUid, keyLabel, latest.value.job.name, latest.value.number); }
    forall name, n: nat | ListedAs(jobs, feUid, keyLabel, name, n)
      ensures latest.Some? && Outranks(latest.value.number, latest.value.job, n, jobs[name])
    {
      assert IsAttempt(jobs, feUid, keyLabel, Attempt(n, jobs[name]));
      LeOnCharacters(name, latest.value.job.name);
    }
  }

  // ----- What to do next -----

  datatype Decision =
    | WriteInvalid
    | SyncAndReady(metadata: PackageMetadata, packageJob: Option<PackageJobStatus>)
    | WriteInProgress(job: Job)
    | WriteExceeded(latestJob: Option<Job>, message: string)
    | CheckAgain(attempt: Attempt)
    | CreateAttempt(number: nat)

  function ArtifactIn(w: World, fe: Fe, cm: Option<ConfigMap>): Option<PackageMetadata> {
    if cm.Some? then ArtifactMetadata(w, cm.value, SourceHash(w, fe), ArtifactKey(w, fe)) else None
  }

  /** The last part of reconcile: the next attempt, unless there have been too many. */
  function NextAttempt(w: World, fe: Fe, latest: Option<Attempt>): Decision {
    var next := if latest.None? then 1 else if latest.value.number < MAX_U32 then latest.value.number + 1 else MAX_U32;
    if next > w.maxAttempts then
      var reason := (if latest.Some? then JobMessage(latest.value.job) else None).UnwrapOr("No package attempts can be created");
      WriteExceeded(
        if latest.Some? then Some(latest.value.job) else None,
        w.exceededMessage(HashLabelValue(ArtifactKey(w, fe)), next - 1, w.maxAttempts, reason))
    else CreateAttempt(next)
  }

  /** The artifact is missing or does not match: what the latest attempt says. */
  function DecideMissing(w: World, fe: Fe, latest: Option<Attempt>): (d: Decision)
    ensures !d.SyncAndReady?
    ensures d.CheckAgain? ==> latest == Some(d.attempt)
  {
    if latest.None? then NextAttempt(w, fe, latest)
    else match ObservedPhase(latest.value.job.status)
      case JobPending => WriteInProgress(latest.value.job)
      case JobRunning => WriteInProgress(latest.value.job)
      case JobFailed =>
        if latest.value.number >= w.maxAttempts then
          WriteExceeded(
            Some(latest.value.job),
            w.exceededMessage(
              HashLabelValue(ArtifactKey(w, fe)), latest.value.number, w.maxAttempts, JobMessage(latest.value.job).UnwrapOr("Package job failed")))
        else NextAttempt(w, fe, latest)
      case JobSucceeded => CheckAgain(latest.value)
  }

  /** After the Jobs are listed and the artifact ConfigMap is read. */
  function Decide(w: World, fe: Fe, latest: Option<Attempt>, cm: Option<ConfigMap>): (d: Decision)
    ensures d.SyncAndReady? ==> cm.Some?
  {
    if !w.valid(fe.source) then WriteInvalid
    else if ArtifactIn(w, fe, cm).Some? then
      SyncAndReady(
        ArtifactIn(w, fe, cm).value,
        if latest.Some? then Some(PackageJobOf(latest.value.job)) else if fe.status.Some? then fe.status.value.packageJob else None)
    else DecideMissing(w, fe, latest)
  }

  /** After the second read of the artifact ConfigMap, for an attempt that succeeded. */
  function DecideAgain(w: World, fe: Fe, attempt: Attempt, cm: Option<ConfigMap>): (d: Decision)
    ensures d.SyncAndReady? ==> cm.Some?
    ensures !d.CheckAgain?
  {
    if ArtifactIn(w, fe, cm).Some? then SyncAndReady(ArtifactIn(w, fe, cm).value, Some(PackageJobOf(attempt.job)))
    else if attempt.number >= w.maxAttempts then
      WriteExceeded(
        Some(attempt.job),
        w.exceededMessage(
          HashLabelValue(ArtifactKey(w, fe)), attempt.number, w.maxAttempts, "Package job succeeded but artifact ConfigMap is missing or mismatched"))
    else NextAttempt(w, fe, Some(attempt))
  }

  /** The decision of a reconcile whose two reads of the artifact ConfigMap gave `cm` and `again`. */
  function DecideTwice(w: World, fe: Fe, latest: Option<Attempt>, cm: Option<ConfigMap>, again: Option<ConfigMap>): (d: Decision)
    ensures d.SyncAndReady? ==> cm.Some? || again.Some?
    ensures !d.CheckAgain?
  {
    var first := Decide(w, fe, latest, cm);
    if first.CheckAgain? then DecideAgain(w, fe, first.attempt, again) else first
  }

  /** Why the last attempt counts as lost when the limit is reached. */
  ghost function LostReason(job: Job): string {
    if JobHasFailed(job.status) then JobMessage(job).UnwrapOr("Package job failed")
    else "Package job succeeded but artifact ConfigMap is missing or mismatched"
  }

  ghost predicate AtLimit(w: World, latest: Option<Attempt>) {
    latest.Some? && JobHasEnded(latest.value.job.status) && latest.value.number >= w.maxAttempts
  }

  /**
   A valid source without a valid artifact, at either read: reconcile creates an
   attempt exactly when there is none or the Job of the latest has ended below the
   limit, waits exactly for a Job that has not ended, and gives up exactly on one
   that ended at the limit, with that attempt's number and reason.
   */
  lemma MissingArtifactDecides(w: World, fe: Fe, latest: Option<Attempt>, cm: Option<ConfigMap>, again: Option<ConfigMap>)
    requires 1 <= w.maxAttempts <= MAX_U32
    requires w.valid(fe.source) && ArtifactIn(w, fe, cm).None? && ArtifactIn(w, fe, again).None?
    ensures var d := DecideTwice(w, fe, latest, cm, again);
      && (d.CreateAttempt? <==> latest.None? || (JobHasEnded(latest.value.job.status) && latest.value.number < w.maxAttempts))
      && (d.CreateAttempt? ==> d.number == if latest.None? then 1 else latest.value.number + 1)
      && (d.WriteInProgress? <==> latest.Some? && !JobHasEnded(latest.value.job.status))
      && (d.WriteInProgress? ==> d.job == latest.value.job)
      && (d.WriteExceeded? <==> AtLimit(w, latest))
      && (d.WriteExceeded? ==>
           && d.latestJob == Some(latest.value.job)
           && d.message == w.exceededMessage(HashLabelValue(ArtifactKey(w, fe)), latest.value.number, w.maxAttempts, LostReason(latest.value.job)))
  {
    hide ArtifactIn, HashLabelValue, ArtifactKey, SourceHash, JobMessage, ObservedPhase, PackageJobOf, JobIsComplete, JobHasFailed, JobIsRunning;
    if latest.Some? { PhaseMeans(latest.value.job.status); }
  }

  /**
   The limit test before creating an attempt never fires, exactly when at least
   one attempt is allowed: whatever reconcile lists and reads, it gives up only on
   a finished attempt that the tests before have found at the limit.
   */
  lemma LimitIsTestedBefore(w: World, fe: Fe)
    requires w.maxAttempts <= MAX_U32 && w.valid(fe.source)
    ensures w.maxAttempts >= 1
      <==> forall latest: Option<Attempt>, cm, again :: DecideTwice(w, fe, latest, cm, again).WriteExceeded? ==> AtLimit(w, latest)
  {
    hide HashLabelValue, ArtifactKey, JobMessage, ObservedPhase, PackageJobOf, ArtifactMetadata, JobIsComplete, JobHasFailed, JobIsRunning;
    if w.maxAttempts == 0 {
      assert DecideTwice(w, fe, None, None, None).WriteExceeded?;
    }
    forall latest: Option<Attempt> ensures latest.Some? ==> (Finished(latest.value.job.status) <==> JobHasEnded(latest.value.job.status)) {
      if latest.Some? { PhaseMeans(latest.value.job.status); }
    }
  }

  /** Where no attempt is allowed, the first missing artifact is given up at once. */
  lemma NothingAllowed(w: World, fe: Fe, cm: Option<ConfigMap>, again: Option<ConfigMap>)
    requires w.maxAttempts == 0 && w.valid(fe.source) && ArtifactIn(w, fe, cm).None?
    ensures DecideTwice(w, fe, None, cm, again)
            == WriteExceeded(None, w.exceededMessage(HashLabelValue(ArtifactKey(w, fe)), 0, 0, "No package attempts can be created"))
  {
    hide ArtifactIn, HashLabelValue, ArtifactKey;
  }

  // ----- Desired Jobs -----

  function NewJob(w: World, name: string, uid: string, created: int, task: JobTask): Job {
    Job(w.workNamespace, name, uid, created, task, None)
  }

  function PackageTaskOf(w: World, fe: Fe): JobTask {
    PackageTask(fe.uid, SourceHash(w, fe), ArtifactKey(w, fe), ArtifactName(w, fe))
  }

  function PublishTaskOf(fe: Fe, request: PublishRequest, cm: ConfigMap): JobTask {
    PublishTask(request.requestId, request.artifactDigest, cm.name, request.target, RequestedSourceHash(fe))
  }

  function UnpublishTaskOf(request: UnpublishRequest): JobTask {
    UnpublishTask(request.requestId, request.extensionName, request.target)
  }

  function PublishName(w: World, requestId: string): string {
    PublishJobName(w.feName, w.requestHash(requestId))
  }

  function UnpublishName(w: World, requestId: string): string {
    UnpublishJobName(w.feName, w.requestHash(requestId))
  }

  // ----- The cluster, and its transformation by one undisturbed reconcile -----

  datatype Cluster = Cluster(fe: Option<Fe>, jobs: map<string, Job>, configMaps: map<string, ConfigMap>, clock: nat)

  datatype ActionTaken = AwaitChange | Requeue | ReconcileError

  /** create_or_get_job: a Job of that name that exists already wins. */
  function CreateOrGet(w: World, c: Cluster, name: string, task: JobTask): (Cluster, Job) {
    if name in c.jobs then (c, c.jobs[name])
    else
      var job := NewJob(w, name, w.uidAt(c.clock), c.clock, task);
      (c.(jobs := c.jobs[name := job], clock := c.clock + 1), job)
  }

  function ConfigMapAt(c: Cluster, name: string): Option<ConfigMap> {
    if name in c.configMaps then Some(c.configMaps[name]) else None
  }

  function SyncPublishSpec(w: World, c: Cluster, fe: Fe, artifact: PackageMetadata, cm: ConfigMap): (Cluster, Option<PublishStatus>) {
    match ResolvePublish(fe, artifact)
    case NoRequest => (c, RetainedPublish(fe, ArtifactKey(w, fe)))
    case StaleRequest => (c, RetainedPublish(fe, ArtifactKey(w, fe)))
    case RejectedRequest(status) => (c, Some(status))
    case Accepted(request) =>
      var name := PublishName(w, request.requestId);
      if name !in c.jobs && PublishAlreadyFinished(fe, request, ArtifactKey(w, fe)) then (c, StoredPublish(fe))
      else
        var r := CreateOrGet(w, c, name, PublishTaskOf(fe, request, cm));
        (r.0, Some(PublishStatusOf(request, r.1)))
  }

  function SyncUnpublishSpec(w: World, c: Cluster, fe: Fe): (Cluster, Option<UnpublishStatus>) {
    match ResolveUnpublish(w, fe)
    case NoUnpublish => (c, StoredUnpublish(fe))
    case RejectedUnpublish(status) => (c, Some(status))
    case AcceptedUnpublish(request) =>
      var name := UnpublishName(w, request.requestId);
      if name !in c.jobs && UnpublishAlreadyFinished(fe, request) then (c, StoredUnpublish(fe))
      else
        var r := CreateOrGet(w, c, name, UnpublishTaskOf(request));
        (r.0, Some(UnpublishStatusOf(request, r.1)))
  }

  /**
   For an extension name of 59 characters or more, an unpublish request starts no
   Job while any publish Job of the extension is there, and reports that Job's
   outcome as its own.
   */
  lemma UnpublishReportsPublishJob(w: World, c: Cluster, fe: Fe, publishId: string)
    requires Clean(w.feName) && |w.feName| >= 59 && PublishName(w, publishId) in c.jobs
    requires ResolveUnpublish(w, fe).AcceptedUnpublish?
    ensures SyncUnpublishSpec(w, c, fe) == (c, Some(UnpublishStatusOf(ResolveUnpublish(w, fe).request, c.jobs[PublishName(w, publishId)])))
  {
    hide ResolveUnpublish, UnpublishStatusOf, UnpublishAlreadyFinished, PublishJobName, UnpublishJobName, Clean;
    KindsShareName(w.feName, w.requestHash(publishId), w.requestHash(ResolveUnpublish(w, fe).request.requestId));
  }

  /** The stored object after patch_fe_status has found it current: status patched if different, then labels if different. */
  function Patched(w: World, latest: Fe, desired: FeStatus): Fe {
    var stored := if latest.status == Some(desired) then desired else MergeStatus(latest.status, desired);
    var patched := latest.(status := Some(stored));
    if Observes(w, patched, stored) && LabelsNeedPatch(patched.labels, stored) then
      patched.(labels := PatchLabels(patched.labels, stored))
    else patched
  }

  /** patch_fe_status: None when the extension is gone, no change when the status is stale. */
  function PatchFe(w: World, c: Cluster, desired: FeStatus): Option<Cluster> {
    if c.fe.None? then None
    else if !Observes(w, c.fe.value, desired) then Some(c)
    else Some(c.(fe := Some(Patched(w, c.fe.value, desired))))
  }

  function InFlight(publish: Option<PublishStatus>, unpublish: Option<UnpublishStatus>, asked: bool, askedUnpublish: bool): bool {
    || (asked && publish.Some? && (publish.value.phase.PublishPending? || publish.value.phase.PublishRunning?))
    || (askedUnpublish && unpublish.Some? && (unpublish.value.phase.PublishPending? || unpublish.value.phase.PublishRunning?))
  }

  function ReadyDesired(
    w: World, fe: Fe, cm: ConfigMap, artifact: PackageMetadata, packageJob: Option<PackageJobStatus>,
    publish: Option<PublishStatus>, unpublish: Option<UnpublishStatus>): FeStatus
  {
    ApplyUnpublishSync(ApplyPublishSync(ReadyStatus(w, fe, cm, artifact, packageJob), publish), unpublish)
  }

  function WriteStatusSpec(w: World, c: Cluster, desired: FeStatus, action: ActionTaken): (Cluster, ActionTaken) {
    var patched := PatchFe(w, c, desired);
    if patched.None? then (c, ReconcileError) else (patched.value, action)
  }

  function SyncAndReadySpec(w: World, c: Cluster, fe: Fe, cm: ConfigMap, artifact: PackageMetadata, packageJob: Option<PackageJobStatus>)
    : (Cluster, ActionTaken)
  {
    var p := SyncPublishSpec(w, c, fe, artifact, cm);
    var u := SyncUnpublishSpec(w, p.0, fe);
    var r := WriteStatusSpec(w, u.0, ReadyDesired(w, fe, cm, artifact, packageJob, p.1, u.1), AwaitChange);
    if r.1.ReconcileError? then r
    else if ShouldDelete(fe, u.1) then (r.0.(fe := None), AwaitChange)
    else (r.0, if InFlight(p.1, u.1, ResolvePublish(fe, artifact).Accepted?, ResolveUnpublish(w, fe).AcceptedUnpublish?) then Requeue else AwaitChange)
  }

  /** Acting on a decision that needs no further read of the ConfigMap. */
  function ActSpec(w: World, c: Cluster, fe: Fe, decision: Decision, cm: Option<ConfigMap>): (Cluster, ActionTaken)
    requires decision.SyncAndReady? ==> cm.Some?
    requires !decision.CheckAgain?
  {
    match decision
    case WriteInvalid => WriteStatusSpec(w, c, FailedStatus(w, fe, None, "InvalidSource", w.invalidMessage(fe.source)), AwaitChange)
    case SyncAndReady(artifact, packageJob) => SyncAndReadySpec(w, c, fe, cm.value, artifact, packageJob)
    case WriteInProgress(job) => WriteStatusSpec(w, c, PackagingStatus(w, fe, job, "Package job in progress"), Requeue)
    case WriteExceeded(job, message) => WriteStatusSpec(w, c, FailedStatus(w, fe, job, "PackageAttemptsExceeded", message), AwaitChange)
    case CreateAttempt(number) =>
      var r := CreateOrGet(w, c, PackageJobName(w.feName, ArtifactKey(w, fe), number), PackageTaskOf(w, fe));
      WriteStatusSpec(w, r.0, PackagingStatus(w, fe, r.1, "Package job created"), Requeue)
  }

  function FinalDecision(w: World, c: Cluster, fe: Fe, latest: Option<Attempt>): (d: Decision)
    ensures d.SyncAndReady? ==> ConfigMapAt(c, ArtifactName(w, fe)).Some?
    ensures !d.CheckAgain?
  {
    var cm := ConfigMapAt(c, ArtifactName(w, fe));
    DecideTwice(w, fe, latest, cm, cm)
  }

  /** One reconcile of the snapshot `fe`, given the latest attempt it lists. */
  function ReconcileSpec(w: World, c: Cluster, fe: Fe, latest: Option<Attempt>): (Cluster, ActionTaken) {
    if fe.deleting then (c, AwaitChange)
    else ActSpec(w, c, fe, FinalDecision(w, c, fe, latest), ConfigMapAt(c, ArtifactName(w, fe)))
  }

  /** The status was computed for the generation, source, token and artifact key that the object has. */
  ghost predicate IsCurrent(w: World, fe: Fe, status: FeStatus) {
    && status.observedGeneration == Some(fe.generation)
    && status.observedSourceHash == Some(w.sourceHash(fe.source))
    && status.observedRebuildToken == Some(Trim(if ANNO_REBUILD_TOKEN in fe.annotations then fe.annotations[ANNO_REBUILD_TOKEN] else ""))
    && (status.artifact.Some? ==>
        status.artifact.value.artifactKey == Some(w.artifactKey(status.observedSourceHash.value, status.observedRebuildToken.value)))
  }

  lemma ObservesMeans(w: World, fe: Fe, status: FeStatus)
    ensures Observes(w, fe, status) <==> IsCurrent(w, fe, status)
  {
  }

  lemma MergeSame(status: FeStatus)
    ensures MergeStatus(Some(status), status) == status
  {
  }

  // ----- When a publish or unpublish Job is started -----

  /** The request is accepted, no Job has its name, and the snapshot does not record it as finished. */
  predicate StartsPublish(w: World, jobs: map<string, Job>, fe: Fe, artifact: PackageMetadata) {
    var r := ResolvePublish(fe, artifact);
    r.Accepted? && PublishName(w, r.request.requestId) !in jobs && !PublishAlreadyFinished(fe, r.request, ArtifactKey(w, fe))
  }

  predicate StartsUnpublish(w: World, jobs: map<string, Job>, fe: Fe) {
    var r := ResolveUnpublish(w, fe);
    r.AcceptedUnpublish? && UnpublishName(w, r.request.requestId) !in jobs && !UnpublishAlreadyFinished(fe, r.request)
  }

  /** The task carries the request of the annotations, for the artifact and the ConfigMap that were read. */
  ghost predicate AsksToPublish(fe: Fe, artifact: PackageMetadata, cm: ConfigMap, task: JobTask) {
    && task.PublishTask? && Given(fe, ANNO_PUBLISH_REQUEST_ID) && task.requestId == fe.annotations[ANNO_PUBLISH_REQUEST_ID]
    && task.artifactDigest == artifact.digest && task.configMapName == cm.name && TargetAsked(fe, task.target)
  }

  ghost predicate AsksToUnpublish(w: World, fe: Fe, task: JobTask) {
    && task.UnpublishTask? && Given(fe, ANNO_UNPUBLISH_REQUEST_ID) && task.requestId == fe.annotations[ANNO_UNPUBLISH_REQUEST_ID]
    && task.extensionName == (if Given(fe, ANNO_UNPUBLISH_EXTENSION_NAME) then fe.annotations[ANNO_UNPUBLISH_EXTENSION_NAME] else w.packageName(fe.source))
    && TargetAsked(fe, task.target)
  }

  lemma TasksAsk(w: World, fe: Fe, artifact: PackageMetadata, cm: ConfigMap)
    ensures ResolvePublish(fe, artifact).Accepted? ==> AsksToPublish(fe, artifact, cm, PublishTaskOf(fe, ResolvePublish(fe, artifact).request, cm))
    ensures ResolveUnpublish(w, fe).AcceptedUnpublish? ==> AsksToUnpublish(w, fe, UnpublishTaskOf(ResolveUnpublish(w, fe).request))
  {
    hide ResolvePublish, ResolveUnpublish, TargetAsked, RequestedSourceHash;
    AcceptedTargets(w, fe, artifact);
  }

  // ----- The source's sequence of reads and writes -----

  class ApiServer {
    var fe: Option<Fe>
    var jobs: map<string, Job>
    var configMaps: map<string, ConfigMap>
    var clock: nat

    ghost function State(): Cluster
      reads this
    {
      Cluster(fe, jobs, configMaps, clock)
    }

    method CreateOrGetJob(w: World, name: string, task: JobTask) returns (job: Job)
      modifies this`jobs, this`clock
      ensures (State(), job) == CreateOrGet(w, old(State()), name, task)
      ensures name in old(jobs) ==> job == old(jobs)[name] && jobs == old(jobs)
      ensures name !in old(jobs) ==>
        job.task == task && job.name == name && job.namespace == w.workNamespace && job.status == None && jobs == old(jobs)[name := job]
    {
      if name in jobs {
        job := jobs[name];
      } else {
        job := NewJob(w, name, w.uidAt(clock), clock, task);
        jobs := jobs[name := job];
        clock := clock + 1;
      }
    }

    method SyncPublish(w: World, snapshot: Fe, artifact: PackageMetadata, cm: ConfigMap)
      returns (status: Option<PublishStatus>, requeue: bool)
      modifies this`jobs, this`clock
      ensures (State(), status) == SyncPublishSpec(w, old(State()), snapshot, artifact, cm)
      ensures jobs != old(jobs) <==> StartsPublish(w, old(jobs), snapshot, artifact)
      ensures StartsPublish(w, old(jobs), snapshot, artifact) ==>
        var request := ResolvePublish(snapshot, artifact).request; var name := PublishName(w, request.requestId);
        name in jobs && jobs == old(jobs)[name := jobs[name]] && AsksToPublish(snapshot, artifact, cm, jobs[name].task)
      ensures ResolvePublish(snapshot, artifact).Accepted? ==>
        var request := ResolvePublish(snapshot, artifact).request; var name := PublishName(w, request.requestId);
        if name in jobs then status.Some? && ReportsPublish(request, jobs[name], status.value)
        else status.Some? && Records(snapshot, status.value)
      ensures requeue <==>
        ResolvePublish(snapshot, artifact).Accepted? && status.Some? && (status.value.phase.PublishPending? || status.value.phase.PublishRunning?)
    {
      hide ResolvePublish, RetainedPublish, CreateOrGet, PublishStatusOf, PublishName, PublishTaskOf, ReportsPublish, AsksToPublish, ReportsUnpublish, AsksToUnpublish;
      TasksAsk(w, snapshot, artifact, cm);
      match ResolvePublish(snapshot, artifact) {
        case NoRequest => return RetainedPublish(snapshot, ArtifactKey(w, snapshot)), false;
        case StaleRequest => return RetainedPublish(snapshot, ArtifactKey(w, snapshot)), false;
        case RejectedRequest(rejected) => return Some(rejected), false;
        case Accepted(request) =>
          var name := PublishName(w, request.requestId);
          if name !in jobs && PublishAlreadyFinished(snapshot, request, ArtifactKey(w, snapshot)) {
            return StoredPublish(snapshot), false;
          }
          var job := CreateOrGetJob(w, name, PublishTaskOf(snapshot, request, cm));
          var fromJob := PublishStatusOf(request, job);
          StatusReportsJob(request, UnpublishRequest("", "", request.target), job);
          return Some(fromJob), fromJob.phase.PublishPending? || fromJob.phase.PublishRunning?;
      }
    }

    method SyncUnpublish(w: World, snapshot: Fe) returns (status: Option<UnpublishStatus>, requeue: bool)
      modifies this`jobs, this`clock
      ensures (State(), status) == SyncUnpublishSpec(w, old(State()), snapshot)
      ensures jobs != old(jobs) <==> StartsUnpublish(w, old(jobs), snapshot)
      ensures StartsUnpublish(w, old(jobs), snapshot) ==>
        var request := ResolveUnpublish(w, snapshot).request; var name := UnpublishName(w, request.requestId);
        name in jobs && jobs == old(jobs)[name := jobs[name]] && AsksToUnpublish(w, snapshot, jobs[name].task)
      ensures ResolveUnpublish(w, snapshot).AcceptedUnpublish? ==>
        var request := ResolveUnpublish(w, snapshot).request; var name := UnpublishName(w, request.requestId);
        if name in jobs then status.Some? && ReportsUnpublish(request, jobs[name], status.value)
        else status == (if snapshot.status.Some? then snapshot.status.value.unpublish else None)
      ensures requeue <==>
        ResolveUnpublish(w, snapshot).AcceptedUnpublish? && status.Some? && (status.value.phase.PublishPending? || status.value.phase.PublishRunning?)
    {
      hide ResolveUnpublish, UnpublishStatusOf, UnpublishName, UnpublishTaskOf, ReportsUnpublish, AsksToUnpublish, ReportsPublish, AsksToPublish;
      TasksAsk(w, snapshot, PackageMetadata("", "", "", "", 0, 0), ConfigMap("", "", None, 0, map[], None, None));
      match ResolveUnpublish(w, snapshot) {
        case NoUnpublish => return StoredUnpublish(snapshot), false;
        case RejectedUnpublish(rejected) => return Some(rejected), false;
        case AcceptedUnpublish(request) =>
          var name := UnpublishName(w, request.requestId);
          if name !in jobs && UnpublishAlreadyFinished(snapshot, request) {
            return StoredUnpublish(snapshot), false;
          }
          var job := CreateOrGetJob(w, name, UnpublishTaskOf(request));
          var fromJob := UnpublishStatusOf(request, job);
          StatusReportsJob(PublishRequest("", "", request.target), request, job);
          return Some(fromJob), fromJob.phase.PublishPending? || fromJob.phase.PublishRunning?;
      }
    }

    method PatchFeStatus(w: World, desired: FeStatus) returns (ok: bool)
      modifies this`fe
      ensures ok <==> old(fe).Some?
      ensures fe != old(fe) ==> old(fe).Some? && IsCurrent(w, old(fe).value, desired)
      ensures old(fe).Some? && IsCurrent(w, old(fe).value, desired) ==> fe.Some? && fe.value.status == Some(MergeStatus(old(fe).value.status, desired))
      ensures ok <==> PatchFe(w, old(State()), desired).Some?
      ensures State() == PatchFe(w, old(State()), desired).UnwrapOr(old(State()))
    {
      if fe.None? {
        return false;
      }
      var latest := fe.value;
      ObservesMeans(w, latest, desired);
      MergeSame(desired);
      if !Observes(w, latest, desired) {
        return true;
      }
      if latest.status != Some(desired) {
        fe := Some(latest.(status := Some(MergeStatus(latest.status, desired))));
        latest := fe.value;
      }
      if latest.status.Some? && Observes(w, latest, latest.status.value) && LabelsNeedPatch(latest.labels, latest.status.value) {
        fe := Some(latest.(labels := PatchLabels(latest.labels, latest.status.value)));
      }
      return true;
    }

    method WriteReady(w: World, snapshot: Fe, cm: ConfigMap, artifact: PackageMetadata, packageJob: Option<PackageJobStatus>)
      returns (action: ActionTaken)
      modifies this`fe, this`jobs, this`clock
      ensures (State(), action) == SyncAndReadySpec(w, old(State()), snapshot, cm, artifact, packageJob)
    {
      hide SyncPublishSpec, SyncUnpublishSpec, ReadyStatus, ApplyPublishSync, ApplyUnpublishSync, PatchFe, ResolvePublish, ResolveUnpublish, ShouldDelete;
      hide ReportsPublish, ReportsUnpublish, AsksToPublish, AsksToUnpublish, StartsPublish, StartsUnpublish, IsCurrent, MergeStatus;
      var publish, publishing := SyncPublish(w, snapshot, artifact, cm);
      var unpublish, unpublishing := SyncUnpublish(w, snapshot);
      var status := ReadyStatus(w, snapshot, cm, artifact, packageJob);
      status := ApplyPublishSync(status, publish);
      status := ApplyUnpublishSync(status, unpublish);
      var ok := PatchFeStatus(w, status);
      if !ok {
        return ReconcileError;
      }
      if ShouldDelete(snapshot, unpublish) {
        fe := None;
        return AwaitChange;
      }
      return if publishing || unpublishing then Requeue else AwaitChange;
    }

    method Write(w: World, status: FeStatus, then_: ActionTaken) returns (action: ActionTaken)
      modifies this`fe
      ensures (State(), action) == WriteStatusSpec(w, old(State()), status, then_)
    {
      var ok := PatchFeStatus(w, status);
      return if ok then then_ else ReconcileError;
    }

    method Act(w: World, snapshot: Fe, decision: Decision, cm: Option<ConfigMap>) returns (action: ActionTaken)
      requires (decision.SyncAndReady? ==> cm.Some?) && !decision.CheckAgain?
      modifies this
      ensures (State(), action) == ActSpec(w, old(State()), snapshot, decision, cm)
    {
      hide PackagingStatus, FailedStatus, SyncAndReadySpec, WriteStatusSpec, CreateOrGet, PackageJobName;
      match decision {
        case WriteInvalid =>
          action := Write(w, FailedStatus(w, snapshot, None, "InvalidSource", w.invalidMessage(snapshot.source)), AwaitChange);
        case SyncAndReady(artifact, packageJob) =>
          action := WriteReady(w, snapshot, cm.value, artifact, packageJob);
        case WriteInProgress(job) =>
          action := Write(w, PackagingStatus(w, snapshot, job, "Package job in progress"), Requeue);
        case WriteExceeded(job, message) =>
          action := Write(w, FailedStatus(w, snapshot, job, "PackageAttemptsExceeded", message), AwaitChange);
        case CreateAttempt(number) =>
          var job := CreateOrGetJob(w, PackageJobName(w.feName, ArtifactKey(w, snapshot), number), PackageTaskOf(w, snapshot));
          action := Write(w, PackagingStatus(w, snapshot, job, "Package job created"), Requeue);
      }
    }

    /** reconcile, up to garbage collection of old artifacts. */
    method Reconcile(w: World, snapshot: Fe) returns (action: ActionTaken, ghost latest: Option<Attempt>)
      modifies this
      ensures IsLatest(old(jobs), snapshot.uid, HashLabelValue(ArtifactKey(w, snapshot)), latest)
      ensures (State(), action) == ReconcileSpec(w, old(State()), snapshot, latest)
    {
      hide Decide, DecideAgain, ActSpec;
      var artifactKey := ArtifactKey(w, snapshot);
      var listed := LatestAttempt(jobs, snapshot.uid, HashLabelValue(artifactKey));
      latest := listed;
      if snapshot.deleting {
        return AwaitChange, latest;
      }
      var name := ArtifactName(w, snapshot);
      var cm := if name in configMaps then Some(configMaps[name]) else None;
      var decision := Decide(w, snapshot, listed, cm);
      if decision.CheckAgain? {
        cm := if name in configMaps then Some(configMaps[name]) else None;
        decision := DecideAgain(w, snapshot, decision.attempt, cm);
      }
      action := Act(w, snapshot, decision, cm);
    }
  }
}
