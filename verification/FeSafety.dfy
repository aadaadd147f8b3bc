/**
 What every interleaving of the protocol keeps: downloads and publications hand
 out bytes that were packaged from the source they are said to come from, and the
 stored status is coherent.
 */
module FeSafety {
  import opened Prelude
  import opened Names
  import opened FeTypes
  import opened FeStatusRules
  import opened FeReconcile
  import opened FeProtocol

  type Packages = set<(Bytes, string)>

  // ----- The invariant, part by part -----

  /** Some packaged bytes have this digest and come from this source. */
  ghost predicate Backed(w: World, packaged: Packages, digest: string, sourceHash: string) {
    exists b: Bytes :: (b, sourceHash) in packaged && w.digest(b) == digest
  }

  /** An artifact ConfigMap holds bytes that were packaged from the source its metadata names. */
  ghost predicate ConfigMapOk(w: World, packaged: Packages, cm: ConfigMap) {
    && cm.metadata.Some? && cm.package.Some?
    && (cm.package.value, cm.metadata.value.sourceHash) in packaged
    && w.digest(cm.package.value) == cm.metadata.value.digest
  }

  /** Ready, an artifact and a download go together, and the artifact is the one of the observed source and token. */
  predicate Coherent(w: World, st: FeStatus) {
    && (st.phase.PhaseReady? <==> st.artifact.Some?)
    && (st.artifact.Some? <==> st.download.Some? && st.download.value.ready)
    && (st.artifact.Some? ==>
        && st.observedSourceHash == Some(st.artifact.value.sourceHash) && st.observedRebuildToken.Some?
        && st.artifact.value.artifactKey == Some(w.artifactKey(st.observedSourceHash.value, st.observedRebuildToken.value)))
  }

  ghost predicate StatusOk(w: World, packaged: Packages, st: FeStatus) {
    && Coherent(w, st)
    && (st.artifact.Some? ==> Backed(w, packaged, st.artifact.value.digest, st.artifact.value.sourceHash))
  }

  /** A publish task that names a source names bytes packaged from it. */
  ghost predicate TaskOk(w: World, packaged: Packages, task: JobTask) {
    task.PublishTask? && task.requestedSource.Some? ==> Backed(w, packaged, task.artifactDigest, task.requestedSource.value)
  }

  ghost predicate ArtifactOk(w: World, packaged: Packages, fe: Fe, artifact: PackageMetadata) {
    artifact.sourceHash == SourceHash(w, fe) && Backed(w, packaged, artifact.digest, artifact.sourceHash)
  }

  ghost predicate RequestOk(fe: Fe, artifact: PackageMetadata, request: PublishRequest) {
    && request.artifactDigest == artifact.digest
    && (RequestedSourceHash(fe).Some? ==> RequestedSourceHash(fe).value == artifact.sourceHash)
  }

  ghost predicate ProcOk(w: World, packaged: Packages, proc: Proc) {
    match proc
    case Publishing(fe, _, _, artifact) => ArtifactOk(w, packaged, fe, artifact)
    case CreatingPublish(fe, _, _, artifact, request) => ArtifactOk(w, packaged, fe, artifact) && RequestOk(fe, artifact, request)
    case FetchingPublish(fe, _, _, artifact, request) => ArtifactOk(w, packaged, fe, artifact)
    case Unpublishing(_, status) => StatusOk(w, packaged, status)
    case CreatingUnpublish(_, status, _) => StatusOk(w, packaged, status)
    case FetchingUnpublish(_, status, _) => StatusOk(w, packaged, status)
    case Guarding(status, _) => StatusOk(w, packaged, status)
    case Patching(status, _) => StatusOk(w, packaged, status)
    case Storing(cm) => ConfigMapOk(w, packaged, cm)
    case Conflicted(cm) => ConfigMapOk(w, packaged, cm)
    case Replacing(cm, _) => ConfigMapOk(w, packaged, cm)
    case Loading(task) => TaskOk(w, packaged, task)
    case Loaded(task, _) => TaskOk(w, packaged, task)
    case Found(artifact, sourceHash) => Backed(w, packaged, artifact.digest, sourceHash)
    case Fetched(artifact, sourceHash, _) => Backed(w, packaged, artifact.digest, sourceHash)
    case _ => true
  }

  ghost predicate FeOk(w: World, packaged: Packages, fe: Option<Fe>) {
    fe.Some? && fe.value.status.Some? ==> StatusOk(w, packaged, fe.value.status.value)
  }

  /** Published bytes have the digest their Job names, and come from the source the request named. */
  ghost predicate PublicationOk(w: World, packaged: Packages, bytes: Bytes, task: JobTask) {
    && task.PublishTask? && w.digest(bytes) == task.artifactDigest
    && (task.requestedSource.Some? ==> Backed(w, packaged, w.digest(bytes), task.requestedSource.value))
  }

  ghost predicate DownloadOk(w: World, packaged: Packages, bytes: Bytes, sourceHash: string) {
    Backed(w, packaged, w.digest(bytes), sourceHash)
  }

  ghost predicate Safe(w: World, s: State) {
    && FeOk(w, s.packaged, s.fe)
    && (forall name :: name in s.jobs ==> TaskOk(w, s.packaged, s.jobs[name].task))
    && (forall name :: name in s.configMaps ==> ConfigMapOk(w, s.packaged, s.configMaps[name]))
    && (forall pid :: pid in s.procs ==> ProcOk(w, s.packaged, s.procs[pid]))
    && (forall p :: p in s.published ==> PublicationOk(w, s.packaged, p.0, p.1))
    && (forall d :: d in s.downloads ==> DownloadOk(w, s.packaged, d.0, d.1))
  }

  // ----- Packaging more keeps what was backed -----

  lemma BackedMono(w: World, p: Packages, q: Packages, digest: string, sourceHash: string)
    requires p <= q && Backed(w, p, digest, sourceHash)
    ensures Backed(w, q, digest, sourceHash)
  {
    var b: Bytes :| (b, sourceHash) in p && w.digest(b) == digest;
    assert (b, sourceHash) in q;
  }

  lemma StatusMono(w: World, p: Packages, q: Packages, st: FeStatus)
    requires p <= q && StatusOk(w, p, st)
    ensures StatusOk(w, q, st)
  {
    hide Coherent, Backed;
    if st.artifact.Some? { BackedMono(w, p, q, st.artifact.value.digest, st.artifact.value.sourceHash); }
  }

  lemma ProcMono(w: World, p: Packages, q: Packages, proc: Proc)
    requires p <= q && ProcOk(w, p, proc)
    ensures ProcOk(w, q, proc)
  {
    hide Backed, StatusOk, SourceHash;
    match proc
    case Publishing(_, _, _, artifact) => BackedMono(w, p, q, artifact.digest, artifact.sourceHash);
    case CreatingPublish(_, _, _, artifact, _) => BackedMono(w, p, q, artifact.digest, artifact.sourceHash);
    case FetchingPublish(_, _, _, artifact, _) => BackedMono(w, p, q, artifact.digest, artifact.sourceHash);
    case Unpublishing(_, status) => StatusMono(w, p, q, status);
    case CreatingUnpublish(_, status, _) => StatusMono(w, p, q, status);
    case FetchingUnpublish(_, status, _) => StatusMono(w, p, q, status);
    case Guarding(status, _) => StatusMono(w, p, q, status);
    case Patching(status, _) => StatusMono(w, p, q, status);
    case Loading(task) => TaskMono(w, p, q, task);
    case Loaded(task, _) => TaskMono(w, p, q, task);
    case Found(artifact, sourceHash) => BackedMono(w, p, q, artifact.digest, sourceHash);
    case Fetched(artifact, sourceHash, _) => BackedMono(w, p, q, artifact.digest, sourceHash);
    case _ =>
  }

  lemma TaskMono(w: World, p: Packages, q: Packages, task: JobTask)
    requires p <= q && TaskOk(w, p, task)
    ensures TaskOk(w, q, task)
  {
    hide Backed;
    if task.PublishTask? && task.requestedSource.Some? { BackedMono(w, p, q, task.artifactDigest, task.requestedSource.value); }
  }

  lemma PackagingKeepsSafe(w: World, s: State, packaged: Packages)
    requires Safe(w, s) && s.packaged <= packaged
    ensures Safe(w, s.(packaged := packaged))
  {
    hide ProcOk, Backed, StatusOk, TaskOk;
    var p := s.packaged;
    if s.fe.Some? && s.fe.value.status.Some? { StatusMono(w, p, packaged, s.fe.value.status.value); }
    forall name | name in s.jobs ensures TaskOk(w, packaged, s.jobs[name].task) { TaskMono(w, p, packaged, s.jobs[name].task); }
    forall pid | pid in s.procs ensures ProcOk(w, packaged, s.procs[pid]) { ProcMono(w, p, packaged, s.procs[pid]); }
    forall e | e in s.published ensures PublicationOk(w, packaged, e.0, e.1) {
      if e.1.requestedSource.Some? { BackedMono(w, p, packaged, w.digest(e.0), e.1.requestedSource.value); }
    }
    forall d | d in s.downloads ensures DownloadOk(w, packaged, d.0, d.1) { BackedMono(w, p, packaged, w.digest(d.0), d.1); }
  }

  // ----- Statuses the controller builds -----

  lemma NotReadyIsOk(w: World, packaged: Packages, fe: Fe, job: Job, failed: Option<Job>, reason: string, message: string)
    ensures StatusOk(w, packaged, PackagingStatus(w, fe, job, message))
    ensures StatusOk(w, packaged, FailedStatus(w, fe, failed, reason, message))
  {
    hide SourceHash, RebuildToken, NotReadyPublish, PackageJobOf, Backed;
  }

  lemma ReadyIsOk(w: World, packaged: Packages, fe: Fe, cm: ConfigMap, artifact: PackageMetadata, packageJob: Option<PackageJobStatus>, publish: Option<PublishStatus>)
    requires ArtifactOk(w, packaged, fe, artifact)
    ensures StatusOk(w, packaged, ApplyPublishSync(ReadyStatus(w, fe, cm, artifact, packageJob), publish))
  {
    hide SourceHash, RebuildToken, StoredPublish, StoredUnpublish, Backed;
  }

  lemma UnpublishIsOk(w: World, packaged: Packages, st: FeStatus, unpublish: Option<UnpublishStatus>)
    requires StatusOk(w, packaged, st)
    ensures StatusOk(w, packaged, ApplyUnpublishSync(st, unpublish))
  {
    hide UnpublishedAfter, Backed;
  }

  /** Merging a coherent status into a stored one leaves a coherent status. */
  lemma MergedIsOk(w: World, packaged: Packages, stored: Option<FeStatus>, d: FeStatus)
    requires StatusOk(w, packaged, d)
    ensures StatusOk(w, packaged, MergeStatus(stored, d))
  {
    hide MergePublish, MergeUnpublish, MergePackageJob, Backed;
  }

  /** An artifact found in a sound ConfigMap is sound. */
  lemma FoundArtifactIsOk(w: World, packaged: Packages, fe: Fe, cm: Option<ConfigMap>)
    requires cm.Some? ==> ConfigMapOk(w, packaged, cm.value)
    ensures ArtifactIn(w, fe, cm).Some? ==> ArtifactOk(w, packaged, fe, ArtifactIn(w, fe, cm).value)
  {
    hide SourceHash, ArtifactKey;
  }

  // ----- Steps of programs -----

  lemma DecisionIsOk(w: World, packaged: Packages, fe: Fe, latest: Option<Attempt>, decision: Decision, cm: Option<ConfigMap>)
    requires decision.SyncAndReady? ==> cm.Some? && ArtifactOk(w, packaged, fe, decision.metadata)
    ensures ProcOk(w, packaged, AfterDecision(w, fe, latest, decision, cm))
  {
    hide StatusOk, PackagingStatus, FailedStatus, ArtifactOk;
    match decision
    case WriteInvalid => NotReadyIsOk(w, packaged, fe, Job("", "", "", 0, UnpublishTask("", "", PublishTarget("", "", "")), None), None, "InvalidSource", w.invalidMessage(fe.source));
    case WriteInProgress(job) => NotReadyIsOk(w, packaged, fe, job, None, "", "Package job in progress");
    case WriteExceeded(job, message) => NotReadyIsOk(w, packaged, fe, Job("", "", "", 0, UnpublishTask("", "", PublishTarget("", "", "")), None), job, "PackageAttemptsExceeded", message);
    case _ =>
  }

  /** Decisions that lead to Ready carry the artifact found in the ConfigMap. */
  lemma ReadyDecisions(w: World, fe: Fe, latest: Option<Attempt>, attempt: Attempt, cm: Option<ConfigMap>)
    ensures Decide(w, fe, latest, cm).SyncAndReady? ==> ArtifactIn(w, fe, cm) == Some(Decide(w, fe, latest, cm).metadata)
    ensures DecideAgain(w, fe, attempt, cm).SyncAndReady? ==> ArtifactIn(w, fe, cm) == Some(DecideAgain(w, fe, attempt, cm).metadata)
  {
    hide ArtifactIn, DecideMissing, PackageJobOf, ArtifactKey;
  }

  lemma PackageTaskIsOk(w: World, packaged: Packages, fe: Fe)
    ensures TaskOk(w, packaged, PackageTaskOf(w, fe))
  {
  }

  lemma StoredIsOk(w: World, s: State, name: string)
    requires Safe(w, s)
    ensures ConfigMapIn(s, name).Some? ==> ConfigMapOk(w, s.packaged, ConfigMapIn(s, name).value)
  {
    hide ConfigMapOk, TaskOk, ProcOk, PublicationOk, DownloadOk, FeOk;
  }

  lemma CreatingIsOk(w: World, s: State, fe: Fe, name: string, input: Input)
    requires Safe(w, s)
    ensures var next := WithJob(w, s, name, PackageTaskOf(w, fe), input);
      Safe(w, next) && next.packaged == s.packaged && ProcOk(w, s.packaged, AfterPackage(w, fe, next.jobs[name]))
  {
    hide ConfigMapOk, TaskOk, StatusOk, PackagingStatus, PublicationOk, DownloadOk, FeOk, PackageTaskOf;
    PackageTaskIsOk(w, s.packaged, fe);
    NotReadyIsOk(w, s.packaged, fe, WithJob(w, s, name, PackageTaskOf(w, fe), input).jobs[name], None, "", "Package job created");
  }

  lemma DecidingIsOk(w: World, s: State, proc: Proc, input: Input)
    requires proc.Starting? || proc.Listed? || proc.Rechecking? || proc.CreatingPackage? || proc.FetchingPackage?
    requires Safe(w, s)
    ensures var o := RunDeciding(w, s, proc, input);
      Safe(w, o.state) && (o.next.Some? ==> ProcOk(w, o.state.packaged, o.next.value))
  {
    hide Safe, Decide, DecideAgain, AfterDecision, ConfigMapOk, StatusOk, PackagingStatus, ArtifactName, ArtifactOk, PackageJobName, PackageTaskOf, WithJob;
    match proc
    case Listed(fe, latest) =>
      var cm := ConfigMapIn(s, ArtifactName(w, fe));
      StoredIsOk(w, s, ArtifactName(w, fe));
      FoundArtifactIsOk(w, s.packaged, fe, cm);
      ReadyDecisions(w, fe, latest, Attempt(0, Job("", "", "", 0, PackageTaskOf(w, fe), None)), cm);
      DecisionIsOk(w, s.packaged, fe, latest, Decide(w, fe, latest, cm), cm);
    case Rechecking(fe, latest, attempt) =>
      var cm := ConfigMapIn(s, ArtifactName(w, fe));
      StoredIsOk(w, s, ArtifactName(w, fe));
      FoundArtifactIsOk(w, s.packaged, fe, cm);
      ReadyDecisions(w, fe, latest, attempt, cm);
      DecisionIsOk(w, s.packaged, fe, latest, DecideAgain(w, fe, attempt, cm), cm);
    case CreatingPackage(fe, latest, number) =>
      CreatingIsOk(w, s, fe, PackageJobName(w.feName, ArtifactKey(w, fe), number), input);
    case FetchingPackage(fe, name) =>
      if name in s.jobs { NotReadyIsOk(w, s.packaged, fe, s.jobs[name], None, "", "Package job created"); }
    case _ =>
  }

  lemma PublishingIsOk(w: World, s: State, proc: Proc)
    requires proc.Publishing? && ProcOk(w, s.packaged, proc)
    ensures ProcOk(w, s.packaged, RunPublishing(w, s, proc))
  {
    hide ReadyStatus, ApplyPublishSync, StatusOk, ArtifactOk, ResolvePublish, PublishName, RetainedPublish, PublishAlreadyFinished, PublishStatusOf, StoredPublish, ArtifactKey;
    var Publishing(fe, packageJob, cm, artifact) := proc;
    forall publish ensures StatusOk(w, s.packaged, ApplyPublishSync(ReadyStatus(w, fe, cm, artifact, packageJob), publish)) {
      ReadyIsOk(w, s.packaged, fe, cm, artifact, packageJob, publish);
    }
  }

  lemma UnpublishingIsOk(w: World, s: State, fe: Fe, status: FeStatus)
    requires StatusOk(w, s.packaged, status)
    ensures ProcOk(w, s.packaged, RunUnpublishing(w, s, fe, status))
  {
    hide StatusOk, ApplyUnpublishSync, ResolveUnpublish, UnpublishName, UnpublishAlreadyFinished, UnpublishStatusOf, StoredUnpublish, ShouldDelete;
    forall unpublish ensures StatusOk(w, s.packaged, ApplyUnpublishSync(status, unpublish)) {
      UnpublishIsOk(w, s.packaged, status, unpublish);
    }
  }

  lemma NewPublishTaskIsOk(w: World, packaged: Packages, fe: Fe, artifact: PackageMetadata, request: PublishRequest, cm: ConfigMap)
    requires ArtifactOk(w, packaged, fe, artifact) && RequestOk(fe, artifact, request)
    ensures TaskOk(w, packaged, PublishTaskOf(fe, request, cm))
  {
    hide SourceHash, RequestedSourceHash, Backed;
  }

  lemma SyncingIsOk(w: World, s: State, proc: Proc, input: Input)
    requires proc.Publishing? || proc.CreatingPublish? || proc.FetchingPublish? || proc.Unpublishing? || proc.CreatingUnpublish? || proc.FetchingUnpublish?
    requires Safe(w, s) && ProcOk(w, s.packaged, proc)
    ensures var o := RunSyncing(w, s, proc, input);
      Safe(w, o.state) && (o.next.Some? ==> ProcOk(w, o.state.packaged, o.next.value))
  {
    hide ConfigMapOk, StatusOk, ArtifactOk, RequestOk, PublicationOk, DownloadOk, FeOk, TaskOk, RunPublishing, RunUnpublishing;
    hide ReadyStatus, ApplyPublishSync, ApplyUnpublishSync, PublishStatusOf, UnpublishStatusOf, PublishName, UnpublishName, PublishTaskOf, UnpublishTaskOf, ShouldDelete;
    match proc
    case Publishing(_, _, _, _) => PublishingIsOk(w, s, proc);
    case CreatingPublish(fe, packageJob, cm, artifact, request) =>
      NewPublishTaskIsOk(w, s.packaged, fe, artifact, request, cm);
      var name := PublishName(w, request.requestId);
      var job := WithJob(w, s, name, PublishTaskOf(fe, request, cm), input).jobs[name];
      ReadyIsOk(w, s.packaged, fe, cm, artifact, packageJob, Some(PublishStatusOf(request, job)));
    case FetchingPublish(fe, packageJob, cm, artifact, request) =>
      var name := PublishName(w, request.requestId);
      if name in s.jobs { ReadyIsOk(w, s.packaged, fe, cm, artifact, packageJob, Some(PublishStatusOf(request, s.jobs[name]))); }
    case Unpublishing(fe, status) => UnpublishingIsOk(w, s, fe, status);
    case CreatingUnpublish(fe, status, request) =>
      var name := UnpublishName(w, request.requestId);
      assert TaskOk(w, s.packaged, UnpublishTaskOf(request)) by { UnpublishTaskIsOk(w, s.packaged, request); }
      var job := WithJob(w, s, name, UnpublishTaskOf(request), input).jobs[name];
      UnpublishIsOk(w, s.packaged, status, Some(UnpublishStatusOf(request, job)));
    case FetchingUnpublish(fe, status, request) =>
      var name := UnpublishName(w, request.requestId);
      if name in s.jobs { UnpublishIsOk(w, s.packaged, status, Some(UnpublishStatusOf(request, s.jobs[name]))); }
  }

  lemma UnpublishTaskIsOk(w: World, packaged: Packages, request: UnpublishRequest)
    ensures TaskOk(w, packaged, UnpublishTaskOf(request))
  {
  }

  lemma WritingIsOk(w: World, s: State, proc: Proc)
    requires IsWriting(proc) && Safe(w, s) && ProcOk(w, s.packaged, proc)
    ensures var o := RunWriting(w, s, proc);
      Safe(w, o.state) && (o.next.Some? ==> ProcOk(w, o.state.packaged, o.next.value))
  {
    hide StatusOk, MergeStatus, Observes, LabelsDue, PatchLabels, ConfigMapOk, PublicationOk, DownloadOk, TaskOk;
    if proc.Patching? && s.fe.Some? {
      MergedIsOk(w, s.packaged, s.fe.value.status, proc.status);
    }
  }

  lemma BuiltIsOk(w: World, packaged: Packages, fe: Fe, task: JobTask, input: Input)
    requires task.PackageTask? && (input.bytes, SourceHash(w, fe)) in packaged
    ensures ConfigMapOk(w, packaged, BuiltConfigMap(w, fe, task, input))
  {
    hide SourceHash;
  }

  lemma StoringIsOk(w: World, s: State, cm: ConfigMap, uid: Option<string>)
    requires Safe(w, s) && ConfigMapOk(w, s.packaged, cm)
    ensures Safe(w, StoreConfigMap(s, cm, uid))
  {
    hide FeOk, PublicationOk, DownloadOk, TaskOk, ProcOk;
  }

  lemma PackagerIsOk(w: World, s: State, proc: Proc, input: Input)
    requires proc.Packaging? || proc.Storing? || proc.Conflicted? || proc.Replacing?
    requires Safe(w, s) && ProcOk(w, s.packaged, proc)
    ensures var o := RunPackager(w, s, proc, input);
      Safe(w, o.state) && (o.next.Some? ==> ProcOk(w, o.state.packaged, o.next.value))
  {
    hide Safe, ConfigMapOk, StatusOk, TaskOk, SourceHash, BuiltConfigMap, StoreConfigMap;
    match proc
    case Packaging(task) =>
      if s.fe.Some? && task.PackageTask? {
        var packaged := s.packaged + {(input.bytes, SourceHash(w, s.fe.value))};
        PackagingKeepsSafe(w, s, packaged);
        BuiltIsOk(w, packaged, s.fe.value, task, input);
      }
    case Storing(cm) => StoringIsOk(w, s, cm, Some(input.uid));
    case Replacing(cm, _) =>
      if cm.name in s.configMaps { StoringIsOk(w, s, cm, s.configMaps[cm.name].uid); }
    case _ =>
  }

  lemma PublisherIsOk(w: World, s: State, proc: Proc)
    requires proc.Loading? || proc.Loaded?
    requires Safe(w, s) && ProcOk(w, s.packaged, proc)
    ensures var o := RunPublisher(w, s, proc);
      Safe(w, o.state) && (o.next.Some? ==> ProcOk(w, o.state.packaged, o.next.value))
  {
    hide FeOk, DownloadOk, ConfigMapOk, Backed;
  }

  lemma DownloadIsOk(w: World, s: State, proc: Proc)
    requires proc.Requested? || proc.Found? || proc.Fetched?
    requires Safe(w, s) && ProcOk(w, s.packaged, proc)
    ensures var o := RunDownload(w, s, proc);
      Safe(w, o.state) && (o.next.Some? ==> ProcOk(w, o.state.packaged, o.next.value))
  {
    hide PublicationOk, ConfigMapOk, TaskOk, Backed, Coherent, SourceHash;
  }

  // ----- Every step, every run -----

  lemma RunIsOk(w: World, s: State, proc: Proc, input: Input)
    requires Safe(w, s) && ProcOk(w, s.packaged, proc)
    ensures var o := RunProc(w, s, proc, input);
      Safe(w, o.state) && o.state.procs == s.procs && (o.next.Some? ==> ProcOk(w, o.state.packaged, o.next.value))
  {
    hide Safe, ProcOk, RunDeciding, RunWriting, RunPackager, RunPublisher, RunDownload, RunSyncing;
    RunKeepsProcs(w, s, proc, input);
    if proc.Starting? || proc.Listed? || proc.Rechecking? || proc.CreatingPackage? || proc.FetchingPackage? { DecidingIsOk(w, s, proc, input); }
    else if IsWriting(proc) { WritingIsOk(w, s, proc); }
    else if proc.Packaging? || proc.Storing? || proc.Conflicted? || proc.Replacing? { PackagerIsOk(w, s, proc, input); }
    else if proc.Loading? || proc.Loaded? { PublisherIsOk(w, s, proc); }
    else if proc.Requested? || proc.Found? || proc.Fetched? { DownloadIsOk(w, s, proc); }
    else { SyncingIsOk(w, s, proc, input); }
  }

  lemma SpawnIsOk(w: World, s: State, proc: Proc)
    requires Safe(w, s) && CanSpawn(s, proc)
    ensures ProcOk(w, s.packaged, proc)
  {
    hide FeOk, PublicationOk, DownloadOk, ConfigMapOk, TaskOk;
  }

  lemma SafeStep(w: World, s: State, s': State, action: Action)
    requires Safe(w, s) && Next(w, s, s', action)
    ensures Safe(w, s')
  {
    hide ProcOk, StatusOk, TaskOk, ConfigMapOk, PublicationOk, DownloadOk, RunProc, InputFits, IsEdit;
    match action
    case EditFe(fe) => assert fe.status == s.fe.value.status by { EditKeepsStatus(s.fe.value, fe); }
    case Spawn(pid, proc) => SpawnIsOk(w, s, proc);
    case Run(pid, input) => RunIsOk(w, s, s.procs[pid], input);
    case _ =>
  }

  lemma EditKeepsStatus(fe: Fe, next: Fe)
    requires IsEdit(fe, next)
    ensures next.status == fe.status
  {
  }

  lemma {:induction false} RunIsSafe(w: World, states: seq<State>, actions: seq<Action>, i: nat)
    requires IsRun(w, states, actions) && i < |states|
    ensures Safe(w, states[i])
  {
    hide Next, Safe, Init;
    if i == 0 {
      InitIsSafe(w, states[0]);
    } else {
      RunIsSafe(w, states, actions, i - 1);
      RunNext(w, states, actions, i - 1);
      SafeStep(w, states[i - 1], states[i], actions[i - 1]);
    }
  }

  lemma InitIsSafe(w: World, s: State)
    requires Init(s)
    ensures Safe(w, s)
  {
  }

  // ----- Main results -----

  /**
   In every run, downloaded bytes were packaged from a source with the hash that
   the extension's source had when the download read it.
   */
  lemma DownloadsMatchSource(w: World, states: seq<State>, actions: seq<Action>, i: nat, bytes: Bytes, sourceHash: string)
    requires CollisionFree(w) && IsRun(w, states, actions) && i < |states| && (bytes, sourceHash) in states[i].downloads
    ensures (bytes, sourceHash) in states[i].packaged
  {
    hide IsRun, ProcOk, FeOk, PublicationOk, ConfigMapOk, TaskOk;
    RunIsSafe(w, states, actions, i);
    assert DownloadOk(w, states[i].packaged, (bytes, sourceHash).0, (bytes, sourceHash).1);
  }

  /**
   In every run, published bytes have the digest named by their Job and, when the
   request named a source at the Job's creation, were packaged from that source,
   whatever happened to the ConfigMap in between.
   */
  lemma PublicationsMatchRequest(w: World, states: seq<State>, actions: seq<Action>, i: nat, bytes: Bytes, task: JobTask)
    requires CollisionFree(w) && IsRun(w, states, actions) && i < |states| && (bytes, task) in states[i].published
    ensures task.PublishTask? && w.digest(bytes) == task.artifactDigest
    ensures task.requestedSource.Some? ==> (bytes, task.requestedSource.value) in states[i].packaged
  {
    hide IsRun, ProcOk, FeOk, DownloadOk, ConfigMapOk, TaskOk;
    RunIsSafe(w, states, actions, i);
    assert PublicationOk(w, states[i].packaged, (bytes, task).0, (bytes, task).1);
  }

  /** In every run, the stored status is coherent. */
  lemma StoredStatusIsCoherent(w: World, states: seq<State>, actions: seq<Action>, i: nat)
    requires IsRun(w, states, actions) && i < |states| && states[i].fe.Some? && states[i].fe.value.status.Some?
    ensures Coherent(w, states[i].fe.value.status.value)
  {
    hide IsRun, ProcOk, PublicationOk, DownloadOk, ConfigMapOk, TaskOk;
    RunIsSafe(w, states, actions, i);
  }
}
