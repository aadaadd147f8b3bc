/**
 The FrontendExtension protocol as interleaved steps. Users, reconciles, packager
 and publisher pods, downloads and garbage collection act on one apiserver; each
 program is a sequence of atomic reads and writes, and any step of another may
 come between two of them. The gaps of the source are kept: a reconcile starts
 from a cached object of any age, and an object may change between being read and
 being written.
 */
module FeProtocol {
  import opened Prelude
  import opened Names
  import opened FeTypes
  import opened FeStatusRules
  import opened FeReconcile

  // ----- Programs, as the point each has reached -----

  datatype Proc =
    // a reconcile of the cached object `fe`
    | Starting(fe: Fe)
    | Listed(fe: Fe, latest: Option<Attempt>)
    | Rechecking(fe: Fe, latest: Option<Attempt>, attempt: Attempt)
    | CreatingPackage(fe: Fe, latest: Option<Attempt>, number: nat)
    | FetchingPackage(fe: Fe, name: string)
    | Publishing(fe: Fe, packageJob: Option<PackageJobStatus>, cm: ConfigMap, artifact: PackageMetadata)
    | CreatingPublish(fe: Fe, packageJob: Option<PackageJobStatus>, cm: ConfigMap, artifact: PackageMetadata, publish: PublishRequest)
    | FetchingPublish(fe: Fe, packageJob: Option<PackageJobStatus>, cm: ConfigMap, artifact: PackageMetadata, publish: PublishRequest)
    | Unpublishing(fe: Fe, status: FeStatus)
    | CreatingUnpublish(fe: Fe, status: FeStatus, unpublish: UnpublishRequest)
    | FetchingUnpublish(fe: Fe, status: FeStatus, unpublish: UnpublishRequest)
    | Guarding(status: FeStatus, delete: bool)
    | Patching(status: FeStatus, delete: bool)
    | Rereading(delete: bool)
    | Labelling(status: FeStatus, delete: bool)
    | Deleting
    // a packager pod
    | Packaging(task: JobTask)
    | Storing(built: ConfigMap)
    | Conflicted(built: ConfigMap)
    | Replacing(built: ConfigMap, version: nat)
    // a publisher pod
    | Loading(task: JobTask)
    | Loaded(task: JobTask, bytes: Bytes)
    // a download
    | Requested
    | Found(ready: ArtifactStatus, sourceHash: string)
    | Fetched(ready: ArtifactStatus, sourceHash: string, bytes: Bytes)

  /**
   The apiserver, the running programs, and a record of what happened: every
   version the extension had, the bytes packaged with the source hash of the object
   they were built from, the bytes published with the Job they were published for,
   and the bytes downloaded with the source hash of the extension when the download
   read it.
   */
  datatype State = State(
    fe: Option<Fe>,
    jobs: map<string, Job>,
    configMaps: map<string, ConfigMap>,
    version: nat,
    procs: map<nat, Proc>,
    past: set<Fe>,
    packaged: set<(Bytes, string)>,
    published: set<(Bytes, JobTask)>,
    downloads: set<(Bytes, string)>)

  /** What a step draws from outside: names the server assigns, and the output of the build. */
  datatype Input = Input(
    latest: Option<Attempt>, uid: string, time: int, bytes: Bytes, filename: string, mediaType: string, sizeBytes: int, namespace: string)

  datatype Outcome = Outcome(state: State, next: Option<Proc>)

  function WithFe(s: State, fe: Fe): State {
    s.(fe := Some(fe), past := s.past + {fe})
  }

  function WithJob(w: World, s: State, name: string, task: JobTask, input: Input): State {
    s.(jobs := s.jobs[name := NewJob(w, name, input.uid, input.time, task)])
  }

  function ConfigMapIn(s: State, name: string): Option<ConfigMap> {
    if name in s.configMaps then Some(s.configMaps[name]) else None
  }

  // ----- A reconcile -----

  function AfterDecision(w: World, fe: Fe, latest: Option<Attempt>, decision: Decision, cm: Option<ConfigMap>): Proc
    requires decision.SyncAndReady? ==> cm.Some?
  {
    match decision
    case WriteInvalid => Guarding(FailedStatus(w, fe, None, "InvalidSource", w.invalidMessage(fe.source)), false)
    case SyncAndReady(artifact, packageJob) => Publishing(fe, packageJob, cm.value, artifact)
    case WriteInProgress(job) => Guarding(PackagingStatus(w, fe, job, "Package job in progress"), false)
    case WriteExceeded(job, message) => Guarding(FailedStatus(w, fe, job, "PackageAttemptsExceeded", message), false)
    case CheckAgain(attempt) => Rechecking(fe, latest, attempt)
    case CreateAttempt(number) => CreatingPackage(fe, latest, number)
  }

  function AfterPackage(w: World, fe: Fe, job: Job): Proc {
    Guarding(PackagingStatus(w, fe, job, "Package job created"), false)
  }

  function AfterPublish(
    w: World, fe: Fe, packageJob: Option<PackageJobStatus>, cm: ConfigMap, artifact: PackageMetadata, publish: Option<PublishStatus>): Proc
  {
    Unpublishing(fe, ApplyPublishSync(ReadyStatus(w, fe, cm, artifact, packageJob), publish))
  }

  function AfterUnpublish(fe: Fe, status: FeStatus, unpublish: Option<UnpublishStatus>): Proc {
    Guarding(ApplyUnpublishSync(status, unpublish), ShouldDelete(fe, unpublish))
  }

  function AfterPatch(delete: bool): Option<Proc> {
    if delete then Some(Deleting) else None
  }

  function RunPublishing(w: World, s: State, proc: Proc): Proc
    requires proc.Publishing?
  {
    var Publishing(fe, packageJob, cm, artifact) := proc;
    match ResolvePublish(fe, artifact)
    case NoRequest => AfterPublish(w, fe, packageJob, cm, artifact, RetainedPublish(fe, ArtifactKey(w, fe)))
    case StaleRequest => AfterPublish(w, fe, packageJob, cm, artifact, RetainedPublish(fe, ArtifactKey(w, fe)))
    case RejectedRequest(status) => AfterPublish(w, fe, packageJob, cm, artifact, Some(status))
    case Accepted(request) =>
      var name := PublishName(w, request.requestId);
      if name in s.jobs then AfterPublish(w, fe, packageJob, cm, artifact, Some(PublishStatusOf(request, s.jobs[name])))
      else if PublishAlreadyFinished(fe, request, ArtifactKey(w, fe)) then AfterPublish(w, fe, packageJob, cm, artifact, StoredPublish(fe))
      else CreatingPublish(fe, packageJob, cm, artifact, request)
  }

  function RunUnpublishing(w: World, s: State, fe: Fe, status: FeStatus): Proc {
    match ResolveUnpublish(w, fe)
    case NoUnpublish => AfterUnpublish(fe, status, StoredUnpublish(fe))
    case RejectedUnpublish(rejected) => AfterUnpublish(fe, status, Some(rejected))
    case AcceptedUnpublish(request) =>
      var name := UnpublishName(w, request.requestId);
      if name in s.jobs then AfterUnpublish(fe, status, Some(UnpublishStatusOf(request, s.jobs[name])))
      else if UnpublishAlreadyFinished(fe, request) then AfterUnpublish(fe, status, StoredUnpublish(fe))
      else CreatingUnpublish(fe, status, request)
  }

  /** The reads and writes on Jobs and ConfigMaps. */
  function RunDeciding(w: World, s: State, proc: Proc, input: Input): Outcome
    requires proc.Starting? || proc.Listed? || proc.Rechecking? || proc.CreatingPackage? || proc.FetchingPackage?
  {
    match proc
    case Starting(fe) => Outcome(s, if fe.deleting then None else Some(Listed(fe, input.latest)))
    case Listed(fe, latest) =>
      var cm := ConfigMapIn(s, ArtifactName(w, fe));
      Outcome(s, Some(AfterDecision(w, fe, latest, Decide(w, fe, latest, cm), cm)))
    case Rechecking(fe, latest, attempt) =>
      var cm := ConfigMapIn(s, ArtifactName(w, fe));
      Outcome(s, Some(AfterDecision(w, fe, latest, DecideAgain(w, fe, attempt, cm), cm)))
    case CreatingPackage(fe, latest, number) =>
      var name := PackageJobName(w.feName, ArtifactKey(w, fe), number);
      if name in s.jobs then Outcome(s, Some(FetchingPackage(fe, name)))
      else
        var next := WithJob(w, s, name, PackageTaskOf(w, fe), input);
        Outcome(next, Some(AfterPackage(w, fe, next.jobs[name])))
    case FetchingPackage(fe, name) =>
      Outcome(s, if name in s.jobs then Some(AfterPackage(w, fe, s.jobs[name])) else None)
  }

  function RunSyncing(w: World, s: State, proc: Proc, input: Input): Outcome
    requires proc.Publishing? || proc.CreatingPublish? || proc.FetchingPublish? || proc.Unpublishing? || proc.CreatingUnpublish? || proc.FetchingUnpublish?
  {
    match proc
    case Publishing(_, _, _, _) => Outcome(s, Some(RunPublishing(w, s, proc)))
    case CreatingPublish(fe, packageJob, cm, artifact, request) =>
      var name := PublishName(w, request.requestId);
      if name in s.jobs then Outcome(s, Some(FetchingPublish(fe, packageJob, cm, artifact, request)))
      else
        var next := WithJob(w, s, name, PublishTaskOf(fe, request, cm), input);
        Outcome(next, Some(AfterPublish(w, fe, packageJob, cm, artifact, Some(PublishStatusOf(request, next.jobs[name])))))
    case FetchingPublish(fe, packageJob, cm, artifact, request) =>
      var name := PublishName(w, request.requestId);
      Outcome(s, if name in s.jobs then Some(AfterPublish(w, fe, packageJob, cm, artifact, Some(PublishStatusOf(request, s.jobs[name])))) else None)
    case Unpublishing(fe, status) => Outcome(s, Some(RunUnpublishing(w, s, fe, status)))
    case CreatingUnpublish(fe, status, request) =>
      var name := UnpublishName(w, request.requestId);
      if name in s.jobs then Outcome(s, Some(FetchingUnpublish(fe, status, request)))
      else
        var next := WithJob(w, s, name, UnpublishTaskOf(request), input);
        Outcome(next, Some(AfterUnpublish(fe, status, Some(UnpublishStatusOf(request, next.jobs[name])))))
    case FetchingUnpublish(fe, status, request) =>
      var name := UnpublishName(w, request.requestId);
      Outcome(s, if name in s.jobs then Some(AfterUnpublish(fe, status, Some(UnpublishStatusOf(request, s.jobs[name])))) else None)
  }

  predicate LabelsDue(w: World, fe: Fe) {
    fe.status.Some? && Observes(w, fe, fe.status.value) && LabelsNeedPatch(fe.labels, fe.status.value)
  }

  /** patch_fe_status and the deletion after it. When the extension is gone, the reconcile ends in an error. */
  function RunWriting(w: World, s: State, proc: Proc): Outcome
    requires proc.Guarding? || proc.Patching? || proc.Rereading? || proc.Labelling? || proc.Deleting?
  {
    if s.fe.None? then Outcome(s, None)
    else
      var fe := s.fe.value;
      match proc
      case Guarding(status, delete) =>
        if !Observes(w, fe, status) then Outcome(s, AfterPatch(delete))
        else if fe.status != Some(status) then Outcome(s, Some(Patching(status, delete)))
        else Outcome(s, if LabelsDue(w, fe) then Some(Labelling(status, delete)) else AfterPatch(delete))
      case Patching(status, delete) => Outcome(WithFe(s, fe.(status := Some(MergeStatus(fe.status, status)))), Some(Rereading(delete)))
      case Rereading(delete) => Outcome(s, if LabelsDue(w, fe) then Some(Labelling(fe.status.value, delete)) else AfterPatch(delete))
      case Labelling(status, delete) => Outcome(WithFe(s, fe.(labels := PatchLabels(fe.labels, status))), AfterPatch(delete))
      case Deleting => Outcome(s.(fe := None), None)
  }

  // ----- Packager, publisher, download -----

  /** artifact_configmap of a package built from `fe`. */
  function BuiltConfigMap(w: World, fe: Fe, task: JobTask, input: Input): ConfigMap
    requires task.PackageTask?
  {
    var digest := w.digest(input.bytes);
    ConfigMap(
      input.namespace, task.configMapName, None, 0,
      map[ANNO_SOURCE_HASH := SourceHash(w, fe), ANNO_ARTIFACT_KEY := task.artifactKey, ANNO_ARTIFACT_DIGEST := digest],
      Some(PackageMetadata(digest, SourceHash(w, fe), input.filename, input.mediaType, input.sizeBytes, input.time)),
      Some(input.bytes))
  }

  function StoreConfigMap(s: State, cm: ConfigMap, uid: Option<string>): State {
    s.(configMaps := s.configMaps[cm.name := cm.(uid := uid, resourceVersion := s.version)], version := s.version + 1)
  }

  function RunPackager(w: World, s: State, proc: Proc, input: Input): Outcome
    requires proc.Packaging? || proc.Storing? || proc.Conflicted? || proc.Replacing?
  {
    match proc
    case Packaging(task) =>
      if s.fe.None? || !task.PackageTask? || SourceHash(w, s.fe.value) != task.sourceHash then Outcome(s, None)
      else
        Outcome(
          s.(packaged := s.packaged + {(input.bytes, SourceHash(w, s.fe.value))}),
          Some(Storing(BuiltConfigMap(w, s.fe.value, task, input))))
    case Storing(cm) =>
      if cm.name in s.configMaps then Outcome(s, Some(Conflicted(cm))) else Outcome(StoreConfigMap(s, cm, Some(input.uid)), None)
    case Conflicted(cm) =>
      Outcome(s, if cm.name in s.configMaps then Some(Replacing(cm, s.configMaps[cm.name].resourceVersion)) else None)
    case Replacing(cm, version) =>
      if cm.name in s.configMaps && s.configMaps[cm.name].resourceVersion == version
      then Outcome(StoreConfigMap(s, cm, s.configMaps[cm.name].uid), None)
      else Outcome(s, None)
  }

  function RunPublisher(w: World, s: State, proc: Proc): Outcome
    requires proc.Loading? || proc.Loaded?
  {
    match proc
    case Loading(task) =>
      if task.PublishTask? && task.configMapName in s.configMaps && s.configMaps[task.configMapName].package.Some?
      then Outcome(s, Some(Loaded(task, s.configMaps[task.configMapName].package.value)))
      else Outcome(s, None)
    case Loaded(task, bytes) =>
      if task.PublishTask? && w.digest(bytes) == task.artifactDigest
      then Outcome(s.(published := s.published + {(bytes, task)}), None)
      else Outcome(s, None)
  }

  /** ready_artifact: the artifact of a Ready status that matches the current source. */
  function ReadyArtifact(w: World, fe: Fe): (r: Option<ArtifactStatus>)
    ensures r.Some? ==>
      && fe.status.Some? && fe.status.value.artifact == r
      && r.value.sourceHash == SourceHash(w, fe)
  {
    if fe.status.None? || !fe.status.value.phase.PhaseReady? then None
    else if fe.status.value.download.None? || !fe.status.value.download.value.ready || fe.status.value.artifact.None? then None
    else if fe.status.value.observedSourceHash != Some(fe.status.value.artifact.value.sourceHash) then None
    else if fe.status.value.observedSourceHash != Some(SourceHash(w, fe)) then None
    else fe.status.value.artifact
  }

  function RunDownload(w: World, s: State, proc: Proc): Outcome
    requires proc.Requested? || proc.Found? || proc.Fetched?
  {
    match proc
    case Requested =>
      if s.fe.None? || ReadyArtifact(w, s.fe.value).None? then Outcome(s, None)
      else Outcome(s, Some(Found(ReadyArtifact(w, s.fe.value).value, SourceHash(w, s.fe.value))))
    case Found(artifact, sourceHash) =>
      if (artifact.key == "" || artifact.key == PACKAGE_KEY) && artifact.refName in s.configMaps && s.configMaps[artifact.refName].package.Some?
      then Outcome(s, Some(Fetched(artifact, sourceHash, s.configMaps[artifact.refName].package.value)))
      else Outcome(s, None)
    case Fetched(artifact, sourceHash, bytes) =>
      if w.digest(bytes) == artifact.digest then Outcome(s.(downloads := s.downloads + {(bytes, sourceHash)}), None) else Outcome(s, None)
  }

  predicate IsReconcile(proc: Proc) {
    proc.Starting? || proc.Listed? || proc.Rechecking? || proc.CreatingPackage? || proc.FetchingPackage?
    || proc.Publishing? || proc.CreatingPublish? || proc.FetchingPublish?
    || proc.Unpublishing? || proc.CreatingUnpublish? || proc.FetchingUnpublish? || IsWriting(proc)
  }

  predicate IsWriting(proc: Proc) {
    proc.Guarding? || proc.Patching? || proc.Rereading? || proc.Labelling? || proc.Deleting?
  }

  function RunProc(w: World, s: State, proc: Proc, input: Input): Outcome {
    if proc.Starting? || proc.Listed? || proc.Rechecking? || proc.CreatingPackage? || proc.FetchingPackage? then RunDeciding(w, s, proc, input)
    else if IsWriting(proc) then RunWriting(w, s, proc)
    else if proc.Packaging? || proc.Storing? || proc.Conflicted? || proc.Replacing? then RunPackager(w, s, proc, input)
    else if proc.Loading? || proc.Loaded? then RunPublisher(w, s, proc)
    else if proc.Requested? || proc.Found? || proc.Fetched? then RunDownload(w, s, proc)
    else RunSyncing(w, s, proc, input)
  }

  /** `next` has all Jobs of `s`, and the same programs. */
  ghost predicate KeepsJobs(s: State, next: State) {
    next.procs == s.procs && forall name :: name in s.jobs ==> name in next.jobs && next.jobs[name] == s.jobs[name]
  }

  lemma DecidingKeeps(w: World, s: State, proc: Proc, input: Input)
    requires proc.Starting? || proc.Listed? || proc.Rechecking? || proc.CreatingPackage? || proc.FetchingPackage?
    ensures KeepsJobs(s, RunDeciding(w, s, proc, input).state)
  {
    hide Decide, DecideAgain, AfterDecision, PackageTaskOf, PackageJobName, AfterPackage, ArtifactName;
  }

  lemma SyncingKeeps(w: World, s: State, proc: Proc, input: Input)
    requires proc.Publishing? || proc.CreatingPublish? || proc.FetchingPublish? || proc.Unpublishing? || proc.CreatingUnpublish? || proc.FetchingUnpublish?
    ensures KeepsJobs(s, RunSyncing(w, s, proc, input).state)
  {
    hide RunPublishing, RunUnpublishing, PublishTaskOf, UnpublishTaskOf, PublishName, UnpublishName, AfterPublish, AfterUnpublish;
  }

  lemma WritingKeeps(w: World, s: State, proc: Proc)
    requires IsWriting(proc)
    ensures RunWriting(w, s, proc).state.jobs == s.jobs && RunWriting(w, s, proc).state.procs == s.procs
  {
    hide Observes, LabelsDue, MergeStatus, PatchLabels;
  }

  lemma PodsKeep(w: World, s: State, proc: Proc, input: Input)
    requires !IsReconcile(proc)
    ensures RunProc(w, s, proc, input).state.jobs == s.jobs && RunProc(w, s, proc, input).state.procs == s.procs
  {
    hide RunDeciding, RunSyncing, RunWriting, ReadyArtifact, SourceHash, BuiltConfigMap;
  }

  /** A program changes no other program, and no Job that exists. */
  lemma RunKeeps(w: World, s: State, proc: Proc, input: Input)
    ensures KeepsJobs(s, RunProc(w, s, proc, input).state)
  {
    hide RunDeciding, RunSyncing, RunWriting, RunPackager, RunPublisher, RunDownload;
    if proc.Starting? || proc.Listed? || proc.Rechecking? || proc.CreatingPackage? || proc.FetchingPackage? { DecidingKeeps(w, s, proc, input); }
    else if IsWriting(proc) { WritingKeeps(w, s, proc); }
    else if IsReconcile(proc) { SyncingKeeps(w, s, proc, input); }
    else { PodsKeep(w, s, proc, input); }
  }

  lemma RunKeepsProcs(w: World, s: State, proc: Proc, input: Input)
    ensures RunProc(w, s, proc, input).state.procs == s.procs
  {
    hide RunProc;
    RunKeeps(w, s, proc, input);
  }

  lemma RunKeepsJobs(w: World, s: State, proc: Proc, input: Input)
    ensures var o := RunProc(w, s, proc, input); forall name :: name in s.jobs ==> name in o.state.jobs && o.state.jobs[name] == s.jobs[name]
  {
    hide RunProc;
    RunKeeps(w, s, proc, input);
  }

  // ----- Steps and runs -----

  datatype Action =
    | CreateFe(fe: Fe)
    | EditFe(fe: Fe)
    | RemoveFe
    | ProgressJob(name: string, status: Option<JobStatus>)
    | RemoveJob(name: string)
    | RemoveConfigMap(name: string)
    | Spawn(pid: nat, proc: Proc)
    | Run(pid: nat, input: Input)
    | Crash(pid: nat)

  /** A user's write: the status stays, and the generation counts the changes of the spec. */
  predicate IsEdit(fe: Fe, next: Fe) {
    && next.uid == fe.uid && next.status == fe.status
    && (next.generation == fe.generation || next.generation == fe.generation + 1)
    && ((next.source, next.policyKind, next.policyRef) != (fe.source, fe.policyKind, fe.policyRef) ==> next.generation == fe.generation + 1)
  }

  /** Users are free to write any annotations and labels, and a new generation with any source and policy. */
  lemma AnyEditIsAllowed(
    fe: Fe, annotations: map<string, string>, labels: map<string, string>, source: Source, policyKind: Option<string>, policyRef: Option<ObjectRef>)
    ensures IsEdit(fe, fe.(annotations := annotations, labels := labels))
    ensures IsEdit(fe, fe.(annotations := annotations, labels := labels, source := source, policyKind := policyKind, policyRef := policyRef, generation := fe.generation + 1))
  {
  }

  /** Where a program starts: a reconcile from any past version, a pod from its Job. */
  ghost predicate CanSpawn(s: State, proc: Proc) {
    match proc
    case Starting(fe) => fe in s.past
    case Packaging(task) => task.PackageTask? && exists name :: name in s.jobs && s.jobs[name].task == task
    case Loading(task) => task.PublishTask? && exists name :: name in s.jobs && s.jobs[name].task == task
    case Requested => true
    case _ => false
  }

  /** A reconcile lists what is there at that moment. */
  ghost predicate InputFits(w: World, s: State, proc: Proc, input: Input) {
    proc.Starting? ==> IsLatest(s.jobs, proc.fe.uid, HashLabelValue(ArtifactKey(w, proc.fe)), input.latest)
  }

  function AfterRun(w: World, s: State, pid: nat, input: Input): State
    requires pid in s.procs
  {
    var o := RunProc(w, s, s.procs[pid], input);
    o.state.(procs := if o.next.Some? then s.procs[pid := o.next.value] else s.procs - {pid})
  }

  ghost predicate Next(w: World, s: State, s': State, action: Action) {
    match action
    case CreateFe(fe) => s.fe.None? && fe.status.None? && s' == WithFe(s, fe)
    case EditFe(fe) => s.fe.Some? && IsEdit(s.fe.value, fe) && s' == WithFe(s, fe)
    case RemoveFe => s' == s.(fe := None)
    case ProgressJob(name, status) =>
      name in s.jobs && !Finished(s.jobs[name].status) && s' == s.(jobs := s.jobs[name := s.jobs[name].(status := status)])
    case RemoveJob(name) => s' == s.(jobs := s.jobs - {name})
    case RemoveConfigMap(name) => s' == s.(configMaps := s.configMaps - {name})
    case Spawn(pid, proc) => pid !in s.procs && CanSpawn(s, proc) && s' == s.(procs := s.procs[pid := proc])
    case Run(pid, input) => pid in s.procs && InputFits(w, s, s.procs[pid], input) && s' == AfterRun(w, s, pid, input)
    case Crash(pid) => s' == s.(procs := s.procs - {pid})
  }

  /** Nothing has happened yet. */
  ghost predicate Init(s: State) {
    s.fe.None? && s.jobs == map[] && s.configMaps == map[] && s.procs == map[] && s.past == {} && s.packaged == {} && s.published == {} && s.downloads == {}
  }

  ghost predicate IsRun(w: World, states: seq<State>, actions: seq<Action>) {
    && |states| == |actions| + 1 && Init(states[0])
    && forall i :: 0 <= i < |actions| ==> Next(w, states[i], states[i + 1], actions[i])
  }

  lemma RunNext(w: World, states: seq<State>, actions: seq<Action>, i: nat)
    requires IsRun(w, states, actions) && i + 1 < |states|
    ensures |states| == |actions| + 1 && Next(w, states[i], states[i + 1], actions[i])
  {
    hide Next, Init;
  }
}
