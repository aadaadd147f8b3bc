/** In every run, a stored artifact is one that some package Job asked for. */
module FeOrigin {
  import opened Prelude
  import opened Names
  import opened FeTypes
  import opened FeStatusRules
  import opened FeReconcile
  import opened FeProtocol

  /** `cm` is stored under the name, for the source hash and with the artifact key that the task gives. */
  ghost predicate AsksFor(cm: ConfigMap, task: JobTask) {
    && task.PackageTask? && cm.name == task.configMapName
    && ANNO_SOURCE_HASH in cm.annotations && cm.annotations[ANNO_SOURCE_HASH] == task.sourceHash
    && ANNO_ARTIFACT_KEY in cm.annotations && cm.annotations[ANNO_ARTIFACT_KEY] == task.artifactKey
    && cm.metadata.Some? && cm.metadata.value.sourceHash == task.sourceHash
  }

  ghost predicate Asked(tasks: iset<JobTask>, cm: ConfigMap) {
    exists task :: task in tasks && AsksFor(cm, task)
  }

  ghost predicate ProcAsked(tasks: iset<JobTask>, proc: Proc) {
    match proc
    case Packaging(task) => task in tasks
    case Storing(cm) => Asked(tasks, cm)
    case Conflicted(cm) => Asked(tasks, cm)
    case Replacing(cm, _) => Asked(tasks, cm)
    case _ => true
  }

  /** All artifacts, stored or being stored, were asked for by one of the tasks. */
  ghost predicate AllAsked(tasks: iset<JobTask>, s: State) {
    && (forall name :: name in s.configMaps ==> s.configMaps[name].name == name && Asked(tasks, s.configMaps[name]))
    && (forall pid :: pid in s.procs ==> ProcAsked(tasks, s.procs[pid]))
  }

  ghost predicate HasTasks(tasks: iset<JobTask>, s: State) {
    forall name :: name in s.jobs ==> s.jobs[name].task in tasks
  }

  lemma AskedMono(tasks: iset<JobTask>, more: iset<JobTask>, s: State)
    requires tasks <= more && AllAsked(tasks, s)
    ensures AllAsked(more, s)
  {
    hide AsksFor;
    forall cm | Asked(tasks, cm) ensures Asked(more, cm) {
      var task :| task in tasks && AsksFor(cm, task);
      assert task in more;
    }
  }

  lemma BuiltIsAsked(w: World, tasks: iset<JobTask>, fe: Fe, task: JobTask, input: Input)
    requires task in tasks && task.PackageTask? && SourceHash(w, fe) == task.sourceHash
    ensures Asked(tasks, BuiltConfigMap(w, fe, task, input))
  {
    hide SourceHash;
    assert |ANNO_SOURCE_HASH| < |ANNO_ARTIFACT_KEY| < |ANNO_ARTIFACT_DIGEST|;
    assert AsksFor(BuiltConfigMap(w, fe, task, input), task);
  }

  lemma StoringIsAsked(tasks: iset<JobTask>, s: State, cm: ConfigMap, uid: Option<string>)
    requires AllAsked(tasks, s) && Asked(tasks, cm)
    ensures AllAsked(tasks, StoreConfigMap(s, cm, uid))
  {
    var task :| task in tasks && AsksFor(cm, task);
    var stored := cm.(uid := uid, resourceVersion := s.version);
    assert AsksFor(stored, task);
    hide AsksFor, ProcAsked;
    assert Asked(tasks, stored);
  }

  lemma PackagerStep(w: World, tasks: iset<JobTask>, s: State, proc: Proc, input: Input)
    requires AllAsked(tasks, s) && ProcAsked(tasks, proc)
    requires proc.Packaging? || proc.Storing? || proc.Conflicted? || proc.Replacing?
    ensures var o := RunPackager(w, s, proc, input);
      AllAsked(tasks, o.state) && (o.next.Some? ==> ProcAsked(tasks, o.next.value))
  {
    hide AllAsked, Asked, BuiltConfigMap, StoreConfigMap, SourceHash;
    match proc
    case Packaging(task) =>
      if s.fe.Some? && task.PackageTask? && SourceHash(w, s.fe.value) == task.sourceHash { BuiltIsAsked(w, tasks, s.fe.value, task, input); }
      PackagedOnly(tasks, s, input.bytes, if s.fe.Some? then SourceHash(w, s.fe.value) else "");
    case Storing(cm) => StoringIsAsked(tasks, s, cm, Some(input.uid));
    case Replacing(cm, _) => if cm.name in s.configMaps { StoringIsAsked(tasks, s, cm, s.configMaps[cm.name].uid); }
    case _ =>
  }

  lemma PackagedOnly(tasks: iset<JobTask>, s: State, bytes: Bytes, hash: string)
    requires AllAsked(tasks, s)
    ensures AllAsked(tasks, s.(packaged := s.packaged + {(bytes, hash)}))
  {
  }

  predicate IsPackager(proc: Proc) {
    proc.Packaging? || proc.Storing? || proc.Conflicted? || proc.Replacing?
  }

  /** The step stores no artifact, and what comes next is no packager. */
  ghost predicate StoresNothing(s: State, o: Outcome) {
    o.state.configMaps == s.configMaps && (o.next.Some? ==> !IsPackager(o.next.value))
  }

  lemma DecidingStoresNothing(w: World, s: State, proc: Proc, input: Input)
    requires proc.Starting? || proc.Listed? || proc.Rechecking? || proc.CreatingPackage? || proc.FetchingPackage?
    ensures StoresNothing(s, RunDeciding(w, s, proc, input))
  {
    hide Decide, DecideAgain, PackageTaskOf, PackageJobName, PackagingStatus, FailedStatus, ArtifactName;
  }

  lemma SyncingStoresNothing(w: World, s: State, proc: Proc, input: Input)
    requires proc.Publishing? || proc.CreatingPublish? || proc.FetchingPublish? || proc.Unpublishing? || proc.CreatingUnpublish? || proc.FetchingUnpublish?
    ensures StoresNothing(s, RunSyncing(w, s, proc, input))
  {
    hide RunPublishing, RunUnpublishing, PublishTaskOf, UnpublishTaskOf, PublishName, UnpublishName, ReadyStatus, ApplyPublishSync, ApplyUnpublishSync;
    if proc.Publishing? { PublishingGoesOn(w, s, proc); }
    if proc.Unpublishing? { UnpublishingGoesOn(w, s, proc.fe, proc.status); }
  }

  lemma OthersStoreNothing(w: World, s: State, proc: Proc, input: Input)
    requires !IsPackager(proc)
    ensures StoresNothing(s, RunProc(w, s, proc, input))
  {
    hide RunDeciding, RunSyncing, RunPackager, Observes, LabelsDue, MergeStatus, PatchLabels, ReadyArtifact, SourceHash;
    if proc.Starting? || proc.Listed? || proc.Rechecking? || proc.CreatingPackage? || proc.FetchingPackage? {
      DecidingStoresNothing(w, s, proc, input);
    } else if proc.Publishing? || proc.CreatingPublish? || proc.FetchingPublish? || proc.Unpublishing? || proc.CreatingUnpublish? || proc.FetchingUnpublish? {
      SyncingStoresNothing(w, s, proc, input);
    }
  }

  lemma PublishingGoesOn(w: World, s: State, proc: Proc)
    requires proc.Publishing?
    ensures RunPublishing(w, s, proc).Unpublishing? || RunPublishing(w, s, proc).CreatingPublish?
  {
    hide ResolvePublish, RetainedPublish, PublishAlreadyFinished, PublishStatusOf, PublishName, ReadyStatus, ApplyPublishSync;
  }

  lemma UnpublishingGoesOn(w: World, s: State, fe: Fe, status: FeStatus)
    ensures RunUnpublishing(w, s, fe, status).Guarding? || RunUnpublishing(w, s, fe, status).CreatingUnpublish?
  {
    hide ResolveUnpublish, UnpublishAlreadyFinished, UnpublishStatusOf, UnpublishName, ApplyUnpublishSync, ShouldDelete;
  }

  lemma ProgramStep(w: World, tasks: iset<JobTask>, s: State, proc: Proc, input: Input)
    requires AllAsked(tasks, s) && ProcAsked(tasks, proc)
    ensures var o := RunProc(w, s, proc, input);
      AllAsked(tasks, o.state) && o.state.procs == s.procs && (o.next.Some? ==> ProcAsked(tasks, o.next.value))
  {
    hide AllAsked, Asked, RunProc;
    RunKeepsProcs(w, s, proc, input);
    if proc.Packaging? || proc.Storing? || proc.Conflicted? || proc.Replacing? {
      PackagerStep(w, tasks, s, proc, input);
      PackagerRuns(w, s, proc, input);
    } else {
      OthersStoreNothing(w, s, proc, input);
      SameConfigMaps(tasks, s, RunProc(w, s, proc, input).state);
    }
  }

  lemma PackagerRuns(w: World, s: State, proc: Proc, input: Input)
    requires proc.Packaging? || proc.Storing? || proc.Conflicted? || proc.Replacing?
    ensures RunProc(w, s, proc, input) == RunPackager(w, s, proc, input)
  {
    hide RunPackager;
  }

  lemma SameConfigMaps(tasks: iset<JobTask>, s: State, next: State)
    requires AllAsked(tasks, s) && next.configMaps == s.configMaps && next.procs == s.procs
    ensures AllAsked(tasks, next)
  {
    hide Asked, ProcAsked;
  }

  lemma OriginStep(w: World, tasks: iset<JobTask>, s: State, s': State, action: Action)
    requires AllAsked(tasks, s) && HasTasks(tasks, s) && Next(w, s, s', action)
    ensures AllAsked(tasks, s')
  {
    hide Asked, RunProc, InputFits, IsEdit, Finished;
    match action
    case Run(pid, input) => ProgramStep(w, tasks, s, s.procs[pid], input);
    case _ =>
  }

  /** The tasks of all Jobs there have been. */
  ghost function TasksUpTo(states: seq<State>, i: nat): iset<JobTask>
    requires i < |states|
  {
    iset j: nat, name | j <= i && name in states[j].jobs :: states[j].jobs[name].task
  }

  lemma TasksGrow(states: seq<State>, i: nat)
    requires i + 1 < |states|
    ensures TasksUpTo(states, i) <= TasksUpTo(states, i + 1)
    ensures HasTasks(TasksUpTo(states, i), states[i])
  {
    forall task | task in TasksUpTo(states, i) ensures task in TasksUpTo(states, i + 1) {
      var j: nat, name :| j <= i && name in states[j].jobs && states[j].jobs[name].task == task;
      assert name in states[j].jobs && j <= i + 1;
    }
  }

  lemma {:induction false} AlwaysAsked(w: World, states: seq<State>, actions: seq<Action>, i: nat)
    requires IsRun(w, states, actions) && i < |states|
    ensures AllAsked(TasksUpTo(states, i), states[i])
  {
    hide Next, Asked, Init, TasksUpTo, ProcAsked;
    if i == 0 {
      NothingStored(TasksUpTo(states, 0), states[0]);
    } else {
      AlwaysAsked(w, states, actions, i - 1);
      RunNext(w, states, actions, i - 1);
      TasksGrow(states, i - 1);
      OriginStep(w, TasksUpTo(states, i - 1), states[i - 1], states[i], actions[i - 1]);
      AskedMono(TasksUpTo(states, i - 1), TasksUpTo(states, i), states[i]);
    }
  }

  lemma NothingStored(tasks: iset<JobTask>, s: State)
    requires Init(s)
    ensures AllAsked(tasks, s)
  {
  }

  /**
   The main result: in every run, a stored ConfigMap was asked for by a package Job
   that exists or existed, with its name, its source hash and its artifact key.
   */
  lemma StoredWasAskedFor(w: World, states: seq<State>, actions: seq<Action>, i: nat, name: string)
    requires IsRun(w, states, actions) && i < |states| && name in states[i].configMaps
    ensures exists j: nat, job: string ::
              && j <= i && job in states[j].jobs && states[j].jobs[job].task.PackageTask?
              && states[j].jobs[job].task.configMapName == name && AsksFor(states[i].configMaps[name], states[j].jobs[job].task)
  {
    hide IsRun, AsksFor, ProcAsked;
    AlwaysAsked(w, states, actions, i);
    var cm := states[i].configMaps[name];
    var task :| task in TasksUpTo(states, i) && AsksFor(cm, task);
    var j: nat, job :| j <= i && job in states[j].jobs && states[j].jobs[job].task == task;
    AsksForIsOfTask(cm, task);
  }

  lemma AsksForIsOfTask(cm: ConfigMap, task: JobTask)
    requires AsksFor(cm, task)
    ensures task.PackageTask? && task.configMapName == cm.name
  {
  }
}
