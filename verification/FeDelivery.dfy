/**
 What the pods and the download deliver when nobody else moves: the packager stores
 the artifact its Job asks for, the publisher publishes it, a download hands it out;
 and the chain from a reconcile that starts packaging to the download.
 */
module FeDelivery {
  import opened Prelude
  import opened Names
  import opened FeTypes
  import opened FeStatusRules
  import opened FeReconcile
  import opened FeProtocol
  import opened FeStable
  import FeApi
  import FeProgress
  import FeMeaning

  /** Up to `fuel` steps of one program, with one input for all of them. */
  function Alone(w: World, s: State, proc: Proc, input: Input, fuel: nat): State
    decreases fuel
  {
    if fuel == 0 then s
    else
      var o := RunProc(w, s, proc, input);
      if o.next.None? then o.state else Alone(w, o.state, o.next.value, input, fuel - 1)
  }

  lemma AloneStep(w: World, s: State, proc: Proc, input: Input, fuel: nat)
    requires fuel > 0
    ensures var o := RunProc(w, s, proc, input);
      Alone(w, s, proc, input, fuel) == if o.next.None? then o.state else Alone(w, o.state, o.next.value, input, fuel - 1)
  {
    hide RunProc;
  }

  // ----- Packager -----

  /** The source the extension has now is the one the task was made for. */
  ghost predicate AsksForCurrent(w: World, s: State, task: JobTask) {
    s.fe.Some? && task.PackageTask? && w.sourceHash(s.fe.value.source) == task.sourceHash
  }

  /** `cm` is the artifact that the task asks for, with these bytes. */
  ghost predicate Delivers(w: World, cm: ConfigMap, task: JobTask, bytes: Bytes) {
    && task.PackageTask? && cm.name == task.configMapName && cm.package == Some(bytes)
    && ArtifactMetadata(w, cm, task.sourceHash, task.artifactKey).Some?
    && ArtifactMetadata(w, cm, task.sourceHash, task.artifactKey).value.digest == w.digest(bytes)
  }

  /** And is described as the package was built. */
  ghost predicate Describes(cm: ConfigMap, input: Input) {
    && cm.namespace == input.namespace && cm.metadata.Some?
    && cm.metadata.value.filename == input.filename && cm.metadata.value.mediaType == input.mediaType
    && cm.metadata.value.sizeBytes == input.sizeBytes && cm.metadata.value.generatedAt == input.time
  }

  /**
   Run alone, the packager stores the artifact of its task under the name in it,
   whether the ConfigMap was there or not, and touches nothing else.
   */
  lemma PackagerDelivers(w: World, s: State, task: JobTask, input: Input, fuel: nat)
    requires fuel >= 4 && AsksForCurrent(w, s, task)
    ensures var r := Alone(w, s, Packaging(task), input, fuel);
      && task.configMapName in r.configMaps && Delivers(w, r.configMaps[task.configMapName], task, input.bytes)
      && Describes(r.configMaps[task.configMapName], input)
      && r.configMaps[task.configMapName].uid == (if task.configMapName in s.configMaps then s.configMaps[task.configMapName].uid else Some(input.uid))
      && (forall name :: name != task.configMapName ==> (name in r.configMaps <==> name in s.configMaps)
                                                        && (name in s.configMaps ==> r.configMaps[name] == s.configMaps[name]))
      && r.fe == s.fe && r.jobs == s.jobs && r.packaged == s.packaged + {(input.bytes, task.sourceHash)}
  {
    hide Alone, BuiltConfigMap, RunProc, Delivers, Describes;
    var built := BuiltConfigMap(w, s.fe.value, task, input);
    var packaged := s.(packaged := s.packaged + {(input.bytes, task.sourceHash)});
    BuiltDelivers(w, s.fe.value, task, input, None, 0);
    AloneStep(w, s, Packaging(task), input, fuel);
    PackagerBuilds(w, s, task, input);
    AloneStep(w, packaged, Storing(built), input, fuel - 1);
    StoringRuns(w, packaged, built, input);
    if task.configMapName in s.configMaps {
      var version := s.configMaps[task.configMapName].resourceVersion;
      AloneStep(w, packaged, Conflicted(built), input, fuel - 2);
      AloneStep(w, packaged, Replacing(built, version), input, fuel - 3);
      ReplacingRuns(w, packaged, built, input);
      BuiltDelivers(w, s.fe.value, task, input, s.configMaps[task.configMapName].uid, s.version);
    } else {
      BuiltDelivers(w, s.fe.value, task, input, Some(input.uid), s.version);
    }
  }

  lemma StoringRuns(w: World, s: State, cm: ConfigMap, input: Input)
    ensures RunProc(w, s, Storing(cm), input)
            == if cm.name in s.configMaps then Outcome(s, Some(Conflicted(cm))) else Outcome(StoreConfigMap(s, cm, Some(input.uid)), None)
  {
  }

  lemma ReplacingRuns(w: World, s: State, cm: ConfigMap, input: Input)
    requires cm.name in s.configMaps
    ensures var there := s.configMaps[cm.name];
      && RunProc(w, s, Conflicted(cm), input) == Outcome(s, Some(Replacing(cm, there.resourceVersion)))
      && RunProc(w, s, Replacing(cm, there.resourceVersion), input) == Outcome(StoreConfigMap(s, cm, there.uid), None)
  {
  }

  lemma PackagerBuilds(w: World, s: State, task: JobTask, input: Input)
    requires AsksForCurrent(w, s, task)
    ensures RunProc(w, s, Packaging(task), input)
            == Outcome(s.(packaged := s.packaged + {(input.bytes, task.sourceHash)}), Some(Storing(BuiltConfigMap(w, s.fe.value, task, input))))
  {
    hide BuiltConfigMap;
  }

  lemma BuiltDelivers(w: World, fe: Fe, task: JobTask, input: Input, uid: Option<string>, version: nat)
    requires task.PackageTask? && w.sourceHash(fe.source) == task.sourceHash
    ensures Delivers(w, BuiltConfigMap(w, fe, task, input).(uid := uid, resourceVersion := version), task, input.bytes)
    ensures Describes(BuiltConfigMap(w, fe, task, input).(uid := uid, resourceVersion := version), input)
    ensures BuiltConfigMap(w, fe, task, input).name == task.configMapName
  {
    assert |ANNO_SOURCE_HASH| < |ANNO_ARTIFACT_KEY| < |ANNO_ARTIFACT_DIGEST|;
  }

  /** On any other source, or without the extension, it changes nothing. */
  lemma PackagerRefuses(w: World, s: State, task: JobTask, input: Input, fuel: nat)
    requires !AsksForCurrent(w, s, task)
    ensures Alone(w, s, Packaging(task), input, fuel) == s
  {
    hide BuiltConfigMap;
    if fuel > 0 { AloneStep(w, s, Packaging(task), input, fuel); }
  }

  // ----- Publisher -----

  /** The ConfigMap that the task names holds these bytes. */
  ghost predicate Holds(s: State, name: string, bytes: Bytes) {
    name in s.configMaps && s.configMaps[name].package == Some(bytes)
  }

  lemma LoadingRuns(w: World, s: State, task: JobTask, input: Input)
    requires task.PublishTask?
    ensures var o := RunProc(w, s, Loading(task), input);
      && o.state == s
      && (forall bytes :: o.next == Some(Loaded(task, bytes)) <==> Holds(s, task.configMapName, bytes))
      && (o.next.Some? ==> o.next.value.Loaded? && o.next.value.task == task)
  {
  }

  lemma LoadedRuns(w: World, s: State, task: JobTask, bytes: Bytes, input: Input)
    requires task.PublishTask?
    ensures RunProc(w, s, Loaded(task, bytes), input)
            == Outcome(if w.digest(bytes) == task.artifactDigest then s.(published := s.published + {(bytes, task)}) else s, None)
  {
  }

  /** Run alone, the publisher publishes what its task's ConfigMap holds exactly when it has the task's digest, and changes nothing else. */
  lemma PublisherDelivers(w: World, s: State, task: JobTask, input: Input, fuel: nat)
    requires fuel >= 2 && task.PublishTask?
    ensures var r := Alone(w, s, Loading(task), input, fuel);
      && r == s.(published := r.published)
      && (forall p :: p in r.published <==>
           p in s.published || (p.1 == task && Holds(s, task.configMapName, p.0) && w.digest(p.0) == task.artifactDigest))
  {
    hide Alone, RunProc;
    AloneStep(w, s, Loading(task), input, fuel);
    LoadingRuns(w, s, task, input);
    var o := RunProc(w, s, Loading(task), input);
    if o.next.Some? {
      var bytes := o.next.value.bytes;
      assert Holds(s, task.configMapName, bytes);
      AloneStep(w, s, Loaded(task, bytes), input, fuel - 1);
      LoadedRuns(w, s, task, bytes, input);
    }
  }

  // ----- Download -----

  /** The stored status is Ready for the source the extension has now, and offers artifact `a`. */
  ghost predicate Offers(w: World, fe: Fe, a: ArtifactStatus) {
    && fe.status.Some? && var st := fe.status.value;
    && st.phase == PhaseReady && st.download.Some? && st.download.value.ready && st.artifact == Some(a)
    && a.sourceHash == w.sourceHash(fe.source) && st.observedSourceHash == Some(w.sourceHash(fe.source))
  }

  lemma OfferedMeans(w: World, fe: Fe)
    ensures forall a :: ReadyArtifact(w, fe) == Some(a) <==> Offers(w, fe, a)
  {
  }

  /** These bytes are what the extension offers. */
  ghost predicate Serves(w: World, s: State, bytes: Bytes) {
    s.fe.Some? && exists a :: Offers(w, s.fe.value, a) && (a.key == "" || a.key == "package.tgz") && Holds(s, a.refName, bytes) && w.digest(bytes) == a.digest
  }

  lemma RequestedRuns(w: World, s: State, input: Input)
    ensures RunProc(w, s, Requested, input)
            == Outcome(s, if s.fe.None? || ReadyArtifact(w, s.fe.value).None? then None
                          else Some(Found(ReadyArtifact(w, s.fe.value).value, w.sourceHash(s.fe.value.source))))
  {
    hide ReadyArtifact;
  }

  lemma FoundRuns(w: World, s: State, a: ArtifactStatus, hash: string, input: Input)
    ensures var o := RunProc(w, s, Found(a, hash), input);
      && o.state == s
      && (forall bytes :: o.next == Some(Fetched(a, hash, bytes)) <==> (a.key == "" || a.key == "package.tgz") && Holds(s, a.refName, bytes))
      && (o.next.Some? ==> o.next.value.Fetched? && o.next.value.ready == a && o.next.value.sourceHash == hash)
  {
  }

  lemma FetchedRuns(w: World, s: State, a: ArtifactStatus, hash: string, bytes: Bytes, input: Input)
    ensures RunProc(w, s, Fetched(a, hash, bytes), input)
            == Outcome(if w.digest(bytes) == a.digest then s.(downloads := s.downloads + {(bytes, hash)}) else s, None)
  {
  }

  /** Run alone, a download hands out what the extension offers, exactly when the bytes have the offered digest, and changes nothing else. */
  lemma DownloadDelivers(w: World, s: State, input: Input, fuel: nat)
    requires fuel >= 3
    ensures var r := Alone(w, s, Requested, input, fuel);
      && r == s.(downloads := r.downloads)
      && (forall d :: d in r.downloads <==>
           d in s.downloads || (Serves(w, s, d.0) && d.1 == w.sourceHash(s.fe.value.source)))
  {
    hide Alone, RunProc, ReadyArtifact, Offers, Holds;
    AloneStep(w, s, Requested, input, fuel);
    RequestedRuns(w, s, input);
    if s.fe.Some? {
      OfferedMeans(w, s.fe.value);
      var ready, hash := ReadyArtifact(w, s.fe.value), w.sourceHash(s.fe.value.source);
      if ready.Some? {
        assert Offers(w, s.fe.value, ready.value);
        AloneStep(w, s, Found(ready.value, hash), input, fuel - 1);
        FoundRuns(w, s, ready.value, hash, input);
        var o := RunProc(w, s, Found(ready.value, hash), input);
        if o.next.Some? {
          var bytes := o.next.value.bytes;
          assert o.next == Some(Fetched(ready.value, hash, bytes));
          AloneStep(w, s, Fetched(ready.value, hash, bytes), input, fuel - 2);
          FetchedRuns(w, s, ready.value, hash, bytes, input);
          OneHeld(s, ready.value.refName, bytes);
        }
      }
    }
  }

  lemma OneHeld(s: State, name: string, bytes: Bytes)
    requires Holds(s, name, bytes)
    ensures forall other :: Holds(s, name, other) ==> other == bytes
  {
  }

  // ----- From the reconcile that starts packaging to the download -----

  function ClusterOf(s: State, clock: nat): Cluster {
    Cluster(s.fe, s.jobs, s.configMaps, clock)
  }

  lemma CreationWrites(w: World, c: Cluster, latest: Option<Attempt>)
    requires c.fe.Some? && !c.fe.value.deleting && FinalDecision(w, c, c.fe.value, latest).CreateAttempt?
    ensures var fe, next := c.fe.value, ReconcileSpec(w, c, c.fe.value, latest).0;
      var name := PackageJobName(w.feName, ArtifactKey(w, fe), FinalDecision(w, c, fe, latest).number);
      && next.fe.Some? && SameIdentity(fe, next.fe.value) && next.configMaps == c.configMaps
      && name in next.jobs && (name !in c.jobs ==> next.jobs[name].task == PackageTaskOf(w, fe))
  {
    hide FinalDecision, PackageJobName, PackageTaskOf, ArtifactKey, PackagingStatus, WriteStatusSpec, SyncAndReadySpec, FailedStatus;
    var fe := c.fe.value;
    var r := CreateOrGet(w, c, PackageJobName(w.feName, ArtifactKey(w, fe), FinalDecision(w, c, fe, latest).number), PackageTaskOf(w, fe));
    FeProgress.WriteLeavesJobs(w, r.0, PackagingStatus(w, fe, r.1, "Package job created"), Requeue);
    WriteKeepsIdentity(w, r.0, PackagingStatus(w, fe, r.1, "Package job created"), Requeue);
  }

  lemma WriteKeepsIdentity(w: World, c: Cluster, desired: FeStatus, action: ActionTaken)
    requires c.fe.Some?
    ensures var next := WriteStatusSpec(w, c, desired, action).0; next.fe.Some? && SameIdentity(c.fe.value, next.fe.value)
  {
    hide Observes, Patched;
    PatchedStatus(w, c.fe.value, desired);
  }

  /**
   A reconcile starts an attempt; the packager runs on that Job's task; then every
   further reconcile, whatever it lists, has the artifact with the packaged bytes.
   */
  lemma PackagedIsFound(w: World, c: Cluster, latest: Option<Attempt>, s: State, input: Input, later: Option<Attempt>, clock: nat)
    requires c.fe.Some? && !c.fe.value.deleting
    requires var d := FinalDecision(w, c, c.fe.value, latest);
      d.CreateAttempt? && PackageJobName(w.feName, ArtifactKey(w, c.fe.value), d.number) !in c.jobs
    requires ClusterOf(s, 0).(clock := 0) == ReconcileSpec(w, c, c.fe.value, latest).0.(clock := 0)
    ensures var name := PackageJobName(w.feName, ArtifactKey(w, c.fe.value), FinalDecision(w, c, c.fe.value, latest).number);
      && name in s.jobs
      && var r := Alone(w, s, Packaging(s.jobs[name].task), input, 4);
      && r.fe.Some?
      && var fe := r.fe.value; var d := FinalDecision(w, ClusterOf(r, clock), fe, later);
      && SameIdentity(c.fe.value, fe)
      && d.SyncAndReady? && d.metadata.digest == w.digest(input.bytes) && d.metadata.sourceHash == w.sourceHash(fe.source)
      && ArtifactName(w, fe) in r.configMaps && r.configMaps[ArtifactName(w, fe)].package == Some(input.bytes)
      && r.configMaps[ArtifactName(w, fe)].name == ArtifactName(w, fe)
  {
    hide FinalDecision, ReconcileSpec, PackageJobName, Alone, ArtifactName, ArtifactKey, Delivers;
    CreationWrites(w, c, latest);
    var before, fe := c.fe.value, s.fe.value;
    var task := PackageTaskOf(w, before);
    SameKey(w, before, fe);
    PackagerDelivers(w, s, task, input, 4);
    var r := Alone(w, s, Packaging(task), input, 4);
    CreatesOnlyIfValid(w, c, before, latest);
    DeliveredDecides(w, ClusterOf(r, clock), fe, task, input.bytes, later);
  }

  lemma CreatesOnlyIfValid(w: World, c: Cluster, fe: Fe, latest: Option<Attempt>)
    requires FinalDecision(w, c, fe, latest).CreateAttempt?
    ensures w.valid(fe.source)
  {
    hide DecideMissing, ArtifactIn, DecideAgain, ArtifactName;
  }

  lemma DeliveredDecides(w: World, c: Cluster, fe: Fe, task: JobTask, bytes: Bytes, latest: Option<Attempt>)
    requires w.valid(fe.source)
    requires task.PackageTask? && task.sourceHash == SourceHash(w, fe) && task.artifactKey == ArtifactKey(w, fe) && task.configMapName == ArtifactName(w, fe)
    requires task.configMapName in c.configMaps && Delivers(w, c.configMaps[task.configMapName], task, bytes)
    ensures var d := FinalDecision(w, c, fe, latest);
      && d.SyncAndReady? && d.metadata.digest == w.digest(bytes) && d.metadata.sourceHash == w.sourceHash(fe.source)
    ensures c.configMaps[ArtifactName(w, fe)].package == Some(bytes) && c.configMaps[ArtifactName(w, fe)].name == ArtifactName(w, fe)
  {
    hide DecideMissing, DecideAgain, ArtifactName, ArtifactKey, PackageJobOf;
  }

  // ----- Ready, and then downloads -----

  lemma ReadyWrites(w: World, c: Cluster, fe: Fe, cm: ConfigMap, artifact: PackageMetadata, packageJob: Option<PackageJobStatus>)
    requires c.fe == Some(fe)
    ensures var next := SyncAndReadySpec(w, c, fe, cm, artifact, packageJob).0;
      && next.configMaps == c.configMaps
      && (next.fe.Some? ==> exists p, u :: next.fe == Some(Patched(w, fe, ReadyDesired(w, fe, cm, artifact, packageJob, p, u))))
  {
    hide ReadyDesired, Patched, Observes, ShouldDelete, SyncPublishSpec, SyncUnpublishSpec, InFlight, ResolvePublish, ResolveUnpublish;
    var p := SyncPublishSpec(w, c, fe, artifact, cm);
    var u := SyncUnpublishSpec(w, p.0, fe);
    SyncsKeepRest(w, c, fe, artifact, cm);
    SyncsKeepRest(w, p.0, fe, artifact, cm);
    ReadyIsObserved(w, fe, cm, artifact, packageJob, p.1, u.1);
  }

  /** Syncing changes only Jobs, and keeps those there are. */
  lemma SyncsKeepRest(w: World, c: Cluster, fe: Fe, artifact: PackageMetadata, cm: ConfigMap)
    ensures var p := SyncPublishSpec(w, c, fe, artifact, cm).0;
      p.fe == c.fe && p.configMaps == c.configMaps && forall name :: name in c.jobs ==> name in p.jobs && p.jobs[name] == c.jobs[name]
    ensures var u := SyncUnpublishSpec(w, c, fe).0;
      u.fe == c.fe && u.configMaps == c.configMaps && forall name :: name in c.jobs ==> name in u.jobs && u.jobs[name] == c.jobs[name]
  {
    hide ResolvePublish, ResolveUnpublish, PublishAlreadyFinished, UnpublishAlreadyFinished;
    hide PublishStatusOf, UnpublishStatusOf, PublishTaskOf, UnpublishTaskOf, PublishName, UnpublishName, RetainedPublish, ArtifactKey;
  }

  /** Once a reconcile has written Ready, downloads get the bytes of the ConfigMap it read. */
  lemma ReadyIsServed(w: World, c: Cluster, latest: Option<Attempt>, bytes: Bytes, s: State)
    requires c.fe.Some? && !c.fe.value.deleting && FinalDecision(w, c, c.fe.value, latest).SyncAndReady?
    requires var name := ArtifactName(w, c.fe.value); c.configMaps[name].name == name && c.configMaps[name].package == Some(bytes)
    requires ClusterOf(s, 0).(clock := 0) == ReconcileSpec(w, c, c.fe.value, latest).0.(clock := 0) && s.fe.Some?
    ensures Serves(w, s, bytes) && s.fe.value.source == c.fe.value.source
  {
    hide FinalDecision, SyncAndReadySpec, ArtifactName, Patched, ReadyDesired, MergeStatus;
    var fe, d := c.fe.value, FinalDecision(w, c, c.fe.value, latest);
    var cm := c.configMaps[ArtifactName(w, fe)];
    ReadyWrites(w, c, fe, cm, d.metadata, d.packageJob);
    var p, u :| s.fe == Some(Patched(w, fe, ReadyDesired(w, fe, cm, d.metadata, d.packageJob, p, u)));
    var st := ReadyDesired(w, fe, cm, d.metadata, d.packageJob, p, u);
    PatchedStatus(w, fe, st);
    SyncReadsArtifact(w, c, fe, latest);
    FeMeaning.ReadySays(w, fe, cm, d.metadata, d.packageJob, p, u);
    ReadyIsObserved(w, fe, cm, d.metadata, d.packageJob, p, u);
    FeMeaning.ReadyConditions(w, fe, cm, d.metadata, d.packageJob, p, u);
    MergedOffers(w, fe, st);
    assert Holds(s, cm.name, bytes);
  }

  lemma SyncReadsArtifact(w: World, c: Cluster, fe: Fe, latest: Option<Attempt>)
    requires FinalDecision(w, c, fe, latest).SyncAndReady?
    ensures ConfigMapAt(c, ArtifactName(w, fe)).Some?
    ensures var cm := ConfigMapAt(c, ArtifactName(w, fe)).value; var m := FinalDecision(w, c, fe, latest).metadata;
      m.sourceHash == w.sourceHash(fe.source) && cm.package.Some? && w.digest(cm.package.value) == m.digest
  {
    hide NextAttempt, ArtifactName, ArtifactKey, PackageJobOf, HashLabelValue, JobMessage, ObservedPhase;
    SyncReads(w, fe, latest, ConfigMapAt(c, ArtifactName(w, fe)));
  }

  lemma SyncReads(w: World, fe: Fe, latest: Option<Attempt>, cm: Option<ConfigMap>)
    requires DecideTwice(w, fe, latest, cm, cm).SyncAndReady?
    ensures ArtifactIn(w, fe, cm) == Some(DecideTwice(w, fe, latest, cm, cm).metadata)
  {
    hide DecideMissing, ArtifactIn, PackageJobOf, HashLabelValue, ArtifactKey, JobMessage;
  }

  /** What merging a Ready status leaves to offer. */
  lemma MergedOffers(w: World, fe: Fe, st: FeStatus)
    requires st.phase == PhaseReady && st.artifact.Some? && st.download.Some? && Observes(w, fe, st)
    ensures var m := MergeStatus(fe.status, st);
      && m.phase == PhaseReady && m.download == st.download && m.artifact.Some? && m.observedSourceHash == Some(w.sourceHash(fe.source))
      && m.artifact.value.refName == st.artifact.value.refName && m.artifact.value.key == st.artifact.value.key
      && m.artifact.value.digest == st.artifact.value.digest && m.artifact.value.sourceHash == st.artifact.value.sourceHash
  {
    hide MergePublish, MergeUnpublish, MergePackageJob, RebuildToken, ArtifactKey;
  }

  // ----- From an API request to its publication -----

  /**
   A current request of the API, not yet recorded, is published: the reconcile
   starts a Job for it, and that Job's publisher publishes the bytes of the
   artifact for its id, to its target.
   */
  lemma RequestIsPublished(
    w: World, c: Cluster, latest: Option<Attempt>, r: FeApi.ResolvedPublish, bytes: Bytes, s: State, input: Input)
    requires c.fe.Some? && !c.fe.value.deleting && FinalDecision(w, c, c.fe.value, latest).SyncAndReady?
    requires var fe, artifact := c.fe.value, FinalDecision(w, c, c.fe.value, latest).metadata;
      && FeApi.WellFormed(r) && FeApi.Carries(fe, r) && fe.generation == r.generation && artifact.sourceHash == r.sourceHash
      && (r.artifactDigest.Some? ==> artifact.digest == r.artifactDigest.value)
      && ConfigMapAt(c, ArtifactName(w, fe)).value.name == ArtifactName(w, fe) && ConfigMapAt(c, ArtifactName(w, fe)).value.package == Some(bytes)
      && StartsPublish(w, c.jobs, fe, artifact)
    requires s.jobs == ReconcileSpec(w, c, c.fe.value, latest).0.jobs && s.configMaps == c.configMaps
    ensures PublishName(w, r.requestId) in s.jobs
    ensures var task := s.jobs[PublishName(w, r.requestId)].task;
      && task.PublishTask? && task.requestId == r.requestId && task.target == r.target
      && (bytes, task) in Alone(w, s, Loading(task), input, 2).published
  {
    hide FinalDecision, ArtifactName, FeApi.Carries, FeApi.WellFormed, ResolvePublish, PublishName, SyncAndReadySpec, Alone, AsksToPublish, StartsPublish;
    var fe, artifact, cm := c.fe.value, FinalDecision(w, c, c.fe.value, latest).metadata, ConfigMapAt(c, ArtifactName(w, c.fe.value)).value;
    FeApi.RequestIsHonouredExactly(fe, r, artifact);
    SyncReadsArtifact(w, c, fe, latest);
    StartedJobStays(w, c, fe, cm, artifact, FinalDecision(w, c, fe, latest).packageJob);
    TasksAsk(w, fe, artifact, cm);
    var task := s.jobs[PublishName(w, r.requestId)].task;
    FeApi.StartedIsTheRequest(fe, r, artifact, cm, task);
    PublisherDelivers(w, s, task, input, 2);
    assert Holds(s, task.configMapName, bytes);
    assert ((bytes, task).0, (bytes, task).1) == (bytes, task);
  }

  /** The publish Job that a reconcile starts is there when it ends. */
  lemma StartedJobStays(w: World, c: Cluster, fe: Fe, cm: ConfigMap, artifact: PackageMetadata, packageJob: Option<PackageJobStatus>)
    requires StartsPublish(w, c.jobs, fe, artifact)
    ensures var request, next := ResolvePublish(fe, artifact).request, SyncAndReadySpec(w, c, fe, cm, artifact, packageJob).0;
      PublishName(w, request.requestId) in next.jobs && next.jobs[PublishName(w, request.requestId)].task == PublishTaskOf(fe, request, cm)
  {
    hide ReadyDesired, ShouldDelete, SyncUnpublishSpec, InFlight, WriteStatusSpec, ResolvePublish, ResolveUnpublish;
    hide PublishAlreadyFinished, PublishStatusOf, PublishTaskOf, PublishName, RetainedPublish, ArtifactKey;
    var p := SyncPublishSpec(w, c, fe, artifact, cm);
    var u := SyncUnpublishSpec(w, p.0, fe);
    SyncsKeepRest(w, p.0, fe, artifact, cm);
    FeProgress.WriteLeavesJobs(w, u.0, ReadyDesired(w, fe, cm, artifact, packageJob, p.1, u.1), AwaitChange);
  }
}
