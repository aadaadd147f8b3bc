/**
 The step-by-step reconcile of `FeProtocol`, run with nobody else moving, does what
 `FeReconcile.ReconcileSpec` says. What is proved about undisturbed reconciles and
 what is proved about interleaved ones is about the same program.
 */
module FeSolo {
  import opened Prelude
  import opened Names
  import opened FeTypes
  import opened FeStatusRules
  import opened FeReconcile
  import opened FeProtocol

  function SoloInput(w: World, clock: nat, latest: Option<Attempt>): Input {
    Input(latest, w.uidAt(clock), clock, [], "", "", 0, "")
  }

  /** Up to `fuel` steps of one program; the clock ticks when a Job is created. */
  function Solo(w: World, s: State, proc: Proc, clock: nat, latest: Option<Attempt>, fuel: nat): State
    decreases fuel
  {
    if fuel == 0 then s
    else
      var o := RunProc(w, s, proc, SoloInput(w, clock, latest));
      if o.next.None? then o.state
      else Solo(w, o.state, o.next.value, if o.state.jobs == s.jobs then clock else clock + 1, latest, fuel - 1)
  }

  function ClusterOf(s: State, clock: nat): Cluster {
    Cluster(s.fe, s.jobs, s.configMaps, clock)
  }

  /** The two descriptions agree on the extension and its Jobs. */
  ghost predicate Agree(s: State, c: Cluster) {
    s.fe == c.fe && s.jobs == c.jobs && s.configMaps == c.configMaps
  }

  lemma SoloStep(w: World, s: State, proc: Proc, clock: nat, latest: Option<Attempt>, fuel: nat)
    requires fuel > 0
    ensures var o := RunProc(w, s, proc, SoloInput(w, clock, latest));
      Solo(w, s, proc, clock, latest, fuel)
      == if o.next.None? then o.state
         else Solo(w, o.state, o.next.value, if o.state.jobs == s.jobs then clock else clock + 1, latest, fuel - 1)
  {
    hide RunProc;
  }

  // ----- Writing -----

  lemma SoloDeleting(w: World, s: State, clock: nat, latest: Option<Attempt>, fuel: nat)
    requires fuel >= 1
    ensures Solo(w, s, Deleting, clock, latest, fuel) == s.(fe := None)
  {
    SoloStep(w, s, Deleting, clock, latest, fuel);
  }

  /** After the patch: done, or one deletion away. */
  function AfterWrite(s: State, delete: bool): State {
    if delete then s.(fe := None) else s
  }

  lemma SoloLabelling(w: World, s: State, status: FeStatus, delete: bool, clock: nat, latest: Option<Attempt>, fuel: nat)
    requires fuel >= 2 && s.fe.Some?
    ensures Solo(w, s, Labelling(status, delete), clock, latest, fuel)
            == AfterWrite(WithFe(s, s.fe.value.(labels := PatchLabels(s.fe.value.labels, status))), delete)
  {
    hide PatchLabels;
    SoloStep(w, s, Labelling(status, delete), clock, latest, fuel);
    if delete { SoloDeleting(w, WithFe(s, s.fe.value.(labels := PatchLabels(s.fe.value.labels, status))), clock, latest, fuel - 1); }
  }

  lemma SoloRereading(w: World, s: State, delete: bool, clock: nat, latest: Option<Attempt>, fuel: nat)
    requires fuel >= 3 && s.fe.Some?
    ensures Solo(w, s, Rereading(delete), clock, latest, fuel)
            == AfterWrite(if LabelsDue(w, s.fe.value) then WithFe(s, s.fe.value.(labels := PatchLabels(s.fe.value.labels, s.fe.value.status.value))) else s, delete)
  {
    hide PatchLabels, LabelsNeedPatch, Observes;
    SoloStep(w, s, Rereading(delete), clock, latest, fuel);
    if LabelsDue(w, s.fe.value) { SoloLabelling(w, s, s.fe.value.status.value, delete, clock, latest, fuel - 1); }
    else if delete { SoloDeleting(w, s, clock, latest, fuel - 1); }
  }

  lemma SoloPatching(w: World, s: State, status: FeStatus, delete: bool, clock: nat, latest: Option<Attempt>, fuel: nat)
    requires fuel >= 4 && s.fe.Some? && s.fe.value.status != Some(status)
    ensures var r, next := Solo(w, s, Patching(status, delete), clock, latest, fuel), Patched(w, s.fe.value, status);
      r.fe == (if delete then None else Some(next)) && r.jobs == s.jobs && r.configMaps == s.configMaps
  {
    hide Solo, PatchLabels, LabelsNeedPatch, Observes, MergeStatus;
    var merged := WithFe(s, s.fe.value.(status := Some(MergeStatus(s.fe.value.status, status))));
    SoloStep(w, s, Patching(status, delete), clock, latest, fuel);
    SoloRereading(w, merged, delete, clock, latest, fuel - 1);
  }

  /** patch_fe_status and the deletion after it. */
  lemma SoloWriting(w: World, s: State, status: FeStatus, delete: bool, clock: nat, latest: Option<Attempt>, fuel: nat)
    requires fuel >= 5
    ensures var r, patched := Solo(w, s, Guarding(status, delete), clock, latest, fuel), PatchFe(w, ClusterOf(s, clock), status);
      if patched.None? then r == s
      else Agree(r, if delete then patched.value.(fe := None) else patched.value)
  {
    hide Solo, PatchLabels, LabelsNeedPatch, Observes, MergeStatus;
    hide RunDeciding, RunSyncing, RunPackager, RunPublisher, RunDownload;
    SoloStep(w, s, Guarding(status, delete), clock, latest, fuel);
    if s.fe.Some? {
      var fe := s.fe.value;
      if !Observes(w, fe, status) {
        if delete { SoloDeleting(w, s, clock, latest, fuel - 1); }
      } else if fe.status != Some(status) {
        SoloPatching(w, s, status, delete, clock, latest, fuel - 1);
      } else if LabelsDue(w, fe) {
        SoloLabelling(w, s, status, delete, clock, latest, fuel - 1);
      } else if delete {
        SoloDeleting(w, s, clock, latest, fuel - 1);
      }
    }
  }

  // ----- Syncing -----

  /** What WriteStatusSpec, ShouldDelete and the deletion leave. */
  function Finish(w: World, c: Cluster, status: FeStatus, delete: bool): Cluster {
    var patched := PatchFe(w, c, status);
    if patched.None? then c else if delete then patched.value.(fe := None) else patched.value
  }

  lemma SoloFinish(w: World, s: State, status: FeStatus, delete: bool, clock: nat, latest: Option<Attempt>, fuel: nat)
    requires fuel >= 5
    ensures Agree(Solo(w, s, Guarding(status, delete), clock, latest, fuel), Finish(w, ClusterOf(s, clock), status, delete))
  {
    hide PatchFe, Solo;
    SoloWriting(w, s, status, delete, clock, latest, fuel);
  }

  lemma SoloUnpublishing(w: World, s: State, fe: Fe, status: FeStatus, clock: nat, latest: Option<Attempt>, fuel: nat)
    requires fuel >= 7
    ensures var u := SyncUnpublishSpec(w, ClusterOf(s, clock), fe);
      Agree(Solo(w, s, Unpublishing(fe, status), clock, latest, fuel), Finish(w, u.0, ApplyUnpublishSync(status, u.1), ShouldDelete(fe, u.1)))
  {
    hide Solo, Finish, Agree, ApplyUnpublishSync, ShouldDelete, ResolveUnpublish, UnpublishName, UnpublishStatusOf, UnpublishAlreadyFinished, UnpublishTaskOf, StoredUnpublish;
    hide RunDeciding, RunWriting, RunPackager, RunPublisher, RunDownload, RunPublishing;
    SoloStep(w, s, Unpublishing(fe, status), clock, latest, fuel);
    var c, u := ClusterOf(s, clock), SyncUnpublishSpec(w, ClusterOf(s, clock), fe);
    match ResolveUnpublish(w, fe)
    case NoUnpublish => SoloFinish(w, s, ApplyUnpublishSync(status, u.1), ShouldDelete(fe, u.1), clock, latest, fuel - 1);
    case RejectedUnpublish(_) => SoloFinish(w, s, ApplyUnpublishSync(status, u.1), ShouldDelete(fe, u.1), clock, latest, fuel - 1);
    case AcceptedUnpublish(request) =>
      var name := UnpublishName(w, request.requestId);
      if name in s.jobs || UnpublishAlreadyFinished(fe, request) {
        SoloFinish(w, s, ApplyUnpublishSync(status, u.1), ShouldDelete(fe, u.1), clock, latest, fuel - 1);
      } else {
        var next := WithJob(w, s, name, UnpublishTaskOf(request), SoloInput(w, clock, latest));
        SoloStep(w, s, CreatingUnpublish(fe, status, request), clock, latest, fuel - 1);
        assert next.jobs != s.jobs by { assert name in next.jobs; }
        SoloFinish(w, next, ApplyUnpublishSync(status, u.1), ShouldDelete(fe, u.1), clock + 1, latest, fuel - 2);
      }
  }

  /** What SyncAndReadySpec leaves. */
  function ReadyCluster(w: World, c: Cluster, fe: Fe, cm: ConfigMap, artifact: PackageMetadata, packageJob: Option<PackageJobStatus>): Cluster {
    var p := SyncPublishSpec(w, c, fe, artifact, cm);
    var u := SyncUnpublishSpec(w, p.0, fe);
    Finish(w, u.0, ReadyDesired(w, fe, cm, artifact, packageJob, p.1, u.1), ShouldDelete(fe, u.1))
  }

  lemma ReadyClusterIsSpec(w: World, c: Cluster, fe: Fe, cm: ConfigMap, artifact: PackageMetadata, packageJob: Option<PackageJobStatus>)
    ensures SyncAndReadySpec(w, c, fe, cm, artifact, packageJob).0 == ReadyCluster(w, c, fe, cm, artifact, packageJob)
  {
    hide SyncPublishSpec, SyncUnpublishSpec, ReadyDesired, PatchFe, ShouldDelete, InFlight, ResolvePublish, ResolveUnpublish;
  }

  /** From a synced publish status on. */
  lemma SoloAfterPublish(
    w: World, s: State, fe: Fe, packageJob: Option<PackageJobStatus>, cm: ConfigMap, artifact: PackageMetadata, publish: Option<PublishStatus>,
    clock: nat, latest: Option<Attempt>, fuel: nat)
    requires fuel >= 7
    ensures var u := SyncUnpublishSpec(w, ClusterOf(s, clock), fe);
      Agree(
        Solo(w, s, AfterPublish(w, fe, packageJob, cm, artifact, publish), clock, latest, fuel),
        Finish(w, u.0, ReadyDesired(w, fe, cm, artifact, packageJob, publish, u.1), ShouldDelete(fe, u.1)))
  {
    hide Solo, Finish, Agree, ReadyStatus, ApplyPublishSync, ApplyUnpublishSync, ShouldDelete, SyncUnpublishSpec;
    SoloUnpublishing(w, s, fe, ApplyPublishSync(ReadyStatus(w, fe, cm, artifact, packageJob), publish), clock, latest, fuel);
  }

  /** From the creation of a publish Job on. */
  lemma SoloCreatingPublish(
    w: World, s: State, fe: Fe, packageJob: Option<PackageJobStatus>, cm: ConfigMap, artifact: PackageMetadata, request: PublishRequest,
    clock: nat, latest: Option<Attempt>, fuel: nat)
    requires fuel >= 8 && PublishName(w, request.requestId) !in s.jobs
    ensures var r := CreateOrGet(w, ClusterOf(s, clock), PublishName(w, request.requestId), PublishTaskOf(fe, request, cm));
      var u := SyncUnpublishSpec(w, r.0, fe);
      Agree(
        Solo(w, s, CreatingPublish(fe, packageJob, cm, artifact, request), clock, latest, fuel),
        Finish(w, u.0, ReadyDesired(w, fe, cm, artifact, packageJob, Some(PublishStatusOf(request, r.1)), u.1), ShouldDelete(fe, u.1)))
  {
    hide Solo, Finish, Agree, AfterPublish, ReadyDesired, ShouldDelete, SyncUnpublishSpec, PublishName, PublishStatusOf, PublishTaskOf;
    var name := PublishName(w, request.requestId);
    var next := WithJob(w, s, name, PublishTaskOf(fe, request, cm), SoloInput(w, clock, latest));
    SoloStep(w, s, CreatingPublish(fe, packageJob, cm, artifact, request), clock, latest, fuel);
    assert next.jobs != s.jobs by { assert name in next.jobs; }
    SoloAfterPublish(w, next, fe, packageJob, cm, artifact, Some(PublishStatusOf(request, next.jobs[name])), clock + 1, latest, fuel - 1);
  }

  lemma SoloPublishing(
    w: World, s: State, fe: Fe, packageJob: Option<PackageJobStatus>, cm: ConfigMap, artifact: PackageMetadata,
    clock: nat, latest: Option<Attempt>, fuel: nat)
    requires fuel >= 9
    ensures Agree(
      Solo(w, s, Publishing(fe, packageJob, cm, artifact), clock, latest, fuel),
      SyncAndReadySpec(w, ClusterOf(s, clock), fe, cm, artifact, packageJob).0)
  {
    hide Solo, Finish, Agree, AfterPublish, ReadyDesired, ShouldDelete, SyncUnpublishSpec, SyncAndReadySpec, ResolvePublish, PublishName;
    hide PublishStatusOf, PublishAlreadyFinished, PublishTaskOf, RetainedPublish, StoredPublish, ArtifactKey;
    ReadyClusterIsSpec(w, ClusterOf(s, clock), fe, cm, artifact, packageJob);
    SoloStep(w, s, Publishing(fe, packageJob, cm, artifact), clock, latest, fuel);
    var p := SyncPublishSpec(w, ClusterOf(s, clock), fe, artifact, cm);
    match ResolvePublish(fe, artifact)
    case Accepted(request) =>
      var name := PublishName(w, request.requestId);
      if name in s.jobs || PublishAlreadyFinished(fe, request, ArtifactKey(w, fe)) {
        SoloAfterPublish(w, s, fe, packageJob, cm, artifact, p.1, clock, latest, fuel - 1);
      } else {
        SoloCreatingPublish(w, s, fe, packageJob, cm, artifact, request, clock, latest, fuel - 1);
      }
    case _ => SoloAfterPublish(w, s, fe, packageJob, cm, artifact, p.1, clock, latest, fuel - 1);
  }

  // ----- Deciding -----

  lemma SoloActing(w: World, s: State, fe: Fe, decision: Decision, cm: Option<ConfigMap>, clock: nat, latest: Option<Attempt>, fuel: nat)
    requires fuel >= 9 && (decision.SyncAndReady? ==> cm.Some?) && !decision.CheckAgain?
    ensures Agree(
      Solo(w, s, AfterDecision(w, fe, latest, decision, cm), clock, latest, fuel),
      ActSpec(w, ClusterOf(s, clock), fe, decision, cm).0)
  {
    hide Solo, PatchFe, Agree, PackagingStatus, FailedStatus, SyncAndReadySpec, PackageJobName, PackageTaskOf, ArtifactKey;
    match decision
    case WriteInvalid => SoloFinish(w, s, FailedStatus(w, fe, None, "InvalidSource", w.invalidMessage(fe.source)), false, clock, latest, fuel);
    case SyncAndReady(artifact, packageJob) => SoloPublishing(w, s, fe, packageJob, cm.value, artifact, clock, latest, fuel);
    case WriteInProgress(job) => SoloFinish(w, s, PackagingStatus(w, fe, job, "Package job in progress"), false, clock, latest, fuel);
    case WriteExceeded(job, message) => SoloFinish(w, s, FailedStatus(w, fe, job, "PackageAttemptsExceeded", message), false, clock, latest, fuel);
    case CreateAttempt(number) => SoloCreating(w, s, fe, number, clock, latest, fuel);
  }

  lemma SoloCreating(w: World, s: State, fe: Fe, number: nat, clock: nat, latest: Option<Attempt>, fuel: nat)
    requires fuel >= 7
    ensures Agree(
      Solo(w, s, CreatingPackage(fe, latest, number), clock, latest, fuel),
      ActSpec(w, ClusterOf(s, clock), fe, CreateAttempt(number), None).0)
  {
    hide Solo, PatchFe, Agree, PackagingStatus, PackageJobName, PackageTaskOf, ArtifactKey;
    hide RunSyncing, RunWriting, RunPackager, RunPublisher, RunDownload;
    var name := PackageJobName(w.feName, ArtifactKey(w, fe), number);
    SoloStep(w, s, CreatingPackage(fe, latest, number), clock, latest, fuel);
    if name in s.jobs {
      SoloStep(w, s, FetchingPackage(fe, name), clock, latest, fuel - 1);
      SoloFinish(w, s, PackagingStatus(w, fe, s.jobs[name], "Package job created"), false, clock, latest, fuel - 2);
    } else {
      var next := WithJob(w, s, name, PackageTaskOf(w, fe), SoloInput(w, clock, latest));
      assert next.jobs != s.jobs by { assert name in next.jobs; }
      SoloFinish(w, next, PackagingStatus(w, fe, next.jobs[name], "Package job created"), false, clock + 1, latest, fuel - 1);
    }
  }

  /** The main result: a reconcile that runs alone does what the specification says. */
  lemma UndisturbedReconcile(w: World, s: State, fe: Fe, clock: nat, latest: Option<Attempt>, fuel: nat)
    requires fuel >= 12
    ensures Agree(Solo(w, s, Starting(fe), clock, latest, fuel), ReconcileSpec(w, ClusterOf(s, clock), fe, latest).0)
  {
    hide Solo, Decide, DecideAgain, ActSpec, AfterDecision, ArtifactName;
    hide RunSyncing, RunWriting, RunPackager, RunPublisher, RunDownload;
    SoloStep(w, s, Starting(fe), clock, latest, fuel);
    if !fe.deleting {
      var cm := ConfigMapIn(s, ArtifactName(w, fe));
      var first := Decide(w, fe, latest, cm);
      SoloStep(w, s, Listed(fe, latest), clock, latest, fuel - 1);
      if first.CheckAgain? {
        CheckAgainGoesOn(w, fe, latest, first.attempt, cm);
        SoloStep(w, s, Rechecking(fe, latest, first.attempt), clock, latest, fuel - 2);
        SoloActing(w, s, fe, DecideAgain(w, fe, first.attempt, cm), cm, clock, latest, fuel - 3);
      } else {
        SoloActing(w, s, fe, first, cm, clock, latest, fuel - 2);
      }
    }
  }

  lemma CheckAgainGoesOn(w: World, fe: Fe, latest: Option<Attempt>, attempt: Attempt, cm: Option<ConfigMap>)
    ensures AfterDecision(w, fe, latest, CheckAgain(attempt), cm) == Rechecking(fe, latest, attempt)
  {
  }
}
