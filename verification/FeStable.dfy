/**
 What repeated reconciles of one extension converge to, and what they no longer
 do once publish and unpublish have finished.
 */
module FeStable {
  import opened Prelude
  import opened Names
  import opened Sequences
  import opened FeTypes
  import opened FeStatusRules
  import opened FeReconcile

  // ----- Merging a status twice -----

  lemma MergePublishTwice(s: Option<PublishStatus>, d: PublishStatus)
    ensures MergePublish(Some(MergePublish(s, d)), d) == MergePublish(s, d)
    ensures MergePublish(Some(d), d) == d
  {
  }

  lemma MergeUnpublishTwice(s: Option<UnpublishStatus>, d: UnpublishStatus)
    ensures MergeUnpublish(Some(MergeUnpublish(s, d)), d) == MergeUnpublish(s, d)
    ensures MergeUnpublish(Some(d), d) == d
  {
  }

  lemma MergePackageJobTwice(s: Option<PackageJobStatus>, d: PackageJobStatus)
    ensures MergePackageJob(Some(MergePackageJob(s, d)), d) == MergePackageJob(s, d)
    ensures MergePackageJob(Some(d), d) == d
  {
  }

  lemma MergeArtifactTwice(s: Option<ArtifactStatus>, d: ArtifactStatus)
    ensures MergeArtifact(Some(MergeArtifact(s, d)), d) == MergeArtifact(s, d)
    ensures MergeArtifact(Some(d), d) == d
  {
  }

  /** Applying one status patch twice is applying it once. */
  lemma MergeTwice(s: Option<FeStatus>, d: FeStatus)
    ensures MergeStatus(Some(MergeStatus(s, d)), d) == MergeStatus(s, d)
    ensures MergeStatus(Some(d), d) == d
  {
    hide MergePublish, MergeUnpublish, MergePackageJob, MergeArtifact;
    var st: Option<FeStatus> := s;
    if d.publish.Some? { MergePublishTwice(if st.Some? then st.value.publish else None, d.publish.value); }
    if d.unpublish.Some? { MergeUnpublishTwice(if st.Some? then st.value.unpublish else None, d.unpublish.value); }
    if d.packageJob.Some? { MergePackageJobTwice(if st.Some? then st.value.packageJob else None, d.packageJob.value); }
    if d.artifact.Some? { MergeArtifactTwice(if st.Some? then st.value.artifact else None, d.artifact.value); }
  }

  // ----- One reconcile of the stored object, when it creates no Job -----

  /** The same object up to what the controller writes: status and labels. */
  ghost predicate SameIdentity(fe: Fe, next: Fe) {
    next == fe.(status := next.status, labels := next.labels)
  }

  function StoredPackageJob(fe: Fe): Option<PackageJobStatus> {
    if fe.status.Some? then fe.status.value.packageJob else None
  }

  /** The status written for `fe`, with the Jobs it finds or creates. */
  function DesiredFor(w: World, c: Cluster, fe: Fe, decision: Decision, cm: Option<ConfigMap>): FeStatus
    requires (decision.SyncAndReady? ==> cm.Some?) && !decision.CheckAgain?
  {
    match decision
    case WriteInvalid => FailedStatus(w, fe, None, "InvalidSource", w.invalidMessage(fe.source))
    case SyncAndReady(artifact, packageJob) =>
      var p := SyncPublishSpec(w, c, fe, artifact, cm.value);
      ReadyDesired(w, fe, cm.value, artifact, packageJob, p.1, SyncUnpublishSpec(w, p.0, fe).1)
    case WriteInProgress(job) => PackagingStatus(w, fe, job, "Package job in progress")
    case WriteExceeded(job, message) => FailedStatus(w, fe, job, "PackageAttemptsExceeded", message)
    case CreateAttempt(number) =>
      PackagingStatus(w, fe, CreateOrGet(w, c, PackageJobName(w.feName, ArtifactKey(w, fe), number), PackageTaskOf(w, fe)).1, "Package job created")
  }

  function Desired(w: World, c: Cluster, fe: Fe, latest: Option<Attempt>): FeStatus {
    DesiredFor(w, c, fe, FinalDecision(w, c, fe, latest), ConfigMapAt(c, ArtifactName(w, fe)))
  }

  /** Acting on the decision creates no Job: those it needs exist, or have finished before. */
  predicate CreatesNothing(w: World, c: Cluster, fe: Fe, decision: Decision) {
    match decision
    case SyncAndReady(artifact, _) => PublishSettled(w, c, fe, artifact) && UnpublishSettled(w, c, fe)
    case CreateAttempt(number) => PackageJobName(w.feName, ArtifactKey(w, fe), number) in c.jobs
    case _ => true
  }

  predicate PublishSettled(w: World, c: Cluster, fe: Fe, artifact: PackageMetadata) {
    !StartsPublish(w, c.jobs, fe, artifact)
  }

  predicate UnpublishSettled(w: World, c: Cluster, fe: Fe) {
    !StartsUnpublish(w, c.jobs, fe)
  }

  lemma ReadyIsObserved(
    w: World, fe: Fe, cm: ConfigMap, artifact: PackageMetadata, packageJob: Option<PackageJobStatus>,
    publish: Option<PublishStatus>, unpublish: Option<UnpublishStatus>)
    ensures Observes(w, fe, ReadyDesired(w, fe, cm, artifact, packageJob, publish, unpublish))
  {
    hide SourceHash, ArtifactKey, RebuildToken, UnpublishedAfter;
  }

  lemma NotReadyIsObserved(w: World, fe: Fe, job: Job, failed: Option<Job>, reason: string, message: string)
    ensures Observes(w, fe, PackagingStatus(w, fe, job, message))
    ensures Observes(w, fe, FailedStatus(w, fe, failed, reason, message))
  {
    hide SourceHash, ArtifactKey, RebuildToken, NotReadyPublish, PackageJobOf;
  }

  lemma DesiredIsObserved(w: World, c: Cluster, fe: Fe, decision: Decision, cm: Option<ConfigMap>)
    requires (decision.SyncAndReady? ==> cm.Some?) && !decision.CheckAgain?
    ensures Observes(w, fe, DesiredFor(w, c, fe, decision, cm))
  {
    hide Observes, PackagingStatus, FailedStatus, ReadyDesired, SyncPublishSpec, SyncUnpublishSpec, PackageJobName, PackageTaskOf, CreateOrGet;
    match decision
    case WriteInvalid =>
      NotReadyIsObserved(w, fe, NewJob(w, "", "", 0, PackageTaskOf(w, fe)), None, "InvalidSource", w.invalidMessage(fe.source));
    case SyncAndReady(artifact, packageJob) =>
      var p := SyncPublishSpec(w, c, fe, artifact, cm.value);
      ReadyIsObserved(w, fe, cm.value, artifact, packageJob, p.1, SyncUnpublishSpec(w, p.0, fe).1);
    case WriteInProgress(job) => NotReadyIsObserved(w, fe, job, None, "", "Package job in progress");
    case WriteExceeded(job, message) =>
      NotReadyIsObserved(w, fe, NewJob(w, "", "", 0, PackageTaskOf(w, fe)), job, "PackageAttemptsExceeded", message);
    case CreateAttempt(number) =>
      var job := CreateOrGet(w, c, PackageJobName(w.feName, ArtifactKey(w, fe), number), PackageTaskOf(w, fe)).1;
      NotReadyIsObserved(w, fe, job, None, "", "Package job created");
  }

  lemma SyncsCreateNothing(w: World, c: Cluster, fe: Fe, artifact: PackageMetadata, cm: ConfigMap)
    requires PublishSettled(w, c, fe, artifact) && UnpublishSettled(w, c, fe)
    ensures SyncPublishSpec(w, c, fe, artifact, cm).0 == c && SyncUnpublishSpec(w, c, fe).0 == c
  {
    hide ResolvePublish, ResolveUnpublish, PublishName, UnpublishName, PublishAlreadyFinished, UnpublishAlreadyFinished, ArtifactKey;
    hide PublishStatusOf, UnpublishStatusOf, RetainedPublish, StoredPublish, StoredUnpublish;
  }

  /** Acting without creating a Job: only the extension's object changes, or it is deleted after its unpublish. */
  lemma ActWrites(w: World, c: Cluster, decision: Decision, cm: Option<ConfigMap>)
    requires c.fe.Some? && (decision.SyncAndReady? ==> cm.Some?) && !decision.CheckAgain?
    requires CreatesNothing(w, c, c.fe.value, decision)
    ensures var fe, next := c.fe.value, ActSpec(w, c, c.fe.value, decision, cm).0;
      next == if decision.SyncAndReady? && ShouldDelete(fe, SyncUnpublishSpec(w, c, fe).1) then c.(fe := None)
              else c.(fe := Some(Patched(w, fe, DesiredFor(w, c, fe, decision, cm))))
  {
    hide Observes, Patched, PackagingStatus, FailedStatus, ReadyDesired, ShouldDelete, SyncPublishSpec, SyncUnpublishSpec;
    hide PublishSettled, UnpublishSettled, ResolvePublish, ResolveUnpublish, PackageTaskOf, ArtifactKey, PackageJobName;
    DesiredIsObserved(w, c, c.fe.value, decision, cm);
    if decision.SyncAndReady? { SyncsCreateNothing(w, c, c.fe.value, decision.metadata, cm.value); }
  }

  lemma ReconcileWrites(w: World, c: Cluster, latest: Option<Attempt>)
    requires c.fe.Some? && !c.fe.value.deleting && CreatesNothing(w, c, c.fe.value, FinalDecision(w, c, c.fe.value, latest))
    ensures var fe, next := c.fe.value, ReconcileSpec(w, c, c.fe.value, latest).0;
      next == if FinalDecision(w, c, fe, latest).SyncAndReady? && ShouldDelete(fe, SyncUnpublishSpec(w, c, fe).1) then c.(fe := None)
              else c.(fe := Some(Patched(w, fe, Desired(w, c, fe, latest))))
  {
    hide Decide, DecideAgain, ActSpec, CreatesNothing, Patched, DesiredFor, ShouldDelete, SyncUnpublishSpec, ArtifactName;
    ActWrites(w, c, FinalDecision(w, c, c.fe.value, latest), ConfigMapAt(c, ArtifactName(w, c.fe.value)));
  }

  // ----- Patching the object -----

  lemma PatchedStatus(w: World, fe: Fe, d: FeStatus)
    ensures Patched(w, fe, d).status == Some(MergeStatus(fe.status, d))
    ensures SameIdentity(fe, Patched(w, fe, d))
  {
    hide MergeStatus, Observes, LabelsNeedPatch, PatchLabels;
    MergeTwice(fe.status, d);
  }

  lemma LabelsSettle(labels: map<string, string>, status: FeStatus)
    ensures !LabelsNeedPatch(PatchLabels(labels, status), status)
  {
  }

  lemma SameKey(w: World, fe: Fe, next: Fe)
    requires SameIdentity(fe, next)
    ensures SourceHash(w, next) == SourceHash(w, fe) && ArtifactKey(w, next) == ArtifactKey(w, fe) && ArtifactName(w, next) == ArtifactName(w, fe)
  {
    hide ArtifactConfigMapName;
  }

  lemma ObservesSame(w: World, fe: Fe, next: Fe, st: FeStatus)
    requires SameIdentity(fe, next)
    ensures Observes(w, next, st) <==> Observes(w, fe, st)
    ensures SourceHash(w, next) == SourceHash(w, fe) && ArtifactKey(w, next) == ArtifactKey(w, fe) && ArtifactName(w, next) == ArtifactName(w, fe)
  {
  }

  lemma MergedIsObserved(w: World, fe: Fe, stored: Option<FeStatus>, d: FeStatus)
    requires Observes(w, fe, d)
    ensures Observes(w, fe, MergeStatus(stored, d))
  {
    hide SourceHash, ArtifactKey, RebuildToken, MergePublish, MergeUnpublish, MergePackageJob;
  }

  /** After a patch the three labels agree with the stored status, and the deprecated ones are gone. */
  lemma PatchedLabels(w: World, fe: Fe, d: FeStatus)
    requires Observes(w, fe, d)
    ensures var next := Patched(w, fe, d); next.status.Some? && !LabelsNeedPatch(next.labels, next.status.value)
    ensures Observes(w, Patched(w, fe, d), d) && Observes(w, Patched(w, fe, d), MergeStatus(fe.status, d))
  {
    hide LabelsNeedPatch, PatchLabels, MergeStatus, Observes;
    var stored := MergeStatus(fe.status, d);
    MergeTwice(fe.status, d);
    MergedIsObserved(w, fe, fe.status, d);
    ObservesSame(w, fe, fe.(status := Some(stored)), stored);
    ObservesSame(w, fe, Patched(w, fe, d), stored);
    ObservesSame(w, fe, Patched(w, fe, d), d);
    LabelsSettle(fe.labels, stored);
  }

  /** Writing the same status again changes nothing. */
  lemma PatchedTwice(w: World, fe: Fe, d: FeStatus)
    requires Observes(w, fe, d)
    ensures Patched(w, Patched(w, fe, d), d) == Patched(w, fe, d)
  {
    hide MergeStatus, LabelsNeedPatch, PatchLabels, Observes;
    var next := Patched(w, fe, d);
    PatchedStatus(w, fe, d);
    PatchedLabels(w, fe, d);
    PatchedStatus(w, next, d);
    MergeTwice(fe.status, d);
  }

  // ----- Convergence while the artifact is missing -----

  /** Equal decisions, except that the Ready one falls back on a stored package Job when none is listed. */
  ghost predicate SameDecision(fe: Fe, next: Fe, latest: Option<Attempt>, d: Decision, d': Decision) {
    if d.SyncAndReady? then
      && d'.SyncAndReady? && d'.metadata == d.metadata
      && (d'.packageJob == d.packageJob || (latest.None? && d.packageJob == StoredPackageJob(fe) && d'.packageJob == StoredPackageJob(next)))
    else d' == d
  }

  lemma FrozenNextAttempt(w: World, fe: Fe, next: Fe, latest: Option<Attempt>)
    requires SameIdentity(fe, next)
    ensures NextAttempt(w, next, latest) == NextAttempt(w, fe, latest)
    ensures !NextAttempt(w, fe, latest).SyncAndReady? && !NextAttempt(w, fe, latest).CheckAgain?
  {
  }

  lemma FrozenArtifact(w: World, fe: Fe, next: Fe, cm: Option<ConfigMap>)
    requires SameIdentity(fe, next)
    ensures ArtifactIn(w, next, cm) == ArtifactIn(w, fe, cm)
  {
  }

  lemma FrozenMissing(w: World, fe: Fe, next: Fe, latest: Option<Attempt>)
    requires SameIdentity(fe, next)
    ensures DecideMissing(w, next, latest) == DecideMissing(w, fe, latest)
  {
    hide NextAttempt, ArtifactKey, HashLabelValue, JobMessage, ObservedPhase;
    SameKey(w, fe, next);
    FrozenNextAttempt(w, fe, next, latest);
  }

  lemma FrozenDecide(w: World, fe: Fe, next: Fe, latest: Option<Attempt>, cm: Option<ConfigMap>)
    requires SameIdentity(fe, next)
    ensures SameDecision(fe, next, latest, Decide(w, fe, latest, cm), Decide(w, next, latest, cm))
    ensures Decide(w, fe, latest, cm).CheckAgain? ==> latest == Some(Decide(w, fe, latest, cm).attempt)
  {
    hide ArtifactIn, DecideMissing, PackageJobOf;
    FrozenMissing(w, fe, next, latest);
    FrozenArtifact(w, fe, next, cm);
  }

  lemma FrozenDecideAgain(w: World, fe: Fe, next: Fe, attempt: Attempt, cm: Option<ConfigMap>)
    requires SameIdentity(fe, next)
    ensures DecideAgain(w, next, attempt, cm) == DecideAgain(w, fe, attempt, cm)
  {
    hide ArtifactIn, NextAttempt, ArtifactKey, HashLabelValue, PackageJobOf;
    SameKey(w, fe, next);
    FrozenNextAttempt(w, fe, next, Some(attempt));
    FrozenArtifact(w, fe, next, cm);
  }

  lemma FrozenDecision(w: World, c: Cluster, fe: Fe, next: Fe, latest: Option<Attempt>)
    requires SameIdentity(fe, next)
    ensures SameDecision(fe, next, latest, FinalDecision(w, c, fe, latest), FinalDecision(w, c, next, latest))
  {
    hide Decide, DecideAgain, ArtifactName;
    SameKey(w, fe, next);
    var cm := ConfigMapAt(c, ArtifactName(w, fe));
    FrozenDecide(w, fe, next, latest, cm);
    if Decide(w, fe, latest, cm).CheckAgain? { FrozenDecideAgain(w, fe, next, Decide(w, fe, latest, cm).attempt, cm); }
  }

  /** The parts of a not-ready status that depend on the stored one. */
  lemma NotReadyFields(w: World, c: Cluster, fe: Fe, decision: Decision, cm: Option<ConfigMap>)
    requires !decision.SyncAndReady? && !decision.CheckAgain?
    ensures var d := DesiredFor(w, c, fe, decision, cm);
      d.artifact.None? && d.publish == NotReadyPublish(w, fe) && d.unpublish == StoredUnpublish(fe)
  {
    hide SourceHash, ArtifactKey, RebuildToken, NotReadyPublish, PackageJobOf, CreateOrGet, PackageJobName, PackageTaskOf, StoredUnpublish;
  }

  lemma SameNotReady(w: World, c: Cluster, fe: Fe, next: Fe, decision: Decision, cm: Option<ConfigMap>)
    requires !decision.SyncAndReady? && !decision.CheckAgain? && SameIdentity(fe, next)
    requires NotReadyPublish(w, next) == NotReadyPublish(w, fe) && StoredUnpublish(next) == StoredUnpublish(fe)
    ensures DesiredFor(w, c, next, decision, cm) == DesiredFor(w, c, fe, decision, cm)
  {
    SameKey(w, fe, next);
    assert PackageTaskOf(w, fe) == PackageTaskOf(w, next);
    assert RebuildToken(fe) == RebuildToken(next);
    hide SourceHash, ArtifactKey, RebuildToken, NotReadyPublish, PackageJobOf, CreateOrGet, PackageJobName, PackageTaskOf, StoredUnpublish;
  }

  /** What a not-ready write leaves stored. */
  lemma NotReadyStored(w: World, fe: Fe, d: FeStatus)
    requires d.artifact.None? && d.publish == NotReadyPublish(w, fe) && d.unpublish == StoredUnpublish(fe)
    ensures var next := Patched(w, fe, d);
      && StoredUnpublish(next) == StoredUnpublish(fe) && StoredArtifactKey(next).None?
      && PendingPublish(w, next) == PendingPublish(w, fe)
      && (PendingPublish(w, fe).None? ==> StoredPublish(next) == RetainedPublish(fe, ArtifactKey(w, fe)))
  {
    hide Patched, MergePublish, MergeUnpublish, ArtifactKey;
    PatchedStatus(w, fe, d);
    if fe.status.Some? && d.publish.Some? { MergePublishTwice(fe.status.value.publish, d.publish.value); }
    if fe.status.Some? && d.unpublish.Some? { MergeUnpublishTwice(fe.status.value.unpublish, d.unpublish.value); }
  }

  predicate Live(publish: Option<PublishStatus>) {
    publish.Some? && publish.value.phase.PublishSucceeded? && publish.value.active
  }

  /**
   A not-ready write forgets the stored artifact key, so the next one drops a
   stored publish that was kept for that key alone.
   */
  predicate DropsPublish(w: World, fe: Fe) {
    && PendingPublish(w, fe).None?
    && StoredArtifactKey(fe) == Some(ArtifactKey(w, fe))
    && StoredPublish(fe).Some? && !Live(StoredPublish(fe))
  }

  /** Two reconciles in a row while the artifact is missing. */
  lemma SecondNotReady(w: World, c: Cluster, fe: Fe, decision: Decision, cm: Option<ConfigMap>)
    requires !decision.SyncAndReady? && !decision.CheckAgain?
    ensures var d := DesiredFor(w, c, fe, decision, cm); var next := Patched(w, fe, d); var d' := DesiredFor(w, c, next, decision, cm);
      && (!DropsPublish(w, fe) ==> d' == d)
      && (DropsPublish(w, fe) ==> d'.publish.None? && d.publish.Some?)
      && !DropsPublish(w, next)
  {
    hide Patched, DesiredFor, PendingPublish, ArtifactKey, StoredUnpublish;
    var d := DesiredFor(w, c, fe, decision, cm);
    var next := Patched(w, fe, d);
    NotReadyFields(w, c, fe, decision, cm);
    NotReadyStored(w, fe, d);
    PatchedStatus(w, fe, d);
    ObservesSame(w, fe, next, d);
    NotReadyFields(w, c, next, decision, cm);
    if !DropsPublish(w, fe) { SameNotReady(w, c, fe, next, decision, cm); }
  }

  /**
   While the artifact is missing and no Job is created, the second reconcile
   changes the stored object exactly when the first kept a publish it will drop,
   and the third never changes it.
   */
  lemma NotReadyConverges(w: World, c: Cluster, latest: Option<Attempt>)
    requires c.fe.Some? && !c.fe.value.deleting
    requires !FinalDecision(w, c, c.fe.value, latest).SyncAndReady?
    requires CreatesNothing(w, c, c.fe.value, FinalDecision(w, c, c.fe.value, latest))
    ensures var c1 := ReconcileSpec(w, c, c.fe.value, latest).0;
      && c1.fe.Some? && !c1.fe.value.deleting
      && var c2 := ReconcileSpec(w, c1, c1.fe.value, latest).0;
      && c2.fe.Some? && !c2.fe.value.deleting
      && (c2 == c1 <==> !DropsPublish(w, c.fe.value))
      && ReconcileSpec(w, c2, c2.fe.value, latest).0 == c2
  {
    hide *;
    var fe, decision, cm := c.fe.value, FinalDecision(w, c, c.fe.value, latest), ConfigMapAt(c, ArtifactName(w, c.fe.value));
    var fe1 := Patched(w, fe, DesiredFor(w, c, fe, decision, cm));
    var fe2 := Patched(w, fe1, DesiredFor(w, c, fe1, decision, cm));
    NotReadyStep(w, c, fe, decision, latest);
    NotReadyStep(w, c, fe1, decision, latest);
    NotReadyStep(w, c, fe2, decision, latest);
    SecondNotReady(w, c, fe, decision, cm);
    SecondNotReady(w, c, fe1, decision, cm);
    DesiredIsObserved(w, c, fe, decision, cm);
    DesiredIsObserved(w, c, fe1, decision, cm);
    PatchedTwice(w, fe, DesiredFor(w, c, fe, decision, cm));
    PatchedTwice(w, fe1, DesiredFor(w, c, fe1, decision, cm));
    NotReadyFields(w, c, fe, decision, cm);
    NotReadyFields(w, c, fe1, decision, cm);
    PublishStored(w, fe, DesiredFor(w, c, fe, decision, cm));
    PublishStored(w, fe1, DesiredFor(w, c, fe1, decision, cm));
  }

  /** An extension whose source is invalid and whose failed publish was recorded with the current artifact key. */
  function InvalidWithPublish(w: World): Fe {
    var fe := Fe("", 1, false, "", None, None, map[], map[], None);
    fe.(status := Some(FeStatus(
      PhaseReady, Some(1), Some(SourceHash(w, fe)), Some(RebuildToken(fe)),
      Some(ArtifactStatus("", "", None, PACKAGE_KEY, "", 0, "", "", 0, SourceHash(w, fe), Some(ArtifactKey(w, fe)))),
      Some(DownloadStatus(true, "", "")), None, Some(FailedPublish("r", None, "")), None, [])))
  }

  /** One write is not enough: a concrete extension whose second reconcile still changes its status. */
  lemma OneWriteIsNotEnough(w: World)
    requires !w.valid("")
    ensures var c := Cluster(Some(InvalidWithPublish(w)), map[], map[], 0);
      var c1 := ReconcileSpec(w, c, c.fe.value, None).0;
      c1.fe.Some? && ReconcileSpec(w, c1, c1.fe.value, None).0 != c1
  {
    hide ReconcileSpec, SourceHash, ArtifactKey, RebuildToken;
    var fe := InvalidWithPublish(w);
    var c := Cluster(Some(fe), map[], map[], 0);
    InvalidDrops(w);
    assert FinalDecision(w, c, fe, None) == WriteInvalid;
    NotReadyConverges(w, c, None);
  }

  lemma InvalidDrops(w: World)
    ensures DropsPublish(w, InvalidWithPublish(w)) && !InvalidWithPublish(w).deleting
  {
    var fe := InvalidWithPublish(w);
    SameKey(w, Fe("", 1, false, "", None, None, map[], map[], None), fe);
    hide SourceHash, ArtifactKey, RebuildToken, Observes;
  }

  lemma PublishStored(w: World, fe: Fe, d: FeStatus)
    ensures StoredPublish(Patched(w, fe, d)).Some? <==> d.publish.Some?
  {
    PatchedStatus(w, fe, d);
  }

  /** One such reconcile, on the cluster with any stored object of the same identity. */
  lemma NotReadyStep(w: World, c: Cluster, fe: Fe, decision: Decision, latest: Option<Attempt>)
    requires !fe.deleting && FinalDecision(w, c, fe, latest) == decision && !decision.SyncAndReady? && CreatesNothing(w, c, fe, decision)
    ensures var next := Patched(w, fe, DesiredFor(w, c, fe, decision, ConfigMapAt(c, ArtifactName(w, fe))));
      && ReconcileSpec(w, c.(fe := Some(fe)), fe, latest).0 == c.(fe := Some(next))
      && !next.deleting && FinalDecision(w, c, next, latest) == decision && CreatesNothing(w, c, next, decision)
      && ArtifactName(w, next) == ArtifactName(w, fe)
  {
    hide ReconcileSpec, FinalDecision, Patched, DesiredFor, PackageJobName, ArtifactName, Observes;
    var cm, c' := ConfigMapAt(c, ArtifactName(w, fe)), c.(fe := Some(fe));
    var d := DesiredFor(w, c, fe, decision, cm);
    PatchedStatus(w, fe, d);
    FrozenDecision(w, c, fe, Patched(w, fe, d), latest);
    ObservesSame(w, fe, Patched(w, fe, d), d);
    OtherStored(w, c, fe, decision, cm, latest);
    ReconcileWrites(w, c', latest);
  }

  /** Decisions and desired statuses read the Jobs and ConfigMaps, not the stored object. */
  lemma OtherStored(w: World, c: Cluster, fe: Fe, decision: Decision, cm: Option<ConfigMap>, latest: Option<Attempt>)
    requires !decision.SyncAndReady? && !decision.CheckAgain?
    ensures var c' := c.(fe := Some(fe));
      && FinalDecision(w, c', fe, latest) == FinalDecision(w, c, fe, latest)
      && DesiredFor(w, c', fe, decision, cm) == DesiredFor(w, c, fe, decision, cm)
      && (CreatesNothing(w, c', fe, decision) <==> CreatesNothing(w, c, fe, decision))
      && ConfigMapAt(c', ArtifactName(w, fe)) == ConfigMapAt(c, ArtifactName(w, fe))
  {
    hide Decide, DecideAgain, PackagingStatus, FailedStatus, PackageJobName, ArtifactName, ArtifactKey, PackageTaskOf;
  }

  // ----- Convergence once the artifact is there -----

  /** The publish section after apply_unpublish_sync. */
  function Deactivated(publish: Option<PublishStatus>, unpublish: Option<UnpublishStatus>): Option<PublishStatus> {
    if publish.Some? && unpublish.Some? && unpublish.value.phase.PublishSucceeded? && UnpublishedAfter(publish.value, unpublish.value)
    then Some(publish.value.(active := false)) else publish
  }

  lemma KeepFirstThree(a: Condition, b: Condition, c: Condition, d: Condition)
    requires a.kind != "PublishSucceeded" && b.kind != "PublishSucceeded" && c.kind != "PublishSucceeded" && d.kind == "PublishSucceeded"
    ensures Filter([a, b, c, d], (x: Condition) => x.kind != "PublishSucceeded") == [a, b, c]
  {
    var keep := (x: Condition) => x.kind != "PublishSucceeded";
    FilterAll([a, b, c], keep);
    FilterNone([d], keep);
    FilterConcat([a, b, c], [d], keep);
    assert [a, b, c, d] == [a, b, c] + [d];
  }

  /** The Ready status in full: of the stored object only its identity is left in it. */
  function ReadyForm(
    w: World, fe: Fe, cm: ConfigMap, artifact: PackageMetadata, packageJob: Option<PackageJobStatus>,
    publish: Option<PublishStatus>, unpublish: Option<UnpublishStatus>): FeStatus
  {
    FeStatus(
      PhaseReady, Some(fe.generation), Some(SourceHash(w, fe)), Some(RebuildToken(fe)),
      Some(ArtifactStatus(
        cm.namespace, cm.name, cm.uid, PACKAGE_KEY, artifact.digest, artifact.sizeBytes, artifact.mediaType, artifact.filename,
        artifact.generatedAt, artifact.sourceHash, Some(ArtifactKey(w, fe)))),
      Some(DownloadStatus(true, artifact.filename, artifact.mediaType)),
      packageJob, Deactivated(publish, unpublish), unpublish,
      [FeCondition("SourceValid", "True", "Validated", "", fe.generation),
       FeCondition("ArtifactReady", "True", "Generated", "", fe.generation),
       FeCondition("DownloadReady", "True", "Available", "", fe.generation),
       PublishCondition(publish, fe.generation)])
  }

  lemma ReadyInFull(
    w: World, fe: Fe, cm: ConfigMap, artifact: PackageMetadata, packageJob: Option<PackageJobStatus>,
    publish: Option<PublishStatus>, unpublish: Option<UnpublishStatus>)
    ensures ReadyDesired(w, fe, cm, artifact, packageJob, publish, unpublish) == ReadyForm(w, fe, cm, artifact, packageJob, publish, unpublish)
  {
    hide SourceHash, ArtifactKey, RebuildToken, StoredPublish, StoredUnpublish, UnpublishedAfter, Filter;
    var st := ReadyStatus(w, fe, cm, artifact, packageJob);
    KeepFirstThree(st.conditions[0], st.conditions[1], st.conditions[2], st.conditions[3]);
    assert st.conditions == [st.conditions[0], st.conditions[1], st.conditions[2], st.conditions[3]];
  }

  /** The condition does not tell whether the publish is active. */
  lemma ConditionIgnoresActive(publish: Option<PublishStatus>, unpublish: Option<UnpublishStatus>, generation: int)
    ensures PublishCondition(Deactivated(publish, unpublish), generation) == PublishCondition(publish, generation)
    ensures Deactivated(Deactivated(publish, unpublish), unpublish) == Deactivated(publish, unpublish)
  {
  }

  lemma ReadyFields(
    w: World, fe: Fe, cm: ConfigMap, artifact: PackageMetadata, packageJob: Option<PackageJobStatus>,
    publish: Option<PublishStatus>, unpublish: Option<UnpublishStatus>)
    ensures var d := ReadyDesired(w, fe, cm, artifact, packageJob, publish, unpublish);
      && d.artifact.Some? && d.artifact.value.artifactKey == Some(ArtifactKey(w, fe))
      && d.publish == Deactivated(publish, unpublish) && d.unpublish == unpublish && d.packageJob == packageJob
  {
    ReadyInFull(w, fe, cm, artifact, packageJob, publish, unpublish);
    hide ReadyDesired, SourceHash, ArtifactKey, RebuildToken, PublishCondition, Deactivated;
  }

  lemma MergeDeactivated(publish: PublishStatus, unpublish: Option<UnpublishStatus>)
    ensures var d := Deactivated(Some(publish), unpublish).value; MergePublish(Some(publish), d) == d && MergePublish(None, d) == d
  {
  }

  /** What a Ready write leaves stored. */
  lemma ReadyStored(w: World, fe: Fe, d: FeStatus, publish: Option<PublishStatus>, unpublish: Option<UnpublishStatus>)
    requires d.artifact.Some? && d.artifact.value.artifactKey == Some(ArtifactKey(w, fe))
    requires d.publish == Deactivated(publish, unpublish)
    ensures var next := Patched(w, fe, d);
      && StoredArtifactKey(next) == Some(ArtifactKey(w, fe))
      && (publish == StoredPublish(fe) || publish.None? ==> StoredPublish(next) == Deactivated(publish, unpublish))
      && (d.unpublish == StoredUnpublish(fe) ==> StoredUnpublish(next) == d.unpublish)
      && (d.packageJob == StoredPackageJob(fe) ==> StoredPackageJob(next) == d.packageJob)
  {
    PatchedStatus(w, fe, d);
    if publish.Some? { MergeDeactivated(publish.value, unpublish); }
    if d.unpublish.Some? { MergeUnpublishTwice(None, d.unpublish.value); }
    if d.packageJob.Some? { MergePackageJobTwice(None, d.packageJob.value); }
    assert publish.None? ==> d.publish.None?;
    hide Patched, ArtifactKey, MergePublish, MergeUnpublish, MergePackageJob, Deactivated;
  }

  lemma FrozenAnnotations(w: World, fe: Fe, next: Fe)
    requires SameIdentity(fe, next)
    ensures TargetRef(next) == TargetRef(fe) && TargetKind(next) == TargetKind(fe)
    ensures RequestedGeneration(next) == RequestedGeneration(fe) && RequestedSourceHash(next) == RequestedSourceHash(fe)
    ensures RequestedDigest(next) == RequestedDigest(fe)
    ensures forall key :: NonEmptyAnno(next, key) == NonEmptyAnno(fe, key)
  {
  }

  lemma FrozenPublish(w: World, fe: Fe, next: Fe, artifact: PackageMetadata)
    requires SameIdentity(fe, next)
    ensures ResolvePublish(next, artifact) == ResolvePublish(fe, artifact)
    ensures forall request, cm :: PublishTaskOf(next, request, cm) == PublishTaskOf(fe, request, cm)
  {
    hide TargetRef, TargetKind, RequestedGeneration, RequestedSourceHash, RequestedDigest, NonEmptyAnno;
    FrozenAnnotations(w, fe, next);
  }

  lemma FrozenUnpublish(w: World, fe: Fe, next: Fe)
    requires SameIdentity(fe, next)
    ensures ResolveUnpublish(w, next) == ResolveUnpublish(w, fe)
  {
    hide TargetRef, TargetKind, RequestedGeneration, RequestedSourceHash, RequestedDigest, NonEmptyAnno;
    FrozenAnnotations(w, fe, next);
  }

  /** Syncing publish again gives the same status, up to the active flag that unpublishing cleared. */
  lemma SyncPublishAgain(w: World, c: Cluster, fe: Fe, next: Fe, artifact: PackageMetadata, cm: ConfigMap, unpublish: Option<UnpublishStatus>)
    requires SameIdentity(fe, next) && PublishSettled(w, c, fe, artifact)
    requires StoredArtifactKey(next) == Some(ArtifactKey(w, fe))
    requires var p := SyncPublishSpec(w, c, fe, artifact, cm).1;
      p == StoredPublish(fe) || p.None? ==> StoredPublish(next) == Deactivated(p, unpublish)
    ensures var p, p' := SyncPublishSpec(w, c, fe, artifact, cm).1, SyncPublishSpec(w, c, next, artifact, cm).1;
      p' == p || p' == Deactivated(p, unpublish)
    ensures PublishSettled(w, c, next, artifact)
  {
    hide ResolvePublish, PublishStatusOf, PublishName, PublishTaskOf, UnpublishedAfter, ArtifactKey;
    FrozenPublish(w, fe, next, artifact);
    SameKey(w, fe, next);
  }

  lemma SyncUnpublishAgain(w: World, c: Cluster, fe: Fe, next: Fe)
    requires SameIdentity(fe, next) && UnpublishSettled(w, c, fe)
    requires SyncUnpublishSpec(w, c, fe).1 == StoredUnpublish(fe) ==> StoredUnpublish(next) == StoredUnpublish(fe)
    ensures SyncUnpublishSpec(w, c, next).1 == SyncUnpublishSpec(w, c, fe).1
    ensures UnpublishSettled(w, c, next)
  {
    hide ResolveUnpublish, UnpublishStatusOf, UnpublishName, UnpublishTaskOf;
    FrozenUnpublish(w, fe, next);
  }

  /** The Ready status of the object just written is the one written. */
  lemma ReadyAgain(w: World, c: Cluster, fe: Fe, artifact: PackageMetadata, packageJob: Option<PackageJobStatus>, cm: ConfigMap)
    requires PublishSettled(w, c, fe, artifact) && UnpublishSettled(w, c, fe)
    ensures var d := DesiredFor(w, c, fe, SyncAndReady(artifact, packageJob), Some(cm)); var next := Patched(w, fe, d);
      && PublishSettled(w, c, next, artifact) && UnpublishSettled(w, c, next)
      && SyncUnpublishSpec(w, c, next).1 == SyncUnpublishSpec(w, c, fe).1
      && (packageJob == StoredPackageJob(fe) ==> StoredPackageJob(next) == packageJob)
      && DesiredFor(w, c, next, SyncAndReady(artifact, packageJob), Some(cm)) == d
  {
    hide ReadyDesired, Patched, SyncPublishSpec, SyncUnpublishSpec, PublishSettled, UnpublishSettled, Deactivated, ArtifactKey;
    var p, u := SyncPublishSpec(w, c, fe, artifact, cm).1, SyncUnpublishSpec(w, c, fe).1;
    SyncsCreateNothing(w, c, fe, artifact, cm);
    var d := ReadyDesired(w, fe, cm, artifact, packageJob, p, u);
    var next := Patched(w, fe, d);
    ReadyFields(w, fe, cm, artifact, packageJob, p, u);
    ReadyStored(w, fe, d, p, u);
    PatchedStatus(w, fe, d);
    SyncPublishAgain(w, c, fe, next, artifact, cm, u);
    SyncUnpublishAgain(w, c, fe, next);
    SyncsCreateNothing(w, c, next, artifact, cm);
    SameReady(w, fe, next, cm, artifact, packageJob, p, SyncPublishSpec(w, c, next, artifact, cm).1, u);
  }

  lemma SameReady(
    w: World, fe: Fe, next: Fe, cm: ConfigMap, artifact: PackageMetadata, packageJob: Option<PackageJobStatus>,
    p: Option<PublishStatus>, p': Option<PublishStatus>, u: Option<UnpublishStatus>)
    requires SameIdentity(fe, next) && (p' == p || p' == Deactivated(p, u))
    ensures ReadyDesired(w, next, cm, artifact, packageJob, p', u) == ReadyDesired(w, fe, cm, artifact, packageJob, p, u)
  {
    hide ReadyDesired, Deactivated, PublishCondition;
    ReadyInFull(w, fe, cm, artifact, packageJob, p, u);
    ReadyInFull(w, next, cm, artifact, packageJob, p', u);
    ConditionIgnoresActive(p, u, fe.generation);
  }

  lemma OtherStoredReady(w: World, c: Cluster, fe: Fe, artifact: PackageMetadata, packageJob: Option<PackageJobStatus>, cm: ConfigMap, latest: Option<Attempt>)
    requires PublishSettled(w, c, fe, artifact) && UnpublishSettled(w, c, fe)
    ensures var c' := c.(fe := Some(fe));
      && FinalDecision(w, c', fe, latest) == FinalDecision(w, c, fe, latest)
      && PublishSettled(w, c', fe, artifact) && UnpublishSettled(w, c', fe)
      && DesiredFor(w, c', fe, SyncAndReady(artifact, packageJob), Some(cm)) == DesiredFor(w, c, fe, SyncAndReady(artifact, packageJob), Some(cm))
      && SyncUnpublishSpec(w, c', fe).1 == SyncUnpublishSpec(w, c, fe).1
      && ConfigMapAt(c', ArtifactName(w, fe)) == ConfigMapAt(c, ArtifactName(w, fe))
  {
    hide Decide, DecideAgain, ReadyDesired, ArtifactName, ResolvePublish, ResolveUnpublish, PublishAlreadyFinished, UnpublishAlreadyFinished;
    hide PublishName, UnpublishName, PublishStatusOf, UnpublishStatusOf, PublishTaskOf, RetainedPublish, StoredPublish, StoredUnpublish, ArtifactKey;
    var c' := c.(fe := Some(fe));
    assert PublishSettled(w, c', fe, artifact) && UnpublishSettled(w, c', fe);
    SyncsCreateNothing(w, c, fe, artifact, cm);
    SyncsCreateNothing(w, c', fe, artifact, cm);
    assert SyncPublishSpec(w, c', fe, artifact, cm).1 == SyncPublishSpec(w, c, fe, artifact, cm).1;
  }

  lemma FrozenShouldDelete(w: World, fe: Fe, next: Fe, unpublish: Option<UnpublishStatus>)
    requires SameIdentity(fe, next)
    ensures ShouldDelete(next, unpublish) == ShouldDelete(fe, unpublish)
  {
    hide NonEmptyAnno;
    FrozenAnnotations(w, fe, next);
  }

  lemma SettledDecision(w: World, c: Cluster, fe: Fe, decision: Decision)
    requires decision.SyncAndReady?
    ensures CreatesNothing(w, c, fe, decision) <==> PublishSettled(w, c, fe, decision.metadata) && UnpublishSettled(w, c, fe)
  {
  }

  /** Once the artifact is there, one write reaches the fixed point. */
  lemma ReadyConverges(w: World, c: Cluster, latest: Option<Attempt>)
    requires c.fe.Some? && !c.fe.value.deleting
    requires FinalDecision(w, c, c.fe.value, latest).SyncAndReady?
    requires CreatesNothing(w, c, c.fe.value, FinalDecision(w, c, c.fe.value, latest))
    requires ReconcileSpec(w, c, c.fe.value, latest).0.fe.Some?
    ensures var c1 := ReconcileSpec(w, c, c.fe.value, latest).0;
      !c1.fe.value.deleting && ReconcileSpec(w, c1, c1.fe.value, latest).0 == c1
  {
    hide ShouldDelete, CreatesNothing, ReconcileSpec, FinalDecision, Patched, DesiredFor, Observes, ArtifactName, SyncUnpublishSpec, PublishSettled, UnpublishSettled;
    var fe, decision := c.fe.value, FinalDecision(w, c, c.fe.value, latest);
    var cm := ConfigMapAt(c, ArtifactName(w, fe)).value;
    var artifact := decision.metadata;
    var d := DesiredFor(w, c, fe, decision, Some(cm));
    var next := Patched(w, fe, d);
    var decision' := FinalDecision(w, c, next, latest);
    SettledDecision(w, c, fe, decision);
    SettledDecision(w, c.(fe := Some(next)), next, decision);
    ReconcileWrites(w, c, latest);
    PatchedStatus(w, fe, d);
    FrozenDecision(w, c, fe, next, latest);
    ObservesSame(w, fe, next, d);
    ReadyAgain(w, c, fe, artifact, decision.packageJob, cm);
    assert decision' == decision;
    OtherStoredReady(w, c, next, artifact, decision.packageJob, cm, latest);
    ReconcileWrites(w, c.(fe := Some(next)), latest);
    DesiredIsObserved(w, c, fe, decision, Some(cm));
    PatchedTwice(w, fe, d);
    FrozenShouldDelete(w, fe, next, SyncUnpublishSpec(w, c, fe).1);
  }

  /** The stored labels say exactly what the stored status says, and the deprecated labels are gone. */
  ghost predicate LabelsAgree(fe: Fe) {
    && fe.status.Some?
    && (forall k :: k in StatusLabels(fe.status.value) ==> k in fe.labels && fe.labels[k] == StatusLabels(fe.status.value)[k])
    && DEPRECATED_LABEL_PACKAGE_STATUS !in fe.labels && DEPRECATED_LABEL_PUBLISH_STATUS !in fe.labels
  }

  lemma WrittenLabelsAgree(w: World, c: Cluster, latest: Option<Attempt>)
    requires c.fe.Some? && !c.fe.value.deleting && CreatesNothing(w, c, c.fe.value, FinalDecision(w, c, c.fe.value, latest))
    requires ReconcileSpec(w, c, c.fe.value, latest).0.fe.Some?
    ensures var next := ReconcileSpec(w, c, c.fe.value, latest).0;
      next == c.(fe := next.fe) && SameIdentity(c.fe.value, next.fe.value) && LabelsAgree(next.fe.value)
  {
    hide ReconcileSpec, FinalDecision, Patched, DesiredFor, Observes, CreatesNothing, StatusLabels, MergeStatus, SyncUnpublishSpec, ShouldDelete;
    var fe := c.fe.value;
    var decision, cm := FinalDecision(w, c, fe, latest), ConfigMapAt(c, ArtifactName(w, fe));
    var d := DesiredFor(w, c, fe, decision, cm);
    ReconcileWrites(w, c, latest);
    DesiredIsObserved(w, c, fe, decision, cm);
    PatchedStatus(w, fe, d);
    PatchedLabels(w, fe, d);
  }

  /**
   With the extension's identity, the Jobs and the artifact frozen and no Job left
   to create, two reconciles reach a stored object that no further one changes, and
   its labels agree with its status.
   */
  lemma Stabilises(w: World, c: Cluster, latest: Option<Attempt>)
    requires c.fe.Some? && !c.fe.value.deleting
    requires IsLatest(c.jobs, c.fe.value.uid, HashLabelValue(ArtifactKey(w, c.fe.value)), latest)
    requires CreatesNothing(w, c, c.fe.value, FinalDecision(w, c, c.fe.value, latest))
    requires ReconcileSpec(w, c, c.fe.value, latest).0.fe.Some?
    ensures var c1 := ReconcileSpec(w, c, c.fe.value, latest).0;
      && c1.fe.Some? && LabelsAgree(c1.fe.value)
      && c1 == c.(fe := c1.fe) && SameIdentity(c.fe.value, c1.fe.value)
      && IsLatest(c1.jobs, c1.fe.value.uid, HashLabelValue(ArtifactKey(w, c1.fe.value)), latest)
      && var c2 := ReconcileSpec(w, c1, c1.fe.value, latest).0;
      && c2.fe.Some? && ReconcileSpec(w, c2, c2.fe.value, latest).0 == c2
      && (c2 == c1 <==> !(DropsPublish(w, c.fe.value) && !FinalDecision(w, c, c.fe.value, latest).SyncAndReady?))
  {
    hide ReconcileSpec, FinalDecision, LabelsAgree, DropsPublish, CreatesNothing, IsLatest;
    WrittenLabelsAgree(w, c, latest);
    var c1 := ReconcileSpec(w, c, c.fe.value, latest).0;
    SameKey(w, c.fe.value, c1.fe.value);
    if FinalDecision(w, c, c.fe.value, latest).SyncAndReady? {
      ReadyConverges(w, c, latest);
    } else {
      NotReadyConverges(w, c, latest);
    }
  }
}
