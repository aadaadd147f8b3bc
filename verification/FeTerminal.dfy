/**
 Finished publishes and unpublishes stay finished: reconciles, from any version of
 the extension the controller may still have cached, and TTL deletions of Jobs
 neither start them again nor reactivate a publish that was withdrawn.
 */
module FeTerminal {
  import opened Prelude
  import opened Names
  import opened FeTypes
  import opened FeStatusRules
  import opened FeReconcile
  import opened FeStable

  /**
   What happens to an extension whose spec and annotations nobody edits: a
   reconcile of some version there has been, or the deletion of a finished Job.
   */
  datatype QuietStep = ReconcileFrom(version: nat) | DeleteFinished(name: string)

  ghost predicate ReconcilesFrom(w: World, c: Cluster, next: Cluster, snapshot: Option<Fe>) {
    if snapshot.None? then next == c
    else exists latest ::
      && IsLatest(c.jobs, snapshot.value.uid, HashLabelValue(ArtifactKey(w, snapshot.value)), latest)
      && next == ReconcileSpec(w, c, snapshot.value, latest).0
  }

  ghost predicate DeletesFinished(c: Cluster, next: Cluster, name: string) {
    name in c.jobs && Finished(c.jobs[name].status) && next == c.(jobs := c.jobs - {name})
  }

  ghost predicate QuietNext(w: World, cs: seq<Cluster>, i: nat, step: QuietStep)
    requires i + 1 < |cs|
  {
    match step
    case ReconcileFrom(version) => version <= i && ReconcilesFrom(w, cs[i], cs[i + 1], cs[version].fe)
    case DeleteFinished(name) => DeletesFinished(cs[i], cs[i + 1], name)
  }

  ghost predicate QuietRun(w: World, cs: seq<Cluster>, steps: seq<QuietStep>) {
    |cs| == |steps| + 1 && forall i :: 0 <= i < |steps| ==> QuietNext(w, cs, i, steps[i])
  }

  // ----- Terminal requests -----

  function LiveJob(c: Cluster, name: string): Option<Job> {
    if name in c.jobs then Some(c.jobs[name]) else None
  }

  predicate PublishDone(w: World, c: Cluster, fe: Fe, artifact: PackageMetadata) {
    var r := ResolvePublish(fe, artifact);
    r.Accepted? ==>
      var job := LiveJob(c, PublishName(w, r.request.requestId));
      PublishAlreadyFinished(fe, r.request, ArtifactKey(w, fe)) && (job.Some? ==> Finished(job.value.status))
  }

  predicate UnpublishDone(w: World, c: Cluster, fe: Fe) {
    var r := ResolveUnpublish(w, fe);
    r.AcceptedUnpublish? ==>
      var job := LiveJob(c, UnpublishName(w, r.request.requestId));
      UnpublishAlreadyFinished(fe, r.request) && (job.Some? ==> Finished(job.value.status))
  }

  function ArtifactNow(w: World, c: Cluster, fe: Fe): (r: Option<PackageMetadata>)
    ensures r.Some? ==> ConfigMapAt(c, ArtifactName(w, fe)).Some?
  {
    ArtifactIn(w, fe, ConfigMapAt(c, ArtifactName(w, fe)))
  }

  /** The artifact is valid, and this version records publish and unpublish as terminal for its requests. */
  predicate DoneFor(w: World, c: Cluster, fe: Fe) {
    && w.valid(fe.source) && ArtifactNow(w, c, fe).Some?
    && PublishDone(w, c, fe, ArtifactNow(w, c, fe).value)
    && UnpublishDone(w, c, fe)
  }

  predicate Done(w: World, c: Cluster) {
    c.fe.Some? ==> DoneFor(w, c, c.fe.value)
  }

  /** Nothing in `next.jobs` that was not in `c.jobs`. */
  predicate NoNewJob(c: Cluster, next: Cluster) {
    forall name :: name in next.jobs ==> name in c.jobs && next.jobs[name] == c.jobs[name]
  }

  // ----- When a sync starts a Job -----

  /** Syncing adds a Job exactly when the version it works from does not show the request settled. */
  lemma SyncStartsExactly(w: World, c: Cluster, fe: Fe, artifact: PackageMetadata, cm: ConfigMap)
    ensures SyncPublishSpec(w, c, fe, artifact, cm).0.jobs == c.jobs <==> PublishSettled(w, c, fe, artifact)
    ensures SyncUnpublishSpec(w, c, fe).0.jobs == c.jobs <==> UnpublishSettled(w, c, fe)
  {
    hide ResolvePublish, ResolveUnpublish, PublishName, UnpublishName, PublishAlreadyFinished, UnpublishAlreadyFinished, ArtifactKey;
    hide PublishStatusOf, UnpublishStatusOf, RetainedPublish, StoredPublish, StoredUnpublish, PublishTaskOf, UnpublishTaskOf;
  }

  /** A version is safe to reconcile from, whatever Jobs have been collected, exactly when it records its requests as finished. */
  lemma SafeVersion(w: World, c: Cluster, fe: Fe, artifact: PackageMetadata)
    ensures (forall jobs :: !StartsPublish(w, jobs, fe, artifact))
      <==> (ResolvePublish(fe, artifact).Accepted? ==> PublishAlreadyFinished(fe, ResolvePublish(fe, artifact).request, ArtifactKey(w, fe)))
    ensures (forall jobs :: !StartsUnpublish(w, jobs, fe))
      <==> (ResolveUnpublish(w, fe).AcceptedUnpublish? ==> UnpublishAlreadyFinished(fe, ResolveUnpublish(w, fe).request))
  {
    hide ResolvePublish, ResolveUnpublish, PublishName, UnpublishName, PublishAlreadyFinished, UnpublishAlreadyFinished, ArtifactKey;
    assert StartsPublish(w, map[], fe, artifact)
      <==> ResolvePublish(fe, artifact).Accepted? && !PublishAlreadyFinished(fe, ResolvePublish(fe, artifact).request, ArtifactKey(w, fe));
    assert StartsUnpublish(w, map[], fe)
      <==> ResolveUnpublish(w, fe).AcceptedUnpublish? && !UnpublishAlreadyFinished(fe, ResolveUnpublish(w, fe).request);
  }

  lemma DoneHasArtifact(w: World, c: Cluster, fe: Fe)
    requires DoneFor(w, c, fe)
    ensures ArtifactNow(w, c, fe).Some?
  {
    hide ArtifactNow, PublishDone, UnpublishDone;
  }

  lemma DoneIsSettled(w: World, c: Cluster, fe: Fe)
    requires DoneFor(w, c, fe)
    ensures PublishSettled(w, c, fe, ArtifactNow(w, c, fe).value) && UnpublishSettled(w, c, fe)
  {
    hide ArtifactNow, ResolvePublish, ResolveUnpublish, PublishAlreadyFinished, UnpublishAlreadyFinished, ArtifactKey, PublishName, UnpublishName, Finished;
  }

  // ----- One reconcile of a version that is done -----

  lemma DoneDecision(w: World, c: Cluster, fe: Fe, latest: Option<Attempt>)
    requires DoneFor(w, c, fe)
    ensures var d := FinalDecision(w, c, fe, latest); d.SyncAndReady? && d.metadata == ArtifactNow(w, c, fe).value
  {
    hide ArtifactIn, DecideMissing, DecideAgain, PublishDone, UnpublishDone, ArtifactName, PackageJobOf;
  }

  /** The status such a reconcile writes, as far as requests are concerned. */
  ghost predicate DoneStatus(w: World, c: Cluster, fe: Fe, d: FeStatus)
    requires ArtifactNow(w, c, fe).Some?
  {
    var artifact, cm := ArtifactNow(w, c, fe).value, ConfigMapAt(c, ArtifactName(w, fe)).value;
    && d.artifact.Some? && d.artifact.value.artifactKey == Some(ArtifactKey(w, fe))
    && d.unpublish == SyncUnpublishSpec(w, c, fe).1
    && d.publish == Deactivated(SyncPublishSpec(w, c, fe, artifact, cm).1, d.unpublish)
  }

  /** The reconcile leaves the cluster, deletes the extension, or patches the stored object, which may be newer than the version. */
  lemma DoneReconcile(w: World, c: Cluster, fe: Fe, latest: Option<Attempt>)
    requires !fe.deleting && DoneFor(w, c, fe)
    ensures var next := ReconcileSpec(w, c, fe, latest).0;
      || next == c || next == c.(fe := None)
      || (c.fe.Some? && exists d: FeStatus :: DoneStatus(w, c, fe, d) && next == c.(fe := Some(Patched(w, c.fe.value, d))))
  {
    hide FinalDecision, ReadyDesired, Patched, Deactivated, SyncPublishSpec, SyncUnpublishSpec, ShouldDelete, DoneFor, ArtifactKey, ArtifactName, Observes;
    hide PublishSettled, UnpublishSettled, ResolvePublish, ResolveUnpublish;
    DoneHasArtifact(w, c, fe);
    var artifact, cm := ArtifactNow(w, c, fe).value, ConfigMapAt(c, ArtifactName(w, fe)).value;
    var p, u := SyncPublishSpec(w, c, fe, artifact, cm).1, SyncUnpublishSpec(w, c, fe).1;
    DoneDecision(w, c, fe, latest);
    DoneIsSettled(w, c, fe);
    SyncsCreateNothing(w, c, fe, artifact, cm);
    var decision := FinalDecision(w, c, fe, latest);
    ReadyFields(w, fe, cm, artifact, decision.packageJob, p, u);
    assert DoneStatus(w, c, fe, ReadyDesired(w, fe, cm, artifact, decision.packageJob, p, u));
  }

  lemma SyncsOnlyAdd(w: World, c: Cluster, fe: Fe, artifact: PackageMetadata, cm: ConfigMap)
    ensures c.jobs.Keys <= SyncPublishSpec(w, c, fe, artifact, cm).0.jobs.Keys
    ensures c.jobs.Keys <= SyncUnpublishSpec(w, c, fe).0.jobs.Keys
    ensures !PublishSettled(w, c, fe, artifact) ==>
      var name := PublishName(w, ResolvePublish(fe, artifact).request.requestId);
      name !in c.jobs && name in SyncPublishSpec(w, c, fe, artifact, cm).0.jobs
  {
    hide ResolvePublish, ResolveUnpublish, PublishName, UnpublishName, PublishAlreadyFinished, UnpublishAlreadyFinished, ArtifactKey;
    hide PublishStatusOf, UnpublishStatusOf, RetainedPublish, StoredPublish, StoredUnpublish, PublishTaskOf, UnpublishTaskOf;
  }

  /** A reconcile that finds the artifact starts no Job exactly when the version it works from shows both requests settled. */
  lemma ReconcileStartsExactly(w: World, c: Cluster, fe: Fe, latest: Option<Attempt>)
    requires !fe.deleting && FinalDecision(w, c, fe, latest).SyncAndReady?
    ensures var next, artifact := ReconcileSpec(w, c, fe, latest).0, FinalDecision(w, c, fe, latest).metadata;
      && (next.jobs == c.jobs <==> PublishSettled(w, c, fe, artifact) && UnpublishSettled(w, c, fe))
      && (!PublishSettled(w, c, fe, artifact) ==> PublishName(w, ResolvePublish(fe, artifact).request.requestId) in next.jobs)
  {
    hide FinalDecision, ReadyDesired, Patched, SyncPublishSpec, SyncUnpublishSpec, ShouldDelete, ArtifactName, Observes, PublishName;
    hide PublishSettled, UnpublishSettled, ResolvePublish, ResolveUnpublish;
    var artifact, cm := FinalDecision(w, c, fe, latest).metadata, ConfigMapAt(c, ArtifactName(w, fe)).value;
    var p := SyncPublishSpec(w, c, fe, artifact, cm).0;
    SyncsOnlyAdd(w, c, fe, artifact, cm);
    SyncsOnlyAdd(w, p, fe, artifact, cm);
    SyncStartsExactly(w, c, fe, artifact, cm);
    if PublishSettled(w, c, fe, artifact) { PublishSyncLeaves(w, c, fe, artifact, cm); }
  }

  lemma PublishSyncLeaves(w: World, c: Cluster, fe: Fe, artifact: PackageMetadata, cm: ConfigMap)
    requires PublishSettled(w, c, fe, artifact)
    ensures SyncPublishSpec(w, c, fe, artifact, cm).0 == c
  {
    hide ResolvePublish, PublishName, PublishAlreadyFinished, ArtifactKey, PublishStatusOf, RetainedPublish, StoredPublish, PublishTaskOf;
  }

  // ----- The stored sections after a reconcile -----

  predicate FinishedFor(publish: Option<PublishStatus>, request: PublishRequest) {
    && publish.Some?
    && publish.value.requestId == Some(request.requestId)
    && publish.value.artifactDigest == Some(request.artifactDigest)
    && Terminal(publish.value.phase)
  }

  lemma SyncedPublishFinished(w: World, c: Cluster, fe: Fe, artifact: PackageMetadata, cm: ConfigMap)
    requires PublishDone(w, c, fe, artifact) && ResolvePublish(fe, artifact).Accepted?
    ensures FinishedFor(SyncPublishSpec(w, c, fe, artifact, cm).1, ResolvePublish(fe, artifact).request)
  {
    hide ResolvePublish, PublishName, PublishTaskOf, ArtifactKey, JobRef, StartTime, CompletionTime, JobError, HasTrueCondition;
  }

  lemma MergedFinished(stored: Option<PublishStatus>, publish: Option<PublishStatus>, unpublish: Option<UnpublishStatus>, request: PublishRequest)
    requires FinishedFor(publish, request)
    ensures FinishedFor(Deactivated(publish, unpublish), request)
    ensures FinishedFor(Some(MergePublish(stored, Deactivated(publish, unpublish).value)), request)
  {
    hide UnpublishedAfter, MergeRef;
  }

  lemma PublishStaysDone(w: World, c: Cluster, fe: Fe, live: Fe, d: FeStatus)
    requires DoneFor(w, c, fe) && SameIdentity(fe, live) && DoneStatus(w, c, fe, d)
    ensures PublishDone(w, c, Patched(w, live, d), ArtifactNow(w, c, fe).value)
  {
    hide Patched, ArtifactKey, ResolvePublish, PublishName, PublishTaskOf, SourceHash, ArtifactName, Deactivated, SyncPublishSpec, SyncUnpublishSpec;
    hide MergePublish, MergeUnpublish, MergePackageJob, Finished, ArtifactIn, UnpublishDone;
    var next, artifact, cm := Patched(w, live, d), ArtifactNow(w, c, fe).value, ConfigMapAt(c, ArtifactName(w, fe)).value;
    PatchedStatus(w, live, d);
    SameKey(w, fe, next);
    FrozenPublish(w, fe, next, artifact);
    if ResolvePublish(fe, artifact).Accepted? {
      SyncedPublishFinished(w, c, fe, artifact, cm);
      MergedFinished(StoredPublish(live), SyncPublishSpec(w, c, fe, artifact, cm).1, d.unpublish, ResolvePublish(fe, artifact).request);
    }
  }

  lemma UnpublishStaysDone(w: World, c: Cluster, fe: Fe, live: Fe, d: FeStatus)
    requires UnpublishDone(w, c, fe) && SameIdentity(fe, live) && d.unpublish == SyncUnpublishSpec(w, c, fe).1
    ensures UnpublishDone(w, c, Patched(w, live, d))
  {
    hide Patched, ResolveUnpublish, UnpublishName, UnpublishTaskOf, JobRef, StartTime, CompletionTime, JobError, MergePublish, MergePackageJob, MergeRef;
    var next := Patched(w, live, d);
    PatchedStatus(w, live, d);
    FrozenUnpublish(w, fe, next);
  }

  /** Being done depends on the Jobs and ConfigMaps of the cluster, and a Job that goes does not undo it. */
  lemma DoneWithFewerJobs(w: World, c: Cluster, next: Cluster, fe: Fe)
    requires DoneFor(w, c, fe) && NoNewJob(c, next) && next.configMaps == c.configMaps
    ensures DoneFor(w, next, fe) && ArtifactNow(w, next, fe) == ArtifactNow(w, c, fe)
  {
    hide ArtifactIn, ArtifactName, ArtifactKey, ResolvePublish, ResolveUnpublish, PublishAlreadyFinished, UnpublishAlreadyFinished, PublishName, UnpublishName, Finished;
  }

  lemma PatchedIsDone(w: World, c: Cluster, fe: Fe, live: Fe, d: FeStatus)
    requires DoneFor(w, c, fe) && SameIdentity(fe, live) && DoneStatus(w, c, fe, d)
    ensures DoneFor(w, c, Patched(w, live, d)) && SameIdentity(fe, Patched(w, live, d))
  {
    hide Patched, PublishDone, UnpublishDone, ArtifactIn, ArtifactName, ArtifactKey, SyncPublishSpec, SyncUnpublishSpec, Deactivated, MergeStatus;
    PatchedStatus(w, live, d);
    SameKey(w, fe, Patched(w, live, d));
    FrozenArtifact(w, fe, Patched(w, live, d), ConfigMapAt(c, ArtifactName(w, fe)));
    PublishStaysDone(w, c, fe, live, d);
    UnpublishStaysDone(w, c, fe, live, d);
  }

  // ----- Runs -----

  /** A version of the first one's identity for which cluster `c` is done. */
  ghost predicate DoneVersion(w: World, first: Option<Fe>, c: Cluster, version: Option<Fe>) {
    version.Some? ==> first.Some? && SameIdentity(first.value, version.value) && DoneFor(w, c, version.value)
  }

  lemma SameFirst(first: Fe, a: Fe, b: Fe)
    requires SameIdentity(first, a) && SameIdentity(first, b)
    ensures SameIdentity(a, b)
  {
  }

  lemma SameChain(first: Fe, a: Fe, b: Fe)
    requires SameIdentity(first, a) && SameIdentity(a, b)
    ensures SameIdentity(first, b)
  {
  }

  /** A reconcile from a done version keeps the stored object done, the Jobs and the ConfigMaps. */
  lemma ReconcileKeepsDone(w: World, first: Option<Fe>, c: Cluster, next: Cluster, version: Option<Fe>)
    requires DoneVersion(w, first, c, version) && DoneVersion(w, first, c, c.fe) && ReconcilesFrom(w, c, next, version)
    ensures next.jobs == c.jobs && next.configMaps == c.configMaps && DoneVersion(w, first, next, next.fe)
  {
    hide ReconcileSpec, Patched, DoneFor, IsLatest, DoneStatus, ArtifactKey, HashLabelValue, SameIdentity;
    if version.Some? && !version.value.deleting {
      var fe := version.value;
      var latest :| IsLatest(c.jobs, fe.uid, HashLabelValue(ArtifactKey(w, fe)), latest) && next == ReconcileSpec(w, c, fe, latest).0;
      DoneHasArtifact(w, c, fe);
      DoneReconcile(w, c, fe, latest);
      if next.fe.Some? && next != c {
        var d: FeStatus :| DoneStatus(w, c, fe, d) && next == c.(fe := Some(Patched(w, c.fe.value, d)));
        SameFirst(first.value, fe, c.fe.value);
        PatchedIsDone(w, c, fe, c.fe.value, d);
        SameChain(first.value, fe, next.fe.value);
        DoneWithFewerJobs(w, c, next, next.fe.value);
      }
    } else {
      DeletingLeaves(w, c, next, version);
    }
  }

  lemma DeletingLeaves(w: World, c: Cluster, next: Cluster, version: Option<Fe>)
    requires ReconcilesFrom(w, c, next, version) && (version.Some? ==> version.value.deleting)
    ensures next == c
  {
    hide IsLatest, ArtifactKey, HashLabelValue, ActSpec, FinalDecision;
  }

  /** One step of a run: what was done stays done, for every version there has been. */
  lemma DoneStep(w: World, cs: seq<Cluster>, i: nat, step: QuietStep)
    requires i + 1 < |cs| && QuietNext(w, cs, i, step)
    requires forall k :: 0 <= k <= i ==> DoneVersion(w, cs[0].fe, cs[i], cs[k].fe)
    ensures NoNewJob(cs[i], cs[i + 1]) && cs[i + 1].configMaps == cs[i].configMaps
    ensures forall k :: 0 <= k <= i + 1 ==> DoneVersion(w, cs[0].fe, cs[i + 1], cs[k].fe)
  {
    hide ReconcilesFrom, DoneFor, SameIdentity, Finished;
    var first, c, next := cs[0].fe, cs[i], cs[i + 1];
    if step.ReconcileFrom? {
      ReconcileKeepsDone(w, first, c, next, cs[step.version].fe);
    }
    forall k | 0 <= k <= i + 1 ensures DoneVersion(w, first, next, cs[k].fe) {
      var version := if k <= i then cs[k].fe else cs[i].fe;
      assert DoneVersion(w, first, c, version);
      if version.Some? { DoneWithFewerJobs(w, c, next, version.value); }
    }
  }

  lemma {:induction false} AlwaysDone(w: World, cs: seq<Cluster>, steps: seq<QuietStep>, i: nat)
    requires QuietRun(w, cs, steps) && Done(w, cs[0]) && i < |cs|
    ensures NoNewJob(cs[0], cs[i])
    ensures forall k :: 0 <= k <= i ==> DoneVersion(w, cs[0].fe, cs[i], cs[k].fe)
  {
    hide QuietNext, DoneFor;
    if i > 0 {
      AlwaysDone(w, cs, steps, i - 1);
      DoneStep(w, cs, i - 1, steps[i - 1]);
    }
  }

  /**
   Once an extension is done, no run of TTL deletions and of reconciles from any
   versions since then creates another Job.
   */
  lemma DoneStaysDone(w: World, cs: seq<Cluster>, steps: seq<QuietStep>, i: nat)
    requires QuietRun(w, cs, steps) && Done(w, cs[0]) && i < |cs|
    ensures Done(w, cs[i]) && NoNewJob(cs[0], cs[i])
  {
    hide QuietRun, DoneFor, SameIdentity, NoNewJob;
    AlwaysDone(w, cs, steps, i);
    assert DoneVersion(w, cs[0].fe, cs[i], cs[i].fe);
  }

  // ----- A withdrawn publish stays withdrawn -----

  /** If the publish Job is alive and has succeeded, it did so no later than the unpublish. */
  predicate NotBeforePublishJob(w: World, c: Cluster, r: PublishOutcome, unpublish: UnpublishStatus) {
    r.Accepted? ==>
      var j := LiveJob(c, PublishName(w, r.request.requestId));
      j.Some? && ObservedPhase(j.value.status).JobSucceeded? ==> UnpublishedAfter(PublishStatusOf(r.request, j.value), unpublish)
  }

  /**
   The publish is not active, a later unpublish has succeeded, and Jobs still alive
   agree: the unpublish Job succeeded, after the publish Job did.
   */
  predicate Withdrawn(w: World, c: Cluster, fe: Fe, artifact: PackageMetadata) {
    var r, s := ResolvePublish(fe, artifact), ResolveUnpublish(w, fe);
    var p, u := StoredPublish(fe), StoredUnpublish(fe);
    && (p.Some? ==> !p.value.active)
    && u.Some? && u.value.phase.PublishSucceeded?
    && !s.RejectedUnpublish?
    && var k := if s.AcceptedUnpublish? then LiveJob(c, UnpublishName(w, s.request.requestId)) else None;
    && (k.Some? ==> ObservedPhase(k.value.status).JobSucceeded? && CompletionTime(k.value).Some?)
    && NotBeforePublishJob(w, c, r, u.value)
    && (k.Some? ==> NotBeforePublishJob(w, c, r, UnpublishStatusOf(s.request, k.value)))
  }

  predicate WithdrawnFor(w: World, c: Cluster, fe: Fe) {
    ArtifactNow(w, c, fe).Some? && Withdrawn(w, c, fe, ArtifactNow(w, c, fe).value)
  }

  predicate WithdrawnNow(w: World, c: Cluster) {
    c.fe.Some? ==> WithdrawnFor(w, c, c.fe.value)
  }

  /** The synced unpublish status still says succeeded, at a time the live publish Job does not exceed. */
  lemma SyncedUnpublish(w: World, c: Cluster, fe: Fe, artifact: PackageMetadata)
    requires Withdrawn(w, c, fe, artifact) && UnpublishSettled(w, c, fe)
    ensures var r, u := ResolvePublish(fe, artifact), SyncUnpublishSpec(w, c, fe).1;
      u.Some? && u.value.phase.PublishSucceeded? && NotBeforePublishJob(w, c, r, u.value)
  {
    hide ResolvePublish, ResolveUnpublish, PublishName, UnpublishName, NotBeforePublishJob, ObservedPhase;
  }

  lemma SyncedPublishInactive(w: World, c: Cluster, fe: Fe, artifact: PackageMetadata, cm: ConfigMap)
    requires Withdrawn(w, c, fe, artifact) && PublishSettled(w, c, fe, artifact) && UnpublishSettled(w, c, fe)
    ensures var p := Deactivated(SyncPublishSpec(w, c, fe, artifact, cm).1, SyncUnpublishSpec(w, c, fe).1);
      p.Some? ==> !p.value.active
  {
    hide ResolvePublish, ResolveUnpublish, PublishName, UnpublishedAfter, SyncUnpublishSpec, JobRef, StartTime, CompletionTime, JobError, ArtifactKey, UnpublishSettled;
    SyncedUnpublish(w, c, fe, artifact);
    RejectedIsInactive(fe, artifact);
  }

  lemma RejectedIsInactive(fe: Fe, artifact: PackageMetadata)
    ensures var r := ResolvePublish(fe, artifact); r.RejectedRequest? ==> !r.status.active
  {
  }

  function TimeOf(unpublish: UnpublishStatus): Option<int> {
    EffectiveTime(unpublish.finishedAt, unpublish.startedAt)
  }

  /** Merging an unpublish status gives it the time of one of the two. */
  lemma MergedTime(stored: UnpublishStatus, u: UnpublishStatus)
    ensures var m := MergeUnpublish(Some(stored), u); m.phase == u.phase && (TimeOf(m) == TimeOf(u) || TimeOf(m) == TimeOf(stored))
  {
    hide MergeRef;
  }

  lemma SameTime(w: World, c: Cluster, r: PublishOutcome, u: UnpublishStatus, m: UnpublishStatus)
    requires NotBeforePublishJob(w, c, r, u) && TimeOf(m) == TimeOf(u)
    ensures NotBeforePublishJob(w, c, r, m)
  {
    hide PublishName, PublishStatusOf, ObservedPhase;
  }

  lemma MergedUnpublish(w: World, c: Cluster, r: PublishOutcome, stored: UnpublishStatus, u: UnpublishStatus)
    requires NotBeforePublishJob(w, c, r, stored) && NotBeforePublishJob(w, c, r, u)
    ensures NotBeforePublishJob(w, c, r, MergeUnpublish(Some(stored), u))
  {
    hide NotBeforePublishJob, TimeOf, MergeUnpublish;
    var m := MergeUnpublish(Some(stored), u);
    MergedTime(stored, u);
    if TimeOf(m) == TimeOf(u) { SameTime(w, c, r, u, m); } else { SameTime(w, c, r, stored, m); }
  }

  /** What a patch with `d` stores in the two sections. */
  lemma PatchedSections(w: World, live: Fe, d: FeStatus)
    requires d.unpublish.Some? && StoredUnpublish(live).Some?
    ensures var next := Patched(w, live, d);
      && (StoredPublish(next).Some? ==> d.publish.Some? && StoredPublish(next).value.active == d.publish.value.active)
      && StoredUnpublish(next) == Some(MergeUnpublish(StoredUnpublish(live), d.unpublish.value))
  {
    hide Patched, MergeUnpublish, MergePackageJob, MergeRef;
    PatchedStatus(w, live, d);
  }

  lemma WithdrawnKept(w: World, c: Cluster, fe: Fe, live: Fe, d: FeStatus)
    requires DoneFor(w, c, fe) && SameIdentity(fe, live) && DoneStatus(w, c, fe, d)
    requires WithdrawnFor(w, c, fe) && WithdrawnFor(w, c, live)
    ensures WithdrawnFor(w, c, Patched(w, live, d))
  {
    hide Patched, ResolvePublish, ResolveUnpublish, PublishName, UnpublishName, MergeUnpublish, SyncPublishSpec, SyncUnpublishSpec, Deactivated, DoneFor;
    hide PublishSettled, UnpublishSettled, ObservedPhase, CompletionTime, NotBeforePublishJob, ArtifactIn, ArtifactName, ArtifactKey;
    hide StoredPublish, StoredUnpublish, UnpublishStatusOf, Observes;
    var next, artifact, cm := Patched(w, live, d), ArtifactNow(w, c, fe).value, ConfigMapAt(c, ArtifactName(w, fe)).value;
    PatchedStatus(w, live, d);
    SameAnswers(w, c, fe, live, artifact);
    SameChain(fe, live, next);
    SameAnswers(w, c, fe, next, artifact);
    DoneIsSettled(w, c, fe);
    SyncedPublishInactive(w, c, fe, artifact, cm);
    SyncedUnpublish(w, c, fe, artifact);
    PatchedSections(w, live, d);
    MergedTime(StoredUnpublish(live).value, d.unpublish.value);
    MergedUnpublish(w, c, ResolvePublish(fe, artifact), StoredUnpublish(live).value, d.unpublish.value);
  }

  /** Versions of one identity ask for the same and have the same artifact. */
  lemma SameAnswers(w: World, c: Cluster, fe: Fe, next: Fe, artifact: PackageMetadata)
    requires SameIdentity(fe, next)
    ensures ResolvePublish(next, artifact) == ResolvePublish(fe, artifact) && ResolveUnpublish(w, next) == ResolveUnpublish(w, fe)
    ensures ArtifactNow(w, c, next) == ArtifactNow(w, c, fe)
  {
    hide ResolvePublish, ResolveUnpublish, ArtifactIn, ArtifactName, ArtifactKey;
    FrozenPublish(w, fe, next, artifact);
    FrozenUnpublish(w, fe, next);
    SameKey(w, fe, next);
    FrozenArtifact(w, fe, next, ConfigMapAt(c, ArtifactName(w, fe)));
  }

  lemma WithdrawnWithFewerJobs(w: World, c: Cluster, next: Cluster, fe: Fe)
    requires WithdrawnFor(w, c, fe) && NoNewJob(c, next) && next.configMaps == c.configMaps
    ensures WithdrawnFor(w, next, fe)
  {
    hide ArtifactIn, ArtifactName, ResolvePublish, ResolveUnpublish, UnpublishedAfter, PublishName, UnpublishName, ObservedPhase, StoredPublish, StoredUnpublish;
    hide PublishStatusOf, UnpublishStatusOf, CompletionTime;
  }

  ghost predicate WithdrawnVersion(w: World, c: Cluster, version: Option<Fe>) {
    version.Some? ==> WithdrawnFor(w, c, version.value)
  }

  lemma ReconcileKeepsWithdrawn(w: World, first: Option<Fe>, c: Cluster, next: Cluster, version: Option<Fe>)
    requires DoneVersion(w, first, c, version) && DoneVersion(w, first, c, c.fe) && ReconcilesFrom(w, c, next, version)
    requires WithdrawnVersion(w, c, version) && WithdrawnVersion(w, c, c.fe)
    ensures WithdrawnVersion(w, next, next.fe)
  {
    hide ReconcileSpec, Patched, DoneFor, WithdrawnFor, IsLatest, DoneStatus, ArtifactKey, HashLabelValue, SameIdentity;
    ReconcileKeepsDone(w, first, c, next, version);
    if version.Some? && !version.value.deleting {
      var fe := version.value;
      var latest :| IsLatest(c.jobs, fe.uid, HashLabelValue(ArtifactKey(w, fe)), latest) && next == ReconcileSpec(w, c, fe, latest).0;
      DoneHasArtifact(w, c, fe);
      DoneReconcile(w, c, fe, latest);
      if next.fe.Some? && next != c {
        var d: FeStatus :| DoneStatus(w, c, fe, d) && next == c.(fe := Some(Patched(w, c.fe.value, d)));
        SameFirst(first.value, fe, c.fe.value);
        WithdrawnKept(w, c, fe, c.fe.value, d);
        WithdrawnWithFewerJobs(w, c, next, next.fe.value);
      }
    } else {
      DeletingLeaves(w, c, next, version);
    }
  }

  /** One step of a run never makes a withdrawn publish active again. */
  lemma WithdrawnStep(w: World, cs: seq<Cluster>, i: nat, step: QuietStep)
    requires i + 1 < |cs| && QuietNext(w, cs, i, step)
    requires forall k :: 0 <= k <= i ==> DoneVersion(w, cs[0].fe, cs[i], cs[k].fe)
    requires forall k :: 0 <= k <= i ==> WithdrawnVersion(w, cs[i], cs[k].fe)
    ensures forall k :: 0 <= k <= i + 1 ==> WithdrawnVersion(w, cs[i + 1], cs[k].fe)
  {
    hide ReconcilesFrom, DoneVersion, WithdrawnFor, Finished, NoNewJob;
    var c, next := cs[i], cs[i + 1];
    DoneStep(w, cs, i, step);
    if step.ReconcileFrom? {
      ReconcileKeepsWithdrawn(w, cs[0].fe, c, next, cs[step.version].fe);
    }
    forall k | 0 <= k <= i + 1 ensures WithdrawnVersion(w, next, cs[k].fe) {
      var version := if k <= i then cs[k].fe else cs[i].fe;
      assert WithdrawnVersion(w, c, version);
      if version.Some? { WithdrawnWithFewerJobs(w, c, next, version.value); }
    }
  }

  lemma {:induction false} AlwaysWithdrawn(w: World, cs: seq<Cluster>, steps: seq<QuietStep>, i: nat)
    requires QuietRun(w, cs, steps) && Done(w, cs[0]) && WithdrawnNow(w, cs[0]) && i < |cs|
    ensures forall k :: 0 <= k <= i ==> WithdrawnVersion(w, cs[i], cs[k].fe)
  {
    hide Done, QuietNext, DoneVersion, NoNewJob, WithdrawnFor;
    if i > 0 {
      AlwaysWithdrawn(w, cs, steps, i - 1);
      AlwaysDone(w, cs, steps, i - 1);
      WithdrawnStep(w, cs, i - 1, steps[i - 1]);
    }
  }

  /** Over any such run, a publish whose active flag a later unpublish cleared stays inactive. */
  lemma WithdrawnStaysWithdrawn(w: World, cs: seq<Cluster>, steps: seq<QuietStep>, i: nat)
    requires QuietRun(w, cs, steps) && Done(w, cs[0]) && WithdrawnNow(w, cs[0]) && i < |cs|
    ensures WithdrawnNow(w, cs[i])
    ensures cs[i].fe.Some? && StoredPublish(cs[i].fe.value).Some? ==> !StoredPublish(cs[i].fe.value).value.active
  {
    hide Done, QuietRun, NoNewJob, WithdrawnFor, StoredPublish;
    AlwaysWithdrawn(w, cs, steps, i);
    assert WithdrawnVersion(w, cs[i], cs[i].fe);
    if cs[i].fe.Some? && StoredPublish(cs[i].fe.value).Some? { WithdrawnIsInactive(w, cs[i]); }
  }

  /** A withdrawn extension has no active publish. */
  lemma WithdrawnIsInactive(w: World, c: Cluster)
    requires WithdrawnNow(w, c) && c.fe.Some? && StoredPublish(c.fe.value).Some?
    ensures !StoredPublish(c.fe.value).value.active
  {
    hide ArtifactNow, ResolvePublish, ResolveUnpublish;
  }
}
