/**
 What the status, the conditions and the labels that a reconcile writes say, in the
 words they are written with.
 */
module FeMeaning {
  import opened Prelude
  import opened Names
  import opened FeTypes
  import opened FeStatusRules
  import opened FeReconcile
  import opened FeStable

  // ----- Labels -----

  ghost predicate IsPublished(p: PublishStatus) {
    p.phase == PublishSucceeded && p.active
  }

  ghost predicate IsPublishing(p: PublishStatus) {
    p.phase == PublishPending || p.phase == PublishRunning
  }

  /** What the three labels of a stored object with a status say. */
  lemma LabelsSay(fe: Fe)
    requires LabelsAgree(fe)
    ensures LABEL_PACKAGE_STATUS in fe.labels && LABEL_PUBLISH_STATUS in fe.labels && LABEL_PUBLISH_FRESH in fe.labels
    ensures var phase, said := fe.status.value.phase, fe.labels[LABEL_PACKAGE_STATUS];
      said == if phase == PhaseReady then "ready" else if phase == PhaseFailed then "failed" else "packaging"
    ensures var said := fe.labels[LABEL_PUBLISH_STATUS];
      && (said == "published" <==> exists p :: Records(fe, p) && IsPublished(p))
      && (said == "publishing" <==> exists p :: Records(fe, p) && IsPublishing(p))
      && (said == "failed" <==> exists p :: Records(fe, p) && p.phase == PublishFailed)
      && said in {"published", "publishing", "failed", "not-published"}
    ensures var said := fe.labels[LABEL_PUBLISH_FRESH];
      && said in {"true", "false"}
      && (said == "true" <==> exists p, a :: Records(fe, p) && IsPublished(p) && fe.status.value.artifact == Some(a) && p.artifactDigest == Some(a.digest))
  {
    var st := fe.status.value;
    LabelValues(st);
    hide PublishStateLabel, PublishFreshLabel, PackageStateLabel, StatusLabels;
    assert LABEL_PACKAGE_STATUS in StatusLabels(st) && LABEL_PUBLISH_STATUS in StatusLabels(st) && LABEL_PUBLISH_FRESH in StatusLabels(st);
    PackageStateSays(st.phase);
    if st.publish.Some? {
      assert Records(fe, st.publish.value);
    }
    PublishStateSays(st);
  }

  lemma LabelValues(st: FeStatus)
    ensures var l := StatusLabels(st);
      && LABEL_PACKAGE_STATUS in l && l[LABEL_PACKAGE_STATUS] == PackageStateLabel(st.phase)
      && LABEL_PUBLISH_STATUS in l && l[LABEL_PUBLISH_STATUS] == PublishStateLabel(st.publish)
      && LABEL_PUBLISH_FRESH in l && l[LABEL_PUBLISH_FRESH] == PublishFreshLabel(st)
  {
    hide PackageStateLabel, PublishStateLabel, PublishFreshLabel;
    assert |LABEL_PACKAGE_STATUS| == |LABEL_PUBLISH_STATUS| == |LABEL_PUBLISH_FRESH|;
    var n := |"frontend-forge.kubesphere.io/p"|;
    assert LABEL_PACKAGE_STATUS[n] == 'a' && LABEL_PUBLISH_STATUS[n] == 'u' && LABEL_PUBLISH_FRESH[n] == 'u';
    var m := |"frontend-forge.kubesphere.io/publish-"|;
    assert LABEL_PUBLISH_STATUS[m] == 's' && LABEL_PUBLISH_FRESH[m] == 'f';
  }

  lemma PackageStateSays(phase: FePhase)
    ensures PackageStateLabel(phase) == if phase == PhaseReady then "ready" else if phase == PhaseFailed then "failed" else "packaging"
  {
  }

  lemma PublishStateSays(st: FeStatus)
    ensures var said := PublishStateLabel(st.publish);
      && (said == "published" <==> st.publish.Some? && IsPublished(st.publish.value))
      && (said == "publishing" <==> st.publish.Some? && IsPublishing(st.publish.value))
      && (said == "failed" <==> st.publish.Some? && st.publish.value.phase == PublishFailed)
      && said in {"published", "publishing", "failed", "not-published"}
    ensures var said := PublishFreshLabel(st);
      && said in {"true", "false"}
      && (said == "true" <==> st.publish.Some? && IsPublished(st.publish.value) && st.artifact.Some? && st.publish.value.artifactDigest == Some(st.artifact.value.digest))
  {
    assert |"published"| == 9 && |"publishing"| == 10 && |"failed"| == 6 && |"not-published"| == 13;
    assert |"true"| == 4 && |"false"| == 5;
  }

  // ----- Conditions -----

  /** One condition of a status written for `fe`. */
  ghost predicate Says(c: Condition, kind: string, truth: bool, reason: string, message: string, fe: Fe) {
    && c.kind == kind && c.status == (if truth then "True" else "False") && c.reason == reason
    && c.message == (if message == "" then None else Some(message)) && c.observedGeneration == Some(fe.generation)
  }

  /** The last condition tells whether the publish section `p` has succeeded, has failed, or neither. */
  ghost predicate SaysPublish(c: Condition, publish: Option<PublishStatus>, fe: Fe) {
    if publish.Some? && publish.value.phase == PublishSucceeded then Says(c, "PublishSucceeded", true, "Succeeded", "", fe)
    else if publish.Some? && publish.value.phase == PublishFailed then
      Says(c, "PublishSucceeded", false, "PublishFailed", publish.value.lastError.UnwrapOr(""), fe)
    else Says(c, "PublishSucceeded", false, "NotRequested", "", fe)
  }

  ghost predicate SaysAll(
    st: FeStatus, fe: Fe, valid: bool, validReason: string, ready: bool, readyReason: string, downloadReason: string, message: string)
  {
    && |st.conditions| == 4
    && Says(st.conditions[0], "SourceValid", valid, validReason, if valid && validReason == "Validated" then "" else message, fe)
    && Says(st.conditions[1], "ArtifactReady", ready, readyReason, message, fe)
    && Says(st.conditions[2], "DownloadReady", ready, downloadReason, message, fe)
    && SaysPublish(st.conditions[3], st.publish, fe)
  }

  /** The phase and the conditions that a reconcile writes, by what it decided. */
  lemma ConditionsSay(w: World, c: Cluster, fe: Fe, decision: Decision, cm: Option<ConfigMap>)
    requires (decision.SyncAndReady? ==> cm.Some?) && !decision.CheckAgain?
    ensures var st := DesiredFor(w, c, fe, decision, cm);
      match decision
      case WriteInvalid =>
        st.phase == PhaseFailed && SaysAll(st, fe, false, "InvalidSource", false, "InvalidSource", "ArtifactNotReady", w.invalidMessage(fe.source))
      case SyncAndReady(_, _) => st.phase == PhaseReady && SaysAll(st, fe, true, "Validated", true, "Generated", "Available", "")
      case WriteInProgress(_) =>
        st.phase == PhasePackaging && SaysAll(st, fe, true, "Validated", false, "Packaging", "ArtifactNotReady", "Package job in progress")
      case WriteExceeded(_, message) =>
        && st.phase == PhaseFailed
        && SaysAll(st, fe, true, "PackageAttemptsExceeded", false, "PackageAttemptsExceeded", "ArtifactNotReady", message)
      case CreateAttempt(_) =>
        st.phase == PhasePackaging && SaysAll(st, fe, true, "Validated", false, "Packaging", "ArtifactNotReady", "Package job created")
  {
    hide PackagingStatus, FailedStatus, CreateOrGet, PackageTaskOf, ReadyDesired, SaysAll;
    match decision
    case WriteInvalid => FailedSays(w, fe, None, "InvalidSource", w.invalidMessage(fe.source));
    case SyncAndReady(artifact, packageJob) =>
      var p := SyncPublishSpec(w, c, fe, artifact, cm.value);
      ReadyConditions(w, fe, cm.value, artifact, packageJob, p.1, SyncUnpublishSpec(w, p.0, fe).1);
    case WriteInProgress(job) => PackagingSays(w, fe, job, "Package job in progress");
    case WriteExceeded(job, message) => FailedSays(w, fe, job, "PackageAttemptsExceeded", message);
    case CreateAttempt(number) =>
      var job := CreateOrGet(w, c, PackageJobName(w.feName, ArtifactKey(w, fe), number), PackageTaskOf(w, fe)).1;
      PackagingSays(w, fe, job, "Package job created");
  }

  lemma PackagingSays(w: World, fe: Fe, job: Job, message: string)
    ensures var st := PackagingStatus(w, fe, job, message);
      st.phase == PhasePackaging && SaysAll(st, fe, true, "Validated", false, "Packaging", "ArtifactNotReady", message)
  {
    hide SourceHash, RebuildToken, NotReadyPublish, PackageJobOf, StoredUnpublish, PublishCondition, SaysPublish;
    PublishConditionSays(NotReadyPublish(w, fe), fe);
  }

  lemma FailedSays(w: World, fe: Fe, job: Option<Job>, reason: string, message: string)
    requires reason != "Validated"
    ensures var st := FailedStatus(w, fe, job, reason, message);
      st.phase == PhaseFailed && SaysAll(st, fe, reason != "InvalidSource", reason, false, reason, "ArtifactNotReady", message)
  {
    hide SourceHash, RebuildToken, NotReadyPublish, PackageJobOf, StoredUnpublish, PublishCondition, SaysPublish;
    PublishConditionSays(NotReadyPublish(w, fe), fe);
  }

  lemma PublishConditionSays(publish: Option<PublishStatus>, fe: Fe)
    ensures SaysPublish(PublishCondition(publish, fe.generation), publish, fe)
  {
  }

  lemma ReadyConditions(
    w: World, fe: Fe, cm: ConfigMap, artifact: PackageMetadata, packageJob: Option<PackageJobStatus>,
    publish: Option<PublishStatus>, unpublish: Option<UnpublishStatus>)
    ensures var st := ReadyDesired(w, fe, cm, artifact, packageJob, publish, unpublish);
      st.phase == PhaseReady && SaysAll(st, fe, true, "Validated", true, "Generated", "Available", "")
  {
    hide ReadyDesired, SourceHash, ArtifactKey, RebuildToken, Deactivated, PublishCondition, SaysPublish;
    ReadyInFull(w, fe, cm, artifact, packageJob, publish, unpublish);
    ConditionIgnoresActive(publish, unpublish, fe.generation);
    PublishConditionSays(Deactivated(publish, unpublish), fe);
  }

  // ----- The Ready status -----

  /** The artifact and the download are those of the ConfigMap and the metadata that were read. */
  lemma ReadySays(
    w: World, fe: Fe, cm: ConfigMap, artifact: PackageMetadata, packageJob: Option<PackageJobStatus>,
    publish: Option<PublishStatus>, unpublish: Option<UnpublishStatus>)
    ensures var st := ReadyDesired(w, fe, cm, artifact, packageJob, publish, unpublish);
      && st.artifact.Some? && st.download.Some? && st.packageJob == packageJob && st.unpublish == unpublish
      && var a, d := st.artifact.value, st.download.value;
      && a.refNamespace == cm.namespace && a.refName == cm.name && a.refUid == cm.uid && a.key == "package.tgz"
      && a.digest == artifact.digest && a.sizeBytes == artifact.sizeBytes && a.mediaType == artifact.mediaType && a.filename == artifact.filename
      && a.generatedAt == artifact.generatedAt && a.sourceHash == artifact.sourceHash
      && d.ready && d.filename == artifact.filename && d.mediaType == artifact.mediaType
  {
    hide ReadyDesired, SourceHash, ArtifactKey, RebuildToken, Deactivated, PublishCondition;
    ReadyInFull(w, fe, cm, artifact, packageJob, publish, unpublish);
  }

  /** When something with these two times happened: when it finished, or else when it started. */
  ghost predicate HappenedAt(finishedAt: Option<int>, startedAt: Option<int>, t: int) {
    finishedAt == Some(t) || (finishedAt.None? && startedAt == Some(t))
  }

  /** The unpublish has succeeded, no earlier than the publish happened. */
  ghost predicate Withdraws(u: UnpublishStatus, p: PublishStatus) {
    && u.phase == PublishSucceeded
    && exists t, v :: HappenedAt(p.finishedAt, p.startedAt, t) && HappenedAt(u.finishedAt, u.startedAt, v) && v >= t
  }

  /** A succeeded unpublish, no earlier than the publish, makes it inactive, and nothing else does. */
  lemma UnpublishDeactivates(
    w: World, fe: Fe, cm: ConfigMap, artifact: PackageMetadata, packageJob: Option<PackageJobStatus>,
    publish: Option<PublishStatus>, unpublish: Option<UnpublishStatus>)
    ensures var st := ReadyDesired(w, fe, cm, artifact, packageJob, publish, unpublish);
      && (publish.None? ==> st.publish.None?)
      && (publish.Some? ==>
          && st.publish.Some? && st.publish.value == publish.value.(active := st.publish.value.active)
          && (st.publish.value.active <==> publish.value.active && !(unpublish.Some? && Withdraws(unpublish.value, publish.value))))
  {
    hide ReadyDesired, SourceHash, ArtifactKey, RebuildToken, PublishCondition;
    ReadyInFull(w, fe, cm, artifact, packageJob, publish, unpublish);
    if publish.Some? && unpublish.Some? { LaterMeans(publish.value, unpublish.value); }
    hide UnpublishedAfter;
  }

  lemma LaterMeans(p: PublishStatus, u: UnpublishStatus)
    ensures u.phase == PublishSucceeded ==> (UnpublishedAfter(p, u) <==> Withdraws(u, p))
  {
    if UnpublishedAfter(p, u) {
      assert HappenedAt(p.finishedAt, p.startedAt, EffectiveTime(p.finishedAt, p.startedAt).value);
      assert HappenedAt(u.finishedAt, u.startedAt, EffectiveTime(u.finishedAt, u.startedAt).value);
    }
  }

  // ----- A status without an artifact -----

  /** It offers no download and shows the Job waited for; a pending request shows before a publish that is kept. */
  lemma NotReadySays(w: World, c: Cluster, fe: Fe, decision: Decision, cm: Option<ConfigMap>)
    requires !decision.SyncAndReady? && !decision.CheckAgain?
    ensures var st := DesiredFor(w, c, fe, decision, cm);
      && st.artifact.None? && st.download.Some? && !st.download.value.ready
      && st.unpublish == (if fe.status.Some? then fe.status.value.unpublish else None)
      && (PendingPublish(w, fe).Some? ==> st.publish == PendingPublish(w, fe))
      && (PendingPublish(w, fe).None? ==> st.publish == RetainedPublish(fe, ArtifactKey(w, fe)))
      && (decision.WriteInProgress? ==> st.packageJob == Some(PackageJobOf(decision.job)))
      && (decision.WriteExceeded? && decision.latestJob.Some? ==> st.packageJob == Some(PackageJobOf(decision.latestJob.value)))
      && (decision.WriteInvalid? ==> st.packageJob.None?)
  {
    hide SourceHash, ArtifactKey, RebuildToken, PendingPublish, RetainedPublish, PackageJobOf, CreateOrGet, PackageTaskOf, PublishCondition;
  }
}
