/**
 The limit of `FeTerminal.DoneStaysDone`: a reconcile from a version older than the
 terminal status publishes again, once the Job that did it has been collected.
 */
module FeStaleVersion {
  import opened Prelude
  import opened Names
  import opened FeTypes
  import opened FeStatusRules
  import opened FeReconcile
  import opened FeStable
  import opened FeTerminal
  import FeApi

  /** A publish request as the API writes it, for generation 1 of the source. */
  function Request(w: World, source: Source): FeApi.ResolvedPublish {
    FeApi.ResolvedPublish("r", None, 1, w.sourceHash(source), PublishTarget("ConfigMap", "n", "t"))
  }

  /** The extension when the request has just been written. */
  function Before(w: World, source: Source): Fe {
    FeApi.WithPublish(Fe("u", 1, false, source, None, None, map[], map[], None), Request(w, source))
  }

  function Metadata(w: World, source: Source): PackageMetadata {
    PackageMetadata(w.digest([]), w.sourceHash(source), "", "", 0, 0)
  }

  function Artifact(w: World, source: Source): ConfigMap {
    var fe := Before(w, source);
    ConfigMap(
      "", ArtifactName(w, fe), None, 0,
      map[ANNO_SOURCE_HASH := SourceHash(w, fe), ANNO_ARTIFACT_KEY := ArtifactKey(w, fe), ANNO_ARTIFACT_DIGEST := w.digest([])],
      Some(Metadata(w, source)), Some([]))
  }

  /** The extension after the publish has succeeded. */
  function After(w: World, source: Source): Fe {
    var fe := Before(w, source);
    fe.(status := Some(FeStatus(
      PhaseReady, Some(1), Some(SourceHash(w, fe)), Some(RebuildToken(fe)),
      Some(ArtifactStatus("", ArtifactName(w, fe), None, PACKAGE_KEY, w.digest([]), 0, "", "", 0, SourceHash(w, fe), Some(ArtifactKey(w, fe)))),
      Some(DownloadStatus(true, "", "")), None,
      Some(NO_PUBLISH.(phase := PublishSucceeded, active := true, requestId := Some("r"), artifactDigest := Some(w.digest([])))), None, [])))
  }

  /** The cluster when the publish Job has been collected. */
  function Collected(w: World, source: Source): Cluster {
    Cluster(Some(After(w, source)), map[], map[ArtifactName(w, Before(w, source)) := Artifact(w, source)], 0)
  }

  lemma ArtifactKeysAreDistinct()
    ensures |ANNO_SOURCE_HASH| < |ANNO_ARTIFACT_KEY| < |ANNO_ARTIFACT_DIGEST|
  {
  }

  lemma ArtifactIsValid(w: World, source: Source)
    ensures ArtifactNow(w, Collected(w, source), Before(w, source)) == Some(Metadata(w, source))
  {
    hide ArtifactKey, ArtifactName, RebuildToken, FeApi.WithPublish;
    ArtifactKeysAreDistinct();
    SourceStays(w, source);
  }

  lemma SourceStays(w: World, source: Source)
    ensures Before(w, source).source == source && SourceHash(w, Before(w, source)) == w.sourceHash(source)
    ensures Before(w, source).generation == 1 && !Before(w, source).deleting && Before(w, source).status == None
    ensures SameIdentity(After(w, source), Before(w, source)) && SameIdentity(Before(w, source), After(w, source))
  {
    hide FeApi.PublishPatch, ArtifactKey, RebuildToken, ArtifactName;
  }

  lemma RequestIsAccepted(w: World, source: Source)
    requires w.sourceHash(source) != ""
    ensures ResolvePublish(Before(w, source), Metadata(w, source)) == Accepted(PublishRequest("r", w.digest([]), PublishTarget("ConfigMap", "n", "t")))
    ensures ResolveUnpublish(w, Before(w, source)) == NoUnpublish
  {
    hide ResolvePublish;
    FeApi.WrittenIsCarried(Fe("u", 1, false, source, None, None, map[], map[], None), Request(w, source));
    FeApi.RequestIsHonouredExactly(Before(w, source), Request(w, source), Metadata(w, source));
    SourceStays(w, source);
    NoUnpublishAsked(w, source);
  }

  lemma NoUnpublishAsked(w: World, source: Source)
    ensures ANNO_UNPUBLISH_REQUEST_ID !in Before(w, source).annotations
  {
    var n := |"frontend-forge.kubesphere.io/"|;
    forall k | k in Before(w, source).annotations ensures |k| > n && k[n] == 'p' {}
    assert ANNO_UNPUBLISH_REQUEST_ID[n] == 'u';
  }

  /**
   The publish is done and stays done from the stored version; from the version
   before the status was written, the very next reconcile starts a Job for the
   same request again.
   */
  lemma OldVersionPublishesAgain(w: World, source: Source)
    requires w.valid(source) && w.sourceHash(source) != ""
    ensures var c, stale := Collected(w, source), Before(w, source);
      && Done(w, c) && SameIdentity(c.fe.value, stale) && c.jobs == map[]
      && PublishName(w, "r") in ReconcileSpec(w, c, stale, None).0.jobs
      && ReconcileSpec(w, c, c.fe.value, None).0.jobs == map[]
  {
    hide Before, After, Artifact, Metadata, ReconcileSpec, PublishName, ArtifactKey, ArtifactName, ResolvePublish, ResolveUnpublish;
    var c, fe := Collected(w, source), Before(w, source);
    SourceStays(w, source);
    ArtifactIsValid(w, source);
    RequestIsAccepted(w, source);
    AfterIsDone(w, source);
    BeforeRestarts(w, source);
    DoneDecision(w, c, c.fe.value, None);
    DoneIsSettled(w, c, c.fe.value);
    ReconcileStartsExactly(w, c, c.fe.value, None);
    ReconcileStartsExactly(w, c, fe, None);
  }

  lemma AfterIsDone(w: World, source: Source)
    requires w.valid(source) && w.sourceHash(source) != ""
    ensures DoneFor(w, Collected(w, source), After(w, source)) && !After(w, source).deleting
  {
    hide Before, Artifact, Metadata, ArtifactKey, ArtifactName, ResolvePublish, ResolveUnpublish, ArtifactIn;
    var c, fe, next := Collected(w, source), Before(w, source), After(w, source);
    SourceStays(w, source);
    ArtifactIsValid(w, source);
    RequestIsAccepted(w, source);
    SameAnswers(w, c, fe, next, Metadata(w, source));
    SameKey(w, fe, next);
  }

  lemma BeforeRestarts(w: World, source: Source)
    requires w.valid(source) && w.sourceHash(source) != ""
    ensures var c, fe := Collected(w, source), Before(w, source); var d := FinalDecision(w, c, fe, None);
      d.SyncAndReady? && d.metadata == Metadata(w, source) && !PublishSettled(w, c, fe, d.metadata)
  {
    hide Before, Artifact, Metadata, ArtifactKey, ArtifactName, ResolvePublish, ArtifactIn;
    SourceStays(w, source);
    ArtifactIsValid(w, source);
    RequestIsAccepted(w, source);
  }
}
