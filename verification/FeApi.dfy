/**
 The HTTP API's publish, unpublish and delete handlers
 (crates/frontend-forge-extension-api/src/handlers.rs, publish.rs), and that the
 controller reads from the annotations exactly the request the API wrote.
 */
module FeApi {
  import opened Prelude
  import opened Text
  import opened Names
  import opened FeTypes
  import opened FeStatusRules
  import opened FeReconcile
  import opened FeProtocol

  datatype ApiError =
    | TargetRequired | TargetIncomplete | TargetKindInvalid
    | ArtifactNotReady | DigestNotCheckable | DigestMismatch

  datatype ResolvedPublish = ResolvedPublish(
    requestId: string, artifactDigest: Option<string>, generation: int, sourceHash: string, target: PublishTarget)
  datatype ResolvedUnpublish = ResolvedUnpublish(requestId: string, extensionName: string, target: PublishTarget)

  // ----- Resolving a request -----

  /** A request id from the body, trimmed, or a generated one. */
  function ChosenId(requested: Option<string>, generated: string): string {
    if requested.Some? && Trim(requested.value) != "" then Trim(requested.value) else generated
  }

  function ResolveTarget(fe: Fe): Result<PublishTarget, ApiError> {
    if TargetRef(fe).None? then Err(TargetRequired)
    else if TargetRef(fe).value.namespace == "" || TargetRef(fe).value.name == "" then Err(TargetIncomplete)
    else if TargetKind(fe) != "ConfigMap" && TargetKind(fe) != "Secret" then Err(TargetKindInvalid)
    else Ok(PublishTarget(TargetKind(fe), TargetRef(fe).value.namespace, TargetRef(fe).value.name))
  }

  function ResolvePublishRequest(w: World, fe: Fe, requested: Option<string>, artifact: Option<ArtifactStatus>, generated: string)
    : Result<ResolvedPublish, ApiError>
  {
    match ResolveTarget(fe)
    case Err(e) => Err(e)
    case Ok(target) =>
      Ok(ResolvedPublish(
        ChosenId(requested, generated), if artifact.Some? then Some(artifact.value.digest) else None,
        fe.generation, SourceHash(w, fe), target))
  }

  function ResolveUnpublishRequest(w: World, fe: Fe, requested: Option<string>, generated: string): Result<ResolvedUnpublish, ApiError> {
    match ResolveTarget(fe)
    case Err(e) => Err(e)
    case Ok(target) => Ok(ResolvedUnpublish(ChosenId(requested, generated), w.packageName(fe.source), target))
  }

  /** publish_can_wait_for_artifact: the artifact of the current source is still to come. */
  function PublishCanWait(w: World, fe: Fe): bool {
    if fe.status.None? then true
    else if fe.status.value.phase.PhasePending? || fe.status.value.phase.PhasePackaging? then true
    else fe.status.value.phase.PhaseReady? && fe.status.value.observedSourceHash != Some(SourceHash(w, fe))
  }

  // ----- Writing a request -----

  /** i64::to_string. */
  function Signed(n: int): string {
    if n >= 0 then Decimal(n) else "-" + Decimal(-n)
  }

  /** A merge patch on annotations: absent values delete. */
  function PatchAnnotations(annotations: map<string, string>, patch: map<string, Option<string>>): map<string, string> {
    map k | k in annotations.Keys + patch.Keys && (k in patch ==> patch[k].Some?) :: if k in patch then patch[k].value else annotations[k]
  }

  function PublishPatch(r: ResolvedPublish): map<string, Option<string>> {
    map[
      ANNO_PUBLISH_REQUEST_ID := Some(r.requestId),
      ANNO_PUBLISH_REQUEST_SOURCE_HASH := Some(r.sourceHash),
      ANNO_PUBLISH_TARGET_KIND := Some(r.target.kind),
      ANNO_PUBLISH_TARGET_NAMESPACE := Some(r.target.namespace),
      ANNO_PUBLISH_TARGET_NAME := Some(r.target.name),
      ANNO_PUBLISH_REQUEST_GENERATION := Some(Signed(r.generation)),
      ANNO_PUBLISH_ARTIFACT_DIGEST := r.artifactDigest]
  }

  function UnpublishPatch(r: ResolvedUnpublish, deleteAfter: Option<string>): map<string, Option<string>> {
    map[
      ANNO_UNPUBLISH_REQUEST_ID := Some(r.requestId),
      ANNO_UNPUBLISH_EXTENSION_NAME := Some(r.extensionName),
      ANNO_PUBLISH_TARGET_KIND := Some(r.target.kind),
      ANNO_PUBLISH_TARGET_NAMESPACE := Some(r.target.namespace),
      ANNO_PUBLISH_TARGET_NAME := Some(r.target.name)]
    + (if deleteAfter.Some? then map[ANNO_DELETE_AFTER_UNPUBLISH_REQUEST_ID := deleteAfter] else map[])
  }

  function WithPublish(fe: Fe, r: ResolvedPublish): Fe {
    fe.(annotations := PatchAnnotations(fe.annotations, PublishPatch(r)))
  }

  function WithUnpublish(fe: Fe, r: ResolvedUnpublish, deleteAfter: Option<string>): Fe {
    fe.(annotations := PatchAnnotations(fe.annotations, UnpublishPatch(r, deleteAfter)))
  }

  /** patch_publish_request: insert into an annotation map, then merge it. */
  method PatchPublishRequest(fe: Fe, request: ResolvedPublish) returns (next: Fe)
    ensures next == WithPublish(fe, request) && Carries(next, request)
    ensures next == fe.(annotations := next.annotations)
    ensures forall k :: k !in PublishPatch(request) ==>
      (k in next.annotations <==> k in fe.annotations) && (k in fe.annotations ==> next.annotations[k] == fe.annotations[k])
  {
    var annotations: map<string, Option<string>> := map[
      ANNO_PUBLISH_REQUEST_ID := Some(request.requestId),
      ANNO_PUBLISH_REQUEST_SOURCE_HASH := Some(request.sourceHash),
      ANNO_PUBLISH_TARGET_KIND := Some(request.target.kind),
      ANNO_PUBLISH_TARGET_NAMESPACE := Some(request.target.namespace),
      ANNO_PUBLISH_TARGET_NAME := Some(request.target.name)];
    annotations := annotations[ANNO_PUBLISH_REQUEST_GENERATION := Some(Signed(request.generation))];
    if request.artifactDigest.Some? {
      annotations := annotations[ANNO_PUBLISH_ARTIFACT_DIGEST := request.artifactDigest];
    } else {
      annotations := annotations[ANNO_PUBLISH_ARTIFACT_DIGEST := None];
    }
    next := fe.(annotations := PatchAnnotations(fe.annotations, annotations));
    WrittenIsCarried(fe, request);
  }

  // ----- Handlers -----

  datatype PublishReply = AlreadyThere(status: PublishStatus) | Patched(next: Fe, requestId: string, artifactDigest: Option<string>)

  /** trigger_publish, on the object it reads. */
  method TriggerPublish(w: World, fe: Fe, requestId: Option<string>, expectedDigest: Option<string>, generated: string)
    returns (r: Result<PublishReply, ApiError>)
    ensures var artifact := ReadyArtifact(w, fe); var resolved := ResolvePublishRequest(w, fe, requestId, artifact, generated);
      && (r.Ok? <==>
          && (artifact.Some? || PublishCanWait(w, fe))
          && (expectedDigest.Some? ==> artifact.Some? && artifact.value.digest == expectedDigest.value)
          && resolved.Ok?)
      && (r.Ok? ==> (r.value.AlreadyThere? <==>
          && StoredPublish(fe).Some? && StoredPublish(fe).value.requestId == Some(resolved.value.requestId)
          && StoredPublish(fe).value.artifactDigest == resolved.value.artifactDigest))
      && (r.Ok? ==>
          match r.value
          case AlreadyThere(status) =>
            StoredPublish(fe) == Some(status) && status.requestId == Some(resolved.value.requestId) && status.artifactDigest == resolved.value.artifactDigest
          case Patched(next, id, digest) =>
            next == WithPublish(fe, resolved.value) && id == resolved.value.requestId && digest == resolved.value.artifactDigest)
  {
    var artifact := ReadyArtifact(w, fe);
    if artifact.None? && !PublishCanWait(w, fe) {
      return Err(ArtifactNotReady);
    }
    if expectedDigest.Some? {
      if artifact.None? {
        return Err(DigestNotCheckable);
      }
      if expectedDigest.value != artifact.value.digest {
        return Err(DigestMismatch);
      }
    }
    match ResolvePublishRequest(w, fe, requestId, artifact, generated) {
      case Err(e) => return Err(e);
      case Ok(request) =>
        var current := StoredPublish(fe);
        if current.Some? && current.value.requestId == Some(request.requestId) && current.value.artifactDigest == request.artifactDigest {
          return Ok(AlreadyThere(current.value));
        }
        var next := PatchPublishRequest(fe, request);
        return Ok(Patched(next, request.requestId, request.artifactDigest));
    }
  }

  predicate CurrentlyPublished(fe: Fe) {
    StoredPublish(fe).Some? && StoredPublish(fe).value.phase.PublishSucceeded? && StoredPublish(fe).value.active
  }

  datatype DeleteReply = Deleted | DeletesAfter(next: Fe, requestId: string)

  /** delete_extension: unpublish first when asked to and published, and delete at once otherwise. */
  method DeleteExtension(w: World, fe: Fe, unpublish: bool, generated: string) returns (r: Result<DeleteReply, ApiError>)
    ensures r == Ok(Deleted) <==> !unpublish || !CurrentlyPublished(fe)
    ensures r.Err? <==> unpublish && CurrentlyPublished(fe) && ResolveUnpublishRequest(w, fe, None, generated).Err?
    ensures r.Err? ==> r.error == ResolveUnpublishRequest(w, fe, None, generated).error
    ensures r.Ok? && r.value.DeletesAfter? ==>
      && r.value.requestId == generated
      && r.value.next == WithUnpublish(fe, ResolveUnpublishRequest(w, fe, None, generated).value, Some(generated))
  {
    if unpublish && CurrentlyPublished(fe) {
      match ResolveUnpublishRequest(w, fe, None, generated) {
        case Err(e) => return Err(e);
        case Ok(request) => return Ok(DeletesAfter(WithUnpublish(fe, request, Some(request.requestId)), request.requestId));
      }
    }
    return Ok(Deleted);
  }

  // ----- What the controller reads -----

  lemma {:induction false} UnsignedOfDecimal(n: nat)
    ensures UnsignedValue(Decimal(n)) == Some(n) && Decimal(n) != [] && '0' <= Decimal(n)[0] <= '9'
  {
    if n < 10 {
      assert Decimal(n)[..0] == [];
    } else {
      UnsignedOfDecimal(n / 10);
      assert Decimal(n)[..|Decimal(n)| - 1] == Decimal(n / 10);
    }
  }

  predicate IsI64(n: int) {
    -0x8000_0000_0000_0000 <= n < 0x8000_0000_0000_0000
  }

  /** Parsing a printed generation gives it back, exactly for 64-bit integers. */
  lemma SignedRoundTrip(n: int)
    ensures ParseI64(Signed(n)) == Some(n) <==> IsI64(n)
  {
    hide UnsignedValue, Decimal;
    if n >= 0 {
      UnsignedOfDecimal(n);
    } else {
      UnsignedOfDecimal(-n);
      assert Signed(n)[1..] == Decimal(-n);
    }
  }

  /** `fe` carries the request, whatever else has been edited since. */
  predicate Carries(fe: Fe, r: ResolvedPublish) {
    forall k :: k in PublishPatch(r) ==> if PublishPatch(r)[k].Some? then k in fe.annotations && fe.annotations[k] == PublishPatch(r)[k].value else k !in fe.annotations
  }

  lemma WrittenIsCarried(fe: Fe, r: ResolvedPublish)
    ensures Carries(WithPublish(fe, r), r)
  {
    hide PublishPatch;
  }

  /** What the API resolves: a target the controller accepts and a non-empty id and source hash. */
  predicate WellFormed(r: ResolvedPublish) {
    && r.requestId != "" && r.sourceHash != "" && r.artifactDigest != Some("") && IsI64(r.generation)
    && (r.target.kind == "ConfigMap" || r.target.kind == "Secret") && r.target.namespace != "" && r.target.name != ""
  }

  lemma ResolvedIsWellFormed(w: World, fe: Fe, requested: Option<string>, artifact: Option<ArtifactStatus>, generated: string)
    requires generated != "" && SourceHash(w, fe) != "" && IsI64(fe.generation) && (artifact.Some? ==> artifact.value.digest != "")
    ensures var r := ResolvePublishRequest(w, fe, requested, artifact, generated); r.Ok? ==> WellFormed(r.value)
  {
    hide Trim, TargetRef, TargetKind, SourceHash;
  }

  /** The patch's keys are seven different annotations. */
  lemma PatchValues(r: ResolvedPublish)
    ensures var p := PublishPatch(r);
      && ANNO_PUBLISH_REQUEST_ID in p && p[ANNO_PUBLISH_REQUEST_ID] == Some(r.requestId)
      && ANNO_PUBLISH_REQUEST_SOURCE_HASH in p && p[ANNO_PUBLISH_REQUEST_SOURCE_HASH] == Some(r.sourceHash)
      && ANNO_PUBLISH_TARGET_KIND in p && p[ANNO_PUBLISH_TARGET_KIND] == Some(r.target.kind)
      && ANNO_PUBLISH_TARGET_NAMESPACE in p && p[ANNO_PUBLISH_TARGET_NAMESPACE] == Some(r.target.namespace)
      && ANNO_PUBLISH_TARGET_NAME in p && p[ANNO_PUBLISH_TARGET_NAME] == Some(r.target.name)
      && ANNO_PUBLISH_REQUEST_GENERATION in p && p[ANNO_PUBLISH_REQUEST_GENERATION] == Some(Signed(r.generation))
      && ANNO_PUBLISH_ARTIFACT_DIGEST in p && p[ANNO_PUBLISH_ARTIFACT_DIGEST] == r.artifactDigest
  {
    hide Signed;
    KeysAreDistinct();
  }

  /**
   The round trip between API and controller: a request that the API wrote is
   accepted for exactly the generation, the source and (when it named one) the
   artifact it was made for, and then with its id and target.
   */
  lemma RequestIsHonouredExactly(fe: Fe, r: ResolvedPublish, artifact: PackageMetadata)
    requires WellFormed(r) && Carries(fe, r)
    ensures ResolvePublish(fe, artifact).Accepted? <==>
      && fe.generation == r.generation && artifact.sourceHash == r.sourceHash
      && (r.artifactDigest.Some? ==> artifact.digest == r.artifactDigest.value)
    ensures ResolvePublish(fe, artifact).Accepted? ==> ResolvePublish(fe, artifact).request == PublishRequest(r.requestId, artifact.digest, r.target)
    ensures !ResolvePublish(fe, artifact).Accepted? ==> ResolvePublish(fe, artifact).StaleRequest?
  {
    CarriedValues(fe, r);
    hide NonEmptyAnno, Carries, TargetRef, TargetKind, RequestedGeneration, RequestedSourceHash, RequestedDigest;
  }

  lemma CarriedValues(fe: Fe, r: ResolvedPublish)
    requires WellFormed(r) && Carries(fe, r)
    ensures NonEmptyAnno(fe, ANNO_PUBLISH_REQUEST_ID) == Some(r.requestId)
    ensures RequestedGeneration(fe) == Some(r.generation) && RequestedSourceHash(fe) == Some(r.sourceHash) && RequestedDigest(fe) == r.artifactDigest
    ensures TargetRef(fe) == Some(ObjectRef(r.target.namespace, r.target.name, None)) && TargetKind(fe) == r.target.kind
  {
    hide PublishPatch, Signed, ParseI64;
    PatchValues(r);
    SignedRoundTrip(r.generation);
  }

  /** A Job that asks for the annotated publish asks for the request that the API wrote. */
  lemma StartedIsTheRequest(fe: Fe, r: ResolvedPublish, artifact: PackageMetadata, cm: ConfigMap, task: JobTask)
    requires WellFormed(r) && Carries(fe, r) && AsksToPublish(fe, artifact, cm, task)
    ensures task.requestId == r.requestId && task.artifactDigest == artifact.digest && task.configMapName == cm.name && task.target == r.target
  {
    hide PublishPatch;
    PatchValues(r);
  }

  /** A request without a digest is pending for as long as the extension keeps its generation and source. */
  lemma RequestIsPending(w: World, fe: Fe, r: ResolvedPublish)
    requires WellFormed(r) && Carries(fe, r)
    ensures PendingPublish(w, fe).Some? <==> r.artifactDigest.None? && fe.generation == r.generation && SourceHash(w, fe) == r.sourceHash
    ensures PendingPublish(w, fe).Some? ==> PendingPublish(w, fe).value.requestId == Some(r.requestId) && PendingPublish(w, fe).value.phase.PublishPending?
  {
    CarriedValues(fe, r);
    hide NonEmptyAnno, Carries, SourceHash, RequestedGeneration, RequestedSourceHash, RequestedDigest;
  }

  // ----- Unpublish, then delete -----

  predicate CarriesUnpublish(fe: Fe, r: ResolvedUnpublish, deleteAfter: Option<string>) {
    forall k :: k in UnpublishPatch(r, deleteAfter) ==> k in fe.annotations && Some(fe.annotations[k]) == UnpublishPatch(r, deleteAfter)[k]
  }

  lemma UnpublishPatchIsSome(r: ResolvedUnpublish, deleteAfter: Option<string>)
    ensures forall k :: k in UnpublishPatch(r, deleteAfter) ==> UnpublishPatch(r, deleteAfter)[k].Some?
  {
  }

  lemma UnpublishIsCarried(fe: Fe, r: ResolvedUnpublish, deleteAfter: Option<string>)
    ensures CarriesUnpublish(WithUnpublish(fe, r, deleteAfter), r, deleteAfter)
  {
    UnpublishPatchIsSome(r, deleteAfter);
    hide UnpublishPatch;
  }

  lemma UnpublishValues(r: ResolvedUnpublish, deleteAfter: Option<string>)
    ensures var p := UnpublishPatch(r, deleteAfter);
      && ANNO_UNPUBLISH_REQUEST_ID in p && p[ANNO_UNPUBLISH_REQUEST_ID] == Some(r.requestId)
      && ANNO_UNPUBLISH_EXTENSION_NAME in p && p[ANNO_UNPUBLISH_EXTENSION_NAME] == Some(r.extensionName)
      && ANNO_PUBLISH_TARGET_KIND in p && p[ANNO_PUBLISH_TARGET_KIND] == Some(r.target.kind)
      && ANNO_PUBLISH_TARGET_NAMESPACE in p && p[ANNO_PUBLISH_TARGET_NAMESPACE] == Some(r.target.namespace)
      && ANNO_PUBLISH_TARGET_NAME in p && p[ANNO_PUBLISH_TARGET_NAME] == Some(r.target.name)
      && (deleteAfter.Some? ==> ANNO_DELETE_AFTER_UNPUBLISH_REQUEST_ID in p && p[ANNO_DELETE_AFTER_UNPUBLISH_REQUEST_ID] == deleteAfter)
  {
    KeysAreDistinct();
    UnpublishKeysAreDistinct();
  }

  lemma UnpublishKeysAreDistinct()
    ensures |ANNO_UNPUBLISH_REQUEST_ID| < |ANNO_UNPUBLISH_EXTENSION_NAME| < |ANNO_DELETE_AFTER_UNPUBLISH_REQUEST_ID|
    ensures ANNO_UNPUBLISH_REQUEST_ID !in {ANNO_PUBLISH_TARGET_KIND, ANNO_PUBLISH_TARGET_NAMESPACE, ANNO_PUBLISH_TARGET_NAME}
    ensures ANNO_UNPUBLISH_EXTENSION_NAME !in {ANNO_PUBLISH_TARGET_KIND, ANNO_PUBLISH_TARGET_NAMESPACE, ANNO_PUBLISH_TARGET_NAME}
    ensures ANNO_DELETE_AFTER_UNPUBLISH_REQUEST_ID !in {ANNO_PUBLISH_TARGET_KIND, ANNO_PUBLISH_TARGET_NAMESPACE, ANNO_PUBLISH_TARGET_NAME}
  {
    var n := |"frontend-forge.kubesphere.io/"|;
    assert ANNO_UNPUBLISH_REQUEST_ID[n] == 'u' && ANNO_UNPUBLISH_EXTENSION_NAME[n] == 'u' && ANNO_DELETE_AFTER_UNPUBLISH_REQUEST_ID[n] == 'd';
    assert ANNO_PUBLISH_TARGET_KIND[n] == 'p' && ANNO_PUBLISH_TARGET_NAMESPACE[n] == 'p' && ANNO_PUBLISH_TARGET_NAME[n] == 'p';
  }

  /**
   Deletion through the API: the controller accepts the unpublish request it wrote,
   and deletes the extension exactly when that very request has succeeded.
   */
  lemma DeletionFollowsItsUnpublish(w: World, fe: Fe, r: ResolvedUnpublish, unpublish: Option<UnpublishStatus>)
    requires r.requestId != "" && r.extensionName != "" && r.target.namespace != "" && r.target.name != ""
    requires (r.target.kind == "ConfigMap" || r.target.kind == "Secret") && CarriesUnpublish(fe, r, Some(r.requestId))
    ensures ResolveUnpublish(w, fe) == AcceptedUnpublish(UnpublishRequest(r.requestId, r.extensionName, r.target))
    ensures ShouldDelete(fe, unpublish)
      <==> unpublish.Some? && unpublish.value.phase.PublishSucceeded? && unpublish.value.requestId == Some(r.requestId)
  {
    hide UnpublishPatch;
    UnpublishValues(r, Some(r.requestId));
  }

  /** A Job that asks for the annotated unpublish asks for the request that the API wrote. */
  lemma StartedIsTheUnpublish(w: World, fe: Fe, r: ResolvedUnpublish, deleteAfter: Option<string>, task: JobTask)
    requires r.requestId != "" && r.extensionName != "" && r.target.kind != "" && r.target.namespace != "" && r.target.name != ""
    requires CarriesUnpublish(fe, r, deleteAfter) && AsksToUnpublish(w, fe, task)
    ensures task == UnpublishTask(r.requestId, r.extensionName, r.target)
  {
    hide UnpublishPatch;
    UnpublishValues(r, deleteAfter);
    assert UnpublishPatch(r, deleteAfter)[ANNO_PUBLISH_TARGET_KIND] == Some(r.target.kind);
  }

  // ----- What a request resolves to -----

  /** The target in a resolved request is the one asked for, and complete. */
  lemma ResolvedTarget(fe: Fe)
    ensures var r := ResolveTarget(fe);
      r.Ok? ==> TargetAsked(fe, r.value) && r.value.namespace != "" && r.value.name != "" && r.value.kind in {"ConfigMap", "Secret"}
    ensures forall t :: TargetAsked(fe, t) && t.namespace != "" && t.name != "" && t.kind in {"ConfigMap", "Secret"} ==> ResolveTarget(fe) == Ok(t)
  {
    TargetIsAsked(fe);
    TargetExists(fe);
  }

  lemma TargetExists(fe: Fe)
    ensures TargetRef(fe).Some? <==> exists t :: TargetAsked(fe, t)
    ensures forall t, u :: TargetAsked(fe, t) && TargetAsked(fe, u) ==> t == u
  {
    if TargetRef(fe).Some? { TargetIsAsked(fe); }
  }

  /** A publish request is for the extension's generation and source, the artifact offered, and the id given or else generated. */
  lemma ResolvedMeans(w: World, fe: Fe, requested: Option<string>, artifact: Option<ArtifactStatus>, generated: string)
    ensures var r := ResolvePublishRequest(w, fe, requested, artifact, generated);
      && (r.Ok? <==> ResolveTarget(fe).Ok?)
      && (r.Ok? ==>
          && r.value.generation == fe.generation && r.value.sourceHash == w.sourceHash(fe.source) && r.value.target == ResolveTarget(fe).value
          && r.value.requestId == (if requested.Some? && Trim(requested.value) != "" then Trim(requested.value) else generated)
          && r.value.artifactDigest == (if artifact.Some? then Some(artifact.value.digest) else None))
  {
    hide Trim, ResolveTarget;
  }

  /** An unpublish request names the extension's package, and an extension is published while its publish is succeeded and active. */
  lemma ResolvedUnpublishMeans(w: World, fe: Fe, requested: Option<string>, generated: string)
    ensures var r := ResolveUnpublishRequest(w, fe, requested, generated);
      && (r.Ok? <==> ResolveTarget(fe).Ok?)
      && (r.Ok? ==>
          && r.value.extensionName == w.packageName(fe.source) && r.value.target == ResolveTarget(fe).value
          && r.value.requestId == (if requested.Some? && Trim(requested.value) != "" then Trim(requested.value) else generated))
    ensures CurrentlyPublished(fe) <==> exists p :: Records(fe, p) && p.phase == PublishSucceeded && p.active
  {
    hide Trim, ResolveTarget;
    if CurrentlyPublished(fe) { assert Records(fe, fe.status.value.publish.value); }
  }

  /** An artifact can be waited for exactly while none has been tried, packaging is under way, or Ready is for an older source. */
  lemma WaitingMeans(w: World, fe: Fe)
    ensures PublishCanWait(w, fe) <==>
      fe.status.None? || fe.status.value.phase in {PhasePending, PhasePackaging}
      || (fe.status.value.phase == PhaseReady && fe.status.value.observedSourceHash != Some(w.sourceHash(fe.source)))
  {
  }

  /**
   What the handler answers with a write is then accepted by the controller, for
   the artifact that the extension offers or, without one, for any of its source.
   */
  lemma TriggeredIsAccepted(w: World, fe: Fe, requested: Option<string>, offered: Option<ArtifactStatus>, generated: string, artifact: PackageMetadata)
    requires var r := ResolvePublishRequest(w, fe, requested, offered, generated); r.Ok? && WellFormed(r.value)
    ensures var r := ResolvePublishRequest(w, fe, requested, offered, generated).value; var next := WithPublish(fe, r);
      && next.generation == fe.generation && next.source == fe.source
      && (ResolvePublish(next, artifact).Accepted?
          <==> artifact.sourceHash == w.sourceHash(fe.source) && (offered.Some? ==> artifact.digest == offered.value.digest))
  {
    hide Carries, PublishPatch, WellFormed, ResolvePublish, ResolveTarget;
    var r := ResolvePublishRequest(w, fe, requested, offered, generated).value;
    ResolvedMeans(w, fe, requested, offered, generated);
    WrittenIsCarried(fe, r);
    RequestIsHonouredExactly(WithPublish(fe, r), r, artifact);
  }
}
