/**
 What a migrated extension carries besides its frontend, and how the extension's
 controller reads it: package metadata, publish policy and publish intent.
 */
module MigratedFe {
  import opened Prelude
  import opened Text
  import opened Names
  import opened CustomResources
  import opened FiToFe
  import opened FeTypes
  import opened FeStatusRules
  import opened Migrator
  import FeApi
  import MergePatch

  // ----- Package and policy -----

  /** The value of a text that is there and not blank, without the space around it. */
  ghost predicate Shows(text: Option<string>, s: string) {
    text.Some? && Trim(text.value) != "" && s == Trim(text.value)
  }

  ghost predicate IsBlank(text: Option<string>) {
    text.None? || Trim(text.value) == ""
  }

  ghost function FiAnnotation(fi: FrontendIntegration, key: string): Option<string> {
    if key in fi.annotations then Some(fi.annotations[key]) else None
  }

  /** The integration's display name, or else its name. */
  ghost predicate IsTitle(fi: FrontendIntegration, s: string) {
    Shows(fi.spec.displayName, s) || (IsBlank(fi.spec.displayName) && s == fi.name)
  }

  /** Its description, or else its title. */
  ghost predicate IsDescription(fi: FrontendIntegration, s: string) {
    var text := FiAnnotation(fi, "kubesphere.io/description");
    Shows(text, s) || (IsBlank(text) && IsTitle(fi, s))
  }

  /** Its creator, or else the migrator. */
  ghost predicate IsCreator(fi: FrontendIntegration, s: string) {
    var text := FiAnnotation(fi, "kubesphere.io/creator");
    Shows(text, s) || (IsBlank(text) && s == "Fi Migration Bot")
  }

  /** The package is named after the extension, described by the integration's own texts, and released with the configured version and policy. */
  lemma MigratedCarries(fi: FrontendIntegration, feName: string, cfg: MigratorConfig)
    ensures var fe := FrontendExtensionFromFi(fi, feName, cfg); var package := fe.spec.package;
      && fe.name == feName && PackageName(fe) == feName && package.version == cfg.packageVersion
      && (exists title :: IsTitle(fi, title) && package.displayName == map["en" := title])
      && (exists text :: IsDescription(fi, text) && package.description == map["en" := text] && InputOfFe(fe).description == Some(text))
      && (exists name :: IsCreator(fi, name) && package.provider == map["en" := name, "zh" := name])
      && package.category == Some("dev-tools") && package.icon == Some("./static/favicon.svg")
      && fe.spec.publishPolicy == Some(cfg.publishPolicy)
      && fe.spec.frontend.displayName == fi.spec.displayName && fe.spec.frontend.locales == fi.spec.locales
      && (Shows(fi.spec.engineVersion, fe.spec.schemaVersion) || (IsBlank(fi.spec.engineVersion) && fe.spec.schemaVersion == cfg.schemaVersion))
    ensures var fe := FrontendExtensionFromFi(fi, feName, cfg);
      && fe.labels == map[LABEL_FE_MANAGED_BY := "frontend-forge-fi-migrator"]
      && ANNO_SOURCE_FI_NAME in fe.annotations && fe.annotations[ANNO_SOURCE_FI_NAME] == fi.name
      && (ANNO_SOURCE_FI_UID in fe.annotations <==> fi.uid.Some?)
      && (fi.uid.Some? ==> fe.annotations[ANNO_SOURCE_FI_UID] == fi.uid.value)
  {
    hide Trim, FePagesFrom, FeMenusFrom;
    KeysDiffer();
    assert IsTitle(fi, FiDisplayName(fi));
    assert IsDescription(fi, FiDescription(fi));
    assert IsCreator(fi, FiCreator(fi));
  }

  /** How a stored extension shows its publish policy. */
  ghost predicate ShowsPolicy(fe: Fe, ext: FrontendExtension) {
    match ext.spec.publishPolicy
    case None => fe.policyKind.None? && fe.policyRef.None?
    case Some(policy) =>
      && fe.policyKind == Some(if policy.targetKind == ConfigMapTarget then "ConfigMap" else "Secret")
      && fe.policyRef == Some(ObjectRef(policy.targetNamespace, policy.targetName, None))
  }

  /** Without target annotations, requests for a migrated extension go to the migrator's configured target. */
  lemma PolicyIsTheTarget(fe: Fe, fi: FrontendIntegration, feName: string, cfg: MigratorConfig, target: PublishTarget)
    requires ShowsPolicy(fe, FrontendExtensionFromFi(fi, feName, cfg))
    requires !Given(fe, ANNO_PUBLISH_TARGET_KIND) && !Given(fe, ANNO_PUBLISH_TARGET_NAME)
    ensures TargetAsked(fe, target) <==>
      && target.kind == (if cfg.publishPolicy.targetKind == ConfigMapTarget then "ConfigMap" else "Secret")
      && target.namespace == cfg.publishPolicy.targetNamespace && target.name == cfg.publishPolicy.targetName
  {
    hide FePagesFrom, FeMenusFrom, MigratorAnnotations, FiDisplayName, FiDescription, FiCreator, NonBlank;
  }

  // ----- The publish intent -----

  /** The request that the migrator's intent makes for a stored extension. */
  ghost function IntendedRequest(env: Env, feName: string, stored: StoredFe): FeApi.ResolvedPublish {
    var policy, hash := env.cfg.publishPolicy, env.sourceHash(stored.spec);
    FeApi.ResolvedPublish(
      PublishRequestId(feName, hash), None, stored.generation, hash,
      PublishTarget(if policy.targetKind == ConfigMapTarget then "ConfigMap" else "Secret", policy.targetNamespace, policy.targetName))
  }

  /**
   An extension with the intent carries a request of the very form the API writes,
   for its current source and generation, any artifact of them and the configured
   target; `FeApi.RequestIsHonouredExactly` says when the controller honours it.
   */
  lemma IntentIsARequest(env: Env, feName: string, stored: StoredFe, fe: Fe)
    requires HasIntent(env, feName, stored) && fe.annotations == stored.annotations
    ensures FeApi.Carries(fe, IntendedRequest(env, feName, stored))
  {
    hide PublishRequestId, Decimal;
    var r := IntendedRequest(env, feName, stored);
    FeApi.PatchValues(r);
    assert FeApi.Signed(stored.generation) == Decimal(stored.generation);
    IntentKeys(env, feName, stored.spec, stored.generation);
    PatchKeys(r);
    hide FeApi.PublishPatch, IntentAnnotations, FeApi.Signed;
  }

  lemma IntentKeys(env: Env, feName: string, spec: MergePatch.Doc, generation: nat)
    ensures var a, policy := IntentAnnotations(env, feName, spec, generation), env.cfg.publishPolicy;
      && ANNO_PUBLISH_REQUEST_ID in a && a[ANNO_PUBLISH_REQUEST_ID] == PublishRequestId(feName, env.sourceHash(spec))
      && ANNO_PUBLISH_REQUEST_GENERATION in a && a[ANNO_PUBLISH_REQUEST_GENERATION] == Decimal(generation)
      && ANNO_PUBLISH_REQUEST_SOURCE_HASH in a && a[ANNO_PUBLISH_REQUEST_SOURCE_HASH] == env.sourceHash(spec)
      && ANNO_PUBLISH_TARGET_KIND in a && a[ANNO_PUBLISH_TARGET_KIND] == (if policy.targetKind == ConfigMapTarget then "ConfigMap" else "Secret")
      && ANNO_PUBLISH_TARGET_NAMESPACE in a && a[ANNO_PUBLISH_TARGET_NAMESPACE] == policy.targetNamespace
      && ANNO_PUBLISH_TARGET_NAME in a && a[ANNO_PUBLISH_TARGET_NAME] == policy.targetName
  {
    hide PublishRequestId, Decimal;
    KeysAreDistinct();
  }

  lemma PatchKeys(r: FeApi.ResolvedPublish)
    ensures FeApi.PublishPatch(r).Keys == {
      ANNO_PUBLISH_REQUEST_ID, ANNO_PUBLISH_REQUEST_SOURCE_HASH, ANNO_PUBLISH_TARGET_KIND, ANNO_PUBLISH_TARGET_NAMESPACE,
      ANNO_PUBLISH_TARGET_NAME, ANNO_PUBLISH_REQUEST_GENERATION, ANNO_PUBLISH_ARTIFACT_DIGEST}
  {
    hide FeApi.Signed;
  }

  /** The request is well formed, and its id is the migrator's mark, the extension's name and the start of the source hash. */
  lemma IntendedIsWellFormed(env: Env, feName: string, stored: StoredFe)
    requires env.sourceHash(stored.spec) != "" && env.cfg.publishPolicy.targetNamespace != "" && env.cfg.publishPolicy.targetName != ""
    requires stored.generation < 0x8000_0000_0000_0000
    ensures FeApi.WellFormed(IntendedRequest(env, feName, stored))
    ensures forall digits :: Sha256(env.sourceHash(stored.spec), digits)
              ==> IntendedRequest(env, feName, stored).requestId == "fi-migration-" + feName + "-" + digits[..12]
  {
    forall digits | Sha256(env.sourceHash(stored.spec), digits) ensures StripSha(env.sourceHash(stored.spec)) == digits {
      StripsPrefix(env.sourceHash(stored.spec), digits);
    }
  }

  // ----- The extension's name -----

  lemma SanitizeLength(s: string)
    ensures |Sanitize(s)| == |s|
  {
  }

  lemma TrimShortens(s: string)
    ensures |TrimDashes(s)| <= |s|
  {
  }

  /** A short name keeps its integration's name in full, a long one its start and a piece of the hash; both fit the bound. */
  lemma MigratedNameFits(env: Env, fiName: string)
    ensures var name := MigratedFeName(env, fiName);
      && |name| <= 63 && "fi-" <= name
      && (|fiName| <= 60 ==> name == "fi-" + fiName)
      && (|fiName| > 60 && |env.sha256(fiName)| >= 12 ==> name[|name| - 13..] == "-" + env.sha256(fiName)[..12])
  {
    hide Sanitize;
    var prefix := TrimDashes(Sanitize(Take(fiName, 47)));
    SanitizeLength(Take(fiName, 47));
    TrimShortens(Sanitize(Take(fiName, 47)));
    hide TrimDashes;
    if |fiName| > 60 && |env.sha256(fiName)| >= 12 {
      var head := "fi-" + (if prefix == "" then "x" else prefix);
      assert MigratedFeName(env, fiName) == head + ("-" + env.sha256(fiName)[..12]);
    }
  }
}
