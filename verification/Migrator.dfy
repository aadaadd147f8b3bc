/**
 The FI-to-FE migrator as a process that may stop at any step and be started again
 (crates/frontend-forge-controller/src/bin/fi_to_fe_migrator/migration.rs,
 publish.rs, naming.rs), next to other writers of the same apiserver.
 */
module Migrator {
  import opened Prelude
  import opened Names
  import opened CustomResources
  import opened FiToFe
  import opened FeTypes
  import opened MergePatch

  /** The migrator's configuration, and what is not interpreted here: JSON of specs, hashing. */
  datatype Env = Env(cfg: MigratorConfig, specDoc: FeSpec -> Doc, sourceHash: Doc -> string, sha256: string -> string)

  type Fi = FrontendIntegration

  datatype StoredFi = StoredFi(fi: Fi, deleting: bool)

  /** A stored extension; `rest` is everything the migrator neither reads nor writes, such as the status. */
  datatype StoredFe = StoredFe(labels: map<string, string>, annotations: map<string, string>, spec: Doc, generation: nat, rest: Doc)

  // ----- Names -----

  const FE_NAME_MAX := 63

  /** migrated_fe_name: long names are cut and get a hash of the whole name. */
  function MigratedFeName(env: Env, fiName: string): string {
    var raw := "fi-" + fiName;
    if |raw| <= FE_NAME_MAX then raw
    else
      var prefix := TrimDashes(Sanitize(Take(fiName, 47)));
      "fi-" + (if prefix == "" then "x" else prefix) + "-" + Take(env.sha256(fiName), 12)
  }

  function PublishRequestId(feName: string, sourceHash: string): string {
    "fi-migration-" + feName + "-" + Take(StripSha(sourceHash), 12)
  }

  // ----- The writes -----

  function DesiredFe(env: Env, fi: Fi): FrontendExtension {
    FrontendExtensionFromFi(fi, MigratedFeName(env, fi.name), env.cfg)
  }

  function DesiredSpec(env: Env, fi: Fi): Doc {
    env.specDoc(DesiredFe(env, fi).spec)
  }

  function Created(env: Env, fi: Fi, rest: Doc): StoredFe {
    StoredFe(DesiredFe(env, fi).labels, DesiredFe(env, fi).annotations, DesiredSpec(env, fi), 1, rest)
  }

  /** The merge patch of upsert_managed_fe. The server counts a generation when the spec changes. */
  function Upserted(env: Env, fe: StoredFe, fi: Fi): StoredFe {
    var spec := Merge(fe.spec, DesiredSpec(env, fi));
    fe.(
      labels := fe.labels + DesiredFe(env, fi).labels,
      annotations := fe.annotations + DesiredFe(env, fi).annotations,
      spec := spec,
      generation := if spec == fe.spec then fe.generation else fe.generation + 1)
  }

  function TargetKindValue(kind: TargetKind): string {
    match kind case ConfigMapTarget => "ConfigMap" case SecretTarget => "Secret"
  }

  function IntentAnnotations(env: Env, feName: string, spec: Doc, generation: nat): map<string, string> {
    map[
      ANNO_PUBLISH_REQUEST_ID := PublishRequestId(feName, env.sourceHash(spec)),
      ANNO_PUBLISH_REQUEST_GENERATION := Decimal(generation),
      ANNO_PUBLISH_REQUEST_SOURCE_HASH := env.sourceHash(spec),
      ANNO_PUBLISH_TARGET_KIND := TargetKindValue(env.cfg.publishPolicy.targetKind),
      ANNO_PUBLISH_TARGET_NAMESPACE := env.cfg.publishPolicy.targetNamespace,
      ANNO_PUBLISH_TARGET_NAME := env.cfg.publishPolicy.targetName]
  }

  /** publish_intent_patch, for the hash and generation of the object that the upsert returned. */
  function WithIntent(env: Env, feName: string, fe: StoredFe, spec: Doc, generation: nat): StoredFe {
    fe.(annotations := (fe.annotations - {ANNO_PUBLISH_ARTIFACT_DIGEST}) + IntentAnnotations(env, feName, spec, generation))
  }

  // ----- What migration is to achieve -----

  /** ensure_existing_fe_is_managed_by_fi. */
  predicate OwnedBy(fe: StoredFe, fiName: string) {
    && LABEL_FE_MANAGED_BY in fe.labels && fe.labels[LABEL_FE_MANAGED_BY] == MANAGED_BY_VALUE
    && ANNO_SOURCE_FI_NAME in fe.annotations && fe.annotations[ANNO_SOURCE_FI_NAME] == fiName
  }

  /** The extension carries all that the integration translates to. */
  predicate Settled(env: Env, fe: StoredFe, fi: Fi) {
    Merge(fe.spec, DesiredSpec(env, fi)) == fe.spec
  }

  /** A request to publish the extension's current source. */
  predicate HasIntent(env: Env, feName: string, fe: StoredFe) {
    && ANNO_PUBLISH_ARTIFACT_DIGEST !in fe.annotations
    && forall k :: k in IntentAnnotations(env, feName, fe.spec, fe.generation) ==>
         k in fe.annotations && fe.annotations[k] == IntentAnnotations(env, feName, fe.spec, fe.generation)[k]
  }

  function Enabled(fi: Fi): bool {
    fi.spec.enabled.UnwrapOr(true)
  }

  /** The integration lives on as an extension, with a publish intent if it was enabled. */
  predicate Migrated(env: Env, fes: map<string, StoredFe>, fi: Fi) {
    var name := MigratedFeName(env, fi.name);
    && name in fes && OwnedBy(fes[name], fi.name) && Settled(env, fes[name], fi)
    && (Enabled(fi) ==> HasIntent(env, name, fes[name]))
  }

  // ----- Lemmas on the writes -----

  lemma KeysDiffer()
    ensures var intent := {
        ANNO_PUBLISH_REQUEST_ID, ANNO_PUBLISH_REQUEST_GENERATION, ANNO_PUBLISH_REQUEST_SOURCE_HASH, ANNO_PUBLISH_TARGET_KIND,
        ANNO_PUBLISH_TARGET_NAMESPACE, ANNO_PUBLISH_TARGET_NAME, ANNO_PUBLISH_ARTIFACT_DIGEST};
      ANNO_SOURCE_FI_NAME !in intent && ANNO_SOURCE_FI_UID !in intent
    ensures ANNO_SOURCE_FI_UID != ANNO_SOURCE_FI_NAME
  {
    var n := |"frontend-forge.kubesphere.io/"|;
    assert ANNO_SOURCE_FI_NAME[n] == 's' && ANNO_SOURCE_FI_UID[n] == 's';
    assert ANNO_PUBLISH_REQUEST_ID[n] == 'p' && ANNO_PUBLISH_REQUEST_GENERATION[n] == 'p' && ANNO_PUBLISH_REQUEST_SOURCE_HASH[n] == 'p';
    assert ANNO_PUBLISH_TARGET_KIND[n] == 'p' && ANNO_PUBLISH_TARGET_NAMESPACE[n] == 'p' && ANNO_PUBLISH_TARGET_NAME[n] == 'p';
    assert ANNO_PUBLISH_ARTIFACT_DIGEST[n] == 'p';
    assert |ANNO_SOURCE_FI_UID| != |ANNO_SOURCE_FI_NAME|;
  }

  lemma IntentKeysDiffer(env: Env, feName: string, spec: Doc, generation: nat)
    ensures var intent := IntentAnnotations(env, feName, spec, generation);
      && ANNO_SOURCE_FI_NAME !in intent && ANNO_SOURCE_FI_UID !in intent && ANNO_PUBLISH_ARTIFACT_DIGEST !in intent
      && ANNO_PUBLISH_ARTIFACT_DIGEST != ANNO_SOURCE_FI_NAME && ANNO_PUBLISH_ARTIFACT_DIGEST != ANNO_SOURCE_FI_UID
      && ANNO_SOURCE_FI_UID != ANNO_SOURCE_FI_NAME
  {
    KeysDiffer();
    DigestKeyDiffers();
    hide PublishRequestId, Decimal, TargetKindValue;
  }

  lemma DigestKeyDiffers()
    ensures ANNO_PUBLISH_ARTIFACT_DIGEST !in {
      ANNO_PUBLISH_REQUEST_ID, ANNO_PUBLISH_REQUEST_GENERATION, ANNO_PUBLISH_REQUEST_SOURCE_HASH, ANNO_PUBLISH_TARGET_KIND,
      ANNO_PUBLISH_TARGET_NAMESPACE, ANNO_PUBLISH_TARGET_NAME}
  {
    var n := |"frontend-forge.kubesphere.io/publish-"|;
    assert ANNO_PUBLISH_ARTIFACT_DIGEST[n] == 'a';
    assert ANNO_PUBLISH_REQUEST_ID[n] == 'r' && ANNO_PUBLISH_REQUEST_GENERATION[n] == 'r' && ANNO_PUBLISH_REQUEST_SOURCE_HASH[n] == 'r';
    assert ANNO_PUBLISH_TARGET_KIND[n] == 't' && ANNO_PUBLISH_TARGET_NAMESPACE[n] == 't' && ANNO_PUBLISH_TARGET_NAME[n] == 't';
  }

  lemma CreatedIsSettled(env: Env, fi: Fi, rest: Doc)
    requires NoNulls(DesiredSpec(env, fi))
    ensures OwnedBy(Created(env, fi, rest), fi.name) && Settled(env, Created(env, fi, rest), fi)
  {
    hide MigratedFeName, FrontendExtensionFromFi, DesiredFe;
    DesiredIdentity(env, fi);
    ReplacesUnlessLeftover(DesiredSpec(env, fi), DesiredSpec(env, fi));
    NothingLeftOver(DesiredSpec(env, fi));
  }

  lemma {:induction false} NothingLeftOver(d: Doc)
    ensures NoLeftover(d, d)
  {
    if d.DObject? {
      forall k | k in d.fields ensures NoLeftover(d.fields[k], d.fields[k]) { NothingLeftOver(d.fields[k]); }
    }
  }

  lemma DesiredIdentity(env: Env, fi: Fi)
    ensures var d := DesiredFe(env, fi);
      && d.labels == map[LABEL_FE_MANAGED_BY := MANAGED_BY_VALUE]
      && ANNO_SOURCE_FI_NAME in d.annotations && d.annotations[ANNO_SOURCE_FI_NAME] == fi.name
      && d.annotations.Keys <= {ANNO_SOURCE_FI_NAME, ANNO_SOURCE_FI_UID}
  {
    hide MigratedFeName;
    KeysDiffer();
  }

  /** Upserting settles; a settled extension keeps its spec, its generation and any publish intent. */
  lemma UpsertedIsSettled(env: Env, fe: StoredFe, fi: Fi)
    requires OwnedBy(fe, fi.name)
    ensures var next := Upserted(env, fe, fi);
      && OwnedBy(next, fi.name) && Settled(env, next, fi)
      && (Settled(env, fe, fi) ==> next.spec == fe.spec && next.generation == fe.generation)
      && (forall name :: Settled(env, fe, fi) && HasIntent(env, name, fe) ==> HasIntent(env, name, next))
  {
    hide MigratedFeName, FrontendExtensionFromFi, IntentAnnotations, DesiredSpec, DesiredFe;
    MergeIdempotent(fe.spec, DesiredSpec(env, fi));
    DesiredIdentity(env, fi);
    hide Merge;
    forall name | Settled(env, fe, fi) && HasIntent(env, name, fe) ensures HasIntent(env, name, Upserted(env, fe, fi)) {
      IntentKeysDiffer(env, name, fe.spec, fe.generation);
    }
  }

  /** Spec, generation, labels and all annotations but those of a publish request are the same. */
  ghost predicate OnlyIntentChanged(env: Env, feName: string, fe: StoredFe, next: StoredFe) {
    && next == fe.(annotations := next.annotations)
    && forall k :: k !in IntentAnnotations(env, feName, fe.spec, fe.generation) && k != ANNO_PUBLISH_ARTIFACT_DIGEST ==>
         (k in next.annotations <==> k in fe.annotations) && (k in fe.annotations ==> next.annotations[k] == fe.annotations[k])
  }

  lemma IntentValues(env: Env, feName: string, spec: Doc, generation: nat)
    ensures var intent := IntentAnnotations(env, feName, spec, generation);
      && ANNO_PUBLISH_REQUEST_GENERATION in intent && intent[ANNO_PUBLISH_REQUEST_GENERATION] == Decimal(generation)
      && ANNO_PUBLISH_REQUEST_SOURCE_HASH in intent && intent[ANNO_PUBLISH_REQUEST_SOURCE_HASH] == env.sourceHash(spec)
      && ANNO_PUBLISH_ARTIFACT_DIGEST !in intent
      && intent.Keys == IntentAnnotations(env, feName, DNull, 0).Keys
  {
    hide PublishRequestId, Decimal, TargetKindValue;
    KeysAreDistinct();
  }

  /** The intent written asks for the stored source and generation exactly when it was made for them. */
  lemma IntentIsFor(env: Env, feName: string, fe: StoredFe, spec: Doc, generation: nat)
    ensures var next := WithIntent(env, feName, fe, spec, generation);
      && OnlyIntentChanged(env, feName, fe, next)
      && (HasIntent(env, feName, next) <==> env.sourceHash(fe.spec) == env.sourceHash(spec) && fe.generation == generation)
  {
    hide Decimal;
    var next := WithIntent(env, feName, fe, spec, generation);
    var asked, wanted := IntentAnnotations(env, feName, spec, generation), IntentAnnotations(env, feName, fe.spec, fe.generation);
    IntentValues(env, feName, spec, generation);
    IntentValues(env, feName, fe.spec, fe.generation);
    if HasIntent(env, feName, next) {
      assert next.annotations[ANNO_PUBLISH_REQUEST_GENERATION] == wanted[ANNO_PUBLISH_REQUEST_GENERATION];
      assert next.annotations[ANNO_PUBLISH_REQUEST_SOURCE_HASH] == wanted[ANNO_PUBLISH_REQUEST_SOURCE_HASH];
      DecimalInjective(fe.generation, generation);
    }
    hide IntentAnnotations;
  }

  lemma IntentIsKept(env: Env, feName: string, fe: StoredFe, fiName: string)
    ensures var next := WithIntent(env, feName, fe, fe.spec, fe.generation);
      && HasIntent(env, feName, next) && next.spec == fe.spec && next.generation == fe.generation
      && (OwnedBy(next, fiName) <==> OwnedBy(fe, fiName))
  {
    hide IntentAnnotations;
    IntentKeysDiffer(env, feName, fe.spec, fe.generation);
  }

  // ----- The source's sequence of reads and writes, undisturbed -----

  class Apis {
    var fis: map<string, Fi>
    var fes: map<string, StoredFe>

    /** Whether the extension's name is taken by something that was not migrated from this integration. */
    predicate Blocked(env: Env, fi: Fi)
      reads this
    {
      var name := MigratedFeName(env, fi.name);
      name in fes && !OwnedBy(fes[name], fi.name)
    }

    method UpsertManagedFe(env: Env, fi: Fi, feName: string) returns (fe: Option<StoredFe>)
      requires feName == MigratedFeName(env, fi.name) && NoNulls(DesiredSpec(env, fi))
      modifies this`fes
      ensures fe.Some? <==> !old(Blocked(env, fi))
      ensures fe.None? ==> fes == old(fes)
      ensures fe.Some? ==> fes == old(fes)[feName := fe.value] && OwnedBy(fe.value, fi.name) && Settled(env, fe.value, fi)
      ensures fe.Some? ==> fe.value == if feName in old(fes) then Upserted(env, old(fes)[feName], fi) else Created(env, fi, DNull)
    {
      if feName !in fes {
        CreatedIsSettled(env, fi, DNull);
        fes := fes[feName := Created(env, fi, DNull)];
        return Some(fes[feName]);
      }
      var existing := fes[feName];
      if !OwnedBy(existing, fi.name) {
        return None;
      }
      UpsertedIsSettled(env, existing, fi);
      fes := fes[feName := Upserted(env, existing, fi)];
      return Some(fes[feName]);
    }

    /** patch_publish_intent, for the object `fe` that the upsert returned: false when the extension has gone since. */
    method PatchPublishIntent(env: Env, feName: string, fe: StoredFe) returns (ok: bool)
      modifies this`fes
      ensures ok <==> feName in old(fes)
      ensures !ok ==> fes == old(fes)
      ensures ok ==> feName in fes && fes == old(fes)[feName := fes[feName]]
      ensures ok ==> fes[feName] == WithIntent(env, feName, old(fes)[feName], fe.spec, fe.generation)
      ensures ok ==> OnlyIntentChanged(env, feName, old(fes)[feName], fes[feName])
      ensures ok ==> (HasIntent(env, feName, fes[feName]) <==>
        env.sourceHash(old(fes)[feName].spec) == env.sourceHash(fe.spec) && old(fes)[feName].generation == fe.generation)
    {
      if feName !in fes {
        return false;
      }
      IntentIsFor(env, feName, fes[feName], fe.spec, fe.generation);
      fes := fes[feName := WithIntent(env, feName, fes[feName], fe.spec, fe.generation)];
      return true;
    }

    /** migrate_one: false when it fails. */
    method MigrateOne(env: Env, fi: Fi) returns (ok: bool)
      requires NoNulls(DesiredSpec(env, fi))
      modifies this
      ensures ok <==> !old(Blocked(env, fi))
      ensures !ok ==> fis == old(fis) && fes == old(fes)
      ensures ok ==> fis == old(fis) - {fi.name} && Migrated(env, fes, fi)
      ensures forall n :: n != MigratedFeName(env, fi.name) ==> (n in fes <==> n in old(fes)) && (n in fes ==> fes[n] == old(fes)[n])
    {
      hide MigratedFeName, DesiredFe, DesiredSpec, Settled, HasIntent, WithIntent;
      var feName := MigratedFeName(env, fi.name);
      var fe := UpsertManagedFe(env, fi, feName);
      if fe.None? {
        return false;
      }
      if Enabled(fi) {
        IntentIsKept(env, feName, fe.value, fi.name);
        var written := PatchPublishIntent(env, feName, fe.value);
        SettledBySpec(env, fe.value, fes[feName], fi);
      }
      fis := fis - {fi.name};
      return true;
    }

    /**
     run: migrate the listed integrations one by one and collect the failures. What
     fails stays, what is gone has been migrated, and extensions of other origin are
     untouched.
     */
    method MigrateAll(env: Env, items: seq<Fi>) returns (failures: seq<string>)
      requires Listed(env, fis, items)
      modifies this
      ensures forall i :: 0 <= i < |items| ==>
        && (items[i].name in failures <==> items[i].name in fis)
        && (items[i].name !in failures ==> Migrated(env, fes, items[i]))
      ensures OthersUntouched(items, old(fis), fis, old(fes), fes)
    {
      hide MigratedFeName, DesiredFe, DesiredSpec, Migrated, OwnedBy, OthersUntouched;
      failures := [];
      OthersAtStart(items, fis, fes);
      for k := 0 to |items|
        invariant MigratedUpTo(env, items, k, failures, fis, fes)
        invariant OthersUntouched(items, old(fis), fis, old(fes), fes)
      {
        ghost var fisBefore, fesBefore := fis, fes;
        ItemsDiffer(env, old(fis), items, k);
        var ok := MigrateOne(env, items[k]);
        OthersStep(env, items, k, old(fis), fisBefore, fis, old(fes), fesBefore, fes, ok);
        MigratedStep(env, old(fis), items, k, failures, fisBefore, fis, fesBefore, fes, ok);
        if !ok {
          failures := failures + [items[k].name];
        }
      }
    }
  }

  /** What `run` lists: distinct integrations that exist, with specs that serialise without nulls. */
  ghost predicate Listed(env: Env, fis: map<string, Fi>, items: seq<Fi>) {
    && (forall i :: 0 <= i < |items| ==> items[i].name in fis && fis[items[i].name] == items[i] && NoNulls(DesiredSpec(env, items[i])))
    && (forall i, j :: 0 <= i < j < |items| ==> items[i].name != items[j].name)
  }

  ghost predicate MigratedUpTo(env: Env, items: seq<Fi>, k: nat, failures: seq<string>, fis: map<string, Fi>, fes: map<string, StoredFe>)
    requires k <= |items|
  {
    && (forall i :: 0 <= i < k ==> (items[i].name in failures <==> items[i].name in fis) && (items[i].name !in failures ==> Migrated(env, fes, items[i])))
    && (forall i :: k <= i < |items| ==> items[i].name in fis && items[i].name !in failures)
  }

  /** Other integrations stay, and so do extensions that were not migrated from a listed one. */
  ghost predicate OthersUntouched(items: seq<Fi>, fis0: map<string, Fi>, fis: map<string, Fi>, fes0: map<string, StoredFe>, fes: map<string, StoredFe>) {
    && (forall n :: n in fis0 && (forall i :: 0 <= i < |items| ==> items[i].name != n) ==> n in fis && fis[n] == fis0[n])
    && (forall n :: n in fes0 && (forall i :: 0 <= i < |items| ==> !OwnedBy(fes0[n], items[i].name)) ==> n in fes && fes[n] == fes0[n])
  }

  /** What one `MigrateOne` did. */
  ghost predicate MigratedOne(env: Env, fi: Fi, fis: map<string, Fi>, fis': map<string, Fi>, fes: map<string, StoredFe>, fes': map<string, StoredFe>, ok: bool) {
    var name := MigratedFeName(env, fi.name);
    && (ok <==> !(name in fes && !OwnedBy(fes[name], fi.name)))
    && (!ok ==> fis' == fis && fes' == fes)
    && (ok ==> fis' == fis - {fi.name} && Migrated(env, fes', fi))
    && (forall n :: n != name ==> (n in fes' <==> n in fes) && (n in fes' ==> fes'[n] == fes[n]))
  }

  lemma OthersAtStart(items: seq<Fi>, fis: map<string, Fi>, fes: map<string, StoredFe>)
    ensures OthersUntouched(items, fis, fis, fes, fes)
  {
  }

  lemma ItemsDiffer(env: Env, fis0: map<string, Fi>, items: seq<Fi>, k: nat)
    requires Listed(env, fis0, items) && k < |items|
    ensures NoNulls(DesiredSpec(env, items[k]))
  {
  }

  lemma OthersStep(
    env: Env, items: seq<Fi>, k: nat, fis0: map<string, Fi>, fis: map<string, Fi>, fis': map<string, Fi>,
    fes0: map<string, StoredFe>, fes: map<string, StoredFe>, fes': map<string, StoredFe>, ok: bool)
    requires k < |items| && OthersUntouched(items, fis0, fis, fes0, fes) && MigratedOne(env, items[k], fis, fis', fes, fes', ok)
    ensures OthersUntouched(items, fis0, fis', fes0, fes')
  {
    hide MigratedFeName, OwnedBy, Migrated;
  }

  lemma MigratedStep(
    env: Env, fis0: map<string, Fi>, items: seq<Fi>, k: nat, failures: seq<string>, fis: map<string, Fi>, fis': map<string, Fi>,
    fes: map<string, StoredFe>, fes': map<string, StoredFe>, ok: bool)
    requires Listed(env, fis0, items) && k < |items| && MigratedUpTo(env, items, k, failures, fis, fes)
    requires MigratedOne(env, items[k], fis, fis', fes, fes', ok)
    ensures MigratedUpTo(env, items, k + 1, if ok then failures else failures + [items[k].name], fis', fes')
  {
    hide MigratedFeName, OwnedBy, Migrated, NoNulls, DesiredSpec, MigratedOne;
    var failures' := if ok then failures else failures + [items[k].name];
    forall i | 0 <= i < k + 1
      ensures (items[i].name in failures' <==> items[i].name in fis') && (items[i].name !in failures' ==> Migrated(env, fes', items[i]))
    {
      OneItem(env, items[k], items[i], i == k, failures, fis, fis', fes, fes', ok);
    }
    forall i | k + 1 <= i < |items| ensures items[i].name in fis' && items[i].name !in failures' {
      OneItem(env, items[k], items[i], false, failures, fis, fis', fes, fes', ok);
    }
  }

  /** What migrating `done` means for it and for another integration. */
  lemma OneItem(
    env: Env, done: Fi, item: Fi, same: bool, failures: seq<string>, fis: map<string, Fi>, fis': map<string, Fi>,
    fes: map<string, StoredFe>, fes': map<string, StoredFe>, ok: bool)
    requires MigratedOne(env, done, fis, fis', fes, fes', ok) && done.name in fis && done.name !in failures
    requires if same then item == done else item.name != done.name
    ensures var failures' := if ok then failures else failures + [done.name];
      if same then (item.name in failures' <==> item.name in fis') && (item.name !in failures' ==> Migrated(env, fes', item))
      else
        && (item.name in failures' <==> item.name in failures) && (item.name in fis' <==> item.name in fis)
        && (Migrated(env, fes, item) ==> Migrated(env, fes', item))
  {
    hide MigratedFeName, OwnedBy, Migrated;
    if !same && Migrated(env, fes, item) { OthersStayMigrated(env, fes, fes', done, item, ok); }
  }

  lemma SettledBySpec(env: Env, fe: StoredFe, next: StoredFe, fi: Fi)
    requires next.spec == fe.spec
    ensures Settled(env, next, fi) <==> Settled(env, fe, fi)
  {
  }

  /** Two integrations with one extension name cannot both be migrated to it. */
  lemma OthersStayMigrated(env: Env, before: map<string, StoredFe>, after: map<string, StoredFe>, done: Fi, other: Fi, ok: bool)
    requires done.name != other.name && Migrated(env, before, other)
    requires !ok ==> after == before
    requires ok ==> Migrated(env, after, done)
    requires ok <==> !(MigratedFeName(env, done.name) in before && !OwnedBy(before[MigratedFeName(env, done.name)], done.name))
    requires forall n :: n != MigratedFeName(env, done.name) ==> (n in after <==> n in before) && (n in after ==> after[n] == before[n])
    ensures Migrated(env, after, other)
  {
    hide MigratedFeName, Settled, HasIntent;
  }
}
