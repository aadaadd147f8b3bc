/**
 The two source languages, FrontendIntegration and FrontendExtension, and their
 conversion to the compiler's input (crates/api/src/fi.rs, crates/api/src/fe.rs,
 crates/manifest/src/lib.rs).
 */
module CustomResources {
  import opened Prelude
  import opened FrontendTypes
  import opened Resolve
  import opened Render
  import opened ManifestLinks
  import opened Sequences
  import opened Text

  // ----- FrontendIntegration -----

  datatype FiSecondaryMenu = FiSecondaryMenu(displayName: string, key: string, icon: Option<string>)
  datatype FiPrimaryMenu = FiPrimaryMenu(
    displayName: string, key: string, icon: Option<string>, placement: MenuPlacement, nodeType: MenuNodeType,
    children: seq<FiSecondaryMenu>)
  datatype FiPage = FiPage(key: string, pageType: PageType, crdTable: Option<CrdTablePageSpec>, iframe: Option<IframePageSpec>)
  datatype FiSpec = FiSpec(
    displayName: Option<string>, locales: Locales, enabled: Option<bool>,
    menus: seq<FiPrimaryMenu>, pages: seq<FiPage>, engineVersion: Option<string>)
  datatype FrontendIntegration = FrontendIntegration(
    name: string, uid: Option<string>, annotations: map<string, string>, spec: FiSpec)

  // ----- FrontendExtension -----

  datatype FeSecondaryMenu = FeSecondaryMenu(displayName: string, key: string, icon: Option<string>, pageKey: string)
  datatype FePrimaryMenu = FePrimaryMenu(
    displayName: string, key: string, icon: Option<string>, placements: seq<MenuPlacement>, nodeType: MenuNodeType,
    pageKey: Option<string>, children: seq<FeSecondaryMenu>)
  datatype FePage = FePage(
    key: string, displayName: Option<string>, placements: seq<MenuPlacement>, pageType: PageType,
    crdTable: Option<CrdTablePageSpec>, iframe: Option<IframePageSpec>)
  datatype FePackage = FePackage(
    name: Option<string>, version: string, displayName: map<string, string>, description: map<string, string>,
    category: Option<string>, provider: map<string, string>, icon: Option<string>)
  datatype FeFrontend = FeFrontend(
    displayName: Option<string>, locales: Locales, menus: seq<FePrimaryMenu>, pages: seq<FePage>)
  datatype TargetKind = ConfigMapTarget | SecretTarget
  datatype PublishPolicy = PublishPolicy(targetKind: TargetKind, targetNamespace: string, targetName: string)
  datatype FeSpec = FeSpec(
    package: FePackage, schemaVersion: string, frontend: FeFrontend, publishPolicy: Option<PublishPolicy>)
  datatype FrontendExtension = FrontendExtension(
    name: string, labels: map<string, string>, annotations: map<string, string>, spec: FeSpec)

  const ANNO_DESCRIPTION := "kubesphere.io/description"

  // ----- FrontendIntegration to compiler input -----

  function FiSecondaryInput(menu: FiSecondaryMenu): FrontendSecondaryMenuSpec {
    FrontendSecondaryMenuSpec(menu.displayName, menu.key, menu.icon, Some(menu.key))
  }

  function FiMenuInput(menu: FiPrimaryMenu): FrontendMenuSpec {
    FrontendMenuSpec(
      menu.displayName, menu.key, menu.icon, menu.placement, menu.nodeType,
      if menu.nodeType.Page? then Some(menu.key) else None,
      seq(|menu.children|, j requires 0 <= j < |menu.children| => FiSecondaryInput(menu.children[j])))
  }

  function FiPageInput(page: FiPage): FrontendPageSpec {
    FrontendPageSpec(page.key, None, None, page.pageType, page.crdTable, page.iframe)
  }

  function InputOfFi(fi: FrontendIntegration): FrontendRenderInput {
    FrontendRenderInput(
      fi.name, fi.spec.displayName,
      if ANNO_DESCRIPTION in fi.annotations then Some(fi.annotations[ANNO_DESCRIPTION]) else None,
      fi.spec.engineVersion, FI_NAMESPACE, None, fi.spec.locales,
      seq(|fi.spec.menus|, i requires 0 <= i < |fi.spec.menus| => FiMenuInput(fi.spec.menus[i])),
      seq(|fi.spec.pages|, i requires 0 <= i < |fi.spec.pages| => FiPageInput(fi.spec.pages[i])),
      false)
  }

  // ----- FrontendExtension to compiler input -----

  function LocalizedText(values: map<string, string>): Option<string> {
    if "en" in values then Some(values["en"])
    else if "zh" in values then Some(values["zh"])
    else if values == map[] then None
    else
      var keys := SortedKeys(values.Keys);
      assert values.Keys == {} ==> values == map[];
      assert exists k :: k in values.Keys;
      assert keys[0] in keys;
      Some(values[keys[0]])
  }

  function PackageName(fe: FrontendExtension): string {
    fe.spec.package.name.UnwrapOr(fe.name)
  }

  function FeSecondaryInput(menu: FeSecondaryMenu): FrontendSecondaryMenuSpec {
    FrontendSecondaryMenuSpec(menu.displayName, menu.key, menu.icon, Some(menu.pageKey))
  }

  function FeMenuInput(menu: FePrimaryMenu, placement: MenuPlacement): FrontendMenuSpec {
    FrontendMenuSpec(
      menu.displayName, menu.key, menu.icon, placement, menu.nodeType, menu.pageKey,
      seq(|menu.children|, j requires 0 <= j < |menu.children| => FeSecondaryInput(menu.children[j])))
  }

  function FePageInput(page: FePage): FrontendPageSpec {
    FrontendPageSpec(page.key, page.displayName, Some(page.placements), page.pageType, page.crdTable, page.iframe)
  }

  /** One menu entry for each placement of a menu. */
  function Expand(menu: FePrimaryMenu): seq<FrontendMenuSpec> {
    seq(|menu.placements|, p requires 0 <= p < |menu.placements| => FeMenuInput(menu, menu.placements[p]))
  }

  function ExpandAll(menus: seq<FePrimaryMenu>): seq<seq<FrontendMenuSpec>> {
    seq(|menus|, i requires 0 <= i < |menus| => Expand(menus[i]))
  }

  predicate HavePlacements(menus: seq<FePrimaryMenu>) {
    forall i :: 0 <= i < |menus| ==> menus[i].placements != []
  }

  method FrontendExtensionMenus(menus: seq<FePrimaryMenu>) returns (r: Result<seq<FrontendMenuSpec>, ManifestRenderError>)
    ensures r.Ok? <==> HavePlacements(menus)
    ensures r.Ok? ==> r.value == Flatten(ExpandAll(menus))
    ensures r.Err? ==> exists i :: 0 <= i < |menus| && HavePlacements(menus[..i]) && menus[i].placements == []
                                   && r.error == InvalidMenuShape(menus[i].key, NoMenuPlacement)
  {
    var expanded := [];
    for i := 0 to |menus|
      invariant HavePlacements(menus[..i])
      invariant expanded == Flatten(ExpandAll(menus)[..i])
    {
      var menu := menus[i];
      if menu.placements == [] {
        return Err(InvalidMenuShape(menu.key, NoMenuPlacement));
      }
      FlattenStep(ExpandAll(menus), i);
      ghost var before := expanded;
      for p := 0 to |menu.placements|
        invariant expanded == before + Expand(menu)[..p]
      {
        expanded := expanded + [FeMenuInput(menu, menu.placements[p])];
      }
    }
    assert ExpandAll(menus)[..|menus|] == ExpandAll(menus);
    return Ok(expanded);
  }

  function InputOfFe(fe: FrontendExtension): FrontendRenderInput {
    var frontend := fe.spec.frontend;
    FrontendRenderInput(
      PackageName(fe),
      if frontend.displayName.Some? then frontend.displayName else LocalizedText(fe.spec.package.displayName),
      LocalizedText(fe.spec.package.description),
      Some(fe.spec.schemaVersion), FE_NAMESPACE, Some(PackageName(fe)), frontend.locales,
      Flatten(ExpandAll(frontend.menus)),
      seq(|frontend.pages|, i requires 0 <= i < |frontend.pages| => FePageInput(frontend.pages[i])),
      true)
  }

  // ----- Versioned rendering -----

  function NormalizedVersion(version: Option<string>): string {
    var requested := Trim(version.UnwrapOr("v1"));
    Lower(if requested == [] then "v1" else requested)
  }

  predicate IsV1Alias(version: Option<string>) {
    NormalizedVersion(version) in {"v1", "v1alpha1", "1", "1.0"}
  }

  /** Equal up to the case of letters. */
  ghost predicate SameLetters(s: string, t: string) {
    |s| == |t| && forall i :: 0 <= i < |s| ==> s[i] == t[i] || ('A' <= s[i] <= 'Z' && s[i] as int + 32 == t[i] as int)
  }

  /** The versions accepted: none, a blank one, or one of four words in any case with any space around. */
  lemma AliasMeans(version: Option<string>)
    ensures IsV1Alias(version) <==>
      || version.None? || Trim(version.value) == ""
      || exists word :: word in {"v1", "v1alpha1", "1", "1.0"} && SameLetters(Trim(version.value), word)
  {
    hide Trim;
    var t := Trim(version.UnwrapOr("v1"));
    forall word | word in {"v1", "v1alpha1", "1", "1.0"} ensures Lower(t) == word <==> SameLetters(t, word) {
      LowerMeans(t, word);
    }
    TrimmedV1();
    assert Lower("v1") == "v1";
    if version.None? || Trim(version.value) == "" {
      assert NormalizedVersion(version) == "v1";
    } else {
      assert NormalizedVersion(version) == Lower(t);
      if IsV1Alias(version) { assert SameLetters(t, Lower(t)); }
    }
  }

  lemma TrimmedV1()
    ensures Trim("v1") == "v1"
  {
  }

  lemma LowerMeans(s: string, word: string)
    requires forall i :: 0 <= i < |word| ==> !('A' <= word[i] <= 'Z')
    ensures Lower(s) == word <==> SameLetters(s, word)
  {
    if SameLetters(s, word) {
      forall i | 0 <= i < |s| ensures Lower(s)[i] == word[i] {}
    }
    if Lower(s) == word {
      forall i | 0 <= i < |s| ensures s[i] == word[i] || ('A' <= s[i] <= 'Z' && s[i] as int + 32 == word[i] as int) {
        assert Lower(s)[i] == word[i];
      }
    }
  }

  /** The text shown of a localized one: English, else Chinese, else that of the least language. */
  lemma LocalizedMeans(values: map<string, string>)
    ensures LocalizedText(values).None? <==> values == map[]
    ensures "en" in values ==> LocalizedText(values) == Some(values["en"])
    ensures "en" !in values && "zh" in values ==> LocalizedText(values) == Some(values["zh"])
    ensures "en" !in values && "zh" !in values && values != map[] ==>
      exists k :: k in values && LocalizedText(values) == Some(values[k]) && forall other :: other in values ==> Le(k, other)
  {
    if values != map[] {
      var keys := SortedKeys(values.Keys);
      assert exists k :: k in values.Keys;
      assert keys[0] in keys;
      forall other | other in values ensures Le(keys[0], other) {
        var i :| 0 <= i < |keys| && keys[i] == other;
        LeTotal(other, other);
      }
    }
  }

  predicate FiRenders(fi: FrontendIntegration) {
    IsV1Alias(fi.spec.engineVersion) && Acceptable(InputOfFi(fi))
  }

  predicate FeRenders(fe: FrontendExtension) {
    HavePlacements(fe.spec.frontend.menus) && IsV1Alias(Some(fe.spec.schemaVersion)) && Acceptable(InputOfFe(fe))
  }

  method RenderExtensionManifest(fi: FrontendIntegration) returns (r: Result<Manifest, ManifestRenderError>)
    ensures r.Ok? <==> FiRenders(fi)
    ensures r.Ok? ==> r.value == ManifestOf(InputOfFi(fi))
    ensures r.Err? ==> Explains(InputOfFi(fi), r.error) || (r.error.UnsupportedVersion? && !IsV1Alias(fi.spec.engineVersion))
  {
    if IsV1Alias(fi.spec.engineVersion) {
      r := RenderV1Manifest(InputOfFi(fi));
    } else {
      r := Err(UnsupportedVersion(Trim(fi.spec.engineVersion.UnwrapOr("v1"))));
    }
  }

  method RenderFrontendExtensionManifest(fe: FrontendExtension) returns (r: Result<Manifest, ManifestRenderError>)
    ensures r.Ok? <==> FeRenders(fe)
    ensures r.Ok? ==> r.value == ManifestOf(InputOfFe(fe))
  {
    var menus := FrontendExtensionMenus(fe.spec.frontend.menus);
    if menus.Err? {
      return Err(menus.error);
    }
    if IsV1Alias(Some(fe.spec.schemaVersion)) {
      r := RenderV1Manifest(InputOfFe(fe).(menus := menus.value));
    } else {
      r := Err(UnsupportedVersion(Trim(fe.spec.schemaVersion)));
    }
  }

  method ResolveFrontendExtensionPages(fe: FrontendExtension) returns (r: Result<seq<ResolvedFrontendPage>, ManifestRenderError>)
    ensures r.Ok? <==> FeRenders(fe)
    ensures r.Ok? ==> r.value == ToFrontendPages(FirstBindings(Leaves(InputOfFe(fe))))
  {
    var menus := FrontendExtensionMenus(fe.spec.frontend.menus);
    if menus.Err? {
      return Err(menus.error);
    }
    if IsV1Alias(Some(fe.spec.schemaVersion)) {
      r := ResolveV1Pages(InputOfFe(fe).(menus := menus.value));
    } else {
      r := Err(UnsupportedVersion(Trim(fe.spec.schemaVersion)));
    }
  }
}
