/**
 The FI-to-FE translation
 (crates/frontend-forge-controller/src/bin/fi_to_fe_migrator/frontend_extension.rs).
 */
module FiToFe {
  import opened Prelude
  import opened FrontendTypes
  import opened CustomResources
  import opened Sequences
  import opened Text

  datatype MigratorConfig = MigratorConfig(packageVersion: string, schemaVersion: string, publishPolicy: PublishPolicy)

  const LABEL_FE_MANAGED_BY := "frontend-forge.kubesphere.io/managed-by"
  const MANAGED_BY_VALUE := "frontend-forge-fi-migrator"
  const ANNO_SOURCE_FI_NAME := "frontend-forge.kubesphere.io/source-fi-name"
  const ANNO_SOURCE_FI_UID := "frontend-forge.kubesphere.io/source-fi-uid"
  const ANNO_CREATOR := "kubesphere.io/creator"
  const DEFAULT_PACKAGE_ICON := "./static/favicon.svg"
  const DEFAULT_PACKAGE_CATEGORY := "dev-tools"
  const DEFAULT_PROVIDER_NAME := "Fi Migration Bot"

  // ----- Menus -----

  function FeSecondaryFrom(menu: FiSecondaryMenu): FeSecondaryMenu {
    FeSecondaryMenu(menu.displayName, menu.key, menu.icon, menu.key)
  }

  function FeMenuFrom(menu: FiPrimaryMenu): FePrimaryMenu {
    FePrimaryMenu(
      menu.displayName, menu.key, menu.icon, [menu.placement], menu.nodeType,
      if menu.nodeType.Page? then Some(menu.key) else None,
      seq(|menu.children|, j requires 0 <= j < |menu.children| => FeSecondaryFrom(menu.children[j])))
  }

  function FeMenusFrom(menus: seq<FiPrimaryMenu>): seq<FePrimaryMenu> {
    seq(|menus|, i requires 0 <= i < |menus| => FeMenuFrom(menus[i]))
  }

  // ----- Pages -----

  /** The (placement, page key) uses one menu makes of pages. */
  function UsesOf(menu: FiPrimaryMenu): seq<(MenuPlacement, string)> {
    match menu.nodeType
    case Page => [(menu.placement, menu.key)]
    case Organization => seq(|menu.children|, j requires 0 <= j < |menu.children| => (menu.placement, menu.children[j].key))
  }

  function UseLists(menus: seq<FiPrimaryMenu>): seq<seq<(MenuPlacement, string)>> {
    seq(|menus|, i requires 0 <= i < |menus| => UsesOf(menus[i]))
  }

  function Uses(fi: FrontendIntegration): seq<(MenuPlacement, string)> {
    Flatten(UseLists(fi.spec.menus))
  }

  /** The first page with the given key. */
  function FindPage(pages: seq<FiPage>, key: string): (r: Option<FiPage>)
    ensures r.Some? ==> r.value in pages && r.value.key == key
    ensures r.None? ==> forall p :: p in pages ==> p.key != key
  {
    if pages == [] then None
    else if pages[0].key == key then Some(pages[0])
    else FindPage(pages[1..], key)
  }

  /** The placements in which a page is used, each once, in order of first use. */
  function PlacementsFor(uses: seq<(MenuPlacement, string)>, key: string): (r: seq<MenuPlacement>)
    ensures forall p :: p in r <==> (p, key) in uses
  {
    if uses == [] then []
    else
      var front, last := uses[..|uses| - 1], uses[|uses| - 1];
      assert uses == front + [last];
      var before := PlacementsFor(front, key);
      if last.1 == key && last.0 !in before then before + [last.0] else before
  }

  /** The used keys that have a page. */
  function UsedKeys(fi: FrontendIntegration, uses: seq<(MenuPlacement, string)>): set<string> {
    set i | 0 <= i < |uses| && FindPage(fi.spec.pages, uses[i].1).Some? :: uses[i].1
  }

  function FePageFrom(page: FiPage, placements: seq<MenuPlacement>): FePage {
    FePage(page.key, None, placements, page.pageType, page.crdTable, page.iframe)
  }

  function FePageFor(fi: FrontendIntegration, uses: seq<(MenuPlacement, string)>, key: string): FePage
    requires FindPage(fi.spec.pages, key).Some?
  {
    FePageFrom(FindPage(fi.spec.pages, key).value, PlacementsFor(uses, key))
  }

  /** Every used page once, in key order, with the placements it is used in. */
  function FePagesFrom(fi: FrontendIntegration): seq<FePage> {
    var keys := SortedKeys(UsedKeys(fi, Uses(fi)));
    assert forall i :: 0 <= i < |keys| ==> keys[i] in keys;
    seq(|keys|, i requires 0 <= i < |keys| && FindPage(fi.spec.pages, keys[i]).Some? => FePageFor(fi, Uses(fi), keys[i]))
  }

  /** The BTreeMap under construction after the given uses. */
  ghost predicate Collected(fi: FrontendIntegration, pages: map<string, FePage>, uses: seq<(MenuPlacement, string)>) {
    && pages.Keys == UsedKeys(fi, uses)
    && forall k :: k in pages ==> pages[k] == FePageFor(fi, uses, k)
  }

  method InsertFrontendPage(fi: FrontendIntegration, pages: map<string, FePage>, placement: MenuPlacement, pageKey: string, ghost uses: seq<(MenuPlacement, string)>)
    returns (pages': map<string, FePage>)
    requires Collected(fi, pages, uses)
    ensures Collected(fi, pages', uses + [(placement, pageKey)])
  {
    ghost var use := (placement, pageKey);
    PlacementsStep(fi, uses, use);
    pages' := pages;
    var found := FindPage(fi.spec.pages, pageKey);
    if found.None? {
      CollectedStep(fi, pages, uses, use, pages');
      return;
    }
    if pageKey !in pages {
      UnusedHasNoPlacements(fi, uses, pageKey);
    }
    var page := if pageKey in pages then pages[pageKey] else FePageFrom(found.value, []);
    assert page == FePageFrom(found.value, PlacementsFor(uses, pageKey));
    if placement !in page.placements {
      page := page.(placements := page.placements + [placement]);
    }
    assert page == FePageFor(fi, uses + [use], pageKey);
    pages' := pages[pageKey := page];
    CollectedStep(fi, pages, uses, use, pages');
  }

  lemma CollectedStep(fi: FrontendIntegration, pages: map<string, FePage>, uses: seq<(MenuPlacement, string)>, use: (MenuPlacement, string), pages': map<string, FePage>)
    requires Collected(fi, pages, uses)
    requires FindPage(fi.spec.pages, use.1).None? ==> pages' == pages
    requires FindPage(fi.spec.pages, use.1).Some? ==> pages' == pages[use.1 := FePageFor(fi, uses + [use], use.1)]
    ensures Collected(fi, pages', uses + [use])
  {
    UsedKeysStep(fi, uses, use);
    PlacementsStep(fi, uses, use);
  }

  lemma PlacementsStep(fi: FrontendIntegration, uses: seq<(MenuPlacement, string)>, use: (MenuPlacement, string))
    ensures PlacementsFor(uses + [use], use.1)
            == if use.0 in PlacementsFor(uses, use.1) then PlacementsFor(uses, use.1) else PlacementsFor(uses, use.1) + [use.0]
    ensures forall k :: k != use.1 && FindPage(fi.spec.pages, k).Some? ==> FePageFor(fi, uses + [use], k) == FePageFor(fi, uses, k)
  {
    assert (uses + [use])[..|uses|] == uses;
  }

  lemma UsedKeysStep(fi: FrontendIntegration, uses: seq<(MenuPlacement, string)>, use: (MenuPlacement, string))
    ensures UsedKeys(fi, uses + [use]) == UsedKeys(fi, uses) + if FindPage(fi.spec.pages, use.1).Some? then {use.1} else {}
  {
    var more := uses + [use];
    assert forall i :: 0 <= i < |uses| ==> more[i] == uses[i];
    assert more[|uses|] == use;
  }

  lemma {:induction false} UnusedHasNoPlacements(fi: FrontendIntegration, uses: seq<(MenuPlacement, string)>, key: string)
    requires key !in UsedKeys(fi, uses) && FindPage(fi.spec.pages, key).Some?
    ensures PlacementsFor(uses, key) == []
  {
    if uses != [] {
      UsedKeysStep(fi, uses[..|uses| - 1], uses[|uses| - 1]);
      assert uses == uses[..|uses| - 1] + [uses[|uses| - 1]];
      UnusedHasNoPlacements(fi, uses[..|uses| - 1], key);
    }
  }

  method InsertMenuPages(fi: FrontendIntegration, pages: map<string, FePage>, menu: FiPrimaryMenu, ghost uses: seq<(MenuPlacement, string)>)
    returns (pages': map<string, FePage>)
    requires Collected(fi, pages, uses)
    ensures Collected(fi, pages', uses + UsesOf(menu))
  {
    match menu.nodeType {
      case Page =>
        pages' := InsertFrontendPage(fi, pages, menu.placement, menu.key, uses);
      case Organization =>
        pages' := pages;
        assert uses + UsesOf(menu)[..0] == uses;
        for j := 0 to |menu.children|
          invariant Collected(fi, pages', uses + UsesOf(menu)[..j])
        {
          pages' := InsertFrontendPage(fi, pages', menu.placement, menu.children[j].key, uses + UsesOf(menu)[..j]);
          assert uses + UsesOf(menu)[..j] + [UsesOf(menu)[j]] == uses + UsesOf(menu)[..j + 1];
        }
        assert UsesOf(menu)[..|menu.children|] == UsesOf(menu);
    }
  }

  /** into_values: the pages in key order. */
  function InKeyOrder(pages: map<string, FePage>): seq<FePage> {
    var keys := SortedKeys(pages.Keys);
    assert forall i :: 0 <= i < |keys| ==> keys[i] in keys;
    seq(|keys|, i requires 0 <= i < |keys| && keys[i] in pages => pages[keys[i]])
  }

  method FrontendPagesFromFi(fi: FrontendIntegration) returns (r: seq<FePage>)
    ensures r == FePagesFrom(fi)
  {
    var pages: map<string, FePage> := map[];
    ghost var lists := UseLists(fi.spec.menus);
    for i := 0 to |fi.spec.menus|
      invariant Collected(fi, pages, Flatten(lists[..i]))
    {
      FlattenStep(lists, i);
      pages := InsertMenuPages(fi, pages, fi.spec.menus[i], Flatten(lists[..i]));
    }
    assert lists[..|fi.spec.menus|] == lists;
    r := InKeyOrder(pages);
  }

  // ----- The whole resource -----

  function NonBlank(value: Option<string>): Option<string> {
    if value.Some? && Trim(value.value) != [] then Some(Trim(value.value)) else None
  }

  function Annotation(fi: FrontendIntegration, key: string): Option<string> {
    if key in fi.annotations then Some(fi.annotations[key]) else None
  }

  function FiDisplayName(fi: FrontendIntegration): string {
    NonBlank(fi.spec.displayName).UnwrapOr(fi.name)
  }

  function FiDescription(fi: FrontendIntegration): string {
    NonBlank(Annotation(fi, ANNO_DESCRIPTION)).UnwrapOr(FiDisplayName(fi))
  }

  function FiCreator(fi: FrontendIntegration): string {
    NonBlank(Annotation(fi, ANNO_CREATOR)).UnwrapOr(DEFAULT_PROVIDER_NAME)
  }

  function MigratorAnnotations(fi: FrontendIntegration): map<string, string> {
    map[ANNO_SOURCE_FI_NAME := fi.name] + (if fi.uid.Some? then map[ANNO_SOURCE_FI_UID := fi.uid.value] else map[])
  }

  function FrontendExtensionFromFi(fi: FrontendIntegration, feName: string, cfg: MigratorConfig): FrontendExtension {
    FrontendExtension(
      feName,
      map[LABEL_FE_MANAGED_BY := MANAGED_BY_VALUE],
      MigratorAnnotations(fi),
      FeSpec(
        FePackage(
          Some(feName), cfg.packageVersion, map["en" := FiDisplayName(fi)], map["en" := FiDescription(fi)],
          Some(DEFAULT_PACKAGE_CATEGORY), map["en" := FiCreator(fi), "zh" := FiCreator(fi)], Some(DEFAULT_PACKAGE_ICON)),
        NonBlank(fi.spec.engineVersion).UnwrapOr(cfg.schemaVersion),
        FeFrontend(fi.spec.displayName, fi.spec.locales, FeMenusFrom(fi.spec.menus), FePagesFrom(fi)),
        Some(cfg.publishPolicy)))
  }
}
