/**
 What a manifest takes from the resource it is compiled for: its header, and the
 menus and pages that `ManifestContent` then shows, field by field.
 */
module ResourceContent {
  import opened Prelude
  import opened FrontendTypes
  import opened Sequences
  import opened Resolve
  import opened Render
  import opened ManifestLinks
  import opened CustomResources

  /** Name, display name, description, locales and module name of a manifest. */
  ghost predicate HasHeader(m: Manifest, name: string, displayName: Option<string>, description: Option<string>, locales: Locales) {
    && m.version == "1.0" && m.name == name && m.moduleName == name
    && m.displayName == (if displayName.Some? then displayName.value else name)
    && m.description == description && m.locales == locales
  }

  // ----- Integrations -----

  /** Every menu of an integration leads to the page of its own key. */
  ghost predicate ChildOfFi(child: FrontendSecondaryMenuSpec, from: FiSecondaryMenu) {
    child.displayName == from.displayName && child.key == from.key && child.icon == from.icon && child.pageKey == Some(from.key)
  }

  ghost predicate MenuOfFi(menu: FrontendMenuSpec, from: FiPrimaryMenu) {
    && menu.displayName == from.displayName && menu.key == from.key && menu.icon == from.icon
    && menu.placement == from.placement && menu.nodeType == from.nodeType
    && menu.pageKey == (if from.nodeType == Page then Some(from.key) else None)
    && |menu.children| == |from.children| && forall j :: 0 <= j < |from.children| ==> ChildOfFi(menu.children[j], from.children[j])
  }

  /** Its pages have no title and no placements of their own. */
  ghost predicate PageOfFi(page: FrontendPageSpec, from: FiPage) {
    && page.key == from.key && page.pageType == from.pageType && page.crdTable == from.crdTable && page.iframe == from.iframe
    && page.displayName.None? && page.placements.None?
  }

  lemma IntegrationShows(fi: FrontendIntegration)
    requires FiRenders(fi)
    ensures var input := InputOfFi(fi);
      && HasHeader(
           ManifestOf(input), fi.name, fi.spec.displayName,
           if "kubesphere.io/description" in fi.annotations then Some(fi.annotations["kubesphere.io/description"]) else None, fi.spec.locales)
      && input.routeNamespace == "frontendintegrations" && input.extensionModule.None? && !input.requirePageKey
      && |input.menus| == |fi.spec.menus| && (forall i :: 0 <= i < |fi.spec.menus| ==> MenuOfFi(input.menus[i], fi.spec.menus[i]))
      && |input.pages| == |fi.spec.pages| && (forall i :: 0 <= i < |fi.spec.pages| ==> PageOfFi(input.pages[i], fi.spec.pages[i]))
  {
    hide RenderRoutes, ResolvedMenus, PagesOf, FirstBindings, Leaves, ItemLists, Flatten;
  }

  // ----- Extensions -----

  ghost predicate ChildOfFe(child: FrontendSecondaryMenuSpec, from: FeSecondaryMenu) {
    child.displayName == from.displayName && child.key == from.key && child.icon == from.icon && child.pageKey == Some(from.pageKey)
  }

  /** The menu in one of its placements. */
  ghost predicate MenuOfFe(menu: FrontendMenuSpec, from: FePrimaryMenu, placement: MenuPlacement) {
    && menu.displayName == from.displayName && menu.key == from.key && menu.icon == from.icon
    && menu.placement == placement && menu.nodeType == from.nodeType && menu.pageKey == from.pageKey
    && |menu.children| == |from.children| && forall j :: 0 <= j < |from.children| ==> ChildOfFe(menu.children[j], from.children[j])
  }

  ghost predicate PageOfFe(page: FrontendPageSpec, from: FePage) {
    && page.key == from.key && page.pageType == from.pageType && page.crdTable == from.crdTable && page.iframe == from.iframe
    && page.displayName == from.displayName && page.placements == Some(from.placements)
  }

  /** Each menu with each of its placements, in order. */
  function Placed(menus: seq<FePrimaryMenu>): seq<seq<(FePrimaryMenu, MenuPlacement)>> {
    seq(|menus|, i requires 0 <= i < |menus| =>
      seq(|menus[i].placements|, p requires 0 <= p < |menus[i].placements| => (menus[i], menus[i].placements[p])))
  }

  lemma ExpandedShow(menus: seq<FePrimaryMenu>)
    ensures var xs, ys := Flatten(ExpandAll(menus)), Flatten(Placed(menus));
      |xs| == |ys| && forall k :: 0 <= k < |ys| ==> MenuOfFe(xs[k], ys[k].0, ys[k].1)
  {
    FlattenMatch(ExpandAll(menus), Placed(menus), (menu: FrontendMenuSpec, from: (FePrimaryMenu, MenuPlacement)) => MenuOfFe(menu, from.0, from.1));
  }

  lemma ExtensionShows(fe: FrontendExtension)
    requires FeRenders(fe)
    ensures var input, frontend := InputOfFe(fe), fe.spec.frontend;
      var name := if fe.spec.package.name.Some? then fe.spec.package.name.value else fe.name;
      && HasHeader(
           ManifestOf(input), name,
           if frontend.displayName.Some? then frontend.displayName else LocalizedText(fe.spec.package.displayName),
           LocalizedText(fe.spec.package.description), frontend.locales)
      && input.routeNamespace == "frontendextensions" && input.extensionModule == Some(name) && input.requirePageKey
      && var placed := Flatten(Placed(frontend.menus));
      && |input.menus| == |placed| && (forall k :: 0 <= k < |placed| ==> MenuOfFe(input.menus[k], placed[k].0, placed[k].1))
      && |input.pages| == |frontend.pages| && (forall i :: 0 <= i < |frontend.pages| ==> PageOfFe(input.pages[i], frontend.pages[i]))
  {
    hide RenderRoutes, ResolvedMenus, PagesOf, FirstBindings, Leaves, ItemLists, Flatten, LocalizedText, MenuOfFe;
    ExpandedShow(fe.spec.frontend.menus);
  }
}
