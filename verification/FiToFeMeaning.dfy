/**
 The FI-to-FE translation preserves meaning: the migrated extension renders when
 the integration does, to the same menus and routes leading to the same pages.
 */
module FiToFeMeaning {
  import opened Prelude
  import opened FrontendTypes
  import opened Resolve
  import opened Render
  import opened ManifestLinks
  import opened CustomResources
  import opened FiToFe
  import opened Sequences
  import opened Text

  // ----- The versions agree -----

  lemma VersionsAgree(fi: FrontendIntegration, feName: string, cfg: MigratorConfig)
    requires IsV1Alias(Some(cfg.schemaVersion))
    ensures IsV1Alias(fi.spec.engineVersion) <==> IsV1Alias(Some(FrontendExtensionFromFi(fi, feName, cfg).spec.schemaVersion))
  {
    if fi.spec.engineVersion.Some? {
      TrimIdempotent(fi.spec.engineVersion.value);
    }
    assert Trim("v1") == "v1" by {
      assert TrimStart("v1") == "v1" && TrimEnd("v1") == "v1";
    }
    assert Lower("v1") == "v1";
  }

  // ----- The menus agree -----

  lemma {:induction false} FlattenSingletons<T>(ss: seq<seq<T>>, s: seq<T>)
    requires |ss| == |s| && forall i :: 0 <= i < |s| ==> ss[i] == [s[i]]
    ensures Flatten(ss) == s
  {
    if s != [] {
      FlattenSingletons(ss[..|ss| - 1], s[..|s| - 1]);
    }
  }

  /** A migrated menu expands to exactly the menu it came from. */
  lemma MenusAgree(fi: FrontendIntegration, feName: string, cfg: MigratorConfig)
    ensures InputOfFe(FrontendExtensionFromFi(fi, feName, cfg)).menus == InputOfFi(fi).menus
    ensures HavePlacements(FrontendExtensionFromFi(fi, feName, cfg).spec.frontend.menus)
  {
    var feMenus := FeMenusFrom(fi.spec.menus);
    forall i | 0 <= i < |feMenus| ensures Expand(feMenus[i]) == [FiMenuInput(fi.spec.menus[i])] {
      assert FeMenuInput(feMenus[i], fi.spec.menus[i].placement) == FiMenuInput(fi.spec.menus[i]);
    }
    FlattenSingletons(ExpandAll(feMenus), InputOfFi(fi).menus);
  }

  /** Every entry of both inputs names its page key, so requiring page keys changes no reference. */
  lemma RefsAgree(menus: seq<FrontendMenuSpec>)
    requires forall i :: 0 <= i < |menus| ==> NamesItsPages(menus[i])
    ensures RefsUpTo(menus, true, |menus|) == RefsUpTo(menus, false, |menus|)
  {
    forall i | 0 <= i < |menus| ensures MenuRefs(menus[i], true) == MenuRefs(menus[i], false) {
    }
  }

  predicate NamesItsPages(menu: FrontendMenuSpec) {
    && (menu.nodeType.Page? ==> menu.pageKey == Some(menu.key))
    && (menu.nodeType.Organization? ==> menu.pageKey.None?)
    && forall j :: 0 <= j < |menu.children| ==> menu.children[j].pageKey == Some(menu.children[j].key)
  }

  // ----- The pages agree -----

  ghost predicate UniqueReferencedKeys(input: FrontendRenderInput) {
    forall i, j :: 0 <= i < j < |input.pages| && input.pages[i].key in ReferencedPageKeys(input)
      ==> input.pages[i].key != input.pages[j].key
  }

  lemma PagesOkByLookup(input: FrontendRenderInput)
    ensures PagesOk(input) <==>
      && UniqueReferencedKeys(input)
      && forall k :: k in ReferencedPageKeys(input) && LookupPage(input.pages, k).Some?
           ==> KeyOk(k) && PageShapeOk(LookupPage(input.pages, k).value)
  {
    var refs := ReferencedPageKeys(input);
    if PagesOk(input) {
      forall k | k in refs && LookupPage(input.pages, k).Some? ensures KeyOk(k) && PageShapeOk(LookupPage(input.pages, k).value) {
        var j :| 0 <= j < |input.pages| && input.pages[j] == LookupPage(input.pages, k).value;
        assert PageAt(input, j);
      }
    }
    if UniqueReferencedKeys(input) && (forall k :: k in refs && LookupPage(input.pages, k).Some?
                                         ==> KeyOk(k) && PageShapeOk(LookupPage(input.pages, k).value)) {
      forall i | 0 <= i < |input.pages| ensures PageAt(input, i) {
        var k := input.pages[i].key;
        if k in refs {
          var found := LookupPage(input.pages, k);
          assert found.Some?;
          var j :| 0 <= j < |input.pages| && input.pages[j] == found.value;
          assert input.pages[j].key == input.pages[i].key;
        }
      }
    }
  }

  lemma {:induction false} FiLookup(pages: seq<FiPage>, inputs: seq<FrontendPageSpec>, key: string)
    requires |inputs| == |pages| && forall i :: 0 <= i < |pages| ==> inputs[i] == FiPageInput(pages[i])
    ensures LookupPage(inputs, key)
            == if FindPage(pages, key).Some? then Some(FiPageInput(FindPage(pages, key).value)) else None
  {
    if pages != [] {
      FiLookup(pages[1..], inputs[1..], key);
    }
  }

  lemma UsesOfMenu(menu: FiPrimaryMenu, k: string)
    ensures k in MenuRefs(FiMenuInput(menu), false) <==> (menu.placement, k) in UsesOf(menu)
    ensures forall u :: u in UsesOf(menu) ==> u.0 == menu.placement
  {
    if menu.nodeType.Organization? {
      var input := FiMenuInput(menu);
      assert forall j :: 0 <= j < |menu.children| ==> PageKeyOf(input.children[j].pageKey, input.children[j].key, false) == Some(menu.children[j].key);
      if k in MenuRefs(input, false) {
        var j :| 0 <= j < |menu.children| && menu.children[j].key == k;
        assert UsesOf(menu)[j] == (menu.placement, k);
      }
      if (menu.placement, k) in UsesOf(menu) {
        var j :| 0 <= j < |menu.children| && UsesOf(menu)[j] == (menu.placement, k);
        assert PageKeyOf(input.children[j].pageKey, input.children[j].key, false).value == k;
      }
    }
  }

  /** The uses the translation collects are the references the compiler counts, with their placements. */
  lemma UsesAreRefs(fi: FrontendIntegration, k: string)
    ensures k in ReferencedPageKeys(InputOfFi(fi)) <==> exists p :: (p, k) in Uses(fi)
    ensures forall i :: 0 <= i < |fi.spec.menus| && k in MenuRefs(InputOfFi(fi).menus[i], false)
              ==> (fi.spec.menus[i].placement, k) in Uses(fi)
  {
    var menus, lists := fi.spec.menus, UseLists(fi.spec.menus);
    forall i | 0 <= i < |menus| && k in MenuRefs(InputOfFi(fi).menus[i], false)
      ensures (menus[i].placement, k) in Uses(fi)
    {
      UsesOfMenu(menus[i], k);
      assert (menus[i].placement, k) in lists[i];
      FlattenMember(lists, (menus[i].placement, k));
    }
    if p :| (p, k) in Uses(fi) {
      FlattenMember(lists, (p, k));
      var i :| 0 <= i < |menus| && (p, k) in lists[i];
      UsesOfMenu(menus[i], k);
      assert k in MenuRefs(InputOfFi(fi).menus[i], false);
    }
  }

  lemma FePageAt(fi: FrontendIntegration, i: nat)
    requires i < |FePagesFrom(fi)|
    ensures var keys := SortedKeys(UsedKeys(fi, Uses(fi)));
      && |keys| == |FePagesFrom(fi)| && keys[i] in UsedKeys(fi, Uses(fi))
      && FePagesFrom(fi)[i] == FePageFor(fi, Uses(fi), keys[i])
  {
    var keys := SortedKeys(UsedKeys(fi, Uses(fi)));
    assert keys[i] in keys;
  }

  /** Each used page appears once among the migrated pages, with its uses as placements. */
  lemma FeLookup(fi: FrontendIntegration, inputs: seq<FrontendPageSpec>, key: string)
    requires |inputs| == |FePagesFrom(fi)| && forall i :: 0 <= i < |inputs| ==> inputs[i] == FePageInput(FePagesFrom(fi)[i])
    ensures LookupPage(inputs, key)
            == if key in UsedKeys(fi, Uses(fi)) then Some(FePageInput(FePageFor(fi, Uses(fi), key))) else None
  {
    var keys := SortedKeys(UsedKeys(fi, Uses(fi)));
    var found := LookupPage(inputs, key);
    if key in keys {
      var i :| 0 <= i < |keys| && keys[i] == key;
      FePageAt(fi, i);
      assert inputs[i].key == key;
    }
    if found.Some? {
      var j :| 0 <= j < |inputs| && inputs[j] == found.value;
      FePageAt(fi, j);
    }
  }

  lemma FeKeysUnique(fi: FrontendIntegration)
    ensures forall i, j :: 0 <= i < j < |FePagesFrom(fi)| ==> FePagesFrom(fi)[i].key != FePagesFrom(fi)[j].key
  {
    forall i, j | 0 <= i < j < |FePagesFrom(fi)| ensures FePagesFrom(fi)[i].key != FePagesFrom(fi)[j].key {
      FePageAt(fi, i);
      FePageAt(fi, j);
    }
  }

  /** What the two inputs have in common, in terms of menus and page lookups alone. */
  ghost predicate Corresponding(a: FrontendRenderInput, b: FrontendRenderInput) {
    && a.menus == b.menus
    && (forall i :: 0 <= i < |a.menus| ==> NamesItsPages(a.menus[i]))
    && ReferencedPageKeys(a) == ReferencedPageKeys(b)
    && !a.requirePageKey && b.requirePageKey
    && UniqueReferencedKeys(b)
    && forall k :: k in ReferencedPageKeys(a) ==> SameLookup(a, b, k)
  }

  ghost predicate SameLookup(a: FrontendRenderInput, b: FrontendRenderInput, k: string) {
    var p, q := LookupPage(a.pages, k), LookupPage(b.pages, k);
    && (p.Some? <==> q.Some?)
    && (p.Some? ==>
        && p.value.placements.None? && p.value.displayName.None?
        && q.value.placements.Some? && q.value.placements.value != []
        && q.value == p.value.(placements := q.value.placements)
        && forall i :: 0 <= i < |a.menus| && k in MenuRefs(a.menus[i], false) ==> a.menus[i].placement in q.value.placements.value)
  }

  /** A referenced page that exists is migrated with at least one placement, and with that of every menu referring to it. */
  lemma UsedPlacements(fi: FrontendIntegration, k: string)
    requires k in ReferencedPageKeys(InputOfFi(fi))
    ensures k in UsedKeys(fi, Uses(fi)) <==> FindPage(fi.spec.pages, k).Some?
    ensures PlacementsFor(Uses(fi), k) != []
    ensures forall i :: 0 <= i < |fi.spec.menus| && k in MenuRefs(InputOfFi(fi).menus[i], false)
              ==> fi.spec.menus[i].placement in PlacementsFor(Uses(fi), k)
  {
    hide ReferencedPageKeys, InputOfFi, MenuRefs;
    UsesAreRefs(fi, k);
    var p :| (p, k) in Uses(fi);
    var u :| 0 <= u < |Uses(fi)| && Uses(fi)[u] == (p, k);
    assert p in PlacementsFor(Uses(fi), k);
  }

  lemma LookupsAgree(fi: FrontendIntegration, b: FrontendRenderInput, k: string)
    requires |b.pages| == |FePagesFrom(fi)| && forall i :: 0 <= i < |b.pages| ==> b.pages[i] == FePageInput(FePagesFrom(fi)[i])
    requires k in ReferencedPageKeys(InputOfFi(fi))
    ensures SameLookup(InputOfFi(fi), b, k)
  {
    hide ReferencedPageKeys, MenuRefs, UsedKeys, FePagesFrom, PlacementsFor, Uses;
    var a := InputOfFi(fi);
    FiLookup(fi.spec.pages, a.pages, k);
    FeLookup(fi, b.pages, k);
    UsedPlacements(fi, k);
  }

  lemma InputsCorrespond(fi: FrontendIntegration, feName: string, cfg: MigratorConfig)
    ensures Corresponding(InputOfFi(fi), InputOfFe(FrontendExtensionFromFi(fi, feName, cfg)))
  {
    var a, b := InputOfFi(fi), InputOfFe(FrontendExtensionFromFi(fi, feName, cfg));
    MenusAgree(fi, feName, cfg);
    RefsAgree(a.menus);
    FeKeysUnique(fi);
    forall k | k in ReferencedPageKeys(a) ensures SameLookup(a, b, k) {
      LookupsAgree(fi, b, k);
    }
  }

  // ----- Acceptance agrees -----

  lemma MenuOkAgrees(a: FrontendRenderInput, b: FrontendRenderInput, i: nat)
    requires Corresponding(a, b) && i < |a.menus|
    ensures MenuOk(a, a.menus[i]) <==> MenuOk(b, b.menus[i])
  {
    var menu := a.menus[i];
    RefsInclude(a, i);
    assert NamesItsPages(menu);
    match menu.nodeType
    case Page =>
      assert menu.key in MenuRefs(menu, false);
      assert SameLookup(a, b, menu.key);
    case Organization =>
      forall j | 0 <= j < |menu.children| ensures ChildOk(a, menu, j) <==> ChildOk(b, menu, j) {
        assert menu.children[j].key in MenuRefs(menu, false);
        assert SameLookup(a, b, menu.children[j].key);
      }
  }

  lemma PagesOkAgree(a: FrontendRenderInput, b: FrontendRenderInput)
    requires Corresponding(a, b)
    ensures PagesOk(a) <==> PagesOk(b) && UniqueReferencedKeys(a)
  {
    hide PagesOk, UniqueReferencedKeys, KeyOk, ReferencedPageKeys, LookupPage;
    PagesOkByLookup(a);
    PagesOkByLookup(b);
    forall k | k in ReferencedPageKeys(a)
      ensures LookupPage(a.pages, k).Some? <==> LookupPage(b.pages, k).Some?
      ensures LookupPage(a.pages, k).Some? ==> (PageShapeOk(LookupPage(a.pages, k).value) <==> PageShapeOk(LookupPage(b.pages, k).value))
    {
      assert SameLookup(a, b, k);
    }
  }

  lemma AcceptanceAgrees(a: FrontendRenderInput, b: FrontendRenderInput)
    requires Corresponding(a, b)
    ensures Acceptable(a) <==> Acceptable(b) && UniqueReferencedKeys(a)
  {
    hide PagesOk, UniqueReferencedKeys, MenuOk, SameLookup, NamesItsPages, ReferencedPageKeys;
    PagesOkAgree(a, b);
    forall i | 0 <= i < |a.menus| ensures MenuOk(a, a.menus[i]) <==> MenuOk(b, b.menus[i]) {
      MenuOkAgrees(a, b, i);
    }
  }

  // ----- The manifests agree -----

  /** Corresponding bindings differ only in names, page-id suffix and the page's placement list. */
  predicate LeavesAlike(x: ResolvedPageBinding, y: ResolvedPageBinding) {
    && y.menuTitle == x.menuTitle && y.menuLevel == x.menuLevel && y.pageTitle == x.pageTitle && y.icon == x.icon
    && y.placement == x.placement && y.routeSuffix == x.routeSuffix
    && y.page == x.page.(placements := y.page.placements)
    && y.pageIdSuffix == y.page.key
  }

  /** Corresponding menu items have the same title and icon and sit in the same slot of the same parent. */
  ghost predicate ItemsAlike(x: MenuItem, y: MenuItem, a: FrontendRenderInput, b: FrontendRenderInput) {
    && y.title == x.title && y.icon == x.icon && y.order == x.order
    && exists placement: MenuPlacement, suffix: string :: SameSlotItems(x, y, a, b, placement, suffix)
  }

  ghost predicate SameSlotItems(x: MenuItem, y: MenuItem, a: FrontendRenderInput, b: FrontendRenderInput, placement: MenuPlacement, suffix: string) {
    && x.name == MenuNameForSuffix(a.routeNamespace, a.name, suffix)
    && y.name == MenuNameForSuffix(b.routeNamespace, b.name, suffix)
    && ((x.parent == placement.AsStr() && y.parent == placement.AsStr())
        || exists key: string ::
            && x.parent == NestedMenuParent(placement, MenuNameForSuffix(a.routeNamespace, a.name, key))
            && y.parent == NestedMenuParent(placement, MenuNameForSuffix(b.routeNamespace, b.name, key)))
  }

  lemma ChildrenAlike(a: FrontendRenderInput, b: FrontendRenderInput, i: nat, j: nat)
    requires Corresponding(a, b) && i < |a.menus| && a.menus[i].nodeType.Organization? && j < |a.menus[i].children|
    requires ChildOk(a, a.menus[i], j) && ChildOk(b, a.menus[i], j)
    ensures LeavesAlike(ChildBinding(a, a.menus[i], j), ChildBinding(b, a.menus[i], j))
    ensures ItemsAlike(
      RenderLeafMenu(ChildBinding(a, a.menus[i], j), a.extensionModule),
      RenderLeafMenu(ChildBinding(b, a.menus[i], j), b.extensionModule), a, b)
  {
    var menu := a.menus[i];
    RefsInclude(a, i);
    assert NamesItsPages(menu);
    assert menu.children[j].key in MenuRefs(menu, false);
    assert SameLookup(a, b, menu.children[j].key);
    assert SameSlotItems(
      RenderLeafMenu(ChildBinding(a, menu, j), a.extensionModule), RenderLeafMenu(ChildBinding(b, menu, j), b.extensionModule),
      a, b, menu.placement, RouteSuffixForChild(menu.key, menu.children[j].key));
  }

  lemma PageMenuAlike(a: FrontendRenderInput, b: FrontendRenderInput, i: nat)
    requires Corresponding(a, b) && i < |a.menus| && a.menus[i].nodeType.Page?
    requires MenuOk(a, a.menus[i]) && MenuOk(b, b.menus[i])
    ensures LeavesAlike(ResolvedMenu(a, a.menus[i]).binding, ResolvedMenu(b, b.menus[i]).binding)
    ensures ItemsAlike(
      RenderLeafMenu(ResolvedMenu(a, a.menus[i]).binding, a.extensionModule),
      RenderLeafMenu(ResolvedMenu(b, b.menus[i]).binding, b.extensionModule), a, b)
  {
    var menu := a.menus[i];
    RefsInclude(a, i);
    assert NamesItsPages(menu);
    assert menu.key in MenuRefs(menu, false);
    assert SameLookup(a, b, menu.key);
    assert SameSlotItems(
      RenderLeafMenu(ResolvedMenu(a, menu).binding, a.extensionModule), RenderLeafMenu(ResolvedMenu(b, menu).binding, b.extensionModule),
      a, b, menu.placement, menu.key);
  }

  lemma OrganizationItemAlike(a: FrontendRenderInput, b: FrontendRenderInput, i: nat)
    requires Corresponding(a, b) && i < |a.menus| && a.menus[i].nodeType.Organization?
    requires MenuOk(a, a.menus[i]) && MenuOk(b, b.menus[i])
    ensures ItemsAlike(
      RenderOrganizationMenu(ResolvedMenu(a, a.menus[i]).menu, a.extensionModule),
      RenderOrganizationMenu(ResolvedMenu(b, b.menus[i]).menu, b.extensionModule), a, b)
  {
    var menu := a.menus[i];
    assert SameSlotItems(
      RenderOrganizationMenu(ResolvedMenu(a, menu).menu, a.extensionModule),
      RenderOrganizationMenu(ResolvedMenu(b, menu).menu, b.extensionModule), a, b, menu.placement, menu.key);
  }

  lemma OneMenuAlike(a: FrontendRenderInput, b: FrontendRenderInput, i: nat)
    requires Corresponding(a, b) && i < |a.menus| && MenuOk(a, a.menus[i]) && MenuOk(b, b.menus[i])
    ensures var x, y := LeavesOf(ResolvedMenu(a, a.menus[i])), LeavesOf(ResolvedMenu(b, b.menus[i]));
      |x| == |y| && forall j :: 0 <= j < |x| ==> LeavesAlike(x[j], y[j])
    ensures var x, y := ItemsOf(ResolvedMenu(a, a.menus[i]), a.extensionModule), ItemsOf(ResolvedMenu(b, b.menus[i]), b.extensionModule);
      |x| == |y| && forall j :: 0 <= j < |x| ==> ItemsAlike(x[j], y[j], a, b)
  {
    hide LeavesAlike, ItemsAlike, ChildOk, ChildBinding, RenderLeafMenu, RenderOrganizationMenu;
    var menu := a.menus[i];
    match menu.nodeType
    case Page =>
      PageMenuAlike(a, b, i);
    case Organization =>
      OrganizationItemAlike(a, b, i);
      forall j | 0 <= j < |menu.children|
        ensures ChildOk(a, menu, j) && ChildOk(b, menu, j)
        ensures LeavesAlike(ChildBinding(a, menu, j), ChildBinding(b, menu, j))
        ensures ItemsAlike(RenderLeafMenu(ChildBinding(a, menu, j), a.extensionModule), RenderLeafMenu(ChildBinding(b, menu, j), b.extensionModule), a, b)
      {
        ChildrenAlike(a, b, i, j);
      }
  }

  lemma MenusAlike(a: FrontendRenderInput, b: FrontendRenderInput, i: nat)
    requires Corresponding(a, b) && Acceptable(a) && Acceptable(b) && i < |a.menus|
    ensures var x, y := LeavesOf(ResolvedMenu(a, a.menus[i])), LeavesOf(ResolvedMenu(b, b.menus[i]));
      |x| == |y| && forall j :: 0 <= j < |x| ==> LeavesAlike(x[j], y[j])
    ensures var x, y := ItemsOf(ResolvedMenu(a, a.menus[i]), a.extensionModule), ItemsOf(ResolvedMenu(b, b.menus[i]), b.extensionModule);
      |x| == |y| && forall j :: 0 <= j < |x| ==> ItemsAlike(x[j], y[j], a, b)
  {
    assert MenuOk(a, a.menus[i]) && MenuOk(b, b.menus[i]);
    OneMenuAlike(a, b, i);
  }

  lemma AllAlike(a: FrontendRenderInput, b: FrontendRenderInput)
    requires Corresponding(a, b) && Acceptable(a) && Acceptable(b)
    ensures |Leaves(a)| == |Leaves(b)| && forall i :: 0 <= i < |Leaves(a)| ==> LeavesAlike(Leaves(a)[i], Leaves(b)[i])
    ensures |ManifestOf(a).menus| == |ManifestOf(b).menus|
    ensures forall i :: 0 <= i < |ManifestOf(a).menus| ==> ItemsAlike(ManifestOf(a).menus[i], ManifestOf(b).menus[i], a, b)
  {
    forall i | 0 <= i < |a.menus|
      ensures var x, y := LeavesOf(ResolvedMenu(a, a.menus[i])), LeavesOf(ResolvedMenu(b, b.menus[i]));
        |x| == |y| && forall j :: 0 <= j < |x| ==> LeavesAlike(x[j], y[j])
      ensures var x, y := ItemsOf(ResolvedMenu(a, a.menus[i]), a.extensionModule), ItemsOf(ResolvedMenu(b, b.menus[i]), b.extensionModule);
        |x| == |y| && forall j :: 0 <= j < |x| ==> ItemsAlike(x[j], y[j], a, b)
    {
      MenusAlike(a, b, i);
    }
    FlattenMatch(LeafLists(ResolvedMenus(a)), LeafLists(ResolvedMenus(b)), LeavesAlike);
    FlattenMatch(ItemLists(ResolvedMenus(a), a.extensionModule), ItemLists(ResolvedMenus(b), b.extensionModule),
      (x, y) => ItemsAlike(x, y, a, b));
  }

  /** Same type and content, up to id, module and title. */
  predicate SameContent(p: RenderedPage, q: RenderedPage) {
    match (p, q)
    case (IframePage(_, _, src), IframePage(_, _, src')) => src == src'
    case (CrdPage(_, _, placement, _, crd), CrdPage(_, _, placement', _, crd')) => placement == placement' && crd == crd'
    case _ => false
  }

  ghost predicate SameRoute(x: Route, y: Route, a: FrontendRenderInput, b: FrontendRenderInput) {
    exists placement: MenuPlacement, suffix: string ::
      && x.path == RoutePath(a.routeNamespace, a.name, placement, suffix)
      && y.path == RoutePath(b.routeNamespace, b.name, placement, suffix)
  }

  /** `j` is the first route of `m` that leads to the page of route `i`. */
  ghost predicate FirstRouteTo(m: Manifest, i: nat, j: nat)
    requires i < |m.routes|
  {
    && j <= i
    && m.routes[j].pageId == m.routes[i].pageId
    && forall h :: 0 <= h < j ==> m.routes[h].pageId != m.routes[i].pageId
  }

  /** Route `i` of each manifest leads to the same content; a shared page carries the title of its first route. */
  ghost predicate SameTarget(m: Manifest, m': Manifest, i: nat)
    requires i < |m.routes| == |m.pages| && |m'.routes| == |m.routes|
  {
    && m.pages[i].id == m.routes[i].pageId
    && exists k, j ::
        && 0 <= k < |m'.pages| && 0 <= j < |m'.routes|
        && m'.pages[k].id == m'.routes[i].pageId
        && SameContent(m.pages[i], m'.pages[k])
        && FirstRouteTo(m', i, j)
        && m'.pages[k].title == m.pages[j].title
  }

  /** Two manifests that mean the same after renaming namespace and name. */
  ghost predicate SameMeaning(m: Manifest, m': Manifest, a: FrontendRenderInput, b: FrontendRenderInput) {
    && m'.displayName == m.displayName && m'.locales == m.locales && m'.version == m.version
    && |m'.menus| == |m.menus| && (forall i :: 0 <= i < |m.menus| ==> ItemsAlike(m.menus[i], m'.menus[i], a, b))
    && |m'.routes| == |m.routes| == |m.pages|
    && (forall i :: 0 <= i < |m.routes| ==> SameRoute(m.routes[i], m'.routes[i], a, b))
    && (forall i :: 0 <= i < |m.routes| ==> SameTarget(m, m', i))
  }

  /** Bindings that lead to one page of a migrated extension carry one and the same page. */
  lemma SharedPage(b: FrontendRenderInput, x: ResolvedPageBinding, y: ResolvedPageBinding)
    requires Acceptable(b) && b.requirePageKey && x in Leaves(b) && y in Leaves(b) && SamePage(x, y)
    ensures x.page == y.page
  {
    LeafPage(b, x);
    LeafPage(b, y);
  }

  lemma LeafPage(b: FrontendRenderInput, x: ResolvedPageBinding)
    requires Acceptable(b) && b.requirePageKey && x in Leaves(b)
    ensures LookupPage(b.pages, x.pageIdSuffix) == Some(x.page)
  {
    FlattenMember(LeafLists(ResolvedMenus(b)), x);
    var i :| 0 <= i < |b.menus| && x in LeafLists(ResolvedMenus(b))[i];
    var menu := b.menus[i];
    if menu.nodeType.Organization? {
      var j :| 0 <= j < |menu.children| && x == LeavesOf(ResolvedMenu(b, menu))[j];
      assert ChildOk(b, menu, j);
    }
  }

  /** The first binding of the page that leaf `i` leads to, with its place among the pages and among the leaves. */
  lemma FirstLeaf(b: FrontendRenderInput, i: nat) returns (k: nat, j: nat)
    requires Acceptable(b) && b.requirePageKey && i < |Leaves(b)|
    ensures var lb, m := Leaves(b), ManifestOf(b);
      && k < |FirstBindings(lb)| && k < |m.pages| && j < |lb| && |m.routes| == |lb|
      && FirstBindings(lb)[k] == lb[j] && lb[j].page == lb[i].page
      && m.pages[k].id == m.routes[i].pageId && FirstRouteTo(m, i, j)
  {
    hide Acceptable, Leaves;
    var lb, m := Leaves(b), ManifestOf(b);
    LeavesAreGood(b);
    k := FirstOf(lb, i);
    var first := FirstBindings(lb)[k];
    FirstBindingsSpec(lb);
    assert first in FirstBindings(lb);
    j :| 0 <= j < |lb| && lb[j] == first && !SeenPage(lb[..j], first);
    FirstRoute(b, i, j);
    assert lb[i] in lb && lb[j] in lb;
    SharedPage(b, lb[j], lb[i]);
    FirstAreGood(lb);
    PageAtBinding(b.name, b.extensionModule, FirstBindings(lb), k);
  }

  lemma TargetsAlike(a: FrontendRenderInput, b: FrontendRenderInput, i: nat)
    requires Corresponding(a, b) && Acceptable(a) && Acceptable(b) && i < |Leaves(a)|
    ensures |ManifestOf(a).pages| == |ManifestOf(a).routes| == |ManifestOf(b).routes| == |Leaves(a)|
    ensures SameTarget(ManifestOf(a), ManifestOf(b), i)
  {
    hide Acceptable, Leaves, UniqueReferencedKeys, SameLookup, FirstRouteTo, FirstBindings;
    var m, m', la, lb := ManifestOf(a), ManifestOf(b), Leaves(a), Leaves(b);
    AllAlike(a, b);
    OnePagePerRoute(a);
    LeavesAreGood(a);
    LeavesAreGood(b);
    var k, j := FirstLeaf(b, i);
    assert LeavesAlike(la[i], lb[i]) && LeavesAlike(la[j], lb[j]);
    LeavesLeadToDistinctPages(a);
    AllFirst(la);
    FirstAreGood(lb);
    PageAtBinding(a.name, a.extensionModule, la, i);
    PageAtBinding(a.name, a.extensionModule, la, j);
    PageAtBinding(b.name, b.extensionModule, FirstBindings(lb), k);
    assert SameContent(m.pages[i], m'.pages[k]);
    assert m'.pages[k].title == m.pages[j].title;
  }

  lemma PageAtBinding(name: string, mod: Option<string>, bs: seq<ResolvedPageBinding>, i: nat)
    requires AllGood(bs) && i < |bs|
    ensures bs[i] in bs
    ensures PagesOf(name, bs, mod)[i] == PageOf(name, bs[i], mod)
  {
    assert bs[i] in bs;
  }

  lemma FirstRoute(b: FrontendRenderInput, i: nat, j: nat)
    requires Acceptable(b) && i < |Leaves(b)| && j < |Leaves(b)|
    requires SamePage(Leaves(b)[j], Leaves(b)[i]) && !SeenPage(Leaves(b)[..j], Leaves(b)[j])
    ensures FirstRouteTo(ManifestOf(b), i, j)
  {
    var lb, m := Leaves(b), ManifestOf(b);
    LeavesAreGood(b);
    if i < j {
      assert SamePage(lb[..j][i], lb[j]);
    }
    forall h | 0 <= h < j ensures m.routes[h].pageId != m.routes[i].pageId {
      assert lb[h] in lb && lb[i] in lb;
      assert lb[..j][h] == lb[h];
      PageIdInjective(b.name, lb[h].placement, lb[h].pageIdSuffix, lb[i].placement, lb[i].pageIdSuffix);
    }
  }

  lemma ManifestsAgree(a: FrontendRenderInput, b: FrontendRenderInput)
    requires Corresponding(a, b) && Acceptable(a) && Acceptable(b)
    requires a.displayName.UnwrapOr(a.name) == b.displayName.UnwrapOr(b.name) && a.locales == b.locales
    ensures SameMeaning(ManifestOf(a), ManifestOf(b), a, b)
  {
    AllAlike(a, b);
    OnePagePerRoute(a);
    forall i | 0 <= i < |Leaves(a)|
      ensures SameTarget(ManifestOf(a), ManifestOf(b), i)
      ensures SameRoute(ManifestOf(a).routes[i], ManifestOf(b).routes[i], a, b)
    {
      TargetsAlike(a, b, i);
      var x := Leaves(a)[i];
      assert LeavesAlike(x, Leaves(b)[i]);
      assert ManifestOf(a).routes[i].path == RoutePath(a.routeNamespace, a.name, x.placement, x.routeSuffix);
    }
  }

  // ----- The main result -----

  /**
   With a v1 fallback version, an integration renders exactly when its migrated
   extension renders and its referenced page keys are unique; and then the two
   manifests have the same meaning.
   */
  lemma MigrationPreservesMeaning(fi: FrontendIntegration, feName: string, cfg: MigratorConfig)
    requires IsV1Alias(Some(cfg.schemaVersion))
    ensures var fe := FrontendExtensionFromFi(fi, feName, cfg); var a, b := InputOfFi(fi), InputOfFe(fe);
      && (FiRenders(fi) <==> FeRenders(fe) && UniqueReferencedKeys(a))
      && (FiRenders(fi) ==> SameMeaning(ManifestOf(a), ManifestOf(b), a, b) && ManifestOf(b).name == feName)
  {
    var fe := FrontendExtensionFromFi(fi, feName, cfg);
    var a, b := InputOfFi(fi), InputOfFe(fe);
    VersionsAgree(fi, feName, cfg);
    MenusAgree(fi, feName, cfg);
    InputsCorrespond(fi, feName, cfg);
    AcceptanceAgrees(a, b);
    if FiRenders(fi) {
      ManifestsAgree(a, b);
    }
  }

  // ----- Unique page keys are needed -----

  function DemoIntegration(copies: nat): FrontendIntegration {
    var page := FiPage("demo", Iframe, None, Some(IframePageSpec("http://example.test")));
    var menu := FiPrimaryMenu("Demo", "demo", None, Global, Page, []);
    FrontendIntegration("demo", None, map[], FiSpec(None, map[], None, [menu], seq(copies, _ => page), None))
  }

  lemma DemoRefs(copies: nat)
    ensures ReferencedPageKeys(InputOfFi(DemoIntegration(copies))) == {"demo"}
  {
    var a := InputOfFi(DemoIntegration(copies));
    assert MenuRefs(a.menus[0], false) == {"demo"};
  }

  lemma OneCopyRenders()
    ensures FiRenders(DemoIntegration(1))
  {
    var a := InputOfFi(DemoIntegration(1));
    DemoRefs(1);
    assert Trim("v1") == "v1" && Lower("v1") == "v1";
    assert KeyOk("demo") by {
      assert "demo" == ['d', 'e', 'm', 'o'];
    }
    assert LookupPage(a.pages, "demo") == Some(a.pages[0]);
    assert MenuOk(a, a.menus[0]);
  }

  lemma TwoCopiesMigrateAlike(cfg: MigratorConfig, feName: string)
    ensures FrontendExtensionFromFi(DemoIntegration(2), feName, cfg) == FrontendExtensionFromFi(DemoIntegration(1), feName, cfg)
  {
    var one, two := DemoIntegration(1), DemoIntegration(2);
    assert forall k :: FindPage(one.spec.pages, k) == FindPage(two.spec.pages, k) by {
      assert two.spec.pages[1..] == one.spec.pages;
    }
    SameUsedPages(one, two);
  }

  lemma TwoCopiesClash()
    ensures !UniqueReferencedKeys(InputOfFi(DemoIntegration(2)))
  {
    var a := InputOfFi(DemoIntegration(2));
    DemoRefs(2);
    assert a.pages[0].key == a.pages[1].key == "demo";
  }

  /** An integration that lists its page twice is rejected, although its migrated extension renders. */
  lemma DuplicatePageIsForgotten(cfg: MigratorConfig, feName: string)
    requires IsV1Alias(Some(cfg.schemaVersion))
    ensures !FiRenders(DemoIntegration(2)) && FeRenders(FrontendExtensionFromFi(DemoIntegration(2), feName, cfg))
  {
    OneCopyRenders();
    MigrationPreservesMeaning(DemoIntegration(1), feName, cfg);
    MigrationPreservesMeaning(DemoIntegration(2), feName, cfg);
    TwoCopiesMigrateAlike(cfg, feName);
    TwoCopiesClash();
  }

  lemma SameUsedPages(fi: FrontendIntegration, other: FrontendIntegration)
    requires other.spec.menus == fi.spec.menus
    requires forall k :: k in UsedKeys(fi, Uses(fi)) + UsedKeys(other, Uses(other)) ==> FindPage(fi.spec.pages, k) == FindPage(other.spec.pages, k)
    ensures FePagesFrom(fi) == FePagesFrom(other)
  {
    assert UsedKeys(fi, Uses(fi)) == UsedKeys(other, Uses(other));
    forall i | 0 <= i < |FePagesFrom(fi)| ensures FePagesFrom(fi)[i] == FePagesFrom(other)[i] {
      FePageAt(fi, i);
      FePageAt(other, i);
    }
  }
}
