/** Every accepted manifest is well linked. */
module ManifestLinks {
  import opened Prelude
  import opened FrontendTypes
  import opened Resolve
  import opened Render
  import opened Sequences

  const FI_NAMESPACE := "frontendintegrations"
  const FE_NAMESPACE := "frontendextensions"

  // ----- The slots (placement, suffix) that menus and routes occupy -----

  function LeafSlots(menu: FrontendMenuSpec): seq<(MenuPlacement, string)> {
    match menu.nodeType
    case Page => [(menu.placement, menu.key)]
    case Organization =>
      seq(|menu.children|, j requires 0 <= j < |menu.children| => (menu.placement, RouteSuffixForChild(menu.key, menu.children[j].key)))
  }

  function MenuSlots(menu: FrontendMenuSpec): seq<(MenuPlacement, string)> {
    match menu.nodeType
    case Page => LeafSlots(menu)
    case Organization => [(menu.placement, menu.key)] + LeafSlots(menu)
  }

  function AllLeafSlots(menus: seq<FrontendMenuSpec>): seq<seq<(MenuPlacement, string)>> {
    seq(|menus|, i requires 0 <= i < |menus| => LeafSlots(menus[i]))
  }

  function AllMenuSlots(menus: seq<FrontendMenuSpec>): seq<seq<(MenuPlacement, string)>> {
    seq(|menus|, i requires 0 <= i < |menus| => MenuSlots(menus[i]))
  }

  lemma SlotsOfOneMenu(input: FrontendRenderInput, menu: FrontendMenuSpec)
    requires MenuOk(input, menu)
    ensures Distinct(MenuSlots(menu)) && Distinct(LeafSlots(menu))
  {
    KeyHasNoSeparator(menu.key);
    if menu.nodeType.Organization? {
      var slots := LeafSlots(menu);
      forall a, b | 0 <= a < b < |slots| ensures slots[a] != slots[b] {
        if slots[a] == slots[b] {
          SplitUnique(menu.key, menu.children[a].key, menu.key, menu.children[b].key, '/');
        }
      }
      forall a | 0 <= a < |slots| ensures slots[a] != (menu.placement, menu.key) {
        assert slots[a].1[|menu.key|] == '/';
      }
    }
  }

  lemma SlotsOfTwoMenus(a: FrontendMenuSpec, b: FrontendMenuSpec, x: (MenuPlacement, string))
    requires KeyOk(a.key) && KeyOk(b.key) && !SameSlot(a, b)
    requires x in MenuSlots(a)
    ensures x !in MenuSlots(b)
  {
    KeyHasNoSeparator(a.key);
    KeyHasNoSeparator(b.key);
    if x in MenuSlots(b) {
      assert x.0 == a.placement == b.placement;
      SlotHead(a, x.1);
      SlotHead(b, x.1);
    }
  }

  /** The key of the menu that a slot belongs to can be read off its suffix. */
  lemma SlotHead(menu: FrontendMenuSpec, suffix: string)
    requires '/' !in menu.key && (menu.placement, suffix) in MenuSlots(menu)
    ensures |suffix| >= |menu.key| && suffix[..|menu.key|] == menu.key
    ensures |suffix| > |menu.key| ==> suffix[|menu.key|] == '/'
  {
  }

  lemma LeafSlotsAreMenuSlots(menu: FrontendMenuSpec)
    ensures forall x :: x in LeafSlots(menu) ==> x in MenuSlots(menu)
  {
  }

  lemma SlotsDistinct(input: FrontendRenderInput)
    requires Acceptable(input)
    ensures Distinct(Flatten(AllMenuSlots(input.menus)))
    ensures Distinct(Flatten(AllLeafSlots(input.menus)))
  {
    var all, leaf := AllMenuSlots(input.menus), AllLeafSlots(input.menus);
    forall i | 0 <= i < |input.menus| ensures Distinct(MenuSlots(input.menus[i])) && Distinct(LeafSlots(input.menus[i])) {
      SlotsOfOneMenu(input, input.menus[i]);
    }
    forall i, j, x | 0 <= i < j < |input.menus| && x in MenuSlots(input.menus[i]) ensures x !in MenuSlots(input.menus[j]) {
      assert MenuOk(input, input.menus[i]) && MenuOk(input, input.menus[j]) && !SameSlot(input.menus[i], input.menus[j]);
      SlotsOfTwoMenus(input.menus[i], input.menus[j], x);
    }
    hide Acceptable, MenuSlots, LeafSlots;
    assert PairwiseDisjoint(all);
    assert PairwiseDisjoint(leaf) by {
      forall i, j, x | 0 <= i < j < |leaf| && x in leaf[i] ensures x !in leaf[j] {
        LeafSlotsAreMenuSlots(input.menus[i]);
        LeafSlotsAreMenuSlots(input.menus[j]);
      }
    }
    FlattenDistinct(all);
    FlattenDistinct(leaf);
  }

  // ----- Slots describe the rendered routes and menu items -----

  predicate InPlacement(parent: string, placement: MenuPlacement) {
    parent == placement.AsStr() || placement.AsStr() + "." <= parent
  }

  predicate LeafFits(b: ResolvedPageBinding, slot: (MenuPlacement, string)) {
    b.placement == slot.0 && b.routeSuffix == slot.1
  }

  predicate ItemFits(input: FrontendRenderInput, item: MenuItem, slot: (MenuPlacement, string)) {
    item.name == MenuNameForSuffix(input.routeNamespace, input.name, slot.1) && InPlacement(item.parent, slot.0)
  }

  /** Two lists of lists whose lists match in length and element-wise match when flattened. */
  lemma {:induction false} FlattenMatch<A, B>(xs: seq<seq<A>>, ys: seq<seq<B>>, fits: (A, B) -> bool)
    requires |xs| == |ys|
    requires forall i :: 0 <= i < |xs| ==> |xs[i]| == |ys[i]| && forall j :: 0 <= j < |xs[i]| ==> fits(xs[i][j], ys[i][j])
    ensures |Flatten(xs)| == |Flatten(ys)|
    ensures forall k :: 0 <= k < |Flatten(xs)| ==> fits(Flatten(xs)[k], Flatten(ys)[k])
  {
    if xs != [] {
      var n := |xs| - 1;
      var f, g := Flatten(xs[..n]), Flatten(ys[..n]);
      FlattenMatch(xs[..n], ys[..n], fits);
      assert Flatten(xs) == f + xs[n] && Flatten(ys) == g + ys[n];
      forall k | 0 <= k < |f + xs[n]| ensures fits((f + xs[n])[k], (g + ys[n])[k]) {
        if k >= |f| { assert fits(xs[n][k - |f|], ys[n][k - |f|]); }
      }
    }
  }

  lemma LeavesFit(input: FrontendRenderInput)
    requires Acceptable(input)
    ensures var slots := Flatten(AllLeafSlots(input.menus));
      && |Leaves(input)| == |slots|
      && forall k :: 0 <= k < |slots| ==> LeafFits(Leaves(input)[k], slots[k])
  {
    FlattenMatch(LeafLists(ResolvedMenus(input)), AllLeafSlots(input.menus), LeafFits);
  }

  lemma MenuItemsFit(input: FrontendRenderInput, menu: FrontendMenuSpec)
    requires MenuOk(input, menu)
    ensures var items, slots := ItemsOf(ResolvedMenu(input, menu), input.extensionModule), MenuSlots(menu);
      |items| == |slots| && forall j :: 0 <= j < |items| ==> ItemFits(input, items[j], slots[j])
  {
    match menu.nodeType
    case Page => PageItemFits(input, menu);
    case Organization => OrganizationItemsFit(input, menu);
  }

  lemma OrganizationItemsFit(input: FrontendRenderInput, menu: FrontendMenuSpec)
    requires MenuOk(input, menu) && menu.nodeType.Organization?
    ensures var items, slots := ItemsOf(ResolvedMenu(input, menu), input.extensionModule), MenuSlots(menu);
      |items| == |slots| && forall j :: 0 <= j < |items| ==> ItemFits(input, items[j], slots[j])
  {
    hide ItemFits, LeafOk, KeyOk, ChildBinding, RenderLeafMenu, RenderOrganizationMenu, MenuNameForSuffix, RouteSuffixForChild;
    var items, slots := ItemsOf(ResolvedMenu(input, menu), input.extensionModule), MenuSlots(menu);
    OrganizationItemFits(input, menu);
    forall j | 0 < j < |items| ensures ItemFits(input, items[j], slots[j]) {
      assert ChildOk(input, menu, j - 1);
      ChildItemFits(input, menu, j - 1);
    }
  }

  lemma OrganizationItemFits(input: FrontendRenderInput, menu: FrontendMenuSpec)
    requires MenuOk(input, menu) && menu.nodeType.Organization?
    ensures ItemFits(input, RenderOrganizationMenu(ResolvedMenu(input, menu).menu, input.extensionModule), (menu.placement, menu.key))
  {
  }

  lemma PageItemFits(input: FrontendRenderInput, menu: FrontendMenuSpec)
    requires MenuOk(input, menu) && menu.nodeType.Page?
    ensures var items, slots := ItemsOf(ResolvedMenu(input, menu), input.extensionModule), MenuSlots(menu);
      |items| == |slots| == 1 && ItemFits(input, items[0], slots[0])
  {
  }

  lemma ChildItemFits(input: FrontendRenderInput, menu: FrontendMenuSpec, j: nat)
    requires j < |menu.children| && ChildOk(input, menu, j)
    ensures ItemFits(
      input, RenderLeafMenu(ChildBinding(input, menu, j), input.extensionModule),
      (menu.placement, RouteSuffixForChild(menu.key, menu.children[j].key)))
  {
  }

  lemma ItemsFit(input: FrontendRenderInput)
    requires Acceptable(input)
    ensures var slots := Flatten(AllMenuSlots(input.menus));
      && |ManifestOf(input).menus| == |slots|
      && forall k :: 0 <= k < |slots| ==> ItemFits(input, ManifestOf(input).menus[k], slots[k])
  {
    var items, slots := ItemLists(ResolvedMenus(input), input.extensionModule), AllMenuSlots(input.menus);
    forall i | 0 <= i < |items|
      ensures |items[i]| == |slots[i]|
      ensures forall j :: 0 <= j < |items[i]| ==> ItemFits(input, items[i][j], slots[i][j])
    {
      assert MenuOk(input, input.menus[i]);
      MenuItemsFit(input, input.menus[i]);
    }
    hide Acceptable, ItemFits, ItemsOf, MenuSlots;
    FlattenMatch(items, slots, (item, slot) => ItemFits(input, item, slot));
  }

  // ----- Distinct slots have distinct names and paths -----

  function PlacementLetter(p: MenuPlacement): char {
    match p case Cluster => 'c' case Workspace => 'w' case Global => 'f'
  }

  lemma RoutePrefixLetter(p: MenuPlacement, tail: string)
    requires |tail| > 1 && tail[1] == 'f'
    ensures (p.RoutePrefix() + tail)[1] == PlacementLetter(p)
  {
    match p
    case Cluster => assert p.RoutePrefix()[1] == 'c';
    case Workspace => assert p.RoutePrefix()[1] == 'w';
    case Global => assert p.RoutePrefix() == "";
  }

  lemma SecondLetter(ns: string, rest: string)
    requires ns == FI_NAMESPACE || ns == FE_NAMESPACE
    ensures |"/" + ns + rest| > 1 && ("/" + ns + rest)[1] == 'f'
  {
    assert ns[0] == 'f';
  }

  lemma RoutePathGroups(ns: string, name: string, p: MenuPlacement, s: string)
    ensures RoutePath(ns, name, p, s) == p.RoutePrefix() + ("/" + ns + ("/" + name + "/" + s))
  {
    var prefix := p.RoutePrefix();
    assert prefix + "/" + ns + "/" + name + "/" + s == prefix + ("/" + ns + ("/" + name + "/" + s));
  }

  lemma RoutePathLetter(ns: string, name: string, p: MenuPlacement, s: string)
    requires ns == FI_NAMESPACE || ns == FE_NAMESPACE
    ensures |RoutePath(ns, name, p, s)| > 1 && RoutePath(ns, name, p, s)[1] == PlacementLetter(p)
  {
    var rest := "/" + name + "/" + s;
    SecondLetter(ns, rest);
    RoutePrefixLetter(p, "/" + ns + rest);
    hide *;
    RoutePathGroups(ns, name, p, s);
  }

  lemma RoutePathInjective(ns: string, name: string, p: MenuPlacement, s: string, q: MenuPlacement, t: string)
    requires ns == FI_NAMESPACE || ns == FE_NAMESPACE
    requires RoutePath(ns, name, p, s) == RoutePath(ns, name, q, t)
    ensures p == q && s == t
  {
    RoutePathLetter(ns, name, p, s);
    RoutePathLetter(ns, name, q, t);
    SuffixCancel(p.RoutePrefix() + "/" + ns + "/" + name + "/", s, t);
  }

  lemma SuffixCancel(head: string, s: string, t: string)
    requires head + s == head + t
    ensures s == t
  {
    assert s == (head + s)[|head|..] && t == (head + t)[|head|..];
  }

  lemma PlacementOfParent(parent: string, p: MenuPlacement, q: MenuPlacement)
    requires InPlacement(parent, p) && InPlacement(parent, q)
    ensures p == q
  {
    assert parent[0] == p.AsStr()[0] == q.AsStr()[0];
  }

  lemma MenuNameInjective(ns: string, name: string, s: string, t: string)
    requires MenuNameForSuffix(ns, name, s) == MenuNameForSuffix(ns, name, t)
    ensures s == t
  {
    SuffixCancel(ns + "/" + name + "/", s, t);
  }

  // ----- First bindings -----

  /** One binding is kept for each page: the earliest one that leads to it. */
  lemma {:induction false} FirstBindingsSpec(bs: seq<ResolvedPageBinding>)
    ensures forall i, j :: 0 <= i < j < |FirstBindings(bs)| ==> !SamePage(FirstBindings(bs)[i], FirstBindings(bs)[j])
    ensures forall k :: 0 <= k < |bs| ==> SeenPage(FirstBindings(bs), bs[k])
    ensures forall b :: b in FirstBindings(bs) ==> exists k :: 0 <= k < |bs| && bs[k] == b && !SeenPage(bs[..k], b)
  {
    if bs != [] {
      var front, last := bs[..|bs| - 1], bs[|bs| - 1];
      FirstBindingsSpec(front);
      var first := FirstBindings(front);
      forall k | 0 <= k < |bs| ensures SeenPage(FirstBindings(bs), bs[k]) {
        var target := if k < |front| then front[k] else last;
        if k < |front| || SeenPage(front, last) {
          if k == |front| {
            var m :| 0 <= m < |front| && SamePage(front[m], last);
            assert SeenPage(first, front[m]);
          }
          var i :| 0 <= i < |first| && SamePage(first[i], bs[k]);
          assert SamePage(FirstBindings(bs)[i], bs[k]);
        } else {
          assert SamePage(FirstBindings(bs)[|first|], bs[k]);
        }
      }
      forall b | b in FirstBindings(bs) ensures exists k :: 0 <= k < |bs| && bs[k] == b && !SeenPage(bs[..k], b) {
        if b in first {
          var k :| 0 <= k < |front| && front[k] == b && !SeenPage(front[..k], b);
          assert bs[k] == b && bs[..k] == front[..k];
        } else {
          assert bs[|front|] == b && bs[..|front|] == front;
        }
      }
      if !SeenPage(front, last) {
        forall i | 0 <= i < |first| ensures !SamePage(first[i], last) {
          assert first[i] in front;
        }
      }
    }
  }

  // ----- Well-linked manifests -----

  ghost predicate RoutesPathsDistinct(m: Manifest) {
    forall i, j :: 0 <= i < j < |m.routes| ==> m.routes[i].path != m.routes[j].path
  }

  ghost predicate PageIdsDistinct(m: Manifest) {
    forall i, j :: 0 <= i < j < |m.pages| ==> m.pages[i].id != m.pages[j].id
  }

  function RouteTargets(routes: seq<Route>): set<string> {
    set i | 0 <= i < |routes| :: routes[i].pageId
  }

  function IdsOf(pages: seq<RenderedPage>): set<string> {
    set i | 0 <= i < |pages| :: pages[i].id
  }

  ghost predicate RoutesMatchPages(m: Manifest) {
    RouteTargets(m.routes) == IdsOf(m.pages)
  }

  ghost predicate MenuNamesUnique(m: Manifest) {
    forall i, j, p :: 0 <= i < j < |m.menus| && InPlacement(m.menus[i].parent, p) && InPlacement(m.menus[j].parent, p)
      ==> m.menus[i].name != m.menus[j].name
  }

  /** Every menu item hangs off its placement or off an organization menu of its placement emitted before it. */
  ghost predicate ParentsEarlier(input: FrontendRenderInput, m: Manifest)
    requires Acceptable(input)
  {
    forall i :: 0 <= i < |m.menus| ==>
      || (exists p: MenuPlacement :: m.menus[i].parent == p.AsStr())
      || exists j, k :: 0 <= j < i && 0 <= k < |input.menus| && IsOrganizationItem(input, m.menus[j], k)
           && m.menus[i].parent == NestedMenuParent(input.menus[k].placement, m.menus[j].name)
  }

  ghost predicate IsOrganizationItem(input: FrontendRenderInput, item: MenuItem, k: int)
    requires Acceptable(input) && 0 <= k < |input.menus|
  {
    var top := ResolvedMenu(input, input.menus[k]);
    top.OrganizationMenu? && item == RenderOrganizationMenu(top.menu, input.extensionModule)
  }

  lemma RoutesLink(input: FrontendRenderInput)
    requires Acceptable(input)
    requires input.routeNamespace == FI_NAMESPACE || input.routeNamespace == FE_NAMESPACE
    ensures RoutesPathsDistinct(ManifestOf(input))
  {
    var m, slots := ManifestOf(input), Flatten(AllLeafSlots(input.menus));
    SlotsDistinct(input);
    LeavesFit(input);
    forall i, j | 0 <= i < j < |m.routes| ensures m.routes[i].path != m.routes[j].path {
      if m.routes[i].path == m.routes[j].path {
        var a, b := Leaves(input)[i], Leaves(input)[j];
        assert LeafFits(a, slots[i]) && LeafFits(b, slots[j]);
        RoutePathInjective(input.routeNamespace, input.name, a.placement, a.routeSuffix, b.placement, b.routeSuffix);
      }
    }
  }

  lemma FirstAreGood(bs: seq<ResolvedPageBinding>)
    requires AllGood(bs)
    ensures AllGood(FirstBindings(bs))
  {
  }

  lemma PageIdAt(name: string, mod: Option<string>, bs: seq<ResolvedPageBinding>, i: nat)
    requires AllGood(bs) && i < |bs|
    ensures PagesOf(name, bs, mod)[i].id == PageIdForSuffix(name, bs[i].placement, bs[i].pageIdSuffix)
  {
    assert bs[i] in bs;
  }

  lemma FirstPageIdsDistinct(name: string, mod: Option<string>, leaves: seq<ResolvedPageBinding>, i: nat, j: nat)
    requires AllGood(leaves) && AllGood(FirstBindings(leaves)) && i < j < |FirstBindings(leaves)|
    ensures var pages := PagesOf(name, FirstBindings(leaves), mod); pages[i].id != pages[j].id
  {
    var first := FirstBindings(leaves);
    FirstBindingsSpec(leaves);
    PageIdAt(name, mod, first, i);
    PageIdAt(name, mod, first, j);
    assert first[i] in first && first[j] in first;
    PageIdInjective(name, first[i].placement, first[i].pageIdSuffix, first[j].placement, first[j].pageIdSuffix);
  }

  lemma TargetsAreIds(ns: string, name: string, mod: Option<string>, leaves: seq<ResolvedPageBinding>)
    requires AllGood(leaves) && AllGood(FirstBindings(leaves))
    ensures RouteTargets(RenderRoutes(ns, name, leaves)) == IdsOf(PagesOf(name, FirstBindings(leaves), mod))
  {
    var first := FirstBindings(leaves);
    var pages, routes := PagesOf(name, first, mod), RenderRoutes(ns, name, leaves);
    forall i | 0 <= i < |routes| ensures routes[i].pageId in IdsOf(pages) {
      var k := FirstOf(leaves, i);
      PageIdAt(name, mod, first, k);
      assert routes[i].pageId == pages[k].id;
    }
    forall k | 0 <= k < |pages| ensures pages[k].id in RouteTargets(routes) {
      PageIdAt(name, mod, first, k);
      assert first[k] in leaves;
      var i :| 0 <= i < |leaves| && leaves[i] == first[k];
      assert routes[i].pageId == pages[k].id;
    }
  }

  /** The first binding that leads to the same page as binding `i`. */
  lemma FirstOf(bs: seq<ResolvedPageBinding>, i: nat) returns (k: nat)
    requires i < |bs|
    ensures k < |FirstBindings(bs)| && SamePage(FirstBindings(bs)[k], bs[i])
  {
    FirstBindingsSpec(bs);
    assert SeenPage(FirstBindings(bs), bs[i]);
    k :| 0 <= k < |FirstBindings(bs)| && SamePage(FirstBindings(bs)[k], bs[i]);
  }

  lemma PagesLink(input: FrontendRenderInput)
    requires Acceptable(input)
    ensures PageIdsDistinct(ManifestOf(input)) && RoutesMatchPages(ManifestOf(input))
  {
    LeavesAreGood(input);
    FirstAreGood(Leaves(input));
    TargetsAreIds(input.routeNamespace, input.name, input.extensionModule, Leaves(input));
    forall i, j | 0 <= i < j < |FirstBindings(Leaves(input))|
      ensures ManifestOf(input).pages[i].id != ManifestOf(input).pages[j].id
    {
      FirstPageIdsDistinct(input.name, input.extensionModule, Leaves(input), i, j);
    }
  }

  lemma NamesLink(input: FrontendRenderInput)
    requires Acceptable(input)
    ensures MenuNamesUnique(ManifestOf(input))
  {
    var m, slots := ManifestOf(input), Flatten(AllMenuSlots(input.menus));
    SlotsDistinct(input);
    ItemsFit(input);
    forall i, j, p | 0 <= i < j < |m.menus| && InPlacement(m.menus[i].parent, p) && InPlacement(m.menus[j].parent, p)
      ensures m.menus[i].name != m.menus[j].name
    {
      assert ItemFits(input, m.menus[i], slots[i]) && ItemFits(input, m.menus[j], slots[j]);
      PlacementOfParent(m.menus[i].parent, p, slots[i].0);
      PlacementOfParent(m.menus[j].parent, p, slots[j].0);
      assert slots[i] != slots[j];
      if m.menus[i].name == m.menus[j].name {
        MenuNameInjective(input.routeNamespace, input.name, slots[i].1, slots[j].1);
      }
    }
  }

  /** Where an element of a flattened list comes from. */
  lemma {:induction false} FlattenIndex<T>(ss: seq<seq<T>>, i: nat) returns (k: nat, j: nat)
    requires i < |Flatten(ss)|
    ensures k < |ss| && j < |ss[k]| && Flatten(ss)[i] == ss[k][j]
    ensures j <= i && forall d :: 0 <= d <= j ==> Flatten(ss)[i - j + d] == ss[k][d]
  {
    var front, last := ss[..|ss| - 1], ss[|ss| - 1];
    if i < |Flatten(front)| {
      k, j := FlattenIndex(front, i);
      assert Flatten(ss) == Flatten(front) + last;
    } else {
      k, j := |front|, i - |Flatten(front)|;
    }
  }

  /** Within one menu: the first item hangs off its placement, the others off the first. */
  lemma ItemParent(input: FrontendRenderInput, menu: FrontendMenuSpec, j: nat)
    requires MenuOk(input, menu) && PagesOk(input)
    requires forall x :: x in MenuRefs(menu, input.requirePageKey) ==> x in ReferencedPageKeys(input)
    requires j < |ItemsOf(ResolvedMenu(input, menu), input.extensionModule)|
    ensures var top := ResolvedMenu(input, menu); var items := ItemsOf(top, input.extensionModule);
      if j == 0 then items[0].parent == menu.placement.AsStr()
      else top.OrganizationMenu? && items[0] == RenderOrganizationMenu(top.menu, input.extensionModule)
           && items[j].parent == NestedMenuParent(menu.placement, items[0].name)
  {
  }

  lemma ParentsLink(input: FrontendRenderInput)
    requires Acceptable(input)
    ensures ParentsEarlier(input, ManifestOf(input))
  {
    var m, lists := ManifestOf(input), ItemLists(ResolvedMenus(input), input.extensionModule);
    forall i | 0 <= i < |m.menus|
      ensures (exists p: MenuPlacement :: m.menus[i].parent == p.AsStr())
        || exists j, k :: 0 <= j < i && 0 <= k < |input.menus| && IsOrganizationItem(input, m.menus[j], k)
             && m.menus[i].parent == NestedMenuParent(input.menus[k].placement, m.menus[j].name)
    {
      var k, j := FlattenIndex(lists, i);
      var menu := input.menus[k];
      assert MenuOk(input, menu);
      assert lists[k] == ItemsOf(ResolvedMenu(input, menu), input.extensionModule);
      ItemParent(input, menu, j);
      if j > 0 {
        assert m.menus[i - j] == lists[k][0];
        assert IsOrganizationItem(input, m.menus[i - j], k);
      }
    }
  }

  /** The main result: routes, pages and menus of every accepted manifest fit together. */
  lemma ManifestIsWellLinked(input: FrontendRenderInput)
    requires Acceptable(input)
    requires input.routeNamespace == FI_NAMESPACE || input.routeNamespace == FE_NAMESPACE
    ensures RoutesPathsDistinct(ManifestOf(input))
    ensures PageIdsDistinct(ManifestOf(input)) && RoutesMatchPages(ManifestOf(input))
    ensures MenuNamesUnique(ManifestOf(input)) && ParentsEarlier(input, ManifestOf(input))
  {
    RoutesLink(input);
    PagesLink(input);
    NamesLink(input);
    ParentsLink(input);
  }

  /** Page listing and rendering agree page by page. */
  lemma ListingMatchesManifest(input: FrontendRenderInput)
    requires Acceptable(input)
    ensures var listed, m := ToFrontendPages(FirstBindings(Leaves(input))), ManifestOf(input);
      && |listed| == |m.pages|
      && forall i :: 0 <= i < |listed| ==>
          && m.pages[i].title == listed[i].title
          && listed[i].actionKey == listed[i].page.key
          && (m.pages[i].IframePage? <==> listed[i].page.pageType.Iframe?)
          && (m.pages[i].IframePage? ==> Some(m.pages[i].src) == (if listed[i].page.iframe.Some? then Some(listed[i].page.iframe.value.src) else None))
          && (m.pages[i].CrdPage? ==> Some(m.pages[i].crd) == listed[i].page.crdTable && m.pages[i].placement == listed[i].placement)
  {
    LeavesAreGood(input);
    FirstBindingsSpec(Leaves(input));
    forall i | 0 <= i < |FirstBindings(Leaves(input))| ensures GoodLeaf(FirstBindings(Leaves(input))[i]) {
      assert FirstBindings(Leaves(input))[i] in Leaves(input);
    }
  }

  /** Without required page keys every route has a page of its own. */
  lemma OnePagePerRoute(input: FrontendRenderInput)
    requires Acceptable(input) && !input.requirePageKey
    ensures |ManifestOf(input).pages| == |ManifestOf(input).routes|
    ensures forall i :: 0 <= i < |ManifestOf(input).routes| ==> ManifestOf(input).routes[i].pageId == ManifestOf(input).pages[i].id
  {
    LeavesLeadToDistinctPages(input);
    LeavesAreGood(input);
    AllFirst(Leaves(input));
    forall i | 0 <= i < |Leaves(input)| ensures ManifestOf(input).routes[i].pageId == ManifestOf(input).pages[i].id {
      PageIdAt(input.name, input.extensionModule, Leaves(input), i);
    }
  }

  /** Without explicit page keys a leaf's page id ends like its route. */
  lemma SuffixesAgree(input: FrontendRenderInput, b: ResolvedPageBinding)
    requires Acceptable(input) && !input.requirePageKey && b in Leaves(input)
    ensures b.pageIdSuffix == b.routeSuffix
  {
    FlattenMember(LeafLists(ResolvedMenus(input)), b);
  }

  lemma LeavesLeadToDistinctPages(input: FrontendRenderInput)
    requires Acceptable(input) && !input.requirePageKey
    ensures forall i, j :: 0 <= i < j < |Leaves(input)| ==> !SamePage(Leaves(input)[i], Leaves(input)[j])
  {
    var leaves, slots := Leaves(input), Flatten(AllLeafSlots(input.menus));
    LeavesFit(input);
    SlotsDistinct(input);
    forall b | b in leaves ensures b.pageIdSuffix == b.routeSuffix {
      SuffixesAgree(input, b);
    }
    hide Acceptable, Leaves, LeafSlots, AllLeafSlots;
    forall i, j | 0 <= i < j < |leaves| ensures !SamePage(leaves[i], leaves[j]) {
      assert leaves[i] in leaves && leaves[j] in leaves;
      assert LeafFits(leaves[i], slots[i]) && LeafFits(leaves[j], slots[j]);
      assert slots[i] != slots[j];
    }
  }

  lemma {:induction false} AllFirst(bs: seq<ResolvedPageBinding>)
    requires forall i, j :: 0 <= i < j < |bs| ==> !SamePage(bs[i], bs[j])
    ensures FirstBindings(bs) == bs
  {
    if bs != [] {
      AllFirst(bs[..|bs| - 1]);
      assert bs == bs[..|bs| - 1] + [bs[|bs| - 1]];
    }
  }
}
