/**
 What a manifest shows of its spec: menu entries, routes and pages in terms of the
 spec's own menus, children and pages, in their order, with the words they are
 spelled with.
 */
module ManifestContent {
  import opened Prelude
  import opened FrontendTypes
  import opened Resolve
  import opened Render
  import opened ManifestLinks
  import opened Sequences

  // ----- The entries of a spec -----

  /** A menu, or a child of an organization menu. */
  datatype Entry = TopEntry(menu: FrontendMenuSpec) | ChildEntry(menu: FrontendMenuSpec, child: FrontendSecondaryMenuSpec)
  {
    function Title(): string { if TopEntry? then menu.displayName else child.displayName }

    function Icon(): Option<string> { if TopEntry? then menu.icon else child.icon }

    function Suffix(): string { if TopEntry? then menu.key else menu.key + "/" + child.key }

    function OwnKey(): string { if TopEntry? then menu.key else child.key }

    function PageKey(): string {
      var given := if TopEntry? then menu.pageKey else child.pageKey;
      if given.Some? then given.value else OwnKey()
    }
  }

  function ChildEntries(menu: FrontendMenuSpec): seq<Entry> {
    seq(|menu.children|, j requires 0 <= j < |menu.children| => ChildEntry(menu, menu.children[j]))
  }

  /** A menu is followed by its children. */
  function EntryLists(menus: seq<FrontendMenuSpec>): seq<seq<Entry>> {
    seq(|menus|, i requires 0 <= i < |menus| =>
      if menus[i].nodeType.Organization? then [TopEntry(menus[i])] + ChildEntries(menus[i]) else [TopEntry(menus[i])])
  }

  /** The entries that lead to a page: page menus and children. */
  function LeafEntryLists(menus: seq<FrontendMenuSpec>): seq<seq<Entry>> {
    seq(|menus|, i requires 0 <= i < |menus| => if menus[i].nodeType.Organization? then ChildEntries(menus[i]) else [TopEntry(menus[i])])
  }

  function Entries(menus: seq<FrontendMenuSpec>): seq<Entry> { Flatten(EntryLists(menus)) }

  function LeafEntries(menus: seq<FrontendMenuSpec>): seq<Entry> { Flatten(LeafEntryLists(menus)) }

  /** The key that an error may name as a menu's is that of some entry. */
  lemma MenuKeysAreOfEntries(input: FrontendRenderInput, k: string)
    ensures IsMenuKey(input, k) <==> exists e :: e in Entries(input.menus) && e.OwnKey() == k
  {
    hide EntryLists, Flatten;
    if IsMenuKey(input, k) {
      var i :| 0 <= i < |input.menus| && HasKey(input.menus[i], k);
      var e := EntryOfKey(input.menus, i, k);
    }
    if e :| e in Entries(input.menus) && e.OwnKey() == k {
      var i := MenuOfEntry(input.menus, e);
      assert HasKey(input.menus[i], k);
    }
  }

  predicate HasKey(menu: FrontendMenuSpec, k: string) {
    menu.key == k || (menu.nodeType.Organization? && exists j :: 0 <= j < |menu.children| && menu.children[j].key == k)
  }

  lemma EntryOfKey(menus: seq<FrontendMenuSpec>, i: nat, k: string) returns (e: Entry)
    requires i < |menus| && HasKey(menus[i], k)
    ensures e.OwnKey() == k && e in Entries(menus)
  {
    var menu := menus[i];
    e := TopEntry(menu);
    if menu.key != k {
      var j :| 0 <= j < |menu.children| && menu.children[j].key == k;
      e := ChildEntry(menu, menu.children[j]);
      assert ChildEntries(menu)[j] == e;
    }
    assert e in EntryLists(menus)[i];
    FlattenMember(EntryLists(menus), e);
  }

  lemma MenuOfEntry(menus: seq<FrontendMenuSpec>, e: Entry) returns (i: nat)
    requires e in Entries(menus)
    ensures i < |menus| && HasKey(menus[i], e.OwnKey())
  {
    FlattenMember(EntryLists(menus), e);
    i :| 0 <= i < |menus| && e in EntryLists(menus)[i];
    hide Flatten;
  }

  // ----- How entries show -----

  ghost function Word(p: MenuPlacement): string {
    match p case Global => "global" case Workspace => "workspace" case Cluster => "cluster"
  }

  ghost function Prefix(p: MenuPlacement): string {
    match p case Global => "" case Workspace => "/workspaces/:workspace" case Cluster => "/clusters/:cluster"
  }

  ghost function Parent(input: FrontendRenderInput, e: Entry): string {
    if e.TopEntry? then Word(e.menu.placement)
    else Word(e.menu.placement) + "." + (input.routeNamespace + "/" + input.name + "/" + e.menu.key)
  }

  ghost predicate ItemShows(input: FrontendRenderInput, item: MenuItem, e: Entry) {
    && item.title == e.Title()
    && item.icon == (if e.Icon().Some? then e.Icon().value else "GridDuotone")
    && item.name == input.routeNamespace + "/" + input.name + "/" + e.Suffix()
    && item.parent == Parent(input, e)
    && item.order == 999
    && item.clusterModule == (if e.menu.placement.Cluster? then input.extensionModule else None)
    && item.workspaceModule == (if e.menu.placement.Workspace? then input.extensionModule else None)
  }

  /** How a leaf ends the id of its page: extensions name the page, integrations the menu. */
  ghost function IdEnd(input: FrontendRenderInput, e: Entry): string {
    if input.requirePageKey then e.PageKey() else if e.TopEntry? then e.menu.key else e.menu.key + "_" + e.child.key
  }

  ghost predicate RouteShows(input: FrontendRenderInput, route: Route, e: Entry) {
    && route.path == Prefix(e.menu.placement) + "/" + input.routeNamespace + "/" + input.name + "/" + e.Suffix()
    && route.pageId == input.name + "-" + Word(e.menu.placement) + "-" + IdEnd(input, e)
  }

  /** `page` is the page of the spec that a leaf refers to, under the leaf's title unless it has its own. */
  ghost predicate PageShows(input: FrontendRenderInput, page: RenderedPage, e: Entry) {
    exists sp :: sp in input.pages && sp.key == e.PageKey() &&
      match page
      case IframePage(_, title, src) =>
        sp.pageType.Iframe? && sp.iframe == Some(IframePageSpec(src)) && title == sp.displayName.UnwrapOr(e.Title())
      case CrdPage(_, title, placement, mod, crd) =>
        && sp.pageType.CrdTable? && sp.crdTable == Some(crd) && title == sp.displayName.UnwrapOr(e.Title())
        && placement == e.menu.placement && mod == input.extensionModule
  }

  ghost predicate ListedShows(input: FrontendRenderInput, page: ResolvedFrontendPage, e: Entry) {
    && page.menuTitle == e.Title() && (page.menuLevel.Primary? <==> e.TopEntry?)
    && page.placement == e.menu.placement && page.routeSuffix == e.Suffix() && page.actionKey == e.PageKey()
    && page.page in input.pages && page.page.key == e.PageKey()
    && page.title == page.page.displayName.UnwrapOr(e.Title())
  }

  // ----- Resolved bindings and entries -----

  ghost predicate BindingShows(input: FrontendRenderInput, b: ResolvedPageBinding, e: Entry) {
    && b.menuTitle == e.Title() && b.icon == e.Icon() && b.placement == e.menu.placement && b.routeSuffix == e.Suffix()
    && (b.menuLevel.Primary? <==> e.TopEntry?)
    && b.pageIdSuffix == (if input.requirePageKey then e.PageKey() else e.Suffix())
    && b.menuName == input.routeNamespace + "/" + input.name + "/" + e.Suffix()
    && b.parent == Parent(input, e)
    && b.page in input.pages && b.page.key == e.PageKey()
    && b.pageTitle == b.page.displayName.UnwrapOr(e.Title())
    && KeyOk(e.menu.key) && KeyOk(e.PageKey()) && (e.ChildEntry? ==> KeyOk(e.child.key))
  }

  lemma TopShows(input: FrontendRenderInput, menu: FrontendMenuSpec)
    requires MenuOk(input, menu) && menu.nodeType.Page?
    ensures BindingShows(input, ResolvedMenu(input, menu).binding, TopEntry(menu))
  {
    hide KeyOk;
  }

  lemma ChildShows(input: FrontendRenderInput, menu: FrontendMenuSpec, j: nat)
    requires MenuOk(input, menu) && menu.nodeType.Organization? && j < |menu.children|
    ensures ChildOk(input, menu, j) && BindingShows(input, ChildBinding(input, menu, j), ChildEntry(menu, menu.children[j]))
  {
    hide KeyOk;
    assert ChildOk(input, menu, j);
  }

  lemma LeavesShow(input: FrontendRenderInput)
    requires Acceptable(input)
    ensures |Leaves(input)| == |LeafEntries(input.menus)|
    ensures forall k :: 0 <= k < |Leaves(input)| ==> BindingShows(input, Leaves(input)[k], LeafEntries(input.menus)[k])
  {
    var xs, ys := LeafLists(ResolvedMenus(input)), LeafEntryLists(input.menus);
    forall i | 0 <= i < |xs|
      ensures |xs[i]| == |ys[i]| && forall j :: 0 <= j < |xs[i]| ==> BindingShows(input, xs[i][j], ys[i][j])
    {
      MenuLeavesShow(input, i);
    }
    FlattenMatch(xs, ys, (b, e) => BindingShows(input, b, e));
  }

  lemma MenuLeavesShow(input: FrontendRenderInput, i: nat)
    requires Acceptable(input) && i < |input.menus|
    ensures var xs, ys := LeafLists(ResolvedMenus(input))[i], LeafEntryLists(input.menus)[i];
      |xs| == |ys| && forall j :: 0 <= j < |xs| ==> BindingShows(input, xs[j], ys[j])
  {
    hide BindingShows, ChildBinding, LeafBinding, LeafOk, KeyOk;
    var menu := input.menus[i];
    assert MenuOk(input, menu);
    match menu.nodeType
    case Page => TopShows(input, menu);
    case Organization =>
      forall j | 0 <= j < |menu.children|
        ensures ChildOk(input, menu, j) && BindingShows(input, ChildBinding(input, menu, j), ChildEntry(menu, menu.children[j]))
      {
        ChildShows(input, menu, j);
      }
  }

  // ----- Menus -----

  lemma LeafItemShows(input: FrontendRenderInput, b: ResolvedPageBinding, e: Entry)
    requires BindingShows(input, b, e)
    ensures ItemShows(input, RenderLeafMenu(b, input.extensionModule), e)
  {
    hide KeyOk;
  }

  lemma OrganizationShows(input: FrontendRenderInput, menu: FrontendMenuSpec)
    requires MenuOk(input, menu) && menu.nodeType.Organization?
    ensures ItemShows(input, RenderOrganizationMenu(ResolvedMenu(input, menu).menu, input.extensionModule), TopEntry(menu))
  {
    hide KeyOk;
  }

  lemma MenuItemsShow(input: FrontendRenderInput, i: nat)
    requires Acceptable(input) && i < |input.menus|
    ensures var xs, ys := ItemLists(ResolvedMenus(input), input.extensionModule)[i], EntryLists(input.menus)[i];
      |xs| == |ys| && forall j :: 0 <= j < |xs| ==> ItemShows(input, xs[j], ys[j])
  {
    hide ItemShows, BindingShows, ChildBinding, LeafBinding, LeafOk, KeyOk, RenderLeafMenu, RenderOrganizationMenu;
    var menu := input.menus[i];
    var bs, es := LeafLists(ResolvedMenus(input))[i], LeafEntryLists(input.menus)[i];
    assert MenuOk(input, menu);
    MenuLeavesShow(input, i);
    forall j | 0 <= j < |bs| ensures ItemShows(input, RenderLeafMenu(bs[j], input.extensionModule), es[j]) {
      LeafItemShows(input, bs[j], es[j]);
    }
    if menu.nodeType.Organization? { OrganizationShows(input, menu); }
  }

  /** The k-th menu entry of the manifest shows the k-th entry of the spec. */
  lemma MenusShowTheSpec(input: FrontendRenderInput)
    requires Acceptable(input)
    ensures |ManifestOf(input).menus| == |Entries(input.menus)|
    ensures forall k :: 0 <= k < |Entries(input.menus)| ==> ItemShows(input, ManifestOf(input).menus[k], Entries(input.menus)[k])
  {
    hide ItemShows, ItemsOf, MenuOk;
    var xs, ys := ItemLists(ResolvedMenus(input), input.extensionModule), EntryLists(input.menus);
    forall i | 0 <= i < |xs| ensures |xs[i]| == |ys[i]| && forall j :: 0 <= j < |xs[i]| ==> ItemShows(input, xs[i][j], ys[i][j]) {
      MenuItemsShow(input, i);
    }
    FlattenMatch(xs, ys, (item, e) => ItemShows(input, item, e));
  }

  // ----- Routes -----

  lemma NoSlash(key: string)
    requires KeyOk(key)
    ensures ReplaceChar(key, '/', '_') == key
  {
    forall i | 0 <= i < |key| ensures key[i] != '/' { assert KeyChar(key[i]); }
  }

  lemma ReplacedJoin(a: string, b: string)
    requires KeyOk(a) && KeyOk(b)
    ensures ReplaceChar(a + "/" + b, '/', '_') == a + "_" + b
  {
    NoSlash(a);
    NoSlash(b);
    var r := ReplaceChar(a + "/" + b, '/', '_');
    assert |r| == |a + "_" + b|;
    forall i | 0 <= i < |r| ensures r[i] == (a + "_" + b)[i] {
      if i < |a| { assert ReplaceChar(a, '/', '_')[i] == a[i]; }
      else if i > |a| { assert ReplaceChar(b, '/', '_')[i - |a| - 1] == b[i - |a| - 1]; }
    }
  }

  lemma RouteOfBinding(input: FrontendRenderInput, b: ResolvedPageBinding, e: Entry)
    requires BindingShows(input, b, e)
    ensures RouteShows(input, RenderRoute(input.routeNamespace, input.name, b), e)
  {
    hide KeyOk, ReplaceChar;
    if input.requirePageKey { NoSlash(e.PageKey()); }
    else if e.TopEntry? { NoSlash(e.menu.key); }
    else { ReplacedJoin(e.menu.key, e.child.key); }
  }

  /** The k-th route leads from the k-th leaf of the spec to its page. */
  lemma RoutesShowTheSpec(input: FrontendRenderInput)
    requires Acceptable(input)
    ensures |ManifestOf(input).routes| == |LeafEntries(input.menus)|
    ensures forall k :: 0 <= k < |LeafEntries(input.menus)| ==> RouteShows(input, ManifestOf(input).routes[k], LeafEntries(input.menus)[k])
  {
    hide Acceptable, Leaves, RouteShows, BindingShows, RenderRoute;
    LeavesShow(input);
    forall k | 0 <= k < |Leaves(input)| ensures RouteShows(input, ManifestOf(input).routes[k], LeafEntries(input.menus)[k]) {
      RouteOfBinding(input, Leaves(input)[k], LeafEntries(input.menus)[k]);
    }
  }

  // ----- Pages -----

  /** A kept binding, as the leaf it was resolved from and the earliest one of its page. */
  lemma FirstLeafOf(input: FrontendRenderInput, k: nat) returns (t: nat)
    requires Acceptable(input) && k < |FirstBindings(Leaves(input))|
    ensures t < |Leaves(input)| && FirstBindings(Leaves(input))[k] == Leaves(input)[t]
    ensures forall h :: 0 <= h < t ==> !SamePage(Leaves(input)[h], Leaves(input)[t])
  {
    hide Acceptable, Leaves;
    var leaves := Leaves(input);
    FirstBindingsSpec(leaves);
    var b := FirstBindings(leaves)[k];
    assert b in FirstBindings(leaves);
    t :| 0 <= t < |leaves| && leaves[t] == b && !SeenPage(leaves[..t], b);
    forall h | 0 <= h < t ensures !SamePage(leaves[h], leaves[t]) {
      assert leaves[..t][h] == leaves[h];
    }
  }

  lemma PageOfBinding(input: FrontendRenderInput, b: ResolvedPageBinding, e: Entry)
    requires BindingShows(input, b, e) && PageShapeOk(b.page)
    ensures HasConfig(b.page) && PageShows(input, PageOf(input.name, b, input.extensionModule), e)
    ensures PageOf(input.name, b, input.extensionModule).id == RenderRoute(input.routeNamespace, input.name, b).pageId
  {
    hide KeyOk;
  }

  /** Every page of the manifest is that of a leaf, under that leaf's route, and no earlier leaf leads to it. */
  lemma PagesShowTheSpec(input: FrontendRenderInput, k: nat) returns (t: nat)
    requires Acceptable(input) && k < |ManifestOf(input).pages|
    ensures var m := ManifestOf(input);
      && t < |LeafEntries(input.menus)| == |m.routes|
      && m.pages[k].id == m.routes[t].pageId && (forall h :: 0 <= h < t ==> m.routes[h].pageId != m.routes[t].pageId)
      && PageShows(input, m.pages[k], LeafEntries(input.menus)[t])
  {
    hide Acceptable, Leaves, PageShows, BindingShows, PageIdForSuffix, SamePage;
    var leaves, m := Leaves(input), ManifestOf(input);
    LeavesAreGood(input);
    LeavesShow(input);
    t := FirstLeafOf(input, k);
    var b := leaves[t];
    assert b in leaves;
    PageOfBinding(input, b, LeafEntries(input.menus)[t]);
    forall h | 0 <= h < t ensures m.routes[h].pageId != m.routes[t].pageId {
      assert leaves[h] in leaves;
      DifferentIds(input.name, leaves[h], b);
    }
  }

  lemma DifferentIds(name: string, a: ResolvedPageBinding, b: ResolvedPageBinding)
    requires GoodLeaf(a) && GoodLeaf(b) && !SamePage(a, b)
    ensures PageIdForSuffix(name, a.placement, a.pageIdSuffix) != PageIdForSuffix(name, b.placement, b.pageIdSuffix)
  {
    PageIdInjective(name, a.placement, a.pageIdSuffix, b.placement, b.pageIdSuffix);
  }

  /** The listed pages show the leaves they were resolved from. */
  lemma ListingShowsTheSpec(input: FrontendRenderInput, k: nat) returns (t: nat)
    requires Acceptable(input) && k < |ToFrontendPages(FirstBindings(Leaves(input)))|
    ensures t < |LeafEntries(input.menus)|
    ensures ListedShows(input, ToFrontendPages(FirstBindings(Leaves(input)))[k], LeafEntries(input.menus)[t])
  {
    hide Acceptable, Leaves;
    LeavesShow(input);
    t := FirstLeafOf(input, k);
  }
}
