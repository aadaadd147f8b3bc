/**
 Manifest rendering (crates/manifest/src/v1/render.rs) and page listing
 (resolve_v1_pages).

 The two de-duplicate pages in different ways: one by the pair (placement,
 suffix), the other by the page-id string. Both are shown to keep exactly
 `FirstBindings`, because page ids are injective on resolved suffixes.
 */
module Render {
  import opened Prelude
  import opened FrontendTypes
  import opened Resolve
  import opened Sequences

  const DEFAULT_MENU_ICON := "GridDuotone"

  datatype Route = Route(path: string, pageId: string)

  datatype MenuItem = MenuItem(
    parent: string,
    name: string,
    title: string,
    icon: string,
    order: int,
    clusterModule: Option<string>,
    workspaceModule: Option<string>)

  /** A rendered page. Its content is a free function of what the source passes to its page templates. */
  datatype RenderedPage =
    | IframePage(id: string, title: string, src: string)
    | CrdPage(id: string, title: string, placement: MenuPlacement, mod: Option<string>, crd: CrdTablePageSpec)

  datatype Manifest = Manifest(
    version: string,
    name: string,
    displayName: string,
    description: Option<string>,
    routes: seq<Route>,
    menus: seq<MenuItem>,
    locales: Locales,
    pages: seq<RenderedPage>,
    moduleName: string)

  datatype ResolvedFrontendPage = ResolvedFrontendPage(
    title: string,
    menuTitle: string,
    menuLevel: ResolvedMenuLevel,
    placement: MenuPlacement,
    routeSuffix: string,
    actionKey: string,
    page: FrontendPageSpec)

  // ----- Names -----

  function ReplaceChar(s: string, from: char, to: char): (r: string)
    ensures |r| == |s|
    ensures forall i :: 0 <= i < |s| ==> r[i] == if s[i] == from then to else s[i]
  {
    seq(|s|, i requires 0 <= i < |s| => if s[i] == from then to else s[i])
  }

  function PageIdForSuffix(name: string, placement: MenuPlacement, suffix: string): string {
    name + "-" + placement.AsStr() + "-" + ReplaceChar(suffix, '/', '_')
  }

  function RoutePath(routeNamespace: string, name: string, placement: MenuPlacement, suffix: string): string {
    placement.RoutePrefix() + "/" + routeNamespace + "/" + name + "/" + suffix
  }

  function MenuIcon(icon: Option<string>): string {
    icon.UnwrapOr(DEFAULT_MENU_ICON)
  }

  // ----- Rendering one menu, route or page -----

  function RenderRoute(routeNamespace: string, name: string, b: ResolvedPageBinding): Route {
    Route(RoutePath(routeNamespace, name, b.placement, b.routeSuffix), PageIdForSuffix(name, b.placement, b.pageIdSuffix))
  }

  function WithModule(parent: string, name: string, title: string, icon: Option<string>, placement: MenuPlacement, mod: Option<string>): MenuItem {
    MenuItem(parent, name, title, MenuIcon(icon), 999,
      if placement.Cluster? then mod else None,
      if placement.Workspace? then mod else None)
  }

  function RenderLeafMenu(b: ResolvedPageBinding, mod: Option<string>): MenuItem {
    WithModule(b.parent, b.menuName, b.menuTitle, b.icon, b.placement, mod)
  }

  function RenderOrganizationMenu(menu: ResolvedOrganizationMenu, mod: Option<string>): MenuItem {
    WithModule(menu.placement.AsStr(), menu.name, menu.title, menu.icon, menu.placement, mod)
  }

  predicate HasConfig(page: FrontendPageSpec) {
    match page.pageType
    case Iframe => page.iframe.Some?
    case CrdTable => page.crdTable.Some?
  }

  function PageOf(name: string, b: ResolvedPageBinding, mod: Option<string>): RenderedPage
    requires HasConfig(b.page)
  {
    var id := PageIdForSuffix(name, b.placement, b.pageIdSuffix);
    match b.page.pageType
    case Iframe => IframePage(id, b.pageTitle, b.page.iframe.value.src)
    case CrdTable => CrdPage(id, b.pageTitle, b.placement, mod, b.page.crdTable.value)
  }

  function RenderPage(name: string, b: ResolvedPageBinding, mod: Option<string>): (r: Result<RenderedPage, ManifestRenderError>)
    ensures r.Ok? <==> HasConfig(b.page)
    ensures r.Ok? ==> r.value == PageOf(name, b, mod)
  {
    match b.page.pageType
    case Iframe =>
      if b.page.iframe.None? then Err(InvalidPageShape(b.page.key, IframeConfigMissing)) else Ok(PageOf(name, b, mod))
    case CrdTable =>
      if b.page.crdTable.None? then Err(InvalidPageShape(b.page.key, CrdTableConfigMissing)) else Ok(PageOf(name, b, mod))
  }

  function ToFrontendPage(b: ResolvedPageBinding): ResolvedFrontendPage {
    ResolvedFrontendPage(b.pageTitle, b.menuTitle, b.menuLevel, b.placement, b.routeSuffix, b.page.key, b.page)
  }

  // ----- What an accepted spec renders to -----

  function LeavesOf(top: ResolvedTopMenu): seq<ResolvedPageBinding> {
    match top
    case PageMenu(b) => [b]
    case OrganizationMenu(_, children) => children
  }

  function LeafMenuItems(bs: seq<ResolvedPageBinding>, mod: Option<string>): seq<MenuItem> {
    seq(|bs|, i requires 0 <= i < |bs| => RenderLeafMenu(bs[i], mod))
  }

  function ItemsOf(top: ResolvedTopMenu, mod: Option<string>): seq<MenuItem> {
    match top
    case PageMenu(b) => LeafMenuItems([b], mod)
    case OrganizationMenu(menu, children) => [RenderOrganizationMenu(menu, mod)] + LeafMenuItems(children, mod)
  }

  function LeafLists(tops: seq<ResolvedTopMenu>): seq<seq<ResolvedPageBinding>> {
    seq(|tops|, i requires 0 <= i < |tops| => LeavesOf(tops[i]))
  }

  function ItemLists(tops: seq<ResolvedTopMenu>, mod: Option<string>): seq<seq<MenuItem>> {
    seq(|tops|, i requires 0 <= i < |tops| => ItemsOf(tops[i], mod))
  }

  function Leaves(input: FrontendRenderInput): seq<ResolvedPageBinding>
    requires Acceptable(input)
  {
    Flatten(LeafLists(ResolvedMenus(input)))
  }

  predicate SamePage(a: ResolvedPageBinding, b: ResolvedPageBinding) {
    a.placement == b.placement && a.pageIdSuffix == b.pageIdSuffix
  }

  predicate SeenPage(bs: seq<ResolvedPageBinding>, b: ResolvedPageBinding) {
    exists i :: 0 <= i < |bs| && SamePage(bs[i], b)
  }

  /** The bindings that are the first to lead to their page. */
  function FirstBindings(bs: seq<ResolvedPageBinding>): (r: seq<ResolvedPageBinding>)
    ensures forall b :: b in r ==> b in bs
  {
    if bs == [] then []
    else
      var front, last := bs[..|bs| - 1], bs[|bs| - 1];
      assert bs == front + [last];
      if SeenPage(front, last) then FirstBindings(front) else FirstBindings(front) + [last]
  }

  function RenderRoutes(routeNamespace: string, name: string, bs: seq<ResolvedPageBinding>): seq<Route> {
    seq(|bs|, i requires 0 <= i < |bs| => RenderRoute(routeNamespace, name, bs[i]))
  }

  function PagesOf(name: string, bs: seq<ResolvedPageBinding>, mod: Option<string>): seq<RenderedPage>
    requires forall b :: b in bs ==> HasConfig(b.page)
  {
    seq(|bs|, i requires 0 <= i < |bs| && HasConfig(bs[i].page) => PageOf(name, bs[i], mod))
  }

  function ToFrontendPages(bs: seq<ResolvedPageBinding>): seq<ResolvedFrontendPage> {
    seq(|bs|, i requires 0 <= i < |bs| => ToFrontendPage(bs[i]))
  }

  /** A resolved binding: its page has the configuration of its type, and its page-id suffix has no '_'. */
  predicate GoodLeaf(b: ResolvedPageBinding) {
    PageShapeOk(b.page) && '_' !in b.pageIdSuffix
  }

  lemma LeafIsGood(
    input: FrontendRenderInput, level: ResolvedMenuLevel, placement: MenuPlacement, displayName: string, key: string,
    icon: Option<string>, pageKey: Option<string>, routeSuffix: string, parent: string)
    requires PagesOk(input) && LeafOk(input, placement, key, pageKey)
    requires PageKeyOf(pageKey, key, input.requirePageKey).value in ReferencedPageKeys(input)
    requires '_' !in routeSuffix
    ensures GoodLeaf(LeafBinding(input, level, placement, displayName, key, icon, pageKey, routeSuffix, parent))
  {
    var k := PageKeyOf(pageKey, key, input.requirePageKey).value;
    KeyHasNoSeparator(k);
    var j :| 0 <= j < |input.pages| && input.pages[j] == LookupPage(input.pages, k).value;
    assert PageAt(input, j);
  }

  lemma MenuLeavesAreGood(input: FrontendRenderInput, i: nat)
    requires Acceptable(input) && i < |input.menus|
    ensures forall b :: b in LeavesOf(ResolvedMenu(input, input.menus[i])) ==> GoodLeaf(b)
  {
    var menu := input.menus[i];
    RefsInclude(input, i);
    KeyHasNoSeparator(menu.key);
    match menu.nodeType
    case Page =>
      LeafIsGood(input, Primary, menu.placement, menu.displayName, menu.key, menu.icon, menu.pageKey, menu.key, menu.placement.AsStr());
    case Organization =>
      forall j | 0 <= j < |menu.children| ensures GoodLeaf(ChildBinding(input, menu, j)) {
        var child := menu.children[j];
        assert ChildOk(input, menu, j);
        KeyHasNoSeparator(child.key);
        assert PageKeyOf(child.pageKey, child.key, input.requirePageKey).value in MenuRefs(menu, input.requirePageKey);
        LeafIsGood(input, Secondary, menu.placement, child.displayName, child.key, child.icon, child.pageKey,
          RouteSuffixForChild(menu.key, child.key),
          NestedMenuParent(menu.placement, MenuNameForSuffix(input.routeNamespace, input.name, menu.key)));
      }
  }

  lemma LeavesAreGood(input: FrontendRenderInput)
    requires Acceptable(input)
    ensures forall b :: b in Leaves(input) ==> GoodLeaf(b)
  {
    forall b | b in Leaves(input) ensures GoodLeaf(b) {
      FlattenMember(LeafLists(ResolvedMenus(input)), b);
      var i :| 0 <= i < |input.menus| && b in LeafLists(ResolvedMenus(input))[i];
      MenuLeavesAreGood(input, i);
    }
  }

  function ManifestOf(input: FrontendRenderInput): Manifest
    requires Acceptable(input)
  {
    LeavesAreGood(input);
    var leaves := Leaves(input);
    Manifest(
      "1.0", input.name, input.displayName.UnwrapOr(input.name), input.description,
      RenderRoutes(input.routeNamespace, input.name, leaves),
      Flatten(ItemLists(ResolvedMenus(input), input.extensionModule)),
      input.locales,
      PagesOf(input.name, FirstBindings(leaves), input.extensionModule),
      input.name)
  }

  // ----- Page ids are injective -----

  lemma ReplaceInjective(s: string, t: string, from: char, to: char)
    requires to !in s && to !in t
    requires ReplaceChar(s, from, to) == ReplaceChar(t, from, to)
    ensures s == t
  {
    var r := ReplaceChar(s, from, to);
    assert |s| == |r| == |t|;
    forall i | 0 <= i < |s| ensures s[i] == t[i] {
      assert r[i] == if s[i] == from then to else s[i];
      assert s[i] in s && t[i] in t;
    }
  }

  lemma PlacementPrefix(p: MenuPlacement, a: string, q: MenuPlacement, b: string)
    requires p.AsStr() + a == q.AsStr() + b
    ensures p == q && a == b
  {
    assert (p.AsStr() + a)[0] == p.AsStr()[0] && (q.AsStr() + b)[0] == q.AsStr()[0];
    assert a == (p.AsStr() + a)[|p.AsStr()|..] && b == (q.AsStr() + b)[|q.AsStr()|..];
  }

  lemma JoinedTails(name: string, p: string, a: string, q: string, b: string)
    requires name + "-" + p + "-" + a == name + "-" + q + "-" + b
    ensures p + ("-" + a) == q + ("-" + b)
  {
    var id := name + "-" + p + "-" + a;
    assert id[|name| + 1..] == p + ("-" + a);
    assert (name + "-" + q + "-" + b)[|name| + 1..] == q + ("-" + b);
  }

  lemma TailAfterDash(a: string, b: string)
    requires "-" + a == "-" + b
    ensures a == b
  {
    assert a == ("-" + a)[1..] && b == ("-" + b)[1..];
  }

  /** Two page ids of one manifest coincide only for the same placement and suffix. */
  lemma PageIdInjective(name: string, p: MenuPlacement, s: string, q: MenuPlacement, t: string)
    requires '_' !in s && '_' !in t
    ensures PageIdForSuffix(name, p, s) == PageIdForSuffix(name, q, t) <==> p == q && s == t
  {
    if PageIdForSuffix(name, p, s) == PageIdForSuffix(name, q, t) {
      var a, b := ReplaceChar(s, '/', '_'), ReplaceChar(t, '/', '_');
      JoinedTails(name, p.AsStr(), a, q.AsStr(), b);
      PlacementPrefix(p, "-" + a, q, "-" + b);
      TailAfterDash(a, b);
      ReplaceInjective(s, t, '/', '_');
    }
  }

  function PageIds(name: string, bs: seq<ResolvedPageBinding>): set<string> {
    set i | 0 <= i < |bs| :: PageIdForSuffix(name, bs[i].placement, bs[i].pageIdSuffix)
  }

  lemma SeenById(name: string, bs: seq<ResolvedPageBinding>, b: ResolvedPageBinding)
    requires forall c :: c in bs ==> GoodLeaf(c)
    requires GoodLeaf(b)
    ensures PageIdForSuffix(name, b.placement, b.pageIdSuffix) in PageIds(name, bs) <==> SeenPage(bs, b)
  {
    forall i | 0 <= i < |bs|
      ensures PageIdForSuffix(name, bs[i].placement, bs[i].pageIdSuffix) == PageIdForSuffix(name, b.placement, b.pageIdSuffix)
              <==> SamePage(bs[i], b)
    {
      assert bs[i] in bs;
      PageIdInjective(name, bs[i].placement, bs[i].pageIdSuffix, b.placement, b.pageIdSuffix);
    }
  }

  lemma FirstBindingsStep(bs: seq<ResolvedPageBinding>, b: ResolvedPageBinding)
    ensures FirstBindings(bs + [b]) == if SeenPage(bs, b) then FirstBindings(bs) else FirstBindings(bs) + [b]
  {
    assert (bs + [b])[..|bs|] == bs;
  }

  // ----- The source's loops -----

  /** The accumulators of render_v1_manifest. */
  datatype Rendered = Rendered(routes: seq<Route>, menus: seq<MenuItem>, pages: seq<RenderedPage>, ids: set<string>)

  ghost predicate AllGood(bs: seq<ResolvedPageBinding>) {
    forall b :: b in bs ==> GoodLeaf(b)
  }

  /** `out` is what the bindings `done` and the menu items `items` render to. */
  ghost predicate Renders(input: FrontendRenderInput, out: Rendered, done: seq<ResolvedPageBinding>, items: seq<MenuItem>) {
    && AllGood(done)
    && out.routes == RenderRoutes(input.routeNamespace, input.name, done)
    && out.menus == items
    && out.ids == PageIds(input.name, done)
    && out.pages == PagesOf(input.name, FirstBindings(done), input.extensionModule)
  }

  lemma IdsStep(name: string, done: seq<ResolvedPageBinding>, b: ResolvedPageBinding)
    ensures PageIds(name, done + [b]) == PageIds(name, done) + {PageIdForSuffix(name, b.placement, b.pageIdSuffix)}
  {
    var more := done + [b];
    assert forall i :: 0 <= i < |done| ==> more[i] == done[i];
    assert more[|done|] == b;
  }

  lemma PagesAppend(name: string, mod: Option<string>, bs: seq<ResolvedPageBinding>, b: ResolvedPageBinding)
    requires (forall c :: c in bs ==> HasConfig(c.page)) && HasConfig(b.page)
    ensures (forall c :: c in bs + [b] ==> HasConfig(c.page))
    ensures PagesOf(name, bs + [b], mod) == PagesOf(name, bs, mod) + [PageOf(name, b, mod)]
  {
  }

  lemma PagesStep(name: string, mod: Option<string>, done: seq<ResolvedPageBinding>, b: ResolvedPageBinding)
    requires AllGood(done) && GoodLeaf(b)
    ensures AllGood(done + [b])
    ensures PagesOf(name, FirstBindings(done + [b]), mod)
            == if PageIdForSuffix(name, b.placement, b.pageIdSuffix) in PageIds(name, done)
               then PagesOf(name, FirstBindings(done), mod)
               else PagesOf(name, FirstBindings(done), mod) + [PageOf(name, b, mod)]
  {
    assert AllGood(done + [b]);
    SeenById(name, done, b);
    FirstBindingsStep(done, b);
    PagesAppend(name, mod, FirstBindings(done), b);
  }

  method PushRenderedPage(name: string, b: ResolvedPageBinding, mod: Option<string>, pages: seq<RenderedPage>, ids: set<string>)
    returns (r: Result<(), ManifestRenderError>, pages': seq<RenderedPage>, ids': set<string>)
    ensures var id := PageIdForSuffix(name, b.placement, b.pageIdSuffix);
      && ids' == ids + {id}
      && (r.Ok? <==> id in ids || HasConfig(b.page))
      && (r.Ok? ==> pages' == if id in ids then pages else pages + [PageOf(name, b, mod)])
  {
    var pageId := PageIdForSuffix(name, b.placement, b.pageIdSuffix);
    pages', ids' := pages, ids + {pageId};
    if pageId !in ids {
      var page := RenderPage(name, b, mod);
      if page.Err? {
        return Err(page.error), pages', ids';
      }
      pages' := pages + [page.value];
    }
    return Ok(()), pages', ids';
  }

  method PushLeaf(
    input: FrontendRenderInput, out: Rendered, b: ResolvedPageBinding,
    ghost done: seq<ResolvedPageBinding>, ghost items: seq<MenuItem>)
    returns (r: Result<Rendered, ManifestRenderError>)
    requires Renders(input, out, done, items) && GoodLeaf(b)
    ensures r.Ok?
    ensures Renders(input, r.value, done + [b], items + [RenderLeafMenu(b, input.extensionModule)])
  {
    PagesStep(input.name, input.extensionModule, done, b);
    IdsStep(input.name, done, b);
    var menus := out.menus + [RenderLeafMenu(b, input.extensionModule)];
    var routes := out.routes + [RenderRoute(input.routeNamespace, input.name, b)];
    var pushed, pages, ids := PushRenderedPage(input.name, b, input.extensionModule, out.pages, out.ids);
    match pushed
    case Err(e) => return Err(e);
    case Ok(_) => return Ok(Rendered(routes, menus, pages, ids));
  }

  method PushTopMenu(
    input: FrontendRenderInput, out: Rendered, top: ResolvedTopMenu,
    ghost done: seq<ResolvedPageBinding>, ghost items: seq<MenuItem>)
    returns (r: Result<Rendered, ManifestRenderError>)
    requires Renders(input, out, done, items) && AllGood(LeavesOf(top))
    ensures r.Ok?
    ensures Renders(input, r.value, done + LeavesOf(top), items + ItemsOf(top, input.extensionModule))
  {
    var mod := input.extensionModule;
    match top {
      case PageMenu(b) =>
        assert ItemsOf(top, mod) == [RenderLeafMenu(b, mod)];
        r := PushLeaf(input, out, b, done, items);
      case OrganizationMenu(menu, children) =>
        var current := out.(menus := out.menus + [RenderOrganizationMenu(menu, mod)]);
        ghost var items0 := items + [RenderOrganizationMenu(menu, mod)];
        assert done + children[..0] == done && items0 + LeafMenuItems(children[..0], mod) == items0;
        for j := 0 to |children|
          invariant Renders(input, current, done + children[..j], items0 + LeafMenuItems(children[..j], mod))
        {
          var pushed := PushLeaf(input, current, children[j], done + children[..j], items0 + LeafMenuItems(children[..j], mod));
          match pushed {
            case Err(e) => return Err(e);
            case Ok(next) => current := next;
          }
          OneMoreLeaf(done, items0, children, mod, j);
        }
        assert children[..|children|] == children;
        assert items0 + LeafMenuItems(children, mod) == items + ItemsOf(top, mod);
        r := Ok(current);
    }
  }

  lemma OneMoreLeaf(done: seq<ResolvedPageBinding>, items: seq<MenuItem>, children: seq<ResolvedPageBinding>, mod: Option<string>, j: nat)
    requires j < |children|
    ensures done + children[..j] + [children[j]] == done + children[..j + 1]
    ensures items + LeafMenuItems(children[..j], mod) + [RenderLeafMenu(children[j], mod)] == items + LeafMenuItems(children[..j + 1], mod)
  {
    hide RenderLeafMenu;
    assert children[..j + 1] == children[..j] + [children[j]];
  }

  method RenderV1Manifest(input: FrontendRenderInput) returns (r: Result<Manifest, ManifestRenderError>)
    ensures r.Ok? <==> Acceptable(input)
    ensures r.Ok? ==> r.value == ManifestOf(input)
    ensures r.Err? ==> Explains(input, r.error)
  {
    var displayName := input.displayName.UnwrapOr(input.name);
    var resolved := ResolveSpec(input);
    if resolved.Err? {
      return Err(resolved.error);
    }
    var tops := resolved.value;
    var out := Rendered([], [], [], {});
    ghost var leafLists, itemLists := LeafLists(tops), ItemLists(tops, input.extensionModule);
    for i := 0 to |tops|
      invariant Renders(input, out, Flatten(leafLists[..i]), Flatten(itemLists[..i]))
    {
      MenuLeavesAreGood(input, i);
      FlattenStep(leafLists, i);
      FlattenStep(itemLists, i);
      var pushed := PushTopMenu(input, out, tops[i], Flatten(leafLists[..i]), Flatten(itemLists[..i]));
      match pushed {
        case Err(e) => return Err(e);
        case Ok(next) => out := next;
      }
    }
    assert leafLists[..|tops|] == leafLists && itemLists[..|tops|] == itemLists;
    return Ok(Manifest(
      "1.0", input.name, displayName, input.description, out.routes, out.menus, input.locales, out.pages, input.name));
  }

  function PagePairs(bs: seq<ResolvedPageBinding>): set<(string, string)> {
    set i | 0 <= i < |bs| :: (bs[i].placement.AsStr(), bs[i].pageIdSuffix)
  }

  ghost predicate Lists(pages: seq<ResolvedFrontendPage>, keys: set<(string, string)>, done: seq<ResolvedPageBinding>) {
    keys == PagePairs(done) && pages == ToFrontendPages(FirstBindings(done))
  }

  method PushResolvedPage(b: ResolvedPageBinding, pages: seq<ResolvedFrontendPage>, keys: set<(string, string)>, ghost done: seq<ResolvedPageBinding>)
    returns (pages': seq<ResolvedFrontendPage>, keys': set<(string, string)>)
    requires Lists(pages, keys, done)
    ensures Lists(pages', keys', done + [b])
  {
    var pair := (b.placement.AsStr(), b.pageIdSuffix);
    FirstBindingsStep(done, b);
    keys' := keys + {pair};
    assert keys' == PagePairs(done + [b]);
    assert pair in keys <==> SeenPage(done, b);
    pages' := if pair in keys then pages else pages + [ToFrontendPage(b)];
  }

  method PushResolvedMenu(
    bindings: seq<ResolvedPageBinding>, pages: seq<ResolvedFrontendPage>, keys: set<(string, string)>,
    ghost done: seq<ResolvedPageBinding>)
    returns (pages': seq<ResolvedFrontendPage>, keys': set<(string, string)>)
    requires Lists(pages, keys, done)
    ensures Lists(pages', keys', done + bindings)
  {
    pages', keys' := pages, keys;
    assert done + bindings[..0] == done;
    for j := 0 to |bindings|
      invariant Lists(pages', keys', done + bindings[..j])
    {
      pages', keys' := PushResolvedPage(bindings[j], pages', keys', done + bindings[..j]);
      assert done + bindings[..j] + [bindings[j]] == done + bindings[..j + 1];
    }
    assert bindings[..|bindings|] == bindings;
  }

  method ResolveV1Pages(input: FrontendRenderInput) returns (r: Result<seq<ResolvedFrontendPage>, ManifestRenderError>)
    ensures r.Ok? <==> Acceptable(input)
    ensures r.Ok? ==> r.value == ToFrontendPages(FirstBindings(Leaves(input)))
    ensures r.Err? ==> Explains(input, r.error)
  {
    var resolved := ResolveSpec(input);
    if resolved.Err? {
      return Err(resolved.error);
    }
    var tops := resolved.value;
    var pages := [];
    var keys: set<(string, string)> := {};
    ghost var leafLists := LeafLists(tops);
    for i := 0 to |tops|
      invariant Lists(pages, keys, Flatten(leafLists[..i]))
    {
      FlattenStep(leafLists, i);
      pages, keys := PushResolvedMenu(LeavesOf(tops[i]), pages, keys, Flatten(leafLists[..i]));
    }
    assert leafLists[..|tops|] == leafLists;
    return Ok(pages);
  }
}
