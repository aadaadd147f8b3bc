/**
 Menu and page resolution (crates/manifest/src/v1/resolve.rs).

 The methods are the source's loops. What they must compute is given without
 loops: `Acceptable` says which specs are accepted, `ResolvedMenus` says what an
 accepted spec resolves to, and `Explains` says what each error means.
 */
module Resolve {
  import opened Prelude
  import opened FrontendTypes

  datatype ResolvedMenuLevel = Primary | Secondary

  datatype ResolvedPageBinding = ResolvedPageBinding(
    menuTitle: string,
    menuLevel: ResolvedMenuLevel,
    pageTitle: string,
    icon: Option<string>,
    placement: MenuPlacement,
    routeSuffix: string,
    pageIdSuffix: string,
    menuName: string,
    parent: string,
    page: FrontendPageSpec)

  datatype ResolvedOrganizationMenu = ResolvedOrganizationMenu(
    name: string,
    title: string,
    icon: Option<string>,
    placement: MenuPlacement)

  datatype ResolvedTopMenu =
    | PageMenu(binding: ResolvedPageBinding)
    | OrganizationMenu(menu: ResolvedOrganizationMenu, children: seq<ResolvedPageBinding>)

  // ----- Keys, suffixes and names -----

  predicate KeyChar(c: char) {
    'a' <= c <= 'z' || '0' <= c <= '9' || c == '-'
  }

  /** Lower-case ASCII letters, digits and the hyphen, by their codes. */
  lemma KeyCharCodes(c: char)
    ensures KeyChar(c) <==> c as int == 45 || 48 <= c as int <= 57 || 97 <= c as int <= 122
  {
    assert '-' as int == 45 && '0' as int == 48 && '9' as int == 57 && 'a' as int == 97 && 'z' as int == 122;
  }

  predicate KeyOk(key: string) {
    && key != []
    && key[0] != '-'
    && key[|key| - 1] != '-'
    && forall i :: 0 <= i < |key| ==> KeyChar(key[i])
  }

  function RouteSuffixForChild(parentKey: string, childKey: string): string {
    parentKey + "/" + childKey
  }

  function PageIdSuffix(routeSuffix: string, pageKey: string, usePageKey: bool): string {
    if usePageKey then pageKey else routeSuffix
  }

  function MenuNameForSuffix(routeNamespace: string, name: string, suffix: string): string {
    routeNamespace + "/" + name + "/" + suffix
  }

  function NestedMenuParent(placement: MenuPlacement, menuName: string): string {
    placement.AsStr() + "." + menuName
  }

  /** Splitting at the first separator is unambiguous when neither head contains it. */
  lemma SplitUnique(k1: string, c1: string, k2: string, c2: string, sep: char)
    requires sep !in k1 && sep !in k2
    requires k1 + [sep] + c1 == k2 + [sep] + c2
    ensures k1 == k2 && c1 == c2
  {
    var s := k1 + [sep] + c1;
    assert s[|k1|] == sep && s[|k2|] == sep;
    assert forall i :: 0 <= i < |k1| ==> s[i] == k1[i];
    assert forall i :: 0 <= i < |k2| ==> s[i] == k2[i];
    assert k1 == s[..|k1|] && k2 == s[..|k2|];
    assert c1 == s[|k1| + 1..] && c2 == s[|k2| + 1..];
  }

  // ----- Which specs are accepted -----

  predicate PageShapeOk(page: FrontendPageSpec) {
    && (page.placements.Some? ==> page.placements.value != [])
    && match page.pageType
       case Iframe => page.iframe.Some? && page.crdTable.None?
       case CrdTable => page.crdTable.Some? && page.iframe.None? && page.crdTable.value.columns != []
  }

  predicate AcceptsPlacement(page: FrontendPageSpec, placement: MenuPlacement) {
    page.placements.Some? ==> placement in page.placements.value
  }

  /** The page a menu entry refers to: its page key, or its own key where page keys are optional. */
  function PageKeyOf(pageKey: Option<string>, menuKey: string, requirePageKey: bool): Option<string> {
    if pageKey.Some? then pageKey else if requirePageKey then None else Some(menuKey)
  }

  /** The page keys one menu refers to. */
  function MenuRefs(menu: FrontendMenuSpec, requirePageKey: bool): set<string> {
    match menu.nodeType
    case Page =>
      var k := PageKeyOf(menu.pageKey, menu.key, requirePageKey);
      if k.Some? then {k.value} else {}
    case Organization =>
      set j | 0 <= j < |menu.children| && PageKeyOf(menu.children[j].pageKey, menu.children[j].key, requirePageKey).Some?
        :: PageKeyOf(menu.children[j].pageKey, menu.children[j].key, requirePageKey).value
  }

  function RefsUpTo(menus: seq<FrontendMenuSpec>, requirePageKey: bool, n: nat): set<string>
    requires n <= |menus|
  {
    set i, k | 0 <= i < n && k in MenuRefs(menus[i], requirePageKey) :: k
  }

  function ReferencedPageKeys(input: FrontendRenderInput): set<string> {
    RefsUpTo(input.menus, input.requirePageKey, |input.menus|)
  }

  /** The first page with the given key. */
  function LookupPage(pages: seq<FrontendPageSpec>, key: string): (r: Option<FrontendPageSpec>)
    ensures r.None? ==> forall j :: 0 <= j < |pages| ==> pages[j].key != key
    ensures r.Some? ==> r.value.key == key
    ensures r.Some? ==> exists j :: 0 <= j < |pages| && pages[j] == r.value && forall i :: 0 <= i < j ==> pages[i].key != key
  {
    if pages == [] then None
    else if pages[0].key == key then
      assert pages[0] == pages[0];
      Some(pages[0])
    else
      var rest := LookupPage(pages[1..], key);
      assert rest.Some? ==> exists j :: 0 <= j < |pages| && pages[j] == rest.value && forall i :: 0 <= i < j ==> pages[i].key != key by {
        if rest.Some? {
          var j :| 0 <= j < |pages[1..]| && pages[1..][j] == rest.value && forall i :: 0 <= i < j ==> pages[1..][i].key != key;
          assert pages[j + 1] == rest.value;
          assert forall i :: 0 <= i < j + 1 ==> pages[i].key != key by {
            forall i | 0 <= i < j + 1 ensures pages[i].key != key {
              if i > 0 { assert pages[1..][i - 1] == pages[i]; }
            }
          }
        }
      }
      assert rest.None? ==> forall j :: 0 < j < |pages| ==> pages[j] == pages[1..][j - 1];
      rest
  }

  predicate PageAt(input: FrontendRenderInput, i: int)
    requires 0 <= i < |input.pages|
  {
    input.pages[i].key in ReferencedPageKeys(input) ==> KeyOk(input.pages[i].key) && PageShapeOk(input.pages[i])
  }

  predicate PagesOkUpTo(input: FrontendRenderInput, n: nat)
    requires n <= |input.pages|
  {
    && (forall i :: 0 <= i < n ==> PageAt(input, i))
    && forall i, j :: 0 <= i < j < n && input.pages[i].key in ReferencedPageKeys(input)
        ==> input.pages[i].key != input.pages[j].key
  }

  /** Referenced pages are well formed and have distinct keys; other pages are ignored. */
  predicate PagesOk(input: FrontendRenderInput) {
    PagesOkUpTo(input, |input.pages|)
  }

  /** A leaf entry has a valid key and names an existing page that accepts its placement. */
  predicate LeafOk(input: FrontendRenderInput, placement: MenuPlacement, key: string, pageKey: Option<string>) {
    var k := PageKeyOf(pageKey, key, input.requirePageKey);
    && KeyOk(key)
    && k.Some?
    && KeyOk(k.value)
    && LookupPage(input.pages, k.value).Some?
    && AcceptsPlacement(LookupPage(input.pages, k.value).value, placement)
  }

  predicate ChildOk(input: FrontendRenderInput, menu: FrontendMenuSpec, j: int)
    requires 0 <= j < |menu.children|
  {
    LeafOk(input, menu.placement, menu.children[j].key, menu.children[j].pageKey)
  }

  predicate MenuOk(input: FrontendRenderInput, menu: FrontendMenuSpec) {
    && KeyOk(menu.key)
    && match menu.nodeType
       case Page =>
         && menu.children == []
         && LeafOk(input, menu.placement, menu.key, menu.pageKey)
       case Organization =>
         && menu.children != []
         && menu.pageKey.None?
         && (forall j :: 0 <= j < |menu.children| ==> ChildOk(input, menu, j))
         && forall a, b :: 0 <= a < b < |menu.children| ==> menu.children[a].key != menu.children[b].key
  }

  predicate SameSlot(a: FrontendMenuSpec, b: FrontendMenuSpec) {
    a.placement == b.placement && a.key == b.key
  }

  predicate MenusOkUpTo(input: FrontendRenderInput, n: nat)
    requires n <= |input.menus|
  {
    && (forall i :: 0 <= i < n ==> MenuOk(input, input.menus[i]))
    && forall i, j :: 0 <= i < j < n ==> !SameSlot(input.menus[i], input.menus[j])
  }

  /**
   The validator, without loops: referenced pages are well formed, every menu is
   well formed, and no two menus claim the same key in one placement.
   */
  predicate Acceptable(input: FrontendRenderInput) {
    PagesOk(input) && MenusOkUpTo(input, |input.menus|)
  }

  // ----- What an accepted spec resolves to -----

  function LeafBinding(
    input: FrontendRenderInput, level: ResolvedMenuLevel, placement: MenuPlacement,
    displayName: string, key: string, icon: Option<string>, pageKey: Option<string>,
    routeSuffix: string, parent: string): ResolvedPageBinding
    requires LeafOk(input, placement, key, pageKey)
  {
    var k := PageKeyOf(pageKey, key, input.requirePageKey).value;
    var page := LookupPage(input.pages, k).value;
    ResolvedPageBinding(
      displayName, level, page.displayName.UnwrapOr(displayName), icon, placement, routeSuffix,
      PageIdSuffix(routeSuffix, k, input.requirePageKey),
      MenuNameForSuffix(input.routeNamespace, input.name, routeSuffix), parent, page)
  }

  function ChildBinding(input: FrontendRenderInput, menu: FrontendMenuSpec, j: int): ResolvedPageBinding
    requires 0 <= j < |menu.children| && ChildOk(input, menu, j)
  {
    var child := menu.children[j];
    LeafBinding(
      input, Secondary, menu.placement, child.displayName, child.key, child.icon, child.pageKey,
      RouteSuffixForChild(menu.key, child.key),
      NestedMenuParent(menu.placement, MenuNameForSuffix(input.routeNamespace, input.name, menu.key)))
  }

  function ResolvedMenu(input: FrontendRenderInput, menu: FrontendMenuSpec): ResolvedTopMenu
    requires MenuOk(input, menu)
  {
    match menu.nodeType
    case Page =>
      PageMenu(LeafBinding(
        input, Primary, menu.placement, menu.displayName, menu.key, menu.icon, menu.pageKey,
        menu.key, menu.placement.AsStr()))
    case Organization =>
      OrganizationMenu(
        ResolvedOrganizationMenu(
          MenuNameForSuffix(input.routeNamespace, input.name, menu.key), menu.displayName, menu.icon, menu.placement),
        seq(|menu.children|, j requires 0 <= j < |menu.children| && ChildOk(input, menu, j) => ChildBinding(input, menu, j)))
  }

  function ResolvedMenus(input: FrontendRenderInput): seq<ResolvedTopMenu>
    requires Acceptable(input)
  {
    seq(|input.menus|, i requires 0 <= i < |input.menus| && MenuOk(input, input.menus[i]) => ResolvedMenu(input, input.menus[i]))
  }

  // ----- What each error means -----

  /** Key `k` belongs to some menu or child entry. */
  predicate IsMenuKey(input: FrontendRenderInput, k: string) {
    exists i :: 0 <= i < |input.menus| &&
      (input.menus[i].key == k ||
       (input.menus[i].nodeType.Organization? && exists j :: 0 <= j < |input.menus[i].children| && input.menus[i].children[j].key == k))
  }

  predicate MenuProblemAt(input: FrontendRenderInput, menu: FrontendMenuSpec, k: string, problem: MenuProblem) {
    match problem
    case PageMenuHasChildren => menu.key == k && menu.nodeType.Page? && menu.children != []
    case OrganizationHasNoChildren => menu.key == k && menu.nodeType.Organization? && menu.children == []
    case OrganizationHasPageKey => menu.key == k && menu.nodeType.Organization? && menu.pageKey.Some?
    case PageKeyRequired =>
      && input.requirePageKey
      && (match menu.nodeType
          case Page => menu.key == k && menu.pageKey.None?
          case Organization => exists j :: 0 <= j < |menu.children| && menu.children[j].key == k && menu.children[j].pageKey.None?)
    case NoMenuPlacement => false
  }

  /** Some menu in this placement refers to the page key. */
  predicate RefersFrom(input: FrontendRenderInput, placement: MenuPlacement, key: string) {
    exists i :: 0 <= i < |input.menus| && input.menus[i].placement == placement && key in MenuRefs(input.menus[i], input.requirePageKey)
  }

  predicate PageProblemOf(input: FrontendRenderInput, page: FrontendPageSpec, problem: PageProblem) {
    match problem
    case KeyNotKebabCase => !KeyOk(page.key)
    case NoPagePlacement => page.placements == Some([])
    case IframeConfigMissing => page.pageType.Iframe? && page.iframe.None?
    case IframeHasCrdTable => page.pageType.Iframe? && page.crdTable.Some?
    case CrdTableConfigMissing => page.pageType.CrdTable? && page.crdTable.None?
    case CrdTableHasIframe => page.pageType.CrdTable? && page.iframe.Some?
    case PlacementNotAccepted(pl) => !AcceptsPlacement(page, pl)
  }

  /** Two children `a < b` of one organization menu share a key and so a route. */
  predicate SiblingClash(menu: FrontendMenuSpec, placement: string, route: string) {
    && menu.nodeType.Organization?
    && menu.placement.AsStr() == placement
    && exists a, b :: 0 <= a < b < |menu.children|
        && menu.children[a].key == menu.children[b].key
        && route == RouteSuffixForChild(menu.key, menu.children[b].key)
  }

  predicate Explains(input: FrontendRenderInput, e: ManifestRenderError) {
    match e
    case InvalidMenuKey(k) => !KeyOk(k) && IsMenuKey(input, k)
    case DuplicateTopLevelMenuKey(k) =>
      exists i, j :: 0 <= i < j < |input.menus| && SameSlot(input.menus[i], input.menus[j]) && input.menus[j].key == k
    case InvalidMenuShape(k, problem) =>
      exists i :: 0 <= i < |input.menus| && MenuProblemAt(input, input.menus[i], k, problem)
    case DuplicatePageKey(k) =>
      && k in ReferencedPageKeys(input)
      && exists i, j :: 0 <= i < j < |input.pages| && input.pages[i].key == k && input.pages[j].key == k
    case MissingCrdColumns(k) =>
      && k in ReferencedPageKeys(input)
      && exists i :: 0 <= i < |input.pages| && input.pages[i].key == k
          && input.pages[i].crdTable.Some? && input.pages[i].crdTable.value.columns == []
    case InvalidPageShape(k, problem) =>
      && k in ReferencedPageKeys(input)
      && ((problem.KeyNotKebabCase? && !KeyOk(k))
          || ((problem.PlacementNotAccepted? ==> RefersFrom(input, problem.placement, k))
              && exists i :: 0 <= i < |input.pages| && input.pages[i].key == k && PageProblemOf(input, input.pages[i], problem)))
    case MissingPageForMenuKey(k) =>
      k in ReferencedPageKeys(input) && forall i :: 0 <= i < |input.pages| ==> input.pages[i].key != k
    case DuplicateMenuRoute(placement, route) =>
      exists i :: 0 <= i < |input.menus| && SiblingClash(input.menus[i], placement, route)
    case UnsupportedVersion(_) => false
  }

  // ----- Routes already bound -----

  /** The (placement, route) pairs one menu binds. */
  function MenuRoutes(menu: FrontendMenuSpec): set<(string, string)> {
    match menu.nodeType
    case Page => {(menu.placement.AsStr(), menu.key)}
    case Organization => ChildRoutes(menu, |menu.children|)
  }

  function ChildRoutes(menu: FrontendMenuSpec, n: nat): set<(string, string)>
    requires n <= |menu.children|
  {
    set j | 0 <= j < n :: (menu.placement.AsStr(), RouteSuffixForChild(menu.key, menu.children[j].key))
  }

  function BoundRoutes(menus: seq<FrontendMenuSpec>, n: nat): set<(string, string)>
    requires n <= |menus|
  {
    set i, x | 0 <= i < n && x in MenuRoutes(menus[i]) :: x
  }

  lemma KeyHasNoSeparator(key: string)
    requires KeyOk(key)
    ensures '/' !in key && '_' !in key
  {
    forall i | 0 <= i < |key| ensures key[i] != '/' && key[i] != '_' {
      assert KeyChar(key[i]);
    }
  }

  /** Menus in different slots never bind the same route, because keys contain no '/'. */
  lemma RoutesOfDistinctSlots(a: FrontendMenuSpec, b: FrontendMenuSpec, x: (string, string))
    requires KeyOk(a.key) && KeyOk(b.key) && !SameSlot(a, b)
    requires x in MenuRoutes(a)
    ensures x !in MenuRoutes(b)
  {
    KeyHasNoSeparator(a.key);
    KeyHasNoSeparator(b.key);
    assert a.nodeType.Organization? ==> '/' in x.1;
    if x in MenuRoutes(b) {
      assert b.nodeType.Organization? ==> '/' in x.1;
      if a.nodeType.Organization? && b.nodeType.Organization? {
        var i :| 0 <= i < |a.children| && x.1 == RouteSuffixForChild(a.key, a.children[i].key);
        var j :| 0 <= j < |b.children| && x.1 == RouteSuffixForChild(b.key, b.children[j].key);
        SplitUnique(a.key, a.children[i].key, b.key, b.children[j].key, '/');
      }
    }
  }

  // ----- The source's loops -----

  lemma RefsStep(menus: seq<FrontendMenuSpec>, requirePageKey: bool, n: nat)
    requires n < |menus|
    ensures RefsUpTo(menus, requirePageKey, n + 1) == RefsUpTo(menus, requirePageKey, n) + MenuRefs(menus[n], requirePageKey)
  {
    forall k
      ensures k in RefsUpTo(menus, requirePageKey, n + 1)
              <==> k in RefsUpTo(menus, requirePageKey, n) || k in MenuRefs(menus[n], requirePageKey)
    {
    }
  }

  method CollectReferencedPageKeys(input: FrontendRenderInput) returns (keys: set<string>)
    ensures keys == ReferencedPageKeys(input)
  {
    keys := {};
    for i := 0 to |input.menus|
      invariant keys == RefsUpTo(input.menus, input.requirePageKey, i)
    {
      var menu := input.menus[i];
      ghost var before := keys;
      match menu.nodeType {
      case Page =>
        var key := PageKeyOf(menu.pageKey, menu.key, input.requirePageKey);
        if key.Some? {
          keys := keys + {key.value};
        }
      case Organization =>
        for j := 0 to |menu.children|
          invariant keys == before + set c | 0 <= c < j && PageKeyOf(menu.children[c].pageKey, menu.children[c].key, input.requirePageKey).Some?
                                       :: PageKeyOf(menu.children[c].pageKey, menu.children[c].key, input.requirePageKey).value
        {
          var key := PageKeyOf(menu.children[j].pageKey, menu.children[j].key, input.requirePageKey);
          if key.Some? {
            keys := keys + {key.value};
          }
        }
      }
      assert keys == before + MenuRefs(menu, input.requirePageKey);
      assert keys == RefsUpTo(input.menus, input.requirePageKey, i + 1) by {
        RefsStep(input.menus, input.requirePageKey, i);
      }
    }
  }

  lemma RefsInclude(input: FrontendRenderInput, i: nat)
    requires i < |input.menus|
    ensures MenuRefs(input.menus[i], input.requirePageKey) <= ReferencedPageKeys(input)
    ensures forall k :: k in MenuRefs(input.menus[i], input.requirePageKey) ==> RefersFrom(input, input.menus[i].placement, k)
  {
  }

  function ValidatePageShape(page: FrontendPageSpec): (r: Option<ManifestRenderError>)
    ensures r.None? <==> PageShapeOk(page)
  {
    if page.placements == Some([]) then Some(InvalidPageShape(page.key, NoPagePlacement))
    else match page.pageType
      case Iframe =>
        if page.iframe.None? then Some(InvalidPageShape(page.key, IframeConfigMissing))
        else if page.crdTable.Some? then Some(InvalidPageShape(page.key, IframeHasCrdTable))
        else None
      case CrdTable =>
        if page.crdTable.None? then Some(InvalidPageShape(page.key, CrdTableConfigMissing))
        else if page.iframe.Some? then Some(InvalidPageShape(page.key, CrdTableHasIframe))
        else if page.crdTable.value.columns == [] then Some(MissingCrdColumns(page.key))
        else None
  }

  /** The HashMap of resolved pages: the referenced keys that have a page, each with that page. */
  ghost predicate IsPageIndex(input: FrontendRenderInput, pagesByKey: map<string, FrontendPageSpec>) {
    && (forall k :: k in pagesByKey <==> k in ReferencedPageKeys(input) && LookupPage(input.pages, k).Some?)
    && forall k :: k in pagesByKey ==> pagesByKey[k] == LookupPage(input.pages, k).value
  }

  lemma PageIndexComplete(input: FrontendRenderInput, m: map<string, FrontendPageSpec>)
    requires PagesOk(input)
    requires forall j :: 0 <= j < |input.pages| && input.pages[j].key in ReferencedPageKeys(input)
               ==> input.pages[j].key in m && m[input.pages[j].key] == input.pages[j]
    requires forall k :: k in m ==> k in ReferencedPageKeys(input) && exists j :: 0 <= j < |input.pages| && input.pages[j].key == k
    ensures IsPageIndex(input, m)
  {
    forall k | k in ReferencedPageKeys(input)
      ensures k in m <==> LookupPage(input.pages, k).Some?
      ensures k in m ==> m[k] == LookupPage(input.pages, k).value
    {
      var found := LookupPage(input.pages, k);
      if found.Some? {
        var j :| 0 <= j < |input.pages| && input.pages[j] == found.value;
        assert input.pages[j].key == k;
      }
    }
  }

  lemma ExplainPageProblem(input: FrontendRenderInput, i: nat)
    requires i < |input.pages| && input.pages[i].key in ReferencedPageKeys(input) && !PageShapeOk(input.pages[i])
    ensures ValidatePageShape(input.pages[i]).Some? && Explains(input, ValidatePageShape(input.pages[i]).value)
  {
    var problem := ValidatePageShape(input.pages[i]).value;
    assert problem.InvalidPageShape? ==> PageProblemOf(input, input.pages[i], problem.pageProblem);
  }

  lemma ExplainPageKey(input: FrontendRenderInput, i: nat)
    requires i < |input.pages| && input.pages[i].key in ReferencedPageKeys(input) && !KeyOk(input.pages[i].key)
    ensures Explains(input, InvalidPageShape(input.pages[i].key, KeyNotKebabCase))
  {
  }

  lemma ExplainDuplicatePage(input: FrontendRenderInput, i: nat, j: nat)
    requires i < j < |input.pages| && input.pages[j].key in ReferencedPageKeys(input) && input.pages[i].key == input.pages[j].key
    ensures Explains(input, DuplicatePageKey(input.pages[j].key))
  {
  }

  method ResolvePages(input: FrontendRenderInput, referenced: set<string>)
    returns (r: Result<map<string, FrontendPageSpec>, ManifestRenderError>)
    requires referenced == ReferencedPageKeys(input)
    ensures r.Ok? <==> PagesOk(input)
    ensures r.Ok? ==> IsPageIndex(input, r.value)
    ensures r.Err? ==> Explains(input, r.error)
  {
    hide Explains, KeyOk, PageShapeOk;
    var pages := map[];
    for i := 0 to |input.pages|
      invariant PagesOkUpTo(input, i)
      invariant forall j :: 0 <= j < i && input.pages[j].key in referenced ==> input.pages[j].key in pages && pages[input.pages[j].key] == input.pages[j]
      invariant forall k :: k in pages ==> k in referenced && exists j :: 0 <= j < i && input.pages[j].key == k
    {
      var page := input.pages[i];
      if page.key !in referenced {
        continue;
      }
      if !KeyOk(page.key) {
        assert !PageAt(input, i);
        ExplainPageKey(input, i);
        return Err(InvalidPageShape(page.key, KeyNotKebabCase));
      }
      var problem := ValidatePageShape(page);
      if problem.Some? {
        assert !PageAt(input, i);
        ExplainPageProblem(input, i);
        return Err(problem.value);
      }
      if page.key in pages {
        ghost var j :| 0 <= j < i && input.pages[j].key == page.key;
        ExplainDuplicatePage(input, j, i);
        return Err(DuplicatePageKey(page.key));
      }
      pages := pages[page.key := page];
    }
    PageIndexComplete(input, pages);
    return Ok(pages);
  }

  method BindPage(
    ghost input: FrontendRenderInput, placement: MenuPlacement, key: string, routeSuffix: string,
    pagesByKey: map<string, FrontendPageSpec>, bound: set<(string, string)>)
    returns (r: Result<FrontendPageSpec, ManifestRenderError>, bound': set<(string, string)>)
    requires key in ReferencedPageKeys(input) && RefersFrom(input, placement, key)
    requires IsPageIndex(input, pagesByKey)
    ensures bound' == bound + {(placement.AsStr(), routeSuffix)}
    ensures r.Ok? <==>
      && (placement.AsStr(), routeSuffix) !in bound
      && LookupPage(input.pages, key).Some?
      && AcceptsPlacement(LookupPage(input.pages, key).value, placement)
    ensures r.Ok? ==> r.value == LookupPage(input.pages, key).value
    ensures r.Err? ==> (r.error == DuplicateMenuRoute(placement.AsStr(), routeSuffix) && (placement.AsStr(), routeSuffix) in bound)
                       || Explains(input, r.error)
  {
    hide ReferencedPageKeys, RefersFrom, AcceptsPlacement, PageShapeOk, KeyOk;
    bound' := bound + {(placement.AsStr(), routeSuffix)};
    if (placement.AsStr(), routeSuffix) in bound {
      return Err(DuplicateMenuRoute(placement.AsStr(), routeSuffix)), bound';
    }
    if key !in pagesByKey {
      return Err(MissingPageForMenuKey(key)), bound';
    }
    if !AcceptsPlacement(pagesByKey[key], placement) {
      return Err(InvalidPageShape(key, PlacementNotAccepted(placement))), bound';
    }
    return Ok(pagesByKey[key]), bound';
  }

  function ResolvePageKey(menuKey: string, pageKey: Option<string>, requirePageKey: bool): (r: Result<string, ManifestRenderError>)
    ensures r.Ok? <==> PageKeyOf(pageKey, menuKey, requirePageKey).Some? && (pageKey.Some? ==> KeyOk(pageKey.value))
    ensures r.Ok? ==> Some(r.value) == PageKeyOf(pageKey, menuKey, requirePageKey)
  {
    match pageKey
    case Some(key) => if KeyOk(key) then Ok(key) else Err(InvalidPageShape(key, KeyNotKebabCase))
    case None => if requirePageKey then Err(InvalidMenuShape(menuKey, PageKeyRequired)) else Ok(menuKey)
  }

  function TopLevelKeys(menus: seq<FrontendMenuSpec>, n: nat): set<(string, string)>
    requires n <= |menus|
  {
    set m | 0 <= m < n :: (menus[m].placement.AsStr(), menus[m].key)
  }

  lemma ExplainTopLevel(input: FrontendRenderInput, i: nat)
    requires i < |input.menus|
    ensures !KeyOk(input.menus[i].key) ==> !Acceptable(input) && Explains(input, InvalidMenuKey(input.menus[i].key))
    ensures (input.menus[i].placement.AsStr(), input.menus[i].key) in TopLevelKeys(input.menus, i)
      ==> !Acceptable(input) && Explains(input, DuplicateTopLevelMenuKey(input.menus[i].key))
  {
    TopLevelKeysStep(input.menus, i);
    if !KeyOk(input.menus[i].key) {
      assert !MenuOk(input, input.menus[i]);
    }
  }

  lemma TopLevelKeysStep(menus: seq<FrontendMenuSpec>, n: nat)
    requires n < |menus|
    ensures TopLevelKeys(menus, n + 1) == TopLevelKeys(menus, n) + {(menus[n].placement.AsStr(), menus[n].key)}
    ensures (menus[n].placement.AsStr(), menus[n].key) in TopLevelKeys(menus, n)
            <==> exists m :: 0 <= m < n && SameSlot(menus[m], menus[n])
  {
  }

  lemma MenusOkStep(input: FrontendRenderInput, n: nat)
    requires n < |input.menus| && MenusOkUpTo(input, n)
    ensures MenusOkUpTo(input, n + 1)
            <==> MenuOk(input, input.menus[n])
                 && (input.menus[n].placement.AsStr(), input.menus[n].key) !in TopLevelKeys(input.menus, n)
  {
    TopLevelKeysStep(input.menus, n);
  }

  lemma BoundRoutesStep(menus: seq<FrontendMenuSpec>, n: nat)
    requires n < |menus|
    ensures BoundRoutes(menus, n + 1) == BoundRoutes(menus, n) + MenuRoutes(menus[n])
  {
    forall x
      ensures x in BoundRoutes(menus, n + 1) <==> x in BoundRoutes(menus, n) || x in MenuRoutes(menus[n])
    {
    }
  }

  lemma FreshRoutes(menus: seq<FrontendMenuSpec>, i: nat)
    requires i < |menus| && forall m :: 0 <= m <= i ==> KeyOk(menus[m].key)
    requires forall m :: 0 <= m < i ==> !SameSlot(menus[m], menus[i])
    ensures BoundRoutes(menus, i) !! MenuRoutes(menus[i])
  {
    forall x | x in BoundRoutes(menus, i) ensures x !in MenuRoutes(menus[i]) {
      var m :| 0 <= m < i && x in MenuRoutes(menus[m]);
      RoutesOfDistinctSlots(menus[m], menus[i], x);
    }
  }

  lemma ChildRouteTaken(menu: FrontendMenuSpec, n: nat)
    requires n < |menu.children|
    ensures (menu.placement.AsStr(), RouteSuffixForChild(menu.key, menu.children[n].key)) in ChildRoutes(menu, n)
            <==> exists a :: 0 <= a < n && menu.children[a].key == menu.children[n].key
  {
    forall a | 0 <= a < n && RouteSuffixForChild(menu.key, menu.children[a].key) == RouteSuffixForChild(menu.key, menu.children[n].key)
      ensures menu.children[a].key == menu.children[n].key
    {
      var head := menu.key + "/";
      assert menu.children[a].key == (head + menu.children[a].key)[|head|..];
      assert menu.children[n].key == (head + menu.children[n].key)[|head|..];
    }
  }

  /** The arm of resolve_spec for a page menu. */
  method ResolvePageMenu(input: FrontendRenderInput, i: nat, pagesByKey: map<string, FrontendPageSpec>, bound: set<(string, string)>)
    returns (r: Result<ResolvedTopMenu, ManifestRenderError>, bound': set<(string, string)>)
    requires i < |input.menus| && KeyOk(input.menus[i].key) && input.menus[i].nodeType.Page?
    requires bound !! MenuRoutes(input.menus[i])
    requires IsPageIndex(input, pagesByKey)
    ensures r.Ok? <==> MenuOk(input, input.menus[i])
    ensures r.Ok? ==> r.value == ResolvedMenu(input, input.menus[i]) && bound' == bound + MenuRoutes(input.menus[i])
    ensures r.Err? ==> Explains(input, r.error)
  {
    var menu := input.menus[i];
    bound' := bound;
    if menu.children != [] {
      assert MenuProblemAt(input, input.menus[i], menu.key, PageMenuHasChildren);
      return Err(InvalidMenuShape(menu.key, PageMenuHasChildren)), bound';
    }
    RefsInclude(input, i);
    var pageKey := ResolvePageKey(menu.key, menu.pageKey, input.requirePageKey);
    if pageKey.Err? {
      assert pageKey.error.InvalidMenuShape? ==> MenuProblemAt(input, input.menus[i], menu.key, PageKeyRequired);
      return Err(pageKey.error), bound';
    }
    var page;
    page, bound' := BindPage(input, menu.placement, pageKey.value, menu.key, pagesByKey, bound');
    if page.Err? {
      return Err(page.error), bound';
    }
    return Ok(PageMenu(ResolvedPageBinding(
      menu.displayName, Primary, page.value.displayName.UnwrapOr(menu.displayName), menu.icon, menu.placement, menu.key,
      PageIdSuffix(menu.key, pageKey.value, input.requirePageKey),
      MenuNameForSuffix(input.routeNamespace, input.name, menu.key), menu.placement.AsStr(), page.value))), bound';
  }

  /** One child of an organization menu, in resolve_spec's inner loop. */
  method ResolveChild(
    input: FrontendRenderInput, i: nat, j: nat, pagesByKey: map<string, FrontendPageSpec>, bound: set<(string, string)>)
    returns (r: Result<ResolvedPageBinding, ManifestRenderError>, bound': set<(string, string)>)
    requires i < |input.menus| && input.menus[i].nodeType.Organization? && j < |input.menus[i].children|
    requires IsPageIndex(input, pagesByKey)
    ensures var m := input.menus[i]; var route := (m.placement.AsStr(), RouteSuffixForChild(m.key, m.children[j].key));
      && (r.Ok? <==> ChildOk(input, m, j) && route !in bound)
      && (r.Ok? ==> r.value == ChildBinding(input, m, j) && bound' == bound + {route})
      && (r.Err? ==> (r.error == DuplicateMenuRoute(route.0, route.1) && route in bound) || Explains(input, r.error))
  {
    var menu := input.menus[i];
    var child := menu.children[j];
    bound' := bound;
    if !KeyOk(child.key) {
      return Err(InvalidMenuKey(child.key)), bound';
    }
    RefsInclude(input, i);
    var pageKey := ResolvePageKey(child.key, child.pageKey, input.requirePageKey);
    if pageKey.Err? {
      assert pageKey.error.InvalidMenuShape? ==> MenuProblemAt(input, input.menus[i], child.key, PageKeyRequired);
      return Err(pageKey.error), bound';
    }
    var routeSuffix := RouteSuffixForChild(menu.key, child.key);
    var page;
    page, bound' := BindPage(input, menu.placement, pageKey.value, routeSuffix, pagesByKey, bound');
    if page.Err? {
      return Err(page.error), bound';
    }
    return Ok(ResolvedPageBinding(
      child.displayName, Secondary, page.value.displayName.UnwrapOr(child.displayName), child.icon, menu.placement, routeSuffix,
      PageIdSuffix(routeSuffix, pageKey.value, input.requirePageKey),
      MenuNameForSuffix(input.routeNamespace, input.name, routeSuffix),
      NestedMenuParent(menu.placement, MenuNameForSuffix(input.routeNamespace, input.name, menu.key)), page.value)), bound';
  }

  lemma ExplainMenuProblem(input: FrontendRenderInput, i: nat, problem: MenuProblem)
    requires i < |input.menus| && input.menus[i].nodeType.Organization?
    requires (problem.OrganizationHasNoChildren? && input.menus[i].children == []) || (problem.OrganizationHasPageKey? && input.menus[i].pageKey.Some?)
    ensures Explains(input, InvalidMenuShape(input.menus[i].key, problem))
  {
    assert MenuProblemAt(input, input.menus[i], input.menus[i].key, problem);
  }

  lemma ExplainSiblingClash(input: FrontendRenderInput, i: nat, a: nat, b: nat)
    requires i < |input.menus| && input.menus[i].nodeType.Organization? && a < b < |input.menus[i].children|
    requires input.menus[i].children[a].key == input.menus[i].children[b].key
    ensures var m := input.menus[i];
      Explains(input, DuplicateMenuRoute(m.placement.AsStr(), RouteSuffixForChild(m.key, m.children[b].key)))
  {
    var m := input.menus[i];
    assert SiblingClash(m, m.placement.AsStr(), RouteSuffixForChild(m.key, m.children[b].key));
  }

  /** The arm of resolve_spec for an organization menu. */
  method ResolveOrganization(input: FrontendRenderInput, i: nat, pagesByKey: map<string, FrontendPageSpec>, bound: set<(string, string)>)
    returns (r: Result<ResolvedTopMenu, ManifestRenderError>, bound': set<(string, string)>)
    requires i < |input.menus| && KeyOk(input.menus[i].key) && input.menus[i].nodeType.Organization?
    requires bound !! MenuRoutes(input.menus[i])
    requires IsPageIndex(input, pagesByKey)
    ensures r.Ok? <==> MenuOk(input, input.menus[i])
    ensures r.Ok? ==> r.value == ResolvedMenu(input, input.menus[i]) && bound' == bound + MenuRoutes(input.menus[i])
    ensures r.Err? ==> Explains(input, r.error)
  {
    hide Explains, ChildBinding, IsPageIndex, KeyOk, RefersFrom, MenuRefs, LeafOk;
    var menu := input.menus[i];
    bound' := bound;
    if menu.children == [] {
      ExplainMenuProblem(input, i, OrganizationHasNoChildren);
      return Err(InvalidMenuShape(menu.key, OrganizationHasNoChildren)), bound';
    }
    if menu.pageKey.Some? {
      ExplainMenuProblem(input, i, OrganizationHasPageKey);
      return Err(InvalidMenuShape(menu.key, OrganizationHasPageKey)), bound';
    }
    var children := [];
    for j := 0 to |menu.children|
      invariant |children| == j
      invariant forall c :: 0 <= c < j ==> ChildOk(input, menu, c) && children[c] == ChildBinding(input, menu, c)
      invariant forall a, b :: 0 <= a < b < j ==> menu.children[a].key != menu.children[b].key
      invariant bound' == bound + ChildRoutes(menu, j)
    {
      ChildRouteTaken(menu, j);
      ghost var route := (menu.placement.AsStr(), RouteSuffixForChild(menu.key, menu.children[j].key));
      assert route !in bound by {
        assert route in MenuRoutes(menu);
      }
      ghost var before := bound';
      var child;
      child, bound' := ResolveChild(input, i, j, pagesByKey, bound');
      if child.Err? {
        if route in before {
          ghost var a :| 0 <= a < j && menu.children[a].key == menu.children[j].key;
          assert menu.children[a].key == menu.children[j].key;
          ExplainSiblingClash(input, i, a, j);
        } else {
          assert !ChildOk(input, menu, j);
        }
        return Err(child.error), bound';
      }
      children := children + [child.value];
    }
    return Ok(OrganizationMenu(
      ResolvedOrganizationMenu(
        MenuNameForSuffix(input.routeNamespace, input.name, menu.key), menu.displayName, menu.icon, menu.placement),
      children)), bound';
  }

  /** One iteration of the top-level loop of resolve_spec. */
  method ResolveTopMenu(
    input: FrontendRenderInput, i: nat, pagesByKey: map<string, FrontendPageSpec>,
    topLevelKeys: set<(string, string)>, bound: set<(string, string)>)
    returns (r: Result<ResolvedTopMenu, ManifestRenderError>, topLevelKeys': set<(string, string)>, bound': set<(string, string)>)
    requires i < |input.menus| && MenusOkUpTo(input, i)
    requires topLevelKeys == TopLevelKeys(input.menus, i) && bound == BoundRoutes(input.menus, i)
    requires IsPageIndex(input, pagesByKey)
    ensures r.Ok? <==> MenusOkUpTo(input, i + 1)
    ensures r.Ok? ==> r.value == ResolvedMenu(input, input.menus[i])
    ensures r.Ok? ==> topLevelKeys' == TopLevelKeys(input.menus, i + 1) && bound' == BoundRoutes(input.menus, i + 1)
    ensures r.Err? ==> Explains(input, r.error)
  {
    var menu := input.menus[i];
    topLevelKeys', bound' := topLevelKeys, bound;
    ExplainTopLevel(input, i);
    MenusOkStep(input, i);
    if !KeyOk(menu.key) {
      return Err(InvalidMenuKey(menu.key)), topLevelKeys', bound';
    }
    if (menu.placement.AsStr(), menu.key) in topLevelKeys {
      return Err(DuplicateTopLevelMenuKey(menu.key)), topLevelKeys', bound';
    }
    TopLevelKeysStep(input.menus, i);
    topLevelKeys' := topLevelKeys + {(menu.placement.AsStr(), menu.key)};
    FreshRoutes(input.menus, i);
    BoundRoutesStep(input.menus, i);
    match menu.nodeType {
      case Page => r, bound' := ResolvePageMenu(input, i, pagesByKey, bound);
      case Organization => r, bound' := ResolveOrganization(input, i, pagesByKey, bound);
    }
  }

  method ResolveSpec(input: FrontendRenderInput) returns (r: Result<seq<ResolvedTopMenu>, ManifestRenderError>)
    ensures r.Ok? <==> Acceptable(input)
    ensures r.Ok? ==> r.value == ResolvedMenus(input)
    ensures r.Err? ==> Explains(input, r.error)
  {
    hide Explains, MenuOk, ResolvedMenu;
    var referenced := CollectReferencedPageKeys(input);
    var pagesResult := ResolvePages(input, referenced);
    if pagesResult.Err? {
      return Err(pagesResult.error);
    }
    var topLevelKeys: set<(string, string)> := {};
    var boundRoutes: set<(string, string)> := {};
    var resolved := [];
    for i := 0 to |input.menus|
      invariant MenusOkUpTo(input, i)
      invariant topLevelKeys == TopLevelKeys(input.menus, i)
      invariant boundRoutes == BoundRoutes(input.menus, i)
      invariant |resolved| == i && forall m :: 0 <= m < i ==> resolved[m] == ResolvedMenu(input, input.menus[m])
    {
      var top;
      top, topLevelKeys, boundRoutes := ResolveTopMenu(input, i, pagesResult.value, topLevelKeys, boundRoutes);
      if top.Err? {
        return Err(top.error);
      }
      resolved := resolved + [top.value];
    }
    return Ok(resolved);
  }
}
