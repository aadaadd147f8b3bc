/** The errors of the compiler are reasons: none of them fits a spec that it accepts. */
module ResolveErrors {
  import opened Prelude
  import opened FrontendTypes
  import opened Resolve

  /** A menu that refers to a page key has it valid, and the page there and open to its placement. */
  lemma ReferrerNeeds(input: FrontendRenderInput, menu: FrontendMenuSpec, k: string)
    requires MenuOk(input, menu) && k in MenuRefs(menu, input.requirePageKey)
    ensures KeyOk(k) && LookupPage(input.pages, k).Some? && AcceptsPlacement(LookupPage(input.pages, k).value, menu.placement)
  {
    hide KeyOk, AcceptsPlacement, LookupPage;
    if menu.nodeType.Organization? {
      var j :| 0 <= j < |menu.children| && PageKeyOf(menu.children[j].pageKey, menu.children[j].key, input.requirePageKey) == Some(k);
      assert ChildOk(input, menu, j);
    }
  }

  lemma ReferencedIsFound(input: FrontendRenderInput, k: string)
    requires Acceptable(input) && k in ReferencedPageKeys(input)
    ensures KeyOk(k) && LookupPage(input.pages, k).Some?
  {
    hide KeyOk, LookupPage, MenuOk, MenuRefs, PagesOk;
    var i :| 0 <= i < |input.menus| && k in MenuRefs(input.menus[i], input.requirePageKey);
    ReferrerNeeds(input, input.menus[i], k);
  }

  /** In an acceptable spec a referenced page is the one its key finds, well formed, and open to whoever refers to it. */
  lemma ReferencedPageIsFine(input: FrontendRenderInput, i: nat)
    requires Acceptable(input) && i < |input.pages| && input.pages[i].key in ReferencedPageKeys(input)
    ensures PageShapeOk(input.pages[i]) && LookupPage(input.pages, input.pages[i].key) == Some(input.pages[i])
  {
    hide KeyOk, PageShapeOk, MenusOkUpTo, ReferencedPageKeys;
    assert PageAt(input, i);
  }

  lemma NotAcceptedIsRejected(input: FrontendRenderInput, i: nat, placement: MenuPlacement)
    requires Acceptable(input) && i < |input.pages| && RefersFrom(input, placement, input.pages[i].key)
    ensures AcceptsPlacement(input.pages[i], placement)
  {
    hide AcceptsPlacement, LookupPage, MenuOk, MenuRefs, PageShapeOk, PagesOk;
    var k := input.pages[i].key;
    var m :| 0 <= m < |input.menus| && input.menus[m].placement == placement && k in MenuRefs(input.menus[m], input.requirePageKey);
    RefsInclude(input, m);
    ReferrerNeeds(input, input.menus[m], k);
    ReferencedPageIsFine(input, i);
  }

  lemma PageErrorIsReal(input: FrontendRenderInput, k: string, problem: PageProblem)
    requires Acceptable(input)
    ensures !Explains(input, InvalidPageShape(k, problem))
  {
    hide KeyOk, Acceptable, AcceptsPlacement, ReferencedPageKeys, RefersFrom, LookupPage;
    if Explains(input, InvalidPageShape(k, problem)) {
      ReferencedIsFound(input, k);
      var i: nat :| i < |input.pages| && input.pages[i].key == k && PageProblemOf(input, input.pages[i], problem);
      ReferencedPageIsFine(input, i);
      if problem.PlacementNotAccepted? { NotAcceptedIsRejected(input, i, problem.placement); }
    }
  }

  lemma MenuProblemIsReal(input: FrontendRenderInput, menu: FrontendMenuSpec, k: string, problem: MenuProblem)
    requires MenuOk(input, menu)
    ensures !MenuProblemAt(input, menu, k, problem)
  {
    hide KeyOk, LookupPage, AcceptsPlacement;
    if menu.nodeType.Organization? {
      forall j | 0 <= j < |menu.children| ensures input.requirePageKey ==> menu.children[j].pageKey.Some? {
        assert ChildOk(input, menu, j);
      }
    }
  }

  lemma KeyErrorIsReal(input: FrontendRenderInput, k: string)
    requires Acceptable(input) && IsMenuKey(input, k)
    ensures KeyOk(k)
  {
    hide KeyOk, LookupPage, AcceptsPlacement, PagesOk;
    var i :| 0 <= i < |input.menus| &&
      (input.menus[i].key == k ||
       (input.menus[i].nodeType.Organization? && exists j :: 0 <= j < |input.menus[i].children| && input.menus[i].children[j].key == k));
    assert MenuOk(input, input.menus[i]);
    if input.menus[i].key != k {
      var j :| 0 <= j < |input.menus[i].children| && input.menus[i].children[j].key == k;
      assert ChildOk(input, input.menus[i], j);
    }
  }

  lemma MenuErrorIsReal(input: FrontendRenderInput, e: ManifestRenderError)
    requires Acceptable(input) && (e.InvalidMenuKey? || e.DuplicateTopLevelMenuKey? || e.InvalidMenuShape? || e.DuplicateMenuRoute?)
    ensures !Explains(input, e)
  {
    hide KeyOk, PagesOk, IsMenuKey, LeafOk, MenuProblemAt, SameSlot;
    match e
    case InvalidMenuKey(k) => if IsMenuKey(input, k) { KeyErrorIsReal(input, k); }
    case InvalidMenuShape(k, problem) =>
      forall i | 0 <= i < |input.menus| ensures !MenuProblemAt(input, input.menus[i], k, problem) {
        MenuProblemIsReal(input, input.menus[i], k, problem);
      }
    case DuplicateMenuRoute(placement, route) =>
      forall i | 0 <= i < |input.menus| ensures !SiblingClash(input.menus[i], placement, route) {
        assert MenuOk(input, input.menus[i]);
      }
    case DuplicateTopLevelMenuKey(_) =>
  }

  /** No error explains an acceptable spec: whatever the compiler reports is a reason to reject. */
  lemma ErrorsAreReal(input: FrontendRenderInput, e: ManifestRenderError)
    requires Explains(input, e)
    ensures !Acceptable(input)
  {
    hide KeyOk, LookupPage, AcceptsPlacement, MenusOkUpTo, ReferencedPageKeys;
    if Acceptable(input) {
      match e
      case InvalidPageShape(k, problem) => PageErrorIsReal(input, k, problem);
      case DuplicatePageKey(k) =>
      case MissingCrdColumns(k) =>
        var i: nat :| i < |input.pages| && input.pages[i].key == k && input.pages[i].crdTable.Some? && input.pages[i].crdTable.value.columns == [];
        ReferencedPageIsFine(input, i);
      case MissingPageForMenuKey(k) => ReferencedIsFound(input, k);
      case UnsupportedVersion(_) =>
      case _ => MenuErrorIsReal(input, e);
    }
  }
}
