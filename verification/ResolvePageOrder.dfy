/**
 What resolution depends on: only the referenced pages matter, and their order
 does not.
 */
module ResolvePageOrder {
  import opened Prelude
  import opened FrontendTypes
  import opened Resolve

  function Keep(pages: seq<FrontendPageSpec>, keys: set<string>): seq<FrontendPageSpec> {
    if pages == [] then []
    else if pages[0].key in keys then [pages[0]] + Keep(pages[1..], keys)
    else Keep(pages[1..], keys)
  }

  function ReferencedPages(input: FrontendRenderInput): seq<FrontendPageSpec> {
    Keep(input.pages, ReferencedPageKeys(input))
  }

  /** `m` holds at most one page for each key. */
  predicate OnePerKey(m: multiset<FrontendPageSpec>) {
    forall p, q :: p in m && q in m && p.key == q.key ==> p == q && m[p] == 1
  }

  predicate DistinctIn(pages: seq<FrontendPageSpec>, keys: set<string>) {
    forall i, j :: 0 <= i < j < |pages| && pages[i].key in keys ==> pages[i].key != pages[j].key
  }

  lemma {:induction false} KeepMembers(pages: seq<FrontendPageSpec>, keys: set<string>)
    ensures forall p :: p in multiset(Keep(pages, keys)) <==> p in pages && p.key in keys
  {
    if pages != [] {
      KeepMembers(pages[1..], keys);
      assert pages == [pages[0]] + pages[1..];
    }
  }

  lemma DistinctCons(p: FrontendPageSpec, rest: seq<FrontendPageSpec>, keys: set<string>)
    ensures DistinctIn([p] + rest, keys)
            <==> DistinctIn(rest, keys) && (p.key in keys ==> forall q :: q in rest ==> q.key != p.key)
  {
    var pages := [p] + rest;
    assert forall i :: 0 <= i < |rest| ==> rest[i] == pages[i + 1];
    if DistinctIn(pages, keys) {
      forall i, j | 0 <= i < j < |rest| && rest[i].key in keys ensures rest[i].key != rest[j].key {
        assert pages[i + 1].key != pages[j + 1].key;
      }
      forall q | q in rest && p.key in keys ensures q.key != p.key {
        var j :| 0 <= j < |rest| && rest[j] == q;
        assert pages[0].key != pages[j + 1].key;
      }
    }
  }

  lemma OnePerKeyAdd(p: FrontendPageSpec, m: multiset<FrontendPageSpec>)
    ensures OnePerKey(multiset{p} + m) <==> OnePerKey(m) && forall q :: q in m ==> q.key != p.key
  {
    var all := multiset{p} + m;
    assert forall q :: q in all <==> q == p || q in m;
    if OnePerKey(all) {
      forall q | q in m ensures q.key != p.key {
        assert q in all && p in all;
      }
      forall a, b | a in m && b in m && a.key == b.key ensures a == b && m[a] == 1 {
        assert a in all && b in all;
      }
    }
  }

  lemma {:induction false} KeepDistinct(pages: seq<FrontendPageSpec>, keys: set<string>)
    ensures DistinctIn(pages, keys) <==> OnePerKey(multiset(Keep(pages, keys)))
  {
    if pages != [] {
      var p, rest := pages[0], pages[1..];
      KeepDistinct(rest, keys);
      KeepMembers(rest, keys);
      assert pages == [p] + rest;
      DistinctCons(p, rest, keys);
      if p.key in keys {
        OnePerKeyAdd(p, multiset(Keep(rest, keys)));
        assert multiset(Keep(pages, keys)) == multiset{p} + multiset(Keep(rest, keys));
      }
    }
  }

  lemma KeepContents(pages: seq<FrontendPageSpec>, keys: set<string>)
    ensures forall p :: p in multiset(Keep(pages, keys)) <==> p in pages && p.key in keys
    ensures DistinctIn(pages, keys) <==> OnePerKey(multiset(Keep(pages, keys)))
  {
    KeepMembers(pages, keys);
    KeepDistinct(pages, keys);
  }

  /** Acceptance of the pages, on the multiset of referenced pages alone. */
  lemma PagesOkByContents(input: FrontendRenderInput)
    ensures PagesOk(input) <==>
            && OnePerKey(multiset(ReferencedPages(input)))
            && forall p :: p in multiset(ReferencedPages(input)) ==> KeyOk(p.key) && PageShapeOk(p)
  {
    KeepContents(input.pages, ReferencedPageKeys(input));
    if PagesOk(input) { ContentsOfPagesOk(input); } else { PagesOkOfContents(input); }
  }

  lemma ContentsOfPagesOk(input: FrontendRenderInput)
    requires PagesOk(input)
    ensures DistinctIn(input.pages, ReferencedPageKeys(input))
    ensures forall p :: p in input.pages && p.key in ReferencedPageKeys(input) ==> KeyOk(p.key) && PageShapeOk(p)
  {
    hide KeyOk, PageShapeOk, ReferencedPageKeys;
    forall p | p in input.pages && p.key in ReferencedPageKeys(input) ensures KeyOk(p.key) && PageShapeOk(p) {
      var i :| 0 <= i < |input.pages| && input.pages[i] == p;
      assert PageAt(input, i);
    }
  }

  lemma PagesOkOfContents(input: FrontendRenderInput)
    ensures
      && DistinctIn(input.pages, ReferencedPageKeys(input))
      && (forall p :: p in input.pages && p.key in ReferencedPageKeys(input) ==> KeyOk(p.key) && PageShapeOk(p))
      ==> PagesOk(input)
  {
    hide KeyOk, PageShapeOk, ReferencedPageKeys;
    assert forall i :: 0 <= i < |input.pages| ==> input.pages[i] in input.pages;
  }

  lemma LookupByContents(input: FrontendRenderInput, key: string)
    requires PagesOk(input) && key in ReferencedPageKeys(input)
    ensures LookupPage(input.pages, key).Some? <==> exists p :: p in multiset(ReferencedPages(input)) && p.key == key
    ensures forall p :: p in multiset(ReferencedPages(input)) && p.key == key ==> LookupPage(input.pages, key) == Some(p)
  {
    KeepContents(input.pages, ReferencedPageKeys(input));
    PagesOkByContents(input);
    var found := LookupPage(input.pages, key);
    if found.Some? {
      assert found.value in multiset(ReferencedPages(input));
    }
  }

  /**
   Two inputs that differ only in their page lists, with the same referenced
   pages up to order, are accepted together and resolve to the same menus.
   */
  lemma ResolutionIgnoresPageOrder(a: FrontendRenderInput, b: FrontendRenderInput)
    requires b == a.(pages := b.pages)
    requires multiset(ReferencedPages(a)) == multiset(ReferencedPages(b))
    ensures Acceptable(a) <==> Acceptable(b)
    ensures Acceptable(a) ==> ResolvedMenus(a) == ResolvedMenus(b)
  {
    PagesOkByContents(a);
    PagesOkByContents(b);
    assert ReferencedPageKeys(a) == ReferencedPageKeys(b);
    if PagesOk(a) {
      forall key | key in ReferencedPageKeys(a) ensures LookupPage(a.pages, key) == LookupPage(b.pages, key) {
        LookupByContents(a, key);
        LookupByContents(b, key);
      }
      forall i | 0 <= i < |a.menus|
        ensures MenuOk(a, a.menus[i]) <==> MenuOk(b, b.menus[i])
        ensures MenuOk(a, a.menus[i]) ==> ResolvedMenu(a, a.menus[i]) == ResolvedMenu(b, b.menus[i])
      {
        SameLookupsSameMenu(a, b, i);
      }
    }
  }

  lemma SameLookupsSameMenu(a: FrontendRenderInput, b: FrontendRenderInput, i: nat)
    requires b == a.(pages := b.pages) && i < |a.menus|
    requires forall key :: key in ReferencedPageKeys(a) ==> LookupPage(a.pages, key) == LookupPage(b.pages, key)
    ensures MenuOk(a, a.menus[i]) <==> MenuOk(b, b.menus[i])
    ensures MenuOk(a, a.menus[i]) ==> ResolvedMenu(a, a.menus[i]) == ResolvedMenu(b, b.menus[i])
  {
    RefsInclude(a, i);
    var menu := a.menus[i];
    if menu.nodeType.Organization? {
      forall j | 0 <= j < |menu.children|
        ensures ChildOk(a, menu, j) <==> ChildOk(b, menu, j)
        ensures ChildOk(a, menu, j) ==> ChildBinding(a, menu, j) == ChildBinding(b, menu, j)
      {
        var k := PageKeyOf(menu.children[j].pageKey, menu.children[j].key, a.requirePageKey);
        if k.Some? {
          assert k.value in MenuRefs(menu, a.requirePageKey);
          assert k.value in ReferencedPageKeys(a);
        }
      }
    }
  }
}
