/** Garbage collection of artifact ConfigMaps (crates/frontend-extension-controller/src/artifact.rs). */
module ArtifactGc {
  import opened Prelude
  import opened Sequences
  import opened Text

  datatype ArtifactConfigMap = ArtifactConfigMap(name: string, created: Option<int>, ownerUids: seq<string>)

  predicate IsOwnedBy(cm: ArtifactConfigMap, feUid: Option<string>) {
    feUid.Some? && feUid.value in cm.ownerUids
  }

  /** The current ConfigMap and the one the stored status refers to. */
  function KeepNames(statusArtifact: Option<string>, current: ArtifactConfigMap): set<string> {
    {current.name} + if statusArtifact.Some? then {statusArtifact.value} else {}
  }

  predicate Eligible(cm: ArtifactConfigMap, feUid: Option<string>, keep: set<string>) {
    IsOwnedBy(cm, feUid) && cm.name !in keep
  }

  function EligibleOf(cms: seq<ArtifactConfigMap>, feUid: Option<string>, keep: set<string>): seq<ArtifactConfigMap> {
    Filter(cms, (cm: ArtifactConfigMap) => Eligible(cm, feUid, keep))
  }

  // ----- Newest first -----

  /** Option order: absent timestamps are oldest. */
  predicate CreatedLe(a: Option<int>, b: Option<int>) {
    a.None? || (b.Some? && a.value <= b.value)
  }

  /** `a` sorts before or together with `b`: later creation first, ties by greater name first. */
  predicate NotOlder(a: ArtifactConfigMap, b: ArtifactConfigMap) {
    CreatedLe(b.created, a.created) && (a.created == b.created ==> Le(b.name, a.name))
  }

  lemma NotOlderTotal(a: ArtifactConfigMap, b: ArtifactConfigMap)
    ensures NotOlder(a, b) || NotOlder(b, a)
    ensures NotOlder(a, b) && NotOlder(b, a) ==> a.name == b.name
  {
    LeTotal(a.name, b.name);
    if NotOlder(a, b) && NotOlder(b, a) {
      LeAntisymmetric(a.name, b.name);
    }
  }

  lemma NotOlderTransitive(a: ArtifactConfigMap, b: ArtifactConfigMap, c: ArtifactConfigMap)
    requires NotOlder(a, b) && NotOlder(b, c)
    ensures NotOlder(a, c)
  {
    if a.created == b.created == c.created {
      LeTransitive(c.name, b.name, a.name);
    }
  }

  ghost predicate NewestFirst(s: seq<ArtifactConfigMap>) {
    forall i, j :: 0 <= i < j < |s| ==> NotOlder(s[i], s[j])
  }

  function InsertByAge(cm: ArtifactConfigMap, s: seq<ArtifactConfigMap>): seq<ArtifactConfigMap> {
    if s == [] || NotOlder(cm, s[0]) then [cm] + s else [s[0]] + InsertByAge(cm, s[1..])
  }

  function SortByAge(s: seq<ArtifactConfigMap>): seq<ArtifactConfigMap> {
    if s == [] then [] else InsertByAge(s[0], SortByAge(s[1..]))
  }

  lemma {:induction false} InsertSorted(cm: ArtifactConfigMap, s: seq<ArtifactConfigMap>)
    requires NewestFirst(s)
    ensures NewestFirst(InsertByAge(cm, s))
    ensures multiset(InsertByAge(cm, s)) == multiset(s) + multiset{cm}
  {
    if s == [] {
    } else if NotOlder(cm, s[0]) {
      forall j | 0 <= j < |s| ensures NotOlder(cm, s[j]) {
        if j > 0 { NotOlderTransitive(cm, s[0], s[j]); }
      }
    } else {
      NotOlderTotal(cm, s[0]);
      InsertSorted(cm, s[1..]);
      assert s == [s[0]] + s[1..];
      forall x | x in InsertByAge(cm, s[1..]) ensures NotOlder(s[0], x) {
        assert x in multiset(s[1..]) + multiset{cm};
      }
    }
  }

  lemma {:induction false} SortSorted(s: seq<ArtifactConfigMap>)
    ensures NewestFirst(SortByAge(s)) && multiset(SortByAge(s)) == multiset(s)
    ensures |SortByAge(s)| == |s|
  {
    if s != [] {
      SortSorted(s[1..]);
      InsertSorted(s[0], SortByAge(s[1..]));
      assert s == [s[0]] + s[1..];
    }
    assert |SortByAge(s)| == |multiset(SortByAge(s))| && |s| == |multiset(s)|;
  }

  ghost predicate NamesDistinct(s: seq<ArtifactConfigMap>) {
    forall i, j :: 0 <= i < j < |s| ==> s[i].name != s[j].name
  }

  /** With distinct names the order is strict, so a sorted listing is unique. */
  lemma {:induction false} SortedIsUnique(a: seq<ArtifactConfigMap>, b: seq<ArtifactConfigMap>)
    requires NewestFirst(a) && NewestFirst(b) && multiset(a) == multiset(b)
    requires forall x, y :: x in a && y in a && x.name == y.name ==> x == y
    ensures a == b
  {
    assert |a| == |multiset(a)| && |b| == |multiset(b)|;
    if a != [] {
      FirstIsNewest(a, b[0], multiset(b));
      FirstIsNewest(b, a[0], multiset(a));
      NotOlderTotal(a[0], b[0]);
      assert a[0] in multiset(a) && b[0] in multiset(b);
      assert a == [a[0]] + a[1..] && b == [b[0]] + b[1..];
      assert multiset(a[1..]) == multiset(a) - multiset{a[0]};
      assert multiset(b[1..]) == multiset(b) - multiset{b[0]};
      SortedIsUnique(a[1..], b[1..]);
    }
  }

  lemma FirstIsNewest(s: seq<ArtifactConfigMap>, x: ArtifactConfigMap, m: multiset<ArtifactConfigMap>)
    requires s != [] && NewestFirst(s) && multiset(s) == m && x in m
    ensures NotOlder(s[0], x)
  {
    var i :| 0 <= i < |s| && s[i] == x;
    if i == 0 {
      NotOlderTotal(x, x);
    }
  }

  // ----- Candidates -----

  function Names(cms: seq<ArtifactConfigMap>): seq<string> {
    seq(|cms|, i requires 0 <= i < |cms| => cms[i].name)
  }

  function Skip<T>(s: seq<T>, n: nat): seq<T> {
    if n < |s| then s[n..] else []
  }

  function GcCandidates(cms: seq<ArtifactConfigMap>, feUid: Option<string>, keep: set<string>, retain: nat): seq<string> {
    Names(Skip(SortByAge(EligibleOf(cms, feUid, keep)), retain))
  }

  /** The ConfigMaps that collection may delete: those an extension owns, outside the keep set. */
  ghost function Collectable(cms: seq<ArtifactConfigMap>, feUid: Option<string>, keep: set<string>): set<ArtifactConfigMap> {
    set cm | cm in cms && feUid.Some? && feUid.value in cm.ownerUids && cm.name !in keep
  }

  lemma {:induction false} DistinctCount(s: seq<ArtifactConfigMap>, e: set<ArtifactConfigMap>)
    requires NamesDistinct(s) && forall x :: x in s <==> x in e
    ensures |s| == |e|
  {
    if s != [] {
      var rest := s[1..];
      forall x ensures x in rest <==> x in e - {s[0]} {
        if x in rest { assert x in s; }
        if x in e - {s[0]} { assert x in s; }
      }
      DistinctCount(rest, e - {s[0]});
    } else {
      assert e == {};
    }
  }

  lemma SortedMember(s: seq<ArtifactConfigMap>, x: ArtifactConfigMap)
    ensures x in SortByAge(s) <==> x in s
  {
    SortSorted(s);
    assert x in multiset(SortByAge(s)) <==> x in multiset(s);
  }

  /** Where a selected name comes from. */
  lemma SelectedAt(cms: seq<ArtifactConfigMap>, feUid: Option<string>, keep: set<string>, retain: nat, name: string) returns (i: nat)
    requires name in GcCandidates(cms, feUid, keep, retain)
    ensures var sorted := SortByAge(EligibleOf(cms, feUid, keep));
      retain <= i < |sorted| && sorted[i].name == name && sorted[i] in EligibleOf(cms, feUid, keep)
  {
    hide SortByAge, EligibleOf;
    var selected, eligible := GcCandidates(cms, feUid, keep, retain), EligibleOf(cms, feUid, keep);
    var k :| 0 <= k < |selected| && selected[k] == name;
    i := retain + k;
    SortedMember(eligible, SortByAge(eligible)[i]);
  }

  lemma EligibleIsCollectable(cms: seq<ArtifactConfigMap>, feUid: Option<string>, keep: set<string>)
    requires NamesDistinct(cms)
    ensures var eligible := EligibleOf(cms, feUid, keep);
      NamesDistinct(eligible) && |eligible| == |Collectable(cms, feUid, keep)| && forall x :: x in eligible <==> x in Collectable(cms, feUid, keep)
  {
    var eligible := EligibleOf(cms, feUid, keep);
    FilterMultiset(cms, (cm: ArtifactConfigMap) => Eligible(cm, feUid, keep));
    SortedNamesDistinct(cms, eligible);
    DistinctCount(eligible, Collectable(cms, feUid, keep));
  }

  /**
   What is selected: names of owned ConfigMaps outside the keep set, each once; and
   of the n collectable ones all but min(retain, n).
   */
  lemma SelectsOldestBeyondRetention(cms: seq<ArtifactConfigMap>, feUid: Option<string>, keep: set<string>, retain: nat)
    requires NamesDistinct(cms)
    ensures var selected, n := GcCandidates(cms, feUid, keep, retain), |Collectable(cms, feUid, keep)|;
      && |selected| == n - (if retain < n then retain else n)
      && Distinct(selected)
      && forall name :: name in selected ==> exists cm :: cm in Collectable(cms, feUid, keep) && cm.name == name
  {
    hide SortByAge, EligibleOf, Collectable;
    var eligible, selected := EligibleOf(cms, feUid, keep), GcCandidates(cms, feUid, keep, retain);
    var sorted := SortByAge(eligible);
    SortSorted(eligible);
    EligibleIsCollectable(cms, feUid, keep);
    SortedNamesDistinct(eligible, sorted);
    forall name | name in selected ensures exists cm :: cm in Collectable(cms, feUid, keep) && cm.name == name {
      var i := SelectedAt(cms, feUid, keep, retain, name);
      assert sorted[i] in Collectable(cms, feUid, keep);
    }
  }

  /**
   Of two collectable ConfigMaps, one selected and one spared, the selected one is
   not the newer: an absent creation time counts as oldest, and at equal times the
   selected one has the lesser name.
   */
  lemma SparesTheNewest(
    cms: seq<ArtifactConfigMap>, feUid: Option<string>, keep: set<string>, retain: nat, x: ArtifactConfigMap, y: ArtifactConfigMap)
    requires NamesDistinct(cms) && x in Collectable(cms, feUid, keep) && y in Collectable(cms, feUid, keep)
    requires x.name in GcCandidates(cms, feUid, keep, retain) && y.name !in GcCandidates(cms, feUid, keep, retain)
    ensures x.created.Some? ==> y.created.Some? && x.created.value <= y.created.value
    ensures x.created == y.created ==> x.name <= y.name || exists i :: SmallerAt(x.name, y.name, i)
  {
    SelectedComesLater(cms, feUid, keep, retain, x, y);
    LeOnCharacters(x.name, y.name);
  }

  lemma SelectedComesLater(
    cms: seq<ArtifactConfigMap>, feUid: Option<string>, keep: set<string>, retain: nat, x: ArtifactConfigMap, y: ArtifactConfigMap)
    requires NamesDistinct(cms) && x in Collectable(cms, feUid, keep) && y in Collectable(cms, feUid, keep)
    requires x.name in GcCandidates(cms, feUid, keep, retain) && y.name !in GcCandidates(cms, feUid, keep, retain)
    ensures NotOlder(y, x)
  {
    hide SortByAge, EligibleOf, Collectable, NotOlder, GcCandidates;
    var eligible := EligibleOf(cms, feUid, keep);
    var sorted := SortByAge(eligible);
    EligibleIsCollectable(cms, feUid, keep);
    SortSorted(eligible);
    SortedNamesDistinct(eligible, sorted);
    SortedMember(eligible, x);
    SortedMember(eligible, y);
    var i := SelectedAt(cms, feUid, keep, retain, x.name);
    assert sorted[i] == x by { SameNameSame(sorted, sorted[i], x); }
    var j :| 0 <= j < |sorted| && sorted[j] == y;
    if j >= retain { TailIsSelected(cms, feUid, keep, retain, j); }
  }

  lemma SameNameSame(s: seq<ArtifactConfigMap>, x: ArtifactConfigMap, y: ArtifactConfigMap)
    requires NamesDistinct(s) && x in s && y in s && x.name == y.name
    ensures x == y
  {
  }

  lemma TailIsSelected(cms: seq<ArtifactConfigMap>, feUid: Option<string>, keep: set<string>, retain: nat, j: nat)
    requires retain <= j < |SortByAge(EligibleOf(cms, feUid, keep))|
    ensures SortByAge(EligibleOf(cms, feUid, keep))[j].name in GcCandidates(cms, feUid, keep, retain)
  {
    hide SortByAge, EligibleOf;
    assert GcCandidates(cms, feUid, keep, retain)[j - retain] == SortByAge(EligibleOf(cms, feUid, keep))[j].name;
  }

  /** With distinct names the selection does not depend on the order of the listing. */
  lemma SelectionIgnoresListingOrder(a: seq<ArtifactConfigMap>, b: seq<ArtifactConfigMap>, feUid: Option<string>, keep: set<string>, retain: nat)
    requires multiset(a) == multiset(b) && NamesDistinct(a)
    ensures GcCandidates(a, feUid, keep, retain) == GcCandidates(b, feUid, keep, retain)
  {
    var x, y := EligibleOf(a, feUid, keep), EligibleOf(b, feUid, keep);
    FilterPermutation(a, b, (cm: ArtifactConfigMap) => Eligible(cm, feUid, keep));
    SortSorted(x);
    SortSorted(y);
    forall p, q | p in SortByAge(x) && q in SortByAge(x) && p.name == q.name ensures p == q {
      assert p in multiset(SortByAge(x)) && q in multiset(SortByAge(x));
      assert p in x && q in x;
      assert p in a && q in a;
    }
    SortedIsUnique(SortByAge(x), SortByAge(y));
  }

  function Survivors(cms: seq<ArtifactConfigMap>, deleted: seq<string>): seq<ArtifactConfigMap> {
    Filter(cms, (cm: ArtifactConfigMap) => cm.name !in deleted)
  }

  lemma SortedNamesDistinct(cms: seq<ArtifactConfigMap>, sorted: seq<ArtifactConfigMap>)
    requires NamesDistinct(cms) && multiset(sorted) <= multiset(cms)
    ensures NamesDistinct(sorted)
  {
    forall i, j | 0 <= i < j < |sorted| ensures sorted[i].name != sorted[j].name {
      if sorted[i].name == sorted[j].name {
        var x := sorted[i];
        assert x in multiset(sorted) && sorted[j] in multiset(sorted);
        assert x in cms && sorted[j] in cms;
        assert sorted[j] == x;
        TwoOccurrences(sorted, i, j);
        OneOccurrence(cms, x);
      }
    }
  }

  lemma TwoOccurrences(s: seq<ArtifactConfigMap>, i: nat, j: nat)
    requires i < j < |s| && s[i] == s[j]
    ensures multiset(s)[s[i]] >= 2
  {
    assert s == s[..j] + ([s[j]] + s[j + 1..]);
    assert s[..j][i] in multiset(s[..j]);
  }

  lemma OneOccurrence(s: seq<ArtifactConfigMap>, x: ArtifactConfigMap)
    requires NamesDistinct(s)
    ensures multiset(s)[x] <= 1
  {
    if x in multiset(s) {
      var i :| 0 <= i < |s| && s[i] == x;
      assert s == s[..i] + ([s[i]] + s[i + 1..]);
      assert x !in s[..i] && x !in s[i + 1..];
    }
  }

  lemma {:induction false} FilterMultiset(s: seq<ArtifactConfigMap>, p: ArtifactConfigMap -> bool)
    ensures multiset(Filter(s, p)) <= multiset(s)
  {
    if s != [] {
      FilterMultiset(s[1..], p);
      assert s == [s[0]] + s[1..];
    }
  }

  /** Dropping the names of the tail of a list of distinct names leaves its head. */
  lemma DropTail(s: seq<ArtifactConfigMap>, n: nat)
    requires NamesDistinct(s) && n <= |s|
    ensures Filter(s, (cm: ArtifactConfigMap) => cm.name !in Names(s[n..])) == s[..n]
  {
    var head, tail := s[..n], s[n..];
    var q := (cm: ArtifactConfigMap) => cm.name !in Names(tail);
    assert s == head + tail;
    forall x | x in tail ensures !q(x) {
      var i :| 0 <= i < |tail| && tail[i] == x;
      assert Names(tail)[i] == x.name;
    }
    forall x | x in head ensures q(x) {
      var i :| 0 <= i < |head| && head[i] == x;
      forall j | 0 <= j < |tail| ensures Names(tail)[j] != x.name {
        assert s[n + j].name != s[i].name;
      }
    }
    FilterConcat(head, tail, q);
    FilterAll(head, q);
    FilterNone(tail, q);
  }

  /** Rerun on the survivors with the same keep set, collection selects nothing. */
  lemma RerunSelectsNothing(cms: seq<ArtifactConfigMap>, feUid: Option<string>, keep: set<string>, retain: nat)
    requires NamesDistinct(cms)
    ensures GcCandidates(Survivors(cms, GcCandidates(cms, feUid, keep, retain)), feUid, keep, retain) == []
  {
    var eligible := EligibleOf(cms, feUid, keep);
    var sorted := SortByAge(eligible);
    var n := if retain < |sorted| then retain else |sorted|;
    var deleted := GcCandidates(cms, feUid, keep, retain);
    assert deleted == Names(sorted[n..]);
    SortSorted(eligible);
    FilterMultiset(cms, (cm: ArtifactConfigMap) => Eligible(cm, feUid, keep));
    SortedNamesDistinct(cms, sorted);
    DropTail(sorted, n);
    SurvivorsEligible(cms, feUid, keep, deleted, sorted);
    SortSorted(EligibleOf(Survivors(cms, deleted), feUid, keep));
  }

  lemma SurvivorsEligible(cms: seq<ArtifactConfigMap>, feUid: Option<string>, keep: set<string>, deleted: seq<string>, sorted: seq<ArtifactConfigMap>)
    requires multiset(sorted) == multiset(EligibleOf(cms, feUid, keep))
    ensures |EligibleOf(Survivors(cms, deleted), feUid, keep)| == |Filter(sorted, (cm: ArtifactConfigMap) => cm.name !in deleted)|
  {
    var p, q := (cm: ArtifactConfigMap) => Eligible(cm, feUid, keep), (cm: ArtifactConfigMap) => cm.name !in deleted;
    FilterTwice(cms, p, q);
    FilterPermutation(EligibleOf(cms, feUid, keep), sorted, q);
    var a, b := Filter(EligibleOf(cms, feUid, keep), q), Filter(sorted, q);
    assert |a| == |multiset(a)| && |b| == |multiset(b)|;
  }

  // ----- The deleting loop -----

  /** gc_artifact_configmaps: a ConfigMap already gone is not an error. */
  method GcArtifactConfigMaps(store: map<string, ArtifactConfigMap>, listing: seq<ArtifactConfigMap>, feUid: Option<string>, keep: set<string>, retain: nat)
    returns (store': map<string, ArtifactConfigMap>)
    ensures store' == store - (set n | n in GcCandidates(listing, feUid, keep, retain))
    ensures forall n :: n in store && n in keep ==> n in store' && store'[n] == store[n]
  {
    KeptIsNotSelected(listing, feUid, keep, retain);
    var deleteNames := GcCandidates(listing, feUid, keep, retain);
    store' := store;
    for i := 0 to |deleteNames|
      invariant store' == store - (set n | n in deleteNames[..i])
    {
      if deleteNames[i] in store' {
        store' := store' - {deleteNames[i]};
      }
      assert deleteNames[..i + 1] == deleteNames[..i] + [deleteNames[i]];
    }
    assert deleteNames[..|deleteNames|] == deleteNames;
  }

  lemma KeptIsNotSelected(cms: seq<ArtifactConfigMap>, feUid: Option<string>, keep: set<string>, retain: nat)
    ensures forall n :: n in GcCandidates(cms, feUid, keep, retain) ==> n !in keep
  {
    hide SortByAge, GcCandidates;
    forall n | n in GcCandidates(cms, feUid, keep, retain) ensures n !in keep {
      var i := SelectedAt(cms, feUid, keep, retain, n);
    }
  }

  /** Collection after a reconcile deletes neither the artifact it found nor the one the stored status names. */
  lemma CurrentArtifactsStay(cms: seq<ArtifactConfigMap>, feUid: Option<string>, statusArtifact: Option<string>, current: ArtifactConfigMap, retain: nat)
    ensures var selected := GcCandidates(cms, feUid, KeepNames(statusArtifact, current), retain);
      current.name !in selected && (statusArtifact.Some? ==> statusArtifact.value !in selected)
  {
    KeptIsNotSelected(cms, feUid, KeepNames(statusArtifact, current), retain);
  }
}
