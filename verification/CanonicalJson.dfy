/** Canonical JSON and content hashes (crates/common/src/lib.rs). */
module CanonicalJson {
  import opened Prelude
  import opened Text

  datatype Member = Member(key: string, value: Json)

  /** A JSON document. Objects list their members in some order. */
  datatype Json =
    | Null
    | Bool(b: bool)
    | Number(digits: string)
    | String(s: string)
    | Array(items: seq<Json>)
    | Object(members: seq<Member>)

  function Keys(members: seq<Member>): set<string> {
    set i | 0 <= i < |members| :: members[i].key
  }

  /** The index of the last member with the given key: later entries win when a map is collected. */
  function LastIndex(members: seq<Member>, key: string): (r: nat)
    requires key in Keys(members)
    ensures r < |members| && members[r].key == key
  {
    var n := |members| - 1;
    if members[n].key == key then n
    else
      assert key in Keys(members[..n]) by {
        var i :| 0 <= i < |members| && members[i].key == key;
        assert members[..n][i].key == key;
      }
      LastIndex(members[..n], key)
  }

  function Canonicalize(value: Json): Json {
    match value
    case Object(members) =>
      var keys := SortedKeys(Keys(members));
      assert forall i :: 0 <= i < |keys| ==> keys[i] in keys;
      Object(seq(|keys|, i requires 0 <= i < |keys| && keys[i] in Keys(members) =>
        Member(keys[i], Canonicalize(members[LastIndex(members, keys[i])].value))))
    case Array(items) =>
      Array(seq(|items|, i requires 0 <= i < |items| => Canonicalize(items[i])))
    case _ => value
  }

  ghost predicate DistinctKeys(members: seq<Member>) {
    forall i, j :: 0 <= i < j < |members| ==> members[i].key != members[j].key
  }

  /** Object keys are distinct at every depth, as serde_json's maps guarantee. */
  ghost predicate WellFormed(value: Json) {
    match value
    case Object(members) =>
      && DistinctKeys(members)
      && forall i :: 0 <= i < |members| ==> WellFormed(members[i].value)
    case Array(items) => forall i :: 0 <= i < |items| ==> WellFormed(items[i])
    case _ => true
  }

  /** Equality up to the order of object members, at every depth (section 4 of RFC 8259). */
  ghost predicate Equivalent(a: Json, b: Json) {
    match a
    case Object(ms) =>
      && b.Object?
      && Keys(ms) == Keys(b.members)
      && forall i, j :: 0 <= i < |ms| && 0 <= j < |b.members| && ms[i].key == b.members[j].key
           ==> Equivalent(ms[i].value, b.members[j].value)
    case Array(items) =>
      && b.Array?
      && |items| == |b.items|
      && forall i :: 0 <= i < |items| ==> Equivalent(items[i], b.items[i])
    case _ => a == b
  }

  ghost predicate SortedEverywhere(value: Json) {
    match value
    case Object(members) =>
      && (forall i, j :: 0 <= i < j < |members| ==> Le(members[i].key, members[j].key) && members[i].key != members[j].key)
      && forall i :: 0 <= i < |members| ==> SortedEverywhere(members[i].value)
    case Array(items) => forall i :: 0 <= i < |items| ==> SortedEverywhere(items[i])
    case _ => true
  }

  lemma MembersOfCanonical(members: seq<Member>, i: nat)
    requires i < |Canonicalize(Object(members)).members|
    ensures var c, keys := Canonicalize(Object(members)).members, SortedKeys(Keys(members));
      && |c| == |keys| && keys[i] in Keys(members)
      && c[i] == Member(keys[i], Canonicalize(members[LastIndex(members, keys[i])].value))
  {
    var keys := SortedKeys(Keys(members));
    assert keys[i] in keys;
  }

  /** In canonical form an object has, for each of its names, the canonical value of the last member of that name. */
  lemma CanonicalKeepsLast(members: seq<Member>, j: nat)
    requires j < |members| && forall i :: j < i < |members| ==> members[i].key != members[j].key
    ensures Member(members[j].key, Canonicalize(members[j].value)) in Canonicalize(Object(members)).members
  {
    var c, keys := Canonicalize(Object(members)).members, SortedKeys(Keys(members));
    assert members[j].key in Keys(members);
    var k :| 0 <= k < |keys| && keys[k] == members[j].key;
    MembersOfCanonical(members, k);
    LastIsLast(members, j);
    assert c[k] in c;
  }

  lemma {:induction false} LastIsLast(members: seq<Member>, j: nat)
    requires j < |members| && forall i :: j < i < |members| ==> members[i].key != members[j].key
    ensures members[j].key in Keys(members) && LastIndex(members, members[j].key) == j
  {
    assert members[j].key in Keys(members);
    if j < |members| - 1 {
      LastIsLast(members[..|members| - 1], j);
    }
  }

  lemma KeysOfCanonical(members: seq<Member>)
    ensures Keys(Canonicalize(Object(members)).members) == Keys(members)
  {
    var c, keys := Canonicalize(Object(members)).members, SortedKeys(Keys(members));
    forall k ensures k in Keys(c) <==> k in Keys(members) {
      if k in Keys(members) {
        assert k in keys;
        var i :| 0 <= i < |keys| && keys[i] == k;
        MembersOfCanonical(members, i);
        assert c[i].key == k;
      }
      if k in Keys(c) {
        var i :| 0 <= i < |c| && c[i].key == k;
        MembersOfCanonical(members, i);
      }
    }
  }

  lemma {:induction false} CanonicalIsSorted(value: Json)
    ensures SortedEverywhere(Canonicalize(value))
  {
    match value
    case Object(members) =>
      var c := Canonicalize(value).members;
      forall i | 0 <= i < |c| ensures SortedEverywhere(c[i].value) {
        MembersOfCanonical(members, i);
        CanonicalIsSorted(members[LastIndex(members, SortedKeys(Keys(members))[i])].value);
      }
      forall i, j | 0 <= i < j < |c| ensures Le(c[i].key, c[j].key) && c[i].key != c[j].key {
        MembersOfCanonical(members, i);
        MembersOfCanonical(members, j);
      }
    case Array(items) =>
      forall i | 0 <= i < |items| ensures SortedEverywhere(Canonicalize(items[i])) {
        CanonicalIsSorted(items[i]);
      }
    case _ =>
  }

  lemma {:induction false} CanonicalIsWellFormed(value: Json)
    ensures WellFormed(Canonicalize(value))
  {
    match value
    case Object(members) =>
      var c := Canonicalize(value).members;
      CanonicalIsSorted(value);
      forall i | 0 <= i < |c| ensures WellFormed(c[i].value) {
        MembersOfCanonical(members, i);
        CanonicalIsWellFormed(members[LastIndex(members, SortedKeys(Keys(members))[i])].value);
      }
    case Array(items) =>
      forall i | 0 <= i < |items| ensures WellFormed(Canonicalize(items[i])) {
        CanonicalIsWellFormed(items[i]);
      }
    case _ =>
  }

  /** The canonical form is equivalent to the value it came from. */
  lemma {:induction false} CanonicalIsEquivalent(value: Json)
    requires WellFormed(value)
    ensures Equivalent(Canonicalize(value), value)
  {
    match value
    case Object(members) =>
      var c := Canonicalize(value).members;
      KeysOfCanonical(members);
      forall i, j | 0 <= i < |c| && 0 <= j < |members| && c[i].key == members[j].key
        ensures Equivalent(c[i].value, members[j].value)
      {
        MembersOfCanonical(members, i);
        assert LastIndex(members, c[i].key) == j;
        CanonicalIsEquivalent(members[j].value);
      }
    case Array(items) =>
      forall i | 0 <= i < |items| ensures Equivalent(Canonicalize(items[i]), items[i]) {
        CanonicalIsEquivalent(items[i]);
      }
    case _ =>
  }

  lemma {:induction false} EquivalentImpliesSameCanonical(a: Json, b: Json)
    requires Equivalent(a, b)
    ensures Canonicalize(a) == Canonicalize(b)
  {
    match a
    case Object(ms) =>
      var ns := b.members;
      var x, y := Canonicalize(a).members, Canonicalize(b).members;
      forall i | 0 <= i < |x| ensures x[i] == y[i] {
        MembersOfCanonical(ms, i);
        MembersOfCanonical(ns, i);
        var key := SortedKeys(Keys(ms))[i];
        EquivalentImpliesSameCanonical(ms[LastIndex(ms, key)].value, ns[LastIndex(ns, key)].value);
      }
      assert x == y;
    case Array(items) =>
      forall i | 0 <= i < |items| ensures Canonicalize(items[i]) == Canonicalize(b.items[i]) {
        EquivalentImpliesSameCanonical(items[i], b.items[i]);
      }
      assert Canonicalize(a).items == Canonicalize(b).items;
    case _ =>
  }

  /** In two objects with one canonical form, members of the same key have one canonical value. */
  lemma SameMemberCanonical(ms: seq<Member>, ns: seq<Member>, i: nat, j: nat)
    requires DistinctKeys(ms) && DistinctKeys(ns) && Canonicalize(Object(ms)) == Canonicalize(Object(ns))
    requires i < |ms| && j < |ns| && ms[i].key == ns[j].key
    ensures Canonicalize(ms[i].value) == Canonicalize(ns[j].value)
  {
    var key, c := ms[i].key, Canonicalize(Object(ms)).members;
    KeysOfCanonical(ms);
    assert key in Keys(ms) && key in Keys(c);
    var h :| 0 <= h < |c| && c[h].key == key;
    MembersOfCanonical(ms, h);
    MembersOfCanonical(ns, h);
    assert LastIndex(ms, key) == i && LastIndex(ns, key) == j;
  }

  lemma {:induction false} SameCanonicalImpliesEquivalent(a: Json, b: Json)
    requires WellFormed(a) && WellFormed(b) && Canonicalize(a) == Canonicalize(b)
    ensures Equivalent(a, b)
  {
    match a
    case Object(ms) =>
      var ns := b.members;
      KeysOfCanonical(ms);
      KeysOfCanonical(ns);
      forall i, j | 0 <= i < |ms| && 0 <= j < |ns| && ms[i].key == ns[j].key ensures Equivalent(ms[i].value, ns[j].value) {
        SameMemberCanonical(ms, ns, i, j);
        SameCanonicalImpliesEquivalent(ms[i].value, ns[j].value);
      }
    case Array(items) =>
      assert |items| == |Canonicalize(a).items| == |Canonicalize(b).items| == |b.items|;
      forall i | 0 <= i < |items| ensures Equivalent(items[i], b.items[i]) {
        assert Canonicalize(a).items[i] == Canonicalize(b).items[i];
        SameCanonicalImpliesEquivalent(items[i], b.items[i]);
      }
    case _ =>
  }

  /** Two documents have one canonical form exactly when they differ only in member order. */
  lemma CanonicalFormDecidesEquivalence(a: Json, b: Json)
    requires WellFormed(a) && WellFormed(b)
    ensures Canonicalize(a) == Canonicalize(b) <==> Equivalent(a, b)
  {
    if Equivalent(a, b) {
      EquivalentImpliesSameCanonical(a, b);
    } else if Canonicalize(a) == Canonicalize(b) {
      SameCanonicalImpliesEquivalent(a, b);
    }
  }

  lemma LastOfSorted(c: seq<Member>, i: nat)
    requires i < |c| && DistinctKeys(c)
    ensures c[i].key in Keys(c) && LastIndex(c, c[i].key) == i
  {
    assert c[i].key in Keys(c);
  }

  /** Canonicalizing an object again canonicalizes its members again, in place. */
  lemma MembersTwice(members: seq<Member>, i: nat)
    requires i < |Canonicalize(Object(members)).members|
    ensures var c := Canonicalize(Object(members)).members; var d := Canonicalize(Object(c)).members;
      |d| == |c| && d[i] == Member(c[i].key, Canonicalize(c[i].value))
  {
    var c := Canonicalize(Object(members)).members;
    CanonicalIsWellFormed(Object(members));
    KeysOfCanonical(members);
    MembersOfCanonical(members, i);
    MembersOfCanonical(c, i);
    hide Canonicalize;
    LastOfSorted(c, i);
  }

  /** Canonicalizing is idempotent, also on a document that repeats member names. */
  lemma {:induction false} CanonicalizeIdempotent(value: Json)
    ensures Canonicalize(Canonicalize(value)) == Canonicalize(value)
  {
    match value
    case Object(members) =>
      var c := Canonicalize(value).members;
      var d := Canonicalize(Object(c)).members;
      forall i | 0 <= i < |c| ensures |d| == |c| && d[i] == c[i] {
        MembersOfCanonical(members, i);
        MembersTwice(members, i);
        CanonicalizeIdempotent(members[LastIndex(members, c[i].key)].value);
      }
      SameSize(members);
      assert d == c;
    case Array(items) =>
      forall i | 0 <= i < |items| ensures Canonicalize(Canonicalize(items[i])) == Canonicalize(items[i]) {
        CanonicalizeIdempotent(items[i]);
      }
      assert Canonicalize(Canonicalize(value)).items == Canonicalize(value).items;
    case _ =>
  }

  lemma SameSize(members: seq<Member>)
    ensures var c := Canonicalize(Object(members)).members; |Canonicalize(Object(c)).members| == |c|
  {
    KeysOfCanonical(members);
  }

  // ----- Content hashes -----

  ghost predicate Injective<A(!new), B(!new)>(f: A -> B) {
    forall x, y :: f(x) == f(y) ==> x == y
  }

  /** manifest_content_and_hash, for a printer of canonical values and a digest. */
  function ContentHash(toText: Json -> string, sha256: string -> string, value: Json): string {
    "sha256:" + sha256(toText(Canonicalize(value)))
  }

  /** With a faithful printer and a collision-free digest, a content hash names a document up to member order. */
  lemma ContentHashNamesDocument(toText: Json -> string, sha256: string -> string, a: Json, b: Json)
    requires Injective(toText) && Injective(sha256) && WellFormed(a) && WellFormed(b)
    ensures ContentHash(toText, sha256, a) == ContentHash(toText, sha256, b) <==> Equivalent(a, b)
  {
    CanonicalFormDecidesEquivalence(a, b);
    var x, y := ContentHash(toText, sha256, a), ContentHash(toText, sha256, b);
    if x == y {
      assert x[7..] == y[7..];
      assert sha256(toText(Canonicalize(a))) == x[7..] && sha256(toText(Canonicalize(b))) == y[7..];
    }
  }
}
