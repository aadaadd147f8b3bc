/** JSON merge patch (RFC 7396), on whole documents and on records with a fixed list of optional fields. */
module MergePatch {
  import opened Prelude
  import opened Sequences

  datatype Doc =
    | DNull
    | DBool(b: bool)
    | DNumber(n: int)
    | DString(s: string)
    | DArray(items: seq<Doc>)
    | DObject(fields: map<string, Doc>)

  /** The MergePatch function of section 2 of RFC 7396. */
  function Merge(target: Doc, patch: Doc): Doc
    decreases patch
  {
    if !patch.DObject? then patch
    else
      var t := if target.DObject? then target.fields else map[];
      DObject(map k | k in t.Keys + patch.fields.Keys && (k in patch.fields ==> !patch.fields[k].DNull?)
        :: if k in patch.fields then Merge(if k in t then t[k] else DNull, patch.fields[k]) else t[k])
  }

  // ----- Applying a patch twice, and patches that replace -----

  /** No object in the document, outside arrays, has a null member. */
  predicate NoNulls(d: Doc) {
    d.DObject? ==> forall k :: k in d.fields ==> !d.fields[k].DNull? && NoNulls(d.fields[k])
  }

  /** Applying a patch twice is applying it once. */
  lemma {:induction false} MergeIdempotent(target: Doc, patch: Doc)
    ensures Merge(Merge(target, patch), patch) == Merge(target, patch)
    decreases patch
  {
    if patch.DObject? {
      var r := Merge(target, patch);
      var t := if target.DObject? then target.fields else map[];
      forall k | k in r.fields && k in patch.fields ensures Merge(r.fields[k], patch.fields[k]) == r.fields[k] {
        MergeIdempotent(if k in t then t[k] else DNull, patch.fields[k]);
      }
      assert Merge(r, patch).fields == r.fields;
    }
  }

  /** Everything in the target is in the patch: nothing would be left over. */
  predicate NoLeftover(target: Doc, patch: Doc)
    decreases patch
  {
    patch.DObject? && target.DObject? ==>
      forall k :: k in target.fields ==> k in patch.fields && NoLeftover(target.fields[k], patch.fields[k])
  }

  /** A patch without nulls replaces its target exactly when the target has no member that the patch does not mention. */
  lemma {:induction false} ReplacesUnlessLeftover(target: Doc, patch: Doc)
    requires NoNulls(patch)
    ensures Merge(target, patch) == patch <==> NoLeftover(target, patch)
    decreases patch
  {
    if patch.DObject? {
      var m := Merge(target, patch).fields;
      var t := if target.DObject? then target.fields else map[];
      assert NoLeftover(DNull, patch);
      forall k | k in patch.fields
        ensures k in m && (m[k] == patch.fields[k] <==> (k in t ==> NoLeftover(t[k], patch.fields[k])))
      {
        ReplacesUnlessLeftover(if k in t then t[k] else DNull, patch.fields[k]);
      }
      if NoLeftover(target, patch) {
        assert m == patch.fields;
      } else {
        var k :| k in t && !(k in patch.fields && NoLeftover(t[k], patch.fields[k]));
        if k !in patch.fields { assert k in m; }
      }
    }
  }

  // ----- Records -----

  /** The object with `keys[i]` bound to `values[i]` where that is present. */
  function Record(keys: seq<string>, values: seq<Option<Doc>>): Doc
    requires |keys| == |values| && Distinct(keys)
  {
    DObject(map i | 0 <= i < |keys| && values[i].Some? :: keys[i] := values[i].value)
  }

  function MergeField(target: Option<Doc>, patch: Option<Doc>): Option<Doc> {
    if patch.None? then target
    else if patch.value.DNull? then None
    else Some(Merge(target.UnwrapOr(DNull), patch.value))
  }

  function MergeFields(target: seq<Option<Doc>>, patch: seq<Option<Doc>>): seq<Option<Doc>>
    requires |target| == |patch|
  {
    seq(|patch|, i requires 0 <= i < |patch| => MergeField(target[i], patch[i]))
  }

  lemma RecordField(keys: seq<string>, values: seq<Option<Doc>>, i: nat)
    requires |keys| == |values| && Distinct(keys) && i < |keys|
    ensures keys[i] in Record(keys, values).fields <==> values[i].Some?
    ensures values[i].Some? ==> Record(keys, values).fields[keys[i]] == values[i].value
  {
    var m := Record(keys, values).fields;
    if keys[i] in m {
      var j :| 0 <= j < |keys| && values[j].Some? && keys[j] == keys[i];
      assert j == i;
    }
  }

  lemma MergeRecordsAt(keys: seq<string>, target: seq<Option<Doc>>, patch: seq<Option<Doc>>, k: string)
    requires |keys| == |target| == |patch| && Distinct(keys) && k in keys
    ensures var m, r := Merge(Record(keys, target), Record(keys, patch)).fields, Record(keys, MergeFields(target, patch)).fields;
      (k in m <==> k in r) && (k in m ==> m[k] == r[k])
  {
    var i :| 0 <= i < |keys| && keys[i] == k;
    RecordField(keys, target, i);
    RecordField(keys, patch, i);
    RecordField(keys, MergeFields(target, patch), i);
  }

  /** Merging two records of one shape merges them field by field. */
  lemma MergeRecords(keys: seq<string>, target: seq<Option<Doc>>, patch: seq<Option<Doc>>)
    requires |keys| == |target| == |patch| && Distinct(keys)
    ensures Merge(Record(keys, target), Record(keys, patch)) == Record(keys, MergeFields(target, patch))
  {
    var m, r := Merge(Record(keys, target), Record(keys, patch)).fields, Record(keys, MergeFields(target, patch)).fields;
    forall k ensures (k in m <==> k in r) && (k in m ==> m[k] == r[k]) {
      if k in keys {
        MergeRecordsAt(keys, target, patch, k);
      }
    }
    assert m == r;
  }

  /** Merging a record into an optional record: into nothing when that is absent. */
  lemma MergeSection(keys: seq<string>, stored: Option<seq<Option<Doc>>>, patch: seq<Option<Doc>>, merged: seq<Option<Doc>>)
    requires |keys| == |patch| == |merged| && Distinct(keys) && (stored.Some? ==> |stored.value| == |keys|)
    requires forall i :: 0 <= i < |keys| ==> MergeField(if stored.Some? then stored.value[i] else None, patch[i]) == merged[i]
    ensures MergeField(if stored.Some? then Some(Record(keys, stored.value)) else None, Some(Record(keys, patch))) == Some(Record(keys, merged))
  {
    var target: seq<Option<Doc>> := if stored.Some? then stored.value else seq(|keys|, _ => None);
    MergeRecords(keys, target, patch);
    assert MergeFields(target, patch) == merged;
    if stored.None? {
      assert Record(keys, target).fields == map[];
      assert Merge(DNull, Record(keys, patch)) == Merge(Record(keys, target), Record(keys, patch));
    }
  }
}
