/** The deep merge of companion configs, on values: what `_merge_dict` computes. */
module DeepMerge {
  import opened Json

  /** Two objects merge key by key; anything else is replaced by the patch. */
  function Merge(base: Json, patch: Json): Json
    decreases patch
  {
    if !base.Obj? || !patch.Obj? then patch
    else
      Obj(map k | k in base.fields.Keys + patch.fields.Keys ::
            if k !in patch.fields then base.fields[k]
            else if k in base.fields then Merge(base.fields[k], patch.fields[k])
            else patch.fields[k])
  }

  /** Merging the same patch again changes nothing. */
  lemma {:induction false} MergeIdempotent(base: Json, patch: Json)
    ensures Merge(Merge(base, patch), patch) == Merge(base, patch)
    decreases patch
  {
    if base.Obj? && patch.Obj? {
      var once := Merge(base, patch);
      forall k | k in patch.fields
        ensures Merge(once.fields[k], patch.fields[k]) == once.fields[k]
      {
        if k in base.fields {
          MergeIdempotent(base.fields[k], patch.fields[k]);
        } else {
          MergeSelf(patch.fields[k]);
        }
      }
      assert Merge(once, patch).fields == once.fields;
    } else {
      MergeSelf(patch);
    }
  }

  lemma {:induction false} MergeSelf(j: Json)
    ensures Merge(j, j) == j
  {
    if j.Obj? {
      forall k | k in j.fields ensures Merge(j.fields[k], j.fields[k]) == j.fields[k] {
        MergeSelf(j.fields[k]);
      }
      assert Merge(j, j).fields == j.fields;
    }
  }

  /** Every non-object leaf of the patch is read back from the result. */
  lemma {:induction false} MergeReadsPatch(base: Json, patch: Json, path: Path)
    requires Get(patch, path).Some? && !Get(patch, path).value.Obj?
    ensures Get(Merge(base, patch), path) == Get(patch, path)
    decreases path
  {
    if path != [] && base.Obj? {
      MergeReadsPatch(Field(base, path[0]), patch.fields[path[0]], path[1..]);
    }
  }

  /** The patch leaves the path alone: it steps through objects of both documents until the
      patch has no such key. */
  predicate Untouched(base: Json, patch: Json, path: Path)
    decreases path
  {
    path != [] && base.Obj? && patch.Obj? &&
    (path[0] in patch.fields ==>
       path[0] in base.fields && Untouched(base.fields[path[0]], patch.fields[path[0]], path[1..]))
  }

  /** Paths the patch leaves alone keep the base's value, or its absence. */
  lemma {:induction false} MergeKeepsBase(base: Json, patch: Json, path: Path)
    requires Untouched(base, patch, path)
    ensures Get(Merge(base, patch), path) == Get(base, path)
    decreases path
  {
    if path[0] in patch.fields {
      MergeKeepsBase(base.fields[path[0]], patch.fields[path[0]], path[1..]);
    }
  }

  /** The patch already has every key of the base, wherever both are objects. */
  predicate Covers(patch: Json, base: Json)
    decreases patch
  {
    patch.Obj? && base.Obj? ==>
      && base.fields.Keys <= patch.fields.Keys
      && forall k :: k in base.fields ==> Covers(patch.fields[k], base.fields[k])
  }

  lemma {:induction false} MergeCovered(base: Json, patch: Json)
    ensures Merge(base, patch) == patch <==> Covers(patch, base)
    decreases patch
  {
    if base.Obj? && patch.Obj? {
      var m := Merge(base, patch);
      forall k | k in base.fields && k in patch.fields
        ensures Merge(base.fields[k], patch.fields[k]) == patch.fields[k]
           <==> Covers(patch.fields[k], base.fields[k])
      {
        MergeCovered(base.fields[k], patch.fields[k]);
      }
      assert forall k :: k in base.fields && k in patch.fields ==>
        m.fields[k] == Merge(base.fields[k], patch.fields[k]);
      if Covers(patch, base) {
        assert m.fields == patch.fields;
      }
    }
  }

  /** Wherever a key goes object, non-object, object through the three documents, the third
      covers the first. */
  predicate NoRevival(a: Json, b: Json, c: Json)
    decreases c
  {
    if a.Obj? && !b.Obj? && c.Obj? then Covers(c, a)
    else a.Obj? && b.Obj? && c.Obj? ==>
      forall k :: k in c.fields && k in a.fields && k in b.fields ==>
        NoRevival(a.fields[k], b.fields[k], c.fields[k])
  }

  /** Successive patches can be combined first exactly when no key revives: with any key going
      object, non-object, object the combined patch brings old members back. */
  lemma {:induction false} MergeAssociative(a: Json, b: Json, c: Json)
    ensures Merge(Merge(a, b), c) == Merge(a, Merge(b, c)) <==> NoRevival(a, b, c)
    decreases c
  {
    if a.Obj? && !b.Obj? && c.Obj? {
      MergeCovered(a, c);
    } else if a.Obj? && b.Obj? && c.Obj? {
      var l, r := Merge(Merge(a, b), c), Merge(a, Merge(b, c));
      forall k | k in c.fields && k in a.fields && k in b.fields
        ensures l.fields[k] == r.fields[k] <==> NoRevival(a.fields[k], b.fields[k], c.fields[k])
      {
        MergeAssociative(a.fields[k], b.fields[k], c.fields[k]);
      }
      assert l.fields.Keys == r.fields.Keys;
      if NoRevival(a, b, c) {
        assert l.fields == r.fields;
      }
    }
  }

  /** The revival, concretely: reset `memory` to null, then patch it again. */
  lemma RevivalExample()
    ensures var a := Obj(map["memory" := Obj(map["enabled" := Bool(true)])]);
            var b := Obj(map["memory" := Null]);
            var c := Obj(map["memory" := Obj(map["model" := Str("m")])]);
            Merge(Merge(a, b), c) != Merge(a, Merge(b, c))
  {
    var x, z := Obj(map["enabled" := Bool(true)]), Obj(map["model" := Str("m")]);
    var a, b, c := Obj(map["memory" := x]), Obj(map["memory" := Null]), Obj(map["memory" := z]);
    MergeAssociative(a, b, c);
    assert "enabled" in x.fields && "enabled" !in z.fields;
    assert !NoRevival(a.fields["memory"], b.fields["memory"], c.fields["memory"]);
  }
}
