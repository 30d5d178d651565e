/** JSON documents, dotted paths into them, and the two standard ways of merging a
    patch: JSON merge patch (RFC 7396, section 2) and PostgreSQL's `||`. */
module Json {
  import opened Text

  datatype Json =
    | Null
    | Bool(b: bool)
    | Num(n: real)
    | Str(s: string)
    | Arr(items: seq<Json>)
    | Obj(fields: map<string, Json>)

  type Path = seq<string>

  /** `data.get(k)` with null for an absent key; a non-object has no keys. */
  function Field(j: Json, k: string): Json {
    if j.Obj? && k in j.fields then j.fields[k] else Null
  }

  function FieldsOf(j: Json): map<string, Json> {
    if j.Obj? then j.fields else map[]
  }

  /** The value at a path through nested objects. */
  function Get(j: Json, path: Path): Option<Json> {
    if path == [] then Some(j)
    else if j.Obj? && path[0] in j.fields then Get(j.fields[path[0]], path[1..])
    else None
  }

  /** The document holding nothing but `v` at `path`. */
  function Nest(path: Path, v: Json): Json {
    if path == [] then v else Obj(map[path[0] := Nest(path[1..], v)])
  }

  /** MergePatch of section 2 of RFC 7396; an absent target is null. */
  function MergePatch(target: Json, patch: Json): Json
    decreases patch
  {
    if !patch.Obj? then patch
    else
      var base := FieldsOf(target);
      Obj(map k | k in base.Keys + patch.fields.Keys && (k in patch.fields ==> patch.fields[k] != Null) ::
            if k in patch.fields then MergePatch(Field(target, k), patch.fields[k]) else base[k])
  }

  /** `target || patch` of two jsonb objects. */
  function Concat(target: Json, patch: Json): Json
    requires target.Obj? && patch.Obj?
  {
    Obj(target.fields + patch.fields)
  }

  predicate Comparable(p: Path, q: Path) {
    p <= q || q <= p
  }

  /** Every member of `patch`, at any depth, is non-null, and whatever object `target` has at
      the same place has no member besides those of `patch`. */
  predicate Absorbs(patch: Json, target: Json)
    decreases patch
  {
    patch.Obj? ==>
      && FieldsOf(target).Keys <= patch.fields.Keys
      && forall k :: k in patch.fields ==> patch.fields[k] != Null && Absorbs(patch.fields[k], Field(target, k))
  }

  /** A merge patch replaces the target outright exactly when it absorbs it. */
  lemma {:induction false} MergeReplaces(target: Json, patch: Json)
    ensures MergePatch(target, patch) == patch <==> Absorbs(patch, target)
    decreases patch
  {
    if patch.Obj? {
      var m := MergePatch(target, patch);
      forall k | k in patch.fields
        ensures MergePatch(Field(target, k), patch.fields[k]) == patch.fields[k]
           <==> Absorbs(patch.fields[k], Field(target, k))
      {
        MergeReplaces(Field(target, k), patch.fields[k]);
      }
      if Absorbs(patch, target) {
        assert m.fields.Keys == patch.fields.Keys;
        assert m.fields == patch.fields;
      } else if m == patch {
        assert forall k :: k in patch.fields ==> k in m.fields && m.fields[k] == patch.fields[k];
        assert false;
      }
    }
  }

  /** `||` is a merge patch exactly when, key by key, the patch is non-null and absorbs the target. */
  lemma ConcatIsMergePatch(target: Json, patch: Json)
    requires target.Obj? && patch.Obj?
    ensures Concat(target, patch) == MergePatch(target, patch) <==>
            forall k :: k in patch.fields ==> patch.fields[k] != Null && Absorbs(patch.fields[k], Field(target, k))
  {
    var c, m := Concat(target, patch), MergePatch(target, patch);
    forall k | k in patch.fields
      ensures MergePatch(Field(target, k), patch.fields[k]) == patch.fields[k]
         <==> Absorbs(patch.fields[k], Field(target, k))
    {
      MergeReplaces(Field(target, k), patch.fields[k]);
    }
    if forall k :: k in patch.fields ==> patch.fields[k] != Null && Absorbs(patch.fields[k], Field(target, k)) {
      assert c.fields == m.fields;
    } else {
      var k :| k in patch.fields && !(patch.fields[k] != Null && Absorbs(patch.fields[k], Field(target, k)));
      assert k in c.fields && c.fields[k] == patch.fields[k];
      assert k in m.fields ==> m.fields[k] != c.fields[k];
    }
  }

  lemma {:induction false} GetNest(path: Path, v: Json)
    ensures Get(Nest(path, v), path) == Some(v)
  {
    if path != [] {
      GetNest(path[1..], v);
    }
  }

  /** One level of merging a single-path patch: only that member changes. */
  lemma MergeNestStep(target: Json, path: Path, v: Json)
    requires path != [] && (|path| > 1 || v != Null)
    ensures MergePatch(target, Nest(path, v))
         == Obj(FieldsOf(target)[path[0] := MergePatch(Field(target, path[0]), Nest(path[1..], v))])
  {
    var m := MergePatch(target, Nest(path, v));
    assert m.fields == FieldsOf(target)[path[0] := MergePatch(Field(target, path[0]), Nest(path[1..], v))];
  }

  /** Setting a path by merge patch: a value that is neither null nor an object is read back. */
  lemma {:induction false} MergeNestRead(target: Json, path: Path, v: Json)
    requires !v.Obj? && (path != [] ==> v != Null)
    ensures Get(MergePatch(target, Nest(path, v)), path) == Some(v)
    decreases path
  {
    if path != [] {
      MergeNestStep(target, path, v);
      MergeNestRead(Field(target, path[0]), path[1..], v);
    }
  }
}
