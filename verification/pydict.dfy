/** Python dicts on the heap, and the two algorithms that update them in place:
    `_merge_dict` and the cursor loop of `_build_nested_dict`. */
module PyDicts {
  import opened Text
  import opened Json
  import DeepMerge

  /** A dict member: a reference to another dict, or any other JSON value. */
  datatype PyVal = Leaf(j: Json) | Ref(d: PyDict)

  class PyDict {
    var items: map<string, PyVal>

    constructor (items: map<string, PyVal>)
      ensures this.items == items
    {
      this.items := items;
    }
  }

  /** `v` is the document `j`, stored without cycles in dicts of `s`. */
  ghost predicate Stores(v: PyVal, j: Json, s: set<PyDict>)
    reads s
    decreases j
  {
    match v
    case Leaf(a) => a == j && !j.Obj?
    case Ref(d) =>
      && d in s && j.Obj?
      && d.items.Keys == j.fields.Keys
      && forall k :: k in j.fields ==> Stores(d.items[k], j.fields[k], s - {d})
  }

  /** What subscripting with one key after another finds in dicts of `s`. */
  ghost function Follow(v: PyVal, path: Path, s: set<PyDict>): Option<PyVal>
    reads s
    decreases path
  {
    if path == [] then Some(v)
    else if v.Ref? && v.d in s && path[0] in v.d.items then Follow(v.d.items[path[0]], path[1..], s - {v.d})
    else None
  }

  /** At every path the dicts hold what the document holds: a value, an object or nothing. */
  lemma {:induction false} StoresRead(v: PyVal, j: Json, s: set<PyDict>, path: Path)
    requires Stores(v, j, s)
    ensures match Follow(v, path, s)
            case None => Get(j, path).None?
            case Some(Leaf(a)) => Get(j, path) == Some(a)
            case Some(Ref(_)) => Get(j, path).Some? && Get(j, path).value.Obj?
    decreases path
  {
    if path != [] && v.Ref? && path[0] in v.d.items {
      StoresRead(v.d.items[path[0]], j.fields[path[0]], s - {v.d}, path[1..]);
    }
  }

  lemma {:induction false} StoresMore(v: PyVal, j: Json, s: set<PyDict>, t: set<PyDict>)
    requires Stores(v, j, s) && s <= t
    ensures Stores(v, j, t)
    decreases j
  {
    if v.Ref? {
      forall k | k in j.fields ensures Stores(v.d.items[k], j.fields[k], t - {v.d}) {
        StoresMore(v.d.items[k], j.fields[k], s - {v.d}, t - {v.d});
      }
    }
  }

  /** A shallow copy stores the same document; the original is no longer needed at the top. */
  lemma CopyStores(original: PyDict, copy: PyDict, j: Json, s: set<PyDict>)
    requires Stores(Ref(original), j, s) && copy !in s && copy.items == original.items
    ensures Stores(Ref(copy), j, (s - {original}) + {copy})
  {
    assert (s - {original}) + {copy} - {copy} == s - {original};
  }

  /** The document stored under `k` once the merge has dealt with that key. */
  ghost function MergedField(bj: Json, pj: Json, k: string): Json
    requires bj.Obj? && pj.Obj? && k in pj.fields
  {
    if k in bj.fields then DeepMerge.Merge(bj.fields[k], pj.fields[k]) else pj.fields[k]
  }

  /** The keys of the patch outside `todo` are merged, within the dicts of `s`. */
  ghost predicate Merged(items: map<string, PyVal>, bj: Json, pj: Json, todo: set<string>, s: set<PyDict>)
    requires bj.Obj? && pj.Obj?
    reads s
  {
    forall k :: k in pj.fields && k !in todo ==> k in items && Stores(items[k], MergedField(bj, pj, k), s)
  }

  lemma MergedMore(items: map<string, PyVal>, bj: Json, pj: Json, todo: set<string>,
                   s: set<PyDict>, t: set<PyDict>)
    requires bj.Obj? && pj.Obj? && Merged(items, bj, pj, todo, s) && s <= t
    ensures Merged(items, bj, pj, todo, t)
  {
    forall k | k in pj.fields && k !in todo ensures Stores(items[k], MergedField(bj, pj, k), t) {
      StoresMore(items[k], MergedField(bj, pj, k), s, t);
    }
  }

  /** The keys in `todo` or outside the patch still have the value they started with. */
  ghost predicate Unmerged(items: map<string, PyVal>, start: map<string, PyVal>, pj: Json, todo: set<string>)
    requires pj.Obj?
  {
    && todo <= pj.fields.Keys && items.Keys == start.Keys + (pj.fields.Keys - todo)
    && forall k :: k in start && (k in todo || k !in pj.fields) ==> items[k] == start[k]
  }

  /** `_merge_dict(base, patch)`: `base` itself becomes the deep merge of the two documents,
      held by old dicts of either argument and the dicts it `made`. No other dict changes, so
      the nested dicts of both arguments stay as they were. */
  method MergeDict(base: PyDict, patch: PyDict,
                   ghost bj: Json, ghost pj: Json, ghost bs: set<PyDict>, ghost ps: set<PyDict>)
    returns (r: PyDict, ghost made: set<PyDict>)
    requires Stores(Ref(base), bj, bs) && Stores(Ref(patch), pj, ps)
    requires base !in ps
    modifies base
    ensures r == base && Stores(Ref(r), DeepMerge.Merge(bj, pj), bs + ps + made)
    ensures fresh(made)
    ensures forall d :: d in bs + ps && d != base ==> d.items == old(d.items)
    decreases pj, 1
  {
    ghost var start := base.items;
    made := {};
    var todo := patch.items.Keys;
    while todo != {}
      invariant Unmerged(base.items, start, pj, todo)
      invariant Merged(base.items, bj, pj, todo, bs + ps + made - {base})
      invariant fresh(made)
    {
      var key :| key in todo;
      var value; ghost var more;
      value, more := MergeKey(base, patch, key, bj, pj, bs, ps);
      MergeStep(base, patch, base.items, key, value, start, bj, pj, todo, bs, ps, made, more);
      made := made + more;
      base.items := base.items[key := value];
      todo := todo - {key};
    }
    KeepBase(base.items, start, bj, pj, bs, bs + ps + made, base);
    r := base;
  }

  lemma MergeStep(base: PyDict, patch: PyDict, items: map<string, PyVal>, key: string, v: PyVal,
                  start: map<string, PyVal>, bj: Json, pj: Json, todo: set<string>,
                  bs: set<PyDict>, ps: set<PyDict>, made: set<PyDict>, more: set<PyDict>)
    requires bj.Obj? && pj.Obj? && key in todo && base !in ps && base !in more
    requires Unmerged(items, start, pj, todo) && Merged(items, bj, pj, todo, bs + ps + made - {base})
    requires Stores(v, MergedField(bj, pj, key), (bs - {base}) + (ps - {patch}) + more)
    ensures Unmerged(items[key := v], start, pj, todo - {key})
    ensures Merged(items[key := v], bj, pj, todo - {key}, bs + ps + (made + more) - {base})
  {
    var t := bs + ps + (made + more) - {base};
    MergedMore(items, bj, pj, todo, bs + ps + made - {base}, t);
    StoresMore(v, MergedField(bj, pj, key), (bs - {base}) + (ps - {patch}) + more, t);
  }

  /** The new value of one key: two dicts merge into a shallow copy, `dict(base[key])`, and
      anything else is taken from the patch as it is. Nothing existing is mutated. */
  method MergeKey(base: PyDict, patch: PyDict, key: string,
                  ghost bj: Json, ghost pj: Json, ghost bs: set<PyDict>, ghost ps: set<PyDict>)
    returns (value: PyVal, ghost made: set<PyDict>)
    requires bj.Obj? && Stores(Ref(patch), pj, ps) && base !in ps && key in pj.fields
    requires key in base.items <==> key in bj.fields
    requires key in bj.fields ==> Stores(base.items[key], bj.fields[key], bs - {base})
    ensures Stores(value, MergedField(bj, pj, key), (bs - {base}) + (ps - {patch}) + made)
    ensures fresh(made)
    decreases pj, 0
  {
    ghost var cs, vs := bs - {base}, ps - {patch};
    value := patch.items[key];
    if value.Ref? && key in base.items && base.items[key].Ref? {
      var child := base.items[key].d;
      ghost var cj, vj := bj.fields[key], pj.fields[key];
      var copy := new PyDict(child.items);
      CopyStores(child, copy, cj, cs);
      copy, made := MergeDict(copy, value.d, cj, vj, (cs - {child}) + {copy}, vs);
      StoresMore(Ref(copy), DeepMerge.Merge(cj, vj), (cs - {child}) + {copy} + vs + made, cs + vs + (made + {copy}));
      value, made := Ref(copy), made + {copy};
    } else {
      made := {};
      StoresMore(value, pj.fields[key], vs, cs + vs + made);
    }
  }

  lemma KeepBase(items: map<string, PyVal>, start: map<string, PyVal>, bj: Json, pj: Json,
                 bs: set<PyDict>, rs: set<PyDict>, base: PyDict)
    requires bj.Obj? && pj.Obj? && bs <= rs && base in rs && base.items == items
    requires start.Keys == bj.fields.Keys && Unmerged(items, start, pj, {})
    requires forall k :: k in bj.fields ==> Stores(start[k], bj.fields[k], bs - {base})
    requires Merged(items, bj, pj, {}, rs - {base})
    ensures Stores(Ref(base), DeepMerge.Merge(bj, pj), rs)
  {
    var m := DeepMerge.Merge(bj, pj);
    forall k | k in m.fields ensures Stores(items[k], m.fields[k], rs - {base}) {
      if k !in pj.fields {
        StoresMore(start[k], bj.fields[k], bs - {base}, rs - {base});
      }
    }
  }

  /** `_build_nested_dict`: a cursor walks down the dicts it creates. */
  method BuildNestedDict(parts: seq<string>, value: PyVal, ghost vj: Json, ghost vs: set<PyDict>)
    returns (result: PyDict, ghost s: set<PyDict>)
    requires parts != [] && Stores(value, vj, vs)
    ensures fresh(s - vs) && fresh(result) && Stores(Ref(result), Nest(parts, vj), s)
  {
    result := new PyDict(map[]);
    var current := result;
    ghost var chain := [result];
    for i := 0 to |parts| - 1
      invariant |chain| == i + 1 && chain[0] == result && chain[i] == current
      invariant forall k :: 0 <= k <= i ==> fresh(chain[k])
      invariant forall k, l :: 0 <= k < l <= i ==> chain[k] != chain[l]
      invariant forall k :: 0 <= k < i ==> chain[k].items == map[parts[k] := Ref(chain[k + 1])]
      invariant current.items == map[]
      invariant Stores(value, vj, vs)
    {
      var next := new PyDict(map[]);
      current.items := current.items[parts[i] := Ref(next)];
      current := next;
      chain := chain + [next];
    }
    current.items := current.items[parts[|parts| - 1] := value];
    s := vs + set k | 0 <= k < |chain| :: chain[k];
    ChainStores(parts, chain, value, vj, vs, s);
  }

  lemma {:induction false} ChainStores(parts: seq<string>, chain: seq<PyDict>, value: PyVal, vj: Json,
                                       vs: set<PyDict>, s: set<PyDict>)
    requires |chain| == |parts| > 0 && Stores(value, vj, vs) && vs <= s
    requires forall k :: 0 <= k < |chain| ==> chain[k] in s && chain[k] !in vs
    requires forall k, l :: 0 <= k < l < |chain| ==> chain[k] != chain[l]
    requires forall k :: 0 <= k < |chain| - 1 ==> chain[k].items == map[parts[k] := Ref(chain[k + 1])]
    requires chain[|chain| - 1].items == map[parts[|parts| - 1] := value]
    ensures Stores(Ref(chain[0]), Nest(parts, vj), s)
    decreases |parts|
  {
    if |parts| == 1 {
      assert Nest(parts[1..], vj) == vj;
      StoresMore(value, vj, vs, s - {chain[0]});
    } else {
      ChainStores(parts[1..], chain[1..], value, vj, vs, s - {chain[0]});
    }
  }
}
