/** The relationship profile: the post-turn executor patches it with `||`, the Modal
    executor writes it path by path with `jsonb_set`, and both claim JSON merge patch. */
module Profile {
  import opened Text
  import opened Json
  import opened Numerals

  // ---------------------------------------------------------------- jsonb steps

  /** A step into an array is a 32-bit integer as C reads it, or an error. */
  function Index(step: string): Option<int> {
    if step != "" && (step[0] == ' ' || '\t' <= step[0] <= '\r') then Index(step[1..])
    else
      var digits := if step != "" && (step[0] == '+' || step[0] == '-') then step[1..] else step;
      if digits == "" || !AllDigits(digits) then None
      else
        var n: int := Value(digits);
        var i := if step[0] == '-' then -n else n;
        if -0x8000_0000 <= i < 0x8000_0000 then Some(i) else None
  }

  /** Where an index points in an array: at an element, before the first, or behind the last. */
  function Slot(i: int, n: nat): (at: int)
    ensures -1 <= at <= n
  {
    if i >= n then n else if i >= 0 then i else if -i <= n then n + i else -1
  }

  /** Stepping into an array with something that is no index raises an error. */
  predicate Raises(j: Json, step: string) {
    j.Arr? && Index(step).None?
  }

  /** One step down, if there is something. */
  function Child(j: Json, step: string): Option<Json> {
    if j.Obj? then (if step in j.fields then Some(j.fields[step]) else None)
    else if j.Arr? && Index(step).Some? then
      var at := Slot(Index(step).value, |j.items|);
      if 0 <= at < |j.items| then Some(j.items[at]) else None
    else None
  }

  /** Sets a member: an element out of range is added at the nearer end, a scalar has none. */
  function Put(j: Json, step: string, v: Json): Json
    requires !Raises(j, step)
  {
    if j.Obj? then Obj(j.fields[step := v])
    else if j.Arr? then
      var at := Slot(Index(step).value, |j.items|);
      Arr(if at == -1 then [v] + j.items else if at == |j.items| then j.items + [v] else j.items[at := v])
    else j
  }

  /** Removes a member, if there. */
  function Drop(j: Json, step: string): Json
    requires !Raises(j, step)
  {
    if j.Obj? then Obj(j.fields - {step})
    else if Child(j, step).Some? then
      var at := Slot(Index(step).value, |j.items|);
      Arr(j.items[..at] + j.items[at + 1..])
    else j
  }

  /** Steps into an array: decimal numbers of 32 bits count from its start, negative ones from its
      end, white space before them does not matter, and a word is an error. */
  lemma IndexReads(n: nat, step: string)
    ensures Index(Decimal(n)) == if n < 0x8000_0000 then Some(n as int) else None
    ensures Index("-" + Decimal(n)) == if n <= 0x8000_0000 then Some(-(n as int)) else None
    ensures forall c :: c in [' ', '\t', '\n', '\U{000B}', '\U{000C}', '\r'] ==> Index([c] + step) == Index(step)
    ensures Index("name") == None && Index("") == None
  {
    DecimalIndex(n);
    NegativeIndex(n);
    WordIndex();
    SpaceSkipped(step);
  }

  lemma SpaceSkipped(step: string)
    ensures forall c :: c in [' ', '\t', '\n', '\U{000B}', '\U{000C}', '\r'] ==> Index([c] + step) == Index(step)
  {
    forall c | c in [' ', '\t', '\n', '\U{000B}', '\U{000C}', '\r'] ensures Index([c] + step) == Index(step) {
      assert ([c] + step)[1..] == step;
    }
  }

  lemma DecimalIndex(n: nat)
    ensures Index(Decimal(n)) == if n < 0x8000_0000 then Some(n as int) else None
  {
    ValueOfDecimal(n);
    assert '0' <= Decimal(n)[0] <= '9';
  }

  lemma NegativeIndex(n: nat)
    ensures Index("-" + Decimal(n)) == if n <= 0x8000_0000 then Some(-(n as int)) else None
  {
    var step := "-" + Decimal(n);
    ValueOfDecimal(n);
    assert step[0] == '-' && step[1..] == Decimal(n);
  }

  lemma WordIndex()
    ensures Index("name") == None && Index("") == None
  {
    var step := "name";
    assert step[0] == 'n';
    assert !AllDigits(step);
  }

  /** Setting an element: in range it is replaced, counting from either end; out of range it is added
      at the nearer one. */
  lemma ArrayPut(items: seq<Json>, step: string, i: int, v: Json)
    requires Index(step) == Some(i)
    ensures 0 <= i < |items| ==> Put(Arr(items), step, v) == Arr(items[i := v])
    ensures -|items| <= i < 0 ==> Put(Arr(items), step, v) == Arr(items[|items| + i := v])
    ensures i >= |items| ==> Put(Arr(items), step, v) == Arr(items + [v])
    ensures i < -|items| ==> Put(Arr(items), step, v) == Arr([v] + items)
  {
  }

  /** Removing one: in range it goes and the others close up; out of range nothing happens. */
  lemma ArrayDrop(items: seq<Json>, step: string, i: int)
    requires Index(step) == Some(i)
    ensures 0 <= i < |items| ==> Drop(Arr(items), step) == Arr(items[..i] + items[i + 1..])
    ensures -|items| <= i < 0 ==> Drop(Arr(items), step) == Arr(items[..|items| + i] + items[|items| + i + 1..])
    ensures i >= |items| || i < -|items| ==> Drop(Arr(items), step) == Arr(items)
  {
  }

  /** Setting a member that is there: it is found, replaced by the next set, and setting it to
      itself changes nothing. */
  lemma PutThere(j: Json, step: string, v: Json, w: Json)
    requires Child(j, step).Some?
    ensures !Raises(j, step) && !Raises(Put(j, step, v), step)
    ensures Child(Put(j, step, v), step) == Some(v)
    ensures Put(Put(j, step, v), step, w) == Put(j, step, w)
    ensures Put(j, step, Child(j, step).value) == j
  {
    if j.Obj? {
      assert j.fields[step := v][step := w] == j.fields[step := w];
      assert j.fields[step := j.fields[step]] == j.fields;
    } else {
      var at := Slot(Index(step).value, |j.items|);
      assert j.items[at := v][at := w] == j.items[at := w];
      assert j.items[at := j.items[at]] == j.items;
    }
  }

  // ---------------------------------------------------------------- jsonb operators

  /** `j #> path`. */
  function Fetch(j: Json, path: Path): Option<Json> {
    if path == [] then Some(j)
    else match Child(j, path[0])
         case None => None
         case Some(c) => Fetch(c, path[1..])
  }

  /** `jsonb_set(j, path, v, true)`: only the last step may be missing; None is an SQL error. */
  function JsonbSet(j: Json, path: Path, v: Json): Option<Json>
    requires path != []
  {
    if Raises(j, path[0]) then None
    else if |path| == 1 then Some(Put(j, path[0], v))
    else match Child(j, path[0])
         case None => Some(j)
         case Some(c) => PutIn(j, path[0], JsonbSet(c, path[1..], v))
  }

  /** `j #- path`, and `j - key` for a one-part path into an object. */
  function JsonbDelete(j: Json, path: Path): Option<Json>
    requires path != []
  {
    if Raises(j, path[0]) then None
    else if |path| == 1 then Some(Drop(j, path[0]))
    else match Child(j, path[0])
         case None => Some(j)
         case Some(c) => PutIn(j, path[0], JsonbDelete(c, path[1..]))
  }

  function PutIn(j: Json, step: string, v: Option<Json>): Option<Json>
    requires !Raises(j, step)
  {
    if v.Some? then Some(Put(j, step, v.value)) else None
  }

  /** No proper prefix of the path is bound to an array. */
  predicate NoArrayOnPath(j: Json, path: Path) {
    path != [] ==>
      !j.Arr? && (j.Obj? && path[0] in j.fields ==> NoArrayOnPath(j.fields[path[0]], path[1..]))
  }

  lemma {:induction false} NoArrayExactly(j: Json, path: Path)
    ensures NoArrayOnPath(j, path) <==>
            forall k :: 0 <= k < |path| && Get(j, path[..k]).Some? ==> !Get(j, path[..k]).value.Arr?
    decreases path
  {
    if path != [] {
      assert Get(j, path[..0]) == Some(j);
      var into := j.Obj? && path[0] in j.fields;
      if into {
        NoArrayExactly(j.fields[path[0]], path[1..]);
      }
      forall k | 0 < k < |path|
        ensures Get(j, path[..k]) == if into then Get(j.fields[path[0]], path[1..][..k - 1]) else None
      {
        assert path[..k][1..] == path[1..][..k - 1];
      }
      forall k | 0 <= k < |path| - 1 && into
        ensures Get(j.fields[path[0]], path[1..][..k]) == Get(j, path[..k + 1])
      {
        assert path[..k + 1][1..] == path[1..][..k];
      }
    }
  }

  /** One parent-creating UPDATE, guarded by `profile #> parent IS NULL`. */
  function EnsureParent(j: Json, parent: Path): Option<Json>
    requires parent != []
  {
    if Fetch(j, parent).None? then JsonbSet(j, parent, Obj(map[])) else Some(j)
  }

  /** The document after the first `n` parent-creating UPDATEs for `path`. */
  function EnsureParents(j: Json, path: Path, n: nat): Option<Json>
    requires n <= |path|
  {
    if n == 0 then Some(j)
    else match EnsureParents(j, path, n - 1)
         case None => None
         case Some(p) => EnsureParent(p, path[..n])
  }

  /** All UPDATEs of a set effect. */
  function IteratedSet(j: Json, path: Path, v: Json): Option<Json>
    requires path != []
  {
    match EnsureParents(j, path, |path| - 1)
    case None => None
    case Some(p) => JsonbSet(p, path, v)
  }

  // ---------------------------------------------------------------- reference write

  /** Walks down, adding an empty object where a parent is missing. It stops at a scalar, and in
      an array that it had to extend if the index still points past the end. */
  function WritePath(j: Json, path: Path, v: Json): Option<Json>
    decreases path
  {
    if path == [] then Some(v)
    else if Raises(j, path[0]) then None
    else if |path| == 1 then Some(Put(j, path[0], v))
    else
      var g := WithParent(j, path[0]);
      match Child(g, path[0])
      case None => Some(g)
      case Some(c) => PutIn(g, path[0], WritePath(c, path[1..], v))
  }

  function WithParent(j: Json, step: string): (g: Json)
    requires !Raises(j, step)
    ensures !Raises(g, step)
  {
    if Child(j, step).None? then Put(j, step, Obj(map[])) else j
  }

  /** Every proper prefix of the path is absent or bound to an object. */
  predicate Open(j: Json, path: Path) {
    path != [] ==>
      j.Obj? && (path[0] in j.fields ==> Open(j.fields[path[0]], path[1..]))
  }

  /** Every proper prefix of the path is bound to an object. */
  predicate ParentsExist(j: Json, path: Path) {
    path != [] ==>
      j.Obj? && (|path| > 1 ==> path[0] in j.fields && ParentsExist(j.fields[path[0]], path[1..]))
  }

  /** The value at the path, null when there is none. */
  function At(j: Json, path: Path): Json {
    match Get(j, path) case Some(v) => v case None => Null
  }

  /** What the statements after the first do, they do inside the first step's member. */
  function Inside(g: Json, step: string, path: Path, n: nat): Option<Json>
    requires n <= |path| && !Raises(g, step)
  {
    match Child(g, step)
    case None => Some(g)
    case Some(c) => PutIn(g, step, EnsureParents(c, path, n))
  }

  lemma {:induction false} EnsureParentsInside(j: Json, path: Path, n: nat)
    requires path != [] && 1 <= n <= |path| && !Raises(j, path[0])
    ensures EnsureParents(j, path, n) == Inside(WithParent(j, path[0]), path[0], path[1..], n - 1)
  {
    var k, rest := path[0], path[1..];
    var g := WithParent(j, k);
    if n == 1 {
      FirstParent(j, path);
      if Child(g, k).Some? {
        PutThere(g, k, Null, Null);
      }
    } else {
      EnsureParentsInside(j, path, n - 1);
      var parent := path[..n];
      assert parent[1..] == rest[..n - 1] && parent[0] == k;
      if Child(g, k).Some? {
        var c := EnsureParents(Child(g, k).value, rest, n - 2);
        if c.Some? {
          PutThere(g, k, c.value, c.value);
          EnsureParentBelow(Put(g, k, c.value), parent, c.value);
          if EnsureParent(c.value, parent[1..]).Some? {
            PutThere(g, k, c.value, EnsureParent(c.value, parent[1..]).value);
          }
        }
      }
    }
  }

  lemma FirstParent(j: Json, path: Path)
    requires path != [] && !Raises(j, path[0])
    ensures EnsureParents(j, path, 1) == Some(WithParent(j, path[0]))
  {
    assert path[..1] == [path[0]] && path[..1][1..] == [];
    assert EnsureParents(j, path, 0) == Some(j);
    assert Fetch(j, [path[0]]).None? <==> Child(j, path[0]).None?;
  }

  lemma EnsureParentBelow(j: Json, parent: Path, c: Json)
    requires |parent| > 1 && Child(j, parent[0]) == Some(c)
    ensures !Raises(j, parent[0])
    ensures EnsureParent(j, parent) == PutIn(j, parent[0], EnsureParent(c, parent[1..]))
  {
    PutThere(j, parent[0], c, c);
  }

  lemma SetBelow(g: Json, path: Path, v: Json, d: Json)
    requires |path| > 1 && Child(g, path[0]).Some?
    ensures !Raises(g, path[0]) && !Raises(Put(g, path[0], d), path[0])
    ensures JsonbSet(Put(g, path[0], d), path, v) == PutIn(g, path[0], JsonbSet(d, path[1..], v))
  {
    var o := JsonbSet(d, path[1..], v);
    PutThere(g, path[0], d, if o.Some? then o.value else d);
  }

  /** The whole sequence, inside the first step's member. */
  lemma SetInside(j: Json, path: Path, v: Json)
    requires |path| > 1 && !Raises(j, path[0])
    ensures var g := WithParent(j, path[0]);
            IteratedSet(j, path, v) ==
              match Child(g, path[0])
              case None => Some(g)
              case Some(c) => PutIn(g, path[0], IteratedSet(c, path[1..], v))
  {
    var k, rest := path[0], path[1..];
    var g := WithParent(j, k);
    EnsureParentsInside(j, path, |path| - 1);
    match Child(g, k) {
      case None =>
        assert JsonbSet(g, path, v) == Some(g);
      case Some(c) =>
        match EnsureParents(c, rest, |rest| - 1) {
          case None =>
            assert IteratedSet(c, rest, v) == None;
          case Some(d) =>
            assert IteratedSet(c, rest, v) == JsonbSet(d, rest, v);
            assert EnsureParents(j, path, |path| - 1) == Some(Put(g, k, d));
            SetBelow(g, path, v, d);
        }
    }
  }

  /** Creating the parents one statement at a time and then setting the value is one walk. */
  lemma {:induction false} IteratedSetIsWrite(j: Json, path: Path, v: Json)
    requires path != []
    ensures IteratedSet(j, path, v) == WritePath(j, path, v)
    decreases path
  {
    if |path| > 1 {
      if Raises(j, path[0]) {
        RaisingParents(j, path, |path| - 1);
      } else {
        SetInside(j, path, v);
        var g := WithParent(j, path[0]);
        if Child(g, path[0]).Some? {
          IteratedSetIsWrite(Child(g, path[0]).value, path[1..], v);
        }
      }
    }
  }

  lemma {:induction false} RaisingParents(j: Json, path: Path, n: nat)
    requires path != [] && Raises(j, path[0]) && 1 <= n <= |path|
    ensures EnsureParents(j, path, n).None?
  {
    if n == 1 {
      assert path[..1][0] == path[0];
      assert EnsureParents(j, path, 0) == Some(j);
    } else {
      RaisingParents(j, path, n - 1);
    }
  }

  lemma EmptyTakesSet(path: Path, v: Json)
    requires path != []
    ensures JsonbSet(Obj(map[]), path, v).Some?
  {
  }

  /** An error one step down comes from a member that was there before. */
  lemma ErrorInside(j: Json, path: Path, v: Json, p: Json) returns (c: Json, d: Json)
    requires |path| > 1 && !Raises(j, path[0])
    requires EnsureParents(j, path, |path| - 1) == Some(p) && JsonbSet(p, path, v).None?
    ensures Child(WithParent(j, path[0]), path[0]) == Some(c)
    ensures EnsureParents(c, path[1..], |path| - 2) == Some(d) && p == Put(WithParent(j, path[0]), path[0], d)
    ensures JsonbSet(d, path[1..], v).None? && (d == c ==> c != Obj(map[]))
  {
    var k, rest := path[0], path[1..];
    var g := WithParent(j, k);
    EnsureParentsInside(j, path, |path| - 1);
    c := Child(g, k).value;
    d := EnsureParents(c, rest, |rest| - 1).value;
    SetBelow(g, path, v, d);
    EmptyTakesSet(rest, v);
  }

  /** When the last statement of the sequence raises an error, those before it have changed nothing. */
  lemma {:induction false} ErrorsComeFirst(j: Json, path: Path, v: Json, p: Json)
    requires path != [] && EnsureParents(j, path, |path| - 1) == Some(p) && JsonbSet(p, path, v).None?
    ensures p == j
    decreases path
  {
    if |path| > 1 {
      NoRaise(j, path, |path| - 1);
      var c, d := ErrorInside(j, path, v, p);
      ErrorsComeFirst(c, path[1..], v, d);
      PutBack(j, path[0], c);
    }
  }

  /** The first statements look at the beginning of the path only. */
  lemma {:induction false} EnsurePrefix(j: Json, path: Path, m: nat, n: nat)
    requires n <= m <= |path|
    ensures EnsureParents(j, path[..m], n) == EnsureParents(j, path, n)
    decreases n
  {
    if n > 0 {
      EnsurePrefix(j, path, m, n - 1);
      assert path[..m][..n] == path[..n];
    }
  }

  lemma NoRaise(j: Json, path: Path, n: nat)
    requires path != [] && 1 <= n <= |path| && EnsureParents(j, path, n).Some?
    ensures !Raises(j, path[0])
  {
    if Raises(j, path[0]) {
      RaisingParents(j, path, n);
    }
  }

  lemma PutBack(j: Json, step: string, c: Json)
    requires !Raises(j, step) && Child(WithParent(j, step), step) == Some(c) && c != Obj(map[])
    ensures Put(WithParent(j, step), step, c) == j
  {
    if Child(j, step).None? {
      PutChild(j, step, Obj(map[]));
    } else {
      PutThere(j, step, c, c);
    }
  }

  // ---------------------------------------------------------------- the set laws

  /** A write is read back exactly when no member on the way is in the way. */
  lemma {:induction false} WriteRead(j: Json, path: Path, v: Json)
    requires !v.Null?
    ensures Open(j, path) ==> WritePath(j, path, v).Some? && Get(WritePath(j, path, v).value, path) == Some(v)
    ensures !Open(j, path) ==> Get(j, path).None?
    ensures !Open(j, path) && WritePath(j, path, v).Some? ==> Get(WritePath(j, path, v).value, path).None?
    ensures !Open(j, path) && NoArrayOnPath(j, path) ==> WritePath(j, path, v) == Some(j)
    decreases path
  {
    if path != [] && j.Obj? {
      var k := path[0];
      var g := WithParent(j, k);
      WriteObj(j, path, v);
      WriteRead(Child(g, k).value, path[1..], v);
      if k !in j.fields {
        OpenEmpty(path[1..]);
      } else if !Open(j, path) {
        assert j.fields[k := j.fields[k]] == j.fields;
      }
    }
  }

  /** The walk through an object. */
  lemma WriteObj(j: Json, path: Path, v: Json)
    requires j.Obj? && path != []
    ensures var k := path[0];
            var w := WritePath(if k in j.fields then j.fields[k] else Obj(map[]), path[1..], v);
            WritePath(j, path, v) == if w.Some? then Some(Obj(j.fields[k := w.value])) else None
  {
    var k := path[0];
    if |path| == 1 {
      assert path[1..] == [];
    } else if k !in j.fields {
      var w := WritePath(Obj(map[]), path[1..], v);
      if w.Some? {
        assert j.fields[k := Obj(map[])][k := w.value] == j.fields[k := w.value];
      }
    }
  }

  lemma {:induction false} OpenEmpty(path: Path)
    ensures Open(Obj(map[]), path)
  {
  }

  /** Containers all the way, and where an array must grow, the index is the next one. */
  predicate Within(j: Json, path: Path) {
    path != [] ==>
      && (j.Obj? || (j.Arr? && Index(path[0]).Some? && -|j.items| - 1 <= Index(path[0]).value <= |j.items|))
      && (Child(j, path[0]).Some? ==> Within(Child(j, path[0]).value, path[1..]))
  }

  /** Seen by `#>`, which steps into arrays too: the write is read back exactly when the path
      stays within its containers. */
  lemma {:induction false} WriteFetch(j: Json, path: Path, v: Json)
    ensures WritePath(j, path, v).Some? && Fetch(WritePath(j, path, v).value, path) == Some(v) <==> Within(j, path)
    decreases path
  {
    if path != [] && !Raises(j, path[0]) {
      var k, rest := path[0], path[1..];
      if |path| == 1 {
        assert rest == [];
        PutChild(j, k, v);
      } else {
        var g := WithParent(j, k);
        PutChild(j, k, Obj(map[]));
        if Child(g, k).Some? {
          var c := Child(g, k).value;
          WriteFetch(c, rest, v);
          if Child(j, k).None? {
            WithinEmpty(rest);
          }
          if WritePath(c, rest, v).Some? {
            PutThere(g, k, WritePath(c, rest, v).value, v);
          }
        }
      }
    }
  }

  /** A member that was set is found, unless its index still points past an end. */
  lemma PutChild(j: Json, step: string, v: Json)
    requires !Raises(j, step)
    ensures Child(Put(j, step, v), step)
         == if j.Obj? || (j.Arr? && -|j.items| - 1 <= Index(step).value <= |j.items|) then Some(v) else None
  {
  }

  lemma {:induction false} WithinEmpty(path: Path)
    ensures Within(Obj(map[]), path)
  {
  }

  /** Every path that is neither above nor below the written one keeps its value. */
  lemma {:induction false} WriteFrame(j: Json, path: Path, v: Json, q: Path)
    requires !Comparable(path, q) && WritePath(j, path, v).Some?
    ensures Get(WritePath(j, path, v).value, q) == Get(j, q)
    decreases path
  {
    if j.Obj? {
      WriteObj(j, path, v);
      if path[0] == q[0] {
        var k := path[0];
        var child := if k in j.fields then j.fields[k] else Obj(map[]);
        assert [k] + path[1..] == path && [k] + q[1..] == q;
        WriteFrame(child, path[1..], v, q[1..]);
      }
    }
  }

  /** The iterated write agrees with the documented merge patch exactly when no non-object
      member stands on the path and the value absorbs what it replaces. */
  lemma {:induction false} WriteIsMergePatch(j: Json, path: Path, v: Json)
    requires path != [] ==> v != Null
    ensures WritePath(j, path, v) == Some(MergePatch(j, Nest(path, v))) <==> Open(j, path) && Absorbs(v, At(j, path))
    decreases path
  {
    if path == [] {
      MergeReplaces(j, v);
    } else {
      var k, rest := path[0], path[1..];
      MergeNestStep(j, path, v);
      var merged := MergePatch(Field(j, k), Nest(rest, v));
      if j.Obj? {
        WriteObj(j, path, v);
        var child := if k in j.fields then j.fields[k] else Obj(map[]);
        WriteIsMergePatch(child, rest, v);
        var w := WritePath(child, rest, v);
        if w.Some? {
          assert j.fields[k := w.value][k] == w.value && j.fields[k := merged][k] == merged;
        }
        if k !in j.fields {
          MergeFresh(rest, v);
        }
      }
    }
  }

  /** An absent target and an empty object merge alike, and neither resists absorption more. */
  lemma MergeFresh(path: Path, v: Json)
    requires path != [] ==> v != Null
    ensures MergePatch(Null, Nest(path, v)) == MergePatch(Obj(map[]), Nest(path, v))
    ensures Open(Obj(map[]), path)
    ensures Absorbs(v, Null) <==> Absorbs(v, At(Obj(map[]), path))
  {
    if path != [] {
      MergeNestStep(Null, path, v);
      MergeNestStep(Obj(map[]), path, v);
    } else {
      assert forall k :: Field(Null, k) == Field(Obj(map[]), k);
      assert FieldsOf(Null) == FieldsOf(Obj(map[]));
    }
  }

  /** The Modal executor's nested write, statement by statement: it is the documented merge
      patch exactly when no non-object member stands on the path and the value absorbs what it
      replaces, as every scalar and array does. Then the value is read back; unless an error is
      raised every path that is neither above nor below keeps its value. */
  lemma IteratedSetIsMergePatch(j: Json, path: Path, v: Json, q: Path)
    requires path != [] && v != Null
    ensures var r := IteratedSet(j, path, v);
            && (r == Some(MergePatch(j, Nest(path, v))) <==> Open(j, path) && Absorbs(v, At(j, path)))
            && (r.Some? && Get(r.value, path) == Some(v) <==> Open(j, path))
            && (r.Some? && !Comparable(path, q) ==> Get(r.value, q) == Get(j, q))
    ensures !v.Obj? ==> Absorbs(v, At(j, path))
  {
    IteratedSetIsWrite(j, path, v);
    WriteIsMergePatch(j, path, v);
    WriteRead(j, path, v);
    if WritePath(j, path, v).Some? && !Comparable(path, q) {
      WriteFrame(j, path, v, q);
    }
  }

  // ---------------------------------------------------------------- the delete laws

  /** A deleted path reads as absent, and without an array on it deleting an absent path changes
      nothing. */
  lemma {:induction false} DeleteRead(j: Json, path: Path)
    requires path != []
    ensures JsonbDelete(j, path).Some? ==> Get(JsonbDelete(j, path).value, path).None?
    ensures NoArrayOnPath(j, path) ==> JsonbDelete(j, path).Some?
    ensures NoArrayOnPath(j, path) && Get(j, path).None? ==> JsonbDelete(j, path) == Some(j)
  {
    if |path| == 1 {
      assert path[1..] == [];
      assert j.Obj? && path[0] in j.fields ==> Get(j.fields[path[0]], path[1..]).Some?;
      assert j.Obj? && path[0] !in j.fields ==> j.fields - {path[0]} == j.fields;
    } else if j.Obj? && path[0] in j.fields {
      DeleteRead(j.fields[path[0]], path[1..]);
      assert j.fields[path[0] := j.fields[path[0]]] == j.fields;
    }
  }

  lemma {:induction false} DeleteFrame(j: Json, path: Path, q: Path)
    requires path != [] && !Comparable(path, q) && JsonbDelete(j, path).Some?
    ensures Get(JsonbDelete(j, path).value, q) == Get(j, q)
  {
    if j.Obj? && path[0] in j.fields {
      assert [path[0]] + path[1..] == path && [q[0]] + q[1..] == q;
      if |path| > 1 && path[0] == q[0] {
        DeleteFrame(j.fields[path[0]], path[1..], q[1..]);
      }
    }
  }

  /** Deleting a path agrees with the documented merge patch, a null at that path, exactly
      when all parents exist; otherwise the merge patch would create them. */
  lemma {:induction false} DeleteIsMergePatch(j: Json, path: Path)
    requires path != []
    ensures JsonbDelete(j, path) == Some(MergePatch(j, Nest(path, Null))) <==> ParentsExist(j, path)
    decreases path
  {
    var k, rest := path[0], path[1..];
    if |path| == 1 {
      assert Nest(path, Null) == Obj(map[k := Null]);
      var m := MergePatch(j, Nest(path, Null));
      if j.Obj? {
        assert m.fields == j.fields - {k};
      }
    } else {
      MergeNestStep(j, path, Null);
      var merged := MergePatch(Field(j, k), Nest(rest, Null));
      if j.Obj? && k in j.fields {
        DeleteIsMergePatch(j.fields[k], rest);
        var d := JsonbDelete(j.fields[k], rest);
        if d.Some? {
          assert j.fields[k := d.value][k] == d.value && j.fields[k := merged][k] == merged;
        }
      } else if j.Obj? {
        assert k in j.fields[k := merged];
      }
    }
  }

  // ---------------------------------------------------------------- the post-turn writer

  lemma NestStep(j: Json, path: Path, v: Json)
    requires j.Obj? && path != []
    ensures Concat(j, Nest(path, v)) == Obj(j.fields[path[0] := Nest(path[1..], v)])
  {
    assert j.fields + map[path[0] := Nest(path[1..], v)] == j.fields[path[0] := Nest(path[1..], v)];
  }

  /** The post-turn patch of one path is the documented merge patch exactly when the value is
      not null and nothing else lives under the path's first key. */
  lemma PatchIsMergePatch(j: Json, path: Path, v: Json)
    requires j.Obj? && path != []
    ensures Concat(j, Nest(path, v)) == MergePatch(j, Nest(path, v)) <==>
            v != Null && Absorbs(Nest(path[1..], v), Field(j, path[0]))
  {
    ConcatIsMergePatch(j, Nest(path, v));
    assert Nest(path, v).fields.Keys == {path[0]};
    assert path[0] in Nest(path, v).fields;
    NullNestAbsorbs(path[1..], Field(j, path[0]));
  }

  lemma {:induction false} NullNestAbsorbs(path: Path, j: Json)
    ensures path != [] ==> !Absorbs(Nest(path, Null), j)
    decreases path
  {
    if path != [] {
      NullNestAbsorbs(path[1..], Field(j, path[0]));
      assert path[0] in Nest(path, Null).fields;
    }
  }

  /** Only the path's own keys occur on the way: there is nothing beside it to lose. */
  predicate Lone(j: Json, path: Path) {
    path != [] ==>
      j.Obj? && j.fields.Keys <= {path[0]} && (path[0] in j.fields ==> Lone(j.fields[path[0]], path[1..]))
  }

  lemma {:induction false} LoneWrite(j: Json, path: Path, v: Json)
    ensures WritePath(j, path, v) == Some(Nest(path, v)) <==> Lone(j, path)
    decreases path
  {
    if path != [] && j.Obj? {
      var k := path[0];
      var child := if k in j.fields then j.fields[k] else Obj(map[]);
      WriteObj(j, path, v);
      LoneWrite(child, path[1..], v);
      LoneEmpty(path[1..]);
      var w := WritePath(child, path[1..], v);
      if w.Some? {
        var written := j.fields[k := w.value];
        assert written.Keys == j.fields.Keys + {k} && written[k] == w.value;
        if Lone(j, path) {
          assert written == map[k := w.value];
        }
      }
    }
  }

  lemma {:induction false} LoneEmpty(path: Path)
    ensures Lone(Obj(map[]), path)
  {
  }

  lemma {:induction false} LoneIsNest(j: Json, path: Path, v: Json)
    ensures Lone(j, path) && Get(j, path) == Some(v) <==> j == Nest(path, v)
    decreases path
  {
    if path != [] {
      var k := path[0];
      if j.Obj? && k in j.fields {
        LoneIsNest(j.fields[k], path[1..], v);
        if Lone(j, path) {
          assert j.fields == map[k := j.fields[k]];
        }
      }
      GetNest(path, v);
      LoneNest(path, v);
    }
  }

  lemma {:induction false} LoneNest(path: Path, v: Json)
    ensures Lone(Nest(path, v), path)
  {
    if path != [] {
      LoneNest(path[1..], v);
    }
  }

  /** Creating the parents never touches what is read at the path itself. */
  lemma {:induction false} ParentsKeepTarget(j: Json, path: Path, n: nat)
    requires n < |path| && EnsureParents(j, path, n).Some?
    ensures Get(EnsureParents(j, path, n).value, path) == Get(j, path)
    ensures Get(j, path).Some? ==> EnsureParents(j, path, n).value == j
    ensures EnsureParents(j, path, n).value.Obj? <==> j.Obj?
    decreases path
  {
    if n > 0 {
      var k, rest := path[0], path[1..];
      if Raises(j, k) {
        RaisingParents(j, path, n);
      } else {
        var g := WithParent(j, k);
        EnsureParentsInside(j, path, n);
        if Child(g, k).Some? {
          PutThere(g, k, Null, Null);
          ParentsKeepTarget(Child(g, k).value, rest, n - 1);
        }
      }
    }
  }

  /** What a set effect run by the Modal executor leaves in the row. An SQL error changes
      nothing; a null value fails the last UPDATE, after the parents have been created. */
  function ModalLeaves(j: Json, path: Path, v: Json): Json
    requires path != []
  {
    match (if v == Null then EnsureParents(j, path, |path| - 1) else WritePath(j, path, v))
    case Some(r) => r
    case None => j
  }

  /** One effect, two executors: running a set effect inline after the turn and running it in
      the Modal worker leave the same profile exactly when nothing lives beside the path, and a
      null was there already if the value is null. */
  lemma ExecutorsAgree(j: Json, path: Path, v: Json)
    requires j.Obj? && path != []
    ensures Concat(j, Nest(path, v)) == ModalLeaves(j, path, v) <==>
            (path[0] in j.fields ==> Lone(j.fields[path[0]], path[1..]))
            && (v == Null ==> Get(j, path) == Some(Null))
  {
    NestStep(j, path, v);
    if v == Null {
      NullAgrees(j, path);
    } else {
      var k := path[0];
      var child := if k in j.fields then j.fields[k] else Obj(map[]);
      WriteObj(j, path, v);
      LoneWrite(child, path[1..], v);
      LoneEmpty(path[1..]);
      LoneIsNest(child, path[1..], v);
      var a, b := Nest(path[1..], v), WritePath(child, path[1..], v);
      assert j.fields[k := a][k] == a && (b.Some? ==> j.fields[k := b.value][k] == b.value);
    }
  }

  lemma NullAgrees(j: Json, path: Path)
    requires j.Obj? && path != []
    ensures Concat(j, Nest(path, Null)) == ModalLeaves(j, path, Null) <==>
            (path[0] in j.fields ==> Lone(j.fields[path[0]], path[1..])) && Get(j, path) == Some(Null)
  {
    var c, p := Concat(j, Nest(path, Null)), ModalLeaves(j, path, Null);
    PatchRead(j, path, Null);
    ModalNullKeeps(j, path);
    ConcatIsSame(j, path);
    if c == p {
      assert Get(j, path) == Some(Null);
    }
  }

  lemma PatchRead(j: Json, path: Path, v: Json)
    requires j.Obj? && path != []
    ensures Get(Concat(j, Nest(path, v)), path) == Some(v)
  {
    NestStep(j, path, v);
    GetNest(path[1..], v);
  }

  /** A failed set of null changes neither what is read at the path nor anything if the path is there. */
  lemma ModalNullKeeps(j: Json, path: Path)
    requires path != []
    ensures Get(ModalLeaves(j, path, Null), path) == Get(j, path)
    ensures Get(j, path).Some? ==> ModalLeaves(j, path, Null) == j
  {
    if EnsureParents(j, path, |path| - 1).Some? {
      ParentsKeepTarget(j, path, |path| - 1);
    }
  }

  lemma ConcatIsSame(j: Json, path: Path)
    requires j.Obj? && path != []
    ensures Concat(j, Nest(path, Null)) == j <==>
            (path[0] in j.fields ==> Lone(j.fields[path[0]], path[1..])) && Get(j, path) == Some(Null)
  {
    var k, rest := path[0], path[1..];
    NestStep(j, path, Null);
    if k in j.fields {
      LoneIsNest(j.fields[k], rest, Null);
      var nested := j.fields[k := Nest(rest, Null)];
      assert nested[k] == Nest(rest, Null);
      assert j.fields[k := j.fields[k]] == j.fields;
    } else {
      assert k in j.fields[k := Nest(rest, Null)];
    }
  }

  /** A delete effect run after the turn never deletes: it leaves a null that is read back. */
  lemma PostTurnDeleteStoresNull(j: Json, path: Path)
    requires j.Obj? && path != []
    ensures Get(Concat(j, Nest(path, Null)), path) == Some(Null)
    ensures JsonbDelete(j, path) != Some(Concat(j, Nest(path, Null)))
  {
    NestStep(j, path, Null);
    GetNest(path[1..], Null);
    DeleteRead(j, path);
  }

  /** Two sets under one key: the first is lost. */
  lemma SiblingLost()
    ensures var j := Obj(map["user" := Obj(map["name" := Str("Bob"), "level" := Num(1.0)])]);
            var patch := Nest(["user", "level"], Num(5.0));
            && Get(Concat(j, patch), ["user", "name"]).None?
            && Get(MergePatch(j, patch), ["user", "name"]) == Some(Str("Bob"))
  {
    var user := Obj(map["name" := Str("Bob"), "level" := Num(1.0)]);
    var j := Obj(map["user" := user]);
    var path := ["user", "level"];
    assert path[1..] == ["level"] && ["level"][1..] == [];
    NestStep(j, path, Num(5.0));
    assert Nest(["level"], Num(5.0)) == Obj(map["level" := Num(5.0)]);
    MergeNestStep(j, path, Num(5.0));
    MergeNestStep(user, ["level"], Num(5.0));
    assert ["user", "name"][1..] == ["name"] && ["name"][1..] == [];
    var merged := MergePatch(user, Nest(["level"], Num(5.0)));
    assert merged.Obj? && "name" in merged.fields && merged.fields["name"] == Str("Bob");
    assert Field(j, "user") == user;
    assert Get(merged, ["name"]) == Some(Str("Bob"));
  }
}
