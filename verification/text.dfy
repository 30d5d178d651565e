/** Strings as the JavaScript and Python sources use them: splitting on one
    separator character, joining, and trimming white space at both ends. */
module Text {

  datatype Option<+T> = None | Some(value: T)

  /** Applies `f` to every element in order and concatenates the results. */
  function FlatMap<A, B>(f: A -> seq<B>, xs: seq<A>): seq<B> {
    if xs == [] then [] else FlatMap(f, xs[..|xs| - 1]) + f(xs[|xs| - 1])
  }

  lemma {:induction false} FlatMapConcat<A, B>(f: A -> seq<B>, a: seq<A>, b: seq<A>)
    ensures FlatMap(f, a + b) == FlatMap(f, a) + FlatMap(f, b)
  {
    if b == [] {
      assert a + b == a;
    } else {
      FlatMapConcat(f, a, b[..|b| - 1]);
      assert (a + b)[..|a + b| - 1] == a + b[..|b| - 1];
    }
  }

  lemma FlatMapSnoc<A, B>(f: A -> seq<B>, xs: seq<A>, k: nat)
    requires k < |xs|
    ensures FlatMap(f, xs[..k + 1]) == FlatMap(f, xs[..k]) + f(xs[k])
  {
    assert xs[..k + 1][..k] == xs[..k];
  }

  lemma FlatMapAppend<A, B>(f: A -> seq<B>, xs: seq<A>, x: A)
    ensures FlatMap(f, xs + [x]) == FlatMap(f, xs) + f(x)
  {
    assert (xs + [x])[..|xs|] == xs;
  }

  lemma {:induction false} FlatMapSingles<A, B>(f: A -> seq<B>, xs: seq<A>)
    requires forall k :: 0 <= k < |xs| ==> |f(xs[k])| == 1
    ensures |FlatMap(f, xs)| == |xs| && forall k :: 0 <= k < |xs| ==> FlatMap(f, xs)[k] == f(xs[k])[0]
  {
    if xs != [] {
      FlatMapSingles(f, xs[..|xs| - 1]);
    }
  }

  lemma FlatMapOne<A, B>(f: A -> seq<B>, x: A)
    ensures FlatMap(f, [x]) == f(x)
  {
    assert [x][..0] == [];
    assert FlatMap(f, []) + f(x) == f(x);
  }

  lemma TakeSnoc<T>(s: seq<T>, k: nat)
    requires k < |s|
    ensures s[..k + 1] == s[..k] + [s[k]]
  {
  }

  lemma ConcatAssoc<T>(a: seq<T>, b: seq<T>, c: seq<T>)
    ensures a + (b + c) == (a + b) + c
  {
  }

  /** `s.split(c)` for a one-character separator: never empty, and `""` gives `[""]`. */
  function Split(s: string, c: char): (parts: seq<string>)
    ensures |parts| > 0
  {
    if s == "" then [""]
    else
      var rest := Split(s[1..], c);
      if s[0] == c then [""] + rest else [[s[0]] + rest[0]] + rest[1..]
  }

  function Join(parts: seq<string>, c: char): string {
    if |parts| == 0 then ""
    else if |parts| == 1 then parts[0]
    else parts[0] + [c] + Join(parts[1..], c)
  }

  lemma {:induction false} JoinOfSplit(s: string, c: char)
    ensures Join(Split(s, c), c) == s
    ensures forall p :: p in Split(s, c) ==> c !in p
  {
    if s != "" {
      var rest := Split(s[1..], c);
      JoinOfSplit(s[1..], c);
      assert s == [s[0]] + s[1..];
      if s[0] == c {
        assert ([""] + rest)[1..] == rest;
      } else {
        JoinHead([s[0]], rest, c);
        assert rest[0] in rest && forall p :: p in rest[1..] ==> p in rest;
      }
    }
  }

  /** Prefixing the first part prefixes the joined string. */
  lemma JoinHead(h: string, parts: seq<string>, c: char)
    requires |parts| > 0
    ensures Join([h + parts[0]] + parts[1..], c) == h + Join(parts, c)
  {
    assert ([h + parts[0]] + parts[1..])[1..] == parts[1..];
    assert h + parts[0] + [c] + Join(parts[1..], c) == h + (parts[0] + [c] + Join(parts[1..], c));
  }

  lemma {:induction false} SplitOfJoin(parts: seq<string>, c: char)
    requires |parts| > 0
    requires forall p :: p in parts ==> c !in p
    ensures Split(Join(parts, c), c) == parts
  {
    var p := parts[0];
    assert c !in p;
    if |parts| == 1 {
      SplitWhole(p, c);
    } else {
      SplitOfJoin(parts[1..], c);
      SplitHead(p, Join(parts[1..], c), c);
      assert p + [c] + Join(parts[1..], c) == p + ([c] + Join(parts[1..], c));
      assert parts == [p] + parts[1..];
    }
  }

  lemma {:induction false} SplitWhole(p: string, c: char)
    requires c !in p
    ensures Split(p, c) == [p]
  {
    if p != "" {
      SplitWhole(p[1..], c);
      assert p == [p[0]] + p[1..];
    }
  }

  lemma {:induction false} SplitHead(p: string, s: string, c: char)
    requires c !in p
    ensures Split(p + [c] + s, c) == [p] + Split(s, c)
  {
    var t := p + [c] + s;
    if p == "" {
      assert t[1..] == s;
    } else {
      SplitHead(p[1..], s, c);
      assert t[1..] == p[1..] + [c] + s;
      assert p == [p[0]] + p[1..];
    }
  }

  /** WhiteSpace and LineTerminator of ECMAScript, which `String.prototype.trim` removes. */
  predicate IsSpace(c: char) {
    c in "\t\n\r \U{000B}\U{000C}\U{00A0}\U{1680}\U{2028}\U{2029}\U{202F}\U{205F}\U{3000}\U{FEFF}"
    || '\U{2000}' <= c <= '\U{200A}'
  }

  lemma SpaceCodes(c: char)
    ensures IsSpace(c) <==> 9 <= c as int <= 13 || 8192 <= c as int <= 8202
                            || c as int in {32, 160, 5760, 8232, 8233, 8239, 8287, 12288, 65279}
  {
  }

  function TrimStart(s: string): string {
    if s != "" && IsSpace(s[0]) then TrimStart(s[1..]) else s
  }

  function TrimEnd(s: string): string {
    if s != "" && IsSpace(s[|s| - 1]) then TrimEnd(s[..|s| - 1]) else s
  }

  function Trim(s: string): string {
    TrimEnd(TrimStart(s))
  }

  /** No white space at either end: exactly the strings that trimming leaves alone. */
  predicate TrimStable(s: string) {
    s != "" ==> !IsSpace(s[0]) && !IsSpace(s[|s| - 1])
  }

  lemma {:induction false} TrimEndShape(s: string)
    ensures TrimEnd(s) <= s
    ensures TrimEnd(s) != "" ==> !IsSpace(TrimEnd(s)[|TrimEnd(s)| - 1])
    ensures forall k :: |TrimEnd(s)| <= k < |s| ==> IsSpace(s[k])
  {
    if s != "" && IsSpace(s[|s| - 1]) {
      var before := s[..|s| - 1];
      TrimEndShape(before);
      forall k | |TrimEnd(s)| <= k < |s| ensures IsSpace(s[k]) {
        assert k == |s| - 1 || s[k] == before[k];
      }
    }
  }

  lemma {:induction false} TrimStartShape(s: string)
    ensures |TrimStart(s)| <= |s| && TrimStart(s) == s[|s| - |TrimStart(s)|..]
    ensures TrimStart(s) != "" ==> !IsSpace(TrimStart(s)[0])
    ensures forall k :: 0 <= k < |s| - |TrimStart(s)| ==> IsSpace(s[k])
  {
    if s != "" && IsSpace(s[0]) {
      TrimStartShape(s[1..]);
      var n := |s| - |TrimStart(s)|;
      forall k | 0 <= k < n ensures IsSpace(s[k]) {
        assert k == 0 || s[k] == s[1..][k - 1];
      }
    }
  }

  lemma TrimIsStable(s: string)
    ensures TrimStable(Trim(s))
    ensures Trim(s) == "" ==> TrimStart(s) == ""
  {
    var t := TrimStart(s);
    var u := TrimEnd(t);
    TrimStartShape(s);
    TrimEndShape(t);
    assert u != "" ==> u[0] == t[0];
  }

  lemma StableIsTrimmed(s: string)
    requires TrimStable(s)
    ensures Trim(s) == s
  {
    assert TrimStart(s) == s;
    assert TrimEnd(s) == s;
  }

  lemma TrimCuts(s: string)
    ensures exists i: nat, j: nat :: i <= j <= |s| && Trim(s) == s[i..j]
                                     && forall k :: 0 <= k < |s| && !(i <= k < j) ==> IsSpace(s[k])
  {
    var t := TrimStart(s);
    TrimStartShape(s);
    TrimEndShape(t);
    var i, j := |s| - |t|, |s| - |t| + |Trim(s)|;
    assert Trim(s) == s[i..j];
    forall k | 0 <= k < |s| && !(i <= k < j) ensures IsSpace(s[k]) {
      assert k >= i ==> s[k] == t[k - i];
    }
  }

  /** Trimming is a projection onto the trim-stable strings: it cuts white space off both ends. */
  lemma TrimProjects(s: string)
    ensures TrimStable(Trim(s))
    ensures Trim(s) == s <==> TrimStable(s)
    ensures Trim(s) == "" ==> forall k :: 0 <= k < |s| ==> IsSpace(s[k])
    ensures exists i: nat, j: nat :: i <= j <= |s| && Trim(s) == s[i..j]
                                     && forall k :: 0 <= k < |s| && !(i <= k < j) ==> IsSpace(s[k])
  {
    TrimCuts(s);
    TrimIsStable(s);
    if TrimStable(s) {
      StableIsTrimmed(s);
    }
    if Trim(s) == "" {
      TrimStartShape(s);
    }
  }

  /** Whatever is not stable gets shorter. */
  lemma TrimShortens(s: string)
    ensures |Trim(s)| <= |s|
    ensures |Trim(s)| == |s| <==> TrimStable(s)
  {
    TrimStartShape(s);
    TrimEndShape(TrimStart(s));
    TrimIsStable(s);
    if TrimStable(s) {
      StableIsTrimmed(s);
    }
    if |Trim(s)| == |s| {
      assert Trim(s) == TrimStart(s) == s;
    }
  }
}
