/** Cardinalities of sets against lengths of sequences. */
module Counting {

  function SetOf<T>(p: seq<T>): set<T> {
    set x | x in p
  }

  lemma {:induction false} SetFitsSeq<T>(s: set<T>, p: seq<T>)
    requires forall x :: x in s ==> x in p
    ensures |s| <= |p|
  {
    if p == [] {
      assert s == {};
    } else {
      var x := p[|p| - 1];
      assert forall y :: y in s - {x} ==> y in p[..|p| - 1];
      SetFitsSeq(s - {x}, p[..|p| - 1]);
      assert s <= (s - {x}) + {x};
    }
  }

  lemma {:induction false} DistinctCount<T>(p: seq<T>)
    requires forall i, j :: 0 <= i < j < |p| ==> p[i] != p[j]
    ensures |SetOf(p)| == |p|
  {
    if p != [] {
      var q, x := p[..|p| - 1], p[|p| - 1];
      DistinctCount(q);
      assert x !in q;
      assert SetOf(p) == SetOf(q) + {x};
    }
  }

  lemma {:induction false} InjectionFits<K, T>(f: map<K, T>, p: seq<T>)
    requires forall i, j :: i in f && j in f && f[i] == f[j] ==> i == j
    requires forall i :: i in f ==> f[i] in p
    ensures |f.Keys| <= |p|
    decreases |p|
  {
    if p == [] {
      assert f.Keys == {};
    } else {
      var n := |p| - 1;
      if i :| i in f && f[i] == p[n] {
        InjectionFits(f - {i}, p[..n]);
        assert f.Keys == (f - {i}).Keys + {i};
      } else {
        InjectionFits(f, p[..n]);
      }
    }
  }

  lemma SubsetCount<T>(a: set<T>, b: set<T>)
    requires a <= b
    ensures |a| <= |b|
  {
    assert b == a + (b - a);
  }

  lemma {:induction false} Least(w: set<int>) returns (least: int)
    requires exists x :: x in w
    ensures least in w && forall x :: x in w ==> least <= x
  {
    var y :| y in w;
    least := y;
    if exists x :: x in w - {y} {
      var z := Least(w - {y});
      least := if y <= z then y else z;
    }
    assert forall x :: x in w ==> x == y || x in w - {y};
  }

  /** Numbers less than `n` apart are at most `n` many. */
  lemma SpanCount(w: set<int>, n: nat)
    requires forall i, j :: i in w && j in w ==> j - i < n
    ensures |w| <= n
  {
    if exists x :: x in w {
      var least := Least(w);
      var span := seq(n, i => least + i);
      assert forall x :: x in w ==> x == span[x - least];
      SetFitsSeq(w, span);
    }
  }
}
