/** Unique test names: "Name", "Name (2)", "Name (3)", ... */
module Naming {
  import opened Counting
  import opened Numerals

  function Candidate(desired: string, counter: nat): string {
    desired + " (" + Decimal(counter) + ")"
  }

  /** The pattern `^desired \(\d+\)$`. */
  predicate IsNumbered(desired: string, name: string) {
    var n := |desired| + 2;
    && |name| > n + 1 && desired + " (" <= name && name[|name| - 1] == ')'
    && AllDigits(name[n..|name| - 1])
  }

  /** Exactly the names that put a non-empty number in brackets behind the desired one. */
  lemma NumberedExactly(desired: string, name: string)
    ensures IsNumbered(desired, name) <==>
            exists digits: string :: digits != "" && (forall d :: d in digits ==> '0' <= d <= '9')
                                     && name == desired + " (" + digits + ")"
  {
    var n := |desired| + 2;
    if IsNumbered(desired, name) {
      var digits := name[n..|name| - 1];
      assert name == desired + " (" + digits + ")";
      assert forall d :: d in digits ==> '0' <= d <= '9';
    }
    if exists digits: string :: digits != "" && (forall d :: d in digits ==> '0' <= d <= '9')
                                && name == desired + " (" + digits + ")" {
      var digits: string :| digits != "" && (forall d :: d in digits ==> '0' <= d <= '9')
                            && name == desired + " (" + digits + ")";
      NumberedParts(desired, digits);
      assert forall k :: 0 <= k < |digits| ==> digits[k] in digits;
      assert AllDigits(digits);
    }
  }

  lemma NumberedParts(desired: string, digits: string)
    ensures var name, n := desired + " (" + digits + ")", |desired| + 2;
            && |name| == n + |digits| + 1 && desired + " (" <= name
            && name[n..|name| - 1] == digits && name[|name| - 1] == ')'
  {
  }

  lemma CandidateIsNumbered(desired: string, counter: nat)
    ensures IsNumbered(desired, Candidate(desired, counter))
  {
    var name, n := Candidate(desired, counter), |desired| + 2;
    assert name[n..|name| - 1] == Decimal(counter);
  }

  lemma CandidateInjective(desired: string, c: nat, d: nat)
    requires Candidate(desired, c) == Candidate(desired, d)
    ensures c == d
  {
    var a, b, n := Candidate(desired, c), Candidate(desired, d), |desired| + 2;
    assert a[n..|a| - 1] == Decimal(c) && b[n..|b| - 1] == Decimal(d);
    DecimalInjective(c, d);
  }

  /** Candidates 2 up to `counter`, exclusive. */
  function Tried(desired: string, counter: nat): set<string>
    requires counter >= 2
  {
    set k | 2 <= k < counter :: Candidate(desired, k)
  }

  lemma {:induction false} TriedCount(desired: string, counter: nat)
    requires counter >= 2
    ensures |Tried(desired, counter)| == counter - 2
  {
    if counter == 2 {
      assert Tried(desired, 2) == {};
    } else {
      TriedCount(desired, counter - 1);
      TriedNext(desired, counter - 1);
    }
  }

  /** The next candidate is a new one. */
  lemma TriedNext(desired: string, counter: nat)
    requires counter >= 2
    ensures Candidate(desired, counter) !in Tried(desired, counter)
    ensures Tried(desired, counter + 1) == Tried(desired, counter) + {Candidate(desired, counter)}
  {
    var c := Candidate(desired, counter);
    if c in Tried(desired, counter) {
      var k :| 2 <= k < counter && Candidate(desired, k) == c;
      CandidateInjective(desired, k, counter);
    }
    forall n | n in Tried(desired, counter + 1) ensures n in Tried(desired, counter) + {c} {
      var k :| 2 <= k < counter + 1 && Candidate(desired, k) == n;
      assert k == counter || Candidate(desired, k) in Tried(desired, counter);
    }
  }

  /** The rows the second query selects. */
  function Matching(table: set<string>, desired: string): set<string> {
    set n | n in table && (n == desired || IsNumbered(desired, n))
  }

  /** Every numbered name below `counter` is taken. */
  predicate TakenBelow(table: set<string>, desired: string, counter: nat) {
    forall k :: 2 <= k < counter ==> Candidate(desired, k) in table
  }

  /** While all smaller candidates are taken, the counter stays within the matching names. */
  lemma CounterBounded(table: set<string>, desired: string, counter: nat)
    requires counter >= 2 && desired in table && TakenBelow(table, desired, counter)
    ensures counter <= |Matching(table, desired)| + 1
  {
    var matching := Matching(table, desired);
    forall n | n in Tried(desired, counter) ensures n in matching - {desired} {
      var k :| 2 <= k < counter && n == Candidate(desired, k);
      CandidateIsNumbered(desired, k);
      assert |n| > |desired|;
    }
    TriedCount(desired, counter);
    SubsetCount(Tried(desired, counter), matching - {desired});
  }

  /** `get_unique_name`: the search ends, what it returns is free, every smaller numbered name
      is taken, and the number exceeds that of the matching names by at most one. */
  method GetUniqueName(table: set<string>, desired: string) returns (name: string)
    ensures name !in table
    ensures desired !in table ==> name == desired
    ensures desired in table ==>
              exists c: nat :: 2 <= c <= |set n | n in table && (n == desired || IsNumbered(desired, n))| + 1
                          && name == desired + " (" + Decimal(c) + ")"
                          && forall k: nat :: 2 <= k < c ==> desired + " (" + Decimal(k) + ")" in table
  {
    if desired !in table {
      return desired;
    }
    var existingNames := Matching(table, desired);
    var counter := 2;
    while true
      invariant counter >= 2 && TakenBelow(table, desired, counter)
      decreases |existingNames| + 2 - counter
    {
      CounterBounded(table, desired, counter);
      CandidateIsNumbered(desired, counter);
      name := Candidate(desired, counter);
      if name !in existingNames {
        assert name == desired + " (" + Decimal(counter) + ")";
        assert forall k: nat :: 2 <= k < counter ==> Candidate(desired, k) == desired + " (" + Decimal(k) + ")";
        return;
      }
      counter := counter + 1;
    }
  }
}
