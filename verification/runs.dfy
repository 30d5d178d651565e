/** Runs of a state machine: `fine` says which steps may be taken, `after` what they do. */
module Runs {

  /** Every step of the run is fine in the state it meets. */
  ghost predicate AllFine<S, T>(fine: (S, T) -> bool, after: (S, T) -> S, s: S, steps: seq<T>)
    decreases |steps|
  {
    steps != [] ==> fine(s, steps[0]) && AllFine(fine, after, after(s, steps[0]), steps[1..])
  }

  ghost function RunAll<S, T>(after: (S, T) -> S, s: S, steps: seq<T>): S
    decreases |steps|
  {
    if steps == [] then s else RunAll(after, after(s, steps[0]), steps[1..])
  }

  /** What every fine step keeps, every run of fine steps keeps. */
  lemma {:induction false} RunKeeps<S(!new), T(!new)>(inv: S -> bool, fine: (S, T) -> bool, after: (S, T) -> S,
                                                      s: S, steps: seq<T>)
    requires forall r, t :: inv(r) && fine(r, t) ==> inv(after(r, t))
    requires inv(s) && AllFine(fine, after, s, steps)
    ensures inv(RunAll(after, s, steps))
    decreases |steps|
  {
    if steps != [] {
      RunKeeps(inv, fine, after, after(s, steps[0]), steps[1..]);
    }
  }

  /** What a run of fine steps does at position `k`. */
  lemma {:induction false} RunAt<S, T>(fine: (S, T) -> bool, after: (S, T) -> S, s: S, steps: seq<T>, k: nat)
    requires AllFine(fine, after, s, steps) && k < |steps|
    ensures fine(RunAll(after, s, steps[..k]), steps[k])
    ensures RunAll(after, s, steps[..k + 1]) == after(RunAll(after, s, steps[..k]), steps[k])
    decreases k
  {
    if k > 0 {
      RunAt(fine, after, after(s, steps[0]), steps[1..], k - 1);
      assert steps[..k][1..] == steps[1..][..k - 1] && steps[..k + 1][1..] == steps[1..][..k];
    } else {
      assert steps[..1][1..] == [];
    }
  }

  /** One more fine step at the end. */
  lemma {:induction false} SnocRun<S, T>(fine: (S, T) -> bool, after: (S, T) -> S, s: S, steps: seq<T>, t: T)
    requires AllFine(fine, after, s, steps) && fine(RunAll(after, s, steps), t)
    ensures AllFine(fine, after, s, steps + [t])
    ensures RunAll(after, s, steps + [t]) == after(RunAll(after, s, steps), t)
    decreases |steps|
  {
    if steps == [] {
      assert [] + [t] == [t];
    } else {
      SnocRun(fine, after, after(s, steps[0]), steps[1..], t);
      assert (steps + [t])[1..] == steps[1..] + [t];
    }
  }

  lemma RunOfFour<S, T>(fine: (S, T) -> bool, after: (S, T) -> S, s: S, t1: T, t2: T, t3: T, t4: T)
    requires fine(s, t1) && fine(after(s, t1), t2) && fine(after(after(s, t1), t2), t3)
    requires fine(after(after(after(s, t1), t2), t3), t4)
    ensures AllFine(fine, after, s, [t1, t2, t3, t4])
    ensures RunAll(after, s, [t1, t2, t3, t4]) == after(after(after(after(s, t1), t2), t3), t4)
  {
    var s1 := after(s, t1);
    var s2 := after(s1, t2);
    var s3 := after(s2, t3);
    ConsRun(fine, after, s3, t4, []);
    ConsRun(fine, after, s2, t3, [t4]);
    ConsRun(fine, after, s1, t2, [t3, t4]);
    ConsRun(fine, after, s, t1, [t2, t3, t4]);
    assert [t1, t2, t3, t4] == [t1] + [t2, t3, t4] && [t2, t3, t4] == [t2] + [t3, t4] && [t3, t4] == [t3] + [t4];
    assert [t4] + [] == [t4];
  }

  lemma ConsRun<S, T>(fine: (S, T) -> bool, after: (S, T) -> S, s: S, t: T, rest: seq<T>)
    requires fine(s, t) && AllFine(fine, after, after(s, t), rest)
    ensures AllFine(fine, after, s, [t] + rest)
    ensures RunAll(after, s, [t] + rest) == RunAll(after, after(s, t), rest)
  {
    assert ([t] + rest)[1..] == rest;
  }
}
