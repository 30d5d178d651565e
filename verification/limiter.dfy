/** The coalescing of API-key usage updates: the clock is read before the lock is taken, so
    calls may enter the locked section out of clock order. */
module Limiter {
  import opened Counting
  import opened Runs

  type KeyId = nat
  type CallId = nat

  /** The module-level state: keys with an update in flight, and the time each was last
      scheduled. */
  datatype Shared = Shared(inflight: set<KeyId>, last: map<KeyId, real>)

  /** The locked section refuses a key in flight, and one scheduled less than a TTL ago. */
  predicate Refuses(sh: Shared, key: KeyId, now: real, ttl: real) {
    key in sh.inflight || (ttl > 0.0 && key in sh.last && now - sh.last[key] < ttl)
  }

  function Grant(sh: Shared, key: KeyId, now: real): Shared {
    Shared(sh.inflight + {key}, sh.last[key := now])
  }

  class KeyUsage {
    var inflight: set<KeyId>
    var last: map<KeyId, real>

    constructor ()
      ensures inflight == {} && last == map[]
    {
      inflight, last := {}, map[];
    }

    /** `_schedule_mark_api_key_used` from the moment it holds the lock; `now` was read before. */
    method Schedule(key: KeyId, now: real, ttl: real) returns (started: bool)
      modifies this
      ensures started == !Refuses(old(Shared(inflight, last)), key, now, ttl)
      ensures started <==> key !in old(inflight) && (ttl <= 0.0 || key !in old(last) || now - old(last)[key] >= ttl)
      ensures started ==> inflight == old(inflight) + {key} && last == old(last)[key := now]
      ensures !started ==> inflight == old(inflight) && last == old(last)
      ensures Shared(inflight, last) ==
              if started then Grant(old(Shared(inflight, last)), key, now) else old(Shared(inflight, last))
    {
      if key in inflight {
        return false;
      }
      if ttl > 0.0 && key in last && now - last[key] < ttl {
        return false;
      }
      last := last[key := now];
      inflight := inflight + {key};
      started := true;
    }

    /** The `finally` block of the background task, however the task ended. */
    method Finish(key: KeyId)
      modifies `inflight
      ensures inflight == old(inflight) - {key}
    {
      inflight := inflight - {key};
    }
  }

  // ---------------------------------------------------------------- interleavings

  /** A call after its clock read, after its grant, and as a background task. */
  datatype Phase = Reading(key: KeyId, now: real) | Granted(key: KeyId) | Running(key: KeyId)

  datatype State = State(clock: real, calls: map<CallId, Phase>, shared: Shared, granted: map<KeyId, seq<real>>)

  datatype Step =
    | Tick(now: real)
    | ReadClock(call: CallId, key: KeyId)
    | Lock(call: CallId)
    | Spawn(call: CallId)
    | Finish(call: CallId)

  predicate Enabled(s: State, t: Step) {
    match t
    case Tick(now) => now >= s.clock
    case ReadClock(call, _) => call !in s.calls
    case Lock(call) => call in s.calls && s.calls[call].Reading?
    case Spawn(call) => call in s.calls && s.calls[call].Granted?
    case Finish(call) => call in s.calls && s.calls[call].Running?
  }

  /** The times recorded for a key, oldest first. */
  function Recorded(s: State, key: KeyId): seq<real> {
    if key in s.granted then s.granted[key] else []
  }

  /** The state after a step; a step that is not enabled does nothing. */
  function Next(s: State, t: Step, ttl: real): State {
    if !Enabled(s, t) then s
    else
      match t
      case Tick(now) => s.(clock := now)
      case ReadClock(call, key) => s.(calls := s.calls[call := Reading(key, s.clock)])
      case Lock(call) =>
        var p := s.calls[call];
        if Refuses(s.shared, p.key, p.now, ttl) then s.(calls := s.calls - {call})
        else s.(calls := s.calls[call := Granted(p.key)], shared := Grant(s.shared, p.key, p.now),
                granted := s.granted[p.key := Recorded(s, p.key) + [p.now]])
      case Spawn(call) => s.(calls := s.calls[call := Running(s.calls[call].key)])
      case Finish(call) =>
        s.(calls := s.calls - {call}, shared := s.shared.(inflight := s.shared.inflight - {s.calls[call].key}))
  }

  function Advance(ttl: real): (State, Step) -> State {
    (s, t) => Next(s, t, ttl)
  }

  /** The call holds an update for its key: granted, or running as a task. */
  predicate Live(s: State, call: CallId, key: KeyId) {
    call in s.calls && s.calls[call].key == key && !s.calls[call].Reading?
  }

  ghost predicate OneLiveEach(s: State) {
    && (forall a, b, key :: Live(s, a, key) && Live(s, b, key) ==> a == b)
    && (forall key :: key in s.shared.inflight <==> exists a :: Live(s, a, key))
  }

  /** Neighbouring times are at least `gap` apart. */
  predicate Spaced(times: seq<real>, gap: real) {
    forall i :: 0 < i < |times| ==> times[i] - times[i - 1] >= gap
  }

  /** The recorded times end with the one the dictionary remembers. */
  ghost predicate Remembered(s: State) {
    forall key ::
      (key in s.shared.last <==> Recorded(s, key) != []) &&
      (key in s.shared.last ==> s.shared.last[key] == Recorded(s, key)[|Recorded(s, key)| - 1])
  }

  ghost predicate Inv(s: State, ttl: real) {
    OneLiveEach(s) && Remembered(s) && (ttl > 0.0 ==> forall key :: Spaced(Recorded(s, key), ttl))
  }

  const INITIAL := State(0.0, map[], Shared({}, map[]), map[])

  lemma InitialInv(ttl: real)
    ensures Inv(INITIAL, ttl)
  {
  }

  /** Every step of every task keeps the invariant, whatever times the waiting calls hold. */
  lemma StepKeepsInv(s: State, t: Step, ttl: real)
    requires Inv(s, ttl) && Enabled(s, t)
    ensures Inv(Next(s, t, ttl), ttl)
  {
    StepKeepsLive(s, t, ttl);
    var n := Next(s, t, ttl);
    forall key
      ensures (key in n.shared.last <==> Recorded(n, key) != [])
      ensures key in n.shared.last ==> n.shared.last[key] == Recorded(n, key)[|Recorded(n, key)| - 1]
      ensures ttl > 0.0 ==> Spaced(Recorded(n, key), ttl)
    {
      RecordedNext(s, t, ttl, key);
    }
  }

  lemma RecordedNext(s: State, t: Step, ttl: real, key: KeyId)
    requires Enabled(s, t) && Remembered(s) && (ttl > 0.0 ==> Spaced(Recorded(s, key), ttl))
    ensures var n := Next(s, t, ttl);
            && (key in n.shared.last <==> Recorded(n, key) != [])
            && (key in n.shared.last ==> n.shared.last[key] == Recorded(n, key)[|Recorded(n, key)| - 1])
            && (ttl > 0.0 ==> Spaced(Recorded(n, key), ttl))
  {
    assert key in s.shared.last <==> Recorded(s, key) != [];
  }

  lemma StepKeepsLive(s: State, t: Step, ttl: real)
    requires OneLiveEach(s) && Enabled(s, t)
    ensures OneLiveEach(Next(s, t, ttl))
  {
    var n := Next(s, t, ttl);
    var granting := t.Lock? && n.shared != s.shared;
    forall a, key ensures Live(n, a, key) <==>
      if granting && a == t.call then key == s.calls[a].key
      else if t.Finish? && a == t.call then false
      else Live(s, a, key)
    {
    }
    forall key ensures key in n.shared.inflight <==> exists a :: Live(n, a, key) {
      if t.Finish? && key == s.calls[t.call].key {
        assert Live(s, t.call, key);
      } else if granting && key == s.calls[t.call].key {
        assert Live(n, t.call, key);
      } else if key in s.shared.inflight {
        var a :| Live(s, a, key);
        assert Live(n, a, key);
      }
    }
  }

  ghost predicate ValidRun(steps: seq<Step>, ttl: real) {
    AllFine(Enabled, Advance(ttl), INITIAL, steps)
  }

  ghost function After(steps: seq<Step>, ttl: real): State {
    RunAll(Advance(ttl), INITIAL, steps)
  }

  lemma RunKeepsInv(steps: seq<Step>, ttl: real)
    requires ValidRun(steps, ttl)
    ensures Inv(After(steps, ttl), ttl)
  {
    InitialInv(ttl);
    forall s, t | Inv(s, ttl) && Enabled(s, t) ensures Inv(Advance(ttl)(s, t), ttl) {
      StepKeepsInv(s, t, ttl);
    }
    RunKeeps((s: State) => Inv(s, ttl), Enabled, Advance(ttl), INITIAL, steps);
  }

  // ---------------------------------------------------------------- rate

  lemma {:induction false} SpacedApart(times: seq<real>, gap: real, i: nat, j: nat)
    requires Spaced(times, gap) && i <= j < |times|
    ensures times[j] - times[i] >= (j - i) as real * gap
    decreases j
  {
    if i < j {
      SpacedApart(times, gap, i, j - 1);
      assert (j - i) as real * gap == (j - 1 - i) as real * gap + gap;
    }
  }

  lemma Multiple(k: nat, gap: real, length: real)
    requires gap > 0.0 && k <= (length / gap).Floor
    ensures 0.0 <= k as real * gap <= length
  {
    assert k as real <= length / gap;
    assert length / gap * gap == length;
  }

  lemma Quotient(n: int, gap: real, length: real)
    requires gap > 0.0 && n as real * gap <= length
    ensures n <= (length / gap).Floor
  {
    assert length / gap * gap == length;
    assert n as real <= length / gap;
  }

  /** Whatever the interleaving, any window of the given length holds at most
      floor(length / TTL) + 1 of the recorded times of one key. */
  lemma WindowBound(steps: seq<Step>, ttl: real, key: KeyId, from: real, length: real)
    requires ttl > 0.0 && length >= 0.0 && ValidRun(steps, ttl)
    ensures var times := Recorded(After(steps, ttl), key);
            |set k | 0 <= k < |times| && from <= times[k] <= from + length| <= (length / ttl).Floor + 1
  {
    RunKeepsInv(steps, ttl);
    Quotient(0, ttl, length);
    var times := Recorded(After(steps, ttl), key);
    var inside := set k | 0 <= k < |times| && from <= times[k] <= from + length;
    forall i, j | i in inside && j in inside ensures j - i < (length / ttl).Floor + 1 {
      if i <= j {
        SpacedApart(times, ttl, i, j);
        Quotient(j - i, ttl, length);
      }
    }
    SpanCount(inside, (length / ttl).Floor + 1);
  }

  /** One more use of the key, by a call whose update finishes before the next call. */
  lemma UseAgain(steps: seq<Step>, ttl: real, key: KeyId, now: real) returns (more: seq<Step>)
    requires ValidRun(steps, ttl) && After(steps, ttl).calls == map[] && now >= After(steps, ttl).clock
    requires var times := Recorded(After(steps, ttl), key);
             times != [] ==> now - times[|times| - 1] >= ttl
    ensures ValidRun(more, ttl) && After(more, ttl).calls == map[] && After(more, ttl).clock == now
    ensures Recorded(After(more, ttl), key) == Recorded(After(steps, ttl), key) + [now]
  {
    RunKeepsInv(steps, ttl);
    assert forall a :: !Live(After(steps, ttl), a, key);
    more := RunOn(steps, ttl, Tick(now));
    more := RunOn(more, ttl, ReadClock(0, key));
    more := RunOn(more, ttl, Lock(0));
    more := RunOn(more, ttl, Spawn(0));
    more := RunOn(more, ttl, Finish(0));
  }

  lemma RunOn(steps: seq<Step>, ttl: real, t: Step) returns (more: seq<Step>)
    requires ValidRun(steps, ttl) && Enabled(After(steps, ttl), t)
    ensures ValidRun(more, ttl) && After(more, ttl) == Next(After(steps, ttl), t, ttl)
  {
    SnocRun(Enabled, Advance(ttl), INITIAL, steps, t);
    more := steps + [t];
  }

  lemma {:induction false} UseSteadily(n: nat, ttl: real, key: KeyId, from: real) returns (steps: seq<Step>)
    requires ttl > 0.0 && from >= 0.0
    ensures ValidRun(steps, ttl) && After(steps, ttl).calls == map[]
    ensures After(steps, ttl).clock == if n == 0 then 0.0 else from + (n - 1) as real * ttl
    ensures var times := Recorded(After(steps, ttl), key);
            |times| == n && forall k :: 0 <= k < n ==> times[k] == from + k as real * ttl
  {
    steps := [];
    if n > 0 {
      steps := UseSteadily(n - 1, ttl, key, from);
      assert n > 1 ==> (n - 1) as real * ttl == (n - 2) as real * ttl + ttl;
      steps := UseAgain(steps, ttl, key, from + (n - 1) as real * ttl);
    }
  }

  /** The bound is attained: of a key used every TTL that many times lie in the window. */
  lemma WindowBoundReached(ttl: real, key: KeyId, from: real, length: real) returns (steps: seq<Step>)
    requires ttl > 0.0 && from >= 0.0 && length >= 0.0
    ensures ValidRun(steps, ttl)
    ensures var times := Recorded(After(steps, ttl), key);
            |times| == (length / ttl).Floor + 1
            && forall k :: 0 <= k < |times| ==> from <= times[k] <= from + length
  {
    Quotient(0, ttl, length);
    var n := (length / ttl).Floor + 1;
    steps := UseSteadily(n, ttl, key, from);
    var times := Recorded(After(steps, ttl), key);
    forall k | 0 <= k < |times| ensures from <= times[k] <= from + length {
      Multiple(k, ttl, length);
    }
  }

  /** Whatever the interleaving and the TTL, a key never has two live updates. */
  lemma AtMostOneLive(steps: seq<Step>, ttl: real, key: KeyId, a: CallId, b: CallId)
    requires ValidRun(steps, ttl)
    requires Live(After(steps, ttl), a, key) && Live(After(steps, ttl), b, key)
    ensures a == b
  {
    RunKeepsInv(steps, ttl);
  }

  /** The locked section grants exactly when no update of the key is live and, with a positive
      TTL, the call's clock read is at least a TTL after the last recorded time. */
  lemma GrantExactly(s: State, call: CallId, ttl: real)
    requires Inv(s, ttl) && Enabled(s, Lock(call))
    ensures var key, now, times := s.calls[call].key, s.calls[call].now, Recorded(s, s.calls[call].key);
            Live(Next(s, Lock(call), ttl), call, key) <==>
              (forall a :: !Live(s, a, key)) &&
              (ttl > 0.0 && times != [] ==> now - times[|times| - 1] >= ttl)
  {
    var key := s.calls[call].key;
    if key in s.shared.inflight {
      var a :| Live(s, a, key);
    }
  }
}
