/** The playback scheduler: buffers are queued back to back at a next-start cursor. */
module Playback {

  datatype Slot = Slot(start: real, duration: real)

  function End(s: Slot): real {
    s.start + s.duration
  }

  const MAX_AHEAD := 0.5

  /** From index `from` on, every slot ends before every later one starts. */
  predicate Disjoint(slots: seq<Slot>, from: nat) {
    forall i, j :: from <= i < j < |slots| ==> End(slots[i]) <= slots[j].start
  }

  predicate EndBy(slots: seq<Slot>, from: nat, t: real) {
    forall i :: from <= i < |slots| ==> End(slots[i]) <= t
  }

  lemma DisjointSnoc(slots: seq<Slot>, from: nat, s: Slot)
    requires Disjoint(slots, from) && EndBy(slots, from, s.start) && s.duration >= 0.0
    ensures Disjoint(slots + [s], from) && EndBy(slots + [s], from, End(s))
  {
  }

  class AudioPlayer {
    var nextStartTime: real
    var isPlaying: bool
    var scheduled: seq<Slot>
    ghost var from: nat    // the first slot since the last latency reset or clear
    ghost var clock: real

    /** The slots since the last reset or clear are in order and do not overlap, and each ends
        before the cursor or has already ended. */
    ghost predicate Valid()
      reads this
    {
      && clock >= 0.0 && nextStartTime >= 0.0 && from <= |scheduled|
      && (forall i :: 0 <= i < |scheduled| ==> scheduled[i].duration >= 0.0)
      && Disjoint(scheduled, from)
      && (EndBy(scheduled, from, nextStartTime) || EndBy(scheduled, from, clock))
      && (nextStartTime > 0.0 ==> |scheduled| > 0 && nextStartTime == End(Last()))
    }

    function Last(): Slot
      reads this
      requires scheduled != []
    {
      scheduled[|scheduled| - 1]
    }

    constructor ()
      ensures Valid() && scheduled == [] && nextStartTime == 0.0 && !isPlaying && clock == 0.0
    {
      nextStartTime, isPlaying, scheduled, from, clock := 0.0, false, [], 0, 0.0;
    }

    /** `scheduleAudioBuffer`: starts no earlier than now and at most half a second after it,
        without a gap to audio still queued; only a longer queue is cut off. */
    method ScheduleAudioBuffer(duration: real, now: real)
      requires Valid() && duration >= 0.0 && now >= clock
      modifies this
      ensures Valid() && clock == now && isPlaying
      ensures |scheduled| == |old(scheduled)| + 1 && old(scheduled) <= scheduled
      ensures forall i, j :: from <= i < j < |scheduled| ==>
                scheduled[i].start + scheduled[i].duration <= scheduled[j].start
      ensures Last().duration == duration && now <= Last().start <= now + 0.5
      ensures Last().start == if now <= old(nextStartTime) <= now + 0.5 then old(nextStartTime) else now
      ensures from == if old(nextStartTime) > now + 0.5 then |old(scheduled)| else old(from)
      ensures nextStartTime == Last().start + duration
    {
      var currentTime := now;
      var startTime := if currentTime < nextStartTime then nextStartTime else currentTime;
      if startTime - currentTime > MAX_AHEAD {
        startTime := currentTime;
        nextStartTime := currentTime;
        from := |scheduled|;
      }
      DisjointSnoc(scheduled, from, Slot(startTime, duration));
      scheduled := scheduled + [Slot(startTime, duration)];
      nextStartTime := startTime + duration;
      isPlaying := true;
      clock := now;
    }

    /** `source.onended`: the cursor is dropped only when nothing queued is left to play, so the
        next buffer still starts after all of them. */
    method OnEnded(now: real)
      requires Valid() && now >= clock
      modifies `nextStartTime, `isPlaying, `clock
      ensures Valid() && clock == now
      ensures nextStartTime == (if old(nextStartTime) <= now then 0.0 else old(nextStartTime))
      ensures old(nextStartTime) <= now ==>
                !isPlaying && forall i :: from <= i < |scheduled| ==> End(scheduled[i]) <= now
      ensures old(nextStartTime) > now ==> isPlaying == old(isPlaying)
    {
      clock := now;
      if nextStartTime <= now {
        nextStartTime := 0.0;
        isPlaying := false;
      }
    }

    method ClearQueue()
      requires Valid()
      modifies this
      ensures Valid() && nextStartTime == 0.0 && !isPlaying
      ensures scheduled == old(scheduled) && from == |scheduled| && clock == old(clock)
    {
      nextStartTime := 0.0;
      isPlaying := false;
      from := |scheduled|;
    }
  }
}
