/** Idle triggers: a behavior fires once for each silence of a relationship. */
module IdleTriggers {
  import opened Counting
  import opened Text

  type Rel = nat
  type Companion = nat

  /** A stored trigger: `{"type": "idle", "minutes": n}`, the text `idle:n`, or another kind.
      A missing or unparsable number is None. */
  datatype Trigger = IdleObject(minutes: Option<int>) | IdleText(minutes: Option<int>) | OtherTrigger

  /** A link to a behavior with idle triggers: for one relationship or for a whole companion. */
  datatype Link = Link(key: string, companion: Companion, rel: Option<Rel>, triggers: seq<Trigger>)

  /** An idle job: made at `createdAt` for the silence since the message at `since`. */
  datatype IdleJob = IdleJob(rel: Rel, key: string, since: int, createdAt: int)

  /** The threshold of the first usable idle trigger; text that does not parse is skipped, an
      object without minutes is not. */
  function Minutes(triggers: seq<Trigger>): Option<int> {
    if triggers == [] then None
    else match triggers[0]
      case IdleObject(m) => m
      case IdleText(m) => if m.None? then Minutes(triggers[1..]) else m
      case OtherTrigger => Minutes(triggers[1..])
  }

  /** `MAX(created_at)` of a relationship's messages. */
  function LastMessage(times: seq<int>): (last: Option<int>)
    ensures last.None? <==> times == []
    ensures last.Some? ==> last.value in times && forall t :: t in times ==> t <= last.value
  {
    if times == [] then None
    else
      var rest := LastMessage(times[..|times| - 1]);
      var t := times[|times| - 1];
      assert forall x :: x in times ==> x == t || x in times[..|times| - 1];
      if rest.Some? && rest.value > t then rest else Some(t)
  }

  predicate IsIdle(times: seq<int>, minutes: int, now: int) {
    times != [] && LastMessage(times).value < now - minutes
  }

  /** The duplicate check: an idle job for this pair after the last message. */
  predicate Fired(jobs: seq<IdleJob>, rel: Rel, key: string, last: int) {
    exists i :: 0 <= i < |jobs| && jobs[i].rel == rel && jobs[i].key == key && jobs[i].createdAt > last
  }

  /** Every job answers a message not after it, and between two jobs of one pair there is a
      message: no earlier than the first job, not after the second. */
  predicate Spaced(jobs: seq<IdleJob>, messages: map<Rel, seq<int>>) {
    && (forall i :: 0 <= i < |jobs| ==>
          jobs[i].rel in messages && jobs[i].since in messages[jobs[i].rel] && jobs[i].since <= jobs[i].createdAt)
    && (forall i, j :: 0 <= i < j < |jobs| && jobs[i].rel == jobs[j].rel && jobs[i].key == jobs[j].key ==>
          jobs[i].createdAt <= jobs[j].since)
  }

  /** So if every job follows a silence, the jobs of one pair never outnumber the relationship's
      messages: no two of them answer the same one. */
  lemma JobsBoundedByMessages(jobs: seq<IdleJob>, messages: map<Rel, seq<int>>, rel: Rel, key: string)
    requires Spaced(jobs, messages) && rel in messages
    requires forall i :: 0 <= i < |jobs| ==> jobs[i].since < jobs[i].createdAt
    ensures |set i | 0 <= i < |jobs| && jobs[i].rel == rel && jobs[i].key == key| <= |messages[rel]|
  {
    var own := set i | 0 <= i < |jobs| && jobs[i].rel == rel && jobs[i].key == key;
    var answered := map i | i in own :: jobs[i].since;
    assert forall i, j :: i in own && j in own && i < j ==> answered[i] < answered[j];
    InjectionFits(answered, messages[rel]);
    assert answered.Keys == own;
  }

  /** The check and the insert for one idle relationship. */
  function FireOnce(jobs: seq<IdleJob>, rel: Rel, key: string, last: int, now: int): seq<IdleJob> {
    if Fired(jobs, rel, key, last) then jobs else jobs + [IdleJob(rel, key, last, now)]
  }

  /** Polling again at the same instant adds nothing exactly when the pair had already fired or
      its last message is in the past, as every non-negative threshold guarantees. */
  lemma RepeatIsQuiet(jobs: seq<IdleJob>, rel: Rel, key: string, last: int, now: int)
    ensures FireOnce(FireOnce(jobs, rel, key, last, now), rel, key, last, now) == FireOnce(jobs, rel, key, last, now)
       <==> Fired(jobs, rel, key, last) || last < now
  {
    var once := FireOnce(jobs, rel, key, last, now);
    if !Fired(jobs, rel, key, last) {
      assert once[|jobs|] == IdleJob(rel, key, last, now);
      assert forall i :: 0 <= i < |jobs| ==>
        once[i] == jobs[i] && !(jobs[i].rel == rel && jobs[i].key == key && jobs[i].createdAt > last);
      assert Fired(once, rel, key, last) <==> last < now;
    }
  }

  /** The relationships table: the companion and the message times of each. */
  datatype Tables = Tables(companions: map<Rel, Companion>, messages: map<Rel, seq<int>>)

  predicate InScope(t: Tables, link: Link, rel: Rel) {
    && rel in t.companions && rel in t.messages
    && if link.rel.Some? then rel == link.rel.value else t.companions[rel] == link.companion
  }

  function IdleRels(t: Tables, link: Link, minutes: int, now: int): set<Rel> {
    set rel | rel in t.companions && InScope(t, link, rel) && IsIdle(t.messages[rel], minutes, now)
  }

  /** The threshold, read off the trigger list: that of the first idle object, or idle text with a
      number, if no idle object without minutes comes before. */
  predicate Threshold(triggers: seq<Trigger>, m: int) {
    exists i :: 0 <= i < |triggers| && !triggers[i].OtherTrigger? && triggers[i].minutes == Some(m)
                && forall j :: 0 <= j < i ==> triggers[j].OtherTrigger? || triggers[j] == IdleText(None)
  }

  lemma {:induction false} MinutesThreshold(triggers: seq<Trigger>, m: int)
    ensures Minutes(triggers) == Some(m) <==> Threshold(triggers, m)
  {
    if triggers != [] {
      var rest := triggers[1..];
      MinutesThreshold(rest, m);
      if triggers[0].OtherTrigger? || triggers[0] == IdleText(None) {
        if Threshold(rest, m) {
          var i :| 0 <= i < |rest| && !rest[i].OtherTrigger? && rest[i].minutes == Some(m)
                   && forall j :: 0 <= j < i ==> rest[j].OtherTrigger? || rest[j] == IdleText(None);
          assert triggers[i + 1] == rest[i];
          assert forall j :: 0 < j < i + 1 ==> triggers[j] == rest[j - 1];
        }
        if Threshold(triggers, m) {
          var i :| 0 <= i < |triggers| && !triggers[i].OtherTrigger? && triggers[i].minutes == Some(m)
                   && forall j :: 0 <= j < i ==> triggers[j].OtherTrigger? || triggers[j] == IdleText(None);
          assert rest[i - 1] == triggers[i];
          assert forall j :: 0 <= j < i - 1 ==> rest[j] == triggers[j + 1];
        }
      } else {
        assert triggers[0].minutes == Some(m) ==> Threshold(triggers, m);
      }
    }
  }

  predicate Latest(times: seq<int>, last: int) {
    last in times && forall t :: t in times ==> t <= last
  }

  /** In the link's scope, with messages, and none within the threshold. */
  predicate SilentFor(t: Tables, link: Link, r: Rel, m: int, now: int) {
    && r in t.companions && r in t.messages && t.messages[r] != []
    && (link.rel.Some? ==> r == link.rel.value) && (link.rel.None? ==> t.companions[r] == link.companion)
    && forall time :: time in t.messages[r] ==> time + m < now
  }

  lemma SilentIsIdle(t: Tables, link: Link, m: int, now: int)
    ensures forall r :: r in IdleRels(t, link, m, now) <==> SilentFor(t, link, r, m, now)
  {
  }

  /** A new job: made now, for the latest message of a relationship that has been silent for the
      threshold, which is not zero, of some link with its key. */
  ghost predicate FitsPoll(t: Tables, job: IdleJob, links: seq<Link>, now: int) {
    && job.createdAt == now && job.rel in t.messages && Latest(t.messages[job.rel], job.since)
    && exists n, m :: 0 <= n < |links| && links[n].key == job.key && Threshold(links[n].triggers, m) && m != 0
                      && SilentFor(t, links[n], job.rel, m, now)
  }

  /** Every relationship that has been silent for the link's threshold, when they are at most a
      hundred, has a job after its latest message; for a message of this instant, one made now. */
  ghost predicate Served(t: Tables, jobs: seq<IdleJob>, link: Link, now: int) {
    forall r, m, last ::
      Threshold(link.triggers, m) && m != 0 && SilentFor(t, link, r, m, now) && Latest(t.messages[r], last)
      && |set x | x in t.companions && SilentFor(t, link, x, m, now)| <= 100 ==>
        exists i :: 0 <= i < |jobs| && jobs[i].rel == r && jobs[i].key == link.key
                    && (jobs[i].createdAt > last || (last == jobs[i].since && jobs[i].createdAt == now))
  }

  lemma JustifiedFits(t: Tables, job: IdleJob, links: seq<Link>, now: int)
    requires Justified(t, job, links, now)
    ensures FitsPoll(t, job, links, now)
  {
    var n :| 0 <= n < |links| && links[n].key == job.key && Minutes(links[n].triggers).Some?
             && Minutes(links[n].triggers).value != 0
             && job.rel in IdleRels(t, links[n], Minutes(links[n].triggers).value, now);
    var m := Minutes(links[n].triggers).value;
    MinutesThreshold(links[n].triggers, m);
    SilentIsIdle(t, links[n], m, now);
  }

  lemma DueServed(t: Tables, jobs: seq<IdleJob>, link: Link, now: int)
    requires AllDueFired(t, jobs, link, now)
    ensures Served(t, jobs, link, now)
  {
    forall r, m, last |
      Threshold(link.triggers, m) && m != 0 && SilentFor(t, link, r, m, now) && Latest(t.messages[r], last)
      && |set x | x in t.companions && SilentFor(t, link, x, m, now)| <= 100
      ensures exists i :: 0 <= i < |jobs| && jobs[i].rel == r && jobs[i].key == link.key
                          && (jobs[i].createdAt > last || (last == jobs[i].since && jobs[i].createdAt == now))
    {
      MinutesThreshold(link.triggers, m);
      SilentIsIdle(t, link, m, now);
      assert IdleRels(t, link, m, now) == set x | x in t.companions && SilentFor(t, link, x, m, now);
      assert LastMessage(t.messages[r]).value == last;
    }
  }

  /** The relationships a link must have fired for after a poll: all its idle ones, unless the
      query cut them off at 100. */
  function Due(t: Tables, link: Link, now: int): set<Rel> {
    var m := Minutes(link.triggers);
    if m.None? || m.value == 0 then {}
    else
      var idle := IdleRels(t, link, m.value, now);
      if |idle| <= 100 then idle else {}
  }

  /** The job was made now, for a link whose threshold its relationship has passed. */
  predicate Justified(t: Tables, job: IdleJob, links: seq<Link>, now: int) {
    job.createdAt == now && job.rel in t.messages && LastMessage(t.messages[job.rel]) == Some(job.since) &&
    exists n :: 0 <= n < |links| && links[n].key == job.key && Minutes(links[n].triggers).Some?
                && Minutes(links[n].triggers).value != 0
                && job.rel in IdleRels(t, links[n], Minutes(links[n].triggers).value, now)
  }

  /** A job that the duplicate check finds; for a message of this very instant, which it cannot
      find, the job itself. */
  predicate Answered(jobs: seq<IdleJob>, rel: Rel, key: string, last: int, now: int) {
    if last < now then Fired(jobs, rel, key, last) else IdleJob(rel, key, last, now) in jobs
  }

  predicate AllDueFired(t: Tables, jobs: seq<IdleJob>, link: Link, now: int) {
    forall r :: r in Due(t, link, now) ==>
      t.messages[r] != [] && Answered(jobs, r, link.key, LastMessage(t.messages[r]).value, now)
  }

  class IdleStore {
    var tables: Tables
    var jobs: seq<IdleJob>
    var clock: int

    ghost predicate Valid()
      reads this
    {
      && tables.messages.Keys == tables.companions.Keys
      && (forall r :: r in tables.messages ==> forall t :: t in tables.messages[r] ==> t <= clock)
      && (forall j :: j in jobs ==> j.createdAt <= clock)
      && Spaced(jobs, tables.messages)
    }

    constructor ()
      ensures Valid() && jobs == [] && tables == Tables(map[], map[]) && clock == 0
    {
      tables, jobs, clock := Tables(map[], map[]), [], 0;
    }

    method AddRelationship(rel: Rel, companion: Companion)
      requires Valid() && rel !in tables.companions
      modifies `tables
      ensures Valid()
      ensures tables == Tables(old(tables).companions[rel := companion], old(tables).messages[rel := []])
    {
      tables := Tables(tables.companions[rel := companion], tables.messages[rel := []]);
    }

    method AddMessage(rel: Rel, now: int)
      requires Valid() && rel in tables.messages && now >= clock
      modifies `tables, `clock
      ensures Valid() && clock == now && tables.companions == old(tables).companions
      ensures tables.messages == old(tables).messages[rel := old(tables).messages[rel] + [now]]
    {
      tables := tables.(messages := tables.messages[rel := tables.messages[rel] + [now]]);
      clock := now;
    }

    /** The relationship query: all idle relationships in scope, or any 100 of them. */
    method SelectIdle(link: Link, minutes: int, now: int) returns (rels: set<Rel>)
      ensures rels <= IdleRels(tables, link, minutes, now) && |rels| <= 100
      ensures |IdleRels(tables, link, minutes, now)| <= 100 ==> rels == IdleRels(tables, link, minutes, now)
      ensures forall r :: r in rels ==> SilentFor(tables, link, r, minutes, now)
      ensures |rels| < 100 ==> forall r :: SilentFor(tables, link, r, minutes, now) ==> r in rels
    {
      SilentIsIdle(tables, link, minutes, now);
      rels := {};
      var rest := IdleRels(tables, link, minutes, now);
      while rest != {} && |rels| < 100
        invariant rels + rest == IdleRels(tables, link, minutes, now) && rels !! rest && |rels| <= 100
        decreases rest
      {
        var rel :| rel in rest;
        rels, rest := rels + {rel}, rest - {rel};
      }
      if rest != {} {
        assert |rels + rest| == |rels| + |rest|;
      }
    }

    /** Runs the check and insert for the selected relationships of one link. */
    method FireLink(key: string, rels: set<Rel>, now: int)
      requires Valid() && now == clock
      requires forall r :: r in rels ==> r in tables.messages && tables.messages[r] != []
      modifies `jobs
      ensures Valid()
      ensures Extends(old(jobs), jobs, tables.messages, key, rels, now)
      ensures forall r :: r in rels ==> Answered(jobs, r, key, LastMessage(tables.messages[r]).value, now)
    {
      var rest := rels;
      ghost var start := jobs;
      var messages := tables.messages;
      while rest != {}
        invariant rest <= rels && Spaced(jobs, messages) && Extends(start, jobs, messages, key, rels, now)
        invariant forall r :: r in rels - rest ==> Answered(jobs, r, key, LastMessage(messages[r]).value, now)
        decreases rest
      {
        var rel :| rel in rest;
        var last := LastMessage(messages[rel]).value;
        FireKeepsSpaced(jobs, messages, rel, key, now);
        FireKeepsFired(jobs, rel, key, last, now);
        FireExtends(start, jobs, messages, key, rels, rel, now);
        jobs := FireOnce(jobs, rel, key, last, now);
        rest := rest - {rel};
      }
    }

    method EvaluateLink(links: seq<Link>, n: nat, now: int)
      requires Valid() && clock == now && n < |links|
      modifies `jobs
      ensures Valid() && old(jobs) <= jobs
      ensures forall i :: |old(jobs)| <= i < |jobs| ==> Justified(tables, jobs[i], links, now)
      ensures AllDueFired(tables, jobs, links[n], now)
    {
      var link := links[n];
      var minutes := Minutes(link.triggers);
      if minutes.None? || minutes.value == 0 {
        return;
      }
      var rels := SelectIdle(link, minutes.value, now);
      FireLink(link.key, rels, now);
    }

    /** `_evaluate_idle_triggers`. A zero or missing threshold disables a link. Only a negative
        one, met by a message of this very instant, makes a job without a silence before it. */
    method EvaluateIdleTriggers(links: seq<Link>, now: int) returns (created: nat)
      requires Valid() && now >= clock
      modifies `jobs, `clock
      ensures Valid() && clock == now
      ensures old(jobs) <= jobs && created == |jobs| - |old(jobs)|
      ensures forall i :: |old(jobs)| <= i < |jobs| ==> FitsPoll(tables, jobs[i], links, now)
      ensures forall l :: l in links ==> Served(tables, jobs, l, now)
      ensures (forall i :: 0 <= i < |old(jobs)| ==> old(jobs)[i].since < old(jobs)[i].createdAt)
              && ((forall l, m :: l in links && Threshold(l.triggers, m) ==> m >= 0)
                  || (forall r :: r in tables.messages ==> forall m :: m in tables.messages[r] ==> m < now)) ==>
                forall i :: 0 <= i < |jobs| ==> jobs[i].since < jobs[i].createdAt
    {
      clock := now;
      var start := |jobs|;
      for n := 0 to |links|
        invariant Valid() && clock == now && old(jobs) <= jobs
        invariant forall i :: |old(jobs)| <= i < |jobs| ==> Justified(tables, jobs[i], links, now)
        invariant FiredUpTo(tables, jobs, links, n, now)
      {
        ghost var before := jobs;
        EvaluateLink(links, n, now);
        FiredNext(tables, before, jobs, links, n, now);
      }
      forall i | |old(jobs)| <= i < |jobs| ensures FitsPoll(tables, jobs[i], links, now) {
        JustifiedFits(tables, jobs[i], links, now);
      }
      forall l | l in links ensures Served(tables, jobs, l, now) {
        DueServed(tables, jobs, l, now);
      }
      created := |jobs| - start;
    }
  }

  /** `after` adds to `before` only jobs made now, for the given key and relationships and their
      latest messages. */
  predicate Extends(before: seq<IdleJob>, after: seq<IdleJob>, messages: map<Rel, seq<int>>, key: string,
                    rels: set<Rel>, now: int) {
    && before <= after
    && forall i :: |before| <= i < |after| ==>
         && after[i].rel in rels && after[i].key == key && after[i].createdAt == now
         && after[i].rel in messages && LastMessage(messages[after[i].rel]) == Some(after[i].since)
  }

  lemma FireExtends(start: seq<IdleJob>, jobs: seq<IdleJob>, messages: map<Rel, seq<int>>, key: string,
                    rels: set<Rel>, rel: Rel, now: int)
    requires Extends(start, jobs, messages, key, rels, now) && rel in rels && rel in messages && messages[rel] != []
    ensures Extends(start, FireOnce(jobs, rel, key, LastMessage(messages[rel]).value, now), messages, key, rels, now)
  {
  }

  lemma MoreFired(a: seq<IdleJob>, b: seq<IdleJob>, rel: Rel, key: string, last: int)
    requires a <= b && Fired(a, rel, key, last)
    ensures Fired(b, rel, key, last)
  {
    var i :| 0 <= i < |a| && a[i].rel == rel && a[i].key == key && a[i].createdAt > last;
    assert b[i] == a[i];
  }

  lemma MoreAnswered(a: seq<IdleJob>, b: seq<IdleJob>, rel: Rel, key: string, last: int, now: int)
    requires a <= b && Answered(a, rel, key, last, now)
    ensures Answered(b, rel, key, last, now)
  {
    if last < now {
      MoreFired(a, b, rel, key, last);
    }
  }

  lemma StillFired(t: Tables, a: seq<IdleJob>, b: seq<IdleJob>, link: Link, now: int)
    requires a <= b && AllDueFired(t, a, link, now)
    ensures AllDueFired(t, b, link, now)
  {
    forall r | r in Due(t, link, now) ensures Answered(b, r, link.key, LastMessage(t.messages[r]).value, now) {
      MoreAnswered(a, b, r, link.key, LastMessage(t.messages[r]).value, now);
    }
  }

  predicate FiredUpTo(t: Tables, jobs: seq<IdleJob>, links: seq<Link>, n: nat, now: int)
    requires n <= |links|
  {
    forall m :: 0 <= m < n ==> AllDueFired(t, jobs, links[m], now)
  }

  lemma FiredNext(t: Tables, a: seq<IdleJob>, b: seq<IdleJob>, links: seq<Link>, n: nat, now: int)
    requires n < |links| && a <= b && FiredUpTo(t, a, links, n, now) && AllDueFired(t, b, links[n], now)
    ensures FiredUpTo(t, b, links, n + 1, now)
  {
    forall m | 0 <= m < n ensures AllDueFired(t, b, links[m], now) {
      StillFired(t, a, b, links[m], now);
    }
  }

  lemma FireKeepsFired(jobs: seq<IdleJob>, rel: Rel, key: string, last: int, now: int)
    ensures var after := FireOnce(jobs, rel, key, last, now);
            && jobs <= after && (last <= now && (forall j :: j in jobs ==> j.createdAt <= now) ==>
                                   Answered(after, rel, key, last, now))
            && forall r, k, l :: Answered(jobs, r, k, l, now) ==> Answered(after, r, k, l, now)
  {
    var after := FireOnce(jobs, rel, key, last, now);
    assert !Fired(jobs, rel, key, last) ==> after[|jobs|] == IdleJob(rel, key, last, now);
    forall r, k, l | Answered(jobs, r, k, l, now) ensures Answered(after, r, k, l, now) {
      MoreAnswered(jobs, after, r, k, l, now);
    }
  }

  lemma FireKeepsSpaced(jobs: seq<IdleJob>, messages: map<Rel, seq<int>>, rel: Rel, key: string, now: int)
    requires Spaced(jobs, messages) && rel in messages && messages[rel] != []
    requires LastMessage(messages[rel]).value <= now
    ensures Spaced(FireOnce(jobs, rel, key, LastMessage(messages[rel]).value, now), messages)
  {
  }
}
