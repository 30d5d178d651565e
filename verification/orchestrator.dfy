/** Running the context layers: one after the other, or all at once under `asyncio.gather`. */
module Orchestrator {
  import opened Text

  /** A pending action or behavior as a layer returns it; the schema built from it may reject it. */
  datatype Draft = Draft(name: string, valid: bool)

  datatype Output = Output(messages: seq<string>, effects: seq<string>,
                           pendingActions: seq<Draft>, pendingBehaviors: seq<Draft>)

  datatype Outcome = Returned(out: Output) | Raised(error: string)

  /** A layer's run: the events it reports through the callback, then its outcome. */
  datatype Layer = Layer(reports: seq<string>, outcome: Outcome)

  datatype Phase = Start | Report(name: string) | Error(error: string) | End

  /** An emitted event, tagged with the layer it belongs to. */
  datatype Event = Event(layer: nat, phase: Phase)

  function Reports(names: seq<string>): (ps: seq<Phase>)
    ensures |ps| == |names| && forall k :: 0 <= k < |ps| ==> ps[k] == Report(names[k])
  {
    if names == [] then [] else Reports(names[..|names| - 1]) + [Report(names[|names| - 1])]
  }

  const REJECTED := "validation error"

  predicate AllValid(drafts: seq<Draft>) {
    forall k :: 0 <= k < |drafts| ==> drafts[k].valid
  }

  predicate Builds(out: Output) {
    AllValid(out.pendingActions) && AllValid(out.pendingBehaviors)
  }

  /** No returned output holds a draft that its schema rejects. */
  predicate AllBuild(layers: seq<Layer>) {
    forall i :: 0 <= i < |layers| && layers[i].outcome.Returned? ==> Builds(layers[i].outcome.out)
  }

  /** What goes wrong within the `try` of a layer; the sequential branch collects inside it. */
  function Failure(l: Layer, collecting: bool): Option<string> {
    match l.outcome
    case Raised(error) => Some(error)
    case Returned(out) => if collecting && !Builds(out) then Some(REJECTED) else None
  }

  /** All that one layer emits, in order. */
  function Trace(l: Layer, collecting: bool): seq<Phase> {
    var failure := Failure(l, collecting);
    [Start] + Reports(l.reports) + (if failure.Some? then [Error(failure.value), End] else [End])
  }

  const EMPTY := Output([], [], [], [])

  function Append(a: Output, b: Output): Output {
    Output(a.messages + b.messages, a.effects + b.effects,
           a.pendingActions + b.pendingActions, a.pendingBehaviors + b.pendingBehaviors)
  }

  /** The drafts before the first rejected one. */
  function Accepted(drafts: seq<Draft>): (some: seq<Draft>)
    ensures some <= drafts && (forall d :: d in some ==> d.valid)
    ensures |some| < |drafts| ==> !drafts[|some|].valid
    ensures AllValid(some) && (AllValid(drafts) ==> some == drafts)
  {
    if drafts == [] || !drafts[0].valid then []
    else
      assert [drafts[0]] + drafts[1..] == drafts;
      assert AllValid(drafts) ==> AllValid(drafts[1..]);
      [drafts[0]] + Accepted(drafts[1..])
  }

  /** What is collected of one output: all of it, or what comes before a rejected draft. */
  function Contribution(out: Output): (c: Output)
    ensures Builds(out) ==> c == out
  {
    Output(out.messages, out.effects, Accepted(out.pendingActions),
           if AllValid(out.pendingActions) then Accepted(out.pendingBehaviors) else [])
  }

  /** What the layers contribute together, in layer order; layers that raise contribute nothing. */
  function Collected(layers: seq<Layer>): Output {
    if layers == [] then EMPTY
    else
      var l := layers[|layers| - 1];
      var before := Collected(layers[..|layers| - 1]);
      if l.outcome.Returned? then Append(before, Contribution(l.outcome.out)) else before
  }

  /** The lists are those of the layers that returned, one after the other in layer order; pending
      actions up to the first rejected one, pending behaviors likewise if no action is rejected. */
  ghost predicate InLayerOrder(layers: seq<Layer>, plan: Output) {
    && plan.messages == FlatMap((l: Layer) => if l.outcome.Returned? then l.outcome.out.messages else [], layers)
    && plan.effects == FlatMap((l: Layer) => if l.outcome.Returned? then l.outcome.out.effects else [], layers)
    && plan.pendingActions
    == FlatMap((l: Layer) => if l.outcome.Returned? then Accepted(l.outcome.out.pendingActions) else [], layers)
    && plan.pendingBehaviors
    == FlatMap((l: Layer) =>
                 if l.outcome.Returned? && (forall d :: d in l.outcome.out.pendingActions ==> d.valid)
                 then Accepted(l.outcome.out.pendingBehaviors) else [], layers)
  }

  lemma {:induction false} CollectedInOrder(layers: seq<Layer>)
    ensures InLayerOrder(layers, Collected(layers))
  {
    if layers != [] {
      var before, l := layers[..|layers| - 1], layers[|layers| - 1];
      CollectedInOrder(before);
      if l.outcome.Returned? {
        var out := l.outcome.out;
        assert AllValid(out.pendingActions) <==> forall d :: d in out.pendingActions ==> d.valid;
      } else {
        var c := Collected(before);
        assert c.messages + [] == c.messages && c.effects + [] == c.effects;
        assert c.pendingActions + [] == c.pendingActions && c.pendingBehaviors + [] == c.pendingBehaviors;
      }
    }
  }

  /** Some returned output holds a draft that is not valid. */
  ghost predicate Rejects(l: Layer) {
    l.outcome.Returned? && exists d :: d in l.outcome.out.pendingActions + l.outcome.out.pendingBehaviors && !d.valid
  }

  lemma RejectsExactly(layers: seq<Layer>)
    ensures AllBuild(layers) <==> forall i :: 0 <= i < |layers| ==> !Rejects(layers[i])
  {
    forall i | 0 <= i < |layers| && layers[i].outcome.Returned?
      ensures Builds(layers[i].outcome.out) <==> !Rejects(layers[i])
    {
      var out := layers[i].outcome.out;
      if !Builds(out) {
        var k :| (0 <= k < |out.pendingActions| && !out.pendingActions[k].valid)
                 || (0 <= k < |out.pendingBehaviors| && !out.pendingBehaviors[k].valid);
        var d := if 0 <= k < |out.pendingActions| && !out.pendingActions[k].valid then out.pendingActions[k]
                 else out.pendingBehaviors[k];
        assert d in out.pendingActions + out.pendingBehaviors && !d.valid;
      }
    }
  }

  /** The schema-building loop. */
  method BuildSchemas(drafts: seq<Draft>) returns (built: seq<Draft>, ok: bool)
    ensures built == Accepted(drafts) && ok == AllValid(drafts)
  {
    built := [];
    for k := 0 to |drafts|
      invariant built == drafts[..k] && forall m :: 0 <= m < k ==> drafts[m].valid
    {
      if !drafts[k].valid {
        AcceptedStops(drafts, k);
        return built, false;
      }
      TakeSnoc(drafts, k);
      built := built + [drafts[k]];
    }
    AcceptedStops(drafts, |drafts|);
    return built, true;
  }

  lemma {:induction false} AcceptedStops(drafts: seq<Draft>, k: nat)
    requires k <= |drafts| && forall m :: 0 <= m < k ==> drafts[m].valid
    requires k < |drafts| ==> !drafts[k].valid
    ensures Accepted(drafts) == drafts[..k]
  {
    if k > 0 {
      AcceptedStops(drafts[1..], k - 1);
      assert drafts[..k] == [drafts[0]] + drafts[1..][..k - 1];
    }
  }

  /** Extends the lists with one output; a rejected draft raises with the rest not done. */
  method Collect(collected: Output, out: Output) returns (more: Output, ok: bool)
    ensures more == Append(collected, Contribution(out)) && ok == Builds(out)
  {
    more := collected.(messages := collected.messages + out.messages, effects := collected.effects + out.effects);
    assert more.pendingBehaviors + [] == more.pendingBehaviors;
    var built;
    built, ok := BuildSchemas(out.pendingActions);
    more := more.(pendingActions := more.pendingActions + built);
    if !ok {
      return;
    }
    built, ok := BuildSchemas(out.pendingBehaviors);
    more := more.(pendingBehaviors := more.pendingBehaviors + built);
  }

  /** The phases layer `i` emitted. */
  function Project(events: seq<Event>, i: nat): seq<Phase> {
    if events == [] then []
    else
      var e := events[|events| - 1];
      Project(events[..|events| - 1], i) + if e.layer == i then [e.phase] else []
  }

  lemma ProjectSnoc(events: seq<Event>, e: Event, i: nat)
    ensures Project(events + [e], i) == if e.layer == i then Project(events, i) + [e.phase] else Project(events, i)
  {
    assert (events + [e])[..|events|] == events;
  }

  predicate InRange(events: seq<Event>, n: nat) {
    forall k :: 0 <= k < |events| ==> events[k].layer < n
  }

  /** Each layer's own events are complete and in order, and no event belongs to anyone else. */
  predicate Complete(events: seq<Event>, layers: seq<Layer>, collecting: bool) {
    && (forall i :: 0 <= i < |layers| ==> Project(events, i) == Trace(layers[i], collecting))
    && InRange(events, |layers|)
  }

  /** Emits a whole trace for one layer. */
  method EmitTrace(events: seq<Event>, i: nat, phases: seq<Phase>) returns (out: seq<Event>)
    ensures events <= out
    ensures Project(out, i) == Project(events, i) + phases
    ensures forall j :: j != i ==> Project(out, j) == Project(events, j)
    ensures forall k :: |events| <= k < |out| ==> out[k].layer == i
  {
    out := events;
    for k := 0 to |phases|
      invariant events <= out
      invariant Project(out, i) == Project(events, i) + phases[..k]
      invariant forall j :: j != i ==> Project(out, j) == Project(events, j)
      invariant forall m :: |events| <= m < |out| ==> out[m].layer == i
    {
      var e := Event(i, phases[k]);
      forall j ensures Project(out + [e], j) == if j == i then Project(out, j) + [phases[k]] else Project(out, j) {
        ProjectSnoc(out, e, j);
      }
      assert phases[..k + 1] == phases[..k] + [phases[k]];
      out := out + [e];
    }
    assert phases[..|phases|] == phases;
  }

  /** The first `n` layers have emitted everything and the others nothing. */
  ghost predicate DoneUpTo(layers: seq<Layer>, n: nat, events: seq<Event>)
    requires n <= |layers|
  {
    && (forall i :: 0 <= i < n ==> Project(events, i) == Trace(layers[i], true))
    && (forall i :: i >= n ==> Project(events, i) == [])
    && InRange(events, n)
  }

  /** The sequential branch: run a layer, collect what it returns, go on after a failure of
      either; what was collected of an output with a rejected draft stays. */
  method RunSequential(layers: seq<Layer>) returns (collected: Output, events: seq<Event>)
    ensures collected == Collected(layers) && InLayerOrder(layers, collected)
    ensures Complete(events, layers, true)
  {
    collected, events := EMPTY, [];
    for n := 0 to |layers|
      invariant collected == Collected(layers[..n])
      invariant DoneUpTo(layers, n, events)
    {
      CollectedNext(layers, n);
      var failure: Option<string>;
      match layers[n].outcome {
        case Returned(out) =>
          var ok;
          collected, ok := Collect(collected, out);
          failure := if ok then None else Some(REJECTED);
        case Raised(error) =>
          failure := Some(error);
      }
      events := RunLayer(layers, n, failure, events);
    }
    assert layers[..|layers|] == layers;
    CollectedInOrder(layers);
  }

  /** The events of a layer, up to the error and the end that its `try` reports. */
  method RunLayer(layers: seq<Layer>, n: nat, failure: Option<string>, events: seq<Event>) returns (more: seq<Event>)
    requires n < |layers| && DoneUpTo(layers, n, events) && failure == Failure(layers[n], true)
    ensures DoneUpTo(layers, n + 1, more)
  {
    var phases := [Start] + Reports(layers[n].reports);
    phases := phases + if failure.Some? then [Error(failure.value), End] else [End];
    more := EmitTrace(events, n, phases);
    assert [] + phases == phases;
  }

  lemma CollectedNext(layers: seq<Layer>, n: nat)
    requires n < |layers|
    ensures Collected(layers[..n + 1]) ==
            if layers[n].outcome.Returned? then Append(Collected(layers[..n]), Contribution(layers[n].outcome.out))
            else Collected(layers[..n])
  {
    assert layers[..n + 1][..n] == layers[..n];
  }

  function Traces(layers: seq<Layer>): (ts: seq<seq<Phase>>)
    ensures |ts| == |layers| && forall i :: 0 <= i < |ts| ==> ts[i] == Trace(layers[i], false)
  {
    seq(|layers|, i requires 0 <= i < |layers| => Trace(layers[i], false))
  }

  /** The tasks with phases left to emit. */
  function Unfinished(traces: seq<seq<Phase>>, pc: seq<nat>): set<nat>
    requires |pc| == |traces|
  {
    set i: nat | i < |pc| && pc[i] < |traces[i]|
  }

  function Slot(l: Layer): Option<Output> {
    if l.outcome.Returned? then Some(l.outcome.out) else None
  }

  /** `_run_layers_parallel`: the event loop resumes any unfinished task for one more phase, in
      any order; a task that ends fills its own slot, with nothing for a failed layer. */
  method RunGather(layers: seq<Layer>) returns (slots: seq<Option<Output>>, events: seq<Event>)
    ensures |slots| == |layers|
    ensures forall i :: 0 <= i < |layers| ==> slots[i] == Slot(layers[i])
    ensures Complete(events, layers, false)
  {
    slots, events := seq(|layers|, _ => None), [];
    var traces := Traces(layers);
    var pc: seq<nat> := seq(|layers|, _ => 0);
    var running := Unfinished(traces, pc);
    while running != {}
      invariant |slots| == |pc| == |layers| && running == Unfinished(traces, pc)
      invariant InStep(traces, pc, events)
      invariant forall i :: 0 <= i < |layers| && pc[i] == |traces[i]| ==> slots[i] == Slot(layers[i])
      decreases Left(traces, pc)
    {
      var i :| i in running;
      AdvanceTask(traces, pc, events, i);
      events := events + [Event(i, traces[i][pc[i]])];
      pc := pc[i := pc[i] + 1];
      if pc[i] == |traces[i]| {
        slots := slots[i := Slot(layers[i])];
      }
      running := Unfinished(traces, pc);
    }
    forall i | 0 <= i < |layers| ensures pc[i] == |traces[i]| && Project(events, i) == traces[i] {
      assert i !in Unfinished(traces, pc);
      assert traces[i][..pc[i]] == traces[i];
    }
  }

  /** Every task has emitted exactly the first `pc` phases of its trace. */
  ghost predicate InStep(traces: seq<seq<Phase>>, pc: seq<nat>, events: seq<Event>)
    requires |pc| == |traces|
  {
    && (forall i :: 0 <= i < |traces| ==> pc[i] <= |traces[i]| && Project(events, i) == traces[i][..pc[i]])
    && InRange(events, |traces|)
  }

  lemma AdvanceTask(traces: seq<seq<Phase>>, pc: seq<nat>, events: seq<Event>, i: nat)
    requires |pc| == |traces| && InStep(traces, pc, events) && i in Unfinished(traces, pc)
    ensures InStep(traces, pc[i := pc[i] + 1], events + [Event(i, traces[i][pc[i]])])
    ensures 0 <= Left(traces, pc[i := pc[i] + 1]) < Left(traces, pc)
  {
    var e := Event(i, traces[i][pc[i]]);
    TakeSnoc(traces[i], pc[i]);
    LeftDrops(traces, pc, i);
    forall j | 0 <= j < |traces|
      ensures Project(events + [e], j) == if j == i then Project(events, j) + [e.phase] else Project(events, j)
    {
      ProjectSnoc(events, e, j);
    }
  }

  /** Phases still to be emitted. */
  ghost function Left(traces: seq<seq<Phase>>, pc: seq<nat>): int
    requires |pc| == |traces|
  {
    if traces == [] then 0
    else |traces[0]| - pc[0] + Left(traces[1..], pc[1..])
  }

  lemma {:induction false} LeftDrops(traces: seq<seq<Phase>>, pc: seq<nat>, i: nat)
    requires |pc| == |traces| && i < |pc|
    requires forall k :: 0 <= k < |pc| ==> pc[k] <= |traces[k]|
    requires pc[i] < |traces[i]|
    ensures 0 <= Left(traces, pc[i := pc[i] + 1]) < Left(traces, pc)
  {
    var up := pc[i := pc[i] + 1];
    if i == 0 {
      assert up[1..] == pc[1..];
      LeftNonNegative(traces[1..], pc[1..]);
    } else {
      assert up[1..] == pc[1..][i - 1 := pc[i] + 1];
      LeftDrops(traces[1..], pc[1..], i - 1);
    }
  }

  lemma {:induction false} LeftNonNegative(traces: seq<seq<Phase>>, pc: seq<nat>)
    requires |pc| == |traces| && forall k :: 0 <= k < |pc| ==> pc[k] <= |traces[k]|
    ensures Left(traces, pc) >= 0
  {
    if traces != [] {
      LeftNonNegative(traces[1..], pc[1..]);
    }
  }

  /** The parallel branch: gather, then collect the slots in layer order, outside any `try`: a
      rejected draft leaves no plan at all. */
  method RunParallel(layers: seq<Layer>) returns (plan: Option<Output>, events: seq<Event>)
    ensures plan == if AllBuild(layers) then Some(Collected(layers)) else None
    ensures plan.Some? ==> InLayerOrder(layers, plan.value)
    ensures Complete(events, layers, false)
  {
    var slots;
    slots, events := RunGather(layers);
    plan := CollectSlots(layers, slots);
    CollectedInOrder(layers);
  }

  method CollectSlots(ghost layers: seq<Layer>, slots: seq<Option<Output>>) returns (plan: Option<Output>)
    requires |slots| == |layers| && forall i :: 0 <= i < |layers| ==> slots[i] == Slot(layers[i])
    ensures plan == if AllBuild(layers) then Some(Collected(layers)) else None
  {
    var collected := EMPTY;
    for n := 0 to |slots|
      invariant collected == Collected(layers[..n])
      invariant forall i :: 0 <= i < n && slots[i].Some? ==> Builds(slots[i].value)
    {
      CollectedNext(layers, n);
      if slots[n].Some? {
        var ok;
        collected, ok := Collect(collected, slots[n].value);
        if !ok {
          SlotsBuild(layers, slots);
          return None;
        }
      }
    }
    SlotsBuild(layers, slots);
    assert layers[..|layers|] == layers;
    plan := Some(collected);
  }

  lemma SlotsBuild(layers: seq<Layer>, slots: seq<Option<Output>>)
    requires |slots| == |layers| && forall i :: 0 <= i < |layers| ==> slots[i] == Slot(layers[i])
    ensures AllBuild(layers) <==> forall i :: 0 <= i < |slots| && slots[i].Some? ==> Builds(slots[i].value)
  {
    forall i | 0 <= i < |layers| ensures layers[i].outcome.Returned? <==> slots[i].Some? {
      assert slots[i] == Slot(layers[i]);
    }
  }

  /** `build_context_plan`: no plan when a rejected draft escapes. */
  method RunLayers(layers: seq<Layer>, parallel: bool) returns (plan: Option<Output>, events: seq<Event>)
    ensures plan.None? <==> parallel && |layers| > 1 && exists i :: 0 <= i < |layers| && Rejects(layers[i])
    ensures plan.Some? ==> InLayerOrder(layers, plan.value)
    ensures Complete(events, layers, !(parallel && |layers| > 1))
  {
    RejectsExactly(layers);
    if parallel && |layers| > 1 {
      plan, events := RunParallel(layers);
    } else {
      var collected;
      collected, events := RunSequential(layers);
      plan := Some(collected);
    }
  }

  /** The branches make each layer emit the same exactly when no draft is rejected, which is when
      the parallel one gives the plan of the sequential one. */
  lemma BranchesAgree(layers: seq<Layer>)
    ensures (forall i :: 0 <= i < |layers| ==> Trace(layers[i], true) == Trace(layers[i], false)) <==> AllBuild(layers)
  {
    forall i | 0 <= i < |layers|
      ensures Trace(layers[i], true) == Trace(layers[i], false) <==>
              (layers[i].outcome.Returned? ==> Builds(layers[i].outcome.out))
    {
      assert |Trace(layers[i], true)| == |layers[i].reports| + if Failure(layers[i], true).Some? then 3 else 2;
      assert |Trace(layers[i], false)| == |layers[i].reports| + if Failure(layers[i], false).Some? then 3 else 2;
    }
  }

  function Occurrences(phases: seq<Phase>, p: Phase): nat {
    if phases == [] then 0
    else Occurrences(phases[..|phases| - 1], p) + if phases[|phases| - 1] == p then 1 else 0
  }

  lemma {:induction false} OccurrencesConcat(a: seq<Phase>, b: seq<Phase>, p: Phase)
    ensures Occurrences(a + b, p) == Occurrences(a, p) + Occurrences(b, p)
  {
    if b == [] {
      assert a + b == a;
    } else {
      OccurrencesConcat(a, b[..|b| - 1], p);
      assert (a + b)[..|a + b| - 1] == a + b[..|b| - 1];
    }
  }

  lemma {:induction false} ReportsOnly(names: seq<string>, p: Phase)
    requires !p.Report?
    ensures Occurrences(Reports(names), p) == 0
  {
    if names != [] {
      ReportsOnly(names[..|names| - 1], p);
      assert Reports(names)[..|names| - 1] == Reports(names[..|names| - 1]);
    }
  }

  /** In any complete run each layer starts once, first, ends once, last, and reports an error
      exactly when its `try` failed. */
  lemma LayerBracketed(events: seq<Event>, layers: seq<Layer>, collecting: bool, i: nat)
    requires Complete(events, layers, collecting) && i < |layers|
    ensures var own := Project(events, i);
            && |own| >= 2 && own[0] == Start && own[|own| - 1] == End
            && Occurrences(own, Start) == 1 && Occurrences(own, End) == 1
            && forall e :: Occurrences(own, Error(e)) == if Failure(layers[i], collecting) == Some(e) then 1 else 0
    ensures var own, l := Project(events, i), layers[i];
            && |own| == |l.reports| + (if l.outcome.Raised? || (collecting && Rejects(l)) then 3 else 2)
            && (forall k :: 0 <= k < |l.reports| ==> own[k + 1] == Report(l.reports[k]))
            && (l.outcome.Raised? ==> own[|own| - 2] == Error(l.outcome.error))
  {
    var l := layers[i];
    var failure := Failure(l, collecting);
    RejectsExactly([l]);
    assert l.outcome.Returned? ==> (AllBuild([l]) <==> Builds(l.outcome.out)) && [l][0] == l;
    var tail := if failure.Some? then [Error(failure.value), End] else [End];
    forall p: Phase | !p.Report?
      ensures Occurrences(Trace(l, collecting), p) == Occurrences([Start], p) + Occurrences(tail, p)
    {
      OccurrencesConcat([Start] + Reports(l.reports), tail, p);
      OccurrencesConcat([Start], Reports(l.reports), p);
      ReportsOnly(l.reports, p);
    }
    forall p: Phase
      ensures Occurrences(tail, p)
           == (if p == End then 1 else 0) + (if failure.Some? && p == Error(failure.value) then 1 else 0)
    {
      if failure.Some? {
        assert tail == [Error(failure.value)] + [End];
        OccurrencesConcat([Error(failure.value)], [End], p);
        assert [Error(failure.value)][..0] == [];
      }
      assert [End][..0] == [];
    }
    forall p: Phase ensures Occurrences([Start], p) == if p == Start then 1 else 0 {
      assert [Start][..0] == [];
    }
  }
}
