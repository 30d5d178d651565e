/** The microphone worklet: filter each sample, repack the stream into fixed-size buffers and
    post each full one as 16-bit integers. Samples are reals. */
module Microphone {
  import opened Text

  /** The two filter registers; `lastSample` is also the filter's latest output. */
  datatype Filter = Filter(dcOffset: real, lastSample: real)

  const SILENT := Filter(0.0, 0.0)
  const DC_ALPHA := 0.995

  /** Removes the running DC offset and smooths with the previous output. */
  function Advance(f: Filter, sample: real): Filter {
    var dc := f.dcOffset * DC_ALPHA + sample * (1.0 - DC_ALPHA);
    Filter(dc, (sample - dc) * 0.95 + f.lastSample * 0.05)
  }

  function FilterAfter(heard: seq<real>): Filter {
    if heard == [] then SILENT else Advance(FilterAfter(heard[..|heard| - 1]), heard[|heard| - 1])
  }

  function Clamp(v: real): real {
    if v > 0.95 then 0.95 else if v < -0.95 then -0.95 else v
  }

  /** `Math.round`: halves go up. */
  function Round(x: real): int {
    (x + 0.5).Floor
  }

  function Quantise(v: real): int {
    Round(Clamp(v) * 32767.0)
  }

  function Quantised(vs: seq<real>): (qs: seq<int>)
    ensures |qs| == |vs|
  {
    if vs == [] then [] else Quantised(vs[..|vs| - 1]) + [Quantise(vs[|vs| - 1])]
  }

  /** The filtered and quantised stream, one value a sample. */
  function Stream(heard: seq<real>): (s: seq<int>)
    ensures |s| == |heard|
  {
    if heard == [] then []
    else Stream(heard[..|heard| - 1]) + [Quantise(FilterAfter(heard).lastSample)]
  }

  /** The consecutive full blocks of length `n`. */
  function Blocks(s: seq<int>, n: nat): seq<seq<int>>
    requires n > 0
  {
    if |s| < n then [] else [s[..n]] + Blocks(s[n..], n)
  }

  function Flatten(blocks: seq<seq<int>>): seq<int> {
    if blocks == [] then [] else blocks[0] + Flatten(blocks[1..])
  }

  lemma {:induction false} FlattenSnoc(blocks: seq<seq<int>>, b: seq<int>)
    ensures Flatten(blocks + [b]) == Flatten(blocks) + b
  {
    if blocks == [] {
      assert [b][1..] == [];
      assert blocks + [b] == [b];
    } else {
      FlattenSnoc(blocks[1..], b);
      assert (blocks + [b])[1..] == blocks[1..] + [b];
    }
  }

  predicate AllLength(blocks: seq<seq<int>>, n: nat) {
    forall k :: 0 <= k < |blocks| ==> |blocks[k]| == n
  }

  /** Full blocks followed by less than a block are the cut of what they add up to. */
  lemma {:induction false} BlocksUnique(blocks: seq<seq<int>>, rest: seq<int>, n: nat)
    requires |rest| < n && AllLength(blocks, n)
    ensures Blocks(Flatten(blocks) + rest, n) == blocks
  {
    if blocks == [] {
      assert Flatten(blocks) + rest == rest;
    } else {
      var b, tail := blocks[0], Flatten(blocks[1..]) + rest;
      BlocksUnique(blocks[1..], rest, n);
      BlocksStep(b, tail, n);
      ConcatAssoc(b, Flatten(blocks[1..]), rest);
      assert blocks == [b] + blocks[1..];
    }
  }

  lemma BlocksStep(b: seq<int>, tail: seq<int>, n: nat)
    requires n > 0 && |b| == n
    ensures Blocks(b + tail, n) == [b] + Blocks(tail, n)
  {
    assert (b + tail)[..n] == b && (b + tail)[n..] == tail;
  }

  lemma {:induction false} FlattenLength(blocks: seq<seq<int>>, n: nat)
    requires AllLength(blocks, n)
    ensures |Flatten(blocks)| == |blocks| * n
  {
    if blocks != [] {
      FlattenLength(blocks[1..], n);
      assert |blocks| * n == (|blocks| - 1) * n + n;
    }
  }

  /** Within 0.95 a sample is scaled by 32767 and rounded, halves up; beyond it is cut off, so that
      no posted value exceeds 31129 in magnitude. */
  lemma QuantiseBound(v: real)
    ensures -31129 <= Quantise(v) <= 31129
    ensures -0.95 <= v <= 0.95 ==> -0.5 < Quantise(v) as real - v * 32767.0 <= 0.5
    ensures v > 0.95 ==> Quantise(v) == 31129
    ensures v < -0.95 ==> Quantise(v) == -31129
  {
    var x := Clamp(v) * 32767.0;
    assert -31128.65 <= x <= 31128.65;
  }

  /** The recurrence of the filter, number by number, and what it adds to the stream. */
  lemma StreamRecurrence(heard: seq<real>, x: real)
    ensures var was, f := FilterAfter(heard), FilterAfter(heard + [x]);
            && f.dcOffset == 0.995 * was.dcOffset + 0.005 * x
            && f.lastSample == 0.95 * (x - f.dcOffset) + 0.05 * was.lastSample
            && Stream(heard + [x]) == Stream(heard) + [Quantise(f.lastSample)]
    ensures FilterAfter([]) == Filter(0.0, 0.0) && Stream([]) == []
  {
    StreamSnoc(heard, x);
  }

  /** The filter is stable: it at most doubles the peak of its input. */
  lemma {:induction false} FilterStable(heard: seq<real>, peak: real)
    requires peak >= 0.0 && forall k :: 0 <= k < |heard| ==> -peak <= heard[k] <= peak
    ensures -peak <= FilterAfter(heard).dcOffset <= peak
    ensures -2.0 * peak <= FilterAfter(heard).lastSample <= 2.0 * peak
  {
    if heard != [] {
      var before := heard[..|heard| - 1];
      assert forall k :: 0 <= k < |before| ==> before[k] == heard[k];
      FilterStable(before, peak);
    }
  }

  function Power(x: real, n: nat): real {
    if n == 0 then 1.0 else x * Power(x, n - 1)
  }

  /** A constant input fades out: after `n` samples the offset lacks only 0.995 ^ n of it. */
  lemma {:induction false} ConstantFades(level: real, n: nat)
    ensures level - FilterAfter(seq(n, _ => level)).dcOffset == level * Power(DC_ALPHA, n)
  {
    var heard := seq(n, _ => level);
    if n > 0 {
      ConstantFades(level, n - 1);
      assert heard[..n - 1] == seq(n - 1, _ => level);
      var before := FilterAfter(seq(n - 1, _ => level)).dcOffset;
      assert FilterAfter(heard).dcOffset == before * DC_ALPHA + level * (1.0 - DC_ALPHA);
      assert level - FilterAfter(heard).dcOffset == (level - before) * DC_ALPHA;
    }
  }

  /** One message to the main thread. */
  datatype Post = Post(audio: seq<int>, frame: nat)

  function Audio(posted: seq<Post>): (a: seq<seq<int>>)
    ensures |a| == |posted|
  {
    if posted == [] then [] else Audio(posted[..|posted| - 1]) + [posted[|posted| - 1].audio]
  }

  /** All posts from `n` on carry the frame number. */
  predicate AllFramed(posted: seq<Post>, n: nat, frame: nat) {
    forall k :: n <= k < |posted| ==> posted[k].frame == frame
  }

  /** Nothing is posted, or one buffer. */
  predicate PostsOne(before: seq<Post>, after: seq<Post>, frame: nat) {
    after == before || (|after| == |before| + 1 && before <= after && after[|before|].frame == frame)
  }

  lemma FramedGrows(before: seq<Post>, after: seq<Post>, n: nat, frame: nat)
    requires n <= |before| && AllFramed(before, n, frame) && PostsOne(before, after, frame)
    ensures AllFramed(after, n, frame)
  {
    forall k | n <= k < |after| ensures after[k].frame == frame {
      assert k < |before| ==> after[k] == before[k];
    }
  }

  class MicrophoneProcessor {
    const bufferSize: nat
    var buffer: array<real>
    var bufferIndex: nat
    var frameCount: nat
    var lastSample: real
    var dcOffset: real
    var posted: seq<Post>
    ghost var heard: seq<real>

    ghost predicate Valid()
      reads this, buffer
    {
      && buffer.Length == bufferSize && bufferIndex < bufferSize
      && FilterAfter(heard) == Filter(dcOffset, lastSample)
      && AllLength(Audio(posted), bufferSize)
      && Flatten(Audio(posted)) + Quantised(buffer[..bufferIndex]) == Stream(heard)
    }

    constructor (size: nat)
      requires size > 0
      ensures Valid() && bufferSize == size && posted == [] && heard == [] && frameCount == 0 && fresh(buffer)
    {
      bufferSize := size;
      buffer := new real[size](_ => 0.0);
      bufferIndex, frameCount, lastSample, dcOffset := 0, 0, 0.0, 0.0;
      posted, heard := [], [];
      new;
      assert buffer[..0] == [];
    }

    /** Whatever the calls so far, the posted buffers are the consecutive full blocks of the
        filtered stream, and every sample is either posted or waiting. */
    lemma PostedAreBlocks()
      requires Valid()
      ensures Audio(posted) == Blocks(Stream(heard), bufferSize)
      ensures |heard| == |posted| * bufferSize + bufferIndex
    {
      BlocksUnique(Audio(posted), Quantised(buffer[..bufferIndex]), bufferSize);
      FlattenLength(Audio(posted), bufferSize);
      assert |Stream(heard)| == |Flatten(Audio(posted))| + bufferIndex;
    }

    /** One audio callback; a missing input is ignored altogether. */
    method Process(input: Option<seq<real>>)
      requires Valid()
      modifies this, buffer
      ensures Valid() && buffer == old(buffer)
      ensures heard == old(heard) + (if input.Some? then input.value else [])
      ensures frameCount == old(frameCount) + (if input.Some? then 1 else 0)
      ensures old(posted) <= posted
      ensures AllFramed(posted, |old(posted)|, frameCount)
      ensures Audio(posted) == Blocks(Stream(heard), bufferSize)
    {
      if input.None? {
        PostedAreBlocks();
        assert old(heard) + [] == heard;
        return;
      }
      var inputData := input.value;
      frameCount := frameCount + 1;
      assert old(heard) + inputData[..0] == heard;
      for i := 0 to |inputData|
        invariant Valid() && buffer == old(buffer) && frameCount == old(frameCount) + 1
        invariant heard == old(heard) + inputData[..i] && old(posted) <= posted
        invariant AllFramed(posted, |old(posted)|, frameCount)
      {
        ghost var before := posted;
        TakeSnoc(inputData, i);
        ConcatAssoc(old(heard), inputData[..i], [inputData[i]]);
        Take(inputData[i]);
        FramedGrows(before, posted, |old(posted)|, frameCount);
      }
      assert inputData[..|inputData|] == inputData;
      PostedAreBlocks();
    }

    /** The filtering half of the sample loop. */
    method FilterSample(input: real) returns (sample: real)
      modifies `dcOffset, `lastSample
      ensures Filter(dcOffset, lastSample) == Advance(old(Filter(dcOffset, lastSample)), input)
      ensures sample == lastSample
      ensures dcOffset == 0.995 * old(dcOffset) + 0.005 * input
      ensures lastSample == 0.95 * (input - dcOffset) + 0.05 * old(lastSample)
    {
      sample := input;
      dcOffset := dcOffset * DC_ALPHA + sample * (1.0 - DC_ALPHA);
      sample := sample - dcOffset;
      sample := sample * 0.95 + lastSample * 0.05;
      lastSample := sample;
    }

    /** The filling half: store the sample, and post the buffer when it is full. */
    method Store(sample: real)
      requires buffer.Length == bufferSize && bufferIndex < bufferSize
      requires AllLength(Audio(posted), bufferSize)
      modifies buffer, `bufferIndex, `posted
      ensures bufferIndex < bufferSize
      ensures AllLength(Audio(posted), bufferSize)
      ensures Flatten(Audio(posted)) + Quantised(buffer[..bufferIndex])
           == old(Flatten(Audio(posted)) + Quantised(buffer[..bufferIndex])) + [Quantise(sample)]
      ensures PostsOne(old(posted), posted, frameCount)
    {
      ghost var waiting := buffer[..bufferIndex];
      buffer[bufferIndex] := sample;
      assert buffer[..bufferIndex + 1] == waiting + [sample];
      bufferIndex := bufferIndex + 1;
      QuantisedSnoc(waiting, sample);
      ConcatAssoc(Flatten(Audio(posted)), Quantised(waiting), [Quantise(sample)]);
      if bufferIndex >= bufferSize {
        PostBuffer();
        assert Quantised(buffer[..0]) == [];
        assert Flatten(Audio(posted)) + [] == Flatten(Audio(posted));
      }
    }

    /** Converts and posts the full buffer. */
    method PostBuffer()
      requires bufferIndex == bufferSize == buffer.Length && AllLength(Audio(posted), bufferSize)
      modifies `bufferIndex, `posted
      ensures bufferIndex == 0 && AllLength(Audio(posted), bufferSize)
      ensures Flatten(Audio(posted)) == old(Flatten(Audio(posted))) + Quantised(buffer[..bufferSize])
      ensures |posted| == |old(posted)| + 1 && old(posted) <= posted && posted[|old(posted)|].frame == frameCount
    {
      var audio := ToInt16();
      assert buffer[..] == buffer[..bufferSize];
      PostAdds(posted, Post(audio, frameCount), bufferSize);
      posted := posted + [Post(audio, frameCount)];
      bufferIndex := 0;
    }

    /** The body of the sample loop. */
    method Take(input: real)
      requires Valid()
      modifies this, buffer
      ensures Valid() && buffer == old(buffer) && frameCount == old(frameCount)
      ensures heard == old(heard) + [input]
      ensures PostsOne(old(posted), posted, frameCount)
    {
      StreamSnoc(heard, input);
      var sample := FilterSample(input);
      Store(sample);
      heard := heard + [input];
    }

    method ToInt16() returns (audio: seq<int>)
      ensures audio == Quantised(buffer[..])
    {
      var int16Array := new int[buffer.Length];
      for j := 0 to buffer.Length
        invariant forall k :: 0 <= k < j ==> int16Array[k] == Quantise(buffer[k])
      {
        var val := buffer[j];
        if (if val < 0.0 then -val else val) > 0.95 {
          val := if val > 0.0 then 0.95 else -0.95;
        }
        int16Array[j] := (val * 32767.0 + 0.5).Floor;
      }
      audio := int16Array[..];
      QuantisedAll(buffer[..], audio);
    }
  }

  lemma {:induction false} QuantisedAll(vs: seq<real>, qs: seq<int>)
    requires |qs| == |vs| && forall k :: 0 <= k < |vs| ==> qs[k] == Quantise(vs[k])
    ensures qs == Quantised(vs)
  {
    if vs != [] {
      QuantisedAll(vs[..|vs| - 1], qs[..|vs| - 1]);
    }
  }

  lemma QuantisedSnoc(vs: seq<real>, v: real)
    ensures Quantised(vs + [v]) == Quantised(vs) + [Quantise(v)]
  {
  }

  lemma AudioSnoc(posted: seq<Post>, p: Post)
    ensures Audio(posted + [p]) == Audio(posted) + [p.audio]
  {
  }

  /** One more posted block. */
  lemma PostAdds(posted: seq<Post>, p: Post, n: nat)
    requires AllLength(Audio(posted), n) && |p.audio| == n
    ensures AllLength(Audio(posted + [p]), n)
    ensures Flatten(Audio(posted + [p])) == Flatten(Audio(posted)) + p.audio
  {
    AudioSnoc(posted, p);
    FlattenSnoc(Audio(posted), p.audio);
  }

  lemma StreamSnoc(heard: seq<real>, x: real)
    ensures FilterAfter(heard + [x]) == Advance(FilterAfter(heard), x)
    ensures Stream(heard + [x]) == Stream(heard) + [Quantise(FilterAfter(heard + [x]).lastSample)]
  {
    assert (heard + [x])[..|heard|] == heard;
  }
}
