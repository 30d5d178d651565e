/** The streaming event parsers of the SDK: text arrives in arbitrary chunks, complete
    blocks (ended by a blank line) are cut off the front of a buffer and parsed. */
module Sse {
  import opened Text

  const BLANK_LINE := "\n\n"

  predicate BlankAt(s: string, j: int) {
    0 <= j && j + 1 < |s| && s[j] == '\n' && s[j + 1] == '\n'
  }

  /** `buffer.indexOf("\n\n")`. */
  function FindBlank(s: string): (i: int)
    ensures -1 <= i && (i >= 0 ==> i + 2 <= |s|)
  {
    if |s| < 2 then -1
    else if BlankAt(s, 0) then 0
    else
      var r := FindBlank(s[1..]);
      if r == -1 then -1 else r + 1
  }

  /** The result is the leftmost occurrence, and -1 exactly when there is none. */
  lemma {:induction false} FindBlankLeftmost(s: string)
    ensures FindBlank(s) >= 0 ==> BlankAt(s, FindBlank(s))
    ensures forall j :: BlankAt(s, j) ==> 0 <= FindBlank(s) <= j
  {
    if |s| >= 2 {
      FindBlankLeftmost(s[1..]);
      forall j | BlankAt(s, j) ensures 0 <= FindBlank(s) <= j {
        assert j > 0 ==> BlankAt(s[1..], j - 1);
      }
    }
  }

  /** The whole-text parser: the terminated blocks of a text, in order. */
  function Blocks(s: string): seq<string>
    decreases |s|
  {
    var i := FindBlank(s);
    if i < 0 then [] else [s[..i]] + Blocks(s[i + 2..])
  }

  /** What the whole-text parser leaves over: the unterminated tail. */
  function Tail(s: string): string
    decreases |s|
  {
    var i := FindBlank(s);
    if i < 0 then s else Tail(s[i + 2..])
  }

  function Unblock(blocks: seq<string>): string {
    if blocks == [] then "" else blocks[0] + BLANK_LINE + Unblock(blocks[1..])
  }

  lemma {:induction false} FeedMore(a: string, b: string)
    ensures Blocks(a + b) == Blocks(a) + Blocks(Tail(a) + b)
    ensures Tail(a + b) == Tail(Tail(a) + b)
    decreases |a|
  {
    var i := FindBlank(a);
    if i >= 0 {
      FindBlankUnique(a + b, i, a);
      assert (a + b)[..i] == a[..i];
      assert (a + b)[i + 2..] == a[i + 2..] + b;
      FeedMore(a[i + 2..], b);
    }
  }

  lemma FindBlankUnique(s: string, i: nat, p: string)
    requires p <= s && FindBlank(p) == i
    ensures FindBlank(s) == i
  {
    FindBlankLeftmost(p);
    FindBlankLeftmost(s);
    var k := FindBlank(s);
    assert BlankAt(s, i) && BlankAt(s, k);
    assert BlankAt(p, k);
  }

  lemma CutAt(s: string, i: nat)
    requires BlankAt(s, i)
    ensures s == s[..i] + BLANK_LINE + s[i + 2..]
  {
    assert s[i..i + 2] == BLANK_LINE;
  }

  /** Nothing received is lost or reordered, and the buffer never keeps a complete block. */
  lemma {:induction false} BlocksRejoin(s: string)
    ensures Unblock(Blocks(s)) + Tail(s) == s
    ensures FindBlank(Tail(s)) == -1
    decreases |s|
  {
    var i := FindBlank(s);
    if i < 0 {
      assert Unblock([]) + s == s;
    } else {
      var rest := s[i + 2..];
      BlocksRejoin(rest);
      FindBlankLeftmost(s);
      CutAt(s, i);
      UnblockCons(s[..i], Blocks(rest), Tail(rest));
    }
  }

  lemma UnblockCons(b: string, blocks: seq<string>, tail: string)
    ensures Unblock([b] + blocks) + tail == b + BLANK_LINE + (Unblock(blocks) + tail)
  {
    assert ([b] + blocks)[1..] == blocks;
  }

  /** Those two facts, with every cut made at its leftmost place, determine the parse. */
  lemma {:induction false} BlocksUnique(blocks: seq<string>, tail: string)
    requires forall b :: b in blocks ==> FindBlank(b + BLANK_LINE) == |b|
    requires FindBlank(tail) == -1
    ensures Blocks(Unblock(blocks) + tail) == blocks
    ensures Tail(Unblock(blocks) + tail) == tail
  {
    if blocks == [] {
      assert Unblock(blocks) + tail == tail;
    } else {
      var b := blocks[0];
      assert b in blocks;
      var r := Unblock(blocks[1..]) + tail;
      assert [b] + blocks[1..] == blocks;
      UnblockCons(b, blocks[1..], tail);
      BlocksUnique(blocks[1..], tail);
      BlocksHead(b, r);
    }
  }

  lemma BlocksHead(b: string, r: string)
    requires FindBlank(b + BLANK_LINE) == |b|
    ensures Blocks(b + BLANK_LINE + r) == [b] + Blocks(r) && Tail(b + BLANK_LINE + r) == Tail(r)
  {
    var s := b + BLANK_LINE + r;
    FindBlankUnique(s, |b|, b + BLANK_LINE);
    assert s[|b| + 2..] == r && s[..|b|] == b;
  }

  // ---------------------------------------------------------------- one block

  predicate HasTag(line: string, tag: string) {
    tag <= line
  }

  function ValueOf(tag: string): string -> seq<string> {
    line => if HasTag(line, tag) then [Trim(line[|tag|..])] else []
  }

  /** The trimmed values of the lines that start with `tag`, in order. */
  function Tagged(lines: seq<string>, tag: string): seq<string> {
    FlatMap(ValueOf(tag), lines)
  }

  function Last(values: seq<string>): Option<string> {
    if values == [] then None else Some(values[|values| - 1])
  }

  const KNOWN_TYPES: set<string> := {"ack", "status", "delta", "message", "timings", "error", "done"}

  datatype TextEvent<+J> = TextEvent(kind: string, data: J, id: Option<string>)

  /** `JSON.parse` with its exceptions swallowed, `{}` standing for empty or malformed data. */
  function ParseData<J>(data: string, parse: string -> Option<J>, empty: J): J {
    if data == "" then empty
    else match parse(data) case Some(j) => j case None => empty
  }

  /** A block without an event type is a delta and loses its id; an unknown type is a delta
      and keeps it. */
  function Emit<J>(evtType: Option<string>, evtId: Option<string>, parsed: J): TextEvent<J> {
    if evtType.None? || evtType.value == "" then TextEvent("delta", parsed, None)
    else if evtType.value in KNOWN_TYPES then TextEvent(evtType.value, parsed, evtId)
    else TextEvent("delta", parsed, evtId)
  }

  /** What one block means: the last type, the last id and all data lines joined by newlines. */
  function BlockEvent<J>(raw: string, parse: string -> Option<J>, empty: J): TextEvent<J> {
    var lines := Split(raw, '\n');
    Emit(Last(Tagged(lines, "event:")), Last(Tagged(lines, "id:")),
         ParseData(Join(Tagged(lines, "data:"), '\n'), parse, empty))
  }

  /** The events of a list of blocks: one each, in order. */
  function TextEvents<J>(blocks: seq<string>, parse: string -> Option<J>, empty: J): seq<TextEvent<J>> {
    FlatMap(TextBlock(parse, empty), blocks)
  }

  lemma TextEventsAppend<J>(blocks: seq<string>, raw: string, parse: string -> Option<J>, empty: J)
    ensures TextEvents(blocks + [raw], parse, empty)
         == TextEvents(blocks, parse, empty) + [BlockEvent(raw, parse, empty)]
  {
    FlatMapAppend(TextBlock(parse, empty), blocks, raw);
  }

  function TextBlock<J>(parse: string -> Option<J>, empty: J): string -> seq<TextEvent<J>> {
    raw => [BlockEvent(raw, parse, empty)]
  }

  function ParseOne<J>(parse: string -> Option<J>): string -> seq<J> {
    data => match parse(data) case Some(j) => [j] case None => []
  }

  /** The values that parse, in order; the others are dropped. */
  function ParsedOnly<J>(values: seq<string>, parse: string -> Option<J>): seq<J> {
    FlatMap(ParseOne(parse), values)
  }

  lemma ParsedOnlyAppend<J>(values: seq<string>, data: string, parse: string -> Option<J>)
    ensures ParsedOnly(values + [data], parse)
         == ParsedOnly(values, parse) + match parse(data) case Some(j) => [j] case None => []
  {
    FlatMapAppend(ParseOne(parse), values, data);
  }

  /** `subscribeJobEvents` ignores types and ids: every data line that parses is an event. */
  function JobBlockEvents<J>(raw: string, parse: string -> Option<J>): seq<J> {
    ParsedOnly(Tagged(Split(raw, '\n'), "data:"), parse)
  }

  function JobBlock<J>(parse: string -> Option<J>): string -> seq<J> {
    raw => JobBlockEvents(raw, parse)
  }

  function JobEvents<J>(blocks: seq<string>, parse: string -> Option<J>): seq<J> {
    FlatMap(JobBlock(parse), blocks)
  }

  lemma JobEventsAppend<J>(blocks: seq<string>, raw: string, parse: string -> Option<J>)
    ensures JobEvents(blocks + [raw], parse) == JobEvents(blocks, parse) + JobBlockEvents(raw, parse)
  {
    FlatMapAppend(JobBlock(parse), blocks, raw);
  }

  function Received(chunks: seq<string>): string {
    FlatMap(chunk => chunk, chunks)
  }

  lemma TaggedNext(lines: seq<string>, k: nat, tag: string)
    requires k < |lines|
    ensures Tagged(lines[..k + 1], tag) ==
            if HasTag(lines[k], tag) then Tagged(lines[..k], tag) + [Trim(lines[k][|tag|..])]
            else Tagged(lines[..k], tag)
  {
    FlatMapSnoc(ValueOf(tag), lines, k);
    assert Tagged(lines[..k], tag) + [] == Tagged(lines[..k], tag);
  }

  /** A line carries at most one of the three tags, and a blank line carries none. */
  lemma TagsExclude(line: string)
    ensures HasTag(line, "event:") ==> !HasTag(line, "id:") && !HasTag(line, "data:")
    ensures HasTag(line, "id:") ==> !HasTag(line, "data:")
    ensures Trim(line) == "" ==> !HasTag(line, "event:") && !HasTag(line, "id:") && !HasTag(line, "data:")
  {
    TrimProjects(line);
    assert HasTag(line, "event:") ==> line[0] == "event:"[0] == 'e';
    assert HasTag(line, "id:") ==> line[0] == "id:"[0] == 'i';
    assert HasTag(line, "data:") ==> line[0] == "data:"[0] == 'd';
  }

  /** Line `i` holds the field. */
  predicate FieldAt(lines: seq<string>, tag: string, v: string, i: int) {
    && 0 <= i < |lines| && tag <= lines[i] && v == Trim(lines[i][|tag|..])
    && forall j :: i < j < |lines| ==> !(tag <= lines[j])
  }

  /** The field of a block: the trimmed rest of the last line that starts with the tag. */
  ghost predicate FieldOf(lines: seq<string>, tag: string, value: Option<string>) {
    match value
    case None => forall i :: 0 <= i < |lines| ==> !(tag <= lines[i])
    case Some(v) => exists i :: FieldAt(lines, tag, v, i)
  }

  /** The payload is what the text parses to, or the empty object if there is no text or it does
      not parse. */
  predicate Payload<J(==)>(text: string, parse: string -> Option<J>, empty: J, data: J) {
    && (text != "" && parse(text).Some? ==> data == parse(text).value)
    && (text == "" || parse(text).None? ==> data == empty)
  }

  /** The event that a type, an id and a payload make. */
  predicate Makes<J>(kind: Option<string>, id: Option<string>, event: TextEvent<J>) {
    && (kind == None || kind == Some("") ==> event.kind == "delta" && event.id == None)
    && (kind != None && kind != Some("") ==>
          && event.id == id
          && event.kind == if kind.value in {"ack", "status", "delta", "message", "timings", "error", "done"}
                           then kind.value else "delta")
  }

  /** What a block means, field by field. */
  ghost predicate Means<J>(raw: string, parse: string -> Option<J>, empty: J, event: TextEvent<J>) {
    var lines := Split(raw, '\n');
    && (exists kind, id :: FieldOf(lines, "event:", kind) && FieldOf(lines, "id:", id) && Makes(kind, id, event))
    && Payload(Join(Tagged(lines, "data:"), '\n'), parse, empty, event.data)
  }

  lemma FieldNext(lines: seq<string>, line: string, tag: string, value: Option<string>)
    requires FieldOf(lines, tag, value)
    ensures FieldOf(lines + [line], tag, if tag <= line then Some(Trim(line[|tag|..])) else value)
  {
    var more := lines + [line];
    if tag <= line {
      assert FieldAt(more, tag, Trim(line[|tag|..]), |lines|);
    } else if value.Some? {
      var i :| FieldAt(lines, tag, value.value, i);
      assert more[i] == lines[i];
      assert FieldAt(more, tag, value.value, i);
    }
  }

  lemma LastNext(values: seq<string>, v: string)
    ensures Last(values + [v]) == Some(v)
  {
  }

  lemma {:induction false} LastTagged(lines: seq<string>, tag: string, k: nat)
    requires k <= |lines|
    ensures FieldOf(lines[..k], tag, Last(Tagged(lines[..k], tag)))
  {
    if k > 0 {
      var line, values := lines[k - 1], Tagged(lines[..k - 1], tag);
      LastTagged(lines, tag, k - 1);
      FieldNext(lines[..k - 1], line, tag, Last(values));
      TaggedNext(lines, k - 1, tag);
      TakeSnoc(lines, k - 1);
      if HasTag(line, tag) {
        LastNext(values, Trim(line[|tag|..]));
      }
    }
  }

  lemma LastIsField(lines: seq<string>, tag: string)
    ensures FieldOf(lines, tag, Last(Tagged(lines, tag)))
  {
    assert lines[..|lines|] == lines;
    LastTagged(lines, tag, |lines|);
  }

  lemma MeansFrom<J>(raw: string, kind: Option<string>, id: Option<string>, parse: string -> Option<J>, empty: J,
                     event: TextEvent<J>)
    requires FieldOf(Split(raw, '\n'), "event:", kind) && FieldOf(Split(raw, '\n'), "id:", id) && Makes(kind, id, event)
    requires Payload(Join(Tagged(Split(raw, '\n'), "data:"), '\n'), parse, empty, event.data)
    ensures Means(raw, parse, empty, event)
  {
  }

  lemma BlockMeans<J>(raw: string, parse: string -> Option<J>, empty: J)
    ensures Means(raw, parse, empty, BlockEvent(raw, parse, empty))
  {
    var lines := Split(raw, '\n');
    var kind, id := Last(Tagged(lines, "event:")), Last(Tagged(lines, "id:"));
    LastIsField(lines, "event:");
    LastIsField(lines, "id:");
    EmitMakes(kind, id, ParseData(Join(Tagged(lines, "data:"), '\n'), parse, empty));
    MeansFrom(raw, kind, id, parse, empty, BlockEvent(raw, parse, empty));
  }

  lemma EmitMakes<J>(kind: Option<string>, id: Option<string>, data: J)
    ensures Makes(kind, id, Emit(kind, id, data)) && Emit(kind, id, data).data == data
  {
  }

  /** One event for each block, in order. */
  ghost predicate EachMeans<J>(blocks: seq<string>, parse: string -> Option<J>, empty: J,
                               events: seq<TextEvent<J>>) {
    |events| == |blocks| && forall k :: 0 <= k < |blocks| ==> Means(blocks[k], parse, empty, events[k])
  }

  lemma EventsMean<J>(blocks: seq<string>, parse: string -> Option<J>, empty: J)
    ensures EachMeans(blocks, parse, empty, TextEvents(blocks, parse, empty))
  {
    FlatMapSingles(TextBlock(parse, empty), blocks);
    forall k | 0 <= k < |blocks| ensures Means(blocks[k], parse, empty, TextEvents(blocks, parse, empty)[k]) {
      BlockMeans(blocks[k], parse, empty);
    }
  }

  // ---------------------------------------------------------------- the parsers

  /** The body of `subscribeTextStream` for one block. */
  method ParseTextBlock<J>(raw: string, parse: string -> Option<J>, empty: J)
    returns (event: TextEvent<J>)
    ensures event == BlockEvent(raw, parse, empty) && Means(raw, parse, empty, event)
  {
    BlockMeans(raw, parse, empty);
    var evtType, evtId, dataLines: seq<string> := None, None, [];
    var lines := Split(raw, '\n');
    for k := 0 to |lines|
      invariant evtType == Last(Tagged(lines[..k], "event:"))
      invariant evtId == Last(Tagged(lines[..k], "id:"))
      invariant dataLines == Tagged(lines[..k], "data:")
    {
      var line := lines[k];
      TaggedNext(lines, k, "event:");
      TaggedNext(lines, k, "id:");
      TaggedNext(lines, k, "data:");
      TagsExclude(line);
      if Trim(line) == "" {
        continue;
      }
      if HasTag(line, "event:") {
        evtType := Some(Trim(line[6..]));
      } else if HasTag(line, "id:") {
        evtId := Some(Trim(line[3..]));
      } else if HasTag(line, "data:") {
        dataLines := dataLines + [Trim(line[5..])];
      }
    }
    assert lines[..|lines|] == lines;
    var parsed := ParseData(Join(dataLines, '\n'), parse, empty);
    if evtType.None? || evtType.value == "" {
      return TextEvent("delta", parsed, None);
    }
    event := if evtType.value in KNOWN_TYPES then TextEvent(evtType.value, parsed, evtId)
             else TextEvent("delta", parsed, evtId);
  }

  /** The inner loop of `subscribeTextStream`: cut and deliver every complete block. */
  method DrainText<J>(received: string, parse: string -> Option<J>, empty: J)
    returns (events: seq<TextEvent<J>>, buffer: string)
    ensures events == TextEvents(Blocks(received), parse, empty)
    ensures buffer == Tail(received)
  {
    events, buffer := [], received;
    ghost var done: seq<string> := [];
    var idx := FindBlank(buffer);
    while idx != -1
      invariant idx == FindBlank(buffer)
      invariant Blocks(received) == done + Blocks(buffer) && Tail(received) == Tail(buffer)
      invariant events == TextEvents(done, parse, empty)
      decreases |buffer|
    {
      var raw := buffer[..idx];
      ConcatAssoc(done, [raw], Blocks(buffer[idx + 2..]));
      buffer := buffer[idx + 2..];
      var event := ParseTextBlock(raw, parse, empty);
      TextEventsAppend(done, raw, parse, empty);
      events, done := events + [event], done + [raw];
      idx := FindBlank(buffer);
    }
    assert done + [] == done;
  }

  /** Whatever the chunk boundaries, the events are those of the whole text received: one for each
      block, and if the text encodes frames, one for each frame. */
  method SubscribeTextStream<J>(chunks: seq<string>, parse: string -> Option<J>, empty: J)
    returns (events: seq<TextEvent<J>>, buffer: string)
    ensures events == TextEvents(Blocks(Received(chunks)), parse, empty)
    ensures EachMeans(Blocks(Received(chunks)), parse, empty, events)
    ensures forall frames: seq<Frame> ::
              Received(chunks) == EncodeAll(frames)
              && (forall f :: f in frames ==>
                    '\n' !in f.kind && '\n' !in f.id && forall d :: d in f.data ==> '\n' !in d) ==>
              buffer == "" && EachArrives(frames, parse, empty, events)
    ensures Unblock(Blocks(Received(chunks))) + buffer == Received(chunks)
    ensures FindBlank(buffer) == -1
  {
    events, buffer := [], "";
    var r := 0;
    while r < |chunks|
      invariant 0 <= r <= |chunks|
      invariant events == TextEvents(Blocks(Received(chunks[..r])), parse, empty)
      invariant buffer == Tail(Received(chunks[..r]))
    {
      NextChunk(chunks, r, parse, empty);
      var found;
      found, buffer := DrainText(buffer + chunks[r], parse, empty);
      events := events + found;
      r := r + 1;
    }
    assert chunks[..r] == chunks;
    BlocksRejoin(Received(chunks));
    EventsMean(Blocks(Received(chunks)), parse, empty);
    EncodedArrives(Received(chunks), parse, empty);
  }

  lemma NextChunk<J>(chunks: seq<string>, r: nat, parse: string -> Option<J>, empty: J)
    requires r < |chunks|
    ensures var before, all := Received(chunks[..r]), Received(chunks[..r + 1]);
            var fed := Tail(before) + chunks[r];
            && TextEvents(Blocks(all), parse, empty)
               == TextEvents(Blocks(before), parse, empty) + TextEvents(Blocks(fed), parse, empty)
            && Tail(all) == Tail(fed)
  {
    var before := Received(chunks[..r]);
    FlatMapSnoc(chunk => chunk, chunks, r);
    FeedMore(before, chunks[r]);
    FlatMapConcat(TextBlock(parse, empty), Blocks(before), Blocks(Tail(before) + chunks[r]));
  }

  lemma EncodedArrives<J>(text: string, parse: string -> Option<J>, empty: J)
    ensures forall frames: seq<Frame> ::
              text == EncodeAll(frames)
              && (forall f :: f in frames ==>
                    '\n' !in f.kind && '\n' !in f.id && forall d :: d in f.data ==> '\n' !in d) ==>
              Tail(text) == "" && EachArrives(frames, parse, empty, TextEvents(Blocks(text), parse, empty))
  {
    forall frames: seq<Frame> | text == EncodeAll(frames) && (forall f :: f in frames ==>
                      '\n' !in f.kind && '\n' !in f.id && forall d :: d in f.data ==> '\n' !in d)
      ensures Tail(text) == "" && EachArrives(frames, parse, empty, TextEvents(Blocks(text), parse, empty))
    {
      RoundTrip(frames, parse, empty);
      AllArrive(frames, parse, empty);
    }
  }

  method ParseJobBlock<J>(chunk: string, parse: string -> Option<J>) returns (events: seq<J>)
    ensures events == JobBlockEvents(chunk, parse)
  {
    events := [];
    var lines := Split(chunk, '\n');
    for k := 0 to |lines|
      invariant events == ParsedOnly(Tagged(lines[..k], "data:"), parse)
    {
      TaggedNext(lines, k, "data:");
      if HasTag(lines[k], "data:") {
        var data := Trim(lines[k][5..]);
        ParsedOnlyAppend(Tagged(lines[..k], "data:"), data, parse);
        match parse(data)
        case Some(e) => events := events + [e];
        case None => assert events + [] == events;
      }
    }
    assert lines[..|lines|] == lines;
  }

  method DrainJobs<J>(received: string, parse: string -> Option<J>)
    returns (events: seq<J>, buffer: string)
    ensures events == JobEvents(Blocks(received), parse)
    ensures buffer == Tail(received)
  {
    events, buffer := [], received;
    ghost var done: seq<string> := [];
    var idx := FindBlank(buffer);
    while idx != -1
      invariant idx == FindBlank(buffer)
      invariant Blocks(received) == done + Blocks(buffer) && Tail(received) == Tail(buffer)
      invariant events == JobEvents(done, parse)
      decreases |buffer|
    {
      var chunk := buffer[..idx];
      ConcatAssoc(done, [chunk], Blocks(buffer[idx + 2..]));
      buffer := buffer[idx + 2..];
      var found := ParseJobBlock(chunk, parse);
      JobEventsAppend(done, chunk, parse);
      events, done := events + found, done + [chunk];
      idx := FindBlank(buffer);
    }
    assert done + [] == done;
  }

  method SubscribeJobEvents<J>(chunks: seq<string>, parse: string -> Option<J>)
    returns (events: seq<J>, buffer: string)
    ensures events == JobEvents(Blocks(Received(chunks)), parse)
    ensures Unblock(Blocks(Received(chunks))) + buffer == Received(chunks)
    ensures FindBlank(buffer) == -1
  {
    events, buffer := [], "";
    var r := 0;
    while r < |chunks|
      invariant 0 <= r <= |chunks|
      invariant events == JobEvents(Blocks(Received(chunks[..r])), parse)
      invariant buffer == Tail(Received(chunks[..r]))
    {
      ghost var before := Received(chunks[..r]);
      FlatMapSnoc(chunk => chunk, chunks, r);
      FeedMore(before, chunks[r]);
      FlatMapConcat(JobBlock(parse), Blocks(before), Blocks(buffer + chunks[r]));
      var found;
      found, buffer := DrainJobs(buffer + chunks[r], parse);
      events := events + found;
      r := r + 1;
    }
    assert chunks[..r] == chunks;
    BlocksRejoin(Received(chunks));
  }

  // ---------------------------------------------------------------- round trip

  datatype Frame = Frame(kind: string, id: string, data: seq<string>)

  function DataLines(data: seq<string>): seq<string> {
    if data == [] then [] else ["data:" + " " + data[0]] + DataLines(data[1..])
  }

  function FrameLines(f: Frame): seq<string> {
    ["event:" + " " + f.kind] + (["id:" + " " + f.id] + DataLines(f.data))
  }

  /** The server's wire form of an event, generalised to several data lines. */
  function Encode(f: Frame): string {
    Join(FrameLines(f), '\n') + BLANK_LINE
  }

  function EncodeAll(frames: seq<Frame>): string {
    if frames == [] then "" else Encode(frames[0]) + EncodeAll(frames[1..])
  }

  /** The server writes `event`, `id` and one JSON payload line. */
  function ServerSse(event: string, id: string, payload: string): string {
    "event: " + event + "\nid: " + id + "\ndata: " + payload + "\n\n"
  }

  predicate OneLine(s: string) {
    '\n' !in s
  }

  predicate Sendable(f: Frame) {
    OneLine(f.kind) && OneLine(f.id) && forall d :: d in f.data ==> OneLine(d)
  }

  function TrimAll(data: seq<string>): seq<string> {
    if data == [] then [] else [Trim(data[0])] + TrimAll(data[1..])
  }

  /** What the subscriber gets for one frame: every field trimmed. */
  function Delivered<J>(f: Frame, parse: string -> Option<J>, empty: J): TextEvent<J> {
    Emit(Some(Trim(f.kind)), Some(Trim(f.id)), ParseData(Join(TrimAll(f.data), '\n'), parse, empty))
  }

  function DeliveredAll<J>(frames: seq<Frame>, parse: string -> Option<J>, empty: J): seq<TextEvent<J>> {
    if frames == [] then [] else [Delivered(frames[0], parse, empty)] + DeliveredAll(frames[1..], parse, empty)
  }

  /** The event a frame arrives as: type and id trimmed, and the payload of its trimmed data lines,
      joined by newlines. */
  ghost predicate Arrives<J>(f: Frame, parse: string -> Option<J>, empty: J, event: TextEvent<J>) {
    && Makes(Some(Trim(f.kind)), Some(Trim(f.id)), event)
    && (forall ds: seq<string> :: |ds| == |f.data| && (forall i :: 0 <= i < |ds| ==> ds[i] == Trim(f.data[i])) ==>
          Payload(Join(ds, '\n'), parse, empty, event.data))
  }

  lemma {:induction false} TrimAllEach(data: seq<string>)
    ensures |TrimAll(data)| == |data| && forall i :: 0 <= i < |data| ==> TrimAll(data)[i] == Trim(data[i])
  {
    if data != [] {
      TrimAllEach(data[1..]);
    }
  }

  lemma DeliveredArrives<J>(f: Frame, parse: string -> Option<J>, empty: J)
    ensures Arrives(f, parse, empty, Delivered(f, parse, empty))
  {
    TrimAllEach(f.data);
    EmitMakes(Some(Trim(f.kind)), Some(Trim(f.id)), Delivered(f, parse, empty).data);
    forall ds: seq<string> | |ds| == |f.data| && (forall i :: 0 <= i < |ds| ==> ds[i] == Trim(f.data[i]))
      ensures ds == TrimAll(f.data)
    {
    }
  }

  /** One event for each frame, in order. */
  ghost predicate EachArrives<J>(frames: seq<Frame>, parse: string -> Option<J>, empty: J,
                                 events: seq<TextEvent<J>>) {
    |events| == |frames| && forall k :: 0 <= k < |frames| ==> Arrives(frames[k], parse, empty, events[k])
  }

  lemma {:induction false} AllArrive<J>(frames: seq<Frame>, parse: string -> Option<J>, empty: J)
    ensures EachArrives(frames, parse, empty, DeliveredAll(frames, parse, empty))
  {
    if frames != [] {
      DeliveredArrives(frames[0], parse, empty);
      AllArrive(frames[1..], parse, empty);
    }
  }

  lemma {:induction false} JoinHasNoBlank(lines: seq<string>)
    requires |lines| > 0
    requires forall l :: l in lines ==> l != "" && OneLine(l)
    ensures Join(lines, '\n') != "" && Join(lines, '\n')[0] != '\n'
    ensures FindBlank(Join(lines, '\n') + BLANK_LINE) == |Join(lines, '\n')|
  {
    var j := Join(lines, '\n');
    var s := j + BLANK_LINE;
    var p := lines[0];
    assert p in lines && forall k :: 0 <= k < |p| ==> s[k] == p[k] && p[k] != '\n';
    if |lines| > 1 {
      var rest := Join(lines[1..], '\n');
      assert forall l :: l in lines[1..] ==> l in lines;
      JoinHasNoBlank(lines[1..]);
      FindBlankLeftmost(rest + BLANK_LINE);
      assert s == p + ['\n'] + (rest + BLANK_LINE);
      forall k | BlankAt(s, k) ensures k >= |j| {
        if k > |p| {
          assert BlankAt(rest + BLANK_LINE, k - |p| - 1);
        }
      }
    }
    FindBlankLeftmost(s);
    assert BlankAt(s, |j|);
  }

  lemma AfterTag(tag: string, space: string, value: string)
    ensures (tag + space + value)[|tag|..] == space + value
  {
  }

  /** A tagged line in front contributes its trimmed value to its own tag and nothing to others. */
  lemma FieldTagged(tag: string, value: string, lines: seq<string>, other: string)
    requires HasTag(tag + " " + value, other) ==> other == tag
    ensures Tagged([tag + " " + value] + lines, other) ==
            if other == tag then [Trim(value)] + Tagged(lines, other) else Tagged(lines, other)
  {
    var line := tag + " " + value;
    FlatMapConcat(ValueOf(other), [line], lines);
    FlatMapOne(ValueOf(other), line);
    LineValue(tag, value, other);
    assert [] + Tagged(lines, other) == Tagged(lines, other);
  }

  lemma LineValue(tag: string, value: string, other: string)
    requires HasTag(tag + " " + value, other) ==> other == tag
    ensures ValueOf(other)(tag + " " + value) == if other == tag then [Trim(value)] else []
  {
    var line := tag + " " + value;
    if other == tag {
      assert HasTag(line, tag);
      AfterTag(tag, " ", value);
      TrimDropsSpace(value);
    }
  }

  lemma FieldLine(tag: string, value: string)
    requires OneLine(tag) && OneLine(value)
    ensures OneLine(tag + " " + value) && tag + " " + value != "" && HasTag(tag + " " + value, tag)
  {
  }

  lemma {:induction false} DataLinesTagged(data: seq<string>)
    requires forall d :: d in data ==> OneLine(d)
    ensures Tagged(DataLines(data), "data:") == TrimAll(data)
    ensures Tagged(DataLines(data), "event:") == Tagged(DataLines(data), "id:") == []
    ensures forall l :: l in DataLines(data) ==> l != "" && OneLine(l)
  {
    if data != [] {
      var rest := DataLines(data[1..]);
      assert data[0] in data && forall d :: d in data[1..] ==> d in data;
      DataLinesTagged(data[1..]);
      DataTagged(data[0], rest);
    }
  }

  lemma DataTagged(d: string, rest: seq<string>)
    requires OneLine(d)
    ensures Tagged(["data:" + " " + d] + rest, "data:") == [Trim(d)] + Tagged(rest, "data:")
    ensures Tagged(["data:" + " " + d] + rest, "event:") == Tagged(rest, "event:")
    ensures Tagged(["data:" + " " + d] + rest, "id:") == Tagged(rest, "id:")
    ensures OneLine("data:" + " " + d) && "data:" + " " + d != ""
  {
    FieldLine("data:", d);
    TagsExclude("data:" + " " + d);
    FieldTagged("data:", d, rest, "data:");
    FieldTagged("data:", d, rest, "event:");
    FieldTagged("data:", d, rest, "id:");
  }

  lemma TrimDropsSpace(s: string)
    ensures Trim(" " + s) == Trim(s)
  {
    assert (" " + s)[1..] == s;
  }

  lemma {:induction false} TrimAllStable(data: seq<string>)
    ensures |TrimAll(data)| == |data|
    ensures TrimAll(data) == data <==> forall d :: d in data ==> TrimStable(d)
  {
    if data != [] {
      TrimAllStable(data[1..]);
      TrimProjects(data[0]);
      assert data == [data[0]] + data[1..];
    }
  }

  lemma FrameTagged(f: Frame)
    requires Sendable(f)
    ensures Tagged(FrameLines(f), "event:") == [Trim(f.kind)]
    ensures Tagged(FrameLines(f), "id:") == [Trim(f.id)]
    ensures Tagged(FrameLines(f), "data:") == TrimAll(f.data)
    ensures forall l :: l in FrameLines(f) ==> l != "" && OneLine(l)
  {
    DataLinesTagged(f.data);
    IdTagged(f.id, DataLines(f.data));
    KindTagged(f.kind, ["id:" + " " + f.id] + DataLines(f.data));
  }

  lemma IdTagged(id: string, rest: seq<string>)
    requires OneLine(id)
    ensures Tagged(["id:" + " " + id] + rest, "id:") == [Trim(id)] + Tagged(rest, "id:")
    ensures Tagged(["id:" + " " + id] + rest, "event:") == Tagged(rest, "event:")
    ensures Tagged(["id:" + " " + id] + rest, "data:") == Tagged(rest, "data:")
    ensures OneLine("id:" + " " + id) && "id:" + " " + id != ""
  {
    FieldLine("id:", id);
    TagsExclude("id:" + " " + id);
    FieldTagged("id:", id, rest, "id:");
    FieldTagged("id:", id, rest, "event:");
    FieldTagged("id:", id, rest, "data:");
  }

  lemma KindTagged(kind: string, rest: seq<string>)
    requires OneLine(kind)
    ensures Tagged(["event:" + " " + kind] + rest, "event:") == [Trim(kind)] + Tagged(rest, "event:")
    ensures Tagged(["event:" + " " + kind] + rest, "id:") == Tagged(rest, "id:")
    ensures Tagged(["event:" + " " + kind] + rest, "data:") == Tagged(rest, "data:")
    ensures OneLine("event:" + " " + kind) && "event:" + " " + kind != ""
  {
    FieldLine("event:", kind);
    TagsExclude("event:" + " " + kind);
    FieldTagged("event:", kind, rest, "event:");
    FieldTagged("event:", kind, rest, "id:");
    FieldTagged("event:", kind, rest, "data:");
  }

  lemma FrameBlock<J>(f: Frame, rest: string, parse: string -> Option<J>, empty: J)
    requires Sendable(f)
    ensures Blocks(Encode(f) + rest) == [Join(FrameLines(f), '\n')] + Blocks(rest)
    ensures BlockEvent(Join(FrameLines(f), '\n'), parse, empty) == Delivered(f, parse, empty)
    ensures Tail(Encode(f) + rest) == Tail(rest)
  {
    FrameTagged(f);
    JoinHasNoBlank(FrameLines(f));
    BlocksHead(Join(FrameLines(f), '\n'), rest);
    SplitOfJoin(FrameLines(f), '\n');
  }

  lemma TextEventsCons<J>(raw: string, blocks: seq<string>, parse: string -> Option<J>, empty: J)
    ensures TextEvents([raw] + blocks, parse, empty)
         == [BlockEvent(raw, parse, empty)] + TextEvents(blocks, parse, empty)
  {
    FlatMapConcat(TextBlock(parse, empty), [raw], blocks);
    FlatMapOne(TextBlock(parse, empty), raw);
  }

  /** Any list of frames without embedded newlines survives the wire, under any chunking: each
      frame yields exactly one event, with its fields trimmed, and nothing is left over. */
  lemma {:induction false} RoundTrip<J>(frames: seq<Frame>, parse: string -> Option<J>, empty: J)
    requires forall f :: f in frames ==>
               '\n' !in f.kind && '\n' !in f.id && forall d :: d in f.data ==> '\n' !in d
    ensures TextEvents(Blocks(EncodeAll(frames)), parse, empty) == DeliveredAll(frames, parse, empty)
    ensures Tail(EncodeAll(frames)) == ""
  {
    if frames != [] {
      var f, rest := frames[0], EncodeAll(frames[1..]);
      assert f in frames;
      assert forall g :: g in frames[1..] ==> g in frames;
      RoundTrip(frames[1..], parse, empty);
      FrameBlock(f, rest, parse, empty);
      TextEventsCons(Join(FrameLines(f), '\n'), Blocks(rest), parse, empty);
    }
  }

  lemma LetterIsNoSpace(c: char)
    requires 'a' <= c <= 'z'
    ensures !IsSpace(c)
  {
  }

  lemma KnownTypesStable(kind: string)
    requires kind in KNOWN_TYPES
    ensures kind != "" && Trim(kind) == kind
  {
    assert kind != "" && 'a' <= kind[0] <= 'z' && 'a' <= kind[|kind| - 1] <= 'z';
    LetterIsNoSpace(kind[0]);
    LetterIsNoSpace(kind[|kind| - 1]);
    TrimProjects(kind);
  }

  lemma {:induction false} JoinTrimmedShortens(data: seq<string>)
    ensures |Join(TrimAll(data), '\n')| <= |Join(data, '\n')|
    ensures |Join(TrimAll(data), '\n')| == |Join(data, '\n')| <==> forall d :: d in data ==> TrimStable(d)
  {
    if data != [] {
      var rest := data[1..];
      TrimShortens(data[0]);
      JoinTrimmedShortens(rest);
      assert data == [data[0]] + rest;
      TrimAllStable(rest);
      JoinCons(data[0], rest);
      JoinCons(Trim(data[0]), TrimAll(rest));
    }
  }

  lemma JoinCons(first: string, rest: seq<string>)
    ensures |Join([first] + rest, '\n')| == |first| + if rest == [] then 0 else 1 + |Join(rest, '\n')|
  {
    assert ([first] + rest)[1..] == rest;
  }

  /** A frame of a known type arrives with its own type; with its own id exactly when that has no
      white space at its ends; and with its own data text exactly when no data line has. */
  lemma DeliveredExactly<J>(f: Frame, parse: string -> Option<J>, empty: J)
    requires f.kind in KNOWN_TYPES
    ensures Delivered(f, parse, empty).kind == f.kind
    ensures Delivered(f, parse, empty).id == Some(f.id) <==> TrimStable(f.id)
    ensures Payload(Join(TrimAll(f.data), '\n'), parse, empty, Delivered(f, parse, empty).data)
    ensures (forall d :: d in f.data ==> TrimStable(d)) ==>
              var text := Join(f.data, '\n');
              && (text != "" && parse(text).Some? ==> Delivered(f, parse, empty).data == parse(text).value)
              && (text == "" || parse(text).None? ==> Delivered(f, parse, empty).data == empty)
    ensures Join(TrimAll(f.data), '\n') == Join(f.data, '\n') <==> forall d :: d in f.data ==> TrimStable(d)
  {
    TrimProjects(f.kind);
    TrimProjects(f.id);
    TrimAllStable(f.data);
    JoinTrimmedShortens(f.data);
    KnownTypesStable(f.kind);
  }

  /** The servers' own writer is the one-data-line case of the encoding. */
  lemma ServerSseIsEncode(event: string, id: string, payload: string)
    ensures ServerSse(event, id, payload) == Encode(Frame(event, id, [payload]))
  {
    var e, i, d := "event:" + " " + event, "id:" + " " + id, "data:" + " " + payload;
    assert DataLines([payload]) == [d];
    JoinThree(e, i, d);
    assert [e] + ([i] + [d]) == [e, i, d];
    assert ServerSse(event, id, payload) == e + ['\n'] + (i + ['\n'] + d) + BLANK_LINE;
  }

  lemma JoinThree(a: string, b: string, c: string)
    ensures Join([a, b, c], '\n') == a + ['\n'] + (b + ['\n'] + c)
  {
    assert [a, b, c][1..] == [b, c] && [b, c][1..] == [c];
    assert Join([c], '\n') == c;
    assert Join([b, c], '\n') == b + ['\n'] + c;
  }
}
