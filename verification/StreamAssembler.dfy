/**
 * Assembling a streamed chat completion: SSE lines in, text and tool deltas out, and one final payload
 * built from what was accumulated.
 */
module StreamAssembler {
  import opened Prelude
  import opened Ordering

  // ---------------------------------------------------------------- input

  /** One entry of `delta.tool_calls`; `None` is a field that is missing or not a string. */
  datatype Part = Part(index: int, id: Option<string>, name: Option<string>, args: Option<string>)

  /** `reasoning` is the first non-empty of `reasoning_content` and `reasoning`; "" when there is none. */
  datatype Delta = Delta(content: string, reasoning: string, parts: seq<Part>)

  /**
   * A JSON object of the stream. An absent `delta` is a choice without effect on text or tools; `usage` is the text of
   * a usage object, "" for an empty one.
   */
  datatype Chunk = Chunk(model: Option<string>, id: Option<string>, usage: Option<string>, finish: string, delta: Delta)

  /**
   * A line of the stream: end marker, a chunk, or something that is skipped (blank, comment, other field, bad JSON).
   */
  datatype Line = Skipped | Done | Data(chunk: Chunk)

  // ---------------------------------------------------------------- output

  datatype Slot = Slot(id: Option<string>, name: Option<string>, args: string)

  datatype ToolCall = ToolCall(index: int, id: Option<string>, name: string, args: string)

  /** The synthetic completion; a call without an id is named after its index by the caller (`stream_<index>`). */
  datatype Payload = Payload(id: string, model: string, content: string, calls: seq<ToolCall>, finish: string,
                             usage: Option<string>)

  datatype Event =
    | TextDelta(text: string, reasoning: bool)
    | ToolDelta(index: int, id: Option<string>, name: Option<string>, args: string)
    | StreamDone(payload: Payload)

  // ---------------------------------------------------------------- accumulation, on values

  datatype Acc = Acc(text: string, tools: map<int, Slot>, usage: Option<string>, finish: string,
                     model: Option<string>, respId: Option<string>)

  const START := Acc("", map[], None, "", None, None)
  const NEW_SLOT := Slot(None, None, "")

  function SlotOf(tools: map<int, Slot>, i: int): Slot {
    if i in tools then tools[i] else NEW_SLOT
  }

  function Absorb(s: Slot, p: Part): Slot {
    Slot(if p.id.Some? then p.id else s.id,
         if p.name.Some? && p.name.value != "" then p.name else s.name,
         s.args + p.args.GetOr(""))
  }

  function AddPart(tools: map<int, Slot>, p: Part): map<int, Slot> {
    tools[p.index := Absorb(SlotOf(tools, p.index), p)]
  }

  function AddParts(tools: map<int, Slot>, parts: seq<Part>): map<int, Slot> {
    if parts == [] then tools else AddPart(AddParts(tools, parts[..|parts| - 1]), parts[|parts| - 1])
  }

  /** The chunk's headers and text. */
  function AddHeaders(a: Acc, c: Chunk): Acc {
    Acc(a.text + c.delta.content, a.tools,
        if c.usage.Some? then c.usage else a.usage,
        if c.finish != "" then c.finish else a.finish,
        if a.model.Some? then a.model else c.model,
        if a.respId.Some? then a.respId else c.id)
  }

  function AddChunk(a: Acc, c: Chunk): Acc {
    AddHeaders(a, c).(tools := AddParts(a.tools, c.delta.parts))
  }

  /** The chunks before the end marker: the only ones that count. */
  function Chunks(lines: seq<Line>): seq<Chunk> {
    if lines == [] || lines[0].Done? then []
    else (if lines[0].Data? then [lines[0].chunk] else []) + Chunks(lines[1..])
  }

  function Accumulate(chunks: seq<Chunk>): Acc {
    if chunks == [] then START else AddChunk(Accumulate(chunks[..|chunks| - 1]), chunks[|chunks| - 1])
  }

  /** Python's `x or None` of a text. */
  function NonEmpty(x: Option<string>): Option<string> {
    if x == Some("") then None else x
  }

  function CallOf(i: int, s: Slot): ToolCall {
    ToolCall(i, NonEmpty(s.id), s.name.GetOr(""), s.args)
  }

  function Calls(tools: map<int, Slot>): seq<ToolCall> {
    IntOrder();
    var order := Sorted(tools.Keys, IntLeq);
    seq(|order|, k requires 0 <= k < |order| => CallOf(order[k], SlotOf(tools, order[k])))
  }

  function Build(a: Acc): Payload {
    Payload(NonEmpty(a.respId).GetOr("synthetic"), a.model.GetOr(""), a.text, Calls(a.tools),
            if a.finish != "" then a.finish else if a.tools != map[] then "tool_calls" else "stop", NonEmpty(a.usage))
  }

  // ---------------------------------------------------------------- events, on values

  /** A tool event reports the whole slot as it is filled so far. */
  function DeltaOf(i: int, s: Slot): Event {
    ToolDelta(i, s.id, s.name, s.args)
  }

  function PartEvents(tools: map<int, Slot>, parts: seq<Part>): seq<Event> {
    if parts == [] then []
    else
      var i := parts[|parts| - 1].index;
      PartEvents(tools, parts[..|parts| - 1]) + [DeltaOf(i, SlotOf(AddParts(tools, parts), i))]
  }

  function Said(text: string, reasoning: bool): seq<Event> {
    if text == "" then [] else [TextDelta(text, reasoning)]
  }

  function ChunkEvents(tools: map<int, Slot>, c: Chunk): seq<Event> {
    Said(c.delta.content, false) + Said(c.delta.reasoning, true) + PartEvents(tools, c.delta.parts)
  }

  function StreamEvents(chunks: seq<Chunk>): seq<Event> {
    if chunks == [] then []
    else
      var front := chunks[..|chunks| - 1];
      StreamEvents(front) + ChunkEvents(Accumulate(front).tools, chunks[|chunks| - 1])
  }

  // ---------------------------------------------------------------- the loop

  class Assembler {
    var acc: Acc
    var events: seq<Event>

    constructor ()
      ensures acc == START && events == []
    {
      acc, events := START, [];
    }

    /** Reads one tool part into its slot and reports the slot's running arguments. */
    method TakePart(p: Part)
      modifies this
      ensures acc == old(acc).(tools := AddPart(old(acc).tools, p))
      ensures events == old(events) + [DeltaOf(p.index, SlotOf(acc.tools, p.index))]
    {
      var slot := SlotOf(acc.tools, p.index);
      assert slot.args + "" == slot.args;
      ghost var was := slot;
      if p.id.Some? {
        slot := slot.(id := p.id);
      }
      if p.name.Some? && p.name.value != "" {
        slot := slot.(name := p.name);
      }
      if p.args.Some? {
        slot := slot.(args := slot.args + p.args.value);
      }
      assert slot == Absorb(was, p);
      acc := acc.(tools := acc.tools[p.index := slot]);
      events := events + [ToolDelta(p.index, slot.id, slot.name, slot.args)];
    }

    method TakeParts(parts: seq<Part>)
      modifies this
      ensures acc == old(acc).(tools := AddParts(old(acc).tools, parts))
      ensures events == old(events) + PartEvents(old(acc).tools, parts)
    {
      for i := 0 to |parts|
        invariant acc == old(acc).(tools := AddParts(old(acc).tools, parts[..i]))
        invariant events == old(events) + PartEvents(old(acc).tools, parts[..i])
      {
        assert parts[..i + 1][..i] == parts[..i];
        TakePart(parts[i]);
      }
      assert parts[..|parts|] == parts;
    }

    method Say(text: string, reasoning: bool)
      modifies this`events
      ensures events == old(events) + Said(text, reasoning)
    {
      if text != "" {
        events := events + [TextDelta(text, reasoning)];
      }
    }

    method TakeHeaders(c: Chunk)
      modifies this`acc
      ensures acc == AddHeaders(old(acc), c)
    {
      if c.usage.Some? {
        acc := acc.(usage := c.usage);
      }
      if acc.model.None? {
        acc := acc.(model := c.model);
      }
      if acc.respId.None? {
        acc := acc.(respId := c.id);
      }
      if c.finish != "" {
        acc := acc.(finish := c.finish);
      }
      acc := acc.(text := acc.text + c.delta.content);
    }

    /** The chunk's headers and text, then its tool parts. */
    method TakeChunk(c: Chunk)
      modifies this
      ensures acc == AddChunk(old(acc), c)
      ensures events == old(events) + ChunkEvents(old(acc).tools, c)
    {
      TakeHeaders(c);
      Say(c.delta.content, false);
      Say(c.delta.reasoning, true);
      TakeParts(c.delta.parts);
      Chain(old(events), Said(c.delta.content, false), Said(c.delta.reasoning, true),
          PartEvents(old(acc).tools, c.delta.parts));
    }

    /**
     * `iter_stream_events_from_sse_lines`: stops at the end marker or at the end of the lines, and in both
     * cases ends with the assembled completion, its only `StreamDone`.
     */
    method Run(lines: seq<Line>)
      requires acc == START && events == []
      modifies this
      ensures acc == Accumulate(Chunks(lines))
      ensures Complete(events, Chunks(lines))
    {
      ghost var read: seq<Chunk> := [];
      var i := 0;
      while i < |lines| && !lines[i].Done?
        invariant i <= |lines|
        invariant acc == Accumulate(read) && events == StreamEvents(read)
        invariant Chunks(lines) == read + Chunks(lines[i..])
      {
        ChunksStep(lines, i, read);
        if lines[i].Data? {
          assert (read + [lines[i].chunk])[..|read|] == read;
          TakeChunk(lines[i].chunk);
          read := read + [lines[i].chunk];
        }
        i := i + 1;
      }
      assert read + Chunks(lines[i..]) == read;
      StreamIsComplete(read);
      events := events + [StreamDone(Build(acc))];
    }
  }

  lemma Chain<T>(a: seq<T>, b: seq<T>, c: seq<T>, d: seq<T>)
    ensures a + b + c + d == a + (b + c + d)
  {
  }

  lemma ChunksStep(lines: seq<Line>, i: nat, read: seq<Chunk>)
    requires i < |lines| && !lines[i].Done?
    ensures read + Chunks(lines[i..]) ==
            (if lines[i].Data? then read + [lines[i].chunk] else read) + Chunks(lines[i + 1..])
  {
    assert lines[i..][1..] == lines[i + 1..];
  }

  // ---------------------------------------------------------------- what the consumer is told

  /** The text a client concatenates from the deltas of one kind. */
  function TextOf(events: seq<Event>, reasoning: bool): string {
    if events == [] then ""
    else
      var e := events[|events| - 1];
      TextOf(events[..|events| - 1], reasoning) + if e.TextDelta? && e.reasoning == reasoning then e.text else ""
  }

  function ToolDeltas(events: seq<Event>): seq<Event> {
    if events == [] then []
    else
      var e := events[|events| - 1];
      ToolDeltas(events[..|events| - 1]) + if e.ToolDelta? then [e] else []
  }

  predicate DeltaTells(e: Event, i: int, own: seq<Part>) {
    e == ToolDelta(i, LastId(own), if LastName(own) == "" then None else Some(LastName(own)), Fragments(own))
  }

  /** Each tool delta names its index and says what the parts of that index say up to it. */
  predicate DeltasTell(deltas: seq<Event>, parts: seq<Part>) {
    && |deltas| == |parts|
    && forall k :: 0 <= k < |parts| ==> DeltaTells(deltas[k], parts[k].index, PartsOf(parts[..k + 1], parts[k].index))
  }

  /**
   * The content and the reasoning deltas spell the two texts, and there is one tool delta for every part, in order,
   * which carries the slot that the parts of its index fill so far; nothing ends the stream.
   */
  ghost predicate Tells(events: seq<Event>, chunks: seq<Chunk>) {
    var parts, deltas := AllParts(chunks), ToolDeltas(events);
    && TextOf(events, false) == Text(chunks) && TextOf(events, true) == Reasoning(chunks)
    && |deltas| == |parts|
    && (forall k :: 0 <= k < |parts| ==>
          deltas[k] == DeltaOf(parts[k].index, Fill(PartsOf(parts[..k + 1], parts[k].index))))
    && DeltasTell(deltas, parts)
    && (forall k :: 0 <= k < |events| ==> !events[k].StreamDone?)
  }

  lemma {:induction false} TextAppend(xs: seq<Event>, ys: seq<Event>, reasoning: bool)
    ensures TextOf(xs + ys, reasoning) == TextOf(xs, reasoning) + TextOf(ys, reasoning)
    decreases |ys|
  {
    if ys == [] {
      assert xs + ys == xs;
    } else {
      var front, e := ys[..|ys| - 1], ys[|ys| - 1];
      TextAppend(xs, front, reasoning);
      assert (xs + ys)[..|xs + ys| - 1] == xs + front && (xs + ys)[|xs + ys| - 1] == e;
      Regroup(TextOf(xs, reasoning), TextOf(front, reasoning),
              if e.TextDelta? && e.reasoning == reasoning then e.text else "");
    }
  }

  lemma {:induction false} DeltasAppend(xs: seq<Event>, ys: seq<Event>)
    ensures ToolDeltas(xs + ys) == ToolDeltas(xs) + ToolDeltas(ys)
    decreases |ys|
  {
    if ys == [] {
      assert xs + ys == xs;
    } else {
      var front, e := ys[..|ys| - 1], ys[|ys| - 1];
      DeltasAppend(xs, front);
      assert (xs + ys)[..|xs + ys| - 1] == xs + front && (xs + ys)[|xs + ys| - 1] == e;
      Regroup(ToolDeltas(xs), ToolDeltas(front), if e.ToolDelta? then [e] else []);
    }
  }

  lemma {:induction false} PartEventsProject(tools: map<int, Slot>, parts: seq<Part>, reasoning: bool)
    ensures var events := PartEvents(tools, parts);
            && TextOf(events, reasoning) == "" && ToolDeltas(events) == events
            && forall k :: 0 <= k < |events| ==> events[k].ToolDelta?
    decreases |parts|
  {
    if parts != [] {
      var front := PartEvents(tools, parts[..|parts| - 1]);
      PartEventsProject(tools, parts[..|parts| - 1], reasoning);
      assert PartEvents(tools, parts)[..|PartEvents(tools, parts)| - 1] == front;
    }
  }

  lemma {:induction false} PartEventsLength(tools: map<int, Slot>, parts: seq<Part>)
    ensures |PartEvents(tools, parts)| == |parts|
    decreases |parts|
  {
    if parts != [] {
      PartEventsLength(tools, parts[..|parts| - 1]);
    }
  }

  lemma SaidProjects(text: string, kind: bool, reasoning: bool)
    ensures TextOf(Said(text, kind), reasoning) == (if kind == reasoning then text else "")
            && ToolDeltas(Said(text, kind)) == []
  {
    assert Said(text, kind) != [] ==> Said(text, kind)[..0] == [];
  }

  lemma ChunkText(tools: map<int, Slot>, c: Chunk, reasoning: bool)
    ensures TextOf(ChunkEvents(tools, c), reasoning) == if reasoning then c.delta.reasoning else c.delta.content
  {
    var said, thought := Said(c.delta.content, false), Said(c.delta.reasoning, true);
    var told := PartEvents(tools, c.delta.parts);
    SaidProjects(c.delta.content, false, reasoning);
    SaidProjects(c.delta.reasoning, true, reasoning);
    PartEventsProject(tools, c.delta.parts, reasoning);
    TextAppend(said, thought, reasoning);
    TextAppend(said + thought, told, reasoning);
  }

  lemma ChunkDeltas(tools: map<int, Slot>, c: Chunk)
    ensures ToolDeltas(ChunkEvents(tools, c)) == PartEvents(tools, c.delta.parts)
  {
    var said, thought := Said(c.delta.content, false), Said(c.delta.reasoning, true);
    var told := PartEvents(tools, c.delta.parts);
    SaidProjects(c.delta.content, false, false);
    SaidProjects(c.delta.reasoning, true, false);
    PartEventsProject(tools, c.delta.parts, false);
    DeltasAppend(said, thought);
    DeltasAppend(said + thought, told);
  }

  lemma ChunkNeverEnds(tools: map<int, Slot>, c: Chunk)
    ensures forall k :: 0 <= k < |ChunkEvents(tools, c)| ==> !ChunkEvents(tools, c)[k].StreamDone?
  {
    PartEventsProject(tools, c.delta.parts, false);
  }

  lemma {:induction false} PartEventsAppend(tools: map<int, Slot>, xs: seq<Part>, ys: seq<Part>)
    ensures PartEvents(tools, xs + ys) == PartEvents(tools, xs) + PartEvents(AddParts(tools, xs), ys)
    decreases |ys|
  {
    if ys == [] {
      assert xs + ys == xs;
    } else {
      PartEventsAppend(tools, xs, ys[..|ys| - 1]);
      AddPartsAppend(tools, xs, ys);
      assert (xs + ys)[..|xs + ys| - 1] == xs + ys[..|ys| - 1];
    }
  }

  /** The events of a stream by their projections. */
  lemma {:induction false} StreamProjects(chunks: seq<Chunk>)
    ensures var events := StreamEvents(chunks);
            && TextOf(events, false) == Text(chunks) && TextOf(events, true) == Reasoning(chunks)
            && ToolDeltas(events) == PartEvents(map[], AllParts(chunks))
            && forall k :: 0 <= k < |events| ==> !events[k].StreamDone?
    decreases |chunks|
  {
    if chunks != [] {
      var front, c := chunks[..|chunks| - 1], chunks[|chunks| - 1];
      var tools := Accumulate(front).tools;
      StreamProjects(front);
      ToolsFromParts(front);
      ChunkText(tools, c, false);
      ChunkText(tools, c, true);
      ChunkDeltas(tools, c);
      ChunkNeverEnds(tools, c);
      TextAppend(StreamEvents(front), ChunkEvents(tools, c), false);
      TextAppend(StreamEvents(front), ChunkEvents(tools, c), true);
      DeltasAppend(StreamEvents(front), ChunkEvents(tools, c));
      PartEventsAppend(map[], AllParts(front), c.delta.parts);
    }
  }

  /** Each tool event carries what the parts of its own index say so far. */
  lemma {:induction false} PartEventAt(parts: seq<Part>, k: nat)
    requires k < |parts|
    ensures |PartEvents(map[], parts)| == |parts|
    ensures PartEvents(map[], parts)[k] == DeltaOf(parts[k].index, Fill(PartsOf(parts[..k + 1], parts[k].index)))
    decreases |parts|
  {
    var n := |parts| - 1;
    PartEventsLength(map[], parts);
    PartEventsLength(map[], parts[..n]);
    if k < n {
      PartEventAt(parts[..n], k);
      assert parts[..n][..k + 1] == parts[..k + 1];
    } else {
      assert parts[..k + 1] == parts;
      SlotFromOwnParts(parts, parts[k].index);
    }
  }

  lemma EventsTell(chunks: seq<Chunk>)
    ensures Tells(StreamEvents(chunks), chunks)
  {
    var parts := AllParts(chunks);
    StreamProjects(chunks);
    PartEventsLength(map[], parts);
    forall k | 0 <= k < |parts|
      ensures PartEvents(map[], parts)[k] == DeltaOf(parts[k].index, Fill(PartsOf(parts[..k + 1], parts[k].index)))
    {
      PartEventAt(parts, k);
    }
    forall k | 0 <= k < |parts|
      ensures DeltaTells(PartEvents(map[], parts)[k], parts[k].index, PartsOf(parts[..k + 1], parts[k].index))
    {
      PartEventAt(parts, k);
      FillMeans(PartsOf(parts[..k + 1], parts[k].index));
    }
  }

  /** The arguments told for an index only ever grow, each a prefix of the final ones. */
  lemma DeltasGrow(events: seq<Event>, lines: seq<Line>, j: nat, k: nat)
    requires Tells(events, Chunks(lines)) && j <= k < |ToolDeltas(events)|
    requires ToolDeltas(events)[j].index == ToolDeltas(events)[k].index
    ensures var d, a := ToolDeltas(events), Accumulate(Chunks(lines));
            d[j].args <= d[k].args && d[k].index in a.tools && d[k].args <= a.tools[d[k].index].args
  {
    var chunks := Chunks(lines);
    var parts, i := AllParts(chunks), ToolDeltas(events)[k].index;
    ToolsFromParts(chunks);
    SlotFromOwnParts(parts, i);
    PartsGrow(parts, j + 1, k + 1, i);
    PartsGrow(parts, k + 1, |parts|, i);
    assert parts[..|parts|] == parts;
    PartsHold(parts, k, i);
  }

  /** The last event of an index tells exactly its final slot. */
  lemma LastDeltaIsFinal(events: seq<Event>, lines: seq<Line>, k: nat)
    requires Tells(events, Chunks(lines)) && k < |ToolDeltas(events)|
    requires forall m :: k < m < |ToolDeltas(events)| ==> ToolDeltas(events)[m].index != ToolDeltas(events)[k].index
    ensures var i, a := ToolDeltas(events)[k].index, Accumulate(Chunks(lines));
            i in a.tools && ToolDeltas(events)[k] == DeltaOf(i, a.tools[i])
  {
    var chunks := Chunks(lines);
    var parts, d := AllParts(chunks), ToolDeltas(events);
    ToolsFromParts(chunks);
    SlotFromOwnParts(parts, parts[k].index);
    forall m | k < m < |parts|
      ensures parts[m].index != parts[k].index
    {
      assert d[m].index == parts[m].index;
    }
    LastPartFills(parts, k, parts[k].index);
  }

  lemma LastPartFills(parts: seq<Part>, k: nat, i: int)
    requires k < |parts| && parts[k].index == i && forall m :: k < m < |parts| ==> parts[m].index != i
    ensures PartsOf(parts, i) == PartsOf(parts[..k + 1], i) != []
  {
    assert parts[..|parts|] == parts;
    PartsHold(parts, k, i);
    NoMoreParts(parts, k + 1, |parts|, i);
  }

  lemma {:induction false} PartsGrow(parts: seq<Part>, j: nat, k: nat, i: int)
    requires j <= k <= |parts|
    ensures Fill(PartsOf(parts[..j], i)).args <= Fill(PartsOf(parts[..k], i)).args
    ensures |PartsOf(parts[..j], i)| <= |PartsOf(parts[..k], i)|
    decreases k
  {
    if j < k {
      PartsGrow(parts, j, k - 1, i);
      PartsSnoc(parts, k - 1, i);
    }
  }

  lemma PartsSnoc(parts: seq<Part>, k: nat, i: int)
    requires k < |parts|
    ensures var before, after := PartsOf(parts[..k], i), PartsOf(parts[..k + 1], i);
            && after == before + (if parts[k].index == i then [parts[k]] else [])
            && Fill(after) == if parts[k].index == i then Absorb(Fill(before), parts[k]) else Fill(before)
  {
    var before := PartsOf(parts[..k], i);
    assert parts[..k + 1][..k] == parts[..k];
    if parts[k].index == i {
      assert (before + [parts[k]])[..|before|] == before;
    } else {
      assert PartsOf(parts[..k + 1], i) == before;
    }
  }

  lemma PartsHold(parts: seq<Part>, k: nat, i: int)
    requires k < |parts| && parts[k].index == i
    ensures PartsOf(parts, i) != []
  {
    PartsSnoc(parts, k, i);
    PartsGrow(parts, k + 1, |parts|, i);
    assert parts[..|parts|] == parts;
  }

  lemma {:induction false} NoMoreParts(parts: seq<Part>, j: nat, k: nat, i: int)
    requires j <= k <= |parts| && forall m :: j <= m < k ==> parts[m].index != i
    ensures PartsOf(parts[..k], i) == PartsOf(parts[..j], i)
    decreases k
  {
    if j < k {
      NoMoreParts(parts, j, k - 1, i);
      PartsSnoc(parts, k - 1, i);
    }
  }

  // ---------------------------------------------------------------- the payload by projections

  /** The parts of one index, in arrival order. */
  function PartsOf(parts: seq<Part>, i: int): seq<Part> {
    if parts == [] then []
    else PartsOf(parts[..|parts| - 1], i) + if parts[|parts| - 1].index == i then [parts[|parts| - 1]] else []
  }

  /** All parts of the stream, in arrival order. */
  function AllParts(chunks: seq<Chunk>): seq<Part> {
    if chunks == [] then [] else AllParts(chunks[..|chunks| - 1]) + chunks[|chunks| - 1].delta.parts
  }

  function Fragments(parts: seq<Part>): string {
    if parts == [] then "" else Fragments(parts[..|parts| - 1]) + parts[|parts| - 1].args.GetOr("")
  }

  function Fill(parts: seq<Part>): Slot {
    if parts == [] then NEW_SLOT else Absorb(Fill(parts[..|parts| - 1]), parts[|parts| - 1])
  }

  function Text(chunks: seq<Chunk>): string {
    if chunks == [] then "" else Text(chunks[..|chunks| - 1]) + chunks[|chunks| - 1].delta.content
  }

  function Reasoning(chunks: seq<Chunk>): string {
    if chunks == [] then "" else Reasoning(chunks[..|chunks| - 1]) + chunks[|chunks| - 1].delta.reasoning
  }

  lemma {:induction false} AddPartsAppend(tools: map<int, Slot>, xs: seq<Part>, ys: seq<Part>)
    ensures AddParts(AddParts(tools, xs), ys) == AddParts(tools, xs + ys)
    decreases |ys|
  {
    if ys == [] {
      assert xs + ys == xs;
    } else {
      AddPartsAppend(tools, xs, ys[..|ys| - 1]);
      assert (xs + ys)[..|xs + ys| - 1] == xs + ys[..|ys| - 1];
    }
  }

  lemma {:induction false} ToolsFromParts(chunks: seq<Chunk>)
    ensures Accumulate(chunks).tools == AddParts(map[], AllParts(chunks)) && Accumulate(chunks).text == Text(chunks)
    decreases |chunks|
  {
    if chunks != [] {
      ToolsFromParts(chunks[..|chunks| - 1]);
      AddPartsAppend(map[], AllParts(chunks[..|chunks| - 1]), chunks[|chunks| - 1].delta.parts);
    }
  }

  lemma {:induction false} SlotFromOwnParts(parts: seq<Part>, i: int)
    ensures i in AddParts(map[], parts) <==> PartsOf(parts, i) != []
    ensures SlotOf(AddParts(map[], parts), i) == Fill(PartsOf(parts, i))
    decreases |parts|
  {
    if parts != [] {
      var front, p := parts[..|parts| - 1], parts[|parts| - 1];
      SlotFromOwnParts(front, i);
      if p.index == i {
        assert PartsOf(parts, i) == PartsOf(front, i) + [p];
        assert (PartsOf(front, i) + [p])[..|PartsOf(front, i)|] == PartsOf(front, i);
      } else {
        assert PartsOf(parts, i) == PartsOf(front, i);
      }
    }
  }

  /** Each tool index's arguments are exactly its fragments, concatenated in arrival order, whatever came in between. */
  lemma ArgumentsAreFragments(lines: seq<Line>, i: int)
    ensures var a := Accumulate(Chunks(lines));
            && (i in a.tools <==> PartsOf(AllParts(Chunks(lines)), i) != [])
            && SlotOf(a.tools, i).args == Fragments(PartsOf(AllParts(Chunks(lines)), i))
  {
    ToolsFromParts(Chunks(lines));
    SlotFromOwnParts(AllParts(Chunks(lines)), i);
    FillMeans(PartsOf(AllParts(Chunks(lines)), i));
  }

  /** The id last sent, even an empty one. */
  function LastId(parts: seq<Part>): Option<string> {
    if parts == [] then None
    else if parts[|parts| - 1].id.Some? then parts[|parts| - 1].id
    else LastId(parts[..|parts| - 1])
  }

  /** The last name that is not empty, "" when there is none. */
  function LastName(parts: seq<Part>): string {
    if parts == [] then ""
    else if parts[|parts| - 1].name.GetOr("") != "" then parts[|parts| - 1].name.value
    else LastName(parts[..|parts| - 1])
  }

  /** What a call of the payload says, given the parts of its index in arrival order. */
  predicate CallTells(call: ToolCall, own: seq<Part>) {
    && call.args == Fragments(own) && call.name == LastName(own)
    && call.id == if LastId(own) == Some("") then None else LastId(own)
  }

  /** One call for every index that was seen, in increasing order, each told by the parts of its index. */
  ghost predicate CallsTell(calls: seq<ToolCall>, parts: seq<Part>) {
    && (forall j, k :: 0 <= j < k < |calls| ==> calls[j].index < calls[k].index)
    && (forall k :: 0 <= k < |calls| ==>
          PartsOf(parts, calls[k].index) != [] && CallTells(calls[k], PartsOf(parts, calls[k].index)))
    && (forall i :: PartsOf(parts, i) != [] ==> exists k :: 0 <= k < |calls| && calls[k].index == i)
  }

  /** The final completion in terms of the chunks alone. */
  ghost predicate PayloadTells(p: Payload, chunks: seq<Chunk>) {
    && p.content == Text(chunks)
    && CallsTell(p.calls, AllParts(chunks))
    && p.model == FirstModel(chunks).GetOr("")
    && p.id == (if FirstId(chunks).GetOr("") == "" then "synthetic" else FirstId(chunks).value)
    && p.usage == (if LastUsage(chunks) == Some("") then None else LastUsage(chunks))
    && p.finish == (if LastFinish(chunks) != "" then LastFinish(chunks)
                    else if AllParts(chunks) == [] then "stop" else "tool_calls")
  }

  lemma {:induction false} FillMeans(parts: seq<Part>)
    ensures var s := Fill(parts);
            && s.args == Fragments(parts) && s.id == LastId(parts)
            && s.name == if LastName(parts) == "" then None else Some(LastName(parts))
    decreases |parts|
  {
    if parts != [] {
      FillMeans(parts[..|parts| - 1]);
    }
  }

  /** The calls of the payload are the indices seen, each once, in increasing order, with what their parts say. */
  lemma CallsAreOrdered(parts: seq<Part>)
    ensures CallsTell(Calls(AddParts(map[], parts)), parts)
  {
    var tools := AddParts(map[], parts);
    IntOrder();
    SortedLists(tools.Keys, IntLeq);
    var order, calls := Sorted(tools.Keys, IntLeq), Calls(tools);
    forall k | 0 <= k < |calls|
      ensures calls[k].index == order[k] && PartsOf(parts, order[k]) != []
      ensures CallTells(calls[k], PartsOf(parts, order[k]))
    {
      assert order[k] in tools.Keys;
      SlotFromOwnParts(parts, order[k]);
      FillMeans(PartsOf(parts, order[k]));
    }
    forall i | PartsOf(parts, i) != []
      ensures exists k :: 0 <= k < |calls| && calls[k].index == i
    {
      SlotFromOwnParts(parts, i);
      assert i in order;
      var k :| 0 <= k < |order| && order[k] == i;
      assert calls[k].index == i;
    }
  }

  lemma AnyPartAnyTool(parts: seq<Part>)
    ensures AddParts(map[], parts) == map[] <==> parts == []
  {
    if parts != [] {
      var p := parts[|parts| - 1];
      assert p.index in AddParts(map[], parts);
    }
  }

  /** The assembled completion says what the chunks say. */
  lemma PayloadMeans(chunks: seq<Chunk>)
    ensures PayloadTells(Build(Accumulate(chunks)), chunks)
  {
    ToolsFromParts(chunks);
    HeadersFromChunks(chunks);
    CallsAreOrdered(AllParts(chunks));
    AnyPartAnyTool(AllParts(chunks));
  }

  /** What a consumer receives for the chunks that count: the deltas, then the completion. */
  ghost predicate Complete(events: seq<Event>, chunks: seq<Chunk>) {
    && events != [] && Tells(events[..|events| - 1], chunks)
    && events[|events| - 1].StreamDone? && PayloadTells(events[|events| - 1].payload, chunks)
  }

  lemma StreamIsComplete(chunks: seq<Chunk>)
    ensures Complete(StreamEvents(chunks) + [StreamDone(Build(Accumulate(chunks)))], chunks)
  {
    EventsTell(chunks);
    PayloadMeans(chunks);
    var told := StreamEvents(chunks);
    assert (told + [StreamDone(Build(Accumulate(chunks)))])[..|told|] == told;
  }

  /** Which chunks count: those of the data lines, in order, up to the first end marker. */
  lemma {:induction false} ChunksMean(before: seq<Line>, line: Line, after: seq<Line>)
    requires forall k :: 0 <= k < |before| ==> !before[k].Done?
    ensures Chunks([]) == []
    ensures line.Skipped? ==> Chunks(before + [line] + after) == Chunks(before + after)
    ensures line.Done? ==> Chunks(before + [line] + after) == Chunks(before)
    ensures line.Data? ==> Chunks(before + [line] + after) == Chunks(before) + [line.chunk] + Chunks(after)
    decreases |before|
  {
    var all := before + [line] + after;
    if before == [] {
      assert all[1..] == after && before + after == after;
    } else {
      ChunksMean(before[1..], line, after);
      assert all[1..] == before[1..] + [line] + after && (before + after)[1..] == before[1..] + after;
    }
  }

  function LastUsage(chunks: seq<Chunk>): Option<string> {
    if chunks == [] then None
    else if chunks[|chunks| - 1].usage.Some? then chunks[|chunks| - 1].usage else LastUsage(chunks[..|chunks| - 1])
  }

  function LastFinish(chunks: seq<Chunk>): string {
    if chunks == [] then ""
    else if chunks[|chunks| - 1].finish != "" then chunks[|chunks| - 1].finish else LastFinish(chunks[..|chunks| - 1])
  }

  function FirstModel(chunks: seq<Chunk>): Option<string> {
    if chunks == [] then None else if chunks[0].model.Some? then chunks[0].model else FirstModel(chunks[1..])
  }

  function FirstId(chunks: seq<Chunk>): Option<string> {
    if chunks == [] then None else if chunks[0].id.Some? then chunks[0].id else FirstId(chunks[1..])
  }

  lemma {:induction false} FirstSnoc(chunks: seq<Chunk>, c: Chunk)
    ensures FirstModel(chunks + [c]) == if FirstModel(chunks).Some? then FirstModel(chunks) else c.model
    ensures FirstId(chunks + [c]) == if FirstId(chunks).Some? then FirstId(chunks) else c.id
    decreases |chunks|
  {
    if chunks != [] {
      FirstSnoc(chunks[1..], c);
      assert (chunks + [c])[1..] == chunks[1..] + [c];
    } else {
      assert (chunks + [c])[1..] == [];
    }
  }

  lemma {:induction false} HeadersFromChunks(chunks: seq<Chunk>)
    ensures var a := Accumulate(chunks);
            && a.usage == LastUsage(chunks) && a.finish == LastFinish(chunks)
            && a.model == FirstModel(chunks) && a.respId == FirstId(chunks)
    decreases |chunks|
  {
    if chunks != [] {
      var front, c := chunks[..|chunks| - 1], chunks[|chunks| - 1];
      HeadersFromChunks(front);
      FirstSnoc(front, c);
      assert chunks == front + [c];
    }
  }

  /**
   * Re-interleaving: two streams with the same text, the same parts per tool index, the same last usage and
   * finish reason and the same first model and id end with the same payload, however their pieces were
   * interleaved or split into chunks, and whatever follows the end marker.
   */
  lemma InterleavingIrrelevant(xs: seq<Line>, ys: seq<Line>)
    requires var c, d := Chunks(xs), Chunks(ys);
             && Text(c) == Text(d) && LastUsage(c) == LastUsage(d) && LastFinish(c) == LastFinish(d)
             && FirstModel(c) == FirstModel(d) && FirstId(c) == FirstId(d)
    requires forall i :: PartsOf(AllParts(Chunks(xs)), i) == PartsOf(AllParts(Chunks(ys)), i)
    ensures Build(Accumulate(Chunks(xs))) == Build(Accumulate(Chunks(ys)))
  {
    var c, d := Chunks(xs), Chunks(ys);
    HeadersFromChunks(c);
    HeadersFromChunks(d);
    SameParts(c, d);
  }

  lemma SameParts(c: seq<Chunk>, d: seq<Chunk>)
    requires Text(c) == Text(d) && forall i :: PartsOf(AllParts(c), i) == PartsOf(AllParts(d), i)
    ensures Accumulate(c).tools == Accumulate(d).tools && Accumulate(c).text == Accumulate(d).text
  {
    ToolsFromParts(c);
    ToolsFromParts(d);
    var a, b := Accumulate(c).tools, Accumulate(d).tools;
    forall i
      ensures i in a <==> i in b
      ensures i in a ==> a[i] == b[i]
    {
      SlotFromOwnParts(AllParts(c), i);
      SlotFromOwnParts(AllParts(d), i);
      assert SlotOf(a, i) == SlotOf(b, i);
    }
  }
}
