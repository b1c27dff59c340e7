/**
 * The background chat worker's event handler: it keeps the assistant text, a timeline of thought and
 * shell blocks with an index by call id, and a second copy of the shell calls in the bash store.
 */
module ChatWorker {
  import opened Prelude
  import opened Text
  import opened BashChatStore

  datatype Block =
    | Thought(text: string)
    | Shell(callId: string, toolName: string, command: string, status: Status, output: string, error: string)

  /** What the handler reads of an event; payloads of the wrong shape are `Other`. */
  datatype Event =
    | AssistantDelta(text: string)
    | ToolCallFinished(tool: string, ok: bool, path: Option<string>, kind: string)
    | BashExecution(x: Execution)
    | BashOutputDelta(callId: string, chunk: string)
    | BashFinished(callId: string, ok: bool, error: string)
    | ToolCallStarted(tool: string, startedId: Option<string>, command: Option<string>)
    | Other

  datatype FileChange = FileChange(created: bool, path: string)

  datatype Worker = Worker(live: seq<string>, text: string, timeline: seq<Block>, published: seq<Block>,
                           index: map<string, nat>, rows: seq<Row>, executions: seq<Execution>,
                           fileChanges: seq<FileChange>, statusLine: string)

  const IDLE := Worker([], "", [], [], map[], [], [], [], "")

  predicate IsShellTool(tool: string) {
    tool == "run_shell" || tool == "run_shell_session" || tool == "shell_reset"
  }

  /** A thought extends the last block when that is a thought. */
  function AppendThought(timeline: seq<Block>, text: string): seq<Block> {
    if text == "" then timeline
    else if timeline != [] && timeline[|timeline| - 1].Thought? then
      timeline[|timeline| - 1 := Thought(timeline[|timeline| - 1].text + text)]
    else timeline + [Thought(text)]
  }

  /** The index leads to a shell block. */
  predicate Located(w: Worker, callId: string) {
    callId in w.index && w.index[callId] < |w.timeline| && w.timeline[w.index[callId]].Shell?
  }

  function Replaced(w: Worker, callId: string, b: Block): Worker
    requires Located(w, callId)
  {
    w.(timeline := w.timeline[w.index[callId] := b])
  }

  function EnsureShellBlock(w: Worker, callId: string, tool: string, command: string): Worker {
    if Located(w, callId) then Replaced(w, callId, w.timeline[w.index[callId]].(toolName := tool, command := command))
    else
      w.(timeline := w.timeline + [Shell(callId, tool, command, Running, "", "")],
         index := w.index[callId := |w.timeline|])
  }

  function Publish(w: Worker): Worker {
    w.(published := w.timeline)
  }

  function Step(w: Worker, ev: Event): Worker {
    match ev
    case AssistantDelta(text) =>
      if text == "" then w
      else
        Publish(w.(live := w.live + [text], text := Join(w.live + [text]), timeline := AppendThought(w.timeline, text)))
    case ToolCallFinished(tool, ok, path, kind) =>
      if ok && tool == "write_file" && path.Some? && (kind == "created" || kind == "updated") then
        w.(fileChanges := w.fileChanges + [FileChange(kind == "created", path.value)])
      else w
    case BashExecution(x) =>
      var v := w.(executions := w.executions + [x], rows := AppendExecution(w.rows, x, MAX_RUNS));
      if x.callId != "" && Located(v, x.callId) then
        Publish(Replaced(v, x.callId, v.timeline[v.index[x.callId]].(status := StatusOf(x.ok), output := x.output)))
      else v
    case BashOutputDelta(id, chunk) =>
      var v := w.(rows := AppendDelta(w.rows, id, chunk));
      if Located(v, id) then
        var b := v.timeline[v.index[id]];
        Publish(Replaced(v, id, b.(output := b.output + chunk)))
      else v
    case BashFinished(id, ok, error) =>
      var v := w.(rows := MarkFinished(w.rows, id, ok, error));
      if Located(v, id) then
        var b := v.timeline[v.index[id]];
        Publish(Replaced(v, id, b.(status := StatusOf(ok), error := if error != "" then error else b.error)))
      else v
    case ToolCallStarted(tool, id, command) =>
      var v := if Strip(tool) != "" then w.(statusLine := "Шаг: " + Strip(tool)) else w;
      if IsShellTool(tool) && id.Some? && command.Some? then
        Publish(EnsureShellBlock(v.(rows := UpsertRunning(v.rows, id.value, command.value, tool)),
                                 id.value, tool, command.value))
      else v
    case Other => w
  }

  // ---------------------------------------------------------------- the handler

  class ChatStopWorker {
    const shellStore: ShellStore
    var live: seq<string>
    var assistantText: string
    var timeline: seq<Block>
    var published: seq<Block>
    var shellIndex: map<string, nat>
    var executions: seq<Execution>
    var fileChanges: seq<FileChange>
    var statusLine: string

    constructor ()
      ensures State() == IDLE && fresh(shellStore)
    {
      shellStore := new ShellStore();
      live, assistantText, timeline, published := [], "", [], [];
      shellIndex, executions, fileChanges, statusLine := map[], [], [], "";
    }

    ghost function State(): Worker
      reads this, shellStore
    {
      Worker(live, assistantText, timeline, published, shellIndex, shellStore.runs, executions, fileChanges, statusLine)
    }

    method AddThought(text: string)
      modifies this`timeline
      ensures timeline == AppendThought(old(timeline), text)
    {
      if text == "" {
        return;
      }
      if timeline != [] && timeline[|timeline| - 1].Thought? {
        timeline := timeline[|timeline| - 1 := Thought(timeline[|timeline| - 1].text + text)];
      } else {
        timeline := timeline + [Thought(text)];
      }
    }

    method EnsureBlock(callId: string, tool: string, command: string)
      modifies this`timeline, this`shellIndex
      ensures State() == EnsureShellBlock(old(State()), callId, tool, command)
    {
      if callId in shellIndex {
        var i := shellIndex[callId];
        if i < |timeline| && timeline[i].Shell? {
          timeline := timeline[i := timeline[i].(toolName := tool, command := command)];
          return;
        }
      }
      timeline := timeline + [Shell(callId, tool, command, Running, "", "")];
      shellIndex := shellIndex[callId := |timeline| - 1];
    }

    /** Writes a block through the index and republishes the timeline. */
    method Put(callId: string, b: Block)
      requires Located(State(), callId)
      modifies this`timeline, this`published
      ensures State() == Publish(Replaced(old(State()), callId, b))
    {
      timeline := timeline[shellIndex[callId] := b];
      published := timeline;
    }

    method OnExecution(x: Execution)
      modifies this, shellStore
      ensures State() == Step(old(State()), BashExecution(x))
    {
      executions := executions + [x];
      shellStore.RecordExecution(x, MAX_RUNS);
      if x.callId != "" && x.callId in shellIndex {
        var i := shellIndex[x.callId];
        if i < |timeline| && timeline[i].Shell? {
          Put(x.callId, timeline[i].(status := StatusOf(x.ok), output := x.output));
        }
      }
    }

    method OnOutputDelta(id: string, chunk: string)
      modifies this, shellStore
      ensures State() == Step(old(State()), BashOutputDelta(id, chunk))
    {
      shellStore.AppendOutputDelta(id, chunk);
      if id in shellIndex {
        var i := shellIndex[id];
        if i < |timeline| && timeline[i].Shell? {
          Put(id, timeline[i].(output := timeline[i].output + chunk));
        }
      }
    }

    method OnFinished(id: string, ok: bool, error: string)
      modifies this, shellStore
      ensures State() == Step(old(State()), BashFinished(id, ok, error))
    {
      shellStore.Finish(id, ok, error);
      if id in shellIndex {
        var i := shellIndex[id];
        if i < |timeline| && timeline[i].Shell? {
          Put(id, timeline[i].(status := StatusOf(ok), error := if error != "" then error else timeline[i].error));
        }
      }
    }

    /**
     * The handler. The first branch for `tool.call_finished` always returns, so shell calls never reach a second one.
     */
    method OnEvent(ev: Event)
      modifies this, shellStore
      ensures State() == Step(old(State()), ev)
    {
      match ev
      case AssistantDelta(text) =>
        if text != "" {
          live := live + [text];
          assistantText := Join(live);
          AddThought(text);
          published := timeline;
        }
      case ToolCallFinished(tool, ok, path, kind) =>
        if ok && tool == "write_file" && path.Some? && (kind == "created" || kind == "updated") {
          fileChanges := fileChanges + [FileChange(kind == "created", path.value)];
        }
      case BashExecution(x) => OnExecution(x);
      case BashOutputDelta(id, chunk) => OnOutputDelta(id, chunk);
      case BashFinished(id, ok, error) => OnFinished(id, ok, error);
      case ToolCallStarted(tool, id, command) =>
        if Strip(tool) != "" {
          statusLine := "Шаг: " + Strip(tool);
        }
        if IsShellTool(tool) && id.Some? && command.Some? {
          shellStore.UpsertRunningCall(id.value, command.value, tool);
          EnsureBlock(id.value, tool, command.value);
          published := timeline;
        }
      case Other =>
    }
  }

  // ---------------------------------------------------------------- runs

  function Run(events: seq<Event>): Worker {
    if events == [] then IDLE else Step(Run(events[..|events| - 1]), events[|events| - 1])
  }

  function Thoughts(timeline: seq<Block>): string {
    if timeline == [] then ""
    else
      var b := timeline[|timeline| - 1];
      Thoughts(timeline[..|timeline| - 1]) + if b.Thought? then b.text else ""
  }

  /** The index and the shell blocks are inverse to each other. */
  ghost predicate IndexExact(w: Worker) {
    && (forall id :: id in w.index ==> w.index[id] < |w.timeline| && w.timeline[w.index[id]].Shell?
                                       && w.timeline[w.index[id]].callId == id)
    && (forall i :: 0 <= i < |w.timeline| && w.timeline[i].Shell? ==>
          w.timeline[i].callId in w.index && w.index[w.timeline[i].callId] == i)
  }

  ghost predicate ThoughtsSeparated(timeline: seq<Block>) {
    && (forall i :: 0 <= i < |timeline| - 1 ==> !(timeline[i].Thought? && timeline[i + 1].Thought?))
    && (forall i :: 0 <= i < |timeline| && timeline[i].Thought? ==> timeline[i].text != "")
  }

  ghost predicate Consistent(w: Worker) {
    && IndexExact(w) && ThoughtsSeparated(w.timeline) && UniqueIds(w.rows)
    && w.published == w.timeline && w.text == Join(w.live) && Thoughts(w.timeline) == w.text
  }

  lemma ThoughtsSnoc(timeline: seq<Block>, b: Block)
    ensures Thoughts(timeline + [b]) == Thoughts(timeline) + if b.Thought? then b.text else ""
  {
    assert (timeline + [b])[..|timeline|] == timeline;
  }

  /** Rewriting a shell block does not touch the thoughts. */
  lemma {:induction false} ThoughtsUpdate(timeline: seq<Block>, i: nat, b: Block)
    requires i < |timeline| && timeline[i].Shell? && b.Shell?
    ensures Thoughts(timeline[i := b]) == Thoughts(timeline)
    decreases |timeline|
  {
    var n := |timeline| - 1;
    if i < n {
      ThoughtsUpdate(timeline[..n], i, b);
      assert timeline[i := b][..n] == timeline[..n][i := b];
    } else {
      assert timeline[i := b][..n] == timeline[..n];
    }
  }

  lemma ThoughtsAppend(timeline: seq<Block>, text: string)
    ensures Thoughts(AppendThought(timeline, text)) == Thoughts(timeline) + text
  {
    if text == "" {
    } else if timeline != [] && timeline[|timeline| - 1].Thought? {
      var n := |timeline| - 1;
      var front := timeline[..n];
      assert timeline == front + [timeline[n]];
      assert AppendThought(timeline, text) == front + [Thought(timeline[n].text + text)];
      ThoughtsSnoc(front, timeline[n]);
      ThoughtsSnoc(front, Thought(timeline[n].text + text));
    } else {
      ThoughtsSnoc(timeline, Thought(text));
    }
  }

  lemma ReplacedConsistent(w: Worker, callId: string, b: Block)
    requires Consistent(w) && Located(w, callId) && b.Shell? && b.callId == callId
    ensures Consistent(Publish(Replaced(w, callId, b)))
  {
    ThoughtsUpdate(w.timeline, w.index[callId], b);
  }

  lemma ThoughtConsistent(w: Worker, text: string)
    requires Consistent(w)
    ensures Consistent(Step(w, AssistantDelta(text)))
    ensures Thoughts(Step(w, AssistantDelta(text)).timeline) == Thoughts(w.timeline) + text
    ensures Step(w, AssistantDelta(text)).text == w.text + text
  {
    if text == "" {
      assert w.text + text == w.text;
    } else {
      assert (w.live + [text])[..|w.live|] == w.live;
      ThoughtsAppend(w.timeline, text);
      var v := Step(w, AssistantDelta(text));
      ThoughtSeparates(w.timeline, text);
      ThoughtKeepsIndex(w, v);
    }
  }

  lemma ThoughtSeparates(timeline: seq<Block>, text: string)
    requires ThoughtsSeparated(timeline)
    ensures ThoughtsSeparated(AppendThought(timeline, text))
  {
  }

  lemma ThoughtKeepsIndex(w: Worker, v: Worker)
    requires IndexExact(w) && v.index == w.index && exists text :: v.timeline == AppendThought(w.timeline, text)
    ensures IndexExact(v)
  {
    var text :| v.timeline == AppendThought(w.timeline, text);
    assert forall i :: 0 <= i < |w.timeline| && w.timeline[i].Shell? ==> v.timeline[i] == w.timeline[i];
    assert forall i :: 0 <= i < |v.timeline| && v.timeline[i].Shell? ==>
                         i < |w.timeline| && v.timeline[i] == w.timeline[i];
  }

  lemma ExecutionConsistent(w: Worker, x: Execution)
    requires Consistent(w)
    ensures Consistent(Step(w, BashExecution(x)))
  {
    RowsStayUnique(w.rows, "", "", "", true, x, MAX_RUNS);
    var v := w.(executions := w.executions + [x], rows := AppendExecution(w.rows, x, MAX_RUNS));
    if x.callId != "" && Located(v, x.callId) {
      ReplacedConsistent(v, x.callId, v.timeline[v.index[x.callId]].(status := StatusOf(x.ok), output := x.output));
    }
  }

  lemma DeltaConsistent(w: Worker, id: string, chunk: string)
    requires Consistent(w)
    ensures Consistent(Step(w, BashOutputDelta(id, chunk)))
  {
    RowsStayUnique(w.rows, id, chunk, "", true, Execution("", "", "", true, None), 0);
    var v := w.(rows := AppendDelta(w.rows, id, chunk));
    if Located(v, id) {
      ReplacedConsistent(v, id, v.timeline[v.index[id]].(output := v.timeline[v.index[id]].output + chunk));
    }
  }

  lemma FinishedConsistent(w: Worker, id: string, ok: bool, error: string)
    requires Consistent(w)
    ensures Consistent(Step(w, BashFinished(id, ok, error)))
  {
    RowsStayUnique(w.rows, id, error, "", ok, Execution("", "", "", true, None), 0);
    var v := w.(rows := MarkFinished(w.rows, id, ok, error));
    if Located(v, id) {
      var b := v.timeline[v.index[id]];
      ReplacedConsistent(v, id, b.(status := StatusOf(ok), error := if error != "" then error else b.error));
    }
  }

  /** What the handler does with a started shell call. */
  function Begin(w: Worker, id: string, tool: string, command: string): Worker {
    Publish(EnsureShellBlock(w.(rows := UpsertRunning(w.rows, id, command, tool)), id, tool, command))
  }

  lemma StepStarts(w: Worker, tool: string, id: Option<string>, command: Option<string>)
    ensures var v := Step(w, ToolCallStarted(tool, id, command));
            var u := w.(statusLine := v.statusLine);
            v == if IsShellTool(tool) && id.Some? && command.Some? then Begin(u, id.value, tool, command.value) else u
  {
  }

  lemma StepConsistent(w: Worker, ev: Event)
    requires Consistent(w)
    ensures Consistent(Step(w, ev))
  {
    match ev
    case AssistantDelta(text) => ThoughtConsistent(w, text);
    case BashExecution(x) => ExecutionConsistent(w, x);
    case BashOutputDelta(id, chunk) => DeltaConsistent(w, id, chunk);
    case BashFinished(id, ok, error) => FinishedConsistent(w, id, ok, error);
    case ToolCallStarted(tool, id, command) =>
      StepStarts(w, tool, id, command);
      if IsShellTool(tool) && id.Some? && command.Some? {
        StartConsistent(w.(statusLine := Step(w, ev).statusLine), id.value, tool, command.value);
      }
    case _ =>
  }

  lemma StartConsistent(w: Worker, id: string, tool: string, command: string)
    requires Consistent(w)
    ensures Consistent(Begin(w, id, tool, command))
  {
    RowsStayUnique(w.rows, id, command, tool, true, Execution("", "", "", true, None), 0);
    var v := w.(rows := UpsertRunning(w.rows, id, command, tool));
    if Located(v, id) {
      ReplacedConsistent(v, id, v.timeline[v.index[id]].(toolName := tool, command := command));
    } else {
      NewBlockConsistent(v, id, tool, command);
    }
  }

  lemma NewBlockConsistent(w: Worker, id: string, tool: string, command: string)
    requires Consistent(w) && !Located(w, id)
    ensures Consistent(Publish(EnsureShellBlock(w, id, tool, command)))
  {
    ThoughtsSnoc(w.timeline, Shell(id, tool, command, Running, "", ""));
  }

  /**
   * In every run: the index points at exactly that call's block, call ids are unique in both copies, thoughts are
   * never empty nor adjacent and spell the assistant text, and the published timeline is the current one.
   */
  lemma {:induction false} RunIsConsistent(events: seq<Event>)
    ensures Consistent(Run(events))
    decreases |events|
  {
    if events != [] {
      RunIsConsistent(events[..|events| - 1]);
      StepConsistent(Run(events[..|events| - 1]), events[|events| - 1]);
    }
  }

  // ---------------------------------------------------------------- what was heard is what is shown

  /** The texts of the `assistant.delta` events, in order. */
  function Spoken(events: seq<Event>): string {
    if events == [] then ""
    else
      var ev := events[|events| - 1];
      Spoken(events[..|events| - 1]) + if ev.AssistantDelta? then ev.text else ""
  }

  lemma JoinSnoc(parts: seq<string>, part: string)
    ensures Join(parts + [part]) == Join(parts) + part
  {
    assert (parts + [part])[..|parts + [part]| - 1] == parts;
  }

  lemma StepText(w: Worker, ev: Event)
    requires w.text == Join(w.live)
    ensures Step(w, ev).text == w.text + if ev.AssistantDelta? then ev.text else ""
  {
    if ev.AssistantDelta? {
      JoinSnoc(w.live, ev.text);
    } else if ev.ToolCallStarted? {
      StepStarts(w, ev.tool, ev.startedId, ev.command);
    }
  }

  /** In every run the assistant's text, and what the thoughts spell, is everything the assistant said, in order. */
  lemma {:induction false} EverythingSaidIsShown(events: seq<Event>)
    ensures Run(events).text == Spoken(events) && Thoughts(Run(events).timeline) == Spoken(events)
    decreases |events|
  {
    RunIsConsistent(events);
    if events != [] {
      var front, ev := events[..|events| - 1], events[|events| - 1];
      RunIsConsistent(front);
      EverythingSaidIsShown(front);
      StepText(Run(front), ev);
    }
  }

  /** What stands where in a timeline: a stretch of speech, or the block of a call. */
  datatype Mark = Speech | CallMark(id: string)

  function MarkOf(b: Block): Mark {
    if b.Thought? then Speech else CallMark(b.callId)
  }

  function Marks(timeline: seq<Block>): seq<Mark> {
    seq(|timeline|, i requires 0 <= i < |timeline| => MarkOf(timeline[i]))
  }

  /** Speech opens a stretch unless one is open, and a call stands where it was first started. */
  function Marked(before: seq<Mark>, ev: Event): seq<Mark> {
    if ev.AssistantDelta? && ev.text != "" && (before == [] || !before[|before| - 1].Speech?) then before + [Speech]
    else if ev.ToolCallStarted? && ev.startedId.Some? && Starts(ev, ev.startedId.value)
            && CallMark(ev.startedId.value) !in before then before + [CallMark(ev.startedId.value)]
    else before
  }

  function Heard(events: seq<Event>): seq<Mark> {
    if events == [] then [] else Marked(Heard(events[..|events| - 1]), events[|events| - 1])
  }

  lemma MarkedIffLocated(w: Worker, id: string)
    requires IndexExact(w)
    ensures CallMark(id) in Marks(w.timeline) <==> Located(w, id)
  {
    if Located(w, id) {
      assert Marks(w.timeline)[w.index[id]] == CallMark(id);
    }
    if CallMark(id) in Marks(w.timeline) {
      var i :| 0 <= i < |Marks(w.timeline)| && Marks(w.timeline)[i] == CallMark(id);
      assert w.timeline[i].Shell? && w.timeline[i].callId == id;
    }
  }

  lemma MarksAfterThought(timeline: seq<Block>, text: string)
    ensures Marks(AppendThought(timeline, text)) ==
            if text != "" && (timeline == [] || !timeline[|timeline| - 1].Thought?) then Marks(timeline) + [Speech]
            else Marks(timeline)
  {
  }

  lemma MarksReplaced(w: Worker, id: string, b: Block)
    requires IndexExact(w) && Located(w, id) && b.Shell? && b.callId == id
    ensures Marks(Publish(Replaced(w, id, b)).timeline) == Marks(w.timeline)
  {
  }

  lemma MarksAfterStart(w: Worker, id: string, tool: string, command: string)
    requires IndexExact(w)
    ensures Marks(Begin(w, id, tool, command).timeline) ==
            Marks(w.timeline) + if Located(w, id) then [] else [CallMark(id)]
  {
    var v := w.(rows := UpsertRunning(w.rows, id, command, tool));
    if Located(w, id) {
      MarksReplaced(v, id, v.timeline[v.index[id]].(toolName := tool, command := command));
    }
  }

  lemma MarksStep(w: Worker, ev: Event)
    requires Consistent(w) && !ev.AssistantDelta? && !ev.ToolCallStarted?
    ensures Marks(Step(w, ev).timeline) == Marks(w.timeline)
  {
  }

  lemma StartMarked(w: Worker, tool: string, id: Option<string>, command: Option<string>)
    requires Consistent(w)
    ensures Marks(Step(w, ToolCallStarted(tool, id, command)).timeline)
            == Marked(Marks(w.timeline), ToolCallStarted(tool, id, command))
  {
    StepStarts(w, tool, id, command);
    if IsShellTool(tool) && id.Some? && command.Some? {
      var u := w.(statusLine := Step(w, ToolCallStarted(tool, id, command)).statusLine);
      MarkedIffLocated(w, id.value);
      MarksAfterStart(u, id.value, tool, command.value);
    }
  }

  lemma ThoughtMarked(w: Worker, text: string)
    ensures Marks(Step(w, AssistantDelta(text)).timeline) == Marked(Marks(w.timeline), AssistantDelta(text))
  {
    MarksAfterThought(w.timeline, text);
  }

  /** In every run the timeline has speech and calls exactly where they were first heard. */
  lemma {:induction false} TimelineInOrder(events: seq<Event>)
    ensures Marks(Run(events).timeline) == Heard(events)
    decreases |events|
  {
    if events != [] {
      var front, ev := events[..|events| - 1], events[|events| - 1];
      TimelineInOrder(front);
      RunIsConsistent(front);
      match ev
      case AssistantDelta(text) => ThoughtMarked(Run(front), text);
      case ToolCallStarted(tool, id, command) => StartMarked(Run(front), tool, id, command);
      case _ => MarksStep(Run(front), ev);
    }
  }

  /** The changes reported by successful `write_file` calls, in order. */
  function Changes(events: seq<Event>): seq<FileChange> {
    if events == [] then []
    else
      var ev := events[|events| - 1];
      Changes(events[..|events| - 1]) +
      if ev.ToolCallFinished? && ev.ok && ev.tool == "write_file" && ev.path.Some? && ev.kind == "created"
      then [FileChange(true, ev.path.value)]
      else if ev.ToolCallFinished? && ev.ok && ev.tool == "write_file" && ev.path.Some? && ev.kind == "updated"
      then [FileChange(false, ev.path.value)]
      else []
  }

  function Executions(events: seq<Event>): seq<Execution> {
    if events == [] then []
    else
      var ev := events[|events| - 1];
      Executions(events[..|events| - 1]) + if ev.BashExecution? then [ev.x] else []
  }

  lemma StepLists(w: Worker, ev: Event)
    ensures Step(w, ev).fileChanges == w.fileChanges + Changes([ev])
    ensures Step(w, ev).executions == w.executions + Executions([ev])
  {
    assert [ev][..0] == [];
    if ev.ToolCallStarted? {
      StepStarts(w, ev.tool, ev.startedId, ev.command);
    }
  }

  /** In every run the reported changes and executions are those of the events, in order. */
  lemma {:induction false} ListsAreComplete(events: seq<Event>)
    ensures Run(events).fileChanges == Changes(events) && Run(events).executions == Executions(events)
    decreases |events|
  {
    if events != [] {
      var front, ev := events[..|events| - 1], events[|events| - 1];
      ListsAreComplete(front);
      StepLists(Run(front), ev);
      assert [ev][..0] == [];
    }
  }

  // ---------------------------------------------------------------- the two copies of a shell call

  /** What both copies record about a call. */
  datatype Call = Call(callId: string, command: string, status: Status, output: string, error: string)

  function BlockCall(b: Block): Call
    requires b.Shell?
  {
    Call(b.callId, b.command, b.status, b.output, b.error)
  }

  function RowCall(r: Row): Call {
    Call(r.callId, r.command, r.status, r.output, r.error)
  }

  function BlockCalls(timeline: seq<Block>): seq<Call> {
    if timeline == [] then []
    else
      var b := timeline[|timeline| - 1];
      BlockCalls(timeline[..|timeline| - 1]) + if b.Shell? then [BlockCall(b)] else []
  }

  function RowCalls(rows: seq<Row>): seq<Call> {
    seq(|rows|, i requires 0 <= i < |rows| => RowCall(rows[i]))
  }

  /** The position of a shell block among the shell blocks. */
  function Rank(timeline: seq<Block>, i: nat): nat
    requires i <= |timeline|
  {
    |BlockCalls(timeline[..i])|
  }

  lemma {:induction false} BlockAtRank(timeline: seq<Block>, i: nat, b: Block)
    requires i < |timeline| && timeline[i].Shell? && b.Shell?
    ensures Rank(timeline, i) < |BlockCalls(timeline)| && BlockCalls(timeline)[Rank(timeline, i)]
            == BlockCall(timeline[i])
    ensures BlockCalls(timeline[i := b]) == BlockCalls(timeline)[Rank(timeline, i) := BlockCall(b)]
    decreases |timeline|
  {
    var n := |timeline| - 1;
    if i < n {
      BlockAtRank(timeline[..n], i, b);
      assert timeline[i := b][..n] == timeline[..n][i := b];
      assert timeline[..n][..i] == timeline[..i];
    } else {
      assert timeline[i := b][..n] == timeline[..n];
    }
  }

  lemma {:induction false} CallHasBlock(timeline: seq<Block>, j: nat)
    requires j < |BlockCalls(timeline)|
    ensures exists i :: 0 <= i < |timeline| && timeline[i].Shell? && Rank(timeline, i) == j
                        && BlockCall(timeline[i]) == BlockCalls(timeline)[j]
    decreases |timeline|
  {
    var n := |timeline| - 1;
    var front := timeline[..n];
    if j < |BlockCalls(front)| {
      CallHasBlock(front, j);
      var i :| 0 <= i < |front| && front[i].Shell? && Rank(front, i) == j
          && BlockCall(front[i]) == BlockCalls(front)[j];
      assert front[..i] == timeline[..i];
      assert timeline[i].Shell? && Rank(timeline, i) == j;
    } else {
      assert timeline[n].Shell? && Rank(timeline, n) == j;
    }
  }

  ghost predicate InStep(w: Worker) {
    Consistent(w) && BlockCalls(w.timeline) == RowCalls(w.rows)
  }

  /** The row of a call and the block of a call sit at the same position of the two copies. */
  lemma SamePlace(w: Worker, id: string)
    requires InStep(w)
    ensures Located(w, id) <==> IndexOf(w.rows, id) < |w.rows|
    ensures id !in w.index <==> !Located(w, id)
    ensures Located(w, id) ==> Rank(w.timeline, w.index[id]) == IndexOf(w.rows, id)
  {
    var calls := BlockCalls(w.timeline);
    if Located(w, id) {
      var i := w.index[id];
      BlockAtRank(w.timeline, i, w.timeline[i]);
      assert calls[Rank(w.timeline, i)].callId == RowCalls(w.rows)[Rank(w.timeline, i)].callId
          == w.rows[Rank(w.timeline, i)].callId;
    }
    if IndexOf(w.rows, id) < |w.rows| {
      CallHasBlock(w.timeline, IndexOf(w.rows, id));
      assert RowCalls(w.rows)[IndexOf(w.rows, id)].callId == id;
    }
  }

  /** Changing the row and the block of one call in the same way keeps the copies equal. */
  lemma PutInStep(w: Worker, id: string, row: Row, b: Block)
    requires InStep(w) && Located(w, id) && b.Shell? && b.callId == id && RowCall(row) == BlockCall(b)
    requires IndexOf(w.rows, id) < |w.rows| && UniqueIds(w.rows[IndexOf(w.rows, id) := row])
    ensures InStep(Publish(Replaced(w.(rows := w.rows[IndexOf(w.rows, id) := row]), id, b)))
  {
    SamePlace(w, id);
    var v := w.(rows := w.rows[IndexOf(w.rows, id) := row]);
    ReplacedConsistent(v, id, b);
    BlockAtRank(w.timeline, w.index[id], b);
    assert RowCalls(v.rows) == RowCalls(w.rows)[IndexOf(w.rows, id) := RowCall(row)];
  }

  lemma RowMatchesBlock(w: Worker, id: string)
    requires InStep(w) && Located(w, id)
    ensures IndexOf(w.rows, id) < |w.rows| && RowCall(w.rows[IndexOf(w.rows, id)]) == BlockCall(w.timeline[w.index[id]])
  {
    SamePlace(w, id);
    BlockAtRank(w.timeline, w.index[id], w.timeline[w.index[id]]);
    assert RowCalls(w.rows)[IndexOf(w.rows, id)] == RowCall(w.rows[IndexOf(w.rows, id)]);
  }

  lemma DeltaInStep(w: Worker, id: string, chunk: string)
    requires InStep(w)
    ensures InStep(Step(w, BashOutputDelta(id, chunk)))
  {
    DeltaConsistent(w, id, chunk);
    SamePlace(w, id);
    if Located(w, id) {
      RowMatchesBlock(w, id);
      var i, b := IndexOf(w.rows, id), w.timeline[w.index[id]];
      PutInStep(w, id, w.rows[i].(output := w.rows[i].output + chunk), b.(output := b.output + chunk));
    }
  }

  lemma FinishedInStep(w: Worker, id: string, ok: bool, error: string)
    requires InStep(w)
    ensures InStep(Step(w, BashFinished(id, ok, error)))
  {
    FinishedConsistent(w, id, ok, error);
    SamePlace(w, id);
    if Located(w, id) {
      RowMatchesBlock(w, id);
      var i, b := IndexOf(w.rows, id), w.timeline[w.index[id]];
      PutInStep(w, id, w.rows[i].(status := StatusOf(ok), error := if error != "" then error else w.rows[i].error),
                b.(status := StatusOf(ok), error := if error != "" then error else b.error));
    }
  }

  lemma StepInStep(w: Worker, ev: Event)
    requires InStep(w) && !ev.BashExecution?
    ensures InStep(Step(w, ev))
  {
    match ev
    case AssistantDelta(text) =>
      ThoughtConsistent(w, text);
      ThoughtKeepsCalls(w.timeline, text);
    case BashOutputDelta(id, chunk) => DeltaInStep(w, id, chunk);
    case BashFinished(id, ok, error) => FinishedInStep(w, id, ok, error);
    case ToolCallStarted(tool, id, command) =>
      StepStarts(w, tool, id, command);
      var u := w.(statusLine := Step(w, ev).statusLine);
      assert InStep(u);
      if IsShellTool(tool) && id.Some? && command.Some? {
        StartInStep(u, id.value, tool, command.value);
      }
    case _ =>
  }

  lemma ThoughtKeepsCalls(timeline: seq<Block>, text: string)
    ensures BlockCalls(AppendThought(timeline, text)) == BlockCalls(timeline)
  {
    var n := |timeline| - 1;
    if text == "" {
    } else if timeline != [] && timeline[n].Thought? {
      assert AppendThought(timeline, text)[..n] == timeline[..n];
    } else {
      assert AppendThought(timeline, text)[..n + 1] == timeline;
    }
  }

  lemma StartInStep(w: Worker, id: string, tool: string, command: string)
    requires InStep(w)
    ensures InStep(Begin(w, id, tool, command))
  {
    StartConsistent(w, id, tool, command);
    SamePlace(w, id);
    if Located(w, id) {
      RowMatchesBlock(w, id);
      var i, b := IndexOf(w.rows, id), w.timeline[w.index[id]];
      PutInStep(w, id, w.rows[i].(toolName := Some(w.rows[i].toolName.GetOr(tool)), command := command),
                b.(toolName := tool, command := command));
    } else {
      NewCallInStep(w.timeline, w.rows, Shell(id, tool, command, Running, "", ""),
                    Row(id, Some(tool), command, Running, "", ""));
    }
  }

  lemma NewCallInStep(timeline: seq<Block>, rows: seq<Row>, b: Block, row: Row)
    requires b.Shell? && BlockCall(b) == RowCall(row) && BlockCalls(timeline) == RowCalls(rows)
    ensures BlockCalls(timeline + [b]) == RowCalls(rows + [row])
  {
    assert (timeline + [b])[..|timeline|] == timeline;
    assert RowCalls(rows + [row]) == RowCalls(rows) + [RowCall(row)];
  }

  /**
   * In runs without `bash.execution` the shell blocks of the timeline and the rows of the store are the same
   * calls in the same order, with equal command, status, error and output.
   */
  lemma {:induction false} TimelineSimulatesStore(events: seq<Event>)
    requires forall i :: 0 <= i < |events| ==> !events[i].BashExecution?
    ensures InStep(Run(events))
    decreases |events|
  {
    if events != [] {
      TimelineSimulatesStore(events[..|events| - 1]);
      StepInStep(Run(events[..|events| - 1]), events[|events| - 1]);
    }
  }

  // ---------------------------------------------------------------- conservation of output

  predicate Starts(ev: Event, id: string) {
    ev.ToolCallStarted? && IsShellTool(ev.tool) && ev.startedId == Some(id) && ev.command.Some?
  }

  predicate Started(events: seq<Event>, id: string) {
    exists i :: 0 <= i < |events| && Starts(events[i], id)
  }

  /**
   * The text of a started call: an execution record with a call id says what it is, every chunk after that, or after
   * the start, is appended.
   */
  function Streamed(events: seq<Event>, id: string): string {
    if events == [] then ""
    else
      var front, ev := events[..|events| - 1], events[|events| - 1];
      if !Started(front, id) then ""
      else if ev.BashOutputDelta? && ev.callId == id then Streamed(front, id) + ev.chunk
      else if ev.BashExecution? && ev.x.callId == id != "" then ev.x.output
      else Streamed(front, id)
  }

  /** The status of a call: that of its last `bash.finished` or `bash.execution`, running before the first. */
  function Reported(events: seq<Event>, id: string): Option<Status> {
    if events == [] then None
    else
      var front, ev := events[..|events| - 1], events[|events| - 1];
      if !Started(front, id) then (if Starts(ev, id) then Some(Running) else None)
      else if ev.BashFinished? && ev.callId == id then Some(StatusOf(ev.ok))
      else if ev.BashExecution? && ev.x.callId == id != "" then Some(StatusOf(ev.x.ok))
      else Reported(front, id)
  }

  /** The output shown for a call, "" while it has no block. */
  function Shown(w: Worker, id: string): string {
    if Located(w, id) then w.timeline[w.index[id]].output else ""
  }

  function ShownStatus(w: Worker, id: string): Option<Status> {
    if Located(w, id) then Some(w.timeline[w.index[id]].status) else None
  }

  /**
   * In every run a call has a block exactly when it was started, and the block shows exactly the text that belongs to
   * the call: no chunk is lost, duplicated, reordered or given to another call.
   */
  lemma {:induction false} OutputIsConserved(events: seq<Event>, id: string)
    ensures var w := Run(events);
            && (Located(w, id) <==> Started(events, id))
            && Shown(w, id) == Streamed(events, id)
    decreases |events|
  {
    if events != [] {
      var front, ev := events[..|events| - 1], events[|events| - 1];
      OutputIsConserved(front, id);
      RunIsConsistent(front);
      StartedSnoc(front, ev, id);
      assert events == front + [ev];
      OutputStep(Run(front), ev, id);
    }
  }

  /** In every run the status shown for a call is the one last reported; `tool.call_finished` reports none. */
  lemma {:induction false} StatusIsLastReported(events: seq<Event>, id: string)
    ensures ShownStatus(Run(events), id) == Reported(events, id)
    decreases |events|
  {
    if events != [] {
      var front, ev := events[..|events| - 1], events[|events| - 1];
      StatusIsLastReported(front, id);
      OutputIsConserved(front, id);
      RunIsConsistent(front);
      StatusStep(Run(front), ev, id);
    }
  }

  /** The tool and command of a call: those of its last start. */
  function LastStart(events: seq<Event>, id: string): Option<(string, string)> {
    if events == [] then None
    else
      var ev := events[|events| - 1];
      if Starts(ev, id) then Some((ev.tool, ev.command.value)) else LastStart(events[..|events| - 1], id)
  }

  /** The error of a call: the last error text that `bash.finished` reported since it started. */
  function LastError(events: seq<Event>, id: string): string {
    if events == [] then ""
    else
      var front, ev := events[..|events| - 1], events[|events| - 1];
      if Started(front, id) && ev.BashFinished? && ev.callId == id && ev.error != "" then ev.error
      else LastError(front, id)
  }

  function ShownStart(w: Worker, id: string): Option<(string, string)> {
    if Located(w, id) then Some((w.timeline[w.index[id]].toolName, w.timeline[w.index[id]].command)) else None
  }

  function ShownError(w: Worker, id: string): string {
    if Located(w, id) then w.timeline[w.index[id]].error else ""
  }

  lemma StartStep(w: Worker, ev: Event, id: string)
    requires Consistent(w)
    ensures ShownStart(Step(w, ev), id) ==
            if Starts(ev, id) then Some((ev.tool, ev.command.value)) else ShownStart(w, id)
    ensures ShownError(Step(w, ev), id) ==
            if Located(w, id) && ev.BashFinished? && ev.callId == id && ev.error != "" then ev.error
            else ShownError(w, id)
  {
    match ev
    case ToolCallStarted(tool, started, command) =>
      StepStarts(w, tool, started, command);
      if IsShellTool(tool) && started.Some? && command.Some? {
        BeginStart(w.(statusLine := Step(w, ev).statusLine), started.value, tool, command.value, id);
      }
    case BashOutputDelta(other, chunk) => DeltaStart(w, other, chunk, id);
    case BashExecution(x) => ExecutionStart(w, x, id);
    case BashFinished(other, ok, error) => FinishedStart(w, other, ok, error, id);
    case _ =>
  }

  lemma BeginStart(w: Worker, started: string, tool: string, command: string, id: string)
    requires IndexExact(w)
    ensures var v := Begin(w, started, tool, command);
            && ShownStart(v, id) == (if id == started then Some((tool, command)) else ShownStart(w, id))
            && ShownError(v, id) == ShownError(w, id)
  {
  }

  lemma DeltaStart(w: Worker, other: string, chunk: string, id: string)
    requires IndexExact(w)
    ensures var v := Step(w, BashOutputDelta(other, chunk));
            ShownStart(v, id) == ShownStart(w, id) && ShownError(v, id) == ShownError(w, id)
  {
  }

  lemma ExecutionStart(w: Worker, x: Execution, id: string)
    requires IndexExact(w)
    ensures var v := Step(w, BashExecution(x));
            ShownStart(v, id) == ShownStart(w, id) && ShownError(v, id) == ShownError(w, id)
  {
  }

  lemma FinishedStart(w: Worker, other: string, ok: bool, error: string, id: string)
    requires IndexExact(w)
    ensures var v := Step(w, BashFinished(other, ok, error));
            && ShownStart(v, id) == ShownStart(w, id)
            && ShownError(v, id) == if Located(w, id) && other == id && error != "" then error else ShownError(w, id)
  {
  }

  /** In every run a call shows the tool and command of its last start and the last error reported for it. */
  lemma {:induction false} CallShowsLastStart(events: seq<Event>, id: string)
    ensures ShownStart(Run(events), id) == LastStart(events, id) && ShownError(Run(events), id) == LastError(events, id)
    decreases |events|
  {
    if events != [] {
      var front, ev := events[..|events| - 1], events[|events| - 1];
      CallShowsLastStart(front, id);
      OutputIsConserved(front, id);
      RunIsConsistent(front);
      StartStep(Run(front), ev, id);
    }
  }

  lemma StartedSnoc(front: seq<Event>, ev: Event, id: string)
    ensures Started(front + [ev], id) <==> Started(front, id) || Starts(ev, id)
  {
    var all := front + [ev];
    if Started(front, id) {
      var i :| 0 <= i < |front| && Starts(front[i], id);
      assert Starts(all[i], id);
    }
    if Starts(ev, id) {
      assert Starts(all[|front|], id);
    }
  }

  /** The output of a call after one more event. */
  function NextOutput(w: Worker, ev: Event, id: string): string {
    if !Located(w, id) then ""
    else if ev.BashOutputDelta? && ev.callId == id then Shown(w, id) + ev.chunk
    else if ev.BashExecution? && ev.x.callId == id != "" then ev.x.output
    else Shown(w, id)
  }

  lemma OutputStep(w: Worker, ev: Event, id: string)
    requires Consistent(w)
    ensures var v := Step(w, ev);
            (Located(v, id) <==> Located(w, id) || Starts(ev, id)) && Shown(v, id) == NextOutput(w, ev, id)
  {
    match ev
    case ToolCallStarted(tool, started, command) =>
      StepStarts(w, tool, started, command);
      if IsShellTool(tool) && started.Some? && command.Some? {
        BeginKeepsShown(w.(statusLine := Step(w, ev).statusLine), started.value, tool, command.value, id);
      }
    case BashOutputDelta(other, chunk) => DeltaShown(w, other, chunk, id);
    case BashExecution(x) => ExecutionShown(w, x, id);
    case BashFinished(other, ok, error) => FinishedShown(w, other, ok, error, id);
    case _ =>
  }

  lemma StatusStep(w: Worker, ev: Event, id: string)
    requires Consistent(w)
    ensures ShownStatus(Step(w, ev), id) ==
            if !Located(w, id) then (if Starts(ev, id) then Some(Running) else None)
            else if ev.BashFinished? && ev.callId == id then Some(StatusOf(ev.ok))
            else if ev.BashExecution? && ev.x.callId == id != "" then Some(StatusOf(ev.x.ok))
            else ShownStatus(w, id)
  {
    match ev
    case ToolCallStarted(tool, started, command) =>
      StepStarts(w, tool, started, command);
      if IsShellTool(tool) && started.Some? && command.Some? {
        BeginKeepsShown(w.(statusLine := Step(w, ev).statusLine), started.value, tool, command.value, id);
      }
    case BashOutputDelta(other, chunk) => DeltaShown(w, other, chunk, id);
    case BashExecution(x) => ExecutionShown(w, x, id);
    case BashFinished(other, ok, error) => FinishedShown(w, other, ok, error, id);
    case _ =>
  }

  lemma BeginKeepsShown(w: Worker, started: string, tool: string, command: string, id: string)
    requires IndexExact(w)
    ensures var v := Begin(w, started, tool, command);
            && (Located(v, id) <==> Located(w, id) || id == started) && Shown(v, id) == Shown(w, id)
            && ShownStatus(v, id) == if !Located(w, id) && id == started then Some(Running) else ShownStatus(w, id)
  {
  }

  lemma DeltaShown(w: Worker, other: string, chunk: string, id: string)
    requires IndexExact(w)
    ensures var v := Step(w, BashOutputDelta(other, chunk));
            && (Located(v, id) <==> Located(w, id)) && ShownStatus(v, id) == ShownStatus(w, id)
            && Shown(v, id) == Shown(w, id) + if Located(w, id) && other == id then chunk else ""
  {
  }

  lemma FinishedShown(w: Worker, other: string, ok: bool, error: string, id: string)
    requires IndexExact(w)
    ensures var v := Step(w, BashFinished(other, ok, error));
            && (Located(v, id) <==> Located(w, id)) && Shown(v, id) == Shown(w, id)
            && ShownStatus(v, id) == if Located(w, id) && other == id then Some(StatusOf(ok)) else ShownStatus(w, id)
  {
  }

  lemma ExecutionShown(w: Worker, x: Execution, id: string)
    requires IndexExact(w)
    ensures var v := Step(w, BashExecution(x));
            var mine := Located(w, id) && x.callId == id != "";
            && (Located(v, id) <==> Located(w, id))
            && Shown(v, id) == (if mine then x.output else Shown(w, id))
            && ShownStatus(v, id) == (if mine then Some(StatusOf(x.ok)) else ShownStatus(w, id))
  {
  }

  // ---------------------------------------------------------------- the two copies and execution records

  /** The record's row is a new one, or not among those popped beyond the limit. */
  predicate StaysListed(rows: seq<Row>, callId: string) {
    var i := IndexOf(rows, callId);
    i < |rows| ==> |rows| - i <= MAX_RUNS
  }

  /** The call has a row and a block, with the same status. */
  predicate Paired(w: Worker, id: string) {
    var i := IndexOf(w.rows, id);
    i < |w.rows| && ShownStatus(w, id) == Some(w.rows[i].status)
  }

  /** They also have the same output. */
  predicate Agree(w: Worker, id: string) {
    Paired(w, id) && Shown(w, id) == w.rows[IndexOf(w.rows, id)].output
  }

  lemma IndexIs(rows: seq<Row>, id: string, i: nat)
    requires UniqueIds(rows) && i < |rows| && rows[i].callId == id
    ensures IndexOf(rows, id) == i
  {
  }

  lemma IndexAfterRecord(rows: seq<Row>, x: Execution)
    requires UniqueIds(rows) && x.callId != ""
    ensures var after := AppendExecution(rows, x, MAX_RUNS);
            var i := IndexOf(after, x.callId);
            && (i < |after| <==> StaysListed(rows, x.callId))
            && (i < |after| ==> after[i].status == StatusOf(x.ok) && after[i].output == StoredOutput(x))
  {
    var k, all := IndexOf(rows, x.callId), Recorded(rows, x);
    var after := Newest(all, MAX_RUNS);
    RecordingStaysUnique(rows, x);
    NewestStaysUnique(all, MAX_RUNS);
    assert all[k].callId == x.callId;
    var cut := |all| - |after|;
    if cut <= k {
      assert after[k - cut] == all[k];
      IndexIs(after, x.callId, k - cut);
    } else {
      forall j | 0 <= j < |after| ensures after[j].callId != x.callId {
        assert after[j] == all[cut + j];
      }
    }
  }

  /**
   * After an execution record for a known call the block shows the record. The store keeps a row for it exactly when
   * the row is not popped beyond the limit, and the two then agree exactly when the call succeeded or carried no
   * error text.
   */
  lemma ExecutionAgreement(w: Worker, x: Execution)
    requires Consistent(w) && Located(w, x.callId) && x.callId != ""
    ensures var v := Step(w, BashExecution(x));
            && Shown(v, x.callId) == x.output && ShownStatus(v, x.callId) == Some(StatusOf(x.ok))
            && (Paired(v, x.callId) <==> StaysListed(w.rows, x.callId))
            && (Agree(v, x.callId) <==>
                  StaysListed(w.rows, x.callId) && (x.ok || x.error.None? || x.error.value == ""))
  {
    IndexAfterRecord(w.rows, x);
    StoredOutputVerbatimIff(x);
    ExecutionShown(w, x, x.callId);
  }

  /** What an event does to the store. */
  function RowsAfter(rows: seq<Row>, ev: Event): seq<Row> {
    match ev
    case BashExecution(x) => AppendExecution(rows, x, MAX_RUNS)
    case BashOutputDelta(id, chunk) => AppendDelta(rows, id, chunk)
    case BashFinished(id, ok, error) => MarkFinished(rows, id, ok, error)
    case ToolCallStarted(tool, id, command) =>
      if IsShellTool(tool) && id.Some? && command.Some? then UpsertRunning(rows, id.value, command.value, tool)
      else rows
    case _ => rows
  }

  lemma StepRows(w: Worker, ev: Event)
    ensures Step(w, ev).rows == RowsAfter(w.rows, ev)
  {
    if ev.ToolCallStarted? {
      StepStarts(w, ev.tool, ev.startedId, ev.command);
    }
  }

  /** What an event other than an execution record does to a call's row. */
  lemma RowStep(rows: seq<Row>, ev: Event, id: string)
    requires IndexOf(rows, id) < |rows| && !ev.BashExecution?
    ensures var after, i := RowsAfter(rows, ev), IndexOf(rows, id);
            && |after| >= |rows| && after[i].callId == id
            && after[i].output == rows[i].output + (if ev.BashOutputDelta? && ev.callId == id then ev.chunk else "")
            && after[i].status == if ev.BashFinished? && ev.callId == id then StatusOf(ev.ok) else rows[i].status
  {
    match ev
    case ToolCallStarted(tool, started, command) =>
      if IsShellTool(tool) && started.Some? && command.Some? {
        StartKeepsRow(rows, started.value, command.value, tool, id);
      }
    case BashOutputDelta(other, chunk) => DeltaRow(rows, other, chunk, id);
    case BashFinished(other, ok, error) => FinishedRow(rows, other, ok, error, id);
    case _ =>
  }

  lemma StartKeepsRow(rows: seq<Row>, started: string, command: string, tool: string, id: string)
    requires IndexOf(rows, id) < |rows|
    ensures var after, i := UpsertRunning(rows, started, command, tool), IndexOf(rows, id);
            && |after| >= |rows| && after[i].callId == id
            && after[i].output == rows[i].output && after[i].status == rows[i].status
  {
  }

  lemma DeltaRow(rows: seq<Row>, other: string, chunk: string, id: string)
    requires IndexOf(rows, id) < |rows|
    ensures var after, i := AppendDelta(rows, other, chunk), IndexOf(rows, id);
            && |after| == |rows| && after[i].callId == id && after[i].status == rows[i].status
            && after[i].output == rows[i].output + if other == id then chunk else ""
  {
  }

  lemma FinishedRow(rows: seq<Row>, other: string, ok: bool, error: string, id: string)
    requires IndexOf(rows, id) < |rows|
    ensures var after, i := MarkFinished(rows, other, ok, error), IndexOf(rows, id);
            && |after| == |rows| && after[i].callId == id && after[i].output == rows[i].output
            && after[i].status == if other == id then StatusOf(ok) else rows[i].status
  {
  }

  lemma AgreeStep(w: Worker, ev: Event, id: string)
    requires Consistent(w) && !ev.BashExecution? && Paired(w, id)
    ensures Paired(Step(w, ev), id) && (Agree(Step(w, ev), id) <==> Agree(w, id))
  {
    var i, v := IndexOf(w.rows, id), Step(w, ev);
    StepConsistent(w, ev);
    StepRows(w, ev);
    RowStep(w.rows, ev, id);
    IndexIs(v.rows, id, i);
    OutputStep(w, ev, id);
    StatusStep(w, ev, id);
    assert Shown(v, id) == Shown(w, id) + if ev.BashOutputDelta? && ev.callId == id then ev.chunk else "";
    SameSuffix(w.rows[i].output, Shown(w, id), if ev.BashOutputDelta? && ev.callId == id then ev.chunk else "");
  }

  lemma SameSuffix(a: string, b: string, tail: string)
    ensures a + tail == b + tail <==> a == b
  {
    if a + tail == b + tail {
      assert |a| == |b|;
      assert (a + tail)[..|a|] == a && (b + tail)[..|b|] == b;
    }
  }

  /**
   * In every run, whatever happened to the copies before: from an execution record of a started call on, and up to
   * the next execution record, they agree about that call exactly when its output was stored verbatim, provided the
   * record's row was not popped at once.
   */
  lemma {:induction false} AgreementFromRecordOn(events: seq<Event>, x: Execution, more: seq<Event>)
    requires Started(events, x.callId) && x.callId != ""
    requires StaysListed(Run(events).rows, x.callId)
    requires forall i :: 0 <= i < |more| ==> !more[i].BashExecution?
    ensures var w := Run(events + [BashExecution(x)] + more);
            Paired(w, x.callId) && (Agree(w, x.callId) <==> x.ok || x.error.None? || x.error.value == "")
    decreases |more|
  {
    var upTo := events + [BashExecution(x)];
    if more == [] {
      assert upTo + more == upTo;
      RunSnoc(events, BashExecution(x));
      RunIsConsistent(events);
      OutputIsConserved(events, x.callId);
      ExecutionAgreement(Run(events), x);
    } else {
      var n := |more| - 1;
      assert upTo + more == upTo + more[..n] + [more[n]];
      RunSnoc(upTo + more[..n], more[n]);
      AgreementFromRecordOn(events, x, more[..n]);
      RunIsConsistent(upTo + more[..n]);
      AgreeStep(Run(upTo + more[..n]), more[n], x.callId);
    }
  }

  lemma RunSnoc(events: seq<Event>, ev: Event)
    ensures Run(events + [ev]) == Step(Run(events), ev)
  {
    assert (events + [ev])[..|events + [ev]| - 1] == events;
  }
}
