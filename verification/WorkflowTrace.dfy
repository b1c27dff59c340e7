/**
 * Running a workflow: the events it emits, and the messages and tool modes its tasks are run with.
 *
 * The session behind a task is a parameter: what it answers may depend on how many sessions ran before it.
 */
module WorkflowTrace {
  import opened Prelude
  import opened Text

  datatype HumanGate = HumanGate(id: string, description: string)

  /** `mode` is the `perm_tool_mode` entry of the task's metadata. */
  datatype Task = Task(id: string, systemPrompt: string, userText: string, mode: Option<string>)

  datatype Stage = Stage(id: string, tasks: seq<Task>, gate: Option<HumanGate>)

  datatype Workflow = Workflow(id: string, stages: seq<Stage>, hybrid: bool, policyRef: Option<string>)

  datatype Config = Config(dryRun: bool, runId: Option<string>, cliTaskBody: Option<string>,
                           taskArtifact: Option<string>, mode: string, bypass: bool, system: seq<string>)

  /** How a task's session ended: its state, its reason and the files it changed. */
  datatype Outcome = Outcome(state: string, reason: string, changes: seq<(string, string)>)

  /** What a session is started with. */
  datatype Call = Call(system: seq<string>, user: string, mode: string)

  datatype Event =
    | WorkflowLoaded(wf: string)
    | PolicyRef(wf: string, hybrid: bool, policyRef: Option<string>)
    | RunStarted(wf: string, run: string, artifact: Option<string>)
    | StageEntered(wf: string, stage: string)
    | GateRequested(wf: string, stage: string, gate: HumanGate)
    | TaskStarted(wf: string, stage: string, task: string, mode: string, bypass: bool)
    | TaskSkipped(wf: string, task: string)
    | TaskFinished(wf: string, stage: string, task: string, mode: string, outcome: Outcome)
    | StageExited(wf: string, stage: string)
    | WorkflowFinished(wf: string)

  // ---------------------------------------------------------------- modes and messages

  /** Lower case of the ASCII letters, the only ones that matter for the four mode names. */
  function Lower(s: string): string {
    seq(|s|, i requires 0 <= i < |s| => if 'A' <= s[i] <= 'Z' then s[i] - 'A' + 'a' else s[i])
  }

  function NormalizeMode(raw: string): string {
    var s := Lower(Strip(raw));
    if s == "read" || s == "read_plan" || s == "explore" || s == "edit" then s else "explore"
  }

  /** The mode of tasks that do not choose one. */
  function BaseMode(cfg: Config): string {
    NormalizeMode(if cfg.mode == "" then "edit" else cfg.mode)
  }

  /** A task's own mode when it names one, else that of the run; no other task has a say. */
  function ModeOf(cfg: Config, task: Task): string {
    if task.mode.Some? && Strip(task.mode.value) != "" then NormalizeMode(task.mode.value) else BaseMode(cfg)
  }

  function CliBody(cfg: Config): Option<string> {
    if cfg.cliTaskBody.Some? && Strip(cfg.cliTaskBody.value) != "" then Some(Strip(cfg.cliTaskBody.value)) else None
  }

  function MergeCliTask(userText: string, cli: string): string {
    var head, base := StripRight(cli), Strip(userText);
    if head == "" then userText else if base == "" then head else head + "\n\n---\n\n" + base
  }

  /** The session of the `k`-th of the executed tasks: only the first is given the CLI body. */
  function CallFor(cfg: Config, tasks: seq<Task>, k: nat): Call
    requires k < |tasks|
  {
    Call(cfg.system + [tasks[k].systemPrompt],
         if k == 0 && CliBody(cfg).Some? then MergeCliTask(tasks[k].userText, CliBody(cfg).value)
         else tasks[k].userText,
         ModeOf(cfg, tasks[k]))
  }

  function CallsFor(cfg: Config, tasks: seq<Task>): seq<Call> {
    if cfg.dryRun then [] else seq(|tasks|, k requires 0 <= k < |tasks| => CallFor(cfg, tasks, k))
  }

  function TasksOf(stages: seq<Stage>): seq<Task> {
    if stages == [] then [] else TasksOf(stages[..|stages| - 1]) + stages[|stages| - 1].tasks
  }

  lemma CallsSnoc(cfg: Config, tasks: seq<Task>, task: Task)
    ensures CallsFor(cfg, tasks + [task]) ==
            CallsFor(cfg, tasks) + if cfg.dryRun then [] else [CallFor(cfg, tasks + [task], |tasks|)]
  {
    if !cfg.dryRun {
      forall k | 0 <= k < |tasks| ensures CallFor(cfg, tasks + [task], k) == CallFor(cfg, tasks, k) {}
    }
  }

  /** `word` in any mixture of ASCII cases. */
  ghost predicate Spells(text: string, word: string) {
    && |text| == |word|
    && forall i :: 0 <= i < |word| ==>
         text[i] == word[i] || ('A' <= text[i] <= 'Z' && text[i] as int + 32 == word[i] as int)
  }

  lemma SpellsIff(text: string, word: string)
    requires forall i :: 0 <= i < |word| ==> !('A' <= word[i] <= 'Z')
    ensures Lower(text) == word <==> Spells(text, word)
  {
    assert Lower(text) == word ==> forall i :: 0 <= i < |word| ==> Lower(text)[i] == word[i];
  }

  /** The four names mean themselves in any case and with blanks around them; every other text means `explore`. */
  lemma ModeNames(raw: string)
    ensures NormalizeMode(raw) == "read" <==> Spells(Strip(raw), "read")
    ensures NormalizeMode(raw) == "read_plan" <==> Spells(Strip(raw), "read_plan")
    ensures NormalizeMode(raw) == "edit" <==> Spells(Strip(raw), "edit")
    ensures NormalizeMode(raw) == "explore" <==>
            !Spells(Strip(raw), "read") && !Spells(Strip(raw), "read_plan") && !Spells(Strip(raw), "edit")
  {
    SpellsIff(Strip(raw), "read");
    SpellsIff(Strip(raw), "read_plan");
    SpellsIff(Strip(raw), "edit");
  }

  ghost predicate Blank(s: string) {
    forall i :: 0 <= i < |s| ==> IsSpace(s[i])
  }

  /** A task's own mode counts unless it is blank, then that of the run, then `edit`. */
  lemma ModeMeans(cfg: Config, task: Task)
    ensures task.mode.Some? && !Blank(task.mode.value) ==> ModeOf(cfg, task) == NormalizeMode(task.mode.value)
    ensures (task.mode.Some? ==> Blank(task.mode.value)) && cfg.mode != "" ==>
              ModeOf(cfg, task) == NormalizeMode(cfg.mode)
    ensures (task.mode.Some? ==> Blank(task.mode.value)) && cfg.mode == "" ==> ModeOf(cfg, task) == "edit"
  {
    if task.mode.Some? {
      BlankIff(task.mode.value);
    }
    StripFixed("edit");
    ModeNames("edit");
  }

  /** The session of each task, in its own fields. */
  lemma CallMeans(cfg: Config, tasks: seq<Task>, k: nat)
    requires !cfg.dryRun && k < |tasks|
    ensures |CallsFor(cfg, tasks)| == |tasks|
    ensures var call := CallsFor(cfg, tasks)[k];
            && call.system == cfg.system + [tasks[k].systemPrompt] && call.mode == ModeOf(cfg, tasks[k])
            && (k > 0 || cfg.cliTaskBody.None? || Blank(cfg.cliTaskBody.value) ==> call.user == tasks[k].userText)
            && (k == 0 && cfg.cliTaskBody.Some? && !Blank(cfg.cliTaskBody.value) ==>
                  call.user == Strip(cfg.cliTaskBody.value) +
                               if Blank(tasks[0].userText) then "" else "\n\n---\n\n" + Strip(tasks[0].userText))
  {
    if cfg.cliTaskBody.Some? {
      BlankIff(cfg.cliTaskBody.value);
      if !Blank(cfg.cliTaskBody.value) {
        FirstMessageHoldsBoth(cfg, tasks[k].userText);
        BlankIff(tasks[k].userText);
      }
    }
  }

  /** What a trace tells of each stage and each of its tasks. */
  lemma ShapesMean(cfg: Config, stages: seq<Stage>, i: nat, j: nat)
    requires i < |stages| && j < |stages[i].tasks|
    ensures |ShapesOf(cfg, stages)| == |stages|
    ensures var shape := ShapesOf(cfg, stages)[i];
            && shape.id == stages[i].id && shape.gate == stages[i].gate && |shape.tasks| == |stages[i].tasks|
            && shape.tasks[j].id == stages[i].tasks[j].id && shape.tasks[j].mode == ModeOf(cfg, stages[i].tasks[j])
            && shape.tasks[j].bypass == cfg.bypass && (shape.tasks[j].ran <==> !cfg.dryRun)
  {
  }

  /** The first message is exactly the CLI body, without blanks at its ends, and below a rule the task's own text. */
  lemma FirstMessageHoldsBoth(cfg: Config, userText: string)
    requires CliBody(cfg).Some?
    ensures var body, merged := CliBody(cfg).value, MergeCliTask(userText, CliBody(cfg).value);
            && body != "" && body <= merged
            && |Strip(userText)| <= |merged| && merged[|merged| - |Strip(userText)|..] == Strip(userText)
            && body == Strip(cfg.cliTaskBody.value)
            && merged == body + if Strip(userText) == "" then "" else "\n\n---\n\n" + Strip(userText)
  {
    StripIsStripped(cfg.cliTaskBody.value);
    assert StripRight(CliBody(cfg).value) == CliBody(cfg).value;
  }

  /** The CLI body changes the first task's message only: it opens it, and the task's own text closes it. */
  lemma CliReachesFirstOnly(cfg: Config, tasks: seq<Task>)
    requires !cfg.dryRun && CliBody(cfg).Some? && tasks != []
    ensures var calls := CallsFor(cfg, tasks);
            && calls[1..] == CallsFor(cfg.(cliTaskBody := None), tasks)[1..]
            && CliBody(cfg).value <= calls[0].user && |Strip(tasks[0].userText)| <= |calls[0].user|
            && calls[0].user[|calls[0].user| - |Strip(tasks[0].userText)|..] == Strip(tasks[0].userText)
  {
    FirstMessageHoldsBoth(cfg, tasks[0].userText);
    var plain := cfg.(cliTaskBody := None);
    forall k | 1 <= k < |tasks| ensures CallFor(cfg, tasks, k) == CallFor(plain, tasks, k) {}
  }

  /** Giving one task another mode changes that task's session only. */
  lemma ModesStayLocal(cfg: Config, tasks: seq<Task>, i: nat, mode: Option<string>)
    requires !cfg.dryRun && i < |tasks|
    ensures CallsFor(cfg, tasks[i := tasks[i].(mode := mode)])
            == CallsFor(cfg, tasks)[i := CallsFor(cfg, tasks)[i].(mode := ModeOf(cfg, tasks[i].(mode := mode)))]
  {
    var other := tasks[i := tasks[i].(mode := mode)];
    forall k | 0 <= k < |tasks|
      ensures CallFor(cfg, other, k) ==
              if k == i then CallFor(cfg, tasks, k).(mode := ModeOf(cfg, other[i])) else CallFor(cfg, tasks, k)
    {
    }
  }

  // ---------------------------------------------------------------- reading a trace

  datatype TaskShape = TaskShape(id: string, mode: string, bypass: bool, ran: bool)

  datatype StageShape = StageShape(id: string, gate: Option<HumanGate>, tasks: seq<TaskShape>)

  datatype Phase = Empty | Opened | Between | InStage | InTask(id: string, mode: string, bypass: bool) | Done

  datatype Header = Header(wf: string, hybrid: bool, policyRef: Option<string>, run: Option<(string, Option<string>)>)

  /** What a well-bracketed trace says so far; in a stage the last of `stages` is the open one. */
  datatype Reading = Malformed | Reading(phase: Phase, header: Header, stages: seq<StageShape>)

  predicate InOpenStage(r: Reading, wf: string, stage: string) {
    r.Reading? && r.header.wf == wf && r.stages != [] && r.stages[|r.stages| - 1].id == stage
  }

  function WithTask(stages: seq<StageShape>, task: TaskShape): seq<StageShape>
    requires stages != []
  {
    var last := stages[|stages| - 1];
    stages[..|stages| - 1] + [last.(tasks := last.tasks + [task])]
  }

  /** Reads one more event; every event has to fit what is open. */
  function Read(r: Reading, e: Event): Reading {
    if r.Malformed? then Malformed else
    match e
    case WorkflowLoaded(w) =>
      if r.phase == Empty then Reading(Opened, Header(w, false, None, None), []) else Malformed
    case PolicyRef(w, h, p) =>
      if r.phase == Opened && r.header.wf == w then Reading(Between, Header(w, h, p, None), []) else Malformed
    case RunStarted(w, id, artifact) =>
      if r.phase == Between && r.header.wf == w && r.header.run == None && r.stages == []
      then r.(header := r.header.(run := Some((id, artifact)))) else Malformed
    case StageEntered(w, s) =>
      if r.phase == Between && r.header.wf == w
      then r.(phase := InStage, stages := r.stages + [StageShape(s, None, [])]) else Malformed
    case GateRequested(w, s, g) =>
      if r.phase == InStage && InOpenStage(r, w, s) && r.stages[|r.stages| - 1] == StageShape(s, None, [])
      then r.(stages := r.stages[..|r.stages| - 1] + [StageShape(s, Some(g), [])]) else Malformed
    case TaskStarted(w, s, t, m, b) =>
      if r.phase == InStage && InOpenStage(r, w, s) then r.(phase := InTask(t, m, b)) else Malformed
    case TaskSkipped(w, t) =>
      if r.phase.InTask? && r.header.wf == w && r.phase.id == t && r.stages != []
      then r.(phase := InStage, stages := WithTask(r.stages, TaskShape(t, r.phase.mode, r.phase.bypass, false)))
      else Malformed
    case TaskFinished(w, s, t, m, _) =>
      if r.phase.InTask? && InOpenStage(r, w, s) && r.phase.id == t && r.phase.mode == m
      then r.(phase := InStage, stages := WithTask(r.stages, TaskShape(t, m, r.phase.bypass, true))) else Malformed
    case StageExited(w, s) =>
      if r.phase == InStage && InOpenStage(r, w, s) then r.(phase := Between) else Malformed
    case WorkflowFinished(w) =>
      if r.phase == Between && r.header.wf == w then r.(phase := Done) else Malformed
  }

  const NOTHING := Reading(Empty, Header("", false, None, None), [])

  function Reads(events: seq<Event>): Reading {
    if events == [] then NOTHING else Read(Reads(events[..|events| - 1]), events[|events| - 1])
  }

  function Outcomes(events: seq<Event>): seq<Outcome> {
    if events == [] then []
    else Outcomes(events[..|events| - 1]) +
         if events[|events| - 1].TaskFinished? then [events[|events| - 1].outcome] else []
  }

  lemma EventsSnoc(events: seq<Event>, e: Event)
    ensures Reads(events + [e]) == Read(Reads(events), e)
    ensures Outcomes(events + [e]) == Outcomes(events) + if e.TaskFinished? then [e.outcome] else []
  {
    assert (events + [e])[..|events + [e]| - 1] == events;
  }

  // ---------------------------------------------------------------- the run

  function TaskShapes(cfg: Config, tasks: seq<Task>): seq<TaskShape> {
    seq(|tasks|, i requires 0 <= i < |tasks| => TaskShape(tasks[i].id, ModeOf(cfg, tasks[i]), cfg.bypass, !cfg.dryRun))
  }

  function ShapeOf(cfg: Config, stage: Stage): StageShape {
    StageShape(stage.id, stage.gate, TaskShapes(cfg, stage.tasks))
  }

  function ShapesOf(cfg: Config, stages: seq<Stage>): seq<StageShape> {
    seq(|stages|, i requires 0 <= i < |stages| => ShapeOf(cfg, stages[i]))
  }

  function HeaderOf(wf: Workflow, cfg: Config): Header {
    Header(wf.id, wf.hybrid, wf.policyRef, if cfg.runId.Some? then Some((cfg.runId.value, cfg.taskArtifact)) else None)
  }

  /** What the sessions answer, in order. */
  function Answers(calls: seq<Call>, runner: (nat, Call) -> Outcome): seq<Outcome> {
    seq(|calls|, k requires 0 <= k < |calls| => runner(k, calls[k]))
  }

  /**
   * The trace reads back as exactly the stages, gates and tasks of the workflow, each task with its own mode; the
   * sessions are started once per task, in order, and their answers are reported in order.
   */
  method IterRunEvents(wf: Workflow, cfg: Config, runner: (nat, Call) -> Outcome)
    returns (events: seq<Event>, calls: seq<Call>)
    ensures Reads(events) == Reading(Done, HeaderOf(wf, cfg), ShapesOf(cfg, wf.stages))
    ensures calls == CallsFor(cfg, TasksOf(wf.stages))
    ensures Outcomes(events) == Answers(calls, runner)
  {
    calls := [];
    events := OpenRun(wf, cfg);
    var pending := CliBody(cfg);
    ghost var header := HeaderOf(wf, cfg);
    for i := 0 to |wf.stages|
      invariant Reads(events) == Reading(Between, header, ShapesOf(cfg, wf.stages[..i]))
      invariant calls == CallsFor(cfg, TasksOf(wf.stages[..i])) && Outcomes(events) == Answers(calls, runner)
      invariant pending == if calls == [] then CliBody(cfg) else None
    {
      StagesSnoc(cfg, wf.stages, i);
      events, calls, pending := RunStage(wf.id, wf.stages[i], cfg, runner, events, calls, pending,
                                         header, ShapesOf(cfg, wf.stages[..i]), TasksOf(wf.stages[..i]));
    }
    assert wf.stages[..|wf.stages|] == wf.stages;
    events := Emit(events, WorkflowFinished(wf.id));
  }

  lemma StagesSnoc(cfg: Config, stages: seq<Stage>, i: nat)
    requires i < |stages|
    ensures ShapesOf(cfg, stages[..i + 1]) == ShapesOf(cfg, stages[..i]) + [ShapeOf(cfg, stages[i])]
    ensures TasksOf(stages[..i + 1]) == TasksOf(stages[..i]) + stages[i].tasks
  {
    assert stages[..i + 1][..i] == stages[..i];
  }

  /** The events before the first stage. */
  method OpenRun(wf: Workflow, cfg: Config) returns (events: seq<Event>)
    ensures Reads(events) == Reading(Between, HeaderOf(wf, cfg), []) && Outcomes(events) == []
  {
    events := Emit([], WorkflowLoaded(wf.id));
    events := Emit(events, PolicyRef(wf.id, wf.hybrid, wf.policyRef));
    if cfg.runId.Some? {
      events := Emit(events, RunStarted(wf.id, cfg.runId.value, cfg.taskArtifact));
    }
  }

  method Emit(events: seq<Event>, e: Event) returns (r: seq<Event>)
    ensures r == events + [e] && Reads(r) == Read(Reads(events), e)
    ensures Outcomes(r) == Outcomes(events) + if e.TaskFinished? then [e.outcome] else []
  {
    EventsSnoc(events, e);
    r := events + [e];
  }

  /** The body of the loop over the stages. */
  method RunStage(wf: string, stage: Stage, cfg: Config, runner: (nat, Call) -> Outcome, events0: seq<Event>,
                  calls0: seq<Call>, pending0: Option<string>, ghost header: Header,
                  ghost before: seq<StageShape>, ghost done: seq<Task>)
    returns (events: seq<Event>, calls: seq<Call>, pending: Option<string>)
    requires header.wf == wf && Reads(events0) == Reading(Between, header, before)
    requires calls0 == CallsFor(cfg, done) && Outcomes(events0) == Answers(calls0, runner)
    requires pending0 == if calls0 == [] then CliBody(cfg) else None
    ensures Reads(events) == Reading(Between, header, before + [ShapeOf(cfg, stage)])
    ensures calls == CallsFor(cfg, done + stage.tasks) && Outcomes(events) == Answers(calls, runner)
    ensures pending == if calls == [] then CliBody(cfg) else None
  {
    calls, pending := calls0, pending0;
    events := OpenStage(wf, stage, events0, header, before);
    assert TaskShapes(cfg, stage.tasks[..0]) == [] && done + stage.tasks[..0] == done;
    for j := 0 to |stage.tasks|
      invariant Reads(events) ==
                Reading(InStage, header,
                        before + [StageShape(stage.id, stage.gate, TaskShapes(cfg, stage.tasks[..j]))])
      invariant calls == CallsFor(cfg, done + stage.tasks[..j]) && Outcomes(events) == Answers(calls, runner)
      invariant pending == if calls == [] then CliBody(cfg) else None
    {
      NextTask(done, stage.tasks, j);
      ShapesSnoc(cfg, stage, before, j);
      LastIsOpen(before, StageShape(stage.id, stage.gate, TaskShapes(cfg, stage.tasks[..j])));
      events, calls, pending := RunTask(wf, stage.id, stage.tasks[j], cfg, runner, events, calls, pending,
          done + stage.tasks[..j]);
    }
    assert stage.tasks[..|stage.tasks|] == stage.tasks;
    LastIsOpen(before, ShapeOf(cfg, stage));
    events := Emit(events, StageExited(wf, stage.id));
  }

  lemma NextTask(done: seq<Task>, tasks: seq<Task>, j: nat)
    requires j < |tasks|
    ensures done + tasks[..j + 1] == done + tasks[..j] + [tasks[j]]
  {
  }

  lemma LastIsOpen(before: seq<StageShape>, open: StageShape)
    ensures (before + [open])[..|before + [open]| - 1] == before && (before + [open])[|before + [open]| - 1] == open
  {
  }

  /** The events before a stage's tasks. */
  method OpenStage(wf: string, stage: Stage, events0: seq<Event>, ghost header: Header, ghost before: seq<StageShape>)
    returns (events: seq<Event>)
    requires header.wf == wf && Reads(events0) == Reading(Between, header, before)
    ensures Reads(events) == Reading(InStage, header, before + [StageShape(stage.id, stage.gate, [])])
    ensures Outcomes(events) == Outcomes(events0)
  {
    LastIsOpen(before, StageShape(stage.id, None, []));
    events := Emit(events0, StageEntered(wf, stage.id));
    if stage.gate.Some? {
      events := Emit(events, GateRequested(wf, stage.id, stage.gate.value));
    }
  }

  /** The body of the loop over the tasks of a stage. */
  method RunTask(wf: string, stage: string, task: Task, cfg: Config, runner: (nat, Call) -> Outcome,
                 events0: seq<Event>, calls0: seq<Call>, pending0: Option<string>, ghost done: seq<Task>)
    returns (events: seq<Event>, calls: seq<Call>, pending: Option<string>)
    requires Reads(events0).Reading? && Reads(events0).phase == InStage && InOpenStage(Reads(events0), wf, stage)
    requires calls0 == CallsFor(cfg, done) && Outcomes(events0) == Answers(calls0, runner)
    requires pending0 == if calls0 == [] then CliBody(cfg) else None
    ensures Reads(events) == Reads(events0).(stages :=
              WithTask(Reads(events0).stages, TaskShape(task.id, ModeOf(cfg, task), cfg.bypass, !cfg.dryRun)))
    ensures calls == CallsFor(cfg, done + [task]) && Outcomes(events) == Answers(calls, runner)
    ensures pending == if calls == [] then CliBody(cfg) else None
  {
    calls, pending := calls0, pending0;
    var mode := TaskMode(task, cfg);
    events := Emit(events0, TaskStarted(wf, stage, task.id, mode, cfg.bypass));
    if cfg.dryRun {
      events := Emit(events, TaskSkipped(wf, task.id));
    } else {
      var outcome;
      calls, pending, outcome := RunSession(task, cfg, runner, mode, calls, pending, done);
      events := Emit(events, TaskFinished(wf, stage, task.id, mode, outcome));
    }
  }

  method TaskMode(task: Task, cfg: Config) returns (mode: string)
    ensures mode == ModeOf(cfg, task)
  {
    mode := BaseMode(cfg);
    if task.mode.Some? && Strip(task.mode.value) != "" {
      mode := NormalizeMode(task.mode.value);
    }
  }

  /** Builds the task's messages, using up the CLI body, and runs its session. */
  method RunSession(task: Task, cfg: Config, runner: (nat, Call) -> Outcome, mode: string, calls0: seq<Call>,
                    pending0: Option<string>, ghost done: seq<Task>)
    returns (calls: seq<Call>, pending: Option<string>, outcome: Outcome)
    requires !cfg.dryRun && calls0 == CallsFor(cfg, done) && mode == ModeOf(cfg, task)
    requires pending0 == if calls0 == [] then CliBody(cfg) else None
    ensures calls == CallsFor(cfg, done + [task]) && pending == None
    ensures Answers(calls, runner) == Answers(calls0, runner) + [outcome]
  {
    CallsSnoc(cfg, done, task);
    pending := pending0;
    var userText := task.userText;
    if pending.Some? {
      userText := MergeCliTask(task.userText, pending.value);
      pending := None;
    }
    var call := Call(cfg.system + [task.systemPrompt], userText, mode);
    outcome := runner(|calls0|, call);
    calls := calls0 + [call];
  }

  lemma ShapesSnoc(cfg: Config, stage: Stage, before: seq<StageShape>, j: nat)
    requires j < |stage.tasks|
    ensures var task := stage.tasks[j];
            WithTask(before + [StageShape(stage.id, stage.gate, TaskShapes(cfg, stage.tasks[..j]))],
                     TaskShape(task.id, ModeOf(cfg, task), cfg.bypass, !cfg.dryRun))
            == before + [StageShape(stage.id, stage.gate, TaskShapes(cfg, stage.tasks[..j + 1]))]
  {
    var task := stage.tasks[j];
    var open := before + [StageShape(stage.id, stage.gate, TaskShapes(cfg, stage.tasks[..j]))];
    assert open[..|open| - 1] == before;
    assert TaskShapes(cfg, stage.tasks[..j + 1])
        == TaskShapes(cfg, stage.tasks[..j]) + [TaskShape(task.id, ModeOf(cfg, task), cfg.bypass, !cfg.dryRun)];
  }

  // ---------------------------------------------------------------- a reading determines the trace

  /** An event without the part that a session decides. */
  function Skeleton(e: Event): Event {
    if e.TaskFinished? then e.(outcome := Outcome("", "", [])) else e
  }

  function Skeletons(events: seq<Event>): seq<Event> {
    seq(|events|, i requires 0 <= i < |events| => Skeleton(events[i]))
  }

  function TaskEvents(wf: string, stage: string, t: TaskShape): seq<Event> {
    [TaskStarted(wf, stage, t.id, t.mode, t.bypass),
     if t.ran then TaskFinished(wf, stage, t.id, t.mode, Outcome("", "", [])) else TaskSkipped(wf, t.id)]
  }

  function TasksEvents(wf: string, stage: string, tasks: seq<TaskShape>): seq<Event> {
    if tasks == [] then []
    else TasksEvents(wf, stage, tasks[..|tasks| - 1]) + TaskEvents(wf, stage, tasks[|tasks| - 1])
  }

  /** The events of a stage that is still open. */
  function OpenEvents(wf: string, s: StageShape): seq<Event> {
    [StageEntered(wf, s.id)] + (if s.gate.Some? then [GateRequested(wf, s.id, s.gate.value)] else [])
    + TasksEvents(wf, s.id, s.tasks)
  }

  function ClosedEvents(wf: string, stages: seq<StageShape>): seq<Event> {
    if stages == [] then []
    else
      var last := stages[|stages| - 1];
      ClosedEvents(wf, stages[..|stages| - 1]) + OpenEvents(wf, last) + [StageExited(wf, last.id)]
  }

  function HeaderEvents(h: Header): seq<Event> {
    [WorkflowLoaded(h.wf), PolicyRef(h.wf, h.hybrid, h.policyRef)] +
    if h.run.Some? then [RunStarted(h.wf, h.run.value.0, h.run.value.1)] else []
  }

  /** The only sequence of events, up to what the sessions answered, with a given reading. */
  function Render(r: Reading): seq<Event>
    requires r.Reading? && (r.phase == InStage || r.phase.InTask? ==> r.stages != [])
  {
    match r.phase
    case Empty => []
    case Opened => [WorkflowLoaded(r.header.wf)]
    case Between => HeaderEvents(r.header) + ClosedEvents(r.header.wf, r.stages)
    case InStage => HeaderEvents(r.header) + ClosedEvents(r.header.wf, r.stages[..|r.stages| - 1])
                    + OpenEvents(r.header.wf, r.stages[|r.stages| - 1])
    case InTask(t, m, b) =>
      HeaderEvents(r.header) + ClosedEvents(r.header.wf, r.stages[..|r.stages| - 1])
      + OpenEvents(r.header.wf, r.stages[|r.stages| - 1])
      + [TaskStarted(r.header.wf, r.stages[|r.stages| - 1].id, t, m, b)]
    case Done => HeaderEvents(r.header) + ClosedEvents(r.header.wf, r.stages) + [WorkflowFinished(r.header.wf)]
  }

  predicate Proper(r: Reading) {
    r.Reading? && (r.phase == InStage || r.phase.InTask? ==> r.stages != [])
  }

  lemma RenderEntered(r: Reading, s: string)
    requires Proper(r) && r.phase == Between
    ensures Render(r.(phase := InStage, stages := r.stages + [StageShape(s, None, [])]))
            == Render(r) + [StageEntered(r.header.wf, s)]
  {
    var shape := StageShape(s, None, []);
    var stages := r.stages + [shape];
    assert stages[..|stages| - 1] == r.stages && stages[|stages| - 1] == shape;
    assert OpenEvents(r.header.wf, shape) == [StageEntered(r.header.wf, s)];
  }

  lemma RenderGate(r: Reading, s: string, g: HumanGate)
    requires Proper(r) && r.phase == InStage && r.stages[|r.stages| - 1] == StageShape(s, None, [])
    ensures Render(r.(stages := r.stages[..|r.stages| - 1] + [StageShape(s, Some(g), [])])) ==
            Render(r) + [GateRequested(r.header.wf, s, g)]
  {
    var n, wf := |r.stages| - 1, r.header.wf;
    var stages := r.stages[..n] + [StageShape(s, Some(g), [])];
    assert stages[..n] == r.stages[..n] && stages[n] == StageShape(s, Some(g), []);
    assert OpenEvents(wf, stages[n]) == OpenEvents(wf, r.stages[n]) + [GateRequested(wf, s, g)];
  }

  lemma RenderExited(r: Reading)
    requires Proper(r) && r.phase == InStage
    ensures Render(r.(phase := Between)) == Render(r) + [StageExited(r.header.wf, r.stages[|r.stages| - 1].id)]
  {
    var n, wf := |r.stages| - 1, r.header.wf;
    var h, c := HeaderEvents(r.header), ClosedEvents(wf, r.stages[..n]);
    var o, x := OpenEvents(wf, r.stages[n]), StageExited(wf, r.stages[n].id);
    assert h + (c + o + [x]) == h + c + o + [x];
  }

  lemma RenderHeader(r: Reading, e: Event)
    requires Proper(r) && !Read(r, e).Malformed?
    requires e.WorkflowLoaded? || e.PolicyRef? || e.RunStarted? || e.WorkflowFinished?
    ensures Proper(Read(r, e)) && Render(Read(r, e)) == Render(r) + [e]
  {
  }

  lemma RenderStep(r: Reading, e: Event)
    requires Proper(r) && !Read(r, e).Malformed?
    ensures Proper(Read(r, e)) && Render(Read(r, e)) == Render(r) + [Skeleton(e)]
  {
    match e
    case StageEntered(w, s) => RenderEntered(r, s);
    case GateRequested(w, s, g) => RenderGate(r, s, g);
    case TaskStarted(w, s, t, m, b) =>
    case TaskSkipped(w, t) => RenderTask(r, TaskShape(t, r.phase.mode, r.phase.bypass, false));
    case TaskFinished(w, s, t, m, o) => RenderTask(r, TaskShape(t, m, r.phase.bypass, true));
    case StageExited(w, s) => RenderExited(r);
    case _ => RenderHeader(r, e);
  }

  lemma TaskAppended(wf: string, last: StageShape, t: TaskShape)
    ensures OpenEvents(wf, last.(tasks := last.tasks + [t])) == OpenEvents(wf, last) + TaskEvents(wf, last.id, t)
  {
    var tasks := last.tasks + [t];
    assert tasks[..|tasks| - 1] == last.tasks;
  }

  lemma RenderTask(r: Reading, t: TaskShape)
    requires Proper(r) && r.phase == InTask(t.id, t.mode, t.bypass)
    ensures Render(r.(phase := InStage, stages := WithTask(r.stages, t))) ==
            Render(r) + [TaskEvents(r.header.wf, r.stages[|r.stages| - 1].id, t)[1]]
  {
    var n, wf := |r.stages| - 1, r.header.wf;
    var last := r.stages[n];
    var stages := WithTask(r.stages, t);
    assert stages[..n] == r.stages[..n] && stages[n] == last.(tasks := last.tasks + [t]);
    TaskAppended(wf, last, t);
    AppendPair(HeaderEvents(r.header) + ClosedEvents(wf, r.stages[..n]), OpenEvents(wf, last),
               TaskEvents(wf, last.id, t)[0], TaskEvents(wf, last.id, t)[1]);
  }

  lemma AppendPair<T>(a: seq<T>, b: seq<T>, x: T, y: T)
    ensures a + (b + [x, y]) == a + b + [x] + [y]
  {
  }

  lemma SkeletonsSnoc(events: seq<Event>, e: Event)
    ensures Skeletons(events + [e]) == Skeletons(events) + [Skeleton(e)]
  {
  }

  lemma ExactStep(front: seq<Event>, e: Event, r: Reading)
    requires Proper(r) && Skeletons(front) == Render(r) && !Read(r, e).Malformed?
    ensures Proper(Read(r, e)) && Skeletons(front + [e]) == Render(Read(r, e))
  {
    RenderStep(r, e);
    SkeletonsSnoc(front, e);
  }

  /** Reading is exact: an accepted trace is, up to the sessions' answers, the rendering of what was read. */
  lemma {:induction false} ReadingIsExact(events: seq<Event>)
    requires !Reads(events).Malformed?
    ensures Proper(Reads(events)) && Skeletons(events) == Render(Reads(events))
  {
    if events != [] {
      var front, e := events[..|events| - 1], events[|events| - 1];
      assert events == front + [e];
      EventsSnoc(front, e);
      ReadingIsExact(front);
      ExactStep(front, e, Reads(front));
    }
  }

  /** Two accepted traces with the same reading differ at most in what the sessions answered. */
  lemma DecodesUniquely(events: seq<Event>, other: seq<Event>)
    requires !Reads(events).Malformed? && Reads(events) == Reads(other)
    ensures Skeletons(events) == Skeletons(other)
  {
    ReadingIsExact(events);
    ReadingIsExact(other);
  }

  function TraceLength(stages: seq<StageShape>): nat {
    if stages == [] then 0
    else
      var last := stages[|stages| - 1];
      TraceLength(stages[..|stages| - 1]) + 2 + (if last.gate.Some? then 1 else 0) + 2 * |last.tasks|
  }

  lemma {:induction false} TasksLength(wf: string, stage: string, tasks: seq<TaskShape>)
    ensures |TasksEvents(wf, stage, tasks)| == 2 * |tasks|
  {
    if tasks != [] {
      TasksLength(wf, stage, tasks[..|tasks| - 1]);
    }
  }

  lemma {:induction false} ClosedLength(wf: string, stages: seq<StageShape>)
    ensures |ClosedEvents(wf, stages)| == TraceLength(stages)
  {
    if stages != [] {
      ClosedLength(wf, stages[..|stages| - 1]);
      TasksLength(wf, stages[|stages| - 1].id, stages[|stages| - 1].tasks);
    }
  }

  /** A finished trace has three events, one more for a run id, and per stage two, its gate and two for each task. */
  lemma FinishedLength(events: seq<Event>)
    requires !Reads(events).Malformed? && Reads(events).phase == Done
    ensures |events| == 3 + (if Reads(events).header.run.Some? then 1 else 0) + TraceLength(Reads(events).stages)
  {
    ReadingIsExact(events);
    ClosedLength(Reads(events).header.wf, Reads(events).stages);
    assert |Skeletons(events)| == |events|;
  }
}
