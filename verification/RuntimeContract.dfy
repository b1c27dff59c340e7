/**
 * The AgentMemory runtime contract: the table of allowed state transitions, the strict and the lenient
 * reading of command envelopes, and the extraction of a JSON object from surrounding prose.
 */
module RuntimeContract {
  import opened Prelude
  import opened Text

  // ---------------------------------------------------------------- states

  datatype State = Start | ListFrontier | PlanTraversal | MaterializeB | DecomposeBToC | SummarizeC | SummarizeB
                 | CollectResult | FinishDecision | Finish | Blocked

  function ParseState(s: string): Option<State> {
    var t := Strip(s);
    if t == "start" then Some(Start)
    else if t == "list_frontier" then Some(ListFrontier)
    else if t == "plan_traversal" then Some(PlanTraversal)
    else if t == "materialize_b" then Some(MaterializeB)
    else if t == "decompose_b_to_c" then Some(DecomposeBToC)
    else if t == "summarize_c" then Some(SummarizeC)
    else if t == "summarize_b" then Some(SummarizeB)
    else if t == "collect_result" then Some(CollectResult)
    else if t == "finish_decision" then Some(FinishDecision)
    else if t == "finish" then Some(Finish)
    else if t == "blocked" then Some(Blocked)
    else None
  }

  const EDGES: set<(State, State)> := {
    (Start, ListFrontier), (ListFrontier, PlanTraversal), (PlanTraversal, MaterializeB), (PlanTraversal, DecomposeBToC),
    (PlanTraversal, SummarizeB), (PlanTraversal, FinishDecision), (MaterializeB, ListFrontier),
    (DecomposeBToC, SummarizeC), (SummarizeC, CollectResult), (SummarizeB, CollectResult),
    (CollectResult, PlanTraversal), (CollectResult, FinishDecision),
    (FinishDecision, Finish) }

  predicate Allowed(a: State, b: State) {
    (a, b) in EDGES || (b == Blocked && a != Finish)
  }

  /** The states that may follow each state. */
  function Following(s: State): set<State> {
    match s
    case Start | MaterializeB => {ListFrontier, Blocked}
    case ListFrontier => {PlanTraversal, Blocked}
    case PlanTraversal => {MaterializeB, DecomposeBToC, SummarizeB, FinishDecision, Blocked}
    case DecomposeBToC => {SummarizeC, Blocked}
    case SummarizeC | SummarizeB => {CollectResult, Blocked}
    case CollectResult => {PlanTraversal, FinishDecision, Blocked}
    case FinishDecision => {Finish, Blocked}
    case Blocked => {Blocked}
    case Finish => {}
  }

  /** The table of transitions, state by state: every state but `finish` may block, and nothing leaves `blocked`. */
  lemma Successors(a: State, b: State)
    ensures Allowed(a, b) <==> b in Following(a)
  {
    match a {
      case PlanTraversal => assert b in Following(a) <==> (a, b) in EDGES || b == Blocked;
      case _ =>
    }
  }

  /** The text a state is written as. */
  function NameOf(s: State): string {
    match s
    case Start => "start"
    case ListFrontier => "list_frontier"
    case PlanTraversal => "plan_traversal"
    case MaterializeB => "materialize_b"
    case DecomposeBToC => "decompose_b_to_c"
    case SummarizeC => "summarize_c"
    case SummarizeB => "summarize_b"
    case CollectResult => "collect_result"
    case FinishDecision => "finish_decision"
    case Finish => "finish"
    case Blocked => "blocked"
  }

  /** A text names a state exactly when it is the state's text, with blanks around it or not. */
  lemma ParsesItsName(text: string, s: State)
    ensures ParseState(text) == Some(s) <==> Strip(text) == NameOf(s)
  {
  }

  /** Two texts are checked as the table says of the states they name. */
  lemma CheckMeans(a: string, b: string)
    ensures CheckTransition(a, b) == Accepted <==>
            exists s, t :: Strip(a) == NameOf(s) && Strip(b) == NameOf(t) && Allowed(s, t)
    ensures CheckTransition(a, b) == UnknownState <==>
            (forall s :: Strip(a) != NameOf(s)) || (forall s :: Strip(b) != NameOf(s))
  {
    forall s ensures ParseState(a) == Some(s) <==> Strip(a) == NameOf(s) { ParsesItsName(a, s); }
    forall s ensures ParseState(b) == Some(s) <==> Strip(b) == NameOf(s) { ParsesItsName(b, s); }
  }

  datatype Verdict = Accepted | UnknownState | Forbidden

  /** `assert_runtime_state_transition` */
  function CheckTransition(a: string, b: string): Verdict {
    var x, y := ParseState(a), ParseState(b);
    if x.None? || y.None? then UnknownState
    else if Allowed(x.value, y.value) then Accepted
    else Forbidden
  }

  /** A run: consecutive states are allowed transitions, beginning at `start`. */
  predicate IsRun(run: seq<State>) {
    run != [] && run[0] == Start && forall i :: 0 < i < |run| ==> Allowed(run[i - 1], run[i])
  }

  ghost predicate Names(texts: seq<string>, run: seq<State>) {
    |run| == |texts| && forall i :: 0 <= i < |texts| ==> ParseState(texts[i]) == Some(run[i])
  }

  /** Texts beginning with `start` pass the check step by step exactly when they name the states of a run. */
  lemma CheckedTextsAreRuns(texts: seq<string>)
    requires texts != [] && ParseState(texts[0]) == Some(Start)
    ensures (forall i :: 0 < i < |texts| ==> CheckTransition(texts[i - 1], texts[i]) == Accepted)
            <==> exists run :: Names(texts, run) && IsRun(run)
  {
    if forall i :: 0 < i < |texts| ==> CheckTransition(texts[i - 1], texts[i]) == Accepted {
      var run := seq(|texts|, i requires 0 <= i < |texts| => ParseState(texts[i]).GetOr(Blocked));
      forall i | 0 <= i < |texts| ensures ParseState(texts[i]) == Some(run[i]) {
        assert i > 0 ==> CheckTransition(texts[i - 1], texts[i]) == Accepted;
      }
      forall i | 0 < i < |run| ensures Allowed(run[i - 1], run[i]) {
        assert CheckTransition(texts[i - 1], texts[i]) == Accepted;
      }
      assert Names(texts, run) && IsRun(run);
    }
  }

  /** Nothing follows `finish`, and only `blocked` follows `blocked`. */
  lemma TerminalStates(a: State, b: State)
    requires Allowed(a, b)
    ensures a != Finish && (a == Blocked ==> b == Blocked)
  {
  }

  function Count(run: seq<State>, s: State): nat {
    if run == [] then 0 else Count(run[..|run| - 1], s) + if run[|run| - 1] == s then 1 else 0
  }

  /** How far a run can be ahead of four states per plan visit when it ends in a state. */
  function Lead(s: State): int {
    match s
    case Start => 1
    case ListFrontier => 2
    case PlanTraversal => -1
    case MaterializeB => 0
    case DecomposeBToC => 0
    case SummarizeB => 0
    case SummarizeC => 1
    case CollectResult => 2
    case FinishDecision => 3
    case Finish => 4
    case Blocked => 4
  }

  lemma {:induction false} LeadBounds(run: seq<State>)
    requires IsRun(run) && run[|run| - 1] != Blocked
    ensures |run| <= 4 * Count(run, PlanTraversal) + Lead(run[|run| - 1])
    decreases |run|
  {
    if |run| == 1 {
      assert run[..0] == [];
    } else {
      var front := run[..|run| - 1];
      TerminalStates(run[|run| - 2], run[|run| - 1]);
      assert front[|front| - 1] == run[|run| - 2];
      LeadBounds(front);
    }
  }

  /** Before any `blocked` tail, a run with `t` plan visits has at most 4t + 4 states. */
  lemma RunLengthBound(run: seq<State>)
    requires IsRun(run) && run[|run| - 1] != Blocked
    ensures |run| <= 4 * Count(run, PlanTraversal) + 4
  {
    LeadBounds(run);
  }

  /** The run that plans `t` times, decomposing a B node each time. */
  function LongestTo(t: nat): seq<State>
    requires t >= 1
  {
    if t == 1 then [Start, ListFrontier, PlanTraversal]
    else LongestTo(t - 1) + [DecomposeBToC, SummarizeC, CollectResult, PlanTraversal]
  }

  lemma {:induction false} LongestToIsRun(t: nat)
    requires t >= 1
    ensures IsRun(LongestTo(t)) && |LongestTo(t)| == 4 * t - 1 && Count(LongestTo(t), PlanTraversal) == t
    ensures LongestTo(t)[|LongestTo(t)| - 1] == PlanTraversal
  {
    if t == 1 {
      CountThree(Start, ListFrontier, PlanTraversal, PlanTraversal);
    } else {
      LongestToIsRun(t - 1);
      CountRound();
      CountTail(LongestTo(t - 1), [DecomposeBToC, SummarizeC, CollectResult, PlanTraversal], PlanTraversal);
    }
  }

  lemma CountRound()
    ensures Count([DecomposeBToC, SummarizeC, CollectResult, PlanTraversal], PlanTraversal) == 1
  {
    assert [DecomposeBToC, SummarizeC, CollectResult, PlanTraversal]
        == [DecomposeBToC] + [SummarizeC, CollectResult, PlanTraversal];
    CountTail([DecomposeBToC], [SummarizeC, CollectResult, PlanTraversal], PlanTraversal);
    CountThree(SummarizeC, CollectResult, PlanTraversal, PlanTraversal);
    CountOne(DecomposeBToC, PlanTraversal);
  }

  lemma CountOne(a: State, s: State)
    ensures Count([a], s) == if a == s then 1 else 0
  {
    assert [a][..0] == [];
  }

  lemma CountThree(a: State, b: State, c: State, s: State)
    ensures Count([a, b, c], s) == (if a == s then 1 else 0) + (if b == s then 1 else 0) + (if c == s then 1 else 0)
  {
    assert [a, b, c] == [a] + [b] + [c];
    CountTail([a] + [b], [c], s);
    CountTail([a], [b], s);
    CountOne(a, s);
    CountOne(b, s);
    CountOne(c, s);
  }

  lemma {:induction false} CountTail(xs: seq<State>, ys: seq<State>, s: State)
    ensures Count(xs + ys, s) == Count(xs, s) + Count(ys, s)
    decreases |ys|
  {
    if ys == [] {
      assert xs + ys == xs;
    } else {
      CountTail(xs, ys[..|ys| - 1], s);
      assert (xs + ys)[..|xs + ys| - 1] == xs + ys[..|ys| - 1];
    }
  }

  /** The bound is reached for every number of plan visits, by a run that finishes. */
  lemma RunLengthBoundIsTight(t: nat)
    requires t >= 1
    ensures exists run :: IsRun(run) && run[|run| - 1] == Finish && Count(run, PlanTraversal) == t && |run| == 4 * t + 4
  {
    LongestToIsRun(t);
    var head, tail := LongestTo(t), [DecomposeBToC, SummarizeC, CollectResult, FinishDecision, Finish];
    var run := head + tail;
    CountTail(head, tail, PlanTraversal);
    assert tail == [DecomposeBToC, SummarizeC, CollectResult] + [FinishDecision] + [Finish];
    CountTail([DecomposeBToC, SummarizeC, CollectResult] + [FinishDecision], [Finish], PlanTraversal);
    CountTail([DecomposeBToC, SummarizeC, CollectResult], [FinishDecision], PlanTraversal);
    CountThree(DecomposeBToC, SummarizeC, CollectResult, PlanTraversal);
    CountOne(FinishDecision, PlanTraversal);
    CountOne(Finish, PlanTraversal);
    assert IsRun(run);
  }

  /** Once blocked, a run stays blocked; `finish` can only be its last state. */
  lemma {:induction false} TailsAreTerminal(run: seq<State>, i: nat, j: nat)
    requires IsRun(run) && i < j < |run|
    ensures run[i] != Finish && (run[i] == Blocked ==> run[j] == Blocked)
    decreases j
  {
    if j == i + 1 {
      TerminalStates(run[i], run[j]);
    } else {
      TailsAreTerminal(run, i, j - 1);
      TerminalStates(run[j - 1], run[j]);
    }
  }

  lemma {:induction false} PlanPassedFrontier(run: seq<State>, n: nat)
    requires IsRun(run) && n < |run| && run[n] != Start && run[n] != ListFrontier && run[n] != Blocked
    ensures exists i, j :: 0 < i < j <= n && run[i] == ListFrontier && run[j] == PlanTraversal
    decreases n
  {
    assert Allowed(run[n - 1], run[n]);
    if run[n] == PlanTraversal && run[n - 1] == ListFrontier {
      assert run[0] == Start;
      assert 0 < n - 1 < n;
    } else {
      PlanPassedFrontier(run, n - 1);
      var i, j :| 0 < i < j <= n - 1 && run[i] == ListFrontier && run[j] == PlanTraversal;
    }
  }

  /** A run that reaches `finish` passed the frontier, then a plan, then the finish decision just before. */
  lemma FinishedRunsPassedAllStages(run: seq<State>)
    requires IsRun(run) && run[|run| - 1] == Finish
    ensures exists i, j :: 0 < i < j < |run| - 2 && run[i] == ListFrontier && run[j] == PlanTraversal
    ensures run[|run| - 2] == FinishDecision
  {
    var n := |run| - 1;
    assert Allowed(run[n - 1], run[n]);
    PlanPassedFrontier(run, n - 1);
    var i, j :| 0 < i < j <= n - 1 && run[i] == ListFrontier && run[j] == PlanTraversal;
    assert j != n - 1;
  }

  // ---------------------------------------------------------------- object extraction

  function BraceStep(c: char): int {
    if c == '{' then 1 else if c == '}' then -1 else 0
  }

  function Depth(s: string): int {
    if s == "" then 0 else Depth(s[..|s| - 1]) + BraceStep(s[|s| - 1])
  }

  /** The depth is the number of opening braces less that of closing ones. */
  lemma {:induction false} DepthCounts(s: string)
    ensures Depth(s) + multiset(s)['}'] == multiset(s)['{']
  {
    if s != "" {
      var front, last := s[..|s| - 1], s[|s| - 1];
      DepthCounts(front);
      assert s == front + [last];
    }
  }

  /** From an opening brace to its match, counting every brace (those inside JSON strings included). */
  predicate Balanced(s: string) {
    |s| >= 2 && s[0] == '{' && Depth(s) == 0 && forall k :: 0 < k < |s| ==> Depth(s[..k]) > 0
  }

  function Find(s: string, c: char): (i: nat)
    ensures i <= |s| && (i < |s| ==> s[i] == c) && forall j :: 0 <= j < i ==> s[j] != c
  {
    if s == "" || s[0] == c then 0 else 1 + Find(s[1..], c)
  }

  /** The result is a balanced piece starting at the first opening brace, or there is none. */
  ghost predicate Extracted(t: string, r: Option<string>) {
    && (r.Some? ==> Balanced(r.value) && exists end :: Find(t, '{') <= end <= |t| && t[Find(t, '{')..end] == r.value)
    && (r.None? ==> forall end :: Find(t, '{') <= end <= |t| ==> !Balanced(t[Find(t, '{')..end]))
  }

  lemma DepthStep(t: string, start: nat, i: nat)
    requires start <= i < |t|
    ensures Depth(t[start..i + 1]) == Depth(t[start..i]) + BraceStep(t[i])
  {
    assert t[start..i + 1][..i - start] == t[start..i];
  }

  lemma BalancedPiece(t: string, start: nat, end: nat)
    requires start + 2 <= end <= |t| && t[start] == '{' && Depth(t[start..end]) == 0
    requires forall k :: start < k < end ==> Depth(t[start..k]) > 0
    ensures Balanced(t[start..end])
  {
    var s := t[start..end];
    forall k | 0 < k < |s| ensures Depth(s[..k]) > 0 {
      assert s[..k] == t[start..start + k];
    }
  }

  lemma NothingBalanced(t: string, start: nat)
    requires start <= |t| && forall k :: start < k <= |t| ==> Depth(t[start..k]) > 0
    ensures forall end :: start <= end <= |t| ==> !Balanced(t[start..end])
  {
  }

  /** `_json_extract_object` */
  method JsonExtractObject(t: string) returns (r: Option<string>)
    ensures Extracted(t, r)
  {
    var start := Find(t, '{');
    if start == |t| {
      NothingBalanced(t, start);
      return None;
    }
    var depth := 0;
    var i := start;
    while i < |t|
      invariant start <= i <= |t|
      invariant depth == Depth(t[start..i])
      invariant forall k :: start < k <= i ==> Depth(t[start..k]) > 0
    {
      DepthStep(t, start, i);
      if t[i] == '{' {
        depth := depth + 1;
      } else if t[i] == '}' {
        depth := depth - 1;
        if depth == 0 {
          BalancedPiece(t, start, i + 1);
          return Some(t[start..i + 1]);
        }
      }
      i := i + 1;
    }
    NothingBalanced(t, start);
    r := None;
  }

  /**
   * An object wrapped in prose comes back whole when the prose before it has no opening brace: the balanced
   * piece that starts at the first opening brace is unique, and it is the object.
   */
  lemma ExtractUnwraps(before: string, obj: string, after: string, end: nat)
    requires '{' !in before && Balanced(obj) && Find(before + obj + after, '{') <= end <= |before + obj + after|
    ensures var t := before + obj + after;
            Balanced(t[Find(t, '{')..end]) <==> t[Find(t, '{')..end] == obj
    ensures var t := before + obj + after;
            Find(t, '{') == |before| && t[|before|..|before| + |obj|] == obj
  {
    var t := before + obj + after;
    assert t[|before|] == '{' && forall j :: 0 <= j < |before| ==> t[j] == before[j];
    var s := t[|before|..end];
    assert |s| <= |obj| ==> s == obj[..|s|];
    assert |obj| <= |s| ==> s[..|obj|] == obj;
    assert obj[..|obj|] == obj;
    assert 0 < |s| < |obj| ==> Depth(obj[..|s|]) > 0;
  }

  // ---------------------------------------------------------------- command envelopes

  datatype Json =
    | JNull | JBool(b: bool) | JNumber(n: real) | JText(s: string) | JArray(items: seq<Json>)
    | JObject(fields: map<string, Json>)

  type Fields = map<string, Json>

  const SCHEMA := "agent_memory_command_output.v1"
  const ENVELOPE_KEYS: set<string> :=
    {"schema_version", "command", "command_id", "status", "payload", "decision_summary", "violations"}
  const COMMANDS: set<string> := {"plan_traversal", "summarize_c", "summarize_b", "finish_decision"}
  const ACTIONS: set<string> :=
    {"list_children", "get_b_summary", "get_c_content", "decompose_b_to_c", "summarize_b", "finish"}

  /** The ways a text is refused: invalid envelope, unregistered command, or no usable JSON object. */
  datatype Refusal = BadEnvelope | UnknownCommand | BadJson

  datatype Parsed = Parsed(obj: Fields, normalized: bool) | Refused(why: Refusal)

  predicate IsText(o: Fields, key: string) {
    key in o && o[key].JText?
  }

  predicate IsEnvelope(o: Fields) {
    IsText(o, "schema_version") && Strip(o["schema_version"].s) == SCHEMA
  }

  predicate LooksLikeCommand(o: Fields) {
    "schema_version" in o || "command" in o
  }

  predicate TextIfPresent(o: Fields, key: string) {
    key in o ==> o[key].JText?
  }

  predicate ActionOk(j: Json) {
    && j.JObject? && IsText(j.fields, "action") && Strip(j.fields["action"].s) in ACTIONS
       && TextIfPresent(j.fields, "path")
  }

  predicate PlanPayloadOk(p: Fields) {
    && ("actions" in p ==>
          p["actions"].JArray? && forall i :: 0 <= i < |p["actions"].items| ==> ActionOk(p["actions"].items[i]))
    && ("is_final" in p ==> p["is_final"].JBool?)
    && ("final_answer_basis" in p ==> p["final_answer_basis"].JText? || p["final_answer_basis"].JNull?)
  }

  predicate FinishPayloadOk(p: Fields) {
    && ("selected_results" in p ==>
          p["selected_results"].JArray?
          && forall i :: 0 <= i < |p["selected_results"].items| ==> p["selected_results"].items[i].JObject?)
    && ("status" in p ==>
          p["status"].JNull? || (p["status"].JText? && p["status"].s in {"complete", "partial", "blocked"}))
    && TextIfPresent(p, "decision_summary") && TextIfPresent(p, "recommended_next_step")
  }

  /** The payload rules are looked up by the command text as written, not stripped. */
  predicate PayloadOk(command: string, p: Fields) {
    (command == "plan_traversal" ==> PlanPayloadOk(p)) && (command == "finish_decision" ==> FinishPayloadOk(p))
  }

  /** `validate_w14_command_envelope_object`; `None` is acceptance. */
  function Validate(o: Fields): Option<Refusal> {
    if !IsEnvelope(o) || !(o.Keys <= ENVELOPE_KEYS) || !(ENVELOPE_KEYS <= o.Keys) then Some(BadEnvelope)
    else if !(IsText(o, "command") && Strip(o["command"].s) in COMMANDS) then Some(UnknownCommand)
    else if !IsText(o, "command_id") || !IsText(o, "status") || !o["payload"].JObject? then Some(BadEnvelope)
    else if !PayloadOk(o["command"].s, o["payload"].fields) then Some(BadEnvelope)
    else if !IsText(o, "decision_summary") || !o["violations"].JArray? then Some(BadEnvelope)
    else None
  }

  function Canonical(o: Fields): Fields {
    o["schema_version" := JText(SCHEMA)]
  }

  /** `validate_or_canonicalize_w14_command_envelope_object` */
  function ValidateOrCanonicalize(o: Fields): Parsed {
    match Validate(o)
    case None => Parsed(o, false)
    case Some(UnknownCommand) => Refused(UnknownCommand)
    case Some(first) =>
      if "schema_version" in o && o["schema_version"] == JText(SCHEMA) then Refused(first)
      else
        match Validate(Canonical(o))
        case None => Parsed(Canonical(o), true)
        case Some(UnknownCommand) => Refused(UnknownCommand)
        case Some(_) => Refused(first)
  }

  /**
   * The lenient reading of a planner answer; `loads` stands for the JSON parser, `sub` for the extracted object text.
   */
  function ReadLenient(loads: string -> Option<Json>, text: string, sub: Option<string>): Parsed {
    match loads(Strip(text))
    case Some(JObject(o)) => if LooksLikeCommand(o) then ValidateOrCanonicalize(o) else Parsed(o, false)
    case Some(_) => Refused(BadJson)
    case None =>
      if sub.None? then Refused(BadJson)
      else
        match loads(sub.value)
        case Some(JObject(o)) => if LooksLikeCommand(o) then Refused(BadEnvelope) else Parsed(o, false)
        case _ => Refused(BadJson)
  }

  /** The strict reading: the whole text is one envelope. */
  function ReadStrict(loads: string -> Option<Json>, text: string): Parsed {
    if Strip(text) == "" then Refused(BadEnvelope)
    else
      match loads(Strip(text))
      case Some(JObject(o)) => (match Validate(o) case None => Parsed(o, false) case Some(e) => Refused(e))
      case _ => Refused(BadEnvelope)
  }

  /** `parse_memory_query_pipeline_llm_text_result` */
  method ParsePipelineText(loads: string -> Option<Json>, text: string) returns (r: Parsed)
    ensures exists sub ::
              r == ReadLenient(loads, text, sub) && (loads(Strip(text)).None? ==> Extracted(Strip(text), sub))
  {
    var raw := Strip(text);
    if loads(raw).Some? {
      r := ReadLenient(loads, text, None);
      return;
    }
    var sub := JsonExtractObject(raw);
    r := ReadLenient(loads, text, sub);
  }

  lemma CanonicalKeepsRest(o: Fields)
    requires IsEnvelope(o)
    ensures Validate(Canonical(o)) == Validate(o)
  {
    SchemaIsStripped();
    assert Canonical(o).Keys == o.Keys;
  }

  lemma SchemaIsStripped()
    ensures Strip(SCHEMA) == SCHEMA
  {
    assert SCHEMA[0] == 'a' && SCHEMA[|SCHEMA| - 1] == '1';
    StripFixed(SCHEMA);
  }

  /**
   * A command-like object is accepted exactly when it validates with the schema version put right; nothing else is
   * repaired.
   */
  lemma CanonicalizationAcceptsIff(o: Fields)
    ensures ValidateOrCanonicalize(o).Parsed? <==> Validate(Canonical(o)) == None
    ensures ValidateOrCanonicalize(o).Parsed? ==>
              var r := ValidateOrCanonicalize(o);
              Validate(r.obj) == None && (if r.normalized then r.obj == Canonical(o) else r.obj == o)
  {
    SchemaIsStripped();
    if IsEnvelope(o) {
      CanonicalKeepsRest(o);
    } else if "schema_version" in o && o["schema_version"] == JText(SCHEMA) {
      assert false;
    }
  }

  /** Whatever the strict reading accepts, the lenient one returns unchanged. */
  lemma StrictImpliesLenient(loads: string -> Option<Json>, text: string, sub: Option<string>)
    requires ReadStrict(loads, text).Parsed?
    ensures ReadLenient(loads, text, sub) == ReadStrict(loads, text)
  {
  }

  /**
   * Whatever the lenient reading accepts and looks like a command is a valid envelope that came from the whole
   * text, with at most its schema version rewritten: a command is never cut out of prose.
   */
  lemma LenientCommandsAreWhole(loads: string -> Option<Json>, text: string, sub: Option<string>)
    requires var r := ReadLenient(loads, text, sub); r.Parsed? && LooksLikeCommand(r.obj)
    ensures var r := ReadLenient(loads, text, sub);
            && Validate(r.obj) == None
            && exists o :: loads(Strip(text)) == Some(JObject(o)) && r.obj == if r.normalized then Canonical(o) else o
  {
    var r := ReadLenient(loads, text, sub);
    match loads(Strip(text))
    case Some(JObject(o)) => CanonicalizationAcceptsIff(o);
    case _ =>
  }

  /** Blanks around a registered command name are accepted, and then any payload is. */
  lemma PaddedCommandSkipsPayloadRules(o: Fields, payload: Fields)
    requires Validate(o) == None && Strip(o["command"].s) != o["command"].s
    ensures Validate(o["payload" := JObject(payload)]) == None
  {
    RegisteredNamesAreStripped();
    assert o["payload" := JObject(payload)].Keys == o.Keys;
  }

  lemma RegisteredNamesAreStripped()
    ensures Strip("plan_traversal") == "plan_traversal" && Strip("finish_decision") == "finish_decision"
    ensures "plan_traversal" != "finish_decision"
  {
    var plan, finish := "plan_traversal", "finish_decision";
    assert plan[0] == 'p' && plan[|plan| - 1] == 'l' && finish[0] == 'f' && finish[|finish| - 1] == 'n';
    StripFixed(plan);
    StripFixed(finish);
  }

  /** A payload that breaks the rules of both commands that have any. */
  const BAD_PAYLOAD: Fields := map["actions" := JNull, "selected_results" := JNull]

  /**
   * For an acceptable envelope of a command with payload rules: whatever payload is accepted in its place follows the
   * rules of the command, exactly when the command's name is written without blanks around it.
   */
  lemma PayloadRulesApplyIff(o: Fields)
    requires Validate(o) == None && Strip(o["command"].s) in {"plan_traversal", "finish_decision"}
    ensures (forall p :: Validate(o["payload" := JObject(p)]) == None ==> PayloadOk(Strip(o["command"].s), p))
            <==> Strip(o["command"].s) == o["command"].s
  {
    if Strip(o["command"].s) == o["command"].s {
      forall p | Validate(o["payload" := JObject(p)]) == None ensures PayloadOk(Strip(o["command"].s), p) {
        AcceptedPayload(o["payload" := JObject(p)]);
      }
    } else {
      PaddedCommandSkipsPayloadRules(o, BAD_PAYLOAD);
      assert !PayloadOk(Strip(o["command"].s), BAD_PAYLOAD);
    }
  }

  lemma AcceptedPayload(o: Fields)
    requires Validate(o) == None
    ensures PayloadOk(o["command"].s, o["payload"].fields)
  {
  }
}
