/**
 * The two filters that keep orphaned tool messages out of requests, and the codec that saves a chat without
 * its tool calls.
 */
module ToolMessages {
  import opened Prelude

  datatype Role = System | User | Assistant | Tool

  /** `toolCalls` lists the call ids of the issued calls; other fields of a call are carried along unseen. */
  datatype ToolCall = ToolCall(callId: string, toolName: string, arguments: string)

  datatype Message = Message(role: Role, content: string, name: Option<string>, toolCallId: Option<string>,
                             toolCalls: seq<ToolCall>)

  /** The non-empty call ids a message issues. */
  function Issued(m: Message): set<string> {
    set c | c in m.toolCalls && c.callId != "" :: c.callId
  }

  predicate HasId(m: Message) {
    m.toolCallId.Some? && m.toolCallId.value != ""
  }

  // ---------------------------------------------------------------- the TUI filter

  /**
   * The ids a tool message may answer after these messages: those of the assistant whose answers are still coming in.
   */
  function Expected(ms: seq<Message>): set<string> {
    if ms == [] then {}
    else
      var m := ms[|ms| - 1];
      match m.role
      case Assistant => Issued(m)
      case Tool => Expected(ms[..|ms| - 1])
      case _ => {}
  }

  predicate Keeps(before: seq<Message>, m: Message) {
    m.role == Tool ==> HasId(m) && m.toolCallId.value in Expected(before)
  }

  function TuiFilter(ms: seq<Message>): seq<Message> {
    if ms == [] then []
    else
      var front, m := ms[..|ms| - 1], ms[|ms| - 1];
      TuiFilter(front) + if Keeps(front, m) then [m] else []
  }

  lemma Snoc(ms: seq<Message>, m: Message)
    ensures Expected(ms + [m]) == if m.role == Assistant then Issued(m) else if m.role == Tool then Expected(ms) else {}
    ensures TuiFilter(ms + [m]) == TuiFilter(ms) + if Keeps(ms, m) then [m] else []
  {
    assert (ms + [m])[..|ms|] == ms;
  }

  /** `_sanitize_messages_for_openai_tools` */
  method SanitizeForOpenAiTools(messages: seq<Message>) returns (out: seq<Message>)
    ensures out == TuiFilter(messages)
  {
    out := [];
    var expected: set<string> := {};
    for i := 0 to |messages|
      invariant out == TuiFilter(messages[..i]) && expected == Expected(messages[..i])
    {
      var m := messages[i];
      assert messages[..i + 1][..i] == messages[..i];
      if m.role == Assistant {
        expected := Issued(m);
        out := out + [m];
      } else if m.role == Tool {
        if expected != {} && HasId(m) && m.toolCallId.value in expected {
          out := out + [m];
        }
      } else {
        expected := {};
        out := out + [m];
      }
    }
    assert messages[..|messages|] == messages;
  }

  /** The assistant at `j` issued the id, and only tool messages follow. */
  ghost predicate Source(ms: seq<Message>, j: nat, id: string) {
    && j < |ms| && ms[j].role == Assistant && id in Issued(ms[j]) && forall k :: j < k < |ms| ==> ms[k].role == Tool
  }

  /** Message `i` is separated only by tool messages from an assistant that issued its id. */
  ghost predicate Answers(ms: seq<Message>, i: nat)
    requires i < |ms|
  {
    HasId(ms[i]) && exists j :: Source(ms[..i], j, ms[i].toolCallId.value)
  }

  lemma {:induction false} ExpectedMeaning(ms: seq<Message>, id: string)
    ensures id in Expected(ms) <==> exists j :: Source(ms, j, id)
    decreases |ms|
  {
    if ms != [] {
      var n := |ms| - 1;
      var front := ms[..n];
      ExpectedMeaning(front, id);
      if ms[n].role == Tool {
        forall j: nat
          ensures Source(ms, j, id) <==> Source(front, j, id)
        {
          assert Source(ms, j, id) ==> j < n && front[j] == ms[j];
        }
      } else {
        assert Source(ms, n, id) <==> id in Expected(ms);
        assert forall j: nat :: Source(ms, j, id) ==> j == n;
      }
    }
  }

  /** A message survives the TUI filter exactly when it is no tool message or answers an assistant directly above. */
  lemma KeptIff(ms: seq<Message>, i: nat)
    requires i < |ms|
    ensures Keeps(ms[..i], ms[i]) <==> ms[i].role != Tool || Answers(ms, i)
  {
    if ms[i].role == Tool && HasId(ms[i]) {
      ExpectedMeaning(ms[..i], ms[i].toolCallId.value);
    }
  }

  /** Dropping orphans does not change what is expected next. */
  lemma {:induction false} ExpectedAfterFilter(ms: seq<Message>)
    ensures Expected(TuiFilter(ms)) == Expected(ms)
    decreases |ms|
  {
    if ms != [] {
      var front, m := ms[..|ms| - 1], ms[|ms| - 1];
      ExpectedAfterFilter(front);
      if Keeps(front, m) {
        Snoc(TuiFilter(front), m);
      } else {
        assert TuiFilter(ms) == TuiFilter(front);
      }
    }
  }

  lemma {:induction false} TuiFilterIdempotent(ms: seq<Message>)
    ensures TuiFilter(TuiFilter(ms)) == TuiFilter(ms)
    decreases |ms|
  {
    if ms != [] {
      var front, m := ms[..|ms| - 1], ms[|ms| - 1];
      TuiFilterIdempotent(front);
      ExpectedAfterFilter(front);
      if Keeps(front, m) {
        Snoc(TuiFilter(front), m);
      } else {
        assert TuiFilter(ms) == TuiFilter(front);
      }
    }
  }

  // ---------------------------------------------------------------- the request filter

  /** All non-empty ids issued so far. */
  function Seen(ms: seq<Message>): set<string> {
    if ms == [] then {}
    else Seen(ms[..|ms| - 1]) + if ms[|ms| - 1].role == Assistant then Issued(ms[|ms| - 1]) else {}
  }

  /** Some assistant among the messages issued a call with this id. */
  ghost predicate IssuedAmong(ms: seq<Message>, id: string) {
    exists j, c :: 0 <= j < |ms| && 0 <= c < |ms[j].toolCalls|
                   && ms[j].role == Assistant && ms[j].toolCalls[c].callId == id
  }

  lemma {:induction false} SeenMeans(ms: seq<Message>, id: string)
    ensures id in Seen(ms) <==> id != "" && IssuedAmong(ms, id)
    decreases |ms|
  {
    if ms != [] {
      var front, m := ms[..|ms| - 1], ms[|ms| - 1];
      SeenMeans(front, id);
      assert ms == front + [m];
      if m.role == Assistant && id in Issued(m) {
        var c :| 0 <= c < |m.toolCalls| && m.toolCalls[c].callId == id;
        assert ms[|ms| - 1].toolCalls[c].callId == id;
      }
      if IssuedAmong(front, id) {
        var j, c :| 0 <= j < |front| && 0 <= c < |front[j].toolCalls|
                    && front[j].role == Assistant && front[j].toolCalls[c].callId == id;
        assert ms[j] == front[j] && ms[j].toolCalls[c].callId == id;
      }
      if id != "" && IssuedAmong(ms, id) {
        IssuedLast(ms, id);
      }
    }
  }

  lemma IssuedLast(ms: seq<Message>, id: string)
    requires ms != [] && id != "" && IssuedAmong(ms, id)
    ensures IssuedAmong(ms[..|ms| - 1], id) || (ms[|ms| - 1].role == Assistant && id in Issued(ms[|ms| - 1]))
  {
    var j, c :| 0 <= j < |ms| && 0 <= c < |ms[j].toolCalls|
                && ms[j].role == Assistant && ms[j].toolCalls[c].callId == id;
    if j < |ms| - 1 {
      assert ms[..|ms| - 1][j].toolCalls[c].callId == id;
    } else {
      assert ms[j].toolCalls[c] in ms[j].toolCalls;
    }
  }

  /** A tool message without an id is not checked at all. */
  predicate Sends(before: seq<Message>, m: Message) {
    m.role == Tool && HasId(m) ==> m.toolCallId.value in Seen(before)
  }

  function RequestFilter(ms: seq<Message>): seq<Message> {
    if ms == [] then []
    else
      var front, m := ms[..|ms| - 1], ms[|ms| - 1];
      RequestFilter(front) + if Sends(front, m) then [m] else []
  }

  /** A message is sent unless it is a tool message with an id that no assistant before it issued. */
  lemma SentIff(ms: seq<Message>, i: nat)
    requires i < |ms|
    ensures RequestFilter(ms[..i + 1]) == RequestFilter(ms[..i]) + if Sends(ms[..i], ms[i]) then [ms[i]] else []
    ensures Sends(ms[..i], ms[i]) <==>
            ms[i].role != Tool || ms[i].toolCallId.GetOr("") == "" || IssuedAmong(ms[..i], ms[i].toolCallId.value)
  {
    assert ms[..i + 1][..i] == ms[..i];
    if HasId(ms[i]) {
      SeenMeans(ms[..i], ms[i].toolCallId.value);
    }
  }

  /** `_sanitize_tool_messages` */
  method SanitizeToolMessages(messages: seq<Message>) returns (out: seq<Message>)
    ensures out == RequestFilter(messages)
  {
    out := [];
    var seen: set<string> := {};
    for i := 0 to |messages|
      invariant out == RequestFilter(messages[..i]) && seen == Seen(messages[..i])
    {
      var m := messages[i];
      assert messages[..i + 1][..i] == messages[..i];
      if m.role == Assistant && m.toolCalls != [] {
        seen := seen + Issued(m);
        out := out + [m];
      } else if m.role == Tool && HasId(m) {
        if m.toolCallId.value in seen {
          out := out + [m];
        }
      } else {
        assert m.role == Assistant ==> Issued(m) == {};
        out := out + [m];
      }
    }
    assert messages[..|messages|] == messages;
  }

  lemma {:induction false} ExpectedWereSeen(ms: seq<Message>)
    ensures Expected(ms) <= Seen(ms)
    decreases |ms|
  {
    if ms != [] {
      ExpectedWereSeen(ms[..|ms| - 1]);
    }
  }

  /** What the TUI filter lets through, the request filter leaves alone. */
  lemma {:induction false} RequestFilterFixesTuiOutput(ms: seq<Message>)
    ensures RequestFilter(TuiFilter(ms)) == TuiFilter(ms)
    decreases |ms|
  {
    if ms != [] {
      var front, m := ms[..|ms| - 1], ms[|ms| - 1];
      RequestFilterFixesTuiOutput(front);
      ExpectedAfterFilter(front);
      ExpectedWereSeen(TuiFilter(front));
      if Keeps(front, m) {
        RequestSnoc(TuiFilter(front), m);
      } else {
        assert TuiFilter(ms) == TuiFilter(front);
      }
    }
  }

  lemma RequestSnoc(ms: seq<Message>, m: Message)
    ensures RequestFilter(ms + [m]) == RequestFilter(ms) + if Sends(ms, m) then [m] else []
  {
    assert (ms + [m])[..|ms|] == ms;
  }

  predicate ToolsHaveIds(ms: seq<Message>) {
    forall i :: 0 <= i < |ms| && ms[i].role == Tool ==> HasId(ms[i])
  }

  /** Every tool message answers a call issued earlier in the same list. */
  predicate NoOrphans(ms: seq<Message>) {
    forall i :: 0 <= i < |ms| && ms[i].role == Tool ==> HasId(ms[i]) && ms[i].toolCallId.value in Seen(ms[..i])
  }

  /**
   * The request filter meets its purpose exactly when no tool message lacks an id: such messages are sent
   * although nothing issued them.
   */
  lemma RequestFilterCleanIff(ms: seq<Message>)
    ensures NoOrphans(RequestFilter(ms)) <==> ToolsHaveIds(ms)
  {
    RequestFilterFacts(ms);
  }

  /** Every tool message with an id answers a call issued earlier in the same list. */
  predicate Anchored(ms: seq<Message>) {
    forall i :: 0 <= i < |ms| && ms[i].role == Tool && HasId(ms[i]) ==> ms[i].toolCallId.value in Seen(ms[..i])
  }

  lemma AnchoredSnoc(ms: seq<Message>, m: Message)
    requires Anchored(ms) && Sends(ms, m)
    ensures Anchored(ms + [m])
  {
    var g := ms + [m];
    forall i | 0 <= i < |g| && g[i].role == Tool && HasId(g[i])
      ensures g[i].toolCallId.value in Seen(g[..i])
    {
      assert i < |ms| ==> g[i] == ms[i] && g[..i] == ms[..i];
      assert i == |ms| ==> g[..i] == ms;
    }
  }

  lemma IdsSnoc(ms: seq<Message>, m: Message)
    ensures ToolsHaveIds(ms + [m]) <==> ToolsHaveIds(ms) && (m.role == Tool ==> HasId(m))
  {
    var g := ms + [m];
    assert g[|ms|] == m && forall i :: 0 <= i < |ms| ==> g[i] == ms[i];
  }

  lemma SeenSnoc(ms: seq<Message>, m: Message)
    ensures Seen(ms + [m]) == Seen(ms) + if m.role == Assistant then Issued(m) else {}
    ensures RequestFilter(ms + [m]) == RequestFilter(ms) + if Sends(ms, m) then [m] else []
  {
    assert (ms + [m])[..|ms + [m]| - 1] == ms;
  }

  lemma {:induction false} RequestFilterFacts(ms: seq<Message>)
    ensures ToolsHaveIds(RequestFilter(ms)) <==> ToolsHaveIds(ms)
    ensures Anchored(RequestFilter(ms)) && Seen(RequestFilter(ms)) == Seen(ms)
    decreases |ms|
  {
    if ms != [] {
      var front, m := ms[..|ms| - 1], ms[|ms| - 1];
      assert ms == front + [m];
      RequestFilterFacts(front);
      SeenSnoc(front, m);
      IdsSnoc(front, m);
      if Sends(front, m) {
        SeenSnoc(RequestFilter(front), m);
        AnchoredSnoc(RequestFilter(front), m);
        IdsSnoc(RequestFilter(front), m);
      } else {
        assert RequestFilter(ms) == RequestFilter(front);
      }
    }
  }

  // ---------------------------------------------------------------- saving and restoring a chat

  /** A saved message: empty ids and names are left out, tool calls always. */
  datatype SavedMessage = SavedMessage(role: Role, content: string, toolCallId: Option<string>, name: Option<string>)

  function NonEmpty(s: Option<string>): Option<string> {
    if s.Some? && s.value != "" then s else None
  }

  function Save(m: Message): SavedMessage {
    SavedMessage(m.role, m.content, NonEmpty(m.toolCallId), NonEmpty(m.name))
  }

  function Restore(r: SavedMessage): Message {
    Message(r.role, r.content, r.name, r.toolCallId, [])
  }

  function SaveAll(ms: seq<Message>): seq<SavedMessage> {
    seq(|ms|, i requires 0 <= i < |ms| => Save(ms[i]))
  }

  function RestoreAll(rs: seq<SavedMessage>): seq<Message> {
    seq(|rs|, i requires 0 <= i < |rs| => Restore(rs[i]))
  }

  method MessagesToJsonable(ms: seq<Message>) returns (rows: seq<SavedMessage>)
    ensures rows == SaveAll(ms)
  {
    rows := [];
    for i := 0 to |ms|
      invariant rows == SaveAll(ms[..i])
    {
      var row := SavedMessage(ms[i].role, ms[i].content, None, None);
      if HasId(ms[i]) {
        row := row.(toolCallId := ms[i].toolCallId);
      }
      if ms[i].name.Some? && ms[i].name.value != "" {
        row := row.(name := ms[i].name);
      }
      rows := rows + [row];
    }
  }

  method MessagesFromJsonable(rows: seq<SavedMessage>) returns (ms: seq<Message>)
    ensures ms == RestoreAll(rows)
  {
    ms := [];
    for i := 0 to |rows|
      invariant ms == RestoreAll(rows[..i])
    {
      ms := ms + [Restore(rows[i])];
    }
  }

  /** What is left of a message after a save and a restore. */
  function Erased(m: Message): Message {
    m.(name := NonEmpty(m.name), toolCallId := NonEmpty(m.toolCallId), toolCalls := [])
  }

  function Survivors(ms: seq<Message>): seq<Message> {
    if ms == [] then []
    else Survivors(ms[..|ms| - 1]) + if ms[|ms| - 1].role == Tool then [] else [Erased(ms[|ms| - 1])]
  }

  lemma {:induction false} NothingExpectedWithoutCalls(ms: seq<Message>)
    requires forall i :: 0 <= i < |ms| ==> ms[i].toolCalls == []
    ensures Expected(ms) == {}
    decreases |ms|
  {
    if ms != [] {
      NothingExpectedWithoutCalls(ms[..|ms| - 1]);
    }
  }

  /**
   * Restoring a saved chat through the TUI filter gives back the non-tool messages with their tool calls erased,
   * in order, and no tool message: the calls they answered were not saved.
   */
  lemma {:induction false} RestoredChat(ms: seq<Message>)
    ensures TuiFilter(RestoreAll(SaveAll(ms))) == Survivors(ms)
    decreases |ms|
  {
    var all := RestoreAll(SaveAll(ms));
    if ms != [] {
      var front, m := ms[..|ms| - 1], ms[|ms| - 1];
      RestoredChat(front);
      assert all[..|all| - 1] == RestoreAll(SaveAll(front));
      NothingExpectedWithoutCalls(RestoreAll(SaveAll(front)));
      assert all[|all| - 1] == Erased(m);
    }
  }

  /** A second save and restore changes nothing any more. */
  lemma {:induction false} SurvivorsStable(ms: seq<Message>)
    ensures Survivors(Survivors(ms)) == Survivors(ms)
    decreases |ms|
  {
    if ms != [] {
      SurvivorsStable(ms[..|ms| - 1]);
      var kept := Survivors(ms[..|ms| - 1]);
      if ms[|ms| - 1].role != Tool {
        var e := Erased(ms[|ms| - 1]);
        assert (kept + [e])[..|kept + [e]| - 1] == kept;
        assert Erased(e) == e;
      } else {
        assert Survivors(ms) == kept;
      }
    }
  }
}
