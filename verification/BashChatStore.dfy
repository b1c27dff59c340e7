/** The list of shell-call rows kept for the chat UI, changed in place by call id. */
module BashChatStore {
  import opened Prelude
  import opened Text

  datatype Status = Running | Succeeded | Failed

  /** A row; `error` is "" while no error was recorded, `toolName` is absent in rows born from an execution record. */
  datatype Row = Row(callId: string, toolName: Option<string>, command: string, status: Status, output: string,
                     error: string)

  /** The payload of a finished execution; an absent error and an empty one are told apart by the source. */
  datatype Execution = Execution(callId: string, command: string, output: string, ok: bool, error: Option<string>)

  const MAX_RUNS: nat := 50

  function StatusOf(ok: bool): Status {
    if ok then Succeeded else Failed
  }

  /** The first row of the call, or the length when there is none. */
  function IndexOf(rows: seq<Row>, callId: string): (i: nat)
    ensures i <= |rows|
    ensures i < |rows| ==> rows[i].callId == callId
    ensures forall j :: 0 <= j < i ==> rows[j].callId != callId
  {
    if rows == [] || rows[0].callId == callId then 0 else 1 + IndexOf(rows[1..], callId)
  }

  function UpsertRunning(rows: seq<Row>, callId: string, command: string, toolName: string): seq<Row> {
    var i := IndexOf(rows, callId);
    if i < |rows| then rows[i := rows[i].(toolName := Some(rows[i].toolName.GetOr(toolName)), command := command)]
    else rows + [Row(callId, Some(toolName), command, Running, "", "")]
  }

  function AppendDelta(rows: seq<Row>, callId: string, chunk: string): seq<Row> {
    var i := IndexOf(rows, callId);
    if i < |rows| then rows[i := rows[i].(output := rows[i].output + chunk)] else rows
  }

  function MarkFinished(rows: seq<Row>, callId: string, ok: bool, error: string): seq<Row> {
    var i := IndexOf(rows, callId);
    if i < |rows| then
      rows[i := rows[i].(status := StatusOf(ok), error := if error != "" then error else rows[i].error)]
    else rows
  }

  /** The output the store keeps: a failed call's error text is appended and the whole is stripped. */
  function StoredOutput(x: Execution): string {
    if x.error.Some? && x.error.value != "" && !x.ok then Strip(x.output + "\n(error: " + x.error.value + ")")
    else x.output
  }

  function Recorded(rows: seq<Row>, x: Execution): seq<Row> {
    var i := IndexOf(rows, x.callId);
    if i < |rows| then
      rows[i := rows[i].(callId := x.callId, command := x.command, output := StoredOutput(x), status := StatusOf(x.ok))]
    else rows + [Row(x.callId, None, x.command, StatusOf(x.ok), StoredOutput(x), "")]
  }

  function Newest(rows: seq<Row>, max: nat): seq<Row> {
    if |rows| > max then rows[|rows| - max..] else rows
  }

  /** An execution without a call id is not recorded at all. */
  function AppendExecution(rows: seq<Row>, x: Execution, max: nat): seq<Row> {
    if x.callId == "" then rows else Newest(Recorded(rows, x), max)
  }

  class ShellStore {
    var runs: seq<Row>
    var selected: Option<string>

    constructor ()
      ensures runs == [] && selected == None
    {
      runs, selected := [], None;
    }

    /** The scan every operation starts with. */
    method Find(callId: string) returns (i: nat)
      ensures i == IndexOf(runs, callId)
    {
      i := 0;
      while i < |runs| && runs[i].callId != callId
        invariant i <= |runs|
        invariant forall j :: 0 <= j < i ==> runs[j].callId != callId
      {
        i := i + 1;
      }
    }

    method UpsertRunningCall(callId: string, command: string, toolName: string)
      modifies this`runs
      ensures runs == UpsertRunning(old(runs), callId, command, toolName)
    {
      var i := Find(callId);
      if i < |runs| {
        var row := runs[i];
        if row.toolName.None? {
          row := row.(toolName := Some(toolName));
        }
        runs := runs[i := row.(command := command)];
      } else {
        runs := runs + [Row(callId, Some(toolName), command, Running, "", "")];
      }
    }

    method AppendOutputDelta(callId: string, chunk: string)
      modifies this`runs
      ensures runs == AppendDelta(old(runs), callId, chunk)
    {
      var i := Find(callId);
      if i < |runs| {
        runs := runs[i := runs[i].(output := runs[i].output + chunk)];
      }
    }

    method Finish(callId: string, ok: bool, error: string)
      modifies this`runs
      ensures runs == MarkFinished(old(runs), callId, ok, error)
    {
      var i := Find(callId);
      if i < |runs| {
        var row := runs[i].(status := StatusOf(ok));
        if error != "" {
          row := row.(error := error);
        }
        runs := runs[i := row];
      }
    }

    /** Pops from the front until the limit holds. */
    method PopOldest(max: nat)
      modifies this`runs
      ensures runs == Newest(old(runs), max)
    {
      ghost var all, gone := runs, 0;
      while |runs| > max
        invariant |runs| >= max || runs == all
        invariant gone + |runs| == |all| && runs == all[gone..]
      {
        runs, gone := runs[1..], gone + 1;
      }
    }

    /** Replaces or appends the record, then pops the oldest rows beyond the limit and selects the call. */
    method RecordExecution(x: Execution, max: nat)
      modifies this
      ensures runs == AppendExecution(old(runs), x, max)
      ensures selected == if x.callId == "" then old(selected) else Some(x.callId)
    {
      if x.callId == "" {
        return;
      }
      var i := Find(x.callId);
      if i < |runs| {
        runs := runs[i := runs[i].(callId := x.callId, command := x.command, output := StoredOutput(x),
                                   status := StatusOf(x.ok))];
      } else {
        runs := runs + [Row(x.callId, None, x.command, StatusOf(x.ok), StoredOutput(x), "")];
      }
      PopOldest(max);
      selected := Some(x.callId);
    }
  }

  // ---------------------------------------------------------------- laws

  predicate UniqueIds(rows: seq<Row>) {
    forall i, j :: 0 <= i < j < |rows| ==> rows[i].callId != rows[j].callId
  }

  /** No operation ever creates a second row for a call. */
  lemma RowsStayUnique(rows: seq<Row>, callId: string, text: string, toolName: string, ok: bool, x: Execution, max: nat)
    requires UniqueIds(rows)
    ensures UniqueIds(UpsertRunning(rows, callId, text, toolName))
    ensures UniqueIds(AppendDelta(rows, callId, text)) && UniqueIds(MarkFinished(rows, callId, ok, text))
    ensures UniqueIds(AppendExecution(rows, x, max)) && (x.callId != "" ==> |AppendExecution(rows, x, max)| <= max)
  {
    RecordingStaysUnique(rows, x);
    NewestStaysUnique(Recorded(rows, x), max);
  }

  lemma RecordingStaysUnique(rows: seq<Row>, x: Execution)
    requires UniqueIds(rows)
    ensures UniqueIds(Recorded(rows, x))
  {
  }

  lemma NewestStaysUnique(rows: seq<Row>, max: nat)
    requires UniqueIds(rows)
    ensures UniqueIds(Newest(rows, max)) && |Newest(rows, max)| <= max
  {
  }

  /**
   * The store and the timeline keep the same output text for an execution exactly when the call succeeded
   * or reported no error text; otherwise the store's copy carries the error suffix.
   */
  lemma StoredOutputVerbatimIff(x: Execution)
    ensures StoredOutput(x) == x.output <==> x.ok || x.error.None? || x.error.value == ""
  {
    if x.error.Some? && x.error.value != "" && !x.ok {
      var tail := "(error: " + x.error.value + ")";
      var body := x.output + "\n";
      assert x.output + "\n(error: " + x.error.value + ")" == body + tail;
      assert tail[0] == '(' && tail[|tail| - 1] == ')';
      StripLeftAppend(body, tail);
      StripLeftFacts(body);
      var left := StripLeft(body) + tail;
      assert left[|left| - 1] == ')';
      assert StripRight(left) == left;
      assert StoredOutput(x) == left;
      ErrorSuffixNeverVanishes(x.output, tail);
    }
  }

  lemma ErrorSuffixNeverVanishes(out: string, tail: string)
    requires tail != "" && !IsSpace(tail[0])
    ensures StripLeft(out + "\n") + tail != out
  {
    StripLeftFacts(out + "\n");
  }

  /** An execution's row: its command, its stored output and its status; its tool and its error stay as they were. */
  lemma RecordedRow(rows: seq<Row>, x: Execution)
    ensures var after, i := Recorded(rows, x), IndexOf(rows, x.callId);
            && |after| == (if i < |rows| then |rows| else |rows| + 1)
            && after[i].callId == x.callId && after[i].command == x.command && after[i].output == StoredOutput(x)
            && after[i].status == (if x.ok then Succeeded else Failed)
            && (i < |rows| ==> after[i].toolName == rows[i].toolName && after[i].error == rows[i].error)
            && forall j :: 0 <= j < |rows| && j != i ==> after[j] == rows[j]
  {
  }

  /** A failed execution's error text follows its output on a line of its own, without blanks around the whole. */
  lemma StoredOutputMeans(x: Execution)
    ensures x.ok || x.error.None? || x.error.value == "" ==> StoredOutput(x) == x.output
    ensures !x.ok && x.error.Some? && x.error.value != "" ==>
              StoredOutput(x) == StripLeft(x.output + "\n") + "(error: " + x.error.value + ")"
  {
    if !x.ok && x.error.Some? && x.error.value != "" {
      var tail := "(error: " + x.error.value + ")";
      assert x.output + "\n(error: " + x.error.value + ")" == x.output + "\n" + tail;
      assert tail[0] == '(' && tail[|tail| - 1] == ')';
      StripLeftAppend(x.output + "\n", tail);
      var left := StripLeft(x.output + "\n") + tail;
      assert left[|left| - 1] == ')' && StripRight(left) == left;
      assert left == StripLeft(x.output + "\n") + "(error: " + x.error.value + ")";
    }
  }

  /** A started call's row: the new command, the first tool it had; a new row is running, without output. */
  lemma StartedRow(rows: seq<Row>, callId: string, command: string, toolName: string)
    ensures var after, i := UpsertRunning(rows, callId, command, toolName), IndexOf(rows, callId);
            && |after| == (if i < |rows| then |rows| else |rows| + 1) && after[i].callId == callId
            && after[i].command == command && after[i].toolName.Some?
            && (i < |rows| && rows[i].toolName.Some? ==> after[i].toolName == rows[i].toolName)
            && (i == |rows| || rows[i].toolName.None? ==> after[i].toolName == Some(toolName))
            && (i < |rows| ==> after[i].status == rows[i].status && after[i].output == rows[i].output
                               && after[i].error == rows[i].error)
            && (i == |rows| ==> after[i].status == Running && after[i].output == "" && after[i].error == "")
            && forall j :: 0 <= j < |rows| && j != i ==> after[j] == rows[j]
  {
  }

  /** Beyond the limit the last rows stay, in order. */
  lemma NewestMeans(rows: seq<Row>, max: nat)
    ensures |Newest(rows, max)| == Min(|rows|, max)
    ensures rows == rows[..|rows| - |Newest(rows, max)|] + Newest(rows, max)
  {
  }
}
