/**
 * Splitting the trace socket's text into lines: chunks are appended to a buffer, and every complete line is
 * taken out, parsed and broadcast.
 *
 * `parse` stands for trimming the line, parsing it as JSON and keeping only objects.
 */
module TraceFraming {
  import opened Prelude
  import opened Text

  /** The complete lines of a text, without their newlines. */
  function Lines(s: string): seq<string> {
    if s == "" then []
    else
      var front := s[..|s| - 1];
      if s[|s| - 1] == '\n' then Lines(front) + [Rest(front)] else Lines(front)
  }

  /** What follows the last newline. */
  function Rest(s: string): string {
    if s == "" || s[|s| - 1] == '\n' then "" else Rest(s[..|s| - 1]) + [s[|s| - 1]]
  }

  function Parsed<R>(parse: string -> Option<R>, line: string): seq<R> {
    match parse(line)
    case Some(r) => [r]
    case None => []
  }

  function Rows<R>(parse: string -> Option<R>, lines: seq<string>): seq<R> {
    if lines == [] then [] else Rows(parse, lines[..|lines| - 1]) + Parsed(parse, lines[|lines| - 1])
  }

  /** Whether the first newline is at `i`; there is none when `i` is the length. */
  predicate NewlineAt(s: string, i: nat) {
    i <= |s| && '\n' !in s[..i] && (i < |s| ==> s[i] == '\n')
  }

  /** `s.indexOf("\n")` */
  method Newline(s: string) returns (i: nat)
    ensures NewlineAt(s, i)
  {
    i := 0;
    while i < |s| && s[i] != '\n'
      invariant i <= |s| && '\n' !in s[..i]
    {
      i := i + 1;
    }
  }

  method TakeLine<R>(parse: string -> Option<R>, line: string, before: seq<R>) returns (done: seq<R>)
    ensures done == before + Parsed(parse, line)
  {
    match parse(line)
    case Some(row) => done := before + [row];
    case None => done := before;
  }

  /** The loop of the handler: takes out line after line until no newline is left. */
  method TakeLines<R>(parse: string -> Option<R>, all: string) returns (buffer: string, done: seq<R>)
    ensures done == Rows(parse, Lines(all)) && buffer == Rest(all)
  {
    buffer, done := all, [];
    var idx: nat := Newline(buffer);
    while idx < |buffer|
      invariant NewlineAt(buffer, idx)
      invariant done + Rows(parse, Lines(buffer)) == Rows(parse, Lines(all)) && Rest(buffer) == Rest(all)
      decreases |buffer|
    {
      FirstRow(parse, buffer, idx, done);
      done := TakeLine(parse, buffer[..idx], done);
      buffer := buffer[idx + 1..];
      idx := Newline(buffer);
    }
    NoRow(parse, buffer, idx, done);
  }

  class TraceClient<R> {
    var buffer: string
    var broadcast: seq<R>

    constructor ()
      ensures buffer == "" && broadcast == []
    {
      buffer, broadcast := "", [];
    }

    /** The `data` handler. */
    method OnData(parse: string -> Option<R>, chunk: string)
      modifies this
      ensures broadcast == old(broadcast) + Rows(parse, Lines(old(buffer) + chunk))
      ensures buffer == Rest(old(buffer) + chunk)
    {
      var rest, rows := TakeLines(parse, buffer + chunk);
      buffer, broadcast := rest, broadcast + rows;
    }
  }

  lemma Snoc(s: string, c: char)
    ensures Lines(s + [c]) == Lines(s) + if c == '\n' then [Rest(s)] else []
    ensures Rest(s + [c]) == if c == '\n' then "" else Rest(s) + [c]
  {
    assert (s + [c])[..|s + [c]| - 1] == s;
  }

  lemma {:induction false} NoLine(s: string)
    requires '\n' !in s
    ensures Lines(s) == [] && Rest(s) == s
  {
    if s != "" {
      var front := s[..|s| - 1];
      NoLine(front);
      assert s == front + [s[|s| - 1]];
    }
  }

  /** Reading a text in two pieces: the tail of the first joins the second. */
  lemma {:induction false} LinesSplit(s: string, t: string)
    ensures Lines(s + t) == Lines(s) + Lines(Rest(s) + t)
    ensures Rest(s + t) == Rest(Rest(s) + t)
    decreases |t|
  {
    if t == "" {
      assert s + t == s && Rest(s) + t == Rest(s);
      RestHasNoLine(s);
      NoLine(Rest(s));
    } else {
      var front, last := t[..|t| - 1], t[|t| - 1];
      LinesSplit(s, front);
      Snoc(s + front, last);
      Snoc(Rest(s) + front, last);
      Associates(s, t, front, last);
      Associates(Rest(s), t, front, last);
    }
  }

  lemma Associates(s: string, t: string, front: string, last: char)
    requires t != "" && front == t[..|t| - 1] && last == t[|t| - 1]
    ensures s + t == s + front + [last]
  {
  }

  lemma {:induction false} RestHasNoLine(s: string)
    ensures '\n' !in Rest(s)
  {
    if s != "" && s[|s| - 1] != '\n' {
      RestHasNoLine(s[..|s| - 1]);
    }
  }

  /** The first line of a text that has one. */
  lemma FirstLine(line: string, more: string)
    requires '\n' !in line
    ensures Lines(line + ['\n'] + more) == [line] + Lines(more) && Rest(line + ['\n'] + more) == Rest(more)
  {
    NoLine(line);
    Snoc(line, '\n');
    LinesSplit(line + ['\n'], more);
    assert "" + more == more;
  }

  lemma RowsCons<R>(parse: string -> Option<R>, line: string, lines: seq<string>)
    ensures Rows(parse, [line] + lines) == Parsed(parse, line) + Rows(parse, lines)
  {
    RowsAppend(parse, [line], lines);
    assert [line][..0] == [];
  }

  lemma CutAt(s: string, i: nat)
    requires i < |s| && s[i] == '\n'
    ensures s == s[..i] + ['\n'] + s[i + 1..]
  {
  }

  lemma FirstRow<R>(parse: string -> Option<R>, s: string, i: nat, done: seq<R>)
    requires NewlineAt(s, i) && i < |s|
    ensures Rest(s) == Rest(s[i + 1..])
    ensures done + Rows(parse, Lines(s)) == done + Parsed(parse, s[..i]) + Rows(parse, Lines(s[i + 1..]))
  {
    var line, more := s[..i], s[i + 1..];
    CutAt(s, i);
    FirstLine(line, more);
    RowsCons(parse, line, Lines(more));
    Regroup(done, Parsed(parse, line), Rows(parse, Lines(more)));
  }

  lemma NoRow<R>(parse: string -> Option<R>, s: string, i: nat, done: seq<R>)
    requires NewlineAt(s, i) && i == |s|
    ensures Rest(s) == s && done + Rows(parse, Lines(s)) == done
  {
    assert s[..i] == s;
    NoLine(s);
  }

  lemma {:induction false} RowsAppend<R>(parse: string -> Option<R>, xs: seq<string>, ys: seq<string>)
    ensures Rows(parse, xs + ys) == Rows(parse, xs) + Rows(parse, ys)
    decreases |ys|
  {
    if ys == [] {
      assert xs + ys == xs;
    } else {
      RowsAppend(parse, xs, ys[..|ys| - 1]);
      assert (xs + ys)[..|xs + ys| - 1] == xs + ys[..|ys| - 1];
    }
  }

  /** How many of the lines parse. */
  function Good<R>(parse: string -> Option<R>, lines: seq<string>): nat {
    if lines == [] then 0 else Good(parse, lines[..|lines| - 1]) + if parse(lines[|lines| - 1]).Some? then 1 else 0
  }

  /** Each line that parses is broadcast once, after those before it that parse, and nothing else is. */
  lemma {:induction false} BroadcastOnce<R>(parse: string -> Option<R>, lines: seq<string>, k: nat)
    requires k < |lines|
    ensures |Rows(parse, lines)| == Good(parse, lines)
    ensures parse(lines[k]).Some? ==>
              Good(parse, lines[..k]) < Good(parse, lines)
              && Rows(parse, lines)[Good(parse, lines[..k])] == parse(lines[k]).value
    decreases |lines|
  {
    var n := |lines| - 1;
    if k < n {
      BroadcastOnce(parse, lines[..n], k);
      assert lines[..n][..k] == lines[..k];
    } else if n > 0 {
      BroadcastOnce(parse, lines[..n], 0);
    }
  }

  datatype Fed<R> = Fed(rows: seq<R>, buffer: string)

  /** The handler called for each chunk in turn. */
  function Feed<R>(parse: string -> Option<R>, chunks: seq<string>): Fed<R> {
    if chunks == [] then Fed([], "")
    else
      var before := Feed(parse, chunks[..|chunks| - 1]);
      var all := before.buffer + chunks[|chunks| - 1];
      Fed(before.rows + Rows(parse, Lines(all)), Rest(all))
  }

  /**
   * Chunking does not matter: however the text is split, the rows broadcast are those of the whole text, and
   * the buffer holds exactly what follows its last newline.
   */
  lemma {:induction false} ChunkingIndependent<R>(parse: string -> Option<R>, chunks: seq<string>)
    ensures Feed(parse, chunks) == Fed(Rows(parse, Lines(Join(chunks))), Rest(Join(chunks)))
    decreases |chunks|
  {
    if chunks != [] {
      var front, last := chunks[..|chunks| - 1], chunks[|chunks| - 1];
      ChunkingIndependent(parse, front);
      LinesSplit(Join(front), last);
      RowsAppend(parse, Lines(Join(front)), Lines(Rest(Join(front)) + last));
    }
  }

  function Unlines(lines: seq<string>): string {
    if lines == [] then "" else Unlines(lines[..|lines| - 1]) + lines[|lines| - 1] + ['\n']
  }

  lemma UnlinesSnoc(lines: seq<string>, line: string)
    ensures Unlines(lines + [line]) == Unlines(lines) + line + ['\n']
  {
    assert (lines + [line])[..|lines + [line]| - 1] == lines;
  }

  /** The text is its lines, each ended by a newline, and the rest. */
  lemma {:induction false} LinesRestore(s: string)
    ensures s == Unlines(Lines(s)) + Rest(s)
    decreases |s|
  {
    if s != "" {
      var front, last := s[..|s| - 1], s[|s| - 1];
      assert s == front + [last];
      LinesRestore(front);
      Snoc(front, last);
      UnlinesSnoc(Lines(front), Rest(front));
      if last != '\n' {
        Regroup(Unlines(Lines(front)), Rest(front), [last]);
      }
    }
  }

  /** Neither the lines nor the rest hold a newline. */
  lemma {:induction false} LinesHoldNone(s: string)
    ensures '\n' !in Rest(s) && forall k :: 0 <= k < |Lines(s)| ==> '\n' !in Lines(s)[k]
    decreases |s|
  {
    RestHasNoLine(s);
    if s != "" {
      RestHasNoLine(s[..|s| - 1]);
      LinesHoldNone(s[..|s| - 1]);
    }
  }
}
