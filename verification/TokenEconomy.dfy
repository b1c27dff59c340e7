/**
 * Token-economy counters over a session log: accumulating them, merging two accumulations for display, and the
 * efficiency score made of them.
 */
module TokenEconomy {
  import opened Prelude
  import opened Text

  /** The event types that are counted; `Other` is any other row. */
  datatype Kind =
    | PagerPageCreated | PagerPageUsed | OutputBudgetEnforced | OutputPruneApplied | CompactionRestoreFiles
    | ToolExposureApplied | ToolPermModeApplied | ModeEnforced | ModeClassified | ModeUserChoice
    | FsReadFileCompleted | MemoryAccess | MemoryPromotionApplied | MemoryPromotionDenied | SessionDoomLoop
    | AutoWriteSkipped | AutoWriteDone | RetrievalFallback | RetrievalMatch | AutoKbRateLimited
    | Other

  /** The numeric entries that are read. */
  datatype Field =
    | BytesTotal | BytesPreview | TotalBefore | TotalAfter | PrunedToolsCount | PrunedBytesEstimate
    | RestoredFiles | InjectedChars
    | SchemaChars | SchemaSavings

  /**
   * One row: its numeric entries, the two flags of a file read, the tool, kind or level entry its type is broken down
   * by, and its tool mode.
   */
  datatype Row = Row(kind: Kind, numbers: map<Field, int>, rangeRead: bool, unchangedStub: bool, name: string,
                     mode: Option<string>)

  datatype Counter =
    | PageCreated | PageUsed | PagerSavings | BudgetEvents | BudgetSaved | PrunePasses | PruneTools | PruneFreed
    | RestoreFiles | RestoreChars | ExposureApplied | SchemaChars | SchemaSavings
    | FsReads | FsRangeReads | FsDuplicates | AccessTotal | PromotionApplied | PromotionDenied | DoomLoops
    | WritesSkipped | Fallbacks | WritesDone | Matches | RateLimited | Enforced | Classified | Chosen

  datatype Breakdown = AccessByTool | DoneByKind | SkippedByKind | MatchByLevel | LimitedByTool

  datatype Cumulative = Cumulative(counts: map<Counter, int>, split: map<Breakdown, map<string, int>>, lastMode: string)

  const COUNTERS := {
    PageCreated, PageUsed, PagerSavings, BudgetEvents, BudgetSaved, PrunePasses, PruneTools, PruneFreed, RestoreFiles,
    RestoreChars, ExposureApplied, Counter.SchemaChars, Counter.SchemaSavings, FsReads, FsRangeReads, FsDuplicates,
    AccessTotal, PromotionApplied, PromotionDenied, DoomLoops, WritesSkipped, Fallbacks, WritesDone, Matches,
    RateLimited, Enforced, Classified, Chosen }

  const BREAKDOWNS := {AccessByTool, DoneByKind, SkippedByKind, MatchByLevel, LimitedByTool}

  /** The state before any row. */
  const EMPTY := Cumulative(map c | c in COUNTERS :: 0, map s | s in BREAKDOWNS :: map[], "")

  /** No accumulation at all. */
  const ABSENT := Cumulative(map[], map[], "")

  // ---------------------------------------------------------------- what each row is worth

  /** A missing or unreadable number is 0. */
  function Number(row: Row, key: Field): int {
    if key in row.numbers then row.numbers[key] else 0
  }

  /** What a row adds, counter by counter. */
  function Worth(row: Row): map<Counter, int> {
    match row.kind
    case PagerPageCreated =>
      var total, preview := Number(row, BytesTotal), Number(row, BytesPreview);
      map[PageCreated := 1, PagerSavings := if total > 0 && 0 <= preview <= total then total - preview else 0]
    case PagerPageUsed => map[PageUsed := 1]
    case OutputBudgetEnforced =>
      var was, now := Number(row, TotalBefore), Number(row, TotalAfter);
      map[BudgetEvents := 1, BudgetSaved := if 0 <= now <= was then was - now else 0]
    case OutputPruneApplied =>
      map[PrunePasses := 1, PruneTools := Number(row, PrunedToolsCount), PruneFreed := Number(row, PrunedBytesEstimate)]
    case CompactionRestoreFiles =>
      map[RestoreFiles := Number(row, RestoredFiles), RestoreChars := Number(row, InjectedChars)]
    case ToolExposureApplied | ToolPermModeApplied =>
      map[ExposureApplied := 1, Counter.SchemaChars := Number(row, Field.SchemaChars),
          Counter.SchemaSavings := Number(row, Field.SchemaSavings)]
    case FsReadFileCompleted =>
      map[FsReads := 1, FsRangeReads := if row.rangeRead then 1 else 0,
          FsDuplicates := if row.unchangedStub then 1 else 0]
    case MemoryAccess => map[AccessTotal := 1]
    case MemoryPromotionApplied => map[PromotionApplied := 1]
    case MemoryPromotionDenied => map[PromotionDenied := 1]
    case SessionDoomLoop => map[DoomLoops := 1]
    case AutoWriteSkipped => map[WritesSkipped := 1]
    case RetrievalFallback => map[Fallbacks := 1]
    case AutoWriteDone => map[WritesDone := 1]
    case RetrievalMatch => map[Matches := 1]
    case AutoKbRateLimited => map[RateLimited := 1]
    case ModeEnforced => map[Enforced := 1]
    case ModeClassified => map[Classified := 1]
    case ModeUserChoice => map[Chosen := 1]
    case Other => map[]
  }

  function Amount(row: Row, c: Counter): int {
    var worth := Worth(row);
    if c in worth then worth[c] else 0
  }

  /** The counter that a breakdown breaks down. */
  function TotalOf(b: Breakdown): Counter {
    match b
    case AccessByTool => AccessTotal
    case DoneByKind => WritesDone
    case SkippedByKind => WritesSkipped
    case MatchByLevel => Matches
    case LimitedByTool => RateLimited
  }

  /** The breakdown a row belongs to. */
  function BreakdownOf(row: Row): Option<Breakdown> {
    match row.kind
    case MemoryAccess => Some(AccessByTool)
    case AutoWriteDone => Some(DoneByKind)
    case AutoWriteSkipped => Some(SkippedByKind)
    case RetrievalMatch => Some(MatchByLevel)
    case AutoKbRateLimited => Some(LimitedByTool)
    case _ => None
  }

  function NameOf(row: Row): string {
    if row.name == "" then "unknown" else row.name
  }

  /** Whether a row counts under `name` in a breakdown. */
  predicate CountsUnder(row: Row, b: Breakdown, name: string) {
    BreakdownOf(row) == Some(b) && NameOf(row) == name
  }

  function ModeIn(row: Row): Option<string> {
    if row.kind == ModeEnforced && row.mode.Some? && Strip(row.mode.value) != "" then Some(Strip(row.mode.value))
    else None
  }

  // ---------------------------------------------------------------- what a log is worth

  function Sum(rows: seq<Row>, c: Counter): int {
    if rows == [] then 0 else Sum(rows[..|rows| - 1], c) + Amount(rows[|rows| - 1], c)
  }

  function Occurrences(rows: seq<Row>, b: Breakdown, name: string): nat {
    if rows == [] then 0
    else Occurrences(rows[..|rows| - 1], b, name) + if CountsUnder(rows[|rows| - 1], b, name) then 1 else 0
  }

  function LastMode(before: string, rows: seq<Row>): string {
    if rows == [] then before
    else ModeIn(rows[|rows| - 1]).GetOr(LastMode(before, rows[..|rows| - 1]))
  }

  function Count(acc: Cumulative, c: Counter): int {
    if c in acc.counts then acc.counts[c] else 0
  }

  function By(acc: Cumulative, b: Breakdown): map<string, int> {
    if b in acc.split then acc.split[b] else map[]
  }

  function At(m: map<string, int>, name: string): int {
    if name in m then m[name] else 0
  }

  ghost function Total(m: map<string, int>): int {
    if m == map[] then 0
    else
      var k :| k in m;
      m[k] + Total(m - {k})
  }

  /** One breakdown is that of `before` with the rows added; its entries add up to what its counter gained. */
  ghost predicate Breaks(before: Cumulative, rows: seq<Row>, after: Cumulative, b: Breakdown) {
    && (forall n :: At(By(after, b), n) == At(By(before, b), n) + Occurrences(rows, b, n))
    && (forall n :: n in By(after, b) <==> n in By(before, b) || Occurrences(rows, b, n) > 0)
    && Total(By(after, b)) == Total(By(before, b)) + Sum(rows, TotalOf(b))
  }

  /** `after` is `before` with the rows added. */
  ghost predicate Accumulates(before: Cumulative, rows: seq<Row>, after: Cumulative) {
    && (forall c :: Count(after, c) == Count(before, c) + Sum(rows, c))
    && (forall b :: Breaks(before, rows, after, b))
    && after.lastMode == LastMode(before.lastMode, rows)
  }

  // ---------------------------------------------------------------- accumulating

  function Add(acc: Cumulative, c: Counter, n: int): Cumulative
  {
    acc.(counts := acc.counts[c := Count(acc, c) + n])
  }

  /** One more under `name` in a breakdown. */
  function Mark(split: map<Breakdown, map<string, int>>, b: Breakdown, name: string): map<Breakdown, map<string, int>> {
    var was := if b in split then split[b] else map[];
    split[b := was[name := At(was, name) + 1]]
  }

  lemma {:induction false} TotalWithout(m: map<string, int>, k: string)
    requires k in m
    ensures Total(m) == m[k] + Total(m - {k})
    decreases |m|
  {
    var j :| j in m && Total(m) == m[j] + Total(m - {j});
    if j != k {
      TotalWithout(m - {j}, k);
      TotalWithout(m - {k}, j);
      assert m - {j} - {k} == m - {k} - {j};
    }
  }

  lemma TotalUpdate(m: map<string, int>, k: string, n: int)
    ensures Total(m[k := At(m, k) + n]) == Total(m) + n
  {
    var after := m[k := At(m, k) + n];
    TotalWithout(after, k);
    assert after - {k} == m - {k};
    if k in m {
      TotalWithout(m, k);
    } else {
      assert m - {k} == m;
    }
  }

  /** `after` is `before` with one row added. */
  ghost predicate AddsRow(before: Cumulative, row: Row, after: Cumulative) {
    && (forall c :: Count(after, c) == Count(before, c) + Amount(row, c))
    && after.split == (if BreakdownOf(row).Some? then Mark(before.split, BreakdownOf(row).value, NameOf(row))
       else before.split)
    && after.lastMode == ModeIn(row).GetOr(before.lastMode)
  }

  /** Adds a row about the pager. */
  method MergePagerRow(before: Cumulative, row: Row) returns (acc: Cumulative)
    requires row.kind in {PagerPageCreated, PagerPageUsed}
    ensures AddsRow(before, row, acc)
  {
    acc := before;
    match row.kind
    case PagerPageCreated =>
      acc := Add(acc, PageCreated, 1);
      var bt, bp := Number(row, BytesTotal), Number(row, BytesPreview);
      if bt > 0 && bp >= 0 {
        acc := Add(acc, PagerSavings, Max(0, bt - bp));
      }
    case PagerPageUsed => acc := Add(acc, PageUsed, 1);
  }

  /** Adds a row about the tools' output or a compaction. */
  method MergeOutputRow(before: Cumulative, row: Row) returns (acc: Cumulative)
    requires row.kind in {OutputBudgetEnforced, OutputPruneApplied, CompactionRestoreFiles}
    ensures AddsRow(before, row, acc)
  {
    acc := before;
    match row.kind
    case OutputBudgetEnforced =>
      acc := Add(acc, BudgetEvents, 1);
      var t0, t1 := Number(row, TotalBefore), Number(row, TotalAfter);
      if t0 >= 0 && t1 >= 0 && t0 >= t1 {
        acc := Add(acc, BudgetSaved, t0 - t1);
      }
    case OutputPruneApplied =>
      acc := Add(acc, PrunePasses, 1);
      acc := Add(acc, PruneTools, Number(row, PrunedToolsCount));
      acc := Add(acc, PruneFreed, Number(row, PrunedBytesEstimate));
    case CompactionRestoreFiles =>
      acc := Add(acc, RestoreFiles, Number(row, RestoredFiles));
      acc := Add(acc, RestoreChars, Number(row, InjectedChars));
  }

  /** Adds a row about tool exposure. */
  method MergeExposureRow(before: Cumulative, row: Row) returns (acc: Cumulative)
    requires row.kind in {ToolExposureApplied, ToolPermModeApplied}
    ensures AddsRow(before, row, acc)
  {
    var chars, savings := Number(row, Field.SchemaChars), Number(row, Field.SchemaSavings);
    acc := Add(before, ExposureApplied, 1);
    acc := Add(acc, Counter.SchemaChars, chars);
    acc := Add(acc, Counter.SchemaSavings, savings);
    AddThree(before, ExposureApplied, 1, Counter.SchemaChars, chars, Counter.SchemaSavings, savings);
  }

  lemma AddThree(acc: Cumulative, c: Counter, m: int, d: Counter, n: int, e: Counter, k: int)
    requires c != d && d != e && c != e
    ensures var after := Add(Add(Add(acc, c, m), d, n), e, k);
            && after.split == acc.split && after.lastMode == acc.lastMode
            && forall x :: Count(after, x) ==
                 Count(acc, x) + if x == c then m else if x == d then n else if x == e then k else 0
  {
    forall x
      ensures Count(Add(Add(Add(acc, c, m), d, n), e, k), x) ==
              Count(acc, x) + if x == c then m else if x == d then n else if x == e then k else 0
    {
      AddCount(acc, c, m, x);
      AddCount(Add(acc, c, m), d, n, x);
      AddCount(Add(Add(acc, c, m), d, n), e, k, x);
    }
  }

  lemma AddCount(acc: Cumulative, c: Counter, n: int, x: Counter)
    ensures Count(Add(acc, c, n), x) == Count(acc, x) + if x == c then n else 0
  {
  }

  /** Adds a row about tool modes. */
  method MergeModeRow(before: Cumulative, row: Row) returns (acc: Cumulative)
    requires row.kind in {ModeEnforced, ModeClassified, ModeUserChoice}
    ensures AddsRow(before, row, acc)
  {
    match row.kind
    case ModeEnforced =>
      acc := Add(before, Enforced, 1);
      if row.mode.Some? && Strip(row.mode.value) != "" {
        acc := acc.(lastMode := Strip(row.mode.value));
      }
    case ModeClassified => acc := Add(before, Classified, 1);
    case ModeUserChoice => acc := Add(before, Chosen, 1);
  }

  /** Adds a row about a file read. */
  method MergeReadRow(before: Cumulative, row: Row) returns (acc: Cumulative)
    requires row.kind == FsReadFileCompleted
    ensures AddsRow(before, row, acc)
  {
    acc := Add(before, FsReads, 1);
    if row.rangeRead {
      acc := Add(acc, FsRangeReads, 1);
    }
    if row.unchangedStub {
      acc := Add(acc, FsDuplicates, 1);
    }
  }

  /** Adds a row that is also broken down by tool, kind or level. */
  method MergeNamedRow(before: Cumulative, row: Row) returns (acc: Cumulative)
    requires BreakdownOf(row).Some?
    ensures AddsRow(before, row, acc)
  {
    match row.kind
    case MemoryAccess => acc := Add(before, AccessTotal, 1).(split := Mark(before.split, AccessByTool, NameOf(row)));
    case AutoWriteSkipped =>
      acc := Add(before, WritesSkipped, 1).(split := Mark(before.split, SkippedByKind, NameOf(row)));
    case AutoWriteDone => acc := Add(before, WritesDone, 1).(split := Mark(before.split, DoneByKind, NameOf(row)));
    case RetrievalMatch => acc := Add(before, Matches, 1).(split := Mark(before.split, MatchByLevel, NameOf(row)));
    case AutoKbRateLimited =>
      acc := Add(before, RateLimited, 1).(split := Mark(before.split, LimitedByTool, NameOf(row)));
  }

  method MergeRow(before: Cumulative, row: Row) returns (acc: Cumulative)
    ensures AddsRow(before, row, acc)
  {
    acc := before;
    match row.kind
    case PagerPageCreated | PagerPageUsed => acc := MergePagerRow(before, row);
    case OutputBudgetEnforced | OutputPruneApplied | CompactionRestoreFiles => acc := MergeOutputRow(before, row);
    case ToolExposureApplied | ToolPermModeApplied => acc := MergeExposureRow(before, row);
    case ModeEnforced | ModeClassified | ModeUserChoice => acc := MergeModeRow(before, row);
    case FsReadFileCompleted => acc := MergeReadRow(before, row);
    case MemoryAccess | AutoWriteSkipped | AutoWriteDone | RetrievalMatch | AutoKbRateLimited =>
      acc := MergeNamedRow(before, row);
    case MemoryPromotionApplied => acc := Add(acc, PromotionApplied, 1);
    case MemoryPromotionDenied => acc := Add(acc, PromotionDenied, 1);
    case SessionDoomLoop => acc := Add(acc, DoomLoops, 1);
    case RetrievalFallback => acc := Add(acc, Fallbacks, 1);
    case Other =>
  }

  lemma AmountOfTotal(row: Row, b: Breakdown)
    ensures Amount(row, TotalOf(b)) == if BreakdownOf(row) == Some(b) then 1 else 0
  {
  }

  lemma RowInBreakdown(mid: Cumulative, row: Row, after: Cumulative, b: Breakdown)
    requires AddsRow(mid, row, after)
    ensures By(after, b) == if BreakdownOf(row) == Some(b)
                            then By(mid, b)[NameOf(row) := At(By(mid, b), NameOf(row)) + 1] else By(mid, b)
    ensures Total(By(after, b)) == Total(By(mid, b)) + Amount(row, TotalOf(b))
  {
    AmountOfTotal(row, b);
    TotalUpdate(By(mid, b), NameOf(row), 1);
  }

  lemma LogSnoc(rows: seq<Row>, row: Row)
    ensures forall c :: Sum(rows + [row], c) == Sum(rows, c) + Amount(row, c)
    ensures forall b, n ::
              Occurrences(rows + [row], b, n) == Occurrences(rows, b, n) + if CountsUnder(row, b, n) then 1 else 0
    ensures forall m :: LastMode(m, rows + [row]) == ModeIn(row).GetOr(LastMode(m, rows))
  {
    assert (rows + [row])[..|rows + [row]| - 1] == rows;
  }

  lemma BreaksSnoc(before: Cumulative, rows: seq<Row>, mid: Cumulative, row: Row, after: Cumulative, b: Breakdown)
    requires Breaks(before, rows, mid, b) && AddsRow(mid, row, after)
    ensures Breaks(before, rows + [row], after, b)
  {
    LogSnoc(rows, row);
    RowInBreakdown(mid, row, after, b);
    forall n
      ensures At(By(after, b), n) == At(By(mid, b), n) + if CountsUnder(row, b, n) then 1 else 0
      ensures n in By(after, b) <==> n in By(mid, b) || CountsUnder(row, b, n)
    {
      NameInBreakdown(mid, row, after, b, n);
    }
  }

  lemma NameInBreakdown(mid: Cumulative, row: Row, after: Cumulative, b: Breakdown, n: string)
    requires AddsRow(mid, row, after)
    ensures At(By(after, b), n) == At(By(mid, b), n) + if CountsUnder(row, b, n) then 1 else 0
    ensures n in By(after, b) <==> n in By(mid, b) || CountsUnder(row, b, n)
  {
    RowInBreakdown(mid, row, after, b);
  }

  lemma AccumulatesSnoc(before: Cumulative, rows: seq<Row>, mid: Cumulative, row: Row, after: Cumulative)
    requires Accumulates(before, rows, mid) && AddsRow(mid, row, after)
    ensures Accumulates(before, rows + [row], after)
  {
    LogSnoc(rows, row);
    forall b ensures Breaks(before, rows + [row], after, b) {
      BreaksSnoc(before, rows, mid, row, after, b);
    }
  }

  method MergeEventsIntoCumulative(before: Cumulative, rows: seq<Row>) returns (acc: Cumulative)
    ensures Accumulates(before, rows, acc)
  {
    acc := before;
    for i := 0 to |rows|
      invariant Accumulates(before, rows[..i], acc)
    {
      var mid := acc;
      acc := MergeRow(mid, rows[i]);
      assert rows[..i + 1] == rows[..i] + [rows[i]];
      AccumulatesSnoc(before, rows[..i], mid, rows[i], acc);
    }
    assert rows[..|rows|] == rows;
  }

  // ---------------------------------------------------------------- what one more row changes

  /** The row's entry under `key` is `n`; a missing one is 0. */
  predicate Has(row: Row, key: Field, n: int) {
    if key in row.numbers then row.numbers[key] == n else n == 0
  }

  /** What a counter gained between two accumulations. */
  function Gain(before: Cumulative, after: Cumulative, c: Counter): int {
    Count(after, c) - Count(before, c)
  }

  lemma OneRow(before: Cumulative, row: Row, after: Cumulative)
    requires Accumulates(before, [row], after)
    ensures forall b :: Breaks(before, [row], after, b)
    ensures after.lastMode == ModeIn(row).GetOr(before.lastMode)
    ensures forall b, n :: Occurrences([row], b, n) == if CountsUnder(row, b, n) then 1 else 0
  {
    LogSnoc([], row);
    assert [] + [row] == [row];
  }

  /** A log of one row gives each counter the row's amount for it. */
  lemma RowGain(before: Cumulative, row: Row, after: Cumulative, c: Counter)
    requires Accumulates(before, [row], after)
    ensures Gain(before, after, c) == Amount(row, c)
  {
    LogSnoc([], row);
    assert [] + [row] == [row];
    assert Sum([], c) == 0;
  }

  /** The pager saves what a page leaves out of its output, when the sizes make sense. */
  lemma PagerAmounts(row: Row, total: int, preview: int)
    requires Has(row, BytesTotal, total) && Has(row, BytesPreview, preview)
    ensures Amount(row, PageCreated) == if row.kind == PagerPageCreated then 1 else 0
    ensures Amount(row, PageUsed) == if row.kind == PagerPageUsed then 1 else 0
    ensures Amount(row, PagerSavings) ==
            if row.kind == PagerPageCreated && total > 0 && 0 <= preview <= total then total - preview else 0
  {
  }

  /** The budget saves what it cuts off; a row whose total grew counts without saving. */
  lemma BudgetAmounts(row: Row, was: int, now: int)
    requires Has(row, TotalBefore, was) && Has(row, TotalAfter, now)
    ensures Amount(row, BudgetEvents) == if row.kind == OutputBudgetEnforced then 1 else 0
    ensures Amount(row, BudgetSaved) ==
            if row.kind == OutputBudgetEnforced && 0 <= now <= was then was - now else 0
  {
  }

  lemma PruneAmounts(row: Row, tools: int, bytes: int)
    requires Has(row, PrunedToolsCount, tools) && Has(row, PrunedBytesEstimate, bytes)
    ensures var prunes := row.kind == OutputPruneApplied;
            && Amount(row, PrunePasses) == (if prunes then 1 else 0)
            && Amount(row, PruneTools) == (if prunes then tools else 0)
            && Amount(row, PruneFreed) == (if prunes then bytes else 0)
  {
  }

  lemma CompactionAmounts(row: Row, files: int, chars: int)
    requires Has(row, RestoredFiles, files) && Has(row, InjectedChars, chars)
    ensures var restores := row.kind == CompactionRestoreFiles;
            && Amount(row, RestoreFiles) == (if restores then files else 0)
            && Amount(row, RestoreChars) == (if restores then chars else 0)
  {
  }

  /** Both ways of exposing tools count alike. */
  lemma ExposureAmounts(row: Row, chars: int, savings: int)
    requires Has(row, Field.SchemaChars, chars) && Has(row, Field.SchemaSavings, savings)
    ensures var exposes := row.kind == ToolExposureApplied || row.kind == ToolPermModeApplied;
            && Amount(row, ExposureApplied) == (if exposes then 1 else 0)
            && Amount(row, Counter.SchemaChars) == (if exposes then chars else 0)
            && Amount(row, Counter.SchemaSavings) == (if exposes then savings else 0)
  {
  }

  lemma ReadAmounts(row: Row)
    ensures var read := row.kind == FsReadFileCompleted;
            && Amount(row, FsReads) == (if read then 1 else 0)
            && Amount(row, FsRangeReads) == (if read && row.rangeRead then 1 else 0)
            && Amount(row, FsDuplicates) == (if read && row.unchangedStub then 1 else 0)
  {
  }

  /** The counter that counts the rows of a kind and nothing else. */
  function Tally(kind: Kind): Option<Counter> {
    match kind
    case MemoryAccess => Some(AccessTotal)
    case MemoryPromotionApplied => Some(PromotionApplied)
    case MemoryPromotionDenied => Some(PromotionDenied)
    case SessionDoomLoop => Some(DoomLoops)
    case AutoWriteSkipped => Some(WritesSkipped)
    case RetrievalFallback => Some(Fallbacks)
    case AutoWriteDone => Some(WritesDone)
    case RetrievalMatch => Some(Matches)
    case AutoKbRateLimited => Some(RateLimited)
    case ModeEnforced => Some(Enforced)
    case ModeClassified => Some(Classified)
    case ModeUserChoice => Some(Chosen)
    case _ => None
  }

  const TALLIES := {
    AccessTotal, PromotionApplied, PromotionDenied, DoomLoops, WritesSkipped, Fallbacks, WritesDone, Matches,
    RateLimited, Enforced, Classified, Chosen }

  /** A counter of rows gets one from each row of its kind, and nothing from any other. */
  lemma TallyAmount(row: Row, c: Counter)
    requires Tally(row.kind) == Some(c)
    ensures Amount(row, c) == 1
  {
  }

  lemma OtherTallyAmount(row: Row, c: Counter)
    requires Tally(row.kind).Some? && Tally(row.kind) != Some(c)
    ensures Amount(row, c) == 0
  {
  }

  lemma NoTallyAmount(row: Row, c: Counter)
    requires Tally(row.kind).None? && c in TALLIES
    ensures Amount(row, c) == 0
  {
  }

  /** The last mode is the last one enforced that is not blank. */
  lemma ModeMeans(before: Cumulative, row: Row, after: Cumulative)
    requires Accumulates(before, [row], after)
    ensures after.lastMode ==
            if row.kind == ModeEnforced && row.mode.Some? && Strip(row.mode.value) != "" then Strip(row.mode.value)
            else before.lastMode
  {
    OneRow(before, row, after);
  }

  /** The kind of rows that a breakdown lists. */
  function Lists(b: Breakdown): Kind {
    match b
    case AccessByTool => MemoryAccess
    case DoneByKind => AutoWriteDone
    case SkippedByKind => AutoWriteSkipped
    case MatchByLevel => RetrievalMatch
    case LimitedByTool => AutoKbRateLimited
  }

  /** A breakdown counts the rows of its kind by their name, `unknown` when they have none. */
  lemma BreakdownGains(before: Cumulative, row: Row, after: Cumulative, b: Breakdown, n: string)
    requires Accumulates(before, [row], after)
    ensures At(By(after, b), n) - At(By(before, b), n) ==
            if row.kind == Lists(b) && n == (if row.name == "" then "unknown" else row.name) then 1 else 0
  {
    OneRow(before, row, after);
    assert Breaks(before, [row], after, b);
  }

  // ---------------------------------------------------------------- order and grouping of the log

  lemma {:induction false} LogConcat(a: seq<Row>, b: seq<Row>)
    ensures forall c :: Sum(a + b, c) == Sum(a, c) + Sum(b, c)
    ensures forall s, n :: Occurrences(a + b, s, n) == Occurrences(a, s, n) + Occurrences(b, s, n)
    ensures forall m :: LastMode(m, a + b) == LastMode(LastMode(m, a), b)
    decreases |b|
  {
    if b == [] {
      assert a + b == a;
    } else {
      var front, last := b[..|b| - 1], b[|b| - 1];
      LogConcat(a, front);
      LogSnoc(a + front, last);
      assert a + b == a + front + [last];
    }
  }

  /** Accumulating a log in two parts is accumulating it at once. */
  lemma AccumulatesConcat(before: Cumulative, a: seq<Row>, mid: Cumulative, b: seq<Row>, after: Cumulative)
    requires Accumulates(before, a, mid) && Accumulates(mid, b, after)
    ensures Accumulates(before, a + b, after)
  {
    LogConcat(a, b);
    forall s ensures Breaks(before, a + b, after, s) {
      assert Breaks(before, a, mid, s) && Breaks(mid, b, after, s);
    }
  }

  lemma SameRest<T>(front: seq<T>, left: seq<T>, right: seq<T>, x: T)
    requires multiset(front + [x]) == multiset(left + [x] + right)
    ensures multiset(front) == multiset(left + right)
  {
    assert multiset(front) == multiset(front + [x]) - multiset{x};
    assert multiset(left + right) == multiset(left + [x] + right) - multiset{x};
  }

  lemma {:induction false} LogPermuted(a: seq<Row>, b: seq<Row>)
    requires multiset(a) == multiset(b)
    ensures forall c :: Sum(a, c) == Sum(b, c)
    ensures forall s, n :: Occurrences(a, s, n) == Occurrences(b, s, n)
    decreases |a|
  {
    if a != [] {
      var front, last := a[..|a| - 1], a[|a| - 1];
      assert a == front + [last];
      assert last in multiset(b);
      var i :| 0 <= i < |b| && b[i] == last;
      var left, right := b[..i], b[i + 1..];
      assert b == left + [last] + right;
      SameRest(front, left, right, last);
      LogPermuted(front, left + right);
      LogConcat(left + [last], right);
      LogConcat(left, right);
      LogSnoc(left, last);
    } else {
      assert |multiset(b)| == 0;
    }
  }

  /** All counters and breakdowns are independent of the order of the rows. */
  lemma OrderIrrelevant(before: Cumulative, a: seq<Row>, b: seq<Row>, afterA: Cumulative, afterB: Cumulative)
    requires Accumulates(before, a, afterA) && Accumulates(before, b, afterB) && multiset(a) == multiset(b)
    ensures forall c :: Count(afterA, c) == Count(afterB, c)
    ensures forall s :: By(afterA, s) == By(afterB, s)
  {
    LogPermuted(a, b);
    forall s ensures By(afterA, s) == By(afterB, s) {
      assert Breaks(before, a, afterA, s) && Breaks(before, b, afterB, s);
      SameMaps(By(afterA, s), By(afterB, s));
    }
  }

  lemma SameMaps(m: map<string, int>, n: map<string, int>)
    requires forall k :: k in m <==> k in n
    requires forall k :: At(m, k) == At(n, k)
    ensures m == n
  {
    forall k | k in m ensures m[k] == n[k] {
      assert At(m, k) == At(n, k);
    }
  }

  ghost predicate OneMode(rows: seq<Row>) {
    forall r, s :: r in rows && s in rows && ModeIn(r).Some? && ModeIn(s).Some? ==> ModeIn(r) == ModeIn(s)
  }

  /** The last tool mode alone depends on the order: it is fixed under reordering exactly when all modes agree. */
  lemma LastModeOrderFreeIff(before: string, rows: seq<Row>)
    ensures (forall other :: multiset(other) == multiset(rows) ==> LastMode(before, other) == LastMode(before, rows))
            <==> OneMode(rows)
  {
    if OneMode(rows) {
      forall other | multiset(other) == multiset(rows) ensures LastMode(before, other) == LastMode(before, rows) {
        OneModeIsLast(before, rows, other);
      }
    } else {
      var r, s :| r in rows && s in rows && ModeIn(r).Some? && ModeIn(s).Some? && ModeIn(r) != ModeIn(s);
      var rLast := MoveLast(before, rows, r);
      var sLast := MoveLast(before, rows, s);
      assert LastMode(before, rLast) != LastMode(before, sLast);
    }
  }

  lemma OneModeIsLast(before: string, rows: seq<Row>, other: seq<Row>)
    requires OneMode(rows) && multiset(other) == multiset(rows)
    ensures LastMode(before, other) == LastMode(before, rows)
  {
    forall r ensures r in other <==> r in rows {
      assert r in multiset(other) <==> r in multiset(rows);
    }
    LastModeIsOne(before, rows);
    LastModeIsOne(before, other);
  }

  lemma {:induction false} LastModeIsOne(before: string, rows: seq<Row>)
    ensures if exists r :: r in rows && ModeIn(r).Some?
            then exists r :: r in rows && ModeIn(r) == Some(LastMode(before, rows))
            else LastMode(before, rows) == before
  {
    if rows != [] {
      var front, last := rows[..|rows| - 1], rows[|rows| - 1];
      LastModeIsOne(before, front);
      assert rows == front + [last];
      assert forall r :: r in front ==> r in rows;
      if ModeIn(last).Some? {
        assert last in rows && ModeIn(last) == Some(LastMode(before, rows));
      }
    }
  }

  lemma MoveLast(before: string, rows: seq<Row>, r: Row) returns (moved: seq<Row>)
    requires r in rows && ModeIn(r).Some?
    ensures multiset(moved) == multiset(rows) && LastMode(before, moved) == ModeIn(r).value
  {
    var i :| 0 <= i < |rows| && rows[i] == r;
    moved := rows[..i] + rows[i + 1..] + [r];
    assert rows == rows[..i] + [r] + rows[i + 1..];
    LogSnoc(rows[..i] + rows[i + 1..], r);
  }

  // ---------------------------------------------------------------- merging two accumulations for display

  ghost predicate Sensible(acc: Cumulative) {
    && 0 <= Count(acc, FsRangeReads) <= Count(acc, FsReads) && 0 <= Count(acc, FsDuplicates) <= Count(acc, FsReads)
    && 0 <= Count(acc, PromotionApplied) && 0 <= Count(acc, PromotionDenied) && 0 <= Count(acc, AccessTotal)
  }

  lemma {:induction false} SumNonNegative(rows: seq<Row>, c: Counter)
    requires forall r :: r in rows ==> 0 <= Amount(r, c)
    ensures 0 <= Sum(rows, c)
  {
    if rows != [] {
      SumNonNegative(rows[..|rows| - 1], c);
    }
  }

  lemma {:induction false} SumAtMost(rows: seq<Row>, c: Counter, d: Counter)
    requires forall r :: r in rows ==> Amount(r, c) <= Amount(r, d)
    ensures Sum(rows, c) <= Sum(rows, d)
  {
    if rows != [] {
      SumAtMost(rows[..|rows| - 1], c, d);
    }
  }

  lemma SensibleReads(row: Row)
    ensures 0 <= Amount(row, FsRangeReads) <= Amount(row, FsReads)
            && 0 <= Amount(row, FsDuplicates) <= Amount(row, FsReads)
  {
  }

  lemma SensibleCounts(row: Row)
    ensures 0 <= Amount(row, PromotionApplied) && 0 <= Amount(row, PromotionDenied) && 0 <= Amount(row, AccessTotal)
  {
  }

  lemma SumsAreSensible(rows: seq<Row>)
    ensures 0 <= Sum(rows, FsRangeReads) <= Sum(rows, FsReads) && 0 <= Sum(rows, FsDuplicates) <= Sum(rows, FsReads)
    ensures 0 <= Sum(rows, PromotionApplied) && 0 <= Sum(rows, PromotionDenied) && 0 <= Sum(rows, AccessTotal)
  {
    forall r | r in rows
      ensures 0 <= Amount(r, FsRangeReads) <= Amount(r, FsReads) && 0 <= Amount(r, FsDuplicates) <= Amount(r, FsReads)
    {
      SensibleReads(r);
    }
    forall r | r in rows
      ensures 0 <= Amount(r, PromotionApplied) && 0 <= Amount(r, PromotionDenied) && 0 <= Amount(r, AccessTotal)
    {
      SensibleCounts(r);
    }
    SumAtMost(rows, FsRangeReads, FsReads);
    SumAtMost(rows, FsDuplicates, FsReads);
    SumNonNegative(rows, FsRangeReads);
    SumNonNegative(rows, FsDuplicates);
    SumNonNegative(rows, PromotionApplied);
    SumNonNegative(rows, PromotionDenied);
    SumNonNegative(rows, AccessTotal);
  }

  /** Accumulating keeps range reads and repeated reads within the reads. */
  lemma AccumulatingStaysSensible(before: Cumulative, rows: seq<Row>, after: Cumulative)
    requires Sensible(before) && Accumulates(before, rows, after)
    ensures Sensible(after)
  {
    SumsAreSensible(rows);
  }

  /** Accumulating keeps every breakdown adding up to its counter. */
  lemma BreakdownsAddUp(before: Cumulative, rows: seq<Row>, after: Cumulative, b: Breakdown)
    requires Total(By(before, b)) == Count(before, TotalOf(b)) && Accumulates(before, rows, after)
    ensures Total(By(after, b)) == Count(after, TotalOf(b))
  {
    assert Breaks(before, rows, after, b);
  }

  function MaxEach(a: map<string, int>, b: map<string, int>): map<string, int> {
    map k | k in a.Keys + b.Keys :: Max(At(a, k), At(b, k))
  }

  /**
   * What the display shows for a live and a filed accumulation: the larger of each counter that both have and of each
   * tool's accesses; for the other breakdowns and the mode the live one wins.
   */
  function MergeForDisplay(live: Option<Cumulative>, file: Option<Cumulative>): Cumulative {
    var a, b := file.GetOr(ABSENT), live.GetOr(ABSENT);
    Cumulative(map c | c in a.counts.Keys + b.counts.Keys ::
                 if c in a.counts && c in b.counts then Max(a.counts[c], b.counts[c])
                 else if c in b.counts then b.counts[c] else a.counts[c],
               map s | s in a.split.Keys + b.split.Keys ::
                 if s == AccessByTool then MaxEach(By(a, s), By(b, s))
                 else if s in b.split then b.split[s] else a.split[s],
               if live.Some? then b.lastMode else a.lastMode)
  }

  /** An accumulation that is not there has no counters. */
  function Counts(acc: Option<Cumulative>): map<Counter, int> {
    if acc.Some? then acc.value.counts else map[]
  }

  function Splits(acc: Option<Cumulative>): map<Breakdown, map<string, int>> {
    if acc.Some? then acc.value.split else map[]
  }

  /** The number that is shown of a live and a filed one is one of them, and no other is larger. */
  ghost predicate Larger(m: map<Counter, int>, n: map<Counter, int>, c: Counter, shown: int) {
    && ((c in m && shown == m[c]) || (c in n && shown == n[c]))
    && (c in m ==> m[c] <= shown) && (c in n ==> n[c] <= shown)
  }

  /** Every counter that either has is shown, with the larger of its numbers; the live mode wins. */
  lemma DisplayedCounter(live: Option<Cumulative>, file: Option<Cumulative>, c: Counter)
    ensures var shown := MergeForDisplay(live, file);
            && (c in shown.counts <==> c in Counts(live) || c in Counts(file))
            && (c in shown.counts ==> Larger(Counts(live), Counts(file), c, shown.counts[c]))
            && (live.Some? ==> shown.lastMode == live.value.lastMode)
            && (live.None? && file.Some? ==> shown.lastMode == file.value.lastMode)
  {
  }

  /** A breakdown is shown when either has it; but for the accesses by tool it is the live one where there is one. */
  lemma DisplayedBreakdown(live: Option<Cumulative>, file: Option<Cumulative>, b: Breakdown)
    ensures var shown := MergeForDisplay(live, file).split;
            && (b in shown <==> b in Splits(live) || b in Splits(file))
            && (b != AccessByTool && b in Splits(live) ==> shown[b] == Splits(live)[b])
            && (b != AccessByTool && b !in Splits(live) && b in Splits(file) ==> shown[b] == Splits(file)[b])
  {
  }

  /** Of the accesses by tool the larger number is shown. */
  lemma DisplayedAccesses(live: Cumulative, file: Cumulative, tool: string)
    ensures var shown, a, b := By(MergeForDisplay(Some(live), Some(file)), AccessByTool), By(live, AccessByTool),
                               By(file, AccessByTool);
            && (tool in shown <==> tool in a || tool in b)
            && (tool in shown ==> shown[tool] == Max(At(a, tool), At(b, tool)))
  {
  }

  /** The display keeps range reads and repeated reads within the reads. */
  lemma DisplayStaysSensible(live: Option<Cumulative>, file: Option<Cumulative>)
    requires (live.Some? ==> Sensible(live.value)) && (file.Some? ==> Sensible(file.value))
    ensures Sensible(MergeForDisplay(live, file))
  {
  }

  ghost predicate Dominates(a: map<string, int>, b: map<string, int>) {
    forall k :: k in b ==> b[k] <= At(a, k)
  }

  lemma {:induction false} MaxEachTotal(a: map<string, int>, b: map<string, int>)
    requires forall k :: k in a ==> a[k] >= 0
    requires forall k :: k in b ==> b[k] >= 0
    ensures Total(MaxEach(a, b)) >= Total(a) && (Total(MaxEach(a, b)) == Total(a) <==> Dominates(a, b))
    decreases |a| + |b|
  {
    if b == map[] {
      assert MaxEach(a, b) == a;
    } else {
      var k :| k in b;
      var a', b' := a - {k}, b - {k};
      MaxEachTotal(a', b');
      MaxEachSplit(a, b, k);
      TotalSplit(MaxEach(a, b), k);
      TotalSplit(a, k);
    }
  }

  lemma MaxEachSplit(a: map<string, int>, b: map<string, int>, k: string)
    requires k in b
    ensures MaxEach(a, b) - {k} == MaxEach(a - {k}, b - {k}) && At(MaxEach(a, b), k) == Max(At(a, k), b[k])
    ensures Dominates(a, b) <==> Dominates(a - {k}, b - {k}) && b[k] <= At(a, k)
  {
    assert forall j :: j != k ==> At(a - {k}, j) == At(a, j) && At(b - {k}, j) == At(b, j);
  }

  lemma TotalSplit(m: map<string, int>, k: string)
    ensures Total(m) == At(m, k) + Total(m - {k})
  {
    if k in m {
      TotalWithout(m, k);
    } else {
      assert m - {k} == m;
    }
  }

  lemma MaxEachCommutes(a: map<string, int>, b: map<string, int>)
    ensures MaxEach(a, b) == MaxEach(b, a)
  {
  }

  /**
   * After merging two accumulations whose accesses by tool add up, they still add up exactly when one of the two has
   * at least as many accesses for every tool; otherwise the parts exceed the total.
   */
  lemma DisplayedAccessesAddUpIff(live: Cumulative, file: Cumulative)
    requires forall acc :: acc in {live, file} ==>
      AccessTotal in acc.counts && AccessByTool in acc.split && Total(By(acc, AccessByTool)) == Count(acc, AccessTotal)
      && forall k :: k in By(acc, AccessByTool) ==> By(acc, AccessByTool)[k] >= 0
    ensures var shown := MergeForDisplay(Some(live), Some(file));
            var a, b := By(live, AccessByTool), By(file, AccessByTool);
            && Total(By(shown, AccessByTool)) >= Count(shown, AccessTotal)
            && (Total(By(shown, AccessByTool)) == Count(shown, AccessTotal) <==> Dominates(a, b) || Dominates(b, a))
  {
    var a, b := By(live, AccessByTool), By(file, AccessByTool);
    assert live in {live, file} && file in {live, file};
    MaxEachTotal(a, b);
    MaxEachTotal(b, a);
    MaxEachCommutes(a, b);
  }

  /**
   * The display takes the other breakdowns from the live accumulation and the larger of the two counters, so they add
   * up exactly when the live counter is at least the filed one; otherwise they fall short.
   */
  lemma DisplayedBreakdownsAddUpIff(live: Cumulative, file: Cumulative, b: Breakdown)
    requires b != AccessByTool
    requires forall acc :: acc in {live, file} ==>
      TotalOf(b) in acc.counts && b in acc.split && Total(By(acc, b)) == Count(acc, TotalOf(b))
    ensures var shown := MergeForDisplay(Some(live), Some(file));
            && Total(By(shown, b)) <= Count(shown, TotalOf(b))
            && (Total(By(shown, b)) == Count(shown, TotalOf(b)) <==> Count(file, TotalOf(b)) <= Count(live, TotalOf(b)))
  {
    assert live in {live, file} && file in {live, file};
    assert By(MergeForDisplay(Some(live), Some(file)), b) == By(live, b);
  }

  // ---------------------------------------------------------------- the efficiency score

  datatype Resume = Resume(ready: bool, accesses: int)

  function RealMin(a: real, b: real): real {
    if a < b then a else b
  }

  /** The score before it is rounded and clamped. */
  function RawScore(acc: Cumulative, r: Resume): real {
    var fsReads, accesses := Count(acc, FsReads), Max(Count(acc, AccessTotal), r.accesses);
    var applied, decided := Count(acc, PromotionApplied), Count(acc, PromotionApplied) + Count(acc, PromotionDenied);
    var pages, exposures := Count(acc, PageUsed) + Count(acc, PageCreated), Count(acc, ExposureApplied);
    (if fsReads > 0 then 28.0 * (Count(acc, FsRangeReads) as real / fsReads as real) else 14.0)
    + RealMin(22.0, accesses as real * 2.75)
    + (if decided > 0 then 20.0 * (applied as real / decided as real) else 8.0)
    + (if r.ready then 12.0 else 2.0) + RealMin(8.0, Count(acc, RestoreFiles) as real * 2.0)
    + RealMin(5.0, pages as real * 0.5)
    + RealMin(5.0, exposures as real * 0.4 + RealMin(3.0, Count(acc, Counter.SchemaSavings) as real / 200000.0 * 3.0))
  }

  lemma ShareAtMostOne(part: int, whole: int)
    requires part <= whole && whole > 0
    ensures part as real / whole as real <= 1.0
  {
  }

  /** Before anything happened the score is 24: the three shares count as middling and nothing is ready. */
  lemma StartingScore()
    ensures RawScore(EMPTY, Resume(false, 0)) == 24.0
  {
  }

  /** Whatever is displayed, the raw score stays within 100: the upper clamp never acts. */
  lemma ScoreAtMostHundred(acc: Cumulative, r: Resume)
    requires Sensible(acc)
    ensures RawScore(acc, r) <= 100.0
  {
    var fsReads, applied := Count(acc, FsReads), Count(acc, PromotionApplied);
    if fsReads > 0 {
      ShareAtMostOne(Count(acc, FsRangeReads), fsReads);
    }
    if applied + Count(acc, PromotionDenied) > 0 {
      ShareAtMostOne(applied, applied + Count(acc, PromotionDenied));
    }
  }

  /** The bound for everything a log can lead to: any two logs, accumulated, merged for display and scored. */
  lemma DisplayedScoreAtMostHundred(liveRows: seq<Row>, fileRows: seq<Row>, live: Cumulative, file: Cumulative,
                                    r: Resume)
    requires Accumulates(EMPTY, liveRows, live) && Accumulates(EMPTY, fileRows, file)
    ensures RawScore(MergeForDisplay(Some(live), Some(file)), r) <= 100.0
  {
    EmptyIsSensible();
    AccumulatingStaysSensible(EMPTY, liveRows, live);
    AccumulatingStaysSensible(EMPTY, fileRows, file);
    DisplayStaysSensible(Some(live), Some(file));
    ScoreAtMostHundred(MergeForDisplay(Some(live), Some(file)), r);
  }

  lemma EmptyIsSensible()
    ensures Sensible(EMPTY)
  {
  }

  /** An accumulation of the rows. */
  ghost function After(before: Cumulative, rows: seq<Row>): Cumulative {
    if rows == [] then before
    else
      var mid, row := After(before, rows[..|rows| - 1]), rows[|rows| - 1];
      Cumulative(map c | c in mid.counts.Keys + Worth(row).Keys :: Count(mid, c) + Amount(row, c),
                 if BreakdownOf(row).Some? then Mark(mid.split, BreakdownOf(row).value, NameOf(row)) else mid.split,
                 ModeIn(row).GetOr(mid.lastMode))
  }

  lemma {:induction false} AfterAccumulates(before: Cumulative, rows: seq<Row>)
    ensures Accumulates(before, rows, After(before, rows))
    decreases |rows|
  {
    if rows != [] {
      var front, row := rows[..|rows| - 1], rows[|rows| - 1];
      AfterAccumulates(before, front);
      assert rows == front + [row];
      AccumulatesSnoc(before, front, After(before, front), row, After(before, rows));
    }
  }

  function Repeat(row: Row, n: nat): seq<Row> {
    if n == 0 then [] else Repeat(row, n - 1) + [row]
  }

  lemma OneMore(n: nat, a: int)
    ensures n * a + a == (n + 1) * a
  {
  }

  lemma SumSnoc(rows: seq<Row>, row: Row, c: Counter)
    ensures Sum(rows + [row], c) == Sum(rows, c) + Amount(row, c)
  {
    LogSnoc(rows, row);
  }

  lemma {:induction false} SumRepeat(row: Row, n: nat, c: Counter, a: int)
    requires a == Amount(row, c)
    ensures Sum(Repeat(row, n), c) == n * a
  {
    if n > 0 {
      SumRepeat(row, n - 1, c, a);
      SumSnoc(Repeat(row, n - 1), row, c);
      OneMore(n - 1, a);
    }
  }

  const READ := Row(FsReadFileCompleted, map[], true, false, "", None)
  const PROMOTED := Row(MemoryPromotionApplied, map[], false, false, "", None)
  const RESTORED := Row(CompactionRestoreFiles, map[RestoredFiles := 4], false, false, "", None)
  const PAGED := Row(PagerPageUsed, map[], false, false, "", None)
  const EXPOSED := Row(ToolExposureApplied, map[], false, false, "", None)

  /** One range read, one promotion, one restore of four files, ten page uses and thirteen exposures. */
  const BEST_LOG := [READ] + [PROMOTED] + [RESTORED] + Repeat(PAGED, 10) + Repeat(EXPOSED, 13)

  lemma BestLogSum(c: Counter)
    ensures Sum(BEST_LOG, c) ==
            Amount(READ, c) + Amount(PROMOTED, c) + Amount(RESTORED, c)
            + 10 * Amount(PAGED, c) + 13 * Amount(EXPOSED, c)
  {
    LogConcat([READ] + [PROMOTED] + [RESTORED] + Repeat(PAGED, 10), Repeat(EXPOSED, 13));
    LogConcat([READ] + [PROMOTED] + [RESTORED], Repeat(PAGED, 10));
    SumRepeat(PAGED, 10, c, Amount(PAGED, c));
    SumRepeat(EXPOSED, 13, c, Amount(EXPOSED, c));
    LogSnoc([], READ);
    LogSnoc([READ], PROMOTED);
    LogSnoc([READ] + [PROMOTED], RESTORED);
    assert [] + [READ] == [READ];
  }

  /** The bound is reached: by a log, accumulated from nothing, merged with itself for display and scored. */
  lemma HundredIsReached() returns (rows: seq<Row>, acc: Cumulative, r: Resume)
    ensures Accumulates(EMPTY, rows, acc) && RawScore(MergeForDisplay(Some(acc), Some(acc)), r) == 100.0
  {
    rows, r := BEST_LOG, Resume(true, 8);
    acc := After(EMPTY, rows);
    AfterAccumulates(EMPTY, rows);
    var shown := MergeForDisplay(Some(acc), Some(acc));
    forall c
      ensures Count(shown, c) == Amount(READ, c) + Amount(PROMOTED, c) + Amount(RESTORED, c)
                                 + 10 * Amount(PAGED, c) + 13 * Amount(EXPOSED, c)
    {
      BestLogSum(c);
      assert Count(acc, c) == Count(EMPTY, c) + Sum(rows, c);
    }
    BestCounters(shown, r);
  }

  lemma BestCounters(shown: Cumulative, r: Resume)
    requires r == Resume(true, 8)
    requires forall c :: Count(shown, c) == Amount(READ, c) + Amount(PROMOTED, c) + Amount(RESTORED, c)
                                            + 10 * Amount(PAGED, c) + 13 * Amount(EXPOSED, c)
    ensures RawScore(shown, r) == 100.0
  {
    assert Count(shown, FsReads) == 1 && Count(shown, FsRangeReads) == 1;
    assert Count(shown, AccessTotal) == 0 && Count(shown, PromotionApplied) == 1 && Count(shown, PromotionDenied) == 0;
    assert Count(shown, RestoreFiles) == 4 && Count(shown, PageUsed) == 10 && Count(shown, PageCreated) == 0;
    assert Count(shown, ExposureApplied) == 13 && Count(shown, Counter.SchemaSavings) == 0;
  }

  // ---------------------------------------------------------------- pseudo tokens

  const BYTES_PER_TOKEN := 4

  /**
   * The sum of the three layers' rounded token counts never exceeds the rounded count of their sum, and falls short
   * of it by at most 2; by exactly how much is decided by the three remainders.
   */
  lemma LayersUndershoot(acc: Cumulative)
    ensures var pager, budget, pruned := Count(acc, PagerSavings), Count(acc, BudgetSaved), Count(acc, PruneFreed);
            var layers := pager / BYTES_PER_TOKEN + budget / BYTES_PER_TOKEN + pruned / BYTES_PER_TOKEN;
            var short := (pager + budget + pruned) / BYTES_PER_TOKEN - layers;
            && 0 <= short <= 2
            && short ==
               (pager % BYTES_PER_TOKEN + budget % BYTES_PER_TOKEN + pruned % BYTES_PER_TOKEN) / BYTES_PER_TOKEN
  {
  }
}
