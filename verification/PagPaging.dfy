/**
 * Paging a namespace's rows: the slice payload with its `has_more` flag, and the client loop that
 * steps the offset by the limit until the flag is false.
 *
 * `rows` is the namespace's rows in the order the queries list them, assumed not to change meanwhile.
 */
module PagPaging {
  import opened Prelude

  const NODE_CAP: nat := 10_000
  const EDGE_CAP: nat := 20_000

  /** The store's listing: limit clamped to 1..cap, offset to at least 0. */
  function ListRows<T>(rows: seq<T>, limit: int, offset: int, cap: nat): seq<T> {
    var lim, off := Max(1, Min(limit, cap)), Max(0, offset);
    if off >= |rows| then [] else rows[off..Min(off + lim, |rows|)]
  }

  datatype Page<T> = Page(rows: seq<T>, hasMore: bool)

  /** One page: a limit+1 probe below the cap, a COUNT at the cap. */
  function Slice<T>(rows: seq<T>, limit: nat, offset: nat, cap: nat): Page<T> {
    if limit < cap then
      var raw := ListRows(rows, limit + 1, offset, cap);
      Page(raw[..Min(limit, |raw|)], |raw| > limit)
    else
      var page := ListRows(rows, limit, offset, cap);
      Page(page, offset + |page| < |rows|)
  }

  /** The clamps the command applies before it slices. */
  function ClampLimit(limit: int, cap: nat): int {
    Max(1, Min(limit, cap))
  }

  lemma ClampLimitInRange(limit: int, cap: nat)
    requires cap >= 1
    ensures 1 <= ClampLimit(limit, cap) <= cap
    ensures ClampLimit(limit, cap) == limit <==> 1 <= limit <= cap
  {
  }

  /** Both branches agree: a page is a window, and there is more exactly when the window ends before the rows do. */
  lemma HasMoreIsExact<T>(rows: seq<T>, limit: nat, offset: nat, cap: nat)
    requires 1 <= limit <= cap
    ensures var p := Slice(rows, limit, offset, cap);
            && (p.hasMore <==> offset + limit < |rows|)
            && p.rows == if offset >= |rows| then [] else rows[offset..Min(offset + limit, |rows|)]
  {
  }

  /** The rows the client collects from `offset` on. */
  function Visited<T>(rows: seq<T>, limit: nat, offset: nat, cap: nat): seq<T>
    requires limit >= 1 && cap >= 1
    decreases |rows| - offset
  {
    var p := Slice(rows, limit, offset, cap);
    if p.hasMore && offset < |rows| then p.rows + Visited(rows, limit, offset + limit, cap) else p.rows
  }

  lemma VisitedStep<T>(rows: seq<T>, limit: nat, offset: nat, cap: nat)
    requires 1 <= limit <= cap
    ensures Visited(rows, limit, offset, cap) ==
            if offset + limit < |rows| then rows[offset..offset + limit] + Visited(rows, limit, offset + limit, cap)
            else if offset >= |rows| then [] else rows[offset..]
  {
    HasMoreIsExact(rows, limit, offset, cap);
  }

  lemma Glue<T>(rows: seq<T>, i: nat, j: nat)
    requires i <= j <= |rows|
    ensures rows[i..j] + rows[j..] == rows[i..]
  {
  }

  lemma {:induction false} VisitedIsSuffix<T>(rows: seq<T>, limit: nat, offset: nat, cap: nat)
    requires 1 <= limit <= cap
    ensures Visited(rows, limit, offset, cap) == if offset >= |rows| then [] else rows[offset..]
    decreases |rows| - offset
  {
    if offset + limit >= |rows| {
      VisitedStep(rows, limit, offset, cap);
    } else {
      VisitedIsSuffix(rows, limit, offset + limit, cap);
      VisitedStep(rows, limit, offset, cap);
      Glue(rows, offset, offset + limit);
    }
  }

  lemma {:induction false} VisitedAtMost<T>(rows: seq<T>, limit: nat, offset: nat, cap: nat)
    requires limit > cap >= 1
    ensures |Visited(rows, limit, offset, cap)| <= if offset >= |rows| then 0 else |rows| - offset
    decreases |rows| - offset
  {
    var p := Slice(rows, limit, offset, cap);
    if p.hasMore && offset < |rows| {
      VisitedAtMost(rows, limit, offset + limit, cap);
    }
  }

  /**
   * Paging from the start visits every row exactly once, in order, exactly when the step does not exceed the
   * store's cap (or one capped page holds everything): above the cap, a page is shorter than the step.
   */
  lemma PagingVisitsAllIff<T>(rows: seq<T>, limit: nat, cap: nat)
    requires limit >= 1 && cap >= 1
    ensures Visited(rows, limit, 0, cap) == rows <==> limit <= cap || |rows| <= cap
  {
    if limit <= cap {
      VisitedIsSuffix(rows, limit, 0, cap);
    } else {
      var p := Slice(rows, limit, 0, cap);
      if |rows| > cap {
        assert |p.rows| == cap && p.hasMore;
        VisitedAtMost(rows, limit, limit, cap);
      }
    }
  }

  /** The client loop: fetch a page, keep its rows, stop when there is no more, else advance by the limit. */
  method LoadPages<T>(rows: seq<T>, limit: nat, cap: nat) returns (all: seq<T>)
    requires 1 <= limit <= cap
    ensures all == rows
  {
    var offset := 0;
    all := [];
    while true
      invariant all == if offset >= |rows| then rows else rows[..offset]
      invariant offset > 0 ==> offset < |rows|
      decreases |rows| - offset
    {
      var page := Slice(rows, limit, offset, cap);
      HasMoreIsExact(rows, limit, offset, cap);
      all := all + page.rows;
      if !page.hasMore {
        return;
      }
      offset := offset + limit;
    }
  }

  /** The desktop client loads nodes and edges with steps equal to the caps, so it sees each of them once. */
  method LoadMerged<N, E>(nodes: seq<N>, edges: seq<E>) returns (allNodes: seq<N>, allEdges: seq<E>)
    ensures allNodes == nodes && allEdges == edges
  {
    allNodes := LoadPages(nodes, NODE_CAP, NODE_CAP);
    allEdges := LoadPages(edges, EDGE_CAP, EDGE_CAP);
  }
}
