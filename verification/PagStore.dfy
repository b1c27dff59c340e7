/**
 * The PAG graph store: per-namespace node and edge tables, a revision counter that every
 * upsert advances, and a trace callback that is told about every upsert.
 *
 * `Step` specifies one store call on values; `SqlitePagStore` performs it on its tables.
 */
module PagStore {
  import opened Text

  // ---------------------------------------------------------------- rows and tables

  datatype Node = Node(level: string, kind: string, path: string, title: string, summary: string, attrs: string,
                       fingerprint: string, staleness: string, contract: string, updatedAt: string)

  datatype Edge = Edge(edgeClass: string, edgeType: string, src: string, dst: string,
                       confidence: real, contract: string, updatedAt: string)

  /** The rows of one namespace. `rev` is 0 until the first upsert. */
  datatype Graph = Graph(nodes: map<string, Node>, edges: map<string, Edge>, rev: nat)

  type Db = map<string, Graph>

  const EMPTY := Graph(map[], map[], 0)
  const DEFAULT_CONTRACT := "ailit_pag_store_v1"

  function At(db: Db, ns: string): Graph {
    if ns in db then db[ns] else EMPTY
  }

  // ---------------------------------------------------------------- trace payloads

  /** The columns of a node that the trace payload carries. */
  datatype NodeView = NodeView(level: string, kind: string, path: string, title: string)
  datatype EdgeView = EdgeView(edgeClass: string, edgeType: string, src: string, dst: string)

  datatype Payload =
    | NodeDelta(id: string, node: NodeView)
    | EdgeDelta(id: string, edge: EdgeView)
    | EdgeBatch(edges: seq<(string, EdgeView)>)

  datatype TraceEvent = TraceEvent(ns: string, rev: nat, payload: Payload)

  function ViewNode(n: Node): NodeView {
    NodeView(n.level, n.kind, n.path, n.title)
  }

  function ViewEdge(e: Edge): EdgeView {
    EdgeView(e.edgeClass, e.edgeType, e.src, e.dst)
  }

  // ---------------------------------------------------------------- batch entries

  datatype RawConfidence = Missing | Malformed | Number(value: real)

  /** One element of the `edges` argument; missing text fields read as "". */
  datatype RawEdge =
    | NotAMapping
    | RawEdge(edgeId: string, edgeClass: string, edgeType: string, src: string, dst: string,
              confidence: RawConfidence, contract: string)

  predicate WellFormed(e: RawEdge) {
    e.RawEdge? && Strip(e.edgeId) != "" && e.edgeClass != "" && e.edgeType != "" && e.src != "" && e.dst != ""
  }

  /** `float(raw.get("confidence", 1.0) or 1.0)`: an explicit 0 also reads as 1. */
  function ConfidenceOf(c: RawConfidence): real {
    if c.Number? && c.value != 0.0 then c.value else 1.0
  }

  function RowOf(e: RawEdge, now: string): Edge
    requires WellFormed(e)
  {
    Edge(e.edgeClass, e.edgeType, e.src, e.dst, ConfidenceOf(e.confidence),
         if e.contract == "" then DEFAULT_CONTRACT else e.contract, now)
  }

  /** The rows a batch writes, in order. */
  function ValidRows(entries: seq<RawEdge>, now: string): seq<(string, Edge)> {
    if entries == [] then []
    else
      var e := entries[|entries| - 1];
      ValidRows(entries[..|entries| - 1], now) + if WellFormed(e) then [(Strip(e.edgeId), RowOf(e, now))] else []
  }

  function PutEdges(edges: map<string, Edge>, rows: seq<(string, Edge)>): map<string, Edge> {
    if rows == [] then edges
    else PutEdges(edges, rows[..|rows| - 1])[rows[|rows| - 1].0 := rows[|rows| - 1].1]
  }

  function Views(rows: seq<(string, Edge)>): seq<(string, EdgeView)> {
    seq(|rows|, i requires 0 <= i < |rows| => (rows[i].0, ViewEdge(rows[i].1)))
  }

  lemma BatchPrefix(edges: map<string, Edge>, entries: seq<RawEdge>, i: nat, now: string)
    requires i < |entries|
    ensures var e := entries[i];
            var done := ValidRows(entries[..i], now);
            var next := ValidRows(entries[..i + 1], now);
            if WellFormed(e) then
              && PutEdges(edges, next) == PutEdges(edges, done)[Strip(e.edgeId) := RowOf(e, now)]
              && Views(next) == Views(done) + [(Strip(e.edgeId), ViewEdge(RowOf(e, now)))]
            else next == done
  {
    var e, done, next := entries[i], ValidRows(entries[..i], now), ValidRows(entries[..i + 1], now);
    assert entries[..i + 1][..i] == entries[..i];
    if WellFormed(e) {
      assert next == done + [(Strip(e.edgeId), RowOf(e, now))];
      assert next[..|next| - 1] == done;
    }
  }

  // ---------------------------------------------------------------- one call, on values

  datatype Op =
    | UpsertNode(ns: string, id: string, node: Node)
    | UpsertEdge(ns: string, id: string, edge: Edge)
    | UpsertBatch(ns: string, entries: seq<RawEdge>, now: string)
    | MarkStale(ns: string, ids: seq<string>, state: string, now: string)
    | DeleteStale(ns: string)
    | DeleteNodesByLevelAndPath(ns: string, level: string, path: string)
    | DeleteEdgesTouching(ns: string, ids: seq<string>)

  datatype Reply = Rev(rev: nat) | Count(n: nat) | Counts(nodes: nat, edges: nat) | ValueError

  /** The new tables, the events the call emits, and what it returns. */
  datatype Outcome = Outcome(db: Db, events: seq<TraceEvent>, reply: Reply)

  /** `str(s or default).strip() or default` */
  function OrDefault(s: string, default: string): string {
    if Strip(s) == "" then default else Strip(s)
  }

  /** `tuple(str(x).strip() for x in ids if str(x).strip())`, as a set. */
  function CleanIds(ids: seq<string>): set<string> {
    set x | x in ids && Strip(x) != "" :: Strip(x)
  }

  function Touching(edges: map<string, Edge>, ids: set<string>): set<string> {
    set k | k in edges && (edges[k].src in ids || edges[k].dst in ids)
  }

  function StaleNodes(g: Graph): set<string> {
    set k | k in g.nodes && g.nodes[k].staleness != "fresh"
  }

  /** `mark_stale`: an empty id list means every node of the namespace. */
  function Marked(g: Graph, ids: set<string>): set<string> {
    set k | k in g.nodes && (ids == {} || k in ids)
  }

  function MarkNodes(nodes: map<string, Node>, hit: set<string>, state: string, now: string): map<string, Node> {
    map k | k in nodes :: if k in hit then nodes[k].(staleness := state, updatedAt := now) else nodes[k]
  }

  function AtPath(g: Graph, level: string, path: string): set<string> {
    set k | k in g.nodes && g.nodes[k].level == level && g.nodes[k].path == path
  }

  /** The state an upserted node is stored with. */
  function Stored(n: Node): Node {
    n.(staleness := OrDefault(n.staleness, "fresh"))
  }

  function Step(db: Db, op: Op): Outcome {
    var ns := Strip(op.ns);
    var g := At(db, ns);
    match op
    case UpsertNode(_, id, node) =>
      if ns == "" || Strip(id) == "" then Outcome(db, [], ValueError)
      else
        var rev := g.rev + 1;
        Outcome(db[ns := Graph(g.nodes[Strip(id) := Stored(node)], g.edges, rev)],
                [TraceEvent(ns, rev, NodeDelta(Strip(id), ViewNode(node)))], Rev(rev))
    case UpsertEdge(_, id, edge) =>
      if ns == "" || Strip(id) == "" then Outcome(db, [], ValueError)
      else
        var rev := g.rev + 1;
        Outcome(db[ns := Graph(g.nodes, g.edges[Strip(id) := edge], rev)],
                [TraceEvent(ns, rev, EdgeDelta(Strip(id), ViewEdge(edge)))], Rev(rev))
    case UpsertBatch(_, entries, now) =>
      var rows := ValidRows(entries, now);
      if ns == "" then Outcome(db, [], ValueError)
      else if rows == [] then Outcome(db, [], Rev(g.rev))
      else
        var rev := g.rev + 1;
        Outcome(db[ns := Graph(g.nodes, PutEdges(g.edges, rows), rev)],
                [TraceEvent(ns, rev, EdgeBatch(Views(rows)))], Rev(rev))
    case MarkStale(_, ids, state, now) =>
      if ns == "" then Outcome(db, [], Count(0))
      else
        var hit := Marked(g, CleanIds(ids));
        Outcome(db[ns := g.(nodes := MarkNodes(g.nodes, hit, OrDefault(state, "stale"), now))], [], Count(|hit|))
    case DeleteStale(_) =>
      if ns == "" then Outcome(db, [], Counts(0, 0))
      else
        var gone := StaleNodes(g);
        var cut := Touching(g.edges, gone);
        Outcome(db[ns := Graph(g.nodes - gone, g.edges - cut, g.rev)], [], Counts(|gone|, |cut|))
    case DeleteNodesByLevelAndPath(_, level, path) =>
      if ns == "" || Strip(level) == "" || Strip(path) == "" then Outcome(db, [], Count(0))
      else
        var gone := AtPath(g, Strip(level), Strip(path));
        Outcome(db[ns := g.(nodes := g.nodes - gone)], [], Count(|gone|))
    case DeleteEdgesTouching(_, ids) =>
      if ns == "" then Outcome(db, [], Count(0))
      else
        var cut := Touching(g.edges, CleanIds(ids));
        Outcome(db[ns := g.(edges := g.edges - cut)], [], Count(|cut|))
  }

  // ---------------------------------------------------------------- what the upserts mean

  /** A node upsert stores the node's own fields, a blank state as fresh, and tells exactly the compact columns. */
  lemma UpsertNodeMeans(db: Db, ns: string, id: string, node: Node, k: string, other: string)
    requires Strip(ns) != "" && Strip(id) != ""
    ensures var o := Step(db, UpsertNode(ns, id, node));
            var g, h := At(db, Strip(ns)), At(o.db, Strip(ns));
            && h.edges == g.edges && h.rev == g.rev + 1 && o.reply == Rev(g.rev + 1)
            && (other != Strip(ns) ==> At(o.db, other) == At(db, other))
            && (k in h.nodes <==> k in g.nodes || k == Strip(id))
            && (k in g.nodes && k != Strip(id) ==> h.nodes[k] == g.nodes[k])
            && (var n := h.nodes[Strip(id)];
                && n.level == node.level && n.kind == node.kind && n.path == node.path && n.title == node.title
                && n.summary == node.summary && n.attrs == node.attrs && n.fingerprint == node.fingerprint
                && n.contract == node.contract && n.updatedAt == node.updatedAt
                && n.staleness == if Strip(node.staleness) == "" then "fresh" else Strip(node.staleness))
            && |o.events| == 1 && o.events[0].ns == Strip(ns) && o.events[0].rev == g.rev + 1
            && o.events[0].payload.NodeDelta? && o.events[0].payload.id == Strip(id)
            && (var v := o.events[0].payload.node;
                v.level == node.level && v.kind == node.kind && v.path == node.path && v.title == node.title)
  {
  }

  /** An edge upsert stores the edge as it is and tells its class, its type and its ends. */
  lemma UpsertEdgeMeans(db: Db, ns: string, id: string, edge: Edge, k: string, other: string)
    requires Strip(ns) != "" && Strip(id) != ""
    ensures var o := Step(db, UpsertEdge(ns, id, edge));
            var g, h := At(db, Strip(ns)), At(o.db, Strip(ns));
            && h.nodes == g.nodes && h.rev == g.rev + 1 && o.reply == Rev(g.rev + 1)
            && (other != Strip(ns) ==> At(o.db, other) == At(db, other))
            && (k in h.edges <==> k in g.edges || k == Strip(id))
            && (k in g.edges && k != Strip(id) ==> h.edges[k] == g.edges[k])
            && h.edges[Strip(id)] == edge
            && |o.events| == 1 && o.events[0].ns == Strip(ns) && o.events[0].rev == g.rev + 1
            && o.events[0].payload.EdgeDelta? && o.events[0].payload.id == Strip(id)
            && ShowsEdge(o.events[0].payload.edge, edge.edgeClass, edge.edgeType, edge.src, edge.dst)
  {
  }

  predicate ShowsEdge(v: EdgeView, edgeClass: string, edgeType: string, src: string, dst: string) {
    v.edgeClass == edgeClass && v.edgeType == edgeType && v.src == src && v.dst == dst
  }

  /** A blank namespace or id is refused and changes nothing. */
  lemma BlankIdsRefused(db: Db, ns: string, id: string, node: Node, edge: Edge, entries: seq<RawEdge>, now: string)
    ensures Strip(ns) == "" || Strip(id) == "" ==>
              Step(db, UpsertNode(ns, id, node)) == Outcome(db, [], ValueError)
              && Step(db, UpsertEdge(ns, id, edge)) == Outcome(db, [], ValueError)
    ensures Strip(ns) == "" ==> Step(db, UpsertBatch(ns, entries, now)) == Outcome(db, [], ValueError)
  {
  }

  // ---------------------------------------------------------------- what a batch means

  /** The entry writes the edge with id `k`: it is a mapping with an id, a class, a type and two ends. */
  predicate Writes(e: RawEdge, k: string) {
    e.RawEdge? && k == Strip(e.edgeId) != "" && e.edgeClass != "" && e.edgeType != "" && e.src != "" && e.dst != ""
  }

  /** The entry's own fields, 1 for a confidence that is missing, malformed or 0, the default for an empty contract. */
  predicate HoldsEntry(row: Edge, e: RawEdge, now: string)
    requires e.RawEdge?
  {
    && row.edgeClass == e.edgeClass && row.edgeType == e.edgeType && row.src == e.src && row.dst == e.dst
    && (e.confidence.Number? && e.confidence.value != 0.0 ==> row.confidence == e.confidence.value)
    && (!(e.confidence.Number? && e.confidence.value != 0.0) ==> row.confidence == 1.0)
    && (e.contract != "" ==> row.contract == e.contract) && (e.contract == "" ==> row.contract == "ailit_pag_store_v1")
    && row.updatedAt == now
  }

  /** Entry `i` is the last that writes `k`. */
  predicate LastWriter(entries: seq<RawEdge>, k: string, i: nat) {
    i < |entries| && Writes(entries[i], k) && forall j :: i < j < |entries| ==> !Writes(entries[j], k)
  }

  predicate Written(entries: seq<RawEdge>, k: string) {
    exists i :: 0 <= i < |entries| && Writes(entries[i], k)
  }

  lemma WrittenSnoc(entries: seq<RawEdge>, e: RawEdge, k: string, i: nat)
    ensures Written(entries + [e], k) <==> Written(entries, k) || Writes(e, k)
    ensures LastWriter(entries + [e], k, i) <==> if Writes(e, k) then i == |entries| else LastWriter(entries, k, i)
  {
    var all := entries + [e];
    assert all[|entries|] == e && forall j :: 0 <= j < |entries| ==> all[j] == entries[j];
    if Written(entries, k) {
      var j :| 0 <= j < |entries| && Writes(entries[j], k);
      assert Writes(all[j], k);
    }
    if Writes(e, k) {
      assert Writes(all[|entries|], k);
    }
  }

  /** What a batch makes of the row under `k`. */
  ghost predicate Result(edges: map<string, Edge>, entries: seq<RawEdge>, after: map<string, Edge>, now: string,
                         k: string)
  {
    && (k in after <==> k in edges || Written(entries, k))
    && (forall i: nat :: LastWriter(entries, k, i) ==> k in after && HoldsEntry(after[k], entries[i], now))
    && (k in edges && !Written(entries, k) ==> after[k] == edges[k])
  }

  lemma ResultSnoc(edges: map<string, Edge>, entries: seq<RawEdge>, e: RawEdge, mid: map<string, Edge>,
                   after: map<string, Edge>, now: string, k: string)
    requires Result(edges, entries, mid, now, k)
    requires after == if WellFormed(e) then mid[Strip(e.edgeId) := RowOf(e, now)] else mid
    ensures Result(edges, entries + [e], after, now, k)
  {
    WrittenSnoc(entries, e, k, 0);
    assert Writes(e, k) ==> WellFormed(e) && after[k] == RowOf(e, now) && HoldsEntry(after[k], e, now);
    assert !Writes(e, k) ==> (k in after <==> k in mid) && (k in mid ==> after[k] == mid[k]);
    forall i: nat | LastWriter(entries + [e], k, i)
      ensures k in after && HoldsEntry(after[k], (entries + [e])[i], now)
    {
      WrittenSnoc(entries, e, k, i);
    }
  }

  lemma RowsSnoc(edges: map<string, Edge>, entries: seq<RawEdge>, now: string, n: nat)
    requires n < |entries|
    ensures var mid, e := PutEdges(edges, ValidRows(entries[..n], now)), entries[n];
            PutEdges(edges, ValidRows(entries[..n + 1], now)) ==
            if WellFormed(e) then mid[Strip(e.edgeId) := RowOf(e, now)] else mid
  {
    BatchPrefix(edges, entries, n, now);
  }

  lemma {:induction false} RowsWritten(edges: map<string, Edge>, entries: seq<RawEdge>, now: string, k: string, n: nat)
    requires n <= |entries|
    ensures Result(edges, entries[..n], PutEdges(edges, ValidRows(entries[..n], now)), now, k)
    decreases n
  {
    if n > 0 {
      RowsWritten(edges, entries, now, k, n - 1);
      RowsSnoc(edges, entries, now, n - 1);
      assert entries[..n] == entries[..n - 1] + [entries[n - 1]];
      ResultSnoc(edges, entries[..n - 1], entries[n - 1], PutEdges(edges, ValidRows(entries[..n - 1], now)),
                 PutEdges(edges, ValidRows(entries[..n], now)), now, k);
    }
  }

  /**
   * After a batch an edge exists exactly when it did before or some entry writes it; it holds the fields of the last
   * entry that does, and is the old row when none does. Nodes and other namespaces stay.
   */
  lemma BatchMeans(db: Db, ns: string, entries: seq<RawEdge>, now: string, k: string, other: string)
    requires Strip(ns) != ""
    ensures var o := Step(db, UpsertBatch(ns, entries, now));
            var g, h := At(db, Strip(ns)), At(o.db, Strip(ns));
            && h.nodes == g.nodes && (other != Strip(ns) ==> At(o.db, other) == At(db, other))
            && (k in h.edges <==> k in g.edges || Written(entries, k))
            && (forall i: nat :: LastWriter(entries, k, i) ==> k in h.edges && HoldsEntry(h.edges[k], entries[i], now))
            && (k in g.edges && !Written(entries, k) ==> h.edges[k] == g.edges[k])
  {
    RowsWritten(At(db, Strip(ns)).edges, entries, now, k, |entries|);
    assert entries[..|entries|] == entries;
  }

  /** How many of the first `n` entries write an edge. */
  function Writers(entries: seq<RawEdge>, n: nat): nat
    requires n <= |entries|
  {
    if n == 0 then 0
    else
      var e := entries[n - 1];
      Writers(entries, n - 1) + if e.RawEdge? && Writes(e, Strip(e.edgeId)) then 1 else 0
  }

  /** Entry `i` is shown at its place among the entries that write an edge. */
  predicate Shown(views: seq<(string, EdgeView)>, entries: seq<RawEdge>, i: nat)
    requires i < |entries| && entries[i].RawEdge?
  {
    var e, p := entries[i], Writers(entries, i);
    p < |views| && views[p].0 == Strip(e.edgeId) && ShowsEdge(views[p].1, e.edgeClass, e.edgeType, e.src, e.dst)
  }

  lemma {:induction false} ViewsWritten(entries: seq<RawEdge>, now: string, n: nat, i: nat)
    requires n <= |entries|
    ensures |Views(ValidRows(entries[..n], now))| == Writers(entries, n)
    ensures i < n && entries[i].RawEdge? && Writes(entries[i], Strip(entries[i].edgeId)) ==>
              Shown(Views(ValidRows(entries[..n], now)), entries, i)
    decreases n
  {
    if n > 0 {
      ViewsWritten(entries, now, n - 1, i);
      ViewsSnoc(entries, now, n - 1);
    }
  }

  lemma ViewsSnoc(entries: seq<RawEdge>, now: string, n: nat)
    requires n < |entries|
    ensures var e := entries[n];
            Views(ValidRows(entries[..n + 1], now)) == Views(ValidRows(entries[..n], now)) +
            if WellFormed(e) then [(Strip(e.edgeId), EdgeView(e.edgeClass, e.edgeType, e.src, e.dst))] else []
  {
    BatchPrefix(map[], entries, n, now);
  }

  /** The trace is told, once, every entry that writes an edge, in order and with its own fields. */
  lemma BatchTells(db: Db, ns: string, entries: seq<RawEdge>, now: string, i: nat)
    requires Strip(ns) != "" && i < |entries| && entries[i].RawEdge? && Writes(entries[i], Strip(entries[i].edgeId))
    ensures var events := Step(db, UpsertBatch(ns, entries, now)).events;
            && |events| == 1 && events[0].ns == Strip(ns) && events[0].rev == At(db, Strip(ns)).rev + 1
            && events[0].payload.EdgeBatch?
            && (var views, p := events[0].payload.edges, Writers(entries, i);
                && |views| == Writers(entries, |entries|) && p < |views| && views[p].0 == Strip(entries[i].edgeId)
                && ShowsEdge(views[p].1, entries[i].edgeClass, entries[i].edgeType, entries[i].src, entries[i].dst))
  {
    ViewsWritten(entries, now, |entries|, i);
    assert entries[..|entries|] == entries;
  }

  // ---------------------------------------------------------------- what the calls without a trace mean

  /** Another namespace, the revision and the trace are not touched. */
  predicate Quietly(db: Db, ns: string, o: Outcome, other: string) {
    && o.events == [] && At(o.db, Strip(ns)).rev == At(db, Strip(ns)).rev
    && (other != Strip(ns) ==> At(o.db, other) == At(db, other))
  }

  ghost predicate Named(ids: seq<string>, k: string) {
    (exists x :: x in ids && Strip(x) == k != "") || forall x :: x in ids ==> Strip(x) == ""
  }

  lemma MarkedAreNamed(g: Graph, ids: seq<string>, k: string)
    ensures k in Marked(g, CleanIds(ids)) <==> k in g.nodes && Named(ids, k)
  {
    var named := CleanIds(ids);
    if named != {} {
      var y :| y in named;
      assert !forall x :: x in ids ==> Strip(x) == "";
    } else {
      forall x | x in ids ensures Strip(x) == "" {
        assert Strip(x) != "" ==> Strip(x) in named;
      }
    }
  }

  /**
   * `mark_stale`: no row comes or goes; a node is re-marked exactly when it is named, or when no id is given at all,
   * and then only its state and its time change; the reply counts the nodes that are.
   */
  lemma MarkStaleMeans(db: Db, ns: string, ids: seq<string>, state: string, now: string, other: string, k: string)
    requires Strip(ns) != ""
    ensures var o := Step(db, MarkStale(ns, ids, state, now));
            var g, h := At(db, Strip(ns)), At(o.db, Strip(ns));
            && Quietly(db, ns, o, other) && h.nodes.Keys == g.nodes.Keys && h.edges == g.edges
            && (k in g.nodes ==>
                  h.nodes[k] == if !Named(ids, k) then g.nodes[k]
                                else g.nodes[k].(staleness := if Strip(state) == "" then "stale" else Strip(state),
                                                 updatedAt := now))
            && o.reply == Count(|set j | j in g.nodes && Named(ids, j)|)
  {
    var g := At(db, Strip(ns));
    MarkedAreNamed(g, ids, k);
    forall j ensures j in Marked(g, CleanIds(ids)) <==> j in g.nodes && Named(ids, j) {
      MarkedAreNamed(g, ids, j);
    }
    assert Marked(g, CleanIds(ids)) == set j | j in g.nodes && Named(ids, j);
  }

  predicate IsStale(g: Graph, k: string) {
    k in g.nodes && g.nodes[k].staleness != "fresh"
  }

  /**
   * `delete_stale`: a node stays exactly when it was fresh, an edge exactly when it does not end at a stale node, and
   * what stays is unchanged; the reply counts what went.
   */
  lemma DeleteStaleMeans(db: Db, ns: string, other: string, k: string)
    requires Strip(ns) != ""
    ensures var o := Step(db, DeleteStale(ns));
            var g, h := At(db, Strip(ns)), At(o.db, Strip(ns));
            && Quietly(db, ns, o, other)
            && (k in h.nodes <==> k in g.nodes && !IsStale(g, k)) && (k in h.nodes ==> h.nodes[k] == g.nodes[k])
            && (k in h.edges <==> k in g.edges && !IsStale(g, g.edges[k].src) && !IsStale(g, g.edges[k].dst))
            && (k in h.edges ==> h.edges[k] == g.edges[k])
            && o.reply == Counts(|g.nodes| - |h.nodes|, |g.edges| - |h.edges|)
  {
    WithoutStale(At(db, Strip(ns)), k);
  }

  lemma WithoutStale(g: Graph, k: string)
    ensures var gone := StaleNodes(g);
            var cut := Touching(g.edges, gone);
            && |gone| == |g.nodes| - |g.nodes - gone| && |cut| == |g.edges| - |g.edges - cut|
            && (k in g.nodes - gone <==> k in g.nodes && !IsStale(g, k))
            && (k in g.edges - cut <==> k in g.edges && !IsStale(g, g.edges[k].src) && !IsStale(g, g.edges[k].dst))
  {
    Remaining(g.nodes, StaleNodes(g));
    Remaining(g.edges, Touching(g.edges, StaleNodes(g)));
  }

  lemma Remaining<V>(m: map<string, V>, gone: set<string>)
    requires gone <= m.Keys
    ensures |m - gone| + |gone| == |m|
  {
    assert (m - gone).Keys + gone == m.Keys;
    assert |(m - gone).Keys| == |m - gone| && |m.Keys| == |m|;
  }

  /**
   * `delete_nodes_by_level_and_path`: a node goes exactly when its level and path are the stripped ones given; all
   * edges stay, and the reply counts what went.
   */
  lemma DeleteByPathMeans(db: Db, ns: string, level: string, path: string, other: string, k: string)
    requires Strip(ns) != "" && Strip(level) != "" && Strip(path) != ""
    ensures var o := Step(db, DeleteNodesByLevelAndPath(ns, level, path));
            var g, h := At(db, Strip(ns)), At(o.db, Strip(ns));
            && Quietly(db, ns, o, other) && h.edges == g.edges
            && (k in h.nodes <==> k in g.nodes && !(g.nodes[k].level == Strip(level) && g.nodes[k].path == Strip(path)))
            && (k in h.nodes ==> h.nodes[k] == g.nodes[k])
            && o.reply == Count(|g.nodes| - |h.nodes|)
  {
    var g := At(db, Strip(ns));
    Remaining(g.nodes, AtPath(g, Strip(level), Strip(path)));
  }

  /**
   * `delete_edges_touching_node_ids`: an edge goes exactly when one of its ends is a stripped, non-blank id given; all
   * nodes stay, and the reply counts what went.
   */
  lemma DeleteEdgesMeans(db: Db, ns: string, ids: seq<string>, other: string, k: string)
    requires Strip(ns) != ""
    ensures var o := Step(db, DeleteEdgesTouching(ns, ids));
            var g, h := At(db, Strip(ns)), At(o.db, Strip(ns));
            && Quietly(db, ns, o, other) && h.nodes == g.nodes
            && (k in h.edges <==>
                  k in g.edges && forall x :: x in ids && Strip(x) != "" ==>
                    g.edges[k].src != Strip(x) && g.edges[k].dst != Strip(x))
            && (k in h.edges ==> h.edges[k] == g.edges[k])
            && o.reply == Count(|g.edges| - |h.edges|)
  {
    var g, named := At(db, Strip(ns)), CleanIds(ids);
    Remaining(g.edges, Touching(g.edges, named));
    forall x | x in ids && Strip(x) != "" ensures Strip(x) in named {}
    forall y | y in named ensures exists x :: x in ids && Strip(x) == y != "" {}
  }

  // ---------------------------------------------------------------- the store itself

  class SqlitePagStore {
    var graphs: Db
    var tracing: bool
    /** What the callback has been told, in order. */
    var delivered: seq<TraceEvent>

    constructor ()
      ensures graphs == map[] && !tracing && delivered == []
    {
      graphs, tracing, delivered := map[], false, [];
    }

    /** `with store.graph_trace(fn)`: switches the callback and hands back the old setting. */
    method SetTrace(on: bool) returns (previous: bool)
      modifies this`tracing
      ensures previous == old(tracing) && tracing == on
    {
      previous, tracing := tracing, on;
    }

    method GetGraphRev(ns: string) returns (rev: nat)
      ensures rev == At(graphs, Strip(ns)).rev || (Strip(ns) == "" && rev == 0)
    {
      rev := if Strip(ns) == "" then 0 else At(graphs, Strip(ns)).rev;
    }

    /** Advances the counter in the same transaction as the write it follows. */
    method BumpGraphRev(ns: string) returns (rev: nat)
      modifies this`graphs
      ensures rev == At(old(graphs), ns).rev + 1
      ensures graphs == old(graphs)[ns := At(old(graphs), ns).(rev := rev)]
    {
      rev := At(graphs, ns).rev + 1;
      graphs := graphs[ns := At(graphs, ns).(rev := rev)];
    }

    method Deliver(ns: string, rev: nat, payload: Payload)
      modifies this`delivered
      ensures delivered == old(delivered) + if tracing then [TraceEvent(ns, rev, payload)] else []
    {
      if tracing {
        delivered := delivered + [TraceEvent(ns, rev, payload)];
      }
    }

    /** This call did what `Step` says, and the callback heard exactly its events. */
    twostate predicate Did(op: Op, reply: Reply)
      reads this
    {
      var o := Step(old(graphs), op);
      && graphs == o.db && reply == o.reply && tracing == old(tracing)
      && delivered == old(delivered) + if tracing then o.events else []
    }

    method UpsertNode(namespace: string, nodeId: string, node: Node) returns (reply: Reply)
      modifies this`graphs, this`delivered
      ensures Did(Op.UpsertNode(namespace, nodeId, node), reply)
    {
      var ns, nid := Strip(namespace), Strip(nodeId);
      if ns == "" || nid == "" {
        return ValueError;
      }
      var g := At(graphs, ns);
      graphs := graphs[ns := g.(nodes := g.nodes[nid := Stored(node)])];
      var rev := BumpGraphRev(ns);
      Deliver(ns, rev, NodeDelta(nid, ViewNode(node)));
      reply := Rev(rev);
    }

    method UpsertEdge(namespace: string, edgeId: string, edge: Edge) returns (reply: Reply)
      modifies this`graphs, this`delivered
      ensures Did(Op.UpsertEdge(namespace, edgeId, edge), reply)
    {
      var ns, eid := Strip(namespace), Strip(edgeId);
      if ns == "" || eid == "" {
        return ValueError;
      }
      var g := At(graphs, ns);
      graphs := graphs[ns := g.(edges := g.edges[eid := edge])];
      var rev := BumpGraphRev(ns);
      Deliver(ns, rev, EdgeDelta(eid, ViewEdge(edge)));
      reply := Rev(rev);
    }

    /** Writes each well-formed entry, bumps the counter once and calls back once. */
    method UpsertEdgesBatch(namespace: string, entries: seq<RawEdge>, now: string) returns (reply: Reply)
      modifies this`graphs, this`delivered
      ensures Did(Op.UpsertBatch(namespace, entries, now), reply)
    {
      var ns := Strip(namespace);
      if ns == "" {
        return ValueError;
      }
      var g := At(graphs, ns);
      var edges, compacts := g.edges, [];
      for i := 0 to |entries|
        invariant edges == PutEdges(g.edges, ValidRows(entries[..i], now))
        invariant compacts == Views(ValidRows(entries[..i], now))
        invariant unchanged(this)
      {
        var raw := entries[i];
        BatchPrefix(g.edges, entries, i, now);
        if WellFormed(raw) {
          var eid, row := Strip(raw.edgeId), RowOf(raw, now);
          edges := edges[eid := row];
          compacts := compacts + [(eid, ViewEdge(row))];
        }
      }
      assert entries[..|entries|] == entries;
      ghost var rows := ValidRows(entries, now);
      assert |compacts| == |rows|;
      if compacts == [] {
        return Rev(g.rev);
      }
      graphs := graphs[ns := g.(edges := edges)];
      var rev := BumpGraphRev(ns);
      Deliver(ns, rev, EdgeBatch(compacts));
      reply := Rev(rev);
    }

    method MarkStale(namespace: string, ids: seq<string>, state: string, now: string) returns (reply: Reply)
      modifies this`graphs
      ensures Did(Op.MarkStale(namespace, ids, state, now), reply)
    {
      var ns := Strip(namespace);
      if ns == "" {
        return Count(0);
      }
      var g := At(graphs, ns);
      var hit := Marked(g, CleanIds(ids));
      graphs := graphs[ns := g.(nodes := MarkNodes(g.nodes, hit, OrDefault(state, "stale"), now))];
      reply := Count(|hit|);
    }

    method DeleteStale(namespace: string) returns (reply: Reply)
      modifies this`graphs
      ensures Did(Op.DeleteStale(namespace), reply)
    {
      var ns := Strip(namespace);
      if ns == "" {
        return Counts(0, 0);
      }
      var g := At(graphs, ns);
      var gone := StaleNodes(g);
      var cut := Touching(g.edges, gone);
      graphs := graphs[ns := Graph(g.nodes - gone, g.edges - cut, g.rev)];
      reply := Counts(|gone|, |cut|);
    }

    method DeleteNodesByLevelAndPath(namespace: string, level: string, path: string) returns (reply: Reply)
      modifies this`graphs
      ensures Did(Op.DeleteNodesByLevelAndPath(namespace, level, path), reply)
    {
      var ns, lv, p := Strip(namespace), Strip(level), Strip(path);
      if ns == "" || lv == "" || p == "" {
        return Count(0);
      }
      var g := At(graphs, ns);
      var gone := AtPath(g, lv, p);
      graphs := graphs[ns := g.(nodes := g.nodes - gone)];
      reply := Count(|gone|);
    }

    method DeleteEdgesTouching(namespace: string, ids: seq<string>) returns (reply: Reply)
      modifies this`graphs
      ensures Did(Op.DeleteEdgesTouching(namespace, ids), reply)
    {
      var ns := Strip(namespace);
      if ns == "" {
        return Count(0);
      }
      var g := At(graphs, ns);
      var cut := Touching(g.edges, CleanIds(ids));
      graphs := graphs[ns := g.(edges := g.edges - cut)];
      reply := Count(|cut|);
    }
  }
}
