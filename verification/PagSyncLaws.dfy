/**
 * Laws of incremental sync on an unchanged disk: it commutes, is idempotent, and touches only what
 * belongs to the synced files.
 */
module PagSyncLaws {
  import opened Prelude
  import opened Text
  import opened PagStore
  import opened PagIndexer

  /** A path without blanks at its ends, which is what `delete_nodes_by_level_and_path` looks for. */
  predicate CleanPath(rel: string) {
    Strip(rel) == rel != ""
  }

  lemma StripTwice(s: string)
    ensures Strip(Strip(s)) == Strip(s)
  {
    StripIsStripped(s);
    StripFixed(Strip(s));
  }

  // ---------------------------------------------------------------- what one sync owns

  function CRows(ids: IdScheme, rel: string, bounds: seq<Boundary>): Graph {
    PutBounds(EMPTY, ids, rel, bounds)
  }

  function NewNodes(ids: IdScheme, disk: Disk, rel: string): map<string, Node> {
    if rel in disk && disk[rel].File? then
      map[BId(rel) := FileRow(rel, disk[rel])] +
      if disk[rel].textLike then CRows(ids, rel, disk[rel].bounds).nodes else map[]
    else map[]
  }

  function SelfEdge(ids: IdScheme, rel: string): map<string, Edge> {
    map[IdOf(ids, Imports(BId(rel), BId(rel))) := Imports(BId(rel), BId(rel))]
  }

  predicate Reindexes(disk: Disk, rel: string) {
    rel in disk && disk[rel].File? && disk[rel].textLike
  }

  function NewEdges(ids: IdScheme, disk: Disk, rel: string): map<string, Edge> {
    if Reindexes(disk, rel) then
      CRows(ids, rel, disk[rel].bounds).edges + if disk[rel].importsItself then SelfEdge(ids, rel) else map[]
    else map[]
  }

  /** A sync as a rewrite: what it drops, what it ages, and what it lays over the rest. */
  datatype Effect = Effect(bid: string, path: string, reindexes: bool, missing: bool,
                           nodes: map<string, Node>, edges: map<string, Edge>)
  {
    predicate DropsNode(n: Node) {
      reindexes && n.level == "C" && n.path == path
    }

    predicate DropsEdge(e: Edge) {
      reindexes && (e.src == bid || e.dst == bid)
    }

    function Aged(id: string, n: Node): Node {
      if missing && id == bid then n.(staleness := "stale", updatedAt := "") else n
    }

    function KeptNodes(all: map<string, Node>): map<string, Node> {
      map k | k in all && !DropsNode(all[k]) :: Aged(k, all[k])
    }

    function KeptEdges(all: map<string, Edge>): map<string, Edge> {
      map k | k in all && !DropsEdge(all[k]) :: all[k]
    }

    function Apply(g: Graph): Graph {
      Graph(KeptNodes(g.nodes) + nodes, KeptEdges(g.edges) + edges, g.rev)
    }
  }

  function EffectOf(ids: IdScheme, disk: Disk, rel: string): Effect {
    Effect(BId(rel), Strip(rel), Reindexes(disk, rel), rel !in disk, NewNodes(ids, disk, rel), NewEdges(ids, disk, rel))
  }

  lemma {:induction false} PutBoundsShape(g: Graph, ids: IdScheme, rel: string, bounds: seq<Boundary>)
    ensures var h := PutBounds(g, ids, rel, bounds);
            h == Graph(g.nodes + CRows(ids, rel, bounds).nodes, g.edges + CRows(ids, rel, bounds).edges, g.rev)
    decreases |bounds|
  {
    if bounds != [] {
      var front, b := bounds[..|bounds| - 1], bounds[|bounds| - 1];
      PutBoundsShape(g, ids, rel, front);
      AddAfter(g.nodes, CRows(ids, rel, front).nodes, CId(ids, rel, b), CRow(rel, b));
      var e := Contains(BId(rel), CId(ids, rel, b));
      AddAfter(g.edges, CRows(ids, rel, front).edges, IdOf(ids, e), e);
    }
  }

  lemma AddAfter<V>(m: map<string, V>, n: map<string, V>, k: string, v: V)
    ensures (m + n)[k := v] == m + n[k := v]
  {
  }

  lemma ReindexNodes(g: Graph, f: Effect, row: Node, rows: map<string, Node>)
    requires f.reindexes && !f.missing && row.level == "B"
    ensures var g1 := g.(nodes := g.nodes[f.bid := row]);
            (g1.nodes - AtPath(g1, "C", f.path)) + rows == f.KeptNodes(g.nodes) + (map[f.bid := row] + rows)
  {
    var g1 := g.(nodes := g.nodes[f.bid := row]);
    assert g1.nodes - AtPath(g1, "C", f.path) == f.KeptNodes(g.nodes)[f.bid := row];
  }

  lemma ReindexEdges(g: Graph, f: Effect)
    requires f.reindexes
    ensures g.edges - Touching(g.edges, {f.bid}) == f.KeptEdges(g.edges)
  {
  }

  /** Syncing a path is applying its effect. */
  lemma SyncShape(g: Graph, ids: IdScheme, disk: Disk, rel: string)
    ensures SyncOne(g, ids, disk, rel) == EffectOf(ids, disk, rel).Apply(g)
  {
    var f := EffectOf(ids, disk, rel);
    if rel !in disk {
      assert MarkNodes(g.nodes, Marked(g, {BId(rel)}), "stale", "") == f.Apply(g).nodes;
      assert g.edges == f.Apply(g).edges;
    } else if !Reindexes(disk, rel) {
      assert f.KeptNodes(g.nodes) == g.nodes && f.KeptEdges(g.edges) == g.edges;
    } else {
      ReindexShape(g, ids, rel, disk[rel], f);
    }
  }

  lemma ReindexShape(g: Graph, ids: IdScheme, rel: string, e: Entry, f: Effect)
    requires e.File? && e.textLike && f.bid == BId(rel) && f.path == Strip(rel) && f.reindexes && !f.missing
    requires f.nodes == map[BId(rel) := FileRow(rel, e)] + CRows(ids, rel, e.bounds).nodes
    requires f.edges == CRows(ids, rel, e.bounds).edges + if e.importsItself then SelfEdge(ids, rel) else map[]
    ensures SyncFile(g, ids, rel, e) == f.Apply(g)
  {
    var rows := CRows(ids, rel, e.bounds);
    SyncFileOpened(g, ids, rel, e);
    ReindexNodes(g, f, FileRow(rel, e), rows.nodes);
    ReindexEdges(g, f);
    ImportOnTop(f.KeptEdges(g.edges), rows.edges, SelfEdge(ids, rel));
  }

  lemma SyncFileOpened(g: Graph, ids: IdScheme, rel: string, e: Entry)
    requires e.File? && e.textLike
    ensures var g1, rows := g.(nodes := g.nodes[BId(rel) := FileRow(rel, e)]), CRows(ids, rel, e.bounds);
            var edges := (g.edges - Touching(g.edges, {BId(rel)})) + rows.edges;
            SyncFile(g, ids, rel, e) == Graph((g1.nodes - AtPath(g1, "C", Strip(rel))) + rows.nodes,
                                              if e.importsItself then edges + SelfEdge(ids, rel) else edges, g.rev)
  {
    var g1 := g.(nodes := g.nodes[BId(rel) := FileRow(rel, e)]);
    var g2 := g1.(edges := g1.edges - Touching(g1.edges, {BId(rel)}));
    var g3 := g2.(nodes := g2.nodes - AtPath(g2, "C", Strip(rel)));
    PutBoundsShape(g3, ids, rel, e.bounds);
    assert AtPath(g2, "C", Strip(rel)) == AtPath(g1, "C", Strip(rel));
    PutIsOverlay(PutBounds(g3, ids, rel, e.bounds).edges, IdOf(ids, Imports(BId(rel), BId(rel))),
        Imports(BId(rel), BId(rel)));
  }

  lemma PutIsOverlay(m: map<string, Edge>, k: string, e: Edge)
    ensures m[k := e] == m + map[k := e]
  {
  }

  lemma ImportOnTop(kept: map<string, Edge>, rows: map<string, Edge>, self: map<string, Edge>)
    ensures (kept + rows) + self == kept + (rows + self)
    ensures kept + (rows + map[]) == kept + rows
  {
  }

  /** Where a derived row can sit: at the file's own id, or at a C id that spells the stripped path. */
  predicate OwnId(rel: string, id: string) {
    var p := Strip(rel);
    id == BId(rel) || (|id| == 3 + |p| + DIGEST_LENGTH && id[0] == 'C' && id[2..2 + |p|] == p)
  }

  lemma CIdOwned(ids: IdScheme, rel: string, b: Boundary)
    requires Sound(ids)
    ensures OwnId(rel, CId(ids, rel, b)) && CId(ids, rel, b) != BId(rel) && "C" <= CId(ids, rel, b)
  {
    var p := Strip(rel);
    var d, id := ids.cDigest(p, b.symbolKey, b.sha), CId(ids, rel, b);
    assert |d| == DIGEST_LENGTH;
    assert id == "C:" + p + "#" + d;
    assert id[2..2 + |p|] == p;
    assert id[0] == 'C' && BId(rel)[0] == 'B';
  }

  lemma {:induction false} CRowsOwned(ids: IdScheme, rel: string, bounds: seq<Boundary>)
    requires Sound(ids)
    ensures var nodes := CRows(ids, rel, bounds).nodes;
            forall k :: k in nodes ==> OwnId(rel, k) && k != BId(rel) && nodes[k].level == "C" && nodes[k].path == rel
    ensures var edges := CRows(ids, rel, bounds).edges;
            forall k :: k in edges ==> k == IdOf(ids, edges[k]) && edges[k].src == BId(rel) && "C" <= edges[k].dst
    decreases |bounds|
  {
    if bounds != [] {
      CRowsOwned(ids, rel, bounds[..|bounds| - 1]);
      CIdOwned(ids, rel, bounds[|bounds| - 1]);
    }
  }

  lemma {:induction false} CRowsKeys(ids: IdScheme, rel: string, bounds: seq<Boundary>)
    ensures forall k :: k in CRows(ids, rel, bounds).nodes <==> exists x :: x in bounds && k == CId(ids, rel, x)
    decreases |bounds|
  {
    if bounds != [] {
      var front, last := bounds[..|bounds| - 1], bounds[|bounds| - 1];
      CRowsKeys(ids, rel, front);
      assert forall x :: x in bounds <==> x in front || x == last by {
        assert bounds == front + [last];
      }
    }
  }

  /** The last of the segments that is stored under `id`. */
  function LastSegment(ids: IdScheme, rel: string, bounds: seq<Boundary>, id: string): Option<Boundary> {
    if bounds == [] then None
    else
      var b := bounds[|bounds| - 1];
      if id == "C:" + Strip(rel) + "#" + ids.cDigest(Strip(rel), b.symbolKey, b.sha) then Some(b)
      else LastSegment(ids, rel, bounds[..|bounds| - 1], id)
  }

  /** The containment edge of one of the segments is stored under `id`. */
  function LastContained(ids: IdScheme, rel: string, bounds: seq<Boundary>, id: string): Option<string> {
    if bounds == [] then None
    else
      var b := bounds[|bounds| - 1];
      var child := "C:" + Strip(rel) + "#" + ids.cDigest(Strip(rel), b.symbolKey, b.sha);
      if id == ids.edgeId("containment", "contains", "B:" + rel, child) then Some(child)
      else LastContained(ids, rel, bounds[..|bounds| - 1], id)
  }

  function Lookup<V>(m: map<string, V>, id: string): Option<V> {
    if id in m then Some(m[id]) else None
  }

  /** The node that syncing a file derives for `id`, field by field. */
  function DerivedNode(ids: IdScheme, rel: string, f: Entry, id: string): Option<Node>
    requires f.File?
  {
    if id == "B:" + rel then
      Some(Node("B", "file", rel, f.title, "File", f.attrs, f.hash, "fresh", DEFAULT_CONTRACT, ""))
    else if !f.textLike then None
    else
      match LastSegment(ids, rel, f.bounds, id)
      case None => None
      case Some(b) => Some(Node("C", b.kind, rel, b.title, b.summary, b.attrs, b.sha, "fresh", DEFAULT_CONTRACT, ""))
  }

  /** The edge that syncing a file derives for `id`, field by field. */
  function DerivedEdge(ids: IdScheme, rel: string, f: Entry, id: string): Option<Edge>
    requires f.File?
  {
    var me := "B:" + rel;
    if !f.textLike then None
    else if f.importsItself && id == ids.edgeId("cross_link", "imports", me, me) then
      Some(Edge("cross_link", "imports", me, me, 0.6, DEFAULT_CONTRACT, ""))
    else
      match LastContained(ids, rel, f.bounds, id)
      case None => None
      case Some(child) => Some(Edge("containment", "contains", me, child, 1.0, DEFAULT_CONTRACT, ""))
  }

  lemma {:induction false} CRowsFound(ids: IdScheme, rel: string, bounds: seq<Boundary>, id: string)
    ensures Lookup(CRows(ids, rel, bounds).nodes, id) ==
            match LastSegment(ids, rel, bounds, id)
            case None => None
            case Some(b) => Some(Node("C", b.kind, rel, b.title, b.summary, b.attrs, b.sha, "fresh", DEFAULT_CONTRACT,
                                      ""))
    ensures Lookup(CRows(ids, rel, bounds).edges, id) ==
            match LastContained(ids, rel, bounds, id)
            case None => None
            case Some(child) => Some(Edge("containment", "contains", "B:" + rel, child, 1.0, DEFAULT_CONTRACT, ""))
    decreases |bounds|
  {
    if bounds != [] {
      CRowsFound(ids, rel, bounds[..|bounds| - 1], id);
    }
  }

  /**
   * What a sync leaves under an id. A missing file has its node marked stale; a file has its own rows derived afresh,
   * and a text file loses the C nodes at its path and the edges at its node that are not derived again.
   */
  lemma SyncedNodeMeans(g: Graph, ids: IdScheme, disk: Disk, rel: string, id: string)
    requires Sound(ids)
    ensures var after := Lookup(SyncOne(g, ids, disk, rel).nodes, id);
            after ==
            if rel !in disk then
              if id in g.nodes && id == "B:" + rel then Some(g.nodes[id].(staleness := "stale", updatedAt := ""))
              else Lookup(g.nodes, id)
            else if disk[rel].Directory? then Lookup(g.nodes, id)
            else if DerivedNode(ids, rel, disk[rel], id).Some? then DerivedNode(ids, rel, disk[rel], id)
            else if id in g.nodes && disk[rel].textLike && g.nodes[id].level == "C" && g.nodes[id].path == Strip(rel)
            then None
            else Lookup(g.nodes, id)
  {
    SyncShape(g, ids, disk, rel);
    if rel in disk && disk[rel].File? {
      CRowsFound(ids, rel, disk[rel].bounds, id);
      CRowsOwned(ids, rel, disk[rel].bounds);
    }
  }

  lemma SyncedEdgeMeans(g: Graph, ids: IdScheme, disk: Disk, rel: string, id: string)
    ensures var after := Lookup(SyncOne(g, ids, disk, rel).edges, id);
            after ==
            if rel !in disk || disk[rel].Directory? then Lookup(g.edges, id)
            else if DerivedEdge(ids, rel, disk[rel], id).Some? then DerivedEdge(ids, rel, disk[rel], id)
            else if id in g.edges && disk[rel].textLike
                    && (g.edges[id].src == "B:" + rel || g.edges[id].dst == "B:" + rel) then None
            else Lookup(g.edges, id)
  {
    SyncShape(g, ids, disk, rel);
    if rel in disk && disk[rel].File? {
      CRowsFound(ids, rel, disk[rel].bounds, id);
    }
  }

  /** The derived rows of a path carry its stripped name, so no path with another stripped name meets them. */
  lemma NewRowsOwned(ids: IdScheme, disk: Disk, rel: string)
    requires Sound(ids)
    ensures var nodes := NewNodes(ids, disk, rel);
            forall k :: k in nodes ==> OwnId(rel, k) && (nodes[k].level == "B" || nodes[k].path == rel)
    ensures var edges := NewEdges(ids, disk, rel);
            forall k :: k in edges ==>
              k == IdOf(ids, edges[k]) && edges[k].src == BId(rel) && (edges[k].dst == BId(rel) || "C" <= edges[k].dst)
  {
    if rel in disk && disk[rel].File? {
      CRowsOwned(ids, rel, disk[rel].bounds);
    }
  }

  lemma OwnersDiffer(a: string, b: string, id: string)
    requires OwnId(a, id) && OwnId(b, id)
    ensures Strip(a) == Strip(b)
  {
    if id == BId(a) && id == BId(b) {
      assert a == id[2..] && b == id[2..];
    } else if id == BId(a) || id == BId(b) {
      assert false;
    } else {
      assert |Strip(a)| == |Strip(b)|;
    }
  }

  // ---------------------------------------------------------------- commuting and idempotence

  /** What `f` lays down, `h` neither drops, ages nor overwrites. */
  ghost predicate Spares(h: Effect, f: Effect) {
    && h.nodes.Keys !! f.nodes.Keys && h.edges.Keys !! f.edges.Keys && h.bid != f.bid
    && (forall k :: k in f.nodes ==> k != h.bid && !h.DropsNode(f.nodes[k]))
    && (forall k :: k in f.edges ==> !h.DropsEdge(f.edges[k]))
  }

  lemma KeptOverlay(h: Effect, f: Effect, nodes: map<string, Node>, edges: map<string, Edge>)
    requires Spares(h, f)
    ensures h.KeptNodes(nodes + f.nodes) == h.KeptNodes(nodes) + f.nodes
    ensures h.KeptEdges(edges + f.edges) == h.KeptEdges(edges) + f.edges
  {
  }

  lemma KeptCommutes(h: Effect, f: Effect, nodes: map<string, Node>, edges: map<string, Edge>)
    requires h.bid != f.bid
    ensures h.KeptNodes(f.KeptNodes(nodes)) == f.KeptNodes(h.KeptNodes(nodes))
    ensures h.KeptEdges(f.KeptEdges(edges)) == f.KeptEdges(h.KeptEdges(edges))
  {
    KeptNodesCommute(h, f, nodes);
    KeptEdgesCommute(h, f, edges);
  }

  lemma KeptNodesCommute(h: Effect, f: Effect, nodes: map<string, Node>)
    requires h.bid != f.bid
    ensures h.KeptNodes(f.KeptNodes(nodes)) == f.KeptNodes(h.KeptNodes(nodes))
  {
    var hf, fh := h.KeptNodes(f.KeptNodes(nodes)), f.KeptNodes(h.KeptNodes(nodes));
    assert hf.Keys == fh.Keys;
  }

  lemma KeptEdgesCommute(h: Effect, f: Effect, edges: map<string, Edge>)
    ensures h.KeptEdges(f.KeptEdges(edges)) == f.KeptEdges(h.KeptEdges(edges))
  {
  }

  lemma OverlaysCommute<T>(m: map<string, T>, a: map<string, T>, b: map<string, T>)
    requires a.Keys !! b.Keys
    ensures (m + a) + b == (m + b) + a
  {
  }

  lemma ApplyCommutes(g: Graph, f: Effect, h: Effect)
    requires Spares(h, f) && Spares(f, h)
    ensures h.Apply(f.Apply(g)) == f.Apply(h.Apply(g))
  {
    KeptOverlay(h, f, f.KeptNodes(g.nodes), f.KeptEdges(g.edges));
    KeptOverlay(f, h, h.KeptNodes(g.nodes), h.KeptEdges(g.edges));
    KeptCommutes(h, f, g.nodes, g.edges);
    OverlaysCommute(h.KeptNodes(f.KeptNodes(g.nodes)), f.nodes, h.nodes);
    OverlaysCommute(h.KeptEdges(f.KeptEdges(g.edges)), f.edges, h.edges);
  }

  lemma ApplyIdempotent(g: Graph, f: Effect)
    ensures f.Apply(f.Apply(g)) == f.Apply(g)
  {
    assert f.Apply(f.Apply(g)).nodes == f.Apply(g).nodes;
    assert f.Apply(f.Apply(g)).edges == f.Apply(g).edges;
  }

  /** A path without outer blanks whose segments a re-index deletes. */
  predicate Deletable(disk: Disk, rel: string)
    requires Reindexes(disk, rel)
  {
    Strip(rel) == rel && disk[rel].bounds != []
  }

  ghost predicate ShareId(ids: IdScheme, disk: Disk, a: string, b: string)
    requires Reindexes(disk, a) && Reindexes(disk, b)
  {
    exists x, y :: x in disk[a].bounds && y in disk[b].bounds && CId(ids, a, x) == CId(ids, b, y)
  }

  /**
   * Two paths differ only in outer blanks, both are re-indexed, and one deletes the segments of the other or writes to
   * the same ids.
   */
  ghost predicate Collide(ids: IdScheme, disk: Disk, a: string, b: string) {
    && a != b && Strip(a) == Strip(b) && Reindexes(disk, a) && Reindexes(disk, b)
    && (Deletable(disk, a) || Deletable(disk, b) || ShareId(ids, disk, a, b))
  }

  lemma CollideSymmetric(ids: IdScheme, disk: Disk, a: string, b: string)
    ensures Collide(ids, disk, a, b) <==> Collide(ids, disk, b, a)
  {
    if a != b && Strip(a) == Strip(b) && Reindexes(disk, a) && Reindexes(disk, b) {
      ShareIdSwap(ids, disk, a, b);
      ShareIdSwap(ids, disk, b, a);
    }
  }

  lemma ShareIdSwap(ids: IdScheme, disk: Disk, a: string, b: string)
    requires Reindexes(disk, a) && Reindexes(disk, b)
    ensures ShareId(ids, disk, a, b) ==> ShareId(ids, disk, b, a)
  {
    if ShareId(ids, disk, a, b) {
      var x, y :| x in disk[a].bounds && y in disk[b].bounds && CId(ids, a, x) == CId(ids, b, y);
      assert y in disk[b].bounds && x in disk[a].bounds && CId(ids, b, y) == CId(ids, a, x);
    }
  }

  /** A derived node is the file's own, or one of its segments. */
  lemma NewNodeIs(ids: IdScheme, disk: Disk, rel: string, k: string)
    requires Sound(ids) && k in NewNodes(ids, disk, rel)
    ensures var n := NewNodes(ids, disk, rel)[k];
            || (k == BId(rel) && n.level == "B")
            || (Reindexes(disk, rel) && n.level == "C" && n.path == rel && k != BId(rel)
                && exists x :: x in disk[rel].bounds && k == CId(ids, rel, x))
  {
    CRowsOwned(ids, rel, disk[rel].bounds);
    CRowsKeys(ids, rel, disk[rel].bounds);
  }

  lemma SegmentIdsAreNotFileIds(ids: IdScheme, disk: Disk, rel: string, other: string)
    ensures forall x :: CId(ids, rel, x) != BId(other)
  {
    forall x ensures CId(ids, rel, x) != BId(other) {
      assert CId(ids, rel, x)[0] == 'C' && BId(other)[0] == 'B';
    }
  }

  /** Only colliding paths derive a node under the same id. */
  lemma SharedNode(ids: IdScheme, disk: Disk, a: string, b: string, k: string)
    requires Sound(ids) && a != b && k in NewNodes(ids, disk, a) && k in NewNodes(ids, disk, b)
    ensures Collide(ids, disk, a, b)
  {
    assert BId(a)[2..] == a && BId(b)[2..] == b;
    NewNodeIs(ids, disk, a, k);
    NewNodeIs(ids, disk, b, k);
    NewRowsOwned(ids, disk, a);
    NewRowsOwned(ids, disk, b);
    OwnersDiffer(a, b, k);
    SegmentIdsAreNotFileIds(ids, disk, a, b);
    SegmentIdsAreNotFileIds(ids, disk, b, a);
    assert ShareId(ids, disk, a, b);
  }

  /** Only colliding paths delete what the other derives. */
  lemma DroppedNode(ids: IdScheme, disk: Disk, a: string, b: string, k: string)
    requires Sound(ids) && a != b && k in NewNodes(ids, disk, a)
    requires EffectOf(ids, disk, b).DropsNode(NewNodes(ids, disk, a)[k])
    ensures Collide(ids, disk, a, b)
  {
    NewNodeIs(ids, disk, a, k);
    StripTwice(b);
    assert Deletable(disk, a);
  }

  lemma NotFileId(ids: IdScheme, disk: Disk, a: string, b: string, k: string)
    requires Sound(ids) && a != b && k in NewNodes(ids, disk, a)
    ensures k != BId(b)
  {
    assert BId(a)[2..] == a && BId(b)[2..] == b;
    NewNodeIs(ids, disk, a, k);
    SegmentIdsAreNotFileIds(ids, disk, a, b);
  }

  lemma EffectsSpare(ids: IdScheme, disk: Disk, a: string, b: string)
    requires Sound(ids) && a != b && !Collide(ids, disk, a, b)
    ensures Spares(EffectOf(ids, disk, b), EffectOf(ids, disk, a))
  {
    NewRowsOwned(ids, disk, a);
    NewRowsOwned(ids, disk, b);
    var f, h := EffectOf(ids, disk, a), EffectOf(ids, disk, b);
    assert BId(a)[2..] == a && BId(b)[2..] == b && BId(b)[0] == 'B';
    forall k | k in f.nodes
      ensures k !in h.nodes && k != h.bid && !h.DropsNode(f.nodes[k])
    {
      NotFileId(ids, disk, a, b, k);
      if k in h.nodes {
        SharedNode(ids, disk, a, b, k);
      }
      if h.DropsNode(f.nodes[k]) {
        DroppedNode(ids, disk, a, b, k);
      }
    }
    forall k | k in f.edges
      ensures k !in h.edges && !h.DropsEdge(f.edges[k])
    {
      if k in h.edges {
        assert false;
      }
    }
  }

  lemma SyncCommutes(g: Graph, ids: IdScheme, disk: Disk, a: string, b: string)
    requires Sound(ids) && !Collide(ids, disk, a, b)
    ensures SyncOne(SyncOne(g, ids, disk, a), ids, disk, b) == SyncOne(SyncOne(g, ids, disk, b), ids, disk, a)
  {
    if a != b {
      var f, h := EffectOf(ids, disk, a), EffectOf(ids, disk, b);
      CollideSymmetric(ids, disk, a, b);
      EffectsSpare(ids, disk, a, b);
      EffectsSpare(ids, disk, b, a);
      SyncShape(g, ids, disk, a);
      SyncShape(g, ids, disk, b);
      SyncShape(f.Apply(g), ids, disk, b);
      SyncShape(h.Apply(g), ids, disk, a);
      ApplyCommutes(g, f, h);
    }
  }

  /** A segment of the path synced last is stored under that path. */
  lemma LastRow(g: Graph, ids: IdScheme, disk: Disk, rel: string, x: Boundary)
    requires Sound(ids) && Reindexes(disk, rel) && x in disk[rel].bounds
    ensures var h, c := SyncOne(g, ids, disk, rel), CId(ids, rel, x);
            c in h.nodes && h.nodes[c].level == "C" && h.nodes[c].path == rel
  {
    SyncShape(g, ids, disk, rel);
    CRowsKeys(ids, rel, disk[rel].bounds);
    CRowsOwned(ids, rel, disk[rel].bounds);
    assert CId(ids, rel, x) in CRows(ids, rel, disk[rel].bounds).nodes;
  }

  /** The segments of a deletable path do not survive the sync of another with the same stripped text. */
  lemma FirstRowGone(g: Graph, ids: IdScheme, disk: Disk, a: string, b: string, x: Boundary)
    requires Sound(ids) && a != b && Reindexes(disk, a) && Reindexes(disk, b) && Strip(b) == a && x in disk[a].bounds
    ensures var h, c := SyncOne(SyncOne(g, ids, disk, a), ids, disk, b), CId(ids, a, x);
            c in h.nodes ==> h.nodes[c].path != a
  {
    var c := CId(ids, a, x);
    LastRow(g, ids, disk, a, x);
    SyncShape(SyncOne(g, ids, disk, a), ids, disk, b);
    if c in NewNodes(ids, disk, b) {
      NewNodeIs(ids, disk, b, c);
      SegmentIdsAreNotFileIds(ids, disk, a, b);
    }
  }

  lemma OrdersDiffer(g: Graph, ids: IdScheme, disk: Disk, a: string, b: string)
    requires Sound(ids) && Collide(ids, disk, a, b)
    ensures SyncOne(SyncOne(g, ids, disk, a), ids, disk, b) != SyncOne(SyncOne(g, ids, disk, b), ids, disk, a)
  {
    if Deletable(disk, a) {
      var x := disk[a].bounds[0];
      FirstRowGone(g, ids, disk, a, b, x);
      LastRow(SyncOne(g, ids, disk, b), ids, disk, a, x);
    } else if Deletable(disk, b) {
      var y := disk[b].bounds[0];
      FirstRowGone(g, ids, disk, b, a, y);
      LastRow(SyncOne(g, ids, disk, a), ids, disk, b, y);
    } else {
      var x, y :| x in disk[a].bounds && y in disk[b].bounds && CId(ids, a, x) == CId(ids, b, y);
      LastRow(SyncOne(g, ids, disk, b), ids, disk, a, x);
      LastRow(SyncOne(g, ids, disk, a), ids, disk, b, y);
    }
  }

  /** From every content, the order of two paths is irrelevant exactly when they do not collide on the disk. */
  lemma SyncCommutesOnIff(g: Graph, ids: IdScheme, disk: Disk, a: string, b: string)
    requires Sound(ids)
    ensures SyncOne(SyncOne(g, ids, disk, a), ids, disk, b) == SyncOne(SyncOne(g, ids, disk, b), ids, disk, a)
            <==> !Collide(ids, disk, a, b)
  {
    if Collide(ids, disk, a, b) {
      OrdersDiffer(g, ids, disk, a, b);
    } else {
      SyncCommutes(g, ids, disk, a, b);
    }
  }

  // ---------------------------------------------------------------- what the paths alone decide

  /** Which suffixes count as text, and which paths are never segmented. */
  datatype Rules = Rules(textLike: string -> bool, forbidden: string -> bool)

  /** The decomposition service looks at the stripped path. */
  predicate Segmented(rules: Rules, rel: string) {
    rules.textLike(Strip(rel)) && !rules.forbidden(Strip(rel))
  }

  /** A disk as the indexer sees it: text or not is decided by the path, and so is whether there can be segments. */
  ghost predicate Respects(disk: Disk, rules: Rules) {
    forall r :: r in disk && disk[r].File? ==>
      disk[r].textLike == rules.textLike(r) && (disk[r].bounds != [] ==> Segmented(rules, r))
  }

  /** The paths are equal, differ in more than outer blanks, or one of them never brings or deletes segments. */
  predicate Independent(rules: Rules, a: string, b: string) {
    a == b || Strip(a) != Strip(b) || !rules.textLike(a) || !rules.textLike(b) || !Segmented(rules, a)
  }

  /** A text file with one segment. */
  const ONE_SEGMENT := File("", "", "", true, [Boundary("", "", "", "", "", "")], false)

  lemma IndependentNeverCollide(ids: IdScheme, disk: Disk, rules: Rules, a: string, b: string)
    requires Independent(rules, a, b) && Respects(disk, rules)
    ensures !Collide(ids, disk, a, b)
  {
  }

  lemma DependentCanCollide(ids: IdScheme, rules: Rules, a: string, b: string)
    requires !Independent(rules, a, b)
    ensures var disk := map[a := ONE_SEGMENT, b := ONE_SEGMENT]; Respects(disk, rules) && Collide(ids, disk, a, b)
  {
    var disk, x := map[a := ONE_SEGMENT, b := ONE_SEGMENT], ONE_SEGMENT.bounds[0];
    assert x in disk[a].bounds && x in disk[b].bounds && CId(ids, a, x) == CId(ids, b, x);
    assert ShareId(ids, disk, a, b);
  }

  /** On every disk and from every content the order of two paths is irrelevant, exactly when they are independent. */
  lemma SyncCommutesIff(ids: IdScheme, rules: Rules, a: string, b: string)
    requires Sound(ids)
    ensures (forall g, disk :: Respects(disk, rules) ==>
               SyncOne(SyncOne(g, ids, disk, a), ids, disk, b) == SyncOne(SyncOne(g, ids, disk, b), ids, disk, a))
            <==> Independent(rules, a, b)
  {
    if Independent(rules, a, b) {
      forall g, disk | Respects(disk, rules)
        ensures SyncOne(SyncOne(g, ids, disk, a), ids, disk, b) == SyncOne(SyncOne(g, ids, disk, b), ids, disk, a)
      {
        IndependentNeverCollide(ids, disk, rules, a, b);
        SyncCommutes(g, ids, disk, a, b);
      }
    } else {
      DependentCanCollide(ids, rules, a, b);
      OrdersDiffer(EMPTY, ids, map[a := ONE_SEGMENT, b := ONE_SEGMENT], a, b);
    }
  }

  /** Syncing an unchanged path again changes nothing. */
  lemma SyncIdempotent(g: Graph, ids: IdScheme, disk: Disk, rel: string)
    ensures SyncOne(SyncOne(g, ids, disk, rel), ids, disk, rel) == SyncOne(g, ids, disk, rel)
  {
    var f := EffectOf(ids, disk, rel);
    SyncShape(g, ids, disk, rel);
    SyncShape(f.Apply(g), ids, disk, rel);
    ApplyIdempotent(g, f);
  }

  // ---------------------------------------------------------------- any order, any number of times

  /** No path of the one list collides with one of the other. */
  ghost predicate NoneCollide(ids: IdScheme, disk: Disk, xs: seq<string>, ys: seq<string>) {
    forall x, y :: x in xs && y in ys ==> !Collide(ids, disk, x, y)
  }

  lemma {:induction false} SyncAbsorbs(g: Graph, ids: IdScheme, disk: Disk, rels: seq<string>, rel: string)
    requires Sound(ids) && NoneCollide(ids, disk, rels, [rel]) && rel in rels
    ensures SyncOne(SyncMany(g, ids, disk, rels), ids, disk, rel) == SyncMany(g, ids, disk, rels)
    decreases |rels|
  {
    var front, last := rels[..|rels| - 1], rels[|rels| - 1];
    var h := SyncMany(g, ids, disk, front);
    if last == rel {
      SyncIdempotent(h, ids, disk, rel);
    } else {
      assert rel in front by {
        var i :| 0 <= i < |rels| && rels[i] == rel;
        assert front[i] == rel;
      }
      SyncAbsorbs(g, ids, disk, front, rel);
      SyncCommutes(h, ids, disk, last, rel);
    }
  }

  lemma {:induction false} SyncManyAppend(g: Graph, ids: IdScheme, disk: Disk, xs: seq<string>, ys: seq<string>)
    ensures SyncMany(g, ids, disk, xs + ys) == SyncMany(SyncMany(g, ids, disk, xs), ids, disk, ys)
    decreases |ys|
  {
    if ys == [] {
      assert xs + ys == xs;
    } else {
      SyncManyAppend(g, ids, disk, xs, ys[..|ys| - 1]);
      assert (xs + ys)[..|xs + ys| - 1] == xs + ys[..|ys| - 1];
    }
  }

  lemma {:induction false} SyncMoves(g: Graph, ids: IdScheme, disk: Disk, rels: seq<string>, rel: string)
    requires Sound(ids) && NoneCollide(ids, disk, rels, [rel])
    ensures SyncMany(SyncOne(g, ids, disk, rel), ids, disk, rels)
            == SyncOne(SyncMany(g, ids, disk, rels), ids, disk, rel)
    decreases |rels|
  {
    if rels != [] {
      var front, last := rels[..|rels| - 1], rels[|rels| - 1];
      assert last in rels && rel in [rel];
      SyncMoves(g, ids, disk, front, rel);
      CollideSymmetric(ids, disk, last, rel);
      SyncCommutes(SyncMany(g, ids, disk, front), ids, disk, rel, last);
    }
  }

  lemma {:induction false} SyncSwaps(g: Graph, ids: IdScheme, disk: Disk, xs: seq<string>, ys: seq<string>)
    requires Sound(ids) && NoneCollide(ids, disk, xs, ys)
    ensures SyncMany(SyncMany(g, ids, disk, xs), ids, disk, ys) == SyncMany(SyncMany(g, ids, disk, ys), ids, disk, xs)
    decreases |xs|
  {
    if xs != [] {
      var front, last := xs[..|xs| - 1], xs[|xs| - 1];
      assert last in xs;
      SyncSwaps(g, ids, disk, front, ys);
      SyncMoves(SyncMany(g, ids, disk, front), ids, disk, ys, last);
    }
  }

  lemma {:induction false} SyncAbsorbsAll(g: Graph, ids: IdScheme, disk: Disk, xs: seq<string>, ys: seq<string>)
    requires Sound(ids) && NoneCollide(ids, disk, xs, ys) && forall y :: y in ys ==> y in xs
    ensures SyncMany(SyncMany(g, ids, disk, xs), ids, disk, ys) == SyncMany(g, ids, disk, xs)
    decreases |ys|
  {
    if ys != [] {
      assert ys[|ys| - 1] in ys;
      SyncAbsorbsAll(g, ids, disk, xs, ys[..|ys| - 1]);
      SyncAbsorbs(g, ids, disk, xs, ys[|ys| - 1]);
    }
  }

  /** The content after syncing a list of paths depends only on which paths it names. */
  lemma SyncDependsOnPathSet(g: Graph, ids: IdScheme, disk: Disk, xs: seq<string>, ys: seq<string>)
    requires Sound(ids) && NoneCollide(ids, disk, xs, xs)
    requires forall p :: p in xs <==> p in ys
    ensures SyncMany(g, ids, disk, xs) == SyncMany(g, ids, disk, ys)
  {
    SyncAbsorbsAll(g, ids, disk, xs, ys);
    SyncAbsorbsAll(g, ids, disk, ys, xs);
    SyncSwaps(g, ids, disk, xs, ys);
  }

  ghost predicate SamePaths(xs: seq<string>, ys: seq<string>) {
    forall p :: p in xs <==> p in ys
  }

  /** From every content, it does so exactly when no two of the paths collide on the disk. */
  lemma SyncDependsOnPathSetOnIff(g: Graph, ids: IdScheme, disk: Disk, xs: seq<string>)
    requires Sound(ids)
    ensures (forall ys :: SamePaths(xs, ys) ==> SyncMany(g, ids, disk, xs) == SyncMany(g, ids, disk, ys))
            <==> NoneCollide(ids, disk, xs, xs)
  {
    if NoneCollide(ids, disk, xs, xs) {
      forall ys | SamePaths(xs, ys) ensures SyncMany(g, ids, disk, xs) == SyncMany(g, ids, disk, ys) {
        SyncDependsOnPathSet(g, ids, disk, xs, ys);
      }
    } else {
      var a, b :| a in xs && b in xs && Collide(ids, disk, a, b);
      LastPathsDecide(g, ids, disk, xs, a, b);
    }
  }

  lemma LastPathsDecide(g: Graph, ids: IdScheme, disk: Disk, xs: seq<string>, a: string, b: string)
    requires Sound(ids) && a in xs && b in xs && Collide(ids, disk, a, b)
    ensures exists ys :: SamePaths(xs, ys) && SyncMany(g, ids, disk, xs) != SyncMany(g, ids, disk, ys)
  {
    var ab, ba := xs + [a] + [b], xs + [b] + [a];
    SyncManySnoc(g, ids, disk, xs, a);
    SyncManySnoc(g, ids, disk, xs + [a], b);
    SyncManySnoc(g, ids, disk, xs, b);
    SyncManySnoc(g, ids, disk, xs + [b], a);
    OrdersDiffer(SyncMany(g, ids, disk, xs), ids, disk, a, b);
    assert SamePaths(xs, ab) && SamePaths(xs, ba);
  }

  /** It does so on every disk and from every content exactly when the paths are independent of each other. */
  lemma SyncDependsOnPathSetIff(ids: IdScheme, rules: Rules, xs: seq<string>)
    requires Sound(ids)
    ensures (forall g, disk, ys :: Respects(disk, rules) && SamePaths(xs, ys) ==>
               SyncMany(g, ids, disk, xs) == SyncMany(g, ids, disk, ys))
            <==> forall a, b :: a in xs && b in xs ==> Independent(rules, a, b)
  {
    if forall a, b :: a in xs && b in xs ==> Independent(rules, a, b) {
      forall g, disk, ys | Respects(disk, rules) && SamePaths(xs, ys)
        ensures SyncMany(g, ids, disk, xs) == SyncMany(g, ids, disk, ys)
      {
        forall a, b | a in xs && b in xs ensures !Collide(ids, disk, a, b) {
          IndependentNeverCollide(ids, disk, rules, a, b);
        }
        SyncDependsOnPathSet(g, ids, disk, xs, ys);
      }
    } else {
      var a, b :| a in xs && b in xs && !Independent(rules, a, b);
      DependentCanCollide(ids, rules, a, b);
      LastPathsDecide(EMPTY, ids, map[a := ONE_SEGMENT, b := ONE_SEGMENT], xs, a, b);
    }
  }

  /** Several `sync_changes` calls, one after the other; each syncs its sorted work list. */
  function SyncCalls(g: Graph, ids: IdScheme, disk: Disk, calls: seq<seq<string>>): Graph {
    if calls == [] then g
    else SyncMany(SyncCalls(g, ids, disk, calls[..|calls| - 1]), ids, disk, Worklist(calls[|calls| - 1]))
  }

  function AllPaths(calls: seq<seq<string>>): seq<string> {
    if calls == [] then [] else AllPaths(calls[..|calls| - 1]) + Worklist(calls[|calls| - 1])
  }

  lemma {:induction false} SyncCallsFlatten(g: Graph, ids: IdScheme, disk: Disk, calls: seq<seq<string>>)
    ensures SyncCalls(g, ids, disk, calls) == SyncMany(g, ids, disk, AllPaths(calls))
    decreases |calls|
  {
    if calls != [] {
      SyncCallsFlatten(g, ids, disk, calls[..|calls| - 1]);
      SyncManyAppend(g, ids, disk, AllPaths(calls[..|calls| - 1]), Worklist(calls[|calls| - 1]));
    }
  }

  /**
   * On an unchanged disk without directories among the paths, two histories of sync calls that name the
   * same normalised paths leave the same content: one call or many, in any order, any number of times.
   */
  lemma SyncHistoriesAgree(g: Graph, ids: IdScheme, disk: Disk, once: seq<seq<string>>, again: seq<seq<string>>)
    requires Sound(ids) && NoneCollide(ids, disk, AllPaths(once), AllPaths(once))
    requires forall p :: p in AllPaths(once) <==> p in AllPaths(again)
    requires forall p :: p in AllPaths(once) && p in disk ==> disk[p].File?
    ensures SyncCalls(g, ids, disk, once) == SyncCalls(g, ids, disk, again)
  {
    SyncCallsFlatten(g, ids, disk, once);
    SyncCallsFlatten(g, ids, disk, again);
    SyncDependsOnPathSet(g, ids, disk, AllPaths(once), AllPaths(again));
  }

  // ---------------------------------------------------------------- frame and purpose

  /** A node that has nothing to do with a path: neither its id nor the stripped path it is stored under. */
  predicate ForeignNode(rel: string, id: string, n: Node) {
    !OwnId(rel, id) && !(n.level == "C" && n.path == Strip(rel))
  }

  predicate ForeignEdge(rel: string, e: Edge) {
    e.src != BId(rel) && e.dst != BId(rel)
  }

  /** What every sync of the paths leaves alone under an id: foreign rows stay, and none appear. */
  ghost predicate Framed(g: Graph, h: Graph, ids: IdScheme, rels: seq<string>, id: string) {
    && (id in g.nodes && (forall r :: r in rels ==> ForeignNode(r, id, g.nodes[id])) ==>
          id in h.nodes && h.nodes[id] == g.nodes[id])
    && (id !in g.nodes && (forall r :: r in rels ==> !OwnId(r, id)) ==> id !in h.nodes)
    && (id in g.edges && id == IdOf(ids, g.edges[id]) && (forall r :: r in rels ==> ForeignEdge(r, g.edges[id])) ==>
          id in h.edges && h.edges[id] == g.edges[id])
    && (id in h.edges && (forall r :: r in rels ==> ForeignEdge(r, h.edges[id])) ==>
          id in g.edges && g.edges[id] == h.edges[id])
  }

  /** No other file's rows: a foreign node or edge stays as it was, and none appears. */
  lemma SyncFrame(g: Graph, ids: IdScheme, disk: Disk, rel: string, id: string)
    requires Sound(ids)
    ensures Framed(g, SyncOne(g, ids, disk, rel), ids, [rel], id)
  {
    SyncShape(g, ids, disk, rel);
    NewRowsOwned(ids, disk, rel);
    assert rel in [rel];
    if id in g.edges && id == IdOf(ids, g.edges[id]) && id in NewEdges(ids, disk, rel) {
      assert IdOf(ids, NewEdges(ids, disk, rel)[id]) == IdOf(ids, g.edges[id]);
      assert g.edges[id].src == BId(rel);
    }
  }

  /** The same for any number of syncs: no row foreign to all the paths changes. */
  lemma {:induction false} SyncManyFrame(g: Graph, ids: IdScheme, disk: Disk, rels: seq<string>, id: string)
    requires Sound(ids)
    ensures Framed(g, SyncMany(g, ids, disk, rels), ids, rels, id)
    decreases |rels|
  {
    if rels != [] {
      var front, last := rels[..|rels| - 1], rels[|rels| - 1];
      var mid := SyncMany(g, ids, disk, front);
      SyncManyFrame(g, ids, disk, front, id);
      SyncFrame(mid, ids, disk, last, id);
      FramesCompose(g, mid, SyncOne(mid, ids, disk, last), ids, front, last, id);
      assert rels == front + [last];
    }
  }

  lemma FramesCompose(g: Graph, mid: Graph, h: Graph, ids: IdScheme, front: seq<string>, last: string, id: string)
    requires Framed(g, mid, ids, front, id) && Framed(mid, h, ids, [last], id)
    ensures Framed(g, h, ids, front + [last], id)
  {
    assert forall r :: r in front + [last] <==> r in front || r in [last];
  }

  lemma SyncCallsFrame(g: Graph, ids: IdScheme, disk: Disk, calls: seq<seq<string>>, id: string)
    requires Sound(ids)
    ensures Framed(g, SyncCalls(g, ids, disk, calls), ids, AllPaths(calls), id)
  {
    SyncCallsFlatten(g, ids, disk, calls);
    SyncManyFrame(g, ids, disk, AllPaths(calls), id);
  }

  /**
   * The purpose of a re-index, and where it fails: a leftover C node of the file disappears exactly when
   * the path has no blank at its ends (`./ x.py` normalises to a path that still begins with one).
   */
  lemma LeftoverDroppedIffClean(g: Graph, ids: IdScheme, disk: Disk, rel: string, id: string)
    requires Reindexes(disk, rel) && id in g.nodes && g.nodes[id].level == "C" && g.nodes[id].path == rel
    requires id !in NewNodes(ids, disk, rel)
    ensures id !in SyncOne(g, ids, disk, rel).nodes <==> Strip(rel) == rel
  {
    SyncShape(g, ids, disk, rel);
  }

  /** A re-index forgets who contained the file: the only edge into it that survives is its own import edge. */
  lemma SyncDropsParentEdge(g: Graph, ids: IdScheme, disk: Disk, rel: string, id: string)
    requires Sound(ids) && Reindexes(disk, rel)
    requires id in SyncOne(g, ids, disk, rel).edges && SyncOne(g, ids, disk, rel).edges[id].dst == BId(rel)
    ensures disk[rel].importsItself && SyncOne(g, ids, disk, rel).edges[id] == Imports(BId(rel), BId(rel))
  {
    SyncShape(g, ids, disk, rel);
    CRowsOwned(ids, rel, disk[rel].bounds);
    assert BId(rel)[0] == 'B';
  }

  /** Two paths that differ only in an outer blank: syncing the second erases the C nodes of the first. */
  lemma BlankPathsDoNotCommute(ids: IdScheme, rel: string, f: Entry, other: Entry)
    requires CleanPath(rel) && Strip(" " + rel) == rel && f.File? && f.textLike && other.File? && other.textLike
             && other.bounds == []
    requires |f.bounds| == 1
    ensures var disk := map[rel := f, " " + rel := other];
            var ab := SyncOne(SyncOne(EMPTY, ids, disk, rel), ids, disk, " " + rel);
            var ba := SyncOne(SyncOne(EMPTY, ids, disk, " " + rel), ids, disk, rel);
            ab != ba
  {
    var disk := map[rel := f, " " + rel := other];
    var c, odd := CId(ids, rel, f.bounds[0]), " " + rel;
    var a, b := SyncOne(EMPTY, ids, disk, rel), SyncOne(EMPTY, ids, disk, odd);
    assert odd != rel;
    SyncShape(EMPTY, ids, disk, rel);
    SyncShape(a, ids, disk, odd);
    SyncShape(b, ids, disk, rel);
    OneSegment(ids, rel, f.bounds);
    assert c[0] == 'C' && BId(odd)[0] == 'B' && BId(rel)[0] == 'B';
    assert c in NewNodes(ids, disk, rel) && NewNodes(ids, disk, rel)[c] == CRow(rel, f.bounds[0]);
    assert c in SyncOne(b, ids, disk, rel).nodes;
    assert c !in NewNodes(ids, disk, odd);
    assert EffectOf(ids, disk, odd).DropsNode(CRow(rel, f.bounds[0]));
  }

  lemma OneSegment(ids: IdScheme, rel: string, bounds: seq<Boundary>)
    requires |bounds| == 1
    ensures CRows(ids, rel, bounds).nodes == map[CId(ids, rel, bounds[0]) := CRow(rel, bounds[0])]
  {
    assert bounds[..|bounds| - 1] == [];
    assert PutBounds(EMPTY, ids, rel, []) == EMPTY;
  }
}
