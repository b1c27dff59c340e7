/**
 * Incremental indexing: re-deriving the file node, the C nodes and the edges of changed files.
 *
 * Content is compared without `updated_at` and without the revision counter.
 */
module PagIndexer {
  import opened Text
  import opened Ordering
  import opened PagStore

  // ---------------------------------------------------------------- the disk, and ids

  /** One segment of a file, as the decomposition service returns it. */
  datatype Boundary = Boundary(symbolKey: string, sha: string, title: string, kind: string, summary: string,
                               attrs: string)

  /** What is found at a relative path. `importsItself`: a Python file importing its own top-level package. */
  datatype Entry =
    | Directory
    | File(title: string, attrs: string, hash: string, textLike: bool, bounds: seq<Boundary>, importsItself: bool)

  type Disk = map<string, Entry>

  /** The two truncated SHA-1 digests the ids are built from. */
  datatype IdScheme = IdScheme(cDigest: (string, string, string) -> string,
                               edgeId: (string, string, string, string) -> string)

  const DIGEST_LENGTH := 16

  /** Digests have 16 printable characters; edge ids tell their four parts apart. */
  ghost predicate Sound(ids: IdScheme) {
    && (forall r, s, h :: |ids.cDigest(r, s, h)| == DIGEST_LENGTH && Stripped(ids.cDigest(r, s, h)))
    && (forall c, t, f, d :: ids.edgeId(c, t, f, d) != "" && Stripped(ids.edgeId(c, t, f, d)))
    && (forall c, t, f, d, c', t', f', d' :: ids.edgeId(c, t, f, d) == ids.edgeId(c', t', f', d') ==>
          c == c' && t == t' && f == f' && d == d')
  }

  function BId(rel: string): string {
    "B:" + rel
  }

  function CId(ids: IdScheme, rel: string, b: Boundary): string {
    "C:" + Strip(rel) + "#" + ids.cDigest(Strip(rel), b.symbolKey, b.sha)
  }

  function DropDots(s: string): string {
    if s != "" && (s[0] == '.' || s[0] == '/') then DropDots(s[1..]) else s
  }

  function Slashes(s: string): string {
    seq(|s|, i requires 0 <= i < |s| => if s[i] == '\\' then '/' else s[i])
  }

  /** `str(p).replace("\\", "/").strip().lstrip("./")` */
  function NormRel(p: string): string {
    DropDots(Strip(Slashes(p)))
  }

  lemma {:induction false} DropDotsKeepsEnd(s: string)
    ensures DropDots(s) == "" || (s != "" && DropDots(s)[|DropDots(s)| - 1] == s[|s| - 1])
    decreases |s|
  {
    if s != "" && (s[0] == '.' || s[0] == '/') {
      DropDotsKeepsEnd(s[1..]);
    }
  }

  /** A normalised path never ends in a blank, though it may still begin with one. */
  lemma NormRelEnd(p: string)
    ensures NormRel(p) == "" || !IsSpace(NormRel(p)[|NormRel(p)| - 1])
  {
    StripIsStripped(Slashes(p));
    DropDotsKeepsEnd(Strip(Slashes(p)));
  }

  lemma {:induction false} DropDotsMeans(s: string) returns (k: nat)
    ensures k <= |s| && DropDots(s) == s[k..] && forall i :: 0 <= i < k ==> s[i] == '.' || s[i] == '/'
    ensures k < |s| ==> s[k] != '.' && s[k] != '/'
  {
    k := 0;
    if s != "" && (s[0] == '.' || s[0] == '/') {
      var n := DropDotsMeans(s[1..]);
      k := n + 1;
    }
  }

  /** `r` is `p` from `b` to `c` with slashes turned, between blanks, then dots and slashes, and blanks. */
  ghost predicate CutFrom(p: string, r: string, a: nat, b: nat, c: nat) {
    && a <= b <= c <= |p| && |r| == c - b
    && (forall i :: 0 <= i < |r| ==> r[i] == if p[b + i] == '\\' then '/' else p[b + i])
    && (forall i :: 0 <= i < a || c <= i < |p| ==> IsSpace(p[i]))
    && (forall i :: a <= i < b ==> p[i] == '.' || p[i] == '/' || p[i] == '\\')
    && (a < |p| && a < c ==> !IsSpace(p[a]))
  }

  /** Neither backslash, nor a dot or a slash in front, nor a blank at the end. */
  predicate NormalForm(r: string) {
    '\\' !in r && (r != "" ==> r[0] != '.' && r[0] != '/' && !IsSpace(r[|r| - 1]))
  }

  lemma CutOut(p: string, a: nat, b: nat, c: nat)
    requires a <= b <= c <= |p|
    requires forall i :: 0 <= i < a || c <= i < |p| ==> IsSpace(Slashes(p)[i])
    requires forall i :: a <= i < b ==> Slashes(p)[i] == '.' || Slashes(p)[i] == '/'
    requires a < c ==> !IsSpace(Slashes(p)[a])
    ensures CutFrom(p, Slashes(p)[b..c], a, b, c)
  {
    forall i | 0 <= i < |p| ensures Slashes(p)[i] == if p[i] == '\\' then '/' else p[i] {}
  }

  lemma DroppedDots(s: string) returns (a: nat, b: nat, c: nat)
    ensures a <= b <= c <= |s| && DropDots(Strip(s)) == s[b..c]
    ensures forall i :: 0 <= i < a || c <= i < |s| ==> IsSpace(s[i])
    ensures forall i :: a <= i < b ==> s[i] == '.' || s[i] == '/'
    ensures a < c ==> !IsSpace(s[a])
    ensures b < c ==> s[b] != '.' && s[b] != '/' && !IsSpace(s[c - 1])
  {
    a, c := StripMeans(s);
    var text := s[a..c];
    var k := DropDotsMeans(text);
    b := a + k;
    assert text[k..] == s[b..c];
    assert forall i :: 0 <= i < |text| ==> text[i] == s[a + i];
    forall i | a <= i < b ensures s[i] == '.' || s[i] == '/' {
      assert s[i] == text[i - a];
    }
    if a < c {
      assert text[0] == s[a] && text[|text| - 1] == s[c - 1];
    }
  }

  /** What is left of a path, and that nothing else of it changes but the direction of its slashes. */
  lemma NormRelMeans(p: string) returns (a: nat, b: nat, c: nat)
    ensures NormalForm(NormRel(p)) && CutFrom(p, NormRel(p), a, b, c)
  {
    a, b, c := DroppedDots(Slashes(p));
    CutOut(p, a, b, c);
    var r := NormRel(p);
    forall i | 0 <= i < |r| ensures r[i] != '\\' {
      assert r[i] == Slashes(p)[b + i];
    }
  }

  /** Exactly the paths in normal form without a blank in front are returned as they are. */
  lemma NormRelFixedIff(p: string)
    ensures NormRel(p) == p <==> NormalForm(p) && (p != "" ==> !IsSpace(p[0]))
  {
    var _, _, _ := NormRelMeans(p);
    if NormalForm(p) && (p != "" ==> !IsSpace(p[0])) {
      assert Slashes(p) == p;
      StripFixed(p);
    }
  }

  // ---------------------------------------------------------------- rows

  function FileRow(rel: string, f: Entry): Node
    requires f.File?
  {
    Node("B", "file", rel, f.title, "File", f.attrs, f.hash, "fresh", DEFAULT_CONTRACT, "")
  }

  function CRow(rel: string, b: Boundary): Node {
    Node("C", b.kind, rel, b.title, b.summary, b.attrs, b.sha, "fresh", DEFAULT_CONTRACT, "")
  }

  function Contains(src: string, dst: string): Edge {
    Edge("containment", "contains", src, dst, 1.0, DEFAULT_CONTRACT, "")
  }

  function Imports(src: string, dst: string): Edge {
    Edge("cross_link", "imports", src, dst, 0.6, DEFAULT_CONTRACT, "")
  }

  function IdOf(ids: IdScheme, e: Edge): string {
    ids.edgeId(e.edgeClass, e.edgeType, e.src, e.dst)
  }

  // ---------------------------------------------------------------- content of a graph

  function Content(g: Graph): Graph {
    Graph(map k | k in g.nodes :: g.nodes[k].(updatedAt := ""), map k | k in g.edges :: g.edges[k].(updatedAt := ""), 0)
  }

  /** Writing the C nodes of the segments and their containment edges, one by one. */
  function PutBounds(g: Graph, ids: IdScheme, rel: string, bounds: seq<Boundary>): Graph {
    if bounds == [] then g
    else
      var h, b := PutBounds(g, ids, rel, bounds[..|bounds| - 1]), bounds[|bounds| - 1];
      var e := Contains(BId(rel), CId(ids, rel, b));
      Graph(h.nodes[CId(ids, rel, b) := CRow(rel, b)], h.edges[IdOf(ids, e) := e], h.rev)
  }

  /** The re-index of one file: drop the edges at its node and the C nodes at its path, then derive them again. */
  function SyncFile(g: Graph, ids: IdScheme, rel: string, f: Entry): Graph
    requires f.File?
  {
    var g1 := g.(nodes := g.nodes[BId(rel) := FileRow(rel, f)]);
    if !f.textLike then g1
    else
      var g2 := g1.(edges := g1.edges - Touching(g1.edges, {BId(rel)}));
      var g3 := g2.(nodes := g2.nodes - AtPath(g2, "C", Strip(rel)));
      var g4 := PutBounds(g3, ids, rel, f.bounds);
      var self := Imports(BId(rel), BId(rel));
      if f.importsItself then g4.(edges := g4.edges[IdOf(ids, self) := self]) else g4
  }

  /** The effect of syncing one path. A missing file has its node marked stale; a directory raises. */
  function SyncOne(g: Graph, ids: IdScheme, disk: Disk, rel: string): Graph {
    if rel !in disk then g.(nodes := MarkNodes(g.nodes, Marked(g, {BId(rel)}), "stale", ""))
    else if disk[rel].Directory? then g
    else SyncFile(g, ids, rel, disk[rel])
  }

  function SyncMany(g: Graph, ids: IdScheme, disk: Disk, rels: seq<string>): Graph {
    if rels == [] then g
    else SyncOne(SyncMany(g, ids, disk, rels[..|rels| - 1]), ids, disk, rels[|rels| - 1])
  }

  lemma PutBoundsSnoc(g: Graph, ids: IdScheme, rel: string, bounds: seq<Boundary>, i: nat)
    requires i < |bounds|
    ensures var h, b := PutBounds(g, ids, rel, bounds[..i]), bounds[i];
            var e := Contains(BId(rel), CId(ids, rel, b));
            PutBounds(g, ids, rel, bounds[..i + 1]) ==
            Graph(h.nodes[CId(ids, rel, b) := CRow(rel, b)], h.edges[IdOf(ids, e) := e], h.rev)
  {
    assert bounds[..i + 1][..i] == bounds[..i];
  }

  lemma SyncManySnoc(g: Graph, ids: IdScheme, disk: Disk, rels: seq<string>, rel: string)
    ensures SyncMany(g, ids, disk, rels + [rel]) == SyncOne(SyncMany(g, ids, disk, rels), ids, disk, rel)
  {
    assert (rels + [rel])[..|rels + [rel]| - 1] == rels;
  }

  lemma SyncFileTwice(g: Graph, ids: IdScheme, rel: string, f: Entry)
    requires f.File?
    ensures SyncFile(g.(nodes := g.nodes[BId(rel) := FileRow(rel, f)]), ids, rel, f) == SyncFile(g, ids, rel, f)
  {
    assert g.nodes[BId(rel) := FileRow(rel, f)][BId(rel) := FileRow(rel, f)] == g.nodes[BId(rel) := FileRow(rel, f)];
  }

  // ---------------------------------------------------------------- store calls seen as content

  /** Marking with or without a time stamp has the same content. */
  lemma MarkContent(g: Graph, ids: set<string>, state: string, now: string)
    ensures Content(g.(nodes := MarkNodes(g.nodes, Marked(g, ids), state, now))) ==
            Content(g).(nodes := MarkNodes(Content(g).nodes, Marked(Content(g), ids), state, ""))
  {
    assert Marked(Content(g), ids) == Marked(g, ids);
  }

  lemma NodeContent(g: Graph, id: string, row: Node, now: string, rev: nat)
    ensures Content(Graph(g.nodes[id := row.(updatedAt := now)], g.edges, rev)) ==
            Content(g).(nodes := Content(g).nodes[id := row.(updatedAt := "")])
  {
  }

  lemma EdgeContent(g: Graph, id: string, row: Edge, now: string, rev: nat)
    ensures Content(Graph(g.nodes, g.edges[id := row.(updatedAt := now)], rev)) ==
            Content(g).(edges := Content(g).edges[id := row.(updatedAt := "")])
  {
  }

  lemma CutContent(g: Graph, ids: set<string>)
    ensures Content(g.(edges := g.edges - Touching(g.edges, ids))) ==
            Content(g).(edges := Content(g).edges - Touching(Content(g).edges, ids))
  {
    assert Touching(Content(g).edges, ids) == Touching(g.edges, ids);
  }

  lemma DropContent(g: Graph, level: string, path: string)
    ensures Content(g.(nodes := g.nodes - AtPath(g, level, path))) ==
            Content(g).(nodes := Content(g).nodes - AtPath(Content(g), level, path))
  {
    assert AtPath(Content(g), level, path) == AtPath(g, level, path);
  }

  /** The ids written by the indexer are stored as they are. */
  lemma IdsAreStripped(ids: IdScheme, rel: string, b: Boundary)
    requires Sound(ids)
    ensures Strip(CId(ids, rel, b)) == CId(ids, rel, b) != ""
    ensures rel != "" && !IsSpace(rel[|rel| - 1]) ==> Strip(BId(rel)) == BId(rel) && Strip(rel) != ""
  {
    var d := ids.cDigest(Strip(rel), b.symbolKey, b.sha);
    assert CId(ids, rel, b)[|CId(ids, rel, b)| - 1] == d[|d| - 1];
    StripFixed(CId(ids, rel, b));
    if rel != "" && !IsSpace(rel[|rel| - 1]) {
      assert BId(rel)[|BId(rel)| - 1] == rel[|rel| - 1];
      StripFixed(BId(rel));
      StripLeftFacts(rel);
      StripRightFacts(StripLeft(rel));
    }
  }

  // ---------------------------------------------------------------- the indexer

  class PagIndexer {
    const store: SqlitePagStore
    const ids: IdScheme

    constructor (store: SqlitePagStore, ids: IdScheme)
      ensures this.store == store && this.ids == ids
    {
      this.store, this.ids := store, ids;
    }

    ghost function Here(ns: string): Graph
      reads store
    {
      Content(At(store.graphs, ns))
    }

    /** Nothing outside namespace `ns` changed. */
    twostate predicate OnlyIn(ns: string)
      reads store
    {
      && store.tracing == old(store.tracing)
      && forall other :: other != ns ==> At(store.graphs, other) == At(old(store.graphs), other)
    }

    method UpsertFileBNode(ns: string, rel: string, f: Entry, now: string)
      requires ns != "" && Strip(ns) == ns && Strip(BId(rel)) == BId(rel) && f.File?
      modifies store
      ensures Here(ns) == old(Here(ns)).(nodes := old(Here(ns)).nodes[BId(rel) := FileRow(rel, f)]) && OnlyIn(ns)
    {
      ghost var g := At(store.graphs, ns);
      var _ := store.UpsertNode(ns, BId(rel), FileRow(rel, f).(updatedAt := now));
      StripFixed("fresh");
      NodeContent(g, BId(rel), FileRow(rel, f), now, g.rev + 1);
    }

    method UpsertCBoundaryNode(ns: string, rel: string, b: Boundary, now: string)
      requires Sound(ids) && ns != "" && Strip(ns) == ns
      modifies store
      ensures var e, was := Contains(BId(rel), CId(ids, rel, b)), old(Here(ns));
              Here(ns) == Graph(was.nodes[CId(ids, rel, b) := CRow(rel, b)], was.edges[IdOf(ids, e) := e], was.rev)
      ensures OnlyIn(ns)
    {
      ghost var g := At(store.graphs, ns);
      IdsAreStripped(ids, rel, b);
      StripFixed("fresh");
      var cId := CId(ids, rel, b);
      var _ := store.UpsertNode(ns, cId, CRow(rel, b).(updatedAt := now));
      NodeContent(g, cId, CRow(rel, b), now, g.rev + 1);
      ghost var h := At(store.graphs, ns);
      var e := Contains(BId(rel), cId);
      StripFixed(IdOf(ids, e));
      var _ := store.UpsertEdge(ns, IdOf(ids, e), e.(updatedAt := now));
      EdgeContent(h, IdOf(ids, e), e, now, h.rev + 1);
    }

    method UpsertSegments(ns: string, rel: string, bounds: seq<Boundary>, now: string)
      requires Sound(ids) && ns != "" && Strip(ns) == ns
      modifies store
      ensures Here(ns) == PutBounds(old(Here(ns)), ids, rel, bounds) && OnlyIn(ns)
    {
      ghost var was := Here(ns);
      for i := 0 to |bounds|
        invariant Here(ns) == PutBounds(was, ids, rel, bounds[..i])
        invariant OnlyIn(ns)
      {
        PutBoundsSnoc(was, ids, rel, bounds, i);
        UpsertCBoundaryNode(ns, rel, bounds[i], now);
      }
      assert bounds[..|bounds|] == bounds;
    }

    method UpsertSelfImport(ns: string, rel: string, now: string)
      requires Sound(ids) && ns != "" && Strip(ns) == ns
      modifies store
      ensures var self, was := Imports(BId(rel), BId(rel)), old(Here(ns));
              Here(ns) == was.(edges := was.edges[IdOf(ids, self) := self])
      ensures OnlyIn(ns)
    {
      ghost var h := At(store.graphs, ns);
      var self := Imports(BId(rel), BId(rel));
      StripFixed(IdOf(ids, self));
      var _ := store.UpsertEdge(ns, IdOf(ids, self), self.(updatedAt := now));
      EdgeContent(h, IdOf(ids, self), self, now, h.rev + 1);
    }

    /** Writes the segments of a file and, for a Python file importing its own package, the import edge. */
    method ReadAndUpsertCDecomposition(ns: string, rel: string, f: Entry, now: string)
      requires Sound(ids) && ns != "" && Strip(ns) == ns && f.File?
      modifies store
      ensures var put, self := PutBounds(old(Here(ns)), ids, rel, f.bounds), Imports(BId(rel), BId(rel));
              Here(ns) == if f.importsItself then put.(edges := put.edges[IdOf(ids, self) := self]) else put
      ensures OnlyIn(ns)
    {
      UpsertSegments(ns, rel, f.bounds, now);
      if f.importsItself {
        UpsertSelfImport(ns, rel, now);
      }
    }

    method CutEdges(ns: string, rel: string)
      requires ns != "" && Strip(ns) == ns && Strip(BId(rel)) == BId(rel)
      modifies store
      ensures var was := old(Here(ns)); Here(ns) == was.(edges := was.edges - Touching(was.edges, {BId(rel)}))
      ensures OnlyIn(ns)
    {
      ghost var g := At(store.graphs, ns);
      var _ := store.DeleteEdgesTouching(ns, [BId(rel)]);
      assert CleanIds([BId(rel)]) == {BId(rel)};
      CutContent(g, {BId(rel)});
    }

    method DropSegments(ns: string, rel: string)
      requires ns != "" && Strip(ns) == ns && Strip(rel) != ""
      modifies store
      ensures var was := old(Here(ns)); Here(ns) == was.(nodes := was.nodes - AtPath(was, "C", Strip(rel)))
      ensures OnlyIn(ns)
    {
      StripFixed("C");
      ghost var g := At(store.graphs, ns);
      var _ := store.DeleteNodesByLevelAndPath(ns, "C", rel);
      DropContent(g, "C", Strip(rel));
    }

    method ReindexCForBFile(ns: string, rel: string, f: Entry, now: string)
      requires Sound(ids) && ns != "" && Strip(ns) == ns && f.File? && f.textLike
      requires rel != "" && !IsSpace(rel[|rel| - 1])
      requires BId(rel) in Here(ns).nodes && Here(ns).nodes[BId(rel)] == FileRow(rel, f)
      modifies store
      ensures Here(ns) == SyncFile(old(Here(ns)), ids, rel, f) && OnlyIn(ns)
    {
      IdsAreStripped(ids, rel, Boundary("", "", "", "", "", ""));
      CutEdges(ns, rel);
      DropSegments(ns, rel);
      ReadAndUpsertCDecomposition(ns, rel, f, now);
      assert old(Here(ns)).nodes[BId(rel) := FileRow(rel, f)] == old(Here(ns)).nodes;
    }

    method MarkMissing(ns: string, rel: string, now: string)
      requires ns != "" && Strip(ns) == ns && Strip(BId(rel)) == BId(rel)
      modifies store
      ensures var was := old(Here(ns));
              Here(ns) == was.(nodes := MarkNodes(was.nodes, Marked(was, {BId(rel)}), "stale", ""))
      ensures OnlyIn(ns)
    {
      ghost var g := At(store.graphs, ns);
      var _ := store.MarkStale(ns, [BId(rel)], "stale", now);
      assert CleanIds([BId(rel)]) == {BId(rel)};
      StripFixed("stale");
      MarkContent(g, {BId(rel)}, "stale", now);
    }

    method SyncPath(ns: string, rel: string, disk: Disk, now: string)
      requires Sound(ids) && ns != "" && Strip(ns) == ns && rel != "" && !IsSpace(rel[|rel| - 1])
      requires rel in disk ==> disk[rel].File?
      modifies store
      ensures Here(ns) == SyncOne(old(Here(ns)), ids, disk, rel) && OnlyIn(ns)
    {
      IdsAreStripped(ids, rel, Boundary("", "", "", "", "", ""));
      if rel !in disk {
        MarkMissing(ns, rel, now);
      } else {
        ghost var was := Here(ns);
        UpsertFileBNode(ns, rel, disk[rel], now);
        if disk[rel].textLike {
          SyncFileTwice(was, ids, rel, disk[rel]);
          ReindexCForBFile(ns, rel, disk[rel], now);
        }
      }
    }

    method SyncWorklist(ns: string, uniq: seq<string>, disk: Disk, now: string)
      returns (ok: bool, ghost done: seq<string>)
      requires Sound(ids) && ns != "" && Strip(ns) == ns
      requires forall i :: 0 <= i < |uniq| ==> uniq[i] != "" && !IsSpace(uniq[i][|uniq[i]| - 1])
      modifies store
      ensures done <= uniq && (ok ==> done == uniq)
      ensures !ok ==> |done| < |uniq| && uniq[|done|] in disk && disk[uniq[|done|]].Directory?
      ensures Here(ns) == SyncMany(old(Here(ns)), ids, disk, done) && OnlyIn(ns)
    {
      ghost var was := Here(ns);
      ok, done := true, [];
      for i := 0 to |uniq|
        invariant ok && done == uniq[..i]
        invariant Here(ns) == SyncMany(was, ids, disk, done)
        invariant OnlyIn(ns)
      {
        if uniq[i] in disk && disk[uniq[i]].Directory? {
          ok := false;
          return;
        }
        SyncManySnoc(was, ids, disk, done, uniq[i]);
        SyncPath(ns, uniq[i], disk, now);
        done := done + [uniq[i]];
      }
    }

    /**
     * Re-indexes the distinct normalised paths in sorted order. `ok` is false when a directory was reached,
     * which raises in the middle of the loop; the paths before it, `done`, have been synced.
     */
    method SyncChanges(namespace: string, disk: Disk, changed: seq<string>, now: string)
      returns (ok: bool, ghost done: seq<string>)
      requires Sound(ids)
      modifies store
      ensures Strip(namespace) == "" ==> ok && unchanged(store)
      ensures Strip(namespace) != "" ==>
                && done <= Worklist(changed)
                && (if ok then done == Worklist(changed)
                    else |done| < |Worklist(changed)| && Worklist(changed)[|done|] in disk
                         && disk[Worklist(changed)[|done|]].Directory?)
                && Here(Strip(namespace)) == SyncMany(old(Here(Strip(namespace))), ids, disk, done)
                && OnlyIn(Strip(namespace))
    {
      var ns := Strip(namespace);
      ok, done := true, [];
      if ns == "" {
        return;
      }
      StripIsStripped(namespace);
      StripFixed(ns);
      WorklistPaths(changed);
      ok, done := SyncWorklist(ns, Worklist(changed), disk, now);
    }
  }

  function Normalised(changed: seq<string>): set<string> {
    set p | p in changed && NormRel(p) != "" :: NormRel(p)
  }

  /** `sorted(set(norm(p) for p in changed if norm(p)))` */
  function Worklist(changed: seq<string>): seq<string> {
    TextOrder();
    Sorted(Normalised(changed), TextLeq)
  }

  lemma WorklistPaths(changed: seq<string>)
    ensures Ascending(Worklist(changed), TextLeq)
    ensures forall rel :: rel in Worklist(changed) <==> rel in Normalised(changed)
    ensures forall i :: 0 <= i < |Worklist(changed)| ==>
              Worklist(changed)[i] != "" && !IsSpace(Worklist(changed)[i][|Worklist(changed)[i]| - 1])
  {
    TextOrder();
    SortedLists(Normalised(changed), TextLeq);
    forall i | 0 <= i < |Worklist(changed)|
      ensures Worklist(changed)[i] != "" && !IsSpace(Worklist(changed)[i][|Worklist(changed)[i]| - 1])
    {
      assert Worklist(changed)[i] in Normalised(changed);
      NormalisedEnd(changed, Worklist(changed)[i]);
    }
  }

  lemma NormalisedEnd(changed: seq<string>, rel: string)
    requires rel in Normalised(changed)
    ensures rel != "" && !IsSpace(rel[|rel| - 1])
  {
    var p :| p in changed && NormRel(p) == rel && rel != "";
    NormRelEnd(p);
  }
}
