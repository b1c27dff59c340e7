/**
 * What a listener of the graph trace can know about the store.
 *
 * A replica holds the compact rows of one namespace and folds the trace payloads it receives; it reports a revision
 * mismatch exactly as the desktop client does. `Links` is what that client draws of the edges.
 */
module PagReplication {
  import opened Text
  import opened PagStore

  // ---------------------------------------------------------------- runs of the store

  /** A store call, and whether the callback was installed when it was made. */
  datatype Call = Call(op: Op, traced: bool)

  datatype Trace = Trace(db: Db, events: seq<TraceEvent>)

  function Run(db: Db, calls: seq<Call>): Trace {
    if calls == [] then Trace(db, [])
    else
      var before := Run(db, calls[..|calls| - 1]);
      var call := calls[|calls| - 1];
      var o := Step(before.db, call.op);
      Trace(o.db, before.events + if call.traced then o.events else [])
  }

  /** The calls that only insert, replace or re-mark rows. */
  predicate Keeps(op: Op) {
    op.UpsertNode? || op.UpsertEdge? || op.UpsertBatch? || op.MarkStale?
  }

  /** `call` wrote to namespace `ns` and advanced its counter. */
  predicate Advances(db: Db, op: Op, ns: string) {
    At(Step(db, op).db, ns).rev != At(db, ns).rev
  }

  /** The callback was installed at every call that advanced the counter of `ns`. */
  predicate FullyTraced(db: Db, calls: seq<Call>, ns: string) {
    calls == [] ||
    var front, last := calls[..|calls| - 1], calls[|calls| - 1];
    FullyTraced(db, front, ns) && (last.traced || !Advances(Run(db, front).db, last.op, ns))
  }

  // ---------------------------------------------------------------- the replica

  datatype Replica = Replica(nodes: map<string, NodeView>, edges: map<string, EdgeView>, rev: nat)

  function Project(g: Graph): Replica {
    Replica(map k | k in g.nodes :: ViewNode(g.nodes[k]), map k | k in g.edges :: ViewEdge(g.edges[k]), g.rev)
  }

  function PutViews(edges: map<string, EdgeView>, rows: seq<(string, EdgeView)>): map<string, EdgeView> {
    if rows == [] then edges
    else PutViews(edges, rows[..|rows| - 1])[rows[|rows| - 1].0 := rows[|rows| - 1].1]
  }

  function Receive(r: Replica, ev: TraceEvent): Replica {
    match ev.payload
    case NodeDelta(id, node) => Replica(r.nodes[id := node], r.edges, ev.rev)
    case EdgeDelta(id, edge) => Replica(r.nodes, r.edges[id := edge], ev.rev)
    case EdgeBatch(edges) => Replica(r.nodes, PutViews(r.edges, edges), ev.rev)
  }

  /** The replica of `ns` after the whole event sequence; other namespaces' events are skipped. */
  function Replay(r: Replica, ns: string, events: seq<TraceEvent>): Replica {
    if events == [] then r
    else
      var before, ev := Replay(r, ns, events[..|events| - 1]), events[|events| - 1];
      if ev.ns == ns then Receive(before, ev) else before
  }

  /** The client complains when it already has a revision and the next one does not follow it. */
  predicate Warns(r: Replica, ev: TraceEvent) {
    r.rev > 0 && ev.rev != r.rev + 1
  }

  /** The client folded all the events without one complaint. */
  predicate Quiet(r: Replica, ns: string, events: seq<TraceEvent>) {
    events == [] ||
    var front, ev := events[..|events| - 1], events[|events| - 1];
    Quiet(r, ns, front) && (ev.ns == ns ==> !Warns(Replay(r, ns, front), ev))
  }

  // ---------------------------------------------------------------- one call

  lemma ReplayAppend(r: Replica, ns: string, events: seq<TraceEvent>, more: seq<TraceEvent>)
    requires |more| <= 1
    ensures Replay(r, ns, events + more) ==
            if more != [] && more[0].ns == ns then Receive(Replay(r, ns, events), more[0]) else Replay(r, ns, events)
    ensures Quiet(r, ns, events + more) <==>
            Quiet(r, ns, events) && (more != [] && more[0].ns == ns ==> !Warns(Replay(r, ns, events), more[0]))
  {
    if more == [] {
      assert events + more == events;
    } else {
      assert (events + more)[..|events + more| - 1] == events;
    }
  }

  /** A call emits at most one event, for the namespace and with the revision it advanced. */
  lemma StepEvents(db: Db, op: Op, ns: string)
    ensures var o := Step(db, op);
            && |o.events| <= 1
            && (o.events != [] ==> o.events[0].ns == Strip(op.ns) && o.events[0].rev == At(o.db, Strip(op.ns)).rev)
            && (Advances(db, op, ns) <==> o.events != [] && Strip(op.ns) == ns)
            && At(o.db, ns).rev == At(db, ns).rev + (if Advances(db, op, ns) then 1 else 0)
            && (Strip(op.ns) != ns ==> At(o.db, ns) == At(db, ns))
  {
  }

  // ---------------------------------------------------------------- whole runs

  lemma RunStep(db: Db, calls: seq<Call>)
    requires calls != []
    ensures var front, last := calls[..|calls| - 1], calls[|calls| - 1];
            var before, o := Run(db, front), Step(Run(db, front).db, last.op);
            Run(db, calls) == Trace(o.db, before.events + if last.traced then o.events else [])
  {
  }

  /**
   * The revision counter of a namespace counts exactly the calls that advanced it, never falls,
   * and a client never gets ahead of the store.
   */
  lemma {:induction false} ClientNeverAhead(db: Db, calls: seq<Call>, ns: string, r: Replica)
    requires r.rev <= At(db, ns).rev
    ensures Replay(r, ns, Run(db, calls).events).rev <= At(Run(db, calls).db, ns).rev
    ensures At(db, ns).rev <= At(Run(db, calls).db, ns).rev
    decreases |calls|
  {
    if calls != [] {
      var front, last := calls[..|calls| - 1], calls[|calls| - 1];
      ClientNeverAhead(db, front, ns, r);
      var before := Run(db, front);
      StepEvents(before.db, last.op, ns);
      ReplayAppend(r, ns, before.events, if last.traced then Step(before.db, last.op).events else []);
    }
  }

  function OfNamespace(events: seq<TraceEvent>, ns: string): seq<TraceEvent> {
    if events == [] then []
    else OfNamespace(events[..|events| - 1], ns) +
         if events[|events| - 1].ns == ns then [events[|events| - 1]] else []
  }

  /** In a fully traced run the revisions delivered for a namespace are consecutive, up to the store's own. */
  lemma {:induction false} RevsAreConsecutive(db: Db, calls: seq<Call>, ns: string)
    requires FullyTraced(db, calls, ns)
    ensures var evs := OfNamespace(Run(db, calls).events, ns);
            && (forall i :: 0 <= i < |evs| ==> evs[i].rev == At(db, ns).rev + 1 + i)
            && At(Run(db, calls).db, ns).rev == At(db, ns).rev + |evs|
    decreases |calls|
  {
    if calls != [] {
      var front, last := calls[..|calls| - 1], calls[|calls| - 1];
      RevsAreConsecutive(db, front, ns);
      var before := Run(db, front);
      StepEvents(before.db, last.op, ns);
      var more := if last.traced then Step(before.db, last.op).events else [];
      if more == [] {
        assert before.events + more == before.events;
      } else {
        assert (before.events + more)[..|before.events + more| - 1] == before.events;
      }
    }
  }

  /**
   * A client that starts from a snapshot with a revision knows whether it missed anything: it ends
   * without a warning at the store's own revision exactly when every advancing call was traced.
   */
  lemma {:induction false} GapsAreDetected(db: Db, calls: seq<Call>, ns: string)
    requires At(db, ns).rev > 0
    ensures var r, t := Project(At(db, ns)), Run(db, calls);
            Quiet(r, ns, t.events) && Replay(r, ns, t.events).rev == At(t.db, ns).rev <==> FullyTraced(db, calls, ns)
    decreases |calls|
  {
    if calls != [] {
      var front, last := calls[..|calls| - 1], calls[|calls| - 1];
      var r, before := Project(At(db, ns)), Run(db, front);
      GapsAreDetected(db, front, ns);
      ClientNeverAhead(db, front, ns, r);
      RevPositive(db, front, ns, r);
      StepEvents(before.db, last.op, ns);
      ReplayAppend(r, ns, before.events, if last.traced then Step(before.db, last.op).events else []);
    }
  }

  lemma {:induction false} RevPositive(db: Db, calls: seq<Call>, ns: string, r: Replica)
    requires r.rev > 0
    ensures Replay(r, ns, Run(db, calls).events).rev > 0
    decreases |calls|
  {
    if calls != [] {
      var front, last := calls[..|calls| - 1], calls[|calls| - 1];
      RevPositive(db, front, ns, r);
      var before := Run(db, front);
      StepEvents(before.db, last.op, ns);
      StepEvents(before.db, last.op, Strip(last.op.ns));
      ReplayAppend(r, ns, before.events, if last.traced then Step(before.db, last.op).events else []);
    }
  }

  lemma RunOneMore(db: Db, calls: seq<Call>, call: Call)
    ensures var before, o := Run(db, calls), Step(Run(db, calls).db, call.op);
            Run(db, calls + [call]) == Trace(o.db, before.events + if call.traced then o.events else [])
  {
    assert (calls + [call])[..|calls + [call]| - 1] == calls;
  }

  lemma StepUpsertsNode(db: Db, ns: string, id: string, row: Node)
    requires Strip(ns) == ns != "" && Strip(id) == id != ""
    ensures var g := At(db, ns);
            var o := Step(db, UpsertNode(ns, id, row));
            && At(o.db, ns) == Graph(g.nodes[id := Stored(row)], g.edges, g.rev + 1)
            && o.events == [TraceEvent(ns, g.rev + 1, NodeDelta(id, ViewNode(row)))]
  {
  }

  /** Every call that advanced `ns` untraced came before the first delivered event of `ns`. */
  predicate MissesComeFirst(db: Db, calls: seq<Call>, ns: string) {
    calls == [] ||
    var front, last := calls[..|calls| - 1], calls[|calls| - 1];
    && MissesComeFirst(db, front, ns)
    && (last.traced || !Advances(Run(db, front).db, last.op, ns) || OfNamespace(Run(db, front).events, ns) == [])
  }

  lemma OfNamespaceAppend(events: seq<TraceEvent>, ns: string, more: seq<TraceEvent>)
    requires |more| <= 1
    ensures OfNamespace(events + more, ns) ==
            OfNamespace(events, ns) + if more != [] && more[0].ns == ns then more else []
  {
    if more == [] {
      assert events + more == events;
    } else {
      assert (events + more)[..|events + more| - 1] == events;
    }
  }

  /** A client that has heard nothing has not moved; one that has holds a revision. */
  lemma {:induction false} HeardIffRevision(db: Db, calls: seq<Call>, ns: string, r: Replica)
    requires r.rev == 0
    ensures var events := Run(db, calls).events;
            && (OfNamespace(events, ns) == [] <==> Replay(r, ns, events).rev == 0)
            && (OfNamespace(events, ns) == [] ==> Quiet(r, ns, events))
    decreases |calls|
  {
    if calls != [] {
      var front, last := calls[..|calls| - 1], calls[|calls| - 1];
      HeardIffRevision(db, front, ns, r);
      var before := Run(db, front);
      StepEvents(before.db, last.op, ns);
      var more := if last.traced then Step(before.db, last.op).events else [];
      OfNamespaceAppend(before.events, ns, more);
      ReplayAppend(r, ns, before.events, more);
    }
  }

  /**
   * A client that starts from a namespace without a revision never has its first event checked: it ends quiet at the
   * store's revision, or having heard nothing, exactly when every missed write came before the first event it heard.
   */
  lemma {:induction false} MissesAreSilentIffFirst(db: Db, calls: seq<Call>, ns: string)
    requires At(db, ns).rev == 0
    ensures var r, t := Project(At(db, ns)), Run(db, calls);
            Quiet(r, ns, t.events) && (Replay(r, ns, t.events).rev == At(t.db, ns).rev
                || OfNamespace(t.events, ns) == [])
            <==> MissesComeFirst(db, calls, ns)
    decreases |calls|
  {
    if calls != [] {
      var front, last := calls[..|calls| - 1], calls[|calls| - 1];
      var r, before := Project(At(db, ns)), Run(db, front);
      var more := if last.traced then Step(before.db, last.op).events else [];
      MissesAreSilentIffFirst(db, front, ns);
      ClientNeverAhead(db, front, ns, r);
      HeardIffRevision(db, front, ns, r);
      StepEvents(before.db, last.op, ns);
      OfNamespaceAppend(before.events, ns, more);
      ReplayAppend(r, ns, before.events, more);
    }
  }

  /** The smallest such run: from an empty namespace a missed first write goes unnoticed. */
  lemma FirstGapFromEmptyIsSilent(ns: string, a: string, b: string, row: Node)
    requires Strip(ns) == ns != "" && Strip(a) == a != "" && Strip(b) == b != "" && a != b
    ensures var t := Run(map[], [] + [Call(UpsertNode(ns, a, row), false)] + [Call(UpsertNode(ns, b, row), true)]);
            var r := Replay(Project(EMPTY), ns, t.events);
            Quiet(Project(EMPTY), ns, t.events) && r.rev == At(t.db, ns).rev && r != Project(At(t.db, ns))
  {
    var c0, c1 := Call(UpsertNode(ns, a, row), false), Call(UpsertNode(ns, b, row), true);
    RunOneMore(map[], [], c0);
    StepUpsertsNode(map[], ns, a, row);
    var t1 := Run(map[], [] + [c0]);
    RunOneMore(map[], [] + [c0], c1);
    StepUpsertsNode(t1.db, ns, b, row);
    var t2 := Run(map[], [] + [c0] + [c1]);
    FirstEventUnchecked(t2.events, ns, a, b, At(t2.db, ns));
  }

  lemma FirstEventUnchecked(events: seq<TraceEvent>, ns: string, a: string, b: string, g: Graph)
    requires |events| == 1 && events[0].ns == ns && events[0].rev == g.rev && events[0].payload.NodeDelta?
    requires events[0].payload.id == b && a != b && a in g.nodes
    ensures var r := Replay(Project(EMPTY), ns, events);
            Quiet(Project(EMPTY), ns, events) && r.rev == g.rev && r != Project(g)
  {
    assert a in Project(g).nodes;
    ReplayAppend(Project(EMPTY), ns, [], events);
    assert [] + events == events;
  }

  // ---------------------------------------------------------------- replay

  /** Every row that existed in `ns` at some moment of the run. */
  function EverNodes(db: Db, calls: seq<Call>, ns: string): set<string> {
    At(Run(db, calls).db, ns).nodes.Keys + if calls == [] then {} else EverNodes(db, calls[..|calls| - 1], ns)
  }

  function EverEdges(db: Db, calls: seq<Call>, ns: string): set<string> {
    At(Run(db, calls).db, ns).edges.Keys + if calls == [] then {} else EverEdges(db, calls[..|calls| - 1], ns)
  }

  /** `r` agrees with the graph on its rows and additionally remembers every row that was ever there. */
  ghost predicate Shadows(r: Replica, g: Graph, everNodes: set<string>, everEdges: set<string>) {
    && r.nodes.Keys == everNodes && r.edges.Keys == everEdges && r.rev == g.rev
    && (forall k :: k in g.nodes ==> k in r.nodes && r.nodes[k] == ViewNode(g.nodes[k]))
    && (forall k :: k in g.edges ==> k in r.edges && r.edges[k] == ViewEdge(g.edges[k]))
  }

  lemma {:induction false} PutEdgesLookup(edges: map<string, Edge>, views: map<string, EdgeView>,
                                          rows: seq<(string, Edge)>)
    requires forall k :: k in edges ==> k in views && views[k] == ViewEdge(edges[k])
    ensures var e, v := PutEdges(edges, rows), PutViews(views, Views(rows));
            && (forall k :: k in e ==> k in v && v[k] == ViewEdge(e[k]))
            && v.Keys == views.Keys + e.Keys && edges.Keys <= e.Keys
    decreases |rows|
  {
    if rows != [] {
      var front := rows[..|rows| - 1];
      PutEdgesLookup(edges, views, front);
      assert Views(rows)[..|rows| - 1] == Views(front);
    }
  }

  /** A graph whose visible columns come from `g` is shadowed by whatever shadows `g`. */
  lemma ShadowsLess(r: Replica, g: Graph, h: Graph, n: set<string>, e: set<string>)
    requires Shadows(r, g, n, e) && h.rev == g.rev
    requires forall k :: k in h.nodes ==> k in g.nodes && ViewNode(h.nodes[k]) == ViewNode(g.nodes[k])
    requires forall k :: k in h.edges ==> k in g.edges && h.edges[k] == g.edges[k]
    ensures Shadows(r, h, n + h.nodes.Keys, e + h.edges.Keys)
  {
    assert forall k :: k in h.nodes ==> k in r.nodes;
    assert forall k :: k in h.edges ==> k in r.edges;
    assert n + h.nodes.Keys == n && e + h.edges.Keys == e;
  }

  lemma ShadowsNode(r: Replica, g: Graph, n: set<string>, e: set<string>, ns: string, id: string, node: Node)
    requires Shadows(r, g, n, e)
    ensures var h := Graph(g.nodes[id := Stored(node)], g.edges, g.rev + 1);
            Shadows(Receive(r, TraceEvent(ns, h.rev, NodeDelta(id, ViewNode(node)))), h,
                    n + h.nodes.Keys, e + h.edges.Keys)
  {
    assert g.nodes.Keys <= n && g.edges.Keys <= e;
    assert e + g.edges.Keys == e;
  }

  lemma ShadowsEdge(r: Replica, g: Graph, n: set<string>, e: set<string>, ns: string, id: string, edge: Edge)
    requires Shadows(r, g, n, e)
    ensures var h := Graph(g.nodes, g.edges[id := edge], g.rev + 1);
            Shadows(Receive(r, TraceEvent(ns, h.rev, EdgeDelta(id, ViewEdge(edge)))), h,
                    n + h.nodes.Keys, e + h.edges.Keys)
  {
    assert g.nodes.Keys <= n && g.edges.Keys <= e;
    assert n + g.nodes.Keys == n;
  }

  lemma ShadowsBatch(r: Replica, g: Graph, n: set<string>, e: set<string>, ns: string, rows: seq<(string, Edge)>)
    requires Shadows(r, g, n, e)
    ensures var h := Graph(g.nodes, PutEdges(g.edges, rows), g.rev + 1);
            Shadows(Receive(r, TraceEvent(ns, h.rev, EdgeBatch(Views(rows)))), h, n + h.nodes.Keys, e + h.edges.Keys)
  {
    PutEdgesLookup(g.edges, r.edges, rows);
    assert g.nodes.Keys <= n;
    assert n + g.nodes.Keys == n;
  }

  lemma ReplayOne(r: Replica, ns: string, events: seq<TraceEvent>)
    requires |events| <= 1
    ensures Replay(r, ns, events) == if events != [] && events[0].ns == ns then Receive(r, events[0]) else r
  {
    ReplayAppend(r, ns, [], events);
    assert [] + events == events;
  }

  lemma AdvanceShadows(db: Db, op: Op, ns: string, r: Replica, n: set<string>, e: set<string>)
    requires Shadows(r, At(db, ns), n, e) && Strip(op.ns) == ns && Advances(db, op, ns)
    ensures var o := Step(db, op);
            |o.events| == 1
            && Shadows(Receive(r, o.events[0]), At(o.db, ns), n + At(o.db, ns).nodes.Keys, e + At(o.db, ns).edges.Keys)
  {
    var g := At(db, ns);
    match op
    case UpsertNode(_, id, node) => ShadowsNode(r, g, n, e, ns, Strip(id), node);
    case UpsertEdge(_, id, edge) => ShadowsEdge(r, g, n, e, ns, Strip(id), edge);
    case UpsertBatch(_, entries, now) => ShadowsBatch(r, g, n, e, ns, ValidRows(entries, now));
    case _ => assert false;
  }

  lemma StepShadows(db: Db, op: Op, ns: string, r: Replica, n: set<string>, e: set<string>)
    requires Shadows(r, At(db, ns), n, e)
    ensures var o := Step(db, op);
            Shadows(Replay(r, ns, o.events), At(o.db, ns), n + At(o.db, ns).nodes.Keys, e + At(o.db, ns).edges.Keys)
  {
    var o := Step(db, op);
    StepEvents(db, op, ns);
    ReplayOne(r, ns, o.events);
    if Strip(op.ns) == ns && Advances(db, op, ns) {
      AdvanceShadows(db, op, ns, r, n, e);
    } else {
      StillShadows(db, op, ns, r, n, e);
    }
  }

  lemma StillShadows(db: Db, op: Op, ns: string, r: Replica, n: set<string>, e: set<string>)
    requires Shadows(r, At(db, ns), n, e) && (Strip(op.ns) != ns || !Advances(db, op, ns))
    ensures var h := At(Step(db, op).db, ns); Shadows(r, h, n + h.nodes.Keys, e + h.edges.Keys)
  {
    ShadowsLess(r, At(db, ns), At(Step(db, op).db, ns), n, e);
  }

  lemma ReplayCompose(r: Replica, ns: string, events: seq<TraceEvent>, more: seq<TraceEvent>)
    requires |more| <= 1
    ensures Replay(r, ns, events + more) == Replay(Replay(r, ns, events), ns, more)
  {
    ReplayAppend(r, ns, events, more);
    ReplayAppend(Replay(r, ns, events), ns, [], more);
    assert [] + more == more;
  }

  lemma {:induction false} RunShadows(db: Db, calls: seq<Call>, ns: string)
    requires FullyTraced(db, calls, ns)
    ensures var t := Run(db, calls);
            Shadows(Replay(Project(At(db, ns)), ns, t.events), At(t.db, ns), EverNodes(db, calls, ns),
                EverEdges(db, calls, ns))
    decreases |calls|
  {
    var r := Project(At(db, ns));
    if calls != [] {
      var front, last := calls[..|calls| - 1], calls[|calls| - 1];
      RunShadows(db, front, ns);
      RunStep(db, calls);
      RunShadowsStep(Run(db, front), last, ns, r, EverNodes(db, front, ns), EverEdges(db, front, ns));
    }
  }

  lemma RunShadowsStep(before: Trace, call: Call, ns: string, r: Replica, n: set<string>, e: set<string>)
    requires Shadows(Replay(r, ns, before.events), At(before.db, ns), n, e)
    requires call.traced || !Advances(before.db, call.op, ns)
    ensures var o := Step(before.db, call.op);
            Shadows(Replay(r, ns, before.events + if call.traced then o.events else []), At(o.db, ns),
                    At(o.db, ns).nodes.Keys + n, At(o.db, ns).edges.Keys + e)
  {
    var o, r1 := Step(before.db, call.op), Replay(r, ns, before.events);
    StepEvents(before.db, call.op, ns);
    StepShadows(before.db, call.op, ns, r1, n, e);
    DeliveredOrQuiet(r, ns, before.events, o.events, call.traced);
    ShadowsSwap(Replay(r1, ns, o.events), At(o.db, ns), n, e);
  }

  lemma DeliveredOrQuiet(r: Replica, ns: string, past: seq<TraceEvent>, events: seq<TraceEvent>, traced: bool)
    requires |events| <= 1 && (traced || events == [] || events[0].ns != ns)
    ensures Replay(r, ns, past + if traced then events else []) == Replay(Replay(r, ns, past), ns, events)
  {
    if traced {
      ReplayCompose(r, ns, past, events);
    } else {
      ReplayAppend(Replay(r, ns, past), ns, [], events);
      assert [] + events == events && past + [] == past;
    }
  }

  lemma ShadowsSwap(r: Replica, g: Graph, n: set<string>, e: set<string>)
    requires Shadows(r, g, n + g.nodes.Keys, e + g.edges.Keys)
    ensures Shadows(r, g, g.nodes.Keys + n, g.edges.Keys + e)
  {
  }

  lemma ShadowIsExact(r: Replica, g: Graph, n: set<string>, e: set<string>)
    requires Shadows(r, g, n, e)
    ensures r == Project(g) <==> n == g.nodes.Keys && e == g.edges.Keys
  {
    assert Project(g).nodes.Keys == g.nodes.Keys && Project(g).edges.Keys == g.edges.Keys;
  }

  /**
   * Replaying a fully traced run reproduces the store's compact projection exactly when no row that
   * existed during the run is absent at its end: deletes are invisible to the trace.
   */
  lemma ReplayIsExactIffNothingVanished(db: Db, calls: seq<Call>, ns: string)
    requires FullyTraced(db, calls, ns)
    ensures var t := Run(db, calls);
            Replay(Project(At(db, ns)), ns, t.events) == Project(At(t.db, ns)) <==>
            EverNodes(db, calls, ns) == At(t.db, ns).nodes.Keys && EverEdges(db, calls, ns) == At(t.db, ns).edges.Keys
  {
    RunShadows(db, calls, ns);
    var t := Run(db, calls);
    ShadowIsExact(Replay(Project(At(db, ns)), ns, t.events), At(t.db, ns), EverNodes(db, calls, ns),
        EverEdges(db, calls, ns));
  }

  lemma StepKeeps(db: Db, op: Op, ns: string)
    requires Keeps(op)
    ensures At(db, ns).nodes.Keys <= At(Step(db, op).db, ns).nodes.Keys
    ensures At(db, ns).edges.Keys <= At(Step(db, op).db, ns).edges.Keys
  {
    if op.UpsertBatch? {
      var g := At(db, ns);
      PutEdgesLookup(g.edges, Project(g).edges, ValidRows(op.entries, op.now));
    }
  }

  lemma {:induction false} KeepingRunsLoseNothing(db: Db, calls: seq<Call>, ns: string)
    requires forall c :: c in calls ==> Keeps(c.op)
    ensures var g := At(Run(db, calls).db, ns);
            EverNodes(db, calls, ns) == g.nodes.Keys && EverEdges(db, calls, ns) == g.edges.Keys
    decreases |calls|
  {
    if calls != [] {
      KeepingRunsLoseNothing(db, calls[..|calls| - 1], ns);
      RunStep(db, calls);
      StepKeeps(Run(db, calls[..|calls| - 1]).db, calls[|calls| - 1].op, ns);
    }
  }

  /**
   * Trace replay: over any fully traced run of upserts (and re-markings) the replica equals the store's
   * projection after every call, hence at every revision.
   */
  lemma ReplayEqualsStore(db: Db, calls: seq<Call>, ns: string, j: nat)
    requires FullyTraced(db, calls, ns) && j <= |calls|
    requires forall c :: c in calls ==> Keeps(c.op)
    ensures var t := Run(db, calls[..j]);
            Replay(Project(At(db, ns)), ns, t.events) == Project(At(t.db, ns))
  {
    FullyTracedPrefix(db, calls, ns, j);
    KeepingRunsLoseNothing(db, calls[..j], ns);
    ReplayIsExactIffNothingVanished(db, calls[..j], ns);
  }

  lemma {:induction false} FullyTracedPrefix(db: Db, calls: seq<Call>, ns: string, j: nat)
    requires FullyTraced(db, calls, ns) && j <= |calls|
    ensures FullyTraced(db, calls[..j], ns)
    decreases |calls|
  {
    if j == |calls| {
      assert calls[..j] == calls;
    } else {
      FullyTracedPrefix(db, calls[..|calls| - 1], ns, j);
      assert calls[..|calls| - 1][..j] == calls[..j];
    }
  }

  // ---------------------------------------------------------------- what the desktop client draws

  /** The client makes a link only of an edge with two ends. */
  predicate Drawn(v: EdgeView) {
    v.src != "" && v.dst != ""
  }

  predicate AllDrawn(p: Payload) {
    match p
    case NodeDelta(_, _) => true
    case EdgeDelta(_, edge) => Drawn(edge)
    case EdgeBatch(edges) => forall i :: 0 <= i < |edges| ==> Drawn(edges[i].1)
  }

  function DrawViews(links: map<string, EdgeView>, rows: seq<(string, EdgeView)>): map<string, EdgeView> {
    if rows == [] then links
    else
      var before, row := DrawViews(links, rows[..|rows| - 1]), rows[|rows| - 1];
      if Drawn(row.1) then before[row.0 := row.1] else before
  }

  /** The client's links after the events of `ns`. */
  function Links(links: map<string, EdgeView>, ns: string, events: seq<TraceEvent>): map<string, EdgeView> {
    if events == [] then links
    else
      var before, ev := Links(links, ns, events[..|events| - 1]), events[|events| - 1];
      if ev.ns != ns then before
      else
        match ev.payload
        case NodeDelta(_, _) => before
        case EdgeDelta(id, edge) => DrawViews(before, [(id, edge)])
        case EdgeBatch(edges) => DrawViews(before, edges)
  }

  lemma {:induction false} DrawsAll(links: map<string, EdgeView>, rows: seq<(string, EdgeView)>)
    requires forall i :: 0 <= i < |rows| ==> Drawn(rows[i].1)
    ensures DrawViews(links, rows) == PutViews(links, rows)
  {
    if rows != [] {
      DrawsAll(links, rows[..|rows| - 1]);
    }
  }

  predicate DrawnOnly(links: map<string, EdgeView>) {
    forall k :: k in links ==> Drawn(links[k])
  }

  lemma {:induction false} LinksAreDrawn(links: map<string, EdgeView>, ns: string, events: seq<TraceEvent>)
    requires DrawnOnly(links)
    ensures DrawnOnly(Links(links, ns, events))
  {
    if events != [] {
      var front, last := events[..|events| - 1], events[|events| - 1];
      LinksAreDrawn(links, ns, front);
      match last.payload
      case NodeDelta(_, _) =>
      case EdgeDelta(id, edge) => DrawsDrawn(Links(links, ns, front), [(id, edge)]);
      case EdgeBatch(edges) => DrawsDrawn(Links(links, ns, front), edges);
    }
  }

  lemma {:induction false} DrawsDrawn(links: map<string, EdgeView>, rows: seq<(string, EdgeView)>)
    requires DrawnOnly(links)
    ensures DrawnOnly(DrawViews(links, rows))
  {
    if rows != [] {
      var before, row := DrawViews(links, rows[..|rows| - 1]), rows[|rows| - 1];
      DrawsDrawn(links, rows[..|rows| - 1]);
      assert DrawViews(links, rows) == if Drawn(row.1) then before[row.0 := row.1] else before;
    }
  }

  /** Batches carry complete edges only; a single upsert may lack an end. */
  predicate BatchesDrawn(events: seq<TraceEvent>) {
    forall i :: 0 <= i < |events| ==> events[i].payload.EdgeBatch? ==> AllDrawn(events[i].payload)
  }

  lemma {:induction false} BatchesAreDrawn(db: Db, calls: seq<Call>)
    ensures BatchesDrawn(Run(db, calls).events)
    decreases |calls|
  {
    if calls != [] {
      var front, last := calls[..|calls| - 1], calls[|calls| - 1];
      BatchesAreDrawn(db, front);
      StepEvents(Run(db, front).db, last.op, "");
      if last.op.UpsertBatch? {
        RowsAreComplete(last.op.entries, last.op.now);
      }
      var more := if last.traced then Step(Run(db, front).db, last.op).events else [];
      assert BatchesDrawn(more);
      assert Run(db, calls).events == Run(db, front).events + more;
    }
  }

  lemma {:induction false} RowsAreComplete(entries: seq<RawEdge>, now: string)
    ensures AllDrawn(EdgeBatch(Views(ValidRows(entries, now))))
    decreases |entries|
  {
    if entries != [] {
      var front, e := entries[..|entries| - 1], entries[|entries| - 1];
      RowsAreComplete(front, now);
      if WellFormed(e) {
        assert Drawn(ViewEdge(RowOf(e, now)));
        assert Views(ValidRows(entries, now)) == Views(ValidRows(front, now))
            + [(Strip(e.edgeId), ViewEdge(RowOf(e, now)))];
      } else {
        assert ValidRows(entries, now) == ValidRows(front, now);
      }
    }
  }

  ghost predicate Follows(r: Replica, ns: string, events: seq<TraceEvent>, j: nat)
    requires j <= |events|
  {
    Links(r.edges, ns, events[..j]) == Replay(r, ns, events[..j]).edges
  }

  /**
   * Over the events of any run, the client's links are the replica's edges after every event, exactly when no event
   * of the namespace carries an edge without one of its ends: the client leaves such an edge out, or keeps what it
   * drew under the id before.
   */
  lemma {:induction false} LinksFollowIff(r: Replica, ns: string, events: seq<TraceEvent>, n: nat)
    requires DrawnOnly(r.edges) && BatchesDrawn(events) && n <= |events|
    ensures (forall j :: 0 <= j <= n ==> Follows(r, ns, events, j))
            <==> forall i :: 0 <= i < n && events[i].ns == ns ==> AllDrawn(events[i].payload)
    decreases n
  {
    if n == 0 {
      assert events[..0] == [];
    } else {
      LinksFollowIff(r, ns, events, n - 1);
      if Follows(r, ns, events, n - 1) {
        assert events[..n] == events[..n - 1] + [events[n - 1]];
        LastLinks(r, ns, events[..n - 1], events[n - 1]);
        assert Follows(r, ns, events, n) <==> events[n - 1].ns != ns || AllDrawn(events[n - 1].payload);
      }
    }
  }

  lemma LastLinks(r: Replica, ns: string, front: seq<TraceEvent>, ev: TraceEvent)
    requires DrawnOnly(r.edges) && (ev.payload.EdgeBatch? ==> AllDrawn(ev.payload))
    requires Links(r.edges, ns, front) == Replay(r, ns, front).edges
    ensures Links(r.edges, ns, front + [ev]) == Replay(r, ns, front + [ev]).edges
            <==> ev.ns != ns || AllDrawn(ev.payload)
  {
    assert (front + [ev])[..|front + [ev]| - 1] == front;
    var links := Links(r.edges, ns, front);
    if ev.payload.EdgeBatch? {
      DrawsAll(links, ev.payload.edges);
    } else if ev.payload.EdgeDelta? {
      LinksAreDrawn(r.edges, ns, front);
      DrawsOne(links, ev.payload.id, ev.payload.edge);
    }
  }

  lemma DrawsOne(links: map<string, EdgeView>, id: string, edge: EdgeView)
    requires DrawnOnly(links)
    ensures DrawViews(links, [(id, edge)]) == links[id := edge] <==> Drawn(edge)
  {
    assert [(id, edge)][..0] == [] && DrawViews(links, []) == links;
    if !Drawn(edge) {
      assert DrawViews(links, [(id, edge)]) == links;
      assert links[id := edge][id] == edge;
    }
  }

  // ---------------------------------------------------------------- batches

  /** The single-edge calls that a batch stands for. */
  function Singles(ns: string, rows: seq<(string, Edge)>): seq<Call> {
    seq(|rows|, i requires 0 <= i < |rows| => Call(UpsertEdge(ns, rows[i].0, rows[i].1), true))
  }

  lemma {:induction false} ValidRowsAreStripped(entries: seq<RawEdge>, now: string)
    ensures forall i :: 0 <= i < |ValidRows(entries, now)| ==>
              ValidRows(entries, now)[i].0 != "" && Stripped(ValidRows(entries, now)[i].0)
    decreases |entries|
  {
    if entries != [] {
      ValidRowsAreStripped(entries[..|entries| - 1], now);
      var e := entries[|entries| - 1];
      if e.RawEdge? {
        StripIsStripped(e.edgeId);
      }
    }
  }

  lemma {:induction false} SinglesRun(db: Db, ns: string, rows: seq<(string, Edge)>)
    requires Strip(ns) != ""
    requires forall i :: 0 <= i < |rows| ==> rows[i].0 != "" && Stripped(rows[i].0)
    ensures var g, h := At(db, Strip(ns)), At(Run(db, Singles(ns, rows)).db, Strip(ns));
            h == Graph(g.nodes, PutEdges(g.edges, rows), g.rev + |rows|)
    ensures forall other :: other != Strip(ns) ==> At(Run(db, Singles(ns, rows)).db, other) == At(db, other)
    ensures FullyTraced(db, Singles(ns, rows), Strip(ns))
    decreases |rows|
  {
    if rows != [] {
      var front := rows[..|rows| - 1];
      SinglesRun(db, ns, front);
      assert Singles(ns, rows)[..|rows| - 1] == Singles(ns, front);
      StripFixed(rows[|rows| - 1].0);
    }
  }

  /**
   * A batch writes the same rows as upserting its well-formed entries one by one, in order, but advances
   * the counter by one (by none when no entry is well formed) and emits one event (or none).
   */
  lemma BatchRefinesSingles(db: Db, ns: string, entries: seq<RawEdge>, now: string)
    requires Strip(ns) != ""
    ensures var rows := ValidRows(entries, now);
            var batch := Step(db, UpsertBatch(ns, entries, now));
            var singles := Run(db, Singles(ns, rows));
            var g, b, s := At(db, Strip(ns)), At(batch.db, Strip(ns)), At(singles.db, Strip(ns));
            && b.nodes == s.nodes && b.edges == s.edges
            && b.rev == g.rev + (if rows == [] then 0 else 1) && s.rev == g.rev + |rows|
            && |batch.events| == (if rows == [] then 0 else 1)
            && (forall other :: other != Strip(ns) ==> At(batch.db, other) == At(singles.db, other))
  {
    var rows := ValidRows(entries, now);
    ValidRowsAreStripped(entries, now);
    SinglesRun(db, ns, rows);
  }

  // ---------------------------------------------------------------- deletes

  /** Every edge ends at nodes that exist. */
  ghost predicate Closed(g: Graph) {
    forall k :: k in g.edges ==> g.edges[k].src in g.nodes && g.edges[k].dst in g.nodes
  }

  /** Deleting the stale nodes keeps a closed graph closed, leaves only fresh nodes, and a second time does nothing. */
  lemma DeleteStaleIsClean(db: Db, ns: string)
    requires Strip(ns) != "" && Closed(At(db, Strip(ns)))
    ensures var o := Step(db, DeleteStale(ns));
            var g, h := At(db, Strip(ns)), At(o.db, Strip(ns));
            && Closed(h)
            && h.nodes.Keys == set k | k in g.nodes && g.nodes[k].staleness == "fresh"
            && Step(o.db, DeleteStale(ns)).db == o.db && h.rev == g.rev
  {
    var o := Step(db, DeleteStale(ns));
    var h := At(o.db, Strip(ns));
    assert StaleNodes(h) == {} && Touching(h.edges, {}) == {};
    assert h.nodes - {} == h.nodes && h.edges - {} == h.edges;
    assert o.db[Strip(ns) := h] == o.db;
  }

  /** Deleting nodes by path leaves edges alone, so it dangles exactly the edges that touch the deleted nodes. */
  lemma DeleteByPathDangles(db: Db, ns: string, level: string, path: string)
    requires Strip(ns) != "" && Strip(level) != "" && Strip(path) != "" && Closed(At(db, Strip(ns)))
    ensures var g, h := At(db, Strip(ns)), At(Step(db, DeleteNodesByLevelAndPath(ns, level, path)).db, Strip(ns));
            Closed(h) <==> Touching(g.edges, AtPath(g, Strip(level), Strip(path))) == {}
  {
    var g, h := At(db, Strip(ns)), At(Step(db, DeleteNodesByLevelAndPath(ns, level, path)).db, Strip(ns));
    var gone := AtPath(g, Strip(level), Strip(path));
    forall k | k in g.edges
      ensures k in Touching(g.edges, gone) <==> !(g.edges[k].src in h.nodes && g.edges[k].dst in h.nodes)
    {
    }
    if Closed(h) {
      assert forall k :: k in g.edges ==> k in h.edges;
      assert Touching(g.edges, gone) == {};
    }
  }

  /** Cutting the edges at the nodes first, as a re-index does, leaves nothing dangling. */
  lemma CutThenDropStaysClosed(db: Db, ns: string, level: string, path: string, ids: seq<string>)
    requires Strip(ns) != "" && Strip(level) != "" && Strip(path) != "" && Closed(At(db, Strip(ns)))
    requires AtPath(At(db, Strip(ns)), Strip(level), Strip(path)) <= CleanIds(ids)
    ensures var cut := Step(db, DeleteEdgesTouching(ns, ids));
            Closed(At(Step(cut.db, DeleteNodesByLevelAndPath(ns, level, path)).db, Strip(ns)))
  {
    var cut := Step(db, DeleteEdgesTouching(ns, ids));
    var g, h := At(db, Strip(ns)), At(cut.db, Strip(ns));
    var gone := AtPath(h, Strip(level), Strip(path));
    assert gone == AtPath(g, Strip(level), Strip(path)) && Touching(h.edges, gone) == {};
    DeleteByPathDangles(cut.db, ns, level, path);
  }
}
