/** Writing one key of the global configuration: a path of segments, walked and written in place. */
module ConfigStore {
  import opened Prelude
  import opened MergedConfig

  // ---------------------------------------------------------------- the effect on values

  function SubTree(t: Value, name: string): Value
    requires t.Mapping?
  {
    if name in t.entries && t.entries[name].Mapping? then t.entries[name] else NOTHING
  }

  /** Missing and non-mapping intermediates become mappings; the last segment gets the value. */
  function SetPath(t: Value, path: seq<string>, v: Value): Value
    requires t.Mapping? && path != []
    decreases |path|
  {
    Mapping(t.entries[path[0] := if |path| == 1 then v else SetPath(SubTree(t, path[0]), path[1..], v)])
  }

  /** The tree that holds nothing but the value at the path. */
  function Singleton(path: seq<string>, v: Value): Value {
    if path == [] then v else Mapping(map[path[0] := Singleton(path[1..], v)])
  }

  /** An in-place write of a scalar is exactly the merge of a one-value layer. */
  lemma {:induction false} SetPathIsMerge(t: Value, path: seq<string>, a: Atom)
    requires t.Mapping? && path != []
    ensures SetPath(t, path, Scalar(a)) == Merge(t, Singleton(path, Scalar(a)))
    decreases |path|
  {
    var name, rest := path[0], Singleton(path[1..], Scalar(a));
    if |path| == 1 {
      assert path[1..] == [];
    } else {
      SetPathIsMerge(SubTree(t, name), path[1..], a);
      MergeFromNothing(rest);
    }
    PutIsMerge(t, name, rest, if name in t.entries then Merge(t.entries[name], rest) else rest);
  }

  lemma PutIsMerge(t: Value, name: string, rest: Value, put: Value)
    requires t.Mapping? && put == if name in t.entries then Merge(t.entries[name], rest) else rest
    ensures Merge(t, Mapping(map[name := rest])) == Mapping(t.entries[name := put])
  {
    var o := Mapping(map[name := rest]);
    MergeEntry(t, o, name);
    var m, goal := Merge(t, o).entries, t.entries[name := put];
    forall k ensures (k in m <==> k in goal) && (k in m ==> m[k] == goal[k]) {
      MergeEntry(t, o, k);
    }
    SameEntries(m, goal);
  }

  lemma {:induction false} SetPathReadsBack(t: Value, path: seq<string>, v: Value)
    requires t.Mapping? && path != []
    ensures Lookup(SetPath(t, path, v), path) == Some(v)
    decreases |path|
  {
    if |path| > 1 {
      SetPathReadsBack(SubTree(t, path[0]), path[1..], v);
    } else {
      assert path[1..] == [];
    }
  }

  /** Every path that is neither a prefix nor an extension of the written one reads as before. */
  lemma {:induction false} SetPathFrame(t: Value, path: seq<string>, v: Value, other: seq<string>)
    requires t.Mapping? && path != [] && !(other <= path) && !(path <= other)
    ensures Lookup(SetPath(t, path, v), other) == Lookup(t, other)
    decreases |path|
  {
    if other[0] == path[0] && |path| > 1 {
      assert other == [path[0]] + other[1..] && path == [path[0]] + path[1..];
      SetPathFrame(SubTree(t, path[0]), path[1..], v, other[1..]);
      if !(path[0] in t.entries && t.entries[path[0]].Mapping?) {
        assert Lookup(NOTHING, other[1..]) == None;
      }
    }
  }

  /** Making the intermediate mapping first does not change where the write ends up. */
  lemma {:induction false} SetPathThroughEmpty(t: Value, prefix: seq<string>, rest: seq<string>, v: Value)
    requires t.Mapping? && prefix != [] && rest != []
    requires forall s :: Lookup(t, prefix) == Some(s) ==> s.Scalar?
    ensures SetPath(SetPath(t, prefix, NOTHING), prefix + rest, v) == SetPath(t, prefix + rest, v)
    decreases |prefix|
  {
    var name, path := prefix[0], prefix + rest;
    var u := SetPath(t, prefix, NOTHING);
    assert path[0] == name && path[1..] == prefix[1..] + rest;
    if |prefix| == 1 {
      assert prefix[1..] + rest == rest;
      assert Lookup(t, prefix) == if name in t.entries then Some(t.entries[name]) else None by {
        assert prefix[1..] == [];
      }
      assert SubTree(u, name) == NOTHING && SubTree(t, name) == NOTHING;
    } else {
      if name in t.entries && t.entries[name].Mapping? {
        assert Lookup(t, prefix) == Lookup(t.entries[name], prefix[1..]);
      } else {
        assert Lookup(NOTHING, prefix[1..]) == None;
      }
      SetPathThroughEmpty(SubTree(t, name), prefix[1..], rest, v);
    }
    assert SetPath(u, path, v).entries == SetPath(t, path, v).entries;
  }

  // ---------------------------------------------------------------- nested dicts, in place

  datatype Item = Leaf(atom: Atom) | Sub(d: Dict)

  /** A mutable mapping. `Model` is its value; `parent` and `slot` say under which key of which dict it hangs. */
  class Dict {
    var items: map<string, Item>
    ghost var Model: Value
    ghost var parent: Dict?
    ghost var slot: string

    constructor ()
      ensures items == map[] && Model == NOTHING && parent == null
    {
      items, Model, parent, slot := map[], NOTHING, null, "";
    }

    /** The model agrees with the items, and the dicts among the items know where they hang. */
    ghost predicate Agrees(all: set<Dict>)
      reads this, all
    {
      && Model.Mapping? && Model.entries.Keys == items.Keys
      && forall k :: k in items ==>
           match items[k]
           case Leaf(a) => Model.entries[k] == Scalar(a)
           case Sub(d) => d in all && d.parent == this && d.slot == k && d.Model == Model.entries[k]
    }
  }

  /** The dicts of a configuration: each hangs in one place, so the same dict is never reachable twice. */
  ghost predicate Tree(root: Dict, all: set<Dict>)
    reads all
  {
    root in all && root.parent == null && forall d :: d in all ==> d.Agrees(all)
  }

  /** `spine` is the walk from the root down the names of `path`. */
  ghost predicate Walk(spine: seq<Dict>, path: seq<string>, root: Dict, all: set<Dict>)
    reads all
  {
    && |spine| == |path| + 1 && spine[0] == root && (forall d :: d in spine ==> d in all)
    && (forall i, j :: 0 <= i < j < |spine| ==> spine[i] != spine[j])
    && (forall j :: 0 <= j < |path| ==> path[j] in spine[j].items && spine[j].items[path[j]] == Sub(spine[j + 1]))
  }

  /** The value the `j`-th dict of the walk gets when `v` is written under `name` of the last one. */
  ghost function Rewritten(model: Value, path: seq<string>, j: nat, name: string, v: Value): Value
    requires j <= |path| && model.Mapping?
  {
    SetPath(model, path[j..] + [name], v)
  }

  /** Rewriting a dict of the walk is rewriting the next one and putting it back. */
  lemma RewrittenStep(spine: seq<Dict>, path: seq<string>, root: Dict, all: set<Dict>, j: nat, name: string, v: Value)
    requires Tree(root, all) && Walk(spine, path, root, all) && j < |spine|
    ensures spine[j].Model.Mapping?
    ensures j < |path| ==> spine[j + 1].Model.Mapping?
    ensures Rewritten(spine[j].Model, path, j, name, v) ==
            if j == |path| then Mapping(spine[j].Model.entries[name := v])
            else Mapping(spine[j].Model.entries[path[j] := Rewritten(spine[j + 1].Model, path, j + 1, name, v)])
  {
    assert spine[j].Agrees(all);
    if j == |path| {
      assert path[j..] + [name] == [name];
    } else {
      assert (path[j..] + [name])[0] == path[j] && (path[j..] + [name])[1..] == path[j + 1..] + [name];
      assert spine[j + 1].Agrees(all);
      assert SubTree(spine[j].Model, path[j]) == spine[j + 1].Model;
    }
  }

  /** A dict of the walk hangs under the previous one; nothing else hangs there or is the root. */
  lemma WalkParents(spine: seq<Dict>, path: seq<string>, root: Dict, all: set<Dict>, d: Dict, k: string)
    requires Tree(root, all) && Walk(spine, path, root, all)
    requires d in all && k in d.items && d.items[k].Sub?
    ensures forall m :: 0 <= m < |spine| && spine[m] == d.items[k].d ==> m > 0 && d == spine[m - 1] && k == path[m - 1]
  {
    assert d.Agrees(all);
    forall m | 0 <= m < |spine| && spine[m] == d.items[k].d
      ensures m > 0 && d == spine[m - 1] && k == path[m - 1]
    {
      if m > 0 {
        assert spine[m - 1].Agrees(all);
      }
    }
  }

  ghost function Models(spine: seq<Dict>, path: seq<string>, name: string, v: Value): (ms: seq<Value>)
    requires |spine| == |path| + 1 && forall d :: d in spine ==> d.Model.Mapping?
    reads spine
    ensures |ms| == |spine| && forall j :: 0 <= j < |ms| ==> ms[j] == Rewritten(spine[j].Model, path, j, name, v)
  {
    seq(|spine|, j requires 0 <= j < |spine| reads spine =>
          if spine[j].Model.Mapping? then Rewritten(spine[j].Model, path, j, name, v) else NOTHING)
  }

  lemma ModelsAlong(spine: seq<Dict>, path: seq<string>, root: Dict, all: set<Dict>, name: string, v: Value,
                    was: map<Dict, Value>)
    requires Tree(root, all) && Walk(spine, path, root, all) && forall d :: d in spine ==> d in was && was[d] == d.Model
    ensures forall d :: d in spine ==> d.Model.Mapping?
    ensures var models := Models(spine, path, name, v);
            forall j :: 0 <= j < |spine| ==>
              models[j] == if j == |path| then Mapping(was[spine[j]].entries[name := v])
                           else Mapping(was[spine[j]].entries[path[j] := models[j + 1]])
  {
    assert forall d :: d in spine ==> d.Agrees(all) && d.Model.Mapping?;
    var models := Models(spine, path, name, v);
    forall j | 0 <= j < |spine|
      ensures models[j] == if j == |path| then Mapping(was[spine[j]].entries[name := v])
                           else Mapping(was[spine[j]].entries[path[j] := models[j + 1]])
    {
      RewrittenStep(spine, path, root, all, j, name, v);
    }
  }

  /** Items and models as they were, with the hanging places as they still are. */
  ghost predicate Snapshot(all: set<Dict>, items: map<Dict, map<string, Item>>, models: map<Dict, Value>)
    reads all
  {
    && items.Keys == models.Keys == all
    && forall d :: d in all ==>
         && models[d].Mapping? && models[d].entries.Keys == items[d].Keys
         && forall k :: k in items[d] ==>
              match items[d][k]
              case Leaf(a) => models[d].entries[k] == Scalar(a)
              case Sub(c) => c in all && c.parent == d && c.slot == k && models[c] == models[d].entries[k]
  }

  /** In a snapshot, a dict of the walk hangs under the previous one only. */
  ghost predicate HangsOnWalk(spine: seq<Dict>, path: seq<string>, all: set<Dict>, items: map<Dict, map<string, Item>>)
    requires items.Keys == all && |spine| == |path| + 1
  {
    forall d, k :: d in all && k in items[d] && items[d][k].Sub? ==>
      forall m :: 0 <= m < |spine| && spine[m] == items[d][k].d ==> m > 0 && d == spine[m - 1] && k == path[m - 1]
  }

  /** In a snapshot, the spine is a walk down the names of the path. */
  ghost predicate WalkIn(spine: seq<Dict>, path: seq<string>, all: set<Dict>, items: map<Dict, map<string, Item>>)
    requires items.Keys == all
  {
    && |spine| == |path| + 1 && (forall x :: x in spine ==> x in all)
    && (forall i, j :: 0 <= i < j < |spine| ==> spine[i] != spine[j])
    && (forall j :: 0 <= j < |path| ==> path[j] in items[spine[j]] && items[spine[j]][path[j]] == Sub(spine[j + 1]))
    && HangsOnWalk(spine, path, all, items)
  }

  /** Since the snapshot, `item` was written under `name` of the last dict of the walk, and the models followed. */
  ghost predicate Written(all: set<Dict>, spine: seq<Dict>, path: seq<string>, name: string, item: Item, v: Value,
                          items: map<Dict, map<string, Item>>, models: map<Dict, Value>)
    reads all
  {
    && Snapshot(all, items, models) && WalkIn(spine, path, all, items)
    && (forall x :: x in all ==> x.items == if x == spine[|path|] then items[x][name := item] else items[x])
    && (forall x :: x in all && x !in spine ==> x.Model == models[x])
    && (forall j :: 0 <= j < |path| ==>
          spine[j].Model == Mapping(models[spine[j]].entries[path[j] := spine[j + 1].Model]))
    && spine[|path|].Model == Mapping(models[spine[|path|]].entries[name := v])
  }

  /** What is written is the value the models were given, and a written dict knows where it hangs. */
  ghost predicate Fits(item: Item, v: Value, name: string, last: Dict, now: set<Dict>)
    reads now
  {
    match item
    case Leaf(a) => v == Scalar(a)
    case Sub(d) => d in now && d.parent == last && d.slot == name && d.Model == v
  }

  /** The written dict and the rewritten models agree again, and so does everything off the walk. */
  lemma AgreesAfter(all: set<Dict>, now: set<Dict>, spine: seq<Dict>, path: seq<string>, name: string, item: Item,
                    v: Value, items: map<Dict, map<string, Item>>, models: map<Dict, Value>, d: Dict)
    requires Written(all, spine, path, name, item, v, items, models) && all <= now && d in all
    requires Fits(item, v, name, spine[|path|], now)
    ensures d.Agrees(now)
  {
    if d !in spine {
      AgreesOffWalk(all, now, spine, path, items, models, d);
    } else {
      var j :| 0 <= j < |spine| && spine[j] == d;
      if j < |path| {
        assert d.Model == Mapping(models[d].entries[path[j] := spine[j + 1].Model]);
      }
      forall k | k in d.items && !(j == |path| && k == name) && !(j < |path| && k == path[j]) && d.items[k].Sub?
        ensures d.items[k].d !in spine
      {
        assert items[d][k] == d.items[k];
      }
    }
  }

  lemma WrittenIsTree(root: Dict, all: set<Dict>, now: set<Dict>, spine: seq<Dict>, path: seq<string>, name: string,
                      item: Item, v: Value, items: map<Dict, map<string, Item>>, models: map<Dict, Value>)
    requires Written(all, spine, path, name, item, v, items, models) && root == spine[0] && root.parent == null
    requires now == (if item.Sub? then all + {item.d} else all) && Fits(item, v, name, spine[|path|], now)
    requires item.Sub? ==> item.d.items == map[] && item.d.Model == NOTHING
    ensures Tree(root, now) && Walk(spine, path, root, now)
  {
    forall d | d in all
      ensures d.Agrees(now)
    {
      AgreesAfter(all, now, spine, path, name, item, v, items, models, d);
    }
    if item.Sub? {
      assert item.d.Agrees(now);
    }
  }

  lemma NotOnWalk(spine: seq<Dict>, path: seq<string>, all: set<Dict>, items: map<Dict, map<string, Item>>, d: Dict,
                  k: string)
    requires items.Keys == all && d in all && |spine| == |path| + 1 && HangsOnWalk(spine, path, all, items)
    requires k in items[d] && items[d][k].Sub? && d !in spine
    ensures items[d][k].d !in spine
  {
    var c := items[d][k].d;
    forall m | 0 <= m < |spine| ensures spine[m] != c {
      assert m > 0 ==> spine[m - 1] in spine;
    }
  }

  lemma AgreesOffWalk(all: set<Dict>, now: set<Dict>, spine: seq<Dict>, path: seq<string>,
                      items: map<Dict, map<string, Item>>, models: map<Dict, Value>, d: Dict)
    requires Snapshot(all, items, models) && all <= now && d in all && d !in spine
    requires |spine| == |path| + 1 && HangsOnWalk(spine, path, all, items) && d.items == items[d]
    requires forall x :: x in all && x !in spine ==> x.Model == models[x]
    ensures d.Agrees(now)
  {
    forall k | k in d.items && d.items[k].Sub? ensures d.items[k].d !in spine {
      NotOnWalk(spine, path, all, items, d, k);
    }
  }

  ghost function ItemsOf(all: set<Dict>): map<Dict, map<string, Item>>
    reads all
  {
    map d | d in all :: d.items
  }

  ghost function ModelsOf(all: set<Dict>): map<Dict, Value>
    reads all
  {
    map d | d in all :: d.Model
  }

  lemma TakeSnapshot(spine: seq<Dict>, path: seq<string>, root: Dict, all: set<Dict>)
    requires Tree(root, all) && Walk(spine, path, root, all)
    ensures Snapshot(all, ItemsOf(all), ModelsOf(all)) && HangsOnWalk(spine, path, all, ItemsOf(all))
  {
    assert forall d :: d in all ==> d.Agrees(all);
    forall d, k | d in all && k in d.items && d.items[k].Sub?
      ensures forall m :: 0 <= m < |spine| && spine[m] == d.items[k].d ==>
                m > 0 && d == spine[m - 1] && k == path[m - 1]
    {
      WalkParents(spine, path, root, all, d, k);
    }
  }

  /** The write itself, and the ghost models along the walk. */
  method Put(ghost all: set<Dict>, ghost spine: seq<Dict>, ghost models: seq<Value>, cur: Dict, name: string,
             item: Item)
    requires cur in all && (forall d :: d in spine ==> d in all) && |models| == |spine|
    requires forall i, j :: 0 <= i < j < |spine| ==> spine[i] != spine[j]
    modifies all
    ensures forall d :: d in all ==> d.items == (if d == cur then old(d.items)[name := item] else old(d.items))
                                     && d.parent == old(d.parent) && d.slot == old(d.slot)
    ensures forall j :: 0 <= j < |spine| ==> spine[j].Model == models[j]
    ensures forall d :: d in all && d !in spine ==> d.Model == old(d.Model)
  {
    cur.items := cur.items[name := item];
    forall j | 0 <= j < |spine| {
      spine[j].Model := models[j];
    }
  }

  /**
   * `cur[name] = item` on the last dict of the walk; the ghost models of the walk follow. `all` grows by the
   * fresh dict when the item is one.
   */
  method Assign(root: Dict, ghost all: set<Dict>, ghost spine: seq<Dict>, ghost path: seq<string>, cur: Dict,
                name: string, item: Item)
    returns (ghost now: set<Dict>)
    requires Tree(root, all) && Walk(spine, path, root, all) && cur == spine[|path|]
    requires item.Sub? ==>
               item.d !in all && item.d.items == map[] && item.d.Model == NOTHING
               && item.d.parent == cur && item.d.slot == name
    modifies all
    ensures now == if item.Sub? then all + {item.d} else all
    ensures Tree(root, now) && Walk(spine, path, root, now)
    ensures cur.items == old(cur.items)[name := item]
    ensures root.Model == SetPath(old(root.Model), path + [name], if item.Sub? then NOTHING else Scalar(item.atom))
  {
    ghost var v := if item.Sub? then NOTHING else Scalar(item.atom);
    now := if item.Sub? then all + {item.d} else all;
    ghost var items, was := ItemsOf(all), ModelsOf(all);
    TakeSnapshot(spine, path, root, all);
    ModelsAlong(spine, path, root, all, name, v, was);
    ghost var models := Models(spine, path, name, v);
    assert path[0..] == path;
    Put(all, spine, models, cur, name, item);
    assert Written(all, spine, path, name, item, v, items, was);
    WrittenIsTree(root, all, now, spine, path, name, item, v, items, was);
  }

  predicate HasMapping(t: Value, path: seq<string>) {
    Lookup(t, path).Some? && Lookup(t, path).value.Mapping?
  }

  /** One turn of the loop: step into the dict under `name`, putting an empty one there first when there is none. */
  method Descend(root: Dict, ghost all: set<Dict>, ghost spine: seq<Dict>, ghost path: seq<string>, cur: Dict,
                 name: string)
    returns (nxt: Dict, ghost now: set<Dict>)
    requires Tree(root, all) && Walk(spine, path, root, all) && cur == spine[|path|]
    modifies all
    ensures all <= now && fresh(now - all) && Tree(root, now)
    ensures Walk(spine + [nxt], path + [name], root, now)
    ensures old(root.Model).Mapping?
    ensures root.Model == if HasMapping(old(root.Model), path + [name]) then old(root.Model)
                          else SetPath(old(root.Model), path + [name], NOTHING)
  {
    WalkLookup(spine, path, root, all, name);
    now := all;
    if !(name in cur.items && cur.items[name].Sub?) {
      var d := new Dict();
      d.parent, d.slot := cur, name;
      now := Assign(root, all, spine, path, cur, name, Sub(d));
    }
    nxt := cur.items[name].d;
    WalkFurther(spine, path, root, now, name);
  }

  lemma DescendKeepsTarget(t: Value, u: Value, prefix: seq<string>, rest: seq<string>, v: Value)
    requires t.Mapping? && prefix != [] && rest != []
    requires u == if HasMapping(t, prefix) then t else SetPath(t, prefix, NOTHING)
    ensures u.Mapping? && SetPath(u, prefix + rest, v) == SetPath(t, prefix + rest, v)
  {
    if !HasMapping(t, prefix) {
      SetPathThroughEmpty(t, prefix, rest, v);
    }
  }

  lemma SplitAt(path: seq<string>, i: nat)
    requires i < |path|
    ensures path[..i] + [path[i]] == path[..i + 1] && path == path[..i + 1] + path[i + 1..]
  {
  }

  /** `NestedMappingWriter.set_path`; the empty path raises. */
  method SetPathInPlace(root: Dict, ghost all: set<Dict>, path: seq<string>, value: Atom)
    returns (ok: bool, ghost now: set<Dict>)
    requires Tree(root, all)
    modifies all
    ensures ok <==> path != []
    ensures all <= now && fresh(now - all) && Tree(root, now)
    ensures ok ==> old(root.Model).Mapping?
    ensures root.Model == if ok then SetPath(old(root.Model), path, Scalar(value)) else old(root.Model)
  {
    now := all;
    if path == [] {
      return false, all;
    }
    var n := |path| - 1;
    var cur := root;
    assert root.Agrees(all);
    ghost var spine, goal := [root], SetPath(root.Model, path, Scalar(value));
    for i := 0 to n
      invariant all <= now && fresh(now - all) && Tree(root, now)
      invariant Walk(spine, path[..i], root, now) && cur == spine[i]
      invariant root.Model.Mapping? && SetPath(root.Model, path, Scalar(value)) == goal
    {
      ghost var before := root.Model;
      cur, now := Descend(root, now, spine, path[..i], cur, path[i]);
      spine := spine + [cur];
      SplitAt(path, i);
      DescendKeepsTarget(before, root.Model, path[..i + 1], path[i + 1..], Scalar(value));
    }
    SplitAt(path, n);
    assert path[..n + 1] == path;
    now := Assign(root, now, spine, path[..n], cur, path[n], Leaf(value));
    ok := true;
  }

  /** Where the walk ends, the item under a name is what the root's model shows there. */
  lemma WalkLookup(spine: seq<Dict>, path: seq<string>, root: Dict, all: set<Dict>, name: string)
    requires Tree(root, all) && Walk(spine, path, root, all)
    ensures root.Model.Mapping?
    ensures HasMapping(root.Model, path + [name]) <==> name in spine[|path|].items && spine[|path|].items[name].Sub?
  {
    var last := spine[|path|];
    assert root.Agrees(all) && last.Agrees(all);
    if name in last.items && last.items[name].Sub? {
      assert last.items[name].d.Agrees(all);
    }
    WalkModel(spine, path, root, all, |path|);
    assert path[..|path|] == path;
    LookupAppend(root.Model, path, name);
  }

  lemma {:induction false} WalkModel(spine: seq<Dict>, path: seq<string>, root: Dict, all: set<Dict>, j: nat)
    requires Tree(root, all) && Walk(spine, path, root, all) && j <= |path|
    ensures Lookup(root.Model, path[..j]) == Some(spine[j].Model)
  {
    if j > 0 {
      WalkModel(spine, path, root, all, j - 1);
      assert spine[j - 1].Agrees(all);
      LookupAppend(root.Model, path[..j - 1], path[j - 1]);
      assert path[..j - 1] + [path[j - 1]] == path[..j];
    }
  }

  lemma {:induction false} LookupAppend(v: Value, path: seq<string>, name: string)
    ensures Lookup(v, path + [name]) ==
            match Lookup(v, path)
            case Some(Mapping(m)) => (if name in m then Some(m[name]) else None)
            case _ => None
    decreases |path|
  {
    if path == [] {
      assert path + [name] == [name] && [name][1..] == [];
    } else {
      assert (path + [name])[1..] == path[1..] + [name];
      if v.Mapping? && path[0] in v.entries {
        LookupAppend(v.entries[path[0]], path[1..], name);
      }
    }
  }

  /** Stepping into a dict that hangs under the last one extends the walk. */
  lemma WalkFurther(spine: seq<Dict>, path: seq<string>, root: Dict, all: set<Dict>, name: string)
    requires Tree(root, all) && Walk(spine, path, root, all)
    requires name in spine[|path|].items && spine[|path|].items[name].Sub?
    ensures Walk(spine + [spine[|path|].items[name].d], path + [name], root, all)
  {
    var last, nxt := spine[|path|], spine[|path|].items[name].d;
    assert last.Agrees(all);
    WalkParents(spine, path, root, all, last, name);
    assert forall m :: 0 <= m < |spine| ==> spine[m] != nxt;
  }
}
