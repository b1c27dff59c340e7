/**
 * Layered configuration: the recursive merge of mappings, the fold of layers that `load` performs with its
 * environment overlay, and how a lookup is decided.
 */
module MergedConfig {
  import opened Prelude

  datatype Atom = Text(text: string) | Number(n: int) | Flag(b: bool) | Null | Items(items: seq<string>)

  /** A YAML value: a mapping, or anything that is not one. */
  datatype Value = Scalar(atom: Atom) | Mapping(entries: map<string, Value>)

  const NOTHING := Mapping(map[])

  // ---------------------------------------------------------------- merge

  /** Two mappings merge key by key; in every other case the overlay wins. */
  function Merge(base: Value, overlay: Value): Value
    decreases overlay
  {
    if base.Scalar? || overlay.Scalar? then overlay
    else Mapping(map k | k in base.entries.Keys + overlay.entries.Keys ::
                   if k !in overlay.entries then base.entries[k]
                   else if k !in base.entries then overlay.entries[k]
                   else Merge(base.entries[k], overlay.entries[k]))
  }

  /** One key of a merge of mappings. */
  lemma MergeEntry(t: Value, o: Value, k: string)
    requires t.Mapping? && o.Mapping?
    ensures Merge(t, o).Mapping? && (k in Merge(t, o).entries <==> k in t.entries || k in o.entries)
    ensures k in t.entries && k !in o.entries ==> Merge(t, o).entries[k] == t.entries[k]
    ensures k in o.entries ==>
              Merge(t, o).entries[k] == if k in t.entries then Merge(t.entries[k], o.entries[k]) else o.entries[k]
  {
  }

  /** The base with the overlay's keys in `done` merged in. */
  ghost function Visited(base: Value, overlay: Value, done: set<string>): map<string, Value>
    requires base.Mapping? && overlay.Mapping? && done <= overlay.entries.Keys
  {
    map k | k in base.entries.Keys + done ::
      if k !in done then base.entries[k]
      else if k in base.entries then Merge(base.entries[k], overlay.entries[k])
      else overlay.entries[k]
  }

  lemma VisitKey(base: Value, overlay: Value, done: set<string>, key: string, v: Value)
    requires base.Mapping? && overlay.Mapping? && done <= overlay.entries.Keys && key in overlay.entries && key !in done
    requires v == if key in base.entries then Merge(base.entries[key], overlay.entries[key]) else overlay.entries[key]
    ensures Visited(base, overlay, done + {key}) == Visited(base, overlay, done)[key := v]
  {
  }

  lemma VisitAll(base: Value, overlay: Value)
    requires base.Mapping? && overlay.Mapping?
    ensures Visited(base, overlay, {}) == base.entries
    ensures Mapping(Visited(base, overlay, overlay.entries.Keys)) == Merge(base, overlay)
  {
    var all, merged := Visited(base, overlay, overlay.entries.Keys), Merge(base, overlay).entries;
    assert all.Keys == merged.Keys;
  }

  lemma MoveOver<T>(all: set<T>, todo: set<T>, x: T)
    requires todo <= all && x in todo
    ensures all - (todo - {x}) == (all - todo) + {x}
  {
  }

  lemma Unvisited(base: Value, overlay: Value, done: set<string>, key: string)
    requires base.Mapping? && overlay.Mapping? && done <= overlay.entries.Keys && key !in done
    ensures key in Visited(base, overlay, done) <==> key in base.entries
    ensures key in base.entries ==> Visited(base, overlay, done)[key] == base.entries[key]
  {
  }

  /** The value of a key that both have: merged when both values are mappings, else the overlay's. */
  method MergeItem(was: Value, v: Value) returns (r: Value)
    ensures r == Merge(was, v)
    decreases v, 1
  {
    r := v;
    if was.Mapping? && v.Mapping? {
      r := DeepMerge(was, v);
    }
  }

  /** `_deep_merge`: copy the base, then visit the overlay's items. */
  method DeepMerge(base: Value, overlay: Value) returns (result: Value)
    requires base.Mapping? && overlay.Mapping?
    ensures result == Merge(base, overlay)
    decreases overlay, 0
  {
    var entries := base.entries;
    var todo := overlay.entries.Keys;
    ghost var done: set<string> := {};
    VisitAll(base, overlay);
    while todo != {}
      invariant todo <= overlay.entries.Keys && done == overlay.entries.Keys - todo
      invariant entries == Visited(base, overlay, done)
      decreases |todo|
    {
      var key :| key in todo;
      var v := overlay.entries[key];
      Unvisited(base, overlay, done, key);
      if key in entries {
        v := MergeItem(entries[key], v);
      }
      VisitKey(base, overlay, done, key, v);
      entries := entries[key := v];
      MoveOver(overlay.entries.Keys, todo, key);
      todo, done := todo - {key}, done + {key};
    }
    assert done == overlay.entries.Keys;
    result := Mapping(entries);
  }

  // ---------------------------------------------------------------- lookup

  function Lookup(v: Value, path: seq<string>): Option<Value> {
    if path == [] then Some(v)
    else if v.Mapping? && path[0] in v.entries then Lookup(v.entries[path[0]], path[1..])
    else None
  }

  /** The scalar found at a path, if that is what is there. */
  function ScalarAt(v: Value, path: seq<string>): Option<Atom> {
    match Lookup(v, path)
    case Some(Scalar(a)) => Some(a)
    case _ => None
  }

  /** The layer has some value at the path, or a non-mapping at a proper prefix of it. */
  predicate Decides(v: Value, path: seq<string>) {
    path == [] || v.Scalar? || (path[0] in v.entries && Decides(v.entries[path[0]], path[1..]))
  }

  lemma {:induction false} MergeLookup(a: Value, b: Value, path: seq<string>)
    ensures ScalarAt(Merge(a, b), path) == if Decides(b, path) then ScalarAt(b, path) else ScalarAt(a, path)
    decreases path
  {
    if !Decides(b, path) {
      UndecidedIsEmpty(b, path);
    }
    if path != [] && a.Mapping? && b.Mapping? && path[0] in a.entries && path[0] in b.entries {
      MergeLookup(a.entries[path[0]], b.entries[path[0]], path[1..]);
    }
  }

  lemma {:induction false} UndecidedIsEmpty(v: Value, path: seq<string>)
    requires !Decides(v, path)
    ensures path != [] && Lookup(v, path) == None
    decreases path
  {
    if path[0] in v.entries {
      UndecidedIsEmpty(v.entries[path[0]], path[1..]);
    }
  }

  // ---------------------------------------------------------------- layers

  /** Layers in rising priority, folded as `load` does. */
  function Fold(layers: seq<Value>): Value {
    if layers == [] then NOTHING else Merge(Fold(layers[..|layers| - 1]), layers[|layers| - 1])
  }

  /** The last layer that decides the path. */
  function LastDeciding(layers: seq<Value>, path: seq<string>): Option<Value> {
    if layers == [] then None
    else if Decides(layers[|layers| - 1], path) then Some(layers[|layers| - 1])
    else LastDeciding(layers[..|layers| - 1], path)
  }

  /** For any number of layers, the merged scalar at a path is the last deciding layer's own scalar there. */
  lemma {:induction false} LayeredLookup(layers: seq<Value>, path: seq<string>)
    requires path != []
    ensures ScalarAt(Fold(layers), path) ==
            match LastDeciding(layers, path) case Some(l) => ScalarAt(l, path) case None => None
    decreases |layers|
  {
    if layers != [] {
      LayeredLookup(layers[..|layers| - 1], path);
      MergeLookup(Fold(layers[..|layers| - 1]), layers[|layers| - 1], path);
    }
  }

  // ---------------------------------------------------------------- algebra of merge

  lemma {:induction false} MergeIdempotent(a: Value)
    ensures Merge(a, a) == a
  {
    if a.Mapping? {
      forall k | k in a.entries
        ensures Merge(a.entries[k], a.entries[k]) == a.entries[k]
      {
        MergeIdempotent(a.entries[k]);
      }
      assert Merge(a, a).entries == a.entries;
    }
  }

  /** Everything `x` has is overridden by `y`. */
  predicate Covered(x: Value, y: Value)
    decreases y
  {
    x.Mapping? && y.Mapping? ==> forall k :: k in x.entries ==> k in y.entries && Covered(x.entries[k], y.entries[k])
  }

  lemma {:induction false} MergeAbsorbsIff(x: Value, y: Value)
    ensures Merge(x, y) == y <==> Covered(x, y)
    decreases y
  {
    if x.Mapping? && y.Mapping? {
      forall k | k in x.entries && k in y.entries
        ensures Merge(x.entries[k], y.entries[k]) == y.entries[k] <==> Covered(x.entries[k], y.entries[k])
      {
        MergeAbsorbsIff(x.entries[k], y.entries[k]);
      }
      if Covered(x, y) {
        assert Merge(x, y).entries == y.entries;
      } else {
        var k :| k in x.entries && !(k in y.entries && Covered(x.entries[k], y.entries[k]));
        assert k in Merge(x, y).entries;
      }
    }
  }

  /** A mapping, hidden by a scalar in the next layer, shows through a mapping in the one after. */
  predicate Resurfaces(a: Value, b: Value, c: Value)
    decreases c
  {
    a.Mapping? && c.Mapping? &&
    if b.Scalar? then !Covered(a, c)
    else
      exists k :: k in a.entries && k in b.entries && k in c.entries
                  && Resurfaces(a.entries[k], b.entries[k], c.entries[k])
  }

  /** Merging is associative exactly when no mapping resurfaces from under a scalar. */
  lemma {:induction false} MergeAssociativeIff(a: Value, b: Value, c: Value)
    ensures Merge(Merge(a, b), c) == Merge(a, Merge(b, c)) <==> !Resurfaces(a, b, c)
    decreases c
  {
    if c.Mapping? && a.Mapping? {
      if b.Scalar? {
        MergeAbsorbsIff(a, c);
      } else {
        var l, r := Merge(Merge(a, b), c), Merge(a, Merge(b, c));
        assert l.entries.Keys == r.entries.Keys;
        forall k | k in a.entries && k in b.entries && k in c.entries
          ensures l.entries[k] == r.entries[k] <==> !Resurfaces(a.entries[k], b.entries[k], c.entries[k])
        {
          MergeAssociativeIff(a.entries[k], b.entries[k], c.entries[k]);
        }
        forall k | k in l.entries && !(k in a.entries && k in b.entries && k in c.entries)
          ensures l.entries[k] == r.entries[k]
        {
        }
        if !Resurfaces(a, b, c) {
          assert l.entries == r.entries;
        }
      }
    }
  }

  // ---------------------------------------------------------------- the environment overlay

  datatype Cap = Absent | NotANumber | Limit(n: int)

  /** The environment variables read, already stripped; "" is unset. */
  datatype Env = Env(deepseekKey: string, kimiKey: string, moonshotKey: string, runLive: string,
                     searchCap: Cap, fetchCap: Cap, writeCap: Cap)

  function CapEntry(key: string, cap: Cap): map<string, Value> {
    if cap.Limit? then map[key := Scalar(Number(Max(1, cap.n)))] else map[]
  }

  function Caps(env: Env): map<string, Value> {
    CapEntry("kb_search", env.searchCap) + CapEntry("kb_fetch", env.fetchCap) + CapEntry("kb_write_fact", env.writeCap)
  }

  function KimiKey(env: Env): string {
    if env.kimiKey != "" then env.kimiKey else env.moonshotKey
  }

  function One(section: string, entries: map<string, Value>): map<string, Value> {
    if entries == map[] then map[] else map[section := Mapping(entries)]
  }

  function KeyEntry(key: string): map<string, Value> {
    if key == "" then map[] else map["api_key" := Scalar(Text(key))]
  }

  function RunEntry(env: Env): map<string, Value> {
    if env.runLive == "1" then map["run" := Scalar(Flag(true))] else map[]
  }

  function DeepseekPart(env: Env): map<string, Value> {
    One("deepseek", KeyEntry(env.deepseekKey))
  }

  function KimiPart(env: Env): map<string, Value> {
    One("kimi", KeyEntry(KimiKey(env)))
  }

  function LivePart(env: Env): map<string, Value> {
    One("live", RunEntry(env))
  }

  function MemoryPart(env: Env): map<string, Value> {
    One("memory", One("auto_kb_caps", Caps(env)))
  }

  /** The environment, written as one more configuration layer. */
  function EnvLayer(env: Env): Value {
    Mapping(DeepseekPart(env) + KimiPart(env) + LivePart(env) + MemoryPart(env))
  }

  lemma PartKeys(env: Env)
    ensures DeepseekPart(env).Keys == if env.deepseekKey != "" then {"deepseek"} else {}
    ensures KimiPart(env).Keys <= {"kimi"} && LivePart(env).Keys <= {"live"} && MemoryPart(env).Keys <= {"memory"}
  {
    if env.deepseekKey != "" {
      assert "api_key" in KeyEntry(env.deepseekKey);
    }
  }

  /** `dict(x) if isinstance(x, dict) else {}` for the section of a mapping. */
  function Section(entries: map<string, Value>, key: string): map<string, Value> {
    if key in entries && entries[key].Mapping? then entries[key].entries else map[]
  }

  predicate Flat(m: map<string, Value>) {
    forall k :: k in m ==> m[k].Scalar?
  }

  /** Rewriting one section with scalars on top is merging a layer that has only that section. */
  lemma SectionIsMerge(entries: map<string, Value>, section: string, extra: map<string, Value>)
    requires Flat(extra) && extra != map[]
    ensures Merge(Mapping(entries), Mapping(map[section := Mapping(extra)])) ==
            Mapping(entries[section := Mapping(Section(entries, section) + extra)])
  {
    FlatMerge(Section(entries, section), extra);
    assert map[] + extra == extra;
    assert Merge(Mapping(entries), Mapping(map[section := Mapping(extra)])).entries ==
           entries[section := Mapping(Section(entries, section) + extra)];
  }

  lemma FlatMerge(m: map<string, Value>, extra: map<string, Value>)
    requires Flat(extra)
    ensures Merge(Mapping(m), Mapping(extra)) == Mapping(m + extra)
  {
    assert Merge(Mapping(m), Mapping(extra)).entries == m + extra;
  }

  lemma NestedSectionIsMerge(entries: map<string, Value>, outer: string, inner: string, extra: map<string, Value>)
    requires Flat(extra) && extra != map[]
    ensures var mem := Section(entries, outer);
            Merge(Mapping(entries), Mapping(map[outer := Mapping(map[inner := Mapping(extra)])])) ==
            Mapping(entries[outer := Mapping(mem[inner := Mapping(Section(mem, inner) + extra)])])
  {
    var mem := Section(entries, outer);
    var layer := Mapping(map[inner := Mapping(extra)]);
    SectionIsMerge(mem, inner, extra);
    if !(outer in entries && entries[outer].Mapping?) {
      assert map[] + extra == extra;
      assert map[][inner := Mapping(extra)] == map[inner := Mapping(extra)];
    }
    assert Merge(Mapping(entries), Mapping(map[outer := layer])).entries ==
           entries[outer := Mapping(mem[inner := Mapping(Section(mem, inner) + extra)])];
  }

  /** Layers with different sections can be merged one after the other or at once. */
  lemma SplitLayer(base: Value, xs: map<string, Value>, ys: map<string, Value>)
    requires base.Mapping? && xs.Keys !! ys.Keys
    ensures Merge(base, Mapping(xs + ys)) == Merge(Merge(base, Mapping(xs)), Mapping(ys))
  {
    var once, twice := Merge(base, Mapping(xs + ys)), Merge(Merge(base, Mapping(xs)), Mapping(ys));
    forall k
      ensures k in once.entries <==> k in twice.entries
      ensures k in once.entries ==> once.entries[k] == twice.entries[k]
    {
      MergeEntry(base, Mapping(xs + ys), k);
      MergeEntry(base, Mapping(xs), k);
      MergeEntry(Merge(base, Mapping(xs)), Mapping(ys), k);
    }
    SameEntries(once.entries, twice.entries);
  }

  lemma SameEntries(m: map<string, Value>, n: map<string, Value>)
    requires forall k :: (k in m <==> k in n) && (k in m ==> m[k] == n[k])
    ensures m == n
  {
  }

  lemma MergeNothing(base: Value)
    requires base.Mapping?
    ensures Merge(base, NOTHING) == base
  {
    assert Merge(base, NOTHING).entries == base.entries;
  }

  method PutSection(out: Value, section: string, extra: map<string, Value>) returns (r: Value)
    requires out.Mapping? && Flat(extra)
    ensures r == Merge(out, Mapping(One(section, extra)))
  {
    MergeNothing(out);
    if extra == map[] {
      return out;
    }
    SectionIsMerge(out.entries, section, extra);
    r := Mapping(out.entries[section := Mapping(Section(out.entries, section) + extra)]);
  }

  method PutCaps(out: Value, caps: map<string, Value>) returns (r: Value)
    requires out.Mapping? && Flat(caps)
    ensures r == Merge(out, Mapping(One("memory", One("auto_kb_caps", caps))))
  {
    if caps == map[] {
      MergeNothing(out);
      return out;
    }
    var mem := Section(out.entries, "memory");
    NestedSectionIsMerge(out.entries, "memory", "auto_kb_caps", caps);
    r := Mapping(out.entries["memory" := Mapping(mem["auto_kb_caps" := Mapping(Section(mem, "auto_kb_caps") + caps)])]);
  }

  lemma SplitFour(cfg: Value, a: map<string, Value>, b: map<string, Value>, c: map<string, Value>,
                  d: map<string, Value>)
    requires cfg.Mapping? && a.Keys <= {"deepseek"} && b.Keys <= {"kimi"} && c.Keys <= {"live"} && d.Keys <= {"memory"}
    ensures Merge(cfg, Mapping(a + b + c + d)) == Merge(Merge(Merge(Merge(cfg, Mapping(a)), Mapping(b)), Mapping(c)),
            Mapping(d))
  {
    SplitLayer(cfg, a + b + c, d);
    SplitLayer(cfg, a + b, c);
    SplitLayer(cfg, a, b);
  }

  method PutAll(cfg: Value, deepseek: map<string, Value>, kimi: map<string, Value>, live: map<string, Value>,
                caps: map<string, Value>)
    returns (out: Value)
    requires cfg.Mapping? && Flat(deepseek) && Flat(kimi) && Flat(live) && Flat(caps)
    ensures out == Merge(Merge(Merge(Merge(cfg, Mapping(One("deepseek", deepseek))), Mapping(One("kimi", kimi))),
                               Mapping(One("live", live))), Mapping(One("memory", One("auto_kb_caps", caps))))
  {
    var a := PutSection(cfg, "deepseek", deepseek);
    var b := PutSection(a, "kimi", kimi);
    var c := PutSection(b, "live", live);
    out := PutCaps(c, caps);
  }

  lemma PartsAreFlat(env: Env)
    ensures Flat(KeyEntry(env.deepseekKey)) && Flat(KeyEntry(KimiKey(env))) && Flat(RunEntry(env)) && Flat(Caps(env))
  {
  }

  /**
   * `ProviderEnvOverlay.apply`: section by section, replacing a section that is not a mapping. It is the merge
   * of the environment layer on top.
   */
  method ApplyEnv(cfg: Value, env: Env) returns (out: Value)
    requires cfg.Mapping?
    ensures out == Merge(cfg, EnvLayer(env))
  {
    PartKeys(env);
    PartsAreFlat(env);
    SplitFour(cfg, DeepseekPart(env), KimiPart(env), LivePart(env), MemoryPart(env));
    out := PutAll(cfg, KeyEntry(env.deepseekKey), KeyEntry(KimiKey(env)), RunEntry(env), Caps(env));
  }

  // ---------------------------------------------------------------- load

  /** A configuration file: missing or empty reads as nothing, any other non-mapping root is an error. */
  datatype File = Missing | Parsed(root: Value)

  function Layer(f: File): Value {
    if f.Parsed? && f.root.Mapping? then f.root else NOTHING
  }

  predicate Loadable(f: File) {
    f.Parsed? ==> f.root.Mapping?
  }

  function Layers(files: seq<File>): seq<Value> {
    seq(|files|, i requires 0 <= i < |files| => Layer(files[i]))
  }

  function Reversed<T>(s: seq<T>): seq<T> {
    seq(|s|, i requires 0 <= i < |s| => s[|s| - 1 - i])
  }

  /** All layers of a load, in rising priority: defaults, global file, project files from the root down, environment. */
  function LayersOf(defaults: Value, globalFile: File, deepestFirst: seq<File>, env: Env): seq<Value> {
    [defaults, Layer(globalFile)] + Layers(Reversed(deepestFirst)) + [EnvLayer(env)]
  }

  lemma FoldSnoc(layers: seq<Value>, l: Value)
    ensures Fold(layers + [l]) == Merge(Fold(layers), l)
  {
    assert (layers + [l])[..|layers + [l]| - 1] == layers;
  }

  /** The project loop; `None` at the first file whose root is no mapping. */
  method MergeFiles(start: Value, ghost base: seq<Value>, files: seq<File>) returns (merged: Option<Value>)
    requires start.Mapping? && start == Fold(base)
    ensures merged.Some? <==> forall i :: 0 <= i < |files| ==> Loadable(files[i])
    ensures merged.Some? ==> merged.value.Mapping? && merged.value == Fold(base + Layers(files))
  {
    var cfg := start;
    assert base + Layers(files[..0]) == base;
    for i := 0 to |files|
      invariant cfg.Mapping? && cfg == Fold(base + Layers(files[..i]))
      invariant forall j :: 0 <= j < i ==> Loadable(files[j])
    {
      if !Loadable(files[i]) {
        return None;
      }
      cfg := DeepMerge(cfg, Layer(files[i]));
      FoldSnoc(base + Layers(files[..i]), Layer(files[i]));
      assert base + Layers(files[..i]) + [Layer(files[i])] == base + Layers(files[..i + 1]);
    }
    assert files[..|files|] == files;
    merged := Some(cfg);
  }

  predicate AllLoadable(files: seq<File>) {
    forall i :: 0 <= i < |files| ==> Loadable(files[i])
  }

  lemma ReversedLoadable(files: seq<File>)
    ensures AllLoadable(Reversed(files)) <==> AllLoadable(files)
  {
    var r := Reversed(files);
    forall i | 0 <= i < |files|
      ensures r[|files| - 1 - i] == files[i] && files[|files| - 1 - i] == r[i]
    {
    }
    if AllLoadable(r) {
      forall i | 0 <= i < |files|
        ensures Loadable(files[i])
      {
        assert Loadable(r[|files| - 1 - i]);
      }
    }
  }

  /** The file has a say at the path. */
  predicate Says(f: File, path: seq<string>) {
    f.Parsed? && f.root.Mapping? && Decides(f.root, path)
  }

  function FirstSaying(files: seq<File>, path: seq<string>): Option<File> {
    if files == [] then None
    else if Says(files[0], path) then Some(files[0])
    else FirstSaying(files[1..], path)
  }

  /** What a file answers, or else what lies below it. */
  function AnswerOf(f: Option<File>, path: seq<string>, below: Option<Atom>): Option<Atom> {
    if f.Some? && f.value.Parsed? then ScalarAt(f.value.root, path) else below
  }

  /**
   * The answer at a path: that of the environment where a variable decides it, else of the first file, from the project
   * upwards, that has a say, else of the global file, else of the defaults.
   */
  function Answer(defaults: Value, globalFile: File, deepestFirst: seq<File>, env: Env, path: seq<string>)
    : Option<Atom>
  {
    if Decides(EnvLayer(env), path) then ScalarAt(EnvLayer(env), path)
    else AnswerOf(FirstSaying(deepestFirst + [globalFile], path), path, ScalarAt(defaults, path))
  }

  /** The file found is the nearest that has a say: none before it has. */
  lemma {:induction false} FirstSayingMeans(files: seq<File>, path: seq<string>)
    ensures FirstSaying(files, path).None? <==> forall i :: 0 <= i < |files| ==> !Says(files[i], path)
    ensures FirstSaying(files, path).Some? ==>
              exists i :: 0 <= i < |files| && files[i] == FirstSaying(files, path).value && Says(files[i], path)
                          && forall j :: 0 <= j < i ==> !Says(files[j], path)
  {
    if files != [] && !Says(files[0], path) {
      var rest := files[1..];
      FirstSayingMeans(rest, path);
      if FirstSaying(rest, path).Some? {
        var i :| 0 <= i < |rest| && rest[i] == FirstSaying(rest, path).value && Says(rest[i], path)
                 && forall j :: 0 <= j < i ==> !Says(rest[j], path);
        assert files[i + 1] == rest[i];
        assert forall j :: 0 < j < i + 1 ==> files[j] == rest[j - 1];
      } else {
        assert forall i :: 0 < i < |files| ==> files[i] == rest[i - 1];
      }
    }
  }

  function LastSaying(files: seq<File>, path: seq<string>): Option<File> {
    if files == [] then None
    else if Says(files[|files| - 1], path) then Some(files[|files| - 1])
    else LastSaying(files[..|files| - 1], path)
  }

  lemma {:induction false} LastOfReversed(files: seq<File>, path: seq<string>)
    ensures LastSaying(Reversed(files), path) == FirstSaying(files, path)
  {
    if files != [] {
      LastOfReversed(files[1..], path);
      assert Reversed(files) == Reversed(files[1..]) + [files[0]];
      assert Reversed(files)[..|files| - 1] == Reversed(files[1..]);
    }
  }

  lemma LayerSays(f: File, path: seq<string>)
    requires path != []
    ensures Decides(Layer(f), path) <==> Says(f, path)
  {
  }

  lemma FoldLayer(base: seq<Value>, files: seq<File>, f: File, path: seq<string>)
    requires path != []
    ensures ScalarAt(Fold(base + Layers(files + [f])), path) ==
            if Says(f, path) then ScalarAt(f.root, path) else ScalarAt(Fold(base + Layers(files)), path)
  {
    LayerSays(f, path);
    MergeLookup(Fold(base + Layers(files)), Layer(f), path);
    FoldSnoc(base + Layers(files), Layer(f));
    assert base + Layers(files + [f]) == base + Layers(files) + [Layer(f)];
  }

  /** Of files in rising priority the last that has a say answers. */
  lemma {:induction false} LastFileAnswers(base: seq<Value>, files: seq<File>, path: seq<string>)
    requires path != []
    ensures ScalarAt(Fold(base + Layers(files)), path) ==
            AnswerOf(LastSaying(files, path), path, ScalarAt(Fold(base), path))
    decreases |files|
  {
    if files == [] {
      assert base + Layers(files) == base;
    } else {
      var front, last := files[..|files| - 1], files[|files| - 1];
      LastFileAnswers(base, front, path);
      FoldLayer(base, front, last, path);
      assert files == front + [last];
    }
  }

  lemma BaseAnswers(defaults: Value, globalFile: File, path: seq<string>)
    requires path != [] && defaults.Mapping?
    ensures ScalarAt(Fold([defaults, Layer(globalFile)]), path) ==
            if Says(globalFile, path) then ScalarAt(globalFile.root, path) else ScalarAt(defaults, path)
  {
    FoldSnoc([defaults], Layer(globalFile));
    FoldSnoc([], defaults);
    assert [] + [defaults] == [defaults] && [defaults] + [Layer(globalFile)] == [defaults, Layer(globalFile)];
    MergeNothing(defaults);
    MergeFromNothing(defaults);
    LayerSays(globalFile, path);
    MergeLookup(defaults, Layer(globalFile), path);
  }

  lemma MergeFromNothing(v: Value)
    requires v.Mapping?
    ensures Merge(NOTHING, v) == v
  {
    assert Merge(NOTHING, v).entries == v.entries;
  }

  lemma {:induction false} GlobalLast(files: seq<File>, globalFile: File, path: seq<string>, below: Option<Atom>)
    ensures AnswerOf(FirstSaying(files + [globalFile], path), path, below) ==
            AnswerOf(FirstSaying(files, path), path,
                     if Says(globalFile, path) then ScalarAt(globalFile.root, path) else below)
  {
    if files == [] {
      assert files + [globalFile] == [globalFile] && [globalFile][1..] == [];
    } else {
      assert (files + [globalFile])[1..] == files[1..] + [globalFile];
      GlobalLast(files[1..], globalFile, path, below);
    }
  }

  /** The whole load, path by path. */
  lemma LayersAnswer(defaults: Value, globalFile: File, deepestFirst: seq<File>, env: Env, path: seq<string>)
    requires path != [] && defaults.Mapping?
    ensures ScalarAt(Fold(LayersOf(defaults, globalFile, deepestFirst, env)), path) ==
            Answer(defaults, globalFile, deepestFirst, env, path)
  {
    var base, up := [defaults, Layer(globalFile)], Reversed(deepestFirst);
    LastFileAnswers(base, up, path);
    LastOfReversed(deepestFirst, path);
    BaseAnswers(defaults, globalFile, path);
    GlobalLast(deepestFirst, globalFile, path, ScalarAt(defaults, path));
    FoldSnoc(base + Layers(up), EnvLayer(env));
    MergeLookup(Fold(base + Layers(up)), EnvLayer(env), path);
  }

  /** `AilitConfigMerger.load`; `None` is the ValueError of a file whose root is no mapping. */
  method Load(defaults: Value, globalFile: File, deepestFirst: seq<File>, env: Env) returns (cfg: Option<Value>)
    requires defaults.Mapping?
    ensures cfg.Some? <==> Loadable(globalFile) && AllLoadable(deepestFirst)
    ensures cfg.Some? ==> cfg.value == Fold(LayersOf(defaults, globalFile, deepestFirst, env))
    ensures cfg.Some? ==> forall path :: path != [] ==>
              ScalarAt(cfg.value, path) == Answer(defaults, globalFile, deepestFirst, env, path)
  {
    var merged := DeepMerge(NOTHING, defaults);
    FoldSnoc([], defaults);
    assert [] + [defaults] == [defaults];
    if !Loadable(globalFile) {
      return None;
    }
    merged := DeepMerge(merged, Layer(globalFile));
    FoldSnoc([defaults], Layer(globalFile));
    assert [defaults] + [Layer(globalFile)] == [defaults, Layer(globalFile)];
    ReversedLoadable(deepestFirst);
    cfg := MergeFiles(merged, [defaults, Layer(globalFile)], Reversed(deepestFirst));
    if cfg.Some? {
      FoldSnoc([defaults, Layer(globalFile)] + Layers(Reversed(deepestFirst)), EnvLayer(env));
      merged := ApplyEnv(cfg.value, env);
      cfg := Some(merged);
      forall path | path != []
        ensures ScalarAt(merged, path) == Answer(defaults, globalFile, deepestFirst, env, path)
      {
        LayersAnswer(defaults, globalFile, deepestFirst, env, path);
      }
    }
  }

  /** Wherever the environment has a say, it beats every file; everywhere else the files decide. */
  lemma EnvironmentWins(defaults: Value, globalFile: File, deepestFirst: seq<File>, env: Env, path: seq<string>)
    ensures var layers := LayersOf(defaults, globalFile, deepestFirst, env);
            ScalarAt(Fold(layers), path) ==
            if Decides(EnvLayer(env), path) then ScalarAt(EnvLayer(env), path)
            else ScalarAt(Fold(layers[..|layers| - 1]), path)
  {
    var layers := LayersOf(defaults, globalFile, deepestFirst, env);
    MergeLookup(Fold(layers[..|layers| - 1]), EnvLayer(env), path);
  }

  /** The environment has a say exactly where a variable is set: the two keys, the run flag and the three caps. */
  lemma EnvironmentDecides(env: Env, name: string)
    ensures var e := EnvLayer(env);
            && (Decides(e, ["deepseek", "api_key"]) <==> env.deepseekKey != "")
            && (env.deepseekKey != "" ==> ScalarAt(e, ["deepseek", "api_key"]) == Some(Text(env.deepseekKey)))
            && (Decides(e, ["kimi", "api_key"]) <==> KimiKey(env) != "")
            && (KimiKey(env) != "" ==> ScalarAt(e, ["kimi", "api_key"]) == Some(Text(KimiKey(env))))
            && (Decides(e, ["live", "run"]) <==> env.runLive == "1")
            && (env.runLive == "1" ==> ScalarAt(e, ["live", "run"]) == Some(Flag(true)))
            && (Decides(e, ["memory", "auto_kb_caps", name]) <==> name in Caps(env))
            && (name in Caps(env) ==>
                  Caps(env)[name].Scalar?
                  && ScalarAt(e, ["memory", "auto_kb_caps", name]) == Some(Caps(env)[name].atom))
  {
    var e := EnvLayer(env).entries;
    EnvSections(env);
    KeyEntryFacts(env.deepseekKey);
    KeyEntryFacts(KimiKey(env));
    RunEntryFacts(env);
    AtOnly(e, "deepseek", "api_key", KeyEntry(env.deepseekKey));
    AtOnly(e, "kimi", "api_key", KeyEntry(KimiKey(env)));
    AtOnly(e, "live", "run", RunEntry(env));
    CapsAreFlat(env);
    AtCap(e, Caps(env), name);
  }

  lemma KeyEntryFacts(key: string)
    ensures KeyEntry(key) != map[] <==> key != ""
    ensures key != "" ==> "api_key" in KeyEntry(key) && KeyEntry(key)["api_key"] == Scalar(Text(key))
  {
    assert key != "" ==> "api_key" in KeyEntry(key);
  }

  lemma RunEntryFacts(env: Env)
    ensures RunEntry(env) != map[] <==> env.runLive == "1"
    ensures env.runLive == "1" ==> "run" in RunEntry(env) && RunEntry(env)["run"] == Scalar(Flag(true))
  {
    assert env.runLive == "1" ==> "run" in RunEntry(env);
  }

  lemma CapsAreFlat(env: Env)
    ensures Flat(Caps(env))
  {
  }

  /** The first key set for Kimi, and the caps, each at least 1; an unset or unreadable cap is none. */
  lemma VariablesMean(env: Env)
    ensures KimiKey(env) == if env.kimiKey == "" then env.moonshotKey else env.kimiKey
    ensures Caps(env).Keys <= {"kb_search", "kb_fetch", "kb_write_fact"}
    ensures Caps(env).Keys == (if env.searchCap.Limit? then {"kb_search"} else {})
                              + (if env.fetchCap.Limit? then {"kb_fetch"} else {})
                              + (if env.writeCap.Limit? then {"kb_write_fact"} else {})
    ensures env.searchCap.Limit? ==> CapOf(Caps(env), "kb_search", env.searchCap.n)
    ensures env.fetchCap.Limit? ==> CapOf(Caps(env), "kb_fetch", env.fetchCap.n)
    ensures env.writeCap.Limit? ==> CapOf(Caps(env), "kb_write_fact", env.writeCap.n)
  {
    assert "kb_search"[3] == 's' && "kb_fetch"[3] == 'f' && "kb_write_fact"[3] == 'w';
  }

  predicate CapOf(caps: map<string, Value>, name: string, n: int) {
    name in caps && caps[name] == Scalar(Number(if n < 1 then 1 else n))
  }

  /** The sections of the environment's layer. */
  lemma EnvSections(env: Env)
    ensures var e := EnvLayer(env).entries;
            && Holds(e, "deepseek", KeyEntry(env.deepseekKey)) && Holds(e, "kimi", KeyEntry(KimiKey(env)))
            && Holds(e, "live", RunEntry(env)) && Holds(e, "memory", One("auto_kb_caps", Caps(env)))
  {
    SectionNamesDiffer();
  }

  lemma EnvHasOnly(env: Env)
    ensures EnvLayer(env).entries.Keys <= {"deepseek", "kimi", "live", "memory"}
  {
  }

  /** A section is there exactly when it has entries. */
  predicate Holds(entries: map<string, Value>, section: string, inside: map<string, Value>) {
    (section in entries <==> inside != map[]) && (section in entries ==> entries[section] == Mapping(inside))
  }

  lemma AtSection(entries: map<string, Value>, section: string, key: string)
    ensures Decides(Mapping(entries), [section, key]) <==>
            section in entries && (entries[section].Scalar? || key in entries[section].entries)
    ensures section in entries && entries[section].Mapping? && key in entries[section].entries
            && entries[section].entries[key].Scalar?
            ==> ScalarAt(Mapping(entries), [section, key]) == Some(entries[section].entries[key].atom)
  {
    var path := [section, key];
    assert path[1..] == [key];
    if section in entries {
      AtKey(entries[section], key);
      assert Decides(Mapping(entries), path) == Decides(entries[section], path[1..]);
      assert Lookup(Mapping(entries), path) == Lookup(entries[section], path[1..]);
    }
  }

  lemma AtKey(v: Value, key: string)
    ensures Decides(v, [key]) <==> v.Scalar? || key in v.entries
    ensures Lookup(v, [key]) == if v.Mapping? && key in v.entries then Some(v.entries[key]) else None
  {
    assert [key][1..] == [];
  }

  lemma AtOnly(entries: map<string, Value>, section: string, key: string, inside: map<string, Value>)
    requires Holds(entries, section, inside) && inside.Keys <= {key} && Flat(inside)
    ensures Decides(Mapping(entries), [section, key]) <==> inside != map[]
    ensures inside != map[] ==> key in inside && ScalarAt(Mapping(entries), [section, key]) == Some(inside[key].atom)
  {
    AtSection(entries, section, key);
    if inside != map[] {
      var k :| k in inside;
      assert k == key;
    }
  }

  lemma AtCap(entries: map<string, Value>, caps: map<string, Value>, name: string)
    requires Holds(entries, "memory", One("auto_kb_caps", caps)) && Flat(caps)
    ensures Decides(Mapping(entries), ["memory", "auto_kb_caps", name]) <==> name in caps
    ensures name in caps ==> ScalarAt(Mapping(entries), ["memory", "auto_kb_caps", name]) == Some(caps[name].atom)
  {
    var path := ["memory", "auto_kb_caps", name];
    assert path[1..] == ["auto_kb_caps", name];
    AtSection(One("auto_kb_caps", caps), "auto_kb_caps", name);
    if caps != map[] {
      assert "auto_kb_caps" in One("auto_kb_caps", caps);
      var inner := Mapping(One("auto_kb_caps", caps));
      assert Lookup(Mapping(entries), path) == Lookup(inner, path[1..]);
      assert Decides(Mapping(entries), path) == Decides(inner, path[1..]);
    }
  }

  lemma SectionNamesDiffer()
    ensures "deepseek" != "kimi" && "deepseek" != "live" && "deepseek" != "memory"
    ensures "kimi" != "live" && "kimi" != "memory" && "live" != "memory"
  {
    assert "deepseek"[0] == 'd' && "kimi"[0] == 'k' && "live"[0] == 'l' && "memory"[0] == 'm';
  }
}
