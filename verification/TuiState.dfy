/**
 * The named contexts of the terminal UI, cycling among them, and saving and loading the whole state.
 *
 * Paths are texts; `resolve` stands for expanding and resolving a path.
 */
module TuiState {
  import opened Prelude
  import opened Text
  import opened Ordering
  import opened ToolMessages

  datatype Profile = Profile(name: string, root: string, agentId: string, workflowRef: Option<string>)

  datatype Usage = Usage(input: int, output: int, reasoning: int, cacheRead: int, cacheWrite: int)

  datatype Runtime = Runtime(profile: Profile, chat: seq<Message>, usage: Usage)

  const ZERO := Usage(0, 0, 0, 0, 0)
  const NAME_MAX := 20

  /** The history a fresh controller starts with. */
  function FreshChat(systemPrompt: string): seq<Message> {
    [Message(System, systemPrompt, None, None, [])]
  }

  predicate ForbiddenInName(c: char) {
    c == ' ' || c == '\t' || c == '\n' || c == '/' || c == '\\'
  }

  predicate ValidName(name: string) {
    var raw := Strip(name);
    raw != "" && |raw| <= NAME_MAX && forall i :: 0 <= i < |raw| ==> !ForbiddenInName(raw[i])
  }

  function Names(contexts: map<string, Runtime>): seq<string> {
    TextOrder();
    Sorted(contexts.Keys, TextLeq)
  }

  // ---------------------------------------------------------------- the manager

  datatype Manager = Manager(contexts: map<string, Runtime>, active: string, drafts: map<string, string>)

  /** The active context exists, names are stripped and not empty, and every runtime knows its own name. */
  ghost predicate Sane(m: Manager, resolve: string -> string) {
    m.active in m.contexts && forall n :: n in m.contexts ==> SaneContext(n, m.contexts[n].profile, resolve)
  }

  predicate SaneContext(n: string, p: Profile, resolve: string -> string) {
    Strip(n) == n != "" && p.name == n && p.agentId != "" && p.root != "" && resolve(p.root) == p.root
  }

  function IndexIn(names: seq<string>, n: string): (i: nat)
    requires n in names
    ensures i < |names| && names[i] == n
  {
    if names[0] == n then 0 else 1 + IndexIn(names[1..], n)
  }

  predicate Distinct(names: seq<string>) {
    forall i, j :: 0 <= i < j < |names| ==> names[i] != names[j]
  }

  /** The name `step` places further in the cycle. */
  function Around(names: seq<string>, n: string, step: int): string
    requires n in names
  {
    names[(IndexIn(names, n) + step) % |names|]
  }

  /** The context `step` places further in the sorted cycle. */
  function Neighbour(contexts: map<string, Runtime>, active: string, step: int): string
    requires active in contexts
  {
    NamesList(contexts);
    Around(Names(contexts), active, step)
  }

  lemma NamesList(contexts: map<string, Runtime>)
    ensures Distinct(Names(contexts)) && |Names(contexts)| == |contexts|
    ensures forall n :: n in contexts <==> n in Names(contexts)
  {
    TextOrder();
    SortedLists(contexts.Keys, TextLeq);
    assert |contexts.Keys| == |contexts|;
  }

  lemma NamesNonEmpty(contexts: map<string, Runtime>)
    requires contexts != map[]
    ensures Names(contexts) != [] && Names(contexts)[0] in contexts
  {
    NamesList(contexts);
    var n :| n in contexts;
    assert n in Names(contexts);
  }

  /** The wanted context if there is one of that name, else the first by name. */
  function WantedOrFirst(contexts: map<string, Runtime>, wanted: string): string
    requires contexts != map[]
  {
    NamesNonEmpty(contexts);
    if wanted in contexts then wanted else Names(contexts)[0]
  }

  lemma IndexUnique(names: seq<string>, i: nat)
    requires i < |names| && Distinct(names)
    ensures IndexIn(names, names[i]) == i
  {
  }

  lemma Wrap(i: nat, n: nat)
    requires i < n
    ensures (i + 1) % n == if i + 1 == n then 0 else i + 1
    ensures (i - 1) % n == if i == 0 then n - 1 else i - 1
  {
  }

  lemma AroundInverse(names: seq<string>, n: string)
    requires n in names && Distinct(names)
    ensures Around(names, n, 1) in names && Around(names, n, -1) in names
    ensures Around(names, Around(names, n, 1), -1) == n && Around(names, Around(names, n, -1), 1) == n
  {
    var i, k := IndexIn(names, n), |names|;
    Wrap(i, k);
    var next, prev := (i + 1) % k, (i - 1) % k;
    IndexUnique(names, next);
    IndexUnique(names, prev);
    Wrap(next, k);
    Wrap(prev, k);
  }

  /** Going forth and back, in either order, returns to the same context. */
  lemma NextPrevInverse(contexts: map<string, Runtime>, active: string)
    requires active in contexts
    ensures Neighbour(contexts, active, 1) in contexts && Neighbour(contexts, active, -1) in contexts
    ensures Neighbour(contexts, Neighbour(contexts, active, 1), -1) == active
    ensures Neighbour(contexts, Neighbour(contexts, active, -1), 1) == active
  {
    NamesList(contexts);
    AroundInverse(Names(contexts), active);
  }

  /** The next context is the first name after the active one in code point order, or the first of all. */
  lemma NextIsSuccessor(contexts: map<string, Runtime>, active: string, other: string)
    requires active in contexts && other in contexts
    ensures var next := Neighbour(contexts, active, 1);
            && next in contexts
            && (TextLeq(next, active) ==> TextLeq(next, other) && TextLeq(other, active))
            && (!TextLeq(next, active) ==> TextLeq(other, active) || TextLeq(next, other))
  {
    NextPrevInverse(contexts, active);
    NamesList(contexts);
    TextOrder();
    SortedLists(contexts.Keys, TextLeq);
    SuccessorAround(Names(contexts), active, other);
  }

  lemma SuccessorAround(names: seq<string>, active: string, other: string)
    requires Ascending(names, TextLeq) && TotalOrder(TextLeq) && active in names && other in names
    ensures var next := Around(names, active, 1);
            if IndexIn(names, active) == |names| - 1 then TextLeq(next, other) && TextLeq(other, active)
            else !TextLeq(next, active) && (TextLeq(other, active) || TextLeq(next, other))
    ensures IndexIn(names, active) == |names| - 1 ==> TextLeq(Around(names, active, 1), active)
  {
    var i, j := IndexIn(names, active), IndexIn(names, other);
    Wrap(i, |names|);
    if i < |names| - 1 {
      assert TextLeq(names[i], names[i + 1]) && names[i] != names[i + 1];
    }
  }

  function NextTimes(names: seq<string>, n: string, k: nat): (r: string)
    requires n in names
    ensures r in names
  {
    if k == 0 then n else Around(names, NextTimes(names, n, k - 1), 1)
  }

  /** The distance from `i` forward to `j` on a cycle of `n`. */
  function Forward(i: nat, j: nat, n: nat): nat
    requires i < n && j < n
  {
    if i <= j then j - i else n - i + j
  }

  lemma {:induction false} NextTimesReaches(names: seq<string>, n: string, goal: string)
    requires n in names && goal in names && Distinct(names)
    ensures NextTimes(names, n, Forward(IndexIn(names, n), IndexIn(names, goal), |names|)) == goal
    decreases Forward(IndexIn(names, n), IndexIn(names, goal), |names|)
  {
    var i, j := IndexIn(names, n), IndexIn(names, goal);
    if i != j {
      var before := if j == 0 then |names| - 1 else j - 1;
      IndexUnique(names, before);
      Wrap(before, |names|);
      NextTimesReaches(names, n, names[before]);
      assert Forward(i, before, |names|) == Forward(i, j, |names|) - 1;
      assert Around(names, names[before], 1) == names[j];
    }
  }

  /** Stepping forward reaches every context within one cycle. */
  lemma CycleVisitsAll(contexts: map<string, Runtime>, active: string, goal: string)
    requires active in contexts && goal in contexts
    ensures active in Names(contexts)
    ensures exists k :: 0 <= k < |contexts| && NextTimes(Names(contexts), active, k) == goal
  {
    NamesList(contexts);
    var names := Names(contexts);
    NextTimesReaches(names, active, goal);
    assert Forward(IndexIn(names, active), IndexIn(names, goal), |names|) < |contexts|;
  }

  class TuiContextManager {
    var contexts: map<string, Runtime>
    var active: string
    var drafts: map<string, string>

    ghost function State(): Manager
      reads this
    {
      Manager(contexts, active, drafts)
    }

    /** A manager with one context, sane as soon as a resolved path is not empty and resolves to itself. */
    constructor (root: string, systemPrompt: string, resolve: string -> string)
      ensures var rt := Runtime(Profile("default", resolve(root), "default", None), FreshChat(systemPrompt), ZERO);
              State() == Manager(map["default" := rt], "default", map[])
      ensures resolve(root) != "" && resolve(resolve(root)) == resolve(root) ==> Sane(State(), resolve)
    {
      var rt := Runtime(Profile("default", resolve(root), "default", None), FreshChat(systemPrompt), ZERO);
      contexts, active, drafts := map["default" := rt], "default", map[];
      StripFixed("default");
    }

    method NewContext(name: string, root: Option<string>, agentId: string, systemPrompt: string,
                      resolve: string -> string)
      returns (ok: bool)
      requires Sane(State(), resolve)
      requires forall s :: s != "" ==> resolve(s) != "" && resolve(resolve(s)) == resolve(s)
      modifies this`contexts
      ensures ok <==> ValidName(name) && Strip(name) !in old(contexts)
      ensures Sane(State(), resolve)
      ensures contexts.Keys == old(contexts).Keys + if ok then {Strip(name)} else {}
      ensures forall n :: n in old(contexts) ==> contexts[n] == old(contexts)[n]
      ensures ok ==> contexts[Strip(name)].usage == ZERO && contexts[Strip(name)].chat == FreshChat(systemPrompt)
    {
      if !ValidName(name) || Strip(name) in contexts {
        return false;
      }
      var key := Strip(name);
      StripIsStripped(name);
      StripFixed(key);
      var base := if root.Some? && root.value != "" then root.value else contexts[active].profile.root;
      var aid := if Strip(agentId) == "" then "default" else Strip(agentId);
      contexts := contexts[key := Runtime(Profile(key, resolve(base), aid, None), FreshChat(systemPrompt), ZERO)];
      ok := true;
    }

    method Switch(name: string) returns (ok: bool)
      modifies this`active
      ensures ok <==> Strip(name) in contexts
      ensures active == if ok then Strip(name) else old(active)
    {
      ok := Strip(name) in contexts;
      if ok {
        active := Strip(name);
      }
    }

    /** The runtime and the draft move to the new name; everything else stays. */
    method RenameActive(newName: string, ghost resolve: string -> string) returns (ok: bool)
      requires Sane(State(), resolve)
      modifies this
      ensures ok <==> ValidName(newName) && (Strip(newName) == old(active) || Strip(newName) !in old(contexts))
      ensures Sane(State(), resolve)
      ensures ok ==> active == Strip(newName) && contexts.Keys == old(contexts).Keys - {old(active)} + {active}
                     && (var rt := old(contexts)[old(active)];
                         contexts[active] == rt.(profile := rt.profile.(name := active)))
                     && (forall n :: n in old(contexts) && n != old(active) ==> contexts[n] == old(contexts)[n])
                     && drafts == if old(active) in old(drafts)
                                  then (old(drafts) - {old(active)})[active := old(drafts)[old(active)]]
                                  else old(drafts)
      ensures !ok ==> State() == old(State())
    {
      if !ValidName(newName) {
        return false;
      }
      var key, was := Strip(newName), active;
      StripIsStripped(newName);
      StripFixed(key);
      if was == key {
        return true;
      }
      if key in contexts {
        return false;
      }
      var rt := contexts[was];
      contexts := (contexts - {was})[key := rt.(profile := rt.profile.(name := key))];
      active := key;
      if was in drafts {
        drafts := (drafts - {was})[key := drafts[was]];
      }
      ok := true;
    }

    method ActivateNext()
      requires active in contexts && forall n :: n in contexts ==> Strip(n) == n
      modifies this`active
      ensures active == Neighbour(contexts, old(active), 1) && active in contexts
    {
      NextPrevInverse(contexts, active);
      var _ := Switch(Neighbour(contexts, active, 1));
    }

    method ActivatePrev()
      requires active in contexts && forall n :: n in contexts ==> Strip(n) == n
      modifies this`active
      ensures active == Neighbour(contexts, old(active), -1) && active in contexts
    {
      NextPrevInverse(contexts, active);
      var _ := Switch(Neighbour(contexts, active, -1));
    }

    /** Adds the tokens of one answer to the active context only. */
    method RecordTurnUsage(u: Usage)
      requires active in contexts
      modifies this`contexts
      ensures contexts == old(contexts)[active := old(contexts)[active].(usage := Plus(old(contexts)[active].usage, u))]
    {
      contexts := contexts[active := contexts[active].(usage := Plus(contexts[active].usage, u))];
    }

    method ReplaceFromSerialized(wanted: string, runtimes: map<string, Runtime>)
      requires runtimes != map[]
      modifies this
      ensures contexts == runtimes && active == WantedOrFirst(runtimes, wanted) && active in contexts
      ensures drafts == old(drafts)
    {
      contexts := runtimes;
      if wanted in contexts {
        active := wanted;
      } else {
        NamesNonEmpty(contexts);
        active := Names(contexts)[0];
      }
    }
  }

  function Plus(a: Usage, b: Usage): Usage {
    Usage(a.input + b.input, a.output + b.output, a.reasoning + b.reasoning, a.cacheRead + b.cacheRead,
        a.cacheWrite + b.cacheWrite)
  }

  // ---------------------------------------------------------------- saving and loading

  datatype Block = Block(name: string, root: string, agentId: string, workflowRef: Option<string>,
                         messages: seq<SavedMessage>, usage: Usage)

  datatype Payload = Payload(version: int, active: string, provider: string, model: string, maxTurns: int,
                             contexts: seq<Block>)

  datatype App = App(contexts: map<string, Runtime>, active: string, provider: string, model: string, maxTurns: int)

  function BlockOf(name: string, rt: Runtime): Block {
    Block(name, rt.profile.root, rt.profile.agentId, rt.profile.workflowRef, SaveAll(rt.chat), rt.usage)
  }

  /** The blocks of the contexts, by name. */
  function BlocksOf(contexts: map<string, Runtime>, names: seq<string>): seq<Block>
    requires forall i :: 0 <= i < |names| ==> names[i] in contexts
  {
    seq(|names|, i requires 0 <= i < |names| => BlockOf(names[i], contexts[names[i]]))
  }

  lemma BlocksSnoc(contexts: map<string, Runtime>, names: seq<string>, i: nat)
    requires i < |names| && forall j :: 0 <= j < |names| ==> names[j] in contexts
    ensures BlocksOf(contexts, names[..i + 1]) == BlocksOf(contexts, names[..i])
            + [BlockOf(names[i], contexts[names[i]])]
  {
  }

  method SaveAppState(app: App) returns (p: Payload)
    ensures (forall n :: n in Names(app.contexts) ==> n in app.contexts)
    ensures p == Payload(1, app.active, app.provider, app.model, app.maxTurns,
            BlocksOf(app.contexts, Names(app.contexts)))
  {
    NamesList(app.contexts);
    var names, blocks := Names(app.contexts), [];
    assert forall i :: 0 <= i < |names| ==> names[i] in app.contexts;
    for i := 0 to |names|
      invariant blocks == BlocksOf(app.contexts, names[..i])
    {
      var rt := app.contexts[names[i]];
      var rows := MessagesToJsonable(rt.chat);
      BlocksSnoc(app.contexts, names, i);
      blocks := blocks + [Block(names[i], rt.profile.root, rt.profile.agentId, rt.profile.workflowRef, rows, rt.usage)];
    }
    assert names[..|names|] == names;
    p := Payload(1, app.active, app.provider, app.model, app.maxTurns, blocks);
  }

  function Or(s: string, default: string): string {
    if s == "" then default else s
  }

  /** What one block restores. */
  function Revived(b: Block, defaultRoot: string, systemPrompt: string, resolve: string -> string): Runtime {
    var msgs := RestoreAll(b.messages);
    Runtime(Profile(Strip(b.name), resolve(Or(b.root, defaultRoot)), Or(b.agentId, "default"), b.workflowRef),
            if msgs == [] then FreshChat(systemPrompt) else TuiFilter(msgs), b.usage)
  }

  /** The name and the runtime of every block. */
  function Entries(blocks: seq<Block>, defaultRoot: string, systemPrompt: string,
                   resolve: string -> string): seq<(string, Runtime)> {
    seq(|blocks|, i requires 0 <= i < |blocks| =>
          (Strip(blocks[i].name), Revived(blocks[i], defaultRoot, systemPrompt, resolve)))
  }

  /** Entries without a name are skipped; of two with the same name the later wins. */
  function Gather(entries: seq<(string, Runtime)>): map<string, Runtime> {
    if entries == [] then map[]
    else
      var front, last := Gather(entries[..|entries| - 1]), entries[|entries| - 1];
      if last.0 == "" then front else front[last.0 := last.1]
  }

  function RevivedAll(blocks: seq<Block>, defaultRoot: string, systemPrompt: string,
                      resolve: string -> string): map<string, Runtime> {
    Gather(Entries(blocks, defaultRoot, systemPrompt, resolve))
  }

  lemma GatherSnoc(entries: seq<(string, Runtime)>, e: (string, Runtime))
    ensures Gather(entries + [e]) == if e.0 == "" then Gather(entries) else Gather(entries)[e.0 := e.1]
  {
    assert (entries + [e])[..|entries + [e]| - 1] == entries;
  }

  lemma RevivedSnoc(blocks: seq<Block>, i: nat, defaultRoot: string, systemPrompt: string, resolve: string -> string)
    requires i < |blocks|
    ensures var b := blocks[i];
            var before := RevivedAll(blocks[..i], defaultRoot, systemPrompt, resolve);
            RevivedAll(blocks[..i + 1], defaultRoot, systemPrompt, resolve) ==
            if Strip(b.name) == "" then before
            else before[Strip(b.name) := Revived(b, defaultRoot, systemPrompt, resolve)]
  {
    var b := blocks[i];
    var e := (Strip(b.name), Revived(b, defaultRoot, systemPrompt, resolve));
    assert Entries(blocks[..i + 1], defaultRoot, systemPrompt, resolve)
        == Entries(blocks[..i], defaultRoot, systemPrompt, resolve) + [e];
    GatherSnoc(Entries(blocks[..i], defaultRoot, systemPrompt, resolve), e);
  }

  /** `None` for another version or when no context can be restored. */
  method LoadAppState(p: Payload, defaultRoot: string, systemPrompt: string,
                      resolve: string -> string) returns (app: Option<App>)
    ensures var all := RevivedAll(p.contexts, defaultRoot, systemPrompt, resolve);
            && (app.Some? <==> p.version == 1 && all != map[])
            && (app.Some? ==> app.value.contexts == all && app.value.active in all
                              && app.value.active == WantedOrFirst(all, Or(p.active, "default"))
                              && app.value.provider == Or(p.provider, "mock") && app.value.model == Or(p.model, "mock")
                              && app.value.maxTurns == if p.maxTurns == 0 then 10_000 else p.maxTurns)
  {
    if p.version != 1 || p.contexts == [] {
      return None;
    }
    var runtimes: map<string, Runtime> := map[];
    for i := 0 to |p.contexts|
      invariant runtimes == RevivedAll(p.contexts[..i], defaultRoot, systemPrompt, resolve)
    {
      var b := p.contexts[i];
      RevivedSnoc(p.contexts, i, defaultRoot, systemPrompt, resolve);
      if Strip(b.name) != "" {
        var msgs := MessagesFromJsonable(b.messages);
        var chat := FreshChat(systemPrompt);
        if msgs != [] {
          chat := SanitizeForOpenAiTools(msgs);
        }
        runtimes := runtimes[Strip(b.name) :=
          Runtime(Profile(Strip(b.name), resolve(Or(b.root, defaultRoot)), Or(b.agentId, "default"), b.workflowRef),
              chat, b.usage)];
      }
    }
    assert p.contexts[..|p.contexts|] == p.contexts;
    if runtimes == map[] {
      return None;
    }
    var mgr := new TuiContextManager(defaultRoot, systemPrompt, resolve);
    mgr.ReplaceFromSerialized(Or(p.active, "default"), runtimes);
    app := Some(App(mgr.contexts, mgr.active, Or(p.provider, "mock"), Or(p.model, "mock"),
                    if p.maxTurns == 0 then 10_000 else p.maxTurns));
  }

  /** Gathering entries with distinct names gives each name its own runtime. */
  lemma {:induction false} GatherLookup(entries: seq<(string, Runtime)>, names: seq<string>,
                                        revived: map<string, Runtime>)
    requires |entries| == |names| && Distinct(names)
    requires forall i :: 0 <= i < |names| ==>
               names[i] != "" && names[i] in revived && entries[i] == (names[i], revived[names[i]])
    ensures forall n :: n in Gather(entries) <==> n in names
    ensures forall n :: n in Gather(entries) ==> n in revived && Gather(entries)[n] == revived[n]
  {
    if names != [] {
      var front, last := names[..|names| - 1], names[|names| - 1];
      GatherLookup(entries[..|names| - 1], front, revived);
      assert names == front + [last];
    }
  }

  lemma {:induction false} GatheredAreSane(entries: seq<(string, Runtime)>, resolve: string -> string)
    requires forall e :: e in entries && e.0 != "" ==> SaneContext(e.0, e.1.profile, resolve)
    ensures forall n :: n in Gather(entries) ==> SaneContext(n, Gather(entries)[n].profile, resolve)
  {
    if entries != [] {
      var front, last := entries[..|entries| - 1], entries[|entries| - 1];
      assert last in entries;
      GatheredAreSane(front, resolve);
    }
  }

  /** The last block of a name. */
  function LastNamed(blocks: seq<Block>, n: string): Option<Block> {
    if blocks == [] then None
    else if Strip(blocks[|blocks| - 1].name) == n then Some(blocks[|blocks| - 1])
    else LastNamed(blocks[..|blocks| - 1], n)
  }

  /** A name that is not blank is restored when a block has it, from the last such block; nothing else is restored. */
  lemma {:induction false} RestoredNames(blocks: seq<Block>, defaultRoot: string, systemPrompt: string,
                                         resolve: string -> string, n: string)
    ensures var all := RevivedAll(blocks, defaultRoot, systemPrompt, resolve);
            && (n in all <==> n != "" && LastNamed(blocks, n).Some?)
            && (n in all ==> all[n] == Revived(LastNamed(blocks, n).value, defaultRoot, systemPrompt, resolve))
    decreases |blocks|
  {
    if blocks != [] {
      var i := |blocks| - 1;
      RestoredNames(blocks[..i], defaultRoot, systemPrompt, resolve, n);
      RevivedSnoc(blocks, i, defaultRoot, systemPrompt, resolve);
      assert blocks[..i + 1] == blocks;
    }
  }

  /** What a block restores, with the defaults for what it leaves out. */
  lemma RevivedMeans(b: Block, defaultRoot: string, systemPrompt: string, resolve: string -> string)
    ensures var rt := Revived(b, defaultRoot, systemPrompt, resolve);
            && rt.profile.name == Strip(b.name) && rt.profile.workflowRef == b.workflowRef && rt.usage == b.usage
            && rt.profile.root == resolve(if b.root != "" then b.root else defaultRoot)
            && rt.profile.agentId == (if b.agentId != "" then b.agentId else "default")
            && (b.messages == [] ==> rt.chat == [Message(System, systemPrompt, None, None, [])])
            && (b.messages != [] ==> rt.chat == TuiFilter(RestoreAll(b.messages)))
  {
  }

  /** Whatever blocks are loaded, the contexts made of them are sane. */
  lemma LoadedIsSane(blocks: seq<Block>, defaultRoot: string, systemPrompt: string, resolve: string -> string)
    requires defaultRoot != "" && forall s :: s != "" ==> resolve(s) != "" && resolve(resolve(s)) == resolve(s)
    ensures var all := RevivedAll(blocks, defaultRoot, systemPrompt, resolve);
            forall n :: n in all ==> SaneContext(n, all[n].profile, resolve)
  {
    var entries := Entries(blocks, defaultRoot, systemPrompt, resolve);
    forall e | e in entries && e.0 != "" ensures SaneContext(e.0, e.1.profile, resolve) {
      var i :| 0 <= i < |blocks| && entries[i] == e;
      RevivedIsSane(blocks[i], defaultRoot, systemPrompt, resolve);
    }
    GatheredAreSane(entries, resolve);
  }

  lemma RevivedIsSane(b: Block, defaultRoot: string, systemPrompt: string, resolve: string -> string)
    requires Strip(b.name) != "" && defaultRoot != ""
    requires forall s :: s != "" ==> resolve(s) != "" && resolve(resolve(s)) == resolve(s)
    ensures SaneContext(Strip(b.name), Revived(b, defaultRoot, systemPrompt, resolve).profile, resolve)
  {
    StripIsStripped(b.name);
    StripFixed(Strip(b.name));
  }

  /** What a chat becomes: its non-tool messages without tool calls, or a fresh chat when it was empty. */
  function SavedChat(chat: seq<Message>, systemPrompt: string): seq<Message> {
    if chat == [] then FreshChat(systemPrompt) else Survivors(chat)
  }

  /** What saving and loading makes of a runtime. */
  function Reloaded(rt: Runtime, systemPrompt: string): Runtime {
    Runtime(rt.profile, SavedChat(rt.chat, systemPrompt), rt.usage)
  }

  /**
   * Save then load: the same context names, profiles, usage totals and active name; each chat comes back as its
   * non-tool messages with tool calls erased.
   */
  lemma SaveThenLoad(m: Manager, defaultRoot: string, systemPrompt: string, resolve: string -> string)
    requires Sane(m, resolve)
    ensures forall i :: 0 <= i < |Names(m.contexts)| ==> Names(m.contexts)[i] in m.contexts
    ensures Or(m.active, "default") == m.active
    ensures RevivedAll(BlocksOf(m.contexts, Names(m.contexts)), defaultRoot, systemPrompt, resolve)
            == map n | n in m.contexts :: Reloaded(m.contexts[n], systemPrompt)
  {
    NamesList(m.contexts);
    SaneReloads(m, defaultRoot, systemPrompt, resolve);
    RevivedExactly(m.contexts, Names(m.contexts), defaultRoot, systemPrompt, resolve,
                   map n | n in m.contexts :: Reloaded(m.contexts[n], systemPrompt));
  }

  lemma SaneReloads(m: Manager, defaultRoot: string, systemPrompt: string, resolve: string -> string)
    requires Sane(m, resolve)
    ensures forall n :: n in m.contexts ==>
      Revived(BlockOf(n, m.contexts[n]), defaultRoot, systemPrompt, resolve) == Reloaded(m.contexts[n], systemPrompt)
  {
    forall n | n in m.contexts
      ensures Revived(BlockOf(n, m.contexts[n]), defaultRoot, systemPrompt, resolve)
              == Reloaded(m.contexts[n], systemPrompt)
    {
      RevivedBlock(n, m.contexts[n], defaultRoot, systemPrompt, resolve);
    }
  }

  lemma RevivedExactly(contexts: map<string, Runtime>, names: seq<string>, defaultRoot: string, systemPrompt: string,
                       resolve: string -> string, revived: map<string, Runtime>)
    requires forall n :: n in contexts <==> n in names
    requires revived.Keys == contexts.Keys && Distinct(names)
    requires forall n :: n in contexts ==> Strip(n) == n != ""
    requires forall n :: n in contexts ==>
               Revived(BlockOf(n, contexts[n]), defaultRoot, systemPrompt, resolve) == revived[n]
    ensures forall i :: 0 <= i < |names| ==> names[i] in contexts
    ensures RevivedAll(BlocksOf(contexts, names), defaultRoot, systemPrompt, resolve) == revived
  {
    assert forall i :: 0 <= i < |names| ==> names[i] in contexts;
    var entries := Entries(BlocksOf(contexts, names), defaultRoot, systemPrompt, resolve);
    forall i | 0 <= i < |names| ensures names[i] != "" && entries[i] == (names[i], revived[names[i]]) {
      assert BlocksOf(contexts, names)[i] == BlockOf(names[i], contexts[names[i]]);
    }
    GatherLookup(entries, names, revived);
  }

  lemma RevivedBlock(n: string, rt: Runtime, defaultRoot: string, systemPrompt: string, resolve: string -> string)
    requires Strip(n) == n == rt.profile.name && rt.profile.agentId != ""
             && resolve(rt.profile.root) == rt.profile.root != ""
    ensures Revived(BlockOf(n, rt), defaultRoot, systemPrompt, resolve) == Reloaded(rt, systemPrompt)
  {
    RestoredChat(rt.chat);
    assert |RestoreAll(SaveAll(rt.chat))| == |rt.chat|;
  }
}
