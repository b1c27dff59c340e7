/**
 * The manager of long-lived shells: a bounded table of processes by session key, and a command number per key.
 *
 * A process is known by its handle, its place in the list of all processes ever started. Clock readings and the
 * moments at which processes end on their own are inputs.
 */
module ShellSessions {
  import opened Prelude

  datatype Proc = Proc(alive: bool, disposed: bool, lastUsed: real)

  datatype Entry = Entry(key: string, handle: nat)

  /** `table` is in insertion order. */
  datatype State = State(table: seq<Entry>, procs: seq<Proc>, numbers: map<string, nat>)

  datatype Limits = Limits(maxSessions: int, idle: real)

  // ---------------------------------------------------------------- tables

  predicate UniqueKeys(table: seq<Entry>) {
    forall i, j :: 0 <= i < j < |table| ==> table[i].key != table[j].key
  }

  predicate UniqueHandles(table: seq<Entry>) {
    forall i, j :: 0 <= i < j < |table| ==> table[i].handle != table[j].handle
  }

  function Find(table: seq<Entry>, key: string): Option<nat> {
    if table == [] then None
    else if table[|table| - 1].key == key then Some(table[|table| - 1].handle)
    else Find(table[..|table| - 1], key)
  }

  function Filter(table: seq<Entry>, keep: Entry -> bool): seq<Entry> {
    if table == [] then []
    else Filter(table[..|table| - 1], keep) + if keep(table[|table| - 1]) then [table[|table| - 1]] else []
  }

  /** Assigning to a dictionary: a present key keeps its place, a new one comes last. */
  function Put(table: seq<Entry>, key: string, handle: nat): seq<Entry> {
    if Find(table, key).Some?
    then seq(|table|, i requires 0 <= i < |table| => if table[i].key == key then Entry(key, handle) else table[i])
    else table + [Entry(key, handle)]
  }

  lemma {:induction false} FindIff(table: seq<Entry>, key: string)
    requires UniqueKeys(table)
    ensures forall h: nat :: Find(table, key) == Some(h) <==> Entry(key, h) in table
    ensures Find(table, key).None? <==> forall e :: e in table ==> e.key != key
  {
    if table != [] {
      var front, last := table[..|table| - 1], table[|table| - 1];
      FindIff(front, key);
      assert table == front + [last];
      if last.key == key {
        forall e | e in front ensures e.key != key {}
      }
    }
  }

  lemma PutFacts(table: seq<Entry>, key: string, handle: nat)
    requires UniqueKeys(table)
    ensures var after := Put(table, key, handle);
            && UniqueKeys(after)
            && (forall e :: e in after <==> e == Entry(key, handle) || (e in table && e.key != key))
            && |after| == |table| + (if Find(table, key).Some? then 0 else 1)
            && (UniqueHandles(table) && (forall e :: e in table ==> e.handle != handle) ==> UniqueHandles(after))
  {
    FindIff(table, key);
    if Find(table, key).Some? {
      var i :| 0 <= i < |table| && table[i] == Entry(key, Find(table, key).value);
      var after := table[i := Entry(key, handle)];
      assert Put(table, key, handle) == after;
      forall e | e in table && e.key != key ensures e in after {
        var j :| 0 <= j < |table| && table[j] == e;
        assert after[j] == e;
      }
      assert after[i] == Entry(key, handle);
    }
  }

  lemma {:induction false} FilterMembers(table: seq<Entry>, keep: Entry -> bool)
    ensures forall e :: e in Filter(table, keep) <==> e in table && keep(e)
    ensures |Filter(table, keep)| <= |table|
    ensures (exists e :: e in table && !keep(e)) ==> |Filter(table, keep)| < |table|
  {
    if table != [] {
      var front, last := table[..|table| - 1], table[|table| - 1];
      FilterMembers(front, keep);
      assert table == front + [last];
    }
  }

  lemma {:induction false} FilterKeepsKeys(table: seq<Entry>, keep: Entry -> bool)
    requires UniqueKeys(table)
    ensures UniqueKeys(Filter(table, keep))
  {
    if table != [] {
      var front, last := table[..|table| - 1], table[|table| - 1];
      FilterKeepsKeys(front, keep);
      FilterMembers(front, keep);
      forall e | e in Filter(front, keep) ensures e.key != last.key {
        assert e in front;
      }
    }
  }

  lemma {:induction false} FilterKeepsHandles(table: seq<Entry>, keep: Entry -> bool)
    requires UniqueHandles(table)
    ensures UniqueHandles(Filter(table, keep))
  {
    if table != [] {
      var front, last := table[..|table| - 1], table[|table| - 1];
      FilterKeepsHandles(front, keep);
      FilterMembers(front, keep);
      forall e | e in Filter(front, keep) ensures e.handle != last.handle {
        assert e in front;
      }
    }
  }

  lemma FilterFacts(table: seq<Entry>, keep: Entry -> bool)
    ensures forall e :: e in Filter(table, keep) <==> e in table && keep(e)
    ensures |Filter(table, keep)| <= |table|
    ensures (exists e :: e in table && !keep(e)) ==> |Filter(table, keep)| < |table|
    ensures UniqueKeys(table) ==> UniqueKeys(Filter(table, keep))
    ensures UniqueHandles(table) ==> UniqueHandles(Filter(table, keep))
  {
    FilterMembers(table, keep);
    if UniqueKeys(table) {
      FilterKeepsKeys(table, keep);
    }
    if UniqueHandles(table) {
      FilterKeepsHandles(table, keep);
    }
  }

  lemma {:induction false} FilterSame(table: seq<Entry>, keep: Entry -> bool, other: Entry -> bool)
    requires forall e :: e in table ==> keep(e) == other(e)
    ensures Filter(table, keep) == Filter(table, other)
  {
    if table != [] {
      FilterSame(table[..|table| - 1], keep, other);
    }
  }

  // ---------------------------------------------------------------- processes

  predicate Alive(procs: seq<Proc>, h: nat) {
    h < |procs| && procs[h].alive
  }

  function LastUsed(procs: seq<Proc>, h: nat): real {
    if h < |procs| then procs[h].lastUsed else 0.0
  }

  predicate Idle(procs: seq<Proc>, h: nat, now: real, idle: real) {
    now - LastUsed(procs, h) > idle
  }

  /** Disposing of a process: nothing when it has already ended. */
  function Dispose(procs: seq<Proc>, h: nat): seq<Proc> {
    if Alive(procs, h) then procs[h := procs[h].(alive := false, disposed := true)] else procs
  }

  function DisposeEach(procs: seq<Proc>, table: seq<Entry>, which: Entry -> bool): seq<Proc> {
    if table == [] then procs
    else
      var before, last := DisposeEach(procs, table[..|table| - 1], which), table[|table| - 1];
      if which(last) then Dispose(before, last.handle) else before
  }

  /** The given processes end on their own. */
  function Ended(procs: seq<Proc>, handles: set<nat>): seq<Proc> {
    seq(|procs|, i requires 0 <= i < |procs| => if i in handles then procs[i].(alive := false) else procs[i])
  }

  lemma {:induction false} DisposeEachFacts(procs: seq<Proc>, table: seq<Entry>, which: Entry -> bool)
    ensures var after := DisposeEach(procs, table, which);
            && |after| == |procs|
            && forall h :: 0 <= h < |procs| ==>
                 && after[h].lastUsed == procs[h].lastUsed
                 && (after[h].alive <==> procs[h].alive && !exists e :: e in table && e.handle == h && which(e))
                 && (after[h].disposed <==> procs[h].disposed || (procs[h].alive && !after[h].alive))
  {
    if table != [] {
      var front, last := table[..|table| - 1], table[|table| - 1];
      DisposeEachFacts(procs, front, which);
      assert table == front + [last];
    }
  }

  /** The place of the first entry that was used longest ago. */
  function Oldest(table: seq<Entry>, procs: seq<Proc>): (i: nat)
    requires table != []
    ensures i < |table|
    ensures forall j :: 0 <= j < |table| ==> LastUsed(procs, table[i].handle) <= LastUsed(procs, table[j].handle)
    ensures forall j :: 0 <= j < i ==> LastUsed(procs, table[i].handle) < LastUsed(procs, table[j].handle)
  {
    if |table| == 1 then 0
    else
      var front, last := table[..|table| - 1], table[|table| - 1];
      var best := Oldest(front, procs);
      assert forall j :: 0 <= j < |front| ==> front[j] == table[j];
      if LastUsed(procs, last.handle) < LastUsed(procs, front[best].handle) then |table| - 1 else best
  }

  // ---------------------------------------------------------------- the operations

  function InUse(procs: seq<Proc>, now: real, idle: real): Entry -> bool {
    (e: Entry) => Alive(procs, e.handle) && !Idle(procs, e.handle, now, idle)
  }

  function IsIdle(procs: seq<Proc>, now: real, idle: real): Entry -> bool {
    (e: Entry) => Idle(procs, e.handle, now, idle)
  }

  function OtherKey(key: string): Entry -> bool {
    (e: Entry) => e.key != key
  }

  function Any(): Entry -> bool {
    (e: Entry) => true
  }

  function CleanupIdle(s: State, now: real, idle: real): State {
    State(Filter(s.table, InUse(s.procs, now, idle)), DisposeEach(s.procs, s.table, IsIdle(s.procs, now, idle)),
          s.numbers)
  }

  function Reset(s: State, key: string): State {
    State(Filter(s.table, OtherKey(key)),
          if Find(s.table, key).Some? then Dispose(s.procs, Find(s.table, key).value) else s.procs,
          s.numbers - {key})
  }

  function DisposeAll(s: State): State {
    State([], DisposeEach(s.procs, s.table, Any()), map[])
  }

  /** The number the key's last command had. */
  function Count(s: State, key: string): nat {
    if key in s.numbers then s.numbers[key] else 0
  }

  function NextSeq(s: State, key: string): State {
    s.(numbers := s.numbers[key := Count(s, key) + 1])
  }

  /** The table as `get_or_create` sees it after its cleanup; the processes `between` end just after that. */
  function Seen(s: State, now: real, between: set<nat>, lim: Limits): State {
    var clean := CleanupIdle(s, now, lim.idle);
    clean.(procs := Ended(clean.procs, between))
  }

  predicate HasLive(s: State, key: string) {
    Find(s.table, key).Some? && Alive(s.procs, Find(s.table, key).value)
  }

  /** The key that has to make room. */
  function Victim(s: State, key: string, lim: Limits): Option<string> {
    if !HasLive(s, key) && |s.table| >= lim.maxSessions && s.table != []
    then Some(s.table[Oldest(s.table, s.procs)].key) else None
  }

  function Start(s: State, key: string, born: real): State {
    State(Put(s.table, key, |s.procs|), s.procs + [Proc(true, false, born)], s.numbers)
  }

  /** What `get_or_create` does once it has cleaned up. */
  function Settle(s: State, key: string, born: real, lim: Limits): State {
    if HasLive(s, key) then s
    else if Victim(s, key, lim).Some? then Start(Reset(s, Victim(s, key, lim).value), key, born)
    else if |s.table| >= lim.maxSessions then s
    else Start(s, key, born)
  }

  datatype Op =
    | GetOrCreateOp(key: string, now: real, between: set<nat>, born: real)
    | ResetOp(key: string)
    | NextSeqOp(key: string)
    | DisposeAllOp
    | EndsOp(handle: nat)
    | RunOp(handle: nat, at: real, killed: bool)

  /** Running a command marks the process as used; after a timeout or a cancellation the process is disposed of. */
  function AfterRun(procs: seq<Proc>, h: nat, at: real, killed: bool): seq<Proc> {
    if !Alive(procs, h) then procs
    else
      var used := procs[h := procs[h].(lastUsed := at)];
      if killed then Dispose(used, h) else used
  }

  function Step(s: State, op: Op, lim: Limits): State {
    match op
    case GetOrCreateOp(key, now, between, born) => Settle(Seen(s, now, between, lim), key, born, lim)
    case ResetOp(key) => Reset(s, key)
    case NextSeqOp(key) => NextSeq(s, key)
    case DisposeAllOp => DisposeAll(s)
    case EndsOp(h) => s.(procs := Ended(s.procs, {h}))
    case RunOp(h, at, killed) => s.(procs := AfterRun(s.procs, h, at, killed))
  }

  function Run(s: State, ops: seq<Op>, lim: Limits): State {
    if ops == [] then s else Step(Run(s, ops[..|ops| - 1], lim), ops[|ops| - 1], lim)
  }

  // ---------------------------------------------------------------- the manager

  class ShellSessionManager {
    var table: seq<Entry>
    var procs: seq<Proc>
    var numbers: map<string, nat>
    const lim: Limits

    ghost function Value(): State
      reads this
    {
      State(table, procs, numbers)
    }

    constructor (lim: Limits)
      ensures this.lim == lim && Value() == State([], [], map[])
    {
      this.lim := lim;
      table, procs, numbers := [], [], map[];
    }

    method Cleanup(now: real)
      requires UniqueKeys(table) && UniqueHandles(table)
      modifies this
      ensures Value() == CleanupIdle(old(Value()), now, lim.idle)
    {
      var dead: set<string> := {};
      ghost var before := procs;
      ghost var idle := IsIdle(before, now, lim.idle);
      for i := 0 to |table|
        invariant table == old(table) && numbers == old(numbers)
        invariant procs == DisposeEach(before, table[..i], idle)
        invariant forall j :: 0 <= j < |table| ==>
                    (table[j].key in dead <==> j < i && !InUse(before, now, lim.idle)(table[j]))
      {
        var e := table[i];
        assert table[..i + 1][..i] == table[..i];
        DisposeEachFacts(before, table[..i], idle);
        assert Alive(procs, e.handle) == Alive(before, e.handle);
        if !Alive(procs, e.handle) {
          dead := dead + {e.key};
        } else if Idle(procs, e.handle, now, lim.idle) {
          procs := Dispose(procs, e.handle);
          dead := dead + {e.key};
        }
      }
      assert table[..|table|] == table;
      var kept := (e: Entry) => e.key !in dead;
      FilterSame(table, kept, InUse(before, now, lim.idle));
      table := Filter(table, kept);
    }

    method DisposeEverything()
      modifies this
      ensures Value() == DisposeAll(old(Value()))
    {
      ghost var before := procs;
      for i := 0 to |table|
        invariant table == old(table)
        invariant procs == DisposeEach(before, table[..i], Any())
      {
        assert table[..i + 1][..i] == table[..i];
        procs := Dispose(procs, table[i].handle);
      }
      assert table[..|table|] == table;
      table, numbers := [], map[];
    }

    method ResetKey(key: string)
      modifies this
      ensures Value() == Reset(old(Value()), key)
    {
      var found := Find(table, key);
      table := Filter(table, OtherKey(key));
      if found.Some? {
        procs := Dispose(procs, found.value);
      }
      numbers := numbers - {key};
    }

    method NextNumber(key: string) returns (n: nat)
      modifies this
      ensures Value() == NextSeq(old(Value()), key)
      ensures n == Count(old(Value()), key) + 1 == Count(Value(), key)
    {
      n := (if key in numbers then numbers[key] else 0) + 1;
      numbers := numbers[key := n];
    }

    /** `get_or_create` after its cleanup; `None` stands for the exception raised when the table may hold nothing. */
    method Claim(key: string, born: real) returns (r: Option<nat>)
      modifies this
      ensures Value() == Settle(old(Value()), key, born, lim)
      ensures r.None? <==> !HasLive(old(Value()), key) && old(table) == [] && lim.maxSessions <= 0
      ensures r.Some? ==> r.value == if HasLive(old(Value()), key) then Find(old(table), key).value else |old(procs)|
    {
      var cur := Find(table, key);
      if cur.Some? && Alive(procs, cur.value) {
        return cur;
      }
      if |table| >= lim.maxSessions {
        if table == [] {
          return None;
        }
        ResetKey(table[Oldest(table, procs)].key);
      }
      r := Some(|procs|);
      table := Put(table, key, |procs|);
      procs := procs + [Proc(true, false, born)];
    }

    method GetOrCreate(key: string, now: real, between: set<nat>, born: real) returns (r: Option<nat>)
      requires Valid(Value(), lim)
      modifies this
      ensures Value() == Step(old(Value()), GetOrCreateOp(key, now, between, born), lim)
      ensures r.Some? <==> lim.maxSessions >= 1
      ensures r.Some? ==> Find(table, key) == r && Alive(procs, r.value)
    {
      Cleanup(now);
      procs := Ended(procs, between);
      ghost var seen := Value();
      SeenValid(old(Value()), now, between, lim);
      SettleValid(seen, key, born, lim);
      r := Claim(key, born);
    }
  }

  // ---------------------------------------------------------------- what every run keeps

  /**
   * The table is within its bound, no key and no process appears in it twice, and every process that still runs is
   * in it.
   */
  ghost predicate Valid(s: State, lim: Limits) {
    && UniqueKeys(s.table) && UniqueHandles(s.table)
    && |s.table| <= Max(lim.maxSessions, 0)
    && (forall e :: e in s.table ==> e.handle < |s.procs|)
    && (forall h :: 0 <= h < |s.procs| && s.procs[h].alive ==>
          !s.procs[h].disposed && exists e :: e in s.table && e.handle == h)
  }

  lemma CleanupValid(s: State, now: real, lim: Limits)
    requires Valid(s, lim)
    ensures Valid(CleanupIdle(s, now, lim.idle), lim)
  {
    FilterFacts(s.table, InUse(s.procs, now, lim.idle));
    DisposeEachFacts(s.procs, s.table, IsIdle(s.procs, now, lim.idle));
  }

  lemma SeenValid(s: State, now: real, between: set<nat>, lim: Limits)
    requires Valid(s, lim)
    ensures Valid(Seen(s, now, between, lim), lim)
  {
    CleanupValid(s, now, lim);
  }

  lemma ResetValid(s: State, key: string, lim: Limits)
    requires Valid(s, lim)
    ensures Valid(Reset(s, key), lim)
    ensures Find(s.table, key).Some? ==> |Reset(s, key).table| < |s.table|
  {
    FilterFacts(s.table, OtherKey(key));
    FindIff(s.table, key);
    if Find(s.table, key).Some? {
      assert Entry(key, Find(s.table, key).value) in s.table;
    }
  }

  lemma StartValid(s: State, key: string, born: real, lim: Limits)
    requires Valid(s, lim) && !HasLive(s, key) && |s.table| < lim.maxSessions
    ensures Valid(Start(s, key, born), lim)
    ensures Find(Start(s, key, born).table, key) == Some(|s.procs|)
  {
    FindIff(s.table, key);
    PutFacts(s.table, key, |s.procs|);
    var after := Start(s, key, born);
    forall h | 0 <= h < |after.procs| && after.procs[h].alive
      ensures !after.procs[h].disposed && exists e :: e in after.table && e.handle == h
    {
      if h < |s.procs| {
        var e :| e in s.table && e.handle == h;
        assert e in after.table;
      } else {
        assert Entry(key, |s.procs|) in after.table;
      }
    }
    FindIff(after.table, key);
  }

  /** Settling keeps the invariant and, unless nothing may be kept at all, leaves a live process under the key. */
  lemma SettleValid(s: State, key: string, born: real, lim: Limits)
    requires Valid(s, lim)
    ensures Valid(Settle(s, key, born, lim), lim)
    ensures lim.maxSessions >= 1 ==> HasLive(Settle(s, key, born, lim), key)
    ensures Find(Settle(s, key, born, lim).table, key) ==
            if HasLive(s, key) then Find(s.table, key) else if lim.maxSessions >= 1 then Some(|s.procs|) else None
  {
    if !HasLive(s, key) && (|s.table| < lim.maxSessions || s.table != []) {
      var room := s;
      if Victim(s, key, lim).Some? {
        room := Reset(s, Victim(s, key, lim).value);
        VictimLeaves(s, key, lim);
      }
      StartValid(room, key, born, lim);
    }
  }

  lemma VictimLeaves(s: State, key: string, lim: Limits)
    requires Valid(s, lim) && Victim(s, key, lim).Some?
    ensures var room := Reset(s, Victim(s, key, lim).value);
            Valid(room, lim) && |room.table| < lim.maxSessions && !HasLive(room, key)
  {
    var victim := s.table[Oldest(s.table, s.procs)];
    FindIff(s.table, victim.key);
    ResetValid(s, victim.key, lim);
    var room := Reset(s, victim.key);
    FilterFacts(s.table, OtherKey(victim.key));
    FindIff(room.table, key);
    FindIff(s.table, key);
  }

  lemma DisposeAllValid(s: State, lim: Limits)
    requires Valid(s, lim)
    ensures Valid(DisposeAll(s), lim)
    ensures forall p :: p in DisposeAll(s).procs ==> !p.alive
  {
    DisposeEachFacts(s.procs, s.table, Any());
  }

  /** One step keeps the invariant, and never forgets or revives a process. */
  lemma StepValid(s: State, op: Op, lim: Limits)
    requires Valid(s, lim)
    ensures Valid(Step(s, op, lim), lim)
  {
    match op
    case GetOrCreateOp(key, now, between, born) =>
      SeenValid(s, now, between, lim);
      SettleValid(Seen(s, now, between, lim), key, born, lim);
    case ResetOp(key) => ResetValid(s, key, lim);
    case NextSeqOp(key) =>
    case DisposeAllOp => DisposeAllValid(s, lim);
    case EndsOp(h) =>
    case RunOp(h, at, killed) =>
  }

  /** Over every run the table stays within its bound and no running process is lost from it. */
  lemma {:induction false} RunValid(ops: seq<Op>, lim: Limits)
    ensures Valid(Run(State([], [], map[]), ops, lim), lim)
  {
    if ops != [] {
      RunValid(ops[..|ops| - 1], lim);
      StepValid(Run(State([], [], map[]), ops[..|ops| - 1], lim), ops[|ops| - 1], lim);
    }
  }

  // ---------------------------------------------------------------- who has to go

  /** Cleanup keeps an entry exactly when its process runs and has not been idle for too long. */
  lemma CleanupKeepsIff(s: State, now: real, idle: real, e: Entry)
    requires e in s.table
    ensures e in CleanupIdle(s, now, idle).table <==>
            Alive(s.procs, e.handle) && now - LastUsed(s.procs, e.handle) <= idle
  {
    FilterFacts(s.table, InUse(s.procs, now, idle));
  }

  /** A process that a cleanup keeps is not touched by it. */
  lemma CleanupSpares(s: State, now: real, lim: Limits, e: Entry)
    requires Valid(s, lim) && e in s.table && e in CleanupIdle(s, now, lim.idle).table
    ensures |CleanupIdle(s, now, lim.idle).procs| == |s.procs|
    ensures CleanupIdle(s, now, lim.idle).procs[e.handle] == s.procs[e.handle]
  {
    CleanupKeepsIff(s, now, lim.idle, e);
    DisposeEachFacts(s.procs, s.table, IsIdle(s.procs, now, lim.idle));
    FilterFacts(s.table, InUse(s.procs, now, lim.idle));
  }

  /** The victim was used longest ago, and there is one only when the table is full and the key has no live process. */
  lemma VictimIsLeastRecentlyUsed(s: State, key: string, lim: Limits)
    requires Valid(s, lim) && Victim(s, key, lim).Some?
    ensures |s.table| == lim.maxSessions && !HasLive(s, key)
    ensures exists e :: e in s.table && e.key == Victim(s, key, lim).value
                        && forall other :: other in s.table ==>
                             LastUsed(s.procs, e.handle) <= LastUsed(s.procs, other.handle)
  {
    var e := s.table[Oldest(s.table, s.procs)];
    assert e in s.table && e.key == Victim(s, key, lim).value;
  }

  /** Settling removes at most the victim and the dead process the key had; all other entries stay. */
  lemma SettleRemovesOnly(s: State, key: string, born: real, lim: Limits, e: Entry)
    requires Valid(s, lim) && e in s.table
    ensures e in Settle(s, key, born, lim).table
            <==> Victim(s, key, lim) != Some(e.key) && (e.key == key ==> HasLive(s, key) || lim.maxSessions <= 0)
  {
    FindIff(s.table, key);
    if !HasLive(s, key) {
      if Victim(s, key, lim).Some? {
        var room := Reset(s, Victim(s, key, lim).value);
        VictimLeaves(s, key, lim);
        FilterFacts(s.table, OtherKey(Victim(s, key, lim).value));
        PutFacts(room.table, key, |room.procs|);
        assert Entry(key, |room.procs|) !in s.table;
      } else {
        PutFacts(s.table, key, |s.procs|);
        assert Entry(key, |s.procs|) !in s.table;
      }
    }
  }

  /**
   * A key whose process is running, recently used and stays alive is answered with that very process: nothing is
   * started and nothing is evicted.
   */
  lemma SessionsAreSticky(s: State, e: Entry, now: real, between: set<nat>, born: real, lim: Limits)
    requires Valid(s, lim) && e in s.table && Alive(s.procs, e.handle) && !Idle(s.procs, e.handle, now, lim.idle)
    requires e.handle !in between
    ensures var after := Step(s, GetOrCreateOp(e.key, now, between, born), lim);
            Find(after.table, e.key) == Some(e.handle) && |after.procs| == |s.procs|
            && after.procs[e.handle] == s.procs[e.handle] && after == Seen(s, now, between, lim)
  {
    var seen := Seen(s, now, between, lim);
    SeenValid(s, now, between, lim);
    CleanupKeepsIff(s, now, lim.idle, e);
    CleanupSpares(s, now, lim, e);
    FindIff(seen.table, e.key);
    SettleValid(seen, e.key, born, lim);
    DisposeEachFacts(s.procs, s.table, IsIdle(s.procs, now, lim.idle));
  }

  /**
   * When a process counts as last used: a new one at its start, and from then on at its last command that found it
   * running. Nothing else changes that moment.
   */
  lemma LastUseMeans(s: State, op: Op, lim: Limits, h: nat)
    ensures var after := Step(s, op, lim);
            && |s.procs| <= |after.procs|
            && (h < |s.procs| ==>
                  LastUsed(after.procs, h) ==
                  if op.RunOp? && op.handle == h && Alive(s.procs, h) then op.at else LastUsed(s.procs, h))
            && (|s.procs| <= h < |after.procs| ==>
                  op.GetOrCreateOp? && h == |s.procs| && after.procs[h] == Proc(true, false, op.born))
  {
    match op
    case GetOrCreateOp(key, now, between, born) =>
      SeenKeepsUse(s, now, between, lim);
      SettleKeepsUse(Seen(s, now, between, lim), key, born, lim);
    case DisposeAllOp => DisposeEachFacts(s.procs, s.table, Any());
    case _ =>
  }

  lemma SeenKeepsUse(s: State, now: real, between: set<nat>, lim: Limits)
    ensures var seen := Seen(s, now, between, lim).procs;
            |seen| == |s.procs| && forall h :: 0 <= h < |seen| ==> seen[h].lastUsed == s.procs[h].lastUsed
  {
    DisposeEachFacts(s.procs, s.table, IsIdle(s.procs, now, lim.idle));
  }

  lemma SettleKeepsUse(s: State, key: string, born: real, lim: Limits)
    ensures var after := Settle(s, key, born, lim).procs;
            && |s.procs| <= |after| <= |s.procs| + 1
            && (forall h :: 0 <= h < |s.procs| ==> after[h].lastUsed == s.procs[h].lastUsed)
            && (|after| > |s.procs| ==> after[|s.procs|] == Proc(true, false, born))
  {
  }

  /** A command ends its process exactly when it is killed; it changes neither the table nor another process. */
  lemma RunOpMeans(s: State, h: nat, at: real, killed: bool, lim: Limits, other: nat)
    ensures var after := Step(s, RunOp(h, at, killed), lim);
            && after.table == s.table && after.numbers == s.numbers && |after.procs| == |s.procs|
            && (Alive(after.procs, other) <==> Alive(s.procs, other) && !(other == h && killed))
            && (other < |s.procs| && other != h ==> after.procs[other] == s.procs[other])
  {
  }

  // ---------------------------------------------------------------- command numbers

  /** The key whose entry a step evicts. */
  function Evicted(s: State, op: Op, lim: Limits): Option<string> {
    match op
    case GetOrCreateOp(key, now, between, born) => Victim(Seen(s, now, between, lim), key, lim)
    case _ => None
  }

  /** The steps after which a key's numbering starts over: a reset, an eviction or disposing of everything. */
  predicate Clears(s: State, op: Op, key: string, lim: Limits) {
    op == ResetOp(key) || op == DisposeAllOp || Evicted(s, op, lim) == Some(key)
  }

  /**
   * A step changes a key's number in two ways only. In particular a process that ended or was too long idle is
   * replaced without the numbering starting over.
   */
  lemma NumberingStep(s: State, op: Op, key: string, lim: Limits)
    ensures Count(Step(s, op, lim), key) ==
            if Clears(s, op, key, lim) then 0 else Count(s, key) + if op == NextSeqOp(key) then 1 else 0
  {
  }

  /** The numbers a run hands out for a key. */
  function Issued(s: State, ops: seq<Op>, key: string, lim: Limits): seq<nat> {
    if ops == [] then []
    else
      var front := ops[..|ops| - 1];
      Issued(s, front, key, lim) +
      if ops[|ops| - 1] == NextSeqOp(key) then [Count(Run(s, ops, lim), key)] else []
  }

  ghost predicate NeverClears(s: State, ops: seq<Op>, key: string, lim: Limits) {
    forall i :: 0 <= i < |ops| ==> !Clears(Run(s, ops[..i], lim), ops[i], key, lim)
  }

  /** As long as nothing clears the key its numbers follow on each other without gap or repetition. */
  lemma {:induction false} NumbersAreConsecutive(s: State, ops: seq<Op>, key: string, lim: Limits)
    requires NeverClears(s, ops, key, lim)
    ensures var issued := Issued(s, ops, key, lim);
            && Count(Run(s, ops, lim), key) == Count(s, key) + |issued|
            && forall i :: 0 <= i < |issued| ==> issued[i] == Count(s, key) + 1 + i
    decreases |ops|
  {
    if ops != [] {
      var front, op := ops[..|ops| - 1], ops[|ops| - 1];
      forall i | 0 <= i < |front| ensures front[..i] == ops[..i] {}
      NumbersAreConsecutive(s, front, key, lim);
      NumberingStep(Run(s, front, lim), op, key, lim);
    }
  }

  /** After a clearing step the numbers are 1, 2, 3, … */
  lemma NumbersStartAtOne(s: State, op: Op, ops: seq<Op>, key: string, lim: Limits)
    requires Clears(s, op, key, lim) && NeverClears(Step(s, op, lim), ops, key, lim)
    ensures var issued := Issued(Step(s, op, lim), ops, key, lim);
            forall i :: 0 <= i < |issued| ==> issued[i] == i + 1
  {
    NumberingStep(s, op, key, lim);
    NumbersAreConsecutive(Step(s, op, lim), ops, key, lim);
  }
}
