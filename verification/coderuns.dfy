/** Runs of the id machine spelled out: recording, dying, and what a failed allocation leads to. */
module CodeRuns {
  import opened Words
  import opened InternTable
  import opened CodeCache
  import opened CodeIds

  // ----- runs, step by step -----

  ghost predicate Path(s: State, actions: seq<Action>, u: State) {
    Runs(s, actions) && Exec(s, actions) == u
  }

  lemma First(s: State, a: Action, rest: seq<Action>, u: State)
    requires Enabled(s, a) && Valid(s.table, s.capacity) && Fine(s, a) && Path(Step(s, a), rest, u)
    ensures Path(s, [a] + rest, u)
  {
    assert ([a] + rest)[1..] == rest;
  }

  lemma {:induction false} Then(s: State, first: seq<Action>, v: State, second: seq<Action>, u: State)
    requires Path(s, first, v) && Path(v, second, u)
    ensures Path(s, first + second, u)
    decreases |first|
  {
    if first == [] {
      assert first + second == second;
    } else {
      assert (first + second)[1..] == first[1..] + second;
      hide Enabled, Step, Fine, Valid;
      Then(Step(s, first[0]), first[1..], v, second, u);
    }
  }

  function Moved(s: State, t: nat, th: Thread): State {
    s.(threads := s.threads[t := th])
  }

  lemma MovedTwice(s: State, t: nat, a: Thread, b: Thread)
    ensures Moved(Moved(s, t, a), t, b) == Moved(s, t, b)
  {
    assert s.threads[t := a][t := b] == s.threads[t := b];
  }

  /** One step of a thread standing at `th`. */
  lemma Moves(s: State, t: nat, th: Thread, a: Action, next: Thread, rest: seq<Action>, u: State)
    requires Valid(s.table, s.capacity) && Enabled(Moved(s, t, th), a) && Fine(Moved(s, t, th), a)
    requires Step(Moved(s, t, th), a) == Moved(Moved(s, t, th), t, next)
    requires Path(Moved(s, t, next), rest, u)
    ensures Path(Moved(s, t, th), [a] + rest, u)
  {
    MovedTwice(s, t, th, next);
    hide Enabled, Step, Fine, Valid, Path;
    First(Moved(s, t, th), a, rest, u);
  }

  /** Neither cache and no table knows an address with nothing alive at it. */
  lemma NothingKnown(s: State, t: nat, key: u64)
    requires Inv(s) && t in s.threads && s.threads[t].pc.Idle? && key !in s.alive && key != NOT_CACHED
    ensures Lookup(s.table, key) == None && !Hit(s.threads[t].local, key, s.run, s.generation)
    ensures Get(Refreshed(s.threads[t].local, s.run, s.generation).slots, key) == None
  {
    assert ThreadInv(s, s.threads[t]);
    PutThenGet(Blank(), 0, 0, key);
    assert !Sound(s, key, 0);
    forall id ensures !Sound(s, key, id) {
    }
  }

  /** No push and no new floor: what the recorder and the rings do not see. */
  predicate Apart(actions: seq<Action>) {
    forall a :: a in actions ==> !a.Push? && !a.SetFloor?
  }

  /** The steps of an idle thread that records an object just created: it misses everywhere and reads the floor. */
  function Asking(t: nat, key: u64, code: CodeInfo): seq<Action> {
    [Create(key, code)] + ([Stamp(t, key)] + ([Check(t)] + ([Refresh(t)] + ([Look(t)] + ([LoadFloor(t)] + [])))))
  }

  function Asked(s: State, t: nat, key: u64, code: CodeInfo): State
    requires t in s.threads
  {
    Moved(s.(alive := s.alive[key := code]), t,
          Thread(Refreshed(s.threads[t].local, s.run, s.generation), Ready(s.floor), key, s.clock))
  }

  lemma CheckMisses(s: State, t: nat, th: Thread, rest: seq<Action>, u: State)
    requires Valid(s.table, s.capacity) && th.pc.Stamped? && !Hit(th.local, th.key, s.run, s.generation)
    requires Path(Moved(s, t, th.(pc := Resolving)), rest, u)
    ensures Path(Moved(s, t, th), [Check(t)] + rest, u)
  {
    hide Valid, Path, Hit;
    Moves(s, t, th, Check(t), th.(pc := Resolving), rest, u);
  }

  lemma RefreshMisses(s: State, t: nat, th: Thread, rest: seq<Action>, u: State)
    requires Valid(s.table, s.capacity) && th.pc.Resolving?
    requires Get(Refreshed(th.local, s.run, s.generation).slots, th.key) == None
    requires Path(Moved(s, t, th.(local := Refreshed(th.local, s.run, s.generation), pc := Missed)), rest, u)
    ensures Path(Moved(s, t, th), [Refresh(t)] + rest, u)
  {
    hide Valid, Path, Get, Refreshed;
    Moves(s, t, th, Refresh(t), th.(local := Refreshed(th.local, s.run, s.generation), pc := Missed), rest, u);
  }

  lemma LookMisses(s: State, t: nat, th: Thread, rest: seq<Action>, u: State)
    requires Valid(s.table, s.capacity) && th.pc.Missed? && Lookup(s.table, th.key) == None
    requires Path(Moved(s, t, th.(pc := Absent)), rest, u)
    ensures Path(Moved(s, t, th), [Look(t)] + rest, u)
  {
    hide Valid, Path, Lookup;
    Moves(s, t, th, Look(t), th.(pc := Absent), rest, u);
  }

  lemma FloorLoads(s: State, t: nat, th: Thread, rest: seq<Action>, u: State)
    requires Valid(s.table, s.capacity) && th.pc.Absent? && Path(Moved(s, t, th.(pc := Ready(s.floor))), rest, u)
    ensures Path(Moved(s, t, th), [LoadFloor(t)] + rest, u)
  {
    hide Valid, Path;
    Moves(s, t, th, LoadFloor(t), th.(pc := Ready(s.floor)), rest, u);
  }

  lemma Asks(s: State, t: nat, key: u64, code: CodeInfo)
    requires Inv(s) && t in s.threads && s.threads[t].pc.Idle? && key !in s.alive && key != NOT_CACHED
    ensures Path(s, Asking(t, key, code), Asked(s, t, key, code))
  {
    NothingKnown(s, t, key);
    var v, l := s.(alive := s.alive[key := code]), s.threads[t].local;
    var renewed := Refreshed(l, s.run, s.generation);
    var at, u := Thread(l, Stamped, key, s.clock), Asked(s, t, key, code);
    assert Valid(s.table, s.capacity);
    assert Step(s, Create(key, code)) == v;
    assert Step(v, Stamp(t, key)) == Moved(v, t, at) && Enabled(v, Stamp(t, key)) && Enabled(s, Create(key, code));
    assert Path(u, [], u);
    hide Valid, Get, Refreshed, Inv, Blank, Step, Enabled, Path, Hit, Lookup;
    FloorLoads(v, t, at.(local := renewed, pc := Absent), [], u);
    LookMisses(v, t, at.(local := renewed, pc := Missed), [LoadFloor(t)] + [], u);
    RefreshMisses(v, t, at.(pc := Resolving), [Look(t)] + ([LoadFloor(t)] + []), u);
    CheckMisses(v, t, at, [Refresh(t)] + ([Look(t)] + ([LoadFloor(t)] + [])), u);
    First(v, Stamp(t, key), [Check(t)] + ([Refresh(t)] + ([Look(t)] + ([LoadFloor(t)] + []))), u);
    First(s, Create(key, code), [Stamp(t, key)] + ([Check(t)] + ([Refresh(t)] + ([Look(t)] + ([LoadFloor(t)] + [])))), u);
  }

  /** Allocating a free id, remembering it, and standing ready to push with it. */
  function Got(s: State, t: nat, key: u64, code: CodeInfo): State
    requires t in s.threads && Valid(s.table, s.capacity)
    requires Insert(s.table, key, code, s.floor, s.capacity).1.Some?
  {
    var (table, got) := Insert(s.table, key, code, s.floor, s.capacity);
    Moved(s.(alive := s.alive[key := code], table := table), t,
          Thread(Kept(Refreshed(s.threads[t].local, s.run, s.generation), key, got.value, true), Using(got.value), key, s.clock))
  }

  lemma Gets(s: State, t: nat, key: u64, code: CodeInfo) returns (actions: seq<Action>)
    requires Inv(s) && t in s.threads && s.threads[t].pc.Idle? && key !in s.alive && key != NOT_CACHED
    requires Insert(s.table, key, code, s.floor, s.capacity).1.Some?
    ensures Path(s, actions, Got(s, t, key, code)) && Inv(Got(s, t, key, code))
    ensures Apart(actions)
  {
    var v, u := Asked(s, t, key, code), Got(s, t, key, code);
    Asks(s, t, key, code);
    FindsOne(s, t, key, code);
    assert Apart(Asking(t, key, code));
    hide Valid, Insert, Inv, Asked, Got, Path, Asking;
    actions := [Allocate(t)] + [Keep(t, true)];
    Then(s, Asking(t, key, code), v, actions, u);
    actions := Asking(t, key, code) + actions;
    PathKeepsInv(s, actions, u);
  }

  lemma FindsOne(s: State, t: nat, key: u64, code: CodeInfo)
    requires Valid(s.table, s.capacity) && t in s.threads && Insert(s.table, key, code, s.floor, s.capacity).1.Some?
    ensures Path(Asked(s, t, key, code), [Allocate(t)] + [Keep(t, true)], Got(s, t, key, code))
  {
    var v, u := Asked(s, t, key, code), Got(s, t, key, code);
    InsertKeepsValid(s.table, key, code, s.floor, s.capacity);
    var (table, got) := Insert(s.table, key, code, s.floor, s.capacity);
    var th := v.threads[t];
    var mid := Moved(v.(table := table), t, th.(pc := Found(got.value)));
    hide Valid, Insert, Refreshed, Kept;
    assert Enabled(v, Allocate(t)) && Step(v, Allocate(t)) == mid && Fine(v, Allocate(t));
    KeepsIt(s.(alive := s.alive[key := code], table := table), t, th, got.value, mid, u);
    hide Step, Enabled, Fine, Path;
    First(v, Allocate(t), [Keep(t, true)], u);
  }

  lemma KeepsIt(s: State, t: nat, th: Thread, id: u32, mid: State, u: State)
    requires Valid(s.table, s.capacity) && mid.threads == s.threads[t := th][t := th.(pc := Found(id))]
    requires mid == s.(threads := mid.threads)
    requires u == Moved(s, t, th.(local := Kept(th.local, th.key, id, true), pc := Using(id)))
    ensures Path(mid, [Keep(t, true)], u)
  {
    hide Valid, Kept;
    MovedTwice(s, t, th, th.(pc := Found(id)));
    assert mid == Moved(s, t, th.(pc := Found(id)));
    assert Path(u, [], u);
    hide Path;
    Moves(s, t, th.(pc := Found(id)), Keep(t, true), th.(local := Kept(th.local, th.key, id, true), pc := Using(id)), [], u);
    assert [Keep(t, true)] + [] == [Keep(t, true)];
  }

  lemma PathKeepsInv(s: State, actions: seq<Action>, u: State)
    requires Inv(s) && Path(s, actions, u)
    ensures Inv(u)
  {
    RunsKeepInv(s, actions);
  }

  /** An object no one is recording dies. */
  function Gone(s: State, key: u64): State {
    s.(alive := s.alive - {key}, table := Forget(s.table, key, s.clock), generation := s.generation + 1)
  }

  function Passing(s: State, key: u64, at: nat, removed: bool): State {
    s.(dying := s.dying[key := Dying(at, removed, removed)],
       table := if removed then Forget(s.table, key, at) else s.table)
  }

  lemma StartsDying(s: State, key: u64, rest: seq<Action>, u: State)
    requires Valid(s.table, s.capacity) && Enabled(s, StartDestroy(key)) && Path(Passing(s, key, s.clock, false), rest, u)
    ensures Path(s, [StartDestroy(key)] + rest, u)
  {
    hide Valid, Path;
    First(s, StartDestroy(key), rest, u);
  }

  lemma LeavesTable(s: State, key: u64, rest: seq<Action>, u: State)
    requires Valid(s.table, s.capacity) && key in s.table.ids && Path(Passing(s, key, s.clock, true), rest, u)
    ensures Path(Passing(s, key, s.clock, false), [Remove(key)] + rest, u)
  {
    hide Valid, Path, Forget;
    var v, w := Passing(s, key, s.clock, false), Passing(s, key, s.clock, true);
    assert v.dying[key := Dying(s.clock, true, true)] == w.dying;
    assert Step(v, Remove(key)) == w;
    First(v, Remove(key), rest, u);
  }

  lemma CountsGeneration(s: State, key: u64)
    requires Valid(s.table, s.capacity) && key !in s.dying
    ensures Path(Passing(s, key, s.clock, true), [Bump(key)] + [], Gone(s, key))
  {
    ForgetKeepsValid(s.table, key, s.clock, s.capacity);
    hide Valid, Forget;
    var v, u := Passing(s, key, s.clock, true), Gone(s, key);
    assert v.dying - {key} == s.dying;
    assert Step(v, Bump(key)) == u && Path(u, [], u);
    hide Path;
    First(v, Bump(key), [], u);
  }

  lemma Dies(s: State, key: u64) returns (actions: seq<Action>)
    requires Inv(s) && key in s.table.ids && key !in s.dying && !Busy(s, key)
    ensures Path(s, actions, Gone(s, key)) && Inv(Gone(s, key))
    ensures Apart(actions)
  {
    var u := Gone(s, key);
    assert Valid(s.table, s.capacity) && Enabled(s, StartDestroy(key));
    hide Valid, Inv, Step, Enabled, Path, Gone;
    CountsGeneration(s, key);
    LeavesTable(s, key, [Bump(key)] + [], u);
    StartsDying(s, key, [Remove(key)] + ([Bump(key)] + []), u);
    actions := [StartDestroy(key)] + ([Remove(key)] + ([Bump(key)] + []));
    PathKeepsInv(s, actions, u);
  }

  // ----- an allocation that fails on a stale id -----

  /** A thread is about to push an id that is not the interner's for the living object it is recording. */
  predicate Misuses(s: State, t: nat) {
    && t in s.threads && s.threads[t].pc.Using? && s.threads[t].key in s.alive
    && Lookup(s.table, s.threads[t].key) != Some(s.threads[t].pc.id)
  }

  lemma AliveIsMisused(s: State, t: nat) returns (actions: seq<Action>, u: State)
    requires Valid(s.table, s.capacity) && t in s.threads && s.threads[t].pc.Idle? && Stale(s, s.threads[t].local)
    requires s.threads[t].local.lastKey in s.alive && s.threads[t].local.lastKey !in s.dying
    ensures Path(s, actions, u) && Misuses(u, t)
  {
    var l := s.threads[t].local;
    var at := Thread(l, Stamped, l.lastKey, s.clock);
    u := Moved(s, t, at.(pc := Using(l.lastId)));
    assert Step(s, Stamp(t, l.lastKey)) == Moved(s, t, at);
    assert Path(u, [], u);
    hide Valid, Lookup, Path;
    Moves(s, t, at, Check(t), at.(pc := Using(l.lastId)), [], u);
    First(s, Stamp(t, l.lastKey), [Check(t)] + [], u);
    actions := [Stamp(t, l.lastKey)] + ([Check(t)] + []);
  }

  lemma DeadIsMisused(s: State, t: nat, code: CodeInfo) returns (actions: seq<Action>, u: State)
    requires Valid(s.table, s.capacity) && t in s.threads && s.threads[t].pc.Idle? && Stale(s, s.threads[t].local)
    requires s.threads[t].local.lastKey !in s.alive && s.threads[t].local.lastKey !in s.dying
    ensures Path(s, actions, u) && Misuses(u, t)
  {
    var key := s.threads[t].local.lastKey;
    var v := Step(s, Create(key, code));
    hide Valid, Lookup, Path;
    actions, u := AliveIsMisused(v, t);
    First(s, Create(key, code), actions, u);
    actions := [Create(key, code)] + actions;
  }

  lemma RemovedIsMisused(s: State, t: nat, code: CodeInfo) returns (actions: seq<Action>, u: State)
    requires Valid(s.table, s.capacity) && t in s.threads && s.threads[t].pc.Idle? && Stale(s, s.threads[t].local)
    requires s.threads[t].local.lastKey in s.dying && s.dying[s.threads[t].local.lastKey].removed
    ensures Path(s, actions, u) && Misuses(u, t)
  {
    var key := s.threads[t].local.lastKey;
    var v := Step(s, Bump(key));
    hide Valid, Lookup, Path;
    actions, u := DeadIsMisused(v, t, code);
    First(s, Bump(key), actions, u);
    actions := [Bump(key)] + actions;
  }

  /**
   A stale last id gets used: whether its address holds another object already, or none yet, or one on its way
   out, there is a run in which the thread is about to push it for a living object it does not belong to.
   */
  lemma StaleIsMisused(s: State, t: nat, code: CodeInfo) returns (actions: seq<Action>, u: State)
    requires TableInv(s) && t in s.threads && s.threads[t].pc.Idle? && Stale(s, s.threads[t].local)
    ensures Path(s, actions, u) && Misuses(u, t)
  {
    var key := s.threads[t].local.lastKey;
    if key in s.dying && !s.dying[key].removed {
      var v := Step(s, Remove(key));
      assert v.table == s.table;
      hide Valid, Lookup, Path;
      actions, u := RemovedIsMisused(v, t, code);
      First(s, Remove(key), actions, u);
      actions := [Remove(key)] + actions;
    } else if key in s.dying {
      actions, u := RemovedIsMisused(s, t, code);
    } else if key in s.alive {
      actions, u := AliveIsMisused(s, t);
    } else {
      actions, u := DeadIsMisused(s, t, code);
    }
  }

  /**
   Exactly when a failed allocation does harm: if the last id is stale, a run from there misuses it; if it is not,
   no run from there misuses any id, as long as later failures are on threads whose last id is not stale.
   */
  lemma FailedAllocationIsHarmfulIff(s: State, t: nat)
    requires Inv(s) && Enabled(s, Allocate(t)) && Allocated(s, t).1.None?
    ensures Stale(s, s.threads[t].local) <==> exists actions, u, r :: Path(Step(s, Allocate(t)), actions, u) && Misuses(u, r)
  {
    var v := Step(s, Allocate(t));
    FailedAllocationKeepsInvIff(s, t);
    if Stale(s, s.threads[t].local) {
      assert TableInv(v) && Stale(v, v.threads[t].local);
      var actions, u := StaleIsMisused(v, t, 0);
      assert Path(v, actions, u) && Misuses(u, t);
    } else {
      hide Valid, Misuses, Path, Step;
      forall actions, u, r | Path(v, actions, u) ensures !Misuses(u, r) {
        NoMisuse(v, actions, u, r);
      }
    }
  }

  lemma NoMisuse(s: State, actions: seq<Action>, u: State, t: nat)
    requires Inv(s) && Path(s, actions, u)
    ensures !Misuses(u, t)
  {
    PathKeepsInv(s, actions, u);
    if t in u.threads && u.threads[t].pc.Using? {
      UsedIdIsCurrent(u, t);
    }
  }

  // ----- a run that gets there -----

  /** Two threads that were idle under an earlier tracer, and room for one id. */
  function Small(): State {
    State(map[], map[], EMPTY, 0, 0, 0, map[0 := Rested(), 1 := Rested()], 1, 1)
  }

  function Rested(): Thread {
    Thread(Local(0, 0, Blank(), NOT_CACHED, 0), Idle, 0, 0)
  }

  /** The first records an object, the only id going to it, and is idle again. */
  function Recorded(): State {
    State(map[16 := 7], map[], Table(map[16 := 0], [7], []), 0, 0, 0,
          map[0 := Thread(Local(1, 0, Put(Blank(), 16, 0), 16, 0), Idle, 16, 0), 1 := Rested()], 1, 1)
  }

  lemma SmallHolds()
    ensures Initial(Small()) && Inv(Small())
  {
    hide Blank;
  }

  /** The only id goes to the object at 16. */
  lemma SmallGets() returns (actions: seq<Action>)
    ensures Path(Small(), actions, Held()) && Apart(actions)
  {
    SmallHolds();
    hide Inv;
    actions := Gets(Small(), 0, 16, 7);
    hide Path, Blank;
    assert Got(Small(), 0, 16, 7) == Held();
  }

  /** The first thread has the id and has not pushed. */
  function Held(): State {
    Recorded().(threads := map[0 := Thread(Local(0, 0, Put(Blank(), 16, 0), 16, 0), Using(0), 16, 0), 1 := Rested()])
  }

  lemma RecordsFirst() returns (actions: seq<Action>)
    ensures Path(Small(), actions, Recorded()) && Inv(Recorded())
  {
    var u, v := Held(), Recorded();
    actions := SmallGets();
    SmallHolds();
    OneInUse();
    hide Valid, Blank, Put;
    assert Step(u, Push(0)) == v && Path(v, [], v);
    hide Path, Inv, Initial, Small;
    First(u, Push(0), [], v);
    Then(Small(), actions, u, [Push(0)] + [], v);
    actions := actions + ([Push(0)] + []);
    PathKeepsInv(Small(), actions, v);
  }

  lemma OneInUse()
    ensures Valid(Table(map[16 := 0], [7], []), 1)
  {
    var used := Table(map[16 := 0], [7], []);
    assert used.ids[16] == 0;
    assert InUse(used, 0);
  }

  /** What the small tracer is when the object has died and another asks for its id. */
  function AskingAgain(): State {
    State(map[32 := 8], map[], Table(map[], [7], [Freed(0, 0)]), 1, 0, 0,
          map[0 := Thread(Local(1, 1, Blank(), 16, 0), Ready(0), 32, 0), 1 := Rested()], 1, 1)
  }

  lemma RecordedHolds()
    ensures Inv(Recorded())
  {
    var actions := RecordsFirst();
  }

  lemma LeftHolds()
    ensures Inv(Left())
  {
    RecordedHolds();
    var actions := ItDies();
  }

  function Left(): State {
    Recorded().(alive := map[], table := Table(map[], [7], [Freed(0, 0)]), generation := 1)
  }

  lemma ItDies() returns (actions: seq<Action>)
    requires Inv(Recorded())
    ensures Path(Recorded(), actions, Left()) && Inv(Left()) && Apart(actions)
  {
    var r := Recorded();
    assert 16 in r.table.ids && 16 !in r.dying && !Busy(r, 16);
    GoneIs();
    hide Inv, Path, Recorded, Left, Gone;
    actions := Dies(r, 16);
  }

  lemma AnotherAsks()
    requires Inv(Left())
    ensures Path(Left(), Asking(0, 32, 8), AskingAgain())
  {
    hide Inv, Path, Blank, Put;
    Asks(Left(), 0, 32, 8);
    assert Asked(Left(), 0, 32, 8) == AskingAgain();
  }

  lemma GoneIs()
    ensures Gone(Recorded(), 16) == Left()
  {
    assert map[16 := 0] - {16} == map[];
    assert map[16 := 7] - {16} == map[];
    hide Blank, Put;
  }

  lemma AskingAgainFails()
    requires Inv(AskingAgain())
    ensures var s := AskingAgain();
            Enabled(s, Allocate(0)) && Allocated(s, 0).1.None? && Stale(s, s.threads[0].local)
  {
    hide Blank;
    assert FirstBelow(AskingAgain().table.free, 0) == 1;
  }

  /**
   Such an allocation is reached from a start: a thread records an object, the object dies, and the same thread asks
   for an id for another while the only one is given up but not below the floor.
   */
  lemma StaleIsReached() returns (actions: seq<Action>, s: State)
    ensures Initial(Small()) && Path(Small(), actions, s) && Inv(s)
    ensures Enabled(s, Allocate(0)) && Allocated(s, 0).1.None? && Stale(s, s.threads[0].local)
  {
    SmallHolds();
    var first := RecordsFirst();
    var dies := ItDies();
    AnotherAsks();
    s := AskingAgain();
    hide Path, Inv, Initial, Small, Recorded, Left, AskingAgain, Asking, Stale, Enabled;
    Then(Recorded(), dies, Left(), Asking(0, 32, 8), s);
    Then(Small(), first, Recorded(), dies + Asking(0, 32, 8), s);
    actions := first + (dies + Asking(0, 32, 8));
    PathKeepsInv(Small(), actions, s);
    AskingAgainFails();
  }
}
