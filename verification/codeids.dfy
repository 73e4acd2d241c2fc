/**
 Which id an event gets. Any number of threads record concurrently while code objects are created, die
 and have their addresses reused. Each access to shared state is one step: the generation counter, the
 interner under its lock, the recycle floor.
 */
module CodeIds {
  import opened Words
  import opened Events
  import opened InternTable
  import opened CodeCache

  const NOT_CACHED: u64 := U64_MAX

  /** A thread's own caches: the last id it used, and the direct-mapped table. */
  datatype Local = Local(run: nat, gen: nat, slots: Slots, lastKey: u64, lastId: u32)

  /** `record` and `resolve_cold`, between two accesses to shared state. */
  datatype Pc = Idle | Stamped | Resolving | Missed | Absent | Ready(floor: nat) | Found(id: u32) | Using(id: u32)

  /** `key` and `ticks` are the address and time stamp of the call being recorded. */
  datatype Thread = Thread(local: Local, pc: Pc, key: u64, ticks: nat)

  /** A code object being destroyed: the clock read first, then the table entry removed. */
  datatype Dying = Dying(at: nat, removed: bool, known: bool)

  datatype State = State(
    alive: map<u64, CodeInfo>, dying: map<u64, Dying>, table: Table, generation: nat,
    clock: nat, floor: nat, threads: map<nat, Thread>, run: nat, capacity: nat)

  datatype Action =
    | Tick(n: nat)
    | SetFloor(floor: nat)
    | Create(key: u64, code: CodeInfo)
    | Stamp(t: nat, key: u64)
    | Check(t: nat)
    | Refresh(t: nat)
    | Look(t: nat)
    | LoadFloor(t: nat)
    | Allocate(t: nat)
    | Keep(t: nat, remember: bool)
    | Push(t: nat)
    | StartDestroy(key: u64)
    | Remove(key: u64)
    | Bump(key: u64)

  function Hit(l: Local, key: u64, run: nat, generation: nat): bool {
    l.lastKey == key && l.run == run && l.gen == generation
  }

  /** Caches of another run go entirely; caches of an older generation lose the table but keep the last id. */
  function Refreshed(l: Local, run: nat, generation: nat): Local {
    Local(l.run, generation, if l.run != run || l.gen != generation then Blank() else l.slots,
          if l.run != run then NOT_CACHED else l.lastKey, l.lastId)
  }

  function Kept(l: Local, key: u64, id: u32, remember: bool): Local {
    l.(slots := Put(l.slots, key, id), lastId := id, lastKey := if remember then key else NOT_CACHED)
  }

  predicate Busy(s: State, key: u64) {
    exists t :: t in s.threads && s.threads[t].pc != Idle && s.threads[t].key == key
  }

  predicate At(s: State, t: nat, pc: Pc) {
    t in s.threads && s.threads[t].pc == pc
  }

  predicate Enabled(s: State, a: Action) {
    match a
    case Tick(_) => true
    case SetFloor(_) => true
    case Create(key, _) => key != NOT_CACHED && key !in s.alive
    case Stamp(t, key) => At(s, t, Idle) && key in s.alive && key !in s.dying
    case Check(t) => At(s, t, Stamped)
    case Refresh(t) => At(s, t, Resolving)
    case Look(t) => At(s, t, Missed)
    case LoadFloor(t) => At(s, t, Absent)
    case Allocate(t) => t in s.threads && s.threads[t].pc.Ready? && s.threads[t].key in s.alive
    case Keep(t, _) => t in s.threads && s.threads[t].pc.Found?
    case Push(t) => t in s.threads && s.threads[t].pc.Using?
    case StartDestroy(key) => key in s.alive && key !in s.dying && !Busy(s, key)
    case Remove(key) => key in s.dying && !s.dying[key].removed
    case Bump(key) => key in s.dying && s.dying[key].removed
  }

  function With(s: State, t: nat, local: Local, pc: Pc): State
    requires t in s.threads
  {
    s.(threads := s.threads[t := s.threads[t].(local := local, pc := pc)])
  }

  function Allocated(s: State, t: nat): (Table, Option<u32>)
    requires t in s.threads && s.threads[t].pc.Ready? && s.threads[t].key in s.alive
    requires Valid(s.table, s.capacity)
  {
    var th := s.threads[t];
    Insert(s.table, th.key, s.alive[th.key], th.pc.floor, s.capacity)
  }

  function Step(s: State, a: Action): State
    requires Enabled(s, a) && Valid(s.table, s.capacity)
  {
    match a
    case Tick(n) => s.(clock := s.clock + n)
    case SetFloor(f) => s.(floor := f)
    case Create(key, code) => s.(alive := s.alive[key := code])
    case Stamp(t, key) => s.(threads := s.threads[t := s.threads[t].(pc := Stamped, key := key, ticks := s.clock)])
    case Check(t) =>
      var l := s.threads[t].local;
      With(s, t, l, if Hit(l, s.threads[t].key, s.run, s.generation) then Using(l.lastId) else Resolving)
    case Refresh(t) =>
      var l := Refreshed(s.threads[t].local, s.run, s.generation);
      var cached := Get(l.slots, s.threads[t].key);
      With(s, t, l, if cached.Some? then Found(cached.value) else Missed)
    case Look(t) =>
      var known := Lookup(s.table, s.threads[t].key);
      With(s, t, s.threads[t].local, if known.Some? then Found(known.value) else Absent)
    case LoadFloor(t) => With(s, t, s.threads[t].local, Ready(s.floor))
    case Allocate(t) =>
      var (table, got) := Allocated(s, t);
      With(s.(table := table), t, s.threads[t].local, if got.Some? then Found(got.value) else Idle)
    case Keep(t, remember) =>
      var th := s.threads[t];
      With(s, t, Kept(th.local, th.key, th.pc.id, remember), Using(th.pc.id))
    case Push(t) => With(s, t, s.threads[t].local.(run := s.run), Idle)
    case StartDestroy(key) => s.(dying := s.dying[key := Dying(s.clock, false, false)])
    case Remove(key) =>
      s.(table := Forget(s.table, key, s.dying[key].at),
         dying := s.dying[key := Dying(s.dying[key].at, true, key in s.table.ids)])
    case Bump(key) =>
      s.(generation := if s.dying[key].known then s.generation + 1 else s.generation,
         alive := s.alive - {key}, dying := s.dying - {key})
  }

  // ----- the invariant -----

  /** Every table entry names a living code object, and the id's info describes that object. */
  ghost predicate TableInv(s: State) {
    && Valid(s.table, s.capacity)
    && (forall key :: key in s.table.ids ==>
          && key <= U64_MAX && key in s.alive && s.table.ids[key] < |s.table.info|
          && s.table.info[s.table.ids[key]] == s.alive[key]
          && (key in s.dying ==> !s.dying[key].removed))
    && (forall key :: key in s.dying ==> key in s.alive && s.dying[key].at <= s.clock)
    && NOT_CACHED !in s.alive
  }

  ghost predicate BusyInv(s: State) {
    forall t :: t in s.threads && s.threads[t].pc != Idle ==>
      s.threads[t].key in s.alive && s.threads[t].key !in s.dying && s.threads[t].ticks <= s.clock
  }

  /** The object at the address is being destroyed, and the end of that will count a generation. */
  predicate Due(s: State, key: u64) {
    key in s.dying && if s.dying[key].removed then s.dying[key].known else key in s.table.ids
  }

  /** A cached pair that may be kept: the interner agrees, or no one can use it before the generation is counted. */
  predicate Sound(s: State, key: u64, id: u32) {
    Lookup(s.table, key) == Some(id) || Due(s, key)
  }

  ghost predicate SlotsSound(s: State, slots: Slots) {
    forall key :: Get(slots, key).Some? ==> Sound(s, key, Get(slots, key).value)
  }

  /** Whether the last-id entry is one the thread may rely on: it is not, between a refresh and `Keep`. */
  predicate LastCounts(s: State, th: Thread) {
    match th.pc
    case Idle => th.local.run == s.run
    case Stamped => th.local.run == s.run
    case Resolving => th.local.run == s.run
    case Using(_) => true
    case _ => false
  }

  /** Whether the slots belong to this run: always, except for a thread not refreshed since an older one. */
  predicate SlotsCount(s: State, th: Thread) {
    th.local.run == s.run || !(th.pc.Idle? || th.pc.Stamped? || th.pc.Resolving?)
  }

  ghost predicate ThreadInv(s: State, th: Thread) {
    && th.local.gen <= s.generation
    && (th.local.gen == s.generation ==>
          && (SlotsCount(s, th) ==> SlotsSound(s, th.local.slots))
          && (LastCounts(s, th) && th.local.lastKey != NOT_CACHED ==> Sound(s, th.local.lastKey, th.local.lastId)))
    && ((th.pc.Found? || th.pc.Using?) ==> th.key in s.table.ids && s.table.ids[th.key] == th.pc.id)
  }

  ghost predicate Inv(s: State) {
    && TableInv(s) && BusyInv(s)
    && forall t :: t in s.threads ==> ThreadInv(s, s.threads[t])
  }

  /** A thread's part of the invariant survives whatever keeps every sound pair sound. */
  lemma ThreadStays(s: State, u: State, th: Thread)
    requires ThreadInv(s, th) && u.run == s.run && u.generation == s.generation
    requires forall key, id :: Sound(s, key, id) ==> Sound(u, key, id)
    requires (th.pc.Found? || th.pc.Using?) ==> th.key in u.table.ids && u.table.ids[th.key] == th.pc.id
    ensures ThreadInv(u, th)
  {
    hide Get, Valid, Sound;
  }

  ghost predicate ThreadsOk(s: State) {
    forall t :: t in s.threads ==> ThreadInv(s, s.threads[t])
  }

  lemma ThreadsStay(s: State, u: State)
    requires ThreadsOk(s) && u.run == s.run && u.generation == s.generation && u.threads == s.threads
    requires forall key, id :: Sound(s, key, id) ==> Sound(u, key, id)
    requires forall key :: key in s.table.ids && Busy(s, key) ==> key in u.table.ids && u.table.ids[key] == s.table.ids[key]
    ensures ThreadsOk(u)
  {
    hide Get, Valid, Sound;
    forall t | t in u.threads ensures ThreadInv(u, u.threads[t]) {
      var th := s.threads[t];
      assert ThreadInv(s, th);
      assert th.pc != Idle ==> Busy(s, th.key);
      ThreadStays(s, u, th);
    }
  }

  lemma SameShared(s: State, u: State)
    requires u.table == s.table && u.dying == s.dying
    ensures forall key, id :: Sound(s, key, id) <==> Sound(u, key, id)
  {
  }

  /** A step of one thread that changes nothing shared. */
  lemma OneThread(s: State, t: nat, th: Thread)
    requires Inv(s) && t in s.threads
    requires th.pc != Idle ==> th.key in s.alive && th.key !in s.dying && th.ticks <= s.clock
    requires ThreadInv(s, th)
    ensures Inv(s.(threads := s.threads[t := th]))
  {
    var u := s.(threads := s.threads[t := th]);
    SameShared(s, u);
    hide Valid, Get, Sound;
    forall r | r in u.threads ensures ThreadInv(u, u.threads[r]) {
      ThreadStays(s, u, u.threads[r]);
    }
  }

  lemma LocalStep(s: State, a: Action, t: nat)
    requires Inv(s) && Enabled(s, a)
    requires a == Check(t) || a == Look(t) || a == LoadFloor(t) || a == Push(t)
    ensures Inv(Step(s, a))
  {
    assert ThreadInv(s, s.threads[t]);
    OneThread(s, t, Step(s, a).threads[t]);
  }

  lemma StampStep(s: State, t: nat, key: u64)
    requires Inv(s) && Enabled(s, Stamp(t, key))
    ensures Inv(Step(s, Stamp(t, key)))
  {
    assert ThreadInv(s, s.threads[t]);
    OneThread(s, t, Step(s, Stamp(t, key)).threads[t]);
  }

  lemma RefreshStep(s: State, t: nat)
    requires Inv(s) && Enabled(s, Refresh(t))
    ensures Inv(Step(s, Refresh(t)))
  {
    var th := s.threads[t];
    assert ThreadInv(s, th);
    var l := Refreshed(th.local, s.run, s.generation);
    BlankIsSound(s);
    assert SlotsSound(s, l.slots);
    assert Get(l.slots, th.key).Some? ==> Sound(s, th.key, Get(l.slots, th.key).value);
    OneThread(s, t, Step(s, Refresh(t)).threads[t]);
  }

  lemma BlankIsSound(s: State)
    ensures SlotsSound(s, Blank())
  {
    forall key ensures Get(Blank(), key) == None {
      PutThenGet(Blank(), 0, 0, key);
    }
  }

  lemma PutIsSound(s: State, slots: Slots, key: u64, id: u32)
    requires SlotsSound(s, slots) && Sound(s, key, id)
    ensures SlotsSound(s, Put(slots, key, id))
  {
    forall k | Get(Put(slots, key, id), k).Some? ensures Sound(s, k, Get(Put(slots, key, id), k).value) {
      PutThenGet(slots, key, id, k);
    }
  }

  lemma KeepStep(s: State, t: nat, remember: bool)
    requires Inv(s) && Enabled(s, Keep(t, remember))
    ensures Inv(Step(s, Keep(t, remember)))
  {
    var th := s.threads[t];
    assert ThreadInv(s, th);
    assert Sound(s, th.key, th.pc.id);
    if th.local.gen == s.generation {
      PutIsSound(s, th.local.slots, th.key, th.pc.id);
    }
    OneThread(s, t, Step(s, Keep(t, remember)).threads[t]);
  }

  lemma AllocateTable(s: State, t: nat)
    requires Inv(s) && Enabled(s, Allocate(t)) && Allocated(s, t).1.Some?
    ensures var u := s.(table := Allocated(s, t).0); var th := s.threads[t];
            && TableInv(u) && u.table.ids == s.table.ids[th.key := Allocated(s, t).1.value]
            && (th.key in s.table.ids ==> u.table == s.table)
  {
    var th := s.threads[t];
    var (table, got) := Allocated(s, t);
    InsertKeepsValid(s.table, th.key, s.alive[th.key], th.pc.floor, s.capacity);
    if th.key !in s.table.ids {
      InsertReusesOnlyBelowFloor(s.table, th.key, s.alive[th.key], th.pc.floor, s.capacity);
      InsertedIds(s.table, th.key, s.alive[th.key], th.pc.floor, s.capacity, got.value);
      hide Insert, Valid;
      forall key | key in s.table.ids ensures s.table.ids[key] != got.value {
        assert InUse(s.table, s.table.ids[key]);
      }
    }
  }

  lemma AllocateStep(s: State, t: nat)
    requires Inv(s) && Enabled(s, Allocate(t)) && Allocated(s, t).1.Some?
    ensures Inv(Step(s, Allocate(t)))
  {
    var th := s.threads[t];
    var (table, got) := Allocated(s, t);
    var u := s.(table := table);
    AllocateTable(s, t);
    hide Valid, Insert, Get;
    assert ThreadsOk(s);
    ThreadsStay(s, u);
    assert Inv(u);
    assert ThreadInv(u, th);
    OneThread(u, t, th.(pc := Found(got.value)));
  }

  lemma StartDestroyStep(s: State, key: u64)
    requires Inv(s) && Enabled(s, StartDestroy(key))
    ensures Inv(Step(s, StartDestroy(key)))
  {
    var u := Step(s, StartDestroy(key));
    hide Valid, Get, SlotsSound;
    assert TableInv(u) && ThreadsOk(s);
    assert forall k, id :: Sound(s, k, id) ==> Sound(u, k, id);
    hide Sound, TableInv, ThreadInv;
    forall t | t in u.threads && u.threads[t].pc != Idle ensures u.threads[t].key != key {
      assert u.threads[t].key == key ==> Busy(s, key);
    }
    ThreadsStay(s, u);
  }

  lemma RemoveTable(s: State, key: u64)
    requires Inv(s) && Enabled(s, Remove(key))
    ensures TableInv(Step(s, Remove(key)))
  {
    ForgetKeepsValid(s.table, key, s.dying[key].at, s.capacity);
    hide Valid, BusyInv, ThreadInv;
  }

  lemma RemoveSound(s: State, key: u64)
    requires Inv(s) && Enabled(s, Remove(key))
    ensures forall k, id :: Sound(s, k, id) ==> Sound(Step(s, Remove(key)), k, id)
  {
    hide Valid, BusyInv, ThreadInv, TableInv;
  }

  lemma RemoveStep(s: State, key: u64)
    requires Inv(s) && Enabled(s, Remove(key))
    ensures Inv(Step(s, Remove(key)))
  {
    var u := Step(s, Remove(key));
    RemoveTable(s, key);
    RemoveSound(s, key);
    assert BusyInv(u) && !Busy(s, key);
    assert ThreadsOk(s);
    hide TableInv, BusyInv, ThreadInv, Sound;
    ThreadsStay(s, u);
  }

  lemma BumpTable(s: State, key: u64)
    requires Inv(s) && Enabled(s, Bump(key))
    ensures TableInv(Step(s, Bump(key)))
    ensures !s.dying[key].known ==> forall k, id :: Sound(s, k, id) ==> Sound(Step(s, Bump(key)), k, id)
  {
    hide Valid, BusyInv, ThreadInv;
  }

  /** After a bump that matters no cached pair counts; one that does not matter removed no pair. */
  lemma BumpStep(s: State, key: u64)
    requires Inv(s) && Enabled(s, Bump(key))
    ensures Inv(Step(s, Bump(key)))
  {
    var u := Step(s, Bump(key));
    BumpTable(s, key);
    assert BusyInv(u);
    assert ThreadsOk(s);
    hide TableInv, BusyInv, Sound, SlotsSound;
    if s.dying[key].known {
      forall t | t in u.threads ensures ThreadInv(u, u.threads[t]) {
        assert ThreadInv(s, s.threads[t]);
      }
    } else {
      ThreadsStay(s, u);
    }
  }

  lemma QuietStep(s: State, a: Action)
    requires Inv(s) && Enabled(s, a) && (a.Tick? || a.SetFloor? || a.Create?)
    ensures Inv(Step(s, a))
  {
    var u := Step(s, a);
    hide Valid, Get;
    assert ThreadsOk(s);
    ThreadsStay(s, u);
  }

  /** The last id a thread used is another than the interner's for that address, and nothing will stop the next use. */
  predicate Stale(s: State, l: Local) {
    && l.run == s.run && l.gen == s.generation && l.lastKey != NOT_CACHED
    && Lookup(s.table, l.lastKey) != Some(l.lastId) && !Due(s, l.lastKey)
  }

  /**
   A failed allocation keeps the invariant exactly when the thread's last id is not stale: the refresh before it
   has marked the caches as current without clearing that entry.
   */
  lemma FailedAllocationKeepsInvIff(s: State, t: nat)
    requires Inv(s) && Enabled(s, Allocate(t)) && Allocated(s, t).1.None?
    ensures Step(s, Allocate(t)) == s.(threads := s.threads[t := s.threads[t].(pc := Idle)])
    ensures Inv(Step(s, Allocate(t))) <==> !Stale(s, s.threads[t].local)
  {
    var th, u := s.threads[t], Step(s, Allocate(t));
    InsertKeepsValid(s.table, th.key, s.alive[th.key], th.pc.floor, s.capacity);
    assert u == s.(threads := s.threads[t := th.(pc := Idle)]);
    SameShared(s, u);
    hide Valid, Insert, Get, Due, Lookup;
    assert ThreadInv(s, th);
    if Stale(s, th.local) {
      assert !ThreadInv(u, u.threads[t]);
    } else {
      OneThread(s, t, th.(pc := Idle));
    }
  }

  /** An allocation may fail, but not on a thread whose last id is stale. */
  predicate Fine(s: State, a: Action)
    requires Enabled(s, a) && Valid(s.table, s.capacity)
  {
    a.Allocate? && Allocated(s, a.t).1.None? ==> !Stale(s, s.threads[a.t].local)
  }

  /** Coherence over every interleaving: each step keeps the invariant, a failed allocation under that guard. */
  lemma StepKeepsInv(s: State, a: Action)
    requires Inv(s) && Enabled(s, a) && Fine(s, a)
    ensures Inv(Step(s, a))
  {
    hide Stale, Sound, Valid;
    match a
    case Tick(_) => QuietStep(s, a);
    case SetFloor(_) => QuietStep(s, a);
    case Create(_, _) => QuietStep(s, a);
    case Stamp(t, key) => StampStep(s, t, key);
    case Check(t) => LocalStep(s, a, t);
    case Refresh(t) => RefreshStep(s, t);
    case Look(t) => LocalStep(s, a, t);
    case LoadFloor(t) => LocalStep(s, a, t);
    case Allocate(t) =>
      if Allocated(s, t).1.Some? {
        AllocateStep(s, t);
      } else {
        FailedAllocationKeepsInvIff(s, t);
      }
    case Keep(t, remember) => KeepStep(s, t, remember);
    case Push(t) => LocalStep(s, a, t);
    case StartDestroy(key) => StartDestroyStep(s, key);
    case Remove(key) => RemoveStep(s, key);
    case Bump(key) => BumpStep(s, key);
  }

  /**
   What the invariant buys: the id a thread is about to push is the interner's id for the object now at the
   address, and resolves to that object, wherever the id came from.
   */
  lemma UsedIdIsCurrent(s: State, t: nat)
    requires Inv(s) && t in s.threads && s.threads[t].pc.Using?
    ensures var th := s.threads[t];
            && Lookup(s.table, th.key) == Some(th.pc.id)
            && th.key in s.alive && th.pc.id < |s.table.info| && s.table.info[th.pc.id] == s.alive[th.key]
  {
    assert ThreadInv(s, s.threads[t]);
  }

  // ----- whole runs -----

  /** A tracer starts: no ids yet, and threads may still hold the caches of an earlier one. */
  predicate Initial(s: State) {
    && s.table == EMPTY && s.dying == map[] && NOT_CACHED !in s.alive && 1 <= s.capacity <= CODE_SPAN
    && forall t :: t in s.threads ==>
         s.threads[t].pc == Idle && s.threads[t].local.run != s.run && s.threads[t].local.gen <= s.generation
  }

  /** A run in which no allocation fails on a thread whose last id is stale. */
  ghost predicate Runs(s: State, actions: seq<Action>)
    decreases |actions|
  {
    actions != [] ==>
      && Enabled(s, actions[0]) && Valid(s.table, s.capacity) && Fine(s, actions[0])
      && Runs(Step(s, actions[0]), actions[1..])
  }

  ghost function Exec(s: State, actions: seq<Action>): State
    requires Runs(s, actions)
    decreases |actions|
  {
    if actions == [] then s else Exec(Step(s, actions[0]), actions[1..])
  }

  lemma {:induction false} RunsKeepInv(s: State, actions: seq<Action>)
    requires Inv(s) && Runs(s, actions)
    ensures Inv(Exec(s, actions))
    decreases |actions|
  {
    if actions != [] {
      StepKeepsInv(s, actions[0]);
      RunsKeepInv(Step(s, actions[0]), actions[1..]);
    }
  }

  /** In every state of every such run ids in use are current, and used and free ids partition the range. */
  lemma RunsUseCurrentIds(s: State, actions: seq<Action>, t: nat)
    requires Initial(s) && Runs(s, actions) && t in Exec(s, actions).threads && Exec(s, actions).threads[t].pc.Using?
    ensures var e := Exec(s, actions); var th := e.threads[t];
            && Valid(e.table, e.capacity)
            && Lookup(e.table, th.key) == Some(th.pc.id)
            && th.key in e.alive && th.pc.id < |e.table.info| && e.table.info[th.pc.id] == e.alive[th.key]
  {
    assert Inv(s);
    RunsKeepInv(s, actions);
    UsedIdIsCurrent(Exec(s, actions), t);
  }
}
