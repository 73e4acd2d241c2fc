/** The byte-bounded history: what one push or floor change evicts, and what every sequence of them adds up to. */
module History {
  import opened Words
  import opened Batches

  /** `evicted` counts events; `horizon` is the end of the batch evicted last. */
  datatype State = State(batches: seq<Batch>, floor: Option<nat>, horizon: nat, evicted: nat)

  const EMPTY := State([], None, 0, 0)

  /** `usize::saturating_mul(2)`. */
  function Doubled(capacity: u64): u64 {
    if 2 * capacity <= U64_MAX then 2 * capacity else U64_MAX
  }

  function BytesOf(batches: seq<Batch>): nat {
    if batches == [] then 0 else BytesOf(batches[..|batches| - 1]) + batches[|batches| - 1].Bytes()
  }

  predicate Protected(batch: Batch, floor: Option<nat>) {
    floor.Some? && batch.EndTicks() >= floor.value
  }

  /** Eviction stops here: one batch, or within the capacity, or a protected front within twice the capacity. */
  predicate Settled(batches: seq<Batch>, capacity: u64, floor: Option<nat>) {
    || |batches| <= 1
    || BytesOf(batches) <= capacity
    || (Protected(batches[0], floor) && BytesOf(batches) <= Doubled(capacity))
  }

  /** `k` is the fewest batches to take from the front to reach a settled state. */
  ghost predicate Fewest(batches: seq<Batch>, k: nat, capacity: u64, floor: Option<nat>) {
    && k <= |batches| && Settled(batches[k..], capacity, floor)
    && forall j :: 0 <= j < k ==> !Settled(batches[j..], capacity, floor)
  }

  /** How many batches eviction takes. */
  function Surplus(batches: seq<Batch>, capacity: u64, floor: Option<nat>): (k: nat)
    ensures Fewest(batches, k, capacity, floor)
  {
    if Settled(batches, capacity, floor) then
      assert batches[0..] == batches;
      0
    else
      var k := Surplus(batches[1..], capacity, floor);
      assert batches[k + 1..] == batches[1..][k..];
      assert forall j :: 0 <= j <= k ==> !Settled(batches[j..], capacity, floor) by {
        forall j | 0 <= j <= k ensures !Settled(batches[j..], capacity, floor) {
          assert batches[j..] == if j == 0 then batches else batches[1..][j - 1..];
        }
      }
      k + 1
  }

  function Evicted(s: State, capacity: u64): State {
    var k := Surplus(s.batches, capacity, s.floor);
    State(s.batches[k..], s.floor, if k == 0 then s.horizon else s.batches[k - 1].EndTicks(),
          s.evicted + EventsIn(s.batches[..k]))
  }

  /** The batches an eviction takes. */
  function Overflow(s: State, capacity: u64): seq<Batch> {
    s.batches[..Surplus(s.batches, capacity, s.floor)]
  }

  function Pushed(s: State, batch: Batch, capacity: u64): State {
    Evicted(s.(batches := s.batches + [batch]), capacity)
  }

  function Floored(s: State, floor: Option<nat>, capacity: u64): State {
    Evicted(s.(floor := floor), capacity)
  }

  function Popped(s: State): State {
    if s.batches == [] then s else s.(batches := s.batches[1..])
  }

  // ----- facts about one eviction -----

  lemma {:induction false} BytesOfConcat(a: seq<Batch>, b: seq<Batch>)
    ensures BytesOf(a + b) == BytesOf(a) + BytesOf(b)
    decreases |b|
  {
    if b == [] {
      assert a + b == a;
    } else {
      assert (a + b)[..|a + b| - 1] == a + b[..|b| - 1];
      BytesOfConcat(a, b[..|b| - 1]);
    }
  }

  lemma BytesOfAppend(batches: seq<Batch>, batch: Batch)
    ensures BytesOf(batches + [batch]) == BytesOf(batches) + batch.Bytes()
  {
    assert (batches + [batch])[..|batches|] == batches;
  }

  lemma BytesOfFront(batches: seq<Batch>)
    requires batches != []
    ensures BytesOf(batches) == batches[0].Bytes() + BytesOf(batches[1..])
  {
    assert batches == [batches[0]] + batches[1..];
    assert [batches[0]][..0] == [];
    BytesOfConcat([batches[0]], batches[1..]);
  }

  /** Nothing but the fewest will do: the count is determined by its definition. */
  lemma FewestIsUnique(batches: seq<Batch>, j: nat, k: nat, capacity: u64, floor: Option<nat>)
    requires Fewest(batches, j, capacity, floor) && Fewest(batches, k, capacity, floor)
    ensures j == k
  {
    hide Settled;
    assert Settled(batches[j..], capacity, floor) && Settled(batches[k..], capacity, floor);
  }

  lemma EventsInFront(first: Batch, rest: seq<Batch>)
    ensures EventsIn([first] + rest) == |first.events| + EventsIn(rest)
  {
    assert [first][..0] == [];
    EventsInConcat([first], rest);
  }

  /** One turn of the eviction loop. */
  lemma EvictOne(s: State, capacity: u64)
    requires !Settled(s.batches, capacity, s.floor)
    ensures Evicted(s, capacity)
         == Evicted(State(s.batches[1..], s.floor, s.batches[0].EndTicks(), s.evicted + |s.batches[0].events|), capacity)
  {
    var first, rest := s.batches[0], s.batches[1..];
    var k := Surplus(rest, capacity, s.floor);
    assert Surplus(s.batches, capacity, s.floor) == k + 1;
    hide Settled, Surplus, Fewest, EventsIn, BytesOf;
    assert s.batches[..k + 1] == [first] + rest[..k] && s.batches[k + 1..] == rest[k..];
    EventsInFront(first, rest[..k]);
    assert rest[..0] == [];
    EventsInFront(first, []);
  }

  lemma EvictNone(s: State, capacity: u64)
    requires Settled(s.batches, capacity, s.floor)
    ensures Evicted(s, capacity) == s
  {
    hide Settled;
    assert s.batches[..0] == [];
  }

  /** So many bytes are more than twice the capacity, or more than a word counts. */
  predicate AboveTheHardCap(bytes: nat, capacity: u64) {
    bytes > 2 * capacity || bytes > 0xFFFF_FFFF_FFFF_FFFF
  }

  /**
   A batch whose last event is at or after the floor goes only while the batches from it on hold more than twice the
   capacity.
   */
  lemma ProtectedGoesOnlyAboveTheHardCap(s: State, capacity: u64, j: nat)
    requires j < Surplus(s.batches, capacity, s.floor) && s.floor.Some? && Reaches(s.batches[j], s.floor.value)
    ensures AboveTheHardCap(BytesOf(s.batches[j..]), capacity)
  {
    EndIsReached(s.batches[j], s.floor.value);
    assert !Settled(s.batches[j..], capacity, s.floor);
    assert s.batches[j..][0] == s.batches[j];
  }

  /** Where eviction may stop: at one batch, within the capacity, or within twice of it if the front reaches the floor. */
  predicate MayStop(batches: seq<Batch>, capacity: u64, floor: Option<nat>) {
    || |batches| <= 1
    || BytesOf(batches) <= capacity
    || (floor.Some? && Reaches(batches[0], floor.value) && !AboveTheHardCap(BytesOf(batches), capacity))
  }

  lemma SettledMayStop(batches: seq<Batch>, capacity: u64, floor: Option<nat>)
    ensures Settled(batches, capacity, floor) <==> MayStop(batches, capacity, floor)
  {
    if batches != [] && floor.Some? {
      EndIsReached(batches[0], floor.value);
    }
  }

  /** Eviction takes from the front, and stops the first time it may. */
  lemma EvictionStopsFirst(s: State, capacity: u64)
    ensures var k := Surplus(s.batches, capacity, s.floor);
            && Evicted(s, capacity).batches == s.batches[k..] && MayStop(s.batches[k..], capacity, s.floor)
            && forall j :: 0 <= j < k ==> !MayStop(s.batches[j..], capacity, s.floor)
  {
    var k := Surplus(s.batches, capacity, s.floor);
    assert Fewest(s.batches, k, capacity, s.floor);
    hide Settled, MayStop;
    forall j | 0 <= j <= k ensures MayStop(s.batches[j..], capacity, s.floor) <==> Settled(s.batches[j..], capacity, s.floor) {
      SettledMayStop(s.batches[j..], capacity, s.floor);
    }
  }

  /** The newest batch is never evicted. */
  lemma NewestStays(s: State, batch: Batch, capacity: u64)
    ensures var after := Pushed(s, batch, capacity).batches; after != [] && after[|after| - 1] == batch
  {
    var all := s.batches + [batch];
    assert Settled(all[|s.batches|..], capacity, s.floor);
  }

  // ----- every sequence of operations -----

  datatype Action = Push(batch: Batch) | Pop | SetFloor(floor: Option<nat>)

  /** A ring together with everything pushed, popped and evicted, and everything gone in the order it went. */
  datatype Track = Track(ring: State, pushed: seq<Batch>, popped: seq<Batch>, evicted: seq<Batch>, gone: seq<Batch>)

  const FRESH := Track(EMPTY, [], [], [], [])

  function Settle(t: Track, s: State, capacity: u64): Track {
    var out := Overflow(s, capacity);
    t.(ring := Evicted(s, capacity), evicted := t.evicted + out, gone := t.gone + out)
  }

  function Step(t: Track, a: Action, capacity: u64): Track {
    match a
    case Push(batch) =>
      Settle(t.(pushed := t.pushed + [batch]), t.ring.(batches := t.ring.batches + [batch]), capacity)
    case Pop =>
      var out := if t.ring.batches == [] then [] else [t.ring.batches[0]];
      t.(ring := Popped(t.ring), popped := t.popped + out, gone := t.gone + out)
    case SetFloor(floor) => Settle(t, t.ring.(floor := floor), capacity)
  }

  function Exec(t: Track, run: seq<Action>, capacity: u64): Track {
    if run == [] then t else Step(Exec(t, run[..|run| - 1], capacity), run[|run| - 1], capacity)
  }

  /**
   Held batches are a suffix of those pushed; each event pushed was popped, evicted or is held; the counter
   counts the evicted ones; and the horizon is the tick of the last event evicted, or zero.
   */
  predicate Balanced(t: Track) {
    && t.gone + t.ring.batches == t.pushed
    && EventsIn(t.pushed) == EventsIn(t.popped) + t.ring.evicted + EventsIn(t.ring.batches)
    && t.ring.evicted == EventsIn(t.evicted)
    && IsHorizon(t.ring.horizon, t.evicted)
  }

  /** The tick of the last event evicted; zero before any eviction, and the base if the last batch had no event. */
  predicate IsHorizon(horizon: nat, evicted: seq<Batch>) {
    if evicted == [] then horizon == 0
    else
      var last := evicted[|evicted| - 1];
      horizon == if last.events == [] then last.base else last.Marks()[|last.events| - 1].ticks
  }

  lemma EndIsHorizon(evicted: seq<Batch>)
    requires evicted != []
    ensures IsHorizon(evicted[|evicted| - 1].EndTicks(), evicted)
  {
  }

  lemma EvictedCounts(s: State, capacity: u64)
    ensures var out := Overflow(s, capacity);
            var after := Evicted(s, capacity);
            && out + after.batches == s.batches
            && after.evicted == s.evicted + EventsIn(out)
            && EventsIn(s.batches) == EventsIn(out) + EventsIn(after.batches)
            && after.horizon == if out == [] then s.horizon else out[|out| - 1].EndTicks()
  {
    var k := Surplus(s.batches, capacity, s.floor);
    hide Surplus;
    assert s.batches == s.batches[..k] + s.batches[k..];
    EventsInConcat(s.batches[..k], s.batches[k..]);
  }

  lemma SettleBalances(t: Track, s: State, capacity: u64)
    requires Balanced(t.(ring := s))
    ensures Balanced(Settle(t, s, capacity))
  {
    EvictedCounts(s, capacity);
    var out := Overflow(s, capacity);
    var after := Evicted(s, capacity);
    hide Overflow, EventsIn, Evicted;
    EventsInConcat(t.evicted, out);
    assert t.gone + (out + after.batches) == t.gone + out + after.batches;
    if out == [] {
      assert t.evicted + out == t.evicted;
    } else {
      assert (t.evicted + out)[|t.evicted + out| - 1] == out[|out| - 1];
      EndIsHorizon(t.evicted + out);
    }
  }

  lemma PushBalances(t: Track, batch: Batch)
    requires Balanced(t)
    ensures Balanced(t.(pushed := t.pushed + [batch], ring := t.ring.(batches := t.ring.batches + [batch])))
  {
    hide EventsIn;
    EventsInConcat(t.pushed, [batch]);
    EventsInConcat(t.ring.batches, [batch]);
    assert t.gone + (t.ring.batches + [batch]) == t.gone + t.ring.batches + [batch];
  }

  lemma PopBalances(t: Track)
    requires Balanced(t) && t.ring.batches != []
    ensures var first := [t.ring.batches[0]];
            Balanced(t.(ring := Popped(t.ring), popped := t.popped + first, gone := t.gone + first))
  {
    hide EventsIn;
    var first, rest := [t.ring.batches[0]], t.ring.batches[1..];
    assert t.ring.batches == first + rest;
    EventsInConcat(first, rest);
    EventsInConcat(t.popped, first);
    assert t.gone + (first + rest) == t.gone + first + rest;
  }

  lemma StepBalances(t: Track, a: Action, capacity: u64)
    requires Balanced(t)
    ensures Balanced(Step(t, a, capacity))
  {
    hide EventsIn, Settle;
    match a
    case Push(batch) =>
      PushBalances(t, batch);
      SettleBalances(t.(pushed := t.pushed + [batch]), t.ring.(batches := t.ring.batches + [batch]), capacity);
    case Pop =>
      if t.ring.batches != [] {
        PopBalances(t);
      } else {
        assert t.gone + [] == t.gone && t.popped + [] == t.popped;
      }
    case SetFloor(floor) => SettleBalances(t, t.ring.(floor := floor), capacity);
  }

  /** What one eviction takes, where it puts the horizon, and that it gets below the hard cap. */
  lemma EvictionFacts(s: State, capacity: u64)
    ensures var out, after := Overflow(s, capacity), Evicted(s, capacity);
            && s.batches == out + after.batches && after.evicted == s.evicted + EventsIn(out)
            && (if out == [] then after.horizon == s.horizon else IsHorizon(after.horizon, out))
            && (|after.batches| <= 1 || !AboveTheHardCap(BytesOf(after.batches), capacity))
  {
    EvictedCounts(s, capacity);
    EvictedIsCapped(s, capacity);
    var out := Overflow(s, capacity);
    hide Overflow, Evicted, EventsIn, AboveTheHardCap, BytesOf;
    if out != [] {
      EndIsHorizon(out);
    }
  }

  function SlotsIn(batches: seq<Batch>): nat {
    if batches == [] then 0 else SlotsIn(batches[..|batches| - 1]) + batches[|batches| - 1].capacity
  }

  /** A batch costs its header's 40 bytes and 8 for each slot it has room for, filled or not. */
  lemma {:induction false} BytesAreSlots(batches: seq<Batch>)
    ensures BytesOf(batches) == 40 * |batches| + 8 * SlotsIn(batches)
    decreases |batches|
  {
    if batches != [] {
      BytesAreSlots(batches[..|batches| - 1]);
    }
  }

  /** After every sequence of operations one batch is held at most, or no more bytes than twice the capacity. */
  lemma NeverAboveTheHardCap(run: seq<Action>, capacity: u64)
    ensures var held := Exec(FRESH, run, capacity).ring.batches;
            |held| <= 1 || 40 * |held| + 8 * SlotsIn(held) <= 2 * capacity
  {
    StaysBelowTheHardCap(run, capacity);
    BytesAreSlots(Exec(FRESH, run, capacity).ring.batches);
  }

  lemma {:induction false} StaysBelowTheHardCap(run: seq<Action>, capacity: u64)
    ensures var held := Exec(FRESH, run, capacity).ring.batches;
            |held| <= 1 || !AboveTheHardCap(BytesOf(held), capacity)
    decreases |run|
  {
    if run != [] {
      var was := Exec(FRESH, run[..|run| - 1], capacity).ring;
      StaysBelowTheHardCap(run[..|run| - 1], capacity);
      match run[|run| - 1]
      case Push(batch) => EvictedIsCapped(was.(batches := was.batches + [batch]), capacity);
      case Pop =>
        if was.batches != [] {
          BytesOfFront(was.batches);
        }
      case SetFloor(floor) => EvictedIsCapped(was.(floor := floor), capacity);
    }
  }

  lemma EvictedIsCapped(s: State, capacity: u64)
    ensures var held := Evicted(s, capacity).batches; |held| <= 1 || !AboveTheHardCap(BytesOf(held), capacity)
  {
    assert Settled(Evicted(s, capacity).batches, capacity, s.floor);
  }

  lemma {:induction false} RunsBalance(run: seq<Action>, capacity: u64)
    ensures Balanced(Exec(FRESH, run, capacity))
    decreases |run|
  {
    if run != [] {
      RunsBalance(run[..|run| - 1], capacity);
      StepBalances(Exec(FRESH, run[..|run| - 1], capacity), run[|run| - 1], capacity);
    }
  }
}

/** The ring itself. */
module Ring {
  import opened Words
  import opened Batches
  import opened History

  class Ring {
    var batches: seq<Batch>
    var bytes: nat
    const capacity: u64
    var floor: Option<nat>
    var horizon: nat
    var evicted: nat

    /** The byte count is the sum over the held batches. */
    ghost predicate Valid()
      reads this
    {
      bytes == BytesOf(batches)
    }

    function Now(): State
      reads this
    {
      State(batches, floor, horizon, evicted)
    }

    constructor (capacity: u64)
      ensures Valid() && Now() == EMPTY && this.capacity == capacity
    {
      batches, bytes, floor, horizon, evicted := [], 0, None, 0, 0;
      this.capacity := capacity;
    }

    method Push(batch: Batch)
      requires Valid()
      modifies this
      ensures Valid() && Now() == Pushed(old(Now()), batch, capacity)
    {
      BytesOfAppend(batches, batch);
      hide BytesOf, Evicted;
      bytes := bytes + batch.Bytes();
      batches := batches + [batch];
      EvictOverCapacity();
    }

    method Pop() returns (batch: Option<Batch>)
      requires Valid()
      modifies this`batches, this`bytes
      ensures Valid() && Now() == Popped(old(Now()))
      ensures batch == if old(batches) == [] then None else Some(old(batches)[0])
    {
      if batches == [] {
        return None;
      }
      BytesOfFront(batches);
      batch := Some(batches[0]);
      bytes := bytes - batches[0].Bytes();
      batches := batches[1..];
    }

    method SetFloor(newFloor: Option<nat>)
      requires Valid()
      modifies this
      ensures Valid() && Now() == Floored(old(Now()), newFloor, capacity)
    {
      floor := newFloor;
      EvictOverCapacity();
    }

    method EvictOverCapacity()
      requires Valid()
      modifies this
      ensures Valid() && Now() == Evicted(old(Now()), capacity)
      ensures |batches| <= 1 || !AboveTheHardCap(bytes, capacity)
      ensures var out := Overflow(old(Now()), capacity);
              && old(batches) == out + batches && evicted == old(evicted) + EventsIn(out)
              && if out == [] then horizon == old(horizon) else IsHorizon(horizon, out)
    {
      EvictionFacts(Now(), capacity);
      hide BytesOf, Evicted, EventsIn, IsHorizon, Overflow, AboveTheHardCap;
      while bytes > capacity && |batches| > 1
        invariant Valid() && Evicted(Now(), capacity) == Evicted(old(Now()), capacity)
        decreases |batches|
      {
        var oldestEnd := batches[0].EndTicks();
        var protected := floor.Some? && oldestEnd >= floor.value;
        if protected && bytes <= Doubled(capacity) {
          EvictNone(Now(), capacity);
          return;
        }
        EvictOne(Now(), capacity);
        hide Settled;
        var oldest := Pop();
        horizon := oldest.value.EndTicks();
        evicted := evicted + |oldest.value.events|;
      }
      EvictNone(Now(), capacity);
    }
  }
}
