/** The flight recorder's bookkeeping: open windows, the floor they set, and what may leave the ring. */
module Windows {
  import opened Words
  import opened Events
  import opened Batches
  import opened History

  datatype Window = Window(id: nat, start: nat)

  datatype Desk = Desk(ring: State, windows: seq<Window>)

  /** A batch arrives; a window opens; a window closes, because it was cancelled or its dump is done. */
  datatype Event = Arrive(batch: Batch) | Open(id: nat, start: nat) | Shut(id: nat)

  /** The earliest start of an open window. */
  function MinStart(windows: seq<Window>): (floor: Option<nat>)
    ensures floor.None? <==> windows == []
    ensures floor.Some? ==>
              && (forall w :: w in windows ==> floor.value <= w.start)
              && (exists w :: w in windows && w.start == floor.value)
  {
    if windows == [] then None
    else
      var last := windows[|windows| - 1];
      match MinStart(windows[..|windows| - 1])
      case None => Some(last.start)
      case Some(m) => Some(if last.start < m then last.start else m)
  }

  function Without(windows: seq<Window>, id: nat): (left: seq<Window>)
    ensures forall w :: w in left <==> w in windows && w.id != id
  {
    if windows == [] then []
    else
      var last := windows[|windows| - 1];
      Without(windows[..|windows| - 1], id) + if last.id != id then [last] else []
  }

  /** The ring and the windows just before the eviction that ends every step. */
  function Before(d: Desk, e: Event): Desk {
    match e
    case Arrive(batch) => d.(ring := d.ring.(batches := d.ring.batches + [batch]))
    case Open(id, start) =>
      var windows := d.windows + [Window(id, start)];
      Desk(d.ring.(floor := MinStart(windows)), windows)
    case Shut(id) =>
      var windows := Without(d.windows, id);
      Desk(d.ring.(floor := MinStart(windows)), windows)
  }

  function Step(d: Desk, e: Event, capacity: u64): Desk {
    Before(d, e).(ring := Evicted(Before(d, e).ring, capacity))
  }

  function Exec(d: Desk, run: seq<Event>, capacity: u64): Desk {
    if run == [] then d else Step(Exec(d, run[..|run| - 1], capacity), run[|run| - 1], capacity)
  }

  lemma {:induction false} ExecConcat(d: Desk, a: seq<Event>, b: seq<Event>, capacity: u64)
    ensures Exec(d, a + b, capacity) == Exec(Exec(d, a, capacity), b, capacity)
    decreases |b|
  {
    if b == [] {
      assert a + b == a;
    } else {
      assert (a + b)[..|a + b| - 1] == a + b[..|b| - 1];
      ExecConcat(d, a, b[..|b| - 1], capacity);
    }
  }

  // ----- the floor -----

  predicate FloorIsEarliest(d: Desk) {
    d.ring.floor == MinStart(d.windows)
  }

  /** The floor is the earliest start of the open windows after every step of every run. */
  lemma {:induction false} FloorFollowsWindows(d: Desk, run: seq<Event>, capacity: u64)
    requires FloorIsEarliest(d)
    ensures FloorIsEarliest(Exec(d, run, capacity))
    decreases |run|
  {
    hide MinStart, Without;
    if run != [] {
      FloorFollowsWindows(d, run[..|run| - 1], capacity);
    }
  }

  // ----- what leaves -----

  /** A batch that leaves, with the bytes held by it and everything behind it at that instant. */
  datatype Departure = Departure(batch: Batch, held: nat)

  function Leaving(s: State, capacity: u64): (out: seq<Departure>)
    ensures |out| == |Overflow(s, capacity)|
    ensures forall j :: 0 <= j < |out| ==> out[j].batch == Overflow(s, capacity)[j]
  {
    seq(|Overflow(s, capacity)|, j requires 0 <= j < |Overflow(s, capacity)| =>
      Departure(Overflow(s, capacity)[j], BytesOf(s.batches[j..])))
  }

  function Departures(d: Desk, run: seq<Event>, capacity: u64): seq<Departure> {
    if run == [] then []
    else
      Departures(d, run[..|run| - 1], capacity)
      + Leaving(Before(Exec(d, run[..|run| - 1], capacity), run[|run| - 1]).ring, capacity)
  }

  function News(e: Event): seq<Batch> {
    if e.Arrive? then [e.batch] else []
  }

  function Arrivals(run: seq<Event>): seq<Batch> {
    if run == [] then [] else Arrivals(run[..|run| - 1]) + News(run[|run| - 1])
  }

  function Gone(departures: seq<Departure>): seq<Batch> {
    seq(|departures|, j requires 0 <= j < |departures| => departures[j].batch)
  }

  lemma StepLeaves(d: Desk, e: Event, capacity: u64)
    ensures Gone(Leaving(Before(d, e).ring, capacity)) + Step(d, e, capacity).ring.batches == d.ring.batches + News(e)
  {
    var before := Before(d, e).ring;
    assert before.batches == d.ring.batches + News(e);
    hide Before, News, Surplus, EventsIn;
    EvictedCounts(before, capacity);
    hide Evicted, Overflow;
    assert Gone(Leaving(before, capacity)) == Overflow(before, capacity);
  }

  /** What has left and what is held are, together and in order, what was held at first and what has arrived. */
  lemma {:induction false} NothingElseLeaves(d: Desk, run: seq<Event>, capacity: u64)
    ensures Gone(Departures(d, run, capacity)) + Exec(d, run, capacity).ring.batches == d.ring.batches + Arrivals(run)
    decreases |run|
  {
    hide Step, Before, Leaving, Gone, News;
    if run == [] {
      NoneGone();
      assert [] + d.ring.batches == d.ring.batches + [];
    } else {
      var front, last := run[..|run| - 1], run[|run| - 1];
      var mid := Exec(d, front, capacity);
      var out := Leaving(Before(mid, last).ring, capacity);
      NothingElseLeaves(d, front, capacity);
      StepLeaves(mid, last, capacity);
      GoneConcat(Departures(d, front, capacity), out);
      Regroup(Gone(Departures(d, front, capacity)), mid.ring.batches, News(last),
              Gone(out), Step(mid, last, capacity).ring.batches);
      assert d.ring.batches + (Arrivals(front) + News(last)) == d.ring.batches + Arrivals(front) + News(last);
    }
  }

  lemma NoneGone()
    ensures Gone([]) == []
  {
  }

  lemma GoneConcat(a: seq<Departure>, b: seq<Departure>)
    ensures Gone(a + b) == Gone(a) + Gone(b)
  {
  }

  lemma Regroup(gone: seq<Batch>, held: seq<Batch>, news: seq<Batch>, out: seq<Batch>, left: seq<Batch>)
    requires held + news == out + left
    ensures (gone + out) + left == (gone + held) + news
  {
    assert gone + (out + left) == gone + out + left;
    assert gone + (held + news) == gone + held + news;
  }

  // ----- protection -----

  /** No batch whose last event is at or after `start` leaves unless more than twice the capacity is held. */
  predicate Guarded(departures: seq<Departure>, start: nat, capacity: u64) {
    forall x :: x in departures && Reaches(x.batch, start) ==> AboveTheHardCap(x.held, capacity)
  }

  lemma LeavingIsGuarded(s: State, start: nat, capacity: u64)
    requires s.floor.Some? && s.floor.value <= start
    ensures Guarded(Leaving(s, capacity), start, capacity)
  {
    var out := Leaving(s, capacity);
    forall j | 0 <= j < |out| && Reaches(out[j].batch, start) ensures AboveTheHardCap(out[j].held, capacity) {
      ProtectedGoesOnlyAboveTheHardCap(s, capacity, j);
    }
  }

  lemma WindowLowersFloor(d: Desk, e: Event, id: nat, start: nat)
    requires FloorIsEarliest(d)
    requires (Window(id, start) in d.windows && e != Shut(id)) || e == Open(id, start)
    ensures Window(id, start) in Before(d, e).windows
    ensures Before(d, e).ring.floor.Some? && Before(d, e).ring.floor.value <= start
  {
    assert Window(id, start) in Before(d, e).windows;
  }

  /**
   Window protection. From an Open on, for as long as the window has not been cancelled and its dump is not
   done, a batch ending at or after its start leaves only while more than twice the capacity is held.
   */
  lemma {:induction false} WindowProtects(d: Desk, run: seq<Event>, id: nat, start: nat, capacity: u64)
    requires FloorIsEarliest(d) && run != [] && run[0] == Open(id, start) && Shut(id) !in run
    ensures Window(id, start) in Exec(d, run, capacity).windows
    ensures Guarded(Departures(d, run, capacity), start, capacity)
    decreases |run|
  {
    var front, last := run[..|run| - 1], run[|run| - 1];
    var mid := Exec(d, front, capacity);
    FloorFollowsWindows(d, front, capacity);
    assert last in run;
    if front != [] {
      WindowProtects(d, front, id, start, capacity);
    }
    WindowLowersFloor(mid, last, id, start);
    LeavingIsGuarded(Before(mid, last).ring, start, capacity);
  }

  /**
   With no more than twice the capacity ever held, every event at or after the start of an open window that was held
   then or arrived since is in a held batch, if the last event of its batch is at or after the start too.
   */
  lemma WindowIsKeptWhole(d: Desk, run: seq<Event>, id: nat, start: nat, capacity: u64)
    requires FloorIsEarliest(d) && run != [] && run[0] == Open(id, start) && Shut(id) !in run
    requires forall x :: x in Departures(d, run, capacity) ==> !AboveTheHardCap(x.held, capacity)
    ensures forall b, m :: b in d.ring.batches + Arrivals(run) && m in b.Marks() && m.ticks >= start
                           && start <= b.Marks()[|b.events| - 1].ticks ==>
                             b in Exec(d, run, capacity).ring.batches
  {
    WindowProtects(d, run, id, start, capacity);
    NothingElseLeaves(d, run, capacity);
    var gone := Departures(d, run, capacity);
    hide Departures, Exec, Arrivals, AboveTheHardCap;
    forall j | 0 <= j < |gone| ensures !Reaches(gone[j].batch, start) {
      assert gone[j] in gone;
    }
    assert forall b :: b in Gone(gone) ==> !Reaches(b, start);
    forall b | b in d.ring.batches + Arrivals(run) && Reaches(b, start) ensures b in Exec(d, run, capacity).ring.batches {
      assert b in Gone(gone) + Exec(d, run, capacity).ring.batches;
    }
  }

  /** In particular every such event of a batch whose ticks do not step back. */
  lemma InOrderWindowIsKeptWhole(d: Desk, run: seq<Event>, id: nat, start: nat, capacity: u64)
    requires FloorIsEarliest(d) && run != [] && run[0] == Open(id, start) && Shut(id) !in run
    requires forall x :: x in Departures(d, run, capacity) ==> !AboveTheHardCap(x.held, capacity)
    ensures forall b, m :: b in d.ring.batches + Arrivals(run) && m in b.Marks() && m.ticks >= start
                           && (forall i, j :: 0 <= i < j < |b.events| ==> b.Marks()[i].ticks <= b.Marks()[j].ticks) ==>
                             b in Exec(d, run, capacity).ring.batches
  {
    WindowIsKeptWhole(d, run, id, start, capacity);
    hide Departures, Exec, Arrivals;
    forall b, m | b in d.ring.batches + Arrivals(run) && m in b.Marks() && m.ticks >= start
                  && (forall i, j :: 0 <= i < j < |b.events| ==> b.Marks()[i].ticks <= b.Marks()[j].ticks)
      ensures b in Exec(d, run, capacity).ring.batches
    {
      LastIsLatest(b, m);
    }
  }

  lemma LastIsLatest(b: Batch, m: Mark)
    requires m in b.Marks() && forall i, j :: 0 <= i < j < |b.events| ==> b.Marks()[i].ticks <= b.Marks()[j].ticks
    ensures b.events != [] && m.ticks <= b.Marks()[|b.events| - 1].ticks
  {
    var i :| 0 <= i < |b.events| && b.Marks()[i] == m;
  }

  /** A batch whose last event is before the start of the only window leaves as soon as the ring is over its capacity. */
  lemma UnreachedGoes(id: nat, start: nat, first: Batch, later: Batch, capacity: u64)
    requires !Reaches(first, start) && first.Bytes() + later.Bytes() > capacity
    ensures var d, run := Desk(EMPTY, []), [Open(id, start)] + [Arrive(first)] + [Arrive(later)];
            && Exec(d, run, capacity).ring.batches == [later]
            && Departures(d, run, capacity) == [Departure(first, first.Bytes() + later.Bytes())]
  {
    var d2 := Desk(State([first], Some(start), 0, 0), [Window(id, start)]);
    hide *;
    AfterTwo(id, start, first, capacity);
    FirstIsUnprotected(d2, first, later, start, capacity);
    FrontGoes(d2, Arrive(later), capacity);
    OneStepMore(Desk(EMPTY, []), [Open(id, start)] + [Arrive(first)], Arrive(later), capacity);
    assert [] + [Departure(first, first.Bytes() + later.Bytes())] == [Departure(first, first.Bytes() + later.Bytes())];
  }

  lemma AfterTwo(id: nat, start: nat, first: Batch, capacity: u64)
    ensures var d, run := Desk(EMPTY, []), [Open(id, start)] + [Arrive(first)];
            && Exec(d, run, capacity) == Desk(State([first], Some(start), 0, 0), [Window(id, start)])
            && Departures(d, run, capacity) == []
  {
    var d := Desk(EMPTY, []);
    var d1 := Desk(State([], Some(start), 0, 0), [Window(id, start)]);
    OpensFirst(id, start);
    assert [] + [first] == [first] && [] + [Open(id, start)] == [Open(id, start)];
    hide Step, Exec, Departures, BytesOf, MinStart, Leaving;
    Stays(d, Open(id, start), capacity);
    Stays(d1, Arrive(first), capacity);
    hide Before, Settled;
    OneStepMore(d, [], Open(id, start), capacity);
    OneStepMore(d, [Open(id, start)], Arrive(first), capacity);
  }

  lemma FirstIsUnprotected(d: Desk, first: Batch, later: Batch, start: nat, capacity: u64)
    requires d.ring.batches == [first] && d.ring.floor == Some(start)
    requires !Reaches(first, start) && first.Bytes() + later.Bytes() > capacity
    ensures var s := Before(d, Arrive(later)).ring;
            && s.batches == [first, later] && !Settled(s.batches, capacity, s.floor)
            && BytesOf(s.batches) == first.Bytes() + later.Bytes()
  {
    assert [first] + [later] == [first, later];
    BytesOfTwo(first, later);
    EndIsReached(first, start);
    hide BytesOf, Reaches;
  }

  lemma BytesOfTwo(first: Batch, later: Batch)
    ensures BytesOf([first, later]) == first.Bytes() + later.Bytes()
  {
    BytesOfFront([first, later]);
    BytesOfFront([later]);
    assert [first, later][1..] == [later] && [later][1..] == [];
  }

  lemma OpensFirst(id: nat, start: nat)
    ensures Before(Desk(EMPTY, []), Open(id, start)) == Desk(State([], Some(start), 0, 0), [Window(id, start)])
  {
    assert [] + [Window(id, start)] == [Window(id, start)] && [Window(id, start)][..0] == [];
  }

  /** So with ticks that step back inside a batch an event of an open window is evicted, well within twice the capacity. */
  lemma BackwardTicksLeaveTheWindow()
    ensures var first := Batch(100, 1, [PackedEvent(20, 0), PackedEvent(10, 0)], 2); var later := Batch(200, 1, [PackedEvent(0, 0)], 1);
            var run := [Open(7, 115)] + [Arrive(first)] + [Arrive(later)];
            && Mark(120, 0) in first.Marks()
            && Exec(Desk(EMPTY, []), run, 60).ring.batches == [later]
            && Departures(Desk(EMPTY, []), run, 60) == [Departure(first, 104)] && !AboveTheHardCap(104, 60)
  {
    var first, later := Batch(100, 1, [PackedEvent(20, 0), PackedEvent(10, 0)], 2), Batch(200, 1, [PackedEvent(0, 0)], 1);
    assert first.Marks()[0] == Mark(120, 0);
    hide Exec, Departures;
    UnreachedGoes(7, 115, first, later, 60);
  }

  lemma OneStepMore(d: Desk, run: seq<Event>, e: Event, capacity: u64)
    ensures Exec(d, [], capacity) == d && Departures(d, [], capacity) == []
    ensures Exec(d, run + [e], capacity) == Step(Exec(d, run, capacity), e, capacity)
    ensures Departures(d, run + [e], capacity)
         == Departures(d, run, capacity) + Leaving(Before(Exec(d, run, capacity), e).ring, capacity)
  {
    assert (run + [e])[..|run|] == run;
  }

  lemma Stays(d: Desk, e: Event, capacity: u64)
    requires Settled(Before(d, e).ring.batches, capacity, Before(d, e).ring.floor)
    ensures Step(d, e, capacity) == Before(d, e) && Leaving(Before(d, e).ring, capacity) == []
  {
    var s := Before(d, e).ring;
    EvictNone(s, capacity);
    hide Before, Settled;
    assert s.batches[0..] == s.batches;
    FewestIsUnique(s.batches, 0, Surplus(s.batches, capacity, s.floor), capacity, s.floor);
  }

  lemma FrontGoes(d: Desk, e: Event, capacity: u64)
    requires var s := Before(d, e).ring; |s.batches| == 2 && !Settled(s.batches, capacity, s.floor)
    ensures var s := Before(d, e).ring;
            && Step(d, e, capacity).ring.batches == [s.batches[1]]
            && Leaving(s, capacity) == [Departure(s.batches[0], BytesOf(s.batches))]
  {
    var s := Before(d, e).ring;
    hide Before;
    assert s.batches[0..] == s.batches && s.batches[1..] == [s.batches[1]];
    assert Settled(s.batches[1..], capacity, s.floor);
    hide Settled, BytesOf;
    FewestIsUnique(s.batches, 1, Surplus(s.batches, capacity, s.floor), capacity, s.floor);
    assert s.batches[..1] == [s.batches[0]];
  }
}

/** The recorder's state and what it does with a control message. */
module FlightRecorder {
  import opened Words
  import opened Batches
  import opened Queue
  import opened Windows
  import opened Assemble
  import Draining
  import R = Ring
  import History

  const WRITE_CHUNK: nat := 4096

  datatype Control =
    | Open(id: nat, start: nat)
    | Cancel(id: nat)
    | Dump(id: nat, start: nat, end: nat)
    | DumpAll(end: nat)

  function AsRun(items: seq<Item>): seq<Windows.Event> {
    seq(|items|, i requires 0 <= i < |items| => Arrive(items[i].batch))
  }

  /** Everything that waited was taken, oldest first on each ring. */
  ghost predicate Emptied(items: seq<Item>, before: seq<seq<Batch>>, after: seq<seq<Batch>>) {
    && |after| == |before|
    && forall r :: 0 <= r < |before| ==> Draining.Of(items, r) == before[r] && after[r] == []
  }

  function Flat(chunks: seq<seq<Events.Event>>): seq<Events.Event> {
    if chunks == [] then [] else Flat(chunks[..|chunks| - 1]) + chunks[|chunks| - 1]
  }

  /** `slice::chunks`: no chunk is empty or too long, and only the last may be short. */
  predicate Chunked(chunks: seq<seq<Events.Event>>) {
    && (forall c :: c in chunks ==> 0 < |c| <= WRITE_CHUNK)
    && forall i :: 0 <= i < |chunks| - 1 ==> |chunks[i]| == WRITE_CHUNK
  }

  /** The lowest of the clock, the bases of the tails and the bases of the ring. */
  predicate IsRecycleFloor(floor: nat, now: nat, tails: seq<Batch>, held: seq<Batch>) {
    && floor <= now && (forall b :: b in tails + held ==> floor <= b.base)
    && (floor == now || exists b :: b in tails + held && floor == b.base)
  }

  /** What a dump wrote: the assembly of the ring and the tails at one instant, in chunks. */
  ghost predicate Written(chunks: seq<seq<Events.Event>>, desk: Desk, tails: seq<Batch>, ns: nat -> u64, start: nat, end: nat) {
    && Chunked(chunks)
    && Told(Flat(chunks), desk.ring.batches + Fresh(desk.ring.batches, tails), ns, desk.ring.horizon, start, end)
  }

  lemma AsRunConcat(d: Desk, a: seq<Item>, b: seq<Item>, capacity: u64)
    ensures Exec(Exec(d, AsRun(a), capacity), AsRun(b), capacity) == Exec(d, AsRun(a + b), capacity)
  {
    hide Exec;
    assert AsRun(a + b) == AsRun(a) + AsRun(b);
    ExecConcat(d, AsRun(a), AsRun(b), capacity);
  }

  lemma TakenAll(items: seq<Item>, before: seq<seq<Batch>>, now: seq<seq<Batch>>)
    requires Draining.Taking(items, before, now) && forall r :: 0 <= r < |now| ==> now[r] == []
    ensures Emptied(items, before, now)
  {
    forall r: nat | r < |before| ensures Draining.Of(items, r) == before[r] {
      assert Draining.Of(items, r) + now[r] == before[r];
    }
  }

  lemma RunsEmpty(d: Desk, items: seq<Item>, capacity: u64)
    ensures Exec(d, AsRun(items[..0]), capacity) == d
  {
  }

  lemma OneMore(d: Desk, items: seq<Item>, i: nat, capacity: u64)
    requires i < |items|
    ensures var mid := Exec(d, AsRun(items[..i]), capacity);
            Exec(d, AsRun(items[..i + 1]), capacity) == Desk(History.Pushed(mid.ring, items[i].batch, capacity), mid.windows)
  {
    assert AsRun(items[..i + 1])[..i] == AsRun(items[..i]);
  }

  lemma EmptyTwice(a: seq<Item>, b: seq<Item>, before: seq<seq<Batch>>, now: seq<seq<Batch>>)
    requires exists mid :: Emptied(a, before, mid) && Emptied(b, mid, now)
    ensures Emptied(a + b, before, now)
  {
    var mid :| Emptied(a, before, mid) && Emptied(b, mid, now);
    forall r: nat | r < |before| ensures Draining.Of(a + b, r) == before[r] {
      Draining.OfConcat(a, b, r);
      assert Draining.Of(b, r) == mid[r] == [];
      assert Draining.Of(a, r) + [] == Draining.Of(a, r);
    }
  }

  method Split(events: seq<Events.Event>) returns (chunks: seq<seq<Events.Event>>)
    ensures Chunked(chunks) && Flat(chunks) == events
  {
    chunks := [];
    var i := 0;
    while i < |events|
      invariant i <= |events| && Chunked(chunks) && Flat(chunks) == events[..i]
      invariant i < |events| ==> forall c :: c in chunks ==> |c| == WRITE_CHUNK
    {
      var j := if |events| - i <= WRITE_CHUNK then |events| else i + WRITE_CHUNK;
      assert (chunks + [events[i..j]])[..|chunks|] == chunks;
      assert events[..j] == events[..i] + events[i..j];
      chunks := chunks + [events[i..j]];
      i := j;
    }
    assert events[..|events|] == events;
  }

  /** The lowest base, or the clock when that is lower. */
  method Lowest(now: nat, batches: seq<Batch>) returns (floor: nat)
    ensures floor <= now && forall b :: b in batches ==> floor <= b.base
    ensures floor == now || exists b :: b in batches && floor == b.base
  {
    floor := now;
    var i := 0;
    while i < |batches|
      invariant i <= |batches| && floor <= now && (forall j :: 0 <= j < i ==> floor <= batches[j].base)
      invariant floor == now || exists b :: b in batches && floor == b.base
    {
      if batches[i].base < floor {
        floor := batches[i].base;
        assert batches[i] in batches;
      }
      i := i + 1;
    }
  }

  class Recorder {
    const inbound: EventQueue
    const ring: R.Ring
    var windows: seq<Window>

    function Now(): Desk
      reads this, ring
    {
      Desk(ring.Now(), windows)
    }

    /** The ring's floor is the earliest start of an open window. */
    ghost predicate Valid()
      reads this, ring
    {
      ring.Valid() && FloorIsEarliest(Now())
    }

    constructor (inbound: EventQueue, capacity: u64)
      ensures Valid() && Now() == Desk(History.EMPTY, []) && this.inbound == inbound
      ensures fresh(ring) && ring.capacity == capacity
    {
      this.inbound := inbound;
      windows := [];
      ring := new R.Ring(capacity);
    }

    method PushAll(out: seq<Item>)
      requires Valid()
      modifies ring
      ensures Valid() && Now() == Exec(old(Now()), AsRun(out), ring.capacity)
    {
      hide Exec, MinStart, History.Evicted;
      ghost var start := Now();
      RunsEmpty(start, out, ring.capacity);
      var i := 0;
      while i < |out|
        invariant i <= |out| && ring.Valid() && windows == old(windows)
        invariant Now() == Exec(start, AsRun(out[..i]), ring.capacity)
      {
        OneMore(start, out, i, ring.capacity);
        ring.Push(out[i].batch);
        i := i + 1;
      }
      assert out[..|out|] == out;
      FloorFollowsWindows(start, AsRun(out), ring.capacity);
    }

    /** Drain at most `limit` batches into the ring. */
    method Absorb(limit: nat) returns (drained: nat, ghost items: seq<Item>)
      requires Valid()
      modifies ring, inbound`rings, inbound`next
      ensures Valid() && Now() == Exec(old(Now()), AsRun(items), ring.capacity)
      ensures drained == |items|
      ensures Draining.OneCall(old(inbound.rings), old(inbound.next), limit, items, inbound.rings, inbound.next)
    {
      hide Exec, MinStart, FloorIsEarliest;
      var out := inbound.Drain(limit);
      drained, items := |out|, out;
      PushAll(out);
    }

    method AbsorbAll() returns (ghost items: seq<Item>)
      requires Valid()
      modifies ring, inbound`rings, inbound`next
      ensures Valid() && Now() == Exec(old(Now()), AsRun(items), ring.capacity)
      ensures Emptied(items, old(inbound.rings), inbound.rings)
    {
      hide Exec, MinStart, FloorIsEarliest, Draining.Taking, Draining.OneCall, Emptied;
      ghost var rings, next := inbound.rings, inbound.next;
      var drained;
      drained, items := Absorb(U64_MAX);
      Draining.OneCallFacts(rings, next, U64_MAX, items, inbound.rings, inbound.next);
      while drained > 0
        invariant Valid() && windows == old(windows)
        invariant Now() == Exec(old(Now()), AsRun(items), ring.capacity)
        invariant Draining.Taking(items, old(inbound.rings), inbound.rings)
        invariant drained == 0 ==> forall r :: 0 <= r < |inbound.rings| ==> inbound.rings[r] == []
        decreases Draining.Waiting(inbound.rings), drained
      {
        ghost var more;
        ghost var mid, at := inbound.rings, inbound.next;
        drained, more := Absorb(U64_MAX);
        Draining.OneCallFacts(mid, at, U64_MAX, more, inbound.rings, inbound.next);
        AsRunConcat(old(Now()), items, more, ring.capacity);
        Draining.TakingMore(items, more, old(inbound.rings), mid, inbound.rings);
        items := items + more;
      }
      TakenAll(items, old(inbound.rings), inbound.rings);
    }

    method EarliestStart() returns (floor: Option<nat>)
      ensures floor == MinStart(windows)
    {
      floor := None;
      var i := 0;
      while i < |windows|
        invariant i <= |windows| && floor == MinStart(windows[..i])
      {
        assert windows[..i + 1][..i] == windows[..i];
        if floor.None? || windows[i].start < floor.value {
          floor := Some(windows[i].start);
        }
        i := i + 1;
      }
      assert windows[..|windows|] == windows;
    }

    method Refloor()
      requires ring.Valid()
      modifies ring
      ensures Valid() && Now() == Desk(History.Floored(old(ring.Now()), MinStart(windows), ring.capacity), windows)
    {
      var floor := EarliestStart();
      hide MinStart, History.Surplus, History.BytesOf;
      ring.SetFloor(floor);
    }

    /** The clock was read, then the tails, before this; the rings are emptied before the minimum is taken. */
    method UpdateRecycleFloor(now: nat, tails: seq<Batch>) returns (ghost items: seq<Item>)
      requires Valid()
      modifies ring, inbound`rings, inbound`next, inbound`recycleFloor
      ensures Valid() && Now() == Exec(old(Now()), AsRun(items), ring.capacity)
      ensures Emptied(items, old(inbound.rings), inbound.rings)
      ensures IsRecycleFloor(inbound.recycleFloor, now, tails, ring.batches)
    {
      hide Exec, MinStart, Emptied;
      items := AbsorbAll();
      var floor := Lowest(now, tails + ring.batches);
      inbound.SetRecycleFloor(floor);
    }

    /**
     Everything waiting is absorbed before and after the tails are read, then the ring and the tails are
     assembled and written out, with a drain after every chunk. `tails` is what reading the live tails gave;
     `items` arrive before the assembly and `late` after it.
     */
    method WriteDump(tails: seq<Batch>, ns: nat -> u64, start: nat, end: nat)
      returns (chunks: seq<seq<Events.Event>>, ghost items: seq<Item>, ghost late: seq<Item>)
      requires Valid()
      modifies ring, inbound`rings, inbound`next
      ensures Valid() && Now() == Exec(Exec(old(Now()), AsRun(items), ring.capacity), AsRun(late), ring.capacity)
      ensures exists rings :: Emptied(items, old(inbound.rings), rings) && Draining.Taking(late, rings, inbound.rings)
      ensures Written(chunks, Exec(old(Now()), AsRun(items), ring.capacity), tails, ns, start, end)
    {
      hide Exec, MinStart, FloorIsEarliest, Draining.Taking, Emptied, Told, Flat;
      items := AbsorbAll();
      ghost var more := AbsorbAll();
      AsRunConcat(old(Now()), items, more, ring.capacity);
      EmptyTwice(items, more, old(inbound.rings), inbound.rings);
      items := items + more;
      var events := Assemble.Run(ring.batches, tails, ns, ring.horizon, start, end);
      chunks := Split(events);
      late := AbsorbBetween(|chunks|);
    }

    /** One drain after each of `n` chunks. */
    method AbsorbBetween(n: nat) returns (ghost late: seq<Item>)
      requires Valid()
      modifies ring, inbound`rings, inbound`next
      ensures Valid() && Now() == Exec(old(Now()), AsRun(late), ring.capacity)
      ensures Draining.Taking(late, old(inbound.rings), inbound.rings)
      ensures inbound.next == old(inbound.next) + if old(inbound.rings) == [] then 0 else n
    {
      RunsEmpty(Now(), [], ring.capacity);
      Draining.TakingNone(inbound.rings);
      hide Exec, MinStart, FloorIsEarliest, Draining.Taking;
      late := [];
      var i := 0;
      while i < n
        invariant Valid() && Now() == Exec(old(Now()), AsRun(late), ring.capacity)
        invariant Draining.Taking(late, old(inbound.rings), inbound.rings)
        invariant |inbound.rings| == |old(inbound.rings)| && i <= n
        invariant inbound.next == old(inbound.next) + if old(inbound.rings) == [] then 0 else i
      {
        ghost var mid, at := inbound.rings, inbound.next;
        var drained, more := Absorb(U64_MAX);
        Draining.OneCallFacts(mid, at, U64_MAX, more, inbound.rings, inbound.next);
        Draining.TakingSame(more, mid, inbound.rings);
        AsRunConcat(old(Now()), late, more, ring.capacity);
        Draining.TakingMore(late, more, old(inbound.rings), mid, inbound.rings);
        late := late + more;
        i := i + 1;
      }
    }

    /**
     One control message. A dump's window closes after the dump is written; the floor for reuse is recomputed
     last, from a clock reading and tails read after the dump.
     */
    method Handle(msg: Control, tails: seq<Batch>, ns: nat -> u64, now: nat, tailsAfter: seq<Batch>)
      returns (chunks: seq<seq<Events.Event>>, ghost items: seq<Item>, ghost late: seq<Item>, ghost last: seq<Item>)
      requires Valid()
      modifies this, ring, inbound`rings, inbound`next, inbound`recycleFloor
      ensures Valid()
      ensures msg.Open? ==> Now() == Step(old(Now()), Windows.Open(msg.id, msg.start), ring.capacity)
      ensures msg.Cancel? ==> Now() == Step(old(Now()), Shut(msg.id), ring.capacity)
      ensures msg.Open? || msg.Cancel? ==> inbound.rings == old(inbound.rings) && chunks == []
      ensures msg.Dump? || msg.DumpAll? ==>
                var assembled := Exec(old(Now()), AsRun(items), ring.capacity);
                var written := Exec(assembled, AsRun(late), ring.capacity);
                var shut := if msg.Dump? then Step(written, Shut(msg.id), ring.capacity) else written;
                && Now() == Exec(shut, AsRun(last), ring.capacity)
                && Written(chunks, assembled, tails, ns, if msg.Dump? then msg.start else 0, msg.end)
                && IsRecycleFloor(inbound.recycleFloor, now, tailsAfter, ring.batches)
    {
      hide Exec, Step, FloorIsEarliest, Emptied, Written, IsRecycleFloor;
      chunks, items, late, last := [], [], [], [];
      match msg
      case Open(id, start) => OpenWindow(id, start);
      case Cancel(id) => ShutWindow(id);
      case Dump(id, start, end) =>
        chunks, items, late := WriteDump(tails, ns, start, end);
        ShutWindow(id);
        last := UpdateRecycleFloor(now, tailsAfter);
      case DumpAll(end) =>
        chunks, items, late := WriteDump(tails, ns, 0, end);
        last := UpdateRecycleFloor(now, tailsAfter);
    }

    method OpenWindow(id: nat, start: nat)
      requires Valid()
      modifies this, ring
      ensures Valid() && Now() == Step(old(Now()), Windows.Open(id, start), ring.capacity)
    {
      hide MinStart, History.Evicted;
      windows := windows + [Window(id, start)];
      Refloor();
    }

    method ShutWindow(id: nat)
      requires Valid()
      modifies this, ring
      ensures Valid() && Now() == Step(old(Now()), Shut(id), ring.capacity)
    {
      hide MinStart, Without, History.Evicted;
      windows := Without(windows, id);
      Refloor();
    }
  }
}
