/**
 What a dump holds of a thread, over whole runs: producers push, flush and fill their rings, the recorder drains them
 into its history, and between two steps a tail is read.
 */
module Captures {
  import opened Words
  import opened Events
  import opened Batches
  import opened Queue
  import opened Producing
  import opened Lanes
  import opened Dumps
  import History
  import Draining
  import Assemble

  datatype World = World(system: System, track: History.Track)

  const START := World(System([], 0, 0), History.FRESH)

  datatype Act = Produce(a: Lanes.Action) | Absorb(limit: nat) | SetFloor(floor: Option<nat>)

  /** Each thread that joins has a tid of its own. */
  predicate Allowed(w: World, act: Act) {
    act.Produce? ==>
      && !act.a.Drain? && Lanes.Enabled(w.system, act.a)
      && (act.a.Join? ==> forall i :: 0 <= i < |w.system.lanes| ==> w.system.lanes[i].tid != act.a.tid)
  }

  function BatchesOf(items: seq<Item>): seq<Batch> {
    if items == [] then [] else BatchesOf(items[..|items| - 1]) + [items[|items| - 1].batch]
  }

  function PushAll(t: History.Track, items: seq<Item>, capacity: u64): History.Track {
    if items == [] then t
    else History.Step(PushAll(t, items[..|items| - 1], capacity), History.Push(items[|items| - 1].batch), capacity)
  }

  function Next(w: World, act: Act, capacity: u64): World
    requires Allowed(w, act)
  {
    match act
    case Produce(a) => w.(system := Lanes.Step(w.system, a))
    case Absorb(limit) =>
      if w.system.lanes == [] then w
      else
        var out := Drained(Lanes.Rings(w.system.lanes), w.system.next % |w.system.lanes|, limit).0;
        World(Lanes.Step(w.system, Drain(limit)), PushAll(w.track, out, capacity))
    case SetFloor(floor) => w.(track := History.Step(w.track, History.SetFloor(floor), capacity))
  }

  // ----- the history holds the newest of what each thread had drained -----

  predicate OwnTids(lanes: seq<Lane>) {
    forall i, j :: 0 <= i < j < |lanes| ==> lanes[i].tid != lanes[j].tid
  }

  predicate Delivered(w: World) {
    forall i :: 0 <= i < |w.system.lanes| ==> OwnBatches(w.track.pushed, w.system.lanes[i].tid) == w.system.lanes[i].taken
  }

  predicate Known(w: World) {
    forall b :: b in w.track.pushed ==> exists i :: 0 <= i < |w.system.lanes| && w.system.lanes[i].tid == b.tid
  }

  predicate Good(w: World) {
    Lanes.Inv(w.system) && History.Balanced(w.track) && OwnTids(w.system.lanes) && Delivered(w) && Known(w)
  }

  lemma {:induction false} KeptTids(fates: seq<Fate>, tid: u32)
    requires forall f :: f in fates ==> f.batch.tid == tid
    ensures forall b :: b in Kept(fates) ==> b.tid == tid
    decreases |fates|
  {
    if fates != [] {
      assert fates[|fates| - 1] in fates;
      KeptTids(fates[..|fates| - 1], tid);
    }
  }

  lemma WaitingTids(l: Lane)
    requires LaneInv(l)
    ensures forall b :: b in l.taken + l.ring ==> b.tid == l.tid
  {
    KeptTids(l.closed, l.tid);
    hide Decoded, Decode, Kept;
  }

  lemma {:induction false} InOwnRing(items: seq<Item>, k: nat)
    requires k < |items|
    ensures items[k].batch in Draining.Of(items, items[k].ring)
    decreases |items|
  {
    if k < |items| - 1 {
      InOwnRing(items[..|items| - 1], k);
    }
  }

  /** The items of a drain carry the tids of the lanes they come from. */
  ghost predicate FromLanes(items: seq<Item>, lanes: seq<Lane>) {
    forall item :: item in items ==> item.ring < |lanes| && item.batch.tid == lanes[item.ring].tid
  }

  lemma DrainedFromLanes(lanes: seq<Lane>, start: nat, limit: nat)
    requires start < |lanes| && forall l :: l in lanes ==> LaneInv(l)
    ensures FromLanes(Drained(Lanes.Rings(lanes), start, limit).0, lanes)
  {
    var rings := Lanes.Rings(lanes);
    var (out, left) := Drained(rings, start, limit);
    Draining.DrainTakes(rings, start, limit);
    Draining.OneDrain(rings, start, limit);
    hide Drained, LaneInv, Draining.Of;
    forall item | item in out ensures item.ring < |lanes| && item.batch.tid == lanes[item.ring].tid {
      var k :| 0 <= k < |out| && out[k] == item;
      InOwnRing(out, k);
      var l := lanes[item.ring];
      WaitingTids(l);
      assert Draining.Of(out, item.ring) + left[item.ring] == l.ring;
      assert item.batch in l.ring;
    }
  }

  lemma {:induction false} OwnOfDrained(items: seq<Item>, lanes: seq<Lane>, i: nat)
    requires FromLanes(items, lanes) && OwnTids(lanes) && i < |lanes|
    ensures OwnBatches(BatchesOf(items), lanes[i].tid) == Draining.Of(items, i)
    decreases |items|
  {
    if items != [] {
      var front, last := items[..|items| - 1], items[|items| - 1];
      assert last in items;
      OwnOfDrained(front, lanes, i);
      var all := BatchesOf(front) + [last.batch];
      assert all[..|all| - 1] == BatchesOf(front);
      assert last.ring != i ==> lanes[last.ring].tid != lanes[i].tid;
    }
  }

  lemma StepPushes(t: History.Track, batch: Batch, capacity: u64)
    ensures History.Step(t, History.Push(batch), capacity).pushed == t.pushed + [batch]
  {
    hide History.Evicted, History.Overflow;
  }

  lemma {:induction false} PushAllKeeps(t: History.Track, items: seq<Item>, capacity: u64)
    requires History.Balanced(t)
    ensures History.Balanced(PushAll(t, items, capacity)) && PushAll(t, items, capacity).pushed == t.pushed + BatchesOf(items)
    decreases |items|
  {
    hide History.Balanced, History.Step;
    if items == [] {
      assert t.pushed + [] == t.pushed;
    } else {
      var front, last := items[..|items| - 1], items[|items| - 1];
      PushAllKeeps(t, front, capacity);
      History.StepBalances(PushAll(t, front, capacity), History.Push(last.batch), capacity);
      StepPushes(PushAll(t, front, capacity), last.batch, capacity);
      assert t.pushed + (BatchesOf(front) + [last.batch]) == t.pushed + BatchesOf(front) + [last.batch];
    }
  }

  lemma {:induction false} MembersOf(items: seq<Item>)
    ensures forall b :: b in BatchesOf(items) ==> exists item :: item in items && item.batch == b
    decreases |items|
  {
    if items != [] {
      var front, last := items[..|items| - 1], items[|items| - 1];
      MembersOf(front);
      assert items == front + [last];
      assert last in items;
    }
  }

  /** A lane keeps its tid and what was taken from it, unless it is drained. */
  predicate SameTaken(lanes: seq<Lane>, after: seq<Lane>) {
    && |lanes| <= |after|
    && forall i :: 0 <= i < |lanes| ==> after[i].tid == lanes[i].tid && after[i].taken == lanes[i].taken
  }

  lemma ProduceTakesNothing(s: System, a: Lanes.Action)
    requires Lanes.Enabled(s, a) && !a.Drain?
    ensures SameTaken(s.lanes, Lanes.Step(s, a).lanes)
    ensures var after := Lanes.Step(s, a).lanes;
            if a.Join? then |after| == |s.lanes| + 1 && after[|s.lanes|].tid == a.tid && after[|s.lanes|].taken == []
            else |after| == |s.lanes|
  {
    hide Producing.Push, Producing.Flush;
  }

  lemma {:induction false} NoneOwn(batches: seq<Batch>, tid: u32)
    requires forall b :: b in batches ==> b.tid != tid
    ensures OwnBatches(batches, tid) == []
    decreases |batches|
  {
    if batches != [] {
      assert batches[|batches| - 1] in batches;
      NoneOwn(batches[..|batches| - 1], tid);
    }
  }

  lemma ProduceKeeps(w: World, a: Lanes.Action, capacity: u64)
    requires Good(w) && Allowed(w, Produce(a))
    ensures Good(Next(w, Produce(a), capacity))
  {
    var u := Next(w, Produce(a), capacity);
    Lanes.StepKeepsInv(w.system, a);
    ProduceTakesNothing(w.system, a);
    if a.Join? {
      NoneOwn(w.track.pushed, a.tid);
    }
    hide Lanes.Step, Lanes.Inv, Lanes.Enabled, OwnBatches, History.Balanced;
    forall b | b in u.track.pushed ensures exists i :: 0 <= i < |u.system.lanes| && u.system.lanes[i].tid == b.tid {
      var i :| 0 <= i < |w.system.lanes| && w.system.lanes[i].tid == b.tid;
      assert u.system.lanes[i].tid == b.tid;
    }
  }

  lemma AbsorbIs(w: World, limit: nat, capacity: u64, out: seq<Item>, left: seq<seq<Batch>>)
    requires w.system.lanes != []
    requires (out, left) == Drained(Lanes.Rings(w.system.lanes), w.system.next % |w.system.lanes|, limit)
    ensures var u := Next(w, Absorb(limit), capacity);
            && u == World(Lanes.Step(w.system, Drain(limit)), PushAll(w.track, out, capacity))
            && TakenFrom(w.system.lanes, out, u.system.lanes)
  {
    hide Drained, PushAll;
  }

  /** A lane after a drain: its tid, and what was taken from it with what the drain took. */
  predicate TakenFrom(lanes: seq<Lane>, out: seq<Item>, after: seq<Lane>) {
    && |after| == |lanes|
    && forall i :: 0 <= i < |lanes| ==>
         after[i].tid == lanes[i].tid && after[i].taken == lanes[i].taken + Draining.Of(out, i)
  }

  lemma DrainedIsDelivered(w: World, u: World, out: seq<Item>)
    requires Delivered(w) && OwnTids(w.system.lanes) && FromLanes(out, w.system.lanes)
    requires u.track.pushed == w.track.pushed + BatchesOf(out) && TakenFrom(w.system.lanes, out, u.system.lanes)
    ensures Delivered(u) && OwnTids(u.system.lanes)
  {
    var lanes := w.system.lanes;
    hide FromLanes, OwnBatches, BatchesOf, Draining.Of;
    forall i: nat | i < |lanes| ensures OwnBatches(u.track.pushed, u.system.lanes[i].tid) == u.system.lanes[i].taken {
      OwnConcat(w.track.pushed, BatchesOf(out), lanes[i].tid);
      OwnOfDrained(out, lanes, i);
    }
  }

  lemma GoodParts(w: World)
    requires Good(w)
    ensures Lanes.Inv(w.system) && History.Balanced(w.track) && OwnTids(w.system.lanes) && Delivered(w) && Known(w)
  {
  }

  lemma AbsorbKeeps(w: World, limit: nat, capacity: u64)
    requires Good(w) && w.system.lanes != []
    ensures Good(Next(w, Absorb(limit), capacity))
  {
    var lanes, start := w.system.lanes, w.system.next % |w.system.lanes|;
    var (out, left) := Drained(Lanes.Rings(lanes), start, limit);
    var u := Next(w, Absorb(limit), capacity);
    hide Next, Lanes.Step, Drained, PushAll, TakenFrom, FromLanes, Delivered, Known, OwnTids, History.Balanced, BatchesOf;
    GoodParts(w);
    AbsorbIs(w, limit, capacity, out, left);
    Lanes.StepKeepsInv(w.system, Drain(limit));
    DrainedFromLanes(lanes, start, limit);
    hide Lanes.Inv, Lanes.LaneInv;
    PushAllKeeps(w.track, out, capacity);
    DrainedIsDelivered(w, u, out);
    DrainedIsKnown(w, u, out);
  }

  lemma DrainedIsKnown(w: World, u: World, out: seq<Item>)
    requires Known(w) && FromLanes(out, w.system.lanes) && u.track.pushed == w.track.pushed + BatchesOf(out)
    requires TakenFrom(w.system.lanes, out, u.system.lanes)
    ensures Known(u)
  {
    MembersOf(out);
    forall b | b in u.track.pushed ensures exists i :: 0 <= i < |u.system.lanes| && u.system.lanes[i].tid == b.tid {
      if b in w.track.pushed {
        var i :| 0 <= i < |w.system.lanes| && w.system.lanes[i].tid == b.tid;
        assert u.system.lanes[i].tid == b.tid;
      } else {
        var item :| item in out && item.batch == b;
        assert u.system.lanes[item.ring].tid == b.tid;
      }
    }
  }

  lemma NextKeeps(w: World, act: Act, capacity: u64)
    requires Good(w) && Allowed(w, act)
    ensures Good(Next(w, act, capacity))
  {
    match act
    case Produce(a) => ProduceKeeps(w, a, capacity);
    case Absorb(limit) =>
      if w.system.lanes != [] {
        AbsorbKeeps(w, limit, capacity);
      }
    case SetFloor(floor) =>
      History.StepBalances(w.track, History.SetFloor(floor), capacity);
      hide Lanes.Inv, History.Balanced, History.Evicted, OwnBatches;
  }

  /** What the history holds of a thread is what was drained from it, without the batches gone. */
  lemma HistoryHoldsTheNewest(w: World, i: nat)
    requires Good(w) && i < |w.system.lanes|
    ensures var l := w.system.lanes[i];
            var gone := |OwnBatches(w.track.gone, l.tid)|;
            gone <= |l.taken| && OwnBatches(w.track.ring.batches, l.tid) == l.taken[gone..]
  {
    var l := w.system.lanes[i];
    OwnConcat(w.track.gone, w.track.ring.batches, l.tid);
    hide OwnBatches, Lanes.Inv;
    assert OwnBatches(w.track.pushed, l.tid) == l.taken;
  }

  // ----- a lane later on -----

  function Shut(fates: seq<Fate>): (batches: seq<Batch>)
    ensures |batches| == |fates|
  {
    seq(|fates|, i requires 0 <= i < |fates| => fates[i].batch)
  }

  /** All of a lane's batches, the unfinished one last. */
  function AllOf(l: Lane): seq<Batch> {
    Shut(l.closed) + [Closed(l.live)]
  }

  predicate Continued(a: Batch, b: Batch) {
    a.base == b.base && a.tid == b.tid && a.events <= b.events
  }

  predicate Later(l: Lane, m: Lane) {
    && l.closed <= m.closed && l.pushed <= m.pushed && l.tid == m.tid
    && Continued(Closed(l.live), AllOf(m)[|l.closed|])
  }

  lemma LaterLater(a: Lane, b: Lane, c: Lane)
    requires Later(a, b) && Later(b, c)
    ensures Later(a, c)
  {
    if |a.closed| < |b.closed| {
      assert AllOf(b)[|a.closed|] == b.closed[|a.closed|].batch == c.closed[|a.closed|].batch == AllOf(c)[|a.closed|];
    }
  }

  lemma ProducesLater(s: System, a: Lanes.Action, i: nat)
    requires Lanes.Enabled(s, a) && i < |s.lanes|
    ensures |s.lanes| <= |Lanes.Step(s, a).lanes| && Later(s.lanes[i], Lanes.Step(s, a).lanes[i])
  {
    hide Drained, Offered, TickOf;
  }

  predicate Enables(w: World, run: seq<Act>, capacity: u64)
    decreases |run|
  {
    run == [] || (Allowed(w, run[0]) && Enables(Next(w, run[0], capacity), run[1..], capacity))
  }

  function Exec(w: World, run: seq<Act>, capacity: u64): World
    requires Enables(w, run, capacity)
    decreases |run|
  {
    if run == [] then w else Exec(Next(w, run[0], capacity), run[1..], capacity)
  }

  lemma {:induction false} RunsKeep(w: World, run: seq<Act>, capacity: u64)
    requires Good(w) && Enables(w, run, capacity)
    ensures Good(Exec(w, run, capacity))
    decreases |run|
  {
    if run != [] {
      NextKeeps(w, run[0], capacity);
      hide Good, Next, Allowed;
      RunsKeep(Next(w, run[0], capacity), run[1..], capacity);
    }
  }

  lemma NextIsLater(w: World, act: Act, capacity: u64, i: nat)
    requires Allowed(w, act) && i < |w.system.lanes|
    ensures |w.system.lanes| <= |Next(w, act, capacity).system.lanes|
    ensures Later(w.system.lanes[i], Next(w, act, capacity).system.lanes[i])
  {
    if act.Produce? {
      ProducesLater(w.system, act.a, i);
    } else if act.Absorb? {
      ProducesLater(w.system, Drain(act.limit), i);
    }
    hide Lanes.Step, Lanes.Enabled;
  }

  lemma {:induction false} RunsAreLater(w: World, run: seq<Act>, capacity: u64, i: nat)
    requires Enables(w, run, capacity) && i < |w.system.lanes|
    ensures i < |Exec(w, run, capacity).system.lanes| && Later(w.system.lanes[i], Exec(w, run, capacity).system.lanes[i])
    decreases |run|
  {
    if run != [] {
      var u := Next(w, run[0], capacity);
      NextIsLater(w, run[0], capacity, i);
      hide Next, Allowed, Later;
      RunsAreLater(u, run[1..], capacity, i);
      LaterLater(w.system.lanes[i], u.system.lanes[i], Exec(w, run, capacity).system.lanes[i]);
    }
  }

  // ----- the pushes, batch by batch -----

  /** No tick of the batch wraps, so plain addition gives the ticks that were pushed. */
  predicate Plain(b: Batch) {
    forall e :: e in b.events ==> b.base + e.deltaTicks < U64_SPAN
  }

  lemma PlainDecodes(b: Batch)
    requires Plain(b)
    ensures b.Marks() == BatchMarks(b)
  {
    if b.events != [] {
      assert b.events[0] in b.events;
      MarksMatchIff(b);
    }
  }

  lemma {:induction false} ClosedMarks(fates: seq<Fate>)
    requires forall f :: f in fates ==> Plain(f.batch)
    ensures Decoded(fates) == MarksOf(Shut(fates))
    decreases |fates|
  {
    if fates != [] {
      var front, last := fates[..|fates| - 1], fates[|fates| - 1];
      assert last in fates;
      ClosedMarks(front);
      PlainDecodes(last.batch);
      assert Shut(fates)[..|fates| - 1] == Shut(front);
    }
  }

  /** A lane whose ticks never wrap and whose ring never refused a batch. */
  predicate Untroubled(l: Lane) {
    (forall f :: f in l.closed ==> f.kept && Plain(f.batch)) && Plain(Closed(l.live))
  }

  lemma {:induction false} KeptAll(fates: seq<Fate>)
    requires forall f :: f in fates ==> f.kept
    ensures Kept(fates) == Shut(fates)
    decreases |fates|
  {
    if fates != [] {
      assert fates[|fates| - 1] in fates;
      KeptAll(fates[..|fates| - 1]);
      assert Shut(fates)[..|fates| - 1] == Shut(fates[..|fates| - 1]);
    }
  }

  lemma PushedAre(l: Lane)
    requires LaneInv(l) && Untroubled(l)
    ensures l.pushed == MarksOf(Shut(l.closed)) + Closed(l.live).Marks() == MarksOf(AllOf(l))
    ensures Shut(l.closed) == l.taken + l.ring
  {
    ClosedMarks(l.closed);
    PlainDecodes(Closed(l.live));
    KeptAll(l.closed);
    MarksConcat(Shut(l.closed), [Closed(l.live)]);
    OneBatch(Closed(l.live));
    assert l.live.base % U64_SPAN == l.live.base;
  }

  lemma StaysUntroubled(l: Lane, m: Lane)
    requires Later(l, m) && Untroubled(m)
    ensures Untroubled(l)
  {
    var k := |l.closed|;
    if k < |m.closed| {
      assert m.closed[k] in m.closed;
    }
    assert Plain(AllOf(m)[k]);
  }

  // ----- what a dump holds -----

  lemma PrefixOfRest(all: seq<Mark>, front: seq<Mark>, rest: seq<Mark>, piece: seq<Mark>)
    requires all == front + rest && piece <= rest
    ensures |front| + |piece| <= |all| && piece == all[|front|..|front| + |piece|]
  {
  }

  lemma MarksSplit(batches: seq<Batch>, i: nat, j: nat)
    requires i <= j <= |batches|
    ensures MarksOf(batches[..j]) == MarksOf(batches[..i]) + MarksOf(batches[i..j])
  {
    hide MarksOf;
    assert batches[..j] == batches[..i] + batches[i..j];
    MarksConcat(batches[..i], batches[i..j]);
  }

  lemma PieceOfAll(batches: seq<Batch>, i: nat, stream: seq<Mark>)
    requires i <= |batches| && stream <= MarksOf(batches[i..])
    ensures var from := |MarksOf(batches[..i])|; var all := MarksOf(batches);
            from + |stream| <= |all| && stream == all[from..from + |stream|]
  {
    hide MarksOf;
    assert batches[..i] + batches[i..] == batches;
    MarksConcat(batches[..i], batches[i..]);
    PrefixOfRest(MarksOf(batches), MarksOf(batches[..i]), MarksOf(batches[i..]), stream);
  }

  /** How far the batches from `i` up to `j` go and, unless one of them has its base, a copy of part of batch `k`. */
  lemma HowFar(batches: seq<Batch>, i: nat, j: nat, k: nat, tail: Batch, stream: seq<Mark>)
    requires i <= k <= j < |batches| && Continued(tail, batches[k])
    requires stream == MarksOf(batches[i..j]) + if Held(batches[i..j], tail) then [] else tail.Marks()
    ensures |MarksOf(batches[..k])| + |tail.events| <= |MarksOf(batches[..i])| + |stream|
            <==> k < j || tail.events == [] || !Held(batches[i..j], tail)
  {
    var held := batches[i..j];
    assert k < j ==> held[k - i].base == tail.base;
    hide MarksOf;
    MarksSplit(batches, i, j);
    if k < j {
      MarksUpTo(batches, k, j, tail);
    }
    hide Continued;
    assert |stream| == |MarksOf(held)| + if Held(held, tail) then 0 else |tail.events|;
  }

  lemma MarksUpTo(batches: seq<Batch>, k: nat, j: nat, tail: Batch)
    requires k < j <= |batches| && Continued(tail, batches[k])
    ensures |MarksOf(batches[..k])| + |tail.events| <= |MarksOf(batches[..j])|
  {
    assert batches[..k + 1][..k] == batches[..k];
    assert batches[..j] == batches[..k + 1] + batches[k + 1..j];
    MarksConcat(batches[..k + 1], batches[k + 1..j]);
  }

  /** How many of a thread's batches have left the history. */
  function GoneOf(w: World, tid: u32): nat {
    |OwnBatches(w.track.gone, tid)|
  }

  /** What a dump made now replays of a thread. */
  function StreamNow(w: World, tails: seq<Batch>, tid: u32): seq<Mark> {
    Assemble.StreamOf(w.track.ring.batches + Assemble.Fresh(w.track.ring.batches, tails), tid)
  }

  /**
   Exactly what a dump of any run replays of a thread, whatever was refused, evicted or given up on: the batches the
   history still holds of those drained from it, and behind them the tail, if one was read and none of them has its base.
   The tail is a copy of the start of the batch that came after those closed when it was read.
   */
  lemma DumpHoldsExactly(before: seq<Act>, after: seq<Act>, capacity: u64, i: nat, tails: seq<Batch>)
    requires Enables(START, before, capacity) && Enables(Exec(START, before, capacity), after, capacity)
    requires i < |Exec(START, before, capacity).system.lanes|
    requires var l := Exec(START, before, capacity).system.lanes[i];
             OwnBatches(tails, l.tid) == [] || OwnBatches(tails, l.tid) == [Closed(l.live)]
    ensures var v := Exec(START, before, capacity); var w := Exec(v, after, capacity);
            && i < |w.system.lanes|
            && var l, m := v.system.lanes[i], w.system.lanes[i];
               var gone := GoneOf(w, l.tid);
               && gone <= |m.taken| && Kept(m.closed) == m.taken + m.ring
               && StreamNow(w, tails, l.tid) == Replayed(m.taken[gone..], OwnBatches(tails, l.tid))
               && |l.closed| < |AllOf(m)| && Continued(Closed(l.live), AllOf(m)[|l.closed|])
  {
    var v := Exec(START, before, capacity);
    RunsKeep(START, before, capacity);
    RunsKeep(v, after, capacity);
    RunsAreLater(v, after, capacity, i);
    hide Exec, Enables;
    var w := Exec(v, after, capacity);
    HistoryHoldsTheNewest(w, i);
    StreamIsReplayed(w, v.system.lanes[i], w.system.lanes[i], tails);
    assert LaneInv(w.system.lanes[i]);
  }

  /** A thread's batches in the history, and its tail unless it is the start of one of them or passes for it. */
  ghost function Replayed(held: seq<Batch>, tails: seq<Batch>): seq<Mark> {
    if tails == [] || Held(held, tails[0]) then MarksOf(held) else MarksOf(held) + tails[0].Marks()
  }

  lemma StreamIsReplayed(w: World, l: Lane, m: Lane, tails: seq<Batch>)
    requires l.tid == m.tid && LaneInv(l) && GoneOf(w, m.tid) <= |m.taken|
    requires OwnBatches(w.track.ring.batches, m.tid) == m.taken[GoneOf(w, m.tid)..]
    requires OwnBatches(tails, l.tid) == [] || OwnBatches(tails, l.tid) == [Closed(l.live)]
    ensures StreamNow(w, tails, l.tid) == Replayed(m.taken[GoneOf(w, m.tid)..], OwnBatches(tails, l.tid))
  {
    var held, history := m.taken[GoneOf(w, m.tid)..], w.track.ring.batches;
    assert l.live.tid == l.tid;
    hide LaneInv, GoneOf;
    if OwnBatches(tails, l.tid) == [] {
      StreamIsOwnMarks(history + Assemble.Fresh(history, tails), l.tid);
      OwnConcat(history, Assemble.Fresh(history, tails), l.tid);
      FreshOwn(history, tails, l.tid);
      assert held + [] == held;
    } else {
      CapturedStream(l.tid, held, Closed(l.live), history, tails);
      hide MarksOf;
      assert MarksOf(held) + [] == MarksOf(held);
    }
  }

  /**
   The lane was `l` when its tail was read and is `m` now, all it had closed absorbed; the batch the tail was read from
   has not been evicted, and no batch was ever refused.
   */
  ghost predicate Captured(w: World, l: Lane, m: Lane, tails: seq<Batch>) {
    && OwnBatches(tails, l.tid) == [Closed(l.live)]
    && m.ring == [] && Untroubled(m) && GoneOf(w, l.tid) <= |l.closed|
  }

  /** A piece of what the thread pushed that starts where the batches gone end. */
  predicate Piece(w: World, m: Lane, stream: seq<Mark>) {
    GoneOf(w, m.tid) <= |m.taken| &&
    var from := |MarksOf(m.taken[..GoneOf(w, m.tid)])|;
    from + |stream| <= |m.pushed| && stream == m.pushed[from..from + |stream|]
  }

  /** The piece goes as far as the thread had pushed when its tail was read. */
  predicate Reaches(w: World, l: Lane, m: Lane, stream: seq<Mark>) {
    GoneOf(w, m.tid) <= |m.taken| && |l.pushed| <= |MarksOf(m.taken[..GoneOf(w, m.tid)])| + |stream|
  }

  /** The tail was of a batch still unfinished, and the history holds an older batch of the thread with its base. */
  ghost predicate Hidden(w: World, l: Lane, m: Lane) {
    && |l.closed| == |m.closed| && l.live.events != []
    && exists b :: b in w.track.ring.batches && b.tid == l.tid && b.base == l.live.base
  }

  /**
   A dump of any run, for a thread whose tail was read at some instant of it: the stream replayed is a gapless piece
   of the thread's pushes, starting where the batches gone end; and it reaches as far as the pushes made when the tail
   was read exactly when the tail is not hidden behind an older batch with its base.
   */
  lemma DumpsAreGapless(before: seq<Act>, after: seq<Act>, capacity: u64, i: nat, tails: seq<Batch>)
    requires Enables(START, before, capacity) && Enables(Exec(START, before, capacity), after, capacity)
    requires i < |Exec(START, before, capacity).system.lanes|
    requires var v := Exec(START, before, capacity); var w := Exec(v, after, capacity);
             i < |w.system.lanes| ==> Captured(w, v.system.lanes[i], w.system.lanes[i], tails)
    ensures var v := Exec(START, before, capacity); var w := Exec(v, after, capacity);
            && i < |w.system.lanes|
            && var l, m := v.system.lanes[i], w.system.lanes[i];
               var stream := StreamNow(w, tails, l.tid);
               Piece(w, m, stream) && (Reaches(w, l, m, stream) <==> !Hidden(w, l, m))
  {
    var v := Exec(START, before, capacity);
    RunsKeep(START, before, capacity);
    RunsKeep(v, after, capacity);
    RunsAreLater(v, after, capacity, i);
    hide Exec, Enables, Good, Later, Captured, Piece, Reaches, Hidden;
    DumpIsGapless(v, Exec(v, after, capacity), i, tails);
  }

  lemma DumpIsGapless(v: World, w: World, i: nat, tails: seq<Batch>)
    requires Good(v) && Good(w) && i < |v.system.lanes| && i < |w.system.lanes|
    requires Later(v.system.lanes[i], w.system.lanes[i]) && Captured(w, v.system.lanes[i], w.system.lanes[i], tails)
    ensures var l, m := v.system.lanes[i], w.system.lanes[i];
            var stream := StreamNow(w, tails, l.tid);
            Piece(w, m, stream) && (Reaches(w, l, m, stream) <==> !Hidden(w, l, m))
  {
    var l, m := v.system.lanes[i], w.system.lanes[i];
    HistoryHoldsTheNewest(w, i);
    StaysUntroubled(l, m);
    assert LaneInv(l) && LaneInv(m) && l.live.tid == l.tid;
    PushedAre(l);
    PushedAre(m);
    hide Good, LaneInv, Untroubled, OwnBatches, MarksOf;
    assert m.taken + [] == m.taken;
    LaneIsCaptured(w, l, m, tails);
  }

  lemma LaneIsCaptured(w: World, l: Lane, m: Lane, tails: seq<Batch>)
    requires Later(l, m) && l.live.tid == l.tid
    requires OwnBatches(tails, l.tid) == [Closed(l.live)] && GoneOf(w, l.tid) <= |l.closed|
    requires m.taken == Shut(m.closed) && OwnBatches(w.track.ring.batches, m.tid) == m.taken[GoneOf(w, m.tid)..]
    requires l.pushed == MarksOf(Shut(l.closed)) + Closed(l.live).Marks() && m.pushed == MarksOf(AllOf(m))
    ensures var stream := StreamNow(w, tails, l.tid);
            Piece(w, m, stream) && (Reaches(w, l, m, stream) <==> !Hidden(w, l, m))
  {
    var gone, tail, batches := GoneOf(w, l.tid), Closed(l.live), AllOf(m);
    var held := m.taken[gone..];
    LaneParts(l, m, gone);
    hide OwnBatches, MarksOf, Held, Shut, AllOf, GoneOf, Later;
    HeldIs(w.track.ring.batches, l.tid, held, tail);
    var stream := StreamNow(w, tails, l.tid);
    CapturedPieceIsGapless(l.tid, batches, gone, |m.closed|, |l.closed|, tail, w.track.ring.batches, tails);
    PieceOfAll(batches, gone, stream);
    HowFar(batches, gone, |m.closed|, |l.closed|, tail, stream);
  }

  lemma LaneParts(l: Lane, m: Lane, gone: nat)
    requires Later(l, m) && m.taken == Shut(m.closed) && gone <= |m.taken|
    ensures |AllOf(m)| == |m.closed| + 1 && |l.closed| <= |m.closed| == |m.taken|
    ensures AllOf(m)[gone..|m.closed|] == m.taken[gone..] && AllOf(m)[..gone] == m.taken[..gone]
    ensures AllOf(m)[..|l.closed|] == Shut(l.closed) && Continued(Closed(l.live), AllOf(m)[|l.closed|]) && l.tid == m.tid
  {
  }

  lemma HeldIs(history: seq<Batch>, tid: u32, held: seq<Batch>, tail: Batch)
    requires OwnBatches(history, tid) == held
    ensures Held(held, tail) <==> exists b :: b in history && b.tid == tid && b.base == tail.base
  {
    OwnMembers(history, tid);
    if b :| b in history && b.tid == tid && b.base == tail.base {
      assert b in held;
    }
  }

  // ----- a tail hidden behind a flush -----

  const FIRST: PackedEvent := PackedEvent(0, 0)
  const FLUSHED: Batch := Batch(1, 5, [FIRST], BATCH_N)
  const ROOM: u64 := 1_000_000

  /** A thread that pushed at tick 1 and flushed. */
  function Flushed(): Lane {
    Lane(5, Live(1, 5, []), [FLUSHED], [], [Fate(FLUSHED, true)], [Mark(1, 0)])
  }

  /** Its batch is in the history, and it has pushed again at tick 2. */
  function Continuing(): Lane {
    Lane(5, Live(1, 5, [PackedEvent(1, 0)]), [], [FLUSHED], [Fate(FLUSHED, true)], [Mark(1, 0), Mark(2, 0)])
  }

  function Absorbed(): History.Track {
    History.Track(History.State([FLUSHED], None, 0, 0), [FLUSHED], [], [], [])
  }

  lemma StartsAndFlushes()
    ensures var w := World(System([Flushed()], 0, 0), History.FRESH);
            && Allowed(START, Produce(Join(5, 1, 0)))
            && var v := Next(START, Produce(Join(5, 1, 0)), ROOM);
               Allowed(v, Produce(Flush(0))) && Next(v, Produce(Flush(0)), ROOM) == w
  {
    var l := Lane(5, Live(1, 5, [FIRST]), [], [], [], [Mark(1, 0)]);
    assert [] + [l] == [l] && [l][0 := Flushed()] == [Flushed()];
    assert Next(START, Produce(Join(5, 1, 0)), ROOM) == World(System([l], 0, 0), History.FRESH);
    assert FlushLane(l) == Flushed();
  }

  lemma TakesTheFlushed()
    ensures Drained([[FLUSHED]], 0, 1) == ([Item(0, FLUSHED)], [[]])
  {
    var rings := [[FLUSHED]];
    assert Takes(1, 0, 1) == 1 && Turn(0, 0, 1) == 0;
    assert [] + Items(0, rings[0][..1]) == [Item(0, FLUSHED)];
    assert rings[0][1..] == [] && rings[0 := []] == [[]];
  }

  lemma KeepsTheFlushed()
    ensures PushAll(History.FRESH, [Item(0, FLUSHED)], ROOM) == Absorbed()
  {
    var items, held := [Item(0, FLUSHED)], [FLUSHED];
    assert items[..0] == [] && [] + held == held && held[0..] == held && held[..0] == [];
    assert History.Settled(held, ROOM, None);
    History.FewestIsUnique(held, 0, History.Surplus(held, ROOM, None), ROOM, None);
  }

  lemma AbsorbsAndContinues()
    ensures var v := World(System([Flushed()], 0, 0), History.FRESH);
            && Allowed(v, Absorb(1))
            && var w := Next(v, Absorb(1), ROOM);
               && Allowed(w, Produce(Push(0, true, 2, 0)))
               && Next(w, Produce(Push(0, true, 2, 0)), ROOM) == World(System([Continuing()], 1, 0), Absorbed())
  {
    var v := World(System([Flushed()], 0, 0), History.FRESH);
    TakesTheFlushed();
    KeepsTheFlushed();
    assert Lanes.Rings([Flushed()]) == [[FLUSHED]];
    var taken := Flushed().(ring := [], taken := [FLUSHED]);
    OneTaken();
    assert TakeFrom([Flushed()], [Item(0, FLUSHED)], [[]]) == [taken];
    hide Drained, PushAll;
    assert Next(v, Absorb(1), ROOM) == World(System([taken], 1, 0), Absorbed());
    assert PushLane(taken, true, 2, 0) == Continuing();
  }

  lemma OneTaken()
    ensures Draining.Of([Item(0, FLUSHED)], 0) == [FLUSHED] && [] + [FLUSHED] == [FLUSHED]
  {
    assert [Item(0, FLUSHED)][..0] == [];
  }

  function Hides(): seq<Act> {
    [Produce(Join(5, 1, 0)), Produce(Flush(0)), Absorb(1), Produce(Push(0, true, 2, 0))]
  }

  lemma HidesLeadsThere()
    ensures Enables(START, Hides(), ROOM) && Exec(START, Hides(), ROOM) == World(System([Continuing()], 1, 0), Absorbed())
  {
    StartsAndFlushes();
    AbsorbsAndContinues();
    var run := Hides();
    assert run[1..] == [run[1], run[2], run[3]] && run[1..][1..] == [run[2], run[3]];
    assert [run[2], run[3]][1..] == [run[3]] && [run[3]][1..] == [];
    hide Next, Allowed;
  }

  /**
   It happens: a thread that pushes, flushes and pushes again keeps its base, so once the flushed batch is in the
   history a dump leaves out the tail, and with it the push at tick 2.
   */
  lemma FlushHidesTheTail(tails: seq<Batch>)
    requires OwnBatches(tails, 5) == [Closed(Continuing().live)]
    ensures Enables(START, Hides(), ROOM)
    ensures var w := Exec(START, Hides(), ROOM);
            && w.system.lanes == [Continuing()] && Captured(w, Continuing(), Continuing(), tails)
            && Hidden(w, Continuing(), Continuing()) && StreamNow(w, tails, 5) == [Mark(1, 0)]
  {
    HidesLeadsThere();
    var w := Exec(START, Hides(), ROOM);
    hide Exec, Enables, Hides;
    TailIsHidden(w, tails);
  }

  lemma TailIsHidden(w: World, tails: seq<Batch>)
    requires w == World(System([Continuing()], 1, 0), Absorbed()) && OwnBatches(tails, 5) == [Closed(Continuing().live)]
    ensures Captured(w, Continuing(), Continuing(), tails)
    ensures Hidden(w, Continuing(), Continuing()) && StreamNow(w, tails, 5) == [Mark(1, 0)]
  {
    var tail := Closed(Continuing().live);
    OnlyFlushed();
    NothingGone(w);
    assert FLUSHED in w.track.ring.batches;
    assert [FLUSHED][0].base == tail.base && Held([FLUSHED], tail);
    hide OwnBatches, MarksOf, Untroubled, GoneOf, Held;
    CapturedStream(5, [FLUSHED], tail, w.track.ring.batches, tails);
    assert MarksOf([FLUSHED]) + [] == [Mark(1, 0)];
  }

  lemma NothingGone(w: World)
    requires w.track == Absorbed()
    ensures GoneOf(w, 5) == 0 && Untroubled(Continuing())
  {
  }

  lemma OnlyFlushed()
    ensures OwnBatches([FLUSHED], 5) == [FLUSHED] && MarksOf([FLUSHED]) == [Mark(1, 0)]
  {
    assert [FLUSHED][..0] == [];
    assert [] + [FLUSHED] == [FLUSHED];
    OneBatch(FLUSHED);
    assert FLUSHED.Marks() == [Mark(1, 0)];
  }
}
