/** Producers and the consumer together: every run of joins, pushes, flushes and drains on one queue. */
module Lanes {
  import opened Words
  import opened Events
  import opened Batches
  import opened Queue
  import opened Producing
  import Draining

  /** A batch that was closed, and whether its ring took it. */
  datatype Fate = Fate(batch: Batch, kept: bool)

  /** One thread's side of the queue. `taken`, `closed` and `pushed` are history. */
  datatype Lane = Lane(tid: u32, live: Live, ring: seq<Batch>, taken: seq<Batch>, closed: seq<Fate>, pushed: seq<Mark>)

  datatype System = System(lanes: seq<Lane>, next: nat, dropped: nat)

  datatype Action =
    | Join(tid: u32, ticks: u64, codeKind: u32)
    | Push(lane: nat, sameRun: bool, ticks: u64, codeKind: u32)
    | Flush(lane: nat)
    | Drain(limit: nat)

  // ----- decoding -----

  function MarkOf(base: u64, e: PackedEvent): Mark {
    Mark(TickOf(base, e), e.codeKind)
  }

  function Decode(base: u64, events: seq<PackedEvent>): (marks: seq<Mark>)
    ensures |marks| == |events|
  {
    seq(|events|, i requires 0 <= i < |events| => MarkOf(base, events[i]))
  }

  function BatchMarks(batch: Batch): seq<Mark> {
    Decode(batch.base % U64_SPAN, batch.events)
  }

  function Decoded(fates: seq<Fate>): seq<Mark> {
    if fates == [] then [] else Decoded(fates[..|fates| - 1]) + BatchMarks(fates[|fates| - 1].batch)
  }

  function Kept(fates: seq<Fate>): seq<Batch> {
    if fates == [] then []
    else Kept(fates[..|fates| - 1]) + if fates[|fates| - 1].kept then [fates[|fates| - 1].batch] else []
  }

  function Lost(fates: seq<Fate>): nat {
    if fates == [] then 0
    else Lost(fates[..|fates| - 1]) + if fates[|fates| - 1].kept then 0 else |fates[|fates| - 1].batch.events|
  }

  // ----- steps -----

  function Rings(lanes: seq<Lane>): (rings: seq<seq<Batch>>)
    ensures |rings| == |lanes|
  {
    seq(|lanes|, i requires 0 <= i < |lanes| => lanes[i].ring)
  }

  function Close(l: Lane, e: Effect): Lane {
    l.(live := e.live, ring := e.ring, closed := l.closed + [Fate(Closed(l.live), |l.ring| < BATCHES_CAPACITY)])
  }

  function PushLane(l: Lane, sameRun: bool, ticks: u64, codeKind: u32): Lane {
    var e := Producing.Push(l.live, l.ring, sameRun, ticks, l.tid, codeKind);
    var after := if Fits(l.live, sameRun, ticks) then l.(live := e.live, ring := e.ring) else Close(l, e);
    after.(pushed := l.pushed + [Mark(ticks, codeKind)])
  }

  function FlushLane(l: Lane): Lane {
    if l.live.events == [] then l else Close(l, Producing.Flush(l.live, l.ring))
  }

  function TakeFrom(lanes: seq<Lane>, out: seq<Item>, left: seq<seq<Batch>>): (after: seq<Lane>)
    requires |left| == |lanes|
    ensures |after| == |lanes|
  {
    seq(|lanes|, i requires 0 <= i < |lanes| => lanes[i].(ring := left[i], taken := lanes[i].taken + Draining.Of(out, i)))
  }

  predicate Enabled(s: System, a: Action) {
    match a
    case Push(i, _, _, _) => i < |s.lanes|
    case Flush(i) => i < |s.lanes|
    case _ => true
  }

  function Step(s: System, a: Action): System
    requires Enabled(s, a)
  {
    match a
    case Join(tid, ticks, codeKind) =>
      var l := Lane(tid, Live(ticks, tid, [PackedEvent(0, codeKind)]), [], [], [], [Mark(ticks, codeKind)]);
      s.(lanes := s.lanes + [l])
    case Push(i, sameRun, ticks, codeKind) =>
      var l := s.lanes[i];
      var e := Producing.Push(l.live, l.ring, sameRun, ticks, l.tid, codeKind);
      s.(lanes := s.lanes[i := PushLane(l, sameRun, ticks, codeKind)], dropped := s.dropped + e.dropped)
    case Flush(i) =>
      var l := s.lanes[i];
      s.(lanes := s.lanes[i := FlushLane(l)], dropped := s.dropped + Producing.Flush(l.live, l.ring).dropped)
    case Drain(limit) =>
      if s.lanes == [] then s
      else
        var (out, left) := Drained(Rings(s.lanes), s.next % |s.lanes|, limit);
        s.(lanes := TakeFrom(s.lanes, out, left), next := s.next + 1)
  }

  // ----- what every run keeps -----

  /**
   One lane: the closed batches and the unfinished one spell out the pushes, tick for tick and in order; the kept
   ones are those drained followed by those waiting; the cursor and the ring stay within bounds.
   */
  predicate LaneInv(l: Lane) {
    && Decoded(l.closed) + Decode(l.live.base, l.live.events) == l.pushed
    && Kept(l.closed) == l.taken + l.ring
    && |l.live.events| <= BATCH_N && |l.ring| <= BATCHES_CAPACITY
    && l.live.tid == l.tid && (forall f :: f in l.closed ==> f.batch.tid == l.tid)
  }

  function LostBy(l: Lane): nat { Lost(l.closed) }
  function PushedBy(l: Lane): nat { |l.pushed| }
  function DrainedFrom(l: Lane): nat { EventsIn(l.taken) }
  function WaitingIn(l: Lane): nat { EventsIn(l.ring) }
  function LiveIn(l: Lane): nat { |l.live.events| }

  function Sum(f: Lane -> nat, lanes: seq<Lane>): nat {
    if lanes == [] then 0 else Sum(f, lanes[..|lanes| - 1]) + f(lanes[|lanes| - 1])
  }

  predicate Inv(s: System) {
    && (forall l :: l in s.lanes ==> LaneInv(l))
    && s.dropped == Sum(LostBy, s.lanes)
  }

  lemma DecodeAppend(base: u64, events: seq<PackedEvent>, e: PackedEvent)
    ensures Decode(base, events + [e]) == Decode(base, events) + [MarkOf(base, e)]
  {
    hide MarkOf;
  }

  lemma CloseKeeps(l: Lane, e: Effect)
    requires LaneInv(l) && e.ring == Offered(l.ring, Closed(l.live))
    ensures var c := Close(l, e);
            && Decoded(c.closed) == l.pushed
            && Kept(c.closed) == l.taken + e.ring
            && Lost(c.closed) == Lost(l.closed) + (if |l.ring| < BATCHES_CAPACITY then 0 else |l.live.events|)
  {
    var c := Close(l, e);
    assert c.closed[..|c.closed| - 1] == l.closed;
    hide Decode;
    assert l.taken + (l.ring + [Closed(l.live)]) == l.taken + l.ring + [Closed(l.live)];
    assert l.live.base % U64_SPAN == l.live.base;
  }

  lemma PushKeeps(l: Lane, sameRun: bool, ticks: u64, codeKind: u32)
    requires LaneInv(l)
    ensures LaneInv(PushLane(l, sameRun, ticks, codeKind))
    ensures LostBy(PushLane(l, sameRun, ticks, codeKind))
         == LostBy(l) + Producing.Push(l.live, l.ring, sameRun, ticks, l.tid, codeKind).dropped
  {
    hide TickOf, Decoded, Kept, Lost, Decode;
    var e := Producing.Push(l.live, l.ring, sameRun, ticks, l.tid, codeKind);
    var delta := WrappingSub(ticks, l.live.base);
    if Fits(l.live, sameRun, ticks) {
      DeltaDecodes(l.live.base, ticks, codeKind);
      DecodeAppend(l.live.base, l.live.events, PackedEvent(delta, codeKind));
      var before, last := Decode(l.live.base, l.live.events), [Mark(ticks, codeKind)];
      assert Decoded(l.closed) + (before + last) == Decoded(l.closed) + before + last;
    } else {
      CloseKeeps(l, e);
      FirstOfBatch(ticks, codeKind);
    }
  }

  lemma FirstOfBatch(ticks: u64, codeKind: u32)
    ensures Decode(ticks, [PackedEvent(0, codeKind)]) == [Mark(ticks, codeKind)]
  {
    assert WrappingSub(ticks, ticks) == 0;
    DeltaDecodes(ticks, ticks, codeKind);
  }

  lemma FlushKeeps(l: Lane)
    requires LaneInv(l)
    ensures LaneInv(FlushLane(l))
    ensures LostBy(FlushLane(l)) == LostBy(l) + Producing.Flush(l.live, l.ring).dropped
  {
    hide TickOf, Decoded, Kept, Lost;
    if l.live.events != [] {
      CloseKeeps(l, Producing.Flush(l.live, l.ring));
      assert l.pushed + [] == l.pushed;
    }
  }

  lemma TakeKeeps(lanes: seq<Lane>, out: seq<Item>, left: seq<seq<Batch>>, i: nat)
    requires |left| == |lanes| && i < |lanes| && LaneInv(lanes[i])
    requires Draining.Of(out, i) + left[i] == lanes[i].ring
    ensures LaneInv(TakeFrom(lanes, out, left)[i])
    ensures LostBy(TakeFrom(lanes, out, left)[i]) == LostBy(lanes[i])
  {
    hide TickOf, Decoded, Kept, Lost, Draining.Of, Decode;
    var l := lanes[i];
    assert l.taken + (Draining.Of(out, i) + left[i]) == l.taken + Draining.Of(out, i) + left[i];
  }

  // ----- sums over lanes -----

  lemma {:induction false} SumUpdate(f: Lane -> nat, lanes: seq<Lane>, i: nat, l: Lane)
    requires i < |lanes|
    ensures Sum(f, lanes[i := l]) + f(lanes[i]) == Sum(f, lanes) + f(l)
    decreases |lanes|
  {
    var last := |lanes| - 1;
    if i < last {
      assert lanes[i := l][..last] == lanes[..last][i := l];
      SumUpdate(f, lanes[..last], i, l);
    } else {
      assert lanes[i := l][..last] == lanes[..last];
    }
  }

  lemma {:induction false} SumSame(f: Lane -> nat, a: seq<Lane>, b: seq<Lane>)
    requires |a| == |b| && forall i :: 0 <= i < |a| ==> f(a[i]) == f(b[i])
    ensures Sum(f, a) == Sum(f, b)
    decreases |a|
  {
    if a != [] {
      SumSame(f, a[..|a| - 1], b[..|b| - 1]);
    }
  }

  // ----- runs -----

  lemma LaneStepKeepsInv(s: System, i: nat, l: Lane, dropped: nat)
    requires Inv(s) && i < |s.lanes| && LaneInv(l) && LostBy(l) == LostBy(s.lanes[i]) + dropped
    ensures Inv(s.(lanes := s.lanes[i := l], dropped := s.dropped + dropped))
  {
    hide LaneInv, LostBy;
    SumUpdate(LostBy, s.lanes, i, l);
  }

  lemma JoinKeepsInv(s: System, tid: u32, ticks: u64, codeKind: u32)
    requires Inv(s)
    ensures Inv(Step(s, Join(tid, ticks, codeKind)))
  {
    var after := Step(s, Join(tid, ticks, codeKind));
    var l := after.lanes[|s.lanes|];
    FirstOfBatch(ticks, codeKind);
    assert LaneInv(l);
    hide LaneInv;
    assert after.lanes[..|s.lanes|] == s.lanes;
  }

  lemma DrainKeepsInv(s: System, limit: nat)
    requires Inv(s)
    ensures Inv(Step(s, Drain(limit)))
  {
    if s.lanes != [] {
      var rings, start := Rings(s.lanes), s.next % |s.lanes|;
      var (out, left) := Drained(rings, start, limit);
      Draining.OneDrain(rings, start, limit);
      var after := TakeFrom(s.lanes, out, left);
      forall i: nat | i < |s.lanes| ensures LaneInv(after[i]) && LostBy(after[i]) == LostBy(s.lanes[i]) {
        assert Draining.Of(out, i) + left[i] == rings[i];
        TakeKeeps(s.lanes, out, left, i);
      }
      hide LaneInv, LostBy, TakeFrom, Drained;
      SumSame(LostBy, s.lanes, after);
    }
  }

  lemma StepKeepsInv(s: System, a: Action)
    requires Inv(s) && Enabled(s, a)
    ensures Inv(Step(s, a))
  {
    hide LaneInv, LostBy, PushLane, FlushLane;
    match a
    case Join(tid, ticks, codeKind) => JoinKeepsInv(s, tid, ticks, codeKind);
    case Push(i, sameRun, ticks, codeKind) =>
      var l := s.lanes[i];
      PushKeeps(l, sameRun, ticks, codeKind);
      LaneStepKeepsInv(s, i, PushLane(l, sameRun, ticks, codeKind),
                       Producing.Push(l.live, l.ring, sameRun, ticks, l.tid, codeKind).dropped);
    case Flush(i) =>
      var l := s.lanes[i];
      FlushKeeps(l);
      LaneStepKeepsInv(s, i, FlushLane(l), Producing.Flush(l.live, l.ring).dropped);
    case Drain(limit) => DrainKeepsInv(s, limit);
  }

  predicate Enables(s: System, run: seq<Action>)
    decreases |run|
  {
    run == [] || (Enabled(s, run[0]) && Enables(Step(s, run[0]), run[1..]))
  }

  function Exec(s: System, run: seq<Action>): System
    requires Enables(s, run)
    decreases |run|
  {
    if run == [] then s else Exec(Step(s, run[0]), run[1..])
  }

  lemma {:induction false} RunsKeepInv(s: System, run: seq<Action>)
    requires Inv(s) && Enables(s, run)
    ensures Inv(Exec(s, run))
    decreases |run|
  {
    if run != [] {
      StepKeepsInv(s, run[0]);
      hide Inv, Step;
      RunsKeepInv(Step(s, run[0]), run[1..]);
    }
  }

  // ----- conservation -----

  lemma {:induction false} ClosedAddsUp(fates: seq<Fate>)
    ensures |Decoded(fates)| == EventsIn(Kept(fates)) + Lost(fates)
    decreases |fates|
  {
    if fates != [] {
      var front, last := fates[..|fates| - 1], fates[|fates| - 1];
      ClosedAddsUp(front);
      if last.kept {
        assert (Kept(front) + [last.batch])[..|Kept(front)|] == Kept(front);
      } else {
        assert Kept(front) + [] == Kept(front);
      }
    }
  }

  lemma LaneConserves(l: Lane)
    requires LaneInv(l)
    ensures PushedBy(l) == DrainedFrom(l) + WaitingIn(l) + LiveIn(l) + LostBy(l)
  {
    ClosedAddsUp(l.closed);
    EventsInConcat(l.taken, l.ring);
  }

  lemma {:induction false} LanesConserve(lanes: seq<Lane>)
    requires forall l :: l in lanes ==> LaneInv(l)
    ensures Sum(PushedBy, lanes)
         == Sum(DrainedFrom, lanes) + Sum(WaitingIn, lanes) + Sum(LiveIn, lanes) + Sum(LostBy, lanes)
    decreases |lanes|
  {
    if lanes != [] {
      LaneConserves(lanes[|lanes| - 1]);
      hide LaneInv;
      LanesConserve(lanes[..|lanes| - 1]);
    }
  }

  /**
   Every run on a new queue: each event pushed has been drained, or waits in a ring, or is in a live batch, or
   was counted as dropped; and per thread, the drained and waiting batches are the closed ones the ring took, in
   order, while all closed batches and the live one decode to exactly the pushes.
   */
  lemma RunsConserve(run: seq<Action>)
    requires Enables(System([], 0, 0), run)
    ensures var s := Exec(System([], 0, 0), run);
            && Sum(PushedBy, s.lanes)
            == Sum(DrainedFrom, s.lanes) + Sum(WaitingIn, s.lanes) + Sum(LiveIn, s.lanes) + s.dropped
            && forall l :: l in s.lanes ==> LaneInv(l)
  {
    RunsKeepInv(System([], 0, 0), run);
    LanesConserve(Exec(System([], 0, 0), run).lanes);
  }

  /** Decoding by plain addition, as the recorder and the exporters do it, is exact just when no tick wraps. */
  lemma MarksMatchIff(batch: Batch)
    requires batch.base < U64_SPAN
    ensures batch.Marks() == BatchMarks(batch) <==> forall e :: e in batch.events ==> batch.base + e.deltaTicks < U64_SPAN
  {
    forall i | 0 <= i < |batch.events|
      ensures batch.Marks()[i] == BatchMarks(batch)[i] <==> batch.base + batch.events[i].deltaTicks < U64_SPAN
    {
      assert batch.events[i] in batch.events;
    }
  }
}

/** Who gets served when drains and pushes interleave. */
module Fairness {
  import opened Batches
  import opened Queue
  import opened Draining

  datatype Act = Take(limit: nat) | Put(ring: nat, batch: Batch)

  function Rings(rings: seq<seq<Batch>>, next: nat, act: Act): seq<seq<Batch>>
    requires rings != [] && (act.Put? ==> act.ring < |rings|)
  {
    match act
    case Take(limit) => Drained(rings, next % |rings|, limit).1
    case Put(i, batch) => rings[i := Offered(rings[i], batch)]
  }

  function Next(next: nat, act: Act): nat {
    if act.Take? then next + 1 else next
  }

  predicate Within(run: seq<Act>, n: nat) {
    forall act :: act in run && act.Put? ==> act.ring < n
  }

  /** The batches a run takes from ring `r`, in order. */
  function Served(rings: seq<seq<Batch>>, next: nat, run: seq<Act>, r: nat): seq<Batch>
    requires rings != [] && Within(run, |rings|)
    decreases |run|
  {
    if run == [] then []
    else
      assert run[0] in run;
      var now := if run[0].Take? then Of(Drained(rings, next % |rings|, run[0].limit).0, r) else [];
      now + Served(Rings(rings, next, run[0]), Next(next, run[0]), run[1..], r)
  }

  function Drains(run: seq<Act>): nat {
    if run == [] then 0 else Drains(run[1..]) + if run[0].Take? then 1 else 0
  }

  /** How many drains pass before one starts at ring `r`. */
  function Away(start: nat, r: nat, n: nat): (k: nat)
    requires start < n && r < n
    ensures k < n && (k == 0 <==> start == r)
  {
    if r >= start then r - start else r + n - start
  }

  lemma NextStart(next: nat, n: nat)
    requires n > 0
    ensures (next + 1) % n == if next % n + 1 == n then 0 else next % n + 1
  {
    var q, m := next / n, next % n;
    assert next + 1 == n * q + (m + 1);
    if m + 1 == n {
      assert n * q + n == n * (q + 1);
      Remainder(next + 1, n, q + 1, 0);
    } else {
      Remainder(next + 1, n, q, m + 1);
    }
  }

  lemma Remainder(x: nat, n: nat, q: nat, m: nat)
    requires m < n && x == n * q + m
    ensures x % n == m
  {
    var a, b := x / n, x % n;
    assert n * a + b == n * q + m;
    if a < q {
      ScaledApart(n, a, q);
    } else if a > q {
      ScaledApart(n, q, a);
    }
  }

  lemma ScaledApart(n: nat, a: nat, b: nat)
    requires a < b
    ensures n * a + n <= n * b
  {
    Scaled(n, a + 1, b);
    assert n * (a + 1) == n * a + n;
  }

  /** A drain takes a ring's oldest batch, or starts elsewhere and leaves the ring alone. */
  lemma TakenOrLeft(rings: seq<seq<Batch>>, start: nat, limit: nat, r: nat)
    requires start < |rings| && r < |rings| && rings[r] != []
    ensures var (out, left) := Drained(rings, start, limit);
            && |left| == |rings|
            && if Of(out, r) == [] then left[r] == rings[r] && r != start else Of(out, r)[0] == rings[r][0]
  {
    OneDrain(rings, start, limit);
    var (out, left) := Drained(rings, start, limit);
    hide Drained, Of;
    assert Of(out, r) + left[r] == rings[r];
  }

  lemma OneNearer(next: nat, r: nat, n: nat)
    requires r < n && r != next % n
    ensures Away((next + 1) % n, r, n) == Away(next % n, r, n) - 1
  {
    NextStart(next, n);
  }

  lemma DrainsAfter(run: seq<Act>)
    requires run != []
    ensures Drains(run[1..]) == if run[0].Take? then Drains(run) - 1 else Drains(run)
  {
  }

  lemma WithinRest(run: seq<Act>, n: nat)
    requires run != [] && Within(run, n)
    ensures Within(run[1..], n) && (run[0].Put? ==> run[0].ring < n)
  {
    assert run[0] in run;
  }

  /**
   A ring with a batch waiting is served, oldest first, once as many drains have run as there are rings to
   start at before it, and one more, whatever else is pushed meanwhile and whatever the limits.
   */
  lemma {:induction false} WaitingRingIsServed(rings: seq<seq<Batch>>, next: nat, run: seq<Act>, r: nat)
    requires r < |rings| && rings[r] != [] && Within(run, |rings|)
    requires Drains(run) > Away(next % |rings|, r, |rings|)
    ensures var served := Served(rings, next, run, r); served != [] && served[0] == rings[r][0]
    decreases |run|
  {
    var act, rest := run[0], run[1..];
    DrainsAfter(run);
    WithinRest(run, |rings|);
    match act
    case Put(i, batch) =>
      ServedAfterPut(rings, next, run, r);
      hide Served, Within, Drains, Away;
      WaitingRingIsServed(rings[i := Offered(rings[i], batch)], next, rest, r);
    case Take(limit) =>
      var (out, left) := Drained(rings, next % |rings|, limit);
      TakenOrLeft(rings, next % |rings|, limit, r);
      ServedAfterTake(rings, next, run, r);
      hide Drained, Of, Served, Within, Drains, Away;
      if Of(out, r) == [] {
        OneNearer(next, r, |rings|);
        WaitingRingIsServed(left, next + 1, rest, r);
      }
  }

  lemma ServedAfterPut(rings: seq<seq<Batch>>, next: nat, run: seq<Act>, r: nat)
    requires r < |rings| && run != [] && run[0].Put? && Within(run, |rings|) && run[0].ring < |rings| && Within(run[1..], |rings|)
    ensures var act := run[0];
            Served(rings, next, run, r) == Served(rings[act.ring := Offered(rings[act.ring], act.batch)], next, run[1..], r)
  {
  }

  lemma ServedAfterTake(rings: seq<seq<Batch>>, next: nat, run: seq<Act>, r: nat)
    requires r < |rings| && run != [] && run[0].Take? && Within(run, |rings|)
    ensures var (out, left) := Drained(rings, next % |rings|, run[0].limit);
            Served(rings, next, run, r) == Of(out, r) + Served(left, next + 1, run[1..], r)
  {
  }

  /** With `n` rings, any `n` drains serve every ring that had something waiting at the start. */
  lemma DrainsAreFair(rings: seq<seq<Batch>>, next: nat, run: seq<Act>)
    requires rings != [] && Within(run, |rings|) && Drains(run) >= |rings|
    ensures forall r :: 0 <= r < |rings| && rings[r] != [] ==>
              var served := Served(rings, next, run, r); served != [] && served[0] == rings[r][0]
  {
    forall r: nat | r < |rings| && rings[r] != []
      ensures var served := Served(rings, next, run, r); served != [] && served[0] == rings[r][0]
    {
      WaitingRingIsServed(rings, next, run, r);
    }
  }
}
