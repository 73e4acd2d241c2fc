/** The queue between producer threads and the one consumer: one bounded ring per thread. */
module Queue {
  import opened Batches

  const BATCH_N: nat := 1024
  const BATCHES_CAPACITY: nat := 64

  /** A batch on its way out, with the ring it came through. */
  datatype Item = Item(ring: nat, batch: Batch)

  /** What an `rtrb` push does to a ring: it refuses when full. */
  function Offered(ring: seq<Batch>, batch: Batch): seq<Batch> {
    if |ring| < BATCHES_CAPACITY then ring + [batch] else ring
  }

  // ----- draining -----

  /** How many batches one visit takes from a ring: all, or up to the limit, and never none from a non-empty ring. */
  function Takes(available: nat, got: nat, limit: nat): (k: nat)
    ensures k <= available && (available > 0 ==> k > 0)
  {
    if available == 0 then 0
    else if got + 1 >= limit then 1
    else if available <= limit - got then available
    else limit - got
  }

  function Items(ring: nat, batches: seq<Batch>): (items: seq<Item>)
    ensures |items| == |batches|
  {
    seq(|batches|, i requires 0 <= i < |batches| => Item(ring, batches[i]))
  }

  /** Whose turn it is, `j` visits after `start`. */
  function Turn(start: nat, j: nat, n: nat): (i: nat)
    requires n > 0
    ensures i < n
  {
    (start + j) % n
  }

  /** Visits the rings from the `j`-th after `start`, adding to `out` until the limit is reached. */
  function DrainFrom(rings: seq<seq<Batch>>, start: nat, j: nat, out: seq<Item>, limit: nat): (r: (seq<Item>, seq<seq<Batch>>))
    requires j <= |rings|
    ensures |r.1| == |rings|
    decreases |rings| - j
  {
    if j == |rings| then (out, rings)
    else
      var i := Turn(start, j, |rings|);
      var k := Takes(|rings[i]|, |out|, limit);
      var more, left := out + Items(i, rings[i][..k]), rings[i := rings[i][k..]];
      if k > 0 && |more| >= limit then (more, left) else DrainFrom(left, start, j + 1, more, limit)
  }

  function Drained(rings: seq<seq<Batch>>, start: nat, limit: nat): (seq<Item>, seq<seq<Batch>>) {
    DrainFrom(rings, start, 0, [], limit)
  }

  class EventQueue {
    const id: nat
    var rings: seq<seq<Batch>>
    var next: nat
    var dropped: nat
    var closed: bool
    var recycleFloor: nat

    constructor (id: nat)
      requires id > 0
      ensures this.id == id && rings == [] && next == 0 && dropped == 0 && !closed && recycleFloor == 0
    {
      this.id := id;
      rings, next, dropped, closed, recycleFloor := [], 0, 0, false, 0;
    }

    /** A new thread's ring joins at the end. */
    method Register() returns (ring: nat)
      modifies this`rings
      ensures ring == |old(rings)| && rings == old(rings) + [[]]
    {
      ring := |rings|;
      rings := rings + [[]];
    }

    method Offer(ring: nat, batch: Batch) returns (taken: bool)
      requires ring < |rings|
      modifies this`rings
      ensures taken <==> |old(rings)[ring]| < BATCHES_CAPACITY
      ensures rings == old(rings)[ring := Offered(old(rings)[ring], batch)]
    {
      taken := |rings[ring]| < BATCHES_CAPACITY;
      if taken {
        rings := rings[ring := rings[ring] + [batch]];
      }
    }

    method RecordDropped(events: nat)
      modifies this`dropped
      ensures dropped == old(dropped) + events
    {
      dropped := dropped + events;
    }

    method SetRecycleFloor(floor: nat)
      modifies this`recycleFloor
      ensures recycleFloor == floor
    {
      recycleFloor := floor;
    }

    method Close()
      modifies this`closed
      ensures closed
    {
      closed := true;
    }

    /** `drain_batches`: round-robin over the rings, starting one further each time. */
    method Drain(limit: nat) returns (out: seq<Item>)
      modifies this`rings, this`next
      ensures old(rings) == [] ==> out == [] && rings == [] && next == old(next)
      ensures old(rings) != [] ==>
                next == old(next) + 1 && (out, rings) == Drained(old(rings), old(next) % |old(rings)|, limit)
    {
      out := [];
      var n := |rings|;
      if n == 0 {
        return;
      }
      var start := next % n;
      next := next + 1;
      ghost var target := Drained(rings, start, limit);
      var j := 0;
      while j < n
        invariant j <= n == |rings|
        invariant next == old(next) + 1
        invariant |out| < limit || out == []
        invariant target == DrainFrom(rings, start, j, out, limit)
      {
        var visit := Visit(Turn(start, j, n), out, limit);
        out := visit.0;
        if visit.1 {
          return;
        }
        j := j + 1;
      }
    }

    /** The inner loop: pop one ring until it is empty or the limit is reached. */
    method Visit(i: nat, before: seq<Item>, limit: nat) returns (r: (seq<Item>, bool))
      requires i < |rings| && (|before| < limit || before == [])
      modifies this`rings
      ensures var k := Takes(|old(rings)[i]|, |before|, limit);
              && r.0 == before + Items(i, old(rings)[i][..k])
              && rings == old(rings)[i := old(rings)[i][k..]]
              && (r.1 <==> k > 0 && |before| + k >= limit)
    {
      var out := before;
      ghost var ring := rings[i];
      ghost var m := 0;
      while rings[i] != []
        invariant 0 <= m <= |ring| && |rings| == |old(rings)|
        invariant rings == old(rings)[i := ring[m..]]
        invariant out == before + Items(i, ring[..m])
        invariant m == 0 || |before| + m < limit
        decreases |rings[i]|
      {
        assert ring[..m + 1] == ring[..m] + [ring[m]];
        out := out + [Item(i, rings[i][0])];
        rings := rings[i := rings[i][1..]];
        m := m + 1;
        if |out| >= limit {
          return (out, true);
        }
      }
      return (out, false);
    }
  }
}

/** What a drain takes, and who gets served. */
module Draining {
  import opened Batches
  import opened Queue

  /** The batches among `items` that came through one ring, in order. */
  function Of(items: seq<Item>, ring: nat): seq<Batch> {
    if items == [] then []
    else if items[|items| - 1].ring == ring then Of(items[..|items| - 1], ring) + [items[|items| - 1].batch]
    else Of(items[..|items| - 1], ring)
  }

  lemma {:induction false} OfConcat(a: seq<Item>, b: seq<Item>, ring: nat)
    ensures Of(a + b, ring) == Of(a, ring) + Of(b, ring)
    decreases |b|
  {
    if b == [] {
      assert a + b == a;
    } else {
      assert (a + b)[..|a + b| - 1] == a + b[..|b| - 1];
      OfConcat(a, b[..|b| - 1], ring);
    }
  }

  lemma {:induction false} OfItems(i: nat, batches: seq<Batch>, ring: nat)
    ensures Of(Items(i, batches), ring) == if i == ring then batches else []
    decreases |batches|
  {
    if batches != [] {
      var front := batches[..|batches| - 1];
      assert Items(i, batches)[..|batches| - 1] == Items(i, front);
      OfItems(i, front, ring);
      assert batches == front + [batches[|batches| - 1]];
    }
  }

  /** Every ring is emptied from the front and nothing else happens to it: popped then left is what was there. */
  lemma {:induction false} DrainIsFifo(rings: seq<seq<Batch>>, start: nat, j: nat, out: seq<Item>, limit: nat, r: nat)
    requires j <= |rings| && r < |rings|
    ensures var (more, left) := DrainFrom(rings, start, j, out, limit);
            && out <= more
            && Of(more[|out|..], r) + left[r] == rings[r]
    decreases |rings| - j
  {
    hide Turn;
    if j == |rings| {
      assert out[|out|..] == [] && [] + rings[r] == rings[r];
    } else {
      var i := Turn(start, j, |rings|);
      var k := Takes(|rings[i]|, |out|, limit);
      var taken := rings[i][..k];
      var more, left := out + Items(i, taken), rings[i := rings[i][k..]];
      OfItems(i, taken, r);
      assert more[|out|..] == Items(i, taken);
      assert (if i == r then taken else []) + left[r] == rings[r];
      if !(k > 0 && |more| >= limit) {
        DrainIsFifo(left, start, j + 1, more, limit, r);
        Together(out, Items(i, taken), DrainFrom(left, start, j + 1, more, limit).0, r);
        hide DrainFrom, Of;
        var rest := DrainFrom(left, start, j + 1, more, limit);
        assert (if i == r then taken else []) + (Of(rest.0[|more|..], r) + rest.1[r]) == rings[r];
      }
    }
  }

  lemma Together(out: seq<Item>, next: seq<Item>, all: seq<Item>, ring: nat)
    requires out + next <= all
    ensures out <= all && Of(all[|out|..], ring) == Of(next, ring) + Of(all[|out + next|..], ring)
  {
    assert all[|out|..] == next + all[|out + next|..];
    OfConcat(next, all[|out + next|..], ring);
  }

  lemma {:induction false} DrainWithinLimit(rings: seq<seq<Batch>>, start: nat, j: nat, out: seq<Item>, limit: nat)
    requires j <= |rings| && (|out| < limit || out == [])
    ensures |DrainFrom(rings, start, j, out, limit).0| <= if limit == 0 then 1 else limit
    decreases |rings| - j
  {
    hide Turn;
    if j < |rings| {
      var i := Turn(start, j, |rings|);
      var k := Takes(|rings[i]|, |out|, limit);
      var more := out + Items(i, rings[i][..k]);
      if !(k > 0 && |more| >= limit) {
        DrainWithinLimit(rings[i := rings[i][k..]], start, j + 1, more, limit);
      }
    }
  }

  /** Stopping short of the limit means having emptied every ring on the way. */
  lemma {:induction false} DrainEmptiesWhenShort(rings: seq<seq<Batch>>, start: nat, j: nat, out: seq<Item>, limit: nat, later: nat)
    requires j <= later < |rings| && (|out| < limit || out == [])
    requires var all := DrainFrom(rings, start, j, out, limit).0; |all| < limit || all == []
    ensures DrainFrom(rings, start, j, out, limit).1[Turn(start, later, |rings|)] == []
    decreases |rings| - j
  {
    hide Turn;
    var i := Turn(start, j, |rings|);
    var k := Takes(|rings[i]|, |out|, limit);
    var more, left := out + Items(i, rings[i][..k]), rings[i := rings[i][k..]];
    if j < later {
      DrainEmptiesWhenShort(left, start, j + 1, more, limit, later);
    } else {
      DrainIsFifo(left, start, j + 1, more, limit, i);
      assert left[i] == [];
    }
  }

  lemma ModBelowTwice(x: nat, n: nat)
    requires x < 2 * n
    ensures x % n == if x < n then x else x - n
  {
    var q, r := x / n, x % n;
    assert x == n * q + r;
    if q == 0 {
      assert n * q == 0;
    } else if q == 1 {
      assert n * q == n;
    } else {
      Scaled(n, 2, q);
    }
  }

  lemma Scaled(n: nat, a: nat, b: nat)
    requires a <= b
    ensures n * a <= n * b
  {
    assert n * b == n * a + n * (b - a);
  }

  lemma TurnValue(start: nat, j: nat, n: nat)
    requires start < n && j <= n
    ensures Turn(start, j, n) == if start + j < n then start + j else start + j - n
  {
    ModBelowTwice(start + j, n);
  }

  /** The visit at which a ring's turn comes. */
  lemma TurnOf(n: nat, start: nat, r: nat) returns (j: nat)
    requires r < n && start < n
    ensures j < n && Turn(start, j, n) == r
  {
    j := if r >= start then r - start else r + n - start;
    TurnValue(start, j, n);
  }

  /**
   One drain: first in, first out on every ring; never more than a positive limit; everything waiting, if it
   stops short of the limit; and at least one from the ring it starts at.
   */
  lemma OneDrain(rings: seq<seq<Batch>>, start: nat, limit: nat)
    requires start < |rings|
    ensures var (out, left) := Drained(rings, start, limit);
            && (forall r :: 0 <= r < |rings| ==> Of(out, r) + left[r] == rings[r])
            && (limit > 0 ==> |out| <= limit)
            && (|out| < limit || out == [] ==> forall r :: 0 <= r < |rings| ==> left[r] == [])
            && (rings[start] != [] ==> Of(out, start) != [])
  {
    var (out, left) := Drained(rings, start, limit);
    DrainWithinLimit(rings, start, 0, [], limit);
    forall r | 0 <= r < |rings| ensures Of(out, r) + left[r] == rings[r] {
      DrainIsFifo(rings, start, 0, [], limit, r);
      assert out[0..] == out;
    }
    if |out| < limit || out == [] {
      forall r | 0 <= r < |rings| ensures left[r] == [] {
        var j := TurnOf(|rings|, start, r);
        DrainEmptiesWhenShort(rings, start, 0, [], limit, j);
      }
    }
    if rings[start] != [] {
      StartIsServed(rings, start, limit);
    }
  }

  lemma StartIsFirst(rings: seq<seq<Batch>>, start: nat, limit: nat)
    requires start < |rings| && rings[start] != []
    ensures var k := Takes(|rings[start]|, 0, limit);
            var more, left := Items(start, rings[start][..k]), rings[start := rings[start][k..]];
            Drained(rings, start, limit) == if |more| >= limit then (more, left) else DrainFrom(left, start, 1, more, limit)
  {
    var k := Takes(|rings[start]|, 0, limit);
    TurnValue(start, 0, |rings|);
    hide Turn;
    assert [] + Items(start, rings[start][..k]) == Items(start, rings[start][..k]);
  }

  lemma StartIsServed(rings: seq<seq<Batch>>, start: nat, limit: nat)
    requires start < |rings| && rings[start] != []
    ensures Of(Drained(rings, start, limit).0, start) != []
  {
    var k := Takes(|rings[start]|, 0, limit);
    var taken, left := rings[start][..k], rings[start := rings[start][k..]];
    var more := Items(start, taken);
    StartIsFirst(rings, start, limit);
    OfItems(start, taken, start);
    hide Turn, Drained, DrainFrom, Of, Items, Takes;
    assert [] + more == more;
    if |more| < limit {
      DrainIsFifo(left, start, 1, more, limit, start);
      Together([], more, DrainFrom(left, start, 1, more, limit).0, start);
    }
  }

  lemma {:induction false} DrainNamesRings(rings: seq<seq<Batch>>, start: nat, j: nat, out: seq<Item>, limit: nat)
    requires j <= |rings| && forall item :: item in out ==> item.ring < |rings|
    ensures forall item :: item in DrainFrom(rings, start, j, out, limit).0 ==> item.ring < |rings|
    decreases |rings| - j
  {
    hide Turn;
    if j < |rings| {
      var i := Turn(start, j, |rings|);
      var k := Takes(|rings[i]|, |out|, limit);
      var more := out + Items(i, rings[i][..k]);
      if !(k > 0 && |more| >= limit) {
        DrainNamesRings(rings[i := rings[i][k..]], start, j + 1, more, limit);
      }
    }
  }

  /** A limit of zero is exceeded exactly when anything is waiting: the limit is tested after the pop. */
  lemma DrainExceedsLimitIff(rings: seq<seq<Batch>>, start: nat, limit: nat)
    requires start < |rings|
    ensures |Drained(rings, start, limit).0| > limit <==> limit == 0 && exists r :: 0 <= r < |rings| && rings[r] != []
  {
    var (out, left) := Drained(rings, start, limit);
    OneDrain(rings, start, limit);
    if limit == 0 {
      if out != [] {
        DrainNamesRings(rings, start, 0, [], limit);
        SomeRingServed(out, rings, left);
      } else {
        forall r | 0 <= r < |rings| ensures rings[r] == [] {
          assert Of(out, r) + left[r] == rings[r];
        }
      }
    }
  }

  lemma SomeRingServed(out: seq<Item>, rings: seq<seq<Batch>>, left: seq<seq<Batch>>)
    requires out != [] && |left| == |rings| && out[|out| - 1].ring < |rings|
    requires forall r :: 0 <= r < |rings| ==> Of(out, r) + left[r] == rings[r]
    ensures exists r :: 0 <= r < |rings| && rings[r] != []
  {
    var r := out[|out| - 1].ring;
    assert Of(out, r) != [];
    assert rings[r] != [];
  }

  // ----- several drains -----

  /** What has been taken and what waits are what waited. */
  predicate Taking(items: seq<Item>, before: seq<seq<Batch>>, now: seq<seq<Batch>>) {
    && |now| == |before|
    && forall r :: 0 <= r < |before| ==> Of(items, r) + now[r] == before[r]
  }

  lemma TakingNone(rings: seq<seq<Batch>>)
    ensures Taking([], rings, rings)
  {
    forall r: nat | r < |rings| ensures Of([], r) + rings[r] == rings[r] {
      assert [] + rings[r] == rings[r];
    }
  }

  lemma TakingMore(a: seq<Item>, b: seq<Item>, before: seq<seq<Batch>>, mid: seq<seq<Batch>>, now: seq<seq<Batch>>)
    requires Taking(a, before, mid) && Taking(b, mid, now)
    ensures Taking(a + b, before, now)
  {
    forall r: nat | r < |before| ensures Of(a + b, r) + now[r] == before[r] {
      OfConcat(a, b, r);
      assert Of(a, r) + (Of(b, r) + now[r]) == Of(a, r) + Of(b, r) + now[r];
    }
  }

  lemma TakingSame(items: seq<Item>, before: seq<seq<Batch>>, now: seq<seq<Batch>>)
    requires Taking(items, before, now)
    ensures |now| == |before|
  {
  }

  /** One drain, in those terms. */
  lemma DrainTakes(rings: seq<seq<Batch>>, start: nat, limit: nat)
    requires start < |rings|
    ensures var (out, left) := Drained(rings, start, limit);
            && Taking(out, rings, left)
            && (forall item :: item in out ==> item.ring < |rings|)
            && (out == [] ==> forall r :: 0 <= r < |rings| ==> left[r] == [])
  {
    OneDrain(rings, start, limit);
    DrainNamesRings(rings, start, 0, [], limit);
  }

  /** A ring beyond those named has given nothing. */
  lemma {:induction false} AbsentRing(items: seq<Item>, n: nat)
    requires forall item :: item in items ==> item.ring < n
    ensures Of(items, n) == []
    decreases |items|
  {
    if items != [] {
      assert items[|items| - 1] in items;
      AbsentRing(items[..|items| - 1], n);
    }
  }

  // ----- how much a drain takes -----

  function Waiting(rings: seq<seq<Batch>>): nat {
    if rings == [] then 0 else Waiting(rings[..|rings| - 1]) + |rings[|rings| - 1]|
  }

  lemma {:induction false} WaitingUpdate(rings: seq<seq<Batch>>, i: nat, ring: seq<Batch>)
    requires i < |rings|
    ensures Waiting(rings[i := ring]) + |rings[i]| == Waiting(rings) + |ring|
    decreases |rings|
  {
    var last := |rings| - 1;
    if i < last {
      assert rings[i := ring][..last] == rings[..last][i := ring];
      WaitingUpdate(rings[..last], i, ring);
    } else {
      assert rings[i := ring][..last] == rings[..last];
    }
  }

  /** Every batch taken is one fewer waiting. */
  lemma {:induction false} DrainCounts(rings: seq<seq<Batch>>, start: nat, j: nat, out: seq<Item>, limit: nat)
    requires j <= |rings|
    ensures var (more, left) := DrainFrom(rings, start, j, out, limit); |more| + Waiting(left) == |out| + Waiting(rings)
    decreases |rings| - j
  {
    hide Turn, Takes;
    if j < |rings| {
      var i := Turn(start, j, |rings|);
      var k := Takes(|rings[i]|, |out|, limit);
      var more, left := out + Items(i, rings[i][..k]), rings[i := rings[i][k..]];
      WaitingUpdate(rings, i, rings[i][k..]);
      if !(k > 0 && |more| >= limit) {
        DrainCounts(left, start, j + 1, more, limit);
      }
    }
  }

  // ----- one call -----

  /** What one `drain_batches` does to the rings and to the place the next one starts at. */
  predicate OneCall(rings: seq<seq<Batch>>, next: nat, limit: nat, out: seq<Item>, left: seq<seq<Batch>>, after: nat) {
    if rings == [] then out == [] && left == [] && after == next
    else after == next + 1 && (out, left) == Drained(rings, next % |rings|, limit)
  }

  lemma OneCallFacts(rings: seq<seq<Batch>>, next: nat, limit: nat, out: seq<Item>, left: seq<seq<Batch>>, after: nat)
    requires OneCall(rings, next, limit, out, left, after)
    ensures Taking(out, rings, left) && |out| + Waiting(left) == Waiting(rings)
    ensures |out| < limit || out == [] ==> forall r :: 0 <= r < |left| ==> left[r] == []
  {
    if rings != [] {
      OneDrain(rings, next % |rings|, limit);
      DrainCounts(rings, next % |rings|, 0, [], limit);
      hide Drained;
    }
  }
}
