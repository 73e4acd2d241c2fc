/** What a thread's pushes and flushes do to its unfinished batch and its ring. */
module Producing {
  import opened Words
  import opened Events
  import opened Batches
  import opened Queue

  const DELTA_OVERFLOW: u64 := 0xFFFF_FFFF

  /** The unfinished batch: the events the cursor has walked past. */
  datatype Live = Live(base: u64, tid: u32, events: seq<PackedEvent>)

  /** A ring after a push or flush, the new unfinished batch, and the events dropped on the way. */
  datatype Effect = Effect(live: Live, ring: seq<Batch>, dropped: nat)

  function Closed(live: Live): Batch {
    Batch(live.base, live.tid, live.events, BATCH_N)
  }

  /** The fast path's guard. A tick before the base wraps to a delta too large for it. */
  predicate Fits(live: Live, sameRun: bool, ticks: u64) {
    |live.events| < BATCH_N && sameRun && WrappingSub(ticks, live.base) <= DELTA_OVERFLOW
  }

  /** A full ring refuses the batch, and its events are dropped. */
  function Shipped(live: Live, ring: seq<Batch>, next: Live): Effect {
    Effect(next, Offered(ring, Closed(live)), if |ring| < BATCHES_CAPACITY then 0 else |live.events|)
  }

  function Push(live: Live, ring: seq<Batch>, sameRun: bool, ticks: u64, tid: u32, codeKind: u32): Effect {
    if Fits(live, sameRun, ticks) then
      Effect(live.(events := live.events + [PackedEvent(WrappingSub(ticks, live.base), codeKind)]), ring, 0)
    else Shipped(live, ring, Live(ticks, tid, [PackedEvent(0, codeKind)]))
  }

  /** A flush leaves an empty batch with the old base; it ships nothing when nothing was pushed. */
  function Flush(live: Live, ring: seq<Batch>): Effect {
    if live.events == [] then Effect(live, ring, 0) else Shipped(live, ring, Live(live.base, live.tid, []))
  }

  /**
   When a push stays in the batch: with room for it, the run unchanged, and its tick less than 2^32 after the base, a
   tick before the base only if the 64-bit counter has wrapped in between. Otherwise the batch is closed with all its
   events, and the next one starts at the tick.
   */
  lemma StaysIff(live: Live, ring: seq<Batch>, sameRun: bool, ticks: u64, tid: u32, codeKind: u32)
    ensures var after := Push(live, ring, sameRun, ticks, tid, codeKind);
            var since := if live.base <= ticks then ticks - live.base else ticks + 0x1_0000_0000_0000_0000 - live.base;
            if |live.events| < 1024 && sameRun && since < 0x1_0000_0000
            then after.live.base == live.base && after.ring == ring && after.dropped == 0
                 && after.live.events == live.events + [PackedEvent(since, codeKind)]
            else after.live == Live(ticks, tid, [PackedEvent(0, codeKind)])
                 && (|ring| < 64 ==> after.dropped == 0 && |after.ring| == |ring| + 1 && ring <= after.ring
                                     && after.ring[|ring|].base == live.base && after.ring[|ring|].tid == live.tid
                                     && after.ring[|ring|].events == live.events)
                 && (|ring| >= 64 ==> after.dropped == |live.events| && after.ring == ring)
  {
  }

  // ----- exact time -----

  /** The tick an event decodes to: the base plus the delta, in wrapping arithmetic. */
  function TickOf(base: u64, e: PackedEvent): u64 {
    (base + e.deltaTicks) % U64_SPAN
  }

  /** Whatever the base, a delta taken on the fast path decodes to the tick that was pushed. */
  lemma DeltaDecodes(base: u64, ticks: u64, codeKind: u32)
    requires WrappingSub(ticks, base) <= DELTA_OVERFLOW
    ensures TickOf(base, PackedEvent(WrappingSub(ticks, base), codeKind)) == ticks
    ensures base + WrappingSub(ticks, base) < U64_SPAN <==> base <= ticks
  {
    if ticks < base {
      assert base + WrappingSub(ticks, base) == U64_SPAN + ticks;
    }
  }
}

/** One thread's hot and cold state. */
module Producer {
  import opened Words
  import opened Events
  import opened Batches
  import opened Queue
  import opened Producing

  /** The queue a thread produces for and the index of its ring there. */
  datatype Owner = Nobody | Owner(queue: nat, ring: nat)

  class ThreadState {
    // hot
    var cursor: nat
    var end: nat
    var base: u64
    var tid: u32
    var run: nat
    var epoch: nat
    // cold: the producer half of a ring, and the unfinished batch with its buffer and committed length
    var owner: Owner
    var batchBase: u64
    var batchTid: u32
    var committed: nat
    var slots: array<PackedEvent>

    /** The cursor stays inside the batch the hot fields describe. */
    ghost predicate Valid()
      reads this
    {
      && epoch % 2 == 0
      && slots.Length == BATCH_N && cursor <= end
      && (owner.Nobody? ==> end == 0)
      && (owner.Owner? ==> end == BATCH_N && base == batchBase && tid == batchTid && run == owner.queue)
    }

    function Unfinished(): Live
      requires cursor <= slots.Length
      reads this, slots
    {
      Live(base, tid, slots[..cursor])
    }

    constructor ()
      ensures Valid() && owner == Nobody && run == 0 && fresh(slots)
    {
      cursor, end, base, tid, run, epoch := 0, 0, 0, 0xFFFF_FFFF, 0, 0;
      owner, batchBase, batchTid, committed := Nobody, 0, 0, 0;
      slots := new PackedEvent[BATCH_N](_ => PackedEvent(0, 0));
    }

    /** The batch as a consumer will get it: the events pushed since it was armed, at the base they were taken from. */
    function Committed(): Batch
      requires committed <= slots.Length
      reads this, slots
    {
      Batch(batchBase, batchTid, slots[..committed], BATCH_N)
    }

    /** After this the batch that can be shipped is the one the hot fields describe, whatever was committed before. */
    method Commit()
      requires Valid() && owner.Owner?
      modifies this`committed
      ensures Valid() && Unfinished() == old(Unfinished())
      ensures committed <= slots.Length && Committed() == Closed(Unfinished())
    {
      committed := cursor;
    }

    /** Point the hot fields at the start of the batch, under an odd epoch. */
    method Arm()
      requires epoch % 2 == 0
      modifies this`epoch, this`base, this`tid, this`cursor, this`end
      ensures epoch == old(epoch) + 2
      ensures base == batchBase && tid == batchTid && cursor == 0 && end == BATCH_N
    {
      epoch := epoch + 1;
      base := batchBase;
      tid := batchTid;
      cursor := 0;
      end := BATCH_N;
      epoch := epoch + 1;
    }

    /** A thread new to this queue gets a ring of its own and a batch based at its first event. */
    method InitProducer(q: EventQueue, ticks: u64, newTid: u32)
      requires epoch % 2 == 0
      modifies this, q`rings
      ensures Valid() && owner == Owner(q.id, |old(q.rings)|) && q.rings == old(q.rings) + [[]]
      ensures Unfinished() == Live(ticks, newTid, []) && fresh(slots)
    {
      var ring := q.Register();
      owner := Owner(q.id, ring);
      batchBase, batchTid, committed := ticks, newTid, 0;
      slots := new PackedEvent[BATCH_N](_ => PackedEvent(0, 0));
      run := q.id;
      Arm();
    }

    /** Ship the batch and start another; a refused batch's buffer is used again. */
    method ShipAndRenew(q: EventQueue, ticks: u64, newTid: u32)
      requires Valid() && owner.Owner? && owner.queue == q.id && owner.ring < |q.rings|
      modifies this, q`rings, q`dropped
      ensures Valid() && owner == old(owner)
      ensures if |old(q.rings[owner.ring])| < BATCHES_CAPACITY then fresh(slots) else slots == old(slots)
      ensures var e := Shipped(old(Unfinished()), old(q.rings[owner.ring]), Live(ticks, newTid, []));
              && Unfinished() == e.live
              && q.rings == old(q.rings)[owner.ring := e.ring] && q.dropped == old(q.dropped) + e.dropped
    {
      Commit();
      var full := Committed();
      var taken := q.Offer(owner.ring, full);
      if taken {
        slots := new PackedEvent[BATCH_N](_ => PackedEvent(0, 0));
      } else {
        q.RecordDropped(|full.events|);
      }
      committed, batchBase, batchTid := 0, ticks, newTid;
      Arm();
    }

    method WriteSlot(e: PackedEvent)
      requires Valid() && cursor < end
      modifies this`cursor, slots
      ensures Valid() && Unfinished() == old(Unfinished()).(events := old(Unfinished()).events + [e])
    {
      slots[cursor] := e;
      cursor := cursor + 1;
    }

    /**
     `push_with_ctx`. Whatever run the caller names, it must not be the run of another queue; a thread that
     belongs to no queue or to an older one joins this queue.
     */
    method Push(q: EventQueue, wantedRun: nat, ticks: u64, newTid: u32, codeId: u32, kind: EventKind)
      requires Valid() && (owner.Owner? && owner.queue == q.id ==> owner.ring < |q.rings|)
      requires owner.Owner? && owner.queue != q.id ==> wantedRun != run
      modifies this, slots, q`rings, q`dropped
      ensures Valid() && owner.Owner? && owner.queue == q.id && owner.ring < |q.rings|
      ensures old(owner).Owner? && old(owner).queue == q.id ==>
                var e := Producing.Push(old(Unfinished()), old(q.rings[owner.ring]), old(run) == wantedRun, ticks, newTid,
                                        PackCodeKind(codeId, kind));
                && owner == old(owner) && Unfinished() == e.live
                && q.rings == old(q.rings)[owner.ring := e.ring] && q.dropped == old(q.dropped) + e.dropped
      ensures old(owner).Nobody? || old(owner).queue != q.id ==>
                && owner == Owner(q.id, |old(q.rings)|) && q.rings == old(q.rings) + [[]] && q.dropped == old(q.dropped)
                && Unfinished() == Live(ticks, newTid, [PackedEvent(0, PackCodeKind(codeId, kind))])
    {
      var codeKind := PackCodeKind(codeId, kind);
      var delta := WrappingSub(ticks, base);
      if cursor < end && run == wantedRun && delta <= DELTA_OVERFLOW {
        WriteSlot(PackedEvent(delta, codeKind));
        return;
      }
      if owner.Nobody? || owner.queue != q.id {
        InitProducer(q, ticks, newTid);
      } else {
        ShipAndRenew(q, ticks, newTid);
      }
      WriteSlot(PackedEvent(0, codeKind));
    }

    /** `flush_partial`: the next batch is armed, with the same base, before the old one is offered. */
    method FlushPartial(q: EventQueue) returns (lost: nat)
      requires Valid() && (owner.Owner? ==> owner.queue == q.id && owner.ring < |q.rings|)
      modifies this, q`rings
      ensures Valid() && owner == old(owner) && (slots == old(slots) || fresh(slots))
      ensures owner.Nobody? ==> lost == 0 && q.rings == old(q.rings)
      ensures owner.Owner? ==>
                var e := Producing.Flush(old(Unfinished()), old(q.rings[owner.ring]));
                Unfinished() == e.live && lost == e.dropped && q.rings == old(q.rings)[owner.ring := e.ring]
    {
      if owner.Nobody? {
        return 0;
      }
      Commit();
      if committed == 0 {
        Arm();
        return 0;
      }
      var full := Committed();
      slots := new PackedEvent[BATCH_N](_ => PackedEvent(0, 0));
      committed := 0;
      Arm();
      var taken := q.Offer(owner.ring, full);
      lost := if taken then 0 else |full.events|;
    }
  }
}
