/** A finished batch: what crosses from a producer thread to the background thread. */
module Batches {
  import opened Words
  import opened Events

  /** The header of a batch in memory: two words and a vector's pointer, capacity and length. */
  const HEADER_BYTES: nat := 40
  const SLOT_BYTES: nat := 8

  /** `capacity` is the slot capacity of the event vector, which `bytes()` charges for. */
  datatype Batch = Batch(base: nat, tid: u32, events: seq<PackedEvent>, capacity: nat) {
    function Bytes(): nat {
      HEADER_BYTES + capacity * SLOT_BYTES
    }

    function EndTicks(): nat {
      if events == [] then base else base + events[|events| - 1].deltaTicks
    }

    function Marks(): (marks: seq<Mark>)
      ensures |marks| == |events|
    {
      seq(|events|, i requires 0 <= i < |events| => Mark(base + events[i].deltaTicks, events[i].codeKind))
    }
  }

  /** An event at an absolute tick. */
  datatype Mark = Mark(ticks: nat, codeKind: u32)

  /** A batch reaches a tick when its last event lies at it or after it; one without events, when its base does. */
  predicate Reaches(b: Batch, tick: nat) {
    if b.events == [] then b.base >= tick else b.Marks()[|b.events| - 1].ticks >= tick
  }

  /** The end of a batch is where it reaches; while its ticks do not step back, none of its events lies after it. */
  lemma EndIsReached(b: Batch, tick: nat)
    ensures b.EndTicks() >= tick <==> Reaches(b, tick)
    ensures (forall i, j :: 0 <= i < j < |b.events| ==> b.Marks()[i].ticks <= b.Marks()[j].ticks) ==>
              forall m :: m in b.Marks() ==> m.ticks <= b.EndTicks()
  {
    var marks := b.Marks();
    if marks != [] {
      assert b.EndTicks() == marks[|marks| - 1].ticks;
    }
  }

  function EventsIn(batches: seq<Batch>): nat {
    if batches == [] then 0 else EventsIn(batches[..|batches| - 1]) + |batches[|batches| - 1].events|
  }

  lemma {:induction false} EventsInConcat(a: seq<Batch>, b: seq<Batch>)
    ensures EventsIn(a + b) == EventsIn(a) + EventsIn(b)
    decreases |b|
  {
    if b == [] {
      assert a + b == a;
    } else {
      assert (a + b)[..|a + b| - 1] == a + b[..|b| - 1];
      EventsInConcat(a, b[..|b| - 1]);
    }
  }
}
