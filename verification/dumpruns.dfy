/** Short runs of the ring after which a thread's slice of a dump goes wrong, though each thread recorded properly. */
module DumpRuns {
  import opened Words
  import opened Events
  import opened Batches
  import opened Stacks
  import opened Replay
  import opened StableSort
  import opened Dumps
  import opened Shapes
  import History
  import Assemble

  /** Two batches of one slot do not fit. */
  const CAPACITY: u64 := 80

  function One(tid: u32, ticks: u64, code: nat, kind: EventKind): Batch
    requires code < CODE_SPAN
  {
    Batch(ticks, tid, [PackedEvent(0, PackCodeKind(code, kind))], 1)
  }

  function Two(tid: u32, ticks: u64, later: u32, first: u32, second: u32): Batch {
    Batch(ticks, tid, [PackedEvent(0, first), PackedEvent(later, second)], 2)
  }

  /** The older of two batches that do not fit together goes. */
  lemma OldestGoes(t: History.Track, batch: Batch)
    requires |t.ring.batches| == 1 && t.ring.floor.None? && t.ring.batches[0].Bytes() + batch.Bytes() > CAPACITY
    ensures var after := History.Step(t, History.Push(batch), CAPACITY).ring;
            after.batches == [batch] && after.floor.None? && after.horizon == t.ring.batches[0].EndTicks()
  {
    var first := t.ring.batches[0];
    var both := t.ring.batches + [batch];
    assert both == [first] + [batch] && both[1..] == [batch] && both[0..] == both;
    History.BytesOfAppend([first], batch);
    History.BytesOfAppend([], first);
    assert [] + [first] == [first];
    assert !History.Settled(both, CAPACITY, None) && History.Settled(both[1..], CAPACITY, None);
    assert forall j :: 0 <= j < 1 ==> both[j..] == both;
    assert History.Fewest(both, 1, CAPACITY, None);
    History.FewestIsUnique(both, 1, History.Surplus(both, CAPACITY, None), CAPACITY, None);
  }

  lemma FirstStays(batch: Batch)
    ensures History.Exec(History.FRESH, [History.Push(batch)], CAPACITY).ring.batches == [batch]
    ensures History.Exec(History.FRESH, [History.Push(batch)], CAPACITY).ring.floor.None?
  {
    var run := [History.Push(batch)];
    assert run[..0] == [];
    var all := [] + [batch];
    assert all == [batch] && History.Settled(all, CAPACITY, None) && all[0..] == all;
    History.FewestIsUnique(all, 0, History.Surplus(all, CAPACITY, None), CAPACITY, None);
  }

  lemma ExecSnoc(run: seq<History.Action>, a: History.Action)
    ensures History.Exec(History.FRESH, run + [a], CAPACITY) == History.Step(History.Exec(History.FRESH, run, CAPACITY), a, CAPACITY)
  {
    assert (run + [a])[..|run|] == run;
  }

  lemma AfterTwo(first: Batch, second: Batch)
    requires first.Bytes() + second.Bytes() > CAPACITY
    ensures var after := History.Exec(History.FRESH, [History.Push(first)] + [History.Push(second)], CAPACITY).ring;
            after.batches == [second] && after.floor.None? && after.horizon == first.EndTicks()
  {
    FirstStays(first);
    ExecSnoc([History.Push(first)], History.Push(second));
    OldestGoes(History.Exec(History.FRESH, [History.Push(first)], CAPACITY), second);
  }

  lemma AfterThree(first: Batch, second: Batch, third: Batch)
    requires first.Bytes() + second.Bytes() > CAPACITY && second.Bytes() + third.Bytes() > CAPACITY
    ensures var run := [History.Push(first)] + [History.Push(second)] + [History.Push(third)];
            var after := History.Exec(History.FRESH, run, CAPACITY).ring;
            after.batches == [third] && after.horizon == second.EndTicks()
  {
    var two := [History.Push(first)] + [History.Push(second)];
    AfterTwo(first, second);
    ExecSnoc(two, History.Push(third));
    OldestGoes(History.Exec(History.FRESH, two, CAPACITY), third);
  }

  lemma StreamOfOne(batch: Batch)
    ensures Assemble.StreamOf([batch], batch.tid) == batch.Marks()
  {
    assert [batch][..0] == [] && [] + batch.Marks() == batch.Marks();
  }

  // ----- a depth below zero -----

  const OPENS: Batch := One(1, 1, 7, Begin)
  const OTHER: Batch := One(2, 9, 8, Begin)
  const CLOSES: Batch := One(1, 5, 7, End)

  lemma ClosesOnly()
    ensures var stream := CLOSES.Marks();
            && NonDecreasing(stream)
            && !EarlyEnough(9, Unmatched(Replayed([], Span(stream, 0, 0)), Span(stream, 0, 21)))
  {
    PackingKeepsKindAndId(7, End);
    var stream, m := CLOSES.Marks(), Mark(5, PackCodeKind(7, End));
    assert stream == [m] && [m][1..] == [];
    assert Span([], 0, 0) == [] && Span([], 0, 21) == [];
    assert Span(stream, 0, 0) == [];
    assert Span(stream, 0, 21) == [m] + Span([], 0, 21);
    assert [m] + [] == [m];
    assert Unmatched([], [m]) == [m] + Unmatched([], []);
  }

  /**
   One thread opens at tick 1 and closes at tick 5; another's batch, which ends at tick 9, reaches the history
   between the two. The ring holds one batch, so the horizon is 9 when the close is all that is left of the first
   thread, and in the dump the close comes before the open made up for it.
   */
  lemma LateHorizonTakesDepthBelowZero(sorted: seq<Entry>)
    ensures var run := [History.Push(OPENS)] + [History.Push(OTHER)] + [History.Push(CLOSES)];
            var ring := History.Exec(History.FRESH, run, CAPACITY).ring;
            && ring.batches == [CLOSES] && ring.horizon == 9
            && (Assemble.DumpOf(sorted, ring.batches, ring.horizon, 0, 20) ==> !NeverNegative(0, Untagged(OfTid(sorted, 1))))
  {
    AfterThree(OPENS, OTHER, CLOSES);
    StreamOfOne(CLOSES);
    ClosesOnly();
    if Assemble.DumpOf(sorted, [CLOSES], 9, 0, 20) {
      ThreadInDump(sorted, [CLOSES], 9, 0, 20, 1);
    }
  }

  // ----- names that do not match -----

  const OUTER := 7
  const INNER := 8
  const CALLS: Batch := Two(1, 1, 1, PackCodeKind(OUTER, Begin), PackCodeKind(INNER, Begin))
  const RETURNS: Batch := Two(1, 5, 1, PackCodeKind(INNER, End), PackCodeKind(OUTER, End))

  lemma TraceIsNested()
    ensures Nested([], [] + (CALLS.Marks() + RETURNS.Marks()) + [])
    ensures CALLS.Marks() + RETURNS.Marks() + [] == [] + (CALLS.Marks() + RETURNS.Marks()) + []
  {
    Kinds();
    var a, b := Mark(1, PackCodeKind(OUTER, Begin)), Mark(2, PackCodeKind(INNER, Begin));
    var c, d := Mark(5, PackCodeKind(INNER, End)), Mark(6, PackCodeKind(OUTER, End));
    var all := [] + (CALLS.Marks() + RETURNS.Marks()) + [];
    assert all == [a, b, c, d] && all[1..] == [b, c, d] && [b, c, d][1..] == [c, d] && [c, d][1..] == [d] && [d][1..] == [];
    assert [] + [OUTER] == [OUTER] && [OUTER] + [INNER] == [OUTER, INNER] && [OUTER, INNER][..1] == [OUTER];
    assert Nested([OUTER], [d]);
    assert Nested([OUTER, INNER], [c, d]);
    assert Nested([OUTER], [b, c, d]);
  }

  lemma Kinds()
    ensures Opens(PackCodeKind(OUTER, Begin)) && CodeOf(PackCodeKind(OUTER, Begin)) == OUTER
    ensures Opens(PackCodeKind(INNER, Begin)) && CodeOf(PackCodeKind(INNER, Begin)) == INNER
    ensures !Opens(PackCodeKind(OUTER, End)) && CodeOf(PackCodeKind(OUTER, End)) == OUTER
    ensures !Opens(PackCodeKind(INNER, End)) && CodeOf(PackCodeKind(INNER, End)) == INNER
  {
    PackingKeepsKindAndId(OUTER, Begin);
    PackingKeepsKindAndId(INNER, Begin);
    PackingKeepsKindAndId(OUTER, End);
    PackingKeepsKindAndId(INNER, End);
  }

  lemma ReturnsOnly()
    ensures var stream := RETURNS.Marks();
            && NonDecreasing(stream) && Above(stream, 2)
            && !Palindrome(Codes(Unmatched(Replayed([], Span(stream, 0, 0)), Span(stream, 0, 21))))
  {
    Kinds();
    var c, d := Mark(5, PackCodeKind(INNER, End)), Mark(6, PackCodeKind(OUTER, End));
    var stream := RETURNS.Marks();
    assert stream == [c, d] && stream[1..] == [d] && [d][1..] == [];
    assert [c] + [d] == [c, d] && [d] + [] == [d];
    EmptySpan(stream, 0, 0);
    assert Span([], 0, 21) == [] && Span([d], 0, 21) == [d] + Span([], 0, 21);
    assert Span(stream, 0, 21) == [c] + Span([d], 0, 21);
    assert Unmatched([], [d]) == [d] + Unmatched([], []) && Unmatched([], stream) == [c] + Unmatched([], [d]);
    var codes := Codes([c, d]);
    assert codes[0] == INNER && codes[|codes| - 1 - 0] == OUTER;
  }

  /**
   A thread calls an outer and an inner function in one batch and returns from both in the next. Once the first
   batch is evicted the two returns get opens made up for them, in the order of the returns, and in the dump the
   inner return closes the outer call.
   */
  lemma TwoReturnsMismatch(sorted: seq<Entry>)
    ensures Nested([], CALLS.Marks() + RETURNS.Marks())
    ensures var run := [History.Push(CALLS)] + [History.Push(RETURNS)];
            var ring := History.Exec(History.FRESH, run, CAPACITY).ring;
            && ring.batches == [RETURNS] && ring.horizon == 2
            && (Assemble.DumpOf(sorted, ring.batches, ring.horizon, 0, 20) ==> !Nested([], Untagged(OfTid(sorted, 1))))
  {
    AfterTwo(CALLS, RETURNS);
    StreamOfOne(RETURNS);
    TraceIsNested();
    assert CALLS.Marks() + RETURNS.Marks() + [] == CALLS.Marks() + RETURNS.Marks();
    ReturnsOnly();
    if Assemble.DumpOf(sorted, [RETURNS], 2, 0, 20) {
      SortedNamesMatchIffPalindrome(1, 2, 0, 20, CALLS.Marks(), RETURNS.Marks(), []);
    }
  }
}
