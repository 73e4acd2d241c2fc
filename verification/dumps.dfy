/** What a dump guarantees about each thread, after deduplication, replay and the sort by tick. */
module Dumps {
  import opened Words
  import opened Events
  import opened Batches
  import opened Stacks
  import opened Replay
  import opened StableSort
  import Assemble

  /** The closes that find nothing open; each of them gets a synthesized open. */
  function Unmatched(stack: seq<Mark>, marks: seq<Mark>): seq<Mark>
    decreases |marks|
  {
    if marks == [] then []
    else if !Opens(marks[0].codeKind) && stack == [] then [marks[0]] + Unmatched([], marks[1..])
    else Unmatched(Apply(stack, marks[0]), marks[1..])
  }

  /** What is put in for them: a begin of each one's code, at the horizon. */
  function Invented(horizon: nat, closes: seq<Mark>): (opens: seq<Mark>)
    ensures |opens| == |closes|
  {
    seq(|closes|, i requires 0 <= i < |closes| => Synthesized(horizon, closes[i]))
  }

  lemma InventedAreBegins(horizon: nat, closes: seq<Mark>, i: nat)
    requires i < |closes|
    ensures var open := Invented(horizon, closes)[i];
            open.ticks == horizon && CodeOf(open.codeKind) == CodeOf(closes[i].codeKind) && KindOf(open.codeKind) == Begin
  {
    PackingKeepsKindAndId(CodeOf(closes[i].codeKind), Begin);
  }

  predicate NotBefore(marks: seq<Mark>, ticks: nat) {
    forall i :: 0 <= i < |marks| ==> ticks <= marks[i].ticks
  }

  // ----- exactness: which events a thread contributes -----

  /** The closes in the window that find the loop's stack empty, whatever the ticks. */
  function Orphans(start: nat, stack: seq<Mark>, marks: seq<Mark>): seq<Mark>
    decreases |marks|
  {
    if marks == [] then []
    else (if start <= marks[0].ticks && !Opens(marks[0].codeKind) && stack == [] then [marks[0]] else [])
         + Orphans(start, Apply(stack, marks[0]), marks[1..])
  }

  lemma {:induction false} KeptCounts(horizon: nat, start: nat, end: nat, stack: seq<Mark>, marks: seq<Mark>)
    requires Continues(start, end, marks)
    ensures multiset(Kept(horizon, start, stack, marks))
         == multiset(Invented(horizon, Orphans(start, stack, marks))) + multiset(Span(marks, start, end + 1))
    decreases |marks|
  {
    if marks != [] {
      var m, next, later := marks[0], Apply(stack, marks[0]), marks[1..];
      assert Continues(start, end, later);
      KeptCounts(horizon, start, end, next, later);
      assert !Stops(start, end, m);
      hide Continues;
      if start <= m.ticks {
        CountOne(horizon, stack, m, Span(later, start, end + 1), Kept(horizon, start, next, later), Orphans(start, next, later));
        assert [] + Orphans(start, next, later) == Orphans(start, next, later);
      } else {
        assert [] + Kept(horizon, start, next, later) == Kept(horizon, start, next, later);
        assert [] + Orphans(start, next, later) == Orphans(start, next, later);
        assert [] + Span(later, start, end + 1) == Span(later, start, end + 1);
      }
    }
  }

  lemma InventedCons(horizon: nat, m: Mark, closes: seq<Mark>)
    ensures Invented(horizon, [m] + closes) == [Synthesized(horizon, m)] + Invented(horizon, closes)
  {
  }

  lemma CountOne(horizon: nat, stack: seq<Mark>, m: Mark, later: seq<Mark>, rest: seq<Mark>, closes: seq<Mark>)
    requires multiset(rest) == multiset(Invented(horizon, closes)) + multiset(later)
    ensures var unmatched := !Opens(m.codeKind) && stack == [];
            multiset(Repaired(horizon, stack, m) + rest)
              == multiset(Invented(horizon, if unmatched then [m] + closes else closes)) + multiset([m] + later)
  {
    hide Opens, Synthesized, Invented;
    if !Opens(m.codeKind) && stack == [] {
      InventedCons(horizon, m, closes);
      CountPair(Synthesized(horizon, m), m, rest, Invented(horizon, closes), later);
    } else {
      CountSingle(m, rest, Invented(horizon, closes), later);
    }
  }

  lemma CountSingle(m: Mark, rest: seq<Mark>, invented: seq<Mark>, later: seq<Mark>)
    requires multiset(rest) == multiset(invented) + multiset(later)
    ensures multiset([m] + rest) == multiset(invented) + multiset([m] + later)
  {
    ConcatCounts([m], later);
    ConcatCounts([m], rest);
  }

  lemma CountPair(s: Mark, m: Mark, rest: seq<Mark>, invented: seq<Mark>, later: seq<Mark>)
    requires multiset(rest) == multiset(invented) + multiset(later)
    ensures multiset([s, m] + rest) == multiset([s] + invented) + multiset([m] + later)
  {
    ConcatCounts([m], later);
    ConcatCounts([s], invented);
    ConcatCounts([s, m], rest);
    assert multiset([s, m]) == multiset([s]) + multiset([m]);
  }

  lemma ConcatCounts(a: seq<Mark>, b: seq<Mark>)
    ensures multiset(a + b) == multiset(a) + multiset(b)
  {
  }

  /** The events the loop looks at that lie in the window. */
  function InWindow(start: nat, end: nat, stream: seq<Mark>): seq<Mark> {
    Span(Looked(start, end, stream), start, end + 1)
  }

  /** An event of the window comes after one past its end, where the loop stops. */
  predicate CutShort(start: nat, end: nat, stream: seq<Mark>) {
    exists i, j :: 0 <= i < j < |stream| && Stops(start, end, stream[i]) && start <= stream[j].ticks <= end
  }

  lemma {:induction false} SpanConcat(a: seq<Mark>, b: seq<Mark>, low: nat, high: nat)
    ensures Span(a + b, low, high) == Span(a, low, high) + Span(b, low, high)
    decreases |a|
  {
    if a == [] {
      assert a + b == b;
    } else {
      assert (a + b)[1..] == a[1..] + b;
      SpanConcat(a[1..], b, low, high);
    }
  }

  /** What follows the event the loop stops at holds something of the window exactly when the loop misses it. */
  lemma MissedIff(start: nat, end: nat, stream: seq<Mark>, n: nat)
    requires n <= |stream| && Continues(start, end, stream[..n]) && (n < |stream| ==> Stops(start, end, stream[n]))
    ensures Span(stream[n..], start, end + 1) != [] <==> CutShort(start, end, stream)
  {
    var rest := stream[n..];
    var missed := Span(rest, start, end + 1);
    SpanFacts(rest, start, end + 1);
    forall k | 0 <= k < n ensures !Stops(start, end, stream[k]) {
      assert stream[..n][k] == stream[k];
    }
    hide Span, NonDecreasing;
    if missed != [] {
      assert missed[0] in missed;
      var k :| 0 <= k < |rest| && rest[k] == missed[0];
      assert stream[n + k] == rest[k] && Stops(start, end, stream[n]);
    }
    if i, j :| 0 <= i < j < |stream| && Stops(start, end, stream[i]) && start <= stream[j].ticks <= end {
      assert rest[j - n] == stream[j] && stream[j] in missed;
    }
  }

  /** The loop misses an event of the window exactly when one comes after an event past its end. */
  lemma WindowIsWholeIff(start: nat, end: nat, stream: seq<Mark>)
    ensures var seen, whole := InWindow(start, end, stream), Span(stream, start, end + 1);
            && seen <= whole && (seen == whole <==> !CutShort(start, end, stream))
  {
    var looked := Looked(start, end, stream);
    var n := |looked|;
    assert stream == looked + stream[n..] && stream[..n] == looked;
    SpanConcat(looked, stream[n..], start, end + 1);
    hide Span, Looked, CutShort, Stops;
    MissedIff(start, end, stream, n);
  }

  /** In order, the same in terms of the window cut out of the whole capture. */
  lemma {:induction false} InOrderOrphans(start: nat, end: nat, stack: seq<Mark>, stream: seq<Mark>)
    requires NonDecreasing(stream)
    ensures var open := Replayed(stack, Span(stream, 0, start));
            && Replayed(stack, Approach(start, stream)) == open
            && Orphans(start, stack, Looked(start, end, stream)) == Unmatched(open, Span(stream, start, end + 1))
    decreases |stream|
  {
    if stream != [] {
      var m, later := stream[0], stream[1..];
      if m.ticks < start {
        assert stream == [m] + later;
        InOrderOrphans(start, end, Apply(stack, m), later);
        hide Orphans, Unmatched, Span, NonDecreasing, Replayed, Approach, Looked;
        SpanCons(m, later, 0, start);
        SpanCons(m, later, start, end + 1);
        ApproachCons(start, m, later, stack);
        ApproachedCons(m, Span(later, 0, start), stack);
        OrphansCons(start, end, m, later, stack);
        assert [] + Span(later, start, end + 1) == Span(later, start, end + 1);
      } else {
        EmptySpan(stream, 0, start);
        InOrderInside(start, end, stack, stream);
      }
    }
  }

  lemma ApproachedCons(m: Mark, later: seq<Mark>, stack: seq<Mark>)
    ensures Replayed(stack, [m] + later) == Replayed(Apply(stack, m), later)
  {
    assert ([m] + later)[1..] == later;
  }

  lemma ApproachCons(start: nat, m: Mark, later: seq<Mark>, stack: seq<Mark>)
    requires m.ticks < start
    ensures Replayed(stack, Approach(start, [m] + later)) == Replayed(Apply(stack, m), Approach(start, later))
  {
    assert ([m] + later)[1..] == later;
    ApproachedCons(m, Approach(start, later), stack);
  }

  lemma OrphansCons(start: nat, end: nat, m: Mark, later: seq<Mark>, stack: seq<Mark>)
    requires m.ticks < start
    ensures Orphans(start, stack, Looked(start, end, [m] + later)) == Orphans(start, Apply(stack, m), Looked(start, end, later))
  {
    assert ([m] + later)[1..] == later;
    var looked := Looked(start, end, [m] + later);
    assert looked == [m] + Looked(start, end, later) && looked[1..] == Looked(start, end, later);
    assert [] + Orphans(start, Apply(stack, m), looked[1..]) == Orphans(start, Apply(stack, m), looked[1..]);
  }

  lemma {:induction false} InOrderInside(start: nat, end: nat, stack: seq<Mark>, stream: seq<Mark>)
    requires NonDecreasing(stream) && NotBefore(stream, start)
    ensures Orphans(start, stack, Looked(start, end, stream)) == Unmatched(stack, Span(stream, start, end + 1))
    decreases |stream|
  {
    if stream != [] {
      var m, later := stream[0], stream[1..];
      if m.ticks > end {
        EmptySpan(stream, start, end + 1);
      } else {
        InOrderInside(start, end, Apply(stack, m), later);
        assert Looked(start, end, stream)[1..] == Looked(start, end, later);
        assert Span(stream, start, end + 1)[1..] == Span(later, start, end + 1);
      }
    }
  }

  lemma InOrderIsWhole(start: nat, end: nat, stream: seq<Mark>)
    requires NonDecreasing(stream)
    ensures !CutShort(start, end, stream)
  {
  }

  /**
   Dump exactness, whatever the ticks: a thread contributes the frames open when the window is first reached, one
   synthesized open for each close in the window that finds nothing open, and the events of the window among those the
   loop looks at. Those are exactly the captured events inside the window if and only if none of these comes after an
   event past the end.
   */
  lemma ThreadContribution(horizon: nat, start: nat, end: nat, stream: seq<Mark>)
    ensures var open, orphans := Carried(start, stream), Orphans(start, [], Looked(start, end, stream));
            var contributed := multiset(Emitted(horizon, start, end, stream));
            var frames := multiset(open) + multiset(Invented(horizon, orphans));
            && contributed == frames + multiset(InWindow(start, end, stream))
            && (contributed == frames + multiset(Span(stream, start, end + 1)) <==> !CutShort(start, end, stream))
  {
    var looked := Looked(start, end, stream);
    EmissionIsCarriedThenKept(horizon, start, end, [], stream);
    KeptCounts(horizon, start, end, [], looked);
    WindowIsWholeIff(start, end, stream);
    hide Emission, Kept, Orphans, Looked, CutShort, Invented, Span, Replayed;
    ConcatCounts(Carried(start, stream), Kept(horizon, start, [], looked));
    PrefixCounts(InWindow(start, end, stream), Span(stream, start, end + 1));
  }

  lemma PrefixCounts(a: seq<Mark>, b: seq<Mark>)
    requires a <= b
    ensures multiset(a) == multiset(b) <==> a == b
  {
    if a != b {
      assert b == a + b[|a|..];
      ConcatCounts(a, b[|a|..]);
      assert b[|a|] in multiset(b[|a|..]);
    }
  }

  /** In order nothing is cut short, and the frames are those the capture leaves open before the window. */
  lemma InOrderContribution(start: nat, end: nat, stream: seq<Mark>)
    requires NonDecreasing(stream)
    ensures !CutShort(start, end, stream) && InWindow(start, end, stream) == Span(stream, start, end + 1)
    ensures Carried(start, stream) == Replayed([], Span(stream, 0, start))
    ensures Orphans(start, [], Looked(start, end, stream)) == Unmatched(Carried(start, stream), Span(stream, start, end + 1))
  {
    InOrderIsWhole(start, end, stream);
    WindowIsWholeIff(start, end, stream);
    InOrderOrphans(start, end, [], stream);
  }

  /** An event inside the window is dropped when one past the end came before it. */
  lemma LateEventIsCutOff()
    ensures var first, past, late := Mark(5, PackCodeKind(7, Begin)), Mark(30, PackCodeKind(8, Begin)), Mark(6, PackCodeKind(9, Begin));
            && Emitted(0, 0, 20, [first, past, late]) == [first]
            && Span([first, past, late], 0, 21) == [first, late] && CutShort(0, 20, [first, past, late])
  {
    PackingKeepsKindAndId(7, Begin);
    var first, past, late := Mark(5, PackCodeKind(7, Begin)), Mark(30, PackCodeKind(8, Begin)), Mark(6, PackCodeKind(9, Begin));
    var stream := [first, past, late];
    assert stream[1..] == [past, late] && [past, late][1..] == [late] && [late][1..] == [];
    assert Emission(0, 0, 20, [first], true, [past, late]) == [];
    assert Emission(0, 0, 20, [], false, stream) == [] + ([first] + []);
    assert [late] + [] == [late] && [] + [late] == [late] && [first] + [late] == [first, late];
    assert Span([], 0, 21) == [] && Span([late], 0, 21) == [late] + Span([], 0, 21);
    assert Span([past, late], 0, 21) == [] + Span([late], 0, 21);
    assert Span(stream, 0, 21) == [first] + Span([past, late], 0, 21);
    assert stream[1] == past && stream[2] == late && Stops(0, 20, stream[1]);
  }

  // ----- depth after the sort -----

  lemma {:induction false} RepairNeverNegative(horizon: nat, stack: seq<Mark>, marks: seq<Mark>)
    ensures NeverNegative(|stack|, Repair(horizon, stack, marks))
    decreases |marks|
  {
    if marks != [] {
      var m := marks[0];
      var rest := Repair(horizon, Apply(stack, m), marks[1..]);
      RepairNeverNegative(horizon, Apply(stack, m), marks[1..]);
      if !Opens(m.codeKind) && stack == [] {
        var s := Synthesized(horizon, m);
        PackingKeepsKindAndId(CodeOf(m.codeKind), Begin);
        assert ([s, m] + rest)[1..] == [m] + rest && ([m] + rest)[1..] == rest;
      } else {
        assert ([m] + rest)[1..] == rest;
      }
    }
  }

  predicate MarksLateOrOpen(marks: seq<Mark>) {
    forall i, j :: 0 <= j < i < |marks| && !Opens(marks[i].codeKind) ==> marks[j].ticks <= marks[i].ticks
  }

  predicate Below(marks: seq<Mark>, ticks: nat) {
    forall i :: 0 <= i < |marks| ==> marks[i].ticks <= ticks
  }

  lemma LateSnoc(before: seq<Mark>, m: Mark)
    requires MarksLateOrOpen(before) && (Opens(m.codeKind) || Below(before, m.ticks))
    ensures MarksLateOrOpen(before + [m])
  {
  }

  /** The horizon is no later than the first close whose open was not captured. */
  predicate EarlyEnough(horizon: nat, closes: seq<Mark>) {
    closes != [] ==> horizon <= closes[0].ticks
  }

  lemma {:induction false} UnmatchedMembers(stack: seq<Mark>, marks: seq<Mark>)
    ensures forall m :: m in Unmatched(stack, marks) ==> m in marks
    decreases |marks|
  {
    if marks != [] {
      UnmatchedMembers(Apply(stack, marks[0]), marks[1..]);
      assert marks == [marks[0]] + marks[1..];
    }
  }

  lemma StaysEarlyEnough(horizon: nat, m: Mark, later: seq<Mark>)
    requires horizon <= m.ticks && NotBefore(later, m.ticks)
    ensures EarlyEnough(horizon, Unmatched([], later))
  {
    UnmatchedMembers([], later);
    if Unmatched([], later) != [] {
      assert Unmatched([], later)[0] in later;
    }
  }

  lemma NextBelow(before: seq<Mark>, m: Mark, later: seq<Mark>)
    requires NonDecreasing([m] + later) && Below(before, m.ticks)
    ensures NonDecreasing(later) && NotBefore(later, m.ticks)
    ensures later != [] ==> Below(before + [m], later[0].ticks)
  {
    var all := [m] + later;
    assert forall i :: 0 <= i < |later| ==> later[i] == all[i + 1];
    assert all[0] == m;
  }

  /** In emission order only opens are ever earlier than something before them. */
  lemma {:induction false} RepairIsLate(horizon: nat, before: seq<Mark>, stack: seq<Mark>, marks: seq<Mark>)
    requires MarksLateOrOpen(before) && NonDecreasing(marks)
    requires marks != [] ==> Below(before, marks[0].ticks)
    requires EarlyEnough(horizon, Unmatched(stack, marks))
    ensures MarksLateOrOpen(before + Repair(horizon, stack, marks))
    decreases |marks|
  {
    if marks == [] {
      assert before + [] == before;
    } else {
      var m, later := marks[0], marks[1..];
      assert marks == [m] + later;
      var rest := Repair(horizon, Apply(stack, m), later);
      if !Opens(m.codeKind) && stack == [] {
        var s := Synthesized(horizon, m);
        PackingKeepsKindAndId(CodeOf(m.codeKind), Begin);
        assert s.ticks <= m.ticks && Opens(s.codeKind);
        assert Below(before + [s], m.ticks);
        hide MarksLateOrOpen, Below, NonDecreasing, Unmatched, Synthesized;
        NextBelow(before + [s], m, later);
        StaysEarlyEnough(horizon, m, later);
        LateSnoc(before, s);
        LateSnoc(before + [s], m);
        RepairIsLate(horizon, before + [s] + [m], [], later);
        Regrouped(before + [s], [m], rest);
        Regrouped(before, [s], [m] + rest);
        assert [s] + ([m] + rest) == [s, m] + rest;
      } else {
        hide MarksLateOrOpen, Below, NonDecreasing;
        NextBelow(before, m, later);
        LateSnoc(before, m);
        RepairIsLate(horizon, before + [m], Apply(stack, m), later);
        Regrouped(before, [m], rest);
      }
    }
  }

  /**
   After the sort a thread never closes more than it opened exactly when the horizon is no later than the first
   close whose open was not captured: only then do the synthesized opens stay in front of their closes.
   */
  lemma SortedDepthNeverNegativeIff(tid: u32, horizon: nat, start: nat, end: nat, stream: seq<Mark>)
    requires NonDecreasing(stream)
    ensures var open := Replayed([], Span(stream, 0, start)); var window := Span(stream, start, end + 1);
            NeverNegative(0, Untagged(Sorted(Tagged(tid, Emitted(horizon, start, end, stream)))))
            <==> EarlyEnough(horizon, Unmatched(open, window))
  {
    var early, window := Span(stream, 0, start), Span(stream, start, end + 1);
    var open := Replayed([], early);
    EmissionIsCarriedThenRepaired(horizon, start, end, [], stream);
    StacksHoldOpens([], early);
    CutStaysOrdered(start, end, stream);
    hide Emission, Sorted, NeverNegative, Unmatched, Repair, Span, Replayed, Tagged, Untagged, EarlyEnough, NonDecreasing;
    if EarlyEnough(horizon, Unmatched(open, window)) {
      CarriedAndRepaired(tid, horizon, open, window);
    } else {
      LateHorizonGoesNegative(tid, horizon, open, window);
    }
  }

  lemma CarriedAndRepaired(tid: u32, horizon: nat, open: seq<Mark>, window: seq<Mark>)
    requires AllOpen(open) && NonDecreasing(open + window) && EarlyEnough(horizon, Unmatched(open, window))
    ensures NeverNegative(0, Untagged(Sorted(Tagged(tid, open + Repair(horizon, open, window)))))
  {
    OrderedParts(open, window);
    var emission := open + Repair(horizon, open, window);
    OpensNeverNegative(0, open);
    RepairNeverNegative(horizon, open, window);
    DepthConcat(0, open, Repair(horizon, open, window));
    RepairIsLate(horizon, open, open, window);
    hide NeverNegative, MarksLateOrOpen, Repair, Sorted;
    SortStaysUp(tid, emission);
  }

  lemma SortStaysUp(tid: u32, marks: seq<Mark>)
    requires NeverNegative(0, marks) && MarksLateOrOpen(marks)
    ensures NeverNegative(0, Untagged(Sorted(Tagged(tid, marks))))
  {
    assert Untagged(Tagged(tid, marks)) == marks;
    assert LateOrOpen(Tagged(tid, marks));
    SortedNeverNegative(Tagged(tid, marks));
  }

  lemma OrderedParts(open: seq<Mark>, window: seq<Mark>)
    requires NonDecreasing(open + window)
    ensures NonDecreasing(window) && (window != [] ==> Below(open, window[0].ticks))
  {
    var all := open + window;
    assert forall i :: 0 <= i < |window| ==> window[i] == all[|open| + i];
    assert forall i :: 0 <= i < |open| ==> open[i] == all[i];
  }

  // ----- a horizon that is too late -----

  /** Where the first unmatched close stands: everything before it matches and leaves nothing open. */
  lemma {:induction false} FirstUnmatched(stack: seq<Mark>, marks: seq<Mark>) returns (k: nat)
    requires Unmatched(stack, marks) != []
    ensures k < |marks| && marks[k] == Unmatched(stack, marks)[0] && !Opens(marks[k].codeKind)
    ensures Unmatched(stack, marks[..k]) == [] && Replayed(stack, marks[..k]) == []
    decreases |marks|
  {
    if !Opens(marks[0].codeKind) && stack == [] {
      k := 0;
    } else {
      k := FirstUnmatched(Apply(stack, marks[0]), marks[1..]);
      assert marks[..k + 1][1..] == marks[1..][..k];
      k := k + 1;
    }
  }

  lemma {:induction false} NothingToRepair(horizon: nat, stack: seq<Mark>, marks: seq<Mark>)
    requires Unmatched(stack, marks) == []
    ensures Repair(horizon, stack, marks) == marks
    ensures Depth(|stack|, marks) == |Replayed(stack, marks)|
    decreases |marks|
  {
    if marks != [] {
      NothingToRepair(horizon, Apply(stack, marks[0]), marks[1..]);
      assert marks == [marks[0]] + marks[1..];
    }
  }

  lemma {:induction false} RepairMembers(horizon: nat, stack: seq<Mark>, marks: seq<Mark>)
    ensures forall m :: m in Repair(horizon, stack, marks) ==> m in marks || m.ticks == horizon
    decreases |marks|
  {
    if marks != [] {
      RepairMembers(horizon, Apply(stack, marks[0]), marks[1..]);
      assert marks == [marks[0]] + marks[1..];
    }
  }

  lemma {:induction false} InsertKeepsPrefix(p: seq<Entry>, q: seq<Entry>, x: Entry)
    requires p != [] && p[|p| - 1].ticks <= x.ticks
    ensures p <= Insert(p + q, x)
    decreases |q|
  {
    if q == [] {
      assert p + q == p;
    } else {
      assert (p + q)[..|p + q| - 1] == p + q[..|q| - 1];
      InsertKeepsPrefix(p, q[..|q| - 1], x);
    }
  }

  lemma {:induction false} SortKeepsPrefix(p: seq<Entry>, base: seq<Entry>, later: seq<Entry>)
    requires p != [] && p <= Sorted(base) && forall i :: 0 <= i < |later| ==> p[|p| - 1].ticks <= later[i].ticks
    ensures p <= Sorted(base + later)
    decreases |later|
  {
    if later == [] {
      assert base + later == base;
    } else {
      var front, x := later[..|later| - 1], later[|later| - 1];
      SortKeepsPrefix(p, base, front);
      SortedSnoc(base + front, x);
      assert base + front + [x] == base + later;
      var s := Sorted(base + front);
      assert s == p + s[|p|..];
      InsertKeepsPrefix(p, s[|p|..], x);
    }
  }

  lemma LastGoesBetween(a: seq<Entry>, b: Entry, c: Entry)
    requires Sorted(a) == a && (a != [] ==> a[|a| - 1].ticks <= c.ticks) && c.ticks < b.ticks
    ensures Sorted(a + [b] + [c]) == a + [c] + [b]
  {
    SortedSnoc(a, b);
    SortedSnoc(a + [b], c);
    InsertBetween(a, [b], c);
  }

  /** The first unmatched close, sorted in front of its late open. */
  lemma CloseComesFirst(tid: u32, front: seq<Mark>, s: Mark, u: Mark)
    requires NonDecreasing(front) && (front != [] ==> front[|front| - 1].ticks <= u.ticks) && u.ticks < s.ticks
    ensures Sorted(Tagged(tid, front + [s, u])) == Tagged(tid, front + [u]) + Tagged(tid, [s])
  {
    var a, b, c := Tagged(tid, front), Entry(s.ticks, tid, s.codeKind), Entry(u.ticks, tid, u.codeKind);
    SortedAlready(tid, front);
    LastGoesBetween(a, b, c);
    hide Sorted, NonDecreasing;
    assert Tagged(tid, front + [s, u]) == a + [b] + [c];
    assert Tagged(tid, front + [u]) == a + [c] && Tagged(tid, [s]) == [b];
  }

  lemma LastTick(tid: u32, front: seq<Mark>, u: Mark, rest: seq<Mark>)
    requires NotBefore(rest, u.ticks)
    ensures var p := Tagged(tid, front + [u]);
            && p != [] && forall i :: 0 <= i < |Tagged(tid, rest)| ==> p[|p| - 1].ticks <= Tagged(tid, rest)[i].ticks
  {
  }

  lemma CloseStaysFirst(tid: u32, front: seq<Mark>, s: Mark, u: Mark, rest: seq<Mark>)
    requires NonDecreasing(front) && (front != [] ==> front[|front| - 1].ticks <= u.ticks) && u.ticks < s.ticks
    requires NotBefore(rest, u.ticks)
    ensures Tagged(tid, front + [u]) <= Sorted(Tagged(tid, front + [s, u] + rest))
  {
    CloseComesFirst(tid, front, s, u);
    TaggedConcat(tid, front + [s, u], rest);
    LastTick(tid, front, u, rest);
    hide Tagged, NotBefore, Sorted, NonDecreasing;
    SortKeepsPrefix(Tagged(tid, front + [u]), Tagged(tid, front + [s, u]), Tagged(tid, rest));
  }

  /** Up to the first unmatched close, the sorted list is the frames open before the window and the window itself. */
  lemma SortedStart(tid: u32, horizon: nat, open: seq<Mark>, window: seq<Mark>, k: nat)
    requires NonDecreasing(open + window) && k < |window| && window[k].ticks < horizon && !Opens(window[k].codeKind)
    requires Unmatched(open, window[..k]) == [] && Replayed(open, window[..k]) == []
    ensures Tagged(tid, open + window[..k] + [window[k]]) <= Sorted(Tagged(tid, open + Repair(horizon, open, window)))
  {
    RepairAround(horizon, open, window, k);
    FrontIsOrdered(open, window, k);
    LaterTicks(horizon, open, window, k);
    var s, rest := Synthesized(horizon, window[k]), Repair(horizon, [], window[k + 1..]);
    assert s.ticks == horizon;
    hide Repair, Unmatched, Replayed, Sorted, NonDecreasing, Tagged, Synthesized, NotBefore;
    AroundRegrouped(open, window[..k], [s, window[k]], rest);
    CloseStaysFirst(tid, open + window[..k], s, window[k], rest);
  }

  lemma AroundRegrouped(open: seq<Mark>, matched: seq<Mark>, pair: seq<Mark>, rest: seq<Mark>)
    ensures open + (matched + (pair + rest)) == open + matched + pair + rest
  {
  }

  lemma RepairAround(horizon: nat, open: seq<Mark>, window: seq<Mark>, k: nat)
    requires k < |window| && !Opens(window[k].codeKind)
    requires Unmatched(open, window[..k]) == [] && Replayed(open, window[..k]) == []
    ensures Repair(horizon, open, window)
         == window[..k] + ([Synthesized(horizon, window[k]), window[k]] + Repair(horizon, [], window[k + 1..]))
  {
    var tail := window[k..];
    assert window == window[..k] + tail && tail[1..] == window[k + 1..];
    RepairConcat(horizon, open, window[..k], tail);
    NothingToRepair(horizon, open, window[..k]);
  }

  lemma FrontIsOrdered(open: seq<Mark>, window: seq<Mark>, k: nat)
    requires NonDecreasing(open + window) && k < |window|
    ensures var front := open + window[..k];
            NonDecreasing(front) && (front != [] ==> front[|front| - 1].ticks <= window[k].ticks)
  {
    var all, front := open + window, open + window[..k];
    assert all[|front|] == window[k];
    assert forall i :: 0 <= i < |front| ==> front[i] == all[i];
  }

  lemma LateHorizonGoesNegative(tid: u32, horizon: nat, open: seq<Mark>, window: seq<Mark>)
    requires AllOpen(open) && NonDecreasing(open + window) && !EarlyEnough(horizon, Unmatched(open, window))
    ensures !NeverNegative(0, Untagged(Sorted(Tagged(tid, open + Repair(horizon, open, window)))))
  {
    var k := FirstUnmatched(open, window);
    SortedStart(tid, horizon, open, window, k);
    DipsBelow(open, window[..k], window[k]);
    hide Unmatched, Replayed, Sorted, NonDecreasing, NeverNegative, Repair;
    var start := open + window[..k] + [window[k]];
    var all := Untagged(Sorted(Tagged(tid, open + Repair(horizon, open, window))));
    assert all == start + all[|start|..];
    DepthConcat(0, start, all[|start|..]);
  }

  lemma LaterTicks(horizon: nat, open: seq<Mark>, window: seq<Mark>, k: nat)
    requires NonDecreasing(open + window) && k < |window| && window[k].ticks <= horizon
    ensures NotBefore(Repair(horizon, [], window[k + 1..]), window[k].ticks)
  {
    var rest := Repair(horizon, [], window[k + 1..]);
    RepairMembers(horizon, [], window[k + 1..]);
    forall i | 0 <= i < |rest| ensures window[k].ticks <= rest[i].ticks {
      assert rest[i] in rest;
      if rest[i] in window[k + 1..] {
        var j :| 0 <= j < |window[k + 1..]| && window[k + 1..][j] == rest[i];
        assert (open + window)[|open| + k] == window[k] && (open + window)[|open| + k + 1 + j] == rest[i];
      }
    }
  }

  lemma DipsBelow(open: seq<Mark>, matched: seq<Mark>, u: Mark)
    requires AllOpen(open) && Unmatched(open, matched) == [] && Replayed(open, matched) == [] && !Opens(u.codeKind)
    ensures !NeverNegative(0, open + matched + [u])
  {
    OpensNeverNegative(0, open);
    NothingToRepair(0, open, matched);
    DepthConcat(0, open, matched);
    DepthConcat(0, open + matched, [u]);
    assert [u][1..] == [];
  }

  lemma {:induction false} OpensNeverNegative(depth: nat, opens: seq<Mark>)
    requires AllOpen(opens)
    ensures NeverNegative(depth, opens) && Depth(depth, opens) == depth + |opens|
    decreases |opens|
  {
    if opens != [] {
      OpensNeverNegative(depth + 1, opens[1..]);
    }
  }

  lemma {:induction false} ReplayedMembers(stack: seq<Mark>, marks: seq<Mark>)
    ensures forall m :: m in Replayed(stack, marks) ==> m in stack || m in marks
    decreases |marks|
  {
    if marks != [] {
      ReplayedMembers(Apply(stack, marks[0]), marks[1..]);
      assert marks == [marks[0]] + marks[1..];
    }
  }

  lemma OpenBeforeWindow(start: nat, end: nat, stream: seq<Mark>, open: seq<Mark>, window: seq<Mark>)
    requires NonDecreasing(stream) && open == Replayed([], Span(stream, 0, start)) && window == Span(stream, start, end + 1)
    ensures forall i :: 0 <= i < |open| ==> open[i] in stream && open[i].ticks < start
    ensures forall i :: 0 <= i < |window| ==> window[i] in stream && start <= window[i].ticks
    ensures NonDecreasing(window) && NonDecreasing(Span(stream, 0, start))
  {
    SpanFacts(stream, 0, start);
    SpanFacts(stream, start, end + 1);
    ReplayedMembers([], Span(stream, 0, start));
    assert forall i :: 0 <= i < |open| ==> open[i] in open;
    assert forall i :: 0 <= i < |window| ==> window[i] in window;
  }

  // ----- in order, what is cut out stays in order -----

  lemma {:induction false} UnmatchedConcat(stack: seq<Mark>, a: seq<Mark>, b: seq<Mark>)
    ensures Unmatched(stack, a + b) == Unmatched(stack, a) + Unmatched(Replayed(stack, a), b)
    decreases |a|
  {
    if a == [] {
      assert a + b == b;
    } else {
      assert (a + b)[1..] == a[1..] + b;
      UnmatchedConcat(Apply(stack, a[0]), a[1..], b);
    }
  }

  lemma {:induction false} SortedAlready(tid: u32, marks: seq<Mark>)
    requires NonDecreasing(marks)
    ensures Sorted(Tagged(tid, marks)) == Tagged(tid, marks)
    decreases |marks|
  {
    if marks != [] {
      var front, last := marks[..|marks| - 1], marks[|marks| - 1];
      SortedAlready(tid, front);
      var x := Entry(last.ticks, tid, last.codeKind);
      assert Tagged(tid, marks) == Tagged(tid, front) + [x];
      SortedSnoc(Tagged(tid, front), x);
    }
  }

  lemma {:induction false} ReplayedStaysOrdered(stack: seq<Mark>, marks: seq<Mark>)
    requires NonDecreasing(stack + marks)
    ensures NonDecreasing(Replayed(stack, marks))
    decreases |marks|
  {
    if marks == [] {
      assert stack + [] == stack;
    } else {
      var next: seq<Mark>, all: seq<Mark>, rest: seq<Mark> := Apply(stack, marks[0]), stack + marks, marks[1..];
      forall i: nat, j: nat | 0 <= i < j < |next + rest| ensures (next + rest)[i].ticks <= (next + rest)[j].ticks {
        var gap := |all| - |next + rest|;
        var i' := if i < |next| then i else i + gap;
        var j' := if j < |next| then j else j + gap;
        assert (next + rest)[i] == all[i'] && (next + rest)[j] == all[j'];
      }
      ReplayedStaysOrdered(next, rest);
    }
  }

  predicate Above(marks: seq<Mark>, ticks: nat) {
    forall i :: 0 <= i < |marks| ==> ticks < marks[i].ticks
  }

  lemma JoinStaysOrdered(a: seq<Mark>, b: seq<Mark>, start: nat)
    requires NonDecreasing(a) && NonDecreasing(b)
    requires forall i :: 0 <= i < |a| ==> a[i].ticks < start
    requires forall i :: 0 <= i < |b| ==> start <= b[i].ticks
    ensures NonDecreasing(a + b)
  {
  }

  lemma CutStaysOrdered(start: nat, end: nat, stream: seq<Mark>)
    requires NonDecreasing(stream)
    ensures NonDecreasing(Replayed([], Span(stream, 0, start)) + Span(stream, start, end + 1))
  {
    var early, window := Span(stream, 0, start), Span(stream, start, end + 1);
    var open := Replayed([], early);
    OpenBeforeWindow(start, end, stream, open, window);
    assert [] + early == early;
    ReplayedStaysOrdered([], early);
    JoinStaysOrdered(open, window, start);
  }

  // ----- deduplication -----

  function OwnBatches(all: seq<Batch>, tid: u32): seq<Batch> {
    if all == [] then []
    else if all[|all| - 1].tid == tid then OwnBatches(all[..|all| - 1], tid) + [all[|all| - 1]]
    else OwnBatches(all[..|all| - 1], tid)
  }

  function MarksOf(batches: seq<Batch>): seq<Mark> {
    if batches == [] then [] else MarksOf(batches[..|batches| - 1]) + batches[|batches| - 1].Marks()
  }

  lemma {:induction false} StreamIsOwnMarks(all: seq<Batch>, tid: u32)
    ensures Assemble.StreamOf(all, tid) == MarksOf(OwnBatches(all, tid))
    decreases |all|
  {
    if all != [] {
      StreamIsOwnMarks(all[..|all| - 1], tid);
      var own := OwnBatches(all[..|all| - 1], tid);
      if all[|all| - 1].tid == tid {
        assert (own + [all[|all| - 1]])[..|own|] == own;
      }
    }
  }

  lemma {:induction false} OwnConcat(a: seq<Batch>, b: seq<Batch>, tid: u32)
    ensures OwnBatches(a + b, tid) == OwnBatches(a, tid) + OwnBatches(b, tid)
    decreases |b|
  {
    if b == [] {
      assert a + b == a;
    } else {
      assert (a + b)[..|a + b| - 1] == a + b[..|b| - 1];
      OwnConcat(a, b[..|b| - 1], tid);
    }
  }

  lemma {:induction false} MarksConcat(a: seq<Batch>, b: seq<Batch>)
    ensures MarksOf(a + b) == MarksOf(a) + MarksOf(b)
    decreases |b|
  {
    if b == [] {
      assert a + b == a;
    } else {
      assert (a + b)[..|a + b| - 1] == a + b[..|b| - 1];
      MarksConcat(a, b[..|b| - 1]);
    }
  }

  lemma {:induction false} FreshOwn(history: seq<Batch>, tails: seq<Batch>, tid: u32)
    ensures OwnBatches(Assemble.Fresh(history, tails), tid) == Assemble.Fresh(history, OwnBatches(tails, tid))
    decreases |tails|
  {
    if tails != [] {
      var front, last := tails[..|tails| - 1], tails[|tails| - 1];
      FreshOwn(history, front, tid);
      var kept, own := Assemble.Fresh(history, front), OwnBatches(front, tid);
      assert (kept + [last])[..|kept|] == kept;
      assert (own + [last])[..|own|] == own;
    }
  }

  lemma {:induction false} OwnMembers(all: seq<Batch>, tid: u32)
    ensures forall b :: b in OwnBatches(all, tid) <==> b in all && b.tid == tid
    decreases |all|
  {
    if all != [] {
      OwnMembers(all[..|all| - 1], tid);
      assert all == all[..|all| - 1] + [all[|all| - 1]];
    }
  }

  /** A tail is left out exactly when the history holds a batch of its thread with its base. */
  ghost predicate Held(held: seq<Batch>, tail: Batch) {
    exists a :: 0 <= a < |held| && held[a].base == tail.base
  }

  lemma TailIsFreshIff(tid: u32, held: seq<Batch>, tail: Batch, history: seq<Batch>)
    requires OwnBatches(history, tid) == held && tail.tid == tid
    ensures Assemble.Fresh(history, [tail]) == if Held(held, tail) then [] else [tail]
  {
    OwnMembers(history, tid);
    assert [tail][..0] == [] && [] + [tail] == [tail];
    if Held(held, tail) {
      var a :| 0 <= a < |held| && held[a].base == tail.base;
      assert held[a] in history && Assemble.SameBatch(held[a], tail);
    } else {
      forall h | h in history ensures !Assemble.SameBatch(h, tail) {
        if h.tid == tid {
          assert h in held;
        }
      }
    }
  }

  /** What is replayed of a thread: the batches the history holds of it, and its tail unless one of them has its base. */
  lemma CapturedStream(tid: u32, held: seq<Batch>, tail: Batch, history: seq<Batch>, tails: seq<Batch>)
    requires OwnBatches(history, tid) == held && OwnBatches(tails, tid) == [tail] && tail.tid == tid
    ensures Assemble.StreamOf(history + Assemble.Fresh(history, tails), tid)
         == MarksOf(held) + if Held(held, tail) then [] else tail.Marks()
  {
    var added := Assemble.Fresh(history, tails);
    StreamIsOwnMarks(history + added, tid);
    OwnConcat(history, added, tid);
    FreshOwn(history, tails, tid);
    TailIsFreshIff(tid, held, tail, history);
    hide MarksOf, OwnBatches;
    if Held(held, tail) {
      assert held + [] == held;
      assert MarksOf(held) + [] == MarksOf(held);
    } else {
      MarksConcat(held, [tail]);
      OneBatch(tail);
    }
  }

  lemma OneBatch(b: Batch)
    ensures MarksOf([b]) == b.Marks()
  {
    assert [b][..0] == [];
    assert [] + b.Marks() == b.Marks();
  }

  /**
   Deduplication: if `batches` are all of a thread's batches in order, the history holds those from `i` up to
   `j`, and the tail read is an unfinished copy of batch `k`, not already evicted, then what is replayed is a
   gapless piece of the thread's pushes in which no event is counted twice.
   */
  lemma CapturedPieceIsGapless(tid: u32, batches: seq<Batch>, i: nat, j: nat, k: nat, tail: Batch,
                               history: seq<Batch>, tails: seq<Batch>)
    requires i <= k <= j <= |batches| && k < |batches|
    requires OwnBatches(history, tid) == batches[i..j] && OwnBatches(tails, tid) == [tail]
    requires tail.base == batches[k].base && tail.tid == tid && tail.events <= batches[k].events
    ensures var stream := Assemble.StreamOf(history + Assemble.Fresh(history, tails), tid);
            && stream == MarksOf(batches[i..j]) + (if Held(batches[i..j], tail) then [] else tail.Marks())
            && stream <= MarksOf(batches[i..])
  {
    var held := batches[i..j];
    CapturedStream(tid, held, tail, history, tails);
    PieceIsPrefix(batches, i, j, k, tail);
    hide MarksOf, OwnBatches;
    assert k < j ==> held[k - i].base == tail.base;
    ShorterPrefix(MarksOf(held), if k == j then tail.Marks() else [], MarksOf(batches[i..]));
    assert MarksOf(held) + [] == MarksOf(held);
  }

  lemma ShorterPrefix(a: seq<Mark>, b: seq<Mark>, c: seq<Mark>)
    requires a + b <= c
    ensures a <= c
  {
    assert forall k :: 0 <= k < |a| ==> a[k] == (a + b)[k] == c[k];
  }

  lemma PieceIsPrefix(batches: seq<Batch>, i: nat, j: nat, k: nat, tail: Batch)
    requires i <= k <= j <= |batches| && k < |batches|
    requires tail.base == batches[k].base && tail.events <= batches[k].events
    ensures MarksOf(batches[i..j]) + (if k == j then tail.Marks() else []) <= MarksOf(batches[i..])
  {
    assert batches[i..] == batches[i..j] + batches[j..];
    MarksConcat(batches[i..j], batches[j..]);
    if k == j {
      assert batches[j..] == [batches[j]] + batches[j + 1..];
      MarksConcat([batches[j]], batches[j + 1..]);
      OneBatch(batches[j]);
      assert tail.Marks() <= batches[j].Marks();
    }
  }

  // ----- time and the horizon -----

  /** A monotone clock keeps the dump in time order once ticks have become nanoseconds. */
  lemma ToldInTimeOrder(events: seq<Event>, all: seq<Batch>, ns: nat -> u64, horizon: nat, start: nat, end: nat)
    requires Assemble.Told(events, all, ns, horizon, start, end) && forall a: nat, b: nat :: a <= b ==> ns(a) <= ns(b)
    ensures forall i, j :: 0 <= i < j < |events| ==> events[i].tsNs <= events[j].tsNs
  {
    hide Assemble.DumpOf, Ascending;
    var sorted :| Assemble.DumpOf(sorted, all, horizon, start, end) && Assemble.TellsAll(ns, sorted, events);
    DumpAscends(sorted, all, horizon, start, end);
    forall i: nat, j: nat | i < j < |events| ensures events[i].tsNs <= events[j].tsNs {
      assert Assemble.Tells(ns, sorted[i], events[i]) && Assemble.Tells(ns, sorted[j], events[j]);
    }
  }

  lemma DumpAscends(sorted: seq<Entry>, all: seq<Batch>, horizon: nat, start: nat, end: nat)
    requires Assemble.DumpOf(sorted, all, horizon, start, end)
    ensures forall i, j :: 0 <= i < j < |sorted| ==> sorted[i].ticks <= sorted[j].ticks
  {
    AscendingPairs(sorted);
  }

  // ----- the finished dump -----

  /**
   A thread's slice of an assembled dump, whatever its ticks: the frames open when the window is first reached, one
   synthesized open for each close that finds nothing open, and its events of the window among those looked at, which
   are all its captured events inside the window exactly when none comes after an event past the end. In order, its
   depth never drops below zero exactly when the horizon is no later than the first such close.
   */
  lemma ThreadInDump(sorted: seq<Entry>, all: seq<Batch>, horizon: nat, start: nat, end: nat, tid: u32)
    requires Assemble.DumpOf(sorted, all, horizon, start, end)
    ensures var stream := Assemble.StreamOf(all, tid);
            var open, orphans := Carried(start, stream), Orphans(start, [], Looked(start, end, stream));
            var slice, frames := multiset(Untagged(OfTid(sorted, tid))), multiset(open) + multiset(Invented(horizon, orphans));
            && slice == frames + multiset(InWindow(start, end, stream))
            && (slice == frames + multiset(Span(stream, start, end + 1)) <==> !CutShort(start, end, stream))
    ensures var stream := Assemble.StreamOf(all, tid);
            NonDecreasing(stream) ==>
              (NeverNegative(0, Untagged(OfTid(sorted, tid)))
               <==> EarlyEnough(horizon, Unmatched(Replayed([], Span(stream, 0, start)), Span(stream, start, end + 1))))
  {
    var stream := Assemble.StreamOf(all, tid);
    var emitted := Emitted(horizon, start, end, stream);
    ThreadContribution(horizon, start, end, stream);
    if NonDecreasing(stream) {
      SortedDepthNeverNegativeIff(tid, horizon, start, end, stream);
    }
    SortedMarks(Tagged(tid, emitted));
    assert Untagged(Tagged(tid, emitted)) == emitted;
    hide CutShort, Span, Looked, Orphans, Invented, Emission;
  }

  lemma {:induction false} InsertedMarks(s: seq<Entry>, x: Entry)
    ensures multiset(Untagged(Insert(s, x))) == multiset(Untagged(s)) + multiset{Mark(x.ticks, x.codeKind)}
    decreases |s|
  {
    if s == [] || s[|s| - 1].ticks <= x.ticks {
      UntaggedSnoc(s, x);
    } else {
      var front, last := s[..|s| - 1], s[|s| - 1];
      InsertedMarks(front, x);
      UntaggedSnoc(Insert(front, x), last);
      UntaggedSnoc(front, last);
      assert s == front + [last];
    }
  }

  /** Sorting keeps the events of a thread. */
  lemma {:induction false} SortedMarks(s: seq<Entry>)
    ensures multiset(Untagged(Sorted(s))) == multiset(Untagged(s))
    decreases |s|
  {
    if s != [] {
      var front, last := s[..|s| - 1], s[|s| - 1];
      SortedMarks(front);
      InsertedMarks(Sorted(front), last);
      UntaggedSnoc(front, last);
      assert s == front + [last];
    }
  }
}
