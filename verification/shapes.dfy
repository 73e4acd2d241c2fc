/** A thread's whole slice of a dump after the sort by tick, and when the names of its frames match there. */
module Shapes {
  import opened Words
  import opened Events
  import opened Batches
  import opened Stacks
  import opened Replay
  import opened Nesting
  import opened StableSort
  import opened Dumps

  // ----- a stable sort around one tick -----

  datatype Side = Before | Same | After

  predicate On(side: Side, e: Entry, t: nat) {
    match side
    case Before => e.ticks < t
    case Same => e.ticks == t
    case After => t < e.ticks
  }

  /** The entries before a tick, at it or after it, in their order. */
  function Part(s: seq<Entry>, t: nat, side: Side): seq<Entry> {
    if s == [] then []
    else Part(s[..|s| - 1], t, side) + if On(side, s[|s| - 1], t) then [s[|s| - 1]] else []
  }

  lemma {:induction false} PartConcat(a: seq<Entry>, b: seq<Entry>, t: nat, side: Side)
    ensures Part(a + b, t, side) == Part(a, t, side) + Part(b, t, side)
    decreases |b|
  {
    if b == [] {
      assert a + b == a;
    } else {
      assert (a + b)[..|a + b| - 1] == a + b[..|b| - 1];
      PartConcat(a, b[..|b| - 1], t, side);
    }
  }

  lemma {:induction false} PartMembers(s: seq<Entry>, t: nat, side: Side)
    ensures forall e :: e in Part(s, t, side) ==> On(side, e, t)
    decreases |s|
  {
    if s != [] {
      PartMembers(s[..|s| - 1], t, side);
    }
  }

  lemma SortedPartMembers(s: seq<Entry>, t: nat, side: Side)
    ensures forall i :: 0 <= i < |Sorted(Part(s, t, side))| ==> On(side, Sorted(Part(s, t, side))[i], t)
  {
    var part := Part(s, t, side);
    PartMembers(s, t, side);
    SortedFacts(part);
    hide Sorted, Part, Ascending;
    forall i | 0 <= i < |Sorted(part)| ensures On(side, Sorted(part)[i], t) {
      assert Sorted(part)[i] in multiset(Sorted(part));
      assert Sorted(part)[i] in part;
    }
  }

  lemma {:induction false} InsertInFront(front: seq<Entry>, rest: seq<Entry>, x: Entry)
    requires forall i :: 0 <= i < |rest| ==> x.ticks < rest[i].ticks
    ensures Insert(front + rest, x) == Insert(front, x) + rest
    decreases |rest|
  {
    if rest == [] {
      assert front + rest == front && Insert(front, x) + rest == Insert(front, x);
    } else {
      assert (front + rest)[..|front + rest| - 1] == front + rest[..|rest| - 1];
      InsertInFront(front, rest[..|rest| - 1], x);
    }
  }

  lemma {:induction false} InsertBehind(front: seq<Entry>, rest: seq<Entry>, x: Entry)
    requires forall i :: 0 <= i < |front| ==> front[i].ticks <= x.ticks
    ensures Insert(front + rest, x) == front + Insert(rest, x)
    decreases |rest|
  {
    if rest == [] {
      assert front + rest == front && front + [x] == front + Insert([], x);
    } else {
      assert (front + rest)[..|front + rest| - 1] == front + rest[..|rest| - 1];
      InsertBehind(front, rest[..|rest| - 1], x);
    }
  }

  predicate AllOn(side: Side, s: seq<Entry>, t: nat) {
    forall i :: 0 <= i < |s| ==> On(side, s[i], t)
  }

  lemma Chain(a: seq<Entry>, b: seq<Entry>, c: seq<Entry>)
    ensures a + b + c == a + (b + c)
  {
  }

  lemma AllConcat(t: nat, x: Entry, a: seq<Entry>, b: seq<Entry>)
    ensures (forall i :: 0 <= i < |a| ==> a[i].ticks <= x.ticks) && (forall i :: 0 <= i < |b| ==> b[i].ticks <= x.ticks)
            ==> forall i :: 0 <= i < |a + b| ==> (a + b)[i].ticks <= x.ticks
    ensures (forall i :: 0 <= i < |a| ==> x.ticks < a[i].ticks) && (forall i :: 0 <= i < |b| ==> x.ticks < b[i].ticks)
            ==> forall i :: 0 <= i < |a + b| ==> x.ticks < (a + b)[i].ticks
  {
  }

  /** Where a new entry goes in a list that is sorted by parts. */
  lemma InsertByPart(u: seq<Entry>, a: seq<Entry>, o: seq<Entry>, x: Entry, t: nat)
    requires AllOn(Before, u, t) && AllOn(Same, a, t) && AllOn(After, o, t)
    ensures On(Before, x, t) ==> Insert(u + a + o, x) == Insert(u, x) + a + o
    ensures On(Same, x, t) ==> Insert(u + a + o, x) == u + (a + [x]) + o
    ensures On(After, x, t) ==> Insert(u + a + o, x) == u + a + Insert(o, x)
  {
    if On(Before, x, t) {
      AllConcat(t, x, a, o);
      InsertInFront(u, a + o, x);
      hide Insert;
      Chain(u, a, o);
      Chain(Insert(u, x), a, o);
    } else {
      AllConcat(t, x, u, a);
      if On(Same, x, t) {
        InsertBetween(u + a, o, x);
        hide Insert;
        Chain(u, a, [x]);
      } else {
        InsertBehind(u + a, o, x);
      }
    }
  }

  lemma PartIsOn(s: seq<Entry>, t: nat, side: Side)
    ensures AllOn(side, Part(s, t, side), t) && AllOn(side, Sorted(Part(s, t, side)), t)
  {
    PartMembers(s, t, side);
    SortedPartMembers(s, t, side);
    hide Sorted, Part;
    assert forall i :: 0 <= i < |Part(s, t, side)| ==> Part(s, t, side)[i] in Part(s, t, side);
  }

  /** Whatever the list: sorted before the tick, in the list's own order at it, sorted after it. */
  lemma {:induction false} SortedParts(s: seq<Entry>, t: nat)
    ensures Sorted(s) == Sorted(Part(s, t, Before)) + Part(s, t, Same) + Sorted(Part(s, t, After))
    decreases |s|
  {
    if s != [] {
      var front, x := s[..|s| - 1], s[|s| - 1];
      assert s == front + [x];
      hide Sorted, Part, AllOn, Insert;
      SortedParts(front, t);
      PartIsOn(front, t, Before);
      PartIsOn(front, t, Same);
      PartIsOn(front, t, After);
      SortedSnoc(front, x);
      PartSnoc(front, x, t, Before);
      PartSnoc(front, x, t, Same);
      PartSnoc(front, x, t, After);
      SortedSnoc(Part(front, t, Before), x);
      SortedSnoc(Part(front, t, After), x);
      InsertByPart(Sorted(Part(front, t, Before)), Part(front, t, Same), Sorted(Part(front, t, After)), x, t);
    }
  }

  lemma PartSnoc(s: seq<Entry>, x: Entry, t: nat, side: Side)
    ensures Part(s + [x], t, side) == if On(side, x, t) then Part(s, t, side) + [x] else Part(s, t, side)
  {
    assert (s + [x])[..|s|] == s;
    assert Part(s, t, side) + [] == Part(s, t, side);
  }

  // ----- any thread, any ticks, any horizon -----

  lemma {:induction false} KeptByPart(tid: u32, horizon: nat, start: nat, end: nat, stack: seq<Mark>, marks: seq<Mark>, side: Side)
    requires Continues(start, end, marks) && side != Same
    ensures Part(Tagged(tid, Kept(horizon, start, stack, marks)), horizon, side)
         == Part(Tagged(tid, Span(marks, start, end + 1)), horizon, side)
    decreases |marks|
  {
    if marks != [] {
      var m, later, next := marks[0], marks[1..], Apply(stack, marks[0]);
      assert Continues(start, end, later) && !Stops(start, end, m);
      KeptByPart(tid, horizon, start, end, next, later, side);
      var now, rest := if m.ticks < start then [] else Repaired(horizon, stack, m), Kept(horizon, start, next, later);
      var own, others := if start <= m.ticks then [m] else [], Span(later, start, end + 1);
      RepairedByPart(tid, horizon, stack, m, side);
      hide Kept, Span, Part, Repaired, Continues, Stops, On;
      TaggedConcat(tid, now, rest);
      TaggedConcat(tid, own, others);
      PartConcat(Tagged(tid, now), Tagged(tid, rest), horizon, side);
      PartConcat(Tagged(tid, own), Tagged(tid, others), horizon, side);
    }
  }

  lemma RepairedByPart(tid: u32, horizon: nat, stack: seq<Mark>, m: Mark, side: Side)
    requires side != Same
    ensures Part(Tagged(tid, Repaired(horizon, stack, m)), horizon, side) == Part(Tagged(tid, [m]), horizon, side)
  {
    if !Opens(m.codeKind) && stack == [] {
      var s := Synthesized(horizon, m);
      TaggedConcat(tid, [s], [m]);
      assert [s, m] == [s] + [m];
      PartConcat(Tagged(tid, [s]), Tagged(tid, [m]), horizon, side);
      assert Tagged(tid, [s])[..0] == [];
      assert Part(Tagged(tid, [s]), horizon, side) == [];
      assert [] + Part(Tagged(tid, [m]), horizon, side) == Part(Tagged(tid, [m]), horizon, side);
    }
  }

  /** A thread's own events in a dump: the frames carried in, and those of the window that are looked at. */
  function Own(start: nat, end: nat, stream: seq<Mark>): seq<Mark> {
    Carried(start, stream) + InWindow(start, end, stream)
  }

  /**
   A thread's slice of a dump after the sort, whatever its ticks and the horizon: its own events before the horizon,
   sorted; at the horizon the order of the emission, which is where all synthesized opens are; its own events after the
   horizon, sorted.
   */
  lemma SortedThread(tid: u32, horizon: nat, start: nat, end: nat, stream: seq<Mark>)
    ensures var own, emitted := Tagged(tid, Own(start, end, stream)), Tagged(tid, Emitted(horizon, start, end, stream));
            Sorted(emitted)
            == Sorted(Part(own, horizon, Before)) + Part(emitted, horizon, Same) + Sorted(Part(own, horizon, After))
  {
    var emitted := Tagged(tid, Emitted(horizon, start, end, stream));
    SortedParts(emitted, horizon);
    OwnByPart(tid, horizon, start, end, stream, Before);
    OwnByPart(tid, horizon, start, end, stream, After);
  }

  lemma OwnByPart(tid: u32, horizon: nat, start: nat, end: nat, stream: seq<Mark>, side: Side)
    requires side != Same
    ensures Part(Tagged(tid, Emitted(horizon, start, end, stream)), horizon, side)
         == Part(Tagged(tid, Own(start, end, stream)), horizon, side)
  {
    var looked, open := Looked(start, end, stream), Carried(start, stream);
    EmissionIsCarriedThenKept(horizon, start, end, [], stream);
    KeptByPart(tid, horizon, start, end, [], looked, side);
    hide Emission, Kept, Looked, Span, Part, Replayed, Approach;
    TaggedConcat(tid, open, Kept(horizon, start, [], looked));
    TaggedConcat(tid, open, InWindow(start, end, stream));
    PartConcat(Tagged(tid, open), Tagged(tid, Kept(horizon, start, [], looked)), horizon, side);
    PartConcat(Tagged(tid, open), Tagged(tid, InWindow(start, end, stream)), horizon, side);
  }

  // ----- in order: the slice event by event -----

  /** Behind everything no later than it, in front of everything later. */
  lemma PlaceSynthesized(tid: u32, head: seq<Mark>, rest: seq<Mark>, s: Mark)
    requires Below(head, s.ticks) && Above(rest, s.ticks)
    ensures Insert(Tagged(tid, head + rest), Entry(s.ticks, tid, s.codeKind)) == Tagged(tid, (head + [s]) + rest)
  {
    TaggedConcat(tid, head, rest);
    TaggedConcat(tid, head + [s], rest);
    TaggedConcat(tid, head, [s]);
    InsertBetween(Tagged(tid, head), Tagged(tid, rest), Entry(s.ticks, tid, s.codeKind));
  }

  lemma PlaceLast(tid: u32, marks: seq<Mark>, m: Mark)
    requires Below(marks, m.ticks)
    ensures Insert(Tagged(tid, marks), Entry(m.ticks, tid, m.codeKind)) == Tagged(tid, marks + [m])
  {
    TaggedConcat(tid, marks, [m]);
  }

  lemma AddPlain(tid: u32, part: seq<Mark>, head: seq<Mark>, rest: seq<Mark>, m: Mark)
    requires Sorted(Tagged(tid, part)) == Tagged(tid, head + rest) && Below(head + rest, m.ticks)
    ensures Sorted(Tagged(tid, part + [m])) == Tagged(tid, head + (rest + [m]))
  {
    TaggedConcat(tid, part, [m]);
    SortedSnoc(Tagged(tid, part), Entry(m.ticks, tid, m.codeKind));
    PlaceLast(tid, head + rest, m);
    assert Tagged(tid, [m]) == [Entry(m.ticks, tid, m.codeKind)];
    Regrouped(head, rest, [m]);
  }

  lemma AddSynthesized(tid: u32, part: seq<Mark>, head: seq<Mark>, rest: seq<Mark>, s: Mark)
    requires Sorted(Tagged(tid, part)) == Tagged(tid, head + rest) && Below(head, s.ticks) && Above(rest, s.ticks)
    ensures Sorted(Tagged(tid, part + [s])) == Tagged(tid, (head + [s]) + rest)
  {
    TaggedConcat(tid, part, [s]);
    SortedSnoc(Tagged(tid, part), Entry(s.ticks, tid, s.codeKind));
    PlaceSynthesized(tid, head, rest, s);
    assert Tagged(tid, [s]) == [Entry(s.ticks, tid, s.codeKind)];
  }

  lemma OneMark(horizon: nat, stack: seq<Mark>, m: Mark)
    ensures Repair(horizon, stack, [m]) == Repaired(horizon, stack, m)
    ensures Unmatched(stack, [m]) == if !Opens(m.codeKind) && stack == [] then [m] else []
  {
    assert [m][1..] == [];
  }

  lemma RepairMore(horizon: nat, stack: seq<Mark>, front: seq<Mark>, m: Mark)
    ensures var now := Replayed(stack, front);
            && Repair(horizon, stack, front + [m]) == Repair(horizon, stack, front) + Repaired(horizon, now, m)
            && Unmatched(stack, front + [m])
                 == if !Opens(m.codeKind) && now == [] then Unmatched(stack, front) + [m] else Unmatched(stack, front)
  {
    RepairConcat(horizon, stack, front, [m]);
    UnmatchedConcat(stack, front, [m]);
    OneMark(horizon, Replayed(stack, front), m);
    assert Unmatched(stack, front) + [] == Unmatched(stack, front);
  }

  lemma WithoutLast(marks: seq<Mark>, m: Mark, horizon: nat)
    requires NonDecreasing(marks + [m]) && Above(marks + [m], horizon)
    ensures NonDecreasing(marks) && Above(marks, horizon) && Below(marks, m.ticks) && horizon < m.ticks
  {
    var all := marks + [m];
    assert all[|marks|] == m;
    assert forall i :: 0 <= i < |marks| ==> marks[i] == all[i];
  }

  /** What is no later than the horizon stays; the opens made up for the rest come behind it; then the rest. */
  lemma {:induction false} SortedShape(tid: u32, horizon: nat, head: seq<Mark>, stack: seq<Mark>, later: seq<Mark>)
    requires NonDecreasing(head) && Below(head, horizon) && NonDecreasing(later) && Above(later, horizon)
    ensures Sorted(Tagged(tid, head + Repair(horizon, stack, later)))
         == Tagged(tid, head + Invented(horizon, Unmatched(stack, later)) + later)
    decreases |later|
  {
    if later == [] {
      assert head + [] == head && head + Invented(horizon, []) + [] == head;
      SortedAlready(tid, head);
    } else {
      var front, m := later[..|later| - 1], later[|later| - 1];
      assert later == front + [m];
      hide NonDecreasing, Above, Below, Repair, Unmatched, Sorted, Tagged, Invented;
      WithoutLast(front, m, horizon);
      SortedShape(tid, horizon, head, stack, front);
      ShapeStep(tid, horizon, head, stack, front, m);
    }
  }

  lemma ShapeStep(tid: u32, horizon: nat, head: seq<Mark>, stack: seq<Mark>, front: seq<Mark>, m: Mark)
    requires Sorted(Tagged(tid, head + Repair(horizon, stack, front)))
          == Tagged(tid, head + Invented(horizon, Unmatched(stack, front)) + front)
    requires Below(head, horizon) && Above(front, horizon) && Below(front, m.ticks) && horizon < m.ticks
    ensures Sorted(Tagged(tid, head + Repair(horizon, stack, front + [m])))
         == Tagged(tid, head + Invented(horizon, Unmatched(stack, front + [m])) + (front + [m]))
  {
    var part, closes := head + Repair(horizon, stack, front), Unmatched(stack, front);
    var all, now := head + Invented(horizon, closes), Replayed(stack, front);
    HeadStaysBelow(horizon, head, closes, front, m);
    hide Repair, Unmatched, Replayed, Sorted, Tagged, Below, Above, Invented;
    RepairMore(horizon, stack, front, m);
    Regrouped(head, Repair(horizon, stack, front), Repaired(horizon, now, m));
    if !Opens(m.codeKind) && now == [] {
      ShapeOrphan(tid, horizon, part, head, closes, front, m);
    } else {
      AddPlain(tid, part, all, front, m);
    }
  }

  lemma HeadStaysBelow(horizon: nat, head: seq<Mark>, closes: seq<Mark>, front: seq<Mark>, m: Mark)
    requires Below(head, horizon) && Below(front, m.ticks) && horizon < m.ticks
    ensures var all := head + Invented(horizon, closes); Below(all, horizon) && Below(all + front, m.ticks)
  {
  }

  lemma StaysBelow(a: seq<Mark>, s: Mark, b: seq<Mark>, t: nat)
    requires Below(a + b, t) && s.ticks <= t
    ensures Below((a + [s]) + b, t)
  {
    var was, all := a + b, (a + [s]) + b;
    forall i | 0 <= i < |all| ensures all[i].ticks <= t {
      if i < |a| {
        assert all[i] == was[i];
      } else if i > |a| {
        assert all[i] == was[i - 1];
      }
    }
  }

  lemma ShapeOrphan(tid: u32, horizon: nat, part: seq<Mark>, head: seq<Mark>, closes: seq<Mark>, front: seq<Mark>, m: Mark)
    requires var all := head + Invented(horizon, closes);
             && Sorted(Tagged(tid, part)) == Tagged(tid, all + front)
             && Below(all, horizon) && Above(front, horizon) && Below(all + front, m.ticks) && horizon < m.ticks
    ensures Sorted(Tagged(tid, part + [Synthesized(horizon, m), m]))
         == Tagged(tid, head + Invented(horizon, closes + [m]) + (front + [m]))
  {
    var s, all := Synthesized(horizon, m), head + Invented(horizon, closes);
    assert Invented(horizon, closes + [m]) == Invented(horizon, closes) + [s];
    AddSynthesized(tid, part, all, front, s);
    StaysBelow(all, s, front, m.ticks);
    hide Below, Above, Sorted, Tagged, Invented, Synthesized;
    AddPlain(tid, part + [s], all + [s], front, m);
    assert part + [s] + [m] == part + [s, m];
    Regrouped(head, Invented(horizon, closes), [s]);
  }

  lemma OrderedSplit(marks: seq<Mark>, horizon: nat)
    requires NonDecreasing(marks)
    ensures var early := Approach(horizon + 1, marks); var late := marks[|early|..];
            && marks == early + late
            && NonDecreasing(early) && Below(early, horizon) && NonDecreasing(late) && Above(late, horizon)
  {
    ApproachStops(horizon + 1, marks);
    var n := |Approach(horizon + 1, marks)|;
    assert Approach(horizon + 1, marks) == marks[..n];
    hide Approach;
    CutInTwo(marks, n, horizon);
  }

  lemma CutInTwo(marks: seq<Mark>, n: nat, horizon: nat)
    requires NonDecreasing(marks) && n <= |marks| && Below(marks[..n], horizon) && (n < |marks| ==> horizon < marks[n].ticks)
    ensures NonDecreasing(marks[..n]) && NonDecreasing(marks[n..]) && Above(marks[n..], horizon)
  {
  }

  lemma {:induction false} ApproachStops(start: nat, marks: seq<Mark>)
    ensures var n := |Approach(start, marks)|; n < |marks| ==> start <= marks[n].ticks
    decreases |marks|
  {
    if marks != [] && marks[0].ticks < start {
      ApproachStops(start, marks[1..]);
    }
  }

  /** Repaired up to the horizon, nothing moves, if no orphan comes before it. */
  lemma {:induction false} RepairInOrder(horizon: nat, before: seq<Mark>, stack: seq<Mark>, marks: seq<Mark>)
    requires NonDecreasing(before + marks) && Below(before + marks, horizon)
    requires NotBefore(Unmatched(stack, marks), horizon)
    ensures NonDecreasing(before + Repair(horizon, stack, marks)) && Below(before + Repair(horizon, stack, marks), horizon)
    decreases |marks|
  {
    hide NonDecreasing, Below, NotBefore;
    if marks != [] {
      var m, later := marks[0], marks[1..];
      var rest := Repair(horizon, Apply(stack, m), later);
      assert marks == [m] + later;
      Regrouped(before, [m], later);
      if !Opens(m.codeKind) && stack == [] {
        var s := Synthesized(horizon, m);
        assert s.ticks == horizon;
        hide Unmatched, Synthesized;
        OrphanFirst(horizon, m, later);
        PutInFront(horizon, before, s, m, later);
        RepairInOrder(horizon, before + [s] + [m], [], later);
        Regrouped(before + [s], [m], rest);
        Regrouped(before, [s], [m] + rest);
        assert [s] + ([m] + rest) == [s, m] + rest;
      } else {
        RepairInOrder(horizon, before + [m], Apply(stack, m), later);
        Regrouped(before, [m], rest);
      }
    }
  }

  lemma OrphanFirst(horizon: nat, m: Mark, later: seq<Mark>)
    requires !Opens(m.codeKind) && NotBefore(Unmatched([], [m] + later), horizon)
    ensures horizon <= m.ticks && NotBefore(Unmatched([], later), horizon)
  {
    assert ([m] + later)[1..] == later;
    var all, rest := Unmatched([], [m] + later), Unmatched([], later);
    assert all[0] == m;
    forall i | 0 <= i < |rest| ensures horizon <= rest[i].ticks {
      assert all[i + 1] == rest[i];
    }
  }

  lemma PutInFront(horizon: nat, before: seq<Mark>, s: Mark, m: Mark, later: seq<Mark>)
    requires NonDecreasing(before + [m] + later) && Below(before + [m] + later, horizon) && horizon <= m.ticks && s.ticks == horizon
    ensures NonDecreasing(before + [s] + [m] + later) && Below(before + [s] + [m] + later, horizon)
  {
    var was, all := before + [m] + later, before + [s] + [m] + later;
    assert was[|before|] == m;
    forall i | 0 <= i < |all| ensures all[i].ticks <= horizon && (|before| <= i ==> all[i].ticks == horizon) {
      if |before| < i {
        assert all[i] == was[i - 1];
      } else if i < |before| {
        assert all[i] == was[i];
      }
    }
    assert forall i :: 0 <= i < |before| ==> all[i] == was[i];
  }

  /** In order, the emission is its own events repaired. */
  lemma EmissionInOrder(horizon: nat, start: nat, end: nat, stream: seq<Mark>)
    requires NonDecreasing(stream)
    ensures var own := Own(start, end, stream);
            && own == Replayed([], Span(stream, 0, start)) + Span(stream, start, end + 1)
            && Emitted(horizon, start, end, stream) == Repair(horizon, [], own) && NonDecreasing(own)
            && Unmatched([], own) == Unmatched(Replayed([], Span(stream, 0, start)), Span(stream, start, end + 1))
  {
    var open, window := Replayed([], Span(stream, 0, start)), Span(stream, start, end + 1);
    EmissionIsCarriedThenRepaired(horizon, start, end, [], stream);
    InOrderContribution(start, end, stream);
    CutStaysOrdered(start, end, stream);
    StacksHoldOpens([], Span(stream, 0, start));
    hide NonDecreasing, Emission, Span, Approach, Looked;
    OpensNeedNoRepair(horizon, [], open);
    assert [] + open == open;
    RepairConcat(horizon, [], open, window);
    UnmatchedConcat([], open, window);
    assert [] + Unmatched(open, window) == Unmatched(open, window);
  }

  lemma {:induction false} OpensNeedNoRepair(horizon: nat, stack: seq<Mark>, opens: seq<Mark>)
    requires AllOpen(opens)
    ensures Repair(horizon, stack, opens) == opens && Unmatched(stack, opens) == [] && Replayed(stack, opens) == stack + opens
    decreases |opens|
  {
    OpensReplayToThemselves(stack, opens);
    if opens != [] {
      OpensNeedNoRepair(horizon, stack + [opens[0]], opens[1..]);
    }
  }

  /**
   In order, event by event, for every horizon no later than the first orphan: the events up to the horizon, repaired as
   emitted; the opens made up for the later orphans, in the order their closes come; the events after the horizon.
   */
  lemma SortedInOrder(tid: u32, horizon: nat, start: nat, end: nat, stream: seq<Mark>)
    requires NonDecreasing(stream) && EarlyEnough(horizon, Unmatched([], Own(start, end, stream)))
    ensures var own := Own(start, end, stream);
            var early := Approach(horizon + 1, own); var late := own[|early|..];
            Sorted(Tagged(tid, Emitted(horizon, start, end, stream)))
            == Tagged(tid, Repair(horizon, [], early) + Invented(horizon, Unmatched(Replayed([], early), late)) + late)
  {
    var own := Own(start, end, stream);
    EmissionInOrder(horizon, start, end, stream);
    hide Own, Emission;
    OwnInOrder(tid, horizon, own);
  }

  lemma OwnInOrder(tid: u32, horizon: nat, own: seq<Mark>)
    requires NonDecreasing(own) && EarlyEnough(horizon, Unmatched([], own))
    ensures var early := Approach(horizon + 1, own); var late := own[|early|..];
            Sorted(Tagged(tid, Repair(horizon, [], own)))
            == Tagged(tid, Repair(horizon, [], early) + Invented(horizon, Unmatched(Replayed([], early), late)) + late)
  {
    hide Repair, Sorted, Tagged, Unmatched, EarlyEnough, NonDecreasing, Below, Above, Replayed;
    OrderedSplit(own, horizon);
    var early := Approach(horizon + 1, own);
    var late := own[|early|..];
    hide Approach;
    EarlyOrphans(horizon, own, early, late);
    assert [] + early == early && [] + Repair(horizon, [], early) == Repair(horizon, [], early);
    RepairInOrder(horizon, [], [], early);
    RepairConcat(horizon, [], early, late);
    SortedShape(tid, horizon, Repair(horizon, [], early), Replayed([], early), late);
  }

  lemma EarlyOrphans(horizon: nat, own: seq<Mark>, early: seq<Mark>, late: seq<Mark>)
    requires NonDecreasing(own) && own == early + late && EarlyEnough(horizon, Unmatched([], own))
    ensures NotBefore(Unmatched([], early), horizon)
  {
    UnmatchedConcat([], early, late);
    UnmatchedInOrder([], own);
    var all, some := Unmatched([], own), Unmatched([], early);
    hide Unmatched, NonDecreasing, Replayed;
    if some != [] {
      assert all[0] == some[0];
      forall i | 0 <= i < |some| ensures horizon <= some[i].ticks {
        assert all[i] == some[i];
      }
    }
  }

  lemma {:induction false} UnmatchedInOrder(stack: seq<Mark>, marks: seq<Mark>)
    requires NonDecreasing(marks)
    ensures forall i :: 0 <= i < |Unmatched(stack, marks)| ==> Unmatched(stack, marks)[0].ticks <= Unmatched(stack, marks)[i].ticks
    decreases |marks|
  {
    if marks != [] {
      var later := marks[1..];
      UnmatchedInOrder(Apply(stack, marks[0]), later);
      UnmatchedMembers(Apply(stack, marks[0]), later);
      var rest := Unmatched(Apply(stack, marks[0]), later);
      forall i | 0 <= i < |rest| ensures marks[0].ticks <= rest[i].ticks {
        assert rest[i] in later;
      }
    }
  }

  // ----- when the names match -----

  /** `below` gives its frames back, top first, to the unmatched closes. */
  predicate GivesBack(below: seq<nat>, closes: seq<nat>) {
    |closes| <= |below| && forall j :: 0 <= j < |closes| ==> closes[j] == below[|below| - 1 - j]
  }

  predicate Palindrome(codes: seq<nat>) {
    forall j :: 0 <= j < |codes| ==> codes[j] == codes[|codes| - 1 - j]
  }

  lemma {:induction false} MatchesWhenGivenBack(truth: seq<nat>, below: seq<nat>, stack: seq<Mark>, marks: seq<Mark>)
    requires Nested(truth + Codes(stack), marks)
    ensures Nested(below + Codes(stack), marks) <==> GivesBack(below, Codes(Unmatched(stack, marks)))
    decreases |marks|, 0
  {
    if marks == [] {
    } else {
      hide GivesBack, Nested;
      var m, rest := marks[0], marks[1..];
      assert marks == [m] + rest;
      NestedCons(truth + Codes(stack), m, rest);
      NestedCons(below + Codes(stack), m, rest);
      if !Opens(m.codeKind) && stack == [] {
        assert truth + Codes(stack) == truth && below + Codes(stack) == below;
        UnmatchedClose(truth, below, m, rest);
      } else {
        ApplyCodes(truth, stack, m);
        ApplyCodes(below, stack, m);
        MatchesWhenGivenBack(truth, below, Apply(stack, m), rest);
      }
    }
  }

  lemma {:induction false} UnmatchedClose(truth: seq<nat>, below: seq<nat>, m: Mark, rest: seq<Mark>)
    requires !Opens(m.codeKind) && Nested(truth, [m] + rest)
    ensures Nested(below, [m] + rest) <==> GivesBack(below, Codes([m] + Unmatched([], rest)))
    decreases |rest|, 1
  {
    var c, later := CodeOf(m.codeKind), Codes(Unmatched([], rest));
    NestedCons(truth, m, rest);
    NestedCons(below, m, rest);
    GivesBackOne(below, c, later);
    assert Codes([m] + Unmatched([], rest)) == [c] + later;
    if below != [] {
      assert truth[..|truth| - 1] + Codes([]) == truth[..|truth| - 1];
      assert below[..|below| - 1] + Codes([]) == below[..|below| - 1];
      MatchesWhenGivenBack(truth[..|truth| - 1], below[..|below| - 1], [], rest);
    }
  }

  lemma GivesBackOne(below: seq<nat>, c: nat, later: seq<nat>)
    ensures GivesBack(below, [c] + later)
            <==> below != [] && below[|below| - 1] == c && GivesBack(below[..|below| - 1], later)
  {
    var closes := [c] + later;
    if below != [] {
      var front := below[..|below| - 1];
      if GivesBack(below, closes) {
        assert closes[0] == below[|below| - 1];
        forall j | 0 <= j < |later| ensures later[j] == front[|front| - 1 - j] {
          assert closes[j + 1] == below[|below| - 1 - (j + 1)];
        }
      }
      if below[|below| - 1] == c && GivesBack(front, later) {
        forall j | 0 <= j < |closes| ensures closes[j] == below[|below| - 1 - j] {
          if j > 0 {
            assert later[j - 1] == front[|front| - 1 - (j - 1)];
          }
        }
      }
    }
  }

  lemma InventedOpens(horizon: nat, closes: seq<Mark>)
    ensures AllOpen(Invented(horizon, closes)) && Codes(Invented(horizon, closes)) == Codes(closes)
  {
    forall i | 0 <= i < |closes|
      ensures Opens(Invented(horizon, closes)[i].codeKind)
      ensures CodeOf(Invented(horizon, closes)[i].codeKind) == CodeOf(closes[i].codeKind)
    {
      PackingKeepsKindAndId(CodeOf(closes[i].codeKind), Begin);
    }
  }

  /** Repairing a nested piece nests it above what was captured before it. */
  lemma {:induction false} RepairIsNested(horizon: nat, below: seq<nat>, stack: seq<Mark>, marks: seq<Mark>)
    requires Nested(below + Codes(stack), marks)
    ensures Nested(Codes(stack), Repair(horizon, stack, marks))
    decreases |marks|
  {
    if marks != [] {
      var m, later := marks[0], marks[1..];
      assert marks == [m] + later;
      var left := OneEvent(below, stack, m, later);
      RepairIsNested(horizon, left, Apply(stack, m), later);
      RepairedIsNested(horizon, below, stack, m, Repair(horizon, Apply(stack, m), later));
    }
  }

  /**
   Around the horizon the names fit: the closes after it that match nothing after it find, from the top, the opens made
   up for the last of them and then the frames open at the horizon.
   */
  predicate NamesFit(horizon: nat, own: seq<Mark>) {
    var early := Approach(horizon + 1, own);
    var late := own[|early|..];
    var open := Replayed([], early);
    GivesBack(Codes(open) + Codes(Unmatched(open, late)), Codes(Unmatched([], late)))
  }

  /**
   In order, exactly when a thread's names match after the sort, whatever the horizon: no orphan comes before the
   horizon, and the names fit around it. With the horizon before all its events, that is when the unmatched closes read
   the same backwards.
   */
  lemma SortedNamesMatchIff(tid: u32, horizon: nat, start: nat, end: nat, before: seq<Mark>, stream: seq<Mark>, after: seq<Mark>)
    requires Nested([], before + stream + after) && NonDecreasing(stream)
    ensures var own := Own(start, end, stream);
            Nested([], Untagged(Sorted(Tagged(tid, Emitted(horizon, start, end, stream)))))
            <==> EarlyEnough(horizon, Unmatched([], own)) && NamesFit(horizon, own)
    ensures var own := Own(start, end, stream);
            Above(own, horizon) ==> (NamesFit(horizon, own) <==> Palindrome(Codes(Unmatched([], own))))
  {
    var own := Own(start, end, stream);
    HorizonFirst(horizon, own);
    EmissionInOrder(horizon, start, end, stream);
    hide NamesFit, Own, Emission, Unmatched, Palindrome, Sorted, Tagged, Untagged, NonDecreasing, Nested, EarlyEnough;
    if EarlyEnough(horizon, Unmatched([], own)) {
      EarlyNamesMatchIff(tid, horizon, start, end, before, stream, after);
    } else {
      LateNamesMismatch(tid, horizon, start, end, stream);
    }
  }

  lemma LateNamesMismatch(tid: u32, horizon: nat, start: nat, end: nat, stream: seq<Mark>)
    requires NonDecreasing(stream) && !EarlyEnough(horizon, Unmatched([], Own(start, end, stream)))
    ensures !Nested([], Untagged(Sorted(Tagged(tid, Emitted(horizon, start, end, stream)))))
  {
    var sorted := Untagged(Sorted(Tagged(tid, Emitted(horizon, start, end, stream))));
    EmissionInOrder(horizon, start, end, stream);
    SortedDepthNeverNegativeIff(tid, horizon, start, end, stream);
    hide Own, Emission, Unmatched, Sorted, Tagged, Untagged, NonDecreasing, Nested, NeverNegative;
    if Nested([], sorted) {
      NestedNeverNegative([], sorted);
    }
  }

  lemma EarlyNamesMatchIff(tid: u32, horizon: nat, start: nat, end: nat, before: seq<Mark>, stream: seq<Mark>, after: seq<Mark>)
    requires Nested([], before + stream + after) && NonDecreasing(stream)
    requires EarlyEnough(horizon, Unmatched([], Own(start, end, stream)))
    ensures Nested([], Untagged(Sorted(Tagged(tid, Emitted(horizon, start, end, stream)))))
            <==> NamesFit(horizon, Own(start, end, stream))
  {
    var own := Own(start, end, stream);
    var early := Approach(horizon + 1, own);
    var late := own[|early|..];
    var left := OwnIsNested(start, end, before, stream, after);
    SortedInOrder(tid, horizon, start, end, stream);
    assert own == early + late;
    hide Own, Emission, Approach, Unmatched, EarlyEnough, Sorted, NonDecreasing, Nested, Replayed, GivesBack, Codes, Repair;
    var slice := Repair(horizon, [], early) + Invented(horizon, Unmatched(Replayed([], early), late)) + late;
    assert Untagged(Tagged(tid, slice)) == slice;
    hide Tagged, Untagged, Invented;
    NestedAround(horizon, left, early, late);
  }

  lemma HorizonFirst(horizon: nat, own: seq<Mark>)
    ensures Above(own, horizon) ==> EarlyEnough(horizon, Unmatched([], own))
    ensures Above(own, horizon) ==> (NamesFit(horizon, own) <==> Palindrome(Codes(Unmatched([], own))))
  {
    if Above(own, horizon) {
      UnmatchedMembers([], own);
      if Unmatched([], own) != [] {
        assert Unmatched([], own)[0] in own;
      }
      assert Approach(horizon + 1, own) == [] && own[0..] == own;
      assert Codes([]) + Codes(Unmatched([], own)) == Codes(Unmatched([], own));
    }
  }

  lemma OwnIsNested(start: nat, end: nat, before: seq<Mark>, stream: seq<Mark>, after: seq<Mark>) returns (left: seq<nat>)
    requires Nested([], before + stream + after) && NonDecreasing(stream)
    ensures Nested(left, Own(start, end, stream))
  {
    InOrderContribution(start, end, stream);
    left := CapturedTop(start, end, before, stream, after);
    StacksHoldOpens([], Span(stream, 0, start));
    NestedAfterOpens(left, Replayed([], Span(stream, 0, start)), Span(stream, start, end + 1));
  }

  lemma NestedAround(horizon: nat, left: seq<nat>, early: seq<Mark>, late: seq<Mark>)
    requires Nested(left, early + late)
    ensures var open := Replayed([], early); var closes := Unmatched(open, late);
            Nested([], Repair(horizon, [], early) + Invented(horizon, closes) + late)
            <==> GivesBack(Codes(open) + Codes(closes), Codes(Unmatched([], late)))
  {
    var open := Replayed([], early);
    var closes := Unmatched(open, late);
    var repaired, made := Repair(horizon, [], early), Invented(horizon, closes);
    assert left + Codes([]) == left && Codes([]) == [];
    NestedPrefix(left, early, late);
    RepairIsNested(horizon, left, [], early);
    RepairReplays(horizon, [], early);
    var under := NestedAfterPrefix(left, [], early, late);
    InventedOpens(horizon, closes);
    hide Repair, Invented, Unmatched, Nested, Replayed, GivesBack, Codes;
    Regrouped(repaired, made, late);
    NestedConcat([], repaired, made + late);
    NestedAfterOpens(Codes(open), made, late);
    assert under + Codes(open) + Codes([]) == under + Codes(open);
    assert Codes(open) + Codes(closes) + Codes([]) == Codes(open) + Codes(closes);
    MatchesWhenGivenBack(under + Codes(open), Codes(open) + Codes(closes), [], late);
  }

  // ----- with the horizon before every captured event -----

  lemma MembersStayAbove(marks: seq<Mark>, stream: seq<Mark>, horizon: nat)
    requires Above(stream, horizon) && forall i :: 0 <= i < |marks| ==> marks[i] in stream
    ensures Above(marks, horizon)
  {
  }

  lemma CutStaysAbove(horizon: nat, start: nat, end: nat, stream: seq<Mark>)
    requires NonDecreasing(stream) && Above(stream, horizon)
    ensures Above(Replayed([], Span(stream, 0, start)) + Span(stream, start, end + 1), horizon)
  {
    var open, window := Replayed([], Span(stream, 0, start)), Span(stream, start, end + 1);
    OpenBeforeWindow(start, end, stream, open, window);
    MembersStayAbove(open + window, stream, horizon);
  }

  /** The synthesized opens in the order their closes come, then the frames carried in, then the window's events. */
  lemma SortedAfterHorizon(tid: u32, horizon: nat, start: nat, end: nat, stream: seq<Mark>)
    requires NonDecreasing(stream) && Above(stream, horizon)
    ensures var open := Replayed([], Span(stream, 0, start)); var window := Span(stream, start, end + 1);
            Sorted(Tagged(tid, Emitted(horizon, start, end, stream)))
              == Tagged(tid, Invented(horizon, Unmatched(open, window)) + (open + window))
  {
    var own := Own(start, end, stream);
    EmissionInOrder(horizon, start, end, stream);
    CutStaysAbove(horizon, start, end, stream);
    HorizonFirst(horizon, own);
    SortedInOrder(tid, horizon, start, end, stream);
    assert Approach(horizon + 1, own) == [] && own[0..] == own;
    assert [] + Invented(horizon, Unmatched([], own)) == Invented(horizon, Unmatched([], own));
  }

  lemma SortedNamesMatchIffPalindrome(tid: u32, horizon: nat, start: nat, end: nat,
                                      before: seq<Mark>, stream: seq<Mark>, after: seq<Mark>)
    requires Nested([], before + stream + after) && NonDecreasing(stream)
    requires Above(stream, horizon)
    ensures var open := Replayed([], Span(stream, 0, start));
            Nested([], Untagged(Sorted(Tagged(tid, Emitted(horizon, start, end, stream)))))
            <==> Palindrome(Codes(Unmatched(open, Span(stream, start, end + 1))))
  {
    EmissionInOrder(horizon, start, end, stream);
    CutStaysAbove(horizon, start, end, stream);
    hide Own, Emission, Unmatched, Above, NonDecreasing, Nested, Palindrome, NamesFit, EarlyEnough, Sorted, Tagged, Untagged;
    HorizonFirst(horizon, Own(start, end, stream));
    SortedNamesMatchIff(tid, horizon, start, end, before, stream, after);
  }

  /** With an event at the horizon's tick the unmatched closes may read the same backwards and the names mismatch. */
  lemma TieMismatches(tid: u32)
    ensures var calls, outer, inner := Mark(4, PackCodeKind(7, Begin)), Mark(8, PackCodeKind(7, End)), Mark(5, PackCodeKind(9, Begin));
            var stream := [inner, Mark(7, PackCodeKind(9, End)), outer];
            && Nested([], [calls] + stream + []) && Palindrome(Codes(Unmatched([], stream)))
            && !Nested([], Untagged(Sorted(Tagged(tid, Emitted(5, 0, 20, stream)))))
  {
    Four();
    var a, b := Mark(4, PackCodeKind(7, Begin)), Mark(8, PackCodeKind(7, End));
    var x, y := Mark(5, PackCodeKind(9, Begin)), Mark(7, PackCodeKind(9, End));
    var stream := [x, y, b];
    TieIsNested(a, x, y, b);
    TieIsOwn(x, y, b);
    SortedNamesMatchIff(tid, 5, 0, 20, [a], stream, []);
  }

  lemma Four()
    ensures Opens(PackCodeKind(7, Begin)) && CodeOf(PackCodeKind(7, Begin)) == 7
    ensures Opens(PackCodeKind(9, Begin)) && CodeOf(PackCodeKind(9, Begin)) == 9
    ensures !Opens(PackCodeKind(7, End)) && CodeOf(PackCodeKind(7, End)) == 7
    ensures !Opens(PackCodeKind(9, End)) && CodeOf(PackCodeKind(9, End)) == 9
  {
    PackingKeepsKindAndId(7, Begin);
    PackingKeepsKindAndId(9, Begin);
    PackingKeepsKindAndId(7, End);
    PackingKeepsKindAndId(9, End);
  }

  lemma TieIsNested(a: Mark, x: Mark, y: Mark, b: Mark)
    requires Opens(a.codeKind) && Opens(x.codeKind) && !Opens(y.codeKind) && !Opens(b.codeKind)
    requires CodeOf(a.codeKind) == CodeOf(b.codeKind) && CodeOf(x.codeKind) == CodeOf(y.codeKind)
    ensures Nested([], [a] + [x, y, b] + [])
  {
    var c, d := CodeOf(a.codeKind), CodeOf(x.codeKind);
    var all := [a] + [x, y, b] + [];
    assert all == [a, x, y, b] && all[1..] == [x, y, b] && [x, y, b][1..] == [y, b] && [y, b][1..] == [b] && [b][1..] == [];
    assert [] + [c] == [c] && [c] + [d] == [c, d] && [c, d][..1] == [c];
    assert Nested([c], [b]);
    assert Nested([c, d], [y, b]);
    assert Nested([c], [x, y, b]);
  }

  lemma TieIsOwn(x: Mark, y: Mark, b: Mark)
    requires Opens(x.codeKind) && !Opens(y.codeKind) && !Opens(b.codeKind) && CodeOf(x.codeKind) != CodeOf(b.codeKind)
    requires CodeOf(y.codeKind) == CodeOf(x.codeKind) && x.ticks == 5 && y.ticks == 7 && b.ticks == 8
    ensures var stream := [x, y, b];
            && NonDecreasing(stream) && Own(0, 20, stream) == stream && !NamesFit(5, stream)
            && Palindrome(Codes(Unmatched([], stream)))
  {
    var stream := [x, y, b];
    assert stream[1..] == [y, b] && [y, b][1..] == [b] && [b][1..] == [] && [] + [x] == [x] && [x][..0] == [];
    assert Apply([], x) == [x] && Apply([x], y) == [] && Apply([], y) == [] && Apply([], b) == [];
    assert Unmatched([], [b]) == [b] + Unmatched([], []) && [b] + [] == [b];
    assert Unmatched([x], [y, b]) == [b] && Unmatched([], stream) == [b];
    assert Unmatched([], [y, b]) == [y] + [b];
    assert Approach(6, stream) == [x] + Approach(6, [y, b]) == [x] + [];
    assert Replayed([], [x]) == [x] by { assert [x][1..] == []; }
    assert stream[|[x]|..] == [y, b];
    hide Unmatched, Replayed, Approach, Own, Apply;
    var below, closes := Codes([x]) + Codes([b]), Codes([y] + [b]);
    assert closes[0] == CodeOf(x.codeKind) && below[|below| - 1 - 0] == CodeOf(b.codeKind);
    WholeIsOwn(stream);
  }

  lemma WholeIsOwn(stream: seq<Mark>)
    requires forall i :: 0 <= i < |stream| ==> stream[i].ticks <= 20
    ensures Own(0, 20, stream) == stream
  {
    assert Carried(0, stream) == [];
    AllInWindow(stream);
    assert [] + stream == stream;
  }

  lemma {:induction false} AllInWindow(stream: seq<Mark>)
    requires forall i :: 0 <= i < |stream| ==> stream[i].ticks <= 20
    ensures InWindow(0, 20, stream) == stream
    decreases |stream|
  {
    if stream != [] {
      AllInWindow(stream[1..]);
      assert Looked(0, 20, stream)[1..] == Looked(0, 20, stream[1..]);
      assert stream == [stream[0]] + stream[1..];
    }
  }
}
