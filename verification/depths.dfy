/** How deep a thread's open frames are after the sort by tick, whatever its ticks and the horizon. */
module Depths {
  import opened Words
  import opened Events
  import opened Batches
  import opened Stacks
  import opened Replay
  import opened Nesting
  import opened StableSort
  import opened Ranks
  import opened Dumps

  /**
   Exactly: after the sort a thread never closes more than it opened if and only if, of what is emitted for it, at each
   event no more closes than opens come at or before it, earlier ticks and its own tick up to it.
   */
  lemma DepthNeverNegativeIff(tid: u32, horizon: nat, start: nat, end: nat, stream: seq<Mark>)
    ensures NeverNegative(0, Untagged(Sorted(Tagged(tid, Emitted(horizon, start, end, stream)))))
            <==> NoneBelow(Tagged(tid, Carried(start, stream) + Kept(horizon, start, [], Looked(start, end, stream))))
  {
    EmissionIsCarriedThenKept(horizon, start, end, [], stream);
    hide Sorted, NeverNegative, NoneBelow, Emission, Kept, Looked, Replayed, Tagged;
    SortedNeverNegativeIff(Tagged(tid, Emitted(horizon, start, end, stream)));
  }

  // ----- a condition on the capture -----

  /** No close inside the window is earlier than an event before it. */
  predicate ClosesLate(start: nat, marks: seq<Mark>) {
    forall i, j :: 0 <= i < j < |marks| && start <= marks[j].ticks && !Opens(marks[j].codeKind) ==> marks[i].ticks <= marks[j].ticks
  }

  /** No close of the window still to come is earlier than any of `before`. */
  predicate NoCloseBefore(start: nat, before: seq<Mark>, marks: seq<Mark>) {
    forall i, j :: 0 <= i < |before| && 0 <= j < |marks| && start <= marks[j].ticks && !Opens(marks[j].codeKind) ==>
      before[i].ticks <= marks[j].ticks
  }

  lemma ClosesLateRest(start: nat, m: Mark, later: seq<Mark>, before: seq<Mark>)
    requires ClosesLate(start, [m] + later) && NoCloseBefore(start, before, [m] + later)
    ensures ClosesLate(start, later) && NoCloseBefore(start, before, later) && NoCloseBefore(start, [m], later)
    ensures start <= m.ticks && !Opens(m.codeKind) ==> Below(before, m.ticks)
  {
    var all := [m] + later;
    forall i: nat, j: nat | i < j < |later| && start <= later[j].ticks && !Opens(later[j].codeKind)
      ensures later[i].ticks <= later[j].ticks
    {
      assert all[i + 1] == later[i] && all[j + 1] == later[j];
    }
    forall j: nat | j < |later| && start <= later[j].ticks && !Opens(later[j].codeKind)
      ensures m.ticks <= later[j].ticks && Below(before, later[j].ticks)
    {
      assert all[0] == m && all[j + 1] == later[j];
    }
    assert all[0] == m;
  }

  lemma NoCloseBeforeMore(start: nat, before: seq<Mark>, s: Mark, marks: seq<Mark>)
    requires NoCloseBefore(start, before, marks) && NoCloseBefore(start, [s], marks)
    ensures NoCloseBefore(start, before + [s], marks)
  {
    assert [s][0] == s;
  }

  lemma EarlierStill(start: nat, s: Mark, m: Mark, marks: seq<Mark>)
    requires NoCloseBefore(start, [m], marks) && s.ticks <= m.ticks
    ensures NoCloseBefore(start, [s], marks)
  {
    assert [m][0] == m;
  }

  function OrphanHere(start: nat, stack: seq<Mark>, m: Mark): seq<Mark> {
    if start <= m.ticks && !Opens(m.codeKind) && stack == [] then [m] else []
  }

  lemma OrphansIs(start: nat, stack: seq<Mark>, m: Mark, later: seq<Mark>)
    ensures Orphans(start, stack, [m] + later) == OrphanHere(start, stack, m) + Orphans(start, Apply(stack, m), later)
  {
    assert ([m] + later)[1..] == later;
  }

  lemma NotBeforeParts(a: seq<Mark>, b: seq<Mark>, t: nat)
    requires NotBefore(a + b, t)
    ensures NotBefore(a, t) && NotBefore(b, t)
  {
    assert forall i :: 0 <= i < |a| ==> a[i] == (a + b)[i];
    assert forall i :: 0 <= i < |b| ==> b[i] == (a + b)[|a| + i];
  }

  lemma OrphansRest(start: nat, stack: seq<Mark>, m: Mark, later: seq<Mark>, horizon: nat)
    requires NotBefore(Orphans(start, stack, [m] + later), horizon)
    ensures NotBefore(Orphans(start, Apply(stack, m), later), horizon)
    ensures start <= m.ticks && !Opens(m.codeKind) && stack == [] ==> horizon <= m.ticks
  {
    OrphansIs(start, stack, m, later);
    NotBeforeParts(OrphanHere(start, stack, m), Orphans(start, Apply(stack, m), later), horizon);
    hide Orphans;
    if OrphanHere(start, stack, m) != [] {
      assert OrphanHere(start, stack, m)[0] == m;
    }
  }

  /** In emission order only opens are ever earlier than something before them. */
  lemma {:induction false} KeptIsLate(horizon: nat, start: nat, before: seq<Mark>, stack: seq<Mark>, marks: seq<Mark>)
    requires MarksLateOrOpen(before) && ClosesLate(start, marks) && NoCloseBefore(start, before, marks)
    requires NotBefore(Orphans(start, stack, marks), horizon)
    ensures MarksLateOrOpen(before + Kept(horizon, start, stack, marks))
    decreases |marks|, 0
  {
    hide MarksLateOrOpen, ClosesLate, NoCloseBefore, NotBefore, Orphans;
    if marks == [] {
      assert before + [] == before;
    } else {
      var m, later := marks[0], marks[1..];
      assert marks == [m] + later;
      var rest := Kept(horizon, start, Apply(stack, m), later);
      ClosesLateRest(start, m, later, before);
      OrphansRest(start, stack, m, later, horizon);
      if m.ticks < start {
        KeptIsLate(horizon, start, before, Apply(stack, m), later);
        assert [] + rest == rest;
      } else {
        NoCloseBeforeMore(start, before, m, later);
        KeptInside(horizon, start, before, stack, m, later, rest);
      }
    }
  }

  lemma {:induction false} KeptInside(horizon: nat, start: nat, before: seq<Mark>, stack: seq<Mark>, m: Mark,
                                      later: seq<Mark>, rest: seq<Mark>)
    requires start <= m.ticks && rest == Kept(horizon, start, Apply(stack, m), later)
    requires MarksLateOrOpen(before) && (!Opens(m.codeKind) ==> Below(before, m.ticks))
    requires ClosesLate(start, later) && NoCloseBefore(start, before, later) && NoCloseBefore(start, [m], later)
    requires NoCloseBefore(start, before + [m], later)
    requires NotBefore(Orphans(start, Apply(stack, m), later), horizon)
    requires !Opens(m.codeKind) && stack == [] ==> horizon <= m.ticks
    ensures MarksLateOrOpen(before + (Repaired(horizon, stack, m) + rest))
    decreases |later|, 1
  {
    if !Opens(m.codeKind) && stack == [] {
      var s := Synthesized(horizon, m);
      PackingKeepsKindAndId(CodeOf(m.codeKind), Begin);
      assert s.ticks == horizon && Opens(s.codeKind) && Below(before + [s], m.ticks);
      hide MarksLateOrOpen, ClosesLate, NoCloseBefore, NotBefore, Orphans, Below, Kept, Synthesized;
      LateSnoc(before, s);
      LateSnoc(before + [s], m);
      EarlierStill(start, s, m, later);
      NoCloseBeforeMore(start, before, s, later);
      NoCloseBeforeMore(start, before + [s], m, later);
      KeptIsLate(horizon, start, before + [s] + [m], [], later);
      Regrouped(before + [s], [m], rest);
      Regrouped(before, [s], [m] + rest);
      assert [s] + ([m] + rest) == [s, m] + rest;
    } else {
      hide MarksLateOrOpen, ClosesLate, NoCloseBefore, NotBefore, Orphans, Below, Kept;
      LateSnoc(before, m);
      KeptIsLate(horizon, start, before + [m], Apply(stack, m), later);
      Regrouped(before, [m], rest);
    }
  }

  // ----- the depth before the sort -----

  lemma RepairedStaysUp(horizon: nat, stack: seq<Mark>, m: Mark, rest: seq<Mark>)
    requires NeverNegative(|Apply(stack, m)|, rest)
    ensures NeverNegative(|stack|, Repaired(horizon, stack, m) + rest)
  {
    assert ([m] + rest)[1..] == rest;
    if !Opens(m.codeKind) && stack == [] {
      var s := Synthesized(horizon, m);
      PackingKeepsKindAndId(CodeOf(m.codeKind), Begin);
      assert ([s, m] + rest)[1..] == [m] + rest;
    }
  }

  lemma StaysUpOne(horizon: nat, start: nat, end: nat, stack: seq<Mark>, carried: bool, m: Mark, later: seq<Mark>, rest: seq<Mark>)
    requires AllOpen(stack) && !Stops(start, end, m)
    requires rest == Emission(horizon, start, end, Apply(stack, m), carried || start <= m.ticks, later)
    requires NeverNegative(if carried || start <= m.ticks then |Apply(stack, m)| else 0, rest)
    requires m.ticks < start && carried ==> !Opens(m.codeKind) && stack == []
    ensures NeverNegative(if carried then |stack| else 0, Emission(horizon, start, end, stack, carried, [m] + later))
  {
    assert ([m] + later)[1..] == later;
    if start <= m.ticks {
      RepairedStaysUp(horizon, stack, m, rest);
      var more := Repaired(horizon, stack, m) + rest;
      if carried {
        assert [] + more == more;
      } else {
        OpensNeverNegative(0, stack);
        DepthConcat(0, stack, more);
      }
    }
  }

  /** If nothing is lost the emission never closes more than it opened. */
  lemma {:induction false} EmissionStaysUp(horizon: nat, start: nat, end: nat, seen: seq<Mark>, marks: seq<Mark>)
    requires LosesNoMore(start, seen, Looked(start, end, marks))
    ensures var stack, carried := Replayed([], seen), Reached(start, seen);
            NeverNegative(if carried then |stack| else 0, Emission(horizon, start, end, stack, carried, marks))
    decreases |marks|
  {
    var stack, carried := Replayed([], seen), Reached(start, seen);
    StacksHoldOpens([], seen);
    hide LosesNoMore, Replayed, Reached, Looked, Apply;
    if marks == [] || Stops(start, end, marks[0]) {
      OpensNeverNegative(0, stack);
      assert stack + [] == stack;
    } else {
      hide NeverNegative, Emission;
      var m, later := marks[0], marks[1..];
      assert marks == [m] + later;
      LookedCons(start, end, m, later);
      KeptOrOrphan(start, seen, m, Looked(start, end, later));
      ReplayedOne(seen, m);
      ReachedSnoc(start, seen, m);
      EmissionStaysUp(horizon, start, end, seen + [m], later);
      StaysUpOne(horizon, start, end, stack, carried, m, later,
                 Emission(horizon, start, end, Apply(stack, m), carried || start <= m.ticks, later));
    }
  }

  /**
   Whatever the ticks: the depth never drops below zero after the sort if no event is lost behind the window, no close of
   the window is earlier than an event looked at before it, and the horizon is no later than any orphan.
   */
  lemma DepthStaysUp(tid: u32, horizon: nat, start: nat, end: nat, stream: seq<Mark>)
    requires var looked := Looked(start, end, stream);
             LosesNothing(start, looked) && ClosesLate(start, looked) && NotBefore(Orphans(start, [], looked), horizon)
    ensures NeverNegative(0, Untagged(Sorted(Tagged(tid, Emitted(horizon, start, end, stream)))))
  {
    var looked := Looked(start, end, stream);
    NothingSeen(horizon, start, end, stream);
    CarriedIsEarly(start, end, stream);
    EmissionIsCarriedThenKept(horizon, start, end, [], stream);
    hide LosesNothing, ClosesLate, NotBefore, Orphans, Emission, NeverNegative, Looked, Kept, Approach, Replayed, Sorted, Tagged;
    KeptIsLate(horizon, start, Carried(start, stream), [], looked);
    SortStaysUp(tid, Emitted(horizon, start, end, stream));
  }

  lemma NothingSeen(horizon: nat, start: nat, end: nat, stream: seq<Mark>)
    requires LosesNothing(start, Looked(start, end, stream))
    ensures NeverNegative(0, Emitted(horizon, start, end, stream))
  {
    NothingAndNoMore(start, Looked(start, end, stream));
    EmissionStaysUp(horizon, start, end, [], stream);
  }

  lemma CarriedIsEarly(start: nat, end: nat, stream: seq<Mark>)
    ensures var open := Carried(start, stream); MarksLateOrOpen(open) && NoCloseBefore(start, open, Looked(start, end, stream))
  {
    var open, early := Carried(start, stream), Approach(start, stream);
    ReplayedMembers([], early);
    StacksHoldOpens([], early);
    hide Replayed, Approach, Looked;
    forall i | 0 <= i < |open| ensures open[i].ticks < start {
      assert open[i] in early;
    }
  }

  /** In order, that is the condition on the horizon alone. */
  lemma InOrderStaysUp(start: nat, end: nat, stream: seq<Mark>)
    requires NonDecreasing(stream)
    ensures LosesNothing(start, Looked(start, end, stream)) && ClosesLate(start, Looked(start, end, stream))
  {
    var looked := Looked(start, end, stream);
    assert forall i :: 0 <= i < |looked| ==> looked[i] == stream[i];
    InOrderLosesNothing(start, looked);
  }

  // ----- a close that steps back -----

  /**
   A thread opens a frame at tick 10 and closes it at tick 5, as two batches of one thread may. No close lacks its open
   and the horizon is before everything, and yet the sort puts the close first.
   */
  lemma BackwardCloseTakesDepthBelowZero(tid: u32)
    ensures var stream := [Mark(10, PackCodeKind(7, Begin)), Mark(5, PackCodeKind(7, End))];
            && Orphans(0, [], Looked(0, 20, stream)) == [] && LosesNothing(0, stream)
            && !NeverNegative(0, Untagged(Sorted(Tagged(tid, Emitted(0, 0, 20, stream)))))
  {
    PackingKeepsKindAndId(7, Begin);
    PackingKeepsKindAndId(7, End);
    var a, b := Mark(10, PackCodeKind(7, Begin)), Mark(5, PackCodeKind(7, End));
    BothAreKept(a, b);
    hide Sorted, NeverNegative, Emission;
    DepthNeverNegativeIff(tid, 0, 0, 20, [a, b]);
    CloseIsFirst(tid, a, b);
  }

  lemma BothAreKept(a: Mark, b: Mark)
    requires Opens(a.codeKind) && !Opens(b.codeKind) && a.ticks <= 20 && b.ticks <= 20
    ensures Orphans(0, [], Looked(0, 20, [a, b])) == [] && LosesNothing(0, [a, b])
    ensures Carried(0, [a, b]) + Kept(0, 0, [], Looked(0, 20, [a, b])) == [a, b]
  {
    var stream := [a, b];
    assert stream[1..] == [b] && [b][1..] == [] && [] + [a] == [a] && [a][..0] == [];
    assert Looked(0, 20, [b]) == [b] + Looked(0, 20, []) && [b] + [] == [b];
    assert Looked(0, 20, stream) == [a] + [b] == stream;
    assert Orphans(0, [a], [b]) == [] + Orphans(0, [], []);
    assert Kept(0, 0, [a], [b]) == [b] + Kept(0, 0, [], []) == [b];
    assert Kept(0, 0, [], stream) == [a] + [b];
    assert Approach(0, stream) == [] && Carried(0, stream) == [] && [] + stream == stream;
  }

  lemma CloseIsFirst(tid: u32, a: Mark, b: Mark)
    requires b.ticks < a.ticks && Opens(a.codeKind) && !Opens(b.codeKind)
    ensures !NoneBelow(Tagged(tid, [a, b]))
  {
    var s := Tagged(tid, [a, b]);
    assert s[..1] == [s[0]] && [s[0]][..0] == [];
    assert NetUpTo([], b.ticks, 1) == 0 && NetUpTo([s[0]], b.ticks, 1) == 0;
    assert NetUpTo(s, b.ticks, 1) == NetUpTo(s[..1], b.ticks, 1) - 1;
    assert DepthAt(s, 1) == -1;
  }
}
