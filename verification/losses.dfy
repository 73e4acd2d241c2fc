/** What an event lost behind the window does to the nesting of a thread's emission. */
module Losses {
  import opened Events
  import opened Batches
  import opened Stacks
  import opened Replay
  import opened Nesting

  // ----- closing everything that was captured -----

  /** Closes for the frames of a stack, top first. */
  function Closing(tick: nat, stack: seq<Mark>): seq<Mark> {
    if stack == [] then []
    else [Mark(tick, PackCodeKind(CodeOf(stack[|stack| - 1].codeKind), End))] + Closing(tick, stack[..|stack| - 1])
  }

  lemma {:induction false} ClosingNests(below: seq<nat>, tick: nat, stack: seq<Mark>)
    ensures Nested(below + Codes(stack), Closing(tick, stack))
    decreases |stack|
  {
    if stack != [] {
      var front, top := stack[..|stack| - 1], stack[|stack| - 1];
      PackingKeepsKindAndId(CodeOf(top.codeKind), End);
      ClosingNests(below, tick, front);
      hide Nested, Opens, CodeOf, PackCodeKind, KindOf;
      NestedCons(below + Codes(stack), Mark(tick, PackCodeKind(CodeOf(top.codeKind), End)), Closing(tick, front));
      assert (below + Codes(stack))[..|below| + |stack| - 1] == below + Codes(front);
    }
  }

  lemma EmissionCons(horizon: nat, start: nat, end: nat, stack: seq<Mark>, m: Mark, later: seq<Mark>)
    requires start <= m.ticks <= end
    ensures Emission(horizon, start, end, stack, true, [m] + later)
         == Repaired(horizon, stack, m) + Emission(horizon, start, end, Apply(stack, m), true, later)
  {
    assert ([m] + later)[1..] == later;
    var rest := Repaired(horizon, stack, m) + Emission(horizon, start, end, Apply(stack, m), true, later);
    assert [] + rest == rest;
  }

  /** Inside the window the loop passes them on as they are. */
  lemma {:induction false} ClosingIsEmitted(horizon: nat, start: nat, end: nat, stack: seq<Mark>)
    requires start <= end
    ensures Emission(horizon, start, end, stack, true, Closing(start, stack)) == Closing(start, stack)
    decreases |stack|
  {
    if stack != [] {
      var front, top := stack[..|stack| - 1], stack[|stack| - 1];
      var c := Mark(start, PackCodeKind(CodeOf(top.codeKind), End));
      PackingKeepsKindAndId(CodeOf(top.codeKind), End);
      assert Repaired(horizon, stack, c) == [c] && Apply(stack, c) == front;
      hide Emission;
      ClosingIsEmitted(horizon, start, end, front);
      EmissionCons(horizon, start, end, stack, c, Closing(start, front));
    }
  }

  lemma {:induction false} ClosingLosesNothing(start: nat, end: nat, seen: seq<Mark>, stack: seq<Mark>)
    ensures forall i :: 0 <= i < |Closing(start, stack)| ==> Closing(start, stack)[i].ticks == start
    ensures LosesNoMore(start, seen, Looked(start, end, Closing(start, stack)))
    decreases |stack|
  {
    if stack != [] {
      ClosingLosesNothing(start, end, seen, stack[..|stack| - 1]);
    }
  }

  lemma {:induction false} ClosingNeeds(depth: nat, tick: nat, stack: seq<Mark>)
    requires NeverNegative(depth, Closing(tick, stack))
    ensures |stack| <= depth
    decreases |stack|
  {
    if stack != [] {
      var front, top := stack[..|stack| - 1], stack[|stack| - 1];
      PackingKeepsKindAndId(CodeOf(top.codeKind), End);
      assert Closing(tick, stack)[1..] == Closing(tick, front);
      assert NeverNegative(depth - 1, Closing(tick, front));
      if depth > 0 {
        ClosingNeeds(depth - 1, tick, front);
      }
    }
  }

  predicate OneCode(stack: seq<Mark>) {
    forall i :: 0 <= i < |stack| ==> Codes(stack)[i] == Codes(stack)[0]
  }

  /** Closing all but the top of a stack, one frame off, goes through only if all frames have one code. */
  lemma {:induction false} ClosingShifted(tick: nat, stack: seq<Mark>)
    requires stack != [] && Nested(Codes(stack), Closing(tick, stack[..|stack| - 1]))
    ensures OneCode(stack)
    decreases |stack|
  {
    var front := stack[..|stack| - 1];
    if front != [] {
      var under, top := front[..|front| - 1], front[|front| - 1];
      PackingKeepsKindAndId(CodeOf(top.codeKind), End);
      NestedCons(Codes(stack), Mark(tick, PackCodeKind(CodeOf(top.codeKind), End)), Closing(tick, under));
      assert Codes(stack)[..|stack| - 1] == Codes(front);
      ClosingShifted(tick, front);
      assert forall i :: 0 <= i < |front| ==> Codes(stack)[i] == Codes(front)[i];
    }
  }

  // ----- the captured frames are the top of the true ones -----

  lemma {:induction false} TopOfTrue(truth: seq<Mark>, below: seq<nat>, stack: seq<Mark>, marks: seq<Mark>) returns (left: seq<nat>)
    requires Codes(truth) == below + Codes(stack) && Nested(Codes(truth), marks)
    ensures Codes(Replayed(truth, marks)) == left + Codes(Replayed(stack, marks))
    decreases |marks|
  {
    if marks == [] {
      left := below;
    } else {
      var m := marks[0];
      assert |Codes(truth)| == |truth|;
      TopAfter(truth, below, stack, m);
      left := TopOfTrue(Apply(truth, m), if !Opens(m.codeKind) && stack == [] then below[..|below| - 1] else below,
                        Apply(stack, m), marks[1..]);
    }
  }

  lemma TopAfter(truth: seq<Mark>, below: seq<nat>, stack: seq<Mark>, m: Mark)
    requires Codes(truth) == below + Codes(stack) && (!Opens(m.codeKind) ==> truth != [])
    ensures !Opens(m.codeKind) && stack == [] ==> below != [] && Codes(Apply(truth, m)) == below[..|below| - 1] + Codes([])
    ensures Opens(m.codeKind) || stack != [] ==> Codes(Apply(truth, m)) == below + Codes(Apply(stack, m))
    ensures Codes(Apply(truth, m)) == if Opens(m.codeKind) then Codes(truth) + [CodeOf(m.codeKind)] else Codes(truth)[..|truth| - 1]
  {
    ApplyCodes([], truth, m);
    assert |Codes(truth)| == |below| + |stack|;
    if Opens(m.codeKind) || stack != [] {
      ApplyCodes(below, stack, m);
    } else {
      assert below + Codes(stack) == below && below[..|below| - 1] + Codes([]) == below[..|below| - 1];
    }
  }

  /** So what closes the captured frames continues a nested trace. */
  lemma ClosingContinues(before: seq<Mark>, seen: seq<Mark>, tick: nat)
    requires Nested([], before + seen)
    ensures Nested([], before + (seen + Closing(tick, Replayed([], seen))))
  {
    var stack, truth := Replayed([], seen), Replayed([], before);
    assert Codes([]) == [] && Codes(truth) + Codes([]) == Codes(truth);
    hide Nested, Replayed, Codes, Closing;
    NestedConcat([], before, seen);
    ReplayedConcat([], before, seen);
    var left := TopOfTrue(truth, Codes(truth), [], seen);
    ClosingNests(left, tick, stack);
    NestedConcat([], before + seen, Closing(tick, stack));
    Regrouped(before, seen, Closing(tick, stack));
  }

  // ----- one lost event -----

  /** The emission after an event that is lost, from what was emitted before it. */
  lemma EmissionAfterLoss(horizon: nat, start: nat, end: nat, seen: seq<Mark>, m: Mark, rest: seq<Mark>)
    requires Continues(start, end, seen) && Loses(start, seen, m)
    ensures Emitted(horizon, start, end, seen + [m] + rest)
         == Emitted(horizon, start, end, seen) + Emission(horizon, start, end, Replayed([], seen + [m]), true, rest)
    ensures start <= end
  {
    EmissionResumes(horizon, start, end, [], false, seen, [m] + rest);
    assert seen + [m] + rest == seen + ([m] + rest) && ([m] + rest)[1..] == rest;
    ReplayedOne(seen, m);
    var i :| 0 <= i < |seen| && start <= seen[i].ticks;
    assert !Stops(start, end, seen[i]);
  }

  lemma {:induction false} NestedDeeper(c: nat, open: seq<nat>, marks: seq<Mark>)
    requires Nested(open, marks)
    ensures Nested([c] + open, marks)
    decreases |marks|
  {
    if marks != [] {
      var m := marks[0];
      if Opens(m.codeKind) {
        NestedDeeper(c, open + [CodeOf(m.codeKind)], marks[1..]);
        assert [c] + (open + [CodeOf(m.codeKind)]) == [c] + open + [CodeOf(m.codeKind)];
      } else {
        NestedDeeper(c, open[..|open| - 1], marks[1..]);
        assert [c] + open[..|open| - 1] == ([c] + open)[..|[c] + open| - 1];
      }
    }
  }

  /** A continuation of a trace whose emission is judged: the whole is nested, and nothing more is lost. */
  ghost predicate Continuation(start: nat, end: nat, before: seq<Mark>, done: seq<Mark>, rest: seq<Mark>) {
    Nested([], before + (done + rest)) && LosesNoMore(start, done, Looked(start, end, rest))
  }

  /** What was emitted before the first loss leaves open what was captured. */
  lemma BeforeTheLoss(horizon: nat, start: nat, end: nat, before: seq<Mark>, seen: seq<Mark>, x: seq<Mark>)
    requires Nested([], before + seen) && Continues(start, end, seen) && LosesNothing(start, seen)
    ensures Nested([], Emitted(horizon, start, end, seen) + x) <==> Nested(Codes(Replayed([], seen)), x)
  {
    LookedAll(start, end, seen);
    assert before + seen + [] == before + seen;
    EmissionIsNested(horizon, start, end, before, seen, []);
    WholeCutHolds(horizon, start, end, seen);
    hide Emission, Nested, Replayed, LosesNothing, Continues;
    NestedConcat([], Emitted(horizon, start, end, seen), x);
    assert Codes([]) == [];
  }

  lemma LookedAll(start: nat, end: nat, marks: seq<Mark>)
    requires Continues(start, end, marks)
    ensures Looked(start, end, marks) == marks
  {
    if |Looked(start, end, marks)| < |marks| {
      assert false;
    }
  }

  /** If all captured frames have one code, a lost close leaves one more of them at the bottom, where it is never met. */
  lemma UniformLossIsHarmless(horizon: nat, start: nat, end: nat, before: seq<Mark>, seen: seq<Mark>, m: Mark, rest: seq<Mark>)
    requires Nested([], before + (seen + [m])) && Continues(start, end, seen) && LosesNothing(start, seen)
    requires Loses(start, seen, m) && !Opens(m.codeKind) && OneCode(Replayed([], seen))
    requires Continuation(start, end, before, seen + [m], rest)
    ensures Nested([], Emitted(horizon, start, end, seen + [m] + rest))
  {
    var done, was := seen + [m], Replayed([], seen);
    var stack := Replayed([], done);
    ReplayedOne(seen, m);
    ReachedSnoc(start, seen, m);
    UniformCodes(was);
    var below := AfterDone(before, done, rest);
    EmissionNests(horizon, start, end, below, done, rest);
    EmissionAfterLoss(horizon, start, end, seen, m, rest);
    SeenIsNested(before, seen, m);
    hide Emission, Nested, Replayed, LosesNothing, LosesNoMore, Continues, Looked, Reached, Codes;
    var x := Emission(horizon, start, end, stack, true, rest);
    NestedDeeper(Codes(was)[0], Codes(stack), x);
    BeforeTheLoss(horizon, start, end, before, seen, x);
  }

  lemma UniformCodes(stack: seq<Mark>)
    requires OneCode(stack) && stack != []
    ensures Codes(stack) == [Codes(stack)[0]] + Codes(stack[..|stack| - 1])
  {
    var c, front := Codes(stack)[0], stack[..|stack| - 1];
    forall i | 0 <= i < |stack| ensures Codes(stack)[i] == ([c] + Codes(front))[i] {
      if i > 0 {
        assert Codes(front)[i - 1] == Codes(stack)[i - 1];
      }
    }
  }

  lemma SeenIsNested(before: seq<Mark>, seen: seq<Mark>, m: Mark)
    requires Nested([], before + (seen + [m]))
    ensures Nested([], before + seen)
  {
    assert before + (seen + [m]) == (before + seen) + [m];
    NestedPrefix([], before + seen, [m]);
  }

  lemma AfterDone(before: seq<Mark>, done: seq<Mark>, rest: seq<Mark>) returns (below: seq<nat>)
    requires Nested([], before + (done + rest))
    ensures Nested(below + Codes(Replayed([], done)), rest)
  {
    assert before + (done + rest) + [] == before + (done + rest);
    var under := NestedPiece([], before, done + rest, []);
    assert under + Codes([]) == under;
    below := NestedAfterPrefix(under, [], done, rest);
  }

  /** Any other lost event has a continuation that shows it: close all captured frames inside the window. */
  lemma ClosingShowsTheLoss(horizon: nat, start: nat, end: nat, before: seq<Mark>, seen: seq<Mark>, m: Mark)
    requires Nested([], before + (seen + [m])) && Continues(start, end, seen) && LosesNothing(start, seen) && Loses(start, seen, m)
    requires Opens(m.codeKind) || !OneCode(Replayed([], seen))
    ensures var rest := Closing(start, Replayed([], seen + [m]));
            Continuation(start, end, before, seen + [m], rest) && !Nested([], Emitted(horizon, start, end, seen + [m] + rest))
  {
    var was, stack := Replayed([], seen), Replayed([], seen + [m]);
    var rest := Closing(start, stack);
    ReplayedOne(seen, m);
    ClosingContinues(before, seen + [m], start);
    ClosingLosesNothing(start, end, seen + [m], stack);
    EmissionAfterLoss(horizon, start, end, seen, m, rest);
    ClosingIsEmitted(horizon, start, end, stack);
    SeenIsNested(before, seen, m);
    hide Emission, Nested, Replayed, LosesNothing, LosesNoMore, Continues, Looked, OneCode;
    BeforeTheLoss(horizon, start, end, before, seen, rest);
    if Nested(Codes(was), rest) {
      if Opens(m.codeKind) {
        NestedNeverNegative(Codes(was), rest);
        ClosingNeeds(|was|, start, stack);
      } else {
        ClosingShifted(start, was);
      }
    }
  }

  /**
   What one lost event does, after a prefix that lost none: every nested continuation that loses nothing more is emitted
   nested, if and only if the event is a close and all captured frames have one code.
   */
  lemma OneLossIsHarmlessIff(horizon: nat, start: nat, end: nat, before: seq<Mark>, seen: seq<Mark>, m: Mark)
    requires Nested([], before + (seen + [m])) && Continues(start, end, seen) && LosesNothing(start, seen) && Loses(start, seen, m)
    ensures (forall rest :: Continuation(start, end, before, seen + [m], rest) ==>
               Nested([], Emitted(horizon, start, end, seen + [m] + rest)))
            <==> !Opens(m.codeKind) && OneCode(Replayed([], seen))
  {
    hide Emission, Nested, Replayed, LosesNothing, Continues, OneCode, Continuation, Loses;
    if !Opens(m.codeKind) && OneCode(Replayed([], seen)) {
      forall rest | Continuation(start, end, before, seen + [m], rest)
        ensures Nested([], Emitted(horizon, start, end, seen + [m] + rest))
      {
        UniformLossIsHarmless(horizon, start, end, before, seen, m, rest);
      }
    } else {
      ClosingShowsTheLoss(horizon, start, end, before, seen, m);
    }
  }

  /** A trace whose emission is not nested: an open behind the window's start is lost, and its close is not. */
  lemma LostOpenMismatches()
    ensures var stream := [Mark(10, PackCodeKind(7, Begin)), Mark(5, PackCodeKind(9, Begin)),
                           Mark(11, PackCodeKind(9, End)), Mark(12, PackCodeKind(7, End))];
            Nested([], stream) && !Nested([], Emitted(0, 6, 20, stream))
  {
    PackingKeepsKindAndId(7, Begin);
    PackingKeepsKindAndId(9, Begin);
    PackingKeepsKindAndId(7, End);
    PackingKeepsKindAndId(9, End);
    LostOpen(Mark(10, PackCodeKind(7, Begin)), Mark(5, PackCodeKind(9, Begin)),
             Mark(11, PackCodeKind(9, End)), Mark(12, PackCodeKind(7, End)));
  }

  lemma LostOpen(a: Mark, c: Mark, d: Mark, b: Mark)
    requires Opens(a.codeKind) && Opens(c.codeKind) && !Opens(d.codeKind) && !Opens(b.codeKind)
    requires CodeOf(a.codeKind) == CodeOf(b.codeKind) == 7 && CodeOf(c.codeKind) == CodeOf(d.codeKind) == 9
    requires a.ticks == 10 && c.ticks == 5 && d.ticks == 11 && b.ticks == 12
    ensures Nested([], [a, c, d, b]) && !Nested([], Emitted(0, 6, 20, [a, c, d, b]))
  {
    var stream := [a, c, d, b];
    assert stream[1..] == [c, d, b] && [c, d, b][1..] == [d, b] && [d, b][1..] == [b] && [b][1..] == [];
    assert [] + [7] == [7] && [7] + [9] == [7, 9] && [7, 9][..1] == [7] && [7][..0] == [];
    assert Nested([7], [b]);
    assert Nested([7, 9], [d, b]);
    assert Nested([7], [c, d, b]);
    assert [] + [a] == [a] && [a] + [c] == [a, c] && [a, c][..1] == [a];
    assert Emission(0, 6, 20, [a], true, [b]) == [] + ([b] + []);
    assert Emission(0, 6, 20, [a, c], true, [d, b]) == [] + ([d] + [b]);
    assert Emission(0, 6, 20, [a], true, [c, d, b]) == [d, b];
    assert Emission(0, 6, 20, [], false, stream) == [] + ([a] + [d, b]);
    assert [a, d, b][1..] == [d, b];
    assert [] + ([a] + [d, b]) == [a, d, b];
    assert !Nested([7], [d, b]);
  }
}
