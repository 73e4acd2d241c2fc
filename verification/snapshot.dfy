/** What a list of opens and closes means: the stack of frames still open after it. */
module Stacks {
  import opened Events
  import opened Batches

  /** The effect of one event on the open frames; a close with nothing open does nothing. */
  function Apply(stack: seq<Mark>, m: Mark): seq<Mark> {
    if Opens(m.codeKind) then stack + [m]
    else if stack == [] then []
    else stack[..|stack| - 1]
  }

  function Replayed(stack: seq<Mark>, marks: seq<Mark>): seq<Mark>
    decreases |marks|
  {
    if marks == [] then stack else Replayed(Apply(stack, marks[0]), marks[1..])
  }

  predicate AllOpen(marks: seq<Mark>) {
    forall i :: 0 <= i < |marks| ==> Opens(marks[i].codeKind)
  }

  function Codes(marks: seq<Mark>): (codes: seq<nat>)
    ensures |codes| == |marks|
  {
    seq(|marks|, i requires 0 <= i < |marks| => CodeOf(marks[i].codeKind))
  }

  /** Every close finds a frame open on top of `open`, and that frame has the close's code id. */
  predicate Nested(open: seq<nat>, marks: seq<Mark>)
    decreases |marks|
  {
    if marks == [] then true
    else if Opens(marks[0].codeKind) then Nested(open + [CodeOf(marks[0].codeKind)], marks[1..])
    else
      && open != []
      && open[|open| - 1] == CodeOf(marks[0].codeKind)
      && Nested(open[..|open| - 1], marks[1..])
  }

  /** The running depth, started at `depth`, never drops below zero. */
  predicate NeverNegative(depth: int, marks: seq<Mark>)
    decreases |marks|
  {
    depth >= 0 && (marks != [] ==> NeverNegative(depth + Change(marks[0]), marks[1..]))
  }

  function Change(m: Mark): int {
    if Opens(m.codeKind) then 1 else -1
  }

  function Depth(depth: int, marks: seq<Mark>): int
    decreases |marks|
  {
    if marks == [] then depth else Depth(depth + Change(marks[0]), marks[1..])
  }

  lemma {:induction false} ReplayedConcat(stack: seq<Mark>, a: seq<Mark>, b: seq<Mark>)
    ensures Replayed(stack, a + b) == Replayed(Replayed(stack, a), b)
    decreases |a|
  {
    if a == [] {
      assert a + b == b;
    } else {
      assert (a + b)[1..] == a[1..] + b;
      ReplayedConcat(Apply(stack, a[0]), a[1..], b);
    }
  }

  lemma {:induction false} OpensReplayToThemselves(stack: seq<Mark>, opens: seq<Mark>)
    requires AllOpen(opens)
    ensures Replayed(stack, opens) == stack + opens
    decreases |opens|
  {
    if opens != [] {
      assert (stack + [opens[0]]) + opens[1..] == stack + opens;
      OpensReplayToThemselves(stack + [opens[0]], opens[1..]);
    }
  }

  lemma {:induction false} StacksHoldOpens(stack: seq<Mark>, marks: seq<Mark>)
    requires AllOpen(stack)
    ensures AllOpen(Replayed(stack, marks))
    decreases |marks|
  {
    if marks != [] {
      StacksHoldOpens(Apply(stack, marks[0]), marks[1..]);
    }
  }

  lemma {:induction false} NestedAfterOpens(open: seq<nat>, opens: seq<Mark>, rest: seq<Mark>)
    requires AllOpen(opens)
    ensures Nested(open, opens + rest) <==> Nested(open + Codes(opens), rest)
    decreases |opens|
  {
    if opens == [] {
      assert opens + rest == rest && open + Codes(opens) == open;
    } else {
      assert (opens + rest)[1..] == opens[1..] + rest;
      assert (open + [CodeOf(opens[0].codeKind)]) + Codes(opens[1..]) == open + Codes(opens);
      NestedAfterOpens(open + [CodeOf(opens[0].codeKind)], opens[1..], rest);
    }
  }

  /** A piece and what follows it, from the frames a stack holds. */
  lemma {:induction false} NestedConcat(stack: seq<Mark>, a: seq<Mark>, b: seq<Mark>)
    ensures Nested(Codes(stack), a + b) <==> Nested(Codes(stack), a) && Nested(Codes(Replayed(stack, a)), b)
    decreases |a|
  {
    if a == [] {
      assert a + b == b;
    } else {
      var m := a[0];
      assert (a + b)[1..] == a[1..] + b;
      if Opens(m.codeKind) {
        assert Codes(stack + [m]) == Codes(stack) + [CodeOf(m.codeKind)];
        NestedConcat(stack + [m], a[1..], b);
      } else if stack != [] {
        assert Codes(stack[..|stack| - 1]) == Codes(stack)[..|stack| - 1];
        NestedConcat(stack[..|stack| - 1], a[1..], b);
      }
    }
  }

  lemma {:induction false} DepthConcat(depth: int, a: seq<Mark>, b: seq<Mark>)
    ensures Depth(depth, a + b) == Depth(Depth(depth, a), b)
    ensures NeverNegative(depth, a + b) <==> NeverNegative(depth, a) && NeverNegative(Depth(depth, a), b)
    decreases |a|
  {
    if a == [] {
      assert a + b == b;
      if b != [] { }
    } else {
      assert (a + b)[1..] == a[1..] + b;
      DepthConcat(depth + Change(a[0]), a[1..], b);
    }
  }

  lemma {:induction false} DeeperStaysNonNegative(depth: int, more: int, marks: seq<Mark>)
    requires depth <= more && NeverNegative(depth, marks)
    ensures NeverNegative(more, marks)
    decreases |marks|
  {
    if marks != [] {
      DeeperStaysNonNegative(depth + Change(marks[0]), more + Change(marks[0]), marks[1..]);
    }
  }

  /** The frame entered at `i` is never left: no piece that starts there closes as many frames as it opens. */
  predicate StillOpen(marks: seq<Mark>, i: nat) {
    i < |marks| && forall j :: i < j <= |marks| ==> Depth(0, marks[i..j]) > 0
  }

  lemma DepthOneMore(marks: seq<Mark>, m: Mark, i: nat)
    requires i <= |marks|
    ensures Depth(0, (marks + [m])[i..]) == Depth(0, marks[i..]) + Change(m)
  {
    assert (marks + [m])[i..] == marks[i..] + [m];
    DepthConcat(0, marks[i..], [m]);
    assert [m][1..] == [];
  }

  lemma StillOpenSnoc(marks: seq<Mark>, m: Mark, i: nat)
    requires i < |marks|
    ensures StillOpen(marks + [m], i) <==> StillOpen(marks, i) && Depth(0, marks[i..]) + Change(m) > 0
  {
    var all, n := marks + [m], |marks|;
    DepthOneMore(marks, m, i);
    assert forall j :: i < j <= n ==> all[i..j] == marks[i..j];
    assert all[i..n + 1] == all[i..] && marks[i..n] == marks[i..];
    if StillOpen(all, i) {
      assert forall j :: i < j <= n ==> Depth(0, marks[i..j]) == Depth(0, all[i..j]);
    }
    if StillOpen(marks, i) && Depth(0, marks[i..]) + Change(m) > 0 {
      forall j | i < j <= n + 1 ensures Depth(0, all[i..j]) > 0 {
        if j <= n {
          assert Depth(0, marks[i..j]) > 0;
        }
      }
    }
  }

  lemma StillOpenLast(marks: seq<Mark>, m: Mark)
    ensures StillOpen(marks + [m], |marks|) <==> Opens(m.codeKind)
  {
    var all, n := marks + [m], |marks|;
    assert all[n..n + 1] == [m] && [m][1..] == [];
    assert Depth(0, all[n..n + 1]) == Change(m);
  }

  /** The positions of the open frames, and how deep each lies. */
  predicate OpenAt(marks: seq<Mark>, stack: seq<Mark>, at: seq<nat>) {
    && |at| == |stack|
    && (forall k :: 0 <= k < |at| ==> at[k] < |marks| && stack[k] == marks[at[k]] && Depth(0, marks[at[k]..]) == |at| - k)
    && (forall j, k :: 0 <= j < k < |at| ==> at[j] < at[k])
    && (forall i: nat :: i < |marks| ==> (i in at <==> StillOpen(marks, i)))
  }

  lemma OpenAtDepths(marks: seq<Mark>, m: Mark, stack: seq<Mark>, at: seq<nat>)
    requires OpenAt(marks, stack, at)
    ensures forall k :: 0 <= k < |at| ==> Depth(0, (marks + [m])[at[k]..]) == |at| - k + Change(m)
    ensures Depth(0, (marks + [m])[|marks|..]) == Change(m)
    ensures forall i: nat :: i < |marks| ==> (StillOpen(marks + [m], i) <==> i in at && Depth(0, (marks + [m])[i..]) > 0)
    ensures StillOpen(marks + [m], |marks|) <==> Opens(m.codeKind)
  {
    var all := marks + [m];
    assert all[|marks|..] == [m] && [m][1..] == [];
    StillOpenLast(marks, m);
    hide StillOpen, Depth, Opens;
    forall k | 0 <= k < |at| ensures Depth(0, all[at[k]..]) == |at| - k + Change(m) {
      DepthOneMore(marks, m, at[k]);
    }
    forall i: nat | i < |marks| ensures StillOpen(all, i) <==> i in at && Depth(0, all[i..]) > 0 {
      StillOpenSnoc(marks, m, i);
      DepthOneMore(marks, m, i);
    }
  }

  lemma OpenAtOpened(marks: seq<Mark>, m: Mark, stack: seq<Mark>, at: seq<nat>)
    requires OpenAt(marks, stack, at) && Opens(m.codeKind)
    ensures OpenAt(marks + [m], stack + [m], at + [|marks|])
  {
    OpenAtDepths(marks, m, stack, at);
    assert Change(m) == 1;
    hide StillOpen, Depth, Opens;
    var all, now := marks + [m], at + [|marks|];
    forall i: nat | i < |all| ensures i in now <==> StillOpen(all, i) {
      if i in at {
        var k :| 0 <= k < |at| && at[k] == i;
        assert Depth(0, all[at[k]..]) > 0;
      }
    }
  }

  lemma WithoutLast(at: seq<nat>, i: nat)
    requires at != [] && forall j, k :: 0 <= j < k < |at| ==> at[j] < at[k]
    ensures i in at[..|at| - 1] <==> i in at && i != at[|at| - 1]
  {
    assert at == at[..|at| - 1] + [at[|at| - 1]];
  }

  lemma LeftOpen(all: seq<Mark>, at: seq<nat>, i: nat)
    requires at != [] && i in at && forall k :: 0 <= k < |at| ==> at[k] < |all|
    requires forall k :: 0 <= k < |at| ==> Depth(0, all[at[k]..]) == |at| - k - 1
    ensures i < |all| && (Depth(0, all[i..]) > 0 <==> i != at[|at| - 1])
  {
    hide Depth;
    var k :| 0 <= k < |at| && at[k] == i;
    assert Depth(0, all[at[k]..]) == |at| - k - 1;
    assert Depth(0, all[at[|at| - 1]..]) == 0;
  }

  lemma OpenAtClosed(marks: seq<Mark>, m: Mark, stack: seq<Mark>, at: seq<nat>)
    requires OpenAt(marks, stack, at) && !Opens(m.codeKind) && at != []
    ensures OpenAt(marks + [m], stack[..|stack| - 1], at[..|at| - 1])
  {
    OpenAtDepths(marks, m, stack, at);
    assert Change(m) == -1;
    hide StillOpen, Depth, Opens;
    var all, now := marks + [m], at[..|at| - 1];
    forall i: nat | i < |all| ensures i in now <==> StillOpen(all, i) {
      WithoutLast(at, i);
      if i in at {
        LeftOpen(all, at, i);
      }
    }
  }

  lemma OpenAtSnoc(marks: seq<Mark>, m: Mark, stack: seq<Mark>, at: seq<nat>) returns (now: seq<nat>)
    requires OpenAt(marks, stack, at)
    ensures OpenAt(marks + [m], Apply(stack, m), now)
  {
    if Opens(m.codeKind) {
      now := at + [|marks|];
      OpenAtOpened(marks, m, stack, at);
    } else {
      now := if at == [] then [] else at[..|at| - 1];
      if at != [] {
        OpenAtClosed(marks, m, stack, at);
      } else {
        OpenAtDepths(marks, m, stack, at);
        hide StillOpen, Depth;
      }
    }
  }

  /**
   What replaying leaves open, for any list of opens and closes: the frames entered and never left, oldest first.
   */
  lemma {:induction false} OpenFramesAreNeverLeft(marks: seq<Mark>) returns (at: seq<nat>)
    ensures |at| == |Replayed([], marks)|
    ensures forall k :: 0 <= k < |at| ==> at[k] < |marks| && Replayed([], marks)[k] == marks[at[k]]
    ensures forall j, k :: 0 <= j < k < |at| ==> at[j] < at[k]
    ensures forall i: nat :: i < |marks| ==> (i in at <==> StillOpen(marks, i))
    ensures OpenAt(marks, Replayed([], marks), at)
    decreases |marks|
  {
    at := [];
    if marks != [] {
      var front, m := marks[..|marks| - 1], marks[|marks| - 1];
      assert front + [m] == marks && [m][1..] == [];
      ReplayedConcat([], front, [m]);
      at := OpenFramesAreNeverLeft(front);
      at := OpenAtSnoc(front, m, Replayed([], front), at);
    }
  }

  /** Properly nested events never take the depth below zero. */
  lemma {:induction false} NestedNeverNegative(open: seq<nat>, marks: seq<Mark>)
    requires Nested(open, marks)
    ensures NeverNegative(|open|, marks)
    decreases |marks|
  {
    if marks != [] {
      if Opens(marks[0].codeKind) {
        NestedNeverNegative(open + [CodeOf(marks[0].codeKind)], marks[1..]);
      } else {
        NestedNeverNegative(open[..|open| - 1], marks[1..]);
      }
    }
  }
}

/** `replay`: cut a window out of one thread's captured events, keeping what was open. */
module Replay {
  import opened Words
  import opened Events
  import opened Batches
  import opened Stacks

  datatype Entry = Entry(ticks: nat, tid: u32, codeKind: u32)

  function Tagged(tid: u32, marks: seq<Mark>): (entries: seq<Entry>)
    ensures |entries| == |marks|
  {
    seq(|marks|, i requires 0 <= i < |marks| => Entry(marks[i].ticks, tid, marks[i].codeKind))
  }

  /** The open invented for a close whose own open was never captured. */
  function Synthesized(horizon: nat, m: Mark): Mark {
    Mark(horizon, PackCodeKind(CodeOf(m.codeKind), Begin))
  }

  /** What remains to be emitted when the loop stands before `marks` with `stack` open. */
  function Emission(horizon: nat, start: nat, end: nat, stack: seq<Mark>, carried: bool, marks: seq<Mark>): seq<Mark>
    decreases |marks|
  {
    if marks == [] then (if carried then [] else stack)
    else
      var m := marks[0];
      if m.ticks < start then Emission(horizon, start, end, Apply(stack, m), carried, marks[1..])
      else
        (if carried then [] else stack)
        + if m.ticks > end then []
          else Repaired(horizon, stack, m) + Emission(horizon, start, end, Apply(stack, m), true, marks[1..])
  }

  function Repaired(horizon: nat, stack: seq<Mark>, m: Mark): seq<Mark> {
    if !Opens(m.codeKind) && stack == [] then [Synthesized(horizon, m), m] else [m]
  }

  function Emitted(horizon: nat, start: nat, end: nat, stream: seq<Mark>): seq<Mark> {
    Emission(horizon, start, end, [], false, stream)
  }

  lemma TaggedConcat(tid: u32, a: seq<Mark>, b: seq<Mark>)
    ensures Tagged(tid, a + b) == Tagged(tid, a) + Tagged(tid, b)
  {
  }

  /** The loop's state, with the marks pushed so far; `stopped` once an event lies beyond the window. */
  datatype Progress = Progress(stack: seq<Mark>, carried: bool, stopped: bool, emitted: seq<Mark>)

  function Advance(horizon: nat, start: nat, end: nat, p: Progress, m: Mark): Progress {
    if m.ticks < start then p.(stack := Apply(p.stack, m))
    else
      var emitted := if p.carried then p.emitted else p.emitted + p.stack;
      if m.ticks > end then Progress(p.stack, true, true, emitted)
      else Progress(Apply(p.stack, m), true, false,
                    (if !Opens(m.codeKind) && p.stack == [] then emitted + [Synthesized(horizon, m)] else emitted) + [m])
  }

  function Finish(horizon: nat, start: nat, end: nat, p: Progress, marks: seq<Mark>): seq<Mark>
    decreases |marks|
  {
    if p.stopped then p.emitted
    else if marks == [] then (if p.carried then p.emitted else p.emitted + p.stack)
    else Finish(horizon, start, end, Advance(horizon, start, end, p, marks[0]), marks[1..])
  }

  lemma Appended(done: seq<Mark>, carried: seq<Mark>, now: seq<Mark>, later: seq<Mark>)
    ensures done + carried + now + later == done + (carried + (now + later))
    ensures done + carried + [] == done + (carried + []) == done + carried
  {
  }

  /** One turn of the loop: what it appends and where it goes on. */
  lemma AdvanceIs(horizon: nat, start: nat, end: nat, p: Progress, m: Mark)
    requires !p.stopped && start <= m.ticks
    ensures var q := Advance(horizon, start, end, p, m); var carried := if p.carried then [] else p.stack;
            if m.ticks > end then q.stopped && q.emitted == p.emitted + carried
            else q == Progress(Apply(p.stack, m), true, false, p.emitted + carried + Repaired(horizon, p.stack, m))
  {
    assert p.emitted + [] == p.emitted;
  }

  lemma {:induction false} FinishIsEmission(horizon: nat, start: nat, end: nat, p: Progress, marks: seq<Mark>)
    requires !p.stopped
    ensures Finish(horizon, start, end, p, marks) == p.emitted + Emission(horizon, start, end, p.stack, p.carried, marks)
    decreases |marks|
  {
    var carried := if p.carried then [] else p.stack;
    if marks == [] {
      Appended(p.emitted, carried, [], []);
      assert p.emitted + [] == p.emitted;
    } else {
      var m, q := marks[0], Advance(horizon, start, end, p, marks[0]);
      if m.ticks < start {
        FinishIsEmission(horizon, start, end, q, marks[1..]);
      } else {
        AdvanceIs(horizon, start, end, p, m);
        hide Advance, Repaired, Apply;
        Appended(p.emitted, carried, Repaired(horizon, p.stack, m),
                 Emission(horizon, start, end, Apply(p.stack, m), true, marks[1..]));
        if m.ticks <= end {
          FinishIsEmission(horizon, start, end, q, marks[1..]);
        }
      }
    }
  }

  /** One push onto the output. */
  method Push(out: seq<Entry>, tid: u32, next: seq<Mark>, ghost before: seq<Entry>, ghost emitted: seq<Mark>)
    returns (more: seq<Entry>, ghost now: seq<Mark>)
    requires out == before + Tagged(tid, emitted)
    ensures more == before + Tagged(tid, emitted + next) && now == emitted + next
  {
    TaggedConcat(tid, emitted, next);
    more, now := out + Tagged(tid, next), emitted + next;
  }

  /** The loop itself, on a stack it pushes and pops and a list it appends to. */
  method Run(tid: u32, stream: seq<Mark>, horizon: nat, start: nat, end: nat, before: seq<Entry>) returns (out: seq<Entry>)
    ensures out == before + Tagged(tid, Emitted(horizon, start, end, stream))
  {
    out := before;
    var stack: seq<Mark> := [];
    var opensEmitted := false;
    ghost var emitted: seq<Mark> := [];
    ghost var p := Progress([], false, false, []);
    ghost var target := Finish(horizon, start, end, p, stream);
    assert target == Emitted(horizon, start, end, stream) by { FinishIsEmission(horizon, start, end, p, stream); }
    hide Emission, Tagged;
    var i := 0;
    assert stream[0..] == stream;
    while i < |stream|
      invariant 0 <= i <= |stream|
      invariant out == before + Tagged(tid, emitted)
      invariant p == Progress(stack, opensEmitted, false, emitted)
      invariant target == Finish(horizon, start, end, p, stream[i..])
    {
      var m := stream[i];
      assert stream[i..][0] == m && stream[i..][1..] == stream[i + 1..];
      p := Advance(horizon, start, end, p, m);
      i := i + 1;
      if m.ticks < start {
        stack := Apply(stack, m);
        continue;
      }
      if !opensEmitted {
        opensEmitted := true;
        out, emitted := Push(out, tid, stack, before, emitted);
      }
      if m.ticks > end {
        return;
      }
      if !Opens(m.codeKind) && stack == [] {
        out, emitted := Push(out, tid, [Mark(horizon, PackCodeKind(CodeOf(m.codeKind), Begin))], before, emitted);
      }
      stack := Apply(stack, m);
      out, emitted := Push(out, tid, [m], before, emitted);
    }
    if !opensEmitted {
      out, emitted := Push(out, tid, stack, before, emitted);
    }
  }

  // ----- the window a non-decreasing stream is cut into -----

  predicate NonDecreasing(marks: seq<Mark>) {
    forall i, j :: 0 <= i < j < |marks| ==> marks[i].ticks <= marks[j].ticks
  }

  /** The events with `low <= ticks < high`. */
  function Span(marks: seq<Mark>, low: nat, high: nat): seq<Mark>
    decreases |marks|
  {
    if marks == [] then []
    else (if low <= marks[0].ticks < high then [marks[0]] else []) + Span(marks[1..], low, high)
  }

  function UpTo(marks: seq<Mark>, t: nat): seq<Mark> {
    Span(marks, 0, t + 1)
  }

  /** The window's events, each unmatched close preceded by its synthesized open. */
  function Repair(horizon: nat, stack: seq<Mark>, marks: seq<Mark>): seq<Mark>
    decreases |marks|
  {
    if marks == [] then []
    else Repaired(horizon, stack, marks[0]) + Repair(horizon, Apply(stack, marks[0]), marks[1..])
  }

  lemma {:induction false} SpanFacts(marks: seq<Mark>, low: nat, high: nat)
    ensures NonDecreasing(marks) ==> NonDecreasing(Span(marks, low, high))
    ensures forall m :: m in Span(marks, low, high) <==> m in marks && low <= m.ticks < high
    decreases |marks|
  {
    if marks != [] {
      SpanFacts(marks[1..], low, high);
      assert marks == [marks[0]] + marks[1..];
      var rest := Span(marks[1..], low, high);
      assert forall i :: 0 <= i < |rest| ==> rest[i] in rest;
    }
  }

  lemma {:induction false} EmptySpan(marks: seq<Mark>, low: nat, high: nat)
    requires forall i :: 0 <= i < |marks| ==> !(low <= marks[i].ticks < high)
    ensures Span(marks, low, high) == []
    decreases |marks|
  {
    if marks != [] {
      EmptySpan(marks[1..], low, high);
    }
  }

  lemma SpanCons(m: Mark, later: seq<Mark>, low: nat, high: nat)
    ensures Span([m] + later, low, high) == (if low <= m.ticks < high then [m] else []) + Span(later, low, high)
  {
    assert ([m] + later)[1..] == later;
  }

  lemma {:induction false} SpanSplits(marks: seq<Mark>, low: nat, mid: nat, high: nat)
    requires NonDecreasing(marks) && low <= mid <= high
    ensures Span(marks, low, high) == Span(marks, low, mid) + Span(marks, mid, high)
    decreases |marks|
  {
    if marks == [] {
    } else if mid <= marks[0].ticks {
      EmptySpan(marks, low, mid);
      SpanFrom(marks, low, mid, high);
    } else {
      var m, later := marks[0], marks[1..];
      SpanSplits(later, low, mid, high);
      assert marks == [m] + later;
      hide Span, NonDecreasing;
      SpanCons(m, later, low, high);
      SpanCons(m, later, low, mid);
      SpanCons(m, later, mid, high);
      Regrouped(if low <= m.ticks then [m] else [], Span(later, low, mid), Span(later, mid, high));
    }
  }

  lemma {:induction false} SpanFrom(marks: seq<Mark>, low: nat, mid: nat, high: nat)
    requires low <= mid && forall i :: 0 <= i < |marks| ==> mid <= marks[i].ticks
    ensures Span(marks, low, high) == Span(marks, mid, high)
    decreases |marks|
  {
    if marks != [] {
      SpanFrom(marks[1..], low, mid, high);
    }
  }

  /** In terms of the window: what was open before it, then the repaired window. */
  lemma {:induction false} EmissionIsCarriedThenRepaired(horizon: nat, start: nat, end: nat, stack: seq<Mark>, stream: seq<Mark>)
    requires NonDecreasing(stream)
    ensures var open := Replayed(stack, Span(stream, 0, start));
            Emission(horizon, start, end, stack, false, stream) == open + Repair(horizon, open, Span(stream, start, end + 1))
    decreases |stream|
  {
    if stream != [] {
      var m := stream[0];
      if m.ticks < start {
        EmissionIsCarriedThenRepaired(horizon, start, end, Apply(stack, m), stream[1..]);
        assert Span(stream, 0, start) == [m] + Span(stream[1..], 0, start);
        assert Span(stream, 0, start)[1..] == Span(stream[1..], 0, start);
        assert Span(stream, start, end + 1) == Span(stream[1..], start, end + 1);
      } else {
        EmptySpan(stream, 0, start);
        if m.ticks > end {
          EmptySpan(stream, start, end + 1);
        } else {
          EmissionOfWindow(horizon, start, end, Apply(stack, m), stream[1..]);
          assert Span(stream, start, end + 1) == [m] + Span(stream[1..], start, end + 1);
          assert Span(stream, start, end + 1)[1..] == Span(stream[1..], start, end + 1);
        }
      }
    }
  }

  lemma {:induction false} EmissionOfWindow(horizon: nat, start: nat, end: nat, stack: seq<Mark>, stream: seq<Mark>)
    requires NonDecreasing(stream) && forall i :: 0 <= i < |stream| ==> start <= stream[i].ticks
    ensures Emission(horizon, start, end, stack, true, stream) == Repair(horizon, stack, Span(stream, start, end + 1))
    decreases |stream|
  {
    if stream != [] {
      var m := stream[0];
      if m.ticks > end {
        EmptySpan(stream, start, end + 1);
      } else {
        EmissionOfWindow(horizon, start, end, Apply(stack, m), stream[1..]);
        assert Span(stream, start, end + 1)[1..] == Span(stream[1..], start, end + 1);
      }
    }
  }

  // ----- the cut preserves the open frames at every instant of the window -----

  lemma {:induction false} RepairReplays(horizon: nat, stack: seq<Mark>, marks: seq<Mark>)
    ensures Replayed(stack, Repair(horizon, stack, marks)) == Replayed(stack, marks)
    decreases |marks|
  {
    if marks != [] {
      var m := marks[0];
      var rest := Repair(horizon, Apply(stack, m), marks[1..]);
      RepairReplays(horizon, Apply(stack, m), marks[1..]);
      ReplayedConcat(stack, Repaired(horizon, stack, m), rest);
      if !Opens(m.codeKind) && stack == [] {
        PackingKeepsKindAndId(CodeOf(m.codeKind), Begin);
        var s := Synthesized(horizon, m);
        assert [s, m][1..] == [m] && Apply(stack, s) == [s] && Apply([s], m) == [];
        assert Replayed(stack, [s, m]) == Replayed([s], [m]) == [];
      } else {
        assert [m][1..] == [];
        assert Replayed(stack, [m]) == Apply(stack, m);
      }
    }
  }

  /** In order, the emission is what was emitted up to a tick of the window and then the repaired events after it. */
  lemma RestIsRepaired(horizon: nat, start: nat, end: nat, t: nat, stream: seq<Mark>)
    requires NonDecreasing(stream) && start <= t <= end
    ensures Emitted(horizon, start, end, stream)
         == Emitted(horizon, start, end, UpTo(stream, t))
            + Repair(horizon, Replayed([], UpTo(stream, t)), Span(stream, t + 1, end + 1))
  {
    var known, before, seen, later := UpTo(stream, t), Span(stream, 0, start), Span(stream, start, t + 1), Span(stream, t + 1, end + 1);
    assert NonDecreasing(known) by { SpanFacts(stream, 0, t + 1); }
    assert Span(known, 0, start) == before by { SpanOfSpan(stream, 0, t + 1, 0, start); }
    assert Span(known, start, end + 1) == seen by { SpanOfSpan(stream, 0, t + 1, start, end + 1); }
    assert known == before + seen by { SpanSplits(stream, 0, start, t + 1); }
    assert Span(stream, start, end + 1) == seen + later by { SpanSplits(stream, start, t + 1, end + 1); }
    EmissionIsCarriedThenRepaired(horizon, start, end, [], known);
    EmissionIsCarriedThenRepaired(horizon, start, end, [], stream);
    ReplayedConcat([], before, seen);
    EmissionContinues(horizon, Replayed([], before), seen, later,
      Emitted(horizon, start, end, known), Emitted(horizon, start, end, stream));
  }

  lemma EmissionContinues(horizon: nat, open: seq<Mark>, seen: seq<Mark>, later: seq<Mark>, part: seq<Mark>, whole: seq<Mark>)
    requires part == open + Repair(horizon, open, seen)
    requires whole == open + Repair(horizon, open, seen + later)
    ensures whole == part + Repair(horizon, Replayed(open, seen), later)
  {
    RepairConcat(horizon, open, seen, later);
    hide Repair, Replayed;
    Regrouped(open, Repair(horizon, open, seen), Repair(horizon, Replayed(open, seen), later));
  }

  lemma Regrouped(a: seq<Mark>, b: seq<Mark>, c: seq<Mark>)
    ensures a + (b + c) == a + b + c
  {
  }

  lemma {:induction false} SpanOfSpan(marks: seq<Mark>, low: nat, high: nat, low': nat, high': nat)
    ensures Span(Span(marks, low, high), low', high')
         == Span(marks, if low <= low' then low' else low, if high <= high' then high else high')
    decreases |marks|
  {
    if marks != [] {
      SpanOfSpan(marks[1..], low, high, low', high');
      var rest := Span(marks[1..], low, high);
      if low <= marks[0].ticks < high {
        assert Span(marks, low, high)[1..] == rest;
      } else {
        assert Span(marks, low, high) == rest;
      }
    }
  }

  lemma {:induction false} RepairConcat(horizon: nat, stack: seq<Mark>, a: seq<Mark>, b: seq<Mark>)
    ensures Repair(horizon, stack, a + b) == Repair(horizon, stack, a) + Repair(horizon, Replayed(stack, a), b)
    decreases |a|
  {
    if a == [] {
      assert a + b == b;
    } else {
      assert (a + b)[1..] == a[1..] + b;
      RepairConcat(horizon, Apply(stack, a[0]), a[1..], b);
    }
  }

  // ----- streams whose ticks step backwards -----

  /** The loop ends at such an event. */
  predicate Stops(start: nat, end: nat, m: Mark) {
    start <= m.ticks && end < m.ticks
  }

  /** What the loop looks at before it ends. */
  function Looked(start: nat, end: nat, marks: seq<Mark>): (looked: seq<Mark>)
    ensures looked <= marks && forall i :: 0 <= i < |looked| ==> !Stops(start, end, looked[i])
    ensures |looked| < |marks| ==> Stops(start, end, marks[|looked|])
    decreases |marks|
  {
    if marks == [] || Stops(start, end, marks[0]) then [] else [marks[0]] + Looked(start, end, marks[1..])
  }

  predicate Continues(start: nat, end: nat, marks: seq<Mark>) {
    forall i :: 0 <= i < |marks| ==> !Stops(start, end, marks[i])
  }

  predicate Reached(start: nat, marks: seq<Mark>) {
    exists i :: 0 <= i < |marks| && start <= marks[i].ticks
  }

  /** The event falls behind the window after the window was reached, and changes what is open. */
  predicate Loses(start: nat, before: seq<Mark>, m: Mark) {
    m.ticks < start && Reached(start, before) && (Opens(m.codeKind) || Replayed([], before) != [])
  }

  predicate LosesNothing(start: nat, marks: seq<Mark>) {
    forall k :: 0 <= k < |marks| ==> !Loses(start, marks[..k], marks[k])
  }

  /** None of `marks` is lost, coming after `seen`. */
  predicate LosesNoMore(start: nat, seen: seq<Mark>, marks: seq<Mark>) {
    forall k :: 0 <= k < |marks| ==> !Loses(start, seen + marks[..k], marks[k])
  }

  /** The loop after `a` goes on with what `a` leaves open. */
  lemma {:induction false} EmissionResumes(horizon: nat, start: nat, end: nat, stack: seq<Mark>, carried: bool, a: seq<Mark>, b: seq<Mark>)
    requires Continues(start, end, a)
    ensures Emission(horizon, start, end, stack, carried, a + b)
         == if carried || Reached(start, a)
            then Emission(horizon, start, end, stack, carried, a) + Emission(horizon, start, end, Replayed(stack, a), true, b)
            else Emission(horizon, start, end, Replayed(stack, a), false, b)
    decreases |a|
  {
    if a == [] {
      assert a + b == b;
    } else {
      var m := a[0];
      assert (a + b)[1..] == a[1..] + b && a == [m] + a[1..];
      ReachedCons(start, m, a[1..]);
      EmissionResumes(horizon, start, end, Apply(stack, m), carried || start <= m.ticks, a[1..], b);
      if start <= m.ticks {
        Joined(if carried then [] else stack, Repaired(horizon, stack, m),
               Emission(horizon, start, end, Apply(stack, m), true, a[1..]),
               Emission(horizon, start, end, Replayed(stack, a), true, b));
      }
    }
  }

  lemma ReachedCons(start: nat, m: Mark, marks: seq<Mark>)
    ensures Reached(start, [m] + marks) <==> start <= m.ticks || Reached(start, marks)
  {
    if start <= m.ticks {
      assert start <= ([m] + marks)[0].ticks;
    } else if i :| 0 <= i < |marks| && start <= marks[i].ticks {
      assert ([m] + marks)[i + 1] == marks[i];
    }
  }

  lemma Joined(a: seq<Mark>, b: seq<Mark>, c: seq<Mark>, d: seq<Mark>)
    ensures a + (b + (c + d)) == a + (b + c) + d
  {
  }

  /** Replaying what one more event adds, from what was open before it. */
  lemma RepairedReplays(horizon: nat, stack: seq<Mark>, m: Mark)
    ensures Replayed(stack, Repaired(horizon, stack, m)) == Apply(stack, m)
  {
    RepairReplays(horizon, stack, [m]);
    assert [m][1..] == [] && Repaired(horizon, stack, m) + [] == Repaired(horizon, stack, m);
    assert Repair(horizon, stack, [m]) == Repaired(horizon, stack, m) + Repair(horizon, Apply(stack, m), []);
    assert Replayed(stack, [m]) == Apply(stack, m);
  }

  lemma EmissionOfOne(horizon: nat, start: nat, end: nat, stack: seq<Mark>, m: Mark)
    requires !Stops(start, end, m)
    ensures Emission(horizon, start, end, stack, true, [m]) == if m.ticks < start then [] else Repaired(horizon, stack, m)
    ensures Emission(horizon, start, end, stack, false, [m])
         == if m.ticks < start then Apply(stack, m) else stack + Repaired(horizon, stack, m)
  {
    assert [m][1..] == [];
  }

  lemma ReplayedOne(before: seq<Mark>, m: Mark)
    ensures Replayed([], before + [m]) == Apply(Replayed([], before), m)
  {
    ReplayedConcat([], before, [m]);
    assert [m][1..] == [];
  }

  lemma ReplayedOpens(opens: seq<Mark>)
    requires AllOpen(opens)
    ensures Replayed([], opens) == opens
  {
    OpensReplayToThemselves([], opens);
    assert [] + opens == opens;
  }

  /** While output and capture agree on what is open, one more event keeps them so exactly when it is not lost. */
  lemma OneMoreReplaysIff(horizon: nat, start: nat, end: nat, before: seq<Mark>, m: Mark)
    requires Continues(start, end, before) && !Stops(start, end, m)
    requires Replayed([], Emitted(horizon, start, end, before)) == Replayed([], before)
    ensures Replayed([], Emitted(horizon, start, end, before + [m])) == Replayed([], before + [m]) <==> !Loses(start, before, m)
  {
    var open := Replayed([], before);
    EmissionResumes(horizon, start, end, [], false, before, [m]);
    EmissionOfOne(horizon, start, end, open, m);
    ReplayedOne(before, m);
    RepairedReplays(horizon, open, m);
    StacksHoldOpens([], before);
    ApplyChanges(open, m);
    hide Emission, Repaired, Reached, Replayed, Apply, Opens;
    if Reached(start, before) {
      ReplayedConcat([], Emitted(horizon, start, end, before), Emission(horizon, start, end, open, true, [m]));
      ReplayedNone(open);
    } else if m.ticks < start {
      ReplayedOpens(Apply(open, m));
    } else {
      ReplayedOpens(open);
      ReplayedConcat([], open, Repaired(horizon, open, m));
    }
  }

  /** An event changes what is open unless it closes nothing. */
  lemma ApplyChanges(stack: seq<Mark>, m: Mark)
    ensures Apply(stack, m) != stack <==> Opens(m.codeKind) || stack != []
    ensures AllOpen(stack) ==> AllOpen(Apply(stack, m))
  {
    if Apply(stack, m) == stack {
      assert |Apply(stack, m)| == |stack|;
    }
  }

  lemma ReplayedNone(stack: seq<Mark>)
    ensures Replayed(stack, []) == stack
  {
  }

  /** What is emitted for the first `k` events leaves open what they leave open. */
  predicate Agrees(horizon: nat, start: nat, end: nat, stream: seq<Mark>, k: nat)
    requires k <= |stream|
  {
    Replayed([], Emitted(horizon, start, end, stream[..k])) == Replayed([], stream[..k])
  }

  lemma OneMoreAgreesIff(horizon: nat, start: nat, end: nat, looked: seq<Mark>, k: nat)
    requires k < |looked| && Continues(start, end, looked) && Agrees(horizon, start, end, looked, k)
    ensures Agrees(horizon, start, end, looked, k + 1) <==> !Loses(start, looked[..k], looked[k])
  {
    assert looked[..k + 1] == looked[..k] + [looked[k]];
    OneMoreReplaysIff(horizon, start, end, looked[..k], looked[k]);
  }

  predicate AgreesUpTo(horizon: nat, start: nat, end: nat, stream: seq<Mark>, n: nat)
    requires n <= |stream|
  {
    forall k :: 0 <= k <= n ==> Agrees(horizon, start, end, stream, k)
  }

  predicate KeptUpTo(start: nat, marks: seq<Mark>, n: nat)
    requires n <= |marks|
  {
    forall k :: 0 <= k < n ==> !Loses(start, marks[..k], marks[k])
  }

  lemma OneMoreUpTo(horizon: nat, start: nat, end: nat, marks: seq<Mark>, n: nat)
    requires n < |marks|
    ensures AgreesUpTo(horizon, start, end, marks, n + 1)
            <==> AgreesUpTo(horizon, start, end, marks, n) && Agrees(horizon, start, end, marks, n + 1)
    ensures KeptUpTo(start, marks, n + 1) <==> KeptUpTo(start, marks, n) && !Loses(start, marks[..n], marks[n])
  {
    hide Agrees, Loses;
  }

  lemma {:induction false} AgreesUntilLost(horizon: nat, start: nat, end: nat, looked: seq<Mark>, n: nat)
    requires n <= |looked| && Continues(start, end, looked)
    ensures AgreesUpTo(horizon, start, end, looked, n) <==> KeptUpTo(start, looked, n)
    decreases n
  {
    if n == 0 {
      assert looked[..0] == [] && Agrees(horizon, start, end, looked, 0);
    } else {
      AgreesUntilLost(horizon, start, end, looked, n - 1);
      OneMoreUpTo(horizon, start, end, looked, n - 1);
      if AgreesUpTo(horizon, start, end, looked, n - 1) {
        assert Agrees(horizon, start, end, looked, n - 1);
        hide AgreesUpTo, KeptUpTo, Agrees, Loses;
        OneMoreAgreesIff(horizon, start, end, looked, n - 1);
      }
    }
  }

  /**
   Exactly when the cut holds, whatever the ticks: at every event the loop looks at, replaying what was emitted so
   far leaves open what the capture has open, if and only if no event that opens a frame or closes a captured one
   falls behind the window's start after the window was reached.
   */
  lemma CutHoldsIff(horizon: nat, start: nat, end: nat, stream: seq<Mark>)
    ensures var looked := Looked(start, end, stream);
            (forall k :: 0 <= k <= |looked| ==> Agrees(horizon, start, end, stream, k)) <==> LosesNothing(start, looked)
  {
    var looked := Looked(start, end, stream);
    AgreesUntilLost(horizon, start, end, looked, |looked|);
    hide Loses, Emitted, Replayed;
    forall k | 0 <= k <= |looked| ensures Agrees(horizon, start, end, stream, k) <==> Agrees(horizon, start, end, looked, k) {
      assert stream[..k] == looked[..k];
    }
  }

  /** A stream that does not reach beyond the window is looked at to its end. */
  lemma WholeCutHolds(horizon: nat, start: nat, end: nat, marks: seq<Mark>)
    requires Continues(start, end, marks) && LosesNothing(start, marks)
    ensures Replayed([], Emitted(horizon, start, end, marks)) == Replayed([], marks)
  {
    AgreesUntilLost(horizon, start, end, marks, |marks|);
    hide Loses, Emitted, Replayed;
    assert Agrees(horizon, start, end, marks, |marks|);
    assert marks[..|marks|] == marks;
  }

  /** Ticks that never step back lose nothing. */
  lemma InOrderLosesNothing(start: nat, stream: seq<Mark>)
    requires NonDecreasing(stream)
    ensures LosesNothing(start, stream)
  {
    forall k | 0 <= k < |stream| ensures !Loses(start, stream[..k], stream[k]) {
      if i :| 0 <= i < k && start <= stream[..k][i].ticks {
        assert stream[i].ticks <= stream[k].ticks;
      }
    }
  }

  /**
   Window cut: for every tick of the window, replaying what was emitted up to that tick leaves exactly the frames open,
   tick and code, that the whole capture leaves open at that tick, if none of the events up to it is lost; and when
   ticks never step back, that is always so, and the rest of the emission is the repaired events after that tick.
   */
  lemma WindowCutPreservesStacks(horizon: nat, start: nat, end: nat, t: nat, stream: seq<Mark>)
    requires start <= t <= end
    ensures LosesNothing(start, UpTo(stream, t)) ==>
              Replayed([], Emitted(horizon, start, end, UpTo(stream, t))) == Replayed([], UpTo(stream, t))
    ensures NonDecreasing(stream) ==>
              && LosesNothing(start, UpTo(stream, t))
              && Emitted(horizon, start, end, stream)
              == Emitted(horizon, start, end, UpTo(stream, t))
                 + Repair(horizon, Replayed([], UpTo(stream, t)), Span(stream, t + 1, end + 1))
  {
    var known := UpTo(stream, t);
    UpToContinues(start, end, t, stream);
    hide Emitted, Replayed, Span, Repair, NonDecreasing, LosesNothing, Continues;
    if NonDecreasing(stream) {
      InOrderLosesNothing(start, known);
      RestIsRepaired(horizon, start, end, t, stream);
    }
    if LosesNothing(start, known) {
      WholeCutHolds(horizon, start, end, known);
    }
  }

  lemma UpToContinues(start: nat, end: nat, t: nat, stream: seq<Mark>)
    requires t <= end
    ensures Continues(start, end, UpTo(stream, t)) && (NonDecreasing(stream) ==> NonDecreasing(UpTo(stream, t)))
  {
    var known := UpTo(stream, t);
    SpanFacts(stream, 0, t + 1);
    forall i | 0 <= i < |known| ensures !Stops(start, end, known[i]) {
      assert known[i] in known;
    }
  }

  // ----- the whole emission, whatever the ticks -----

  /** The events before the first that is not behind the window. */
  function Approach(start: nat, marks: seq<Mark>): (early: seq<Mark>)
    ensures early <= marks && forall i :: 0 <= i < |early| ==> early[i].ticks < start
    decreases |marks|
  {
    if marks == [] || start <= marks[0].ticks then [] else [marks[0]] + Approach(start, marks[1..])
  }

  /** The frames carried into the window: those open when it is first reached. */
  function Carried(start: nat, stream: seq<Mark>): seq<Mark> {
    Replayed([], Approach(start, stream))
  }

  /** The window's events with their repairs. Events behind the window move the stack and are not kept. */
  function Kept(horizon: nat, start: nat, stack: seq<Mark>, marks: seq<Mark>): seq<Mark>
    decreases |marks|
  {
    if marks == [] then []
    else (if marks[0].ticks < start then [] else Repaired(horizon, stack, marks[0]))
         + Kept(horizon, start, Apply(stack, marks[0]), marks[1..])
  }

  lemma {:induction false} EmissionIsKept(horizon: nat, start: nat, end: nat, stack: seq<Mark>, stream: seq<Mark>)
    ensures Emission(horizon, start, end, stack, true, stream) == Kept(horizon, start, stack, Looked(start, end, stream))
    decreases |stream|
  {
    if stream != [] && !Stops(start, end, stream[0]) {
      EmissionIsKept(horizon, start, end, Apply(stack, stream[0]), stream[1..]);
      assert Looked(start, end, stream)[1..] == Looked(start, end, stream[1..]);
    }
  }

  /**
   Every emission, whatever the ticks: the frames open when the window is first reached, then what is kept of the
   events the loop looks at.
   */
  lemma {:induction false} EmissionIsCarriedThenKept(horizon: nat, start: nat, end: nat, stack: seq<Mark>, stream: seq<Mark>)
    ensures Emission(horizon, start, end, stack, false, stream)
         == Replayed(stack, Approach(start, stream)) + Kept(horizon, start, stack, Looked(start, end, stream))
    decreases |stream|
  {
    if stream == [] {
      assert stack + [] == stack;
    } else if Stops(start, end, stream[0]) {
    } else {
      var m, later := stream[0], stream[1..];
      assert Looked(start, end, stream)[1..] == Looked(start, end, later);
      if m.ticks < start {
        EmissionIsCarriedThenKept(horizon, start, end, Apply(stack, m), later);
        assert Approach(start, stream)[1..] == Approach(start, later);
      } else {
        EmissionIsKept(horizon, start, end, Apply(stack, m), later);
      }
    }
  }

  /** Ticks that step backwards break it: a close behind the window's start vanishes from the output only. */
  lemma BackwardTicksBreakTheCut()
    ensures var begin := Mark(10, PackCodeKind(7, Begin)); var close := Mark(5, PackCodeKind(7, End));
            && Replayed([], Emitted(0, 6, 20, [begin, close])) == [begin]
            && Replayed([], [begin, close]) == []
            && Loses(6, [begin], close)
  {
    PackingKeepsKindAndId(7, Begin);
    PackingKeepsKindAndId(7, End);
    var begin := Mark(10, PackCodeKind(7, Begin));
    var close := Mark(5, PackCodeKind(7, End));
    assert [begin, close][1..] == [close] && [close][1..] == [];
    assert Apply([], begin) == [begin] && Apply([begin], close) == [];
    assert Replayed([], [begin, close]) == Replayed([begin], [close]) == Replayed([], []);
    assert Replayed([], [begin]) == [begin] by { assert [begin][1..] == []; }
    assert Emission(0, 6, 20, [begin], true, [close]) == Emission(0, 6, 20, [], true, []) == [];
    assert Emission(0, 6, 20, [], false, [begin, close]) == [] + ([begin] + []);
    assert [begin][0].ticks == 10;
  }
}

/** Repairing a stream whose first opens were never captured. */
module Nesting {
  import opened Events
  import opened Batches
  import opened Stacks
  import opened Replay

  /** How the true stack and the captured one move together: the captured frames are its top. */
  lemma ApplyCodes(below: seq<nat>, stack: seq<Mark>, m: Mark)
    requires Opens(m.codeKind) || stack != []
    ensures Codes(Apply(stack, m)) == if Opens(m.codeKind) then Codes(stack) + [CodeOf(m.codeKind)]
                                      else Codes(stack)[..|stack| - 1]
    ensures below + Codes(Apply(stack, m)) ==
              if Opens(m.codeKind) then below + Codes(stack) + [CodeOf(m.codeKind)]
              else (below + Codes(stack))[..|below| + |stack| - 1]
  {
  }

  lemma NestedCons(open: seq<nat>, m: Mark, rest: seq<Mark>)
    ensures Nested(open, [m] + rest) <==>
              if Opens(m.codeKind) then Nested(open + [CodeOf(m.codeKind)], rest)
              else open != [] && open[|open| - 1] == CodeOf(m.codeKind) && Nested(open[..|open| - 1], rest)
  {
    assert ([m] + rest)[1..] == rest;
  }

  /** A synthesized open and its close leave the frames as they were. */
  lemma NestedPair(horizon: nat, m: Mark, rest: seq<Mark>)
    requires !Opens(m.codeKind) && Nested([], rest)
    ensures Nested([], [Synthesized(horizon, m), m] + rest)
  {
    var s, c := Synthesized(horizon, m), CodeOf(m.codeKind);
    PackingKeepsKindAndId(c, Begin);
    NestedCons([c], m, rest);
    NestedCons([], s, [m] + rest);
    assert [s, m] + rest == [s] + ([m] + rest);
    assert [] + [c] == [c] && [c][..0] == [];
  }

  /** A piece of a nested trace is nested above whatever was open where it starts. */
  lemma {:induction false} NestedPiece(open: seq<nat>, before: seq<Mark>, piece: seq<Mark>, after: seq<Mark>) returns (below: seq<nat>)
    requires Nested(open, before + piece + after)
    ensures Nested(below, piece)
    decreases |before|
  {
    if before == [] {
      assert before + piece + after == piece + after;
      NestedPrefix(open, piece, after);
      below := open;
    } else {
      assert (before + piece + after)[1..] == before[1..] + piece + after;
      var c := CodeOf(before[0].codeKind);
      below := NestedPiece(if Opens(before[0].codeKind) then open + [c] else open[..|open| - 1], before[1..], piece, after);
    }
  }

  lemma {:induction false} NestedPrefix(open: seq<nat>, a: seq<Mark>, b: seq<Mark>)
    requires Nested(open, a + b)
    ensures Nested(open, a)
    decreases |a|
  {
    if a != [] {
      assert (a + b)[1..] == a[1..] + b;
      NestedPrefix(if Opens(a[0].codeKind) then open + [CodeOf(a[0].codeKind)] else open[..|open| - 1], a[1..], b);
    }
  }

  /** Emitting one more event of the window and then something nested. */
  lemma RepairedIsNested(horizon: nat, below: seq<nat>, stack: seq<Mark>, m: Mark, rest: seq<Mark>)
    requires Nested(below + Codes(stack), [m]) && Nested(Codes(Apply(stack, m)), rest)
    ensures Nested(Codes(stack), Repaired(horizon, stack, m) + rest)
  {
    NestedCons(below + Codes(stack), m, []);
    assert [m] + [] == [m];
    if !Opens(m.codeKind) && stack == [] {
      assert Codes(stack) == [];
      NestedPair(horizon, m, rest);
    } else {
      ApplyCodes(below, stack, m);
      NestedCons(Codes(stack), m, rest);
    }
  }

  /** The captured frames and the ones below them after one event of the trace. */
  lemma OneEvent(below: seq<nat>, stack: seq<Mark>, m: Mark, rest: seq<Mark>) returns (left: seq<nat>)
    requires Nested(below + Codes(stack), [m] + rest)
    ensures Nested(left + Codes(Apply(stack, m)), rest) && Nested(below + Codes(stack), [m])
  {
    NestedPrefix(below + Codes(stack), [m], rest);
    NestedCons(below + Codes(stack), m, rest);
    if !Opens(m.codeKind) && stack == [] {
      left := below[..|below| - 1];
      assert below + Codes(stack) == below && left + Codes([]) == left;
    } else {
      left := below;
      ApplyCodes(below, stack, m);
    }
  }

  /** The captured stack after a nested piece sits on top of what is left of the frames below it. */
  lemma {:induction false} NestedAfterPrefix(below: seq<nat>, stack: seq<Mark>, a: seq<Mark>, b: seq<Mark>) returns (left: seq<nat>)
    requires Nested(below + Codes(stack), a + b)
    ensures Nested(left + Codes(Replayed(stack, a)), b)
    decreases |a|
  {
    if a == [] {
      assert a + b == b;
      left := below;
    } else {
      assert a + b == [a[0]] + (a[1..] + b);
      left := OneEvent(below, stack, a[0], a[1..] + b);
      left := NestedAfterPrefix(left, Apply(stack, a[0]), a[1..], b);
    }
  }

  /** The same where a nested piece follows the frames the loop carries into the window. */
  lemma CarriedIsNested(stack: seq<Mark>, rest: seq<Mark>)
    requires AllOpen(stack) && Nested(Codes(stack), rest)
    ensures Nested([], stack + rest)
  {
    NestedAfterOpens([], stack, rest);
    assert [] + Codes(stack) == Codes(stack);
  }

  /** What the loop emits from where it stands: nested above what it has emitted, or with it when that is still to come. */
  lemma {:induction false} EmissionNests(horizon: nat, start: nat, end: nat, below: seq<nat>, seen: seq<Mark>, marks: seq<Mark>)
    requires Nested(below + Codes(Replayed([], seen)), marks)
    requires LosesNoMore(start, seen, Looked(start, end, marks))
    ensures var stack, carried := Replayed([], seen), Reached(start, seen);
            && Nested(if carried then Codes(stack) else [], Emission(horizon, start, end, stack, carried, marks))
    decreases |marks|
  {
    var stack, carried := Replayed([], seen), Reached(start, seen);
    StacksHoldOpens([], seen);
    hide LosesNoMore, Replayed, Reached, Looked, Emission, Nested, Codes, Apply;
    if marks == [] || Stops(start, end, marks[0]) {
      NestsAtEnd(horizon, start, end, stack, carried, marks);
    } else {
      var m, later := marks[0], marks[1..];
      assert marks == [m] + later;
      LookedCons(start, end, m, later);
      KeptOrOrphan(start, seen, m, Looked(start, end, later));
      var left := OneEvent(below, stack, m, later);
      ReplayedOne(seen, m);
      ReachedSnoc(start, seen, m);
      EmissionNests(horizon, start, end, left, seen + [m], later);
      NestsOne(horizon, start, end, below, stack, carried, m, later,
               Emission(horizon, start, end, Apply(stack, m), carried || start <= m.ticks, later));
    }
  }

  lemma LookedCons(start: nat, end: nat, m: Mark, later: seq<Mark>)
    requires !Stops(start, end, m)
    ensures Looked(start, end, [m] + later) == [m] + Looked(start, end, later)
  {
    assert ([m] + later)[1..] == later;
  }

  lemma NestsAtEnd(horizon: nat, start: nat, end: nat, stack: seq<Mark>, carried: bool, marks: seq<Mark>)
    requires AllOpen(stack) && (marks == [] || Stops(start, end, marks[0]))
    ensures Nested(if carried then Codes(stack) else [], Emission(horizon, start, end, stack, carried, marks))
  {
    CarriedIsNested(stack, []);
    assert stack + [] == stack;
  }

  lemma ReachedSnoc(start: nat, seen: seq<Mark>, m: Mark)
    ensures Reached(start, seen + [m]) <==> Reached(start, seen) || start <= m.ticks
  {
    if i :| 0 <= i < |seen| && start <= seen[i].ticks {
      assert (seen + [m])[i] == seen[i];
    }
    assert (seen + [m])[|seen|] == m;
  }

  /** Nothing lost here: behind the window, once it was reached, come only closes of frames never captured. */
  lemma KeptOrOrphan(start: nat, seen: seq<Mark>, m: Mark, looked: seq<Mark>)
    requires LosesNoMore(start, seen, [m] + looked)
    ensures m.ticks < start && Reached(start, seen) ==> !Opens(m.codeKind) && Replayed([], seen) == []
    ensures LosesNoMore(start, seen + [m], looked)
  {
    var all := [m] + looked;
    assert all[0] == m && seen + all[..0] == seen;
    assert !Loses(start, seen + all[..0], all[0]);
    hide Loses;
    forall k | 0 <= k < |looked| ensures !Loses(start, (seen + [m]) + looked[..k], looked[k]) {
      assert seen + all[..k + 1] == (seen + [m]) + looked[..k] && all[k + 1] == looked[k];
    }
  }

  lemma NothingAndNoMore(start: nat, marks: seq<Mark>)
    ensures LosesNothing(start, marks) <==> LosesNoMore(start, [], marks)
  {
    hide Loses;
    assert forall k :: 0 <= k < |marks| ==> [] + marks[..k] == marks[..k];
  }

  lemma NestsOne(horizon: nat, start: nat, end: nat, below: seq<nat>, stack: seq<Mark>, carried: bool, m: Mark,
                 later: seq<Mark>, rest: seq<Mark>)
    requires AllOpen(stack) && Nested(below + Codes(stack), [m]) && !Stops(start, end, m)
    requires rest == Emission(horizon, start, end, Apply(stack, m), carried || start <= m.ticks, later)
    requires Nested(if carried || start <= m.ticks then Codes(Apply(stack, m)) else [], rest)
    requires m.ticks < start && carried ==> !Opens(m.codeKind) && stack == []
    ensures Nested(if carried then Codes(stack) else [], Emission(horizon, start, end, stack, carried, [m] + later))
  {
    assert ([m] + later)[1..] == later;
    if start <= m.ticks {
      RepairedIsNested(horizon, below, stack, m, rest);
      hide Nested;
      if carried {
        assert [] + (Repaired(horizon, stack, m) + rest) == Repaired(horizon, stack, m) + rest;
      } else {
        CarriedIsNested(stack, Repaired(horizon, stack, m) + rest);
      }
    }
  }

  /**
   Nesting repair: whatever contiguous piece of a properly nested trace was captured, and whatever the
   window, if nothing falls behind the window once it is reached, every emitted close matches an earlier
   unmatched emitted open of the same code.
   */
  lemma EmissionIsNested(horizon: nat, start: nat, end: nat, before: seq<Mark>, stream: seq<Mark>, after: seq<Mark>)
    requires Nested([], before + stream + after) && LosesNothing(start, Looked(start, end, stream))
    ensures Nested([], Emitted(horizon, start, end, stream))
  {
    var below := NestedPiece([], before, stream, after);
    assert below + Codes([]) == below;
    NothingAndNoMore(start, Looked(start, end, stream));
    hide LosesNothing, LosesNoMore, Looked, Nested;
    EmissionNests(horizon, start, end, below, [], stream);
  }

  // ----- in order, what the loop looks at is a prefix -----

  /** What `replay` looks at, before the window and in it, is a prefix of the stream. */
  lemma {:induction false} SpanIsPrefix(stream: seq<Mark>, high: nat)
    requires NonDecreasing(stream)
    ensures Span(stream, 0, high) <= stream
    decreases |stream|
  {
    if stream != [] {
      if stream[0].ticks < high {
        SpanIsPrefix(stream[1..], high);
        assert stream == [stream[0]] + stream[1..];
      } else {
        EmptySpan(stream, 0, high);
      }
    }
  }

  lemma LookedAt(start: nat, end: nat, stream: seq<Mark>) returns (rest: seq<Mark>)
    requires NonDecreasing(stream)
    ensures stream == Span(stream, 0, start) + Span(stream, start, end + 1) + rest
  {
    var high := if start <= end then end + 1 else start;
    SpanIsPrefix(stream, high);
    if start <= end {
      SpanSplits(stream, 0, start, end + 1);
    } else {
      EmptySpan(stream, start, end + 1);
    }
    rest := stream[|Span(stream, 0, high)|..];
  }

  lemma CapturedTop(start: nat, end: nat, before: seq<Mark>, stream: seq<Mark>, after: seq<Mark>) returns (left: seq<nat>)
    requires Nested([], before + stream + after) && NonDecreasing(stream)
    ensures Nested(left + Codes(Replayed([], Span(stream, 0, start))), Span(stream, start, end + 1))
  {
    var early, window := Span(stream, 0, start), Span(stream, start, end + 1);
    var below := NestedPiece([], before, stream, after);
    var rest := LookedAt(start, end, stream);
    NestedPrefix(below, early + window, rest);
    assert below + Codes([]) == below;
    left := NestedAfterPrefix(below, [], early, window);
  }
}
