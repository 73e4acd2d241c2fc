/** A thread's slice of a written dump, as its reader finds it: events with code, kind and nanoseconds. */
module Readout {
  import opened Words
  import opened Events
  import opened Batches
  import opened Stacks
  import opened Replay
  import opened StableSort
  import opened Assemble
  import opened Ranks
  import opened Dumps
  import opened Depths
  import opened Shapes

  /** The events of one thread in a dump, as marks at nanoseconds. */
  function TraceOf(events: seq<Event>, tid: u32): seq<Mark> {
    if events == [] then []
    else
      var last := events[|events| - 1];
      TraceOf(events[..|events| - 1], tid) + if last.tid == tid then [Mark(last.tsNs, last.codeKind)] else []
  }

  /** The same call or return: code and kind agree, and the stamp is the tick in nanoseconds. */
  predicate Shows(ns: nat -> u64, m: Mark, seen: Mark) {
    seen.ticks == ns(m.ticks) && CodeOf(seen.codeKind) == CodeOf(m.codeKind) && KindOf(seen.codeKind) == KindOf(m.codeKind)
  }

  predicate ShowsAll(ns: nat -> u64, marks: seq<Mark>, seen: seq<Mark>) {
    |seen| == |marks| && forall i :: 0 <= i < |marks| ==> Shows(ns, marks[i], seen[i])
  }

  lemma {:induction false} TraceShows(ns: nat -> u64, s: seq<Entry>, events: seq<Event>, tid: u32)
    requires TellsAll(ns, s, events)
    ensures ShowsAll(ns, Untagged(OfTid(s, tid)), TraceOf(events, tid))
    decreases |s|
  {
    if s != [] {
      var n := |s| - 1;
      forall i | 0 <= i < n ensures Tells(ns, s[..n][i], events[..n][i]) {
        assert Tells(ns, s[i], events[i]);
      }
      TraceShows(ns, s[..n], events[..n], tid);
      assert Tells(ns, s[n], events[n]);
      assert s == s[..n] + [s[n]];
      OfTidSnoc(s[..n], s[n], tid);
      UntaggedSnoc(OfTid(s[..n], tid), s[n]);
    }
  }

  // ----- what is shown keeps depth, names and open frames -----

  lemma {:induction false} SameDepth(ns: nat -> u64, depth: int, marks: seq<Mark>, seen: seq<Mark>)
    requires ShowsAll(ns, marks, seen)
    ensures NeverNegative(depth, seen) <==> NeverNegative(depth, marks)
    decreases |marks|
  {
    if marks != [] {
      assert Shows(ns, marks[0], seen[0]);
      SameDepth(ns, depth + Change(marks[0]), marks[1..], seen[1..]);
    }
  }

  lemma {:induction false} SameNesting(ns: nat -> u64, open: seq<nat>, marks: seq<Mark>, seen: seq<Mark>)
    requires ShowsAll(ns, marks, seen)
    ensures Nested(open, seen) <==> Nested(open, marks)
    decreases |marks|
  {
    if marks != [] {
      assert Shows(ns, marks[0], seen[0]);
      if Opens(marks[0].codeKind) {
        SameNesting(ns, open + [CodeOf(marks[0].codeKind)], marks[1..], seen[1..]);
      } else if open != [] {
        SameNesting(ns, open[..|open| - 1], marks[1..], seen[1..]);
      }
    }
  }

  lemma {:induction false} SameStack(ns: nat -> u64, stack: seq<Mark>, seenStack: seq<Mark>, marks: seq<Mark>, seen: seq<Mark>)
    requires ShowsAll(ns, stack, seenStack) && ShowsAll(ns, marks, seen)
    ensures ShowsAll(ns, Replayed(stack, marks), Replayed(seenStack, seen))
    decreases |marks|
  {
    if marks != [] {
      assert Shows(ns, marks[0], seen[0]);
      SameStack(ns, Apply(stack, marks[0]), Apply(seenStack, seen[0]), marks[1..], seen[1..]);
    }
  }

  // ----- a thread of a written dump -----

  lemma SliceOf(sorted: seq<Entry>, events: seq<Event>, all: seq<Batch>, ns: nat -> u64, horizon: nat, start: nat, end: nat, tid: u32)
    requires DumpOf(sorted, all, horizon, start, end) && TellsAll(ns, sorted, events)
    ensures var emitted := Emitted(horizon, start, end, StreamOf(all, tid));
            && OfTid(sorted, tid) == Sorted(Tagged(tid, emitted))
            && ShowsAll(ns, Untagged(Sorted(Tagged(tid, emitted))), TraceOf(events, tid))
  {
    TraceShows(ns, sorted, events, tid);
  }

  lemma DumpSlice(sorted: seq<Entry>, all: seq<Batch>, horizon: nat, start: nat, end: nat, tid: u32)
    requires DumpOf(sorted, all, horizon, start, end)
    ensures OfTid(sorted, tid) == Sorted(Tagged(tid, Emitted(horizon, start, end, StreamOf(all, tid))))
  {
  }

  lemma SliceAscends(marks: seq<Mark>, tid: u32)
    ensures NonDecreasing(Untagged(Sorted(Tagged(tid, marks))))
  {
    SortedFacts(Tagged(tid, marks));
    AscendingPairs(Sorted(Tagged(tid, marks)));
  }

  /**
   A written dump holds of each thread, one by one and in tick order, the frames open when the window is first reached,
   one synthesized open for each close that finds nothing open, and its events of the window among those looked at: all
   its captured events inside the window exactly when none comes after an event past the end.
   */
  lemma ThreadWritten(events: seq<Event>, all: seq<Batch>, ns: nat -> u64, horizon: nat, start: nat, end: nat, tid: u32)
    returns (slice: seq<Mark>)
    requires Told(events, all, ns, horizon, start, end)
    ensures ShowsAll(ns, slice, TraceOf(events, tid)) && NonDecreasing(slice)
    ensures var stream := StreamOf(all, tid);
            var open, orphans := Carried(start, stream), Orphans(start, [], Looked(start, end, stream));
            var frames := multiset(open) + multiset(Invented(horizon, orphans));
            && multiset(slice) == frames + multiset(InWindow(start, end, stream))
            && (multiset(slice) == frames + multiset(Span(stream, start, end + 1)) <==> !CutShort(start, end, stream))
    ensures var orphans := Orphans(start, [], Looked(start, end, StreamOf(all, tid)));
            forall i :: 0 <= i < |orphans| ==>
              var open := Invented(horizon, orphans)[i];
              open.ticks == horizon && CodeOf(open.codeKind) == CodeOf(orphans[i].codeKind) && KindOf(open.codeKind) == Begin
  {
    ghost var closes := Orphans(start, [], Looked(start, end, StreamOf(all, tid)));
    forall i | 0 <= i < |closes|
      ensures Invented(horizon, closes)[i].ticks == horizon && KindOf(Invented(horizon, closes)[i].codeKind) == Begin
      ensures CodeOf(Invented(horizon, closes)[i].codeKind) == CodeOf(closes[i].codeKind)
    {
      InventedAreBegins(horizon, closes, i);
    }
    hide CodeOf, KindOf, DumpOf, TellsAll, ShowsAll, NonDecreasing, Sorted, CutShort, Span, Looked, Orphans, Invented, Emission;
    var sorted :| DumpOf(sorted, all, horizon, start, end) && TellsAll(ns, sorted, events);
    SliceOf(sorted, events, all, ns, horizon, start, end, tid);
    ThreadInDump(sorted, all, horizon, start, end, tid);
    var emitted := Emitted(horizon, start, end, StreamOf(all, tid));
    SliceAscends(emitted, tid);
    slice := Untagged(OfTid(sorted, tid));
  }

  /**
   Its depth as written never drops below zero exactly when, of what is emitted, no more closes than opens come at or
   before any event; in order, exactly when the horizon is no later than the first close that finds nothing open.
   */
  lemma DepthWritten(events: seq<Event>, all: seq<Batch>, ns: nat -> u64, horizon: nat, start: nat, end: nat, tid: u32)
    requires Told(events, all, ns, horizon, start, end)
    ensures var stream := StreamOf(all, tid);
            NeverNegative(0, TraceOf(events, tid))
            <==> NoneBelow(Tagged(tid, Carried(start, stream) + Kept(horizon, start, [], Looked(start, end, stream))))
    ensures var stream := StreamOf(all, tid);
            NonDecreasing(stream) ==>
              (NeverNegative(0, TraceOf(events, tid))
               <==> EarlyEnough(horizon, Unmatched(Replayed([], Span(stream, 0, start)), Span(stream, start, end + 1))))
  {
    hide DumpOf, TellsAll, ShowsAll, NonDecreasing, NeverNegative, NoneBelow, EarlyEnough, Sorted, Span, Looked, Emission, Tagged;
    var sorted :| DumpOf(sorted, all, horizon, start, end) && TellsAll(ns, sorted, events);
    var stream := StreamOf(all, tid);
    SliceOf(sorted, events, all, ns, horizon, start, end, tid);
    SameDepth(ns, 0, Untagged(Sorted(Tagged(tid, Emitted(horizon, start, end, stream)))), TraceOf(events, tid));
    DepthNeverNegativeIff(tid, horizon, start, end, stream);
    if NonDecreasing(stream) {
      SortedDepthNeverNegativeIff(tid, horizon, start, end, stream);
    }
  }

  /** For a nested trace captured in order, exactly when every close as written meets its own call's name. */
  lemma NamesWritten(events: seq<Event>, all: seq<Batch>, ns: nat -> u64, horizon: nat, start: nat, end: nat, tid: u32,
                     before: seq<Mark>, after: seq<Mark>)
    requires Told(events, all, ns, horizon, start, end)
    requires Nested([], before + StreamOf(all, tid) + after) && NonDecreasing(StreamOf(all, tid))
    ensures var own := Own(start, end, StreamOf(all, tid));
            Nested([], TraceOf(events, tid)) <==> EarlyEnough(horizon, Unmatched([], own)) && NamesFit(horizon, own)
  {
    hide DumpOf, TellsAll, ShowsAll, NonDecreasing, Nested, NamesFit, EarlyEnough, Sorted, Own, Emission, Tagged, Unmatched;
    var sorted :| DumpOf(sorted, all, horizon, start, end) && TellsAll(ns, sorted, events);
    var stream := StreamOf(all, tid);
    SliceOf(sorted, events, all, ns, horizon, start, end, tid);
    SameNesting(ns, [], Untagged(Sorted(Tagged(tid, Emitted(horizon, start, end, stream)))), TraceOf(events, tid));
    SortedNamesMatchIff(tid, horizon, start, end, before, stream, after);
  }

  // ----- the frames open in a written dump -----

  /** With frames below it, a piece closes from the top as many of them as it has unmatched closes. */
  lemma {:induction false} ClosesBelow(below: seq<Mark>, stack: seq<Mark>, marks: seq<Mark>)
    requires |Unmatched(stack, marks)| <= |below|
    ensures Replayed(below + stack, marks)
         == below[..|below| - |Unmatched(stack, marks)|] + Replayed(stack, marks)
    decreases |marks|
  {
    if marks == [] {
      assert below[..|below|] == below;
    } else {
      var m, later := marks[0], marks[1..];
      if !Opens(m.codeKind) && stack == [] {
        var fewer := below[..|below| - 1];
        assert below + [] == below && fewer + [] == fewer;
        assert Apply(below + stack, m) == fewer + Apply(stack, m);
        ClosesBelow(fewer, [], later);
        assert fewer[..|fewer| - |Unmatched([], later)|] == below[..|below| - |Unmatched(stack, marks)|];
      } else {
        assert Apply(below + stack, m) == below + Apply(stack, m);
        ClosesBelow(below, Apply(stack, m), later);
      }
    }
  }

  /** Two ways of cutting a list at a tick are the same. */
  lemma CutsAgree(whole: seq<Mark>, first: seq<Mark>, rest: seq<Mark>, a: seq<Mark>, b: seq<Mark>, t: nat)
    requires whole == first + rest == a + b
    requires Below(first, t) && Above(rest, t) && Below(a, t) && Above(b, t)
    ensures a == first
  {
    assert forall i :: 0 <= i < |whole| ==> (i < |first| <==> whole[i].ticks <= t);
    assert forall i :: 0 <= i < |whole| ==> (i < |a| <==> whole[i].ticks <= t);
    assert |a| < |whole| ==> (whole[|a|].ticks <= t <==> |a| < |first|);
    assert |first| < |whole| ==> (whole[|first|].ticks <= t <==> |first| < |a|);
    assert a == whole[..|a|] && first == whole[..|first|];
  }

  lemma UntaggedConcat(a: seq<Entry>, b: seq<Entry>)
    ensures Untagged(a + b) == Untagged(a) + Untagged(b)
  {
  }

  lemma TicksOfThread(s: seq<Entry>, n: nat, t: nat, tid: u32)
    requires SplitsAt(s, t, n)
    ensures Below(Untagged(OfTid(s[..n], tid)), t) && Above(Untagged(OfTid(s[n..], tid)), t)
  {
    var a, b := OfTid(s[..n], tid), OfTid(s[n..], tid);
    OfTidMembers(s[..n], tid);
    OfTidMembers(s[n..], tid);
    hide OfTid;
    assert forall i :: 0 <= i < |a| ==> a[i] in s[..n] && a[i].ticks <= t;
    assert forall i :: 0 <= i < |b| ==> b[i] in s[n..] && t < b[i].ticks;
  }

  /** The part of a thread up to a tick, from the part of the dump up to it. */
  lemma ThreadUpTo(s: seq<Entry>, n: nat, t: nat, tid: u32, first: seq<Mark>, rest: seq<Mark>)
    requires SplitsAt(s, t, n) && OfTid(s, tid) == Tagged(tid, first + rest)
    requires Below(first, t) && Above(rest, t)
    ensures Untagged(OfTid(s[..n], tid)) == first
  {
    var a, b := OfTid(s[..n], tid), OfTid(s[n..], tid);
    assert s == s[..n] + s[n..];
    OfTidConcat(s[..n], s[n..], tid);
    TicksOfThread(s, n, t, tid);
    assert Untagged(Tagged(tid, first + rest)) == first + rest;
    UntaggedConcat(a, b);
    hide OfTid, Untagged, Tagged, Below, Above, SplitsAt;
    CutsAgree(first + rest, first, rest, Untagged(a), Untagged(b), t);
  }

  /** In order and behind the horizon, or with every close matched, the whole slice in the order it has after the sort. */
  lemma WholeSlice(tid: u32, horizon: nat, start: nat, end: nat, stream: seq<Mark>)
    requires NonDecreasing(stream)
    requires var open := Replayed([], Span(stream, 0, start));
             Above(stream, horizon) || Unmatched(open, Span(stream, start, end + 1)) == []
    ensures var open := Replayed([], Span(stream, 0, start)); var window := Span(stream, start, end + 1);
            Sorted(Tagged(tid, Emitted(horizon, start, end, stream)))
            == Tagged(tid, Invented(horizon, Unmatched(open, window)) + (open + window))
  {
    if Above(stream, horizon) {
      SortedAfterHorizon(tid, horizon, start, end, stream);
    } else {
      var own := Own(start, end, stream);
      EmissionInOrder(horizon, start, end, stream);
      NothingToRepair(horizon, [], own);
      SortedAlready(tid, own);
      assert [] + own == own;
    }
  }

  /**
   Window cut, as written: in order, with the horizon before every event or every close matched, the events written up
   to a tick of the window leave open, above the synthesized opens not yet closed, exactly the frames that the whole
   capture leaves open at that tick.
   */
  lemma StackWritten(sorted: seq<Entry>, events: seq<Event>, all: seq<Batch>, ns: nat -> u64, horizon: nat, start: nat, end: nat,
                     tid: u32, t: nat, n: nat)
    requires DumpOf(sorted, all, horizon, start, end) && TellsAll(ns, sorted, events)
    requires start <= t <= end && SplitsAt(sorted, t, n) && NonDecreasing(StreamOf(all, tid))
    requires var stream := StreamOf(all, tid); var open := Replayed([], Span(stream, 0, start));
             (horizon <= t && Above(stream, horizon)) || Unmatched(open, Span(stream, start, end + 1)) == []
    ensures var stream := StreamOf(all, tid); var open := Replayed([], Span(stream, 0, start));
            var invented := Invented(horizon, Unmatched(open, Span(stream, start, end + 1)));
            var closed := |Unmatched(open, Span(stream, start, t + 1))|;
            && closed <= |invented|
            && ShowsAll(ns, invented[..|invented| - closed] + Replayed([], UpTo(stream, t)),
                        Replayed([], TraceOf(events[..n], tid)))
  {
    var stream := StreamOf(all, tid);
    var open := Replayed([], Span(stream, 0, start));
    var now, later := Span(stream, start, t + 1), Span(stream, t + 1, end + 1);
    var invented := Invented(horizon, Unmatched(open, Span(stream, start, end + 1)));
    hide *;
    SliceParts(sorted, all, horizon, start, end, tid, t);
    StackUpTo(sorted, events, ns, n, t, tid, invented + (open + now), later);
  }

  /** The slice of a thread in two parts, up to a tick of the window and after it, and what the first leaves open. */
  lemma StreamParts(stream: seq<Mark>, horizon: nat, start: nat, end: nat, tid: u32, t: nat)
    requires start <= t <= end && NonDecreasing(stream)
    requires var open := Replayed([], Span(stream, 0, start));
             (horizon <= t && Above(stream, horizon)) || Unmatched(open, Span(stream, start, end + 1)) == []
    ensures var open := Replayed([], Span(stream, 0, start));
            var now, later := Span(stream, start, t + 1), Span(stream, t + 1, end + 1);
            var invented := Invented(horizon, Unmatched(open, Span(stream, start, end + 1)));
            && Sorted(Tagged(tid, Emitted(horizon, start, end, stream))) == Tagged(tid, invented + (open + now) + later)
            && Below(invented + (open + now), t) && Above(later, t)
            && |Unmatched(open, now)| <= |invented|
            && Replayed([], invented + (open + now))
               == invented[..|invented| - |Unmatched(open, now)|] + Replayed([], UpTo(stream, t))
  {
    var open := Replayed([], Span(stream, 0, start));
    var now, later := Span(stream, start, t + 1), Span(stream, t + 1, end + 1);
    hide *;
    WholeSlice(tid, horizon, start, end, stream);
    WindowSplits(stream, start, t, end, open);
    PartsOf(horizon, start, t, end, stream);
    Regrouped3(Invented(horizon, Unmatched(open, Span(stream, start, end + 1))), open, now, later);
  }

  lemma SliceParts(sorted: seq<Entry>, all: seq<Batch>, horizon: nat, start: nat, end: nat, tid: u32, t: nat)
    requires DumpOf(sorted, all, horizon, start, end) && start <= t <= end && NonDecreasing(StreamOf(all, tid))
    requires var stream := StreamOf(all, tid); var open := Replayed([], Span(stream, 0, start));
             (horizon <= t && Above(stream, horizon)) || Unmatched(open, Span(stream, start, end + 1)) == []
    ensures var stream := StreamOf(all, tid); var open := Replayed([], Span(stream, 0, start));
            var now, later := Span(stream, start, t + 1), Span(stream, t + 1, end + 1);
            var invented := Invented(horizon, Unmatched(open, Span(stream, start, end + 1)));
            && OfTid(sorted, tid) == Tagged(tid, invented + (open + now) + later)
            && Below(invented + (open + now), t) && Above(later, t)
            && |Unmatched(open, now)| <= |invented|
            && Replayed([], invented + (open + now))
               == invented[..|invented| - |Unmatched(open, now)|] + Replayed([], UpTo(stream, t))
  {
    hide *;
    DumpSlice(sorted, all, horizon, start, end, tid);
    StreamParts(StreamOf(all, tid), horizon, start, end, tid, t);
  }

  lemma StackUpTo(s: seq<Entry>, events: seq<Event>, ns: nat -> u64, n: nat, t: nat, tid: u32, first: seq<Mark>, rest: seq<Mark>)
    requires TellsAll(ns, s, events) && SplitsAt(s, t, n) && OfTid(s, tid) == Tagged(tid, first + rest)
    requires Below(first, t) && Above(rest, t)
    ensures ShowsAll(ns, Replayed([], first), Replayed([], TraceOf(events[..n], tid)))
  {
    ThreadUpTo(s, n, t, tid, first, rest);
    PrefixShows(ns, s, events, n, tid);
    SameStack(ns, [], [], first, TraceOf(events[..n], tid));
  }

  lemma PrefixShows(ns: nat -> u64, s: seq<Entry>, events: seq<Event>, n: nat, tid: u32)
    requires TellsAll(ns, s, events) && n <= |s|
    ensures ShowsAll(ns, Untagged(OfTid(s[..n], tid)), TraceOf(events[..n], tid))
  {
    forall i | 0 <= i < n ensures Tells(ns, s[..n][i], events[..n][i]) {
      assert Tells(ns, s[i], events[i]);
    }
    TraceShows(ns, s[..n], events[..n], tid);
  }

  lemma Regrouped3(a: seq<Mark>, b: seq<Mark>, c: seq<Mark>, d: seq<Mark>)
    ensures a + (b + (c + d)) == (a + (b + c)) + d
  {
  }

  lemma WindowSplits(stream: seq<Mark>, start: nat, t: nat, end: nat, open: seq<Mark>)
    requires NonDecreasing(stream) && start <= t <= end && open == Replayed([], Span(stream, 0, start))
    ensures var now, later := Span(stream, start, t + 1), Span(stream, t + 1, end + 1);
            && Span(stream, start, end + 1) == now + later
            && Unmatched(open, now + later) == Unmatched(open, now) + Unmatched(Replayed(open, now), later)
            && Replayed([], UpTo(stream, t)) == Replayed(open, now)
  {
    SpanSplits(stream, start, t + 1, end + 1);
    SpanSplits(stream, 0, start, t + 1);
    var now, later := Span(stream, start, t + 1), Span(stream, t + 1, end + 1);
    UnmatchedConcat(open, now, later);
    ReplayedConcat([], Span(stream, 0, start), now);
  }

  lemma BelowConcat(a: seq<Mark>, b: seq<Mark>, t: nat)
    requires Below(a, t) && Below(b, t)
    ensures Below(a + b, t)
  {
  }

  lemma PartsBelow(start: nat, t: nat, end: nat, stream: seq<Mark>)
    requires start <= t
    ensures Below(Replayed([], Span(stream, 0, start)), t) && AllOpen(Replayed([], Span(stream, 0, start)))
    ensures Below(Span(stream, start, t + 1), t) && Above(Span(stream, t + 1, end + 1), t)
  {
    var open := Replayed([], Span(stream, 0, start));
    var now, later := Span(stream, start, t + 1), Span(stream, t + 1, end + 1);
    SpanFacts(stream, 0, start);
    SpanFacts(stream, start, t + 1);
    SpanFacts(stream, t + 1, end + 1);
    ReplayedMembers([], Span(stream, 0, start));
    StacksHoldOpens([], Span(stream, 0, start));
    hide Span, Replayed;
    assert forall i :: 0 <= i < |open| ==> open[i] in open;
    assert forall i :: 0 <= i < |now| ==> now[i] in now;
    assert forall i :: 0 <= i < |later| ==> later[i] in later;
  }

  /** The slice up to a tick, and what it leaves open. */
  lemma PartsOf(horizon: nat, start: nat, t: nat, end: nat, stream: seq<Mark>)
    requires start <= t <= end && NonDecreasing(stream)
    requires var open := Replayed([], Span(stream, 0, start));
             horizon <= t || Unmatched(open, Span(stream, start, end + 1)) == []
    ensures var open, now := Replayed([], Span(stream, 0, start)), Span(stream, start, t + 1);
            var invented := Invented(horizon, Unmatched(open, Span(stream, start, end + 1)));
            && Below(invented + (open + now), t) && Above(Span(stream, t + 1, end + 1), t)
            && |Unmatched(open, now)| <= |invented|
            && Replayed([], invented + (open + now))
               == invented[..|invented| - |Unmatched(open, now)|] + Replayed([], UpTo(stream, t))
  {
    var open, now := Replayed([], Span(stream, 0, start)), Span(stream, start, t + 1);
    var closes := Unmatched(open, Span(stream, start, end + 1));
    var invented := Invented(horizon, closes);
    PartsBelow(start, t, end, stream);
    WindowSplits(stream, start, t, end, open);
    InventedOpens(horizon, closes);
    hide Span, Replayed, Unmatched, NonDecreasing, AllOpen, Above;
    assert Below(invented, t);
    hide Below, Invented;
    BelowConcat(open, now, t);
    BelowConcat(invented, open + now, t);
    UpToOpens(invented, open, now);
  }

  lemma UpToOpens(invented: seq<Mark>, open: seq<Mark>, now: seq<Mark>)
    requires AllOpen(open) && AllOpen(invented) && |Unmatched(open, now)| <= |invented|
    ensures Replayed([], invented + (open + now))
         == invented[..|invented| - |Unmatched(open, now)|] + Replayed(open, now)
  {
    OpensReplayToThemselves([], invented);
    assert [] + invented == invented;
    ReplayedConcat([], invented, open + now);
    OpensReplayToThemselves(invented, open);
    ReplayedConcat(invented, open, now);
    ClosesBelow(invented, open, now);
  }
}
