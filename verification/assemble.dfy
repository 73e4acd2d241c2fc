/** A stable sort by tick, as the standard library's `sort_by_key` promises it. */
module StableSort {
  import opened Words
  import opened Events
  import opened Batches
  import opened Stacks
  import opened Replay

  /** `x` goes after every entry at its tick or earlier. */
  function Insert(s: seq<Entry>, x: Entry): (r: seq<Entry>)
    ensures |r| == |s| + 1
    ensures r[|s|] == if s == [] || s[|s| - 1].ticks <= x.ticks then x else s[|s| - 1]
  {
    if s == [] || s[|s| - 1].ticks <= x.ticks then s + [x]
    else Insert(s[..|s| - 1], x) + [s[|s| - 1]]
  }

  function Sorted(s: seq<Entry>): (r: seq<Entry>)
    ensures |r| == |s|
  {
    if s == [] then [] else Insert(Sorted(s[..|s| - 1]), s[|s| - 1])
  }

  predicate Ascending(s: seq<Entry>) {
    |s| < 2 || (s[|s| - 2].ticks <= s[|s| - 1].ticks && Ascending(s[..|s| - 1]))
  }

  function OfTid(s: seq<Entry>, tid: u32): seq<Entry> {
    if s == [] then []
    else if s[|s| - 1].tid == tid then OfTid(s[..|s| - 1], tid) + [s[|s| - 1]]
    else OfTid(s[..|s| - 1], tid)
  }

  lemma {:induction false} AscendingPairs(s: seq<Entry>)
    requires Ascending(s)
    ensures forall i, j :: 0 <= i < j < |s| ==> s[i].ticks <= s[j].ticks
    decreases |s|
  {
    if |s| >= 2 {
      AscendingPairs(s[..|s| - 1]);
    }
  }

  lemma {:induction false} InsertKeepsOrder(s: seq<Entry>, x: Entry)
    requires Ascending(s)
    ensures Ascending(Insert(s, x))
    decreases |s|
  {
    if s == [] || s[|s| - 1].ticks <= x.ticks {
      assert (s + [x])[..|s + [x]| - 1] == s;
    } else {
      var r, last := Insert(s[..|s| - 1], x), s[|s| - 1];
      InsertKeepsOrder(s[..|s| - 1], x);
      assert (r + [last])[..|r + [last]| - 1] == r;
    }
  }

  lemma {:induction false} InsertAdds(s: seq<Entry>, x: Entry)
    ensures multiset(Insert(s, x)) == multiset(s) + multiset{x}
    decreases |s|
  {
    if s != [] && s[|s| - 1].ticks > x.ticks {
      InsertAdds(s[..|s| - 1], x);
      assert s == s[..|s| - 1] + [s[|s| - 1]];
    }
  }

  /** Sorting orders by tick and neither loses nor invents an entry. */
  lemma {:induction false} SortedFacts(s: seq<Entry>)
    ensures Ascending(Sorted(s))
    ensures multiset(Sorted(s)) == multiset(s)
    decreases |s|
  {
    if s != [] {
      var front, last := s[..|s| - 1], s[|s| - 1];
      SortedFacts(front);
      InsertKeepsOrder(Sorted(front), last);
      InsertAdds(Sorted(front), last);
      hide Ascending, Insert;
      assert s == front + [last];
    }
  }

  lemma OfTidSnoc(s: seq<Entry>, x: Entry, tid: u32)
    ensures OfTid(s + [x], tid) == if x.tid == tid then OfTid(s, tid) + [x] else OfTid(s, tid)
  {
    assert (s + [x])[..|s + [x]| - 1] == s;
  }

  lemma {:induction false} OfTidConcat(a: seq<Entry>, b: seq<Entry>, tid: u32)
    ensures OfTid(a + b, tid) == OfTid(a, tid) + OfTid(b, tid)
    decreases |b|
  {
    if b == [] {
      assert a + b == a;
    } else {
      var front, last := b[..|b| - 1], b[|b| - 1];
      OfTidConcat(a, front, tid);
      assert a + b == (a + front) + [last];
      OfTidSnoc(a + front, last, tid);
    }
  }

  lemma {:induction false} OfTidMembers(s: seq<Entry>, tid: u32)
    ensures forall e :: e in OfTid(s, tid) ==> e in s && e.tid == tid
    decreases |s|
  {
    if s != [] {
      OfTidMembers(s[..|s| - 1], tid);
      assert s == s[..|s| - 1] + [s[|s| - 1]];
    }
  }

  lemma {:induction false} InsertProjects(s: seq<Entry>, x: Entry, tid: u32)
    requires Ascending(s)
    ensures OfTid(Insert(s, x), tid) == if x.tid == tid then Insert(OfTid(s, tid), x) else OfTid(s, tid)
    decreases |s|
  {
    if s == [] || s[|s| - 1].ticks <= x.ticks {
      OfTidSnoc(s, x, tid);
      OwnLast(s, tid);
    } else {
      var front, last := s[..|s| - 1], s[|s| - 1];
      InsertProjects(front, x, tid);
      OfTidSnoc(Insert(front, x), last, tid);
      InsertBefore(OfTid(front, tid), last, x);
    }
  }

  lemma InsertBefore(s: seq<Entry>, last: Entry, x: Entry)
    requires last.ticks > x.ticks
    ensures Insert(s + [last], x) == Insert(s, x) + [last]
  {
    assert (s + [last])[..|s + [last]| - 1] == s;
  }

  lemma OwnLast(s: seq<Entry>, tid: u32)
    requires Ascending(s)
    ensures OfTid(s, tid) != [] ==> OfTid(s, tid)[|OfTid(s, tid)| - 1].ticks <= s[|s| - 1].ticks
  {
    OfTidMembers(s, tid);
    AscendingPairs(s);
    var own := OfTid(s, tid);
    if own != [] {
      assert own[|own| - 1] in s;
    }
  }

  /** Sorting everything and then looking at one thread is sorting that thread. */
  lemma {:induction false} SortedProjects(s: seq<Entry>, tid: u32)
    ensures OfTid(Sorted(s), tid) == Sorted(OfTid(s, tid))
    decreases |s|
  {
    if s != [] {
      var front, last := s[..|s| - 1], s[|s| - 1];
      SortedProjects(front, tid);
      SortedFacts(front);
      InsertProjects(Sorted(front), last, tid);
      SortedSnoc(OfTid(front, tid), last);
    }
  }

  lemma SortedSnoc(s: seq<Entry>, x: Entry)
    ensures Sorted(s + [x]) == Insert(Sorted(s), x)
  {
    assert (s + [x])[..|s + [x]| - 1] == s;
  }

  /** Where `x` lands between entries at or before its tick and entries after it. */
  lemma {:induction false} InsertBetween(a: seq<Entry>, b: seq<Entry>, x: Entry)
    requires a != [] ==> a[|a| - 1].ticks <= x.ticks
    requires forall i :: 0 <= i < |b| ==> b[i].ticks > x.ticks
    ensures Insert(a + b, x) == a + [x] + b
    decreases |b|
  {
    if b == [] {
      assert a + b == a;
    } else {
      var front, last := b[..|b| - 1], b[|b| - 1];
      assert (a + b)[..|a + b| - 1] == a + front;
      InsertBetween(a, front, x);
    }
  }

  // ----- depth -----

  function Untagged(s: seq<Entry>): (marks: seq<Mark>)
    ensures |marks| == |s|
  {
    seq(|s|, i requires 0 <= i < |s| => Mark(s[i].ticks, s[i].codeKind))
  }

  predicate LateOrOpen(s: seq<Entry>) {
    forall i, j :: 0 <= j < i < |s| && !Opens(s[i].codeKind) ==> s[j].ticks <= s[i].ticks
  }

  lemma UntaggedSnoc(s: seq<Entry>, x: Entry)
    ensures Untagged(s + [x]) == Untagged(s) + [Mark(x.ticks, x.codeKind)]
  {
  }

  lemma DepthSnoc(s: seq<Entry>, x: Entry)
    ensures var d := Depth(0, Untagged(s)); var e := if Opens(x.codeKind) then d + 1 else d - 1;
            && Depth(0, Untagged(s + [x])) == e
            && (NeverNegative(0, Untagged(s + [x])) <==> NeverNegative(0, Untagged(s)) && d >= 0 && e >= 0)
  {
    UntaggedSnoc(s, x);
    var m := Mark(x.ticks, x.codeKind);
    DepthConcat(0, Untagged(s), [m]);
    assert [m][1..] == [];
  }

  /** An open moved earlier never takes a later depth below zero. */
  lemma {:induction false} InsertOpen(s: seq<Entry>, x: Entry)
    requires NeverNegative(0, Untagged(s)) && Opens(x.codeKind)
    ensures NeverNegative(0, Untagged(Insert(s, x)))
    ensures Depth(0, Untagged(Insert(s, x))) == Depth(0, Untagged(s)) + 1
    decreases |s|
  {
    if s == [] || s[|s| - 1].ticks <= x.ticks {
      DepthSnoc(s, x);
      DepthNonNegative(0, Untagged(s));
    } else {
      var front, last := s[..|s| - 1], s[|s| - 1];
      assert s == front + [last];
      DepthSnoc(front, last);
      InsertOpen(front, x);
      DepthSnoc(Insert(front, x), last);
    }
  }

  lemma {:induction false} DepthNonNegative(depth: int, marks: seq<Mark>)
    requires NeverNegative(depth, marks)
    ensures Depth(depth, marks) >= 0
    decreases |marks|
  {
    if marks != [] {
      DepthNonNegative(depth + Change(marks[0]), marks[1..]);
    }
  }

  /** If only opens move backwards, sorting keeps every prefix's depth from dropping below zero. */
  lemma {:induction false} SortedNeverNegative(s: seq<Entry>)
    requires NeverNegative(0, Untagged(s)) && LateOrOpen(s)
    ensures NeverNegative(0, Untagged(Sorted(s)))
    ensures Depth(0, Untagged(Sorted(s))) == Depth(0, Untagged(s))
    decreases |s|
  {
    if s != [] {
      var front, last := s[..|s| - 1], s[|s| - 1];
      assert s == front + [last];
      DepthSnoc(front, last);
      SortedNeverNegative(front);
      if Opens(last.codeKind) {
        InsertOpen(Sorted(front), last);
      } else {
        SortedFacts(front);
        var t := Sorted(front);
        if t != [] {
          assert t[|t| - 1] in multiset(t);
          assert t[|t| - 1] in front;
        }
        DepthSnoc(t, last);
      }
    }
  }
}

/** `assemble`: deduplicate tails, replay each thread, sort, and describe the events by time. */
module Assemble {
  import opened Words
  import opened Events
  import opened Batches
  import opened Replay
  import opened StableSort

  predicate SameBatch(a: Batch, b: Batch) {
    a.tid == b.tid && a.base == b.base
  }

  /** The tails that no history batch already holds. */
  function Fresh(history: seq<Batch>, tails: seq<Batch>): seq<Batch> {
    if tails == [] then []
    else if exists h :: h in history && SameBatch(h, tails[|tails| - 1]) then Fresh(history, tails[..|tails| - 1])
    else Fresh(history, tails[..|tails| - 1]) + [tails[|tails| - 1]]
  }

  /** Everything captured of one thread, in the order its batches arrived. */
  function StreamOf(all: seq<Batch>, tid: u32): seq<Mark> {
    if all == [] then []
    else if all[|all| - 1].tid == tid then StreamOf(all[..|all| - 1], tid) + all[|all| - 1].Marks()
    else StreamOf(all[..|all| - 1], tid)
  }

  datatype Stream = Stream(tid: u32, marks: seq<Mark>)

  /** Each thread's stream, once, by first appearance. */
  ghost predicate StreamsOf(streams: seq<Stream>, all: seq<Batch>) {
    && (forall i, j :: 0 <= i < j < |streams| ==> streams[i].tid != streams[j].tid)
    && (forall i :: 0 <= i < |streams| ==> streams[i].marks == StreamOf(all, streams[i].tid))
    && (forall b :: b in all ==> exists i :: 0 <= i < |streams| && streams[i].tid == b.tid)
  }

  ghost predicate EmissionsOf(out: seq<Entry>, streams: seq<Stream>, horizon: nat, start: nat, end: nat) {
    forall tid: u32 :: OfTid(out, tid) == OwnEmission(streams, tid, horizon, start, end)
  }

  function OwnEmission(streams: seq<Stream>, tid: u32, horizon: nat, start: nat, end: nat): seq<Entry> {
    if streams == [] then []
    else if streams[|streams| - 1].tid == tid
      then OwnEmission(streams[..|streams| - 1], tid, horizon, start, end)
           + Tagged(tid, Emitted(horizon, start, end, streams[|streams| - 1].marks))
    else OwnEmission(streams[..|streams| - 1], tid, horizon, start, end)
  }

  method Find(streams: seq<Stream>, tid: u32) returns (i: nat)
    ensures i <= |streams|
    ensures i < |streams| ==> streams[i].tid == tid
    ensures forall k :: 0 <= k < i ==> streams[k].tid != tid
  {
    i := 0;
    while i < |streams| && streams[i].tid != tid
      invariant i <= |streams|
      invariant forall k :: 0 <= k < i ==> streams[k].tid != tid
    {
      i := i + 1;
    }
  }

  lemma StreamOfSnoc(all: seq<Batch>, b: Batch, tid: u32)
    ensures StreamOf(all + [b], tid) == if b.tid == tid then StreamOf(all, tid) + b.Marks() else StreamOf(all, tid)
  {
    assert (all + [b])[..|all + [b]| - 1] == all;
  }

  lemma {:induction false} NoBatchNoStream(all: seq<Batch>, tid: u32)
    requires forall b :: b in all ==> b.tid != tid
    ensures StreamOf(all, tid) == []
    decreases |all|
  {
    if all != [] {
      assert all[|all| - 1] in all;
      NoBatchNoStream(all[..|all| - 1], tid);
    }
  }

  lemma {:induction false} FreshFacts(history: seq<Batch>, tails: seq<Batch>)
    ensures forall t :: t in Fresh(history, tails) <==> t in tails && !exists h :: h in history && SameBatch(h, t)
    decreases |tails|
  {
    if tails != [] {
      FreshFacts(history, tails[..|tails| - 1]);
      assert tails == tails[..|tails| - 1] + [tails[|tails| - 1]];
    }
  }

  lemma GrowStreams(streams: seq<Stream>, all: seq<Batch>, b: Batch, i: nat, grown: seq<Stream>)
    requires StreamsOf(streams, all)
    requires i <= |streams| && (i < |streams| ==> streams[i].tid == b.tid)
    requires forall k :: 0 <= k < i ==> streams[k].tid != b.tid
    requires grown == if i < |streams| then streams[i := Stream(b.tid, streams[i].marks + b.Marks())]
                      else streams + [Stream(b.tid, b.Marks())]
    ensures StreamsOf(grown, all + [b])
  {
    forall k | 0 <= k < |grown| ensures grown[k].marks == StreamOf(all + [b], grown[k].tid) {
      StreamOfSnoc(all, b, grown[k].tid);
      if i == |streams| {
        NoBatchNoStream(all, b.tid);
      }
    }
    forall c | c in all + [b] ensures exists k :: 0 <= k < |grown| && grown[k].tid == c.tid {
      if c == b {
        assert grown[i].tid == b.tid;
      } else {
        var k :| 0 <= k < |streams| && streams[k].tid == c.tid;
        assert grown[k].tid == c.tid;
      }
    }
  }

  method Collect(all: seq<Batch>) returns (streams: seq<Stream>)
    ensures StreamsOf(streams, all)
  {
    streams := [];
    for n := 0 to |all|
      invariant StreamsOf(streams, all[..n])
    {
      var b := all[n];
      var i := Find(streams, b.tid);
      ghost var was := streams;
      if i < |streams| {
        streams := streams[i := Stream(b.tid, streams[i].marks + b.Marks())];
      } else {
        streams := streams + [Stream(b.tid, b.Marks())];
      }
      GrowStreams(was, all[..n], b, i, streams);
      assert all[..n + 1] == all[..n] + [b];
    }
    assert all[..|all|] == all;
  }

  lemma {:induction false} OfTidOfTagged(tid: u32, marks: seq<Mark>, other: u32)
    ensures OfTid(Tagged(tid, marks), other) == if tid == other then Tagged(tid, marks) else []
    decreases |marks|
  {
    if marks != [] {
      var front, last := marks[..|marks| - 1], marks[|marks| - 1];
      assert marks == front + [last];
      TaggedConcat(tid, front, [last]);
      assert Tagged(tid, marks) == Tagged(tid, front) + [Entry(last.ticks, tid, last.codeKind)];
      OfTidSnoc(Tagged(tid, front), Entry(last.ticks, tid, last.codeKind), other);
      OfTidOfTagged(tid, front, other);
    }
  }

  method ReplayAll(streams: seq<Stream>, horizon: nat, start: nat, end: nat) returns (out: seq<Entry>)
    ensures EmissionsOf(out, streams, horizon, start, end)
  {
    out := [];
    for n := 0 to |streams|
      invariant EmissionsOf(out, streams[..n], horizon, start, end)
    {
      var s := streams[n];
      ghost var was, own := out, Tagged(s.tid, Emitted(horizon, start, end, s.marks));
      out := Replay.Run(s.tid, s.marks, horizon, start, end, out);
      forall tid: u32 ensures OfTid(out, tid) == OwnEmission(streams[..n + 1], tid, horizon, start, end) {
        OfTidConcat(was, own, tid);
        OfTidOfTagged(s.tid, Emitted(horizon, start, end, s.marks), tid);
        assert streams[..n + 1][..n] == streams[..n];
        assert OfTid(was, tid) == OwnEmission(streams[..n], tid, horizon, start, end);
      }
    }
    assert streams[..|streams|] == streams;
  }

  lemma {:induction false} OwnEmissionIs(streams: seq<Stream>, tid: u32, horizon: nat, start: nat, end: nat, all: seq<Batch>)
    requires forall i, j :: 0 <= i < j < |streams| ==> streams[i].tid != streams[j].tid
    requires forall i :: 0 <= i < |streams| ==> streams[i].marks == StreamOf(all, streams[i].tid)
    ensures OwnEmission(streams, tid, horizon, start, end)
         == if exists i :: 0 <= i < |streams| && streams[i].tid == tid
            then Tagged(tid, Emitted(horizon, start, end, StreamOf(all, tid))) else []
    decreases |streams|
  {
    if streams != [] {
      var front, last := streams[..|streams| - 1], streams[|streams| - 1];
      OwnEmissionIs(front, tid, horizon, start, end, all);
      assert forall i :: 0 <= i < |front| ==> front[i] == streams[i];
      if last.tid == tid {
        assert streams[|streams| - 1].tid == tid;
        assert !exists i :: 0 <= i < |front| && front[i].tid == tid;
      } else if exists i :: 0 <= i < |streams| && streams[i].tid == tid {
        var i :| 0 <= i < |streams| && streams[i].tid == tid;
        assert front[i].tid == tid;
      }
    }
  }

  /** One thread's share of the unsorted output, whatever the other threads did. */
  lemma ShareOfThread(streams: seq<Stream>, all: seq<Batch>, tid: u32, horizon: nat, start: nat, end: nat)
    requires StreamsOf(streams, all)
    ensures OwnEmission(streams, tid, horizon, start, end) == Tagged(tid, Emitted(horizon, start, end, StreamOf(all, tid)))
  {
    OwnEmissionIs(streams, tid, horizon, start, end, all);
    if !exists i :: 0 <= i < |streams| && streams[i].tid == tid {
      NoBatchNoStream(all, tid);
    }
  }

  /** What a dump shows of an entry: its time, and its kind and code repacked. */
  function Describe(ns: nat -> u64, e: Entry): Event {
    Event(ns(e.ticks), e.tid, PackCodeKind(CodeOf(e.codeKind), KindOf(e.codeKind)))
  }

  function Described(ns: nat -> u64, s: seq<Entry>): seq<Event> {
    seq(|s|, i requires 0 <= i < |s| => Describe(ns, s[i]))
  }

  method DescribeAll(ns: nat -> u64, s: seq<Entry>) returns (events: seq<Event>)
    ensures events == Described(ns, s)
  {
    events := [];
    for n := 0 to |s|
      invariant events == Described(ns, s[..n])
    {
      events := events + [Describe(ns, s[n])];
    }
    assert s[..|s|] == s;
  }

  /** In tick order, and for every thread the stable sort of what `replay` emits for its whole capture. */
  ghost predicate DumpOf(sorted: seq<Entry>, all: seq<Batch>, horizon: nat, start: nat, end: nat) {
    && Ascending(sorted)
    && forall tid: u32 :: OfTid(sorted, tid) == Sorted(Tagged(tid, Emitted(horizon, start, end, StreamOf(all, tid))))
  }

  lemma SortGivesDump(streams: seq<Stream>, all: seq<Batch>, out: seq<Entry>, horizon: nat, start: nat, end: nat)
    requires StreamsOf(streams, all) && EmissionsOf(out, streams, horizon, start, end)
    ensures DumpOf(Sorted(out), all, horizon, start, end)
  {
    SortedFacts(out);
    forall tid: u32 ensures OfTid(Sorted(out), tid) == Sorted(Tagged(tid, Emitted(horizon, start, end, StreamOf(all, tid)))) {
      SortedProjects(out, tid);
      ShareOfThread(streams, all, tid, horizon, start, end);
    }
  }

  /** An entry as a reader of the dump finds it: its thread, code and kind, and its tick in nanoseconds. */
  predicate Tells(ns: nat -> u64, e: Entry, x: Event) {
    && x.tsNs == ns(e.ticks) && x.tid == e.tid
    && CodeOf(x.codeKind) == CodeOf(e.codeKind)
    && 1 <= x.codeKind / CODE_SPAN <= 6 && KindOf(x.codeKind) == KindOf(e.codeKind)
  }

  predicate TellsAll(ns: nat -> u64, s: seq<Entry>, events: seq<Event>) {
    |events| == |s| && forall i :: 0 <= i < |s| ==> Tells(ns, s[i], events[i])
  }

  lemma DescribedTells(ns: nat -> u64, s: seq<Entry>)
    ensures TellsAll(ns, s, Described(ns, s))
  {
    forall i | 0 <= i < |s| ensures Tells(ns, s[i], Described(ns, s)[i]) {
      var e := s[i];
      PackingKeepsKindAndId(CodeOf(e.codeKind), KindOf(e.codeKind));
      KindIsPacked(CodeOf(e.codeKind), KindOf(e.codeKind));
      assert Described(ns, s)[i] == Describe(ns, e);
    }
  }

  lemma KindIsPacked(codeId: u32, kind: EventKind)
    ensures 1 <= PackCodeKind(codeId, kind) / CODE_SPAN <= 6
  {
    assert PackCodeKind(codeId, kind) / CODE_SPAN == kind.Number();
  }

  /** What is written for a capture: a list that is its dump, told event by event. */
  ghost predicate Told(events: seq<Event>, all: seq<Batch>, ns: nat -> u64, horizon: nat, start: nat, end: nat) {
    exists sorted :: DumpOf(sorted, all, horizon, start, end) && TellsAll(ns, sorted, events)
  }

  /** The dump: in tick order every thread's emission, each entry told with its thread, code, kind and time. */
  method Run(history: seq<Batch>, tails: seq<Batch>, ns: nat -> u64, horizon: nat, start: nat, end: nat) returns (events: seq<Event>)
    ensures Told(events, history + Fresh(history, tails), ns, horizon, start, end)
  {
    var all := history + Fresh(history, tails);
    var streams := Collect(all);
    var out := ReplayAll(streams, horizon, start, end);
    SortGivesDump(streams, all, out, horizon, start, end);
    var sorted := Sorted(out);
    events := DescribeAll(ns, sorted);
    DescribedTells(ns, sorted);
  }
}
