/** The self-time fold: events in, nanoseconds per stack out, and what those nanoseconds mean. */
module SelfTime {
  import opened Words
  import opened Events
  import opened Batches
  import Stacks

  type Stack = seq<u32>

  datatype Fold = Fold(stack: Stack, last: u64)

  datatype State = State(folds: map<u32, Fold>, selfNs: map<Stack, nat>)

  const EMPTY := State(map[], map[])

  /** `a.saturating_sub(b)` on u64. */
  function Elapsed(a: u64, b: u64): nat {
    if b <= a then a - b else 0
  }

  function Apply(stack: Stack, codeKind: u32): Stack {
    if Opens(codeKind) then stack + [CodeOf(codeKind)]
    else if stack == [] then []
    else stack[..|stack| - 1]
  }

  function Charge(selfNs: map<Stack, nat>, stack: Stack, elapsed: nat): map<Stack, nat> {
    if elapsed == 0 || stack == [] then selfNs
    else selfNs[stack := (if stack in selfNs then selfNs[stack] else 0) + elapsed]
  }

  function FoldOf(s: State, e: Event): Fold {
    if e.tid in s.folds then s.folds[e.tid] else Fold([], e.tsNs)
  }

  function Step(s: State, e: Event): State {
    var fold := FoldOf(s, e);
    State(s.folds[e.tid := Fold(Apply(fold.stack, e.codeKind), e.tsNs)],
          Charge(s.selfNs, fold.stack, Elapsed(e.tsNs, fold.last)))
  }

  function Run(s: State, events: seq<Event>): State {
    if events == [] then s else Step(Run(s, events[..|events| - 1]), events[|events| - 1])
  }

  // ----- what the recorded time means -----

  /** One thread's events, in order. */
  function OfThread(events: seq<Event>, tid: u32): seq<Event> {
    if events == [] then []
    else
      var front, last := OfThread(events[..|events| - 1], tid), events[|events| - 1];
      if last.tid == tid then front + [last] else front
  }

  function Marked(events: seq<Event>): (marks: seq<Mark>)
    ensures |marks| == |events|
  {
    seq(|events|, i requires 0 <= i < |events| => Mark(events[i].tsNs, events[i].codeKind))
  }

  /** The codes of the frames one thread's events leave open, outermost first. */
  function OpenCalls(events: seq<Event>): (codes: seq<nat>) {
    Stacks.Codes(Stacks.Replayed([], Marked(events)))
  }

  /** The calls entered and not returned from: the opens that nothing after them closes, in order, by their codes. */
  lemma OpenCallsAreNeverLeft(events: seq<Event>) returns (at: seq<nat>)
    ensures |at| == |OpenCalls(events)|
    ensures forall k :: 0 <= k < |at| ==> at[k] < |events| && OpenCalls(events)[k] == CodeOf(events[at[k]].codeKind)
    ensures forall j, k :: 0 <= j < k < |at| ==> at[j] < at[k]
    ensures forall i: nat :: i < |events| ==> (i in at <==> Stacks.StillOpen(Marked(events), i))
  {
    at := Stacks.OpenFramesAreNeverLeft(Marked(events));
    hide Stacks.OpenAt, Stacks.Replayed, Stacks.StillOpen;
    forall k | 0 <= k < |at| ensures OpenCalls(events)[k] == CodeOf(events[at[k]].codeKind) {
      assert Stacks.Replayed([], Marked(events))[k] == Marked(events)[at[k]];
    }
  }

  /** The time between one thread's consecutive events, if it went forward, during which the stack is the given one. */
  function Gaps(events: seq<Event>, stack: Stack): nat {
    if |events| < 2 then 0
    else
      var front := events[..|events| - 1];
      var was, now := front[|front| - 1].tsNs, events[|events| - 1].tsNs;
      Gaps(front, stack) + if OpenCalls(front) == stack && was < now then now - was else 0
  }

  /** Over all threads with ids below `n`. */
  function GapsBelow(n: nat, events: seq<Event>, stack: Stack): nat
    requires n <= U32_SPAN
  {
    if n == 0 then 0 else GapsBelow(n - 1, events, stack) + Gaps(OfThread(events, n - 1), stack)
  }

  function Total(events: seq<Event>, stack: Stack): nat {
    GapsBelow(U32_SPAN, events, stack)
  }

  function Recorded(s: State, stack: Stack): nat {
    if stack in s.selfNs then s.selfNs[stack] else 0
  }

  // ----- the fold computes it -----

  /** The fold keeps, of each thread seen, the codes of its open frames and the time of its last event. */
  predicate Follows(s: State, events: seq<Event>) {
    forall tid: u32 ::
      var own := OfThread(events, tid);
      && (tid in s.folds <==> own != [])
      && (own != [] ==> s.folds[tid].stack == OpenCalls(own) && s.folds[tid].last == own[|own| - 1].tsNs)
  }

  /** What one more event adds to the total for a stack. */
  function Share(events: seq<Event>, e: Event, stack: Stack): nat {
    var own := OfThread(events, e.tid);
    if own != [] && OpenCalls(own) == stack && own[|own| - 1].tsNs < e.tsNs then e.tsNs - own[|own| - 1].tsNs else 0
  }

  lemma {:induction false} GapsGrow(n: nat, events: seq<Event>, e: Event, stack: Stack)
    requires n <= U32_SPAN
    ensures GapsBelow(n, events + [e], stack) == GapsBelow(n, events, stack) + if e.tid < n then Share(events, e, stack) else 0
    decreases n
  {
    if n > 0 {
      GapsGrow(n - 1, events, e, stack);
      assert (events + [e])[..|events|] == events;
      if e.tid == n - 1 {
        var own := OfThread(events, e.tid);
        assert (own + [e])[..|own|] == own;
      }
    }
  }

  lemma FollowsStep(s: State, events: seq<Event>, e: Event)
    requires Follows(s, events)
    ensures Follows(Step(s, e), events + [e])
  {
    var all, u := events + [e], Step(s, e);
    assert all[..|events|] == events;
    hide OpenCalls, Charge, Apply;
    forall tid: u32
      ensures tid in u.folds <==> OfThread(all, tid) != []
      ensures var own := OfThread(all, tid); own != [] ==> u.folds[tid].stack == OpenCalls(own) && u.folds[tid].last == own[|own| - 1].tsNs
    {
      if tid == e.tid {
        OpenCallsGrow(OfThread(events, tid), FoldOf(s, e).stack, e);
      }
    }
  }

  /** The fold pushes and pops the code that one more event opens or closes. */
  lemma OpenCallsGrow(events: seq<Event>, stack: Stack, e: Event)
    requires stack == OpenCalls(events)
    ensures Apply(stack, e.codeKind) == OpenCalls(events + [e])
    ensures OpenCalls([]) == []
  {
    var was, m := Stacks.Replayed([], Marked(events)), Mark(e.tsNs, e.codeKind);
    assert Marked(events + [e]) == Marked(events) + [m];
    Stacks.ReplayedConcat([], Marked(events), [m]);
    assert [m][1..] == [];
    assert Stacks.Replayed([], Marked(events) + [m]) == Stacks.Apply(was, m);
    hide Stacks.Replayed;
    assert Stacks.Codes(was + [m]) == Stacks.Codes(was) + [CodeOf(m.codeKind)];
    assert was != [] ==> Stacks.Codes(was[..|was| - 1]) == Stacks.Codes(was)[..|was| - 1];
  }

  /**
   The fold refines its definition: the time recorded for a stack is, over all threads, the time between consecutive
   events of the thread during which the frames left open have that stack's codes; where the stamps step back it is
   none. A stack is recorded just when that is positive, and the empty stack never is.
   */
  lemma {:induction false} RecordedIsTotal(events: seq<Event>, stack: Stack)
    ensures Follows(Run(EMPTY, events), events)
    ensures stack != [] ==> Recorded(Run(EMPTY, events), stack) == Total(events, stack)
    ensures stack in Run(EMPTY, events).selfNs <==> stack != [] && Total(events, stack) > 0
    decreases |events|
  {
    if events == [] {
      hide GapsBelow;
      NoGaps(U32_SPAN, stack);
    } else {
      hide Follows, Step, Share, Recorded, GapsBelow;
      var front, e := events[..|events| - 1], events[|events| - 1];
      assert front + [e] == events;
      RecordedIsTotal(front, stack);
      FollowsStep(Run(EMPTY, front), front, e);
      GapsGrow(U32_SPAN, front, e, stack);
      ChargedShare(Run(EMPTY, front), front, e, stack);
    }
  }

  lemma {:induction false} NoGaps(n: nat, stack: Stack)
    requires n <= U32_SPAN
    ensures GapsBelow(n, [], stack) == 0
  {
    if n > 0 {
      NoGaps(n - 1, stack);
    }
  }

  lemma ChargedShare(s: State, events: seq<Event>, e: Event, stack: Stack)
    requires Follows(s, events)
    ensures stack != [] ==> Recorded(Step(s, e), stack) == Recorded(s, stack) + Share(events, e, stack)
    ensures stack in Step(s, e).selfNs <==> stack in s.selfNs || (stack != [] && Share(events, e, stack) > 0)
  {
    hide OfThread, OpenCalls;
    var own := OfThread(events, e.tid);
    assert e.tid in s.folds <==> own != [];
  }

  // ----- what it does not depend on -----

  /** Batch boundaries: two batches in a row are one. */
  lemma {:induction false} BatchesDoNotMatter(s: State, a: seq<Event>, b: seq<Event>)
    ensures Run(Run(s, a), b) == Run(s, a + b)
    decreases |b|
  {
    if b == [] {
      assert a + b == a;
    } else {
      assert (a + b)[..|a + b| - 1] == a + b[..|b| - 1];
      BatchesDoNotMatter(s, a, b[..|b| - 1]);
    }
  }

  lemma {:induction false} SameGaps(n: nat, a: seq<Event>, b: seq<Event>, stack: Stack)
    requires n <= U32_SPAN && forall tid: u32 :: OfThread(a, tid) == OfThread(b, tid)
    ensures GapsBelow(n, a, stack) == GapsBelow(n, b, stack)
    decreases n
  {
    if n > 0 {
      SameGaps(n - 1, a, b, stack);
    }
  }

  /** Interleaving: only each thread's own order counts. */
  lemma InterleavingDoesNotMatter(a: seq<Event>, b: seq<Event>)
    requires forall tid: u32 :: OfThread(a, tid) == OfThread(b, tid)
    ensures Run(EMPTY, a).selfNs == Run(EMPTY, b).selfNs
  {
    forall stack: Stack
      ensures stack in Run(EMPTY, a).selfNs <==> stack in Run(EMPTY, b).selfNs
      ensures Recorded(Run(EMPTY, a), stack) == Recorded(Run(EMPTY, b), stack)
    {
      RecordedIsTotal(a, stack);
      RecordedIsTotal(b, stack);
      SameGaps(U32_SPAN, a, b, stack);
    }
    var x, y := Run(EMPTY, a).selfNs, Run(EMPTY, b).selfNs;
    forall stack: Stack | stack in x ensures stack in y && x[stack] == y[stack] {
      assert Recorded(Run(EMPTY, a), stack) == Recorded(Run(EMPTY, b), stack);
    }
    assert forall stack: Stack :: stack in y ==> stack in x;
  }
}

/** The profile: interned strings, and tables that every reference resolves in. */
module Pprof {
  import opened Words
  import opened Events
  import opened Sink
  import opened SelfTime
  import JsonText

  type Name = seq<byte>

  class Strings {
    var table: seq<Name>
    var index: map<Name, nat>

    /** The index finds every entry of the table, and no text is entered twice. */
    ghost predicate Valid()
      reads this
    {
      && (forall t :: t in index ==> index[t] < |table| && table[index[t]] == t)
      && (forall i :: 0 <= i < |table| ==> table[i] in index && index[table[i]] == i)
    }

    constructor WithEmptyHead()
      ensures Valid() && table == [[]]
    {
      table, index := [[]], map[[] := 0];
    }

    method Id(text: Name) returns (i: nat)
      requires Valid()
      modifies this
      ensures Valid() && i < |table| && table[i] == text
      ensures old(table) <= table
      ensures table == if text in old(table) then old(table) else old(table) + [text]
    {
      if text in index {
        return index[text];
      }
      i := |table|;
      table := table + [text];
      index := index[text := i];
    }
  }

  datatype Function = Function(id: nat, name: nat, systemName: nat, filename: nat, startLine: nat)
  datatype Location = Location(id: nat, functionId: nat, line: nat)
  datatype Sample = Sample(locations: seq<nat>, value: nat)

  datatype Profile = Profile(
    kind: nat, unit: nat, functions: seq<Function>, locations: seq<Location>, samples: seq<Sample>,
    comments: seq<nat>, table: seq<Name>)

  function LocationId(code: u32): nat {
    code + 1
  }

  /** Leaf first. */
  function LeafFirst(stack: Stack): (ids: seq<nat>)
    ensures |ids| == |stack|
  {
    seq(|stack|, i requires 0 <= i < |stack| => LocationId(stack[|stack| - 1 - i]))
  }

  // ----- what a finished profile promises -----

  /** A code's function and location, with every string where its index says. */
  predicate Describes(f: Function, l: Location, code: u32, codes: Codes, table: seq<Name>) {
    var info := InfoOf(codes, code);
    && f.id == LocationId(code) && l == Location(f.id, f.id, info.line) && f.startLine == info.line
    && f.name < |table| && table[f.name] == NameOf(info) && f.systemName == f.name
    && f.filename < |table| && table[f.filename] == info.filename
  }

  predicate Rows(functions: seq<Function>, locations: seq<Location>, order: seq<u32>, codes: Codes, table: seq<Name>) {
    && |functions| == |locations| == |order|
    && (forall i :: 0 <= i < |order| ==> Describes(functions[i], locations[i], order[i], codes, table))
  }

  predicate Distinct(order: seq<u32>) {
    forall i, j :: 0 <= i < j < |order| ==> order[i] != order[j]
  }

  /** The tables hold the codes of `order`, one after the other, each once. */
  predicate Tabled(functions: seq<Function>, locations: seq<Location>, order: seq<u32>, codes: Codes, table: seq<Name>) {
    Rows(functions, locations, order, codes, table) && Distinct(order)
  }

  /** Strings added later disturb nothing. */
  lemma RowsStay(functions: seq<Function>, locations: seq<Location>, order: seq<u32>, codes: Codes, table: seq<Name>, more: seq<Name>)
    requires Rows(functions, locations, order, codes, table) && table <= more
    ensures Rows(functions, locations, order, codes, more)
  {
    hide InfoOf, NameOf, LocationId;
    forall i | 0 <= i < |order| ensures Describes(functions[i], locations[i], order[i], codes, more) {
      assert Describes(functions[i], locations[i], order[i], codes, table);
    }
  }

  lemma OneMoreRow(functions: seq<Function>, locations: seq<Location>, order: seq<u32>, codes: Codes, table: seq<Name>,
                   f: Function, l: Location, code: u32)
    requires Rows(functions, locations, order, codes, table) && Describes(f, l, code, codes, table)
    ensures Rows(functions + [f], locations + [l], order + [code], codes, table)
  {
    hide Describes;
  }

  /** Samples for the stacks of `order`, one after the other. */
  ghost predicate Sampled(samples: seq<Sample>, order: seq<Stack>, selfNs: map<Stack, nat>) {
    && |samples| == |order| && (forall s :: s in order <==> s in selfNs)
    && (forall i :: 0 <= i < |order| ==> order[i] in selfNs && samples[i] == Sample(LeafFirst(order[i]), selfNs[order[i]]))
    && (forall i, j :: 0 <= i < j < |order| ==> order[i] != order[j])
  }

  ghost predicate Uses(selfNs: map<Stack, nat>, code: u32) {
    exists s :: s in selfNs && code in s
  }

  /** A location id, which is never zero, resolves to this code: exactly one location has it, and exactly one function. */
  ghost predicate Resolves(p: Profile, id: nat, code: u32, codes: Codes) {
    id > 0 && exists k: nat ::
      && k < |p.functions| == |p.locations| && p.locations[k].id == id
      && Describes(p.functions[k], p.locations[k], code, codes, p.table)
      && forall j :: 0 <= j < |p.locations| && j != k ==> p.locations[j].id != id && p.functions[j].id != p.locations[k].functionId
  }

  /** Every frame of every sample resolves to the code it came from, and to no other. */
  lemma ReferencesResolve(p: Profile, stacks: seq<Stack>, order: seq<u32>, selfNs: map<Stack, nat>, codes: Codes, i: nat, j: nat)
    requires Sampled(p.samples, stacks, selfNs) && Tabled(p.functions, p.locations, order, codes, p.table)
    requires forall c: u32 :: c in order <==> Uses(selfNs, c)
    requires i < |stacks| && j < |stacks[i]|
    ensures p.samples[i].locations[|stacks[i]| - 1 - j] == LocationId(stacks[i][j])
    ensures Resolves(p, LocationId(stacks[i][j]), stacks[i][j], codes)
  {
    var code := stacks[i][j];
    assert stacks[i] in selfNs && code in stacks[i];
    assert Uses(selfNs, code);
    var k :| 0 <= k < |order| && order[k] == code;
    forall n | 0 <= n < |p.locations| && n != k
      ensures p.locations[n].id != LocationId(code) && p.functions[n].id != p.locations[k].functionId
    {
      assert order[n] != order[k];
      assert Describes(p.functions[n], p.locations[n], order[n], codes, p.table);
    }
  }

  class Exporter {
    var folds: map<u32, Fold>
    var selfNs: map<Stack, nat>

    function Now(): State
      reads this
    {
      State(folds, selfNs)
    }

    constructor ()
      ensures Now() == EMPTY
    {
      folds, selfNs := map[], map[];
    }

    /** `write_batch`: one event at a time. */
    method WriteBatch(events: seq<Event>)
      modifies this
      ensures Now() == Run(old(Now()), events)
    {
      hide Step;
      var i := 0;
      while i < |events|
        invariant i <= |events| && Now() == Run(old(Now()), events[..i])
      {
        assert events[..i + 1][..i] == events[..i];
        Add(events[i]);
        i := i + 1;
      }
      assert events[..|events|] == events;
    }

    method Add(e: Event)
      modifies this
      ensures Now() == Step(old(Now()), e)
    {
      hide Opens, CodeOf, Elapsed;
      var fold := if e.tid in folds then folds[e.tid] else Fold([], e.tsNs);
      var elapsed := Elapsed(e.tsNs, fold.last);
      if elapsed > 0 && fold.stack != [] {
        if fold.stack in selfNs {
          selfNs := selfNs[fold.stack := selfNs[fold.stack] + elapsed];
        } else {
          selfNs := selfNs[fold.stack := elapsed];
        }
      }
      var stack := fold.stack;
      if Opens(e.codeKind) {
        stack := stack + [CodeOf(e.codeKind)];
      } else if stack != [] {
        stack := stack[..|stack| - 1];
      }
      folds := folds[e.tid := Fold(stack, e.tsNs)];
    }

    /** The codes of all stacks, each once. */
    method Used() returns (order: seq<u32>)
      ensures forall c: u32 :: c in order <==> Uses(selfNs, c)
      ensures Distinct(order)
    {
      order := [];
      var keys := selfNs.Keys;
      while keys != {}
        invariant keys <= selfNs.Keys
        invariant forall c: u32 :: c in order <==> exists s :: s in selfNs && s !in keys && c in s
        invariant Distinct(order)
        decreases keys
      {
        var stack :| stack in keys;
        order := Including(order, stack);
        keys := keys - {stack};
      }
    }

    /** `finish`: the profile, and an empty fold of times. */
    method Finish(codes: Codes, dropped: nat) returns (p: Profile, ghost stacks: seq<Stack>, ghost order: seq<u32>)
      modifies this`selfNs
      ensures selfNs == map[]
      ensures |p.table| > 0 && p.table[0] == []
      ensures p.kind < |p.table| && p.table[p.kind] == Ascii("wall")
      ensures p.unit < |p.table| && p.table[p.unit] == Ascii("nanoseconds")
      ensures Sampled(p.samples, stacks, old(selfNs)) && Tabled(p.functions, p.locations, order, codes, p.table)
      ensures forall c: u32 :: c in order <==> Uses(old(selfNs), c)
      ensures dropped == 0 ==> p.comments == []
      ensures dropped > 0 ==>
                && |p.comments| == 1 && p.comments[0] < |p.table|
                && p.table[p.comments[0]] == Ascii("trace0: ") + JsonText.Digits(dropped) + Ascii(" events dropped")
    {
      hide Ascii, JsonText.Digits, Sampled, Rows, Distinct, Uses;
      var strings := new Strings.WithEmptyHead();
      var kind := strings.Id(Ascii("wall"));
      var unit := strings.Id(Ascii("nanoseconds"));
      var used := Used();
      order := used;
      var functions, locations := Describe(strings, used, codes);
      ghost var table := strings.table;
      var samples;
      samples, stacks := Drain();
      var comments := [];
      if dropped > 0 {
        var note := strings.Id(Ascii("trace0: ") + JsonText.Digits(dropped) + Ascii(" events dropped"));
        comments := [note];
      }
      RowsStay(functions, locations, used, codes, table, strings.table);
      p := Profile(kind, unit, functions, locations, samples, comments, strings.table);
    }

    method Row(strings: Strings, code: u32, codes: Codes) returns (f: Function, l: Location)
      requires strings.Valid()
      modifies strings
      ensures strings.Valid() && old(strings.table) <= strings.table
      ensures Describes(f, l, code, codes, strings.table)
    {
      hide InfoOf, NameOf, LocationId;
      var info := InfoOf(codes, code);
      var name := strings.Id(NameOf(info));
      var filename := strings.Id(info.filename);
      var id := LocationId(code);
      f, l := Function(id, name, name, filename, info.line), Location(id, id, info.line);
    }

    method Describe(strings: Strings, used: seq<u32>, codes: Codes) returns (functions: seq<Function>, locations: seq<Location>)
      requires strings.Valid() && Distinct(used)
      modifies strings
      ensures strings.Valid() && old(strings.table) <= strings.table
      ensures Tabled(functions, locations, used, codes, strings.table)
    {
      functions, locations := [], [];
      var i := 0;
      while i < |used|
        invariant i <= |used| && strings.Valid() && old(strings.table) <= strings.table
        invariant Rows(functions, locations, used[..i], codes, strings.table)
      {
        hide Describes, Rows;
        ghost var before := strings.table;
        var f, l := Row(strings, used[i], codes);
        RowsStay(functions, locations, used[..i], codes, before, strings.table);
        OneMoreRow(functions, locations, used[..i], codes, strings.table, f, l, used[i]);
        assert used[..i + 1] == used[..i] + [used[i]];
        functions, locations := functions + [f], locations + [l];
        i := i + 1;
      }
      assert used[..|used|] == used;
    }

    method Drain() returns (samples: seq<Sample>, ghost stacks: seq<Stack>)
      modifies this`selfNs
      ensures selfNs == map[] && Sampled(samples, stacks, old(selfNs))
    {
      samples, stacks := [], [];
      var keys := selfNs.Keys;
      while keys != {}
        invariant keys <= selfNs.Keys && selfNs == old(selfNs) && |samples| == |stacks|
        invariant forall s :: s in stacks <==> s in selfNs && s !in keys
        invariant forall i :: 0 <= i < |stacks| ==> stacks[i] in selfNs && samples[i] == Sample(LeafFirst(stacks[i]), selfNs[stacks[i]])
        invariant forall i, j :: 0 <= i < j < |stacks| ==> stacks[i] != stacks[j]
        decreases keys
      {
        var stack :| stack in keys;
        samples := samples + [Sample(LeafFirst(stack), selfNs[stack])];
        stacks := stacks + [stack];
        keys := keys - {stack};
      }
      selfNs := map[];
    }
  }

  /** The codes of a stack that are not there yet, appended. */
  method Including(order: seq<u32>, stack: Stack) returns (more: seq<u32>)
    requires Distinct(order)
    ensures forall c: u32 :: c in more <==> c in order || c in stack
    ensures Distinct(more)
  {
    more := order;
    var i := 0;
    while i < |stack|
      invariant i <= |stack|
      invariant forall c: u32 :: c in more <==> c in order || c in stack[..i]
      invariant Distinct(more)
    {
      if stack[i] !in more {
        more := more + [stack[i]];
      }
      i := i + 1;
    }
  }
}
