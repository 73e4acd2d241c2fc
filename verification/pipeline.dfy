/**
 The streaming pipeline: a serializer thread fans the producers' rings into one bounded ring, and the writer
 hands what comes out of it to the exporter. Every step of either thread, and of the environment, is one action.
 */
module Pipeline {
  import opened Words
  import opened Batches
  import opened Queue
  import Draining
  import History

  const FANIN_BATCHES: nat := 256

  datatype Serializer =
    | Top
    | Room(slots: nat)
    | Checking
    | Pushing(batches: seq<Item>)
    | Failed
    | Done

  datatype Writer = Popping | Empty | LastPops | Finished

  /** `ring` is the writer's own ring; `drained`, `exported`, `offered` and `scanned`
   are history; `scanned` is what had been offered when a drain last found nothing. */
  datatype State = State(
    serializer: Serializer, writer: Writer, fan: seq<Item>, ring: seq<Item>,
    rings: seq<seq<Batch>>, next: nat, closed: bool,
    drained: seq<Item>, exported: seq<Item>, finishes: nat,
    offered: seq<seq<Batch>>, scanned: seq<seq<Batch>>)

  const START := State(Top, Popping, [], [], [], 0, false, [], [], 0, [], [])

  datatype Action =
    // the environment
    | Register | Offer(ring: nat, batch: Batch) | Close
    // the serializer
    | ReadSlots | Drain | Check | Push | Again
    // the writer
    | Pop | FoundEmpty | AskFinished | Finish

  predicate Enabled(s: State, a: Action) {
    match a
    case Register => true
    case Offer(r, _) => r < |s.rings| && |s.rings[r]| < BATCHES_CAPACITY
    case Close => !s.closed
    case ReadSlots => s.serializer.Top?
    case Drain => s.serializer.Room?
    case Check => s.serializer.Checking?
    case Push => s.serializer.Pushing? && s.serializer.batches != []
    case Again => s.serializer.Pushing? && s.serializer.batches == []
    case Pop => (s.writer.Popping? || s.writer.LastPops?) && s.fan != []
    case FoundEmpty => s.writer.Popping? && s.fan == []
    case AskFinished => s.writer.Empty?
    case Finish => s.writer.LastPops? && s.fan == []
  }

  /** One `drain_batches`. */
  function Drained(s: State, limit: nat): (State, seq<Item>) {
    if s.rings == [] then (s, [])
    else
      var (out, left) := Queue.Drained(s.rings, s.next % |s.rings|, limit);
      (s.(rings := left, next := s.next + 1, drained := s.drained + out), out)
  }

  function Noted(offered: seq<seq<Batch>>, r: nat, batch: Batch): seq<seq<Batch>> {
    if r < |offered| then offered[r := offered[r] + [batch]] else offered
  }

  function Step(s: State, a: Action): State
    requires Enabled(s, a)
  {
    match a
    case Register => s.(rings := s.rings + [[]], offered := s.offered + [[]])
    case Offer(r, batch) => s.(rings := s.rings[r := s.rings[r] + [batch]], offered := Noted(s.offered, r, batch))
    case Close => s.(closed := true)
    case ReadSlots =>
      var room := FANIN_BATCHES - |s.fan|;
      s.(serializer := if room <= 0 then Top else Room(room))
    case Drain =>
      var (after, out) := Drained(s, s.serializer.slots);
      if out == [] then after.(serializer := Checking, scanned := s.offered) else after.(serializer := Pushing(out))
    case Check => s.(serializer := if s.closed then Done else Top)
    case Push =>
      var batches := s.serializer.batches;
      if |s.fan| < FANIN_BATCHES then s.(fan := s.fan + [batches[0]], serializer := Pushing(batches[1..]))
      else s.(serializer := Failed)
    case Again => s.(serializer := Top)
    case Pop =>
      if s.writer.LastPops? then s.(fan := s.fan[1..], ring := s.ring + [s.fan[0]])
      else s.(fan := s.fan[1..], exported := s.exported + s.ring + [s.fan[0]], ring := [])
    case FoundEmpty => s.(writer := Empty)
    case AskFinished => s.(writer := if s.serializer.Done? then LastPops else Popping)
    case Finish => s.(writer := Finished, exported := s.exported + s.ring, ring := [], finishes := s.finishes + 1)
  }

  /** The writer's ring is as large as an address space, so pushing into it evicts nothing. */
  lemma AddressSpaceEvictsNothing(s: History.State, batch: Batch)
    requires History.BytesOf(s.batches + [batch]) <= U64_MAX
    ensures History.Pushed(s, batch, U64_MAX) == s.(batches := s.batches + [batch])
  {
    History.EvictNone(s.(batches := s.batches + [batch]), U64_MAX);
  }

  // ----- what every step keeps -----

  function InHand(s: State): seq<Item> {
    if s.serializer.Pushing? then s.serializer.batches else []
  }

  /** Every batch drained is, in drain order, exported, in the writer's ring, in the fan-in or in the serializer's hands. */
  predicate InOrder(s: State) {
    s.exported + s.ring + s.fan + InHand(s) == s.drained
  }

  predicate Roomy(s: State) {
    && |s.fan| <= FANIN_BATCHES && !s.serializer.Failed?
    && (s.serializer.Room? ==> 0 < s.serializer.slots <= FANIN_BATCHES - |s.fan|)
    && |s.fan| + |InHand(s)| <= FANIN_BATCHES
  }

  predicate Tidy(s: State) {
    && (s.writer.LastPops? || s.writer.Finished? ==> s.serializer.Done?)
    && (s.writer.Finished? ==> s.fan == [] && s.ring == [])
    && (s.ring != [] ==> s.writer.LastPops?)
    && s.finishes == if s.writer.Finished? then 1 else 0
  }

  predicate Sourced(s: State) {
    && Draining.Taking(s.drained, s.offered, s.rings)
    && forall item :: item in s.drained ==> item.ring < |s.rings|
  }

  /** What one thread had offered when the last empty scan was made, or nothing if it had no ring yet. */
  function SeenAt(scanned: seq<seq<Batch>>, r: nat): seq<Batch> {
    if r < |scanned| then scanned[r] else []
  }

  /** Once a scan has found nothing, and until the next drain, what is drained is what had been offered by then. */
  predicate Scanned(s: State) {
    s.serializer.Checking? || s.serializer.Done? ==>
      |s.scanned| <= |s.rings| && forall r :: 0 <= r < |s.rings| ==> Draining.Of(s.drained, r) == SeenAt(s.scanned, r)
  }

  predicate Inv(s: State) {
    InOrder(s) && Roomy(s) && Tidy(s) && Sourced(s) && Scanned(s)
  }

  lemma DrainFacts(s: State, limit: nat)
    requires Sourced(s) && limit > 0
    ensures var (after, out) := Drained(s, limit);
            && after == s.(rings := after.rings, next := after.next, drained := s.drained + out)
            && Sourced(after) && |out| <= limit
            && (out == [] ==> forall r :: 0 <= r < |after.rings| ==> Draining.Of(after.drained, r) == SeenAt(s.offered, r))
  {
    var (after, out) := Drained(s, limit);
    if s.rings != [] {
      var start := s.next % |s.rings|;
      Draining.DrainTakes(s.rings, start, limit);
      Draining.DrainWithinLimit(s.rings, start, 0, [], limit);
      hide Queue.Drained, Draining.Of, Draining.Taking;
      Draining.TakingMore(s.drained, out, s.offered, s.rings, after.rings);
      Draining.TakingSame(out, s.rings, after.rings);
      if out == [] {
        EmptyScan(after);
      }
    } else {
      assert s.drained + [] == s.drained;
    }
  }

  lemma EmptyScan(s: State)
    requires Sourced(s) && forall r :: 0 <= r < |s.rings| ==> s.rings[r] == []
    ensures forall r :: 0 <= r < |s.rings| ==> Draining.Of(s.drained, r) == SeenAt(s.offered, r)
  {
    hide Draining.Of;
    forall r: nat | r < |s.rings| ensures Draining.Of(s.drained, r) == SeenAt(s.offered, r) {
      assert Draining.Of(s.drained, r) + s.rings[r] == s.offered[r];
    }
  }

  lemma RegisterKeepsInv(s: State)
    requires Inv(s)
    ensures Inv(Step(s, Register))
  {
    Draining.AbsentRing(s.drained, |s.rings|);
    hide Draining.Of;
    assert Draining.Of(s.drained, |s.rings|) + [] == [];
  }

  lemma OfferKeepsInv(s: State, r: nat, batch: Batch)
    requires Inv(s) && Enabled(s, Offer(r, batch))
    ensures Inv(Step(s, Offer(r, batch)))
  {
    hide Draining.Of;
    assert Draining.Of(s.drained, r) + (s.rings[r] + [batch]) == Draining.Of(s.drained, r) + s.rings[r] + [batch];
  }

  lemma DrainedInOrder(done: seq<Item>, fan: seq<Item>, drained: seq<Item>, out: seq<Item>)
    requires done + fan + [] == drained
    ensures done + fan + out == drained + out
  {
  }

  lemma DrainKeepsInv(s: State)
    requires Inv(s) && s.serializer.Room?
    ensures Inv(Step(s, Drain))
  {
    var (after, out) := Drained(s, s.serializer.slots);
    DrainFacts(s, s.serializer.slots);
    hide Drained, Draining.Of, Draining.Taking, SeenAt;
    var u := Step(s, Drain);
    if out == [] {
      FoundNothing(s, after, u);
    } else {
      FoundSome(s, after, u, out);
    }
  }

  lemma FoundNothing(s: State, after: State, u: State)
    requires Inv(s) && s.serializer.Room? && Sourced(after)
    requires after == s.(rings := after.rings, next := after.next, drained := s.drained + [])
    requires forall r :: 0 <= r < |after.rings| ==> Draining.Of(after.drained, r) == SeenAt(s.offered, r)
    requires u == after.(serializer := Checking, scanned := s.offered)
    ensures Inv(u)
  {
    hide Draining.Of, SeenAt;
    assert s.drained + [] == s.drained;
  }

  lemma FoundSome(s: State, after: State, u: State, out: seq<Item>)
    requires Inv(s) && s.serializer.Room? && Sourced(after) && out != [] && |out| <= s.serializer.slots
    requires after == s.(rings := after.rings, next := after.next, drained := s.drained + out)
    requires u == after.(serializer := Pushing(out))
    ensures Inv(u)
  {
    DrainedInOrder(s.exported + s.ring, s.fan, s.drained, out);
    hide Draining.Of, Draining.Taking, SeenAt;
  }

  lemma PushKeepsInv(s: State)
    requires Inv(s) && Enabled(s, Push)
    ensures Inv(Step(s, Push))
  {
    hide Draining.Of, Draining.Taking;
    var before, batches := s.exported + s.ring, s.serializer.batches;
    assert batches == [batches[0]] + batches[1..];
    assert before + s.fan + ([batches[0]] + batches[1..]) == before + (s.fan + [batches[0]]) + batches[1..];
  }

  lemma PopKeepsInv(s: State)
    requires Inv(s) && Enabled(s, Pop)
    ensures Inv(Step(s, Pop))
  {
    hide Draining.Of, Draining.Taking, SeenAt;
    var rest := s.fan[1..];
    assert s.fan == [s.fan[0]] + rest;
    assert s.exported + s.ring + ([s.fan[0]] + rest) == s.exported + (s.ring + [s.fan[0]]) + rest;
    assert s.exported + s.ring + ([s.fan[0]] + rest) == (s.exported + s.ring + [s.fan[0]]) + [] + rest;
  }

  lemma StepKeepsInv(s: State, a: Action)
    requires Inv(s) && Enabled(s, a)
    ensures Inv(Step(s, a))
  {
    match a
    case Register => RegisterKeepsInv(s);
    case Offer(r, batch) => OfferKeepsInv(s, r, batch);
    case Drain => DrainKeepsInv(s);
    case Push => PushKeepsInv(s);
    case Pop => PopKeepsInv(s);
    case Finish =>
      hide Draining.Of, Draining.Taking, SeenAt;
      assert s.exported + s.ring + [] + [] == (s.exported + s.ring) + [] + [] + [];
    case _ => hide Draining.Of, Draining.Taking, SeenAt;
  }

  predicate Enables(s: State, run: seq<Action>)
    decreases |run|
  {
    run == [] || (Enabled(s, run[0]) && Enables(Step(s, run[0]), run[1..]))
  }

  function Exec(s: State, run: seq<Action>): State
    requires Enables(s, run)
    decreases |run|
  {
    if run == [] then s else Exec(Step(s, run[0]), run[1..])
  }

  lemma {:induction false} RunsKeepInv(s: State, run: seq<Action>)
    requires Inv(s) && Enables(s, run)
    ensures Inv(Exec(s, run))
    decreases |run|
  {
    if run != [] {
      StepKeepsInv(s, run[0]);
      hide Inv, Step;
      RunsKeepInv(Step(s, run[0]), run[1..]);
    }
  }

  /**
   On every interleaving: the serializer's push never fails; what has been exported is, once each and in
   order, a prefix of what was drained; and when `finish` has been called it was called once, after all of it.
   */
  lemma DeliversInDrainOrder(run: seq<Action>)
    requires Enables(START, run)
    ensures var s := Exec(START, run);
            && !s.serializer.Failed?
            && s.exported <= s.drained
            && s.finishes <= 1
            && (s.finishes == 1 ==> s.exported == s.drained && s.serializer.Done?)
  {
    RunsKeepInv(START, run);
    var s := Exec(START, run);
    hide Exec;
    assert s.exported + (s.ring + s.fan + InHand(s)) == s.exported + s.ring + s.fan + InHand(s);
    if s.finishes == 1 {
      assert s.exported + [] + [] + [] == s.exported;
    }
  }

  /** Nothing is exported and nothing else is finished once `finish` has been called. */
  lemma FinishIsLast(s: State, a: Action)
    requires Inv(s) && s.finishes == 1 && Enabled(s, a)
    ensures Step(s, a).exported == s.exported && Step(s, a).finishes == 1
  {
  }

  /**
   What a finished run has exported: of each thread, exactly the batches it had offered when the serializer's
   last, empty scan was made. A batch offered between that scan and the close is lost, and only such a one.
   */
  lemma ExportsWhatTheLastScanSaw(run: seq<Action>)
    requires Enables(START, run) && Exec(START, run).finishes == 1
    ensures var s := Exec(START, run);
            forall r :: 0 <= r < |s.offered| ==> Draining.Of(s.exported, r) == SeenAt(s.scanned, r)
    ensures var s := Exec(START, run);
            (forall r :: 0 <= r < |s.offered| ==> Draining.Of(s.exported, r) == s.offered[r])
            <==> (forall r :: 0 <= r < |s.offered| ==> SeenAt(s.scanned, r) == s.offered[r])
  {
    RunsKeepInv(START, run);
    DeliversInDrainOrder(run);
    var s := Exec(START, run);
    hide Exec, Draining.Of, SeenAt;
    assert |s.offered| == |s.rings|;
  }

  lemma First(s: State, a: Action, run: seq<Action>)
    requires Enabled(s, a) && Enables(Step(s, a), run)
    ensures Enables(s, [a] + run) && Exec(s, [a] + run) == Exec(Step(s, a), run)
  {
    assert ([a] + run)[1..] == run;
  }

  function Registered(): State {
    START.(serializer := Room(FANIN_BATCHES), rings := [[]], offered := [[]])
  }

  function ScannedOnce(): State {
    START.(serializer := Checking, rings := [[]], next := 1, offered := [[]], scanned := [[]])
  }

  function Late(batch: Batch): State {
    START.(serializer := Checking, rings := [[batch]], next := 1, offered := [[batch]], scanned := [[]])
  }

  lemma ScanFindsNothing()
    ensures Step(Registered(), Drain) == ScannedOnce()
  {
    var s := Registered();
    NothingThere(Queue.Drained(s.rings, 0, FANIN_BATCHES).0, s.rings);
    hide Queue.Drained;
    assert s.drained + [] == [];
  }

  lemma OfferAfterScan(batch: Batch)
    ensures Enabled(ScannedOnce(), Offer(0, batch)) && Step(ScannedOnce(), Offer(0, batch)) == Late(batch)
  {
    var s := ScannedOnce();
    var u := Step(s, Offer(0, batch));
    assert s.rings[0] + [batch] == [batch];
    assert u.rings == [[batch]] && u.offered == [[batch]];
  }

  lemma RegisterThenRoom()
    ensures Enabled(Step(START, Register), ReadSlots) && Step(Step(START, Register), ReadSlots) == Registered()
  {
    var s := Step(START, Register);
    assert s.rings == [[]] && s.offered == [[]];
  }

  /** An empty scan of one ring, and the batch that comes just after it. */
  lemma ScanThenOffer(batch: Batch) returns (actions: seq<Action>)
    ensures Enables(START, actions) && Exec(START, actions) == Late(batch)
  {
    RegisterThenRoom();
    ScanFindsNothing();
    OfferAfterScan(batch);
    var s := Registered();
    assert Enabled(s, Drain) && Enabled(START, Register);
    hide Step, Enabled, Late, ScannedOnce, Registered;
    First(ScannedOnce(), Offer(0, batch), []);
    First(s, Drain, [Offer(0, batch)] + []);
    First(Step(START, Register), ReadSlots, [Drain] + ([Offer(0, batch)] + []));
    actions := [Register] + ([ReadSlots] + ([Drain] + ([Offer(0, batch)] + [])));
    First(START, Register, [ReadSlots] + ([Drain] + ([Offer(0, batch)] + [])));
  }

  lemma NothingThere(out: seq<Item>, rings: seq<seq<Batch>>)
    requires rings == [[]] && out == Queue.Drained(rings, 0, FANIN_BATCHES).0
    ensures out == [] && Queue.Drained(rings, 0, FANIN_BATCHES).1 == [[]]
  {
    Draining.DrainCounts(rings, 0, 0, [], FANIN_BATCHES);
    assert rings[..0] == [];
    Draining.OneDrain(rings, 0, FANIN_BATCHES);
    var left := Queue.Drained(rings, 0, FANIN_BATCHES).1;
    assert |left| == 1 && left == [left[0]];
  }

  /** Closing and finishing from there. */
  lemma CloseThenFinish(s: State) returns (actions: seq<Action>, u: State)
    requires s.serializer.Checking? && s.writer.Popping? && s.fan == [] && s.ring == [] && !s.closed && s.finishes == 0
    ensures Enables(s, actions) && Exec(s, actions) == u
    ensures u.finishes == 1 && u.offered == s.offered && u.exported == s.exported
  {
    var s1 := Step(s, Close);
    var s2 := Step(s1, Check);
    var s3 := Step(s2, FoundEmpty);
    var s4 := Step(s3, AskFinished);
    u := Step(s4, Finish);
    assert s.exported + [] == s.exported;
    hide Step;
    First(s4, Finish, []);
    First(s3, AskFinished, [Finish] + []);
    First(s2, FoundEmpty, [AskFinished] + ([Finish] + []));
    First(s1, Check, [FoundEmpty] + ([AskFinished] + ([Finish] + [])));
    First(s, Close, [Check] + ([FoundEmpty] + ([AskFinished] + ([Finish] + []))));
    actions := [Close] + ([Check] + ([FoundEmpty] + ([AskFinished] + ([Finish] + []))));
  }

  lemma {:induction false} ExecConcat(s: State, a: seq<Action>, b: seq<Action>)
    requires Enables(s, a) && Enables(Exec(s, a), b)
    ensures Enables(s, a + b) && Exec(s, a + b) == Exec(Exec(s, a), b)
    decreases |a|
  {
    if a == [] {
      assert a + b == b;
    } else {
      hide Step, Enabled;
      ExecConcat(Step(s, a[0]), a[1..], b);
      First(s, a[0], a[1..] + b);
      assert [a[0]] + (a[1..] + b) == a + b;
    }
  }

  // ----- left alone, it finishes -----

  predicate BySerializer(a: Action) {
    a.ReadSlots? || a.Drain? || a.Check? || a.Push? || a.Again?
  }

  predicate ByWriter(a: Action) {
    a.Pop? || a.FoundEmpty? || a.AskFinished? || a.Finish?
  }

  /** Each batch has three moves to make: into the serializer's hands, into the fan-in, and out of it. */
  function MovesLeft(s: State): nat {
    3 * Draining.Waiting(s.rings) + 2 * |InHand(s)| + |s.fan|
  }

  function SerializerAhead(s: State): nat {
    match s.serializer
    case Pushing(_) => 4
    case Top => 3
    case Room(_) => 2
    case Checking => 1
    case _ => 0
  }

  /** The writer's part, while there is something for it to do: empty the fan-in, or finish. */
  function WriterAhead(s: State): nat {
    if s.serializer.Done? then
      match s.writer
      case Popping => 3
      case Empty => 2
      case LastPops => 1
      case Finished => 0
    else if s.fan != [] && s.writer.Empty? then 1 else 0
  }

  function Ahead(s: State): nat {
    100 * MovesLeft(s) + 10 * SerializerAhead(s) + WriterAhead(s)
  }

  /** Whose turn matters: the writer's while the fan-in is full or the serializer done, else the serializer's. */
  predicate WriterNeeded(s: State) {
    s.serializer.Done? || |s.fan| >= FANIN_BATCHES
  }

  lemma DrainMoves(s: State)
    requires s.closed && s.serializer.Room?
    ensures Ahead(Step(s, Drain)) < Ahead(s) && Step(s, Drain).closed
  {
    var (after, out) := Drained(s, s.serializer.slots);
    if s.rings != [] {
      Draining.DrainCounts(s.rings, s.next % |s.rings|, 0, [], s.serializer.slots);
    }
    hide Queue.Drained;
    assert |out| + Draining.Waiting(after.rings) == Draining.Waiting(s.rings);
  }

  /** Once the queue is closed no step undoes progress, and a step of the thread that is needed makes some. */
  lemma StepMoves(s: State, a: Action)
    requires Inv(s) && s.closed && Enabled(s, a) && (BySerializer(a) || ByWriter(a))
    ensures var u := Step(s, a);
            && u.closed && Ahead(u) <= Ahead(s)
            && ((if WriterNeeded(s) then ByWriter(a) else BySerializer(a)) ==> Ahead(u) < Ahead(s))
  {
    if a.Drain? {
      DrainMoves(s);
    }
    hide Drained, Sourced, Scanned, InOrder;
  }

  /** The thread that is needed can always take a step. */
  lemma NeededCanStep(s: State)
    requires Inv(s) && !s.writer.Finished?
    ensures exists a: Action :: (if WriterNeeded(s) then ByWriter(a) else BySerializer(a)) && Enabled(s, a)
  {
    hide Sourced, Scanned, InOrder;
    var a :=
      if WriterNeeded(s) then
        match s.writer
        case Popping => if s.fan == [] then FoundEmpty else Pop
        case Empty => AskFinished
        case LastPops => if s.fan == [] then Finish else Pop
        case Finished => Finish
      else
        match s.serializer
        case Room(_) => Drain
        case Checking => Check
        case Pushing(batches) => if batches == [] then Again else Push
        case _ => ReadSlots;
    assert (if WriterNeeded(s) then ByWriter(a) else BySerializer(a)) && Enabled(s, a);
  }

  /** A step that makes no progress leaves the same thread needed. */
  lemma IdleStepKeepsNeed(s: State, a: Action)
    requires Inv(s) && s.closed && Enabled(s, a) && (BySerializer(a) || ByWriter(a)) && Ahead(Step(s, a)) == Ahead(s)
    ensures WriterNeeded(Step(s, a)) == WriterNeeded(s)
  {
    if a.Drain? {
      DrainMoves(s);
      assert false;
    }
    hide Drained, Sourced, Scanned, InOrder;
  }

  /** The two threads alone; nothing more once the writer has finished. */
  ghost predicate Alone(run: nat -> State, act: nat -> Action, i: nat) {
    if run(i).writer.Finished? then run(i + 1) == run(i)
    else (BySerializer(act(i)) || ByWriter(act(i))) && Enabled(run(i), act(i)) && run(i + 1) == Step(run(i), act(i))
  }

  ghost predicate SerializerRuns(run: nat -> State, act: nat -> Action, i: nat) {
    exists j: nat :: i <= j && SerializerTurn(run, act, j)
  }

  ghost predicate SerializerTurn(run: nat -> State, act: nat -> Action, j: nat) {
    run(j).serializer.Done? || BySerializer(act(j))
  }

  ghost predicate WriterRuns(run: nat -> State, act: nat -> Action, i: nat) {
    exists j: nat :: i <= j && WriterTurn(run, act, j)
  }

  ghost predicate WriterTurn(run: nat -> State, act: nat -> Action, j: nat) {
    run(j).writer.Finished? || ByWriter(act(j))
  }

  /** Neither thread is left out for ever while it has something to run for. */
  ghost predicate Fair(run: nat -> State, act: nat -> Action) {
    forall i: nat :: SerializerRuns(run, act, i) && WriterRuns(run, act, i)
  }

  lemma OneStep(run: nat -> State, act: nat -> Action, i: nat)
    requires Inv(run(i)) && run(i).closed && Alone(run, act, i)
    ensures Inv(run(i + 1)) && run(i + 1).closed && Ahead(run(i + 1)) <= Ahead(run(i))
    ensures Ahead(run(i + 1)) == Ahead(run(i)) ==> WriterNeeded(run(i + 1)) == WriterNeeded(run(i))
    ensures !run(i).writer.Finished? && (if WriterNeeded(run(i)) then ByWriter(act(i)) else BySerializer(act(i))) ==>
              Ahead(run(i + 1)) < Ahead(run(i))
  {
    var s, a := run(i), act(i);
    if !s.writer.Finished? {
      StepKeepsInv(s, a);
      StepMoves(s, a);
      if Ahead(run(i + 1)) == Ahead(s) {
        IdleStepKeepsNeed(s, a);
      }
    }
  }

  /** From `i` to the needed thread's next turn at `j`: either there was progress, or it is still needed. */
  lemma {:induction false} UntilTurn(run: nat -> State, act: nat -> Action, i: nat, j: nat)
    requires i <= j && Inv(run(i)) && run(i).closed && forall k: nat :: i <= k < j ==> Alone(run, act, k)
    ensures Inv(run(j)) && run(j).closed && Ahead(run(j)) <= Ahead(run(i))
    ensures Ahead(run(j)) == Ahead(run(i)) ==> WriterNeeded(run(j)) == WriterNeeded(run(i))
    decreases j - i
  {
    hide Inv, Ahead, WriterNeeded, Alone;
    if i < j {
      UntilTurn(run, act, i, j - 1);
      OneStep(run, act, j - 1);
    }
  }

  lemma NextTurn(run: nat -> State, act: nat -> Action, i: nat) returns (j: nat)
    requires Inv(run(i)) && run(i).closed && !run(i).writer.Finished? && Fair(run, act)
    requires forall k: nat :: i <= k ==> Alone(run, act, k)
    ensures i <= j && Inv(run(j)) && run(j).closed && (run(j).writer.Finished? || Ahead(run(j)) < Ahead(run(i)))
  {
    assert SerializerRuns(run, act, i) && WriterRuns(run, act, i);
    if WriterNeeded(run(i)) {
      j :| i <= j && WriterTurn(run, act, j);
    } else {
      j :| i <= j && SerializerTurn(run, act, j);
    }
    hide Fair, Inv, Alone, Ahead;
    UntilTurn(run, act, i, j);
    if !run(j).writer.Finished? {
      OneStep(run, act, j);
      j := j + 1;
    }
  }

  /**
   The pipeline ends: once the queue is closed and nothing more is offered, whatever the order in which the two
   threads run, if neither is left out for ever the writer finishes, with everything drained exported.
   */
  lemma {:induction false} FinishesAlone(run: nat -> State, act: nat -> Action, i: nat) returns (n: nat)
    requires Inv(run(i)) && run(i).closed && Fair(run, act) && forall k: nat :: i <= k ==> Alone(run, act, k)
    ensures i <= n && run(n).writer.Finished? && run(n).finishes == 1 && run(n).exported == run(n).drained
    decreases Ahead(run(i))
  {
    if run(i).writer.Finished? {
      n := i;
      assert run(i).exported + [] + [] + [] == run(i).exported;
    } else {
      var j := NextTurn(run, act, i);
      hide Inv, Ahead, Alone, Fair;
      if run(j).writer.Finished? {
        n := j;
        AllExported(run(j));
      } else {
        n := FinishesAlone(run, act, j);
      }
    }
  }

  lemma AllExported(s: State)
    requires Inv(s) && s.writer.Finished?
    ensures s.finishes == 1 && s.exported == s.drained
  {
    assert s.exported + [] + [] + [] == s.exported;
  }

  /**
   The race: a thread offers its only batch and the queue is closed after the empty scan and before the
   serializer asks whether it is closed. The run finishes and the batch has not been exported.
   */
  lemma LateBatchIsLost(batch: Batch) returns (run: seq<Action>)
    ensures Enables(START, run)
    ensures var s := Exec(START, run); s.finishes == 1 && s.offered == [[batch]] && s.exported == []
  {
    var before := ScanThenOffer(batch);
    var rest, u := CloseThenFinish(Late(batch));
    ExecConcat(START, before, rest);
    run := before + rest;
  }
}

/** The writer's inner loop: every batch of its ring is decoded and exported, oldest first. */
module PipelineWriter {
  import opened Words
  import opened Events
  import opened Batches
  import History
  import R = Ring

  function Decoded(ns: nat -> u64, batch: Batch): (events: seq<Event>)
    ensures |events| == |batch.events|
  {
    seq(|batch.events|, i requires 0 <= i < |batch.events| =>
      Event(ns(batch.base + batch.events[i].deltaTicks), batch.tid, batch.events[i].codeKind))
  }

  function AllDecoded(ns: nat -> u64, batches: seq<Batch>): seq<Event> {
    if batches == [] then [] else Decoded(ns, batches[0]) + AllDecoded(ns, batches[1..])
  }

  /** What is still to be exported: the batch in hand, and those left in the ring. */
  function Owed(ns: nat -> u64, batch: Option<Batch>, left: seq<Batch>): seq<Event> {
    (if batch.Some? then Decoded(ns, batch.value) else []) + AllDecoded(ns, left)
  }

  lemma PopOwesTheSame(ns: nat -> u64, ring: seq<Batch>)
    ensures Owed(ns, if ring == [] then None else Some(ring[0]), if ring == [] then ring else ring[1..]) == AllDecoded(ns, ring)
  {
    assert [] + AllDecoded(ns, []) == AllDecoded(ns, []);
  }

  lemma Paid(done: seq<Event>, now: seq<Event>, later: seq<Event>)
    ensures done + (now + later) == done + now + later
  {
  }

  /** The exporter is what it has been given, in order. */
  class Writer {
    var exported: seq<Event>

    constructor ()
      ensures exported == []
    {
      exported := [];
    }

    method Drain(ring: R.Ring, ns: nat -> u64)
      requires ring.Valid()
      modifies this, ring`batches, ring`bytes
      ensures ring.Valid() && ring.Now() == old(ring.Now()).(batches := [])
      ensures exported == old(exported) + AllDecoded(ns, old(ring.batches))
    {
      ghost var target := exported + AllDecoded(ns, ring.batches);
      PopOwesTheSame(ns, ring.batches);
      hide AllDecoded, Decoded, History.BytesOf;
      var batch := ring.Pop();
      while batch.Some?
        invariant ring.Valid() && ring.Now() == old(ring.Now()).(batches := ring.batches)
        invariant batch.None? ==> ring.batches == []
        invariant exported + Owed(ns, batch, ring.batches) == target
        decreases |ring.batches| + if batch.Some? then 1 else 0
      {
        Paid(exported, Decoded(ns, batch.value), AllDecoded(ns, ring.batches));
        PopOwesTheSame(ns, ring.batches);
        var decoded := Decode(ns, batch.value);
        exported := exported + decoded;
        batch := ring.Pop();
      }
      NothingOwed(ns, exported);
    }
  }

  lemma NothingOwed(ns: nat -> u64, done: seq<Event>)
    ensures done + Owed(ns, None, []) == done
  {
  }

  /** `decode_into`: one event a mark of the batch, under the batch's thread, its tick in nanoseconds. */
  method Decode(ns: nat -> u64, batch: Batch) returns (out: seq<Event>)
    ensures out == Decoded(ns, batch) && |out| == |batch.Marks()|
    ensures forall i :: 0 <= i < |out| ==>
              out[i].tsNs == ns(batch.Marks()[i].ticks) && out[i].tid == batch.tid && out[i].codeKind == batch.Marks()[i].codeKind
  {
    out := [];
    for i := 0 to |batch.events|
      invariant out == Decoded(ns, batch)[..i]
    {
      out := out + [Event(ns(batch.base + batch.events[i].deltaTicks), batch.tid, batch.events[i].codeKind)];
    }
  }
}
