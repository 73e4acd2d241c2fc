/**
 The live-tail seqlock: one producer thread, one reader of its unfinished batch, and an environment
 that may overwrite any memory. Tails are exact while it leaves alone what the producer advertises.

 Every atomic load and store is one step, steps interleave freely, and memory is sequentially
 consistent. Addresses are numbers counted in slots, so a batch buffer may be reused, or a fresh one
 may land on the address of an old one, without the model noticing.
 */
module Seqlock {
  import opened Words
  import opened Events

  const BATCH_N: nat := 1024
  const TAIL_RETRIES: nat := 8

  /** The fields of `Hot` that cross threads. A null pointer is address 0. */
  datatype Hot = Hot(cursor: nat, end: nat, base: nat, tid: nat, queue: nat, epoch: nat)

  /** The batch a thread advertises, with the events pushed into it so far. */
  datatype Batch = Batch(queue: nat, base: nat, tid: nat, events: seq<PackedEvent>)

  /** What `arm` is about to advertise: nothing, or an empty batch in the buffer at `start`. */
  datatype Target = Nothing | Buffer(start: nat, base: nat, tid: nat)

  /**
   Where the producer stands. `Arming(done, ..)` is inside `arm` after the epoch went odd and `done`
   of its stores happened; `first` is the event the slow path writes once the batch is armed.
   */
  datatype Writer =
    | Ready
    | SlotWritten(event: PackedEvent)
    | QueueStored
    | Arming(done: nat, target: Target, first: Option<PackedEvent>)
    | MustWrite(event: PackedEvent)

  /** `read_tail`, one constructor per program point between two loads. */
  datatype Reader =
    | Start(tries: nat)
    | HaveEpoch(tries: nat, epoch: nat)
    | HaveQueue(tries: nat, epoch: nat)
    | HaveCursor(tries: nat, epoch: nat, cursor: nat)
    | HaveEnd(tries: nat, epoch: nat, cursor: nat, end: nat)
    | HaveBase(tries: nat, epoch: nat, start: int, len: nat, base: nat)
    | Copying(tries: nat, epoch: nat, start: int, len: nat, base: nat, tid: nat, events: seq<PackedEvent>)
    | Done(tail: Option<Tail>)

  datatype Tail = Tail(base: nat, tid: nat, events: seq<PackedEvent>)

  /**
   `live` and `seen` are history variables: the batch currently advertised, and the value `live` had
   when the reader last loaded the cursor. No step's choice depends on either.
   */
  datatype State = State(
    hot: Hot, memory: map<int, PackedEvent>, writer: Writer, reader: Reader, wanted: nat,
    live: Option<Batch>, seen: Option<Batch>)

  datatype Action =
    | WriteSlot(event: PackedEvent)
    | AdvanceCursor
    | StoreQueue(queue: nat)
    | EpochOdd(target: Target, first: Option<PackedEvent>)
    | ArmStore
    | EpochEven
    | Scribble(memory: map<int, PackedEvent>)
    | Read

  const BLANK := PackedEvent(0, 0)

  function At(memory: map<int, PackedEvent>, address: int): PackedEvent {
    if address in memory then memory[address] else BLANK
  }

  predicate Enabled(s: State, a: Action) {
    match a
    case WriteSlot(e) =>
      (s.writer.Ready? && s.hot.cursor < s.hot.end) || s.writer == MustWrite(e)
    case AdvanceCursor => s.writer.SlotWritten?
    case StoreQueue(_) => s.writer.Ready?
    case EpochOdd(target, first) =>
      && (s.writer.Ready? || s.writer.QueueStored?)
      && (target.Nothing? ==> first.None?)
      && (target.Buffer? ==> target.start > 0)
    case ArmStore => s.writer.Arming? && s.writer.done < Stores(s.writer.target)
    case EpochEven => s.writer.Arming? && s.writer.done == Stores(s.writer.target)
    case Scribble(_) => true
    case Read => !s.reader.Done?
  }

  /** The stores `arm` makes between the two epoch stores. */
  function Stores(target: Target): nat {
    if target.Nothing? then 2 else 4
  }

  function ArmStored(hot: Hot, done: nat, target: Target): Hot {
    match target
    case Nothing => if done == 0 then hot.(cursor := 0) else hot.(end := 0)
    case Buffer(start, base, tid) =>
      if done == 0 then hot.(base := base)
      else if done == 1 then hot.(tid := tid)
      else if done == 2 then hot.(cursor := start)
      else hot.(end := start + BATCH_N)
  }

  function Step(s: State, a: Action): State
    requires Enabled(s, a)
  {
    match a
    case WriteSlot(e) => s.(memory := s.memory[s.hot.cursor := e], writer := SlotWritten(e))
    case AdvanceCursor =>
      s.(hot := s.hot.(cursor := s.hot.cursor + 1), writer := Ready,
         live := if s.live.Some?
                 then Some(s.live.value.(events := s.live.value.events + [s.writer.event]))
                 else s.live)
    case StoreQueue(q) => s.(hot := s.hot.(queue := q), writer := QueueStored)
    case EpochOdd(target, first) =>
      s.(hot := s.hot.(epoch := s.hot.epoch + 1), writer := Arming(0, target, first), live := None)
    case ArmStore =>
      s.(hot := ArmStored(s.hot, s.writer.done, s.writer.target), writer := s.writer.(done := s.writer.done + 1))
    case EpochEven =>
      s.(hot := s.hot.(epoch := s.hot.epoch + 1),
         writer := if s.writer.first.Some? then MustWrite(s.writer.first.value) else Ready,
         live := match s.writer.target
                 case Nothing => None
                 case Buffer(_, base, tid) => Some(Batch(s.hot.queue, base, tid, [])))
    case Scribble(m) => s.(memory := m)
    case Read => s.(reader := ReadStep(s), seen := if s.reader.HaveQueue? then s.live else s.seen)
  }

  function Retry(tries: nat): Reader {
    if tries + 1 < TAIL_RETRIES then Start(tries + 1) else Done(None)
  }

  /** One load of `read_tail` together with the branches that depend on it. */
  function ReadStep(s: State): Reader
    requires !s.reader.Done?
  {
    match s.reader
    case Start(n) => if s.hot.epoch % 2 == 1 then Retry(n) else HaveEpoch(n, s.hot.epoch)
    case HaveEpoch(n, epoch) => if s.hot.queue != s.wanted then Done(None) else HaveQueue(n, epoch)
    case HaveQueue(n, epoch) => HaveCursor(n, epoch, s.hot.cursor)
    case HaveCursor(n, epoch, cursor) =>
      if cursor == 0 || s.hot.end == 0 then Done(None) else HaveEnd(n, epoch, cursor, s.hot.end)
    case HaveEnd(n, epoch, cursor, end) =>
      var start := end - BATCH_N;
      if cursor - start <= 0 || cursor - start > BATCH_N then Retry(n)
      else HaveBase(n, epoch, start, cursor - start, s.hot.base)
    case HaveBase(n, epoch, start, len, base) => Copying(n, epoch, start, len, base, s.hot.tid, [])
    case Copying(n, epoch, start, len, base, tid, events) =>
      if |events| < len then s.reader.(events := events + [At(s.memory, start + |events|)])
      else if s.hot.epoch != epoch then Retry(n)
      else Done(Some(Tail(base, tid, events)))
  }

  /** A run from `s`: each action is enabled where it happens. */
  predicate Runs(s: State, actions: seq<Action>)
    decreases |actions|
  {
    actions == [] || (Enabled(s, actions[0]) && Runs(Step(s, actions[0]), actions[1..]))
  }

  function Exec(s: State, actions: seq<Action>): State
    requires Runs(s, actions)
    decreases |actions|
  {
    if actions == [] then s else Exec(Step(s, actions[0]), actions[1..])
  }

  /** A thread that has pushed nothing, or whose last batch was flushed, and a reader about to start. */
  predicate Initial(s: State) {
    && s.writer == Ready && s.reader == Start(0) && s.seen.None? && s.hot.epoch % 2 == 0
    && match s.live
       case None => s.hot.cursor == 0 && s.hot.end == 0
       case Some(b) =>
         && b == Batch(s.hot.queue, s.hot.base, s.hot.tid, [])
         && s.hot.cursor > 0 && s.hot.end == s.hot.cursor + BATCH_N
  }

  // ----- the producer's half of the invariant -----

  ghost predicate Advertises(s: State, b: Batch) {
    && s.hot.base == b.base && s.hot.tid == b.tid
    && s.hot.end > BATCH_N
    && |b.events| <= BATCH_N
    && s.hot.cursor == s.hot.end - BATCH_N + |b.events|
    && (forall i :: 0 <= i < |b.events| ==> At(s.memory, s.hot.end - BATCH_N + i) == b.events[i])
  }

  ghost predicate WriterInv(s: State) {
    && (s.writer.Arming? <==> s.hot.epoch % 2 == 1)
    && (s.writer.Arming? ==> ArmingInv(s))
    && (!s.writer.Arming? ==>
          match s.live
          case None => s.hot.cursor == 0 && s.hot.end == 0 && (s.writer.Ready? || s.writer.QueueStored?)
          case Some(b) =>
            && Advertises(s, b)
            && (s.writer.SlotWritten? ==> |b.events| < BATCH_N && At(s.memory, s.hot.cursor) == s.writer.event)
            && (s.writer.MustWrite? ==> b.events == [])
            && (!s.writer.QueueStored? ==> s.hot.queue == b.queue))
  }

  ghost predicate ArmingInv(s: State)
    requires s.writer.Arming?
  {
    && s.live.None?
    && s.writer.done <= Stores(s.writer.target)
    && (s.writer.target.Nothing? ==>
          && s.writer.first.None?
          && (s.writer.done > 0 ==> s.hot.cursor == 0) && (s.writer.done > 1 ==> s.hot.end == 0))
    && (s.writer.target.Buffer? ==>
          var t := s.writer.target;
          && t.start > 0
          && (s.writer.done > 0 ==> s.hot.base == t.base) && (s.writer.done > 1 ==> s.hot.tid == t.tid)
          && (s.writer.done > 2 ==> s.hot.cursor == t.start)
          && (s.writer.done > 3 ==> s.hot.end == t.start + BATCH_N))
  }

  // ----- the reader's half: it binds only while the epoch it loaded is still current -----

  ghost predicate SameGeneration(s: State) {
    && s.seen.Some? && s.live.Some?
    && s.seen.value == s.live.value.(events := s.seen.value.events)
    && s.seen.value.events <= s.live.value.events
  }

  ghost predicate ReaderInv(s: State) {
    match s.reader
    case Start(_) => true
    case HaveEpoch(_, epoch) => epoch % 2 == 0 && epoch <= s.hot.epoch
    case HaveQueue(_, epoch) => epoch % 2 == 0 && epoch <= s.hot.epoch
    case HaveCursor(_, epoch, cursor) =>
      && epoch % 2 == 0 && epoch <= s.hot.epoch
      && (epoch == s.hot.epoch && cursor != 0 ==>
            SameGeneration(s) && cursor == s.hot.end - BATCH_N + |s.seen.value.events|)
    case HaveEnd(_, epoch, cursor, end) =>
      && epoch % 2 == 0 && epoch <= s.hot.epoch
      && (epoch == s.hot.epoch ==>
            SameGeneration(s) && end == s.hot.end && cursor == end - BATCH_N + |s.seen.value.events|)
    case HaveBase(_, epoch, start, len, base) =>
      && epoch % 2 == 0 && epoch <= s.hot.epoch && len > 0
      && (epoch == s.hot.epoch ==>
            SameGeneration(s) && start == s.hot.end - BATCH_N && len == |s.seen.value.events| && base == s.hot.base)
    case Copying(_, epoch, start, len, base, tid, events) =>
      && epoch % 2 == 0 && epoch <= s.hot.epoch && len > 0 && |events| <= len
      && (epoch == s.hot.epoch ==>
            && SameGeneration(s) && start == s.hot.end - BATCH_N && len == |s.seen.value.events|
            && base == s.hot.base && tid == s.hot.tid && events <= s.seen.value.events)
    case Done(tail) => tail.Some? ==> Exact(s, tail.value)
  }

  /** The tail is the whole advertised batch, as it was when the reader loaded the cursor. */
  ghost predicate Exact(s: State, tail: Tail) {
    && s.seen.Some?
    && tail == Tail(s.seen.value.base, s.seen.value.tid, s.seen.value.events)
    && tail.events != []
  }

  /** One past the last slot the producer has written in the batch it advertises. */
  function Written(s: State): nat {
    if s.writer.SlotWritten? then s.hot.cursor + 1 else s.hot.cursor
  }

  /** The events advertised, and one written but not yet counted, stay as they are in memory. */
  predicate Spared(s: State, a: Action) {
    a.Scribble? && !s.writer.Arming? && s.hot.end > 0 ==>
      forall at :: s.hot.end - BATCH_N <= at < Written(s) ==> At(a.memory, at) == At(s.memory, at)
  }

  predicate SparedRun(s: State, actions: seq<Action>)
    requires Runs(s, actions)
    decreases |actions|
  {
    actions != [] ==> Spared(s, actions[0]) && SparedRun(Step(s, actions[0]), actions[1..])
  }

  lemma WriterStep(s: State, a: Action)
    requires WriterInv(s) && Enabled(s, a) && Spared(s, a)
    ensures WriterInv(Step(s, a))
  {
    var t := Step(s, a);
    match a
    case AdvanceCursor =>
      assert Advertises(s, s.live.value);
      assert Advertises(t, t.live.value);
    case WriteSlot(e) =>
      assert Advertises(s, s.live.value);
      assert Advertises(t, t.live.value);
    case _ =>
  }

  lemma ReaderStep(s: State, a: Action)
    requires WriterInv(s) && ReaderInv(s) && Enabled(s, a) && Spared(s, a)
    ensures ReaderInv(Step(s, a))
  {
    if a.Read? && s.reader.Copying? && s.reader.epoch == s.hot.epoch {
      var r := s.reader;
      assert Advertises(s, s.live.value);
      if |r.events| == r.len {
        assert r.events == s.seen.value.events;
      }
    }
  }

  /**
   Linearizability: on every interleaving of producer, environment and reader steps that spares the advertised
   events, a returned tail is exactly the batch that was live when its cursor was loaded.
   */
  lemma {:induction false} TailsAreExact(s: State, actions: seq<Action>)
    requires WriterInv(s) && ReaderInv(s) && Runs(s, actions) && SparedRun(s, actions)
    ensures WriterInv(Exec(s, actions)) && ReaderInv(Exec(s, actions))
    decreases |actions|
  {
    if actions != [] {
      WriterStep(s, actions[0]);
      ReaderStep(s, actions[0]);
      TailsAreExact(Step(s, actions[0]), actions[1..]);
    }
  }

  lemma InitialHolds(s: State)
    requires Initial(s)
    ensures WriterInv(s) && ReaderInv(s) && QueueInv(s)
  {
    if s.live.Some? {
      assert Advertises(s, s.live.value);
    }
  }

  /** Where in the run the history variable `seen` got its value: at a load of the cursor. */
  lemma {:induction false} SeenWasLive(s: State, actions: seq<Action>) returns (k: int)
    requires Runs(s, actions)
    ensures -1 <= k < |actions|
    ensures k == -1 ==> Exec(s, actions).seen == s.seen
    ensures k >= 0 ==>
              && actions[k].Read? && Runs(s, actions[..k]) && Exec(s, actions[..k]).reader.HaveQueue?
              && Exec(s, actions).seen == Exec(s, actions[..k]).live
    ensures Exec(s, actions).wanted == s.wanted
    decreases |actions|
  {
    k := -1;
    if actions != [] {
      var t := Step(s, actions[0]);
      k := SeenWasLive(t, actions[1..]);
      if k >= 0 {
        assert actions[..k + 1][1..] == actions[1..][..k];
        k := k + 1;
      } else if actions[0].Read? && s.reader.HaveQueue? {
        k := 0;
      }
    }
  }

  // ----- whose batch is it? -----

  /** `init_producer` stores the new queue id only on a thread whose previous batch was flushed. */
  predicate Clean(s: State, a: Action) {
    a.StoreQueue? && s.live.Some? ==> s.live.value.events == []
  }

  predicate CleanRun(s: State, actions: seq<Action>)
    requires Runs(s, actions)
    decreases |actions|
  {
    actions != [] ==> Clean(s, actions[0]) && CleanRun(Step(s, actions[0]), actions[1..])
  }

  ghost predicate QueueInv(s: State) {
    && (!s.writer.Arming? && s.writer.QueueStored? && s.live.Some? ==> s.live.value.events == [])
    && match s.reader
       case Start(_) => true
       case HaveEpoch(_, _) => true
       case HaveQueue(_, epoch) =>
         epoch == s.hot.epoch && s.live.Some? ==>
           s.live.value.queue == s.wanted || (s.live.value.events == [] && s.writer.QueueStored?)
       case HaveCursor(_, epoch, _) => epoch == s.hot.epoch && s.seen.Some? ==> SeenIsWanted(s)
       case HaveEnd(_, epoch, _, _) => epoch == s.hot.epoch ==> s.seen.Some? && SeenIsWanted(s)
       case HaveBase(_, epoch, _, _, _) => epoch == s.hot.epoch ==> s.seen.Some? && s.seen.value.queue == s.wanted
       case Copying(_, epoch, _, _, _, _, _) =>
         epoch == s.hot.epoch ==> s.seen.Some? && s.seen.value.queue == s.wanted
       case Done(tail) => tail.Some? ==> s.seen.Some? && s.seen.value.queue == s.wanted
  }

  ghost predicate SeenIsWanted(s: State)
    requires s.seen.Some?
  {
    s.seen.value.queue == s.wanted || s.seen.value.events == []
  }

  lemma QueueStep(s: State, a: Action)
    requires WriterInv(s) && ReaderInv(s) && QueueInv(s) && Enabled(s, a) && Clean(s, a) && Spared(s, a)
    ensures QueueInv(Step(s, a))
  {
  }

  /** If threads are flushed before a new queue takes them over, a tail belongs to the queue that asked. */
  lemma {:induction false} TailsBelongToTheQueue(s: State, actions: seq<Action>)
    requires WriterInv(s) && ReaderInv(s) && QueueInv(s)
    requires Runs(s, actions) && CleanRun(s, actions) && SparedRun(s, actions)
    ensures QueueInv(Exec(s, actions))
    decreases |actions|
  {
    if actions != [] {
      WriterStep(s, actions[0]);
      ReaderStep(s, actions[0]);
      QueueStep(s, actions[0]);
      TailsBelongToTheQueue(Step(s, actions[0]), actions[1..]);
    }
  }

  /**
   The same statement without history variables: for a reader that returns a tail there is an instant in
   the run, a load of the cursor, at which the advertised batch held exactly the tail's base, tid and events. If
   threads were flushed before a new queue took them over, that batch was pushed to the very queue the reader
   asked for.
   */
  lemma TailIsTheLiveBatchAtSomeCursorLoad(s: State, actions: seq<Action>) returns (k: nat)
    requires Initial(s) && Runs(s, actions) && SparedRun(s, actions)
    requires Exec(s, actions).reader.Done? && Exec(s, actions).reader.tail.Some?
    ensures k < |actions| && actions[k].Read? && Runs(s, actions[..k])
    ensures var at := Exec(s, actions[..k]); var tail := Exec(s, actions).reader.tail.value;
            && at.reader.HaveQueue? && at.live.Some? && tail.events != []
            && tail == Tail(at.live.value.base, at.live.value.tid, at.live.value.events)
            && (CleanRun(s, actions) ==> at.live.value.queue == s.wanted)
  {
    InitialHolds(s);
    TailsAreExact(s, actions);
    var found := SeenWasLive(s, actions);
    k := found;
    if CleanRun(s, actions) {
      TailsBelongToTheQueue(s, actions);
    }
  }

  // ----- the reader running alone: it does return, and flushing first is needed -----

  function Repeat(n: nat): (actions: seq<Action>)
    ensures |actions| == n && forall i :: 0 <= i < n ==> actions[i] == Read
  {
    seq(n, _ => Read)
  }

  lemma {:induction false} CopiesAlone(s: State)
    requires WriterInv(s) && ReaderInv(s) && s.reader.Copying? && s.reader.epoch == s.hot.epoch
    ensures var n := s.reader.len - |s.reader.events| + 1;
            Runs(s, Repeat(n)) && Exec(s, Repeat(n)).reader ==
              Done(Some(Tail(s.seen.value.base, s.seen.value.tid, s.seen.value.events)))
    decreases s.reader.len - |s.reader.events|
  {
    var n := s.reader.len - |s.reader.events| + 1;
    var t := Step(s, Read);
    ReaderStep(s, Read);
    assert Repeat(n)[1..] == Repeat(n - 1);
    if |s.reader.events| < s.reader.len {
      CopiesAlone(t);
    }
  }

  /** A reader that is not interrupted returns a non-empty live batch whenever it finds its own queue id. */
  lemma ReadsAlone(s: State) returns (actions: seq<Action>)
    requires WriterInv(s) && s.reader.Start? && !s.writer.Arming? && s.hot.queue == s.wanted
    requires s.live.Some? && s.live.value.events != []
    ensures Runs(s, actions) && forall i :: 0 <= i < |actions| ==> actions[i] == Read
    ensures Exec(s, actions).reader ==
              Done(Some(Tail(s.live.value.base, s.live.value.tid, s.live.value.events)))
  {
    assert Advertises(s, s.live.value);
    var s1 := Step(s, Read);
    var s2 := Step(s1, Read);
    var s3 := Step(s2, Read);
    var s4 := Step(s3, Read);
    var s5 := Step(s4, Read);
    var s6 := Step(s5, Read);
    assert s6.reader.Copying? && s6.seen == s.live;
    CopiesAlone(s6);
    actions := Repeat(s6.reader.len + 1);
    actions := OneReadMore(s5, actions);
    actions := OneReadMore(s4, actions);
    actions := OneReadMore(s3, actions);
    actions := OneReadMore(s2, actions);
    actions := OneReadMore(s1, actions);
    actions := OneReadMore(s, actions);
  }

  lemma OneReadMore(s: State, rest: seq<Action>) returns (actions: seq<Action>)
    requires !s.reader.Done? && Runs(Step(s, Read), rest)
    requires forall i :: 0 <= i < |rest| ==> rest[i] == Read
    ensures Runs(s, actions) && Exec(s, actions) == Exec(Step(s, Read), rest)
    ensures forall i :: 0 <= i < |actions| ==> actions[i] == Read
  {
    actions := [Read] + rest;
    assert actions[1..] == rest;
  }

  // ----- disturbed attempts: the reader tries again, eight times in all -----

  /** A load that spoils the attempt: an odd epoch, no event or more than a batch holds, or an epoch that moved meanwhile. */
  predicate Disturbed(s: State, a: Action) {
    a.Read? && match s.reader
               case Start(_) => s.hot.epoch % 2 == 1
               case HaveEnd(_, _, cursor, end) => !(end - BATCH_N < cursor <= end)
               case Copying(_, epoch, _, len, _, _, events) => |events| >= len && s.hot.epoch != epoch
               case _ => false
  }

  /** A load that ends the read: another queue's id, or a null cursor or end. */
  predicate Declined(s: State, a: Action) {
    a.Read? && match s.reader
               case HaveEpoch(_, _) => s.hot.queue != s.wanted
               case HaveCursor(_, _, cursor) => cursor == 0 || s.hot.end == 0
               case _ => false
  }

  /** How many loads of a run spoil an attempt, and how many end the read. */
  function Disturbances(s: State, actions: seq<Action>): nat
    requires Runs(s, actions)
    decreases |actions|
  {
    if actions == [] then 0
    else (if Disturbed(s, actions[0]) then 1 else 0) + Disturbances(Step(s, actions[0]), actions[1..])
  }

  function Declines(s: State, actions: seq<Action>): nat
    requires Runs(s, actions)
    decreases |actions|
  {
    if actions == [] then 0
    else (if Declined(s, actions[0]) then 1 else 0) + Declines(Step(s, actions[0]), actions[1..])
  }

  lemma {:induction false} DoneLoadsNoMore(s: State, actions: seq<Action>)
    requires s.reader.Done? && Runs(s, actions)
    ensures Exec(s, actions).reader == s.reader && Disturbances(s, actions) == Declines(s, actions) == 0
    decreases |actions|
  {
    if actions != [] {
      DoneLoadsNoMore(Step(s, actions[0]), actions[1..]);
    }
  }

  lemma {:induction false} AttemptsAreCounted(s: State, actions: seq<Action>)
    requires !s.reader.Done? && s.reader.tries < 8 && Runs(s, actions)
    ensures var t, spoilt := Exec(s, actions), s.reader.tries + Disturbances(s, actions);
            && (t.reader == Done(None) <==> spoilt == 8 || Declines(s, actions) > 0)
            && (!t.reader.Done? ==> t.reader.tries == spoilt)
            && spoilt <= 8
    decreases |actions|
  {
    if actions != [] {
      var t := Step(s, actions[0]);
      if t.reader.Done? {
        DoneLoadsNoMore(t, actions[1..]);
      } else {
        AttemptsAreCounted(t, actions[1..]);
      }
    }
  }

  /**
   A reader gives up for two reasons only, and then always: it saw another queue's id or a null pointer, or eight of
   its attempts were disturbed. Attempts are counted in the run, whatever the reader itself counts.
   */
  lemma GivesUpIff(s: State, actions: seq<Action>)
    requires s.reader == Start(0) && Runs(s, actions)
    ensures Exec(s, actions).reader == Done(None) <==> Declines(s, actions) > 0 || Disturbances(s, actions) == 8
    ensures Disturbances(s, actions) <= 8
  {
    AttemptsAreCounted(s, actions);
  }

  lemma {:induction false} RunsSplit(s: State, first: seq<Action>, rest: seq<Action>)
    requires Runs(s, first + rest)
    ensures Runs(s, first) && Runs(Exec(s, first), rest)
    ensures Exec(s, first + rest) == Exec(Exec(s, first), rest)
    ensures Disturbances(s, first + rest) == Disturbances(s, first) + Disturbances(Exec(s, first), rest)
    decreases |first|
  {
    if first == [] {
      assert first + rest == rest;
    } else {
      assert (first + rest)[1..] == first[1..] + rest;
      RunsSplit(Step(s, first[0]), first[1..], rest);
    }
  }

  lemma {:induction false} OthersKeepTheReader(s: State, actions: seq<Action>)
    requires Runs(s, actions) && forall i :: 0 <= i < |actions| ==> !actions[i].Read?
    ensures Exec(s, actions).reader == s.reader && Exec(s, actions).wanted == s.wanted
    ensures Disturbances(s, actions) == 0
    decreases |actions|
  {
    if actions != [] {
      OthersKeepTheReader(Step(s, actions[0]), actions[1..]);
    }
  }

  /**
   A disturbed reader tries again. After any run whose last load spoilt an attempt, with fewer than eight spoilt in
   all, and whatever the producer did since, a reader then left alone returns the batch advertised.
   */
  lemma DisturbedThenReadsAlone(s: State, run: seq<Action>, others: seq<Action>) returns (actions: seq<Action>)
    requires Initial(s) && Runs(s, run + [Read] + others) && SparedRun(s, run + [Read] + others)
    requires Runs(s, run) && Disturbed(Exec(s, run), Read)
    requires forall i :: 0 <= i < |others| ==> !others[i].Read?
    requires Disturbances(s, run + [Read] + others) < 8
    requires var t := Exec(s, run + [Read] + others);
             && !t.writer.Arming? && t.hot.queue == t.wanted && t.live.Some? && t.live.value.events != []
    ensures var t := Exec(s, run + [Read] + others);
            && Runs(t, actions) && (forall i :: 0 <= i < |actions| ==> actions[i] == Read)
            && Exec(t, actions).reader == Done(Some(Tail(t.live.value.base, t.live.value.tid, t.live.value.events)))
  {
    InitialHolds(s);
    TailsAreExact(s, run + [Read] + others);
    RunsSplit(s, run + [Read], others);
    RunsSplit(s, run, [Read]);
    var at := Exec(s, run);
    var next := Step(at, Read);
    assert Exec(s, run + [Read]) == next;
    assert Disturbances(at, [Read]) == 1;
    OthersKeepTheReader(next, others);
    AttemptsAreCounted(s, run);
    assert next.reader.Start?;
    actions := ReadsAlone(Exec(s, run + [Read] + others));
  }

  /**
   Flushing first is needed, in every state that skips it: a thread taken over by queue `q` with events
   still unflushed shows them to a reader of `q`, although they belong to another queue. The id is stored
   while the epoch is still even.
   */
  lemma UnflushedTakeoverLeaks(s: State, q: nat) returns (actions: seq<Action>)
    requires WriterInv(s) && s.writer.Ready? && s.reader.Start? && s.wanted == q
    requires s.live.Some? && s.live.value.events != [] && s.live.value.queue != q
    ensures Runs(s, actions) && actions != [] && actions[0] == StoreQueue(q) && !Clean(s, actions[0])
    ensures Exec(s, actions).reader ==
              Done(Some(Tail(s.live.value.base, s.live.value.tid, s.live.value.events)))
    ensures Exec(s, actions).live == s.live
  {
    WriterStep(s, StoreQueue(q));
    var t := Step(s, StoreQueue(q));
    var alone := ReadsAlone(t);
    actions := [StoreQueue(q)] + alone;
    assert actions[1..] == alone;
    ReadsKeepLive(t, alone);
  }

  lemma {:induction false} ReadsKeepLive(s: State, actions: seq<Action>)
    requires Runs(s, actions) && forall i :: 0 <= i < |actions| ==> actions[i] == Read
    ensures Exec(s, actions).live == s.live
    decreases |actions|
  {
    if actions != [] {
      ReadsKeepLive(Step(s, actions[0]), actions[1..]);
    }
  }

  // ----- sparing what is advertised is needed -----

  /** The environment keeps the producer's half exactly when it spares what is advertised. */
  lemma ScribbleKeepsInvIff(s: State, memory: map<int, PackedEvent>)
    requires WriterInv(s)
    ensures WriterInv(Step(s, Scribble(memory))) <==> Spared(s, Scribble(memory))
  {
    var t := Step(s, Scribble(memory));
    if Spared(s, Scribble(memory)) {
      WriterStep(s, Scribble(memory));
    } else {
      var b := s.live.value;
      var at :| s.hot.end - BATCH_N <= at < Written(s) && At(memory, at) != At(s.memory, at);
      assert Advertises(s, b);
      if at < s.hot.cursor {
        var i := at - (s.hot.end - BATCH_N);
        assert At(s.memory, s.hot.end - BATCH_N + i) == b.events[i];
        assert At(t.memory, s.hot.end - BATCH_N + i) != b.events[i];
      }
    }
  }

  /** No load of the reader depends on the history variables. */
  lemma {:induction false} ReadsIgnoreHistory(s: State, u: State, actions: seq<Action>)
    requires Runs(s, actions) && forall i :: 0 <= i < |actions| ==> actions[i] == Read
    requires u == s.(live := u.live, seen := u.seen)
    ensures Runs(u, actions) && Exec(u, actions).reader == Exec(s, actions).reader
    decreases |actions|
  {
    if actions != [] {
      ReadsIgnoreHistory(Step(s, actions[0]), Step(u, actions[0]), actions[1..]);
    }
  }

  /**
   In every state in which an advertised event is overwritten, a reader that comes then returns a tail that no batch
   ever was: the event overwritten, all others as they were pushed.
   */
  lemma OverwriteLeaks(s: State, i: nat, e: PackedEvent) returns (actions: seq<Action>)
    requires WriterInv(s) && s.reader.Start? && !s.writer.Arming? && s.hot.queue == s.wanted
    requires s.live.Some? && i < |s.live.value.events| && e != s.live.value.events[i]
    ensures var at := s.hot.end - BATCH_N + i;
            && Runs(s, actions) && actions != [] && actions[0] == Scribble(s.memory[at := e]) && !Spared(s, actions[0])
            && (forall j :: 0 < j < |actions| ==> actions[j] == Read)
    ensures var b := s.live.value;
            && Exec(s, actions).reader == Done(Some(Tail(b.base, b.tid, b.events[i := e]))) && Exec(s, actions).live == s.live
  {
    var b, at := s.live.value, s.hot.end - BATCH_N + i;
    assert Advertises(s, b);
    var a := Scribble(s.memory[at := e]);
    assert At(s.memory, at) == b.events[i] && At(a.memory, at) == e;
    var t := Step(s, a);
    var other := b.(events := b.events[i := e]);
    var u := t.(live := Some(other));
    assert Advertises(u, other);
    var alone := ReadsAlone(u);
    ReadsIgnoreHistory(u, t, alone);
    ReadsKeepLive(t, alone);
    actions := [a] + alone;
    assert actions[1..] == alone;
  }
}
