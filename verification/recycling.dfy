/**
 Id reuse against every place an event can still be: live batches, rings, the recorder's history and a dump
 being written. The id machine runs underneath; the recorder computes its recycle floor one load at a time
 while threads push, ship batches, die and ask for ids.
 */
module Recycling {
  import opened Words
  import opened InternTable
  import Ids = CodeIds

  /**
   An event with the id it was pushed with. `code` and `at`, the object recorded and the clock when the push
   happened, are history: nothing chooses by them.
   */
  datatype Ev = Ev(ticks: nat, id: u32, code: CodeInfo, at: nat)

  datatype Held = Held(base: nat, events: seq<Ev>)

  /** The recorder: idle, reading tails for a floor (and giving up on some), scanning rings for it, or writing a dump. */
  datatype Rec =
    | Resting
    | Tails(low: nat, seen: set<nat>)
    | Scans(low: nat, scanned: set<nat>)
    | Writing(events: seq<Ev>)

  /**
   `detached` holds a batch that a flush took out of its thread's live slot and has not pushed yet. `peak` is
   the highest floor ever published.
   */
  datatype World = World(
    ids: Ids.State, live: map<nat, Held>, rings: map<nat, seq<Held>>, detached: map<nat, Held>,
    history: seq<Held>, rec: Rec, peak: nat)

  datatype Action =
    | Inner(a: Ids.Action)
    | Append(t: nat)
    | Renew(t: nat, drop: bool)
    | Detach(t: nat)
    | Attach(t: nat, drop: bool)
    | Pop(t: nat)
    | Evict
    | FloorStart
    | ReadTail(t: nat)
    | SkipTail(t: nat)
    | TailsRead
    | FoundEmpty(t: nat)
    | Publish
    | WriteStart
    | WriteTail(t: nat)
    | WriteBatch(i: nat)
    | WriteEnd

  function Ring(w: World, t: nat): seq<Held> {
    if t in w.rings then w.rings[t] else []
  }

  predicate Flooring(r: Rec) {
    r.Tails? || r.Scans?
  }

  predicate CanPush(w: World, t: nat) {
    t in w.ids.threads && w.ids.threads[t].pc.Using? && w.ids.threads[t].key in w.ids.alive
  }

  predicate Enabled(w: World, a: Action) {
    match a
    case Inner(b) => !b.Push? && !b.SetFloor? && Ids.Enabled(w.ids, b)
    case Append(t) => CanPush(w, t) && t in w.live && w.live[t].base <= w.ids.threads[t].ticks
    case Renew(t, _) => CanPush(w, t)
    case Detach(t) => t in w.live && t !in w.detached
    case Attach(t, _) => t in w.detached
    case Pop(t) => Ring(w, t) != []
    case Evict => w.history != []
    case FloorStart => w.rec.Resting?
    case ReadTail(t) => w.rec.Tails?
    case SkipTail(t) => w.rec.Tails?
    case TailsRead => w.rec.Tails? && w.ids.threads.Keys <= w.rec.seen
    case FoundEmpty(t) => w.rec.Scans? && Ring(w, t) == []
    case Publish => w.rec.Scans? && w.ids.threads.Keys <= w.rec.scanned
    case WriteStart => w.rec.Resting?
    case WriteTail(t) => w.rec.Writing? && t in w.live
    case WriteBatch(i) => w.rec.Writing? && i < |w.history|
    case WriteEnd => w.rec.Writing?
  }

  /** The event thread `t` is about to push. */
  function Pushed(w: World, t: nat): Ev
    requires CanPush(w, t)
  {
    var th := w.ids.threads[t];
    Ev(th.ticks, th.pc.id, w.ids.alive[th.key], w.ids.clock)
  }

  /** Shipping a batch to its ring, which refuses it when full. */
  function Shipped(w: World, t: nat, batch: Held, drop: bool): map<nat, seq<Held>> {
    if drop then w.rings else w.rings[t := Ring(w, t) + [batch]]
  }

  /** The lowest base in a history, at most `low`. */
  function LowestBase(low: nat, history: seq<Held>): (f: nat)
    ensures f <= low
    ensures forall i :: 0 <= i < |history| ==> f <= history[i].base
  {
    if history == [] then low
    else
      var rest := LowestBase(low, history[..|history| - 1]);
      if history[|history| - 1].base < rest then history[|history| - 1].base else rest
  }

  function Step(w: World, a: Action): World
    requires Enabled(w, a) && Valid(w.ids.table, w.ids.capacity)
  {
    match a
    case Inner(b) => w.(ids := Ids.Step(w.ids, b))
    case Append(t) =>
      w.(live := w.live[t := Held(w.live[t].base, w.live[t].events + [Pushed(w, t)])],
         ids := Ids.Step(w.ids, Ids.Push(t)))
    case Renew(t, drop) =>
      w.(live := w.live[t := Held(w.ids.threads[t].ticks, [Pushed(w, t)])],
         rings := if t in w.live then Shipped(w, t, w.live[t], drop) else w.rings,
         ids := Ids.Step(w.ids, Ids.Push(t)))
    case Detach(t) =>
      w.(live := w.live[t := Held(w.live[t].base, [])], detached := w.detached[t := w.live[t]])
    case Attach(t, drop) =>
      w.(rings := Shipped(w, t, w.detached[t], drop), detached := w.detached - {t})
    case Pop(t) =>
      w.(rings := w.rings[t := Ring(w, t)[1..]], history := w.history + [Ring(w, t)[0]])
    case Evict => w.(history := w.history[1..])
    case FloorStart => w.(rec := Tails(w.ids.clock, {}))
    case ReadTail(t) =>
      w.(rec := Tails(if t in w.live && w.live[t].events != [] then Min(w.rec.low, w.live[t].base) else w.rec.low,
                      w.rec.seen + {t}))
    case SkipTail(t) => w.(rec := Tails(w.rec.low, w.rec.seen + {t}))
    case TailsRead => w.(rec := Scans(w.rec.low, {}))
    case FoundEmpty(t) => w.(rec := w.rec.(scanned := w.rec.scanned + {t}))
    case Publish =>
      var floor := LowestBase(w.rec.low, w.history);
      w.(ids := Ids.Step(w.ids, Ids.SetFloor(floor)), rec := Resting,
         peak := if floor > w.peak then floor else w.peak)
    case WriteStart => w.(rec := Writing([]))
    case WriteTail(t) => w.(rec := Writing(w.rec.events + w.live[t].events))
    case WriteBatch(i) => w.(rec := Writing(w.rec.events + w.history[i].events))
    case WriteEnd => w.(rec := Resting)
  }

  // ----- the invariant -----

  /** The event still resolves to its own code; if its id is given up, that was after the push and not below any floor. */
  ghost predicate EvGood(s: Ids.State, peak: nat, e: Ev) {
    && e.at <= s.clock && e.id < |s.table.info| && s.table.info[e.id] == e.code
    && (forall f :: Freed(e.id, f) in s.table.free ==> e.at <= f && peak <= f)
    && (forall key :: key in s.dying && key in s.table.ids && s.table.ids[key] == e.id ==>
          e.at <= s.dying[key].at && peak <= s.dying[key].at)
  }

  ghost predicate EventsGood(s: Ids.State, peak: nat, events: seq<Ev>) {
    forall i :: 0 <= i < |events| ==> EvGood(s, peak, events[i])
  }

  predicate Based(h: Held) {
    forall i :: 0 <= i < |h.events| ==> h.base <= h.events[i].ticks <= h.events[i].at
  }

  ghost predicate HeldGood(s: Ids.State, peak: nat, h: Held) {
    Based(h) && EventsGood(s, peak, h.events)
  }

  ghost predicate StoreGood(w: World) {
    && (forall t :: t in w.live ==> HeldGood(w.ids, w.peak, w.live[t]))
    && (forall t, i :: t in w.rings && 0 <= i < |w.rings[t]| ==> HeldGood(w.ids, w.peak, w.rings[t][i]))
    && (forall t :: t in w.detached ==> HeldGood(w.ids, w.peak, w.detached[t]))
    && (forall i :: 0 <= i < |w.history| ==> HeldGood(w.ids, w.peak, w.history[i]))
    && (w.rec.Writing? ==> EventsGood(w.ids, w.peak, w.rec.events))
  }

  predicate Covered(low: nat, h: Held) {
    forall i :: 0 <= i < |h.events| ==> low <= h.events[i].at
  }

  /**
   What the floor computation has secured so far: the events it can no longer meet were pushed at or after `low`.
   Those are the events of a live batch once its tail is read, and of a ring, or of a batch in hand on its way to
   the ring, once the ring is found empty.
   */
  predicate FloorInv(w: World) {
    match w.rec
    case Tails(low, seen) => forall t :: t in w.live && t in seen ==> Covered(low, w.live[t])
    case Scans(low, scanned) =>
      && (forall t :: t in w.live ==> Covered(low, w.live[t]))
      && (forall t :: t in w.detached && t in scanned ==> Covered(low, w.detached[t]))
      && (forall t, i :: t in w.rings && t in scanned && 0 <= i < |w.rings[t]| ==> Covered(low, w.rings[t][i]))
    case _ => true
  }

  predicate PeakInv(w: World) {
    && w.peak <= w.ids.clock && w.ids.floor <= w.peak && (Flooring(w.rec) ==> w.rec.low <= w.ids.clock)
    && (forall t :: t in w.ids.threads && w.ids.threads[t].pc.Ready? ==> w.ids.threads[t].pc.floor <= w.peak)
    && w.live.Keys <= w.ids.threads.Keys && w.rings.Keys <= w.ids.threads.Keys && w.detached.Keys <= w.ids.threads.Keys
  }

  /** Every stored event resolves, and goes on resolving under any floor published so far. */
  ghost predicate Intact(w: World) {
    Ids.Inv(w.ids) && StoreGood(w) && PeakInv(w)
  }

  ghost predicate Inv(w: World) {
    Intact(w) && FloorInv(w)
  }

  /** The one condition on allocations: none fails on a thread whose last id is stale. */
  predicate Fine(w: World, a: Action)
    requires Enabled(w, a) && Valid(w.ids.table, w.ids.capacity)
  {
    a.Inner? ==> Ids.Fine(w.ids, a.a)
  }

  /**
   The conditions on flushes and on tails given up on: when a ring is found empty, its thread has no batch in hand from
   before the floor, and when the reader gives up on a tail, that batch is not from before it. A flush may begin and end
   at any other time, and one that began before its thread's tail was read must have pushed its batch by then.
   */
  predicate NothingMissed(w: World, a: Action) {
    && (a.FoundEmpty? && w.rec.Scans? && a.t in w.detached ==> Covered(w.rec.low, w.detached[a.t]))
    && (a.SkipTail? && w.rec.Tails? && a.t in w.live ==> Covered(w.rec.low, w.live[a.t]))
  }

  /** The runs the guarantee is about. */
  predicate Undisturbed(w: World, a: Action)
    requires Enabled(w, a) && Valid(w.ids.table, w.ids.capacity)
  {
    Fine(w, a) && NothingMissed(w, a)
  }

  // ----- one event across one step of the id machine -----

  lemma AllocateSparesEvent(s: Ids.State, t: nat, peak: nat, e: Ev)
    requires Ids.Inv(s) && Ids.Enabled(s, Ids.Allocate(t)) && Ids.Allocated(s, t).1.Some?
    requires s.threads[t].pc.floor <= peak && EvGood(s, peak, e)
    ensures EvGood(Ids.Step(s, Ids.Allocate(t)), peak, e)
  {
    var th := s.threads[t];
    var id := Ids.Allocated(s, t).1.value;
    if th.key !in s.table.ids {
      InsertReusesOnlyBelowFloor(s.table, th.key, s.alive[th.key], th.pc.floor, s.capacity);
      hide Valid, Insert;
      forall f | f in s.table.free && f.id == e.id ensures peak <= f.at {
        assert f == Freed(e.id, f.at);
      }
    }
  }

  lemma DyingSparesEvent(s: Ids.State, a: Ids.Action, peak: nat, e: Ev)
    requires Ids.Inv(s) && Ids.Enabled(s, a) && (a.StartDestroy? || a.Remove? || a.Bump?)
    requires peak <= s.clock && EvGood(s, peak, e)
    ensures EvGood(Ids.Step(s, a), peak, e)
  {
    hide Valid;
  }

  lemma IdStepSparesEvent(s: Ids.State, a: Ids.Action, peak: nat, e: Ev)
    requires Ids.Inv(s) && Ids.Enabled(s, a) && (a.Allocate? ==> s.threads[a.t].pc.floor <= peak)
    requires peak <= s.clock && EvGood(s, peak, e)
    ensures EvGood(Ids.Step(s, a), peak, e)
  {
    if a.Allocate? && Ids.Allocated(s, a.t).1.Some? {
      AllocateSparesEvent(s, a.t, peak, e);
    } else if a.Allocate? {
      InsertKeepsValid(s.table, s.threads[a.t].key, s.alive[s.threads[a.t].key], s.threads[a.t].pc.floor, s.capacity);
      hide Valid, Insert;
    } else if a.StartDestroy? || a.Remove? || a.Bump? {
      DyingSparesEvent(s, a, peak, e);
    } else {
      hide Valid;
    }
  }

  /** A pushed event carries the id of an object that is alive and not dying. */
  lemma PushedIsGood(w: World, t: nat)
    requires Intact(w) && CanPush(w, t)
    ensures EvGood(w.ids, w.peak, Pushed(w, t))
    ensures Pushed(w, t).ticks <= Pushed(w, t).at == w.ids.clock
  {
    Ids.UsedIdIsCurrent(w.ids, t);
    var th, e := w.ids.threads[t], Pushed(w, t);
    assert InUse(w.ids.table, e.id);
    forall f | f in w.ids.table.free ensures f.id != e.id {
      var i :| 0 <= i < |w.ids.table.free| && w.ids.table.free[i] == f;
      assert IsFree(w.ids.table, w.ids.table.free[i].id);
    }
  }

  // ----- every stored event across a step -----

  /** If each good event stays good, so does everything stored. */
  lemma StoreStays(w: World, ids: Ids.State, peak: nat)
    requires StoreGood(w)
    requires forall e :: EvGood(w.ids, w.peak, e) ==> EvGood(ids, peak, e)
    ensures StoreGood(w.(ids := ids, peak := peak))
  {
    hide EvGood;
    var u := w.(ids := ids, peak := peak);
    forall h | HeldGood(w.ids, w.peak, h) ensures HeldGood(ids, peak, h) {
    }
  }

  lemma InnerStep(w: World, b: Ids.Action)
    requires Intact(w) && Enabled(w, Inner(b)) && Fine(w, Inner(b))
    ensures Intact(Step(w, Inner(b)))
  {
    Ids.StepKeepsInv(w.ids, b);
    var ids := Ids.Step(w.ids, b);
    forall e | EvGood(w.ids, w.peak, e) ensures EvGood(ids, w.peak, e) {
      IdStepSparesEvent(w.ids, b, w.peak, e);
    }
    StoreStays(w, ids, w.peak);
    InnerKeepsPeak(w, b);
  }

  lemma InnerKeepsPeak(w: World, b: Ids.Action)
    requires Intact(w) && Enabled(w, Inner(b))
    ensures PeakInv(Step(w, Inner(b)))
  {
    hide Valid, Ids.Inv, StoreGood;
  }

  lemma PushKeepsEvents(w: World, t: nat)
    requires Intact(w) && CanPush(w, t)
    ensures var ids := Ids.Step(w.ids, Ids.Push(t));
            Ids.Inv(ids) && forall e :: EvGood(w.ids, w.peak, e) ==> EvGood(ids, w.peak, e)
  {
    Ids.StepKeepsInv(w.ids, Ids.Push(t));
    forall e | EvGood(w.ids, w.peak, e) ensures EvGood(Ids.Step(w.ids, Ids.Push(t)), w.peak, e) {
      IdStepSparesEvent(w.ids, Ids.Push(t), w.peak, e);
    }
  }

  lemma PushKeepsPeak(w: World, a: Action)
    requires Intact(w) && Enabled(w, a) && (a.Append? || a.Renew?)
    ensures PeakInv(Step(w, a))
  {
    hide Valid, Ids.Inv, StoreGood;
  }

  /** The batch a push leaves live, and everything else stored, judged by the id machine after the push. */
  lemma PushedStore(w: World, t: nat, live: Held)
    requires Intact(w) && CanPush(w, t)
    requires Based(live)
    requires live.events == [Pushed(w, t)] || (t in w.live && live.events == w.live[t].events + [Pushed(w, t)])
    ensures var ids := Ids.Step(w.ids, Ids.Push(t));
            Ids.Inv(ids) && StoreGood(w.(ids := ids)) && HeldGood(ids, w.peak, live)
  {
    var ids, e := Ids.Step(w.ids, Ids.Push(t)), Pushed(w, t);
    PushedIsGood(w, t);
    PushKeepsEvents(w, t);
    StoreStays(w, ids, w.peak);
    assert EvGood(ids, w.peak, e);
    hide EvGood, Valid, Ids.Inv;
    if t in w.live {
      assert HeldGood(ids, w.peak, w.(ids := ids).live[t]);
    }
  }

  lemma AppendStep(w: World, t: nat)
    requires Intact(w) && Enabled(w, Append(t))
    ensures Intact(Step(w, Append(t)))
  {
    var u := Step(w, Append(t));
    PushedIsGood(w, t);
    assert Based(u.live[t]) by {
      assert HeldGood(w.ids, w.peak, w.live[t]);
    }
    PushedStore(w, t, u.live[t]);
    PushKeepsPeak(w, Append(t));
    hide HeldGood, Valid, Ids.Inv, PeakInv, CanPush;
  }

  /** A good batch in hand and good rings make good rings, whether the batch is taken or refused. */
  lemma ShippedGood(w: World, ids: Ids.State, t: nat, batch: Held, drop: bool)
    requires HeldGood(ids, w.peak, batch)
    requires forall r, i :: r in w.rings && 0 <= i < |w.rings[r]| ==> HeldGood(ids, w.peak, w.rings[r][i])
    ensures var rings := Shipped(w, t, batch, drop);
            forall r, i :: r in rings && 0 <= i < |rings[r]| ==> HeldGood(ids, w.peak, rings[r][i])
  {
    hide HeldGood;
  }

  lemma RenewStep(w: World, t: nat, drop: bool)
    requires Intact(w) && Enabled(w, Renew(t, drop))
    ensures Intact(Step(w, Renew(t, drop)))
  {
    var u := Step(w, Renew(t, drop));
    PushedIsGood(w, t);
    PushedStore(w, t, u.live[t]);
    PushKeepsPeak(w, Renew(t, drop));
    RenewedStore(w, u, t, drop);
  }

  lemma RenewedStore(w: World, u: World, t: nat, drop: bool)
    requires StoreGood(w.(ids := u.ids)) && t in u.live && HeldGood(u.ids, w.peak, u.live[t])
    requires u == w.(ids := u.ids, live := w.live[t := u.live[t]],
                     rings := if t in w.live then Shipped(w, t, w.live[t], drop) else w.rings)
    ensures StoreGood(u)
  {
    hide HeldGood, EventsGood;
    if t in w.live {
      ShippedGood(w, u.ids, t, w.(ids := u.ids).live[t], drop);
    }
    hide Shipped;
  }

  lemma FlushStep(w: World, a: Action)
    requires Intact(w) && Enabled(w, a) && (a.Detach? || a.Attach?)
    ensures Intact(Step(w, a))
  {
    hide EvGood, Valid, Ids.Inv;
    if a.Detach? {
      assert EventsGood(w.ids, w.peak, []);
    }
  }

  lemma TransitStep(w: World, a: Action)
    requires Intact(w) && Enabled(w, a) && (a.Pop? || a.Evict?)
    ensures Intact(Step(w, a))
  {
    hide EvGood, Valid, Ids.Inv;
  }

  lemma FloorStep(w: World, a: Action)
    requires Intact(w) && Enabled(w, a) && (a.FloorStart? || a.ReadTail? || a.SkipTail? || a.TailsRead? || a.FoundEmpty?)
    ensures Intact(Step(w, a))
  {
    hide HeldGood, EventsGood, Valid, Ids.Inv;
  }

  lemma WriteStep(w: World, a: Action)
    requires Intact(w) && Enabled(w, a)
    requires a.WriteStart? || a.WriteTail? || a.WriteBatch? || a.WriteEnd?
    ensures Intact(Step(w, a))
  {
    hide EvGood, Valid, Ids.Inv, Based;
    match a
    case WriteTail(t) => assert HeldGood(w.ids, w.peak, w.live[t]);
    case WriteBatch(i) => assert HeldGood(w.ids, w.peak, w.history[i]);
    case _ =>
  }

  // ----- publishing a floor -----

  /** An event is somewhere it can still be written from. */
  ghost predicate Stored(w: World, e: Ev) {
    || (exists t :: t in w.live && e in w.live[t].events)
    || (exists t, i :: t in w.rings && 0 <= i < |w.rings[t]| && e in w.rings[t][i].events)
    || (exists t :: t in w.detached && e in w.detached[t].events)
    || (exists i :: 0 <= i < |w.history| && e in w.history[i].events)
    || (w.rec.Writing? && e in w.rec.events)
  }

  /** The id was given up before the floor, or is being given up with a time before it. */
  ghost predicate GivenUpBefore(s: Ids.State, id: nat, floor: nat) {
    || (exists f :: f in s.table.free && f.id == id && f.at < floor)
    || (exists key :: key in s.dying && key in s.table.ids && s.table.ids[key] == id && s.dying[key].at < floor)
  }

  function NextFloor(w: World): nat
    requires w.rec.Scans?
  {
    LowestBase(w.rec.low, w.history)
  }

  /** The floor about to be published lets go of no stored event's id. */
  ghost predicate Spares(w: World)
    requires w.rec.Scans?
  {
    forall e :: Stored(w, e) ==> !GivenUpBefore(w.ids, e.id, NextFloor(w))
  }

  function Raised(peak: nat, floor: nat): nat {
    if floor > peak then floor else peak
  }

  lemma RaisedIff(s: Ids.State, peak: nat, floor: nat, e: Ev)
    requires EvGood(s, peak, e)
    ensures EvGood(s.(floor := floor), Raised(peak, floor), e) <==> !GivenUpBefore(s, e.id, floor)
  {
    if GivenUpBefore(s, e.id, floor) {
      if f :| f in s.table.free && f.id == e.id && f.at < floor {
        assert Freed(e.id, f.at) in s.table.free;
      }
    } else {
      forall at | Freed(e.id, at) in s.table.free ensures floor <= at {
        var f := Freed(e.id, at);
        assert f.id == e.id && f.at == at;
      }
    }
  }

  /** Everything stored is good exactly when each stored event is, batches being based. */
  lemma StoreGoodIff(w: World)
    requires forall t :: t in w.live ==> Based(w.live[t])
    requires forall t, i :: t in w.rings && 0 <= i < |w.rings[t]| ==> Based(w.rings[t][i])
    requires forall t :: t in w.detached ==> Based(w.detached[t])
    requires forall i :: 0 <= i < |w.history| ==> Based(w.history[i])
    ensures StoreGood(w) <==> forall e :: Stored(w, e) ==> EvGood(w.ids, w.peak, e)
  {
    hide EvGood, Based;
    if forall e :: Stored(w, e) ==> EvGood(w.ids, w.peak, e) {
      StoredIsGood(w);
    } else {
      forall e | StoreGood(w) && Stored(w, e) ensures EvGood(w.ids, w.peak, e) {
        GoodIfStored(w, e);
      }
    }
  }

  lemma StoredIsGood(w: World)
    requires forall t :: t in w.live ==> Based(w.live[t])
    requires forall t, i :: t in w.rings && 0 <= i < |w.rings[t]| ==> Based(w.rings[t][i])
    requires forall t :: t in w.detached ==> Based(w.detached[t])
    requires forall i :: 0 <= i < |w.history| ==> Based(w.history[i])
    requires forall e :: Stored(w, e) ==> EvGood(w.ids, w.peak, e)
    ensures StoreGood(w)
  {
    hide EvGood, Based;
    forall t, k | t in w.live && 0 <= k < |w.live[t].events| ensures EvGood(w.ids, w.peak, w.live[t].events[k]) {
      assert Stored(w, w.live[t].events[k]);
    }
    forall t, i, k | t in w.rings && 0 <= i < |w.rings[t]| && 0 <= k < |w.rings[t][i].events|
      ensures EvGood(w.ids, w.peak, w.rings[t][i].events[k])
    {
      assert Stored(w, w.rings[t][i].events[k]);
    }
    forall t, k | t in w.detached && 0 <= k < |w.detached[t].events| ensures EvGood(w.ids, w.peak, w.detached[t].events[k]) {
      assert Stored(w, w.detached[t].events[k]);
    }
    forall i, k | 0 <= i < |w.history| && 0 <= k < |w.history[i].events| ensures EvGood(w.ids, w.peak, w.history[i].events[k]) {
      assert Stored(w, w.history[i].events[k]);
    }
    forall k | w.rec.Writing? && 0 <= k < |w.rec.events| ensures EvGood(w.ids, w.peak, w.rec.events[k]) {
      assert Stored(w, w.rec.events[k]);
    }
  }

  lemma GoodIfHeld(s: Ids.State, peak: nat, h: Held, e: Ev)
    requires HeldGood(s, peak, h) && e in h.events
    ensures EvGood(s, peak, e)
  {
    hide EvGood;
  }

  lemma GoodIfStored(w: World, e: Ev)
    requires StoreGood(w) && Stored(w, e)
    ensures EvGood(w.ids, w.peak, e)
  {
    hide HeldGood, EvGood;
    if t :| t in w.live && e in w.live[t].events {
      GoodIfHeld(w.ids, w.peak, w.live[t], e);
    } else if t, i :| t in w.rings && 0 <= i < |w.rings[t]| && e in w.rings[t][i].events {
      GoodIfHeld(w.ids, w.peak, w.rings[t][i], e);
    } else if t :| t in w.detached && e in w.detached[t].events {
      GoodIfHeld(w.ids, w.peak, w.detached[t], e);
    } else if i :| 0 <= i < |w.history| && e in w.history[i].events {
      GoodIfHeld(w.ids, w.peak, w.history[i], e);
    }
  }

  lemma PublishKeepsRest(w: World)
    requires Intact(w) && Enabled(w, Publish)
    ensures var u := Step(w, Publish);
            && Ids.Inv(u.ids) && PeakInv(u)
            && u == w.(ids := w.ids.(floor := NextFloor(w)), rec := Resting, peak := Raised(w.peak, NextFloor(w)))
  {
    Ids.StepKeepsInv(w.ids, Ids.SetFloor(NextFloor(w)));
    hide Valid, Ids.Inv, StoreGood;
  }

  lemma SameStored(w: World, u: World)
    requires u == w.(ids := u.ids, rec := u.rec, peak := u.peak) && !u.rec.Writing? && !w.rec.Writing?
    ensures forall e :: Stored(u, e) <==> Stored(w, e)
  {
  }

  /**
   Exactly when a floor is safe: publishing it keeps every stored event good if and only if it lets go of no stored
   event's id. What a flush has in hand is stored.
   */
  lemma PublishKeepsIntactIff(w: World)
    requires Intact(w) && Enabled(w, Publish)
    ensures Intact(Step(w, Publish)) <==> Spares(w)
  {
    var u, floor := Step(w, Publish), NextFloor(w);
    PublishKeepsRest(w);
    SameStored(w, u);
    assert StoreGood(w);
    StoreGoodIff(u);
    StoreGoodIff(w);
    hide StoreGood, EvGood, GivenUpBefore, Ids.Inv, Valid, PeakInv, Step, Stored;
    forall e | Stored(w, e)
      ensures EvGood(u.ids, u.peak, e) <==> !GivenUpBefore(w.ids, e.id, floor)
    {
      RaisedIff(w.ids, w.peak, floor, e);
    }
  }

  /** Each step keeps every stored event good: a publication if it spares them, everything else always. */
  lemma StepKeepsIntact(w: World, a: Action)
    requires Intact(w) && Enabled(w, a) && Fine(w, a) && (a.Publish? ==> Spares(w))
    ensures Intact(Step(w, a))
  {
    hide Intact, Spares, Fine;
    match a
    case Inner(b) => InnerStep(w, b);
    case Append(t) => AppendStep(w, t);
    case Renew(t, drop) => RenewStep(w, t, drop);
    case Detach(_) => FlushStep(w, a);
    case Attach(_, _) => FlushStep(w, a);
    case Pop(_) => TransitStep(w, a);
    case Evict => TransitStep(w, a);
    case FloorStart => FloorStep(w, a);
    case ReadTail(_) => FloorStep(w, a);
    case SkipTail(_) => FloorStep(w, a);
    case TailsRead => FloorStep(w, a);
    case FoundEmpty(_) => FloorStep(w, a);
    case Publish => PublishKeepsIntactIff(w);
    case WriteStart => WriteStep(w, a);
    case WriteTail(_) => WriteStep(w, a);
    case WriteBatch(_) => WriteStep(w, a);
    case WriteEnd => WriteStep(w, a);
  }

  // ----- the floor computation -----

  lemma PushKeepsFloor(w: World, a: Action)
    requires Inv(w) && Enabled(w, a) && (a.Append? || a.Renew?)
    ensures FloorInv(Step(w, a))
  {
    hide Valid, Ids.Inv, StoreGood;
  }

  lemma FlushKeepsFloor(w: World, a: Action)
    requires Inv(w) && Enabled(w, a) && (a.Detach? || a.Attach?)
    ensures FloorInv(Step(w, a))
  {
    hide Valid, Ids.Inv, StoreGood;
  }

  lemma ReadingKeepsFloor(w: World, a: Action)
    requires Inv(w) && Enabled(w, a) && NothingMissed(w, a) && (a.ReadTail? || a.SkipTail? || a.TailsRead? || a.FoundEmpty?)
    ensures FloorInv(Step(w, a))
  {
    hide Valid, Ids.Inv, EvGood;
    if a.ReadTail? && a.t in w.live {
      assert HeldGood(w.ids, w.peak, w.live[a.t]);
    }
  }

  lemma StepKeepsFloor(w: World, a: Action)
    requires Inv(w) && Enabled(w, a) && NothingMissed(w, a)
    ensures FloorInv(Step(w, a))
  {
    if a.Append? || a.Renew? {
      PushKeepsFloor(w, a);
    } else if a.Detach? || a.Attach? {
      FlushKeepsFloor(w, a);
    } else if a.ReadTail? || a.SkipTail? || a.TailsRead? || a.FoundEmpty? {
      ReadingKeepsFloor(w, a);
    } else {
      hide Valid, Ids.Inv, StoreGood;
    }
  }

  /** When the floor is published every stored event was pushed at or after it. */
  lemma PublishCovers(w: World)
    requires Inv(w) && Enabled(w, Publish)
    ensures forall e :: Stored(w, e) ==> NextFloor(w) <= e.at
  {
    hide EvGood, Valid, Ids.Inv;
    var floor := NextFloor(w);
    assert forall t :: t in w.live ==> Covered(floor, w.live[t]);
    assert forall t :: t in w.detached ==> Covered(floor, w.detached[t]);
    assert forall t, i :: t in w.rings && 0 <= i < |w.rings[t]| ==> Covered(floor, w.rings[t][i]);
    forall i | 0 <= i < |w.history| ensures Covered(floor, w.history[i]) {
      assert HeldGood(w.ids, w.peak, w.history[i]);
    }
  }

  /** So the floor spares them: no id was given up before its event was pushed. */
  lemma CoveredIsSpared(w: World)
    requires Inv(w) && Enabled(w, Publish)
    ensures Spares(w)
  {
    PublishCovers(w);
    hide HeldGood, Valid, Ids.Inv, FloorInv, Stored, NextFloor;
    forall e | Stored(w, e) ensures !GivenUpBefore(w.ids, e.id, NextFloor(w)) {
      GoodIfStored(w, e);
      assert EvGood(w.ids, w.peak, e);
      forall f | f in w.ids.table.free && f.id == e.id ensures NextFloor(w) <= f.at {
        assert Freed(e.id, f.at) == f;
      }
    }
  }

  lemma StepKeepsInv(w: World, a: Action)
    requires Inv(w) && Enabled(w, a) && Undisturbed(w, a)
    ensures Inv(Step(w, a))
  {
    if a.Publish? {
      CoveredIsSpared(w);
    }
    StepKeepsFloor(w, a);
    hide FloorInv, Spares, Enabled;
    StepKeepsIntact(w, a);
  }

  // ----- whole runs -----

  predicate Initial(w: World) {
    && Ids.Initial(w.ids) && w.ids.floor == 0 && w.peak == 0 && w.rec.Resting?
    && w.live == map[] && w.rings == map[] && w.detached == map[] && w.history == []
  }

  /** Runs in which nothing is missed by a floor. */
  ghost predicate Runs(w: World, actions: seq<Action>)
    decreases |actions|
  {
    actions != [] ==>
      && Enabled(w, actions[0]) && Valid(w.ids.table, w.ids.capacity) && Undisturbed(w, actions[0])
      && Runs(Step(w, actions[0]), actions[1..])
  }

  /** Runs in which every floor published spares what is stored, however the flushes fall. */
  ghost predicate SparingRuns(w: World, actions: seq<Action>)
    decreases |actions|
  {
    actions != [] ==>
      && Enabled(w, actions[0]) && Valid(w.ids.table, w.ids.capacity) && Fine(w, actions[0])
      && (actions[0].Publish? ==> Spares(w))
      && SparingRuns(Step(w, actions[0]), actions[1..])
  }

  /** From one state to another, by actions under the condition on allocations only. */
  ghost predicate Follows(w: World, actions: seq<Action>, u: World)
    decreases |actions|
  {
    if actions == [] then w == u
    else
      && Enabled(w, actions[0]) && Valid(w.ids.table, w.ids.capacity) && Fine(w, actions[0])
      && Follows(Step(w, actions[0]), actions[1..], u)
  }

  predicate Resolves(w: World, e: Ev) {
    e.id < |w.ids.table.info| && w.ids.table.info[e.id] == e.code
  }

  /** Whatever is found missing, a run whose floors spare what is stored keeps it good. */
  lemma {:induction false} SparingRunsKeepIntact(w: World, actions: seq<Action>, u: World)
    requires Intact(w) && SparingRuns(w, actions) && Follows(w, actions, u)
    ensures Intact(u)
    decreases |actions|
  {
    if actions != [] {
      StepKeepsIntact(w, actions[0]);
      hide Intact, Step, Spares, Fine, Enabled;
      SparingRunsKeepIntact(Step(w, actions[0]), actions[1..], u);
    }
  }

  /** The condition on flushes is enough for that. */
  lemma {:induction false} UndisturbedRunsSpare(w: World, actions: seq<Action>)
    requires Inv(w) && Runs(w, actions)
    ensures SparingRuns(w, actions)
    decreases |actions|
  {
    if actions != [] {
      if actions[0].Publish? {
        CoveredIsSpared(w);
      }
      StepKeepsInv(w, actions[0]);
      hide Inv, Step, Spares, Fine, Enabled, NothingMissed;
      UndisturbedRunsSpare(Step(w, actions[0]), actions[1..]);
    }
  }

  lemma InitialIsIntact(w: World)
    requires Initial(w)
    ensures Inv(w)
  {
  }

  /**
   Recycling safety: in every state of every run in which no batch from before a floor is missed, in a flush's hand or
   by a reader giving up, each event in a live batch, a ring, a batch being flushed, the recorder's history or a dump being
   written resolves to the object it was recorded for.
   */
  lemma StoredEventsResolve(w: World, actions: seq<Action>, u: World, e: Ev)
    requires Initial(w) && Runs(w, actions) && Follows(w, actions, u) && Stored(u, e)
    ensures Resolves(u, e)
  {
    InitialIsIntact(w);
    UndisturbedRunsSpare(w, actions);
    SparedEventsResolve(w, actions, u, e);
  }

  /** The same for every run whose floors spare what is stored. */
  lemma SparedEventsResolve(w: World, actions: seq<Action>, u: World, e: Ev)
    requires Initial(w) && SparingRuns(w, actions) && Follows(w, actions, u) && Stored(u, e)
    ensures Resolves(u, e)
  {
    InitialIsIntact(w);
    hide Initial, SparingRuns, Follows, Stored;
    SparingRunsKeepIntact(w, actions, u);
    GoodIfStored(u, e);
  }

  // ----- which floor is published -----

  /** The bases of the live batches with events that a run reads. */
  function BasesRead(w: World, actions: seq<Action>, u: World): seq<nat>
    requires Follows(w, actions, u)
    decreases |actions|
  {
    if actions == [] then []
    else
      var a := actions[0];
      (if a.ReadTail? && a.t in w.live && w.live[a.t].events != [] then [w.live[a.t].base] else [])
      + BasesRead(Step(w, a), actions[1..], u)
  }

  function Bases(history: seq<Held>): seq<nat> {
    seq(|history|, i requires 0 <= i < |history| => history[i].base)
  }

  predicate IsLowest(f: nat, low: nat, bases: seq<nat>) {
    f <= low && (forall b :: b in bases ==> f <= b) && (f == low || f in bases)
  }

  lemma LowestOfMore(f: nat, mid: nat, low: nat, first: seq<nat>, rest: seq<nat>)
    requires IsLowest(mid, low, first) && IsLowest(f, mid, rest)
    ensures IsLowest(f, low, first + rest)
  {
  }

  lemma {:induction false} LowestBaseIs(low: nat, history: seq<Held>)
    ensures IsLowest(LowestBase(low, history), low, Bases(history))
    decreases |history|
  {
    if history != [] {
      var front, last := history[..|history| - 1], history[|history| - 1];
      LowestBaseIs(low, front);
      assert Bases(history) == Bases(front) + [last.base];
    }
  }

  lemma LowAfter(w: World, a: Action)
    requires Flooring(w.rec) && !a.Publish? && Enabled(w, a) && Valid(w.ids.table, w.ids.capacity)
    ensures var read := if a.ReadTail? && a.t in w.live && w.live[a.t].events != [] then [w.live[a.t].base] else [];
            Flooring(Step(w, a).rec) && IsLowest(Step(w, a).rec.low, w.rec.low, read)
  {
  }

  lemma {:induction false} LowFollowsReads(w: World, actions: seq<Action>, u: World)
    requires Flooring(w.rec) && Follows(w, actions, u) && forall i :: 0 <= i < |actions| ==> !actions[i].Publish?
    ensures Flooring(u.rec) && IsLowest(u.rec.low, w.rec.low, BasesRead(w, actions, u))
    decreases |actions|
  {
    if actions != [] {
      var next, a := Step(w, actions[0]), actions[0];
      LowAfter(w, a);
      hide Step, Enabled, Valid, Fine;
      LowFollowsReads(next, actions[1..], u);
      var read := if a.ReadTail? && a.t in w.live && w.live[a.t].events != [] then [w.live[a.t].base] else [];
      LowestOfMore(u.rec.low, next.rec.low, w.rec.low, read, BasesRead(next, actions[1..], u));
    }
  }

  /**
   The floor published is the lowest of the clock when its computation began, the bases of the tails read since, and
   the bases in the history at the end.
   */
  lemma FloorIsLowest(w: World, actions: seq<Action>, u: World)
    requires w.rec.Resting? && Valid(w.ids.table, w.ids.capacity) && Follows(Step(w, FloorStart), actions, u)
    requires forall i :: 0 <= i < |actions| ==> !actions[i].Publish?
    requires Enabled(u, Publish) && Valid(u.ids.table, u.ids.capacity)
    ensures IsLowest(Step(u, Publish).ids.floor, w.ids.clock, BasesRead(Step(w, FloorStart), actions, u) + Bases(u.history))
  {
    LowFollowsReads(Step(w, FloorStart), actions, u);
    LowestBaseIs(u.rec.low, u.history);
    hide Follows, Valid, Fine;
    LowestOfMore(LowestBase(u.rec.low, u.history), u.rec.low, w.ids.clock,
                 BasesRead(Step(w, FloorStart), actions, u), Bases(u.history));
  }
}
