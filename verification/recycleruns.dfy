/** What a floor that lets go of a stored event's id leads to, and a run that gets there. */
module RecyclingRuns {
  import opened Words
  import opened InternTable
  import CodeCache
  import opened Recycling
  import IdRuns = CodeRuns
  import Ids = CodeIds

  // ----- runs, step by step -----

  lemma First(w: World, a: Action, rest: seq<Action>, u: World)
    requires Enabled(w, a) && Valid(w.ids.table, w.ids.capacity) && Fine(w, a) && Follows(Step(w, a), rest, u)
    ensures Follows(w, [a] + rest, u)
  {
    assert ([a] + rest)[1..] == rest;
  }

  lemma Begins(w: World, run: seq<Action>, v: World)
    requires Follows(w, run, v)
    ensures run == [] ==> w == v
    ensures run != [] ==>
              && Enabled(w, run[0]) && Valid(w.ids.table, w.ids.capacity) && Fine(w, run[0])
              && Follows(Step(w, run[0]), run[1..], v)
  {
  }

  lemma {:induction false} Then(w: World, first: seq<Action>, v: World, second: seq<Action>, u: World)
    requires Follows(w, first, v) && Follows(v, second, u)
    ensures Follows(w, first + second, u)
    decreases |first|
  {
    hide Follows, Enabled, Step, Fine, Valid;
    Begins(w, first, v);
    if first == [] {
      assert first + second == second;
    } else {
      assert first + second == [first[0]] + (first[1..] + second);
      Then(Step(w, first[0]), first[1..], v, second, u);
      First(w, first[0], first[1..] + second, u);
    }
  }

  lemma Same(w: World)
    ensures Follows(w, [], w)
  {
  }

  function Inners(actions: seq<Ids.Action>): seq<Action> {
    if actions == [] then [] else [Inner(actions[0])] + Inners(actions[1..])
  }

  /** A run of the id machine that neither pushes nor sets a floor is a run of the whole. */
  lemma {:induction false} Lifts(w: World, actions: seq<Ids.Action>, ids: Ids.State)
    requires IdRuns.Path(w.ids, actions, ids) && IdRuns.Apart(actions)
    ensures Follows(w, Inners(actions), w.(ids := ids))
    decreases |actions|
  {
    if actions == [] {
      Same(w);
    } else {
      var a, rest := actions[0], actions[1..];
      var v := w.(ids := Ids.Step(w.ids, a));
      assert a in actions && IdRuns.Apart(rest);
      hide Ids.Step, Ids.Enabled, Ids.Fine, Valid;
      assert IdRuns.Path(v.ids, rest, ids);
      Lifts(v, rest, ids);
      assert Enabled(w, Inner(a)) && Fine(w, Inner(a)) && Step(w, Inner(a)) == v;
      hide IdRuns.Path, Step, Enabled, Fine, Follows;
      First(w, Inner(a), Inners(rest), w.(ids := ids));
    }
  }

  // ----- one more object takes an id -----

  /** The world after thread `o` has recorded a new object at `key` and pushed the event. */
  ghost predicate Took(w: World, o: nat, key: u64, code: CodeInfo, u: World)
    requires Valid(w.ids.table, w.ids.capacity)
  {
    var (table, got) := Insert(w.ids.table, key, code, w.ids.floor, w.ids.capacity);
    && got.Some? && Ids.Inv(u.ids) && u.ids.table == table && u.ids.capacity == w.ids.capacity && u.ids.floor == w.ids.floor
    && u.ids.alive == w.ids.alive[key := code] && o in u.ids.threads && u.ids.threads[o].pc.Idle?
    && forall e :: Stored(w, e) ==> Stored(u, e)
  }

  lemma Takes(w: World, o: nat, key: u64, code: CodeInfo) returns (actions: seq<Action>, u: World)
    requires Ids.Inv(w.ids) && o in w.ids.threads && w.ids.threads[o].pc.Idle?
    requires key !in w.ids.alive && key != Ids.NOT_CACHED
    requires Insert(w.ids.table, key, code, w.ids.floor, w.ids.capacity).1.Some?
    ensures Follows(w, actions, u) && Took(w, o, key, code, u)
  {
    var inner := IdRuns.Gets(w.ids, o, key, code);
    var v := w.(ids := IdRuns.Got(w.ids, o, key, code));
    Lifts(w, inner, v.ids);
    StoredElsewhere(w, v);
    GotIs(w.ids, o, key, code);
    assert Valid(v.ids.table, v.ids.capacity);
    hide Valid, Insert, Ids.Inv, IdRuns.Got, Stored, Follows;
    u := PushesIt(v, o);
    actions := Inners(inner) + ([Renew(o, false)] + []);
    Then(w, Inners(inner), v, [Renew(o, false)] + [], u);
  }

  lemma GotIs(s: Ids.State, o: nat, key: u64, code: CodeInfo)
    requires o in s.threads && Valid(s.table, s.capacity) && Insert(s.table, key, code, s.floor, s.capacity).1.Some?
    ensures var u := IdRuns.Got(s, o, key, code);
            && u.table == Insert(s.table, key, code, s.floor, s.capacity).0 && u.alive == s.alive[key := code]
            && u.capacity == s.capacity && u.floor == s.floor
            && o in u.threads && u.threads[o].pc.Using? && u.threads[o].key in u.alive
  {
    hide Valid, Insert;
  }

  lemma PushesIt(v: World, o: nat) returns (u: World)
    requires Ids.Inv(v.ids) && CanPush(v, o)
    ensures Follows(v, [Renew(o, false)] + [], u) && Ids.Inv(u.ids)
    ensures u.ids.table == v.ids.table && u.ids.alive == v.ids.alive && u.ids.capacity == v.ids.capacity
    ensures u.ids.floor == v.ids.floor && o in u.ids.threads && u.ids.threads[o].pc.Idle?
    ensures forall e :: Stored(v, e) ==> Stored(u, e)
  {
    assert Valid(v.ids.table, v.ids.capacity);
    Ids.StepKeepsInv(v.ids, Ids.Push(o));
    u := Step(v, Renew(o, false));
    RenewKeepsStored(v, o);
    Same(u);
    hide Valid, Ids.Inv, Stored, Follows;
    First(v, Renew(o, false), [], u);
  }

  lemma StoredElsewhere(w: World, v: World)
    requires v == w.(ids := v.ids)
    ensures forall e :: Stored(w, e) <==> Stored(v, e)
  {
  }

  lemma RenewKeepsStored(w: World, o: nat)
    requires Enabled(w, Renew(o, false)) && Valid(w.ids.table, w.ids.capacity)
    ensures forall e :: Stored(w, e) ==> Stored(Step(w, Renew(o, false)), e)
  {
    var u := Step(w, Renew(o, false));
    hide Valid, Ids.Step, CanPush;
    forall e | Stored(w, e) ensures Stored(u, e) {
      if t :| t in w.live && e in w.live[t].events {
        if t == o {
          assert u.rings[o][|Ring(w, o)|] == w.live[o];
        } else {
          assert u.live[t] == w.live[t];
        }
      } else if t, i :| t in w.rings && 0 <= i < |w.rings[t]| && e in w.rings[t][i].events {
        assert t in u.rings && u.rings[t][i] == w.rings[t][i];
      }
    }
  }

  // ----- until the stored event's id goes -----

  /** Addresses where nothing lives, no two the same. */
  predicate Vacant(keys: seq<u64>, alive: map<u64, CodeInfo>) {
    && (forall i :: 0 <= i < |keys| ==> keys[i] !in alive && keys[i] != Ids.NOT_CACHED)
    && forall i, j :: 0 <= i < j < |keys| ==> keys[i] != keys[j]
  }

  function Ahead(t: Table, capacity: nat): int {
    capacity - |t.info| + |t.free|
  }

  /** Another id than `e`'s was taken: its entry stays on the list, and fewer are ahead of it. */
  lemma OneFewerAhead(t: Table, key: u64, code: CodeInfo, floor: nat, capacity: nat, f: Freed)
    requires Valid(t, capacity) && key !in t.ids && f in t.free && f.at < floor && f.id < |t.info|
    ensures var (u, got) := Insert(t, key, code, floor, capacity);
            && got.Some?
            && (got.value != f.id ==> f in u.free && f.id < |u.info| && Ahead(u, capacity) == Ahead(t, capacity) - 1)
            && (got.value == f.id ==> |u.info| == |t.info| && u.info[f.id] == code)
  {
    InsertReusesOnlyBelowFloor(t, key, code, floor, capacity);
    InsertCounts(t, key, code, floor, capacity);
    hide Insert, Valid;
  }

  lemma InsertCounts(t: Table, key: u64, code: CodeInfo, floor: nat, capacity: nat)
    requires Valid(t, capacity) && key !in t.ids && Insert(t, key, code, floor, capacity).1.Some?
    ensures var (u, got) := Insert(t, key, code, floor, capacity);
            Ahead(u, capacity) == Ahead(t, capacity) - 1 && (got.value < |t.info| ==> |u.info| == |t.info|)
  {
    if |t.info| == capacity {
      assert IsFree(t, t.free[FirstBelow(t.free, floor)].id);
    }
  }

  lemma Rest(keys: seq<u64>, alive: map<u64, CodeInfo>, code: CodeInfo)
    requires keys != [] && Vacant(keys, alive)
    ensures Vacant(keys[1..], alive[keys[0] := code])
  {
  }

  /**
   An id given up before a published floor goes, sooner or later, to another object: as long as a thread is idle and
   addresses are left, a run of new objects takes the ids in front of it and then it, while everything stored stays.
   */
  lemma {:induction false} IdIsReused(w: World, o: nat, keys: seq<u64>, f: Freed, e: Ev) returns (actions: seq<Action>, u: World)
    requires Ids.Inv(w.ids) && o in w.ids.threads && w.ids.threads[o].pc.Idle? && Vacant(keys, w.ids.alive)
    requires f in w.ids.table.free && f.id == e.id && f.at < w.ids.floor && Stored(w, e)
    requires |keys| >= Ahead(w.ids.table, w.ids.capacity)
    ensures Follows(w, actions, u) && Stored(u, e) && !Resolves(u, e)
    decreases |keys|
  {
    var code := e.code + 1;
    var t, capacity := w.ids.table, w.ids.capacity;
    FreeIdIsAllocated(t, capacity, f);
    assert keys[0] !in t.ids;
    OneFewerAhead(t, keys[0], code, w.ids.floor, capacity, f);
    var taken, v := Takes(w, o, keys[0], code);
    Rest(keys, w.ids.alive, code);
    hide Valid, Insert, Ids.Inv, Stored, Follows, Vacant;
    if Insert(t, keys[0], code, w.ids.floor, capacity).1.value == e.id {
      actions, u := taken, v;
    } else {
      var more;
      more, u := IdIsReused(v, o, keys[1..], f, e);
      Then(w, taken, v, more, u);
      actions := taken + more;
    }
  }

  lemma FreeIdIsAllocated(t: Table, capacity: nat, f: Freed)
    requires Valid(t, capacity) && f in t.free
    ensures f.id < |t.info| && Ahead(t, capacity) > 0
  {
    var k :| 0 <= k < |t.free| && t.free[k] == f;
    assert IsFree(t, f.id);
  }

  /**
   A floor that does not spare what is stored does harm: from every state about to publish one there is a run after
   which a stored event resolves to another object, as long as a thread is idle and addresses are left.
   */
  lemma UnsparedIsReused(w: World, o: nat, keys: seq<u64>) returns (actions: seq<Action>, u: World, e: Ev)
    requires Intact(w) && Enabled(w, Publish) && !Spares(w)
    requires o in w.ids.threads && w.ids.threads[o].pc.Idle?
    requires Vacant(keys, w.ids.alive) && |keys| > Ahead(w.ids.table, w.ids.capacity)
    ensures Stored(w, e) && Follows(w, actions, u) && Stored(u, e) && !Resolves(u, e)
  {
    e :| Stored(w, e) && GivenUpBefore(w.ids, e.id, NextFloor(w));
    var v := Step(w, Publish);
    PublishKeepsRest(w);
    SameStored(w, v);
    assert Valid(w.ids.table, w.ids.capacity) && Fine(w, Publish);
    assert GivenUpBefore(v.ids, e.id, v.ids.floor);
    hide Valid, Stored, Follows, Vacant, Intact, LowestBase, Resolves, GivenUpBefore, Ahead, Spares, PeakInv, Step, Enabled, Fine;
    actions, u := GivenUpIsReused(v, o, keys, e);
    First(w, Publish, actions, u);
    actions := [Publish] + actions;
  }

  lemma GivenUpIsReused(w: World, o: nat, keys: seq<u64>, e: Ev) returns (actions: seq<Action>, u: World)
    requires Ids.Inv(w.ids) && o in w.ids.threads && w.ids.threads[o].pc.Idle? && Vacant(keys, w.ids.alive) && Stored(w, e)
    requires GivenUpBefore(w.ids, e.id, w.ids.floor) && |keys| > Ahead(w.ids.table, w.ids.capacity)
    ensures Follows(w, actions, u) && Stored(u, e) && !Resolves(u, e)
  {
    hide Ids.Inv, Valid, Stored, Follows, Vacant, Resolves, Ahead;
    if f :| f in w.ids.table.free && f.id == e.id && f.at < w.ids.floor {
      actions, u := IdIsReused(w, o, keys, f, e);
    } else {
      var key :| key in w.ids.dying && key in w.ids.table.ids && w.ids.table.ids[key] == e.id
                 && w.ids.dying[key].at < w.ids.floor;
      actions, u := DyingIsReused(w, o, keys, key, e);
    }
  }

  lemma DyingIsReused(w: World, o: nat, keys: seq<u64>, key: u64, e: Ev) returns (actions: seq<Action>, u: World)
    requires Ids.Inv(w.ids) && o in w.ids.threads && w.ids.threads[o].pc.Idle? && Vacant(keys, w.ids.alive) && Stored(w, e)
    requires key in w.ids.dying && key in w.ids.table.ids && w.ids.table.ids[key] == e.id && w.ids.dying[key].at < w.ids.floor
    requires |keys| > Ahead(w.ids.table, w.ids.capacity)
    ensures Follows(w, actions, u) && Stored(u, e) && !Resolves(u, e)
  {
    var a := Inner(Ids.Remove(key));
    assert Enabled(w, a) && Fine(w, a);
    Ids.StepKeepsInv(w.ids, a.a);
    var v := Step(w, a);
    var f := Freed(e.id, w.ids.dying[key].at);
    assert f == v.ids.table.free[|w.ids.table.free|];
    StoredElsewhere(w, v);
    assert Valid(w.ids.table, w.ids.capacity);
    hide Valid, Stored, Follows, Vacant, Ids.Inv;
    actions, u := IdIsReused(v, o, keys, f, e);
    First(w, a, actions, u);
    actions := [a] + actions;
  }

  // ----- a batch in hand, missed, from the start -----

  const EVENT: Ev := Ev(0, 0, 7, 0)

  function Start(): World {
    World(IdRuns.Small(), map[], map[], map[], [], Resting, 0)
  }

  /** The first thread has recorded its object and is leaving: its batch is in hand. */
  function Leaving(): World {
    World(IdRuns.Recorded(), map[0 := Held(0, [])], map[], map[0 := Held(0, [EVENT])], [], Resting, 0)
  }

  lemma StartHolds()
    ensures Initial(Start())
  {
    IdRuns.SmallHolds();
    hide Ids.Inv;
  }

  /** It has the id, and it has pushed. */
  function Holding(): World {
    Start().(ids := IdRuns.Held())
  }

  function HasPushed(): World {
    Start().(ids := IdRuns.Recorded(), live := map[0 := Held(0, [EVENT])])
  }

  lemma PushesFirst()
    requires Valid(IdRuns.Held().table, 1)
    ensures Enabled(Holding(), Renew(0, false)) && Step(Holding(), Renew(0, false)) == HasPushed()
  {
    hide Valid, CodeCache.Blank, CodeCache.Put;
    assert CanPush(Holding(), 0) && Pushed(Holding(), 0) == EVENT;
    assert Ids.Step(IdRuns.Held(), Ids.Push(0)) == IdRuns.Recorded();
  }

  lemma TakesInHand()
    requires Valid(IdRuns.Recorded().table, 1)
    ensures Enabled(HasPushed(), Detach(0)) && Step(HasPushed(), Detach(0)) == Leaving()
  {
    hide Valid, CodeCache.Blank, CodeCache.Put;
  }

  lemma RecordsAndLeaves() returns (actions: seq<Action>)
    ensures Follows(Start(), actions, Leaving())
  {
    IdRuns.OneInUse();
    PushesFirst();
    TakesInHand();
    var gets := IdRuns.SmallGets();
    Lifts(Start(), gets, IdRuns.Held());
    actions := Inners(gets);
    Same(Leaving());
    assert Valid(Holding().ids.table, 1) && Valid(HasPushed().ids.table, 1);
    hide Valid, Step, Enabled, Follows, Holding, HasPushed, Leaving, Start, Inners, IdRuns.Path, IdRuns.Apart;
    First(HasPushed(), Detach(0), [], Leaving());
    First(Holding(), Renew(0, false), [Detach(0)] + [], Leaving());
    Then(Start(), actions, Holding(), [Renew(0, false)] + ([Detach(0)] + []), Leaving());
    actions := actions + ([Renew(0, false)] + ([Detach(0)] + []));
  }

  /** The object is dead and a floor is about to be published, the batch still in hand. */
  function Missed(rec: Rec): World {
    Leaving().(ids := IdRuns.Left().(clock := 5), rec := rec)
  }

  function Bereft(): World {
    Leaving().(ids := IdRuns.Left())
  }

  lemma Ticks()
    requires Valid(IdRuns.Left().table, 1)
    ensures Follows(Bereft(), [Inner(Ids.Tick(5))] + [], Missed(Resting))
  {
    hide Valid, CodeCache.Blank, CodeCache.Put, Follows;
    Same(Missed(Resting));
    First(Bereft(), Inner(Ids.Tick(5)), [], Missed(Resting));
  }

  lemma DiesAndTicks() returns (actions: seq<Action>)
    ensures Follows(Leaving(), actions, Missed(Resting))
  {
    IdRuns.RecordedHolds();
    var dies := IdRuns.ItDies();
    Ticks();
    Lifts(Leaving(), dies, IdRuns.Left());
    hide Follows, Leaving, Missed, Valid, Ids.Inv, Inners;
    Then(Leaving(), Inners(dies), Bereft(), [Inner(Ids.Tick(5))] + [], Missed(Resting));
    actions := Inners(dies) + ([Inner(Ids.Tick(5))] + []);
  }

  /** One step of the floor computation. */
  lemma Floors(rec: Rec, a: Action, next: Rec, rest: seq<Action>, u: World)
    requires Valid(Missed(rec).ids.table, Missed(rec).ids.capacity)
    requires Enabled(Missed(rec), a) && Step(Missed(rec), a) == Missed(next)
    requires !a.Inner? && Follows(Missed(next), rest, u)
    ensures Follows(Missed(rec), [a] + rest, u)
  {
    hide Valid, Step, Enabled, Follows, Missed;
    First(Missed(rec), a, rest, u);
  }

  /** The floor computation finds no tail and no ring to keep it from the clock. */
  lemma FloorMisses() returns (actions: seq<Action>)
    requires Valid(IdRuns.Left().table, 1)
    ensures Follows(Missed(Resting), actions, Missed(Scans(5, {0, 1})))
  {
    var u := Missed(Scans(5, {0, 1}));
    Same(u);
    hide Valid, CodeCache.Blank, CodeCache.Put, Follows;
    assert {0} + {1} == {0, 1};
    Floors(Scans(5, {0}), FoundEmpty(1), Scans(5, {0, 1}), [], u);
    Floors(Scans(5, {}), FoundEmpty(0), Scans(5, {0}), [FoundEmpty(1)] + [], u);
    Floors(Tails(5, {0, 1}), TailsRead, Scans(5, {}), [FoundEmpty(0)] + ([FoundEmpty(1)] + []), u);
    Floors(Tails(5, {0}), ReadTail(1), Tails(5, {0, 1}), [TailsRead] + ([FoundEmpty(0)] + ([FoundEmpty(1)] + [])), u);
    Floors(Tails(5, {}), ReadTail(0), Tails(5, {0}),
           [ReadTail(1)] + ([TailsRead] + ([FoundEmpty(0)] + ([FoundEmpty(1)] + []))), u);
    Floors(Resting, FloorStart, Tails(5, {}),
           [ReadTail(0)] + ([ReadTail(1)] + ([TailsRead] + ([FoundEmpty(0)] + ([FoundEmpty(1)] + [])))), u);
    actions := [FloorStart] + ([ReadTail(0)] + ([ReadTail(1)] + ([TailsRead] + ([FoundEmpty(0)] + ([FoundEmpty(1)] + [])))));
  }

  lemma EventIsGood(ids: Ids.State)
    requires ids == IdRuns.Left().(clock := 5)
    ensures EvGood(ids, 0, EVENT) && GivenUpBefore(ids, 0, 5)
  {
    hide CodeCache.Blank, CodeCache.Put;
    assert Freed(0, 0) in ids.table.free;
  }

  lemma MissedStore(w: World)
    requires w == Missed(Scans(5, {0, 1})) && EvGood(w.ids, 0, EVENT)
    ensures StoreGood(w)
  {
    hide EvGood, IdRuns.Left;
  }

  lemma MissedIsIntact(w: World)
    requires w == Missed(Scans(5, {0, 1})) && Ids.Inv(w.ids) && StoreGood(w)
    ensures Intact(w) && Enabled(w, Publish)
  {
    hide CodeCache.Blank, CodeCache.Put, Ids.Inv, StoreGood;
  }

  lemma MissedIsStored(w: World)
    requires w == Missed(Scans(5, {0, 1})) && GivenUpBefore(w.ids, 0, 5)
    ensures w.rec.Scans? && !Spares(w)
  {
    hide IdRuns.Left, GivenUpBefore;
    assert EVENT in w.detached[0].events && Stored(w, EVENT);
    assert NextFloor(w) == 5;
  }

  lemma MissedIds(w: World)
    requires Ids.Inv(IdRuns.Left()) && w == Missed(Scans(5, {0, 1}))
    ensures Ids.Inv(w.ids)
  {
    Ids.StepKeepsInv(IdRuns.Left(), Ids.Tick(5));
    assert Ids.Step(IdRuns.Left(), Ids.Tick(5)) == w.ids;
  }

  lemma MissedHasRoom(w: World)
    requires w == Missed(Scans(5, {0, 1}))
    ensures Vacant([32, 48], w.ids.alive) && Ahead(w.ids.table, w.ids.capacity) == 1
    ensures 1 in w.ids.threads && w.ids.threads[1].pc.Idle?
  {
    hide CodeCache.Blank, CodeCache.Put;
  }

  lemma MissedIsUnspared(w: World)
    requires Ids.Inv(IdRuns.Left()) && w == Missed(Scans(5, {0, 1}))
    ensures Intact(w) && Enabled(w, Publish) && !Spares(w)
  {
    EventIsGood(w.ids);
    MissedIds(w);
    hide Ids.Inv, EvGood, GivenUpBefore, StoreGood, Intact, Spares, Enabled, IdRuns.Left;
    MissedStore(w);
    MissedIsIntact(w);
    MissedIsStored(w);
  }

  lemma ReachesMissed(w: World) returns (actions: seq<Action>)
    requires w == Missed(Scans(5, {0, 1}))
    ensures Follows(Start(), actions, w) && Ids.Inv(IdRuns.Left())
  {
    IdRuns.LeftHolds();
    var first := RecordsAndLeaves();
    var dies := DiesAndTicks();
    var floor := FloorMisses();
    hide Follows, Ids.Inv, Start, Leaving, Missed, IdRuns.Left;
    Then(Leaving(), dies, Missed(Resting), floor, w);
    Then(Start(), first, Leaving(), dies + floor, w);
    actions := first + (dies + floor);
  }

  /**
   The condition on flushes is needed: from a start, a thread records an object and takes its batch in hand to leave,
   the object dies, a floor is computed that meets neither the batch's tail nor its ring, and a stored event comes to
   resolve to another object.
   */
  lemma MissedFlushBreaksRecycling() returns (actions: seq<Action>, u: World, e: Ev)
    ensures Initial(Start()) && Follows(Start(), actions, u) && Stored(u, e) && !Resolves(u, e)
  {
    StartHolds();
    var w := Missed(Scans(5, {0, 1}));
    var missed := ReachesMissed(w);
    MissedIsUnspared(w);
    MissedHasRoom(w);
    hide Initial, Follows, Stored, Resolves, Intact, Enabled, Spares, Ids.Inv, Vacant, Ahead, Start, Missed;
    var reuse;
    reuse, u, e := UnsparedIsReused(w, 1, [32, 48]);
    Then(Start(), missed, w, reuse, u);
    actions := missed + reuse;
  }
}
