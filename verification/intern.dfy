/** Code ids: allocation, release and reuse. */
module InternTable {
  import opened Words
  import opened Events

  /** Stands for what an id resolves to: the name, file and line of one code object. */
  type CodeInfo = nat

  datatype Freed = Freed(id: u32, at: nat)

  /** `ids` maps an address to the id of the code object there; `free` keeps when an id was given up. */
  datatype Table = Table(ids: map<nat, u32>, info: seq<CodeInfo>, free: seq<Freed>)

  const EMPTY := Table(map[], [], [])

  function Lookup(t: Table, key: nat): Option<u32> {
    if key in t.ids then Some(t.ids[key]) else None
  }

  function Forget(t: Table, key: nat, at: nat): Table {
    if key in t.ids then Table(t.ids - {key}, t.info, t.free + [Freed(t.ids[key], at)]) else t
  }

  /** The first free id given up strictly before `floor`, or `|free|`. */
  function FirstBelow(free: seq<Freed>, floor: nat): (i: nat)
    ensures i <= |free|
    ensures i < |free| ==> free[i].at < floor
    ensures forall j :: 0 <= j < i ==> free[j].at >= floor
  {
    if free == [] then 0
    else if free[0].at < floor then 0
    else 1 + FirstBelow(free[1..], floor)
  }

  /** `swap_remove`: the last element takes the removed one's place. */
  function SwapRemoved(free: seq<Freed>, i: nat): (left: seq<Freed>)
    requires i < |free|
    ensures |left| == |free| - 1
    ensures forall j :: 0 <= j < |left| ==> left[j] == if j == i then free[|free| - 1] else free[j]
  {
    free[i := free[|free| - 1]][..|free| - 1]
  }

  function Insert(t: Table, key: nat, info: CodeInfo, floor: nat, capacity: nat): (Table, Option<u32>)
    requires Valid(t, capacity)
  {
    if key in t.ids then (t, Some(t.ids[key]))
    else if |t.info| < capacity then
      (Table(t.ids[key := |t.info|], t.info + [info], t.free), Some(|t.info|))
    else
      var i := FirstBelow(t.free, floor);
      if i == |t.free| then (t, None)
      else
        var id := t.free[i].id;
        assert IsFree(t, id);
        (Table(t.ids[key := id], t.info[id := info], SwapRemoved(t.free, i)), Some(id))
  }

  ghost predicate InUse(t: Table, id: nat) {
    exists key :: key in t.ids && t.ids[key] == id
  }

  ghost predicate IsFree(t: Table, id: nat) {
    exists i :: 0 <= i < |t.free| && t.free[i].id == id
  }

  /** Ids in use and free ids partition the allocated range, which fits the 24 bits an event has for it. */
  ghost predicate Valid(t: Table, capacity: nat) {
    && capacity <= CODE_SPAN && |t.info| <= capacity
    && (forall k, l :: k in t.ids && l in t.ids && t.ids[k] == t.ids[l] ==> k == l)
    && (forall i, j :: 0 <= i < j < |t.free| ==> t.free[i].id != t.free[j].id)
    && (forall id: nat :: id < |t.info| <==> InUse(t, id) || IsFree(t, id))
    && (forall id: nat :: !(InUse(t, id) && IsFree(t, id)))
  }

  lemma ForgottenIds(t: Table, key: nat, at: nat, capacity: nat, j: nat)
    requires Valid(t, capacity) && key in t.ids
    ensures InUse(Forget(t, key, at), j) <==> InUse(t, j) && j != t.ids[key]
    ensures IsFree(Forget(t, key, at), j) <==> IsFree(t, j) || j == t.ids[key]
  {
    var u, id := Forget(t, key, at), t.ids[key];
    assert u.free[|t.free|].id == id;
    if InUse(t, j) && j != id {
      var k :| k in t.ids && t.ids[k] == j;
      assert k in u.ids && u.ids[k] == j;
    }
    if i :| 0 <= i < |t.free| && t.free[i].id == j {
      assert u.free[i].id == j;
    }
    if i :| 0 <= i < |u.free| && u.free[i].id == j && i < |t.free| {
      assert t.free[i].id == j;
    }
  }

  /** Giving an id up moves it from the used to the free side and touches no other. */
  lemma ForgetKeepsValid(t: Table, key: nat, at: nat, capacity: nat)
    requires Valid(t, capacity)
    ensures Valid(Forget(t, key, at), capacity)
  {
    if key in t.ids {
      var u := Forget(t, key, at);
      assert InUse(t, t.ids[key]);
      forall j: nat ensures j < |u.info| <==> InUse(u, j) || IsFree(u, j)
               ensures !(InUse(u, j) && IsFree(u, j)) {
        ForgottenIds(t, key, at, capacity, j);
      }
      forall i: nat, j: nat | i < j < |u.free| ensures u.free[i].id != u.free[j].id {
        assert j == |t.free| ==> IsFree(t, t.free[i].id);
      }
    }
  }

  lemma InsertedIds(t: Table, key: nat, info: CodeInfo, floor: nat, capacity: nat, j: nat)
    requires Valid(t, capacity) && key !in t.ids
    ensures var (u, got) := Insert(t, key, info, floor, capacity);
            got.Some? ==>
              && (InUse(u, j) <==> InUse(t, j) || j == got.value)
              && (IsFree(u, j) <==> IsFree(t, j) && j != got.value)
              && !InUse(t, got.value)
  {
    var (u, got) := Insert(t, key, info, floor, capacity);
    if got.Some? {
      var id := got.value;
      assert u.ids[key] == id;
      if k :| k in t.ids && t.ids[k] == j {
        assert u.ids[k] == j;
      }
      if |t.info| < capacity {
        assert !(id < |t.info|);
      } else {
        var n := FirstBelow(t.free, floor);
        assert IsFree(t, id);
        SwapRemovedIds(t.free, n, j);
      }
    }
  }

  lemma SwapRemovedIds(free: seq<Freed>, n: nat, j: nat)
    requires n < |free| && forall a, b :: 0 <= a < b < |free| ==> free[a].id != free[b].id
    ensures (exists i :: 0 <= i < |free| - 1 && SwapRemoved(free, n)[i].id == j)
       <==> (exists i :: 0 <= i < |free| && free[i].id == j) && j != free[n].id
  {
    var rest := SwapRemoved(free, n);
    if i :| 0 <= i < |free| && free[i].id == j && i != n {
      assert rest[if i < |free| - 1 then i else n].id == j;
    }
    if i :| 0 <= i < |rest| && rest[i].id == j {
      assert free[if i == n then |free| - 1 else i].id == j;
    }
  }

  /** Allocation keeps the partition, whether the id is new or reused; a failed insertion changes nothing. */
  lemma InsertKeepsValid(t: Table, key: nat, info: CodeInfo, floor: nat, capacity: nat)
    requires Valid(t, capacity)
    ensures var (u, got) := Insert(t, key, info, floor, capacity);
            && Valid(u, capacity)
            && (got.None? ==> u == t)
            && (got.Some? ==> key in u.ids && u.ids[key] == got.value)
  {
    var (u, got) := Insert(t, key, info, floor, capacity);
    if key !in t.ids && got.Some? {
      forall j: nat ensures j < |u.info| <==> InUse(u, j) || IsFree(u, j)
               ensures !(InUse(u, j) && IsFree(u, j)) {
        InsertedIds(t, key, info, floor, capacity, j);
      }
      InsertedIds(t, key, info, floor, capacity, got.value);
      forall k, l | k in u.ids && l in u.ids && k != l ensures u.ids[k] != u.ids[l] {
        assert k != key ==> InUse(t, t.ids[k]);
        assert l != key ==> InUse(t, t.ids[l]);
      }
    }
  }

  /**
   What insertion does to every other id: nothing is renamed, and the one id handed out was free since
   strictly before the floor, or never used.
   */
  lemma InsertReusesOnlyBelowFloor(t: Table, key: nat, info: CodeInfo, floor: nat, capacity: nat)
    requires Valid(t, capacity) && key !in t.ids
    ensures var (u, got) := Insert(t, key, info, floor, capacity);
            match got
            case None => |t.info| == capacity && forall f :: f in t.free ==> f.at >= floor
            case Some(id) =>
              && id < |u.info| && |t.info| <= |u.info|
              && u.ids == t.ids[key := id]
              && (forall i :: 0 <= i < |t.info| && i != id ==> u.info[i] == t.info[i])
              && u.info[id] == info
              && (id == |t.info| || exists f :: f in t.free && f.id == id && f.at < floor)
              && (forall f :: f in u.free <==> f in t.free && f.id != id)
  {
    var (u, got) := Insert(t, key, info, floor, capacity);
    if got.Some? {
      var id := got.value;
      if |t.info| < capacity {
        forall f | f in t.free ensures f.id != id {
          var i :| 0 <= i < |t.free| && t.free[i] == f;
          assert IsFree(t, t.free[i].id);
        }
      } else {
        var n := FirstBelow(t.free, floor);
        assert t.free[n] in t.free && IsFree(t, id);
        SwapRemovedMembers(t.free, n);
      }
    }
  }

  lemma SwapRemovedMembers(free: seq<Freed>, n: nat)
    requires n < |free| && forall a, b :: 0 <= a < b < |free| ==> free[a].id != free[b].id
    ensures forall f :: f in SwapRemoved(free, n) <==> f in free && f.id != free[n].id
  {
    var rest := SwapRemoved(free, n);
    forall f | f in free && f.id != free[n].id ensures f in rest {
      var i :| 0 <= i < |free| && free[i] == f;
      assert rest[if i < |free| - 1 then i else n] == f;
    }
    forall f | f in rest ensures f in free && f.id != free[n].id {
      var i :| 0 <= i < |rest| && rest[i] == f;
      assert f == free[if i == n then |free| - 1 else i];
    }
  }
}

/** The table behind its lock. */
module Intern {
  import opened Words
  import opened InternTable

  class Interner {
    var ids: map<nat, u32>
    var info: seq<CodeInfo>
    var free: seq<Freed>
    const capacity: nat

    function Contents(): Table
      reads this
    {
      Table(ids, info, free)
    }

    ghost predicate Holds()
      reads this
    {
      Valid(Contents(), capacity)
    }

    constructor (capacity: nat)
      requires 1 <= capacity <= 0x100_0000
      ensures Contents() == EMPTY && this.capacity == capacity && Holds()
    {
      ids, info, free := map[], [], [];
      this.capacity := capacity;
    }

    /** An address is found exactly while it has an id, and the id is then allocated, not free and no other address's. */
    method Find(key: nat) returns (id: Option<u32>)
      requires Holds()
      ensures id == Lookup(Contents(), key)
      ensures id.Some? ==>
                && id.value < |info| && !IsFree(Contents(), id.value)
                && forall k :: k in ids && k != key ==> Lookup(Contents(), k) != id
    {
      assert key in ids ==> InUse(Contents(), ids[key]);
      id := if key in ids then Some(ids[key]) else None;
    }

    method Remove(key: nat, at: nat) returns (forgotten: bool)
      requires Holds()
      modifies this
      ensures Holds() && Contents() == Forget(old(Contents()), key, at)
      ensures forgotten <==> key in old(ids)
      ensures info == old(info) && ids == old(ids) - {key}
      ensures free == if forgotten then old(free) + [Freed(old(ids[key]), at)] else old(free)
    {
      ForgetKeepsValid(Contents(), key, at, capacity);
      forgotten := key in ids;
      if forgotten {
        free := free + [Freed(ids[key], at)];
        ids := ids - {key};
      }
    }

    method Position(floor: nat) returns (i: nat)
      ensures i == FirstBelow(free, floor)
    {
      i := 0;
      assert free[0..] == free;
      while i < |free| && free[i].at >= floor
        invariant i <= |free| && FirstBelow(free, floor) == i + FirstBelow(free[i..], floor)
      {
        assert free[i..][1..] == free[i + 1..];
        i := i + 1;
      }
    }

    /** An id is had unless none is left: the address's own, the next one, or the first free one given up before the floor. */
    method Add(key: nat, code: CodeInfo, floor: nat) returns (id: Option<u32>)
      requires Holds()
      modifies this
      ensures Holds() && (Contents(), id) == Insert(old(Contents()), key, code, floor, capacity)
      ensures id.None? <==> key !in old(ids) && old(|info|) == capacity && forall f :: f in old(free) ==> f.at >= floor
      ensures id.Some? ==> ids == old(ids)[key := id.value]
    {
      InsertKeepsValid(Contents(), key, code, floor, capacity);
      if key in ids {
        return Some(ids[key]);
      }
      var n: u32;
      if |info| < capacity {
        n := |info|;
        info := info + [code];
      } else {
        var slot := Position(floor);
        if slot == |free| {
          return None;
        }
        n := free[slot].id;
        assert IsFree(Contents(), n);
        free := free[slot := free[|free| - 1]][..|free| - 1];
        info := info[n := code];
      }
      ids := ids[key := n];
      id := Some(n);
    }

    /** An id resolves exactly when it was ever handed out: addresses' ids do, and so do ids given up and not reused yet. */
    method Code(id: u32) returns (code: Option<CodeInfo>)
      requires Holds()
      ensures code.Some? <==> InUse(Contents(), id) || IsFree(Contents(), id)
      ensures code.Some? ==> id < |info| && code.value == info[id]
    {
      code := if id < |info| then Some(info[id]) else None;
    }
  }
}
