/** The recording callback of one thread, run from start to end, and the callback for a dying code object. */
module Monitoring {
  import opened Words
  import opened InternTable
  import opened CodeCache
  import opened CodeIds
  import opened Intern

  /** What a thread may rely on while its caches are current: every pair it holds is the table's. */
  ghost predicate Agrees(l: Local, t: Table) {
    && (forall key: u64 :: Get(l.slots, key).Some? ==> Lookup(t, key) == Get(l.slots, key))
    && (l.lastKey != NOT_CACHED ==> Lookup(t, l.lastKey) == Some(l.lastId))
  }

  class HotCodes {
    var run: nat
    var gen: nat
    var lastKey: u64
    var lastId: u32
    const cache: Cache

    function Contents(): Local
      requires cache.slots.Length == SLOTS
      reads this, cache.slots
    {
      Local(run, gen, cache.Contents(), lastKey, lastId)
    }

    constructor ()
      ensures fresh(cache) && fresh(cache.slots) && cache.slots.Length == SLOTS
      ensures Contents() == Local(0, 0, Blank(), NOT_CACHED, 0xFFFF_FFFF)
    {
      run, gen, lastKey, lastId := 0, 0, NOT_CACHED, 0xFFFF_FFFF;
      cache := new Cache();
    }

    /**
     `resolve_cold`. `named` says that the thread's name is known or no longer asked for. A cached id comes
     back without touching the interner; otherwise the interner finds or allocates it. On failure the caches
     stay refreshed and nothing else changes.
     */
    method Resolve(interner: Interner, current: nat, generation: nat, key: u64, code: CodeInfo, floor: nat, named: bool)
      returns (id: Option<u32>)
      requires cache.slots.Length == SLOTS && interner.Holds()
      modifies this, cache.slots, interner
      ensures interner.Holds()
      ensures var l := Refreshed(old(Contents()), current, generation);
              && (Get(l.slots, key).Some? ==> interner.Contents() == old(interner.Contents()) && id == Get(l.slots, key))
              && (Get(l.slots, key).None? ==>
                    (interner.Contents(), id) == Insert(old(interner.Contents()), key, code, floor, interner.capacity))
              && Contents() == if id.Some? then Kept(l, key, id.value, named) else l
    {
      if run != current {
        cache.Clear();
        lastKey := NOT_CACHED;
      }
      if gen != generation {
        cache.Clear();
        gen := generation;
      }
      assert Contents() == Refreshed(old(Contents()), current, generation);
      id := cache.Fetch(key);
      if id.None? {
        id := interner.Find(key);
        if id.None? {
          id := interner.Add(key, code, floor);
        }
        if id.None? {
          return;
        }
        cache.Store(key, id.value);
      }
      lastId := id.value;
      lastKey := if named then key else NOT_CACHED;
      if key != EMPTY_KEY {
        assert Put(cache.Contents(), key, id.value) == cache.Contents();
      }
    }

    /**
     `record` up to its push. If the caches a current thread holds agree with the interner, then so does the
     id it uses, and the caches still agree afterwards.
     */
    method Record(interner: Interner, current: nat, generation: nat, key: u64, code: CodeInfo, floor: nat, named: bool)
      returns (id: Option<u32>)
      requires cache.slots.Length == SLOTS && interner.Holds() && key != NOT_CACHED
      requires run == current && gen == generation ==> Agrees(Contents(), interner.Contents())
      modifies this, cache.slots, interner
      ensures interner.Holds()
      ensures id.Some? ==>
                && id == Lookup(interner.Contents(), key)
                && gen == generation && Agrees(Contents(), interner.Contents())
      ensures forall k :: k in old(interner.Contents()).ids ==>
                Lookup(interner.Contents(), k) == old(Lookup(interner.Contents(), k))
    {
      if lastKey == key && run == current && gen == generation {
        return Some(lastId);
      }
      ghost var l, before := Refreshed(Contents(), current, generation), interner.Contents();
      InsertKeepsValid(before, key, code, floor, interner.capacity);
      id := Resolve(interner, current, generation, key, code, floor, named);
      if id.Some? {
        RefreshedAgrees(old(Contents()), before, current, generation);
        ghost var after := interner.Contents();
        hide Insert, Valid;
        KeptAgrees(l, before, after, key, id.value, named);
      }
    }

    lemma RefreshedAgrees(l: Local, t: Table, current: nat, generation: nat)
      requires l.run == current && l.gen == generation ==> Agrees(l, t)
      ensures forall key: u64 :: Get(Refreshed(l, current, generation).slots, key).Some? ==>
                Lookup(t, key) == Get(Refreshed(l, current, generation).slots, key)
    {
      forall key: u64 ensures Get(Blank(), key) == None {
        PutThenGet(Blank(), 0, 0, key);
      }
    }

    lemma KeptAgrees(l: Local, before: Table, after: Table, key: u64, id: u32, named: bool)
      requires forall k: u64 :: Get(l.slots, k).Some? ==> Lookup(before, k) == Get(l.slots, k)
      requires forall k :: Lookup(before, k).Some? ==> Lookup(after, k) == Lookup(before, k)
      requires Lookup(after, key) == Some(id)
      ensures Agrees(Kept(l, key, id, named), after)
    {
      forall k: u64 | Get(Put(l.slots, key, id), k).Some? ensures Lookup(after, k) == Get(Put(l.slots, key, id), k) {
        PutThenGet(l.slots, key, id, k);
      }
    }
  }

  /** The process-wide generation counter and its callback for a dying code object. */
  class Watcher {
    var generation: nat

    constructor ()
      ensures generation == 0
    {
      generation := 0;
    }

    /** Remove the object's id from every live tracer first, then count one generation if any had it. */
    method OnDestroy(states: seq<Interner>, key: u64, at: nat)
      requires forall i :: 0 <= i < |states| ==> states[i].Holds() && states[i] as object != this
      requires forall i, j :: 0 <= i < j < |states| ==> states[i] != states[j]
      modifies this, states
      ensures forall i :: 0 <= i < |states| ==>
                states[i].Holds() && states[i].Contents() == Forget(old(states[i].Contents()), key, at)
      ensures generation == old(generation) + if exists i :: 0 <= i < |states| && key in old(states[i].ids) then 1 else 0
    {
      var forgotten := false;
      for n := 0 to |states|
        invariant generation == old(generation)
        invariant forall i :: n <= i < |states| ==> states[i].Contents() == old(states[i].Contents()) && states[i].Holds()
        invariant forall i :: 0 <= i < n ==>
                    states[i].Holds() && states[i].Contents() == Forget(old(states[i].Contents()), key, at)
        invariant forgotten <==> exists i :: 0 <= i < n && key in old(states[i].ids)
      {
        var known := states[n].Remove(key, at);
        forgotten := forgotten || known;
      }
      if forgotten {
        generation := generation + 1;
      }
    }
  }
}
