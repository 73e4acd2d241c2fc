/** A direct-mapped cache from addresses to ids, one per thread. */
module CodeCache {
  import opened Words

  const SLOTS: nat := 256
  const EMPTY_KEY: u64 := 0
  const GOLDEN: u64 := 0x9E37_79B9_7F4A_7C15

  datatype Slot = Slot(key: u64, id: u32)

  type Slots = s: seq<Slot> | |s| == 256 witness seq(256, _ => Slot(0, 0))

  function Blank(): Slots {
    seq(SLOTS, _ => Slot(EMPTY_KEY, 0))
  }

  /** The top eight bits of the wrapped product. */
  function SlotOf(key: u64): (i: nat)
    ensures i < SLOTS
  {
    (key * GOLDEN % U64_SPAN) / 0x100_0000_0000_0000
  }

  function Get(slots: Slots, key: u64): Option<u32> {
    if key != EMPTY_KEY && slots[SlotOf(key)].key == key then Some(slots[SlotOf(key)].id) else None
  }

  function Put(slots: Slots, key: u64, id: u32): Slots {
    if key == EMPTY_KEY then slots else slots[SlotOf(key) := Slot(key, id)]
  }

  /** A stored id reads back; a key sharing its slot misses afterwards; every other key is untouched. */
  lemma PutThenGet(slots: Slots, key: u64, id: u32, other: u64)
    ensures Get(Blank(), other) == None
    ensures Get(Put(slots, key, id), other) ==
              if key == EMPTY_KEY then Get(slots, other)
              else if other == key then Some(id)
              else if SlotOf(other) == SlotOf(key) then None
              else Get(slots, other)
  {
    if other != EMPTY_KEY {
      assert Blank()[SlotOf(other)].key == EMPTY_KEY;
    }
  }

  class Cache {
    const slots: array<Slot>

    function Contents(): Slots
      requires slots.Length == SLOTS
      reads slots
    {
      slots[..]
    }

    constructor ()
      ensures slots.Length == SLOTS && Contents() == Blank() && fresh(slots)
    {
      slots := new Slot[SLOTS](_ => Slot(EMPTY_KEY, 0));
    }

    method Fetch(key: u64) returns (id: Option<u32>)
      requires slots.Length == SLOTS
      ensures id == Get(Contents(), key)
    {
      if key == EMPTY_KEY {
        return None;
      }
      var slot := slots[SlotOf(key)];
      id := if slot.key == key then Some(slot.id) else None;
    }

    method Store(key: u64, id: u32)
      requires slots.Length == SLOTS
      modifies slots
      ensures Contents() == Put(old(Contents()), key, id)
    {
      if key == EMPTY_KEY {
        return;
      }
      slots[SlotOf(key)] := Slot(key, id);
    }

    method Clear()
      requires slots.Length == SLOTS
      modifies slots
      ensures Contents() == Blank()
    {
      forall i | 0 <= i < SLOTS {
        slots[i] := Slot(EMPTY_KEY, 0);
      }
    }
  }
}
