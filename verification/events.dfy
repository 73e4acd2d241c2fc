/** Machine words, as far as the models need their bounds, and the optional value. */
module Words {
  datatype Option<T> = None | Some(value: T)

  const U32_SPAN: nat := 0x1_0000_0000
  const U64_SPAN: nat := 0x1_0000_0000_0000_0000
  const U64_MAX: nat := 0xFFFF_FFFF_FFFF_FFFF

  type byte = n: nat | n < 256
  type u32 = n: nat | n < 0x1_0000_0000
  type u64 = n: nat | n < 0x1_0000_0000_0000_0000

  /** `a.wrapping_sub(b)` on u64. */
  function WrappingSub(a: u64, b: u64): u64 {
    if b <= a then a - b else U64_SPAN + a - b
  }

  /** `a.saturating_add(b)` on u64. */
  function SaturatingAdd(a: u64, b: u64): u64 {
    if a + b <= U64_MAX then a + b else U64_MAX
  }

  function Min(a: int, b: int): int {
    if a <= b then a else b
  }
}

/** The event model: an eight-byte record holding a tick delta, a code id and a kind. */
module Events {
  import opened Words

  /** One past the largest code id; the id occupies the low 24 bits of `codeKind`. */
  const CODE_SPAN: nat := 0x100_0000

  datatype EventKind = Begin | End | Yield | Resume | Unwind | Throw {
    function Number(): u32 {
      match this
      case Begin => 1
      case End => 2
      case Yield => 3
      case Resume => 4
      case Unwind => 5
      case Throw => 6
    }

    predicate OpensSlice() {
      Begin? || Resume? || Throw?
    }
  }

  function KindFromU8(v: nat): EventKind {
    match v
    case 1 => Begin
    case 2 => End
    case 3 => Yield
    case 4 => Resume
    case 5 => Unwind
    case 6 => Throw
    case _ => Begin
  }

  /** The shift and the masked id occupy disjoint bits, so the bitwise or is a sum. */
  function PackCodeKind(codeId: u32, kind: EventKind): u32 {
    kind.Number() * CODE_SPAN + codeId % CODE_SPAN
  }

  function CodeOf(codeKind: u32): u32 {
    codeKind % CODE_SPAN
  }

  function KindOf(codeKind: u32): EventKind {
    KindFromU8(codeKind / CODE_SPAN)
  }

  predicate Opens(codeKind: u32) {
    KindOf(codeKind).OpensSlice()
  }

  datatype PackedEvent = PackedEvent(deltaTicks: u32, codeKind: u32)

  /** The in-memory image on a little-endian machine: `deltaTicks` is the low word. */
  function ToBits(e: PackedEvent): u64 {
    e.codeKind * U32_SPAN + e.deltaTicks
  }

  function FromBits(bits: u64): PackedEvent {
    PackedEvent(bits % U32_SPAN, bits / U32_SPAN)
  }

  datatype Event = Event(tsNs: u64, tid: u32, codeKind: u32)

  /** The kind always survives packing; the id does exactly when it fits 24 bits. */
  lemma PackingKeepsKindAndId(codeId: u32, kind: EventKind)
    ensures KindOf(PackCodeKind(codeId, kind)) == kind
    ensures CodeOf(PackCodeKind(codeId, kind)) == codeId <==> codeId < CODE_SPAN
    ensures CodeOf(PackCodeKind(codeId, kind)) == codeId % CODE_SPAN
  {
    var low := codeId % CODE_SPAN;
    var packed := PackCodeKind(codeId, kind);
    assert packed / CODE_SPAN == kind.Number() && packed % CODE_SPAN == low;
  }

  /** The kinds by their numbers: begin 1, resume 4 and throw 6 open a slice, end 2, yield 3 and unwind 5 close one. */
  lemma OpensByNumber(codeKind: u32)
    ensures var kind := codeKind / 0x100_0000;
            && (1 <= kind <= 6 ==> KindOf(codeKind).Number() == kind)
            && (!(1 <= kind <= 6) ==> KindOf(codeKind) == Begin)
            && (Opens(codeKind) <==> kind != 2 && kind != 3 && kind != 5)
    ensures KindFromU8(1) == Begin && KindFromU8(2) == End && KindFromU8(3) == Yield
    ensures KindFromU8(4) == Resume && KindFromU8(5) == Unwind && KindFromU8(6) == Throw
  {
  }

  /** An event written to a slot as one word reads back as itself, in both directions. */
  lemma BitsRoundTrip(e: PackedEvent, bits: u64)
    ensures FromBits(ToBits(e)) == e
    ensures ToBits(FromBits(bits)) == bits
  {
    var word := ToBits(e);
    assert word / U32_SPAN == e.codeKind && word % U32_SPAN == e.deltaTicks;
  }
}
