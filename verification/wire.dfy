/** The protocol buffer wire format, as far as the trace uses it: varints, scalar fields and length-delimited fields. */
module Wire {
  import opened Words

  const MAX: nat := 10

  // ----- base 128 varints -----

  function Varint(v: nat): (bytes: seq<byte>)
    ensures bytes != []
  {
    if v < 0x80 then [v] else [0x80 + v % 0x80] + Varint(v / 0x80)
  }

  /** At most `budget` bytes, least significant seven bits first, until one with its top bit clear. */
  function ReadVarint(text: seq<byte>, budget: nat): (r: Option<(nat, seq<byte>)>)
    ensures r.Some? ==> |r.value.1| < |text|
  {
    if text == [] || budget == 0 then None
    else if text[0] < 0x80 then Some((text[0], text[1..]))
    else
      match ReadVarint(text[1..], budget - 1)
      case Some((v, rest)) => Some((text[0] - 0x80 + 0x80 * v, rest))
      case None => None
  }

  function Span(k: nat): (p: nat)
    ensures p > 0
  {
    if k == 0 then 1 else 0x80 * Span(k - 1)
  }

  lemma TenSevens()
    ensures Span(MAX) > U64_MAX
  {
    assert Span(2) == 0x4000 && Span(3) == 0x20_0000 && Span(4) == 0x1000_0000 && Span(5) == 0x8_0000_0000;
    assert Span(6) == 0x400_0000_0000 && Span(7) == 0x2_0000_0000_0000;
    assert Span(8) == 0x100_0000_0000_0000 && Span(9) == 0x8000_0000_0000_0000;
    assert Span(10) == 0x80 * Span(9);
  }

  lemma {:induction false} VarintFits(v: nat, k: nat)
    requires k > 0 && v < Span(k)
    ensures |Varint(v)| <= k
  {
    if v >= 0x80 {
      VarintFits(v / 0x80, k - 1);
    }
  }

  lemma {:induction false} VarintReads(v: nat, rest: seq<byte>, budget: nat)
    requires |Varint(v)| <= budget
    ensures ReadVarint(Varint(v) + rest, budget) == Some((v, rest))
    decreases v
  {
    if v < 0x80 {
      assert (Varint(v) + rest)[1..] == rest;
    } else {
      assert (Varint(v) + rest)[1..] == Varint(v / 0x80) + rest;
      VarintReads(v / 0x80, rest, budget - 1);
    }
  }

  /** Every u64 comes back from at most ten bytes. */
  lemma VarintRoundTrip(v: u64, rest: seq<byte>)
    ensures |Varint(v)| <= MAX && ReadVarint(Varint(v) + rest, MAX) == Some((v, rest))
  {
    TenSevens();
    VarintFits(v, MAX);
    VarintReads(v, rest, MAX);
  }

  lemma SpanShrinks(v: nat, k: nat)
    requires v < Span(k) && v >= 0x80
    ensures k > 1 && v / 0x80 < Span(k - 1)
  {
  }

  /** `Varint::of`: seven bits at a time into a buffer of ten. */
  method VarintOf(value: u64) returns (bytes: seq<byte>)
    ensures bytes == Varint(value)
  {
    TenSevens();
    hide Span;
    var buffer := new byte[MAX];
    var v: nat, len: nat := value, 0;
    assert [] + Varint(v) == Varint(value);
    while v >= 0x80
      invariant len < MAX && v < Span(MAX - len)
      invariant buffer[..len] + Varint(v) == Varint(value)
      decreases v
    {
      SpanShrinks(v, MAX - len);
      var low: byte := 0x80 + v % 0x80;
      ghost var done := buffer[..len];
      buffer[len] := low;
      assert buffer[..len + 1] == done + [low];
      assert done + ([low] + Varint(v / 0x80)) == done + [low] + Varint(v / 0x80);
      v := v / 0x80;
      len := len + 1;
    }
    ghost var done := buffer[..len];
    buffer[len] := v;
    assert buffer[..len + 1] == done + [v];
    bytes := buffer[..len + 1];
  }

  // ----- fields -----

  datatype Field = Scalar(number: nat, value: nat) | Bytes(number: nat, body: seq<byte>)

  function Put(f: Field): (text: seq<byte>)
    ensures text != []
  {
    match f
    case Scalar(number, value) => Varint(number * 8) + Varint(value)
    case Bytes(number, body) => Varint(number * 8 + 2) + Varint(|body|) + body
  }

  function PutAll(fields: seq<Field>): seq<byte> {
    if fields == [] then [] else Put(fields[0]) + PutAll(fields[1..])
  }

  /** Fits the widths of the format. */
  predicate Sized(f: Field) {
    && f.number * 8 + 2 <= U64_MAX
    && match f { case Scalar(_, value) => value <= U64_MAX case Bytes(_, body) => |body| <= U64_MAX }
  }

  function ReadField(text: seq<byte>): (r: Option<(Field, seq<byte>)>)
    ensures r.Some? ==> |r.value.1| < |text|
  {
    match ReadVarint(text, MAX)
    case None => None
    case Some((key, rest)) =>
      match ReadVarint(rest, MAX)
      case None => None
      case Some((n, after)) =>
        if key % 8 == 0 then Some((Scalar(key / 8, n), after))
        else if key % 8 == 2 && n <= |after| then Some((Bytes(key / 8, after[..n]), after[n..]))
        else None
  }

  function ReadAll(text: seq<byte>): Option<seq<Field>>
    decreases |text|
  {
    if text == [] then Some([])
    else
      match ReadField(text)
      case None => None
      case Some((f, rest)) =>
        match ReadAll(rest)
        case Some(fields) => Some([f] + fields)
        case None => None
  }

  lemma ScalarRoundTrip(number: nat, value: u64, rest: seq<byte>)
    requires number * 8 <= U64_MAX
    ensures ReadField(Put(Scalar(number, value)) + rest) == Some((Scalar(number, value), rest))
  {
    VarintRoundTrip(number * 8, Varint(value) + rest);
    VarintRoundTrip(value, rest);
    hide Varint, ReadVarint;
    assert Put(Scalar(number, value)) + rest == Varint(number * 8) + (Varint(value) + rest);
  }

  lemma BytesRoundTrip(number: nat, body: seq<byte>, rest: seq<byte>)
    requires number * 8 + 2 <= U64_MAX && |body| <= U64_MAX
    ensures ReadField(Put(Bytes(number, body)) + rest) == Some((Bytes(number, body), rest))
  {
    var after := body + rest;
    var sized := Varint(|body|) + after;
    VarintRoundTrip(number * 8 + 2, sized);
    VarintRoundTrip(|body|, after);
    assert (number * 8 + 2) / 8 == number && (number * 8 + 2) % 8 == 2;
    Regroup(Varint(number * 8 + 2), Varint(|body|), body, rest);
    hide Varint, ReadVarint;
    assert ReadField(Varint(number * 8 + 2) + sized) == Some((Bytes(number, after[..|body|]), after[|body|..]));
  }

  lemma Regroup(a: seq<byte>, b: seq<byte>, c: seq<byte>, d: seq<byte>)
    ensures a + b + c + d == a + (b + (c + d))
    ensures (c + d)[..|c|] == c && (c + d)[|c|..] == d
  {
  }

  lemma FieldRoundTrip(f: Field, rest: seq<byte>)
    requires Sized(f)
    ensures ReadField(Put(f) + rest) == Some((f, rest))
  {
    hide Put, ReadField;
    match f
    case Scalar(number, value) => ScalarRoundTrip(number, value, rest);
    case Bytes(number, body) => BytesRoundTrip(number, body, rest);
  }

  /** A message reads back as its fields, in order. */
  lemma {:induction false} MessageRoundTrip(fields: seq<Field>)
    requires forall f :: f in fields ==> Sized(f)
    ensures ReadAll(PutAll(fields)) == Some(fields)
    decreases |fields|
  {
    if fields != [] {
      assert fields[0] in fields;
      FieldRoundTrip(fields[0], PutAll(fields[1..]));
      MessageRoundTrip(fields[1..]);
      hide Put, ReadField, Sized;
      assert [fields[0]] + fields[1..] == fields;
    }
  }

  // ----- looking a field up: the last one wins -----

  function ScalarOf(fields: seq<Field>, number: nat): Option<nat> {
    if fields == [] then None
    else
      var last := fields[|fields| - 1];
      if last.Scalar? && last.number == number then Some(last.value) else ScalarOf(fields[..|fields| - 1], number)
  }

  function BytesOf(fields: seq<Field>, number: nat): Option<seq<byte>> {
    if fields == [] then None
    else
      var last := fields[|fields| - 1];
      if last.Bytes? && last.number == number then Some(last.body) else BytesOf(fields[..|fields| - 1], number)
  }
}
