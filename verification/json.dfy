/** JSON text, as RFC 8259 defines it: a printer for trees and a reader, and that reading undoes printing. */
module JsonText {
  import opened Words

  /** A number is its digits as one integer and how many of them follow the point. */
  datatype Value = Number(digits: nat, decimals: nat) | Text(bytes: seq<byte>) | Object(members: seq<Member>)

  datatype Member = Member(key: seq<byte>, value: Value)

  const QUOTE: byte := 0x22
  const BACKSLASH: byte := 0x5c
  const COLON: byte := 0x3a
  const COMMA: byte := 0x2c
  const POINT: byte := 0x2e
  const OPEN: byte := 0x7b
  const CLOSE: byte := 0x7d

  // ----- numbers -----

  function Digit(d: nat): byte
    requires d < 10
  {
    0x30 + d
  }

  predicate IsDigit(b: byte) {
    0x30 <= b <= 0x39
  }

  predicate AllDigits(ds: seq<byte>) {
    forall d :: d in ds ==> IsDigit(d)
  }

  function Digits(v: nat): (ds: seq<byte>)
    ensures ds != [] && AllDigits(ds)
    ensures |ds| > 1 ==> ds[0] != Digit(0)
  {
    if v < 10 then [Digit(v)] else Digits(v / 10) + [Digit(v % 10)]
  }

  /** The low `k` digits, zeros included. */
  function Padded(v: nat, k: nat): (ds: seq<byte>)
    ensures |ds| == k && AllDigits(ds)
  {
    if k == 0 then [] else Padded(v / 10, k - 1) + [Digit(v % 10)]
  }

  /** The number without its low `k` digits. */
  function Whole(v: nat, k: nat): nat {
    if k == 0 then v else Whole(v / 10, k - 1)
  }

  /** The value of a run of digits. */
  function ValueOf(ds: seq<byte>): nat
    requires AllDigits(ds)
  {
    if ds == [] then 0
    else
      assert ds[|ds| - 1] in ds;
      10 * ValueOf(ds[..|ds| - 1]) + (ds[|ds| - 1] - 0x30)
  }

  lemma {:induction false} DigitsRoundTrip(v: nat)
    ensures ValueOf(Digits(v)) == v
  {
    if v >= 10 {
      DigitsRoundTrip(v / 10);
      assert Digits(v)[..|Digits(v)| - 1] == Digits(v / 10);
    } else {
      assert Digits(v)[..0] == [];
    }
  }

  /** Splitting the low digits off and writing both parts side by side keeps the number. */
  lemma {:induction false} PaddedRoundTrip(v: nat, k: nat)
    ensures ValueOf(Digits(Whole(v, k)) + Padded(v, k)) == v
    decreases k
  {
    if k == 0 {
      DigitsRoundTrip(v);
      assert Digits(v) + [] == Digits(v);
    } else {
      PaddedRoundTrip(v / 10, k - 1);
      var front, ds := Digits(Whole(v / 10, k - 1)) + Padded(v / 10, k - 1), Digits(Whole(v, k)) + Padded(v, k);
      assert ds == front + [Digit(v % 10)];
      assert ds[..|ds| - 1] == front;
    }
  }

  function PrintNumber(digits: nat, decimals: nat): seq<byte> {
    if decimals == 0 then Digits(digits) else Digits(Whole(digits, decimals)) + [POINT] + Padded(digits, decimals)
  }

  /** How many digits the text starts with. */
  function Run(text: seq<byte>): (n: nat)
    ensures n <= |text| && AllDigits(text[..n])
  {
    if text == [] || !IsDigit(text[0]) then 0
    else
      assert text[..1 + Run(text[1..])] == [text[0]] + text[1..][..Run(text[1..])];
      1 + Run(text[1..])
  }

  predicate Delimited(rest: seq<byte>) {
    rest == [] || (!IsDigit(rest[0]) && rest[0] != POINT)
  }

  /** Section 6 without sign and exponent: no leading zero, and at least one digit after a point. */
  function ReadNumber(text: seq<byte>): (r: Option<(Value, seq<byte>)>)
    ensures r.Some? ==> |r.value.1| < |text|
  {
    var n := Run(text);
    if n == 0 || (n > 1 && text[0] == Digit(0)) then None
    else if n == |text| || text[n] != POINT then Some((Number(ValueOf(text[..n]), 0), text[n..]))
    else
      var m := Run(text[n + 1..]);
      if m == 0 then None
      else Some((Number(ValueOf(text[..n] + text[n + 1..][..m]), m), text[n + 1..][m..]))
  }

  lemma {:induction false} RunOf(ds: seq<byte>, rest: seq<byte>)
    requires AllDigits(ds) && (rest == [] || !IsDigit(rest[0]))
    ensures Run(ds + rest) == |ds|
    ensures (ds + rest)[..|ds|] == ds && (ds + rest)[|ds|..] == rest
  {
    if ds == [] {
      assert ds + rest == rest;
    } else {
      assert (ds + rest)[1..] == ds[1..] + rest;
      RunOf(ds[1..], rest);
    }
  }

  /** A whole part, a point, and what follows the digits after it. */
  lemma PointSplits(ds: seq<byte>, fs: seq<byte>, rest: seq<byte>)
    requires AllDigits(ds) && AllDigits(fs) && Delimited(rest)
    ensures var text := ds + [POINT] + fs + rest;
            && Run(text) == |ds| < |text| && text[|ds|] == POINT && text[..|ds|] == ds
            && text[|ds| + 1..] == fs + rest
            && Run(fs + rest) == |fs| && (fs + rest)[..|fs|] == fs && (fs + rest)[|fs|..] == rest
  {
    assert ds + [POINT] + fs + rest == ds + ([POINT] + (fs + rest));
    RunOf(ds, [POINT] + (fs + rest));
    RunOf(fs, rest);
  }

  lemma NumberRoundTrip(digits: nat, decimals: nat, rest: seq<byte>)
    requires Delimited(rest)
    ensures ReadNumber(PrintNumber(digits, decimals) + rest) == Some((Number(digits, decimals), rest))
  {
    if decimals == 0 {
      RunOf(Digits(digits), rest);
      DigitsRoundTrip(digits);
      hide Digits, ValueOf, Run;
      assert rest == [] || rest[0] != POINT;
    } else {
      var ds, fs := Digits(Whole(digits, decimals)), Padded(digits, decimals);
      PaddedRoundTrip(digits, decimals);
      hide Digits, Padded, Whole, ValueOf, Run, AllDigits;
      PointSplits(ds, fs, rest);
      var text := PrintNumber(digits, decimals) + rest;
      assert text == ds + [POINT] + fs + rest;
      assert ds[0] == text[0];
    }
  }

  // ----- strings -----

  function HexDigit(d: nat): byte
    requires d < 16
  {
    if d < 10 then 0x30 + d else 0x61 + (d - 10)
  }

  function Escape(b: byte): seq<byte> {
    if b == QUOTE || b == BACKSLASH then [BACKSLASH, b]
    else if b == 0x08 then [BACKSLASH, 0x62]
    else if b == 0x09 then [BACKSLASH, 0x74]
    else if b == 0x0a then [BACKSLASH, 0x6e]
    else if b == 0x0c then [BACKSLASH, 0x66]
    else if b == 0x0d then [BACKSLASH, 0x72]
    else if b < 0x20 then [BACKSLASH, 0x75, 0x30, 0x30, HexDigit(b / 16), HexDigit(b % 16)]
    else [b]
  }

  function Escaped(bytes: seq<byte>): seq<byte> {
    if bytes == [] then [] else Escape(bytes[0]) + Escaped(bytes[1..])
  }

  function PrintText(bytes: seq<byte>): seq<byte> {
    [QUOTE] + Escaped(bytes) + [QUOTE]
  }

  function HexValue(b: byte): Option<nat> {
    if IsDigit(b) then Some(b - 0x30)
    else if 0x61 <= b <= 0x66 then Some(b - 0x61 + 10)
    else if 0x41 <= b <= 0x46 then Some(b - 0x41 + 10)
    else None
  }

  /** The code point of four hexadecimal digits. */
  function ReadHex(text: seq<byte>): Option<nat> {
    if |text| < 4 then None
    else
      match (HexValue(text[0]), HexValue(text[1]), HexValue(text[2]), HexValue(text[3]))
      case (Some(a), Some(b), Some(c), Some(d)) => Some(((a * 16 + b) * 16 + c) * 16 + d)
      case _ => None
  }

  /** The byte a two-character escape of section 7 stands for. */
  function Unescape(b: byte): Option<byte> {
    if b == QUOTE || b == BACKSLASH || b == 0x2f then Some(b)
    else if b == 0x62 then Some(0x08)
    else if b == 0x66 then Some(0x0c)
    else if b == 0x6e then Some(0x0a)
    else if b == 0x72 then Some(0x0d)
    else if b == 0x74 then Some(0x09)
    else None
  }

  /**
   Section 7, from just after the opening quote: the string's bytes and what follows the closing quote. A bare
   control character is refused, and so is a `\u` escape above 0x7f, whose bytes are not in this model.
   */
  function ReadChars(text: seq<byte>): (r: Option<(seq<byte>, seq<byte>)>)
    ensures r.Some? ==> |r.value.1| < |text|
  {
    if text == [] || text[0] < 0x20 then None
    else if text[0] == QUOTE then Some(([], text[1..]))
    else if text[0] != BACKSLASH then Before(text[0], ReadChars(text[1..]))
    else if |text| < 2 then None
    else if text[1] == 0x75 then
      match ReadHex(text[2..])
      case Some(code) => if code < 0x80 then Before(code, ReadChars(text[6..])) else None
      case None => None
    else
      match Unescape(text[1])
      case Some(b) => Before(b, ReadChars(text[2..]))
      case None => None
  }

  function Before(b: byte, r: Option<(seq<byte>, seq<byte>)>): Option<(seq<byte>, seq<byte>)> {
    match r
    case Some((bytes, rest)) => Some(([b] + bytes, rest))
    case None => None
  }

  lemma HexRoundTrip(b: byte)
    requires b < 0x20
    ensures ReadHex([0x30, 0x30, HexDigit(b / 16), HexDigit(b % 16)]) == Some(b)
  {
  }

  lemma EscapeRoundTrip(b: byte, rest: seq<byte>)
    ensures ReadChars(Escape(b) + rest) == Before(b, ReadChars(rest))
  {
    var text := Escape(b) + rest;
    assert text[|Escape(b)|..] == rest;
    if |Escape(b)| == 6 {
      HexRoundTrip(b);
      assert text[2..][..4] == [0x30, 0x30, HexDigit(b / 16), HexDigit(b % 16)];
    }
  }

  /** Whatever the bytes, and whatever follows, the string comes back. */
  lemma {:induction false} CharsRoundTrip(bytes: seq<byte>, rest: seq<byte>)
    ensures ReadChars(Escaped(bytes) + [QUOTE] + rest) == Some((bytes, rest))
  {
    if bytes == [] {
      assert [] + [QUOTE] + rest == [QUOTE] + rest;
    } else {
      var tail := Escaped(bytes[1..]) + [QUOTE] + rest;
      assert Escaped(bytes) + [QUOTE] + rest == Escape(bytes[0]) + tail;
      hide ReadChars, Escape, Escaped;
      EscapeRoundTrip(bytes[0], tail);
      CharsRoundTrip(bytes[1..], rest);
      assert [bytes[0]] + bytes[1..] == bytes;
    }
  }

  // ----- trees -----

  function Print(v: Value): (text: seq<byte>)
    ensures text != []
    decreases v
  {
    match v
    case Number(digits, decimals) => PrintNumber(digits, decimals)
    case Text(bytes) => PrintText(bytes)
    case Object(members) => [OPEN] + PrintMembers(members)
  }

  function PrintMember(member: Member): seq<byte>
    decreases member
  {
    PrintText(member.key) + [COLON] + Print(member.value)
  }

  /** Members with commas between them, and the closing brace. */
  function PrintMembers(members: seq<Member>): seq<byte>
    decreases members
  {
    if members == [] then [CLOSE]
    else PrintMember(members[0]) + if |members| == 1 then [CLOSE] else [COMMA] + PrintMembers(members[1..])
  }

  function Read(text: seq<byte>): (r: Option<(Value, seq<byte>)>)
    ensures r.Some? ==> |r.value.1| < |text|
    decreases |text|, 1
  {
    if text == [] then None
    else if text[0] == QUOTE then
      match ReadChars(text[1..])
      case Some((bytes, rest)) => Some((Text(bytes), rest))
      case None => None
    else if text[0] != OPEN then ReadNumber(text)
    else if |text| > 1 && text[1] == CLOSE then Some((Object([]), text[2..]))
    else
      match ReadMembers(text[1..])
      case Some((members, rest)) => Some((Object(members), rest))
      case None => None
  }

  /** One member or more, up to and including the closing brace. */
  function ReadMembers(text: seq<byte>): (r: Option<(seq<Member>, seq<byte>)>)
    ensures r.Some? ==> |r.value.1| < |text|
    decreases |text|, 1
  {
    match ReadMember(text)
    case None => None
    case Some((member, rest)) =>
      if rest == [] then None
      else if rest[0] == CLOSE then Some(([member], rest[1..]))
      else if rest[0] != COMMA then None
      else
        match ReadMembers(rest[1..])
        case Some((members, left)) => Some(([member] + members, left))
        case None => None
  }

  function ReadMember(text: seq<byte>): (r: Option<(Member, seq<byte>)>)
    ensures r.Some? ==> |r.value.1| < |text|
    decreases |text|, 0
  {
    if text == [] || text[0] != QUOTE then None
    else
      match ReadChars(text[1..])
      case None => None
      case Some((key, rest)) =>
        if rest == [] || rest[0] != COLON then None
        else
          match Read(rest[1..])
          case Some((value, left)) => Some((Member(key, value), left))
          case None => None
  }

  lemma TextRoundTrip(bytes: seq<byte>, rest: seq<byte>)
    ensures ReadChars((PrintText(bytes) + rest)[1..]) == Some((bytes, rest)) && (PrintText(bytes) + rest)[0] == QUOTE
  {
    assert (PrintText(bytes) + rest)[1..] == Escaped(bytes) + [QUOTE] + rest;
    CharsRoundTrip(bytes, rest);
  }

  lemma NumberStart(digits: nat, decimals: nat)
    ensures IsDigit(PrintNumber(digits, decimals)[0])
  {
    var ds := if decimals == 0 then Digits(digits) else Digits(Whole(digits, decimals));
    hide Digits, Padded, Whole;
    assert ds[0] in ds;
    assert PrintNumber(digits, decimals)[0] == ds[0];
  }

  lemma {:induction false} MemberRoundTrip(member: Member, rest: seq<byte>)
    requires Delimited(rest)
    ensures ReadMember(PrintMember(member) + rest) == Some((member, rest))
    decreases member, 1
  {
    var after := [COLON] + (Print(member.value) + rest);
    assert PrintText(member.key) + [COLON] + Print(member.value) + rest == PrintText(member.key) + after;
    TextRoundTrip(member.key, after);
    assert after[1..] == Print(member.value) + rest;
    RoundTrip(member.value, rest);
    hide ReadChars, PrintText, Print, Read;
  }

  lemma {:induction false} MembersRoundTrip(members: seq<Member>, rest: seq<byte>)
    requires members != []
    ensures ReadMembers(PrintMembers(members) + rest) == Some((members, rest))
    decreases members
  {
    var head, after := PrintMember(members[0]), members[1..];
    if |members| == 1 {
      Regroup(head, CLOSE, [], rest);
      MemberRoundTrip(members[0], [CLOSE] + ([] + rest));
      hide ReadMember, PrintMember, ReadMembers;
      assert [CLOSE] + [] == [CLOSE] && [] + rest == rest && members == [members[0]];
      LastMember(PrintMembers(members) + rest, members[0], [CLOSE] + ([] + rest));
    } else {
      var more := PrintMembers(after);
      Regroup(head, COMMA, more, rest);
      MemberRoundTrip(members[0], [COMMA] + (more + rest));
      MembersRoundTrip(after, rest);
      hide ReadMember, PrintMember, ReadMembers;
      assert members == [members[0]] + after;
      assert PrintMembers(members) == head + ([COMMA] + more);
      hide PrintMembers;
      OneMoreMember(PrintMembers(members) + rest, members[0], [COMMA] + (more + rest), after, rest);
    }
  }

  lemma Regroup(head: seq<byte>, mark: byte, more: seq<byte>, rest: seq<byte>)
    ensures head + ([mark] + more) + rest == head + ([mark] + (more + rest))
    ensures ([mark] + (more + rest))[1..] == more + rest
  {
  }

  lemma LastMember(text: seq<byte>, member: Member, rest: seq<byte>)
    requires ReadMember(text) == Some((member, rest)) && rest != [] && rest[0] == CLOSE
    ensures ReadMembers(text) == Some(([member], rest[1..]))
  {
    hide ReadMember;
  }

  lemma OneMoreMember(text: seq<byte>, member: Member, rest: seq<byte>, members: seq<Member>, left: seq<byte>)
    requires ReadMember(text) == Some((member, rest)) && rest != [] && rest[0] == COMMA
    requires ReadMembers(rest[1..]) == Some((members, left))
    ensures ReadMembers(text) == Some(([member] + members, left))
  {
    hide ReadMember;
  }

  lemma MembersStart(members: seq<Member>)
    requires members != []
    ensures PrintMembers(members) != [] && PrintMembers(members)[0] == QUOTE
  {
    assert PrintText(members[0].key)[0] == QUOTE;
  }

  /** Reading what was printed gives the tree back and stops where it ended; only a number needs a delimiter. */
  lemma {:induction false} RoundTrip(v: Value, rest: seq<byte>)
    requires v.Number? ==> Delimited(rest)
    ensures Read(Print(v) + rest) == Some((v, rest))
    decreases v
  {
    match v
    case Number(digits, decimals) =>
      NumberStart(digits, decimals);
      NumberRoundTrip(digits, decimals, rest);
    case Text(bytes) => TextRoundTrip(bytes, rest);
    case Object(members) =>
      var text := Print(v) + rest;
      assert text[1..] == PrintMembers(members) + rest;
      if members == [] {
        assert text == [OPEN, CLOSE] + rest;
        assert text[2..] == rest;
      } else {
        MembersStart(members);
        MembersRoundTrip(members, rest);
      }
  }
}

/** The exporter: the printers it is made of, its memoised templates and its stream of entries. */
module Json {
  import opened Words
  import opened Events
  import opened Sink
  import opened JsonText

  // ----- printers -----

  function Reversed(bytes: seq<byte>): seq<byte> {
    if bytes == [] then [] else [bytes[|bytes| - 1]] + Reversed(bytes[..|bytes| - 1])
  }

  /** The digits still to come: none once the number is used up, but a lone zero has one. */
  function Ahead(v: nat, n: nat): seq<byte> {
    if v == 0 && n > 0 then [] else Digits(v)
  }

  function Ten(k: nat): (p: nat)
    ensures p > 0
  {
    if k == 0 then 1 else 10 * Ten(k - 1)
  }

  lemma TenTwenty()
    ensures Ten(20) > U64_MAX
  {
    assert Ten(5) == 10_0000 && Ten(10) == 10_0000 * Ten(5) by { FiveMore(5); }
    FiveMore(10);
    FiveMore(15);
  }

  lemma FiveMore(k: nat)
    ensures Ten(k + 5) == 10_0000 * Ten(k)
  {
    assert Ten(k + 1) == 10 * Ten(k) && Ten(k + 2) == 100 * Ten(k) && Ten(k + 3) == 1000 * Ten(k);
    assert Ten(k + 4) == 1_0000 * Ten(k);
  }

  lemma LastDigitAhead(v: nat, n: nat)
    requires v > 0 || n == 0
    ensures Ahead(v, n) == Ahead(v / 10, n + 1) + [Digit(v % 10)]
  {
  }

  lemma ReversedAppend(bytes: seq<byte>, b: byte)
    ensures Reversed(bytes + [b]) == [b] + Reversed(bytes)
  {
    assert (bytes + [b])[..|bytes|] == bytes;
  }

  lemma NextDigit(v: nat, n: nat, before: seq<byte>)
    requires v > 0 || n == 0
    ensures Ahead(v, n) + Reversed(before) == Ahead(v / 10, n + 1) + Reversed(before + [Digit(v % 10)])
  {
    LastDigitAhead(v, n);
    ReversedAppend(before, Digit(v % 10));
    hide Ahead, Reversed;
    var front, mid, back := Ahead(v / 10, n + 1), [Digit(v % 10)], Reversed(before);
    assert front + mid + back == front + (mid + back);
  }

  lemma NothingYet(value: u64)
    ensures Ahead(value, 0) + Reversed([]) == Digits(value)
  {
    assert Digits(value) + [] == Digits(value);
  }

  /** Digits into the buffer, lowest first. */
  method FillDigits(digits: array<byte>, value: u64) returns (n: nat)
    requires digits.Length == 20
    modifies digits
    ensures 0 < n <= 20 && Reversed(digits[..n]) == Digits(value)
  {
    TenTwenty();
    NothingYet(value);
    hide Ten, Ahead, Reversed, Digits;
    var v: nat := value;
    n := 0;
    assert digits[..0] == [];
    while true
      invariant 0 <= n < 20 && (v > 0 || n == 0) && v < Ten(20 - n)
      invariant Ahead(v, n) + Reversed(digits[..n]) == Digits(value)
      decreases v
    {
      NextDigit(v, n, digits[..n]);
      TenShrinks(20 - n, v);
      digits[n] := Digit(v % 10);
      assert digits[..n + 1] == digits[..n] + [Digit(v % 10)];
      v := v / 10;
      n := n + 1;
      if v == 0 {
        break;
      }
    }
    NoneAhead(n);
    assert [] + Reversed(digits[..n]) == Reversed(digits[..n]);
  }

  lemma NoneAhead(n: nat)
    requires n > 0
    ensures Ahead(0, n) == []
  {
  }

  /** `push_u64`: digits into a buffer of twenty, and out of it again backwards. */
  method PushU64(before: seq<byte>, value: u64) returns (out: seq<byte>)
    ensures out == before + Digits(value)
  {
    var digits := new byte[20];
    var n := FillDigits(digits, value);
    out := before;
    ghost var total := Reversed(digits[..n]);
    while n > 0
      invariant 0 <= n <= 20 && out + Reversed(digits[..n]) == before + total
    {
      n := n - 1;
      assert digits[..n + 1][..n] == digits[..n];
      assert out + ([digits[n]] + Reversed(digits[..n])) == out + [digits[n]] + Reversed(digits[..n]);
      out := out + [digits[n]];
    }
    assert out + [] == out;
  }

  lemma TenShrinks(k: nat, v: nat)
    requires k > 0 && v < Ten(k)
    ensures v / 10 < Ten(k - 1)
    ensures v / 10 > 0 ==> k > 1
  {
  }

  lemma LastDigits(q: nat, a: nat, b: nat, c: nat)
    requires a < 10 && b < 10 && c < 10
    ensures var n := 1000 * q + 100 * a + 10 * b + c;
            && n % 10 == c && n / 10 == 100 * q + 10 * a + b
            && n / 10 % 10 == b && n / 10 / 10 == 10 * q + a
            && n / 10 / 10 % 10 == a && n / 10 / 10 / 10 == q
  {
  }

  lemma MicrosDigits(ns: nat)
    ensures Whole(ns, 3) == ns / 1000
    ensures var frac := ns % 1000;
            Padded(ns, 3) == [Digit(frac / 100), Digit(frac / 10 % 10), Digit(frac % 10)]
  {
    var q, frac := ns / 1000, ns % 1000;
    var a, b, c := frac / 100, frac / 10 % 10, frac % 10;
    assert ns == 1000 * q + 100 * a + 10 * b + c;
    LastDigits(q, a, b, c);
    ThreeDigits(ns);
  }

  lemma ThreeDigits(n: nat)
    ensures Whole(n, 3) == n / 10 / 10 / 10
    ensures Padded(n, 3) == [Digit(n / 10 / 10 % 10), Digit(n / 10 % 10), Digit(n % 10)]
  {
    assert Whole(n / 10 / 10, 1) == n / 10 / 10 / 10;
    assert Whole(n / 10, 2) == n / 10 / 10 / 10;
    assert Padded(n / 10 / 10, 1) == [Digit(n / 10 / 10 % 10)];
    assert Padded(n / 10, 2) == Padded(n / 10 / 10, 1) + [Digit(n / 10 % 10)];
  }

  /** `push_micros`: nanoseconds as microseconds with three decimals. */
  method PushMicros(before: seq<byte>, ns: u64) returns (out: seq<byte>)
    ensures out == before + PrintNumber(ns, 3)
  {
    MicrosDigits(ns);
    hide Whole, Padded, Digits;
    out := PushU64(before, ns / 1000);
    var frac := ns % 1000;
    out := out + [POINT];
    out := out + [Digit(frac / 100)];
    out := out + [Digit(frac / 10 % 10)];
    out := out + [Digit(frac % 10)];
  }

  const HEX: seq<byte> :=
    [0x30, 0x31, 0x32, 0x33, 0x34, 0x35, 0x36, 0x37, 0x38, 0x39, 0x61, 0x62, 0x63, 0x64, 0x65, 0x66]

  /** The match on one byte. */
  method PushEscaped(before: seq<byte>, b: byte) returns (out: seq<byte>)
    ensures out == before + Escape(b)
  {
    if b == QUOTE {
      out := before + [BACKSLASH, QUOTE];
    } else if b == BACKSLASH {
      out := before + [BACKSLASH, BACKSLASH];
    } else if b == 0x08 {
      out := before + [BACKSLASH, 0x62];
    } else if b == 0x09 {
      out := before + [BACKSLASH, 0x74];
    } else if b == 0x0a {
      out := before + [BACKSLASH, 0x6e];
    } else if b == 0x0c {
      out := before + [BACKSLASH, 0x66];
    } else if b == 0x0d {
      out := before + [BACKSLASH, 0x72];
    } else if b < 0x20 {
      out := before + [BACKSLASH, 0x75, 0x30, 0x30, HEX[b / 16], HEX[b % 16]];
    } else {
      out := before + [b];
    }
  }

  lemma NoneEscaped(text: seq<byte>)
    ensures Escaped(text[|text|..]) == []
  {
  }

  lemma NextEscaped(text: seq<byte>, i: nat)
    requires i < |text|
    ensures Escaped(text[i..]) == Escape(text[i]) + Escaped(text[i + 1..])
  {
    assert text[i..][1..] == text[i + 1..];
  }

  /** `push_string`. */
  method PushString(before: seq<byte>, text: seq<byte>) returns (out: seq<byte>)
    ensures out == before + PrintText(text)
  {
    out := before + [QUOTE];
    assert text[0..] == text;
    NoneEscaped(text);
    hide Escape, Escaped;
    var i := 0;
    while i < |text|
      invariant i <= |text|
      invariant out + Escaped(text[i..]) == before + [QUOTE] + Escaped(text)
    {
      var b := text[i];
      NextEscaped(text, i);
      assert out + (Escape(b) + Escaped(text[i + 1..])) == out + Escape(b) + Escaped(text[i + 1..]);
      out := PushEscaped(out, b);
      i := i + 1;
    }
    assert out + [] == out;
    assert before + [QUOTE] + Escaped(text) + [QUOTE] == before + ([QUOTE] + Escaped(text) + [QUOTE]);
    out := out + [QUOTE];
  }

  // ----- an entry and its tree -----

  function KindName(kind: EventKind): string {
    match kind
    case Begin => "start"
    case End => "return"
    case Yield => "yield"
    case Resume => "resume"
    case Unwind => "unwind"
    case Throw => "throw"
  }

  function Phase(codeKind: u32): byte {
    if Opens(codeKind) then 0x42 else 0x45
  }

  function Args(info: Code, codeKind: u32): Value {
    Object([Member(Ascii("file"), Text(info.filename)),
            Member(Ascii("line"), Number(info.line, 0)),
            Member(Ascii("kind"), Text(Ascii(KindName(KindOf(codeKind)))))])
  }

  /** The trace event an entry stands for. */
  function Tree(info: Code, pid: u32, e: Event): Value {
    Object([Member(Ascii("name"), Text(NameOf(info))),
            Member(Ascii("cat"), Text(Ascii("py"))),
            Member(Ascii("ph"), Text([Phase(e.codeKind)])),
            Member(Ascii("ts"), Number(e.tsNs, 3)),
            Member(Ascii("pid"), Number(pid, 0)),
            Member(Ascii("tid"), Number(e.tid, 0)),
            Member(Ascii("args"), Args(info, e.codeKind))])
  }

  datatype Template = Template(head: seq<byte>, tail: seq<byte>)

  function TemplateOf(info: Code): Template {
    Template(Ascii("{\"name\":") + PrintText(NameOf(info)) + Ascii(",\"cat\":\"py\",\"ph\":\""),
             Ascii(",\"args\":{\"file\":") + PrintText(info.filename) + Ascii(",\"line\":") + Digits(info.line)
             + Ascii(",\"kind\":\""))
  }

  /** The bytes pushed for one event. */
  function EntryText(t: Template, pid: u32, e: Event): seq<byte> {
    t.head + [Phase(e.codeKind)] + Ascii("\",\"ts\":") + PrintNumber(e.tsNs, 3) + Ascii(",\"pid\":") + Digits(pid)
    + Ascii(",\"tid\":") + Digits(e.tid) + t.tail + Ascii(KindName(KindOf(e.codeKind))) + Ascii("\"}},")
  }

  // ----- the entry is its tree, printed -----

  /** Bytes the string printer leaves alone. */
  predicate Plain(bytes: seq<byte>) {
    forall i :: 0 <= i < |bytes| ==> bytes[i] >= 0x20 && bytes[i] != QUOTE && bytes[i] != BACKSLASH
  }

  lemma {:induction false} PlainText(bytes: seq<byte>)
    requires Plain(bytes)
    ensures Escaped(bytes) == bytes && PrintText(bytes) == [QUOTE] + bytes + [QUOTE]
  {
    if bytes != [] {
      PlainText(bytes[1..]);
      assert bytes == [bytes[0]] + bytes[1..];
    }
  }

  function Key(key: seq<byte>): seq<byte> {
    [QUOTE] + key + [QUOTE, COLON]
  }

  lemma PlainMember(key: seq<byte>, value: Value)
    requires Plain(key)
    ensures PrintMember(Member(key, value)) == Key(key) + Print(value)
  {
    PlainText(key);
    assert [QUOTE] + key + [QUOTE] + [COLON] == [QUOTE] + key + [QUOTE, COLON];
  }

  /** A literal that holds a mark and a key, then the value: the mark, then the member. */
  lemma Glue(before: seq<byte>, literal: seq<byte>, mark: byte, member: Member)
    requires Plain(member.key) && literal == [mark] + Key(member.key)
    ensures before + literal + Print(member.value) == before + [mark] + PrintMember(member)
  {
    PlainMember(member.key, member.value);
    hide PrintMember, Print, Key, Plain;
    assert before + ([mark] + Key(member.key)) + Print(member.value) == before + [mark] + (Key(member.key) + Print(member.value));
  }

  /** A text value whose quotes belong to the literals around it. */
  lemma GlueText(before: seq<byte>, literal: seq<byte>, mark: byte, member: Member, close: seq<byte>)
    requires member.value.Text? && Plain(member.key) && Plain(member.value.bytes)
    requires literal == [mark] + Key(member.key) + [QUOTE]
    ensures before + literal + member.value.bytes + ([QUOTE] + close) == before + [mark] + PrintMember(member) + close
  {
    var text := member.value.bytes;
    PlainMember(member.key, member.value);
    PlainText(text);
    hide PrintMember, Key, Escaped, Plain;
    assert before + ([mark] + Key(member.key) + [QUOTE]) + text + ([QUOTE] + close)
        == before + [mark] + (Key(member.key) + ([QUOTE] + text + [QUOTE])) + close;
  }

  /** Printing the members after what is already there, one after the other. */
  function Onto(acc: seq<byte>, members: seq<Member>): seq<byte>
    requires members != []
    decreases |members|
  {
    if |members| == 1 then acc + PrintMember(members[0]) + [CLOSE]
    else Onto(acc + PrintMember(members[0]) + [COMMA], members[1..])
  }

  lemma {:induction false} OntoPrints(acc: seq<byte>, members: seq<Member>)
    requires members != []
    ensures Onto(acc, members) == acc + PrintMembers(members)
    decreases |members|
  {
    hide PrintMember;
    if |members| > 1 {
      OntoPrints(acc + PrintMember(members[0]) + [COMMA], members[1..]);
    }
  }

  lemma More(acc: seq<byte>, member: Member, members: seq<Member>)
    requires members != []
    ensures Onto(acc, [member] + members) == Onto(acc + PrintMember(member) + [COMMA], members)
  {
    assert ([member] + members)[1..] == members;
  }

  lemma ThreeMembers(a: Member, b: Member, c: Member)
    ensures Print(Object([a, b, c]))
         == [OPEN] + PrintMember(a) + [COMMA] + PrintMember(b) + [COMMA] + PrintMember(c) + [CLOSE]
  {
    OntoPrints([OPEN], [a, b, c]);
    More([OPEN], a, [b, c]);
    hide PrintMember;
    More([OPEN] + PrintMember(a) + [COMMA], b, [c]);
    assert [a] + [b, c] == [a, b, c] && [b] + [c] == [b, c];
  }

  /** Two members and a last text member, from literals that hold the punctuation. */
  lemma GlueThree(l1: seq<byte>, l2: seq<byte>, l3: seq<byte>, l4: seq<byte>, a: Member, b: Member, c: Member)
    requires c.value.Text? && Plain(a.key) && Plain(b.key) && Plain(c.key) && Plain(c.value.bytes)
    requires l1 == [OPEN] + Key(a.key) && l2 == [COMMA] + Key(b.key) && l3 == [COMMA] + Key(c.key) + [QUOTE]
    requires l4 == [QUOTE, CLOSE]
    ensures l1 + Print(a.value) + l2 + Print(b.value) + l3 + c.value.bytes + l4 == Print(Object([a, b, c]))
  {
    ThreeMembers(a, b, c);
    hide PrintMember, Print, Key, Plain;
    Glue([], l1, OPEN, a);
    assert [] + l1 == l1 && [] + [OPEN] == [OPEN] && [QUOTE] + [CLOSE] == l4;
    var one := [OPEN] + PrintMember(a);
    Glue(one, l2, COMMA, b);
    GlueText(one + [COMMA] + PrintMember(b), l3, COMMA, c, [CLOSE]);
  }

  function FourMembers(a: Member, b: Member, c: Member, d: Member): seq<byte> {
    [OPEN] + PrintMember(a) + [COMMA] + PrintMember(b) + [COMMA] + PrintMember(c) + [COMMA] + PrintMember(d)
  }

  lemma FirstFour(a: Member, b: Member, c: Member, d: Member, members: seq<Member>)
    requires members != []
    ensures Onto([OPEN], [a, b, c, d] + members) == Onto(FourMembers(a, b, c, d) + [COMMA], members)
  {
    hide PrintMember;
    var m3 := [d] + members;
    var m2 := [c] + m3;
    var m1 := [b] + m2;
    var p1 := [OPEN] + PrintMember(a) + [COMMA];
    var p2 := p1 + PrintMember(b) + [COMMA];
    More([OPEN], a, m1);
    More(p1, b, m2);
    More(p2, c, m3);
    More(p2 + PrintMember(c) + [COMMA], d, members);
    hide Onto;
    assert [a] + m1 == [a, b, c, d] + members;
  }

  lemma SevenMembers(a: Member, b: Member, c: Member, d: Member, e: Member, f: Member, g: Member)
    ensures Print(Object([a, b, c, d, e, f, g]))
         == FourMembers(a, b, c, d) + [COMMA] + PrintMember(e) + [COMMA] + PrintMember(f) + [COMMA] + PrintMember(g) + [CLOSE]
  {
    OntoPrints([OPEN], [a, b, c, d, e, f, g]);
    FirstFour(a, b, c, d, [e, f, g]);
    hide PrintMember, FourMembers;
    var p4 := FourMembers(a, b, c, d) + [COMMA];
    More(p4, e, [f, g]);
    More(p4 + PrintMember(e) + [COMMA], f, [g]);
    assert [a, b, c, d] + [e, f, g] == [a, b, c, d, e, f, g];
    assert [e] + [f, g] == [e, f, g] && [f] + [g] == [f, g];
  }

  /** The head, the phase and the timestamp: four members. */
  lemma GlueStart(l1: seq<byte>, lb: seq<byte>, lc: seq<byte>, ld: seq<byte>, l2: seq<byte>, l3: seq<byte>,
                  a: Member, b: Member, c: Member, d: Member)
    requires b.value.Text? && c.value.Text? && Plain(b.value.bytes) && Plain(c.value.bytes)
    requires Plain(a.key) && Plain(b.key) && Plain(c.key) && Plain(d.key)
    requires l1 == [OPEN] + Key(a.key)
    requires lb == [COMMA] + Key(b.key) + [QUOTE]
    requires lc == [COMMA] + Key(c.key) + [QUOTE]
    requires ld == [COMMA] + Key(d.key)
    requires l2 == lb + b.value.bytes + ([QUOTE] + lc) && l3 == [QUOTE] + ld
    ensures var text := l1 + Print(a.value) + l2 + c.value.bytes + l3 + Print(d.value);
            text == FourMembers(a, b, c, d)
  {
    hide PrintMember, Print, Key, Plain;
    var one := [OPEN] + PrintMember(a);
    GlueFirst(l1, a);
    var two := one + [COMMA] + PrintMember(b);
    GlueText(one, lb, COMMA, b, lc);
    Inner(one, lb, b.value.bytes, [QUOTE] + lc);
    GlueText(two, lc, COMMA, c, ld);
    Glue(two + [COMMA] + PrintMember(c), ld, COMMA, d);
  }

  lemma GlueFirst(literal: seq<byte>, member: Member)
    requires Plain(member.key) && literal == [OPEN] + Key(member.key)
    ensures literal + Print(member.value) == [OPEN] + PrintMember(member)
  {
    Glue([], literal, OPEN, member);
    hide PrintMember, Print, Key, Plain;
    assert [] + literal == literal && [] + [OPEN] == [OPEN];
  }

  lemma Inner(a: seq<byte>, b: seq<byte>, c: seq<byte>, d: seq<byte>)
    ensures a + (b + c + d) == a + b + c + d
  {
  }

  /** All seven members, and the comma that ends an entry. */
  lemma GlueSeven(start: seq<byte>, l4: seq<byte>, l5: seq<byte>, rest: seq<byte>,
                  a: Member, b: Member, c: Member, d: Member, e: Member, f: Member, g: Member)
    requires start == FourMembers(a, b, c, d)
    requires Plain(e.key) && Plain(f.key) && Plain(g.key)
    requires l4 == [COMMA] + Key(e.key) && l5 == [COMMA] + Key(f.key)
    requires rest == [COMMA] + Key(g.key) + Print(g.value) + [CLOSE, COMMA]
    ensures start + l4 + Print(e.value) + l5 + Print(f.value) + rest == Print(Object([a, b, c, d, e, f, g])) + [COMMA]
  {
    SevenMembers(a, b, c, d, e, f, g);
    hide PrintMember, Print, Key, Plain, FourMembers;
    Glue(start, l4, COMMA, e);
    var five := start + [COMMA] + PrintMember(e);
    Glue(five, l5, COMMA, f);
    var six := five + [COMMA] + PrintMember(f);
    Glue(six, [COMMA] + Key(g.key), COMMA, g);
    Inner(six, [COMMA] + Key(g.key), Print(g.value), [CLOSE, COMMA]);
    assert [CLOSE] + [COMMA] == [CLOSE, COMMA];
    assert six + [COMMA] + PrintMember(g) + [CLOSE, COMMA] == six + [COMMA] + PrintMember(g) + [CLOSE] + [COMMA];
  }

  predicate LowerCase(word: string) {
    forall i :: 0 <= i < |word| ==> 'a' <= word[i] <= 'z'
  }

  lemma PlainWord(word: string)
    requires LowerCase(word)
    ensures Plain(Ascii(word))
  {
  }

  lemma PlainHead()
    ensures Plain(Ascii("name")) && Plain(Ascii("cat")) && Plain(Ascii("py"))
  {
    hide Plain, Ascii;
    PlainWord("name");
    PlainWord("cat");
    PlainWord("py");
  }

  lemma PlainMiddle()
    ensures Plain(Ascii("ph")) && Plain(Ascii("ts")) && Plain(Ascii("pid")) && Plain(Ascii("tid"))
  {
    hide Plain, Ascii;
    PlainWord("ph");
    PlainWord("ts");
    PlainWord("pid");
    PlainWord("tid");
  }

  lemma PlainArgs()
    ensures Plain(Ascii("args")) && Plain(Ascii("file")) && Plain(Ascii("line")) && Plain(Ascii("kind"))
  {
    hide Plain, Ascii;
    PlainWord("args");
    PlainWord("file");
    PlainWord("line");
    PlainWord("kind");
  }

  lemma PlainKind(kind: EventKind)
    ensures Plain(Ascii(KindName(kind)))
  {
    hide Plain, Ascii;
    match kind
    case Begin => PlainWord("start");
    case End => PlainWord("return");
    case Yield => PlainWord("yield");
    case Resume => PlainWord("resume");
    case Unwind => PlainWord("unwind");
    case Throw => PlainWord("throw");
  }

  lemma HeadLiterals()
    ensures Ascii("{\"name\":") == [OPEN] + Key(Ascii("name"))
    ensures var lc := [COMMA] + Key(Ascii("ph")) + [QUOTE];
            Ascii(",\"cat\":\"py\",\"ph\":\"") == [COMMA] + Key(Ascii("cat")) + [QUOTE] + Ascii("py") + ([QUOTE] + lc)
    ensures var ld := [COMMA] + Key(Ascii("ts")); Ascii("\",\"ts\":") == [QUOTE] + ld
  {
  }

  lemma IdLiterals()
    ensures Ascii(",\"pid\":") == [COMMA] + Key(Ascii("pid")) && Ascii(",\"tid\":") == [COMMA] + Key(Ascii("tid"))
  {
  }

  lemma ArgsLiterals()
    ensures var l1 := [OPEN] + Key(Ascii("file")); Ascii(",\"args\":{\"file\":") == [COMMA] + Key(Ascii("args")) + l1
    ensures Ascii(",\"line\":") == [COMMA] + Key(Ascii("line"))
  {
  }

  lemma EndLiterals()
    ensures Ascii(",\"kind\":\"") == [COMMA] + Key(Ascii("kind")) + [QUOTE]
    ensures Ascii("\"}},") == [QUOTE, CLOSE] + [CLOSE, COMMA]
  {
  }

  lemma RegroupArgs(p: seq<byte>, l1: seq<byte>, a: seq<byte>, l2: seq<byte>, b: seq<byte>, l3: seq<byte>,
                    c: seq<byte>, q: seq<byte>, z: seq<byte>)
    ensures var grouped := l1 + a + l2 + b + l3 + c + q; (p + l1) + a + l2 + b + l3 + c + (q + z) == p + grouped + z
  {
  }

  function RestText(info: Code, codeKind: u32): seq<byte> {
    TemplateOf(info).tail + Ascii(KindName(KindOf(codeKind))) + Ascii("\"}},")
  }

  lemma RestIsPrinted(info: Code, codeKind: u32)
    ensures RestText(info, codeKind) == [COMMA] + Key(Ascii("args")) + Print(Args(info, codeKind)) + [CLOSE, COMMA]
  {
    ArgsLiterals();
    EndLiterals();
    PlainArgs();
    PlainKind(KindOf(codeKind));
    var name := Ascii(KindName(KindOf(codeKind)));
    hide Ascii, Plain, Key, KindName, KindOf, Digits;
    var file, line := Member(Ascii("file"), Text(info.filename)), Member(Ascii("line"), Number(info.line, 0));
    var kind := Member(Ascii("kind"), Text(name));
    var l1, l2 := [OPEN] + Key(Ascii("file")), [COMMA] + Key(Ascii("line"));
    var l3 := [COMMA] + Key(Ascii("kind")) + [QUOTE];
    GlueThree(l1, l2, l3, [QUOTE, CLOSE], file, line, kind);
    RegroupArgs([COMMA] + Key(Ascii("args")), l1, PrintText(info.filename), l2, Digits(info.line), l3, name,
                [QUOTE, CLOSE], [CLOSE, COMMA]);
  }

  function StartText(info: Code, e: Event): seq<byte> {
    TemplateOf(info).head + [Phase(e.codeKind)] + Ascii("\",\"ts\":") + PrintNumber(e.tsNs, 3)
  }

  lemma EntrySplits(info: Code, pid: u32, e: Event)
    ensures EntryText(TemplateOf(info), pid, e)
         == StartText(info, e) + Ascii(",\"pid\":") + Digits(pid) + Ascii(",\"tid\":") + Digits(e.tid) + RestText(info, e.codeKind)
  {
    var t := TemplateOf(info);
    var front := StartText(info, e) + Ascii(",\"pid\":") + Digits(pid) + Ascii(",\"tid\":") + Digits(e.tid);
    hide Ascii, KindName, KindOf, Digits, TemplateOf, PrintNumber, Phase;
    Inner(front, t.tail, Ascii(KindName(KindOf(e.codeKind))), Ascii("\"}},"));
  }

  lemma StartIsPrinted(info: Code, e: Event)
    ensures StartText(info, e)
         == FourMembers(Member(Ascii("name"), Text(NameOf(info))), Member(Ascii("cat"), Text(Ascii("py"))),
                        Member(Ascii("ph"), Text([Phase(e.codeKind)])), Member(Ascii("ts"), Number(e.tsNs, 3)))
  {
    PlainHead();
    PlainMiddle();
    HeadLiterals();
    var ph := [Phase(e.codeKind)];
    assert Plain(ph);
    var a, b := Member(Ascii("name"), Text(NameOf(info))), Member(Ascii("cat"), Text(Ascii("py")));
    var c, d := Member(Ascii("ph"), Text(ph)), Member(Ascii("ts"), Number(e.tsNs, 3));
    hide Ascii, Plain, Key, NameOf, PrintNumber, Phase, FourMembers, PrintText;
    var l1, lb := [OPEN] + Key(Ascii("name")), [COMMA] + Key(Ascii("cat")) + [QUOTE];
    var lc, ld := [COMMA] + Key(Ascii("ph")) + [QUOTE], [COMMA] + Key(Ascii("ts"));
    GlueStart(l1, lb, lc, ld, lb + Ascii("py") + ([QUOTE] + lc), [QUOTE] + ld, a, b, c, d);
  }

  /** The bytes pushed for an event are its tree, printed, and a comma. */
  lemma EntryIsPrinted(info: Code, pid: u32, e: Event)
    ensures EntryText(TemplateOf(info), pid, e) == Print(Tree(info, pid, e)) + [COMMA]
  {
    PlainMiddle();
    PlainArgs();
    IdLiterals();
    EntrySplits(info, pid, e);
    StartIsPrinted(info, e);
    RestIsPrinted(info, e.codeKind);
    hide Ascii, Plain, Key, KindName, KindOf, Digits, Args, NameOf, Phase, FourMembers, EntryText, StartText, RestText;
    GlueSeven(StartText(info, e), [COMMA] + Key(Ascii("pid")), [COMMA] + Key(Ascii("tid")), RestText(info, e.codeKind),
              Member(Ascii("name"), Text(NameOf(info))), Member(Ascii("cat"), Text(Ascii("py"))),
              Member(Ascii("ph"), Text([Phase(e.codeKind)])), Member(Ascii("ts"), Number(e.tsNs, 3)),
              Member(Ascii("pid"), Number(pid, 0)), Member(Ascii("tid"), Number(e.tid, 0)),
              Member(Ascii("args"), Args(info, e.codeKind)));
  }

  // ----- the stream -----

  /** Entries one after the other, each with its comma. */
  function Entries(codes: Codes, pid: u32, events: seq<Event>): seq<byte> {
    if events == [] then []
    else
      var e := events[|events| - 1];
      Entries(codes, pid, events[..|events| - 1]) + (Print(Tree(InfoOf(codes, CodeOf(e.codeKind)), pid, e)) + [COMMA])
  }

  function Trees(codes: Codes, pid: u32, events: seq<Event>): (trees: seq<Value>)
    ensures |trees| == |events|
  {
    seq(|events|, i requires 0 <= i < |events| => Tree(InfoOf(codes, CodeOf(events[i].codeKind)), pid, events[i]))
  }

  /** A stream of trees, each followed by a comma, to its end. */
  function ReadEntries(text: seq<byte>): Option<seq<Value>>
    decreases |text|
  {
    if text == [] then Some([])
    else
      match Read(text)
      case None => None
      case Some((tree, rest)) =>
        if rest == [] || rest[0] != COMMA then None
        else
          match ReadEntries(rest[1..])
          case Some(trees) => Some([tree] + trees)
          case None => None
  }

  lemma {:induction false} EntriesFromFront(codes: Codes, pid: u32, a: seq<Event>, b: seq<Event>)
    ensures Entries(codes, pid, a + b) == Entries(codes, pid, a) + Entries(codes, pid, b)
    decreases |b|
  {
    if b == [] {
      assert a + b == a;
    } else {
      var front, last := b[..|b| - 1], b[|b| - 1];
      EntriesFromFront(codes, pid, a, front);
      AddLast(a, b);
      hide *;
      LastEntry(codes, pid, a + front, last);
      LastEntry(codes, pid, front, last);
      Associates(Entries(codes, pid, a), Entries(codes, pid, front),
                 Print(Tree(InfoOf(codes, CodeOf(last.codeKind)), pid, last)) + [COMMA]);
    }
  }

  lemma AddLast(a: seq<Event>, b: seq<Event>)
    requires b != []
    ensures var front, last := b[..|b| - 1], b[|b| - 1]; b == front + [last] && a + b == (a + front) + [last]
  {
  }

  lemma Associates(a: seq<byte>, b: seq<byte>, c: seq<byte>)
    ensures (a + b) + c == a + (b + c)
  {
  }

  lemma LastEntry(codes: Codes, pid: u32, events: seq<Event>, e: Event)
    ensures Entries(codes, pid, events + [e])
         == Entries(codes, pid, events) + (Print(Tree(InfoOf(codes, CodeOf(e.codeKind)), pid, e)) + [COMMA])
  {
    assert (events + [e])[..|events|] == events;
    hide Tree, Print;
  }

  lemma OneEntry(codes: Codes, pid: u32, e: Event, rest: seq<byte>)
    requires ReadEntries(rest).Some?
    ensures var tree := Tree(InfoOf(codes, CodeOf(e.codeKind)), pid, e);
            && Entries(codes, pid, [e]) == Print(tree) + [COMMA]
            && ReadEntries(Print(tree) + [COMMA] + rest) == Some([tree] + ReadEntries(rest).value)
  {
    var tree := Tree(InfoOf(codes, CodeOf(e.codeKind)), pid, e);
    RoundTrip(tree, [COMMA] + rest);
    assert [e][..0] == [];
    hide Tree, Print, Read;
    assert Print(tree) + [COMMA] + rest == Print(tree) + ([COMMA] + rest);
    assert ([COMMA] + rest)[1..] == rest;
    assert [] + (Print(tree) + [COMMA]) == Print(tree) + [COMMA];
  }

  lemma TreesFromFront(codes: Codes, pid: u32, events: seq<Event>)
    requires events != []
    ensures Trees(codes, pid, events)
         == [Tree(InfoOf(codes, CodeOf(events[0].codeKind)), pid, events[0])] + Trees(codes, pid, events[1..])
  {
    hide Tree;
  }

  /** The whole stream reads back as the trace events, in order. */
  lemma {:induction false} StreamRoundTrip(codes: Codes, pid: u32, events: seq<Event>)
    ensures ReadEntries(Entries(codes, pid, events)) == Some(Trees(codes, pid, events))
    decreases |events|
  {
    if events == [] {
    } else {
      var first, later := events[0], events[1..];
      TreesFromFront(codes, pid, events);
      hide Entries, ReadEntries, Tree, Trees, Print, InfoOf;
      StreamRoundTrip(codes, pid, later);
      OneEntry(codes, pid, first, Entries(codes, pid, later));
      assert events == [first] + later;
      EntriesFromFront(codes, pid, [first], later);
    }
  }

  // ----- what a viewer makes of a tree -----

  /** One slice event as the viewer shows it; the stamp is in nanoseconds. */
  datatype Shown = Shown(name: seq<byte>, begins: bool, tsNs: nat, pid: nat, tid: nat,
                         file: seq<byte>, line: nat, kind: EventKind)

  /** The value of the first member with a key. */
  function Find(members: seq<Member>, key: string): Option<Value> {
    if members == [] then None
    else if members[0].key == Ascii(key) then Some(members[0].value)
    else Find(members[1..], key)
  }

  function TextAt(members: seq<Member>, key: string): Option<seq<byte>> {
    match Find(members, key)
    case Some(Text(bytes)) => Some(bytes)
    case _ => None
  }

  /** A number with so many decimals, as the integer its digits make. */
  function NumberAt(members: seq<Member>, key: string, decimals: nat): Option<nat> {
    match Find(members, key)
    case Some(Number(digits, places)) => if places == decimals then Some(digits) else None
    case _ => None
  }

  function KindNamed(name: seq<byte>): Option<EventKind> {
    if name == Ascii("start") then Some(Begin)
    else if name == Ascii("return") then Some(End)
    else if name == Ascii("yield") then Some(Yield)
    else if name == Ascii("resume") then Some(Resume)
    else if name == Ascii("unwind") then Some(Unwind)
    else if name == Ascii("throw") then Some(Throw)
    else None
  }

  /** A trace event: phase B begins a slice, E ends one, and the stamp is in microseconds with three decimals. */
  function Show(tree: Value): Option<Shown> {
    if !tree.Object? then None
    else
      var m := tree.members;
      match (TextAt(m, "name"), TextAt(m, "ph"), NumberAt(m, "ts", 3), NumberAt(m, "pid", 0), NumberAt(m, "tid", 0), Find(m, "args"))
      case (Some(name), Some(phase), Some(ts), Some(pid), Some(tid), Some(Object(args))) =>
        if phase != Ascii("B") && phase != Ascii("E") then None
        else
          (match (TextAt(args, "file"), NumberAt(args, "line", 0), TextAt(args, "kind"))
           case (Some(file), Some(line), Some(kind)) =>
             if KindNamed(kind).None? then None
             else Some(Shown(name, phase == Ascii("B"), ts, pid, tid, file, line, KindNamed(kind).value))
           case _ => None)
      case _ => None
  }

  /** What should be shown of an event; without a code, or with one without a name, the name is "<unknown>". */
  function Expected(codes: Codes, pid: u32, e: Event): Shown {
    var kind := KindOf(e.codeKind);
    var begins := kind == Begin || kind == Resume || kind == Throw;
    match codes(CodeOf(e.codeKind))
    case None => Shown(Ascii("<unknown>"), begins, e.tsNs, pid, e.tid, [], 0, kind)
    case Some(code) =>
      Shown(if code.qualname == [] then Ascii("<unknown>") else code.qualname, begins, e.tsNs, pid, e.tid,
            code.filename, code.line, kind)
  }

  lemma AsciiDiffers(a: string, b: string)
    requires |a| != |b| || exists i :: 0 <= i < |a| && ByteOf(a[i]) != ByteOf(b[i])
    ensures Ascii(a) != Ascii(b)
  {
    if |a| == |b| {
      var i :| 0 <= i < |a| && ByteOf(a[i]) != ByteOf(b[i]);
      assert Ascii(a)[i] != Ascii(b)[i];
    }
  }

  lemma FirstDiffers(a: string, b: string)
    requires |a| == |b| > 0 && 'a' <= a[0] <= 'z' && 'a' <= b[0] <= 'z' && a[0] != b[0]
    ensures Ascii(a) != Ascii(b)
  {
    AsciiDiffers(a, b);
  }

  lemma FindNext(member: Member, rest: seq<Member>, key: string)
    ensures Find([member] + rest, key) == if member.key == Ascii(key) then Some(member.value) else Find(rest, key)
  {
    assert ([member] + rest)[1..] == rest;
  }

  lemma FindInThree(a: Member, b: Member, c: Member, key: string)
    ensures Find([a, b, c], key)
         == if a.key == Ascii(key) then Some(a.value) else if b.key == Ascii(key) then Some(b.value)
            else if c.key == Ascii(key) then Some(c.value) else None
  {
    assert [a, b, c] == [a] + ([b] + ([c] + []));
    FindNext(a, [b] + ([c] + []), key);
    FindNext(b, [c] + [], key);
    FindNext(c, [], key);
  }

  lemma FindInSeven(a: Member, b: Member, c: Member, d: Member, e: Member, f: Member, g: Member, key: string)
    ensures Find([a, b, c, d, e, f, g], key)
         == if a.key == Ascii(key) then Some(a.value) else if b.key == Ascii(key) then Some(b.value)
            else if c.key == Ascii(key) then Some(c.value) else if d.key == Ascii(key) then Some(d.value)
            else if e.key == Ascii(key) then Some(e.value) else if f.key == Ascii(key) then Some(f.value)
            else if g.key == Ascii(key) then Some(g.value) else None
  {
    assert [a, b, c, d, e, f, g] == [a] + ([b] + ([c] + ([d] + [e, f, g])));
    FindNext(a, [b] + ([c] + ([d] + [e, f, g])), key);
    FindNext(b, [c] + ([d] + [e, f, g]), key);
    FindNext(c, [d] + [e, f, g], key);
    FindNext(d, [e, f, g], key);
    FindInThree(e, f, g, key);
  }

  lemma KeysAreDistinct()
    ensures Ascii("name") != Ascii("args") && Ascii("ph") != Ascii("ts")
    ensures Ascii("cat") != Ascii("pid") && Ascii("cat") != Ascii("tid") && Ascii("pid") != Ascii("tid")
    ensures Ascii("file") != Ascii("line") && Ascii("file") != Ascii("kind") && Ascii("line") != Ascii("kind")
  {
    FirstDiffers("name", "args");
    FirstDiffers("ph", "ts");
    FirstDiffers("cat", "pid");
    FirstDiffers("cat", "tid");
    FirstDiffers("pid", "tid");
    FirstDiffers("file", "line");
    FirstDiffers("file", "kind");
    FirstDiffers("line", "kind");
  }

  lemma KindIsNamed(kind: EventKind)
    ensures KindNamed(Ascii(KindName(kind))) == Some(kind)
  {
    FirstDiffers("start", "yield");
    FirstDiffers("start", "throw");
    FirstDiffers("yield", "throw");
    FirstDiffers("return", "unwind");
    FirstDiffers("resume", "unwind");
    AsciiDiffersAt("return", "resume", 2);
  }

  lemma AsciiDiffersAt(a: string, b: string, i: nat)
    requires |a| == |b| > i && 'a' <= a[i] <= 'z' && 'a' <= b[i] <= 'z' && a[i] != b[i]
    ensures Ascii(a) != Ascii(b)
  {
    AsciiDiffers(a, b);
  }

  lemma ArgsAreShown(info: Code, codeKind: u32)
    ensures var m := Args(info, codeKind).members;
            && TextAt(m, "file") == Some(info.filename) && NumberAt(m, "line", 0) == Some(info.line)
            && TextAt(m, "kind") == Some(Ascii(KindName(KindOf(codeKind))))
  {
    KeysAreDistinct();
    var a, b := Member(Ascii("file"), Text(info.filename)), Member(Ascii("line"), Number(info.line, 0));
    var c := Member(Ascii("kind"), Text(Ascii(KindName(KindOf(codeKind)))));
    hide Ascii, Find, KindName, KindOf;
    FindInThree(a, b, c, "file");
    FindInThree(a, b, c, "line");
    FindInThree(a, b, c, "kind");
  }

  lemma MembersAreShown(info: Code, pid: u32, e: Event)
    ensures var m := Tree(info, pid, e).members;
            && TextAt(m, "name") == Some(NameOf(info)) && TextAt(m, "ph") == Some([Phase(e.codeKind)])
            && NumberAt(m, "ts", 3) == Some(e.tsNs) && NumberAt(m, "pid", 0) == Some(pid)
            && NumberAt(m, "tid", 0) == Some(e.tid) && Find(m, "args") == Some(Args(info, e.codeKind))
  {
    KeysAreDistinct();
    var a, b := Member(Ascii("name"), Text(NameOf(info))), Member(Ascii("cat"), Text(Ascii("py")));
    var c, d := Member(Ascii("ph"), Text([Phase(e.codeKind)])), Member(Ascii("ts"), Number(e.tsNs, 3));
    var f, g := Member(Ascii("pid"), Number(pid, 0)), Member(Ascii("tid"), Number(e.tid, 0));
    var h := Member(Ascii("args"), Args(info, e.codeKind));
    hide Ascii, Find, Args, NameOf, Phase;
    FindInSeven(a, b, c, d, f, g, h, "name");
    FindInSeven(a, b, c, d, f, g, h, "ph");
    FindInSeven(a, b, c, d, f, g, h, "ts");
    FindInSeven(a, b, c, d, f, g, h, "pid");
    FindInSeven(a, b, c, d, f, g, h, "tid");
    FindInSeven(a, b, c, d, f, g, h, "args");
  }

  /** A tree shows its event: name, polarity, nanoseconds, process, thread, place and kind. */
  lemma TreeIsShown(codes: Codes, pid: u32, e: Event)
    ensures Show(Tree(InfoOf(codes, CodeOf(e.codeKind)), pid, e)) == Some(Expected(codes, pid, e))
  {
    var info := InfoOf(codes, CodeOf(e.codeKind));
    MembersAreShown(info, pid, e);
    ArgsAreShown(info, e.codeKind);
    KindIsNamed(KindOf(e.codeKind));
    PhaseIsLetter(e.codeKind);
    hide Ascii, Find, TextAt, NumberAt, KindNamed, KindName, KindOf, Phase, Opens;
  }

  lemma PhaseIsLetter(codeKind: u32)
    ensures [Phase(codeKind)] == Ascii(if Opens(codeKind) then "B" else "E") && Ascii("B") != Ascii("E")
    ensures Opens(codeKind) <==> KindOf(codeKind) == Begin || KindOf(codeKind) == Resume || KindOf(codeKind) == Throw
  {
    assert Ascii("B")[0] == 0x42 && Ascii("E")[0] == 0x45;
  }

  /** The whole stream reads back as the events exported, in order, each with all that it should show. */
  lemma StreamShows(codes: Codes, pid: u32, events: seq<Event>)
    ensures var trees := ReadEntries(Entries(codes, pid, events));
            && trees.Some? && |trees.value| == |events|
            && forall i :: 0 <= i < |events| ==> Show(trees.value[i]) == Some(Expected(codes, pid, events[i]))
  {
    StreamRoundTrip(codes, pid, events);
    hide ReadEntries, Entries, Show, Expected, Tree, InfoOf;
    forall i | 0 <= i < |events| ensures Show(Trees(codes, pid, events)[i]) == Some(Expected(codes, pid, events[i])) {
      TreeIsShown(codes, pid, events[i]);
    }
  }

  class Exporter {
    var out: seq<byte>
    var buf: seq<byte>
    const pid: u32
    const codes: Codes
    var templates: map<u32, Template>

    /** A memoised template is the one its code would be given now. */
    ghost predicate Valid()
      reads this
    {
      forall id: u32 :: id in templates ==> templates[id] == TemplateOf(InfoOf(codes, id))
    }

    constructor (pid: u32, codes: Codes)
      ensures Valid() && out == [] && this.pid == pid && this.codes == codes
    {
      this.pid, this.codes := pid, codes;
      out, buf, templates := [], [], map[];
    }

    method TemplateFor(id: u32) returns (t: Template)
      requires Valid()
      modifies this`templates
      ensures Valid() && t == TemplateOf(InfoOf(codes, id))
    {
      if id !in templates {
        var info := InfoOf(codes, id);
        var head := PushString(Ascii("{\"name\":"), NameOf(info));
        head := head + Ascii(",\"cat\":\"py\",\"ph\":\"");
        var tail := PushString(Ascii(",\"args\":{\"file\":"), info.filename);
        tail := PushU64(tail + Ascii(",\"line\":"), info.line);
        tail := tail + Ascii(",\"kind\":\"");
        templates := templates[id := Template(head, tail)];
      }
      t := templates[id];
    }

    /** One event into the buffer. */
    method PushEvent(e: Event)
      requires Valid()
      modifies this`buf, this`templates
      ensures Valid() && buf == old(buf) + (Print(Tree(InfoOf(codes, CodeOf(e.codeKind)), pid, e)) + [COMMA])
    {
      var t := TemplateFor(CodeOf(e.codeKind));
      EntryIsPrinted(InfoOf(codes, CodeOf(e.codeKind)), pid, e);
      hide Ascii, KindName, KindOf, Digits, TemplateOf, PrintNumber, Phase, InfoOf, Print, Tree, Opens;
      var text := t.head + [if Opens(e.codeKind) then 0x42 else 0x45];
      assert text == t.head + [Phase(e.codeKind)];
      text := text + Ascii("\",\"ts\":");
      text := PushMicros(text, e.tsNs);
      text := PushU64(text + Ascii(",\"pid\":"), pid);
      text := PushU64(text + Ascii(",\"tid\":"), e.tid);
      text := text + t.tail;
      text := text + Ascii(KindName(KindOf(e.codeKind))) + Ascii("\"}},");
      buf := buf + text;
    }

    /** `write_batch`. */
    method WriteBatch(events: seq<Event>)
      requires Valid()
      modifies this
      ensures Valid() && out == old(out) + Entries(codes, pid, events)
    {
      hide Print, Tree, InfoOf, TemplateOf;
      buf := [];
      var i := 0;
      while i < |events|
        invariant i <= |events| && Valid() && out == old(out)
        invariant buf == Entries(codes, pid, events[..i])
      {
        assert events[..i + 1][..i] == events[..i];
        PushEvent(events[i]);
        i := i + 1;
      }
      assert events[..|events|] == events;
      out := out + buf;
    }
  }
}
