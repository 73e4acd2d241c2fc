/** What exporters are given besides events. */
module Sink {
  import opened Words

  /** Names are bytes; an id may have no code behind it. */
  datatype Code = Code(qualname: seq<byte>, filename: seq<byte>, line: u32)

  type Codes = u32 -> Option<Code>

  /** The bytes of an ASCII text. */
  function Ascii(text: string): (bytes: seq<byte>)
    ensures |bytes| == |text|
  {
    seq(|text|, i requires 0 <= i < |text| => ByteOf(text[i]))
  }

  function ByteOf(c: char): byte {
    (c as int) % 256
  }

  /** An id with no code behind it reads as a code with nothing in it. */
  function InfoOf(codes: Codes, id: u32): Code {
    match codes(id)
    case Some(code) => code
    case None => Code([], [], 0)
  }

  function NameOf(info: Code): seq<byte> {
    if info.qualname == [] then Ascii("<unknown>") else info.qualname
  }
}
