/** A trace as Perfetto reads it: packets and event bytes, interned state per sequence, and the events recovered. */
module Perfetto {
  import opened Words
  import opened Events
  import opened Sink
  import opened Wire

  type Name = seq<byte>

  datatype Place = Place(file: seq<byte>, line: u32)

  const CATEGORY_IID: nat := 1

  /**
   The packets encoded by the protocol buffer library, and runs of hand-written event bytes. `usual` is the track of a
   sequence's events unless they say otherwise; `uuid` is the track a packet describes.
   */
  datatype Chunk =
    | Process(id: nat, uuid: nat, pid: u32)
    | Sequence(id: nat, usual: nat, category: nat, uuid: nat, parent: nat, pid: u32, tid: u32)
    | Intern(id: nat, iid: nat, name: Name, place: Option<Place>)
    | Dropped(id: nat, track: nat, count: nat)
    | Raw(bytes: seq<byte>)

  // ----- the reader -----

  /** What a sequence has declared since its state was last cleared. */
  datatype Interned = Interned(usual: Option<nat>, names: map<nat, Name>, places: map<nat, Place>, categories: set<nat>)

  /** What a track stands for. */
  datatype Track = OfProcess(pid: u32) | OfThread(pid: u32, tid: u32, parent: nat)

  datatype Reader = Reader(sequences: map<nat, Interned>, tracks: map<nat, Track>)

  const NOTHING := Reader(map[], map[])

  /** One recovered event, with the process and the thread of its track. */
  datatype Seen = Seen(pid: u32, tid: u32, tsNs: nat, begins: bool, name: Option<Name>, place: Option<Place>)

  /** A track may be described again, but not as another. */
  predicate Agrees(r: Reader, uuid: nat, track: Track) {
    uuid in r.tracks ==> r.tracks[uuid] == track
  }

  /**
   A packet's effect. It is an error to describe one track as two, to put a thread's track under anything but its own
   process's, to intern on a sequence nobody has declared, or to note lost events on a track that is no process's.
   */
  function Learn(r: Reader, c: Chunk): Option<Reader>
    requires !c.Raw?
  {
    match c
    case Process(id, uuid, pid) =>
      if !Agrees(r, uuid, OfProcess(pid)) then None
      else Some(Reader(r.sequences[id := Interned(None, map[], map[], {})], r.tracks[uuid := OfProcess(pid)]))
    case Sequence(id, usual, category, uuid, parent, pid, tid) =>
      if !Agrees(r, uuid, OfThread(pid, tid, parent)) || parent !in r.tracks || r.tracks[parent] != OfProcess(pid) then None
      else Some(Reader(r.sequences[id := Interned(Some(usual), map[], map[], {category})],
                       r.tracks[uuid := OfThread(pid, tid, parent)]))
    case Intern(id, iid, name, place) =>
      if id !in r.sequences then None
      else
        var known := r.sequences[id];
        Some(r.(sequences := r.sequences[id := known.(
          names := known.names[iid := name],
          places := if place.Some? then known.places[iid := place.value] else known.places)]))
    case Dropped(_, track, _) => if track in r.tracks && r.tracks[track].OfProcess? then Some(r) else None
  }

  /** The thread's track an event is on: the one it names, or else the usual one of its sequence. */
  function TrackOf(r: Reader, known: Interned, named: Option<nat>): Option<Track> {
    var uuid := if named.Some? then named else known.usual;
    if uuid.Some? && uuid.value in r.tracks && r.tracks[uuid.value].OfThread? then Some(r.tracks[uuid.value]) else None
  }

  /**
   A track event, its ids resolved: type 1 begins a slice and type 2 ends one, on a thread's track. A begin without a
   declared category and name is an error.
   */
  function ReadTrack(r: Reader, known: Interned, ts: nat, fields: seq<Field>): Option<Seen> {
    match TrackOf(r, known, ScalarOf(fields, 11))
    case None => None
    case Some(on) =>
      if ScalarOf(fields, 9) == Some(2) then Some(Seen(on.pid, on.tid, ts, false, None, None))
      else if ScalarOf(fields, 9) != Some(1) then None
      else
        match (ScalarOf(fields, 3), ScalarOf(fields, 10))
        case (Some(category), Some(iid)) =>
          if category !in known.categories || iid !in known.names then None
          else
            (match ScalarOf(fields, 34)
             case None => Some(Seen(on.pid, on.tid, ts, true, Some(known.names[iid]), None))
             case Some(at) =>
               if at !in known.places then None
               else Some(Seen(on.pid, on.tid, ts, true, Some(known.names[iid]), Some(known.places[at]))))
        case _ => None
  }

  /** An event packet: timestamp, sequence, flags and track event. The flag of value 2 says that it needs its sequence's state. */
  function ReadEvent(r: Reader, body: seq<byte>): Option<Seen> {
    match Wire.ReadAll(body)
    case None => None
    case Some(packet) =>
      match (ScalarOf(packet, 8), ScalarOf(packet, 10), ScalarOf(packet, 13), BytesOf(packet, 11))
      case (Some(ts), Some(id), Some(flags), Some(event)) =>
        if id !in r.sequences || flags / 2 % 2 != 1 then None
        else
          (match Wire.ReadAll(event)
           case None => None
           case Some(fields) => ReadTrack(r, r.sequences[id], ts, fields))
      case _ => None
  }

  /** A run of event bytes: frames, each one field of the trace, to the end. */
  function ReadFrames(r: Reader, text: seq<byte>): Option<seq<Seen>>
    decreases |text|
  {
    if text == [] then Some([])
    else
      match ReadField(text)
      case Some((Bytes(1, body), rest)) =>
        (match (ReadEvent(r, body), ReadFrames(r, rest))
         case (Some(e), Some(es)) => Some([e] + es)
         case _ => None)
      case _ => None
  }

  /** A whole trace, front to back. */
  function ReadTrace(chunks: seq<Chunk>): Option<(Reader, seq<Seen>)> {
    if chunks == [] then Some((NOTHING, []))
    else
      match ReadTrace(chunks[..|chunks| - 1])
      case None => None
      case Some((r, seen)) =>
        var last := chunks[|chunks| - 1];
        if last.Raw? then
          match ReadFrames(r, last.bytes)
          case Some(more) => Some((r, seen + more))
          case None => None
        else
          match Learn(r, last)
          case Some(after) => Some((after, seen))
          case None => None
  }

  // ----- what an event should read as -----

  /** What an event of process `pid` should read as: a call without a code is "<unknown>", and has no place. */
  function Expected(pid: u32, codes: Codes, e: Event): Seen {
    if Opens(e.codeKind) then
      match codes(CodeOf(e.codeKind))
      case None => Seen(pid, e.tid, e.tsNs, true, Some(Ascii("<unknown>")), None)
      case Some(code) => Seen(pid, e.tid, e.tsNs, true, Some(code.qualname), Some(Place(code.filename, code.line)))
    else Seen(pid, e.tid, e.tsNs, false, None, None)
  }

  function AllExpected(pid: u32, codes: Codes, events: seq<Event>): (seen: seq<Seen>)
    ensures |seen| == |events|
  {
    seq(|events|, i requires 0 <= i < |events| => Expected(pid, codes, events[i]))
  }

  // ----- more state never changes what has been read -----

  /** Nothing known is forgotten or changed. */
  ghost predicate Extends(r: Reader, after: Reader) {
    && (forall u :: u in r.tracks ==> u in after.tracks && after.tracks[u] == r.tracks[u])
    && forall id :: id in r.sequences ==> id in after.sequences && KeepsOn(r.sequences[id], after.sequences[id])
  }

  /** A sequence goes on: its usual track stays, and its ids keep what they stand for. */
  ghost predicate KeepsOn(known: Interned, now: Interned) {
    && now.usual == known.usual && known.categories <= now.categories
    && (forall i :: i in known.names ==> i in now.names && now.names[i] == known.names[i])
    && (forall i :: i in known.places ==> i in now.places && now.places[i] == known.places[i])
  }

  lemma EventStillReads(r: Reader, after: Reader, body: seq<byte>)
    requires Extends(r, after) && ReadEvent(r, body).Some?
    ensures ReadEvent(after, body) == ReadEvent(r, body)
  {
    hide Wire.ReadAll, ScalarOf, BytesOf;
  }

  lemma {:induction false} FramesStillRead(r: Reader, after: Reader, text: seq<byte>)
    requires Extends(r, after) && ReadFrames(r, text).Some?
    ensures ReadFrames(after, text) == ReadFrames(r, text)
    decreases |text|
  {
    hide ReadEvent, ReadField, Extends;
    if text != [] {
      var f := ReadField(text).value;
      EventStillReads(r, after, f.0.body);
      FramesStillRead(r, after, f.1);
    }
  }

  lemma FirstFrame(r: Reader, text: seq<byte>) returns (body: seq<byte>, rest: seq<byte>, e: Seen, es: seq<Seen>)
    requires text != [] && ReadFrames(r, text).Some?
    ensures ReadField(text) == Some((Bytes(1, body), rest)) && |rest| < |text|
    ensures ReadEvent(r, body) == Some(e) && ReadFrames(r, rest) == Some(es) && ReadFrames(r, text) == Some([e] + es)
  {
    hide ReadEvent, ReadField;
    var (f, left) := ReadField(text).value;
    body, rest := f.body, left;
    e, es := ReadEvent(r, body).value, ReadFrames(r, rest).value;
  }

  lemma FrameBefore(r: Reader, text: seq<byte>, body: seq<byte>, rest: seq<byte>, e: Seen, es: seq<Seen>)
    requires text != [] && ReadField(text) == Some((Bytes(1, body), rest))
    requires ReadEvent(r, body) == Some(e) && ReadFrames(r, rest) == Some(es)
    ensures ReadFrames(r, text) == Some([e] + es)
  {
    hide ReadEvent, ReadField;
  }

  lemma Associates(a: seq<Seen>, b: seq<Seen>, c: seq<Seen>)
    ensures a + b + c == a + (b + c)
  {
  }

  lemma {:induction false} FramesConcat(r: Reader, a: seq<byte>, b: seq<byte>)
    requires ReadFrames(r, a).Some? && ReadFrames(r, b).Some?
    ensures ReadFrames(r, a + b) == Some(ReadFrames(r, a).value + ReadFrames(r, b).value)
    decreases |a|
  {
    var more := ReadFrames(r, b).value;
    if a == [] {
      assert ReadFrames(r, a) == Some([]);
      hide ReadFrames;
      assert a + b == b;
      assert ReadFrames(r, a).value + more == more;
    } else {
      hide ReadEvent, ReadField, ReadFrames;
      var body, rest, e, es := FirstFrame(r, a);
      FieldIgnoresRest(a, b);
      FramesConcat(r, rest, b);
      FrameBefore(r, a + b, body, rest + b, e, es + more);
      Associates([e], es, more);
    }
  }

  lemma {:induction false} VarintIgnoresRest(a: seq<byte>, b: seq<byte>, budget: nat)
    requires ReadVarint(a, budget).Some?
    ensures ReadVarint(a + b, budget) == Some((ReadVarint(a, budget).value.0, ReadVarint(a, budget).value.1 + b))
    decreases budget
  {
    assert (a + b)[1..] == a[1..] + b;
    if a[0] >= 0x80 {
      VarintIgnoresRest(a[1..], b, budget - 1);
    }
  }

  lemma FieldIgnoresRest(a: seq<byte>, b: seq<byte>)
    requires ReadField(a).Some?
    ensures ReadField(a + b) == Some((ReadField(a).value.0, ReadField(a).value.1 + b))
  {
    var (key, rest) := ReadVarint(a, MAX).value;
    VarintIgnoresRest(a, b, MAX);
    VarintIgnoresRest(rest, b, MAX);
    hide ReadVarint;
    var (n, after) := ReadVarint(rest, MAX).value;
    if key % 8 == 2 {
      assert (after + b)[..n] == after[..n] && (after + b)[n..] == after[n..] + b;
    }
  }
}

/** The hand-written bytes of an event: what is pushed, the message it is, and how it reads. */
module EventBytes {
  import opened Words
  import opened Wire
  import opened Perfetto

  const PACKET_TAG: byte := 10
  const TIMESTAMP: byte := 64
  const SEQUENCE_ID: byte := 80
  const SEQUENCE_FLAGS: byte := 104
  const TRACK_EVENT: byte := 90
  const TYPE: byte := 72
  const CATEGORY_IIDS: byte := 24
  const NAME_IID: byte := 80
  const SOURCE_LOCATION_IID: seq<byte> := [144, 2]
  const SLICE_BEGIN: nat := 1
  const SLICE_END: nat := 2
  const NEEDS_STATE: nat := 2

  /** What a slice's track event says. An end says nothing but its type. */
  datatype Slice = Begin(iid: nat, placed: bool) | End

  function SliceBytes(s: Slice): seq<byte> {
    match s
    case End => [TYPE, SLICE_END]
    case Begin(iid, placed) =>
      [TYPE, SLICE_BEGIN] + [CATEGORY_IIDS] + Varint(CATEGORY_IID) + [NAME_IID] + Varint(iid)
      + if placed then SOURCE_LOCATION_IID + Varint(iid) else []
  }

  function SliceFields(s: Slice): seq<Field> {
    match s
    case End => [Scalar(9, SLICE_END)]
    case Begin(iid, placed) =>
      [Scalar(9, SLICE_BEGIN), Scalar(3, CATEGORY_IID), Scalar(10, iid)] + if placed then [Scalar(34, iid)] else []
  }

  function HeaderBytes(id: nat): seq<byte> {
    [SEQUENCE_ID] + Varint(id) + [SEQUENCE_FLAGS, NEEDS_STATE]
  }

  function TemplateBytes(header: seq<byte>, slice: seq<byte>): seq<byte> {
    header + [TRACK_EVENT] + Varint(|slice|) + slice
  }

  function Frame(ts: nat, template: seq<byte>): seq<byte> {
    [PACKET_TAG] + Varint(1 + |Varint(ts)| + |template|) + [TIMESTAMP] + Varint(ts) + template
  }

  function PacketFields(ts: nat, id: nat, slice: seq<byte>): seq<Field> {
    [Scalar(8, ts), Scalar(10, id), Scalar(13, NEEDS_STATE), Bytes(11, slice)]
  }

  // ----- the bytes are the message -----

  lemma Tags()
    ensures Varint(9 * 8) == [TYPE] && Varint(3 * 8) == [CATEGORY_IIDS] && Varint(10 * 8) == [NAME_IID]
    ensures Varint(34 * 8) == SOURCE_LOCATION_IID && Varint(8 * 8) == [TIMESTAMP] && Varint(10 * 8) == [SEQUENCE_ID]
    ensures Varint(13 * 8) == [SEQUENCE_FLAGS] && Varint(11 * 8 + 2) == [TRACK_EVENT] && Varint(1 * 8 + 2) == [PACKET_TAG]
    ensures Varint(SLICE_BEGIN) == [SLICE_BEGIN] && Varint(SLICE_END) == [SLICE_END] && Varint(NEEDS_STATE) == [NEEDS_STATE]
  {
    assert Varint(272) == [0x80 + 272 % 0x80] + Varint(2);
  }

  lemma {:induction false} PutAllConcat(a: seq<Field>, b: seq<Field>)
    ensures PutAll(a + b) == PutAll(a) + PutAll(b)
    decreases |a|
  {
    hide Put;
    if a == [] {
      assert a + b == b;
    } else {
      assert (a + b)[1..] == a[1..] + b;
      PutAllConcat(a[1..], b);
    }
  }

  lemma PutOne(f: Field)
    ensures PutAll([f]) == Put(f)
  {
    assert PutAll([]) == [];
  }

  lemma PutAppend(fields: seq<Field>, f: Field)
    ensures PutAll(fields + [f]) == PutAll(fields) + Put(f)
  {
    PutAllConcat(fields, [f]);
    PutOne(f);
  }

  lemma SliceIsMessage(s: Slice)
    ensures SliceBytes(s) == PutAll(SliceFields(s))
  {
    Tags();
    match s
    case End => PutOne(Scalar(9, SLICE_END));
    case Begin(iid, placed) =>
      var a, b, c := Scalar(9, SLICE_BEGIN), Scalar(3, CATEGORY_IID), Scalar(10, iid);
      PutOne(a);
      PutAppend([a], b);
      PutAppend([a, b], c);
      hide Varint, PutAll;
      assert [a] + [b] == [a, b] && [a, b] + [c] == [a, b, c];
      if placed {
        PutAppend([a, b, c], Scalar(34, iid));
      } else {
        assert [a, b, c] + [] == [a, b, c];
      }
  }

  lemma PacketParts(ts: nat, id: nat, slice: seq<byte>)
    ensures Put(Scalar(8, ts)) == [TIMESTAMP] + Varint(ts) && Put(Scalar(10, id)) == [SEQUENCE_ID] + Varint(id)
    ensures Put(Scalar(13, NEEDS_STATE)) == [SEQUENCE_FLAGS] + [NEEDS_STATE]
    ensures Put(Bytes(11, slice)) == [TRACK_EVENT] + Varint(|slice|) + slice
  {
    Tags();
    hide Varint;
  }

  lemma PacketSpelled(stamp: seq<byte>, id: seq<byte>, size: seq<byte>, slice: seq<byte>)
    ensures stamp + (id + [SEQUENCE_FLAGS, NEEDS_STATE] + [TRACK_EVENT] + size + slice)
         == stamp + id + ([SEQUENCE_FLAGS] + [NEEDS_STATE]) + ([TRACK_EVENT] + size + slice)
  {
  }

  lemma PutFour(a: Field, b: Field, c: Field, d: Field)
    ensures PutAll([a, b, c, d]) == Put(a) + Put(b) + Put(c) + Put(d)
  {
    PutOne(a);
    PutAppend([a], b);
    PutAppend([a, b], c);
    PutAppend([a, b, c], d);
    hide Put, PutAll;
    assert [a] + [b] == [a, b] && [a, b] + [c] == [a, b, c] && [a, b, c] + [d] == [a, b, c, d];
  }

  lemma PacketIsMessage(ts: nat, id: nat, slice: seq<byte>)
    ensures [TIMESTAMP] + Varint(ts) + TemplateBytes(HeaderBytes(id), slice) == PutAll(PacketFields(ts, id, slice))
  {
    PacketParts(ts, id, slice);
    hide Varint, Put, PutAll;
    PutFour(Scalar(8, ts), Scalar(10, id), Scalar(13, NEEDS_STATE), Bytes(11, slice));
    PacketSpelled([TIMESTAMP] + Varint(ts), [SEQUENCE_ID] + Varint(id), Varint(|slice|), slice);
  }

  /** One event is one field of the trace, and its length is right. */
  lemma FrameIsField(ts: nat, id: nat, slice: seq<byte>)
    ensures Frame(ts, TemplateBytes(HeaderBytes(id), slice)) == Put(Bytes(1, PutAll(PacketFields(ts, id, slice))))
  {
    Tags();
    PacketIsMessage(ts, id, slice);
    hide Varint, PutAll, TemplateBytes;
    var template, size := TemplateBytes(HeaderBytes(id), slice), Varint(1 + |Varint(ts)| + |TemplateBytes(HeaderBytes(id), slice)|);
    assert |[TIMESTAMP] + Varint(ts) + template| == 1 + |Varint(ts)| + |template|;
    assert [PACKET_TAG] + size + [TIMESTAMP] + Varint(ts) + template == [PACKET_TAG] + size + ([TIMESTAMP] + Varint(ts) + template);
  }

  // ----- how it reads -----

  lemma Look(fields: seq<Field>, f: Field, number: nat)
    ensures ScalarOf(fields + [f], number)
         == if f.Scalar? && f.number == number then Some(f.value) else ScalarOf(fields, number)
    ensures BytesOf(fields + [f], number)
         == if f.Bytes? && f.number == number then Some(f.body) else BytesOf(fields, number)
  {
    assert (fields + [f])[..|fields|] == fields;
  }

  lemma PacketLooks(ts: nat, id: nat, slice: seq<byte>)
    ensures var p := PacketFields(ts, id, slice);
            && ScalarOf(p, 8) == Some(ts) && ScalarOf(p, 10) == Some(id)
            && ScalarOf(p, 13) == Some(NEEDS_STATE) && BytesOf(p, 11) == Some(slice)
  {
    var a, b, c, d := Scalar(8, ts), Scalar(10, id), Scalar(13, NEEDS_STATE), Bytes(11, slice);
    assert [] + [a] == [a] && [a] + [b] == [a, b] && [a, b] + [c] == [a, b, c] && [a, b, c] + [d] == [a, b, c, d];
    hide ScalarOf, BytesOf;
    Look([a, b, c], d, 8);
    Look([a, b, c], d, 10);
    Look([a, b, c], d, 13);
    Look([a, b, c], d, 11);
    Look([a, b], c, 8);
    Look([a, b], c, 10);
    Look([a, b], c, 13);
    Look([a], b, 8);
    Look([a], b, 10);
    Look([], a, 8);
  }

  lemma SliceLooks(s: Slice)
    ensures ScalarOf(SliceFields(s), 9) == Some(if s.End? then SLICE_END else SLICE_BEGIN)
    ensures s.Begin? ==> ScalarOf(SliceFields(s), 3) == Some(CATEGORY_IID) && ScalarOf(SliceFields(s), 10) == Some(s.iid)
    ensures s.Begin? ==> ScalarOf(SliceFields(s), 34) == if s.placed then Some(s.iid) else None
    ensures ScalarOf(SliceFields(s), 11) == None
  {
    match s
    case End =>
      Look([], Scalar(9, SLICE_END), 9);
      Look([], Scalar(9, SLICE_END), 11);
      assert ScalarOf([], 11) == None;
      assert [] + [Scalar(9, SLICE_END)] == [Scalar(9, SLICE_END)];
    case Begin(iid, placed) =>
      var a, b, c, d := Scalar(9, SLICE_BEGIN), Scalar(3, CATEGORY_IID), Scalar(10, iid), Scalar(34, iid);
      assert ScalarOf([], 34) == ScalarOf([], 11) == None && [a, b, c] + [] == [a, b, c];
      assert [] + [a] == [a] && [a] + [b] == [a, b] && [a, b] + [c] == [a, b, c];
      hide ScalarOf, BytesOf;
      LookThrough([a, b, c], d);
      LookThrough([a, b], c);
      LookThrough([a], b);
      LookThrough([], a);
  }

  lemma LookThrough(fields: seq<Field>, f: Field)
    ensures forall number :: ScalarOf(fields + [f], number)
                          == if f.Scalar? && f.number == number then Some(f.value) else ScalarOf(fields, number)
  {
    forall number
      ensures ScalarOf(fields + [f], number) == if f.Scalar? && f.number == number then Some(f.value) else ScalarOf(fields, number)
    {
      Look(fields, f, number);
    }
  }

  /** The event a slice on a declared sequence stands for. */
  function SeenOf(r: Reader, known: Interned, ts: nat, s: Slice): Seen
    requires Resolvable(r, known, s)
  {
    var on := TrackOf(r, known, None).value;
    match s
    case End => Seen(on.pid, on.tid, ts, false, None, None)
    case Begin(iid, placed) =>
      Seen(on.pid, on.tid, ts, true, Some(known.names[iid]), if placed then Some(known.places[iid]) else None)
  }

  /** The sequence's usual track is a thread's, and every id the slice uses has been declared. */
  predicate Resolvable(r: Reader, known: Interned, s: Slice) {
    && TrackOf(r, known, None).Some?
    && (s.Begin? ==> CATEGORY_IID in known.categories && s.iid in known.names && (s.placed ==> s.iid in known.places))
  }

  /** How a slice reads: as its event, or, if it uses anything undeclared, not at all. */
  lemma SliceReads(r: Reader, known: Interned, ts: nat, s: Slice)
    requires s.Begin? ==> s.iid <= U64_MAX
    ensures Wire.ReadAll(SliceBytes(s)) == Some(SliceFields(s))
    ensures ReadTrack(r, known, ts, SliceFields(s)) == if Resolvable(r, known, s) then Some(SeenOf(r, known, ts, s)) else None
  {
    SliceIsMessage(s);
    SliceLooks(s);
    hide ScalarOf, PutAll, SliceBytes, Wire.ReadAll, TrackOf;
    MessageRoundTrip(SliceFields(s));
  }

  lemma VarintShort(v: u64)
    ensures |Varint(v)| <= MAX
  {
    VarintRoundTrip(v, []);
  }

  lemma SliceIsShort(s: Slice)
    requires s.Begin? ==> s.iid <= U64_MAX
    ensures |SliceBytes(s)| <= 40
  {
    VarintShort(CATEGORY_IID);
    if s.Begin? {
      VarintShort(s.iid);
    }
  }

  lemma PacketIsShort(ts: u64, id: u64, slice: seq<byte>)
    requires |slice| <= 40
    ensures |PutAll(PacketFields(ts, id, slice))| <= 100
  {
    PacketIsMessage(ts, id, slice);
    VarintShort(ts);
    VarintShort(id);
    VarintShort(|slice|);
    hide Varint, PutAll;
  }

  lemma FieldsAreSized(ts: u64, id: u64, slice: seq<byte>)
    requires |slice| <= 40
    ensures forall f :: f in PacketFields(ts, id, slice) ==> Sized(f)
  {
  }

  lemma PacketReads(r: Reader, ts: u64, id: u64, s: Slice)
    requires id in r.sequences && (s.Begin? ==> s.iid <= U64_MAX)
    ensures ReadEvent(r, PutAll(PacketFields(ts, id, SliceBytes(s)))) == ReadTrack(r, r.sequences[id], ts, SliceFields(s))
  {
    var slice := SliceBytes(s);
    SliceIsShort(s);
    PacketLooks(ts, id, slice);
    SliceReads(r, r.sequences[id], ts, s);
    FieldsAreSized(ts, id, slice);
    MessageRoundTrip(PacketFields(ts, id, slice));
    hide *;
    PacketIsEvent(r, PutAll(PacketFields(ts, id, slice)), PacketFields(ts, id, slice), ts, id, slice, SliceFields(s));
  }

  lemma PacketIsEvent(r: Reader, body: seq<byte>, packet: seq<Field>, ts: u64, id: u64, event: seq<byte>, fields: seq<Field>)
    requires Wire.ReadAll(body) == Some(packet) && Wire.ReadAll(event) == Some(fields) && id in r.sequences
    requires ScalarOf(packet, 8) == Some(ts) && ScalarOf(packet, 10) == Some(id)
    requires ScalarOf(packet, 13) == Some(NEEDS_STATE) && BytesOf(packet, 11) == Some(event)
    ensures ReadEvent(r, body) == ReadTrack(r, r.sequences[id], ts, fields)
  {
    hide Wire.ReadAll, ScalarOf, BytesOf, ReadTrack;
  }

  lemma OneFrame(r: Reader, body: seq<byte>)
    requires |body| <= U64_MAX
    ensures ReadFrames(r, Put(Bytes(1, body))) == if ReadEvent(r, body).Some? then Some([ReadEvent(r, body).value]) else None
  {
    BytesRoundTrip(1, body, []);
    assert Put(Bytes(1, body)) != [];
    hide Put, ReadField, ReadEvent;
    assert Put(Bytes(1, body)) + [] == Put(Bytes(1, body));
    assert ReadFrames(r, []) == Some([]);
    if ReadEvent(r, body).Some? {
      assert [ReadEvent(r, body).value] + [] == [ReadEvent(r, body).value];
    }
  }

  /**
   The frame of an event on a declared sequence reads as that event, whatever its thread has declared besides; if its
   track is no thread's, or it uses an id not declared, it does not read.
   */
  lemma FrameReads(r: Reader, ts: u64, id: u64, s: Slice)
    requires id in r.sequences && (s.Begin? ==> s.iid <= U64_MAX)
    ensures ReadFrames(r, Frame(ts, TemplateBytes(HeaderBytes(id), SliceBytes(s))))
         == if Resolvable(r, r.sequences[id], s) then Some([SeenOf(r, r.sequences[id], ts, s)]) else None
  {
    var body := PutAll(PacketFields(ts, id, SliceBytes(s)));
    PacketReads(r, ts, id, s);
    SliceReads(r, r.sequences[id], ts, s);
    SliceIsShort(s);
    PacketIsShort(ts, id, SliceBytes(s));
    FrameIsField(ts, id, SliceBytes(s));
    hide *;
    OneFrame(r, body);
  }
}

/** The exporter's tables, and how they stay in step with what a reader of the trace so far knows. */
module Interning {
  import opened Words
  import opened Events
  import opened Sink
  import opened Perfetto
  import opened EventBytes

  const SEQUENCES_PER_SLOT: nat := 128
  const PROCESS_SEQUENCE_ID: nat := 1

  /** A thread's packet sequence: its id, the bytes every event of it starts with, and the ids of its codes. */
  datatype Thread = Thread(id: nat, header: seq<byte>, iids: map<u32, (nat, bool)>)

  type Threads = map<u32, Thread>
  type Templates = map<nat, (nat, nat)>

  function SequenceId(slot: u32, index: nat): nat {
    slot * SEQUENCES_PER_SLOT + PROCESS_SEQUENCE_ID + 1 + index
  }

  function SliceOf(t: Thread, code: u32, opens: bool): Slice
    requires opens ==> code in t.iids
  {
    if opens then Slice.Begin(t.iids[code].0, t.iids[code].1) else Slice.End
  }

  function TemplateText(t: Thread, code: u32, opens: bool): seq<byte>
    requires opens ==> code in t.iids
  {
    TemplateBytes(t.header, SliceBytes(SliceOf(t, code, opens)))
  }

  /** The three parts occupy disjoint bits, so the bitwise or is a sum. */
  function Key(tid: u32, code: u32, opens: bool): nat {
    tid * U32_SPAN + code * 2 + if opens then 1 else 0
  }

  /** With 24-bit codes, no two templates share a key. */
  lemma KeysDiffer(a: u32, x: u32, p: bool, b: u32, y: u32, q: bool)
    requires x < CODE_SPAN && y < CODE_SPAN
    ensures Key(a, x, p) == Key(b, y, q) <==> a == b && x == y && p == q
  {
  }

  // ----- the tables -----

  function EventNameOf(code: Option<Code>): Name {
    if code.Some? then code.value.qualname else Ascii("<unknown>")
  }

  function PlaceOf(code: Option<Code>): Option<Place> {
    if code.Some? then Some(Place(code.value.filename, code.value.line)) else None
  }

  predicate CodeDeclared(known: Interned, iid: nat, placed: bool, code: Option<Code>) {
    && iid in known.names && known.names[iid] == EventNameOf(code) && placed == code.Some?
    && (placed ==> iid in known.places && Some(known.places[iid]) == PlaceOf(code))
  }

  /** A thread's sequence is declared, with each of its codes under its own id and no other id in use. */
  ghost predicate Declared(known: Interned, t: Thread, codes: Codes) {
    CATEGORY_IID in known.categories && t.header == HeaderBytes(t.id) && CodesDeclared(known, t.iids, |t.iids|, codes)
  }

  ghost predicate IdsUpTo(known: Interned, n: nat) {
    forall i :: i in known.names || i in known.places ==> i <= n
  }

  ghost predicate CodesDeclared(known: Interned, iids: map<u32, (nat, bool)>, n: nat, codes: Codes) {
    && IdsUpTo(known, n)
    && (forall code: u32 :: code in iids ==>
          && code < CODE_SPAN && iids[code].0 <= n
          && CodeDeclared(known, iids[code].0, iids[code].1, codes(code)))
  }

  function ProcessUuid(pid: u32): nat {
    pid * U32_SPAN + 1
  }

  /** The usual track of a sequence is the thread's own, below its process's. */
  predicate OnOwnTrack(r: Reader, known: Interned, pid: u32, tid: u32) {
    TrackOf(r, known, None) == Some(OfThread(pid, tid, ProcessUuid(pid)))
  }

  /** A thread's sequence, declared, on the thread's own track, with an id below the next one. */
  ghost predicate Placed(r: Reader, t: Thread, pid: u32, tid: u32, codes: Codes, limit: nat) {
    t.id < limit && t.id in r.sequences && Declared(r.sequences[t.id], t, codes) && OnOwnTrack(r, r.sequences[t.id], pid, tid)
  }

  ghost predicate AllPlaced(r: Reader, threads: Threads, codes: Codes, limit: nat, pid: u32) {
    forall tid: u32 :: tid in threads ==> Placed(r, threads[tid], pid, tid, codes, limit)
  }

  predicate OwnIds(threads: Threads) {
    forall a: u32, b: u32 :: a in threads && b in threads && a != b ==> threads[a].id != threads[b].id
  }

  /** All sequences known are of the slot, below the next one. */
  ghost predicate Within(r: Reader, slot: u32, limit: nat) {
    forall id :: id in r.sequences ==> slot * SEQUENCES_PER_SLOT < id < limit
  }

  /** All tracks known are the process's and those after it, one a thread. */
  ghost predicate TracksWithin(r: Reader, pid: u32, threads: nat) {
    forall u :: u in r.tracks ==> ProcessUuid(pid) <= u <= ProcessUuid(pid) + threads
  }

  ghost predicate Announced(r: Reader, pid: u32) {
    ProcessUuid(pid) in r.tracks && r.tracks[ProcessUuid(pid)] == OfProcess(pid)
  }

  /** Every thread has a sequence and a track of its own, and the ids of both are handed out in order. */
  ghost predicate Sequenced(r: Reader, threads: Threads, codes: Codes, slot: u32, pid: u32) {
    && AllPlaced(r, threads, codes, SequenceId(slot, |threads|), pid) && OwnIds(threads)
    && Within(r, slot, SequenceId(slot, |threads|)) && TracksWithin(r, pid, |threads|)
  }

  /** The track a thread's events are on. */
  function UsualTrack(r: Reader, t: Thread): Option<nat> {
    if t.id in r.sequences then r.sequences[t.id].usual else None
  }

  /** No two threads are on one track, and none is on the process's. */
  lemma TracksDiffer(r: Reader, threads: Threads, codes: Codes, slot: u32, pid: u32, a: u32, b: u32)
    requires Sequenced(r, threads, codes, slot, pid) && Announced(r, pid) && a in threads && b in threads && a != b
    ensures UsualTrack(r, threads[a]).Some? && UsualTrack(r, threads[b]).Some?
    ensures UsualTrack(r, threads[a]) != UsualTrack(r, threads[b])
    ensures UsualTrack(r, threads[a]) != Some(ProcessUuid(pid))
  {
    hide Declared;
    var limit := SequenceId(slot, |threads|);
    assert Placed(r, threads[a], pid, a, codes, limit) && Placed(r, threads[b], pid, b, codes, limit);
  }

  predicate TemplateOk(range: (nat, nat), bytes: seq<byte>, threads: Threads, tid: u32, code: u32, opens: bool) {
    && tid in threads && (opens ==> code in threads[tid].iids)
    && range.0 + range.1 <= |bytes|
    && bytes[range.0..range.0 + range.1] == TemplateText(threads[tid], code, opens)
  }

  /** Every memoised template is the one that would be built now. */
  ghost predicate Templated(templates: Templates, bytes: seq<byte>, threads: Threads) {
    forall tid: u32, code: u32, opens: bool ::
      code < CODE_SPAN && Key(tid, code, opens) in templates ==>
        TemplateOk(templates[Key(tid, code, opens)], bytes, threads, tid, code, opens)
  }

  /** A new thread's sequence packet: its track is new, its own, and below its process's. */
  function ThreadPacket(slot: u32, pid: u32, index: nat, tid: u32): Chunk {
    var track := ProcessUuid(pid) + 1 + index;
    Sequence(SequenceId(slot, index), track, CATEGORY_IID, track, ProcessUuid(pid), pid, tid)
  }

  /** What a reader knows after it, and the exporter's own record of the thread. */
  function Taught(r: Reader, slot: u32, pid: u32, index: nat, tid: u32): Reader {
    var track := ProcessUuid(pid) + 1 + index;
    Reader(r.sequences[SequenceId(slot, index) := Interned(Some(track), map[], map[], {CATEGORY_IID})],
           r.tracks[track := OfThread(pid, tid, ProcessUuid(pid))])
  }

  function NewRecord(slot: u32, index: nat): Thread {
    Thread(SequenceId(slot, index), HeaderBytes(SequenceId(slot, index)), map[])
  }

  lemma NewThread(r: Reader, threads: Threads, codes: Codes, slot: u32, pid: u32, tid: u32)
    requires Sequenced(r, threads, codes, slot, pid) && Announced(r, pid) && tid !in threads
    ensures var learned := Learn(r, ThreadPacket(slot, pid, |threads|, tid));
            && learned.Some? && Extends(r, learned.value) && Announced(learned.value, pid)
            && Sequenced(learned.value, threads[tid := NewRecord(slot, |threads|)], codes, slot, pid)
  {
    hide *;
    NextIsFresh(r, threads, codes, slot, pid);
    PacketTeaches(r, slot, pid, |threads|, tid);
    FreshThread(r, threads, codes, slot, pid, tid);
  }

  lemma NextIsFresh(r: Reader, threads: Threads, codes: Codes, slot: u32, pid: u32)
    requires Sequenced(r, threads, codes, slot, pid)
    ensures SequenceId(slot, |threads|) !in r.sequences && ProcessUuid(pid) + 1 + |threads| !in r.tracks
  {
    hide AllPlaced, OwnIds;
  }

  lemma PacketTeaches(r: Reader, slot: u32, pid: u32, index: nat, tid: u32)
    requires Announced(r, pid)
    requires SequenceId(slot, index) !in r.sequences && ProcessUuid(pid) + 1 + index !in r.tracks
    ensures var after := Taught(r, slot, pid, index, tid);
            Learn(r, ThreadPacket(slot, pid, index, tid)) == Some(after) && Announced(after, pid) && Extends(r, after)
  {
  }

  lemma RecordIsPlaced(r: Reader, codes: Codes, slot: u32, pid: u32, index: nat, tid: u32, limit: nat)
    requires limit == SequenceId(slot, index)
    ensures Placed(Taught(r, slot, pid, index, tid), NewRecord(slot, index), pid, tid, codes, limit + 1)
  {
    hide HeaderBytes, SequenceId, ProcessUuid;
  }

  lemma OthersStayPlaced(r: Reader, codes: Codes, slot: u32, pid: u32, index: nat, tid: u32, limit: nat, t: Thread, own: u32)
    requires Placed(r, t, pid, own, codes, limit) && limit == SequenceId(slot, index) && ProcessUuid(pid) + 1 + index !in r.tracks
    ensures Placed(Taught(r, slot, pid, index, tid), t, pid, own, codes, limit + 1)
  {
    hide HeaderBytes, SequenceId, ProcessUuid, Declared;
  }

  lemma AllStayPlaced(r: Reader, threads: Threads, codes: Codes, slot: u32, pid: u32, index: nat, tid: u32, limit: nat)
    requires AllPlaced(r, threads, codes, limit, pid) && limit == SequenceId(slot, index) && ProcessUuid(pid) + 1 + index !in r.tracks
    ensures AllPlaced(Taught(r, slot, pid, index, tid), threads[tid := NewRecord(slot, index)], codes, limit + 1, pid)
  {
    var after, more := Taught(r, slot, pid, index, tid), threads[tid := NewRecord(slot, index)];
    RecordIsPlaced(r, codes, slot, pid, index, tid, limit);
    hide Taught, NewRecord, Placed, SequenceId, ProcessUuid;
    forall t: u32 | t in more ensures Placed(after, more[t], pid, t, codes, limit + 1) {
      if t != tid {
        OthersStayPlaced(r, codes, slot, pid, index, tid, limit, threads[t], t);
      }
    }
  }

  lemma IdsStayOwn(r: Reader, threads: Threads, codes: Codes, slot: u32, pid: u32, index: nat, tid: u32, limit: nat)
    requires AllPlaced(r, threads, codes, limit, pid) && OwnIds(threads) && limit == SequenceId(slot, index)
    ensures OwnIds(threads[tid := NewRecord(slot, index)])
  {
    hide Declared, OnOwnTrack, SequenceId, HeaderBytes;
    assert forall a: u32 :: a in threads ==> Placed(r, threads[a], pid, a, codes, limit);
  }

  lemma NextWithin(r: Reader, slot: u32, pid: u32, index: nat, tid: u32, limit: nat)
    requires Within(r, slot, limit) && TracksWithin(r, pid, index) && limit == SequenceId(slot, index)
    ensures Within(Taught(r, slot, pid, index, tid), slot, limit + 1)
    ensures TracksWithin(Taught(r, slot, pid, index, tid), pid, index + 1)
    ensures SequenceId(slot, index + 1) == limit + 1
  {
  }

  lemma FreshThread(r: Reader, threads: Threads, codes: Codes, slot: u32, pid: u32, tid: u32)
    requires Sequenced(r, threads, codes, slot, pid) && tid !in threads
    ensures Sequenced(Taught(r, slot, pid, |threads|, tid), threads[tid := NewRecord(slot, |threads|)], codes, slot, pid)
  {
    var limit := SequenceId(slot, |threads|);
    var own := NewRecord(slot, |threads|);
    hide *;
    NextIsFresh(r, threads, codes, slot, pid);
    SequencedParts(r, threads, codes, slot, pid);
    OneThreadMore(threads, tid, own);
    AllStayPlaced(r, threads, codes, slot, pid, |threads|, tid, limit);
    IdsStayOwn(r, threads, codes, slot, pid, |threads|, tid, limit);
    NextWithin(r, slot, pid, |threads|, tid, limit);
    SequencedFrom(Taught(r, slot, pid, |threads|, tid), threads[tid := own], codes, slot, pid, |threads| + 1, limit + 1);
  }

  lemma OneThreadMore(threads: Threads, tid: u32, own: Thread)
    requires tid !in threads
    ensures |threads[tid := own]| == |threads| + 1
  {
  }

  lemma SequencedParts(r: Reader, threads: Threads, codes: Codes, slot: u32, pid: u32)
    requires Sequenced(r, threads, codes, slot, pid)
    ensures var limit := SequenceId(slot, |threads|);
            AllPlaced(r, threads, codes, limit, pid) && OwnIds(threads) && Within(r, slot, limit) && TracksWithin(r, pid, |threads|)
  {
  }

  lemma SequencedFrom(r: Reader, threads: Threads, codes: Codes, slot: u32, pid: u32, n: nat, limit: nat)
    requires n == |threads| && limit == SequenceId(slot, n) && AllPlaced(r, threads, codes, limit, pid)
    requires OwnIds(threads) && Within(r, slot, limit) && TracksWithin(r, pid, n)
    ensures Sequenced(r, threads, codes, slot, pid)
  {
    hide AllPlaced, OwnIds, Within, TracksWithin, SequenceId;
  }

  /** What a sequence knows once a code is declared on it under `iid`, and what the exporter records of that. */
  function With(known: Interned, iid: nat, code: Option<Code>): Interned {
    known.(names := known.names[iid := EventNameOf(code)],
           places := if code.Some? then known.places[iid := PlaceOf(code).value] else known.places)
  }

  function Knowing(r: Reader, id: nat, now: Interned): Reader {
    r.(sequences := r.sequences[id := now])
  }

  function Recording(t: Thread, code: u32, iid: nat, placed: bool): Thread {
    t.(iids := t.iids[code := (iid, placed)])
  }

  lemma NewCode(r: Reader, threads: Threads, codes: Codes, slot: u32, pid: u32, tid: u32, code: u32, iid: nat)
    requires Sequenced(r, threads, codes, slot, pid) && tid in threads && code < CODE_SPAN && code !in threads[tid].iids
    requires iid == |threads[tid].iids| + 1
    ensures var t := threads[tid];
            var learned := Learn(r, Intern(t.id, iid, EventNameOf(codes(code)), PlaceOf(codes(code))));
            && learned.Some? && Extends(r, learned.value) && learned.value.tracks == r.tracks
            && Sequenced(learned.value, threads[tid := Recording(t, code, iid, codes(code).Some?)], codes, slot, pid)
  {
    var t, code' := threads[tid], codes(code);
    hide *;
    ThreadDeclared(r, threads, codes, slot, pid, tid);
    var now := With(r.sequences[t.id], iid, code');
    CodeTeaches(r, t.id, iid, code');
    OneCodeMore(r.sequences[t.id], t, code, iid, codes);
    ThreadUpdated(r, threads, codes, slot, pid, tid, now, Recording(t, code, iid, code'.Some?));
  }

  lemma CodeTeaches(r: Reader, id: nat, iid: nat, code: Option<Code>)
    requires id in r.sequences
    ensures Learn(r, Intern(id, iid, EventNameOf(code), PlaceOf(code))) == Some(Knowing(r, id, With(r.sequences[id], iid, code)))
  {
  }

  lemma OneIidMore(iids: map<u32, (nat, bool)>, code: u32, entry: (nat, bool))
    requires code !in iids
    ensures |iids[code := entry]| == |iids| + 1
  {
  }

  lemma OneCodeMore(known: Interned, t: Thread, code: u32, iid: nat, codes: Codes)
    requires Declared(known, t, codes) && code < CODE_SPAN && code !in t.iids && iid == |t.iids| + 1
    ensures var now, more := With(known, iid, codes(code)), Recording(t, code, iid, codes(code).Some?);
            KeepsOn(known, now) && now.usual == known.usual && more.id == t.id && Declared(now, more, codes)
  {
    var placed := codes(code).Some?;
    OneIidMore(t.iids, code, (iid, placed));
    assert With(known, iid, codes(code)).categories == known.categories;
    hide HeaderBytes, CodesDeclared, EventNameOf, PlaceOf, With, KeepsOn;
    OneMoreCode(known, t.iids, iid - 1, code, codes);
  }

  lemma ThreadUpdated(r: Reader, threads: Threads, codes: Codes, slot: u32, pid: u32, tid: u32, now: Interned, u: Thread)
    requires Sequenced(r, threads, codes, slot, pid) && tid in threads && u.id == threads[tid].id && Declared(now, u, codes)
    requires u.id in r.sequences && now.usual == r.sequences[u.id].usual && KeepsOn(r.sequences[u.id], now)
    ensures var after := Knowing(r, u.id, now);
            && Sequenced(after, threads[tid := u], codes, slot, pid) && Extends(r, after) && after.tracks == r.tracks
  {
    var limit, more, after := SequenceId(slot, |threads|), threads[tid := u], Knowing(r, u.id, now);
    KnownGrows(r, u.id, now);
    assert after.tracks == r.tracks;
    hide *;
    SequencedParts(r, threads, codes, slot, pid);
    SameThreads(threads, tid, u);
    AllUpdated(r, threads, codes, pid, tid, limit, now, u);
    OwnIdsUpdated(r, threads, tid, u, slot, limit, pid, |threads|, now);
    SequencedFrom(after, more, codes, slot, pid, |threads|, limit);
  }

  lemma SameThreads(threads: Threads, tid: u32, u: Thread)
    requires tid in threads
    ensures |threads[tid := u]| == |threads|
  {
  }

  lemma AllUpdated(r: Reader, threads: Threads, codes: Codes, pid: u32, tid: u32, limit: nat, now: Interned, u: Thread)
    requires AllPlaced(r, threads, codes, limit, pid) && tid in threads && u.id == threads[tid].id && OwnIds(threads)
    requires u.id in r.sequences && now.usual == r.sequences[u.id].usual && Declared(now, u, codes)
    ensures AllPlaced(Knowing(r, u.id, now), threads[tid := u], codes, limit, pid)
  {
    hide Declared, ProcessUuid;
    var after, more := Knowing(r, u.id, now), threads[tid := u];
    forall t: u32 | t in more ensures Placed(after, more[t], pid, t, codes, limit) {
      assert Placed(r, threads[t], pid, t, codes, limit);
    }
  }

  lemma OwnIdsUpdated(r: Reader, threads: Threads, tid: u32, u: Thread, slot: u32, limit: nat, pid: u32, n: nat, now: Interned)
    requires tid in threads && u.id == threads[tid].id && OwnIds(threads) && u.id in r.sequences
    requires Within(r, slot, limit) && TracksWithin(r, pid, n)
    ensures var after := Knowing(r, u.id, now);
            OwnIds(threads[tid := u]) && Within(after, slot, limit) && TracksWithin(after, pid, n)
  {
  }

  lemma KnownGrows(r: Reader, id: nat, now: Interned)
    requires id in r.sequences && KeepsOn(r.sequences[id], now)
    ensures Extends(r, Knowing(r, id, now))
  {
  }

  lemma WithKeeps(known: Interned, n: nat, code: Option<Code>)
    requires IdsUpTo(known, n)
    ensures KeepsOn(known, With(known, n + 1, code)) && CodeDeclared(With(known, n + 1, code), n + 1, code.Some?, code)
    ensures IdsUpTo(With(known, n + 1, code), n + 1)
  {
  }

  lemma OneMoreCode(known: Interned, iids: map<u32, (nat, bool)>, n: nat, code: u32, codes: Codes)
    requires CodesDeclared(known, iids, n, codes) && code < CODE_SPAN
    ensures var now := With(known, n + 1, codes(code));
            KeepsOn(known, now) && CodesDeclared(now, iids[code := (n + 1, codes(code).Some?)], n + 1, codes)
  {
    var now := With(known, n + 1, codes(code));
    WithKeeps(known, n, codes(code));
    hide With;
    forall c: u32 | c in iids ensures CodeDeclared(now, iids[c].0, iids[c].1, codes(c)) {
      assert CodeDeclared(known, iids[c].0, iids[c].1, codes(c));
    }
    hide CodeDeclared;
  }

  /** Threads only ever gain codes, and templates only ever gain bytes behind them. */
  ghost predicate Grows(threads: Threads, more: Threads) {
    forall tid: u32 :: tid in threads ==>
      && tid in more && more[tid].header == threads[tid].header
      && forall code: u32 :: code in threads[tid].iids ==> code in more[tid].iids && more[tid].iids[code] == threads[tid].iids[code]
  }

  lemma TemplatesStay(templates: Templates, bytes: seq<byte>, more: seq<byte>, threads: Threads, later: Threads)
    requires Templated(templates, bytes, threads) && bytes <= more && Grows(threads, later)
    ensures Templated(templates, more, later)
  {
    forall tid: u32, code: u32, opens: bool | code < CODE_SPAN && Key(tid, code, opens) in templates
      ensures TemplateOk(templates[Key(tid, code, opens)], more, later, tid, code, opens)
    {
      TemplateStays(templates[Key(tid, code, opens)], bytes, more, threads, later, tid, code, opens);
    }
  }

  lemma TemplateStays(range: (nat, nat), bytes: seq<byte>, more: seq<byte>, threads: Threads, later: Threads,
                       tid: u32, code: u32, opens: bool)
    requires TemplateOk(range, bytes, threads, tid, code, opens) && bytes <= more && Grows(threads, later)
    ensures TemplateOk(range, more, later, tid, code, opens)
  {
    hide TemplateBytes, SliceBytes;
    assert more[range.0..range.0 + range.1] == bytes[range.0..range.0 + range.1];
  }

  lemma NewTemplate(templates: Templates, bytes: seq<byte>, threads: Threads, tid: u32, code: u32, opens: bool)
    requires Templated(templates, bytes, threads) && code < CODE_SPAN
    requires tid in threads && (opens ==> code in threads[tid].iids)
    ensures var text := TemplateText(threads[tid], code, opens);
            var range := (|bytes|, |text|);
            && TemplateOk(range, bytes + text, threads, tid, code, opens)
            && Templated(templates[Key(tid, code, opens) := range], bytes + text, threads)
  {
    var text := TemplateText(threads[tid], code, opens);
    hide TemplateBytes, SliceBytes;
    var range, all := (|bytes|, |text|), bytes + text;
    assert all[|bytes|..] == text;
    TemplatesStay(templates, bytes, all, threads, threads);
    hide TemplateOk, TemplateText;
    var after := templates[Key(tid, code, opens) := range];
    forall a: u32, x: u32, p: bool | x < CODE_SPAN && Key(a, x, p) in after
      ensures TemplateOk(after[Key(a, x, p)], all, threads, a, x, p)
    {
      KeysDiffer(a, x, p, tid, code, opens);
    }
  }

  // ----- bounds -----

  lemma {:induction false} SetBelow(s: set<nat>, n: nat)
    requires forall x :: x in s ==> x < n
    ensures |s| <= n
    decreases n
  {
    if s != {} {
      if n == 0 {
        assert false;
      } else {
        SetBelow(s - {n - 1}, n - 1);
        if n - 1 in s {
          assert s == (s - {n - 1}) + {n - 1};
        } else {
          assert s == s - {n - 1};
        }
      }
    }
  }

  /** Sequence and name ids fit their varints, because threads and codes do. */
  lemma IdsFit(r: Reader, threads: Threads, codes: Codes, slot: u32, pid: u32, tid: u32, code: u32)
    requires Sequenced(r, threads, codes, slot, pid) && tid in threads
    ensures threads[tid].id <= U64_MAX
    ensures code in threads[tid].iids ==> threads[tid].iids[code].0 <= U64_MAX
  {
    var tids: set<nat> := threads.Keys;
    SetBelow(tids, U32_SPAN);
    assert |threads| == |tids|;
    ThreadDeclared(r, threads, codes, slot, pid, tid);
    var ids: set<nat> := threads[tid].iids.Keys;
    assert forall x :: x in ids ==> x < CODE_SPAN;
    SetBelow(ids, CODE_SPAN);
    assert |threads[tid].iids| == |ids|;
    hide CodeDeclared, HeaderBytes;
    if code in threads[tid].iids {
      assert threads[tid].iids[code].0 <= |threads[tid].iids|;
    }
  }

  lemma CodesFit(r: Reader, threads: Threads, codes: Codes, slot: u32, pid: u32, tid: u32, code: u32)
    requires Sequenced(r, threads, codes, slot, pid) && tid in threads && code in threads[tid].iids
    ensures threads[tid].iids[code].0 <= U64_MAX
  {
    IdsFit(r, threads, codes, slot, pid, tid, code);
  }

  lemma NextIdFits(threads: Threads, slot: u32)
    ensures SequenceId(slot, |threads|) <= U64_MAX
  {
    var tids: set<nat> := threads.Keys;
    SetBelow(tids, U32_SPAN);
    assert |threads| == |tids|;
  }

  /** The sequence ids a process with that slot and that many threads writes under: its own, and one a thread. */
  ghost predicate Uses(slot: u32, threads: nat, id: nat) {
    || id == slot * SEQUENCES_PER_SLOT + PROCESS_SEQUENCE_ID
    || exists index: nat :: index < threads && id == SequenceId(slot, index)
  }

  lemma UsesBounds(slot: u32, threads: nat, id: nat)
    requires Uses(slot, threads, id)
    ensures slot * SEQUENCES_PER_SLOT < id <= slot * SEQUENCES_PER_SLOT + 1 + threads
  {
  }

  /**
   Processes that share a file take slots of their own. No id of one is an id of another, whatever the slots,
   exactly as long as none of them has more than 127 threads: the next thread takes the id of the next slot's process.
   */
  lemma SlotsStayApartIff(threads: nat)
    ensures (forall slot: u32, other: u32, id: nat :: slot != other && Uses(slot, threads, id) ==> !Uses(other, threads, id))
        <==> threads <= 127
  {
    if threads > 127 {
      assert SequenceId(0, 127) == 129;
      assert Uses(0, threads, 129) && Uses(1, threads, 129);
    } else {
      forall slot: u32, other: u32, id: nat | slot < other && Uses(slot, threads, id) ensures !Uses(other, threads, id) {
        UsesBounds(slot, threads, id);
        if Uses(other, threads, id) {
          UsesBounds(other, threads, id);
        }
      }
    }
  }

  /** Their threads alone stay apart for one more. */
  lemma ThreadsStayApartIff(threads: nat)
    ensures (forall slot: u32, other: u32, index: nat, i: nat ::
               slot != other && index < threads && i < threads ==> SequenceId(slot, index) != SequenceId(other, i))
        <==> threads <= 128
  {
    if threads > 128 {
      assert SequenceId(0, 128) == SequenceId(1, 0);
    }
  }

  // ----- one event -----

  lemma ThreadDeclared(r: Reader, threads: Threads, codes: Codes, slot: u32, pid: u32, tid: u32)
    requires Sequenced(r, threads, codes, slot, pid) && tid in threads
    ensures var t := threads[tid];
            && t.id in r.sequences && t.id < SequenceId(slot, |threads|)
            && Declared(r.sequences[t.id], t, codes) && OnOwnTrack(r, r.sequences[t.id], pid, tid)
  {
    hide Declared, OnOwnTrack;
    assert Placed(r, threads[tid], pid, tid, codes, SequenceId(slot, |threads|));
  }

  lemma ThreadOnTrack(r: Reader, threads: Threads, codes: Codes, slot: u32, pid: u32, tid: u32)
    requires Sequenced(r, threads, codes, slot, pid) && tid in threads
    ensures UsualTrack(r, threads[tid]).Some? && OnOwnTrack(r, r.sequences[threads[tid].id], pid, tid)
  {
    ThreadDeclared(r, threads, codes, slot, pid, tid);
  }

  /** A memoised template, framed with its timestamp, reads as the event it was asked for. */
  lemma EventReads(r: Reader, threads: Threads, codes: Codes, slot: u32, pid: u32, e: Event, range: (nat, nat), bytes: seq<byte>)
    requires Sequenced(r, threads, codes, slot, pid)
    requires TemplateOk(range, bytes, threads, e.tid, if Opens(e.codeKind) then CodeOf(e.codeKind) else 0, Opens(e.codeKind))
    ensures ReadFrames(r, Frame(e.tsNs, bytes[range.0..range.0 + range.1])) == Some([Expected(pid, codes, e)])
  {
    var t, opens, code := threads[e.tid], Opens(e.codeKind), CodeOf(e.codeKind);
    IdsFit(r, threads, codes, slot, pid, e.tid, code);
    ThreadDeclared(r, threads, codes, slot, pid, e.tid);
    TemplateHolds(range, bytes, threads, e.tid, if opens then code else 0, opens);
    hide *;
    TemplateIs(r.sequences[t.id], t, codes, code, opens);
    SliceResolves(r, r.sequences[t.id], t, codes, pid, e);
    FrameReads(r, e.tsNs, t.id, SliceOf(t, code, opens));
  }

  lemma TemplateHolds(range: (nat, nat), bytes: seq<byte>, threads: Threads, tid: u32, code: u32, opens: bool)
    requires TemplateOk(range, bytes, threads, tid, code, opens)
    ensures tid in threads && (opens ==> code in threads[tid].iids) && range.0 + range.1 <= |bytes|
    ensures bytes[range.0..range.0 + range.1] == TemplateText(threads[tid], code, opens)
  {
    hide TemplateText;
  }

  lemma TemplateIs(known: Interned, t: Thread, codes: Codes, code: u32, opens: bool)
    requires Declared(known, t, codes) && (opens ==> code in t.iids)
    ensures TemplateText(t, if opens then code else 0, opens) == TemplateBytes(HeaderBytes(t.id), SliceBytes(SliceOf(t, code, opens)))
  {
    hide CodeDeclared, HeaderBytes, TemplateBytes, SliceBytes;
  }

  /** The slice an event's template declares resolves, on its sequence, to what a reader should see. */
  lemma SliceResolves(r: Reader, known: Interned, t: Thread, codes: Codes, pid: u32, e: Event)
    requires Declared(known, t, codes) && OnOwnTrack(r, known, pid, e.tid) && (Opens(e.codeKind) ==> CodeOf(e.codeKind) in t.iids)
    ensures var s := SliceOf(t, CodeOf(e.codeKind), Opens(e.codeKind));
            Resolvable(r, known, s) && SeenOf(r, known, e.tsNs, s) == Expected(pid, codes, e)
  {
    hide HeaderBytes, SliceBytes, TemplateBytes, TrackOf;
    if Opens(e.codeKind) {
      assert CodeDeclared(known, t.iids[CodeOf(e.codeKind)].0, t.iids[CodeOf(e.codeKind)].1, codes(CodeOf(e.codeKind)));
    }
  }
}

/** The exporter. */
module Proto {
  import opened Words
  import opened Events
  import opened Sink
  import opened Perfetto
  import opened EventBytes
  import opened Interning
  import Wire

  class Exporter {
    var out: seq<Chunk>
    var buf: seq<byte>
    var templates: Templates
    var templateBytes: seq<byte>
    var threads: Threads
    var processEmitted: bool
    const pid: u32
    const slot: u32
    const codes: Codes

    /**
     A reader of the trace so far knows every sequence and id in the tables, and each thread's events on a track of the
     thread's own, below the process's; every template is up to date.
     */
    ghost predicate Valid()
      reads this
    {
      && ReadTrace(out).Some?
      && Sequenced(ReadTrace(out).value.0, threads, codes, slot, pid)
      && Templated(templates, templateBytes, threads)
      && (processEmitted ==> Announced(ReadTrace(out).value.0, pid))
      && (!processEmitted ==> ReadTrace(out).value.0 == NOTHING && threads == map[])
    }

    ghost function Known(): Reader
      requires Valid()
      reads this
    {
      ReadTrace(out).value.0
    }

    /** The events a reader recovers from the trace so far. */
    ghost function Recovered(): seq<Seen>
      requires Valid()
      reads this
    {
      ReadTrace(out).value.1
    }

    constructor (pid: u32, slot: u32, codes: Codes)
      ensures Valid() && Recovered() == [] && this.codes == codes && this.pid == pid && this.slot == slot
    {
      this.pid, this.slot, this.codes := pid, slot, codes;
      out, buf, templates, templateBytes, threads, processEmitted := [], [], map[], [], map[], false;
    }

    method EnsureProcess()
      requires Valid()
      modifies this`out, this`processEmitted
      ensures Valid() && processEmitted && Extends(old(Known()), Known()) && Recovered() == old(Recovered())
    {
      if processEmitted {
        return;
      }
      processEmitted := true;
      WritePacket(Process(slot * SEQUENCES_PER_SLOT + PROCESS_SEQUENCE_ID, ProcessUuid(pid), pid));
    }

    /** A packet the reader accepts adds to what it knows and recovers nothing. */
    method WritePacket(packet: Chunk)
      requires !packet.Raw? && ReadTrace(out).Some? && Learn(ReadTrace(out).value.0, packet).Some?
      modifies this`out
      ensures out == old(out) + [packet]
      ensures ReadTrace(out) == Some((Learn(ReadTrace(old(out)).value.0, packet).value, ReadTrace(old(out)).value.1))
    {
      assert (out + [packet])[..|out|] == out;
      out := out + [packet];
    }

    /** A thread new to the trace gets the next sequence, declared before anything else on it. */
    method EnsureSequence(tid: u32)
      requires Valid() && processEmitted
      modifies this`out, this`threads
      ensures Valid() && tid in threads && Extends(old(Known()), Known()) && Recovered() == old(Recovered())
      ensures UsualTrack(Known(), threads[tid]).Some? && OnOwnTrack(Known(), Known().sequences[threads[tid].id], pid, tid)
    {
      hide ReadTrace, Sequenced, Templated, Extends, Grows, HeaderBytes, OnOwnTrack;
      ExtendsItself(Known());
      if tid in threads {
        ThreadOnTrack(Known(), threads, codes, slot, pid, tid);
        return;
      }
      ghost var r, before := Known(), threads;
      NextIdFits(threads, slot);
      NewThread(r, threads, codes, slot, pid, tid);
      var id := SequenceId(slot, |threads|);
      var header := HeaderText(id);
      assert ThreadPacket(slot, pid, |threads|, tid) == Sequence(id, ProcessUuid(pid) + 1 + |threads|, CATEGORY_IID,
                                                                 ProcessUuid(pid) + 1 + |threads|, ProcessUuid(pid), pid, tid);
      var track := ProcessUuid(pid) + 1 + |threads|;
      WritePacket(Sequence(id, track, CATEGORY_IID, track, ProcessUuid(pid), pid, tid));
      threads := threads[tid := Thread(id, header, map[])];
      GrowsByThread(before, tid, threads[tid]);
      TemplatesStay(templates, templateBytes, templateBytes, before, threads);
      ThreadOnTrack(Known(), threads, codes, slot, pid, tid);
    }

    /** A code new to a sequence gets its next id, declared at once. */
    method CodeIid(tid: u32, code: u32) returns (iid: nat, placed: bool)
      requires Valid() && processEmitted && tid in threads && code < CODE_SPAN
      modifies this`out, this`threads
      ensures Valid() && Extends(old(Known()), Known()) && Recovered() == old(Recovered())
      ensures tid in threads && code in threads[tid].iids && threads[tid].iids[code] == (iid, placed)
    {
      hide ReadTrace, Sequenced, Templated, Extends, Grows, Learn, EventNameOf, PlaceOf;
      ExtendsItself(Known());
      var t := threads[tid];
      if code in t.iids {
        return t.iids[code].0, t.iids[code].1;
      }
      ghost var r, before := Known(), threads;
      iid, placed := |t.iids| + 1, codes(code).Some?;
      NewCode(r, threads, codes, slot, pid, tid, code, iid);
      WritePacket(Intern(t.id, iid, EventNameOf(codes(code)), PlaceOf(codes(code))));
      threads := threads[tid := t.(iids := t.iids[code := (iid, placed)])];
      GrowsByCode(before, tid, code, iid, placed);
      TemplatesStay(templates, templateBytes, templateBytes, before, threads);
    }

    /** The bytes of a begin or an end, memoised; all ends of a thread share one template. */
    method TemplateFor(tid: u32, code: u32, opens: bool) returns (range: (nat, nat))
      requires Valid() && processEmitted && tid in threads && code < CODE_SPAN
      modifies this`out, this`threads, this`templates, this`templateBytes
      ensures Valid() && Extends(old(Known()), Known()) && Recovered() == old(Recovered())
      ensures TemplateOk(range, templateBytes, threads, tid, if opens then code else 0, opens)
    {
      hide ReadTrace, Sequenced, Extends, TemplateOk, SliceBytes;
      var keyed: u32 := if opens then code else 0;
      ExtendsItself(Known());
      if Key(tid, keyed, opens) in templates {
        return templates[Key(tid, keyed, opens)];
      }
      hide Templated;
      var slice := Slice.End;
      if opens {
        var iid, placed := CodeIid(tid, code);
        slice := Slice.Begin(iid, placed);
        CodesFit(Known(), threads, codes, slot, pid, tid, code);
      }
      range := Memoise(tid, keyed, opens, slice);
    }

    method Memoise(tid: u32, code: u32, opens: bool, slice: Slice) returns (range: (nat, nat))
      requires Valid() && tid in threads && code < CODE_SPAN && (opens ==> code in threads[tid].iids)
      requires slice == SliceOf(threads[tid], code, opens) && (slice.Begin? ==> slice.iid <= U64_MAX)
      modifies this`templates, this`templateBytes
      ensures Valid() && TemplateOk(range, templateBytes, threads, tid, code, opens)
    {
      hide ReadTrace, Sequenced, Templated, TemplateOk, SliceBytes;
      NewTemplate(templates, templateBytes, threads, tid, code, opens);
      var event := SliceText(slice);
      SliceIsShort(slice);
      var start := |templateBytes|;
      var size := Wire.VarintOf(|event|);
      var text := threads[tid].header + [TRACK_EVENT];
      text := text + size;
      text := text + event;
      assert text == TemplateText(threads[tid], code, opens);
      templateBytes := templateBytes + text;
      range := (start, |text|);
      templates := templates[Key(tid, code, opens) := range];
    }

    /** One event's frame into the buffer. */
    method PushEvent(ts: u64, range: (nat, nat))
      requires range.0 + range.1 <= |templateBytes| && range.1 < U32_SPAN
      modifies this`buf
      ensures buf == old(buf) + Frame(ts, templateBytes[range.0..range.0 + range.1])
    {
      hide Wire.Varint;
      var stamp := Wire.VarintOf(ts);
      Wire.VarintRoundTrip(ts, []);
      var template := templateBytes[range.0..range.0 + range.1];
      var size := Wire.VarintOf(1 + |stamp| + range.1);
      var frame := [PACKET_TAG] + size;
      frame := frame + [TIMESTAMP];
      frame := frame + stamp;
      frame := frame + template;
      buf := buf + frame;
    }

    /**
     `write_batch`: a reader of the trace recovers, after what it recovered before, each event's thread,
     timestamp, polarity and name, in order.
     */
    method WriteBatch(events: seq<Event>)
      requires Valid()
      modifies this
      ensures Valid() && Recovered() == old(Recovered()) + AllExpected(pid, codes, events)
    {
      hide ReadTrace, Sequenced, Templated, Extends, TemplateOk, Expected, ReadFrames;
      EnsureProcess();
      buf := [];
      NoFrames(Known());
      var i := 0;
      while i < |events|
        invariant i <= |events| && Valid() && processEmitted && Recovered() == old(Recovered())
        invariant ReadFrames(Known(), buf) == Some(AllExpected(pid, codes, events[..i]))
      {
        PushOne(events[i]);
        assert events[..i + 1] == events[..i] + [events[i]];
        assert AllExpected(pid, codes, events[..i + 1]) == AllExpected(pid, codes, events[..i]) + [Expected(pid, codes, events[i])];
        i := i + 1;
      }
      assert events[..|events|] == events;
      RawReads(out, buf);
      out := out + [Raw(buf)];
    }

    method PushOne(e: Event)
      requires Valid() && processEmitted && ReadFrames(Known(), buf).Some?
      modifies this
      ensures Valid() && processEmitted && Recovered() == old(Recovered())
      ensures ReadFrames(Known(), buf) == Some(ReadFrames(old(Known()), old(buf)).value + [Expected(pid, codes, e)])
    {
      hide ReadTrace, Sequenced, Templated, Extends, TemplateOk, Expected, ReadFrames, Frame;
      ghost var r := Known();
      EnsureSequence(e.tid);
      ghost var mid := Known();
      var range := TemplateFor(e.tid, CodeOf(e.codeKind), Opens(e.codeKind));
      ExtendsFurther(r, mid, Known());
      FramesStillRead(r, Known(), buf);
      TemplateIsShort(Known(), threads, codes, slot, pid, e, range, templateBytes);
      EventReads(Known(), threads, codes, slot, pid, e, range, templateBytes);
      FramesConcat(Known(), buf, Frame(e.tsNs, templateBytes[range.0..range.0 + range.1]));
      PushEvent(e.tsNs, range);
    }

    /** `finish`: events lost on the way are noted, and nothing more is recovered. */
    method Finish(dropped: nat)
      requires Valid()
      modifies this`out, this`processEmitted
      ensures Valid() && Recovered() == old(Recovered())
      ensures dropped > 0 ==>
                && out != [] && out[|out| - 1] == Dropped(slot * SEQUENCES_PER_SLOT + PROCESS_SEQUENCE_ID, ProcessUuid(pid), dropped)
      ensures dropped == 0 ==> out == old(out)
    {
      hide ReadTrace, Sequenced, Templated;
      if dropped > 0 {
        EnsureProcess();
        WritePacket(Dropped(slot * SEQUENCES_PER_SLOT + PROCESS_SEQUENCE_ID, ProcessUuid(pid), dropped));
      }
    }
  }

  lemma NoFrames(r: Reader)
    ensures ReadFrames(r, []) == Some([])
  {
  }

  lemma RawReads(out: seq<Chunk>, bytes: seq<byte>)
    requires ReadTrace(out).Some? && ReadFrames(ReadTrace(out).value.0, bytes).Some?
    ensures ReadTrace(out + [Raw(bytes)])
         == Some((ReadTrace(out).value.0, ReadTrace(out).value.1 + ReadFrames(ReadTrace(out).value.0, bytes).value))
  {
    assert (out + [Raw(bytes)])[..|out|] == out;
  }

  lemma TemplateIsShort(r: Reader, threads: Threads, codes: Codes, slot: u32, pid: u32, e: Event, range: (nat, nat), bytes: seq<byte>)
    requires Sequenced(r, threads, codes, slot, pid)
    requires TemplateOk(range, bytes, threads, e.tid, if Opens(e.codeKind) then CodeOf(e.codeKind) else 0, Opens(e.codeKind))
    ensures range.0 + range.1 <= |bytes| && range.1 < U32_SPAN
  {
    var t, opens := threads[e.tid], Opens(e.codeKind);
    var code: u32 := if opens then CodeOf(e.codeKind) else 0;
    IdsFit(r, threads, codes, slot, pid, e.tid, code);
    ThreadDeclared(r, threads, codes, slot, pid, e.tid);
    var slice := SliceBytes(SliceOf(t, code, opens));
    SliceIsShort(SliceOf(t, code, opens));
    VarintShort(t.id);
    VarintShort(|slice|);
    assert |TemplateText(t, code, opens)| == range.1;
  }

  lemma ExtendsItself(r: Reader)
    ensures Extends(r, r)
  {
  }

  lemma ExtendsFurther(a: Reader, b: Reader, c: Reader)
    requires Extends(a, b) && Extends(b, c)
    ensures Extends(a, c)
  {
  }

  lemma GrowsByThread(threads: Threads, tid: u32, t: Thread)
    requires tid !in threads
    ensures Grows(threads, threads[tid := t])
  {
  }

  lemma GrowsByCode(threads: Threads, tid: u32, code: u32, iid: nat, placed: bool)
    requires tid in threads && code !in threads[tid].iids
    ensures var t := threads[tid]; Grows(threads, threads[tid := t.(iids := t.iids[code := (iid, placed)])])
  {
  }

  method HeaderText(id: u64) returns (header: seq<byte>)
    ensures header == HeaderBytes(id)
  {
    var text := Wire.VarintOf(id);
    header := [SEQUENCE_ID] + text;
    header := header + [SEQUENCE_FLAGS, NEEDS_STATE];
  }

  /** The event part of a template, pushed byte by byte. */
  method SliceText(s: Slice) returns (event: seq<byte>)
    requires s.Begin? ==> s.iid <= U64_MAX
    ensures event == SliceBytes(s)
  {
    event := [TYPE];
    event := event + [if s.Begin? then SLICE_BEGIN else SLICE_END];
    if s.Begin? {
      hide Wire.Varint;
      var category := Wire.VarintOf(CATEGORY_IID);
      var iid := Wire.VarintOf(s.iid);
      event := event + [CATEGORY_IIDS];
      event := event + category;
      event := event + [NAME_IID];
      event := event + iid;
      if s.placed {
        event := event + SOURCE_LOCATION_IID;
        event := event + iid;
      }
      var head := [TYPE, SLICE_BEGIN] + [CATEGORY_IIDS] + Wire.Varint(CATEGORY_IID) + [NAME_IID] + Wire.Varint(s.iid);
      assert event == head + if s.placed then SOURCE_LOCATION_IID + Wire.Varint(s.iid) else [];
    }
  }
}
