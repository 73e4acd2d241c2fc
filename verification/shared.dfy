/** A trace file that several processes write to, each under sequence ids of its own slot and on tracks of its own. */
module SharedFile {
  import opened Words
  import opened Perfetto
  import opened EventBytes
  import opened Interning
  import Sink

  /** One chunk of the file, and the process that wrote it. */
  datatype Part = Part(process: nat, chunk: Chunk)

  function Chunks(file: seq<Part>): (chunks: seq<Chunk>)
    ensures |chunks| == |file|
  {
    seq(|file|, i requires 0 <= i < |file| => file[i].chunk)
  }

  /** What one process wrote, in order: its own trace. */
  function ChunksOf(file: seq<Part>, process: nat): seq<Chunk> {
    if file == [] then []
    else
      ChunksOf(file[..|file| - 1], process)
      + if file[|file| - 1].process == process then [file[|file| - 1].chunk] else []
  }

  /** An event recovered, and the process whose chunk it comes from. */
  datatype From = From(process: nat, seen: Seen)

  function Marked(process: nat, seen: seq<Seen>): (marked: seq<From>)
    ensures |marked| == |seen|
  {
    seq(|seen|, i requires 0 <= i < |seen| => From(process, seen[i]))
  }

  function Unmarked(all: seq<From>): (seen: seq<Seen>)
    ensures |seen| == |all|
  {
    seq(|all|, i requires 0 <= i < |all| => all[i].seen)
  }

  function SeenOf(all: seq<From>, process: nat): seq<Seen> {
    if all == [] then []
    else SeenOf(all[..|all| - 1], process) + if all[|all| - 1].process == process then [all[|all| - 1].seen] else []
  }

  /** The file as one trace, front to back, remembering where each event came from. */
  function ReadFile(file: seq<Part>): Option<(Reader, seq<From>)> {
    if file == [] then Some((NOTHING, []))
    else
      match ReadFile(file[..|file| - 1])
      case None => None
      case Some((r, all)) => ReadPart(r, all, file[|file| - 1])
  }

  function ReadPart(r: Reader, all: seq<From>, part: Part): Option<(Reader, seq<From>)> {
    if part.chunk.Raw? then
      match ReadFrames(r, part.chunk.bytes)
      case Some(more) => Some((r, all + Marked(part.process, more)))
      case None => None
    else
      match Learn(r, part.chunk)
      case Some(after) => Some((after, all))
      case None => None
  }

  lemma ReadOnto(chunks: seq<Chunk>, c: Chunk)
    requires ReadTrace(chunks).Some?
    ensures c.Raw? && ReadFrames(ReadTrace(chunks).value.0, c.bytes).Some? ==> ReadTrace(chunks + [c]).Some?
    ensures c.Raw? && ReadFrames(ReadTrace(chunks).value.0, c.bytes).None? ==> ReadTrace(chunks + [c]).None?
    ensures c.Raw? && ReadTrace(chunks + [c]).Some? ==>
              ReadTrace(chunks + [c])
              == Some((ReadTrace(chunks).value.0, ReadTrace(chunks).value.1 + ReadFrames(ReadTrace(chunks).value.0, c.bytes).value))
    ensures !c.Raw? && Learn(ReadTrace(chunks).value.0, c).None? ==> ReadTrace(chunks + [c]).None?
    ensures !c.Raw? && Learn(ReadTrace(chunks).value.0, c).Some? ==>
              ReadTrace(chunks + [c]) == Some((Learn(ReadTrace(chunks).value.0, c).value, ReadTrace(chunks).value.1))
  {
    assert (chunks + [c])[..|chunks|] == chunks;
    hide Learn, ReadFrames;
  }

  lemma UnmarkedMore(all: seq<From>, process: nat, more: seq<Seen>)
    ensures Unmarked(all + Marked(process, more)) == Unmarked(all) + more
  {
  }

  /** It is the one trace its chunks are. */
  lemma {:induction false} FileIsTrace(file: seq<Part>)
    ensures ReadFile(file).Some? <==> ReadTrace(Chunks(file)).Some?
    ensures ReadFile(file).Some? ==>
              ReadTrace(Chunks(file)) == Some((ReadFile(file).value.0, Unmarked(ReadFile(file).value.1)))
    decreases |file|
  {
    if file != [] {
      var front, part := file[..|file| - 1], file[|file| - 1];
      FileIsTrace(front);
      assert Chunks(file) == Chunks(front) + [part.chunk];
      if ReadFile(front).Some? {
        hide ReadTrace, Learn, ReadFrames, Chunks, Unmarked, Marked;
        var (r, all) := ReadFile(front).value;
        ReadOnto(Chunks(front), part.chunk);
        if part.chunk.Raw? && ReadFrames(r, part.chunk.bytes).Some? {
          UnmarkedMore(all, part.process, ReadFrames(r, part.chunk.bytes).value);
        }
      } else {
        FrontFails(Chunks(front), part.chunk);
      }
    }
  }

  lemma FrontFails(chunks: seq<Chunk>, c: Chunk)
    requires ReadTrace(chunks).None?
    ensures ReadTrace(chunks + [c]).None?
  {
    assert (chunks + [c])[..|chunks|] == chunks;
  }

  // ----- each process in the whole -----

  lemma {:induction false} SeenOfConcat(a: seq<From>, b: seq<From>, process: nat)
    ensures SeenOf(a + b, process) == SeenOf(a, process) + SeenOf(b, process)
    decreases |b|
  {
    if b == [] {
      assert a + b == a;
    } else {
      assert (a + b)[..|a + b| - 1] == a + b[..|b| - 1];
      SeenOfConcat(a, b[..|b| - 1], process);
    }
  }

  lemma {:induction false} SeenOfMarked(seen: seq<Seen>, writer: nat, process: nat)
    ensures SeenOf(Marked(writer, seen), process) == if writer == process then seen else []
    decreases |seen|
  {
    if seen != [] {
      SeenOfMarked(seen[..|seen| - 1], writer, process);
      assert Marked(writer, seen)[..|seen| - 1] == Marked(writer, seen[..|seen| - 1]);
    }
  }

  /** What a reader of a process's own trace knows at the end of it. */
  function KnownOf(file: seq<Part>, process: nat): Reader
    requires ReadTrace(ChunksOf(file, process)).Some?
  {
    ReadTrace(ChunksOf(file, process)).value.0
  }

  ghost predicate AllRead(file: seq<Part>) {
    forall p: nat :: ReadTrace(ChunksOf(file, p)).Some?
  }

  predicate Disjoint(a: Reader, b: Reader) {
    a.sequences.Keys !! b.sequences.Keys && a.tracks.Keys !! b.tracks.Keys
  }

  /** No sequence is declared, and no track described, by two processes. */
  ghost predicate Apart(file: seq<Part>)
    requires AllRead(file)
  {
    forall p: nat, q: nat :: p != q ==> Disjoint(KnownOf(file, p), KnownOf(file, q))
  }

  /** The reader of the file knows of each process exactly what a reader of its own trace does. */
  ghost predicate Holds(r: Reader, own: Reader) {
    && (forall id :: id in own.sequences ==> id in r.sequences && r.sequences[id] == own.sequences[id])
    && (forall u :: u in own.tracks ==> u in r.tracks && r.tracks[u] == own.tracks[u])
  }

  /** Every track it knows is one process's. */
  ghost predicate TracksAreOwned(r: Reader, file: seq<Part>)
    requires AllRead(file)
  {
    forall u :: u in r.tracks ==> exists p: nat :: u in KnownOf(file, p).tracks
  }

  lemma ChunksOfSnoc(front: seq<Part>, part: Part, process: nat)
    ensures ChunksOf(front + [part], process)
         == if part.process == process then ChunksOf(front, process) + [part.chunk] else ChunksOf(front, process)
  {
    assert (front + [part])[..|front|] == front;
    assert ChunksOf(front, process) + [] == ChunksOf(front, process);
  }

  lemma ReadTraceSnoc(chunks: seq<Chunk>, c: Chunk)
    requires ReadTrace(chunks + [c]).Some?
    ensures ReadTrace(chunks).Some?
    ensures c.Raw? ==> ReadFrames(ReadTrace(chunks).value.0, c.bytes).Some?
                       && ReadTrace(chunks + [c]).value
                       == (ReadTrace(chunks).value.0, ReadTrace(chunks).value.1 + ReadFrames(ReadTrace(chunks).value.0, c.bytes).value)
    ensures !c.Raw? ==> Learn(ReadTrace(chunks).value.0, c).Some?
                        && ReadTrace(chunks + [c]).value == (Learn(ReadTrace(chunks).value.0, c).value, ReadTrace(chunks).value.1)
  {
    assert (chunks + [c])[..|chunks|] == chunks;
    hide Learn, ReadFrames;
  }

  lemma LearnDeclaresMore(r: Reader, c: Chunk)
    requires !c.Raw? && Learn(r, c).Some?
    ensures r.sequences.Keys <= Learn(r, c).value.sequences.Keys && r.tracks.Keys <= Learn(r, c).value.tracks.Keys
  {
  }

  /** One chunk fewer is readable as well, and declares no more. */
  lemma FrontReads(front: seq<Part>, part: Part)
    requires AllRead(front + [part]) && Apart(front + [part])
    ensures AllRead(front) && Apart(front)
  {
    forall p: nat
      ensures ReadTrace(ChunksOf(front, p)).Some?
      ensures KnownOf(front, p).sequences.Keys <= KnownOf(front + [part], p).sequences.Keys
      ensures KnownOf(front, p).tracks.Keys <= KnownOf(front + [part], p).tracks.Keys
    {
      FrontOfOne(front, part, p);
    }
    hide ReadTrace, ChunksOf;
    forall p: nat, q: nat | p != q ensures Disjoint(KnownOf(front, p), KnownOf(front, q)) {
      assert Disjoint(KnownOf(front + [part], p), KnownOf(front + [part], q));
    }
  }

  lemma FrontOfOne(front: seq<Part>, part: Part, p: nat)
    requires ReadTrace(ChunksOf(front + [part], p)).Some?
    ensures ReadTrace(ChunksOf(front, p)).Some?
    ensures KnownOf(front, p).sequences.Keys <= KnownOf(front + [part], p).sequences.Keys
    ensures KnownOf(front, p).tracks.Keys <= KnownOf(front + [part], p).tracks.Keys
  {
    ChunksOfSnoc(front, part, p);
    hide ReadTrace, Learn, ReadFrames, ChunksOf;
    if part.process == p {
      ReadTraceSnoc(ChunksOf(front, p), part.chunk);
      if !part.chunk.Raw? {
        LearnDeclaresMore(KnownOf(front, p), part.chunk);
      }
    }
  }

  /** A declaration of one process tells the reader of the file the same, and leaves the others alone. */
  lemma LearnTogether(r: Reader, own: Reader, other: Reader, c: Chunk)
    requires !c.Raw? && Learn(own, c).Some? && Holds(r, own) && Holds(r, other)
    requires forall u :: u in Learn(own, c).value.tracks && u in r.tracks ==> u in own.tracks
    ensures Learn(r, c).Some? && Holds(Learn(r, c).value, Learn(own, c).value)
    ensures Disjoint(Learn(own, c).value, other) ==> Holds(Learn(r, c).value, other)
    ensures forall u :: u in Learn(r, c).value.tracks ==> u in r.tracks || u in Learn(own, c).value.tracks
  {
  }

  lemma HoldsExtends(r: Reader, own: Reader)
    requires Holds(r, own)
    ensures Extends(own, r)
  {
  }

  /** What the whole file reads as: of each process, what its own trace reads as. */
  ghost predicate Together(file: seq<Part>)
    requires AllRead(file)
  {
    && ReadFile(file).Some? && TracksAreOwned(ReadFile(file).value.0, file)
    && forall p: nat ::
         && Holds(ReadFile(file).value.0, KnownOf(file, p))
         && SeenOf(ReadFile(file).value.1, p) == ReadTrace(ChunksOf(file, p)).value.1
  }

  /** A track that one process is about to describe is known to the file's reader only as its own. */
  lemma OwnTracksOnly(front: seq<Part>, part: Part, r: Reader)
    requires AllRead(front) && AllRead(front + [part]) && Apart(front + [part]) && TracksAreOwned(r, front)
    ensures forall u :: u in KnownOf(front + [part], part.process).tracks && u in r.tracks ==> u in KnownOf(front, part.process).tracks
  {
    var file, w := front + [part], part.process;
    hide ReadTrace, ChunksOf;
    forall u | u in KnownOf(file, w).tracks && u in r.tracks ensures u in KnownOf(front, w).tracks {
      var p: nat :| u in KnownOf(front, p).tracks;
      assert ReadTrace(ChunksOf(file, p)).Some?;
      FrontOfOne(front, part, p);
      ApartAt(file, p, w);
    }
  }

  lemma ApartAt(file: seq<Part>, p: nat, q: nat)
    requires AllRead(file) && Apart(file)
    ensures p == q || KnownOf(file, p).tracks.Keys !! KnownOf(file, q).tracks.Keys
  {
    assert p == q || Disjoint(KnownOf(file, p), KnownOf(file, q));
  }

  lemma StillOwned(front: seq<Part>, part: Part, r: Reader, after: Reader)
    requires AllRead(front) && AllRead(front + [part]) && TracksAreOwned(r, front)
    requires forall u :: u in after.tracks ==> u in r.tracks || u in KnownOf(front + [part], part.process).tracks
    ensures TracksAreOwned(after, front + [part])
  {
    hide ReadTrace, ChunksOf;
    forall u | u in after.tracks ensures exists p: nat :: u in KnownOf(front + [part], p).tracks {
      if u !in KnownOf(front + [part], part.process).tracks {
        var p: nat :| u in KnownOf(front, p).tracks;
        assert ReadTrace(ChunksOf(front + [part], p)).Some?;
        FrontOfOne(front, part, p);
      }
    }
  }

  lemma OnePart(front: seq<Part>, part: Part)
    requires AllRead(front) && AllRead(front + [part]) && Apart(front + [part]) && Together(front)
    ensures Together(front + [part])
  {
    var file := front + [part];
    var (r, all) := ReadFile(front).value;
    assert TracksAreOwned(r, front);
    forall p: nat ensures Holds(r, KnownOf(front, p)) && SeenOf(all, p) == ReadTrace(ChunksOf(front, p)).value.1 {
    }
    FileGoesOn(front, part, r, all);
    hide ReadTrace, ReadFile, ReadFrames, Learn, Holds, SeenOf, Marked, TracksAreOwned, ReadPart, ChunksOf;
    forall p: nat
      ensures Holds(ReadFile(file).value.0, KnownOf(file, p))
      ensures SeenOf(ReadFile(file).value.1, p) == ReadTrace(ChunksOf(file, p)).value.1
    {
      OneProcess(front, part, p, r, all);
    }
  }

  /** The next part reads, and the tracks known stay owned. */
  lemma FileGoesOn(front: seq<Part>, part: Part, r: Reader, all: seq<From>)
    requires AllRead(front) && AllRead(front + [part]) && Apart(front + [part]) && ReadFile(front) == Some((r, all))
    requires TracksAreOwned(r, front) && Holds(r, KnownOf(front, part.process))
    ensures ReadFile(front + [part]) == ReadPart(r, all, part) && ReadFile(front + [part]).Some?
    ensures TracksAreOwned(ReadFile(front + [part]).value.0, front + [part])
  {
    var file, w, c := front + [part], part.process, part.chunk;
    assert file[..|front|] == front;
    assert ReadFile(file) == ReadPart(r, all, part);
    assert ReadTrace(ChunksOf(file, w)).Some?;
    ChunksOfSnoc(front, part, w);
    ReadTraceSnoc(ChunksOf(front, w), c);
    OwnTracksOnly(front, part, r);
    hide ReadTrace, ReadFile, ChunksOf, ReadFrames, Learn, Holds, TracksAreOwned, Marked;
    if c.Raw? {
      HoldsExtends(r, KnownOf(front, w));
      FramesStillRead(KnownOf(front, w), r, c.bytes);
      StillOwned(front, part, r, r);
    } else {
      LearnTogether(r, KnownOf(front, w), KnownOf(front, w), c);
      StillOwned(front, part, r, Learn(r, c).value);
    }
  }

  lemma OneProcess(front: seq<Part>, part: Part, p: nat, r: Reader, all: seq<From>)
    requires AllRead(front) && AllRead(front + [part]) && Apart(front + [part]) && ReadFile(front) == Some((r, all))
    requires ReadFile(front + [part]).Some? && ReadFile(front + [part]) == ReadPart(r, all, part)
    requires TracksAreOwned(r, front) && Holds(r, KnownOf(front, p)) && Holds(r, KnownOf(front, part.process))
    requires SeenOf(all, p) == ReadTrace(ChunksOf(front, p)).value.1
    ensures Holds(ReadFile(front + [part]).value.0, KnownOf(front + [part], p))
    ensures SeenOf(ReadFile(front + [part]).value.1, p) == ReadTrace(ChunksOf(front + [part], p)).value.1
  {
    var file, w, c := front + [part], part.process, part.chunk;
    assert ReadTrace(ChunksOf(file, w)).Some? && ReadTrace(ChunksOf(file, p)).Some?;
    ChunksOfSnoc(front, part, w);
    ChunksOfSnoc(front, part, p);
    ReadTraceSnoc(ChunksOf(front, w), c);
    OwnTracksOnly(front, part, r);
    hide ReadTrace, ReadFile, ChunksOf, ReadFrames, Learn, SeenOf, Marked, Holds, TracksAreOwned;
    if c.Raw? {
      HoldsExtends(r, KnownOf(front, w));
      FramesStillRead(KnownOf(front, w), r, c.bytes);
      var more := ReadFrames(r, c.bytes).value;
      SeenOfConcat(all, Marked(w, more), p);
      SeenOfMarked(more, w, p);
      assert SeenOf(all, p) + [] == SeenOf(all, p);
    } else {
      LearnTogether(r, KnownOf(front, w), KnownOf(front, p), c);
      assert KnownOf(file, w) == Learn(KnownOf(front, w), c).value;
      if p != w {
        assert Disjoint(KnownOf(file, w), KnownOf(file, p));
      }
    }
  }

  /** Processes whose sequence ids and tracks stay apart do not disturb one another, however their chunks fall. */
  lemma {:induction false} ReadsTogether(file: seq<Part>)
    requires AllRead(file) && Apart(file)
    ensures Together(file)
    decreases |file|
  {
    if file != [] {
      var front, part := file[..|file| - 1], file[|file| - 1];
      assert file == front + [part];
      FrontReads(front, part);
      ReadsTogether(front);
      OnePart(front, part);
    }
  }

  // ----- slots -----

  /** The ids of a slot, as long as it has no more than 127 threads. */
  ghost predicate InSlot(r: Reader, slot: u32) {
    forall id :: id in r.sequences ==> slot * SEQUENCES_PER_SLOT < id <= slot * SEQUENCES_PER_SLOT + SEQUENCES_PER_SLOT
  }

  /** The tracks of a process: their upper half is its pid. */
  ghost predicate InProcess(r: Reader, pid: u32) {
    forall u :: u in r.tracks ==> pid * U32_SPAN <= u < pid * U32_SPAN + U32_SPAN
  }

  lemma ExportersStayInSlot(r: Reader, threads: Threads, codes: Sink.Codes, slot: u32, pid: u32)
    requires Sequenced(r, threads, codes, slot, pid) && |threads| <= 127
    ensures InSlot(r, slot) && InProcess(r, pid)
  {
    SequencedParts(r, threads, codes, slot, pid);
    hide Sequenced, AllPlaced, OwnIds;
  }

  predicate Writes(file: seq<Part>, process: nat) {
    exists i :: 0 <= i < |file| && file[i].process == process
  }

  lemma {:induction false} OnlyWritersDeclare(file: seq<Part>, process: nat)
    requires !Writes(file, process)
    ensures ChunksOf(file, process) == []
    decreases |file|
  {
    if file != [] {
      assert file[|file| - 1].process != process;
      OnlyWritersDeclare(file[..|file| - 1], process);
    }
  }

  /** A process's slot and pid. */
  datatype Home = Home(slot: u32, pid: u32)

  /** The processes that write to the file have slots and pids of their own, and keep to them. */
  ghost predicate Slotted(file: seq<Part>, homes: map<nat, Home>)
    requires AllRead(file)
  {
    && (forall p: nat :: Writes(file, p) ==>
          p in homes && InSlot(KnownOf(file, p), homes[p].slot) && InProcess(KnownOf(file, p), homes[p].pid))
    && forall p: nat, q: nat :: p in homes && q in homes && p != q ==> homes[p].slot != homes[q].slot && homes[p].pid != homes[q].pid
  }

  /**
   A file shared by processes with slots and pids of their own, each with no more than 127 threads, their chunks
   interleaved in any way: read as one trace, it gives of each process exactly the events its own trace gives, in their
   order, each with the process and the thread of its track.
   */
  lemma SharedFileReads(file: seq<Part>, homes: map<nat, Home>)
    requires AllRead(file) && Slotted(file, homes)
    ensures ReadTrace(Chunks(file)).Some? && ReadFile(file).Some?
    ensures ReadTrace(Chunks(file)).value.1 == Unmarked(ReadFile(file).value.1)
    ensures forall p: nat :: SeenOf(ReadFile(file).value.1, p) == ReadTrace(ChunksOf(file, p)).value.1
  {
    forall p: nat, q: nat | p != q ensures Disjoint(KnownOf(file, p), KnownOf(file, q)) {
      HomesAreApart(file, homes, p, q);
    }
    hide KnownOf, Slotted, ReadFile, ReadTrace, SeenOf;
    ReadsTogether(file);
    FileIsTrace(file);
  }

  lemma HomesAreApart(file: seq<Part>, homes: map<nat, Home>, p: nat, q: nat)
    requires AllRead(file) && Slotted(file, homes) && p != q
    ensures Disjoint(KnownOf(file, p), KnownOf(file, q))
  {
    if Writes(file, p) && Writes(file, q) {
      hide KnownOf, Writes;
      KeepersAreApart(KnownOf(file, p), KnownOf(file, q), homes[p], homes[q]);
    } else if !Writes(file, p) {
      OnlyWritersDeclare(file, p);
    } else {
      OnlyWritersDeclare(file, q);
    }
  }

  lemma KeepersAreApart(a: Reader, b: Reader, x: Home, y: Home)
    requires InSlot(a, x.slot) && InProcess(a, x.pid) && InSlot(b, y.slot) && InProcess(b, y.pid)
    requires x.slot != y.slot && x.pid != y.pid
    ensures Disjoint(a, b)
  {
  }

  // ----- one thread too many -----

  /** The frame of an end on the sequence of the 128th thread of slot 0. */
  function LastEnd(): seq<byte> {
    Frame(0, TemplateBytes(HeaderBytes(129), SliceBytes(Slice.End)))
  }

  const FIRST := Process(1, ProcessUuid(1), 1)
  const THREAD := Sequence(129, ProcessUuid(1) + 128, CATEGORY_IID, ProcessUuid(1) + 128, ProcessUuid(1), 1, 5)
  const SECOND := Process(129, ProcessUuid(2), 2)

  function Crowded(): seq<Part> {
    [Part(0, FIRST), Part(0, THREAD), Part(1, SECOND), Part(0, Raw(LastEnd()))]
  }

  /**
   The bound is needed: the 128th thread of one slot has the id of the next slot's process, and once that process has
   written its first packet an event of the thread makes the file unreadable, though each process's own trace reads.
   */
  lemma OneThreadTooMany()
    ensures THREAD == ThreadPacket(0, 1, 127, 5) && SECOND.id == 1 * SEQUENCES_PER_SLOT + PROCESS_SEQUENCE_ID
    ensures AllRead(Crowded()) && ReadTrace(Chunks(Crowded())).None?
  {
    CrowdedReads();
    CrowdedFails();
  }

  /** What a reader knows after the first process's two packets, and after the other's as well. */
  lemma CrowdedLearns() returns (one: Reader, own: Reader, taken: Reader)
    ensures Learn(NOTHING, FIRST) == Some(one) && Learn(one, THREAD) == Some(own) && Learn(own, SECOND) == Some(taken)
    ensures Learn(NOTHING, SECOND).Some?
    ensures ReadFrames(own, LastEnd()).Some? && ReadFrames(taken, LastEnd()).None?
  {
    one := Learn(NOTHING, FIRST).value;
    own := Learn(one, THREAD).value;
    taken := Learn(own, SECOND).value;
    FrameReads(own, 0, 129, Slice.End);
    FrameReads(taken, 0, 129, Slice.End);
    hide ReadFrames, LastEnd, Frame, TemplateBytes, HeaderBytes, SliceBytes;
  }

  lemma CrowdedReads()
    ensures AllRead(Crowded())
  {
    var one, own, taken := CrowdedLearns();
    forall p: nat ensures ReadTrace(ChunksOf(Crowded(), p)).Some? {
      CrowdedOf(p);
      assert ReadTrace([]) == Some((NOTHING, []));
      hide ReadTrace, Learn, ChunksOf, Crowded, ReadFrames, LastEnd;
      ReadOnto([], FIRST);
      ReadOnto([], SECOND);
      ReadOnto([] + [FIRST], THREAD);
      ReadOnto([] + [FIRST] + [THREAD], Raw(LastEnd()));
    }
  }

  lemma CrowdedOf(p: nat)
    ensures ChunksOf(Crowded(), p)
         == if p == 0 then [] + [FIRST] + [THREAD] + [Raw(LastEnd())] else if p == 1 then [] + [SECOND] else []
  {
    hide LastEnd;
    var a, b, c, d := Part(0, FIRST), Part(0, THREAD), Part(1, SECOND), Part(0, Raw(LastEnd()));
    assert Crowded() == [] + [a] + [b] + [c] + [d];
    assert ChunksOf([], p) == [];
    hide ChunksOf, Crowded;
    ChunksOfSnoc([], a, p);
    ChunksOfSnoc([] + [a], b, p);
    ChunksOfSnoc([] + [a] + [b], c, p);
    ChunksOfSnoc([] + [a] + [b] + [c], d, p);
  }

  lemma CrowdedChunks()
    ensures Chunks(Crowded()) == [] + [FIRST] + [THREAD] + [SECOND] + [Raw(LastEnd())]
  {
    hide LastEnd;
  }

  lemma CrowdedFails()
    ensures ReadTrace(Chunks(Crowded())).None?
  {
    var one, own, taken := CrowdedLearns();
    assert ReadTrace([]) == Some((NOTHING, []));
    CrowdedChunks();
    hide *;
    ReadOnto([], FIRST);
    ReadOnto([] + [FIRST], THREAD);
    ReadOnto([] + [FIRST] + [THREAD], SECOND);
    ReadOnto([] + [FIRST] + [THREAD] + [SECOND], Raw(LastEnd()));
  }
}
