/** What every run of the EBML splitter guarantees, from the empty parser on. */
module EbmlTheorems {
  import opened Bytes
  import opened EbmlTags
  import opened EbmlWalk
  import opened EbmlSplitter
  import opened EbmlSession

  /** All bytes written by a run. */
  function Fed(events: seq<Event>): seq<byte> {
    if |events| == 0 then []
    else (if events[0].Feed? then events[0].bytes else []) + Fed(events[1..])
  }

  /** While the header is empty or still being collected, the parser has processed all it can; the first
      Cluster is marked within the call that finds it. */
  ghost predicate HeaderSettled(s: Session, f: Scanned)
    requires s.p.Valid()
  {
    && (s.p.InHeader() || s.p.header == [] ==> Step(s.p) == Wait(s.p))
    && (!s.p.InHeader() ==> f.marks != [])
  }

  lemma {:induction false} RunInv(s: Session, f: Scanned, events: seq<Event>) returns (g: Scanned)
    requires Inv(s, f) && HeaderSettled(s, f) && Execute(s, events).Some?
    ensures Inv(Execute(s, events).value, g) && HeaderSettled(Execute(s, events).value, g)
    ensures Execute(s, events).value.written == s.written + Fed(events)
    decreases |events|
  {
    hide Step, Tracked, ChunksOk, HeaderStage, Pending, Conserved, Begun, Apply, Parser.Valid, HeaderSettled;
    if |events| == 0 {
      g := f;
      assert s.written + [] == s.written;
    } else {
      ApplyValid(s, events[0]);
      var t := Apply(s, events[0]).value;
      var h := EventInv(s, f, events[0]);
      g := RunInv(t, h, events[1..]);
      var piece := if events[0].Feed? then events[0].bytes else [];
      assert (s.written + piece) + Fed(events[1..]) == s.written + (piece + Fed(events[1..]));
    }
  }

  lemma EventInv(s: Session, f: Scanned, e: Event) returns (g: Scanned)
    requires Inv(s, f) && HeaderSettled(s, f) && Apply(s, e).Some?
    ensures Inv(Apply(s, e).value, g) && HeaderSettled(Apply(s, e).value, g)
    ensures Apply(s, e).value.written == s.written + (if e.Feed? then e.bytes else [])
  {
    match e
    case Feed(bytes) =>
      hide Step, Examine, Tracked, ChunksOk, HeaderStage, Pending, Conserved, Begun;
      g := FeedKeeps(s, f, bytes);
      FeedValid(s.p, bytes);
      RunSettles(s.p.(input := s.p.input + bytes));
      SettledMark(Apply(s, e).value, g);
    case Drain =>
      hide Step, Examine, Tracked, ChunksOk, HeaderStage, Pending, Conserved, Begun;
      DrainKeeps(s, f);
      DrainInHeader(s);
      g := f;
  }

  lemma SettledMark(s: Session, f: Scanned)
    requires Inv(s, f) && Step(s.p) == Wait(s.p)
    ensures !s.p.InHeader() ==> f.marks != []
  {
    hide Examine, Scan, ChunksOk;
  }

  lemma DrainInHeader(s: Session)
    requires s.p.Valid()
    ensures s.p.InHeader() == ApplyDrain(s).p.InHeader()
    ensures s.p.InHeader() || s.p.header == [] ==> ApplyDrain(s) == s
    ensures ApplyDrain(s).p.header == s.p.header
    ensures ApplyDrain(s).written == s.written
  {
    hide Examine;
  }

  lemma StartInv() returns (f: Scanned)
    ensures Inv(START, f) && HeaderSettled(START, f)
  {
    f := Scanned(INITIAL_INFO, []);
    assert Scan(INITIAL_INFO, 0, [], 0) == Some(f);
  }

  lemma Reachable(events: seq<Event>) returns (f: Scanned)
    requires Outcome(events).Some?
    ensures Inv(Outcome(events).value, f) && HeaderSettled(Outcome(events).value, f)
    ensures Outcome(events).value.written == Fed(events)
  {
    hide Execute, Fed, HeaderSettled, Tracked, ChunksOk, HeaderStage, Pending, Conserved, Begun;
    var f0 := StartInv();
    f := RunInv(START, f0, events);
    assert [] + Fed(events) == Fed(events);
  }

  /** Conservation: nothing is lost, repeated or reordered. What was handed out, what the two buffers
      hold and what is unprocessed is exactly what was written; the header is handed out whole. */
  lemma Conservation(events: seq<Event>)
    requires Outcome(events).Some?
    ensures var s := Outcome(events).value;
            && Fed(events) == s.p.header + Emitted(s.chunks) + s.p.data + s.p.input
            && (s.published == [] || s.published == s.p.header)
            && (s.chunks != [] ==> s.published == s.p.header)
  {
    hide Outcome, Fed, Examine, Scan, ChunksOk, Pending;
    var f := Reachable(events);
  }

  lemma ProbeUnclear(i: Info, b: byte, s: seq<byte>, payload: nat, size: nat)
    requires i.keyframe == NotKeyframe && Probe(i, b, s, payload, size) == Unclear
    ensures payload >= |s|
  {
  }

  /** Outside clusters, an element that is still unclear hides no Cluster behind it. */
  lemma UnclearHasNoMarks(off: nat, i: Info, s: seq<byte>)
    requires i.keyframe == NotKeyframe && Examine(i, s) == Unclear
    ensures Marks(off, s) == []
  {
    hide ParseTag, Payload, HasMagic, Probe;
    var tag := ParseTag(s);
    if tag.Parsed? {
      var payload := Payload(s, tag);
      ProbeUnclear(i, s[0], s[tag.len..], payload, tag.len + payload);
      EmptyHasNoMarks(off + |s|);
      assert s[|s|..] == [];
    }
  }

  lemma EmptyHasNoMarks(off: nat)
    ensures Marks(off, []) == []
  {
    assert ShapeOf([]) == NoShape;
  }

  lemma WaitingHasNoMarks(s: Session, f: Scanned)
    requires Inv(s, f) && s.p.InHeader() && Step(s.p) == Wait(s.p)
    ensures Marks(0, s.written) == []
  {
    hide Scan, ChunksOk, Marks, Examine, Pending;
    MarksSplit(INITIAL_INFO, 0, s.written, Frontier(s));
    assert [] + MarksAfter(0, s.written, Frontier(s)) == MarksAfter(0, s.written, Frontier(s));
    if s.p.phase == CopyingToHeader {
      CopyWaits(s.p);
    } else {
      FrontierInput(s);
      UnclearHasNoMarks(Frontier(s), s.p.info, s.p.input);
    }
  }

  lemma CopyWaits(p: Parser)
    requires p.Valid() && p.phase == CopyingToHeader && CopyTurn(p) == Wait(p)
    ensures p.input == []
  {
    hide Examine;
    var n := ToCopy(p);
    assert |p.input[n..]| == |p.input| - n;
  }

  ghost predicate HeaderCut(s: Session, w: seq<byte>) {
    var ms := Marks(0, w);
    && (s.p.InHeader() <==> ms == [])
    && (ms != [] ==> |s.p.header| == s.p.headerSize == ms[0].pos <= |w| && s.p.header == w[..ms[0].pos])
    && (s.published != [] ==> ms != [] && s.published == w[..ms[0].pos])
  }

  lemma HeaderIsCut(s: Session, f: Scanned)
    requires Inv(s, f) && HeaderSettled(s, f)
    ensures HeaderCut(s, s.written)
  {
    hide Scan, ChunksOk, Marks, Examine, Step, Pending;
    if s.p.InHeader() {
      WaitingHasNoMarks(s, f);
    } else {
      MarksSplit(INITIAL_INFO, 0, s.written, Frontier(s));
      assert Marks(0, s.written)[0] == f.marks[0];
      assert s.p.header == s.written[..|s.p.header|];
    }
  }

  /** Header independence: the header is complete exactly when the walk of the written bytes meets a
      Cluster, and then it is exactly the bytes before the first one, whatever the slicing. */
  lemma HeaderIsPrefix(events: seq<Event>)
    requires Outcome(events).Some?
    ensures HeaderCut(Outcome(events).value, Fed(events))
  {
    hide *;
    var f := Reachable(events);
    HeaderIsCut(Outcome(events).value, f);
  }

  /** Two runs over the same bytes agree on the header. */
  lemma HeaderIndependence(a: seq<Event>, b: seq<Event>)
    requires Outcome(a).Some? && Outcome(b).Some? && Fed(a) == Fed(b)
    ensures var s, t := Outcome(a).value, Outcome(b).value;
            && s.p.InHeader() == t.p.InHeader()
            && (!s.p.InHeader() ==> s.p.header == t.p.header && s.p.headerSize == t.p.headerSize)
  {
    hide Outcome, Fed, Marks;
    HeaderIsPrefix(a);
    HeaderIsPrefix(b);
  }

  // ---------------------------------------------------------------- cluster boundaries

  lemma {:induction false} FirstMarkIsLeast(off: nat, s: seq<byte>)
    ensures forall m :: m in Marks(off, s) ==> Marks(off, s)[0].pos <= m.pos
    decreases |s|
  {
    MarksBeyond(off, s);
    hide ShapeOf;
    var h := ShapeOf(s);
    if h.Shape? && !h.isCluster && h.size <= |s| {
      FirstMarkIsLeast(off + h.size, s[h.size..]);
      assert Marks(off, s) == Marks(off + h.size, s[h.size..]);
    }
  }

  /** Every offset already handed out lies in some chunk. */
  lemma {:induction false} ChunkHolding(s: Session, k: nat, pos: nat) returns (i: nat)
    requires k <= |s.chunks|
    requires |s.p.header| <= pos < ChunkAt(s, k)
    ensures i < k && ChunkAt(s, i) <= pos < ChunkAt(s, i) + |s.chunks[i].bytes|
    decreases k
  {
    var init := s.chunks[..k];
    assert k > 0;
    assert init[..k - 1] == s.chunks[..k - 1];
    if pos < ChunkAt(s, k - 1) {
      i := ChunkHolding(s, k - 1, pos);
    } else {
      i := k - 1;
    }
  }

  ghost predicate OpensChunk(s: Session, pos: nat) {
    exists i :: 0 <= i < |s.chunks| && ChunkAt(s, i) == pos
  }

  lemma AllChunksOk(s: Session, f: Scanned)
    requires Inv(s, f)
    ensures ChunksOk(s, Marks(0, s.written))
  {
    hide Scan, Marks, Examine, ChunksOk, HeaderStage, Pending;
    MarksSplit(INITIAL_INFO, 0, s.written, Frontier(s));
    var more := MarksAfter(0, s.written, Frontier(s));
    if Frontier(s) <= |s.written| {
      MarksBeyond(Frontier(s), s.written[Frontier(s)..]);
    }
    ChunksStayOk(s, s, f.marks, more);
  }

  lemma MarkOpensChunk(s: Session, m: Mark)
    requires ChunksOk(s, Marks(0, s.written)) && m in Marks(0, s.written)
    requires |s.p.header| <= m.pos < Out(s)
    ensures OpensChunk(s, m.pos)
  {
    hide Marks;
    assert s.chunks[..|s.chunks|] == s.chunks;
    var i := ChunkHolding(s, |s.chunks|, m.pos);
    assert ChunkOk(s.written, Marks(0, s.written), ChunkAt(s, i), s.chunks[i]);
  }

  /** Cluster boundaries: no chunk has a Cluster of the walk starting inside it; a chunk that starts
      with one holds its whole tag and is marked a sync point by the keyframe status of that very
      Cluster; and every Cluster handed out starts a chunk. */
  lemma ClusterBoundaries(events: seq<Event>)
    requires Outcome(events).Some?
    ensures var s := Outcome(events).value;
            && ChunksOk(s, Marks(0, Fed(events)))
            && forall m :: m in Marks(0, Fed(events)) && m.pos < Out(s) ==> OpensChunk(s, m.pos)
  {
    hide Marks, Outcome, Fed, Inv, ChunksOk;
    var f := Reachable(events);
    var s := Outcome(events).value;
    AllChunksOk(s, f);
    HeaderIsPrefix(events);
    FirstMarkIsLeast(0, Fed(events));
    forall m | m in Marks(0, Fed(events)) && m.pos < Out(s)
      ensures OpensChunk(s, m.pos)
    {
      MarkOpensChunk(s, m);
    }
  }

  /** What a sync point is: as soon as the bytes of a chunk that starts with a Cluster settle whether the
      first video block of that Cluster is a keyframe, the chunk is a sync point if and only if it is. */
  lemma SyncPointIsKeyframe(events: seq<Event>, i: nat, k: nat)
    requires Outcome(events).Some? && i < |Outcome(events).value.chunks|
    requires var s := Outcome(events).value;
             var x := Scan(INITIAL_INFO, 0, Fed(events), k);
             && StartsCluster(Marks(0, Fed(events)), ChunkAt(s, i)) && k <= ChunkAt(s, i) + |s.chunks[i].bytes|
             && x.Some? && x.value.marks != [] && Last(x.value.marks).pos == ChunkAt(s, i)
             && x.value.info.keyframe != KeyframeUnknown
    ensures Outcome(events).value.chunks[i].kind == ClusterStart <==>
            Scan(INITIAL_INFO, 0, Fed(events), k).value.info.keyframe == IsKeyframe
  {
    hide Marks, Outcome, Fed, Scan, ChunkAt;
    ClusterBoundaries(events);
    var s, w := Outcome(events).value, Fed(events);
    var a, c := ChunkAt(s, i), s.chunks[i];
    assert s.written == w by {
      var f := Reachable(events);
    }
    assert ChunkOk(w, Marks(0, w), a, c);
    var n: nat :| Consulted(w, a, n, c.kind) && Reached(w, a + |c.bytes|, n);
    ScanLonger(INITIAL_INFO, 0, w, k, n);
    ScanMarksInside(INITIAL_INFO, 0, w, k);
    var x, y := Scan(INITIAL_INFO, 0, w, k).value, Scan(INITIAL_INFO, 0, w, n).value;
    assert Last(x.marks) in x.marks;
  }

  // ---------------------------------------------------------------- progress

  /** A chunk can be read. */
  predicate Readable(p: Parser) {
    ReadSpace(p).1 > 0
  }

  /** Processing fails, uses up a byte, or leaves a chunk to be read. */
  ghost predicate Advances(p: Parser)
    requires p.Valid()
  {
    Run(p).Some? ==> |Run(p).value.input| < |p.input| || Readable(Run(p).value)
  }

  lemma CopyAdvances(p: Parser)
    requires p.Valid() && p.Copying() && p.input != [] && (p.phase == CopyingToData ==> |p.data| < SLICE)
    ensures Run(p).Some? ==> |Run(p).value.input| < |p.input|
  {
    hide Examine;
    StepKeepsValid(p);
    assert ToCopy(p) > 0;
  }

  /** The previous Cluster is complete in the data buffer, or there is room for this one. */
  lemma StartAdvances(p: Parser)
    requires p.Valid() && p.phase == StartCluster && p.readingClusters
    requires p.clusterStart >= 0 ==> p.data != []
    requires p.clusterStart < 0 ==> |p.data| < SLICE
    ensures Advances(p)
  {
    StepKeepsValid(p);
    ClusterVerdict(p.info, p.input);
    hide Examine, ParseTag;
    if p.clusterStart < 0 {
      CopyAdvances(Step(p).p);
    }
  }

  lemma ParseAdvances(p: Parser)
    requires p.Valid() && (p.phase == ParsingHeader || p.phase == ParsingClusters) && |p.input| == SLICE
    requires p.phase == ParsingHeader ==> !(Examine(p.info, p.input).Cluster?)
    requires p.phase == ParsingClusters ==>
               p.readingClusters && |p.data| < SLICE && (p.clusterStart >= 0 ==> p.data != [])
    ensures Advances(p)
  {
    StepKeepsValid(p);
    var e := Examine(p.info, p.input);
    hide Examine, ParseTag;
    if e.Cluster? {
      StartAdvances(Step(p).p);
    } else if e.Element? {
      CopyAdvances(Step(p).p);
    }
  }

  lemma NotReadable(s: Session, f: Scanned)
    requires Inv(s, f) && HeaderSettled(s, f) && !s.p.InHeader() && s.p.header != [] && !Readable(s.p)
    ensures s.p.readingClusters && |s.p.data| < SLICE
    ensures s.p.clusterStart >= 0 && !s.p.Copying() ==> s.p.data != []
  {
    hide Examine, Scan, ChunksOk;
  }

  /** Progress: when nothing is readable and the input buffer is full, the next call, even of zero bytes,
      fails, uses up a byte or makes a chunk readable, if and only if the header is not empty. */
  lemma Progress(events: seq<Event>)
    requires Outcome(events).Some?
    requires var s := Outcome(events).value;
             |s.p.input| == SLICE && !Readable(s.p)
    ensures var p := Outcome(events).value.p; Advances(p) <==> p.header != []
  {
    hide *;
    var f := Reachable(events);
    var s := Outcome(events).value;
    if s.p.header != [] {
      SessionAdvances(s, f);
    } else {
      SettledStays(s, f);
    }
  }

  lemma SettledStays(s: Session, f: Scanned)
    requires Inv(s, f) && HeaderSettled(s, f) && s.p.header == [] && !Readable(s.p)
    ensures !Advances(s.p)
  {
    hide Step, Scan, ChunksOk, Reached;
    StepKeepsValid(s.p);
  }

  lemma SessionAdvances(s: Session, f: Scanned)
    requires Inv(s, f) && HeaderSettled(s, f)
    requires s.p.header != [] && |s.p.input| == SLICE && !Readable(s.p)
    ensures Advances(s.p)
  {
    hide Scan, Examine, ChunksOk, Run;
    if s.p.InHeader() {
      HeaderNeverFull(s.p);
    } else {
      NotReadable(s, f);
      match s.p.phase
      case StartCluster => StartAdvances(s.p);
      case ParsingClusters => ParseAdvances(s.p);
      case CopyingToData => CopyAdvances(s.p);
    }
  }

  /** While the header is being collected a settled parser never sits on a full input buffer. */
  lemma HeaderNeverFull(p: Parser)
    requires p.Valid() && p.InHeader() && Step(p) == Wait(p)
    ensures |p.input| < SLICE
  {
    hide Examine;
    if p.phase == CopyingToHeader {
      CopyWaits(p);
    }
  }

  /** Without any element before the first Cluster the claim fails: nothing ever becomes readable, so
      at most the two buffers' worth of stream is ever accepted. */
  lemma EmptyHeaderStalls(events: seq<Event>)
    requires Outcome(events).Some?
    requires Marks(0, Fed(events)) != [] && Marks(0, Fed(events))[0].pos == 0
    ensures !Readable(Outcome(events).value.p)
    ensures |Fed(events)| <= 2 * SLICE
  {
    hide Marks, Outcome, Scan, ChunksOk, Examine, Step, Pending, Fed;
    HeaderIsPrefix(events);
    var f := Reachable(events);
  }

  const CLUSTER_TAG: seq<byte> := CLUSTER_MAGIC + [0xFF]

  /** The tag of an element of 16382 bytes that calls for no probe. */
  const VOID_TAG: seq<byte> := [0xEC, 0x7F, 0xFE]

  const FIRST_SLICE: seq<byte> := CLUSTER_TAG + (VOID_TAG + Zeros(4088))

  lemma BigEndianOne(a: nat)
    requires a < 256
    ensures BigEndian([a]) == a
  {
    assert [a][..0] == [];
  }

  lemma BigEndianNext(s: seq<byte>, a: nat)
    requires a < 256
    ensures BigEndian(s + [a]) == BigEndian(s) * 256 + a
  {
    assert (s + [a])[..|s|] == s;
  }

  lemma ClusterTagRead(i: Info)
    ensures Examine(i, CLUSTER_TAG) == Cluster(5)
  {
    assert ParseVarInt(CLUSTER_TAG).len == 4;
    assert CLUSTER_TAG[4..] == [0xFF];
    assert [0xFF - Marker(1)] + [0xFF][1..1] == [0x7F];
    BigEndianOne(0x7F);
    assert ParseVarInt([0xFF]) == Parsed(1, UNKNOWN);
  }

  lemma VoidTagRead(i: Info)
    ensures Examine(i, VOID_TAG) == Element(16385, i)
  {
    assert [0xEC - Marker(1)] + VOID_TAG[1..1] == [0x6C];
    BigEndianOne(0x6C);
    assert ParseVarInt(VOID_TAG) == Parsed(1, 0x6C);
    var size: seq<byte> := [0x7F, 0xFE];
    assert VOID_TAG[1..] == size;
    assert [0x7F - Marker(2)] + size[1..2] == [0x3F] + [0xFE];
    BigEndianOne(0x3F);
    BigEndianNext([0x3F], 0xFE);
    assert Ones(0x40, 1) == 0x3F && Ones(0x40, 2) == 0x3FFF;
    assert ParseVarInt(size) == Parsed(2, 0x3FFE);
    assert ParseTag(VOID_TAG) == Parsed(3, 0x3FFE);
  }

  /** The processing of the first slice: the Cluster tag and all that fits go to the data buffer. */
  lemma {:induction false} FirstSliceRun(p: Parser, q: Parser)
    requires p == INITIAL.(input := FIRST_SLICE) && q == FILLED
    ensures p.Valid() && Run(p) == Some(q)
  {
    hide Examine, ParseTag;
    var rest := VOID_TAG + Zeros(4088);
    var info := INITIAL_INFO.(keyframe := KeyframeUnknown);
    ClusterTagRead(INITIAL_INFO);
    ExamineStable(INITIAL_INFO, CLUSTER_TAG, rest);
    ClusterVerdict(INITIAL_INFO, FIRST_SLICE);
    VoidTagRead(info);
    ExamineStable(info, VOID_TAG, Zeros(4088));
    var p1 := p.(phase := StartCluster);
    assert Step(p) == Go(p1);
    var p2 := p1.(clusterStart := 0, info := info, copyLen := 5, phase := CopyingToData);
    assert Step(p1) == Go(p2);
    assert FIRST_SLICE[..5] == CLUSTER_TAG && FIRST_SLICE[5..] == rest && [] + CLUSTER_TAG == CLUSTER_TAG;
    var p3 := p2.(copyLen := 0, data := CLUSTER_TAG, input := rest, phase := ParsingClusters);
    assert Step(p2) == Go(p3);
    var p4 := p3.(copyLen := 16385, phase := CopyingToData);
    assert Step(p3) == Go(p4);
    assert rest[..4091] == rest && rest[4091..] == [];
    assert Step(p4) == Wait(q);
    StepKeepsValid(p);
    StepKeepsValid(p1);
    StepKeepsValid(p2);
    StepKeepsValid(p3);
    hide Step;
    assert Run(p4) == Some(q);
    assert Run(p3) == Run(p4);
    assert Run(p2) == Run(p3);
    assert Run(p1) == Run(p2);
  }

  /** The parser when the data buffer holds the first slice. */
  const FILLED := INITIAL.(phase := CopyingToData, copyLen := 12294, info := INITIAL_INFO.(keyframe := KeyframeUnknown),
                           clusterStart := 0, data := FIRST_SLICE)

  /** A run that shows it: the stream starts with a Cluster, both buffers fill up, and the next call cannot
      advance. */
  lemma {:induction false} ClusterFirstStalls()
    ensures var r := Outcome([Feed(FIRST_SLICE), Feed(Zeros(SLICE))]);
            r.Some? && |r.value.p.input| == SLICE && !Readable(r.value.p) && !Advances(r.value.p)
  {
    assert |FIRST_SLICE| == SLICE && |Zeros(SLICE)| == SLICE;
    FirstSliceRun(INITIAL.(input := FIRST_SLICE), FILLED);
    var p := FILLED.(input := Zeros(SLICE));
    FeedValid(FILLED, Zeros(SLICE));
    hide Examine, Zeros, Run;
    assert [] + Zeros(SLICE) == Zeros(SLICE);
    SecondSliceRun(p);
    TwoSlices(FIRST_SLICE, Zeros(SLICE), FILLED, p);
  }

  lemma {:induction false} TwoSlices(a: seq<byte>, b: seq<byte>, q: Parser, p: Parser)
    requires |a| == SLICE && INITIAL.(input := a).Valid() && Run(INITIAL.(input := a)) == Some(q)
    requires |b| == SLICE && q.input == [] && p == q.(input := b) && p.Valid() && Run(p) == Some(p)
    ensures Outcome([Feed(a), Feed(b)]) == Some(Session(p, a + b, [], []))
  {
    hide Examine, Run, Parser.Valid, Execute;
    StartValid();
    assert [] + a == a && [] + b == b;
    var s, t := Session(q, a, [], []), Session(p, a + b, [], []);
    FedOnce(START, a, q, [Feed(b)]);
    FedOnce(s, b, p, []);
    assert [Feed(a)] + [Feed(b)] == [Feed(a), Feed(b)] && [Feed(b)] + [] == [Feed(b)];
    NothingLeft(t);
  }

  lemma StartValid()
    ensures START.p.Valid()
  {
  }

  lemma NothingLeft(s: Session)
    requires s.p.Valid()
    ensures Execute(s, []) == Some(s)
  {
  }

  /** One slice at the start of a run. */
  lemma {:induction false} FedOnce(s: Session, bytes: seq<byte>, q: Parser, rest: seq<Event>)
    requires s.p.Valid() && |bytes| <= SLICE - |s.p.input|
    requires var p := s.p.(input := s.p.input + bytes); p.Valid() && Run(p) == Some(q)
    ensures q.Valid() && Execute(s, [Feed(bytes)] + rest) == Execute(s.(p := q, written := s.written + bytes), rest)
  {
    hide Examine, Run, Parser.Valid;
    var events := [Feed(bytes)] + rest;
    ApplyValid(s, events[0]);
    assert Apply(s, events[0]) == Some(s.(p := q, written := s.written + bytes));
    assert events[1..] == rest;
  }

  lemma {:induction false} SecondSliceRun(p: Parser)
    requires p.Valid() && p.phase == CopyingToData && |p.data| == SLICE
    ensures Run(p) == Some(p)
  {
    hide Examine;
    assert p.input[..0] == [] && p.input[0..] == p.input && p.data + [] == p.data;
    assert Step(p) == Wait(p);
  }
}
