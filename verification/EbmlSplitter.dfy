/** The incremental splitter of an EBML stream into one header and bounded cluster chunks:
    the parser as a value, one turn of its processing loop, and the two read operations
    (format_ebml.c). The array-based implementation is in EbmlParser.dfy. */
module EbmlSplitter {
  import opened Bytes
  import opened EbmlTags

  const HEADER_MAX := 131072
  const SLICE := 4096

  datatype Phase = ParsingHeader | CopyingToHeader | StartCluster | ParsingClusters | CopyingToData

  /** `header`, `data` and `input` are the filled parts of the three buffers. `clusterStart` is the
      offset in `data` of a Cluster tag not yet handed out, -1 when there is none. */
  datatype Parser = Parser(
    phase: Phase, copyLen: nat, info: Info,
    clusterStart: int, flush: bool,
    header: seq<byte>, headerSize: nat, headerRead: nat, readingClusters: bool,
    data: seq<byte>, input: seq<byte>)
  {
    predicate InHeader() {
      phase == ParsingHeader || phase == CopyingToHeader
    }

    predicate Copying() {
      phase == CopyingToHeader || phase == CopyingToData
    }

    /** What holds at every turn of the processing loop. */
    ghost predicate Valid() {
      && |header| <= HEADER_MAX && |data| <= SLICE && |input| <= SLICE
      && -1 <= clusterStart <= |data|
      && (copyLen > 0 <==> Copying())
      && (phase == StartCluster ==> Examine(info, input).Cluster?)
      && (InHeader() ==> headerSize == 0 && data == [] && clusterStart == -1 && info.keyframe == NotKeyframe)
      && (headerSize == 0 || headerSize == |header|)
      && headerRead <= headerSize
      && (readingClusters ==> headerSize > 0 && headerRead == headerSize)
      && (!readingClusters ==> headerRead == 0)
    }
  }

  const INITIAL := Parser(ParsingHeader, 0, INITIAL_INFO, -1, false, [], 0, 0, false, [], [])

  // ---------------------------------------------------------------- the processing loop

  datatype Turn = Fail | Wait(p: Parser) | Go(p: Parser)

  function ParseTurn(p: Parser): Turn
    requires p.phase == ParsingHeader || p.phase == ParsingClusters
  {
    match Examine(p.info, p.input)
    case Unclear => Wait(p)
    case Bad => Fail
    case Cluster(_) => Go(p.(phase := StartCluster))
    case Element(size, info) =>
      Go(p.(copyLen := size, info := info,
            phase := if p.phase == ParsingHeader then CopyingToHeader else CopyingToData))
  }

  /** A Cluster waits for the previous one to leave the data buffer; then it is marked at the
      current end of that buffer and its tag is copied. */
  function StartTurn(p: Parser): Turn
    requires p.Valid() && p.phase == StartCluster
  {
    if p.clusterStart >= 0 then Wait(p.(flush := true))
    else
      Go(p.(headerSize := |p.header|, clusterStart := |p.data|, info := p.info.(keyframe := KeyframeUnknown),
            flush := false, copyLen := ParseTag(p.input).len, phase := CopyingToData))
  }

  /** How many bytes one copying turn moves. */
  function ToCopy(p: Parser): nat
    requires |p.data| <= SLICE
  {
    var n := Min(|p.input|, p.copyLen);
    if p.phase == CopyingToData then Min(n, SLICE - |p.data|) else n
  }

  function CopyTurn(p: Parser): Turn
    requires |p.data| <= SLICE && p.Copying()
  {
    var n := ToCopy(p);
    if p.phase == CopyingToHeader && |p.header| + n > HEADER_MAX then Fail
    else
      var q := p.(copyLen := p.copyLen - n, input := p.input[n..]);
      var r := if p.phase == CopyingToHeader then q.(header := p.header + p.input[..n])
               else q.(data := p.data + p.input[..n]);
      if r.copyLen == 0
      then Go(r.(phase := if p.phase == CopyingToHeader then ParsingHeader else ParsingClusters))
      else Wait(r)
  }

  function Step(p: Parser): Turn
    requires p.Valid()
  {
    match p.phase
    case ParsingHeader => ParseTurn(p)
    case ParsingClusters => ParseTurn(p)
    case StartCluster => StartTurn(p)
    case CopyingToHeader => CopyTurn(p)
    case CopyingToData => CopyTurn(p)
  }

  /** Within a fixed amount of unprocessed input the phases can only go down this ladder. */
  function Rank(phase: Phase): nat {
    match phase
    case ParsingHeader => 2
    case ParsingClusters => 2
    case StartCluster => 1
    case CopyingToHeader => 0
    case CopyingToData => 0
  }

  lemma ClusterVerdict(i: Info, s: seq<byte>)
    requires Examine(i, s).Cluster?
    ensures ParseTag(s) == Parsed(Examine(i, s).size, ParseTag(s).value) && 2 <= ParseTag(s).len <= 16
    ensures forall j: Info :: Examine(j, s) == Examine(i, s)
  {
  }

  /** A turn keeps the parser valid and, when the loop goes on, uses up input or moves down the
      ladder of phases. */
  ghost predicate GoodTurn(p: Parser, t: Turn) {
    && (t != Fail ==> t.p.Valid() && |t.p.input| <= |p.input|)
    && (t.Go? ==> |t.p.input| < |p.input| || (|t.p.input| == |p.input| && Rank(t.p.phase) < Rank(p.phase)))
  }

  lemma ParseTurnGood(p: Parser)
    requires p.Valid() && (p.phase == ParsingHeader || p.phase == ParsingClusters)
    ensures GoodTurn(p, ParseTurn(p))
  {
    ProbeKeepsKeyframe(p.info, p.input);
  }

  lemma StartTurnGood(p: Parser)
    requires p.Valid() && p.phase == StartCluster
    ensures GoodTurn(p, StartTurn(p))
  {
    ClusterVerdict(p.info, p.input);
  }

  lemma CopyTurnGood(p: Parser)
    requires p.Valid() && p.Copying()
    ensures GoodTurn(p, CopyTurn(p))
  {
  }

  /** The processing loop keeps the parser valid and terminates. */
  lemma StepKeepsValid(p: Parser)
    requires p.Valid()
    ensures GoodTurn(p, Step(p))
  {
    match p.phase
    case ParsingHeader => ParseTurnGood(p);
    case ParsingClusters => ParseTurnGood(p);
    case StartCluster => StartTurnGood(p);
    case CopyingToHeader => CopyTurnGood(p);
    case CopyingToData => CopyTurnGood(p);
  }

  /** The whole processing loop: None when the stream is rejected. */
  function Run(p: Parser): (r: Option<Parser>)
    requires p.Valid()
    ensures r.Some? ==> r.value.Valid() && |r.value.input| <= |p.input|
    decreases |p.input|, Rank(p.phase)
  {
    StepKeepsValid(p);
    match Step(p)
    case Fail => None
    case Wait(q) => Some(q)
    case Go(q) => Run(q)
  }

  lemma FeedValid(p: Parser, bytes: seq<byte>)
    requires p.Valid() && |bytes| <= SLICE - |p.input|
    ensures p.(input := p.input + bytes).Valid()
  {
    ExamineStable(p.info, p.input, bytes);
    hide Examine;
  }

  // ---------------------------------------------------------------- reading chunks out

  datatype ChunkKind = HeaderChunk | ClusterStart | ClusterContinue

  /** The size of the next chunk. Asking may decide that a full buffer has to be flushed. */
  function ReadSpace(p: Parser): (r: (Parser, nat)) {
    if !p.readingClusters then (p, p.headerSize)
    else if p.clusterStart > 0 then (p, p.clusterStart)
    else
      var q := if |p.data| == SLICE then p.(flush := true) else p;
      (q, if q.flush then |p.data| else 0)
  }

  datatype ReadResult = ReadResult(p: Parser, bytes: seq<byte>, kind: ChunkKind)

  function ReadHeader(p: Parser, len: nat): ReadResult
    requires p.headerRead <= p.headerSize <= |p.header|
  {
    var n := Min(len, p.headerSize - p.headerRead);
    var q := p.(headerRead := p.headerRead + n);
    // the copy always starts at the first header byte
    ReadResult(q.(readingClusters := q.headerRead == q.headerSize), p.header[..n], HeaderChunk)
  }

  function ReadCluster(p: Parser, len: nat): ReadResult
    requires p.clusterStart <= |p.data|
  {
    var kind := if p.clusterStart == 0 && p.info.keyframe != NotKeyframe then ClusterStart else ClusterContinue;
    var start := if p.clusterStart == 0 then -1 else p.clusterStart;
    var n := Min(len, if start > 0 then start else |p.data|);
    ReadResult(p.(clusterStart := if start > 0 then start - n else start, data := p.data[n..]), p.data[..n], kind)
  }

  function Read(p: Parser, len: nat): ReadResult
    requires p.headerRead <= p.headerSize <= |p.header| && p.clusterStart <= |p.data|
  {
    if len == 0 then ReadResult(p, [], HeaderChunk)
    else if p.readingClusters then ReadCluster(p, len)
    else if p.headerSize == 0 then ReadResult(p, [], HeaderChunk)
    else ReadHeader(p, len)
  }
}
