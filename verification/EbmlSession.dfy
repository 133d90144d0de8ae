/** Whole runs of the splitter: any interleaving of written slices and full-size reads, and the
    invariant that ties each of them to the buffer-free walk of the same bytes. */
module EbmlSession {
  import opened Bytes
  import opened EbmlTags
  import opened EbmlWalk
  import opened EbmlSplitter

  datatype Chunk = Chunk(bytes: seq<byte>, kind: ChunkKind)

  /** `published` is the header as handed out, `chunks` the cluster chunks in order. */
  datatype Session = Session(p: Parser, written: seq<byte>, published: seq<byte>, chunks: seq<Chunk>)

  datatype Event = Feed(bytes: seq<byte>) | Drain

  const START := Session(INITIAL, [], [], [])

  function Emitted(chunks: seq<Chunk>): seq<byte> {
    if |chunks| == 0 then [] else Emitted(chunks[..|chunks| - 1]) + chunks[|chunks| - 1].bytes
  }

  /** Stream offset of chunk `i`. */
  function ChunkAt(s: Session, i: nat): nat
    requires i <= |s.chunks|
  {
    |s.p.header| + |Emitted(s.chunks[..i])|
  }

  /** A slice is written to the input buffer and processed. None: the slice does not fit, or the
      parser rejects the stream. */
  function ApplyFeed(s: Session, bytes: seq<byte>): Option<Session>
    requires s.p.Valid()
  {
    if |bytes| > SLICE - |s.p.input| then None
    else
      FeedValid(s.p, bytes);
      var r := Run(s.p.(input := s.p.input + bytes));
      if r.None? then None else Some(s.(p := r.value, written := s.written + bytes))
  }

  /** The available chunk, if any, is read in full. */
  function ApplyDrain(s: Session): Session
    requires s.p.Valid()
  {
    var (q, n) := ReadSpace(s.p);
    if n == 0 then s.(p := q)
    else
      var r := Read(q, n);
      if r.kind == HeaderChunk then s.(p := r.p, published := s.published + r.bytes)
      else s.(p := r.p, chunks := s.chunks + [Chunk(r.bytes, r.kind)])
  }

  function Apply(s: Session, e: Event): Option<Session>
    requires s.p.Valid()
  {
    match e
    case Feed(bytes) => ApplyFeed(s, bytes)
    case Drain => Some(ApplyDrain(s))
  }

  lemma DrainValid(s: Session)
    requires s.p.Valid()
    ensures ApplyDrain(s).p.Valid()
  {
    hide Examine;
  }

  lemma ApplyValid(s: Session, e: Event)
    requires s.p.Valid()
    ensures Apply(s, e).Some? ==> Apply(s, e).value.p.Valid()
  {
    match e
    case Feed(bytes) => hide Examine, Run;
    case Drain => DrainValid(s);
  }

  function Execute(s: Session, events: seq<Event>): (r: Option<Session>)
    requires s.p.Valid()
    ensures r.Some? ==> r.value.p.Valid()
    decreases |events|
  {
    if |events| == 0 then Some(s)
    else
      ApplyValid(s, events[0]);
      match Apply(s, events[0])
      case None => None
      case Some(t) => Execute(t, events[1..])
  }

  /** A run of the splitter from its creation; None once a call has failed. */
  function Outcome(events: seq<Event>): (r: Option<Session>)
    ensures r.Some? ==> r.value.p.Valid()
  {
    Execute(START, events)
  }

  // ---------------------------------------------------------------- the invariant

  function Last(marks: seq<Mark>): Mark
    requires marks != []
  {
    marks[|marks| - 1]
  }

  /** The bytes handed over to the listeners' side so far, header included. */
  function Out(s: Session): nat {
    |s.p.header| + |Emitted(s.chunks)|
  }

  /** How much of the stream has been examined: what was copied and what is about to be. */
  function Frontier(s: Session): int {
    |s.written| - |s.p.input| + s.p.copyLen
  }

  ghost predicate Conserved(s: Session) {
    s.written == s.p.header + Emitted(s.chunks) + s.p.data + s.p.input
  }

  ghost predicate Tracked(s: Session, f: Scanned) {
    && Frontier(s) >= 0
    && Scan(INITIAL_INFO, 0, s.written, Frontier(s)) == Some(f)
    && f.info == s.p.info
  }

  ghost predicate HeaderStage(s: Session, f: Scanned) {
    && (s.p.InHeader() ==> f.marks == [])
    && (f.marks == [] ==> s.p.InHeader() || s.p.phase == StartCluster)
    && (f.marks == [] ==> s.p.data == [] && s.chunks == [] && s.p.clusterStart == -1 && s.p.headerSize == 0)
    && (f.marks != [] ==> f.marks[0].pos == |s.p.header| == s.p.headerSize)
    && s.published == (if s.p.readingClusters then s.p.header else [])
    && (s.chunks != [] ==> s.p.readingClusters)
  }

  /** Only the newest Cluster tag can still be in the data buffer, at `clusterStart`; while it is
      incomplete its copying is under way and nothing may be flushed. */
  ghost predicate Pending(s: Session, f: Scanned) {
    && (forall i :: 0 <= i < |f.marks| - 1 ==> f.marks[i].pos < Out(s))
    && (s.p.clusterStart == -1 ==> f.marks == [] || Last(f.marks).pos < Out(s))
    && (s.p.clusterStart >= 0 ==>
          && f.marks != [] && Last(f.marks).pos == Out(s) + s.p.clusterStart && 0 < Last(f.marks).size <= 16
          && (s.p.clusterStart + Last(f.marks).size > |s.p.data| ==>
                && s.p.phase == CopyingToData && !s.p.flush
                && s.p.copyLen == s.p.clusterStart + Last(f.marks).size - |s.p.data|))
  }

  /** The keyframe status that decided a chunk at offset `a`: the one the walk has after `n` bytes,
      when the Cluster at `a` is the newest one walked. */
  ghost predicate Consulted(written: seq<byte>, a: nat, n: nat, kind: ChunkKind) {
    var x := Scan(INITIAL_INFO, 0, written, n);
    && x.Some? && x.value.marks != [] && Last(x.value.marks).pos == a
    && (kind == ClusterStart <==> x.value.info.keyframe != NotKeyframe)
  }

  /** The element of the walk that starts at offset `b` ends at `n`. */
  ghost predicate Spans(written: seq<byte>, b: nat, n: nat) {
    && b <= |written|
    && var x := Scan(INITIAL_INFO, 0, written, b);
    && x.Some?
    && var e := Examine(x.value.info, written[b..]);
    && Clear(e) && b + e.size == n
  }

  /** How far the walk is when `end` bytes have been copied: exactly there, or at the end of the one
      element whose copying has begun. */
  ghost predicate Reached(written: seq<byte>, end: int, n: int) {
    n == end || (end < n && exists b: nat :: b <= end && Spans(written, b, n))
  }

  /** The walk is never ahead of the copying by more than the element being copied. */
  ghost predicate Begun(s: Session) {
    |s.p.input| <= |s.written| && Reached(s.written, |s.written| - |s.p.input|, Frontier(s))
  }

  /** No Cluster starts inside the chunk; one that starts with it has its whole tag in it. */
  ghost predicate Aligned(marks: seq<Mark>, a: nat, size: nat) {
    forall m :: m in marks ==> !(a < m.pos < a + size) && (m.pos == a ==> m.size <= size)
  }

  ghost predicate StartsCluster(marks: seq<Mark>, a: nat) {
    exists m :: m in marks && m.pos == a
  }

  /** A chunk that starts with a Cluster is a sync point or not by the keyframe status of that Cluster as
      it stood when the chunk was handed out: with all elements walked that the chunk reaches into. */
  ghost predicate Decided(written: seq<byte>, a: nat, c: Chunk) {
    exists n: nat :: Consulted(written, a, n, c.kind) && Reached(written, a + |c.bytes|, n)
  }

  ghost predicate ChunkOk(written: seq<byte>, marks: seq<Mark>, a: nat, c: Chunk) {
    && c.bytes != [] && c.kind != HeaderChunk
    && Aligned(marks, a, |c.bytes|)
    && (if StartsCluster(marks, a) then Decided(written, a, c) else c.kind == ClusterContinue)
  }

  ghost predicate ChunksOk(s: Session, marks: seq<Mark>) {
    forall i :: 0 <= i < |s.chunks| ==> ChunkOk(s.written, marks, ChunkAt(s, i), s.chunks[i])
  }

  ghost predicate Inv(s: Session, f: Scanned) {
    s.p.Valid() && Conserved(s) && Tracked(s, f) && Begun(s) && HeaderStage(s, f) && Pending(s, f)
      && ChunksOk(s, f.marks)
  }

  lemma {:induction false} EmittedPrefix(chunks: seq<Chunk>, i: nat)
    requires i <= |chunks|
    ensures |Emitted(chunks[..i])| <= |Emitted(chunks)|
    ensures i < |chunks| ==> |Emitted(chunks[..i])| + |chunks[i].bytes| <= |Emitted(chunks)|
    decreases |chunks| - i
  {
    if i == |chunks| {
      assert chunks[..i] == chunks;
    } else {
      EmittedPrefix(chunks, i + 1);
      assert chunks[..i + 1][..i] == chunks[..i];
    }
  }

  /** Cluster tags at or beyond what has been handed out do not disturb the chunks. */
  lemma ChunksStayOk(s: Session, t: Session, marks: seq<Mark>, more: seq<Mark>)
    requires ChunksOk(s, marks)
    requires t.chunks == s.chunks && t.p.header == s.p.header && s.written <= t.written
    requires forall m :: m in more ==> m.pos >= Out(s)
    ensures ChunksOk(t, marks + more)
  {
    forall i | 0 <= i < |t.chunks|
      ensures ChunkOk(t.written, marks + more, ChunkAt(t, i), t.chunks[i])
    {
      EmittedPrefix(s.chunks, i);
      var a, c := ChunkAt(s, i), s.chunks[i];
      assert ChunkOk(s.written, marks, a, c);
      assert StartsCluster(marks + more, a) == StartsCluster(marks, a);
      if StartsCluster(marks, a) {
        DecidedStays(s.written, t.written, a, c);
      }
    }
  }

  lemma DecidedStays(w: seq<byte>, v: seq<byte>, a: nat, c: Chunk)
    requires w <= v && Decided(w, a, c)
    ensures Decided(v, a, c)
  {
    hide Consulted, Reached;
    var n: nat :| Consulted(w, a, n, c.kind) && Reached(w, a + |c.bytes|, n);
    ConsultedStays(w, v, a, n, c.kind);
    ReachedStays(w, v, a + |c.bytes|, n);
  }

  lemma ReachedStays(w: seq<byte>, v: seq<byte>, end: int, n: int)
    requires w <= v && Reached(w, end, n)
    ensures Reached(v, end, n)
  {
    if n != end {
      hide Spans;
      var b: nat :| b <= end && Spans(w, b, n);
      SpansStays(w, v, b, n);
    }
  }

  lemma SpansStays(w: seq<byte>, v: seq<byte>, b: nat, n: nat)
    requires w <= v && Spans(w, b, n)
    ensures Spans(v, b, n)
  {
    hide Examine, Scan;
    var t := v[|w|..];
    assert v == w + t;
    ScanStable(INITIAL_INFO, 0, w, b, t);
    assert v[b..] == w[b..] + t;
    ExamineStable(Scan(INITIAL_INFO, 0, w, b).value.info, w[b..], t);
  }

  lemma ReachedLater(w: seq<byte>, end: int, later: int, n: int)
    requires Reached(w, end, n) && end <= later <= n
    ensures Reached(w, later, n)
  {
  }

  /** Copying an element begins where the walk stands. */
  lemma BeginSpan(s: Session, f: Scanned)
    requires Conserved(s) && Tracked(s, f) && s.p.copyLen == 0 && Clear(Examine(s.p.info, s.p.input))
    ensures Reached(s.written, |s.written| - |s.p.input|, Frontier(s) + Examine(s.p.info, s.p.input).size)
  {
    hide Examine, Scan;
    FrontierInput(s);
    assert Spans(s.written, Frontier(s), Frontier(s) + Examine(s.p.info, s.p.input).size);
  }

  lemma ConsultedStays(w: seq<byte>, v: seq<byte>, a: nat, n: nat, kind: ChunkKind)
    requires w <= v && Consulted(w, a, n, kind)
    ensures Consulted(v, a, n, kind)
  {
    hide Examine, Scan;
    var t := v[|w|..];
    assert v == w + t;
    ScanStable(INITIAL_INFO, 0, w, n, t);
  }

  // ---------------------------------------------------------------- each turn keeps the invariant

  lemma FrontierInput(s: Session)
    requires Conserved(s) && s.p.copyLen == 0
    ensures 0 <= Frontier(s) <= |s.written| && s.written[Frontier(s)..] == s.p.input
  {
  }

  lemma ParseTracked(s: Session, f: Scanned)
    requires Conserved(s) && Tracked(s, f) && s.p.copyLen == 0
    requires (s.p.phase == ParsingHeader || s.p.phase == ParsingClusters) && ParseTurn(s.p) != Fail
    ensures Tracked(s.(p := ParseTurn(s.p).p), Scanned(ParseTurn(s.p).p.info, f.marks))
  {
    hide Examine, Scan;
    FrontierInput(s);
    var e := Examine(s.p.info, s.p.input);
    if e.Element? {
      ScanExtend(INITIAL_INFO, 0, s.written, Frontier(s));
      assert f.marks + [] == f.marks;
    }
  }

  lemma ParseBegun(s: Session, f: Scanned)
    requires Conserved(s) && Tracked(s, f) && Begun(s) && s.p.copyLen == 0
    requires (s.p.phase == ParsingHeader || s.p.phase == ParsingClusters) && ParseTurn(s.p) != Fail
    ensures Begun(s.(p := ParseTurn(s.p).p))
  {
    hide Examine, Scan, Conserved, Tracked, Reached;
    var e := Examine(s.p.info, s.p.input);
    if e.Element? {
      BeginSpan(s, f);
    }
  }

  lemma ParsePending(s: Session, f: Scanned)
    requires s.p.Valid() && Conserved(s) && HeaderStage(s, f) && Pending(s, f)
    requires (s.p.phase == ParsingHeader || s.p.phase == ParsingClusters) && ParseTurn(s.p) != Fail
    ensures s.p.copyLen == 0 && ParseTurn(s.p).p.header == s.p.header
    ensures var t := s.(p := ParseTurn(s.p).p);
            var g := Scanned(t.p.info, f.marks);
            Conserved(t) && HeaderStage(t, g) && Pending(t, g)
  {
    hide Examine;
  }

  lemma ParseKeeps(s: Session, f: Scanned) returns (g: Scanned)
    requires Inv(s, f) && (s.p.phase == ParsingHeader || s.p.phase == ParsingClusters)
    requires ParseTurn(s.p) != Fail
    ensures Inv(s.(p := ParseTurn(s.p).p), g)
  {
    hide Examine, Scan, Tracked, ChunksOk, Begun, Conserved, HeaderStage, Pending, Parser.Valid;
    ParseTurnGood(s.p);
    ParsePending(s, f);
    ParseTracked(s, f);
    ParseBegun(s, f);
    hide ParseTurn;
    var t := s.(p := ParseTurn(s.p).p);
    g := Scanned(t.p.info, f.marks);
    ChunksStayOk(s, t, f.marks, []);
    assert f.marks + [] == f.marks;
  }

  function FreshMark(s: Session): seq<Mark>
    requires Frontier(s) >= 0 && ParseTag(s.p.input).Parsed?
  {
    if s.p.clusterStart < 0 then [Mark(Frontier(s), ParseTag(s.p.input).len)] else []
  }

  lemma StartTracked(s: Session, f: Scanned)
    requires s.p.Valid() && Conserved(s) && Tracked(s, f) && s.p.phase == StartCluster
    requires ParseTag(s.p.input).Parsed?
    ensures Tracked(s.(p := StartTurn(s.p).p), Scanned(StartTurn(s.p).p.info, f.marks + FreshMark(s)))
  {
    hide Examine, Scan, ParseTag;
    ClusterVerdict(s.p.info, s.p.input);
    FrontierInput(s);
    if s.p.clusterStart < 0 {
      ScanExtend(INITIAL_INFO, 0, s.written, Frontier(s));
    } else {
      assert f.marks + [] == f.marks;
    }
  }

  lemma StartPending(s: Session, f: Scanned)
    requires s.p.Valid() && Conserved(s) && HeaderStage(s, f) && Pending(s, f) && Frontier(s) >= 0
    requires s.p.phase == StartCluster && ParseTag(s.p.input).Parsed? && ParseTag(s.p.input).len <= 16
    ensures HeaderStage(s.(p := StartTurn(s.p).p), Scanned(StartTurn(s.p).p.info, f.marks + FreshMark(s)))
    ensures Pending(s.(p := StartTurn(s.p).p), Scanned(StartTurn(s.p).p.info, f.marks + FreshMark(s)))
  {
    hide Examine, ParseTag;
    assert s.p.copyLen == 0;
    assert Frontier(s) == Out(s) + |s.p.data|;
    var g := f.marks + FreshMark(s);
    if s.p.clusterStart < 0 {
      assert Last(g) == FreshMark(s)[0];
      assert forall i :: 0 <= i < |g| - 1 ==> g[i] == f.marks[i];
    } else {
      assert g == f.marks;
    }
  }

  lemma StartBegun(s: Session, f: Scanned)
    requires s.p.Valid() && Conserved(s) && Tracked(s, f) && Begun(s) && s.p.phase == StartCluster
    ensures Begun(s.(p := StartTurn(s.p).p))
  {
    hide Examine, Scan, Conserved, Tracked, Reached, ParseTag;
    ClusterVerdict(s.p.info, s.p.input);
    BeginSpan(s, f);
  }

  lemma StartKeeps(s: Session, f: Scanned) returns (g: Scanned)
    requires Inv(s, f) && s.p.phase == StartCluster
    ensures StartTurn(s.p) != Fail
    ensures Inv(s.(p := StartTurn(s.p).p), g)
  {
    hide Examine, Scan, ParseTag, Tracked, ChunksOk, HeaderStage, Pending, Begun;
    StartTurnGood(s.p);
    ClusterVerdict(s.p.info, s.p.input);
    StartTracked(s, f);
    StartBegun(s, f);
    FrontierInput(s);
    StartPending(s, f);
    var t := s.(p := StartTurn(s.p).p);
    g := Scanned(t.p.info, f.marks + FreshMark(s));
    ChunksStayOk(s, t, f.marks, FreshMark(s));
  }

  lemma CopyConserved(s: Session)
    requires s.p.Valid() && Conserved(s) && s.p.Copying() && CopyTurn(s.p) != Fail
    requires s.p.InHeader() ==> s.chunks == []
    ensures Conserved(s.(p := CopyTurn(s.p).p))
    ensures Frontier(s.(p := CopyTurn(s.p).p)) == Frontier(s)
  {
    hide Examine;
    var n := ToCopy(s.p);
    var x, y := s.p.input[..n], s.p.input[n..];
    assert s.p.input == x + y;
    if s.p.InHeader() {
      assert s.p.header + [] + [] + (x + y) == (s.p.header + x) + [] + [] + y;
    } else {
      var front := s.p.header + Emitted(s.chunks);
      assert front + s.p.data + (x + y) == front + (s.p.data + x) + y;
    }
  }

  lemma CopyBegun(s: Session)
    requires s.p.Valid() && s.p.Copying() && CopyTurn(s.p) != Fail && Begun(s)
    ensures Begun(s.(p := CopyTurn(s.p).p))
  {
    hide Examine, Reached;
    var done := |s.written| - |s.p.input|;
    ReachedLater(s.written, done, done + ToCopy(s.p), Frontier(s));
  }

  lemma CopyPending(s: Session, f: Scanned)
    requires s.p.Valid() && HeaderStage(s, f) && Pending(s, f) && s.p.Copying() && CopyTurn(s.p) != Fail
    ensures HeaderStage(s.(p := CopyTurn(s.p).p), f)
    ensures Pending(s.(p := CopyTurn(s.p).p), f)
  {
    hide Examine;
  }

  lemma CopyKeeps(s: Session, f: Scanned)
    requires Inv(s, f) && s.p.Copying() && CopyTurn(s.p) != Fail
    ensures Inv(s.(p := CopyTurn(s.p).p), f)
  {
    hide Examine, Scan, ChunksOk, HeaderStage, Pending, Begun, Conserved, Parser.Valid;
    CopyPending(s, f);
    CopyTurnGood(s.p);
    NoChunksYet(s, f);
    CopyConserved(s);
    CopyBegun(s);
    CopyTouches(s.p);
    hide CopyTurn;
    var t := s.(p := CopyTurn(s.p).p);
    if s.p.phase == CopyingToData {
      ChunksStayOk(s, t, f.marks, []);
      assert f.marks + [] == f.marks;
    } else {
      NoChunks(t, f.marks);
    }
  }

  lemma NoChunksYet(s: Session, f: Scanned)
    requires HeaderStage(s, f)
    ensures s.p.InHeader() ==> s.chunks == []
  {
  }

  /** Copying learns nothing, and an element of a Cluster leaves the header alone. */
  lemma CopyTouches(p: Parser)
    requires p.Valid() && p.Copying() && CopyTurn(p) != Fail
    ensures |p.data| <= SLICE && CopyTurn(p).p.info == p.info
    ensures p.phase == CopyingToData ==> CopyTurn(p).p.header == p.header
  {
  }

  lemma NoChunks(s: Session, marks: seq<Mark>)
    requires s.chunks == []
    ensures ChunksOk(s, marks)
  {
  }

  lemma StepKeeps(s: Session, f: Scanned) returns (g: Scanned)
    requires Inv(s, f) && Step(s.p) != Fail
    ensures Inv(s.(p := Step(s.p).p), g)
  {
    hide ParseTurn, StartTurn, CopyTurn, Tracked, ChunksOk, HeaderStage, Pending, Conserved, Begun;
    if s.p.phase == StartCluster {
      g := StartKeeps(s, f);
    } else if s.p.Copying() {
      CopyKeeps(s, f);
      g := f;
    } else {
      g := ParseKeeps(s, f);
    }
  }

  lemma {:induction false} RunKeeps(s: Session, f: Scanned) returns (g: Scanned)
    requires Inv(s, f) && Run(s.p).Some?
    ensures Inv(s.(p := Run(s.p).value), g)
    decreases |s.p.input|, Rank(s.p.phase)
  {
    hide Step, Tracked, ChunksOk, HeaderStage, Pending, Conserved, Parser.Valid, Begun;
    StepKeepsValid(s.p);
    var h := StepKeeps(s, f);
    var t := s.(p := Step(s.p).p);
    if Step(s.p).Go? {
      g := RunKeeps(t, h);
      assert t.(p := Run(t.p).value) == s.(p := Run(s.p).value);
    } else {
      g := h;
    }
  }

  /** A finished run has nothing left to do: processing again, without more bytes, changes nothing. */
  lemma {:induction false} RunSettles(p: Parser)
    requires p.Valid() && Run(p).Some?
    ensures Step(Run(p).value) == Wait(Run(p).value)
    decreases |p.input|, Rank(p.phase)
  {
    hide Examine, ParseTag;
    StepKeepsValid(p);
    if Step(p).Go? {
      RunSettles(Step(p).p);
    } else if p.Copying() {
      var q := Step(p).p;
      assert ToCopy(q) == 0;
      assert q.input[0..] == q.input && q.input[..0] == [] && q.header + [] == q.header && q.data + [] == q.data;
    }
  }

  function Fill(s: Session, bytes: seq<byte>): Session {
    s.(p := s.p.(input := s.p.input + bytes), written := s.written + bytes)
  }

  lemma FillTracked(s: Session, f: Scanned, bytes: seq<byte>)
    requires Conserved(s) && Tracked(s, f) && Begun(s)
    ensures Conserved(Fill(s, bytes)) && Tracked(Fill(s, bytes), f) && Begun(Fill(s, bytes))
  {
    hide Examine, Scan, Reached;
    ReachedStays(s.written, s.written + bytes, |s.written| - |s.p.input|, Frontier(s));
    ScanStable(INITIAL_INFO, 0, s.written, Frontier(s), bytes);
    var front := s.p.header + Emitted(s.chunks) + s.p.data;
    assert (front + s.p.input) + bytes == front + (s.p.input + bytes);
  }

  lemma FillKeeps(s: Session, f: Scanned, bytes: seq<byte>)
    requires Inv(s, f) && |bytes| <= SLICE - |s.p.input|
    ensures Inv(Fill(s, bytes), f)
  {
    hide Examine, Tracked, Conserved, ChunksOk, Parser.Valid, Begun;
    FeedValid(s.p, bytes);
    FillTracked(s, f, bytes);
    ChunksStayOk(s, Fill(s, bytes), f.marks, []);
    assert f.marks + [] == f.marks;
  }

  lemma FeedKeeps(s: Session, f: Scanned, bytes: seq<byte>) returns (g: Scanned)
    requires Inv(s, f) && ApplyFeed(s, bytes).Some?
    ensures Inv(ApplyFeed(s, bytes).value, g)
  {
    hide Examine, Run, Tracked, ChunksOk, Conserved, Parser.Valid, HeaderStage, Pending, Begun;
    var t := Fill(s, bytes);
    FillKeeps(s, f, bytes);
    g := RunKeeps(t, f);
    assert t.(p := Run(t.p).value) == ApplyFeed(s, bytes).value;
  }

  /** A chunk of the first `n` bytes of the data buffer joins the others. */
  lemma AppendChunk(s: Session, t: Session, f: Scanned, n: nat, kind: ChunkKind)
    requires Inv(s, f) && 0 < n <= |s.p.data| && kind != HeaderChunk
    requires t.written == s.written && t.p.header == s.p.header
    requires t.chunks == s.chunks + [Chunk(s.p.data[..n], kind)]
    requires s.p.clusterStart > 0 ==> n == s.p.clusterStart
    requires s.p.clusterStart == 0 ==> n == |s.p.data| && Last(f.marks).size <= n
    requires kind == ClusterStart <==> s.p.clusterStart == 0 && s.p.info.keyframe != NotKeyframe
    ensures ChunksOk(t, f.marks)
    ensures Emitted(t.chunks) == Emitted(s.chunks) + s.p.data[..n]
  {
    hide Examine, Scan, HeaderStage, ChunkOk, Pending, Tracked, Begun;
    assert Out(s) + |s.p.data| == |s.written| - |s.p.input|;
    hide Conserved;
    var c := Chunk(s.p.data[..n], kind);
    assert t.chunks[..|t.chunks| - 1] == s.chunks;
    forall i | 0 <= i < |t.chunks|
      ensures ChunkOk(t.written, f.marks, ChunkAt(t, i), t.chunks[i])
    {
      if i < |s.chunks| {
        assert t.chunks[..i] == s.chunks[..i];
        assert ChunkOk(s.written, f.marks, ChunkAt(s, i), s.chunks[i]);
      } else {
        assert t.chunks[..i] == s.chunks;
        NewChunkOk(s, f, n, c);
      }
    }
  }

  lemma NewChunkOk(s: Session, f: Scanned, n: nat, c: Chunk)
    requires Tracked(s, f) && Pending(s, f) && Begun(s) && Out(s) + |s.p.data| == |s.written| - |s.p.input|
    requires 0 < n <= |s.p.data| && c.bytes == s.p.data[..n] && c.kind != HeaderChunk
    requires -1 <= s.p.clusterStart
    requires s.p.clusterStart > 0 ==> n == s.p.clusterStart
    requires s.p.clusterStart == 0 ==> n == |s.p.data| && Last(f.marks).size <= n
    requires c.kind == ClusterStart <==> s.p.clusterStart == 0 && s.p.info.keyframe != NotKeyframe
    ensures ChunkOk(s.written, f.marks, Out(s), c)
  {
    hide Examine, Scan, Reached;
    var a := Out(s);
    forall m | m in f.marks
      ensures m.pos < a || (s.p.clusterStart >= 0 && m == Last(f.marks) && m.pos == a + s.p.clusterStart)
    {
      var i :| 0 <= i < |f.marks| && f.marks[i] == m;
    }
    if s.p.clusterStart == 0 {
      assert Last(f.marks) in f.marks;
      assert Consulted(s.written, a, Frontier(s), c.kind) && Reached(s.written, a + |c.bytes|, Frontier(s));
    } else {
      assert !StartsCluster(f.marks, a);
    }
  }

  /** Deciding to flush a full buffer changes nothing else. */
  lemma SpaceKeeps(s: Session, f: Scanned)
    requires Inv(s, f)
    ensures Inv(s.(p := ReadSpace(s.p).0), f)
  {
    hide Examine, Scan, ChunksOk, Reached;
    ChunksStayOk(s, s.(p := ReadSpace(s.p).0), f.marks, []);
    assert f.marks + [] == f.marks;
  }

  lemma HeaderReadKeeps(s: Session, f: Scanned)
    requires Inv(s, f) && !s.p.readingClusters && s.p.headerSize > 0
    ensures var r := Read(s.p, s.p.headerSize);
            r.kind == HeaderChunk && Inv(s.(p := r.p, published := s.published + r.bytes), f)
  {
    hide Examine, Scan, ChunksOk, Reached;
    var r := Read(s.p, s.p.headerSize);
    ChunksStayOk(s, s.(p := r.p, published := s.published + r.bytes), f.marks, []);
    assert f.marks + [] == f.marks;
    assert [] + s.p.header[..|s.p.header|] == s.p.header;
  }

  function ReadOut(s: Session, n: nat): Session
    requires s.p.Valid() && s.p.readingClusters && n > 0
  {
    var r := Read(s.p, n);
    s.(p := r.p, chunks := s.chunks + [Chunk(r.bytes, r.kind)])
  }

  lemma ClusterReadPending(s: Session, f: Scanned, n: nat)
    requires s.p.Valid() && HeaderStage(s, f) && Pending(s, f)
    requires s.p.readingClusters && n > 0
    requires n == (if s.p.clusterStart > 0 then s.p.clusterStart else |s.p.data|)
    requires s.p.clusterStart <= 0 ==> s.p.flush
    requires Out(ReadOut(s, n)) == Out(s) + n
    ensures ReadOut(s, n).p.Valid() && HeaderStage(ReadOut(s, n), f) && Pending(ReadOut(s, n), f)
  {
    hide Examine, Out;
  }

  lemma ClusterReadKeeps(s: Session, f: Scanned, n: nat)
    requires Inv(s, f) && s.p.readingClusters && n > 0
    requires n == (if s.p.clusterStart > 0 then s.p.clusterStart else |s.p.data|)
    requires s.p.clusterStart <= 0 ==> s.p.flush
    ensures Read(s.p, n).kind != HeaderChunk && Inv(ReadOut(s, n), f)
  {
    hide Examine, Scan, ChunksOk, Conserved, HeaderStage, Reached;
    AppendChunk(s, ReadOut(s, n), f, n, Read(s.p, n).kind);
    DrainConserved(s, ReadOut(s, n), n);
    ClusterReadPending(s, f, n);
  }

  lemma DrainKeeps(s: Session, f: Scanned)
    requires Inv(s, f)
    ensures Inv(ApplyDrain(s), f)
  {
    hide Examine, Tracked, ChunksOk, Conserved, Parser.Valid, Pending, HeaderStage, Read, Begun;
    SpaceKeeps(s, f);
    var (q, n) := ReadSpace(s.p);
    var t := s.(p := q);
    if n > 0 && !q.readingClusters {
      HeaderReadKeeps(t, f);
    } else if n > 0 {
      ClusterReadKeeps(t, f, n);
    }
  }

  lemma DrainConserved(s: Session, t: Session, n: nat)
    requires Conserved(s) && n <= |s.p.data|
    requires t.written == s.written && t.p.header == s.p.header && t.p.input == s.p.input
    requires t.p.data == s.p.data[n..] && Emitted(t.chunks) == Emitted(s.chunks) + s.p.data[..n]
    ensures Conserved(t)
    ensures Out(t) == Out(s) + n
  {
    var x, y := s.p.data[..n], s.p.data[n..];
    assert s.p.data == x + y;
    var front := s.p.header + Emitted(s.chunks);
    assert front + (x + y) + s.p.input == s.p.header + (Emitted(s.chunks) + x) + y + s.p.input;
  }
}
