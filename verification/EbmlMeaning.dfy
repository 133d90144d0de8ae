/** What the splitter makes of a stream that is laid out as the format says: which bytes are the header, where
    chunks begin, which of them are sync points, and which streams are accepted. Nothing here is stated in terms
    of how the splitter reads. */
module EbmlMeaning {
  import opened Bytes
  import opened EbmlTags
  import opened EbmlWalk
  import opened EbmlSplitter
  import opened EbmlSession
  import opened EbmlTheorems
  import opened EbmlLayout

  // ---------------------------------------------------------------- where elements begin

  /** No walk ends inside an element. */
  lemma {:induction false} ScanGap(i: Info, off: nat, s: seq<byte>, k: nat, n: nat)
    requires k < n && k <= |s| && Scan(i, off, s, k).Some? && Scan(i, off, s, n).Some?
    ensures var e := Examine(Scan(i, off, s, k).value.info, s[k..]);
            Clear(e) && k + e.size <= n
    decreases k
  {
    hide Examine;
    if k == 0 {
      assert s[0..] == s;
    } else {
      var e := Examine(i, s);
      var rest := s[e.size..];
      if e.size < k {
        ScanGap(InfoAfter(i, e), off + e.size, rest, k - e.size, n - e.size);
        assert rest[k - e.size..] == s[k..];
      } else {
        assert Scan(InfoAfter(i, e), off + e.size, rest, 0) == Some(Scanned(InfoAfter(i, e), []));
        ScanGap(InfoAfter(i, e), off + e.size, rest, 0, n - k);
        assert rest[0..] == s[k..];
      }
    }
  }

  /** A Cluster, and the elements up to the next one, in a stream. */
  ghost predicate ClusterIn(pre: seq<Piece>, cluster: Piece, mid: seq<Piece>) {
    && AllProper(pre) && Proper(cluster) && AllProper(mid) && IsCluster(cluster)
    && forall j :: 0 <= j < |mid| ==> !IsCluster(mid[j])
  }

  lemma {:induction false} NoMarks(off: nat, ps: seq<Piece>)
    requires forall j :: 0 <= j < |ps| ==> !IsCluster(ps[j])
    ensures ClusterMarks(off, ps) == []
    decreases |ps|
  {
    hide IsCluster, Encode;
    if ps != [] {
      NoMarks(off + |Encode(ps[0])|, ps[1..]);
    }
  }

  lemma ClusterMarked(pre: seq<Piece>, cluster: Piece, mid: seq<Piece>)
    requires ClusterIn(pre, cluster, mid)
    ensures var ms := ClusterMarks(0, pre + [cluster] + mid);
            ms != [] && Last(ms) == Mark(|EncodeAll(pre)|, |Encode(cluster)|)
  {
    hide Proper, Encode, IsCluster;
    var off := |EncodeAll(pre)|;
    assert pre + [cluster] + mid == pre + ([cluster] + mid);
    MarksJoin(0, pre, [cluster] + mid);
    NoMarks(off + |Encode(cluster)|, mid);
    assert ([cluster] + mid)[1..] == mid;
    assert ClusterMarks(off, [cluster] + mid) == [Mark(off, |Encode(cluster)|)] + [];
  }

  /** The walk of a stream up to the elements of a Cluster. */
  lemma ClusterWalked(w: seq<byte>, pre: seq<Piece>, cluster: Piece, mid: seq<Piece>, rest: seq<byte>)
    requires ClusterIn(pre, cluster, mid) && rest != [] && w == EncodeAll(pre + [cluster] + mid) + rest
    ensures var x := Scan(INITIAL_INFO, 0, w, |EncodeAll(pre + [cluster] + mid)|);
            && x.Some? && x.value.marks != [] && Last(x.value.marks).pos == |EncodeAll(pre)|
            && x.value.info == LearnAll(LearnAll(INITIAL_INFO, pre).(keyframe := KeyframeUnknown), mid)
  {
    hide Proper, Encode, Scan;
    Scanning(INITIAL_INFO, 0, pre + [cluster] + mid, rest);
    ClusterMarked(pre, cluster, mid);
    LearnJoin(INITIAL_INFO, pre + [cluster], mid);
    LearnJoin(INITIAL_INFO, pre, [cluster]);
    LearnCluster(LearnAll(INITIAL_INFO, pre), cluster);
  }

  lemma LearnCluster(i: Info, cluster: Piece)
    requires IsCluster(cluster)
    ensures LearnAll(i, [cluster]) == i.(keyframe := KeyframeUnknown)
  {
    assert [cluster][1..] == [];
    assert LearnAll(Learn(i, cluster), []) == Learn(i, cluster);
  }

  // ---------------------------------------------------------------- sync points

  /** The front of a SimpleBlock. */
  function BlockFront(size: seq<byte>, track: seq<byte>, timecode: seq<byte>, flags: byte): seq<byte> {
    [0xA3] + size + track + timecode + [flags]
  }

  lemma BlockFrontRead(i: Info, size: seq<byte>, track: seq<byte>, timecode: seq<byte>, flags: byte, t: seq<byte>)
    requires IsVarInt(size) && IsVarInt(track) && !Reserved(track) && |timecode| == 2
    requires i.keyframe == KeyframeUnknown && i.keyframeTrack == VarValue(track)
    ensures var e := Examine(i, BlockFront(size, track, timecode, flags) + t);
            e.Element? && e.info.keyframe == if flags / 128 == 1 then IsKeyframe else NotKeyframe
  {
    var p := Piece([0xA3], size, track + timecode + [flags]);
    assert BlockFront(size, track, timecode, flags) == Encode(p);
    BlockIdentifier();
    var tag := Parsed(1 + |size|, EbmlLayout.Read(size));
    ReadTag(p, t);
    MagicIs(p, t, CLUSTER_MAGIC);
    FirstByteIs(p, t, 0xA3);
    ExamineIs(i, Encode(p) + t, tag, p.body + t);
    BlockProbed(i, p.body, track, flags, t, tag.len + Payload(Encode(p) + t, tag));
    ReadSize(track);
    hide IsVarInt, Encode, HasMagic, Payload, Examine, ProbeBlock;
  }

  lemma BlockIdentifier()
    ensures IsVarInt([0xA3])
  {
    BigEndianOne(0xA3);
    PowValues();
  }

  lemma PieceShape(p: Piece, t: seq<byte>)
    requires Proper(p)
    ensures ShapeOf(Encode(p) + t) == Shape(IsCluster(p), |Encode(p)|)
  {
    hide IsVarInt, ParseTag, Payload, HasMagic, IsCluster, Encode, Proper, EbmlLayout.Read;
    PayloadIs(p, t);
    ReadTag(p, t);
  }

  lemma MarksPiece(off: nat, p: Piece, t: seq<byte>)
    requires Proper(p)
    ensures Marks(off, Encode(p) + t)
            == (if IsCluster(p) then [Mark(off, |Encode(p)|)] else []) + Marks(off + |Encode(p)|, t)
  {
    hide Proper, Encode, IsCluster, ShapeOf;
    PieceShape(p, t);
    assert (Encode(p) + t)[|Encode(p)|..] == t;
  }

  /** The Clusters of a stream are those of its elements. */
  lemma {:induction false} MarksEncoded(off: nat, ps: seq<Piece>, t: seq<byte>)
    requires AllProper(ps)
    ensures Marks(off, EncodeAll(ps) + t) == ClusterMarks(off, ps) + Marks(off + |EncodeAll(ps)|, t)
    decreases |ps|
  {
    hide Proper, Encode, IsCluster, Marks;
    if ps == [] {
      assert [] + t == t;
    } else {
      var p, rest := ps[0], EncodeAll(ps[1..]) + t;
      Associate(Encode(p), EncodeAll(ps[1..]), t);
      MarksPiece(off, p, rest);
      MarksEncoded(off + |Encode(p)|, ps[1..], t);
    }
  }

  /** The Cluster of a stream is met by the walk, behind the Clusters before it. */
  lemma ClusterFound(w: seq<byte>, pre: seq<Piece>, cluster: Piece, t: seq<byte>)
    requires AllProper(pre) && Proper(cluster) && IsCluster(cluster) && w == EncodeAll(pre) + (Encode(cluster) + t)
    ensures var m := Mark(|EncodeAll(pre)|, |Encode(cluster)|);
            ClusterMarks(0, pre) + [m] <= Marks(0, w) && m in Marks(0, w)
  {
    hide Proper, Encode, Marks, IsCluster;
    MarksEncoded(0, pre, Encode(cluster) + t);
    MarksPiece(|EncodeAll(pre)|, cluster, t);
    var m := Mark(|EncodeAll(pre)|, |Encode(cluster)|);
    assert (ClusterMarks(0, pre) + [m])[|ClusterMarks(0, pre)|] == m;
  }

  /** A chunk that reaches into the element behind `m` bytes was decided with that element examined. */
  lemma SettledBy(w: seq<byte>, a: nat, c: Chunk, m: nat)
    requires Decided(w, a, c) && a < m < a + |c.bytes| && m <= |w|
    requires var x := Scan(INITIAL_INFO, 0, w, m);
             && x.Some? && x.value.marks != [] && Last(x.value.marks).pos == a
             && var e := Examine(x.value.info, w[m..]);
                e.Element? ==> e.info.keyframe != KeyframeUnknown
    ensures var e := Examine(Scan(INITIAL_INFO, 0, w, m).value.info, w[m..]);
            e.Element? ==> (c.kind == ClusterStart <==> e.info.keyframe == IsKeyframe)
  {
    hide Examine, Scan;
    var n: nat :| Consulted(w, a, n, c.kind) && Reached(w, a + |c.bytes|, n);
    ScanGap(INITIAL_INFO, 0, w, m, n);
    ScanExtend(INITIAL_INFO, 0, w, m);
    var e := Examine(Scan(INITIAL_INFO, 0, w, m).value.info, w[m..]);
    if e.Element? {
      var ms := Scan(INITIAL_INFO, 0, w, m).value.marks;
      assert ms + [] == ms;
      ScanLonger(INITIAL_INFO, 0, w, m + e.size, n);
    }
  }

  /** A chunk that ends before the elements with an open status do was decided by an open status. */
  lemma OpenBy(w: seq<byte>, a: nat, c: Chunk, m: nat)
    requires Decided(w, a, c) && c.bytes != [] && a + |c.bytes| < m
    requires var x := Scan(INITIAL_INFO, 0, w, m);
             && x.Some? && x.value.marks != [] && Last(x.value.marks).pos == a
             && x.value.info.keyframe == KeyframeUnknown
    ensures c.kind == ClusterStart
  {
    hide Examine, Scan;
    var end := a + |c.bytes|;
    var n: nat :| Consulted(w, a, n, c.kind) && Reached(w, end, n);
    if n != end {
      var b: nat :| b <= end && Spans(w, b, n);
      ScanGap(INITIAL_INFO, 0, w, b, m);
    }
    ScanLonger(INITIAL_INFO, 0, w, n, m);
  }

  /** The chunk begins with this Cluster. */
  ghost predicate BeginsAt(s: Session, i: nat, pre: seq<Piece>) {
    i < |s.chunks| && ChunkAt(s, i) == |EncodeAll(pre)|
  }

  lemma ClusterChunk(events: seq<Event>, i: nat, pre: seq<Piece>, cluster: Piece, t: seq<byte>)
    requires Outcome(events).Some? && BeginsAt(Outcome(events).value, i, pre)
    requires AllProper(pre) && Proper(cluster) && IsCluster(cluster)
    requires Fed(events) == EncodeAll(pre) + (Encode(cluster) + t)
    ensures var c := Outcome(events).value.chunks[i];
            Decided(Fed(events), |EncodeAll(pre)|, c) && |c.bytes| >= |Encode(cluster)| >= 2
  {
    hide Marks, Outcome, Fed, Proper, Encode, Decided, IsCluster, ChunkAt;
    var s, w := Outcome(events).value, Fed(events);
    ClusterBoundaries(events);
    assert s.written == w by {
      var f := Reachable(events);
    }
    ClusterFound(w, pre, cluster, t);
    PieceSize(cluster);
    var a := |EncodeAll(pre)|;
    assert ChunkOk(w, Marks(0, w), ChunkAt(s, i), s.chunks[i]);
    assert StartsCluster(Marks(0, w), a);
  }

  /** A keyframe makes a sync point: in every run over a stream with a Cluster and, behind other elements but
      no further Cluster, the first SimpleBlock of the video track, the chunk that begins with the Cluster and
      reaches into that block is a sync point if and only if the keyframe bit of the block is set. */
  lemma KeyframeDecides(events: seq<Event>, i: nat, pre: seq<Piece>, cluster: Piece, mid: seq<Piece>, v: nat,
                        size: seq<byte>, track: seq<byte>, timecode: seq<byte>, flags: byte, rest: seq<byte>)
    requires Outcome(events).Some? && BeginsAt(Outcome(events).value, i, pre)
    requires ClusterIn(pre, cluster, mid) && VideoTrack(pre, v) && forall j :: 0 <= j < |mid| ==> !OfTrack(mid[j], v)
    requires IsVarInt(size) && IsVarInt(track) && VarValue(track) == v && !Reserved(track) && |timecode| == 2
    requires Fed(events)
             == EncodeAll(pre + [cluster] + mid) + (BlockFront(size, track, timecode, flags) + rest)
    requires |EncodeAll(pre + [cluster] + mid)|
             < |EncodeAll(pre)| + |Outcome(events).value.chunks[i].bytes|
    ensures Outcome(events).value.chunks[i].kind == ClusterStart <==> flags / 128 == 1
  {
    hide Outcome, Fed, Proper, Encode, Decided, VideoTrack, OfTrack, IsVarInt, Scan, Examine, LearnAll;
    var w, front := Fed(events), BlockFront(size, track, timecode, flags);
    var c, all := Outcome(events).value.chunks[i], pre + [cluster] + mid;
    ClusterWalked(w, pre, cluster, mid, front + rest);
    VideoNumber(pre, v);
    VideoLearned(pre, v);
    StatusOpen(LearnAll(INITIAL_INFO, pre).(keyframe := KeyframeUnknown), mid, v);
    EncodeParts(pre, cluster, mid);
    Associate(EncodeAll(pre) + Encode(cluster), EncodeAll(mid), front + rest);
    Associate(EncodeAll(pre), Encode(cluster), EncodeAll(mid) + (front + rest));
    ClusterChunk(events, i, pre, cluster, EncodeAll(mid) + (front + rest));
    PieceSize(cluster);
    assert w[|EncodeAll(all)|..] == front + rest;
    BlockFrontRead(Scan(INITIAL_INFO, 0, w, |EncodeAll(all)|).value.info, size, track, timecode, flags, rest);
    SettledBy(w, |EncodeAll(pre)|, c, |EncodeAll(all)|);
  }

  lemma VideoNumber(ps: seq<Piece>, v: nat)
    requires VideoTrack(ps, v)
    ensures v != UNKNOWN
  {
    var j: nat, k: nat :| VideoEntry(ps, v, j, k);
  }

  lemma EncodeParts(pre: seq<Piece>, cluster: Piece, mid: seq<Piece>)
    ensures EncodeAll(pre + [cluster] + mid) == EncodeAll(pre) + Encode(cluster) + EncodeAll(mid)
  {
    EncodeJoin(pre + [cluster], mid);
    EncodeJoin(pre, [cluster]);
    assert EncodeAll([cluster]) == Encode(cluster) + EncodeAll([cluster][1..]);
  }

  /** No element of the Cluster up to here is a SimpleBlock of the video track, or there is no video track. */
  ghost predicate NoVideo(pre: seq<Piece>, mid: seq<Piece>) {
    || (exists v :: VideoTrack(pre, v) && forall j :: 0 <= j < |mid| ==> !OfTrack(mid[j], v))
    || ((forall j :: 0 <= j < |pre| ==> !IsOdd(pre[j]))
        && forall j :: 0 <= j < |mid| ==> !IsOdd(mid[j]) && !OfNoTrack(mid[j]))
  }

  lemma NoVideoOpen(pre: seq<Piece>, mid: seq<Piece>)
    requires NoVideo(pre, mid) && AllProper(mid) && forall j :: 0 <= j < |mid| ==> !IsCluster(mid[j])
    ensures LearnAll(LearnAll(INITIAL_INFO, pre).(keyframe := KeyframeUnknown), mid).keyframe == KeyframeUnknown
  {
    hide LearnAll, VideoTrack, OfTrack, OfNoTrack, IsOdd, IsCluster, Proper;
    var i := LearnAll(INITIAL_INFO, pre).(keyframe := KeyframeUnknown);
    if v :| VideoTrack(pre, v) && forall j :: 0 <= j < |mid| ==> !OfTrack(mid[j], v) {
      VideoNumber(pre, v);
      VideoLearned(pre, v);
      StatusOpen(i, mid, v);
    } else {
      NoTrackYet(INITIAL_INFO, pre);
      StatusOpenForGood(i, mid);
    }
  }

  /** In doubt a Cluster is a sync point: in every run, a chunk that begins with a Cluster and ends within
      elements of which none is a block of the video track. */
  lemma OpenIsSyncPoint(events: seq<Event>, i: nat, pre: seq<Piece>, cluster: Piece, mid: seq<Piece>, rest: seq<byte>)
    requires Outcome(events).Some? && BeginsAt(Outcome(events).value, i, pre)
    requires ClusterIn(pre, cluster, mid) && NoVideo(pre, mid)
    requires Fed(events) == EncodeAll(pre + [cluster] + mid) + rest
    requires |EncodeAll(pre)| + |Outcome(events).value.chunks[i].bytes| < |EncodeAll(pre + [cluster] + mid)|
    ensures Outcome(events).value.chunks[i].kind == ClusterStart
  {
    hide Outcome, Fed, Proper, Encode, Decided, NoVideo, Scan, LearnAll, IsCluster;
    var w, c := Fed(events), Outcome(events).value.chunks[i];
    EncodeParts(pre, cluster, mid);
    Associate(EncodeAll(pre) + Encode(cluster), EncodeAll(mid), rest);
    Associate(EncodeAll(pre), Encode(cluster), EncodeAll(mid) + rest);
    ClusterChunk(events, i, pre, cluster, EncodeAll(mid) + rest);
    // an element may wait for one more byte; the stream with it has the same chunks
    var more := w + [0];
    Associate(EncodeAll(pre + [cluster] + mid), rest, [0]);
    DecidedStays(w, more, |EncodeAll(pre)|, c);
    ClusterWalked(more, pre, cluster, mid, rest + [0]);
    NoVideoOpen(pre, mid);
    OpenBy(more, |EncodeAll(pre)|, c, |EncodeAll(pre + [cluster] + mid)|);
  }

  // ---------------------------------------------------------------- the header and the chunks

  /** The header is what comes before the first Cluster, and is handed out whole. */
  lemma HeaderIs(events: seq<Event>, pre: seq<Piece>, cluster: Piece, rest: seq<byte>)
    requires Outcome(events).Some? && AllProper(pre) && Proper(cluster) && IsCluster(cluster)
    requires forall j :: 0 <= j < |pre| ==> !IsCluster(pre[j])
    requires Fed(events) == EncodeAll(pre) + (Encode(cluster) + rest)
    ensures var s := Outcome(events).value;
            s.p.header == EncodeAll(pre) && (s.published == [] || s.published == EncodeAll(pre))
            && (s.chunks != [] ==> s.published == EncodeAll(pre))
  {
    hide Outcome, Fed, Proper, Encode, Marks, IsCluster;
    var w := Fed(events);
    HeaderIsPrefix(events);
    ClusterFound(w, pre, cluster, rest);
    NoMarks(0, pre);
    assert Marks(0, w)[0] == (ClusterMarks(0, pre) + [Mark(|EncodeAll(pre)|, |Encode(cluster)|)])[0];
    assert w[..|EncodeAll(pre)|] == EncodeAll(pre);
    Conservation(events);
  }

  /** Every Cluster that has been handed out begins a chunk, which holds its whole tag. */
  lemma ClusterBeginsChunk(events: seq<Event>, pre: seq<Piece>, cluster: Piece, rest: seq<byte>) returns (i: nat)
    requires Outcome(events).Some? && AllProper(pre) && Proper(cluster) && IsCluster(cluster)
    requires Fed(events) == EncodeAll(pre) + (Encode(cluster) + rest)
    requires |EncodeAll(pre)| < Out(Outcome(events).value)
    ensures BeginsAt(Outcome(events).value, i, pre)
    ensures |Outcome(events).value.chunks[i].bytes| >= |Encode(cluster)|
  {
    hide Outcome, Fed, Proper, Encode, Marks, IsCluster, Out, ChunksOk, ChunkAt, Decided;
    var w, s := Fed(events), Outcome(events).value;
    ClusterBoundaries(events);
    ClusterFound(w, pre, cluster, rest);
    assert Mark(|EncodeAll(pre)|, |Encode(cluster)|).pos < Out(s);
    assert OpensChunk(s, |EncodeAll(pre)|);
    i :| 0 <= i < |s.chunks| && ChunkAt(s, i) == |EncodeAll(pre)|;
    ClusterChunk(events, i, pre, cluster, rest);
  }

  lemma {:induction false} MarkIsCluster(off: nat, ps: seq<Piece>, m: Mark)
    requires m in ClusterMarks(off, ps)
    ensures exists j :: 0 <= j < |ps| && IsCluster(ps[j]) && m.pos == off + |EncodeAll(ps[..j])|
    decreases |ps|
  {
    hide Encode, IsCluster;
    var p := ps[0];
    if IsCluster(p) && m == Mark(off, |Encode(p)|) {
      assert ps[..0] == [];
    } else {
      MarkIsCluster(off + |Encode(p)|, ps[1..], m);
      var j :| 0 <= j < |ps[1..]| && IsCluster(ps[1..][j]) && m.pos == off + |Encode(p)| + |EncodeAll(ps[1..][..j])|;
      assert ps[1..][j] == ps[j + 1] && ps[..j + 1][1..] == ps[1..][..j] && ps[..j + 1][0] == p;
      assert EncodeAll(ps[..j + 1]) == Encode(p) + EncodeAll(ps[1..][..j]);
    }
  }

  /** A chunk that does not begin with a Cluster is not a sync point. */
  lemma OthersContinue(events: seq<Event>, i: nat, ps: seq<Piece>, rest: seq<byte>)
    requires Outcome(events).Some? && i < |Outcome(events).value.chunks|
    requires AllProper(ps) && Fed(events) == EncodeAll(ps) + rest
    requires ChunkAt(Outcome(events).value, i) < |EncodeAll(ps)|
    requires forall j :: 0 <= j < |ps| && IsCluster(ps[j]) ==>
               !BeginsAt(Outcome(events).value, i, ps[..j])
    ensures Outcome(events).value.chunks[i].kind == ClusterContinue
  {
    hide Outcome, Fed, Proper, Marks, IsCluster, Decided, Aligned, ChunkAt;
    var s, w := Outcome(events).value, Fed(events);
    var a := ChunkAt(s, i);
    ClusterBoundaries(events);
    MarksEncoded(0, ps, rest);
    MarksBeyond(|EncodeAll(ps)|, rest);
    forall m | m in Marks(0, w)
      ensures m.pos != a
    {
      if m in ClusterMarks(0, ps) {
        MarkIsCluster(0, ps, m);
        var j :| 0 <= j < |ps| && IsCluster(ps[j]) && m.pos == 0 + |EncodeAll(ps[..j])|;
        assert !BeginsAt(s, i, ps[..j]);
      }
    }
    assert ChunkOk(s.written, Marks(0, w), a, s.chunks[i]);
  }

  // ---------------------------------------------------------------- which streams are accepted

  /** An identifier and a size that no body fits: a TrackNumber or TrackType of no bytes, more than eight or an
      unknown number, or a SimpleBlock whose track integer has no length marker. */
  ghost predicate Unfit(id: seq<byte>, size: seq<byte>, rest: seq<byte>) {
    || ((id == [0xD7] || id == [0x83]) && (Reserved(size) || VarValue(size) == 0 || VarValue(size) > 8))
    || (id == [0xA3] && rest != [] && rest[0] == 0)
  }

  /** An identifier or a size without a length marker, or an unfit body. */
  ghost predicate Garbled(s: seq<byte>) {
    || (s != [] && s[0] == 0)
    || (exists k :: 0 < k < |s| && IsVarInt(s[..k]) && s[k] == 0)
    || (exists k, n :: 0 < k < n <= |s| && IsVarInt(s[..k]) && IsVarInt(s[k..n]) && Unfit(s[..k], s[k..n], s[n..]))
  }

  /** The walk comes to an element with a malformed integer, and stops there. */
  ghost predicate MalformedAt(w: seq<byte>, k: nat) {
    && k <= |w| && Garbled(w[k..])
    && var x := Scan(INITIAL_INFO, 0, w, k); x.Some? && Examine(x.value.info, w[k..]) == Bad
  }

  ghost predicate Malformed(w: seq<byte>) {
    exists k: nat :: MalformedAt(w, k)
  }

  /** There are `k` bytes of elements, more than 131072, without a Cluster. */
  ghost predicate OversizedBy(w: seq<byte>, k: nat) {
    131072 < |w| && 131072 < k && var x := Scan(INITIAL_INFO, 0, w, k); x.Some? && x.value.marks == []
  }

  ghost predicate Oversized(w: seq<byte>) {
    exists k: nat :: OversizedBy(w, k)
  }

  lemma StepFails(s: Session, f: Scanned)
    requires Inv(s, f) && Step(s.p) == Fail
    ensures Malformed(s.written) || Oversized(s.written)
  {
    hide Examine, Scan, ChunksOk, Pending, Begun, Garbled;
    if s.p.Copying() {
      assert OversizedBy(s.written, Frontier(s));
    } else {
      FrontierInput(s);
      BadIsGarbled(s.p.info, s.p.input);
      assert MalformedAt(s.written, Frontier(s));
    }
  }

  lemma {:induction false} RunFails(s: Session, f: Scanned)
    requires Inv(s, f) && Run(s.p).None?
    ensures Malformed(s.written) || Oversized(s.written)
    decreases |s.p.input|, Rank(s.p.phase)
  {
    hide Step, Tracked, ChunksOk, HeaderStage, Pending, Conserved, Parser.Valid, Begun, Malformed, Oversized;
    StepKeepsValid(s.p);
    if Step(s.p) == Fail {
      StepFails(s, f);
    } else {
      var g := StepKeeps(s, f);
      RunFails(s.(p := Step(s.p).p), g);
    }
  }

  /** A slice that fits is rejected only for a malformed integer, or for more than 131072 bytes of elements
      before any Cluster. */
  lemma FailsOnlyIf(events: seq<Event>, bytes: seq<byte>)
    requires Outcome(events).Some? && |bytes| <= 4096 - |Outcome(events).value.p.input|
    requires ApplyFeed(Outcome(events).value, bytes).None?
    ensures Malformed(Fed(events) + bytes) || Oversized(Fed(events) + bytes)
  {
    hide Outcome, Fed, Run, Tracked, ChunksOk, HeaderStage, Pending, Conserved, Parser.Valid, Begun;
    hide Malformed, Oversized;
    var f := Reachable(events);
    var s := Outcome(events).value;
    FillKeeps(s, f, bytes);
    RunFails(Fill(s, bytes), f);
  }

  lemma NothingThere(i: Info)
    ensures Examine(i, []) == Unclear
  {
  }

  /** Wherever the walk comes to, there is an element of the stream. */
  lemma {:induction false} NeverBad(i: Info, off: nat, ps: seq<Piece>, t: seq<byte>, k: nat)
    requires AllProper(ps) && t != [] && k < |EncodeAll(ps)| && Scan(i, off, EncodeAll(ps) + t, k).Some?
    ensures Examine(Scan(i, off, EncodeAll(ps) + t, k).value.info, (EncodeAll(ps) + t)[k..]) != Bad
    decreases |ps|
  {
    hide Examine, Encode, Proper, Learn;
    var p, rest, s := ps[0], EncodeAll(ps[1..]) + t, EncodeAll(ps) + t;
    Associate(Encode(p), EncodeAll(ps[1..]), t);
    PieceLearned(i, p, rest);
    assert s[|Encode(p)|..] == rest;
    if k == 0 {
      assert s[0..] == s;
    } else {
      assert rest[k - |Encode(p)|..] == s[k..];
      NeverBad(Learn(i, p), off + |Encode(p)|, ps[1..], t, k - |Encode(p)|);
    }
  }

  /** The stream so far is the beginning of well laid out elements. */
  ghost predicate Begins(w: seq<byte>, ps: seq<Piece>) {
    AllProper(ps) && w <= EncodeAll(ps)
  }

  lemma NotMalformed(w: seq<byte>, ps: seq<Piece>)
    requires Begins(w, ps)
    ensures !Malformed(w)
  {
    hide Examine, Scan, Proper, Garbled;
    if k: nat :| MalformedAt(w, k) {
      NothingThere(Scan(INITIAL_INFO, 0, w, k).value.info);
      var t := EncodeAll(ps)[|w|..] + [0];
      assert EncodeAll(ps) + [0] == w + t;
      ScanStable(INITIAL_INFO, 0, w, k, t);
      assert (w + t)[k..] == w[k..] + t;
      ExamineStable(Scan(INITIAL_INFO, 0, w, k).value.info, w[k..], t);
      NeverBad(INITIAL_INFO, 0, ps, [0], k);
    }
  }

  lemma NotOversized(w: seq<byte>, ps: seq<Piece>, j: nat)
    requires Begins(w, ps) && j < |ps| && IsCluster(ps[j]) && |EncodeAll(ps[..j])| <= 131072
    ensures !Oversized(w)
  {
    hide Scan, Marks, Proper, Encode, IsCluster;
    if k: nat :| OversizedBy(w, k) {
      var t := EncodeAll(ps)[|w|..];
      ScanStable(INITIAL_INFO, 0, w, k, t);
      MarksSplit(INITIAL_INFO, 0, w + t, k);
      if k <= |w + t| {
        MarksBeyond(k, (w + t)[k..]);
      }
      assert w + t == EncodeAll(ps) && ps == ps[..j] + [ps[j]] + ps[j + 1..];
      EncodeParts(ps[..j], ps[j], ps[j + 1..]);
      Associate(EncodeAll(ps[..j]), Encode(ps[j]), EncodeAll(ps[j + 1..]));
      ClusterFound(w + t, ps[..j], ps[j], EncodeAll(ps[j + 1..]));
    }
  }

  /** Every well laid out stream with at most 131072 bytes before its first Cluster is accepted, slice by slice. */
  lemma WellFormedAccepted(events: seq<Event>, bytes: seq<byte>, ps: seq<Piece>)
    requires Outcome(events).Some? && |bytes| <= 4096 - |Outcome(events).value.p.input|
    requires Begins(Fed(events) + bytes, ps)
    requires || |Fed(events) + bytes| <= 131072
             || exists j :: 0 <= j < |ps| && IsCluster(ps[j]) && |EncodeAll(ps[..j])| <= 131072
    ensures ApplyFeed(Outcome(events).value, bytes).Some?
  {
    hide Outcome, Fed, Begins, IsCluster, ApplyFeed;
    var w := Fed(events) + bytes;
    NotMalformed(w, ps);
    if j :| 0 <= j < |ps| && IsCluster(ps[j]) && |EncodeAll(ps[..j])| <= 131072 {
      NotOversized(w, ps, j);
    }
    if ApplyFeed(Outcome(events).value, bytes).None? {
      FailsOnlyIf(events, bytes);
    }
  }

  /** No other stream is: a run that has come to the first Cluster had at most 131072 bytes before it. */
  lemma HeaderFits(events: seq<Event>, pre: seq<Piece>, cluster: Piece, rest: seq<byte>)
    requires Outcome(events).Some? && AllProper(pre) && Proper(cluster) && IsCluster(cluster)
    requires forall j :: 0 <= j < |pre| ==> !IsCluster(pre[j])
    requires Fed(events) == EncodeAll(pre) + (Encode(cluster) + rest)
    ensures |EncodeAll(pre)| <= 131072
  {
    hide Outcome, Fed, Proper, Encode, IsCluster;
    HeaderIs(events, pre, cluster, rest);
    assert Outcome(events).value.p.Valid();
  }

  lemma VarIntParsed(s: seq<byte>)
    ensures ParseVarInt(s).Corrupt? ==> s != [] && s[0] == 0
    ensures ParseVarInt(s).Parsed? ==>
              var w := ParseVarInt(s).len;
              1 <= w <= 8 && w <= |s| && IsVarInt(s[..w]) && ParseVarInt(s).value == EbmlLayout.Read(s[..w])
  {
    if ParseVarInt(s).Parsed? {
      var w := ParseVarInt(s).len;
      VarIntMeaning(s, w);
    }
  }

  /** What is rejected as malformed is. */
  lemma BadIsGarbled(i: Info, s: seq<byte>)
    requires Examine(i, s) == Bad
    ensures Garbled(s)
  {
    hide IsVarInt, ParseVarInt, HasMagic;
    VarIntParsed(s);
    var t := ParseVarInt(s);
    if t.Parsed? {
      VarIntParsed(s[t.len..]);
      var z := ParseVarInt(s[t.len..]);
      if z.Parsed? {
        var n := t.len + z.len;
        assert s[t.len..][..z.len] == s[t.len..n];
        ProbeIsUnfit(i, s, t.len, n);
      }
    }
  }

  lemma ProbeIsUnfit(i: Info, s: seq<byte>, k: nat, n: nat)
    requires 0 < k < n <= |s| && IsVarInt(s[..k]) && IsVarInt(s[k..n])
    requires var tag := Parsed(n, EbmlLayout.Read(s[k..n]));
             Probe(i, s[0], s[n..], Payload(s, tag), n + Payload(s, tag)) == Bad
    ensures Unfit(s[..k], s[k..n], s[n..])
  {
    VarIntLength(s[..k]);
    ReadSize(s[k..n]);
    VarIntParsed(s[n..]);
    hide IsVarInt, ParseVarInt;
    assert s[0] >= 0x80 ==> s[..k] == [s[0]];
  }
}
