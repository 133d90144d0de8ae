/** The layout of a Matroska stream, byte by byte (RFC 8794 and RFC 9559): elements of identifier, size and body,
    the ones whose children follow as elements of their own, the track entries, Clusters and SimpleBlocks. The
    walk over encoded elements finds them again. */
module EbmlLayout {
  import opened Bytes
  import opened EbmlTags
  import opened EbmlWalk

  // ---------------------------------------------------------------- the format

  /** A variable-length integer: of its 8 w bits the first w - 1 are 0, the next is 1, the rest its value. */
  ghost predicate IsVarInt(s: seq<byte>) {
    1 <= |s| <= 8 && Pow(128, |s|) <= BigEndian(s) < 2 * Pow(128, |s|)
  }

  function VarValue(s: seq<byte>): int {
    BigEndian(s) - Pow(128, |s|)
  }

  /** All value bits are set. */
  predicate Reserved(s: seq<byte>) {
    VarValue(s) == Pow(128, |s|) - 1
  }

  datatype Piece = Piece(id: seq<byte>, size: seq<byte>, body: seq<byte>)

  predicate IsCluster(p: Piece) {
    p.id == [0x1F, 0x43, 0xB6, 0x75]
  }

  predicate IsEntry(p: Piece) {
    p.id == [0xAE]
  }

  predicate IsNumber(p: Piece) {
    p.id == [0xD7]
  }

  predicate IsType(p: Piece) {
    p.id == [0x83]
  }

  predicate IsBlock(p: Piece) {
    p.id == [0xA3]
  }

  /** A Cluster, a Segment, a Tracks or a TrackEntry element, or one of unknown size. */
  predicate IsOpen(p: Piece) {
    || IsCluster(p) || IsEntry(p) || p.id == [0x18, 0x53, 0x80, 0x67] || p.id == [0x16, 0x54, 0xAE, 0x6B]
    || Reserved(p.size)
  }

  /** The body of a SimpleBlock: the track it belongs to, two bytes of timecode, the flags, the frame. */
  ghost predicate IsBlockBody(track: seq<byte>, flags: byte, body: seq<byte>) {
    IsVarInt(track) && |body| >= |track| + 3 && body[..|track|] == track && body[|track| + 2] == flags
  }

  /** An element with its body, or the tag of one whose children come behind it as elements. */
  ghost predicate Proper(p: Piece) {
    && IsVarInt(p.id) && IsVarInt(p.size)
    && |p.body| == (if IsOpen(p) then 0 else VarValue(p.size))
    && (IsNumber(p) || IsType(p) ==> 1 <= |p.body| <= 8)
    && (IsBlock(p) ==> exists track, flags :: IsBlockBody(track, flags, p.body))
  }

  function Encode(p: Piece): seq<byte> {
    p.id + p.size + p.body
  }

  function EncodeAll(ps: seq<Piece>): seq<byte> {
    if ps == [] then [] else Encode(ps[0]) + EncodeAll(ps[1..])
  }

  ghost predicate AllProper(ps: seq<Piece>) {
    forall i :: 0 <= i < |ps| ==> Proper(ps[i])
  }

  /** A SimpleBlock of the track. */
  ghost predicate OfTrack(p: Piece, v: nat) {
    IsBlock(p) && exists track, flags :: IsBlockBody(track, flags, p.body) && VarValue(track) == v && !Reserved(track)
  }

  predicate IsOdd(p: Piece) {
    IsType(p) && BigEndian(p.body) % 2 == 1
  }

  /** The elements between `j` and `k` are the children of the first TrackEntry with an odd TrackType, and `v`
      is its TrackNumber. */
  ghost predicate VideoEntry(ps: seq<Piece>, v: nat, j: nat, k: nat) {
    && j < k <= |ps| && IsEntry(ps[j]) && v < 0xFFFF_FFFF_FFFF_FFFF
    && (forall i :: 0 <= i < j ==> !IsOdd(ps[i]))
    && (forall i :: j < i < k ==> !IsEntry(ps[i]))
    && (forall i :: j < i < k && IsNumber(ps[i]) ==> BigEndian(ps[i].body) == v)
    && (exists i :: j < i < k && IsNumber(ps[i]))
    && (exists i :: j < i < k && IsOdd(ps[i]))
  }

  ghost predicate VideoTrack(ps: seq<Piece>, v: nat) {
    exists j: nat, k: nat :: VideoEntry(ps, v, j, k)
  }

  // ---------------------------------------------------------------- reading it back

  function Read(s: seq<byte>): nat {
    if Reserved(s) then UNKNOWN else if VarValue(s) >= 0 then VarValue(s) else 0
  }

  lemma ReadVarInt(s: seq<byte>, t: seq<byte>)
    requires IsVarInt(s)
    ensures ParseVarInt(s + t) == Parsed(|s|, Read(s))
  {
    assert (s + t)[..|s|] == s;
    VarIntMeaning(s + t, |s|);
  }

  lemma ReadTag(p: Piece, t: seq<byte>)
    requires IsVarInt(p.id) && IsVarInt(p.size)
    ensures ParseTag(Encode(p) + t) == Parsed(|p.id| + |p.size|, Read(p.size))
    ensures (Encode(p) + t)[|p.id| + |p.size|..] == p.body + t && |Encode(p)| == |p.id| + |p.size| + |p.body|
  {
    hide IsVarInt, ParseVarInt;
    var s := Encode(p) + t;
    assert s == p.id + (p.size + (p.body + t));
    ReadVarInt(p.id, p.size + (p.body + t));
    assert s[|p.id|..] == p.size + (p.body + t);
    ReadVarInt(p.size, p.body + t);
    assert |p.id| >= 1 by {
      VarIntLength(p.id);
    }
  }

  lemma VarIntLength(s: seq<byte>)
    requires IsVarInt(s)
    ensures 1 <= |s| <= 8 && Width(s[0]) == |s|
  {
    ReadVarInt(s, []);
    assert s + [] == s;
  }

  /** An identifier is recognised by its bytes. */
  lemma MagicIs(p: Piece, t: seq<byte>, magic: seq<byte>)
    requires IsVarInt(p.id) && IsVarInt(p.size) && |magic| == 4 && Width(magic[0]) == 4
    ensures |p.id| + |p.size| > 4 && HasMagic(Encode(p) + t, magic) <==> p.id == magic
  {
    VarIntLength(p.id);
    VarIntLength(p.size);
    hide IsVarInt, Width;
    var s := Encode(p) + t;
    assert forall k :: 0 <= k < |p.id| ==> s[k] == p.id[k];
    if HasMagic(s, magic) {
      assert |p.id| == 4;
    }
  }

  lemma FirstByteIs(p: Piece, t: seq<byte>, b: byte)
    requires IsVarInt(p.id) && b >= 0x80
    ensures |Encode(p) + t| > 0 && ((Encode(p) + t)[0] == b <==> p.id == [b])
  {
    VarIntLength(p.id);
    assert (Encode(p) + t)[0] == p.id[0];
    if p.id[0] == b {
      assert Width(b) == 1;
    }
  }

  lemma Kinds(p: Piece, t: seq<byte>)
    requires Proper(p)
    ensures var s := Encode(p) + t;
            && |s| > 0 && (s[0] == SIMPLE_BLOCK_MAGIC <==> IsBlock(p)) && (s[0] == TRACK_ENTRY_MAGIC <==> IsEntry(p))
            && (s[0] == TRACK_NUMBER_MAGIC <==> IsNumber(p)) && (s[0] == TRACK_TYPE_MAGIC <==> IsType(p))
  {
    hide IsVarInt, Encode;
    FirstByteIs(p, t, 0xA3);
    FirstByteIs(p, t, 0xAE);
    FirstByteIs(p, t, 0xD7);
    FirstByteIs(p, t, 0x83);
  }

  lemma PayloadIs(p: Piece, t: seq<byte>)
    requires Proper(p)
    ensures |Encode(p) + t| > 0
    ensures |p.id| + |p.size| > 4 && HasMagic(Encode(p) + t, CLUSTER_MAGIC) <==> IsCluster(p)
    ensures !IsCluster(p) ==> Payload(Encode(p) + t, Parsed(|p.id| + |p.size|, Read(p.size))) == |p.body|
    ensures IsVarInt(p.id) && IsVarInt(p.size) && (IsCluster(p) ==> p.body == [])
  {
    VarIntLength(p.id);
    VarIntLength(p.size);
    MagicIs(p, t, SEGMENT_MAGIC);
    MagicIs(p, t, TRACKS_MAGIC);
    MagicIs(p, t, CLUSTER_MAGIC);
    Kinds(p, t);
    ReadSize(p.size);
    hide IsVarInt, Encode, HasMagic, Width, IsBlockBody, Read;
  }

  lemma ReadSize(s: seq<byte>)
    requires IsVarInt(s)
    ensures Read(s) == UNKNOWN <==> Reserved(s)
    ensures !Reserved(s) ==> Read(s) == VarValue(s)
  {
    PowValues();
  }

  // ---------------------------------------------------------------- what an element teaches

  function LearnBlock(i: Info, body: seq<byte>): Info {
    var t := ParseVarInt(body);
    if i.keyframe == KeyframeUnknown && t.Parsed? && t.value == i.keyframeTrack && t.len + 2 < |body|
    then i.(keyframe := if body[t.len + 2] >= 128 then IsKeyframe else NotKeyframe) else i
  }

  function Learn(i: Info, p: Piece): Info {
    if IsCluster(p) then i.(keyframe := KeyframeUnknown)
    else if IsBlock(p) then LearnBlock(i, p.body)
    else if IsEntry(p) then i.(parsingTrack := UNKNOWN, parsingIsVideo := false)
    else if IsNumber(p) then CheckTrack(i.(parsingTrack := BigEndian(p.body)))
    else if IsOdd(p) then CheckTrack(i.(parsingIsVideo := true))
    else i
  }

  lemma BlockProbed(i: Info, body: seq<byte>, track: seq<byte>, flags: byte, t: seq<byte>, size: nat)
    requires IsBlockBody(track, flags, body)
    ensures ProbeBlock(i, body + t, size) == Element(size, LearnBlock(i, body))
    ensures ParseVarInt(body) == Parsed(|track|, Read(track)) && |track| + 2 < |body| && body[|track| + 2] == flags
  {
    var rest := body[|track|..];
    assert body == track + rest && body + t == track + (rest + t);
    ReadVarInt(track, rest);
    ReadVarInt(track, rest + t);
  }

  lemma NumberProbed(i: Info, body: seq<byte>, t: seq<byte>, size: nat, isType: bool)
    requires 1 <= |body| <= 8 && t != []
    ensures ProbeTrack(i, body + t, |body|, size, isType)
            == Element(size, if !isType then CheckTrack(i.(parsingTrack := BigEndian(body)))
                             else if BigEndian(body) % 2 == 1 then CheckTrack(i.(parsingIsVideo := true)) else i)
  {
    assert (body + t)[..|body|] == body;
  }

  /** Something must follow a number before it is read. */
  predicate Behind(p: Piece, t: seq<byte>) {
    IsNumber(p) || IsType(p) ==> t != []
  }

  lemma PieceProbed(i: Info, p: Piece, t: seq<byte>, size: nat)
    requires Proper(p) && !IsCluster(p) && Behind(p, t)
    ensures |Encode(p) + t| > 0
    ensures Probe(i, (Encode(p) + t)[0], p.body + t, |p.body|, size) == Element(size, Learn(i, p))
  {
    Kinds(p, t);
    hide IsVarInt, ProbeBlock, ProbeTrack, Encode, LearnBlock, CheckTrack;
    if IsBlock(p) {
      var track, flags :| IsBlockBody(track, flags, p.body);
      BlockProbed(i, p.body, track, flags, t, size);
    } else if IsNumber(p) {
      NumberProbed(i, p.body, t, size, false);
    } else if IsType(p) {
      NumberProbed(i, p.body, t, size, true);
    }
  }

  lemma ExamineIs(i: Info, s: seq<byte>, tag: Parse, rest: seq<byte>)
    requires ParseTag(s) == tag && tag.Parsed? && |s| > 0 && s[tag.len..] == rest
    ensures Examine(i, s)
            == if tag.len > 4 && HasMagic(s, CLUSTER_MAGIC) then Cluster(tag.len)
               else Probe(i, s[0], rest, Payload(s, tag), tag.len + Payload(s, tag))
  {
    hide ParseTag, Payload, Probe, HasMagic;
  }

  /** The walk finds an encoded element, whatever follows it. */
  lemma PieceExamined(i: Info, p: Piece, t: seq<byte>)
    requires Proper(p) && Behind(p, t)
    ensures Examine(i, Encode(p) + t)
            == if IsCluster(p) then Cluster(|Encode(p)|) else Element(|Encode(p)|, Learn(i, p))
  {
    hide Examine, IsVarInt, ParseTag, Payload, Probe, HasMagic, Learn, IsCluster, Behind, Encode, Proper, Read;
    PayloadIs(p, t);
    ReadTag(p, t);
    ExamineIs(i, Encode(p) + t, Parsed(|p.id| + |p.size|, Read(p.size)), p.body + t);
    if !IsCluster(p) {
      PieceProbed(i, p, t, |Encode(p)|);
    }
  }

  lemma PieceLearned(i: Info, p: Piece, t: seq<byte>)
    requires Proper(p) && Behind(p, t)
    ensures var e := Examine(i, Encode(p) + t);
            && Clear(e) && e.size == |Encode(p)| && InfoAfter(i, e) == Learn(i, p) && (e.Cluster? <==> IsCluster(p))
  {
    hide Examine, Proper, Encode;
    PieceExamined(i, p, t);
  }

  // ---------------------------------------------------------------- the walk over encoded elements

  function LearnAll(i: Info, ps: seq<Piece>): Info
    decreases |ps|
  {
    if ps == [] then i else LearnAll(Learn(i, ps[0]), ps[1..])
  }

  function ClusterMarks(off: nat, ps: seq<Piece>): seq<Mark>
    decreases |ps|
  {
    if ps == [] then []
    else
      (if IsCluster(ps[0]) then [Mark(off, |Encode(ps[0])|)] else []) + ClusterMarks(off + |Encode(ps[0])|, ps[1..])
  }

  lemma {:induction false} Scanning(i: Info, off: nat, ps: seq<Piece>, t: seq<byte>)
    requires AllProper(ps) && t != []
    ensures Scan(i, off, EncodeAll(ps) + t, |EncodeAll(ps)|) == Some(Scanned(LearnAll(i, ps), ClusterMarks(off, ps)))
    decreases |ps|
  {
    hide Examine, Encode, Proper, Learn;
    if ps != [] {
      var p, rest := ps[0], EncodeAll(ps[1..]);
      assert EncodeAll(ps) + t == Encode(p) + (rest + t);
      PieceLearned(i, p, rest + t);
      assert (EncodeAll(ps) + t)[|Encode(p)|..] == rest + t;
      Scanning(Learn(i, p), off + |Encode(p)|, ps[1..], t);
      var e := Examine(i, Encode(p) + (rest + t));
      var x := Scanned(LearnAll(Learn(i, p), ps[1..]), ClusterMarks(off + |Encode(p)|, ps[1..]));
      ScanStep(i, off, EncodeAll(ps) + t, e, x, |rest|);
    }
  }

  /** The walk takes one element and goes on. */
  lemma {:induction false} ScanStep(i: Info, off: nat, s: seq<byte>, e: Exam, x: Scanned, n: nat)
    requires e == Examine(i, s) && Clear(e) && e.size <= |s|
    requires Scan(InfoAfter(i, e), off + e.size, s[e.size..], n) == Some(x)
    ensures Scan(i, off, s, e.size + n) == Some(Scanned(x.info, MarkOf(off, e) + x.marks))
  {
    hide Examine, MarkOf, InfoAfter;
    assert e.size > 0;
    if n == 0 {
      assert MarkOf(off, e) + [] == MarkOf(off, e);
    }
  }

  lemma PieceSize(p: Piece)
    requires Proper(p)
    ensures |Encode(p)| >= 2
  {
    VarIntLength(p.id);
    VarIntLength(p.size);
  }

  lemma NothingEncoded(ps: seq<Piece>)
    requires AllProper(ps) && EncodeAll(ps) == []
    ensures ps == []
  {
    if ps != [] {
      PieceSize(ps[0]);
    }
  }

  lemma {:induction false} EncodeJoin(a: seq<Piece>, b: seq<Piece>)
    ensures EncodeAll(a + b) == EncodeAll(a) + EncodeAll(b)
    decreases |a|
  {
    hide Encode;
    if a == [] {
      assert a + b == b;
    } else {
      assert (a + b)[1..] == a[1..] + b;
      EncodeJoin(a[1..], b);
    }
  }

  lemma {:induction false} LearnJoin(i: Info, a: seq<Piece>, b: seq<Piece>)
    ensures LearnAll(i, a + b) == LearnAll(LearnAll(i, a), b)
    decreases |a|
  {
    hide Learn;
    if a == [] {
      assert a + b == b;
    } else {
      assert (a + b)[1..] == a[1..] + b;
      LearnJoin(Learn(i, a[0]), a[1..], b);
    }
  }

  lemma {:induction false} MarksJoin(off: nat, a: seq<Piece>, b: seq<Piece>)
    ensures ClusterMarks(off, a + b) == ClusterMarks(off, a) + ClusterMarks(off + |EncodeAll(a)|, b)
    decreases |a|
  {
    hide Encode, IsCluster;
    if a == [] {
      assert a + b == b;
    } else {
      assert (a + b)[1..] == a[1..] + b;
      var next := off + |Encode(a[0])|;
      MarksJoin(next, a[1..], b);
      JoinMarks(if IsCluster(a[0]) then [Mark(off, |Encode(a[0])|)] else [], ClusterMarks(next, a[1..]),
        ClusterMarks(off + |EncodeAll(a)|, b));
    }
  }

  // ---------------------------------------------------------------- the video track

  lemma {:induction false} TrackStays(i: Info, ps: seq<Piece>)
    requires i.keyframeTrack != UNKNOWN
    ensures LearnAll(i, ps).keyframeTrack == i.keyframeTrack
    decreases |ps|
  {
    if ps != [] {
      TrackStays(Learn(i, ps[0]), ps[1..]);
    }
  }

  lemma {:induction false} NoTrackYet(i: Info, ps: seq<Piece>)
    requires i.keyframeTrack == UNKNOWN && !i.parsingIsVideo && forall j :: 0 <= j < |ps| ==> !IsOdd(ps[j])
    ensures LearnAll(i, ps).keyframeTrack == UNKNOWN && !LearnAll(i, ps).parsingIsVideo
    decreases |ps|
  {
    if ps != [] {
      assert !IsOdd(ps[0]);
      NoTrackYet(Learn(i, ps[0]), ps[1..]);
    }
  }

  /** Inside a TrackEntry: whether its number, and that it is a video track, have been met. */
  ghost predicate Knows(i: Info, v: nat, number: bool, odd: bool) {
    && i.parsingTrack == (if number then v else UNKNOWN) && i.parsingIsVideo == odd
    && i.keyframeTrack == (if number && odd then v else UNKNOWN)
  }

  ghost predicate HasNumber(ps: seq<Piece>) {
    exists j :: 0 <= j < |ps| && IsNumber(ps[j])
  }

  ghost predicate HasOdd(ps: seq<Piece>) {
    exists j :: 0 <= j < |ps| && IsOdd(ps[j])
  }

  lemma HasCons(ps: seq<Piece>)
    requires ps != []
    ensures HasNumber(ps) <==> IsNumber(ps[0]) || HasNumber(ps[1..])
    ensures HasOdd(ps) <==> IsOdd(ps[0]) || HasOdd(ps[1..])
  {
    hide IsNumber, IsOdd;
    var rest := ps[1..];
    assert forall j :: 0 <= j < |rest| ==> rest[j] == ps[j + 1];
    assert forall j :: 0 < j < |ps| ==> ps[j] == rest[j - 1];
  }

  lemma LearnKnows(i: Info, p: Piece, v: nat, number: bool, odd: bool)
    requires v != UNKNOWN && Knows(i, v, number, odd) && !IsEntry(p) && (IsNumber(p) ==> BigEndian(p.body) == v)
    ensures Knows(Learn(i, p), v, number || IsNumber(p), odd || IsOdd(p))
  {
  }

  lemma {:induction false} EntryLearned(i: Info, ps: seq<Piece>, v: nat, number: bool, odd: bool)
    requires v != UNKNOWN && Knows(i, v, number, odd)
    requires forall j :: 0 <= j < |ps| ==> !IsEntry(ps[j]) && (IsNumber(ps[j]) ==> BigEndian(ps[j].body) == v)
    ensures Knows(LearnAll(i, ps), v, number || HasNumber(ps), odd || HasOdd(ps))
    decreases |ps|
  {
    hide Knows, Learn, IsNumber, IsOdd, IsEntry, HasNumber, HasOdd;
    if ps == [] {
      HasNone();
    } else {
      HasCons(ps);
      LearnKnows(i, ps[0], v, number, odd);
      EntryLearned(Learn(i, ps[0]), ps[1..], v, number || IsNumber(ps[0]), odd || IsOdd(ps[0]));
    }
  }

  lemma HasNone()
    ensures !HasNumber([]) && !HasOdd([])
  {
  }

  /** The walk learns the video track. */
  lemma VideoLearned(ps: seq<Piece>, v: nat)
    requires VideoTrack(ps, v)
    ensures LearnAll(INITIAL_INFO, ps).keyframeTrack == v
  {
    hide VideoEntry, Learn, LearnAll, IsEntry, IsNumber, IsOdd, HasNumber, HasOdd;
    var j: nat, k: nat :| VideoEntry(ps, v, j, k);
    EntryParts(ps, v, j, k);
    var before, entry, body, after := ps[..j], ps[j], ps[j + 1..k], ps[k..];
    var i := LearnAll(INITIAL_INFO, before);
    NoTrackYet(INITIAL_INFO, before);
    LearnJoin(INITIAL_INFO, before, [entry] + body);
    LearnJoin(INITIAL_INFO, before + ([entry] + body), after);
    LearnEntry(i, entry, body);
    EntryLearned(Learn(i, entry), body, v, false, false);
    TrackStays(LearnAll(Learn(i, entry), body), after);
  }

  lemma EntryParts(ps: seq<Piece>, v: nat, j: nat, k: nat)
    requires VideoEntry(ps, v, j, k)
    ensures j < k <= |ps| && ps == (ps[..j] + ([ps[j]] + ps[j + 1..k])) + ps[k..]
    ensures IsEntry(ps[j]) && v != UNKNOWN && HasNumber(ps[j + 1..k]) && HasOdd(ps[j + 1..k])
    ensures forall i :: 0 <= i < |ps[..j]| ==> !IsOdd(ps[..j][i])
    ensures var body := ps[j + 1..k];
            forall i :: 0 <= i < |body| ==> !IsEntry(body[i]) && (IsNumber(body[i]) ==> BigEndian(body[i].body) == v)
  {
    hide IsNumber, IsOdd, IsEntry, HasNumber, HasOdd;
    BodyHas(ps, v, j, k);
  }

  lemma LearnEntry(i: Info, entry: Piece, body: seq<Piece>)
    requires IsEntry(entry) && i.keyframeTrack == UNKNOWN
    ensures LearnAll(i, [entry] + body) == LearnAll(Learn(i, entry), body)
    ensures forall v :: Knows(Learn(i, entry), v, false, false)
  {
    assert ([entry] + body)[1..] == body;
  }

  lemma BodyHas(ps: seq<Piece>, v: nat, j: nat, k: nat)
    requires VideoEntry(ps, v, j, k)
    ensures j + 1 <= k && HasNumber(ps[j + 1..k]) && HasOdd(ps[j + 1..k])
  {
    hide IsNumber, IsOdd, IsEntry;
    var body := ps[j + 1..k];
    var n :| j < n < k && IsNumber(ps[n]);
    assert body[n - j - 1] == ps[n];
    var o :| j < o < k && IsOdd(ps[o]);
    assert body[o - j - 1] == ps[o];
  }

  // ---------------------------------------------------------------- the keyframe status

  /** A SimpleBlock whose track integer is reserved belongs to no track. */
  ghost predicate OfNoTrack(p: Piece) {
    IsBlock(p) && exists track, flags :: IsBlockBody(track, flags, p.body) && Reserved(track)
  }

  /** A block of another track settles nothing. */
  lemma OtherTrack(i: Info, p: Piece)
    requires Proper(p) && !IsCluster(p) && i.keyframe == KeyframeUnknown
    requires if i.keyframeTrack == UNKNOWN then !OfNoTrack(p) else !OfTrack(p, i.keyframeTrack)
    ensures Learn(i, p).keyframe == KeyframeUnknown
  {
    if IsBlock(p) {
      var track, flags :| IsBlockBody(track, flags, p.body);
      BlockProbed(i, p.body, track, flags, [], 0);
      ReadSize(track);
      hide IsBlockBody;
    }
  }

  /** Until a block of the video track comes, the status stays open. */
  lemma {:induction false} StatusOpen(i: Info, ps: seq<Piece>, v: nat)
    requires AllProper(ps) && i.keyframe == KeyframeUnknown && i.keyframeTrack == v && v != UNKNOWN
    requires forall j :: 0 <= j < |ps| ==> !IsCluster(ps[j]) && !OfTrack(ps[j], v)
    ensures LearnAll(i, ps).keyframe == KeyframeUnknown && LearnAll(i, ps).keyframeTrack == v
    decreases |ps|
  {
    hide Proper, OfTrack, IsCluster;
    if ps != [] {
      OtherTrack(i, ps[0]);
      TrackStays(i, [ps[0]]);
      assert LearnAll(i, [ps[0]]) == Learn(i, ps[0]);
      hide Learn;
      StatusOpen(Learn(i, ps[0]), ps[1..], v);
    }
  }

  /** Without a video track it stays open for good. */
  lemma {:induction false} StatusOpenForGood(i: Info, ps: seq<Piece>)
    requires AllProper(ps) && i.keyframe == KeyframeUnknown && i.keyframeTrack == UNKNOWN && !i.parsingIsVideo
    requires forall j :: 0 <= j < |ps| ==> !IsCluster(ps[j]) && !OfNoTrack(ps[j]) && !IsOdd(ps[j])
    ensures LearnAll(i, ps).keyframe == KeyframeUnknown
    decreases |ps|
  {
    hide Proper, OfNoTrack, IsCluster;
    if ps != [] {
      OtherTrack(i, ps[0]);
      NoTrackYet(i, [ps[0]]);
      assert LearnAll(i, [ps[0]]) == Learn(i, ps[0]);
      hide Learn;
      StatusOpenForGood(Learn(i, ps[0]), ps[1..]);
    }
  }
}
