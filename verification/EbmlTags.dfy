/** Variable-length integers, element tags and the probing of one element, as the
    incremental EBML splitter reads them (format_ebml.c). */
module EbmlTags {
  import opened Bytes

  /** The value no EBML variable-length integer may take: all 64 bits set. */
  const UNKNOWN: nat := 0xFFFF_FFFF_FFFF_FFFF

  const SEGMENT_MAGIC: seq<byte> := [0x18, 0x53, 0x80, 0x67]
  const CLUSTER_MAGIC: seq<byte> := [0x1F, 0x43, 0xB6, 0x75]
  const TRACKS_MAGIC: seq<byte> := [0x16, 0x54, 0xAE, 0x6B]
  const TRACK_ENTRY_MAGIC: byte := 0xAE
  const TRACK_NUMBER_MAGIC: byte := 0xD7
  const TRACK_TYPE_MAGIC: byte := 0x83
  const SIMPLE_BLOCK_MAGIC: byte := 0xA3

  /** Outcome of reading something from the front of a buffer that may still grow. */
  datatype Parse = NeedMore | Corrupt | Parsed(len: nat, value: nat)

  // ---------------------------------------------------------------- variable-length integers

  /** Position of the length marker bit in the first byte, 9 when there is none. */
  function Width(b: byte): (w: nat)
    ensures 1 <= w <= 9
  {
    if b >= 0x80 then 1 else if b >= 0x40 then 2 else if b >= 0x20 then 3 else if b >= 0x10 then 4
    else if b >= 0x08 then 5 else if b >= 0x04 then 6 else if b >= 0x02 then 7 else if b >= 0x01 then 8 else 9
  }

  /** The marker bit of a `w` byte integer, as a value of the first byte. */
  function Marker(w: nat): nat
    requires 1 <= w <= 8
  {
    [0x80, 0x40, 0x20, 0x10, 0x08, 0x04, 0x02, 0x01][w - 1]
  }

  /** The data bits of an `n` byte integer whose marker bit is `m`, all set. */
  function Ones(m: nat, n: nat): nat
    requires m >= 1
    decreases n
  {
    if n <= 1 then m - 1 else Ones(m, n - 1) * 256 + 0xFF
  }

  function ParseVarInt(s: seq<byte>): (r: Parse) {
    if |s| == 0 then NeedMore
    else
      var w := Width(s[0]);
      if w == 9 then Corrupt
      else if |s| < w then NeedMore
      else
        var v := BigEndian([s[0] - Marker(w)] + s[1..w]);
        Parsed(w, if v == Ones(Marker(w), w) then UNKNOWN else v)
  }

  lemma MarkerOf(b: byte)
    requires b != 0
    ensures Width(b) <= 8
    ensures Marker(Width(b)) <= b < 2 * Marker(Width(b))
  {
  }

  lemma {:induction false} BigEndianHead(a: nat, m: nat, s: seq<byte>)
    requires m <= a < 256
    ensures BigEndian([a] + s) == BigEndian([a - m] + s) + m * Pow(256, |s|)
    decreases |s|
  {
    var x: seq<byte> := [a] + s;
    var y: seq<byte> := [a - m] + s;
    if |s| == 0 {
      assert x[..|x| - 1] == [] && y[..|y| - 1] == [];
    } else {
      var init := s[..|s| - 1];
      BigEndianHead(a, m, init);
      assert x[..|x| - 1] == [a] + init;
      assert y[..|y| - 1] == [a - m] + init;
      assert m * Pow(256, |init|) * 256 == m * Pow(256, |s|);
    }
  }

  lemma {:induction false} BigEndianRange(s: seq<byte>)
    ensures BigEndian(s) < Pow(256, |s|)
    decreases |s|
  {
    if |s| != 0 {
      BigEndianRange(s[..|s| - 1]);
    }
  }

  lemma MarkerWeight(w: nat)
    requires 1 <= w <= 8
    ensures Marker(w) * Pow(256, w - 1) == Pow(128, w)
    ensures Ones(Marker(w), w) == Pow(128, w) - 1
  {
    PowValues();
    assert Ones(0x80, 1) == 0x7F;
    assert Ones(0x40, 2) == Ones(0x40, 1) * 256 + 0xFF;
    assert Ones(0x20, 3) == Ones(0x20, 2) * 256 + 0xFF;
    assert Ones(0x10, 4) == Ones(0x10, 3) * 256 + 0xFF;
    assert Ones(0x08, 5) == Ones(0x08, 4) * 256 + 0xFF;
    assert Ones(0x08, 4) == Ones(0x08, 3) * 256 + 0xFF;
    assert Ones(0x04, 6) == Ones(0x04, 5) * 256 + 0xFF;
    assert Ones(0x04, 5) == Ones(0x04, 4) * 256 + 0xFF;
    assert Ones(0x04, 4) == Ones(0x04, 3) * 256 + 0xFF;
    assert Ones(0x02, 7) == Ones(0x02, 6) * 256 + 0xFF;
    assert Ones(0x02, 6) == Ones(0x02, 5) * 256 + 0xFF;
    assert Ones(0x02, 5) == Ones(0x02, 4) * 256 + 0xFF;
    assert Ones(0x02, 4) == Ones(0x02, 3) * 256 + 0xFF;
    assert Ones(0x01, 8) == Ones(0x01, 7) * 256 + 0xFF;
    assert Ones(0x01, 7) == Ones(0x01, 6) * 256 + 0xFF;
    assert Ones(0x01, 6) == Ones(0x01, 5) * 256 + 0xFF;
    assert Ones(0x01, 5) == Ones(0x01, 4) * 256 + 0xFF;
    assert Ones(0x01, 4) == Ones(0x01, 3) * 256 + 0xFF;
  }

  lemma PowStep(b: nat, n: nat)
    ensures Pow(b, n + 1) == b * Pow(b, n)
  {
  }

  lemma PowValues()
    ensures Pow(256, 0) == 1 && Pow(256, 1) == 0x100 && Pow(256, 2) == 0x1_0000 && Pow(256, 3) == 0x100_0000
    ensures Pow(256, 4) == 0x1_0000_0000 && Pow(256, 5) == 0x100_0000_0000 && Pow(256, 6) == 0x1_0000_0000_0000
    ensures Pow(256, 7) == 0x100_0000_0000_0000
    ensures Pow(128, 1) == 0x80 && Pow(128, 2) == 0x4000 && Pow(128, 3) == 0x20_0000 && Pow(128, 4) == 0x1000_0000
    ensures Pow(128, 5) == 0x8_0000_0000 && Pow(128, 6) == 0x400_0000_0000 && Pow(128, 7) == 0x2_0000_0000_0000
    ensures Pow(128, 8) == 0x100_0000_0000_0000
  {
    PowStep(256, 1); PowStep(256, 2); PowStep(256, 3); PowStep(256, 4); PowStep(256, 5); PowStep(256, 6);
    PowStep(128, 1); PowStep(128, 2); PowStep(128, 3); PowStep(128, 4); PowStep(128, 5); PowStep(128, 6); PowStep(128,
      7);
  }

  /** Section 4 of RFC 8794: the bytes of a `w` byte integer with data value `v`, read as one
      big-endian number, are 2^(7w) + v; the all-ones value is the reserved unknown size. The
      parser accepts exactly the byte strings of that form. */
  lemma VarIntMeaning(s: seq<byte>, w: nat)
    requires 1 <= w <= 8 && w <= |s|
    ensures (ParseVarInt(s).Parsed? && ParseVarInt(s).len == w)
            <==> Pow(128, w) <= BigEndian(s[..w]) < 2 * Pow(128, w)
    ensures ParseVarInt(s).Parsed? && ParseVarInt(s).len == w ==>
              var v := BigEndian(s[..w]) - Pow(128, w);
              ParseVarInt(s).value == if v == Pow(128, w) - 1 then UNKNOWN else v
  {
    var rest := s[1..w];
    assert s[..w] == [s[0]] + rest;
    var m := Marker(w);
    MarkerWeight(w);
    var unit := Pow(256, w - 1);
    BigEndianHead(s[0], s[0], rest);
    BigEndianZero(rest);
    BigEndianRange(rest);
    // BigEndian(s[..w]) == s[0] * unit + BigEndian(rest), with BigEndian(rest) < unit
    assert BigEndian(s[..w]) == BigEndian(rest) + s[0] * unit;
    FirstDigit(s[0], unit, BigEndian(rest), m);
    if s[0] != 0 {
      MarkerOf(s[0]);
      MarkersOrdered(Width(s[0]), w, s[0]);
    }
    if Width(s[0]) == w {
      BigEndianHead(s[0], m, rest);
    }
  }

  lemma {:induction false} BigEndianZero(s: seq<byte>)
    ensures BigEndian([0] + s) == BigEndian(s)
    decreases |s|
  {
    var x: seq<byte> := [0] + s;
    if |s| == 0 {
      assert x[..|x| - 1] == [];
    } else {
      BigEndianZero(s[..|s| - 1]);
      assert x[..|x| - 1] == [0] + s[..|s| - 1];
    }
  }

  /** A number whose leading digit is `d` lies in [m, 2m) units exactly when the digit does. */
  lemma FirstDigit(d: nat, unit: nat, low: nat, m: nat)
    requires low < unit
    ensures m * unit <= d * unit + low < 2 * (m * unit) <==> m <= d < 2 * m
  {
    Compared(d, m, unit);
    Between(d * unit, m * unit, unit, low, d, m);
  }

  lemma Between(x: nat, y: nat, unit: nat, low: nat, d: nat, m: nat)
    requires low < unit && if m <= d then y <= x else x + unit <= y
    requires if d < 2 * m then x + unit <= 2 * y else 2 * y <= x
    ensures y <= x + low < 2 * y <==> m <= d < 2 * m
  {
  }

  lemma Compared(d: nat, m: nat, unit: nat)
    ensures if m <= d then m * unit <= d * unit else d * unit + unit <= m * unit
    ensures if d < 2 * m then d * unit + unit <= 2 * (m * unit) else 2 * (m * unit) <= d * unit
  {
    Products(d, m, unit);
    if m <= d {
      Scaled(m, d, unit);
    } else {
      Scaled(d + 1, m, unit);
    }
    if d < 2 * m {
      Scaled(d + 1, 2 * m, unit);
    } else {
      Scaled(2 * m, d, unit);
    }
  }

  lemma Products(d: nat, m: nat, unit: nat)
    ensures (d + 1) * unit == d * unit + unit && (2 * m) * unit == 2 * (m * unit)
  {
  }

  lemma Scaled(a: nat, b: nat, unit: nat)
    requires a <= b
    ensures a * unit <= b * unit
  {
  }

  lemma MarkersOrdered(w: nat, u: nat, d: byte)
    requires 1 <= w <= 8 && 1 <= u <= 8
    requires Marker(w) <= d < 2 * Marker(w)
    ensures Marker(u) <= d < 2 * Marker(u) <==> w == u
  {
  }

  /** What was read does not change when bytes are appended. */
  lemma VarIntStable(s: seq<byte>, t: seq<byte>)
    ensures ParseVarInt(s) != NeedMore ==> ParseVarInt(s + t) == ParseVarInt(s)
  {
    if ParseVarInt(s).Parsed? {
      var w := Width(s[0]);
      assert (s + t)[1..w] == s[1..w];
    }
  }

  // ---------------------------------------------------------------- sized integers and tags

  /** An unsigned big-endian integer of `len` bytes. One byte beyond the integer must already
      be buffered before it is read. */
  function ParseSizedInt(s: seq<byte>, len: nat): (r: Parse) {
    if len < 1 || len > 8 then Corrupt
    else if len >= |s| then NeedMore
    else Parsed(len, BigEndian(s[..len]))
  }

  lemma SizedIntStable(s: seq<byte>, t: seq<byte>, len: nat)
    ensures ParseSizedInt(s, len) != NeedMore ==> ParseSizedInt(s + t, len) == ParseSizedInt(s, len)
  {
    if ParseSizedInt(s, len).Parsed? {
      assert (s + t)[..len] == s[..len];
    }
  }

  /** An element tag: its type and its payload size. `value` is the payload size. */
  function ParseTag(s: seq<byte>): (r: Parse)
    ensures r.Parsed? ==> 2 <= r.len <= 16 && r.len <= |s|
    ensures r.NeedMore? ==> |s| < 16
  {
    var t := ParseVarInt(s);
    if !t.Parsed? then t
    else
      var z := ParseVarInt(s[t.len..]);
      if !z.Parsed? then z else Parsed(t.len + z.len, z.value)
  }

  lemma TagStable(s: seq<byte>, t: seq<byte>)
    ensures ParseTag(s) != NeedMore ==> ParseTag(s + t) == ParseTag(s)
  {
    VarIntStable(s, t);
    var h := ParseVarInt(s);
    if h.Parsed? {
      VarIntStable(s[h.len..], t);
      assert (s + t)[h.len..] == s[h.len..] + t;
    }
  }

  // ---------------------------------------------------------------- one element

  datatype Keyframe = KeyframeUnknown | NotKeyframe | IsKeyframe

  /** What the parser has learned about tracks and about the first video block of the
      cluster in hand. */
  datatype Info = Info(keyframe: Keyframe, keyframeTrack: nat, parsingTrack: nat, parsingIsVideo: bool)

  const INITIAL_INFO := Info(NotKeyframe, UNKNOWN, UNKNOWN, false)

  function CheckTrack(i: Info): Info {
    if i.keyframeTrack == UNKNOWN && i.parsingIsVideo && i.parsingTrack != UNKNOWN
    then i.(keyframeTrack := i.parsingTrack) else i
  }

  /** What lies at the front of the unprocessed input: not enough bytes to tell, garbage, a
      Cluster whose tag has `size` bytes, or an element of which `size` bytes are to be copied
      before the next tag. */
  datatype Exam = Unclear | Bad | Cluster(size: nat) | Element(size: nat, info: Info)

  predicate HasMagic(s: seq<byte>, magic: seq<byte>)
    requires |magic| == 4
  {
    |s| >= 4 && s[0] == magic[0] && s[1] == magic[1] && s[2] == magic[2] && s[3] == magic[3]
  }

  /** How far the element walk moves past a tag: the children of Segment, Tracks, TrackEntry
      and of elements of unknown size are walked too. */
  function Payload(s: seq<byte>, tag: Parse): nat
    requires tag.Parsed? && |s| > 0
  {
    if tag.value == UNKNOWN then 0
    else if tag.len > 4 && (HasMagic(s, SEGMENT_MAGIC) || HasMagic(s, TRACKS_MAGIC)) then 0
    else if tag.len > 1 && s[0] == TRACK_ENTRY_MAGIC then 0
    else tag.value
  }

  /** The SimpleBlock probe; `s` starts at the block's payload. */
  function ProbeBlock(i: Info, s: seq<byte>, size: nat): Exam {
    if i.keyframe != KeyframeUnknown then Element(size, i)
    else
      var t := ParseVarInt(s);
      if t.NeedMore? then Unclear
      else if t.Corrupt? then Bad
      else if t.value != i.keyframeTrack then Element(size, i)
      else if t.len + 2 >= |s| then Unclear
      else Element(size, i.(keyframe := if s[t.len + 2] >= 0x80 then IsKeyframe else NotKeyframe))
  }

  /** The TrackNumber and TrackType probes. */
  function ProbeTrack(i: Info, s: seq<byte>, payload: nat, size: nat, isType: bool): Exam {
    var v := ParseSizedInt(s, payload);
    if v.NeedMore? then Unclear
    else if v.Corrupt? then Bad
    else if !isType then Element(size, CheckTrack(i.(parsingTrack := v.value)))
    else if v.value % 2 == 1 then Element(size, CheckTrack(i.(parsingIsVideo := true)))
    else Element(size, i)
  }

  /** The probe an element with first tag byte `b` calls for; `s` starts at its payload. */
  function Probe(i: Info, b: byte, s: seq<byte>, payload: nat, size: nat): (e: Exam)
    ensures e.Element? ==> e.size == size
    ensures !e.Cluster?
    ensures |s| >= 11 ==> e != Unclear
  {
    if b == SIMPLE_BLOCK_MAGIC then ProbeBlock(i, s, size)
    else if b == TRACK_ENTRY_MAGIC then Element(size, i.(parsingTrack := UNKNOWN, parsingIsVideo := false))
    else if b == TRACK_NUMBER_MAGIC then ProbeTrack(i, s, payload, size, false)
    else if b == TRACK_TYPE_MAGIC then ProbeTrack(i, s, payload, size, true)
    else Element(size, i)
  }

  function Examine(i: Info, s: seq<byte>): (e: Exam)
    ensures e.Element? ==> e.size > 0
    ensures e.Cluster? ==> 2 <= e.size <= 16 && e.size <= |s|
    ensures |s| >= 27 ==> e != Unclear
  {
    var tag := ParseTag(s);
    if tag.NeedMore? then Unclear
    else if tag.Corrupt? then Bad
    else if tag.len > 4 && HasMagic(s, CLUSTER_MAGIC) then Cluster(tag.len)
    else
      var payload := Payload(s, tag);
      Probe(i, s[0], s[tag.len..], payload, tag.len + payload)
  }

  lemma ProbeKeepsKeyframe(i: Info, s: seq<byte>)
    ensures Examine(i, s).Element? && i.keyframe != KeyframeUnknown ==> Examine(i, s).info.keyframe == i.keyframe
  {
  }

  lemma ProbeBlockStable(i: Info, s: seq<byte>, t: seq<byte>, size: nat)
    ensures ProbeBlock(i, s, size) != Unclear ==> ProbeBlock(i, s + t, size) == ProbeBlock(i, s, size)
  {
    VarIntStable(s, t);
  }

  lemma ProbeTrackStable(i: Info, s: seq<byte>, t: seq<byte>, payload: nat, size: nat, isType: bool)
    ensures ProbeTrack(i, s, payload, size, isType) != Unclear ==>
              ProbeTrack(i, s + t, payload, size, isType) == ProbeTrack(i, s, payload, size, isType)
  {
    SizedIntStable(s, t, payload);
  }

  lemma ProbeStable(i: Info, b: byte, s: seq<byte>, t: seq<byte>, payload: nat, size: nat)
    ensures Probe(i, b, s, payload, size) != Unclear
            ==> Probe(i, b, s + t, payload, size) == Probe(i, b, s, payload, size)
  {
    ProbeBlockStable(i, s, t, size);
    ProbeTrackStable(i, s, t, payload, size, false);
    ProbeTrackStable(i, s, t, payload, size, true);
  }

  lemma PayloadStable(s: seq<byte>, t: seq<byte>, tag: Parse)
    requires tag.Parsed? && 2 <= tag.len <= |s|
    ensures Payload(s + t, tag) == Payload(s, tag)
    ensures tag.len > 4 ==> HasMagic(s + t, CLUSTER_MAGIC) == HasMagic(s, CLUSTER_MAGIC)
  {
  }

  /** Appending bytes never changes the verdict on an element once there is one. */
  lemma ExamineStable(i: Info, s: seq<byte>, t: seq<byte>)
    ensures Examine(i, s) != Unclear ==> Examine(i, s + t) == Examine(i, s)
  {
    hide ParseTag, Payload, Probe;
    TagStable(s, t);
    var tag := ParseTag(s);
    if tag.Parsed? {
      PayloadStable(s, t, tag);
      var payload := Payload(s, tag);
      assert (s + t)[tag.len..] == s[tag.len..] + t;
      ProbeStable(i, s[0], s[tag.len..], t, payload, tag.len + payload);
    }
  }
}
