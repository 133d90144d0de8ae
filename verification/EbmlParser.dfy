/** The splitter as the server runs it: three fixed buffers, positions and flags updated in place
    (format_ebml.c). Every operation is tied to its counterpart on values in EbmlSplitter. */
module EbmlParser {
  import opened Bytes
  import opened EbmlTags
  import opened EbmlSplitter

  /** Finds the length marker bit of a first byte; the mask is 0 when there is none. */
  method FindMarker(first: byte) returns (size: nat, mask: nat)
    ensures size == Width(first)
    ensures mask == if size == 9 then 0 else Marker(size)
  {
    size, mask := 1, 0x80;
    while mask != 0 && first / mask % 2 == 0
      invariant 1 <= size <= 9
      invariant mask == if size == 9 then 0 else Marker(size)
      invariant size == 1 || first < Marker(size - 1)
      decreases 9 - size
    {
      size, mask := size + 1, mask / 2;
    }
  }

  lemma NextByte(s: seq<byte>, i: nat)
    requires i < |s|
    ensures BigEndian(s[..i + 1]) == BigEndian(s[..i]) * 256 + s[i]
  {
    assert s[..i + 1][..i] == s[..i] && s[..i + 1][i] == s[i];
  }

  lemma NextDigit(top: byte, s: seq<byte>, size: nat, i: nat)
    requires 1 <= i < size <= |s|
    ensures var digits := [top] + s[1..size]; BigEndian(digits[..i + 1]) == BigEndian(digits[..i]) * 256 + s[i]
  {
    var digits := [top] + s[1..size];
    assert digits[i] == s[1..size][i - 1] == s[i];
    NextByte(digits, i);
  }

  method ParseVarIntAt(buf: array<byte>, from: nat, end: nat) returns (r: Parse)
    requires from <= end <= buf.Length
    ensures r == ParseVarInt(buf[from..end])
  {
    if from >= end {
      return NeedMore;
    }
    var first: byte := buf[from];
    var size, mask := FindMarker(first);
    if mask == 0 {
      return Corrupt;
    }
    if from + size - 1 >= end {
      return NeedMore;
    }
    MarkerOf(first);
    hide Width, Marker;
    ghost var s := buf[from..end];
    var top: byte := first - mask;
    ghost var digits := [top] + s[1..size];
    var value: nat, unknown: nat := top, mask - 1;
    for i := 1 to size
      invariant value == BigEndian(digits[..i])
      invariant unknown == Ones(mask, i)
    {
      NextDigit(top, s, size, i);
      assert s[i] == buf[from + i];
      value := value * 256 + buf[from + i];
      unknown := unknown * 256 + 0xFF;
    }
    assert digits[..size] == digits;
    return Parsed(size, if value == unknown then UNKNOWN else value);
  }

  method ParseTagAt(buf: array<byte>, from: nat, end: nat) returns (r: Parse)
    requires from <= end <= buf.Length
    ensures r == ParseTag(buf[from..end])
  {
    var t := ParseVarIntAt(buf, from, end);
    if !t.Parsed? {
      return t;
    }
    assert t.len <= |buf[from..end]|;
    assert buf[from..end][t.len..] == buf[from + t.len..end];
    var z := ParseVarIntAt(buf, from + t.len, end);
    if !z.Parsed? {
      return z;
    }
    return Parsed(t.len + z.len, z.value);
  }

  method ParseSizedIntAt(buf: array<byte>, from: nat, end: nat, len: nat) returns (r: Parse)
    requires from <= end <= buf.Length
    ensures r == ParseSizedInt(buf[from..end], len)
  {
    if len < 1 || len > 8 {
      return Corrupt;
    }
    if from + len >= end {
      return NeedMore;
    }
    ghost var s := buf[from..end];
    var value: nat := 0;
    for i := 0 to len
      invariant value == BigEndian(s[..i])
    {
      NextByte(s, i);
      assert s[i] == buf[from + i];
      value := value * 256 + buf[from + i];
    }
    return Parsed(len, value);
  }

  method MagicAt(buf: array<byte>, from: nat, magic: seq<byte>) returns (same: bool)
    requires |magic| == 4 && from + 4 <= buf.Length
    ensures forall end :: from + 4 <= end <= buf.Length ==> same == HasMagic(buf[from..end], magic)
  {
    same := buf[from] == magic[0] && buf[from + 1] == magic[1] && buf[from + 2] == magic[2]
      && buf[from + 3] == magic[3];
  }

  lemma ReadKeepsValid(p: Parser, len: nat)
    requires p.Valid()
    ensures p.readingClusters || len == 0 || len >= p.headerSize ==> Read(p, len).p.Valid()
  {
    hide Examine;
  }

  datatype Status = Failed | Waiting | Going

  class Splitter {
    var readingClusters: bool
    var phase: Phase
    var copyLen: nat
    var clusterStart: int
    var info: Info
    var flush: bool
    var position: nat
    const buffer: array<byte>
    var inputPosition: nat
    const inputBuffer: array<byte>
    var headerSize: nat
    var headerPosition: nat
    var headerRead: nat
    const header: array<byte>

    ghost predicate Fits()
      reads this
    {
      && buffer.Length == SLICE && inputBuffer.Length == SLICE && header.Length == HEADER_MAX
      && buffer != inputBuffer && buffer != header && inputBuffer != header
      && position <= SLICE && inputPosition <= SLICE && headerPosition <= HEADER_MAX
    }

    /** The parser as a value, with the input from `cursor` on still to be processed. */
    ghost function View(cursor: nat): Parser
      requires Fits() && cursor <= inputPosition
      reads this, buffer, inputBuffer, header
    {
      Parser(phase, copyLen, info, clusterStart, flush, header[..headerPosition], headerSize, headerRead,
             readingClusters, buffer[..position], inputBuffer[cursor..inputPosition])
    }

    ghost predicate Valid()
      reads this, buffer, inputBuffer, header
    {
      Fits() && View(0).Valid()
    }

    constructor ()
      ensures Valid() && View(0) == INITIAL
      ensures fresh(buffer) && fresh(inputBuffer) && fresh(header)
    {
      readingClusters, phase, copyLen, clusterStart := false, ParsingHeader, 0, -1;
      info, flush := INITIAL_INFO, false;
      position, inputPosition, headerSize, headerPosition, headerRead := 0, 0, 0, 0, 0;
      buffer := new byte[SLICE](_ => 0);
      inputBuffer := new byte[SLICE](_ => 0);
      header := new byte[HEADER_MAX](_ => 0);
    }

    method GetReadSpace() returns (n: nat)
      requires Valid()
      modifies this`flush
      ensures Valid() && View(0) == ReadSpace(old(View(0))).0 && n == ReadSpace(old(View(0))).1
    {
      if !readingClusters {
        n := headerSize;
      } else if clusterStart > 0 {
        n := clusterStart;
      } else {
        if position == SLICE {
          flush := true;
        }
        n := if flush then position else 0;
      }
    }

    method GetWriteSpace() returns (bytes: nat)
      requires Valid()
      ensures bytes == SLICE - |View(0).input|
    {
      bytes := SLICE - inputPosition;
    }

    /** Takes the first `n` bytes out of the data buffer and shifts the rest down. */
    method TakeData(out: array<byte>, n: nat)
      requires Fits() && n <= position && n <= out.Length
      requires out != buffer && out != inputBuffer && out != header
      modifies this`position, buffer, out
      ensures Fits() && out[..n] == old(View(0).data[..n])
      ensures View(0) == old(View(0)).(data := old(View(0).data[n..]))
    {
      ghost var old' := View(0);
      CopyBytes(buffer, 0, out, 0, n);
      assert out[..n] == out[0..n] == old'.data[..n];
      CopyBytes(buffer, n, buffer, 0, position - n);
      assert buffer[..position - n] == buffer[0..position - n] == old'.data[n..];
      position := position - n;
    }

    /** Copies the next chunk, at most `len` bytes, to the front of `out`. */
    method ReadChunk(out: array<byte>, len: nat) returns (n: nat, kind: ChunkKind)
      requires Valid() && len <= out.Length
      requires out != buffer && out != inputBuffer && out != header
      modifies this, buffer, out
      ensures Fits() && View(0) == Read(old(View(0)), len).p
      ensures kind == Read(old(View(0)), len).kind && n <= out.Length && out[..n] == Read(old(View(0)), len).bytes
      ensures old(readingClusters) || len == 0 || len >= old(headerSize) ==> Valid()
    {
      ReadKeepsValid(View(0), len);
      assert headerRead <= headerSize <= headerPosition && -1 <= clusterStart <= position;
      hide Examine, Parser.Valid, ReadHeader, ReadCluster;
      if len < 1 || (!readingClusters && headerSize == 0) {
        assert out[..0] == [];
        return 0, HeaderChunk;
      }
      if readingClusters {
        n, kind := ReadClusterChunk(out, len);
      } else {
        n := ReadHeaderChunk(out, len);
        kind := HeaderChunk;
      }
    }

    /** A copy of the header, always from its first byte on. */
    method ReadHeaderChunk(out: array<byte>, len: nat) returns (n: nat)
      requires Fits() && len <= out.Length && headerRead <= headerSize <= headerPosition
      requires out != buffer && out != inputBuffer && out != header
      modifies this`headerRead, this`readingClusters, out
      ensures var r := ReadHeader(old(View(0)), len);
              && Fits() && View(0) == r.p && r.kind == HeaderChunk && n <= out.Length && out[..n] == r.bytes
    {
      n := Min(len, headerSize - headerRead);
      CopyBytes(header, 0, out, 0, n);
      assert out[..n] == out[0..n] == old(View(0)).header[..n];
      headerRead := headerRead + n;
      readingClusters := headerRead == headerSize;
    }

    /** The bytes up to the next Cluster, or all there are; with a Cluster at the front, its kind. */
    method ReadClusterChunk(out: array<byte>, len: nat) returns (n: nat, kind: ChunkKind)
      requires Fits() && len <= out.Length && -1 <= clusterStart <= position
      requires out != buffer && out != inputBuffer && out != header
      modifies this`position, this`clusterStart, buffer, out
      ensures var r := ReadCluster(old(View(0)), len);
              && Fits() && View(0) == r.p && kind == r.kind && n <= out.Length && out[..n] == r.bytes
    {
      kind := ClusterContinue;
      var space := position;
      if clusterStart == 0 {
        if info.keyframe != NotKeyframe {
          kind := ClusterStart;
        }
        clusterStart := -1;
      } else if clusterStart > 0 {
        space := clusterStart;
      }
      n := Min(len, space);
      TakeData(out, n);
      if clusterStart > 0 {
        clusterStart := clusterStart - n;
      }
    }

    /** The probes of one element, by its tag; none of them changes a buffer. */
    method ExamineAt(cursor: nat) returns (e: Exam)
      requires Fits() && cursor <= inputPosition
      ensures e == Examine(info, inputBuffer[cursor..inputPosition])
    {
      hide ParseVarInt, BigEndian, ParseTag;
      ghost var s := inputBuffer[cursor..inputPosition];
      var tag := ParseTagAt(inputBuffer, cursor, inputPosition);
      if tag.NeedMore? {
        return Unclear;
      } else if tag.Corrupt? {
        return Bad;
      }
      var payload := if tag.value == UNKNOWN then 0 else tag.value;
      if tag.len > 4 {
        var cluster := MagicAt(inputBuffer, cursor, CLUSTER_MAGIC);
        if cluster {
          return Cluster(tag.len);
        }
        var segment := MagicAt(inputBuffer, cursor, SEGMENT_MAGIC);
        var tracks := MagicAt(inputBuffer, cursor, TRACKS_MAGIC);
        if segment || tracks {
          payload := 0;
        }
      }
      var first := inputBuffer[cursor];
      if first == TRACK_ENTRY_MAGIC {
        payload := 0;
      }
      assert payload == Payload(s, tag);
      assert s[tag.len..] == inputBuffer[cursor + tag.len..inputPosition];
      e := ProbeAt(cursor + tag.len, first, payload, tag.len + payload);
    }

    method ProbeAt(from: nat, first: byte, payload: nat, size: nat) returns (e: Exam)
      requires Fits() && from <= inputPosition
      ensures e == Probe(info, first, inputBuffer[from..inputPosition], payload, size)
    {
      hide ParseVarInt, ParseSizedInt;
      if first == SIMPLE_BLOCK_MAGIC {
        if info.keyframe != KeyframeUnknown {
          return Element(size, info);
        }
        var track := ParseVarIntAt(inputBuffer, from, inputPosition);
        if track.NeedMore? {
          return Unclear;
        } else if track.Corrupt? {
          return Bad;
        } else if track.value != info.keyframeTrack {
          return Element(size, info);
        } else if from + track.len + 2 >= inputPosition {
          return Unclear;
        }
        // skip the 16-bit timecode, look at the flags byte
        var flags := inputBuffer[from + track.len + 2];
        return Element(size, info.(keyframe := if flags >= 0x80 then IsKeyframe else NotKeyframe));
      } else if first == TRACK_ENTRY_MAGIC {
        return Element(size, info.(parsingTrack := UNKNOWN, parsingIsVideo := false));
      } else if first == TRACK_NUMBER_MAGIC || first == TRACK_TYPE_MAGIC {
        var v := ParseSizedIntAt(inputBuffer, from, inputPosition, payload);
        if v.NeedMore? {
          return Unclear;
        } else if v.Corrupt? {
          return Bad;
        } else if first == TRACK_NUMBER_MAGIC {
          return Element(size, CheckTrack(info.(parsingTrack := v.value)));
        } else if v.value % 2 == 1 {
          return Element(size, CheckTrack(info.(parsingIsVideo := true)));
        }
        return Element(size, info);
      }
      return Element(size, info);
    }

    method ParseElement(cursor: nat) returns (r: Status)
      requires Fits() && cursor <= inputPosition && (phase == ParsingHeader || phase == ParsingClusters)
      modifies this`phase, this`copyLen, this`info
      ensures r == StatusOf(ParseTurn(old(View(cursor))))
      ensures r != Failed ==> View(cursor) == ParseTurn(old(View(cursor))).p
    {
      hide Examine;
      var e := ExamineAt(cursor);
      match e
      case Unclear => r := Waiting;
      case Bad => r := Failed;
      case Cluster(_) =>
        phase := StartCluster;
        r := Going;
      case Element(size, i) =>
        copyLen, info := size, i;
        phase := if phase == ParsingHeader then CopyingToHeader else CopyingToData;
        r := Going;
    }

    method BeginCluster(cursor: nat) returns (r: Status)
      requires Fits() && cursor <= inputPosition && phase == StartCluster && View(cursor).Valid()
      modifies this`phase, this`copyLen, this`info, this`flush, this`clusterStart, this`headerSize
      ensures r == StatusOf(StartTurn(old(View(cursor))))
      ensures r != Failed ==> View(cursor) == StartTurn(old(View(cursor))).p
    {
      hide ParseTag;
      ClusterVerdict(info, inputBuffer[cursor..inputPosition]);
      hide Examine, Parser.Valid;
      if clusterStart >= 0 {
        flush := true;
        r := Waiting;
      } else {
        var tag := ParseTagAt(inputBuffer, cursor, inputPosition);
        headerSize := headerPosition;
        clusterStart := position;
        info := info.(keyframe := KeyframeUnknown);
        flush := false;
        copyLen := tag.len;
        phase := CopyingToData;
        r := Going;
      }
    }

    /** Moves `n` bytes of input to the header buffer. */
    method CopyToHeader(cursor: nat, n: nat)
      requires Fits() && cursor + n <= inputPosition && headerPosition + n <= HEADER_MAX
      modifies this`headerPosition, header
      ensures Fits()
      ensures View(cursor + n) == old(View(cursor)).(
                header := old(View(cursor).header) + old(View(cursor).input[..n]),
                  input := old(View(cursor).input[n..]))
    {
      ghost var old' := View(cursor);
      CopyBytes(inputBuffer, cursor, header, headerPosition, n);
      assert header[..headerPosition + n] == header[..headerPosition] + header[headerPosition..headerPosition + n];
      assert old'.input[..n] == old(inputBuffer[cursor..cursor + n]);
      headerPosition := headerPosition + n;
      assert View(cursor + n).input == old'.input[n..];
    }

    /** Moves `n` bytes of input to the data buffer. */
    method CopyToData(cursor: nat, n: nat)
      requires Fits() && cursor + n <= inputPosition && position + n <= SLICE
      modifies this`position, buffer
      ensures Fits()
      ensures View(cursor + n) == old(View(cursor)).(
                data := old(View(cursor).data) + old(View(cursor).input[..n]), input := old(View(cursor).input[n..]))
    {
      ghost var old' := View(cursor);
      CopyBytes(inputBuffer, cursor, buffer, position, n);
      assert buffer[..position + n] == buffer[..position] + buffer[position..position + n];
      assert old'.input[..n] == old(inputBuffer[cursor..cursor + n]);
      position := position + n;
      assert View(cursor + n).input == old'.input[n..];
    }

    /** Accounts for `n` copied bytes; a finished element resumes parsing. */
    method FinishCopy(ghost cursor: nat, n: nat) returns (r: Status)
      requires Fits() && cursor <= inputPosition && n <= copyLen
      requires phase == CopyingToHeader || phase == CopyingToData
      modifies this`phase, this`copyLen
      ensures View(cursor) == old(View(cursor)).(
                copyLen := old(copyLen) - n,
                phase := if n < old(copyLen) then old(phase)
                         else if old(phase) == CopyingToHeader then ParsingHeader else ParsingClusters)
      ensures r == if n == old(copyLen) then Going else Waiting
    {
      copyLen := copyLen - n;
      if copyLen == 0 {
        phase := if phase == CopyingToHeader then ParsingHeader else ParsingClusters;
        r := Going;
      } else {
        r := Waiting;
      }
    }

    method CopyHeaderElement(cursor: nat) returns (r: Status, next: nat)
      requires Fits() && cursor <= inputPosition && phase == CopyingToHeader
      modifies this`phase, this`copyLen, this`headerPosition, header
      ensures Fits() && cursor <= next <= inputPosition
      ensures r == StatusOf(CopyTurn(old(View(cursor))))
      ensures r != Failed ==> View(next) == CopyTurn(old(View(cursor))).p
    {
      ghost var p := View(cursor);
      var n := Min(inputPosition - cursor, copyLen);
      next := cursor;
      assert n == ToCopy(p);
      if headerPosition + n > HEADER_MAX {
        return Failed, cursor;
      }
      CopyToHeader(cursor, n);
      hide View;
      next := cursor + n;
      r := FinishCopy(next, n);
    }

    method CopyDataElement(cursor: nat) returns (r: Status, next: nat)
      requires Fits() && cursor <= inputPosition && phase == CopyingToData
      modifies this`phase, this`copyLen, this`position, buffer
      ensures Fits() && cursor <= next <= inputPosition
      ensures r == StatusOf(CopyTurn(old(View(cursor))))
      ensures r != Failed ==> View(next) == CopyTurn(old(View(cursor))).p
    {
      ghost var p := View(cursor);
      var n := Min(inputPosition - cursor, copyLen);
      if position + n > SLICE {
        n := SLICE - position;
      }
      assert n == ToCopy(p);
      CopyToData(cursor, n);
      hide View;
      next := cursor + n;
      r := FinishCopy(next, n);
    }

    static ghost function StatusOf(t: Turn): Status {
      match t
      case Fail => Failed
      case Wait(_) => Waiting
      case Go(_) => Going
    }

    /** Processes `len` bytes that the caller has put behind the unprocessed input. The result is -1
        exactly when the stream is rejected; otherwise the parser is in the state the processing
        loop on values ends in. */
    method Wrote(len: nat) returns (ret: int)
      requires Valid() && len <= SLICE - inputPosition
      modifies this, buffer, inputBuffer, header
      ensures Fits() && ret == (if Run(old(FilledView(len))).None? then -1 else len)
      ensures ret >= 0 ==> Valid() && View(0) == Run(old(FilledView(len))).value
    {
      hide Examine, Step, Parser.Valid;
      ghost var start := FilledView(len);
      inputPosition := inputPosition + len;
      assert View(0) == start;
      var cursor, processing := 0, true;
      while processing
        invariant Fits() && cursor <= inputPosition && View(cursor).Valid()
        invariant Run(start) == if processing then Run(View(cursor)) else Some(View(cursor))
        decreases processing, inputPosition - cursor, Rank(phase)
      {
        ghost var before := View(cursor);
        StepKeepsValid(before);
        var status, next := Turn(cursor);
        cursor := next;
        if status == Failed {
          return -1;
        }
        processing := status == Going;
      }
      ghost var end := View(cursor);
      // what is left moves to the front
      CopyBytes(inputBuffer, cursor, inputBuffer, 0, inputPosition - cursor);
      inputPosition := inputPosition - cursor;
      assert inputBuffer[0..inputPosition] == end.input;
      return len;
    }

    /** The parser once `len` bytes have been put behind the unprocessed input. */
    ghost function FilledView(len: nat): (p: Parser)
      requires Valid() && len <= SLICE - inputPosition
      reads this, buffer, inputBuffer, header
      ensures p.Valid()
    {
      var more := inputBuffer[inputPosition..inputPosition + len];
      FeedValid(View(0), more);
      assert inputBuffer[..inputPosition + len] == View(0).input + more;
      View(0).(input := inputBuffer[..inputPosition + len])
    }

    /** One turn of the processing loop. */
    method Turn(cursor: nat) returns (status: Status, next: nat)
      requires Fits() && cursor <= inputPosition && View(cursor).Valid()
      modifies this`phase, this`copyLen, this`info, this`flush, this`clusterStart, this`headerSize
      modifies this`position, this`headerPosition, buffer, header
      ensures Fits() && cursor <= next <= inputPosition
      ensures status == StatusOf(Step(old(View(cursor))))
      ensures status != Failed ==> View(next) == Step(old(View(cursor))).p
    {
      hide Examine, ParseTurn, StartTurn, CopyTurn;
      match phase
      case ParsingHeader =>
        status := ParseElement(cursor);
        next := cursor;
      case ParsingClusters =>
        status := ParseElement(cursor);
        next := cursor;
      case StartCluster =>
        status := BeginCluster(cursor);
        next := cursor;
      case CopyingToHeader =>
        status, next := CopyHeaderElement(cursor);
      case CopyingToData =>
        status, next := CopyDataElement(cursor);
    }
  }
}
