/** The reference view of an EBML byte stream: a walk over whole elements that needs no buffers.
    `Marks` looks at tags only; `Scan` also folds the track and keyframe probes. */
module EbmlWalk {
  import opened Bytes
  import opened EbmlTags

  /** A Cluster tag of `size` bytes at stream offset `pos`. */
  datatype Mark = Mark(pos: nat, size: nat)

  datatype Shape = NoShape | Shape(isCluster: bool, size: nat)

  /** The element at the front of `s` by its tag alone. */
  function ShapeOf(s: seq<byte>): (r: Shape)
    ensures r.Shape? ==> r.size > 0
  {
    var tag := ParseTag(s);
    if !tag.Parsed? then NoShape
    else if tag.len > 4 && HasMagic(s, CLUSTER_MAGIC) then Shape(true, tag.len)
    else Shape(false, tag.len + Payload(s, tag))
  }

  /** All Cluster tags met by walking `s`, which starts at stream offset `off`. */
  function Marks(off: nat, s: seq<byte>): (ms: seq<Mark>)
    decreases |s|
  {
    match ShapeOf(s)
    case NoShape => []
    case Shape(c, n) =>
      (if c then [Mark(off, n)] else []) + (if n <= |s| then Marks(off + n, s[n..]) else [])
  }

  lemma ShapeOfExamined(i: Info, s: seq<byte>)
    ensures Examine(i, s).Cluster? ==> ShapeOf(s) == Shape(true, Examine(i, s).size)
    ensures Examine(i, s).Element? ==> ShapeOf(s) == Shape(false, Examine(i, s).size)
  {
  }

  /** The parser's knowledge after a stretch of stream, and the Cluster tags in it. */
  datatype Scanned = Scanned(info: Info, marks: seq<Mark>)

  predicate Clear(e: Exam) {
    e.Cluster? || e.Element?
  }

  function InfoAfter(i: Info, e: Exam): Info
    requires Clear(e)
  {
    if e.Cluster? then i.(keyframe := KeyframeUnknown) else e.info
  }

  function MarkOf(off: nat, e: Exam): seq<Mark> {
    if e.Cluster? then [Mark(off, e.size)] else []
  }

  /** The walk over exactly `n` bytes of elements; only the last element may reach beyond `s`. */
  function Scan(i: Info, off: nat, s: seq<byte>, n: nat): Option<Scanned>
    decreases n
  {
    if n == 0 then Some(Scanned(i, []))
    else
      var e := Examine(i, s);
      if !Clear(e) || e.size > n || (e.size < n && e.size > |s|) then None
      else if e.size == n then Some(Scanned(InfoAfter(i, e), MarkOf(off, e)))
      else
        match Scan(InfoAfter(i, e), off + e.size, s[e.size..], n - e.size)
        case None => None
        case Some(x) => Some(Scanned(x.info, MarkOf(off, e) + x.marks))
  }

  lemma {:induction false} ScanStable(i: Info, off: nat, s: seq<byte>, n: nat, t: seq<byte>)
    requires Scan(i, off, s, n).Some?
    ensures Scan(i, off, s + t, n) == Scan(i, off, s, n)
    decreases n
  {
    hide Examine;
    if n != 0 {
      ExamineStable(i, s, t);
      var e := Examine(i, s);
      if e.size < n {
        ScanStable(InfoAfter(i, e), off + e.size, s[e.size..], n - e.size, t);
        assert (s + t)[e.size..] == s[e.size..] + t;
      }
    }
  }

  /** One more element at the end of a scanned stretch. */
  lemma {:induction false} ScanExtend(i: Info, off: nat, s: seq<byte>, n: nat)
    requires n <= |s| && Scan(i, off, s, n).Some?
    requires Clear(Examine(Scan(i, off, s, n).value.info, s[n..]))
    ensures var x := Scan(i, off, s, n).value;
            var e := Examine(x.info, s[n..]);
            Scan(i, off, s, n + e.size) == Some(Scanned(InfoAfter(x.info, e), x.marks + MarkOf(off + n, e)))
    decreases n
  {
    hide Examine, MarkOf, InfoAfter;
    if n == 0 {
      assert s[0..] == s;
      assert [] + MarkOf(off, Examine(i, s)) == MarkOf(off, Examine(i, s));
    } else {
      var e := Examine(i, s);
      var rest := s[e.size..];
      assert rest[n - e.size..] == s[n..];
      if e.size < n {
        ScanExtend(InfoAfter(i, e), off + e.size, rest, n - e.size);
        var x := Scan(InfoAfter(i, e), off + e.size, rest, n - e.size).value;
        var last := MarkOf(off + n, Examine(x.info, s[n..]));
        assert (MarkOf(off, e) + x.marks) + last == MarkOf(off, e) + (x.marks + last);
      } else {
        assert Scan(InfoAfter(i, e), off + n, rest, 0) == Some(Scanned(InfoAfter(i, e), []));
        ScanExtend(InfoAfter(i, e), off + n, rest, 0);
      }
    }
  }

  /** The Cluster tags at or after `n` bytes from the front. */
  function MarksAfter(off: nat, s: seq<byte>, n: nat): seq<Mark> {
    if n <= |s| then Marks(off + n, s[n..]) else []
  }

  lemma MarksStep(i: Info, off: nat, s: seq<byte>)
    requires Clear(Examine(i, s))
    ensures Marks(off, s) == MarkOf(off, Examine(i, s)) + MarksAfter(off, s, Examine(i, s).size)
  {
    ShapeOfExamined(i, s);
    hide Examine, ShapeOf;
  }

  lemma JoinMarks(head: seq<Mark>, mid: seq<Mark>, tail: seq<Mark>)
    ensures head + (mid + tail) == (head + mid) + tail
  {
  }

  /** The tags-only walk finds the scanned Clusters first, and then those beyond. */
  lemma {:induction false} MarksSplit(i: Info, off: nat, s: seq<byte>, n: nat)
    requires Scan(i, off, s, n).Some?
    ensures Marks(off, s) == Scan(i, off, s, n).value.marks + MarksAfter(off, s, n)
    decreases n
  {
    hide Examine, Marks;
    if n == 0 {
      assert s[0..] == s;
    } else {
      MarksStep(i, off, s);
      var e := Examine(i, s);
      if e.size < n {
        var rest := s[e.size..];
        MarksSplit(InfoAfter(i, e), off + e.size, rest, n - e.size);
        assert n <= |s| ==> rest[n - e.size..] == s[n..];
        assert MarksAfter(off + e.size, rest, n - e.size) == MarksAfter(off, s, n);
        JoinMarks(MarkOf(off, e), Scan(InfoAfter(i, e), off + e.size, rest, n - e.size).value.marks,
          MarksAfter(off, s, n));
      }
    }
  }

  lemma {:induction false} MarksBeyond(off: nat, s: seq<byte>)
    ensures forall m :: m in Marks(off, s) ==> m.pos >= off
    decreases |s|
  {
    hide ShapeOf;
    var h := ShapeOf(s);
    if h.Shape? && h.size <= |s| {
      MarksBeyond(off + h.size, s[h.size..]);
    }
  }

  /** Every Cluster tag of a scanned stretch lies wholly inside it. */
  lemma {:induction false} ScanMarksInside(i: Info, off: nat, s: seq<byte>, n: nat)
    requires Scan(i, off, s, n).Some?
    ensures forall m :: m in Scan(i, off, s, n).value.marks ==> off <= m.pos < m.pos + m.size <= off + n
    decreases n
  {
    hide Examine;
    if n != 0 {
      var e := Examine(i, s);
      if e.size < n {
        ScanMarksInside(InfoAfter(i, e), off + e.size, s[e.size..], n - e.size);
      }
    }
  }

  /** Without a new Cluster a settled keyframe status stays. */
  lemma {:induction false} ScanKeepsKeyframe(i: Info, off: nat, s: seq<byte>, n: nat)
    requires Scan(i, off, s, n).Some? && Scan(i, off, s, n).value.marks == [] && i.keyframe != KeyframeUnknown
    ensures Scan(i, off, s, n).value.info.keyframe == i.keyframe
    decreases n
  {
    hide Examine;
    if n != 0 {
      var e := Examine(i, s);
      ProbeKeepsKeyframe(i, s);
      if e.size < n {
        ScanKeepsKeyframe(InfoAfter(i, e), off + e.size, s[e.size..], n - e.size);
      }
    }
  }

  /** A longer walk meets the same Clusters first, and further ones only beyond the shorter walk; while
      there are none, a settled keyframe status is that of the shorter walk. */
  lemma {:induction false} ScanLonger(i: Info, off: nat, s: seq<byte>, k: nat, n: nat)
    requires k <= n && Scan(i, off, s, k).Some? && Scan(i, off, s, n).Some?
    ensures var x, y := Scan(i, off, s, k).value, Scan(i, off, s, n).value;
            && |x.marks| <= |y.marks| && (forall j :: |x.marks| <= j < |y.marks| ==> y.marks[j].pos >= off + k)
            && (|x.marks| == |y.marks| && x.info.keyframe != KeyframeUnknown ==> y.info.keyframe == x.info.keyframe)
    decreases k
  {
    hide Examine;
    if k == 0 {
      ScanMarksInside(i, off, s, n);
      var y := Scan(i, off, s, n).value;
      assert forall j :: 0 <= j < |y.marks| ==> y.marks[j] in y.marks;
      if y.marks == [] && i.keyframe != KeyframeUnknown {
        ScanKeepsKeyframe(i, off, s, n);
      }
    } else if k < n {
      var e := Examine(i, s);
      ScanLonger(InfoAfter(i, e), off + e.size, s[e.size..], k - e.size, n - e.size);
    }
  }
}
