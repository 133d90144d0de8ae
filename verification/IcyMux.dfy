/** Interleaving metadata into the stream sent to one listener, under arbitrary partial and failed
    sends, and the round trip through a relay that strips it again (format_mp3.c). */
module IcyMux {
  import opened Bytes
  import opened IcyBlocks
  import opened IcyDemux
  import opened IcyFilter

  /** A metadata buffer. Buffers are compared by identity, so equal texts can be different buffers. */
  datatype Meta = Meta(id: nat, bytes: seq<byte>)

  datatype Client = Client(interval: nat, metaOffset: nat, since: nat, inMeta: bool, associated: Option<Meta>)

  /** The whole block due now: a new one, a single zero byte when nothing changed, or the blank one. */
  function Block(c: Client, a: Option<Meta>): seq<byte> {
    if a.None? then BLANK else if a != c.associated then a.value.bytes else [0]
  }

  /** The length the sender computes for the unsent part of the block due. It is negative when more has
      been sent of a block begun from another buffer than this one has. */
  function MetaLen(c: Client, a: Option<Meta>): int {
    if a.Some? && a == c.associated then 1 else |Block(c, a)| - c.metaOffset
  }

  /** The unsent part lies inside the block. */
  predicate Sendable(c: Client, a: Option<Meta>) {
    MetaLen(c, a) >= 0
  }

  function Rest(c: Client, a: Option<Meta>): seq<byte>
    requires Sendable(c, a)
  {
    if a.Some? && a == c.associated then [0] else Block(c, a)[c.metaOffset..]
  }

  /** What the socket reports for `n` bytes: an error, or how many it took. */
  function Ret(n: nat, answer: int): int {
    if answer < 0 then -1 else Min(answer, n)
  }

  function Taken(n: nat, answer: int): nat {
    if Ret(n, answer) > 0 then Ret(n, answer) else 0
  }

  datatype Sent = Sent(c: Client, wire: seq<byte>, audio: seq<byte>)

  function SendMeta(c: Client, a: Option<Meta>, answer: int): Sent
    requires Sendable(c, a)
  {
    var rest := Rest(c, a);
    if Ret(|rest|, answer) == |rest|
      then Sent(c.(metaOffset := 0, since := 0, inMeta := false, associated := a), rest, [])
    else
      var n := Taken(|rest|, answer);
      Sent(c.(metaOffset := c.metaOffset + n, inMeta := true), rest[..n], [])
  }

  /** A send that may start behind the end of the block due; then there is no result, since the sender
      hands out whatever lies there. */
  function TrySendMeta(c: Client, a: Option<Meta>, answer: int): Option<Sent> {
    if Sendable(c, a) then Some(SendMeta(c, a, answer)) else None
  }

  function SendAudio(c: Client, buf: seq<byte>, answer: int): Sent {
    var n := Taken(|buf|, answer);
    Sent(c.(since := c.since + n), buf[..n], buf[..n])
  }

  function Join(s: Sent, t: Sent): Sent {
    Sent(t.c, s.wire + t.wire, s.audio + t.audio)
  }

  datatype Answers = Answers(pending: int, before: int, block: int, after: int)

  /** The audio up to the next block and, once it is all out, the block. */
  function UpToBlock(c: Client, buf: seq<byte>, a: Option<Meta>, x: Answers): Sent
    requires c.metaOffset == 0
  {
    var s := SendAudio(c, buf, x.before);
    if |s.wire| < |buf| then s else Join(s, SendMeta(s.c, a, x.block))
  }

  /** One call with the unsent part of the current buffer, from a state with no block pending. */
  function WriteFresh(c: Client, buf: seq<byte>, a: Option<Meta>, x: Answers): Sent
    requires c.metaOffset == 0 && (c.interval > 0 ==> c.since <= c.interval)
  {
    if c.interval > 0 && c.interval - c.since <= |buf| then
      var remaining := c.interval - c.since;
      var t := UpToBlock(c, buf[..remaining], a, x);
      if |t.audio| < remaining || t.c.inMeta then t
      else
        var more := buf[remaining..];
        Join(t, SendAudio(t.c, more[..Min(|more|, c.interval)], x.after))
    else SendAudio(c, buf, x.after)
  }

  predicate Ready(c: Client, a: Option<Meta>) {
    && (c.interval > 0 ==> c.since <= c.interval)
    && Sendable(c, a)
    && (!c.inMeta ==> c.metaOffset == 0)
  }

  function WriteBuf(c: Client, buf: seq<byte>, a: Option<Meta>, x: Answers): Sent
    requires Ready(c, a)
  {
    if c.inMeta then
      var s := SendMeta(c, a, x.pending);
      if s.c.inMeta then s else Join(s, WriteFresh(s.c, buf, a, x))
    else WriteFresh(c, buf, a, x)
  }

  // ---------------------------------------------------------------- the wire as the other end reads it

  /** The seen part of a block agrees with the title key as far as it goes. */
  ghost predicate PartAccepted(p: seq<byte>) {
    p != [] && p[0] > 0 ==> forall i :: 1 <= i < |p| && i < 13 ==> p[i] == TITLE_KEY[i - 1]
  }

  /** Reading the wire from its start gives exactly the audio consumed so far and ends where the
      sender believes it is. */
  ghost predicate Framed(c: Client, wire: seq<byte>, audio: seq<byte>) {
    && c.interval > 0 && c.since <= c.interval
    && var o := Feed(c.interval, START, wire);
       && o.audio == audio && o.st.offset == c.since && |o.st.partial| == c.metaOffset
       && (c.inMeta ==> c.since == c.interval)
       && (!c.inMeta ==> c.metaOffset == 0)
       && AllAccepted(o.blocks) && PartAccepted(o.st.partial)
  }

  /** The rest about to be sent completes the block that was begun. */
  ghost predicate Compatible(c: Client, a: Option<Meta>, wire: seq<byte>) {
    && Sendable(c, a)
    && (c.metaOffset > 0 ==>
          var p := Feed(c.interval, START, wire).st.partial;
          p != [] && |Rest(c, a)| == BlockLen(p[0]) - c.metaOffset)
  }

  /** The complete blocks on a wire. */
  ghost function BlocksOn(interval: nat, wire: seq<byte>): seq<seq<byte>> {
    Feed(interval, START, wire).blocks
  }

  ghost predicate ProperMeta(a: Option<Meta>) {
    a.Some? ==> Proper(a.value.bytes)
  }

  lemma AudioKeeps(c: Client, buf: seq<byte>, answer: int, wire: seq<byte>, audio: seq<byte>)
    requires Framed(c, wire, audio) && !c.inMeta && c.since + |buf| <= c.interval
    ensures var s := SendAudio(c, buf, answer);
            && Framed(s.c, wire + s.wire, audio + s.audio) && !s.c.inMeta && s.c.since <= c.since + |buf|
            && BlocksOn(c.interval, wire + s.wire) == BlocksOn(c.interval, wire)
  {
    hide Feed, Then;
    var o := Feed(c.interval, START, wire);
    var w := SendAudio(c, buf, answer).wire;
    FeedConcat(c.interval, START, wire, w);
    AudioSplit(c.interval, o.st, w, |w|);
    assert w[..|w|] == w && w[|w|..] == [];
    FeedNothing(c.interval, Demux(o.st.offset + |w|, []));
    ThenAudio(o.audio, o.blocks, w, Demux(o.st.offset + |w|, []));
  }

  lemma ThenAudio(audio: seq<byte>, blocks: seq<seq<byte>>, w: seq<byte>, st: Demux)
    ensures Then(audio, blocks, Then(w, [], Out([], [], st))) == Out(audio + w, blocks, st)
  {
    ThenThen(audio, blocks, w, [], Out([], [], st));
    assert (audio + w) + [] == audio + w && blocks + [] + [] == blocks;
  }

  /** A piece of a block: it extends the part seen, or completes it. */
  lemma PieceParsed(interval: nat, wire: seq<byte>, w: seq<byte>)
    requires var st := Feed(interval, START, wire).st;
             st.offset == interval && w != [] && |st.partial + w| <= BlockLen((st.partial + w)[0])
    ensures var o, q := Feed(interval, START, wire), Feed(interval, START, wire + w);
            var p := o.st.partial + w;
            && q.audio == o.audio
            && (|p| < BlockLen(p[0]) ==> q.st == Demux(interval, p) && q.blocks == o.blocks)
            && (|p| == BlockLen(p[0]) ==> q.st == START && q.blocks == o.blocks + [p])
  {
    hide Feed, Then;
    var o := Feed(interval, START, wire);
    var p := o.st.partial + w;
    FeedConcat(interval, START, wire, w);
    if |p| < BlockLen(p[0]) {
      PartStep(interval, o.st, w);
      FeedNothing(interval, Demux(interval, p));
      ThenPiece(o.audio, o.blocks, [], Demux(interval, p));
      assert o.blocks + [] == o.blocks;
    } else {
      assert p[..|p|] == p && w[|w|..] == [];
      BlockStep(interval, o.st, w, p);
      FeedNothing(interval, START);
      ThenPiece(o.audio, o.blocks, [p], START);
    }
  }

  lemma ThenPiece(audio: seq<byte>, blocks: seq<seq<byte>>, found: seq<seq<byte>>, st: Demux)
    ensures Then(audio, blocks, Then([], found, Out([], [], st))) == Out(audio, blocks + found, st)
  {
    ThenThen(audio, blocks, [], found, Out([], [], st));
    assert audio + [] == audio && (blocks + found) + [] == blocks + found;
  }

  lemma RestContent(c: Client, a: Option<Meta>, p: seq<byte>)
    requires ProperMeta(a) && Sendable(c, a) && |p| == c.metaOffset && PartAccepted(p)
    requires p != [] ==> |p| < BlockLen(p[0]) && |Rest(c, a)| == BlockLen(p[0]) - |p|
    ensures Rest(c, a) != [] && |p + Rest(c, a)| == BlockLen((p + Rest(c, a))[0])
    ensures PartAccepted(p + Rest(c, a))
  {
    BlankProper();
    var rest := Rest(c, a);
    if !(a.Some? && a == c.associated) {
      var b := Block(c, a);
      assert rest == b[c.metaOffset..];
      if b[0] > 0 {
        assert forall i :: 1 <= i < 13 ==> b[i] == b[1..13][i - 1];
      }
      assert forall i :: |p| <= i < |b| ==> (p + rest)[i] == b[i];
    }
  }

  lemma PartAcceptedPrefix(p: seq<byte>, n: nat)
    requires PartAccepted(p) && n <= |p|
    ensures PartAccepted(p[..n])
    ensures p != [] && |p| == BlockLen(p[0]) ==> Accepted(p)
  {
    if p != [] && |p| == BlockLen(p[0]) && |p| > 1 {
      assert p[1..13] == TITLE_KEY;
    }
  }

  lemma SendMetaWire(c: Client, a: Option<Meta>, answer: int)
    requires Sendable(c, a) && Rest(c, a) != []
    ensures var s, rest := SendMeta(c, a, answer), Rest(c, a);
            && |s.wire| <= |rest| && s.wire == rest[..|s.wire|]
            && s.c == if |s.wire| == |rest| then c.(metaOffset := 0, since := 0, inMeta := false, associated := a)
                      else c.(metaOffset := c.metaOffset + |s.wire|, inMeta := true)
  {
    hide Rest;
  }

  lemma MetaKeeps(c: Client, a: Option<Meta>, answer: int, wire: seq<byte>, audio: seq<byte>)
    requires Framed(c, wire, audio) && c.since == c.interval && ProperMeta(a) && Compatible(c, a, wire)
    ensures var s := SendMeta(c, a, answer); Framed(s.c, wire + s.wire, audio) && (s.c.inMeta || s.c.since == 0)
  {
    hide Feed, PartAccepted, Block, Accepted, AllAccepted;
    var o := Feed(c.interval, START, wire);
    var rest := Rest(c, a);
    RestContent(c, a, o.st.partial);
    SendMetaWire(c, a, answer);
    hide Rest, SendMeta, MetaLen, ProperMeta;
    var s := SendMeta(c, a, answer);
    if s.wire == [] {
      assert wire + [] == wire;
    } else {
      PieceAccepted(o.st.partial, rest, |s.wire|, o.blocks);
      PieceParsed(c.interval, wire, s.wire);
    }
  }

  /** The first `n` bytes of a rest that completes an acceptable block. */
  lemma PieceAccepted(partial: seq<byte>, rest: seq<byte>, n: nat, blocks: seq<seq<byte>>)
    requires 0 < n <= |rest| && AllAccepted(blocks)
    requires var whole := partial + rest; PartAccepted(whole) && |whole| == BlockLen(whole[0])
    ensures var p := partial + rest[..n];
            && |p| <= BlockLen(p[0]) && (|p| == BlockLen(p[0]) <==> n == |rest|)
            && PartAccepted(p) && PartAccepted([]) && (n == |rest| ==> AllAccepted(blocks + [p]))
  {
    var p, whole := partial + rest[..n], partial + rest;
    assert p == whole[..|p|] && p[0] == whole[0];
    PartAcceptedPrefix(whole, |p|);
    if n == |rest| {
      assert p == whole;
    }
  }

  lemma UpToBlockKeeps(c: Client, buf: seq<byte>, a: Option<Meta>, x: Answers, wire: seq<byte>, audio: seq<byte>)
    requires Framed(c, wire, audio) && !c.inMeta && ProperMeta(a) && c.since + |buf| == c.interval && c.metaOffset == 0
    ensures var t := UpToBlock(c, buf, a, x);
            Framed(t.c, wire + t.wire, audio + t.audio) && (|t.audio| == |buf| && !t.c.inMeta ==> t.c.since == 0)
  {
    hide Feed, Framed, SendMeta;
    var s := SendAudio(c, buf, x.before);
    AudioKeeps(c, buf, x.before, wire, audio);
    if |s.wire| == |buf| {
      MetaKeeps(s.c, a, x.block, wire + s.wire, audio + s.audio);
      SendMetaAudio(s.c, a, x.block);
      var t := SendMeta(s.c, a, x.block);
      assert wire + (s.wire + t.wire) == (wire + s.wire) + t.wire && audio + (s.audio + []) == audio + s.audio;
    }
  }

  lemma SendMetaAudio(c: Client, a: Option<Meta>, answer: int)
    requires Sendable(c, a)
    ensures var s := SendMeta(c, a, answer);
            s.audio == [] && s.c.interval == c.interval && (!s.c.inMeta ==> s.c.metaOffset == 0 && s.c.since == 0)
  {
  }

  lemma UpToBlockInterval(c: Client, buf: seq<byte>, a: Option<Meta>, x: Answers)
    requires c.metaOffset == 0
    ensures UpToBlock(c, buf, a, x).c.interval == c.interval
  {
  }

  /** A call from a state with no block pending keeps the framing. */
  lemma FreshKeeps(c: Client, buf: seq<byte>, a: Option<Meta>, x: Answers, wire: seq<byte>, audio: seq<byte>)
    requires Framed(c, wire, audio) && !c.inMeta && ProperMeta(a) && c.metaOffset == 0 && c.since <= c.interval
    ensures var s := WriteFresh(c, buf, a, x); Framed(s.c, wire + s.wire, audio + s.audio)
  {
    hide Feed, Framed, UpToBlock, SendAudio;
    if c.interval > 0 && c.interval - c.since <= |buf| {
      var remaining := c.interval - c.since;
      var t := UpToBlock(c, buf[..remaining], a, x);
      UpToBlockKeeps(c, buf[..remaining], a, x, wire, audio);
      UpToBlockInterval(c, buf[..remaining], a, x);
      if |t.audio| >= remaining && !t.c.inMeta {
        UpToBlockAudio(c, buf[..remaining], a, x);
        var more := buf[remaining..];
        var lot := more[..Min(|more|, c.interval)];
        var u := SendAudio(t.c, lot, x.after);
        AudioKeeps(t.c, lot, x.after, wire + t.wire, audio + t.audio);
        assert wire + (t.wire + u.wire) == (wire + t.wire) + u.wire;
        assert audio + (t.audio + u.audio) == (audio + t.audio) + u.audio;
      }
    } else {
      FramedFacts(c, wire, audio);
      AudioKeeps(c, buf, x.after, wire, audio);
    }
  }

  lemma UpToBlockAudio(c: Client, buf: seq<byte>, a: Option<Meta>, x: Answers)
    requires c.metaOffset == 0
    ensures |UpToBlock(c, buf, a, x).audio| <= |buf|
  {
  }

  lemma FramedFacts(c: Client, wire: seq<byte>, audio: seq<byte>)
    requires Framed(c, wire, audio)
    ensures c.interval > 0 && c.since <= c.interval && (c.inMeta ==> c.since == c.interval)
            && (!c.inMeta ==> c.metaOffset == 0)
  {
  }

  /** Every call keeps the framing, whatever the socket takes. */
  lemma WriteKeeps(c: Client, buf: seq<byte>, a: Option<Meta>, x: Answers, wire: seq<byte>, audio: seq<byte>)
    requires Framed(c, wire, audio) && ProperMeta(a) && Compatible(c, a, wire)
    ensures Ready(c, a)
    ensures var s := WriteBuf(c, buf, a, x); Framed(s.c, wire + s.wire, audio + s.audio)
  {
    hide Feed, Framed, Compatible, WriteFresh;
    FramedFacts(c, wire, audio);
    CompatibleFacts(c, a, wire);
    if c.inMeta {
      var s := SendMeta(c, a, x.pending);
      MetaKeeps(c, a, x.pending, wire, audio);
      assert audio + [] == audio;
      if !s.c.inMeta {
        FramedFacts(s.c, wire + s.wire, audio);
        FreshKeeps(s.c, buf, a, x, wire + s.wire, audio);
        var t := WriteFresh(s.c, buf, a, x);
        assert wire + (s.wire + t.wire) == (wire + s.wire) + t.wire;
        assert [] + t.audio == t.audio;
      }
    } else {
      FreshKeeps(c, buf, a, x, wire, audio);
    }
  }

  lemma CompatibleFacts(c: Client, a: Option<Meta>, wire: seq<byte>)
    requires Compatible(c, a, wire)
    ensures Sendable(c, a)
  {
  }

  // ---------------------------------------------------------------- whole sessions

  /** A call: what is left of the current buffer, its metadata, and what the socket takes. */
  datatype Call = Call(buf: seq<byte>, meta: Option<Meta>, answers: Answers)

  datatype Link = Link(c: Client, wire: seq<byte>, audio: seq<byte>)

  function NewLink(interval: nat): Link {
    Link(Client(interval, 0, 0, false, None), [], [])
  }

  ghost predicate Allowed(l: Link, call: Call) {
    ProperMeta(call.meta) && Ready(l.c, call.meta) && Compatible(l.c, call.meta, l.wire)
  }

  /** The link after a call; a call that would send from behind the end of its block has no result. */
  function After(l: Link, call: Call): Link {
    if !Ready(l.c, call.meta) then l
    else
      var s := WriteBuf(l.c, call.buf, call.meta, call.answers);
      Link(s.c, l.wire + s.wire, l.audio + s.audio)
  }

  /** `l` turns into `end` by these calls, no block being completed with another one's rest. */
  ghost predicate Session(l: Link, calls: seq<Call>, end: Link)
    decreases |calls|
  {
    if |calls| == 0 then l == end
    else Allowed(l, calls[0]) && Session(After(l, calls[0]), calls[1..], end)
  }

  lemma {:induction false} SessionFramed(l: Link, calls: seq<Call>, end: Link)
    requires Framed(l.c, l.wire, l.audio) && Session(l, calls, end)
    ensures Framed(end.c, end.wire, end.audio) && end.c.interval == l.c.interval
    decreases |calls|
  {
    hide Framed, Feed, WriteBuf, Ready, Compatible;
    if |calls| != 0 {
      var call := calls[0];
      WriteKeeps(l.c, call.buf, call.meta, call.answers, l.wire, l.audio);
      IntervalKept(l.c, call.buf, call.meta, call.answers);
      SessionFramed(After(l, call), calls[1..], end);
    }
  }

  lemma IntervalKept(c: Client, buf: seq<byte>, a: Option<Meta>, x: Answers)
    requires Ready(c, a)
    ensures WriteBuf(c, buf, a, x).c.interval == c.interval
  {
  }

  lemma NewLinkFramed(interval: nat)
    requires interval > 0
    ensures var l := NewLink(interval); Framed(l.c, l.wire, l.audio)
  {
  }

  // ---------------------------------------------------------------- sessions with steady blocks

  /** `l` turns into `end` by these calls, and the metadata in hand, at first `last`, does not change while
      one of its blocks is part-sent. */
  ghost predicate Steady(l: Link, last: Option<Meta>, calls: seq<Call>, end: Link)
    decreases |calls|
  {
    if |calls| == 0 then l == end
    else
      && ProperMeta(calls[0].meta) && (l.c.metaOffset > 0 ==> calls[0].meta == last)
      && Steady(After(l, calls[0]), calls[0].meta, calls[1..], end)
  }

  /** What has been sent of a block is the front of the block due under `a`. */
  ghost predicate Underway(c: Client, a: Option<Meta>, wire: seq<byte>) {
    c.metaOffset > 0 ==>
      && (a.Some? ==> a != c.associated) && c.metaOffset < |Block(c, a)|
      && Feed(c.interval, START, wire).st.partial == Block(c, a)[..c.metaOffset]
  }

  lemma UnderwayCompatible(c: Client, a: Option<Meta>, wire: seq<byte>)
    requires ProperMeta(a) && Underway(c, a, wire)
    ensures Compatible(c, a, wire)
  {
    hide Feed;
    BlankProper();
    if c.metaOffset > 0 {
      assert Block(c, a)[..c.metaOffset][0] == Block(c, a)[0];
    }
  }

  lemma SendMetaUnderway(c: Client, a: Option<Meta>, answer: int, wire: seq<byte>, audio: seq<byte>)
    requires Framed(c, wire, audio) && c.since == c.interval && ProperMeta(a) && Underway(c, a, wire)
    ensures Sendable(c, a)
    ensures var s := SendMeta(c, a, answer);
            && Underway(s.c, a, wire + s.wire)
            && BlocksOn(c.interval, wire + s.wire) == BlocksOn(c.interval, wire) + MetaDone(c, a, answer)
  {
    hide Feed, PartAccepted, Accepted, AllAccepted;
    UnderwayCompatible(c, a, wire);
    WholeBlock(c, a);
    DueRest(c, a);
    SendMetaWire(c, a, answer);
    PartialIs(c, a, wire);
    hide SendMeta, Block, Rest, Compatible, ProperMeta, MetaLen;
    var s, b := SendMeta(c, a, answer), Block(c, a);
    if s.wire == [] {
      assert wire + [] == wire && BlocksOn(c.interval, wire) + [] == BlocksOn(c.interval, wire);
    } else {
      PieceOfBlock(c.interval, wire, b, c.metaOffset, s.wire);
    }
  }

  /** Some more bytes of a block of which the front has been sent. */
  lemma PieceOfBlock(interval: nat, wire: seq<byte>, b: seq<byte>, k: nat, w: seq<byte>)
    requires k + |w| <= |b| && w != [] && |b| == BlockLen(b[0]) && w == b[k..][..|w|]
    requires Feed(interval, START, wire).st == Demux(interval, b[..k])
    ensures var o, q := Feed(interval, START, wire), Feed(interval, START, wire + w);
            if k + |w| < |b| then q.st.partial == b[..k + |w|] && q.blocks == o.blocks + []
            else q.blocks == o.blocks + [b]
  {
    hide Feed;
    FrontGrows(b, k, |w|);
    PieceParsed(interval, wire, w);
  }

  lemma WholeBlock(c: Client, a: Option<Meta>)
    requires ProperMeta(a)
    ensures Block(c, a) != [] && |Block(c, a)| == BlockLen(Block(c, a)[0])
  {
    BlankProper();
  }

  lemma DueRest(c: Client, a: Option<Meta>)
    requires Sendable(c, a) && (c.metaOffset > 0 ==> (a.Some? ==> a != c.associated) && c.metaOffset < |Block(c, a)|)
    requires Block(c, a) != []
    ensures Rest(c, a) == Block(c, a)[c.metaOffset..] && Rest(c, a) != []
  {
  }

  lemma FrontGrows(b: seq<byte>, k: nat, n: nat)
    requires k + n <= |b|
    ensures b[..k] + b[k..][..n] == b[..k + n] && (k + n > 0 ==> b[..k + n][0] == b[0]) && b[..|b|] == b
  {
  }

  /** Without anything sent of it, nothing of the block has arrived either. */
  lemma PartialIs(c: Client, a: Option<Meta>, wire: seq<byte>)
    requires c.metaOffset <= |Block(c, a)| && |Feed(c.interval, START, wire).st.partial| == c.metaOffset
             && Underway(c, a, wire)
    ensures Feed(c.interval, START, wire).st.partial == Block(c, a)[..c.metaOffset]
  {
    hide Feed, Block;
  }

  lemma UpToBlockUnderway(c: Client, buf: seq<byte>, a: Option<Meta>, x: Answers, wire: seq<byte>, audio: seq<byte>)
    requires Framed(c, wire, audio) && !c.inMeta && ProperMeta(a) && c.since + |buf| == c.interval && c.metaOffset == 0
    ensures var t := UpToBlock(c, buf, a, x);
            && Underway(t.c, a, wire + t.wire)
            && BlocksOn(c.interval, wire + t.wire) == BlocksOn(c.interval, wire) + UpToBlockDone(c, buf, a, x)
  {
    hide Feed, SendMeta, Framed, BlocksOn, MetaDone;
    var s := SendAudio(c, buf, x.before);
    AudioKeeps(c, buf, x.before, wire, audio);
    assert BlocksOn(c.interval, wire) + [] == BlocksOn(c.interval, wire);
    if |s.wire| == |buf| {
      SendMetaUnderway(s.c, a, x.block, wire + s.wire, audio + s.audio);
      var t := SendMeta(s.c, a, x.block);
      assert wire + (s.wire + t.wire) == (wire + s.wire) + t.wire;
    }
  }

  lemma FreshUnderway(c: Client, buf: seq<byte>, a: Option<Meta>, x: Answers, wire: seq<byte>, audio: seq<byte>)
    requires Framed(c, wire, audio) && !c.inMeta && ProperMeta(a) && c.metaOffset == 0 && c.since <= c.interval
    ensures var s := WriteFresh(c, buf, a, x);
            && Underway(s.c, a, wire + s.wire)
            && BlocksOn(c.interval, wire + s.wire) == BlocksOn(c.interval, wire) + FreshDone(c, buf, a, x)
  {
    hide Feed, Framed, UpToBlock, UpToBlockDone, BlocksOn;
    FramedFacts(c, wire, audio);
    if c.interval - c.since <= |buf| {
      var remaining := c.interval - c.since;
      var t := UpToBlock(c, buf[..remaining], a, x);
      UpToBlockUnderway(c, buf[..remaining], a, x, wire, audio);
      UpToBlockKeeps(c, buf[..remaining], a, x, wire, audio);
      UpToBlockAudio(c, buf[..remaining], a, x);
      UpToBlockInterval(c, buf[..remaining], a, x);
      FramedFacts(t.c, wire + t.wire, audio + t.audio);
      if |t.audio| == remaining && !t.c.inMeta {
        var more := buf[remaining..];
        var n := Min(|more|, c.interval);
        AudioKeeps(t.c, more[..n], x.after, wire + t.wire, audio + t.audio);
        var u := SendAudio(t.c, more[..n], x.after);
        assert wire + (t.wire + u.wire) == (wire + t.wire) + u.wire;
      }
    } else {
      AudioKeeps(c, buf, x.after, wire, audio);
      assert BlocksOn(c.interval, wire) + [] == BlocksOn(c.interval, wire);
    }
  }

  /** A write leaves what it has sent of a block at the front of the block due, and the blocks it completes
      are the blocks due. */
  lemma WriteUnderway(c: Client, buf: seq<byte>, a: Option<Meta>, x: Answers, wire: seq<byte>, audio: seq<byte>)
    requires Framed(c, wire, audio) && ProperMeta(a) && Underway(c, a, wire)
    ensures Ready(c, a)
    ensures var s := WriteBuf(c, buf, a, x);
            && Underway(s.c, a, wire + s.wire)
            && BlocksOn(c.interval, wire + s.wire) == BlocksOn(c.interval, wire) + WriteDone(c, buf, a, x)
  {
    hide Feed, SendMeta, WriteFresh, Framed, Underway, Compatible, MetaLen, ProperMeta, BlocksOn, FreshDone, Block;
    UnderwayCompatible(c, a, wire);
    WriteKeeps(c, buf, a, x, wire, audio);
    FramedFacts(c, wire, audio);
    if c.inMeta {
      SendMetaUnderway(c, a, x.pending, wire, audio);
      var s := SendMeta(c, a, x.pending);
      MetaKeeps(c, a, x.pending, wire, audio);
      SendMetaAudio(c, a, x.pending);
      assert MetaDone(c, a, x.pending) + [] == MetaDone(c, a, x.pending);
      if !s.c.inMeta {
        FramedFacts(s.c, wire + s.wire, audio);
        FreshUnderway(s.c, buf, a, x, wire + s.wire, audio);
        var t := WriteFresh(s.c, buf, a, x);
        assert wire + (s.wire + t.wire) == (wire + s.wire) + t.wire;
        JoinBlocks(BlocksOn(c.interval, wire), MetaDone(c, a, x.pending), FreshDone(s.c, buf, a, x));
      }
    } else {
      FreshUnderway(c, buf, a, x, wire, audio);
    }
  }

  lemma JoinBlocks(a: seq<seq<byte>>, b: seq<seq<byte>>, c: seq<seq<byte>>)
    ensures (a + b) + c == a + (b + c)
  {
  }

  // ---------------------------------------------------------------- the blocks due

  /** The block a send completes, if it does: the one due. */
  function MetaDone(c: Client, a: Option<Meta>, answer: int): seq<seq<byte>>
    requires Sendable(c, a)
  {
    if SendMeta(c, a, answer).c.inMeta then [] else [Block(c, a)]
  }

  function UpToBlockDone(c: Client, buf: seq<byte>, a: Option<Meta>, x: Answers): seq<seq<byte>>
    requires c.metaOffset == 0
  {
    var s := SendAudio(c, buf, x.before);
    if |s.wire| < |buf| then [] else MetaDone(s.c, a, x.block)
  }

  function FreshDone(c: Client, buf: seq<byte>, a: Option<Meta>, x: Answers): seq<seq<byte>>
    requires c.metaOffset == 0 && (c.interval > 0 ==> c.since <= c.interval)
  {
    if c.interval > 0 && c.interval - c.since <= |buf| then UpToBlockDone(c, buf[..c.interval - c.since], a, x) else []
  }

  function WriteDone(c: Client, buf: seq<byte>, a: Option<Meta>, x: Answers): seq<seq<byte>>
    requires Ready(c, a)
  {
    if c.inMeta then
      var s := SendMeta(c, a, x.pending);
      MetaDone(c, a, x.pending) + (if s.c.inMeta then [] else FreshDone(s.c, buf, a, x))
    else FreshDone(c, buf, a, x)
  }

  /** The blocks due in a session, each when it is completed: the current title, or a single zero byte when
      the listener has it already. */
  function DueBlocks(l: Link, calls: seq<Call>): seq<seq<byte>>
    decreases |calls|
  {
    if |calls| == 0 then []
    else
      var call := calls[0];
      (if Ready(l.c, call.meta) then WriteDone(l.c, call.buf, call.meta, call.answers) else [])
      + DueBlocks(After(l, call), calls[1..])
  }

  lemma WriteDoneProper(c: Client, buf: seq<byte>, a: Option<Meta>, x: Answers)
    requires Ready(c, a) && ProperMeta(a)
    ensures AllProper(WriteDone(c, buf, a, x))
  {
    hide SendMeta, SendAudio;
    BlankProper();
  }

  /** Everything completed is a block due, in order, and proper. */
  lemma {:induction false} BlocksAreDue(l: Link, last: Option<Meta>, calls: seq<Call>, end: Link)
    requires Framed(l.c, l.wire, l.audio) && Underway(l.c, last, l.wire) && Steady(l, last, calls, end)
    ensures BlocksOn(l.c.interval, end.wire) == BlocksOn(l.c.interval, l.wire) + DueBlocks(l, calls)
    ensures AllProper(DueBlocks(l, calls))
    decreases |calls|
  {
    if |calls| == 0 {
      assert BlocksOn(l.c.interval, l.wire) + [] == BlocksOn(l.c.interval, l.wire);
    } else {
      var call := calls[0];
      assert Underway(l.c, call.meta, l.wire);
      hide Feed, Framed, WriteBuf, Underway, Compatible, Ready, WriteDone, BlocksOn, Proper;
      UnderwayCompatible(l.c, call.meta, l.wire);
      WriteKeeps(l.c, call.buf, call.meta, call.answers, l.wire, l.audio);
      WriteUnderway(l.c, call.buf, call.meta, call.answers, l.wire, l.audio);
      IntervalKept(l.c, call.buf, call.meta, call.answers);
      WriteDoneProper(l.c, call.buf, call.meta, call.answers);
      BlocksAreDue(After(l, call), call.meta, calls[1..], end);
      JoinBlocks(BlocksOn(l.c.interval, l.wire), WriteDone(l.c, call.buf, call.meta, call.answers),
                 DueBlocks(After(l, call), calls[1..]));
    }
  }

  /** When the metadata does not change while a block is part-sent, no block is completed with another
      one's rest, and no send starts behind the end of its block. */
  lemma {:induction false} SteadyIsSession(l: Link, last: Option<Meta>, calls: seq<Call>, end: Link)
    requires Framed(l.c, l.wire, l.audio) && Underway(l.c, last, l.wire) && Steady(l, last, calls, end)
    ensures Session(l, calls, end)
    decreases |calls|
  {
    if |calls| != 0 {
      var call := calls[0];
      assert Underway(l.c, call.meta, l.wire);
      hide Feed, Framed, WriteBuf, Underway, Compatible, Ready;
      UnderwayCompatible(l.c, call.meta, l.wire);
      WriteKeeps(l.c, call.buf, call.meta, call.answers, l.wire, l.audio);
      WriteUnderway(l.c, call.buf, call.meta, call.answers, l.wire, l.audio);
      SteadyIsSession(After(l, call), call.meta, calls[1..], end);
    }
  }

  /** Shape of the wire: in every session it is the audio consumed so far with a complete block behind
      each `interval` bytes, each of them the block due, and the part of the next one that has been sent. */
  lemma WireShape(interval: nat, calls: seq<Call>, end: Link)
    requires interval > 0 && Steady(NewLink(interval), None, calls, end)
    ensures end.c.since <= interval && (end.c.inMeta ==> end.c.since == interval)
    ensures var o := Feed(interval, START, end.wire);
            && |end.audio| == interval * |o.blocks| + end.c.since
            && (forall b :: b in o.blocks ==> b != [] && |b| == BlockLen(b[0]))
            && |o.st.partial| == end.c.metaOffset
            && end.wire == Weave(interval, end.audio, o.blocks) + o.st.partial
            && o.blocks == DueBlocks(NewLink(interval), calls)
  {
    hide Feed, DueBlocks;
    SteadyBlocks(interval, calls, end);
    NewLinkFramed(interval);
    SteadyIsSession(NewLink(interval), None, calls, end);
    SessionShape(interval, calls, end);
  }

  lemma SteadyBlocks(interval: nat, calls: seq<Call>, end: Link)
    requires interval > 0 && Steady(NewLink(interval), None, calls, end)
    ensures Feed(interval, START, end.wire).blocks == DueBlocks(NewLink(interval), calls)
    ensures AllProper(DueBlocks(NewLink(interval), calls))
  {
    NewLinkFramed(interval);
    FeedNothing(interval, START);
    hide DueBlocks, Steady;
    BlocksAreDue(NewLink(interval), None, calls, end);
    assert [] + DueBlocks(NewLink(interval), calls) == DueBlocks(NewLink(interval), calls);
  }

  /** Round trip: whatever the socket took and however a relay slices what it reads, stripping the
      metadata again recovers exactly the audio consumed so far; the blocks found are the blocks due, none
      is rejected, and the text the relay ends up with is that of the last title completed. */
  lemma RoundTrip(interval: nat, calls: seq<Call>, end: Link, slices: seq<seq<byte>>)
    requires interval > 0 && Steady(NewLink(interval), None, calls, end) && Concat(slices) == end.wire
    ensures FeedAll(interval, START, slices).audio == end.audio == AudioOf(interval, end.wire)
    ensures var blocks := FeedAll(interval, START, slices).blocks;
            && AllAccepted(blocks) && blocks == DueBlocks(NewLink(interval), calls)
            && SameText(MetaAfter(BLANK, blocks), LastTitle(BLANK, blocks))
  {
    hide Feed, FeedAll, DueBlocks, Steady;
    FeedAllConcat(interval, START, slices);
    SteadyBlocks(interval, calls, end);
    BlankProper();
    LastTitleText(BLANK, DueBlocks(NewLink(interval), calls));
    NewLinkFramed(interval);
    SteadyIsSession(NewLink(interval), None, calls, end);
    SessionRoundTrip(interval, calls, end, slices);
  }

  /** The same for every session in which blocks are completed with rests that fit. */
  lemma SessionShape(interval: nat, calls: seq<Call>, end: Link)
    requires interval > 0 && Session(NewLink(interval), calls, end)
    ensures end.c.since <= interval && (end.c.inMeta ==> end.c.since == interval)
    ensures var o := Feed(interval, START, end.wire);
            && |end.audio| == interval * |o.blocks| + end.c.since
            && (forall b :: b in o.blocks ==> b != [] && |b| == BlockLen(b[0]))
            && |o.st.partial| == end.c.metaOffset
            && end.wire == Weave(interval, end.audio, o.blocks) + o.st.partial
  {
    NewLinkFramed(interval);
    SessionFramed(NewLink(interval), calls, end);
    FeedLossless(interval, end.wire);
    BlocksComplete(interval, START, end.wire);
  }

  lemma SessionRoundTrip(interval: nat, calls: seq<Call>, end: Link, slices: seq<seq<byte>>)
    requires interval > 0 && Session(NewLink(interval), calls, end) && Concat(slices) == end.wire
    ensures FeedAll(interval, START, slices).audio == end.audio == AudioOf(interval, end.wire)
    ensures AllAccepted(FeedAll(interval, START, slices).blocks)
  {
    NewLinkFramed(interval);
    SessionFramed(NewLink(interval), calls, end);
    FeedAllConcat(interval, START, slices);
    FeedIsAudio(interval, end.wire);
  }

  // ---------------------------------------------------------------- when a block changes half way

  lemma SomeAudio(interval: nat, t: seq<byte>)
    requires interval > 0 && t != []
    ensures Feed(interval, START, t).audio != []
  {
    FeedIsAudio(interval, t);
  }

  /** More bytes than the block in hand lacks: the surplus is taken for audio. */
  lemma Overflow(interval: nat, wire: seq<byte>, fit: seq<byte>, over: seq<byte>)
    requires interval > 0 && over != [] && fit != []
    requires var st := Feed(interval, START, wire).st;
             st.offset == interval && |st.partial + fit| == BlockLen((st.partial + fit)[0])
    ensures Feed(interval, START, wire + (fit + over)).audio != Feed(interval, START, wire).audio
  {
    hide Feed;
    PieceParsed(interval, wire, fit);
    assert wire + (fit + over) == (wire + fit) + over;
    FeedConcat(interval, START, wire + fit, over);
    SomeAudio(interval, over);
  }

  /** The send has a result, and the framing survives it. */
  ghost predicate KeepsFraming(r: Option<Sent>, wire: seq<byte>, audio: seq<byte>) {
    r.Some? && Framed(r.value.c, wire + r.value.wire, audio)
  }

  /** With a block part-sent, sending the rest of the block due now keeps the framing if and only if the
      length computed for it is what is missing of the block that was begun. Nothing in the sender
      checks this: the block due is that of the buffer now in hand. */
  lemma FramingIffCompatible(c: Client, a: Option<Meta>, answer: int, wire: seq<byte>, audio: seq<byte>)
    requires Framed(c, wire, audio) && c.inMeta && c.metaOffset > 0 && ProperMeta(a) && answer >= MetaLen(c, a)
    ensures var p := Feed(c.interval, START, wire).st.partial;
            && |p| == c.metaOffset
            && (KeepsFraming(TrySendMeta(c, a, answer), wire, audio)
               <==> MetaLen(c, a) == BlockLen(p[0]) - c.metaOffset)
  {
    hide Feed;
    var o := Feed(c.interval, START, wire);
    var missing := BlockLen(o.st.partial[0]) - c.metaOffset;
    assert missing > 0;
    if Sendable(c, a) {
      RestFits(c, a, answer, wire, audio);
    }
  }

  lemma RestFits(c: Client, a: Option<Meta>, answer: int, wire: seq<byte>, audio: seq<byte>)
    requires Framed(c, wire, audio) && c.inMeta && c.metaOffset > 0 && ProperMeta(a) && Sendable(c, a)
             && answer >= MetaLen(c, a)
    ensures var s := SendMeta(c, a, answer); Framed(s.c, wire + s.wire, audio) <==> Compatible(c, a, wire)
  {
    hide Feed;
    var o := Feed(c.interval, START, wire);
    var s := SendMeta(c, a, answer);
    var rest := Rest(c, a);
    assert s.wire == rest && !s.c.inMeta;
    var missing := BlockLen(o.st.partial[0]) - c.metaOffset;
    if Compatible(c, a, wire) {
      MetaKeeps(c, a, answer, wire, audio);
    } else if rest == [] {
      assert wire + [] == wire;
    } else if |rest| < missing {
      PieceParsed(c.interval, wire, rest);
    } else {
      assert rest[..missing] + rest[missing..] == rest;
      Overflow(c.interval, wire, rest[..missing], rest[missing..]);
    }
  }

  /** A title of 32 text bytes. */
  const LONGER: seq<byte> := [2] + TITLE_KEY + Zeros(20)

  /** A session in which the interval ends with the buffer and five bytes of the blank block go out. */
  lemma PartSent(call: Call) returns (end: Link)
    requires call == Call([7], None, Answers(0, 1, 5, 0))
    ensures Session(NewLink(1), [call], end)
    ensures end == Link(Client(1, 5, 1, true, None), [7] + BLANK[..5], [7])
  {
    var l := NewLink(1);
    BlankProper();
    assert Allowed(l, call);
    end := After(l, call);
    assert Session(end, [], end);
    assert [call][1..] == [];
  }

  lemma PartSentParsed()
    ensures Feed(1, START, [7] + BLANK[..5]) == Out([7], [], Demux(1, BLANK[..5]))
  {
    var wire: seq<byte> := [7] + BLANK[..5];
    AudioSplit(1, START, wire, 1);
    assert wire[..1] == [7] && wire[1..] == BLANK[..5];
    FeedBlock(1, BLANK[..5]);
  }

  lemma NextSent(end: Link, next: Call)
    requires end == Link(Client(1, 5, 1, true, None), [7] + BLANK[..5], [7])
    requires next == Call([], Some(Meta(1, LONGER)), Answers(28, 0, 0, 0))
    ensures Ready(end.c, next.meta) && ProperMeta(next.meta)
    ensures After(end, next).wire == end.wire + LONGER[5..] && After(end, next).audio == [7]
  {
    assert LONGER[1..13] == TITLE_KEY && |LONGER| == 33;
    assert Rest(end.c, next.meta) == LONGER[5..];
    var s := SendMeta(end.c, next.meta, 28);
    assert s.wire == LONGER[5..] && s.c == Client(1, 0, 0, false, next.meta);
    assert WriteFresh(s.c, [], next.meta, next.answers) == Sent(s.c, [], []);
    assert LONGER[5..] + [] == LONGER[5..];
  }

  /** It happens: after such a session the next buffer carries another title, and the listener takes
      title bytes for audio. */
  lemma BlockChangeBreaksFraming()
    ensures exists calls: seq<Call>, end: Link, next: Call ::
              && Session(NewLink(1), calls, end) && Ready(end.c, next.meta) && ProperMeta(next.meta)
              && Feed(1, START, After(end, next).wire).audio != After(end, next).audio
  {
    hide Feed, Session, After, Ready, ProperMeta;
    var call := Call([7], None, Answers(0, 1, 5, 0));
    var end := PartSent(call);
    PartSentParsed();
    var next := Call([], Some(Meta(1, LONGER)), Answers(28, 0, 0, 0));
    NextSent(end, next);
    var sent := LONGER[5..];
    assert |LONGER| == 33;
    assert sent[..12] + sent[12..] == sent;
    Overflow(1, end.wire, sent[..12], sent[12..]);
    assert Session(NewLink(1), [call], end);
  }

  /** It can be worse: twenty bytes of a longer block go out, and the next buffer's block has seventeen. The
      length computed for its rest is negative. */
  lemma OffsetBehindBlock()
    ensures exists calls: seq<Call>, end: Link, next: Option<Meta> ::
              Session(NewLink(1), calls, end) && ProperMeta(next) && end.c.inMeta && MetaLen(end.c, next) < 0
  {
    var meta, next := Some(Meta(1, LONGER)), Some(Meta(2, BLANK));
    var call := Call([7], meta, Answers(0, 1, 20, 0));
    var l := NewLink(1);
    BlankProper();
    assert LONGER[1..13] == TITLE_KEY && |LONGER| == 33;
    assert Allowed(l, call);
    var end := After(l, call);
    var s := UpToBlock(l.c, [7], meta, call.answers);
    assert SendAudio(l.c, [7], 1) == Sent(Client(1, 0, 1, false, None), [7], [7]);
    assert s.c == Client(1, 20, 1, true, None);
    assert [7][..1] == [7];
    assert end.c == s.c;
    assert Session(end, [], end);
    assert [call][1..] == [];
    assert Session(l, [call], end) && ProperMeta(next) && end.c.inMeta && MetaLen(end.c, next) < 0;
  }
}
