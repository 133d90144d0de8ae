/** The source side as the server runs it: inline metadata is removed from a read buffer in place
    and collected in a fixed build buffer (format_mp3.c). */
module IcyFilter {
  import opened Bytes
  import opened IcyBlocks
  import opened IcyDemux

  /** The size of the build buffer: a block whose length byte is 255. */
  const BUILD_MAX := 4081

  predicate Accepted(b: seq<byte>) {
    |b| > 1 ==> HasTitle(b)
  }

  ghost predicate AllAccepted(blocks: seq<seq<byte>>) {
    forall b :: b in blocks ==> Accepted(b)
  }

  /** The current block after a run of received blocks. */
  function MetaAfter(current: seq<byte>, blocks: seq<seq<byte>>): seq<byte>
    requires current != []
    ensures MetaAfter(current, blocks) != []
  {
    if |blocks| == 0 then current
    else
      var last := |blocks| - 1;
      NextMeta(MetaAfter(current, blocks[..last]), blocks[last])
  }

  /** Every block the parse delivers is complete. */
  lemma {:induction false} BlocksComplete(interval: nat, st: Demux, t: seq<byte>)
    requires Fits(interval, st)
    ensures forall b :: b in Feed(interval, st, t).blocks ==> b != [] && |b| == BlockLen(b[0])
    decreases |t|
  {
    if t == [] {
    } else if st.offset < interval {
      var n := Min(|t|, interval - st.offset);
      BlocksComplete(interval, Demux(st.offset + n, []), t[n..]);
    } else {
      var p := st.partial + t;
      var need := BlockLen(p[0]);
      if |p| >= need {
        BlocksComplete(interval, START, p[need..]);
      }
    }
  }

  lemma PartStep(interval: nat, st: Demux, rest: seq<byte>)
    requires Fits(interval, st) && st.offset == interval && rest != []
    requires |st.partial + rest| < BlockLen((st.partial + rest)[0])
    ensures Feed(interval, st, rest) == Then([], [], Feed(interval, Demux(interval, st.partial + rest), []))
  {
  }

  lemma BlockStep(interval: nat, st: Demux, rest: seq<byte>, b: seq<byte>)
    requires Fits(interval, st) && st.offset == interval && rest != []
    requires b != [] && |st.partial| < |b| == BlockLen(b[0]) <= |st.partial + rest| && b == (st.partial + rest)[..|b|]
    ensures Feed(interval, st, rest) == Then([], [b], Feed(interval, START, rest[|b| - |st.partial|..]))
  {
    assert (st.partial + rest)[|b|..] == rest[|b| - |st.partial|..];
  }

  lemma FeedNothing(interval: nat, st: Demux)
    requires Fits(interval, st)
    ensures Feed(interval, st, []) == Out([], [], st)
  {
  }

  lemma MetaAfterNone(current: seq<byte>)
    requires current != []
    ensures MetaAfter(current, []) == current
  {
  }

  lemma {:induction false} MetaAfterMore(current: seq<byte>, x: seq<seq<byte>>, y: seq<seq<byte>>)
    requires current != []
    ensures MetaAfter(current, x + y) == MetaAfter(MetaAfter(current, x), y)
    decreases |y|
  {
    if |y| == 0 {
      assert x + y == x;
    } else {
      var last := |y| - 1;
      MetaAfterMore(current, x, y[..last]);
      assert (x + y)[..|x| + last] == x + y[..last];
    }
  }

  lemma {:induction false} MetaAfterAppend(current: seq<byte>, x: seq<seq<byte>>, b: seq<byte>)
    requires current != []
    ensures MetaAfter(current, x + [b]) == NextMeta(MetaAfter(current, x), b)
  {
    assert (x + [b])[..|x|] == x;
  }

  /** What the comparisons made when a block is complete decide. */
  lemma Decides(current: seq<byte>, b: seq<byte>)
    requires Proper(current) && HasTitle(current) && b != [] && |b| == BlockLen(b[0])
    ensures var kept := Stored(b);
            var same := |b| <= 1 || CString(kept[1..]) == CString(current[1..]);
            && |kept| == |b| && |current| >= 13 && (|b| > 1 ==> |b| >= 17)
            && (same ==> NextMeta(current, b) == current) && (!same ==> NextMeta(current, b) == kept)
            && (Accepted(b) <==> same || kept[1..13] == TITLE_KEY) && (Rejected(current, b) <==> !Accepted(b))
    ensures Accepted(b) ==> Proper(NextMeta(current, b)) && HasTitle(NextMeta(current, b))
  {
    RejectedIsIntrinsic(current, b);
    if !Rejected(current, b) {
      NextMetaProper(current, b);
    }
    if |b| > 1 {
      assert Stored(b)[1..13] == b[1..13];
    }
  }

  /** Whatever is received, the current block stays a proper title, fit to be sent on. */
  lemma {:induction false} MetaAfterProper(current: seq<byte>, blocks: seq<seq<byte>>)
    requires Proper(current) && HasTitle(current) && AllAccepted(blocks)
    requires forall b :: b in blocks ==> b != [] && |b| == BlockLen(b[0])
    ensures Proper(MetaAfter(current, blocks)) && HasTitle(MetaAfter(current, blocks))
  {
    if |blocks| != 0 {
      var last := |blocks| - 1;
      MetaAfterProper(current, blocks[..last]);
      var b := blocks[last];
      assert b in blocks && Accepted(b);
      RejectedIsIntrinsic(MetaAfter(current, blocks[..last]), b);
      NextMetaProper(MetaAfter(current, blocks[..last]), b);
    }
  }

  ghost predicate AllProper(blocks: seq<seq<byte>>) {
    forall b :: b in blocks ==> Proper(b)
  }

  /** The last block that is a title, or the current one. */
  function LastTitle(current: seq<byte>, blocks: seq<seq<byte>>): (b: seq<byte>)
    requires current != []
    ensures b != []
  {
    if |blocks| == 0 then current
    else if |blocks[|blocks| - 1]| > 1 then blocks[|blocks| - 1]
    else LastTitle(current, blocks[..|blocks| - 1])
  }

  /** Over any run of proper blocks the current text is that of the last title. */
  lemma {:induction false} LastTitleText(current: seq<byte>, blocks: seq<seq<byte>>)
    requires current != [] && AllProper(blocks)
    ensures SameText(MetaAfter(current, blocks), LastTitle(current, blocks))
  {
    if |blocks| != 0 {
      var last := |blocks| - 1;
      var b := blocks[last];
      assert b in blocks && Proper(b);
      LastTitleText(current, blocks[..last]);
      if |b| > 1 {
        assert Stored(b) == b;
      }
    }
  }

  lemma MetaAfterOne(current: seq<byte>, b: seq<byte>)
    requires current != []
    ensures MetaAfter(current, [b]) == NextMeta(current, b)
  {
    MetaAfterAppend(current, [], b);
    assert [] + [b] == [b];
  }

  lemma ArraySlices(data: array<byte>, at: nat, n: nat, m: nat)
    requires n <= m && at + m <= data.Length
    ensures data[at..at + m][..n] == data[at..at + n] && data[at..at + m][n..] == data[at + n..at + m]
  {
  }

  /** The front of the rest completes a block. */
  lemma BlockAhead(interval: nat, st: Demux, rest: seq<byte>, n: nat)
    requires Fits(interval, st) && st.offset == interval && 0 < n <= |rest|
    requires var b := st.partial + rest[..n]; |b| == BlockLen(b[0])
    ensures var b := st.partial + rest[..n];
            && Feed(interval, st, rest) == Then([], [b], Feed(interval, START, rest[n..]))
            && (Accepted(b) ==> AllAccepted([b])) && (!Accepted(b) ==> !AllAccepted(Feed(interval, st, rest).blocks))
  {
    var b := st.partial + rest[..n];
    assert b == (st.partial + rest)[..|b|];
    BlockStep(interval, st, rest, b);
    hide Feed;
    assert b in [b] + Feed(interval, START, rest[n..]).blocks;
  }

  /** The front of the rest is audio. */
  lemma AudioAhead(interval: nat, st: Demux, pre: seq<byte>, blocks: seq<seq<byte>>, rest: seq<byte>, n: nat)
    requires Fits(interval, st) && st.partial == [] && n <= |rest| && st.offset + n <= interval
    ensures Then(pre, blocks, Feed(interval, st, rest))
            == Then(pre + rest[..n], blocks, Feed(interval, Demux(st.offset + n, []), rest[n..]))
  {
    hide Feed;
    AudioSplit(interval, st, rest, n);
    ThenThen(pre, blocks, rest[..n], [], Feed(interval, Demux(st.offset + n, []), rest[n..]));
    assert blocks + [] == blocks;
  }

  lemma ThenFound(pre: seq<byte>, blocks: seq<seq<byte>>, found: seq<seq<byte>>, o: Out)
    ensures Then(pre, blocks, Then([], found, o)) == Then(pre, blocks + found, o)
    ensures AllAccepted(blocks) && AllAccepted(found) ==> AllAccepted(blocks + found)
  {
    ThenThen(pre, blocks, [], found, o);
    assert pre + [] == pre;
  }

  lemma ThenRejected(pre: seq<byte>, blocks: seq<seq<byte>>, o: Out)
    requires !AllAccepted(o.blocks)
    ensures !AllAccepted(Then(pre, blocks, o).blocks)
  {
    assert forall b :: b in o.blocks ==> b in blocks + o.blocks;
  }

  lemma ThenEnd(pre: seq<byte>, blocks: seq<seq<byte>>, st: Demux)
    ensures Then(pre, blocks, Out([], [], st)) == Out(pre, blocks, st)
  {
    assert pre + [] == pre && blocks + [] == blocks;
  }

  lemma NoneAccepted()
    ensures AllAccepted([])
  {
  }

  class Mp3Source {
    const interval: nat
    var offset: nat
    var buildLen: nat
    var buildOffset: nat
    const build: array<byte>
    var metadata: seq<byte>
    var running: bool

    /** The current block is a proper title; the build offset stays below the build length, which never
        exceeds the build buffer. */
    ghost predicate Valid()
      reads this, build
    {
      && interval > 0 && offset <= interval && build.Length == BUILD_MAX
      && Proper(metadata) && HasTitle(metadata)
      && (buildLen > 0 ==>
            && offset == interval && 0 < buildOffset < buildLen && buildLen == BlockLen(build[0]) <= BUILD_MAX
            && forall j :: buildOffset <= j < BUILD_MAX ==> build[j] == 0)
    }

    ghost function State(): (st: Demux)
      requires Valid()
      reads this, build
      ensures Fits(interval, st)
    {
      Demux(offset, if buildLen == 0 then [] else build[..buildOffset])
    }

    constructor (metaint: nat)
      requires metaint > 0
      ensures Valid() && State() == START && metadata == BLANK && running && interval == metaint && fresh(build)
    {
      BlankProper();
      interval, offset, buildLen, buildOffset := metaint, 0, 0, 0;
      build := new byte[BUILD_MAX](_ => 0);
      metadata, running := BLANK, true;
    }

    /** A new title replaces the current block unless it is too long. */
    method SetTitle(artist: Option<seq<byte>>, title: Option<seq<byte>>, url: Url)
      requires Valid() && (url.Inline? ==> URL_OPEN <= url.rest)
      modifies this`metadata
      ensures Valid() && State() == old(State())
      ensures metadata == match TitleBlock(artist, title, url)
                          case None => old(metadata)
                          case Some(b) => b
    {
      TitleBlockProper(artist, title, url);
      var b := TitleBlock(artist, title, url);
      if b.Some? {
        metadata := b.value;
      }
    }

    /** Adds `n` bytes of an unfinished block to the build buffer. */
    method Collect(data: array<byte>, from: nat, n: nat)
      requires Valid() && offset == interval && data != build
      requires 0 < n && from + n <= data.Length
      requires |State().partial| + n < BlockLen((State().partial + data[from..from + n])[0])
      modifies this`buildLen, this`buildOffset, build
      ensures Valid() && State() == Demux(interval, old(State().partial) + data[from..from + n])
    {
      if buildLen == 0 {
        Clear(data[from]);
      }
      ghost var before := build[..buildOffset];
      CopyBytes(data, from, build, buildOffset, n);
      assert build[..buildOffset + n] == build[..buildOffset] + build[buildOffset..buildOffset + n];
      assert forall j :: buildOffset + n <= j < BUILD_MAX ==> build[j] == build[buildOffset + n..][j - buildOffset - n];
      assert build[0] == build[..buildOffset + n][0];
      buildOffset := buildOffset + n;
    }

    method Clear(first: byte)
      requires build.Length == BUILD_MAX
      modifies this`buildLen, this`buildOffset, build
      ensures buildLen == BlockLen(first) && buildOffset == 0
      ensures forall j :: 0 <= j < BUILD_MAX ==> build[j] == 0
    {
      forall j | 0 <= j < BUILD_MAX {
        build[j] := 0;
      }
      buildOffset := 0;
      buildLen := BlockLen(first);
    }

    /** Copies all but the last of the `n` bytes that complete a block: a terminator stays behind. */
    method FillRest(data: array<byte>, from: nat, n: nat, ghost b: seq<byte>)
      requires Valid() && offset == interval && data != build
      requires 0 < n && from + n <= data.Length
      requires b == State().partial + data[from..from + n] && |b| == BlockLen(b[0])
      modifies this`buildLen, this`buildOffset, build
      ensures buildLen == |b| <= BUILD_MAX && build[..buildLen] == Stored(b)
    {
      if buildLen == 0 {
        Clear(data[from]);
      }
      ghost var before := build[..buildOffset];
      CopyBytes(data, from, build, buildOffset, n - 1);
      var end := buildOffset + n - 1;
      assert build[..end] == build[..buildOffset] + build[buildOffset..end];
      assert build[..end] == b[..|b| - 1];
      assert build[end] == build[end..][0] == 0;
      assert build[..end + 1] == build[..end] + [build[end]];
    }

    /** Completes a block with `n` more bytes. A block with new text must be a title. */
    method Complete(data: array<byte>, from: nat, n: nat, ghost b: seq<byte>) returns (accepted: bool)
      requires Valid() && offset == interval && data != build
      requires 0 < n && from + n <= data.Length
      requires b == State().partial + data[from..from + n] && |b| == BlockLen(b[0])
      modifies this`buildLen, this`buildOffset, this`offset, this`metadata, this`running, build
      ensures accepted == !Rejected(old(metadata), b) == Accepted(b)
      ensures accepted ==> Valid() && State() == START && metadata == NextMeta(old(metadata), b)
      ensures running == (accepted && old(running))
    {
      hide CString, Stored, Proper, HasTitle, Rejected, NextMeta, Accepted;
      FillRest(data, from, n, b);
      accepted := Judge(build[..buildLen], b);
      if accepted {
        offset := 0;
        buildLen := 0;
      }
    }

    /** A block with text that is new becomes the current one if it is a title and ends the stream if not. */
    method Judge(kept: seq<byte>, ghost b: seq<byte>) returns (accepted: bool)
      requires Proper(metadata) && HasTitle(metadata) && b != [] && |b| == BlockLen(b[0]) && kept == Stored(b)
      modifies this`metadata, this`running
      ensures accepted == !Rejected(old(metadata), b) == Accepted(b)
      ensures accepted ==> Proper(metadata) && HasTitle(metadata) && metadata == NextMeta(old(metadata), b)
      ensures running == (accepted && old(running))
    {
      Decides(metadata, b);
      hide CString, Stored, Proper, HasTitle, Rejected, NextMeta, Accepted;
      if |kept| > 1 && CString(kept[1..]) != CString(metadata[1..]) {
        if kept[1..13] == TITLE_KEY {
          metadata := kept;
        } else {
          running := false;
          return false;
        }
      }
      return true;
    }

    /** The first byte of the block in hand, when `next` is the next byte of the stream. */
    ghost function FirstByte(next: byte): byte
      requires Valid()
      reads this, build
    {
      if buildLen == 0 then next else build[0]
    }

    /** All `bytes` bytes at `at` belong to a block that stays incomplete. */
    method TakePart(data: array<byte>, at: nat, bytes: nat)
      requires Valid() && data != build && offset == interval && 0 < bytes && at + bytes <= data.Length
      requires |State().partial| + bytes < BlockLen(FirstByte(data[at]))
      modifies this`buildLen, this`buildOffset, build
      ensures Valid()
      ensures Feed(interval, old(State()), data[at..at + bytes]) == Then([], [], Feed(interval, State(), []))
    {
      ghost var st, rest := State(), data[at..at + bytes];
      assert (st.partial + rest)[0] == FirstByte(data[at]);
      PartStep(interval, st, rest);
      hide Feed;
      Collect(data, at, bytes);
    }

    /** The block in hand is completed by the first `n` of the `bytes` bytes at `at`, which leave the buffer. */
    method TakeBlock(data: array<byte>, at: nat, bytes: nat, n: nat, ghost b: seq<byte>) returns (accepted: bool)
      requires Valid() && data != build && offset == interval && 0 < n <= bytes && at + bytes <= data.Length
      requires b == State().partial + data[at..at + n] && |b| == BlockLen(b[0])
      modifies this`offset, this`buildLen, this`buildOffset, this`metadata, this`running, build, data
      ensures data[..at] == old(data[..at]) && running == (accepted && old(running))
      ensures accepted == Accepted(b)
      ensures accepted ==> Valid() && State() == START && metadata == NextMeta(old(metadata), b)
      ensures accepted ==> data[at..at + bytes - n] == old(data[at + n..at + bytes])
    {
      accepted := Complete(data, at, n, b);
      if accepted {
        // overwrite the metadata in the buffer
        CopyBytes(data, at + n, data, at, bytes - n);
      }
    }

    /** At a block boundary, with `bytes` bytes at `at`: takes what belongs to the block out of the
        buffer. `found` is the block, if it got complete. */
    method TakeMetadata(data: array<byte>, at: nat, bytes: nat)
      returns (left: nat, accepted: bool, ghost found: seq<seq<byte>>)
      requires Valid() && data != build && offset == interval && 0 < bytes && at + bytes <= data.Length
      modifies this`offset, this`buildLen, this`buildOffset, this`metadata, this`running, build, data
      ensures left < bytes && data[..at] == old(data[..at]) && running == (accepted && old(running))
      ensures var before := Feed(interval, old(State()), old(data[at..at + bytes]));
              if accepted
              then Valid() && before == Then([], found, Feed(interval, State(), data[at..at + left]))
              else !AllAccepted(before.blocks)
      ensures accepted ==> AllAccepted(found) && metadata == MetaAfter(old(metadata), found)
    {
      hide Feed, MetaAfter, NextMeta;
      var blockLen := if buildLen == 0 then BlockLen(data[at]) else buildLen;
      var remaining := blockLen - (if buildLen == 0 then 0 else buildOffset);
      MetaAfterNone(metadata);
      if bytes < remaining {
        TakePart(data, at, bytes);
        left, accepted, found := 0, true, [];
        assert data[at..at] == [];
      } else {
        ghost var st, rest := State(), data[at..at + bytes];
        ghost var b := st.partial + data[at..at + remaining];
        assert |b| == BlockLen(b[0]);
        ArraySlices(data, at, remaining, bytes);
        BlockAhead(interval, st, rest, remaining);
        MetaAfterOne(metadata, b);
        hide AllAccepted, Accepted;
        left, found := bytes - remaining, [b];
        accepted := TakeBlock(data, at, bytes, remaining, b);
      }
    }

    /** Removes the metadata from the first `count` bytes of `data`, in place. The audio is left at the
        front; the block in hand and the current title carry over to the next buffer. Nothing is
        delivered, and the source stops, exactly when a received block is not acceptable. */
    method FilterMeta(data: array<byte>, count: nat) returns (len: nat, ok: bool)
      requires Valid() && data != build && count <= data.Length
      modifies this`offset, this`buildLen, this`buildOffset, this`metadata, this`running, build, data
      ensures var o := Feed(interval, old(State()), old(data[..count]));
              && ok == AllAccepted(o.blocks)
              && (ok ==> len <= count && data[..len] == o.audio && Valid() && State() == o.st
                         && metadata == MetaAfter(old(metadata), o.blocks))
      ensures running == (ok && old(running))
    {
      hide Feed, MetaAfter, Then, AllAccepted;
      NoneAccepted();
      ghost var meta0, o := metadata, Feed(interval, State(), data[..count]);
      ghost var blocks: seq<seq<byte>> := [];
      var bytes: nat := count;
      len := 0;
      assert data[0..count] == data[..count];
      ThenNothing(o);
      MetaAfterNone(meta0);
      while bytes > 0
        invariant len + bytes <= count <= data.Length && Valid() && running == old(running)
        invariant o == Then(data[..len], blocks, Feed(interval, State(), data[len..len + bytes]))
        invariant AllAccepted(blocks) && metadata == MetaAfter(meta0, blocks)
      {
        ghost var pre, rest, st := data[..len], data[len..len + bytes], State();
        var room := interval - offset;
        if room > 0 {
          // only audio up to the next block
          var n := Min(bytes, room);
          AudioAhead(interval, st, pre, blocks, rest, n);
          ArraySlices(data, len, n, bytes);
          assert data[..len + n] == data[..len] + data[len..len + n];
          offset, len, bytes := offset + n, len + n, bytes - n;
        } else {
          ghost var meta := metadata;
          var left, accepted, found := TakeMetadata(data, len, bytes);
          if !accepted {
            ThenRejected(pre, blocks, Feed(interval, st, rest));
            return 0, false;
          }
          ThenFound(pre, blocks, found, Feed(interval, State(), data[len..len + left]));
          MetaAfterMore(meta0, blocks, found);
          bytes := left;
          blocks := blocks + found;
        }
      }
      ok := true;
      assert data[len..len] == [];
      FeedNothing(interval, State());
      ThenEnd(data[..len], blocks, State());
    }
  }
}
