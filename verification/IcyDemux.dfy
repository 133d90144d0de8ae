/** Stripping interleaved ICY metadata from a source stream (format_mp3.c): the grammar of the stream
    and its incremental parse in arbitrary slices. */
module IcyDemux {
  import opened Bytes
  import opened IcyBlocks

  // ---------------------------------------------------------------- the stream as a whole

  /** The audio of a stream of `interval` audio bytes, a block, `interval` audio bytes, and so on. */
  function AudioOf(interval: nat, s: seq<byte>): seq<byte>
    decreases |s|
  {
    if |s| <= interval then s
    else
      var rest := s[interval..];
      var need := BlockLen(rest[0]);
      s[..interval] + (if |rest| < need then [] else AudioOf(interval, rest[need..]))
  }

  // ---------------------------------------------------------------- slice by slice

  /** Audio bytes since the last block, and the part of the current block already seen. */
  datatype Demux = Demux(offset: nat, partial: seq<byte>)

  const START := Demux(0, [])

  ghost predicate Fits(interval: nat, st: Demux) {
    && st.offset <= interval
    && (st.partial != [] ==> st.offset == interval && |st.partial| < BlockLen(st.partial[0]))
  }

  datatype Out = Out(audio: seq<byte>, blocks: seq<seq<byte>>, st: Demux)

  function Then(audio: seq<byte>, blocks: seq<seq<byte>>, o: Out): Out {
    Out(audio + o.audio, blocks + o.blocks, o.st)
  }

  function Feed(interval: nat, st: Demux, t: seq<byte>): (o: Out)
    requires Fits(interval, st)
    ensures Fits(interval, o.st)
    decreases |t|
  {
    if t == [] then Out([], [], st)
    else if st.offset < interval then
      var n := Min(|t|, interval - st.offset);
      Then(t[..n], [], Feed(interval, Demux(st.offset + n, []), t[n..]))
    else
      var p := st.partial + t;
      var need := BlockLen(p[0]);
      if |p| < need then Out([], [], Demux(interval, p))
      else Then([], [p[..need]], Feed(interval, START, p[need..]))
  }

  lemma ThenThen(a: seq<byte>, x: seq<seq<byte>>, b: seq<byte>, y: seq<seq<byte>>, o: Out)
    ensures Then(a, x, Then(b, y, o)) == Then(a + b, x + y, o)
  {
    assert a + (b + o.audio) == (a + b) + o.audio;
    assert x + (y + o.blocks) == (x + y) + o.blocks;
  }

  lemma ThenNothing(o: Out)
    ensures Then([], [], o) == o
  {
  }

  lemma ThenLast(audio: seq<byte>, st: Demux)
    ensures Then(audio, [], Out([], [], st)) == Out(audio, [], st)
  {
    assert audio + [] == audio;
  }

  lemma FeedRun(interval: nat, st: Demux, t: seq<byte>)
    requires Fits(interval, st) && st.offset < interval && t != []
    ensures var n := Min(|t|, interval - st.offset);
            Feed(interval, st, t) == Then(t[..n], [], Feed(interval, Demux(st.offset + n, []), t[n..]))
  {
  }

  /** Audio bytes can be taken off the front one run at a time. */
  lemma AudioSplit(interval: nat, st: Demux, t: seq<byte>, n: nat)
    requires Fits(interval, st) && st.partial == [] && n <= |t| && st.offset + n <= interval
    ensures Feed(interval, st, t) == Then(t[..n], [], Feed(interval, Demux(st.offset + n, []), t[n..]))
  {
    hide Feed;
    if n == 0 {
      assert t[0..] == t;
      ThenNothing(Feed(interval, st, t));
    } else {
      var m := Min(|t|, interval - st.offset);
      FeedRun(interval, st, t);
      if n < m {
        var u := t[n..];
        FeedRun(interval, Demux(st.offset + n, []), u);
        assert u[..m - n] == t[n..m] && u[m - n..] == t[m..];
        ThenThen(t[..n], [], t[n..m], [], Feed(interval, Demux(st.offset + m, []), t[m..]));
        assert t[..m] == t[..n] + t[n..m];
      }
    }
  }

  /** A block at the front: what is left of the stream behind it, or None while it is incomplete. */
  lemma FeedBlock(interval: nat, t: seq<byte>)
    requires t != []
    ensures var need := BlockLen(t[0]);
            Feed(interval, Demux(interval, []), t)
            == if |t| < need then Out([], [], Demux(interval, t))
               else Then([], [t[..need]], Feed(interval, START, t[need..]))
  {
    assert [] + t == t;
  }

  /** The incremental parse from the start of a stream computes its audio. */
  lemma {:induction false} FeedIsAudio(interval: nat, s: seq<byte>)
    ensures Feed(interval, START, s).audio == AudioOf(interval, s)
    decreases |s|
  {
    var n := Min(|s|, interval);
    var rest := s[n..];
    AudioSplit(interval, START, s, n);
    if |s| <= interval {
      assert s[..n] + [] == s;
    } else {
      hide Feed;
      FeedBlock(interval, rest);
      var need := BlockLen(rest[0]);
      if |rest| >= need {
        FeedIsAudio(interval, rest[need..]);
        assert [] + AudioOf(interval, rest[need..]) == AudioOf(interval, rest[need..]);
      }
    }
  }

  /** `interval` audio bytes before each block, the remaining audio behind the last one. */
  function Weave(interval: nat, audio: seq<byte>, blocks: seq<seq<byte>>): seq<byte>
    requires interval * |blocks| <= |audio|
    decreases |blocks|
  {
    if |blocks| == 0 then audio
    else
      assert interval * |blocks| == interval + interval * (|blocks| - 1);
      audio[..interval] + blocks[0] + Weave(interval, audio[interval..], blocks[1..])
  }

  /** The stream is its audio woven with its blocks, and the block in hand. */
  ghost predicate Lossless(interval: nat, s: seq<byte>, o: Out) {
    && |o.audio| == interval * |o.blocks| + o.st.offset
    && s == Weave(interval, o.audio, o.blocks) + o.st.partial
  }

  /** The parse loses nothing. */
  lemma {:induction false} FeedLossless(interval: nat, s: seq<byte>)
    ensures Lossless(interval, s, Feed(interval, START, s))
    decreases |s|
  {
    hide Lossless;
    var n := Min(|s|, interval);
    var head, rest := s[..n], s[n..];
    AudioSplit(interval, START, s, n);
    assert s == head + rest;
    assert head + [] == head;
    if |s| <= interval {
      WeaveNone(interval, s, []);
    } else {
      FeedBlock(interval, rest);
      hide Feed;
      var need := BlockLen(rest[0]);
      if |rest| < need {
        ThenLast(head, Demux(interval, rest));
        WeaveNone(interval, head, rest);
      } else {
        FeedLossless(interval, rest[need..]);
        WeaveMore(interval, s, rest, need, Feed(interval, START, rest[need..]), Feed(interval, START, s));
      }
    }
  }

  lemma WeaveNone(interval: nat, audio: seq<byte>, partial: seq<byte>)
    requires |audio| <= interval
    ensures Lossless(interval, audio + partial, Out(audio, [], Demux(|audio|, partial)))
  {
    assert interval * 0 == 0;
  }

  lemma WeaveCons(interval: nat, head: seq<byte>, b: seq<byte>, audio: seq<byte>, blocks: seq<seq<byte>>)
    requires |head| == interval && interval * |blocks| <= |audio|
    ensures interval * |[b] + blocks| == interval + interval * |blocks|
    ensures Weave(interval, head + audio, [b] + blocks) == head + b + Weave(interval, audio, blocks)
  {
    assert ([b] + blocks)[1..] == blocks;
    assert (head + audio)[..interval] == head && (head + audio)[interval..] == audio;
  }

  lemma WeaveMore(interval: nat, s: seq<byte>, rest: seq<byte>, need: nat, inner: Out, o: Out)
    requires |s| > interval && rest == s[interval..] && need <= |rest|
    requires Lossless(interval, rest[need..], inner)
    requires o == Then(s[..interval], [], Then([], [rest[..need]], inner))
    ensures Lossless(interval, s, o)
  {
    hide Weave;
    ThenThen(s[..interval], [], [], [rest[..need]], inner);
    assert s[..interval] + [] == s[..interval];
    assert o.blocks == [rest[..need]] + inner.blocks;
    WeaveCons(interval, s[..interval], rest[..need], inner.audio, inner.blocks);
    var w := Weave(interval, inner.audio, inner.blocks);
    assert s == s[..interval] + rest[..need] + (w + inner.st.partial);
    assert s[..interval] + rest[..need] + (w + inner.st.partial) == s[..interval] + rest[..need] + w + inner.st.partial;
  }

  /** Slicing does not matter: feeding two slices is feeding their concatenation. */
  lemma {:induction false} FeedConcat(interval: nat, st: Demux, a: seq<byte>, b: seq<byte>)
    requires Fits(interval, st)
    ensures var o := Feed(interval, st, a);
            Feed(interval, st, a + b) == Then(o.audio, o.blocks, Feed(interval, o.st, b))
    decreases |a|
  {
    if a == [] {
      assert a + b == b;
      ThenNothing(Feed(interval, st, b));
    } else if b == [] {
      assert a + b == a;
      var o := Feed(interval, st, a);
      assert o.audio + [] == o.audio && o.blocks + [] == o.blocks;
    } else if st.offset < interval {
      FeedConcatAudio(interval, st, a, b);
    } else {
      FeedConcatBlock(interval, st, a, b);
    }
  }

  lemma {:induction false} FeedConcatAudio(interval: nat, st: Demux, a: seq<byte>, b: seq<byte>)
    requires Fits(interval, st) && st.offset < interval && a != [] && b != []
    ensures var o := Feed(interval, st, a);
            Feed(interval, st, a + b) == Then(o.audio, o.blocks, Feed(interval, o.st, b))
    decreases |a|, 0
  {
    hide Feed;
    var n := Min(|a|, interval - st.offset);
    AudioSplit(interval, st, a, n);
    AudioSplit(interval, st, a + b, n);
    assert (a + b)[..n] == a[..n] && (a + b)[n..] == a[n..] + b;
    var mid := Demux(st.offset + n, []);
    FeedConcat(interval, mid, a[n..], b);
    var o := Feed(interval, mid, a[n..]);
    ThenThen(a[..n], [], o.audio, o.blocks, Feed(interval, o.st, b));
  }

  lemma {:induction false} FeedConcatBlock(interval: nat, st: Demux, a: seq<byte>, b: seq<byte>)
    requires Fits(interval, st) && st.offset == interval && a != [] && b != []
    ensures var o := Feed(interval, st, a);
            Feed(interval, st, a + b) == Then(o.audio, o.blocks, Feed(interval, o.st, b))
    decreases |a|, 0
  {
    var p := st.partial + a;
    var need := BlockLen(p[0]);
    assert st.partial + (a + b) == p + b;
    if |p| < need {
      ThenNothing(Feed(interval, Demux(interval, p), b));
    } else {
      assert (p + b)[..need] == p[..need] && (p + b)[need..] == p[need..] + b;
      FeedConcat(interval, START, p[need..], b);
      var o := Feed(interval, START, p[need..]);
      ThenThen([], [p[..need]], o.audio, o.blocks, Feed(interval, o.st, b));
    }
  }

  /** Any number of slices. */
  function FeedAll(interval: nat, st: Demux, slices: seq<seq<byte>>): (o: Out)
    requires Fits(interval, st)
    ensures Fits(interval, o.st)
    decreases |slices|
  {
    if |slices| == 0 then Out([], [], st)
    else
      var last := |slices| - 1;
      var o := FeedAll(interval, st, slices[..last]);
      Then(o.audio, o.blocks, Feed(interval, o.st, slices[last]))
  }

  lemma {:induction false} FeedAllConcat(interval: nat, st: Demux, slices: seq<seq<byte>>)
    requires Fits(interval, st)
    ensures FeedAll(interval, st, slices) == Feed(interval, st, Concat(slices))
    decreases |slices|
  {
    if |slices| != 0 {
      var last := |slices| - 1;
      FeedAllConcat(interval, st, slices[..last]);
      FeedConcat(interval, st, Concat(slices[..last]), slices[last]);
    }
  }
}
