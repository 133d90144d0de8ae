/** The listener side as the server runs it: counters and positions advanced by each send
    (format_mp3.c). What the socket answers to each send is given with the call. */
module IcyListener {
  import opened Bytes
  import opened IcyBlocks
  import opened IcyMux

  lemma SendKeeps(c: Client, buf: seq<byte>, answer: int)
    ensures SendAudio(c, buf, answer).c == c.(since := c.since + |SendAudio(c, buf, answer).wire|)
  {
  }

  class Listener {
    var interval: nat
    var metaOffset: nat
    var since: nat
    var inMeta: bool
    var associated: Option<Meta>
    var pos: nat

    ghost function State(): Client
      reads this
    {
      Client(interval, metaOffset, since, inMeta, associated)
    }

    /** The counter never passes the interval, and an offset belongs to a pending block. */
    ghost predicate Valid()
      reads this
    {
      (interval > 0 ==> since <= interval) && (!inMeta ==> metaOffset == 0)
    }

    constructor (metaint: nat)
      ensures Valid() && State() == NewLink(metaint).c && pos == 0
    {
      interval, metaOffset, since, inMeta, associated, pos := metaint, 0, 0, false, None, 0;
    }

    /** Sends the block due, or what is left of it. When the computed length is negative the server sends
        bytes from behind the block: `inside` is false and nothing more is said. */
    method SendStreamMetadata(a: Option<Meta>, answer: int) returns (sent: nat, inside: bool, ghost wire: seq<byte>)
      modifies this`metaOffset, this`since, this`inMeta, this`associated
      ensures inside <==> TrySendMeta(old(State()), a, answer).Some?
      ensures inside ==>
                State() == SendMeta(old(State()), a, answer).c && wire == SendMeta(old(State()), a, answer).wire
      ensures inside ==> sent == |wire|
    {
      var rest, metaLen := [0], 1;
      if a.Some? && a != associated {
        rest, metaLen := a.value.bytes, |a.value.bytes| - metaOffset;
      } else if a.None? {
        rest, metaLen := BLANK, 17 - metaOffset;
      }
      if metaLen < 0 {
        return 0, false, [];
      }
      inside := true;
      rest := rest[|rest| - metaLen..];
      var ret := Ret(|rest|, answer);
      if ret == |rest| {
        associated := a;
        metaOffset, inMeta, since := 0, false, 0;
        return ret, inside, rest;
      }
      if ret > 0 {
        metaOffset := metaOffset + ret;
      } else {
        ret := 0;
      }
      inMeta := true;
      return ret, inside, rest[..ret];
    }

    /** Sends `n` audio bytes from the current position. */
    method SendBytes(refbuf: seq<byte>, n: nat, answer: int) returns (sent: nat)
      requires pos + n <= |refbuf|
      modifies this`since, this`pos
      ensures var s := SendAudio(old(State()), refbuf[old(pos)..old(pos) + n], answer);
              State() == s.c && sent == |s.wire| <= n && pos == old(pos) + sent
                && refbuf[old(pos)..pos] == s.audio == s.wire
    {
      var ret := Ret(n, answer);
      if ret > 0 {
        since := since + ret;
        pos := pos + ret;
      } else {
        ret := 0;
      }
      assert refbuf[old(pos)..old(pos) + n][..ret] == refbuf[old(pos)..old(pos) + ret];
      sent := ret;
    }

    method LeadUp(refbuf: seq<byte>, n: nat, a: Option<Meta>, x: Answers) returns (written: nat, ghost wire: seq<byte>)
      requires pos + n <= |refbuf| && metaOffset == 0
      modifies this`metaOffset, this`since, this`inMeta, this`associated, this`pos
      ensures var t := UpToBlock(old(State()), refbuf[old(pos)..old(pos) + n], a, x);
              && State() == t.c && wire == t.wire && written == |wire|
              && old(pos) <= pos <= old(pos) + n && refbuf[old(pos)..pos] == t.audio
    {
      ghost var c := State();
      ghost var s := SendAudio(c, refbuf[pos..pos + n], x.before);
      written := SendBytes(refbuf, n, x.before);
      wire := s.wire;
      if written == n {
        hide SendMeta, SendAudio;
        SendKeeps(c, refbuf[old(pos)..old(pos) + n], x.before);
        SendMetaAudio(s.c, a, x.block);
        var ret, inside, block := SendStreamMetadata(a, x.block);
        written, wire := written + ret, wire + block;
        assert s.audio + [] == s.audio;
      }
    }

    method WriteWithoutPending(refbuf: seq<byte>, a: Option<Meta>, x: Answers)
      returns (written: nat, ghost wire: seq<byte>)
      requires pos <= |refbuf| && metaOffset == 0 && (interval > 0 ==> since <= interval)
      modifies this
      ensures var s := WriteFresh(old(State()), refbuf[old(pos)..], a, x);
              && State() == s.c && wire == s.wire && written == |wire|
              && old(pos) <= pos <= |refbuf| && refbuf[old(pos)..pos] == s.audio
    {
      hide UpToBlock, SendAudio;
      ghost var buf := refbuf[pos..];
      if interval > 0 && interval - since <= |refbuf| - pos {
        var remaining := interval - since;
        assert buf[..remaining] == refbuf[pos..pos + remaining];
        var end := pos + remaining;
        written, wire := LeadUp(refbuf, remaining, a, x);
        ghost var here := pos;
        if pos < end || inMeta {
          return;
        }
        // limit how much audio goes out with small intervals
        var len := Min(|refbuf| - pos, interval);
        assert pos == end && buf[remaining..] == refbuf[end..];
        SliceOfTail(refbuf, end, len);
        var more := SendBytes(refbuf, len, x.after);
        written, wire := written + more, wire + refbuf[here..pos];
        SlicesJoin(refbuf, old(pos), here, pos);
      } else {
        assert buf == refbuf[pos..pos + (|refbuf| - pos)];
        written := SendBytes(refbuf, |refbuf| - pos, x.after);
        wire := refbuf[old(pos)..pos];
      }
    }

    /** One write: the result is exactly the number of bytes that went out. It can only send from outside
        a block when one is pending and the block now due is shorter than what has been sent. */
    method WriteBufToClient(refbuf: seq<byte>, a: Option<Meta>, x: Answers)
      returns (written: nat, inside: bool, ghost wire: seq<byte>)
      requires pos <= |refbuf| && Valid()
      modifies this
      ensures (inside <==> Ready(old(State()), a)) && (!inside ==> old(inMeta) && MetaLen(old(State()), a) < 0)
      ensures inside ==>
              && Valid()
              && var s := WriteBuf(old(State()), refbuf[old(pos)..], a, x);
              && State() == s.c && wire == s.wire && written == |wire|
              && old(pos) <= pos <= |refbuf| && refbuf[old(pos)..pos] == s.audio
    {
      if Ready(State(), a) {
        WriteKeepsCounters(State(), refbuf[pos..], a, x);
      }
      hide WriteFresh, SendMeta;
      written, inside, wire := 0, true, [];
      if inMeta {
        if Sendable(State(), a) {
          SendMetaAudio(State(), a, x.pending);
        }
        written, inside, wire := SendStreamMetadata(a, x.pending);
        if !inside || inMeta {
          return;
        }
      }
      var more, rest := WriteWithoutPending(refbuf, a, x);
      written, wire := written + more, wire + rest;
      assert [] + rest == rest && [] + refbuf[old(pos)..pos] == refbuf[old(pos)..pos];
    }
  }

  lemma WriteKeepsCounters(c: Client, buf: seq<byte>, a: Option<Meta>, x: Answers)
    requires Ready(c, a)
    ensures var d := WriteBuf(c, buf, a, x).c;
            d.interval == c.interval && (d.interval > 0 ==> d.since <= d.interval) && (!d.inMeta ==> d.metaOffset == 0)
  {
    if c.inMeta {
      SendMetaCounters(c, a, x.pending);
    }
    hide SendMeta, WriteFresh;
    var d := if c.inMeta then SendMeta(c, a, x.pending).c else c;
    if !d.inMeta {
      FreshCounters(d, buf, a, x);
    }
  }

  lemma SendMetaCounters(c: Client, a: Option<Meta>, answer: int)
    requires Sendable(c, a)
    ensures var d := SendMeta(c, a, answer).c;
            d.interval == c.interval && d.since <= c.since && (!d.inMeta ==> d.metaOffset == 0 && d.since == 0)
  {
  }

  lemma FreshCounters(c: Client, buf: seq<byte>, a: Option<Meta>, x: Answers)
    requires !c.inMeta && c.metaOffset == 0 && (c.interval > 0 ==> c.since <= c.interval)
    ensures var d := WriteFresh(c, buf, a, x).c;
            d.interval == c.interval && (d.interval > 0 ==> d.since <= d.interval) && (!d.inMeta ==> d.metaOffset == 0)
  {
    if c.interval > 0 && c.interval - c.since <= |buf| {
      var s := SendAudio(c, buf[..c.interval - c.since], x.before);
      SendMetaCounters(s.c, a, x.block);
      hide SendMeta;
    }
  }

  lemma SlicesJoin(s: seq<byte>, a: nat, b: nat, c: nat)
    requires a <= b <= c <= |s|
    ensures s[a..c] == s[a..b] + s[b..c]
  {
  }

  lemma SliceOfTail(s: seq<byte>, from: nat, n: nat)
    requires from + n <= |s|
    ensures s[from..][..n] == s[from..from + n]
  {
  }

  /** A listener that asked for no metadata gets exactly the audio. */
  lemma WithoutMetadata(c: Client, buf: seq<byte>, a: Option<Meta>, x: Answers)
    requires c.interval == 0 && !c.inMeta && Ready(c, a)
    ensures var s := WriteBuf(c, buf, a, x);
            s.wire == s.audio <= buf && s.c == c.(since := c.since + |s.audio|)
  {
  }
}
