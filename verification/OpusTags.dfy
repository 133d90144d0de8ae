/** The OpusTags header of an Opus stream (format_opus.c), as laid out in section 5.2 of RFC 7845: eight
    bytes of signature, the vendor string and a list of comments, each with a 32-bit little-endian length. */
module OpusTags {
  import opened Bytes

  type Comments = seq<seq<byte>>

  /** What a packet does to the comments of the stream. */
  datatype Outcome = Unchanged | Emptied | Full(comments: Comments)

  /** The comments at the start of `s`, if all `n` are there. */
  function Parse(s: seq<byte>, n: nat): Option<Comments> {
    if n == 0 then Some([])
    else if |s| < 4 || |s| - 4 < FromLittleEndian(s) then None
    else
      var rest := Parse(s[4 + FromLittleEndian(s)..], n - 1);
      if rest.None? then None else Some([CString(s[4..4 + FromLittleEndian(s)])] + rest.value)
  }

  function Decode(packet: seq<byte>): Outcome {
    if |packet| < 16 || |packet| - 16 < FromLittleEndian(packet[8..]) then Unchanged
    else
      var s := packet[12 + FromLittleEndian(packet[8..])..];
      if |s| - 4 < FromLittleEndian(s) * 4 then Unchanged
      else
        var comments := Parse(s[4..], FromLittleEndian(s));
        if comments.None? then Emptied else Full(comments.value)
  }

  // ---------------------------------------------------------------- the layout of RFC 7845

  ghost predicate Short(s: seq<byte>) {
    |s| < WORD
  }

  ghost predicate AllShort(comments: Comments) {
    forall i :: 0 <= i < |comments| ==> Short(comments[i])
  }

  function EncodeOne(s: seq<byte>): seq<byte>
    requires Short(s)
  {
    LittleEndian(|s|) + s
  }

  function EncodeList(comments: Comments): seq<byte>
    requires AllShort(comments)
  {
    if comments == [] then [] else EncodeOne(comments[0]) + EncodeList(comments[1..])
  }

  function Encode(signature: seq<byte>, vendor: seq<byte>, comments: Comments): seq<byte>
    requires Short(vendor) && |comments| < WORD && AllShort(comments)
  {
    signature + EncodeOne(vendor) + LittleEndian(|comments|) + EncodeList(comments)
  }

  function CStrings(comments: Comments): Comments {
    seq(|comments|, i requires 0 <= i < |comments| => CString(comments[i]))
  }

  // ---------------------------------------------------------------- round trip

  /** Reading one comment off the front. */
  lemma ParseOne(c: seq<byte>, tail: seq<byte>, n: nat)
    requires Short(c)
    ensures Parse(EncodeOne(c) + tail, n + 1) == Prepend([CString(c)], Parse(tail, n))
  {
    var s := EncodeOne(c) + tail;
    hide FromLittleEndian, LittleEndian, CString;
    assert s == LittleEndian(|c|) + (c + tail);
    FromLittleEndianPrefix(LittleEndian(|c|), c + tail);
    assert s[4..4 + |c|] == c && s[4 + |c|..] == tail;
  }

  lemma EncodeFirst(comments: Comments)
    requires AllShort(comments) && comments != []
    ensures Short(comments[0]) && AllShort(comments[1..])
    ensures EncodeList(comments) == EncodeOne(comments[0]) + EncodeList(comments[1..]) && |EncodeOne(comments[0])| >= 4
  {
  }

  lemma {:induction false} ParseEncoded(comments: Comments, trailing: seq<byte>)
    requires AllShort(comments)
    ensures Parse(EncodeList(comments) + trailing, |comments|) == Some(CStrings(comments))
    ensures |EncodeList(comments)| >= 4 * |comments|
  {
    if comments == [] {
      assert CStrings(comments) == [];
    } else {
      hide Parse, CString, CStrings, EncodeList, EncodeOne, Short, AllShort;
      var c, cs := comments[0], comments[1..];
      assert comments == [c] + cs;
      EncodeFirst(comments);
      ParseEncoded(cs, trailing);
      ParseOne(c, EncodeList(cs) + trailing, |cs|);
      CStringsCons(c, cs);
      Associate(EncodeOne(c), EncodeList(cs), trailing);
    }
  }

  lemma CStringsCons(c: seq<byte>, cs: Comments)
    ensures CStrings([c] + cs) == [CString(c)] + CStrings(cs)
  {
    hide CString;
  }

  /** A packet laid out as the standard says, with anything behind it, gives its comments, each up to its
      first zero byte. */
  lemma DecodeEncoded(signature: seq<byte>, vendor: seq<byte>, comments: Comments, trailing: seq<byte>)
    requires |signature| == 8 && Short(vendor) && |comments| < WORD && AllShort(comments)
    ensures Decode(Encode(signature, vendor, comments) + trailing) == Full(CStrings(comments))
  {
    var list, count := EncodeList(comments), LittleEndian(|comments|);
    var packet := Encode(signature, vendor, comments) + trailing;
    assert packet == signature + (LittleEndian(|vendor|) + (vendor + (count + (list + trailing))));
    assert packet[8..] == LittleEndian(|vendor|) + (vendor + (count + (list + trailing)));
    FromLittleEndianPrefix(LittleEndian(|vendor|), vendor + (count + (list + trailing)));
    assert packet[12 + |vendor|..] == count + (list + trailing);
    FromLittleEndianPrefix(count, list + trailing);
    assert (count + (list + trailing))[4..] == list + trailing;
    ParseEncoded(comments, trailing);
  }

  lemma {:induction false} CStringIs(s: seq<byte>)
    ensures CString(s) == s <==> 0 !in s
    ensures |CString(s)| <= |s|
  {
    if s != [] {
      CStringIs(s[1..]);
      assert s == [s[0]] + s[1..];
      assert CString(s) == [s[0]] + CString(s[1..]) || s[0] == 0;
      if s[0] != 0 {
        assert CString(s)[1..] == CString(s[1..]);
      }
    }
  }

  /** Reading gives back exactly what was written if and only if no comment contains a zero byte. */
  lemma RoundTrip(signature: seq<byte>, vendor: seq<byte>, comments: Comments, trailing: seq<byte>)
    requires |signature| == 8 && Short(vendor) && |comments| < WORD && AllShort(comments)
    ensures Decode(Encode(signature, vendor, comments) + trailing) == Full(comments) <==>
            forall i :: 0 <= i < |comments| ==> 0 !in comments[i]
  {
    DecodeEncoded(signature, vendor, comments, trailing);
    hide Decode, Encode;
    forall i | 0 <= i < |comments|
      ensures CStrings(comments)[i] == comments[i] <==> 0 !in comments[i]
    {
      CStringIs(comments[i]);
    }
    if forall i :: 0 <= i < |comments| ==> 0 !in comments[i] {
      assert CStrings(comments) == comments;
    }
  }

  // ---------------------------------------------------------------- only laid-out packets are accepted

  lemma EncodeCons(c: seq<byte>, cs: Comments)
    requires Short(c) && AllShort(cs)
    ensures AllShort([c] + cs)
    ensures EncodeList([c] + cs) == EncodeOne(c) + EncodeList(cs)
  {
    assert ([c] + cs)[1..] == cs;
  }

  lemma ParseFirst(s: seq<byte>, n: nat)
    requires n > 0 && Parse(s, n).Some?
    ensures |s| >= 4 && FromLittleEndian(s) <= |s| - 4 && Short(s[4..4 + FromLittleEndian(s)])
            && s[..4] == LittleEndian(FromLittleEndian(s))
    ensures s == EncodeOne(s[4..4 + FromLittleEndian(s)]) + s[4 + FromLittleEndian(s)..]
    ensures Parse(s[4 + FromLittleEndian(s)..], n - 1).Some?
    ensures Parse(s, n) == Some([CString(s[4..4 + FromLittleEndian(s)])]
            + Parse(s[4 + FromLittleEndian(s)..], n - 1).value)
  {
    LittleEndianOf(s);
    hide FromLittleEndian, LittleEndian, CString;
    var w := FromLittleEndian(s);
    assert s == (s[..4] + s[4..4 + w]) + s[4 + w..];
  }

  /** The pieces of an accepted list and what follows it. */
  lemma {:induction false} ParseOnlyEncoded(s: seq<byte>, n: nat) returns (comments: Comments, trailing: seq<byte>)
    requires Parse(s, n).Some?
    ensures |comments| == n && AllShort(comments)
    ensures s == EncodeList(comments) + trailing && Parse(s, n) == Some(CStrings(comments))
  {
    if n == 0 {
      comments, trailing := [], s;
      ParseEncoded([], s);
    } else {
      hide FromLittleEndian, LittleEndian, CString, CStrings, Parse, EncodeList, EncodeOne, Short, AllShort;
      ParseFirst(s, n);
      var c, rest := s[4..4 + FromLittleEndian(s)], s[4 + FromLittleEndian(s)..];
      var cs, t := ParseOnlyEncoded(rest, n - 1);
      comments, trailing := [c] + cs, t;
      EncodeCons(c, cs);
      CStringsCons(c, cs);
      Associate(EncodeOne(c), EncodeList(cs), t);
    }
  }

  /** A packet yields a list only if it is laid out as the standard says. */
  lemma DecodeOnlyEncoded(packet: seq<byte>)
    returns (signature: seq<byte>, vendor: seq<byte>, comments: Comments, trailing: seq<byte>)
    requires Decode(packet).Full?
    ensures |signature| == 8 && Short(vendor) && |comments| < WORD && AllShort(comments)
    ensures packet == Encode(signature, vendor, comments) + trailing && Decode(packet) == Full(CStrings(comments))
  {
    hide FromLittleEndian, LittleEndian, CString, CStrings, EncodeList, Parse;
    var v := FromLittleEndian(packet[8..]);
    var s := packet[12 + v..];
    signature, vendor := packet[..8], packet[12..12 + v];
    comments, trailing := ParseOnlyEncoded(s[4..], FromLittleEndian(s));
    LittleEndianOf(packet[8..]);
    LittleEndianOf(s);
    assert packet == signature + (packet[8..][..4] + vendor) + s[..4] + s[4..];
    var all := signature + EncodeOne(vendor) + LittleEndian(|comments|);
    assert all + (EncodeList(comments) + trailing) == all + EncodeList(comments) + trailing;
  }

  // ---------------------------------------------------------------- the code

  class Plugin {
    var comments: Comments
    var logMetadata: bool

    /** Copies a comment into the reused buffer, which still holds earlier ones, and adds the string. */
    method AddComment(packet: array<byte>, p: nat, next: nat, buf: array<byte>)
      requires p + next <= packet.Length && next < buf.Length && buf != packet
      modifies this`comments, buf
      ensures comments == old(comments) + [CString(packet[p..p + next])]
    {
      ghost var data := packet[p..p + next];
      CopyBytes(packet, p, buf, 0, next);
      assert buf[0..next] == buf[..next];
      buf[next] := 0;
      assert buf[..] == data + [0] + buf[next + 1..];
      CStringStops(data, buf[next + 1..]);
      comments := comments + [CString(buf[..])];
    }

    method HandleOpusTags(packet: array<byte>)
      modifies this
      ensures match Decode(packet[..])
              case Unchanged => comments == old(comments) && logMetadata == old(logMetadata)
              case Emptied => comments == [] && logMetadata == old(logMetadata)
              case Full(list) => comments == list && logMetadata
    {
      hide FromLittleEndian;
      var left: nat := packet.Length;
      if left < 16 {
        return;
      }
      var p := 8;
      left := left - 8;
      var next := ReadWord(packet, p);
      p, left := p + 4, left - 4;
      if left < next + 4 {
        return;
      }
      p, left := p + next, left - next;
      var count := ReadWord(packet, p);
      p, left := p + 4, left - 4;
      if left < count * 4 {
        return;
      }
      hide FromLittleEndian, Parse;
      assert packet[..][8..] == packet[8..] && packet[..][12 + next..] == packet[12 + next..];
      assert packet[12 + next..][4..] == packet[p..];
      ReadComments(packet, p, left, count);
    }

    method ReadComments(packet: array<byte>, p0: nat, left0: nat, count: nat)
      requires p0 + left0 == packet.Length && count * 4 <= left0
      modifies this
      ensures match Parse(packet[p0..], count)
              case None => comments == [] && logMetadata == old(logMetadata)
              case Some(list) => comments == list && logMetadata
    {
      hide FromLittleEndian, CString, Parse, Prepend;
      comments := [];
      var p: nat, left: nat, more: nat := p0, left0, count;
      var buf := new byte[0];
      PrependNone(Parse(packet[p0..], count));
      ParseEnds(packet[p0..], count, []);
      while more > 0
        invariant p + left == packet.Length && more <= count && (more > 0 ==> left >= 4)
        invariant fresh(buf) && logMetadata == old(logMetadata)
        invariant Parse(packet[p0..], count) == Prepend(comments, Parse(packet[p..], more))
        invariant more == 0 ==> Parse(packet[p0..], count) == Some(comments)
      {
        var next := ReadWord(packet, p);
        ParseEnds(packet[p..], more, comments);
        p, left := p + 4, left - 4;
        if left < next {
          comments := [];
          return;
        }
        if next + 1 > buf.Length {
          buf := Grow(buf, next + 1);
        }
        Slices(packet, p, next);
        ParseStep(packet[p - 4..], more, comments);
        AddComment(packet, p, next, buf);
        p, left, more := p + next, left - next, more - 1;
        ParseEnds(packet[p..], more, comments);
        if more > 0 && left < 4 {
          comments := [];
          return;
        }
      }
      logMetadata := true;
    }
  }

  function Prepend(done: Comments, rest: Option<Comments>): Option<Comments> {
    if rest.None? then None else Some(done + rest.value)
  }

  lemma Slices(packet: array<byte>, p: nat, next: nat)
    requires 4 <= p && p + next <= packet.Length
    ensures packet[p - 4..][4..4 + next] == packet[p..p + next] && packet[p - 4..][4 + next..] == packet[p + next..]
  {
  }

  lemma PrependNone(rest: Option<Comments>)
    ensures Prepend([], rest) == rest
  {
    if rest.Some? {
      assert [] + rest.value == rest.value;
    }
  }

  lemma ParseEnds(s: seq<byte>, n: nat, done: Comments)
    ensures n == 0 ==> Prepend(done, Parse(s, n)) == Some(done)
    ensures n > 0 && (|s| < 4 || |s| - 4 < FromLittleEndian(s)) ==> Prepend(done, Parse(s, n)) == None
  {
    assert done + [] == done;
  }

  lemma ParseStep(s: seq<byte>, n: nat, done: Comments)
    requires n > 0 && |s| >= 4 && FromLittleEndian(s) <= |s| - 4
    ensures Prepend(done, Parse(s, n))
            == Prepend(done + [CString(s[4..4 + FromLittleEndian(s)])], Parse(s[4 + FromLittleEndian(s)..], n - 1))
  {
    var rest := Parse(s[4 + FromLittleEndian(s)..], n - 1);
    if rest.Some? {
      var c := CString(s[4..4 + FromLittleEndian(s)]);
      assert done + ([c] + rest.value) == done + [c] + rest.value;
    }
  }

  lemma {:induction false} CStringStops(data: seq<byte>, stale: seq<byte>)
    ensures CString(data + [0] + stale) == CString(data)
  {
    if data != [] && data[0] != 0 {
      CStringStops(data[1..], stale);
      assert (data + [0] + stale)[1..] == data[1..] + [0] + stale;
    }
  }

  /** A 32-bit shift by one byte. */
  function Shift(w: nat): (r: nat)
    ensures w < 0x100_0000 ==> r == w * 256
  {
    w * 256 % WORD
  }

  method ReadWord(packet: array<byte>, p: nat) returns (w: nat)
    requires p + 4 <= packet.Length
    ensures w == FromLittleEndian(packet[p..])
  {
    w := packet[p + 3];
    w := Shift(w) + packet[p + 2];
    w := Shift(w) + packet[p + 1];
    w := Shift(w) + packet[p];
  }

  /** realloc to a larger size. */
  method Grow(buf: array<byte>, size: nat) returns (larger: array<byte>)
    requires size >= buf.Length
    ensures fresh(larger) && larger.Length == size && larger[..buf.Length] == buf[..]
  {
    larger := new byte[size];
    CopyBytes(buf, 0, larger, 0, buf.Length);
    assert larger[0..buf.Length] == larger[..buf.Length];
  }
}
