/** Metadata blocks: their shape, their text as C strings compare it, and the two producers of
    blocks, the title builder and the inline parser (format_mp3.c). */
module IcyBlocks {
  import opened Bytes

  /** "StreamTitle=" */
  const TITLE_KEY: seq<byte> := [0x53, 0x74, 0x72, 0x65, 0x61, 0x6D, 0x54, 0x69, 0x74, 0x6C, 0x65, 0x3D]
  /** "StreamUrl='" */
  const URL_OPEN: seq<byte> := [0x53, 0x74, 0x72, 0x65, 0x61, 0x6D, 0x55, 0x72, 0x6C, 0x3D, 0x27]
  const QUOTE: byte := 0x27
  /** "';" */
  const CLOSE: seq<byte> := [0x27, 0x3B]
  /** " - " */
  const DASH: seq<byte> := [0x20, 0x2D, 0x20]
  const MAX_META_LEN := 255 * 16

  /** The length of a metadata block with this first byte. */
  function BlockLen(first: byte): nat {
    1 + 16 * first
  }

  /** The text of the block starts with the title key. */
  predicate HasTitle(b: seq<byte>) {
    |b| >= 13 && b[1..13] == TITLE_KEY
  }

  /** What every producer of blocks guarantees: the first byte announces the length, and a block with
      text starts with the title key and ends with a terminator. */
  predicate Proper(b: seq<byte>) {
    |b| >= 1 && |b| == BlockLen(b[0]) && (b[0] > 0 ==> HasTitle(b) && b[|b| - 1] == 0)
  }

  /** "\001StreamTitle='';" with its terminator: the block sent before any title is known. */
  const BLANK: seq<byte> := [1] + TITLE_KEY + [QUOTE] + CLOSE + [0]

  lemma {:induction false} CStringIsPrefix(s: seq<byte>)
    ensures CString(s) <= s
  {
    if s != [] && s[0] != 0 {
      CStringIsPrefix(s[1..]);
    }
  }

  lemma {:induction false} CStringReaches(s: seq<byte>, k: nat)
    requires k <= |s| && forall i :: 0 <= i < k ==> s[i] != 0
    ensures |CString(s)| >= k
    decreases k
  {
    if k > 0 {
      CStringReaches(s[1..], k - 1);
    }
  }

  // ---------------------------------------------------------------- blocks found in a stream

  /** A received block as it is kept: its last byte is replaced by the terminator. */
  function Stored(b: seq<byte>): seq<byte>
    requires b != []
  {
    b[..|b| - 1] + [0]
  }

  predicate SameText(a: seq<byte>, b: seq<byte>)
    requires a != [] && b != []
  {
    CString(a[1..]) == CString(b[1..])
  }

  /** A block that ends the stream: it has text, the text is new and it is no title. */
  predicate Rejected(current: seq<byte>, b: seq<byte>)
    requires current != [] && b != []
  {
    |b| > 1 && !SameText(Stored(b), current) && !HasTitle(b)
  }

  function NextMeta(current: seq<byte>, b: seq<byte>): (next: seq<byte>)
    requires current != []
    ensures next != []
  {
    if |b| > 1 && !SameText(Stored(b), current) then Stored(b) else current
  }

  /** As long as the current block is a title, what is rejected depends on the new block alone. */
  lemma RejectedIsIntrinsic(current: seq<byte>, b: seq<byte>)
    requires HasTitle(current) && b != [] && |b| == BlockLen(b[0])
    ensures Rejected(current, b) <==> |b| > 1 && !HasTitle(b)
    ensures !Rejected(current, b) ==> HasTitle(NextMeta(current, b))
  {
    if |b| > 1 {
      var kept := Stored(b);
      assert kept[1..13] == b[1..13];
      if SameText(kept, current) {
        var t := current[1..];
        assert t[..12] == TITLE_KEY;
        assert forall i :: 0 <= i < 12 ==> t[i] == t[..12][i] && TITLE_KEY[i] != 0;
        CStringReaches(t, 12);
        CStringIsPrefix(t);
        CStringIsPrefix(kept[1..]);
        assert kept[1..][..12] == CString(t)[..12] == t[..12];
        assert kept[1..][..12] == kept[1..13];
      }
    }
  }

  /** The inline parser is a producer of proper blocks too. */
  lemma NextMetaProper(current: seq<byte>, b: seq<byte>)
    requires Proper(current) && HasTitle(current) && b != [] && |b| == BlockLen(b[0]) && !Rejected(current, b)
    ensures Proper(NextMeta(current, b)) && HasTitle(NextMeta(current, b))
  {
    RejectedIsIntrinsic(current, b);
    if |b| > 1 {
      assert Stored(b)[0] == b[0];
    }
  }

  // ---------------------------------------------------------------- blocks built from a title

  /** Where the URL of a title comes from: a tag, or the block received last, from its URL on. */
  datatype Url = NoUrl | Tagged(text: seq<byte>) | Inline(rest: seq<byte>)

  /** The first "';", which ends the URL of a received block. */
  function FindClose(s: seq<byte>): (e: Option<nat>)
    ensures e.Some? ==> e.value + 2 <= |s| && s[e.value..e.value + 2] == CLOSE
  {
    if |s| < 2 then None
    else if s[..2] == CLOSE then Some(0)
    else
      var e := FindClose(s[1..]);
      if e.None? then None else Some(e.value + 1)
  }

  function TitleText(artist: Option<seq<byte>>, title: Option<seq<byte>>): seq<byte> {
    TITLE_KEY + [QUOTE]
    + (if artist.Some? && title.Some? then artist.value + DASH + title.value
       else if title.Some? then title.value else [])
    + CLOSE
  }

  /** What the length of the message accounts for: a tag in full, a received URL up to its end. */
  function UrlDue(url: Url): seq<byte> {
    match url
    case NoUrl => []
    case Tagged(u) => URL_OPEN + u + CLOSE
    case Inline(s) =>
      var e := FindClose(s);
      if e.None? then [] else s[..e.value + 2]
  }

  /** What is printed behind the title into `room` bytes, the last of them a terminator. A received URL is
      printed with all that follows it, as far as there is room. */
  function UrlText(url: Url, room: nat): seq<byte>
    requires room > 0
  {
    match url
    case NoUrl => []
    case Tagged(u) =>
      var text := URL_OPEN + u + CLOSE;
      text[..Min(|text|, room - 1)]
    case Inline(s) =>
      if FindClose(s).None? || room <= FindClose(s).value + 2 then []
      else
        var text := URL_OPEN + s[Min(|s|, 11)..] + CLOSE;
        text[..Min(|text|, room - 1)]
  }

  /** The message length that the size of the block is computed from. */
  function TitleLen(artist: Option<seq<byte>>, title: Option<seq<byte>>, url: Url): nat {
    16 + (if artist.Some? then |artist.value| else 0) + (if title.Some? then |title.value| else 0)
    + (if artist.Some? && title.Some? then 3 else 0) + |UrlDue(url)|
  }

  /** The block of a new title, None when it is too long. */
  function TitleBlock(artist: Option<seq<byte>>, title: Option<seq<byte>>, url: Url): Option<seq<byte>> {
    var len := TitleLen(artist, title, url);
    if len > MAX_META_LEN then None
    else
      TitleFits(artist, title, url);
      var lenByte := (len - 1) / 16 + 1;
      var text := TitleText(artist, title);
      var more := UrlText(url, 16 * lenByte - |text|);
      Some([lenByte as byte] + text + more + Zeros(16 * lenByte - |text| - |more|))
  }

  lemma TitleFits(artist: Option<seq<byte>>, title: Option<seq<byte>>, url: Url)
    ensures var text, len := TitleText(artist, title), TitleLen(artist, title, url);
            && 12 <= |text| && |text| + |UrlDue(url)| < len <= 16 * ((len - 1) / 16 + 1)
            && text[..12] == TITLE_KEY
  {
    hide UrlDue;
  }

  /** A built block is proper, and neither its title nor its URL is cut. */
  lemma TitleBlockProper(artist: Option<seq<byte>>, title: Option<seq<byte>>, url: Url)
    requires url.Inline? ==> URL_OPEN <= url.rest
    ensures var r := TitleBlock(artist, title, url);
            var text := TitleText(artist, title) + UrlDue(url);
            r.Some? ==> Proper(r.value) && r.value[0] > 0 && text <= r.value[1..]
  {
    hide TitleText, TitleLen, UrlText, UrlDue, Proper, Zeros;
    TitleFits(artist, title, url);
    var len, text := TitleLen(artist, title, url), TitleText(artist, title);
    if len <= MAX_META_LEN {
      var lenByte := (len - 1) / 16 + 1;
      var room := 16 * lenByte - |text|;
      UrlKept(url, room);
      PaddedTitle(lenByte, text, UrlText(url, room), UrlDue(url));
    }
  }

  /** What a listener's player finds in the block: "StreamTitle='", the artist and the title, or the title alone,
      and "';". There is a block unless its text, with a byte to end it, is longer than 4080 bytes. */
  lemma TitleBlockReads(artist: Option<seq<byte>>, title: Option<seq<byte>>, url: Url)
    requires url.Inline? ==> URL_OPEN <= url.rest
    ensures var (open, close) :=
              ([0x53, 0x74, 0x72, 0x65, 0x61, 0x6D, 0x54, 0x69, 0x74, 0x6C, 0x65, 0x3D, 0x27], [0x27, 0x3B]);
            var r := TitleBlock(artist, title, url);
            && (r.Some? && artist.Some? && title.Some? ==>
                  open + artist.value + [0x20, 0x2D, 0x20] + title.value + close <= r.value[1..])
            && (r.Some? && artist.None? && title.Some? ==> open + title.value + close <= r.value[1..])
    ensures TitleBlock(artist, title, url).None? <==>
            (if artist.Some? then |artist.value| else 0) + (if title.Some? then |title.value| else 0)
            + (if artist.Some? && title.Some? then 3 else 0) + 16 + |UrlDue(url)| > 4080
  {
    TitleTooLong(artist, title, url);
    hide UrlDue, Proper, TitleBlock;
    TitleBlockProper(artist, title, url);
    if artist.Some? && title.Some? {
      var a, t := artist.value, title.value;
      assert TitleText(artist, title) == TITLE_KEY + [QUOTE] + a + DASH + t + CLOSE;
    }
  }

  lemma TitleTooLong(artist: Option<seq<byte>>, title: Option<seq<byte>>, url: Url)
    ensures TitleBlock(artist, title, url).None? <==> TitleLen(artist, title, url) > 4080
  {
    hide TitleLen, TitleText, UrlText, UrlDue;
  }

  /** What is printed starts with what the length accounts for and leaves room for a terminator. */
  lemma UrlKept(url: Url, room: nat)
    requires |UrlDue(url)| < room && (url.Inline? ==> URL_OPEN <= url.rest)
    ensures UrlDue(url) <= UrlText(url, room) && |UrlText(url, room)| < room
  {
    if url.Inline? {
      var s := url.rest;
      assert URL_OPEN + s[11..] == s;
    }
  }

  lemma PaddedTitle(lenByte: nat, text: seq<byte>, more: seq<byte>, due: seq<byte>)
    requires 0 < lenByte < 256 && 12 <= |text| && text[..12] == TITLE_KEY
    requires |text| + |more| < 16 * lenByte && due <= more
    ensures var b := [lenByte] + text + more + Zeros(16 * lenByte - |text| - |more|);
            Proper(b) && text + due <= b[1..]
  {
    var b: seq<byte> := [lenByte] + text + more + Zeros(16 * lenByte - |text| - |more|);
    assert b[1..] == text + more + Zeros(16 * lenByte - |text| - |more|);
    assert b[1..13] == b[1..][..12] == text[..12];
    assert (text + due) <= text + more;
  }

  lemma BlankProper()
    ensures Proper(BLANK) && |BLANK| == 17 && HasTitle(BLANK)
  {
    assert BLANK[1..13] == TITLE_KEY;
  }
}
