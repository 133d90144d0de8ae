/** Reading a connection through its put-back buffer (connection.c, client.c). The header stage reads
    ahead of the end of the headers and puts the rest back; later reads, and the next request on a kept
    connection, start with what was put back. */
module PutBack {
  import opened Bytes

  /** The header buffer, less its terminating zero. */
  const HEADER_SPACE := 4095

  /** What one read does: the bytes returned (none on an error), what stays in the put-back buffer, and
      what came from the socket. */
  datatype Taken = Taken(got: Option<seq<byte>>, back: seq<byte>, drawn: seq<byte>)

  /** A socket never returns more than it is asked for. */
  function Clip(arrived: seq<byte>, room: nat): seq<byte> {
    arrived[..Min(|arrived|, room)]
  }

  /** Reads up to `len` bytes; `arrived` is the answer of the socket, which is only asked when the put-back
      buffer does not satisfy the request. */
  function Take(back: seq<byte>, len: nat, arrived: Option<seq<byte>>): Taken {
    if back != [] && len <= |back| then Taken(Some(back[..len]), back[len..], [])
    else
      match arrived
      case None => Taken(if back != [] then Some(back) else None, [], [])
      case Some(a) => Taken(Some(back + Clip(a, len - |back|)), [], Clip(a, len - |back|))
  }

  /** Bytes put back go behind those already there. */
  function Return(back: seq<byte>, bytes: seq<byte>): seq<byte> {
    back + bytes
  }

  // ---------------------------------------------------------------- the life of a connection

  datatype Stage = Collecting | Passed | Serving | Closed

  /** `used` is everything handed over to the parsers and readers so far, in the order in which they saw
      it; `held` is in the header buffer; `received` is what the socket has delivered. */
  datatype Line = Line(stage: Stage, used: seq<byte>, held: seq<byte>, back: seq<byte>, received: seq<byte>)

  /** What the header stage sees in its buffer: nothing yet, a password line, or headers that end here. */
  datatype Sight = NotYet | Password | HeadersEnd(at: nat)

  datatype Event =
    | Collect(arrived: Option<seq<byte>>, failed: bool, sight: Sight)
    | TimeOut
    | DropPassword(length: nat)
    | Parse
    | Read(len: nat, arrived: Option<seq<byte>>)
    | KeepAlive

  const START := Line(Collecting, [], [], [], [])

  /** One visit of the header stage. */
  function Collected(l: Line, arrived: Option<seq<byte>>, failed: bool, sight: Sight): Line {
    var len := HEADER_SPACE - |l.held|;
    if len <= 0 then l.(stage := Closed)
    else
      var t := Take(l.back, len, arrived);
      var m := l.(back := t.back, received := l.received + t.drawn);
      if t.got.None? then (if failed then m.(stage := Closed) else m)
      else if t.got.value == [] then m.(stage := Closed)
      else Seen(m.(held := l.held + t.got.value), sight)
  }

  /** Once the headers are complete, what follows them is put back. */
  function Seen(l: Line, sight: Sight): Line {
    match sight
    case NotYet => l
    case Password => l.(stage := Passed)
    case HeadersEnd(at) =>
      var k := Min(at, |l.held|);
      l.(stage := Passed, held := l.held[..k], back := Return(l.back, l.held[k..]))
  }

  function Apply(l: Line, e: Event): Line {
    match e
    case Collect(arrived, failed, sight) => if l.stage == Collecting then Collected(l, arrived, failed, sight) else l
    case TimeOut => if l.stage == Collecting then l.(stage := Closed) else l
    case DropPassword(length) =>
      var k := Min(length, |l.held|);
      if l.stage == Passed then l.(stage := Collecting, used := l.used + l.held[..k], held := l.held[k..]) else l
    case Parse => if l.stage == Passed then l.(stage := Serving, used := l.used + l.held, held := []) else l
    case Read(len, arrived) =>
      if l.stage == Serving then
        var t := Take(l.back, len, arrived);
        l.(used := l.used + (if t.got.Some? then t.got.value else []), back := t.back, received := l.received + t.drawn)
      else l
    case KeepAlive => if l.stage == Serving then l.(stage := Collecting) else l
  }

  function Execute(l: Line, events: seq<Event>): Line
    decreases |events|
  {
    if events == [] then l else Execute(Apply(l, events[0]), events[1..])
  }

  /** Nothing is lost, repeated or reordered, and the header stage always has room for what was put back. */
  predicate Inv(l: Line) {
    l.used + l.held + l.back == l.received && |l.held| + |l.back| <= HEADER_SPACE
  }

  function Available(back: seq<byte>, arrived: Option<seq<byte>>): nat {
    |back| + if arrived.Some? then |arrived.value| else 0
  }

  /** A read returns the next bytes, as many as there are and are asked for: first what was put back, then what
      the socket delivers. It fails only if nothing was put back and the socket fails. */
  lemma TakeInOrder(back: seq<byte>, len: nat, arrived: Option<seq<byte>>)
    ensures var t := Take(back, len, arrived);
            && (if t.got.Some? then t.got.value else []) + t.back == back + t.drawn
            && (t.got.Some? ==> |t.got.value| == Min(len, Available(back, arrived)))
            && (t.got.None? <==> back == [] && arrived.None?)
            && (t.back != [] ==> |t.back| <= |back| && t.drawn == [] && t.got.Some? && |t.got.value| == len)
  {
  }

  /** What was put back always fits the room left in the header buffer, so one read takes all of it. */
  lemma Drains(l: Line, arrived: Option<seq<byte>>)
    requires Inv(l) && |l.held| < HEADER_SPACE
    ensures var t := Take(l.back, HEADER_SPACE - |l.held|, arrived); t.back == []
  {
  }

  lemma CollectOrder(used: seq<byte>, held: seq<byte>, back: seq<byte>, got: seq<byte>, drawn: seq<byte>)
    requires got + [] == back + drawn
    ensures used + (held + got) + [] == (used + held + back) + drawn
    ensures got == [] ==> used + held + [] == (used + held + back) + drawn
  {
    assert got + [] == got;
    Associate(used + held, back, drawn);
    Associate(used, held, got);
    assert used + (held + got) + [] == used + (held + got);
  }

  lemma CollectKeeps(l: Line, arrived: Option<seq<byte>>, failed: bool, sight: Sight)
    requires Inv(l)
    ensures Inv(Collected(l, arrived, failed, sight))
    ensures l.stage == Collecting ==> Collected(l, arrived, failed, sight).stage != Serving
  {
    var len := HEADER_SPACE - |l.held|;
    if len > 0 {
      var t := Take(l.back, len, arrived);
      TakeInOrder(l.back, len, arrived);
      Drains(l, arrived);
      hide Take, Seen;
      var got := if t.got.Some? then t.got.value else [];
      CollectOrder(l.used, l.held, l.back, got, t.drawn);
      if got != [] {
        SeenKeeps(l.(held := l.held + got, back := [], received := l.received + t.drawn), sight);
      }
    }
  }

  lemma SeenKeeps(l: Line, sight: Sight)
    requires Inv(l) && l.back == []
    ensures Inv(Seen(l, sight)) && (l.stage == Collecting ==> Seen(l, sight).stage != Serving)
  {
    if sight.HeadersEnd? {
      var k := Min(sight.at, |l.held|);
      assert l.held[..k] + l.held[k..] == l.held;
      assert l.used + l.held[..k] + ([] + l.held[k..]) == l.used + l.held + [];
    }
  }

  lemma PasswordKeeps(l: Line, length: nat)
    requires Inv(l)
    ensures Inv(Apply(l, DropPassword(length)))
  {
    var k := Min(length, |l.held|);
    assert l.held[..k] + l.held[k..] == l.held;
    assert (l.used + l.held[..k]) + l.held[k..] == l.used + l.held;
  }

  lemma ParseKeeps(l: Line)
    requires Inv(l)
    ensures Inv(Apply(l, Parse))
  {
    assert (l.used + l.held) + [] == l.used + l.held;
  }

  lemma ReadKeeps(l: Line, len: nat, arrived: Option<seq<byte>>)
    requires Inv(l) && (l.stage == Serving ==> l.held == [])
    ensures Inv(Apply(l, Read(len, arrived)))
  {
    var t := Take(l.back, len, arrived);
    TakeInOrder(l.back, len, arrived);
    hide Take;
    if l.stage == Serving {
      ReadOrder(l.used, l.back, if t.got.Some? then t.got.value else [], t.back, t.drawn);
    }
  }

  lemma ReadOrder(used: seq<byte>, back: seq<byte>, got: seq<byte>, left: seq<byte>, drawn: seq<byte>)
    requires got + left == back + drawn
    ensures (used + got) + [] + left == (used + [] + back) + drawn
  {
    assert (used + got) + [] == used + got && used + [] == used;
    Associate(used, got, left);
    Associate(used, back, drawn);
  }

  lemma ApplyKeeps(l: Line, e: Event)
    requires Inv(l) && (l.stage == Serving ==> l.held == [])
    ensures Inv(Apply(l, e)) && (Apply(l, e).stage == Serving ==> Apply(l, e).held == [])
  {
    hide Take, Collected;
    match e
    case Collect(arrived, failed, sight) => CollectKeeps(l, arrived, failed, sight);
    case TimeOut =>
    case DropPassword(length) => PasswordKeeps(l, length);
    case Parse => ParseKeeps(l);
    case Read(len, arrived) => ReadKeeps(l, len, arrived);
    case KeepAlive =>
  }

  /** Over every run, through any number of kept-alive requests: the headers followed by everything read
      later is exactly what the socket delivered, in order. */
  lemma {:induction false} InOrder(l: Line, events: seq<Event>)
    requires Inv(l) && (l.stage == Serving ==> l.held == [])
    ensures var m := Execute(l, events);
            && Inv(m) && m.used + m.held + m.back == m.received
            && (m.stage == Serving ==> m.used + m.back == m.received)
    decreases |events|
  {
    if events == [] {
      assert l.held == [] ==> l.used + l.held == l.used;
    } else {
      ApplyKeeps(l, events[0]);
      InOrder(Apply(l, events[0]), events[1..]);
    }
  }

  /** In every run, when the header stage has read, the put-back buffer is empty: what it puts back never
      lands behind later bytes. */
  lemma PutsBackIntoEmpty(events: seq<Event>, arrived: Option<seq<byte>>)
    ensures var l := Execute(START, events);
            |l.held| < HEADER_SPACE ==> Take(l.back, HEADER_SPACE - |l.held|, arrived).back == []
  {
    InOrder(START, events);
    var l := Execute(START, events);
    if |l.held| < HEADER_SPACE {
      Drains(l, arrived);
    }
  }

  // ---------------------------------------------------------------- who gets which bytes

  /** A visit of the header stage finds bytes, and room for them. */
  predicate Finds(l: Line, arrived: Option<seq<byte>>) {
    |l.held| < 4095 && Available(l.back, arrived) > 0
  }

  /** After such a visit the header buffer holds all bytes received and not yet used. */
  lemma VisitHolds(l: Line, arrived: Option<seq<byte>>, failed: bool, sight: Sight) returns (m: Line)
    requires Inv(l) && l.stage == Collecting && Finds(l, arrived)
    ensures Apply(l, Collect(arrived, failed, sight)) == Seen(m, sight)
    ensures m.stage == Collecting && m.used == l.used && m.held == Gathered(l, arrived) && m.back == []
    ensures m.used + m.held == m.received && l.received <= m.received
    ensures |m.held| == |l.held| + Min(4095 - |l.held|, Available(l.back, arrived))
  {
    hide Take, Seen, Inv;
    var t := Take(l.back, 4095 - |l.held|, arrived);
    TakeInOrder(l.back, 4095 - |l.held|, arrived);
    Drains(l, arrived);
    m := l.(held := l.held + t.got.value, back := [], received := l.received + t.drawn);
    assert t.got.value + [] == t.got.value;
    HeldOrder(l, t.got.value, t.drawn);
  }

  lemma HeldOrder(l: Line, got: seq<byte>, drawn: seq<byte>)
    requires Inv(l) && got == l.back + drawn
    ensures l.used + (l.held + got) == l.received + drawn
  {
    Associate(l.used, l.held, got);
    Associate(l.used + l.held, l.back, drawn);
  }

  lemma CutAt(l: Line, k: nat)
    requires l.used + l.held == l.received && k <= |l.held|
    ensures |l.used| + k <= |l.received|
    ensures l.received[..|l.used| + k] == l.used + l.held[..k] && l.received[|l.used| + k..] == l.held[k..]
  {
  }

  lemma SeenParsed(l: Line, at: nat)
    requires at <= |l.held| && l.back == []
    ensures Apply(Seen(l, HeadersEnd(at)), Parse)
            == Line(Serving, l.used + l.held[..at], [], l.held[at..], l.received)
  {
    assert [] + l.held[at..] == l.held[at..];
  }

  lemma SeenDropped(l: Line, length: nat)
    requires length <= |l.held|
    ensures Apply(Seen(l, Password), DropPassword(length))
            == l.(stage := Collecting, used := l.used + l.held[..length], held := l.held[length..])
  {
  }

  /** The parser gets the headers and nothing else: in every run, of the bytes not yet used it gets those up to
      the end of the headers, and all behind them are kept for later reads. */
  lemma HeadersExactly(events: seq<Event>, arrived: Option<seq<byte>>, failed: bool, at: nat)
    requires Execute(START, events).stage == Collecting && Finds(Execute(START, events), arrived)
    requires at <= |Gathered(Execute(START, events), arrived)|
    ensures var l := Execute(START, events);
            var m := Apply(Apply(l, Collect(arrived, failed, HeadersEnd(at))), Parse);
            && m.stage == Serving && m.held == [] && |l.used| + at <= |m.received| && l.received <= m.received
            && m.used == m.received[..|l.used| + at] && m.back == m.received[|l.used| + at..]
  {
    hide Execute, Apply, Seen, Gathered, Finds, Inv;
    InOrder(START, events) by {
      StartInv();
    }
    var m := VisitHolds(Execute(START, events), arrived, failed, HeadersEnd(at));
    SeenParsed(m, at);
    CutAt(m, at);
  }

  /** The same for a password line: what is behind it stays in the header buffer. */
  lemma PasswordExactly(events: seq<Event>, arrived: Option<seq<byte>>, failed: bool, length: nat)
    requires Execute(START, events).stage == Collecting && Finds(Execute(START, events), arrived)
    requires length <= |Gathered(Execute(START, events), arrived)|
    ensures var l := Execute(START, events);
            var m := Apply(Apply(l, Collect(arrived, failed, Password)), DropPassword(length));
            && m.stage == Collecting && m.back == [] && |l.used| + length <= |m.received| && l.received <= m.received
            && m.used == m.received[..|l.used| + length] && m.held == m.received[|l.used| + length..]
  {
    hide Execute, Apply, Seen, Gathered, Finds, Inv;
    InOrder(START, events) by {
      StartInv();
    }
    var m := VisitHolds(Execute(START, events), arrived, failed, Password);
    SeenDropped(m, length);
    CutAt(m, length);
  }

  lemma StartInv()
    ensures Inv(START)
  {
  }

  /** A visit that finds nothing changes nothing, or closes the connection: if the buffer is full, the peer has
      closed it or the socket has failed for good. */
  lemma NothingFound(l: Line, arrived: Option<seq<byte>>, failed: bool, sight: Sight)
    requires Inv(l) && l.stage == Collecting && !Finds(l, arrived)
    ensures Apply(l, Collect(arrived, failed, sight))
            == if |l.held| >= 4095 || arrived.Some? || failed then l.(stage := Closed) else l
  {
    assert l.received + [] == l.received;
  }

  /** Later reads go on where the headers ended, each with as many bytes as there are and are asked for. */
  lemma ReadsGoOn(events: seq<Event>, len: nat, arrived: Option<seq<byte>>)
    requires Execute(START, events).stage == Serving
    ensures var l := Execute(START, events);
            var m := Apply(l, Read(len, arrived));
            && m.stage == Serving && m.used + m.back == m.received && l.used <= m.used && l.received <= m.received
            && |m.used| == |l.used| + Min(len, Available(l.back, arrived))
  {
    hide Execute, Take, Inv;
    StartInv();
    ServingHoldsNothing(START, events);
    InOrder(START, events);
    var l := Execute(START, events);
    var t := Take(l.back, len, arrived);
    TakeInOrder(l.back, len, arrived);
    var got := if t.got.Some? then t.got.value else [];
    Associate(l.used, got, t.back);
    Associate(l.used, l.back, t.drawn);
  }

  lemma {:induction false} ServingHoldsNothing(l: Line, events: seq<Event>)
    requires Inv(l) && (l.stage == Serving ==> l.held == [])
    ensures Execute(l, events).stage == Serving ==> Execute(l, events).held == []
    decreases |events|
  {
    if events != [] {
      ApplyKeeps(l, events[0]);
      ServingHoldsNothing(Apply(l, events[0]), events[1..]);
    }
  }

  // ---------------------------------------------------------------- the code

  class Connection {
    var readbuffer: seq<byte>

    constructor (readbuffer: seq<byte>)
      ensures this.readbuffer == readbuffer
    {
      this.readbuffer := readbuffer;
    }

    /** Reads into `buf` from position `at`; -1 when there is nothing and the socket fails. */
    method ReadBytes(buf: array<byte>, at: nat, len: nat, arrived: Option<seq<byte>>) returns (n: int)
      requires at + len <= buf.Length
      modifies this, buf
      ensures var t := Take(old(readbuffer), len, arrived);
              && readbuffer == t.back
              && n == (if t.got.Some? then |t.got.value| else -1)
              && (t.got.Some? ==> n <= len && buf[at..at + n] == t.got.value)
      ensures forall i :: 0 <= i < at || at + len <= i < buf.Length ==> buf[i] == old(buf[i])
    {
      var done, at', len' := 0, at, len;
      if readbuffer != [] {
        if len >= |readbuffer| {
          Fill(buf, at, readbuffer);
          done := |readbuffer|;
          readbuffer := [];
          if len == done {
            return done;
          }
          at', len' := at + done, len - done;
        } else {
          Fill(buf, at, readbuffer[..len]);
          readbuffer := readbuffer[len..];
          return len;
        }
      }
      match arrived
      case None =>
        n := if done == 0 then -1 else done;
      case Some(a) =>
        var c := Clip(a, len');
        FillMore(buf, at, at', c);
        n := done + |c|;
    }

    method PutBack(bytes: seq<byte>)
      modifies this
      ensures readbuffer == Return(old(readbuffer), bytes)
    {
      if readbuffer != [] {
        readbuffer := readbuffer + bytes;
      } else {
        readbuffer := bytes;
      }
    }
  }

  /** Adds bytes behind those already in the buffer. */
  method FillMore(buf: array<byte>, from: nat, at: nat, bytes: seq<byte>)
    requires from <= at && at + |bytes| <= buf.Length
    modifies buf
    ensures buf[from..at + |bytes|] == old(buf[from..at]) + bytes
    ensures forall i :: 0 <= i < from || at + |bytes| <= i < buf.Length ==> buf[i] == old(buf[i])
  {
    Fill(buf, at, bytes);
    assert buf[from..at + |bytes|] == buf[from..at] + buf[at..at + |bytes|];
  }

  method Fill(buf: array<byte>, at: nat, bytes: seq<byte>)
    requires at + |bytes| <= buf.Length
    modifies buf
    ensures buf[at..at + |bytes|] == bytes
    ensures forall i :: 0 <= i < at || at + |bytes| <= i < buf.Length ==> buf[i] == old(buf[i])
  {
    forall i | 0 <= i < |bytes| {
      buf[at + i] := bytes[i];
    }
  }

  /** What the header stage has in its buffer after a read. */
  function Gathered(l: Line, arrived: Option<seq<byte>>): seq<byte> {
    var t := Take(l.back, if |l.held| <= HEADER_SPACE then HEADER_SPACE - |l.held| else 0, arrived);
    l.held + (if t.got.Some? then t.got.value else [])
  }

  /** A client: its connection, its header buffer and how much of that is filled. */
  class Request {
    const con: Connection
    const data: array<byte>
    var offset: nat
    var stage: Stage
    ghost var used: seq<byte>
    ghost var received: seq<byte>

    ghost predicate Valid()
      reads this
    {
      data.Length == HEADER_SPACE + 1 && offset <= HEADER_SPACE
    }

    ghost function View(): Line
      requires Valid()
      reads this, con, data
    {
      Line(stage, used, data[..offset], con.readbuffer, received)
    }

    constructor (con: Connection, ghost used: seq<byte>, ghost received: seq<byte>)
      ensures Valid() && fresh(data) && this.con == con
              && View() == Line(Collecting, used, [], con.readbuffer, received)
    {
      this.con, data, offset, stage := con, new byte[HEADER_SPACE + 1], 0, Collecting;
      this.used, this.received := used, received;
    }

    /** One visit of the header stage; `look` finds the end of the headers in what has been collected. */
    method Collect(late: bool, arrived: Option<seq<byte>>, failed: bool, look: seq<byte> -> Sight)
      requires Valid() && stage == Collecting
      modifies this, con, data
      ensures Valid()
      ensures View() == Apply(old(View()), if late then TimeOut
              else Event.Collect(arrived, failed, look(Gathered(old(View()), arrived))))
    {
      hide Take, Return;
      ghost var l := View();
      var len: int := HEADER_SPACE - offset;
      if len > 0 {
        if late {
          len := 0;
        } else {
          len := con.ReadBytes(data, offset, len, arrived);
          received := received + Take(l.back, HEADER_SPACE - offset, arrived).drawn;
          assert data[..offset] == l.held;
        }
      }
      if len > 0 {
        Advance(len);
        assert data[..offset] == Gathered(l, arrived);
        Look(look);
      } else if len == 0 || failed {
        stage := Closed;
      }
    }

    method Advance(len: nat)
      requires Valid() && offset + len <= HEADER_SPACE
      modifies this`offset, data
      ensures Valid() && data[..offset] == old(data[..offset]) + old(data[offset..offset + len])
    {
      assert data[..offset + len] == data[..offset] + data[offset..offset + len];
      offset := offset + len;
      data[offset] := 0;
    }

    /** Passes the client on when its headers, or its password line, are complete. */
    method Look(look: seq<byte> -> Sight)
      requires Valid()
      modifies this`offset, this`stage, con
      ensures Valid() && View() == Seen(old(View()), look(old(data[..offset])))
    {
      var sight := look(data[..offset]);
      if sight != NotYet {
        if sight.HeadersEnd? {
          var k := Min(sight.at, offset);
          assert data[..offset][..k] == data[..k] && data[..offset][k..] == data[k..offset];
          con.PutBack(data[k..offset]);
          offset := k;
        }
        stage := Passed;
      }
    }

    /** The password line is taken out of the buffer and the client goes back to the header stage. */
    method DropPassword(length: nat)
      requires Valid() && stage == Passed && length <= offset
      modifies this, data
      ensures Valid() && View() == Apply(old(View()), Event.DropPassword(length))
    {
      ghost var l := View();
      offset := offset - length;
      CopyBytes(data, length, data, 0, offset + 1);
      assert data[..offset + 1][..offset] == data[..offset];
      assert old(data[length..length + (offset - length) + 1])[..offset] == l.held[length..];
      used := used + l.held[..length];
      stage := Collecting;
    }

    /** The headers go to the parser. */
    method Parse() returns (headers: seq<byte>)
      requires Valid() && stage == Passed
      modifies this
      ensures Valid() && View() == Apply(old(View()), Event.Parse) && headers == old(data[..offset])
    {
      headers := data[..offset];
      used, offset, stage := used + headers, 0, Serving;
    }

    /** A body or a source stream is read. */
    method Read(buf: array<byte>, len: nat, arrived: Option<seq<byte>>) returns (n: int)
      requires Valid() && stage == Serving && len <= buf.Length && buf != data
      modifies this, con, buf
      ensures Valid() && View() == Apply(old(View()), Event.Read(len, arrived))
      ensures -1 <= n <= len && used == old(used) + buf[..if n < 0 then 0 else n]
    {
      ghost var t := Take(con.readbuffer, len, arrived);
      n := con.ReadBytes(buf, 0, len, arrived);
      used := used + buf[..if n < 0 then 0 else n];
      received := received + t.drawn;
    }

    /** The connection is kept: a new connection takes over the put-back buffer and a new request starts. */
    method Reuse() returns (next: Request)
      requires Valid() && stage == Serving && offset == 0
      modifies con
      ensures next.Valid() && fresh(next) && fresh(next.con) && next.View() == Apply(old(View()), KeepAlive)
      ensures con.readbuffer == []
    {
      var fresher := new Connection([]);
      if con.readbuffer != [] {
        fresher.readbuffer := con.readbuffer;
        con.readbuffer := [];
      }
      next := new Request(fresher, used, received);
    }
  }
}
