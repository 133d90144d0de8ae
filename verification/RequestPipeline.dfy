/** Clients on their way through the three queues: accepted, read, parsed, perhaps sent back for headers
    or waiting for a body (connection.c). What the network and the parsers say about a client is given
    with each call. */
module RequestPipeline {
  import opened Bytes
  import opened LinkedLists
  import opened RequestQueues

  /** What a walk over a queue decides for a node. */
  datatype Verdict = Keep | Pass | Drop

  datatype RequestKind = SourceRequest | PutRequest | OtherRequest

  /** What the connection stage finds out about a client: whether a shoutcast password line is there, whether
      its headers parse, what it asks for, the length announced for its body (-1 for none), how much of it has
      been read, whether it has ended, and whether the rest arrives at once. */
  datatype Findings = Findings(password: bool, parses: bool, kind: RequestKind, bodyLength: int, bodyRead: nat,
                               bodyEnded: bool, fastLane: bool)

  /** A body is outstanding: sources send theirs as the stream; all others send the announced length, or go on
      until the end if none is announced. */
  predicate OwesBody(f: Findings) {
    f.kind == OtherRequest && if f.bodyLength == -1 then !f.bodyEnded else f.bodyRead != f.bodyLength
  }

  /** Where the connection stage sends a client: back for its headers, to wait for its body, or out of the
      queues, either handed on or destroyed. */
  datatype Way = ToHeaders | ToBody | Out

  /** How often a node has been put into the request queue and into the body queue. */
  datatype Entries = Entries(requests: nat, bodies: nat)

  /** Whether the stage looks at a node it has freed, and whether it then goes on with it. */
  datatype Touch = Untouched | ReadFreed | UsedFreed

  /** The shoutcast handshake fails and frees the node: no password line, or headers that do not parse. */
  predicate Fails(shoutcast: nat, f: Findings) {
    (shoutcast == 1 && !f.password) || (shoutcast == 2 && !f.parses)
  }

  /** The caller of a failed handshake still reads the stage of the node; finding zero in the freed memory,
      it goes on with the node as with a parsed request. */
  function TouchOf(shoutcast: nat, f: Findings, stale: nat): Touch {
    if !Fails(shoutcast, f) then Untouched else if stale != 0 then ReadFreed else UsedFreed
  }

  function WayOf(shoutcast: nat, tried: bool, f: Findings): Way {
    if shoutcast == 1 then (if f.password then ToHeaders else Out)
    else if f.parses && !tried && OwesBody(f) && !f.fastLane then ToBody
    else Out
  }

  /** The nodes with this verdict, in order. */
  ghost function Only<V>(list: seq<Ptr>, verdict: Ptr -> V, v: V): seq<Ptr> {
    if list == [] then []
    else
      var last := |list| - 1;
      Only(list[..last], verdict, v) + (if verdict(list[last]) == v then [list[last]] else [])
  }

  lemma {:induction false} OnlyInside<V>(list: seq<Ptr>, verdict: Ptr -> V, v: V)
    ensures forall p :: p in Only(list, verdict, v) <==> p in list && verdict(p) == v
  {
    if list != [] {
      var last := |list| - 1;
      OnlyInside(list[..last], verdict, v);
      assert list == list[..last] + [list[last]];
    }
  }

  lemma OnlyAppend<V>(a: seq<Ptr>, p: Ptr, verdict: Ptr -> V, v: V)
    ensures Only(a + [p], verdict, v) == if verdict(p) == v then Only(a, verdict, v) + [p] else Only(a, verdict, v)
  {
    assert (a + [p])[..|a|] == a;
    assert Only(a, verdict, v) + [] == Only(a, verdict, v);
  }

  lemma OnlyGrows<V>(base: seq<Ptr>, a: seq<Ptr>, p: Ptr, verdict: Ptr -> V, v: V)
    ensures base + Only(a + [p], verdict, v) ==
            if verdict(p) == v then base + Only(a, verdict, v) + [p] else base + Only(a, verdict, v)
  {
    OnlyAppend(a, p, verdict, v);
    assert base + (Only(a, verdict, v) + [p]) == base + Only(a, verdict, v) + [p];
  }

  lemma ApartStep(kept: seq<Ptr>, p: Ptr, tail: seq<Ptr>, b: seq<Ptr>)
    requires Apart(kept + [p] + tail, b) && p !in kept + tail
    ensures p !in b && Apart(kept + tail, b) && Apart(kept + tail, b + [p])
  {
    assert p in kept + [p] + tail;
    assert forall x :: x in kept + tail ==> x in kept + [p] + tail;
  }

  lemma ApartAdd(a: seq<Ptr>, b: seq<Ptr>, p: Ptr)
    requires Apart(a, b) && p !in a
    ensures Apart(a, b + [p]) && Apart(b + [p], a)
  {
  }

  /** Every node that exists is in one of the three lists. */
  ghost predicate Covered(links: Links, a: seq<Ptr>, b: seq<Ptr>, c: seq<Ptr>) {
    forall p :: p in links ==> p in a || p in b || p in c
  }

  lemma CoveredStep(links: Links, after: Links, kept: seq<Ptr>, p: Ptr, tail: seq<Ptr>, con0: seq<Ptr>, con: seq<Ptr>,
                    other: seq<Ptr>)
    requires Covered(links, kept + [p] + tail, con0, other)
    requires (con == con0 && after.Keys == links.Keys - {p}) || (con == con0 + [p] && after.Keys == links.Keys)
    ensures Covered(after, kept + tail, con, other)
  {
    forall x | x in after
      ensures x in kept + tail || x in con || x in other
    {
      assert x in links.Keys;
      assert x in kept + [p] + tail ==> x == p || x in kept + tail;
    }
  }

  function Entered(e: Entries, way: Way): Entries {
    match way
    case ToHeaders => e.(requests := e.requests + 1)
    case ToBody => e.(bodies := e.bodies + 1)
    case Out => e
  }

  /** What the marks of a node say about its past. */
  ghost predicate Sound(shoutcast: nat, tried: bool, e: Entries, waiting: bool) {
    && shoutcast <= 2 && e.requests <= 2 && e.bodies <= 1
    && (shoutcast == 1 ==> e.requests <= 1)
    && (e.bodies == 1 ==> shoutcast == 0 && (tried || waiting))
  }

  ghost predicate Counted(nodes: set<Ptr>, shoutcast: map<Ptr, nat>, tried: set<Ptr>, entries: map<Ptr, Entries>,
                          bodyList: seq<Ptr>) {
    forall p :: p in nodes ==>
      p in shoutcast && p in entries && Sound(shoutcast[p], p in tried, entries[p], p in bodyList)
  }

  /** Where the connection stage will send each node. */
  function Ways(shoutcast: map<Ptr, nat>, tried: set<Ptr>, find: Ptr -> Findings): Ptr -> Way {
    (p: Ptr) => if p in shoutcast then WayOf(shoutcast[p], p in tried, find(p)) else Out
  }

  /** The nodes the connection stage will look at after freeing them. */
  function Touched(shoutcast: map<Ptr, nat>, find: Ptr -> Findings): Ptr -> bool {
    (p: Ptr) => p in shoutcast && Fails(shoutcast[p], find(p))
  }

  lemma CountedAt(nodes: set<Ptr>, shoutcast: map<Ptr, nat>, tried: set<Ptr>, entries: map<Ptr, Entries>,
                  bodyList: seq<Ptr>, p: Ptr)
    requires Counted(nodes, shoutcast, tried, entries, bodyList) && p in nodes
    ensures p in shoutcast && p in entries && Sound(shoutcast[p], p in tried, entries[p], p in bodyList)
  {
  }

  /** A shoutcast client moves to its next stage. */
  lemma CountedStage(nodes: set<Ptr>, shoutcast: map<Ptr, nat>, tried: set<Ptr>, entries: map<Ptr, Entries>,
                     bodyList: seq<Ptr>, p: Ptr, stage: nat)
    requires Counted(nodes, shoutcast, tried, entries, bodyList) && p in nodes
    requires shoutcast[p] != 0 && (stage == 0 || stage == 2)
    ensures Counted(nodes, shoutcast[p := stage], tried, entries, bodyList)
  {
  }

  /** A round over the body queue marks what it meets, so those that leave stay accounted for. */
  lemma CountedRound(nodes: set<Ptr>, after: set<Ptr>, shoutcast: map<Ptr, nat>, tried: set<Ptr>,
                     entries: map<Ptr, Entries>, bodyList: seq<Ptr>, left: seq<Ptr>)
    requires Counted(nodes, shoutcast, tried, entries, bodyList) && after <= nodes
    ensures Counted(after, shoutcast, tried + Members(bodyList), entries, left)
  {
  }

  ghost predicate SameFor(list: seq<Ptr>, a: map<Ptr, nat>, b: map<Ptr, nat>) {
    forall p :: p in list ==> p in a && p in b && a[p] == b[p]
  }

  lemma SameSelf(list: seq<Ptr>, a: map<Ptr, nat>)
    requires forall p :: p in list ==> p in a
    ensures SameFor(list, a, a)
  {
  }

  lemma TouchIs(shoutcast: map<Ptr, nat>, find: Ptr -> Findings, p: Ptr, stale: nat)
    requires p in shoutcast
    ensures Touched(shoutcast, find)(p) <==> TouchOf(shoutcast[p], find(p), stale) != Untouched
  {
  }

  lemma SameStep(list: seq<Ptr>, a: map<Ptr, nat>, b: map<Ptr, nat>, tried: set<Ptr>, find: Ptr -> Findings)
    requires SameFor(list, a, b) && list != []
    ensures Ways(a, tried, find)(list[0]) == Ways(b, tried, find)(list[0])
    ensures Touched(a, find)(list[0]) == Touched(b, find)(list[0])
  {
    assert list[0] in list;
  }

  lemma SameRest(list: seq<Ptr>, a: map<Ptr, nat>, after: map<Ptr, nat>, b: map<Ptr, nat>)
    requires SameFor(list, a, b) && list != [] && Distinct(list) && after - {list[0]} == a - {list[0]}
    ensures SameFor(list[1..], after, b)
  {
    forall p | p in list[1..]
      ensures p in after && p in b && after[p] == b[p]
    {
      ListTail(list);
      assert p in a - {list[0]} && p in after - {list[0]} && (a - {list[0]})[p] == (after - {list[0]})[p];
    }
  }

  /** The body stage sends a client on unless it needs more data. */
  function BodyVerdict(needsMore: Ptr -> bool): Ptr -> Verdict {
    (p: Ptr) => if needsMore(p) then Keep else Pass
  }

  class Pipeline {
    var links: Links
    var req: Queue
    var con: Queue
    var body: Queue
    /** The shoutcast stage of each node: 0 plain, 1 password expected, 2 headers expected. */
    var shoutcast: map<Ptr, nat>
    /** The nodes whose body has been asked for by the body queue. */
    var tried: set<Ptr>
    ghost var entries: map<Ptr, Entries>
    ghost var reqList: seq<Ptr>
    ghost var conList: seq<Ptr>
    ghost var bodyList: seq<Ptr>

    /** Each queue spells its list; every node is in exactly one of them. */
    ghost predicate Linked()
      reads this
    {
      && Spells(links, req, reqList) && Spells(links, con, conList) && Spells(links, body, bodyList)
      && Apart(reqList, conList) && Apart(reqList, bodyList) && Apart(bodyList, conList)
      && Covered(links, reqList, conList, bodyList)
    }

    /** No node has been in the request queue more than twice or in the body queue more than once. */
    ghost predicate Valid()
      reads this
    {
      Linked() && Counted(links.Keys, shoutcast, tried, entries, bodyList)
    }

    constructor ()
      ensures Valid() && reqList == [] && conList == [] && bodyList == [] && links == map[]
    {
      links, req, con, body := map[], EMPTY, EMPTY, EMPTY;
      shoutcast, tried, entries := map[], {}, map[];
      reqList, conList, bodyList := [], [], [];
    }

    /** Adds an unlinked node at the tail of a queue; queues without common nodes are not affected. */
    method Enqueue(queue: Queue, p: Ptr, q1: Queue, q2: Queue, ghost list: seq<Ptr>, ghost l1: seq<Ptr>,
                   ghost l2: seq<Ptr>) returns (q: Queue)
      requires Spells(links, queue, list) && p !in list && p in links && links[p].None?
      requires Spells(links, q1, l1) && Apart(l1, list) && Spells(links, q2, l2) && Apart(l2, list)
      modifies this`links
      ensures Spells(links, q, list + [p]) && Spells(links, q1, l1) && Spells(links, q2, l2)
      ensures links.Keys == old(links.Keys)
    {
      EnqueueSpells(links, queue, list, p);
      ghost var before := links;
      var (l, r) := Store(links, queue, queue.tail, Some(p));
      links, q := l, r.(tail := After(p));
      InLinks(before, q1, l1);
      InLinks(before, q2, l2);
      SpellsFrame(before, links, q1, l1);
      SpellsFrame(before, links, q2, l2);
    }

    /** Takes the node behind `kept` out of a queue that is being walked. */
    method Unlink(queue: Queue, slot: Slot, p: Ptr, ghost kept: seq<Ptr>, ghost rest: seq<Ptr>) returns (q: Queue)
      requires Spells(links, queue, kept + [p] + rest) && slot == EndSlot(kept)
      modifies this`links
      ensures Spells(links, q, kept + rest) && p !in kept + rest && p in old(links) && p in links && links[p].None?
      ensures links == Unlinked(old(links), kept, p) && links.Keys == old(links.Keys)
    {
      WithoutOne(kept, p, rest);
      UnlinkSpells(links, queue, kept, p, rest);
      LastInLinks(links, queue, kept, p, rest);
      hide Spells;
      var next := links[p];
      q := queue;
      if q.tail == After(p) {
        q := q.(tail := slot);
      }
      var (l, r) := Store(links, q, slot, next);
      q := r;
      links := l[p := None];
    }

    /** Passes a node on or frees it; `q` is the queue it came from, `o` another one. */
    method Dispose(p: Ptr, pass: bool, q: Queue, o: Queue, ghost left: seq<Ptr>, ghost other: seq<Ptr>)
      requires Spells(links, q, left) && Spells(links, o, other) && Spells(links, con, conList)
      requires p in links && links[p].None? && p !in left && p !in other && p !in conList
      requires Apart(left, conList) && Apart(other, conList)
      modifies this`links, this`con, this`conList
      ensures Spells(links, q, left) && Spells(links, o, other) && Spells(links, con, conList)
      ensures conList == if pass then old(conList) + [p] else old(conList)
      ensures links.Keys == if pass then old(links.Keys) else old(links.Keys) - {p}
    {
      if pass {
        con := Enqueue(con, p, q, o, conList, left, other);
        conList := conList + [p];
      } else {
        ghost var l := links;
        InLinks(l, q, left);
        InLinks(l, o, other);
        InLinks(l, con, conList);
        links := links - {p};
        SpellsFrame(l, links, con, conList);
        SpellsFrame(l, links, q, left);
        SpellsFrame(l, links, o, other);
      }
    }

    /** What a walk has done when `seen` is behind it and `rest` before it. */
    ghost predicate Walked(q: Queue, o: Queue, verdict: Ptr -> Verdict, seen: seq<Ptr>, rest: seq<Ptr>,
                           other: seq<Ptr>, con0: seq<Ptr>)
      reads this`links, this`con, this`conList
    {
      var left := Only(seen, verdict, Keep) + rest;
      && Spells(links, q, left) && Spells(links, con, conList) && Spells(links, o, other)
      && Apart(left, conList) && Apart(left, other) && Apart(other, conList)
      && conList == con0 + Only(seen, verdict, Pass)
      && Covered(links, left, conList, other)
    }

    method TakeOne(queue: Queue, o: Queue, slot: Slot, p: Ptr, verdict: Ptr -> Verdict, ghost seen: seq<Ptr>,
                   ghost rest: seq<Ptr>, ghost other: seq<Ptr>, ghost con0: seq<Ptr>) returns (q: Queue)
      requires rest != [] && p == rest[0] && verdict(p) != Keep && Walked(queue, o, verdict, seen, rest, other, con0)
      requires slot == EndSlot(Only(seen, verdict, Keep))
      modifies this`links, this`con, this`conList
      ensures Walked(q, o, verdict, seen + [p], rest[1..], other, con0)
      ensures Only(seen + [p], verdict, Keep) == Only(seen, verdict, Keep) && links.Keys <= old(links.Keys)
    {
      hide Spells, Apart, Only, Covered;
      ghost var kept, tail := Only(seen, verdict, Keep), rest[1..];
      assert kept + rest == kept + [p] + tail;
      OnlyAppend(seen, p, verdict, Keep);
      OnlyAppend(seen, p, verdict, Pass);
      ghost var l := links;
      q := Unlink(queue, slot, p, kept, tail);
      ApartStep(kept, p, tail, conList);
      ApartStep(kept, p, tail, other);
      UnlinkedFrame(l, kept, p, tail, con, conList);
      UnlinkedFrame(l, kept, p, tail, o, other);
      ApartAdd(other, conList, p);
      Dispose(p, verdict(p) == Pass, q, o, kept + tail, other);
      CoveredStep(l, links, kept, p, tail, old(conList), conList, other);
      assert (con0 + Only(seen, verdict, Pass)) + [p] == con0 + (Only(seen, verdict, Pass) + [p]);
    }

    /** Walks a queue once, marking the nodes met when asked to. Kept nodes keep their order, passed nodes
        join the connection queue in order, dropped nodes are freed; every tail ends up at its final empty
        slot. */
    method Sweep(queue: Queue, o: Queue, ghost list: seq<Ptr>, ghost other: seq<Ptr>, verdict: Ptr -> Verdict,
                 mark: bool) returns (q: Queue)
      requires Spells(links, queue, list) && Spells(links, con, conList) && Spells(links, o, other)
      requires Apart(list, conList) && Apart(list, other) && Apart(other, conList)
      requires Covered(links, list, conList, other)
      modifies this`links, this`con, this`conList, this`tried
      ensures Walked(q, o, verdict, list, [], other, old(conList)) && links.Keys <= old(links.Keys)
      ensures tried == if mark then old(tried) + Members(list) else old(tried)
    {
      hide Spells, Apart, Only, Covered;
      q := queue;
      var slot := AtHead;
      ghost var seen: seq<Ptr>, rest := [], list;
      OnlyNone(verdict, Keep);
      OnlyNone(verdict, Pass);
      assert [] + list == list && conList + [] == conList;
      WalkedNext(q, o, verdict, seen, rest, other, conList);
      hide Walked;
      while Load(links, q, slot).Some?
        invariant seen + rest == list && slot == EndSlot(Only(seen, verdict, Keep))
        invariant Walked(q, o, verdict, seen, rest, other, old(conList))
        invariant (slot.After? ==> slot.p in links) && Load(links, q, slot) == At(rest, 0)
        invariant links.Keys <= old(links.Keys)
        invariant tried == if mark then old(tried) + Members(seen) else old(tried)
        decreases |rest|
      {
        var p := Load(links, q, slot).value;
        assert (seen + [p]) + rest[1..] == seen + rest;
        if mark {
          tried := tried + {p};
        }
        if verdict(p) == Keep {
          KeepOne(q, o, verdict, seen, rest, other, old(conList));
          slot := After(p);
        } else {
          q := TakeOne(q, o, slot, p, verdict, seen, rest, other, old(conList));
        }
        seen, rest := seen + [p], rest[1..];
        WalkedNext(q, o, verdict, seen, rest, other, old(conList));
      }
      assert seen == list && rest == [];
    }

    // ---------------------------------------------------------------- the stages

    /** A new node comes into being; it is in no queue yet. */
    method Create(p: Ptr, compatible: bool)
      requires Valid() && p !in links
      modifies this`links, this`shoutcast, this`tried, this`entries
      ensures Holding(p) && links.Keys == old(links.Keys) + {p}
      ensures Counted(links.Keys, shoutcast, tried, entries, bodyList) && p !in tried
      ensures entries[p] == Entries(0, 0) && shoutcast[p] == if compatible then 1 else 0
    {
      hide Spells, Apart, Covered, Counted;
      SpellsAdd(links, req, reqList, p);
      SpellsAdd(links, con, conList, p);
      SpellsAdd(links, body, bodyList, p);
      CoveredAdd(links, reqList, conList, bodyList, p);
      CountedAdd(links.Keys, shoutcast, tried, entries, bodyList, p, if compatible then 1 else 0);
      links := links[p := None];
      shoutcast := shoutcast[p := if compatible then 1 else 0];
      tried := tried - {p};
      entries := entries[p := Entries(0, 0)];
    }

    /** The queues while one unlinked node is in the hands of a stage. */
    ghost predicate Holding(p: Ptr)
      reads this
    {
      && Spells(links, req, reqList) && Spells(links, con, conList) && Spells(links, body, bodyList)
      && Apart(reqList, conList) && Apart(reqList, bodyList) && Apart(bodyList, conList)
      && p in links && links[p].None? && p !in reqList && p !in conList && p !in bodyList
      && Covered(links, reqList, conList + [p], bodyList)
    }

    method AddRequest(p: Ptr)
      requires Holding(p) && Counted(links.Keys, shoutcast, tried, entries, bodyList)
      requires entries[p].requests == 0 || (entries[p].requests == 1 && shoutcast[p] != 1)
      modifies this`links, this`req, this`reqList, this`entries
      ensures Valid() && reqList == old(reqList) + [p] && links.Keys == old(links.Keys)
      ensures entries == old(entries)[p := old(entries[p]).(requests := old(entries[p].requests) + 1)]
    {
      hide Spells;
      ApartSwap(reqList, conList);
      ApartSwap(reqList, bodyList);
      req := Enqueue(req, p, con, body, reqList, conList, bodyList);
      reqList := reqList + [p];
      entries := entries[p := entries[p].(requests := entries[p].requests + 1)];
    }

    method AddBody(p: Ptr)
      requires Holding(p) && Counted(links.Keys, shoutcast, tried, entries, bodyList)
      requires shoutcast[p] == 0 && p !in tried
      modifies this`links, this`body, this`bodyList, this`entries
      ensures Valid() && bodyList == old(bodyList) + [p] && links.Keys == old(links.Keys)
      ensures entries == old(entries)[p := old(entries[p]).(bodies := 1)] && old(entries[p].bodies) == 0
    {
      hide Spells;
      ApartSwap(bodyList, conList);
      body := Enqueue(body, p, con, req, bodyList, conList, reqList);
      bodyList := bodyList + [p];
      entries := entries[p := entries[p].(bodies := 1)];
    }

    method AddConnection(p: Ptr)
      requires Holding(p) && Counted(links.Keys, shoutcast, tried, entries, bodyList)
      modifies this`links, this`con, this`conList
      ensures Valid() && conList == old(conList) + [p] && links.Keys == old(links.Keys)
    {
      hide Spells;
      con := Enqueue(con, p, req, body, conList, reqList, bodyList);
      conList := conList + [p];
    }

    method Free(p: Ptr)
      requires Holding(p) && Counted(links.Keys, shoutcast, tried, entries, bodyList)
      modifies this`links
      ensures Valid() && links.Keys == old(links.Keys) - {p}
    {
      ghost var before := links;
      InLinks(links, req, reqList);
      InLinks(links, con, conList);
      InLinks(links, body, bodyList);
      links := links - {p};
      SpellsFrame(before, links, req, reqList);
      SpellsFrame(before, links, con, conList);
      SpellsFrame(before, links, body, bodyList);
      hide Spells;
    }

    /** A client has connected: it waits for its headers. */
    method Accept(p: Ptr, compatible: bool)
      requires Valid() && p !in links
      modifies this`links, this`req, this`reqList, this`shoutcast, this`tried, this`entries
      ensures Valid() && reqList == old(reqList) + [p] && links.Keys == old(links.Keys) + {p}
      ensures entries[p] == Entries(1, 0) && p in shoutcast && shoutcast[p] == if compatible then 1 else 0
    {
      Create(p, compatible);
      AddRequest(p);
    }

    /** A client that has switched to TLS goes to the connection stage at once. */
    method QueueClient(p: Ptr, compatible: bool)
      requires Valid() && p !in links
      modifies this`links, this`con, this`conList, this`shoutcast, this`tried, this`entries
      ensures Valid() && conList == old(conList) + [p] && links.Keys == old(links.Keys) + {p}
      ensures entries[p] == Entries(0, 0) && p in shoutcast && shoutcast[p] == if compatible then 1 else 0
    {
      Create(p, compatible);
      AddConnection(p);
    }

    method GetConnection() returns (node: Option<Ptr>)
      requires Valid()
      modifies this`links, this`con, this`conList
      ensures node == At(old(conList), 0) && links.Keys == old(links.Keys)
      ensures node.None? ==> Valid() && conList == []
      ensures node.Some? ==> Holding(node.value) && Counted(links.Keys, shoutcast, tried, entries, bodyList)
      ensures node.Some? ==> [node.value] + conList == old(conList)
    {
      hide Spells, Apart, Covered, Counted, Distinct;
      HeadOf(links, con, conList);
      node := con.head;
      if node.Some? {
        var p := node.value;
        ListTail(conList);
        ApartTail(reqList, conList);
        ApartTail(bodyList, conList);
        SpellsWithout(links, req, reqList, p);
        SpellsWithout(links, body, bodyList, p);
        DequeueSpells(links, con, conList);
        CoveredTail(links, reqList, conList, bodyList);
        assert links[p := None].Keys == links.Keys;
        CoveredKeys(links, links[p := None], reqList, conList[1..] + [p], bodyList);
        var next := links[p];
        con := con.(head := next);
        if next.None? {
          con := con.(tail := AtHead);
        }
        links := links[p := None];
        conList := conList[1..];
      }
    }

    /** The connection stage for one client. `stale` is what freed memory holds. What the stage does with a
        freed node it goes on with is not modelled. */
    method HandleOne(find: Ptr -> Findings, stale: Ptr -> nat) returns (touch: Touch)
      requires Valid() && conList != []
      modifies this`links, this`req, this`reqList, this`con, this`conList, this`body, this`bodyList, this`shoutcast,
               this`entries
      ensures Valid() && conList == old(conList)[1..]
      ensures var p := old(conList)[0];
              var way := Ways(old(shoutcast), tried, find)(p);
              && reqList == (if way == ToHeaders then old(reqList) + [p] else old(reqList))
              && bodyList == (if way == ToBody then old(bodyList) + [p] else old(bodyList))
              && links.Keys == (if way == Out then old(links.Keys) - {p} else old(links.Keys))
              && shoutcast - {p} == old(shoutcast) - {p}
              && p in old(entries) && entries == old(entries)[p := Entered(old(entries)[p], way)]
              && p in old(shoutcast) && touch == TouchOf(old(shoutcast)[p], find(p), stale(p))
      ensures var p := old(conList)[0];
              var f := find(p);
              bodyList == old(bodyList) + [p] <==>
                && old(shoutcast)[p] != 1 && f.parses && p !in tried && !f.fastLane && f.kind == OtherRequest
                && ((f.bodyLength == -1 && !f.bodyEnded) || (f.bodyLength != -1 && f.bodyLength != f.bodyRead))
    {
      hide Spells, Apart, Covered, Counted, Distinct;
      var node := GetConnection();
      var p := node.value;
      CountedAt(links.Keys, shoutcast, tried, entries, bodyList, p);
      var f, alreadyParsed := find(p), false;
      touch := Untouched;
      if shoutcast[p] != 0 {
        alreadyParsed := HandleShoutcast(p, f);
        var stage := if p in links then shoutcast[p] else stale(p);
        if p !in links {
          touch := ReadFreed;
        }
        if stage != 0 {
          return;
        }
        if p !in links {
          return UsedFreed;
        }
      }
      PassOn(p, f, alreadyParsed);
    }

    /** A client past the handshake waits for its body or leaves the queues. */
    method PassOn(p: Ptr, f: Findings, alreadyParsed: bool)
      requires Holding(p) && Counted(links.Keys, shoutcast, tried, entries, bodyList)
      requires p in shoutcast && shoutcast[p] == 0
      modifies this`links, this`body, this`bodyList, this`entries
      ensures Valid() && p in old(entries)
      ensures var waits := (alreadyParsed || f.parses) && NeedBody(p, f) && !f.fastLane;
              && bodyList == (if waits then old(bodyList) + [p] else old(bodyList))
              && links.Keys == (if waits then old(links.Keys) else old(links.Keys) - {p})
              && entries == (if waits then old(entries)[p := Entered(old(entries)[p], ToBody)] else old(entries))
    {
      hide Spells, Apart, Covered, Counted, Distinct;
      CountedAt(links.Keys, shoutcast, tried, entries, bodyList, p);
      if (alreadyParsed || f.parses) && NeedBody(p, f) && !f.fastLane {
        AddBody(p);
      } else {
        Free(p);
      }
    }

    /** The shoutcast handshake: after the password line the client goes back for its headers, and with
        its headers it becomes an ordinary parsed request. */
    method HandleShoutcast(p: Ptr, f: Findings) returns (parsed: bool)
      requires Holding(p) && Counted(links.Keys, shoutcast, tried, entries, bodyList) && p in shoutcast
               && shoutcast[p] != 0
      modifies this`links, this`req, this`reqList, this`shoutcast, this`entries
      ensures parsed <==> old(shoutcast[p]) == 2 && f.parses
      ensures parsed ==> Holding(p) && p in shoutcast && shoutcast[p] == 0
      ensures parsed ==> Counted(links.Keys, shoutcast, tried, entries, bodyList)
      ensures parsed ==> links == old(links) && reqList == old(reqList) && entries == old(entries)
      ensures !parsed ==> Valid() && p in old(entries)
      ensures !parsed ==> var back := !Fails(old(shoutcast[p]), f);
              && (back ==> p in shoutcast && shoutcast[p] == 2)
              && reqList == (if back then old(reqList) + [p] else old(reqList))
              && links.Keys == (if back then old(links.Keys) else old(links.Keys) - {p})
              && entries == (if back then old(entries)[p := Entered(old(entries)[p], ToHeaders)] else old(entries))
      ensures shoutcast - {p} == old(shoutcast) - {p}
    {
      hide Spells, Apart, Covered, Counted, Distinct;
      CountedAt(links.Keys, shoutcast, tried, entries, bodyList, p);
      parsed := false;
      if shoutcast[p] == 1 {
        if f.password {
          CountedStage(links.Keys, shoutcast, tried, entries, bodyList, p, 2);
          shoutcast := shoutcast[p := 2];
          AddRequest(p);
        } else {
          Free(p);
        }
      } else if f.parses {
        CountedStage(links.Keys, shoutcast, tried, entries, bodyList, p, 0);
        shoutcast, parsed := shoutcast[p := 0], true;
      } else {
        Free(p);
      }
    }

    function NeedBody(p: Ptr, f: Findings): (needed: bool)
      reads this
      ensures needed <==> p !in tried && OwesBody(f)
    {
      if p in tried then false
      else if f.kind == SourceRequest then false
      else if f.kind == PutRequest then false
      else if f.bodyLength != -1 && f.bodyLength != f.bodyRead then true
      else if f.bodyLength == -1 && !f.bodyEnded then true
      else false
    }

    /** Empties the connection queue. Clients still owing a body join the body queue, shoutcast clients
        whose password has been read go back to the request queue, each in their order; the rest leave.
        The nodes of failed handshakes, and no others, are looked at after they have been freed. */
    method HandleConnections(find: Ptr -> Findings, stale: Ptr -> nat) returns (touched: seq<Ptr>)
      requires Valid()
      modifies this`links, this`req, this`reqList, this`con, this`conList, this`body, this`bodyList, this`shoutcast,
               this`entries
      ensures Valid() && conList == []
      ensures var ways := Ways(old(shoutcast), tried, find);
              && reqList == old(reqList) + Only(old(conList), ways, ToHeaders)
              && bodyList == old(bodyList) + Only(old(conList), ways, ToBody)
      ensures touched == Only(old(conList), Touched(old(shoutcast), find), true)
    {
      hide Only, Valid, Distinct, SameFor, Ways, Touched;
      ghost var ways, done := Ways(shoutcast, tried, find), [];
      ghost var seen := Touched(shoutcast, find);
      touched := [];
      OnlyNone(seen, true);
      OnlyNone(ways, ToHeaders);
      OnlyNone(ways, ToBody);
      Heads();
      SameSelf(conList, shoutcast);
      while con.head.Some?
        invariant Valid() && done + conList == old(conList) && con.head == At(conList, 0)
        invariant reqList == old(reqList) + Only(done, ways, ToHeaders)
        invariant bodyList == old(bodyList) + Only(done, ways, ToBody)
        invariant SameFor(conList, shoutcast, old(shoutcast))
        invariant touched == Only(done, seen, true)
        decreases |conList|
      {
        ghost var list, before := conList, shoutcast;
        OnlyGrows(old(reqList), done, list[0], ways, ToHeaders);
        OnlyGrows(old(bodyList), done, list[0], ways, ToBody);
        OnlyAppend(done, list[0], seen, true);
        Shift(done, list);
        Heads();
        SameStep(list, shoutcast, old(shoutcast), tried, find);
        TouchIs(shoutcast, find, list[0], stale(list[0]));
        var p := con.head.value;
        var touch := HandleOne(find, stale);
        if touch != Untouched {
          touched := touched + [p];
        }
        SameRest(list, before, shoutcast, old(shoutcast));
        Heads();
        done := done + [list[0]];
      }
      assert done == old(conList);
    }

    /** One round over the clients waiting for headers. */
    method ProcessRequestQueue(verdict: Ptr -> Verdict, find: Ptr -> Findings, stale: Ptr -> nat)
      returns (touched: seq<Ptr>)
      requires Valid()
      modifies this
      ensures Valid() && conList == []
      ensures var passed := old(conList) + Only(old(reqList), verdict, Pass);
              var ways := Ways(old(shoutcast), old(tried), find);
              && reqList == Only(old(reqList), verdict, Keep) + Only(passed, ways, ToHeaders)
              && bodyList == old(bodyList) + Only(passed, ways, ToBody)
              && touched == Only(passed, Touched(old(shoutcast), find), true)
    {
      hide Only, Spells, Walked;
      ApartSwap(reqList, bodyList);
      ApartSwap(bodyList, conList);
      req := Sweep(req, body, reqList, bodyList, verdict, false);
      WalkedAll(req, body, verdict, reqList, bodyList, old(conList));
      reqList := Only(reqList, verdict, Keep);
      touched := HandleConnections(find, stale);
    }

    /** One round over the clients waiting for their bodies; nobody is dropped here. */
    method ProcessBodyQueue(needsMore: Ptr -> bool)
      requires Valid()
      modifies this
      ensures Valid() && reqList == old(reqList) && entries == old(entries)
      ensures bodyList == Only(old(bodyList), BodyVerdict(needsMore), Keep)
      ensures conList == old(conList) + Only(old(bodyList), BodyVerdict(needsMore), Pass)
      ensures tried == old(tried) + Members(old(bodyList))
    {
      hide Only, Spells, Apart, Covered, Counted, Members, BodyVerdict;
      var verdict := BodyVerdict(needsMore);
      ApartSwap(reqList, bodyList);
      CoveredSwap(links, reqList, conList, bodyList);
      hide Walked;
      body := Sweep(body, req, bodyList, reqList, verdict, true);
      ghost var left := Only(bodyList, verdict, Keep);
      CountedRound(old(links.Keys), links.Keys, shoutcast, old(tried), entries, bodyList, left);
      WalkedAll(body, req, verdict, bodyList, reqList, old(conList));
      ApartSwap(left, reqList);
      CoveredSwap(links, left, conList, reqList);
      bodyList := left;
    }

    lemma WalkedAll(q: Queue, o: Queue, verdict: Ptr -> Verdict, list: seq<Ptr>, other: seq<Ptr>, con0: seq<Ptr>)
      requires Walked(q, o, verdict, list, [], other, con0)
      ensures var left := Only(list, verdict, Keep);
              && Spells(links, q, left) && Spells(links, con, conList) && Spells(links, o, other)
              && Apart(left, conList) && Apart(left, other) && Apart(other, conList)
              && conList == con0 + Only(list, verdict, Pass)
              && Covered(links, left, conList, other)
    {
      assert Only(list, verdict, Keep) + [] == Only(list, verdict, Keep);
    }

    lemma Heads()
      requires Valid()
      ensures con.head == At(conList, 0) && Distinct(conList) && forall p :: p in conList ==> p in shoutcast
    {
      HeadOf(links, con, conList);
    }

    lemma KeepOne(q: Queue, o: Queue, verdict: Ptr -> Verdict, seen: seq<Ptr>, rest: seq<Ptr>, other: seq<Ptr>,
                  con0: seq<Ptr>)
      requires rest != [] && verdict(rest[0]) == Keep && Walked(q, o, verdict, seen, rest, other, con0)
      ensures Walked(q, o, verdict, seen + [rest[0]], rest[1..], other, con0)
      ensures Only(seen + [rest[0]], verdict, Keep) == Only(seen, verdict, Keep) + [rest[0]]
    {
      hide Spells, Apart, Only;
      OnlyAppend(seen, rest[0], verdict, Keep);
      OnlyAppend(seen, rest[0], verdict, Pass);
      assert (Only(seen, verdict, Keep) + [rest[0]]) + rest[1..] == Only(seen, verdict, Keep) + rest;
    }

    lemma WalkedNext(q: Queue, o: Queue, verdict: Ptr -> Verdict, seen: seq<Ptr>, rest: seq<Ptr>, other: seq<Ptr>,
                     con0: seq<Ptr>)
      requires Walked(q, o, verdict, seen, rest, other, con0)
      ensures var slot := EndSlot(Only(seen, verdict, Keep));
              (slot.After? ==> slot.p in links) && Load(links, q, slot) == At(rest, 0)
    {
      hide Spells, Apart, Only;
      NextOf(links, q, Only(seen, verdict, Keep), rest);
    }
  }

  lemma SpellsAdd(links: Links, q: Queue, list: seq<Ptr>, p: Ptr)
    requires Spells(links, q, list) && p !in links
    ensures p !in list && Spells(links[p := None], q, list)
  {
  }

  lemma CoveredAdd(links: Links, a: seq<Ptr>, b: seq<Ptr>, c: seq<Ptr>, p: Ptr)
    requires Covered(links, a, b, c)
    ensures Covered(links[p := None], a, b + [p], c)
  {
    assert forall x :: x in links[p := None] ==> x == p || x in links;
    assert p in b + [p];
  }

  lemma CountedAdd(nodes: set<Ptr>, shoutcast: map<Ptr, nat>, tried: set<Ptr>, entries: map<Ptr, Entries>,
                   bodyList: seq<Ptr>, p: Ptr, stage: nat)
    requires Counted(nodes, shoutcast, tried, entries, bodyList) && p !in nodes && stage <= 1
    ensures Counted(nodes + {p}, shoutcast[p := stage], tried - {p}, entries[p := Entries(0, 0)], bodyList)
  {
  }

  lemma SpellsWithout(links: Links, q: Queue, list: seq<Ptr>, p: Ptr)
    requires Spells(links, q, list) && p !in list
    ensures Spells(links[p := None], q, list)
  {
  }

  lemma CoveredKeys(links: Links, after: Links, a: seq<Ptr>, b: seq<Ptr>, c: seq<Ptr>)
    requires Covered(links, a, b, c) && after.Keys == links.Keys
    ensures Covered(after, a, b, c)
  {
    assert forall p :: p in after ==> p in links.Keys;
  }

  lemma CoveredSwap(links: Links, a: seq<Ptr>, b: seq<Ptr>, c: seq<Ptr>)
    requires Covered(links, a, b, c)
    ensures Covered(links, c, b, a)
  {
  }

  lemma Shift(done: seq<Ptr>, list: seq<Ptr>)
    requires list != []
    ensures (done + [list[0]]) + list[1..] == done + list
  {
  }

  lemma ApartSwap(a: seq<Ptr>, b: seq<Ptr>)
    requires Apart(a, b)
    ensures Apart(b, a)
  {
  }

  lemma ListTail(list: seq<Ptr>)
    requires Distinct(list) && list != []
    ensures list[0] !in list[1..] && [list[0]] + list[1..] == list
    ensures forall p :: p in list[1..] ==> p in list
  {
  }

  lemma ApartTail(a: seq<Ptr>, list: seq<Ptr>)
    requires Apart(a, list) && list != []
    ensures list[0] !in a && Apart(a, list[1..])
  {
    assert list[0] in list;
  }

  lemma CoveredTail(links: Links, a: seq<Ptr>, list: seq<Ptr>, b: seq<Ptr>)
    requires Covered(links, a, list, b) && list != []
    ensures Covered(links, a, list[1..] + [list[0]], b)
  {
    forall p | p in links
      ensures p in a || p in list[1..] + [list[0]] || p in b
    {
      assert list == [list[0]] + list[1..];
    }
  }

  lemma OnlyNone<V>(verdict: Ptr -> V, v: V)
    ensures Only([], verdict, v) == []
  {
  }

  lemma HeadOf(links: Links, q: Queue, list: seq<Ptr>)
    requires Spells(links, q, list)
    ensures q.head == At(list, 0) && Distinct(list) && forall p :: p in list ==> p in links
  {
  }

  lemma InLinks(links: Links, q: Queue, list: seq<Ptr>)
    requires Spells(links, q, list)
    ensures forall p :: p in list ==> p in links
  {
  }

  lemma LastInLinks(links: Links, q: Queue, kept: seq<Ptr>, p: Ptr, rest: seq<Ptr>)
    requires Spells(links, q, kept + [p] + rest)
    ensures kept != [] ==> kept[|kept| - 1] in links
  {
    if kept != [] {
      assert (kept + [p] + rest)[|kept| - 1] == kept[|kept| - 1];
    }
  }

  /** What the slot behind the kept nodes holds. */
  lemma NextOf(links: Links, q: Queue, kept: seq<Ptr>, rest: seq<Ptr>)
    requires Spells(links, q, kept + rest)
    ensures EndSlot(kept).After? ==> EndSlot(kept).p in links
    ensures Load(links, q, EndSlot(kept)) == At(rest, 0)
  {
    if kept != [] {
      var i := |kept| - 1;
      assert (kept + rest)[i] == kept[i];
      assert links[(kept + rest)[i]] == At(kept + rest, i + 1);
    } else {
      assert kept + rest == rest;
    }
  }

  /** Unlinking touches only the node and the one before it. */
  lemma UnlinkedFrame(links: Links, kept: seq<Ptr>, p: Ptr, tail: seq<Ptr>, q: Queue, list: seq<Ptr>)
    requires p in links && Spells(links, q, list) && p !in list && Apart(kept + tail, list)
    ensures Spells(Unlinked(links, kept, p), q, list)
  {
    InLinks(links, q, list);
    if kept != [] {
      assert kept[|kept| - 1] in kept + tail;
    }
    SpellsFrame(links, Unlinked(links, kept, p), q, list);
  }

  /** It happens: a client that has switched to TLS on a shoutcast listener comes to the connection stage with
      an empty buffer, so there is no password line, and its node is looked at after it has been freed. */
  method FreedNodeIsRead() returns (touched: seq<Ptr>)
    ensures touched == [1]
  {
    hide Only, Pipeline.Valid, Touched, Ways;
    var pipeline := new Pipeline();
    pipeline.QueueClient(1, true);
    var find := (p: Ptr) => Findings(false, true, OtherRequest, 0, 0, true, false);
    assert pipeline.conList == [1];
    TouchIs(pipeline.shoutcast, find, 1, 1);
    OnlyOne(1, Touched(pipeline.shoutcast, find), true);
    touched := pipeline.HandleConnections(find, (p: Ptr) => 1);
  }

  lemma OnlyOne<V>(p: Ptr, verdict: Ptr -> V, v: V)
    requires verdict(p) == v
    ensures Only([p], verdict, v) == [p]
  {
    OnlyAppend([], p, verdict, v);
    assert [] + [p] == [p];
  }
}
