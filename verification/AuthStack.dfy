/** Authenticator stacks: reference-counted linked lists that share nodes (auth.c). Nodes live at
    addresses; a stack is named by the address of its first node. `handles` counts the addresses
    held outside the lists. */
module AuthStack {
  import opened Bytes
  import opened LinkedLists

  datatype Acl = Acl(id: nat)

  /** An authenticator as the searches see it. */
  datatype Auth = Auth(id: nat, anonymous: bool, acl: Option<Acl>, noMatchMethods: set<nat>)

  datatype Node = Node(refcount: nat, auth: Auth, next: Option<Ptr>)

  type Heap = map<Ptr, Node>

  /** For each node, itself and all nodes behind it: its existence rules out cycles. */
  type Chains = map<Ptr, seq<Ptr>>

  ghost function Before(h: Heap, p: Ptr): set<Ptr> {
    set q | q in h && h[q].next == Some(p)
  }

  /** The link of a node leads to a live node, and its chain is that node's chain with itself in front. */
  ghost predicate LinkOk(h: Heap, chains: Chains, p: Ptr)
    requires p in h && chains.Keys == h.Keys
  {
    match h[p].next
    case None => chains[p] == [p]
    case Some(n) => n in h && chains[p] == [p] + chains[n]
  }

  ghost predicate Linked(h: Heap, chains: Chains) {
    && chains.Keys == h.Keys
    && forall p :: p in h ==> LinkOk(h, chains, p)
  }

  /** The count of a node is the number of its outside handles and of the live nodes before it. */
  ghost predicate CountOk(h: Heap, handles: multiset<Ptr>, p: Ptr)
    requires p in h
  {
    h[p].refcount == handles[p] + |Before(h, p)| && h[p].refcount > 0
  }

  ghost predicate Counted(h: Heap, handles: multiset<Ptr>) {
    && (forall p :: p in h ==> CountOk(h, handles, p))
    && (forall p :: p in handles ==> p in h)
  }

  ghost predicate Owned(h: Heap, handles: multiset<Ptr>, chains: Chains) {
    Linked(h, chains) && Counted(h, handles)
  }

  // ---------------------------------------------------------------- what ownership means

  lemma {:induction false} ChainTail(h: Heap, chains: Chains, p: Ptr, i: nat)
    requires Linked(h, chains) && p in h && i < |chains[p]|
    ensures chains[p][i] in h && chains[chains[p][i]] == chains[p][i..]
    decreases i
  {
    assert LinkOk(h, chains, p);
    if i == 0 {
      assert chains[p][0..] == chains[p];
    } else {
      var n := h[p].next.value;
      ChainTail(h, chains, n, i - 1);
      assert chains[p][i..] == chains[n][i - 1..];
    }
  }

  lemma ChainInside(h: Heap, chains: Chains, p: Ptr)
    requires Linked(h, chains) && p in h
    ensures forall q :: q in chains[p] ==> q in h
  {
    forall i | 0 <= i < |chains[p]|
      ensures chains[p][i] in h
    {
      ChainTail(h, chains, p, i);
    }
  }

  /** Nothing that can be reached from a handle has been freed. */
  lemma ReachableIsLive(h: Heap, handles: multiset<Ptr>, chains: Chains, p: Ptr)
    requires Owned(h, handles, chains) && p in handles
    ensures forall q :: q in chains[p] ==> q in h && h[q].refcount > 0
  {
    ChainInside(h, chains, p);
    assert forall q :: q in h ==> CountOk(h, handles, q);
  }

  lemma ChainLength(h: Heap, chains: Chains, p: Ptr)
    requires Linked(h, chains) && p in h
    ensures |chains[p]| <= |h|
  {
    ChainInside(h, chains, p);
    var c := chains[p];
    forall i, j | 0 <= i < j < |c|
      ensures c[i] != c[j]
    {
      ChainTail(h, chains, p, i);
      ChainTail(h, chains, p, j);
      assert |c[i..]| != |c[j..]|;
    }
    DistinctInside(c, h.Keys);
  }

  lemma {:induction false} DistinctInside(s: seq<Ptr>, keys: set<Ptr>)
    requires forall i, j :: 0 <= i < j < |s| ==> s[i] != s[j]
    requires forall x :: x in s ==> x in keys
    ensures |s| <= |keys|
    decreases |s|
  {
    if s != [] {
      DistinctInside(s[1..], keys - {s[0]});
    }
  }

  lemma NodeBefore(h: Heap, handles: multiset<Ptr>, chains: Chains, p: Ptr) returns (q: Ptr)
    requires Owned(h, handles, chains) && p in h && handles[p] == 0
    ensures q in h && p in chains && q in chains && chains[q] == [q] + chains[p]
  {
    assert CountOk(h, handles, p);
    assert Before(h, p) != {};
    q :| q in Before(h, p);
    assert LinkOk(h, chains, q);
  }

  lemma BehindToo(h: Heap, chains: Chains, root: Ptr, q: Ptr, p: Ptr)
    requires Linked(h, chains) && root in h && q in h && p in h && q in chains[root] && chains[q] == [q] + chains[p]
    ensures p in chains[root]
  {
    var i :| 0 <= i < |chains[root]| && chains[root][i] == q;
    ChainTail(h, chains, root, i);
    assert LinkOk(h, chains, p);
    assert chains[p][0] == p;
    assert chains[root][i..][1] == p;
  }

  /** Nothing leaks: every live node is reached from some handle. */
  lemma {:induction false} LiveIsReachable(h: Heap, handles: multiset<Ptr>, chains: Chains, p: Ptr) returns (root: Ptr)
    requires Owned(h, handles, chains) && p in h
    ensures root in handles && root in h && p in chains[root]
    decreases |h| - |chains[p]|
  {
    hide LinkOk, CountOk;
    if handles[p] > 0 {
      root := p;
      ChainStarts(h, chains, p);
    } else {
      var q := NodeBefore(h, handles, chains, p);
      ChainLength(h, chains, q);
      root := LiveIsReachable(h, handles, chains, q);
      BehindToo(h, chains, root, q, p);
    }
  }

  lemma ChainStarts(h: Heap, chains: Chains, p: Ptr)
    requires Linked(h, chains) && p in h
    ensures p in chains[p]
  {
    assert LinkOk(h, chains, p);
    assert chains[p][0] == p;
  }

  // ---------------------------------------------------------------- single changes of the heap

  function Bump(h: Heap, p: Ptr, d: int): Heap
    requires p in h && h[p].refcount + d >= 0
  {
    h[p := h[p].(refcount := h[p].refcount + d)]
  }

  lemma BumpKeepsLinks(h: Heap, chains: Chains, p: Ptr, d: int)
    requires Linked(h, chains) && p in h && h[p].refcount + d >= 0
    ensures Linked(Bump(h, p, d), chains)
    ensures forall q :: Before(Bump(h, p, d), q) == Before(h, q)
  {
    var k := Bump(h, p, d);
    assert forall q :: q in h ==> k[q].next == h[q].next;
    forall q
      ensures Before(k, q) == Before(h, q)
    {
      assert forall r :: r in Before(k, q) <==> r in Before(h, q);
    }
    forall q | q in k
      ensures LinkOk(k, chains, q)
    {
      assert LinkOk(h, chains, q);
    }
  }

  lemma AddRefKeeps(h: Heap, handles: multiset<Ptr>, chains: Chains, p: Ptr)
    requires Owned(h, handles, chains) && p in h
    ensures Owned(Bump(h, p, 1), handles + multiset{p}, chains)
  {
    BumpKeepsLinks(h, chains, p, 1);
    var k := Bump(h, p, 1);
    forall q | q in k
      ensures CountOk(k, handles + multiset{p}, q)
    {
      assert CountOk(h, handles, q);
    }
  }

  /** All but `p` are counted; `p` itself has lost its last holder. */
  ghost predicate Dying(h: Heap, handles: multiset<Ptr>, chains: Chains, p: Ptr) {
    && Linked(h, chains) && p in h && handles[p] == 0 && Before(h, p) == {}
    && (forall q :: q in h && q != p ==> CountOk(h, handles, q))
    && (forall q :: q in handles ==> q in h)
  }

  lemma DropKeeps(h: Heap, handles: multiset<Ptr>, chains: Chains, p: Ptr)
    requires Owned(h, handles, chains) && p in handles
    ensures var k, left := Bump(h, p, -1), handles - multiset{p};
            if k[p].refcount > 0 then Owned(k, left, chains) else Dying(k, left, chains, p)
  {
    assert CountOk(h, handles, p);
    BumpKeepsLinks(h, chains, p, -1);
    var k := Bump(h, p, -1);
    forall q | q in k && (q == p ==> k[p].refcount > 0)
      ensures CountOk(k, handles - multiset{p}, q)
    {
      assert CountOk(h, handles, q);
    }
    if k[p].refcount == 0 {
      assert |Before(k, p)| == 0;
    }
  }

  function Held(p: Option<Ptr>): multiset<Ptr> {
    if p.Some? then multiset{p.value} else multiset{}
  }

  lemma FreeLinks(h: Heap, chains: Chains, p: Ptr)
    requires Linked(h, chains) && p in h && Before(h, p) == {}
    ensures Linked(h - {p}, chains - {p})
  {
    var k, c := h - {p}, chains - {p};
    assert c.Keys == k.Keys;
    forall q | q in k
      ensures LinkOk(k, c, q)
    {
      assert LinkOk(h, chains, q);
      assert q !in Before(h, p);
    }
  }

  lemma FreeBefore(h: Heap, p: Ptr, q: Ptr)
    requires p in h && q in h && q != p
    ensures Before(h - {p}, q) == Before(h, q) - {p}
    ensures p in Before(h, q) <==> h[p].next == Some(q)
  {
  }

  /** Freeing a dead node turns its link to the next node into a handle, to be released next. */
  lemma FreeKeeps(h: Heap, handles: multiset<Ptr>, chains: Chains, p: Ptr)
    requires Dying(h, handles, chains, p)
    ensures Owned(h - {p}, handles + Held(h[p].next), chains - {p})
  {
    var k, more := h - {p}, handles + Held(h[p].next);
    FreeLinks(h, chains, p);
    assert LinkOk(h, chains, p);
    assert h[p].next != Some(p) by {
      assert p !in Before(h, p);
    }
    forall q | q in k
      ensures CountOk(k, more, q)
    {
      assert CountOk(h, handles, q);
      FreeBefore(h, p, q);
    }
    forall q | q in more
      ensures q in k
    {
      assert q in handles || h[p].next == Some(q);
    }
  }

  ghost function ExtendOne(c: seq<Ptr>, last: Ptr, tail: seq<Ptr>): seq<Ptr> {
    if last in c then c + tail else c
  }

  lemma ExtendCons(q: Ptr, c: seq<Ptr>, last: Ptr, tail: seq<Ptr>)
    requires q != last
    ensures ExtendOne([q] + c, last, tail) == [q] + ExtendOne(c, last, tail)
  {
    assert last in [q] + c <==> last in c;
    assert ([q] + c) + tail == [q] + (c + tail);
  }

  /** Chains after `last`, which had no successor, is linked to `tail`. */
  ghost function Extended(chains: Chains, last: Ptr, tail: seq<Ptr>): Chains {
    map p | p in chains :: ExtendOne(chains[p], last, tail)
  }

  function Link(h: Heap, last: Ptr, tail: Ptr): (k: Heap)
    requires last in h
    ensures k.Keys == h.Keys
  {
    h[last := h[last].(next := Some(tail))]
  }

  lemma LinkOne(h: Heap, chains: Chains, last: Ptr, tail: Ptr, q: Ptr)
    requires Linked(h, chains) && last in h && tail in h && h[last].next.None? && last !in chains[tail] && q in h
    ensures Extended(chains, last, chains[tail]).Keys == Link(h, last, tail).Keys
    ensures LinkOk(Link(h, last, tail), Extended(chains, last, chains[tail]), q)
  {
    var k, c, ct := Link(h, last, tail), Extended(chains, last, chains[tail]), chains[tail];
    assert c.Keys == k.Keys;
    assert LinkOk(h, chains, q);
    assert c[q] == ExtendOne(chains[q], last, ct);
    if q == last {
      assert c[tail] == ct;
    } else if h[q].next.Some? {
      var n := h[q].next.value;
      ExtendCons(q, chains[n], last, ct);
      hide ExtendOne;
      assert c[n] == ExtendOne(chains[n], last, ct);
    }
  }

  lemma LinkLinks(h: Heap, chains: Chains, last: Ptr, tail: Ptr)
    requires Linked(h, chains) && last in h && tail in h && h[last].next.None? && last !in chains[tail]
    ensures Linked(Link(h, last, tail), Extended(chains, last, chains[tail]))
  {
    hide Extended, LinkOk;
    LinkOne(h, chains, last, tail, last);
    forall q | q in Link(h, last, tail)
      ensures LinkOk(Link(h, last, tail), Extended(chains, last, chains[tail]), q)
    {
      LinkOne(h, chains, last, tail, q);
    }
  }

  lemma LinkBefore(h: Heap, last: Ptr, tail: Ptr, q: Ptr)
    requires last in h && h[last].next.None?
    ensures Before(Link(h, last, tail), q) == if q == tail then Before(h, q) + {last} else Before(h, q)
    ensures last !in Before(h, q)
  {
  }

  lemma LinkKeeps(h: Heap, handles: multiset<Ptr>, chains: Chains, last: Ptr, tail: Ptr)
    requires Owned(h, handles, chains) && last in h && tail in h && h[last].next.None? && last !in chains[tail]
    ensures Owned(Bump(Link(h, last, tail), tail, 1), handles, Extended(chains, last, chains[tail]))
  {
    hide Extended, LinkOk;
    var c := Extended(chains, last, chains[tail]);
    LinkLinks(h, chains, last, tail);
    var l := Link(h, last, tail);
    BumpKeepsLinks(l, c, tail, 1);
    var k := Bump(l, tail, 1);
    forall q | q in k
      ensures CountOk(k, handles, q)
    {
      assert CountOk(h, handles, q);
      LinkCount(h, handles, last, tail, q);
    }
    hide CountOk, Linked;
  }

  /** The new link is the one count more. */
  lemma LinkCount(h: Heap, handles: multiset<Ptr>, last: Ptr, tail: Ptr, q: Ptr)
    requires last in h && tail in h && h[last].next.None? && q in h && CountOk(h, handles, q)
    ensures q in Bump(Link(h, last, tail), tail, 1) && CountOk(Bump(Link(h, last, tail), tail, 1), handles, q)
  {
    LinkBefore(h, last, tail, q);
    var l := Link(h, last, tail);
    assert Before(Bump(l, tail, 1), q) == Before(l, q);
  }

  /** Following links that the new one leaves alone, chains get shorter node by node. */
  lemma {:induction false} ChainShrinks(h: Heap, chains: Chains, last: Ptr, tail: Ptr, c: Chains, i: nat)
    requires Linked(h, chains) && last in h && tail in h && h[last].next.None? && Linked(Link(h, last, tail), c)
    requires i < |chains[tail]|
    ensures chains[tail][i] in h && |c[tail]| == |c[chains[tail][i]]| + i
  {
    if i == 0 {
      assert LinkOk(h, chains, tail);
    } else {
      ChainShrinks(h, chains, last, tail, c, i - 1);
      var q := chains[tail][i - 1];
      ChainTail(h, chains, tail, i - 1);
      assert LinkOk(h, chains, q);
      assert chains[tail][i] == chains[tail][i - 1..][1];
      assert q != last;
      var n := h[q].next.value;
      assert LinkOk(h, chains, n);
      assert LinkOk(Link(h, last, tail), c, q);
    }
  }

  /** Linking a tail that already leads to the end of the stack makes a cycle, and only that does. */
  lemma LinkAcyclicIff(h: Heap, handles: multiset<Ptr>, chains: Chains, last: Ptr, tail: Ptr)
    requires Owned(h, handles, chains) && last in h && tail in h && h[last].next.None?
    ensures (exists c: Chains :: Linked(Link(h, last, tail), c)) <==> last !in chains[tail]
  {
    hide Counted;
    if last !in chains[tail] {
      LinkLinks(h, chains, last, tail);
    } else {
      var i :| 0 <= i < |chains[tail]| && chains[tail][i] == last;
      forall c: Chains | Linked(Link(h, last, tail), c)
        ensures false
      {
        ChainShrinks(h, chains, last, tail, c, i);
      }
    }
  }

  lemma AllocKeeps(h: Heap, handles: multiset<Ptr>, chains: Chains, p: Ptr, a: Auth)
    requires Owned(h, handles, chains) && p !in h
    ensures Owned(h[p := Node(1, a, None)], handles + multiset{p}, chains[p := [p]])
  {
    var k, more, c := h[p := Node(1, a, None)], handles + multiset{p}, chains[p := [p]];
    forall q | q in k
      ensures CountOk(k, more, q) && LinkOk(k, c, q)
    {
      if q == p {
        assert p !in handles;
        assert Before(k, p) == {} by {
          forall r | r in h
            ensures h[r].next != Some(p)
          {
            assert LinkOk(h, chains, r);
          }
        }
      } else {
        assert CountOk(h, handles, q) && LinkOk(h, chains, q);
        assert Before(k, q) == Before(h, q);
      }
    }
  }

  // ---------------------------------------------------------------- the operations

  /** `k` has lost some nodes of `h` and is otherwise the same but for the counts. */
  ghost predicate Within(k: Heap, h: Heap) {
    forall p :: p in k ==> p in h && k[p].auth == h[p].auth && k[p].next == h[p].next
  }

  ghost predicate ChainsKept(c: Chains, chains: Chains) {
    forall p :: p in c ==> p in chains && c[p] == chains[p]
  }

  lemma CountsDetermined(k: Heap, h: Heap, handles: multiset<Ptr>)
    requires Counted(k, handles) && Counted(h, handles) && Within(k, h) && k.Keys == h.Keys
    ensures k == h
  {
    forall p | p in h
      ensures k[p] == h[p]
    {
      assert CountOk(k, handles, p) && CountOk(h, handles, p);
      assert Before(k, p) == Before(h, p);
    }
  }

  lemma WithinTrans(j: Heap, k: Heap, h: Heap, b: Chains, c: Chains, chains: Chains)
    requires Within(j, k) && Within(k, h) && ChainsKept(b, c) && ChainsKept(c, chains)
    ensures Within(j, h) && ChainsKept(b, chains)
  {
  }

  lemma WithinBump(h: Heap, chains: Chains, p: Ptr, d: int)
    requires p in h && h[p].refcount + d >= 0
    ensures Within(Bump(h, p, d), h) && Bump(h, p, d).Keys == h.Keys
    ensures Within(Bump(h, p, d) - {p}, h) && ChainsKept(chains - {p}, chains) && ChainsKept(chains, chains)
  {
  }

  lemma WithinSelf(h: Heap, chains: Chains)
    ensures Within(h, h) && ChainsKept(chains, chains)
  {
  }

  lemma BumpFacts(h: Heap, p: Ptr, d: int)
    requires p in h && h[p].refcount + d >= 0
    ensures Bump(h, p, d).Keys == h.Keys && Bump(h, p, d)[p] == h[p].(refcount := h[p].refcount + d)
    ensures forall q :: q in h && q != p ==> Bump(h, p, d)[q] == h[q]
  {
  }

  /** What can be read off one live node. */
  lemma NodeFacts(h: Heap, handles: multiset<Ptr>, chains: Chains, p: Ptr)
    requires Owned(h, handles, chains) && (p in handles || p in h)
    ensures p in h && p in chains && h[p].refcount > 0
    ensures h[p].next.Some? ==> h[p].next.value in h && h[p].next.value in chains
    ensures chains[p] == [p] + (if h[p].next.Some? then chains[h[p].next.value] else [])
  {
    assert CountOk(h, handles, p) && LinkOk(h, chains, p);
  }

  /** The heap of a walk that holds `cur` in addition to the handles it started with. */
  ghost predicate Walking(k: Heap, handles: multiset<Ptr>, chains: Chains, h: Heap, start: multiset<Ptr>,
                          cur: Option<Ptr>) {
    && Owned(h, start, chains) && Owned(k, handles, chains)
    && handles == start + Held(cur) && Within(k, h) && k.Keys == h.Keys
  }

  /** A walk can let go of where it stands without freeing anything. */
  lemma WalkHoldsTwo(k: Heap, handles: multiset<Ptr>, chains: Chains, h: Heap, start: multiset<Ptr>, p: Ptr)
    requires Walking(k, handles, chains, h, start, Some(p))
    ensures p in handles && p in k && p in h && k[p].refcount > 1 && k[p].next == h[p].next && k[p].auth == h[p].auth
  {
    assert p in handles;
    assert CountOk(h, start, p) && CountOk(k, handles, p);
    assert Before(k, p) == Before(h, p);
  }

  lemma WalkOwned(k: Heap, handles: multiset<Ptr>, chains: Chains, h: Heap, start: multiset<Ptr>, cur: Option<Ptr>)
    requires Walking(k, handles, chains, h, start, cur)
    ensures Owned(h, start, chains) && Owned(k, handles, chains)
  {
  }

  /** The last node of a stack. */
  ghost function EndOf(chains: Chains, p: Ptr): Ptr
    requires p in chains
  {
    if chains[p] == [] then p else chains[p][|chains[p]| - 1]
  }

  lemma WalkMoves(j: Heap, k: Heap, handles: multiset<Ptr>, more: multiset<Ptr>, chains: Chains, h: Heap,
                  start: multiset<Ptr>, cur: Option<Ptr>, next: Option<Ptr>)
    requires Walking(k, handles, chains, h, start, cur)
    requires Owned(j, more, chains) && more == handles - Held(cur) + Held(next) && Within(j, k) && j.Keys == k.Keys
    ensures Walking(j, more, chains, h, start, next)
  {
    hide Owned, Within, ChainsKept;
    WithinTrans(j, k, h, chains, chains, chains);
    assert start + Held(cur) - Held(cur) == start;
  }

  /** A walk that holds nothing more than it started with has changed nothing. */
  lemma WalkEnds(k: Heap, handles: multiset<Ptr>, chains: Chains, h: Heap, start: multiset<Ptr>)
    requires Walking(k, handles, chains, h, start, None)
    ensures k == h && handles == start
  {
    CountsDetermined(k, h, start);
  }

  lemma WalkStarts(h: Heap, start: multiset<Ptr>, chains: Chains, p: Ptr)
    requires Owned(h, start, chains) && p in h
    ensures Walking(Bump(h, p, 1), start + multiset{p}, chains, h, start, Some(p))
  {
    AddRefKeeps(h, start, chains, p);
    WithinBump(h, chains, p, 1);
  }

  ghost function Auths(h: Heap, chain: seq<Ptr>): seq<Auth>
    decreases |chain|
  {
    if chain == [] || chain[0] !in h then [] else [h[chain[0]].auth] + Auths(h, chain[1..])
  }

  /** The authenticators of a stack, first to last. */
  ghost function ListedIn(h: Heap, chains: Chains, p: Option<Ptr>): seq<Auth> {
    if p.Some? && p.value in chains then Auths(h, chains[p.value]) else []
  }

  lemma EndListed(h: Heap, chains: Chains, cur: Option<Ptr>)
    ensures cur.None? ==> ListedIn(h, chains, cur) == []
  {
  }

  lemma ListedStep(h: Heap, handles: multiset<Ptr>, chains: Chains, p: Ptr)
    requires Owned(h, handles, chains) && p in h
    ensures ListedIn(h, chains, Some(p)) == [h[p].auth] + ListedIn(h, chains, h[p].next)
  {
    hide Owned;
    NodeFacts(h, handles, chains, p);
    var rest := if h[p].next.Some? then chains[h[p].next.value] else [];
    assert chains[p][0] == p && chains[p][1..] == rest;
    assert Auths(h, chains[p]) == [h[p].auth] + Auths(h, rest);
  }

  function FirstWithId(s: seq<Auth>, id: nat): Option<Auth> {
    if s == [] then None else if s[0].id == id then Some(s[0]) else FirstWithId(s[1..], id)
  }

  /** The first authenticator that does not pass a client on. */
  function FirstSpeaking(s: seq<Auth>, passes: Auth -> bool): Option<Auth> {
    if s == [] then None else if passes(s[0]) then FirstSpeaking(s[1..], passes) else Some(s[0])
  }

  predicate OffersAcl(a: Auth, requestType: nat) {
    a.anonymous && a.acl.Some? && requestType !in a.noMatchMethods
  }

  /** The ACL of the first anonymous authenticator that does not filter the method out and has one. */
  function FirstAnonymous(s: seq<Auth>, requestType: nat): Option<Acl> {
    if s == [] then None
    else if OffersAcl(s[0], requestType) then s[0].acl else FirstAnonymous(s[1..], requestType)
  }

  /** What the searches find, by position. */
  lemma {:induction false} FirstWithIdIs(s: seq<Auth>, id: nat) returns (k: nat)
    ensures k <= |s| && forall j :: 0 <= j < k ==> s[j].id != id
    ensures FirstWithId(s, id) == if k < |s| then Some(s[k]) else None
    ensures k < |s| ==> s[k].id == id
  {
    if s == [] || s[0].id == id {
      k := 0;
    } else {
      k := FirstWithIdIs(s[1..], id);
      k := k + 1;
      assert forall j :: 0 < j < |s| ==> s[j] == s[1..][j - 1];
    }
  }

  lemma {:induction false} FirstAnonymousIs(s: seq<Auth>, requestType: nat) returns (k: nat)
    ensures k <= |s|
    ensures forall j :: 0 <= j < k ==> !s[j].anonymous || s[j].acl.None? || requestType in s[j].noMatchMethods
    ensures FirstAnonymous(s, requestType) == if k < |s| then s[k].acl else None
    ensures k < |s| ==> s[k].anonymous && s[k].acl.Some? && requestType !in s[k].noMatchMethods
  {
    if s == [] || OffersAcl(s[0], requestType) {
      k := 0;
    } else {
      k := FirstAnonymousIs(s[1..], requestType);
      k := k + 1;
      assert forall j :: 0 < j < |s| ==> s[j] == s[1..][j - 1];
    }
  }

  lemma {:induction false} AuthsAppend(h: Heap, a: seq<Ptr>, b: seq<Ptr>)
    requires forall p :: p in a + b ==> p in h
    ensures Auths(h, a + b) == Auths(h, a) + Auths(h, b)
    decreases |a|
  {
    if a == [] {
      assert a + b == b;
    } else {
      assert (a + b)[1..] == a[1..] + b;
      assert forall p :: p in a[1..] + b ==> p in a + b;
      AuthsAppend(h, a[1..], b);
    }
  }

  lemma {:induction false} AuthsSame(k: Heap, h: Heap, chain: seq<Ptr>)
    requires forall p :: p in chain ==> p in h && p in k && k[p].auth == h[p].auth
    ensures Auths(k, chain) == Auths(h, chain)
    decreases |chain|
  {
    if chain != [] {
      assert forall p :: p in chain[1..] ==> p in chain;
      AuthsSame(k, h, chain[1..]);
    }
  }

  lemma WalkHandle(k: Heap, handles: multiset<Ptr>, chains: Chains, h: Heap, start: multiset<Ptr>, p: Ptr)
    requires Walking(k, handles, chains, h, start, Some(p))
    ensures p in handles && handles - multiset{p} == start
  {
    assert start + multiset{p} - multiset{p} == start;
  }

  /** All a walk changes is the count of the node where it stands. */
  lemma WalkIsBump(k: Heap, handles: multiset<Ptr>, chains: Chains, h: Heap, start: multiset<Ptr>, p: Ptr)
    requires Walking(k, handles, chains, h, start, Some(p))
    ensures p in h && k == Bump(h, p, 1)
  {
    WalkHoldsTwo(k, handles, chains, h, start, p);
    AddRefKeeps(h, start, chains, p);
    CountsDetermined(k, Bump(h, p, 1), handles);
  }

  lemma BumpLinkBump(h: Heap, last: Ptr, tail: Ptr)
    requires last in h && tail in h && last != tail
    ensures var j := Bump(Link(Bump(h, last, 1), last, tail), tail, 1);
            last in j && j[last].refcount == h[last].refcount + 1
              && Bump(j, last, -1) == Bump(Link(h, last, tail), tail, 1)
  {
  }

  /** Linking while the walk holds the end, and letting go, is linking. */
  lemma AppendSteps(k: Heap, handles: multiset<Ptr>, chains: Chains, h: Heap, start: multiset<Ptr>, last: Ptr,
                    tail: Ptr)
    requires Walking(k, handles, chains, h, start, Some(last))
    requires last in h && tail in h && h[last].next.None? && tail in chains && last !in chains[tail]
    ensures last in k && tail in k && last in handles && handles - multiset{last} == start
    ensures var j := Bump(Link(k, last, tail), tail, 1);
            && Owned(j, handles, Extended(chains, last, chains[tail]))
            && last in j && j[last].refcount > 1
            && Bump(j, last, -1) == Bump(Link(h, last, tail), tail, 1)
  {
    hide Owned, Walking, Extended;
    WalkOwned(k, handles, chains, h, start, Some(last));
    WalkIsBump(k, handles, chains, h, start, last);
    WalkHandle(k, handles, chains, h, start, last);
    NodeFacts(h, start, chains, tail);
    NodeFacts(h, start, chains, last);
    BumpLinkBump(h, last, tail);
    LinkKeeps(k, handles, chains, last, tail);
  }

  /** The end of an old list is not behind a node just allocated. */
  lemma PushedEnd(h: Heap, handles: multiset<Ptr>, chains: Chains, p: Ptr, addr: Ptr)
    requires Owned(h, handles, chains) && p in h && addr !in h
    ensures p in chains && EndOf(chains, p) in h && EndOf(chains, p) != addr && EndOf(chains, p) in chains[p]
  {
    NodeFacts(h, handles, chains, p);
    ChainInside(h, chains, p);
  }

  lemma AppendFacts(k: Heap, chains: Chains, last: Ptr, addr: Ptr)
    requires last in k && addr in k && last != addr
    ensures var j := Bump(Link(k, last, addr), addr, 1);
            && j.Keys == k.Keys && j[addr].refcount == k[addr].refcount + 1
            && (forall q :: q in k ==> j[q].auth == k[q].auth)
            && Bump(j, addr, -1).Keys == k.Keys && (forall q :: q in k ==> Bump(j, addr, -1)[q].auth == k[q].auth)
    ensures forall p :: p in chains && addr in chains && last in chains[p] ==>
              p in Extended(chains, last, chains[addr])
                && Extended(chains, last, chains[addr])[p] == chains[p] + chains[addr]
  {
  }

  lemma PushedList(h: Heap, handles: multiset<Ptr>, chains: Chains, k: Heap, p: Ptr, addr: Ptr, auth: Auth)
    requires Owned(h, handles, chains) && p in h && p in chains && addr in k && k[addr].auth == auth
    requires forall q :: q in h ==> q in k && k[q].auth == h[q].auth
    ensures Auths(k, chains[p] + [addr]) == Auths(h, chains[p]) + [auth]
  {
    ChainInside(h, chains, p);
    hide Owned, Linked, Counted;
    var c := chains[p];
    assert forall q :: q in c + [addr] ==> q in k;
    AuthsAppend(k, c, [addr]);
    AuthsSame(k, h, c);
    assert Auths(k, [addr]) == [auth];
  }

  /** Holding a stack once more and letting it go again changes nothing, and what it lists stays the same. */
  lemma HeldOnce(h: Heap, handles: multiset<Ptr>, chains: Chains, p: Ptr)
    requires Owned(h, handles, chains) && p in h
    ensures var k := Bump(h, p, 1);
            && p in k && k[p].refcount > 1 && Bump(k, p, -1) == h
            && handles + multiset{p} - multiset{p} == handles
            && ListedIn(k, chains, Some(p)) == ListedIn(h, chains, Some(p))
  {
    NodeFacts(h, handles, chains, p);
    ChainInside(h, chains, p);
    hide Owned, Linked, Counted;
    BumpBack(h, p);
    AuthsSame(Bump(h, p, 1), h, chains[p]);
  }

  lemma BumpBack(h: Heap, p: Ptr)
    requires p in h
    ensures var k := Bump(h, p, 1);
            p in k && Bump(k, p, -1) == h && forall q :: q in h ==> q in k && k[q].auth == h[q].auth
  {
  }

  /** The stack at `q` ends where `stack` ends. */
  ghost predicate SharesEnd(chains: Chains, stack: Option<Ptr>, q: Ptr) {
    stack.Some? && stack.value in chains && q in chains && EndOf(chains, stack.value) in chains[q]
  }

  lemma AllocLists(h: Heap, handles: multiset<Ptr>, chains: Chains, k: Heap, addr: Ptr, auth: Auth)
    requires Owned(h, handles, chains) && addr !in h && k == h[addr := Node(1, auth, None)]
    ensures ListedIn(k, chains[addr := [addr]], Some(addr)) == [auth]
    ensures forall q :: q in h ==> ListedIn(k, chains[addr := [addr]], Some(q)) == ListedIn(h, chains, Some(q)) + []
  {
    assert Auths(k, [addr]) == [auth];
    forall q | q in h
      ensures ListedIn(k, chains[addr := [addr]], Some(q)) == ListedIn(h, chains, Some(q)) + []
    {
      NodeFacts(h, handles, chains, q);
      ChainInside(h, chains, q);
      AuthsSame(k, h, chains[q]);
    }
  }

  lemma PushedLists(h: Heap, handles: multiset<Ptr>, chains: Chains, k: Heap, stack: Ptr, addr: Ptr, auth: Auth)
    requires Owned(h, handles, chains) && stack in h && stack in chains && EndOf(chains, stack) in chains[stack]
    requires addr !in h && addr in k && k[addr].auth == auth && forall q :: q in h ==> q in k && k[q].auth == h[q].auth
    ensures var c := Extended(chains[addr := [addr]], EndOf(chains, stack), [addr]);
            forall q :: q in h ==>
              ListedIn(k, c, Some(q)) == ListedIn(h, chains, Some(q))
                + (if SharesEnd(chains, Some(stack), q) then [auth] else [])
  {
    var last := EndOf(chains, stack);
    var c := Extended(chains[addr := [addr]], last, [addr]);
    forall q | q in h
      ensures ListedIn(k, c, Some(q)) ==
              ListedIn(h, chains, Some(q)) + (if SharesEnd(chains, Some(stack), q) then [auth] else [])
    {
      NodeFacts(h, handles, chains, q);
      ExtendedAt(chains, last, addr, q);
      hide Extended, Owned;
      if last in chains[q] {
        PushedList(h, handles, chains, k, q, addr, auth);
      } else {
        KeptList(h, handles, chains, k, q);
      }
    }
  }

  lemma ExtendedAt(chains: Chains, last: Ptr, addr: Ptr, q: Ptr)
    requires q in chains && q != addr
    ensures var c := Extended(chains[addr := [addr]], last, [addr]);
            q in c && c[q] == if last in chains[q] then chains[q] + [addr] else chains[q]
  {
  }

  lemma KeptList(h: Heap, handles: multiset<Ptr>, chains: Chains, k: Heap, q: Ptr)
    requires Owned(h, handles, chains) && q in h && q in chains
    requires forall x :: x in h ==> x in k && k[x].auth == h[x].auth
    ensures Auths(k, chains[q]) == Auths(h, chains[q]) + []
  {
    ChainInside(h, chains, q);
    hide Owned, Linked, Counted;
    AuthsSame(k, h, chains[q]);
  }

  class Stacks {
    var nodes: Heap
    ghost var handles: multiset<Ptr>
    ghost var chains: Chains

    ghost predicate Valid()
      reads this
    {
      Owned(nodes, handles, chains)
    }

    ghost function Listed(p: Option<Ptr>): seq<Auth>
      reads this
    {
      ListedIn(nodes, chains, p)
    }

    constructor ()
      ensures Valid() && nodes == map[] && handles == multiset{}
    {
      nodes, handles, chains := map[], multiset{}, map[];
    }

    method AddRef(p: Option<Ptr>)
      requires Valid() && (p.Some? ==> p.value in nodes)
      modifies this`nodes, this`handles
      ensures Valid() && handles == old(handles) + Held(p)
      ensures nodes == if p.Some? then Bump(old(nodes), p.value, 1) else old(nodes)
    {
      if p.Some? {
        AddRefKeeps(nodes, handles, chains, p.value);
        nodes := Bump(nodes, p.value, 1);
        handles := handles + multiset{p.value};
      }
    }

    /** Gives a handle back. A node without handles and predecessors is freed, and with it its hold on
        the next node; what remains is unchanged. */
    method Release(p: Option<Ptr>)
      requires Valid() && (p.Some? ==> p.value in handles)
      modifies this
      ensures Valid() && handles == old(handles) - Held(p)
      ensures Within(nodes, old(nodes)) && ChainsKept(chains, old(chains))
      ensures p.Some? && old(nodes)[p.value].refcount > 1 ==>
                nodes == Bump(old(nodes), p.value, -1) && chains == old(chains)
      decreases if p.Some? && p.value in chains then |chains[p.value]| else 0
    {
      hide Owned, Within, ChainsKept, Bump;
      WithinSelf(nodes, chains);
      if p.None? {
        return;
      }
      var q := p.value;
      NodeFacts(nodes, handles, chains, q);
      DropKeeps(nodes, handles, chains, q);
      WithinBump(nodes, chains, q, -1);
      ghost var h := nodes;
      nodes := Bump(nodes, q, -1);
      BumpFacts(h, q, -1);
      handles := handles - multiset{q};
      if nodes[q].refcount != 0 {
        return;
      }
      var next := nodes[q].next;
      FreeKeeps(nodes, handles, chains, q);
      ghost var left, c := handles, chains;
      nodes, handles, chains := nodes - {q}, handles + Held(next), chains - {q};
      ghost var k, c' := nodes, chains;
      if next.Some? {
        NodeFacts(nodes, handles, chains, next.value);
      }
      Release(next);
      WithinTrans(nodes, k, h, chains, c', c);
      assert left + Held(next) - Held(next) == left;
    }

    /** Moves a handle to the next node. -1: no stack, 1: the end, 0: there is a next node. */
    method Next(p: Option<Ptr>) returns (r: int, next: Option<Ptr>)
      requires Valid() && (p.Some? ==> p.value in handles)
      modifies this
      ensures Valid() && next == (if p.Some? then old(nodes)[p.value].next else None)
      ensures handles == old(handles) - Held(p) + Held(next)
      ensures r == if p.None? then -1 else if next.None? then 1 else 0
      ensures Within(nodes, old(nodes)) && ChainsKept(chains, old(chains))
      ensures p.Some? && old(nodes)[p.value].refcount > 1 ==> nodes.Keys == old(nodes).Keys && chains == old(chains)
    {
      hide Owned, Within, ChainsKept, Bump;
      WithinSelf(nodes, chains);
      if p.None? {
        return -1, None;
      }
      NodeFacts(nodes, handles, chains, p.value);
      next := nodes[p.value].next;
      ghost var h, c := nodes, chains;
      if next.Some? {
        NodeFacts(nodes, handles, chains, next.value);
        WithinBump(nodes, chains, next.value, 1);
        BumpFacts(nodes, next.value, 1);
      }
      AddRef(next);
      ghost var k := nodes;
      NodeFacts(nodes, handles, chains, p.value);
      WithinBump(nodes, chains, p.value, -1);
      Release(p);
      WithinTrans(nodes, k, h, chains, c, c);
      r := if next.None? then 1 else 0;
    }

    /** Moves a walk on, with everything it shows along the way. */
    method Advance(cur: Option<Ptr>, ghost h: Heap, ghost start: multiset<Ptr>) returns (next: Option<Ptr>)
      requires Walking(nodes, handles, chains, h, start, cur) && cur.Some?
      modifies this
      ensures chains == old(chains) && Walking(nodes, handles, chains, h, start, next)
              && next == old(nodes)[cur.value].next
    {
      WalkHoldsTwo(nodes, handles, chains, h, start, cur.value);
      ghost var k, hs := nodes, handles;
      var r;
      r, next := Next(cur);
      WalkMoves(nodes, k, hs, handles, chains, h, start, cur, next);
    }

    /** Lets go of the place where a walk stands. */
    method Leave(cur: Option<Ptr>, ghost h: Heap, ghost start: multiset<Ptr>)
      requires Walking(nodes, handles, chains, h, start, cur)
      modifies this
      ensures chains == old(chains) && nodes == h && handles == start
    {
      ghost var k, hs := nodes, handles;
      if cur.Some? {
        WalkHoldsTwo(nodes, handles, chains, h, start, cur.value);
        WithinBump(nodes, chains, cur.value, -1);
        Release(cur);
        assert hs - Held(cur) + Held(None) == handles;
        WalkMoves(nodes, k, hs, handles, chains, h, start, cur, None);
      }
      WalkEnds(nodes, handles, chains, h, start);
    }

    /** Begins a walk at the front of a stack. */
    method Enter(stack: Ptr)
      requires Valid() && stack in nodes
      modifies this`nodes, this`handles
      ensures Walking(nodes, handles, chains, old(nodes), old(handles), Some(stack))
    {
      WalkStarts(nodes, handles, chains, stack);
      hide Owned, Within, Bump;
      AddRef(Some(stack));
    }

    /** The authenticator where a walk stands, and what is still to come. */
    method Here(p: Ptr, ghost h: Heap, ghost start: multiset<Ptr>) returns (auth: Auth)
      requires Walking(nodes, handles, chains, h, start, Some(p))
      ensures p in h && p in nodes && nodes[p].next == h[p].next
      ensures ListedIn(h, chains, Some(p)) == [auth] + ListedIn(h, chains, h[p].next)
    {
      WalkHoldsTwo(nodes, handles, chains, h, start, p);
      WalkOwned(nodes, handles, chains, h, start, Some(p));
      ListedStep(h, start, chains, p);
      auth := nodes[p].auth;
    }

    /** The first authenticator of the stack with this id. The search leaves every count as it was. */
    method GetById(stack: Option<Ptr>, id: nat) returns (ret: Option<Auth>)
      requires Valid() && (stack.Some? ==> stack.value in nodes)
      modifies this
      ensures nodes == old(nodes) && handles == old(handles) && chains == old(chains)
      ensures ret == FirstWithId(old(Listed(stack)), id)
    {
      ret := None;
      if stack.None? {
        return;
      }
      hide Walking, Owned, ListedIn;
      ghost var h, start, all := nodes, handles, Listed(stack);
      Enter(stack.value);
      var cur := stack;
      ghost var rest := all;
      while ret.None? && cur.Some?
        invariant chains == old(chains) && Walking(nodes, handles, chains, h, start, cur)
        invariant rest == ListedIn(h, chains, cur)
        invariant FirstWithId(all, id) == if ret.Some? then ret else FirstWithId(rest, id)
        decreases |rest|, ret.None?
      {
        var auth := Here(cur.value, h, start);
        if auth.id == id {
          ret := Some(auth);
        } else {
          cur := Advance(cur, h, start);
          rest := rest[1..];
        }
      }
      EndListed(h, chains, cur);
      Leave(cur, h, start);
    }

    /** Leads a client through a stack until an authenticator speaks. The caller holds the stack meanwhile
        and the client holds the node it is at; when the result is in, every count is as it was. */
    method Ask(stack: Option<Ptr>, passes: Auth -> bool) returns (speaker: Option<Auth>)
      requires Valid() && (stack.Some? ==> stack.value in nodes)
      modifies this
      ensures nodes == old(nodes) && handles == old(handles) && chains == old(chains)
      ensures speaker == FirstSpeaking(old(Listed(stack)), passes)
    {
      if stack.None? {
        return None;
      }
      hide Owned, Bump, ListedIn, Within, ChainsKept;
      HeldOnce(nodes, handles, chains, stack.value);
      AddRef(stack);
      speaker := Lead(stack.value, passes);
      Release(stack);
    }

    method Lead(stack: Ptr, passes: Auth -> bool) returns (speaker: Option<Auth>)
      requires Valid() && stack in nodes
      modifies this
      ensures nodes == old(nodes) && handles == old(handles) && chains == old(chains)
      ensures speaker == FirstSpeaking(old(Listed(Some(stack))), passes)
    {
      hide Walking, Owned, ListedIn;
      speaker := None;
      ghost var h, start, all := nodes, handles, Listed(Some(stack));
      Enter(stack);
      var cur := Some(stack);
      ghost var rest := all;
      while speaker.None? && cur.Some?
        invariant chains == old(chains) && Walking(nodes, handles, chains, h, start, cur)
        invariant rest == ListedIn(h, chains, cur)
        invariant FirstSpeaking(all, passes) == if speaker.Some? then speaker else FirstSpeaking(rest, passes)
        decreases |rest|, speaker.None?
      {
        var auth := Here(cur.value, h, start);
        if passes(auth) {
          cur := Advance(cur, h, start);
          rest := rest[1..];
        } else {
          speaker := Some(auth);
        }
      }
      EndListed(h, chains, cur);
      Leave(cur, h, start);
    }

    /** The ACL an anonymous client would get. The search leaves every count as it was. */
    method GetAnonymousAcl(stack: Option<Ptr>, requestType: nat) returns (ret: Option<Acl>)
      requires Valid() && (stack.Some? ==> stack.value in nodes)
      modifies this
      ensures nodes == old(nodes) && handles == old(handles) && chains == old(chains)
      ensures ret == FirstAnonymous(old(Listed(stack)), requestType)
    {
      ret := None;
      if stack.None? {
        return;
      }
      hide Walking, Owned, ListedIn;
      ghost var h, start, all := nodes, handles, Listed(stack);
      Enter(stack.value);
      var cur := stack;
      ghost var rest := all;
      while ret.None? && cur.Some?
        invariant chains == old(chains) && Walking(nodes, handles, chains, h, start, cur)
        invariant rest == ListedIn(h, chains, cur)
        invariant FirstAnonymous(all, requestType) == if ret.Some? then ret else FirstAnonymous(rest, requestType)
        decreases |rest|, ret.None?
      {
        var auth := Here(cur.value, h, start);
        if auth.anonymous && requestType !in auth.noMatchMethods {
          ret := auth.acl;
        }
        if ret.None? {
          cur := Advance(cur, h, start);
          rest := rest[1..];
        }
      }
      EndListed(h, chains, cur);
      Leave(cur, h, start);
    }

    /** Walks to the last node of a stack and holds it. */
    method FindEnd(stack: Ptr) returns (last: Ptr)
      requires Valid() && stack in nodes
      modifies this
      ensures chains == old(chains) && Walking(nodes, handles, chains, old(nodes), old(handles), Some(last))
      ensures stack in chains && last == EndOf(chains, stack) && last in old(nodes) && old(nodes)[last].next.None?
    {
      hide Owned, Walking;
      ghost var h, start := nodes, handles;
      WalkStarts(nodes, handles, chains, stack);
      NodeFacts(h, start, chains, stack);
      AddRef(Some(stack));
      last := stack;
      WalkHoldsTwo(nodes, handles, chains, h, start, last);
      while nodes[last].next.Some?
        invariant chains == old(chains) && Walking(nodes, handles, chains, h, start, Some(last))
        invariant last in nodes && last in h && nodes[last].next == h[last].next && stack in chains && last in chains
        invariant EndOf(chains, last) == EndOf(chains, stack)
        decreases |chains[last]|
      {
        WalkOwned(nodes, handles, chains, h, start, Some(last));
        NodeFacts(h, start, chains, last);
        NodeFacts(h, start, chains, h[last].next.value);
        var next := Advance(Some(last), h, start);
        last := next.value;
        WalkHoldsTwo(nodes, handles, chains, h, start, last);
      }
      WalkOwned(nodes, handles, chains, h, start, Some(last));
      NodeFacts(h, start, chains, last);
    }

    /** Appends one stack to another. Every stack that ends where the first one ends is extended. */
    method Append(stack: Option<Ptr>, tail: Option<Ptr>) returns (r: int)
      requires Valid() && (stack.Some? ==> stack.value in nodes) && (tail.Some? ==> tail.value in nodes)
      requires stack.Some? && tail.Some? ==> EndOf(chains, stack.value) !in chains[tail.value]
      modifies this
      ensures Valid() && handles == old(handles) && r == if stack.None? then -1 else 0
      ensures stack.None? || tail.None? ==> nodes == old(nodes) && chains == old(chains)
      ensures stack.Some? && tail.Some? ==>
                var last := EndOf(old(chains), stack.value);
                && last in old(nodes)
                && nodes == Bump(Link(old(nodes), last, tail.value), tail.value, 1)
                && chains == Extended(old(chains), last, old(chains)[tail.value])
    {
      hide Owned, Walking, Extended, Within, ChainsKept, Bump, Link;
      if stack.None? {
        return -1;
      }
      ghost var h, start := nodes, handles;
      var last := FindEnd(stack.value);
      if tail.None? {
        Leave(Some(last), h, start);
        return 0;
      }
      NodeFacts(h, start, chains, tail.value);
      AppendSteps(nodes, handles, chains, h, start, last, tail.value);
      chains := Extended(chains, last, chains[tail.value]);
      nodes := Bump(Link(nodes, last, tail.value), tail.value, 1);
      Release(Some(last));
      return 0;
    }

    /** A node of its own at the fresh address `addr`, held by the caller. */
    method Alloc(auth: Auth, addr: Ptr)
      requires Valid() && addr !in nodes
      modifies this
      ensures Valid() && nodes == old(nodes)[addr := Node(1, auth, None)]
      ensures handles == old(handles) + multiset{addr} && chains == old(chains)[addr := [addr]]
    {
      AllocKeeps(nodes, handles, chains, addr, auth);
      hide Owned;
      nodes := nodes[addr := Node(1, auth, None)];
      handles, chains := handles + multiset{addr}, chains[addr := [addr]];
    }

    /** Links a held single node to the end of a stack and gives the handle on it back. */
    method AppendNode(stack: Ptr, addr: Ptr)
      requires Valid() && stack in nodes && addr in handles && stack in chains && addr in chains && addr in nodes
      requires chains[addr] == [addr] && EndOf(chains, stack) in nodes && EndOf(chains, stack) != addr
      requires EndOf(chains, stack) in chains[stack]
      modifies this
      ensures Valid() && handles == old(handles) - multiset{addr}
      ensures nodes.Keys == old(nodes).Keys && (forall q :: q in nodes ==> nodes[q].auth == old(nodes)[q].auth)
      ensures chains == Extended(old(chains), EndOf(old(chains), stack), [addr])
    {
      hide Owned, Within, ChainsKept, Extended, Bump, Link;
      NodeFacts(nodes, handles, chains, addr);
      ghost var last := EndOf(chains, stack);
      AppendFacts(nodes, chains, last, addr);
      var r := Append(Some(stack), Some(addr));
      Release(Some(addr));
    }

    /** Adds an authenticator at the end of a stack, in a node at the fresh address `addr`. Every stack that
        shares that end gets it too, and no other stack changes. */
    method Push(stack: Option<Ptr>, auth: Auth, addr: Ptr) returns (result: Option<Ptr>)
      requires Valid() && (stack.Some? ==> stack.value in nodes) && addr !in nodes
      modifies this
      ensures Valid() && result == (if stack.Some? then stack else Some(addr))
      ensures handles == if stack.Some? then old(handles) else old(handles) + multiset{addr}
      ensures Listed(result) == old(Listed(stack)) + [auth]
      ensures forall q :: q in old(nodes) ==>
                Listed(Some(q)) == old(Listed(Some(q))) + (if SharesEnd(old(chains), stack, q) then [auth] else [])
    {
      hide Owned, Extended;
      ghost var h, c := nodes, chains;
      if stack.Some? {
        PushedEnd(h, handles, c, stack.value, addr);
      }
      Alloc(auth, addr);
      if stack.None? {
        AllocLists(h, old(handles), c, nodes, addr, auth);
        return Some(addr);
      }
      hide Auths;
      assert chains[stack.value] == c[stack.value];
      AppendNode(stack.value, addr);
      PushedLists(h, old(handles), c, nodes, stack.value, addr, auth);
      result := stack;
    }
  }
}
