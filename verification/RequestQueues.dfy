/** The request, connection and body queues: singly linked lists that keep the address of their last
    empty slot and are edited while they are walked (connection.c). Nodes live at addresses; `links`
    holds their next pointers. */
module RequestQueues {
  import opened Bytes
  import opened LinkedLists

  /** Where a pointer to a node is stored: in the head of a queue or in the next field of a node. */
  datatype Slot = AtHead | After(p: Ptr)

  datatype Queue = Queue(head: Option<Ptr>, tail: Slot)

  const EMPTY := Queue(None, AtHead)

  /** The slot behind the last node. */
  function EndSlot(list: seq<Ptr>): Slot {
    if list == [] then AtHead else After(list[|list| - 1])
  }

  /** The queue holds exactly this list, and its tail designates the final empty slot. */
  ghost predicate Spells(links: Links, q: Queue, list: seq<Ptr>) {
    Distinct(list) && q.head == At(list, 0) && q.tail == EndSlot(list) && Chained(links, list)
  }

  lemma SpellsFrame(links: Links, after: Links, q: Queue, list: seq<Ptr>)
    requires Spells(links, q, list) && forall p :: p in list ==> p in after && after[p] == links[p]
    ensures Spells(after, q, list)
  {
  }

  // ---------------------------------------------------------------- single steps

  function Store(links: Links, q: Queue, slot: Slot, v: Option<Ptr>): (Links, Queue) {
    match slot
    case AtHead => (links, q.(head := v))
    case After(p) => (links[p := v], q)
  }

  function Load(links: Links, q: Queue, slot: Slot): Option<Ptr>
    requires slot.After? ==> slot.p in links
  {
    match slot
    case AtHead => q.head
    case After(p) => links[p]
  }

  lemma EnqueueSpells(links: Links, q: Queue, list: seq<Ptr>, p: Ptr)
    requires Spells(links, q, list) && p !in list && p in links && links[p].None?
    ensures var (l, r) := Store(links, q, q.tail, Some(p));
            && Spells(l, r.(tail := After(p)), list + [p])
            && l.Keys == links.Keys && forall x :: x in links && x !in list ==> l[x] == links[x]
  {
    var (l, r) := Store(links, q, q.tail, Some(p));
    var longer := list + [p];
    if list != [] {
      assert list[|list| - 1] in links;
    }
    forall i | 0 <= i < |longer|
      ensures longer[i] in l && l[longer[i]] == At(longer, i + 1)
    {
      if i < |list| {
        assert links[list[i]] == At(list, i + 1);
      }
    }
  }

  lemma DequeueSpells(links: Links, q: Queue, list: seq<Ptr>)
    requires Spells(links, q, list) && list != []
    ensures var next := links[list[0]];
            Spells(links[list[0] := None], Queue(next, if next.None? then AtHead else q.tail), list[1..])
  {
    var l, rest := links[list[0] := None], list[1..];
    assert links[list[0]] == At(list, 1);
    forall i | 0 <= i < |rest|
      ensures rest[i] in l && l[rest[i]] == At(rest, i + 1)
    {
      assert links[list[i + 1]] == At(list, i + 2);
      assert rest[i] != list[0];
    }
  }

  /** Taking the node behind `kept` out while walking: the slot before it is made to point past it, and
      the tail is moved back when the node was the last. */
  lemma UnlinkSpells(links: Links, q: Queue, kept: seq<Ptr>, p: Ptr, rest: seq<Ptr>)
    requires Spells(links, q, kept + [p] + rest)
    ensures p in links
    ensures var (l, r) := Store(links, q, EndSlot(kept), links[p]);
            && l[p := None] == Unlinked(links, kept, p)
            && Spells(l[p := None], r.(tail := if q.tail == After(p) then EndSlot(kept) else q.tail), kept + rest)
  {
    var list := kept + [p] + rest;
    WithoutOne(kept, p, rest);
    UnlinkChained(links, kept, p, rest);
    hide Chained, Distinct;
    assert list[|list| - 1] == if rest == [] then p else rest[|rest| - 1];
    assert rest != [] ==> rest[|rest| - 1] in kept + rest;
    if kept == [] {
      assert kept + rest == rest;
    } else {
      assert list[0] == kept[0] == (kept + rest)[0];
    }
  }
}
