/** Singly linked lists of nodes that live at addresses; `Links` holds their next pointers. */
module LinkedLists {
  import opened Bytes

  type Ptr = nat

  type Links = map<Ptr, Option<Ptr>>

  function At(list: seq<Ptr>, i: nat): Option<Ptr> {
    if i < |list| then Some(list[i]) else None
  }

  ghost predicate Distinct(list: seq<Ptr>) {
    forall i, j :: 0 <= i < j < |list| ==> list[i] != list[j]
  }

  ghost predicate Chained(links: Links, list: seq<Ptr>) {
    forall i :: 0 <= i < |list| ==> list[i] in links && links[list[i]] == At(list, i + 1)
  }

  ghost predicate Apart(a: seq<Ptr>, b: seq<Ptr>) {
    forall p :: p in a ==> p !in b
  }

  ghost function Members(list: seq<Ptr>): set<Ptr> {
    set p | p in list
  }

  lemma WithoutOne(kept: seq<Ptr>, p: Ptr, rest: seq<Ptr>)
    requires Distinct(kept + [p] + rest)
    ensures Distinct(kept + rest) && p !in kept + rest
  {
    var list, shorter, k := kept + [p] + rest, kept + rest, |kept|;
    assert list[k] == p;
    forall i, j | 0 <= i < j < |shorter|
      ensures shorter[i] != shorter[j]
    {
      assert shorter[i] == list[if i < k then i else i + 1] && shorter[j] == list[if j < k then j else j + 1];
    }
    forall i | 0 <= i < |shorter|
      ensures shorter[i] != p
    {
      var m := if i < k then i else i + 1;
      assert shorter[i] == list[m] && m != k;
      assert m < k || k < m;
    }
  }

  function Unlinked(links: Links, kept: seq<Ptr>, p: Ptr): Links
    requires p in links
  {
    (if kept == [] then links else links[kept[|kept| - 1] := links[p]])[p := None]
  }

  lemma UnlinkChained(links: Links, kept: seq<Ptr>, p: Ptr, rest: seq<Ptr>)
    requires Chained(links, kept + [p] + rest) && Distinct(kept + rest) && p !in kept + rest
    ensures p in links && Chained(Unlinked(links, kept, p), kept + rest)
    ensures links[p] == At(rest, 0)
  {
    var list, shorter, k := kept + [p] + rest, kept + rest, |kept|;
    assert list[k] == p && links[p] == At(list, k + 1);
    var l := Unlinked(links, kept, p);
    forall i | 0 <= i < |shorter|
      ensures shorter[i] in l && l[shorter[i]] == At(shorter, i + 1)
    {
      var j := if i < k then i else i + 1;
      assert shorter[i] == list[j];
      assert links[list[j]] == At(list, j + 1);
      assert shorter[i] != p;
      if i == k - 1 {
        assert shorter[i] == kept[k - 1];
      } else if k > 0 {
        assert shorter[i] != shorter[k - 1] && shorter[k - 1] == kept[k - 1];
      }
    }
  }
}
