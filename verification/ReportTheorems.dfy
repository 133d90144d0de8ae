/** What expansion guarantees: every tree it returns obeys the schema, copying changes nothing, and
    circular templates come to nothing. */
module ReportTheorems {
  import opened Bytes
  import opened ReportXml

  ghost predicate Each(ns: seq<Node>) {
    forall i :: 0 <= i < |ns| ==> Valid(ns[i])
  }

  lemma {:induction false} AllValidAppend(ns: seq<Node>, c: Node, parent: NodeType)
    ensures AllValid(ns + [c], parent) <==> AllValid(ns, parent) && c.t in ChildTypes(parent) && Valid(c)
    decreases |ns|
  {
    hide ChildTypes, Valid;
    if ns == [] {
      assert (ns + [c])[0] == c && (ns + [c])[1..] == [];
    } else {
      assert (ns + [c])[1..] == ns[1..] + [c];
      AllValidAppend(ns[1..], c, parent);
    }
  }

  lemma {:induction false} AllValidEach(ns: seq<Node>, parent: NodeType)
    requires AllValid(ns, parent)
    ensures Each(ns) && forall i :: 0 <= i < |ns| ==> ns[i].t in ChildTypes(parent)
    decreases |ns|
  {
    hide ChildTypes, Valid;
    if ns != [] {
      AllValidEach(ns[1..], parent);
      assert forall i :: 0 < i < |ns| ==> ns[i] == ns[1..][i - 1];
    }
  }

  lemma NewNodeValid(t: NodeType)
    ensures Valid(NewNode(t))
  {
  }

  lemma AddChildValid(n: Node, c: Node)
    requires Valid(n) && Valid(c) && AddChild(n, c).Some?
    ensures Valid(AddChild(n, c).value)
  {
    hide AttrOk, ChildTypes;
    AllValidAppend(n.childs, c, n.t);
  }

  lemma SetAttributeValid(n: Node, key: string, value: string)
    requires Valid(n) && SetAttribute(n, key, value).Some?
    ensures Valid(SetAttribute(n, key, value).value)
  {
    hide AttrOk, ChildTypes;
  }

  lemma {:induction false} MarkAllValid(ns: seq<Node>, key: string, value: string, parent: NodeType)
    requires AllValid(ns, parent) && MarkAll(ns, key, value).Some?
    ensures AllValid(MarkAll(ns, key, value).value, parent) && |MarkAll(ns, key, value).value| == |ns|
    decreases |ns|
  {
    hide ChildTypes, Valid, AttrOk;
    if ns != [] {
      SetAttributeValid(ns[0], key, value);
      MarkAllValid(ns[1..], key, value, parent);
      var rest := MarkAll(ns[1..], key, value).value;
      assert MarkAll(ns, key, value).value[1..] == rest;
    }
  }

  // ---------------------------------------------------------------- copies

  lemma CopyAttributesSame(n: Node)
    requires Valid(n)
    ensures CopyAttributes(n) == Some(n.(childs := [], text := None, xml := []))
  {
    hide AttrOk, ChildTypes;
    assert Defaults(n.t) + n.attrs == n.attrs;
  }

  /** A plain copy of a node that obeys the schema is that node. */
  lemma {:induction false} CopyIsIdentity(n: Node)
    requires Valid(n)
    ensures Copy(n) == Some(n)
    decreases n, 1
  {
    hide AttrOk, ChildTypes;
    CopyAttributesSame(n);
    var bare := n.(childs := [], text := None, xml := []);
    if n.childs == [] {
      assert CopyChilds(bare, []) == Some(bare);
    } else {
      CopyChildsSame(bare, n.childs);
    }
    assert [] + n.childs == n.childs;
  }

  lemma {:induction false} CopyChildsSame(ret: Node, ns: seq<Node>)
    requires ContentOf(ret.t) == Childs && AllValid(ns, ret.t)
    ensures CopyChilds(ret, ns) == Some(ret.(childs := ret.childs + ns))
    decreases ns, 0
  {
    hide AttrOk, ChildTypes, Valid;
    if ns == [] {
      assert ret.childs + [] == ret.childs;
    } else {
      CopyIsIdentity(ns[0]);
      var next := ret.(childs := ret.childs + [ns[0]]);
      CopyChildsSame(next, ns[1..]);
      assert (ret.childs + [ns[0]]) + ns[1..] == ret.childs + ns;
    }
  }

  // ---------------------------------------------------------------- expansion obeys the schema

  /** `m` is a schema-obeying node of the given type, if it is one at all. */
  ghost predicate Sound(m: Option<Node>, t: NodeType) {
    m.Some? ==> Valid(m.value) && m.value.t == t
  }

  lemma CopyRestSound(full: Node, n: Node)
    requires Valid(full)
    ensures Sound(CopyRest(full, n), full.t)
  {
    hide AttrOk, ChildTypes;
  }

  lemma CopyAttributesSound(n: Node)
    ensures Sound(CopyAttributes(n), n.t)
  {
    NewNodeValid(n.t);
    hide AttrOk, ChildTypes, Defaults, ContentOf;
    var ret := CopyAttributes(n);
    if ret.Some? {
      assert NewNode(n.t).attrs == Defaults(n.t);
      forall k | k in ret.value.attrs
        ensures AttrOk(n.t, k, ret.value.attrs[k])
      {
        if k !in n.attrs {
          assert AttrOk(n.t, k, NewNode(n.t).attrs[k]);
        }
      }
      assert AllValid([], n.t);
    }
  }

  /** Copying checks what it copies: whatever the node, a copy that is made obeys the schema. */
  lemma {:induction false} CopySound(n: Node)
    ensures Sound(Copy(n), n.t)
    decreases n, 1
  {
    hide Valid, CopyAttributes, CopyRest;
    CopyAttributesSound(n);
    var ret := CopyAttributes(n);
    if ret.Some? {
      var full := CopyChilds(ret.value, n.childs);
      if n.childs != [] {
        CopyChildsSound(ret.value, n.childs);
      }
      if full.Some? {
        CopyRestSound(full.value, n);
      }
    }
  }

  lemma {:induction false} CopyChildsSound(ret: Node, ns: seq<Node>)
    requires Valid(ret)
    ensures Sound(CopyChilds(ret, ns), ret.t)
    decreases ns, 0
  {
    hide Valid, Copy, AddChild;
    if ns != [] {
      CopySound(ns[0]);
      var c := Copy(ns[0]);
      if c.Some? && AddChild(ret, c.value).Some? {
        AddChildValid(ret, c.value);
        AddChildType(ret, c.value);
        CopyChildsSound(AddChild(ret, c.value).value, ns[1..]);
      }
    }
  }

  lemma {:induction false} CopyWithDbSound(db: Database, n: Node, depth: nat)
    ensures Sound(CopyWithDb(db, n, depth), n.t)
    decreases depth, 3, 0
  {
    hide Valid, AttachAll, CopyRest, CopyAttributes, Copy;
    if depth == 0 {
      CopySound(n);
    } else {
      CopyAttributesSound(n);
      var bare := CopyAttributes(n);
      if bare.Some? {
        AttachAllSound(db, bare.value, n.childs, depth);
        var full := AttachAll(db, bare.value, n.childs, depth);
        if full.Some? {
          CopyRestSound(full.value, n);
        }
      }
    }
  }

  lemma AllValidOf(n: Node)
    requires Valid(n)
    ensures AllValid(n.childs, n.t)
  {
  }

  lemma {:induction false} AttachAllSound(db: Database, parent: Node, ns: seq<Node>, depth: nat)
    requires Valid(parent) && depth >= 1
    ensures Sound(AttachAll(db, parent, ns, depth), parent.t)
    decreases depth, 2, |ns|
  {
    hide Valid, Attach;
    if ns != [] {
      AttachSound(db, parent, ns[0], depth);
      var next := Attach(db, parent, ns[0], depth);
      if next.Some? {
        AttachAllSound(db, next.value, ns[1..], depth);
      }
    }
  }

  lemma {:induction false} AttachSound(db: Database, parent: Node, n: Node, depth: nat)
    requires Valid(parent) && depth >= 1
    ensures Sound(Attach(db, parent, n, depth), parent.t)
    decreases depth, 1, 0
  {
    hide Valid, Build, AttachAll, CopyWithDb;
    if depth >= 2 && "definition" in n.attrs {
      BuildSound(db, n.attrs["definition"], depth - 1);
      var def := Build(db, n.attrs["definition"], depth - 1);
      if def.Some? {
        AttachAllSound(db, parent, def.value.childs, depth - 1);
      }
    }
    CopyWithDbSound(db, n, depth - 1);
    var c := CopyWithDb(db, n, depth - 1);
    if c.Some? && AddChild(parent, c.value).Some? {
      AddChildValid(parent, c.value);
    }
  }

  lemma {:induction false} BaseSound(db: Database, found: Node, depth: nat)
    requires depth >= 1
    ensures Sound(Base(db, found, depth), Definition)
    decreases depth, 0, 0
  {
    hide Valid, Build, Copy;
    if "template" in found.attrs {
      BuildSound(db, found.attrs["template"], depth - 1);
      var tpl := Build(db, found.attrs["template"], depth - 1);
      if tpl.Some? {
        CopySound(tpl.value);
      }
    } else {
      NewNodeValid(Definition);
    }
  }

  lemma MarkedValid(full: Node, id: string)
    requires Valid(full) && MarkAll(full.childs, "_definition", id).Some?
    ensures Valid(full.(childs := MarkAll(full.childs, "_definition", id).value))
  {
    hide AttrOk, ChildTypes;
    MarkAllValid(full.childs, "_definition", id, full.t);
  }

  /** Every definition that is built obeys the schema, whatever the database holds and however its
      definitions refer to each other. */
  lemma {:induction false} BuildSound(db: Database, id: string, depth: nat)
    ensures Sound(Build(db, id, depth), Definition)
    decreases depth, 3, 0
  {
    hide Valid, Base, AttachAll, MarkAll, CommonType;
    if depth > 0 && id in db {
      BaseSound(db, db[id], depth);
      var ret := Base(db, db[id], depth);
      if ret.Some? {
        AttachAllSound(db, ret.value, db[id].childs, depth);
        var full := AttachAll(db, ret.value, db[id].childs, depth);
        if full.Some? && MarkAll(full.value.childs, "_definition", id).Some? {
          MarkedValid(full.value, id);
        }
      }
    }
  }

  // ---------------------------------------------------------------- cycles and plain definitions

  /** Definitions whose templates lead round in circles are never built, whatever the depth. */
  lemma {:induction false} TemplateCycle(db: Database, cycle: set<string>, id: string, depth: nat)
    requires id in cycle
    requires forall x :: x in cycle && x in db ==> "template" in db[x].attrs && db[x].attrs["template"] in cycle
    ensures Build(db, id, depth).None?
    decreases depth
  {
    if depth > 0 && id in db {
      TemplateCycle(db, cycle, db[id].attrs["template"], depth - 1);
    }
  }

  /** The node itself does not refer to a definition of the database. */
  predicate Unreferring(db: Database, n: Node) {
    "definition" in n.attrs ==> n.attrs["definition"] !in db
  }

  /** No node of the tree refers to a definition of the database. */
  predicate Plain(db: Database, n: Node)
    decreases n, 1
  {
    Unreferring(db, n) && AllPlain(db, n.childs)
  }

  predicate AllPlain(db: Database, ns: seq<Node>)
    decreases ns, 0
  {
    ns == [] || (Plain(db, ns[0]) && AllPlain(db, ns[1..]))
  }

  /** Expanding a tree without references copies it, at any depth. */
  lemma {:induction false} PlainIsCopied(db: Database, n: Node, depth: nat)
    requires Valid(n) && Plain(db, n)
    ensures CopyWithDb(db, n, depth) == Some(n)
    decreases n, 1
  {
    hide AttrOk, ChildTypes, Copy, CopyAttributes, Attach;
    if depth == 0 {
      CopyIsIdentity(n);
    } else {
      CopyAttributesSame(n);
      AllValidOf(n);
      var bare := n.(childs := [], text := None, xml := []);
      if n.childs == [] {
        assert AttachAll(db, bare, [], depth) == Some(bare);
      } else {
        PlainAttached(db, bare, n.childs, depth);
      }
      assert [] + n.childs == n.childs;
    }
  }

  /** A node that refers to nothing stands for its own copy. */
  lemma PlainStays(db: Database, parent: Node, n: Node, depth: nat)
    requires Unreferring(db, n) && depth >= 1
    ensures Attach(db, parent, n, depth)
            == match CopyWithDb(db, n, depth - 1)
               case None => None
               case Some(c) => AddChild(parent, c)
  {
    hide CopyWithDb, AddChild;
    assert depth >= 2 && "definition" in n.attrs ==> Build(db, n.attrs["definition"], depth - 1) == None;
  }

  lemma {:induction false} PlainAttached(db: Database, parent: Node, ns: seq<Node>, depth: nat)
    requires ContentOf(parent.t) == Childs && AllValid(ns, parent.t) && AllPlain(db, ns) && depth >= 1
    ensures AttachAll(db, parent, ns, depth) == Some(parent.(childs := parent.childs + ns))
    decreases ns, 0
  {
    hide Valid, ChildTypes, AttrOk;
    if ns == [] {
      assert parent.childs + [] == parent.childs;
    } else {
      PlainIsCopied(db, ns[0], depth - 1);
      var next := parent.(childs := parent.childs + [ns[0]]);
      PlainStays(db, parent, ns[0], depth);
      PlainAttached(db, next, ns[1..], depth);
      assert (parent.childs + [ns[0]]) + ns[1..] == parent.childs + ns;
    }
  }

  // ---------------------------------------------------------------- what expansion adds

  /** The nodes that stand for `n` after expansion, whatever they are attached to: those standing for the
      children of the definition it refers to, in order, or its copy. */
  function Expanded(db: Database, n: Node, depth: nat): seq<Node>
    requires depth >= 1
    decreases depth, 1, 0
  {
    var def := if depth >= 2 && "definition" in n.attrs then Build(db, n.attrs["definition"], depth - 1) else None;
    if def.Some? then ExpandedAll(db, def.value.childs, depth - 1)
    else
      var c := CopyWithDb(db, n, depth - 1);
      if c.Some? then [c.value] else []
  }

  function ExpandedAll(db: Database, ns: seq<Node>, depth: nat): seq<Node>
    requires depth >= 1 || ns == []
    decreases depth, 2, |ns|
  {
    if ns == [] then [] else Expanded(db, ns[0], depth) + ExpandedAll(db, ns[1..], depth)
  }

  /** Attaching only ever adds nodes behind those already there, one expansion after the other. */
  lemma {:induction false} AttachAllAppends(db: Database, parent: Node, ns: seq<Node>, depth: nat)
    requires depth >= 1 && AttachAll(db, parent, ns, depth).Some?
    ensures AttachAll(db, parent, ns, depth).value == parent.(childs := parent.childs + ExpandedAll(db, ns, depth))
    decreases depth, 2, |ns|
  {
    hide Attach, Expanded;
    if ns == [] {
      assert parent.childs + [] == parent.childs;
    } else {
      AttachAppends(db, parent, ns[0], depth);
      var first, rest := Expanded(db, ns[0], depth), ExpandedAll(db, ns[1..], depth);
      AttachAllAppends(db, Attach(db, parent, ns[0], depth).value, ns[1..], depth);
      assert (parent.childs + first) + rest == parent.childs + (first + rest);
    }
  }

  lemma {:induction false} AttachAppends(db: Database, parent: Node, n: Node, depth: nat)
    requires depth >= 1 && Attach(db, parent, n, depth).Some?
    ensures Attach(db, parent, n, depth).value == parent.(childs := parent.childs + Expanded(db, n, depth))
    decreases depth, 1, 0
  {
    hide Build, CopyWithDb, AttachAll;
    if depth >= 2 && "definition" in n.attrs {
      var def := Build(db, n.attrs["definition"], depth - 1);
      if def.Some? {
        AttachAllAppends(db, parent, def.value.childs, depth - 1);
      }
    }
  }

  // ---------------------------------------------------------------- reports

  lemma {:induction false} MoveIntoSound(to: Node, ns: seq<Node>, t: NodeType, id: string)
    requires Valid(to) && Each(ns)
    ensures Sound(MoveInto(to, ns, t, id), to.t)
    decreases |ns|
  {
    hide Valid, SetAttribute, AddChild;
    if ns != [] {
      if SetAttribute(ns[0], "definition", id).Some? {
        SetAttributeValid(ns[0], "definition", id);
      }
      var c := if ns[0].t == t then TrySetAttribute(ns[0], "definition", id) else ns[0];
      var next := AddChild(to, c);
      if next.Some? {
        AddChildValid(to, c);
        AddChildType(to, c);
        MoveIntoSound(next.value, ns[1..], t, id);
      }
    }
  }

  lemma AddChildType(n: Node, c: Node)
    ensures AddChild(n, c).Some? ==> AddChild(n, c).value.t == n.t
  {
  }

  /** Every report that is built, from any database, obeys the schema. */
  lemma ReportSound(db: Database, id: string, depth: int)
    ensures Sound(BuildReport(db, id, depth), Report)
  {
    hide Valid, Build, MoveInto, AddChild, CommonType;
    BuildSound(db, id, if depth < 0 then 8 else depth);
    var def := BuildNode(db, id, depth);
    NewNodeValid(Report);
    NewNodeValid(Incident);
    if def.Some? {
      AllValidOf(def.value);
      AllValidEach(def.value.childs, def.value.t);
      MoveIntoSound(NewNode(Report), def.value.childs, Incident, id);
      MoveIntoSound(NewNode(Incident), def.value.childs, State, id);
      var incident := MoveInto(NewNode(Incident), def.value.childs, State, id);
      if incident.Some? && AddChild(NewNode(Report), incident.value).Some? {
        AddChildValid(NewNode(Report), incident.value);
        AddChildType(NewNode(Report), incident.value);
      }
    }
  }
}
