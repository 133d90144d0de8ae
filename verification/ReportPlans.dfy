/** What a report contains: the children of a definition are those of its template followed by what stands for
    its own, references replaced by what they refer to. The contents are read off the database; how they are
    built does not appear in them. */
module ReportPlans {
  import opened Bytes
  import opened ReportXml
  import opened ReportTheorems

  /** The nodes, each with the attribute set. */
  function Marked(ns: seq<Node>, key: string, value: string): (r: seq<Node>)
    ensures |r| == |ns|
    ensures forall i :: 0 <= i < |ns| ==> r[i] == ns[i].(attrs := ns[i].attrs[key := value])
  {
    seq(|ns|, i requires 0 <= i < |ns| => ns[i].(attrs := ns[i].attrs[key := value]))
  }

  ghost predicate Allowed(ns: seq<Node>, parent: NodeType) {
    forall i :: 0 <= i < |ns| ==> ns[i].t in ChildTypes(parent)
  }

  /** There are nodes, and all are of one type. */
  ghost predicate Uniform(ns: seq<Node>) {
    ns != [] && forall i, j :: 0 <= i < |ns| && 0 <= j < |ns| ==> ns[i].t == ns[j].t
  }

  // ---------------------------------------------------------------- lists of nodes

  lemma UniformIs(ns: seq<Node>)
    ensures Uniform(ns) <==> CommonType(ns).Some?
  {
  }

  lemma {:induction false} AllValidIff(ns: seq<Node>, parent: NodeType)
    ensures AllValid(ns, parent) <==> Each(ns) && Allowed(ns, parent)
    decreases |ns|
  {
    hide ChildTypes, Valid;
    if ns != [] {
      AllValidIff(ns[1..], parent);
      assert forall i :: 0 < i < |ns| ==> ns[i] == ns[1..][i - 1];
      assert forall i :: 0 <= i < |ns| - 1 ==> ns[1..][i] == ns[i + 1];
    }
  }

  lemma {:induction false} AllPlainIff(db: Database, ns: seq<Node>)
    ensures AllPlain(db, ns) <==> forall i :: 0 <= i < |ns| ==> Plain(db, ns[i])
    decreases |ns|
  {
    hide Plain;
    if ns != [] {
      AllPlainIff(db, ns[1..]);
      assert forall i :: 0 < i < |ns| ==> ns[i] == ns[1..][i - 1];
      assert forall i :: 0 <= i < |ns| - 1 ==> ns[1..][i] == ns[i + 1];
    }
  }

  lemma MarkAllowed(n: Node)
    requires n.t in ChildTypes(Definition)
    ensures forall id :: AttrOk(n.t, "_definition", id)
  {
    assert AttrValues(n.t, "_definition") == {};
    assert "_definition" in BASIC;
  }

  /** Marking the children of a definition never fails. */
  lemma {:induction false} MarkAllIs(ns: seq<Node>, id: string)
    requires Allowed(ns, Definition)
    ensures MarkAll(ns, "_definition", id) == Some(Marked(ns, "_definition", id))
    decreases |ns|
  {
    hide AttrOk, ChildTypes;
    if ns != [] {
      MarkAllowed(ns[0]);
      assert Allowed(ns[1..], Definition);
      MarkAllIs(ns[1..], id);
      assert Marked(ns, "_definition", id) == [Marked(ns, "_definition", id)[0]] + Marked(ns[1..], "_definition", id);
    }
  }

  lemma MarkedKeeps(db: Database, ns: seq<Node>, id: string)
    requires AllValid(ns, Definition) && AllPlain(db, ns)
    ensures var r := Marked(ns, "_definition", id);
            AllValid(r, Definition) && AllPlain(db, r) && MarkAll(ns, "_definition", id) == Some(r)
  {
    hide AllValid, AllPlain, AttrOk, ChildTypes, Valid;
    var r := Marked(ns, "_definition", id);
    AllValidIff(ns, Definition);
    AllPlainIff(db, ns);
    MarkAllIs(ns, id);
    MarkAllValid(ns, "_definition", id, Definition);
    forall i | 0 <= i < |r|
      ensures Plain(db, r[i])
    {
      assert Plain(db, ns[i]) && r[i].childs == ns[i].childs;
    }
    AllPlainIff(db, r);
  }

  lemma JoinedKeeps(db: Database, a: seq<Node>, b: seq<Node>, parent: NodeType)
    requires AllValid(a, parent) && AllValid(b, parent) && AllPlain(db, a) && AllPlain(db, b)
    ensures AllValid(a + b, parent) && AllPlain(db, a + b)
  {
    hide AllValid, AllPlain, ChildTypes, Valid, Plain;
    AllValidIff(a, parent);
    AllValidIff(b, parent);
    AllValidIff(a + b, parent);
    AllPlainIff(db, a);
    AllPlainIff(db, b);
    AllPlainIff(db, a + b);
  }

  // ---------------------------------------------------------------- one definition

  function Finished(ns: seq<Node>, uniform: bool, id: string): seq<Node> {
    if uniform then Marked(ns, "_definition", id) else ns
  }

  function Built(ns: seq<Node>): Node {
    NewNode(Definition).(childs := ns)
  }

  lemma BuiltValid(ns: seq<Node>)
    requires AllValid(ns, Definition)
    ensures Valid(Built(ns)) && Copy(Built(ns)) == Some(Built(ns))
  {
    NewNodeValid(Definition);
    CopyIsIdentity(Built(ns));
  }

  /** Building puts together what the template gives and what is attached, and marks it all. */
  lemma BuildIs(db: Database, id: string, depth: nat, first: seq<Node>, own: seq<Node>)
    requires id in db && depth >= 1 && AllValid(first, Definition)
    requires if "template" in db[id].attrs then Build(db, db[id].attrs["template"], depth - 1) == Some(Built(first))
             else first == []
    requires AttachAll(db, Built(first), db[id].childs, depth) == Some(Built(first + own))
    requires AllValid(first + own, Definition) && AllPlain(db, first + own)
    ensures var ns := Finished(first + own, Uniform(db[id].childs), id);
            Build(db, id, depth) == Some(Built(ns)) && AllValid(ns, Definition) && AllPlain(db, ns)
  {
    hide AllValid, AllPlain, AttachAll, MarkAll, CommonType, Valid, Copy;
    BuiltValid(first);
    UniformIs(db[id].childs);
    hide Uniform;
    MarkedKeeps(db, first + own, id);
  }

  // ---------------------------------------------------------------- chains of templates

  /** Each definition of the chain is the template of the one before it; the last has none. */
  ghost predicate Chain(db: Database, chain: seq<string>) {
    chain != [] && forall i :: 0 <= i < |chain| ==> Link(db, chain[i], Behind(chain, i))
  }

  function Behind(chain: seq<string>, i: nat): Option<string> {
    if i + 1 < |chain| then Some(chain[i + 1]) else None
  }

  /** The database holds this definition: it obeys the schema, refers to nothing and has this template. */
  ghost predicate Link(db: Database, id: string, template: Option<string>) {
    id in db && db[id].t == Definition && Valid(db[id]) && AllPlain(db, db[id].childs) && Template(db[id]) == template
  }

  function Template(n: Node): Option<string> {
    if "template" in n.attrs then Some(n.attrs["template"]) else None
  }

  /** The children a definition itself has. */
  function Own(db: Database, id: string): seq<Node> {
    if id in db then db[id].childs else []
  }

  function Stamped(ns: seq<Node>, mark: Option<string>): seq<Node> {
    if mark.Some? then Marked(ns, "_definition", mark.value) else ns
  }

  /** The mark the children of a definition end up with: that of the outermost definition of the chain, not
      beyond their own, whose own children are all of one type. */
  ghost function MarkOf(db: Database, id: string, outer: Option<string>): Option<string> {
    if outer.Some? then outer else if Uniform(Own(db, id)) then Some(id) else None
  }

  /** The children of all definitions of the chain, the last first. */
  ghost function ChainContent(db: Database, chain: seq<string>, outer: Option<string>): seq<Node> {
    if chain == [] then []
    else
      var mark := MarkOf(db, chain[0], outer);
      ChainContent(db, chain[1..], mark) + Stamped(Own(db, chain[0]), mark)
  }

  lemma MarkedTwice(ns: seq<Node>, mark: Option<string>, id: string)
    ensures Marked(Stamped(ns, mark), "_definition", id) == Marked(ns, "_definition", id)
  {
    var a, b := Marked(Stamped(ns, mark), "_definition", id), Marked(ns, "_definition", id);
    forall i | 0 <= i < |ns|
      ensures a[i] == b[i]
    {
      assert a[i].attrs == b[i].attrs;
    }
  }

  lemma MarkedJoin(a: seq<Node>, b: seq<Node>, id: string)
    ensures Marked(a + b, "_definition", id) == Marked(a, "_definition", id) + Marked(b, "_definition", id)
  {
  }

  /** A later mark replaces all earlier ones. */
  lemma {:induction false} Remarked(db: Database, chain: seq<string>, outer: Option<string>, id: string)
    ensures Marked(ChainContent(db, chain, outer), "_definition", id) == ChainContent(db, chain, Some(id))
    decreases |chain|
  {
    if chain != [] {
      var mark := MarkOf(db, chain[0], outer);
      var own := Own(db, chain[0]);
      MarkedJoin(ChainContent(db, chain[1..], mark), Stamped(own, mark), id);
      Remarked(db, chain[1..], mark, id);
      MarkedTwice(own, mark, id);
    }
  }

  lemma LinkParts(db: Database, id: string, template: Option<string>)
    requires Link(db, id, template)
    ensures id in db && AllValid(db[id].childs, Definition) && AllPlain(db, db[id].childs)
    ensures Template(db[id]) == template
  {
    AllValidOf(db[id]);
  }

  lemma ChainParts(db: Database, chain: seq<string>)
    requires Chain(db, chain)
    ensures chain != [] && chain[0] in db
    ensures AllValid(db[chain[0]].childs, Definition) && AllPlain(db, db[chain[0]].childs)
    ensures Template(db[chain[0]]) == Behind(chain, 0) && (1 < |chain| ==> Chain(db, chain[1..]))
  {
    hide Link, AllValid, AllPlain, Template;
    LinkParts(db, chain[0], Behind(chain, 0));
    var rest := chain[1..];
    forall i | 0 <= i < |rest|
      ensures Link(db, rest[i], Behind(rest, i))
    {
      assert Link(db, chain[i + 1], Behind(chain, i + 1));
    }
  }

  lemma NotBuilt(db: Database, id: string, template: string, depth: nat)
    requires depth > 0 ==>
               id in db && Template(db[id]) == Some(template) && Build(db, template, depth - 1).None?
    ensures Build(db, id, depth).None?
  {
  }

  lemma ChainStep(db: Database, chain: seq<string>)
    requires chain != []
    ensures var own := Own(db, chain[0]);
            ChainContent(db, chain, None)
            == Finished(ChainContent(db, chain[1..], None) + own, Uniform(own), chain[0])
  {
    hide Uniform;
    MarkedJoin(ChainContent(db, chain[1..], None), Own(db, chain[0]), chain[0]);
    Remarked(db, chain[1..], None, chain[0]);
  }

  lemma {:induction false} ChainContentOk(db: Database, chain: seq<string>)
    requires Chain(db, chain)
    ensures AllValid(ChainContent(db, chain, None), Definition) && AllPlain(db, ChainContent(db, chain, None))
    decreases |chain|
  {
    ChainParts(db, chain);
    hide Valid, Uniform, Chain;
    if |chain| > 1 {
      ChainContentOk(db, chain[1..]);
    }
    var first, own := ChainContent(db, chain[1..], None), db[chain[0]].childs;
    JoinedKeeps(db, first, own, Definition);
    MarkedKeeps(db, first + own, chain[0]);
    ChainStep(db, chain);
  }

  lemma ChainBuild(db: Database, chain: seq<string>, depth: nat)
    requires Chain(db, chain) && depth >= 1
    requires |chain| > 1 ==>
               Build(db, chain[1], depth - 1) == Some(Built(ChainContent(db, chain[1..], None)))
    ensures Build(db, chain[0], depth) == Some(Built(ChainContent(db, chain, None)))
  {
    ChainParts(db, chain);
    hide Valid, AllValid, AllPlain, Uniform, Chain, Build, AttachAll, Finished;
    var first, own := ChainContent(db, chain[1..], None), db[chain[0]].childs;
    if |chain| > 1 {
      ChainContentOk(db, chain[1..]);
    } else {
      assert chain[1..] == [];
      NoneOk(db);
    }
    JoinedKeeps(db, first, own, Definition);
    PlainAttached(db, Built(first), own, depth);
    BuildIs(db, chain[0], depth, first, own);
    ChainStep(db, chain);
  }

  /** A definition with a chain of templates is built if and only if the chain is no longer than the depth; it
      then has the children of all of them, those of the last template first. */
  lemma {:induction false} TemplateBuild(db: Database, chain: seq<string>, depth: nat)
    requires Chain(db, chain)
    ensures Build(db, chain[0], depth)
            == if |chain| <= depth then Some(Built(ChainContent(db, chain, None))) else None
    decreases |chain|
  {
    hide AllValid, AllPlain, Chain, Build, Built, ChainContent, Template;
    ChainParts(db, chain);
    if |chain| > 1 && depth > 0 {
      TemplateBuild(db, chain[1..], depth - 1);
      assert chain[1..][0] == chain[1];
    }
    if |chain| <= depth {
      ChainBuild(db, chain, depth);
    } else {
      NotBuilt(db, chain[0], if depth > 0 then chain[1] else "", depth);
    }
  }

  lemma NoneOk(db: Database)
    ensures AllValid([], Definition) && AllPlain(db, [])
  {
  }

  // ---------------------------------------------------------------- templates and references

  /** How a definition comes together: with or without a template below it, and what stands for each of its
      children. */
  datatype Plan =
    | Alone(id: string, items: seq<Item>)
    | Over(template: Plan, id: string, items: seq<Item>)

  /** A node stays with all below it, stays with other nodes below it, or gives way to a definition's children. */
  datatype Item =
    | Stays(node: Node)
    | Opens(node: Node, items: seq<Item>)
    | Refers(node: Node, plan: Plan)

  function Nodes(items: seq<Item>): (r: seq<Node>)
    ensures |r| == |items| && forall i :: 0 <= i < |items| ==> r[i] == items[i].node
  {
    seq(|items|, i requires 0 <= i < |items| => items[i].node)
  }

  /** The children of the definition. */
  ghost function Content(p: Plan): seq<Node>
    decreases p, 1
  {
    var first := if p.Over? then Content(p.template) else [];
    Finished(first + Meanings(p.items), Uniform(Nodes(p.items)), p.id)
  }

  ghost function Meanings(items: seq<Item>): seq<Node>
    decreases items, 0
  {
    if items == [] then [] else Meaning(items[0]) + Meanings(items[1..])
  }

  ghost function Meaning(i: Item): seq<Node>
    decreases i, 1
  {
    match i
    case Stays(n) => [n]
    case Opens(n, items) => [n.(childs := Meanings(items))]
    case Refers(_, p) => Content(p)
  }

  /** The plan is that of a definition in the database. */
  ghost predicate Describes(db: Database, p: Plan)
    decreases p, 1
  {
    && p.id in db && db[p.id].t == Definition && Valid(db[p.id]) && Nodes(p.items) == db[p.id].childs
    && AllFit(db, p.items)
    && Template(db[p.id]) == (if p.Over? then Some(p.template.id) else None)
    && (p.Over? ==> Describes(db, p.template))
  }

  ghost predicate AllFit(db: Database, items: seq<Item>)
    decreases items, 0
  {
    items == [] || (Fit(db, items[0]) && AllFit(db, items[1..]))
  }

  ghost predicate Fit(db: Database, i: Item)
    decreases i, 1
  {
    match i
    case Stays(n) => Plain(db, n)
    case Opens(n, items) =>
      && Unreferring(db, n) && Nodes(items) == n.childs && AllFit(db, items) && Allowed(Meanings(items), n.t)
    case Refers(n, p) => "definition" in n.attrs && n.attrs["definition"] == p.id && Describes(db, p)
  }

  /** The depth it takes. */
  ghost function Need(p: Plan): (d: nat)
    ensures d >= 1
    decreases p, 1
  {
    var own := Most(1, Needs(p.items));
    if p.Over? then Most(own, 1 + Need(p.template)) else own
  }

  ghost function Needs(items: seq<Item>): (d: nat)
    ensures items != [] ==> d >= 1
    decreases items, 0
  {
    if items == [] then 0 else Most(NeedOf(items[0]), Needs(items[1..]))
  }

  ghost function NeedOf(i: Item): (d: nat)
    ensures d >= 1
    decreases i, 1
  {
    match i
    case Stays(_) => 1
    case Opens(_, items) => 1 + Needs(items)
    case Refers(_, p) => 1 + Need(p)
  }

  ghost function Most(a: nat, b: nat): nat {
    if a < b then b else a
  }

  lemma NodesTail(items: seq<Item>)
    requires items != []
    ensures Nodes(items)[0] == items[0].node && Nodes(items)[1..] == Nodes(items[1..])
    ensures Nodes(items) == [items[0].node] + Nodes(items[1..])
  {
  }

  /** What a list of nodes standing for others must be. */
  ghost predicate Good(db: Database, ns: seq<Node>, definition: bool) {
    Each(ns) && AllPlain(db, ns) && (definition ==> Allowed(ns, Definition))
  }

  lemma GoodJoin(db: Database, a: seq<Node>, b: seq<Node>, d: bool)
    requires Good(db, a, d) && Good(db, b, d)
    ensures Good(db, a + b, d)
  {
    hide AllPlain, ChildTypes, Valid, Plain;
    AllPlainIff(db, a);
    AllPlainIff(db, b);
    AllPlainIff(db, a + b);
  }

  lemma GoodOne(db: Database, n: Node, d: bool)
    requires Valid(n) && Plain(db, n) && (d ==> n.t in ChildTypes(Definition))
    ensures Good(db, [n], d)
  {
    hide ChildTypes, Valid, Plain;
    AllPlainIff(db, [n]);
  }

  lemma GoodIff(db: Database, ns: seq<Node>)
    ensures Good(db, ns, true) <==> AllValid(ns, Definition) && AllPlain(db, ns)
  {
    hide AllValid, AllPlain, ChildTypes, Valid;
    AllValidIff(ns, Definition);
  }

  lemma OpenedValid(db: Database, n: Node, ns: seq<Node>)
    requires Valid(n) && Each(ns) && Allowed(ns, n.t) && (n.childs == [] ==> ns == [])
    ensures Valid(n.(childs := ns))
    ensures Unreferring(db, n) && AllPlain(db, ns) ==> Plain(db, n.(childs := ns))
  {
    hide AttrOk, ChildTypes, AllPlain;
    AllValidIff(ns, n.t);
  }

  lemma EachOf(n: Node)
    requires Valid(n)
    ensures Each(n.childs) && Allowed(n.childs, n.t)
  {
    AllValidOf(n);
    AllValidIff(n.childs, n.t);
  }

  lemma {:induction false} MeaningOk(db: Database, i: Item, d: bool)
    requires Fit(db, i) && Valid(i.node) && (d ==> i.node.t in ChildTypes(Definition))
    ensures Good(db, Meaning(i), d)
    decreases i, 1
  {
    hide Valid, ChildTypes, AllPlain, Good;
    match i
    case Stays(n) => GoodOne(db, n, d);
    case Opens(n, items) =>
      EachOf(n);
      if items != [] {
        MeaningsOk(db, items, false);
      } else {
        GoodNone(db, false);
      }
      GoodParts(db, Meanings(items), false);
      OpenedValid(db, n, Meanings(items));
      GoodOne(db, n.(childs := Meanings(items)), d);
    case Refers(n, p) =>
      ContentOk(db, p);
      GoodLess(db, Content(p), d);
  }

  lemma GoodNone(db: Database, d: bool)
    ensures Good(db, [], d)
  {
  }

  lemma GoodParts(db: Database, ns: seq<Node>, d: bool)
    requires Good(db, ns, d)
    ensures Each(ns) && AllPlain(db, ns)
  {
  }

  lemma GoodLess(db: Database, ns: seq<Node>, d: bool)
    requires Good(db, ns, true)
    ensures Good(db, ns, d)
  {
  }

  lemma {:induction false} MeaningsOk(db: Database, items: seq<Item>, d: bool)
    requires AllFit(db, items) && Each(Nodes(items)) && (d ==> Allowed(Nodes(items), Definition))
    ensures Good(db, Meanings(items), d)
    decreases items, 0
  {
    hide Valid, ChildTypes, Good, Fit, Meaning;
    if items == [] {
      GoodNone(db, d);
    } else {
      NodesTail(items);
      assert forall j :: 0 <= j < |items| - 1 ==> Nodes(items[1..])[j] == Nodes(items)[j + 1];
      MeaningOk(db, items[0], d);
      MeaningsOk(db, items[1..], d);
      GoodJoin(db, Meaning(items[0]), Meanings(items[1..]), d);
    }
  }

  lemma {:induction false} ContentOk(db: Database, p: Plan)
    requires Describes(db, p)
    ensures Good(db, Content(p), true)
    decreases p, 1
  {
    hide Valid, ChildTypes, Good, AllFit, Meanings, Uniform, AllValid, AllPlain;
    var first := if p.Over? then Content(p.template) else [];
    if p.Over? {
      ContentOk(db, p.template);
    } else {
      GoodNone(db, true);
    }
    EachOf(db[p.id]);
    MeaningsOk(db, p.items, true);
    GoodJoin(db, first, Meanings(p.items), true);
    GoodIff(db, first + Meanings(p.items));
    MarkedKeeps(db, first + Meanings(p.items), p.id);
    GoodIff(db, Marked(first + Meanings(p.items), "_definition", p.id));
  }

  lemma {:induction false} ItemAttached(db: Database, parent: Node, i: Item, depth: nat)
    requires ContentOf(parent.t) == Childs && Fit(db, i) && Valid(i.node) && Allowed(Meaning(i), parent.t)
    requires depth >= NeedOf(i)
    ensures Attach(db, parent, i.node, depth) == Some(parent.(childs := parent.childs + Meaning(i)))
    decreases i, 1
  {
    hide Valid, ChildTypes, AllPlain, CopyWithDb, Build, AttachAll, Attach;
    match i
    case Stays(n) =>
      assert Unreferring(db, n);
      PlainIsCopied(db, n, depth - 1);
      PlainStays(db, parent, n, depth);
      Added(parent, n);
    case Opens(n, items) =>
      if items != [] {
        EachOf(n);
        FilledContent(n);
        ItemsAttached(db, Bare(n), items, depth - 1);
        assert [] + Meanings(items) == Meanings(items);
      }
      OpenedCopy(db, n, Meanings(items), depth - 1);
      PlainStays(db, parent, n, depth);
      Added(parent, n.(childs := Meanings(items)));
    case Refers(n, p) =>
      PlanBuild(db, p, depth - 1);
      ContentOk(db, p);
      ReferenceAttached(db, parent, n, Content(p), depth);
  }

  lemma {:induction false} ItemsAttached(db: Database, parent: Node, items: seq<Item>, depth: nat)
    requires ContentOf(parent.t) == Childs && AllFit(db, items) && Each(Nodes(items))
    requires Allowed(Meanings(items), parent.t) && depth >= 1 && depth >= Needs(items)
    ensures AttachAll(db, parent, Nodes(items), depth) == Some(parent.(childs := parent.childs + Meanings(items)))
    decreases items, 0
  {
    hide Valid, ChildTypes, Fit, Meaning, Attach, AttachAll, Each, Allowed, ContentOf;
    if items == [] {
      assert parent.childs + [] == parent.childs;
      NothingAttached(db, parent, depth);
    } else {
      NodesTail(items);
      EachTail(Nodes(items));
      var first, rest := Meaning(items[0]), Meanings(items[1..]);
      AllowedParts(first, rest, parent.t);
      ItemAttached(db, parent, items[0], depth);
      ItemsAttached(db, parent.(childs := parent.childs + first), items[1..], depth);
      AttachedNext(db, parent, Nodes(items), first, rest, depth);
    }
  }

  lemma NothingAttached(db: Database, parent: Node, depth: nat)
    requires depth >= 1
    ensures AttachAll(db, parent, [], depth) == Some(parent)
  {
  }

  lemma EachTail(ns: seq<Node>)
    requires ns != [] && Each(ns)
    ensures Valid(ns[0]) && Each(ns[1..])
  {
    hide Valid;
    assert forall i :: 0 <= i < |ns| - 1 ==> ns[1..][i] == ns[i + 1];
  }

  lemma AttachedNext(db: Database, parent: Node, ns: seq<Node>, first: seq<Node>, rest: seq<Node>, depth: nat)
    requires depth >= 1 && ns != []
    requires Attach(db, parent, ns[0], depth) == Some(parent.(childs := parent.childs + first))
    requires AttachAll(db, parent.(childs := parent.childs + first), ns[1..], depth)
             == Some(parent.(childs := (parent.childs + first) + rest))
    ensures AttachAll(db, parent, ns, depth) == Some(parent.(childs := parent.childs + (first + rest)))
  {
    hide Attach;
    assert (parent.childs + first) + rest == parent.childs + (first + rest);
  }

  /** Whatever templates and references a definition has, given the depth it takes it is built, with the
      content of its plan. */
  lemma {:induction false} PlanBuild(db: Database, p: Plan, depth: nat)
    requires Describes(db, p) && depth >= Need(p)
    ensures Build(db, p.id, depth) == Some(Built(Content(p)))
    decreases p, 1
  {
    hide Valid, ChildTypes, Good, AllFit, Meanings, Uniform, AllValid, AllPlain, Build, AttachAll, Finished;
    var first := if p.Over? then Content(p.template) else [];
    if p.Over? {
      PlanBuild(db, p.template, depth - 1);
      ContentOk(db, p.template);
    } else {
      GoodNone(db, true);
    }
    EachOf(db[p.id]);
    MeaningsOk(db, p.items, true);
    GoodAllowed(db, Meanings(p.items));
    ItemsAttached(db, Built(first), p.items, depth);
    GoodJoin(db, first, Meanings(p.items), true);
    GoodIff(db, first);
    GoodIff(db, first + Meanings(p.items));
    BuildIs(db, p.id, depth, first, Meanings(p.items));
  }

  function Bare(n: Node): Node {
    n.(childs := [], text := None, xml := [])
  }

  lemma Added(parent: Node, c: Node)
    requires ContentOf(parent.t) == Childs && Allowed([c], parent.t)
    ensures AddChild(parent, c) == Some(parent.(childs := parent.childs + [c]))
  {
    assert [c][0].t in ChildTypes(parent.t);
  }

  lemma FilledContent(n: Node)
    requires Valid(n) && n.childs != []
    ensures ContentOf(n.t) == Childs
  {
  }

  /** A node whose children have been attached is copied with them. */
  lemma OpenedCopy(db: Database, n: Node, ns: seq<Node>, depth: nat)
    requires Valid(n) && (n.childs == [] ==> ns == [])
    requires n.childs != [] ==> depth >= 1 && AttachAll(db, Bare(n), n.childs, depth) == Some(Bare(n).(childs := ns))
    ensures CopyWithDb(db, n, depth) == Some(n.(childs := ns))
  {
    hide AttrOk, ChildTypes, Copy, CopyAttributes, Attach;
    CopyAttributesSame(n);
    if depth == 0 {
      CopyIsIdentity(n);
    } else if n.childs == [] {
      assert AttachAll(db, Bare(n), [], depth) == Some(Bare(n));
    }
  }

  /** A node that refers to a definition gives way to the children of it. */
  lemma ReferenceAttached(db: Database, parent: Node, n: Node, ns: seq<Node>, depth: nat)
    requires depth >= 2 && "definition" in n.attrs && ContentOf(parent.t) == Childs && Allowed(ns, parent.t)
    requires Build(db, n.attrs["definition"], depth - 1) == Some(Built(ns)) && Good(db, ns, true)
    ensures Attach(db, parent, n, depth) == Some(parent.(childs := parent.childs + ns))
  {
    hide Valid, ChildTypes, AllPlain, CopyWithDb, Build, AttachAll;
    AllValidIff(ns, parent.t);
    PlainAttached(db, parent, ns, depth - 1);
  }

  lemma AllowedParts(a: seq<Node>, b: seq<Node>, parent: NodeType)
    requires Allowed(a + b, parent)
    ensures Allowed(a, parent) && Allowed(b, parent)
  {
    hide ChildTypes;
    assert forall i :: 0 <= i < |a| ==> (a + b)[i] == a[i];
    assert forall i :: 0 <= i < |b| ==> (a + b)[|a| + i] == b[i];
  }

  lemma GoodAllowed(db: Database, ns: seq<Node>)
    requires Good(db, ns, true)
    ensures Allowed(ns, Definition)
  {
  }

  // ---------------------------------------------------------------- reports

  /** A node of the given type is told the definition it comes from. */
  function Tag(n: Node, t: NodeType, id: string): Node {
    if n.t == t then n.(attrs := n.attrs["definition" := id]) else n
  }

  function Tagged(ns: seq<Node>, t: NodeType, id: string): (r: seq<Node>)
    ensures |r| == |ns| && forall i :: 0 <= i < |ns| ==> r[i] == Tag(ns[i], t, id)
  {
    seq(|ns|, i requires 0 <= i < |ns| => Tag(ns[i], t, id))
  }

  lemma TagIs(n: Node, t: NodeType, id: string)
    requires t == Incident || t == State
    ensures Tag(n, t, id) == if n.t == t then TrySetAttribute(n, "definition", id) else n
    ensures Tag(n, t, id).t == n.t
  {
    assert "definition" in BASIC;
    assert AttrValues(n.t, "definition") == {};
  }

  lemma {:induction false} MoveIntoIs(to: Node, ns: seq<Node>, t: NodeType, id: string)
    requires ContentOf(to.t) == Childs && (t == Incident || t == State)
    ensures MoveInto(to, ns, t, id)
            == if Allowed(ns, to.t) then Some(to.(childs := to.childs + Tagged(ns, t, id))) else None
    decreases |ns|
  {
    hide ChildTypes, ContentOf, TrySetAttribute, Allowed, Tag;
    if ns == [] {
      assert to.childs + Tagged(ns, t, id) == to.childs;
      NoneAllowed(to.t);
    } else {
      var c := Tag(ns[0], t, id);
      TagIs(ns[0], t, id);
      AllowedCons(ns, to.t);
      if ns[0].t in ChildTypes(to.t) {
        MoveIntoIs(to.(childs := to.childs + [c]), ns[1..], t, id);
        TaggedCons(to.childs, ns, t, id);
      }
    }
  }

  lemma NoneAllowed(t: NodeType)
    ensures Allowed([], t)
  {
  }

  lemma TaggedCons(before: seq<Node>, ns: seq<Node>, t: NodeType, id: string)
    requires ns != []
    ensures (before + [Tag(ns[0], t, id)]) + Tagged(ns[1..], t, id) == before + Tagged(ns, t, id)
  {
    hide Tag;
    assert Tagged(ns, t, id) == [Tag(ns[0], t, id)] + Tagged(ns[1..], t, id);
  }

  lemma AllowedCons(ns: seq<Node>, parent: NodeType)
    requires ns != []
    ensures Allowed(ns, parent) <==> ns[0].t in ChildTypes(parent) && Allowed(ns[1..], parent)
  {
    hide ChildTypes;
    assert forall i :: 0 < i < |ns| ==> ns[i] == ns[1..][i - 1];
    assert forall i :: 0 <= i < |ns| - 1 ==> ns[1..][i] == ns[i + 1];
  }

  /** What a report of these nodes is: incidents stand in the report, states in an incident of their own, and
      both are told the definition they come from. */
  ghost function ReportOf(ns: seq<Node>, t: NodeType, id: string): Option<Node> {
    if t == Incident && Allowed(ns, Report) then Some(NewNode(Report).(childs := Tagged(ns, Incident, id)))
    else if t == State && Allowed(ns, Incident)
      then Some(NewNode(Report).(childs := [NewNode(Incident).(childs := Tagged(ns, State, id))]))
    else None
  }

  /** The type that decides is that of the definition's own children if all have the same, otherwise that of
      the first child of the built definition. */
  ghost function Leading(own: seq<Node>, ns: seq<Node>): NodeType
    requires ns != []
  {
    if Uniform(own) then own[0].t else ns[0].t
  }

  lemma ReportIs(db: Database, id: string, depth: int, ns: seq<Node>)
    requires id in db && Build(db, id, if depth < 0 then 8 else depth) == Some(Built(ns))
    ensures BuildReport(db, id, depth)
            == if ns == [] then Some(NewNode(Report)) else ReportOf(ns, Leading(db[id].childs, ns), id)
  {
    hide Build, ChildTypes, MoveInto, Tagged, Tag, Allowed, AddChild, ContentOf, Defaults;
    UniformIs(db[id].childs);
    hide Uniform;
    IncidentAdded(Tagged(ns, State, id));
    MoveIntoNew(Report, ns, Incident, id);
    MoveIntoNew(Incident, ns, State, id);
  }

  lemma IncidentAdded(ns: seq<Node>)
    ensures AddChild(NewNode(Report), NewNode(Incident).(childs := ns))
            == Some(NewNode(Report).(childs := [NewNode(Incident).(childs := ns)]))
    ensures ContentOf(Report) == ContentOf(Incident) == Childs
  {
    var incident := NewNode(Incident).(childs := ns);
    assert [] + [incident] == [incident];
  }

  lemma MoveIntoNew(parent: NodeType, ns: seq<Node>, t: NodeType, id: string)
    requires ContentOf(parent) == Childs && (t == Incident || t == State)
    ensures MoveInto(NewNode(parent), ns, t, id)
            == if Allowed(ns, parent) then Some(NewNode(parent).(childs := Tagged(ns, t, id))) else None
  {
    hide ChildTypes, MoveInto, Tag, Allowed, ContentOf, Defaults;
    MoveIntoIs(NewNode(parent), ns, t, id);
    assert [] + Tagged(ns, t, id) == Tagged(ns, t, id);
  }

  /** The report of a definition has the content of its plan, or there is none if that is not of incidents or
      states or does not belong below them. */
  lemma PlanReport(db: Database, p: Plan, depth: int)
    requires Describes(db, p) && (depth < 0 || depth >= Need(p)) && (depth < 0 ==> 8 >= Need(p))
    ensures BuildReport(db, p.id, depth)
            == if Content(p) == [] then Some(NewNode(Report))
               else ReportOf(Content(p), Leading(Nodes(p.items), Content(p)), p.id)
  {
    hide Build, Content, BuildReport, ReportOf, Leading;
    PlanBuild(db, p, if depth < 0 then 8 else depth);
    ReportIs(db, p.id, depth, Content(p));
  }
}
