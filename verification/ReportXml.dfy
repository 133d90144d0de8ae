/** Report definitions and their expansion: nodes under a schema, a database of definitions that may
    refer to each other in cycles, and the depth-bounded building of reports (reportxml.c). */
module ReportXml {
  import opened Bytes

  datatype NodeType =
    | Report | Definition | Incident | State | Backtrace | Position | More | Fix | Action | Reason
    | Text | Timestamp | Resource | Value | Reference | Extension

  datatype Content = NoContent | Childs | TextContent | Xml

  datatype Node = Node(t: NodeType, attrs: map<string, string>, childs: seq<Node>, text: Option<string>,
    xml: seq<string>)

  // ---------------------------------------------------------------- the schema

  function ContentOf(t: NodeType): Content {
    match t
    case Text => TextContent
    case Timestamp => NoContent
    case Extension => Xml
    case _ => Childs
  }

  function ChildTypes(t: NodeType): set<NodeType> {
    match t
    case Report => {Incident, Definition, Timestamp, Reference, Extension}
    case Definition => {Incident, State, Timestamp, Resource, Reference, Fix, Reason, Text, Extension}
    case Incident => {State, Timestamp, Resource, Reference, Fix, Reason, Extension}
    case State => {Text, Timestamp, Backtrace, Extension}
    case Backtrace => {Position, More, Text, Reference}
    case Position => {Text, Reference, Extension}
    case More => {Text}
    case Fix => {Action, Extension}
    case Action => {Text, Timestamp, Value, Extension}
    case Reason => {Text, Resource, Reference, Extension}
    case Text => {}
    case Timestamp => {}
    case Resource => {Value, Reference, Extension}
    case Value => {Text, Reference, Value, Position, Extension}
    case Reference => {Text, Extension}
    case Extension => {}
  }

  const BASIC: set<string> := {"id", "definition", "akindof", "_definition"}
  const NAMESPACE := "http://icecast.org/specs/reportxml-0.0.1"

  function AttrNames(t: NodeType): set<string> {
    match t
    case Report => {"id", "version", "xmlns"}
    case Definition => BASIC + {"template", "defines"}
    case Position => BASIC + {"function", "filename", "line", "binary", "offset"}
    case Action => BASIC + {"type"}
    case Text => BASIC + {"lang", "dir"}
    case Timestamp => BASIC + {"absolute", "relative"}
    case Resource => BASIC + {"type", "name"}
    case Value => BASIC + {"member", "value", "state", "type"}
    case Reference => BASIC + {"type", "href"}
    case Extension => BASIC + {"application"}
    case _ => BASIC
  }

  /** The values an attribute is restricted to; empty when any value will do. */
  function AttrValues(t: NodeType, key: string): set<string> {
    if key == "version" then {"0.0.1"}
    else if key == "xmlns" then {NAMESPACE}
    else if key == "dir" then {"ltr", "rtl"}
    else if key == "state" then {"declared", "set", "uninitialized", "missing"}
    else if key == "type" then
      (match t
       case Action => {"retry", "choice", "see-other", "authenticate", "pay", "change-protocol", "slow-down",
         "ask-user", "ask-admin", "bug"}
       case Resource => {"actor", "manipulation-target", "helper", "related", "result", "parameter"}
       case Value => {"null", "int", "float", "uuid", "string", "structure", "uri", "pointer", "version", "protocol",
         "username", "password"}
       case Reference => {"documentation", "log", "report", "related"}
       case _ => {})
    else {}
  }

  predicate AttrOk(t: NodeType, key: string, value: string) {
    key in AttrNames(t) && (AttrValues(t, key) == {} || value in AttrValues(t, key))
  }

  /** Attributes a fresh node comes with. */
  function Defaults(t: NodeType): map<string, string> {
    match t
    case Report => map["version" := "0.0.1", "xmlns" := NAMESPACE]
    case Value => map["state" := "set"]
    case _ => map[]
  }

  /** The node and everything below it obeys the schema. */
  predicate Valid(n: Node)
    decreases n, 1
  {
    && (forall k :: k in n.attrs ==> AttrOk(n.t, k, n.attrs[k]))
    && (forall k :: k in Defaults(n.t) ==> k in n.attrs)
    && (n.childs != [] ==> ContentOf(n.t) == Childs)
    && (n.text.Some? ==> ContentOf(n.t) == TextContent)
    && (n.xml != [] ==> ContentOf(n.t) == Xml)
    && AllValid(n.childs, n.t)
  }

  predicate AllValid(ns: seq<Node>, parent: NodeType)
    decreases ns, 0
  {
    ns == [] || (ns[0].t in ChildTypes(parent) && Valid(ns[0]) && AllValid(ns[1..], parent))
  }

  // ---------------------------------------------------------------- building nodes

  function NewNode(t: NodeType): Node {
    Node(t, Defaults(t), [], None, [])
  }

  function SetAttribute(n: Node, key: string, value: string): Option<Node> {
    if AttrOk(n.t, key, value) then Some(n.(attrs := n.attrs[key := value])) else None
  }

  function AddChild(n: Node, c: Node): Option<Node> {
    if ContentOf(n.t) == Childs && c.t in ChildTypes(n.t) then Some(n.(childs := n.childs + [c])) else None
  }

  /** A fresh node with the attributes of `n`: each is checked as if it were set anew. */
  function CopyAttributes(n: Node): Option<Node> {
    if forall k :: k in n.attrs ==> AttrOk(n.t, k, n.attrs[k])
    then Some(NewNode(n.t).(attrs := Defaults(n.t) + n.attrs)) else None
  }

  /** The parts of a node that are neither attributes nor child nodes. */
  function CopyRest(ret: Node, n: Node): Option<Node> {
    if n.text.Some? && ContentOf(ret.t) != TextContent then None
    else if n.xml != [] && ContentOf(ret.t) != Xml then None
    else Some(ret.(text := n.text, xml := n.xml))
  }

  /** A plain copy, without looking anything up. */
  function Copy(n: Node): Option<Node>
    decreases n, 1
  {
    match CopyAttributes(n)
    case None => None
    case Some(ret) =>
      match CopyChilds(ret, n.childs)
      case None => None
      case Some(full) => CopyRest(full, n)
  }

  function CopyChilds(ret: Node, ns: seq<Node>): Option<Node>
    decreases ns, 0
  {
    if ns == [] then Some(ret)
    else
      match Copy(ns[0])
      case None => None
      case Some(c) =>
        match AddChild(ret, c)
        case None => None
        case Some(next) => CopyChilds(next, ns[1..])
  }

  // ---------------------------------------------------------------- expansion

  type Database = map<string, Node>

  /** The type all of the nodes have, if there is one. */
  function CommonType(ns: seq<Node>): Option<NodeType> {
    if ns != [] && forall i :: 0 <= i < |ns| ==> ns[i].t == ns[0].t then Some(ns[0].t) else None
  }

  /** Sets an attribute on each node. */
  function MarkAll(ns: seq<Node>, key: string, value: string): Option<seq<Node>> {
    if ns == [] then Some([])
    else
      match (SetAttribute(ns[0], key, value), MarkAll(ns[1..], key, value))
      case (Some(n), Some(rest)) => Some([n] + rest)
      case _ => None
  }

  /** A copy whose child nodes are expanded as long as there is depth left. */
  function CopyWithDb(db: Database, n: Node, depth: nat): Option<Node>
    decreases depth, 3, 0
  {
    if depth == 0 then Copy(n)
    else
      match CopyAttributes(n)
      case None => None
      case Some(ret) =>
        match AttachAll(db, ret, n.childs, depth)
        case None => None
        case Some(full) => CopyRest(full, n)
  }

  function AttachAll(db: Database, parent: Node, ns: seq<Node>, depth: nat): Option<Node>
    requires depth >= 1
    decreases depth, 2, |ns|
  {
    if ns == [] then Some(parent)
    else
      match Attach(db, parent, ns[0], depth)
      case None => None
      case Some(next) => AttachAll(db, next, ns[1..], depth)
  }

  /** The children of the definition a node refers to, or else a copy of the node. */
  function Attach(db: Database, parent: Node, n: Node, depth: nat): Option<Node>
    requires depth >= 1
    decreases depth, 1, 0
  {
    var def := if depth >= 2 && "definition" in n.attrs then Build(db, n.attrs["definition"], depth - 1) else None;
    if def.Some? then AttachAll(db, parent, def.value.childs, depth - 1)
    else
      match CopyWithDb(db, n, depth - 1)
      case None => None
      case Some(c) => AddChild(parent, c)
  }

  /** What the children of a definition are attached to: a copy of its template, or nothing yet. */
  function Base(db: Database, found: Node, depth: nat): Option<Node>
    requires depth >= 1
    decreases depth, 0, 0
  {
    if "template" in found.attrs then
      match Build(db, found.attrs["template"], depth - 1)
      case None => None
      case Some(tpl) => Copy(tpl)
    else Some(NewNode(Definition))
  }

  function Build(db: Database, id: string, depth: nat): Option<Node>
    decreases depth, 3, 0
  {
    if depth == 0 || id !in db then None
    else
      match Base(db, db[id], depth)
      case None => None
      case Some(ret) =>
        match AttachAll(db, ret, db[id].childs, depth)
        case None => None
        case Some(full) =>
          if CommonType(db[id].childs).None? then Some(full)
          else
            match MarkAll(full.childs, "_definition", id)
            case None => None
            case Some(ns) => Some(full.(childs := ns))
  }

  /** A negative depth asks for the default depth. */
  function BuildNode(db: Database, id: string, depth: int): (r: Option<Node>)
    ensures r.Some? ==> id in db
  {
    Build(db, id, if depth < 0 then 8 else depth)
  }

  /** An attribute that is set where it may be and otherwise left alone. */
  function TrySetAttribute(n: Node, key: string, value: string): Node {
    var r := SetAttribute(n, key, value);
    if r.Some? then r.value else n
  }

  /** Moves built nodes below `to`; those of the leading type are told which definition they come from. */
  function MoveInto(to: Node, ns: seq<Node>, t: NodeType, id: string): Option<Node>
    decreases |ns|
  {
    if ns == [] then Some(to)
    else
      match AddChild(to, if ns[0].t == t then TrySetAttribute(ns[0], "definition", id) else ns[0])
      case None => None
      case Some(next) => MoveInto(next, ns[1..], t, id)
  }

  /** A report from a definition: incidents go into the report, states into an incident of their own. */
  function BuildReport(db: Database, id: string, depth: int): Option<Node> {
    match BuildNode(db, id, depth)
    case None => None
    case Some(def) =>
      if def.childs == [] then Some(NewNode(Report))
      else
        var common := CommonType(db[id].childs);
        var t := if common.Some? then common.value else def.childs[0].t;
        if t == Incident then MoveInto(NewNode(Report), def.childs, t, id)
        else if t == State then
          match MoveInto(NewNode(Incident), def.childs, t, id)
          case None => None
          case Some(incident) => AddChild(NewNode(Report), incident)
        else None
  }
}
