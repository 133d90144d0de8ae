/** Authenticating a client with immediate authenticators: the search runs from one authenticator to
    the next, and from the listener's stack to the mount's, the default mount's and the global one,
    by handing a continuation along (auth.c, connection.c). */
module AuthDecision {
  import opened Bytes
  import AuthStack

  datatype AuthResult = Undefined | Ok | Failed | Released | Forbidden | NoMatch | UserAdded | UserExists | UserDeleted

  datatype MatchType = Unused | Match | NoMatchType

  /** What an authenticator may do to the request besides answering: rewrite its URI, or answer it with
      a redirect or an error. */
  datatype Alter = Noop | Rewrite(uri: string) | Respond

  datatype Answer = Answer(result: AuthResult, alter: Alter)

  type Acl = AuthStack.Acl
  type Command = nat

  datatype Authenticator = Authenticator(
    acl: Acl, busy: bool,
    filterMethod: nat -> MatchType,
    filterOrigin: seq<(string, MatchType)>, originPolicy: MatchType,
    webPolicy: MatchType, filterAdmin: seq<(MatchType, Command)>, adminPolicy: MatchType,
    answer: string -> Answer)

  /** A linked list of authenticators, as its first node or the null pointer. */
  datatype Stack = Null | Node(auth: Authenticator, next: Stack)

  function Len(s: Stack): nat {
    if s.Null? then 0 else 1 + Len(s.next)
  }

  datatype MountKind = Normal | Default

  /** The configuration: the stacks, the ACLs as policies, the command an admin URI names (unknown ones
      included), and whether a URI needs a password that the request lacks. */
  datatype Config = Config(
    listener: Stack, mount: (string, MountKind) -> Stack, global: Stack,
    deniesAdmin: (Acl, Command) -> bool, allowsMethod: (Acl, nat) -> bool,
    adminCommand: string -> Option<Option<Command>>, passMissing: string -> bool)

  /** The part of a request that the search looks at. */
  datatype Request = Request(uri: string, rm: nat, origin: string, command: Option<Command>)

  // ---------------------------------------------------------------- filters

  function OriginMatch(list: seq<(string, MatchType)>, origin: string, policy: MatchType): MatchType {
    if list == [] then policy else if list[0].0 == origin then list[0].1 else OriginMatch(list[1..], origin, policy)
  }

  function AdminMatch(list: seq<(MatchType, Command)>, command: Command, policy: MatchType): MatchType {
    if list == [] then policy
    else if list[0].0 != Unused && list[0].1 == command then list[0].0
    else AdminMatch(list[1..], command, policy)
  }

  /** The authenticator is not asked at all. */
  predicate Filtered(a: Authenticator, r: Request) {
    || a.filterMethod(r.rm) == NoMatchType
    || OriginMatch(a.filterOrigin, r.origin, a.originPolicy) == NoMatchType
    || (if r.command.None? then a.webPolicy else AdminMatch(a.filterAdmin, r.command.value, a.adminPolicy))
       == NoMatchType
  }

  /** The first entry of the list for this origin says `m`, or there is none and the policy says so. */
  ghost predicate OriginSays(list: seq<(string, MatchType)>, origin: string, policy: MatchType, m: MatchType) {
    || (m == policy && forall j :: 0 <= j < |list| ==> list[j].0 != origin)
    || exists i :: 0 <= i < |list| && list[i] == (origin, m) && forall j :: 0 <= j < i ==> list[j].0 != origin
  }

  /** The first used entry of the list for this command says `m`, or there is none and the policy says so. */
  ghost predicate AdminSays(list: seq<(MatchType, Command)>, command: Command, policy: MatchType, m: MatchType) {
    || (m == policy && forall j :: 0 <= j < |list| ==> list[j].0 == Unused || list[j].1 != command)
    || exists i :: 0 <= i < |list| && list[i] == (m, command) && m != Unused
                   && forall j :: 0 <= j < i ==> list[j].0 == Unused || list[j].1 != command
  }

  /** The request is one the authenticator is there for: none of its filters says no match. */
  ghost predicate Concerned(a: Authenticator, r: Request) {
    && a.filterMethod(r.rm) != NoMatchType
    && !OriginSays(a.filterOrigin, r.origin, a.originPolicy, NoMatchType)
    && (r.command.None? ==> a.webPolicy != NoMatchType)
    && (r.command.Some? ==> !AdminSays(a.filterAdmin, r.command.value, a.adminPolicy, NoMatchType))
  }

  lemma {:induction false} OriginMatchIs(list: seq<(string, MatchType)>, origin: string, policy: MatchType)
    ensures forall m :: OriginSays(list, origin, policy, m) <==> m == OriginMatch(list, origin, policy)
  {
    if list != [] {
      OriginMatchIs(list[1..], origin, policy);
      forall m
        ensures OriginSays(list, origin, policy, m) <==> m == OriginMatch(list, origin, policy)
      {
        if list[0].0 != origin {
          OriginShift(list, origin, policy, m);
        } else if m == list[0].1 {
          assert list[0] == (origin, m);
        }
      }
    }
  }

  lemma OriginShift(list: seq<(string, MatchType)>, origin: string, policy: MatchType, m: MatchType)
    requires list != [] && list[0].0 != origin
    ensures OriginSays(list, origin, policy, m) <==> OriginSays(list[1..], origin, policy, m)
  {
    var rest := list[1..];
    assert forall j :: 0 < j < |list| ==> list[j] == rest[j - 1];
    assert forall j :: 0 <= j < |rest| ==> rest[j] == list[j + 1];
    if i :| 0 <= i < |list| && list[i] == (origin, m) && forall j :: 0 <= j < i ==> list[j].0 != origin {
      assert rest[i - 1] == (origin, m);
    }
    if i :| 0 <= i < |rest| && rest[i] == (origin, m) && forall j :: 0 <= j < i ==> rest[j].0 != origin {
      assert list[i + 1] == (origin, m);
    }
  }

  lemma {:induction false} AdminMatchIs(list: seq<(MatchType, Command)>, command: Command, policy: MatchType)
    ensures forall m :: AdminSays(list, command, policy, m) <==> m == AdminMatch(list, command, policy)
  {
    if list != [] {
      AdminMatchIs(list[1..], command, policy);
      forall m
        ensures AdminSays(list, command, policy, m) <==> m == AdminMatch(list, command, policy)
      {
        if list[0].0 == Unused || list[0].1 != command {
          AdminShift(list, command, policy, m);
        } else if m == list[0].0 {
          assert list[0] == (m, command);
        }
      }
    }
  }

  lemma AdminShift(list: seq<(MatchType, Command)>, command: Command, policy: MatchType, m: MatchType)
    requires list != [] && (list[0].0 == Unused || list[0].1 != command)
    ensures AdminSays(list, command, policy, m) <==> AdminSays(list[1..], command, policy, m)
  {
    var rest := list[1..];
    assert forall j :: 0 < j < |list| ==> list[j] == rest[j - 1];
    assert forall j :: 0 <= j < |rest| ==> rest[j] == list[j + 1];
    if i :| 0 <= i < |list| && list[i] == (m, command) && m != Unused
            && forall j :: 0 <= j < i ==> list[j].0 == Unused || list[j].1 != command {
      assert rest[i - 1] == (m, command);
    }
    if i :| 0 <= i < |rest| && rest[i] == (m, command) && m != Unused
            && forall j :: 0 <= j < i ==> rest[j].0 == Unused || rest[j].1 != command {
      assert list[i + 1] == (m, command);
    }
  }

  /** An authenticator is passed over by its filters exactly when the request does not concern it. */
  lemma FilteredIff(a: Authenticator, r: Request)
    ensures Filtered(a, r) <==> !Concerned(a, r)
  {
    hide OriginSays, AdminSays, OriginMatch, AdminMatch;
    OriginMatchIs(a.filterOrigin, r.origin, a.originPolicy);
    if r.command.Some? {
      AdminMatchIs(a.filterAdmin, r.command.value, a.adminPolicy);
    }
  }

  // ---------------------------------------------------------------- the decision, stack by stack

  /** The authenticator passes the client on. */
  predicate Passes(a: Authenticator, r: Request) {
    !a.busy && (Filtered(a, r) || a.answer(r.uri).result == NoMatch)
  }

  /** The first node whose authenticator does not pass the client on. */
  function FirstSpeaker(s: Stack, r: Request): (t: Stack)
    ensures t.Node? ==> !Passes(t.auth, r)
  {
    if s.Null? || !Passes(s.auth, r) then s else FirstSpeaker(s.next, r)
  }

  /** `t` is a tail of `s`, and everything before it passes the client on. */
  ghost predicate PassedUpTo(s: Stack, t: Stack, r: Request) {
    s == t || (s.Node? && Passes(s.auth, r) && PassedUpTo(s.next, t, r))
  }

  datatype Verdict =
    | Open                                            // nobody has spoken
    | Cut                                             // the client has been answered: busy, redirect or error
    | Spoken(result: AuthResult, acl: Acl, uri: string)

  function StackVerdict(s: Stack, r: Request): Verdict {
    var t := FirstSpeaker(s, r);
    if t.Null? then Open
    else if t.auth.busy then Cut
    else
      var a := t.auth.answer(r.uri);
      match a.alter
      case Respond => Cut
      case Noop => Spoken(a.result, t.auth.acl, r.uri)
      case Rewrite(u) => Spoken(a.result, t.auth.acl, u)
  }

  /** Who speaks is the first of the stack that is asked and answers anything but no match. */
  lemma {:induction false} VerdictIsFirst(s: Stack, r: Request)
    ensures PassedUpTo(s, FirstSpeaker(s, r), r)
    ensures StackVerdict(s, r).Open? <==> FirstSpeaker(s, r).Null?
    ensures var v, t := StackVerdict(s, r), FirstSpeaker(s, r);
            v.Spoken? ==> !t.auth.busy && !Filtered(t.auth, r) && v.result == t.auth.answer(r.uri).result != NoMatch
                          && v.acl == t.auth.acl
  {
    if s.Node? && Passes(s.auth, r) {
      VerdictIsFirst(s.next, r);
    }
  }

  /** The authenticators of a stack, first to last. */
  function Listed(s: Stack): seq<Authenticator> {
    if s.Null? then [] else [s.auth] + Listed(s.next)
  }

  /** The authenticator has nothing to say: the request does not concern it, or it answers no match. */
  ghost predicate Silent(a: Authenticator, r: Request) {
    !a.busy && (!Concerned(a, r) || a.answer(r.uri).result == NoMatch)
  }

  /** What an authenticator that is not silent does: it is busy, or its answer stands, perhaps with another
      URI, or it answers the client itself. */
  ghost function Says(a: Authenticator, r: Request): Verdict {
    if a.busy then Cut
    else if a.answer(r.uri).alter.Respond? then Cut
    else Spoken(a.answer(r.uri).result, a.acl,
                if a.answer(r.uri).alter.Rewrite? then a.answer(r.uri).alter.uri else r.uri)
  }

  /** The verdict of a stack is what the first authenticator says that is not silent; open without one. */
  lemma {:induction false} VerdictOfFirst(s: Stack, r: Request) returns (k: nat)
    ensures k <= |Listed(s)| && forall j :: 0 <= j < k ==> Silent(Listed(s)[j], r)
    ensures k < |Listed(s)| ==> !Silent(Listed(s)[k], r) && StackVerdict(s, r) == Says(Listed(s)[k], r)
    ensures k == |Listed(s)| ==> StackVerdict(s, r) == Open
  {
    if s.Null? {
      k := 0;
    } else {
      FilteredIff(s.auth, r);
      hide Concerned, Filtered;
      if Passes(s.auth, r) {
        k := VerdictOfFirst(s.next, r);
        k := k + 1;
        assert forall j :: 0 < j < k ==> Listed(s)[j] == Listed(s.next)[j - 1];
      } else {
        k := 0;
      }
    }
  }

  /** A stack of counted nodes as a value, given what each authenticator in it is. */
  function StackOf(list: seq<AuthStack.Auth>, authOf: AuthStack.Auth -> Authenticator): Stack {
    if list == [] then Null else Node(authOf(list[0]), StackOf(list[1..], authOf))
  }

  /** Leading a client through the counted nodes finds the authenticator that speaks. */
  lemma {:induction false} AskFindsSpeaker(list: seq<AuthStack.Auth>, authOf: AuthStack.Auth -> Authenticator,
                                           r: Request)
    ensures var speaker := AuthStack.FirstSpeaking(list, (a: AuthStack.Auth) => Passes(authOf(a), r));
            var t := FirstSpeaker(StackOf(list, authOf), r);
            if speaker.None? then t.Null? else t.Node? && t.auth == authOf(speaker.value)
  {
    if list != [] {
      AskFindsSpeaker(list[1..], authOf, r);
    }
  }

  /** A mount's approval does not count when its ACL denies the admin command asked for. */
  predicate PassedOver(cfg: Config, r: Request, v: Verdict) {
    v.Open? || (v.Spoken? && v.result == Ok && r.command.Some? && cfg.deniesAdmin(v.acl, r.command.value))
  }

  function Moved(r: Request, v: Verdict): Request {
    if v.Spoken? then r.(uri := v.uri) else r
  }

  /** What decides: the listener's stack, then the mount's, the default mount's and the global one. Open
      means that nobody spoke in the end. */
  function Decide(cfg: Config, r: Request): Verdict {
    var l := StackVerdict(cfg.listener, r);
    if !l.Open? then l
    else
      var n := StackVerdict(cfg.mount(r.uri, Normal), r);
      if !PassedOver(cfg, r, n) then n
      else
        var r1 := Moved(r, n);
        var d := StackVerdict(cfg.mount(r1.uri, Default), r1);
        if !PassedOver(cfg, r1, d) then d
        else
          var r2 := Moved(r1, d);
          StackVerdict(cfg.global, r2)
  }

  /** The request as it stands when the decision falls. */
  function FinalRequest(cfg: Config, r: Request): Request {
    var n := StackVerdict(cfg.mount(r.uri, Normal), r);
    if !StackVerdict(cfg.listener, r).Open? || !PassedOver(cfg, r, n) then r
    else
      var r1 := Moved(r, n);
      var d := StackVerdict(cfg.mount(r1.uri, Default), r1);
      if !PassedOver(cfg, r1, d) then r1 else Moved(r1, d)
  }

  /** The admin command is looked up again, since authentication may have changed the URI; None when a
      password is missing. */
  function UpdateCommand(cfg: Config, r: Request): Option<Request> {
    if cfg.passMissing(r.uri) then None
    else Some(if cfg.adminCommand(r.uri).Some? then r.(command := cfg.adminCommand(r.uri).value) else r)
  }

  // ---------------------------------------------------------------- the search as it runs

  datatype Stage = MountNormal | MountDefault | Global | Final

  function Rank(k: Stage): nat {
    match k
    case MountNormal => 3
    case MountDefault => 2
    case Global => 1
    case Final => 0
  }

  /** What the server finally does with the client. */
  datatype Effect = Refused(result: AuthResult) | PassMissing | Dispatched(acl: Acl, uri: string,
    command: Option<Command>)

  /** The effect of a result on a request, under the ACL of an approval. */
  function Effective(cfg: Config, r: Request, result: AuthResult, acl: Option<Acl>): Effect
    requires result == Ok ==> acl.Some?
  {
    match UpdateCommand(cfg, r)
    case None => PassMissing
    case Some(q) =>
      if result == Ok && cfg.allowsMethod(acl.value, q.rm) then Dispatched(acl.value, q.uri, q.command)
        else Refused(result)
  }

  class Client {
    const cfg: Config
    var request: Request
    var acl: Option<Acl>
    var authstack: Stack
    var done: seq<Effect>

    constructor (c: Config, r: Request)
      ensures cfg == c && request == r && acl == None && authstack == Null && done == []
    {
      cfg, request, acl, authstack, done := c, r, None, Null, [];
    }

    method HandleAuthedClient(result: AuthResult)
      requires result == Ok ==> acl.Some?
      modifies this`authstack, this`request, this`done
      ensures done == old(done) + [Effective(cfg, old(request), result, acl)]
    {
      authstack := Null;
      if cfg.passMissing(request.uri) {
        done := done + [PassMissing];
        return;
      }
      if cfg.adminCommand(request.uri).Some? {
        request := request.(command := cfg.adminCommand(request.uri).value);
      }
      if result != Ok {
        done := done + [Refused(result)];
      } else if !cfg.allowsMethod(acl.value, request.rm) {
        done := done + [Refused(result)];
      } else {
        done := done + [Dispatched(acl.value, request.uri, request.command)];
      }
    }

    /** The effect of a verdict on a client that has not been handled yet. */
    static ghost function Settled(cfg: Config, r: Request, v: Verdict, reached: bool): seq<Effect> {
      match v
      case Cut => []
      case Open => if reached then [Effective(cfg, r, NoMatch, None)] else []
      case Spoken(result, acl, uri) => [Effective(cfg, r.(uri := uri), result, Some(acl))]
    }

    /** What is still to be decided once stage `k` has been given a result. */
    static ghost function Continue(cfg: Config, r: Request, v: Verdict, k: Stage): seq<Effect>
      decreases Rank(k)
    {
      if v.Cut? || k == Final then Settled(cfg, r, v, true)
      else if (if k == MountNormal then !v.Open? else !PassedOver(cfg, r, v)) then Settled(cfg, r, v, true)
      else
        var r' := Moved(r, v);
        match k
        case MountNormal => Continue(cfg, r', StackVerdict(cfg.mount(r'.uri, Normal), r'), MountDefault)
        case MountDefault => Continue(cfg, r', StackVerdict(cfg.mount(r'.uri, Default), r'), Global)
        case Global => if cfg.global.Null? then [] else Continue(cfg, r', StackVerdict(cfg.global, r'), Final)
    }

    /** The verdict that a result stands for: an approval has just set the client's ACL. */
    ghost predicate Stands(result: AuthResult, v: Verdict)
      reads this
    {
      && !v.Cut? && (result == NoMatch <==> v.Open?)
      && (v.Spoken? ==> v.result == result && v.uri == request.uri && (result == Ok ==> acl == Some(v.acl)))
    }

    /** Tries the authenticators of a stack from the front and gives the first answer to stage `k`. */
    method StackAddClient(stack: Stack, k: Stage)
      requires stack.Node? && (authstack.Null? || authstack == stack)
      modifies this
      ensures done == old(done) + Continue(cfg, old(request), StackVerdict(stack, old(request)), k)
      decreases Rank(k), Len(stack), 1
    {
      authstack := stack;
      var auth := stack.auth;
      if auth.busy {
        // the client is told so
        assert done + [] == done;
        return;
      }
      if Filtered(auth, request) {
        MoveForward(stack, k);
        return;
      }
      var answer := auth.answer(request.uri);
      if answer.result == Ok {
        acl := Some(auth.acl);
      }
      if answer.result == NoMatch {
        MoveForward(stack, k);
        return;
      }
      ghost var v, r := StackVerdict(stack, request), request;
      match answer.alter
      case Respond =>
        assert done + [] == done;
      case Noop =>
        OnResult(answer.result, k, v);
      case Rewrite(u) =>
        request := request.(uri := u);
        ContinueMoved(cfg, r, v, k);
        OnResult(answer.result, k, v);
    }

    static lemma ContinueMoved(cfg: Config, r: Request, v: Verdict, k: Stage)
      ensures Continue(cfg, Moved(r, v), v, k) == Continue(cfg, r, v, k)
    {
    }

    method MoveForward(stack: Stack, k: Stage)
      requires stack.Node? && authstack == stack && Passes(stack.auth, request)
      modifies this
      ensures done == old(done) + Continue(cfg, old(request), StackVerdict(stack, old(request)), k)
      decreases Rank(k), Len(stack), 0
    {
      assert StackVerdict(stack, request) == StackVerdict(stack.next, request);
      authstack := stack.next;
      if authstack.Node? {
        StackAddClient(authstack, k);
      } else {
        OnResult(NoMatch, k, Open);
      }
    }

    /** The continuation: stage `k` gets the result of the stack before it. */
    method OnResult(result: AuthResult, k: Stage, ghost v: Verdict)
      requires Stands(result, v)
      modifies this
      ensures done == old(done) + Continue(cfg, old(request), v, k)
      decreases Rank(k), 0, 0
    {
      authstack := Null;
      var denied := result == Ok && request.command.Some? && cfg.deniesAdmin(acl.value, request.command.value);
      if k == Final || (result != NoMatch && (k == MountNormal || !denied)) {
        HandleAuthedClient(result);
        return;
      }
      assert Moved(request, v) == request;
      match k
      case MountNormal => TryStack(cfg.mount(request.uri, Normal), MountDefault);
      case MountDefault => TryStack(cfg.mount(request.uri, Default), Global);
      case Global =>
        if cfg.global.Node? {
          StackAddClient(cfg.global, Final);
        } else {
          // without a global stack nothing is done
          assert done + [] == done;
        }
    }

    /** A missing stack answers for itself: no match. */
    method TryStack(stack: Stack, k: Stage)
      requires authstack.Null?
      modifies this
      ensures done == old(done) + Continue(cfg, old(request), StackVerdict(stack, old(request)), k)
      decreases Rank(k), Len(stack), 2
    {
      if stack.Node? {
        StackAddClient(stack, k);
      } else {
        OnResult(NoMatch, k, Open);
      }
    }

    /** The whole authentication of a client: what is done is what the decision stack by stack says. A client
        is handled at most once, and exactly once unless it has been answered on the way or nobody spoke and
        there is no global stack to turn to. */
    method HandleAuthentication()
      requires authstack.Null?
      modifies this
      ensures done == old(done)
              + Settled(cfg, FinalRequest(cfg, old(request)), Decide(cfg, old(request)), cfg.global.Node?)
      ensures var v := Decide(cfg, old(request));
              |done| == |old(done)| + if v.Spoken? || (v.Open? && cfg.global.Node?) then 1 else 0
    {
      ContinueIsDecide(cfg, request);
      TryStack(cfg.listener, MountNormal);
    }

    static lemma ContinueIsDecide(cfg: Config, r: Request)
      ensures Continue(cfg, r, StackVerdict(cfg.listener, r), MountNormal)
              == Settled(cfg, FinalRequest(cfg, r), Decide(cfg, r), cfg.global.Node?)
    {
      var l := StackVerdict(cfg.listener, r);
      hide StackVerdict;
      if l.Open? {
        var n := StackVerdict(cfg.mount(r.uri, Normal), r);
        if !n.Cut? && PassedOver(cfg, r, n) {
          var r1 := Moved(r, n);
          var d := StackVerdict(cfg.mount(r1.uri, Default), r1);
          if !d.Cut? && PassedOver(cfg, r1, d) {
            var r2 := Moved(r1, d);
            NullIsOpen(cfg.global, r2);
            assert Continue(cfg, r1, d, Global) == if cfg.global.Null? then []
                   else Settled(cfg, r2, StackVerdict(cfg.global, r2), true);
          }
        }
      }
    }

    static lemma NullIsOpen(s: Stack, r: Request)
      ensures s.Null? ==> StackVerdict(s, r) == Open
    {
    }
  }

  /** The four places a stack is taken from. */
  datatype Place = Listener | OnMount(kind: MountKind) | Everywhere

  function StackAt(cfg: Config, place: Place, uri: string): Stack {
    match place
    case Listener => cfg.listener
    case OnMount(kind) => cfg.mount(uri, kind)
    case Everywhere => cfg.global
  }

  /** The place that decides, and the request as it stood then. It is the first: nobody spoke at the
      listener, and the mounts before it were open or gave an approval that does not cover the admin
      command. A mount only decides with an approval that does. */
  lemma Decider(cfg: Config, r: Request) returns (place: Place, q: Request)
    requires Decide(cfg, r).Spoken?
    ensures StackVerdict(StackAt(cfg, place, q.uri), q) == Decide(cfg, r)
            && q == r.(uri := q.uri) == FinalRequest(cfg, r)
    ensures place.OnMount? ==> !PassedOver(cfg, q, Decide(cfg, r))
    ensures place == Listener || place == OnMount(Normal) ==> q == r
    ensures place != Listener ==> StackVerdict(cfg.listener, r).Open?
    ensures var n := StackVerdict(cfg.mount(r.uri, Normal), r);
            var r1 := Moved(r, n);
            var d := StackVerdict(cfg.mount(r1.uri, Default), r1);
            && (place == OnMount(Default) ==> PassedOver(cfg, r, n) && q == r1)
            && (place == Everywhere ==> PassedOver(cfg, r, n) && PassedOver(cfg, r1, d) && q == Moved(r1, d))
  {
    hide StackVerdict;
    var n := StackVerdict(cfg.mount(r.uri, Normal), r);
    var r1 := Moved(r, n);
    var d := StackVerdict(cfg.mount(r1.uri, Default), r1);
    if !StackVerdict(cfg.listener, r).Open? {
      place, q := Listener, r;
    } else if !PassedOver(cfg, r, n) {
      place, q := OnMount(Normal), r;
    } else if !PassedOver(cfg, r1, d) {
      place, q := OnMount(Default), r1;
    } else {
      place, q := Everywhere, Moved(r1, d);
    }
  }

  /** A handler runs only for an approval: an authenticator that the request concerns approved the client,
      and all before it in its stack were silent; the handler runs under the ACL of that authenticator, with the
      method allowed, with the command its final URI names and, if the stack is a mount's, with the command asked
      for not denied. */
  lemma DispatchIsApproved(cfg: Config, r: Request, acl: Acl, uri: string, command: Option<Command>)
    returns (place: Place, q: Request, k: nat)
    requires Dispatched(acl, uri, command)
             in Client.Settled(cfg, FinalRequest(cfg, r), Decide(cfg, r), cfg.global.Node?)
    ensures cfg.allowsMethod(acl, r.rm) && !cfg.passMissing(uri)
    ensures command == if cfg.adminCommand(uri).Some? then cfg.adminCommand(uri).value else r.command
    ensures q == r.(uri := q.uri)
    ensures var list := Listed(StackAt(cfg, place, q.uri));
            && k < |list| && (forall j :: 0 <= j < k ==> Silent(list[j], q))
            && !list[k].busy && list[k].answer(q.uri).result == Ok && list[k].acl == acl
    ensures var a := Listed(StackAt(cfg, place, q.uri))[k];
            && a.filterMethod(r.rm) != NoMatchType
            && !OriginSays(a.filterOrigin, r.origin, a.originPolicy, NoMatchType)
            && (r.command.None? ==> a.webPolicy != NoMatchType)
            && (r.command.Some? ==> !AdminSays(a.filterAdmin, r.command.value, a.adminPolicy, NoMatchType))
    ensures place.OnMount? && r.command.Some? ==> !cfg.deniesAdmin(acl, r.command.value)
  {
    place, q := Decider(cfg, r);
    k := VerdictOfFirst(StackAt(cfg, place, q.uri), q);
  }

  // ---------------------------------------------------------------- from the configuration to the effect

  /** The authenticator at `k` is the first of the stack that is not silent. */
  ghost predicate SpeaksAt(s: Stack, r: Request, k: nat) {
    k < |Listed(s)| && (forall j :: 0 <= j < k ==> Silent(Listed(s)[j], r)) && !Silent(Listed(s)[k], r)
  }

  ghost predicate AllSilent(s: Stack, r: Request) {
    forall j :: 0 <= j < |Listed(s)| ==> Silent(Listed(s)[j], r)
  }

  /** The URI after an authenticator has answered. */
  function NewUri(a: Authenticator, r: Request): string {
    if a.answer(r.uri).alter.Rewrite? then a.answer(r.uri).alter.uri else r.uri
  }

  /** An approval that does not cover the admin command asked for. */
  predicate TooWeak(cfg: Config, a: Authenticator, r: Request) {
    && !a.busy && a.answer(r.uri).result == Ok && !a.answer(r.uri).alter.Respond?
    && r.command.Some? && cfg.deniesAdmin(a.acl, r.command.value)
  }

  /** The stack of a mount leaves the client to the next place: nobody speaks, or the approval is too weak. */
  ghost predicate Leaves(cfg: Config, s: Stack, r: Request, q: Request) {
    || (q == r && AllSilent(s, r))
    || exists k: nat :: SpeaksAt(s, r, k) && TooWeak(cfg, Listed(s)[k], r) && q == r.(uri := NewUri(Listed(s)[k], r))
  }

  /** The client comes to this place, with its request as it then stands. */
  ghost predicate ComesTo(cfg: Config, r: Request, place: Place, q: Request) {
    match place
    case Listener => q == r
    case OnMount(Normal) => q == r && AllSilent(cfg.listener, r)
    case OnMount(Default) => AllSilent(cfg.listener, r) && Leaves(cfg, cfg.mount(r.uri, Normal), r, q)
    case Everywhere =>
      && AllSilent(cfg.listener, r)
      && exists m: Request :: Leaves(cfg, cfg.mount(r.uri, Normal), r, m)
                              && Leaves(cfg, cfg.mount(m.uri, Default), m, q)
  }

  lemma SilentIsOpen(s: Stack, r: Request)
    ensures AllSilent(s, r) <==> StackVerdict(s, r) == Open
  {
    hide StackVerdict, Silent;
    var k := VerdictOfFirst(s, r);
  }

  lemma SpeakerSays(s: Stack, r: Request, k: nat)
    requires SpeaksAt(s, r, k)
    ensures StackVerdict(s, r) == Says(Listed(s)[k], r)
  {
    hide StackVerdict, Silent, Says;
    var n := VerdictOfFirst(s, r);
    assert n == k;
  }

  lemma LeavesIs(cfg: Config, s: Stack, r: Request, q: Request)
    requires Leaves(cfg, s, r, q)
    ensures PassedOver(cfg, r, StackVerdict(s, r)) && q == Moved(r, StackVerdict(s, r))
  {
    hide StackVerdict, Silent;
    SilentIsOpen(s, r);
    if !AllSilent(s, r) {
      var k: nat :| SpeaksAt(s, r, k) && TooWeak(cfg, Listed(s)[k], r) && q == r.(uri := NewUri(Listed(s)[k], r));
      SpeakerSays(s, r, k);
    }
  }

  /** When a client comes to a place, that is where it is decided unless it is passed on again. */
  lemma ComesToIs(cfg: Config, r: Request, place: Place, q: Request)
    requires ComesTo(cfg, r, place, q)
    ensures var v := StackVerdict(StackAt(cfg, place, q.uri), q);
            (if place == Listener then !v.Open? else place.OnMount? ==> !PassedOver(cfg, q, v)) ==>
              Decide(cfg, r) == v && (!v.Cut? ==> FinalRequest(cfg, r) == q)
  {
    hide StackVerdict, Leaves, AllSilent, PassedOver;
    SilentIsOpen(cfg.listener, r);
    match place
    case Listener =>
    case OnMount(Normal) =>
    case OnMount(Default) => LeavesIs(cfg, cfg.mount(r.uri, Normal), r, q);
    case Everywhere =>
      var m :| Leaves(cfg, cfg.mount(r.uri, Normal), r, m) && Leaves(cfg, cfg.mount(m.uri, Default), m, q);
      LeavesIs(cfg, cfg.mount(r.uri, Normal), r, m);
      LeavesIs(cfg, cfg.mount(m.uri, Default), m, q);
  }

  /** What becomes of a client: it is decided by the first authenticator that speaks at the place it comes to,
      unless that is a mount's whose approval is too weak. A busy one and one that answers by itself end the
      matter; an approval is dispatched if its ACL allows the method; all else is refused. */
  lemma SpeakerDecides(cfg: Config, r: Request, place: Place, q: Request, k: nat)
    requires ComesTo(cfg, r, place, q) && SpeaksAt(StackAt(cfg, place, q.uri), q, k)
    requires place.OnMount? ==> !TooWeak(cfg, Listed(StackAt(cfg, place, q.uri))[k], q)
    ensures var a := Listed(StackAt(cfg, place, q.uri))[k];
            var (result, uri) := (a.answer(q.uri).result, NewUri(a, q));
            Client.Settled(cfg, FinalRequest(cfg, r), Decide(cfg, r), cfg.global.Node?)
            == if a.busy || a.answer(q.uri).alter.Respond? then []
               else if cfg.passMissing(uri) then [PassMissing]
               else if result != Ok || !cfg.allowsMethod(a.acl, r.rm) then [Refused(result)]
               else [Dispatched(a.acl, uri,
                                if cfg.adminCommand(uri).Some? then cfg.adminCommand(uri).value else r.command)]
  {
    SameRest(cfg, r, place, q);
    SpeakerSays(StackAt(cfg, place, q.uri), q, k);
    hide StackVerdict, Silent, SpeaksAt, ComesTo, Decide, FinalRequest, Listed;
    ComesToIs(cfg, r, place, q);
  }

  /** Nobody speaks anywhere: the client is refused, but without a global stack nothing is done. */
  lemma NobodySpeaks(cfg: Config, r: Request, q: Request)
    requires ComesTo(cfg, r, Everywhere, q) && AllSilent(cfg.global, q)
    ensures Client.Settled(cfg, FinalRequest(cfg, r), Decide(cfg, r), cfg.global.Node?)
            == if cfg.global.Null? then [] else if cfg.passMissing(q.uri) then [PassMissing] else [Refused(NoMatch)]
  {
    SilentIsOpen(cfg.global, q);
    hide StackVerdict, Silent, SpeaksAt, ComesTo, Decide, FinalRequest, Listed, AllSilent;
    ComesToIs(cfg, r, Everywhere, q);
  }

  /** On the way only the URI of a request changes. */
  lemma SameRest(cfg: Config, r: Request, place: Place, q: Request)
    requires ComesTo(cfg, r, place, q)
    ensures q == r.(uri := q.uri)
  {
    hide Silent, AllSilent, SpeaksAt, TooWeak, NewUri;
  }
}
