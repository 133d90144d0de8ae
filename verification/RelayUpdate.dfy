/** Bringing the list of relays in line with an updated configuration (slave.c). Relays live at addresses
    and are linked through their next pointers; the list is relinked in place. */
module RelayUpdate {
  import opened Bytes
  import opened LinkedLists

  datatype Upstream = Upstream(server: Option<string>, port: int, mount: Option<string>, username: Option<string>,
                               password: Option<string>, bind: Option<string>, mp3metadata: int)

  datatype Config = Config(localmount: string, onDemand: int, upstreams: seq<Upstream>, byDefault: Upstream)

  type Configs = map<Ptr, Config>

  /** The part of an upstream whose change makes a restart necessary. */
  datatype Address = Address(server: Option<string>, port: int, mount: Option<string>, mp3metadata: int)

  /** What a relay is: its mount point and where its stream comes from. */
  datatype Identity = Identity(localmount: string, upstreams: seq<Address>, byDefault: Address)

  function AddressOf(u: Upstream): Address {
    Address(u.server, u.port, u.mount, u.mp3metadata)
  }

  function AddressesOf(us: seq<Upstream>): (r: seq<Address>)
    ensures |r| == |us| && forall i :: 0 <= i < |us| ==> r[i] == AddressOf(us[i])
  {
    seq(|us|, i requires 0 <= i < |us| => AddressOf(us[i]))
  }

  function IdentityOf(c: Config): Identity {
    Identity(c.localmount, AddressesOf(c.upstreams), AddressOf(c.byDefault))
  }

  /** The private copy a new relay gets; the bind address is not taken over. */
  function CopyUpstream(u: Upstream): Upstream {
    u.(bind := None)
  }

  function CopyConfig(c: Config): Config {
    Config(c.localmount, c.onDemand,
      seq(|c.upstreams|, i requires 0 <= i < |c.upstreams| => CopyUpstream(c.upstreams[i])),
           CopyUpstream(c.byDefault))
  }

  predicate SameCredentials(a: Upstream, b: Upstream) {
    a.username == b.username && a.password == b.password
  }

  /** A configuration never differs from a relay made from it, which logs in with the same credentials. */
  lemma CopyKeepsIdentity(c: Config)
    ensures IdentityOf(CopyConfig(c)) == IdentityOf(c) && CopyConfig(c).onDemand == c.onDemand
    ensures |CopyConfig(c).upstreams| == |c.upstreams| && SameCredentials(CopyConfig(c).byDefault, c.byDefault)
    ensures forall i :: 0 <= i < |c.upstreams| ==> SameCredentials(CopyConfig(c).upstreams[i], c.upstreams[i])
  {
    assert AddressesOf(CopyConfig(c).upstreams) == AddressesOf(c.upstreams);
  }

  /** Two upstreams lead to the same place: credentials and bind address do not count. */
  predicate SameAddress(a: Upstream, b: Upstream) {
    a.server == b.server && a.port == b.port && a.mount == b.mount && a.mp3metadata == b.mp3metadata
  }

  /** Two configurations take their stream from the same places, tried in the same order. */
  ghost predicate SameSource(a: Config, b: Config) {
    && |a.upstreams| == |b.upstreams| && SameAddress(a.byDefault, b.byDefault)
    && forall i :: 0 <= i < |a.upstreams| ==> SameAddress(a.upstreams[i], b.upstreams[i])
  }

  /** Two configurations ask for the same relay. */
  ghost predicate Agree(a: Config, b: Config) {
    a.localmount == b.localmount && SameSource(a, b)
  }

  lemma SameSourceIff(a: Config, b: Config)
    ensures SameSource(a, b) <==>
            IdentityOf(a).upstreams == IdentityOf(b).upstreams && IdentityOf(a).byDefault == IdentityOf(b).byDefault
    ensures Agree(a, b) <==> IdentityOf(a) == IdentityOf(b)
  {
    if SameSource(a, b) {
      assert AddressesOf(a.upstreams) == AddressesOf(b.upstreams);
    }
    if IdentityOf(a).upstreams == IdentityOf(b).upstreams {
      forall i | 0 <= i < |a.upstreams|
        ensures SameAddress(a.upstreams[i], b.upstreams[i])
      {
        assert AddressesOf(a.upstreams)[i] == AddressesOf(b.upstreams)[i];
      }
    }
  }

  // ---------------------------------------------------------------- the comparison

  method UpstreamChanged(new': Upstream, old': Upstream) returns (changed: bool)
    ensures changed <==>
            || new'.server != old'.server || new'.port != old'.port || new'.mount != old'.mount
            || new'.mp3metadata != old'.mp3metadata
    ensures changed <==> AddressOf(new') != AddressOf(old')
  {
    if new'.mp3metadata != old'.mp3metadata {
      return true;
    }
    if new'.server != old'.server || new'.port != old'.port {
      return true;
    }
    if new'.mount != old'.mount {
      return true;
    }
    return false;
  }

  /** Whether a relay needs to be restarted; if not, it takes over the on-demand setting. */
  method RelayChanged(new': Config, old': Config) returns (changed: bool, kept: Config)
    ensures changed <==> !SameSource(new', old')
    ensures changed <==>
            || IdentityOf(new').upstreams != IdentityOf(old').upstreams
            || IdentityOf(new').byDefault != IdentityOf(old').byDefault
    ensures kept == if changed then old' else old'.(onDemand := new'.onDemand)
  {
    kept := old';
    SameSourceIff(new', old');
    if |new'.upstreams| != |old'.upstreams| {
      return true, kept;
    }
    for i := 0 to |new'.upstreams|
      invariant AddressesOf(new'.upstreams)[..i] == AddressesOf(old'.upstreams)[..i]
      invariant kept == old'
    {
      var differs := UpstreamChanged(new'.upstreams[i], old'.upstreams[i]);
      if differs {
        assert AddressesOf(new'.upstreams)[i] != AddressesOf(old'.upstreams)[i];
        return true, kept;
      }
    }
    var differs := UpstreamChanged(new'.byDefault, old'.byDefault);
    if differs {
      return true, kept;
    }
    kept := kept.(onDemand := new'.onDemand);
    return false, kept;
  }

  // ---------------------------------------------------------------- what is kept

  predicate Fits(configs: Configs, p: Ptr, c: Config) {
    p in configs && IdentityOf(configs[p]) == IdentityOf(c)
  }

  /** The position of the first relay that fits, or the length of the list. */
  function Pick(list: seq<Ptr>, configs: Configs, c: Config): (i: nat)
    ensures i <= |list| && (i < |list| ==> Fits(configs, list[i], c))
    ensures forall j :: 0 <= j < i ==> !Fits(configs, list[j], c)
  {
    if list == [] || Fits(configs, list[0], c) then 0 else 1 + Pick(list[1..], configs, c)
  }

  function Leave(list: seq<Ptr>, i: nat): seq<Ptr> {
    if i < |list| then list[..i] + list[i + 1..] else list
  }

  /** The relays no configuration has claimed. */
  function Remaining(list: seq<Ptr>, configs: Configs, updated: seq<Config>): seq<Ptr> {
    if updated == [] then list
    else
      var n := |updated| - 1;
      var r := Remaining(list, configs, updated[..n]);
      Leave(r, Pick(r, configs, updated[n]))
  }

  /** The relay an entry of the configuration claims, if there is one. */
  function Claimed(list: seq<Ptr>, configs: Configs, updated: seq<Config>, i: nat): Option<Ptr>
    requires i < |updated|
  {
    var r := Remaining(list, configs, updated[..i]);
    At(r, Pick(r, configs, updated[i]))
  }

  /** The new list, latest entry first; entries without a relay get a new one at the given address. */
  function Active(list: seq<Ptr>, configs: Configs, updated: seq<Config>, addresses: seq<Ptr>): (r: seq<Ptr>)
    requires |addresses| == |updated|
    ensures |r| == |updated|
  {
    if updated == [] then []
    else
      var n := |updated| - 1;
      var claimed := Claimed(list, configs, updated, n);
      [if claimed.Some? then claimed.value else addresses[n]] + Active(list, configs, updated[..n], addresses[..n])
  }

  function ConfigsAfter(list: seq<Ptr>, configs: Configs, updated: seq<Config>, addresses: seq<Ptr>): (r: Configs)
    requires |addresses| == |updated|
    ensures configs.Keys <= r.Keys
  {
    if updated == [] then configs
    else
      var n := |updated| - 1;
      var before := ConfigsAfter(list, configs, updated[..n], addresses[..n]);
      var claimed := Claimed(list, configs, updated, n);
      if claimed.Some? && claimed.value in before
        then before[claimed.value := before[claimed.value].(onDemand := updated[n].onDemand)]
      else before[addresses[n] := CopyConfig(updated[n])]
  }

  // ---------------------------------------------------------------- properties

  ghost predicate FreshFor(addresses: seq<Ptr>, list: seq<Ptr>) {
    Distinct(addresses) && Apart(addresses, list)
  }

  /** The relays that are not in the other list, in order. */
  ghost function Without(list: seq<Ptr>, other: seq<Ptr>): seq<Ptr> {
    if list == [] then []
    else (if list[0] in other then [] else [list[0]]) + Without(list[1..], other)
  }

  lemma LeaveDistinct(list: seq<Ptr>, i: nat)
    requires Distinct(list) && i < |list|
    ensures Distinct(Leave(list, i)) && list[i] !in Leave(list, i)
    ensures forall p :: p in list <==> p == list[i] || p in Leave(list, i)
  {
    assert list == list[..i] + [list[i]] + list[i + 1..];
    WithoutOne(list[..i], list[i], list[i + 1..]);
  }

  lemma LeaveCons(list: seq<Ptr>, i: nat)
    requires i < |list|
    ensures Leave(list, i) == if i == 0 then list[1..] else [list[0]] + Leave(list[1..], i - 1)
  {
  }

  lemma {:induction false} WithoutMore(list: seq<Ptr>, a: seq<Ptr>, p: Ptr)
    ensures Without(list, [p] + a) == Without(Without(list, a), [p])
  {
    if list != [] {
      WithoutMore(list[1..], a, p);
      if list[0] !in a {
        assert ([list[0]] + Without(list[1..], a))[1..] == Without(list[1..], a);
      } else {
        assert [] + Without(list[1..], a) == Without(list[1..], a);
        assert [] + Without(list[1..], [p] + a) == Without(list[1..], [p] + a);
      }
    }
  }

  lemma {:induction false} WithoutOneOf(list: seq<Ptr>, i: nat)
    requires Distinct(list) && i < |list|
    ensures Without(list, [list[i]]) == Leave(list, i)
  {
    if i == 0 {
      WithoutNone(list[1..], [list[0]]);
      assert [] + list[1..] == list[1..];
    } else {
      LeaveCons(list, i);
      hide Leave;
      assert list[i] == list[1..][i - 1];
      WithoutOneOf(list[1..], i - 1);
    }
  }

  lemma {:induction false} WithoutNone(list: seq<Ptr>, other: seq<Ptr>)
    requires Apart(list, other)
    ensures Without(list, other) == list
  {
    if list != [] {
      assert list[0] in list;
      WithoutNone(list[1..], other);
    }
  }

  /** The old list is split: a relay is kept or cleaned up, never both; the ones to clean up keep their
      order, no relay is used twice and the new ones are at the fresh addresses. */
  ghost predicate Split(list: seq<Ptr>, active: seq<Ptr>, rest: seq<Ptr>, addresses: seq<Ptr>) {
    && Distinct(active) && Distinct(rest) && rest == Without(list, active)
    && Members(active) !! Members(rest)
    && Members(list) == Members(rest) + (Members(active) - Members(addresses))
    && Members(active) <= Members(list) + Members(addresses)
  }

  lemma MembersAre(p: Ptr, a: seq<Ptr>)
    ensures p in Members(a) <==> p in a
    ensures Members([p] + a) == {p} + Members(a) && Members(a + [p]) == Members(a) + {p}
  {
  }

  lemma DistinctCons(p: Ptr, a: seq<Ptr>)
    requires Distinct(a) && p !in a
    ensures Distinct([p] + a)
  {
  }

  lemma MembersLeave(list: seq<Ptr>, i: nat)
    requires Distinct(list) && i < |list|
    ensures Members(Leave(list, i)) == Members(list) - {list[i]} && list[i] in Members(list)
  {
    LeaveDistinct(list, i);
  }

  lemma SplitTake(list: seq<Ptr>, a: seq<Ptr>, r: seq<Ptr>, i: nat, fewer: seq<Ptr>, q: Ptr)
    requires Split(list, a, r, fewer) && i < |r| && q !in list && q !in fewer && Members(fewer) !! Members(list)
    ensures Split(list, [r[i]] + a, Leave(r, i), fewer + [q])
  {
    LeaveDistinct(r, i);
    MembersLeave(r, i);
    WithoutMore(list, a, r[i]);
    WithoutOneOf(r, i);
    MembersAre(r[i], a);
    MembersAre(q, fewer);
    MembersAre(q, list);
    DistinctCons(r[i], a);
    hide Without, Leave, Members, Distinct;
  }

  lemma SplitNew(list: seq<Ptr>, a: seq<Ptr>, r: seq<Ptr>, fewer: seq<Ptr>, q: Ptr)
    requires Split(list, a, r, fewer) && q !in list && q !in fewer
    ensures Split(list, [q] + a, r, fewer + [q])
  {
    MembersAre(q, a);
    MembersAre(q, fewer);
    MembersAre(q, list);
    MembersAre(q, r);
    assert q !in Members(r) && q !in Members(a);
    DistinctCons(q, a);
    WithoutMore(list, a, q);
    WithoutNone(r, [q]);
    hide Without, Members, Distinct;
  }

  lemma {:induction false} Partition(list: seq<Ptr>, configs: Configs, updated: seq<Config>, addresses: seq<Ptr>)
    requires Distinct(list) && |addresses| == |updated| && FreshFor(addresses, list)
    ensures Split(list, Active(list, configs, updated, addresses), Remaining(list, configs, updated), addresses)
  {
    if updated == [] {
      WithoutNone(list, []);
    } else {
      var n := |updated| - 1;
      var fewer := addresses[..n];
      assert addresses == fewer + [addresses[n]] && addresses[n] !in fewer && Members(fewer) !! Members(list);
      Partition(list, configs, updated[..n], fewer);
      hide Split, Members;
      var a, r := Active(list, configs, updated[..n], fewer), Remaining(list, configs, updated[..n]);
      var i := Pick(r, configs, updated[n]);
      if i < |r| {
        SplitTake(list, a, r, i, fewer, addresses[n]);
      } else {
        SplitNew(list, a, r, fewer, addresses[n]);
      }
    }
  }

  // ---------------------------------------------------------------- which relays remain

  ghost function Identities(list: seq<Ptr>, configs: Configs): multiset<Identity>
    requires forall p :: p in list ==> p in configs
  {
    if list == [] then multiset{}
    else multiset{IdentityOf(configs[list[0]])} + Identities(list[1..], configs)
  }

  ghost function Wanted(updated: seq<Config>): multiset<Identity> {
    if updated == [] then multiset{}
    else Wanted(updated[..|updated| - 1]) + multiset{IdentityOf(updated[|updated| - 1])}
  }

  lemma {:induction false} IdentitiesLeave(list: seq<Ptr>, configs: Configs, i: nat)
    requires i < |list| && forall p :: p in list ==> p in configs
    ensures (forall p :: p in Leave(list, i) ==> p in configs) && list[i] in configs
    ensures Identities(list, configs) == Identities(Leave(list, i), configs) + multiset{IdentityOf(configs[list[i]])}
  {
    LeaveCons(list, i);
    if i > 0 {
      var rest := Leave(list[1..], i - 1);
      IdentitiesLeave(list[1..], configs, i - 1);
      hide Leave;
      assert ([list[0]] + rest)[1..] == rest;
    }
  }

  lemma {:induction false} IdentityAbsent(list: seq<Ptr>, configs: Configs, c: Config)
    requires (forall p :: p in list ==> p in configs) && forall j :: 0 <= j < |list| ==> !Fits(configs, list[j], c)
    ensures IdentityOf(c) !in Identities(list, configs)
  {
    if list != [] {
      assert !Fits(configs, list[0], c);
      IdentityAbsent(list[1..], configs, c);
    }
  }

  lemma LeaveNone(list: seq<Ptr>)
    ensures Leave(list, |list|) == list
  {
  }

  lemma MinusMore<T>(less: multiset<T>, x: T, a: multiset<T>, w: multiset<T>)
    requires less + multiset{x} == a - w
    ensures less == a - (w + multiset{x})
  {
    forall y: T
      ensures less[y] == (a - (w + multiset{x}))[y]
    {
      assert (less + multiset{x})[y] == (a - w)[y];
    }
  }

  lemma MinusAbsent<T>(x: T, a: multiset<T>, w: multiset<T>)
    requires x !in a - w
    ensures a - w == a - (w + multiset{x})
  {
    forall y: T
      ensures (a - w)[y] == (a - (w + multiset{x}))[y]
    {
      assert (a - w)[x] == 0;
    }
  }

  /** Counted by identity, the relays to clean up are the old ones less the configured ones: no relay is
      stopped that a configuration still asks for, and none is kept beyond what is asked for. */
  lemma {:induction false} RemainingIsDifference(list: seq<Ptr>, configs: Configs, updated: seq<Config>)
    requires forall p :: p in list ==> p in configs
    ensures forall p :: p in Remaining(list, configs, updated) ==> p in configs
    ensures Identities(Remaining(list, configs, updated), configs) == Identities(list, configs) - Wanted(updated)
  {
    if updated != [] {
      var n := |updated| - 1;
      var r := Remaining(list, configs, updated[..n]);
      RemainingIsDifference(list, configs, updated[..n]);
      var i := Pick(r, configs, updated[n]);
      hide Leave, Identities;
      if i < |r| {
        IdentitiesLeave(r, configs, i);
        MinusMore(Identities(Leave(r, i), configs), IdentityOf(updated[n]), Identities(list, configs),
          Wanted(updated[..n]));
      } else {
        IdentityAbsent(r, configs, updated[n]);
        assert Leave(r, i) == r by {
          LeaveNone(r);
        }
        MinusAbsent(IdentityOf(updated[n]), Identities(list, configs), Wanted(updated[..n]));
      }
    }
  }

  lemma {:induction false} RemainingShrinks(list: seq<Ptr>, configs: Configs, updated: seq<Config>, i: nat)
    requires i <= |updated|
    ensures forall p :: p in Remaining(list, configs, updated) ==> p in Remaining(list, configs, updated[..i])
  {
    if i < |updated| {
      var n := |updated| - 1;
      assert updated[..n][..i] == updated[..i];
      RemainingShrinks(list, configs, updated[..n], i);
    } else {
      assert updated[..i] == updated;
    }
  }

  /** A configuration gets a new relay only if no relay that agrees with it is stopped, and it never takes a
      relay that does not agree. */
  lemma ClaimedRight(list: seq<Ptr>, configs: Configs, updated: seq<Config>, i: nat)
    requires i < |updated| && forall p :: p in list ==> p in configs
    ensures var claimed := Claimed(list, configs, updated, i);
            && (claimed.Some? ==> claimed.value in configs && Agree(configs[claimed.value], updated[i]))
            && forall p :: claimed.None? && p in Remaining(list, configs, updated) ==>
              p in configs && !Agree(configs[p], updated[i])
  {
    var r := Remaining(list, configs, updated[..i]);
    var k := Pick(r, configs, updated[i]);
    RemainingShrinks(list, configs, updated, i);
    RemainingIsDifference(list, configs, updated[..i]);
    if k < |r| {
      SameSourceIff(configs[r[k]], updated[i]);
    }
    forall p | k == |r| && p in Remaining(list, configs, updated)
      ensures p in configs && !Agree(configs[p], updated[i])
    {
      var j :| 0 <= j < |r| && r[j] == p;
      assert !Fits(configs, r[j], updated[i]);
      SameSourceIff(configs[p], updated[i]);
    }
  }

  // ---------------------------------------------------------------- what the relays are

  /** The relay serves this configuration: a kept one is the old one with the new on-demand setting, a new
      one is a copy. */
  ghost predicate RightFor(configs: Configs, c: Config, p: Ptr, after: Configs) {
    && p in after && Agree(after[p], c) && after[p].onDemand == c.onDemand
    && after[p] == if p in configs then configs[p].(onDemand := c.onDemand) else CopyConfig(c)
  }

  /** Each entry is served by its own relay, and relays that are not active are left as they were. */
  ghost predicate Right(configs: Configs, updated: seq<Config>, active: seq<Ptr>, after: Configs) {
    && |active| == |updated|
    && (forall i :: 0 <= i < |updated| ==> RightFor(configs, updated[i], active[|updated| - 1 - i], after))
    && (forall p :: p in configs && p !in active ==> p in after && after[p] == configs[p])
  }

  lemma RightStep(configs: Configs, updated: seq<Config>, a: seq<Ptr>, before: Configs, c: Config, p: Ptr, x: Config)
    requires Right(configs, updated, a, before) && p !in a && RightFor(configs, c, p, before[p := x])
    ensures Right(configs, updated + [c], [p] + a, before[p := x])
  {
    var n := |updated|;
    forall i | 0 <= i < n + 1
      ensures RightFor(configs, (updated + [c])[i], ([p] + a)[n - i], before[p := x])
    {
      if i < n {
        assert RightFor(configs, updated[i], a[n - 1 - i], before);
        assert ([p] + a)[n - i] == a[n - 1 - i];
      }
    }
  }

  lemma RightKept(configs: Configs, updated: seq<Config>, a: seq<Ptr>, before: Configs, c: Config, p: Ptr)
    requires Right(configs, updated, a, before) && p !in a && Fits(configs, p, c)
    ensures p in before && Right(configs, updated + [c], [p] + a, before[p := before[p].(onDemand := c.onDemand)])
  {
    SameSourceIff(configs[p].(onDemand := c.onDemand), c);
    RightStep(configs, updated, a, before, c, p, configs[p].(onDemand := c.onDemand));
  }

  lemma RightNew(configs: Configs, updated: seq<Config>, a: seq<Ptr>, before: Configs, c: Config, p: Ptr)
    requires Right(configs, updated, a, before) && p !in a && p !in configs
    ensures Right(configs, updated + [c], [p] + a, before[p := CopyConfig(c)])
  {
    CopyKeepsIdentity(c);
    SameSourceIff(CopyConfig(c), c);
    RightStep(configs, updated, a, before, c, p, CopyConfig(c));
  }

  lemma NotActive(list: seq<Ptr>, a: seq<Ptr>, r: seq<Ptr>, fewer: seq<Ptr>, q: Ptr)
    requires Split(list, a, r, fewer) && q !in list && q !in fewer
    ensures q !in a && q !in r && Members(r) !! Members(a) && forall j :: 0 <= j < |r| ==> r[j] !in a
  {
    assert q !in Members(r);
    assert q !in Members(list) + Members(fewer);
    assert forall j :: 0 <= j < |r| ==> r[j] in Members(r);
  }

  /** Every entry of the configuration has a relay of its own with the same mount and upstreams. */
  lemma {:induction false} Served(list: seq<Ptr>, configs: Configs, updated: seq<Config>, addresses: seq<Ptr>)
    requires Distinct(list) && |addresses| == |updated| && FreshFor(addresses, list)
    requires forall p :: p in addresses ==> p !in configs
    ensures Right(configs, updated, Active(list, configs, updated, addresses),
            ConfigsAfter(list, configs, updated, addresses))
  {
    if updated != [] {
      var n := |updated| - 1;
      var fewer, some := addresses[..n], updated[..n];
      assert addresses == fewer + [addresses[n]] && addresses[n] !in fewer && updated == some + [updated[n]];
      Served(list, configs, some, fewer);
      Partition(list, configs, some, fewer);
      hide Right, Split, Distinct, Fits;
      var a, r := Active(list, configs, some, fewer), Remaining(list, configs, some);
      NotActive(list, a, r, fewer, addresses[n]);
      var before := ConfigsAfter(list, configs, some, fewer);
      var i := Pick(r, configs, updated[n]);
      if i < |r| {
        RightKept(configs, some, a, before, updated[n], r[i]);
      } else {
        RightNew(configs, some, a, before, updated[n], addresses[n]);
      }
    }
  }

  lemma {:induction false} IdentitiesWanted(updated: seq<Config>, active: seq<Ptr>, after: Configs)
    requires |active| == |updated| && forall p :: p in active ==> p in after
    requires forall i :: 0 <= i < |updated| ==> IdentityOf(after[active[|updated| - 1 - i]]) == IdentityOf(updated[i])
    ensures Identities(active, after) == Wanted(updated)
  {
    if updated != [] {
      var n := |updated| - 1;
      assert active[n - n] == active[0] && IdentityOf(after[active[0]]) == IdentityOf(updated[n]);
      forall i | 0 <= i < n
        ensures IdentityOf(after[active[1..][n - 1 - i]]) == IdentityOf(updated[..n][i])
      {
        assert active[1..][n - 1 - i] == active[|updated| - 1 - i];
      }
      IdentitiesWanted(updated[..n], active[1..], after);
    }
  }

  lemma {:induction false} DistinctSize(list: seq<Ptr>)
    requires Distinct(list)
    ensures |Members(list)| == |list|
  {
    if list != [] {
      assert list == [list[0]] + list[1..];
      assert list[0] !in list[1..];
      DistinctSize(list[1..]);
      MembersAre(list[0], list[1..]);
    }
  }

  lemma SameSize(a: set<Ptr>, b: set<Ptr>)
    requires a <= b && |a| == |b|
    ensures a == b
  {
    assert |b - a| == |b| - |a|;
  }

  /** Applying the same configuration again changes nothing: no relay is stopped and none is started. */
  lemma Stable(list: seq<Ptr>, configs: Configs, updated: seq<Config>, addresses: seq<Ptr>, more: seq<Ptr>)
    requires Distinct(list) && |addresses| == |updated| == |more| && FreshFor(addresses, list)
    requires forall p :: p in addresses ==> p !in configs
    requires FreshFor(more, Active(list, configs, updated, addresses))
    ensures var active, after := Active(list, configs, updated, addresses),
            ConfigsAfter(list, configs, updated, addresses);
            && Remaining(active, after, updated) == []
            && Members(Active(active, after, updated, more)) == Members(active)
  {
    var active, after := Active(list, configs, updated, addresses), ConfigsAfter(list, configs, updated, addresses);
    Served(list, configs, updated, addresses);
    Partition(list, configs, updated, addresses);
    RightIdentities(configs, updated, active, after);
    IdentitiesWanted(updated, active, after);
    RemainingIsDifference(active, after, updated);
    var rest, again := Remaining(active, after, updated), Active(active, after, updated, more);
    assert Identities(rest, after) == multiset{};
    assert rest == [];
    Partition(active, after, updated, more);
    assert Members(active) <= Members(again);
    DistinctSize(active);
    DistinctSize(again);
    SameSize(Members(active), Members(again));
  }

  lemma RightIdentities(configs: Configs, updated: seq<Config>, active: seq<Ptr>, after: Configs)
    requires Right(configs, updated, active, after)
    ensures forall p :: p in active ==> p in after
    ensures forall i :: 0 <= i < |updated| ==> IdentityOf(after[active[|updated| - 1 - i]]) == IdentityOf(updated[i])
  {
    forall j | 0 <= j < |active|
      ensures active[j] in after
    {
      assert RightFor(configs, updated[|updated| - 1 - j], active[|updated| - 1 - (|updated| - 1 - j)], after);
    }
    forall i | 0 <= i < |updated|
      ensures IdentityOf(after[active[|updated| - 1 - i]]) == IdentityOf(updated[i])
    {
      assert RightFor(configs, updated[i], active[|updated| - 1 - i], after);
      SameSourceIff(after[active[|updated| - 1 - i]], updated[i]);
    }
  }

  // ---------------------------------------------------------------- the code

  ghost predicate Holds(links: Links, head: Option<Ptr>, list: seq<Ptr>) {
    Distinct(list) && head == At(list, 0) && Chained(links, list)
  }

  lemma HoldsUnlink(links: Links, head: Option<Ptr>, list: seq<Ptr>, k: nat, active: Option<Ptr>, act: seq<Ptr>)
    requires Holds(links, head, list) && k < |list| && Holds(links, active, act) && Members(list) !! Members(act)
    ensures list[k] in links && (k > 0 ==> list[k - 1] in links) && list[k] !in act && list[k] !in Leave(list, k)
    ensures var l := if k == 0 then links else links[list[k - 1] := links[list[k]]];
            && Holds(l, if k == 0 then links[list[k]] else head, Leave(list, k)) && Holds(l, active, act)
  {
    var kept, p, rest := list[..k], list[k], list[k + 1..];
    assert list == kept + [p] + rest && Leave(list, k) == kept + rest;
    WithoutOne(kept, p, rest);
    UnlinkChained(links, kept, p, rest);
    NotBoth(list, act, k);
    assert k > 0 ==> list[k - 1] in links && kept[k - 1] == list[k - 1];
    var l := if k == 0 then links else links[list[k - 1] := links[p]];
    UnlinkedBut(links, kept, p, kept + rest);
    hide Chained, Distinct, Members, Unlinked;
    ChainedFrame(links, l, act);
    assert k > 0 ==> (kept + rest)[0] == list[0];
  }

  /** The link of the node that has left does not matter to the list it left. */
  lemma UnlinkedBut(links: Links, kept: seq<Ptr>, p: Ptr, list: seq<Ptr>)
    requires p in links && p !in list && Chained(Unlinked(links, kept, p), list)
    ensures Chained(if kept == [] then links else links[kept[|kept| - 1] := links[p]], list)
  {
    ChainedFrame(Unlinked(links, kept, p), if kept == [] then links else links[kept[|kept| - 1] := links[p]], list);
  }

  lemma NotBoth(list: seq<Ptr>, act: seq<Ptr>, k: nat)
    requires Members(list) !! Members(act) && k < |list|
    ensures list[k] !in act && (k > 0 ==> list[k - 1] !in act) && forall x :: x in act ==> x !in list
  {
    assert forall x :: x in list ==> x in Members(list);
    assert forall x :: x in act ==> x in Members(act);
  }

  lemma ChainedFrame(links: Links, after: Links, list: seq<Ptr>)
    requires Chained(links, list) && forall p :: p in list ==> p in after && p in links && after[p] == links[p]
    ensures Chained(after, list)
  {
  }

  lemma HoldsNone(links: Links)
    ensures Holds(links, None, [])
  {
  }

  lemma HoldsPush(links: Links, active: Option<Ptr>, act: seq<Ptr>, p: Ptr, head: Option<Ptr>, list: seq<Ptr>)
    requires Holds(links, active, act) && p !in act && Holds(links, head, list) && p !in list
    ensures Holds(links[p := active], Some(p), [p] + act) && Holds(links[p := active], head, list)
  {
    var l, longer := links[p := active], [p] + act;
    DistinctCons(p, act);
    forall i | 0 <= i < |longer|
      ensures longer[i] in l && l[longer[i]] == At(longer, i + 1)
    {
      if i > 0 {
        assert longer[i] == act[i - 1] && links[act[i - 1]] == At(act, i);
      }
    }
  }

  lemma PickIs(list: seq<Ptr>, configs: Configs, c: Config, k: nat)
    requires k <= |list| && (k < |list| ==> Fits(configs, list[k], c))
    requires forall j :: 0 <= j < k ==> !Fits(configs, list[j], c)
    ensures Pick(list, configs, c) == k
  {
  }

  lemma FitsWhen(configs: Configs, p: Ptr, c: Config)
    requires p in configs
    ensures Fits(configs, p, c) <==>
            && c.localmount == configs[p].localmount
            && IdentityOf(c).upstreams == IdentityOf(configs[p]).upstreams
               && IdentityOf(c).byDefault == IdentityOf(configs[p]).byDefault
  {
  }

  lemma NextIn(links: Links, list: seq<Ptr>, k: nat)
    requires Chained(links, list) && k < |list|
    ensures list[k] in links && links[list[k]] == At(list, k + 1)
  {
  }

  lemma PickSame(list: seq<Ptr>, a: Configs, b: Configs, c: Config)
    requires forall p :: p in list ==> p in a && p in b && a[p] == b[p]
    ensures Pick(list, a, c) == Pick(list, b, c)
  {
  }

  lemma NoEntries(list: seq<Ptr>, configs: Configs)
    ensures Remaining(list, configs, []) == list && Active(list, configs, [], []) == []
            && ConfigsAfter(list, configs, [], []) == configs
  {
  }

  /** How one more entry changes the result. */
  lemma Extend(list: seq<Ptr>, configs: Configs, some: seq<Config>, fewer: seq<Ptr>, c: Config, q: Ptr)
    requires |some| == |fewer|
    ensures var rest, act := Remaining(list, configs, some), Active(list, configs, some, fewer);
            var now := ConfigsAfter(list, configs, some, fewer);
            var k := Pick(rest, configs, c);
            var p := if k < |rest| then rest[k] else q;
            var after := ConfigsAfter(list, configs, some + [c], fewer + [q]);
            && Remaining(list, configs, some + [c]) == Leave(rest, k)
            && Active(list, configs, some + [c], fewer + [q]) == [p] + act
            && (k < |rest| && p in now ==> after == now[p := now[p].(onDemand := c.onDemand)])
            && (k == |rest| ==> after == now[p := CopyConfig(c)])
  {
    assert (some + [c])[..|some|] == some && (fewer + [q])[..|some|] == fewer;
    hide Fits, Leave;
  }

  /** What holds when the loop comes to the next entry. */
  lemma Next(list: seq<Ptr>, configs: Configs, some: seq<Config>, fewer: seq<Ptr>, c: Config, q: Ptr)
    requires Distinct(list) && |some| == |fewer| && FreshFor(fewer + [q], list)
    requires (forall p :: p in list ==> p in configs) && forall p :: p in fewer ==> p !in configs
    ensures var rest, act := Remaining(list, configs, some), Active(list, configs, some, fewer);
            var now := ConfigsAfter(list, configs, some, fewer);
            && Members(rest) !! Members(act) && q !in rest && q !in act && (forall x :: x in rest ==> x in now)
            && Pick(rest, configs, c) == Pick(rest, now, c)
  {
    FreshParts(fewer, q, list);
    hide Right, Identities, Pick, Fits, Split, Distinct, Members, FreshFor;
    var rest, act, now := Remaining(list, configs, some), Active(list, configs, some, fewer),
      ConfigsAfter(list, configs, some, fewer);
    Served(list, configs, some, fewer);
    Partition(list, configs, some, fewer);
    RemainingIsDifference(list, configs, some);
    hide Remaining, Active, ConfigsAfter;
    NotActive(list, act, rest, fewer, q);
    RightOthers(configs, some, act, now, rest);
    PickSame(rest, configs, now, c);
  }

  lemma Prefixes(updated: seq<Config>, addresses: seq<Ptr>, i: nat)
    requires i < |updated| == |addresses|
    ensures updated[..i + 1] == updated[..i] + [updated[i]] && addresses[..i + 1] == addresses[..i] + [addresses[i]]
  {
  }

  lemma FreshPrefix(addresses: seq<Ptr>, i: nat, list: seq<Ptr>)
    requires FreshFor(addresses, list) && i <= |addresses|
    ensures FreshFor(addresses[..i], list)
  {
  }

  lemma FreshParts(fewer: seq<Ptr>, q: Ptr, list: seq<Ptr>)
    requires FreshFor(fewer + [q], list)
    ensures FreshFor(fewer, list) && q !in fewer && q !in list
  {
    var all := fewer + [q];
    assert all[|fewer|] == q && q in all;
    assert forall j :: 0 <= j < |fewer| ==> fewer[j] == all[j];
    assert forall x :: x in fewer ==> x in all;
  }

  lemma RightOthers(configs: Configs, updated: seq<Config>, act: seq<Ptr>, now: Configs, rest: seq<Ptr>)
    requires Right(configs, updated, act, now)
    requires forall j :: 0 <= j < |rest| ==> rest[j] !in act && rest[j] in configs
    ensures forall p :: p in rest ==> p in configs && p in now && now[p] == configs[p]
  {
  }

  class Relays {
    var links: Links
    var configs: Configs

    /** Walks the list to the first relay that may stay; its on-demand setting is brought up to date. */
    method Find(head: Option<Ptr>, c: Config, ghost list: seq<Ptr>) returns (before: Option<Ptr>, found: Option<Ptr>)
      requires Holds(links, head, list) && forall p :: p in list ==> p in configs
      modifies this`configs
      ensures var k := Pick(list, old(configs), c);
              && found == At(list, k) && before == (if k == 0 then None else Some(list[k - 1]))
      ensures configs == if found.Some?
              then old(configs)[found.value := old(configs)[found.value].(onDemand := c.onDemand)] else old(configs)
    {
      hide Distinct, Pick, Fits, Chained;
      before, found := None, head;
      ghost var k := 0;
      while found.Some?
        invariant k <= |list| && found == At(list, k) && before == (if k == 0 then None else Some(list[k - 1]))
        invariant configs == old(configs) && forall j :: 0 <= j < k ==> !Fits(configs, list[j], c)
        decreases |list| - k
      {
        var p := found.value;
        assert p == list[k];
        FitsWhen(configs, p, c);
        if c.localmount == configs[p].localmount {
          var changed, kept := RelayChanged(c, configs[p]);
          if !changed {
            PickIs(list, configs, c, k);
            configs := configs[p := kept];
            return;
          }
        }
        NextIn(links, list, k);
        before, found := found, links[p];
        k := k + 1;
      }
      PickIs(list, configs, c, k);
    }

    /** Handles one entry of the configuration: the relay it claims, or a new one, moves to the front of
        the active list. */
    method MoveOne(head: Option<Ptr>, active: Option<Ptr>, c: Config, address: Ptr, ghost list: seq<Ptr>,
                   ghost act: seq<Ptr>)
      returns (head': Option<Ptr>, active': Option<Ptr>)
      requires Holds(links, head, list) && Holds(links, active, act) && Members(list) !! Members(act)
      requires (forall p :: p in list ==> p in configs) && address !in list && address !in act
      modifies this
      ensures var k := Pick(list, old(configs), c);
              var p := if k < |list| then list[k] else address;
              && Holds(links, head', Leave(list, k)) && Holds(links, active', [p] + act)
              && configs == old(configs)[p := if k < |list| then old(configs)[p].(onDemand := c.onDemand)
                 else CopyConfig(c)]
    {
      hide Distinct, Chained, Fits;
      var before, found := Find(head, c, list);
      ghost var k := Pick(list, old(configs), c);
      head' := head;
      var p: Ptr;
      if found.None? {
        p := address;
        configs := configs[p := CopyConfig(c)];
      } else {
        p := found.value;
        HoldsUnlink(links, head, list, k, active, act);
        if before.None? {
          head' := links[p];
        } else {
          links := links[before.value := links[p]];
        }
      }
      HoldsPush(links, active, act, p, head', Leave(list, k));
      links := links[p := active];
      active' := Some(p);
    }

    /** Splits the list into the relays to keep, with new ones added, and those to clean up. */
    method UpdateRelays(head: Option<Ptr>, updated: seq<Config>, addresses: seq<Ptr>, ghost list: seq<Ptr>)
      returns (cleanup: Option<Ptr>, active: Option<Ptr>)
      requires Holds(links, head, list) && (forall p :: p in list ==> p in configs)
      requires |addresses| == |updated| && FreshFor(addresses, list) && forall p :: p in addresses ==> p !in configs
      modifies this
      ensures Holds(links, cleanup, Remaining(list, old(configs), updated))
      ensures Holds(links, active, Active(list, old(configs), updated, addresses))
      ensures configs == ConfigsAfter(list, old(configs), updated, addresses)
    {
      hide Pick, Fits, Members, Chained, FreshFor, Leave;
      HoldsNone(links);
      NoEntries(list, configs);
      assert Distinct(list);
      hide Remaining, Active, ConfigsAfter, Holds;
      cleanup, active := head, None;
      var i := 0;
      while i < |updated|
        invariant i <= |updated|
        invariant Holds(links, cleanup, Remaining(list, old(configs), updated[..i]))
        invariant Holds(links, active, Active(list, old(configs), updated[..i], addresses[..i]))
        invariant configs == ConfigsAfter(list, old(configs), updated[..i], addresses[..i])
      {
        ghost var rest, act := Remaining(list, old(configs), updated[..i]),
          Active(list, old(configs), updated[..i], addresses[..i]);
        Prefixes(updated, addresses, i);
        FreshPrefix(addresses, i + 1, list);
        Next(list, old(configs), updated[..i], addresses[..i], updated[i], addresses[i]);
        Extend(list, old(configs), updated[..i], addresses[..i], updated[i], addresses[i]);
        cleanup, active := MoveOne(cleanup, active, updated[i], addresses[i], rest, act);
        i := i + 1;
      }
      assert updated[..i] == updated && addresses[..i] == addresses;
    }
  }
}
