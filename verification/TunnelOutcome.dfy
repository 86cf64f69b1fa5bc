/** What a successful plan leaves behind for links and addresses, and for each tunnel in particular. */
module TunnelOutcome {
  import opened Basics
  import opened Addresses
  import opened Config
  import opened Kernel
  import opened Reapply
  import RuleOrder
  import opened RoutingPlan

  // ----- the last writer of a link

  /** The device description of the first step that would create the link. */
  function FirstEnsured(steps: seq<Step>, name: string): Option<LinkSpec> {
    if steps == [] then None else
      var front, last := FirstEnsured(steps[..|steps| - 1], name), steps[|steps| - 1];
      if front.Some? then front
      else if last.EnsureLink? && last.name == name then Some(last.spec) else None
  }

  function LastMtu(steps: seq<Step>, name: string): Option<int> {
    if steps == [] then None else
      var last := steps[|steps| - 1];
      if last.SetMtu? && last.name == name then Some(last.mtu) else LastMtu(steps[..|steps| - 1], name)
  }

  predicate BroughtUp(steps: seq<Step>, name: string) {
    SetUp(name) in steps
  }

  /** The link a run leaves under a name: what was there, or the first device ensured, with the last MTU. */
  function LinkAfter(before: Option<Link>, steps: seq<Step>, name: string): Option<Link> {
    var spec := if before.Some? then Some(before.value.spec) else FirstEnsured(steps, name);
    if spec.None? then None else
      Some(Link(spec.value,
                Else(LastMtu(steps, name), Some(if before.Some? then before.value.mtu else 0)).value,
                BroughtUp(steps, name) || (before.Some? && before.value.up)))
  }

  lemma LinkStep(s: State, steps: seq<Step>, t: State, last: Step, name: string)
    requires Lookup(t.links, name) == LinkAfter(Lookup(s.links, name), steps, name)
    requires LastMtu(steps, name).Some? || BroughtUp(steps, name) ==> name in t.links
    requires Do(t, last).Some?
    ensures Lookup(Do(t, last).value.links, name) == LinkAfter(Lookup(s.links, name), steps + [last], name)
    ensures LastMtu(steps + [last], name).Some? || BroughtUp(steps + [last], name) ==> name in Do(t, last).value.links
  {
    hide DeleteRule;
    hide InsertRule;
    assert (steps + [last])[..|steps|] == steps;
    assert BroughtUp(steps + [last], name) <==> BroughtUp(steps, name) || last == SetUp(name);
  }

  /** After a successful run a link exists exactly when it was there or was ensured, with its first description and last MTU. */
  lemma {:induction false} LinkOutcome(s: State, steps: seq<Step>, name: string)
    requires Run(s, steps).Some?
    ensures Lookup(Run(s, steps).value.links, name) == LinkAfter(Lookup(s.links, name), steps, name)
    ensures LastMtu(steps, name).Some? || BroughtUp(steps, name) ==> name in Run(s, steps).value.links
  {
    if steps != [] {
      var init, last := steps[..|steps| - 1], steps[|steps| - 1];
      assert steps == init + [last];
      LinkOutcome(s, init, name);
      hide Do;
      hide LinkAfter;
      LinkStep(s, init, Run(s, init).value, last, name);
    }
  }

  lemma AddressStep(t: State, last: Step, name: string, c: Cidr)
    requires Do(t, last).Some?
    ensures (name, c) in Do(t, last).value.addresses <==> (name, c) in t.addresses || last == ReplaceAddress(name, c)
  {
    hide DeleteRule;
    hide InsertRule;
  }

  /** After a successful run the addresses are the old ones and those assigned. */
  lemma {:induction false} AddressOutcome(s: State, steps: seq<Step>, name: string, c: Cidr)
    requires Run(s, steps).Some?
    ensures (name, c) in Run(s, steps).value.addresses <==> (name, c) in s.addresses || ReplaceAddress(name, c) in steps
  {
    hide Do;
    if steps != [] {
      var init, last := steps[..|steps| - 1], steps[|steps| - 1];
      assert steps == init + [last];
      AddressOutcome(s, init, name, c);
      AddressStep(Run(s, init).value, last, name, c);
    }
  }

  lemma {:induction false} FirstEnsuredConcat(a: seq<Step>, b: seq<Step>, name: string)
    ensures FirstEnsured(a + b, name) == Else(FirstEnsured(a, name), FirstEnsured(b, name))
    decreases |b|
  {
    if b == [] {
      assert a + b == a;
    } else {
      assert (a + b)[..|a + b| - 1] == a + b[..|b| - 1];
      FirstEnsuredConcat(a, b[..|b| - 1], name);
    }
  }

  lemma {:induction false} LastMtuConcat(a: seq<Step>, b: seq<Step>, name: string)
    ensures LastMtu(a + b, name) == Else(LastMtu(b, name), LastMtu(a, name))
    decreases |b|
  {
    if b == [] {
      assert a + b == a;
    } else {
      assert (a + b)[..|a + b| - 1] == a + b[..|b| - 1];
      LastMtuConcat(a, b[..|b| - 1], name);
    }
  }

  // ----- the steps of one tunnel within the plan

  function Earlier(c: Config, k: nat): seq<Step>
    requires k < |c.tunnels|
  {
    AllTunnelSteps(c.tunnels[..k])
  }

  function Later(c: Config, k: nat): seq<Step>
    requires k < |c.tunnels|
  {
    AllTunnelSteps(c.tunnels[k + 1..]) + RoutingSteps(c)
  }

  lemma {:induction false} TunnelsConcat(a: seq<Tunnel>, b: seq<Tunnel>)
    ensures AllTunnelSteps(a + b) == AllTunnelSteps(a) + AllTunnelSteps(b)
    decreases |b|
  {
    hide TunnelSteps;
    if b == [] {
      assert a + b == a && AllTunnelSteps(a) + [] == AllTunnelSteps(a);
    } else {
      assert (a + b)[..|a + b| - 1] == a + b[..|b| - 1];
      TunnelsConcat(a, b[..|b| - 1]);
    }
  }

  lemma OneTunnel(t: Tunnel)
    ensures AllTunnelSteps([t]) == TunnelSteps(t)
  {
    hide TunnelSteps;
    assert [t][..0] == [];
    assert [] + TunnelSteps(t) == TunnelSteps(t);
  }

  lemma PlanAround(c: Config, k: nat)
    requires k < |c.tunnels|
    ensures PlanSteps(c) == Earlier(c, k) + (TunnelSteps(c.tunnels[k]) + Later(c, k))
  {
    hide TunnelSteps;
    hide AllTunnelSteps;
    hide RoutingSteps;
    var ts, t := c.tunnels, c.tunnels[k];
    assert ts == ts[..k] + ([t] + ts[k + 1..]);
    TunnelsConcat(ts[..k], [t] + ts[k + 1..]);
    TunnelsConcat([t], ts[k + 1..]);
    OneTunnel(t);
  }

  lemma {:induction false} AddressStepsFacts(name: string, addresses: seq<Cidr>, other: string)
    ensures FirstEnsured(AddressSteps(name, addresses), other) == None
    ensures LastMtu(AddressSteps(name, addresses), other) == None
    ensures forall a | a in addresses :: ReplaceAddress(name, a) in AddressSteps(name, addresses)
  {
    if addresses != [] {
      var init, last := addresses[..|addresses| - 1], addresses[|addresses| - 1];
      assert addresses == init + [last];
      AddressStepsFacts(name, init, other);
      assert ReplaceAddress(name, last) in AddressSteps(name, addresses);
    }
  }

  lemma OneStepFacts(st: Step, name: string)
    ensures FirstEnsured([st], name) == if st.EnsureLink? && st.name == name then Some(st.spec) else None
    ensures LastMtu([st], name) == if st.SetMtu? && st.name == name then Some(st.mtu) else None
  {
    assert [st][..0] == [];
  }

  /** A tunnel whose device the plan creates and configures itself. */
  predicate KernelMade(t: Tunnel) {
    t.enabled && t.interfaceName != "" && KernelSpec(t).Some?
  }

  lemma KernelMadeIsPlain(t: Tunnel)
    requires KernelSpec(t).Some?
    ensures !ServiceManaged(t)
  {
    hide IpTunnelSpec;
    hide LinkTunnelSpec;
    hide Field;
  }

  lemma EmptyFacts(name: string)
    ensures FirstEnsured([], name) == None && LastMtu([], name) == None
  {
  }

  lemma ConfigureFacts(t: Tunnel)
    requires !ServiceManaged(t)
    ensures FirstEnsured(ConfigureSteps(t), t.interfaceName) == None
    ensures LastMtu(ConfigureSteps(t), t.interfaceName) == if t.mtu > 0 then Some(t.mtu) else None
    ensures SetUp(t.interfaceName) in ConfigureSteps(t)
    ensures forall a | a in t.localAddresses :: ReplaceAddress(t.interfaceName, a) in ConfigureSteps(t)
  {
    hide ServiceManaged;
    var name := t.interfaceName;
    var mtu := if t.mtu > 0 then [SetMtu(name, t.mtu)] else [];
    var addresses := AddressSteps(name, t.localAddresses);
    AddressStepsFacts(name, t.localAddresses, name);
    OneStepFacts(SetMtu(name, t.mtu), name);
    OneStepFacts(SetUp(name), name);
    hide FirstEnsured;
    hide LastMtu;
    hide AddressSteps;
    EmptyFacts(name);
    FirstEnsuredConcat(mtu, [SetUp(name)], name);
    FirstEnsuredConcat(mtu + [SetUp(name)], addresses, name);
    LastMtuConcat(mtu, [SetUp(name)], name);
    LastMtuConcat(mtu + [SetUp(name)], addresses, name);
  }

  lemma TunnelFacts(t: Tunnel)
    requires KernelMade(t)
    ensures FirstEnsured(TunnelSteps(t), t.interfaceName) == KernelSpec(t)
    ensures LastMtu(TunnelSteps(t), t.interfaceName) == if t.mtu > 0 then Some(t.mtu) else None
    ensures SetUp(t.interfaceName) in TunnelSteps(t)
    ensures forall a | a in t.localAddresses :: ReplaceAddress(t.interfaceName, a) in TunnelSteps(t)
  {
    var name := t.interfaceName;
    KernelMadeIsPlain(t);
    hide KernelSpec;
    hide ServiceManaged;
    ConfigureFacts(t);
    hide ConfigureSteps;
    var device, rest, route := DeviceSteps(t), ConfigureSteps(t), TunnelRouteSteps(t);
    OneStepFacts(EnsureLink(name, KernelSpec(t).value), name);
    OneStepFacts(ReplaceRoute(TunnelKey(t), [Nexthop(NoGateway, name, 1)]), name);
    hide FirstEnsured;
    hide LastMtu;
    EmptyFacts(name);
    FirstEnsuredConcat(device, rest, name);
    FirstEnsuredConcat(device + rest, route, name);
    LastMtuConcat(device, rest, name);
    LastMtuConcat(device + rest, route, name);
  }

  // ----- the outcome

  /** The MTU a tunnel ends with: the last later setting, else its own, else whatever was set before. */
  function FinalMtu(c: Config, k: nat, s: State): int
    requires k < |c.tunnels|
  {
    var t := c.tunnels[k];
    var name := t.interfaceName;
    match LastMtu(Later(c, k), name)
    case Some(mtu) => mtu
    case None =>
      if t.mtu > 0 then t.mtu
      else match LastMtu(Earlier(c, k), name)
        case Some(mtu) => mtu
        case None => if name in s.links then s.links[name].mtu else 0
  }

  /** The device description a tunnel ends with: that of an existing link, else of the first tunnel with the name. */
  function FinalSpec(c: Config, k: nat, s: State): LinkSpec
    requires k < |c.tunnels| && KernelSpec(c.tunnels[k]).Some?
  {
    var name := c.tunnels[k].interfaceName;
    if name in s.links then s.links[name].spec
    else match FirstEnsured(Earlier(c, k), name) case Some(spec) => spec case None => KernelSpec(c.tunnels[k]).value
  }

  lemma EnsuredAround(c: Config, k: nat)
    requires k < |c.tunnels| && KernelMade(c.tunnels[k])
    ensures var t := c.tunnels[k];
            FirstEnsured(PlanSteps(c), t.interfaceName) ==
            Else(FirstEnsured(Earlier(c, k), t.interfaceName), KernelSpec(t))
  {
    var t := c.tunnels[k];
    var name, mine, after := t.interfaceName, TunnelSteps(t), Later(c, k);
    hide PlanSteps;
    hide TunnelSteps;
    hide Earlier;
    hide Later;
    hide FirstEnsured;
    PlanAround(c, k);
    TunnelFacts(t);
    FirstEnsuredConcat(Earlier(c, k), mine + after, name);
    FirstEnsuredConcat(mine, after, name);
    hide KernelSpec;
  }

  lemma MtuAround(c: Config, k: nat)
    requires k < |c.tunnels| && KernelMade(c.tunnels[k])
    ensures var t := c.tunnels[k];
            LastMtu(PlanSteps(c), t.interfaceName) ==
            Else(LastMtu(Later(c, k), t.interfaceName),
                 if t.mtu > 0 then Some(t.mtu) else LastMtu(Earlier(c, k), t.interfaceName))
  {
    var t := c.tunnels[k];
    var name, mine, after := t.interfaceName, TunnelSteps(t), Later(c, k);
    hide PlanSteps;
    hide TunnelSteps;
    hide Earlier;
    hide Later;
    hide LastMtu;
    PlanAround(c, k);
    TunnelFacts(t);
    hide KernelSpec;
    LastMtuConcat(Earlier(c, k), mine + after, name);
    LastMtuConcat(mine, after, name);
  }

  lemma UpAround(c: Config, k: nat)
    requires k < |c.tunnels| && KernelMade(c.tunnels[k])
    ensures BroughtUp(PlanSteps(c), c.tunnels[k].interfaceName)
  {
    hide PlanSteps;
    hide TunnelSteps;
    hide Earlier;
    hide Later;
    PlanAround(c, k);
    TunnelFacts(c.tunnels[k]);
    hide KernelSpec;
  }

  lemma LinkReady(c: Config, s: State, t: State, k: nat)
    requires Run(s, PlanSteps(c)) == Some(t) && k < |c.tunnels| && KernelMade(c.tunnels[k])
    ensures Lookup(t.links, c.tunnels[k].interfaceName) == Some(Link(FinalSpec(c, k, s), FinalMtu(c, k, s), true))
  {
    hide Run;
    hide PlanSteps;
    hide TunnelSteps;
    hide Earlier;
    hide Later;
    hide FirstEnsured;
    hide LastMtu;
    hide BroughtUp;
    EnsuredAround(c, k);
    MtuAround(c, k);
    UpAround(c, k);
    LinkOutcome(s, PlanSteps(c), c.tunnels[k].interfaceName);
    hide KernelSpec;
  }

  lemma AddressesHeld(c: Config, s: State, t: State, k: nat)
    requires Run(s, PlanSteps(c)) == Some(t) && k < |c.tunnels| && KernelMade(c.tunnels[k])
    ensures forall a | a in c.tunnels[k].localAddresses :: (c.tunnels[k].interfaceName, a) in t.addresses
  {
    var tun := c.tunnels[k];
    var name, steps := tun.interfaceName, PlanSteps(c);
    hide Run;
    hide PlanSteps;
    hide TunnelSteps;
    hide Earlier;
    hide Later;
    PlanAround(c, k);
    TunnelFacts(tun);
    hide KernelSpec;
    forall a | a in tun.localAddresses ensures (name, a) in t.addresses {
      assert ReplaceAddress(name, a) in steps;
      AddressOutcome(s, steps, name, a);
    }
  }

  /**
   After a successful plan the device of every enabled tunnel that the plan creates exists, is up,
   has its MTU and all its addresses.
   */
  lemma {:induction false} TunnelDeviceReady(c: Config, s: State, t: State, k: nat)
    requires Run(s, PlanSteps(c)) == Some(t) && k < |c.tunnels| && KernelMade(c.tunnels[k])
    ensures Lookup(t.links, c.tunnels[k].interfaceName) == Some(Link(FinalSpec(c, k, s), FinalMtu(c, k, s), true))
    ensures forall a | a in c.tunnels[k].localAddresses :: (c.tunnels[k].interfaceName, a) in t.addresses
  {
    hide Run;
    hide PlanSteps;
    hide FinalSpec;
    hide FinalMtu;
    LinkReady(c, s, t, k);
    AddressesHeld(c, s, t, k);
  }

  /** The default of a tunnel's own table is its device, unless a later step writes that route. */
  lemma {:induction false} TunnelTableReady(c: Config, s: State, t: State, k: nat)
    requires Run(s, PlanSteps(c)) == Some(t) && k < |c.tunnels|
    requires c.tunnels[k].enabled && c.tunnels[k].interfaceName != "" && c.tunnels[k].table > 0
    ensures Lookup(t.routes, TunnelKey(c.tunnels[k])) ==
            Else(LastRoute(Later(c, k), TunnelKey(c.tunnels[k])),
                 Some([Nexthop(NoGateway, c.tunnels[k].interfaceName, 1)]))
  {
    var tun := c.tunnels[k];
    var key, hops, after := TunnelKey(tun), [Nexthop(NoGateway, tun.interfaceName, 1)], Later(c, k);
    var front := DeviceSteps(tun) + ConfigureSteps(tun);
    hide Run;
    hide PlanSteps;
    hide Earlier;
    hide Later;
    hide DeviceSteps;
    hide ConfigureSteps;
    PlanAround(c, k);
    LastRouteWins(s, PlanSteps(c), key);
    assert TunnelSteps(tun) == front + [ReplaceRoute(key, hops)];
    LastRouteConcat(Earlier(c, k), TunnelSteps(tun) + after, key);
    LastRouteConcat(TunnelSteps(tun), after, key);
    assert (front + [ReplaceRoute(key, hops)])[..|front|] == front;
  }

  // ----- a tunnel with a link of its own

  /** No other enabled tunnel uses the tunnel's interface name. */
  predicate OwnName(c: Config, k: nat)
    requires k < |c.tunnels|
  {
    forall j: nat | j < |c.tunnels| && j != k && c.tunnels[j].enabled ::
      c.tunnels[j].interfaceName != c.tunnels[k].interfaceName
  }

  predicate LeavesLink(steps: seq<Step>, name: string) {
    forall st | st in steps :: (st.EnsureLink? || st.SetMtu?) ==> st.name != name
  }

  lemma {:induction false} LeavesLinkFacts(steps: seq<Step>, name: string)
    requires LeavesLink(steps, name)
    ensures FirstEnsured(steps, name) == None && LastMtu(steps, name) == None
  {
    if steps != [] {
      var init := steps[..|steps| - 1];
      assert steps[|steps| - 1] in steps;
      forall st | st in init ensures st in steps {}
      LeavesLinkFacts(init, name);
    }
  }

  lemma LeavesLinkConcat(a: seq<Step>, b: seq<Step>, name: string)
    requires LeavesLink(a, name) && LeavesLink(b, name)
    ensures LeavesLink(a + b, name)
  {
  }

  lemma {:induction false} AddressesLeaveLink(own: string, addresses: seq<Cidr>, name: string)
    ensures LeavesLink(AddressSteps(own, addresses), name)
  {
    if addresses != [] {
      AddressesLeaveLink(own, addresses[..|addresses| - 1], name);
    }
  }

  lemma OtherTunnelLeavesLink(t: Tunnel, name: string)
    requires t.enabled ==> t.interfaceName != name
    ensures LeavesLink(TunnelSteps(t), name)
  {
    hide KernelSpec;
    hide ServiceManaged;
    AddressesLeaveLink(t.interfaceName, t.localAddresses, name);
    hide AddressSteps;
  }

  lemma NothingLeavesLink(name: string)
    ensures LeavesLink([], name)
  {
  }

  lemma {:induction false} OtherTunnelsLeaveLink(ts: seq<Tunnel>, name: string)
    requires forall t | t in ts :: t.enabled ==> t.interfaceName != name
    ensures LeavesLink(AllTunnelSteps(ts), name)
  {
    hide TunnelSteps;
    hide LeavesLink;
    if ts == [] {
      NothingLeavesLink(name);
    } else {
      var init, last := ts[..|ts| - 1], ts[|ts| - 1];
      forall t | t in init ensures t in ts {}
      OtherTunnelsLeaveLink(init, name);
      assert last in ts;
      OtherTunnelLeavesLink(last, name);
      LeavesLinkConcat(AllTunnelSteps(init), TunnelSteps(last), name);
    }
  }

  /** Steps of the routing half: routes and policy rules only. */
  predicate OnlyRouting(steps: seq<Step>) {
    forall st | st in steps :: st.ReplaceRoute? || st.ReplaceRule?
  }

  lemma {:induction false} MembersRoute(table: int, ms: seq<WanMember>)
    ensures OnlyRouting(MemberSteps(table, ms))
  {
    if ms != [] {
      MembersRoute(table, ms[..|ms| - 1]);
    }
  }

  lemma {:induction false} GroupsRoute(gs: seq<WanGroup>)
    ensures OnlyRouting(AllGroupSteps(gs))
  {
    if gs != [] {
      GroupsRoute(gs[..|gs| - 1]);
      MembersRoute(gs[|gs| - 1].table, gs[|gs| - 1].members);
      hide MemberSteps;
      hide EcmpHops;
      hide EcmpKey;
    }
  }

  lemma {:induction false} StaticsRoute(rs: seq<StaticRoute>)
    ensures OnlyRouting(StaticSteps(rs))
  {
    hide StaticKey;
    if rs != [] {
      StaticsRoute(rs[..|rs| - 1]);
    }
  }

  lemma {:induction false} RulesRoute(rules: seq<RouteRule>, c: Config)
    ensures OnlyRouting(RuleSteps(rules, c))
  {
    hide RuleRoute;
    if rules != [] {
      RulesRoute(rules[..|rules| - 1], c);
    }
  }

  lemma RoutingOnlyRoutes(c: Config)
    ensures OnlyRouting(RoutingSteps(c))
  {
    GroupsRoute(c.routing.wanGroups);
    StaticsRoute(c.routing.staticRoutes);
    RulesRoute(RuleOrder.StableSort(c.routing.rules), c);
    hide AllGroupSteps;
    hide StaticSteps;
    hide RuleSteps;
    hide RuleOrder.StableSort;
  }

  lemma RoutingLeavesLinks(steps: seq<Step>, name: string)
    requires OnlyRouting(steps)
    ensures LeavesLink(steps, name)
  {
  }

  lemma OwnNameAround(c: Config, k: nat)
    requires k < |c.tunnels| && OwnName(c, k)
    ensures LeavesLink(Earlier(c, k), c.tunnels[k].interfaceName) && LeavesLink(Later(c, k), c.tunnels[k].interfaceName)
  {
    var name := c.tunnels[k].interfaceName;
    forall t | t in c.tunnels[..k] ensures t.enabled ==> t.interfaceName != name {
      var j: nat :| j < k && c.tunnels[j] == t;
    }
    forall t | t in c.tunnels[k + 1..] ensures t.enabled ==> t.interfaceName != name {
      var j: nat :| k < j < |c.tunnels| && c.tunnels[j] == t;
    }
    hide LeavesLink;
    hide AllTunnelSteps;
    hide RoutingSteps;
    OtherTunnelsLeaveLink(c.tunnels[..k], name);
    OtherTunnelsLeaveLink(c.tunnels[k + 1..], name);
    RoutingOnlyRoutes(c);
    RoutingLeavesLinks(RoutingSteps(c), name);
    LeavesLinkConcat(AllTunnelSteps(c.tunnels[k + 1..]), RoutingSteps(c), name);
  }

  /** A tunnel that shares its name with no other enabled tunnel ends with its own description and MTU. */
  lemma {:induction false} OwnTunnelReady(c: Config, s: State, t: State, k: nat)
    requires Run(s, PlanSteps(c)) == Some(t) && k < |c.tunnels| && KernelMade(c.tunnels[k])
    requires OwnName(c, k) && c.tunnels[k].interfaceName !in s.links
    ensures var tun := c.tunnels[k];
            Lookup(t.links, tun.interfaceName) == Some(Link(KernelSpec(tun).value, if tun.mtu > 0 then tun.mtu else 0, true))
  {
    hide Run;
    hide PlanSteps;
    hide KernelSpec;
    hide Earlier;
    hide Later;
    hide OwnName;
    TunnelDeviceReady(c, s, t, k);
    OwnNameAround(c, k);
    LeavesLinkFacts(Earlier(c, k), c.tunnels[k].interfaceName);
    LeavesLinkFacts(Later(c, k), c.tunnels[k].interfaceName);
  }
}
