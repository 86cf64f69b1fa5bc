/** When a plan can be applied: every step finds the devices it names, and the kernel takes every route and device name. */
module Completion {
  import opened Basics
  import opened Addresses
  import opened Config
  import opened Kernel
  import opened RuleOrder
  import opened RoutingPlan

  // ----- steps

  predicate HopsKnown(hops: seq<Nexthop>, links: set<string>) {
    forall h | h in hops :: h.dev == "" || h.dev in links
  }

  predicate StepReady(st: Step, links: set<string>) {
    match st
    case ReplaceRule(_, _, _) => true
    case ReplaceRoute(key, hops) => HopsKnown(hops, links) && WellFormed(key, hops)
    case EnsureLink(name, _) => name in links || DeviceName(name)
    case SetMtu(name, _) => name in links
    case SetUp(name) => name in links
    case ReplaceAddress(name, _) => name in links
  }

  /** The links there are after some steps. */
  function LinksAfter(steps: seq<Step>, links: set<string>): set<string> {
    if steps == [] then links else
      var last := steps[|steps| - 1];
      LinksAfter(steps[..|steps| - 1], links) + (if last.EnsureLink? then {last.name} else {})
  }

  /** Every step finds the links it names, and every route and new name is taken. */
  predicate Ready(steps: seq<Step>, links: set<string>) {
    steps == [] ||
    (Ready(steps[..|steps| - 1], links) && StepReady(steps[|steps| - 1], LinksAfter(steps[..|steps| - 1], links)))
  }

  lemma DoReady(f: Flat, st: Step)
    ensures DoFlat(f, st).Some? <==> StepReady(st, f.rest.links.Keys)
    ensures DoFlat(f, st).Some? ==>
              DoFlat(f, st).value.rest.links.Keys == f.rest.links.Keys + (if st.EnsureLink? then {st.name} else {})
  {
    hide WellFormed;
    hide DeviceName;
  }

  lemma {:induction false} FlatReady(f: Flat, steps: seq<Step>)
    ensures RunFlat(f, steps).Some? <==> Ready(steps, f.rest.links.Keys)
    ensures RunFlat(f, steps).Some? ==> RunFlat(f, steps).value.rest.links.Keys == LinksAfter(steps, f.rest.links.Keys)
  {
    hide DoFlat;
    hide StepReady;
    if steps != [] {
      var init, last := steps[..|steps| - 1], steps[|steps| - 1];
      FlatReady(f, init);
      if RunFlat(f, init).Some? {
        DoReady(RunFlat(f, init).value, last);
      }
    }
  }

  /** A run over an ordered rule list succeeds if and only if every step is ready when its turn comes. */
  lemma {:induction false} RunCompletesIff(s: State, steps: seq<Step>)
    requires Strict(s.rules)
    ensures Run(s, steps).Some? <==> Ready(steps, s.links.Keys)
  {
    RunRefinesFlat(s, steps);
    FlatReady(FlatOf(s), steps);
  }

  lemma {:induction false} ReadyConcat(a: seq<Step>, b: seq<Step>, links: set<string>)
    ensures LinksAfter(a + b, links) == LinksAfter(b, LinksAfter(a, links))
    ensures Ready(a + b, links) <==> Ready(a, links) && Ready(b, LinksAfter(a, links))
    decreases |b|
  {
    hide StepReady;
    if b == [] {
      assert a + b == a;
    } else {
      assert (a + b)[..|a + b| - 1] == a + b[..|b| - 1];
      ReadyConcat(a, b[..|b| - 1], links);
    }
  }

  lemma ReadyOne(st: Step, links: set<string>)
    ensures LinksAfter([st], links) == links + (if st.EnsureLink? then {st.name} else {})
    ensures Ready([st], links) <==> StepReady(st, links)
  {
    assert [st][..0] == [];
    assert LinksAfter([], links) == links && Ready([], links);
  }

  lemma ReadyNone(links: set<string>)
    ensures LinksAfter([], links) == links && Ready([], links)
  {
  }

  // ----- what a configuration asks for

  /** The plan creates the tunnel's device. */
  predicate Creates(t: Tunnel) {
    t.enabled && t.interfaceName != "" && KernelSpec(t).Some?
  }

  /** The plan configures the tunnel's device or routes through it. */
  predicate Uses(t: Tunnel) {
    t.enabled && t.interfaceName != "" && (!ServiceManaged(t) || t.table > 0)
  }

  function Created(ts: seq<Tunnel>): set<string> {
    set t | t in ts && Creates(t) :: t.interfaceName
  }

  /** A device the plan has to create for the tunnel has a name the kernel takes. */
  predicate Nameable(t: Tunnel, links: set<string>) {
    Creates(t) ==> t.interfaceName in links || DeviceName(t.interfaceName)
  }

  /** The tunnel's device is there, or created for this tunnel. */
  predicate Available(t: Tunnel, links: set<string>) {
    Uses(t) ==> t.interfaceName in links || Creates(t)
  }

  predicate TunnelReadyAt(ts: seq<Tunnel>, k: nat, links: set<string>)
    requires k < |ts|
  {
    var before := links + Created(ts[..k]);
    Nameable(ts[k], before) && Available(ts[k], before)
  }

  /** With the links there and those created for earlier tunnels, every tunnel finds or gets its device. */
  predicate TunnelsReady(ts: seq<Tunnel>, links: set<string>) {
    forall k: nat | k < |ts| :: TunnelReadyAt(ts, k, links)
  }

  /** The gateways of a weighted group are of one family. */
  predicate OneFamily(members: seq<WanMember>) {
    forall m | m in members :: m.gateway.Via? ==> m.gateway.fam == HopsFamily(EcmpHops(members))
  }

  predicate GroupReady(g: WanGroup, links: set<string>) {
    g.enabled && g.table != 0 ==>
      && (forall m | m in g.members :: m.iface == "" || m.iface in links)
      && (g.mode == WeightedEcmp ==> OneFamily(g.members))
  }

  /** The destination is an IPv4 prefix with bits set behind it. */
  predicate Ragged(c: Cidr) {
    c.Cidr? && c.fam == V4 && c.addr % Pow2(32 - c.bits) != 0
  }

  predicate StaticReady(r: StaticRoute, links: set<string>) {
    && (r.iface == "" || r.iface in links)
    && !Ragged(r.destination)
    && (r.gateway.Via? ==> r.gateway.fam == StaticKey(r).fam)
  }

  /** What the plan of a configuration needs from a host with these links. */
  predicate PlanReady(c: Config, links: set<string>) {
    var all := links + Created(c.tunnels);
    && TunnelsReady(c.tunnels, links)
    && (forall g | g in c.routing.wanGroups :: GroupReady(g, all))
    && (forall r | r in c.routing.staticRoutes :: StaticReady(r, all))
  }

  // ----- tunnels

  lemma {:induction false} AddressesReady(name: string, addresses: seq<Cidr>, links: set<string>)
    ensures LinksAfter(AddressSteps(name, addresses), links) == links
    ensures name in links ==> Ready(AddressSteps(name, addresses), links)
  {
    if addresses != [] {
      var init, last := addresses[..|addresses| - 1], ReplaceAddress(name, addresses[|addresses| - 1]);
      AddressesReady(name, init, links);
      ReadyConcat(AddressSteps(name, init), [last], links);
      ReadyOne(last, links);
    }
  }

  lemma ConfigureReady(t: Tunnel, links: set<string>)
    ensures LinksAfter(ConfigureSteps(t), links) == links
    ensures Ready(ConfigureSteps(t), links) <==> ServiceManaged(t) || t.interfaceName in links
  {
    var name := t.interfaceName;
    var mtu, up, rest := if t.mtu > 0 then [SetMtu(name, t.mtu)] else [], [SetUp(name)], AddressSteps(name, t.localAddresses);
    ReadyNone(links);
    ReadyOne(SetMtu(name, t.mtu), links);
    ReadyOne(SetUp(name), links);
    AddressesReady(name, t.localAddresses, links);
    hide Ready;
    hide LinksAfter;
    hide AddressSteps;
    hide ServiceManaged;
    if !ServiceManaged(t) {
      assert ConfigureSteps(t) == mtu + up + rest;
      assert LinksAfter(mtu, links) == links;
      assert Ready(mtu, links) <==> t.mtu <= 0 || name in links;
      assert LinksAfter(up, links) == links && (Ready(up, links) <==> name in links);
      ReadyConcat(mtu, up, links);
      ReadyConcat(mtu + up, rest, links);
    }
  }

  lemma DeviceReady(t: Tunnel, links: set<string>)
    ensures LinksAfter(DeviceSteps(t), links) == links + (if KernelSpec(t).Some? then {t.interfaceName} else {})
    ensures Ready(DeviceSteps(t), links) <==>
            (KernelSpec(t).Some? ==> t.interfaceName in links || DeviceName(t.interfaceName))
  {
    hide KernelSpec;
    hide DeviceName;
    ReadyNone(links);
    if KernelSpec(t).Some? {
      ReadyOne(EnsureLink(t.interfaceName, KernelSpec(t).value), links);
    }
  }

  lemma DefaultHasNoHostBits(fam: Family, table: int, metric: int)
    ensures !HasHostBits(RouteKey(fam, table, DEFAULT_DEST, metric))
  {
  }

  lemma TunnelRouteReady(t: Tunnel, links: set<string>)
    requires t.interfaceName != ""
    ensures LinksAfter(TunnelRouteSteps(t), links) == links
    ensures Ready(TunnelRouteSteps(t), links) <==> t.table <= 0 || t.interfaceName in links
  {
    ReadyNone(links);
    if t.table > 0 {
      var hop := Nexthop(NoGateway, t.interfaceName, 1);
      DefaultHasNoHostBits(V4, t.table, 0);
      assert hop in [hop] && HopsFit([hop], V4);
      ReadyOne(ReplaceRoute(TunnelKey(t), [hop]), links);
    }
  }

  lemma TunnelReady(t: Tunnel, links: set<string>)
    ensures LinksAfter(TunnelSteps(t), links) == links + (if Creates(t) then {t.interfaceName} else {})
    ensures Ready(TunnelSteps(t), links) <==> Nameable(t, links) && Available(t, links)
  {
    ReadyNone(links);
    if t.enabled && t.interfaceName != "" {
      var device, rest, route := DeviceSteps(t), ConfigureSteps(t), TunnelRouteSteps(t);
      DeviceReady(t, links);
      var more := LinksAfter(device, links);
      ConfigureReady(t, more);
      TunnelRouteReady(t, more);
      hide Ready;
      hide LinksAfter;
      hide DeviceSteps;
      hide ConfigureSteps;
      hide TunnelRouteSteps;
      hide KernelSpec;
      hide ServiceManaged;
      hide DeviceName;
      ReadyConcat(device, rest, links);
      ReadyConcat(device + rest, route, links);
    }
  }

  lemma CreatedSnoc(init: seq<Tunnel>, last: Tunnel)
    ensures Created(init + [last]) == Created(init) + (if Creates(last) then {last.interfaceName} else {})
  {
    hide Creates;
    forall t ensures t in init + [last] <==> t in init || t == last {}
  }

  lemma TunnelsReadySnoc(init: seq<Tunnel>, last: Tunnel, links: set<string>)
    ensures TunnelsReady(init + [last], links) <==>
            TunnelsReady(init, links) && Nameable(last, links + Created(init)) && Available(last, links + Created(init))
  {
    hide Nameable;
    hide Available;
    hide Created;
    var ts := init + [last];
    forall k: nat | k < |init| ensures TunnelReadyAt(ts, k, links) <==> TunnelReadyAt(init, k, links) {
      assert ts[..k] == init[..k];
    }
    assert ts[..|init|] == init;
    assert TunnelReadyAt(ts, |init|, links) <==>
           Nameable(last, links + Created(init)) && Available(last, links + Created(init));
    hide TunnelReadyAt;
  }

  lemma {:induction false} AllTunnelsReady(ts: seq<Tunnel>, links: set<string>)
    ensures LinksAfter(AllTunnelSteps(ts), links) == links + Created(ts)
    ensures Ready(AllTunnelSteps(ts), links) <==> TunnelsReady(ts, links)
  {
    if ts == [] {
      ReadyNone(links);
    } else {
      var init, last := ts[..|ts| - 1], ts[|ts| - 1];
      assert ts == init + [last];
      AllTunnelsReady(init, links);
      CreatedSnoc(init, last);
      TunnelsReadySnoc(init, last, links);
      TunnelReady(last, LinksAfter(AllTunnelSteps(init), links));
      hide Ready;
      hide LinksAfter;
      hide TunnelSteps;
      hide TunnelsReady;
      hide Created;
      hide Creates;
      hide Nameable;
      hide Available;
      ReadyConcat(AllTunnelSteps(init), TunnelSteps(last), links);
    }
  }

  // ----- groups, static routes and policy rules

  lemma {:induction false} MembersReady(table: int, ms: seq<WanMember>, links: set<string>)
    ensures LinksAfter(MemberSteps(table, ms), links) == links
    ensures Ready(MemberSteps(table, ms), links) <==> forall m | m in ms :: m.iface == "" || m.iface in links
  {
    if ms != [] {
      var init, last := ms[..|ms| - 1], ms[|ms| - 1];
      var step := ReplaceRoute(MemberKey(table, last), MemberHops(last));
      assert ms == init + [last];
      MembersReady(table, init, links);
      DefaultHasNoHostBits(GatewayFamily(last.gateway), table, Metric(last));
      assert MemberHops(last)[0] in MemberHops(last) && HopsFit(MemberHops(last), GatewayFamily(last.gateway));
      assert StepReady(step, links) <==> last.iface == "" || last.iface in links;
      ReadyOne(step, links);
      hide Ready;
      hide LinksAfter;
      ReadyConcat(MemberSteps(table, init), [step], links);
    }
  }

  lemma {:induction false} EcmpHopsKnown(ms: seq<WanMember>, links: set<string>)
    ensures HopsKnown(EcmpHops(ms), links) <==> forall m | m in ms :: m.iface == "" || m.iface in links
  {
    if ms != [] {
      var init, last := ms[..|ms| - 1], ms[|ms| - 1];
      assert ms == init + [last];
      EcmpHopsKnown(init, links);
      var hop := Nexthop(last.gateway, last.iface, Weight(last));
      forall h ensures h in EcmpHops(ms) <==> h in EcmpHops(init) || h == hop {}
    }
  }

  lemma {:induction false} EcmpHopsFit(ms: seq<WanMember>, fam: Family)
    ensures HopsFit(EcmpHops(ms), fam) <==> forall m | m in ms :: m.gateway.Via? ==> m.gateway.fam == fam
  {
    if ms != [] {
      var init, last := ms[..|ms| - 1], ms[|ms| - 1];
      assert ms == init + [last];
      EcmpHopsFit(init, fam);
      var hop := Nexthop(last.gateway, last.iface, Weight(last));
      forall h ensures h in EcmpHops(ms) <==> h in EcmpHops(init) || h == hop {}
    }
  }

  lemma OneGroupReady(g: WanGroup, links: set<string>)
    requires g.enabled
    ensures LinksAfter(GroupSteps(g), links) == links
    ensures Ready(GroupSteps(g), links) <==> GroupReady(g, links)
  {
    ReadyNone(links);
    MembersReady(g.table, g.members, links);
    EcmpHopsKnown(g.members, links);
    EcmpHopsFit(g.members, HopsFamily(EcmpHops(g.members)));
    var hops := EcmpHops(g.members);
    DefaultHasNoHostBits(HopsFamily(hops), g.table, RouteMetric(HopsFamily(hops), 0));
    ReadyOne(ReplaceRoute(EcmpKey(g.table, hops), hops), links);
    hide Ready;
    hide LinksAfter;
    hide MemberSteps;
    hide EcmpHops;
    hide HopsKnown;
    hide HopsFit;
    hide HopsFamily;
    hide HasHostBits;
  }

  lemma {:induction false} AllGroupsReady(gs: seq<WanGroup>, links: set<string>)
    ensures LinksAfter(AllGroupSteps(gs), links) == links
    ensures Ready(AllGroupSteps(gs), links) <==> forall g | g in gs :: GroupReady(g, links)
  {
    ReadyNone(links);
    if gs != [] {
      var init, last := gs[..|gs| - 1], gs[|gs| - 1];
      assert gs == init + [last];
      AllGroupsReady(init, links);
      if last.enabled {
        OneGroupReady(last, links);
      }
      var more := if last.enabled then GroupSteps(last) else [];
      hide Ready;
      hide LinksAfter;
      hide GroupSteps;
      ReadyConcat(AllGroupSteps(init), more, links);
      assert !last.enabled ==> GroupReady(last, links);
      hide GroupReady;
    }
  }

  lemma StaticHostBits(r: StaticRoute)
    ensures HasHostBits(StaticKey(r)) <==> Ragged(r.destination)
  {
    hide Pow2;
  }

  lemma {:induction false} StaticsReady(rs: seq<StaticRoute>, links: set<string>)
    ensures LinksAfter(StaticSteps(rs), links) == links
    ensures Ready(StaticSteps(rs), links) <==> forall r | r in rs :: StaticReady(r, links)
  {
    if rs != [] {
      var init, last := rs[..|rs| - 1], rs[|rs| - 1];
      var hop := Nexthop(last.gateway, last.iface, 1);
      var step := ReplaceRoute(StaticKey(last), [hop]);
      assert rs == init + [last];
      StaticsReady(init, links);
      StaticHostBits(last);
      hide StaticKey;
      hide HasHostBits;
      hide Ragged;
      assert hop in [hop];
      assert HopsFit([hop], StaticKey(last).fam) <==> last.gateway.Via? ==> last.gateway.fam == StaticKey(last).fam;
      assert StepReady(step, links) <==> StaticReady(last, links);
      ReadyOne(step, links);
      hide Ready;
      hide LinksAfter;
      ReadyConcat(StaticSteps(init), [step], links);
    }
  }

  lemma {:induction false} RulesReady(rules: seq<RouteRule>, c: Config, links: set<string>)
    ensures LinksAfter(RuleSteps(rules, c), links) == links
    ensures Ready(RuleSteps(rules, c), links)
  {
    hide RuleRoute;
    ReadyNone(links);
    if rules != [] {
      var init, last := rules[..|rules| - 1], rules[|rules| - 1];
      RulesReady(init, c, links);
      ReadyOne(RuleStep(last, c), links);
      var more := if Routed(last, c) then [RuleStep(last, c)] else [];
      hide Ready;
      hide LinksAfter;
      ReadyConcat(RuleSteps(init, c), more, links);
    }
  }

  /**
   The plan of a configuration completes on a host if and only if every tunnel finds its device or
   gets it under a name the kernel takes, every device of a group with a table and of a static
   route is there or created for a tunnel, no IPv4 destination has host bits, and every gateway is
   of its route's family.
   */
  lemma {:induction false} PlanCompletesIff(c: Config, s: State)
    requires Strict(s.rules)
    ensures Run(s, PlanSteps(c)).Some? <==> PlanReady(c, s.links.Keys)
  {
    var links, all := s.links.Keys, s.links.Keys + Created(c.tunnels);
    var a, g, r := AllTunnelSteps(c.tunnels), AllGroupSteps(c.routing.wanGroups), StaticSteps(c.routing.staticRoutes);
    var x := RuleSteps(StableSort(c.routing.rules), c);
    RunCompletesIff(s, PlanSteps(c));
    AllTunnelsReady(c.tunnels, links);
    AllGroupsReady(c.routing.wanGroups, all);
    StaticsReady(c.routing.staticRoutes, all);
    RulesReady(StableSort(c.routing.rules), c, all);
    hide Run;
    hide Ready;
    hide LinksAfter;
    hide AllTunnelSteps;
    hide AllGroupSteps;
    hide StaticSteps;
    hide RuleSteps;
    hide StableSort;
    hide TunnelsReady;
    hide Created;
    hide GroupReady;
    hide StaticReady;
    ReadyConcat(a, g + r + x, links);
    ReadyConcat(g + r, x, all);
    ReadyConcat(g, r, all);
  }
}
