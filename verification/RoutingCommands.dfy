/**
 The routing part of the plan as it is emitted: argument lists, scripts and warnings.
 Read back, the commands are the kernel steps of the abstract plan.
 */
module RoutingCommands {
  import opened Basics
  import opened Addresses
  import opened Config
  import opened Numerals
  import opened Scripts
  import opened Templates
  import opened StepReadings
  import opened CommandMeaning
  import opened Kernel
  import opened RuleOrder
  import opened RuleActions
  import opened RoutingPlan
  import E = Execution
  import V = Validation

  // ----- argument lists

  function StaticArgs(r: StaticRoute, sp: Spelling): seq<string> {
    ["route", "replace", sp.dest(r.destination)] +
    (Pair(r.gateway != NoGateway, "via", sp.addr(r.gateway)) +
     (Pair(r.iface != "", "dev", r.iface) +
      (Pair(r.table > 0, "table", IntText(r.table)) +
       Pair(r.metric > 0, "metric", IntText(r.metric)))))
  }

  function MemberArgs(table: int, m: WanMember, sp: Spelling): seq<string> {
    ["route", "replace", "default", "table", IntText(table)] +
    (Pair(m.gateway != NoGateway, "via", sp.addr(m.gateway)) +
     ["dev", m.iface, "metric", IntText(Metric(m))])
  }

  function HopArgs(m: WanMember, sp: Spelling): seq<string> {
    ["nexthop"] +
    (Pair(m.gateway != NoGateway, "via", sp.addr(m.gateway)) +
     (["dev", m.iface] + Pair(m.weight > 0, "weight", IntText(m.weight))))
  }

  function HopsArgs(members: seq<WanMember>, sp: Spelling): seq<string> {
    if members == [] then [] else HopsArgs(members[..|members| - 1], sp) + HopArgs(members[|members| - 1], sp)
  }

  function EcmpArgs(g: WanGroup, sp: Spelling): seq<string> {
    ["route", "replace", "default", "table", IntText(g.table)] + HopsArgs(g.members, sp)
  }

  // ----- the planned steps

  function Runs(description: string, program: string, args: seq<string>): E.Step {
    E.Step(E.RunsCommand, description, Some(E.Command(program, args)), "", "", "")
  }

  function Warns(text: string): E.Step {
    E.Step(E.IsWarning, text, None, "", "", "")
  }

  function MemberCommands(id: string, table: int, members: seq<WanMember>, sp: Spelling): seq<E.Step> {
    if members == [] then [] else
      var m := members[|members| - 1];
      MemberCommands(id, table, members[..|members| - 1], sp) +
      [Runs("install failover WAN member " + id + "/" + m.iface, "ip", MemberArgs(table, m, sp))]
  }

  function NoTableWarning(id: string): string {
    "WAN group " + id + " is enabled without table; it can be edited but cannot install a routing table"
  }

  function GroupCommands(g: WanGroup, sp: Spelling): seq<E.Step> {
    if g.table == 0 then [Warns(NoTableWarning(g.id))]
    else if g.mode == WeightedEcmp then [Runs("install weighted WAN group " + g.id, "ip", EcmpArgs(g, sp))]
    else MemberCommands(g.id, g.table, g.members, sp)
  }

  function AllGroupCommands(gs: seq<WanGroup>, sp: Spelling): seq<E.Step> {
    if gs == [] then [] else
      AllGroupCommands(gs[..|gs| - 1], sp) + (if gs[|gs| - 1].enabled then GroupCommands(gs[|gs| - 1], sp) else [])
  }

  function StaticCommands(rs: seq<StaticRoute>, sp: Spelling): seq<E.Step> {
    if rs == [] then [] else
      var r := rs[|rs| - 1];
      StaticCommands(rs[..|rs| - 1], sp) +
      [Runs("add static route " + sp.dest(r.destination), "ip", StaticArgs(r, sp))]
  }

  function RuleCommand(rule: RouteRule, c: Config): E.Step {
    var route := RuleRoute(rule, c);
    Runs("install policy rule " + rule.id, "sh", ["-c", Text(RuleScript(rule.priority, route.mark, route.table))])
  }

  function RuleCommands(rules: seq<RouteRule>, c: Config): seq<E.Step> {
    if rules == [] then [] else
      RuleCommands(rules[..|rules| - 1], c) +
      (if Routed(rules[|rules| - 1], c) then [RuleCommand(rules[|rules| - 1], c)] else [])
  }

  function RoutingCommandSteps(c: Config, sp: Spelling): seq<E.Step> {
    AllGroupCommands(c.routing.wanGroups, sp) + StaticCommands(c.routing.staticRoutes, sp) +
    RuleCommands(StableSort(c.routing.rules), c)
  }

  // ----- the generator

  method StaticRouteArgs(route: StaticRoute, sp: Spelling) returns (args: seq<string>)
    ensures args == StaticArgs(route, sp)
  {
    args := ["route", "replace", sp.dest(route.destination)];
    if route.gateway != NoGateway {
      args := args + ["via", sp.addr(route.gateway)];
    }
    if route.iface != "" {
      args := args + ["dev", route.iface];
    }
    if route.table > 0 {
      args := args + ["table", IntText(route.table)];
    }
    if route.metric > 0 {
      args := args + ["metric", IntText(route.metric)];
    }
  }

  method NexthopArgs(member: WanMember, sp: Spelling) returns (args: seq<string>)
    ensures args == HopArgs(member, sp)
  {
    args := ["nexthop"];
    if member.gateway != NoGateway {
      args := args + ["via", sp.addr(member.gateway)];
    }
    args := args + ["dev", member.iface];
    if member.weight > 0 {
      args := args + ["weight", IntText(member.weight)];
    }
  }

  method WeightedArgs(group: WanGroup, sp: Spelling) returns (args: seq<string>)
    ensures args == EcmpArgs(group, sp)
  {
    hide HopArgs;
    var members := group.members;
    args := ["route", "replace", "default", "table", IntText(group.table)];
    ghost var front := args;
    for i := 0 to |members|
      invariant args == front + HopsArgs(members[..i], sp)
    {
      assert members[..i + 1][..i] == members[..i];
      var hop := NexthopArgs(members[i], sp);
      args := args + hop;
    }
    assert members[..|members|] == members;
  }

  method FailoverArgs(table: int, member: WanMember, sp: Spelling) returns (args: seq<string>)
    ensures args == MemberArgs(table, member, sp)
  {
    var metric := member.priority;
    if metric == 0 {
      metric := 100;
    }
    args := ["route", "replace", "default", "table", IntText(table), "dev", member.iface, "metric", IntText(metric)];
    if member.gateway != NoGateway {
      args := ["route", "replace", "default", "table", IntText(table), "via", sp.addr(member.gateway)] +
              ["dev", member.iface, "metric", IntText(metric)];
    }
  }

  method AddWanGroupPlan(plan: E.Plan, group: WanGroup, sp: Spelling)
    requires plan.Valid()
    modifies plan
    ensures plan.Valid() && plan.steps == old(plan.steps) + GroupCommands(group, sp)
  {
    hide E.WellBuilt;
    hide EcmpArgs;
    hide MemberArgs;
    hide NoTableWarning;
    if group.table == 0 {
      plan.AddWarning(NoTableWarning(group.id));
      return;
    }
    if group.mode == WeightedEcmp {
      var args := WeightedArgs(group, sp);
      plan.AddCommand("install weighted WAN group " + group.id, "ip", args);
      return;
    }
    var members := group.members;
    for i := 0 to |members|
      invariant plan.Valid()
      invariant plan.steps == old(plan.steps) + MemberCommands(group.id, group.table, members[..i], sp)
    {
      assert members[..i + 1][..i] == members[..i];
      var args := FailoverArgs(group.table, members[i], sp);
      plan.AddCommand("install failover WAN member " + group.id + "/" + members[i].iface, "ip", args);
    }
    assert members[..|members|] == members;
  }

  method AddRules(plan: E.Plan, rules: seq<RouteRule>, c: Config)
    requires plan.Valid()
    modifies plan
    ensures plan.Valid() && plan.steps == old(plan.steps) + RuleCommands(rules, c)
  {
    hide E.WellBuilt;
    hide RuleScript;
    for i := 0 to |rules|
      invariant plan.Valid()
      invariant plan.steps == old(plan.steps) + RuleCommands(rules[..i], c)
    {
      assert rules[..i + 1][..i] == rules[..i];
      var rule := rules[i];
      if !rule.enabled {
        continue;
      }
      var mark, table := ResolveRuleRouteWithGroups(rule, c.tunnels, c.routing.wanGroups);
      assert Route(mark, table) == RuleRoute(rule, c);
      if mark == 0 || table == 0 {
        continue;
      }
      plan.AddCommand("install policy rule " + rule.id, "sh", ["-c", Text(RuleScript(rule.priority, mark, table))]);
    }
    assert rules[..|rules|] == rules;
  }

  method AddRoutingPlan(plan: E.Plan, c: Config, sp: Spelling)
    requires plan.Valid()
    modifies plan
    ensures plan.Valid() && plan.steps == old(plan.steps) + RoutingCommandSteps(c, sp)
  {
    hide E.WellBuilt;
    hide GroupCommands;
    hide StaticArgs;
    hide RuleCommands;
    hide StableSort;
    var groups, routes := c.routing.wanGroups, c.routing.staticRoutes;
    for i := 0 to |groups|
      invariant plan.Valid() && plan.steps == old(plan.steps) + AllGroupCommands(groups[..i], sp)
    {
      assert groups[..i + 1][..i] == groups[..i];
      if !groups[i].enabled {
        continue;
      }
      AddWanGroupPlan(plan, groups[i], sp);
    }
    assert groups[..|groups|] == groups;
    ghost var before := plan.steps;
    for i := 0 to |routes|
      invariant plan.Valid() && plan.steps == before + StaticCommands(routes[..i], sp)
    {
      assert routes[..i + 1][..i] == routes[..i];
      var args := StaticRouteArgs(routes[i], sp);
      plan.AddCommand("add static route " + sp.dest(routes[i].destination), "ip", args);
    }
    assert routes[..|routes|] == routes;
    AddRules(plan, StableSort(c.routing.rules), c);
  }

  // ----- reading them back

  lemma StaticArgsRead(r: StaticRoute, sp: Spelling)
    requires Consistent(sp) && r.destination.Cidr? && !r.gateway.BadGateway? && r.table >= 0 && r.metric >= 0
    ensures ReadRoute(StaticArgs(r, sp), sp) == Some(ReplaceRoute(StaticKey(r), [Nexthop(r.gateway, r.iface, 1)]))
  {
    IntRoundTrip(r.table);
    IntRoundTrip(r.metric);
    hide ReadFields;
    hide IntText;
    hide ParseInt;
    hide Pair;
    var f0 := NO_FIELDS;
    var f1 := f0.(via := r.gateway);
    var f2 := f1.(dev := r.iface);
    var f3 := f2.(table := if r.table > 0 then r.table else MAIN_TABLE);
    var f4 := f3.(metric := r.metric);
    var p4 := Pair(r.metric > 0, "metric", IntText(r.metric));
    var p3 := Pair(r.table > 0, "table", IntText(r.table)) + p4;
    var p2 := Pair(r.iface != "", "dev", r.iface) + p3;
    var p1 := Pair(r.gateway != NoGateway, "via", sp.addr(r.gateway)) + p2;
    ReadPair(r.gateway != NoGateway, "via", sp.addr(r.gateway), p2, f0, sp);
    ReadPair(r.iface != "", "dev", r.iface, p3, f1, sp);
    ReadPair(r.table > 0, "table", IntText(r.table), p4, f2, sp);
    ReadPair(r.metric > 0, "metric", IntText(r.metric), [], f3, sp);
    assert p4 + [] == p4;
    assert ReadFields([], f4, sp) == Some(f4) by { ReadNothing(f4, sp); }
    assert StaticArgs(r, sp)[3..] == p1;
  }

  /** A static route's arguments are read back as its route, field by field. */
  lemma {:induction false} StaticRead(r: StaticRoute, sp: Spelling)
    requires Consistent(sp) && r.destination.Cidr? && !r.gateway.BadGateway? && r.table >= 0 && r.metric >= 0
    ensures ReadRoute(StaticArgs(r, sp), sp) == Some(ReplaceRoute(StaticKey(r), [Nexthop(r.gateway, r.iface, 1)]))
    ensures StaticByFields(r, StaticKey(r), [Nexthop(r.gateway, r.iface, 1)])
  {
    hide Consistent;
    hide ReadRoute;
    hide StaticArgs;
    hide StaticKey;
    hide StaticByFields;
    StaticArgsRead(r, sp);
    StaticIsByFields(r);
  }

  lemma OneHopFamily(h: Nexthop)
    ensures HopsFamily([h]) == GatewayFamily(h.gateway)
  {
    assert [h][1..] == [];
  }

  /** A member validation accepts: its gateway is an address or absent, its priority not negative. */
  predicate MemberFits(m: WanMember) {
    !m.gateway.BadGateway? && m.priority >= 0
  }

  lemma MemberArgsRead(table: int, m: WanMember, sp: Spelling)
    requires Consistent(sp) && MemberFits(m)
    ensures ReadRoute(MemberArgs(table, m, sp), sp) == Some(ReplaceRoute(MemberKey(table, m), MemberHops(m)))
  {
    OneHopFamily(Nexthop(m.gateway, m.iface, 1));
    IntRoundTrip(table);
    IntRoundTrip(Metric(m));
    hide ReadFields;
    hide IntText;
    hide ParseInt;
    assert Metric(m) > 0;
    hide Metric;
    var metric := IntText(Metric(m));
    var f1 := NO_FIELDS.(table := table);
    var f2 := f1.(via := m.gateway);
    var f3 := f2.(dev := m.iface);
    var f4 := f3.(metric := Metric(m));
    var p4 := Pair(true, "metric", metric);
    var p3 := Pair(true, "dev", m.iface) + p4;
    var p2 := Pair(m.gateway != NoGateway, "via", sp.addr(m.gateway)) + p3;
    ReadPair(true, "table", IntText(table), p2, NO_FIELDS, sp);
    ReadPair(m.gateway != NoGateway, "via", sp.addr(m.gateway), p3, f1, sp);
    ReadPair(true, "dev", m.iface, p4, f2, sp);
    ReadPair(true, "metric", metric, [], f3, sp);
    assert p4 + [] == p4;
    ReadNothing(f4, sp);
    assert p3 == ["dev", m.iface, "metric", metric];
    assert MemberArgs(table, m, sp)[3..] == Pair(true, "table", IntText(table)) + p2;
  }

  /** A failover member's arguments are read back as its route, field by field. */
  lemma {:induction false} MemberRead(table: int, m: WanMember, sp: Spelling)
    requires Consistent(sp) && MemberFits(m)
    ensures ReadRoute(MemberArgs(table, m, sp), sp) == Some(ReplaceRoute(MemberKey(table, m), MemberHops(m)))
    ensures MemberByFields(table, m, MemberKey(table, m), MemberHops(m))
  {
    hide Consistent;
    hide ReadRoute;
    hide MemberArgs;
    hide MemberKey;
    hide MemberHops;
    hide MemberByFields;
    MemberArgsRead(table, m, sp);
    MemberIsByFields(table, m);
  }

  /** The nexthop an ECMP member stands for. */
  function HopOf(m: WanMember): Nexthop {
    Nexthop(m.gateway, m.iface, Weight(m))
  }

  lemma NexthopStarts(rest: seq<string>, done: seq<Nexthop>, open: Nexthop, sp: Spelling)
    ensures ReadHops(["nexthop"] + rest, done, open, sp) == ReadHops(rest, done + [open], NO_HOP, sp)
  {
    assert (["nexthop"] + rest)[1..] == rest;
  }

  lemma HopRead(m: WanMember, rest: seq<string>, done: seq<Nexthop>, open: Nexthop, sp: Spelling)
    requires Consistent(sp) && !m.gateway.BadGateway?
    ensures ReadHops(HopArgs(m, sp) + rest, done, open, sp) == ReadHops(rest, done + [open], HopOf(m), sp)
  {
    IntRoundTrip(m.weight);
    hide ReadHops;
    hide IntText;
    hide ParseInt;
    var h1 := NO_HOP.(gateway := m.gateway);
    var h2 := h1.(dev := m.iface);
    var p3 := Pair(m.weight > 0, "weight", IntText(m.weight)) + rest;
    var p2 := Pair(true, "dev", m.iface) + p3;
    var p1 := Pair(m.gateway != NoGateway, "via", sp.addr(m.gateway)) + p2;
    ReadHopPair(m.gateway != NoGateway, "via", sp.addr(m.gateway), p2, done + [open], NO_HOP, sp);
    ReadHopPair(true, "dev", m.iface, p3, done + [open], h1, sp);
    ReadHopPair(m.weight > 0, "weight", IntText(m.weight), rest, done + [open], h2, sp);
    hide Pair;
    assert Pair(true, "dev", m.iface) == ["dev", m.iface] by { PairPresent("dev", m.iface); }
    assert HopArgs(m, sp) + rest == ["nexthop"] + p1;
    NexthopStarts(p1, done, open, sp);
  }

  lemma HopStarts(m: WanMember, sp: Spelling)
    ensures HopArgs(m, sp) != [] && HopArgs(m, sp)[0] == "nexthop"
  {
  }

  lemma HopsShape(members: seq<WanMember>, rest: seq<string>, sp: Spelling)
    requires members != []
    ensures HopsArgs(members, sp) + rest ==
            HopsArgs(members[..|members| - 1], sp) + (HopArgs(members[|members| - 1], sp) + rest)
  {
    hide HopArgs;
  }

  lemma FirstHopRead(m: WanMember, rest: seq<string>, sp: Spelling)
    requires Consistent(sp) && !m.gateway.BadGateway?
    ensures ReadHops((HopArgs(m, sp) + rest)[1..], [], NO_HOP, sp) == ReadHops(rest, [], HopOf(m), sp)
  {
    IntRoundTrip(m.weight);
    hide ReadHops;
    hide IntText;
    hide ParseInt;
    var h1 := NO_HOP.(gateway := m.gateway);
    var h2 := h1.(dev := m.iface);
    var p3 := Pair(m.weight > 0, "weight", IntText(m.weight)) + rest;
    var p2 := Pair(true, "dev", m.iface) + p3;
    var p1 := Pair(m.gateway != NoGateway, "via", sp.addr(m.gateway)) + p2;
    ReadHopPair(m.gateway != NoGateway, "via", sp.addr(m.gateway), p2, [], NO_HOP, sp);
    ReadHopPair(true, "dev", m.iface, p3, [], h1, sp);
    ReadHopPair(m.weight > 0, "weight", IntText(m.weight), rest, [], h2, sp);
    PairPresent("dev", m.iface);
    hide Pair;
    assert HopArgs(m, sp) + rest == ["nexthop"] + p1;
    assert (["nexthop"] + p1)[1..] == p1;
  }

  lemma EcmpSnoc(members: seq<WanMember>)
    requires members != []
    ensures EcmpHops(members) == EcmpHops(members[..|members| - 1]) + [HopOf(members[|members| - 1])]
  {
  }

  /** The nexthops are read one after the other; the last one is still open. */
  lemma {:induction false} HopsRead(members: seq<WanMember>, rest: seq<string>, sp: Spelling)
    requires Consistent(sp) && members != [] && forall m | m in members :: !m.gateway.BadGateway?
    ensures ReadHops((HopsArgs(members, sp) + rest)[1..], [], NO_HOP, sp) ==
            ReadHops(rest, EcmpHops(members[..|members| - 1]), HopOf(members[|members| - 1]), sp)
    ensures HopsArgs(members, sp) != [] && HopsArgs(members, sp)[0] == "nexthop"
  {
    hide ReadHops;
    hide Consistent;
    hide HopOf;
    hide HopArgs;
    var init, last := members[..|members| - 1], members[|members| - 1];
    var tail := HopArgs(last, sp) + rest;
    HopStarts(last, sp);
    HopsShape(members, rest, sp);
    if init == [] {
      FirstHopRead(last, rest, sp);
      assert HopsArgs(init, sp) + tail == tail;
      assert EcmpHops(init) == [];
      assert HopsArgs(members, sp) == HopArgs(last, sp);
    } else {
      HopsRead(init, tail, sp);
      HopRead(last, rest, EcmpHops(init[..|init| - 1]), HopOf(init[|init| - 1]), sp);
      EcmpSnoc(init);
      assert HopsArgs(members, sp)[0] == HopsArgs(init, sp)[0];
    }
  }

  lemma HopFieldsRead(members: seq<WanMember>, f: Fields, sp: Spelling)
    requires Consistent(sp) && members != [] && forall m | m in members :: !m.gateway.BadGateway?
    ensures ReadFields(HopsArgs(members, sp), f, sp) == Some(f.(hops := EcmpHops(members)))
  {
    hide HopsArgs;
    hide EcmpHops;
    hide Consistent;
    HopsRead(members, [], sp);
    EcmpSnoc(members);
    var hops := HopsArgs(members, sp);
    assert hops + [] == hops;
  }

  lemma {:induction false} EcmpRead(g: WanGroup, sp: Spelling)
    requires Consistent(sp) && g.members != [] && forall m | m in g.members :: !m.gateway.BadGateway?
    ensures ReadRoute(EcmpArgs(g, sp), sp) ==
            Some(ReplaceRoute(EcmpKey(g.table, EcmpHops(g.members)), EcmpHops(g.members)))
    ensures EcmpKey(g.table, EcmpHops(g.members)).table == g.table
    ensures EcmpKey(g.table, EcmpHops(g.members)).dest == Dest(0, 0)
    ensures HopsByFields(g.members, EcmpHops(g.members))
  {
    EcmpHopsByFields(g.members);
    hide HopsByFields;
    hide HopsArgs;
    hide IntText;
    hide ParseInt;
    hide Consistent;
    hide ReadFields;
    hide HopsFamily;
    IntRoundTrip(g.table);
    EcmpSnoc(g.members);
    hide EcmpHops;
    var hops := HopsArgs(g.members, sp);
    var f := NO_FIELDS.(table := g.table);
    HopFieldsRead(g.members, f, sp);
    ReadPair(true, "table", IntText(g.table), hops, NO_FIELDS, sp);
    PairPresent("table", IntText(g.table));
    hide Pair;
    assert EcmpArgs(g, sp)[3..] == ["table", IntText(g.table)] + hops;
  }

  /** The default route of a tunnel's own table. */
  lemma {:induction false} TunnelRouteRead(name: string, table: int, sp: Spelling)
    ensures ReadRoute(["route", "replace", "default", "dev", name, "table", IntText(table)], sp) ==
            Some(ReplaceRoute(RouteKey(V4, table, DEFAULT_DEST, 0), [Nexthop(NoGateway, name, 1)]))
  {
    hide IntText;
    hide ParseInt;
    hide ReadFields;
    OneHopFamily(Nexthop(NoGateway, name, 1));
    IntRoundTrip(table);
    var args := ["route", "replace", "default", "dev", name, "table", IntText(table)];
    var rest := Pair(true, "table", IntText(table));
    ReadPair(true, "dev", name, rest, NO_FIELDS, sp);
    ReadPair(true, "table", IntText(table), [], NO_FIELDS.(dev := name), sp);
    ReadNothing(NO_FIELDS.(dev := name, table := table), sp);
    assert rest + [] == rest;
    assert args[3..] == Pair(true, "dev", name) + rest;
  }

  // ----- the commands mean the abstract plan

  lemma RouteEffect(description: string, args: seq<string>, st: Step, sp: Spelling)
    requires args != [] && args[0] == "route" && ReadRoute(args, sp) == Some(st)
    ensures Effect(Runs(description, "ip", args), sp) == Some([st])
  {
    hide ReadRoute;
  }

  lemma ScriptEffect(description: string, script: string, st: Step, sp: Spelling)
    requires Reading(script) == Some(st)
    ensures Effect(Runs(description, "sh", ["-c", script]), sp) == Some([st])
  {
    hide Reading;
    hide ReadIp;
  }

  lemma {:induction false} MembersMean(id: string, table: int, ms: seq<WanMember>, sp: Spelling)
    requires Consistent(sp) && forall m | m in ms :: MemberFits(m)
    ensures Effects(MemberCommands(id, table, ms, sp), sp) == Some(MemberSteps(table, ms))
  {
    hide Consistent;
    hide ReadRoute;
    hide Effect;
    hide MemberKey;
    if ms != [] {
      var init, m := ms[..|ms| - 1], ms[|ms| - 1];
      var description := "install failover WAN member " + id + "/" + m.iface;
      MembersMean(id, table, init, sp);
      MemberRead(table, m, sp);
      RouteEffect(description, MemberArgs(table, m, sp), ReplaceRoute(MemberKey(table, m), MemberHops(m)), sp);
      hide MemberArgs;
      hide MemberHops;
      EffectsSnoc(MemberCommands(id, table, init, sp), Runs(description, "ip", MemberArgs(table, m, sp)),
                  MemberSteps(table, init), [ReplaceRoute(MemberKey(table, m), MemberHops(m))], sp);
    }
  }

  lemma GroupMeans(g: WanGroup, known: set<string>, sp: Spelling)
    requires Consistent(sp) && V.WanGroupOk(g, known)
    ensures Effects(GroupCommands(g, sp), sp) == Some(GroupSteps(g))
  {
    hide Consistent;
    hide ReadRoute;
    hide EcmpHops;
    hide EcmpKey;
    hide V.IsIdentifier;
    hide MemberCommands;
    hide MemberSteps;
    hide NoTableWarning;
    forall m | m in g.members ensures MemberFits(m) {
      assert V.MemberOk(m, known);
    }
    if g.table == 0 {
      EffectsOne(Warns(NoTableWarning(g.id)), sp);
    } else if g.mode == WeightedEcmp {
      EcmpRead(g, sp);
      RouteEffect("install weighted WAN group " + g.id, EcmpArgs(g, sp),
                  ReplaceRoute(EcmpKey(g.table, EcmpHops(g.members)), EcmpHops(g.members)), sp);
      hide EcmpArgs;
      hide Effect;
      EffectsOne(Runs("install weighted WAN group " + g.id, "ip", EcmpArgs(g, sp)), sp);
    } else {
      MembersMean(g.id, g.table, g.members, sp);
    }
  }

  lemma {:induction false} GroupsMean(gs: seq<WanGroup>, known: set<string>, sp: Spelling)
    requires Consistent(sp) && forall g | g in gs :: V.WanGroupOk(g, known)
    ensures Effects(AllGroupCommands(gs, sp), sp) == Some(AllGroupSteps(gs))
  {
    hide Consistent;
    hide V.WanGroupOk;
    hide GroupCommands;
    hide GroupSteps;
    hide Effect;
    if gs != [] {
      var init, g := gs[..|gs| - 1], gs[|gs| - 1];
      GroupsMean(init, known, sp);
      GroupMeans(g, known, sp);
      if g.enabled {
        EffectsConcat(AllGroupCommands(init, sp), GroupCommands(g, sp), AllGroupSteps(init), GroupSteps(g), sp);
      } else {
        assert AllGroupCommands(gs, sp) == AllGroupCommands(init, sp) && AllGroupSteps(gs) == AllGroupSteps(init);
      }
    }
  }

  lemma {:induction false} StaticsMean(rs: seq<StaticRoute>, known: set<string>, sp: Spelling)
    requires Consistent(sp) && forall r | r in rs :: V.StaticRouteOk(r, known)
    ensures Effects(StaticCommands(rs, sp), sp) == Some(StaticSteps(rs))
  {
    hide Consistent;
    hide ReadRoute;
    hide Effect;
    hide StaticKey;
    if rs != [] {
      var init, r := rs[..|rs| - 1], rs[|rs| - 1];
      var description := "add static route " + sp.dest(r.destination);
      var st := ReplaceRoute(StaticKey(r), [Nexthop(r.gateway, r.iface, 1)]);
      StaticsMean(init, known, sp);
      assert V.StaticRouteOk(r, known);
      StaticRead(r, sp);
      RouteEffect(description, StaticArgs(r, sp), st, sp);
      hide StaticArgs;
      EffectsSnoc(StaticCommands(init, sp), Runs(description, "ip", StaticArgs(r, sp)), StaticSteps(init), [st], sp);
    }
  }

  lemma {:induction false} RulesMean(rules: seq<RouteRule>, c: Config, sp: Spelling)
    ensures Effects(RuleCommands(rules, c), sp) == Some(RuleSteps(rules, c))
  {
    hide Reading;
    hide RuleRoute;
    hide RuleScript;
    hide Text;
    hide Effect;
    if rules != [] {
      var init, last := rules[..|rules| - 1], rules[|rules| - 1];
      var route := RuleRoute(last, c);
      RulesMean(init, c, sp);
      if Routed(last, c) {
        RuleRoundTrip(last.priority, route.mark, route.table);
        ScriptEffect("install policy rule " + last.id, Text(RuleScript(last.priority, route.mark, route.table)),
                     RuleStep(last, c), sp);
        EffectsSnoc(RuleCommands(init, c), RuleCommand(last, c), RuleSteps(init, c), [RuleStep(last, c)], sp);
      } else {
        assert RuleCommands(rules, c) == RuleCommands(init, c) && RuleSteps(rules, c) == RuleSteps(init, c);
      }
    }
  }

  /** The emitted routing plan means the abstract one. */
  lemma {:induction false} RoutingMeans(c: Config, sp: Spelling)
    requires V.ValidConfig(c) && Consistent(sp)
    ensures Effects(RoutingCommandSteps(c, sp), sp) == Some(RoutingSteps(c))
  {
    var known := V.KnownLinks(c);
    var a, b, r := AllGroupCommands(c.routing.wanGroups, sp), StaticCommands(c.routing.staticRoutes, sp),
                   RuleCommands(StableSort(c.routing.rules), c);
    var x, y, z := AllGroupSteps(c.routing.wanGroups), StaticSteps(c.routing.staticRoutes),
                   RuleSteps(StableSort(c.routing.rules), c);
    hide V.KnownLinks;
    hide Consistent;
    hide Effects;
    GroupsMean(c.routing.wanGroups, known, sp);
    StaticsMean(c.routing.staticRoutes, known, sp);
    hide V.ValidConfig;
    RulesMean(StableSort(c.routing.rules), c, sp);
    EffectsConcat(a, b, x, y, sp);
    EffectsConcat(a + b, r, x + y, z, sp);
  }

  // ----- the order of the emitted policy-rule commands

  lemma {:induction false} OnlyEnabledCommanded(rules: seq<RouteRule>, c: Config)
    ensures RuleCommands(rules, c) == RuleCommands(EnabledOnly(rules), c)
  {
    hide RuleRoute;
    hide RuleCommand;
    if rules != [] {
      var init, last := rules[..|rules| - 1], rules[|rules| - 1];
      OnlyEnabledCommanded(init, c);
      if last.enabled {
        assert EnabledOnly(rules)[..|EnabledOnly(rules)| - 1] == EnabledOnly(init);
      } else {
        assert EnabledOnly(rules) == EnabledOnly(init);
        assert RuleCommands(init, c) + [] == RuleCommands(init, c);
      }
    }
  }

  lemma {:induction false} SameCommandContext(rules: seq<RouteRule>, c: Config, d: Config)
    requires c.tunnels == d.tunnels && c.routing.wanGroups == d.routing.wanGroups
    ensures RuleCommands(rules, c) == RuleCommands(rules, d)
  {
    hide RouteOf;
    hide RuleScript;
    hide Text;
    if rules != [] {
      SameCommandContext(rules[..|rules| - 1], c, d);
    }
  }

  /** With distinct priorities among enabled rules, every permutation emits the same `ip rule` commands. */
  lemma {:induction false} RuleCommandsIgnoreConfigOrder(c: Config, rules: seq<RouteRule>)
    requires multiset(rules) == multiset(c.routing.rules) && DistinctPriorities(c.routing.rules)
    ensures var d := c.(routing := c.routing.(rules := rules));
            RuleCommands(StableSort(d.routing.rules), d) == RuleCommands(StableSort(c.routing.rules), c)
  {
    var d := c.(routing := c.routing.(rules := rules));
    OrderIndependent(c.routing.rules, rules);
    OnlyEnabledCommanded(StableSort(rules), d);
    OnlyEnabledCommanded(StableSort(c.routing.rules), c);
    SameCommandContext(EnabledOnly(StableSort(rules)), c, d);
  }
}
