/** Failover groups inside the plan of a configuration. */
module FailoverPlan {
  import opened Basics
  import opened Addresses
  import opened Config
  import opened Kernel
  import opened Reapply
  import opened RuleOrder
  import opened RoutingPlan
  import opened FailoverTables

  predicate PlansMembers(g: WanGroup) {
    g.enabled && g.table != 0 && g.mode != WeightedEcmp
  }

  /** No other group, no tunnel and no static route of the configuration writes a default of the table. */
  predicate SoleDefault(c: Config, k: nat)
    requires k < |c.routing.wanGroups|
  {
    var gs, table := c.routing.wanGroups, c.routing.wanGroups[k].table;
    && (forall j: nat | j < |gs| && j != k :: gs[j].enabled ==> gs[j].table != table)
    && (forall t | t in c.tunnels :: t.enabled ==> t.table != table)
    && (forall r | r in c.routing.staticRoutes :: StaticKey(r).table == table ==> StaticKey(r).dest != DEFAULT_DEST)
  }

  function StepsBefore(c: Config, k: nat): seq<Step>
    requires k < |c.routing.wanGroups|
  {
    AllTunnelSteps(c.tunnels) + AllGroupSteps(c.routing.wanGroups[..k])
  }

  function StepsAfter(c: Config, k: nat): seq<Step>
    requires k < |c.routing.wanGroups|
  {
    AllGroupSteps(c.routing.wanGroups[k + 1..]) +
    (StaticSteps(c.routing.staticRoutes) + RuleSteps(StableSort(c.routing.rules), c))
  }

  lemma {:induction false} GroupsConcat(a: seq<WanGroup>, b: seq<WanGroup>)
    ensures AllGroupSteps(a + b) == AllGroupSteps(a) + AllGroupSteps(b)
    decreases |b|
  {
    hide GroupSteps;
    if b == [] {
      assert a + b == a && AllGroupSteps(a) + [] == AllGroupSteps(a);
    } else {
      assert (a + b)[..|a + b| - 1] == a + b[..|b| - 1];
      GroupsConcat(a, b[..|b| - 1]);
    }
  }

  lemma OneGroup(g: WanGroup)
    ensures AllGroupSteps([g]) == if g.enabled then GroupSteps(g) else []
  {
    hide GroupSteps;
    assert [g][..0] == [];
    assert [] + GroupSteps(g) == GroupSteps(g);
  }

  lemma MembersGroup(g: WanGroup)
    requires PlansMembers(g)
    ensures GroupSteps(g) == MemberSteps(g.table, g.members)
  {
  }

  lemma Regroup(a: seq<Step>, x: seq<Step>, mine: seq<Step>, y: seq<Step>, z: seq<Step>, r: seq<Step>)
    ensures a + (x + (mine + y) + z + r) == a + x + mine + (y + (z + r))
  {
  }

  lemma PlanAroundGroup(c: Config, k: nat)
    requires k < |c.routing.wanGroups| && c.routing.wanGroups[k].enabled
    ensures PlanSteps(c) == StepsBefore(c, k) + GroupSteps(c.routing.wanGroups[k]) + StepsAfter(c, k)
  {
    hide AllTunnelSteps;
    hide AllGroupSteps;
    hide GroupSteps;
    hide StaticSteps;
    hide RuleSteps;
    hide StableSort;
    var gs := c.routing.wanGroups;
    var g := gs[k];
    assert gs == gs[..k] + ([g] + gs[k + 1..]);
    GroupsConcat(gs[..k], [g] + gs[k + 1..]);
    GroupsConcat([g], gs[k + 1..]);
    OneGroup(g);
    Regroup(AllTunnelSteps(c.tunnels), AllGroupSteps(gs[..k]), GroupSteps(g), AllGroupSteps(gs[k + 1..]),
            StaticSteps(c.routing.staticRoutes), RuleSteps(StableSort(c.routing.rules), c));
  }

  // ----- the other steps leave the table alone

  lemma LeavesConcat(a: seq<Step>, b: seq<Step>, table: int)
    requires LeavesTable(a, table) && LeavesTable(b, table)
    ensures LeavesTable(a + b, table)
  {
  }

  lemma NothingLeaves(table: int)
    ensures LeavesTable([], table)
  {
  }

  lemma {:induction false} AddressesLeave(name: string, addresses: seq<Cidr>, table: int)
    ensures LeavesTable(AddressSteps(name, addresses), table)
  {
    if addresses != [] {
      AddressesLeave(name, addresses[..|addresses| - 1], table);
    }
  }

  lemma TunnelLeaves(t: Tunnel, table: int)
    requires t.enabled ==> t.table != table
    ensures LeavesTable(TunnelSteps(t), table)
  {
    hide KernelSpec;
    hide ServiceManaged;
    AddressesLeave(t.interfaceName, t.localAddresses, table);
    hide AddressSteps;
  }

  lemma {:induction false} TunnelsLeave(ts: seq<Tunnel>, table: int)
    requires forall t | t in ts :: t.enabled ==> t.table != table
    ensures LeavesTable(AllTunnelSteps(ts), table)
  {
    hide TunnelSteps;
    hide LeavesTable;
    if ts == [] {
      NothingLeaves(table);
    } else {
      var init, last := ts[..|ts| - 1], ts[|ts| - 1];
      forall t | t in init ensures t in ts {}
      TunnelsLeave(init, table);
      assert last in ts;
      TunnelLeaves(last, table);
      LeavesConcat(AllTunnelSteps(init), TunnelSteps(last), table);
    }
  }

  lemma {:induction false} MembersLeave(own: int, ms: seq<WanMember>, table: int)
    requires own != table
    ensures LeavesTable(MemberSteps(own, ms), table)
  {
    if ms != [] {
      MembersLeave(own, ms[..|ms| - 1], table);
    }
  }

  lemma {:induction false} GroupsLeave(gs: seq<WanGroup>, table: int)
    requires forall g | g in gs :: g.enabled ==> g.table != table
    ensures LeavesTable(AllGroupSteps(gs), table)
  {
    if gs != [] {
      var init, last := gs[..|gs| - 1], gs[|gs| - 1];
      forall g | g in init ensures g in gs {}
      GroupsLeave(init, table);
      assert last in gs;
      if last.enabled {
        MembersLeave(last.table, last.members, table);
      }
      hide MemberSteps;
      hide EcmpHops;
    }
  }

  lemma {:induction false} StaticsLeave(rs: seq<StaticRoute>, table: int)
    requires forall r | r in rs :: StaticKey(r).table == table ==> StaticKey(r).dest != DEFAULT_DEST
    ensures LeavesTable(StaticSteps(rs), table)
  {
    hide StaticKey;
    if rs != [] {
      forall r | r in rs[..|rs| - 1] ensures r in rs {}
      StaticsLeave(rs[..|rs| - 1], table);
      assert rs[|rs| - 1] in rs;
    }
  }

  lemma {:induction false} RulesLeave(rules: seq<RouteRule>, c: Config, table: int)
    ensures LeavesTable(RuleSteps(rules, c), table)
  {
    hide RuleRoute;
    if rules != [] {
      RulesLeave(rules[..|rules| - 1], c, table);
    }
  }

  lemma SoleDefaultIsAlone(c: Config, k: nat, s: State)
    requires k < |c.routing.wanGroups| && SoleDefault(c, k) && FreshTable(s.routes, c.routing.wanGroups[k].table)
    ensures GroupAlone(StepsBefore(c, k), StepsAfter(c, k), s, c.routing.wanGroups[k].table)
  {
    var gs, table := c.routing.wanGroups, c.routing.wanGroups[k].table;
    forall g | g in gs[..k] ensures g.enabled ==> g.table != table {
      var j: nat :| j < k && gs[j] == g;
    }
    forall g | g in gs[k + 1..] ensures g.enabled ==> g.table != table {
      var j: nat :| k < j < |gs| && gs[j] == g;
    }
    hide LeavesTable;
    hide AllTunnelSteps;
    hide AllGroupSteps;
    hide StaticSteps;
    hide RuleSteps;
    hide StableSort;
    hide StaticKey;
    var y, z, r := AllGroupSteps(gs[k + 1..]), StaticSteps(c.routing.staticRoutes), RuleSteps(StableSort(c.routing.rules), c);
    TunnelsLeave(c.tunnels, table);
    GroupsLeave(gs[..k], table);
    GroupsLeave(gs[k + 1..], table);
    StaticsLeave(c.routing.staticRoutes, table);
    RulesLeave(StableSort(c.routing.rules), c, table);
    LeavesConcat(AllTunnelSteps(c.tunnels), AllGroupSteps(gs[..k]), table);
    LeavesConcat(z, r, table);
    LeavesConcat(y, z + r, table);
  }

  /**
   In a successful plan every member of a sole failover group keeps its default if and only if no
   two members of a family share a metric with different hops.
   */
  lemma {:induction false} PlannedMembersKeptIff(c: Config, k: nat, s: State, t: State)
    requires k < |c.routing.wanGroups| && PlansMembers(c.routing.wanGroups[k]) && SoleDefault(c, k)
    requires FreshTable(s.routes, c.routing.wanGroups[k].table) && Run(s, PlanSteps(c)) == Some(t)
    ensures var g := c.routing.wanGroups[k];
            (forall i: nat | i < |g.members| :: Kept(g.members, g.table, t, i)) <==>
            (forall i: nat, j: nat | i < j < |g.members| :: Agree(g.members, g.table, i, j))
  {
    var g := c.routing.wanGroups[k];
    hide Run;
    hide PlanSteps;
    hide SoleDefault;
    hide GroupAlone;
    hide StepsBefore;
    hide StepsAfter;
    hide MemberSteps;
    PlanAroundGroup(c, k);
    MembersGroup(g);
    SoleDefaultIsAlone(c, k, s);
    EveryMemberKeptIff(StepsBefore(c, k), g.members, StepsAfter(c, k), g.table, s, t);
  }

  /** In a successful plan the default selected from a sole failover group is always that of the best live member. */
  lemma {:induction false} PlannedFailoverSelectsBest(c: Config, k: nat, s: State, t: State, i: nat, dead: set<string>)
    requires k < |c.routing.wanGroups| && PlansMembers(c.routing.wanGroups[k]) && SoleDefault(c, k)
    requires FreshTable(s.routes, c.routing.wanGroups[k].table) && Run(s, PlanSteps(c)) == Some(t)
    requires DistinctMetrics(c.routing.wanGroups[k].members) && i < |c.routing.wanGroups[k].members|
    ensures var g := c.routing.wanGroups[k];
            Selected(t.routes, MemberKey(g.table, g.members[i]), GatewayFamily(g.members[i].gateway), g.table, dead) <==>
            BestLive(g.members, i, dead)
  {
    var g := c.routing.wanGroups[k];
    hide Run;
    hide PlanSteps;
    hide SoleDefault;
    hide GroupAlone;
    hide StepsBefore;
    hide StepsAfter;
    hide MemberSteps;
    PlanAroundGroup(c, k);
    MembersGroup(g);
    SoleDefaultIsAlone(c, k, s);
    FailoverSelectsBest(StepsBefore(c, k), g.members, StepsAfter(c, k), g.table, s, t, i, dead);
  }

  // ----- weighted groups

  predicate PlansWeights(g: WanGroup) {
    g.enabled && g.table != 0 && g.mode == WeightedEcmp
  }

  lemma WeightedSteps(g: WanGroup, key: RouteKey)
    requires PlansWeights(g)
    ensures var mine := EcmpKey(g.table, EcmpHops(g.members));
            LastRoute(GroupSteps(g), key) == if key == mine then Some(EcmpHops(g.members)) else None
    ensures EcmpKey(g.table, EcmpHops(g.members)).table == g.table
    ensures EcmpKey(g.table, EcmpHops(g.members)).dest == DEFAULT_DEST
  {
    hide EcmpHops;
    hide HopsFamily;
    var hops := EcmpHops(g.members);
    var step := ReplaceRoute(EcmpKey(g.table, hops), hops);
    assert GroupSteps(g) == [step];
    assert LastRoute([step][..0], key) == None;
  }

  /**
   In a successful plan the one default of a sole weighted group's table holds exactly its members,
   in order, with their gateways, devices and weights.
   */
  lemma {:induction false} PlannedWeights(c: Config, k: nat, s: State, t: State) returns (key: RouteKey)
    requires k < |c.routing.wanGroups| && PlansWeights(c.routing.wanGroups[k]) && SoleDefault(c, k)
    requires FreshTable(s.routes, c.routing.wanGroups[k].table) && Run(s, PlanSteps(c)) == Some(t)
    ensures var g := c.routing.wanGroups[k];
            && key in t.routes && key.table == g.table && key.dest == DEFAULT_DEST
            && HopsByFields(g.members, t.routes[key])
            && forall x | x in t.routes && x.table == g.table && x.dest == DEFAULT_DEST :: x == key
  {
    var g := c.routing.wanGroups[k];
    key := EcmpKey(g.table, EcmpHops(g.members));
    PlanAroundGroup(c, k);
    SoleDefaultIsAlone(c, k, s);
    EcmpHopsByFields(g.members);
    WeightedSteps(g, key);
    hide Run;
    hide PlanSteps;
    hide SoleDefault;
    hide GroupAlone;
    hide StepsBefore;
    hide StepsAfter;
    hide GroupSteps;
    hide EcmpHops;
    hide EcmpKey;
    hide LastRoute;
    hide HopsByFields;
    AloneContents(StepsBefore(c, k), GroupSteps(g), StepsAfter(c, k), g.table, s, key);
    forall x | x in t.routes && x.table == g.table && x.dest == DEFAULT_DEST ensures x == key {
      WeightedSteps(g, x);
      AloneContents(StepsBefore(c, k), GroupSteps(g), StepsAfter(c, k), g.table, s, x);
    }
  }
}
