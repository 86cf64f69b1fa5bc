/** From the packet to the device: where a packet that a rule steers leaves the router. */
module Departure {
  import opened Basics
  import opened Addresses
  import opened Config
  import opened Nft
  import opened MatchCompiler
  import opened MatchMeaning
  import opened RuleActions
  import opened PolicyChains
  import opened Validation
  import opened Kernel
  import opened Reapply
  import opened RuleOrder
  import opened RoutingPlan
  import opened EndToEnd
  import opened ValidatedPolicy
  import Verdicts
  import opened TunnelOutcome
  import opened FailoverTables
  import opened FailoverPlan

  // ----- the kernel's choice in a table

  /** An IPv4 route of the table whose destination holds the address. */
  predicate Covers(key: RouteKey, table: int, dst: nat) {
    && key.fam == V4 && key.table == table
    && key.dest.Dest? && key.dest.bits <= 32
    && dst / Pow2(32 - key.dest.bits) == key.dest.addr / Pow2(32 - key.dest.bits)
  }

  predicate Live(routes: map<RouteKey, seq<Nexthop>>, key: RouteKey, dead: set<string>) {
    key in routes && exists h | h in routes[key] :: h.dev !in dead
  }

  /** The longest live prefix that holds the address, and of those the smallest metric. */
  ghost predicate Chosen(routes: map<RouteKey, seq<Nexthop>>, key: RouteKey, table: int, dst: nat, dead: set<string>) {
    && Covers(key, table, dst) && Live(routes, key, dead)
    && forall k | k in routes && k != key && Covers(k, table, dst) && Live(routes, k, dead) ::
         k.dest.bits < key.dest.bits || (k.dest.bits == key.dest.bits && key.metric < k.metric)
  }

  /** A packet with the mark is sent to the device: the route chosen in the table the mark leads to uses it. */
  ghost predicate LeavesBy(t: State, mark: int, dst: nat, dead: set<string>, dev: string, key: RouteKey) {
    && GoesTo(t.rules, mark, key.table)
    && Chosen(t.routes, key, key.table, dst, dead)
    && forall h | h in t.routes[key] :: h.dev == dev
  }

  // ----- who writes a route

  /** Only default routes with metrics from zero up are written. */
  predicate Defaults(steps: seq<Step>) {
    forall st | st in steps && st.ReplaceRoute? :: st.key.dest == DEFAULT_DEST && st.key.metric >= 0
  }

  lemma {:induction false} AddressesDefault(name: string, addresses: seq<Cidr>)
    ensures Defaults(AddressSteps(name, addresses))
  {
    if addresses != [] {
      AddressesDefault(name, addresses[..|addresses| - 1]);
    }
  }

  lemma DefaultsConcat(a: seq<Step>, b: seq<Step>)
    requires Defaults(a) && Defaults(b)
    ensures Defaults(a + b)
  {
  }

  lemma TunnelDefaults(t: Tunnel)
    ensures Defaults(TunnelSteps(t))
  {
    hide KernelSpec;
    hide ServiceManaged;
    AddressesDefault(t.interfaceName, t.localAddresses);
    hide AddressSteps;
  }

  lemma {:induction false} TunnelsDefault(ts: seq<Tunnel>)
    ensures Defaults(AllTunnelSteps(ts))
  {
    if ts != [] {
      var init, last := ts[..|ts| - 1], ts[|ts| - 1];
      TunnelsDefault(init);
      TunnelDefaults(last);
      hide TunnelSteps;
      DefaultsConcat(AllTunnelSteps(init), TunnelSteps(last));
    }
  }

  lemma {:induction false} MembersDefault(table: int, ms: seq<WanMember>)
    requires forall m | m in ms :: m.priority >= 0
    ensures Defaults(MemberSteps(table, ms))
  {
    if ms != [] {
      var init, last := ms[..|ms| - 1], ms[|ms| - 1];
      assert last in ms && forall m | m in init :: m in ms;
      MembersDefault(table, init);
    }
  }

  lemma {:induction false} GroupsDefault(gs: seq<WanGroup>)
    requires forall g, m | g in gs && m in g.members :: m.priority >= 0
    ensures Defaults(AllGroupSteps(gs))
  {
    if gs != [] {
      var init, last := gs[..|gs| - 1], gs[|gs| - 1];
      assert last in gs && forall g | g in init :: g in gs;
      GroupsDefault(init);
      MembersDefault(last.table, last.members);
      hide MemberSteps;
      hide EcmpHops;
      hide HopsFamily;
      DefaultsConcat(AllGroupSteps(init), if last.enabled then GroupSteps(last) else []);
    }
  }

  lemma {:induction false} StaticsWrite(rs: seq<StaticRoute>)
    ensures forall st | st in StaticSteps(rs) && st.ReplaceRoute? :: exists r | r in rs :: st.key == StaticKey(r)
  {
    hide StaticKey;
    if rs != [] {
      var init, last := rs[..|rs| - 1], rs[|rs| - 1];
      assert rs == init + [last];
      StaticsWrite(init);
      forall st | st in StaticSteps(rs) && st.ReplaceRoute? ensures exists r | r in rs :: st.key == StaticKey(r) {
        if st in StaticSteps(init) {
          var r :| r in init && st.key == StaticKey(r);
          assert r in rs;
        } else {
          assert last in rs;
        }
      }
    }
  }

  lemma {:induction false} RulesWriteNoRoute(rules: seq<RouteRule>, c: Config)
    ensures forall st | st in RuleSteps(rules, c) :: !st.ReplaceRoute?
  {
    hide RuleRoute;
    if rules != [] {
      RulesWriteNoRoute(rules[..|rules| - 1], c);
    }
  }

  /** A route the plan writes is a default route with a metric from zero up, or that of a static route. */
  lemma PlanWrites(c: Config, st: Step)
    requires ValidConfig(c) && st in PlanSteps(c) && st.ReplaceRoute?
    ensures (st.key.dest == DEFAULT_DEST && st.key.metric >= 0) ||
            exists r | r in c.routing.staticRoutes :: st.key == StaticKey(r)
  {
    forall g, m | g in c.routing.wanGroups && m in g.members ensures m.priority >= 0 {
      assert WanGroupOk(g, KnownLinks(c)) && MemberOk(m, KnownLinks(c));
    }
    hide ValidConfig;
    TunnelsDefault(c.tunnels);
    GroupsDefault(c.routing.wanGroups);
    StaticsWrite(c.routing.staticRoutes);
    RulesWriteNoRoute(StableSort(c.routing.rules), c);
    hide AllTunnelSteps;
    hide AllGroupSteps;
    hide StaticSteps;
    hide RuleSteps;
    hide StaticKey;
  }

  lemma {:induction false} LastRouteIsWritten(steps: seq<Step>, key: RouteKey)
    requires LastRoute(steps, key).Some?
    ensures exists st | st in steps :: st.ReplaceRoute? && st.key == key
  {
    var init, last := steps[..|steps| - 1], steps[|steps| - 1];
    if !(last.ReplaceRoute? && last.key == key) {
      LastRouteIsWritten(init, key);
      var st :| st in init && st.ReplaceRoute? && st.key == key;
      assert st in steps;
    } else {
      assert last in steps;
    }
  }

  // ----- nothing is more specific than the defaults

  /** Neither a static route nor a route from before leads from the table to the address by a longer prefix. */
  predicate NothingCloser(c: Config, s: State, table: int, dst: nat) {
    && (forall r | r in c.routing.staticRoutes ::
          Covers(StaticKey(r), table, dst) ==> StaticKey(r).dest == DEFAULT_DEST)
    && (forall k | k in s.routes :: Covers(k, table, dst) ==> k.dest == DEFAULT_DEST)
  }

  predicate NaturalMetrics(routes: map<RouteKey, seq<Nexthop>>) {
    forall k | k in routes :: k.metric >= 0
  }

  lemma StaticMetric(r: StaticRoute)
    ensures StaticKey(r).metric >= 0
  {
  }

  lemma OnlyDefaultsCover(c: Config, s: State, t: State, key: RouteKey, table: int, dst: nat)
    requires Applied(c, s, t) && NothingCloser(c, s, table, dst)
    requires key in t.routes && Covers(key, table, dst)
    ensures key.dest == DEFAULT_DEST
    ensures NaturalMetrics(s.routes) ==> key.metric >= 0
  {
    hide ValidConfig;
    hide Run;
    hide PlanSteps;
    hide Covers;
    hide StaticKey;
    LastRouteWins(s, PlanSteps(c), key);
    if LastRoute(PlanSteps(c), key).Some? {
      LastRouteIsWritten(PlanSteps(c), key);
      var st :| st in PlanSteps(c) && st.ReplaceRoute? && st.key == key;
      PlanWrites(c, st);
      forall r | r in c.routing.staticRoutes ensures StaticKey(r).metric >= 0 {
        StaticMetric(r);
      }
    }
  }

  lemma DivSmall(a: nat, m: nat)
    requires a < m
    ensures a / m == 0
  {
  }

  lemma DefaultCovers(fam: Family, table: int, metric: int, dst: nat)
    requires fam == V4 && dst < Pow2(32)
    ensures Covers(RouteKey(fam, table, DEFAULT_DEST, metric), table, dst)
  {
    hide Pow2;
    DivSmall(dst, Pow2(32));
    DivSmall(0, Pow2(32));
  }

  // ----- the table of a steering rule

  /** A sound policy has been applied, and the prerouting chain has decided an unmarked IPv4 packet. */
  ghost predicate Decided(c: Config, s: State, t: State, p: Packet, d: Option<Line>, reading: Reading) {
    && Applied(c, s, t) && SoundPolicy(c, V4) && UnmarkedIpv4(p) && Neutral(reading)
    && d == FirstMatch(PreroutingLines(c), p, TableSets(c.routing.sets))
  }

  /** The rule wins the packet by what it is written for, and its own table is the given one. */
  predicate Steered(c: Config, w: nat, p: Packet, reading: Reading, table: int) {
    && IntendedWinner(c, w, false, p, reading)
    && Steers(c.routing.rules[w].action.kind)
    && table != 0 && RouteAt(c, w).table == table
  }

  lemma IntendedWinnerUnique(c: Config, i: nat, j: nat, p: Packet, reading: Reading)
    requires IntendedWinner(c, i, false, p, reading) && IntendedWinner(c, j, false, p, reading)
    ensures i == j
  {
    hide Intended;
    assert IntendedCandidate(c, i, false, p, reading) && IntendedCandidate(c, j, false, p, reading);
  }

  lemma RoutedRule(c: Config, w: nat, filter: bool, p: Packet, reading: Reading)
    requires IntendedCandidate(c, w, filter, p, reading)
    ensures RouteAt(c, w).mark != 0 && RouteAt(c, w).table != 0 ==> RoutedAt(c, w)
  {
    hide Intended;
  }

  lemma SteeredGoesTo(c: Config, s: State, t: State, p: Packet, d: Option<Line>, reading: Reading, w: nat, table: int)
    requires Decided(c, s, t, p, d, reading)
    requires Steered(c, w, p, reading, table)
    ensures GoesTo(t.rules, MarkAfter(d, p), table)
  {
    hide Applied;
    hide SoundPolicy;
    hide UnmarkedIpv4;
    hide Neutral;
    hide FirstMatch;
    hide PreroutingLines;
    hide GoesTo;
    hide MarkAfter;
    hide RouteAt;
    var v := PolicyIsRouted(c, s, t, p, d, reading);
    assert IntendedCandidate(c, w, false, p, reading);
    IntendedWinnerUnique(c, v, w, p, reading);
    RoutedRule(c, w, false, p, reading);
    hide IntendedWinner;
    hide IntendedCandidate;
  }

  lemma CoveredDefault(k: RouteKey, table: int, dst: nat)
    requires dst < Pow2(32) && k.dest == DEFAULT_DEST
    ensures Covers(k, table, dst) <==> k.fam == V4 && k.table == table
  {
    hide Pow2;
    if k.fam == V4 {
      DefaultCovers(V4, k.table, k.metric, dst);
    }
  }

  /** The kernel's choice among the defaults, seen from a destination that only defaults cover. */
  lemma SelectedIsChosen(
    c: Config, s: State, t: State, key: RouteKey, table: int, dst: nat, dead: set<string>)
    requires Applied(c, s, t) && NothingCloser(c, s, table, dst) && dst < Pow2(32)
    requires key.fam == V4 && key.table == table && key.dest == DEFAULT_DEST
    ensures Chosen(t.routes, key, table, dst, dead) <==> Selected(t.routes, key, V4, table, dead)
  {
    hide Covers;
    hide Applied;
    hide NothingCloser;
    hide Pow2;
    CoveredDefault(key, table, dst);
    forall k | k in t.routes
      ensures Covers(k, table, dst) <==> k.fam == V4 && k.table == table && k.dest == DEFAULT_DEST
    {
      if k.dest == DEFAULT_DEST {
        CoveredDefault(k, table, dst);
      } else if Covers(k, table, dst) {
        OnlyDefaultsCover(c, s, t, k, table, dst);
      }
    }
    assert forall k | k in t.routes :: Usable(t.routes, k, V4, table, dead) <==> Covers(k, table, dst) && Live(t.routes, k, dead);
    hide Usable;
    hide Live;
  }

  // ----- tunnels

  /** The rule steers into the tunnel and has no table of its own; the tunnel has a device and a table. */
  predicate TunnelRule(c: Config, w: nat, k: nat) {
    && w < |c.routing.rules| && k < |c.tunnels|
    && c.routing.rules[w].action.kind == ToTunnel && c.routing.rules[w].action.table == 0
    && c.routing.rules[w].action.target == c.tunnels[k].id
    && c.tunnels[k].enabled && c.tunnels[k].interfaceName != "" && c.tunnels[k].table > 0
  }

  /** A default of metric zero precedes every other route that covers the address. */
  lemma ZeroMetricFirst(c: Config, s: State, t: State, key: RouteKey, dst: nat, dead: set<string>)
    requires Applied(c, s, t) && dst < Pow2(32)
    requires NothingCloser(c, s, key.table, dst) && NaturalMetrics(s.routes)
    requires key.fam == V4 && key.dest == DEFAULT_DEST && key.metric == 0 && Live(t.routes, key, dead)
    ensures Chosen(t.routes, key, key.table, dst, dead)
  {
    hide Applied;
    hide Covers;
    hide Pow2;
    hide NothingCloser;
    hide NaturalMetrics;
    hide Live;
    CoveredDefault(key, key.table, dst);
    forall x | x in t.routes && x != key && Covers(x, key.table, dst)
      ensures x.dest == DEFAULT_DEST && x.metric > 0
    {
      OnlyDefaultsCover(c, s, t, x, key.table, dst);
      CoveredDefault(x, key.table, dst);
    }
  }

  lemma TunnelRouteChosen(c: Config, s: State, t: State, k: nat, dst: nat, dead: set<string>)
    requires Applied(c, s, t) && k < |c.tunnels| && dst < Pow2(32)
    requires c.tunnels[k].enabled && c.tunnels[k].interfaceName != "" && c.tunnels[k].table > 0
    requires LastRoute(Later(c, k), TunnelKey(c.tunnels[k])) == None
    requires NothingCloser(c, s, c.tunnels[k].table, dst) && NaturalMetrics(s.routes)
    requires c.tunnels[k].interfaceName !in dead
    ensures var tun := c.tunnels[k];
            && Chosen(t.routes, TunnelKey(tun), tun.table, dst, dead)
            && Lookup(t.routes, TunnelKey(tun)) == Some([Nexthop(NoGateway, tun.interfaceName, 1)])
  {
    var tun := c.tunnels[k];
    var key, hop := TunnelKey(tun), Nexthop(NoGateway, tun.interfaceName, 1);
    hide ValidConfig;
    hide Run;
    hide PlanSteps;
    hide Later;
    hide LastRoute;
    hide Pow2;
    hide Chosen;
    hide NothingCloser;
    hide NaturalMetrics;
    TunnelTableReady(c, s, t, k);
    hide Applied;
    assert t.routes[key] == [hop] && hop in [hop];
    assert Live(t.routes, key, dead);
    hide Live;
    ZeroMetricFirst(c, s, t, key, dst, dead);
  }

  lemma TunnelRuleTable(c: Config, w: nat, k: nat)
    requires ValidConfig(c) && TunnelRule(c, w, k)
    ensures RouteAt(c, w).table == c.tunnels[k].table
  {
    var ids := TunnelIds(c.tunnels);
    assert NoRepeats(ids);
    hide ValidConfig;
    Verdicts.FirstTunnelIs(c.tunnels, k);
  }

  /** Nothing the plan does later, and nothing more specific, takes packets to the address away from the tunnel. */
  predicate TunnelUndisturbed(c: Config, s: State, k: nat, dst: nat)
    requires k < |c.tunnels|
  {
    && LastRoute(Later(c, k), TunnelKey(c.tunnels[k])) == None
    && NothingCloser(c, s, c.tunnels[k].table, dst) && NaturalMetrics(s.routes)
  }

  /**
   A packet that a tunnel rule without a table of its own wins leaves by that tunnel's device, when
   no later step of the plan writes the default of the tunnel's table and nothing in the table is
   more specific for the packet's destination.
   */
  lemma {:induction false} TunnelCarries(
    c: Config, s: State, t: State, p: Packet, d: Option<Line>, reading: Reading, w: nat, k: nat, dead: set<string>)
    requires Decided(c, s, t, p, d, reading) && IntendedWinner(c, w, false, p, reading)
    requires TunnelRule(c, w, k) && TunnelUndisturbed(c, s, k, p.dst) && c.tunnels[k].interfaceName !in dead
    ensures LeavesBy(t, MarkAfter(d, p), p.dst, dead, c.tunnels[k].interfaceName, TunnelKey(c.tunnels[k]))
  {
    hide ValidConfig;
    hide Run;
    hide PlanSteps;
    hide Later;
    hide NothingCloser;
    hide NaturalMetrics;
    hide SoundPolicy;
    hide FirstMatch;
    hide PreroutingLines;
    hide GoesTo;
    hide MarkAfter;
    hide Chosen;
    hide IntendedWinner;
    hide RouteAt;
    TunnelRuleTable(c, w, k);
    TunnelRouteChosen(c, s, t, k, p.dst, dead);
    hide Applied;
    SteeredGoesTo(c, s, t, p, d, reading, w, c.tunnels[k].table);
  }

  // ----- failover groups

  /** The rule steers into the group and has no table of its own. */
  predicate GroupRule(c: Config, w: nat, k: nat) {
    && w < |c.routing.rules| && k < |c.routing.wanGroups|
    && TargetsGroup(c.routing.rules[w].action.kind) && c.routing.rules[w].action.table == 0
    && c.routing.rules[w].action.target == c.routing.wanGroups[k].id
  }

  /** A failover group with distinct metrics that nothing else in the configuration or from before disturbs. */
  predicate GroupUndisturbed(c: Config, s: State, k: nat)
    requires k < |c.routing.wanGroups|
  {
    && PlansMembers(c.routing.wanGroups[k]) && SoleDefault(c, k)
    && FreshTable(s.routes, c.routing.wanGroups[k].table)
    && DistinctMetrics(c.routing.wanGroups[k].members)
  }

  lemma GroupRuleTable(c: Config, w: nat, k: nat)
    requires ValidConfig(c) && GroupRule(c, w, k)
    ensures RouteAt(c, w).table == c.routing.wanGroups[k].table
  {
    var ids := GroupIds(c.routing.wanGroups);
    assert NoRepeats(ids);
    hide ValidConfig;
    Verdicts.FirstGroupIs(c.routing.wanGroups, k);
  }

  lemma DistinctAgree(members: seq<WanMember>, table: int)
    requires DistinctMetrics(members)
    ensures forall i: nat, j: nat | i < j < |members| :: Agree(members, table, i, j)
  {
  }

  lemma MemberKeyShape(table: int, m: WanMember)
    ensures MemberKey(table, m).table == table && MemberKey(table, m).dest == DEFAULT_DEST
    ensures MemberKey(table, m).fam == GatewayFamily(m.gateway)
  {
  }

  lemma MemberRouteChosen(c: Config, s: State, t: State, k: nat, i: nat, dst: nat, dead: set<string>)
    requires Applied(c, s, t) && dst < Pow2(32) && k < |c.routing.wanGroups| && GroupUndisturbed(c, s, k)
    requires NothingCloser(c, s, c.routing.wanGroups[k].table, dst) && i < |c.routing.wanGroups[k].members|
    requires GatewayFamily(c.routing.wanGroups[k].members[i].gateway) == V4
    ensures var g := c.routing.wanGroups[k];
            var key := MemberKey(g.table, g.members[i]);
            && (Chosen(t.routes, key, g.table, dst, dead) <==> BestLive(g.members, i, dead))
            && Lookup(t.routes, key) == Some(MemberHops(g.members[i]))
  {
    var g := c.routing.wanGroups[k];
    assert Run(s, PlanSteps(c)) == Some(t);
    hide Applied;
    hide NothingCloser;
    hide Run;
    hide PlanSteps;
    hide SoleDefault;
    hide FreshTable;
    hide Chosen;
    hide Selected;
    hide BestLive;
    MemberKeyShape(g.table, g.members[i]);
    DistinctAgree(g.members, g.table);
    hide MemberKey;
    hide MemberHops;
    hide Agree;
    hide GatewayFamily;
    SelectedIsChosen(c, s, t, MemberKey(g.table, g.members[i]), g.table, dst, dead);
    PlannedFailoverSelectsBest(c, k, s, t, i, dead);
    PlannedMembersKeptIff(c, k, s, t);
    assert Kept(g.members, g.table, t, i);
  }

  /**
   A packet that a rule for a failover group wins leaves by a member's device exactly when that
   member is the best live one, in a configuration where nothing else writes the table's default
   and nothing in the table is more specific for the packet's destination.
   */
  lemma {:induction false} BestMemberCarries(
    c: Config, s: State, t: State, p: Packet, d: Option<Line>, reading: Reading, w: nat, k: nat, i: nat, dead: set<string>)
    requires Decided(c, s, t, p, d, reading) && IntendedWinner(c, w, false, p, reading)
    requires GroupRule(c, w, k) && GroupUndisturbed(c, s, k) && i < |c.routing.wanGroups[k].members|
    requires NothingCloser(c, s, c.routing.wanGroups[k].table, p.dst)
    requires GatewayFamily(c.routing.wanGroups[k].members[i].gateway) == V4
    ensures var g := c.routing.wanGroups[k];
            LeavesBy(t, MarkAfter(d, p), p.dst, dead, g.members[i].iface, MemberKey(g.table, g.members[i])) <==>
            BestLive(g.members, i, dead)
  {
    hide ValidConfig;
    hide Run;
    hide PlanSteps;
    hide SoundPolicy;
    hide FirstMatch;
    hide PreroutingLines;
    hide GoesTo;
    hide MarkAfter;
    hide Chosen;
    hide BestLive;
    hide SoleDefault;
    hide FreshTable;
    hide NothingCloser;
    hide DistinctMetrics;
    hide IntendedWinner;
    hide RouteAt;
    GroupRuleTable(c, w, k);
    MemberRouteChosen(c, s, t, k, i, p.dst, dead);
    hide Applied;
    SteeredGoesTo(c, s, t, p, d, reading, w, c.routing.wanGroups[k].table);
  }
}
