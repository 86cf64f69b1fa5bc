/**
 Validated configurations in which the artefacts do more, or less, than a rule says: for each,
 the configuration and the packets.
 */
module Traps {
  import opened Basics
  import opened Addresses
  import opened Config
  import opened Nft
  import opened MatchCompiler
  import opened MatchMeaning
  import opened RuleOrder
  import opened RuleActions
  import opened PolicyChains
  import opened Validation
  import opened Kernel
  import opened RoutingPlan
  import opened EndToEnd
  import opened ValidatedPolicy
  import opened Strings
  import opened Numerals
  import opened AddressText
  import opened CompiledTable
  import opened Completion
  import opened NatMeaning

  // ----- small validated configurations

  const LINK := "eth0"
  const ETH0 := Interface(LINK, Lan, true, [], NoGateway, [], 0, false, NoDhcpServer)
  const ANY := RuleMatch("", "", [], [], [], [], [], [], [], [], [], [], [])

  /** One interface, the given route sets and rules, a firewall that accepts replies. */
  function Small(sets: seq<RouteSet>, rules: seq<RouteRule>): Config {
    Config(CURRENT_VERSION, "127.0.0.1:8080", 0, [], [ETH0], [], Routing(sets, [], [], rules),
           Platform([], [], [], []), Security(false, true, true, [], [], [], Ips(false, false, 0)))
  }

  function RuleFor(id: string, priority: int, m: RuleMatch, kind: ActionKind, mark: int, table: int): RouteRule {
    RouteRule(id, true, priority, m, RuleAction(kind, LINK, false, false, mark, table))
  }

  function SetOf(id: string, enabled: bool, c: Cidr): RouteSet {
    RouteSet(id, CustomSet, enabled, [c], [], [], [])
  }

  lemma SmallScope(sets: seq<RouteSet>, rules: seq<RouteRule>)
    ensures LINK in KnownLinks(Small(sets, rules)) && IsIdentifier(LINK)
    ensures ScopeOf(Small(sets, rules)).sets == ToSet(RouteSetIds(sets))
    ensures InterfaceOk(ETH0)
  {
    var names := InterfaceNames([ETH0]);
    assert names[0] == LINK;
  }

  predicate RulesOk(sets: seq<RouteSet>, rules: seq<RouteRule>) {
    forall r | r in rules :: RuleOk(r, ScopeOf(Small(sets, rules)))
  }

  lemma SmallIsValid(sets: seq<RouteSet>, rules: seq<RouteRule>)
    requires (forall s | s in sets :: RouteSetOk(s)) && NoRepeats(RouteSetIds(sets)) && RulesOk(sets, rules)
    ensures ValidConfig(Small(sets, rules))
  {
    SmallScope(sets, rules);
    hide RuleOk;
    hide RouteSetOk;
    hide InterfaceOk;
    hide KnownLinks;
    assert NoRepeats(InterfaceNames([ETH0]));
  }

  /** A rule on the one link is valid when its match is. */
  lemma RuleForOk(sets: seq<RouteSet>, rules: seq<RouteRule>, r: RouteRule)
    requires IsIdentifier(r.id) && 1 <= r.priority <= 32765
    requires r.action.target == LINK && r.action.kind in {ToInterface, Blackhole}
    requires MarkOk(r.action.mark) && TableOk(r.action.table)
    requires MatchOk(r.match_, ScopeOf(Small(sets, rules)))
    ensures RuleOk(r, ScopeOf(Small(sets, rules)))
  {
    SmallScope(sets, rules);
    hide MatchOk;
    hide IsIdentifier;
  }

  lemma ShortNames()
    ensures IsIdentifier("r") && IsIdentifier("q") && IsIdentifier("s") && IsIdentifier("a-b") && IsIdentifier("a.b")
  {
  }

  lemma OneRuleIsValid(sets: seq<RouteSet>, m: RuleMatch, kind: ActionKind, mark: int, table: int)
    requires (forall s | s in sets :: RouteSetOk(s)) && NoRepeats(RouteSetIds(sets))
    requires kind in {ToInterface, Blackhole} && MarkOk(mark) && TableOk(table)
    requires forall scope: Scope | scope.sets == ToSet(RouteSetIds(sets)) :: MatchOk(m, scope)
    ensures ValidConfig(Small(sets, [RuleFor("r", 10, m, kind, mark, table)]))
  {
    var rules := [RuleFor("r", 10, m, kind, mark, table)];
    ShortNames();
    SmallScope(sets, rules);
    hide MatchOk;
    hide IsIdentifier;
    RuleForOk(sets, rules, rules[0]);
    hide RuleOk;
    hide RouteSetOk;
    hide NoRepeats;
    SmallIsValid(sets, rules);
  }

  // ----- factors that vanish

  lemma NoCidrs(m: RuleMatch, p: Packet)
    requires m.sourceCIDRs == [] && m.destinationCIDRs == []
    ensures CompiledCidrs(m, p) && IntendedCidrs(m, p)
  {
  }

  lemma NoLiveSet(m: RuleMatch, sets: seq<RouteSet>, p: Packet)
    requires m.sets == [] || forall s | s in sets :: !s.enabled
    ensures CompiledSets(m, sets, p)
    ensures m.sets != [] ==> !IntendedSets(m, sets, p)
  {
    hide InSome;
    hide OfFamily;
  }

  /** A rule with only sets and uncompiled fields compiles to its set condition alone. */
  lemma OnlySets(m: RuleMatch, sets: seq<RouteSet>, p: Packet)
    requires UniqueSetIds(sets) && m == ANY.(sets := m.sets, tunnelIDs := m.tunnelIDs, domains := m.domains, geoIP := m.geoIP,
                                             applications := m.applications, services := m.services)
    ensures Compiled(m, sets, p) <==> CompiledSets(m, sets, p)
    ensures FieldsMatch(m, sets, p) <==> IntendedSets(m, sets, p)
  {
    hide Compiled;
    hide CompiledCidrs;
    hide CompiledSets;
    hide IntendedSets;
    hide IntendedCidrs;
    NoCidrs(m, p);
    CompiledMeaning(m, sets, p);
  }

  lemma IcmpHasNoPorts(m: RuleMatch, p: Packet)
    requires m.protocols == [Icmp] && m.destinationPorts != [] && p.proto == Icmp
    ensures PortsDropped(m) && !IntendedPorts(m, p)
  {
  }

  /** Ports with only portless protocols: every packet of those protocols is matched. */
  lemma {:induction false} PortsAreDropped(p: Packet)
    requires p.proto == Icmp
    ensures var m := ANY.(protocols := [Icmp], destinationPorts := [PortRange(80, 80)]);
            && ValidConfig(Small([], [RuleFor("r", 10, m, Blackhole, 0, 0)]))
            && Compiled(m, [], p) && !FieldsMatch(m, [], p)
  {
    var m := ANY.(protocols := [Icmp], destinationPorts := [PortRange(80, 80)]);
    OneRuleIsValid([], m, Blackhole, 0, 0);
    IcmpHasNoPorts(m, p);
    hide ValidConfig;
    hide MatchOk;
    hide Compiled;
    hide CompiledCidrs;
    hide CompiledSets;
    hide IntendedSets;
    hide IntendedCidrs;
    hide IntendedPorts;
    hide PortsDropped;
    NoCidrs(m, p);
    NoLiveSet(m, [], p);
    CompiledMeaning(m, [], p);
  }

  lemma NotContainedAcross(c: Cidr, fam: Family, a: nat)
    requires c.Cidr? && c.fam != fam
    ensures !Contains(c, fam, a)
  {
  }

  lemma OneSidedCidrs(m: RuleMatch, src: Cidr, dst: Cidr, p: Packet)
    requires m.sourceCIDRs == [src] && m.destinationCIDRs == [dst]
    requires src.Cidr? && src.fam == V4 && dst.Cidr? && dst.fam == V6 && Contains(src, p.fam, p.src)
    ensures CompiledCidrs(m, p) && !IntendedCidrs(m, p)
  {
    assert p.fam == V4;
    NotContainedAcross(dst, p.fam, p.dst);
    hide Contains;
    assert src in [src];
    assert src in OfFamily([src], V4);
    assert OfFamily([dst], V4) == [] by {
      if OfFamily([dst], V4) != [] { assert OfFamily([dst], V4)[0] in OfFamily([dst], V4); }
    }
  }

  /** An IPv4 source with an IPv6 destination: every packet from the source is matched. */
  lemma {:induction false} OneSideIsDropped(src: Cidr, dst: Cidr, p: Packet)
    requires src.Cidr? && src.fam == V4 && dst.Cidr? && dst.fam == V6 && Contains(src, p.fam, p.src)
    ensures var m := ANY.(sourceCIDRs := [src], destinationCIDRs := [dst]);
            && ValidConfig(Small([], [RuleFor("r", 10, m, Blackhole, 0, 0)]))
            && Compiled(m, [], p) && !FieldsMatch(m, [], p)
  {
    var m := ANY.(sourceCIDRs := [src], destinationCIDRs := [dst]);
    OneRuleIsValid([], m, Blackhole, 0, 0);
    OneSidedCidrs(m, src, dst, p);
    hide ValidConfig;
    hide Compiled;
    hide CompiledCidrs;
    hide IntendedCidrs;
    hide CompiledSets;
    NoLiveSet(m, [], p);
    CompiledMeaning(m, [], p);
  }

  /** A rule whose one route set is disabled: every packet is matched. */
  lemma {:induction false} SetConditionVanishes(c: Cidr, p: Packet)
    requires c.Cidr?
    ensures var sets, m := [SetOf("s", false, c)], ANY.(sets := ["s"]);
            && ValidConfig(Small(sets, [RuleFor("r", 10, m, Blackhole, 0, 0)]))
            && Compiled(m, sets, p) && !FieldsMatch(m, sets, p)
  {
    var sets, m := [SetOf("s", false, c)], ANY.(sets := ["s"]);
    ShortNames();
    assert RouteSetIds(sets)[0] == "s";
    assert RouteSetOk(sets[0]);
    OneRuleIsValid(sets, m, Blackhole, 0, 0);
    hide ValidConfig;
    hide IsIdentifier;
    NoLiveSet(m, sets, p);
    hide Compiled;
    hide FieldsMatch;
    OnlySets(m, sets, p);
  }

  // ----- fields that are never compiled

  const TAGGED := ANY.(
    domains := ["ads.example"], geoIP := ["CN"], applications := ["telegram"], services := ["dns"])

  /** A rule whose only conditions are uncompiled fields matches every packet. */
  lemma UncompiledFieldsMatchAll(m: RuleMatch, p: Packet)
    requires m == ANY.(tunnelIDs := m.tunnelIDs, domains := m.domains, geoIP := m.geoIP,
                       applications := m.applications, services := m.services)
    ensures Compiled(m, [], p)
  {
    hide Compiled;
    OnlySets(m, [], p);
    NoLiveSet(m, [], p);
  }

  /** The only rule of the forward chain drops every new packet it matches. */
  lemma OnlyBlackholeDrops(r: RouteRule, p: Packet)
    requires r.enabled && r.action.kind == Blackhole && Compiled(r.match_, [], p) && p.ct == New
    ensures var d := FirstMatch(ForwardLines(Small([], [r])), p, TableSets([]));
            d.Some? && d.value.action == Drop
  {
    var c := Small([], [r]);
    hide Compiled;
    ForwardRefinesPolicy(c, p);
    assert c.routing.rules[0] == r;
    assert Candidate(c, 0, true, p);
    hide ForwardLines;
    hide FirstMatch;
    hide Candidate;
    hide TableSets;
    var d := FirstMatch(ForwardLines(c), p, TableSets([]));
    var w: nat :| Winner(c, w, true, p);
    assert w == 0;
  }

  /**
   A validated blackhole rule for one domain, country, application and service drops every
   forwarded packet that connection tracking leaves to the rules, written for it or not.
   */
  lemma {:induction false} TaggedBlackholeDropsAll(p: Packet) returns (reading: Reading)
    requires p.ct == New
    ensures var c := Small([], [RuleFor("r", 10, TAGGED, Blackhole, 0, 0)]);
            && ValidConfig(c) && Neutral(reading) && !Intended(TAGGED, [], p, reading)
            && var d := FirstMatch(ForwardLines(c), p, TableSets([]));
               d.Some? && d.value.action == Drop
  {
    var r := RuleFor("r", 10, TAGGED, Blackhole, 0, 0);
    var c := Small([], [r]);
    reading := (tags, _) => tags == NO_TAGS;
    OneRuleIsValid([], TAGGED, Blackhole, 0, 0);
    UncompiledFieldsMatchAll(TAGGED, p);
    assert TAGGED.domains != [];
    hide ValidConfig;
    hide Compiled;
    hide ForwardLines;
    hide FirstMatch;
    hide TableSets;
    OnlyBlackholeDrops(r, p);
  }

  // ----- two IDs that sanitise alike

  lemma ClashingIdentifiers()
    ensures Identifier("a-b") == Identifier("a.b") && "a-b" != "a.b"
  {
    assert "a-b"[..2] == "a-" && "a.b"[..2] == "a." && "a-"[..1] == "a" == "a."[..1] && "a"[..0] == "";
    assert Sanitised("a") == "a" && Sanitised("a-") == "a_" == Sanitised("a.");
    assert "a-b"[1] != "a.b"[1];
  }

  lemma ClashWidens(m: RuleMatch, a: RouteSet, b: RouteSet, c: Cidr, d: Cidr, p: Packet)
    requires m == ANY.(sets := [a.id])
    requires a.id != b.id && Identifier(a.id) == Identifier(b.id) && a.enabled && b.enabled
    requires a.cidrs == [c] && b.cidrs == [d] && c.Cidr? && d.Cidr? && c.fam == p.fam
    requires d.fam == p.fam && Contains(d, p.fam, p.dst) && !Contains(c, p.fam, p.dst)
    ensures Compiled(m, [a, b], p) && !FieldsMatch(m, [a, b], p)
  {
    hide Identifier;
    hide Contains;
    hide Compiled;
    hide FieldsMatch;
    hide Pow2;
    hide OfFamily;
    var sets := [a, b];
    assert a in sets && b in sets;
    OnlySets(m, sets, p);
    assert CompiledSets(m, sets, p) by {
      assert c in OfFamily(a.cidrs, p.fam) && d in OfFamily(b.cidrs, p.fam);
      InList(b.cidrs, d, p.fam, p.dst);
      assert NameAdmits(sets, a.id, p.fam, p.dst);
    }
    assert !IntendedSets(m, sets, p);
  }

  /** A rule naming the first of two clashing sets also matches the second set's addresses. */
  lemma {:induction false} ClashingNamesWiden(c: Cidr, d: Cidr, p: Packet)
    requires c.Cidr? && d.Cidr? && Contains(d, p.fam, p.dst) && !Contains(c, p.fam, p.dst) && c.fam == p.fam
    ensures var sets, m := [SetOf("a-b", true, c), SetOf("a.b", true, d)], ANY.(sets := ["a-b"]);
            && ValidConfig(Small(sets, [RuleFor("r", 10, m, Blackhole, 0, 0)]))
            && Compiled(m, sets, p) && !FieldsMatch(m, sets, p)
  {
    var a, b, m := SetOf("a-b", true, c), SetOf("a.b", true, d), ANY.(sets := ["a-b"]);
    var sets := [a, b];
    assert d.fam == p.fam;
    ClashingIdentifiers();
    ShortNames();
    hide IsIdentifier;
    hide Contains;
    assert RouteSetIds(sets)[0] == "a-b" && RouteSetIds(sets)[1] == "a.b";
    assert RouteSetOk(a) && RouteSetOk(b);
    OneRuleIsValid(sets, m, Blackhole, 0, 0);
    hide ValidConfig;
    hide Identifier;
    ClashWidens(m, a, b, c, d, p);
  }

  // ----- plans

  /** The kernel before any plan: the standard rules of both families, one link. */
  const FRESH := State(INITIAL_RULES, [LOCAL_RULE, MAIN_RULE], map[], map[LINK := Link(Physical, 1500, true)], {})

  lemma SmallPlan(rules: seq<RouteRule>)
    ensures PlanSteps(Small([], rules)) == RuleSteps(StableSort(rules), Small([], rules))
  {
    var steps := RuleSteps(StableSort(rules), Small([], rules));
    assert [] + [] + steps == steps && [] + steps == steps;
  }

  lemma {:induction false} FlatRulesRun(f: Flat, steps: seq<Step>)
    requires forall st | st in steps :: st.ReplaceRule?
    ensures RunFlat(f, steps).Some?
  {
    if steps != [] {
      var init := steps[..|steps| - 1];
      forall st | st in init ensures st in steps {}
      FlatRulesRun(f, init);
    }
  }

  lemma {:induction false} RulePlansRun(s: State, steps: seq<Step>)
    requires Strict(s.rules) && forall st | st in steps :: st.ReplaceRule?
    ensures Run(s, steps).Some?
  {
    RunRefinesFlat(s, steps);
    FlatRulesRun(FlatOf(s), steps);
  }

  lemma {:induction false} OnlyRuleSteps(rules: seq<RouteRule>, c: Config)
    ensures forall st | st in RuleSteps(rules, c) :: st.ReplaceRule?
  {
    hide RuleRoute;
    if rules != [] {
      OnlyRuleSteps(rules[..|rules| - 1], c);
    }
  }

  /** Every plan of a small validated configuration can be applied. */
  lemma SmallApplies(rules: seq<RouteRule>) returns (t: State)
    requires ValidConfig(Small([], rules))
    ensures Applied(Small([], rules), FRESH, t)
  {
    var c := Small([], rules);
    SmallPlan(rules);
    InitialView();
    OnlyRuleSteps(StableSort(rules), c);
    RulePlansRun(FRESH, PlanSteps(c));
    t := Run(FRESH, PlanSteps(c)).value;
    hide Run;
  }

  /** Two rules with one priority. */
  function Tied(): Config {
    Small([], [RuleFor("r", 10, ANY, ToInterface, 1, 101), RuleFor("q", 10, ANY, ToInterface, 2, 102)])
  }

  lemma TiedIsValid()
    ensures ValidConfig(Tied())
  {
    var rules := Tied().routing.rules;
    ShortNames();
    hide IsIdentifier;
    RuleForOk([], rules, rules[0]);
    RuleForOk([], rules, rules[1]);
    hide RuleOk;
    SmallIsValid([], rules);
  }

  lemma TiedRoutes()
    ensures RoutedAt(Tied(), 0) && RouteAt(Tied(), 0) == Route(1, 101)
    ensures RoutedAt(Tied(), 1) && RouteAt(Tied(), 1) == Route(2, 102)
  {
    assert Tied().routing.rules[0].action.mark == 1 && Tied().routing.rules[1].action.mark == 2;
  }

  /** In a validated configuration with a tie, the mark of the first rule leads to the main table, not to its own. */
  lemma {:induction false} TiedPrioritiesLoseAMark() returns (t: State)
    ensures Applied(Tied(), FRESH, t)
    ensures RoutedAt(Tied(), 0) && RouteAt(Tied(), 0) == Route(1, 101) && GoesTo(t.rules, 1, MAIN_TABLE)
  {
    TiedIsValid();
    hide ValidConfig;
    hide Applied;
    hide GoesTo;
    hide RoutedAt;
    hide RouteAt;
    TiedRoutes();
    t := SmallApplies(Tied().routing.rules);
    TiedMarkFallsThrough(Tied(), FRESH, t, 1);
  }

  // ----- steering rules that lead nowhere

  const MARKLESS := RuleFor("r", 10, ANY, ToInterface, 0, 0)

  lemma MarklessIsNoCandidate(p: Packet)
    ensures forall i: nat :: !Candidate(Small([], [MARKLESS]), i, false, p)
  {
    hide Compiled;
    assert Small([], [MARKLESS]).routing.rules[0] == MARKLESS;
  }

  /** A validated steering rule without a mark has no lines: every packet it is written for passes it by. */
  lemma {:induction false} MarklessRuleIsSkipped(p: Packet, reading: Reading)
    requires Neutral(reading)
    ensures var c := Small([], [MARKLESS]);
            && ValidConfig(c) && IntendedCandidate(c, 0, false, p, reading)
            && FirstMatch(PreroutingLines(c), p, TableSets([])) == None
  {
    var c := Small([], [MARKLESS]);
    OneRuleIsValid([], ANY, ToInterface, 0, 0);
    hide ValidConfig;
    assert c.routing.rules[0] == MARKLESS;
    assert Intended(ANY, [], p, reading);
    MarklessIsNoCandidate(p);
    hide Candidate;
    hide Winner;
    hide DecidedBy;
    hide EndingOf;
    hide Intended;
    hide FirstMatch;
    hide PreroutingLines;
    hide TableSets;
    var w := PreroutingRefinesPolicy(c, p, FirstMatch(PreroutingLines(c), p, TableSets([])));
  }

  const TABLELESS := RuleFor("r", 10, ANY, ToInterface, 1, 0)

  lemma TablelessIsNotRouted()
    ensures forall i: nat :: !RoutedAt(Small([], [TABLELESS]), i)
  {
    assert Small([], [TABLELESS]).routing.rules[0] == TABLELESS;
  }

  /** A validated steering rule with a mark and no table marks its packets and leaves them to the main table. */
  lemma {:induction false} MarkWithoutTableGoesToMain() returns (t: State)
    ensures var c := Small([], [TABLELESS]);
            && Applied(c, FRESH, t) && GoesTo(t.rules, 1, MAIN_TABLE)
            && EndingOf(TABLELESS, [], []) == Some(Ending(false, SetMarkAccept(1)))
  {
    var c := Small([], [TABLELESS]);
    OneRuleIsValid([], ANY, ToInterface, 1, 0);
    hide ValidConfig;
    hide Applied;
    hide GoesTo;
    TablelessIsNotRouted();
    hide RoutedAt;
    hide RouteAt;
    t := SmallApplies([TABLELESS]);
    TiedMarkFallsThrough(c, FRESH, t, 1);
  }

  // ----- a port forward to an IPv6 address

  const TO_IPV6 := PortForward("f", true, "", [], 80, "fd00::5", 8080, [], false)

  /** The small configuration with NAT and one port forward. */
  function Forwarding(): Config {
    var c := Small([], []);
    c.(security := c.security.(nat_ := true, portForwards := [TO_IPV6]))
  }

  lemma SplitFd00()
    ensures Split("fd00::5", ':') == ["fd00", "", "5"]
  {
    var pieces := ["fd00", "", "5"];
    assert pieces[..2] == ["fd00", ""] && ["fd00", ""][..1] == ["fd00"];
    assert Join(["fd00", ""], ':') == "fd00:";
    assert Join(pieces, ':') == "fd00::5";
    SplitJoin(pieces, ':');
  }

  lemma CompressedPair(a: string, b: string)
    requires IsGroup(a) && IsGroup(b) && !IsDotted(a) && !IsDotted(b)
    ensures IsColons([a, "", b]) && Spans([a, "", b]) == 2
  {
    assert a != "" && b != "";
    hide IsDotted;
    hide IsGroup;
    var pieces := [a, "", b];
    assert pieces[..2] == [a, ""] && [a, ""][..1] == [a] && [a][..0] == [];
    assert Spans([a]) == 1 && Spans([a, ""]) == 1;
    assert pieces[1] == "" && Gap(pieces, 1);
    assert "" in pieces;
  }

  lemma Fd00Groups()
    ensures IsGroup("fd00") && IsGroup("5") && !IsDotted("fd00") && !IsDotted("5")
  {
    NotDotted("fd00");
    NotDotted("5");
  }

  lemma Fd00Continues()
    ensures IsAddress("fd00::5") && Continues("fd00::5")
  {
    SplitFd00();
    hide Split;
    Fd00Groups();
    hide IsGroup;
    hide IsDotted;
    CompressedPair("fd00", "5");
    hide IsColons;
    hide Spans;
    assert ["fd00", "", "5"][1] == "";
  }

  lemma Fd00Text()
    ensures TargetText("fd00::5", 8080) == "fd00::5:8080"
  {
    assert Print(8, 10) == "8" && Print(80, 10) == "80" && Print(808, 10) == "808" && Print(8080, 10) == "8080";
  }

  lemma ForwardingIsValid()
    ensures ValidConfig(Forwarding())
  {
    Fd00Continues();
    hide IsAddress;
    hide Continues;
    SmallIsValid([], []);
    assert Forwarding().security.portForwards == [TO_IPV6];
    assert IsIdentifier("f");
    hide InterfaceOk;
    assert KnownLinks(Forwarding()) == KnownLinks(Small([], []));
    assert PortForwardOk(TO_IPV6, KnownLinks(Forwarding()));
  }

  /** A validated port forward to `fd00::5` and port 8080 names the single address `fd00::5:8080`, and no port. */
  lemma {:induction false} Ipv6ForwardLosesItsPort(p: Packet)
    requires p.proto == Tcp && p.dport == 80
    ensures var d := Verdict(Forwarding(), "dstnat", p);
            && ValidConfig(Forwarding())
            && d.Some? && d.value.action == DnatToTarget("fd00::5:8080")
            && ReadTarget("fd00::5:8080") == Some(Target("fd00::5:8080", None))
  {
    var c := Forwarding();
    ForwardingIsValid();
    Fd00Continues();
    Fd00Text();
    hide ValidConfig;
    hide IsAddress;
    hide Continues;
    hide Verdict;
    hide TargetText;
    hide ReadTarget;
    assert c.security.portForwards[0] == TO_IPV6;
    assert ForwardApplies(TO_IPV6, p);
    ForwardsDecide(c, p, 0);
    hide ForwardApplies;
    ReadsOn("fd00::5", 8080);
  }

  // ----- a WAN group on a link the plan creates later

  const VLAN := Vlan("vlan10", LINK, 10, 0, [])
  const ON_VLAN := WanGroup("g", true, Failover, 1, 101, [WanMember("vlan10", NoGateway, 0, 0)])

  /** The small configuration with a VLAN and a WAN group whose only member is that VLAN. */
  function Planned(): Config {
    var c := Small([], []);
    c.(platform := Platform([], [], [VLAN], []), routing := Routing([], [ON_VLAN], [], []))
  }

  lemma PlannedLinks()
    ensures LINK in KnownLinks(Planned()) && "vlan10" in KnownLinks(Planned())
    ensures IsIdentifier("vlan10") && IsIdentifier("g")
  {
    assert InterfaceNames([ETH0])[0] == LINK;
    assert VlanLinks([VLAN]) == {"vlan10"} by {
      assert [VLAN][..0] == [] && VlanLinks([]) == {};
    }
  }

  lemma OnVlanIsOk()
    ensures WanGroupOk(ON_VLAN, KnownLinks(Planned())) && PlatformOk(Planned().platform, KnownLinks(Planned()))
  {
    PlannedLinks();
    hide KnownLinks;
    hide IsIdentifier;
  }

  lemma PlannedIsValid()
    ensures ValidConfig(Planned())
  {
    var c := Planned();
    SmallScope([], []);
    OnVlanIsOk();
    hide WanGroupOk;
    hide PlatformOk;
    hide KnownLinks;
    hide IsIdentifier;
    hide InterfaceOk;
    assert c.interfaces == [ETH0] && c.routing.wanGroups == [ON_VLAN];
    assert NoRepeats(InterfaceNames([ETH0])) && NoRepeats(GroupIds([ON_VLAN]));
  }

  /** A validated WAN group on a planned VLAN fails on a host without it: routes are planned before the VLAN is. */
  lemma {:induction false} GroupOnPlannedVlanFails()
    ensures ValidConfig(Planned()) && Run(FRESH, PlanSteps(Planned())) == None
  {
    PlannedIsValid();
    hide ValidConfig;
    InitialView();
    PlanCompletesIff(Planned(), FRESH);
    assert Created([]) == {};
    assert LINK[0] == 'e' && "vlan10"[0] == 'v';
    assert ON_VLAN.members[0] in ON_VLAN.members;
    assert ON_VLAN in Planned().routing.wanGroups;
    hide Run;
    hide PlanSteps;
  }

  // ----- a tunnel whose name the kernel refuses

  /** The small configuration with one tunnel under the name. */
  function Named(name: string): Config {
    Small([], []).(tunnels := [Tunnel("t", TunKind, NoDirection, true, name, 0, 0, 0, [], [], map[], map[])])
  }

  lemma NamedIsValid(name: string)
    requires IsIdentifier(name)
    ensures ValidConfig(Named(name))
  {
    var c := Named(name);
    SmallScope([], []);
    assert IsIdentifier("t");
    hide IsIdentifier;
    hide InterfaceOk;
    hide KnownLinks;
    assert c.interfaces == [ETH0];
    assert NoRepeats(InterfaceNames([ETH0])) && NoRepeats(TunnelIds(c.tunnels));
  }

  lemma NamedIsNotReady(name: string)
    requires name != "" && !DeviceName(name)
    ensures !PlanReady(Named(name), FRESH.links.Keys)
  {
    var ts := Named(name).tunnels;
    assert DeviceName(LINK);
    hide DeviceName;
    assert Created(ts[..0]) == {} && Creates(ts[0]);
    assert !TunnelReadyAt(ts, 0, FRESH.links.Keys);
  }

  /** A validated tunnel whose name is longer than a device name or holds a colon fails on a host without the device. */
  lemma {:induction false} UnusableTunnelNameFails(name: string)
    requires IsIdentifier(name) && !DeviceName(name)
    ensures ValidConfig(Named(name)) && Run(FRESH, PlanSteps(Named(name))) == None
  {
    NamedIsValid(name);
    NamedIsNotReady(name);
    hide ValidConfig;
    hide IsIdentifier;
    hide DeviceName;
    hide PlanReady;
    hide Run;
    hide PlanSteps;
    InitialView();
    hide Strict;
    hide View;
    PlanCompletesIff(Named(name), FRESH);
  }
}
