/**
 The ruleset generator: loops that append declarations, lines and warnings. Each
 step is proved against the functions of MatchCompiler, PolicyChains, InputChain
 and NatChains, about which the theorems are stated.
 */
module NftWriter {
  import opened Basics
  import opened Addresses
  import opened Config
  import opened Nft
  import opened MatchCompiler
  import opened RuleOrder
  import opened RuleActions
  import opened PolicyChains
  import opened InputChain
  import opened AddressText
  import opened NatChains
  import opened CompiledTable

  /** An nft name from an arbitrary text, character by character. */
  method NftIdentifier(value: string) returns (name: string)
    ensures name == Identifier(value)
  {
    var out := "";
    for i := 0 to |value|
      invariant out == Sanitised(value[..i])
    {
      assert value[..i + 1][..i] == value[..i];
      if IsWordChar(value[i]) {
        out := out + [value[i]];
      } else {
        out := out + ['_'];
      }
    }
    assert value[..|value|] == value;
    if out == "" {
      return "rs_empty";
    }
    if '0' <= out[0] <= '9' {
      return "rs_" + out;
    }
    return out;
  }

  /** Source alternatives of a port forward. */
  method PortForwardSources(cidrs: seq<Cidr>) returns (out: seq<seq<Atom>>)
    ensures out == SourceExprs(cidrs)
  {
    var v4, v6 := SplitCIDRs(cidrs);
    out := [];
    if |v4| > 0 {
      out := out + [[SAddr(V4, v4)]];
    }
    if |v6| > 0 {
      out := out + [[SAddr(V6, v6)]];
    }
  }

  /** The address part of one family's line. */
  method FamilyParts(src: seq<Cidr>, dst: seq<Cidr>, fam: Family) returns (parts: seq<Atom>)
    ensures parts == (if src != [] then [SAddr(fam, src)] else []) + (if dst != [] then [DAddr(fam, dst)] else [])
  {
    parts := [];
    if |src| > 0 {
      parts := parts + [SAddr(fam, src)];
    }
    if |dst| > 0 {
      parts := parts + [DAddr(fam, dst)];
    }
  }

  method CombineFamilies(src4: seq<Cidr>, src6: seq<Cidr>, dst4: seq<Cidr>, dst6: seq<Cidr>)
    returns (out: seq<seq<Atom>>)
    ensures out == CombineCIDRs(src4, src6, dst4, dst6)
  {
    out := [];
    if |src4| > 0 || |dst4| > 0 {
      var parts := FamilyParts(src4, dst4, V4);
      out := out + [parts];
    }
    if |src6| > 0 || |dst6| > 0 {
      var parts := FamilyParts(src6, dst6, V6);
      out := out + [parts];
    }
  }

  lemma DisabledDeclaresNothing(routeSet: RouteSet)
    requires !routeSet.enabled
    ensures SetDecls(routeSet) == []
  {
  }

  /** The declarations of one enabled route set. */
  method DeclareSet(routeSet: RouteSet) returns (out: seq<SetDecl>)
    requires routeSet.enabled
    ensures out == SetDecls(routeSet)
  {
    out := [];
    var v4, v6 := SplitCIDRs(routeSet.cidrs);
    var name := NftIdentifier(routeSet.id);
    if |v4| > 0 {
      out := out + [SetDecl(name + "_v4", v4)];
    }
    if |v6| > 0 {
      out := out + [SetDecl(name + "_v6", v6)];
    }
  }

  method IndexById(routeSets: seq<RouteSet>) returns (byId: map<string, RouteSet>)
    ensures byId == ById(routeSets)
  {
    byId := map[];
    for i := 0 to |routeSets|
      invariant byId == ById(routeSets[..i])
    {
      assert routeSets[..i + 1][..i] == routeSets[..i];
      byId := byId[routeSets[i].id := routeSets[i]];
    }
    assert routeSets[..|routeSets|] == routeSets;
  }

  /** The alternatives one referenced route set adds. */
  method ReferenceSet(routeSet: RouteSet) returns (out: seq<seq<Atom>>)
    ensures out == SetExpr(routeSet)
  {
    out := [];
    var v4, v6 := SplitCIDRs(routeSet.cidrs);
    var name := NftIdentifier(routeSet.id);
    if |v4| > 0 {
      out := out + [[DAddrNamed(V4, name + "_v4")]];
    }
    if |v6| > 0 {
      out := out + [[DAddrNamed(V6, name + "_v6")]];
    }
  }

  /** The port alternative of one protocol. */
  method PortParts(m: RuleMatch, proto: Protocol) returns (parts: seq<Atom>)
    ensures parts == PortExpr(m, proto)
  {
    parts := [];
    if |m.sourcePorts| > 0 {
      parts := parts + [SPort(proto, m.sourcePorts)];
    }
    if |m.destinationPorts| > 0 {
      parts := parts + [DPort(proto, m.destinationPorts)];
    }
  }

  method BaseParts(m: RuleMatch) returns (base: seq<Atom>)
    ensures base == Base(m)
  {
    base := [];
    if m.inputIface != "" {
      base := base + [IifName(m.inputIface)];
    }
    if m.outputIface != "" {
      base := base + [OifName(m.outputIface)];
    }
    if |m.protocols| > 0 {
      base := base + [L4Proto(m.protocols)];
    }
  }

  lemma NoPorts(ruleId: string, m: RuleMatch)
    ensures PortExprsOf(m, []) == [] && PortWarningsOf(ruleId, m, []) == []
  {
  }

  lemma PortsSnoc(ruleId: string, m: RuleMatch, protos: seq<Protocol>, i: nat)
    requires i < |protos|
    ensures PortExprsOf(m, protos[..i + 1]) ==
            PortExprsOf(m, protos[..i]) +
            (if CarriesPorts(protos[i]) && PortExpr(m, protos[i]) != [] then [PortExpr(m, protos[i])] else [])
    ensures PortWarningsOf(ruleId, m, protos[..i + 1]) ==
            PortWarningsOf(ruleId, m, protos[..i]) +
            (if !CarriesPorts(protos[i]) && HasPorts(m) then [PortsSkipped(ruleId, protos[i])] else [])
  {
    hide PortExpr;
    assert protos[..i + 1][..i] == protos[..i];
  }

  method GridOf(prefix: seq<Atom>, setExprs: seq<seq<Atom>>, portExprs: seq<seq<Atom>>)
    returns (out: seq<seq<Atom>>)
    ensures out == Grid(prefix, setExprs, portExprs)
  {
    out := [];
    for j := 0 to |setExprs|
      invariant out == Grid(prefix, setExprs[..j], portExprs)
    {
      assert setExprs[..j + 1][..j] == setExprs[..j];
      ghost var before := out;
      for k := 0 to |portExprs|
        invariant out == before + Row(prefix + setExprs[j], portExprs[..k])
      {
        assert portExprs[..k + 1][..k] == portExprs[..k];
        out := out + [prefix + setExprs[j] + portExprs[k]];
      }
      assert portExprs[..|portExprs|] == portExprs;
    }
    assert setExprs[..|setExprs|] == setExprs;
  }

  /** The product of the three factors behind a common base. */
  method ProductOf(base: seq<Atom>, cidrExprs: seq<seq<Atom>>, setExprs: seq<seq<Atom>>, portExprs: seq<seq<Atom>>)
    returns (out: seq<seq<Atom>>)
    ensures out == Cube(base, cidrExprs, setExprs, portExprs)
  {
    out := [];
    for i := 0 to |cidrExprs|
      invariant out == Cube(base, cidrExprs[..i], setExprs, portExprs)
    {
      assert cidrExprs[..i + 1][..i] == cidrExprs[..i];
      var grid := GridOf(base + cidrExprs[i], setExprs, portExprs);
      out := out + grid;
    }
    assert cidrExprs[..|cidrExprs|] == cidrExprs;
  }

  method ManagementLinesOf(cidrs: seq<Cidr>, ports: seq<int>) returns (lines: seq<Line>)
    ensures lines == ManagementLines(cidrs, ports)
  {
    lines := [];
    for i := 0 to |cidrs|
      invariant lines == ManagementLines(cidrs[..i], ports)
    {
      assert cidrs[..i + 1][..i] == cidrs[..i];
      var family := CidrFamily(cidrs[i]);
      ghost var before := lines;
      for j := 0 to |ports|
        invariant lines == before + PortLines(cidrs[i], ports[..j])
      {
        assert ports[..j + 1][..j] == ports[..j];
        lines := lines + [Line([SAddr(family, [cidrs[i]]), DPort(Tcp, [PortRange(ports[j], ports[j])])],
                               false, Accept, "management")];
      }
      assert ports[..|ports|] == ports;
    }
    assert cidrs[..|cidrs|] == cidrs;
  }

  lemma UnrenderedPair(pair: OneToOneNat)
    requires !Rendered(pair)
    ensures DnatPair(pair) == [] && SnatPair(pair) == []
  {
  }

  /** The lines of one rendered pair: one for every interface, or a single unrestricted one. */
  method PairLines(pair: OneToOneNat, inbound: bool) returns (lines: seq<Line>)
    requires Rendered(pair)
    ensures lines == if inbound then DnatPair(pair) else SnatPair(pair)
  {
    hide DnatLine;
    hide SnatLine;
    if |pair.interfaces| == 0 {
      return [if inbound then DnatLine(pair, None) else SnatLine(pair, None)];
    }
    lines := [];
    var ifaces := pair.interfaces;
    for j := 0 to |ifaces|
      invariant lines == if inbound then DnatIfaceLines(pair, ifaces[..j]) else SnatIfaceLines(pair, ifaces[..j])
    {
      assert ifaces[..j + 1][..j] == ifaces[..j];
      lines := lines + [if inbound then DnatLine(pair, Some(ifaces[j])) else SnatLine(pair, Some(ifaces[j]))];
    }
    assert ifaces[..|ifaces|] == ifaces;
  }

  method ForwardParts(forward: PortForward, proto: Protocol, source: seq<Atom>) returns (line: Line)
    ensures line == ForwardLine(forward, proto, source)
  {
    var parts := [];
    if forward.inputIface != "" {
      parts := parts + [IifName(forward.inputIface)];
    }
    parts := parts + source;
    parts := parts + [DPort(proto, [PortRange(forward.externalPort, forward.externalPort)])];
    line := Line(parts, forward.log, DnatToTarget(TargetText(forward.internalIP, forward.internalPort)), forward.id);
  }

  /** The lines of one enabled port forward: protocols by source alternatives. */
  method OneForwardOf(forward: PortForward) returns (lines: seq<Line>)
    requires forward.enabled
    ensures lines == OneForward(forward)
  {
    hide ForwardLine;
    hide SourceExprs;
    var protos := forward.protocols;
    if |protos| == 0 {
      protos := [Tcp];
    }
    var sources := PortForwardSources(forward.sourceCIDRs);
    if |sources| == 0 {
      sources := [[]];
    }
    assert sources == OrBlank(SourceExprs(forward.sourceCIDRs));
    lines := [];
    for j := 0 to |protos|
      invariant lines == ForwardProtoLines(forward, protos[..j])
    {
      assert protos[..j + 1][..j] == protos[..j];
      ghost var before := lines;
      for k := 0 to |sources|
        invariant lines == before + ForwardSourceLines(forward, protos[j], sources[..k])
      {
        assert sources[..k + 1][..k] == sources[..k];
        var line := ForwardParts(forward, protos[j], sources[k]);
        lines := lines + [line];
      }
      assert sources[..|sources|] == sources;
    }
    assert protos[..|protos|] == protos;
  }

  method ForwardsOf(forwards: seq<PortForward>) returns (lines: seq<Line>)
    ensures lines == PortForwardLines(forwards)
  {
    lines := [];
    for i := 0 to |forwards|
      invariant lines == PortForwardLines(forwards[..i])
    {
      assert forwards[..i + 1][..i] == forwards[..i];
      if !forwards[i].enabled {
        continue;
      }
      var more := OneForwardOf(forwards[i]);
      lines := lines + more;
    }
    assert forwards[..|forwards|] == forwards;
  }

  method IfaceMasqueradesOf(ifaces: seq<Interface>) returns (lines: seq<Line>)
    ensures lines == IfaceMasquerades(ifaces)
  {
    lines := [];
    for i := 0 to |ifaces|
      invariant lines == IfaceMasquerades(ifaces[..i])
    {
      assert ifaces[..i + 1][..i] == ifaces[..i];
      var iface := ifaces[i];
      if iface.enabled && (iface.masquerade || iface.role == Wan) {
        lines := lines + [Line([OifName(iface.name)], false, Masquerade, "nat " + iface.name)];
      }
    }
    assert ifaces[..|ifaces|] == ifaces;
  }

  method GroupMasqueradesOf(rule: RouteRule, groups: seq<WanGroup>) returns (lines: seq<Line>)
    ensures lines == GroupMasquerades(rule, groups)
  {
    hide RuleNat;
    lines := [];
    for j := 0 to |groups|
      invariant lines == GroupMasquerades(rule, groups[..j])
    {
      assert groups[..j + 1][..j] == groups[..j];
      if groups[j].id != rule.action.target {
        continue;
      }
      var members := groups[j].members;
      ghost var before := lines;
      for k := 0 to |members|
        invariant lines == before + MemberMasquerades(rule, members[..k])
      {
        assert members[..k + 1][..k] == members[..k];
        lines := lines + [RuleNat(rule, members[k].iface)];
      }
      assert members[..|members|] == members;
    }
    assert groups[..|groups|] == groups;
  }

  method TunnelMasqueradesOf(rule: RouteRule, tunnels: seq<Tunnel>) returns (lines: seq<Line>)
    ensures lines == TunnelMasquerades(rule, tunnels)
  {
    hide RuleNat;
    lines := [];
    for j := 0 to |tunnels|
      invariant lines == TunnelMasquerades(rule, tunnels[..j])
    {
      assert tunnels[..j + 1][..j] == tunnels[..j];
      if tunnels[j].id == rule.action.target && tunnels[j].interfaceName != "" {
        lines := lines + [RuleNat(rule, tunnels[j].interfaceName)];
      }
    }
    assert tunnels[..|tunnels|] == tunnels;
  }

  method MasqueradesOf(rules: seq<RouteRule>, c: Config) returns (lines: seq<Line>)
    ensures lines == RuleMasquerades(rules, c)
  {
    hide RuleNat;
    hide GroupMasquerades;
    hide TunnelMasquerades;
    lines := [];
    for i := 0 to |rules|
      invariant lines == RuleMasquerades(rules[..i], c)
    {
      assert rules[..i + 1][..i] == rules[..i];
      var rule := rules[i];
      if !rule.enabled || !rule.action.masquerade || rule.action.target == "" {
        continue;
      }
      if rule.action.kind == ToWanGroup || rule.action.kind == LoadBalance {
        var more := GroupMasqueradesOf(rule, c.routing.wanGroups);
        lines := lines + more;
        continue;
      }
      if rule.action.kind == ToTunnel {
        var more := TunnelMasqueradesOf(rule, c.tunnels);
        lines := lines + more;
        continue;
      }
      lines := lines + [RuleNat(rule, rule.action.target)];
    }
    assert rules[..|rules|] == rules;
  }

  class Ruleset {
    var sets: seq<SetDecl>
    var chains: seq<Chain>
    var warnings: seq<Warning>

    constructor ()
      ensures sets == [] && chains == [] && warnings == []
    {
      sets, chains, warnings := [], [], [];
    }

    method WriteRouteSets(routeSets: seq<RouteSet>)
      modifies this`sets, this`warnings
      ensures sets == old(sets) + AllSetDecls(routeSets)
      ensures warnings == old(warnings) + SetWarnings(routeSets)
    {
      hide SetDecls;
      for i := 0 to |routeSets|
        invariant sets == old(sets) + AllSetDecls(routeSets[..i])
        invariant warnings == old(warnings) + SetWarnings(routeSets[..i])
      {
        assert routeSets[..i + 1][..i] == routeSets[..i];
        var routeSet := routeSets[i];
        if !routeSet.enabled {
          DisabledDeclaresNothing(routeSet);
          continue;
        }
        if |routeSet.sourceURLs| > 0 || |routeSet.countries| > 0 || |routeSet.domains| > 0 {
          warnings := warnings + [DynamicSet(routeSet.id)];
        }
        var decls := DeclareSet(routeSet);
        sets := sets + decls;
      }
      assert routeSets[..|routeSets|] == routeSets;
    }

    method PortExpressions(rule: RouteRule) returns (out: seq<seq<Atom>>)
      modifies this`warnings
      ensures out == PortExprs(rule.match_)
      ensures warnings == old(warnings) + PortWarningsOf(rule.id, rule.match_, PortProtocols(rule.match_))
    {
      hide PortExpr;
      hide PortExprsOf;
      hide PortWarningsOf;
      NoPorts(rule.id, rule.match_);
      out := [];
      var m := rule.match_;
      var protos := m.protocols;
      if |protos| == 0 {
        protos := [Tcp, Udp];
      }
      for i := 0 to |protos|
        invariant out == PortExprsOf(m, protos[..i])
        invariant warnings == old(warnings) + PortWarningsOf(rule.id, m, protos[..i])
      {
        var proto := protos[i];
        PortsSnoc(rule.id, m, protos, i);
        if proto != Tcp && proto != Udp {
          if |m.sourcePorts| > 0 || |m.destinationPorts| > 0 {
            warnings := warnings + [PortsSkipped(rule.id, proto)];
          }
          continue;
        }
        var parts := PortParts(m, proto);
        if |parts| > 0 {
          out := out + [parts];
        }
      }
      assert protos[..|protos|] == protos;
    }

    method SetReferences(ruleId: string, ids: seq<string>, byId: map<string, RouteSet>) returns (out: seq<seq<Atom>>)
      modifies this`warnings
      ensures out == SetExprs(ids, byId)
      ensures warnings == old(warnings) + SetRefWarnings(ruleId, ids, byId)
    {
      hide SetExpr;
      out := [];
      for i := 0 to |ids|
        invariant out == SetExprs(ids[..i], byId)
        invariant warnings == old(warnings) + SetRefWarnings(ruleId, ids[..i], byId)
      {
        assert ids[..i + 1][..i] == ids[..i];
        if ids[i] !in byId || !byId[ids[i]].enabled {
          continue;
        }
        var exprs := ReferenceSet(byId[ids[i]]);
        out := out + exprs;
        assert out == SetExprs(ids[..i + 1], byId);
        if |exprs| == 0 {
          warnings := warnings + [EmptySet(ruleId, ids[i])];
        }
      }
      assert ids[..|ids|] == ids;
    }

    method RouteSetExpressions(rule: RouteRule, routeSets: seq<RouteSet>) returns (out: seq<seq<Atom>>)
      modifies this`warnings
      ensures out == SetExprs(rule.match_.sets, ById(routeSets))
      ensures warnings == old(warnings) + SetRefWarnings(rule.id, rule.match_.sets, ById(routeSets)) +
                          AppWarnings(rule.id, rule.match_.applications) + ServiceWarnings(rule.id, rule.match_.services)
    {
      hide ById;
      hide SetExprs;
      hide SetRefWarnings;
      var byId := IndexById(routeSets);
      out := SetReferences(rule.id, rule.match_.sets, byId);

      var apps, services := rule.match_.applications, rule.match_.services;
      ghost var as_, ss := AppWarnings(rule.id, apps), ServiceWarnings(rule.id, services);
      ghost var w := warnings;
      for i := 0 to |apps|
        invariant warnings == w + as_[..i]
      {
        warnings := warnings + [UnmappedApplication(rule.id, apps[i])];
      }
      w := warnings;
      for i := 0 to |services|
        invariant warnings == w + ss[..i]
      {
        warnings := warnings + [UnmappedService(rule.id, services[i])];
      }
      assert as_[..|as_|] == as_ && ss[..|ss|] == ss;
    }

    method MatchExpressions(rule: RouteRule, routeSets: seq<RouteSet>) returns (out: seq<seq<Atom>>)
      modifies this`warnings
      ensures out == MatchExprs(rule.match_, routeSets)
      ensures warnings == old(warnings) + MatchWarnings(rule.id, rule.match_, routeSets)
    {
      hide Base;
      hide PortExprs;
      hide PortWarningsOf;
      hide SetRefWarnings;
      hide CombineCIDRs;
      hide SetExprs;
      hide Cube;
      var m := rule.match_;
      var base := BaseParts(m);
      var portExprs := PortExpressions(rule);
      if |portExprs| == 0 {
        portExprs := [[]];
      }
      var src4, src6 := SplitCIDRs(m.sourceCIDRs);
      var dst4, dst6 := SplitCIDRs(m.destinationCIDRs);
      var cidrExprs := CombineFamilies(src4, src6, dst4, dst6);
      if |cidrExprs| == 0 {
        cidrExprs := [[]];
      }
      var setExprs := RouteSetExpressions(rule, routeSets);
      if |setExprs| == 0 {
        setExprs := [[]];
      }
      out := ProductOf(base, cidrExprs, setExprs, portExprs);
    }

    method WriteRuleLines(rule: RouteRule, c: Config) returns (lines: seq<Line>)
      modifies this`warnings
      ensures lines == RuleLines(rule, c)
      ensures warnings == old(warnings) + RuleWarnings(rule, c)
    {
      hide MatchExprs;
      hide MatchWarnings;
      hide NftMark;
      var domains, geoIP := rule.match_.domains, rule.match_.geoIP;
      ghost var ds, gs := DomainWarnings(rule.id, rule.match_), GeoWarnings(rule.id, rule.match_);
      for i := 0 to |domains|
        invariant warnings == old(warnings) + ds[..i]
      {
        warnings := warnings + [DomainMatch(rule.id, domains[i])];
      }
      ghost var w := warnings;
      for i := 0 to |geoIP|
        invariant warnings == w + gs[..i]
      {
        warnings := warnings + [GeoMatch(rule.id, geoIP[i])];
      }
      assert ds[..|ds|] == ds && gs[..|gs|] == gs;

      var expressions := MatchExpressions(rule, c.routing.sets);
      var action := NftAction(rule, c.tunnels, c.routing.wanGroups);
      if action == None {
        return [];
      }
      if |expressions| == 0 {
        return [Line([], action.value.log, action.value.action, rule.id)];
      }
      lines := [];
      for i := 0 to |expressions|
        invariant lines == LinesFor(expressions[..i], action.value, rule.id)
      {
        assert expressions[..i + 1][..i] == expressions[..i];
        lines := lines + [Line(expressions[i], action.value.log, action.value.action, rule.id)];
      }
      assert expressions[..|expressions|] == expressions;
    }

    /** What one rule adds to a chain: nothing when it is disabled or belongs to the other chain. */
    method WriteRule(rule: RouteRule, filter: bool, c: Config) returns (lines: seq<Line>)
      modifies this`warnings
      ensures lines == Block(rule, filter, c)
      ensures warnings == old(warnings) + BlockWarnings(rule, filter, c)
    {
      hide RuleLines;
      hide RuleWarnings;
      if !rule.enabled {
        return [];
      }
      if IsFilterAction(rule.action.kind) != filter {
        return [];
      }
      lines := WriteRuleLines(rule, c);
    }

    /** The loop both policy chains share, over the rules in stable priority order. */
    method WriteRules(rules: seq<RouteRule>, filter: bool, c: Config) returns (lines: seq<Line>)
      modifies this`warnings
      ensures lines == ChainLines(rules, filter, c)
      ensures warnings == old(warnings) + ChainWarnings(rules, filter, c)
    {
      hide Block;
      hide BlockWarnings;
      assert ChainLines(rules[..0], filter, c) == [];
      hide ChainLines;
      lines := [];
      for i := 0 to |rules|
        invariant lines == ChainLines(rules[..i], filter, c)
        invariant warnings == old(warnings) + ChainWarnings(rules[..i], filter, c)
      {
        assert rules[..i + 1][..i] == rules[..i] && rules[..i + 1] == rules[..i] + [rules[i]];
        ChainSnoc(rules[..i], rules[i], filter, c);
        var more := WriteRule(rules[i], filter, c);
        lines := lines + more;
      }
      assert rules[..|rules|] == rules;
    }

    method WritePreroutingChain(c: Config)
      modifies this`chains, this`warnings
      ensures chains == old(chains) + [Chain("prerouting", false, PreroutingLines(c))]
      ensures warnings == old(warnings) + ChainWarnings(StableSort(c.routing.rules), false, c)
    {
      hide ChainLines;
      hide ChainWarnings;
      hide StableSort;
      var rules := StableSort(c.routing.rules);
      var lines := WriteRules(rules, false, c);
      if c.security.ips.enabled && c.security.ips.nfqueueMode {
        lines := lines + [Line([], false, Queue(c.security.ips.queue), "suricata nfqueue")];
      }
      assert lines == PreroutingLines(c);
      chains := chains + [Chain("prerouting", false, lines)];
    }

    method WriteForwardChain(c: Config)
      modifies this`chains, this`warnings
      ensures chains == old(chains) + [Chain("forward", false, ForwardLines(c))]
      ensures warnings == old(warnings) + ChainWarnings(StableSort(c.routing.rules), true, c)
    {
      hide ChainLines;
      hide ChainWarnings;
      hide StableSort;
      var lines := [];
      if c.security.allowEstablished {
        lines := lines + [Line([CtState({Established, Related})], false, Accept, "")];
      }
      lines := lines + [Line([CtState({Invalid})], false, Drop, "")];
      assert lines == ConntrackLines(c);
      var rules := StableSort(c.routing.rules);
      var more := WriteRules(rules, true, c);
      chains := chains + [Chain("forward", false, lines + more)];
    }

    method WriteInputChain(c: Config)
      modifies this`chains
      ensures chains == old(chains) + [Chain("input", c.security.firewall, InputLines(c))]
    {
      hide ManagementLines;
      var policyDrop := false;
      if c.security.firewall {
        policyDrop := true;
      }
      var lines := [Line([IifName("lo")], false, Accept, "")];
      if c.security.allowEstablished {
        lines := lines + [Line([CtState({Established, Related})], false, Accept, "")];
      }
      lines := lines + [Line([CtState({Invalid})], false, Drop, "")];
      assert lines == [LOOPBACK] + ConntrackLines(c);
      var management := ManagementLinesOf(c.managementCIDRs, c.security.managementPorts);
      lines := lines + management;
      lines := lines + [Line([FamProto(V4, Icmp)], false, Accept, "")];
      lines := lines + [Line([FamProto(V6, IcmpV6)], false, Accept, "")];
      assert lines == InputLines(c);
      chains := chains + [Chain("input", policyDrop, lines)];
    }

    /** The 1:1 loop of both NAT chains; `inbound` selects the rewrite. */
    method WritePairs(nats: seq<OneToOneNat>, inbound: bool) returns (lines: seq<Line>)
      modifies this`warnings
      ensures lines == if inbound then DnatPairs(nats) else SnatPairs(nats)
      ensures warnings == old(warnings) + PairWarnings(nats)
    {
      hide DnatPair;
      hide SnatPair;
      lines := [];
      for i := 0 to |nats|
        invariant lines == if inbound then DnatPairs(nats[..i]) else SnatPairs(nats[..i])
        invariant warnings == old(warnings) + PairWarnings(nats[..i])
      {
        assert nats[..i + 1][..i] == nats[..i];
        var pair := nats[i];
        if !pair.enabled {
          UnrenderedPair(pair);
          continue;
        }
        if !SingleHost(pair) {
          UnrenderedPair(pair);
          warnings := warnings + [NetmapNat(pair.id)];
          continue;
        }
        var more := PairLines(pair, inbound);
        lines := lines + more;
      }
      assert nats[..|nats|] == nats;
    }

    method WriteDstNatChain(c: Config)
      modifies this`chains, this`warnings
      ensures chains == old(chains) + if HasDstNat(c) then [Chain("dstnat", false, DstNatLines(c))] else []
      ensures warnings == old(warnings) + if HasDstNat(c) then PairWarnings(c.security.oneToOne) else []
    {
      if !c.security.nat_ || (|c.security.portForwards| == 0 && |c.security.oneToOne| == 0) {
        return;
      }
      var lines := WritePairs(c.security.oneToOne, true);
      var forwards := ForwardsOf(c.security.portForwards);
      chains := chains + [Chain("dstnat", false, lines + forwards)];
    }

    method WritePostroutingChain(c: Config)
      modifies this`chains, this`warnings
      ensures chains == old(chains) + if c.security.nat_ then [Chain("postrouting", false, PostroutingLines(c))] else []
      ensures warnings == old(warnings) + if c.security.nat_ then PairWarnings(c.security.oneToOne) else []
    {
      hide SnatPairs;
      hide IfaceMasquerades;
      hide RuleMasquerades;
      hide PairWarnings;
      if !c.security.nat_ {
        return;
      }
      var lines := WritePairs(c.security.oneToOne, false);
      var masquerades := IfaceMasqueradesOf(c.interfaces);
      lines := lines + masquerades;
      var more := MasqueradesOf(c.routing.rules, c);
      chains := chains + [Chain("postrouting", false, lines + more)];
    }
  }

  function WarningsOf(c: Config): seq<Warning> {
    SetWarnings(c.routing.sets) +
    (if HasDstNat(c) then PairWarnings(c.security.oneToOne) else []) +
    ChainWarnings(StableSort(c.routing.rules), false, c) +
    ChainWarnings(StableSort(c.routing.rules), true, c) +
    (if c.security.nat_ then PairWarnings(c.security.oneToOne) else [])
  }

  method BuildNftables(c: Config) returns (table: Table, warnings: seq<Warning>)
    ensures table == TableOf(c) && warnings == WarningsOf(c)
  {
    hide AllSetDecls;
    hide InputLines;
    hide DstNatLines;
    hide PreroutingLines;
    hide ForwardLines;
    hide PostroutingLines;
    hide SetWarnings;
    hide PairWarnings;
    hide ChainWarnings;
    hide StableSort;
    var b := new Ruleset();
    b.WriteRouteSets(c.routing.sets);
    b.WriteInputChain(c);
    b.WriteDstNatChain(c);
    b.WritePreroutingChain(c);
    b.WriteForwardChain(c);
    b.WritePostroutingChain(c);
    return Table(b.sets, b.chains), b.warnings;
  }
}
