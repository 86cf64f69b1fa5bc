/**
 The lines of the NAT chains: 1:1 pairs, port forwards and masquerading. Pairs are rendered
 with IPv4 matches only, so what is said of pairs is about IPv4 pairs.
 */
module NatChains {
  import opened Basics
  import opened Addresses
  import opened AddressText
  import opened Config
  import opened Nft
  import opened MatchCompiler
  import opened InputChain

  /** A pair of two single hosts of one family; wider pairs are not rendered. */
  predicate SingleHost(n: OneToOneNat) {
    && n.internal.Cidr? && n.external.Cidr?
    && n.internal.fam == n.external.fam
    && n.internal.bits == Width(n.internal.fam) && n.external.bits == Width(n.external.fam)
  }

  predicate Rendered(n: OneToOneNat) {
    n.enabled && SingleHost(n)
  }

  /** An enabled pair of two IPv4 hosts. */
  predicate Ipv4Pair(n: OneToOneNat) {
    && n.enabled && n.internal.Cidr? && n.external.Cidr?
    && n.internal.fam == V4 && n.external.fam == V4
    && n.internal.bits == 32 && n.external.bits == 32
  }

  /** The pair is in force on an interface: it names it, or names none. */
  predicate OnIface(n: OneToOneNat, iface: string) {
    n.interfaces == [] || iface in n.interfaces
  }

  function DnatLine(n: OneToOneNat, iface: Option<string>): Line
    requires SingleHost(n)
  {
    Line((if iface.Some? then [IifName(iface.value)] else []) + [DAddr(V4, [n.external])],
         false, DnatTo(n.internal.addr), n.id)
  }

  function SnatLine(n: OneToOneNat, iface: Option<string>): Line
    requires SingleHost(n)
  {
    Line((if iface.Some? then [OifName(iface.value)] else []) + [SAddr(V4, [n.internal])],
         false, SnatTo(n.external.addr), n.id)
  }

  function DnatIfaceLines(n: OneToOneNat, ifaces: seq<string>): seq<Line>
    requires SingleHost(n)
  {
    if ifaces == [] then [] else
      DnatIfaceLines(n, ifaces[..|ifaces| - 1]) + [DnatLine(n, Some(ifaces[|ifaces| - 1]))]
  }

  function SnatIfaceLines(n: OneToOneNat, ifaces: seq<string>): seq<Line>
    requires SingleHost(n)
  {
    if ifaces == [] then [] else
      SnatIfaceLines(n, ifaces[..|ifaces| - 1]) + [SnatLine(n, Some(ifaces[|ifaces| - 1]))]
  }

  function DnatPair(n: OneToOneNat): seq<Line> {
    if !Rendered(n) then []
    else if n.interfaces == [] then [DnatLine(n, None)]
    else DnatIfaceLines(n, n.interfaces)
  }

  function SnatPair(n: OneToOneNat): seq<Line> {
    if !Rendered(n) then []
    else if n.interfaces == [] then [SnatLine(n, None)]
    else SnatIfaceLines(n, n.interfaces)
  }

  function DnatPairs(nats: seq<OneToOneNat>): seq<Line> {
    if nats == [] then [] else DnatPairs(nats[..|nats| - 1]) + DnatPair(nats[|nats| - 1])
  }

  function SnatPairs(nats: seq<OneToOneNat>): seq<Line> {
    if nats == [] then [] else SnatPairs(nats[..|nats| - 1]) + SnatPair(nats[|nats| - 1])
  }

  function PairWarnings(nats: seq<OneToOneNat>): seq<Warning> {
    if nats == [] then [] else
      var n := nats[|nats| - 1];
      PairWarnings(nats[..|nats| - 1]) + (if n.enabled && !SingleHost(n) then [NetmapNat(n.id)] else [])
  }

  // ----- port forwards

  function SourceExprs(cidrs: seq<Cidr>): seq<seq<Atom>> {
    (if OfFamily(cidrs, V4) != [] then [[SAddr(V4, OfFamily(cidrs, V4))]] else []) +
    (if OfFamily(cidrs, V6) != [] then [[SAddr(V6, OfFamily(cidrs, V6))]] else [])
  }

  function ForwardLine(f: PortForward, proto: Protocol, source: seq<Atom>): Line {
    Line((if f.inputIface != "" then [IifName(f.inputIface)] else []) + source +
         [DPort(proto, [PortRange(f.externalPort, f.externalPort)])],
         f.log, DnatToTarget(TargetText(f.internalIP, f.internalPort)), f.id)
  }

  function ForwardSourceLines(f: PortForward, proto: Protocol, sources: seq<seq<Atom>>): seq<Line> {
    if sources == [] then [] else
      ForwardSourceLines(f, proto, sources[..|sources| - 1]) + [ForwardLine(f, proto, sources[|sources| - 1])]
  }

  function ForwardProtoLines(f: PortForward, protos: seq<Protocol>): seq<Line> {
    if protos == [] then [] else
      ForwardProtoLines(f, protos[..|protos| - 1]) +
      ForwardSourceLines(f, protos[|protos| - 1], OrBlank(SourceExprs(f.sourceCIDRs)))
  }

  function OneForward(f: PortForward): seq<Line> {
    if !f.enabled then [] else ForwardProtoLines(f, if f.protocols == [] then [Tcp] else f.protocols)
  }

  function PortForwardLines(fs: seq<PortForward>): seq<Line> {
    if fs == [] then [] else PortForwardLines(fs[..|fs| - 1]) + OneForward(fs[|fs| - 1])
  }

  predicate HasDstNat(c: Config) {
    c.security.nat_ && (c.security.portForwards != [] || c.security.oneToOne != [])
  }

  function DstNatLines(c: Config): seq<Line> {
    DnatPairs(c.security.oneToOne) + PortForwardLines(c.security.portForwards)
  }

  // ----- masquerading

  function IfaceMasquerades(ifaces: seq<Interface>): seq<Line> {
    if ifaces == [] then [] else
      var i := ifaces[|ifaces| - 1];
      IfaceMasquerades(ifaces[..|ifaces| - 1]) +
      (if i.enabled && (i.masquerade || i.role == Wan)
       then [Line([OifName(i.name)], false, Masquerade, "nat " + i.name)] else [])
  }

  function RuleNat(rule: RouteRule, iface: string): Line {
    Line([OifName(iface)], false, Masquerade, "rule nat " + rule.id)
  }

  function MemberMasquerades(rule: RouteRule, members: seq<WanMember>): seq<Line> {
    if members == [] then [] else
      MemberMasquerades(rule, members[..|members| - 1]) + [RuleNat(rule, members[|members| - 1].iface)]
  }

  function GroupMasquerades(rule: RouteRule, groups: seq<WanGroup>): seq<Line> {
    if groups == [] then [] else
      var g := groups[|groups| - 1];
      GroupMasquerades(rule, groups[..|groups| - 1]) +
      (if g.id == rule.action.target then MemberMasquerades(rule, g.members) else [])
  }

  function TunnelMasquerades(rule: RouteRule, tunnels: seq<Tunnel>): seq<Line> {
    if tunnels == [] then [] else
      var t := tunnels[|tunnels| - 1];
      TunnelMasquerades(rule, tunnels[..|tunnels| - 1]) +
      (if t.id == rule.action.target && t.interfaceName != "" then [RuleNat(rule, t.interfaceName)] else [])
  }

  function OneRuleMasquerade(rule: RouteRule, c: Config): seq<Line> {
    if !rule.enabled || !rule.action.masquerade || rule.action.target == "" then []
    else match rule.action.kind
      case ToWanGroup => GroupMasquerades(rule, c.routing.wanGroups)
      case LoadBalance => GroupMasquerades(rule, c.routing.wanGroups)
      case ToTunnel => TunnelMasquerades(rule, c.tunnels)
      case _ => [RuleNat(rule, rule.action.target)]
  }

  function RuleMasquerades(rules: seq<RouteRule>, c: Config): seq<Line> {
    if rules == [] then [] else
      RuleMasquerades(rules[..|rules| - 1], c) + OneRuleMasquerade(rules[|rules| - 1], c)
  }

  function PostroutingLines(c: Config): seq<Line> {
    SnatPairs(c.security.oneToOne) + IfaceMasquerades(c.interfaces) + RuleMasquerades(c.routing.rules, c)
  }

  // ----- what the pairs translate

  predicate DnatApplies(n: OneToOneNat, p: Packet) {
    Ipv4Pair(n) && p.fam == V4 && p.dst == n.external.addr && OnIface(n, p.iif)
  }

  predicate SnatApplies(n: OneToOneNat, p: Packet) {
    Ipv4Pair(n) && p.fam == V4 && p.src == n.internal.addr && OnIface(n, p.oif)
  }

  lemma HostContains(c: Cidr, a: nat)
    requires c.Cidr? && c.bits == Width(c.fam)
    ensures Contains(c, V4, a) <==> c.fam == V4 && a == c.addr
  {
    assert Pow2(0) == 1;
  }

  lemma DnatLineMeaning(n: OneToOneNat, iface: Option<string>, p: Packet, env: SetEnv)
    requires Rendered(n)
    ensures All(DnatLine(n, iface).matches, p, env) <==>
            Ipv4Pair(n) && p.fam == V4 && p.dst == n.external.addr && (iface.Some? ==> p.iif == iface.value)
  {
    var ms := DnatLine(n, iface).matches;
    assert DAddr(V4, [n.external]) in ms;
    if iface.Some? { assert IifName(iface.value) in ms; }
    HostContains(n.external, p.dst);
    assert n.external in [n.external];
  }

  lemma SnatLineMeaning(n: OneToOneNat, iface: Option<string>, p: Packet, env: SetEnv)
    requires Rendered(n)
    ensures All(SnatLine(n, iface).matches, p, env) <==>
            Ipv4Pair(n) && p.fam == V4 && p.src == n.internal.addr && (iface.Some? ==> p.oif == iface.value)
  {
    var ms := SnatLine(n, iface).matches;
    assert SAddr(V4, [n.internal]) in ms;
    if iface.Some? { assert OifName(iface.value) in ms; }
    HostContains(n.internal, p.src);
    assert n.internal in [n.internal];
  }

  /** The deciding line is the pair's: it rewrites as given, does not log, and carries the pair's ID. */
  predicate FromPair(d: Option<Line>, n: OneToOneNat, action: Action) {
    d.Some? && d.value.action == action && !d.value.log && d.value.comment == n.id
  }

  lemma {:induction false} DnatIfacesFirst(n: OneToOneNat, ifaces: seq<string>, p: Packet, env: SetEnv)
    requires Rendered(n)
    ensures var d := FirstMatch(DnatIfaceLines(n, ifaces), p, env);
            if Ipv4Pair(n) && p.fam == V4 && p.dst == n.external.addr && p.iif in ifaces
            then FromPair(d, n, DnatTo(n.internal.addr)) else d == None
  {
    if ifaces != [] {
      var init, last := ifaces[..|ifaces| - 1], ifaces[|ifaces| - 1];
      DnatIfacesFirst(n, init, p, env);
      FirstMatchConcat(DnatIfaceLines(n, init), [DnatLine(n, Some(last))], p, env);
      OneLine(DnatLine(n, Some(last)), p, env);
      DnatLineMeaning(n, Some(last), p, env);
      assert ifaces == init + [last];
    }
  }

  lemma {:induction false} SnatIfacesFirst(n: OneToOneNat, ifaces: seq<string>, p: Packet, env: SetEnv)
    requires Rendered(n)
    ensures var d := FirstMatch(SnatIfaceLines(n, ifaces), p, env);
            if Ipv4Pair(n) && p.fam == V4 && p.src == n.internal.addr && p.oif in ifaces
            then FromPair(d, n, SnatTo(n.external.addr)) else d == None
  {
    if ifaces != [] {
      var init, last := ifaces[..|ifaces| - 1], ifaces[|ifaces| - 1];
      SnatIfacesFirst(n, init, p, env);
      FirstMatchConcat(SnatIfaceLines(n, init), [SnatLine(n, Some(last))], p, env);
      OneLine(SnatLine(n, Some(last)), p, env);
      SnatLineMeaning(n, Some(last), p, env);
      assert ifaces == init + [last];
    }
  }

  lemma DnatPairFirst(n: OneToOneNat, p: Packet, env: SetEnv)
    ensures var d := FirstMatch(DnatPair(n), p, env);
            if DnatApplies(n, p) then FromPair(d, n, DnatTo(n.internal.addr)) else d == None
  {
    if Rendered(n) {
      if n.interfaces == [] {
        OneLine(DnatLine(n, None), p, env);
        DnatLineMeaning(n, None, p, env);
      } else {
        DnatIfacesFirst(n, n.interfaces, p, env);
      }
    }
  }

  lemma SnatPairFirst(n: OneToOneNat, p: Packet, env: SetEnv)
    ensures var d := FirstMatch(SnatPair(n), p, env);
            if SnatApplies(n, p) then FromPair(d, n, SnatTo(n.external.addr)) else d == None
  {
    if Rendered(n) {
      if n.interfaces == [] {
        OneLine(SnatLine(n, None), p, env);
        SnatLineMeaning(n, None, p, env);
      } else {
        SnatIfacesFirst(n, n.interfaces, p, env);
      }
    }
  }

  predicate FirstDnat(nats: seq<OneToOneNat>, k: nat, p: Packet) {
    k < |nats| && DnatApplies(nats[k], p) && forall j: nat :: j < k ==> !DnatApplies(nats[j], p)
  }

  predicate FirstSnat(nats: seq<OneToOneNat>, k: nat, p: Packet) {
    k < |nats| && SnatApplies(nats[k], p) && forall j: nat :: j < k ==> !SnatApplies(nats[j], p)
  }

  lemma {:induction false} DnatPairsFirst(nats: seq<OneToOneNat>, p: Packet, env: SetEnv, d: Option<Line>) returns (k: nat)
    requires d == FirstMatch(DnatPairs(nats), p, env)
    ensures d == None ==> forall n | n in nats :: !DnatApplies(n, p)
    ensures d != None ==> FirstDnat(nats, k, p) && FromPair(d, nats[k], DnatTo(nats[k].internal.addr))
  {
    hide DnatPair;
    hide DnatApplies;
    k := 0;
    if nats != [] {
      var init, last := nats[..|nats| - 1], nats[|nats| - 1];
      var e := FirstMatch(DnatPairs(init), p, env);
      k := DnatPairsFirst(init, p, env, e);
      FirstMatchConcat(DnatPairs(init), DnatPair(last), p, env);
      DnatPairFirst(last, p, env);
      assert nats == init + [last];
      if e == None {
        k := |init|;
      }
    }
  }

  lemma {:induction false} SnatPairsFirst(nats: seq<OneToOneNat>, p: Packet, env: SetEnv, d: Option<Line>) returns (k: nat)
    requires d == FirstMatch(SnatPairs(nats), p, env)
    ensures d == None ==> forall n | n in nats :: !SnatApplies(n, p)
    ensures d != None ==> FirstSnat(nats, k, p) && FromPair(d, nats[k], SnatTo(nats[k].external.addr))
  {
    hide SnatPair;
    hide SnatApplies;
    k := 0;
    if nats != [] {
      var init, last := nats[..|nats| - 1], nats[|nats| - 1];
      var e := FirstMatch(SnatPairs(init), p, env);
      k := SnatPairsFirst(init, p, env, e);
      FirstMatchConcat(SnatPairs(init), SnatPair(last), p, env);
      SnatPairFirst(last, p, env);
      assert nats == init + [last];
      if e == None {
        k := |init|;
      }
    }
  }
}
