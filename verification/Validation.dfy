/**
 Configuration validation. The validators walk the configuration with early
 returns and fill look-up tables as they go; they are proved to accept exactly the
 configurations that satisfy a declarative predicate.
 */
module Validation {
  import opened Basics
  import opened Addresses
  import opened AddressText
  import opened Config

  const CURRENT_VERSION := 1

  datatype Reason =
    | Unsupported(version: int) | MissingListen | NegativeConntrack | BadManagementCidr
    | BadInterface(name: string) | DuplicateInterface(name: string)
    | BadTunnel(id: string) | DuplicateTunnel(id: string)
    | BadLink(name: string)
    | BadRouteSet(id: string) | DuplicateRouteSet(id: string)
    | BadWanGroup(id: string) | DuplicateWanGroup(id: string)
    | BadStaticRoute | BadRule(id: string) | BadSecurity | BadElsewhere

  datatype Outcome = Pass | Fail(reason: Reason)

  /** Whether the parts of the configuration that are not modelled pass their own checks. */
  datatype Elsewhere = Elsewhere(platform: bool, services: bool, security: bool)

  // ----- the declarative predicate

  predicate IsIdentifierChar(c: char) {
    IsAlnum(c) || c in {'_', '.', ':', '-'}
  }

  /** One alphanumeric followed by at most 63 identifier characters. */
  predicate IsIdentifier(s: string) {
    && 1 <= |s| <= 64
    && IsAlnum(s[0])
    && forall i :: 0 <= i < |s| ==> IsIdentifierChar(s[i])
  }

  predicate AllAddresses(gs: seq<Gateway>) {
    forall g | g in gs :: g.Via?
  }

  predicate AllKnown(names: seq<string>, known: set<string>) {
    forall n | n in names :: n in known
  }

  predicate MtuOk(mtu: int) {
    mtu == 0 || 576 <= mtu <= 9216
  }

  predicate MarkOk(mark: int) {
    0 <= mark <= 0xfffffff
  }

  predicate TableOk(table: int) {
    0 <= table <= 252
  }

  predicate DhcpOk(d: DhcpServer) {
    d.DhcpServer? ==> d.rangeStart.Via? && d.rangeEnd.Via? && AllAddresses(d.dns)
  }

  predicate InterfaceOk(i: Interface) {
    && IsIdentifier(i.name)
    && !i.role.OtherRole?
    && MtuOk(i.mtu)
    && (forall a | a in i.addresses :: a.Dhcp? || a.cidr.Cidr?)
    && !i.gateway.BadGateway?
    && AllAddresses(i.dns)
    && DhcpOk(i.dhcpServer)
  }

  predicate TunnelOk(t: Tunnel) {
    && IsIdentifier(t.id)
    && !t.kind.OtherTunnel?
    && !t.direction.OtherDirection?
    && (t.interfaceName == "" || IsIdentifier(t.interfaceName))
    && MarkOk(t.mark) && TableOk(t.table) && MtuOk(t.mtu)
    && AllParsed(t.localAddresses)
    && AllAddresses(t.dns)
  }

  predicate VlanOk(v: Vlan, known: set<string>) {
    IsIdentifier(v.name) && v.parent in known && 1 <= v.id <= 4094 && AllParsed(v.ips)
  }

  predicate BridgeOk(b: Bridge, known: set<string>) {
    IsIdentifier(b.name) && AllKnown(b.members, known) && forall v | v in b.vlans :: 1 <= v <= 4094
  }

  predicate BondOk(b: Bond, known: set<string>) {
    IsIdentifier(b.name) && !b.mode.OtherBondMode? && AllKnown(b.members, known)
  }

  predicate VrfOk(v: Vrf, known: set<string>) {
    IsIdentifier(v.name) && 1 <= v.table <= 252 && AllKnown(v.interfaces, known)
  }

  predicate PlatformOk(p: Platform, known: set<string>) {
    && (forall v | v in p.vlans :: VlanOk(v, known))
    && (forall b | b in p.bridges :: BridgeOk(b, known))
    && (forall b | b in p.bonds :: BondOk(b, known))
    && (forall v | v in p.vrfs :: VrfOk(v, known))
  }

  predicate RouteSetOk(s: RouteSet) {
    IsIdentifier(s.id) && !s.kind.OtherSet? && AllParsed(s.cidrs)
  }

  predicate MemberOk(m: WanMember, known: set<string>) {
    m.iface in known && !m.gateway.BadGateway? && m.weight >= 0 && m.priority >= 0
  }

  predicate WanGroupOk(g: WanGroup, known: set<string>) {
    && IsIdentifier(g.id)
    && !g.mode.OtherMode?
    && MarkOk(g.mark) && TableOk(g.table)
    && g.members != []
    && forall m | m in g.members :: MemberOk(m, known)
  }

  predicate StaticRouteOk(r: StaticRoute, known: set<string>) {
    && r.destination.Cidr?
    && (r.gateway != NoGateway || r.iface != "")
    && !r.gateway.BadGateway?
    && (r.iface == "" || r.iface in known)
    && TableOk(r.table)
    && r.metric >= 0
  }

  predicate PortRangeOk(r: PortRange) {
    1 <= r.first <= 65535 && 1 <= r.last <= 65535 && r.first <= r.last
  }

  /** What a rule may refer to. */
  datatype Scope = Scope(known: set<string>, tunnels: set<string>, sets: set<string>, groups: set<string>)

  predicate MatchOk(m: RuleMatch, s: Scope) {
    && (m.inputIface == "" || m.inputIface in s.known)
    && (m.outputIface == "" || m.outputIface in s.known)
    && AllParsed(m.sourceCIDRs) && AllParsed(m.destinationCIDRs)
    && (forall r | r in m.sourcePorts + m.destinationPorts :: PortRangeOk(r))
    && (forall p | p in m.protocols :: !p.OtherProtocol?)
    && AllKnown(m.tunnelIDs, s.tunnels)
    && AllKnown(m.sets, s.sets)
  }

  predicate ActionOk(a: RuleAction, s: Scope) {
    && !a.kind.OtherAction?
    && (a.kind == ToTunnel ==> a.target in s.tunnels)
    && (a.kind == ToInterface ==> a.target in s.known)
    && (a.kind == ToWanGroup || a.kind == LoadBalance ==> a.target in s.groups)
    && MarkOk(a.mark) && TableOk(a.table)
  }

  predicate RuleOk(r: RouteRule, s: Scope) {
    IsIdentifier(r.id) && 1 <= r.priority <= 32765 && MatchOk(r.match_, s) && ActionOk(r.action, s)
  }

  predicate PortForwardOk(f: PortForward, known: set<string>) {
    && IsIdentifier(f.id)
    && (f.enabled ==>
          && (f.inputIface == "" || f.inputIface in known)
          && 1 <= f.externalPort <= 65535 && 1 <= f.internalPort <= 65535
          && IsAddress(f.internalIP)
          && (forall p | p in f.protocols :: p == Tcp || p == Udp)
          && AllParsed(f.sourceCIDRs))
  }

  predicate OneToOneOk(n: OneToOneNat, known: set<string>) {
    && IsIdentifier(n.id)
    && (n.enabled ==> n.internal.Cidr? && n.external.Cidr? && AllKnown(n.interfaces, known))
  }

  predicate SecurityOk(s: Security, known: set<string>) {
    && (forall p | p in s.managementPorts :: 1 <= p <= 65535)
    && (forall f | f in s.portForwards :: PortForwardOk(f, known))
    && (forall n | n in s.oneToOne :: OneToOneOk(n, known))
    && 0 <= s.ips.queue <= 65535
  }

  predicate NoRepeats(ids: seq<string>) {
    forall i, j :: 0 <= i < j < |ids| ==> ids[i] != ids[j]
  }

  function InterfaceNames(is_: seq<Interface>): seq<string> {
    seq(|is_|, i requires 0 <= i < |is_| => is_[i].name)
  }

  function TunnelIds(ts: seq<Tunnel>): seq<string> {
    seq(|ts|, i requires 0 <= i < |ts| => ts[i].id)
  }

  function RouteSetIds(ss: seq<RouteSet>): seq<string> {
    seq(|ss|, i requires 0 <= i < |ss| => ss[i].id)
  }

  function GroupIds(gs: seq<WanGroup>): seq<string> {
    seq(|gs|, i requires 0 <= i < |gs| => gs[i].id)
  }

  function ToSet(ids: seq<string>): set<string> {
    set id | id in ids
  }

  function TunnelLinks(ts: seq<Tunnel>): set<string> {
    if ts == [] then {} else
      TunnelLinks(ts[..|ts| - 1]) + (if ts[|ts| - 1].interfaceName != "" then {ts[|ts| - 1].interfaceName} else {})
  }

  function VlanLinks(vs: seq<Vlan>): set<string> {
    if vs == [] then {} else
      VlanLinks(vs[..|vs| - 1]) + (if vs[|vs| - 1].name != "" then {vs[|vs| - 1].name} else {})
  }

  function BridgeLinks(bs: seq<Bridge>): set<string> {
    if bs == [] then {} else
      BridgeLinks(bs[..|bs| - 1]) + (if bs[|bs| - 1].name != "" then {bs[|bs| - 1].name} else {})
  }

  function BondLinks(bs: seq<Bond>): set<string> {
    if bs == [] then {} else
      BondLinks(bs[..|bs| - 1]) + (if bs[|bs| - 1].name != "" then {bs[|bs| - 1].name} else {})
  }

  /** The links other sections may refer to. */
  function KnownLinks(c: Config): set<string> {
    ToSet(InterfaceNames(c.interfaces)) + TunnelLinks(c.tunnels) +
    VlanLinks(c.platform.vlans) + BridgeLinks(c.platform.bridges) + BondLinks(c.platform.bonds)
  }

  function ScopeOf(c: Config): Scope {
    Scope(KnownLinks(c), ToSet(TunnelIds(c.tunnels)), ToSet(RouteSetIds(c.routing.sets)), ToSet(GroupIds(c.routing.wanGroups)))
  }

  predicate HeaderOk(c: Config) {
    c.version == CURRENT_VERSION && c.listen != "" && c.conntrackMax >= 0 && AllParsed(c.managementCIDRs)
  }

  /** Unique identifiers, resolved references, values in range, names in the identifier grammar. */
  predicate ValidConfig(c: Config) {
    && HeaderOk(c)
    && (forall i | i in c.interfaces :: InterfaceOk(i)) && NoRepeats(InterfaceNames(c.interfaces))
    && (forall t | t in c.tunnels :: TunnelOk(t)) && NoRepeats(TunnelIds(c.tunnels))
    && PlatformOk(c.platform, KnownLinks(c))
    && (forall s | s in c.routing.sets :: RouteSetOk(s)) && NoRepeats(RouteSetIds(c.routing.sets))
    && (forall g | g in c.routing.wanGroups :: WanGroupOk(g, KnownLinks(c))) && NoRepeats(GroupIds(c.routing.wanGroups))
    && (forall r | r in c.routing.staticRoutes :: StaticRouteOk(r, KnownLinks(c)))
    && (forall r | r in c.routing.rules :: RuleOk(r, ScopeOf(c)))
    && SecurityOk(c.security, KnownLinks(c))
  }

  // ----- the validators

  method ValidateCIDRs(cs: seq<Cidr>) returns (ok: bool)
    ensures ok <==> AllParsed(cs)
  {
    for i := 0 to |cs|
      invariant forall j :: 0 <= j < i ==> cs[j].Cidr?
    {
      if cs[i].Unparsed? {
        return false;
      }
    }
    return true;
  }

  method ValidateAddresses(gs: seq<Gateway>) returns (ok: bool)
    ensures ok <==> AllAddresses(gs)
  {
    for i := 0 to |gs|
      invariant forall j :: 0 <= j < i ==> gs[j].Via?
    {
      if !gs[i].Via? {
        return false;
      }
    }
    return true;
  }

  method ValidateKnown(names: seq<string>, known: set<string>) returns (ok: bool)
    ensures ok <==> AllKnown(names, known)
  {
    for i := 0 to |names|
      invariant forall j :: 0 <= j < i ==> names[j] in known
    {
      if names[i] !in known {
        return false;
      }
    }
    return true;
  }

  method ValidateInterface(iface: Interface) returns (r: Outcome)
    ensures r == Pass <==> InterfaceOk(iface)
  {
    hide IsIdentifier;
    var bad := Fail(BadInterface(iface.name));
    if !IsIdentifier(iface.name) || iface.role.OtherRole? {
      return bad;
    }
    if iface.mtu != 0 && (iface.mtu < 576 || iface.mtu > 9216) {
      return bad;
    }
    for i := 0 to |iface.addresses|
      invariant forall j :: 0 <= j < i ==> iface.addresses[j].Dhcp? || iface.addresses[j].cidr.Cidr?
    {
      if iface.addresses[i].Dhcp? {
        continue;
      }
      if iface.addresses[i].cidr.Unparsed? {
        return bad;
      }
    }
    if iface.gateway.BadGateway? {
      return bad;
    }
    var dnsOk := ValidateAddresses(iface.dns);
    if !dnsOk {
      return bad;
    }
    if iface.dhcpServer.DhcpServer? {
      if !iface.dhcpServer.rangeStart.Via? || !iface.dhcpServer.rangeEnd.Via? {
        return bad;
      }
      var ok := ValidateAddresses(iface.dhcpServer.dns);
      if !ok {
        return bad;
      }
    }
    return Pass;
  }

  method ValidateTunnel(tunnel: Tunnel) returns (r: Outcome)
    ensures r == Pass <==> TunnelOk(tunnel)
  {
    hide IsIdentifier;
    var bad := Fail(BadTunnel(tunnel.id));
    if !IsIdentifier(tunnel.id) || tunnel.kind.OtherTunnel? || tunnel.direction.OtherDirection? {
      return bad;
    }
    if tunnel.interfaceName != "" && !IsIdentifier(tunnel.interfaceName) {
      return bad;
    }
    if tunnel.mark < 0 || tunnel.mark > 0xfffffff || tunnel.table < 0 || tunnel.table > 252 {
      return bad;
    }
    if tunnel.mtu != 0 && (tunnel.mtu < 576 || tunnel.mtu > 9216) {
      return bad;
    }
    var addressesOk := ValidateCIDRs(tunnel.localAddresses);
    if !addressesOk {
      return bad;
    }
    var dnsOk := ValidateAddresses(tunnel.dns);
    return if dnsOk then Pass else bad;
  }

  method ValidateVlans(vlans: seq<Vlan>, known: set<string>) returns (r: Outcome)
    ensures r == Pass <==> forall v | v in vlans :: VlanOk(v, known)
  {
    hide IsIdentifier;
    for i := 0 to |vlans|
      invariant forall j :: 0 <= j < i ==> VlanOk(vlans[j], known)
    {
      var v := vlans[i];
      if !IsIdentifier(v.name) || v.parent !in known || v.id < 1 || v.id > 4094 {
        assert !VlanOk(v, known);
        return Fail(BadLink(v.name));
      }
      var ok := ValidateCIDRs(v.ips);
      if !ok {
        assert !VlanOk(v, known);
        return Fail(BadLink(v.name));
      }
    }
    return Pass;
  }

  method ValidateBridges(bridges: seq<Bridge>, known: set<string>) returns (r: Outcome)
    ensures r == Pass <==> forall b | b in bridges :: BridgeOk(b, known)
  {
    hide IsIdentifier;
    for i := 0 to |bridges|
      invariant forall j :: 0 <= j < i ==> BridgeOk(bridges[j], known)
    {
      var b := bridges[i];
      var membersOk := ValidateKnown(b.members, known);
      if !IsIdentifier(b.name) || !membersOk {
        assert !BridgeOk(b, known);
        return Fail(BadLink(b.name));
      }
      for k := 0 to |b.vlans|
        invariant forall j :: 0 <= j < k ==> 1 <= b.vlans[j] <= 4094
      {
        if b.vlans[k] < 1 || b.vlans[k] > 4094 {
          assert b.vlans[k] in b.vlans;
          assert !BridgeOk(b, known);
          return Fail(BadLink(b.name));
        }
      }
    }
    return Pass;
  }

  method ValidateBonds(bonds: seq<Bond>, known: set<string>) returns (r: Outcome)
    ensures r == Pass <==> forall b | b in bonds :: BondOk(b, known)
  {
    hide IsIdentifier;
    for i := 0 to |bonds|
      invariant forall j :: 0 <= j < i ==> BondOk(bonds[j], known)
    {
      var b := bonds[i];
      var membersOk := ValidateKnown(b.members, known);
      if !IsIdentifier(b.name) || b.mode.OtherBondMode? || !membersOk {
        assert !BondOk(b, known);
        return Fail(BadLink(b.name));
      }
    }
    return Pass;
  }

  method ValidateVrfs(vrfs: seq<Vrf>, known: set<string>) returns (r: Outcome)
    ensures r == Pass <==> forall v | v in vrfs :: VrfOk(v, known)
  {
    hide IsIdentifier;
    for i := 0 to |vrfs|
      invariant forall j :: 0 <= j < i ==> VrfOk(vrfs[j], known)
    {
      var v := vrfs[i];
      var ifacesOk := ValidateKnown(v.interfaces, known);
      if !IsIdentifier(v.name) || v.table < 1 || v.table > 252 || !ifacesOk {
        assert !VrfOk(v, known);
        return Fail(BadLink(v.name));
      }
    }
    return Pass;
  }

  method ValidatePlatform(p: Platform, known: set<string>, restOk: bool) returns (r: Outcome)
    ensures r == Pass <==> PlatformOk(p, known) && restOk
  {
    hide VlanOk;
    hide BridgeOk;
    hide BondOk;
    hide VrfOk;
    r := ValidateVlans(p.vlans, known);
    if r != Pass { return; }
    r := ValidateBridges(p.bridges, known);
    if r != Pass { return; }
    r := ValidateBonds(p.bonds, known);
    if r != Pass { return; }
    r := ValidateVrfs(p.vrfs, known);
    if r == Pass && !restOk {
      return Fail(BadElsewhere);
    }
  }

  method ValidateRouteSet(s: RouteSet) returns (r: Outcome)
    ensures r == Pass <==> RouteSetOk(s)
  {
    hide IsIdentifier;
    var ok := ValidateCIDRs(s.cidrs);
    if !IsIdentifier(s.id) || s.kind.OtherSet? || !ok {
      return Fail(BadRouteSet(s.id));
    }
    return Pass;
  }

  method ValidateWanGroup(g: WanGroup, known: set<string>) returns (r: Outcome)
    ensures r == Pass <==> WanGroupOk(g, known)
  {
    hide IsIdentifier;
    var bad := Fail(BadWanGroup(g.id));
    if !IsIdentifier(g.id) || g.mode.OtherMode? {
      return bad;
    }
    if g.mark < 0 || g.mark > 0xfffffff || g.table < 0 || g.table > 252 || |g.members| == 0 {
      return bad;
    }
    for i := 0 to |g.members|
      invariant forall j :: 0 <= j < i ==> MemberOk(g.members[j], known)
    {
      var m := g.members[i];
      if m.iface !in known || m.gateway.BadGateway? || m.weight < 0 || m.priority < 0 {
        assert !MemberOk(m, known);
        return bad;
      }
    }
    return Pass;
  }

  method ValidateStaticRoute(route: StaticRoute, known: set<string>) returns (r: Outcome)
    ensures r == Pass <==> StaticRouteOk(route, known)
  {
    if route.destination.Unparsed? {
      return Fail(BadStaticRoute);
    }
    if route.gateway == NoGateway && route.iface == "" {
      return Fail(BadStaticRoute);
    }
    if route.gateway.BadGateway? {
      return Fail(BadStaticRoute);
    }
    if route.iface != "" && route.iface !in known {
      return Fail(BadStaticRoute);
    }
    if route.table < 0 || route.table > 252 || route.metric < 0 {
      return Fail(BadStaticRoute);
    }
    return Pass;
  }

  method ValidateMatch(m: RuleMatch, s: Scope) returns (ok: bool)
    ensures ok <==> MatchOk(m, s)
  {
    if m.inputIface != "" && m.inputIface !in s.known {
      return false;
    }
    if m.outputIface != "" && m.outputIface !in s.known {
      return false;
    }
    ok := ValidateCIDRs(m.sourceCIDRs);
    if !ok { return; }
    ok := ValidateCIDRs(m.destinationCIDRs);
    if !ok { return; }
    var ranges := m.sourcePorts + m.destinationPorts;
    for i := 0 to |ranges|
      invariant forall j :: 0 <= j < i ==> PortRangeOk(ranges[j])
    {
      var r := ranges[i];
      if r.first < 1 || r.first > 65535 || r.last < 1 || r.last > 65535 || r.first > r.last {
        assert !PortRangeOk(r) && r in ranges;
        return false;
      }
    }
    for i := 0 to |m.protocols|
      invariant forall j :: 0 <= j < i ==> !m.protocols[j].OtherProtocol?
    {
      if m.protocols[i].OtherProtocol? {
        return false;
      }
    }
    ok := ValidateKnown(m.tunnelIDs, s.tunnels);
    if !ok { return; }
    ok := ValidateKnown(m.sets, s.sets);
  }

  method ValidateRouteRule(rule: RouteRule, s: Scope) returns (r: Outcome)
    ensures r == Pass <==> RuleOk(rule, s)
  {
    hide IsIdentifier;
    hide MatchOk;
    var bad := Fail(BadRule(rule.id));
    if !IsIdentifier(rule.id) || rule.priority < 1 || rule.priority > 32765 {
      return bad;
    }
    var matchOk := ValidateMatch(rule.match_, s);
    if !matchOk || rule.action.kind.OtherAction? {
      return bad;
    }
    var a := rule.action;
    if a.kind == ToTunnel && a.target !in s.tunnels {
      return bad;
    }
    if a.kind == ToInterface && a.target !in s.known {
      return bad;
    }
    if (a.kind == ToWanGroup || a.kind == LoadBalance) && a.target !in s.groups {
      return bad;
    }
    if a.mark < 0 || a.mark > 0xfffffff || a.table < 0 || a.table > 252 {
      return bad;
    }
    return Pass;
  }

  method ValidatePortForward(f: PortForward, known: set<string>) returns (ok: bool)
    ensures ok <==> PortForwardOk(f, known)
  {
    hide IsAddress;
    hide IsIdentifier;
    if !IsIdentifier(f.id) {
      return false;
    }
    if !f.enabled {
      return true;
    }
    if f.inputIface != "" && f.inputIface !in known {
      return false;
    }
    if f.externalPort < 1 || f.externalPort > 65535 || f.internalPort < 1 || f.internalPort > 65535 {
      return false;
    }
    if !IsAddress(f.internalIP) {
      return false;
    }
    for i := 0 to |f.protocols|
      invariant forall j :: 0 <= j < i ==> f.protocols[j] == Tcp || f.protocols[j] == Udp
    {
      if f.protocols[i] != Tcp && f.protocols[i] != Udp {
        assert f.protocols[i] in f.protocols;
        return false;
      }
    }
    ok := ValidateCIDRs(f.sourceCIDRs);
  }

  method ValidateOneToOne(n: OneToOneNat, known: set<string>) returns (ok: bool)
    ensures ok <==> OneToOneOk(n, known)
  {
    hide IsIdentifier;
    if !IsIdentifier(n.id) {
      return false;
    }
    if !n.enabled {
      return true;
    }
    if n.internal.Unparsed? || n.external.Unparsed? {
      return false;
    }
    ok := ValidateKnown(n.interfaces, known);
  }

  method ValidateSecurity(s: Security, known: set<string>, restOk: bool) returns (r: Outcome)
    ensures r == Pass <==> SecurityOk(s, known) && restOk
  {
    hide PortForwardOk;
    hide OneToOneOk;
    for i := 0 to |s.managementPorts|
      invariant forall j :: 0 <= j < i ==> 1 <= s.managementPorts[j] <= 65535
    {
      if s.managementPorts[i] < 1 || s.managementPorts[i] > 65535 {
        assert s.managementPorts[i] in s.managementPorts;
        return Fail(BadSecurity);
      }
    }
    for i := 0 to |s.portForwards|
      invariant forall j :: 0 <= j < i ==> PortForwardOk(s.portForwards[j], known)
    {
      var ok := ValidatePortForward(s.portForwards[i], known);
      if !ok {
        return Fail(BadSecurity);
      }
    }
    for i := 0 to |s.oneToOne|
      invariant forall j :: 0 <= j < i ==> OneToOneOk(s.oneToOne[j], known)
    {
      var ok := ValidateOneToOne(s.oneToOne[i], known);
      if !ok {
        return Fail(BadSecurity);
      }
    }
    if s.ips.queue < 0 || s.ips.queue > 65535 {
      return Fail(BadSecurity);
    }
    return if restOk then Pass else Fail(BadElsewhere);
  }

  // ----- the look-up tables

  method IndexInterfaces(is_: seq<Interface>) returns (r: Outcome, table: map<string, Interface>)
    ensures r == Pass <==> (forall i | i in is_ :: InterfaceOk(i)) && NoRepeats(InterfaceNames(is_))
    ensures r == Pass ==> table.Keys == ToSet(InterfaceNames(is_))
  {
    hide InterfaceOk;
    table := map[];
    var names := InterfaceNames(is_);
    for i := 0 to |is_|
      invariant forall j :: 0 <= j < i ==> InterfaceOk(is_[j])
      invariant NoRepeats(names[..i]) && table.Keys == ToSet(names[..i])
    {
      r := ValidateInterface(is_[i]);
      if r != Pass { return; }
      if is_[i].name in table {
        var j :| 0 <= j < i && names[j] == names[i];
        return Fail(DuplicateInterface(is_[i].name)), table;
      }
      table := table[is_[i].name := is_[i]];
      assert names[..i + 1] == names[..i] + [names[i]];
    }
    assert names[..|is_|] == names;
    return Pass, table;
  }

  method IndexTunnels(ts: seq<Tunnel>, links: set<string>) returns (r: Outcome, table: map<string, Tunnel>, known: set<string>)
    ensures r == Pass <==> (forall t | t in ts :: TunnelOk(t)) && NoRepeats(TunnelIds(ts))
    ensures r == Pass ==> table.Keys == ToSet(TunnelIds(ts))
    ensures r == Pass ==> known == links + TunnelLinks(ts)
  {
    hide TunnelOk;
    table, known := map[], links;
    var ids := TunnelIds(ts);
    for i := 0 to |ts|
      invariant forall j :: 0 <= j < i ==> TunnelOk(ts[j])
      invariant NoRepeats(ids[..i]) && table.Keys == ToSet(ids[..i])
      invariant known == links + TunnelLinks(ts[..i])
    {
      assert ts[..i + 1][..i] == ts[..i];
      r := ValidateTunnel(ts[i]);
      if r != Pass { return; }
      if ts[i].id in table {
        var j :| 0 <= j < i && ids[j] == ids[i];
        return Fail(DuplicateTunnel(ts[i].id)), table, known;
      }
      table := table[ts[i].id := ts[i]];
      assert ids[..i + 1] == ids[..i] + [ids[i]];
      if ts[i].interfaceName != "" {
        known := known + {ts[i].interfaceName};
      }
    }
    assert ids[..|ts|] == ids && ts[..|ts|] == ts;
    r := Pass;
  }

  method AddLinks(links: set<string>, p: Platform) returns (known: set<string>)
    ensures known == links + VlanLinks(p.vlans) + BridgeLinks(p.bridges) + BondLinks(p.bonds)
  {
    known := links;
    for i := 0 to |p.vlans|
      invariant known == links + VlanLinks(p.vlans[..i])
    {
      assert p.vlans[..i + 1][..i] == p.vlans[..i];
      if p.vlans[i].name != "" {
        known := known + {p.vlans[i].name};
      }
    }
    assert p.vlans[..|p.vlans|] == p.vlans;
    for i := 0 to |p.bridges|
      invariant known == links + VlanLinks(p.vlans) + BridgeLinks(p.bridges[..i])
    {
      assert p.bridges[..i + 1][..i] == p.bridges[..i];
      if p.bridges[i].name != "" {
        known := known + {p.bridges[i].name};
      }
    }
    assert p.bridges[..|p.bridges|] == p.bridges;
    for i := 0 to |p.bonds|
      invariant known == links + VlanLinks(p.vlans) + BridgeLinks(p.bridges) + BondLinks(p.bonds[..i])
    {
      assert p.bonds[..i + 1][..i] == p.bonds[..i];
      if p.bonds[i].name != "" {
        known := known + {p.bonds[i].name};
      }
    }
    assert p.bonds[..|p.bonds|] == p.bonds;
  }

  method IndexRouteSets(ss: seq<RouteSet>) returns (r: Outcome, table: map<string, RouteSet>)
    ensures r == Pass <==> (forall s | s in ss :: RouteSetOk(s)) && NoRepeats(RouteSetIds(ss))
    ensures r == Pass ==> table.Keys == ToSet(RouteSetIds(ss))
  {
    hide RouteSetOk;
    table := map[];
    var ids := RouteSetIds(ss);
    for i := 0 to |ss|
      invariant forall j :: 0 <= j < i ==> RouteSetOk(ss[j])
      invariant NoRepeats(ids[..i]) && table.Keys == ToSet(ids[..i])
    {
      r := ValidateRouteSet(ss[i]);
      if r != Pass { return; }
      if ss[i].id in table {
        var j :| 0 <= j < i && ids[j] == ids[i];
        return Fail(DuplicateRouteSet(ss[i].id)), table;
      }
      table := table[ss[i].id := ss[i]];
      assert ids[..i + 1] == ids[..i] + [ids[i]];
    }
    assert ids[..|ss|] == ids;
    return Pass, table;
  }

  method IndexWanGroups(gs: seq<WanGroup>, known: set<string>) returns (r: Outcome, table: map<string, WanGroup>)
    ensures r == Pass <==> (forall g | g in gs :: WanGroupOk(g, known)) && NoRepeats(GroupIds(gs))
    ensures r == Pass ==> table.Keys == ToSet(GroupIds(gs))
  {
    hide WanGroupOk;
    table := map[];
    var ids := GroupIds(gs);
    for i := 0 to |gs|
      invariant forall j :: 0 <= j < i ==> WanGroupOk(gs[j], known)
      invariant NoRepeats(ids[..i]) && table.Keys == ToSet(ids[..i])
    {
      r := ValidateWanGroup(gs[i], known);
      if r != Pass { return; }
      if gs[i].id in table {
        var j :| 0 <= j < i && ids[j] == ids[i];
        return Fail(DuplicateWanGroup(gs[i].id)), table;
      }
      table := table[gs[i].id := gs[i]];
      assert ids[..i + 1] == ids[..i] + [ids[i]];
    }
    assert ids[..|gs|] == ids;
    return Pass, table;
  }

  method ValidateRouting(c: Config, known: set<string>, scope: Scope) returns (r: Outcome)
    ensures r == Pass <==>
            && (forall x | x in c.routing.staticRoutes :: StaticRouteOk(x, known))
            && (forall x | x in c.routing.rules :: RuleOk(x, scope))
  {
    hide StaticRouteOk;
    hide RuleOk;
    var routes, rules := c.routing.staticRoutes, c.routing.rules;
    for i := 0 to |routes|
      invariant forall j :: 0 <= j < i ==> StaticRouteOk(routes[j], known)
    {
      r := ValidateStaticRoute(routes[i], known);
      if r != Pass { return; }
    }
    for i := 0 to |rules|
      invariant forall j :: 0 <= j < i ==> RuleOk(rules[j], scope)
    {
      r := ValidateRouteRule(rules[i], scope);
      if r != Pass { return; }
    }
    r := Pass;
  }

  /**
   Validation accepts a configuration if and only if it satisfies the declarative predicate
   and the sections outside the model pass their own checks.
   */
  method Validate(c: Config, elsewhere: Elsewhere) returns (r: Outcome)
    ensures r == Pass <==> ValidConfig(c) && elsewhere == Elsewhere(true, true, true)
  {
    hide InterfaceOk;
    hide TunnelOk;
    hide PlatformOk;
    hide RouteSetOk;
    hide WanGroupOk;
    hide StaticRouteOk;
    hide RuleOk;
    hide SecurityOk;
    hide NoRepeats;
    if c.version != CURRENT_VERSION {
      return Fail(Unsupported(c.version));
    }
    if c.listen == "" {
      return Fail(MissingListen);
    }
    if c.conntrackMax < 0 {
      return Fail(NegativeConntrack);
    }
    var cidrsOk := ValidateCIDRs(c.managementCIDRs);
    if !cidrsOk {
      return Fail(BadManagementCidr);
    }
    var ifaces;
    r, ifaces := IndexInterfaces(c.interfaces);
    if r != Pass { return; }
    var tunnels, links;
    r, tunnels, links := IndexTunnels(c.tunnels, ifaces.Keys);
    if r != Pass { return; }
    var known := AddLinks(links, c.platform);
    assert known == KnownLinks(c);
    r := ValidatePlatform(c.platform, known, elsewhere.platform);
    if r != Pass { return; }
    var routeSets;
    r, routeSets := IndexRouteSets(c.routing.sets);
    if r != Pass { return; }
    var groups;
    r, groups := IndexWanGroups(c.routing.wanGroups, known);
    if r != Pass { return; }
    var scope := Scope(known, tunnels.Keys, routeSets.Keys, groups.Keys);
    assert scope == ScopeOf(c);
    r := ValidateRouting(c, known, scope);
    if r != Pass { return; }
    if !elsewhere.services {
      return Fail(BadElsewhere);
    }
    r := ValidateSecurity(c.security, known, elsewhere.security);
  }

  // ----- what validation guarantees to the generators

  lemma {:induction false} TunnelLinksNamed(ts: seq<Tunnel>, name: string)
    requires name in TunnelLinks(ts)
    ensures exists t | t in ts :: t.interfaceName == name && name != ""
  {
    if name in TunnelLinks(ts[..|ts| - 1]) {
      TunnelLinksNamed(ts[..|ts| - 1], name);
    } else {
      assert ts[|ts| - 1] in ts;
    }
  }

  lemma {:induction false} VlanLinksNamed(vs: seq<Vlan>, name: string)
    requires name in VlanLinks(vs)
    ensures exists v | v in vs :: v.name == name
  {
    if name in VlanLinks(vs[..|vs| - 1]) {
      VlanLinksNamed(vs[..|vs| - 1], name);
    } else {
      assert vs[|vs| - 1] in vs;
    }
  }

  lemma {:induction false} BridgeLinksNamed(bs: seq<Bridge>, name: string)
    requires name in BridgeLinks(bs)
    ensures exists b | b in bs :: b.name == name
  {
    if name in BridgeLinks(bs[..|bs| - 1]) {
      BridgeLinksNamed(bs[..|bs| - 1], name);
    } else {
      assert bs[|bs| - 1] in bs;
    }
  }

  lemma {:induction false} BondLinksNamed(bs: seq<Bond>, name: string)
    requires name in BondLinks(bs)
    ensures exists b | b in bs :: b.name == name
  {
    if name in BondLinks(bs[..|bs| - 1]) {
      BondLinksNamed(bs[..|bs| - 1], name);
    } else {
      assert bs[|bs| - 1] in bs;
    }
  }

  /** Every link another section may name satisfies the identifier grammar. */
  lemma {:induction false} KnownLinksAreIdentifiers(c: Config, name: string)
    requires ValidConfig(c) && name in KnownLinks(c)
    ensures IsIdentifier(name)
  {
    hide IsIdentifier;
    if name in ToSet(InterfaceNames(c.interfaces)) {
      var k :| 0 <= k < |c.interfaces| && InterfaceNames(c.interfaces)[k] == name;
      assert c.interfaces[k] in c.interfaces;
    } else if name in TunnelLinks(c.tunnels) {
      TunnelLinksNamed(c.tunnels, name);
    } else if name in VlanLinks(c.platform.vlans) {
      VlanLinksNamed(c.platform.vlans, name);
    } else if name in BridgeLinks(c.platform.bridges) {
      BridgeLinksNamed(c.platform.bridges, name);
    } else {
      BondLinksNamed(c.platform.bonds, name);
    }
  }
}
