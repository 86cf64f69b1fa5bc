/** Every reason for which the modelled sections of a configuration are refused, one by one. */
module Refusals {
  import opened Basics
  import opened Addresses
  import opened AddressText
  import opened Config
  import opened Validation

  // ----- names, numbers and references

  /** Not a letter or digit followed by at most 63 letters, digits, underscores, dots, colons or hyphens. */
  predicate BadName(s: string) {
    || s == "" || |s| > 64
    || !('A' <= s[0] <= 'Z' || 'a' <= s[0] <= 'z' || '0' <= s[0] <= '9')
    || exists i :: 0 <= i < |s| &&
         !(|| 'A' <= s[i] <= 'Z' || 'a' <= s[i] <= 'z' || '0' <= s[i] <= '9'
           || s[i] == '_' || s[i] == '.' || s[i] == ':' || s[i] == '-')
  }

  predicate BadMtu(mtu: int) {
    mtu != 0 && (mtu < 576 || mtu > 9216)
  }

  /** More than 28 bits, or negative. */
  predicate BadMark(mark: int) {
    mark < 0 || mark > 268435455
  }

  /** One of the kernel's own tables, or no table number at all. */
  predicate BadTable(table: int) {
    table < 0 || table > 252
  }

  predicate BadPort(port: int) {
    port < 1 || port > 65535
  }

  predicate SomeUnparsed(cs: seq<Cidr>) {
    exists c | c in cs :: c.Unparsed?
  }

  predicate SomeNoAddress(gs: seq<Gateway>) {
    exists g | g in gs :: !g.Via?
  }

  /** A link of the configuration: an interface, a tunnel's device, a VLAN, a bridge or a bond. */
  predicate IsLink(c: Config, name: string) {
    || (exists i | i in c.interfaces :: i.name == name)
    || (name != "" &&
        (|| (exists t | t in c.tunnels :: t.interfaceName == name)
         || (exists v | v in c.platform.vlans :: v.name == name)
         || (exists b | b in c.platform.bridges :: b.name == name)
         || (exists b | b in c.platform.bonds :: b.name == name)))
  }

  predicate Twice(ids: seq<string>) {
    exists i, j :: 0 <= i < j < |ids| && ids[i] == ids[j]
  }

  // ----- what is refused about each entity

  predicate InterfaceRefused(i: Interface) {
    || BadName(i.name)
    || i.role.OtherRole?
    || BadMtu(i.mtu)
    || (exists a | a in i.addresses :: a.Static? && a.cidr.Unparsed?)
    || i.gateway.BadGateway?
    || SomeNoAddress(i.dns)
    || (i.dhcpServer.DhcpServer? &&
        (!i.dhcpServer.rangeStart.Via? || !i.dhcpServer.rangeEnd.Via? || SomeNoAddress(i.dhcpServer.dns)))
  }

  predicate TunnelRefused(t: Tunnel) {
    || BadName(t.id)
    || t.kind.OtherTunnel?
    || t.direction.OtherDirection?
    || (t.interfaceName != "" && BadName(t.interfaceName))
    || BadMark(t.mark) || BadTable(t.table) || BadMtu(t.mtu)
    || SomeUnparsed(t.localAddresses)
    || SomeNoAddress(t.dns)
  }

  predicate VlanRefused(c: Config, v: Vlan) {
    BadName(v.name) || !IsLink(c, v.parent) || v.id < 1 || v.id > 4094 || SomeUnparsed(v.ips)
  }

  predicate BridgeRefused(c: Config, b: Bridge) {
    || BadName(b.name)
    || (exists m | m in b.members :: !IsLink(c, m))
    || exists v | v in b.vlans :: v < 1 || v > 4094
  }

  predicate BondRefused(c: Config, b: Bond) {
    BadName(b.name) || b.mode.OtherBondMode? || exists m | m in b.members :: !IsLink(c, m)
  }

  predicate VrfRefused(c: Config, v: Vrf) {
    BadName(v.name) || v.table < 1 || v.table > 252 || exists i | i in v.interfaces :: !IsLink(c, i)
  }

  predicate SetRefused(s: RouteSet) {
    BadName(s.id) || s.kind.OtherSet? || SomeUnparsed(s.cidrs)
  }

  predicate MemberRefused(c: Config, m: WanMember) {
    !IsLink(c, m.iface) || m.gateway.BadGateway? || m.weight < 0 || m.priority < 0
  }

  predicate GroupRefused(c: Config, g: WanGroup) {
    || BadName(g.id)
    || g.mode.OtherMode?
    || BadMark(g.mark) || BadTable(g.table)
    || g.members == []
    || exists m | m in g.members :: MemberRefused(c, m)
  }

  predicate StaticRefused(c: Config, r: StaticRoute) {
    || r.destination.Unparsed?
    || (r.gateway == NoGateway && r.iface == "")
    || r.gateway.BadGateway?
    || (r.iface != "" && !IsLink(c, r.iface))
    || BadTable(r.table)
    || r.metric < 0
  }

  predicate MatchRefused(c: Config, m: RuleMatch) {
    || (m.inputIface != "" && !IsLink(c, m.inputIface))
    || (m.outputIface != "" && !IsLink(c, m.outputIface))
    || SomeUnparsed(m.sourceCIDRs) || SomeUnparsed(m.destinationCIDRs)
    || (exists r | r in m.sourcePorts :: BadPort(r.first) || BadPort(r.last) || r.first > r.last)
    || (exists r | r in m.destinationPorts :: BadPort(r.first) || BadPort(r.last) || r.first > r.last)
    || (exists p | p in m.protocols :: p.OtherProtocol?)
    || (exists id | id in m.tunnelIDs :: !exists t | t in c.tunnels :: t.id == id)
    || (exists id | id in m.sets :: !exists s | s in c.routing.sets :: s.id == id)
  }

  predicate ActionRefused(c: Config, a: RuleAction) {
    || a.kind.OtherAction?
    || (a.kind == ToTunnel && !exists t | t in c.tunnels :: t.id == a.target)
    || (a.kind == ToInterface && !IsLink(c, a.target))
    || ((a.kind == ToWanGroup || a.kind == LoadBalance) && !exists g | g in c.routing.wanGroups :: g.id == a.target)
    || BadMark(a.mark) || BadTable(a.table)
  }

  predicate RuleRefused(c: Config, r: RouteRule) {
    BadName(r.id) || r.priority < 1 || r.priority > 32765 || MatchRefused(c, r.match_) || ActionRefused(c, r.action)
  }

  predicate ForwardRefused(c: Config, f: PortForward) {
    || BadName(f.id)
    || (f.enabled &&
        (|| (f.inputIface != "" && !IsLink(c, f.inputIface))
         || BadPort(f.externalPort) || BadPort(f.internalPort)
         || !IsAddress(f.internalIP)
         || (exists p | p in f.protocols :: p != Tcp && p != Udp)
         || SomeUnparsed(f.sourceCIDRs)))
  }

  predicate PairRefused(c: Config, n: OneToOneNat) {
    || BadName(n.id)
    || (n.enabled && (n.internal.Unparsed? || n.external.Unparsed? || exists i | i in n.interfaces :: !IsLink(c, i)))
  }

  predicate PlatformRefused(c: Config) {
    || (exists v | v in c.platform.vlans :: VlanRefused(c, v))
    || (exists b | b in c.platform.bridges :: BridgeRefused(c, b))
    || (exists b | b in c.platform.bonds :: BondRefused(c, b))
    || (exists v | v in c.platform.vrfs :: VrfRefused(c, v))
  }

  predicate SecurityRefused(c: Config) {
    || (exists p | p in c.security.managementPorts :: BadPort(p))
    || (exists f | f in c.security.portForwards :: ForwardRefused(c, f))
    || (exists n | n in c.security.oneToOne :: PairRefused(c, n))
    || c.security.ips.queue < 0 || c.security.ips.queue > 65535
  }

  /** Something in the modelled sections is refused. */
  predicate Refused(c: Config) {
    || c.version != 1 || c.listen == "" || c.conntrackMax < 0 || SomeUnparsed(c.managementCIDRs)
    || (exists i | i in c.interfaces :: InterfaceRefused(i)) || Twice(InterfaceNames(c.interfaces))
    || (exists t | t in c.tunnels :: TunnelRefused(t)) || Twice(TunnelIds(c.tunnels))
    || PlatformRefused(c)
    || (exists s | s in c.routing.sets :: SetRefused(s)) || Twice(RouteSetIds(c.routing.sets))
    || (exists g | g in c.routing.wanGroups :: GroupRefused(c, g)) || Twice(GroupIds(c.routing.wanGroups))
    || (exists r | r in c.routing.staticRoutes :: StaticRefused(c, r))
    || (exists r | r in c.routing.rules :: RuleRefused(c, r))
    || SecurityRefused(c)
  }

  // ----- refused exactly when not accepted

  lemma BadNameIff(s: string)
    ensures BadName(s) <==> !IsIdentifier(s)
  {
    if s != "" && |s| <= 64 && IsAlnum(s[0]) {
      if i :| 0 <= i < |s| && !IsIdentifierChar(s[i]) {
        assert !IsAlnum(s[i]);
      }
    }
  }

  lemma {:induction false} TunnelLinksAre(ts: seq<Tunnel>, name: string)
    ensures name in TunnelLinks(ts) <==> name != "" && exists t | t in ts :: t.interfaceName == name
  {
    if ts != [] {
      var init, last := ts[..|ts| - 1], ts[|ts| - 1];
      assert ts == init + [last];
      TunnelLinksAre(init, name);
    }
  }

  lemma {:induction false} VlanLinksAre(vs: seq<Vlan>, name: string)
    ensures name in VlanLinks(vs) <==> name != "" && exists v | v in vs :: v.name == name
  {
    if vs != [] {
      var init, last := vs[..|vs| - 1], vs[|vs| - 1];
      assert vs == init + [last];
      VlanLinksAre(init, name);
    }
  }

  lemma {:induction false} BridgeLinksAre(bs: seq<Bridge>, name: string)
    ensures name in BridgeLinks(bs) <==> name != "" && exists b | b in bs :: b.name == name
  {
    if bs != [] {
      var init, last := bs[..|bs| - 1], bs[|bs| - 1];
      assert bs == init + [last];
      BridgeLinksAre(init, name);
    }
  }

  lemma {:induction false} BondLinksAre(bs: seq<Bond>, name: string)
    ensures name in BondLinks(bs) <==> name != "" && exists b | b in bs :: b.name == name
  {
    if bs != [] {
      var init, last := bs[..|bs| - 1], bs[|bs| - 1];
      assert bs == init + [last];
      BondLinksAre(init, name);
    }
  }

  lemma InterfaceNamesAre(is_: seq<Interface>, name: string)
    ensures name in ToSet(InterfaceNames(is_)) <==> exists i | i in is_ :: i.name == name
  {
    var names := InterfaceNames(is_);
    if i :| i in is_ && i.name == name {
      var k :| 0 <= k < |is_| && is_[k] == i;
      assert names[k] == name;
    }
  }

  lemma LinksAre(c: Config, name: string)
    ensures name in KnownLinks(c) <==> IsLink(c, name)
  {
    InterfaceNamesAre(c.interfaces, name);
    TunnelLinksAre(c.tunnels, name);
    VlanLinksAre(c.platform.vlans, name);
    BridgeLinksAre(c.platform.bridges, name);
    BondLinksAre(c.platform.bonds, name);
    hide TunnelLinks;
    hide VlanLinks;
    hide BridgeLinks;
    hide BondLinks;
    hide InterfaceNames;
  }

  lemma IdsAre(c: Config, id: string)
    ensures id in ScopeOf(c).tunnels <==> exists t | t in c.tunnels :: t.id == id
    ensures id in ScopeOf(c).sets <==> exists s | s in c.routing.sets :: s.id == id
    ensures id in ScopeOf(c).groups <==> exists g | g in c.routing.wanGroups :: g.id == id
  {
    hide KnownLinks;
    if t :| t in c.tunnels && t.id == id {
      var k :| 0 <= k < |c.tunnels| && c.tunnels[k] == t;
      assert TunnelIds(c.tunnels)[k] == id;
    }
    if s :| s in c.routing.sets && s.id == id {
      var k :| 0 <= k < |c.routing.sets| && c.routing.sets[k] == s;
      assert RouteSetIds(c.routing.sets)[k] == id;
    }
    if g :| g in c.routing.wanGroups && g.id == id {
      var k :| 0 <= k < |c.routing.wanGroups| && c.routing.wanGroups[k] == g;
      assert GroupIds(c.routing.wanGroups)[k] == id;
    }
  }

  /** Names and links are refused exactly when they are not accepted. */
  ghost predicate Basis(c: Config) {
    && (forall s: string :: BadName(s) <==> !IsIdentifier(s))
    && (forall name: string :: name in KnownLinks(c) <==> IsLink(c, name))
  }

  lemma BasisHolds(c: Config)
    ensures Basis(c)
  {
    forall s: string ensures BadName(s) <==> !IsIdentifier(s) {
      BadNameIff(s);
    }
    forall name: string ensures name in KnownLinks(c) <==> IsLink(c, name) {
      LinksAre(c, name);
    }
  }

  lemma InterfaceIff(c: Config, i: Interface)
    requires Basis(c)
    ensures InterfaceOk(i) <==> !InterfaceRefused(i)
  {
    hide BadName;
    hide IsIdentifier;
    hide KnownLinks;
    hide IsLink;
  }

  lemma TunnelIff(c: Config, t: Tunnel)
    requires Basis(c)
    ensures TunnelOk(t) <==> !TunnelRefused(t)
  {
    hide BadName;
    hide IsIdentifier;
    hide KnownLinks;
    hide IsLink;
  }

  lemma SetIff(c: Config, s: RouteSet)
    requires Basis(c)
    ensures RouteSetOk(s) <==> !SetRefused(s)
  {
    hide BadName;
    hide IsIdentifier;
    hide KnownLinks;
    hide IsLink;
  }

  lemma PlatformIff(c: Config)
    requires Basis(c)
    ensures PlatformOk(c.platform, KnownLinks(c)) <==> !PlatformRefused(c)
  {
    hide BadName;
    hide IsIdentifier;
    hide KnownLinks;
    hide IsLink;
    forall v: Vlan ensures VlanOk(v, KnownLinks(c)) <==> !VlanRefused(c, v) {}
    forall b: Bridge ensures BridgeOk(b, KnownLinks(c)) <==> !BridgeRefused(c, b) {}
    forall b: Bond ensures BondOk(b, KnownLinks(c)) <==> !BondRefused(c, b) {}
    forall v: Vrf ensures VrfOk(v, KnownLinks(c)) <==> !VrfRefused(c, v) {}
    hide VlanOk;
    hide VlanRefused;
    hide BridgeOk;
    hide BridgeRefused;
    hide BondOk;
    hide BondRefused;
    hide VrfOk;
    hide VrfRefused;
  }

  lemma GroupIff(c: Config, g: WanGroup)
    requires Basis(c)
    ensures WanGroupOk(g, KnownLinks(c)) <==> !GroupRefused(c, g)
  {
    hide BadName;
    hide IsIdentifier;
    hide KnownLinks;
    hide IsLink;
    forall m: WanMember ensures MemberOk(m, KnownLinks(c)) <==> !MemberRefused(c, m) {}
    hide MemberOk;
    hide MemberRefused;
  }

  lemma StaticIff(c: Config, r: StaticRoute)
    requires Basis(c)
    ensures StaticRouteOk(r, KnownLinks(c)) <==> !StaticRefused(c, r)
  {
    hide BadName;
    hide IsIdentifier;
    hide KnownLinks;
    hide IsLink;
  }

  lemma MatchIff(c: Config, m: RuleMatch)
    requires Basis(c)
    ensures MatchOk(m, ScopeOf(c)) <==> !MatchRefused(c, m)
  {
    forall id: string ensures id in ScopeOf(c).tunnels <==> exists t | t in c.tunnels :: t.id == id { IdsAre(c, id); }
    forall id: string ensures id in ScopeOf(c).sets <==> exists s | s in c.routing.sets :: s.id == id { IdsAre(c, id); }
    assert ScopeOf(c).known == KnownLinks(c);
    hide ScopeOf;
    hide BadName;
    hide IsIdentifier;
    hide KnownLinks;
    hide IsLink;
    assert forall r :: r in m.sourcePorts + m.destinationPorts <==> r in m.sourcePorts || r in m.destinationPorts;
  }

  lemma RuleIff(c: Config, r: RouteRule)
    requires Basis(c)
    ensures RuleOk(r, ScopeOf(c)) <==> !RuleRefused(c, r)
  {
    MatchIff(c, r.match_);
    IdsAre(c, r.action.target);
    assert ScopeOf(c).known == KnownLinks(c);
    hide ScopeOf;
    hide MatchOk;
    hide MatchRefused;
    hide BadName;
    hide IsIdentifier;
    hide KnownLinks;
    hide IsLink;
  }

  lemma SecurityIff(c: Config)
    requires Basis(c)
    ensures SecurityOk(c.security, KnownLinks(c)) <==> !SecurityRefused(c)
  {
    hide BadName;
    hide IsIdentifier;
    hide IsAddress;
    hide KnownLinks;
    hide IsLink;
    forall f: PortForward ensures PortForwardOk(f, KnownLinks(c)) <==> !ForwardRefused(c, f) {}
    forall n: OneToOneNat ensures OneToOneOk(n, KnownLinks(c)) <==> !PairRefused(c, n) {}
    hide PortForwardOk;
    hide ForwardRefused;
    hide OneToOneOk;
    hide PairRefused;
  }

  lemma TwiceIff(ids: seq<string>)
    ensures Twice(ids) <==> !NoRepeats(ids)
  {
  }

  /** The validators accept a configuration exactly when nothing in its modelled sections is refused. */
  lemma {:induction false} AcceptedIff(c: Config)
    ensures ValidConfig(c) <==> !Refused(c)
  {
    BasisHolds(c);
    PlatformIff(c);
    SecurityIff(c);
    TwiceIff(InterfaceNames(c.interfaces));
    TwiceIff(TunnelIds(c.tunnels));
    TwiceIff(RouteSetIds(c.routing.sets));
    TwiceIff(GroupIds(c.routing.wanGroups));
    forall i: Interface ensures InterfaceOk(i) <==> !InterfaceRefused(i) { InterfaceIff(c, i); }
    forall t: Tunnel ensures TunnelOk(t) <==> !TunnelRefused(t) { TunnelIff(c, t); }
    forall s: RouteSet ensures RouteSetOk(s) <==> !SetRefused(s) { SetIff(c, s); }
    forall g: WanGroup ensures WanGroupOk(g, KnownLinks(c)) <==> !GroupRefused(c, g) { GroupIff(c, g); }
    forall r: StaticRoute ensures StaticRouteOk(r, KnownLinks(c)) <==> !StaticRefused(c, r) { StaticIff(c, r); }
    forall r: RouteRule ensures RuleOk(r, ScopeOf(c)) <==> !RuleRefused(c, r) { RuleIff(c, r); }
    hide Basis;
    hide InterfaceOk;
    hide InterfaceRefused;
    hide TunnelOk;
    hide TunnelRefused;
    hide RouteSetOk;
    hide SetRefused;
    hide WanGroupOk;
    hide GroupRefused;
    hide StaticRouteOk;
    hide StaticRefused;
    hide RuleOk;
    hide RuleRefused;
    hide PlatformOk;
    hide PlatformRefused;
    hide SecurityOk;
    hide SecurityRefused;
    hide KnownLinks;
    hide ScopeOf;
    hide Twice;
    hide NoRepeats;
  }
}
