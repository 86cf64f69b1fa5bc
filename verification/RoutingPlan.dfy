/**
 The routing part of the plan: tunnel devices, WAN group tables, static routes and
 policy rules, as steps on the kernel model.
 */
module RoutingPlan {
  import opened Basics
  import opened Addresses
  import opened Config
  import opened RuleOrder
  import opened RuleActions
  import opened Kernel

  const LOCAL_TABLE := 255
  const MAIN_TABLE := 254
  const DEFAULT_TABLE := 253
  const DEFAULT_METRIC := 100

  // ----- tunnels

  function Field(m: map<string, string>, key: string): string {
    if key in m then m[key] else ""
  }

  /** The options that are set, as `key value` argument pairs in the given order. */
  function OptionArgs(options: map<string, string>, keys: seq<string>): seq<string> {
    if keys == [] then [] else
      var key := keys[|keys| - 1];
      OptionArgs(options, keys[..|keys| - 1]) +
      (if Field(options, key) != "" then [key, Field(options, key)] else [])
  }

  /** The `mode` of an `ip tunnel` device. */
  function IpTunnelMode(kind: TunnelKind): string {
    match kind
    case GreKind => "gre"
    case IpIp => "ipip"
    case Sit => "sit"
    case SixToFour => "sit"
    case Ip6Gre => "ip6gre"
    case Ip6Tnl => "ip6tnl"
    case _ => "vti"
  }

  const IP_TUNNEL_OPTIONS := ["local", "remote", "ttl", "key", "dev"]
  const LINK_TUNNEL_OPTIONS := ["local", "remote", "key", "dev"]
  const VXLAN_OPTIONS := ["id", "remote", "local", "dev", "dstport"]

  function IpTunnelSpec(t: Tunnel): LinkSpec {
    IpTunnel(t.kind == Ip6Gre || t.kind == Ip6Tnl,
             ["tunnel", "add", t.interfaceName, "mode", IpTunnelMode(t.kind)] + OptionArgs(t.options, IP_TUNNEL_OPTIONS))
  }

  function LinkTunnelSpec(t: Tunnel, kind: string, keys: seq<string>): LinkSpec {
    LinkTunnel(["link", "add", t.interfaceName, "type", kind] + OptionArgs(t.options, keys))
  }

  /** Tunnels whose device is created and configured by a service of their own. */
  predicate ServiceManaged(t: Tunnel) {
    match t.kind
    case OpenVpn | OpenConnect | AnyConnect | GlobalProtect | PulseSecure | FortigateSsl | FortinetSsl => true
    case Pptp | Sstp | Pppoe | Vless | Vmess | VlessXhttp | Xhttp | Xray | SingBox | Tailscale | ZeroTier => true
    case Custom => Field(t.options, "service") != ""
    case _ => false
  }

  /** The device the plan itself creates for a tunnel, if any. */
  function KernelSpec(t: Tunnel): Option<LinkSpec> {
    match t.kind
    case TunKind => Some(TunDevice)
    case WireGuard => if Field(t.credentials, "configFile") == "" then None else Some(WireGuardLink)
    case GreKind | IpIp | Sit | SixToFour | Ip6Gre | Ip6Tnl | Vti | IpsecVti => Some(IpTunnelSpec(t))
    case GreTap => Some(LinkTunnelSpec(t, "gretap", LINK_TUNNEL_OPTIONS))
    case Erspan => Some(LinkTunnelSpec(t, "erspan", LINK_TUNNEL_OPTIONS))
    case Vxlan => Some(LinkTunnelSpec(t, "vxlan", VXLAN_OPTIONS))
    case _ => None
  }

  function DeviceSteps(t: Tunnel): seq<Step> {
    match KernelSpec(t) case Some(spec) => [EnsureLink(t.interfaceName, spec)] case None => []
  }

  function AddressSteps(name: string, addresses: seq<Cidr>): seq<Step> {
    if addresses == [] then [] else
      AddressSteps(name, addresses[..|addresses| - 1]) + [ReplaceAddress(name, addresses[|addresses| - 1])]
  }

  /** MTU, state and addresses of a device that no service manages. */
  function ConfigureSteps(t: Tunnel): seq<Step> {
    if ServiceManaged(t) then [] else
      (if t.mtu > 0 then [SetMtu(t.interfaceName, t.mtu)] else []) +
      [SetUp(t.interfaceName)] + AddressSteps(t.interfaceName, t.localAddresses)
  }

  function TunnelKey(t: Tunnel): RouteKey {
    RouteKey(V4, t.table, DEFAULT_DEST, 0)
  }

  function TunnelRouteSteps(t: Tunnel): seq<Step> {
    if t.table > 0 then [ReplaceRoute(TunnelKey(t), [Nexthop(NoGateway, t.interfaceName, 1)])] else []
  }

  function TunnelSteps(t: Tunnel): seq<Step> {
    if !t.enabled || t.interfaceName == "" then []
    else DeviceSteps(t) + ConfigureSteps(t) + TunnelRouteSteps(t)
  }

  function AllTunnelSteps(ts: seq<Tunnel>): seq<Step> {
    if ts == [] then [] else AllTunnelSteps(ts[..|ts| - 1]) + TunnelSteps(ts[|ts| - 1])
  }

  // ----- WAN groups

  function GatewayFamily(g: Gateway): Family {
    if g.Via? then g.fam else V4
  }

  function Weight(m: WanMember): int {
    if m.weight > 0 then m.weight else 1
  }

  function EcmpHops(members: seq<WanMember>): seq<Nexthop> {
    if members == [] then [] else
      var m := members[|members| - 1];
      EcmpHops(members[..|members| - 1]) + [Nexthop(m.gateway, m.iface, Weight(m))]
  }

  /** A route without a destination family takes that of the first gateway given. */
  function HopsFamily(hops: seq<Nexthop>): Family {
    if hops == [] then V4
    else if hops[0].gateway.Via? then hops[0].gateway.fam
    else HopsFamily(hops[1..])
  }

  /** IPv6 routes without a metric get 1024. */
  function RouteMetric(fam: Family, metric: int): int {
    if fam == V6 && metric == 0 then 1024 else metric
  }

  function EcmpKey(table: int, hops: seq<Nexthop>): RouteKey {
    RouteKey(HopsFamily(hops), table, DEFAULT_DEST, RouteMetric(HopsFamily(hops), 0))
  }

  /** A failover member's metric: its priority, or 100 when none is set. */
  function Metric(m: WanMember): int {
    if m.priority == 0 then DEFAULT_METRIC else m.priority
  }

  function MemberKey(table: int, m: WanMember): RouteKey {
    RouteKey(GatewayFamily(m.gateway), table, DEFAULT_DEST, Metric(m))
  }

  function MemberHops(m: WanMember): seq<Nexthop> {
    [Nexthop(m.gateway, m.iface, 1)]
  }

  function MemberSteps(table: int, members: seq<WanMember>): seq<Step> {
    if members == [] then [] else
      var m := members[|members| - 1];
      MemberSteps(table, members[..|members| - 1]) + [ReplaceRoute(MemberKey(table, m), MemberHops(m))]
  }

  function GroupSteps(g: WanGroup): seq<Step> {
    if g.table == 0 then []
    else if g.mode == WeightedEcmp then [ReplaceRoute(EcmpKey(g.table, EcmpHops(g.members)), EcmpHops(g.members))]
    else MemberSteps(g.table, g.members)
  }

  function AllGroupSteps(gs: seq<WanGroup>): seq<Step> {
    if gs == [] then [] else
      AllGroupSteps(gs[..|gs| - 1]) + (if gs[|gs| - 1].enabled then GroupSteps(gs[|gs| - 1]) else [])
  }

  // ----- static routes and policy rules

  lemma ModFits(a: nat, m: nat)
    requires m > 0
    ensures a % m <= a
  {
    if a < m {
      assert a % m == a;
    }
  }

  /** The number without what is left over from multiples of m. */
  function Masked(a: nat, m: nat): nat
    requires m > 0
  {
    ModFits(a, m);
    a - a % m
  }

  /** The destination as the kernel files it: IPv6 prefixes lose the bits behind the prefix. */
  function StaticDest(c: Cidr): Dest {
    match c
    case Unparsed(text) => BadDest(text)
    case Cidr(fam, a, b) =>
      if fam == V4 then Dest(a, b) else Dest(Masked(a, Pow2(128 - b)), b)
  }

  function StaticKey(r: StaticRoute): RouteKey {
    var fam := if r.destination.Cidr? then r.destination.fam else V4;
    RouteKey(fam, if r.table > 0 then r.table else MAIN_TABLE, StaticDest(r.destination),
             RouteMetric(fam, if r.metric > 0 then r.metric else 0))
  }

  function StaticSteps(rs: seq<StaticRoute>): seq<Step> {
    if rs == [] then [] else
      var r := rs[|rs| - 1];
      StaticSteps(rs[..|rs| - 1]) + [ReplaceRoute(StaticKey(r), [Nexthop(r.gateway, r.iface, 1)])]
  }

  function RuleRoute(rule: RouteRule, c: Config): Route {
    RouteOf(rule, c.tunnels, c.routing.wanGroups)
  }

  /** The rule has an `ip rule` entry: it is enabled and resolves to a mark and a table. */
  predicate Routed(rule: RouteRule, c: Config) {
    rule.enabled && RuleRoute(rule, c).mark != 0 && RuleRoute(rule, c).table != 0
  }

  function RuleStep(rule: RouteRule, c: Config): Step {
    ReplaceRule(rule.priority, RuleRoute(rule, c).mark, RuleRoute(rule, c).table)
  }

  function RuleSteps(rules: seq<RouteRule>, c: Config): seq<Step> {
    if rules == [] then [] else
      RuleSteps(rules[..|rules| - 1], c) +
      (if Routed(rules[|rules| - 1], c) then [RuleStep(rules[|rules| - 1], c)] else [])
  }

  function RoutingSteps(c: Config): seq<Step> {
    AllGroupSteps(c.routing.wanGroups) + StaticSteps(c.routing.staticRoutes) +
    RuleSteps(StableSort(c.routing.rules), c)
  }

  function PlanSteps(c: Config): seq<Step> {
    AllTunnelSteps(c.tunnels) + RoutingSteps(c)
  }

  // ----- routes, field by field

  /** As many nexthops as members, each with its member's gateway, device and weight; an unset weight is one. */
  predicate HopsByFields(members: seq<WanMember>, hops: seq<Nexthop>) {
    && |hops| == |members|
    && forall i: nat | i < |members| ::
         && hops[i].gateway == members[i].gateway && hops[i].dev == members[i].iface
         && hops[i].weight == if members[i].weight > 0 then members[i].weight else 1
  }

  lemma {:induction false} EcmpHopsByFields(members: seq<WanMember>)
    ensures HopsByFields(members, EcmpHops(members))
  {
    if members != [] {
      EcmpHopsByFields(members[..|members| - 1]);
    }
  }

  /** A failover member's default: its table, its gateway's family, its priority or 100 as metric, and its next hop. */
  predicate MemberByFields(table: int, m: WanMember, key: RouteKey, hops: seq<Nexthop>) {
    && key.table == table && key.dest == Dest(0, 0)
    && key.fam == (if m.gateway.Via? then m.gateway.fam else V4)
    && key.metric == (if m.priority == 0 then 100 else m.priority)
    && |hops| == 1 && hops[0].gateway == m.gateway && hops[0].dev == m.iface
  }

  lemma MemberIsByFields(table: int, m: WanMember)
    ensures MemberByFields(table, m, MemberKey(table, m), MemberHops(m))
  {
  }

  /** The block of addresses a prefix stands for, as the kernel files it: an IPv6 prefix without bits behind it. */
  predicate SameBlock(c: Cidr, dest: Dest)
    requires c.Cidr?
  {
    && dest.Dest? && dest.bits == c.bits
    && (c.fam == V4 ==> dest.addr == c.addr)
    && (c.fam == V6 ==> dest.addr / Pow2(128 - c.bits) == c.addr / Pow2(128 - c.bits) && dest.addr % Pow2(128 - c.bits) == 0)
  }

  /** A static route: its destination, its table or the main one, its metric or the kernel's default, and its next hop. */
  predicate StaticByFields(r: StaticRoute, key: RouteKey, hops: seq<Nexthop>)
    requires r.destination.Cidr?
  {
    && key.fam == r.destination.fam && SameBlock(r.destination, key.dest)
    && key.table == (if r.table > 0 then r.table else 254)
    && key.metric == (if r.metric > 0 then r.metric else if key.fam == V6 then 1024 else 0)
    && |hops| == 1 && hops[0].gateway == r.gateway && hops[0].dev == r.iface
  }

  lemma MultiplesApart(d: int, m: int)
    requires d != 0 && m > 0
    ensures d * m >= m || d * m <= -m
  {
  }

  lemma DivModUnique(a: int, m: int, q: int, r: int)
    requires m > 0 && a == q * m + r && 0 <= r < m
    ensures a / m == q && a % m == r
  {
    var d := a / m - q;
    assert a == a / m * m + a % m;
    assert d * m == r - a % m;
    if d != 0 {
      MultiplesApart(d, m);
    }
  }

  lemma MaskedBlock(a: nat, m: nat)
    requires m > 0
    ensures Masked(a, m) / m == a / m && Masked(a, m) % m == 0
  {
    assert a == a / m * m + a % m;
    DivModUnique(a - a % m, m, a / m, 0);
  }

  lemma StaticIsByFields(r: StaticRoute)
    requires r.destination.Cidr?
    ensures StaticByFields(r, StaticKey(r), [Nexthop(r.gateway, r.iface, 1)])
  {
    hide Pow2;
    if r.destination.fam == V6 {
      MaskedBlock(r.destination.addr, Pow2(128 - r.destination.bits));
    }
  }

  // ----- collecting options

  method CollectOptions(options: map<string, string>, keys: seq<string>) returns (args: seq<string>)
    ensures args == OptionArgs(options, keys)
  {
    args := [];
    for i := 0 to |keys|
      invariant args == OptionArgs(options, keys[..i])
    {
      assert keys[..i + 1][..i] == keys[..i];
      var value := Field(options, keys[i]);
      if value != "" {
        args := args + [keys[i], value];
      }
    }
    assert keys[..|keys|] == keys;
  }
}
