/**
 The router configuration, restricted to the fields that the policy compiler,
 the routing plan and their validation read. Enumerated text fields are
 datatypes with one extra constructor for every other text.
 */
module Config {
  import opened Addresses

  datatype Protocol = Tcp | Udp | Icmp | IcmpV6 | Gre | Esp | Ah | OtherProtocol(text: string)

  datatype PortRange = PortRange(first: int, last: int)

  datatype RuleMatch = RuleMatch(
    inputIface: string, outputIface: string,
    sourceCIDRs: seq<Cidr>, destinationCIDRs: seq<Cidr>,
    sourcePorts: seq<PortRange>, destinationPorts: seq<PortRange>,
    protocols: seq<Protocol>,
    tunnelIDs: seq<string>, domains: seq<string>, geoIP: seq<string>,
    sets: seq<string>, applications: seq<string>, services: seq<string>)

  datatype ActionKind =
    | Direct | ToInterface | ToTunnel | ToWanGroup | LoadBalance
    | Blackhole | Reject | Scan | Mirror
    | OtherAction(text: string)

  datatype RuleAction = RuleAction(
    kind: ActionKind, target: string, masquerade: bool, log: bool, mark: int, table: int)

  datatype RouteRule = RouteRule(
    id: string, enabled: bool, priority: int, match_: RuleMatch, action: RuleAction)

  datatype SetKind = CountrySet | ApplicationSet | ServiceSet | CustomSet | OtherSet(text: string)

  datatype RouteSet = RouteSet(
    id: string, kind: SetKind, enabled: bool, cidrs: seq<Cidr>,
    countries: seq<string>, domains: seq<string>, sourceURLs: seq<string>)

  /** A gateway field: empty, an address, or a text that is not an address. */
  datatype Gateway = NoGateway | Via(fam: Family, addr: nat) | BadGateway(text: string)

  datatype WanMode = WeightedEcmp | Failover | ActiveBackup | OtherMode(text: string)

  datatype WanMember = WanMember(iface: string, gateway: Gateway, weight: int, priority: int)

  datatype WanGroup = WanGroup(
    id: string, enabled: bool, mode: WanMode, mark: int, table: int, members: seq<WanMember>)

  datatype StaticRoute = StaticRoute(
    destination: Cidr, gateway: Gateway, iface: string, table: int, metric: int)

  datatype TunnelKind =
    | TunKind | WireGuard | OpenVpn | Ipsec | IpsecVti | Vti
    | L2tp | L2tpIpsec | Pptp | Sstp | Pppoe
    | GreKind | GreTap | Eoip | IpIp | Sit | SixToFour | Ip6Gre | Ip6Tnl | Erspan | Vxlan | L2tpV3
    | OpenConnect | AnyConnect | GlobalProtect | PulseSecure | FortigateSsl | FortinetSsl
    | Vless | Vmess | VlessXhttp | Xhttp | SingBox | Xray
    | Tailscale | ZeroTier | Custom
    | OtherTunnel(text: string)

  datatype Direction = NoDirection | ClientSide | ServerSide | PeerSide | OtherDirection(text: string)

  datatype Tunnel = Tunnel(
    id: string, kind: TunnelKind, direction: Direction, enabled: bool, interfaceName: string,
    mark: int, table: int, mtu: int,
    localAddresses: seq<Cidr>, dns: seq<Gateway>,
    credentials: map<string, string>, options: map<string, string>)

  datatype InterfaceRole = Wan | Lan | Dmz | Mgmt | TunnelRole | OtherRole(text: string)

  /** An interface address field: the word "dhcp" or a CIDR. */
  datatype IfaceAddress = Dhcp | Static(cidr: Cidr)

  datatype DhcpServer = NoDhcpServer | DhcpServer(rangeStart: Gateway, rangeEnd: Gateway, dns: seq<Gateway>)

  datatype Interface = Interface(
    name: string, role: InterfaceRole, enabled: bool, addresses: seq<IfaceAddress>,
    gateway: Gateway, dns: seq<Gateway>, mtu: int, masquerade: bool, dhcpServer: DhcpServer)

  datatype Vlan = Vlan(name: string, parent: string, id: int, mtu: int, ips: seq<Cidr>)

  datatype Bridge = Bridge(
    name: string, members: seq<string>, stp: bool, vlanAware: bool, vlans: seq<int>)

  datatype BondMode =
    | NoBondMode | BalanceRr | BondActiveBackup | BalanceXor | Broadcast | Lacp | BalanceTlb | BalanceAlb
    | OtherBondMode(text: string)

  datatype Bond = Bond(name: string, members: seq<string>, mode: BondMode, mtu: int)

  datatype Vrf = Vrf(name: string, table: int, interfaces: seq<string>)

  datatype Platform = Platform(
    bonds: seq<Bond>, bridges: seq<Bridge>, vlans: seq<Vlan>, vrfs: seq<Vrf>)

  datatype PortForward = PortForward(
    id: string, enabled: bool, inputIface: string, protocols: seq<Protocol>,
    externalPort: int, internalIP: string, internalPort: int, sourceCIDRs: seq<Cidr>, log: bool)

  datatype OneToOneNat = OneToOneNat(
    id: string, enabled: bool, internal: Cidr, external: Cidr, interfaces: seq<string>)

  datatype Ips = Ips(enabled: bool, nfqueueMode: bool, queue: int)

  datatype Security = Security(
    nat_: bool, firewall: bool, allowEstablished: bool, managementPorts: seq<int>,
    portForwards: seq<PortForward>, oneToOne: seq<OneToOneNat>, ips: Ips)

  datatype Routing = Routing(
    sets: seq<RouteSet>, wanGroups: seq<WanGroup>, staticRoutes: seq<StaticRoute>, rules: seq<RouteRule>)

  datatype Config = Config(
    version: int, listen: string, conntrackMax: int, managementCIDRs: seq<Cidr>,
    interfaces: seq<Interface>, tunnels: seq<Tunnel>, routing: Routing,
    platform: Platform, security: Security)

  predicate IsFilterAction(kind: ActionKind) {
    kind == Blackhole || kind == Reject
  }
}
