/**
 The tunnel part of the plan as it is emitted, and the whole plan: what its commands mean
 and what executing them does. Service profiles come from generators of their own.
 */
module TunnelCommands {
  import opened Basics
  import opened Addresses
  import opened Config
  import opened Numerals
  import opened Scripts
  import opened Templates
  import opened StepReadings
  import opened Kernel
  import opened RoutingPlan
  import opened CommandMeaning
  import opened RoutingCommands
  import E = Execution
  import V = Validation

  /** The steps of the service profile of a tunnel. */
  type Profiles = Tunnel -> seq<E.Step>

  function KindText(kind: TunnelKind): string {
    match kind
    case TunKind => "tun"
    case WireGuard => "wireguard"
    case OpenVpn => "openvpn"
    case Ipsec => "ipsec"
    case IpsecVti => "ipsec-vti"
    case Vti => "vti"
    case L2tp => "l2tp"
    case L2tpIpsec => "l2tp-ipsec"
    case Pptp => "pptp"
    case Sstp => "sstp"
    case Pppoe => "pppoe"
    case GreKind => "gre"
    case GreTap => "gretap"
    case Eoip => "eoip"
    case IpIp => "ipip"
    case Sit => "sit"
    case SixToFour => "6to4"
    case Ip6Gre => "ip6gre"
    case Ip6Tnl => "ip6tnl"
    case Erspan => "erspan"
    case Vxlan => "vxlan"
    case L2tpV3 => "l2tpv3"
    case OpenConnect => "openconnect"
    case AnyConnect => "anyconnect"
    case GlobalProtect => "globalprotect"
    case PulseSecure => "pulse-secure"
    case FortigateSsl => "fortigate-ssl"
    case FortinetSsl => "fortinet-ssl"
    case Vless => "vless"
    case Vmess => "vmess"
    case VlessXhttp => "vless-xhttp"
    case Xhttp => "xhttp"
    case SingBox => "sing-box"
    case Xray => "xray"
    case Tailscale => "tailscale"
    case ZeroTier => "zerotier"
    case Custom => "custom"
    case OtherTunnel(text) => text
  }

  // ----- warnings

  function NoNameText(id: string): string {
    "tunnel " + id +
    " is enabled without interfaceName; routing rules can mark traffic but no device route will be created"
  }

  function ManagedText(id: string): string {
    "tunnel " + id +
    " is service-managed; MTU and local addresses are rendered into the backend config where supported"
  }

  function IpsecText(id: string): string {
    "IPsec/L2TP tunnel " + id +
    " requires strongSwan/xl2tpd secrets and peer profile files under /etc; full profile rendering is TODO"
  }

  function PppText(t: Tunnel): string {
    KindText(t.kind) + " tunnel " + t.id + " is PPP-backed; provide peer/secrets files and expose interface " +
    t.interfaceName
  }

  function MeshText(t: Tunnel): string {
    KindText(t.kind) + " tunnel " + t.id + " is managed by its own control plane; lasd routes traffic into " +
    t.interfaceName
  }

  function EoipText(id: string): string {
    "EoIP tunnel " + id + " is MikroTik GRE-based L2 tunneling; model it as gretap/VXLAN for Linux " +
    "interoperability or provide an external EoIP-compatible service"
  }

  function L2tpText(id: string): string {
    "L2TPv3 tunnel " + id + " is modeled; full ip l2tp session/pseudowire rendering is TODO"
  }

  // ----- the planned steps

  function Ensures(description: string, name: string, spec: LinkSpec): E.Step {
    Runs(description, "sh", ["-c", Text(EnsureScript(name, AddCmd(name, spec)))])
  }

  function Enables(description: string, service: string): E.Step {
    Runs(description, "systemctl", ["enable", "--now", service])
  }

  function PppService(t: Tunnel): string {
    if Field(t.options, "service") == "" then "ppp@" + t.id else Field(t.options, "service")
  }

  function MeshService(t: Tunnel): string {
    if t.kind == ZeroTier then "zerotier-one" else KindText(t.kind)
  }

  function WireGuardCommands(t: Tunnel): seq<E.Step> {
    var file := Field(t.credentials, "configFile");
    if file == "" then [Warns("wireguard tunnel " + t.id + " has no credentials.configFile")]
    else [Ensures("ensure WireGuard interface " + t.interfaceName, t.interfaceName, WireGuardLink),
          Runs("load WireGuard config for " + t.id, "wg", ["setconf", t.interfaceName, file])]
  }

  function IpsecCommands(t: Tunnel): seq<E.Step> {
    [Warns(IpsecText(t.id)), Enables("enable strongSwan", "strongswan")] +
    (if t.kind == L2tp || t.kind == L2tpIpsec then [Enables("enable xl2tpd", "xl2tpd")] else [])
  }

  function PppCommands(t: Tunnel): seq<E.Step> {
    [Warns(PppText(t)), Enables("enable PPP tunnel service " + PppService(t), PppService(t))]
  }

  function MeshCommands(t: Tunnel): seq<E.Step> {
    [Warns(MeshText(t)), Enables("enable " + MeshService(t) + " service", MeshService(t))]
  }

  function CustomCommands(t: Tunnel): seq<E.Step> {
    var service := Field(t.options, "service");
    if service == "" then [Warns("custom tunnel " + t.id + " has no options.service")]
    else [Enables("enable custom tunnel service " + service, service)]
  }

  function VxlanCommands(t: Tunnel): seq<E.Step> {
    (if Field(t.options, "id") == "" then [Warns("vxlan tunnel " + t.id + " has no options.id")] else []) +
    [Ensures("ensure vxlan link " + t.interfaceName, t.interfaceName, LinkTunnelSpec(t, "vxlan", VXLAN_OPTIONS))]
  }

  /** The device branch of each tunnel type. */
  function DeviceCommands(t: Tunnel, profiles: Profiles): seq<E.Step> {
    match t.kind
    case TunKind => [Ensures("ensure TUN device " + t.interfaceName, t.interfaceName, TunDevice)]
    case WireGuard => WireGuardCommands(t)
    case GreKind | IpIp | Sit | SixToFour | Ip6Gre | Ip6Tnl | Vti | IpsecVti =>
      [Ensures("ensure " + KindText(t.kind) + " tunnel " + t.interfaceName, t.interfaceName, IpTunnelSpec(t))]
    case GreTap | Erspan =>
      [Ensures("ensure " + KindText(t.kind) + " link " + t.interfaceName, t.interfaceName,
               LinkTunnelSpec(t, KindText(t.kind), LINK_TUNNEL_OPTIONS))]
    case Vxlan => VxlanCommands(t)
    case Eoip => [Warns(EoipText(t.id))]
    case L2tpV3 => [Warns(L2tpText(t.id))]
    case Ipsec | L2tp | L2tpIpsec => IpsecCommands(t)
    case Pptp | Sstp | Pppoe => PppCommands(t)
    case Tailscale | ZeroTier => MeshCommands(t)
    case Custom => CustomCommands(t)
    case OtherTunnel(_) => []
    case _ => profiles(t)
  }

  function AddressCommands(name: string, addresses: seq<Cidr>, sp: Spelling): seq<E.Step> {
    if addresses == [] then [] else
      var text := sp.dest(addresses[|addresses| - 1]);
      AddressCommands(name, addresses[..|addresses| - 1], sp) +
      [Runs("assign " + text + " to " + name, "ip", ["address", "replace", text, "dev", name])]
  }

  function MtuCommand(t: Tunnel): E.Step {
    Runs("set mtu for " + t.interfaceName, "ip", ["link", "set", "dev", t.interfaceName, "mtu", IntText(t.mtu)])
  }

  function UpCommand(t: Tunnel): E.Step {
    Runs("bring up tunnel " + t.interfaceName, "ip", ["link", "set", "dev", t.interfaceName, "up"])
  }

  function ManagedWarning(t: Tunnel): E.Step {
    Warns(ManagedText(t.id))
  }

  function ConfigureCommands(t: Tunnel, sp: Spelling): seq<E.Step> {
    if ServiceManaged(t) then (if t.mtu > 0 || t.localAddresses != [] then [ManagedWarning(t)] else [])
    else (if t.mtu > 0 then [MtuCommand(t)] else []) + [UpCommand(t)] +
         AddressCommands(t.interfaceName, t.localAddresses, sp)
  }

  function TunnelRouteCommand(t: Tunnel): E.Step {
    Runs("route tunnel table " + IntText(t.table), "ip",
         ["route", "replace", "default", "dev", t.interfaceName, "table", IntText(t.table)])
  }

  function NoNameWarning(t: Tunnel): E.Step {
    Warns(NoNameText(t.id))
  }

  function OneTunnelCommands(t: Tunnel, sp: Spelling, profiles: Profiles): seq<E.Step> {
    if !t.enabled then []
    else if t.interfaceName == "" then [NoNameWarning(t)]
    else DeviceCommands(t, profiles) + ConfigureCommands(t, sp) + (if t.table > 0 then [TunnelRouteCommand(t)] else [])
  }

  function AllTunnelCommands(ts: seq<Tunnel>, sp: Spelling, profiles: Profiles): seq<E.Step> {
    if ts == [] then [] else
      AllTunnelCommands(ts[..|ts| - 1], sp, profiles) + OneTunnelCommands(ts[|ts| - 1], sp, profiles)
  }

  /** The tunnel and routing part of the plan. */
  function PlanCommands(c: Config, sp: Spelling, profiles: Profiles): seq<E.Step> {
    AllTunnelCommands(c.tunnels, sp, profiles) + RoutingCommandSteps(c, sp)
  }

  // ----- the generator

  ghost predicate ProfilesWellBuilt(profiles: Profiles) {
    forall t :: E.WellBuilt(profiles(t))
  }

  method AddIpTunnel(plan: E.Plan, t: Tunnel)
    requires plan.Valid()
    modifies plan
    ensures plan.Valid()
    ensures plan.steps == old(plan.steps) +
              [Ensures("ensure " + KindText(t.kind) + " tunnel " + t.interfaceName, t.interfaceName, IpTunnelSpec(t))]
  {
    hide E.WellBuilt;
    hide EnsureScript;
    hide Text;
    hide KindText;
    var args := ["tunnel", "add", t.interfaceName, "mode", IpTunnelMode(t.kind)];
    var more := CollectOptions(t.options, IP_TUNNEL_OPTIONS);
    args := args + more;
    var spec := IpTunnel(t.kind == Ip6Gre || t.kind == Ip6Tnl, args);
    assert spec == IpTunnelSpec(t);
    plan.AddCommand("ensure " + KindText(t.kind) + " tunnel " + t.interfaceName, "sh",
                    ["-c", Text(EnsureScript(t.interfaceName, AddCmd(t.interfaceName, spec)))]);
  }

  method AddLinkTunnel(plan: E.Plan, t: Tunnel, kind: string, keys: seq<string>)
    requires plan.Valid()
    modifies plan
    ensures plan.Valid()
    ensures plan.steps == old(plan.steps) +
              [Ensures("ensure " + kind + " link " + t.interfaceName, t.interfaceName, LinkTunnelSpec(t, kind, keys))]
  {
    hide E.WellBuilt;
    hide EnsureScript;
    hide Text;
    var args := ["link", "add", t.interfaceName, "type", kind];
    var more := CollectOptions(t.options, keys);
    args := args + more;
    assert LinkTunnel(args) == LinkTunnelSpec(t, kind, keys);
    plan.AddCommand("ensure " + kind + " link " + t.interfaceName, "sh",
                    ["-c", Text(EnsureScript(t.interfaceName, AddCmd(t.interfaceName, LinkTunnel(args))))]);
  }

  method AddService(plan: E.Plan, description: string, service: string)
    requires plan.Valid()
    modifies plan
    ensures plan.Valid() && plan.steps == old(plan.steps) + [Enables(description, service)]
  {
    plan.AddCommand(description, "systemctl", ["enable", "--now", service]);
  }

  method AddEnsure(plan: E.Plan, description: string, name: string, spec: LinkSpec)
    requires plan.Valid()
    modifies plan
    ensures plan.Valid() && plan.steps == old(plan.steps) + [Ensures(description, name, spec)]
  {
    plan.AddCommand(description, "sh", ["-c", Text(EnsureScript(name, AddCmd(name, spec)))]);
  }

  method AddWireGuard(plan: E.Plan, t: Tunnel)
    requires plan.Valid()
    modifies plan
    ensures plan.Valid() && plan.steps == old(plan.steps) + WireGuardCommands(t)
  {
    hide E.WellBuilt;
    hide Ensures;
    hide Field;
    var name, file := t.interfaceName, Field(t.credentials, "configFile");
    if file == "" {
      plan.AddWarning("wireguard tunnel " + t.id + " has no credentials.configFile");
    } else {
      AddEnsure(plan, "ensure WireGuard interface " + name, name, WireGuardLink);
      plan.AddCommand("load WireGuard config for " + t.id, "wg", ["setconf", name, file]);
    }
  }

  method AddIpsec(plan: E.Plan, t: Tunnel)
    requires plan.Valid()
    modifies plan
    ensures plan.Valid() && plan.steps == old(plan.steps) + IpsecCommands(t)
  {
    hide IpsecText;
    hide E.WellBuilt;
    hide Enables;
    plan.AddWarning(IpsecText(t.id));
    AddService(plan, "enable strongSwan", "strongswan");
    if t.kind == L2tp || t.kind == L2tpIpsec {
      AddService(plan, "enable xl2tpd", "xl2tpd");
    }
  }

  method AddPpp(plan: E.Plan, t: Tunnel)
    requires plan.Valid()
    modifies plan
    ensures plan.Valid() && plan.steps == old(plan.steps) + PppCommands(t)
  {
    hide PppText;
    hide E.WellBuilt;
    hide Enables;
    hide KindText;
    var service := Field(t.options, "service");
    if service == "" {
      service := "ppp@" + t.id;
    }
    plan.AddWarning(PppText(t));
    AddService(plan, "enable PPP tunnel service " + service, service);
  }

  method AddMesh(plan: E.Plan, t: Tunnel)
    requires plan.Valid()
    modifies plan
    ensures plan.Valid() && plan.steps == old(plan.steps) + MeshCommands(t)
  {
    hide MeshText;
    hide E.WellBuilt;
    hide Enables;
    hide KindText;
    var service := KindText(t.kind);
    if t.kind == ZeroTier {
      service := "zerotier-one";
    }
    plan.AddWarning(MeshText(t));
    AddService(plan, "enable " + service + " service", service);
  }

  method AddCustom(plan: E.Plan, t: Tunnel) returns (serviceManaged: bool)
    requires plan.Valid()
    modifies plan
    ensures plan.Valid() && plan.steps == old(plan.steps) + CustomCommands(t)
    ensures serviceManaged == (Field(t.options, "service") != "")
  {
    hide E.WellBuilt;
    hide Enables;
    hide Field;
    serviceManaged := false;
    var service := Field(t.options, "service");
    if service == "" {
      plan.AddWarning("custom tunnel " + t.id + " has no options.service");
    } else {
      AddService(plan, "enable custom tunnel service " + service, service);
      serviceManaged := true;
    }
  }

  method AddVxlan(plan: E.Plan, t: Tunnel)
    requires plan.Valid()
    modifies plan
    ensures plan.Valid() && plan.steps == old(plan.steps) + VxlanCommands(t)
  {
    hide E.WellBuilt;
    hide Ensures;
    hide LinkTunnelSpec;
    hide Field;
    if Field(t.options, "id") == "" {
      plan.AddWarning("vxlan tunnel " + t.id + " has no options.id");
    }
    assert "ensure " + "vxlan" + " link " == "ensure vxlan link ";
    AddLinkTunnel(plan, t, "vxlan", VXLAN_OPTIONS);
  }

  method AddDevice(plan: E.Plan, t: Tunnel, profiles: Profiles) returns (serviceManaged: bool)
    requires plan.Valid() && ProfilesWellBuilt(profiles)
    modifies plan
    ensures plan.Valid() && plan.steps == old(plan.steps) + DeviceCommands(t, profiles)
    ensures serviceManaged == ServiceManaged(t)
  {
    hide EoipText;
    hide L2tpText;
    hide E.WellBuilt;
    hide Ensures;
    hide IpTunnelSpec;
    hide LinkTunnelSpec;
    hide WireGuardCommands;
    hide IpsecCommands;
    hide PppCommands;
    hide MeshCommands;
    hide CustomCommands;
    hide VxlanCommands;
    hide KindText;
    hide Field;
    serviceManaged := false;
    match t.kind {
      case TunKind =>
        AddEnsure(plan, "ensure TUN device " + t.interfaceName, t.interfaceName, TunDevice);
      case WireGuard =>
        AddWireGuard(plan, t);
      case GreKind | IpIp | Sit | SixToFour | Ip6Gre | Ip6Tnl | Vti | IpsecVti =>
        AddIpTunnel(plan, t);
      case GreTap | Erspan =>
        AddLinkTunnel(plan, t, KindText(t.kind), LINK_TUNNEL_OPTIONS);
      case Vxlan =>
        AddVxlan(plan, t);
      case Eoip =>
        plan.AddWarning(EoipText(t.id));
      case L2tpV3 =>
        plan.AddWarning(L2tpText(t.id));
      case Ipsec | L2tp | L2tpIpsec =>
        AddIpsec(plan, t);
      case Pptp | Sstp | Pppoe =>
        AddPpp(plan, t);
        serviceManaged := true;
      case Tailscale | ZeroTier =>
        AddMesh(plan, t);
        serviceManaged := true;
      case Custom =>
        serviceManaged := AddCustom(plan, t);
      case OtherTunnel(_) =>
      case _ =>
        plan.AddSteps(profiles(t));
        serviceManaged := true;
    }
  }

  method AddAddresses(plan: E.Plan, name: string, addresses: seq<Cidr>, sp: Spelling)
    requires plan.Valid()
    modifies plan
    ensures plan.Valid() && plan.steps == old(plan.steps) + AddressCommands(name, addresses, sp)
  {
    hide E.WellBuilt;
    for i := 0 to |addresses|
      invariant plan.Valid() && plan.steps == old(plan.steps) + AddressCommands(name, addresses[..i], sp)
    {
      assert addresses[..i + 1][..i] == addresses[..i];
      var text := sp.dest(addresses[i]);
      plan.AddCommand("assign " + text + " to " + name, "ip", ["address", "replace", text, "dev", name]);
    }
    assert addresses[..|addresses|] == addresses;
  }

  method Configure(plan: E.Plan, t: Tunnel, serviceManaged: bool, sp: Spelling)
    requires plan.Valid() && serviceManaged == ServiceManaged(t)
    modifies plan
    ensures plan.Valid() && plan.steps == old(plan.steps) + ConfigureCommands(t, sp)
  {
    hide ManagedText;
    hide E.WellBuilt;
    hide ServiceManaged;
    hide AddressCommands;
    if serviceManaged {
      if t.mtu > 0 || |t.localAddresses| > 0 {
        plan.AddWarning(ManagedText(t.id));
      }
    } else if t.mtu > 0 {
      plan.AddCommand("set mtu for " + t.interfaceName, "ip",
                      ["link", "set", "dev", t.interfaceName, "mtu", IntText(t.mtu)]);
    }
    if !serviceManaged {
      plan.AddCommand("bring up tunnel " + t.interfaceName, "ip", ["link", "set", "dev", t.interfaceName, "up"]);
      AddAddresses(plan, t.interfaceName, t.localAddresses, sp);
    }
  }

  method AddTunnel(plan: E.Plan, t: Tunnel, sp: Spelling, profiles: Profiles)
    requires plan.Valid() && ProfilesWellBuilt(profiles)
    modifies plan
    ensures plan.Valid() && plan.steps == old(plan.steps) + OneTunnelCommands(t, sp, profiles)
  {
    hide NoNameText;
    hide E.WellBuilt;
    hide DeviceCommands;
    hide ConfigureCommands;
    hide ServiceManaged;
    if !t.enabled {
      return;
    }
    if t.interfaceName == "" {
      plan.AddWarning(NoNameText(t.id));
      return;
    }
    var serviceManaged := AddDevice(plan, t, profiles);
    Configure(plan, t, serviceManaged, sp);
    if t.table > 0 {
      plan.AddCommand("route tunnel table " + IntText(t.table), "ip",
                      ["route", "replace", "default", "dev", t.interfaceName, "table", IntText(t.table)]);
    }
  }

  method AddTunnelPlan(plan: E.Plan, tunnels: seq<Tunnel>, sp: Spelling, profiles: Profiles)
    requires plan.Valid() && ProfilesWellBuilt(profiles)
    modifies plan
    ensures plan.Valid() && plan.steps == old(plan.steps) + AllTunnelCommands(tunnels, sp, profiles)
  {
    hide E.WellBuilt;
    hide OneTunnelCommands;
    for i := 0 to |tunnels|
      invariant plan.Valid() && plan.steps == old(plan.steps) + AllTunnelCommands(tunnels[..i], sp, profiles)
    {
      assert tunnels[..i + 1][..i] == tunnels[..i];
      AddTunnel(plan, tunnels[i], sp, profiles);
    }
    assert tunnels[..|tunnels|] == tunnels;
  }

  /** Tunnels first, then routing. */
  method BuildPlan(c: Config, sp: Spelling, profiles: Profiles) returns (steps: seq<E.Step>)
    requires ProfilesWellBuilt(profiles)
    ensures steps == PlanCommands(c, sp, profiles) && E.WellBuilt(steps)
  {
    hide AllTunnelCommands;
    hide RoutingCommandSteps;
    hide E.WellBuilt;
    var plan := new E.Plan();
    AddTunnelPlan(plan, c.tunnels, sp, profiles);
    AddRoutingPlan(plan, c, sp);
    assert plan.steps == PlanCommands(c, sp, profiles);
    return plan.steps;
  }

  // ----- the commands mean the abstract plan

  /** Service profiles never touch the modelled kernel state. */
  ghost predicate Inert(profiles: Profiles, sp: Spelling) {
    forall t :: Effects(profiles(t), sp) == Some([])
  }

  lemma EnsureEffect(description: string, name: string, spec: LinkSpec, sp: Spelling)
    requires SafeWord(name) && SpecFits(spec)
    ensures Effect(Ensures(description, name, spec), sp) == Some([EnsureLink(name, spec)])
  {
    EnsureRoundTrip(name, spec);
    hide EnsureScript;
    hide Text;
    hide Reading;
    ScriptEffect(description, Text(EnsureScript(name, AddCmd(name, spec))), EnsureLink(name, spec), sp);
  }

  lemma WarningEffect(text: string, sp: Spelling)
    ensures Effect(Warns(text), sp) == Some([])
  {
  }

  lemma LoadEffect(description: string, args: seq<string>, sp: Spelling)
    ensures Effect(Runs(description, "wg", args), sp) == Some([])
  {
    assert "wg"[0] == 'w' && "sh"[0] == 's' && "ip"[0] == 'i';
  }

  lemma {:induction false} QuietEffects(xs: seq<E.Step>, sp: Spelling)
    requires forall x | x in xs :: Effect(x, sp) == Some([])
    ensures Effects(xs, sp) == Some([])
  {
    hide Effect;
    if xs != [] {
      var init := xs[..|xs| - 1];
      forall x | x in init ensures x in xs {}
      QuietEffects(init, sp);
      var nothing: seq<Step> := [];
      assert nothing + nothing == nothing;
    }
  }

  lemma SpecsFit(t: Tunnel)
    ensures KernelSpec(t).Some? ==> SpecFits(KernelSpec(t).value)
  {
    hide OptionArgs;
    hide Field;
    assert "gretap" != "type" && "erspan" != "type" && "vxlan" != "type";
  }

  /** A warning or a command of a program that leaves the kernel model alone. */
  predicate Quiet(x: E.Step) {
    || x.kind == E.IsWarning
    || (x.kind == E.RunsCommand && x.command.Some? && x.command.value.program == "systemctl")
  }

  lemma QuietMeans(xs: seq<E.Step>, sp: Spelling)
    requires forall x | x in xs :: Quiet(x)
    ensures Effects(xs, sp) == Some([])
  {
    assert "systemctl"[1] == 'y' && "sh"[1] == 'h' && "ip"[0] == 'i';
    forall x | x in xs ensures Effect(x, sp) == Some([]) {
      assert Quiet(x);
    }
    QuietEffects(xs, sp);
  }

  lemma ServicesAreQuiet(t: Tunnel)
    ensures forall x | x in IpsecCommands(t) + PppCommands(t) + MeshCommands(t) + CustomCommands(t) :: Quiet(x)
  {
    hide IpsecText;
    hide PppText;
    hide MeshText;
    hide KindText;
    hide Field;
    hide PppService;
    hide MeshService;
  }

  lemma ServiceDeviceMeans(t: Tunnel, sp: Spelling, profiles: Profiles)
    requires Inert(profiles, sp) && KernelSpec(t) == None && t.kind != WireGuard
    ensures Effects(DeviceCommands(t, profiles), sp) == Some([])
  {
    hide EoipText;
    hide L2tpText;
    hide Effects;
    hide IpTunnelSpec;
    hide LinkTunnelSpec;
    hide IpsecCommands;
    hide PppCommands;
    hide MeshCommands;
    hide CustomCommands;
    hide KindText;
    hide Field;
    ServicesAreQuiet(t);
    var services := IpsecCommands(t) + PppCommands(t) + MeshCommands(t) + CustomCommands(t);
    if Inert(profiles, sp) && DeviceCommands(t, profiles) == profiles(t) {
      return;
    }
    forall x | x in DeviceCommands(t, profiles) ensures Quiet(x) {
      assert x in services || x.kind == E.IsWarning;
    }
    QuietMeans(DeviceCommands(t, profiles), sp);
  }

  lemma WireGuardMeans(t: Tunnel, sp: Spelling)
    requires SafeWord(t.interfaceName)
    ensures Effects(WireGuardCommands(t), sp) ==
            Some(if Field(t.credentials, "configFile") == "" then [] else [EnsureLink(t.interfaceName, WireGuardLink)])
  {
    hide Effect;
    hide Ensures;
    hide Runs;
    hide Warns;
    hide Field;
    hide SafeWord;
    var name, file := t.interfaceName, Field(t.credentials, "configFile");
    if file == "" {
      WarningEffect("wireguard tunnel " + t.id + " has no credentials.configFile", sp);
      EffectsOne(WireGuardCommands(t)[0], sp);
    } else {
      var ensure := Ensures("ensure WireGuard interface " + name, name, WireGuardLink);
      var load := Runs("load WireGuard config for " + t.id, "wg", ["setconf", name, file]);
      EnsureEffect("ensure WireGuard interface " + name, name, WireGuardLink, sp);
      LoadEffect("load WireGuard config for " + t.id, ["setconf", name, file], sp);
      EffectsOne(ensure, sp);
      EffectsSnoc([ensure], load, [EnsureLink(name, WireGuardLink)], [], sp);
      assert WireGuardCommands(t) == [ensure] + [load];
      assert [EnsureLink(name, WireGuardLink)] + [] == [EnsureLink(name, WireGuardLink)];
    }
  }

  lemma VxlanMeans(t: Tunnel, sp: Spelling, profiles: Profiles)
    requires SafeWord(t.interfaceName) && t.kind == Vxlan
    ensures Effects(DeviceCommands(t, profiles), sp) == Some(DeviceSteps(t))
  {
    SpecsFit(t);
    hide Effect;
    hide Ensures;
    hide Warns;
    hide Field;
    hide SafeWord;
    hide LinkTunnelSpec;
    hide SpecFits;
    var name, spec := t.interfaceName, LinkTunnelSpec(t, "vxlan", VXLAN_OPTIONS);
    var ensure := Ensures("ensure vxlan link " + name, name, spec);
    var warning := Warns("vxlan tunnel " + t.id + " has no options.id");
    EnsureEffect("ensure vxlan link " + name, name, spec, sp);
    WarningEffect("vxlan tunnel " + t.id + " has no options.id", sp);
    EffectsOne(ensure, sp);
    EffectsOne(warning, sp);
    EffectsSnoc([warning], ensure, [], [EnsureLink(name, spec)], sp);
    assert [] + [EnsureLink(name, spec)] == [EnsureLink(name, spec)];
    assert [] + [ensure] == [ensure];
  }

  lemma OneEnsureMeans(description: string, t: Tunnel, spec: LinkSpec, sp: Spelling)
    requires SafeWord(t.interfaceName) && KernelSpec(t) == Some(spec)
    ensures Effects([Ensures(description, t.interfaceName, spec)], sp) == Some(DeviceSteps(t))
  {
    SpecsFit(t);
    hide KernelSpec;
    hide SpecFits;
    hide SafeWord;
    hide Effect;
    EnsureEffect(description, t.interfaceName, spec, sp);
    EffectsOne(Ensures(description, t.interfaceName, spec), sp);
  }

  lemma DeviceMeans(t: Tunnel, sp: Spelling, profiles: Profiles)
    requires SafeWord(t.interfaceName) && Inert(profiles, sp)
    ensures Effects(DeviceCommands(t, profiles), sp) == Some(DeviceSteps(t))
  {
    hide EoipText;
    hide L2tpText;
    hide SafeWord;
    hide Effects;
    hide Inert;
    hide Ensures;
    hide IpTunnelSpec;
    hide LinkTunnelSpec;
    hide Field;
    var name := t.interfaceName;
    match t.kind {
      case TunKind => OneEnsureMeans("ensure TUN device " + name, t, TunDevice, sp);
      case WireGuard =>
        hide WireGuardCommands;
        WireGuardMeans(t, sp);
      case GreKind | IpIp | Sit | SixToFour | Ip6Gre | Ip6Tnl | Vti | IpsecVti =>
        OneEnsureMeans("ensure " + KindText(t.kind) + " tunnel " + name, t, IpTunnelSpec(t), sp);
      case GreTap | Erspan =>
        OneEnsureMeans("ensure " + KindText(t.kind) + " link " + name, t,
                       LinkTunnelSpec(t, KindText(t.kind), LINK_TUNNEL_OPTIONS), sp);
      case Vxlan => VxlanMeans(t, sp, profiles);
      case _ => ServiceDeviceMeans(t, sp, profiles);
    }
  }

  lemma IpEffect(description: string, args: seq<string>, st: Step, sp: Spelling)
    requires ReadIp(args, sp) == Some(st)
    ensures Effect(Runs(description, "ip", args), sp) == Some([st])
  {
    hide ReadIp;
  }

  lemma {:induction false} AddressesMean(name: string, addresses: seq<Cidr>, sp: Spelling)
    requires Consistent(sp) && AllParsed(addresses)
    ensures Effects(AddressCommands(name, addresses, sp), sp) == Some(AddressSteps(name, addresses))
  {
    hide Consistent;
    hide Effect;
    hide ReadIp;
    hide Runs;
    if addresses != [] {
      var init, last := addresses[..|addresses| - 1], addresses[|addresses| - 1];
      var text := sp.dest(last);
      var args := ["address", "replace", text, "dev", name];
      AddressesMean(name, init, sp);
      AddressRead(name, last, sp);
      IpEffect("assign " + text + " to " + name, args, ReplaceAddress(name, last), sp);
      EffectsSnoc(AddressCommands(name, init, sp), Runs("assign " + text + " to " + name, "ip", args),
                  AddressSteps(name, init), [ReplaceAddress(name, last)], sp);
    }
  }

  lemma MtuMeans(t: Tunnel, sp: Spelling)
    ensures Effects([MtuCommand(t)], sp) == Some([SetMtu(t.interfaceName, t.mtu)])
    ensures Effects([UpCommand(t)], sp) == Some([SetUp(t.interfaceName)])
  {
    hide IntText;
    hide ReadIp;
    hide Effect;
    MtuRead(t.interfaceName, t.mtu, sp);
    UpRead(t.interfaceName, sp);
    IpEffect("set mtu for " + t.interfaceName, ["link", "set", "dev", t.interfaceName, "mtu", IntText(t.mtu)],
             SetMtu(t.interfaceName, t.mtu), sp);
    IpEffect("bring up tunnel " + t.interfaceName, ["link", "set", "dev", t.interfaceName, "up"],
             SetUp(t.interfaceName), sp);
    EffectsOne(MtuCommand(t), sp);
    EffectsOne(UpCommand(t), sp);
  }

  lemma ManagedMeans(t: Tunnel, sp: Spelling)
    ensures Effects([ManagedWarning(t)], sp) == Some([])
  {
    hide ManagedText;
    EffectsOne(ManagedWarning(t), sp);
  }

  lemma ConfigureMeans(t: Tunnel, sp: Spelling)
    requires Consistent(sp) && AllParsed(t.localAddresses)
    ensures Effects(ConfigureCommands(t, sp), sp) == Some(ConfigureSteps(t))
  {
    hide Consistent;
    hide ServiceManaged;
    hide Effect;
    hide ManagedWarning;
    hide MtuCommand;
    hide UpCommand;
    hide AddressCommands;
    hide AddressSteps;
    if ServiceManaged(t) {
      ManagedMeans(t, sp);
    } else {
      var name := t.interfaceName;
      MtuMeans(t, sp);
      AddressesMean(name, t.localAddresses, sp);
      hide Effects;
      EffectsConcat([MtuCommand(t)], [UpCommand(t)], [SetMtu(name, t.mtu)], [SetUp(name)], sp);
      EffectsConcat([MtuCommand(t)] + [UpCommand(t)], AddressCommands(name, t.localAddresses, sp),
                    [SetMtu(name, t.mtu)] + [SetUp(name)], AddressSteps(name, t.localAddresses), sp);
      EffectsConcat([UpCommand(t)], AddressCommands(name, t.localAddresses, sp),
                    [SetUp(name)], AddressSteps(name, t.localAddresses), sp);
      assert [] + [UpCommand(t)] == [UpCommand(t)];
      assert [] + [SetUp(name)] == [SetUp(name)];
    }
  }

  lemma RouteMeans(t: Tunnel, sp: Spelling)
    ensures Effects([TunnelRouteCommand(t)], sp) ==
            Some([ReplaceRoute(TunnelKey(t), [Nexthop(NoGateway, t.interfaceName, 1)])])
  {
    hide IntText;
    hide ReadRoute;
    hide Effect;
    TunnelRouteRead(t.interfaceName, t.table, sp);
    RouteEffect("route tunnel table " + IntText(t.table),
                ["route", "replace", "default", "dev", t.interfaceName, "table", IntText(t.table)],
                ReplaceRoute(TunnelKey(t), [Nexthop(NoGateway, t.interfaceName, 1)]), sp);
    EffectsOne(TunnelRouteCommand(t), sp);
  }

  lemma NoNameMeans(t: Tunnel, sp: Spelling)
    ensures Effects([NoNameWarning(t)], sp) == Some([])
  {
    hide NoNameText;
    EffectsOne(NoNameWarning(t), sp);
  }

  /** The commands of one validated tunnel are read back as its abstract steps. */
  lemma {:induction false} TunnelMeans(t: Tunnel, sp: Spelling, profiles: Profiles)
    requires V.TunnelOk(t) && Consistent(sp) && Inert(profiles, sp)
    ensures Effects(OneTunnelCommands(t, sp, profiles), sp) == Some(TunnelSteps(t))
  {
    hide Consistent;
    hide Inert;
    hide V.IsIdentifier;
    hide DeviceCommands;
    hide ConfigureCommands;
    hide TunnelRouteCommand;
    hide DeviceSteps;
    hide ConfigureSteps;
    hide Effects;
    hide SafeWord;
    hide NoNameWarning;
    if t.enabled && t.interfaceName != "" {
      IdentifierIsSafe(t.interfaceName);
      DeviceMeans(t, sp, profiles);
      ConfigureMeans(t, sp);
      RouteMeans(t, sp);
      var a, b := DeviceCommands(t, profiles), ConfigureCommands(t, sp);
      var x, y := DeviceSteps(t), ConfigureSteps(t);
      EffectsConcat(a, b, x, y, sp);
      if t.table > 0 {
        EffectsConcat(a + b, [TunnelRouteCommand(t)], x + y, TunnelRouteSteps(t), sp);
      } else {
        assert a + b + [] == a + b && x + y + [] == x + y;
      }
    } else if t.enabled {
      NoNameMeans(t, sp);
    } else {
      assert Effects([], sp) == Some([]) by { QuietEffects([], sp); }
    }
  }

  lemma {:induction false} TunnelsMean(ts: seq<Tunnel>, sp: Spelling, profiles: Profiles)
    requires (forall t | t in ts :: V.TunnelOk(t)) && Consistent(sp) && Inert(profiles, sp)
    ensures Effects(AllTunnelCommands(ts, sp, profiles), sp) == Some(AllTunnelSteps(ts))
  {
    hide Consistent;
    hide Inert;
    hide V.TunnelOk;
    hide OneTunnelCommands;
    hide TunnelSteps;
    hide Effect;
    if ts != [] {
      var init, last := ts[..|ts| - 1], ts[|ts| - 1];
      TunnelsMean(init, sp, profiles);
      TunnelMeans(last, sp, profiles);
      EffectsConcat(AllTunnelCommands(init, sp, profiles), OneTunnelCommands(last, sp, profiles),
                    AllTunnelSteps(init), TunnelSteps(last), sp);
    }
  }

  /** Command by command, the emitted plan of a validated configuration means the abstract one. */
  lemma {:induction false} PlanMeans(c: Config, sp: Spelling, profiles: Profiles)
    requires V.ValidConfig(c) && Consistent(sp) && Inert(profiles, sp)
    ensures Effects(PlanCommands(c, sp, profiles), sp) == Some(PlanSteps(c))
  {
    hide Consistent;
    hide Inert;
    hide Effects;
    hide RoutingSteps;
    hide RoutingCommandSteps;
    hide V.TunnelOk;
    hide V.KnownLinks;
    TunnelsMean(c.tunnels, sp, profiles);
    RoutingMeans(c, sp);
    hide V.ValidConfig;
    EffectsConcat(AllTunnelCommands(c.tunnels, sp, profiles), RoutingCommandSteps(c, sp),
                  AllTunnelSteps(c.tunnels), RoutingSteps(c), sp);
  }

  /**
   Executing the emitted plan of a validated configuration succeeds exactly when the abstract
   plan does and the host lets the other steps through, and leaves the same kernel state.
   */
  lemma {:induction false} ExecutedPlan(c: Config, s: State, sp: Spelling, profiles: Profiles, host: Host)
    requires V.ValidConfig(c) && Consistent(sp) && Inert(profiles, sp)
    ensures var xs := PlanCommands(c, sp, profiles);
            var t := E.Exec(KernelEnv(sp, host), false, s, xs);
            && (t.error == None <==> Run(s, PlanSteps(c)).Some? && AllGranted(xs, host))
            && (t.error == None ==> t.world == Run(s, PlanSteps(c)).value)
  {
    hide V.ValidConfig;
    hide Consistent;
    hide Inert;
    hide PlanCommands;
    hide PlanSteps;
    hide Run;
    hide Effects;
    PlanMeans(c, sp, profiles);
    ExecutionRefinesRun(s, PlanCommands(c, sp, profiles), sp, host);
  }
}
