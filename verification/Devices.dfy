/** Which device the plan makes of a tunnel, read back from the words of its command. */
module Devices {
  import opened Basics
  import Addresses
  import opened Config
  import opened Kernel
  import opened RoutingPlan
  import opened TunnelOutcome
  import opened Reapply

  // ----- reading a device

  /** A device by its kind, family flag, name and options. */
  datatype Device = Device(kind: TunnelKind, v6: bool, name: string, options: map<string, string>)

  /** The kind behind the `mode` of an `ip tunnel` device. */
  function KindOfMode(mode: string): Option<TunnelKind> {
    if mode == "gre" then Some(GreKind)
    else if mode == "ipip" then Some(IpIp)
    else if mode == "sit" then Some(Sit)
    else if mode == "ip6gre" then Some(Ip6Gre)
    else if mode == "ip6tnl" then Some(Ip6Tnl)
    else if mode == "vti" then Some(Vti)
    else None
  }

  /** The kind behind the `type` of an `ip link` device. */
  function KindOfType(text: string): Option<TunnelKind> {
    if text == "gretap" then Some(GreTap)
    else if text == "erspan" then Some(Erspan)
    else if text == "vxlan" then Some(Vxlan)
    else None
  }

  /** Keywords with their values, from the back; a keyword without a value is not read. */
  function ReadOptions(args: seq<string>): Option<map<string, string>> {
    if args == [] then Some(map[])
    else if |args| == 1 then None
    else match ReadOptions(args[..|args| - 2])
      case None => None
      case Some(m) => Some(m[args[|args| - 2] := args[|args| - 1]])
  }

  /** An `ip` command that adds a device: what, name, the keyword for its kind, the kind, and options. */
  function ReadWords(
    args: seq<string>, what: string, keyword: string, v6: bool, kindOf: string -> Option<TunnelKind>): Option<Device> {
    if |args| < 5 || args[0] != what || args[1] != "add" || args[3] != keyword then None else
      match (kindOf(args[4]), ReadOptions(args[5..]))
      case (Some(kind), Some(options)) => Some(Device(kind, v6, args[2], options))
      case _ => None
  }

  function ReadDevice(name: string, spec: LinkSpec): Option<Device> {
    match spec
    case Physical => None
    case TunDevice => Some(Device(TunKind, false, name, map[]))
    case WireGuardLink => Some(Device(WireGuard, false, name, map[]))
    case IpTunnel(v6, args) => ReadWords(args, "tunnel", "mode", v6, KindOfMode)
    case LinkTunnel(args) => ReadWords(args, "link", "type", false, KindOfType)
  }

  // ----- the device a tunnel asks for

  /** Tunnels for which the plan itself creates a device. */
  predicate HasDevice(t: Tunnel) {
    || t.kind in {TunKind, GreKind, IpIp, Sit, SixToFour, Ip6Gre, Ip6Tnl, Vti, IpsecVti, GreTap, Erspan, Vxlan}
    || (t.kind == WireGuard && "configFile" in t.credentials && t.credentials["configFile"] != "")
  }

  /** The kind as the kernel knows it: two kinds are other names for plainer ones. */
  function KernelKind(kind: TunnelKind): TunnelKind {
    if kind == SixToFour then Sit else if kind == IpsecVti then Vti else kind
  }

  /** The options that a device of the kind takes. */
  function OptionKeys(kind: TunnelKind): set<string> {
    match kind
    case GreKind | IpIp | Sit | SixToFour | Ip6Gre | Ip6Tnl | Vti | IpsecVti => {"local", "remote", "ttl", "key", "dev"}
    case GreTap | Erspan => {"local", "remote", "key", "dev"}
    case Vxlan => {"id", "remote", "local", "dev", "dstport"}
    case _ => {}
  }

  function SetOptions(options: map<string, string>, keys: set<string>): map<string, string> {
    map k | k in options && k in keys && options[k] != "" :: options[k]
  }

  /** The device a tunnel asks for: its kind, `-6` for the two IPv6 kinds, its name, and the set options its kind takes. */
  function Asked(t: Tunnel): Device {
    Device(KernelKind(t.kind), t.kind == Ip6Gre || t.kind == Ip6Tnl, t.interfaceName, SetOptions(t.options, OptionKeys(t.kind)))
  }

  // ----- options

  function KeySet(keys: seq<string>): set<string> {
    set k | k in keys
  }

  lemma ReadSnoc(args: seq<string>, key: string, value: string)
    requires ReadOptions(args).Some?
    ensures ReadOptions(args + [key, value]) == Some(ReadOptions(args).value[key := value])
  {
    var more := args + [key, value];
    assert more[..|more| - 2] == args;
  }

  lemma NoKeys(options: map<string, string>)
    ensures SetOptions(options, KeySet([])) == map[]
  {
  }

  lemma SetOptionsSnoc(options: map<string, string>, init: seq<string>, key: string)
    ensures SetOptions(options, KeySet(init + [key])) ==
            if Field(options, key) != "" then SetOptions(options, KeySet(init))[key := Field(options, key)]
            else SetOptions(options, KeySet(init))
  {
    assert KeySet(init + [key]) == KeySet(init) + {key};
    hide KeySet;
  }

  lemma {:induction false} OptionsRead(options: map<string, string>, keys: seq<string>)
    ensures ReadOptions(OptionArgs(options, keys)) == Some(SetOptions(options, KeySet(keys)))
  {
    hide SetOptions;
    hide Field;
    if keys == [] {
      NoKeys(options);
    } else {
      var init, key := keys[..|keys| - 1], keys[|keys| - 1];
      assert keys == init + [key];
      OptionsRead(options, init);
      SetOptionsSnoc(options, init, key);
      if Field(options, key) != "" {
        ReadSnoc(OptionArgs(options, init), key, Field(options, key));
      } else {
        assert OptionArgs(options, keys) == OptionArgs(options, init);
      }
    }
  }

  // ----- the device made is the device asked for

  lemma ModeIsKind(t: Tunnel)
    requires t.kind in {GreKind, IpIp, Sit, SixToFour, Ip6Gre, Ip6Tnl, Vti, IpsecVti}
    ensures KindOfMode(IpTunnelMode(t.kind)) == Some(KernelKind(t.kind))
  {
  }

  lemma TypesAreKinds()
    ensures KindOfType("gretap") == Some(GreTap) && KindOfType("erspan") == Some(Erspan) && KindOfType("vxlan") == Some(Vxlan)
  {
  }

  lemma ReadAdded(what: string, name: string, keyword: string, text: string, more: seq<string>, v6: bool,
                  kindOf: string -> Option<TunnelKind>)
    requires kindOf(text).Some? && ReadOptions(more).Some?
    ensures ReadWords([what, "add", name, keyword, text] + more, what, keyword, v6, kindOf) ==
            Some(Device(kindOf(text).value, v6, name, ReadOptions(more).value))
  {
    var args := [what, "add", name, keyword, text] + more;
    assert args[5..] == more;
  }

  lemma IpTunnelRead(t: Tunnel)
    requires t.kind in {GreKind, IpIp, Sit, SixToFour, Ip6Gre, Ip6Tnl, Vti, IpsecVti}
    ensures ReadDevice(t.interfaceName, IpTunnelSpec(t)) == Some(Asked(t))
  {
    assert KeySet(IP_TUNNEL_OPTIONS) == {"local", "remote", "ttl", "key", "dev"};
    hide KeySet;
    hide SetOptions;
    hide IpTunnelMode;
    hide OptionArgs;
    hide KindOfMode;
    hide KernelKind;
    hide ReadOptions;
    hide ReadWords;
    var more := OptionArgs(t.options, IP_TUNNEL_OPTIONS);
    ModeIsKind(t);
    OptionsRead(t.options, IP_TUNNEL_OPTIONS);
    ReadAdded("tunnel", t.interfaceName, "mode", IpTunnelMode(t.kind), more, t.kind == Ip6Gre || t.kind == Ip6Tnl, KindOfMode);
  }

  lemma LinkTunnelRead(t: Tunnel, text: string, keys: seq<string>)
    requires KindOfType(text) == Some(t.kind) && KeySet(keys) == OptionKeys(t.kind)
    ensures ReadDevice(t.interfaceName, LinkTunnelSpec(t, text, keys)) == Some(Asked(t))
  {
    var more := OptionArgs(t.options, keys);
    OptionsRead(t.options, keys);
    ReadAdded("link", t.interfaceName, "type", text, more, false, KindOfType);
  }

  lemma NoOptions(t: Tunnel)
    requires OptionKeys(t.kind) == {}
    ensures SetOptions(t.options, OptionKeys(t.kind)) == map[]
  {
  }

  lemma PlainDeviceRead(t: Tunnel)
    requires t.kind == TunKind || t.kind == WireGuard
    ensures ReadDevice(t.interfaceName, if t.kind == TunKind then TunDevice else WireGuardLink) == Some(Asked(t))
  {
    NoOptions(t);
  }

  lemma HasDeviceIff(t: Tunnel)
    ensures KernelSpec(t).Some? <==> HasDevice(t)
  {
  }

  /** The plan creates a device for exactly the tunnels that have one, and it is the device the tunnel asks for. */
  lemma {:induction false} DeviceIsAsked(t: Tunnel)
    ensures KernelSpec(t).Some? <==> HasDevice(t)
    ensures KernelSpec(t).Some? ==> ReadDevice(t.interfaceName, KernelSpec(t).value) == Some(Asked(t))
  {
    HasDeviceIff(t);
    TypesAreKinds();
    assert KeySet(LINK_TUNNEL_OPTIONS) == {"local", "remote", "key", "dev"};
    assert KeySet(VXLAN_OPTIONS) == {"id", "remote", "local", "dev", "dstport"};
    hide HasDevice;
    hide KeySet;
    hide KindOfType;
    hide Asked;
    hide ReadDevice;
    hide IpTunnelSpec;
    hide LinkTunnelSpec;
    match t.kind {
      case GreKind | IpIp | Sit | SixToFour | Ip6Gre | Ip6Tnl | Vti | IpsecVti => IpTunnelRead(t);
      case GreTap => LinkTunnelRead(t, "gretap", LINK_TUNNEL_OPTIONS);
      case Erspan => LinkTunnelRead(t, "erspan", LINK_TUNNEL_OPTIONS);
      case Vxlan => LinkTunnelRead(t, "vxlan", VXLAN_OPTIONS);
      case TunKind | WireGuard => PlainDeviceRead(t);
      case _ =>
    }
  }

  // ----- who configures the device

  /** Tunnels whose own service configures their device. */
  predicate HasService(t: Tunnel) {
    || t.kind in {OpenVpn, OpenConnect, AnyConnect, GlobalProtect, PulseSecure, FortigateSsl, FortinetSsl,
                  Pptp, Sstp, Pppoe, Vless, Vmess, VlessXhttp, Xhttp, Xray, SingBox, Tailscale, ZeroTier}
    || (t.kind == Custom && "service" in t.options && t.options["service"] != "")
  }

  lemma AddressesBringNothingUp(name: string, addresses: seq<Addresses.Cidr>, st: Step)
    requires st in AddressSteps(name, addresses)
    ensures exists a | a in addresses :: st == ReplaceAddress(name, a)
  {
    if st in AddressSteps(name, addresses[..|addresses| - 1]) {
      AddressesBringNothingUp(name, addresses[..|addresses| - 1], st);
    }
  }

  lemma {:induction false} AddressesAssigned(name: string, addresses: seq<Addresses.Cidr>)
    ensures forall a | a in addresses :: ReplaceAddress(name, a) in AddressSteps(name, addresses)
  {
    if addresses != [] {
      var init, last := addresses[..|addresses| - 1], addresses[|addresses| - 1];
      assert addresses == init + [last];
      AddressesAssigned(name, init);
    }
  }

  lemma ServiceManagedIs(t: Tunnel)
    ensures ServiceManaged(t) <==> HasService(t)
  {
  }

  lemma Configures(t: Tunnel, st: Step)
    ensures st in ConfigureSteps(t) <==>
            && !HasService(t)
            && (|| (t.mtu > 0 && st == SetMtu(t.interfaceName, t.mtu))
                || st == SetUp(t.interfaceName)
                || exists a | a in t.localAddresses :: st == ReplaceAddress(t.interfaceName, a))
  {
    ServiceManagedIs(t);
    hide ServiceManaged;
    hide HasService;
    var name := t.interfaceName;
    AddressesAssigned(name, t.localAddresses);
    if st in AddressSteps(name, t.localAddresses) {
      AddressesBringNothingUp(name, t.localAddresses, st);
    }
    hide AddressSteps;
    var mtu: seq<Step> := if t.mtu > 0 then [SetMtu(name, t.mtu)] else [];
    assert !ServiceManaged(t) ==> ConfigureSteps(t) == mtu + [SetUp(name)] + AddressSteps(name, t.localAddresses);
  }

  /**
   What an enabled, named tunnel does to links, addresses and routes: its device is made as asked;
   unless a service configures it, it gets its MTU, is brought up and gets its addresses; and it
   becomes the default of its table, if it has one.
   */
  lemma {:induction false} TunnelConfigures(t: Tunnel, st: Step)
    requires t.enabled && t.interfaceName != ""
    ensures st in TunnelSteps(t) <==>
            || (HasDevice(t) && st.EnsureLink? && st.name == t.interfaceName && KernelSpec(t) == Some(st.spec))
            || (!HasService(t) && t.mtu > 0 && st == SetMtu(t.interfaceName, t.mtu))
            || (!HasService(t) && st == SetUp(t.interfaceName))
            || (!HasService(t) && exists a | a in t.localAddresses :: st == ReplaceAddress(t.interfaceName, a))
            || (t.table > 0 && st == ReplaceRoute(RouteKey(Addresses.V4, t.table, Dest(0, 0), 0),
                                                  [Nexthop(NoGateway, t.interfaceName, 1)]))
  {
    DeviceIsAsked(t);
    Configures(t, st);
    hide KernelSpec;
    hide HasDevice;
    hide HasService;
    hide ConfigureSteps;
    assert st in TunnelSteps(t) <==> st in DeviceSteps(t) || st in ConfigureSteps(t) || st in TunnelRouteSteps(t);
  }

  /** In a successful plan a tunnel that shares its name with no other ends as the device it asks for, up and with its MTU. */
  lemma {:induction false} OwnDevice(c: Config, s: State, t: State, k: nat)
    requires Run(s, PlanSteps(c)) == Some(t) && k < |c.tunnels|
    requires c.tunnels[k].enabled && c.tunnels[k].interfaceName != "" && HasDevice(c.tunnels[k])
    requires OwnName(c, k) && c.tunnels[k].interfaceName !in s.links
    ensures var tun := c.tunnels[k];
            && tun.interfaceName in t.links
            && ReadDevice(tun.interfaceName, t.links[tun.interfaceName].spec) == Some(Asked(tun))
            && t.links[tun.interfaceName].up
            && t.links[tun.interfaceName].mtu == if tun.mtu > 0 then tun.mtu else 0
  {
    hide Run;
    hide PlanSteps;
    hide OwnName;
    DeviceIsAsked(c.tunnels[k]);
    hide KernelSpec;
    hide ReadDevice;
    hide Asked;
    OwnTunnelReady(c, s, t, k);
  }
}
