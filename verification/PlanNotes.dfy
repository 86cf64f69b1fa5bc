/** What the emitted plan tells the operator and which services it enables, in terms of the configuration. */
module PlanNotes {
  import opened Basics
  import Addresses
  import opened Config
  import Kernel
  import opened RuleOrder
  import opened Numerals
  import opened RoutingPlan
  import opened RoutingCommands
  import opened CommandMeaning
  import opened TunnelCommands
  import E = Execution

  // ----- reading the steps

  /** The service that a step enables, if it does. */
  function Enabled(x: E.Step): Option<string> {
    if x.command.Some? && x.command.value.program == "systemctl" && |x.command.value.args| == 3 &&
       x.command.value.args[0] == "enable" && x.command.value.args[1] == "--now"
    then Some(x.command.value.args[2]) else None
  }

  predicate Starts(xs: seq<E.Step>, service: string) {
    exists x | x in xs :: Enabled(x) == Some(service)
  }

  /** The step loads a WireGuard configuration into a device. */
  predicate Loads(x: E.Step, name: string, file: string) {
    x.command == Some(E.Command("wg", ["setconf", name, file]))
  }

  predicate LoadsSome(xs: seq<E.Step>, name: string, file: string) {
    exists x | x in xs :: Loads(x, name, file)
  }

  predicate Warned(xs: seq<E.Step>) {
    exists x | x in xs :: x.kind == E.IsWarning
  }

  // ----- what a tunnel asks for

  /** Tunnels whose steps are written by the profile generator of a service. */
  predicate HasProfile(t: Tunnel) {
    t.kind in {OpenVpn, OpenConnect, AnyConnect, GlobalProtect, PulseSecure, FortigateSsl, FortinetSsl,
               Vless, Vmess, VlessXhttp, Xhttp, Xray, SingBox}
  }

  predicate SetOption(t: Tunnel, key: string) {
    key in t.options && t.options[key] != ""
  }

  /** The services a tunnel needs. */
  predicate Needs(t: Tunnel, service: string) {
    match t.kind
    case Ipsec => service == "strongswan"
    case L2tp | L2tpIpsec => service == "strongswan" || service == "xl2tpd"
    case Pptp | Sstp | Pppoe => service == if SetOption(t, "service") then t.options["service"] else "ppp@" + t.id
    case Tailscale => service == "tailscale"
    case ZeroTier => service == "zerotier-one"
    case Custom => SetOption(t, "service") && service == t.options["service"]
    case _ => false
  }

  /** What a tunnel's own device branch warns about. */
  predicate Doubtful(t: Tunnel) {
    || t.kind in {Eoip, L2tpV3, Ipsec, L2tp, L2tpIpsec, Pptp, Sstp, Pppoe, Tailscale, ZeroTier}
    || (t.kind == Custom && !SetOption(t, "service"))
    || (t.kind == WireGuard && !("configFile" in t.credentials && t.credentials["configFile"] != ""))
    || (t.kind == Vxlan && !SetOption(t, "id"))
  }

  /** A service configures the device, and the tunnel asks for an MTU or addresses of its own. */
  predicate Unheeded(t: Tunnel) {
    && (|| t.kind in {Pptp, Sstp, Pppoe, Tailscale, ZeroTier}
        || HasProfile(t)
        || (t.kind == Custom && SetOption(t, "service")))
    && (t.mtu > 0 || t.localAddresses != [])
  }

  // ----- the device branch

  lemma NoStart(description: string, program: string, args: seq<string>, service: string)
    requires program != "systemctl"
    ensures !Starts([Runs(description, program, args)], service) && !Warned([Runs(description, program, args)])
  {
  }

  lemma OneStart(description: string, it: string, service: string)
    ensures Starts([Enables(description, it)], service) <==> it == service
    ensures !Warned([Enables(description, it)])
  {
    var x := Enables(description, it);
    assert x in [x] && ["enable", "--now", it][2] == it;
  }

  lemma NoteConcat(a: seq<E.Step>, b: seq<E.Step>, service: string)
    ensures Starts(a + b, service) <==> Starts(a, service) || Starts(b, service)
    ensures Warned(a + b) <==> Warned(a) || Warned(b)
  {
    forall x ensures x in a + b <==> x in a || x in b {}
  }

  lemma NoNotes(service: string)
    ensures !Starts([], service) && !Warned([])
  {
  }

  lemma OneWarning(text: string, service: string)
    ensures Warned([Warns(text)]) && !Starts([Warns(text)], service)
  {
    assert Warns(text) in [Warns(text)];
  }

  lemma EnsureIsQuiet(description: string, t: Tunnel, spec: Kernel.LinkSpec, service: string)
    ensures !Starts([Ensures(description, t.interfaceName, spec)], service)
    ensures !Warned([Ensures(description, t.interfaceName, spec)])
  {
    assert "sh"[1] == 'h' && "systemctl"[1] == 'y';
  }

  lemma ServiceTexts()
    ensures KindText(Tailscale) == "tailscale" && "strongswan" != "xl2tpd"
  {
    assert "strongswan"[0] == 's' && "xl2tpd"[0] == 'x';
  }

  lemma FieldIsSet(t: Tunnel, key: string)
    ensures Field(t.options, key) != "" <==> SetOption(t, key)
    ensures SetOption(t, key) ==> Field(t.options, key) == t.options[key]
  {
  }

  lemma WireGuardNotes(t: Tunnel, service: string)
    requires t.kind == WireGuard
    ensures !Starts(WireGuardCommands(t), service)
    ensures Warned(WireGuardCommands(t)) <==> !("configFile" in t.credentials && t.credentials["configFile"] != "")
  {
    var file := Field(t.credentials, "configFile");
    if file == "" {
      OneWarning("wireguard tunnel " + t.id + " has no credentials.configFile", service);
    } else {
      var make := Ensures("ensure WireGuard interface " + t.interfaceName, t.interfaceName, Kernel.WireGuardLink);
      var load := Runs("load WireGuard config for " + t.id, "wg", ["setconf", t.interfaceName, file]);
      EnsureIsQuiet("ensure WireGuard interface " + t.interfaceName, t, Kernel.WireGuardLink, service);
      assert "wg"[0] == 'w' && "systemctl"[0] == 's';
      NoStart("load WireGuard config for " + t.id, "wg", ["setconf", t.interfaceName, file], service);
      NoteConcat([make], [load], service);
      assert WireGuardCommands(t) == [make] + [load];
    }
  }

  /** A WireGuard tunnel with a configuration file loads that file into its device, and nothing else. */
  lemma {:induction false} WireGuardLoads(t: Tunnel, name: string, file: string)
    requires t.kind == WireGuard
    ensures LoadsSome(WireGuardCommands(t), name, file) <==>
            file != "" && "configFile" in t.credentials && t.credentials["configFile"] == file && name == t.interfaceName
  {
    var own := Field(t.credentials, "configFile");
    if own != "" {
      var make := Ensures("ensure WireGuard interface " + t.interfaceName, t.interfaceName, Kernel.WireGuardLink);
      var load := Runs("load WireGuard config for " + t.id, "wg", ["setconf", t.interfaceName, own]);
      assert "wg"[0] == 'w' && "sh"[0] == 's';
      assert WireGuardCommands(t) == [make, load];
      assert !Loads(make, name, file);
      assert ["setconf", name, file][1] == name && ["setconf", name, file][2] == file;
      assert ["setconf", t.interfaceName, own][1] == t.interfaceName && ["setconf", t.interfaceName, own][2] == own;
      assert Loads(load, name, file) <==> name == t.interfaceName && file == own;
      assert load in WireGuardCommands(t);
    }
  }

  lemma IpsecNotes(t: Tunnel, service: string)
    requires t.kind in {Ipsec, L2tp, L2tpIpsec}
    ensures Starts(IpsecCommands(t), service) <==> Needs(t, service)
    ensures Warned(IpsecCommands(t))
  {
    hide IpsecText;
    var warn, a := Warns(IpsecText(t.id)), Enables("enable strongSwan", "strongswan");
    var more: seq<E.Step> := if t.kind == L2tp || t.kind == L2tpIpsec then [Enables("enable xl2tpd", "xl2tpd")] else [];
    OneWarning(IpsecText(t.id), service);
    OneStart("enable strongSwan", "strongswan", service);
    OneStart("enable xl2tpd", "xl2tpd", service);
    NoNotes(service);
    hide Starts;
    hide Warned;
    NoteConcat([warn], [a], service);
    NoteConcat([warn] + [a], more, service);
    assert IpsecCommands(t) == [warn] + [a] + more;
  }

  lemma WarnAndStart(text: string, description: string, it: string, service: string)
    ensures Starts([Warns(text), Enables(description, it)], service) <==> it == service
    ensures Warned([Warns(text), Enables(description, it)])
  {
    OneWarning(text, service);
    OneStart(description, it, service);
    NoteConcat([Warns(text)], [Enables(description, it)], service);
    assert [Warns(text), Enables(description, it)] == [Warns(text)] + [Enables(description, it)];
  }

  lemma VxlanNotes(t: Tunnel, service: string)
    requires t.kind == Vxlan
    ensures !Starts(VxlanCommands(t), service)
    ensures Warned(VxlanCommands(t)) <==> !SetOption(t, "id")
  {
    FieldIsSet(t, "id");
    var text := "vxlan tunnel " + t.id + " has no options.id";
    var warn: seq<E.Step> := if Field(t.options, "id") == "" then [Warns(text)] else [];
    OneWarning(text, service);
    NoNotes(service);
    EnsureIsQuiet("ensure vxlan link " + t.interfaceName, t, LinkTunnelSpec(t, "vxlan", VXLAN_OPTIONS), service);
    NoteConcat(warn, [Ensures("ensure vxlan link " + t.interfaceName, t.interfaceName, LinkTunnelSpec(t, "vxlan", VXLAN_OPTIONS))],
               service);
  }

  lemma ServiceKindNotes(t: Tunnel, profiles: Profiles, service: string)
    requires t.kind in {Pptp, Sstp, Pppoe, Tailscale, ZeroTier, Custom}
    ensures Starts(DeviceCommands(t, profiles), service) <==> Needs(t, service)
    ensures Warned(DeviceCommands(t, profiles)) <==> Doubtful(t)
  {
    FieldIsSet(t, "service");
    ServiceTexts();
    hide KindText;
    hide PppText;
    hide MeshText;
    hide Starts;
    hide Warned;
    if t.kind == Custom {
      var it := Field(t.options, "service");
      OneWarning("custom tunnel " + t.id + " has no options.service", service);
      OneStart("enable custom tunnel service " + it, it, service);
    } else if t.kind in {Tailscale, ZeroTier} {
      WarnAndStart(MeshText(t), "enable " + MeshService(t) + " service", MeshService(t), service);
    } else {
      WarnAndStart(PppText(t), "enable PPP tunnel service " + PppService(t), PppService(t), service);
    }
  }

  lemma KernelKindNotes(t: Tunnel, profiles: Profiles, service: string)
    requires t.kind in {TunKind, GreKind, IpIp, Sit, SixToFour, Ip6Gre, Ip6Tnl, Vti, IpsecVti, GreTap, Erspan, Eoip, L2tpV3}
    ensures !Starts(DeviceCommands(t, profiles), service)
    ensures Warned(DeviceCommands(t, profiles)) <==> t.kind == Eoip || t.kind == L2tpV3
  {
    hide Starts;
    hide Warned;
    hide Ensures;
    hide Warns;
    hide EoipText;
    hide L2tpText;
    hide KindText;
    hide IpTunnelSpec;
    hide LinkTunnelSpec;
    if t.kind == TunKind {
      EnsureIsQuiet("ensure TUN device " + t.interfaceName, t, Kernel.TunDevice, service);
    } else if t.kind == Eoip {
      OneWarning(EoipText(t.id), service);
    } else if t.kind == L2tpV3 {
      OneWarning(L2tpText(t.id), service);
    } else if t.kind == GreTap || t.kind == Erspan {
      EnsureIsQuiet("ensure " + KindText(t.kind) + " link " + t.interfaceName, t,
                    LinkTunnelSpec(t, KindText(t.kind), LINK_TUNNEL_OPTIONS), service);
    } else {
      EnsureIsQuiet("ensure " + KindText(t.kind) + " tunnel " + t.interfaceName, t, IpTunnelSpec(t), service);
    }
  }

  /** The branch says what the tunnel's kind says. */
  predicate BranchFits(t: Tunnel, profiles: Profiles, service: string) {
    && (Starts(DeviceCommands(t, profiles), service) <==> Needs(t, service))
    && (Warned(DeviceCommands(t, profiles)) <==> Doubtful(t))
  }

  lemma WireGuardFits(t: Tunnel, profiles: Profiles, service: string)
    requires t.kind == WireGuard
    ensures BranchFits(t, profiles, service)
  {
    hide Starts;
    hide Warned;
    hide WireGuardCommands;
    WireGuardNotes(t, service);
  }

  lemma VxlanFits(t: Tunnel, profiles: Profiles, service: string)
    requires t.kind == Vxlan
    ensures BranchFits(t, profiles, service)
  {
    hide Starts;
    hide Warned;
    hide VxlanCommands;
    VxlanNotes(t, service);
  }

  lemma IpsecFits(t: Tunnel, profiles: Profiles, service: string)
    requires t.kind in {Ipsec, L2tp, L2tpIpsec}
    ensures BranchFits(t, profiles, service)
  {
    hide Starts;
    hide Warned;
    hide IpsecCommands;
    IpsecNotes(t, service);
  }

  lemma ServiceFits(t: Tunnel, profiles: Profiles, service: string)
    requires t.kind in {Pptp, Sstp, Pppoe, Tailscale, ZeroTier, Custom}
    ensures BranchFits(t, profiles, service)
  {
    hide Starts;
    hide Warned;
    hide DeviceCommands;
    hide Needs;
    hide Doubtful;
    ServiceKindNotes(t, profiles, service);
  }

  lemma KernelKindFits(t: Tunnel, profiles: Profiles, service: string)
    requires t.kind in {TunKind, GreKind, IpIp, Sit, SixToFour, Ip6Gre, Ip6Tnl, Vti, IpsecVti, GreTap, Erspan, Eoip, L2tpV3}
    ensures BranchFits(t, profiles, service)
  {
    hide Starts;
    hide Warned;
    hide DeviceCommands;
    KernelKindNotes(t, profiles, service);
  }

  lemma OtherFits(t: Tunnel, profiles: Profiles, service: string)
    requires t.kind.OtherTunnel?
    ensures BranchFits(t, profiles, service)
  {
    hide Starts;
    hide Warned;
    NoNotes(service);
  }

  lemma ProfileBranch(t: Tunnel, profiles: Profiles)
    requires HasProfile(t)
    ensures DeviceCommands(t, profiles) == profiles(t)
  {
  }

  /** A tunnel's own branch of the plan enables the services the tunnel needs, and warns when the tunnel is doubtful. */
  lemma {:induction false} DeviceNotes(t: Tunnel, profiles: Profiles, service: string)
    ensures HasProfile(t) ==> DeviceCommands(t, profiles) == profiles(t)
    ensures !HasProfile(t) ==> BranchFits(t, profiles, service)
  {
    hide BranchFits;
    hide DeviceCommands;
    if HasProfile(t) {
      ProfileBranch(t, profiles);
    } else if t.kind == WireGuard {
      WireGuardFits(t, profiles, service);
    } else if t.kind == Vxlan {
      VxlanFits(t, profiles, service);
    } else if t.kind in {Ipsec, L2tp, L2tpIpsec} {
      IpsecFits(t, profiles, service);
    } else if t.kind in {Pptp, Sstp, Pppoe, Tailscale, ZeroTier, Custom} {
      ServiceFits(t, profiles, service);
    } else if t.kind.OtherTunnel? {
      OtherFits(t, profiles, service);
    } else {
      KernelKindFits(t, profiles, service);
    }
  }

  // ----- whole tunnels, groups and plans

  lemma {:induction false} AddressesAreQuiet(name: string, addresses: seq<Addresses.Cidr>, sp: Spelling, service: string)
    ensures !Starts(AddressCommands(name, addresses, sp), service) && !Warned(AddressCommands(name, addresses, sp))
  {
    NoNotes(service);
    if addresses != [] {
      var init, text := addresses[..|addresses| - 1], sp.dest(addresses[|addresses| - 1]);
      AddressesAreQuiet(name, init, sp, service);
      assert "ip"[0] == 'i' && "systemctl"[0] == 's';
      NoStart("assign " + text + " to " + name, "ip", ["address", "replace", text, "dev", name], service);
      NoteConcat(AddressCommands(name, init, sp),
                 [Runs("assign " + text + " to " + name, "ip", ["address", "replace", text, "dev", name])], service);
    }
  }

  lemma ServiceKinds(t: Tunnel)
    ensures ServiceManaged(t) <==>
            || t.kind in {Pptp, Sstp, Pppoe, Tailscale, ZeroTier}
            || HasProfile(t)
            || (t.kind == Custom && SetOption(t, "service"))
  {
  }

  lemma ConfigureNotes(t: Tunnel, sp: Spelling, service: string)
    ensures !Starts(ConfigureCommands(t, sp), service)
    ensures Warned(ConfigureCommands(t, sp)) <==> Unheeded(t)
  {
    FieldIsSet(t, "service");
    assert "ip"[0] == 'i' && "systemctl"[0] == 's';
    var name := t.interfaceName;
    NoStart("set mtu for " + name, "ip", ["link", "set", "dev", name, "mtu", IntText(t.mtu)], service);
    NoStart("bring up tunnel " + name, "ip", ["link", "set", "dev", name, "up"], service);
    OneWarning(ManagedText(t.id), service);
    NoNotes(service);
    AddressesAreQuiet(name, t.localAddresses, sp, service);
    hide Starts;
    hide Warned;
    hide ManagedText;
    hide AddressCommands;
    hide IntText;
    var mtu: seq<E.Step> := if t.mtu > 0 then [MtuCommand(t)] else [];
    NoteConcat(mtu, [UpCommand(t)], service);
    NoteConcat(mtu + [UpCommand(t)], AddressCommands(name, t.localAddresses, sp), service);
    ServiceKinds(t);
    hide ServiceManaged;
    hide HasProfile;
    if !ServiceManaged(t) {
      assert ConfigureCommands(t, sp) == mtu + [UpCommand(t)] + AddressCommands(name, t.localAddresses, sp);
    }
  }

  /** The tunnel makes the plan warn. */
  predicate TunnelWarns(t: Tunnel, profiles: Profiles) {
    t.enabled && (t.interfaceName == "" || (if HasProfile(t) then Warned(profiles(t)) else Doubtful(t)) || Unheeded(t))
  }

  /** The tunnel makes the plan enable the service. */
  predicate TunnelStarts(t: Tunnel, profiles: Profiles, service: string) {
    t.enabled && t.interfaceName != "" && if HasProfile(t) then Starts(profiles(t), service) else Needs(t, service)
  }

  lemma RouteIsQuiet(t: Tunnel, service: string)
    ensures !Starts([TunnelRouteCommand(t)], service) && !Warned([TunnelRouteCommand(t)])
  {
    assert "ip"[0] == 'i' && "systemctl"[0] == 's';
    NoStart("route tunnel table " + IntText(t.table), "ip",
            ["route", "replace", "default", "dev", t.interfaceName, "table", IntText(t.table)], service);
  }

  lemma TunnelNotes(t: Tunnel, sp: Spelling, profiles: Profiles, service: string)
    ensures Starts(OneTunnelCommands(t, sp, profiles), service) <==> TunnelStarts(t, profiles, service)
    ensures Warned(OneTunnelCommands(t, sp, profiles)) <==> TunnelWarns(t, profiles)
  {
    NoNotes(service);
    OneWarning(NoNameText(t.id), service);
    DeviceNotes(t, profiles, service);
    ConfigureNotes(t, sp, service);
    RouteIsQuiet(t, service);
    hide Starts;
    hide Warned;
    hide DeviceCommands;
    hide ConfigureCommands;
    hide TunnelRouteCommand;
    hide HasProfile;
    hide Needs;
    hide Doubtful;
    hide Unheeded;
    var route: seq<E.Step> := if t.table > 0 then [TunnelRouteCommand(t)] else [];
    NoteConcat(DeviceCommands(t, profiles), ConfigureCommands(t, sp), service);
    NoteConcat(DeviceCommands(t, profiles) + ConfigureCommands(t, sp), route, service);
  }

  lemma {:induction false} TunnelsNotes(ts: seq<Tunnel>, sp: Spelling, profiles: Profiles, service: string)
    ensures Starts(AllTunnelCommands(ts, sp, profiles), service) <==> exists t | t in ts :: TunnelStarts(t, profiles, service)
    ensures Warned(AllTunnelCommands(ts, sp, profiles)) <==> exists t | t in ts :: TunnelWarns(t, profiles)
  {
    NoNotes(service);
    hide Starts;
    hide Warned;
    hide TunnelStarts;
    hide TunnelWarns;
    hide OneTunnelCommands;
    if ts != [] {
      var init, last := ts[..|ts| - 1], ts[|ts| - 1];
      assert ts == init + [last];
      TunnelsNotes(init, sp, profiles, service);
      TunnelNotes(last, sp, profiles, service);
      NoteConcat(AllTunnelCommands(init, sp, profiles), OneTunnelCommands(last, sp, profiles), service);
      forall t ensures t in ts <==> t in init || t == last {}
    }
  }

  lemma {:induction false} MembersAreQuiet(id: string, table: int, ms: seq<WanMember>, sp: Spelling, service: string)
    ensures !Starts(MemberCommands(id, table, ms, sp), service) && !Warned(MemberCommands(id, table, ms, sp))
  {
    NoNotes(service);
    hide MemberArgs;
    if ms != [] {
      var init, m := ms[..|ms| - 1], ms[|ms| - 1];
      MembersAreQuiet(id, table, init, sp, service);
      assert "ip"[0] == 'i' && "systemctl"[0] == 's';
      NoStart("install failover WAN member " + id + "/" + m.iface, "ip", MemberArgs(table, m, sp), service);
      NoteConcat(MemberCommands(id, table, init, sp),
                 [Runs("install failover WAN member " + id + "/" + m.iface, "ip", MemberArgs(table, m, sp))], service);
    }
  }

  lemma GroupNotes(g: WanGroup, sp: Spelling, service: string)
    ensures !Starts(GroupCommands(g, sp), service)
    ensures Warned(GroupCommands(g, sp)) <==> g.table == 0
  {
    OneWarning(NoTableWarning(g.id), service);
    MembersAreQuiet(g.id, g.table, g.members, sp, service);
    assert "ip"[0] == 'i' && "systemctl"[0] == 's';
    NoStart("install weighted WAN group " + g.id, "ip", EcmpArgs(g, sp), service);
    hide Starts;
    hide Warned;
    hide EcmpArgs;
    hide MemberCommands;
    hide NoTableWarning;
  }

  lemma {:induction false} GroupsNotes(gs: seq<WanGroup>, sp: Spelling, service: string)
    ensures !Starts(AllGroupCommands(gs, sp), service)
    ensures Warned(AllGroupCommands(gs, sp)) <==> exists g | g in gs :: g.enabled && g.table == 0
  {
    NoNotes(service);
    hide Starts;
    hide Warned;
    hide GroupCommands;
    if gs != [] {
      var init, last := gs[..|gs| - 1], gs[|gs| - 1];
      assert gs == init + [last];
      GroupsNotes(init, sp, service);
      GroupNotes(last, sp, service);
      NoteConcat(AllGroupCommands(init, sp), if last.enabled then GroupCommands(last, sp) else [], service);
      forall g ensures g in gs <==> g in init || g == last {}
    }
  }

  lemma {:induction false} StaticsAreQuiet(rs: seq<StaticRoute>, sp: Spelling, service: string)
    ensures !Starts(StaticCommands(rs, sp), service) && !Warned(StaticCommands(rs, sp))
  {
    NoNotes(service);
    hide StaticArgs;
    if rs != [] {
      var init, r := rs[..|rs| - 1], rs[|rs| - 1];
      StaticsAreQuiet(init, sp, service);
      assert "ip"[0] == 'i' && "systemctl"[0] == 's';
      NoStart("add static route " + sp.dest(r.destination), "ip", StaticArgs(r, sp), service);
      NoteConcat(StaticCommands(init, sp), [Runs("add static route " + sp.dest(r.destination), "ip", StaticArgs(r, sp))], service);
    }
  }

  lemma RuleIsQuiet(r: RouteRule, c: Config, service: string)
    ensures !Starts([RuleCommand(r, c)], service) && !Warned([RuleCommand(r, c)])
  {
    assert "sh"[1] == 'h' && "systemctl"[1] == 'y';
  }

  lemma {:induction false} RulesAreQuiet(rules: seq<RouteRule>, c: Config, service: string)
    ensures !Starts(RuleCommands(rules, c), service) && !Warned(RuleCommands(rules, c))
  {
    NoNotes(service);
    hide RuleRoute;
    if rules != [] {
      var init, r := rules[..|rules| - 1], rules[|rules| - 1];
      RulesAreQuiet(init, c, service);
      assert "sh"[1] == 'h' && "systemctl"[1] == 'y';
      RuleIsQuiet(r, c, service);
      hide RuleCommand;
      NoteConcat(RuleCommands(init, c), if Routed(r, c) then [RuleCommand(r, c)] else [], service);
    }
  }

  /**
   The tunnel and routing plan warns exactly for a tunnel that deserves it and for an enabled group
   without a table, and enables exactly the services that some enabled, named tunnel needs.
   */
  lemma {:induction false} PlanNotesIff(c: Config, sp: Spelling, profiles: Profiles, service: string)
    ensures Warned(PlanCommands(c, sp, profiles)) <==>
            (exists t | t in c.tunnels :: TunnelWarns(t, profiles)) ||
            (exists g | g in c.routing.wanGroups :: g.enabled && g.table == 0)
    ensures Starts(PlanCommands(c, sp, profiles), service) <==> exists t | t in c.tunnels :: TunnelStarts(t, profiles, service)
  {
    var rules := StableSort(c.routing.rules);
    TunnelsNotes(c.tunnels, sp, profiles, service);
    GroupsNotes(c.routing.wanGroups, sp, service);
    StaticsAreQuiet(c.routing.staticRoutes, sp, service);
    RulesAreQuiet(rules, c, service);
    hide Starts;
    hide Warned;
    hide TunnelStarts;
    hide TunnelWarns;
    hide AllTunnelCommands;
    hide AllGroupCommands;
    hide StaticCommands;
    hide RuleCommands;
    hide StableSort;
    var a, b, d, e := AllTunnelCommands(c.tunnels, sp, profiles), AllGroupCommands(c.routing.wanGroups, sp),
                      StaticCommands(c.routing.staticRoutes, sp), RuleCommands(rules, c);
    NoteConcat(b, d, service);
    NoteConcat(b + d, e, service);
    NoteConcat(a, b + d + e, service);
  }
}
