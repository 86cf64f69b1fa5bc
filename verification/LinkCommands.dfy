/** The commands of the link section: bonds, bridges, VLANs and VRFs, scripts and direct commands in order. */
module LinkCommands {
  import opened Basics
  import opened Addresses
  import opened Config
  import opened Numerals
  import opened ShellWords
  import opened Scripts
  import opened Templates
  import opened CommandMeaning
  import opened RoutingCommands
  import opened TunnelCommands
  import V = Validation
  import E = Execution

  // ----- the planned steps

  function Scripted(description: string, s: Script): E.Step {
    Runs(description, "sh", ["-c", Text(s)])
  }

  function LinkSet(description: string, name: string, words: seq<string>): E.Step {
    Runs(description, "ip", ["link", "set", "dev", name] + words)
  }

  /** `set mtu` for a kind of link, when an MTU is configured. */
  function MtuCommands(kind: string, name: string, mtu: int): seq<E.Step> {
    if mtu > 0 then [LinkSet("set mtu for " + kind + " " + name, name, ["mtu", IntText(mtu)])] else []
  }

  function BringUp(kind: string, name: string): E.Step {
    LinkSet("bring up " + kind + " " + name, name, ["up"])
  }

  function LoadBonding(): E.Step {
    Runs("load bonding module", "modprobe", ["bonding"])
  }

  function EnslaveCommands(bond: string, members: seq<string>): seq<E.Step> {
    if members == [] then [] else
      var m := members[|members| - 1];
      EnslaveCommands(bond, members[..|members| - 1]) + [Scripted("enslave " + m + " to " + bond, EnslaveScript(bond, m))]
  }

  function BondCommands(b: Bond): seq<E.Step> {
    [LoadBonding(), Scripted("ensure bond " + b.name, BondScript(b))] +
    MtuCommands("bond", b.name, b.mtu) + EnslaveCommands(b.name, b.members) + [BringUp("bond", b.name)]
  }

  function AllBondCommands(bs: seq<Bond>): seq<E.Step> {
    if bs == [] then [] else AllBondCommands(bs[..|bs| - 1]) + BondCommands(bs[|bs| - 1])
  }

  function BridgeMemberCommands(bridge: string, members: seq<string>): seq<E.Step> {
    if members == [] then [] else
      var m := members[|members| - 1];
      BridgeMemberCommands(bridge, members[..|members| - 1]) +
      [Scripted("add bridge member " + m, BridgeMemberScript(bridge, m))]
  }

  function FilteringCommands(b: Bridge): seq<E.Step> {
    if b.vlanAware
    then [LinkSet("enable vlan-aware bridge " + b.name, b.name, ["type", "bridge", "vlan_filtering", "1"])]
    else []
  }

  function BridgeCommands(b: Bridge): seq<E.Step> {
    [Scripted("ensure bridge " + b.name, BridgeScript(b)),
     LinkSet("set bridge stp " + b.name, b.name, ["type", "bridge", "stp_state", if b.stp then "1" else "0"])] +
    FilteringCommands(b) + BridgeMemberCommands(b.name, b.members) + [BringUp("bridge", b.name)]
  }

  function AllBridgeCommands(bs: seq<Bridge>): seq<E.Step> {
    if bs == [] then [] else AllBridgeCommands(bs[..|bs| - 1]) + BridgeCommands(bs[|bs| - 1])
  }

  function VlanCommands(v: Vlan, sp: Spelling): seq<E.Step> {
    [Scripted("ensure vlan " + v.name, VlanScript(v))] + MtuCommands("vlan", v.name, v.mtu) +
    AddressCommands(v.name, v.ips, sp) + [BringUp("vlan", v.name)]
  }

  function AllVlanCommands(vs: seq<Vlan>, sp: Spelling): seq<E.Step> {
    if vs == [] then [] else AllVlanCommands(vs[..|vs| - 1], sp) + VlanCommands(vs[|vs| - 1], sp)
  }

  function AttachCommands(vrf: string, ifaces: seq<string>): seq<E.Step> {
    if ifaces == [] then [] else
      var i := ifaces[|ifaces| - 1];
      AttachCommands(vrf, ifaces[..|ifaces| - 1]) + [LinkSet("attach " + i + " to vrf " + vrf, i, ["master", vrf])]
  }

  function VrfCommands(v: Vrf): seq<E.Step> {
    [Scripted("ensure vrf " + v.name, VrfScript(v)), BringUp("vrf", v.name)] + AttachCommands(v.name, v.interfaces)
  }

  function AllVrfCommands(vs: seq<Vrf>): seq<E.Step> {
    if vs == [] then [] else AllVrfCommands(vs[..|vs| - 1]) + VrfCommands(vs[|vs| - 1])
  }

  function LinkCommandSteps(p: Platform, sp: Spelling): seq<E.Step> {
    AllBondCommands(p.bonds) + AllBridgeCommands(p.bridges) + AllVlanCommands(p.vlans, sp) + AllVrfCommands(p.vrfs)
  }

  // ----- emitting

  method AddScript(plan: E.Plan, description: string, s: Script)
    requires plan.Valid()
    modifies plan
    ensures plan.Valid() && plan.steps == old(plan.steps) + [Scripted(description, s)]
  {
    plan.AddCommand(description, "sh", ["-c", Text(s)]);
  }

  method AddLinkSet(plan: E.Plan, description: string, name: string, words: seq<string>)
    requires plan.Valid()
    modifies plan
    ensures plan.Valid() && plan.steps == old(plan.steps) + [LinkSet(description, name, words)]
  {
    plan.AddCommand(description, "ip", ["link", "set", "dev", name] + words);
  }

  method AddMtu(plan: E.Plan, kind: string, name: string, mtu: int)
    requires plan.Valid()
    modifies plan
    ensures plan.Valid() && plan.steps == old(plan.steps) + MtuCommands(kind, name, mtu)
  {
    hide LinkSet;
    if mtu > 0 {
      AddLinkSet(plan, "set mtu for " + kind + " " + name, name, ["mtu", IntText(mtu)]);
    }
  }

  method AddUp(plan: E.Plan, kind: string, name: string)
    requires plan.Valid()
    modifies plan
    ensures plan.Valid() && plan.steps == old(plan.steps) + [BringUp(kind, name)]
  {
    AddLinkSet(plan, "bring up " + kind + " " + name, name, ["up"]);
  }

  method AddBond(plan: E.Plan, b: Bond)
    requires plan.Valid()
    modifies plan
    ensures plan.Valid() && plan.steps == old(plan.steps) + BondCommands(b)
  {
    hide E.WellBuilt;
    hide Scripted;
    hide LinkSet;
    hide BringUp;
    hide BondScript;
    hide MtuCommands;
    ghost var start := plan.steps;
    plan.AddCommand("load bonding module", "modprobe", ["bonding"]);
    AddScript(plan, "ensure bond " + b.name, BondScript(b));
    AddMtu(plan, "bond", b.name, b.mtu);
    ghost var front := plan.steps;
    var members := b.members;
    for k := 0 to |members|
      invariant plan.Valid() && plan.steps == front + EnslaveCommands(b.name, members[..k])
    {
      assert members[..k + 1][..k] == members[..k];
      AddScript(plan, "enslave " + members[k] + " to " + b.name, EnslaveScript(b.name, members[k]));
    }
    assert members[..|members|] == members;
    AddUp(plan, "bond", b.name);
    assert plan.steps == start + BondCommands(b);
  }

  method AddBridgeMembers(plan: E.Plan, bridge: string, members: seq<string>)
    requires plan.Valid()
    modifies plan
    ensures plan.Valid() && plan.steps == old(plan.steps) + BridgeMemberCommands(bridge, members)
  {
    hide E.WellBuilt;
    hide Scripted;
    for k := 0 to |members|
      invariant plan.Valid() && plan.steps == old(plan.steps) + BridgeMemberCommands(bridge, members[..k])
    {
      assert members[..k + 1][..k] == members[..k];
      AddScript(plan, "add bridge member " + members[k], BridgeMemberScript(bridge, members[k]));
    }
    assert members[..|members|] == members;
  }

  method AddBridge(plan: E.Plan, b: Bridge)
    requires plan.Valid()
    modifies plan
    ensures plan.Valid() && plan.steps == old(plan.steps) + BridgeCommands(b)
  {
    hide E.WellBuilt;
    hide Scripted;
    hide LinkSet;
    hide BringUp;
    hide BridgeScript;
    hide BridgeMemberCommands;
    AddScript(plan, "ensure bridge " + b.name, BridgeScript(b));
    var stp := "0";
    if b.stp {
      stp := "1";
    }
    AddLinkSet(plan, "set bridge stp " + b.name, b.name, ["type", "bridge", "stp_state", stp]);
    if b.vlanAware {
      AddLinkSet(plan, "enable vlan-aware bridge " + b.name, b.name, ["type", "bridge", "vlan_filtering", "1"]);
    }
    AddBridgeMembers(plan, b.name, b.members);
    AddUp(plan, "bridge", b.name);
  }

  method AddVlan(plan: E.Plan, v: Vlan, sp: Spelling)
    requires plan.Valid()
    modifies plan
    ensures plan.Valid() && plan.steps == old(plan.steps) + VlanCommands(v, sp)
  {
    hide E.WellBuilt;
    hide Scripted;
    hide LinkSet;
    hide BringUp;
    hide VlanScript;
    hide MtuCommands;
    hide AddressCommands;
    ghost var start := plan.steps;
    AddScript(plan, "ensure vlan " + v.name, VlanScript(v));
    AddMtu(plan, "vlan", v.name, v.mtu);
    AddAddresses(plan, v.name, v.ips, sp);
    AddUp(plan, "vlan", v.name);
    assert plan.steps == start + VlanCommands(v, sp);
  }

  method AddVrf(plan: E.Plan, v: Vrf)
    requires plan.Valid()
    modifies plan
    ensures plan.Valid() && plan.steps == old(plan.steps) + VrfCommands(v)
  {
    hide E.WellBuilt;
    hide Scripted;
    hide LinkSet;
    hide BringUp;
    hide VrfScript;
    AddScript(plan, "ensure vrf " + v.name, VrfScript(v));
    AddUp(plan, "vrf", v.name);
    ghost var front := plan.steps;
    var ifaces := v.interfaces;
    for k := 0 to |ifaces|
      invariant plan.Valid() && plan.steps == front + AttachCommands(v.name, ifaces[..k])
    {
      assert ifaces[..k + 1][..k] == ifaces[..k];
      AddLinkSet(plan, "attach " + ifaces[k] + " to vrf " + v.name, ifaces[k], ["master", v.name]);
    }
    assert ifaces[..|ifaces|] == ifaces;
  }

  method AddBonds(plan: E.Plan, bonds: seq<Bond>)
    requires plan.Valid()
    modifies plan
    ensures plan.Valid() && plan.steps == old(plan.steps) + AllBondCommands(bonds)
  {
    hide E.WellBuilt;
    hide BondCommands;
    for i := 0 to |bonds|
      invariant plan.Valid() && plan.steps == old(plan.steps) + AllBondCommands(bonds[..i])
    {
      assert bonds[..i + 1][..i] == bonds[..i];
      AddBond(plan, bonds[i]);
    }
    assert bonds[..|bonds|] == bonds;
  }

  method AddBridges(plan: E.Plan, bridges: seq<Bridge>)
    requires plan.Valid()
    modifies plan
    ensures plan.Valid() && plan.steps == old(plan.steps) + AllBridgeCommands(bridges)
  {
    hide E.WellBuilt;
    hide BridgeCommands;
    for i := 0 to |bridges|
      invariant plan.Valid() && plan.steps == old(plan.steps) + AllBridgeCommands(bridges[..i])
    {
      assert bridges[..i + 1][..i] == bridges[..i];
      AddBridge(plan, bridges[i]);
    }
    assert bridges[..|bridges|] == bridges;
  }

  method AddVlans(plan: E.Plan, vlans: seq<Vlan>, sp: Spelling)
    requires plan.Valid()
    modifies plan
    ensures plan.Valid() && plan.steps == old(plan.steps) + AllVlanCommands(vlans, sp)
  {
    hide E.WellBuilt;
    hide VlanCommands;
    for i := 0 to |vlans|
      invariant plan.Valid() && plan.steps == old(plan.steps) + AllVlanCommands(vlans[..i], sp)
    {
      assert vlans[..i + 1][..i] == vlans[..i];
      AddVlan(plan, vlans[i], sp);
    }
    assert vlans[..|vlans|] == vlans;
  }

  method AddVrfs(plan: E.Plan, vrfs: seq<Vrf>)
    requires plan.Valid()
    modifies plan
    ensures plan.Valid() && plan.steps == old(plan.steps) + AllVrfCommands(vrfs)
  {
    hide E.WellBuilt;
    hide VrfCommands;
    for i := 0 to |vrfs|
      invariant plan.Valid() && plan.steps == old(plan.steps) + AllVrfCommands(vrfs[..i])
    {
      assert vrfs[..i + 1][..i] == vrfs[..i];
      AddVrf(plan, vrfs[i]);
    }
    assert vrfs[..|vrfs|] == vrfs;
  }

  method AddLinks(plan: E.Plan, p: Platform, sp: Spelling)
    requires plan.Valid()
    modifies plan
    ensures plan.Valid() && plan.steps == old(plan.steps) + LinkCommandSteps(p, sp)
  {
    hide E.WellBuilt;
    hide AllBondCommands;
    hide AllBridgeCommands;
    hide AllVlanCommands;
    hide AllVrfCommands;
    AddBonds(plan, p.bonds);
    AddBridges(plan, p.bridges);
    AddVlans(plan, p.vlans, sp);
    AddVrfs(plan, p.vrfs);
  }

  // ----- the scripts among the commands

  /** The text a step hands to a shell, if it does. */
  function ShellText(x: E.Step): Option<string> {
    if x.command.Some? && x.command.value.program == "sh" && |x.command.value.args| == 2
    then Some(x.command.value.args[1]) else None
  }

  /** The texts handed to a shell, in order. */
  function ShellTexts(xs: seq<E.Step>): seq<string> {
    if xs == [] then [] else
      var last := ShellText(xs[|xs| - 1]);
      ShellTexts(xs[..|xs| - 1]) + (if last.Some? then [last.value] else [])
  }

  function ScriptTexts(ss: seq<Script>): seq<string> {
    seq(|ss|, i requires 0 <= i < |ss| => Text(ss[i]))
  }

  lemma ScriptTextsSnoc(front: seq<Script>, one: Script, more: seq<Script>)
    ensures ScriptTexts(front + [one] + more) == ScriptTexts(front) + ([Text(one)] + ScriptTexts(more))
  {
    hide Text;
  }

  lemma {:induction false} TextsConcat(a: seq<E.Step>, b: seq<E.Step>)
    ensures ShellTexts(a + b) == ShellTexts(a) + ShellTexts(b)
    decreases |b|
  {
    if b == [] {
      assert a + b == a && ShellTexts(a) + [] == ShellTexts(a);
    } else {
      assert (a + b)[..|a + b| - 1] == a + b[..|b| - 1];
      TextsConcat(a, b[..|b| - 1]);
    }
  }

  lemma NoTexts()
    ensures ShellTexts([]) == []
  {
  }

  lemma OneText(description: string, s: Script)
    ensures ShellTexts([Scripted(description, s)]) == [Text(s)]
  {
    assert [Scripted(description, s)][..0] == [];
    assert ["-c", Text(s)][1] == Text(s);
  }

  lemma OneQuiet(x: E.Step)
    requires ShellText(x) == None
    ensures ShellTexts([x]) == []
  {
    assert [x][..0] == [];
  }

  lemma LinkSetIsQuiet(description: string, name: string, words: seq<string>)
    ensures ShellTexts([LinkSet(description, name, words)]) == []
  {
    assert "ip"[0] == 'i' && "sh"[0] == 's';
    OneQuiet(LinkSet(description, name, words));
  }

  lemma MtuIsQuiet(kind: string, name: string, mtu: int)
    ensures ShellTexts(MtuCommands(kind, name, mtu)) == []
  {
    NoTexts();
    LinkSetIsQuiet("set mtu for " + kind + " " + name, name, ["mtu", IntText(mtu)]);
  }

  lemma UpIsQuiet(kind: string, name: string)
    ensures ShellTexts([BringUp(kind, name)]) == []
  {
    LinkSetIsQuiet("bring up " + kind + " " + name, name, ["up"]);
  }

  lemma {:induction false} EnslaveTexts(bond: string, members: seq<string>)
    ensures ShellTexts(EnslaveCommands(bond, members)) == ScriptTexts(EnslaveScripts(bond, members))
  {
    hide EnslaveScript;
    hide Text;
    if members != [] {
      var init, m := members[..|members| - 1], members[|members| - 1];
      var x := Scripted("enslave " + m + " to " + bond, EnslaveScript(bond, m));
      EnslaveTexts(bond, init);
      OneText("enslave " + m + " to " + bond, EnslaveScript(bond, m));
      hide Scripted;
      TextsConcat(EnslaveCommands(bond, init), [x]);
    }
  }

  lemma {:induction false} BridgeMemberTexts(bridge: string, members: seq<string>)
    ensures ShellTexts(BridgeMemberCommands(bridge, members)) == ScriptTexts(BridgeMemberScripts(bridge, members))
  {
    hide BridgeMemberScript;
    hide Text;
    if members != [] {
      var init, m := members[..|members| - 1], members[|members| - 1];
      var x := Scripted("add bridge member " + m, BridgeMemberScript(bridge, m));
      BridgeMemberTexts(bridge, init);
      OneText("add bridge member " + m, BridgeMemberScript(bridge, m));
      hide Scripted;
      TextsConcat(BridgeMemberCommands(bridge, init), [x]);
    }
  }

  lemma LoadIsQuiet()
    ensures ShellTexts([LoadBonding()]) == []
  {
    assert "modprobe"[0] == 'm' && "sh"[0] == 's';
    OneQuiet(LoadBonding());
  }

  lemma BondTexts(b: Bond)
    ensures ShellTexts(BondCommands(b)) == [Text(BondScript(b))] + ScriptTexts(EnslaveScripts(b.name, b.members))
  {
    hide Text;
    hide BondScript;
    hide Runs;
    var load, make := LoadBonding(), Scripted("ensure bond " + b.name, BondScript(b));
    var mtu, members, up := MtuCommands("bond", b.name, b.mtu), EnslaveCommands(b.name, b.members), BringUp("bond", b.name);
    LoadIsQuiet();
    OneText("ensure bond " + b.name, BondScript(b));
    MtuIsQuiet("bond", b.name, b.mtu);
    EnslaveTexts(b.name, b.members);
    UpIsQuiet("bond", b.name);
    hide BringUp;
    hide ScriptTexts;
    hide EnslaveScripts;
    hide LoadBonding;
    hide ShellTexts;
    hide Runs;
    hide Scripted;
    hide MtuCommands;
    hide EnslaveCommands;
    assert BondCommands(b) == [load] + ([make] + (mtu + (members + [up])));
    TextsConcat([load], [make] + (mtu + (members + [up])));
    TextsConcat([make], mtu + (members + [up]));
    TextsConcat(mtu, members + [up]);
    TextsConcat(members, [up]);
  }

  lemma FilteringIsQuiet(b: Bridge)
    ensures ShellTexts(FilteringCommands(b)) == []
  {
    NoTexts();
    LinkSetIsQuiet("enable vlan-aware bridge " + b.name, b.name, ["type", "bridge", "vlan_filtering", "1"]);
  }

  lemma BridgeTexts(b: Bridge)
    ensures ShellTexts(BridgeCommands(b)) == [Text(BridgeScript(b))] + ScriptTexts(BridgeMemberScripts(b.name, b.members))
  {
    hide Text;
    hide BridgeScript;
    var make := Scripted("ensure bridge " + b.name, BridgeScript(b));
    var stp := LinkSet("set bridge stp " + b.name, b.name, ["type", "bridge", "stp_state", if b.stp then "1" else "0"]);
    var aware, members, up := FilteringCommands(b), BridgeMemberCommands(b.name, b.members), BringUp("bridge", b.name);
    OneText("ensure bridge " + b.name, BridgeScript(b));
    LinkSetIsQuiet("set bridge stp " + b.name, b.name, ["type", "bridge", "stp_state", if b.stp then "1" else "0"]);
    FilteringIsQuiet(b);
    BridgeMemberTexts(b.name, b.members);
    UpIsQuiet("bridge", b.name);
    hide BringUp;
    hide FilteringCommands;
    hide ScriptTexts;
    hide BridgeMemberScripts;
    hide ShellTexts;
    hide Scripted;
    hide LinkSet;
    hide BridgeMemberCommands;
    assert BridgeCommands(b) == [make] + ([stp] + (aware + (members + [up])));
    TextsConcat([make], [stp] + (aware + (members + [up])));
    TextsConcat([stp], aware + (members + [up]));
    TextsConcat(aware, members + [up]);
    TextsConcat(members, [up]);
  }

  lemma {:induction false} AddressesAreQuiet(name: string, addresses: seq<Cidr>, sp: Spelling)
    ensures ShellTexts(AddressCommands(name, addresses, sp)) == []
  {
    if addresses != [] {
      var init, text := addresses[..|addresses| - 1], sp.dest(addresses[|addresses| - 1]);
      var x := Runs("assign " + text + " to " + name, "ip", ["address", "replace", text, "dev", name]);
      AddressesAreQuiet(name, init, sp);
      assert "ip"[0] == 'i' && "sh"[0] == 's';
      OneQuiet(x);
      TextsConcat(AddressCommands(name, init, sp), [x]);
    }
  }

  lemma VlanTexts(v: Vlan, sp: Spelling)
    ensures ShellTexts(VlanCommands(v, sp)) == [Text(VlanScript(v))]
  {
    hide Text;
    hide VlanScript;
    var make, up := Scripted("ensure vlan " + v.name, VlanScript(v)), BringUp("vlan", v.name);
    var mtu, ips := MtuCommands("vlan", v.name, v.mtu), AddressCommands(v.name, v.ips, sp);
    OneText("ensure vlan " + v.name, VlanScript(v));
    MtuIsQuiet("vlan", v.name, v.mtu);
    AddressesAreQuiet(v.name, v.ips, sp);
    UpIsQuiet("vlan", v.name);
    hide BringUp;
    hide ShellTexts;
    hide Scripted;
    hide MtuCommands;
    hide AddressCommands;
    assert VlanCommands(v, sp) == [make] + (mtu + (ips + [up]));
    TextsConcat([make], mtu + (ips + [up]));
    TextsConcat(mtu, ips + [up]);
    TextsConcat(ips, [up]);
  }

  lemma {:induction false} AttachIsQuiet(vrf: string, ifaces: seq<string>)
    ensures ShellTexts(AttachCommands(vrf, ifaces)) == []
  {
    if ifaces != [] {
      var init, i := ifaces[..|ifaces| - 1], ifaces[|ifaces| - 1];
      AttachIsQuiet(vrf, init);
      LinkSetIsQuiet("attach " + i + " to vrf " + vrf, i, ["master", vrf]);
      hide LinkSet;
      TextsConcat(AttachCommands(vrf, init), [LinkSet("attach " + i + " to vrf " + vrf, i, ["master", vrf])]);
    }
  }

  lemma VrfTexts(v: Vrf)
    ensures ShellTexts(VrfCommands(v)) == [Text(VrfScript(v))]
  {
    hide Text;
    hide VrfScript;
    var make, up := Scripted("ensure vrf " + v.name, VrfScript(v)), BringUp("vrf", v.name);
    var attach := AttachCommands(v.name, v.interfaces);
    OneText("ensure vrf " + v.name, VrfScript(v));
    UpIsQuiet("vrf", v.name);
    AttachIsQuiet(v.name, v.interfaces);
    hide BringUp;
    hide ShellTexts;
    hide Scripted;
    hide AttachCommands;
    assert VrfCommands(v) == [make] + ([up] + attach);
    TextsConcat([make], [up] + attach);
    TextsConcat([up], attach);
  }

  lemma {:induction false} AllBondTexts(bs: seq<Bond>)
    ensures ShellTexts(AllBondCommands(bs)) == ScriptTexts(BondScripts(bs))
  {
    hide Text;
    hide BondScript;
    if bs != [] {
      var init, b := bs[..|bs| - 1], bs[|bs| - 1];
      AllBondTexts(init);
      BondTexts(b);
      hide ShellTexts;
      hide BondCommands;
      TextsConcat(AllBondCommands(init), BondCommands(b));
      ScriptTextsSnoc(BondScripts(init), BondScript(b), EnslaveScripts(b.name, b.members));
      hide ScriptTexts;
    }
  }

  lemma {:induction false} AllBridgeTexts(bs: seq<Bridge>)
    ensures ShellTexts(AllBridgeCommands(bs)) == ScriptTexts(BridgeScripts(bs))
  {
    hide Text;
    hide BridgeScript;
    if bs != [] {
      var init, b := bs[..|bs| - 1], bs[|bs| - 1];
      AllBridgeTexts(init);
      BridgeTexts(b);
      hide ShellTexts;
      hide BridgeCommands;
      TextsConcat(AllBridgeCommands(init), BridgeCommands(b));
      ScriptTextsSnoc(BridgeScripts(init), BridgeScript(b), BridgeMemberScripts(b.name, b.members));
      hide ScriptTexts;
    }
  }

  lemma {:induction false} AllVlanTexts(vs: seq<Vlan>, sp: Spelling)
    ensures ShellTexts(AllVlanCommands(vs, sp)) == ScriptTexts(VlanScripts(vs))
  {
    if vs != [] {
      var init, v := vs[..|vs| - 1], vs[|vs| - 1];
      hide Text;
      hide VlanScript;
      AllVlanTexts(init, sp);
      VlanTexts(v, sp);
      hide ShellTexts;
      hide VlanCommands;
      TextsConcat(AllVlanCommands(init, sp), VlanCommands(v, sp));
      ScriptTextsSnoc(VlanScripts(init), VlanScript(v), []);
      assert VlanScripts(init) + [VlanScript(v)] + [] == VlanScripts(vs) && ScriptTexts([]) == [];
      hide ScriptTexts;
    }
  }

  lemma {:induction false} AllVrfTexts(vs: seq<Vrf>)
    ensures ShellTexts(AllVrfCommands(vs)) == ScriptTexts(VrfScripts(vs))
  {
    if vs != [] {
      var init, v := vs[..|vs| - 1], vs[|vs| - 1];
      hide Text;
      hide VrfScript;
      AllVrfTexts(init);
      VrfTexts(v);
      hide ShellTexts;
      hide VrfCommands;
      TextsConcat(AllVrfCommands(init), VrfCommands(v));
      ScriptTextsSnoc(VrfScripts(init), VrfScript(v), []);
      assert VrfScripts(init) + [VrfScript(v)] + [] == VrfScripts(vs) && ScriptTexts([]) == [];
      hide ScriptTexts;
    }
  }

  /** What the emitted link commands hand to a shell is the list of link scripts, in order. */
  lemma {:induction false} EmittedScripts(p: Platform, sp: Spelling)
    ensures ShellTexts(LinkCommandSteps(p, sp)) == ScriptTexts(LinkScripts(p))
  {
    hide Text;
    AllBondTexts(p.bonds);
    AllBridgeTexts(p.bridges);
    AllVlanTexts(p.vlans, sp);
    AllVrfTexts(p.vrfs);
    hide ShellTexts;
    hide AllBondCommands;
    hide AllBridgeCommands;
    hide AllVlanCommands;
    hide AllVrfCommands;
    hide BondScripts;
    hide BridgeScripts;
    hide VlanScripts;
    hide VrfScripts;
    var a, b := AllBondCommands(p.bonds), AllBridgeCommands(p.bridges);
    var d, e := AllVlanCommands(p.vlans, sp), AllVrfCommands(p.vrfs);
    TextsConcat(a + b + d, e);
    TextsConcat(a + b, d);
    TextsConcat(a, b);
  }

  /** In a validated configuration the shell reads each emitted link script as its template with the names as single words. */
  lemma {:induction false} EmittedScriptsAreRead(c: Config, sp: Spelling, i: nat)
    requires V.ValidConfig(c) && i < |LinkScripts(c.platform)|
    ensures |ShellTexts(LinkCommandSteps(c.platform, sp))| == |LinkScripts(c.platform)|
    ensures Tokenise(ShellTexts(LinkCommandSteps(c.platform, sp))[i]) == Tokens(TokensOf(LinkScripts(c.platform)[i]))
  {
    hide V.ValidConfig;
    hide LinkScripts;
    hide LinkCommandSteps;
    hide Text;
    hide Tokenise;
    EmittedScripts(c.platform, sp);
    LinkScriptsAreRead(c, LinkScripts(c.platform)[i]);
  }
}
