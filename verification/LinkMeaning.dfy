/**
 What the link commands do: scripts and direct commands are read back as steps on bonds,
 bridges, VLANs and VRFs, and running them leaves what the configuration's fields say.
 */
module LinkMeaning {
  import opened Basics
  import opened Addresses
  import opened Config
  import opened Numerals
  import opened ShellWords
  import opened Scripts
  import opened Templates
  import opened StepReadings
  import opened CommandMeaning
  import opened RoutingCommands
  import opened TunnelCommands
  import opened LinkCommands
  import V = Validation
  import E = Execution

  // ----- steps on links

  datatype LinkKind = BondLink(mode: BondMode) | BridgeLink | VlanLink(parent: string, id: int) | VrfLink(table: int)

  datatype LinkStep =
    | Make(name: string, kind: LinkKind)
    | TakeDown(name: string)
    | TakeUp(name: string)
    | Join(name: string, master: string)
    | Resize(name: string, mtu: int)
    | SpanningTree(name: string, on: bool)
    | Filter(name: string)
    | Assign(name: string, address: Cidr)

  // ----- reading scripts

  function ModeOfText(text: string): Option<BondMode> {
    if text == "balance-rr" then Some(BalanceRr)
    else if text == "active-backup" then Some(BondActiveBackup)
    else if text == "balance-xor" then Some(BalanceXor)
    else if text == "broadcast" then Some(Broadcast)
    else if text == "802.3ad" then Some(Lacp)
    else if text == "balance-tlb" then Some(BalanceTlb)
    else if text == "balance-alb" then Some(BalanceAlb)
    else None
  }

  /** The device that an `ip link add` command creates under the name. */
  function ReadAdd(name: string, ws: seq<string>): Option<LinkKind> {
    if |ws| == 8 && ws[..4] == ["ip", "link", "add", name] && ws[4] == "type" && ws[5] == "bond" && ws[6] == "mode" then
      (match ModeOfText(ws[7]) case Some(mode) => Some(BondLink(mode)) case None => None)
    else if |ws| == 8 && ws[..4] == ["ip", "link", "add", name] && ws[4] == "type" && ws[5] == "vrf" && ws[6] == "table" then
      (match ParseInt(ws[7]) case Int(table) => Some(VrfLink(table)) case NotAnInt => None)
    else if ws == ["ip", "link", "add", "name", name, "type", "bridge"] then Some(BridgeLink)
    else if |ws| == 11 && ws[..4] == ["ip", "link", "add", "link"] && ws[5] == "name" && ws[6] == name &&
            ws[7] == "type" && ws[8] == "vlan" && ws[9] == "id" then
      (match ParseInt(ws[10]) case Int(id) => Some(VlanLink(ws[4], id)) case NotAnInt => None)
    else None
  }

  function ReadMake(show: seq<string>, add: seq<string>): Option<LinkStep> {
    if |show| == 5 && show[..4] == ["ip", "link", "show", "dev"] then
      match ReadAdd(show[4], add) case Some(kind) => Some(Make(show[4], kind)) case None => None
    else None
  }

  function ReadSet(ws: seq<string>): Option<LinkStep> {
    if |ws| < 5 || ws[..3] != ["ip", "link", "set"] then None
    else if |ws| == 5 && ws[4] == "down" then Some(TakeDown(ws[3]))
    else if |ws| == 5 && ws[4] == "up" then Some(TakeUp(ws[3]))
    else if |ws| == 6 && ws[4] == "master" then Some(Join(ws[3], ws[5]))
    else None
  }

  function FirstSemicolon(ts: seq<Token>): nat {
    if ts == [] || ts[0] == Op(";") then 0 else 1 + FirstSemicolon(ts[1..])
  }

  lemma SemicolonInRange(ts: seq<Token>)
    ensures FirstSemicolon(ts) <= |ts|
  {
  }

  /** Commands one after the other. */
  function ReadSets(ts: seq<Token>): Option<seq<LinkStep>>
    decreases |ts|
  {
    SemicolonInRange(ts);
    var i := FirstSemicolon(ts);
    if !AllWords(ts[..i]) then None else
      match ReadSet(Texts(ts[..i]))
      case None => None
      case Some(st) =>
        if i == |ts| then Some([st]) else
          match ReadSets(ts[i + 1..]) case None => None case Some(more) => Some([st] + more)
  }

  function ReadScript(ts: seq<Token>): Option<seq<LinkStep>> {
    if |ts| >= 11 && AllWords(ts[..5]) && ts[5..11] == QUIET && AllWords(ts[11..]) then
      match ReadMake(Texts(ts[..5]), Texts(ts[11..])) case Some(st) => Some([st]) case None => None
    else ReadSets(ts)
  }

  // ----- reading commands

  function ReadLinkWords(name: string, words: seq<string>): Option<LinkStep> {
    if words == ["up"] then Some(TakeUp(name))
    else if |words| == 2 && words[0] == "mtu" then
      (match ParseInt(words[1]) case Int(mtu) => Some(Resize(name, mtu)) case NotAnInt => None)
    else if |words| == 2 && words[0] == "master" then Some(Join(name, words[1]))
    else if words == ["type", "bridge", "stp_state", "1"] then Some(SpanningTree(name, true))
    else if words == ["type", "bridge", "stp_state", "0"] then Some(SpanningTree(name, false))
    else if words == ["type", "bridge", "vlan_filtering", "1"] then Some(Filter(name))
    else None
  }

  function ReadDirect(args: seq<string>, sp: Spelling): Option<LinkStep> {
    if |args| >= 4 && args[0] == "link" && args[1] == "set" && args[2] == "dev" then ReadLinkWords(args[3], args[4..])
    else if |args| == 5 && args[0] == "address" && args[1] == "replace" && args[3] == "dev"
    then Some(Assign(args[4], sp.readDest(args[2])))
    else None
  }

  function ReadCommand(x: E.Step, sp: Spelling): Option<seq<LinkStep>> {
    if x.kind != E.RunsCommand || x.command == None then None
    else if x.command.value.program == "modprobe" then Some([])
    else if x.command.value.program == "ip" then
      (match ReadDirect(x.command.value.args, sp) case Some(st) => Some([st]) case None => None)
    else if x.command.value.program == "sh" && |x.command.value.args| == 2 && x.command.value.args[0] == "-c" then
      (match Tokenise(x.command.value.args[1]) case Tokens(ts) => ReadScript(ts) case Unsupported => None)
    else None
  }

  function ReadCommands(xs: seq<E.Step>, sp: Spelling): Option<seq<LinkStep>> {
    if xs == [] then Some([]) else
      match (ReadCommands(xs[..|xs| - 1], sp), ReadCommand(xs[|xs| - 1], sp))
      case (Some(front), Some(last)) => Some(front + last)
      case _ => None
  }

  lemma {:induction false} ReadConcat(a: seq<E.Step>, b: seq<E.Step>, x: seq<LinkStep>, y: seq<LinkStep>, sp: Spelling)
    requires ReadCommands(a, sp) == Some(x) && ReadCommands(b, sp) == Some(y)
    ensures ReadCommands(a + b, sp) == Some(x + y)
    decreases |b|
  {
    hide ReadCommand;
    if b == [] {
      assert a + b == a && x + y == x;
    } else {
      var init, last := b[..|b| - 1], b[|b| - 1];
      var front, more := ReadCommands(init, sp).value, ReadCommand(last, sp).value;
      ReadConcat(a, init, x, front, sp);
      assert (a + b)[..|a + b| - 1] == a + init;
      assert x + (front + more) == (x + front) + more;
    }
  }

  lemma ReadOne(x: E.Step, sp: Spelling)
    requires ReadCommand(x, sp).Some?
    ensures ReadCommands([x], sp) == ReadCommand(x, sp)
  {
    assert [x][..0] == [];
    assert [] + ReadCommand(x, sp).value == ReadCommand(x, sp).value;
  }

  lemma ReadNone(sp: Spelling)
    ensures ReadCommands([], sp) == Some([])
  {
  }

  // ----- the steps a configuration asks for

  function KernelMode(mode: BondMode): BondMode {
    if mode == NoBondMode then Lacp else mode
  }

  function ResizeSteps(name: string, mtu: int): seq<LinkStep> {
    if mtu > 0 then [Resize(name, mtu)] else []
  }

  /** Each member leaves its state, joins the master and comes back, as far as asked. */
  function JoinSteps(master: string, members: seq<string>, down: bool, up: bool): seq<LinkStep> {
    if members == [] then [] else
      var m := members[|members| - 1];
      JoinSteps(master, members[..|members| - 1], down, up) +
      ((if down then [TakeDown(m)] else []) + [Join(m, master)] + (if up then [TakeUp(m)] else []))
  }

  function AssignSteps(name: string, ips: seq<Cidr>): seq<LinkStep> {
    if ips == [] then [] else AssignSteps(name, ips[..|ips| - 1]) + [Assign(name, ips[|ips| - 1])]
  }

  function BondSteps(b: Bond): seq<LinkStep> {
    [Make(b.name, BondLink(KernelMode(b.mode)))] +
    (ResizeSteps(b.name, b.mtu) + (JoinSteps(b.name, b.members, true, true) + [TakeUp(b.name)]))
  }

  function BridgeSteps(b: Bridge): seq<LinkStep> {
    [Make(b.name, BridgeLink), SpanningTree(b.name, b.stp)] +
    ((if b.vlanAware then [Filter(b.name)] else []) + (JoinSteps(b.name, b.members, false, true) + [TakeUp(b.name)]))
  }

  function VlanSteps(v: Vlan): seq<LinkStep> {
    [Make(v.name, VlanLink(v.parent, v.id))] +
    (ResizeSteps(v.name, v.mtu) + (AssignSteps(v.name, v.ips) + [TakeUp(v.name)]))
  }

  function VrfSteps(v: Vrf): seq<LinkStep> {
    [Make(v.name, VrfLink(v.table)), TakeUp(v.name)] + JoinSteps(v.name, v.interfaces, false, false)
  }

  // ----- scripts are read back

  lemma WordsRead(ws: seq<string>)
    ensures AllWords(Words(ws)) && Texts(Words(ws)) == ws
  {
    assert Texts(Words(ws)) == ws;
  }

  lemma {:induction false} NoSemicolon(ws: seq<string>, rest: seq<Token>)
    ensures FirstSemicolon(Words(ws)) == |ws|
    ensures FirstSemicolon(Words(ws) + [Op(";")] + rest) == |ws|
  {
    var ts := Words(ws) + [Op(";")] + rest;
    if ws != [] {
      assert Words(ws)[1..] == Words(ws[1..]);
      assert ts[1..] == Words(ws[1..]) + [Op(";")] + rest;
      NoSemicolon(ws[1..], rest);
    }
  }

  lemma LastSet(ws: seq<string>)
    requires ReadSet(ws).Some?
    ensures ReadSets(Words(ws)) == Some([ReadSet(ws).value])
  {
    WordsRead(ws);
    NoSemicolon(ws, []);
    assert Words(ws)[..|ws|] == Words(ws);
    hide ReadSet;
    hide FirstSemicolon;
    hide AllWords;
    hide Texts;
  }

  lemma NextSet(ws: seq<string>, rest: seq<Token>)
    requires ReadSet(ws).Some? && ReadSets(rest).Some?
    ensures ReadSets(Words(ws) + [Op(";")] + rest) == Some([ReadSet(ws).value] + ReadSets(rest).value)
  {
    WordsRead(ws);
    NoSemicolon(ws, rest);
    var ts := Words(ws) + [Op(";")] + rest;
    assert ts[..|ws|] == Words(ws) && ts[|ws| + 1..] == rest;
    hide ReadSet;
    hide FirstSemicolon;
    hide AllWords;
    hide Texts;
  }

  /** A script of commands one after the other has no device check in front. */
  lemma NoCheck(ws: seq<string>, rest: seq<Token>)
    requires |ws| == 5 || |ws| == 6
    ensures var ts := Words(ws) + [Op(";")] + rest;
            |ts| >= 11 ==> ts[5..11] != QUIET
  {
    var ts := Words(ws) + [Op(";")] + rest;
    if |ts| >= 11 {
      assert ts[5..11][0] == ts[5];
      assert QUIET[0] == Op(">");
      assert |ws| == 5 ==> ts[5] == Op(";");
      assert |ws| == 6 ==> ts[5] == Word(ws[5]);
      assert ";" != ">";
    }
  }

  lemma SetRead(name: string, master: string)
    ensures ReadSet(SetLink(name, ["down"]).ws) == Some(TakeDown(name))
    ensures ReadSet(SetLink(name, ["up"]).ws) == Some(TakeUp(name))
    ensures ReadSet(SetLink(name, ["master", master]).ws) == Some(Join(name, master))
  {
    var a, b, c := SetLink(name, ["down"]).ws, SetLink(name, ["up"]).ws, SetLink(name, ["master", master]).ws;
    assert a[..3] == ["ip", "link", "set"] && b[..3] == ["ip", "link", "set"] && c[..3] == ["ip", "link", "set"];
    assert "up" != "down";
  }

  lemma ThenTokens(c: Cmd, rest: Script)
    ensures TokensOf(Linked(c, Then, rest)) == Words(c.ws) + [Op(";")] + TokensOf(rest)
    ensures TokensOf(One(c)) == Words(c.ws)
  {
  }

  lemma EnslaveRead(bond: string, m: string)
    ensures ReadScript(TokensOf(EnslaveScript(bond, m))) == Some([TakeDown(m), Join(m, bond), TakeUp(m)])
  {
    var a, b, c := SetLink(m, ["down"]).ws, SetLink(m, ["master", bond]).ws, SetLink(m, ["up"]).ws;
    SetRead(m, bond);
    assert |a| == 5 && |b| == 6 && |c| == 5;
    hide SetLink;
    hide ReadSet;
    hide ReadSets;
    LastSet(c);
    NextSet(b, Words(c));
    NextSet(a, Words(b) + [Op(";")] + Words(c));
    NoCheck(a, Words(b) + [Op(";")] + Words(c));
    hide ReadMake;
    var last := One(SetLink(m, ["up"]));
    ThenTokens(SetLink(m, ["up"]), last);
    ThenTokens(SetLink(m, ["master", bond]), last);
    ThenTokens(SetLink(m, ["down"]), Linked(SetLink(m, ["master", bond]), Then, last));
    hide TokensOf;
    assert [TakeDown(m)] + ([Join(m, bond)] + [TakeUp(m)]) == [TakeDown(m), Join(m, bond), TakeUp(m)];
  }

  lemma BridgeMemberRead(bridge: string, m: string)
    ensures ReadScript(TokensOf(BridgeMemberScript(bridge, m))) == Some([Join(m, bridge), TakeUp(m)])
  {
    var b, c := SetLink(m, ["master", bridge]).ws, SetLink(m, ["up"]).ws;
    SetRead(m, bridge);
    assert |b| == 6 && |c| == 5;
    hide SetLink;
    hide ReadSet;
    hide ReadSets;
    LastSet(c);
    NextSet(b, Words(c));
    NoCheck(b, Words(c));
    hide ReadMake;
    var last := One(SetLink(m, ["up"]));
    ThenTokens(SetLink(m, ["up"]), last);
    ThenTokens(SetLink(m, ["master", bridge]), last);
    hide TokensOf;
    assert [Join(m, bridge)] + [TakeUp(m)] == [Join(m, bridge), TakeUp(m)];
  }

  lemma EnsureIsRead(name: string, add: Cmd, kind: LinkKind)
    requires ReadAdd(name, add.ws) == Some(kind)
    ensures ReadScript(TokensOf(EnsureScript(name, add))) == Some([Make(name, kind)])
  {
    var show := ["ip", "link", "show", "dev", name];
    TwoCommands(show, OrQuietly, add.ws);
    assert show[..4] == ["ip", "link", "show", "dev"];
    hide ReadAdd;
    hide ReadSets;
    hide AllWords;
    hide Texts;
  }

  lemma ModeRoundTrip(mode: BondMode)
    requires !mode.OtherBondMode?
    ensures ModeOfText(BondModeText(mode)) == Some(KernelMode(mode))
  {
  }

  lemma BondAddRead(b: Bond)
    requires !b.mode.OtherBondMode?
    ensures ReadAdd(b.name, BondScript(b).rest.cmd.ws) == Some(BondLink(KernelMode(b.mode)))
  {
    ModeRoundTrip(b.mode);
    hide BondModeText;
    hide ModeOfText;
    hide KernelMode;
    var ws := BondScript(b).rest.cmd.ws;
    assert ws[..4] == ["ip", "link", "add", b.name];
  }

  lemma BridgeAddRead(b: Bridge)
    ensures ReadAdd(b.name, BridgeScript(b).rest.cmd.ws) == Some(BridgeLink)
  {
  }

  lemma VlanAddRead(v: Vlan)
    ensures ReadAdd(v.name, VlanScript(v).rest.cmd.ws) == Some(VlanLink(v.parent, v.id))
  {
    IntRoundTrip(v.id);
    hide IntText;
    hide ParseInt;
    var ws := VlanScript(v).rest.cmd.ws;
    assert ws[..4] == ["ip", "link", "add", "link"];
  }

  lemma VrfAddRead(v: Vrf)
    ensures ReadAdd(v.name, VrfScript(v).rest.cmd.ws) == Some(VrfLink(v.table))
  {
    IntRoundTrip(v.table);
    hide IntText;
    hide ParseInt;
    var ws := VrfScript(v).rest.cmd.ws;
    assert ws[..4] == ["ip", "link", "add", v.name];
    assert "vrf" != "bond";
  }

  // ----- commands are read back

  lemma ScriptedRead(description: string, s: Script, steps: seq<LinkStep>, sp: Spelling)
    requires SafeScript(s) && ReadScript(TokensOf(s)) == Some(steps)
    ensures ReadCommands([Scripted(description, s)], sp) == Some(steps)
  {
    ScriptTokens(s);
    hide SafeScript;
    hide ReadScript;
    hide Tokenise;
    hide Text;
    hide TokensOf;
    assert "sh" != "ip" && "sh" != "modprobe";
    assert ["-c", Text(s)][0] == "-c" && ["-c", Text(s)][1] == Text(s);
    ReadOne(Scripted(description, s), sp);
  }

  lemma LinkSetRead(description: string, name: string, words: seq<string>, sp: Spelling)
    requires ReadLinkWords(name, words).Some?
    ensures ReadCommands([LinkSet(description, name, words)], sp) == Some([ReadLinkWords(name, words).value])
  {
    var args := ["link", "set", "dev", name] + words;
    assert args[4..] == words;
    assert "ip" != "modprobe";
    hide ReadLinkWords;
    ReadOne(LinkSet(description, name, words), sp);
  }

  lemma UpIsRead(kind: string, name: string, sp: Spelling)
    ensures ReadCommands([BringUp(kind, name)], sp) == Some([TakeUp(name)])
  {
    LinkSetRead("bring up " + kind + " " + name, name, ["up"], sp);
  }

  lemma MtuIsRead(kind: string, name: string, mtu: int, sp: Spelling)
    ensures ReadCommands(MtuCommands(kind, name, mtu), sp) == Some(ResizeSteps(name, mtu))
  {
    ReadNone(sp);
    IntRoundTrip(mtu);
    hide IntText;
    hide ParseInt;
    var words := ["mtu", IntText(mtu)];
    assert words[0] == "mtu" && words != ["up"];
    assert ReadLinkWords(name, words) == Some(Resize(name, mtu));
    LinkSetRead("set mtu for " + kind + " " + name, name, words, sp);
  }

  lemma LoadIsRead(sp: Spelling)
    ensures ReadCommands([LoadBonding()], sp) == Some([])
  {
    ReadOne(LoadBonding(), sp);
  }

  lemma StpRead(b: Bridge, sp: Spelling)
    ensures var words := ["type", "bridge", "stp_state", if b.stp then "1" else "0"];
            ReadCommands([LinkSet("set bridge stp " + b.name, b.name, words)], sp) == Some([SpanningTree(b.name, b.stp)])
  {
    var words := ["type", "bridge", "stp_state", if b.stp then "1" else "0"];
    assert |words| == 4 && words != ["up"];
    assert "0" != "1";
    assert ReadLinkWords(b.name, words) == Some(SpanningTree(b.name, b.stp)) by {
      if !b.stp {
        assert words[3] == "0" && ["type", "bridge", "stp_state", "1"][3] == "1";
      }
    }
    LinkSetRead("set bridge stp " + b.name, b.name, words, sp);
  }

  lemma FilteringRead(b: Bridge, sp: Spelling)
    ensures ReadCommands(FilteringCommands(b), sp) == Some(if b.vlanAware then [Filter(b.name)] else [])
  {
    ReadNone(sp);
    var words := ["type", "bridge", "vlan_filtering", "1"];
    assert words[2] == "vlan_filtering" && "vlan_filtering" != "stp_state" && |words| == 4;
    assert ["type", "bridge", "stp_state", "1"][2] == "stp_state" == ["type", "bridge", "stp_state", "0"][2];
    assert ReadLinkWords(b.name, words) == Some(Filter(b.name));
    LinkSetRead("enable vlan-aware bridge " + b.name, b.name, words, sp);
  }

  lemma {:induction false} EnslavesRead(bond: string, members: seq<string>, sp: Spelling)
    requires SafeWord(bond) && forall m | m in members :: SafeWord(m)
    ensures ReadCommands(EnslaveCommands(bond, members), sp) == Some(JoinSteps(bond, members, true, true))
  {
    hide SafeWord;
    ReadNone(sp);
    if members != [] {
      var init, m := members[..|members| - 1], members[|members| - 1];
      var text := "enslave " + m + " to " + bond;
      EnslavesRead(bond, init, sp);
      EnslaveIsSafe(bond, m);
      EnslaveRead(bond, m);
      hide EnslaveScript;
      hide SafeScript;
      hide ReadScript;
      ScriptedRead(text, EnslaveScript(bond, m), [TakeDown(m), Join(m, bond), TakeUp(m)], sp);
      hide ReadCommands;
      ReadConcat(EnslaveCommands(bond, init), [Scripted(text, EnslaveScript(bond, m))],
                 JoinSteps(bond, init, true, true), [TakeDown(m), Join(m, bond), TakeUp(m)], sp);
      assert [TakeDown(m)] + [Join(m, bond)] + [TakeUp(m)] == [TakeDown(m), Join(m, bond), TakeUp(m)];
    }
  }

  lemma {:induction false} BridgeMembersRead(bridge: string, members: seq<string>, sp: Spelling)
    requires SafeWord(bridge) && forall m | m in members :: SafeWord(m)
    ensures ReadCommands(BridgeMemberCommands(bridge, members), sp) == Some(JoinSteps(bridge, members, false, true))
  {
    hide SafeWord;
    ReadNone(sp);
    if members != [] {
      var init, m := members[..|members| - 1], members[|members| - 1];
      var text := "add bridge member " + m;
      BridgeMembersRead(bridge, init, sp);
      EnslaveIsSafe(bridge, m);
      BridgeMemberRead(bridge, m);
      hide BridgeMemberScript;
      hide SafeScript;
      hide ReadScript;
      ScriptedRead(text, BridgeMemberScript(bridge, m), [Join(m, bridge), TakeUp(m)], sp);
      hide ReadCommands;
      ReadConcat(BridgeMemberCommands(bridge, init), [Scripted(text, BridgeMemberScript(bridge, m))],
                 JoinSteps(bridge, init, false, true), [Join(m, bridge), TakeUp(m)], sp);
      assert [] + [Join(m, bridge)] + [TakeUp(m)] == [Join(m, bridge), TakeUp(m)];
    }
  }

  lemma {:induction false} AttachesRead(vrf: string, ifaces: seq<string>, sp: Spelling)
    ensures ReadCommands(AttachCommands(vrf, ifaces), sp) == Some(JoinSteps(vrf, ifaces, false, false))
  {
    ReadNone(sp);
    if ifaces != [] {
      var init, i := ifaces[..|ifaces| - 1], ifaces[|ifaces| - 1];
      var text, words := "attach " + i + " to vrf " + vrf, ["master", vrf];
      AttachesRead(vrf, init, sp);
      assert words[0] == "master" && words != ["up"];
      assert ReadLinkWords(i, words) == Some(Join(i, vrf));
      LinkSetRead(text, i, words, sp);
      hide LinkSet;
      hide ReadCommands;
      ReadConcat(AttachCommands(vrf, init), [LinkSet(text, i, words)], JoinSteps(vrf, init, false, false), [Join(i, vrf)], sp);
      assert [] + [Join(i, vrf)] + [] == [Join(i, vrf)];
    }
  }

  lemma AssignRead(name: string, c: Cidr, sp: Spelling)
    requires Consistent(sp) && c.Cidr?
    ensures var text := sp.dest(c);
            ReadCommands([Runs("assign " + text + " to " + name, "ip", ["address", "replace", text, "dev", name])], sp) ==
            Some([Assign(name, c)])
  {
    var text := sp.dest(c);
    assert sp.readDest(text) == c;
    hide Consistent;
    var x := Runs("assign " + text + " to " + name, "ip", ["address", "replace", text, "dev", name]);
    assert "ip" != "modprobe" && "address" != "link";
    ReadOne(x, sp);
  }

  lemma {:induction false} AssignsRead(name: string, ips: seq<Cidr>, sp: Spelling)
    requires Consistent(sp) && forall c | c in ips :: c.Cidr?
    ensures ReadCommands(AddressCommands(name, ips, sp), sp) == Some(AssignSteps(name, ips))
  {
    hide Consistent;
    ReadNone(sp);
    if ips != [] {
      var init, c := ips[..|ips| - 1], ips[|ips| - 1];
      assert c in ips;
      AssignsRead(name, init, sp);
      AssignRead(name, c, sp);
      var text := sp.dest(c);
      var x := Runs("assign " + text + " to " + name, "ip", ["address", "replace", text, "dev", name]);
      hide ReadCommands;
      hide Runs;
      ReadConcat(AddressCommands(name, init, sp), [x], AssignSteps(name, init), [Assign(name, c)], sp);
    }
  }

  /** Four readings behind one another. */
  lemma ReadFour(a: seq<E.Step>, b: seq<E.Step>, c: seq<E.Step>, d: seq<E.Step>,
                 x: seq<LinkStep>, y: seq<LinkStep>, z: seq<LinkStep>, w: seq<LinkStep>, sp: Spelling)
    requires ReadCommands(a, sp) == Some(x) && ReadCommands(b, sp) == Some(y)
    requires ReadCommands(c, sp) == Some(z) && ReadCommands(d, sp) == Some(w)
    ensures ReadCommands(a + (b + (c + d)), sp) == Some(x + (y + (z + w)))
  {
    hide ReadCommands;
    ReadConcat(c, d, z, w, sp);
    ReadConcat(b, c + d, y, z + w, sp);
    ReadConcat(a, b + (c + d), x, y + (z + w), sp);
  }

  lemma MakeBond(b: Bond, known: set<string>, sp: Spelling)
    requires V.BondOk(b, known) && SafeNames(known)
    ensures ReadCommands([Scripted("ensure bond " + b.name, BondScript(b))], sp) ==
            Some([Make(b.name, BondLink(KernelMode(b.mode)))])
    ensures SafeWord(b.name) && forall m | m in b.members :: SafeWord(m)
  {
    BondIsSafe(b, known);
    IdentifierIsSafe(b.name);
    hide SafeWord;
    hide V.IsIdentifier;
    BondAddRead(b);
    hide BondModeText;
    hide ReadAdd;
    hide SafeScript;
    EnsureIsRead(b.name, BondScript(b).rest.cmd, BondLink(KernelMode(b.mode)));
    hide EnsureScript;
    hide KernelMode;
    hide ReadCommands;
    hide Scripted;
    ScriptedRead("ensure bond " + b.name, BondScript(b), [Make(b.name, BondLink(KernelMode(b.mode)))], sp);
  }

  lemma MakeBridge(b: Bridge, known: set<string>, sp: Spelling)
    requires V.BridgeOk(b, known) && SafeNames(known)
    ensures ReadCommands([Scripted("ensure bridge " + b.name, BridgeScript(b))], sp) == Some([Make(b.name, BridgeLink)])
    ensures SafeWord(b.name) && forall m | m in b.members :: SafeWord(m)
  {
    BridgeIsSafe(b, known);
    IdentifierIsSafe(b.name);
    hide SafeWord;
    hide V.IsIdentifier;
    BridgeAddRead(b);
    hide ReadAdd;
    hide SafeScript;
    EnsureIsRead(b.name, BridgeScript(b).rest.cmd, BridgeLink);
    hide EnsureScript;
    hide ReadCommands;
    hide Scripted;
    ScriptedRead("ensure bridge " + b.name, BridgeScript(b), [Make(b.name, BridgeLink)], sp);
  }

  lemma MakeVlan(v: Vlan, known: set<string>, sp: Spelling)
    requires V.VlanOk(v, known) && SafeNames(known)
    ensures ReadCommands([Scripted("ensure vlan " + v.name, VlanScript(v))], sp) == Some([Make(v.name, VlanLink(v.parent, v.id))])
  {
    VlanIsSafe(v, known);
    VlanAddRead(v);
    hide ReadAdd;
    hide SafeScript;
    hide IntText;
    EnsureIsRead(v.name, VlanScript(v).rest.cmd, VlanLink(v.parent, v.id));
    hide EnsureScript;
    hide ReadCommands;
    hide Scripted;
    ScriptedRead("ensure vlan " + v.name, VlanScript(v), [Make(v.name, VlanLink(v.parent, v.id))], sp);
  }

  lemma MakeVrf(v: Vrf, known: set<string>, sp: Spelling)
    requires V.VrfOk(v, known)
    ensures ReadCommands([Scripted("ensure vrf " + v.name, VrfScript(v))], sp) == Some([Make(v.name, VrfLink(v.table))])
  {
    VrfIsSafe(v, known);
    VrfAddRead(v);
    hide ReadAdd;
    hide SafeScript;
    hide IntText;
    EnsureIsRead(v.name, VrfScript(v).rest.cmd, VrfLink(v.table));
    hide EnsureScript;
    hide ReadCommands;
    hide Scripted;
    ScriptedRead("ensure vrf " + v.name, VrfScript(v), [Make(v.name, VrfLink(v.table))], sp);
  }

  /** A bond's commands: made with its mode, resized, each member down, joined and up again, and up. */
  lemma {:induction false} BondRead(b: Bond, known: set<string>, sp: Spelling)
    requires V.BondOk(b, known) && SafeNames(known)
    ensures ReadCommands(BondCommands(b), sp) == Some(BondSteps(b))
  {
    hide ReadCommands;
    hide BondScript;
    hide Scripted;
    hide LoadBonding;
    hide MtuCommands;
    hide ResizeSteps;
    hide EnslaveCommands;
    hide BringUp;
    hide JoinSteps;
    hide SafeWord;
    hide SafeNames;
    hide V.BondOk;
    var make := Scripted("ensure bond " + b.name, BondScript(b));
    var load, mtu, members, up :=
      LoadBonding(), MtuCommands("bond", b.name, b.mtu), EnslaveCommands(b.name, b.members), BringUp("bond", b.name);
    MakeBond(b, known, sp);
    LoadIsRead(sp);
    MtuIsRead("bond", b.name, b.mtu, sp);
    EnslavesRead(b.name, b.members, sp);
    UpIsRead("bond", b.name, sp);
    ReadFour([make], mtu, members, [up], [Make(b.name, BondLink(KernelMode(b.mode)))], ResizeSteps(b.name, b.mtu),
             JoinSteps(b.name, b.members, true, true), [TakeUp(b.name)], sp);
    ReadConcat([load], [make] + (mtu + (members + [up])), [], BondSteps(b), sp);
    assert BondCommands(b) == [load] + ([make] + (mtu + (members + [up])));
    assert [] + BondSteps(b) == BondSteps(b);
  }

  /** A bridge's commands: made, its switches set, each member joined and up, and up. */
  lemma {:induction false} BridgeRead(b: Bridge, known: set<string>, sp: Spelling)
    requires V.BridgeOk(b, known) && SafeNames(known)
    ensures ReadCommands(BridgeCommands(b), sp) == Some(BridgeSteps(b))
  {
    hide ReadCommands;
    hide BridgeScript;
    hide Scripted;
    hide LinkSet;
    hide FilteringCommands;
    hide BridgeMemberCommands;
    hide BringUp;
    hide JoinSteps;
    hide SafeWord;
    hide SafeNames;
    hide V.BridgeOk;
    var make := Scripted("ensure bridge " + b.name, BridgeScript(b));
    var words := ["type", "bridge", "stp_state", if b.stp then "1" else "0"];
    var stp := LinkSet("set bridge stp " + b.name, b.name, words);
    var aware, members, up := FilteringCommands(b), BridgeMemberCommands(b.name, b.members), BringUp("bridge", b.name);
    var filter: seq<LinkStep> := if b.vlanAware then [Filter(b.name)] else [];
    MakeBridge(b, known, sp);
    StpRead(b, sp);
    FilteringRead(b, sp);
    BridgeMembersRead(b.name, b.members, sp);
    UpIsRead("bridge", b.name, sp);
    ReadFour([stp], aware, members, [up], [SpanningTree(b.name, b.stp)], filter,
             JoinSteps(b.name, b.members, false, true), [TakeUp(b.name)], sp);
    ReadConcat([make], [stp] + (aware + (members + [up])), [Make(b.name, BridgeLink)],
               [SpanningTree(b.name, b.stp)] + (filter + (JoinSteps(b.name, b.members, false, true) + [TakeUp(b.name)])), sp);
    assert BridgeCommands(b) == [make] + ([stp] + (aware + (members + [up])));
    assert BridgeSteps(b) ==
           [Make(b.name, BridgeLink)] +
           ([SpanningTree(b.name, b.stp)] + (filter + (JoinSteps(b.name, b.members, false, true) + [TakeUp(b.name)])));
  }

  /** A VLAN's commands: made on its parent with its ID, resized, its addresses assigned, and up. */
  lemma {:induction false} VlanRead(v: Vlan, known: set<string>, sp: Spelling)
    requires V.VlanOk(v, known) && SafeNames(known) && Consistent(sp)
    ensures ReadCommands(VlanCommands(v, sp), sp) == Some(VlanSteps(v))
  {
    hide ReadCommands;
    hide VlanScript;
    hide Scripted;
    hide MtuCommands;
    hide ResizeSteps;
    hide AddressCommands;
    hide AssignSteps;
    hide BringUp;
    hide SafeNames;
    hide Consistent;
    hide V.IsIdentifier;
    var make := Scripted("ensure vlan " + v.name, VlanScript(v));
    var mtu, ips, up := MtuCommands("vlan", v.name, v.mtu), AddressCommands(v.name, v.ips, sp), BringUp("vlan", v.name);
    MakeVlan(v, known, sp);
    MtuIsRead("vlan", v.name, v.mtu, sp);
    AssignsRead(v.name, v.ips, sp);
    UpIsRead("vlan", v.name, sp);
    ReadFour([make], mtu, ips, [up], [Make(v.name, VlanLink(v.parent, v.id))], ResizeSteps(v.name, v.mtu),
             AssignSteps(v.name, v.ips), [TakeUp(v.name)], sp);
    assert VlanCommands(v, sp) == [make] + (mtu + (ips + [up]));
  }

  /** A VRF's commands: made with its table, up, and each interface attached. */
  lemma {:induction false} VrfRead(v: Vrf, known: set<string>, sp: Spelling)
    requires V.VrfOk(v, known)
    ensures ReadCommands(VrfCommands(v), sp) == Some(VrfSteps(v))
  {
    hide ReadCommands;
    hide VrfScript;
    hide Scripted;
    hide BringUp;
    hide AttachCommands;
    hide JoinSteps;
    hide V.VrfOk;
    var make, up := Scripted("ensure vrf " + v.name, VrfScript(v)), BringUp("vrf", v.name);
    var attach := AttachCommands(v.name, v.interfaces);
    var joins := JoinSteps(v.name, v.interfaces, false, false);
    MakeVrf(v, known, sp);
    UpIsRead("vrf", v.name, sp);
    AttachesRead(v.name, v.interfaces, sp);
    ReadConcat([up], attach, [TakeUp(v.name)], joins, sp);
    ReadConcat([make], [up] + attach, [Make(v.name, VrfLink(v.table))], [TakeUp(v.name)] + joins, sp);
    assert VrfCommands(v) == [make] + ([up] + attach);
    assert VrfSteps(v) == [Make(v.name, VrfLink(v.table))] + ([TakeUp(v.name)] + joins);
  }

  // ----- running the steps

  /** A link as the steps leave it; what it was made as is known only for links they make. */
  datatype Port = Port(
    kind: Option<LinkKind>, master: string, up: bool, mtu: int, spanning: bool, filtering: bool, addresses: set<Cidr>)

  type Links = map<string, Port>

  const FRESH_PORT := Port(None, "", false, 0, false, false, {})

  function DoLink(s: Links, st: LinkStep): Option<Links> {
    match st
    case Make(name, kind) => Some(if name in s then s else s[name := FRESH_PORT.(kind := Some(kind))])
    case TakeDown(name) => if name in s then Some(s[name := s[name].(up := false)]) else None
    case TakeUp(name) => if name in s then Some(s[name := s[name].(up := true)]) else None
    case Join(name, master) =>
      if name in s && master in s then Some(s[name := s[name].(master := master)]) else None
    case Resize(name, mtu) => if name in s then Some(s[name := s[name].(mtu := mtu)]) else None
    case SpanningTree(name, on) => if name in s then Some(s[name := s[name].(spanning := on)]) else None
    case Filter(name) => if name in s then Some(s[name := s[name].(filtering := true)]) else None
    case Assign(name, c) =>
      if name in s then Some(s[name := s[name].(addresses := s[name].addresses + {c})]) else None
  }

  function RunLinks(s: Links, steps: seq<LinkStep>): Option<Links> {
    if steps == [] then Some(s) else
      match RunLinks(s, steps[..|steps| - 1])
      case None => None
      case Some(t) => DoLink(t, steps[|steps| - 1])
  }

  lemma {:induction false} RunLinksConcat(s: Links, a: seq<LinkStep>, b: seq<LinkStep>)
    ensures RunLinks(s, a + b) == match RunLinks(s, a) case None => None case Some(t) => RunLinks(t, b)
    decreases |b|
  {
    hide DoLink;
    if b == [] {
      assert a + b == a;
    } else {
      assert (a + b)[..|a + b| - 1] == a + b[..|b| - 1];
      RunLinksConcat(s, a, b[..|b| - 1]);
    }
  }

  lemma RunLink(s: Links, st: LinkStep)
    ensures RunLinks(s, [st]) == DoLink(s, st)
  {
    assert [st][..0] == [];
    assert RunLinks(s, []) == Some(s);
  }

  /** Two states of one link that differ at most in master and state. */
  predicate SameDevice(a: Port, b: Port) {
    a.kind == b.kind && a.mtu == b.mtu && a.spanning == b.spanning && a.filtering == b.filtering && a.addresses == b.addresses
  }

  /** The links are those there were, and differ at most in master and state. */
  predicate SameDevices(s: Links, t: Links) {
    t.Keys == s.Keys && forall n | n in s :: SameDevice(s[n], t[n])
  }

  lemma MaybeDown(s: Links, t: Links, m: string, down: bool)
    requires RunLinks(s, if down then [TakeDown(m)] else []) == Some(t)
    ensures down ==> m in s
    ensures t == if down then s[m := s[m].(up := false)] else s
  {
    RunLink(s, TakeDown(m));
    assert RunLinks(s, []) == Some(s);
  }

  lemma MaybeUp(s: Links, t: Links, m: string, up: bool)
    requires RunLinks(s, if up then [TakeUp(m)] else []) == Some(t)
    ensures up ==> m in s
    ensures t == if up then s[m := s[m].(up := true)] else s
  {
    RunLink(s, TakeUp(m));
    assert RunLinks(s, []) == Some(s);
  }

  lemma JoinLink(s: Links, t: Links, m: string, master: string)
    requires RunLinks(s, [Join(m, master)]) == Some(t)
    ensures m in s && t == s[m := s[m].(master := master)]
  {
    RunLink(s, Join(m, master));
  }

  lemma JoinOne(s: Links, t: Links, master: string, m: string, down: bool, up: bool)
    requires RunLinks(s, (if down then [TakeDown(m)] else []) + [Join(m, master)] + (if up then [TakeUp(m)] else [])) == Some(t)
    ensures SameDevices(s, t) && m in t && t[m].master == master && (up ==> t[m].up) && (!down && !up ==> t[m].up == s[m].up)
    ensures forall n | n in s && n != m :: t[n] == s[n]
  {
    var a: seq<LinkStep>, b: seq<LinkStep> := if down then [TakeDown(m)] else [], if up then [TakeUp(m)] else [];
    RunLinksConcat(s, a + [Join(m, master)], b);
    RunLinksConcat(s, a, [Join(m, master)]);
    var u := RunLinks(s, a).value;
    var v := RunLinks(u, [Join(m, master)]).value;
    hide RunLinks;
    MaybeDown(s, u, m, down);
    JoinLink(u, v, m, master);
    MaybeUp(v, t, m, up);
  }

  /** After the members joined, each has the master; nothing else about any link but their state has changed. */
  lemma {:induction false} AllJoin(s: Links, t: Links, master: string, members: seq<string>, down: bool, up: bool)
    requires RunLinks(s, JoinSteps(master, members, down, up)) == Some(t)
    ensures SameDevices(s, t)
    ensures forall m | m in members :: m in t && t[m].master == master && (up ==> t[m].up)
    ensures forall n | n in s && n !in members :: t[n] == s[n]
    ensures !down && !up ==> forall n | n in s :: t[n].up == s[n].up
    decreases |members|
  {
    if members != [] {
      var init, m := members[..|members| - 1], members[|members| - 1];
      var one: seq<LinkStep> := (if down then [TakeDown(m)] else []) + [Join(m, master)] + (if up then [TakeUp(m)] else []);
      assert members == init + [m];
      RunLinksConcat(s, JoinSteps(master, init, down, up), one);
      var u := RunLinks(s, JoinSteps(master, init, down, up)).value;
      AllJoin(s, u, master, init, down, up);
      hide RunLinks;
      JoinOne(u, t, master, m, down, up);
    }
  }

  lemma MakeOne(s: Links, t: Links, name: string, kind: LinkKind)
    requires RunLinks(s, [Make(name, kind)]) == Some(t)
    ensures name in t && (name !in s ==> t[name] == FRESH_PORT.(kind := Some(kind))) && (name in s ==> t == s)
    ensures forall n | n in s :: n in t && t[n] == s[n]
  {
    RunLink(s, Make(name, kind));
  }

  lemma ResizeOne(s: Links, t: Links, name: string, mtu: int)
    requires RunLinks(s, ResizeSteps(name, mtu)) == Some(t) && name in s
    ensures t == if mtu > 0 then s[name := s[name].(mtu := mtu)] else s
  {
    RunLink(s, Resize(name, mtu));
    assert RunLinks(s, []) == Some(s);
  }

  lemma UpOne(s: Links, t: Links, name: string)
    requires RunLinks(s, [TakeUp(name)]) == Some(t)
    ensures name in s && t == s[name := s[name].(up := true)]
  {
    RunLink(s, TakeUp(name));
  }

  lemma RunFour(s: Links, t: Links, a: seq<LinkStep>, b: seq<LinkStep>, c: seq<LinkStep>, d: seq<LinkStep>)
    returns (u: Links, v: Links, w: Links)
    requires RunLinks(s, a + (b + (c + d))) == Some(t)
    ensures RunLinks(s, a) == Some(u) && RunLinks(u, b) == Some(v) && RunLinks(v, c) == Some(w) && RunLinks(w, d) == Some(t)
  {
    RunLinksConcat(s, a, b + (c + d));
    u := RunLinks(s, a).value;
    RunLinksConcat(u, b, c + d);
    v := RunLinks(u, b).value;
    RunLinksConcat(v, c, d);
    w := RunLinks(v, c).value;
  }

  // ----- what the configuration's fields say, come true

  /** The link was there before, or is of the kind. */
  predicate MadeAs(s: Links, t: Links, name: string, kind: LinkKind) {
    name in t && (name !in s ==> t[name].kind == Some(kind))
  }

  lemma FirstLoads(b: Bond)
    ensures BondCommands(b) != [] && BondCommands(b)[0].command == Some(E.Command("modprobe", ["bonding"]))
  {
    hide MtuCommands;
    hide EnslaveCommands;
    hide BondScript;
  }

  /**
   After its commands, which start by loading the bonding module, a bond is up with its MTU and,
   if new, its mode; each member's master is the bond, and each member is up.
   */
  lemma {:induction false} BondOutcome(b: Bond, known: set<string>, sp: Spelling, s: Links, t: Links)
    requires V.BondOk(b, known) && SafeNames(known)
    requires ReadCommands(BondCommands(b), sp).Some? && RunLinks(s, ReadCommands(BondCommands(b), sp).value) == Some(t)
    ensures MadeAs(s, t, b.name, BondLink(if b.mode == NoBondMode then Lacp else b.mode))
    ensures t[b.name].up && (b.mtu > 0 ==> t[b.name].mtu == b.mtu)
    ensures forall m | m in b.members :: m in t && t[m].master == b.name && t[m].up
    ensures BondCommands(b)[0].command == Some(E.Command("modprobe", ["bonding"]))
  {
    BondRead(b, known, sp);
    FirstLoads(b);
    hide V.BondOk;
    hide SafeNames;
    hide BondCommands;
    hide ReadCommands;
    hide RunLinks;
    var kind := BondLink(KernelMode(b.mode));
    var u, v, w := RunFour(s, t, [Make(b.name, kind)], ResizeSteps(b.name, b.mtu),
                           JoinSteps(b.name, b.members, true, true), [TakeUp(b.name)]);
    hide JoinSteps;
    hide ResizeSteps;
    MakeOne(s, u, b.name, kind);
    ResizeOne(u, v, b.name, b.mtu);
    AllJoin(v, w, b.name, b.members, true, true);
    UpOne(w, t, b.name);
  }

  lemma StpOne(s: Links, t: Links, name: string, on: bool)
    requires RunLinks(s, [SpanningTree(name, on)]) == Some(t)
    ensures name in s && t == s[name := s[name].(spanning := on)]
  {
    RunLink(s, SpanningTree(name, on));
  }

  lemma FilterOne(s: Links, t: Links, name: string, aware: bool)
    requires RunLinks(s, if aware then [Filter(name)] else []) == Some(t) && name in s
    ensures t == if aware then s[name := s[name].(filtering := true)] else s
  {
    RunLink(s, Filter(name));
    assert RunLinks(s, []) == Some(s);
  }

  lemma BridgeRuns(b: Bridge, s: Links, t: Links)
    requires RunLinks(s, BridgeSteps(b)) == Some(t)
    ensures MadeAs(s, t, b.name, BridgeLink)
    ensures t[b.name].up && t[b.name].spanning == b.stp && (b.vlanAware ==> t[b.name].filtering)
    ensures forall m | m in b.members :: m in t && t[m].master == b.name && t[m].up
  {
    hide RunLinks;
    hide JoinSteps;
    var filter: seq<LinkStep> := if b.vlanAware then [Filter(b.name)] else [];
    var joins := JoinSteps(b.name, b.members, false, true);
    assert BridgeSteps(b) == [Make(b.name, BridgeLink)] + ([SpanningTree(b.name, b.stp)] + (filter + (joins + [TakeUp(b.name)])));
    hide BridgeSteps;
    var u, v, w := RunFour(s, t, [Make(b.name, BridgeLink)], [SpanningTree(b.name, b.stp)], filter, joins + [TakeUp(b.name)]);
    RunLinksConcat(w, joins, [TakeUp(b.name)]);
    var x := RunLinks(w, joins).value;
    MakeOne(s, u, b.name, BridgeLink);
    StpOne(u, v, b.name, b.stp);
    FilterOne(v, w, b.name, b.vlanAware);
    AllJoin(w, x, b.name, b.members, false, true);
    UpOne(x, t, b.name);
  }

  /**
   After its commands a bridge is up with its spanning tree as configured, filtering if asked; each
   member's master is the bridge.
   */
  lemma {:induction false} BridgeOutcome(b: Bridge, known: set<string>, sp: Spelling, s: Links, t: Links)
    requires V.BridgeOk(b, known) && SafeNames(known)
    requires ReadCommands(BridgeCommands(b), sp).Some? && RunLinks(s, ReadCommands(BridgeCommands(b), sp).value) == Some(t)
    ensures MadeAs(s, t, b.name, BridgeLink)
    ensures t[b.name].up && t[b.name].spanning == b.stp && (b.vlanAware ==> t[b.name].filtering)
    ensures forall m | m in b.members :: m in t && t[m].master == b.name && t[m].up
  {
    BridgeRead(b, known, sp);
    hide V.BridgeOk;
    hide SafeNames;
    hide BridgeCommands;
    hide ReadCommands;
    BridgeRuns(b, s, t);
  }

  lemma {:induction false} AllAssigned(s: Links, t: Links, name: string, ips: seq<Cidr>)
    requires RunLinks(s, AssignSteps(name, ips)) == Some(t) && name in s
    ensures t.Keys == s.Keys && t[name] == s[name].(addresses := s[name].addresses + set c | c in ips)
    decreases |ips|
  {
    if ips != [] {
      var init, c := ips[..|ips| - 1], ips[|ips| - 1];
      assert ips == init + [c];
      RunLinksConcat(s, AssignSteps(name, init), [Assign(name, c)]);
      var u := RunLinks(s, AssignSteps(name, init)).value;
      AllAssigned(s, u, name, init);
      RunLink(u, Assign(name, c));
      assert (set x | x in ips) == (set x | x in init) + {c};
    }
  }

  /** After its commands a VLAN is up with its MTU and addresses and, if new, on its parent with its ID. */
  lemma {:induction false} VlanOutcome(v: Vlan, known: set<string>, sp: Spelling, s: Links, t: Links)
    requires V.VlanOk(v, known) && SafeNames(known) && Consistent(sp)
    requires ReadCommands(VlanCommands(v, sp), sp).Some? && RunLinks(s, ReadCommands(VlanCommands(v, sp), sp).value) == Some(t)
    ensures MadeAs(s, t, v.name, VlanLink(v.parent, v.id))
    ensures t[v.name].up && (v.mtu > 0 ==> t[v.name].mtu == v.mtu)
    ensures forall c | c in v.ips :: c in t[v.name].addresses
  {
    VlanRead(v, known, sp);
    hide V.VlanOk;
    hide SafeNames;
    hide Consistent;
    hide VlanCommands;
    hide ReadCommands;
    hide RunLinks;
    var kind := VlanLink(v.parent, v.id);
    var a, b, d := RunFour(s, t, [Make(v.name, kind)], ResizeSteps(v.name, v.mtu), AssignSteps(v.name, v.ips), [TakeUp(v.name)]);
    hide AssignSteps;
    hide ResizeSteps;
    MakeOne(s, a, v.name, kind);
    ResizeOne(a, b, v.name, v.mtu);
    AllAssigned(b, d, v.name, v.ips);
    UpOne(d, t, v.name);
  }

  lemma VrfRuns(v: Vrf, s: Links, t: Links)
    requires RunLinks(s, VrfSteps(v)) == Some(t)
    ensures MadeAs(s, t, v.name, VrfLink(v.table)) && t[v.name].up
    ensures forall i | i in v.interfaces :: i in t && t[i].master == v.name
  {
    hide RunLinks;
    hide JoinSteps;
    var kind, joins := VrfLink(v.table), JoinSteps(v.name, v.interfaces, false, false);
    assert VrfSteps(v) == [Make(v.name, kind)] + ([TakeUp(v.name)] + joins);
    hide VrfSteps;
    RunLinksConcat(s, [Make(v.name, kind)], [TakeUp(v.name)] + joins);
    var a := RunLinks(s, [Make(v.name, kind)]).value;
    RunLinksConcat(a, [TakeUp(v.name)], joins);
    var b := RunLinks(a, [TakeUp(v.name)]).value;
    MakeOne(s, a, v.name, kind);
    UpOne(a, b, v.name);
    AllJoin(b, t, v.name, v.interfaces, false, false);
  }

  /** After its commands a VRF is up and, if new, has its table; each interface's master is the VRF. */
  lemma {:induction false} VrfOutcome(v: Vrf, known: set<string>, sp: Spelling, s: Links, t: Links)
    requires V.VrfOk(v, known)
    requires ReadCommands(VrfCommands(v), sp).Some? && RunLinks(s, ReadCommands(VrfCommands(v), sp).value) == Some(t)
    ensures MadeAs(s, t, v.name, VrfLink(v.table)) && t[v.name].up
    ensures forall i | i in v.interfaces :: i in t && t[i].master == v.name
  {
    VrfRead(v, known, sp);
    hide V.VrfOk;
    hide VrfCommands;
    hide ReadCommands;
    VrfRuns(v, s, t);
  }

  // ----- every entity has its commands in the section

  /** The steps hold the part as one piece. */
  ghost predicate Holds(xs: seq<E.Step>, part: seq<E.Step>) {
    exists before, after :: xs == before + part + after
  }

  lemma {:induction false} BondAmong(bs: seq<Bond>, k: nat) returns (before: seq<E.Step>, after: seq<E.Step>)
    requires k < |bs|
    ensures AllBondCommands(bs) == before + BondCommands(bs[k]) + after
  {
    hide BondCommands;
    if k == |bs| - 1 {
      before, after := AllBondCommands(bs[..k]), [];
    } else {
      before, after := BondAmong(bs[..|bs| - 1], k);
      after := after + BondCommands(bs[|bs| - 1]);
    }
  }

  lemma {:induction false} BridgeAmong(bs: seq<Bridge>, k: nat) returns (before: seq<E.Step>, after: seq<E.Step>)
    requires k < |bs|
    ensures AllBridgeCommands(bs) == before + BridgeCommands(bs[k]) + after
  {
    hide BridgeCommands;
    if k == |bs| - 1 {
      before, after := AllBridgeCommands(bs[..k]), [];
    } else {
      before, after := BridgeAmong(bs[..|bs| - 1], k);
      after := after + BridgeCommands(bs[|bs| - 1]);
    }
  }

  lemma {:induction false} VlanAmong(vs: seq<Vlan>, k: nat, sp: Spelling) returns (before: seq<E.Step>, after: seq<E.Step>)
    requires k < |vs|
    ensures AllVlanCommands(vs, sp) == before + VlanCommands(vs[k], sp) + after
  {
    hide VlanCommands;
    if k == |vs| - 1 {
      before, after := AllVlanCommands(vs[..k], sp), [];
    } else {
      before, after := VlanAmong(vs[..|vs| - 1], k, sp);
      after := after + VlanCommands(vs[|vs| - 1], sp);
    }
  }

  lemma {:induction false} VrfAmong(vs: seq<Vrf>, k: nat) returns (before: seq<E.Step>, after: seq<E.Step>)
    requires k < |vs|
    ensures AllVrfCommands(vs) == before + VrfCommands(vs[k]) + after
  {
    hide VrfCommands;
    if k == |vs| - 1 {
      before, after := AllVrfCommands(vs[..k]), [];
    } else {
      before, after := VrfAmong(vs[..|vs| - 1], k);
      after := after + VrfCommands(vs[|vs| - 1]);
    }
  }

  lemma HeldWithin(
    xs: seq<E.Step>, before: seq<E.Step>, part: seq<E.Step>, after: seq<E.Step>, front: seq<E.Step>, back: seq<E.Step>)
    requires xs == before + part + after
    ensures Holds(front + xs + back, part)
  {
    assert front + xs + back == (front + before) + part + (after + back);
  }

  /** The link section holds the commands of every bond, bridge, VLAN and VRF, each in one piece. */
  lemma {:induction false} SectionHoldsAll(p: Platform, sp: Spelling, k: nat)
    ensures k < |p.bonds| ==> Holds(LinkCommandSteps(p, sp), BondCommands(p.bonds[k]))
    ensures k < |p.bridges| ==> Holds(LinkCommandSteps(p, sp), BridgeCommands(p.bridges[k]))
    ensures k < |p.vlans| ==> Holds(LinkCommandSteps(p, sp), VlanCommands(p.vlans[k], sp))
    ensures k < |p.vrfs| ==> Holds(LinkCommandSteps(p, sp), VrfCommands(p.vrfs[k]))
  {
    hide BondCommands;
    hide BridgeCommands;
    hide VlanCommands;
    hide VrfCommands;
    hide AllBondCommands;
    hide AllBridgeCommands;
    hide AllVlanCommands;
    hide AllVrfCommands;
    hide Holds;
    var a, b := AllBondCommands(p.bonds), AllBridgeCommands(p.bridges);
    var d, e := AllVlanCommands(p.vlans, sp), AllVrfCommands(p.vrfs);
    assert LinkCommandSteps(p, sp) == [] + a + (b + d + e) == a + b + (d + e) == (a + b) + d + e == (a + b + d) + e + [];
    if k < |p.bonds| {
      var x, y := BondAmong(p.bonds, k);
      HeldWithin(a, x, BondCommands(p.bonds[k]), y, [], b + d + e);
    }
    if k < |p.bridges| {
      var x, y := BridgeAmong(p.bridges, k);
      HeldWithin(b, x, BridgeCommands(p.bridges[k]), y, a, d + e);
    }
    if k < |p.vlans| {
      var x, y := VlanAmong(p.vlans, k, sp);
      HeldWithin(d, x, VlanCommands(p.vlans[k], sp), y, a + b, e);
    }
    if k < |p.vrfs| {
      var x, y := VrfAmong(p.vrfs, k);
      HeldWithin(e, x, VrfCommands(p.vrfs[k]), y, a + b + d, []);
    }
  }
}
