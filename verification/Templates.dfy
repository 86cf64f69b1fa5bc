/**
 The `sh -c` templates of the plan: which script each one becomes, that names accepted
 by validation are single shell words in it, and which kernel step its words denote.
 */
module Templates {
  import opened Config
  import opened Numerals
  import opened ShellWords
  import opened Scripts
  import opened Kernel
  import V = Validation

  // ----- tunnel devices and policy rules

  function EnsureScript(name: string, add: Cmd): Script {
    Linked(Plain(["ip", "link", "show", "dev", name]), OrQuietly, One(add))
  }

  function AddCmd(name: string, spec: LinkSpec): Cmd {
    match spec
    case TunDevice => Plain(["ip", "tuntap", "add", "dev", name, "mode", "tun"])
    case WireGuardLink => Plain(["ip", "link", "add", "dev", name, "type", "wireguard"])
    case IpTunnel(v6, args) => Rendered(["ip"] + (if v6 then ["-6"] else []) + args)
    case LinkTunnel(args) => Rendered(["ip"] + args)
    case Physical => Plain(["true"])
  }

  function RuleScript(priority: int, mark: int, table: int): Script {
    Linked(Plain(["ip", "rule", "del", "priority", IntText(priority)]), IgnoringErrors,
          One(Plain(["ip", "rule", "add", "priority", IntText(priority), "fwmark", IntText(mark), "table", IntText(table)])))
  }

  // ----- bonds, bridges, VLANs and VRFs

  function BondModeText(mode: BondMode): string {
    match mode
    case NoBondMode => "802.3ad"
    case BalanceRr => "balance-rr"
    case BondActiveBackup => "active-backup"
    case BalanceXor => "balance-xor"
    case Broadcast => "broadcast"
    case Lacp => "802.3ad"
    case BalanceTlb => "balance-tlb"
    case BalanceAlb => "balance-alb"
    case OtherBondMode(text) => text
  }

  function SetLink(name: string, words: seq<string>): Cmd {
    Plain(["ip", "link", "set", name] + words)
  }

  function EnslaveScript(bond: string, member: string): Script {
    Linked(SetLink(member, ["down"]), Then,
          Linked(SetLink(member, ["master", bond]), Then, One(SetLink(member, ["up"]))))
  }

  function BridgeMemberScript(bridge: string, member: string): Script {
    Linked(SetLink(member, ["master", bridge]), Then, One(SetLink(member, ["up"])))
  }

  function EnslaveScripts(bond: string, members: seq<string>): seq<Script> {
    if members == [] then [] else
      EnslaveScripts(bond, members[..|members| - 1]) + [EnslaveScript(bond, members[|members| - 1])]
  }

  function BridgeMemberScripts(bridge: string, members: seq<string>): seq<Script> {
    if members == [] then [] else
      BridgeMemberScripts(bridge, members[..|members| - 1]) + [BridgeMemberScript(bridge, members[|members| - 1])]
  }

  function BondScript(b: Bond): Script {
    EnsureScript(b.name, Plain(["ip", "link", "add", b.name, "type", "bond", "mode", BondModeText(b.mode)]))
  }

  function BridgeScript(b: Bridge): Script {
    EnsureScript(b.name, Plain(["ip", "link", "add", "name", b.name, "type", "bridge"]))
  }

  function VlanScript(v: Vlan): Script {
    EnsureScript(v.name, Plain(["ip", "link", "add", "link", v.parent, "name", v.name, "type", "vlan", "id", IntText(v.id)]))
  }

  function VrfScript(v: Vrf): Script {
    EnsureScript(v.name, Plain(["ip", "link", "add", v.name, "type", "vrf", "table", IntText(v.table)]))
  }

  function BondScripts(bs: seq<Bond>): seq<Script> {
    if bs == [] then [] else
      var b := bs[|bs| - 1];
      BondScripts(bs[..|bs| - 1]) + [BondScript(b)] + EnslaveScripts(b.name, b.members)
  }

  function BridgeScripts(bs: seq<Bridge>): seq<Script> {
    if bs == [] then [] else
      var b := bs[|bs| - 1];
      BridgeScripts(bs[..|bs| - 1]) + [BridgeScript(b)] + BridgeMemberScripts(b.name, b.members)
  }

  function VlanScripts(vs: seq<Vlan>): seq<Script> {
    if vs == [] then [] else VlanScripts(vs[..|vs| - 1]) + [VlanScript(vs[|vs| - 1])]
  }

  function VrfScripts(vs: seq<Vrf>): seq<Script> {
    if vs == [] then [] else VrfScripts(vs[..|vs| - 1]) + [VrfScript(vs[|vs| - 1])]
  }

  function LinkScripts(p: Platform): seq<Script> {
    BondScripts(p.bonds) + BridgeScripts(p.bridges) + VlanScripts(p.vlans) + VrfScripts(p.vrfs)
  }

  // ----- names are single words

  lemma IdentifierIsSafe(name: string)
    requires V.IsIdentifier(name)
    ensures SafeWord(name)
  {
    forall i | 0 <= i < |name| ensures IsSafeChar(name[i]) {
      assert V.IsIdentifierChar(name[i]);
    }
  }

  lemma NumberIsSafe(n: int)
    ensures SafeWord(IntText(n))
  {
    IntRoundTrip(n);
  }

  lemma ListKeywords()
    ensures forall w | w in ["ip", "link", "show", "dev", "add", "type", "mode"] :: SafeWord(w)
  {
  }

  lemma RuleKeywords()
    ensures forall w | w in ["rule", "del", "priority", "fwmark", "table", "tuntap", "tun", "wireguard", "true"] :: SafeWord(w)
  {
  }

  lemma LinkKeywords()
    ensures forall w | w in ["set", "down", "up", "master", "bond", "name", "bridge", "vlan", "id", "vrf"] :: SafeWord(w)
  {
  }

  lemma BondModesAreSafe(mode: BondMode)
    requires !mode.OtherBondMode?
    ensures SafeWord(BondModeText(mode))
  {
  }

  lemma EnsureIsSafe(name: string, add: Cmd)
    requires SafeWord(name) && SafeCmd(add)
    ensures SafeScript(EnsureScript(name, add))
  {
    ListKeywords();
    hide AllSafe;
    hide SafeWord;
    assert SafeScript(One(add));
  }

  lemma AddCmdIsSafe(name: string, spec: LinkSpec)
    requires SafeWord(name)
    ensures SafeCmd(AddCmd(name, spec))
  {
    ListKeywords();
    RuleKeywords();
    hide AllSafe;
    hide SafeWord;
  }

  lemma RuleIsSafe(priority: int, mark: int, table: int)
    ensures SafeScript(RuleScript(priority, mark, table))
  {
    ListKeywords();
    RuleKeywords();
    NumberIsSafe(priority);
    NumberIsSafe(mark);
    NumberIsSafe(table);
    hide AllSafe;
    hide SafeWord;
    hide IntText;
    var del, add := RuleScript(priority, mark, table).cmd, RuleScript(priority, mark, table).rest;
    assert SafeCmd(del);
    assert SafeScript(add);
  }

  predicate Safe(scripts: seq<Script>) {
    forall s | s in scripts :: SafeScript(s)
  }

  lemma SetLinkIsSafe(name: string, words: seq<string>)
    requires SafeWord(name) && forall w | w in words :: SafeWord(w)
    ensures SafeCmd(SetLink(name, words))
  {
    ListKeywords();
    LinkKeywords();
    hide AllSafe;
    hide SafeWord;
  }

  lemma EnslaveIsSafe(bond: string, member: string)
    requires SafeWord(bond) && SafeWord(member)
    ensures SafeScript(EnslaveScript(bond, member)) && SafeScript(BridgeMemberScript(bond, member))
  {
    LinkKeywords();
    hide AllSafe;
    hide SafeWord;
    SetLinkIsSafe(member, ["down"]);
    SetLinkIsSafe(member, ["master", bond]);
    SetLinkIsSafe(member, ["up"]);
    hide SetLink;
    hide SafeCmd;
    assert SafeScript(One(SetLink(member, ["up"])));
    assert SafeScript(BridgeMemberScript(bond, member));
  }

  lemma {:induction false} MembersAreSafe(master: string, members: seq<string>)
    requires SafeWord(master) && forall m | m in members :: SafeWord(m)
    ensures Safe(EnslaveScripts(master, members)) && Safe(BridgeMemberScripts(master, members))
  {
    hide SafeWord;
    hide EnslaveScript;
    hide BridgeMemberScript;
    if members != [] {
      MembersAreSafe(master, members[..|members| - 1]);
      EnslaveIsSafe(master, members[|members| - 1]);
    }
  }

  /** Every name in the set is a safe word. */
  predicate SafeNames(names: set<string>) {
    forall n | n in names :: SafeWord(n)
  }

  lemma BondIsSafe(b: Bond, known: set<string>)
    requires V.BondOk(b, known) && SafeNames(known)
    ensures SafeScript(BondScript(b)) && Safe(EnslaveScripts(b.name, b.members))
  {
    IdentifierIsSafe(b.name);
    BondModesAreSafe(b.mode);
    ListKeywords();
    LinkKeywords();
    hide SafeWord;
    hide BondModeText;
    MembersAreSafe(b.name, b.members);
    EnsureIsSafe(b.name, Plain(["ip", "link", "add", b.name, "type", "bond", "mode", BondModeText(b.mode)]));
  }

  lemma BridgeIsSafe(b: Bridge, known: set<string>)
    requires V.BridgeOk(b, known) && SafeNames(known)
    ensures SafeScript(BridgeScript(b)) && Safe(BridgeMemberScripts(b.name, b.members))
  {
    IdentifierIsSafe(b.name);
    ListKeywords();
    LinkKeywords();
    hide SafeWord;
    MembersAreSafe(b.name, b.members);
    EnsureIsSafe(b.name, Plain(["ip", "link", "add", "name", b.name, "type", "bridge"]));
  }

  lemma VlanIsSafe(v: Vlan, known: set<string>)
    requires V.VlanOk(v, known) && SafeNames(known)
    ensures SafeScript(VlanScript(v))
  {
    IdentifierIsSafe(v.name);
    NumberIsSafe(v.id);
    ListKeywords();
    LinkKeywords();
    hide SafeWord;
    EnsureIsSafe(v.name, Plain(["ip", "link", "add", "link", v.parent, "name", v.name, "type", "vlan", "id", IntText(v.id)]));
  }

  lemma VrfIsSafe(v: Vrf, known: set<string>)
    requires V.VrfOk(v, known)
    ensures SafeScript(VrfScript(v))
  {
    IdentifierIsSafe(v.name);
    NumberIsSafe(v.table);
    ListKeywords();
    RuleKeywords();
    LinkKeywords();
    hide SafeWord;
    EnsureIsSafe(v.name, Plain(["ip", "link", "add", v.name, "type", "vrf", "table", IntText(v.table)]));
  }

  lemma {:induction false} BondsAreSafe(bs: seq<Bond>, known: set<string>)
    requires SafeNames(known) && forall b | b in bs :: V.BondOk(b, known)
    ensures Safe(BondScripts(bs))
  {
    hide V.BondOk;
    hide BondScript;
    hide EnslaveScripts;
    if bs != [] {
      BondsAreSafe(bs[..|bs| - 1], known);
      BondIsSafe(bs[|bs| - 1], known);
    }
  }

  lemma {:induction false} BridgesAreSafe(bs: seq<Bridge>, known: set<string>)
    requires SafeNames(known) && forall b | b in bs :: V.BridgeOk(b, known)
    ensures Safe(BridgeScripts(bs))
  {
    hide V.BridgeOk;
    hide BridgeScript;
    hide BridgeMemberScripts;
    if bs != [] {
      BridgesAreSafe(bs[..|bs| - 1], known);
      BridgeIsSafe(bs[|bs| - 1], known);
    }
  }

  lemma {:induction false} VlansAreSafe(vs: seq<Vlan>, known: set<string>)
    requires SafeNames(known) && forall v | v in vs :: V.VlanOk(v, known)
    ensures Safe(VlanScripts(vs))
  {
    hide V.VlanOk;
    hide VlanScript;
    if vs != [] {
      VlansAreSafe(vs[..|vs| - 1], known);
      VlanIsSafe(vs[|vs| - 1], known);
    }
  }

  lemma {:induction false} VrfsAreSafe(vs: seq<Vrf>, known: set<string>)
    requires forall v | v in vs :: V.VrfOk(v, known)
    ensures Safe(VrfScripts(vs))
  {
    hide V.VrfOk;
    hide VrfScript;
    if vs != [] {
      VrfsAreSafe(vs[..|vs| - 1], known);
      VrfIsSafe(vs[|vs| - 1], known);
    }
  }

  lemma KnownNamesAreSafe(c: Config)
    requires V.ValidConfig(c)
    ensures SafeNames(V.KnownLinks(c))
  {
    hide V.ValidConfig;
    hide SafeWord;
    forall n | n in V.KnownLinks(c) ensures SafeWord(n) {
      V.KnownLinksAreIdentifiers(c, n);
      IdentifierIsSafe(n);
    }
  }

  /** In a validated configuration the shell reads every link script as its template with the names as single words. */
  lemma {:induction false} LinkScriptsAreRead(c: Config, s: Script)
    requires V.ValidConfig(c) && s in LinkScripts(c.platform)
    ensures Tokenise(Text(s)) == Tokens(TokensOf(s))
  {
    KnownNamesAreSafe(c);
    var p, known := c.platform, V.KnownLinks(c);
    assert V.PlatformOk(p, known);
    hide V.ValidConfig;
    hide V.KnownLinks;
    BondsAreSafe(p.bonds, known);
    BridgesAreSafe(p.bridges, known);
    VlansAreSafe(p.vlans, known);
    VrfsAreSafe(p.vrfs, known);
    assert SafeScript(s);
    ScriptTokens(s);
  }

  /** Link and VRF names of a validated configuration are identifiers that quoting leaves alone. */
  lemma {:induction false} ValidatedNamesNeedNoQuotes(c: Config, name: string)
    requires V.ValidConfig(c)
    requires name in V.KnownLinks(c) || exists v :: v in c.platform.vrfs && v.name == name
    ensures V.IsIdentifier(name) && ShellQuote(name) == name
  {
    if name in V.KnownLinks(c) {
      V.KnownLinksAreIdentifiers(c, name);
    } else {
      var v :| v in c.platform.vrfs && v.name == name;
      assert V.VrfOk(v, V.KnownLinks(c));
    }
    IdentifierIsSafe(name);
  }
}
