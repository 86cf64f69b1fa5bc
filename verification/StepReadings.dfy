/**
 From the text of a plan's script back to the kernel step it stands for: the words
 the shell reads are decoded, and decoding undoes printing.
 */
module StepReadings {
  import opened Basics
  import opened Numerals
  import opened ShellWords
  import opened Scripts
  import opened Templates
  import opened Kernel

  // ----- decoding

  predicate AllWords(ts: seq<Token>) {
    forall t | t in ts :: t.Word?
  }

  function Texts(ts: seq<Token>): seq<string> {
    seq(|ts|, i requires 0 <= i < |ts| => ts[i].text)
  }

  /** The device that an `ip` command line creates under the name. */
  function DecodeAdd(name: string, ws: seq<string>): Option<LinkSpec> {
    if ws == ["ip", "tuntap", "add", "dev", name, "mode", "tun"] then Some(TunDevice)
    else if ws == ["ip", "link", "add", "dev", name, "type", "wireguard"] then Some(WireGuardLink)
    else if |ws| >= 2 && ws[0] == "ip" && ws[1] == "-6" then Some(IpTunnel(true, ws[2..]))
    else if |ws| >= 2 && ws[0] == "ip" && ws[1] == "tunnel" then Some(IpTunnel(false, ws[1..]))
    else if |ws| >= 2 && ws[0] == "ip" && ws[1] == "link" then Some(LinkTunnel(ws[1..]))
    else None
  }

  function DecodeEnsure(show: seq<string>, add: seq<string>): Option<Step> {
    if |show| == 5 && show[..4] == ["ip", "link", "show", "dev"] then
      match DecodeAdd(show[4], add) case None => None case Some(spec) => Some(EnsureLink(show[4], spec))
    else None
  }

  function DecodeRule(del: seq<string>, add: seq<string>): Option<Step> {
    if |del| == 5 && del[..4] == ["ip", "rule", "del", "priority"] &&
       |add| == 9 && add[..4] == ["ip", "rule", "add", "priority"] && add[4] == del[4] &&
       add[5] == "fwmark" && add[7] == "table" then
      var p, m, t := ParseInt(add[4]), ParseInt(add[6]), ParseInt(add[8]);
      if p.Int? && m.Int? && t.Int? then Some(ReplaceRule(p.value, m.value, t.value)) else None
    else None
  }

  /** What a script's tokens do to the modelled kernel state. */
  function Decode(ts: seq<Token>): Option<Step> {
    if |ts| < 11 || !AllWords(ts[..5]) || !AllWords(ts[11..]) then None
    else if ts[5..11] == QUIET then DecodeEnsure(Texts(ts[..5]), Texts(ts[11..]))
    else if ts[5..11] == IGNORED then DecodeRule(Texts(ts[..5]), Texts(ts[11..]))
    else None
  }

  function Reading(script: string): Option<Step> {
    match Tokenise(script) case Unsupported => None case Tokens(ts) => Decode(ts)
  }

  // ----- decoding undoes printing

  lemma TwoCommands(a: seq<string>, l: Connective, b: seq<string>)
    requires |a| == 5 && l != Then
    ensures var ts := Words(a) + LinkTokens(l) + Words(b);
            && |ts| >= 11 && AllWords(ts[..5]) && AllWords(ts[11..])
            && ts[5..11] == LinkTokens(l) && Texts(ts[..5]) == a && Texts(ts[11..]) == b
  {
    var ts := Words(a) + LinkTokens(l) + Words(b);
    assert |LinkTokens(l)| == 6;
    hide LinkTokens;
    assert ts[..5] == Words(a) && ts[5..11] == LinkTokens(l) && ts[11..] == Words(b);
    assert Texts(Words(a)) == a && Texts(Words(b)) == b;
  }

  /** The shapes of device descriptions that the plan uses. */
  predicate SpecFits(spec: LinkSpec) {
    match spec
    case TunDevice | WireGuardLink => true
    case IpTunnel(_, args) => |args| >= 5 && args[0] == "tunnel"
    case LinkTunnel(args) => |args| >= 5 && args[0] == "link" && args[4] != "type"
    case Physical => false
  }

  lemma AddRoundTrip(name: string, spec: LinkSpec)
    requires SpecFits(spec)
    ensures DecodeAdd(name, AddCmd(name, spec).ws) == Some(spec)
  {
    var ws := AddCmd(name, spec).ws;
    match spec {
      case TunDevice =>
      case WireGuardLink =>
        assert ws[1] != "tuntap";
      case IpTunnel(v6, args) =>
        assert ws[1] == if v6 then "-6" else "tunnel";
        assert "tunnel" != "tuntap" && "tunnel" != "link" && "-6" != "tuntap" && "-6" != "link" by {
          assert "tunnel"[3] != "tuntap"[3];
        }
        assert if v6 then ws[2..] == args else ws[1..] == args;
      case LinkTunnel(args) =>
        assert ws[1] == "link" && ws[5] == args[4] && ws[1..] == args;
        assert "link" != "tuntap" && "link" != "tunnel" && "link" != "-6";
    }
  }

  lemma {:induction false} EnsureRoundTrip(name: string, spec: LinkSpec)
    requires SafeWord(name) && SpecFits(spec)
    ensures Reading(Text(EnsureScript(name, AddCmd(name, spec)))) == Some(EnsureLink(name, spec))
  {
    AddCmdIsSafe(name, spec);
    EnsureIsSafe(name, AddCmd(name, spec));
    ScriptTokens(EnsureScript(name, AddCmd(name, spec)));
    AddRoundTrip(name, spec);
    var show, add := ["ip", "link", "show", "dev", name], AddCmd(name, spec).ws;
    TwoCommands(show, OrQuietly, add);
    hide Text;
    hide AddCmd;
    hide DecodeAdd;
    hide SafeWord;
    hide SafeScript;
    assert show[..4] == ["ip", "link", "show", "dev"];
  }

  lemma RuleWordsRoundTrip(priority: int, mark: int, table: int)
    ensures DecodeRule(RuleScript(priority, mark, table).cmd.ws, RuleScript(priority, mark, table).rest.cmd.ws) ==
            Some(ReplaceRule(priority, mark, table))
  {
    IntRoundTrip(priority);
    IntRoundTrip(mark);
    IntRoundTrip(table);
    hide IntText;
    hide ParseInt;
    var del, add := RuleScript(priority, mark, table).cmd.ws, RuleScript(priority, mark, table).rest.cmd.ws;
    assert del[..4] == ["ip", "rule", "del", "priority"];
    assert add[..4] == ["ip", "rule", "add", "priority"];
  }

  lemma {:induction false} RuleRoundTrip(priority: int, mark: int, table: int)
    ensures Reading(Text(RuleScript(priority, mark, table))) == Some(ReplaceRule(priority, mark, table))
  {
    var s := RuleScript(priority, mark, table);
    RuleIsSafe(priority, mark, table);
    ScriptTokens(s);
    RuleWordsRoundTrip(priority, mark, table);
    TwoCommands(s.cmd.ws, IgnoringErrors, s.rest.cmd.ws);
    assert IGNORED[0] != QUIET[0];
    assert TokensOf(s) == Words(s.cmd.ws) + IGNORED + Words(s.rest.cmd.ws);
    hide Text;
    hide TokensOf;
    hide SafeScript;
    hide IntText;
    hide DecodeRule;
  }
}
