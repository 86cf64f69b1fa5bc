/** What the rest of the NAT chains does: port forwards and masquerading behind the 1:1 pairs. */
module NatMeaning {
  import opened Basics
  import opened Addresses
  import opened Config
  import opened Nft
  import opened MatchCompiler
  import opened MatchMeaning
  import opened InputChain
  import opened AddressText
  import opened Validation
  import opened NatChains
  import opened CompiledTable
  import opened NatPairs

  // ----- port forwards

  function ForwardProtocols(f: PortForward): seq<Protocol> {
    if f.protocols == [] then [Tcp] else f.protocols
  }

  /** The forward's own conditions on a packet: an empty source list admits every source. */
  predicate ForwardApplies(f: PortForward, p: Packet) {
    && f.enabled
    && (f.inputIface == "" || p.iif == f.inputIface)
    && p.proto in ForwardProtocols(f) && p.dport == f.externalPort
    && (f.sourceCIDRs == [] || InSome(f.sourceCIDRs, p.fam, p.src))
  }

  predicate Rewrites(d: Option<Line>, f: PortForward) {
    && d.Some? && d.value.action == DnatToTarget(TargetText(f.internalIP, f.internalPort))
    && d.value.log == f.log && d.value.comment == f.id
  }

  function OneSource(cs: seq<Cidr>, fam: Family): seq<seq<Atom>> {
    if cs != [] then [[SAddr(fam, cs)]] else []
  }

  lemma OneSourceMeaning(cs: seq<Cidr>, fam: Family, p: Packet, env: SetEnv)
    ensures Any(OneSource(cs, fam), p, env) <==> cs != [] && p.fam == fam && InSome(cs, fam, p.src)
  {
    if cs != [] {
      AnyOne([SAddr(fam, cs)], p, env);
      assert SAddr(fam, cs) in [SAddr(fam, cs)];
    }
  }

  lemma NoneAdmitted(fam: Family, a: nat)
    ensures !InSome([], fam, a)
  {
  }

  lemma SourceMeaning(cidrs: seq<Cidr>, p: Packet, env: SetEnv)
    requires AllParsed(cidrs)
    ensures Any(OrBlank(SourceExprs(cidrs)), p, env) <==> cidrs == [] || InSome(cidrs, p.fam, p.src)
  {
    hide OfFamily;
    hide InSome;
    hide Any;
    var s4, s6 := OfFamily(cidrs, V4), OfFamily(cidrs, V6);
    ParsedSplit(cidrs);
    InSomeOfFamily(cidrs, p.fam, p.src);
    OneSourceMeaning(s4, V4, p, env);
    OneSourceMeaning(s6, V6, p, env);
    AnyAppend(OneSource(s4, V4), OneSource(s6, V6), p, env);
    NoneAdmitted(p.fam, p.src);
    assert SourceExprs(cidrs) == OneSource(s4, V4) + OneSource(s6, V6);
    AnyOne([], p, env);
  }

  lemma ForwardLineMeaning(f: PortForward, proto: Protocol, source: seq<Atom>, p: Packet, env: SetEnv)
    ensures All(ForwardLine(f, proto, source).matches, p, env) <==>
            && (f.inputIface == "" || p.iif == f.inputIface)
            && All(source, p, env) && p.proto == proto && p.dport == f.externalPort
  {
    var port := PortRange(f.externalPort, f.externalPort);
    var iif: seq<Atom> := if f.inputIface != "" then [IifName(f.inputIface)] else [];
    var dport := [DPort(proto, [port])];
    AllConcat(iif + source, dport, p, env);
    AllConcat(iif, source, p, env);
    assert DPort(proto, [port]) in dport && port in [port];
    if f.inputIface != "" { assert IifName(f.inputIface) in iif; }
  }

  lemma ForwardAction(f: PortForward, proto: Protocol, source: seq<Atom>)
    ensures Rewrites(Some(ForwardLine(f, proto, source)), f)
  {
  }

  lemma {:induction false} SourcesFirst(f: PortForward, proto: Protocol, sources: seq<seq<Atom>>, p: Packet, env: SetEnv)
    ensures var d := FirstMatch(ForwardSourceLines(f, proto, sources), p, env);
            if (f.inputIface == "" || p.iif == f.inputIface) && p.proto == proto && p.dport == f.externalPort &&
               Any(sources, p, env)
            then Rewrites(d, f) else d == None
  {
    hide ForwardLine;
    if sources != [] {
      var init, last := sources[..|sources| - 1], sources[|sources| - 1];
      assert sources == init + [last];
      SourcesFirst(f, proto, init, p, env);
      FirstMatchConcat(ForwardSourceLines(f, proto, init), [ForwardLine(f, proto, last)], p, env);
      OneLine(ForwardLine(f, proto, last), p, env);
      ForwardLineMeaning(f, proto, last, p, env);
      ForwardAction(f, proto, last);
      assert Any(sources, p, env) <==> Any(init, p, env) || All(last, p, env) by {
        forall e ensures e in sources <==> e in init || e == last {}
      }
    }
  }

  lemma {:induction false} ProtocolsFirst(f: PortForward, protos: seq<Protocol>, p: Packet, env: SetEnv)
    ensures var d := FirstMatch(ForwardProtoLines(f, protos), p, env);
            if (f.inputIface == "" || p.iif == f.inputIface) && p.proto in protos && p.dport == f.externalPort &&
               Any(OrBlank(SourceExprs(f.sourceCIDRs)), p, env)
            then Rewrites(d, f) else d == None
  {
    hide ForwardSourceLines;
    hide SourceExprs;
    hide Any;
    if protos != [] {
      var init, last := protos[..|protos| - 1], protos[|protos| - 1];
      var sources := OrBlank(SourceExprs(f.sourceCIDRs));
      assert protos == init + [last];
      ProtocolsFirst(f, init, p, env);
      SourcesFirst(f, last, sources, p, env);
      FirstMatchConcat(ForwardProtoLines(f, init), ForwardSourceLines(f, last, sources), p, env);
    }
  }

  lemma OneForwardFirst(f: PortForward, p: Packet, env: SetEnv)
    requires AllParsed(f.sourceCIDRs)
    ensures var d := FirstMatch(OneForward(f), p, env);
            if ForwardApplies(f, p) then Rewrites(d, f) else d == None
  {
    hide ForwardProtoLines;
    hide Any;
    hide SourceExprs;
    SourceMeaning(f.sourceCIDRs, p, env);
    ProtocolsFirst(f, ForwardProtocols(f), p, env);
  }

  lemma LastForward(f: PortForward, p: Packet, env: SetEnv)
    requires f.enabled ==> AllParsed(f.sourceCIDRs)
    ensures var d := FirstMatch(OneForward(f), p, env);
            if ForwardApplies(f, p) then Rewrites(d, f) else d == None
  {
    if f.enabled {
      OneForwardFirst(f, p, env);
    }
  }

  lemma RewritesSome(d: Option<Line>, f: PortForward)
    ensures Rewrites(d, f) ==> d.Some?
  {
  }

  /** The first enabled forward whose conditions a packet meets rewrites its destination. */
  lemma {:induction false} FirstForwardDecides(fs: seq<PortForward>, p: Packet, env: SetEnv, k: nat)
    requires forall f | f in fs && f.enabled :: AllParsed(f.sourceCIDRs)
    ensures k < |fs| && ForwardApplies(fs[k], p) && (forall j: nat | j < k :: !ForwardApplies(fs[j], p)) ==>
              Rewrites(FirstMatch(PortForwardLines(fs), p, env), fs[k])
    ensures (forall j: nat | j < |fs| :: !ForwardApplies(fs[j], p)) ==> FirstMatch(PortForwardLines(fs), p, env) == None
  {
    hide ForwardApplies;
    hide OneForward;
    hide Rewrites;
    if fs != [] {
      var init, last := fs[..|fs| - 1], fs[|fs| - 1];
      assert fs == init + [last];
      FirstForwardDecides(init, p, env, k);
      FirstMatchConcat(PortForwardLines(init), OneForward(last), p, env);
      LastForward(last, p, env);
      RewritesSome(FirstMatch(PortForwardLines(init), p, env), fs[if k < |fs| then k else 0]);
    }
  }

  /** The line sends the packet to the address and the port of the forward, as its text is read, and logs when it says. */
  predicate SendsTo(d: Option<Line>, f: PortForward) {
    && d.Some? && d.value.action.DnatToTarget?
    && ReadTarget(d.value.action.text) == Some(Target(f.internalIP, Some(f.internalPort)))
    && d.value.log == f.log && d.value.comment == f.id
  }

  /** The lines of a forward send packets to its address and port exactly when the address does not go on behind a colon. */
  lemma {:induction false} ForwardSendsIff(d: Option<Line>, f: PortForward, known: set<string>)
    requires f.enabled && PortForwardOk(f, known) && Rewrites(d, f)
    ensures SendsTo(d, f) <==> !Continues(f.internalIP)
    ensures IsDotted(f.internalIP) ==> SendsTo(d, f)
  {
    hide ReadTarget;
    hide IsAddress;
    hide Continues;
    TargetReadBackIff(f.internalIP, f.internalPort);
  }

  lemma ForwardsDecide(c: Config, p: Packet, k: nat)
    requires c.security.nat_
    requires forall f | f in c.security.portForwards && f.enabled :: AllParsed(f.sourceCIDRs)
    requires forall n | n in c.security.oneToOne :: !DnatApplies(n, p)
    ensures var fs, d := c.security.portForwards, Verdict(c, "dstnat", p);
            && (k < |fs| && ForwardApplies(fs[k], p) && (forall j: nat | j < k :: !ForwardApplies(fs[j], p)) ==>
                  Rewrites(d, fs[k]))
            && ((forall j: nat | j < |fs| :: !ForwardApplies(fs[j], p)) ==> d == None)
  {
    NatVerdicts(c, p);
    hide Verdict;
    hide TableSets;
    hide DnatPairs;
    hide DnatApplies;
    hide PortForwardLines;
    hide ForwardApplies;
    hide Rewrites;
    var nats, env := c.security.oneToOne, TableSets(c.routing.sets);
    var i := DnatPairsFirst(nats, p, env, FirstMatch(DnatPairs(nats), p, env));
    FirstForwardDecides(c.security.portForwards, p, env, k);
    FirstMatchConcat(DnatPairs(nats), PortForwardLines(c.security.portForwards), p, env);
  }

  /**
   In a validated configuration with NAT on, an IPv4 packet that no 1:1 pair claims goes to the
   IPv4 address and the port of the first forward written for it, and is left alone when there is
   none; with NAT off every packet is left alone.
   */
  lemma {:induction false} ForwardsBehindPairs(c: Config, p: Packet, k: nat)
    requires SecurityOk(c.security, KnownLinks(c)) && p.fam == V4
    requires forall n | n in c.security.oneToOne :: !DnatApplies(n, p)
    requires forall f | f in c.security.portForwards && ForwardApplies(f, p) :: IsDotted(f.internalIP)
    ensures var fs, d := c.security.portForwards, Verdict(c, "dstnat", p);
            && (c.security.nat_ && k < |fs| && ForwardApplies(fs[k], p) && (forall j: nat | j < k :: !ForwardApplies(fs[j], p)) ==>
                  SendsTo(d, fs[k]))
            && (!c.security.nat_ || (forall j: nat | j < |fs| :: !ForwardApplies(fs[j], p)) ==> d == None)
  {
    var fs, d := c.security.portForwards, Verdict(c, "dstnat", p);
    assert forall f | f in fs :: PortForwardOk(f, KnownLinks(c));
    assert forall f | f in fs && ForwardApplies(f, p) :: f.enabled;
    hide KnownLinks;
    hide IsIdentifier;
    hide IsAddress;
    hide Verdict;
    hide DnatApplies;
    hide IsDotted;
    if c.security.nat_ {
      ForwardsDecide(c, p, k);
      hide ForwardApplies;
      if k < |fs| && ForwardApplies(fs[k], p) && forall j: nat | j < k :: !ForwardApplies(fs[j], p) {
        assert fs[k] in fs;
        hide SecurityOk;
        ForwardSendsIff(d, fs[k], KnownLinks(c));
      }
    } else {
      NothingTranslated(c, p);
    }
  }

  // ----- masquerading

  /** The rule's traffic may leave through the link. */
  predicate Egress(r: RouteRule, c: Config, link: string) {
    match r.action.kind
    case ToWanGroup | LoadBalance =>
      exists g | g in c.routing.wanGroups :: g.id == r.action.target && exists m | m in g.members :: m.iface == link
    case ToTunnel =>
      link != "" && exists t | t in c.tunnels :: t.id == r.action.target && t.interfaceName == link
    case _ => r.action.target == link
  }

  predicate MasqueradesItself(i: Interface, link: string) {
    i.enabled && (i.masquerade || i.role == Wan) && i.name == link
  }

  predicate MasqueradesFor(r: RouteRule, c: Config, link: string) {
    r.enabled && r.action.masquerade && r.action.target != "" && Egress(r, c, link)
  }

  /** Traffic leaving through the link is to be masqueraded. */
  predicate Masqueraded(c: Config, link: string) {
    || (exists i | i in c.interfaces :: MasqueradesItself(i, link))
    || (exists r | r in c.routing.rules :: MasqueradesFor(r, c, link))
  }

  /** Every line masquerades one link. */
  predicate OnlyMasquerades(lines: seq<Line>) {
    forall l | l in lines :: l.action == Masquerade && !l.log && |l.matches| == 1 && l.matches[0].OifName?
  }

  predicate Names(lines: seq<Line>, link: string) {
    exists l | l in lines :: l.matches == [OifName(link)]
  }

  lemma {:induction false} MasqueradesFirst(lines: seq<Line>, p: Packet, env: SetEnv)
    requires OnlyMasquerades(lines)
    ensures var d := FirstMatch(lines, p, env);
            if Names(lines, p.oif) then d.Some? && d.value.action == Masquerade && !d.value.log else d == None
  {
    if lines != [] {
      var l := lines[0];
      assert lines == [l] + lines[1..];
      assert l in lines;
      assert l.matches == [l.matches[0]];
      assert All(l.matches, p, env) <==> l.matches == [OifName(p.oif)] by {
        assert l.matches[0] in l.matches;
      }
      MasqueradesFirst(lines[1..], p, env);
    }
  }

  lemma NamesConcat(a: seq<Line>, b: seq<Line>, link: string)
    ensures Names(a + b, link) <==> Names(a, link) || Names(b, link)
    ensures OnlyMasquerades(a) && OnlyMasquerades(b) ==> OnlyMasquerades(a + b)
  {
    forall l ensures l in a + b <==> l in a || l in b {}
  }

  lemma NamesOne(l: Line, link: string)
    ensures Names([l], link) <==> l.matches == [OifName(link)]
  {
    assert l in [l];
  }

  lemma NoNames(link: string)
    ensures OnlyMasquerades([]) && !Names([], link)
  {
  }

  lemma {:induction false} IfaceNames(is_: seq<Interface>, link: string)
    ensures OnlyMasquerades(IfaceMasquerades(is_))
    ensures Names(IfaceMasquerades(is_), link) <==> exists i | i in is_ :: MasqueradesItself(i, link)
  {
    if is_ != [] {
      var init, last := is_[..|is_| - 1], is_[|is_| - 1];
      assert is_ == init + [last];
      IfaceNames(init, link);
      var l := Line([OifName(last.name)], false, Masquerade, "nat " + last.name);
      var more := if last.enabled && (last.masquerade || last.role == Wan) then [l] else [];
      NamesConcat(IfaceMasquerades(init), more, link);
      NamesOne(l, link);
      NoNames(link);
      assert Names(more, link) <==> MasqueradesItself(last, link);
      forall i ensures i in is_ <==> i in init || i == last {}
    }
  }

  lemma {:induction false} MemberNames(r: RouteRule, ms: seq<WanMember>, link: string)
    ensures OnlyMasquerades(MemberMasquerades(r, ms))
    ensures Names(MemberMasquerades(r, ms), link) <==> exists m | m in ms :: m.iface == link
  {
    if ms != [] {
      var init, last := ms[..|ms| - 1], ms[|ms| - 1];
      assert ms == init + [last];
      MemberNames(r, init, link);
      NamesConcat(MemberMasquerades(r, init), [RuleNat(r, last.iface)], link);
      NamesOne(RuleNat(r, last.iface), link);
      forall m ensures m in ms <==> m in init || m == last {}
    }
  }

  lemma {:induction false} GroupNames(r: RouteRule, gs: seq<WanGroup>, link: string)
    ensures OnlyMasquerades(GroupMasquerades(r, gs))
    ensures Names(GroupMasquerades(r, gs), link) <==>
            exists g | g in gs :: g.id == r.action.target && exists m | m in g.members :: m.iface == link
  {
    hide MemberMasquerades;
    hide OnlyMasquerades;
    hide Names;
    if gs != [] {
      var init, last := gs[..|gs| - 1], gs[|gs| - 1];
      assert gs == init + [last];
      GroupNames(r, init, link);
      MemberNames(r, last.members, link);
      if last.id == r.action.target {
        NamesConcat(GroupMasquerades(r, init), MemberMasquerades(r, last.members), link);
      } else {
        assert GroupMasquerades(r, gs) == GroupMasquerades(r, init);
      }
      forall g ensures g in gs <==> g in init || g == last {}
    } else {
      NoNames(link);
    }
  }

  lemma {:induction false} TunnelNames(r: RouteRule, ts: seq<Tunnel>, link: string)
    ensures OnlyMasquerades(TunnelMasquerades(r, ts))
    ensures Names(TunnelMasquerades(r, ts), link) <==>
            link != "" && exists t | t in ts :: t.id == r.action.target && t.interfaceName == link
  {
    if ts != [] {
      var init, last := ts[..|ts| - 1], ts[|ts| - 1];
      assert ts == init + [last];
      TunnelNames(r, init, link);
      var more := if last.id == r.action.target && last.interfaceName != "" then [RuleNat(r, last.interfaceName)] else [];
      NamesConcat(TunnelMasquerades(r, init), more, link);
      NamesOne(RuleNat(r, last.interfaceName), link);
      forall t ensures t in ts <==> t in init || t == last {}
    }
  }

  lemma OneRuleNames(r: RouteRule, c: Config, link: string)
    ensures OnlyMasquerades(OneRuleMasquerade(r, c))
    ensures Names(OneRuleMasquerade(r, c), link) <==> MasqueradesFor(r, c, link)
  {
    GroupNames(r, c.routing.wanGroups, link);
    TunnelNames(r, c.tunnels, link);
    NamesOne(RuleNat(r, r.action.target), link);
    NoNames(link);
    hide GroupMasquerades;
    hide TunnelMasquerades;
    hide Names;
  }

  lemma {:induction false} RuleNames(rs: seq<RouteRule>, c: Config, link: string)
    ensures OnlyMasquerades(RuleMasquerades(rs, c))
    ensures Names(RuleMasquerades(rs, c), link) <==> exists r | r in rs :: MasqueradesFor(r, c, link)
  {
    hide OneRuleMasquerade;
    hide MasqueradesFor;
    hide OnlyMasquerades;
    hide Names;
    if rs != [] {
      var init, last := rs[..|rs| - 1], rs[|rs| - 1];
      assert rs == init + [last];
      RuleNames(init, c, link);
      OneRuleNames(last, c, link);
      NamesConcat(RuleMasquerades(init, c), OneRuleMasquerade(last, c), link);
      forall r ensures r in rs <==> r in init || r == last {}
    } else {
      NoNames(link);
    }
  }

  lemma MasqueradesDecide(c: Config, p: Packet)
    requires c.security.nat_ && forall n | n in c.security.oneToOne :: !SnatApplies(n, p)
    ensures var d := Verdict(c, "postrouting", p);
            if Masqueraded(c, p.oif) then d.Some? && d.value.action == Masquerade && !d.value.log else d == None
  {
    NatVerdicts(c, p);
    hide Verdict;
    hide TableSets;
    hide SnatPairs;
    hide IfaceMasquerades;
    hide RuleMasquerades;
    hide MasqueradesItself;
    hide MasqueradesFor;
    hide OnlyMasquerades;
    hide Names;
    hide SnatApplies;
    var pairs, env := SnatPairs(c.security.oneToOne), TableSets(c.routing.sets);
    var k := SnatPairsFirst(c.security.oneToOne, p, env, FirstMatch(pairs, p, env));
    var a, b := IfaceMasquerades(c.interfaces), RuleMasquerades(c.routing.rules, c);
    IfaceNames(c.interfaces, p.oif);
    RuleNames(c.routing.rules, c, p.oif);
    NamesConcat(a, b, p.oif);
    MasqueradesFirst(a + b, p, env);
    FirstMatchConcat(pairs, a + b, p, env);
    assert PostroutingLines(c) == pairs + (a + b);
  }

  /**
   A packet no 1:1 pair claims is masqueraded if and only if NAT is on and it leaves through a
   link that is to be masqueraded; otherwise its source stays as it is.
   */
  lemma {:induction false} MasqueradedIff(c: Config, p: Packet)
    requires forall n | n in c.security.oneToOne :: !SnatApplies(n, p)
    ensures var d := Verdict(c, "postrouting", p);
            if c.security.nat_ && Masqueraded(c, p.oif) then d.Some? && d.value.action == Masquerade && !d.value.log else d == None
  {
    hide Verdict;
    hide SnatApplies;
    hide Masqueraded;
    if c.security.nat_ {
      MasqueradesDecide(c, p);
    } else {
      NothingTranslated(c, p);
    }
  }
}
