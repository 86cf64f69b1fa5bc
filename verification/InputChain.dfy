/** The input chain: which packets may reach the router itself. */
module InputChain {
  import opened Basics
  import opened Addresses
  import opened Config
  import opened Nft
  import opened PolicyChains

  function CidrFamily(c: Cidr): Family {
    if c.Cidr? && c.fam == V6 then V6 else V4
  }

  function ManagementLine(cidr: Cidr, port: int): Line {
    Line([SAddr(CidrFamily(cidr), [cidr]), DPort(Tcp, [PortRange(port, port)])], false, Accept, "management")
  }

  function PortLines(cidr: Cidr, ports: seq<int>): seq<Line> {
    if ports == [] then [] else
      PortLines(cidr, ports[..|ports| - 1]) + [ManagementLine(cidr, ports[|ports| - 1])]
  }

  function ManagementLines(cidrs: seq<Cidr>, ports: seq<int>): seq<Line> {
    if cidrs == [] then [] else
      ManagementLines(cidrs[..|cidrs| - 1], ports) + PortLines(cidrs[|cidrs| - 1], ports)
  }

  const LOOPBACK := Line([IifName("lo")], false, Accept, "")
  const ICMP_LINES := [Line([FamProto(V4, Icmp)], false, Accept, ""), Line([FamProto(V6, IcmpV6)], false, Accept, "")]

  function InputLines(c: Config): seq<Line> {
    [LOOPBACK] + ConntrackLines(c) + ManagementLines(c.managementCIDRs, c.security.managementPorts) + ICMP_LINES
  }

  predicate Accepted(decision: Option<Line>, policyDrop: bool) {
    match decision
    case Some(l) => l.action == Accept
    case None => !policyDrop
  }

  /** A TCP packet from some management network to some management port. */
  predicate FromManagement(c: Config, p: Packet) {
    && p.proto == Tcp
    && p.dport in c.security.managementPorts
    && InSome(c.managementCIDRs, p.fam, p.src)
  }

  predicate IsPing(p: Packet) {
    (p.fam == V4 && p.proto == Icmp) || (p.fam == V6 && p.proto == IcmpV6)
  }

  lemma ManagementLineMeaning(cidr: Cidr, port: int, p: Packet, env: SetEnv)
    ensures All(ManagementLine(cidr, port).matches, p, env) <==>
            p.proto == Tcp && p.dport == port && Contains(cidr, p.fam, p.src)
  {
    var a, b := SAddr(CidrFamily(cidr), [cidr]), DPort(Tcp, [PortRange(port, port)]);
    assert a in ManagementLine(cidr, port).matches && b in ManagementLine(cidr, port).matches;
    assert cidr in [cidr] && PortRange(port, port) in [PortRange(port, port)];
  }

  lemma OneLine(l: Line, p: Packet, env: SetEnv)
    ensures FirstMatch([l], p, env) == if All(l.matches, p, env) then Some(l) else None
  {
    assert [l][1..] == [];
  }

  lemma {:induction false} PortLinesFirst(cidr: Cidr, ports: seq<int>, p: Packet, env: SetEnv)
    ensures var d := FirstMatch(PortLines(cidr, ports), p, env);
            if p.proto == Tcp && p.dport in ports && Contains(cidr, p.fam, p.src)
            then d.Some? && d.value.action == Accept else d == None
  {
    if ports != [] {
      var init, last := ports[..|ports| - 1], ports[|ports| - 1];
      PortLinesFirst(cidr, init, p, env);
      FirstMatchConcat(PortLines(cidr, init), [ManagementLine(cidr, last)], p, env);
      OneLine(ManagementLine(cidr, last), p, env);
      ManagementLineMeaning(cidr, last, p, env);
      assert ports == init + [last];
    }
  }

  lemma {:induction false} ManagementFirst(cidrs: seq<Cidr>, ports: seq<int>, p: Packet, env: SetEnv)
    ensures var d := FirstMatch(ManagementLines(cidrs, ports), p, env);
            if p.proto == Tcp && p.dport in ports && InSome(cidrs, p.fam, p.src)
            then d.Some? && d.value.action == Accept else d == None
  {
    if cidrs != [] {
      var init, last := cidrs[..|cidrs| - 1], cidrs[|cidrs| - 1];
      ManagementFirst(init, ports, p, env);
      FirstMatchConcat(ManagementLines(init, ports), PortLines(last, ports), p, env);
      PortLinesFirst(last, ports, p, env);
      assert cidrs == init + [last];
      assert InSome(cidrs, p.fam, p.src) <==> InSome(init, p.fam, p.src) || Contains(last, p.fam, p.src) by {
        forall c ensures c in cidrs <==> c in init || c == last {}
      }
    }
  }

  lemma IcmpFirst(p: Packet, env: SetEnv)
    ensures var d := FirstMatch(ICMP_LINES, p, env);
            if IsPing(p) then d.Some? && d.value.action == Accept else d == None
  {
    var v4, v6 := ICMP_LINES[0], ICMP_LINES[1];
    assert FamProto(V4, Icmp) in v4.matches && FamProto(V6, IcmpV6) in v6.matches;
    FirstMatchConcat([v4], [v6], p, env);
    OneLine(v4, p, env);
    OneLine(v6, p, env);
    assert ICMP_LINES == [v4] + [v6];
  }

  /**
   The input chain accepts exactly: loopback; tracked replies when allowed; and,
   unless invalid, ICMP and management access — or anything when the firewall is off.
   */
  lemma {:induction false} InputAdmitsExactly(c: Config, p: Packet, env: SetEnv)
    ensures Accepted(FirstMatch(InputLines(c), p, env), c.security.firewall) <==>
            || p.iif == "lo"
            || (c.security.allowEstablished && p.ct in {Established, Related})
            || (p.ct != Invalid && (!c.security.firewall || IsPing(p) || FromManagement(c, p)))
  {
    var mgmt := ManagementLines(c.managementCIDRs, c.security.managementPorts);
    FirstMatchConcat([LOOPBACK] + ConntrackLines(c) + mgmt, ICMP_LINES, p, env);
    FirstMatchConcat([LOOPBACK] + ConntrackLines(c), mgmt, p, env);
    FirstMatchConcat([LOOPBACK], ConntrackLines(c), p, env);
    OneLine(LOOPBACK, p, env);
    assert IifName("lo") in LOOPBACK.matches;
    ConntrackFirst(c, p, env);
    ManagementFirst(c.managementCIDRs, c.security.managementPorts, p, env);
    IcmpFirst(p, env);
  }
}
