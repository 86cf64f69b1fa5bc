/** What the chains of the compiled table say about a packet, in terms of the configuration's fields. */
module Verdicts {
  import opened Basics
  import opened Config
  import opened Nft
  import opened MatchCompiler
  import opened MatchMeaning
  import opened RuleOrder
  import opened RuleActions
  import opened PolicyChains
  import opened InputChain
  import opened NatChains
  import opened CompiledTable
  import V = Validation

  // ----- mark and table of a rule

  lemma {:induction false} FirstTunnelIs(ts: seq<Tunnel>, k: nat)
    requires k < |ts| && V.NoRepeats(V.TunnelIds(ts))
    ensures FirstTunnel(ts, ts[k].id) == Some(ts[k])
  {
    var ids := V.TunnelIds(ts);
    if k > 0 {
      assert ids[0] != ids[k];
      assert V.TunnelIds(ts[1..]) == ids[1..];
      FirstTunnelIs(ts[1..], k - 1);
    }
  }

  lemma {:induction false} FirstGroupIs(gs: seq<WanGroup>, k: nat)
    requires k < |gs| && V.NoRepeats(V.GroupIds(gs))
    ensures FirstGroup(gs, gs[k].id) == Some(gs[k])
  {
    var ids := V.GroupIds(gs);
    if k > 0 {
      assert ids[0] != ids[k];
      assert V.GroupIds(gs[1..]) == ids[1..];
      FirstGroupIs(gs[1..], k - 1);
    }
  }

  /** The rule's own mark and table come first, those of the tunnel or group it names fill the gaps. */
  predicate RouteByFields(r: RouteRule, c: Config, route: Route) {
    var a := r.action;
    && (a.kind == ToTunnel ==>
          forall k: nat | k < |c.tunnels| && c.tunnels[k].id == a.target ::
            && route.mark == (if a.mark != 0 then a.mark else c.tunnels[k].mark)
            && route.table == (if a.table != 0 then a.table else c.tunnels[k].table))
    && (a.kind == ToWanGroup || a.kind == LoadBalance ==>
          forall k: nat | k < |c.routing.wanGroups| && c.routing.wanGroups[k].id == a.target ::
            && route.mark == (if a.mark != 0 then a.mark else c.routing.wanGroups[k].mark)
            && route.table == (if a.table != 0 then a.table else c.routing.wanGroups[k].table))
    && (a.kind != ToTunnel && a.kind != ToWanGroup && a.kind != LoadBalance ==>
          route.mark == a.mark && route.table == a.table)
  }

  /** In a validated configuration a rule's route is what its fields and those of its target say. */
  lemma {:induction false} RouteIsByFields(c: Config, r: RouteRule)
    requires V.ValidConfig(c)
    ensures RouteByFields(r, c, RouteOf(r, c.tunnels, c.routing.wanGroups))
  {
    assert V.NoRepeats(V.TunnelIds(c.tunnels)) && V.NoRepeats(V.GroupIds(c.routing.wanGroups));
    hide V.ValidConfig;
    forall k: nat | k < |c.tunnels| ensures FirstTunnel(c.tunnels, c.tunnels[k].id) == Some(c.tunnels[k]) {
      FirstTunnelIs(c.tunnels, k);
    }
    forall k: nat | k < |c.routing.wanGroups|
      ensures FirstGroup(c.routing.wanGroups, c.routing.wanGroups[k].id) == Some(c.routing.wanGroups[k])
    {
      FirstGroupIs(c.routing.wanGroups, k);
    }
    hide FirstTunnel;
    hide FirstGroup;
    hide V.NoRepeats;
  }

  // ----- the deciding rule

  /** An enabled drop or reject rule with a line that matches. */
  predicate Blocks(c: Config, i: nat, p: Packet) {
    && i < |c.routing.rules| && c.routing.rules[i].enabled
    && (c.routing.rules[i].action.kind == Blackhole || c.routing.rules[i].action.kind == Reject)
    && Compiled(c.routing.rules[i].match_, c.routing.sets, p)
  }

  function MarkOf(c: Config, i: nat): int
    requires i < |c.routing.rules|
  {
    RouteOf(c.routing.rules[i], c.tunnels, c.routing.wanGroups).mark
  }

  /** An enabled direct rule, or one that steers with a mark, with a line that matches. */
  predicate Routes(c: Config, i: nat, p: Packet) {
    && i < |c.routing.rules| && c.routing.rules[i].enabled
    && (|| c.routing.rules[i].action.kind == Direct
        || (MarkOf(c, i) != 0 &&
            c.routing.rules[i].action.kind in {ToInterface, ToTunnel, ToWanGroup, LoadBalance, Scan, Mirror}))
    && Compiled(c.routing.rules[i].match_, c.routing.sets, p)
  }

  /** Rule i comes before rule j: by priority, and by position between equals. */
  predicate Precedes(c: Config, i: nat, j: nat)
    requires i < |c.routing.rules| && j < |c.routing.rules|
  {
    var a, b := c.routing.rules[i].priority, c.routing.rules[j].priority;
    a < b || (a == b && i < j)
  }

  predicate FirstBlocks(c: Config, w: nat, p: Packet) {
    && w < |c.routing.rules| && Blocks(c, w, p)
    && forall j: nat | j < |c.routing.rules| && j != w && Blocks(c, j, p) :: Precedes(c, w, j)
  }

  predicate FirstRoutes(c: Config, w: nat, p: Packet) {
    && w < |c.routing.rules| && Routes(c, w, p)
    && forall j: nat | j < |c.routing.rules| && j != w && Routes(c, j, p) :: Precedes(c, w, j)
  }

  lemma BlocksIsCandidate(c: Config, i: nat, p: Packet)
    ensures Candidate(c, i, true, p) <==> Blocks(c, i, p)
  {
    hide Compiled;
  }

  lemma RoutesIsCandidate(c: Config, i: nat, p: Packet)
    ensures Candidate(c, i, false, p) <==> Routes(c, i, p)
  {
    hide Compiled;
    hide RouteOf;
    hide NftMark;
    if i < |c.routing.rules| {
      ResolversAgree(c.routing.rules[i], c.tunnels, c.routing.wanGroups);
    }
  }

  lemma FirstBlocksWins(c: Config, w: nat, p: Packet)
    requires FirstBlocks(c, w, p)
    ensures Winner(c, w, true, p)
  {
    hide Candidate;
    hide Blocks;
    forall j: nat ensures Candidate(c, j, true, p) <==> Blocks(c, j, p) {
      BlocksIsCandidate(c, j, p);
    }
  }

  lemma FirstRoutesWins(c: Config, w: nat, p: Packet)
    requires FirstRoutes(c, w, p)
    ensures Winner(c, w, false, p)
  {
    hide Candidate;
    hide Routes;
    forall j: nat ensures Candidate(c, j, false, p) <==> Routes(c, j, p) {
      RoutesIsCandidate(c, j, p);
    }
  }

  lemma PolicyVerdicts(c: Config, p: Packet)
    ensures Verdict(c, "input", p) == FirstMatch(InputLines(c), p, TableSets(c.routing.sets))
    ensures Verdict(c, "prerouting", p) == FirstMatch(PreroutingLines(c), p, TableSets(c.routing.sets))
    ensures Verdict(c, "forward", p) == FirstMatch(ForwardLines(c), p, TableSets(c.routing.sets))
  {
    TableChains(c);
    assert TableOf(c).sets == AllSetDecls(c.routing.sets);
    hide LinesOf;
    hide DeclareAll;
    hide AllSetDecls;
    hide TableOf;
  }

  // ----- the forward chain

  /** The line that ends a packet's way through a chain: its action, whether it logs, and whose it is. */
  predicate Ends(d: Option<Line>, action: Action, log: bool, comment: string) {
    d.Some? && d.value.action == action && d.value.log == log && d.value.comment == comment
  }

  lemma DecidedFilterEnds(d: Option<Line>, r: RouteRule, c: Config)
    requires DecidedBy(d, r, c)
    ensures r.action.kind == Blackhole ==> Ends(d, Drop, r.action.log, r.id)
    ensures r.action.kind == Reject ==> Ends(d, RejectWith, r.action.log, r.id)
  {
  }

  predicate Tracked(c: Config, p: Packet) {
    c.security.allowEstablished && (p.ct == Established || p.ct == Related)
  }

  /**
   The forward chain of the table: tracked packets pass, invalid ones are dropped, and then the
   first enabled drop or reject rule with a matching line drops or rejects, as its kind says, and
   logs as it says; without one the packet passes to the chain's policy.
   */
  lemma {:induction false} ForwardVerdict(c: Config, p: Packet)
    ensures var d := Verdict(c, "forward", p);
            if Tracked(c, p) then Ends(d, Accept, false, "")
            else if p.ct == Invalid then Ends(d, Drop, false, "")
            else
              && (forall w: nat | FirstBlocks(c, w, p) ::
                    var r := c.routing.rules[w];
                    Ends(d, if r.action.kind == Blackhole then Drop else RejectWith, r.action.log, r.id))
              && ((forall i: nat :: !Blocks(c, i, p)) ==> d == None)
  {
    PolicyVerdicts(c, p);
    ForwardRefinesPolicy(c, p);
    hide Verdict;
    hide FirstMatch;
    hide ForwardLines;
    hide TableSets;
    var d := Verdict(c, "forward", p);
    if !Tracked(c, p) && p.ct != Invalid {
      forall w: nat | FirstBlocks(c, w, p)
        ensures Ends(d, if c.routing.rules[w].action.kind == Blackhole then Drop else RejectWith,
                     c.routing.rules[w].action.log, c.routing.rules[w].id)
      {
        FirstBlocksWins(c, w, p);
        hide Winner;
        DecidedFilterEnds(d, c.routing.rules[w], c);
      }
      if forall i: nat :: !Blocks(c, i, p) {
        forall i: nat ensures !Candidate(c, i, true, p) {
          BlocksIsCandidate(c, i, p);
        }
      }
    }
  }

  // ----- the prerouting chain

  lemma DecidedRoutingEnds(d: Option<Line>, r: RouteRule, c: Config)
    requires DecidedBy(d, r, c) && !IsFilterAction(r.action.kind)
    ensures r.action.kind == Direct ==> Ends(d, SetMarkAccept(0), false, r.id)
    ensures r.action.kind != Direct ==>
              Ends(d, SetMarkAccept(RouteOf(r, c.tunnels, c.routing.wanGroups).mark), r.action.log, r.id)
  {
    hide RouteOf;
    hide NftMark;
    ResolversAgree(r, c.tunnels, c.routing.wanGroups);
  }

  lemma RoutingWinner(c: Config, p: Packet, w: nat)
    requires FirstRoutes(c, w, p)
    ensures DecidedBy(Verdict(c, "prerouting", p), c.routing.rules[w], c)
    ensures !IsFilterAction(c.routing.rules[w].action.kind)
  {
    PolicyVerdicts(c, p);
    FirstRoutesWins(c, w, p);
    RoutesIsCandidate(c, w, p);
    hide Verdict;
    hide Compiled;
    hide FirstMatch;
    hide PreroutingLines;
    hide TableSets;
    var v := PreroutingRefinesPolicy(c, p, Verdict(c, "prerouting", p));
    WinnerUnique(c, v, w, false, p);
  }

  /**
   The prerouting chain of the table: the first enabled direct or marked steering rule with a
   matching line sets mark zero, or the mark its fields resolve to, and logs as it says; a packet
   without one goes to the intrusion-prevention queue when there is one.
   */
  lemma {:induction false} PreroutingVerdict(c: Config, p: Packet)
    ensures var d := Verdict(c, "prerouting", p);
            && (forall w: nat | FirstRoutes(c, w, p) ::
                  var r := c.routing.rules[w];
                  if r.action.kind == Direct then Ends(d, SetMarkAccept(0), false, r.id)
                  else Ends(d, SetMarkAccept(MarkOf(c, w)), r.action.log, r.id))
            && ((forall i: nat :: !Routes(c, i, p)) ==>
                  if c.security.ips.enabled && c.security.ips.nfqueueMode
                  then d.Some? && d.value.action == Queue(c.security.ips.queue)
                  else d == None)
  {
    var d := Verdict(c, "prerouting", p);
    forall w: nat | FirstRoutes(c, w, p)
      ensures var r := c.routing.rules[w];
              if r.action.kind == Direct then Ends(d, SetMarkAccept(0), false, r.id)
              else Ends(d, SetMarkAccept(MarkOf(c, w)), r.action.log, r.id)
    {
      RoutingWinner(c, p, w);
      DecidedRoutingEnds(d, c.routing.rules[w], c);
    }
    if forall i: nat :: !Routes(c, i, p) {
      forall i: nat ensures !Candidate(c, i, false, p) {
        RoutesIsCandidate(c, i, p);
      }
      PolicyVerdicts(c, p);
      hide Verdict;
      hide Candidate;
      hide FirstMatch;
      hide PreroutingLines;
      hide TableSets;
      var v := PreroutingRefinesPolicy(c, p, d);
    }
  }

  // ----- the input chain and the chains' policies

  function PolicyIn(chains: seq<Chain>, name: string): Option<bool> {
    if chains == [] then None
    else if chains[0].name == name then Some(chains[0].policyDrop)
    else PolicyIn(chains[1..], name)
  }

  /** Whether a chain of the table drops what none of its lines decides. */
  function DropsByDefault(c: Config, chain: string): bool {
    PolicyIn(TableOf(c).chains, chain) == Some(true)
  }

  lemma {:induction false} PolicyOfChains(chains: seq<Chain>, name: string, drop: bool)
    requires forall x | x in chains :: x.name == name ==> x.policyDrop == drop
    ensures PolicyIn(chains, name).Some? ==> PolicyIn(chains, name) == Some(drop)
    ensures PolicyIn(chains, name) == None <==> forall x | x in chains :: x.name != name
  {
    if chains != [] {
      assert chains == [chains[0]] + chains[1..];
      PolicyOfChains(chains[1..], name, drop);
    }
  }

  /** Only the input chain drops by default, and only while the firewall is on. */
  lemma {:induction false} ChainPolicies(c: Config, chain: string)
    ensures DropsByDefault(c, chain) <==> chain == "input" && c.security.firewall
  {
    hide InputLines;
    hide DstNatLines;
    hide PreroutingLines;
    hide ForwardLines;
    hide PostroutingLines;
    hide AllSetDecls;
    ChainNames();
    var chains := TableOf(c).chains;
    assert chains[0].name == "input" && chains[0] in chains;
    forall x | x in chains ensures x.policyDrop == (x.name == "input" && c.security.firewall) {}
    PolicyOfChains(chains, chain, chain == "input" && c.security.firewall);
  }

  /**
   The input chain of the table admits exactly loopback, tracked replies when allowed, and, unless
   invalid, pings and management access from a management network, or anything while the firewall is off.
   */
  lemma {:induction false} InputVerdict(c: Config, p: Packet)
    ensures Accepted(Verdict(c, "input", p), DropsByDefault(c, "input")) <==>
            || p.iif == "lo"
            || Tracked(c, p)
            || (p.ct != Invalid && (!c.security.firewall || IsPing(p) || FromManagement(c, p)))
  {
    PolicyVerdicts(c, p);
    ChainPolicies(c, "input");
    hide Verdict;
    hide DropsByDefault;
    hide InputLines;
    hide FirstMatch;
    hide TableSets;
    InputAdmitsExactly(c, p, TableSets(c.routing.sets));
  }
}
