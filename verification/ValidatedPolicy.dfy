/**
 What validation buys the policy compiler: every rule of a validated configuration is
 compiled without losing a packet or leaving a set reference dangling, and a faithful
 policy is routed end to end by the rules as they are written.
 */
module ValidatedPolicy {
  import opened Basics
  import opened Addresses
  import opened Config
  import opened Nft
  import opened Numerals
  import opened MatchCompiler
  import opened MatchMeaning
  import opened RuleOrder
  import opened RuleActions
  import opened PolicyChains
  import opened Validation
  import opened Kernel
  import opened RoutingPlan
  import opened EndToEnd

  /** Validation establishes what match compilation relies on. */
  lemma {:induction false} ValidatedRulesCompile(c: Config, r: RouteRule)
    requires ValidConfig(c) && r in c.routing.rules
    ensures WellFormedRule(r.match_, c.routing.sets)
    ensures forall id | id in r.match_.sets :: id in ById(c.routing.sets)
  {
    var sets, ids := c.routing.sets, RouteSetIds(c.routing.sets);
    assert RuleOk(r, ScopeOf(c));
    forall i, j | 0 <= i < j < |sets| ensures sets[i].id != sets[j].id {
      assert ids[i] != ids[j];
    }
    forall s | s in sets ensures AllParsed(s.cidrs) {
      assert RouteSetOk(s);
    }
    hide ValidConfig;
    hide IsIdentifier;
    forall id | id in r.match_.sets ensures id in ById(sets) {
      assert id in ToSet(ids);
      var k :| 0 <= k < |ids| && ids[k] == id;
      assert sets[k] in sets;
      ByIdLookup(sets, id);
    }
  }

  /** For any validated rule, every packet it is written for, whatever its uncompiled fields mean, is matched by some line. */
  lemma {:induction false} NoPacketIsLost(c: Config, r: RouteRule, p: Packet, reading: Reading)
    requires ValidConfig(c) && r in c.routing.rules && Intended(r.match_, c.routing.sets, p, reading)
    ensures Compiled(r.match_, c.routing.sets, p)
  {
    ValidatedRulesCompile(c, r);
    CompilationLosesNothing(r.match_, c.routing.sets, p, reading);
  }

  // ----- set references

  lemma {:induction false} RowAtoms(prefix: seq<Atom>, ps: seq<seq<Atom>>, e: seq<Atom>, a: Atom)
    requires e in Row(prefix, ps) && a in e
    ensures a in prefix || exists x | x in ps :: a in x
  {
    var init, last := ps[..|ps| - 1], ps[|ps| - 1];
    assert ps == init + [last];
    if e in Row(prefix, init) {
      RowAtoms(prefix, init, e, a);
    }
  }

  lemma {:induction false} GridAtoms(prefix: seq<Atom>, ss: seq<seq<Atom>>, ps: seq<seq<Atom>>, e: seq<Atom>, a: Atom)
    requires e in Grid(prefix, ss, ps) && a in e
    ensures a in prefix || (exists x | x in ss :: a in x) || (exists x | x in ps :: a in x)
  {
    var init, last := ss[..|ss| - 1], ss[|ss| - 1];
    assert ss == init + [last];
    if e in Grid(prefix, init, ps) {
      GridAtoms(prefix, init, ps, e, a);
    } else {
      RowAtoms(prefix + last, ps, e, a);
    }
  }

  lemma {:induction false} CubeAtoms(
    prefix: seq<Atom>, cs: seq<seq<Atom>>, ss: seq<seq<Atom>>, ps: seq<seq<Atom>>, e: seq<Atom>, a: Atom)
    requires e in Cube(prefix, cs, ss, ps) && a in e
    ensures || a in prefix || (exists x | x in cs :: a in x)
            || (exists x | x in ss :: a in x) || (exists x | x in ps :: a in x)
  {
    var init, last := cs[..|cs| - 1], cs[|cs| - 1];
    assert cs == init + [last];
    if e in Cube(prefix, init, ss, ps) {
      CubeAtoms(prefix, init, ss, ps, e, a);
    } else {
      GridAtoms(prefix + last, ss, ps, e, a);
    }
  }

  lemma {:induction false} PortExprsNameNoSet(m: RuleMatch, protos: seq<Protocol>, e: seq<Atom>, a: Atom)
    requires e in PortExprsOf(m, protos) && a in e
    ensures !a.DAddrNamed?
  {
    if e in PortExprsOf(m, protos[..|protos| - 1]) {
      PortExprsNameNoSet(m, protos[..|protos| - 1], e, a);
    }
  }

  /** An atom naming a set can only come from the route-set factor. */
  lemma NamedAtomOrigin(m: RuleMatch, sets: seq<RouteSet>, e: seq<Atom>, a: Atom)
    requires e in MatchExprs(m, sets) && a in e && a.DAddrNamed?
    ensures exists x | x in SetExprs(m.sets, ById(sets)) :: a in x
  {
    var cs, ss, ps := OrBlank(CidrExprs(m)), OrBlank(SetExprs(m.sets, ById(sets))), OrBlank(PortExprs(m));
    CubeAtoms(Base(m), cs, ss, ps, e, a);
    assert a !in Base(m);
    forall x | x in ps ensures a !in x {
      if a in x { PortExprsNameNoSet(m, PortProtocols(m), x, a); }
    }
    forall x | x in cs ensures a !in x {}
  }

  lemma {:induction false} LineMatches(exprs: seq<seq<Atom>>, e: Ending, id: string, l: Line)
    requires l in LinesFor(exprs, e, id)
    ensures l.matches in exprs
  {
    if l in LinesFor(exprs[..|exprs| - 1], e, id) {
      LineMatches(exprs[..|exprs| - 1], e, id, l);
    }
  }

  lemma RuleLineMatches(r: RouteRule, c: Config, l: Line)
    requires l in RuleLines(r, c) && l.matches != []
    ensures l.matches in MatchExprs(r.match_, c.routing.sets)
  {
    hide MatchExprs;
    hide EndingOf;
    LineMatches(MatchExprs(r.match_, c.routing.sets), EndingOf(r, c.tunnels, c.routing.wanGroups).value, r.id, l);
  }

  /**
   No dangling reference: each set named in a line of a validated rule belongs to a set the
   rule refers to and is declared; with distinct identifiers it holds exactly that set's CIDRs.
   */
  lemma {:induction false} NoDanglingReference(c: Config, r: RouteRule, l: Line, a: Atom) returns (s: RouteSet)
    requires ValidConfig(c) && r in c.routing.rules && l in RuleLines(r, c) && a in l.matches && a.DAddrNamed?
    ensures a.setName in TableSets(c.routing.sets)
    ensures s in c.routing.sets && s.enabled && s.id in r.match_.sets && a.setName == SetName(s.id, a.fam)
    ensures DistinctNames(c.routing.sets) ==>
              forall x :: x in Elements(TableSets(c.routing.sets), a.setName) <==> x in OfFamily(s.cidrs, a.fam)
  {
    var m, sets := r.match_, c.routing.sets;
    hide ValidConfig;
    hide TableSets;
    hide MatchExprs;
    hide SetName;
    hide DistinctNames;
    hide SetExprs;
    hide RuleLines;
    ValidatedRulesCompile(c, r);
    RuleLineMatches(r, c, l);
    NamedAtomOrigin(m, sets, l.matches, a);
    var x :| x in SetExprs(m.sets, ById(sets)) && a in x;
    var fam;
    s, fam := ReferencesResolve(m, sets, x);
  }

  // ----- the rules as written, end to end

  /** Every enabled rule that can match the family has a mark if it steers and passes the side conditions of exact compilation. */
  predicate CompiledFaithfully(c: Config, fam: Family) {
    forall r | r in c.routing.rules && r.enabled ::
      Satisfiable(r.match_, c.routing.sets, fam) ==> Effective(r, c) && Faithful(r.match_, c.routing.sets, fam)
  }

  lemma ValidatedPolicyIsFaithful(c: Config, fam: Family)
    requires ValidConfig(c) && CompiledFaithfully(c, fam)
    ensures FaithfulPolicy(c, fam)
  {
    hide ValidConfig;
    hide WellFormedRule;
    hide Satisfiable;
    hide Faithful;
    hide Effective;
    forall r | r in c.routing.rules && r.enabled ensures WellFormedRule(r.match_, c.routing.sets) {
      ValidatedRulesCompile(c, r);
    }
  }

  lemma CandidatesAgree(c: Config, filter: bool, p: Packet, reading: Reading)
    requires FaithfulPolicy(c, p.fam) && ValidPacket(p) && Neutral(reading)
    ensures (exists i: nat :: Candidate(c, i, filter, p)) <==> (exists i: nat :: IntendedCandidate(c, i, filter, p, reading))
  {
    hide FaithfulPolicy;
    hide Candidate;
    hide IntendedCandidate;
    forall i: nat ensures Candidate(c, i, filter, p) <==> IntendedCandidate(c, i, filter, p, reading) {
      CandidateAgrees(c, i, filter, p, reading);
    }
  }

  /** Distinct enabled priorities, one table per mark, rules compiled faithfully for the family. */
  predicate SoundPolicy(c: Config, fam: Family) {
    DistinctPriorities(c.routing.rules) && MarksFunctional(c) && CompiledFaithfully(c, fam)
  }

  predicate UnmarkedIpv4(p: Packet) {
    p.mark == 0 && p.fam == V4 && ValidPacket(p)
  }

  /**
   The packet gets the mark of the first rule by priority that is written for it and steers it,
   and is looked up, after the local table, where the rules with that mark say; otherwise in the
   main table.
   */
  ghost predicate FollowsPolicy(c: Config, rules: seq<IpRule>, p: Packet, d: Option<Line>, reading: Reading, w: nat) {
    if exists i: nat :: IntendedCandidate(c, i, false, p, reading)
    then
      && IntendedWinner(c, w, false, p, reading)
      && (if Steers(c.routing.rules[w].action.kind)
          then MarkAfter(d, p) == RouteAt(c, w).mark != 0 && LeadsAsRouted(c, rules, RouteAt(c, w).mark)
          else GoesTo(rules, MarkAfter(d, p), MAIN_TABLE))
    else GoesTo(rules, MarkAfter(d, p), MAIN_TABLE)
  }

  /** Once the plan of a sound, validated policy has been applied, every unmarked IPv4 packet follows the policy as written. */
  lemma {:induction false} PolicyIsRouted(c: Config, s: State, t: State, p: Packet, d: Option<Line>, reading: Reading)
    returns (w: nat)
    requires Applied(c, s, t)
    requires SoundPolicy(c, V4) && UnmarkedIpv4(p) && Neutral(reading)
    requires d == FirstMatch(PreroutingLines(c), p, TableSets(c.routing.sets))
    ensures FollowsPolicy(c, t.rules, p, d, reading, w)
  {
    hide FaithfulPolicy;
    hide CompiledFaithfully;
    hide GoesTo;
    hide LeadsAsRouted;
    hide FirstMatch;
    hide PreroutingLines;
    hide Candidate;
    hide IntendedCandidate;
    hide Neutral;
    hide MarksFunctional;
    hide DistinctPriorities;
    hide ValidConfig;
    hide Run;
    hide PlanSteps;
    ValidatedPolicyIsFaithful(c, p.fam);
    w := EndToEndRouting(c, s, t, p, d);
    hide Applied;
    CandidatesAgree(c, false, p, reading);
    if exists i: nat :: Candidate(c, i, false, p) {
      FaithfulWinner(c, w, false, p, reading);
      hide Winner;
      hide IntendedWinner;
    }
  }

  // ----- marks

  /**
   The two resolvers agree for every steering rule of a validated configuration: its lines set
   a mark exactly when its policy-routing entry has one, the two are equal, and the hexadecimal
   and the decimal text denote that number.
   */
  lemma {:induction false} MarksAgree(c: Config, i: nat)
    requires ValidConfig(c) && i < |c.routing.rules| && Steers(c.routing.rules[i].action.kind)
    ensures var e, m := EndingOf(c.routing.rules[i], c.tunnels, c.routing.wanGroups), RouteAt(c, i).mark;
            && m >= 0
            && (e.Some? <==> m != 0)
            && (e.Some? ==> e.value.action == SetMarkAccept(m))
            && ParseNumber(Hex(m)) == Number(m)
            && ParseInt(IntText(m)) == Int(m)
  {
    hide ValidConfig;
    hide EndingOf;
    hide RouteOf;
    hide Steers;
    RouteInRange(c, i);
    ResolversAgree(c.routing.rules[i], c.tunnels, c.routing.wanGroups);
    var m := RouteAt(c, i).mark;
    MarkTextsAgree(m);
    IntRoundTrip(m);
  }

  // ----- equal priorities

  /** A mark whose every rule shares its priority with a later routed rule leads to the main table. */
  lemma {:induction false} TiedMarkFallsThrough(c: Config, s: State, t: State, mark: int)
    requires Applied(c, s, t)
    requires forall i: nat | i < |c.routing.rules| && RoutedAt(c, i) && RouteAt(c, i).mark == mark ::
               exists j: nat | i < j < |c.routing.rules| ::
                 RoutedAt(c, j) && c.routing.rules[j].priority == c.routing.rules[i].priority
    ensures GoesTo(t.rules, mark, MAIN_TABLE)
  {
    FinalRules(c, s, t);
    ValidRanges(c);
    MarkLeadsTo(c, t.rules, mark);
    hide Applied;
    hide Installed;
    hide GoesTo;
    hide RoutedAt;
    hide RouteAt;
    forall i: nat | i < |c.routing.rules| ensures !MarkedSurvivor(c, i, mark) {}
  }
}
