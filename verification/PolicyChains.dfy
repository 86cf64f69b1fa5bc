/**
 The prerouting and forward chains: flat line lists, and what they decide in terms
 of the configured rules.
 */
module PolicyChains {
  import opened Basics
  import Addresses
  import opened Config
  import opened Nft
  import opened MatchCompiler
  import opened MatchMeaning
  import opened RuleOrder
  import opened RuleActions

  function LinesFor(exprs: seq<seq<Atom>>, e: Ending, id: string): seq<Line> {
    if exprs == [] then [] else
      LinesFor(exprs[..|exprs| - 1], e, id) + [Line(exprs[|exprs| - 1], e.log, e.action, id)]
  }

  function RuleLines(rule: RouteRule, c: Config): seq<Line> {
    match EndingOf(rule, c.tunnels, c.routing.wanGroups)
    case None => []
    case Some(e) =>
      var exprs := MatchExprs(rule.match_, c.routing.sets);
      if exprs == [] then [Line([], e.log, e.action, rule.id)] else LinesFor(exprs, e, rule.id)
  }

  /** What a rule contributes to the chain of filter rules, or to the chain of routing rules. */
  function Block(rule: RouteRule, filter: bool, c: Config): seq<Line> {
    if rule.enabled && IsFilterAction(rule.action.kind) == filter then RuleLines(rule, c) else []
  }

  function Blocks(rules: seq<RouteRule>, filter: bool, c: Config): seq<seq<Line>> {
    seq(|rules|, i requires 0 <= i < |rules| => Block(rules[i], filter, c))
  }

  /** Lines of the enabled rules of one sort (filter or routing), in the given order. */
  function ChainLines(rules: seq<RouteRule>, filter: bool, c: Config): seq<Line> {
    Flatten(Blocks(rules, filter, c))
  }

  function QueueLines(c: Config): seq<Line> {
    if c.security.ips.enabled && c.security.ips.nfqueueMode
    then [Line([], false, Queue(c.security.ips.queue), "suricata nfqueue")]
    else []
  }

  function PreroutingLines(c: Config): seq<Line> {
    ChainLines(StableSort(c.routing.rules), false, c) + QueueLines(c)
  }

  function ConntrackLines(c: Config): seq<Line> {
    (if c.security.allowEstablished then [Line([CtState({Established, Related})], false, Accept, "")] else []) +
    [Line([CtState({Invalid})], false, Drop, "")]
  }

  function ForwardLines(c: Config): seq<Line> {
    ConntrackLines(c) + ChainLines(StableSort(c.routing.rules), true, c)
  }

  function DomainWarnings(id: string, m: RuleMatch): seq<Warning> {
    seq(|m.domains|, i requires 0 <= i < |m.domains| => DomainMatch(id, m.domains[i]))
  }

  function GeoWarnings(id: string, m: RuleMatch): seq<Warning> {
    seq(|m.geoIP|, i requires 0 <= i < |m.geoIP| => GeoMatch(id, m.geoIP[i]))
  }

  function RuleWarnings(rule: RouteRule, c: Config): seq<Warning> {
    DomainWarnings(rule.id, rule.match_) + GeoWarnings(rule.id, rule.match_) +
    MatchWarnings(rule.id, rule.match_, c.routing.sets)
  }

  function BlockWarnings(rule: RouteRule, filter: bool, c: Config): seq<Warning> {
    if rule.enabled && IsFilterAction(rule.action.kind) == filter then RuleWarnings(rule, c) else []
  }

  function ChainWarnings(rules: seq<RouteRule>, filter: bool, c: Config): seq<Warning> {
    if rules == [] then [] else
      ChainWarnings(rules[..|rules| - 1], filter, c) + BlockWarnings(rules[|rules| - 1], filter, c)
  }

  // ----- one rule's lines

  lemma {:induction false} LinesForFirst(exprs: seq<seq<Atom>>, e: Ending, id: string, p: Packet, env: SetEnv)
    ensures Any(exprs, p, env) ==>
              exists l :: FirstMatch(LinesFor(exprs, e, id), p, env) == Some(l) &&
                          l.log == e.log && l.action == e.action && l.comment == id
    ensures !Any(exprs, p, env) ==> FirstMatch(LinesFor(exprs, e, id), p, env) == None
  {
    if exprs != [] {
      var init, last := exprs[..|exprs| - 1], exprs[|exprs| - 1];
      LinesForFirst(init, e, id, p, env);
      FirstMatchConcat(LinesFor(init, e, id), [Line(last, e.log, e.action, id)], p, env);
      SplitLast(exprs, p, env);
    }
  }

  /** A packet is decided by the rule: the deciding line carries its action, log flag and ID. */
  predicate DecidedBy(decision: Option<Line>, rule: RouteRule, c: Config) {
    var e := EndingOf(rule, c.tunnels, c.routing.wanGroups);
    && decision.Some? && e.Some?
    && decision.value.action == e.value.action
    && decision.value.log == e.value.log
    && decision.value.comment == rule.id
  }

  lemma RuleLinesFirst(rule: RouteRule, c: Config, p: Packet)
    ensures var d := FirstMatch(RuleLines(rule, c), p, TableSets(c.routing.sets));
            if EndingOf(rule, c.tunnels, c.routing.wanGroups).Some? && Compiled(rule.match_, c.routing.sets, p)
            then DecidedBy(d, rule, c) else d == None
  {
    var exprs := MatchExprs(rule.match_, c.routing.sets);
    LineCount(rule.match_, c.routing.sets);
    match EndingOf(rule, c.tunnels, c.routing.wanGroups)
    case None =>
    case Some(e) => LinesForFirst(exprs, e, rule.id, p, TableSets(c.routing.sets));
  }

  // ----- a chain of rules

  /** The rule has lines in the chain and one of them matches the packet. */
  predicate Applies(rule: RouteRule, filter: bool, c: Config, p: Packet) {
    && rule.enabled
    && IsFilterAction(rule.action.kind) == filter
    && EndingOf(rule, c.tunnels, c.routing.wanGroups).Some?
    && Compiled(rule.match_, c.routing.sets, p)
  }

  /** The first of several rules that applies. */
  predicate IsFirst(rules: seq<RouteRule>, k: nat, filter: bool, c: Config, p: Packet) {
    && k < |rules|
    && Applies(rules[k], filter, c, p)
    && forall j: nat :: j < k ==> !Applies(rules[j], filter, c, p)
  }

  lemma BlockFirst(rule: RouteRule, filter: bool, c: Config, p: Packet)
    ensures var d := FirstMatch(Block(rule, filter, c), p, TableSets(c.routing.sets));
            if Applies(rule, filter, c, p) then DecidedBy(d, rule, c) else d == None
  {
    RuleLinesFirst(rule, c, p);
  }

  /** The chain of some rules decides by the first rule that applies. */
  lemma ChainFirst(rules: seq<RouteRule>, filter: bool, c: Config, p: Packet, d: Option<Line>) returns (k: nat)
    requires d == FirstMatch(ChainLines(rules, filter, c), p, TableSets(c.routing.sets))
    ensures d == None ==> forall r | r in rules :: !Applies(r, filter, c, p)
    ensures d != None ==> IsFirst(rules, k, filter, c, p) && DecidedBy(d, rules[k], c)
  {
    var blocks, env := Blocks(rules, filter, c), TableSets(c.routing.sets);
    k := FlattenDecides(blocks, p, env);
    if d == None {
      forall r | r in rules ensures !Applies(r, filter, c, p) {
        var i: nat :| i < |rules| && rules[i] == r;
        assert FirstMatch(blocks[i], p, env) == None;
        BlockFirst(r, filter, c, p);
      }
    } else {
      BlockFirst(rules[k], filter, c, p);
      forall j: nat | j < k ensures !Applies(rules[j], filter, c, p) {
        assert FirstMatch(blocks[j], p, env) == None;
        BlockFirst(rules[j], filter, c, p);
      }
    }
  }

  // ----- the configured rules, with no reference to sorting or flattening

  predicate Candidate(c: Config, i: nat, filter: bool, p: Packet) {
    i < |c.routing.rules| && Applies(c.routing.rules[i], filter, c, p)
  }

  /** The rule that wins: no other applicable rule has a smaller priority, or an equal one earlier in the configuration. */
  predicate Winner(c: Config, i: nat, filter: bool, p: Packet) {
    && Candidate(c, i, filter, p)
    && forall j: nat | j < |c.routing.rules| && j != i :: Candidate(c, j, filter, p) ==> Before(c.routing.rules, i, j)
  }

  lemma FirstIsWinner(c: Config, k: nat, filter: bool, p: Packet) returns (i: nat)
    requires IsFirst(StableSort(c.routing.rules), k, filter, c, p)
    ensures Winner(c, i, filter, p) && c.routing.rules[i] == StableSort(c.routing.rules)[k]
  {
    hide Applies;
    var rules, order := c.routing.rules, Order(c.routing.rules);
    OrderIsStable(rules);
    i := order[k];
    var hits := seq(|rules|, j requires 0 <= j < |rules| => Applies(rules[j], filter, c, p));
    forall j: nat | j < k ensures !hits[order[j]] {
      assert StableSort(rules)[j] == rules[order[j]];
    }
    FirstInOrder(rules, hits, k);
  }

  lemma NoCandidates(c: Config, filter: bool, p: Packet)
    requires forall r | r in StableSort(c.routing.rules) :: !Applies(r, filter, c, p)
    ensures forall i: nat :: !Candidate(c, i, filter, p)
  {
    SortedMembers(c.routing.rules);
  }

  lemma WinnerUnique(c: Config, i: nat, j: nat, filter: bool, p: Packet)
    requires Winner(c, i, filter, p) && Winner(c, j, filter, p)
    ensures i == j
  {
  }

  /** The packet is decided by the winning rule, and left alone exactly when no rule applies. */
  ghost predicate PolicyDecision(d: Option<Line>, c: Config, filter: bool, p: Packet) {
    && (forall i: nat :: Winner(c, i, filter, p) ==> DecidedBy(d, c.routing.rules[i], c))
    && (d == None <==> forall i: nat :: !Candidate(c, i, filter, p))
  }

  lemma ChainWinner(c: Config, filter: bool, p: Packet, d: Option<Line>) returns (w: nat)
    requires d == FirstMatch(ChainLines(StableSort(c.routing.rules), filter, c), p, TableSets(c.routing.sets))
    ensures d == None ==> forall i: nat :: !Candidate(c, i, filter, p)
    ensures d != None ==> Winner(c, w, filter, p) && DecidedBy(d, c.routing.rules[w], c)
  {
    var sorted := StableSort(c.routing.rules);
    var k := ChainFirst(sorted, filter, c, p, d);
    w := 0;
    if d == None {
      NoCandidates(c, filter, p);
    } else {
      w := FirstIsWinner(c, k, filter, p);
    }
  }

  lemma ChainDecides(c: Config, filter: bool, p: Packet, d: Option<Line>)
    requires d == FirstMatch(ChainLines(StableSort(c.routing.rules), filter, c), p, TableSets(c.routing.sets))
    ensures PolicyDecision(d, c, filter, p)
    ensures d != None ==> exists i: nat :: Winner(c, i, filter, p)
  {
    var w := ChainWinner(c, filter, p, d);
    if d != None {
      assert Candidate(c, w, filter, p);
      forall i: nat | Winner(c, i, filter, p) ensures i == w {
        WinnerUnique(c, i, w, filter, p);
      }
    }
  }

  /**
   The prerouting chain refines the policy: the winning routing rule decides; the
   intrusion-prevention queue gets exactly the packets no routing rule applies to.
   */
  lemma {:induction false} PreroutingRefinesPolicy(c: Config, p: Packet, d: Option<Line>) returns (w: nat)
    requires d == FirstMatch(PreroutingLines(c), p, TableSets(c.routing.sets))
    ensures if exists i: nat :: Candidate(c, i, false, p)
            then Winner(c, w, false, p) && DecidedBy(d, c.routing.rules[w], c) && !d.value.action.Queue?
            else if c.security.ips.enabled && c.security.ips.nfqueueMode
            then d == Some(Line([], false, Queue(c.security.ips.queue), "suricata nfqueue"))
            else d == None
  {
    hide Compiled;
    hide RuleLines;
    var env := TableSets(c.routing.sets);
    var chain := ChainLines(StableSort(c.routing.rules), false, c);
    FirstMatchConcat(chain, QueueLines(c), p, env);
    w := ChainWinner(c, false, p, FirstMatch(chain, p, env));
    if FirstMatch(chain, p, env) != None {
      assert Candidate(c, w, false, p);
    }
  }

  /** A decision that is nobody's rule: no log and no comment. */
  predicate Plain(d: Option<Line>, action: Action) {
    d.Some? && d.value.action == action && !d.value.log && d.value.comment == ""
  }

  lemma ConntrackFirst(c: Config, p: Packet, env: SetEnv)
    ensures var d := FirstMatch(ConntrackLines(c), p, env);
            if c.security.allowEstablished && p.ct in {Established, Related} then Plain(d, Accept)
            else if p.ct == Invalid then Plain(d, Drop)
            else d == None
  {
    var inv := Line([CtState({Invalid})], false, Drop, "");
    var est := Line([CtState({Established, Related})], false, Accept, "");
    assert CtState({Invalid}) in inv.matches && CtState({Established, Related}) in est.matches;
    assert FirstMatch([inv], p, env) == if p.ct == Invalid then Some(inv) else None by {
      assert [inv][1..] == [];
    }
    if c.security.allowEstablished {
      FirstMatchConcat([est], [inv], p, env);
      assert [est][1..] == [];
    } else {
      assert ConntrackLines(c) == [inv];
    }
  }

  /** The forward chain: connection tracking first, then the winning drop or reject rule. */
  lemma {:induction false} ForwardRefinesPolicy(c: Config, p: Packet)
    ensures var d := FirstMatch(ForwardLines(c), p, TableSets(c.routing.sets));
            if c.security.allowEstablished && p.ct in {Established, Related} then Plain(d, Accept)
            else if p.ct == Invalid then Plain(d, Drop)
            else PolicyDecision(d, c, true, p) && (d != None ==> exists i: nat :: Winner(c, i, true, p))
  {
    var env := TableSets(c.routing.sets);
    var chain := ChainLines(StableSort(c.routing.rules), true, c);
    ConntrackFirst(c, p, env);
    FirstMatchConcat(ConntrackLines(c), chain, p, env);
    ChainDecides(c, true, p, FirstMatch(chain, p, env));
  }

  // ----- configuration order does not matter

  lemma ChainSnoc(init: seq<RouteRule>, last: RouteRule, filter: bool, c: Config)
    ensures ChainLines(init + [last], filter, c) == ChainLines(init, filter, c) + Block(last, filter, c)
  {
    var blocks := Blocks(init + [last], filter, c);
    assert blocks[..|blocks| - 1] == Blocks(init, filter, c);
  }

  lemma {:induction false} OnlyEnabledContribute(rules: seq<RouteRule>, filter: bool, c: Config)
    ensures ChainLines(rules, filter, c) == ChainLines(EnabledOnly(rules), filter, c)
  {
    hide RuleLines;
    if rules != [] {
      var init, last := rules[..|rules| - 1], rules[|rules| - 1];
      OnlyEnabledContribute(init, filter, c);
      ChainSnoc(init, last, filter, c);
      assert rules == init + [last];
      if last.enabled {
        ChainSnoc(EnabledOnly(init), last, filter, c);
      } else {
        assert EnabledOnly(rules) == EnabledOnly(init);
      }
    }
  }

  lemma SameContext(rules: seq<RouteRule>, filter: bool, c: Config, d: Config)
    requires c.tunnels == d.tunnels && c.routing.wanGroups == d.routing.wanGroups && c.routing.sets == d.routing.sets
    ensures ChainLines(rules, filter, c) == ChainLines(rules, filter, d)
  {
    assert Blocks(rules, filter, c) == Blocks(rules, filter, d);
  }

  /** With distinct priorities among enabled rules, every permutation compiles to the same chains. */
  lemma {:induction false} ChainsIgnoreConfigOrder(c: Config, rules: seq<RouteRule>)
    requires multiset(rules) == multiset(c.routing.rules) && DistinctPriorities(c.routing.rules)
    ensures var d := c.(routing := c.routing.(rules := rules));
            PreroutingLines(d) == PreroutingLines(c) && ForwardLines(d) == ForwardLines(c)
  {
    var d := c.(routing := c.routing.(rules := rules));
    OrderIndependent(c.routing.rules, rules);
    forall filter: bool
      ensures ChainLines(StableSort(rules), filter, d) == ChainLines(StableSort(c.routing.rules), filter, c)
    {
      OnlyEnabledContribute(StableSort(rules), filter, d);
      OnlyEnabledContribute(StableSort(c.routing.rules), filter, c);
      SameContext(EnabledOnly(StableSort(rules)), filter, c, d);
    }
  }

  // ----- the policy as written

  /** The rule is written for the packet, under a reading of its uncompiled fields. */
  predicate IntendedCandidate(c: Config, i: nat, filter: bool, p: Packet, reading: Reading) {
    && i < |c.routing.rules|
    && c.routing.rules[i].enabled
    && IsFilterAction(c.routing.rules[i].action.kind) == filter
    && Intended(c.routing.rules[i].match_, c.routing.sets, p, reading)
  }

  /** The winner by what the rules are written for instead of by their compiled lines. */
  predicate IntendedWinner(c: Config, i: nat, filter: bool, p: Packet, reading: Reading) {
    && IntendedCandidate(c, i, filter, p, reading)
    && forall j: nat | j < |c.routing.rules| && j != i ::
         IntendedCandidate(c, j, filter, p, reading) ==> Before(c.routing.rules, i, j)
  }

  /** The rule says what to do with its packets: it has a known action and, when it steers, a mark. */
  predicate Effective(r: RouteRule, c: Config) {
    !r.action.kind.OtherAction? && (Steers(r.action.kind) ==> RouteOf(r, c.tunnels, c.routing.wanGroups).mark != 0)
  }

  lemma EffectiveHasLines(r: RouteRule, c: Config)
    ensures Effective(r, c) <==> EndingOf(r, c.tunnels, c.routing.wanGroups).Some?
  {
    ResolversAgree(r, c.tunnels, c.routing.wanGroups);
  }

  /**
   Every enabled rule that can match a family is effective and compiled faithfully for it, which
   includes having no uncompiled field.
   */
  predicate FaithfulPolicy(c: Config, fam: Addresses.Family) {
    forall r | r in c.routing.rules && r.enabled ::
      WellFormedRule(r.match_, c.routing.sets) &&
      (Satisfiable(r.match_, c.routing.sets, fam) ==> Effective(r, c) && Faithful(r.match_, c.routing.sets, fam))
  }

  lemma CandidateAgrees(c: Config, i: nat, filter: bool, p: Packet, reading: Reading)
    requires FaithfulPolicy(c, p.fam) && ValidPacket(p) && Neutral(reading)
    ensures Candidate(c, i, filter, p) <==> IntendedCandidate(c, i, filter, p, reading)
  {
    if i < |c.routing.rules| && c.routing.rules[i].enabled {
      var r := c.routing.rules[i];
      assert r in c.routing.rules;
      hide Faithful;
      hide Satisfiable;
      hide WellFormedRule;
      hide Compiled;
      hide EndingOf;
      hide Effective;
      EffectiveHasLines(r, c);
      ExactForPacket(r.match_, c.routing.sets, p, reading);
      if Intended(r.match_, c.routing.sets, p, reading) {
        CompilationLosesNothing(r.match_, c.routing.sets, p, reading);
        MatchedFamilyIsSatisfiable(r.match_, c.routing.sets, p);
      }
      hide Intended;
    }
  }

  /** For a faithfully compiled policy the lines pick the rule an operator would pick by reading the rules. */
  lemma {:induction false} FaithfulWinner(c: Config, i: nat, filter: bool, p: Packet, reading: Reading)
    requires FaithfulPolicy(c, p.fam) && ValidPacket(p) && Neutral(reading)
    ensures Winner(c, i, filter, p) <==> IntendedWinner(c, i, filter, p, reading)
  {
    hide FaithfulPolicy;
    hide Candidate;
    hide IntendedCandidate;
    forall j: nat ensures Candidate(c, j, filter, p) <==> IntendedCandidate(c, j, filter, p, reading) {
      CandidateAgrees(c, j, filter, p, reading);
    }
  }
}
