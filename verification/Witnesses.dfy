/** Validated configurations in which the end-to-end theorems apply. */
module Witnesses {
  import opened Basics
  import opened Addresses
  import opened Config
  import opened Nft
  import opened MatchCompiler
  import opened MatchMeaning
  import opened RuleOrder
  import opened RuleActions
  import opened PolicyChains
  import opened Validation
  import opened Kernel
  import opened Reapply
  import opened RoutingPlan
  import opened EndToEnd
  import opened ValidatedPolicy
  import opened Completion
  import opened TunnelOutcome
  import opened Departure
  import opened Traps

  // ----- a steering rule

  const STEERING := RuleFor("r", 10, ANY, ToInterface, 1, 101)

  /** The configuration whose one rule steers everything to table 101. */
  function Steering(): Config {
    Small([], [STEERING])
  }

  lemma SteeringRoute()
    ensures DistinctPriorities(Steering().routing.rules) && MarksFunctional(Steering())
    ensures RouteAt(Steering(), 0) == Route(1, 101)
  {
    assert Steering().routing.rules[0] == STEERING;
  }

  lemma AnyIsFaithful()
    ensures Faithful(ANY, [], V4)
  {
  }

  lemma SteeringIsFaithful(p: Packet, reading: Reading)
    requires Neutral(reading)
    ensures CompiledFaithfully(Steering(), V4) && IntendedCandidate(Steering(), 0, false, p, reading)
  {
    hide Satisfiable;
    assert Steering().routing.rules[0] == STEERING;
    AnyIsFaithful();
    hide Faithful;
    assert Effective(STEERING, Steering());
    hide Effective;
    assert Intended(ANY, [], p, reading);
  }

  lemma SteeringIsValid()
    ensures ValidConfig(Steering())
  {
    OneRuleIsValid([], ANY, ToInterface, 1, 101);
  }

  lemma SteeringHypotheses(p: Packet, reading: Reading) returns (t: State)
    requires Neutral(reading)
    ensures Applied(Steering(), FRESH, t)
    ensures SoundPolicy(Steering(), V4)
    ensures IntendedCandidate(Steering(), 0, false, p, reading) && RouteAt(Steering(), 0) == Route(1, 101)
  {
    hide ValidConfig;
    hide MatchOk;
    hide Applied;
    hide CompiledFaithfully;
    hide MarksFunctional;
    hide IntendedCandidate;
    hide RouteAt;
    hide Neutral;
    SteeringIsValid();
    SteeringRoute();
    SteeringIsFaithful(p, reading);
    t := SmallApplies([STEERING]);
  }

  /** The hypotheses of the end-to-end theorem are met, and a steering rule sends every IPv4 packet to its table. */
  lemma {:induction false} SteeringRuleSteers(p: Packet, reading: Reading) returns (t: State)
    requires UnmarkedIpv4(p) && Neutral(reading)
    ensures var c := Steering();
            var d := FirstMatch(PreroutingLines(c), p, TableSets([]));
            && Applied(c, FRESH, t)
            && SoundPolicy(c, V4) && GoesTo(t.rules, MarkAfter(d, p), 101)
  {
    hide Applied;
    hide Intended;
    hide GoesTo;
    hide FirstMatch;
    hide PreroutingLines;
    hide SoundPolicy;
    hide UnmarkedIpv4;
    hide TableSets;
    hide Neutral;
    hide RouteAt;
    t := SteeringHypotheses(p, reading);
    var d := FirstMatch(PreroutingLines(Steering()), p, TableSets([]));
    var w := PolicyIsRouted(Steering(), FRESH, t, p, d, reading);
    assert w == 0;
  }

  // ----- a tunnel rule

  const TUN := Tunnel("t", TunKind, NoDirection, true, "tun0", 1, 101, 0, [], [], map[], map[])
  const INTO := RouteRule("r", true, 10, ANY, RuleAction(ToTunnel, "t", false, false, 0, 0))

  /** One tunnel, and one rule that steers everything into it. */
  function Tunnelled(): Config {
    Small([], [INTO]).(tunnels := [TUN])
  }

  lemma TunnelledScope()
    ensures IsIdentifier("t") && IsIdentifier("r") && IsIdentifier("tun0")
    ensures "t" in ScopeOf(Tunnelled()).tunnels
  {
    assert TunnelIds([TUN])[0] == "t";
  }

  lemma IntoIsOk()
    ensures RuleOk(INTO, ScopeOf(Tunnelled())) && TunnelOk(TUN)
  {
    TunnelledScope();
    hide IsIdentifier;
    hide KnownLinks;
    hide ScopeOf;
    assert MatchOk(ANY, ScopeOf(Tunnelled()));
  }

  lemma TunnelledIsValid()
    ensures ValidConfig(Tunnelled())
  {
    var c := Tunnelled();
    SmallScope([], []);
    IntoIsOk();
    hide RuleOk;
    hide TunnelOk;
    hide ScopeOf;
    hide IsIdentifier;
    hide InterfaceOk;
    hide KnownLinks;
    assert c.interfaces == [ETH0] && c.tunnels == [TUN] && c.routing.rules == [INTO];
    assert NoRepeats(InterfaceNames([ETH0])) && NoRepeats(TunnelIds([TUN]));
  }

  lemma TunnelledRoute()
    ensures DistinctPriorities(Tunnelled().routing.rules) && MarksFunctional(Tunnelled())
    ensures RouteAt(Tunnelled(), 0) == Route(1, 101) && Effective(INTO, Tunnelled())
  {
    var c := Tunnelled();
    assert c.routing.rules == [INTO] && c.tunnels == [TUN];
    assert FirstTunnel([TUN], "t") == Some(TUN);
  }

  lemma TunnelledIsSound(p: Packet, reading: Reading)
    requires Neutral(reading)
    ensures SoundPolicy(Tunnelled(), V4) && IntendedWinner(Tunnelled(), 0, false, p, reading)
  {
    var c := Tunnelled();
    TunnelledRoute();
    AnyIsFaithful();
    hide Satisfiable;
    hide Faithful;
    hide Effective;
    hide MarksFunctional;
    hide DistinctPriorities;
    assert c.routing.rules == [INTO];
    assert Intended(ANY, [], p, reading);
    hide Intended;
  }

  lemma TunnelledIsReady()
    ensures PlanReady(Tunnelled(), FRESH.links.Keys)
  {
    var c := Tunnelled();
    assert Creates(TUN) && DeviceName("tun0");
    hide Creates;
    hide DeviceName;
    forall k: nat | k < |c.tunnels| ensures TunnelReadyAt(c.tunnels, k, FRESH.links.Keys) {
      assert k == 0 && c.tunnels[0] == TUN;
    }
  }

  lemma TunnelledApplies() returns (t: State)
    ensures Applied(Tunnelled(), FRESH, t)
  {
    var c := Tunnelled();
    TunnelledIsValid();
    TunnelledIsReady();
    InitialView();
    hide ValidConfig;
    hide PlanReady;
    hide Run;
    hide PlanSteps;
    hide Strict;
    hide View;
    PlanCompletesIff(c, FRESH);
    t := Run(FRESH, PlanSteps(c)).value;
  }

  lemma TunnelledUndisturbed(dst: nat)
    ensures TunnelUndisturbed(Tunnelled(), FRESH, 0, dst)
  {
    var c := Tunnelled();
    assert c.tunnels[1..] == [] && c.routing.rules == [INTO];
    var rules := RuleSteps(StableSort(c.routing.rules), c);
    RulesWriteNoRoute(StableSort(c.routing.rules), c);
    assert Later(c, 0) == rules by {
      assert AllTunnelSteps([]) == [] && AllGroupSteps([]) == [] && StaticSteps([]) == [];
      assert [] + [] + rules == rules && [] + rules == rules;
    }
    hide RuleSteps;
    hide StableSort;
    hide Later;
    if LastRoute(rules, TunnelKey(TUN)).Some? {
      LastRouteIsWritten(rules, TunnelKey(TUN));
    }
  }

  lemma TunnelledRule()
    ensures TunnelRule(Tunnelled(), 0, 0) && Tunnelled().tunnels == [TUN] && Tunnelled().routing.sets == []
  {
    assert Tunnelled().routing.rules == [INTO];
  }

  /** The hypotheses of the departure theorem are met, and the tunnel rule sends every IPv4 packet out through the tunnel. */
  lemma {:induction false} TunnelRuleCarries(p: Packet, reading: Reading, dead: set<string>) returns (t: State)
    requires UnmarkedIpv4(p) && Neutral(reading) && "tun0" !in dead
    ensures var d := FirstMatch(PreroutingLines(Tunnelled()), p, TableSets([]));
            && Decided(Tunnelled(), FRESH, t, p, d, reading) && IntendedWinner(Tunnelled(), 0, false, p, reading)
            && TunnelRule(Tunnelled(), 0, 0) && TunnelUndisturbed(Tunnelled(), FRESH, 0, p.dst)
            && LeavesBy(t, MarkAfter(d, p), p.dst, dead, "tun0", TunnelKey(TUN))
  {
    var c := Tunnelled();
    TunnelledRule();
    hide Applied;
    hide SoundPolicy;
    hide FirstMatch;
    hide PreroutingLines;
    hide TableSets;
    hide IntendedWinner;
    hide TunnelUndisturbed;
    hide TunnelRule;
    hide LeavesBy;
    hide UnmarkedIpv4;
    hide Neutral;
    TunnelledUndisturbed(p.dst);
    TunnelledIsSound(p, reading);
    t := TunnelledApplies();
    var d := FirstMatch(PreroutingLines(c), p, TableSets([]));
    TunnelCarries(c, FRESH, t, p, d, reading, 0, 0, dead);
  }
}
