/** The end-to-end statements for the commands as they are emitted and executed. */
module ExecutedPolicy {
  import opened Basics
  import Addresses
  import opened Config
  import opened Nft
  import opened MatchCompiler
  import opened MatchMeaning
  import opened PolicyChains
  import opened Validation
  import opened Kernel
  import opened Reapply
  import opened RoutingPlan
  import opened EndToEnd
  import opened ValidatedPolicy
  import opened CommandMeaning
  import opened TunnelCommands
  import opened Completion
  import E = Execution

  /** An execution of the emitted plan that reported no error. */
  ghost predicate Executed(c: Config, s: State, t: State, sp: Spelling, profiles: Profiles, host: Host) {
    && ValidConfig(c) && Consistent(sp) && Inert(profiles, sp)
    && E.Exec(KernelEnv(sp, host), false, s, PlanCommands(c, sp, profiles)).error == None
    && E.Exec(KernelEnv(sp, host), false, s, PlanCommands(c, sp, profiles)).world == t
  }

  lemma ExecutedIsRun(c: Config, s: State, t: State, sp: Spelling, profiles: Profiles, host: Host)
    requires Executed(c, s, t, sp, profiles, host)
    ensures ValidConfig(c) && Run(s, PlanSteps(c)) == Some(t)
  {
    hide ValidConfig;
    hide Consistent;
    hide Inert;
    hide Run;
    hide PlanSteps;
    hide PlanCommands;
    ExecutedPlan(c, s, sp, profiles, host);
  }

  /**
   Executing the emitted plan of a validated configuration reports no error if and only if the host
   has, or the plan creates in time, every device it uses, no IPv4 destination has host bits, and
   the host lets the other steps through.
   */
  lemma {:induction false} ExecutionCompletesIff(c: Config, s: State, sp: Spelling, profiles: Profiles, host: Host)
    requires ValidConfig(c) && Consistent(sp) && Inert(profiles, sp) && Strict(s.rules)
    ensures var xs := PlanCommands(c, sp, profiles);
            E.Exec(KernelEnv(sp, host), false, s, xs).error == None <==>
            PlanReady(c, s.links.Keys) && AllGranted(xs, host)
  {
    hide ValidConfig;
    hide Consistent;
    hide Inert;
    hide Strict;
    hide Run;
    hide PlanSteps;
    hide PlanCommands;
    hide PlanReady;
    hide AllGranted;
    ExecutedPlan(c, s, sp, profiles, host);
    PlanCompletesIff(c, s);
  }

  /** Executing the emitted plan a second time reports no error and leaves the kernel as it is. */
  lemma {:induction false} ExecutingTwiceIsOnce(c: Config, s: State, t: State, sp: Spelling, profiles: Profiles, host: Host)
    requires Executed(c, s, t, sp, profiles, host) && Strict(s.rules)
    ensures Executed(c, t, t, sp, profiles, host)
  {
    hide ValidConfig;
    hide Consistent;
    hide Inert;
    hide Run;
    hide Strict;
    hide PlanSteps;
    hide PlanCommands;
    ExecutedPlan(c, s, sp, profiles, host);
    ReapplyIsNoOp(s, PlanSteps(c));
    ExecutedPlan(c, t, sp, profiles, host);
  }

  /**
   Once the emitted plan has been executed without an error, the first rule by priority that is
   written for an unmarked IPv4 packet decides the table it is looked up in.
   */
  lemma {:induction false} ExecutedPolicyIsRouted(
    c: Config, s: State, t: State, sp: Spelling, profiles: Profiles, host: Host, p: Packet, d: Option<Line>, reading: Reading)
    returns (w: nat)
    requires Executed(c, s, t, sp, profiles, host) && s.rules == INITIAL_RULES
    requires SoundPolicy(c, Addresses.V4) && UnmarkedIpv4(p) && Neutral(reading)
    requires d == FirstMatch(PreroutingLines(c), p, TableSets(c.routing.sets))
    ensures FollowsPolicy(c, t.rules, p, d, reading, w)
  {
    hide Executed;
    hide Run;
    hide PlanSteps;
    hide ValidConfig;
    ExecutedIsRun(c, s, t, sp, profiles, host);
    assert Applied(c, s, t);
    hide Applied;
    hide FirstMatch;
    hide PreroutingLines;
    hide SoundPolicy;
    hide FollowsPolicy;
    hide UnmarkedIpv4;
    hide Neutral;
    w := PolicyIsRouted(c, s, t, p, d, reading);
  }
}
