/**
 The artefacts together: the mark a packet gets in the prerouting chain and the
 policy rules the plan installs send it to the table its rule resolves to.
 */
module EndToEnd {
  import opened Basics
  import opened Addresses
  import opened Config
  import opened Nft
  import opened MatchCompiler
  import opened MatchMeaning
  import opened RuleOrder
  import opened RuleActions
  import opened PolicyChains
  import opened Validation
  import opened Kernel
  import opened Reapply
  import opened RoutingPlan

  // ----- policy-rule lookup

  const LOCAL_RULE := IpRule(0, Everything, LOCAL_TABLE)
  const MAIN_RULE := IpRule(32766, Everything, MAIN_TABLE)
  const DEFAULT_RULE := IpRule(32767, Everything, DEFAULT_TABLE)
  const INITIAL_RULES := [LOCAL_RULE, MAIN_RULE, DEFAULT_RULE]

  predicate Selects(r: IpRule, mark: int) {
    r.selector == Everything || r.selector == FwMark(mark)
  }

  /** The tables a packet with the mark is looked up in, in order. */
  function Consulted(rules: seq<IpRule>, mark: int): seq<int> {
    if rules == [] then []
    else (if Selects(rules[0], mark) then [rules[0].table] else []) + Consulted(rules[1..], mark)
  }

  /** Lookup starts with the local table and continues with the given one. */
  predicate GoesTo(rules: seq<IpRule>, mark: int, table: int) {
    var tables := Consulted(rules, mark);
    |tables| >= 2 && tables[0] == LOCAL_TABLE && tables[1] == table
  }

  /** The rule of smallest priority number, local lookup aside, that the mark selects. */
  predicate NextRule(rules: seq<IpRule>, mark: int, r: IpRule) {
    && r in rules && r.priority > 0 && Selects(r, mark)
    && forall x | x in rules && x.priority > 0 && Selects(x, mark) :: r.priority <= x.priority
  }

  lemma {:induction false} LeastIsConsultedFirst(rules: seq<IpRule>, mark: int, r: IpRule)
    requires Strict(rules) && r in rules && Selects(r, mark)
    requires forall x | x in rules && Selects(x, mark) :: r.priority <= x.priority
    ensures Consulted(rules, mark) != [] && Consulted(rules, mark)[0] == r.table
  {
    var head, tail := rules[0], rules[1..];
    assert rules == [head] + tail;
    Cons(head, tail);
    if !Selects(head, mark) {
      LeastIsConsultedFirst(tail, mark, r);
    } else {
      assert head in rules;
    }
  }

  lemma NextRuleDecides(rules: seq<IpRule>, mark: int, r: IpRule)
    requires Strict(rules) && LOCAL_RULE in rules && NextRule(rules, mark, r)
    requires forall x | x in rules :: x.priority >= 0
    ensures GoesTo(rules, mark, r.table)
  {
    var head, tail := rules[0], rules[1..];
    assert rules == [head] + tail;
    Cons(head, tail);
    assert head in rules;
    assert head == LOCAL_RULE;
    LeastIsConsultedFirst(tail, mark, r);
  }

  // ----- the installed rules

  predicate RoutedAt(c: Config, i: nat) {
    i < |c.routing.rules| && Routed(c.routing.rules[i], c)
  }

  function RouteAt(c: Config, i: nat): Route
    requires i < |c.routing.rules|
  {
    RuleRoute(c.routing.rules[i], c)
  }

  /** The rule's entry is not replaced by a later rule with the same priority. */
  predicate Survives(c: Config, i: nat) {
    && RoutedAt(c, i)
    && forall j: nat | j < |c.routing.rules| && j != i && RoutedAt(c, j) ::
         c.routing.rules[j].priority == c.routing.rules[i].priority ==> j < i
  }

  function Entry(c: Config, i: nat): IpRule
    requires i < |c.routing.rules|
  {
    IpRule(c.routing.rules[i].priority, FwMark(RouteAt(c, i).mark), RouteAt(c, i).table)
  }

  /** The IP rule is the entry of a surviving rule. */
  predicate IsEntry(c: Config, r: IpRule) {
    exists i: nat | i < |c.routing.rules| :: Survives(c, i) && r == Entry(c, i)
  }

  predicate NoRuleSteps(steps: seq<Step>) {
    forall st | st in steps :: !st.ReplaceRule?
  }

  lemma {:induction false} NoRuleStepsNone(steps: seq<Step>, priority: int)
    requires NoRuleSteps(steps)
    ensures LastRule(steps, priority) == None
  {
    if steps != [] {
      assert steps[|steps| - 1] in steps;
      forall st | st in steps[..|steps| - 1] ensures st in steps {}
      NoRuleStepsNone(steps[..|steps| - 1], priority);
    }
  }

  lemma {:induction false} AddressesHaveNoRules(name: string, addresses: seq<Cidr>)
    ensures NoRuleSteps(AddressSteps(name, addresses))
  {
    if addresses != [] {
      AddressesHaveNoRules(name, addresses[..|addresses| - 1]);
    }
  }

  lemma NoRuleConcat(a: seq<Step>, b: seq<Step>)
    requires NoRuleSteps(a) && NoRuleSteps(b)
    ensures NoRuleSteps(a + b)
  {
  }

  lemma DeviceHasNoRules(t: Tunnel)
    ensures NoRuleSteps(DeviceSteps(t))
  {
    hide IpTunnelSpec;
    hide LinkTunnelSpec;
    hide Field;
  }

  lemma TunnelHasNoRules(t: Tunnel)
    ensures NoRuleSteps(TunnelSteps(t))
  {
    DeviceHasNoRules(t);
    AddressesHaveNoRules(t.interfaceName, t.localAddresses);
    hide DeviceSteps;
    hide AddressSteps;
    hide ServiceManaged;
  }

  lemma {:induction false} TunnelsHaveNoRules(ts: seq<Tunnel>)
    ensures NoRuleSteps(AllTunnelSteps(ts))
  {
    if ts != [] {
      TunnelsHaveNoRules(ts[..|ts| - 1]);
      TunnelHasNoRules(ts[|ts| - 1]);
      hide TunnelSteps;
      NoRuleConcat(AllTunnelSteps(ts[..|ts| - 1]), TunnelSteps(ts[|ts| - 1]));
    }
  }

  lemma {:induction false} MembersHaveNoRules(table: int, ms: seq<WanMember>)
    ensures NoRuleSteps(MemberSteps(table, ms))
  {
    if ms != [] {
      MembersHaveNoRules(table, ms[..|ms| - 1]);
    }
  }

  lemma {:induction false} GroupsHaveNoRules(gs: seq<WanGroup>)
    ensures NoRuleSteps(AllGroupSteps(gs))
  {
    if gs != [] {
      GroupsHaveNoRules(gs[..|gs| - 1]);
      MembersHaveNoRules(gs[|gs| - 1].table, gs[|gs| - 1].members);
      hide MemberSteps;
    }
  }

  lemma {:induction false} StaticsHaveNoRules(rs: seq<StaticRoute>)
    ensures NoRuleSteps(StaticSteps(rs))
  {
    hide StaticKey;
    if rs != [] {
      StaticsHaveNoRules(rs[..|rs| - 1]);
    }
  }

  lemma OnlyRuleStepsInstall(c: Config, priority: int)
    ensures LastRule(PlanSteps(c), priority) == LastRule(RuleSteps(StableSort(c.routing.rules), c), priority)
  {
    var a, g, s, r := AllTunnelSteps(c.tunnels), AllGroupSteps(c.routing.wanGroups), StaticSteps(c.routing.staticRoutes),
                      RuleSteps(StableSort(c.routing.rules), c);
    TunnelsHaveNoRules(c.tunnels);
    GroupsHaveNoRules(c.routing.wanGroups);
    StaticsHaveNoRules(c.routing.staticRoutes);
    NoRuleStepsNone(a, priority);
    NoRuleStepsNone(g, priority);
    NoRuleStepsNone(s, priority);
    LastRuleConcat(a, g + s + r, priority);
    LastRuleConcat(g + s, r, priority);
    LastRuleConcat(g, s, priority);
  }

  predicate LastRouted(rules: seq<RouteRule>, c: Config, k: nat, priority: int) {
    && k < |rules| && Routed(rules[k], c) && rules[k].priority == priority
    && forall j: nat | k < j < |rules| :: !(Routed(rules[j], c) && rules[j].priority == priority)
  }

  /** The rule steps leave, at each priority, the entry of the last routed rule with it. */
  lemma {:induction false} LastRoutedInstalls(rules: seq<RouteRule>, c: Config, priority: int) returns (k: nat)
    ensures if LastRule(RuleSteps(rules, c), priority) == None
            then forall r | r in rules :: !(Routed(r, c) && r.priority == priority)
            else LastRouted(rules, c, k, priority) &&
                 LastRule(RuleSteps(rules, c), priority) ==
                   Some(IpRule(priority, FwMark(RuleRoute(rules[k], c).mark), RuleRoute(rules[k], c).table))
  {
    hide RuleRoute;
    k := 0;
    if rules != [] {
      var init, last := rules[..|rules| - 1], rules[|rules| - 1];
      assert rules == init + [last];
      k := LastRoutedInstalls(init, c, priority);
      LastRuleConcat(RuleSteps(init, c), [RuleStep(last, c)], priority);
      assert LastRule([RuleStep(last, c)], priority) ==
             if last.priority == priority
             then Some(IpRule(priority, FwMark(RuleRoute(last, c).mark), RuleRoute(last, c).table)) else None
      by { assert LastRule([RuleStep(last, c)][..0], priority) == None; }
      hide LastRule;
      assert RuleSteps(init, c) + [] == RuleSteps(init, c);
      if Routed(last, c) && last.priority == priority {
        k := |init|;
      }
    }
  }

  lemma LastRoutedSurvives(c: Config, k: nat, priority: int) returns (i: nat)
    requires LastRouted(StableSort(c.routing.rules), c, k, priority)
    ensures Survives(c, i) && c.routing.rules[i] == StableSort(c.routing.rules)[k]
  {
    hide Routed;
    var rules, order := c.routing.rules, Order(c.routing.rules);
    OrderIsStable(rules);
    i := order[k];
    forall j: nat | j < |rules| && j != i && RoutedAt(c, j) && rules[j].priority == rules[i].priority ensures j < i {
      assert j in order;
      var l :| 0 <= l < |order| && order[l] == j;
      assert StableSort(rules)[l] == rules[j];
      assert l < k;
      assert Before(rules, order[l], order[k]);
    }
  }

  /** A priority carries an entry exactly when some routed rule has it, and then the survivor's entry. */
  lemma InstalledEntry(c: Config, priority: int) returns (i: nat)
    ensures if LastRule(PlanSteps(c), priority) == None
            then forall j: nat | RoutedAt(c, j) :: c.routing.rules[j].priority != priority
            else Survives(c, i) && c.routing.rules[i].priority == priority &&
                 LastRule(PlanSteps(c), priority) == Some(Entry(c, i))
  {
    hide Routed;
    hide RuleRoute;
    OnlyRuleStepsInstall(c, priority);
    var k := LastRoutedInstalls(StableSort(c.routing.rules), c, priority);
    i := 0;
    if LastRule(PlanSteps(c), priority) == None {
      SortedMembers(c.routing.rules);
    } else {
      i := LastRoutedSurvives(c, k, priority);
    }
  }

  /** A plan that ran from the kernel's three standard rules. */
  predicate Applied(c: Config, s: State, t: State) {
    && ValidConfig(c)
    && s.rules == INITIAL_RULES
    && Run(s, PlanSteps(c)) == Some(t)
  }

  lemma InitialView()
    ensures Strict(INITIAL_RULES)
    ensures forall p :: Lookup(View(INITIAL_RULES), p) ==
              if p == 0 then Some(LOCAL_RULE) else if p == 32766 then Some(MAIN_RULE)
              else if p == 32767 then Some(DEFAULT_RULE) else None
  {
    var a, b, d := [DEFAULT_RULE], [MAIN_RULE, DEFAULT_RULE], INITIAL_RULES;
    Cons(DEFAULT_RULE, []);
    Cons(MAIN_RULE, a);
    Cons(LOCAL_RULE, b);
    assert a == [DEFAULT_RULE] + [] && b == [MAIN_RULE] + a && d == [LOCAL_RULE] + b;
  }

  lemma PriorityInRange(c: Config, i: nat)
    requires ValidConfig(c) && i < |c.routing.rules|
    ensures 1 <= c.routing.rules[i].priority <= 32765
    ensures 0 <= c.routing.rules[i].action.table <= 252
  {
    assert RuleOk(c.routing.rules[i], ScopeOf(c));
  }

  /** The rule list holds the three standard rules and the surviving entries, and nothing else. */
  ghost predicate Installed(c: Config, rules: seq<IpRule>) {
    && Strict(rules)
    && LOCAL_RULE in rules && MAIN_RULE in rules && DEFAULT_RULE in rules
    && (forall i: nat | Survives(c, i) :: Entry(c, i) in rules)
    && (forall r | r in rules :: r in INITIAL_RULES || IsEntry(c, r))
  }

  lemma FinalLookup(c: Config, s: State, t: State, p: int)
    requires Applied(c, s, t)
    ensures Strict(t.rules)
    ensures Lookup(View(t.rules), p) == Else(LastRule(PlanSteps(c), p), Lookup(View(INITIAL_RULES), p))
    ensures p == 0 || p >= 32766 ==> LastRule(PlanSteps(c), p) == None
  {
    InitialView();
    LastWriterWins(s, PlanSteps(c), p, RouteKey(V4, 0, DEFAULT_DEST, 0));
    var i := InstalledEntry(c, p);
    hide PlanSteps;
    hide Run;
    hide View;
    if LastRule(PlanSteps(c), p) != None {
      PriorityInRange(c, i);
    }
  }

  lemma StandardRulesStay(c: Config, s: State, t: State)
    requires Applied(c, s, t)
    ensures Strict(t.rules) && LOCAL_RULE in t.rules && MAIN_RULE in t.rules && DEFAULT_RULE in t.rules
  {
    InitialView();
    FinalLookup(c, s, t, 0);
    FinalLookup(c, s, t, 32766);
    FinalLookup(c, s, t, 32767);
    ViewMembers(t.rules);
    hide Applied;
    hide View;
    hide Strict;
  }

  lemma InstalledOrigin(c: Config, s: State, t: State, r: IpRule)
    requires Applied(c, s, t) && r in t.rules
    ensures r in INITIAL_RULES || IsEntry(c, r)
  {
    InitialView();
    FinalLookup(c, s, t, r.priority);
    ViewMembers(t.rules);
    var i := InstalledEntry(c, r.priority);
    hide Applied;
    hide View;
    hide Strict;
    assert Lookup(View(t.rules), r.priority) == Some(r);
  }

  lemma SurvivorInstalled(c: Config, s: State, t: State, i: nat)
    requires Applied(c, s, t) && Survives(c, i)
    ensures Entry(c, i) in t.rules
  {
    var p := c.routing.rules[i].priority;
    FinalLookup(c, s, t, p);
    var j := InstalledEntry(c, p);
    ViewMembers(t.rules);
    hide ValidConfig;
    hide PlanSteps;
    hide Run;
    hide View;
    hide Routed;
    hide RuleRoute;
    assert RoutedAt(c, i);
    assert i == j;
  }

  /** The rule list after any successful plan. */
  lemma {:induction false} FinalRules(c: Config, s: State, t: State)
    requires Applied(c, s, t)
    ensures Installed(c, t.rules)
  {
    hide Applied;
    hide Strict;
    hide IsEntry;
    StandardRulesStay(c, s, t);
    forall i: nat | Survives(c, i) ensures Entry(c, i) in t.rules {
      SurvivorInstalled(c, s, t, i);
    }
    forall r | r in t.rules ensures r in INITIAL_RULES || IsEntry(c, r) {
      InstalledOrigin(c, s, t, r);
    }
  }

  // ----- which table a mark leads to

  predicate MarkedSurvivor(c: Config, i: nat, mark: int) {
    i < |c.routing.rules| && Survives(c, i) && RouteAt(c, i).mark == mark
  }

  /** The marked survivor of smallest priority number. */
  predicate LeadSurvivor(c: Config, i: nat, mark: int) {
    && MarkedSurvivor(c, i, mark)
    && forall j: nat | j < |c.routing.rules| && MarkedSurvivor(c, j, mark) ::
         c.routing.rules[i].priority <= c.routing.rules[j].priority
  }

  predicate PrioritiesInRange(c: Config) {
    forall r | r in c.routing.rules :: 1 <= r.priority <= 32765
  }

  lemma EntryOfMark(c: Config, x: IpRule, mark: int) returns (i: nat)
    requires IsEntry(c, x) && Selects(x, mark)
    ensures i < |c.routing.rules| && MarkedSurvivor(c, i, mark) && x == Entry(c, i)
  {
    hide RouteAt;
    hide Survives;
    i :| i < |c.routing.rules| && Survives(c, i) && x == Entry(c, i);
  }

  lemma LeadIsNext(c: Config, rules: seq<IpRule>, mark: int, i: nat)
    requires Installed(c, rules) && PrioritiesInRange(c) && LeadSurvivor(c, i, mark)
    ensures NextRule(rules, mark, Entry(c, i))
  {
    hide Strict;
    hide Survives;
    hide RouteAt;
    hide IsEntry;
    assert c.routing.rules[i] in c.routing.rules;
    assert Entry(c, i) in rules;
    forall x | x in rules && x.priority > 0 && Selects(x, mark) ensures Entry(c, i).priority <= x.priority {
      if IsEntry(c, x) {
        var j := EntryOfMark(c, x, mark);
      } else {
        assert x == LOCAL_RULE || x == MAIN_RULE || x == DEFAULT_RULE;
      }
    }
  }

  lemma MainIsNext(c: Config, rules: seq<IpRule>, mark: int)
    requires Installed(c, rules) && forall i: nat | i < |c.routing.rules| :: !MarkedSurvivor(c, i, mark)
    ensures NextRule(rules, mark, MAIN_RULE)
  {
    hide Strict;
    hide Survives;
    hide RouteAt;
    hide IsEntry;
    hide MarkedSurvivor;
    forall x | x in rules && x.priority > 0 && Selects(x, mark) ensures MAIN_RULE.priority <= x.priority {
      if IsEntry(c, x) {
        var i := EntryOfMark(c, x, mark);
      } else {
        assert x == LOCAL_RULE || x == MAIN_RULE || x == DEFAULT_RULE;
      }
    }
  }

  lemma NoNegativePriorities(c: Config, rules: seq<IpRule>)
    requires Installed(c, rules) && PrioritiesInRange(c)
    ensures forall x | x in rules :: x.priority >= 0
  {
    hide Strict;
    hide Survives;
    hide RouteAt;
  }

  lemma MarkLeadsTo(c: Config, rules: seq<IpRule>, mark: int)
    requires Installed(c, rules) && PrioritiesInRange(c)
    ensures forall i: nat | LeadSurvivor(c, i, mark) :: GoesTo(rules, mark, RouteAt(c, i).table)
    ensures (forall i: nat | i < |c.routing.rules| :: !MarkedSurvivor(c, i, mark)) ==> GoesTo(rules, mark, MAIN_TABLE)
  {
    NoNegativePriorities(c, rules);
    hide Strict;
    hide GoesTo;
    hide NextRule;
    hide LeadSurvivor;
    hide MarkedSurvivor;
    forall i: nat | LeadSurvivor(c, i, mark) ensures GoesTo(rules, mark, RouteAt(c, i).table) {
      LeadIsNext(c, rules, mark, i);
      NextRuleDecides(rules, mark, Entry(c, i));
    }
    if forall i: nat | i < |c.routing.rules| :: !MarkedSurvivor(c, i, mark) {
      MainIsNext(c, rules, mark);
      NextRuleDecides(rules, mark, MAIN_RULE);
    }
  }

  // ----- when every routed mark reaches its table

  /** No mark is mapped to two tables. */
  predicate MarksFunctional(c: Config) {
    forall i: nat, j: nat | i < |c.routing.rules| && j < |c.routing.rules| && RoutedAt(c, i) && RoutedAt(c, j) ::
      RouteAt(c, i).mark == RouteAt(c, j).mark ==> RouteAt(c, i).table == RouteAt(c, j).table
  }

  /** Some entry with the mark is not replaced by a later rule of the same priority. */
  predicate MarkSurvives(c: Config, mark: int) {
    exists i: nat | i < |c.routing.rules| :: MarkedSurvivor(c, i, mark)
  }

  lemma SurvivorLead(c: Config, mark: int, i: nat) returns (l: nat)
    requires MarkedSurvivor(c, i, mark)
    ensures LeadSurvivor(c, l, mark)
  {
    hide Survives;
    hide RouteAt;
    l := i;
    for j: nat := 0 to |c.routing.rules|
      invariant MarkedSurvivor(c, l, mark)
      invariant forall k: nat | k < j && MarkedSurvivor(c, k, mark) :: c.routing.rules[l].priority <= c.routing.rules[k].priority
    {
      if MarkedSurvivor(c, j, mark) && c.routing.rules[j].priority < c.routing.rules[l].priority {
        l := j;
      }
    }
  }

  lemma GoesToOne(rules: seq<IpRule>, mark: int, a: int, b: int)
    requires GoesTo(rules, mark, a) && GoesTo(rules, mark, b)
    ensures a == b
  {
  }

  predicate Reaches(c: Config, rules: seq<IpRule>, i: nat)
    requires i < |c.routing.rules|
  {
    GoesTo(rules, RouteAt(c, i).mark, RouteAt(c, i).table)
  }

  predicate TablesInRange(c: Config) {
    forall i: nat | i < |c.routing.rules| :: RouteAt(c, i).table <= 252
  }

  lemma RoutedReaches(c: Config, rules: seq<IpRule>, i: nat)
    requires Installed(c, rules) && PrioritiesInRange(c) && MarksFunctional(c)
    requires i < |c.routing.rules| && RoutedAt(c, i) && MarkSurvives(c, RouteAt(c, i).mark)
    ensures Reaches(c, rules, i)
  {
    var mark := RouteAt(c, i).mark;
    MarkLeadsTo(c, rules, mark);
    var k: nat :| k < |c.routing.rules| && MarkedSurvivor(c, k, mark);
    var l := SurvivorLead(c, mark, k);
    hide Installed;
    hide GoesTo;
    hide RouteAt;
    hide Routed;
    assert RoutedAt(c, l);
  }

  lemma NoSurvivorMissesTable(c: Config, rules: seq<IpRule>, i: nat)
    requires Installed(c, rules) && PrioritiesInRange(c) && TablesInRange(c) && i < |c.routing.rules|
    requires !MarkSurvives(c, RouteAt(c, i).mark)
    ensures !Reaches(c, rules, i)
  {
    MarkLeadsTo(c, rules, RouteAt(c, i).mark);
  }

  /**
   Every routed rule's mark reaches the rule's table if and only if no mark is mapped
   to two tables and every mark keeps an entry despite equal priorities.
   */
  lemma {:induction false} RoutingSoundIff(c: Config, rules: seq<IpRule>)
    requires Installed(c, rules) && PrioritiesInRange(c) && TablesInRange(c)
    ensures (forall i: nat | i < |c.routing.rules| && RoutedAt(c, i) :: Reaches(c, rules, i)) <==>
            MarksFunctional(c) &&
            (forall i: nat | i < |c.routing.rules| && RoutedAt(c, i) :: MarkSurvives(c, RouteAt(c, i).mark))
  {
    if MarksFunctional(c) && forall i: nat | i < |c.routing.rules| && RoutedAt(c, i) :: MarkSurvives(c, RouteAt(c, i).mark) {
      forall i: nat | i < |c.routing.rules| && RoutedAt(c, i) ensures Reaches(c, rules, i) {
        RoutedReaches(c, rules, i);
      }
    }
    if forall i: nat | i < |c.routing.rules| && RoutedAt(c, i) :: Reaches(c, rules, i) {
      hide RoutedAt;
      hide RouteAt;
      hide GoesTo;
      hide Survives;
      forall i: nat, j: nat | i < |c.routing.rules| && j < |c.routing.rules| && RoutedAt(c, i) && RoutedAt(c, j) &&
                              RouteAt(c, i).mark == RouteAt(c, j).mark
        ensures RouteAt(c, i).table == RouteAt(c, j).table
      {
        assert Reaches(c, rules, i) && Reaches(c, rules, j);
        GoesToOne(rules, RouteAt(c, i).mark, RouteAt(c, i).table, RouteAt(c, j).table);
      }
      forall i: nat | i < |c.routing.rules| && RoutedAt(c, i) ensures MarkSurvives(c, RouteAt(c, i).mark) {
        var mark := RouteAt(c, i).mark;
        if !MarkSurvives(c, mark) {
          NoSurvivorMissesTable(c, rules, i);
        }
      }
    }
  }

  /** With distinct priorities every entry stays. */
  lemma {:induction false} DistinctPrioritiesSurvive(c: Config, i: nat)
    requires DistinctPriorities(c.routing.rules) && i < |c.routing.rules| && RoutedAt(c, i)
    ensures MarkSurvives(c, RouteAt(c, i).mark)
  {
    hide RuleRoute;
    forall j: nat | j < |c.routing.rules| && j != i && RoutedAt(c, j)
      ensures c.routing.rules[j].priority != c.routing.rules[i].priority
    {
      var a, b := if i < j then i else j, if i < j then j else i;
      assert c.routing.rules[a].enabled && c.routing.rules[b].enabled;
    }
    assert MarkedSurvivor(c, i, RouteAt(c, i).mark);
  }

  // ----- packets

  /** The packet's mark when it leaves the prerouting chain. */
  function MarkAfter(d: Option<Line>, p: Packet): int {
    if d.Some? && d.value.action.SetMarkAccept? then d.value.action.mark else p.mark
  }

  lemma {:induction false} Ipv6RulesUntouched(s: State, steps: seq<Step>)
    requires Run(s, steps).Some?
    ensures Run(s, steps).value.rules6 == s.rules6
  {
    if steps != [] {
      hide DeleteRule;
      hide InsertRule;
      Ipv6RulesUntouched(s, steps[..|steps| - 1]);
    }
  }

  /** The list starts with the standard rules, as the kernel's IPv6 list does: local and main, and no third one. */
  predicate Standard(rules: seq<IpRule>) {
    |rules| >= 2 && rules[0] == LOCAL_RULE && rules[1] == MAIN_RULE
  }

  lemma StandardGoesToMain(rules: seq<IpRule>, mark: int)
    requires Standard(rules)
    ensures GoesTo(rules, mark, MAIN_TABLE)
  {
    assert rules[1..][0] == MAIN_RULE;
  }

  /** The mark leads to the table of every routed rule that carries it, and to the main table when there is none. */
  predicate LeadsAsRouted(c: Config, rules: seq<IpRule>, mark: int) {
    && (forall i: nat | i < |c.routing.rules| && RoutedAt(c, i) && RouteAt(c, i).mark == mark ::
          GoesTo(rules, mark, RouteAt(c, i).table))
    && ((forall i: nat | i < |c.routing.rules| && RoutedAt(c, i) :: RouteAt(c, i).mark != mark) ==>
          GoesTo(rules, mark, MAIN_TABLE))
  }

  lemma {:induction false} FirstTunnelIn(ts: seq<Tunnel>, id: string)
    ensures FirstTunnel(ts, id).Some? ==> FirstTunnel(ts, id).value in ts
  {
    if ts != [] && ts[0].id != id {
      FirstTunnelIn(ts[1..], id);
    }
  }

  lemma {:induction false} FirstGroupIn(gs: seq<WanGroup>, id: string)
    ensures FirstGroup(gs, id).Some? ==> FirstGroup(gs, id).value in gs
  {
    if gs != [] && gs[0].id != id {
      FirstGroupIn(gs[1..], id);
    }
  }

  lemma RouteInRange(c: Config, i: nat)
    requires ValidConfig(c) && i < |c.routing.rules|
    ensures RouteAt(c, i).table <= 252 && RouteAt(c, i).mark >= 0
  {
    var r := c.routing.rules[i];
    FirstTunnelIn(c.tunnels, r.action.target);
    FirstGroupIn(c.routing.wanGroups, r.action.target);
    assert RuleOk(r, ScopeOf(c));
    hide IsIdentifier;
    hide MatchOk;
    hide KnownLinks;
  }

  lemma ValidRanges(c: Config)
    requires ValidConfig(c)
    ensures PrioritiesInRange(c) && TablesInRange(c)
  {
    forall r | r in c.routing.rules ensures 1 <= r.priority <= 32765 {
      assert RuleOk(r, ScopeOf(c));
    }
    forall i: nat | i < |c.routing.rules| ensures RouteAt(c, i).table <= 252 {
      RouteInRange(c, i);
    }
  }

  lemma UnmarkedGoesToMain(c: Config, rules: seq<IpRule>)
    requires Installed(c, rules) && PrioritiesInRange(c)
    ensures GoesTo(rules, 0, MAIN_TABLE)
  {
    MarkLeadsTo(c, rules, 0);
  }

  lemma DecidedMark(c: Config, w: nat, p: Packet, d: Option<Line>)
    requires Winner(c, w, false, p) && DecidedBy(d, c.routing.rules[w], c) && p.mark == 0
    ensures !Steers(c.routing.rules[w].action.kind) ==> MarkAfter(d, p) == 0
    ensures Steers(c.routing.rules[w].action.kind) ==> MarkAfter(d, p) == RouteAt(c, w).mark != 0
  {
    hide Compiled;
    ResolversAgree(c.routing.rules[w], c.tunnels, c.routing.wanGroups);
  }

  /** With distinct priorities and one table per mark every mark leads where its rules say. */
  lemma {:induction false} MarksLeadAsRouted(c: Config, rules: seq<IpRule>, mark: int)
    requires Installed(c, rules) && PrioritiesInRange(c)
    requires DistinctPriorities(c.routing.rules) && MarksFunctional(c)
    ensures LeadsAsRouted(c, rules, mark)
  {
    MarkLeadsTo(c, rules, mark);
    hide GoesTo;
    hide RouteAt;
    hide RoutedAt;
    forall i: nat | i < |c.routing.rules| && RoutedAt(c, i) && RouteAt(c, i).mark == mark
      ensures GoesTo(rules, mark, RouteAt(c, i).table)
    {
      DistinctPrioritiesSurvive(c, i);
      RoutedReaches(c, rules, i);
    }
  }

  /**
   End to end, for an unmarked packet and a plan applied to the standard rules: the mark of the
   winning rule leads an IPv4 packet to the table its rules resolve to, or to the main table when
   none has one; `direct` rules and unmatched packets lead to the main table. An IPv6 packet goes
   to the main table whatever its mark, for the plan never touches the IPv6 rule list.
   */
  lemma {:induction false} EndToEndRouting(c: Config, s: State, t: State, p: Packet, d: Option<Line>) returns (w: nat)
    requires Applied(c, s, t)
    requires DistinctPriorities(c.routing.rules) && MarksFunctional(c)
    requires p.mark == 0
    requires d == FirstMatch(PreroutingLines(c), p, TableSets(c.routing.sets))
    ensures if exists i: nat :: Candidate(c, i, false, p)
            then
              && Winner(c, w, false, p)
              && (Steers(c.routing.rules[w].action.kind) ==> MarkAfter(d, p) == RouteAt(c, w).mark != 0)
              && (p.fam == V4 ==>
                    if Steers(c.routing.rules[w].action.kind) then LeadsAsRouted(c, t.rules, MarkAfter(d, p))
                    else GoesTo(t.rules, MarkAfter(d, p), MAIN_TABLE))
            else p.fam == V4 ==> GoesTo(t.rules, MarkAfter(d, p), MAIN_TABLE)
    ensures p.fam == V6 && Standard(s.rules6) ==> GoesTo(t.rules6, MarkAfter(d, p), MAIN_TABLE)
  {
    ValidRanges(c);
    FinalRules(c, s, t);
    Ipv6RulesUntouched(s, PlanSteps(c));
    if Standard(s.rules6) {
      StandardGoesToMain(s.rules6, MarkAfter(d, p));
    }
    w := PreroutingRefinesPolicy(c, p, d);
    UnmarkedGoesToMain(c, t.rules);
    MarksLeadAsRouted(c, t.rules, MarkAfter(d, p));
    hide Applied;
    hide Installed;
    hide Compiled;
    hide GoesTo;
    hide LeadsAsRouted;
    hide FirstMatch;
    hide PreroutingLines;
    if exists i: nat :: Candidate(c, i, false, p) {
      DecidedMark(c, w, p, d);
    }
  }
}
