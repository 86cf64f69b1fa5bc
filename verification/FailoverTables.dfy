/** Failover groups: one default route per member, and the best live member is selected. */
module FailoverTables {
  import opened Basics
  import opened Addresses
  import opened Config
  import opened Kernel
  import opened Reapply
  import opened RoutingPlan

  /** A default route of the table with a live device. */
  predicate Usable(routes: map<RouteKey, seq<Nexthop>>, key: RouteKey, fam: Family, table: int, dead: set<string>) {
    && key in routes
    && key.fam == fam && key.table == table && key.dest == DEFAULT_DEST
    && exists h | h in routes[key] :: h.dev !in dead
  }

  /** The kernel's choice among the default routes of a table: the smallest metric with a live device. */
  ghost predicate Selected(routes: map<RouteKey, seq<Nexthop>>, key: RouteKey, fam: Family, table: int, dead: set<string>) {
    && Usable(routes, key, fam, table, dead)
    && forall k :: Usable(routes, k, fam, table, dead) && k != key ==> key.metric < k.metric
  }

  /** The priority an operator reads: 100 when none is set. */
  function Rank(m: WanMember): int {
    if m.priority == 0 then 100 else m.priority
  }

  /** The member an operator expects: live, and before every other live member of its family. */
  predicate BestLive(members: seq<WanMember>, i: nat, dead: set<string>) {
    && i < |members| && members[i].iface !in dead
    && forall j: nat | j < |members| && j != i ::
         members[j].iface !in dead && GatewayFamily(members[j].gateway) == GatewayFamily(members[i].gateway) ==>
         Rank(members[i]) < Rank(members[j])
  }

  predicate LastWithKey(members: seq<WanMember>, table: int, i: nat, key: RouteKey) {
    && i < |members| && MemberKey(table, members[i]) == key
    && forall j: nat | i < j < |members| :: MemberKey(table, members[j]) != key
  }

  /** The step writing a key last belongs to the last member with that key. */
  lemma {:induction false} LastMemberWrites(table: int, members: seq<WanMember>, i: nat, key: RouteKey)
    requires LastWithKey(members, table, i, key)
    ensures LastRoute(MemberSteps(table, members), key) == Some(MemberHops(members[i]))
  {
    if i < |members| - 1 {
      assert MemberKey(table, members[|members| - 1]) != key;
      assert LastWithKey(members[..|members| - 1], table, i, key);
      LastMemberWrites(table, members[..|members| - 1], i, key);
    }
  }

  lemma {:induction false} NoMemberWrites(table: int, members: seq<WanMember>, key: RouteKey)
    requires forall i: nat | i < |members| :: MemberKey(table, members[i]) != key
    ensures LastRoute(MemberSteps(table, members), key) == None
  {
    if members != [] {
      assert MemberKey(table, members[|members| - 1]) != key;
      NoMemberWrites(table, members[..|members| - 1], key);
    }
  }

  /** No step of the list writes a default route of the table. */
  predicate LeavesTable(steps: seq<Step>, table: int) {
    forall st | st in steps :: st.ReplaceRoute? ==> !(st.key.table == table && st.key.dest == DEFAULT_DEST)
  }

  lemma {:induction false} LeavesTableNone(steps: seq<Step>, table: int, key: RouteKey)
    requires LeavesTable(steps, table) && key.table == table && key.dest == DEFAULT_DEST
    ensures LastRoute(steps, key) == None
  {
    if steps != [] {
      assert steps[|steps| - 1] in steps;
      forall st | st in steps[..|steps| - 1] ensures st in steps {}
      LeavesTableNone(steps[..|steps| - 1], table, key);
    }
  }

  predicate FreshTable(routes: map<RouteKey, seq<Nexthop>>, table: int) {
    forall k | k in routes :: !(k.table == table && k.dest == DEFAULT_DEST)
  }

  /** A plan in which only one group writes the defaults of its table. */
  predicate GroupAlone(before: seq<Step>, after: seq<Step>, s: State, table: int) {
    LeavesTable(before, table) && LeavesTable(after, table) && FreshTable(s.routes, table)
  }

  /** The defaults of the table are what the group's own steps write. */
  lemma AloneContents(before: seq<Step>, mine: seq<Step>, after: seq<Step>, table: int, s: State, key: RouteKey)
    requires GroupAlone(before, after, s, table) && key.table == table && key.dest == DEFAULT_DEST
    requires Run(s, before + mine + after).Some?
    ensures Lookup(Run(s, before + mine + after).value.routes, key) == LastRoute(mine, key)
  {
    LastRouteWins(s, before + mine + after, key);
    LastRouteConcat(before + mine, after, key);
    LastRouteConcat(before, mine, key);
    LeavesTableNone(before, table, key);
    LeavesTableNone(after, table, key);
    hide Run;
  }

  lemma TableContents(before: seq<Step>, members: seq<WanMember>, after: seq<Step>, table: int, s: State, key: RouteKey)
    requires GroupAlone(before, after, s, table) && key.table == table && key.dest == DEFAULT_DEST
    requires Run(s, before + MemberSteps(table, members) + after).Some?
    ensures Lookup(Run(s, before + MemberSteps(table, members) + after).value.routes, key) ==
            LastRoute(MemberSteps(table, members), key)
  {
    hide Run;
    hide MemberSteps;
    AloneContents(before, MemberSteps(table, members), after, table, s, key);
  }

  lemma LastIndexWithKey(members: seq<WanMember>, table: int, i: nat) returns (l: nat)
    requires i < |members|
    ensures i <= l && LastWithKey(members, table, l, MemberKey(table, members[i]))
  {
    l := |members| - 1;
    while MemberKey(table, members[l]) != MemberKey(table, members[i])
      invariant i <= l < |members|
      decreases l
      invariant forall j: nat | l < j < |members| :: MemberKey(table, members[j]) != MemberKey(table, members[i])
    {
      l := l - 1;
    }
  }

  /** The route left under a member's key is that of the last member with the same key. */
  lemma KeptRoute(before: seq<Step>, members: seq<WanMember>, after: seq<Step>, table: int, s: State, t: State, i: nat)
    returns (l: nat)
    requires GroupAlone(before, after, s, table) && i < |members|
    requires Run(s, before + MemberSteps(table, members) + after) == Some(t)
    ensures i <= l && LastWithKey(members, table, l, MemberKey(table, members[i]))
    ensures Lookup(t.routes, MemberKey(table, members[i])) == Some(MemberHops(members[l]))
  {
    hide Run;
    hide MemberSteps;
    hide MemberHops;
    l := LastIndexWithKey(members, table, i);
    TableContents(before, members, after, table, s, MemberKey(table, members[i]));
    LastMemberWrites(table, members, l, MemberKey(table, members[i]));
  }

  predicate Kept(members: seq<WanMember>, table: int, t: State, i: nat)
    requires i < |members|
  {
    Lookup(t.routes, MemberKey(table, members[i])) == Some(MemberHops(members[i]))
  }

  predicate Agree(members: seq<WanMember>, table: int, i: nat, j: nat)
    requires i < |members| && j < |members|
  {
    MemberKey(table, members[i]) == MemberKey(table, members[j]) ==> MemberHops(members[i]) == MemberHops(members[j])
  }

  /**
   Every member keeps its own default route if and only if no two members of one
   family share a metric with different next hops.
   */
  lemma {:induction false} EveryMemberKeptIff(
    before: seq<Step>, members: seq<WanMember>, after: seq<Step>, table: int, s: State, t: State)
    requires GroupAlone(before, after, s, table)
    requires Run(s, before + MemberSteps(table, members) + after) == Some(t)
    ensures (forall i: nat | i < |members| :: Kept(members, table, t, i)) <==>
            (forall i: nat, j: nat | i < j < |members| :: Agree(members, table, i, j))
  {
    hide Run;
    hide MemberSteps;
    hide MemberKey;
    hide MemberHops;
    hide GroupAlone;
    if forall i: nat, j: nat | i < j < |members| :: Agree(members, table, i, j) {
      forall i: nat | i < |members| ensures Kept(members, table, t, i) {
        var l := KeptRoute(before, members, after, table, s, t, i);
        assert i < l ==> Agree(members, table, i, l);
      }
    }
    if forall i: nat | i < |members| :: Kept(members, table, t, i) {
      forall i: nat, j: nat | i < j < |members| ensures Agree(members, table, i, j) {
        assert Kept(members, table, t, i) && Kept(members, table, t, j);
      }
    }
  }

  predicate DistinctMetrics(members: seq<WanMember>) {
    forall i: nat, j: nat | i < j < |members| ::
      GatewayFamily(members[i].gateway) == GatewayFamily(members[j].gateway) ==> Rank(members[i]) != Rank(members[j])
  }

  /** With distinct metrics the table's defaults are exactly the members' routes. */
  lemma {:induction false} DefaultsAreMembers(
    before: seq<Step>, members: seq<WanMember>, after: seq<Step>, table: int, s: State, t: State, key: RouteKey)
    requires GroupAlone(before, after, s, table) && DistinctMetrics(members)
    requires Run(s, before + MemberSteps(table, members) + after) == Some(t)
    requires key.table == table && key.dest == DEFAULT_DEST
    ensures forall i: nat | i < |members| && MemberKey(table, members[i]) == key ::
              Lookup(t.routes, key) == Some(MemberHops(members[i]))
    ensures key in t.routes <==> exists i: nat | i < |members| :: MemberKey(table, members[i]) == key
  {
    TableContents(before, members, after, table, s, key);
    hide Run;
    hide MemberSteps;
    if i: nat :| i < |members| && MemberKey(table, members[i]) == key {
      assert LastWithKey(members, table, i, key);
      LastMemberWrites(table, members, i, key);
    } else {
      NoMemberWrites(table, members, key);
    }
  }

  /** Whatever links are dead, the kernel selects exactly the best live member. */
  lemma {:induction false} FailoverSelectsBest(
    before: seq<Step>, members: seq<WanMember>, after: seq<Step>, table: int, s: State, t: State, i: nat, dead: set<string>)
    requires GroupAlone(before, after, s, table) && DistinctMetrics(members)
    requires Run(s, before + MemberSteps(table, members) + after) == Some(t)
    requires i < |members|
    ensures Selected(t.routes, MemberKey(table, members[i]), GatewayFamily(members[i].gateway), table, dead) <==>
            BestLive(members, i, dead)
  {
    var fam := GatewayFamily(members[i].gateway);
    forall key: RouteKey | key.table == table && key.dest == DEFAULT_DEST
      ensures forall j: nat | j < |members| && MemberKey(table, members[j]) == key ::
                Lookup(t.routes, key) == Some(MemberHops(members[j]))
      ensures key in t.routes <==> exists j: nat | j < |members| :: MemberKey(table, members[j]) == key
    {
      DefaultsAreMembers(before, members, after, table, s, t, key);
    }
    hide Run;
    hide MemberSteps;
    hide GroupAlone;
    forall j: nat | j < |members|
      ensures Usable(t.routes, MemberKey(table, members[j]), fam, table, dead) <==>
              GatewayFamily(members[j].gateway) == fam && members[j].iface !in dead
    {
      assert MemberHops(members[j])[0] in MemberHops(members[j]);
    }
  }
}
