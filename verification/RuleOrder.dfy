/**
 Stable sorting of rules by priority, as the standard library's stable sort
 promises it: the permutation ascending by (priority, configuration index).
 */
module RuleOrder {
  import opened Config

  /** Rule i comes before rule j: lower priority number, ties in configuration order. */
  predicate Before(rules: seq<RouteRule>, i: nat, j: nat)
    requires i < |rules| && j < |rules|
  {
    rules[i].priority < rules[j].priority || (rules[i].priority == rules[j].priority && i < j)
  }

  predicate Indices(rules: seq<RouteRule>, order: seq<nat>) {
    forall k :: 0 <= k < |order| ==> order[k] < |rules|
  }

  /** A permutation of the rules' indices, ascending in the stable order. */
  ghost predicate IsStableOrder(rules: seq<RouteRule>, order: seq<nat>) {
    && Indices(rules, order)
    && (forall i: nat :: i < |rules| ==> i in order)
    && (forall k, l :: 0 <= k < l < |order| ==> Before(rules, order[k], order[l]))
  }

  function InsertIndex(rules: seq<RouteRule>, order: seq<nat>, j: nat): (r: seq<nat>)
    requires Indices(rules, order) && j < |rules|
    ensures Indices(rules, r)
    ensures forall i :: i in r <==> i in order || i == j
  {
    if order == [] || rules[order[|order| - 1]].priority <= rules[j].priority then order + [j]
    else
      var r := InsertIndex(rules, order[..|order| - 1], j) + [order[|order| - 1]];
      assert order == order[..|order| - 1] + [order[|order| - 1]];
      r
  }

  function OrderUpTo(rules: seq<RouteRule>, n: nat): (r: seq<nat>)
    requires n <= |rules|
    ensures Indices(rules, r)
  {
    if n == 0 then [] else InsertIndex(rules, OrderUpTo(rules, n - 1), n - 1)
  }

  function Order(rules: seq<RouteRule>): (r: seq<nat>)
    ensures Indices(rules, r)
  {
    OrderUpTo(rules, |rules|)
  }

  function Pick(rules: seq<RouteRule>, order: seq<nat>): (r: seq<RouteRule>)
    requires Indices(rules, order)
  {
    seq(|order|, k requires 0 <= k < |order| => rules[order[k]])
  }

  /** The rules in stable priority order. */
  function StableSort(rules: seq<RouteRule>): seq<RouteRule> {
    Pick(rules, Order(rules))
  }

  predicate Ascending(rules: seq<RouteRule>, order: seq<nat>)
    requires Indices(rules, order)
  {
    forall k, l :: 0 <= k < l < |order| ==> Before(rules, order[k], order[l])
  }

  lemma {:induction false} InsertKeepsAscending(rules: seq<RouteRule>, order: seq<nat>, j: nat)
    requires Indices(rules, order) && j < |rules| && Ascending(rules, order)
    requires forall i | i in order :: i < j
    ensures Ascending(rules, InsertIndex(rules, order, j))
  {
    if order == [] || rules[order[|order| - 1]].priority <= rules[j].priority {
      forall k | 0 <= k < |order| ensures Before(rules, order[k], j) {
        assert order[k] in order;
      }
    } else {
      var init, last := order[..|order| - 1], order[|order| - 1];
      forall i | i in init ensures i < j { assert i in order; }
      InsertKeepsAscending(rules, init, j);
      var r := InsertIndex(rules, init, j);
      forall k | 0 <= k < |r| ensures Before(rules, r[k], last) {
        assert r[k] in r;
        if r[k] != j {
          var q :| 0 <= q < |init| && init[q] == r[k];
        }
      }
    }
  }

  lemma {:induction false} OrderUpToIsStable(rules: seq<RouteRule>, n: nat)
    requires n <= |rules|
    ensures Ascending(rules, OrderUpTo(rules, n))
    ensures forall i: nat :: i in OrderUpTo(rules, n) <==> i < n
  {
    if n > 0 {
      OrderUpToIsStable(rules, n - 1);
      InsertKeepsAscending(rules, OrderUpTo(rules, n - 1), n - 1);
    }
  }

  lemma {:induction false} OrderIsStable(rules: seq<RouteRule>)
    ensures IsStableOrder(rules, Order(rules))
  {
    OrderUpToIsStable(rules, |rules|);
  }

  /** The first hit in stable order comes before every other hit. */
  lemma FirstInOrder(rules: seq<RouteRule>, hits: seq<bool>, k: nat)
    requires |hits| == |rules| && k < |Order(rules)|
    requires forall j: nat :: j < k ==> !hits[Order(rules)[j]]
    ensures forall j: nat | j < |rules| && j != Order(rules)[k] && hits[j] :: Before(rules, Order(rules)[k], j)
  {
    OrderIsStable(rules);
    var order := Order(rules);
    forall j: nat | j < |rules| && j != order[k] && hits[j] ensures Before(rules, order[k], j) {
      assert j in order;
      var l :| 0 <= l < |order| && order[l] == j;
    }
  }

  lemma LastIsGreatest(rules: seq<RouteRule>, a: seq<nat>)
    requires Indices(rules, a) && Ascending(rules, a) && a != []
    ensures forall i | i in a :: i < |rules| && (i == a[|a| - 1] || Before(rules, i, a[|a| - 1]))
    ensures forall i :: i in a[..|a| - 1] <==> i in a && i != a[|a| - 1]
  {
    var init, last := a[..|a| - 1], a[|a| - 1];
    forall k | 0 <= k < |init| ensures Before(rules, init[k], last) && init[k] != last {
      assert Before(rules, a[k], last);
    }
    assert a == init + [last];
  }

  lemma {:induction false} AscendingUnique(rules: seq<RouteRule>, a: seq<nat>, b: seq<nat>)
    requires Indices(rules, a) && Indices(rules, b) && Ascending(rules, a) && Ascending(rules, b)
    requires forall i :: i in a <==> i in b
    ensures a == b
  {
    assert b != [] ==> b[0] in b;
    if a != [] {
      assert a[0] in b;
      LastIsGreatest(rules, a);
      LastIsGreatest(rules, b);
      assert a[|a| - 1] in b && b[|b| - 1] in a;
      assert a[|a| - 1] == b[|b| - 1];
      var ia, ib := a[..|a| - 1], b[..|b| - 1];
      forall i ensures i in ia <==> i in ib {
        assert i in ia <==> i in a && i != a[|a| - 1];
        assert i in ib <==> i in b && i != b[|b| - 1];
      }
      AscendingUnique(rules, ia, ib);
      assert a == ia + [a[|a| - 1]] && b == ib + [b[|b| - 1]];
    }
  }

  /** There is only one stable order, so any conforming stable sort gives the same list. */
  lemma {:induction false} StableOrderUnique(rules: seq<RouteRule>, order: seq<nat>)
    requires IsStableOrder(rules, order)
    ensures Pick(rules, order) == StableSort(rules)
  {
    OrderIsStable(rules);
    AscendingUnique(rules, order, Order(rules));
  }

  // ----- the enabled rules do not depend on configuration order

  function EnabledOnly(rules: seq<RouteRule>): (r: seq<RouteRule>)
    ensures forall x :: x in r <==> x in rules && x.enabled
  {
    if rules == [] then [] else
      var last := rules[|rules| - 1];
      assert rules == rules[..|rules| - 1] + [last];
      EnabledOnly(rules[..|rules| - 1]) + (if last.enabled then [last] else [])
  }

  predicate DistinctPriorities(rules: seq<RouteRule>) {
    forall i, j :: 0 <= i < j < |rules| && rules[i].enabled && rules[j].enabled ==>
      rules[i].priority != rules[j].priority
  }

  predicate StrictlyByPriority(rules: seq<RouteRule>) {
    forall k, l :: 0 <= k < l < |rules| ==> rules[k].priority < rules[l].priority
  }

  lemma {:induction false} EnabledStrict(rules: seq<RouteRule>)
    requires forall k, l :: 0 <= k < l < |rules| && rules[k].enabled && rules[l].enabled ==>
               rules[k].priority < rules[l].priority
    ensures StrictlyByPriority(EnabledOnly(rules))
  {
    if rules != [] {
      var init, last := rules[..|rules| - 1], rules[|rules| - 1];
      EnabledStrict(init);
      var r := EnabledOnly(init);
      if last.enabled {
        forall k | 0 <= k < |r| ensures r[k].priority < last.priority {
          assert r[k] in r;
          var q :| 0 <= q < |init| && init[q] == r[k];
          assert rules[q] == init[q];
        }
      }
    }
  }

  lemma SortedMembers(rules: seq<RouteRule>)
    ensures forall r :: r in StableSort(rules) <==> r in rules
  {
    OrderIsStable(rules);
    var order, sorted := Order(rules), StableSort(rules);
    forall r ensures r in sorted <==> r in rules {
      if r in rules {
        var i: nat :| i < |rules| && rules[i] == r;
        assert i in order;
        var k :| 0 <= k < |order| && order[k] == i;
        assert sorted[k] == r;
      }
    }
  }

  lemma SortedEnabledStrict(rules: seq<RouteRule>)
    requires DistinctPriorities(rules)
    ensures StrictlyByPriority(EnabledOnly(StableSort(rules)))
    ensures forall r :: r in EnabledOnly(StableSort(rules)) <==> r in rules && r.enabled
  {
    OrderIsStable(rules);
    var order, sorted := Order(rules), StableSort(rules);
    forall k, l | 0 <= k < l < |sorted| && sorted[k].enabled && sorted[l].enabled
      ensures sorted[k].priority < sorted[l].priority
    {
      assert Before(rules, order[k], order[l]);
    }
    EnabledStrict(sorted);
    SortedMembers(rules);
  }

  lemma LastIsLowest(a: seq<RouteRule>)
    requires StrictlyByPriority(a) && a != []
    ensures forall r | r in a :: r == a[|a| - 1] || r.priority < a[|a| - 1].priority
    ensures forall r :: r in a[..|a| - 1] <==> r in a && r != a[|a| - 1]
  {
    var init, last := a[..|a| - 1], a[|a| - 1];
    forall k | 0 <= k < |init| ensures init[k].priority < last.priority {
      assert init[k] == a[k];
    }
    assert a == init + [last];
  }

  lemma SameLowest(a: seq<RouteRule>, b: seq<RouteRule>, ia: seq<RouteRule>, ib: seq<RouteRule>)
    requires StrictlyByPriority(a) && StrictlyByPriority(b) && a != [] && b != []
    requires forall r :: r in a <==> r in b
    requires ia == a[..|a| - 1] && ib == b[..|b| - 1]
    ensures a[|a| - 1] == b[|b| - 1]
    ensures forall r :: r in ia <==> r in ib
  {
    LastIsLowest(a);
    LastIsLowest(b);
    hide StrictlyByPriority;
    assert a[|a| - 1] in b && b[|b| - 1] in a;
    assert a[|a| - 1] == b[|b| - 1];
    forall r ensures r in ia <==> r in ib {
      assert r in ia <==> r in a && r != a[|a| - 1];
      assert r in ib <==> r in b && r != b[|b| - 1];
    }
  }

  lemma {:induction false} StrictUnique(a: seq<RouteRule>, b: seq<RouteRule>)
    requires StrictlyByPriority(a) && StrictlyByPriority(b)
    requires forall r :: r in a <==> r in b
    ensures a == b
  {
    assert b != [] ==> b[0] in b;
    if a != [] {
      assert a[0] in b;
      var ia, ib := a[..|a| - 1], b[..|b| - 1];
      SameLowest(a, b, ia, ib);
      StrictUnique(ia, ib);
      assert a == ia + [a[|a| - 1]] && b == ib + [b[|b| - 1]];
    }
  }

  lemma {:induction false} OccurrencesAreIndices(rules: seq<RouteRule>, r: RouteRule)
    ensures multiset(rules)[r] >= 2 ==> exists i, j :: 0 <= i < j < |rules| && rules[i] == r == rules[j]
    ensures multiset(rules)[r] >= 1 ==> exists i :: 0 <= i < |rules| && rules[i] == r
  {
    if rules != [] {
      var init, last := rules[..|rules| - 1], rules[|rules| - 1];
      assert rules == init + [last];
      OccurrencesAreIndices(init, r);
      if multiset(rules)[r] >= 2 && last == r {
        var i :| 0 <= i < |init| && init[i] == r;
        assert rules[i] == r && rules[|rules| - 1] == r;
      } else if multiset(rules)[r] >= 2 {
        var i, j :| 0 <= i < j < |init| && init[i] == r == init[j];
        assert rules[i] == r == rules[j];
      }
    }
  }

  lemma TwiceInMultiset(rules: seq<RouteRule>, i: nat, j: nat)
    requires i < j < |rules| && rules[i] == rules[j]
    ensures multiset(rules)[rules[i]] >= 2
  {
    assert rules == rules[..j] + [rules[j]] + rules[j + 1..];
    assert rules[..j][i] == rules[i];
  }

  lemma DistinctPrioritiesPermute(a: seq<RouteRule>, b: seq<RouteRule>)
    requires multiset(a) == multiset(b) && DistinctPriorities(a)
    ensures DistinctPriorities(b)
  {
    forall i, j | 0 <= i < j < |b| && b[i].enabled && b[j].enabled ensures b[i].priority != b[j].priority {
      if b[i] == b[j] {
        TwiceInMultiset(b, i, j);
        OccurrencesAreIndices(a, b[i]);
      } else {
        assert b[i] in multiset(a) && b[j] in multiset(a);
      }
    }
  }

  /** Any permutation of the rules gives the same enabled rules in the same order. */
  lemma {:induction false} OrderIndependent(a: seq<RouteRule>, b: seq<RouteRule>)
    requires multiset(a) == multiset(b) && DistinctPriorities(a)
    ensures EnabledOnly(StableSort(a)) == EnabledOnly(StableSort(b))
  {
    DistinctPrioritiesPermute(a, b);
    SortedEnabledStrict(a);
    SortedEnabledStrict(b);
    forall r ensures r in a <==> r in b {
      assert r in a <==> r in multiset(a);
      assert r in b <==> r in multiset(b);
    }
    StrictUnique(EnabledOnly(StableSort(a)), EnabledOnly(StableSort(b)));
  }
}
