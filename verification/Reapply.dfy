/**
 Laws of plan execution over the kernel model: running a plan again changes
 nothing, and every rule priority and route key ends with its last writer.
 */
module Reapply {
  import opened Basics
  import opened Kernel

  ghost predicate EqualBut<K(!new), V>(m: map<K, V>, n: map<K, V>, k: K) {
    forall x | x != k :: (x in m <==> x in n) && (x in m ==> m[x] == n[x])
  }

  ghost predicate SameButLink(a: Flat, b: Flat, name: string) {
    && a.rules == b.rules && a.rest.rules == b.rest.rules && a.rest.rules6 == b.rest.rules6
    && a.rest.addresses == b.rest.addresses && a.rest.routes == b.rest.routes
    && name in a.rest.links && name in b.rest.links
    && EqualBut(a.rest.links, b.rest.links, name)
    && a.rest.links[name].spec == b.rest.links[name].spec
  }

  /** The two states differ at most in the cell the step overwrites. */
  ghost predicate SameBut(a: Flat, b: Flat, step: Step) {
    match step
    case ReplaceRule(priority, _, _) =>
      a.rest == b.rest && EqualBut(a.rules, b.rules, priority)
    case ReplaceRoute(key, _) =>
      && a.rules == b.rules && a.rest.rules == b.rest.rules && a.rest.rules6 == b.rest.rules6
      && a.rest.links == b.rest.links && a.rest.addresses == b.rest.addresses
      && EqualBut(a.rest.routes, b.rest.routes, key)
    case SetMtu(name, _) => SameButLink(a, b, name) && a.rest.links[name].up == b.rest.links[name].up
    case SetUp(name) => SameButLink(a, b, name) && a.rest.links[name].mtu == b.rest.links[name].mtu
    case ReplaceAddress(name, cidr) =>
      && a.rules == b.rules && a.rest.rules == b.rest.rules && a.rest.rules6 == b.rest.rules6
      && a.rest.links == b.rest.links && a.rest.routes == b.rest.routes
      && forall x :: x != (name, cidr) ==> (x in a.rest.addresses <==> x in b.rest.addresses)
    case _ => a == b
  }

  lemma Overwrites(f: Flat, step: Step)
    requires DoFlat(f, step).Some? && (step.EnsureLink? ==> step.name in f.rest.links)
    ensures SameBut(f, DoFlat(f, step).value, step)
  {
  }

  /** Repeating the step erases the difference. */
  lemma Absorbs(a: Flat, b: Flat, step: Step)
    requires SameBut(a, b, step) && DoFlat(a, step).Some?
    ensures DoFlat(b, step) == DoFlat(a, step)
  {
    match step {
      case ReplaceRule(p, m, t) => assert DoFlat(a, step).value.rules == DoFlat(b, step).value.rules;
      case ReplaceRoute(k, h) => assert a.rest.routes[k := h] == b.rest.routes[k := h];
      case SetMtu(n, mtu) =>
        assert a.rest.links[n := a.rest.links[n].(mtu := mtu)] == b.rest.links[n := b.rest.links[n].(mtu := mtu)];
      case SetUp(n) =>
        assert a.rest.links[n := a.rest.links[n].(up := true)] == b.rest.links[n := b.rest.links[n].(up := true)];
      case ReplaceAddress(n, c) => assert a.rest.addresses + {(n, c)} == b.rest.addresses + {(n, c)};
      case _ =>
    }
  }

  lemma LinkDifference(a: Flat, b: Flat, name: string, next: Step)
    requires SameButLink(a, b, name) && DoFlat(a, next).Some?
    ensures DoFlat(b, next).Some? && SameButLink(DoFlat(a, next).value, DoFlat(b, next).value, name)
    ensures var c, d := DoFlat(a, next).value, DoFlat(b, next).value;
            && (a.rest.links[name].up == b.rest.links[name].up ==> c.rest.links[name].up == d.rest.links[name].up)
            && (a.rest.links[name].mtu == b.rest.links[name].mtu ==> c.rest.links[name].mtu == d.rest.links[name].mtu)
  {
    forall n ensures n in a.rest.links <==> n in b.rest.links {}
  }

  /** Any further step keeps the difference confined to that cell. */
  lemma SameButPreserved(a: Flat, b: Flat, step: Step, next: Step)
    requires SameBut(a, b, step) && DoFlat(a, next).Some?
    ensures DoFlat(b, next).Some? && SameBut(DoFlat(a, next).value, DoFlat(b, next).value, step)
  {
    match step {
      case ReplaceRule(_, _, _) =>
      case ReplaceRoute(_, _) =>
      case SetMtu(name, _) => LinkDifference(a, b, name, next);
      case SetUp(name) => LinkDifference(a, b, name, next);
      case ReplaceAddress(_, _) =>
      case _ =>
    }
  }

  lemma {:induction false} SameButRun(a: Flat, b: Flat, step: Step, steps: seq<Step>)
    requires SameBut(a, b, step) && RunFlat(a, steps).Some?
    ensures RunFlat(b, steps).Some? && SameBut(RunFlat(a, steps).value, RunFlat(b, steps).value, step)
  {
    if steps != [] {
      var init := steps[..|steps| - 1];
      SameButRun(a, b, step, init);
      SameButPreserved(RunFlat(a, init).value, RunFlat(b, init).value, step, steps[|steps| - 1]);
    }
  }

  // ----- a link that did not exist yet

  /** The second state has one more link, which the first does not know. */
  ghost predicate ExtraLink(a: Flat, b: Flat, name: string, link: Link) {
    && name !in a.rest.links
    && b == a.(rest := a.rest.(links := a.rest.links[name := link]))
  }

  lemma LinksOnlyGrow(f: Flat, step: Step)
    requires DoFlat(f, step).Some?
    ensures forall n | n in f.rest.links :: n in DoFlat(f, step).value.rest.links
  {
  }

  lemma ExtraLinkPreserved(a: Flat, b: Flat, name: string, link: Link, next: Step)
    requires ExtraLink(a, b, name, link) && DoFlat(a, next).Some? && name !in DoFlat(a, next).value.rest.links
    ensures DoFlat(b, next).Some? && ExtraLink(DoFlat(a, next).value, DoFlat(b, next).value, name, link)
  {
    var c := DoFlat(a, next).value;
    if next.EnsureLink? || next.SetMtu? || next.SetUp? {
      assert next.name != name;
      if next.name in a.rest.links {
        var l := c.rest.links[next.name];
        assert a.rest.links[name := link][next.name := l] == a.rest.links[next.name := l][name := link];
      } else {
        var l := Link(next.spec, 0, false);
        assert a.rest.links[name := link][next.name := l] == a.rest.links[next.name := l][name := link];
      }
    }
  }

  lemma {:induction false} ExtraLinkRun(a: Flat, b: Flat, name: string, link: Link, steps: seq<Step>)
    requires ExtraLink(a, b, name, link) && RunFlat(a, steps).Some? && name !in RunFlat(a, steps).value.rest.links
    ensures RunFlat(b, steps).Some? && ExtraLink(RunFlat(a, steps).value, RunFlat(b, steps).value, name, link)
  {
    if steps != [] {
      var init, last := steps[..|steps| - 1], steps[|steps| - 1];
      LinksOnlyGrow(RunFlat(a, init).value, last);
      ExtraLinkRun(a, b, name, link, init);
      ExtraLinkPreserved(RunFlat(a, init).value, RunFlat(b, init).value, name, link, last);
    }
  }

  // ----- re-applying

  lemma {:induction false} ReapplyFlat(f: Flat, steps: seq<Step>)
    requires RunFlat(f, steps).Some?
    ensures RunFlat(RunFlat(f, steps).value, steps) == RunFlat(f, steps)
  {
    if steps != [] {
      var init, last := steps[..|steps| - 1], steps[|steps| - 1];
      var g := RunFlat(f, init).value;
      var h := RunFlat(f, steps).value;
      ReapplyFlat(f, init);
      if last.EnsureLink? && last.name !in g.rest.links {
        var link := Link(last.spec, 0, false);
        assert ExtraLink(g, h, last.name, link);
        ExtraLinkRun(g, h, last.name, link, init);
      } else {
        Overwrites(g, last);
        SameButRun(g, h, last, init);
        Absorbs(g, RunFlat(h, init).value, last);
      }
    }
  }

  /** Re-applying a plan that succeeded once succeeds again and leaves the state as it is. */
  lemma {:induction false} ReapplyIsNoOp(s: State, steps: seq<Step>)
    requires Strict(s.rules) && Run(s, steps).Some?
    ensures Run(Run(s, steps).value, steps) == Run(s, steps)
  {
    var t := Run(s, steps).value;
    RunRefinesFlat(s, steps);
    ReapplyFlat(FlatOf(s), steps);
    RunRefinesFlat(t, steps);
    FlatInjective(t, Run(t, steps).value);
  }

  // ----- the last writer wins

  function LastRule(steps: seq<Step>, priority: int): Option<IpRule> {
    if steps == [] then None else
      var last := steps[|steps| - 1];
      if last.ReplaceRule? && last.priority == priority then Some(IpRule(priority, FwMark(last.mark), last.table))
      else LastRule(steps[..|steps| - 1], priority)
  }

  function LastRoute(steps: seq<Step>, key: RouteKey): Option<seq<Nexthop>> {
    if steps == [] then None else
      var last := steps[|steps| - 1];
      if last.ReplaceRoute? && last.key == key then Some(last.hops)
      else LastRoute(steps[..|steps| - 1], key)
  }

  function Lookup<K, V>(m: map<K, V>, k: K): Option<V> {
    if k in m then Some(m[k]) else None
  }

  function Else<T>(a: Option<T>, b: Option<T>): Option<T> {
    if a.Some? then a else b
  }

  lemma {:induction false} LastWriterFlat(f: Flat, steps: seq<Step>, priority: int, key: RouteKey)
    requires RunFlat(f, steps).Some?
    ensures Lookup(RunFlat(f, steps).value.rules, priority) == Else(LastRule(steps, priority), Lookup(f.rules, priority))
    ensures Lookup(RunFlat(f, steps).value.rest.routes, key) == Else(LastRoute(steps, key), Lookup(f.rest.routes, key))
  {
    if steps != [] {
      LastWriterFlat(f, steps[..|steps| - 1], priority, key);
    }
  }

  lemma {:induction false} LastRouteWins(s: State, steps: seq<Step>, key: RouteKey)
    requires Run(s, steps).Some?
    ensures Lookup(Run(s, steps).value.routes, key) == Else(LastRoute(steps, key), Lookup(s.routes, key))
  {
    if steps != [] {
      hide DeleteRule;
      hide InsertRule;
      LastRouteWins(s, steps[..|steps| - 1], key);
    }
  }

  lemma {:induction false} LastRouteConcat(a: seq<Step>, b: seq<Step>, key: RouteKey)
    ensures LastRoute(a + b, key) == Else(LastRoute(b, key), LastRoute(a, key))
  {
    if b == [] {
      assert a + b == a;
    } else {
      assert (a + b)[..|a + b| - 1] == a + b[..|b| - 1];
      LastRouteConcat(a, b[..|b| - 1], key);
    }
  }

  lemma {:induction false} LastRuleConcat(a: seq<Step>, b: seq<Step>, priority: int)
    ensures LastRule(a + b, priority) == Else(LastRule(b, priority), LastRule(a, priority))
  {
    if b == [] {
      assert a + b == a;
    } else {
      assert (a + b)[..|a + b| - 1] == a + b[..|b| - 1];
      LastRuleConcat(a, b[..|b| - 1], priority);
    }
  }

  /** Every rule priority and every route key holds what the last step writing it wrote, or its old value. */
  lemma {:induction false} LastWriterWins(s: State, steps: seq<Step>, priority: int, key: RouteKey)
    requires Strict(s.rules) && Run(s, steps).Some?
    ensures var t := Run(s, steps).value;
            && Strict(t.rules)
            && Lookup(View(t.rules), priority) == Else(LastRule(steps, priority), Lookup(View(s.rules), priority))
            && Lookup(t.routes, key) == Else(LastRoute(steps, key), Lookup(s.routes, key))
  {
    RunRefinesFlat(s, steps);
    LastWriterFlat(FlatOf(s), steps, priority, key);
  }
}
