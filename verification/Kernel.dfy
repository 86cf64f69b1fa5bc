/**
 A small model of the kernel state that the plan's `ip` commands change: policy
 rules, routes, links and addresses. Commands run one by one and may fail.
 */
module Kernel {
  import opened Basics
  import opened Addresses
  import opened Config

  // ----- state

  datatype Selector = Everything | FwMark(mark: int)

  datatype IpRule = IpRule(priority: int, selector: Selector, table: int)

  datatype Dest = Dest(addr: nat, bits: nat) | BadDest(text: string)

  const DEFAULT_DEST := Dest(0, 0)

  datatype RouteKey = RouteKey(fam: Family, table: int, dest: Dest, metric: int)

  datatype Nexthop = Nexthop(gateway: Gateway, dev: string, weight: int)

  datatype LinkSpec =
    | Physical
    | TunDevice
    | WireGuardLink
    | IpTunnel(v6: bool, args: seq<string>)
    | LinkTunnel(args: seq<string>)

  datatype Link = Link(spec: LinkSpec, mtu: int, up: bool)

  /** `ip rule` without `-6` works on `rules`, the IPv4 list; `rules6` is the IPv6 list. */
  datatype State = State(
    rules: seq<IpRule>,
    rules6: seq<IpRule>,
    routes: map<RouteKey, seq<Nexthop>>,
    links: map<string, Link>,
    addresses: set<(string, Cidr)>)

  // ----- commands

  datatype Step =
    /** `ip rule del priority P || true; ip rule add priority P fwmark M table T` */
    | ReplaceRule(priority: int, mark: int, table: int)
    /** `ip route replace` */
    | ReplaceRoute(key: RouteKey, hops: seq<Nexthop>)
    /** `ip link show dev N || ip ... add N ...` */
    | EnsureLink(name: string, spec: LinkSpec)
    | SetMtu(name: string, mtu: int)
    | SetUp(name: string)
    | ReplaceAddress(name: string, cidr: Cidr)

  /** An IPv4 destination with bits set behind its prefix. */
  predicate HasHostBits(key: RouteKey) {
    key.fam == V4 && key.dest.Dest? && key.dest.bits <= 32 && key.dest.addr % Pow2(32 - key.dest.bits) != 0
  }

  /** Every gateway of a route is of the route's family. */
  predicate HopsFit(hops: seq<Nexthop>, fam: Family) {
    forall h | h in hops :: h.gateway.Via? ==> h.gateway.fam == fam
  }

  /** `ip` and the kernel take the route: gateways of its family, and no bits behind an IPv4 prefix. */
  predicate WellFormed(key: RouteKey, hops: seq<Nexthop>) {
    HopsFit(hops, key.fam) && !HasHostBits(key)
  }

  /** A name the kernel takes for a new device: at most 15 characters and no colon. */
  predicate DeviceName(name: string) {
    |name| <= 15 && ':' !in name
  }

  predicate HopsExist(hops: seq<Nexthop>, links: map<string, Link>) {
    forall h | h in hops :: h.dev == "" || h.dev in links
  }

  /** Removes the first rule with the priority, if there is one. */
  function DeleteRule(rules: seq<IpRule>, priority: int): seq<IpRule> {
    if rules == [] then []
    else if rules[0].priority == priority then rules[1..]
    else [rules[0]] + DeleteRule(rules[1..], priority)
  }

  /** Inserts a rule behind all rules of the same or a smaller priority number. */
  function InsertRule(rules: seq<IpRule>, r: IpRule): seq<IpRule> {
    if rules == [] then [r]
    else if rules[0].priority <= r.priority then [rules[0]] + InsertRule(rules[1..], r)
    else [r] + rules
  }

  /** Everything but the rule list is changed alike in both models of the rule list. */
  function Change(s: State, step: Step): Option<State> {
    match step
    case ReplaceRule(_, _, _) => Some(s)
    case ReplaceRoute(key, hops) =>
      if HopsExist(hops, s.links) && WellFormed(key, hops) then Some(s.(routes := s.routes[key := hops])) else None
    case EnsureLink(name, spec) =>
      if name in s.links then Some(s)
      else if DeviceName(name) then Some(s.(links := s.links[name := Link(spec, 0, false)])) else None
    case SetMtu(name, mtu) =>
      if name in s.links then Some(s.(links := s.links[name := s.links[name].(mtu := mtu)])) else None
    case SetUp(name) =>
      if name in s.links then Some(s.(links := s.links[name := s.links[name].(up := true)])) else None
    case ReplaceAddress(name, cidr) =>
      if name in s.links then Some(s.(addresses := s.addresses + {(name, cidr)})) else None
  }

  function Do(s: State, step: Step): Option<State> {
    match step
    case ReplaceRule(priority, mark, table) =>
      var r := IpRule(priority, FwMark(mark), table);
      var rest := DeleteRule(s.rules, priority);
      // adding a rule that is already there is an error
      if r in rest then None else Some(s.(rules := InsertRule(rest, r)))
    case _ => Change(s, step)
  }

  function Run(s: State, steps: seq<Step>): Option<State> {
    if steps == [] then Some(s) else
      match Run(s, steps[..|steps| - 1])
      case None => None
      case Some(t) => Do(t, steps[|steps| - 1])
  }

  // ----- the rule list as a map from priorities

  predicate Below(priority: int, rules: seq<IpRule>) {
    forall r | r in rules :: priority < r.priority
  }

  /** Ordered, with at most one rule per priority. */
  predicate Strict(rules: seq<IpRule>) {
    rules == [] || (Below(rules[0].priority, rules[1..]) && Strict(rules[1..]))
  }

  function View(rules: seq<IpRule>): map<int, IpRule> {
    if rules == [] then map[] else View(rules[1..])[rules[0].priority := rules[0]]
  }

  lemma Cons(head: IpRule, tail: seq<IpRule>)
    ensures Strict([head] + tail) <==> Below(head.priority, tail) && Strict(tail)
    ensures View([head] + tail) == View(tail)[head.priority := head]
    ensures forall r :: r in [head] + tail <==> r == head || r in tail
  {
    assert ([head] + tail)[1..] == tail;
  }

  lemma {:induction false} ViewMembers(rules: seq<IpRule>)
    requires Strict(rules)
    ensures forall r | r in rules :: r.priority in View(rules) && View(rules)[r.priority] == r
    ensures forall p | p in View(rules) :: View(rules)[p] in rules && View(rules)[p].priority == p
  {
    if rules != [] {
      ViewMembers(rules[1..]);
      assert rules == [rules[0]] + rules[1..];
      Cons(rules[0], rules[1..]);
    }
  }

  lemma {:induction false} DeleteMembers(rules: seq<IpRule>, priority: int)
    requires Strict(rules)
    ensures Strict(DeleteRule(rules, priority))
    ensures forall r :: r in DeleteRule(rules, priority) <==> r in rules && r.priority != priority
  {
    hide View;
    if rules != [] {
      var head, tail := rules[0], rules[1..];
      assert rules == [head] + tail;
      Cons(head, tail);
      if head.priority != priority {
        DeleteMembers(tail, priority);
        Cons(head, DeleteRule(tail, priority));
      }
    }
  }

  lemma {:induction false} InsertMembers(rules: seq<IpRule>, r: IpRule)
    requires Strict(rules) && forall x | x in rules :: x.priority != r.priority
    ensures Strict(InsertRule(rules, r))
    ensures forall x :: x in InsertRule(rules, r) <==> x in rules || x == r
  {
    hide View;
    if rules == [] {
      Cons(r, []);
      assert [r] + [] == [r];
    } else {
      var head, tail := rules[0], rules[1..];
      assert rules == [head] + tail;
      Cons(head, tail);
      if head.priority <= r.priority {
        InsertMembers(tail, r);
        Cons(head, InsertRule(tail, r));
      } else {
        Cons(r, rules);
      }
    }
  }

  lemma DeleteView(rules: seq<IpRule>, priority: int)
    requires Strict(rules)
    ensures View(DeleteRule(rules, priority)) == View(rules) - {priority}
  {
    DeleteMembers(rules, priority);
    hide DeleteRule;
    ViewMembers(rules);
    ViewMembers(DeleteRule(rules, priority));
    hide View;
    hide Strict;
    var v, w := View(rules) - {priority}, View(DeleteRule(rules, priority));
    forall p ensures p in v <==> p in w {
      if p in v { assert View(rules)[p] in DeleteRule(rules, priority); }
    }
    forall p | p in w ensures v[p] == w[p] {
      assert w[p] in rules;
    }
  }

  lemma InsertView(rules: seq<IpRule>, r: IpRule)
    requires Strict(rules) && forall x | x in rules :: x.priority != r.priority
    ensures View(InsertRule(rules, r)) == View(rules)[r.priority := r]
  {
    InsertMembers(rules, r);
    hide InsertRule;
    ViewMembers(rules);
    ViewMembers(InsertRule(rules, r));
    hide View;
    hide Strict;
    var v, w := View(rules)[r.priority := r], View(InsertRule(rules, r));
    forall p ensures p in v <==> p in w {
      if p in View(rules) { assert View(rules)[p] in InsertRule(rules, r); }
      assert r in InsertRule(rules, r);
    }
    forall p | p in w ensures v[p] == w[p] {
      assert w[p] in rules || w[p] == r;
    }
  }

  lemma TailView(head: IpRule, tail: seq<IpRule>)
    requires Strict(tail) && Below(head.priority, tail)
    ensures View(tail) == View([head] + tail) - {head.priority}
  {
    Cons(head, tail);
    ViewMembers(tail);
  }

  lemma {:induction false} ViewInjective(a: seq<IpRule>, b: seq<IpRule>)
    requires Strict(a) && Strict(b) && View(a) == View(b)
    ensures a == b
  {
    ViewMembers(a);
    ViewMembers(b);
    assert a != [] ==> a[0] in a;
    assert b != [] ==> b[0] in b;
    if a != [] {
      var ta, tb := a[1..], b[1..];
      assert a == [a[0]] + ta && b == [b[0]] + tb;
      assert a[0] in b && b[0] in a;
      assert a[0] == b[0];
      Cons(a[0], ta);
      Cons(b[0], tb);
      assert View(ta) == View(a) - {a[0].priority} by { TailView(a[0], ta); }
      assert View(tb) == View(b) - {b[0].priority} by { TailView(b[0], tb); }
      ViewInjective(ta, tb);
    }
  }

  // ----- the simple model: one cell per rule priority

  datatype Flat = Flat(rules: map<int, IpRule>, rest: State)

  function FlatOf(s: State): Flat {
    Flat(View(s.rules), s.(rules := []))
  }

  function DoFlat(f: Flat, step: Step): Option<Flat> {
    match step
    case ReplaceRule(priority, mark, table) =>
      Some(f.(rules := f.rules[priority := IpRule(priority, FwMark(mark), table)]))
    case _ =>
      match Change(f.rest, step) case None => None case Some(t) => Some(f.(rest := t))
  }

  function RunFlat(f: Flat, steps: seq<Step>): Option<Flat> {
    if steps == [] then Some(f) else
      match RunFlat(f, steps[..|steps| - 1])
      case None => None
      case Some(g) => DoFlat(g, steps[|steps| - 1])
  }

  /** Deleting and adding a rule is one map update, as long as no priority is used twice. */
  lemma {:induction false} DoRefinesFlat(s: State, step: Step)
    requires Strict(s.rules)
    ensures Do(s, step).Some? <==> DoFlat(FlatOf(s), step).Some?
    ensures Do(s, step).Some? ==>
              Strict(Do(s, step).value.rules) && DoFlat(FlatOf(s), step) == Some(FlatOf(Do(s, step).value))
  {
    if step.ReplaceRule? {
      var r := IpRule(step.priority, FwMark(step.mark), step.table);
      var rest := DeleteRule(s.rules, step.priority);
      DeleteMembers(s.rules, step.priority);
      DeleteView(s.rules, step.priority);
      InsertMembers(rest, r);
      InsertView(rest, r);
      hide View;
      hide Strict;
      hide DeleteRule;
      hide InsertRule;
      assert (View(s.rules) - {step.priority})[step.priority := r] == View(s.rules)[step.priority := r];
    }
  }

  lemma {:induction false} RunRefinesFlat(s: State, steps: seq<Step>)
    requires Strict(s.rules)
    ensures Run(s, steps).Some? <==> RunFlat(FlatOf(s), steps).Some?
    ensures Run(s, steps).Some? ==>
              Strict(Run(s, steps).value.rules) && RunFlat(FlatOf(s), steps) == Some(FlatOf(Run(s, steps).value))
  {
    if steps != [] {
      RunRefinesFlat(s, steps[..|steps| - 1]);
      var t := Run(s, steps[..|steps| - 1]);
      if t.Some? {
        DoRefinesFlat(t.value, steps[|steps| - 1]);
      }
    }
  }

  lemma FlatInjective(s: State, t: State)
    requires Strict(s.rules) && Strict(t.rules) && FlatOf(s) == FlatOf(t)
    ensures s == t
  {
    ViewInjective(s.rules, t.rules);
  }
}
