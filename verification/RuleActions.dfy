/**
 What a rule does with a matched packet: the nft action of its lines and, computed
 separately, the mark and routing table of its policy-routing entry.
 */
module RuleActions {
  import opened Basics
  import opened Config
  import opened Nft

  function FirstTunnel(tunnels: seq<Tunnel>, id: string): Option<Tunnel> {
    if tunnels == [] then None
    else if tunnels[0].id == id then Some(tunnels[0])
    else FirstTunnel(tunnels[1..], id)
  }

  function FirstGroup(groups: seq<WanGroup>, id: string): Option<WanGroup> {
    if groups == [] then None
    else if groups[0].id == id then Some(groups[0])
    else FirstGroup(groups[1..], id)
  }

  /** Actions that steer traffic by setting a mark. */
  predicate Steers(kind: ActionKind) {
    kind in {ToInterface, ToTunnel, ToWanGroup, LoadBalance, Scan, Mirror}
  }

  predicate TargetsGroup(kind: ActionKind) {
    kind == ToWanGroup || kind == LoadBalance
  }

  function TunnelMark(tunnels: seq<Tunnel>, id: string): int {
    match FirstTunnel(tunnels, id) case Some(t) => t.mark case None => 0
  }

  function GroupMark(groups: seq<WanGroup>, id: string): int {
    match FirstGroup(groups, id) case Some(g) => g.mark case None => 0
  }

  /** The mark a steering rule's lines set; zero when none is configured anywhere. */
  function NftMark(rule: RouteRule, tunnels: seq<Tunnel>, groups: seq<WanGroup>): int {
    var a := rule.action;
    var m := if a.mark == 0 && a.kind == ToTunnel then TunnelMark(tunnels, a.target) else a.mark;
    if m == 0 && TargetsGroup(a.kind) then GroupMark(groups, a.target) else m
  }

  /** A line's ending: whether it logs, and its terminal action. */
  datatype Ending = Ending(log: bool, action: Action)

  function EndingOf(rule: RouteRule, tunnels: seq<Tunnel>, groups: seq<WanGroup>): Option<Ending> {
    match rule.action.kind
    case Blackhole => Some(Ending(rule.action.log, Drop))
    case Reject => Some(Ending(rule.action.log, RejectWith))
    case Direct => Some(Ending(false, SetMarkAccept(0)))
    case OtherAction(_) => None
    case _ =>
      var m := NftMark(rule, tunnels, groups);
      if m == 0 then None else Some(Ending(rule.action.log, SetMarkAccept(m)))
  }

  /** Mark and table of the rule's `ip rule` entry; a zero in either means no entry. */
  datatype Route = Route(mark: int, table: int)

  function Fill(r: Route, mark: int, table: int): Route {
    Route(if r.mark == 0 then mark else r.mark, if r.table == 0 then table else r.table)
  }

  function TunnelRoute(rule: RouteRule, tunnels: seq<Tunnel>): Route {
    var own := Route(rule.action.mark, rule.action.table);
    if rule.action.kind != ToTunnel then own else
      match FirstTunnel(tunnels, rule.action.target)
      case Some(t) => Fill(own, t.mark, t.table)
      case None => own
  }

  function RouteOf(rule: RouteRule, tunnels: seq<Tunnel>, groups: seq<WanGroup>): Route {
    var own := TunnelRoute(rule, tunnels);
    if !TargetsGroup(rule.action.kind) then own else
      match FirstGroup(groups, rule.action.target)
      case Some(g) => Fill(own, g.mark, g.table)
      case None => own
  }

  method NftAction(rule: RouteRule, tunnels: seq<Tunnel>, groups: seq<WanGroup>) returns (r: Option<Ending>)
    ensures r == EndingOf(rule, tunnels, groups)
  {
    match rule.action.kind {
      case Blackhole => return Some(Ending(rule.action.log, Drop));
      case Reject => return Some(Ending(rule.action.log, RejectWith));
      case Direct => return Some(Ending(false, SetMarkAccept(0)));
      case OtherAction(_) => return None;
      case _ =>
    }
    var target := rule.action.target;
    var mark := rule.action.mark;
    if mark == 0 && rule.action.kind == ToTunnel {
      var i := 0;
      while i < |tunnels|
        invariant 0 <= i <= |tunnels| && mark == 0
        invariant FirstTunnel(tunnels[i..], target) == FirstTunnel(tunnels, target)
      {
        if tunnels[i].id == target {
          mark := tunnels[i].mark;
          break;
        }
        i := i + 1;
      }
    }
    if mark == 0 && TargetsGroup(rule.action.kind) {
      var i := 0;
      while i < |groups|
        invariant 0 <= i <= |groups| && mark == 0
        invariant FirstGroup(groups[i..], target) == FirstGroup(groups, target)
      {
        if groups[i].id == target {
          mark := groups[i].mark;
          break;
        }
        i := i + 1;
      }
    }
    if mark == 0 {
      return None;
    }
    return Some(Ending(rule.action.log, SetMarkAccept(mark)));
  }

  method ResolveRuleRoute(rule: RouteRule, tunnels: seq<Tunnel>) returns (mark: int, table: int)
    ensures Route(mark, table) == TunnelRoute(rule, tunnels)
  {
    mark, table := rule.action.mark, rule.action.table;
    if rule.action.kind == ToTunnel {
      var i := 0;
      while i < |tunnels|
        invariant 0 <= i <= |tunnels|
        invariant mark == rule.action.mark && table == rule.action.table
        invariant FirstTunnel(tunnels[i..], rule.action.target) == FirstTunnel(tunnels, rule.action.target)
      {
        if tunnels[i].id == rule.action.target {
          if mark == 0 {
            mark := tunnels[i].mark;
          }
          if table == 0 {
            table := tunnels[i].table;
          }
          break;
        }
        i := i + 1;
      }
    }
  }

  method ResolveRuleRouteWithGroups(rule: RouteRule, tunnels: seq<Tunnel>, groups: seq<WanGroup>)
    returns (mark: int, table: int)
    ensures Route(mark, table) == RouteOf(rule, tunnels, groups)
  {
    mark, table := ResolveRuleRoute(rule, tunnels);
    ghost var own := Route(mark, table);
    if TargetsGroup(rule.action.kind) {
      var i := 0;
      while i < |groups|
        invariant 0 <= i <= |groups|
        invariant mark == own.mark && table == own.table
        invariant FirstGroup(groups[i..], rule.action.target) == FirstGroup(groups, rule.action.target)
      {
        if groups[i].id == rule.action.target {
          if mark == 0 {
            mark := groups[i].mark;
          }
          if table == 0 {
            table := groups[i].table;
          }
          break;
        }
        i := i + 1;
      }
    }
  }

  /** The two resolvers agree: a steering rule's lines set exactly the mark its `ip rule` entry looks for. */
  lemma {:induction false} ResolversAgree(rule: RouteRule, tunnels: seq<Tunnel>, groups: seq<WanGroup>)
    ensures Steers(rule.action.kind) ==>
              NftMark(rule, tunnels, groups) == RouteOf(rule, tunnels, groups).mark
    ensures Steers(rule.action.kind) ==>
              var e, m := EndingOf(rule, tunnels, groups), RouteOf(rule, tunnels, groups).mark;
              (e.Some? <==> m != 0) && (e.Some? ==> e.value.action == SetMarkAccept(m))
  {
  }
}
