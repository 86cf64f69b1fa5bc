/** When the ruleset generator warns: exactly for what a configuration asks and the ruleset cannot say. */
module Warnings {
  import opened Basics
  import opened Addresses
  import opened Config
  import opened MatchCompiler
  import opened MatchMeaning
  import opened RuleOrder
  import opened PolicyChains
  import opened NatChains
  import opened CompiledTable
  import opened NftWriter

  /** A pair that is not two single hosts of one family. */
  predicate Wide(n: OneToOneNat) {
    !(&& n.internal.Cidr? && n.external.Cidr? && n.internal.fam == n.external.fam
      && n.internal.bits == (if n.internal.fam == V4 then 32 else 128)
      && n.external.bits == (if n.external.fam == V4 then 32 else 128))
  }

  /** A live route set that holds no address of either family. */
  predicate Hollow(s: RouteSet) {
    s.enabled && forall c | c in s.cidrs :: !c.Cidr?
  }

  predicate RuleDeserves(r: RouteRule, sets: seq<RouteSet>, w: Warning) {
    match w
    case DomainMatch(id, domain) => r.id == id && domain in r.match_.domains
    case GeoMatch(id, geo) => r.id == id && geo in r.match_.geoIP
    case UnmappedApplication(id, app) => r.id == id && app in r.match_.applications
    case UnmappedService(id, service) => r.id == id && service in r.match_.services
    case PortsSkipped(id, proto) =>
      && r.id == id && (r.match_.sourcePorts != [] || r.match_.destinationPorts != [])
      && proto in r.match_.protocols && proto != Tcp && proto != Udp
    case EmptySet(id, setId) =>
      r.id == id && setId in r.match_.sets && exists s | s in sets :: s.id == setId && Hollow(s)
    case _ => false
  }

  /** What in the configuration deserves the warning. */
  predicate Deserves(c: Config, w: Warning) {
    match w
    case DynamicSet(id) =>
      exists s | s in c.routing.sets ::
        s.enabled && s.id == id && (s.sourceURLs != [] || s.countries != [] || s.domains != [])
    case NetmapNat(id) =>
      c.security.nat_ && exists n | n in c.security.oneToOne :: n.enabled && n.id == id && Wide(n)
    case _ => exists r | r in c.routing.rules :: r.enabled && RuleDeserves(r, c.routing.sets, w)
  }

  // ----- sets and pairs

  lemma {:induction false} SetWarned(sets: seq<RouteSet>, w: Warning)
    ensures w in SetWarnings(sets) <==>
            w.DynamicSet? && exists s | s in sets ::
              s.enabled && s.id == w.setId && (s.sourceURLs != [] || s.countries != [] || s.domains != [])
  {
    if sets != [] {
      var init, last := sets[..|sets| - 1], sets[|sets| - 1];
      assert sets == init + [last];
      SetWarned(init, w);
      forall s ensures s in sets <==> s in init || s == last {}
    }
  }

  lemma WideIff(n: OneToOneNat)
    ensures Wide(n) <==> !SingleHost(n)
  {
  }

  lemma {:induction false} PairWarned(nats: seq<OneToOneNat>, w: Warning)
    ensures w in PairWarnings(nats) <==>
            w.NetmapNat? && exists n | n in nats :: n.enabled && n.id == w.natId && Wide(n)
  {
    if nats != [] {
      var init, last := nats[..|nats| - 1], nats[|nats| - 1];
      assert nats == init + [last];
      PairWarned(init, w);
      WideIff(last);
      hide Wide;
      hide SingleHost;
      forall n ensures n in nats <==> n in init || n == last {}
    }
  }

  // ----- one rule

  lemma {:induction false} PortWarned(id: string, m: RuleMatch, protos: seq<Protocol>, w: Warning)
    ensures w in PortWarningsOf(id, m, protos) <==>
            w.PortsSkipped? && w.ruleId == id && HasPorts(m) && w.proto in protos && !CarriesPorts(w.proto)
  {
    if protos != [] {
      var init, last := protos[..|protos| - 1], protos[|protos| - 1];
      assert protos == init + [last];
      PortWarned(id, m, init, w);
    }
  }

  lemma HollowIff(s: RouteSet)
    ensures s.enabled && SetExpr(s) == [] <==> Hollow(s)
  {
    hide SetName;
    assert SetExpr(s) == [] <==> OfFamily(s.cidrs, V4) == [] && OfFamily(s.cidrs, V6) == [];
    hide SetExpr;
    forall fam: Family ensures OfFamily(s.cidrs, fam) == [] <==> forall c | c in s.cidrs :: !(c.Cidr? && c.fam == fam) {
      if OfFamily(s.cidrs, fam) != [] {
        assert OfFamily(s.cidrs, fam)[0] in OfFamily(s.cidrs, fam);
      }
    }
    assert forall c | c in s.cidrs :: c.Cidr? ==> c.fam == V4 || c.fam == V6;
    hide OfFamily;
  }

  lemma ByIdIs(sets: seq<RouteSet>, id: string)
    requires UniqueSetIds(sets)
    ensures (id in ById(sets) && ById(sets)[id].enabled && SetExpr(ById(sets)[id]) == []) <==>
            exists s | s in sets :: s.id == id && Hollow(s)
  {
    ByIdLookup(sets, id);
    hide ById;
    forall s: RouteSet ensures s.enabled && SetExpr(s) == [] <==> Hollow(s) {
      HollowIff(s);
    }
    hide Hollow;
    hide SetExpr;
  }

  lemma {:induction false} RefWarned(id: string, ids: seq<string>, sets: seq<RouteSet>, w: Warning)
    requires UniqueSetIds(sets)
    ensures w in SetRefWarnings(id, ids, ById(sets)) <==>
            w.EmptySet? && w.ruleId == id && w.setId in ids && exists s | s in sets :: s.id == w.setId && Hollow(s)
  {
    if ids != [] {
      var init, last := ids[..|ids| - 1], ids[|ids| - 1];
      assert ids == init + [last];
      RefWarned(id, init, sets, w);
      ByIdIs(sets, last);
      hide Hollow;
      hide SetExpr;
      hide ById;
    }
  }

  lemma AppsWarned(id: string, m: RuleMatch, w: Warning)
    ensures w in AppWarnings(id, m.applications) <==> w.UnmappedApplication? && w.ruleId == id && w.app in m.applications
    ensures w in ServiceWarnings(id, m.services) <==> w.UnmappedService? && w.ruleId == id && w.service in m.services
    ensures w in DomainWarnings(id, m) <==> w.DomainMatch? && w.ruleId == id && w.domain in m.domains
    ensures w in GeoWarnings(id, m) <==> w.GeoMatch? && w.ruleId == id && w.geo in m.geoIP
  {
    if w.UnmappedApplication? && w.ruleId == id && w.app in m.applications {
      var i :| 0 <= i < |m.applications| && m.applications[i] == w.app;
      assert AppWarnings(id, m.applications)[i] == w;
    }
    if w.UnmappedService? && w.ruleId == id && w.service in m.services {
      var i :| 0 <= i < |m.services| && m.services[i] == w.service;
      assert ServiceWarnings(id, m.services)[i] == w;
    }
    if w.DomainMatch? && w.ruleId == id && w.domain in m.domains {
      var i :| 0 <= i < |m.domains| && m.domains[i] == w.domain;
      assert DomainWarnings(id, m)[i] == w;
    }
    if w.GeoMatch? && w.ruleId == id && w.geo in m.geoIP {
      var i :| 0 <= i < |m.geoIP| && m.geoIP[i] == w.geo;
      assert GeoWarnings(id, m)[i] == w;
    }
  }

  lemma SkippedProtocols(m: RuleMatch, proto: Protocol)
    ensures proto in PortProtocols(m) && !CarriesPorts(proto) <==> proto in m.protocols && proto != Tcp && proto != Udp
  {
  }

  lemma RuleWarned(r: RouteRule, c: Config, w: Warning)
    requires UniqueSetIds(c.routing.sets)
    ensures w in RuleWarnings(r, c) <==> RuleDeserves(r, c.routing.sets, w)
  {
    var m, sets := r.match_, c.routing.sets;
    AppsWarned(r.id, m, w);
    PortWarned(r.id, m, PortProtocols(m), w);
    RefWarned(r.id, m.sets, sets, w);
    if w.PortsSkipped? {
      SkippedProtocols(m, w.proto);
    }
    hide PortWarningsOf;
    hide SetRefWarnings;
    hide AppWarnings;
    hide ServiceWarnings;
    hide DomainWarnings;
    hide GeoWarnings;
    hide PortProtocols;
    hide CarriesPorts;
    hide ById;
    hide Hollow;
  }

  // ----- the chains

  lemma {:induction false} ChainWarned(rules: seq<RouteRule>, filter: bool, c: Config, w: Warning)
    requires UniqueSetIds(c.routing.sets)
    ensures w in ChainWarnings(rules, filter, c) <==>
            exists r | r in rules :: r.enabled && IsFilterAction(r.action.kind) == filter && RuleDeserves(r, c.routing.sets, w)
  {
    if rules != [] {
      var init, last := rules[..|rules| - 1], rules[|rules| - 1];
      assert rules == init + [last];
      ChainWarned(init, filter, c, w);
      RuleWarned(last, c, w);
      hide RuleWarnings;
      hide RuleDeserves;
      hide UniqueSetIds;
      forall r ensures r in rules <==> r in init || r == last {}
    }
  }

  lemma OnlyRulesDeserve(r: RouteRule, sets: seq<RouteSet>, w: Warning)
    requires w.DynamicSet? || w.NetmapNat?
    ensures !RuleDeserves(r, sets, w)
  {
  }

  /** The generator warns exactly when something in the configuration deserves it. */
  lemma {:induction false} WarnedIff(c: Config, w: Warning)
    requires UniqueSetIds(c.routing.sets)
    ensures w in WarningsOf(c) <==> Deserves(c, w)
  {
    var rules, sorted := c.routing.rules, StableSort(c.routing.rules);
    SetWarned(c.routing.sets, w);
    PairWarned(c.security.oneToOne, w);
    ChainWarned(sorted, false, c, w);
    ChainWarned(sorted, true, c, w);
    SortedMembers(rules);
    forall r: RouteRule | w.DynamicSet? || w.NetmapNat? ensures !RuleDeserves(r, c.routing.sets, w) {
      OnlyRulesDeserve(r, c.routing.sets, w);
    }
    hide SetWarnings;
    hide PairWarnings;
    hide ChainWarnings;
    hide StableSort;
    hide RuleDeserves;
    hide UniqueSetIds;
    hide Wide;
  }
}
