/**
 From a rule's match fields to nft match parts. Each factor of a rule (CIDRs,
 route sets, ports) becomes a list of alternative match parts; the rule becomes
 their cartesian product behind a common base.
 */
module MatchCompiler {
  import opened Basics
  import opened Addresses
  import opened Config
  import opened Nft

  datatype Warning =
    | DynamicSet(setId: string)
    | EmptySet(ruleId: string, setId: string)
    | UnmappedApplication(ruleId: string, app: string)
    | UnmappedService(ruleId: string, service: string)
    | PortsSkipped(ruleId: string, proto: Protocol)
    | DomainMatch(ruleId: string, domain: string)
    | GeoMatch(ruleId: string, geo: string)
    | NetmapNat(natId: string)

  // ----- identifiers of named sets

  predicate IsWordChar(c: char) {
    IsAlnum(c) || c == '_'
  }

  function Sanitised(value: string): string {
    if value == "" then "" else
      Sanitised(value[..|value| - 1]) +
      [if IsWordChar(value[|value| - 1]) then value[|value| - 1] else '_']
  }

  /** An nft identifier for an arbitrary text; different texts can share one. */
  function Identifier(value: string): string {
    var out := Sanitised(value);
    if out == "" then "rs_empty"
    else if '0' <= out[0] <= '9' then "rs_" + out
    else out
  }

  function SetName(id: string, fam: Family): string {
    Identifier(id) + (if fam == V4 then "_v4" else "_v6")
  }

  lemma {:induction false} SanitisedWord(value: string)
    ensures |Sanitised(value)| == |value|
    ensures forall i :: 0 <= i < |value| ==> IsWordChar(Sanitised(value)[i])
    ensures forall i :: 0 <= i < |value| ==> Sanitised(value)[i] == if IsWordChar(value[i]) then value[i] else '_'
  {
    if value != "" {
      SanitisedWord(value[..|value| - 1]);
    }
  }

  /**
   Every produced name is an nft identifier: a word that does not start with a digit. Word characters
   are kept and all others become underscores, behind a prefix where the text starts with a digit.
   */
  lemma {:induction false} IdentifierIsNftWord(value: string)
    ensures Identifier(value) != "" && !('0' <= Identifier(value)[0] <= '9')
    ensures forall i :: 0 <= i < |Identifier(value)| ==> IsWordChar(Identifier(value)[i])
    ensures value == "" ==> Identifier(value) == "rs_empty"
    ensures value != "" ==>
              var prefix := if '0' <= value[0] <= '9' then "rs_" else "";
              && |Identifier(value)| == |prefix| + |value| && Identifier(value)[..|prefix|] == prefix
              && forall i :: 0 <= i < |value| ==>
                   Identifier(value)[|prefix| + i] == if IsWordChar(value[i]) then value[i] else '_'
  {
    SanitisedWord(value);
  }

  /** Set names of the two families never collide, and agree exactly when the identifiers do. */
  lemma {:induction false} SetNameInjective(a: string, fa: Family, b: string, fb: Family)
    ensures SetName(a, fa) == SetName(b, fb) <==> fa == fb && Identifier(a) == Identifier(b)
    ensures SetName(a, V4) == Identifier(a) + "_v4" && SetName(a, V6) == Identifier(a) + "_v6"
  {
    var x, y := SetName(a, fa), SetName(b, fb);
    if x == y {
      assert x[|x| - 1] == (if fa == V4 then '4' else '6');
      assert y[|y| - 1] == (if fb == V4 then '4' else '6');
      assert x[..|x| - 3] == Identifier(a);
      assert y[..|y| - 3] == Identifier(b);
    }
  }

  // ----- declared sets

  function SetDecls(s: RouteSet): seq<SetDecl> {
    if !s.enabled then [] else
      (if OfFamily(s.cidrs, V4) != [] then [SetDecl(SetName(s.id, V4), OfFamily(s.cidrs, V4))] else []) +
      (if OfFamily(s.cidrs, V6) != [] then [SetDecl(SetName(s.id, V6), OfFamily(s.cidrs, V6))] else [])
  }

  function AllSetDecls(sets: seq<RouteSet>): seq<SetDecl> {
    if sets == [] then [] else AllSetDecls(sets[..|sets| - 1]) + SetDecls(sets[|sets| - 1])
  }

  function SetWarnings(sets: seq<RouteSet>): seq<Warning> {
    if sets == [] then [] else
      var s := sets[|sets| - 1];
      SetWarnings(sets[..|sets| - 1]) +
      (if s.enabled && (s.sourceURLs != [] || s.countries != [] || s.domains != [])
       then [DynamicSet(s.id)] else [])
  }

  /** The named sets a configuration's table declares. */
  function TableSets(sets: seq<RouteSet>): SetEnv {
    DeclareAll(AllSetDecls(sets))
  }

  // ----- factors of a rule

  function Base(m: RuleMatch): seq<Atom> {
    (if m.inputIface != "" then [IifName(m.inputIface)] else []) +
    (if m.outputIface != "" then [OifName(m.outputIface)] else []) +
    (if m.protocols != [] then [L4Proto(m.protocols)] else [])
  }

  predicate HasPorts(m: RuleMatch) {
    m.sourcePorts != [] || m.destinationPorts != []
  }

  predicate CarriesPorts(proto: Protocol) {
    proto == Tcp || proto == Udp
  }

  function PortExpr(m: RuleMatch, proto: Protocol): seq<Atom> {
    (if m.sourcePorts != [] then [SPort(proto, m.sourcePorts)] else []) +
    (if m.destinationPorts != [] then [DPort(proto, m.destinationPorts)] else [])
  }

  function PortExprsOf(m: RuleMatch, protos: seq<Protocol>): seq<seq<Atom>> {
    if protos == [] then [] else
      var proto := protos[|protos| - 1];
      PortExprsOf(m, protos[..|protos| - 1]) +
      (if CarriesPorts(proto) && PortExpr(m, proto) != [] then [PortExpr(m, proto)] else [])
  }

  function PortProtocols(m: RuleMatch): seq<Protocol> {
    if m.protocols == [] then [Tcp, Udp] else m.protocols
  }

  function PortExprs(m: RuleMatch): seq<seq<Atom>> {
    PortExprsOf(m, PortProtocols(m))
  }

  function PortWarningsOf(ruleId: string, m: RuleMatch, protos: seq<Protocol>): seq<Warning> {
    if protos == [] then [] else
      var proto := protos[|protos| - 1];
      PortWarningsOf(ruleId, m, protos[..|protos| - 1]) +
      (if !CarriesPorts(proto) && HasPorts(m) then [PortsSkipped(ruleId, proto)] else [])
  }

  function OneFamily(src: seq<Cidr>, dst: seq<Cidr>, fam: Family): seq<seq<Atom>> {
    if src == [] && dst == [] then [] else
      [(if src != [] then [SAddr(fam, src)] else []) + (if dst != [] then [DAddr(fam, dst)] else [])]
  }

  function CombineCIDRs(src4: seq<Cidr>, src6: seq<Cidr>, dst4: seq<Cidr>, dst6: seq<Cidr>): seq<seq<Atom>> {
    OneFamily(src4, dst4, V4) + OneFamily(src6, dst6, V6)
  }

  function CidrExprs(m: RuleMatch): seq<seq<Atom>> {
    CombineCIDRs(OfFamily(m.sourceCIDRs, V4), OfFamily(m.sourceCIDRs, V6),
                 OfFamily(m.destinationCIDRs, V4), OfFamily(m.destinationCIDRs, V6))
  }

  function ById(sets: seq<RouteSet>): map<string, RouteSet> {
    if sets == [] then map[] else
      ById(sets[..|sets| - 1])[sets[|sets| - 1].id := sets[|sets| - 1]]
  }

  function SetExpr(s: RouteSet): seq<seq<Atom>> {
    (if OfFamily(s.cidrs, V4) != [] then [[DAddrNamed(V4, SetName(s.id, V4))]] else []) +
    (if OfFamily(s.cidrs, V6) != [] then [[DAddrNamed(V6, SetName(s.id, V6))]] else [])
  }

  function SetExprs(ids: seq<string>, byId: map<string, RouteSet>): seq<seq<Atom>> {
    if ids == [] then [] else
      var id := ids[|ids| - 1];
      SetExprs(ids[..|ids| - 1], byId) +
      (if id in byId && byId[id].enabled then SetExpr(byId[id]) else [])
  }

  function SetRefWarnings(ruleId: string, ids: seq<string>, byId: map<string, RouteSet>): seq<Warning> {
    if ids == [] then [] else
      var id := ids[|ids| - 1];
      SetRefWarnings(ruleId, ids[..|ids| - 1], byId) +
      (if id in byId && byId[id].enabled && SetExpr(byId[id]) == [] then [EmptySet(ruleId, id)] else [])
  }

  function AppWarnings(ruleId: string, apps: seq<string>): seq<Warning> {
    seq(|apps|, i requires 0 <= i < |apps| => UnmappedApplication(ruleId, apps[i]))
  }

  function ServiceWarnings(ruleId: string, services: seq<string>): seq<Warning> {
    seq(|services|, i requires 0 <= i < |services| => UnmappedService(ruleId, services[i]))
  }

  /** The warnings one rule's match compilation adds, in order. */
  function MatchWarnings(ruleId: string, m: RuleMatch, sets: seq<RouteSet>): seq<Warning> {
    PortWarningsOf(ruleId, m, PortProtocols(m)) +
    SetRefWarnings(ruleId, m.sets, ById(sets)) +
    AppWarnings(ruleId, m.applications) + ServiceWarnings(ruleId, m.services)
  }

  // ----- the product

  function OrBlank(exprs: seq<seq<Atom>>): seq<seq<Atom>> {
    if exprs == [] then [[]] else exprs
  }

  function Row(prefix: seq<Atom>, ps: seq<seq<Atom>>): seq<seq<Atom>> {
    if ps == [] then [] else Row(prefix, ps[..|ps| - 1]) + [prefix + ps[|ps| - 1]]
  }

  function Grid(prefix: seq<Atom>, ss: seq<seq<Atom>>, ps: seq<seq<Atom>>): seq<seq<Atom>> {
    if ss == [] then [] else Grid(prefix, ss[..|ss| - 1], ps) + Row(prefix + ss[|ss| - 1], ps)
  }

  function Cube(prefix: seq<Atom>, cs: seq<seq<Atom>>, ss: seq<seq<Atom>>, ps: seq<seq<Atom>>): seq<seq<Atom>> {
    if cs == [] then [] else Cube(prefix, cs[..|cs| - 1], ss, ps) + Grid(prefix + cs[|cs| - 1], ss, ps)
  }

  /** The match parts a rule compiles to. */
  function MatchExprs(m: RuleMatch, sets: seq<RouteSet>): seq<seq<Atom>> {
    Cube(Base(m), OrBlank(CidrExprs(m)), OrBlank(SetExprs(m.sets, ById(sets))), OrBlank(PortExprs(m)))
  }
}
