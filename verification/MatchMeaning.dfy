/**
 What the compiled match parts of a rule accept, against a reference meaning of
 the rule that never mentions lines, families or named sets.
 */
module MatchMeaning {
  import opened Addresses
  import opened Config
  import opened Coverage
  import opened Nft
  import opened MatchCompiler

  // ----- reference meaning

  predicate IntendedIfaces(m: RuleMatch, p: Packet) {
    && (m.inputIface == "" || p.iif == m.inputIface)
    && (m.outputIface == "" || p.oif == m.outputIface)
    && (m.protocols == [] || p.proto in m.protocols)
  }

  /** Ports restrict a rule to the protocols that have them. */
  predicate IntendedPorts(m: RuleMatch, p: Packet) {
    m.sourcePorts != [] || m.destinationPorts != [] ==>
      && (p.proto == Tcp || p.proto == Udp)
      && (m.sourcePorts == [] || InPorts(m.sourcePorts, p.sport))
      && (m.destinationPorts == [] || InPorts(m.destinationPorts, p.dport))
  }

  predicate IntendedCidrs(m: RuleMatch, p: Packet) {
    && (m.sourceCIDRs == [] || InSome(m.sourceCIDRs, p.fam, p.src))
    && (m.destinationCIDRs == [] || InSome(m.destinationCIDRs, p.fam, p.dst))
  }

  /** A referenced set that contributes addresses. */
  predicate Refers(m: RuleMatch, s: RouteSet) {
    s.id in m.sets && s.enabled
  }

  predicate IntendedSets(m: RuleMatch, sets: seq<RouteSet>, p: Packet) {
    m.sets != [] ==> exists s | s in sets :: Refers(m, s) && InSome(s.cidrs, p.fam, p.dst)
  }

  /** The packet meets the match fields that compilation reads. */
  predicate FieldsMatch(m: RuleMatch, sets: seq<RouteSet>, p: Packet) {
    && IntendedIfaces(m, p)
    && IntendedPorts(m, p)
    && IntendedCidrs(m, p)
    && IntendedSets(m, sets, p)
  }

  /** The match fields that compilation never reads. */
  datatype Tags = Tags(
    tunnelIDs: seq<string>, domains: seq<string>, geoIP: seq<string>, applications: seq<string>, services: seq<string>)

  const NO_TAGS := Tags([], [], [], [], [])

  function TagsOf(m: RuleMatch): Tags {
    Tags(m.tunnelIDs, m.domains, m.geoIP, m.applications, m.services)
  }

  /** What those fields are taken to say about a packet. */
  type Reading = (Tags, Packet) -> bool

  /** Empty fields say nothing. */
  ghost predicate Neutral(reading: Reading) {
    forall p :: reading(NO_TAGS, p)
  }

  /** The packets a rule is written for, under a reading of the fields that are not compiled. */
  predicate Intended(m: RuleMatch, sets: seq<RouteSet>, p: Packet, reading: Reading) {
    FieldsMatch(m, sets, p) && reading(TagsOf(m), p)
  }

  /** The packets the compiled lines match, in the table that declares the same sets. */
  predicate Compiled(m: RuleMatch, sets: seq<RouteSet>, p: Packet) {
    Any(MatchExprs(m, sets), p, TableSets(sets))
  }

  // ----- the product is a conjunction of disjunctions

  lemma AnyAppend(xs: seq<seq<Atom>>, ys: seq<seq<Atom>>, p: Packet, env: SetEnv)
    ensures Any(xs + ys, p, env) <==> Any(xs, p, env) || Any(ys, p, env)
  {
    forall e ensures e in xs + ys <==> e in xs || e in ys {}
  }

  lemma AnyOne(e: seq<Atom>, p: Packet, env: SetEnv)
    ensures Any([e], p, env) <==> All(e, p, env)
  {
    assert e in [e];
  }

  lemma SplitLast(xs: seq<seq<Atom>>, p: Packet, env: SetEnv)
    requires xs != []
    ensures Any(xs, p, env) <==> Any(xs[..|xs| - 1], p, env) || All(xs[|xs| - 1], p, env)
  {
    assert xs == xs[..|xs| - 1] + [xs[|xs| - 1]];
    AnyAppend(xs[..|xs| - 1], [xs[|xs| - 1]], p, env);
    AnyOne(xs[|xs| - 1], p, env);
  }

  lemma {:induction false} RowMeaning(prefix: seq<Atom>, ps: seq<seq<Atom>>, p: Packet, env: SetEnv)
    ensures |Row(prefix, ps)| == |ps|
    ensures Any(Row(prefix, ps), p, env) <==> All(prefix, p, env) && Any(ps, p, env)
  {
    if ps != [] {
      var last := ps[|ps| - 1];
      RowMeaning(prefix, ps[..|ps| - 1], p, env);
      AnyAppend(Row(prefix, ps[..|ps| - 1]), [prefix + last], p, env);
      AnyOne(prefix + last, p, env);
      AllConcat(prefix, last, p, env);
      SplitLast(ps, p, env);
    }
  }

  lemma {:induction false} GridMeaning(prefix: seq<Atom>, ss: seq<seq<Atom>>, ps: seq<seq<Atom>>, p: Packet, env: SetEnv)
    ensures |Grid(prefix, ss, ps)| == |ss| * |ps|
    ensures Any(Grid(prefix, ss, ps), p, env) <==>
            All(prefix, p, env) && Any(ss, p, env) && Any(ps, p, env)
  {
    if ss != [] {
      var last := ss[|ss| - 1];
      GridMeaning(prefix, ss[..|ss| - 1], ps, p, env);
      RowMeaning(prefix + last, ps, p, env);
      AnyAppend(Grid(prefix, ss[..|ss| - 1], ps), Row(prefix + last, ps), p, env);
      AllConcat(prefix, last, p, env);
      SplitLast(ss, p, env);
      assert |ss| * |ps| == (|ss| - 1) * |ps| + |ps|;
    }
  }

  lemma {:induction false} CubeMeaning(
    prefix: seq<Atom>, cs: seq<seq<Atom>>, ss: seq<seq<Atom>>, ps: seq<seq<Atom>>, p: Packet, env: SetEnv)
    ensures |Cube(prefix, cs, ss, ps)| == |cs| * (|ss| * |ps|)
    ensures Any(Cube(prefix, cs, ss, ps), p, env) <==>
            All(prefix, p, env) && Any(cs, p, env) && Any(ss, p, env) && Any(ps, p, env)
  {
    if cs != [] {
      var last := cs[|cs| - 1];
      CubeMeaning(prefix, cs[..|cs| - 1], ss, ps, p, env);
      GridMeaning(prefix + last, ss, ps, p, env);
      AnyAppend(Cube(prefix, cs[..|cs| - 1], ss, ps), Grid(prefix + last, ss, ps), p, env);
      AllConcat(prefix, last, p, env);
      SplitLast(cs, p, env);
      assert |cs| * (|ss| * |ps|) == (|cs| - 1) * (|ss| * |ps|) + |ss| * |ps|;
    }
  }

  // ----- the three factors, one by one

  /** Ports disappear when the rule names protocols and none of them has ports. */
  predicate PortsDropped(m: RuleMatch) {
    && (m.sourcePorts != [] || m.destinationPorts != [])
    && m.protocols != [] && forall proto | proto in m.protocols :: proto != Tcp && proto != Udp
  }

  lemma {:induction false} PortExprsMembers(m: RuleMatch, protos: seq<Protocol>, e: seq<Atom>)
    ensures e in PortExprsOf(m, protos) <==>
            exists proto | proto in protos :: CarriesPorts(proto) && HasPorts(m) && e == PortExpr(m, proto)
  {
    if protos != [] {
      var init, last := protos[..|protos| - 1], protos[|protos| - 1];
      PortExprsMembers(m, init, e);
      assert protos == init + [last];
      assert PortExpr(m, last) != [] <==> HasPorts(m);
      forall proto ensures proto in protos <==> proto in init || proto == last {}
    }
  }

  lemma PortExprMeaning(m: RuleMatch, proto: Protocol, p: Packet, env: SetEnv)
    requires HasPorts(m)
    ensures All(PortExpr(m, proto), p, env) <==>
            && p.proto == proto
            && (m.sourcePorts != [] ==> InPorts(m.sourcePorts, p.sport))
            && (m.destinationPorts != [] ==> InPorts(m.destinationPorts, p.dport))
  {
    var e := PortExpr(m, proto);
    if m.sourcePorts != [] {
      assert SPort(proto, m.sourcePorts) in e;
    }
    if m.destinationPorts != [] {
      assert DPort(proto, m.destinationPorts) in e;
    }
  }

  lemma {:induction false} PortFactor(m: RuleMatch, p: Packet, env: SetEnv)
    requires IntendedIfaces(m, p)
    ensures Any(OrBlank(PortExprs(m)), p, env) <==> IntendedPorts(m, p) || PortsDropped(m)
  {
    var exprs := PortExprs(m);
    var protos := PortProtocols(m);
    forall e ensures e in exprs <==>
                     exists proto | proto in protos :: CarriesPorts(proto) && HasPorts(m) && e == PortExpr(m, proto)
    {
      PortExprsMembers(m, protos, e);
    }
    if exprs == [] {
      AnyOne([], p, env);
      if HasPorts(m) {
        forall proto | proto in protos ensures !CarriesPorts(proto) {
          assert CarriesPorts(proto) ==> PortExpr(m, proto) in exprs;
        }
        assert m.protocols == [] ==> Tcp in protos;
      }
    } else {
      assert exprs[0] in exprs;
      if e :| e in exprs && All(e, p, env) {
        var proto :| proto in protos && CarriesPorts(proto) && e == PortExpr(m, proto);
        PortExprMeaning(m, proto, p, env);
      }
      if IntendedPorts(m, p) {
        assert p.proto in protos;
        PortExprMeaning(m, p.proto, p, env);
        assert PortExpr(m, p.proto) in exprs;
      }
    }
  }

  /** What the CIDR alternatives accept: per family, an absent side is no constraint. */
  predicate CompiledCidrs(m: RuleMatch, p: Packet) {
    var src, dst := OfFamily(m.sourceCIDRs, p.fam), OfFamily(m.destinationCIDRs, p.fam);
    || CidrExprs(m) == []
    || ((src != [] || dst != []) &&
        (src != [] ==> InSome(m.sourceCIDRs, p.fam, p.src)) &&
        (dst != [] ==> InSome(m.destinationCIDRs, p.fam, p.dst)))
  }

  lemma OneFamilyMeaning(src: seq<Cidr>, dst: seq<Cidr>, fam: Family, p: Packet, env: SetEnv)
    ensures Any(OneFamily(src, dst, fam), p, env) <==>
            && (src != [] || dst != [])
            && p.fam == fam
            && (src != [] ==> InSome(src, fam, p.src))
            && (dst != [] ==> InSome(dst, fam, p.dst))
  {
    if src != [] || dst != [] {
      var e := OneFamily(src, dst, fam)[0];
      assert OneFamily(src, dst, fam) == [e];
      AnyOne(e, p, env);
      if src != [] { assert SAddr(fam, src) in e; }
      if dst != [] { assert DAddr(fam, dst) in e; }
    }
  }

  lemma {:induction false} CidrFactor(m: RuleMatch, p: Packet, env: SetEnv)
    ensures Any(OrBlank(CidrExprs(m)), p, env) <==> CompiledCidrs(m, p)
  {
    var s4, s6 := OfFamily(m.sourceCIDRs, V4), OfFamily(m.sourceCIDRs, V6);
    var d4, d6 := OfFamily(m.destinationCIDRs, V4), OfFamily(m.destinationCIDRs, V6);
    AnyOne([], p, env);
    AnyAppend(OneFamily(s4, d4, V4), OneFamily(s6, d6, V6), p, env);
    OneFamilyMeaning(s4, d4, V4, p, env);
    OneFamilyMeaning(s6, d6, V6, p, env);
    InSomeOfFamily(m.sourceCIDRs, p.fam, p.src);
    InSomeOfFamily(m.destinationCIDRs, p.fam, p.dst);
  }

  predicate UniqueSetIds(sets: seq<RouteSet>) {
    forall i, j :: 0 <= i < j < |sets| ==> sets[i].id != sets[j].id
  }

  lemma {:induction false} ByIdLookup(sets: seq<RouteSet>, id: string)
    requires UniqueSetIds(sets)
    ensures id in ById(sets) <==> exists s | s in sets :: s.id == id
    ensures id in ById(sets) ==> ById(sets)[id] in sets && ById(sets)[id].id == id
    ensures forall s | s in sets && s.id == id :: ById(sets)[id] == s
  {
    if sets != [] {
      var init, last := sets[..|sets| - 1], sets[|sets| - 1];
      ByIdLookup(init, id);
      assert sets == init + [last];
      forall s ensures s in sets <==> s in init || s == last {}
      forall s | s in init ensures s.id != last.id {}
    }
  }

  /** The route set contributes CIDRs of the family to rules naming one of the IDs. */
  predicate Contributes(s: RouteSet, fam: Family, ids: seq<string>) {
    s.id in ids && s.enabled && OfFamily(s.cidrs, fam) != []
  }

  function RefExpr(s: RouteSet, fam: Family): seq<Atom> {
    [DAddrNamed(fam, SetName(s.id, fam))]
  }

  /** Every alternative of the route-set factor stems from one family of an enabled referenced set. */
  lemma {:induction false} SetExprOrigin(ids: seq<string>, sets: seq<RouteSet>, e: seq<Atom>)
    returns (s: RouteSet, fam: Family)
    requires UniqueSetIds(sets) && e in SetExprs(ids, ById(sets))
    ensures s in sets && Contributes(s, fam, ids) && e == RefExpr(s, fam)
  {
    hide OfFamily;
    hide SetName;
    var init, last := ids[..|ids| - 1], ids[|ids| - 1];
    assert ids == init + [last];
    if e in SetExprs(init, ById(sets)) {
      s, fam := SetExprOrigin(init, sets, e);
    } else {
      ByIdLookup(sets, last);
      s := ById(sets)[last];
      fam := if OfFamily(s.cidrs, V4) != [] && e == RefExpr(s, V4) then V4 else V6;
    }
  }

  /** And each such family has its alternative. */
  lemma {:induction false} SetExprPresent(ids: seq<string>, sets: seq<RouteSet>, s: RouteSet, fam: Family)
    requires UniqueSetIds(sets) && s in sets && Contributes(s, fam, ids)
    ensures RefExpr(s, fam) in SetExprs(ids, ById(sets))
  {
    hide SetName;
    var init, last := ids[..|ids| - 1], ids[|ids| - 1];
    assert ids == init + [last];
    if s.id in init {
      SetExprPresent(init, sets, s, fam);
    } else {
      ByIdLookup(sets, last);
      assert RefExpr(s, fam) in SetExpr(s);
    }
  }

  // ----- what the table's named sets hold

  function DeclOf(s: RouteSet, fam: Family): SetDecl {
    SetDecl(SetName(s.id, fam), OfFamily(s.cidrs, fam))
  }

  /** Every declaration stems from one family of an enabled set. */
  lemma {:induction false} DeclOrigin(sets: seq<RouteSet>, d: SetDecl) returns (s: RouteSet, fam: Family)
    requires d in AllSetDecls(sets)
    ensures s in sets && s.enabled && OfFamily(s.cidrs, fam) != [] && d == DeclOf(s, fam)
  {
    hide SetName;
    hide OfFamily;
    var init, last := sets[..|sets| - 1], sets[|sets| - 1];
    assert sets == init + [last];
    if d in AllSetDecls(init) {
      s, fam := DeclOrigin(init, d);
    } else {
      s := last;
      fam := if OfFamily(s.cidrs, V4) != [] && d == DeclOf(s, V4) then V4 else V6;
    }
  }

  lemma {:induction false} DeclPresent(sets: seq<RouteSet>, s: RouteSet, fam: Family)
    requires s in sets && s.enabled && OfFamily(s.cidrs, fam) != []
    ensures DeclOf(s, fam) in AllSetDecls(sets)
  {
    hide SetName;
    var init, last := sets[..|sets| - 1], sets[|sets| - 1];
    assert sets == init + [last];
    if s in init {
      DeclPresent(init, s, fam);
    } else {
      assert DeclOf(s, fam) in SetDecls(s);
    }
  }

  /** The enabled set shares an identifier with the ID and has CIDRs of the family. */
  predicate Shares(s: RouteSet, id: string, fam: Family) {
    s.enabled && Identifier(s.id) == Identifier(id) && OfFamily(s.cidrs, fam) != []
  }

  /** A name is declared exactly when some enabled set with that identifier has CIDRs of the family. */
  lemma {:induction false} DeclaredNames(sets: seq<RouteSet>, id: string, fam: Family)
    ensures SetName(id, fam) in TableSets(sets) <==> exists s | s in sets :: Shares(s, id, fam)
  {
    hide SetName;
    hide Identifier;
    var decls := AllSetDecls(sets);
    DeclaredElements(decls, SetName(id, fam));
    if d :| d in decls && d.name == SetName(id, fam) {
      var s, f := DeclOrigin(sets, d);
      SetNameInjective(s.id, f, id, fam);
      assert Shares(s, id, fam);
    }
    if s :| s in sets && Shares(s, id, fam) {
      DeclPresent(sets, s, fam);
      SetNameInjective(s.id, fam, id, fam);
      assert DeclOf(s, fam) in decls && DeclOf(s, fam).name == SetName(id, fam);
    }
  }

  /** The contents of a named set: the CIDRs of every enabled set whose identifier it shares. */
  lemma {:induction false} NamedSetContents(sets: seq<RouteSet>, id: string, fam: Family, c: Cidr)
    ensures c in Elements(TableSets(sets), SetName(id, fam)) <==>
            exists s | s in sets :: Shares(s, id, fam) && c in OfFamily(s.cidrs, fam)
  {
    hide SetName;
    hide Identifier;
    var decls, name := AllSetDecls(sets), SetName(id, fam);
    DeclaredElements(decls, name);
    if d :| d in decls && d.name == name && c in d.elements {
      var s, f := DeclOrigin(sets, d);
      SetNameInjective(s.id, f, id, fam);
      assert Shares(s, id, fam);
    }
    if s :| s in sets && Shares(s, id, fam) && c in OfFamily(s.cidrs, fam) {
      DeclPresent(sets, s, fam);
      SetNameInjective(s.id, fam, id, fam);
      var d := DeclOf(s, fam);
      assert d in decls && d.name == name && c in d.elements;
    }
  }

  predicate DistinctNames(sets: seq<RouteSet>) {
    forall s, t | s in sets && t in sets ::
      s.enabled && t.enabled && Identifier(s.id) == Identifier(t.id) ==> s == t
  }

  /** No reference dangles, and with distinct identifiers it denotes the set the rule named. */
  lemma ReferencesResolve(m: RuleMatch, sets: seq<RouteSet>, e: seq<Atom>) returns (s: RouteSet, fam: Family)
    requires UniqueSetIds(sets)
    requires e in SetExprs(m.sets, ById(sets))
    ensures s in sets && s.id in m.sets && s.enabled
    ensures e == [DAddrNamed(fam, SetName(s.id, fam))] && SetName(s.id, fam) in TableSets(sets)
    ensures DistinctNames(sets) ==>
              forall c :: c in Elements(TableSets(sets), SetName(s.id, fam)) <==> c in OfFamily(s.cidrs, fam)
  {
    hide SetName;
    hide Identifier;
    hide TableSets;
    s, fam := SetExprOrigin(m.sets, sets, e);
    assert Shares(s, s.id, fam);
    DeclaredNames(sets, s.id, fam);
    if DistinctNames(sets) {
      forall c ensures c in Elements(TableSets(sets), SetName(s.id, fam)) <==> c in OfFamily(s.cidrs, fam) {
        NamedSetContents(sets, s.id, fam, c);
      }
    }
  }

  /** A set's name denotes its own CIDRs if and only if every set sharing the name adds none. */
  lemma {:induction false} NameDenotesSetIff(sets: seq<RouteSet>, s: RouteSet, fam: Family)
    requires s in sets && s.enabled
    ensures (forall c :: c in Elements(TableSets(sets), SetName(s.id, fam)) <==> c in OfFamily(s.cidrs, fam)) <==>
            (forall t, c | t in sets && c in OfFamily(t.cidrs, fam) ::
               Shares(t, s.id, fam) ==> c in OfFamily(s.cidrs, fam))
  {
    hide SetName;
    hide Identifier;
    hide TableSets;
    var elems := Elements(TableSets(sets), SetName(s.id, fam));
    forall c
      ensures c in elems <==> exists t | t in sets :: Shares(t, s.id, fam) && c in OfFamily(t.cidrs, fam)
    {
      NamedSetContents(sets, s.id, fam, c);
    }
  }

  // ----- the route-set factor

  /** Some enabled referenced set has CIDRs; without one, the factor vanishes. */
  predicate SomeLiveSet(m: RuleMatch, sets: seq<RouteSet>) {
    exists s, fam | s in sets && fam in {V4, V6} :: Contributes(s, fam, m.sets)
  }

  /** The address is in some enabled set sharing the ID's identifier. */
  predicate NameAdmits(sets: seq<RouteSet>, id: string, fam: Family, a: nat) {
    exists t | t in sets :: Shares(t, id, fam) && InSome(t.cidrs, fam, a)
  }

  /** Addresses the factor admits: those of any enabled set sharing a live reference's identifier. */
  predicate CompiledSets(m: RuleMatch, sets: seq<RouteSet>, p: Packet) {
    SomeLiveSet(m, sets) ==>
      exists s | s in sets :: Contributes(s, p.fam, m.sets) && NameAdmits(sets, s.id, p.fam, p.dst)
  }

  lemma NamedSetAdmits(sets: seq<RouteSet>, id: string, fam: Family, a: nat)
    ensures InSome(Elements(TableSets(sets), SetName(id, fam)), fam, a) <==> NameAdmits(sets, id, fam, a)
  {
    hide Contains;
    hide TableSets;
    hide Identifier;
    hide SetName;
    var elems := Elements(TableSets(sets), SetName(id, fam));
    if c :| c in elems && Contains(c, fam, a) {
      NamedSetContents(sets, id, fam, c);
      var t :| t in sets && Shares(t, id, fam) && c in OfFamily(t.cidrs, fam);
      assert c in t.cidrs;
    }
    if t :| t in sets && Shares(t, id, fam) && InSome(t.cidrs, fam, a) {
      InSomeOfFamily(t.cidrs, fam, a);
      var c :| c in OfFamily(t.cidrs, fam) && Contains(c, fam, a);
      NamedSetContents(sets, id, fam, c);
    }
  }

  lemma NamedAtomMeaning(sets: seq<RouteSet>, s: RouteSet, fam: Family, p: Packet)
    ensures All(RefExpr(s, fam), p, TableSets(sets)) <==> p.fam == fam && NameAdmits(sets, s.id, fam, p.dst)
  {
    hide InSome;
    hide TableSets;
    hide SetName;
    hide NameAdmits;
    var atom := DAddrNamed(fam, SetName(s.id, fam));
    assert atom in RefExpr(s, fam);
    NamedSetAdmits(sets, s.id, fam, p.dst);
  }

  lemma NoSetExprs(m: RuleMatch, sets: seq<RouteSet>)
    requires UniqueSetIds(sets)
    ensures SetExprs(m.sets, ById(sets)) == [] <==> !SomeLiveSet(m, sets)
  {
    hide ById;
    var exprs := SetExprs(m.sets, ById(sets));
    if s, fam :| s in sets && fam in {V4, V6} && Contributes(s, fam, m.sets) {
      SetExprPresent(m.sets, sets, s, fam);
    }
    if exprs != [] {
      var s, fam := SetExprOrigin(m.sets, sets, exprs[0]);
      assert fam in {V4, V6} && Contributes(s, fam, m.sets);
    }
  }

  lemma SetFactorSound(m: RuleMatch, sets: seq<RouteSet>, e: seq<Atom>, p: Packet)
    requires UniqueSetIds(sets)
    requires e in SetExprs(m.sets, ById(sets)) && All(e, p, TableSets(sets))
    ensures CompiledSets(m, sets, p)
  {
    hide NameAdmits;
    hide ById;
    var s, fam := SetExprOrigin(m.sets, sets, e);
    NamedAtomMeaning(sets, s, fam, p);
  }

  lemma SetFactorComplete(m: RuleMatch, sets: seq<RouteSet>, p: Packet)
    requires UniqueSetIds(sets)
    requires SomeLiveSet(m, sets) && CompiledSets(m, sets, p)
    ensures Any(SetExprs(m.sets, ById(sets)), p, TableSets(sets))
  {
    hide NameAdmits;
    hide ById;
    hide TableSets;
    var s :| s in sets && Contributes(s, p.fam, m.sets) && NameAdmits(sets, s.id, p.fam, p.dst);
    NamedAtomMeaning(sets, s, p.fam, p);
    SetExprPresent(m.sets, sets, s, p.fam);
    assert RefExpr(s, p.fam) in SetExprs(m.sets, ById(sets));
  }

  lemma {:induction false} SetFactor(m: RuleMatch, sets: seq<RouteSet>, p: Packet)
    requires UniqueSetIds(sets)
    ensures Any(OrBlank(SetExprs(m.sets, ById(sets))), p, TableSets(sets)) <==> CompiledSets(m, sets, p)
  {
    var exprs, env := SetExprs(m.sets, ById(sets)), TableSets(sets);
    AnyOne([], p, env);
    NoSetExprs(m, sets);
    if exprs != [] {
      if e :| e in exprs && All(e, p, env) {
        SetFactorSound(m, sets, e, p);
      }
      if CompiledSets(m, sets, p) {
        SetFactorComplete(m, sets, p);
      }
    }
  }

  // ----- the compiled rule

  lemma BaseMeaning(m: RuleMatch, p: Packet, env: SetEnv)
    ensures All(Base(m), p, env) <==> IntendedIfaces(m, p)
  {
    var b := Base(m);
    if m.inputIface != "" { assert IifName(m.inputIface) in b; }
    if m.outputIface != "" { assert OifName(m.outputIface) in b; }
    if m.protocols != [] { assert L4Proto(m.protocols) in b; }
  }

  /** Exactly which packets the lines of a rule match, with no side condition but unique set IDs. */
  lemma {:induction false} CompiledMeaning(m: RuleMatch, sets: seq<RouteSet>, p: Packet)
    requires UniqueSetIds(sets)
    ensures Compiled(m, sets, p) <==>
            && IntendedIfaces(m, p)
            && (IntendedPorts(m, p) || PortsDropped(m))
            && CompiledCidrs(m, p)
            && CompiledSets(m, sets, p)
  {
    var env := TableSets(sets);
    CubeMeaning(Base(m), OrBlank(CidrExprs(m)), OrBlank(SetExprs(m.sets, ById(sets))), OrBlank(PortExprs(m)), p, env);
    BaseMeaning(m, p, env);
    CidrFactor(m, p, env);
    SetFactor(m, sets, p);
    if IntendedIfaces(m, p) {
      PortFactor(m, p, env);
    }
  }

  predicate ParsedMatch(m: RuleMatch, sets: seq<RouteSet>) {
    AllParsed(m.sourceCIDRs) && AllParsed(m.destinationCIDRs) && forall s | s in sets :: AllParsed(s.cidrs)
  }

  lemma ParsedSplit(cs: seq<Cidr>)
    requires AllParsed(cs)
    ensures cs == [] <==> OfFamily(cs, V4) == [] && OfFamily(cs, V6) == []
  {
    if cs != [] {
      assert cs[0] in OfFamily(cs, cs[0].fam);
    } 
  }

  /** Whatever the uncompiled fields mean, compilation never loses a packet the rule was written for. */
  lemma {:induction false} CompilationLosesNothing(m: RuleMatch, sets: seq<RouteSet>, p: Packet, reading: Reading)
    requires UniqueSetIds(sets) && ParsedMatch(m, sets)
    requires Intended(m, sets, p, reading)
    ensures Compiled(m, sets, p)
  {
    CompiledMeaning(m, sets, p);
    ParsedSplit(m.sourceCIDRs);
    ParsedSplit(m.destinationCIDRs);
    InSomeOfFamily(m.sourceCIDRs, p.fam, p.src);
    InSomeOfFamily(m.destinationCIDRs, p.fam, p.dst);
    if SomeLiveSet(m, sets) {
      var s :| s in sets && Refers(m, s) && InSome(s.cidrs, p.fam, p.dst);
      InSomeOfFamily(s.cidrs, p.fam, p.dst);
      assert Contributes(s, p.fam, m.sets) && Shares(s, s.id, p.fam);
    }
  }

  lemma MulAssocPos(a: nat, b: nat, c: nat)
    requires a > 0 && b > 0 && c > 0
    ensures a * (b * c) == a * b * c >= 1
  {
    assert b * c >= 1;
    assert a * (b * c) >= 1;
  }

  /** The number of lines is the product of the three factors, and never zero. */
  lemma {:induction false} LineCount(m: RuleMatch, sets: seq<RouteSet>)
    ensures var cs, ss, ps := OrBlank(CidrExprs(m)), OrBlank(SetExprs(m.sets, ById(sets))), OrBlank(PortExprs(m));
            |MatchExprs(m, sets)| == |cs| * |ss| * |ps| >= 1
  {
    var cs, ss, ps := OrBlank(CidrExprs(m)), OrBlank(SetExprs(m.sets, ById(sets))), OrBlank(PortExprs(m));
    var p := Packet("", "", V4, 0, 0, Tcp, 0, 0, New, 0);
    CubeMeaning(Base(m), cs, ss, ps, p, map[]);
    MulAssocPos(|cs|, |ss|, |ps|);
  }

  // ----- when compilation is exact

  predicate ValidPorts(m: RuleMatch) {
    forall r | r in m.sourcePorts + m.destinationPorts :: 1 <= r.first <= r.last <= 65535
  }

  predicate ValidPacket(p: Packet) {
    p.src < Pow2(Width(p.fam)) && p.dst < Pow2(Width(p.fam)) && 0 <= p.sport <= 65535 && 0 <= p.dport <= 65535
  }

  /** Both sides constrain a family, or neither does, or one side is unconstrained altogether. */
  predicate Balanced(m: RuleMatch, fam: Family) {
    || m.sourceCIDRs == []
    || m.destinationCIDRs == []
    || (OfFamily(m.sourceCIDRs, fam) == [] <==> OfFamily(m.destinationCIDRs, fam) == [])
  }

  /** An address behind a name that the rule refers to, although no set the rule refers to has it. */
  predicate Stray(m: RuleMatch, sets: seq<RouteSet>, fam: Family, a: nat) {
    && (OfFamily(m.destinationCIDRs, fam) != [] ==> InSome(m.destinationCIDRs, fam, a))
    && (exists s | s in sets :: Contributes(s, fam, m.sets) && NameAdmits(sets, s.id, fam, a))
    && !(exists s | s in sets :: Refers(m, s) && InSome(s.cidrs, fam, a))
  }

  /** The prefixes of the enabled sets the rule refers to. */
  function ReferredCidrs(m: RuleMatch, sets: seq<RouteSet>): seq<Cidr> {
    if sets == [] then [] else
      var s := sets[|sets| - 1];
      ReferredCidrs(m, sets[..|sets| - 1]) + (if Refers(m, s) then s.cidrs else [])
  }

  /** The set contributes to a name the rule refers to. */
  predicate Behind(m: RuleMatch, sets: seq<RouteSet>, fam: Family, t: RouteSet) {
    exists s | s in sets :: Contributes(s, fam, m.sets) && Shares(t, s.id, fam)
  }

  /** What the destination lets through of a prefix is covered by the prefixes referred to. */
  predicate Accounted(m: RuleMatch, refs: seq<Cidr>, fam: Family, d: Cidr)
    requires d.Cidr? && d.fam == fam
  {
    if OfFamily(m.destinationCIDRs, fam) == [] then CoversCidr(refs, d)
    else forall c | c in OfFamily(m.destinationCIDRs, fam) && Overlap(c, d, fam) :: CoversCidr(refs, Narrower(c, d))
  }

  /** Clashing identifiers, if there are any, add no address of the family: a check on prefixes. */
  predicate NoStray(m: RuleMatch, sets: seq<RouteSet>, fam: Family) {
    forall t | t in sets && Behind(m, sets, fam, t) ::
      forall d | d in OfFamily(t.cidrs, fam) :: Accounted(m, ReferredCidrs(m, sets), fam, d)
  }

  /** No factor of the rule is lost for the family. */
  predicate Complete(m: RuleMatch, sets: seq<RouteSet>, fam: Family) {
    && !PortsDropped(m)
    && (m.sets == [] || SomeLiveSet(m, sets))
    && Balanced(m, fam)
  }

  /** The side conditions under which the lines of one family say what the rule says. */
  predicate Faithful(m: RuleMatch, sets: seq<RouteSet>, fam: Family) {
    Complete(m, sets, fam) && NoStray(m, sets, fam) && TagsOf(m) == NO_TAGS
  }

  /** Some destination prefix overlaps some CIDR behind a live reference. */
  predicate Meets(m: RuleMatch, sets: seq<RouteSet>, fam: Family) {
    exists s, t | s in sets && t in sets :: Contributes(s, fam, m.sets) && Shares(t, s.id, fam) &&
      (OfFamily(m.destinationCIDRs, fam) != [] ==>
         exists c, d | c in m.destinationCIDRs && d in t.cidrs :: Overlap(c, d, fam))
  }

  /** The CIDR lists leave a line for the family. */
  predicate HasLine(m: RuleMatch, fam: Family) {
    CidrExprs(m) == [] || OfFamily(m.sourceCIDRs, fam) != [] || OfFamily(m.destinationCIDRs, fam) != []
  }

  /** Whether the compiled lines can match any packet of a family: a check on the rule's texts. */
  predicate Satisfiable(m: RuleMatch, sets: seq<RouteSet>, fam: Family) {
    HasLine(m, fam) && (SomeLiveSet(m, sets) ==> Meets(m, sets, fam))
  }

  predicate WellFormedRule(m: RuleMatch, sets: seq<RouteSet>) {
    UniqueSetIds(sets) && ParsedMatch(m, sets) && ValidPorts(m)
  }

  // ----- addresses that only a clashing name adds

  lemma {:induction false} ReferredAdmits(m: RuleMatch, sets: seq<RouteSet>, fam: Family, a: nat)
    ensures InSome(ReferredCidrs(m, sets), fam, a) <==> exists s | s in sets :: Refers(m, s) && InSome(s.cidrs, fam, a)
  {
    hide Contains;
    if sets != [] {
      var init, last := sets[..|sets| - 1], sets[|sets| - 1];
      assert sets == init + [last];
      ReferredAdmits(m, init, fam, a);
      var r, more := ReferredCidrs(m, init), if Refers(m, last) then last.cidrs else [];
      forall c ensures c in ReferredCidrs(m, sets) <==> c in r || c in more {}
      forall s ensures s in sets <==> s in init || s == last {}
    }
  }

  lemma BehindAdmits(m: RuleMatch, sets: seq<RouteSet>, fam: Family, a: nat)
    ensures (exists s | s in sets :: Contributes(s, fam, m.sets) && NameAdmits(sets, s.id, fam, a)) <==>
            (exists t | t in sets :: Behind(m, sets, fam, t) && InSome(t.cidrs, fam, a))
  {
    hide InSome;
    hide Contributes;
    hide Shares;
  }

  lemma StrayIsUnaccounted(m: RuleMatch, sets: seq<RouteSet>, fam: Family, a: nat)
    requires a < Pow2(Width(fam)) && Stray(m, sets, fam, a)
    ensures !NoStray(m, sets, fam)
  {
    hide Behind;
    hide Contains;
    hide CoversCidr;
    hide NameAdmits;
    hide Contributes;
    hide Refers;
    hide Overlap;
    var refs := ReferredCidrs(m, sets);
    ReferredAdmits(m, sets, fam, a);
    BehindAdmits(m, sets, fam, a);
    var t :| t in sets && Behind(m, sets, fam, t) && InSome(t.cidrs, fam, a);
    InSomeOfFamily(t.cidrs, fam, a);
    var d :| d in OfFamily(t.cidrs, fam) && Contains(d, fam, a);
    if OfFamily(m.destinationCIDRs, fam) == [] {
      CoversCidrIff(refs, d);
    } else {
      InSomeOfFamily(m.destinationCIDRs, fam, a);
      var c :| c in OfFamily(m.destinationCIDRs, fam) && Contains(c, fam, a);
      OverlapIsNarrower(c, d, fam, a);
      CoversCidrIff(refs, Narrower(c, d));
    }
    assert !Accounted(m, refs, fam, d);
  }

  lemma InList(cs: seq<Cidr>, c: Cidr, fam: Family, a: nat)
    requires c in cs && Contains(c, fam, a)
    ensures InSome(cs, fam, a)
  {
  }

  lemma AdmittedIsReferred(m: RuleMatch, sets: seq<RouteSet>, fam: Family, t: RouteSet, d: Cidr, a: nat)
    requires forall a: nat | a < Pow2(Width(fam)) :: !Stray(m, sets, fam, a)
    requires t in sets && Behind(m, sets, fam, t) && d in t.cidrs && Contains(d, fam, a)
    requires OfFamily(m.destinationCIDRs, fam) != [] ==> InSome(m.destinationCIDRs, fam, a)
    ensures InSome(ReferredCidrs(m, sets), fam, a)
  {
    ContainsInRange(d, fam, a);
    InList(t.cidrs, d, fam, a);
    hide Behind;
    hide Contains;
    hide NameAdmits;
    hide Contributes;
    hide Refers;
    hide InSome;
    hide Pow2;
    BehindAdmits(m, sets, fam, a);
    ReferredAdmits(m, sets, fam, a);
    assert !Stray(m, sets, fam, a);
  }

  lemma AccountedWithoutStrays(m: RuleMatch, sets: seq<RouteSet>, fam: Family, t: RouteSet, d: Cidr)
    requires forall a: nat | a < Pow2(Width(fam)) :: !Stray(m, sets, fam, a)
    requires t in sets && Behind(m, sets, fam, t) && d in OfFamily(t.cidrs, fam)
    ensures Accounted(m, ReferredCidrs(m, sets), fam, d)
  {
    hide Behind;
    hide Contains;
    hide CoversCidr;
    hide NameAdmits;
    hide Contributes;
    hide Refers;
    hide Overlap;
    hide InSome;
    hide Pow2;
    hide ReferredCidrs;
    hide Stray;
    var refs := ReferredCidrs(m, sets);
    if OfFamily(m.destinationCIDRs, fam) == [] {
      forall a: nat | Contains(d, fam, a) ensures InSome(refs, fam, a) {
        AdmittedIsReferred(m, sets, fam, t, d, a);
      }
      CoversCidrIff(refs, d);
    } else {
      forall c | c in OfFamily(m.destinationCIDRs, fam) && Overlap(c, d, fam) ensures CoversCidr(refs, Narrower(c, d)) {
        forall a: nat | Contains(Narrower(c, d), fam, a) ensures InSome(refs, fam, a) {
          ContainsInRange(Narrower(c, d), fam, a);
          OverlapIsNarrower(c, d, fam, a);
          assert InSome(m.destinationCIDRs, fam, a) by { InList(m.destinationCIDRs, c, fam, a); }
          AdmittedIsReferred(m, sets, fam, t, d, a);
        }
        CoversCidrIff(refs, Narrower(c, d));
      }
    }
  }

  /** The check on prefixes says exactly that no address is added. */
  lemma {:induction false} NoStrayIff(m: RuleMatch, sets: seq<RouteSet>, fam: Family)
    ensures NoStray(m, sets, fam) <==> forall a: nat | a < Pow2(Width(fam)) :: !Stray(m, sets, fam, a)
  {
    hide Stray;
    hide Behind;
    hide Accounted;
    hide Pow2;
    hide ReferredCidrs;
    forall a: nat | a < Pow2(Width(fam)) && Stray(m, sets, fam, a) ensures !NoStray(m, sets, fam) {
      StrayIsUnaccounted(m, sets, fam, a);
    }
    if forall a: nat | a < Pow2(Width(fam)) :: !Stray(m, sets, fam, a) {
      forall t, d | t in sets && Behind(m, sets, fam, t) && d in OfFamily(t.cidrs, fam)
        ensures Accounted(m, ReferredCidrs(m, sets), fam, d)
      {
        AccountedWithoutStrays(m, sets, fam, t, d);
      }
    }
  }

  // ----- matched packets

  /** The matched address part meets the rule's CIDRs exactly when neither side was lost. */
  lemma MatchedCidrs(m: RuleMatch, p: Packet)
    requires AllParsed(m.sourceCIDRs) && AllParsed(m.destinationCIDRs) && CompiledCidrs(m, p)
    ensures IntendedCidrs(m, p) <==> Balanced(m, p.fam)
    ensures OfFamily(m.destinationCIDRs, p.fam) != [] ==> InSome(m.destinationCIDRs, p.fam, p.dst)
  {
    ParsedSplit(m.sourceCIDRs);
    ParsedSplit(m.destinationCIDRs);
    InSomeOfFamily(m.sourceCIDRs, p.fam, p.src);
    InSomeOfFamily(m.destinationCIDRs, p.fam, p.dst);
    if CidrExprs(m) == [] {
      assert OfFamily(m.destinationCIDRs, p.fam) == [];
    }
  }

  lemma MatchedSets(m: RuleMatch, sets: seq<RouteSet>, p: Packet)
    requires UniqueSetIds(sets)
    requires CompiledSets(m, sets, p)
    requires OfFamily(m.destinationCIDRs, p.fam) != [] ==> InSome(m.destinationCIDRs, p.fam, p.dst)
    ensures IntendedSets(m, sets, p) <==> m.sets == [] || (SomeLiveSet(m, sets) && !Stray(m, sets, p.fam, p.dst))
    ensures m.sets == [] ==> !Stray(m, sets, p.fam, p.dst)
  {
    hide NameAdmits;
    if s :| s in sets && Refers(m, s) && InSome(s.cidrs, p.fam, p.dst) {
      InSomeOfFamily(s.cidrs, p.fam, p.dst);
      assert p.fam in {V4, V6} && Contributes(s, p.fam, m.sets);
    }
  }

  /** A matched packet meets the rule's fields exactly when no factor was lost and its destination is not a stray. */
  lemma {:induction false} MatchedMeetsFields(m: RuleMatch, sets: seq<RouteSet>, p: Packet)
    requires WellFormedRule(m, sets)
    requires Compiled(m, sets, p)
    ensures FieldsMatch(m, sets, p) <==> Complete(m, sets, p.fam) && !Stray(m, sets, p.fam, p.dst)
  {
    hide Compiled;
    hide CompiledCidrs;
    hide IntendedCidrs;
    hide IntendedSets;
    hide Stray;
    hide CompiledSets;
    hide SomeLiveSet;
    hide InSome;
    hide OfFamily;
    CompiledMeaning(m, sets, p);
    MatchedCidrs(m, p);
    MatchedSets(m, sets, p);
  }

  lemma SharedAddressOverlaps(m: RuleMatch, t: RouteSet, fam: Family, a: nat)
    requires a < Pow2(Width(fam)) && InSome(t.cidrs, fam, a) && InSome(m.destinationCIDRs, fam, a)
    ensures exists c, d | c in m.destinationCIDRs && d in t.cidrs :: Overlap(c, d, fam)
  {
    hide Contains;
    hide Overlap;
    hide Pow2;
    var c :| c in m.destinationCIDRs && Contains(c, fam, a);
    var d :| d in t.cidrs && Contains(d, fam, a);
    OverlapMeansCommonAddress(c, d, fam);
  }

  lemma MatchedSetsMeet(m: RuleMatch, sets: seq<RouteSet>, p: Packet)
    requires SomeLiveSet(m, sets)
    requires ValidPacket(p) && CompiledSets(m, sets, p)
    requires OfFamily(m.destinationCIDRs, p.fam) != [] ==> InSome(m.destinationCIDRs, p.fam, p.dst)
    ensures Meets(m, sets, p.fam)
  {
    hide InSome;
    hide Overlap;
    hide Identifier;
    hide OfFamily;
    hide Pow2;
    hide SomeLiveSet;
    var s :| s in sets && Contributes(s, p.fam, m.sets) && NameAdmits(sets, s.id, p.fam, p.dst);
    var t :| t in sets && Shares(t, s.id, p.fam) && InSome(t.cidrs, p.fam, p.dst);
    if OfFamily(m.destinationCIDRs, p.fam) != [] {
      SharedAddressOverlaps(m, t, p.fam, p.dst);
    }
  }

  lemma MatchedFamilyIsSatisfiable(m: RuleMatch, sets: seq<RouteSet>, p: Packet)
    requires WellFormedRule(m, sets)
    requires ValidPacket(p) && Compiled(m, sets, p)
    ensures Satisfiable(m, sets, p.fam)
  {
    CompiledMeaning(m, sets, p);
    if SomeLiveSet(m, sets) {
      if CidrExprs(m) == [] {
        assert OfFamily(m.destinationCIDRs, p.fam) == [];
      }
      MatchedSetsMeet(m, sets, p);
    }
  }

  /** A list with a prefix of the family admits some address of it. */
  lemma FamilyAddress(cs: seq<Cidr>, fam: Family) returns (a: nat)
    ensures a < Pow2(Width(fam))
    ensures OfFamily(cs, fam) != [] ==> InSome(cs, fam, a)
  {
    a := 0;
    if OfFamily(cs, fam) != [] {
      var c := OfFamily(cs, fam)[0];
      assert c in OfFamily(cs, fam) && Contains(c, fam, c.addr);
      a := c.addr;
    }
  }

  /** An address that the destination CIDRs and, if it is there, the route-set factor accept. */
  predicate Reachable(m: RuleMatch, sets: seq<RouteSet>, fam: Family, a: nat) {
    && a < Pow2(Width(fam))
    && (OfFamily(m.destinationCIDRs, fam) != [] ==> InSome(m.destinationCIDRs, fam, a))
    && (SomeLiveSet(m, sets) ==>
          exists s | s in sets :: Contributes(s, fam, m.sets) && NameAdmits(sets, s.id, fam, a))
  }

  /** An address of the prefix that the destination lets through. */
  lemma AddressWithin(m: RuleMatch, t: RouteSet, fam: Family) returns (a: nat)
    requires OfFamily(t.cidrs, fam) != []
    requires OfFamily(m.destinationCIDRs, fam) != [] ==>
               exists c, d | c in m.destinationCIDRs && d in t.cidrs :: Overlap(c, d, fam)
    ensures a < Pow2(Width(fam)) && InSome(t.cidrs, fam, a)
    ensures OfFamily(m.destinationCIDRs, fam) != [] ==> InSome(m.destinationCIDRs, fam, a)
  {
    hide Overlap;
    hide Contains;
    hide Pow2;
    if OfFamily(m.destinationCIDRs, fam) == [] {
      a := FamilyAddress(t.cidrs, fam);
    } else {
      var c, d :| c in m.destinationCIDRs && d in t.cidrs && Overlap(c, d, fam);
      OverlapMeansCommonAddress(c, d, fam);
      a :| a < Pow2(Width(fam)) && Contains(c, fam, a) && Contains(d, fam, a);
    }
  }

  lemma LiveDestination(m: RuleMatch, sets: seq<RouteSet>, fam: Family) returns (a: nat)
    requires Meets(m, sets, fam)
    ensures Reachable(m, sets, fam, a)
  {
    hide Overlap;
    hide Identifier;
    hide InSome;
    hide Pow2;
    hide OfFamily;
    var s, t :| s in sets && t in sets && Contributes(s, fam, m.sets) && Shares(t, s.id, fam) &&
             (OfFamily(m.destinationCIDRs, fam) != [] ==>
                exists c, d | c in m.destinationCIDRs && d in t.cidrs :: Overlap(c, d, fam));
    a := AddressWithin(m, t, fam);
    assert NameAdmits(sets, s.id, fam, a);
  }

  lemma CommonDestination(m: RuleMatch, sets: seq<RouteSet>, fam: Family) returns (a: nat)
    requires Satisfiable(m, sets, fam)
    ensures Reachable(m, sets, fam, a)
  {
    hide Meets;
    hide HasLine;
    hide InSome;
    hide Pow2;
    if SomeLiveSet(m, sets) {
      a := LiveDestination(m, sets, fam);
    } else {
      a := FamilyAddress(m.destinationCIDRs, fam);
    }
  }

  lemma PortIn(ranges: seq<PortRange>) returns (port: int)
    requires forall r | r in ranges :: 1 <= r.first <= r.last <= 65535
    ensures 0 <= port <= 65535
    ensures ranges != [] ==> InPorts(ranges, port)
  {
    if ranges == [] {
      port := 0;
    } else {
      assert ranges[0] in ranges;
      port := ranges[0].first;
    }
  }

  lemma ProtocolFor(m: RuleMatch) returns (proto: Protocol)
    ensures m.protocols != [] ==> proto in m.protocols
    ensures !PortsDropped(m) && HasPorts(m) ==> CarriesPorts(proto)
  {
    if m.protocols == [] {
      proto := Tcp;
    } else if q :| q in m.protocols && CarriesPorts(q) {
      proto := q;
    } else {
      proto := m.protocols[0];
    }
  }

  lemma PortWitness(m: RuleMatch) returns (proto: Protocol, sport: int, dport: int)
    requires ValidPorts(m)
    ensures 0 <= sport <= 65535 && 0 <= dport <= 65535
    ensures m.protocols != [] ==> proto in m.protocols
    ensures !PortsDropped(m) && HasPorts(m) ==> CarriesPorts(proto)
    ensures m.sourcePorts != [] ==> InPorts(m.sourcePorts, sport)
    ensures m.destinationPorts != [] ==> InPorts(m.destinationPorts, dport)
  {
    assert forall r | r in m.sourcePorts :: r in m.sourcePorts + m.destinationPorts;
    assert forall r | r in m.destinationPorts :: r in m.sourcePorts + m.destinationPorts;
    sport := PortIn(m.sourcePorts);
    dport := PortIn(m.destinationPorts);
    proto := ProtocolFor(m);
  }

  /** Some packet of the family with that destination is matched. */
  lemma ReachableIsMatched(m: RuleMatch, sets: seq<RouteSet>, fam: Family, a: nat) returns (p: Packet)
    requires WellFormedRule(m, sets) && HasLine(m, fam) && Reachable(m, sets, fam, a)
    ensures ValidPacket(p) && p.fam == fam && p.dst == a && Compiled(m, sets, p)
  {
    var src := FamilyAddress(m.sourceCIDRs, fam);
    var proto, sport, dport := PortWitness(m);
    p := Packet(m.inputIface, m.outputIface, fam, src, a, proto, sport, dport, New, 0);
    assert IntendedPorts(m, p) || PortsDropped(m);
    CompiledMeaning(m, sets, p);
  }

  /**
   A family that is matched but not compiled faithfully has a packet that some reading of the
   uncompiled fields says should not be matched.
   */
  lemma {:induction false} UnfaithfulOvermatches(m: RuleMatch, sets: seq<RouteSet>, fam: Family)
    returns (p: Packet, reading: Reading)
    requires WellFormedRule(m, sets) && Satisfiable(m, sets, fam) && !Faithful(m, sets, fam)
    ensures Neutral(reading) && ValidPacket(p) && Compiled(m, sets, p) && !Intended(m, sets, p, reading)
  {
    hide FieldsMatch;
    hide Compiled;
    hide WellFormedRule;
    hide Complete;
    hide NoStray;
    hide NameAdmits;
    hide Contributes;
    hide Refers;
    hide InSome;
    reading := (tags, _) => tags == NO_TAGS;
    if Complete(m, sets, fam) && !NoStray(m, sets, fam) {
      NoStrayIff(m, sets, fam);
      var a: nat :| a < Pow2(Width(fam)) && Stray(m, sets, fam, a);
      p := ReachableIsMatched(m, sets, fam, a);
    } else {
      var a := CommonDestination(m, sets, fam);
      p := ReachableIsMatched(m, sets, fam, a);
    }
    MatchedMeetsFields(m, sets, p);
  }

  /** The lines match exactly the packets the rule is written for under the reading. */
  ghost predicate ExactUnder(m: RuleMatch, sets: seq<RouteSet>, reading: Reading) {
    forall p: Packet | ValidPacket(p) :: Compiled(m, sets, p) <==> Intended(m, sets, p, reading)
  }

  lemma ExactForPacket(m: RuleMatch, sets: seq<RouteSet>, p: Packet, reading: Reading)
    requires WellFormedRule(m, sets) && ValidPacket(p) && Neutral(reading)
    requires Satisfiable(m, sets, p.fam) ==> Faithful(m, sets, p.fam)
    ensures Compiled(m, sets, p) <==> Intended(m, sets, p, reading)
  {
    hide FieldsMatch;
    hide Compiled;
    hide Satisfiable;
    hide Complete;
    hide NoStray;
    hide Stray;
    if Compiled(m, sets, p) {
      MatchedFamilyIsSatisfiable(m, sets, p);
      MatchedMeetsFields(m, sets, p);
      NoStrayIff(m, sets, p.fam);
    } else if Intended(m, sets, p, reading) {
      CompilationLosesNothing(m, sets, p, reading);
    }
  }

  /**
   The lines of a rule match exactly the packets it was written for, whatever its uncompiled
   fields mean, if and only if every family they can match at all is compiled faithfully.
   */
  lemma {:induction false} CompilationExactIff(m: RuleMatch, sets: seq<RouteSet>)
    requires WellFormedRule(m, sets)
    ensures (forall reading: Reading | Neutral(reading) :: ExactUnder(m, sets, reading)) <==>
            (forall fam: Family :: Satisfiable(m, sets, fam) ==> Faithful(m, sets, fam))
  {
    hide Intended;
    hide Compiled;
    hide WellFormedRule;
    hide Neutral;
    if forall fam: Family :: Satisfiable(m, sets, fam) ==> Faithful(m, sets, fam) {
      forall reading: Reading, p: Packet | Neutral(reading) && ValidPacket(p)
        ensures Compiled(m, sets, p) <==> Intended(m, sets, p, reading)
      {
        ExactForPacket(m, sets, p, reading);
      }
    } else {
      var fam: Family :| Satisfiable(m, sets, fam) && !Faithful(m, sets, fam);
      var p, reading := UnfaithfulOvermatches(m, sets, fam);
      assert !ExactUnder(m, sets, reading);
    }
  }

  /** With distinct identifiers no name adds an address. */
  lemma {:induction false} DistinctNamesHaveNoStrays(m: RuleMatch, sets: seq<RouteSet>, fam: Family)
    requires DistinctNames(sets)
    ensures NoStray(m, sets, fam)
  {
    NoStrayIff(m, sets, fam);
    hide NoStray;
    hide Identifier;
    hide InSome;
    forall a: nat | a < Pow2(Width(fam)) ensures !Stray(m, sets, fam, a) {
      if s :| s in sets && Contributes(s, fam, m.sets) && NameAdmits(sets, s.id, fam, a) {
        var t :| t in sets && Shares(t, s.id, fam) && InSome(t.cidrs, fam, a);
        assert s == t && Refers(m, s);
      }
    }
  }
}
