/** What the 1:1 pairs of the compiled table translate. */
module NatPairs {
  import opened Basics
  import opened Addresses
  import opened Config
  import opened Nft
  import opened MatchCompiler
  import opened NatChains
  import opened CompiledTable

  /** The address a packet's destination is rewritten to by a pair, if it is. */
  function DnatTarget(c: Config, p: Packet): Option<nat> {
    match Verdict(c, "dstnat", p)
    case Some(l) => if l.action.DnatTo? then Some(l.action.addr) else None
    case None => None
  }

  /** The address a packet's source is rewritten to by a pair, if it is. */
  function SnatTarget(c: Config, p: Packet): Option<nat> {
    match Verdict(c, "postrouting", p)
    case Some(l) => if l.action.SnatTo? then Some(l.action.addr) else None
    case None => None
  }

  lemma DnatPrecedes(c: Config, p: Packet, k: nat)
    requires c.security.nat_ && FirstDnat(c.security.oneToOne, k, p)
    ensures DnatTarget(c, p) == Some(c.security.oneToOne[k].internal.addr)
    ensures FromPair(Verdict(c, "dstnat", p), c.security.oneToOne[k], DnatTo(c.security.oneToOne[k].internal.addr))
  {
    NatVerdicts(c, p);
    hide Verdict;
    hide TableSets;
    hide DnatPair;
    hide DnatApplies;
    hide PortForwardLines;
    var nats, env := c.security.oneToOne, TableSets(c.routing.sets);
    var i := DnatPairsFirst(nats, p, env, FirstMatch(DnatPairs(nats), p, env));
    FirstMatchConcat(DnatPairs(nats), PortForwardLines(c.security.portForwards), p, env);
    assert nats[k] in nats;
    assert i == k;
  }

  lemma SnatPrecedes(c: Config, p: Packet, k: nat)
    requires c.security.nat_ && FirstSnat(c.security.oneToOne, k, p)
    ensures SnatTarget(c, p) == Some(c.security.oneToOne[k].external.addr)
    ensures FromPair(Verdict(c, "postrouting", p), c.security.oneToOne[k], SnatTo(c.security.oneToOne[k].external.addr))
  {
    NatVerdicts(c, p);
    hide Verdict;
    hide TableSets;
    hide SnatPair;
    hide SnatApplies;
    hide RuleMasquerades;
    hide IfaceMasquerades;
    var nats, env := c.security.oneToOne, TableSets(c.routing.sets);
    var i := SnatPairsFirst(nats, p, env, FirstMatch(SnatPairs(nats), p, env));
    var masq := IfaceMasquerades(c.interfaces) + RuleMasquerades(c.routing.rules, c);
    FirstMatchConcat(SnatPairs(nats), masq, p, env);
    assert PostroutingLines(c) == SnatPairs(nats) + masq;
    assert nats[k] in nats;
    assert i == k;
  }

  lemma NothingTranslated(c: Config, p: Packet)
    requires !c.security.nat_
    ensures Verdict(c, "dstnat", p) == None == Verdict(c, "postrouting", p)
  {
    NatVerdicts(c, p);
    hide Verdict;
  }

  /**
   In both NAT chains the pairs come first: while NAT is on, a packet some pair applies to is
   translated by the first such pair; while NAT is off, no packet is translated.
   */
  lemma {:induction false} PairsTakePrecedence(c: Config, p: Packet)
    ensures c.security.nat_ ==> forall k: nat | FirstDnat(c.security.oneToOne, k, p) ::
              && DnatTarget(c, p) == Some(c.security.oneToOne[k].internal.addr)
              && FromPair(Verdict(c, "dstnat", p), c.security.oneToOne[k], DnatTo(c.security.oneToOne[k].internal.addr))
    ensures c.security.nat_ ==> forall k: nat | FirstSnat(c.security.oneToOne, k, p) ::
              && SnatTarget(c, p) == Some(c.security.oneToOne[k].external.addr)
              && FromPair(Verdict(c, "postrouting", p), c.security.oneToOne[k], SnatTo(c.security.oneToOne[k].external.addr))
    ensures !c.security.nat_ ==> DnatTarget(c, p) == None == SnatTarget(c, p)
  {
    hide Verdict;
    hide FromPair;
    if c.security.nat_ {
      forall k: nat | FirstDnat(c.security.oneToOne, k, p)
        ensures DnatTarget(c, p) == Some(c.security.oneToOne[k].internal.addr)
        ensures FromPair(Verdict(c, "dstnat", p), c.security.oneToOne[k], DnatTo(c.security.oneToOne[k].internal.addr))
      {
        DnatPrecedes(c, p, k);
      }
      forall k: nat | FirstSnat(c.security.oneToOne, k, p)
        ensures SnatTarget(c, p) == Some(c.security.oneToOne[k].external.addr)
        ensures FromPair(Verdict(c, "postrouting", p), c.security.oneToOne[k], SnatTo(c.security.oneToOne[k].external.addr))
      {
        SnatPrecedes(c, p, k);
      }
    } else {
      NothingTranslated(c, p);
    }
  }

  /** Externals and internals of the rendered IPv4 pairs are pairwise distinct. */
  predicate DistinctPairs(nats: seq<OneToOneNat>) {
    forall i, j :: 0 <= i < j < |nats| && Ipv4Pair(nats[i]) && Ipv4Pair(nats[j]) ==>
      nats[i].external.addr != nats[j].external.addr && nats[i].internal.addr != nats[j].internal.addr
  }

  /**
   While NAT is on, 1:1 NAT is a bijection: on any interface of a pair, external becomes
   internal inbound, internal becomes external outbound, and each undoes the other.
   */
  lemma {:induction false} OneToOneIsBijection(c: Config, k: nat, p: Packet)
    requires c.security.nat_ && k < |c.security.oneToOne| && DistinctPairs(c.security.oneToOne)
    requires Ipv4Pair(c.security.oneToOne[k]) && p.fam == V4
    ensures var n := c.security.oneToOne[k];
            (OnIface(n, p.iif) && p.dst == n.external.addr ==>
               DnatTarget(c, p) == Some(n.internal.addr) &&
               SnatTarget(c, p.(src := n.internal.addr, oif := p.iif)) == Some(p.dst)) &&
            (OnIface(n, p.oif) && p.src == n.internal.addr ==>
               SnatTarget(c, p) == Some(n.external.addr) &&
               DnatTarget(c, p.(dst := n.external.addr, iif := p.oif)) == Some(p.src))
  {
    var n := c.security.oneToOne[k];
    hide DnatTarget;
    hide SnatTarget;
    if OnIface(n, p.iif) && p.dst == n.external.addr {
      assert FirstDnat(c.security.oneToOne, k, p);
      DnatPrecedes(c, p, k);
      var q := p.(src := n.internal.addr, oif := p.iif);
      assert FirstSnat(c.security.oneToOne, k, q);
      SnatPrecedes(c, q, k);
    }
    if OnIface(n, p.oif) && p.src == n.internal.addr {
      assert FirstSnat(c.security.oneToOne, k, p);
      SnatPrecedes(c, p, k);
      var q := p.(dst := n.external.addr, iif := p.oif);
      assert FirstDnat(c.security.oneToOne, k, q);
      DnatPrecedes(c, q, k);
    }
  }

  /** The pair claims the external address on the interface, inbound. */
  predicate ClaimsExternal(n: OneToOneNat, external: nat, iface: string) {
    Ipv4Pair(n) && OnIface(n, iface) && n.external.addr == external
  }

  /** The pair claims the internal address on the interface, outbound. */
  predicate ClaimsInternal(n: OneToOneNat, internal: nat, iface: string) {
    Ipv4Pair(n) && OnIface(n, iface) && n.internal.addr == internal
  }

  lemma FirstDnatOf(nats: seq<OneToOneNat>, k: nat, p: Packet) returns (f: nat)
    requires k < |nats| && DnatApplies(nats[k], p)
    ensures f <= k && FirstDnat(nats, f, p)
  {
    hide DnatApplies;
    f := 0;
    while !DnatApplies(nats[f], p)
      decreases k - f
      invariant f <= k && forall j: nat :: j < f ==> !DnatApplies(nats[j], p)
    {
      f := f + 1;
    }
  }

  lemma FirstSnatOf(nats: seq<OneToOneNat>, k: nat, p: Packet) returns (f: nat)
    requires k < |nats| && SnatApplies(nats[k], p)
    ensures f <= k && FirstSnat(nats, f, p)
  {
    hide SnatApplies;
    f := 0;
    while !SnatApplies(nats[f], p)
      decreases k - f
      invariant f <= k && forall j: nat :: j < f ==> !SnatApplies(nats[j], p)
    {
      f := f + 1;
    }
  }

  /**
   A pair's inbound rewrite takes effect on an interface if and only if NAT is on and the first
   pair that claims the same external address there leads to the same internal address.
   */
  lemma {:induction false} InboundEffectiveIff(c: Config, k: nat, p: Packet)
    requires k < |c.security.oneToOne| && DnatApplies(c.security.oneToOne[k], p)
    ensures var nats := c.security.oneToOne;
            DnatTarget(c, p) == Some(nats[k].internal.addr) <==>
            && c.security.nat_
            && forall j: nat | j < k && ClaimsExternal(nats[j], nats[k].external.addr, p.iif) ::
                 (forall i: nat | i < j :: !ClaimsExternal(nats[i], nats[k].external.addr, p.iif)) ==>
                 nats[j].internal.addr == nats[k].internal.addr
  {
    var nats := c.security.oneToOne;
    PairsTakePrecedence(c, p);
    hide DnatTarget;
    hide SnatTarget;
    hide SnatApplies;
    var f := FirstDnatOf(nats, k, p);
    forall j: nat | j < |nats| ensures ClaimsExternal(nats[j], nats[k].external.addr, p.iif) <==> DnatApplies(nats[j], p) {}
    hide DnatApplies;
    hide ClaimsExternal;
    hide Ipv4Pair;
  }

  /**
   A pair's outbound rewrite takes effect on an interface if and only if NAT is on and the first
   pair that claims the same internal address there leads to the same external address.
   */
  lemma {:induction false} OutboundEffectiveIff(c: Config, k: nat, p: Packet)
    requires k < |c.security.oneToOne| && SnatApplies(c.security.oneToOne[k], p)
    ensures var nats := c.security.oneToOne;
            SnatTarget(c, p) == Some(nats[k].external.addr) <==>
            && c.security.nat_
            && forall j: nat | j < k && ClaimsInternal(nats[j], nats[k].internal.addr, p.oif) ::
                 (forall i: nat | i < j :: !ClaimsInternal(nats[i], nats[k].internal.addr, p.oif)) ==>
                 nats[j].external.addr == nats[k].external.addr
  {
    var nats := c.security.oneToOne;
    PairsTakePrecedence(c, p);
    hide DnatTarget;
    hide SnatTarget;
    hide DnatApplies;
    var f := FirstSnatOf(nats, k, p);
    forall j: nat | j < |nats| ensures ClaimsInternal(nats[j], nats[k].internal.addr, p.oif) <==> SnatApplies(nats[j], p) {}
    hide SnatApplies;
    hide ClaimsInternal;
    hide Ipv4Pair;
  }
}
