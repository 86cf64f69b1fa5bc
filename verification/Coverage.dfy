/** When a list of prefixes covers a block of addresses: a check on the prefixes alone. */
module Coverage {
  import opened Addresses

  /** The prefix holds the whole block of addresses whose first k bits are n. */
  predicate HoldsBlock(q: Cidr, fam: Family, k: nat, n: int)
    requires k <= Width(fam)
  {
    q.Cidr? && q.fam == fam && q.bits <= k && n / Pow2(k - q.bits) == q.addr / Pow2(Width(fam) - q.bits)
  }

  /** Some prefix holds the whole block, or both of its halves are covered. */
  predicate Covered(qs: seq<Cidr>, fam: Family, k: nat, n: int)
    requires k <= Width(fam)
    decreases Width(fam) - k
  {
    || (exists q | q in qs :: HoldsBlock(q, fam, k, n))
    || (k < Width(fam) && Covered(qs, fam, k + 1, 2 * n) && Covered(qs, fam, k + 1, 2 * n + 1))
  }

  predicate InBlock(fam: Family, k: nat, n: int, a: nat)
    requires k <= Width(fam)
  {
    a / Pow2(Width(fam) - k) == n
  }

  lemma HeldBlock(q: Cidr, fam: Family, k: nat, n: nat, a: nat)
    requires k <= Width(fam) && q.Cidr? && q.fam == fam && q.bits <= k && InBlock(fam, k, n, a)
    ensures HoldsBlock(q, fam, k, n) <==> Contains(q, fam, a)
  {
    var fine, rest := Width(fam) - k, k - q.bits;
    Pow2Add(fine, rest);
    DivDiv(a, Pow2(fine), Pow2(rest));
    assert Width(fam) - q.bits == fine + rest;
  }

  lemma Halves(fam: Family, k: nat, n: nat, a: nat)
    requires k < Width(fam)
    ensures InBlock(fam, k, n, a) <==> InBlock(fam, k + 1, 2 * n, a) || InBlock(fam, k + 1, 2 * n + 1, a)
  {
    var half := Pow2(Width(fam) - k - 1);
    assert Pow2(Width(fam) - k) == half * 2;
    DivDiv(a, half, 2);
  }

  lemma HeldBlockIsCovered(qs: seq<Cidr>, fam: Family, k: nat, n: nat, q: Cidr, a: nat)
    requires k <= Width(fam) && q in qs && HoldsBlock(q, fam, k, n) && InBlock(fam, k, n, a)
    ensures InSome(qs, fam, a)
  {
    HeldBlock(q, fam, k, n, a);
  }

  /** A single address is covered by a prefix that contains it. */
  lemma LeafIsCovered(qs: seq<Cidr>, fam: Family, n: nat)
    requires InSome(qs, fam, n)
    ensures Covered(qs, fam, Width(fam), n)
  {
    var q :| q in qs && Contains(q, fam, n);
    assert Pow2(0) == 1;
    HeldBlock(q, fam, Width(fam), n, n);
  }

  /** The prefix check is coverage address by address. */
  lemma {:induction false} CoveredIff(qs: seq<Cidr>, fam: Family, k: nat, n: nat)
    requires k <= Width(fam)
    ensures Covered(qs, fam, k, n) <==> forall a: nat | InBlock(fam, k, n, a) :: InSome(qs, fam, a)
    decreases Width(fam) - k
  {
    hide InSome;
    if k < Width(fam) {
      CoveredIff(qs, fam, k + 1, 2 * n);
      CoveredIff(qs, fam, k + 1, 2 * n + 1);
      forall a: nat
        ensures InBlock(fam, k, n, a) <==> InBlock(fam, k + 1, 2 * n, a) || InBlock(fam, k + 1, 2 * n + 1, a)
      {
        Halves(fam, k, n, a);
      }
    } else if forall a: nat | InBlock(fam, k, n, a) :: InSome(qs, fam, a) {
      assert Pow2(0) == 1;
      assert InBlock(fam, k, n, n);
      LeafIsCovered(qs, fam, n);
    }
    hide InBlock;
    if q :| q in qs && HoldsBlock(q, fam, k, n) {
      forall a: nat | InBlock(fam, k, n, a) ensures InSome(qs, fam, a) {
        HeldBlockIsCovered(qs, fam, k, n, q, a);
      }
    }
  }

  // ----- prefixes as blocks

  predicate CoversCidr(qs: seq<Cidr>, c: Cidr)
    requires c.Cidr?
  {
    Covered(qs, c.fam, c.bits, c.addr / Pow2(Width(c.fam) - c.bits))
  }

  lemma DivBound(a: nat, m: nat, d: nat)
    requires d > 0 && a < m * d
    ensures 0 <= a / d < m
  {
    if a / d >= m {
      MulStep(d, m - 1, a / d);
    }
  }

  lemma CoversCidrIff(qs: seq<Cidr>, c: Cidr)
    requires c.Cidr?
    ensures CoversCidr(qs, c) <==> forall a: nat | Contains(c, c.fam, a) :: InSome(qs, c.fam, a)
  {
    var n := c.addr / Pow2(Width(c.fam) - c.bits);
    Pow2Add(c.bits, Width(c.fam) - c.bits);
    DivBound(c.addr, Pow2(c.bits), Pow2(Width(c.fam) - c.bits));
    CoveredIff(qs, c.fam, c.bits, n);
    hide InSome;
    hide Covered;
    forall a: nat ensures Contains(c, c.fam, a) <==> InBlock(c.fam, c.bits, n, a) {}
  }

  /** The smaller of two overlapping prefixes. */
  function Narrower(c: Cidr, d: Cidr): (r: Cidr)
    requires c.Cidr? && d.Cidr?
    ensures r == c || r == d
  {
    if c.bits <= d.bits then d else c
  }

  /** The wider of two overlapping prefixes contains the base of the narrower one. */
  lemma CommonBase(wide: Cidr, narrow: Cidr, fam: Family)
    requires (Overlap(wide, narrow, fam) || Overlap(narrow, wide, fam)) && wide.bits <= narrow.bits
    ensures Contains(wide, fam, narrow.addr)
  {
    if Contains(narrow, fam, wide.addr) {
      CoarserAgrees(fam, wide.addr, narrow.addr, wide.bits, narrow.bits);
    }
  }

  /** Two overlapping prefixes meet in the smaller one; others do not meet. */
  lemma OverlapIsNarrower(c: Cidr, d: Cidr, fam: Family, a: nat)
    requires c.Cidr? && d.Cidr? && a < Pow2(Width(fam))
    ensures Contains(c, fam, a) && Contains(d, fam, a) <==> Overlap(c, d, fam) && Contains(Narrower(c, d), fam, a)
  {
    OverlapMeansCommonAddress(c, d, fam);
    if Overlap(c, d, fam) && Contains(Narrower(c, d), fam, a) {
      if c.bits <= d.bits {
        CoarserAgrees(fam, a, d.addr, c.bits, d.bits);
        CommonBase(c, d, fam);
      } else {
        CoarserAgrees(fam, a, c.addr, d.bits, c.bits);
        CommonBase(d, c, fam);
      }
    }
  }

  lemma DivReach(a: nat, m: nat, d: nat)
    requires d > 0 && m * d <= a
    ensures m <= a / d
  {
    if a / d < m {
      MulStep(d, a / d, m);
    }
  }

  /** A prefix never reaches beyond its address space. */
  lemma ContainsInRange(c: Cidr, fam: Family, a: nat)
    requires Contains(c, fam, a)
    ensures a < Pow2(Width(fam))
  {
    var d := Pow2(Width(fam) - c.bits);
    Pow2Add(c.bits, Width(fam) - c.bits);
    if a >= Pow2(Width(fam)) {
      MulStep(d, c.addr / d, a / d);
      DivBound(c.addr, Pow2(c.bits), d);
      DivReach(a, Pow2(c.bits), d);
    }
  }
}
