/**
 IP addresses as numbers and CIDR membership as prefix arithmetic
 (section 3.1 of RFC 4632, section 2.3 of RFC 4291).
 */
module Addresses {

  datatype Family = V4 | V6

  function Width(fam: Family): nat {
    if fam == V4 then 32 else 128
  }

  function Pow2(n: nat): (r: nat)
    ensures r > 0
  {
    if n == 0 then 1 else 2 * Pow2(n - 1)
  }

  /** What parsing a CIDR text yields: a prefix, or nothing for a malformed text. */
  datatype CidrValue =
    | Cidr(fam: Family, addr: nat, bits: nat)
    | Unparsed(text: string)

  type Cidr = c: CidrValue |
      c.Cidr? ==> c.bits <= Width(c.fam) && c.addr < Pow2(Width(c.fam))
    witness Unparsed("")

  /** The block of addresses that share the prefix's first `bits` bits. */
  predicate Contains(c: Cidr, fam: Family, a: nat) {
    && c.Cidr?
    && c.fam == fam
    && a / Pow2(Width(fam) - c.bits) == c.addr / Pow2(Width(fam) - c.bits)
  }

  predicate AllParsed(cs: seq<Cidr>) {
    forall c | c in cs :: c.Cidr?
  }

  predicate InSome(cs: seq<Cidr>, fam: Family, a: nat) {
    exists c | c in cs :: Contains(c, fam, a)
  }

  /** Two prefixes overlap when one of them holds the other's base address. */
  predicate Overlap(c: Cidr, d: Cidr, fam: Family) {
    && c.Cidr? && d.Cidr?
    && (Contains(c, fam, d.addr) || Contains(d, fam, c.addr))
    && c.fam == d.fam == fam
  }

  lemma Pow2Add(m: nat, n: nat)
    ensures Pow2(m + n) == Pow2(m) * Pow2(n)
  {
    if m != 0 {
      Pow2Add(m - 1, n);
    }
  }

  lemma MulStep(d: nat, p: int, q: int)
    ensures p < q ==> d * p + d <= d * q
  {
    if p < q {
      assert d * q == d * p + d * (q - p);
      assert d * (q - p) == d + d * (q - p - 1);
    }
  }

  lemma QuotientUnique(a: nat, d: nat, q: int, r: nat)
    requires 0 < d && a == d * q + r && r < d
    ensures a / d == q
  {
    MulStep(d, a / d, q);
    MulStep(d, q, a / d);
  }

  lemma MulRegroup(m: int, n: int, s: int, t: int)
    ensures m * (n * s + t) == (m * n) * s + m * t
  {
    assert m * (n * s + t) == m * (n * s) + m * t;
    assert m * (n * s) == (m * n) * s;
  }

  lemma DivDiv(a: nat, m: nat, n: nat)
    requires m > 0 && n > 0
    ensures m * n > 0
    ensures a / (m * n) == a / m / n
  {
    var q, r := a / m, a % m;
    var s, t := q / n, q % n;
    calc {
      a;
      m * q + r;
      m * (n * s + t) + r;
      { MulRegroup(m, n, s, t); }
      (m * n) * s + (m * t + r);
    }
    MulStep(m, t, n);
    QuotientUnique(a, m * n, s, m * t + r);
  }

  /** Blocks nest: sharing the longer prefix implies sharing the shorter one. */
  lemma CoarserAgrees(fam: Family, a: nat, b: nat, short: nat, long: nat)
    requires short <= long <= Width(fam)
    requires a / Pow2(Width(fam) - long) == b / Pow2(Width(fam) - long)
    ensures a / Pow2(Width(fam) - short) == b / Pow2(Width(fam) - short)
  {
    var fine, rest := Width(fam) - long, long - short;
    Pow2Add(fine, rest);
    DivDiv(a, Pow2(fine), Pow2(rest));
    DivDiv(b, Pow2(fine), Pow2(rest));
    assert Width(fam) - short == fine + rest;
  }

  /** Overlap is exactly the existence of a common address, within the address space. */
  lemma {:induction false} OverlapMeansCommonAddress(c: Cidr, d: Cidr, fam: Family)
    ensures Overlap(c, d, fam) <==>
            exists a: nat | a < Pow2(Width(fam)) :: Contains(c, fam, a) && Contains(d, fam, a)
  {
    if Overlap(c, d, fam) {
      var a := if Contains(c, fam, d.addr) then d.addr else c.addr;
      assert Contains(c, fam, a) && Contains(d, fam, a);
    }
    if a: nat :| a < Pow2(Width(fam)) && Contains(c, fam, a) && Contains(d, fam, a) {
      if c.bits <= d.bits {
        CoarserAgrees(fam, a, d.addr, c.bits, d.bits);
      } else {
        CoarserAgrees(fam, a, c.addr, d.bits, c.bits);
      }
    }
  }

  /** The prefixes of one family, in order: the parsed and kept half of a CIDR list. */
  function OfFamily(cs: seq<Cidr>, fam: Family): (r: seq<Cidr>)
    ensures forall c :: c in r <==> c in cs && c.Cidr? && c.fam == fam
  {
    if cs == [] then [] else
      (if cs[0].Cidr? && cs[0].fam == fam then [cs[0]] else []) + OfFamily(cs[1..], fam)
  }

  lemma {:induction false} OfFamilyAppend(cs: seq<Cidr>, c: Cidr, fam: Family)
    ensures OfFamily(cs + [c], fam) ==
            OfFamily(cs, fam) + (if c.Cidr? && c.fam == fam then [c] else [])
  {
    if cs != [] {
      OfFamilyAppend(cs[1..], c, fam);
      assert (cs + [c])[1..] == cs[1..] + [c];
    }
  }

  lemma InSomeOfFamily(cs: seq<Cidr>, fam: Family, a: nat)
    ensures InSome(OfFamily(cs, fam), fam, a) <==> InSome(cs, fam, a)
  {
    if c :| c in cs && Contains(c, fam, a) {
      assert c in OfFamily(cs, fam);
    }
    if c :| c in OfFamily(cs, fam) && Contains(c, fam, a) {
      assert c in cs;
    }
  }

  /** Splits a CIDR list into its IPv4 and IPv6 members; malformed texts are skipped. */
  method SplitCIDRs(values: seq<Cidr>) returns (v4: seq<Cidr>, v6: seq<Cidr>)
    ensures v4 == OfFamily(values, V4) && v6 == OfFamily(values, V6)
  {
    v4, v6 := [], [];
    for i := 0 to |values|
      invariant v4 == OfFamily(values[..i], V4) && v6 == OfFamily(values[..i], V6)
    {
      OfFamilyAppend(values[..i], values[i], V4);
      OfFamilyAppend(values[..i], values[i], V6);
      assert values[..i + 1] == values[..i] + [values[i]];
      if values[i].Unparsed? {
        continue;
      }
      if values[i].fam == V4 {
        v4 := v4 + [values[i]];
      } else {
        v6 := v6 + [values[i]];
      }
    }
    assert values[..|values|] == values;
  }
}
