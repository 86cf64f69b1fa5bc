/** The table a configuration compiles to, and what its chains decide. */
module CompiledTable {
  import opened Basics
  import opened Config
  import opened Nft
  import opened MatchCompiler
  import opened PolicyChains
  import opened InputChain
  import opened NatChains

  /** The table a configuration compiles to. */
  function TableOf(c: Config): Table {
    Table(AllSetDecls(c.routing.sets),
          [Chain("input", c.security.firewall, InputLines(c))] +
          (if HasDstNat(c) then [Chain("dstnat", false, DstNatLines(c))] else []) +
          [Chain("prerouting", false, PreroutingLines(c)), Chain("forward", false, ForwardLines(c))] +
          (if c.security.nat_ then [Chain("postrouting", false, PostroutingLines(c))] else []))
  }

  /** The lines of the chain with the name; a table without the chain has none. */
  function LinesIn(chains: seq<Chain>, name: string): seq<Line> {
    if chains == [] then []
    else if chains[0].name == name then chains[0].lines
    else LinesIn(chains[1..], name)
  }

  function LinesOf(t: Table, name: string): seq<Line> {
    LinesIn(t.chains, name)
  }

  /** The line of a chain of the compiled table that decides a packet. */
  function Verdict(c: Config, chain: string, p: Packet): Option<Line> {
    FirstMatch(LinesOf(TableOf(c), chain), p, DeclareAll(TableOf(c).sets))
  }

  predicate NoneNamed(chains: seq<Chain>, name: string) {
    forall x | x in chains :: x.name != name
  }

  lemma {:induction false} LinesInConcat(a: seq<Chain>, b: seq<Chain>, name: string)
    ensures NoneNamed(a, name) ==> LinesIn(a + b, name) == LinesIn(b, name)
    ensures !NoneNamed(a, name) ==> LinesIn(a + b, name) == LinesIn(a, name)
  {
    if a == [] {
      assert a + b == b;
    } else {
      assert (a + b)[1..] == a[1..] + b;
      LinesInConcat(a[1..], b, name);
      assert a == [a[0]] + a[1..];
    }
  }

  lemma ChainNames()
    ensures "input" != "dstnat" && "input" != "prerouting" && "input" != "forward" && "input" != "postrouting"
    ensures "dstnat" != "prerouting" && "dstnat" != "forward" && "dstnat" != "postrouting"
    ensures "prerouting" != "forward" && "prerouting" != "postrouting" && "forward" != "postrouting"
  {
    assert "input"[0] == 'i' && "dstnat"[0] == 'd' && "prerouting"[0] == 'p' && "forward"[0] == 'f';
    assert "prerouting"[1] == 'r' && "postrouting"[1] == 'o';
  }

  lemma OneChain(x: Chain, name: string)
    ensures NoneNamed([x], name) <==> x.name != name
    ensures LinesIn([x], name) == if x.name == name then x.lines else []
  {
    assert x in [x] && [x][1..] == [];
  }

  lemma MaybeChain(present: bool, x: Chain, name: string)
    ensures NoneNamed(if present then [x] else [], name) <==> !present || x.name != name
    ensures LinesIn(if present then [x] else [], name) == if present && x.name == name then x.lines else []
  {
    OneChain(x, name);
  }

  lemma FiveChains(i: Chain, d: Chain, p: Chain, f: Chain, o: Chain, hasD: bool, hasO: bool, name: string)
    ensures var chains := [i] + (if hasD then [d] else []) + [p, f] + (if hasO then [o] else []);
            LinesIn(chains, name) ==
            if i.name == name then i.lines
            else if hasD && d.name == name then d.lines
            else if p.name == name then p.lines
            else if f.name == name then f.lines
            else if hasO && o.name == name then o.lines
            else []
  {
    var ds: seq<Chain>, os: seq<Chain> := if hasD then [d] else [], if hasO then [o] else [];
    assert [i] + ds + [p, f] + os == [i] + (ds + ([p] + ([f] + os)));
    OneChain(i, name);
    MaybeChain(hasD, d, name);
    OneChain(p, name);
    OneChain(f, name);
    MaybeChain(hasO, o, name);
    hide LinesIn;
    hide NoneNamed;
    LinesInConcat([i], ds + ([p] + ([f] + os)), name);
    LinesInConcat(ds, [p] + ([f] + os), name);
    LinesInConcat([p], [f] + os, name);
    LinesInConcat([f], os, name);
  }

  lemma NoDstNatLines(c: Config)
    requires c.security.portForwards == [] && c.security.oneToOne == []
    ensures DstNatLines(c) == []
  {
  }

  lemma LinesByName(c: Config, name: string)
    ensures LinesOf(TableOf(c), name) ==
            if "input" == name then InputLines(c)
            else if HasDstNat(c) && "dstnat" == name then DstNatLines(c)
            else if "prerouting" == name then PreroutingLines(c)
            else if "forward" == name then ForwardLines(c)
            else if c.security.nat_ && "postrouting" == name then PostroutingLines(c)
            else []
  {
    hide LinesIn;
    hide HasDstNat;
    hide InputLines;
    hide DstNatLines;
    hide PreroutingLines;
    hide ForwardLines;
    hide PostroutingLines;
    hide AllSetDecls;
    FiveChains(Chain("input", c.security.firewall, InputLines(c)), Chain("dstnat", false, DstNatLines(c)),
               Chain("prerouting", false, PreroutingLines(c)), Chain("forward", false, ForwardLines(c)),
               Chain("postrouting", false, PostroutingLines(c)), HasDstNat(c), c.security.nat_, name);
  }

  /** Each chain of the table holds the lines compiled for it; the two NAT chains are there only while NAT is on. */
  lemma {:induction false} TableChains(c: Config)
    ensures LinesOf(TableOf(c), "input") == InputLines(c)
    ensures LinesOf(TableOf(c), "prerouting") == PreroutingLines(c)
    ensures LinesOf(TableOf(c), "forward") == ForwardLines(c)
    ensures LinesOf(TableOf(c), "dstnat") == if c.security.nat_ then DstNatLines(c) else []
    ensures LinesOf(TableOf(c), "postrouting") == if c.security.nat_ then PostroutingLines(c) else []
  {
    ChainNames();
    if !HasDstNat(c) && c.security.nat_ {
      NoDstNatLines(c);
    }
    hide LinesOf;
    hide TableOf;
    hide InputLines;
    hide DstNatLines;
    hide PreroutingLines;
    hide ForwardLines;
    hide PostroutingLines;
    LinesByName(c, "input");
    LinesByName(c, "prerouting");
    LinesByName(c, "forward");
    LinesByName(c, "dstnat");
    LinesByName(c, "postrouting");
  }

  /** What the NAT chains decide; nothing while NAT is off. */
  lemma NatVerdicts(c: Config, p: Packet)
    ensures Verdict(c, "dstnat", p) ==
            if c.security.nat_ then FirstMatch(DstNatLines(c), p, TableSets(c.routing.sets)) else None
    ensures Verdict(c, "postrouting", p) ==
            if c.security.nat_ then FirstMatch(PostroutingLines(c), p, TableSets(c.routing.sets)) else None
  {
    TableChains(c);
    assert TableOf(c).sets == AllSetDecls(c.routing.sets);
    hide LinesOf;
    hide DeclareAll;
    hide AllSetDecls;
    hide TableOf;
    hide DstNatLines;
    hide PostroutingLines;
  }
}
