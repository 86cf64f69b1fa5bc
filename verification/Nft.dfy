/**
 The meaning of the generated ruleset: lines are a conjunction of atoms with a
 terminal action, and a chain is decided by its first matching line.
 */
module Nft {
  import opened Basics
  import opened Addresses
  import opened Config

  datatype ConnState = New | Established | Related | Invalid | Untracked

  datatype Packet = Packet(
    iif: string, oif: string, fam: Family, src: nat, dst: nat,
    proto: Protocol, sport: int, dport: int, ct: ConnState, mark: int)

  datatype Atom =
    | IifName(name: string)
    | OifName(name: string)
    | L4Proto(protos: seq<Protocol>)
    | SAddr(fam: Family, cidrs: seq<Cidr>)
    | DAddr(fam: Family, cidrs: seq<Cidr>)
    | DAddrNamed(fam: Family, setName: string)
    | SPort(proto: Protocol, ranges: seq<PortRange>)
    | DPort(proto: Protocol, ranges: seq<PortRange>)
    | CtState(states: set<ConnState>)
    | FamProto(fam: Family, proto: Protocol)

  datatype Action =
    | Accept
    | Drop
    | RejectWith
    | SetMarkAccept(mark: int)
    | Queue(num: int)
    | DnatTo(addr: nat)
    | DnatToTarget(text: string)
    | SnatTo(addr: nat)
    | Masquerade

  datatype Line = Line(matches: seq<Atom>, log: bool, action: Action, comment: string)

  datatype SetDecl = SetDecl(name: string, elements: seq<Cidr>)

  datatype Chain = Chain(name: string, policyDrop: bool, lines: seq<Line>)

  datatype Table = Table(sets: seq<SetDecl>, chains: seq<Chain>)

  /** Contents of the named sets; declaring a set again adds its elements. */
  type SetEnv = map<string, seq<Cidr>>

  function Elements(env: SetEnv, name: string): seq<Cidr> {
    if name in env then env[name] else []
  }

  function Declare(env: SetEnv, decl: SetDecl): SetEnv {
    env[decl.name := Elements(env, decl.name) + decl.elements]
  }

  function DeclareAll(decls: seq<SetDecl>): SetEnv {
    if decls == [] then map[] else
      Declare(DeclareAll(decls[..|decls| - 1]), decls[|decls| - 1])
  }

  predicate InPorts(ranges: seq<PortRange>, port: int) {
    exists r | r in ranges :: r.first <= port <= r.last
  }

  predicate Holds(a: Atom, p: Packet, env: SetEnv) {
    match a
    case IifName(name) => p.iif == name
    case OifName(name) => p.oif == name
    case L4Proto(protos) => p.proto in protos
    case SAddr(fam, cidrs) => p.fam == fam && InSome(cidrs, fam, p.src)
    case DAddr(fam, cidrs) => p.fam == fam && InSome(cidrs, fam, p.dst)
    case DAddrNamed(fam, name) => p.fam == fam && InSome(Elements(env, name), fam, p.dst)
    case SPort(proto, ranges) => p.proto == proto && InPorts(ranges, p.sport)
    case DPort(proto, ranges) => p.proto == proto && InPorts(ranges, p.dport)
    case CtState(states) => p.ct in states
    case FamProto(fam, proto) => p.fam == fam && p.proto == proto
  }

  /** A line's match part: every atom holds. */
  predicate All(atoms: seq<Atom>, p: Packet, env: SetEnv) {
    forall a | a in atoms :: Holds(a, p, env)
  }

  /** A list of alternative match parts: some alternative holds. */
  predicate Any(exprs: seq<seq<Atom>>, p: Packet, env: SetEnv) {
    exists e | e in exprs :: All(e, p, env)
  }

  /** The line that decides a packet: the first whose match part holds. */
  function FirstMatch(lines: seq<Line>, p: Packet, env: SetEnv): Option<Line> {
    if lines == [] then None
    else if All(lines[0].matches, p, env) then Some(lines[0])
    else FirstMatch(lines[1..], p, env)
  }

  lemma AllConcat(a: seq<Atom>, b: seq<Atom>, p: Packet, env: SetEnv)
    ensures All(a + b, p, env) <==> All(a, p, env) && All(b, p, env)
  {
    if All(a + b, p, env) {
      forall x | x in a ensures Holds(x, p, env) { assert x in a + b; }
      forall x | x in b ensures Holds(x, p, env) { assert x in a + b; }
    }
  }

  lemma FirstMatchConcat(a: seq<Line>, b: seq<Line>, p: Packet, env: SetEnv)
    ensures FirstMatch(a + b, p, env) ==
            match FirstMatch(a, p, env) case Some(l) => Some(l) case None => FirstMatch(b, p, env)
  {
    if a == [] {
      assert a + b == b;
    } else {
      assert (a + b)[1..] == a[1..] + b;
      FirstMatchConcat(a[1..], b, p, env);
    }
  }

  /** A named set holds exactly the elements of the declarations that carry its name. */
  lemma {:induction false} DeclaredElements(decls: seq<SetDecl>, name: string)
    ensures name in DeclareAll(decls) <==> exists d | d in decls :: d.name == name
    ensures forall c :: c in Elements(DeclareAll(decls), name) <==>
                        exists d | d in decls :: d.name == name && c in d.elements
  {
    if decls != [] {
      var init, last := decls[..|decls| - 1], decls[|decls| - 1];
      DeclaredElements(init, name);
      assert decls == init + [last];
      forall c
        ensures c in Elements(DeclareAll(decls), name) <==>
                exists d | d in decls :: d.name == name && c in d.elements
      {
        assert c in Elements(DeclareAll(decls), name) <==>
               c in Elements(DeclareAll(init), name) || (last.name == name && c in last.elements);
        assert last in decls && forall d | d in init :: d in decls;
      }
    }
  }

  // ----- blocks of lines

  function Flatten(blocks: seq<seq<Line>>): seq<Line> {
    if blocks == [] then [] else Flatten(blocks[..|blocks| - 1]) + blocks[|blocks| - 1]
  }

  /** Block k is the first with a matching line. */
  predicate FirstBlock(blocks: seq<seq<Line>>, k: nat, p: Packet, env: SetEnv) {
    && k < |blocks|
    && FirstMatch(blocks[k], p, env).Some?
    && forall j: nat :: j < k ==> FirstMatch(blocks[j], p, env) == None
  }

  lemma NothingMatches(p: Packet, env: SetEnv)
    ensures FirstMatch([], p, env) == None
  {
  }

  /** Flattening keeps first-match decisions: the first block with a match decides. */
  lemma {:induction false} FlattenDecides(blocks: seq<seq<Line>>, p: Packet, env: SetEnv) returns (k: nat)
    ensures FirstMatch(Flatten(blocks), p, env) == None ==>
              forall i: nat :: i < |blocks| ==> FirstMatch(blocks[i], p, env) == None
    ensures FirstMatch(Flatten(blocks), p, env) != None ==>
              FirstBlock(blocks, k, p, env) && FirstMatch(Flatten(blocks), p, env) == FirstMatch(blocks[k], p, env)
  {
    hide FirstMatch;
    k := 0;
    if blocks == [] {
      NothingMatches(p, env);
    } else {
      var init, last := blocks[..|blocks| - 1], blocks[|blocks| - 1];
      k := FlattenDecides(init, p, env);
      FirstMatchConcat(Flatten(init), last, p, env);
      if FirstMatch(Flatten(init), p, env) == None {
        k := |init|;
      }
    }
  }
}
