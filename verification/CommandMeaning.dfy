/**
 What emitted commands mean: `ip` argument lists and `sh -c` scripts are read back as
 kernel steps, and executing a plan on the kernel model is running the steps it means.
 */
module CommandMeaning {
  import opened Basics
  import opened Addresses
  import opened Config
  import opened Numerals
  import opened Strings
  import opened StepReadings
  import opened Kernel
  import opened RoutingPlan
  import E = Execution

  /** How the configuration spells prefixes and gateways, and how `ip` reads them. */
  datatype Spelling = Spelling(
    dest: Cidr -> string, addr: Gateway -> string,
    readDest: string -> Cidr, readAddr: string -> Gateway)

  /** Well-formed prefixes and gateways are read back; no prefix is spelled `default`. */
  ghost predicate Consistent(sp: Spelling) {
    && (forall c: Cidr | c.Cidr? :: sp.readDest(sp.dest(c)) == c && sp.dest(c) != "default")
    && (forall g: Gateway | g.Via? :: sp.readAddr(sp.addr(g)) == g)
  }

  /** A keyword with its value, or nothing. */
  function Pair(present: bool, key: string, value: string): seq<string> {
    if present then [key, value] else []
  }

  lemma PairPresent(key: string, value: string)
    ensures Pair(true, key, value) == [key, value]
  {
  }

  // ----- reading `ip route` commands

  datatype Fields = Fields(via: Gateway, dev: string, table: int, metric: int, hops: seq<Nexthop>)

  const NO_FIELDS := Fields(NoGateway, "", MAIN_TABLE, 0, [])
  const NO_HOP := Nexthop(NoGateway, "", 1)

  function SetField(f: Fields, key: string, value: string, sp: Spelling): Option<Fields> {
    if key == "via" then Some(f.(via := sp.readAddr(value)))
    else if key == "dev" then Some(f.(dev := value))
    else if key == "table" && ParseInt(value).Int? then Some(f.(table := ParseInt(value).value))
    else if key == "metric" && ParseInt(value).Int? then Some(f.(metric := ParseInt(value).value))
    else None
  }

  function SetHop(h: Nexthop, key: string, value: string, sp: Spelling): Option<Nexthop> {
    if key == "via" then Some(h.(gateway := sp.readAddr(value)))
    else if key == "dev" then Some(h.(dev := value))
    else if key == "weight" && ParseInt(value).Int? then Some(h.(weight := ParseInt(value).value))
    else None
  }

  /** The nexthops behind the first `nexthop` keyword. */
  function ReadHops(args: seq<string>, done: seq<Nexthop>, open: Nexthop, sp: Spelling): Option<seq<Nexthop>> {
    if args == [] then Some(done + [open])
    else if args[0] == "nexthop" then ReadHops(args[1..], done + [open], NO_HOP, sp)
    else if |args| == 1 then None
    else match SetHop(open, args[0], args[1], sp)
      case None => None
      case Some(h) => ReadHops(args[2..], done, h, sp)
  }

  function ReadFields(args: seq<string>, f: Fields, sp: Spelling): Option<Fields> {
    if args == [] then Some(f)
    else if args[0] == "nexthop" then
      (match ReadHops(args[1..], [], NO_HOP, sp)
       case None => None
       case Some(hops) => Some(f.(hops := hops)))
    else if |args| == 1 then None
    else match SetField(f, args[0], args[1], sp)
      case None => None
      case Some(g) => ReadFields(args[2..], g, sp)
  }

  function HopsOf(f: Fields): seq<Nexthop> {
    if f.hops == [] then [Nexthop(f.via, f.dev, 1)] else f.hops
  }

  /** A default route belongs to the family of its first gateway. */
  function ReadDefault(f: Fields): Step {
    var fam := HopsFamily(HopsOf(f));
    ReplaceRoute(RouteKey(fam, f.table, DEFAULT_DEST, RouteMetric(fam, f.metric)), HopsOf(f))
  }

  function ReadTo(c: Cidr, f: Fields): Step {
    var fam := if c.Cidr? then c.fam else V4;
    ReplaceRoute(RouteKey(fam, f.table, StaticDest(c), RouteMetric(fam, f.metric)), HopsOf(f))
  }

  function ReadRoute(args: seq<string>, sp: Spelling): Option<Step> {
    if |args| < 3 || args[0] != "route" || args[1] != "replace" then None else
      match ReadFields(args[3..], NO_FIELDS, sp)
      case None => None
      case Some(f) => Some(if args[2] == "default" then ReadDefault(f) else ReadTo(sp.readDest(args[2]), f))
  }

  lemma ReadPair(present: bool, key: string, value: string, rest: seq<string>, f: Fields, sp: Spelling)
    requires present ==> key != "nexthop" && SetField(f, key, value, sp).Some?
    ensures ReadFields(Pair(present, key, value) + rest, f, sp) ==
            ReadFields(rest, if present then SetField(f, key, value, sp).value else f, sp)
  {
    if present {
      assert ([key, value] + rest)[2..] == rest;
    } else {
      assert [] + rest == rest;
    }
  }

  lemma ReadHopPair(
    present: bool, key: string, value: string, rest: seq<string>, done: seq<Nexthop>, h: Nexthop, sp: Spelling)
    requires present ==> key != "nexthop" && SetHop(h, key, value, sp).Some?
    ensures ReadHops(Pair(present, key, value) + rest, done, h, sp) ==
            ReadHops(rest, done, if present then SetHop(h, key, value, sp).value else h, sp)
  {
    if present {
      assert ([key, value] + rest)[2..] == rest;
    } else {
      assert [] + rest == rest;
    }
  }

  lemma ReadNothing(f: Fields, sp: Spelling)
    ensures ReadFields([], f, sp) == Some(f)
  {
  }

  // ----- reading the other `ip` commands

  function ReadLinkSet(args: seq<string>): Option<Step> {
    if |args| == 6 && args[..3] == ["link", "set", "dev"] && args[4] == "mtu" && ParseInt(args[5]).Int?
    then Some(SetMtu(args[3], ParseInt(args[5]).value))
    else if |args| == 5 && args[..3] == ["link", "set", "dev"] && args[4] == "up" then Some(SetUp(args[3]))
    else None
  }

  function ReadAddress(args: seq<string>, sp: Spelling): Option<Step> {
    if |args| == 5 && args[1] == "replace" && args[3] == "dev" then Some(ReplaceAddress(args[4], sp.readDest(args[2])))
    else None
  }

  function ReadIp(args: seq<string>, sp: Spelling): Option<Step> {
    if args == [] then None
    else if args[0] == "route" then ReadRoute(args, sp)
    else if args[0] == "link" then ReadLinkSet(args)
    else if args[0] == "address" then ReadAddress(args, sp)
    else None
  }

  lemma MtuRead(name: string, mtu: int, sp: Spelling)
    ensures ReadIp(["link", "set", "dev", name, "mtu", IntText(mtu)], sp) == Some(SetMtu(name, mtu))
  {
    IntRoundTrip(mtu);
    hide IntText;
    hide ParseInt;
    var args := ["link", "set", "dev", name, "mtu", IntText(mtu)];
    assert args[..3] == ["link", "set", "dev"];
    assert args[0] != "route";
  }

  lemma UpRead(name: string, sp: Spelling)
    ensures ReadIp(["link", "set", "dev", name, "up"], sp) == Some(SetUp(name))
  {
    var args := ["link", "set", "dev", name, "up"];
    assert args[..3] == ["link", "set", "dev"];
    assert args[0] != "route";
  }

  lemma AddressRead(name: string, c: Cidr, sp: Spelling)
    requires Consistent(sp) && c.Cidr?
    ensures ReadIp(["address", "replace", sp.dest(c), "dev", name], sp) == Some(ReplaceAddress(name, c))
  {
    var args := ["address", "replace", sp.dest(c), "dev", name];
    assert args[0] != "route" && args[0] != "link";
  }

  // ----- the effect of a planned step

  /** Commands of these programs act on the modelled kernel; every other program leaves it alone. */
  predicate ActsOnKernel(c: E.Command) {
    c.program == "ip" || c.program == "sh"
  }

  function KernelStep(c: E.Command, sp: Spelling): Option<Step> {
    if c.program == "ip" then ReadIp(c.args, sp)
    else if c.program == "sh" && |c.args| == 2 && c.args[0] == "-c" then Reading(c.args[1])
    else None
  }

  /** The kernel steps a planned step stands for: none, one, or not understood. */
  function Effect(x: E.Step, sp: Spelling): Option<seq<Step>> {
    match x.kind
    case IsWarning => Some([])
    case WritesFile => Some([])
    case OtherKind(_) => None
    case RunsCommand =>
      if x.command == None || x.command.value.program == "" then None
      else if !ActsOnKernel(x.command.value) then Some([])
      else match KernelStep(x.command.value, sp)
        case None => None
        case Some(st) => Some([st])
  }

  function Effects(xs: seq<E.Step>, sp: Spelling): Option<seq<Step>> {
    if xs == [] then Some([]) else
      match Effects(xs[..|xs| - 1], sp)
      case None => None
      case Some(front) =>
        match Effect(xs[|xs| - 1], sp)
        case None => None
        case Some(last) => Some(front + last)
  }

  lemma {:induction false} EffectsConcat(a: seq<E.Step>, b: seq<E.Step>, x: seq<Step>, y: seq<Step>, sp: Spelling)
    requires Effects(a, sp) == Some(x) && Effects(b, sp) == Some(y)
    ensures Effects(a + b, sp) == Some(x + y)
    decreases |b|
  {
    hide Effect;
    if b == [] {
      assert a + b == a && x + y == x;
    } else {
      var init, last := b[..|b| - 1], b[|b| - 1];
      var front, more := Effects(init, sp).value, Effect(last, sp).value;
      EffectsConcat(a, init, x, front, sp);
      assert (a + b)[..|a + b| - 1] == a + init;
      assert x + (front + more) == (x + front) + more;
    }
  }

  lemma EffectsOne(x: E.Step, sp: Spelling)
    requires Effect(x, sp).Some?
    ensures Effects([x], sp) == Effect(x, sp)
  {
    assert [x][..0] == [];
    assert [] + Effect(x, sp).value == Effect(x, sp).value;
  }

  lemma EffectsSnoc(a: seq<E.Step>, last: E.Step, x: seq<Step>, y: seq<Step>, sp: Spelling)
    requires Effects(a, sp) == Some(x) && Effect(last, sp) == Some(y)
    ensures Effects(a + [last], sp) == Some(x + y)
  {
    hide Effect;
    assert (a + [last])[..|a|] == a;
  }

  // ----- execution on the kernel model

  /** The rest of the host: which other commands and which writes succeed. */
  datatype Host = Host(runs: E.Command -> bool, writes: (string, string, string) -> bool)

  /** A command acts on the kernel as the step it means; one that is not understood is refused. */
  function RunOn(w: State, c: E.Command, sp: Spelling, host: Host): E.Exit<State> {
    if !ActsOnKernel(c) then E.Exit(w, "", None, if host.runs(c) then None else Some("failed"))
    else match KernelStep(c, sp)
      case None => E.Exit(w, "", None, Some("not understood"))
      case Some(st) =>
        match Do(w, st)
        case None => E.Exit(w, "", None, Some("refused"))
        case Some(t) => E.Exit(t, "", None, None)
  }

  function KernelEnv(sp: Spelling, host: Host): E.Env<State> {
    E.Env((w: State, c: E.Command) => RunOn(w, c, sp, host),
          (w: State, path, mode, content) => E.Written(w, if host.writes(path, mode, content) then None else Some("failed")))
  }

  /** The host lets the step through. */
  predicate Granted(x: E.Step, host: Host) {
    match x.kind
    case RunsCommand => x.command.Some? && !ActsOnKernel(x.command.value) ==> host.runs(x.command.value)
    case WritesFile => host.writes(x.path, x.mode, x.content)
    case _ => true
  }

  predicate AllGranted(xs: seq<E.Step>, host: Host) {
    forall x | x in xs :: Granted(x, host)
  }

  lemma {:induction false} RunConcat(s: State, a: seq<Step>, b: seq<Step>)
    ensures Run(s, a + b) == match Run(s, a) case None => None case Some(t) => Run(t, b)
    decreases |b|
  {
    hide Do;
    if b == [] {
      assert a + b == a;
    } else {
      assert (a + b)[..|a + b| - 1] == a + b[..|b| - 1];
      RunConcat(s, a, b[..|b| - 1]);
    }
  }

  lemma RunOne(s: State, st: Step)
    ensures Run(s, [st]) == Do(s, st)
  {
    hide Do;
    assert [st][..0] == [];
  }

  lemma RunNothing(w: State)
    ensures Run(w, []) == Some(w)
  {
  }

  lemma PerformMeant(w: State, x: E.Step, sp: Spelling, host: Host)
    requires Effect(x, sp).Some?
    ensures var a, r := E.Perform(KernelEnv(sp, host), w, x), Run(w, Effect(x, sp).value);
            && (a.error == None <==> r.Some? && Granted(x, host))
            && (a.error == None ==> a.world == r.value)
  {
    hide Do;
    hide KernelStep;
    hide Run;
    RunNothing(w);
    if x.kind == E.RunsCommand && ActsOnKernel(x.command.value) {
      RunOne(w, KernelStep(x.command.value, sp).value);
    }
  }

  /**
   Executing a plan succeeds exactly when its kernel steps do and the host lets the rest
   through, and then leaves the same kernel state.
   */
  lemma {:induction false} ExecutionRefinesRun(s: State, xs: seq<E.Step>, sp: Spelling, host: Host)
    requires Effects(xs, sp).Some?
    ensures var t, r := E.Exec(KernelEnv(sp, host), false, s, xs), Run(s, Effects(xs, sp).value);
            && (t.error == None <==> r.Some? && AllGranted(xs, host))
            && (t.error == None ==> t.world == r.value)
  {
    hide Effect;
    hide KernelEnv;
    hide E.Perform;
    hide Granted;
    hide Run;
    if xs == [] {
      RunNothing(s);
    } else {
      var init, last := xs[..|xs| - 1], xs[|xs| - 1];
      assert xs == init + [last];
      ExecutionRefinesRun(s, init, sp, host);
      RunConcat(s, Effects(init, sp).value, Effect(last, sp).value);
      var t := E.Exec(KernelEnv(sp, host), false, s, init);
      assert AllGranted(xs, host) <==> AllGranted(init, host) && Granted(last, host);
      if t.error == None {
        PerformMeant(t.world, last, sp, host);
      }
    }
  }

  // ----- a consistent spelling

  function FamilyDigit(fam: Family): string {
    if fam == V4 then "4" else "6"
  }

  function ReadFamily(c: char): Family {
    if c == '4' then V4 else V6
  }

  function PlainDest(c: Cidr): string {
    match c
    case Cidr(fam, addr, bits) => FamilyDigit(fam) + Join([Decimal(addr), Decimal(bits)], '/')
    case Unparsed(text) => text
  }

  function ReadPlainDest(s: string): Cidr {
    if s == "" then Unparsed(s) else
      var fam, parts := ReadFamily(s[0]), Split(s[1..], '/');
      if |parts| != 2 then Unparsed(s) else
        match (Parse(parts[0], 10), Parse(parts[1], 10))
        case (Number(a), Number(b)) =>
          if b <= Width(fam) && a < Pow2(Width(fam)) then Cidr(fam, a, b) else Unparsed(s)
        case _ => Unparsed(s)
  }

  function PlainAddr(g: Gateway): string {
    if g.Via? then FamilyDigit(g.fam) + Decimal(g.addr) else ""
  }

  function ReadPlainAddr(s: string): Gateway {
    if s == "" then NoGateway else
      match Parse(s[1..], 10) case Number(a) => Via(ReadFamily(s[0]), a) case NotANumber => BadGateway(s)
  }

  lemma DecimalIsFree(n: nat)
    ensures Parse(Decimal(n), 10) == Number(n) && Free(Decimal(n), '/')
  {
    PrintRoundTrip(n, 10);
    DecimalDigits(n);
    hide Print;
    hide Parse;
  }

  lemma PlainDestRoundTrip(c: Cidr)
    requires c.Cidr?
    ensures ReadPlainDest(PlainDest(c)) == c && PlainDest(c) != "default"
  {
    DecimalIsFree(c.addr);
    DecimalIsFree(c.bits);
    hide Decimal;
    hide Parse;
    hide Pow2;
    hide Split;
    hide Free;
    var pair := [Decimal(c.addr), Decimal(c.bits)];
    SplitJoin(pair, '/');
    hide Join;
    var s := PlainDest(c);
    assert s[0] == (if c.fam == V4 then '4' else '6') && s[1..] == Join(pair, '/');
    assert "default"[0] == 'd';
  }

  lemma PlainAddrRoundTrip(g: Gateway)
    requires g.Via?
    ensures ReadPlainAddr(PlainAddr(g)) == g
  {
    PrintRoundTrip(g.addr, 10);
    hide Decimal;
    hide Parse;
    assert PlainAddr(g)[1..] == Decimal(g.addr);
  }

  /** There is a consistent spelling. */
  lemma {:induction false} SomeSpellingIsConsistent()
    ensures exists sp: Spelling :: Consistent(sp)
  {
    var sp := Spelling(PlainDest, PlainAddr, ReadPlainDest, ReadPlainAddr);
    forall c: Cidr | c.Cidr? ensures sp.readDest(sp.dest(c)) == c && sp.dest(c) != "default" {
      PlainDestRoundTrip(c);
    }
    forall g: Gateway | g.Via? ensures sp.readAddr(sp.addr(g)) == g {
      PlainAddrRoundTrip(g);
    }
    assert Consistent(sp);
  }
}
