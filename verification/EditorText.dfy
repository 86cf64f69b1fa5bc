/**
 The text fields of the configuration editor: lists, port ranges, WAN members and
 key/value pairs are each printed into a text area and parsed back from it.
 */
module EditorText {
  import opened Basics
  import opened Numerals
  import opened Strings

  // ----- strings

  /** White space as `trim` sees it. */
  predicate IsSpace(c: char) {
    || c in {' ', '\t', '\n', '\r', '\U{000B}', '\U{000C}', '\U{00A0}', '\U{1680}', '\U{202F}', '\U{205F}', '\U{3000}'}
    || c in {'\U{2028}', '\U{2029}', '\U{FEFF}'}
    || '\U{2000}' <= c <= '\U{200A}'
  }

  predicate Trimmed(s: string) {
    s == "" || (!IsSpace(s[0]) && !IsSpace(s[|s| - 1]))
  }

  function TrimStart(s: string): string {
    if s != "" && IsSpace(s[0]) then TrimStart(s[1..]) else s
  }

  function TrimEnd(s: string): string {
    if s != "" && IsSpace(s[|s| - 1]) then TrimEnd(s[..|s| - 1]) else s
  }

  function Trim(s: string): string {
    TrimEnd(TrimStart(s))
  }

  lemma {:induction false} TrimStartPart(s: string)
    ensures exists k :: 0 <= k <= |s| && TrimStart(s) == s[k..]
    ensures TrimStart(s) == "" || !IsSpace(TrimStart(s)[0])
  {
    hide IsSpace;
    if s != "" && IsSpace(s[0]) {
      TrimStartPart(s[1..]);
      var k :| 0 <= k <= |s[1..]| && TrimStart(s[1..]) == s[1..][k..];
      assert s[1..][k..] == s[k + 1..];
    } else {
      assert s == s[0..];
    }
  }

  lemma {:induction false} TrimEndPart(s: string)
    ensures exists k :: 0 <= k <= |s| && TrimEnd(s) == s[..k]
    ensures TrimEnd(s) == "" || !IsSpace(TrimEnd(s)[|TrimEnd(s)| - 1])
  {
    hide IsSpace;
    if s != "" && IsSpace(s[|s| - 1]) {
      var init := s[..|s| - 1];
      TrimEndPart(init);
      var k :| 0 <= k <= |init| && TrimEnd(init) == init[..k];
      assert init[..k] == s[..k];
    } else {
      assert s == s[..|s|];
    }
  }

  /** Trimming yields a trimmed part of the text. */
  lemma TrimTrims(s: string)
    ensures Trimmed(Trim(s))
    ensures forall c :: c in Trim(s) ==> c in s
  {
    hide IsSpace;
    TrimStartPart(s);
    TrimEndPart(TrimStart(s));
  }

  lemma TrimmedIsFixed(s: string)
    requires Trimmed(s)
    ensures Trim(s) == s
  {
  }

  // ----- lists

  predicate IsListSep(c: char) {
    c == '\n' || c == ','
  }

  function FirstSep(s: string): nat {
    if s == "" || IsListSep(s[0]) then 0 else 1 + FirstSep(s[1..])
  }

  function SkipSeps(s: string): string {
    if s != "" && IsListSep(s[0]) then SkipSeps(s[1..]) else s
  }

  predicate SepFree(s: string) {
    forall c | c in s :: !IsListSep(c)
  }

  lemma {:induction false} FirstSepInRange(s: string)
    ensures FirstSep(s) <= |s|
    ensures FirstSep(s) < |s| ==> IsListSep(s[FirstSep(s)])
    ensures SepFree(s[..FirstSep(s)])
  {
    if s != "" && !IsListSep(s[0]) {
      FirstSepInRange(s[1..]);
      assert s[..FirstSep(s)] == [s[0]] + s[1..][..FirstSep(s[1..])];
    }
  }

  lemma {:induction false} SkipShortens(s: string)
    ensures |SkipSeps(s)| <= |s|
  {
    if s != "" && IsListSep(s[0]) {
      SkipShortens(s[1..]);
    }
  }

  /** Splitting at runs of separators. */
  function SplitRuns(s: string): seq<string>
    decreases |s|
  {
    FirstSepInRange(s);
    var i := FirstSep(s);
    if i == |s| then [s] else
      SkipShortens(s[i + 1..]);
      [s[..i]] + SplitRuns(SkipSeps(s[i + 1..]))
  }

  function TrimAll(xs: seq<string>): seq<string> {
    seq(|xs|, i requires 0 <= i < |xs| => Trim(xs[i]))
  }

  function NonEmpty(xs: seq<string>): seq<string> {
    if xs == [] then [] else (if xs[0] != "" then [xs[0]] else []) + NonEmpty(xs[1..])
  }

  function ParseList(value: string): seq<string> {
    NonEmpty(TrimAll(SplitRuns(value)))
  }

  function PrintList(items: seq<string>): string {
    Join(items, '\n')
  }

  /** What a parsed list item looks like. */
  predicate Clean(x: string) {
    x != "" && Trimmed(x) && SepFree(x)
  }

  lemma {:induction false} RunsAreFree(s: string)
    ensures forall x | x in SplitRuns(s) :: SepFree(x)
    decreases |s|
  {
    hide SepFree;
    FirstSepInRange(s);
    var i := FirstSep(s);
    if i < |s| {
      SkipShortens(s[i + 1..]);
      RunsAreFree(SkipSeps(s[i + 1..]));
    } else {
      assert s[..i] == s;
    }
  }

  lemma {:induction false} NonEmptyMembers(xs: seq<string>)
    ensures forall x :: x in NonEmpty(xs) <==> x in xs && x != ""
  {
    if xs != [] {
      NonEmptyMembers(xs[1..]);
      assert xs == [xs[0]] + xs[1..];
    }
  }

  lemma ParsedItemsAreClean(value: string)
    ensures forall x | x in ParseList(value) :: Clean(x)
  {
    var parts := SplitRuns(value);
    RunsAreFree(value);
    NonEmptyMembers(TrimAll(parts));
    hide Trim;
    hide Trimmed;
    forall x | x in ParseList(value) ensures Clean(x) {
      var k :| 0 <= k < |parts| && x == Trim(parts[k]);
      assert SepFree(parts[k]);
      TrimTrims(parts[k]);
    }
  }

  lemma {:induction false} FirstSepBehind(a: string, b: string)
    requires SepFree(a)
    ensures FirstSep(a) == |a|
    ensures FirstSep(a + "\n" + b) == |a|
  {
    if a != "" {
      assert (a + "\n" + b)[1..] == a[1..] + "\n" + b;
      FirstSepBehind(a[1..], b);
    } else {
      assert (a + "\n" + b)[0] == '\n';
    }
  }

  lemma {:induction false} RunsOfJoin(items: seq<string>)
    requires items != [] && forall x | x in items :: Clean(x)
    ensures SplitRuns(PrintList(items)) == items
    ensures PrintList(items) != "" && !IsListSep(PrintList(items)[0])
  {
    var head := items[0];
    assert Clean(head);
    assert head[0] in head;
    if |items| == 1 {
      FirstSepBehind(head, "");
    } else {
      var tail := PrintList(items[1..]);
      JoinCons(items, '\n');
      FirstSepBehind(head, tail);
      var s := head + "\n" + tail;
      assert s[..|head|] == head && s[|head| + 1..] == tail;
      RunsOfJoin(items[1..]);
      assert SkipSeps(tail) == tail;
    }
  }

  lemma {:induction false} NonEmptyKeeps(xs: seq<string>)
    requires forall x | x in xs :: x != ""
    ensures NonEmpty(xs) == xs
  {
    if xs != [] {
      assert xs[0] in xs;
      forall x | x in xs[1..] ensures x in xs {}
      NonEmptyKeeps(xs[1..]);
    }
  }

  lemma CleanListRoundTrip(items: seq<string>)
    requires forall x | x in items :: Clean(x)
    ensures ParseList(PrintList(items)) == items
  {
    hide IsSpace;
    if items == [] {
      assert SplitRuns("") == [""];
      TrimmedIsFixed("");
      assert TrimAll([""]) == [""];
    } else {
      RunsOfJoin(items);
      forall i | 0 <= i < |items| ensures Trim(items[i]) == items[i] {
        assert Clean(items[i]);
        TrimmedIsFixed(items[i]);
      }
      assert TrimAll(items) == items;
      NonEmptyKeeps(items);
    }
  }

  /** For every text, what was parsed from it survives any number of print and parse rounds. */
  lemma {:induction false} ListIsFixedAfterOnePrint(value: string)
    ensures ParseList(PrintList(ParseList(value))) == ParseList(value)
  {
    ParsedItemsAreClean(value);
    CleanListRoundTrip(ParseList(value));
  }

  // ----- numbers

  /** A number of the editor's language: not-a-number, or a value. */
  datatype Num = NaN | Val(x: real)

  /** Reading of the texts that are neither empty nor all digits: signs, fractions, exponents, prefixes. */
  type OtherNumbers = string -> Num

  function ToNumber(s: string, other: OtherNumbers): Num {
    if s == "" then Val(0.0)
    else if AllDigits(s) then
      (match Parse(s, 10) case Number(n) => Val(n as real) case NotANumber => NaN)
    else other(s)
  }

  predicate Truthy(n: Num) {
    n.Val? && n.x != 0.0
  }

  predicate Positive(n: Num) {
    n.Val? && n.x > 0.0
  }

  lemma DecimalReads(n: nat, other: OtherNumbers)
    ensures ToNumber(Decimal(n), other) == Val(n as real)
    ensures Trimmed(Decimal(n)) && SepFree(Decimal(n)) && Decimal(n) != "" && Free(Decimal(n), '-')
  {
    DecimalRoundTrip(n);
    PrintRoundTrip(n, 10);
    var s := Decimal(n);
    assert IsDigit(s[0]) && IsDigit(s[|s| - 1]);
    forall c | c in s ensures IsDigit(c) {}
  }

  // ----- port ranges

  datatype Range = Range(from: Num, to: Num)

  function ParseRange(item: string, other: OtherNumbers): Range {
    var parts := Split(item, '-');
    var from := ToNumber(Trim(parts[0]), other);
    var to := if |parts| > 1 then ToNumber(Trim(parts[1]), other) else NaN;
    Range(from, if Truthy(to) then to else from)
  }

  function ParseRanges(items: seq<string>, other: OtherNumbers): seq<Range> {
    if items == [] then [] else
      var r := ParseRange(items[0], other);
      (if Positive(r.from) && Positive(r.to) then [r] else []) + ParseRanges(items[1..], other)
  }

  function ParsePorts(value: string, other: OtherNumbers): seq<Range> {
    ParseRanges(ParseList(value), other)
  }

  datatype Ports = Ports(from: nat, to: nat)

  function PrintRange(r: Ports): string {
    if r.from == r.to then Decimal(r.from) else Decimal(r.from) + "-" + Decimal(r.to)
  }

  function PrintRanges(rs: seq<Ports>): seq<string> {
    seq(|rs|, i requires 0 <= i < |rs| => PrintRange(rs[i]))
  }

  function FormatPorts(rs: seq<Ports>): string {
    PrintList(PrintRanges(rs))
  }

  function Numbers(rs: seq<Ports>): seq<Range> {
    seq(|rs|, i requires 0 <= i < |rs| => Range(Val(rs[i].from as real), Val(rs[i].to as real)))
  }

  lemma RangeRoundTrip(r: Ports, other: OtherNumbers)
    requires r.from > 0 && r.to > 0
    ensures ParseRange(PrintRange(r), other) == Range(Val(r.from as real), Val(r.to as real))
    ensures Clean(PrintRange(r))
  {
    DecimalReads(r.from, other);
    DecimalReads(r.to, other);
    var a, b := Decimal(r.from), Decimal(r.to);
    TrimmedIsFixed(a);
    TrimmedIsFixed(b);
    hide Decimal;
    hide ToNumber;
    hide Trim;
    hide IsSpace;
    if r.from == r.to {
      SplitJoin([a], '-');
      assert Join([a], '-') == a;
    } else {
      SplitJoin([a, b], '-');
      assert [a, b][..1] == [a];
      assert Join([a, b], '-') == a + "-" + b;
    }
  }

  lemma {:induction false} RangesRoundTrip(rs: seq<Ports>, other: OtherNumbers)
    requires forall r | r in rs :: r.from > 0 && r.to > 0
    ensures ParseRanges(PrintRanges(rs), other) == Numbers(rs)
    ensures forall x | x in PrintRanges(rs) :: Clean(x)
  {
    hide PrintRange;
    hide ParseRange;
    hide Clean;
    if rs != [] {
      RangeRoundTrip(rs[0], other);
      RangesRoundTrip(rs[1..], other);
      assert PrintRanges(rs) == [PrintRange(rs[0])] + PrintRanges(rs[1..]);
      assert Numbers(rs) == [Range(Val(rs[0].from as real), Val(rs[0].to as real))] + Numbers(rs[1..]);
    }
  }

  /** Positive port ranges survive printing and parsing. */
  lemma {:induction false} PortsRoundTrip(rs: seq<Ports>, other: OtherNumbers)
    requires forall r | r in rs :: r.from > 0 && r.to > 0
    ensures ParsePorts(FormatPorts(rs), other) == Numbers(rs)
  {
    RangesRoundTrip(rs, other);
    CleanListRoundTrip(PrintRanges(rs));
  }

  // ----- WAN members

  datatype Member = Member(iface: string, gateway: string, weight: nat, priority: nat, healthcheck: string)

  datatype ParsedMember = ParsedMember(iface: string, gateway: string, weight: Num, priority: Num, healthcheck: string)

  function FieldOr(parts: seq<string>, i: nat, default_: string): string {
    if i < |parts| then parts[i] else default_
  }

  function ParseMember(line: string, other: OtherNumbers): ParsedMember {
    var parts := TrimAll(Split(line, ','));
    var weight, priority := FieldOr(parts, 2, "1"), FieldOr(parts, 3, "100");
    ParsedMember(parts[0], FieldOr(parts, 1, ""),
                 if weight == "" then Val(1.0) else ToNumber(weight, other),
                 if priority == "" then Val(100.0) else ToNumber(priority, other),
                 FieldOr(parts, 4, ""))
  }

  function ParseMemberLines(lines: seq<string>, other: OtherNumbers): seq<ParsedMember> {
    if lines == [] then [] else
      var m := ParseMember(lines[0], other);
      (if m.iface != "" then [m] else []) + ParseMemberLines(lines[1..], other)
  }

  function ParseWanMembers(value: string, other: OtherNumbers): seq<ParsedMember> {
    ParseMemberLines(Split(value, '\n'), other)
  }

  function OrDefault(n: nat, default_: nat): nat {
    if n == 0 then default_ else n
  }

  function MemberFields(m: Member): seq<string> {
    [m.iface, m.gateway, Decimal(OrDefault(m.weight, 1)), Decimal(OrDefault(m.priority, 100)), m.healthcheck]
  }

  function MemberLines(ms: seq<Member>): seq<string> {
    seq(|ms|, i requires 0 <= i < |ms| => Join(MemberFields(ms[i]), ','))
  }

  function FormatWanMembers(ms: seq<Member>): string {
    Join(MemberLines(ms), '\n')
  }

  /** A field without separators or surrounding white space. */
  predicate PlainField(s: string) {
    Trimmed(s) && SepFree(s)
  }

  predicate PlainMember(m: Member) {
    m.iface != "" && PlainField(m.iface) && PlainField(m.gateway) && PlainField(m.healthcheck)
  }

  /** The member with the defaults the printer fills in. */
  function Defaulted(m: Member): ParsedMember {
    ParsedMember(m.iface, m.gateway, Val(OrDefault(m.weight, 1) as real), Val(OrDefault(m.priority, 100) as real), m.healthcheck)
  }

  function AllDefaulted(ms: seq<Member>): seq<ParsedMember> {
    seq(|ms|, i requires 0 <= i < |ms| => Defaulted(ms[i]))
  }

  lemma {:induction false} JoinFree(xs: seq<string>, sep: char, c: char)
    requires c != sep && forall x | x in xs :: Free(x, c)
    ensures Free(Join(xs, sep), c)
  {
    if |xs| > 1 {
      var init, last := xs[..|xs| - 1], xs[|xs| - 1];
      assert last in xs;
      forall x | x in init ensures x in xs {}
      JoinFree(init, sep, c);
    }
  }

  lemma FieldsArePlain(m: Member, other: OtherNumbers)
    requires PlainMember(m)
    ensures forall x | x in MemberFields(m) :: PlainField(x)
    ensures ToNumber(Decimal(OrDefault(m.weight, 1)), other) == Val(OrDefault(m.weight, 1) as real)
    ensures ToNumber(Decimal(OrDefault(m.priority, 100)), other) == Val(OrDefault(m.priority, 100) as real)
    ensures Decimal(OrDefault(m.weight, 1)) != "" && Decimal(OrDefault(m.priority, 100)) != ""
  {
    DecimalReads(OrDefault(m.weight, 1), other);
    DecimalReads(OrDefault(m.priority, 100), other);
    hide Decimal;
    hide ToNumber;
    hide Trimmed;
    hide SepFree;
  }

  lemma PlainFieldFacts(x: string)
    requires PlainField(x)
    ensures Free(x, ',') && Free(x, '\n') && Trim(x) == x
  {
    TrimmedIsFixed(x);
    assert IsListSep(',') && IsListSep('\n');
  }

  lemma MemberRoundTrip(m: Member, other: OtherNumbers)
    requires PlainMember(m)
    ensures ParseMember(Join(MemberFields(m), ','), other) == Defaulted(m)
    ensures Free(Join(MemberFields(m), ','), '\n')
  {
    var fields := MemberFields(m);
    FieldsArePlain(m, other);
    hide PlainField;
    hide Trim;
    forall x | x in fields ensures Free(x, ',') && Free(x, '\n') && Trim(x) == x {
      PlainFieldFacts(x);
    }
    hide Free;
    hide ToNumber;
    hide Decimal;
    SplitJoin(fields, ',');
    JoinFree(fields, ',', '\n');
    hide Join;
    assert TrimAll(fields) == fields;
  }

  lemma {:induction false} MemberLinesRoundTrip(ms: seq<Member>, other: OtherNumbers)
    requires forall m | m in ms :: PlainMember(m)
    ensures ParseMemberLines(MemberLines(ms), other) == AllDefaulted(ms)
    ensures forall l | l in MemberLines(ms) :: Free(l, '\n')
  {
    hide ParseMember;
    hide MemberFields;
    hide Join;
    hide PlainField;
    hide Free;
    if ms != [] {
      MemberRoundTrip(ms[0], other);
      MemberLinesRoundTrip(ms[1..], other);
      assert MemberLines(ms) == [Join(MemberFields(ms[0]), ',')] + MemberLines(ms[1..]);
      assert AllDefaulted(ms) == [Defaulted(ms[0])] + AllDefaulted(ms[1..]);
    }
  }

  /** WAN members survive printing and parsing, with weight 0 read as 1 and priority 0 as 100. */
  lemma {:induction false} WanMembersRoundTrip(ms: seq<Member>, other: OtherNumbers)
    requires forall m | m in ms :: PlainMember(m)
    ensures ParseWanMembers(FormatWanMembers(ms), other) == AllDefaulted(ms)
  {
    if ms == [] {
      assert Split("", '\n') == [""];
      assert Split("", ',') == [""];
      TrimmedIsFixed("");
      assert TrimAll([""])[0] == "";
      assert ParseMemberLines([""], other) == [];
    } else {
      MemberLinesRoundTrip(ms, other);
      hide MemberFields;
      SplitJoin(MemberLines(ms), '\n');
    }
  }

  // ----- lists as they are typed

  predicate AllSeps(s: string) {
    forall i :: 0 <= i < |s| ==> s[i] == '\n' || s[i] == ','
  }

  /** A run of line breaks and commas between two items. */
  predicate IsRun(s: string) {
    s != "" && AllSeps(s)
  }

  /** An item as typed: perhaps with white space around it, and no separator inside. */
  predicate Typed(text: string, item: string) {
    SepFree(text) && Trim(text) == item && item != ""
  }

  /** The texts with a run of separators between each two. */
  function Lay(texts: seq<string>, runs: seq<string>): string
    requires |texts| == |runs| + 1
  {
    if runs == [] then texts[0] else texts[0] + runs[0] + Lay(texts[1..], runs[1..])
  }

  lemma {:induction false} SkipRun(run: string, rest: string)
    requires AllSeps(run)
    ensures SkipSeps(run + rest) == SkipSeps(rest)
  {
    if run == "" {
      assert run + rest == rest;
    } else {
      assert (run + rest)[1..] == run[1..] + rest;
      SkipRun(run[1..], rest);
    }
  }

  lemma {:induction false} SepBehind(a: string, c: char, b: string)
    requires SepFree(a) && IsListSep(c)
    ensures FirstSep(a) == |a| && FirstSep(a + [c] + b) == |a|
  {
    if a != "" {
      assert (a + [c] + b)[1..] == a[1..] + [c] + b;
      SepBehind(a[1..], c, b);
    } else {
      assert (a + [c] + b)[0] == c;
    }
  }

  /** A text, a run of separators and more: the text is the first part. */
  lemma OneRun(text: string, run: string, rest: string)
    requires SepFree(text) && IsRun(run)
    ensures SplitRuns(text + run + rest) == [text] + SplitRuns(SkipSeps(rest))
  {
    var s, c := text + run + rest, run[0];
    assert IsListSep(c);
    assert s == text + [c] + (run[1..] + rest);
    SepBehind(text, c, run[1..] + rest);
    assert s[..|text|] == text && s[|text| + 1..] == run[1..] + rest;
    SkipRun(run[1..], rest);
  }

  lemma LastText(text: string)
    requires SepFree(text)
    ensures SplitRuns(text) == [text]
  {
    SepBehind(text, ',', "");
  }

  lemma TypedStarts(text: string, item: string)
    requires Typed(text, item)
    ensures text != "" && !IsListSep(text[0])
  {
    hide IsSpace;
    if text == "" {
      TrimmedIsFixed("");
    } else {
      assert text[0] in text;
    }
  }

  lemma {:induction false} LaidParts(texts: seq<string>, runs: seq<string>, items: seq<string>, trail: string)
    requires |texts| == |runs| + 1 && |items| == |texts| && AllSeps(trail)
    requires (forall i :: 0 <= i < |texts| ==> Typed(texts[i], items[i])) && forall r | r in runs :: IsRun(r)
    ensures SplitRuns(Lay(texts, runs) + trail) == texts + (if trail == "" then [] else [""])
    ensures Lay(texts, runs) != "" && !IsListSep(Lay(texts, runs)[0])
    decreases |runs|
  {
    hide IsSpace;
    hide Trim;
    hide SplitRuns;
    TypedStarts(texts[0], items[0]);
    if runs == [] {
      assert texts == [texts[0]];
      if trail == "" {
        assert texts[0] + trail == texts[0];
        LastText(texts[0]);
      } else {
        OneRun(texts[0], trail, "");
        assert texts[0] + trail + "" == texts[0] + trail;
        LastText("");
      }
    } else {
      var rest := Lay(texts[1..], runs[1..]);
      assert runs[0] in runs;
      LaidParts(texts[1..], runs[1..], items[1..], trail);
      OneRun(texts[0], runs[0], rest + trail);
      assert Lay(texts, runs) + trail == texts[0] + runs[0] + (rest + trail);
      assert SkipSeps(rest + trail) == rest + trail;
      assert [texts[0]] + texts[1..] == texts;
    }
  }

  lemma {:induction false} NonEmptyConcat(a: seq<string>, b: seq<string>)
    ensures NonEmpty(a + b) == NonEmpty(a) + NonEmpty(b)
  {
    if a == [] {
      assert a + b == b;
    } else {
      assert (a + b)[1..] == a[1..] + b;
      NonEmptyConcat(a[1..], b);
    }
  }

  lemma TypedItems(texts: seq<string>, items: seq<string>, more: bool)
    requires |items| == |texts| && forall i :: 0 <= i < |texts| ==> Typed(texts[i], items[i])
    ensures NonEmpty(TrimAll(texts + (if more then [""] else []))) == items
  {
    hide IsSpace;
    var tail: seq<string> := if more then [""] else [];
    TrimmedIsFixed("");
    assert TrimAll(texts + tail) == items + tail by {
      hide Trim;
    }
    forall x | x in items ensures x != "" {
      var i :| 0 <= i < |items| && items[i] == x;
      assert Typed(texts[i], items[i]);
    }
    NonEmptyKeeps(items);
    NonEmptyConcat(items, tail);
    assert NonEmpty(tail) == [];
    assert items + [] == items;
  }

  lemma LeadingRun(lead: string, body: string)
    requires IsRun(lead) && body != "" && !IsListSep(body[0])
    ensures SplitRuns(lead + body) == [""] + SplitRuns(body)
  {
    OneRun("", lead, body);
    assert "" + lead + body == lead + body;
    assert SkipSeps(body) == body;
  }

  /**
   Items typed with any line breaks and commas between them, before and behind, and any white
   space around them, are read in order.
   */
  lemma {:induction false} TypedListReads(texts: seq<string>, runs: seq<string>, items: seq<string>, lead: string, trail: string)
    requires |texts| == |runs| + 1 && |items| == |texts| && AllSeps(lead) && AllSeps(trail)
    requires (forall i :: 0 <= i < |texts| ==> Typed(texts[i], items[i])) && forall r | r in runs :: IsRun(r)
    ensures ParseList(lead + (Lay(texts, runs) + trail)) == items
  {
    hide IsSpace;
    hide Trim;
    hide SplitRuns;
    var body := Lay(texts, runs) + trail;
    LaidParts(texts, runs, items, trail);
    hide Typed;
    TypedItems(texts, items, trail != "");
    if lead == "" {
      assert lead + body == body;
    } else {
      LeadingRun(lead, body);
      var parts := texts + (if trail != "" then [""] else []);
      TrimmedIsFixed("");
      assert TrimAll([""] + parts) == [Trim("")] + TrimAll(parts);
      assert ([Trim("")] + TrimAll(parts))[1..] == TrimAll(parts);
    }
  }

  // ----- single lines as they are typed

  /** `from-to` is a range; a single number, or a number up to zero, is the range of itself. */
  lemma {:induction false} RangeReads(from: nat, to: nat, other: OtherNumbers)
    ensures ParseRange(Decimal(from) + "-" + Decimal(to), other) ==
            Range(Val(from as real), Val(if to > 0 then to as real else from as real))
    ensures ParseRange(Decimal(from), other) == Range(Val(from as real), Val(from as real))
  {
    var a, b := Decimal(from), Decimal(to);
    DecimalReads(from, other);
    DecimalReads(to, other);
    TrimmedIsFixed(a);
    TrimmedIsFixed(b);
    hide Decimal;
    hide ToNumber;
    hide Trim;
    hide IsSpace;
    SplitJoin([a, b], '-');
    SplitJoin([a], '-');
    assert [a, b][..1] == [a];
    assert Join([a], '-') == a && Join([a, b], '-') == a + "-" + b;
  }

  /** The ports read are exactly the positive ranges among the items. */
  lemma {:induction false} PositiveRangesKept(items: seq<string>, other: OtherNumbers, r: Range)
    ensures r in ParseRanges(items, other) <==>
            && r.from.Val? && r.to.Val? && r.from.x > 0.0 && r.to.x > 0.0
            && exists item | item in items :: ParseRange(item, other) == r
  {
    hide ParseRange;
    if items != [] {
      PositiveRangesKept(items[1..], other, r);
      assert items == [items[0]] + items[1..];
    }
  }

  /** The members read are exactly those of the lines that name an interface. */
  lemma {:induction false} NamedMembersKept(lines: seq<string>, other: OtherNumbers, m: ParsedMember)
    ensures m in ParseMemberLines(lines, other) <==>
            m.iface != "" && exists line | line in lines :: ParseMember(line, other) == m
  {
    hide ParseMember;
    if lines != [] {
      NamedMembersKept(lines[1..], other, m);
      assert lines == [lines[0]] + lines[1..];
    }
  }

  lemma JoinFive(a: string, b: string, c: string, d: string, e: string)
    ensures Join([a, b, c, d, e], ',') == a + "," + b + "," + c + "," + d + "," + e
  {
    var xs := [a, b, c, d, e];
    assert xs[..4] == [a, b, c, d] && [a, b, c, d][..3] == [a, b, c] && [a, b, c][..2] == [a, b] && [a, b][..1] == [a];
    assert Join([a], ',') == a;
    assert Join([a, b], ',') == a + "," + b;
    assert Join([a, b, c], ',') == a + "," + b + "," + c;
    assert Join([a, b, c, d], ',') == a + "," + b + "," + c + "," + d;
  }

  lemma BareMember(iface: string, other: OtherNumbers)
    requires PlainField(iface)
    ensures ParseMember(iface, other) == ParsedMember(iface, "", Val(1.0), Val(100.0), "")
  {
    PlainFieldFacts(iface);
    SplitJoin([iface], ',');
    assert Join([iface], ',') == iface;
    hide Trim;
    assert TrimAll([iface]) == [iface];
    assert Decimal(1) == "1" && AllDigits("1") && Parse("1", 10) == Number(1);
    assert "100"[..2] == "10" && "10"[..1] == "1" && Parse("10", 10) == Number(10) && Parse("100", 10) == Number(100);
    assert AllDigits("100");
  }

  /** A line holds interface, gateway, weight, priority and health check; a bare interface gets weight 1 and priority 100. */
  lemma {:induction false} MemberLineReads(m: Member, other: OtherNumbers)
    requires PlainMember(m) && m.weight > 0 && m.priority > 0
    ensures var line := m.iface + "," + m.gateway + "," + Decimal(m.weight) + "," + Decimal(m.priority) + "," + m.healthcheck;
            ParseMember(line, other) ==
            ParsedMember(m.iface, m.gateway, Val(m.weight as real), Val(m.priority as real), m.healthcheck)
    ensures ParseMember(m.iface, other) == ParsedMember(m.iface, "", Val(1.0), Val(100.0), "")
  {
    MemberRoundTrip(m, other);
    JoinFive(m.iface, m.gateway, Decimal(m.weight), Decimal(m.priority), m.healthcheck);
    BareMember(m.iface, other);
    hide ParseMember;
    hide Join;
    hide Decimal;
  }

  // ----- key/value pairs

  const PROTOTYPE_KEY := "__proto__"

  /** Assigning a text to a property: the prototype accessor ignores it. */
  function Assign(acc: map<string, string>, key: string, value: string): map<string, string> {
    if key == PROTOTYPE_KEY then acc else acc[key := value]
  }

  function AddLine(acc: map<string, string>, line: string): map<string, string> {
    var trimmed := Trim(line);
    FindInRange(trimmed, '=');
    var index := Find(trimmed, '=');
    if trimmed == "" then acc
    else if index == |trimmed| then Assign(acc, trimmed, "")
    else Assign(acc, Trim(trimmed[..index]), Trim(trimmed[index + 1..]))
  }

  function AddLines(lines: seq<string>): map<string, string> {
    if lines == [] then map[] else AddLine(AddLines(lines[..|lines| - 1]), lines[|lines| - 1])
  }

  method ParseKV(value: string) returns (acc: map<string, string>)
    ensures acc == AddLines(Split(value, '\n'))
  {
    hide Trim;
    acc := map[];
    var lines := Split(value, '\n');
    for i := 0 to |lines|
      invariant acc == AddLines(lines[..i])
    {
      assert lines[..i + 1][..i] == lines[..i];
      var trimmed := Trim(lines[i]);
      if trimmed == "" {
        continue;
      }
      FindInRange(trimmed, '=');
      var index := Find(trimmed, '=');
      if index == |trimmed| {
        acc := Assign(acc, trimmed, "");
        continue;
      }
      acc := Assign(acc, Trim(trimmed[..index]), Trim(trimmed[index + 1..]));
    }
    assert lines[..|lines|] == lines;
  }

  datatype Entry = Entry(key: string, value: string)

  function EntryLine(e: Entry): string {
    e.key + "=" + e.value
  }

  function EntryLines(es: seq<Entry>): seq<string> {
    seq(|es|, i requires 0 <= i < |es| => EntryLine(es[i]))
  }

  /** The field's text for an object whose properties are listed in some order. */
  function PrintKV(es: seq<Entry>): string {
    Join(EntryLines(es), '\n')
  }

  function ObjectOf(es: seq<Entry>): map<string, string> {
    if es == [] then map[] else ObjectOf(es[..|es| - 1])[es[|es| - 1].key := es[|es| - 1].value]
  }

  /** Keys and values without line breaks or surrounding white space, and no equals sign in a key. */
  predicate PlainEntry(e: Entry) {
    Trimmed(e.key) && Trimmed(e.value) && Free(e.key, '\n') && Free(e.value, '\n') && Free(e.key, '=')
  }

  lemma EntryRoundTrip(acc: map<string, string>, e: Entry)
    requires PlainEntry(e)
    ensures AddLine(acc, EntryLine(e)) == Assign(acc, e.key, e.value)
    ensures Free(EntryLine(e), '\n')
  {
    var line := EntryLine(e);
    assert line[0] == (if e.key == "" then '=' else e.key[0]);
    assert line[|line| - 1] == (if e.value == "" then '=' else e.value[|e.value| - 1]);
    TrimmedIsFixed(line);
    TrimmedIsFixed(e.key);
    TrimmedIsFixed(e.value);
    FindBehind(e.key, '=', e.value);
    assert line[..|e.key|] == e.key && line[|e.key| + 1..] == e.value;
  }

  /** `key=value` assigns the value, and a bare key the empty text; the first equals sign counts. */
  lemma {:induction false} EntryReads(acc: map<string, string>, e: Entry)
    requires PlainEntry(e) && e.key != PROTOTYPE_KEY
    ensures AddLine(acc, e.key + "=" + e.value) == acc[e.key := e.value]
    ensures e.key != "" ==> AddLine(acc, e.key) == acc[e.key := ""]
  {
    EntryRoundTrip(acc, e);
    TrimmedIsFixed(e.key);
    FindBehind(e.key, '=', "");
    hide Trim;
  }

  lemma {:induction false} EntriesRoundTrip(es: seq<Entry>)
    requires forall e | e in es :: PlainEntry(e)
    ensures AddLines(EntryLines(es)) == ObjectOf(es) - {PROTOTYPE_KEY}
    ensures forall l | l in EntryLines(es) :: Free(l, '\n')
  {
    hide AddLine;
    hide EntryLine;
    hide PlainEntry;
    hide Free;
    if es != [] {
      var init, last := es[..|es| - 1], es[|es| - 1];
      EntriesRoundTrip(init);
      EntryRoundTrip(ObjectOf(init) - {PROTOTYPE_KEY}, last);
      assert EntryLines(es) == EntryLines(init) + [EntryLine(last)];
      assert EntryLines(es)[..|es| - 1] == EntryLines(init);
    }
  }

  lemma {:induction false} ObjectKeys(es: seq<Entry>, key: string)
    ensures key in ObjectOf(es) <==> exists e | e in es :: e.key == key
  {
    if es != [] {
      var init, last := es[..|es| - 1], es[|es| - 1];
      assert es == init + [last];
      ObjectKeys(init, key);
    }
  }

  /** Key/value text round-trips if and only if no key is the prototype accessor. */
  lemma {:induction false} KeyValuesRoundTripIff(es: seq<Entry>)
    requires forall e | e in es :: PlainEntry(e)
    ensures AddLines(Split(PrintKV(es), '\n')) == ObjectOf(es) <==> forall e | e in es :: e.key != PROTOTYPE_KEY
  {
    EntriesRoundTrip(es);
    ObjectKeys(es, PROTOTYPE_KEY);
    hide EntryLine;
    hide PlainEntry;
    if es == [] {
      assert Split("", '\n') == [""];
      TrimmedIsFixed("");
      assert AddLines([""]) == AddLine(map[], "");
    } else {
      SplitJoin(EntryLines(es), '\n');
      var o := ObjectOf(es);
      assert PROTOTYPE_KEY !in o ==> o - {PROTOTYPE_KEY} == o;
      assert PROTOTYPE_KEY in o ==> PROTOTYPE_KEY !in o - {PROTOTYPE_KEY};
    }
  }
}
