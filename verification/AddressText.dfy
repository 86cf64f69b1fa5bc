/**
 Address texts, and the target a port forward prints: an address, a colon and a port, read
 back by taking the longest address first. Section 2.2 of RFC 4291 describes the IPv6 texts.
 */
module AddressText {
  import opened Basics
  import opened Strings
  import opened Numerals

  // ----- address texts

  /** A number up to 255 without a leading zero. */
  predicate IsOctet(s: string) {
    && 1 <= |s| <= 3
    && (|s| > 1 ==> s[0] != '0')
    && Parse(s, 10).Number? && Parse(s, 10).value <= 255
  }

  predicate IsDotted(s: string) {
    |Split(s, '.')| == 4 && forall x | x in Split(s, '.') :: IsOctet(x)
  }

  predicate IsHexDigit(c: char) {
    IsDigit(c) || 'a' <= c <= 'f' || 'A' <= c <= 'F'
  }

  predicate IsGroup(s: string) {
    1 <= |s| <= 4 && forall i :: 0 <= i < |s| ==> IsHexDigit(s[i])
  }

  /** How many 16-bit groups the pieces between the colons stand for. */
  function Spans(pieces: seq<string>): nat {
    if pieces == [] then 0 else
      var last := pieces[|pieces| - 1];
      Spans(pieces[..|pieces| - 1]) + (if last == "" then 0 else if IsDotted(last) then 2 else 1)
  }

  /** The double colon leaves one empty piece, or more at either end of the text. */
  predicate Gap(pieces: seq<string>, i: nat) {
    && 0 < i < |pieces| - 1 && pieces[i] == ""
    && forall j :: 0 <= j < |pieces| && j != i && pieces[j] == "" ==>
         (j == 0 && i == 1) || (j == |pieces| - 1 && i == |pieces| - 2)
  }

  /** A group, a part of the double colon, or an embedded dotted text at the end. */
  predicate PieceOk(pieces: seq<string>, i: nat)
    requires i < |pieces|
  {
    pieces[i] == "" || IsGroup(pieces[i]) || (i == |pieces| - 1 && IsDotted(pieces[i]))
  }

  /** Eight groups, or at most seven and a double colon. */
  predicate IsColons(pieces: seq<string>) {
    && (forall i :: 0 <= i < |pieces| ==> PieceOk(pieces, i))
    && if "" in pieces then Spans(pieces) <= 7 && exists i: nat | i < |pieces| :: Gap(pieces, i) else Spans(pieces) == 8
  }

  predicate IsAddress(s: string) {
    IsDotted(s) || IsColons(Split(s, ':'))
  }

  // ----- targets

  datatype Target = Target(address: string, port: Option<int>)

  /** The length of the longest address among the first n characters and their prefixes; 0 if there is none. */
  function Longest(s: string, n: nat): nat
    requires n <= |s|
  {
    if n == 0 || IsAddress(s[..n]) then n else Longest(s, n - 1)
  }

  lemma LongestInRange(s: string, n: nat)
    requires n <= |s|
    ensures Longest(s, n) <= n
  {
  }

  /** An address, alone or with a port behind a colon; the longest address is taken first. */
  function ReadTarget(s: string): Option<Target> {
    LongestInRange(s, |s|);
    var n := Longest(s, |s|);
    if n == 0 then None
    else if n == |s| then Some(Target(s, None))
    else if s[n] != ':' then None
    else match Parse(s[n + 1..], 10)
      case Number(port) => Some(Target(s[..n], Some(port)))
      case NotANumber => None
  }

  function TargetText(address: string, port: int): string {
    address + ":" + IntText(port)
  }

  /** The address goes on behind a colon: compressed, not at its end, with room for another group. */
  predicate Continues(address: string) {
    var pieces := Split(address, ':');
    && "" in pieces && Spans(pieces) <= 6
    && pieces[|pieces| - 1] != "" && !IsDotted(pieces[|pieces| - 1])
  }

  // ----- pieces

  lemma {:induction false} SplitSnoc(a: string, sep: char, b: string)
    requires Free(b, sep)
    ensures Split(a + [sep] + b, sep) == Split(a, sep) + [b]
  {
    var i := Find(a, sep);
    FindInRange(a, sep);
    var s := a + [sep] + b;
    if i == |a| {
      assert a[..i] == a;
      FindBehind(a, sep, b);
      assert s[..i] == a && s[i + 1..] == b;
      FindBehind(b, sep, "");
    } else {
      var head, tail := a[..i], a[i + 1..];
      assert a == head + [sep] + tail;
      assert s == head + [sep] + (tail + [sep] + b);
      FindBehind(head, sep, tail + [sep] + b);
      assert s[..i] == head && s[i + 1..] == tail + [sep] + b;
      SplitSnoc(tail, sep, b);
    }
  }

  lemma SplitFree(s: string, sep: char)
    requires Free(s, sep)
    ensures Split(s, sep) == [s]
  {
    FindBehind(s, sep, "");
  }

  lemma {:induction false} SplitKeeps(s: string, sep: char, c: char)
    requires c in s && c != sep
    ensures exists x | x in Split(s, sep) :: c in x
  {
    FindInRange(s, sep);
    var i := Find(s, sep);
    if i < |s| && c !in s[..i] {
      assert s == s[..i] + [sep] + s[i + 1..];
      SplitKeeps(s[i + 1..], sep, c);
    }
  }

  lemma {:induction false} NumbersAreDigits(s: string)
    requires Parse(s, 10).Number?
    ensures forall i :: 0 <= i < |s| ==> IsDigit(s[i])
  {
    if |s| > 1 {
      NumbersAreDigits(s[..|s| - 1]);
      assert s == s[..|s| - 1] + [s[|s| - 1]];
    }
  }

  lemma DottedShape(s: string)
    requires IsDotted(s)
    ensures ':' !in s && '.' in s && !IsGroup(s)
  {
    if ':' in s {
      SplitKeeps(s, '.', ':');
      var x :| x in Split(s, '.') && ':' in x;
      NumbersAreDigits(x);
    }
    if Free(s, '.') {
      SplitFree(s, '.');
    }
  }

  lemma ColonIsNotDotted(s: string)
    requires ':' in s
    ensures !IsDotted(s)
  {
    if IsDotted(s) {
      DottedShape(s);
    }
  }

  lemma NotDotted(s: string)
    requires '.' !in s
    ensures !IsDotted(s)
  {
    SplitFree(s, '.');
  }

  // ----- what behind an address is still an address

  predicate IsDigits(s: string) {
    forall i :: 0 <= i < |s| ==> IsDigit(s[i])
  }

  lemma DigitsAreFree(e: string)
    requires IsDigits(e)
    ensures Free(e, ':') && Free(e, '.') && !IsDotted(e)
    ensures IsGroup(e) <==> 1 <= |e| <= 4
  {
    NotDotted(e);
  }

  lemma MoreSpans(pieces: seq<string>, e: string)
    requires e != "" && !IsDotted(e)
    ensures Spans(pieces + [e]) == Spans(pieces) + 1
  {
    assert (pieces + [e])[..|pieces|] == pieces;
  }

  /** Behind the pieces of an address no empty piece can follow. */
  lemma NothingBehind(pieces: seq<string>)
    requires IsColons(pieces)
    ensures !IsColons(pieces + [""])
  {
    var more := pieces + [""];
    assert more[|pieces|] == "";
    if "" in pieces {
      var g: nat :| g < |pieces| && Gap(pieces, g);
      assert more[g] == "";
      forall i: nat | i < |more| ensures !Gap(more, i) {}
    } else {
      forall i: nat | i < |more| ensures !Gap(more, i) {}
    }
  }

  lemma GapStays(pieces: seq<string>, e: string)
    requires pieces != [] && e != "" && exists i: nat | i < |pieces| :: Gap(pieces, i)
    ensures (exists i: nat | i <= |pieces| :: Gap(pieces + [e], i)) <==> pieces[|pieces| - 1] != ""
  {
    var more := pieces + [e];
    var g: nat :| g < |pieces| && Gap(pieces, g);
    if pieces[|pieces| - 1] != "" {
      forall j | 0 <= j < |more| && j != g && more[j] == "" ensures j == 0 && g == 1 {
        assert pieces[j] == "";
      }
      assert Gap(more, g);
    } else if i: nat :| i < |more| && Gap(more, i) {
      assert more[g] == "" && more[|pieces| - 1] == "";
    }
  }

  lemma GroupBehind(pieces: seq<string>, e: string)
    requires pieces != [] && IsColons(pieces) && e != "" && IsDigits(e)
    ensures IsColons(pieces + [e]) <==>
            && |e| <= 4 && "" in pieces && Spans(pieces) <= 6
            && pieces[|pieces| - 1] != "" && !IsDotted(pieces[|pieces| - 1])
  {
    var more, last := pieces + [e], |pieces| - 1;
    DigitsAreFree(e);
    MoreSpans(pieces, e);
    assert "" in more <==> "" in pieces;
    if IsDotted(pieces[last]) {
      DottedShape(pieces[last]);
      assert !PieceOk(more, last);
    } else if |e| > 4 {
      assert !PieceOk(more, |pieces|);
    } else {
      hide IsDotted;
      hide IsGroup;
      forall i | 0 <= i < |more| ensures PieceOk(more, i) {
        assert i < |pieces| ==> PieceOk(pieces, i);
      }
      if "" in pieces {
        GapStays(pieces, e);
      }
    }
  }

  /** A colon and digits behind an address make an address exactly when the address goes on. */
  lemma {:induction false} Extended(a: string, e: string)
    requires IsAddress(a) && IsDigits(e)
    ensures IsAddress(a + [':'] + e) <==> Continues(a) && 1 <= |e| <= 4
  {
    var text, pieces := a + [':'] + e, Split(a, ':');
    DigitsAreFree(e);
    SplitSnoc(a, ':', e);
    assert text[|a|] == ':';
    ColonIsNotDotted(text);
    if IsDotted(a) {
      DottedShape(a);
      SplitFree(a, ':');
      assert !PieceOk([a] + [e], 0);
    } else if e == "" {
      NothingBehind(pieces);
    } else {
      GroupBehind(pieces, e);
    }
  }

  // ----- reading the target back

  lemma {:induction false} LongestIs(s: string, n: nat, m: nat)
    requires m <= n <= |s| && IsAddress(s[..m])
    requires forall k :: m < k <= n ==> !IsAddress(s[..k])
    ensures Longest(s, n) == m
  {
    if m < n {
      LongestIs(s, n - 1, m);
    }
  }

  lemma PortDigits(port: int)
    requires 1 <= port <= 65535
    ensures IntText(port) == Decimal(port) && IsDigits(IntText(port)) && Parse(IntText(port), 10) == Number(port)
    ensures 1 <= |IntText(port)| <= 5 && (|IntText(port)| <= 4 <==> port <= 9999)
  {
    PrintRoundTrip(port, 10);
    DecimalDigits(port);
    var n: nat := port;
    assert n >= 10 ==> |Print(n, 10)| == |Print(n / 10, 10)| + 1;
    assert n >= 100 ==> |Print(n / 10, 10)| == |Print(n / 10 / 10, 10)| + 1;
    assert n >= 1000 ==> |Print(n / 10 / 10, 10)| == |Print(n / 10 / 10 / 10, 10)| + 1;
    assert n >= 10000 ==> |Print(n / 10 / 10 / 10, 10)| == |Print(n / 10 / 10 / 10 / 10, 10)| + 1;
  }

  lemma NotEmpty(s: string)
    requires IsAddress(s)
    ensures s != ""
  {
    if s == "" {
      SplitFree(s, '.');
      SplitFree(s, ':');
    }
  }

  /** The target read where the address does not go on: the address and the port. */
  lemma ReadsBack(a: string, port: int)
    requires IsAddress(a) && 1 <= port <= 65535 && !Continues(a)
    ensures ReadTarget(TargetText(a, port)) == Some(Target(a, Some(port)))
  {
    var d, s := IntText(port), TargetText(a, port);
    PortDigits(port);
    NotEmpty(a);
    hide IsAddress;
    hide IntText;
    hide Continues;
    assert s[..|a|] == a && s[|a|] == ':' && s[|a| + 1..] == d;
    forall k | |a| < k <= |s| ensures !IsAddress(s[..k]) {
      var e := d[..k - |a| - 1];
      assert s[..k] == a + [':'] + e;
      Extended(a, e);
    }
    LongestIs(s, |s|, |a|);
  }

  /** The target read where the address goes on: up to four digits of the port are taken for a group. */
  lemma ReadsOn(a: string, port: int)
    requires IsAddress(a) && 1 <= port <= 65535 && Continues(a)
    ensures ReadTarget(TargetText(a, port)) == if port <= 9999 then Some(Target(TargetText(a, port), None)) else None
  {
    var d, s := IntText(port), TargetText(a, port);
    PortDigits(port);
    hide IsAddress;
    hide IntText;
    hide Continues;
    var n := if port <= 9999 then |s| else |s| - 1;
    var e := d[..n - |a| - 1];
    assert s[..n] == a + [':'] + e;
    Extended(a, e);
    if port > 9999 {
      assert s == a + [':'] + d && s[..|s|] == s;
      Extended(a, d);
      assert s[n] == d[4] && d[4] != ':';
    }
    LongestIs(s, |s|, n);
  }

  /**
   A printed target is read back as its address and port if and only if the address does not
   go on behind a colon: an IPv4 address never does, a compressed IPv6 address mostly does.
   */
  lemma {:induction false} TargetReadBackIff(a: string, port: int)
    requires IsAddress(a) && 1 <= port <= 65535
    ensures ReadTarget(TargetText(a, port)) == Some(Target(a, Some(port))) <==> !Continues(a)
    ensures IsDotted(a) ==> !Continues(a)
  {
    if Continues(a) {
      ReadsOn(a, port);
    } else {
      ReadsBack(a, port);
    }
    if IsDotted(a) {
      DottedShape(a);
      SplitFree(a, ':');
    }
  }
}
