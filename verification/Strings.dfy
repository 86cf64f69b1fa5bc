/** Searching, splitting and joining strings. */
module Strings {

  function Find(s: string, c: char): nat {
    if s == "" || s[0] == c then 0 else 1 + Find(s[1..], c)
  }

  predicate Free(s: string, c: char) {
    c !in s
  }

  lemma {:induction false} FindInRange(s: string, c: char)
    ensures Find(s, c) <= |s|
    ensures Find(s, c) < |s| ==> s[Find(s, c)] == c
    ensures Free(s[..Find(s, c)], c)
  {
    if s != "" && s[0] != c {
      FindInRange(s[1..], c);
      assert s[..Find(s, c)] == [s[0]] + s[1..][..Find(s[1..], c)];
    }
  }

  lemma {:induction false} FindBehind(a: string, c: char, b: string)
    requires Free(a, c)
    ensures Find(a + [c] + b, c) == |a|
    ensures Find(a, c) == |a|
  {
    if a != "" {
      assert (a + [c] + b)[1..] == a[1..] + [c] + b;
      FindBehind(a[1..], c, b);
    }
  }

  /** The pieces between the separators. */
  function Split(s: string, sep: char): seq<string> {
    FindInRange(s, sep);
    var i := Find(s, sep);
    if i == |s| then [s] else [s[..i]] + Split(s[i + 1..], sep)
  }

  /** The pieces with a separator between each two. */
  function Join(xs: seq<string>, sep: char): string {
    if xs == [] then ""
    else if |xs| == 1 then xs[0]
    else Join(xs[..|xs| - 1], sep) + [sep] + xs[|xs| - 1]
  }

  lemma {:induction false} JoinCons(xs: seq<string>, sep: char)
    requires |xs| > 1
    ensures Join(xs, sep) == xs[0] + [sep] + Join(xs[1..], sep)
  {
    var init, tail, last := xs[..|xs| - 1], xs[1..], xs[|xs| - 1];
    if |xs| > 2 {
      JoinCons(init, sep);
      assert tail[..|tail| - 1] == init[1..];
      assert Join(tail, sep) == Join(init[1..], sep) + [sep] + last;
    }
  }

  /** Splitting undoes joining. */
  lemma {:induction false} SplitJoin(xs: seq<string>, sep: char)
    requires xs != [] && forall x | x in xs :: Free(x, sep)
    ensures Split(Join(xs, sep), sep) == xs
  {
    var head := xs[0];
    if |xs| == 1 {
      FindBehind(head, sep, "");
    } else {
      var tail := Join(xs[1..], sep);
      JoinCons(xs, sep);
      FindBehind(head, sep, tail);
      var s := head + [sep] + tail;
      assert s[..|head|] == head && s[|head| + 1..] == tail;
      SplitJoin(xs[1..], sep);
    }
  }
}
