/**
 Shell quoting as a printer, and POSIX token recognition as its parser (sections
 2.2.2, 2.2.3 and 2.3 of the POSIX.1-2017 Shell Command Language).
 */
module ShellWords {
  import opened Basics
  import opened Strings

  // ----- the printer

  /** Characters that never need quoting. */
  predicate IsSafeChar(c: char) {
    IsAlnum(c) || c in {'@', '%', '_', '+', '=', ':', ',', '.', '/', '-'}
  }

  predicate AllSafe(s: string) {
    forall i :: 0 <= i < |s| ==> IsSafeChar(s[i])
  }

  /** Every single quote becomes: close, a double-quoted single quote, reopen. */
  function Escape(s: string): string {
    if s == "" then "" else (if s[0] == '\'' then "'\"'\"'" else [s[0]]) + Escape(s[1..])
  }

  function ShellQuote(value: string): string {
    if value == "" then "''"
    else if AllSafe(value) then value
    else "'" + Escape(value) + "'"
  }

  function Quoted(words: seq<string>): seq<string> {
    seq(|words|, i requires 0 <= i < |words| => ShellQuote(words[i]))
  }

  function CommandLine(program: string, args: seq<string>): string {
    Join(Quoted([program] + args), ' ')
  }

  method JoinStrings(parts: array<string>) returns (s: string)
    ensures s == Join(parts[..], ' ')
  {
    s := "";
    for i := 0 to parts.Length
      invariant s == Join(parts[..i], ' ')
    {
      assert parts[..i + 1] == parts[..i] + [parts[i]];
      s := if i == 0 then parts[0] else s + " " + parts[i];
    }
    assert parts[..parts.Length] == parts[..];
  }

  /** Renders a command: the slice of words is overwritten in place with their quoted forms. */
  method CommandString(program: string, args: seq<string>) returns (s: string)
    ensures s == CommandLine(program, args)
  {
    hide ShellQuote;
    var words := [program] + args;
    var parts := new string[|words|](i requires 0 <= i < |words| => words[i]);
    for i := 0 to parts.Length
      invariant forall j :: 0 <= j < i ==> parts[j] == ShellQuote(words[j])
      invariant forall j :: i <= j < parts.Length ==> parts[j] == words[j]
    {
      parts[i] := ShellQuote(parts[i]);
    }
    assert parts[..] == Quoted(words);
    s := JoinStrings(parts);
  }

  // ----- the parser

  datatype Token =
    | Word(text: string)
    | Op(text: string)
    | IoNumber(text: string)

  datatype Tokens = Unsupported | Tokens(list: seq<Token>)

  datatype Mode = Unquoted | SingleQuoted | DoubleQuoted

  /** The token under construction; a bare one has no quoted part. */
  datatype Partial = NoWord | Part(text: string, bare: bool)

  predicate IsBlank(c: char) {
    c == ' ' || c == '\t'
  }

  predicate IsOperatorChar(c: char) {
    c in {'|', '&', ';', '<', '>', '(', ')', '\n'}
  }

  /** Characters that start an expansion, a comment or an escape: outside this parser. */
  predicate IsSpecial(c: char) {
    c in {'$', '`', '\\', '*', '?', '[', '~', '#'}
  }

  predicate IsDoubleOperator(c: char, d: char) {
    [c, d] in {"||", "&&", ";;", ">&", "<&", ">>", "<<", "<>", ">|"}
  }

  function Finish(cur: Partial): seq<Token> {
    match cur
    case NoWord => []
    case Part(text, _) => [Word(text)]
  }

  /** A word of digits directly before a redirection is an IO number. */
  function FinishBefore(cur: Partial, op: char): seq<Token> {
    if (op == '<' || op == '>') && cur.Part? && cur.bare && AllDigits(cur.text)
    then [IoNumber(cur.text)] else Finish(cur)
  }

  function Grow(cur: Partial, c: char): Partial {
    match cur
    case NoWord => Part([c], true)
    case Part(text, bare) => Part(text + [c], bare)
  }

  function Quote(cur: Partial): Partial {
    match cur
    case NoWord => Part("", false)
    case Part(text, _) => Part(text, false)
  }

  function Prepend(front: seq<Token>, rest: Tokens): Tokens {
    match rest
    case Unsupported => Unsupported
    case Tokens(list) => Tokens(front + list)
  }

  function Lex(s: string, mode: Mode, cur: Partial): Tokens
    decreases |s|
  {
    if s == "" then
      if mode == Unquoted then Tokens(Finish(cur)) else Unsupported
    else
      var c, rest := s[0], s[1..];
      match mode
      case SingleQuoted =>
        if c == '\'' then Lex(rest, Unquoted, cur) else Lex(rest, SingleQuoted, Grow(cur, c))
      case DoubleQuoted =>
        if c == '"' then Lex(rest, Unquoted, cur)
        else if c in {'$', '`', '\\'} then Unsupported
        else Lex(rest, DoubleQuoted, Grow(cur, c))
      case Unquoted =>
        if c == '\'' then Lex(rest, SingleQuoted, Quote(cur))
        else if c == '"' then Lex(rest, DoubleQuoted, Quote(cur))
        else if IsSpecial(c) then Unsupported
        else if IsBlank(c) then Prepend(Finish(cur), Lex(rest, Unquoted, NoWord))
        else if IsOperatorChar(c) then
          if rest != "" && IsDoubleOperator(c, rest[0])
          then Prepend(FinishBefore(cur, c) + [Op([c, rest[0]])], Lex(rest[1..], Unquoted, NoWord))
          else Prepend(FinishBefore(cur, c) + [Op([c])], Lex(rest, Unquoted, NoWord))
        else Lex(rest, Unquoted, Grow(cur, c))
  }

  function Tokenise(s: string): Tokens {
    Lex(s, Unquoted, NoWord)
  }

  function Words(ws: seq<string>): seq<Token> {
    seq(|ws|, i requires 0 <= i < |ws| => Word(ws[i]))
  }

  // ----- round trip

  lemma SafeIsOrdinary(c: char)
    requires IsSafeChar(c)
    ensures c != '\'' && c != '"' && !IsSpecial(c) && !IsBlank(c) && !IsOperatorChar(c)
  {
  }

  lemma {:induction false} LexSafe(value: string, rest: string, text: string, bare: bool)
    requires AllSafe(value)
    ensures Lex(value + rest, Unquoted, Part(text, bare)) == Lex(rest, Unquoted, Part(text + value, bare))
    decreases |value|
  {
    if value == "" {
      assert value + rest == rest && text + value == text;
    } else {
      SafeIsOrdinary(value[0]);
      assert (value + rest)[1..] == value[1..] + rest && (value + rest)[0] == value[0];
      LexSafe(value[1..], rest, text + [value[0]], bare);
      assert text + [value[0]] + value[1..] == text + value;
    }
  }

  lemma QuoteGap(rest: string, text: string)
    ensures Lex("'\"'\"'" + rest, SingleQuoted, Part(text, false)) == Lex(rest, SingleQuoted, Part(text + "'", false))
  {
    var s := "'\"'\"'" + rest;
    assert s[0] == '\'' && s[1..][0] == '"' && s[1..][1..][0] == '\'';
    assert s[1..][1..][1..][0] == '"' && s[1..][1..][1..][1..][0] == '\'';
    assert s[1..][1..][1..][1..][1..] == rest;
    calc {
      Lex(s, SingleQuoted, Part(text, false));
      Lex(s[1..], Unquoted, Part(text, false));
      Lex(s[1..][1..], DoubleQuoted, Part(text, false));
      Lex(s[1..][1..][1..], DoubleQuoted, Part(text + "'", false));
      Lex(s[1..][1..][1..][1..], Unquoted, Part(text + "'", false));
      Lex(rest, SingleQuoted, Part(text + "'", false));
    }
  }

  lemma {:induction false} LexEscaped(value: string, rest: string, text: string)
    ensures Lex(Escape(value) + rest, SingleQuoted, Part(text, false)) == Lex(rest, SingleQuoted, Part(text + value, false))
    decreases |value|
  {
    if value == "" {
      assert Escape(value) + rest == rest && text + value == text;
    } else {
      var tail := Escape(value[1..]) + rest;
      LexEscaped(value[1..], rest, text + [value[0]]);
      assert text + [value[0]] + value[1..] == text + value;
      if value[0] == '\'' {
        assert Escape(value) + rest == "'\"'\"'" + tail;
        QuoteGap(tail, text);
      } else {
        assert Escape(value) + rest == [value[0]] + tail;
        assert ([value[0]] + tail)[1..] == tail;
      }
    }
  }

  /** One quoted word is read back as that word, whatever follows it. */
  lemma LexQuoted(value: string, rest: string)
    ensures Lex(ShellQuote(value) + rest, Unquoted, NoWord) ==
            Lex(rest, Unquoted, Part(value, value != "" && AllSafe(value)))
  {
    var q := ShellQuote(value);
    if value == "" {
      var s := q + rest;
      assert s[0] == '\'' && s[1..][0] == '\'' && s[1..][1..] == rest;
      assert Lex(s, Unquoted, NoWord) == Lex(s[1..], SingleQuoted, Part("", false));
    } else if AllSafe(value) {
      SafeIsOrdinary(value[0]);
      assert (value + rest)[0] == value[0] && (value + rest)[1..] == value[1..] + rest;
      LexSafe(value[1..], rest, [value[0]], true);
      assert [value[0]] + value[1..] == value;
    } else {
      var tail := Escape(value) + ("'" + rest);
      assert q + rest == "'" + tail;
      assert ("'" + tail)[1..] == tail;
      LexEscaped(value, "'" + rest, "");
      assert "" + value == value;
      assert ("'" + rest)[1..] == rest;
    }
  }

  lemma LexBlank(rest: string, cur: Partial)
    ensures Lex(" " + rest, Unquoted, cur) == Prepend(Finish(cur), Lex(rest, Unquoted, NoWord))
  {
    assert (" " + rest)[1..] == rest;
  }

  lemma PrependTwice(a: seq<Token>, b: seq<Token>, t: Tokens)
    ensures Prepend(a, Prepend(b, t)) == Prepend(a + b, t)
  {
    if t.Tokens? {
      assert a + (b + t.list) == a + b + t.list;
    }
  }

  /** All but the last of several quoted words are complete tokens; the last is still open. */
  lemma {:induction false} LexJoined(ws: seq<string>, rest: string)
    requires ws != []
    ensures var last := ws[|ws| - 1];
            Lex(Join(Quoted(ws), ' ') + rest, Unquoted, NoWord) ==
            Prepend(Words(ws[..|ws| - 1]), Lex(rest, Unquoted, Part(last, last != "" && AllSafe(last))))
    decreases |ws|
  {
    hide Lex;
    hide ShellQuote;
    hide AllSafe;
    var init, last := ws[..|ws| - 1], ws[|ws| - 1];
    var open := Lex(rest, Unquoted, Part(last, last != "" && AllSafe(last)));
    LexQuoted(last, rest);
    if |ws| == 1 {
      assert Quoted(ws) == [ShellQuote(last)];
      assert Prepend([], open) == open by { if open.Tokens? { assert [] + open.list == open.list; } }
    } else {
      assert Quoted(ws)[..|ws| - 1] == Quoted(init);
      var tail := " " + (ShellQuote(last) + rest);
      assert Join(Quoted(ws), ' ') + rest == Join(Quoted(init), ' ') + tail;
      LexJoined(init, tail);
      var before := init[|init| - 1];
      LexBlank(ShellQuote(last) + rest, Part(before, before != "" && AllSafe(before)));
      PrependTwice(Words(init[..|init| - 1]), [Word(before)], open);
      assert Words(init[..|init| - 1]) + [Word(before)] == Words(init);
    }
  }

  /** Tokenising a printed command gives back exactly the program followed by its arguments. */
  lemma {:induction false} QuotingRoundTrip(program: string, args: seq<string>)
    ensures Tokenise(CommandLine(program, args)) == Tokens(Words([program] + args))
  {
    var ws := [program] + args;
    LexJoined(ws, "");
    assert Join(Quoted(ws), ' ') + "" == Join(Quoted(ws), ' ');
    var last := ws[|ws| - 1];
    assert Lex("", Unquoted, Part(last, last != "" && AllSafe(last))) == Tokens([Word(last)]);
    assert Words(ws[..|ws| - 1]) + [Word(last)] == Words(ws);
  }

  lemma {:induction false} EscapeGrows(value: string)
    ensures |Escape(value)| >= |value|
    decreases |value|
  {
    if value != "" {
      EscapeGrows(value[1..]);
    }
  }

  /** Exactly the non-empty words of safe characters are printed as they are. */
  lemma {:induction false} FixedPointIff(value: string)
    ensures ShellQuote(value) == value <==>
            && value != ""
            && forall i :: 0 <= i < |value| ==>
                 || 'A' <= value[i] <= 'Z' || 'a' <= value[i] <= 'z' || '0' <= value[i] <= '9'
                 || value[i] in {'@', '%', '_', '+', '=', ':', ',', '.', '/', '-'}
  {
    if value != "" && !AllSafe(value) {
      EscapeGrows(value);
    }
  }
}
