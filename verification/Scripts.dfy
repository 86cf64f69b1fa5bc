/**
 The plan's `sh -c` snippets: templates with names and numbers interpolated without
 quoting, what a POSIX shell reads them as, and which step on the kernel they mean.
 */
module Scripts {
  import opened ShellWords
  import opened Strings

  /** A simple command: words interpolated as they are, or each rendered by the quoting printer. */
  datatype Cmd = Plain(ws: seq<string>) | Rendered(ws: seq<string>)

  datatype Connective = OrQuietly | Then | IgnoringErrors

  datatype Script = One(cmd: Cmd) | Linked(cmd: Cmd, link: Connective, rest: Script)

  function CmdText(c: Cmd): string {
    match c case Plain(ws) => Join(ws, ' ') case Rendered(ws) => Join(Quoted(ws), ' ')
  }

  function LinkText(l: Connective): string {
    match l
    case OrQuietly => " >/dev/null 2>&1 || "
    case Then => "; "
    case IgnoringErrors => " 2>/dev/null || true; "
  }

  function Text(s: Script): string {
    match s
    case One(c) => CmdText(c)
    case Linked(c, l, rest) => CmdText(c) + (LinkText(l) + Text(rest))
  }

  const QUIET := [Op(">"), Word("/dev/null"), IoNumber("2"), Op(">&"), Word("1"), Op("||")]
  const IGNORED := [IoNumber("2"), Op(">"), Word("/dev/null"), Op("||"), Word("true"), Op(";")]

  function LinkTokens(l: Connective): seq<Token> {
    match l
    case OrQuietly => QUIET
    case Then => [Op(";")]
    case IgnoringErrors => IGNORED
  }

  /** The fixed words and operators of the template, with the names as single words. */
  function TokensOf(s: Script): seq<Token> {
    match s
    case One(c) => Words(c.ws)
    case Linked(c, l, rest) => Words(c.ws) + LinkTokens(l) + TokensOf(rest)
  }

  predicate SafeWord(w: string) {
    w != "" && AllSafe(w)
  }

  predicate SafeCmd(c: Cmd) {
    c.ws != [] && (c.Plain? ==> forall w | w in c.ws :: SafeWord(w))
  }

  predicate SafeScript(s: Script) {
    SafeCmd(s.cmd) && (s.Linked? ==> SafeScript(s.rest))
  }

  // ----- token recognition of scripts

  lemma LexWord(w: string, rest: string)
    requires SafeWord(w)
    ensures Lex(w + rest, Unquoted, NoWord) == Lex(rest, Unquoted, Part(w, true))
  {
    LexQuoted(w, rest);
  }

  lemma LexOp(c: char, rest: string, cur: Partial)
    requires IsOperatorChar(c) && (rest == "" || !IsDoubleOperator(c, rest[0]))
    ensures Lex([c] + rest, Unquoted, cur) == Prepend(FinishBefore(cur, c) + [Op([c])], Lex(rest, Unquoted, NoWord))
  {
    assert ([c] + rest)[1..] == rest;
  }

  lemma LexOp2(c: char, d: char, rest: string, cur: Partial)
    requires IsOperatorChar(c) && IsDoubleOperator(c, d)
    ensures Lex([c, d] + rest, Unquoted, cur) == Prepend(FinishBefore(cur, c) + [Op([c, d])], Lex(rest, Unquoted, NoWord))
  {
    assert ([c, d] + rest)[1..] == [d] + rest && ([d] + rest)[1..] == rest;
  }

  lemma SafeLiterals()
    ensures SafeWord("/dev/null") && SafeWord("1") && SafeWord("2") && SafeWord("true")
  {
  }

  lemma PrependNothing(t: Tokens)
    ensures Prepend([], t) == t
  {
    if t.Tokens? { assert [] + t.list == t.list; }
  }

  /** A safe word and the blank behind it. */
  lemma LexWordBlank(w: string, rest: string)
    requires SafeWord(w)
    ensures Lex(w + (" " + rest), Unquoted, NoWord) == Prepend([Word(w)], Lex(rest, Unquoted, NoWord))
  {
    LexWord(w, " " + rest);
    LexBlank(rest, Part(w, true));
  }

  lemma LexDiscard(rest: string)
    ensures Lex(">/dev/null " + rest, Unquoted, NoWord) == Prepend([Op(">"), Word("/dev/null")], Lex(rest, Unquoted, NoWord))
  {
    SafeLiterals();
    var tail := "/dev/null" + (" " + rest);
    assert ">/dev/null " + rest == ['>'] + tail;
    LexOp('>', tail, NoWord);
    LexWordBlank("/dev/null", rest);
    hide Lex;
    hide AllSafe;
    PrependTwice([Op(">")], [Word("/dev/null")], Lex(rest, Unquoted, NoWord));
  }

  lemma LexErrorsToOutput(rest: string)
    ensures Lex("2>&1 " + rest, Unquoted, NoWord) ==
            Prepend([IoNumber("2"), Op(">&"), Word("1")], Lex(rest, Unquoted, NoWord))
  {
    SafeLiterals();
    var tail := "1" + (" " + rest);
    assert "2>&1 " + rest == "2" + (['>', '&'] + tail);
    LexWord("2", ['>', '&'] + tail);
    LexOp2('>', '&', tail, Part("2", true));
    LexWordBlank("1", rest);
    hide Lex;
    hide AllSafe;
    PrependTwice([IoNumber("2"), Op(">&")], [Word("1")], Lex(rest, Unquoted, NoWord));
  }

  lemma LexDiscardErrors(rest: string)
    ensures Lex("2>/dev/null " + rest, Unquoted, NoWord) ==
            Prepend([IoNumber("2"), Op(">"), Word("/dev/null")], Lex(rest, Unquoted, NoWord))
  {
    SafeLiterals();
    var tail := "/dev/null" + (" " + rest);
    assert "2>/dev/null " + rest == "2" + (['>'] + tail);
    LexWord("2", ['>'] + tail);
    LexOp('>', tail, Part("2", true));
    LexWordBlank("/dev/null", rest);
    hide Lex;
    hide AllSafe;
    PrependTwice([IoNumber("2"), Op(">")], [Word("/dev/null")], Lex(rest, Unquoted, NoWord));
  }

  lemma LexOr(rest: string)
    ensures Lex("|| " + rest, Unquoted, NoWord) == Prepend([Op("||")], Lex(rest, Unquoted, NoWord))
  {
    assert "|| " + rest == ['|', '|'] + (" " + rest);
    LexOp2('|', '|', " " + rest, NoWord);
    LexBlank(rest, NoWord);
    hide Lex;
    PrependNothing(Lex(rest, Unquoted, NoWord));
  }

  lemma LexTrue(rest: string)
    ensures Lex("true; " + rest, Unquoted, NoWord) == Prepend([Word("true"), Op(";")], Lex(rest, Unquoted, NoWord))
  {
    SafeLiterals();
    assert "true; " + rest == "true" + ([';'] + (" " + rest));
    LexWord("true", [';'] + (" " + rest));
    LexOp(';', " " + rest, Part("true", true));
    LexBlank(rest, NoWord);
    hide Lex;
    hide AllSafe;
    PrependNothing(Lex(rest, Unquoted, NoWord));
  }

  lemma QuietText(rest: string)
    ensures LinkText(OrQuietly) + rest == " " + (">/dev/null " + ("2>&1 " + ("|| " + rest)))
  {
  }

  lemma IgnoringText(rest: string)
    ensures LinkText(IgnoringErrors) + rest == " " + ("2>/dev/null " + ("|| " + ("true; " + rest)))
  {
  }

  lemma LexQuiet(rest: string, cur: Partial)
    ensures Lex(LinkText(OrQuietly) + rest, Unquoted, cur) == Prepend(Finish(cur) + QUIET, Lex(rest, Unquoted, NoWord))
  {
    hide Lex;
    hide Finish;
    var r2 := "|| " + rest;
    var r1 := "2>&1 " + r2;
    var r0 := ">/dev/null " + r1;
    QuietText(rest);
    hide LinkText;
    LexBlank(r0, cur);
    LexDiscard(r1);
    LexErrorsToOutput(r2);
    LexOr(rest);
    var t := Lex(rest, Unquoted, NoWord);
    PrependTwice([IoNumber("2"), Op(">&"), Word("1")], [Op("||")], t);
    PrependTwice([Op(">"), Word("/dev/null")], [IoNumber("2"), Op(">&"), Word("1"), Op("||")], t);
    PrependTwice(Finish(cur), QUIET, t);
  }

  lemma LexThen(rest: string, cur: Partial)
    ensures Lex(LinkText(Then) + rest, Unquoted, cur) == Prepend(Finish(cur) + [Op(";")], Lex(rest, Unquoted, NoWord))
  {
    assert LinkText(Then) + rest == [';'] + (" " + rest);
    LexOp(';', " " + rest, cur);
    LexBlank(rest, NoWord);
    hide Lex;
    PrependNothing(Lex(rest, Unquoted, NoWord));
  }

  lemma LexIgnoring(rest: string, cur: Partial)
    ensures Lex(LinkText(IgnoringErrors) + rest, Unquoted, cur) == Prepend(Finish(cur) + IGNORED, Lex(rest, Unquoted, NoWord))
  {
    hide Lex;
    hide Finish;
    var r2 := "true; " + rest;
    var r1 := "|| " + r2;
    var r0 := "2>/dev/null " + r1;
    IgnoringText(rest);
    hide LinkText;
    LexBlank(r0, cur);
    LexDiscardErrors(r1);
    LexOr(r2);
    LexTrue(rest);
    var t := Lex(rest, Unquoted, NoWord);
    PrependTwice([Op("||")], [Word("true"), Op(";")], t);
    PrependTwice([IoNumber("2"), Op(">"), Word("/dev/null")], [Op("||"), Word("true"), Op(";")], t);
    PrependTwice(Finish(cur), IGNORED, t);
  }

  lemma LexLink(l: Connective, rest: string, cur: Partial)
    ensures Lex(LinkText(l) + rest, Unquoted, cur) == Prepend(Finish(cur) + LinkTokens(l), Lex(rest, Unquoted, NoWord))
  {
    match l {
      case OrQuietly => LexQuiet(rest, cur);
      case Then => LexThen(rest, cur);
      case IgnoringErrors => LexIgnoring(rest, cur);
    }
  }

  lemma SafeCmdText(c: Cmd)
    requires SafeCmd(c)
    ensures CmdText(c) == Join(Quoted(c.ws), ' ')
  {
    if c.Plain? {
      forall i | 0 <= i < |c.ws| ensures ShellQuote(c.ws[i]) == c.ws[i] {
        assert SafeWord(c.ws[i]);
      }
      assert Quoted(c.ws) == c.ws;
    }
  }

  lemma LexCmd(c: Cmd, rest: string)
    requires SafeCmd(c)
    ensures var last := c.ws[|c.ws| - 1];
            Lex(CmdText(c) + rest, Unquoted, NoWord) ==
            Prepend(Words(c.ws[..|c.ws| - 1]), Lex(rest, Unquoted, Part(last, last != "" && AllSafe(last))))
  {
    SafeCmdText(c);
    LexJoined(c.ws, rest);
  }

  lemma WordsSnoc(ws: seq<string>)
    requires ws != []
    ensures Words(ws[..|ws| - 1]) + [Word(ws[|ws| - 1])] == Words(ws)
  {
  }

  lemma LinkedTokens(c: Cmd, l: Connective, rest: string)
    requires SafeCmd(c)
    ensures Tokenise(CmdText(c) + (LinkText(l) + rest)) == Prepend(Words(c.ws) + LinkTokens(l), Tokenise(rest))
  {
    hide Lex;
    hide LinkText;
    hide LinkTokens;
    hide CmdText;
    hide AllSafe;
    hide Words;
    var ws := c.ws;
    var last := ws[|ws| - 1];
    var cur := Part(last, last != "" && AllSafe(last));
    WordsSnoc(ws);
    LexCmd(c, LinkText(l) + rest);
    LexLink(l, rest, cur);
    PrependTwice(Words(ws[..|ws| - 1]), Finish(cur) + LinkTokens(l), Lex(rest, Unquoted, NoWord));
    assert Words(ws[..|ws| - 1]) + (Finish(cur) + LinkTokens(l)) == Words(ws) + LinkTokens(l);
  }

  lemma OneTokens(c: Cmd)
    requires SafeCmd(c)
    ensures Tokenise(CmdText(c)) == Tokens(Words(c.ws))
  {
    var ws := c.ws;
    var last := ws[|ws| - 1];
    WordsSnoc(ws);
    LexCmd(c, "");
    assert CmdText(c) + "" == CmdText(c);
    assert Lex("", Unquoted, Part(last, last != "" && AllSafe(last))) == Tokens([Word(last)]);
  }

  /** A script of safe words is read as exactly its words and operators. */
  lemma {:induction false} ScriptTokens(s: Script)
    requires SafeScript(s)
    ensures Tokenise(Text(s)) == Tokens(TokensOf(s))
  {
    hide Tokenise;
    hide LinkText;
    hide LinkTokens;
    hide CmdText;
    match s {
      case One(c) =>
        OneTokens(c);
      case Linked(c, l, rest) =>
        LinkedTokens(c, l, Text(rest));
        ScriptTokens(rest);
    }
  }
}
