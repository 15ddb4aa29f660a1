/** The Windows command line that the launcher builds from an argument list, and
    the documented Microsoft C rules that the child's runtime uses to take it
    apart again. The main results say that the two are inverse, and exactly when
    the special rule for the program name is satisfied as well. */
module CommandLine {

  const BACKSLASH: char := '\\'
  const QUOTE_MARK: char := '"'

  predicate Blank(c: char) {
    c == ' ' || c == '\t'
  }

  function Slashes(n: nat): (s: string)
    ensures |s| == n
    ensures forall i :: 0 <= i < n ==> s[i] == BACKSLASH
  {
    if n == 0 then "" else [BACKSLASH] + Slashes(n - 1)
  }

  // ------------------------------------------------------------------ printer

  predicate Plain(arg: string) {
    arg != "" && forall i :: 0 <= i < |arg| ==> !Blank(arg[i]) && arg[i] != QUOTE_MARK
  }

  /** What remains to be written, before the closing quote mark, when `arg` is
      still unread and `pending` backslashes were read but not yet written. */
  function Escaped(arg: string, pending: nat): string {
    if arg == "" then
      Slashes(2 * pending)
    else if arg[0] == BACKSLASH then
      Escaped(arg[1..], pending + 1)
    else if arg[0] == QUOTE_MARK then
      Slashes(2 * pending + 1) + [QUOTE_MARK] + Escaped(arg[1..], 0)
    else
      Slashes(pending) + [arg[0]] + Escaped(arg[1..], 0)
  }

  function Quoted(arg: string): string {
    if Plain(arg) then arg else [QUOTE_MARK] + Escaped(arg, 0) + [QUOTE_MARK]
  }

  /** `out` was written; with what is unread and pending it makes up the whole text. */
  predicate Written(out: string, unread: string, pending: nat, whole: string) {
    out + Escaped(unread, pending) == whole
  }

  lemma WriteNext(out: string, unread: string, pending: nat, whole: string)
    requires unread != "" && Written(out, unread, pending, whole)
    ensures unread[0] == BACKSLASH ==> Written(out, unread[1..], pending + 1, whole)
    ensures unread[0] == QUOTE_MARK ==> Written(out + Slashes(pending * 2 + 1) + [QUOTE_MARK], unread[1..], 0, whole)
    ensures unread[0] != BACKSLASH && unread[0] != QUOTE_MARK ==>
              Written(out + Slashes(pending) + [unread[0]], unread[1..], 0, whole)
  {
    var rest := Escaped(unread[1..], 0);
    assert out + (Slashes(pending * 2 + 1) + [QUOTE_MARK] + rest) == out + Slashes(pending * 2 + 1) + [QUOTE_MARK] + rest;
    assert out + (Slashes(pending) + [unread[0]] + rest) == out + Slashes(pending) + [unread[0]] + rest;
  }

  /** The printer itself: one pass with a count of pending backslashes. */
  method QuoteWindows(arg: string) returns (text: string)
    ensures text == Quoted(arg)
  {
    if arg == "" {
      assert Escaped(arg, 0) == "";
      return [QUOTE_MARK, QUOTE_MARK];
    }
    if forall i :: 0 <= i < |arg| ==> !Blank(arg[i]) && arg[i] != QUOTE_MARK {
      return arg;
    }
    var out := [QUOTE_MARK];
    var slashes := 0;
    for i := 0 to |arg|
      invariant slashes >= 0 && Written(out, arg[i..], slashes, [QUOTE_MARK] + Escaped(arg, 0))
    {
      assert arg[i..][1..] == arg[i + 1..];
      WriteNext(out, arg[i..], slashes, [QUOTE_MARK] + Escaped(arg, 0));
      if arg[i] == BACKSLASH {
        slashes := slashes + 1;
      } else if arg[i] == QUOTE_MARK {
        out := out + Slashes(slashes * 2 + 1);
        out := out + [QUOTE_MARK];
        slashes := 0;
      } else {
        if slashes > 0 {
          out := out + Slashes(slashes);
        }
        out := out + [arg[i]];
        slashes := 0;
      }
    }
    if slashes > 0 {
      out := out + Slashes(slashes * 2);
    }
    text := out + [QUOTE_MARK];
  }

  /** The printed arguments separated by single spaces. */
  function Joined(args: seq<string>): string {
    if args == [] then ""
    else if |args| == 1 then Quoted(args[0])
    else Quoted(args[0]) + " " + Joined(args[1..])
  }

  // ------------------------------------------------------------------- parser

  /** Reads one argument. `quoted` says whether the text is inside quote marks,
      `pending` counts backslashes read but not yet interpreted and `acc` is the
      argument so far. Returns the argument and the unread rest.

      Rules (Parsing C command-line arguments, Microsoft C runtime): blanks
      separate arguments outside quote marks; 2n backslashes and a quote mark
      give n backslashes and a delimiter; 2n+1 give n backslashes and a literal
      quote mark; other backslashes are literal; a pair of quote marks inside a
      quoted part is one literal quote mark. */
  function ScanArgument(text: string, quoted: bool, pending: nat, acc: string): (r: (string, string))
    ensures |r.1| <= |text|
    ensures text != "" && !Blank(text[0]) ==> |r.1| < |text|
    decreases |text|
  {
    if text == "" then
      (acc + Slashes(pending), "")
    else if text[0] == BACKSLASH then
      ScanArgument(text[1..], quoted, pending + 1, acc)
    else if text[0] == QUOTE_MARK then
      if pending % 2 == 1 then
        ScanArgument(text[1..], quoted, 0, acc + Slashes(pending / 2) + [QUOTE_MARK])
      else if quoted && |text| > 1 && text[1] == QUOTE_MARK then
        ScanArgument(text[2..], quoted, 0, acc + Slashes(pending / 2) + [QUOTE_MARK])
      else
        ScanArgument(text[1..], !quoted, 0, acc + Slashes(pending / 2))
    else if !quoted && Blank(text[0]) then
      (acc + Slashes(pending), text)
    else
      ScanArgument(text[1..], quoted, 0, acc + Slashes(pending) + [text[0]])
  }

  /** All arguments of a text, by the rules for arguments after the program name. */
  function ParseArguments(text: string): seq<string>
    decreases |text|
  {
    if text == "" then
      []
    else if Blank(text[0]) then
      ParseArguments(text[1..])
    else
      var r := ScanArgument(text, false, 0, "");
      [r.0] + ParseArguments(r.1)
  }

  /** The program name: quote marks only switch the meaning of blanks on and off
      and a backslash is always literal. */
  function ScanProgram(text: string, quoted: bool, acc: string): (r: (string, string))
    ensures |r.1| <= |text|
    decreases |text|
  {
    if text == "" then
      (acc, "")
    else if text[0] == QUOTE_MARK then
      ScanProgram(text[1..], !quoted, acc)
    else if !quoted && Blank(text[0]) then
      (acc, text)
    else
      ScanProgram(text[1..], quoted, acc + [text[0]])
  }

  /** A whole command line: the program name, then the remaining arguments. */
  function ParseCommandLine(text: string): seq<string> {
    var r := ScanProgram(text, false, "");
    [r.0] + ParseArguments(r.1)
  }

  // --------------------------------------------------- one argument and its end

  /** What may follow an argument: nothing, or a separator. */
  predicate Separated(tail: string) {
    tail == "" || Blank(tail[0])
  }

  lemma {:induction false} ScanSlashes(n: nat, text: string, quoted: bool, pending: nat, acc: string)
    ensures ScanArgument(Slashes(n) + text, quoted, pending, acc) == ScanArgument(text, quoted, pending + n, acc)
  {
    if n == 0 {
      assert Slashes(n) + text == text;
    } else {
      var whole := Slashes(n) + text;
      assert whole[0] == BACKSLASH && whole[1..] == Slashes(n - 1) + text;
      ScanSlashes(n - 1, text, quoted, pending + 1, acc);
    }
  }

  lemma {:induction false} SlashesAdd(m: nat, n: nat)
    ensures Slashes(m) + Slashes(n) == Slashes(m + n)
  {
  }

  lemma ScanCharacter(c: char, text: string, pending: nat, acc: string)
    requires c != BACKSLASH && c != QUOTE_MARK
    ensures ScanArgument([c] + text, true, pending, acc)
         == ScanArgument(text, true, 0, acc + Slashes(pending) + [c])
  {
    assert ([c] + text)[1..] == text;
  }

  lemma ScanQuoteMark(text: string, quoted: bool, pending: nat, acc: string)
    requires !quoted || text == "" || text[0] != QUOTE_MARK || pending % 2 == 1
    ensures ScanArgument([QUOTE_MARK] + text, quoted, pending, acc)
         == if pending % 2 == 1
            then ScanArgument(text, quoted, 0, acc + Slashes(pending / 2) + [QUOTE_MARK])
            else ScanArgument(text, !quoted, 0, acc + Slashes(pending / 2))
  {
    assert ([QUOTE_MARK] + text)[1..] == text;
  }

  lemma Regroup(slashes: string, c: string, rest: string, tail: string)
    ensures slashes + c + rest + [QUOTE_MARK] + tail == slashes + (c + (rest + [QUOTE_MARK] + tail))
  {
  }

  lemma Collect(acc: string, pending: nat, c: char, rest: string)
    ensures acc + Slashes(pending) + [c] + Slashes(0) + rest == acc + Slashes(pending) + ([c] + rest)
    ensures c == BACKSLASH ==> acc + Slashes(pending + 1) + rest == acc + Slashes(pending) + ([c] + rest)
  {
    if c == BACKSLASH {
      SlashesAdd(pending, 1);
      assert Slashes(1) == [c];
    }
  }

  /** Inside quote marks the parser undoes the escaping and stops at the end. */
  lemma {:induction false} ScanEscaped(arg: string, pending: nat, tail: string, acc: string)
    requires Separated(tail)
    ensures ScanArgument(Escaped(arg, pending) + [QUOTE_MARK] + tail, true, 0, acc)
         == (acc + Slashes(pending) + arg, tail)
    decreases |arg|
  {
    if arg == "" {
      Regroup(Slashes(2 * pending), "", "", tail);
      assert "" + ("" + [QUOTE_MARK] + tail) == [QUOTE_MARK] + tail;
      assert Slashes(2 * pending) + "" + "" == Slashes(2 * pending);
      ScanSlashes(2 * pending, [QUOTE_MARK] + tail, true, 0, acc);
      ScanQuoteMark(tail, true, 2 * pending, acc);
      assert acc + Slashes(pending) + arg == acc + Slashes(pending);
    } else {
      assert arg == [arg[0]] + arg[1..];
      Collect(acc, pending, arg[0], arg[1..]);
      if arg[0] == BACKSLASH {
        ScanEscaped(arg[1..], pending + 1, tail, acc);
      } else {
        ScanEscapedCharacter(arg[0], arg[1..], pending, tail, acc);
        ScanEscaped(arg[1..], 0, tail, acc + Slashes(pending) + [arg[0]]);
      }
    }
  }

  lemma ScanEscapedCharacter(c: char, others: string, pending: nat, tail: string, acc: string)
    requires c != BACKSLASH
    ensures ScanArgument(Escaped([c] + others, pending) + [QUOTE_MARK] + tail, true, 0, acc)
         == ScanArgument(Escaped(others, 0) + [QUOTE_MARK] + tail, true, 0, acc + Slashes(pending) + [c])
  {
    assert ([c] + others)[1..] == others;
    var rest := Escaped(others, 0) + [QUOTE_MARK] + tail;
    var count := if c == QUOTE_MARK then 2 * pending + 1 else pending;
    Regroup(Slashes(count), [c], Escaped(others, 0), tail);
    ScanSlashes(count, [c] + rest, true, 0, acc);
    if c == QUOTE_MARK {
      ScanQuoteMark(rest, true, count, acc);
    } else {
      ScanCharacter(c, rest, count, acc);
    }
  }

  /** Outside quote marks a text without blanks and quote marks is read verbatim. */
  lemma {:induction false} ScanPlain(arg: string, pending: nat, tail: string, acc: string)
    requires arg == "" || Plain(arg)
    requires Separated(tail)
    ensures ScanArgument(arg + tail, false, pending, acc) == (acc + Slashes(pending) + arg, tail)
    decreases |arg|
  {
    if arg == "" {
      assert arg + tail == tail;
      assert acc + Slashes(pending) + arg == acc + Slashes(pending);
    } else {
      assert (arg + tail)[1..] == arg[1..] + tail;
      if arg[0] == BACKSLASH {
        ScanPlain(arg[1..], pending + 1, tail, acc);
        SlashesAdd(pending, 1);
        assert Slashes(1) == [BACKSLASH];
        assert acc + Slashes(pending + 1) + arg[1..] == acc + Slashes(pending) + arg;
      } else {
        var next := acc + Slashes(pending) + [arg[0]];
        ScanPlain(arg[1..], 0, tail, next);
        assert next + Slashes(0) + arg[1..] == acc + Slashes(pending) + arg;
      }
    }
  }

  lemma ScanMarked(arg: string, tail: string)
    requires Separated(tail)
    ensures ScanArgument([QUOTE_MARK] + Escaped(arg, 0) + [QUOTE_MARK] + tail, false, 0, "") == (arg, tail)
  {
    var rest := Escaped(arg, 0) + [QUOTE_MARK] + tail;
    assert [QUOTE_MARK] + Escaped(arg, 0) + [QUOTE_MARK] + tail == [QUOTE_MARK] + rest;
    ScanQuoteMark(rest, false, 0, "");
    assert "" + Slashes(0) == "";
    ScanEscaped(arg, 0, tail, "");
    assert "" + Slashes(0) + arg == arg;
  }

  /** One printed argument, whatever follows it after a separator, is read back. */
  lemma ScanQuoted(arg: string, tail: string)
    requires Separated(tail)
    ensures Quoted(arg) != "" && !Blank(Quoted(arg)[0])
    ensures ScanArgument(Quoted(arg) + tail, false, 0, "") == (arg, tail)
  {
    if Plain(arg) {
      ScanPlain(arg, 0, tail, "");
      assert "" + Slashes(0) + arg == arg;
    } else {
      ScanMarked(arg, tail);
    }
  }

  // -------------------------------------------------------------- main results

  /** Splitting the joined line by the rules for arguments after the program name
      returns exactly the argument list. */
  lemma {:induction false} CommandLineRoundTrip(args: seq<string>)
    ensures ParseArguments(Joined(args)) == args
    decreases |args|
  {
    if args != [] {
      var tail := if |args| == 1 then "" else " " + Joined(args[1..]);
      assert Joined(args) == Quoted(args[0]) + tail;
      ScanQuoted(args[0], tail);
      if |args| == 1 {
        assert args == [args[0]];
      } else {
        assert tail[1..] == Joined(args[1..]);
        CommandLineRoundTrip(args[1..]);
      }
    }
  }

  /** Different argument lists never share a command line. */
  lemma CommandLineInjective(args: seq<string>, others: seq<string>)
    ensures Joined(args) == Joined(others) ==> args == others
  {
    CommandLineRoundTrip(args);
    CommandLineRoundTrip(others);
  }

  // The program name is read by a coarser rule. The printed name survives it
  // exactly when it holds no quote mark and, if it has to be quoted, does not
  // end in a backslash.

  predicate NameSurvives(arg: string) {
    && QUOTE_MARK !in arg
    && (Plain(arg) || arg == "" || arg[|arg| - 1] != BACKSLASH)
  }

  lemma {:induction false} ScanProgramPlain(text: string, quoted: bool, tail: string, acc: string)
    requires forall i :: 0 <= i < |text| ==> text[i] != QUOTE_MARK && (quoted || !Blank(text[i]))
    ensures ScanProgram(text + tail, quoted, acc) == ScanProgram(tail, quoted, acc + text)
    decreases |text|
  {
    if text == "" {
      assert text + tail == tail && acc + text == acc;
    } else {
      assert (text + tail)[1..] == text[1..] + tail;
      ScanProgramPlain(text[1..], quoted, tail, acc + [text[0]]);
      assert acc + [text[0]] + text[1..] == acc + text;
    }
  }

  lemma {:induction false} ScanProgramKeepsNoQuote(text: string, quoted: bool, acc: string)
    requires QUOTE_MARK !in acc
    ensures QUOTE_MARK !in ScanProgram(text, quoted, acc).0
    decreases |text|
  {
    if text != "" {
      if text[0] == QUOTE_MARK {
        ScanProgramKeepsNoQuote(text[1..], !quoted, acc);
      } else if quoted || !Blank(text[0]) {
        ScanProgramKeepsNoQuote(text[1..], quoted, acc + [text[0]]);
      }
    }
  }

  /** How many backslashes end a text when `pending` precede it. */
  function Trailing(arg: string, pending: nat): nat {
    if arg == "" then pending
    else if arg[0] == BACKSLASH then Trailing(arg[1..], pending + 1)
    else Trailing(arg[1..], 0)
  }

  lemma {:induction false} TrailingIsAtEnd(arg: string, pending: nat)
    ensures Trailing(arg, pending) > 0 <==> (if arg == "" then pending > 0 else arg[|arg| - 1] == BACKSLASH)
    decreases |arg|
  {
    if arg != "" {
      TrailingIsAtEnd(arg[1..], if arg[0] == BACKSLASH then pending + 1 else 0);
    }
  }

  /** Without quote marks, escaping only doubles the backslashes at the end. */
  lemma {:induction false} EscapedWithoutQuotes(arg: string, pending: nat)
    requires QUOTE_MARK !in arg
    ensures Escaped(arg, pending) == Slashes(pending) + arg + Slashes(Trailing(arg, pending))
    decreases |arg|
  {
    if arg == "" {
      SlashesAdd(pending, pending);
    } else if arg[0] == BACKSLASH {
      EscapedWithoutQuotes(arg[1..], pending + 1);
      SlashesAdd(pending, 1);
      assert Slashes(1) == [BACKSLASH];
      assert Slashes(pending + 1) + arg[1..] == Slashes(pending) + arg;
    } else {
      EscapedWithoutQuotes(arg[1..], 0);
      assert Slashes(pending) + [arg[0]] + (Slashes(0) + arg[1..] + Slashes(Trailing(arg[1..], 0)))
          == Slashes(pending) + arg + Slashes(Trailing(arg, pending));
    }
  }

  lemma ScanProgramMark(rest: string, quoted: bool, acc: string)
    ensures ScanProgram([QUOTE_MARK] + rest, quoted, acc) == ScanProgram(rest, !quoted, acc)
  {
    assert ([QUOTE_MARK] + rest)[1..] == rest;
  }

  lemma EscapedName(arg: string)
    requires QUOTE_MARK !in arg
    ensures Escaped(arg, 0) == arg + Slashes(Trailing(arg, 0))
  {
    EscapedWithoutQuotes(arg, 0);
    assert Slashes(0) + arg == arg;
  }

  /** A quoted text without quote marks inside is read up to its closing quote mark. */
  lemma ScanProgramQuoted(body: string, tail: string)
    requires Separated(tail) && QUOTE_MARK !in body
    ensures ScanProgram([QUOTE_MARK] + (body + ([QUOTE_MARK] + tail)), false, "") == (body, tail)
  {
    ScanProgramMark(body + ([QUOTE_MARK] + tail), false, "");
    ScanProgramPlain(body, true, [QUOTE_MARK] + tail, "");
    assert "" + body == body;
    ScanProgramMark(tail, true, body);
  }

  /** A quoted name without quote marks is read with its last backslashes doubled. */
  lemma QuotedName(arg: string, tail: string)
    requires Separated(tail) && QUOTE_MARK !in arg && !Plain(arg)
    ensures ScanProgram(Quoted(arg) + tail, false, "") == (arg + Slashes(Trailing(arg, 0)), tail)
  {
    var body := Escaped(arg, 0);
    EscapedName(arg);
    assert [QUOTE_MARK] + body + [QUOTE_MARK] + tail == [QUOTE_MARK] + (body + ([QUOTE_MARK] + tail));
    ScanProgramQuoted(body, tail);
  }

  lemma ProgramName(arg: string, tail: string)
    requires Separated(tail)
    ensures ScanProgram(Quoted(arg) + tail, false, "").0 == arg <==> NameSurvives(arg)
    ensures NameSurvives(arg) ==> ScanProgram(Quoted(arg) + tail, false, "").1 == tail
  {
    if QUOTE_MARK in arg {
      ScanProgramKeepsNoQuote(Quoted(arg) + tail, false, "");
    } else if Plain(arg) {
      ScanProgramPlain(arg, false, tail, "");
      assert "" + arg == arg;
    } else {
      QuotedName(arg, tail);
      TrailingIsAtEnd(arg, 0);
      assert arg + Slashes(Trailing(arg, 0)) == arg <==> Trailing(arg, 0) == 0;
    }
  }

  /** What follows the program name on the line. */
  function Tail(rest: seq<string>): string {
    if rest == [] then "" else " " + Joined(rest)
  }

  lemma JoinedSplits(args: seq<string>)
    requires args != []
    ensures Joined(args) == Quoted(args[0]) + Tail(args[1..])
  {
  }

  lemma TailIsReadBack(rest: seq<string>)
    ensures Separated(Tail(rest)) && ParseArguments(Tail(rest)) == rest
  {
    CommandLineRoundTrip(rest);
    if rest != [] {
      assert Tail(rest)[1..] == Joined(rest);
    }
  }

  /** The whole line, program name included, is read back exactly when the name
      survives its own rule; the other arguments are never the obstacle. */
  lemma WholeLineRoundTrip(args: seq<string>)
    requires args != []
    ensures ParseCommandLine(Joined(args)) == args <==> NameSurvives(args[0])
  {
    JoinedSplits(args);
    TailIsReadBack(args[1..]);
    ProgramName(args[0], Tail(args[1..]));
    assert args == [args[0]] + args[1..];
  }

  /** A program name that needs quote marks and ends in a backslash is misread. */
  lemma TrailingBackslashNameIsMisread()
    ensures ParseCommandLine(Joined(["a b\\"])) != ["a b\\"]
  {
    assert Blank("a b\\"[1]);
    WholeLineRoundTrip(["a b\\"]);
  }
}
