// Windows command lines: quoting an argument so that the argument parser gives it back,
// and the string of all arguments.
module CommandLineQuoting {

  // ------------------------------------------------------------ the parser's rules

  /** The number of backslashes at the start. */
  function Run(s: string): (n: nat)
    ensures n <= |s| && (forall k :: 0 <= k < n ==> s[k] == '\\') && (n < |s| ==> s[n] != '\\')
  {
    if s == "" || s[0] != '\\' then 0 else 1 + Run(s[1..])
  }

  function Backslashes(n: nat): (s: string)
    ensures |s| == n && forall k :: 0 <= k < n ==> s[k] == '\\'
  {
    seq(n, _ => '\\')
  }

  predicate Separator(c: char)
  {
    c == ' ' || c == '\t'
  }

  function Prepend(p: string, r: (string, string)): (string, string)
  {
    (p + r.0, r.1)
  }

  /** One argument after the program name, from inside or outside of double quotes: its
      text, and the rest of the line from the separator on. 2n backslashes before a double
      quote stand for n and the quote delimits; 2n + 1 stand for n and a literal quote;
      other backslashes stand for themselves. */
  function ParseArg(s: string, quoted: bool): (r: (string, string))
    ensures |r.1| <= |s|
    ensures !quoted && s != "" && !Separator(s[0]) ==> |r.1| < |s|
    decreases |s|
  {
    if s == "" then ("", "")
    else
      var n := Run(s);
      if n < |s| && s[n] == '"' then
        if n % 2 == 1 then Prepend(Backslashes(n / 2) + ['"'], ParseArg(s[n + 1..], quoted))
        else Prepend(Backslashes(n / 2), ParseArg(s[n + 1..], !quoted))
      else if n > 0 then Prepend(Backslashes(n), ParseArg(s[n..], quoted))
      else if Separator(s[0]) && !quoted then ("", s)
      else Prepend([s[0]], ParseArg(s[1..], quoted))
  }

  function SkipSeparators(s: string): (r: string)
    ensures |r| <= |s| && (r != "" ==> !Separator(r[0]))
  {
    if s != "" && Separator(s[0]) then SkipSeparators(s[1..]) else s
  }

  /** All the arguments of a line. */
  function ParseArgs(s: string): seq<string>
    decreases |s|
  {
    var t := SkipSeparators(s);
    if t == "" then []
    else
      var r := ParseArg(t, false);
      [r.0] + ParseArgs(r.1)
  }

  // ------------------------------------------------------------ the quoting

  /** The characters that make quoting necessary. */
  predicate Quotable(c: char, quotePlaceholders: bool)
  {
    c == ' ' || c == '\\' || c == '"' || (quotePlaceholders && c == '%')
  }

  predicate NeedsQuotes(arg: string, quotePlaceholders: bool)
  {
    exists k :: 0 <= k < |arg| && Quotable(arg[k], quotePlaceholders)
  }

  /** The text between the quotes: a run of backslashes is doubled if a double quote or
      the end follows it, and a double quote is escaped. */
  function Body(s: string): string
    decreases |s|
  {
    if s == "" then ""
    else if s[0] == '\\' then
      var n := Run(s);
      Backslashes(if n == |s| || s[n] == '"' then 2 * n else n) + Body(s[n..])
    else if s[0] == '"' then ['\\', '"'] + Body(s[1..])
    else [s[0]] + Body(s[1..])
  }

  function Quoted(arg: string, quotePlaceholders: bool): string
  {
    if NeedsQuotes(arg, quotePlaceholders) then ['"'] + Body(arg) + ['"'] else arg
  }

  /** The branch for a run of backslashes from start on: what the output becomes, and
      where the run ends. */
  method QuoteRun(arg: string, start: nat, before: string) returns (out: string, end: nat)
    requires start < |arg| && arg[start] == '\\'
    ensures start < end <= |arg| && out + Body(arg[end..]) == before + Body(arg[start..])
  {
    hide Body, Backslashes;
    end := start + 1;
    while end < |arg| && arg[end] == '\\'
      invariant start < end <= |arg| && forall k :: start <= k < end ==> arg[k] == '\\'
    {
      end := end + 1;
    }
    var backslashCount := end - start;
    if end == |arg| || arg[end] == '"' {
      backslashCount := backslashCount * 2;
    }
    BodyOfRun(arg, start, end);
    BackslashesNone(before);
    out := before;
    var j := 0;
    while j < backslashCount
      invariant j <= backslashCount && out == before + Backslashes(j)
    {
      BackslashesAdd(j, 1);
      Reassociate(before, Backslashes(j), ['\\']);
      out := out + ['\\'];
      j := j + 1;
    }
    Reassociate(before, Backslashes(backslashCount), Body(arg[end..]));
  }

  /** QuoteForCommandLineToArgvW. */
  method QuoteForCommandLineToArgvW(arg: string, quotePlaceholders: bool) returns (out: string)
    ensures out == Quoted(arg, quotePlaceholders)
  {
    QuotedWhole(arg, quotePlaceholders);
    hide Body, Run, Backslashes, NeedsQuotes, Quoted;
    if !NeedsQuotes(arg, quotePlaceholders) {
      return arg;
    }
    out := ['"'];
    ghost var whole := ['"'] + Body(arg);
    assert arg[0..] == arg;
    var i := 0;
    while i < |arg|
      invariant i <= |arg|
      invariant out + Body(arg[i..]) == whole
    {
      if arg[i] == '\\' {
        var end;
        out, end := QuoteRun(arg, i, out);
        i := end - 1;
      } else if arg[i] == '"' {
        EscapedMark(arg, i, out);
        out := out + ['\\'];
        out := out + ['"'];
      } else {
        PlainChar(arg, i, out);
        out := out + [arg[i]];
      }
      i := i + 1;
    }
    BodyAtEnd(arg, out);
    out := out + ['"'];
  }

  lemma QuotedWhole(arg: string, quotePlaceholders: bool)
    ensures Quoted(arg, quotePlaceholders) == if NeedsQuotes(arg, quotePlaceholders) then ['"'] + Body(arg) + ['"'] else arg
  {
    hide Body, NeedsQuotes;
  }

  lemma EscapedMark(arg: string, i: nat, out: string)
    requires i < |arg| && arg[i] == '"'
    ensures out + ['\\'] + ['"'] + Body(arg[i + 1..]) == out + Body(arg[i..])
  {
    hide Body;
    BodyOfQuote(arg, i);
  }

  lemma PlainChar(arg: string, i: nat, out: string)
    requires i < |arg| && arg[i] != '"' && arg[i] != '\\'
    ensures out + [arg[i]] + Body(arg[i + 1..]) == out + Body(arg[i..])
  {
    hide Body;
    BodyOfChar(arg, i);
  }

  lemma BodyAtEnd(arg: string, out: string)
    ensures out + Body(arg[|arg|..]) == out
  {
    BodyEmpty();
    assert arg[|arg|..] == "" && out + "" == out;
  }

  lemma BackslashesNone(s: string)
    ensures Backslashes(0) == "" && s + Backslashes(0) == s
  {
  }

  lemma Reassociate(a: string, b: string, c: string)
    ensures a + (b + c) == (a + b) + c
  {
  }

  lemma BodyOfRun(arg: string, start: nat, end: nat)
    requires start < end <= |arg| && (forall k :: start <= k < end ==> arg[k] == '\\') && (end < |arg| ==> arg[end] != '\\')
    ensures Body(arg[start..]) == Backslashes(if end == |arg| || arg[end] == '"' then 2 * (end - start) else end - start) + Body(arg[end..])
  {
    RunIs(arg[start..], end - start);
    assert arg[start..][end - start..] == arg[end..];
  }

  lemma BodyOfQuote(arg: string, i: nat)
    requires i < |arg| && arg[i] == '"'
    ensures Body(arg[i..]) == ['\\', '"'] + Body(arg[i + 1..])
  {
    assert arg[i..][1..] == arg[i + 1..];
  }

  lemma BodyOfChar(arg: string, i: nat)
    requires i < |arg| && arg[i] != '"' && arg[i] != '\\'
    ensures Body(arg[i..]) == [arg[i]] + Body(arg[i + 1..])
  {
    assert arg[i..][1..] == arg[i + 1..];
  }

  lemma {:induction false} RunIs(s: string, n: nat)
    requires n <= |s| && (forall k :: 0 <= k < n ==> s[k] == '\\') && (n < |s| ==> s[n] != '\\')
    ensures Run(s) == n
  {
    if n > 0 {
      RunIs(s[1..], n - 1);
    }
  }

  /** Nothing gets lost between the quotes. */
  lemma {:induction false} BodyIsLonger(s: string)
    ensures |Body(s)| >= |s|
    decreases |s|
  {
    if s != "" {
      if s[0] == '\\' {
        BodyIsLonger(s[Run(s)..]);
      } else {
        BodyIsLonger(s[1..]);
      }
    }
  }

  /** An argument is left as it is just when it has no space, backslash or double quote, nor
      a percent sign where placeholders are quoted; any other one gets quotes around it. */
  lemma QuotedJustWhenNeeded(arg: string, quotePlaceholders: bool)
    ensures Quoted(arg, quotePlaceholders) == arg
        <==> ' ' !in arg && '\\' !in arg && '"' !in arg && (quotePlaceholders ==> '%' !in arg)
    ensures var q := Quoted(arg, quotePlaceholders); q != arg ==> |q| >= |arg| + 2 && q[0] == '"' && q[|q| - 1] == '"'
  {
    hide Body;
    BodyIsLonger(arg);
  }

  // ------------------------------------------------------------ parsing undoes quoting

  /** Behind an argument comes the end of the line or a separator. */
  predicate Ends(rest: string)
  {
    rest == "" || Separator(rest[0])
  }

  lemma AfterArg(rest: string)
    requires Ends(rest)
    ensures ParseArg(rest, false) == ("", rest)
  {
    if rest != "" {
      RunIs(rest, 0);
    }
  }

  /** The parser at n backslashes and what is not a backslash. */
  lemma ParseRun(n: nat, tail: string, quoted: bool)
    requires tail == "" || tail[0] != '\\'
    ensures tail != "" && tail[0] == '"' && n % 2 == 1 ==>
        ParseArg(Backslashes(n) + tail, quoted) == Prepend(Backslashes(n / 2) + ['"'], ParseArg(tail[1..], quoted))
    ensures tail != "" && tail[0] == '"' && n % 2 == 0 ==>
        ParseArg(Backslashes(n) + tail, quoted) == Prepend(Backslashes(n / 2), ParseArg(tail[1..], !quoted))
    ensures n > 0 && (tail == "" || tail[0] != '"') ==> ParseArg(Backslashes(n) + tail, quoted) == Prepend(Backslashes(n), ParseArg(tail, quoted))
  {
    hide ParseArg, Run, Backslashes;
    var s := Backslashes(n) + tail;
    RunIs(s, n);
    assert s[n..] == tail;
    if tail != "" {
      assert s[n + 1..] == tail[1..] && s[n] == tail[0];
    }
    if s != "" {
      ParseStep(s, n, quoted);
    }
  }

  /** The parser's definition at a run of n backslashes. */
  lemma ParseStep(s: string, n: nat, quoted: bool)
    requires s != "" && Run(s) == n
    ensures n < |s| && s[n] == '"' && n % 2 == 1 ==>
        ParseArg(s, quoted) == Prepend(Backslashes(n / 2) + ['"'], ParseArg(s[n + 1..], quoted))
    ensures n < |s| && s[n] == '"' && n % 2 == 0 ==>
        ParseArg(s, quoted) == Prepend(Backslashes(n / 2), ParseArg(s[n + 1..], !quoted))
    ensures n > 0 && (n == |s| || s[n] != '"') ==> ParseArg(s, quoted) == Prepend(Backslashes(n), ParseArg(s[n..], quoted))
  {
    hide Run, Backslashes;
  }

  lemma ParseChar(c: char, tail: string, quoted: bool)
    requires c != '\\' && c != '"' && (quoted || !Separator(c))
    ensures ParseArg([c] + tail, quoted) == Prepend([c], ParseArg(tail, quoted))
  {
    RunIs([c] + tail, 0);
    assert ([c] + tail)[1..] == tail;
  }

  /** Inside quotes the parser reads the quoted text up to the closing quote. */
  lemma {:induction false} ParseBody(s: string, rest: string)
    requires Ends(rest)
    ensures ParseArg(Body(s) + ['"'] + rest, true) == (s, rest)
    decreases |s|
  {
    hide ParseArg, Run, Backslashes, Body;
    var close := ['"'] + rest;
    assert Body(s) + ['"'] + rest == Body(s) + close;
    if s == "" {
      AfterArg(rest);
      BodyEmpty();
      BackslashesNone("");
      assert close[1..] == rest && Backslashes(0) + close == close && Body(s) + close == close;
      ParseRun(0, close, true);
    } else if s[0] == '\\' {
      ParseRunOfBody(s, rest);
    } else if s[0] == '"' {
      var tail := Body(s[1..]) + ['"'] + rest;
      ParseBody(s[1..], rest);
      BodyOfQuote(s, 0);
      assert s[0..] == s;
      ParseRun(1, ['"'] + tail, true);
      BackslashesAdd(1, 0);
      BackslashesNone("");
      assert Body(s) + close == Backslashes(1) + (['"'] + tail);
      assert (['"'] + tail)[1..] == tail;
      assert Backslashes(0) + ['"'] + s[1..] == s;
    } else {
      var tail := Body(s[1..]) + ['"'] + rest;
      ParseBody(s[1..], rest);
      BodyOfChar(s, 0);
      assert s[0..] == s;
      ParseChar(s[0], tail, true);
      assert Body(s) + close == [s[0]] + tail;
      assert [s[0]] + s[1..] == s;
    }
  }

  /** The text of a run of backslashes. */
  lemma RunText(s: string)
    ensures s == Backslashes(Run(s)) + s[Run(s)..]
  {
  }

  lemma BodyAfterRun(s: string)
    requires s != "" && s[0] != '\\'
    ensures Body(s) != "" && (s[0] == '"' ==> Body(s) == ['\\', '"'] + Body(s[1..]))
    ensures s[0] != '"' ==> Body(s)[0] == s[0]
  {
  }

  lemma RunPositive(s: string)
    requires s != "" && s[0] == '\\'
    ensures Run(s) > 0
    ensures Body(s) == Backslashes(if Run(s) == |s| || s[Run(s)] == '"' then 2 * Run(s) else Run(s)) + Body(s[Run(s)..])
  {
  }

  lemma {:induction false} ParseRunOfBody(s: string, rest: string)
    requires Ends(rest) && s != "" && s[0] == '\\'
    ensures ParseArg(Body(s) + ['"'] + rest, true) == (s, rest)
    decreases |s|, 0
  {
    hide ParseArg, Body, Backslashes, Run, Ends;
    var after := s[Run(s)..];
    RunBounds(s);
    if after == "" {
      ParseRunAtEnd(s, rest);
    } else if after[0] == '"' {
      ParseBody(after[1..], rest);
      ParseRunAtQuote(s, rest);
    } else {
      ParseBody(after, rest);
      ParseRunAtChar(s, rest);
    }
  }

  lemma ParseRunAtEnd(s: string, rest: string)
    requires Ends(rest) && s != "" && s[0] == '\\' && Run(s) == |s|
    ensures ParseArg(Body(s) + ['"'] + rest, true) == (s, rest)
  {
    hide ParseArg, Body, Backslashes, Run;
    var n, close := Run(s), ['"'] + rest;
    RunText(s);
    RunPositive(s);
    AfterArg(rest);
    BodyEmpty();
    assert close[1..] == rest && s[n..] == "";
    ParseRun(2 * n, close, true);
    assert Body(s) + ['"'] + rest == Backslashes(2 * n) + close;
    assert s == Backslashes(n);
  }

  lemma ParseRunAtQuote(s: string, rest: string)
    requires s != "" && s[0] == '\\' && Run(s) < |s| && s[Run(s)] == '"'
    requires var more := s[Run(s)..][1..]; ParseArg(Body(more) + ['"'] + rest, true) == (more, rest)
    ensures ParseArg(Body(s) + ['"'] + rest, true) == (s, rest)
  {
    hide ParseArg, Body, Backslashes, Run, Ends;
    var n, after := Run(s), s[Run(s)..];
    var tail := Body(after[1..]) + ['"'] + rest;
    RunText(s);
    RunPositive(s);
    BodyAfterRun(after);
    ParseRun(2 * n + 1, ['"'] + tail, true);
    BackslashesAdd(2 * n, 1);
    assert Body(s) + ['"'] + rest == Backslashes(2 * n + 1) + (['"'] + tail);
    assert (['"'] + tail)[1..] == tail;
    assert s == Backslashes(n) + ['"'] + after[1..];
  }

  lemma ParseRunAtChar(s: string, rest: string)
    requires s != "" && s[0] == '\\' && Run(s) < |s| && s[Run(s)] != '"' && s[Run(s)] != '\\'
    requires var after := s[Run(s)..]; ParseArg(Body(after) + ['"'] + rest, true) == (after, rest)
    ensures ParseArg(Body(s) + ['"'] + rest, true) == (s, rest)
  {
    hide ParseArg, Body, Backslashes, Run, Ends;
    var n, after := Run(s), s[Run(s)..];
    var tail := Body(after) + ['"'] + rest;
    RunText(s);
    RunPositive(s);
    BodyAfterRun(after);
    ParseRun(n, tail, true);
    assert Body(s) + ['"'] + rest == Backslashes(n) + tail;
  }

  lemma BodyEmpty()
    ensures Body("") == ""
  {
  }

  lemma BackslashesAdd(m: nat, n: nat)
    ensures Backslashes(m) + Backslashes(n) == Backslashes(m + n)
    ensures Backslashes(1) == ['\\']
  {
  }

  // ------------------------------------------------------------ one argument

  predicate HasTab(arg: string)
  {
    exists k :: 0 <= k < |arg| && arg[k] == '\t'
  }

  /** Text with no special character reads as itself, in front of anything. */
  lemma {:induction false} ParsePlain(plain: string, rest: string)
    requires forall k :: 0 <= k < |plain| ==> plain[k] != '\\' && plain[k] != '"' && !Separator(plain[k])
    ensures ParseArg(plain + rest, false) == Prepend(plain, ParseArg(rest, false))
  {
    hide ParseArg;
    if plain == "" {
      assert plain + rest == rest;
      assert Prepend("", ParseArg(rest, false)).0 == ParseArg(rest, false).0;
    } else {
      ParsePlain(plain[1..], rest);
      ParseChar(plain[0], plain[1..] + rest, false);
      assert plain + rest == [plain[0]] + (plain[1..] + rest);
      assert [plain[0]] + plain[1..] == plain;
      var r := ParseArg(rest, false);
      assert [plain[0]] + (plain[1..] + r.0) == plain + r.0;
    }
  }

  /** A quoted argument reads as the argument, up to the separator behind it. */
  lemma ParseQuoted(arg: string, quotePlaceholders: bool, rest: string)
    requires Ends(rest) && (NeedsQuotes(arg, quotePlaceholders) || !HasTab(arg))
    ensures ParseArg(Quoted(arg, quotePlaceholders) + rest, false) == (arg, rest)
  {
    hide ParseArg, Body, Backslashes, Run;
    if NeedsQuotes(arg, quotePlaceholders) {
      var tail := Body(arg) + ['"'] + rest;
      ParseBody(arg, rest);
      BackslashesNone("");
      assert Quoted(arg, quotePlaceholders) + rest == Backslashes(0) + (['"'] + tail);
      ParseRun(0, ['"'] + tail, false);
      assert (['"'] + tail)[1..] == tail && "" + arg == arg;
    } else {
      forall k | 0 <= k < |arg|
        ensures arg[k] != '\\' && arg[k] != '"' && !Separator(arg[k])
      {
        assert !Quotable(arg[k], quotePlaceholders);
      }
      ParsePlain(arg, rest);
      AfterArg(rest);
      assert arg + "" == arg;
    }
  }

  lemma QuotedStart(arg: string, quotePlaceholders: bool, rest: string)
    requires arg != "" && (NeedsQuotes(arg, quotePlaceholders) || !HasTab(arg))
    ensures Quoted(arg, quotePlaceholders) != "" && !Separator((Quoted(arg, quotePlaceholders) + rest)[0])
  {
    hide Body;
    if !NeedsQuotes(arg, quotePlaceholders) {
      assert !Quotable(arg[0], quotePlaceholders);
    }
  }

  /** Reading the quoted argument alone gives it back exactly when it is not empty and it
      has no tab or a character that makes the code quote it. */
  lemma QuoteRoundTrip(arg: string, quotePlaceholders: bool)
    ensures ParseArgs(Quoted(arg, quotePlaceholders)) == [arg] <==> arg != "" && (NeedsQuotes(arg, quotePlaceholders) || !HasTab(arg))
  {
    hide ParseArg, Quoted;
    var s := Quoted(arg, quotePlaceholders);
    if arg == "" {
      assert s == "" by { QuotedEmpty(quotePlaceholders); }
    } else if NeedsQuotes(arg, quotePlaceholders) || !HasTab(arg) {
      ParseQuoted(arg, quotePlaceholders, "");
      QuotedStart(arg, quotePlaceholders, "");
      assert s + "" == s;
    } else {
      UnquotedTab(arg, quotePlaceholders);
    }
  }

  lemma QuotedEmpty(quotePlaceholders: bool)
    ensures Quoted("", quotePlaceholders) == ""
  {
  }

  /** An argument with a tab that is not quoted is never read back. */
  lemma UnquotedTab(arg: string, quotePlaceholders: bool)
    requires HasTab(arg) && !NeedsQuotes(arg, quotePlaceholders)
    ensures ParseArgs(Quoted(arg, quotePlaceholders)) != [arg]
  {
    hide ParseArg, ParseArgs, NeedsQuotes;
    assert arg + "" == arg;
    if Blank(arg) {
      SkipBlank(arg, "");
      FirstOfLine("");
    } else {
      UnquotedFirst(arg, quotePlaceholders, "");
    }
  }

  // ------------------------------------------------------------ text that is not quoted

  /** The characters with a meaning of their own to the parser. */
  predicate Mark(c: char)
  {
    c == '\\' || c == '"'
  }

  predicate Marks(s: string)
  {
    forall k :: 0 <= k < |s| ==> Mark(s[k])
  }

  /** Text that can stand on the line as it is, if what follows is no mark. */
  predicate Nameable(s: string)
  {
    forall k :: 0 <= k < |s| ==> s[k] != '"' && !Separator(s[k])
  }

  predicate NoMarkFirst(s: string)
  {
    s == "" || !Mark(s[0])
  }

  /** Such text reads as itself, backslashes included. */
  lemma {:induction false} ParseName(name: string, rest: string)
    requires Nameable(name) && NoMarkFirst(rest)
    ensures ParseArg(name + rest, false) == Prepend(name, ParseArg(rest, false))
    decreases |name|
  {
    hide ParseArg, Run, Backslashes;
    if name == "" {
      assert name + rest == rest;
      PrependNothing(ParseArg(rest, false));
    } else {
      var n := Run(name);
      RunBounds(name);
      var head, tail := if n > 0 then Backslashes(n) else [name[0]], name[if n > 0 then n else 1..];
      assert name == head + tail by {
        RunText(name);
      }
      assert name + rest == head + (tail + rest);
      ParseName(tail, rest);
      if n > 0 {
        ParseRun(n, tail + rest, false);
      } else {
        ParseChar(name[0], tail + rest, false);
      }
      PrependTwice(head, tail, ParseArg(rest, false));
    }
  }

  lemma PrependNothing(r: (string, string))
    ensures Prepend("", r) == r
  {
    assert "" + r.0 == r.0;
  }

  lemma PrependTwice(a: string, b: string, r: (string, string))
    ensures Prepend(a, Prepend(b, r)) == Prepend(a + b, r)
  {
    assert a + (b + r.0) == a + b + r.0;
  }

  lemma RunBounds(s: string)
    requires s != ""
    ensures Run(s) == 0 ==> s[0] != '\\'
    ensures Run(s) < |s| ==> s[Run(s)] != '\\'
  {
  }

  lemma ParseToQuote(text: string, n: nat, tail: string, quoted: bool)
    requires n < |text| && text[n] == '"' && text[..n] == Backslashes(n)
    ensures n % 2 == 1 ==>
        ParseArg(text + tail, quoted) == Prepend(Backslashes(n / 2) + ['"'], ParseArg(text[n + 1..] + tail, quoted))
    ensures n % 2 == 0 ==>
        ParseArg(text + tail, quoted) == Prepend(Backslashes(n / 2), ParseArg(text[n + 1..] + tail, !quoted))
  {
    hide ParseArg, Backslashes;
    var after := text[n..] + tail;
    assert text == text[..n] + text[n..];
    assert text + tail == Backslashes(n) + after;
    assert after[1..] == text[n + 1..] + tail;
    ParseRun(n, after, quoted);
  }

  /** The parser at the next piece of a text: a run of backslashes with the quote behind
      it, the run alone, or one other character. What is read is never longer. */
  lemma ParsePiece(text: string, tail: string, quoted: bool) returns (piece: string, read: string, mode: bool, stops: bool)
    requires text != "" && NoMarkFirst(tail)
    ensures piece != "" && piece <= text && |read| <= |piece|
    ensures stops ==> !quoted && Separator(text[0]) && ParseArg(text + tail, quoted).0 == ""
    ensures !stops ==> ParseArg(text + tail, quoted) == Prepend(read, ParseArg(text[|piece|..] + tail, mode))
    ensures Mark(text[0]) ==> !stops && Marks(piece)
    ensures !Mark(text[0]) ==> piece == text[..1] && (!stops ==> read == piece && mode == quoted)
    ensures '"' in piece ==> |read| < |piece|
    ensures '"' !in piece ==> (!stops ==> read == piece && mode == quoted)
    ensures stops <==> !quoted && Separator(text[0])
  {
    hide ParseArg, Run, Backslashes, Separator;
    var n := Run(text);
    RunBounds(text);
    RunText(text);
    assert text[..n] == Backslashes(n);
    if n < |text| && text[n] == '"' {
      piece, stops := text[..n + 1], false;
      read := if n % 2 == 1 then Backslashes(n / 2) + ['"'] else Backslashes(n / 2);
      mode := if n % 2 == 1 then quoted else !quoted;
      ParseToQuote(text, n, tail, quoted);
      QuoteIsMark(text, n);
    } else if n > 0 {
      piece, read, mode, stops := text[..n], text[..n], quoted, false;
      assert text + tail == Backslashes(n) + (text[n..] + tail);
      ParseRun(n, text[n..] + tail, quoted);
      QuoteIsMark(text, n);
    } else {
      piece, read, mode := text[..1], text[..1], quoted;
      ParseOne(text, tail, quoted);
      stops := !quoted && Separator(text[0]);
    }
  }

  lemma QuoteIsMark(text: string, n: nat)
    requires n <= |text| && text[..n] == Backslashes(n) && text != "" && (n == 0 ==> text[0] == '"')
    ensures Mark(text[0]) && !Separator(text[0]) && '"' !in text[..n]
    ensures Marks(text[..n])
    ensures n < |text| && text[n] == '"' ==> '"' in text[..n + 1] && Marks(text[..n + 1])
  {
    assert forall k :: 0 <= k < n ==> text[k] == text[..n][k];
    if n < |text| && text[n] == '"' {
      assert text[..n + 1][n] == '"';
    }
  }

  lemma ParseOne(text: string, tail: string, quoted: bool)
    requires text != "" && !Mark(text[0])
    ensures !quoted && Separator(text[0]) ==> ParseArg(text + tail, quoted).0 == ""
    ensures quoted || !Separator(text[0]) ==>
        ParseArg(text + tail, quoted) == Prepend(text[..1], ParseArg(text[1..] + tail, quoted))
    ensures '"' !in text[..1]
  {
    hide ParseArg;
    assert text + tail == [text[0]] + (text[1..] + tail) && text[..1] == [text[0]];
    if !quoted && Separator(text[0]) {
      AfterArg(text + tail);
    } else {
      ParseChar(text[0], text[1..] + tail, quoted);
    }
  }

  /** When the parser is behind by some marks it never catches up: to read marks it must
      use up at least as many, and another character is not what is missing. */
  lemma {:induction false} NeverCatchesUp(behind: string, text: string, tail: string, quoted: bool, x: string)
    requires behind != "" && Marks(behind) && NoMarkFirst(tail)
    ensures ParseArg(text + tail, quoted).0 != behind + text + x
    decreases |text|
  {
    hide ParseArg, Run;
    var out := ParseArg(text + tail, quoted).0;
    assert (behind + text + x)[0] == behind[0];
    if text == "" {
      assert text + tail == tail;
      ReadFirst(tail, quoted);
    } else if out == behind + text + x {
      var piece, read, mode, stops := ParsePiece(text, tail, quoted);
      assert out[0] == behind[0];
      assert !stops && Mark(text[0]);
      var rest := text[|piece|..];
      var next := (behind + piece)[|read|..];
      assert behind + text + x == behind + piece + rest + x;
      assert out[|read|..] == ParseArg(rest + tail, mode).0;
      assert (behind + piece + rest + x)[|read|..] == next + rest + x;
      NeverCatchesUp(next, rest, tail, mode, x);
    }
  }

  lemma ReadFirst(s: string, quoted: bool)
    requires NoMarkFirst(s)
    ensures s == "" ==> ParseArg(s, quoted).0 == ""
    ensures s != "" ==> ParseArg(s, quoted).0 == "" || ParseArg(s, quoted).0[0] == s[0]
  {
    if s != "" {
      RunIs(s, 0);
    }
  }

  /** Text with a double quote on the line as it is does not read as itself, whatever
      follows it. */
  lemma {:induction false} QuoteNotRead(name: string, tail: string, x: string)
    requires '"' in name && NoMarkFirst(tail)
    ensures ParseArg(name + tail, false).0 != name + x
    decreases |name|
  {
    hide ParseArg, Run;
    var out := ParseArg(name + tail, false).0;
    if out == name + x {
      var piece, read, mode, stops := ParsePiece(name, tail, false);
      assert !stops;
      var rest := name[|piece|..];
      assert name == piece + rest && name + x == piece + rest + x;
      assert out[|read|..] == ParseArg(rest + tail, mode).0;
      if '"' in piece {
        assert Mark(name[0]);
        var behind := piece[|read|..];
        assert (piece + rest + x)[|read|..] == behind + rest + x;
        NeverCatchesUp(behind, rest, tail, mode, x);
      } else {
        assert (piece + rest + x)[|read|..] == rest + x;
        QuoteNotRead(rest, tail, x);
      }
    }
  }

  /** Text on the line as it is reads as itself only without quotes and separators. */
  lemma NotNameableNotRead(name: string, tail: string, x: string)
    requires !Nameable(name) && NoMarkFirst(tail)
    ensures ParseArg(name + tail, false).0 != name + x
  {
    hide ParseArg;
    if '"' in name {
      QuoteNotRead(name, tail, x);
    } else {
      var k := FirstSeparator(name);
      var rest := name[k..] + tail;
      assert name + tail == name[..k] + rest;
      ParseName(name[..k], rest);
      AfterArg(rest);
      assert |ParseArg(name + tail, false).0| == k;
    }
  }

  function FirstSeparator(s: string): (k: nat)
    ensures k <= |s| && (k < |s| ==> Separator(s[k])) && forall j :: 0 <= j < k ==> !Separator(s[j])
  {
    if s == "" || Separator(s[0]) then 0 else 1 + FirstSeparator(s[1..])
  }

  /** Nothing but tabs: text without need of quotes that the parser skips. */
  predicate Blank(s: string)
  {
    forall k :: 0 <= k < |s| ==> s[k] == '\t'
  }

  lemma {:induction false} SkipBlank(blank: string, s: string)
    requires Blank(blank)
    ensures SkipSeparators(blank + s) == SkipSeparators(s)
    ensures ParseArgs(blank + s) == ParseArgs(s)
  {
    if blank == "" {
      assert blank + s == s;
    } else {
      assert (blank + s)[1..] == blank[1..] + s;
      SkipBlank(blank[1..], s);
    }
  }

  /** The first argument of a line. */
  lemma FirstOfLine(line: string)
    ensures ParseArgs(line) == [] <==> SkipSeparators(line) == ""
    ensures ParseArgs(line) != [] ==> ParseArgs(line)[0] == ParseArg(SkipSeparators(line), false).0
  {
    hide ParseArg;
  }

  /** Of text that is not blank and has no need of quotes the parser reads up to a tab. */
  lemma {:induction false} UnquotedFirst(arg: string, quotePlaceholders: bool, rest: string)
    requires !NeedsQuotes(arg, quotePlaceholders) && !Blank(arg) && Ends(rest)
    ensures ParseArgs(arg + rest) != []
    ensures var first := ParseArgs(arg + rest)[0]; first != "" && !Blank(first) && '\t' !in first
    decreases |arg|
  {
    hide ParseArg, ParseArgs, Ends;
    forall k | 0 <= k < |arg|
      ensures !Quotable(arg[k], quotePlaceholders)
    {
    }
    if arg[0] == '\t' {
      assert arg == "\t" + arg[1..] && arg + rest == "\t" + (arg[1..] + rest);
      SkipBlank("\t", arg[1..] + rest);
      UnquotedFirst(arg[1..], quotePlaceholders, rest);
    } else {
      FirstOfLine(arg + rest);
      var k := FirstSeparator(arg);
      var tail := arg[k..] + rest;
      assert k > 0 && arg + rest == arg[..k] + tail;
      EndsAt(arg, k, rest);
      ParseName(arg[..k], tail);
      AfterArg(tail);
      assert arg[..k] + "" == arg[..k] && arg[..k][0] == arg[0];
    }
  }

  lemma EndsAt(arg: string, k: nat, rest: string)
    requires k == FirstSeparator(arg) && Ends(rest)
    ensures Ends(arg[k..] + rest) && NoMarkFirst(arg[k..] + rest)
  {
  }

  // ------------------------------------------------------------ the line of all arguments

  lemma LeadingSpace(s: string)
    ensures ParseArgs(" " + s) == ParseArgs(s)
  {
    assert (" " + s)[1..] == s;
  }
}
