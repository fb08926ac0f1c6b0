// CommandLine on Windows: the argument vector with its switches first, the map of
// switches beside it, and the line that it is turned into.
module CommandLine {
  import opened CommandLineQuoting

  /** The length of the switch prefix: two dashes, one, or a slash where that is allowed. */
  function PrefixLength(s: string, slash: bool): (n: nat)
    ensures n <= |s| && n <= 2
  {
    if "--" <= s then 2 else if "-" <= s then 1 else if slash && "/" <= s then 1 else 0
  }

  /** Where the first '=' is, or the length. */
  function Equals(s: string): (k: nat)
    ensures k <= |s| && (k < |s| ==> s[k] == '=') && forall j :: 0 <= j < k ==> s[j] != '='
  {
    if s == "" || s[0] == '=' then 0 else 1 + Equals(s[1..])
  }

  predicate IsSwitch(s: string, slash: bool)
  {
    PrefixLength(s, slash) != 0 && PrefixLength(s, slash) != |s|
  }

  function SwitchName(s: string): string
  {
    s[..Equals(s)]
  }

  function SwitchValue(s: string): string
  {
    if Equals(s) < |s| then s[Equals(s) + 1..] else ""
  }

  /** An argument is a switch with the prefix p just when p is two dashes, one dash that is not
      followed by another, or a slash where that is allowed, and something follows. */
  lemma SwitchForms(p: string, rest: string, slash: bool)
    ensures IsSwitch(p + rest, slash) && PrefixLength(p + rest, slash) == |p|
        <==> rest != "" && (p == "--" || (p == "-" && rest[0] != '-') || (slash && p == "/"))
  {
    var s := p + rest;
    assert |p| >= 1 ==> s[0] == p[0];
    assert |p| >= 2 ==> s[1] == p[1];
    if |p| == 1 {
      assert p == [p[0]];
      assert rest != "" ==> s[1] == rest[0];
    }
    if |p| == 2 {
      assert p == [p[0], p[1]];
    }
  }

  const TERMINATOR: string := "--"

  /** How one argument is put on the line. */
  function Rendered(arg: string, parse: bool, slash: bool, quotePlaceholders: bool): string
  {
    if parse && IsSwitch(arg, slash) then
      SwitchName(arg) + (if SwitchValue(arg) == "" then "" else "=" + Quoted(SwitchValue(arg), quotePlaceholders))
    else Quoted(arg, quotePlaceholders)
  }

  /** The arguments, a space between each two; switches are recognised up to "--". */
  function ArgumentsString(args: seq<string>, parse: bool, slash: bool, quotePlaceholders: bool): string
  {
    if args == [] then ""
    else
      var p := parse && args[0] != TERMINATOR;
      Rendered(args[0], p, slash, quotePlaceholders)
      + (if |args| == 1 then "" else " " + ArgumentsString(args[1..], p, slash, quotePlaceholders))
  }

  /** From "--" on no argument is taken for a switch: each is quoted as a whole. */
  lemma AfterTerminator(args: seq<string>, parse: bool, slash: bool, quotePlaceholders: bool)
    requires args != [] && args[0] == "--"
    ensures ArgumentsString(args, parse, slash, quotePlaceholders) == QuotedArguments(args, quotePlaceholders)
  {
    hide Rendered;
    PlainArguments(args, slash, quotePlaceholders);
  }

  /** The arguments quoted, a space between each two. */
  function QuotedArguments(args: seq<string>, quotePlaceholders: bool): string
  {
    if args == [] then ""
    else Quoted(args[0], quotePlaceholders) + (if |args| == 1 then "" else " " + QuotedArguments(args[1..], quotePlaceholders))
  }

  lemma {:induction false} PlainArguments(args: seq<string>, slash: bool, quotePlaceholders: bool)
    ensures ArgumentsString(args, false, slash, quotePlaceholders) == QuotedArguments(args, quotePlaceholders)
  {
    hide Quoted;
    if args != [] {
      PlainArguments(args[1..], slash, quotePlaceholders);
    }
  }

  /** The parts of the line up to argument i, with the space that follows. */
  function Prefix(args: seq<string>, i: nat, slash: bool, quotePlaceholders: bool): (r: (string, bool))
    requires i <= |args|
  {
    if i == 0 then ("", true)
    else
      var before := Prefix(args, i - 1, slash, quotePlaceholders);
      var p := before.1 && args[i - 1] != TERMINATOR;
      (before.0 + Rendered(args[i - 1], p, slash, quotePlaceholders) + (if i == |args| then "" else " "), p)
  }

  lemma {:induction false} PrefixCompletes(args: seq<string>, i: nat, slash: bool, quotePlaceholders: bool)
    requires i <= |args|
    ensures var r := Prefix(args, i, slash, quotePlaceholders);
        r.0 + ArgumentsString(args[i..], r.1, slash, quotePlaceholders) == ArgumentsString(args, true, slash, quotePlaceholders)
  {
    hide Rendered;
    if i == 0 {
      assert args[0..] == args;
      assert "" + ArgumentsString(args, true, slash, quotePlaceholders) == ArgumentsString(args, true, slash, quotePlaceholders);
    } else {
      PrefixCompletes(args, i - 1, slash, quotePlaceholders);
      var before := Prefix(args, i - 1, slash, quotePlaceholders);
      var rest := args[i - 1..];
      assert rest[1..] == args[i..];
      var p := before.1 && rest[0] != TERMINATOR;
      var text := Rendered(rest[0], p, slash, quotePlaceholders);
      var tail := ArgumentsString(args[i..], p, slash, quotePlaceholders);
      if i == |args| {
        assert before.0 + (text + "") == before.0 + text + "" + tail;
      } else {
        assert before.0 + (text + (" " + tail)) == before.0 + text + " " + tail;
      }
    }
  }

  /** An argument that the parser reads back from the line: a switch whose name has no
      double quote and no separator, and no equals sign with nothing behind it; and any
      value or argument that is quoted or needs no quotes. */
  predicate Recoverable(arg: string, parse: bool, slash: bool, quotePlaceholders: bool)
  {
    if parse && IsSwitch(arg, slash) then
      Nameable(SwitchName(arg)) && (if SwitchValue(arg) == "" then SwitchName(arg) == arg else
        NeedsQuotes(SwitchValue(arg), quotePlaceholders) || !HasTab(SwitchValue(arg)))
    else arg != "" && (NeedsQuotes(arg, quotePlaceholders) || !HasTab(arg))
  }

  predicate AllRecoverable(args: seq<string>, parse: bool, slash: bool, quotePlaceholders: bool)
  {
    if args == [] then true
    else
      var p := parse && args[0] != TERMINATOR;
      Recoverable(args[0], p, slash, quotePlaceholders) && AllRecoverable(args[1..], p, slash, quotePlaceholders)
  }

  lemma SwitchParts(arg: string)
    ensures SwitchValue(arg) != "" ==> arg == SwitchName(arg) + "=" + SwitchValue(arg)
    ensures SwitchName(arg) == arg <==> Equals(arg) == |arg|
  {
    hide *;
    SplitAt(arg, Equals(arg));
    PartsOf(arg);
  }

  lemma SplitAt(s: string, k: nat)
    requires k <= |s|
    ensures k < |s| && s[k] == '=' ==> s == s[..k] + "=" + s[k + 1..]
    ensures s[..k] == s <==> k == |s|
  {
    if k < |s| {
      assert |s[..k]| == k;
    }
  }

  lemma PartsOf(arg: string)
    ensures SwitchName(arg) == arg[..Equals(arg)]
    ensures SwitchValue(arg) == if Equals(arg) < |arg| then arg[Equals(arg) + 1..] else ""
  {
    hide Equals;
  }

  lemma ParseRendered(arg: string, parse: bool, slash: bool, quotePlaceholders: bool, rest: string)
    requires Recoverable(arg, parse, slash, quotePlaceholders) && Ends(rest)
    ensures ParseArg(Rendered(arg, parse, slash, quotePlaceholders) + rest, false) == (arg, rest)
  {
    hide ParseArg, Quoted, NeedsQuotes, HasTab, SwitchName, SwitchValue, Equals;
    if parse && IsSwitch(arg, slash) {
      var name, value := SwitchName(arg), SwitchValue(arg);
      SwitchParts(arg);
      if value == "" {
        ParseName(name, rest);
        AfterArg(rest);
        assert name + "" == name;
      } else {
        var quoted := Quoted(value, quotePlaceholders) + rest;
        ParseQuoted(value, quotePlaceholders, rest);
        ParseChar('=', quoted, false);
        assert ['='] + quoted == "=" + quoted;
        ParseName(name, "=" + quoted);
        assert Rendered(arg, parse, slash, quotePlaceholders) + rest == name + ("=" + quoted);
        assert name + ("=" + value) == name + "=" + value;
      }
    } else {
      ParseQuoted(arg, quotePlaceholders, rest);
    }
  }

  /** The text of a switch begins with the dash or slash of its prefix, and so does what
      the parser reads of it. */
  lemma SwitchStart(arg: string, slash: bool, quotePlaceholders: bool, rest: string)
    requires IsSwitch(arg, slash)
    ensures var line := Rendered(arg, true, slash, quotePlaceholders) + rest;
        line != "" && line[0] in {'-', '/'} && SkipSeparators(line) == line
    ensures var first := ParseArg(Rendered(arg, true, slash, quotePlaceholders) + rest, false).0;
        first != "" && !Blank(first)
  {
    hide ParseArg, Quoted, SwitchValue;
    var line := Rendered(arg, true, slash, quotePlaceholders) + rest;
    assert SwitchName(arg) != "" && SwitchName(arg)[0] == arg[0];
    assert line[0] == arg[0];
    assert line == [line[0]] + line[1..];
    ParseChar(line[0], line[1..], false);
    assert ParseArg(line, false).0[0] == line[0];
  }

  lemma RenderedStart(arg: string, parse: bool, slash: bool, quotePlaceholders: bool, rest: string)
    requires Recoverable(arg, parse, slash, quotePlaceholders)
    ensures Rendered(arg, parse, slash, quotePlaceholders) != ""
    ensures !Separator((Rendered(arg, parse, slash, quotePlaceholders) + rest)[0])
  {
    hide Quoted, NeedsQuotes, HasTab;
    if parse && IsSwitch(arg, slash) {
      assert SwitchName(arg) != "";
    } else {
      QuotedStart(arg, quotePlaceholders, rest);
    }
  }

  /** A switch that is not recoverable reads as something else, whatever follows it. */
  lemma SwitchNotRead(arg: string, slash: bool, quotePlaceholders: bool, rest: string)
    requires IsSwitch(arg, slash) && !Recoverable(arg, true, slash, quotePlaceholders) && Ends(rest)
    ensures ParseArg(Rendered(arg, true, slash, quotePlaceholders) + rest, false).0 != arg
  {
    hide ParseArg, SwitchName, SwitchValue, Equals, IsSwitch, Nameable;
    var name, value := SwitchName(arg), SwitchValue(arg);
    SwitchParts(arg);
    if value == "" {
      assert name + "" == name;
      if !Nameable(name) {
        NameIsPrefix(arg);
        NotNameableNotRead(name, rest, arg[|name|..]);
      } else {
        ParseName(name, rest);
        AfterArg(rest);
      }
    } else {
      var text := Quoted(value, quotePlaceholders);
      assert Rendered(arg, true, slash, quotePlaceholders) + rest == name + ("=" + text + rest);
      assert arg == name + ("=" + value);
      if !Nameable(name) {
        NotNameableNotRead(name, "=" + text + rest, "=" + value);
      } else {
        ValueNotRead(name, value, quotePlaceholders, rest);
      }
    }
  }

  lemma NameIsPrefix(arg: string)
    ensures |SwitchName(arg)| <= |arg| && arg == SwitchName(arg) + arg[|SwitchName(arg)|..]
  {
  }

  /** A value with a tab that is not quoted is cut off at the tab. */
  lemma ValueNotRead(name: string, value: string, quotePlaceholders: bool, rest: string)
    requires Nameable(name) && HasTab(value) && !NeedsQuotes(value, quotePlaceholders) && Ends(rest)
    ensures ParseArg(name + ("=" + Quoted(value, quotePlaceholders) + rest), false).0 != name + ("=" + value)
  {
    hide ParseArg;
    var k := FirstSeparator(value);
    var tail := value[k..] + rest;
    forall j | 0 <= j < |value|
      ensures !Quotable(value[j], quotePlaceholders)
    {
    }
    EndsAt(value, k, rest);
    assert name + ("=" + value + rest) == (name + "=" + value[..k]) + tail;
    ParseName(name + "=" + value[..k], tail);
    AfterArg(tail);
    assert |ParseArg(name + ("=" + value + rest), false).0| < |name + ("=" + value)|;
  }

  // ------------------------------------------------------------ the whole line

  /** What stands on the line behind the first argument. */
  function Rest(args: seq<string>, p: bool, slash: bool, quotePlaceholders: bool): (rest: string)
    requires args != []
    ensures Ends(rest)
  {
    if |args| == 1 then "" else " " + ArgumentsString(args[1..], p, slash, quotePlaceholders)
  }

  lemma RestParses(args: seq<string>, p: bool, slash: bool, quotePlaceholders: bool)
    requires args != []
    ensures ParseArgs(Rest(args, p, slash, quotePlaceholders)) == ParseArgs(ArgumentsString(args[1..], p, slash, quotePlaceholders))
  {
    hide ParseArg, Rendered;
    if |args| == 1 {
      assert args[1..] == [];
    } else {
      LeadingSpace(ArgumentsString(args[1..], p, slash, quotePlaceholders));
    }
  }

  /** The first argument read from any line is neither empty nor all tabs. */
  lemma {:induction false} FirstIsNotBlank(args: seq<string>, parse: bool, slash: bool, quotePlaceholders: bool)
    ensures var read := ParseArgs(ArgumentsString(args, parse, slash, quotePlaceholders)); read == [] || !Blank(read[0])
    decreases |args|
  {
    hide ParseArg, Recoverable, IsSwitch, NeedsQuotes, Blank, HasTab, ParseArgs;
    if args == [] {
      FirstOfLine("");
    } else {
      var p := parse && args[0] != TERMINATOR;
      var rest := Rest(args, p, slash, quotePlaceholders);
      var line := Rendered(args[0], p, slash, quotePlaceholders) + rest;
      FirstOfLine(line);
      RestParses(args, p, slash, quotePlaceholders);
      if p && IsSwitch(args[0], slash) {
        SwitchStart(args[0], slash, quotePlaceholders, rest);
      } else if NeedsQuotes(args[0], quotePlaceholders) {
        ParseQuoted(args[0], quotePlaceholders, rest);
        QuotableNotBlank(args[0], quotePlaceholders);
        QuotedStart(args[0], quotePlaceholders, rest);
      } else if Blank(args[0]) {
        SkipBlank(args[0], rest);
        FirstIsNotBlank(args[1..], p, slash, quotePlaceholders);
      } else {
        UnquotedFirst(args[0], quotePlaceholders, rest);
      }
    }
  }

  lemma QuotableNotBlank(arg: string, quotePlaceholders: bool)
    requires NeedsQuotes(arg, quotePlaceholders)
    ensures !Blank(arg) && arg != ""
  {
  }

  /** A line whose first argument is not recoverable is not read back. */
  lemma FirstNotRead(args: seq<string>, parse: bool, slash: bool, quotePlaceholders: bool)
    requires args != [] && !Recoverable(args[0], parse && args[0] != TERMINATOR, slash, quotePlaceholders)
    ensures ParseArgs(ArgumentsString(args, parse, slash, quotePlaceholders)) != args
  {
    hide ParseArg, IsSwitch, NeedsQuotes, Blank, ParseArgs;
    var p := parse && args[0] != TERMINATOR;
    var rest := Rest(args, p, slash, quotePlaceholders);
    var line := Rendered(args[0], p, slash, quotePlaceholders) + rest;
    FirstOfLine(line);
    RestParses(args, p, slash, quotePlaceholders);
    if p && IsSwitch(args[0], slash) {
      SwitchStart(args[0], slash, quotePlaceholders, rest);
      SwitchNotRead(args[0], slash, quotePlaceholders, rest);
    } else {
      NoNeed(args[0], quotePlaceholders);
      if Blank(args[0]) {
        SkipBlank(args[0], rest);
        FirstIsNotBlank(args[1..], p, slash, quotePlaceholders);
      } else {
        UnquotedFirst(args[0], quotePlaceholders, rest);
      }
    }
  }

  lemma NoNeed(arg: string, quotePlaceholders: bool)
    requires arg == "" || (HasTab(arg) && !NeedsQuotes(arg, quotePlaceholders))
    ensures !NeedsQuotes(arg, quotePlaceholders) && (arg == "" ==> Blank(arg)) && (arg != "" ==> '\t' in arg)
  {
  }

  /** Parsing the line of all arguments gives back the switches and arguments, one by one,
      if and only if every one of them is recoverable. */
  lemma {:induction false} ArgumentsRoundTrip(args: seq<string>, parse: bool, slash: bool, quotePlaceholders: bool)
    ensures ParseArgs(ArgumentsString(args, parse, slash, quotePlaceholders)) == args
        <==> AllRecoverable(args, parse, slash, quotePlaceholders)
    decreases |args|
  {
    hide ParseArg, Rendered, Recoverable;
    if args == [] {
      assert ArgumentsString(args, parse, slash, quotePlaceholders) == "";
    } else {
      var p := parse && args[0] != TERMINATOR;
      var tail := args[1..];
      var rest := Rest(args, p, slash, quotePlaceholders);
      if Recoverable(args[0], p, slash, quotePlaceholders) {
        ParseRendered(args[0], p, slash, quotePlaceholders, rest);
        RenderedStart(args[0], p, slash, quotePlaceholders, rest);
        ArgumentsRoundTrip(tail, p, slash, quotePlaceholders);
        RestParses(args, p, slash, quotePlaceholders);
        assert ParseArgs(ArgumentsString(args, parse, slash, quotePlaceholders)) == [args[0]] + ParseArgs(rest);
        assert args == [args[0]] + tail;
        assert ([args[0]] + ParseArgs(rest))[1..] == ParseArgs(rest) && args[1..] == tail;
      } else {
        FirstNotRead(args, parse, slash, quotePlaceholders);
      }
    }
  }

  /** Without switches, parsing the quoted arguments gives back the list if and only if none
      is empty, and none with a tab is left without quotes. */
  lemma JoinRoundTrip(args: seq<string>, slash: bool, quotePlaceholders: bool)
    ensures ParseArgs(ArgumentsString(args, false, slash, quotePlaceholders)) == args
        <==> forall a :: a in args ==> a != "" && (NeedsQuotes(a, quotePlaceholders) || !HasTab(a))
  {
    hide ParseArgs, ArgumentsString, NeedsQuotes, HasTab;
    ArgumentsRoundTrip(args, false, slash, quotePlaceholders);
    PlainRecoverable(args, slash, quotePlaceholders);
  }

  lemma {:induction false} PlainRecoverable(args: seq<string>, slash: bool, quotePlaceholders: bool)
    ensures AllRecoverable(args, false, slash, quotePlaceholders)
        <==> forall a :: a in args ==> a != "" && (NeedsQuotes(a, quotePlaceholders) || !HasTab(a))
  {
    hide NeedsQuotes, HasTab;
    if args != [] {
      var first, tail := args[0], args[1..];
      PlainRecoverable(tail, slash, quotePlaceholders);
      assert args == [first] + tail;
      assert forall a :: a in args <==> a == first || a in tail;
      assert AllRecoverable(args, false, slash, quotePlaceholders)
          <==> Recoverable(first, false, slash, quotePlaceholders) && AllRecoverable(tail, false, slash, quotePlaceholders);
    }
  }

  /** One argument on a line of its own is read back if and only if it is recoverable. */
  lemma RenderedRoundTrip(arg: string, parse: bool, slash: bool, quotePlaceholders: bool)
    ensures ParseArgs(Rendered(arg, parse, slash, quotePlaceholders)) == [arg]
        <==> Recoverable(arg, parse, slash, quotePlaceholders)
  {
    hide ParseArgs, Recoverable, Rendered;
    ArgumentsRoundTrip([arg], parse, slash, quotePlaceholders);
    assert [arg][1..] == [];
    var p := parse && arg != TERMINATOR;
    assert Rendered(arg, p, slash, quotePlaceholders) + "" == Rendered(arg, p, slash, quotePlaceholders);
    TerminatorIsNoSwitch(parse, slash, quotePlaceholders);
  }

  lemma TerminatorIsNoSwitch(parse: bool, slash: bool, quotePlaceholders: bool)
    ensures Rendered(TERMINATOR, parse, slash, quotePlaceholders) == Rendered(TERMINATOR, false, slash, quotePlaceholders)
    ensures Recoverable(TERMINATOR, parse, slash, quotePlaceholders) == Recoverable(TERMINATOR, false, slash, quotePlaceholders)
  {
    assert PrefixLength(TERMINATOR, slash) == |TERMINATOR|;
  }

  /** A switch with an equals sign and no value is not read back: the sign is dropped. */
  lemma EmptyValueIsLost(arg: string, slash: bool, quotePlaceholders: bool)
    requires IsSwitch(arg, slash) && SwitchValue(arg) == "" && SwitchName(arg) != arg && Nameable(SwitchName(arg))
    ensures ParseArgs(Rendered(arg, true, slash, quotePlaceholders)) == [SwitchName(arg)] != [arg]
  {
    hide ParseArg;
    var name := SwitchName(arg);
    assert name != "";
    ParseName(name, "");
    AfterArg("");
    assert Rendered(arg, true, slash, quotePlaceholders) == name + "" == name;
  }

  // ------------------------------------------------------------ the class

  function ToLowerASCII(s: string): (r: string)
    ensures |r| == |s|
  {
    if s == "" then ""
    else (if 'A' <= s[0] <= 'Z' then [s[0] - 'A' + 'a'] else [s[0]]) + ToLowerASCII(s[1..])
  }

  /** The 26 capital letters become small ones; every other character stays. */
  lemma {:induction false} LowersLetters(s: string, k: nat)
    requires k < |s|
    ensures ToLowerASCII(s)[k] as int == s[k] as int + if 65 <= s[k] as int <= 90 then 32 else 0
  {
    if k > 0 {
      LowersLetters(s[1..], k - 1);
      assert ToLowerASCII(s)[k] == ToLowerASCII(s[1..])[k - 1];
    }
  }

  /** The argument that AppendSwitchNative inserts: a prefix is added if there is none. */
  function Combined(name: string, value: string, slash: bool): string
  {
    (if PrefixLength(name, slash) == 0 then "--" else "") + name + (if value == "" then "" else "=" + value)
  }

  /** The key under which a switch is kept. */
  function Key(name: string, slash: bool): string
  {
    name[PrefixLength(name, slash)..]
  }

  /** The inserted argument is a switch with that key and value again if and only if the
      name has no equals sign and there is more to the argument than a prefix. */
  lemma CombinedIsSwitch(name: string, value: string, slash: bool)
    ensures var c := Combined(name, value, slash);
        (IsSwitch(c, slash) && SwitchValue(c) == value && Key(SwitchName(c), slash) == Key(name, slash))
        <==> ('=' !in name && (Key(name, slash) != "" || value != ""))
  {
    hide Equals;
    if '=' in name {
      KeyKeepsEquals(name, slash);
      assert '=' !in SwitchName(Combined(name, value, slash));
    } else {
      PlainCombined(name, value, slash);
    }
  }

  lemma KeyKeepsEquals(name: string, slash: bool)
    requires '=' in name
    ensures '=' in Key(name, slash)
  {
    var k :| 0 <= k < |name| && name[k] == '=';
    var n := PrefixLength(name, slash);
    assert k >= n && Key(name, slash)[k - n] == '=';
  }

  lemma PlainCombined(name: string, value: string, slash: bool)
    requires '=' !in name
    ensures var c := Combined(name, value, slash);
        (IsSwitch(c, slash) && SwitchValue(c) == value && Key(SwitchName(c), slash) == Key(name, slash))
        <==> (Key(name, slash) != "" || value != "")
  {
    hide Equals;
    var full := (if PrefixLength(name, slash) == 0 then "--" else "") + name;
    FullName(name, slash);
    PrefixOfCombined(name, value, slash);
    EqualsIs(Combined(name, value, slash), |full|);
    assert SwitchName(Combined(name, value, slash)) == full;
    assert Combined(name, value, slash) == full + (if value == "" then "" else "=" + value);
  }

  lemma FullName(name: string, slash: bool)
    requires '=' !in name
    ensures var full := (if PrefixLength(name, slash) == 0 then "--" else "") + name;
        '=' !in full && Key(full, slash) == Key(name, slash)
        && PrefixLength(full, slash) > 0 && (Key(name, slash) == "" <==> PrefixLength(full, slash) == |full|)
  {
    if PrefixLength(name, slash) == 0 {
      assert ("--" + name)[2..] == name && name[0..] == name;
    } else {
      assert "" + name == name;
    }
  }

  /** What is behind the name does not change its prefix, unless the name is one dash. */
  lemma PrefixOfCombined(name: string, value: string, slash: bool)
    requires '=' !in name
    ensures var full := (if PrefixLength(name, slash) == 0 then "--" else "") + name;
        PrefixLength(Combined(name, value, slash), slash) == PrefixLength(full, slash)
  {
    var full := (if PrefixLength(name, slash) == 0 then "--" else "") + name;
    var c := Combined(name, value, slash);
    assert |full| <= |c| && c[..|full|] == full && (|c| > |full| ==> c[|full|] == '=');
  }

  lemma {:induction false} EqualsIs(s: string, k: nat)
    requires k <= |s| && (k < |s| ==> s[k] == '=') && forall j :: 0 <= j < k ==> s[j] != '='
    ensures Equals(s) == k
  {
    if k > 0 {
      EqualsIs(s[1..], k - 1);
    }
  }

  class CommandLine {
    var argv: seq<string>
    var switches: map<string, string>
    var beginArgs: nat
    const slash: bool

    predicate Valid()
      reads this
    {
      1 <= beginArgs <= |argv|
    }

    constructor (program: string, slash: bool)
      ensures Valid() && argv == [program] && switches == map[] && beginArgs == 1 && this.slash == slash
    {
      argv, switches, beginArgs := [program], map[], 1;
      this.slash := slash;
    }

    /** Switches come before all arguments, in the order appended; the last value wins. */
    method AppendSwitchNative(name: string, value: string)
      requires Valid()
      modifies this
      ensures Valid() && beginArgs == old(beginArgs) + 1
      ensures argv == old(argv[..beginArgs]) + [Combined(ToLowerASCII(name), value, slash)] + old(argv[beginArgs..])
      ensures switches == old(switches)[Key(ToLowerASCII(name), slash) := value]
    {
      var switchKey := ToLowerASCII(name);
      var combined := switchKey;
      var prefixLength := PrefixLength(combined, slash);
      switches := switches[switchKey[prefixLength..] := value];
      if prefixLength == 0 {
        combined := "--" + combined;
      }
      if value != "" {
        combined := combined + ("=" + value);
      }
      assert combined == Combined(switchKey, value, slash) by {
        assert "" + switchKey == switchKey && switchKey + "" == switchKey && ("--" + switchKey) + "" == "--" + switchKey;
      }
      argv := argv[..beginArgs] + [combined] + argv[beginArgs..];
      beginArgs := beginArgs + 1;
    }

    method AppendArgNative(value: string)
      requires Valid()
      modifies `argv
      ensures Valid() && argv == old(argv) + [value]
    {
      argv := argv + [value];
    }

    method GetArgumentsStringInternal(quotePlaceholders: bool) returns (params: string)
      requires Valid()
      ensures params == ArgumentsString(argv[1..], true, slash, quotePlaceholders)
    {
      hide Rendered, ArgumentsString, Quoted, IsSwitch, SwitchName, SwitchValue;
      params := "";
      var parseSwitches := true;
      ghost var args := argv[1..];
      var i := 1;
      while i < |argv|
        invariant 1 <= i <= |argv|
        invariant i == 1 ==> params == ""
        invariant params + (if 1 < i < |argv| then " " else "") == Prefix(args, i - 1, slash, quotePlaceholders).0
        invariant parseSwitches == Prefix(args, i - 1, slash, quotePlaceholders).1
      {
        var arg := argv[i];
        parseSwitches := parseSwitches && arg != TERMINATOR;
        if i > 1 {
          params := params + " ";
        }
        ghost var before := params;
        var text := Render(arg, parseSwitches, quotePlaceholders);
        params := params + text;
        i := i + 1;
      }
      PrefixCompletes(args, |args|, slash, quotePlaceholders);
      NoArguments(Prefix(args, |args|, slash, quotePlaceholders).1, quotePlaceholders);
      assert args[|args|..] == [] && params + "" == params;
    }

    lemma NoArguments(parse: bool, quotePlaceholders: bool)
      ensures ArgumentsString([], parse, slash, quotePlaceholders) == ""
    {
    }

    /** One argument of the line. */
    method Render(arg: string, parse: bool, quotePlaceholders: bool) returns (text: string)
      ensures text == Rendered(arg, parse, slash, quotePlaceholders)
    {
      if parse && IsSwitch(arg, slash) {
        text := SwitchName(arg);
        var value := SwitchValue(arg);
        if value != "" {
          value := QuoteForCommandLineToArgvW(value, quotePlaceholders);
          text := text + ("=" + value);
        } else {
          assert text + "" == text;
        }
      } else {
        text := QuoteForCommandLineToArgvW(arg, quotePlaceholders);
      }
    }
  }
}
