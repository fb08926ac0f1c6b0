// vlog.cc: glob patterns for module and file names, and the log level of a file.
module Vlog {
  import opened Strings

  // ------------------------------------------------------------ what patterns mean

  predicate Slash(c: char)
  {
    c == '/' || c == '\\'
  }

  /** The strings that one character of a pattern stands for. */
  predicate Stands(c: char, piece: string)
  {
    if c == '*' then true
    else |piece| == 1 && (c == '?' || (if Slash(c) then Slash(piece[0]) else piece[0] == c))
  }

  function Join(pieces: seq<string>): string
  {
    if pieces == [] then "" else pieces[0] + Join(pieces[1..])
  }

  /** The pieces of a string, one for each character of the pattern. */
  ghost predicate Parses(s: string, p: string, pieces: seq<string>)
  {
    |pieces| == |p| && Join(pieces) == s && forall k :: 0 <= k < |p| ==> Stands(p[k], pieces[k])
  }

  /** s is in the language of the pattern p. */
  ghost predicate Matches(s: string, p: string)
  {
    exists pieces: seq<string> :: Parses(s, p, pieces)
  }

  // ------------------------------------------------------------ laws of the language

  lemma MatchesEmpty(s: string)
    ensures Matches(s, "") <==> s == ""
  {
    if s == "" {
      assert Parses(s, "", []);
    }
  }

  lemma ParsesTail(s: string, p: string, pieces: seq<string>)
    requires Parses(s, p, pieces) && p != ""
    ensures s == pieces[0] + s[|pieces[0]|..] && Stands(p[0], pieces[0])
    ensures Parses(s[|pieces[0]|..], p[1..], pieces[1..])
  {
    assert s[|pieces[0]|..] == Join(pieces[1..]);
  }

  lemma ParsesCons(piece: string, s: string, p: string, pieces: seq<string>)
    requires p != "" && Stands(p[0], piece) && Parses(s, p[1..], pieces)
    ensures Parses(piece + s, p, [piece] + pieces)
  {
    assert ([piece] + pieces)[1..] == pieces;
    assert forall k :: 0 < k < |p| ==> ([piece] + pieces)[k] == pieces[k - 1] && p[k] == p[1..][k - 1];
  }

  /** A character other than a star takes one character. */
  lemma MatchesChar(s: string, p: string)
    requires p != "" && p[0] != '*'
    ensures Matches(s, p) <==> s != "" && Stands(p[0], s[..1]) && Matches(s[1..], p[1..])
  {
    hide Join;
    if Matches(s, p) {
      var pieces :| Parses(s, p, pieces);
      ParsesTail(s, p, pieces);
      assert s[..1] == pieces[0];
    }
    if s != "" && Stands(p[0], s[..1]) && Matches(s[1..], p[1..]) {
      var pieces :| Parses(s[1..], p[1..], pieces);
      ParsesCons(s[..1], s[1..], p, pieces);
      assert s[..1] + s[1..] == s;
    }
  }

  /** A star takes any prefix. */
  lemma MatchesStar(s: string, p: string)
    requires p != "" && p[0] == '*'
    ensures Matches(s, p) <==> exists k :: 0 <= k <= |s| && Matches(s[k..], p[1..])
  {
    hide Join;
    if Matches(s, p) {
      var pieces :| Parses(s, p, pieces);
      ParsesTail(s, p, pieces);
      assert Matches(s[|pieces[0]|..], p[1..]);
    }
    if k :| 0 <= k <= |s| && Matches(s[k..], p[1..]) {
      var pieces :| Parses(s[k..], p[1..], pieces);
      ParsesCons(s[..k], s[k..], p, pieces);
      assert s[..k] + s[k..] == s;
    }
  }

  /** A second star in a row adds nothing. */
  lemma StarsCoalesce(s: string, p: string)
    requires |p| >= 2 && p[0] == '*' && p[1] == '*'
    ensures Matches(s, p) <==> Matches(s, p[1..])
  {
    hide Matches;
    MatchesStar(s, p);
    MatchesStar(s, p[1..]);
    if Matches(s, p[1..]) {
      assert s[0..] == s;
    }
    if k :| 0 <= k <= |s| && Matches(s[k..], p[1..]) {
      MatchesStar(s[k..], p[1..]);
      var j :| 0 <= j <= |s[k..]| && Matches(s[k..][j..], p[1..][1..]);
      assert s[k..][j..] == s[k + j..];
    }
  }

  lemma StarAlone(s: string)
    ensures Matches(s, "*")
  {
    hide Matches;
    MatchesStar(s, "*");
    MatchesEmpty(s[|s|..]);
    assert "*"[1..] == "" && Matches(s[|s|..], "*"[1..]);
  }

  // ------------------------------------------------------------ the matcher

  /** MatchVlogPattern returns true exactly for the strings in the pattern's language. */
  method MatchVlogPattern(str: string, vlogPattern: string) returns (r: bool)
    ensures r <==> Matches(str, vlogPattern)
    decreases |vlogPattern|
  {
    hide Matches, Stands;
    var p, s := vlogPattern, str;
    while p != "" && s != "" && p[0] != '*'
      invariant |p| <= |vlogPattern|
      invariant Matches(str, vlogPattern) <==> Matches(s, p)
      decreases |p|
    {
      MatchesChar(s, p);
      StandsOne(p[0], s[0]);
      assert s[..1] == [s[0]];
      if Slash(p[0]) {
        if s[0] != '/' && s[0] != '\\' {
          return false;
        }
      } else if p[0] == '?' {
      } else if p[0] != s[0] {
        return false;
      }
      p, s := p[1..], s[1..];
    }
    if p == "" {
      MatchesEmpty(s);
      return s == "";
    }
    ghost var starred := p;
    while p != "" && p[0] == '*'
      invariant |p| <= |starred|
      invariant |p| == |starred| ==> p == starred
      invariant Matches(str, vlogPattern) <==> Matches(s, if |p| < |starred| then "*" + p else p)
      decreases |p|
    {
      ghost var before := p;
      p := p[1..];
      assert before == "*" + p;
      if |before| < |starred| {
        StarsCoalesce(s, "*" + before);
        assert ("*" + before)[1..] == before;
      }
    }
    if p == "" {
      assert "*" + p == "*";
      StarAlone(s);
      return true;
    }
    if s == "" {
      NonEmptyNeeded(s, p);
      return false;
    }
    StarTail(s, p);
    while s != ""
      invariant Matches(str, vlogPattern) <==> exists k :: 0 <= k < |s| && Matches(s[k..], p)
      invariant s != "" ==> |p| < |vlogPattern|
      decreases |s|
    {
      var found := MatchVlogPattern(s, p);
      assert s[0..] == s;
      if found {
        return true;
      }
      ghost var t := s;
      s := s[1..];
      assert forall k :: 0 <= k < |s| ==> s[k..] == t[k + 1..];
      assert forall k :: 0 < k < |t| ==> t[k..] == s[k - 1..];
    }
    return false;
  }

  lemma StandsOne(c: char, d: char)
    ensures c != '*' ==> (Stands(c, [d]) <==> c == '?' || (if Slash(c) then Slash(d) else c == d))
  {
  }

  /** A pattern that does not start with a star does not match the empty string, with or
      without a star before it. */
  lemma NonEmptyNeeded(s: string, p: string)
    requires s == "" && p != "" && p[0] != '*'
    ensures !Matches(s, p) && !Matches(s, "*" + p)
  {
    hide Matches;
    MatchesChar(s, p);
    MatchesStar(s, "*" + p);
    assert ("*" + p)[1..] == p && s[0..] == s;
  }

  /** After a star such a pattern must match a non-empty suffix. */
  lemma StarTail(s: string, p: string)
    requires p != "" && p[0] != '*'
    ensures Matches(s, "*" + p) <==> exists k :: 0 <= k < |s| && Matches(s[k..], p)
  {
    hide Matches;
    MatchesStar(s, "*" + p);
    assert ("*" + p)[1..] == p;
    NonEmptyNeeded(s[|s|..], p);
  }

  // ------------------------------------------------------------ the level of a file

  datatype VmodulePattern = VmodulePattern(pattern: string, vlogLevel: int)

  /** A pattern with a slash is meant for the whole file name. */
  predicate ForFile(p: VmodulePattern)
  {
    exists k :: 0 <= k < |p.pattern| && Slash(p.pattern[k])
  }

  /** Where the part after the last slash begins. */
  function BaseStart(file: string): (k: nat)
    ensures k <= |file| && (k > 0 ==> Slash(file[k - 1]))
    ensures forall j :: k <= j < |file| ==> !Slash(file[j])
  {
    if file == "" then 0
    else if Slash(file[|file| - 1]) then |file|
    else BaseStart(file[..|file| - 1])
  }

  const INL: string := "-inl"

  predicate EndsInInl(s: string)
  {
    |s| >= 4 && s[|s| - 4..] == INL
  }

  function WithoutInl(stem: string): string
  {
    if EndsInInl(stem) then stem[..|stem| - 4] else stem
  }

  /** The base name without its extension, and without a suffix -inl. */
  function GetModule(file: string): string
  {
    var base := file[BaseStart(file)..];
    WithoutInl(base[..LastDot(base)])
  }

  /** A file name is a directory up to the last slash, a stem, and an extension from the last
      dot of the base name on if there is one. */
  predicate Parts(file: string, dir: string, stem: string, ext: string)
  {
    file == dir + (stem + ext) && (dir == "" || Slash(dir[|dir| - 1])) && NoSlash(stem + ext)
    && if ext == "" then '.' !in stem else ext[0] == '.' && '.' !in ext[1..]
  }

  /** A stem is a module and a suffix -inl if there is one. */
  predicate InlParts(stem: string, name: string, suffix: string)
  {
    stem == name + suffix && (suffix == "-inl" || (suffix == "" && !(|name| >= 4 && name[|name| - 4..] == "-inl")))
  }

  predicate NoSlash(s: string)
  {
    forall k :: 0 <= k < |s| ==> !Slash(s[k])
  }

  lemma BaseHasNoSlash(file: string)
    ensures NoSlash(file[BaseStart(file)..])
  {
  }

  lemma BaseStartsOnce(file: string, k: nat)
    requires k <= |file| && (k > 0 ==> Slash(file[k - 1])) && forall j :: k <= j < |file| ==> !Slash(file[j])
    ensures k == BaseStart(file)
  {
  }

  lemma DotOnce(s: string, k: nat)
    requires k <= |s| && if k < |s| then s[k] == '.' && forall j :: k < j < |s| ==> s[j] != '.' else '.' !in s
    ensures k == LastDot(s)
  {
  }

  lemma InlOnce(stem: string, name: string)
    ensures name == WithoutInl(stem) <==> exists suffix :: InlParts(stem, name, suffix)
  {
    forall suffix | InlParts(stem, name, suffix)
      ensures name == WithoutInl(stem)
    {
      if suffix == INL {
        assert stem[|stem| - 4..] == INL && stem[..|stem| - 4] == name;
      } else {
        assert stem == name;
      }
    }
    if name == WithoutInl(stem) {
      var suffix := if EndsInInl(stem) then INL else "";
      assert EndsInInl(stem) ==> stem == stem[..|stem| - 4] + stem[|stem| - 4..];
      assert InlParts(stem, name, suffix);
    }
  }

  /** The module name is just the name in the only way to split the file name. */
  lemma ModuleSplits(file: string, name: string)
    ensures name == GetModule(file)
            <==> exists dir, stem, ext, suffix :: Parts(file, dir, stem, ext) && InlParts(stem, name, suffix)
  {
    hide Parts, InlParts, WithoutInl, BaseStart, LastDot;
    var base := file[BaseStart(file)..];
    var dir, stem, ext := file[..BaseStart(file)], base[..LastDot(base)], base[LastDot(base)..];
    PartsOf(file);
    InlOnce(stem, name);
    if name == GetModule(file) {
      var suffix :| InlParts(stem, name, suffix);
      assert Parts(file, dir, stem, ext) && InlParts(stem, name, suffix);
    }
    forall d, s, e, suffix | Parts(file, d, s, e) && InlParts(s, name, suffix)
      ensures name == GetModule(file)
    {
      PartsOnce(file, d, s, e);
      InlOnce(s, name);
    }
  }

  lemma PartsOf(file: string)
    ensures var base := file[BaseStart(file)..];
        Parts(file, file[..BaseStart(file)], base[..LastDot(base)], base[LastDot(base)..])
  {
    hide BaseStart, LastDot, Slash, NoSlash;
    var base := file[BaseStart(file)..];
    BaseHasNoSlash(file);
    assert base == base[..LastDot(base)] + base[LastDot(base)..];
    assert file == file[..BaseStart(file)] + base;
  }

  lemma PartsOnce(file: string, dir: string, stem: string, ext: string)
    requires Parts(file, dir, stem, ext)
    ensures BaseStart(file) == |dir| && file[|dir|..] == stem + ext
    ensures LastDot(stem + ext) == |stem| && (stem + ext)[..|stem|] == stem
  {
    hide BaseStart, LastDot, Slash, NoSlash;
    BaseOf(file, dir, stem + ext);
    StemOf(stem, ext);
  }

  lemma BaseOf(file: string, dir: string, base: string)
    requires file == dir + base && (dir == "" || Slash(dir[|dir| - 1])) && NoSlash(base)
    ensures BaseStart(file) == |dir| && file[|dir|..] == base
  {
    hide BaseStart, Slash;
    assert forall j :: |dir| <= j < |file| ==> file[j] == base[j - |dir|];
    BaseStartsOnce(file, |dir|);
  }

  lemma StemOf(stem: string, ext: string)
    requires if ext == "" then '.' !in stem else ext[0] == '.' && '.' !in ext[1..]
    ensures LastDot(stem + ext) == |stem|
  {
    hide LastDot;
    var base := stem + ext;
    assert ext == "" ==> base == stem;
    assert forall j :: |stem| < j < |base| ==> base[j] == ext[1..][j - |stem| - 1];
    DotOnce(base, |stem|);
  }

  /** A pattern without a slash is matched with the module name, any other with the file name. */
  ghost predicate Applies(p: VmodulePattern, file: string)
  {
    Matches(if NoSlash(p.pattern) then GetModule(file) else file, p.pattern)
  }

  /** Pattern k is the first that applies to the file. */
  ghost predicate First(vmoduleLevels: seq<VmodulePattern>, file: string, k: nat)
  {
    k < |vmoduleLevels| && Applies(vmoduleLevels[k], file) && forall j :: 0 <= j < k ==> !Applies(vmoduleLevels[j], file)
  }

  /** The first pattern that matches the file, or its module name, decides the level. */
  method GetVlogLevel(vmoduleLevels: seq<VmodulePattern>, maxLevel: int, file: string) returns (level: int)
    ensures forall k: nat :: First(vmoduleLevels, file, k) ==> level == vmoduleLevels[k].vlogLevel
    ensures (forall p :: p in vmoduleLevels ==> !Applies(p, file)) ==> level == maxLevel
  {
    hide Matches, Slash, GetModule;
    var i := 0;
    while i < |vmoduleLevels|
      invariant i <= |vmoduleLevels|
      invariant forall j :: 0 <= j < i ==> !Applies(vmoduleLevels[j], file)
    {
      var p := vmoduleLevels[i];
      var target := if ForFile(p) then file else GetModule(file);
      var matched := MatchVlogPattern(target, p.pattern);
      if matched {
        assert Applies(p, file) && p in vmoduleLevels;
        return p.vlogLevel;
      }
      i := i + 1;
    }
    return maxLevel;
  }
}
