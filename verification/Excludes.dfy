/** The exclude matcher: which patterns it keeps and which paths it matches. */
module Excludes {
  import opened Globs
  import opened Regex
  import opened Types

  // ---- Trimming ------------------------------------------------------------------------

  predicate IsSpace(c: char) {
    c in "\t\n\U{000B}\U{000C}\r \U{0085}\U{00A0}\U{1680}\U{2028}\U{2029}\U{202F}\U{205F}\U{3000}"
    || '\U{2000}' <= c <= '\U{200A}'
  }

  predicate IsSlash(c: char) {
    c == '/'
  }

  function TrimLeft(s: string, cut: char -> bool): string {
    if s != "" && cut(s[0]) then TrimLeft(s[1..], cut) else s
  }

  function TrimRight(s: string, cut: char -> bool): string {
    if s != "" && cut(s[|s| - 1]) then TrimRight(s[..|s| - 1], cut) else s
  }

  function Trim(s: string, cut: char -> bool): string {
    TrimRight(TrimLeft(s, cut), cut)
  }

  function Normalised(pattern: string): string {
    Trim(Trim(pattern, IsSpace), IsSlash)
  }

  /** s without such characters at either end: they are gone from there, and nothing else is. */
  ghost predicate Bare(s: string, cut: char -> bool, r: string) {
    && (exists i, j :: 0 <= i <= j <= |s| && AllIn(s[..i], cut) && s[i..j] == r && AllIn(s[j..], cut))
    && (r != "" ==> !cut(r[0]) && !cut(r[|r| - 1]))
  }

  lemma {:induction false} TrimLeftIs(s: string, cut: char -> bool) returns (i: nat)
    ensures i <= |s| && TrimLeft(s, cut) == s[i..] && AllIn(s[..i], cut) && (i < |s| ==> !cut(s[i]))
    decreases |s|
  {
    i := 0;
    if s != "" && cut(s[0]) {
      var j := TrimLeftIs(s[1..], cut);
      i := j + 1;
      assert s[1..][j..] == s[i..] && s[..i] == [s[0]] + s[1..][..j];
    }
  }

  lemma {:induction false} TrimRightIs(s: string, cut: char -> bool) returns (j: nat)
    ensures j <= |s| && TrimRight(s, cut) == s[..j] && AllIn(s[j..], cut) && (j > 0 ==> !cut(s[j - 1]))
    decreases |s|
  {
    j := |s|;
    if s != "" && cut(s[|s| - 1]) {
      var t := s[..|s| - 1];
      j := TrimRightIs(t, cut);
      assert t[..j] == s[..j] && s[j..] == t[j..] + [s[|s| - 1]];
    }
  }

  lemma {:induction false} TrimIsBare(s: string, cut: char -> bool)
    ensures Bare(s, cut, Trim(s, cut))
  {
    var i := TrimLeftIs(s, cut);
    var t := s[i..];
    var j := TrimRightIs(t, cut);
    assert t[..j] == s[i..i + j] && t[j..] == s[i + j..];
    assert 0 <= i <= i + j <= |s| && AllIn(s[..i], cut) && s[i..i + j] == Trim(s, cut) && AllIn(s[i + j..], cut);
    if j > 0 { assert s[i..i + j][0] == s[i] && s[i..i + j][j - 1] == t[j - 1]; }
  }

  /** There is only one such string. */
  lemma {:induction false} BareUnique(s: string, cut: char -> bool, a: string, b: string)
    requires Bare(s, cut, a) && Bare(s, cut, b)
    ensures a == b
  {
    var i, j :| 0 <= i <= j <= |s| && AllIn(s[..i], cut) && s[i..j] == a && AllIn(s[j..], cut);
    var k, l :| 0 <= k <= l <= |s| && AllIn(s[..k], cut) && s[k..l] == b && AllIn(s[l..], cut);
    BareEnds(s, cut, a, i, j);
    BareEnds(s, cut, b, k, l);
    BareSpan(s, cut, i, j, k, l);
    BareSpan(s, cut, k, l, i, j);
  }

  lemma BareEnds(s: string, cut: char -> bool, r: string, i: nat, j: nat)
    requires i <= j <= |s| && r == s[i..j] && (r != "" ==> !cut(r[0]) && !cut(r[|r| - 1]))
    ensures i < j ==> !cut(s[i]) && !cut(s[j - 1])
  {
    if i < j { assert r[0] == s[i] && r[|r| - 1] == s[j - 1]; }
  }

  /** A span that starts and ends in other characters lies within every span outside which all are such. */
  lemma BareSpan(s: string, cut: char -> bool, i: nat, j: nat, k: nat, l: nat)
    requires i <= j <= |s| && k <= l <= |s| && AllIn(s[..k], cut) && AllIn(s[l..], cut)
    requires i < j ==> !cut(s[i]) && !cut(s[j - 1])
    ensures i < j ==> k <= i && j <= l
  {
    forall x | 0 <= x < k ensures cut(s[x]) { assert s[..k][x] == s[x]; }
    forall x | l <= x < |s| ensures cut(s[x]) { assert s[l..][x - l] == s[x]; }
  }

  /** A result of trimming is right exactly if it is the string without such characters at the ends. */
  lemma {:induction false} TrimIff(s: string, cut: char -> bool, r: string)
    ensures r == Trim(s, cut) <==> Bare(s, cut, r)
  {
    TrimIsBare(s, cut);
    if Bare(s, cut, r) { BareUnique(s, cut, r, Trim(s, cut)); }
  }

  /** A pattern is used without white space, and then without slashes, at its ends. */
  lemma {:induction false} NormalisedIff(pattern: string, raw: string)
    ensures raw == Normalised(pattern) <==> exists bare :: Bare(pattern, IsSpace, bare) && Bare(bare, IsSlash, raw)
  {
    var bare := Trim(pattern, IsSpace);
    TrimIff(pattern, IsSpace, bare);
    TrimIff(bare, IsSlash, raw);
    if b :| Bare(pattern, IsSpace, b) && Bare(b, IsSlash, raw) { TrimIff(pattern, IsSpace, b); }
  }

  // ---- Building the matcher ------------------------------------------------------------

  datatype Pattern = Pattern(raw: string, re: Re)

  /** The patterns that remain once blank ones are dropped. */
  function KeptFrom(patterns: seq<string>, i: nat): seq<string>
    requires i <= |patterns|
    decreases |patterns| - i
  {
    if i == |patterns| then []
    else if Normalised(patterns[i]) == "" then KeptFrom(patterns, i + 1)
    else [Normalised(patterns[i])] + KeptFrom(patterns, i + 1)
  }

  /** The compiled patterns, or None if one of them does not compile. */
  function BuiltFrom(patterns: seq<string>, i: nat): Option<seq<Pattern>>
    requires i <= |patterns|
    decreases |patterns| - i
  {
    if i == |patterns| then Some([])
    else if Normalised(patterns[i]) == "" then BuiltFrom(patterns, i + 1)
    else
      var re, rest := Compile("^" + Emitted(Normalised(patterns[i])) + "$"), BuiltFrom(patterns, i + 1);
      if re.None? then None else Prepended([Pattern(Normalised(patterns[i]), re.value)], rest)
  }

  function Prepended(m: seq<Pattern>, rest: Option<seq<Pattern>>): Option<seq<Pattern>> {
    if rest.None? then None else Some(m + rest.value)
  }

  lemma Prepending(m: seq<Pattern>, p: Pattern, rest: Option<seq<Pattern>>)
    ensures Prepended(m, Prepended([p], rest)) == Prepended(m + [p], rest)
    ensures Prepended([], rest) == rest
    ensures Prepended(m, Some([])) == Some(m)
  {
    assert m + [] == m;
    if rest.Some? {
      assert m + ([p] + rest.value) == m + [p] + rest.value;
      assert [] + rest.value == rest.value;
    }
  }

  method NewExcludeMatcher(patterns: seq<string>) returns (matcher: Option<seq<Pattern>>)
    ensures matcher == BuiltFrom(patterns, 0)
  {
    var m: seq<Pattern> := [];
    Prepending(m, Pattern("", Empty), BuiltFrom(patterns, 0));
    for i := 0 to |patterns|
      invariant BuiltFrom(patterns, 0) == Prepended(m, BuiltFrom(patterns, i))
    {
      var pattern := Trim(patterns[i], IsSpace);
      pattern := Trim(pattern, IsSlash);
      if pattern == "" {
        continue;
      }
      var text := GlobToRegexp(pattern);
      var re := Compile("^" + text + "$");
      if re.None? {
        return None;
      }
      Prepending(m, Pattern(pattern, re.value), BuiltFrom(patterns, i + 1));
      m := m + [Pattern(pattern, re.value)];
    }
    Prepending(m, Pattern("", Empty), None);
    matcher := Some(m);
  }

  ghost predicate Means(m: seq<Pattern>, raws: seq<string>) {
    |m| == |raws| && forall j :: 0 <= j < |m| ==> m[j] == Pattern(raws[j], Meaning(raws[j]))
  }

  /** Building never fails, and keeps exactly the patterns that are not blank. */
  lemma {:induction false} MatcherBuilds(patterns: seq<string>, i: nat)
    requires i <= |patterns|
    ensures BuiltFrom(patterns, i).Some? && Means(BuiltFrom(patterns, i).value, KeptFrom(patterns, i))
    decreases |patterns| - i
  {
    if i < |patterns| {
      MatcherBuilds(patterns, i + 1);
      var raw := Normalised(patterns[i]);
      Compiles(raw);
      if raw != "" {
        MeansMore(raw, BuiltFrom(patterns, i + 1).value, KeptFrom(patterns, i + 1));
      }
    }
  }

  lemma {:induction false} MeansMore(raw: string, m: seq<Pattern>, raws: seq<string>)
    requires Means(m, raws)
    ensures Means([Pattern(raw, Meaning(raw))] + m, [raw] + raws)
  {
  }

  // ---- Matching ------------------------------------------------------------------------

  predicate Hits(p: Pattern, path: string, isDir: bool) {
    Matches(p.re, path) || (isDir && Matches(p.re, path + "/"))
  }

  predicate Excluded(m: seq<Pattern>, path: string, isDir: bool) {
    exists j :: 0 <= j < |m| && Hits(m[j], Trim(path, IsSlash), isDir)
  }

  method Match(m: seq<Pattern>, rawPath: string, isDir: bool) returns (excluded: bool)
    ensures excluded == Excluded(m, rawPath, isDir)
  {
    var path := Trim(rawPath, IsSlash);
    for i := 0 to |m|
      invariant forall j :: 0 <= j < i ==> !Hits(m[j], path, isDir)
    {
      if Matches(m[i].re, path) {
        return true;
      }
      if isDir && Matches(m[i].re, path + "/") {
        return true;
      }
    }
    excluded := false;
  }

  /** A glob excludes the path, or the path as a directory. */
  ghost predicate GlobHits(raw: string, path: string, isDir: bool) {
    Glob(raw, path, WithinLine()) || (isDir && Glob(raw, path + "/", WithinLine()))
  }

  /** The matcher excludes a path exactly when one of its globs does. */
  lemma ExcludedIsGlob(m: seq<Pattern>, raws: seq<string>, path: string, isDir: bool)
    requires Means(m, raws)
    ensures Excluded(m, path, isDir) <==> exists j :: 0 <= j < |raws| && GlobHits(raws[j], Trim(path, IsSlash), isDir)
  {
    var s := Trim(path, IsSlash);
    forall j | 0 <= j < |m| ensures Hits(m[j], s, isDir) <==> GlobHits(raws[j], s, isDir) {
      MeaningIsGlob(raws[j], s);
      MeaningIsGlob(raws[j], s + "/");
    }
  }

  /** Every pattern's last token is two stars. */
  ghost predicate AllOpen(m: seq<Pattern>) {
    forall j :: 0 <= j < |m| ==> EndsOpen(m[j].raw) && m[j].re == Meaning(m[j].raw)
  }

  predicate Tidy(path: string) {
    path != "" && path[0] != '/' && path[|path| - 1] != '/'
  }

  lemma TidyIsTrimmed(path: string)
    requires Tidy(path)
    ensures Trim(path, IsSlash) == path
  {
  }

  /** Whatever lies below an excluded directory is then excluded on its own. */
  lemma BelowExcluded(m: seq<Pattern>, dir: string, more: string, isDir: bool)
    requires AllOpen(m) && Excluded(m, dir, true) && '\n' !in more
    requires Tidy(dir) && Tidy(dir + "/" + more)
    ensures Excluded(m, dir + "/" + more, isDir)
  {
    TidyIsTrimmed(dir);
    TidyIsTrimmed(dir + "/" + more);
    var j :| 0 <= j < |m| && Hits(m[j], dir, true);
    HitsBelow(m[j], dir, more, isDir);
  }

  lemma {:induction false} GlobBelow(raw: string, a: string, b: string, whole: string)
    requires EndsOpen(raw) && Glob(raw, a, WithinLine()) && '\n' !in b && whole == a + b
    ensures Glob(raw, whole, WithinLine())
  {
    OpenEnd(raw, a, b);
  }

  lemma BelowText(dir: string, more: string)
    ensures dir + "/" + more == dir + ("/" + more) && ('\n' !in more ==> '\n' !in "/" + more)
  {
  }

  lemma HitsBelow(p: Pattern, dir: string, more: string, isDir: bool)
    requires EndsOpen(p.raw) && p.re == Meaning(p.raw)
    requires Hits(p, dir, true) && '\n' !in more
    ensures Hits(p, dir + "/" + more, isDir)
  {
    BelowText(dir, more);
    MeaningIsGlob(p.raw, dir + "/" + more);
    if Matches(p.re, dir) {
      MeaningIsGlob(p.raw, dir);
      GlobBelow(p.raw, dir, "/" + more, dir + "/" + more);
    } else {
      MeaningIsGlob(p.raw, dir + "/");
      GlobBelow(p.raw, dir + "/", more, dir + "/" + more);
    }
  }
}
