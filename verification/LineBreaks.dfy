/** Which exclude patterns mean their globs on every path: those without two stars in a row. */
module LineBreaks {
  import opened Globs
  import opened Regex

  predicate DoubleStar(p: string) {
    exists i :: 0 <= i < |p| - 1 && p[i] == '*' && p[i + 1] == '*'
  }

  predicate IsDouble(t: Token) {
    t == AnyDirs || t == AnyText
  }

  /** The first token is a double star, or the rest holds one. */
  lemma DoubleStarRest(p: string)
    requires p != ""
    ensures Width(First(p)) <= |p|
    ensures DoubleStar(p) <==> IsDouble(First(p)) || DoubleStar(p[Width(First(p))..])
  {
    WidthFits(p);
    var rest := p[Width(First(p))..];
    if IsDouble(First(p)) {
      assert p[0] == '*' && p[0 + 1] == '*';
    } else {
      assert rest == p[1..];
      if DoubleStar(rest) {
        var i :| 0 <= i < |rest| - 1 && rest[i] == '*' && rest[i + 1] == '*';
        assert p[i + 1] == '*' && p[i + 1 + 1] == '*';
      }
      if DoubleStar(p) {
        var i :| 0 <= i < |p| - 1 && p[i] == '*' && p[i + 1] == '*';
        assert rest[i - 1] == '*' && rest[i - 1 + 1] == '*';
      }
    }
  }

  /** Without a double star nothing depends on what double stars cross. */
  lemma {:induction false} WithoutDoubleStar(p: string, s: string)
    requires !DoubleStar(p)
    ensures Tokenwise(p, s, WithinLine()) <==> Tokenwise(p, s, Anything())
    decreases |p|
  {
    if p != "" {
      DoubleStarRest(p);
      var rest := p[Width(First(p))..];
      forall k | 0 <= k <= |s| ensures Tokenwise(rest, s[k..], WithinLine()) <==> Tokenwise(rest, s[k..], Anything()) {
        WithoutDoubleStar(rest, s[k..]);
      }
    }
  }

  // ---- Line breaks before slashes ------------------------------------------------------

  /** How often a line break is followed by a slash. */
  function Breaks(s: string): nat {
    if |s| < 2 then 0 else (if s[0] == '\n' && s[1] == '/' then 1 else 0) + Breaks(s[1..])
  }

  lemma {:induction false} BreaksAppend(a: string, b: string)
    ensures Breaks(a) + Breaks(b) <= Breaks(a + b) <= Breaks(a) + Breaks(b) + 1
    decreases |a|
  {
    if a == "" {
      assert a + b == b;
    } else {
      assert (a + b)[1..] == a[1..] + b;
      BreaksAppend(a[1..], b);
      if |a| == 1 { assert a[1..] + b == b; }
    }
  }

  lemma {:induction false} NoBreaks(s: string)
    requires '\n' !in s || '/' !in s
    ensures Breaks(s) == 0
  {
    if |s| >= 2 { NoBreaks(s[1..]); }
  }

  /** Within a line no token takes a line break together with the slash after it. */
  lemma {:induction false} TakesNoBreak(t: Token, s: string)
    requires Takes(t, s, WithinLine())
    ensures Breaks(s) == 0
  {
    match t
    case AnyDirs =>
      if s != "" { assert forall i :: 0 <= i < |s| - 1 ==> s[i] == s[..|s| - 1][i]; }
      NoBreaks(s);
    case AnyText => NoBreaks(s);
    case AnyName => NoBreaks(s);
    case _ =>
  }

  /** So a path has at most as many of these as the pattern has tokens. */
  lemma {:induction false} FewBreaks(p: string, s: string)
    requires Tokenwise(p, s, WithinLine())
    ensures Breaks(s) <= |p|
    decreases |p|
  {
    if p != "" {
      var k := GlobSplits(p, s);
      WidthFits(p);
      TakesNoBreak(First(p), s[..k]);
      FewBreaks(p[Width(First(p))..], s[k..]);
      BreaksAppend(s[..k], s[k..]);
      assert s[..k] + s[k..] == s;
    }
  }

  // ---- A path that shows the difference ------------------------------------------------

  /** n lines, each ended by a slash. */
  function Lines(n: nat): string {
    if n == 0 then "" else "\n/" + Lines(n - 1)
  }

  lemma {:induction false} LinesBreak(n: nat)
    ensures Breaks(Lines(n)) >= n && (n > 0 ==> |Lines(n)| >= 2 && Lines(n)[|Lines(n)| - 1] == '/')
  {
    if n > 0 {
      LinesBreak(n - 1);
      BreaksAppend("\n/", Lines(n - 1));
      assert Breaks("\n/") == 1;
    }
  }

  /** What a token stands for in the path: a double star for n lines. */
  function Piece(t: Token, n: nat): string {
    match t
    case AnyDirs => Lines(n)
    case AnyText => Lines(n)
    case AnyName => ""
    case AnyOne => "x"
    case Plain(c) => [c]
  }

  function Sample(p: string, n: nat): string
    decreases |p|
  {
    if p == "" then "" else
      WidthFits(p);
      Piece(First(p), n) + Sample(p[Width(First(p))..], n)
  }

  lemma {:induction false} SampleMatches(p: string, n: nat)
    ensures Tokenwise(p, Sample(p, n), Anything())
    decreases |p|
  {
    if p != "" {
      WidthFits(p);
      var s, piece, rest := Sample(p, n), Piece(First(p), n), p[Width(First(p))..];
      SampleMatches(rest, n);
      LinesBreak(n);
      assert s[..|piece|] == piece && s[|piece|..] == Sample(rest, n);
      assert Takes(First(p), s[..|piece|], Anything());
    }
  }

  lemma {:induction false} SampleBreaks(p: string, n: nat)
    requires DoubleStar(p)
    ensures Breaks(Sample(p, n)) >= n
    decreases |p|
  {
    DoubleStarRest(p);
    var piece, rest := Piece(First(p), n), p[Width(First(p))..];
    BreaksAppend(piece, Sample(rest, n));
    if IsDouble(First(p)) { LinesBreak(n); } else { SampleBreaks(rest, n); }
  }

  /** A pattern's compiled text means its glob on every path exactly if the pattern has no double star. */
  lemma {:induction false} FaithfulPattern(p: string)
    ensures (forall s :: Matches(Meaning(p), s) <==> Glob(p, s, Anything())) <==> !DoubleStar(p)
  {
    if DoubleStar(p) {
      var s := Sample(p, |p| + 1);
      SampleMatches(p, |p| + 1);
      SampleBreaks(p, |p| + 1);
      TokenwiseIsGlob(p, s, Anything());
      if Tokenwise(p, s, WithinLine()) { FewBreaks(p, s); }
      MeaningIsTokenwise(p, s);
      assert !(Matches(Meaning(p), s) <==> Glob(p, s, Anything()));
    } else {
      forall s ensures Matches(Meaning(p), s) <==> Glob(p, s, Anything()) {
        MeaningIsTokenwise(p, s);
        WithoutDoubleStar(p, s);
        TokenwiseIsGlob(p, s, Anything());
      }
    }
  }
}
