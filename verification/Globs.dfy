/** Exclude patterns: what a glob means, and the regular expression it is turned into. */
module Globs {
  import opened Regex
  import opened Types

  // ---- What a glob means ---------------------------------------------------------------

  predicate AllIn(s: string, ok: char -> bool) {
    forall i :: 0 <= i < |s| ==> ok(s[i])
  }

  /** The pattern starts with these characters. */
  predicate Starts(p: string, with: string) {
    |p| >= |with| && p[..|with|] == with
  }

  /**
   * What a pattern means, read character by character: two stars and a slash stand for nothing or
   * for anything that ends in a slash, two stars for anything, one star for anything without a
   * slash, a question mark for one character but a slash, and everything else for itself. Two stars
   * cross only the characters in any.
   */
  ghost predicate Glob(p: string, s: string, any: char -> bool)
    decreases |p|
  {
    if p == "" then s == ""
    else if Starts(p, "**/") then
      || Glob(p[3..], s, any)
      || exists k :: 0 <= k < |s| && AllIn(s[..k], any) && s[k] == '/' && Glob(p[3..], s[k + 1..], any)
    else if Starts(p, "**") then
      exists k :: 0 <= k <= |s| && AllIn(s[..k], any) && Glob(p[2..], s[k..], any)
    else if p[0] == '*' then
      exists k :: 0 <= k <= |s| && '/' !in s[..k] && Glob(p[1..], s[k..], any)
    else if p[0] == '?' then
      s != "" && s[0] != '/' && Glob(p[1..], s[1..], any)
    else
      s != "" && s[0] == p[0] && Glob(p[1..], s[1..], any)
  }

  /** Two stars cross everything. */
  function Anything(): char -> bool {
    c => true
  }

  /** Two stars stop at a line break. */
  function WithinLine(): char -> bool {
    c => c != '\n'
  }

  // ---- Its tokens ----------------------------------------------------------------------

  datatype Token = AnyDirs | AnyText | AnyName | AnyOne | Plain(c: char)

  /** The first token of a pattern. */
  function First(p: string): Token
    requires p != ""
  {
    if p[0] == '*' then
      if |p| > 1 && p[1] == '*' then if |p| > 2 && p[2] == '/' then AnyDirs else AnyText
      else AnyName
    else if p[0] == '?' then AnyOne
    else Plain(p[0])
  }

  function Width(t: Token): nat {
    match t
    case AnyDirs => 3
    case AnyText => 2
    case _ => 1
  }

  lemma WidthFits(p: string)
    requires p != ""
    ensures 1 <= Width(First(p)) <= |p|
  {
  }

  /**
   * What one token stands for: two stars with a slash for nothing or anything up to a slash, two
   * stars for anything, one star for anything without a slash, a question mark for one character
   * but a slash, and everything else for itself. Two stars cross only the characters in any.
   */
  ghost predicate Takes(t: Token, s: string, any: char -> bool) {
    match t
    case AnyDirs => s == "" || (s[|s| - 1] == '/' && AllIn(s[..|s| - 1], any))
    case AnyText => AllIn(s, any)
    case AnyName => '/' !in s
    case AnyOne => |s| == 1 && s[0] != '/'
    case Plain(c) => s == [c]
  }

  /** The path falls into pieces, one for each token. */
  ghost predicate Tokenwise(p: string, s: string, any: char -> bool)
    decreases |p|
  {
    if p == "" then s == "" else
      WidthFits(p);
      exists k :: 0 <= k <= |s| && Takes(First(p), s[..k], any) && Tokenwise(p[Width(First(p))..], s[k..], any)
  }

  lemma StartsToken(p: string)
    requires p != ""
    ensures Starts(p, "**/") <==> First(p) == AnyDirs
    ensures Starts(p, "**") && !Starts(p, "**/") <==> First(p) == AnyText
  {
    if |p| >= 3 { assert p[..3] == [p[0], p[1], p[2]]; }
    if |p| >= 2 { assert p[..2] == [p[0], p[1]]; }
  }

  /** One piece of the path, and the rest for the rest of the pattern. */
  ghost predicate Piecewise(t: Token, rest: string, s: string, any: char -> bool) {
    exists k :: 0 <= k <= |s| && Takes(t, s[..k], any) && Glob(rest, s[k..], any)
  }

  lemma {:induction false} OneCharacter(t: Token, rest: string, s: string, any: char -> bool)
    requires t.AnyOne? || t.Plain?
    ensures Piecewise(t, rest, s, any) <==> s != "" && Takes(t, s[..1], any) && Glob(rest, s[1..], any)
  {
    assert forall k :: 0 <= k <= |s| && Takes(t, s[..k], any) ==> k == 1;
  }

  lemma {:induction false} SlashPiece(rest: string, s: string, any: char -> bool)
    ensures Piecewise(AnyDirs, rest, s, any)
       <==> Glob(rest, s, any)
            || exists k :: 0 <= k < |s| && AllIn(s[..k], any) && s[k] == '/' && Glob(rest, s[k + 1..], any)
  {
    assert s[..0] == "" && s[0..] == s;
    forall k | 0 <= k < |s|
      ensures Takes(AnyDirs, s[..k + 1], any) <==> AllIn(s[..k], any) && s[k] == '/'
    {
      assert s[..k + 1][..k] == s[..k];
    }
    if Piecewise(AnyDirs, rest, s, any) {
      var k :| 0 <= k <= |s| && Takes(AnyDirs, s[..k], any) && Glob(rest, s[k..], any);
      if k > 0 { assert Takes(AnyDirs, s[..k - 1 + 1], any) && s[k - 1] == '/'; }
    }
  }

  /** The pattern means what its first token and the rest mean. */
  lemma {:induction false} GlobIsPiecewise(p: string, s: string, any: char -> bool)
    requires p != ""
    ensures Width(First(p)) <= |p|
    ensures Glob(p, s, any) <==> Piecewise(First(p), p[Width(First(p))..], s, any)
  {
    WidthFits(p);
    StartsToken(p);
    var rest := p[Width(First(p))..];
    match First(p)
    case AnyDirs => SlashPiece(rest, s, any);
    case AnyText =>
    case AnyName =>
    case AnyOne => OneCharacter(AnyOne, rest, s, any);
    case Plain(c) =>
      OneCharacter(Plain(c), rest, s, any);
      if s != "" { assert s[..1] == [s[0]]; }
  }

  /** Falling into pieces, token by token, is what the pattern means. */
  lemma {:induction false} TokenwiseIsGlob(p: string, s: string, any: char -> bool)
    ensures Tokenwise(p, s, any) <==> Glob(p, s, any)
    decreases |p|
  {
    if p != "" {
      GlobIsPiecewise(p, s, any);
      var rest := p[Width(First(p))..];
      forall k | 0 <= k <= |s| ensures Tokenwise(rest, s[k..], any) <==> Glob(rest, s[k..], any) {
        TokenwiseIsGlob(rest, s[k..], any);
      }
    }
  }

  // ---- The regular expression ----------------------------------------------------------

  function TokenText(t: Token): string {
    match t
    case AnyDirs => "(?:.*/)?"
    case AnyText => ".*"
    case AnyName => "[^/]*"
    case AnyOne => "[^/]"
    case Plain(c) => if c in ".+()|{}[]^$\\" then ['\\', c] else [c]
  }

  function TokenRe(t: Token): Re {
    match t
    case AnyDirs => Opt(Cat(Star(Dot), Cat(Chr('/'), Empty)))
    case AnyText => Star(Dot)
    case AnyName => Star(NotIn('/'))
    case AnyOne => NotIn('/')
    case Plain(c) => Chr(c)
  }

  function Emitted(p: string): string
    decreases |p|
  {
    if p == "" then "" else
      WidthFits(p);
      TokenText(First(p)) + Emitted(p[Width(First(p))..])
  }

  function Meaning(p: string): Re
    decreases |p|
  {
    if p == "" then Empty else
      WidthFits(p);
      Cat(TokenRe(First(p)), Meaning(p[Width(First(p))..]))
  }

  /** The compiler's loop over the pattern's characters. */
  method GlobToRegexp(p: string) returns (b: string)
    ensures b == Emitted(p)
  {
    b := "";
    var i := 0;
    assert p[0..] == p;
    while i < |p|
      invariant i <= |p|
      invariant b + Emitted(p[i..]) == Emitted(p)
    {
      ghost var was, start := b, i;
      match p[i] {
        case '*' =>
          if i + 1 < |p| && p[i + 1] == '*' {
            i := i + 1;
            if i + 1 < |p| && p[i + 1] == '/' {
              i := i + 1;
              b := b + "(?:.*/)?";
            } else {
              b := b + ".*";
            }
          } else {
            b := b + "[^/]*";
          }
        case '?' =>
          b := b + "[^/]";
        case _ =>
          if p[i] in ".+()|{}[]^$\\" {
            b := b + ['\\'];
          }
          b := b + [p[i]];
      }
      i := i + 1;
      EmitStep(p, start, was, b, i);
    }
    assert p[i..] == "";
  }

  lemma EmitStep(p: string, i: nat, was: string, now: string, j: nat)
    requires i < |p| && j == i + Width(First(p[i..])) && now == was + TokenText(First(p[i..]))
    ensures j <= |p| && was + Emitted(p[i..]) == now + Emitted(p[j..])
  {
    var q := p[i..];
    WidthFits(q);
    EmittedUnfolds(q);
    assert q[Width(First(q))..] == p[j..];
    Regroup(was, TokenText(First(q)), Emitted(p[j..]));
  }

  lemma {:induction false} EmittedUnfolds(q: string)
    requires q != ""
    ensures Width(First(q)) <= |q| && Emitted(q) == TokenText(First(q)) + Emitted(q[Width(First(q))..])
  {
    WidthFits(q);
  }

  lemma Regroup(a: string, b: string, c: string)
    ensures a + (b + c) == a + b + c
  {
  }

  // ---- The text parses to its meaning --------------------------------------------------

  /** Tokens of a pattern: a star or a question mark never stands for itself. */
  predicate IsToken(t: Token) {
    t.Plain? ==> t.c != '*' && t.c != '?'
  }

  predicate StartsAtom(t: string) {
    t != "" && !IsRepeat(t[0])
  }

  lemma TextStarts(t: Token, rest: string)
    requires IsToken(t)
    ensures StartsAtom(TokenText(t) + rest)
    ensures (TokenText(t) + rest)[0] != ')' && (TokenText(t) + rest)[0] != '$'
  {
  }

  /** The one-character expression at the start of a token's text. */
  function OneOf(t: Token): Re {
    if t.AnyText? then Dot else NotIn('/')
  }

  /** What follows it. */
  function AfterOne(t: Token, rest: string): string {
    if t.AnyOne? then rest else "*" + rest
  }

  lemma ParsesRepeat(t: Token, rest: string)
    requires t.AnyOne? || t.AnyName? || t.AnyText?
    requires StartsAtom(rest)
    ensures ParseRepeat(OneOf(t), AfterOne(t, rest)) == Some(Parsed(TokenRe(t), rest))
  {
    assert ("*" + rest)[1..] == rest;
  }

  lemma {:induction false} ParsesOne(t: Token, rest: string)
    requires t.AnyOne? || t.AnyName? || t.AnyText?
    ensures ParseAtom(TokenText(t) + rest) == Some(Parsed(OneOf(t), AfterOne(t, rest)))
  {
    var text := TokenText(t) + rest;
    if t.AnyText? {
      assert text[1..] == AfterOne(t, rest);
    } else {
      assert text[..4] == "[^/]" && text[4..] == AfterOne(t, rest);
    }
  }

  lemma {:induction false} ParsesPlain(c: char, rest: string)
    requires IsToken(Plain(c)) && StartsAtom(rest)
    ensures ParseAtom(TokenText(Plain(c)) + rest) == Some(Parsed(Chr(c), rest))
    ensures ParseRepeat(Chr(c), rest) == Some(Parsed(Chr(c), rest))
  {
    var text := TokenText(Plain(c)) + rest;
    if c in ".+()|{}[]^$\\" {
      assert text[2..] == rest;
    } else {
      assert text[1..] == rest;
      assert !IsMeta(c);
    }
  }

  lemma {:induction false} SeqStep(text: string, one: Parsed, item: Parsed, q: Parsed)
    requires text != "" && text[0] != ')' && text[0] != '$'
    requires ParseAtom(text) == Some(one)
    requires ParseRepeat(one.re, one.rest) == Some(item) && ParseSeq(item.rest) == Some(q)
    ensures ParseSeq(text) == Some(Parsed(Cat(item.re, q.re), q.rest))
  {
  }

  lemma {:induction false} ParsesSlash(tail: string)
    requires tail != "" && tail[0] == ')'
    ensures ParseSeq("/" + tail) == Some(Parsed(Cat(Chr('/'), Empty), tail)) && StartsAtom("/" + tail)
  {
    assert ParseSeq(tail) == Some(Parsed(Empty, tail));
    ParsesPlain('/', tail);
    assert "/" + tail == TokenText(Plain('/')) + tail;
  }

  lemma {:induction false} ParsesInner(tail: string)
    requires tail != "" && tail[0] == ')'
    ensures ParseSeq(".*/" + tail) == Some(Parsed(Cat(Star(Dot), Cat(Chr('/'), Empty)), tail))
  {
    var mid := "/" + tail;
    var text := TokenText(AnyText) + mid;
    ParsesSlash(tail);
    ParsesOne(AnyText, mid);
    ParsesRepeat(AnyText, mid);
    TextStarts(AnyText, mid);
    SeqStep(text, Parsed(Dot, AfterOne(AnyText, mid)), Parsed(Star(Dot), mid), Parsed(Cat(Chr('/'), Empty), tail));
    assert ".*/" + tail == text;
  }

  lemma {:induction false} ParsesGroup(rest: string)
    requires StartsAtom(rest)
    ensures var dirs := Cat(Star(Dot), Cat(Chr('/'), Empty));
            && ParseAtom(TokenText(AnyDirs) + rest) == Some(Parsed(dirs, "?" + rest))
            && ParseRepeat(dirs, "?" + rest) == Some(Parsed(Opt(dirs), rest))
  {
    var text, tail, mark := TokenText(AnyDirs) + rest, ")?" + rest, "?" + rest;
    ParsesInner(tail);
    assert text[..3] == "(?:" && text[3..] == ".*/" + tail;
    assert tail[1..] == mark && mark[1..] == rest;
  }

  lemma {:induction false} ParsesToken(t: Token, rest: string)
    requires IsToken(t) && StartsAtom(rest) && ParseSeq(rest).Some?
    ensures var q := ParseSeq(rest).value; ParseSeq(TokenText(t) + rest) == Some(Parsed(Cat(TokenRe(t), q.re), q.rest))
  {
    TextStarts(t, rest);
    match t
    case AnyDirs => ParsesGroup(rest);
    case Plain(c) => ParsesPlain(c, rest);
    case _ => ParsesOne(t, rest); ParsesRepeat(t, rest);
  }

  lemma {:induction false} ParsesEmitted(p: string)
    ensures ParseSeq(Emitted(p) + "$") == Some(Parsed(Meaning(p), "$")) && StartsAtom(Emitted(p) + "$")
    decreases |p|
  {
    if p != "" {
      WidthFits(p);
      var rest := p[Width(First(p))..];
      ParsesEmitted(rest);
      ParsesToken(First(p), Emitted(rest) + "$");
      TextStarts(First(p), Emitted(rest) + "$");
      assert Emitted(p) + "$" == TokenText(First(p)) + (Emitted(rest) + "$");
    } else {
      assert Emitted(p) + "$" == "$";
    }
  }

  /** Every pattern compiles, and to its meaning. */
  lemma {:induction false} Compiles(p: string)
    ensures Compile("^" + Emitted(p) + "$") == Some(Meaning(p))
  {
    ParsesEmitted(p);
    assert ("^" + Emitted(p) + "$")[1..] == Emitted(p) + "$";
  }

  // ---- The expression means what the glob means ----------------------------------------

  lemma {:induction false} DotStar(s: string)
    ensures Matches(Star(Dot), s) <==> AllIn(s, WithinLine())
  {
    StarOfOne(Dot, s);
    assert forall i :: 0 <= i < |s| ==> (Matches(Dot, [s[i]]) <==> s[i] != '\n');
  }

  lemma {:induction false} NameStar(s: string)
    ensures Matches(Star(NotIn('/')), s) <==> '/' !in s
  {
    StarOfOne(NotIn('/'), s);
    assert forall i :: 0 <= i < |s| ==> (Matches(NotIn('/'), [s[i]]) <==> s[i] != '/');
  }

  lemma {:induction false} Slash(s: string)
    ensures Matches(Cat(Chr('/'), Empty), s) <==> s == "/"
  {
    CatEmpty(Chr('/'), s);
  }

  lemma {:induction false} TokenMeaning(t: Token, s: string)
    ensures Matches(TokenRe(t), s) <==> Takes(t, s, WithinLine())
  {
    match t
    case AnyDirs => Dirs(s);
    case AnyText => DotStar(s);
    case AnyName => NameStar(s);
    case _ =>
  }

  lemma {:induction false} Dirs(s: string)
    ensures Matches(TokenRe(AnyDirs), s) <==> Takes(AnyDirs, s, WithinLine())
  {
    if s != "" {
      var n := |s| - 1;
      DotStar(s[..n]);
      Slash(s[n..]);
      assert s[n..] == "/" <==> s[n] == '/';
      forall k | 0 <= k <= |s| && Matches(Cat(Chr('/'), Empty), s[k..]) ensures k == n { Slash(s[k..]); }
    }
  }

  lemma {:induction false} MeaningIsTokenwise(p: string, s: string)
    ensures Matches(Meaning(p), s) <==> Tokenwise(p, s, WithinLine())
    decreases |p|
  {
    if p != "" {
      WidthFits(p);
      var rest := p[Width(First(p))..];
      forall k | 0 <= k <= |s|
        ensures Matches(Meaning(rest), s[k..]) <==> Tokenwise(rest, s[k..], WithinLine())
        ensures Matches(TokenRe(First(p)), s[..k]) <==> Takes(First(p), s[..k], WithinLine())
      {
        MeaningIsTokenwise(rest, s[k..]);
        TokenMeaning(First(p), s[..k]);
      }
    }
  }

  lemma {:induction false} MeaningIsGlob(p: string, s: string)
    ensures Matches(Meaning(p), s) <==> Glob(p, s, WithinLine())
  {
    MeaningIsTokenwise(p, s);
    TokenwiseIsGlob(p, s, WithinLine());
  }

  /** Compiled and anchored, a pattern's text matches exactly the paths that its characters mean. */
  lemma {:induction false} CompiledMatches(p: string, s: string)
    ensures var re := Compile("^" + Emitted(p) + "$"); re.Some? && (Matches(re.value, s) <==> Glob(p, s, WithinLine()))
  {
    Compiles(p);
    MeaningIsGlob(p, s);
  }

  // ---- Line breaks ---------------------------------------------------------------------

  lemma TakesWithoutLineBreaks(t: Token, s: string)
    requires '\n' !in s
    ensures Takes(t, s, WithinLine()) <==> Takes(t, s, Anything())
  {
  }

  /** On a path without line breaks two stars cross anything. */
  lemma {:induction false} WithoutLineBreaks(p: string, s: string)
    requires '\n' !in s
    ensures Tokenwise(p, s, WithinLine()) <==> Tokenwise(p, s, Anything())
    decreases |p|
  {
    if p != "" {
      WidthFits(p);
      var rest := p[Width(First(p))..];
      forall k | 0 <= k <= |s|
        ensures Tokenwise(rest, s[k..], WithinLine()) <==> Tokenwise(rest, s[k..], Anything())
        ensures Takes(First(p), s[..k], WithinLine()) <==> Takes(First(p), s[..k], Anything())
      {
        WithoutLineBreaks(rest, s[k..]);
        TakesWithoutLineBreaks(First(p), s[..k]);
      }
    }
  }

  lemma {:induction false} StarStar(s: string, any: char -> bool)
    ensures Glob("**", s, any) <==> AllIn(s, any)
  {
    assert "**"[2..] == "";
    assert s[..|s|] == s && s[|s|..] == "";
    assert forall k :: 0 <= k <= |s| && s[k..] == "" ==> k == |s|;
  }

  /** The compiled patterns mean their globs on a path exactly when the path has no line break. */
  lemma {:induction false} FaithfulOnLines(s: string)
    ensures (forall p :: Matches(Meaning(p), s) <==> Glob(p, s, Anything())) <==> '\n' !in s
  {
    if '\n' in s {
      StarStar(s, WithinLine());
      StarStar(s, Anything());
      MeaningIsGlob("**", s);
      assert !(Matches(Meaning("**"), s) <==> Glob("**", s, Anything()));
    } else {
      forall p ensures Matches(Meaning(p), s) <==> Glob(p, s, Anything()) {
        MeaningIsTokenwise(p, s);
        WithoutLineBreaks(p, s);
        TokenwiseIsGlob(p, s, Anything());
      }
    }
  }

  // ---- Patterns for whole directories --------------------------------------------------

  /** With how many stars the pattern ends. */
  function FinalStars(p: string): nat {
    if p != "" && p[|p| - 1] == '*' then 1 + FinalStars(p[..|p| - 1]) else 0
  }

  /** It ends in two stars, or in four, or six: stars are read two by two. */
  predicate EndsOpen(p: string) {
    FinalStars(p) > 0 && FinalStars(p) % 2 == 0
  }

  /** The pattern's last token is two stars. */
  predicate LastOpen(p: string)
    decreases |p|
  {
    p != "" && Width(First(p)) <= |p|
    && var rest := p[Width(First(p))..];
       if rest == "" then First(p) == AnyText else LastOpen(rest)
  }

  lemma {:induction false} FinalStarsAppend(a: string, b: string)
    ensures FinalStars(a + b) == if FinalStars(b) == |b| then FinalStars(a) + |b| else FinalStars(b)
    ensures FinalStars(b) <= |b| && FinalStars(a) <= |a|
    decreases |b|, |a|
  {
    if b == "" {
      assert a + b == a;
      if a != "" {
        FinalStarsAppend(a[..|a| - 1], "");
        assert a[..|a| - 1] + "" == a[..|a| - 1];
      }
    } else {
      assert (a + b)[..|a + b| - 1] == a + b[..|b| - 1];
      FinalStarsAppend(a, b[..|b| - 1]);
    }
  }

  /** A pattern of stars only starts with as many stars as it can. */
  lemma {:induction false} AllStars(b: string)
    requires b != "" && FinalStars(b) == |b|
    ensures b[0] == '*'
  {
    FinalStarsAppend("", b[..|b| - 1]);
    if |b| > 1 {
      AllStars(b[..|b| - 1]);
      assert b[0] == b[..|b| - 1][0];
    }
  }

  lemma {:induction false} TokenStars(p: string)
    requires p != ""
    ensures Width(First(p)) <= |p|
    ensures FinalStars(p[..Width(First(p))]) == if First(p).AnyText? then 2 else if First(p).AnyName? then 1 else 0
  {
    WidthFits(p);
    var head := p[..Width(First(p))];
    match First(p)
    case AnyDirs => assert head[2] == '/';
    case AnyText =>
      assert head == "*" + "*" && "*"[..0] == "";
      FinalStarsAppend("*", "*");
    case AnyName => assert head[..0] == "";
    case _ =>
  }

  /** How the first token counts: if only stars follow, it is two stars itself or ends in none. */
  lemma {:induction false} StarsAfterToken(p: string, t: Token, rest: string)
    requires p != "" && t == First(p) && Width(t) <= |p| && rest == p[Width(t)..]
    ensures rest == "" ==> FinalStars(p) == if t.AnyText? then 2 else if t.AnyName? then 1 else 0
    ensures rest != "" && FinalStars(rest) < |rest| ==> FinalStars(p) == FinalStars(rest)
    ensures rest != "" && FinalStars(rest) == |rest| ==> FinalStars(p) == FinalStars(rest) + if t.AnyText? then 2 else 0
  {
    TokenStars(p);
    var head := p[..Width(t)];
    assert p == head + rest;
    FinalStarsAppend(head, rest);
    if rest != "" && FinalStars(rest) == |rest| {
      AllStars(rest);
      assert rest[0] == p[Width(t)];
    }
  }

  /** Stars are read two by two, so the last token is two stars exactly if they end in an even number. */
  lemma {:induction false} LastOpenIff(p: string)
    ensures LastOpen(p) <==> EndsOpen(p)
    decreases |p|
  {
    if p != "" {
      WidthFits(p);
      var t := First(p);
      var rest := p[Width(t)..];
      StarsAfterToken(p, t, rest);
      FinalStarsAppend("", rest);
      LastOpenIff(rest);
    }
  }

  /** A pattern that ends in a slash and two stars, or is just these, is open. */
  lemma {:induction false} SlashStarsEndOpen(p: string)
    requires p == "**" || (|p| >= 3 && p[|p| - 3..] == "/**")
    ensures EndsOpen(p)
  {
    var head := p[..|p| - 2];
    assert p == head + "**";
    assert "**"[..1] == "*" && "*"[..0] == "";
    FinalStarsAppend(head, "**");
    if p != "**" { assert head[|head| - 1] == p[|p| - 3..][0]; }
  }

  lemma {:induction false} OpenToken(p: string, s: string, more: string)
    requires LastOpen(p) && Tokenwise(p, s, WithinLine()) && '\n' !in more
    ensures Tokenwise(p, s + more, WithinLine())
    decreases |p|
  {
    var rest := p[Width(First(p))..];
    var k := GlobSplits(p, s);
    if rest == "" {
      assert k == |s| && s[..k] == s;
      GlobFrom(p, s + more, |s + more|, s + more, "");
    } else {
      OpenToken(rest, s[k..], more);
      GlobJoins(p, s, k, more);
    }
  }

  /** Such a pattern goes on matching, whatever is appended within the line. */
  lemma {:induction false} OpenEnd(p: string, s: string, more: string)
    requires EndsOpen(p) && Glob(p, s, WithinLine()) && '\n' !in more
    ensures Glob(p, s + more, WithinLine())
  {
    LastOpenIff(p);
    TokenwiseIsGlob(p, s, WithinLine());
    OpenToken(p, s, more);
    TokenwiseIsGlob(p, s + more, WithinLine());
  }

  lemma GlobSplits(p: string, s: string) returns (k: nat)
    requires p != "" && Tokenwise(p, s, WithinLine())
    ensures k <= |s| && Width(First(p)) <= |p|
    ensures Takes(First(p), s[..k], WithinLine()) && Tokenwise(p[Width(First(p))..], s[k..], WithinLine())
  {
    WidthFits(p);
    k :| 0 <= k <= |s| && Takes(First(p), s[..k], WithinLine())
      && Tokenwise(p[Width(First(p))..], s[k..], WithinLine());
  }

  lemma {:induction false} GlobJoins(p: string, s: string, k: nat, more: string)
    requires p != "" && k <= |s| && Width(First(p)) <= |p|
    requires Takes(First(p), s[..k], WithinLine()) && Tokenwise(p[Width(First(p))..], s[k..] + more, WithinLine())
    ensures Tokenwise(p, s + more, WithinLine())
  {
    SplitAfter(s, k, more);
    GlobFrom(p, s + more, k, s[..k], s[k..] + more);
  }

  lemma SplitAfter(s: string, k: nat, more: string)
    requires k <= |s|
    ensures (s + more)[..k] == s[..k] && (s + more)[k..] == s[k..] + more
  {
  }

  lemma {:induction false} GlobFrom(p: string, s: string, k: nat, head: string, tail: string)
    requires p != "" && k <= |s| && Width(First(p)) <= |p| && head == s[..k] && tail == s[k..]
    requires Takes(First(p), head, WithinLine()) && Tokenwise(p[Width(First(p))..], tail, WithinLine())
    ensures Tokenwise(p, s, WithinLine())
  {
  }

  /** A plain first character takes itself and leaves the rest to the rest. */
  lemma {:induction false} PlainStep(p: string, s: string)
    requires p != "" && First(p).Plain?
    ensures Matches(Meaning(p), s) <==> s != "" && s[0] == p[0] && Matches(Meaning(p[1..]), s[1..])
  {
    CatOne(Chr(p[0]), Meaning(p[1..]), s);
  }

  /** The same step with the rests written out. */
  lemma {:induction false} PlainStepTo(p: string, s: string, p1: string, s1: string)
    requires p != "" && s != "" && First(p) == Plain(s[0]) && p[1..] == p1 && s[1..] == s1
    ensures Matches(Meaning(p), s) <==> Matches(Meaning(p1), s1)
  {
    PlainStep(p, s);
  }

  /** A pattern of plain characters and two stars. */
  lemma RootPattern()
    ensures EndsOpen("root/**")
    ensures Matches(Meaning("root/**"), "root/") && !Matches(Meaning("root/**"), "etc")
  {
    SlashStarsEndOpen("root/**");
    PlainStep("root/**", "etc");
    PlainStepTo("root/**", "root/", "oot/**", "oot/");
    PlainStepTo("oot/**", "oot/", "ot/**", "ot/");
    PlainStepTo("ot/**", "ot/", "t/**", "t/");
    PlainStepTo("t/**", "t/", "/**", "/");
    PlainStepTo("/**", "/", "**", "");
    StarStar("", WithinLine());
    MeaningIsGlob("**", "");
  }
}
