/** Regular expressions in the part of RE2's syntax that exclude patterns are turned into. */
module Regex {
  import opened Types

  datatype Re = Empty | Chr(c: char) | Dot | NotIn(c: char) | Cat(a: Re, b: Re) | Star(r: Re) | Opt(r: Re)

  // ---- Meaning -------------------------------------------------------------------------

  /** The whole of s matches r. A dot does not match a line break, a negated class does. */
  predicate Matches(r: Re, s: string)
    decreases r, |s|
  {
    match r
    case Empty => s == ""
    case Chr(c) => s == [c]
    case Dot => |s| == 1 && s[0] != '\n'
    case NotIn(c) => |s| == 1 && s[0] != c
    case Cat(a, b) => exists k :: 0 <= k <= |s| && Matches(a, s[..k]) && Matches(b, s[k..])
    case Star(a) => s == "" || exists k :: 0 < k <= |s| && Matches(a, s[..k]) && Matches(r, s[k..])
    case Opt(a) => s == "" || Matches(a, s)
  }

  // ---- Syntax --------------------------------------------------------------------------

  predicate IsAlnum(c: char) {
    '0' <= c <= '9' || 'a' <= c <= 'z' || 'A' <= c <= 'Z'
  }

  /** Characters that do not stand for themselves at the start of an expression. */
  predicate IsMeta(c: char) {
    c in "\\.+*?()|[]{}^$"
  }

  predicate IsRepeat(c: char) {
    c in "*+?{"
  }

  datatype Parsed = Parsed(re: Re, rest: string)

  /** A repetition after an atom; a second one right after it is an error. */
  function ParseRepeat(a: Re, t: string): (r: Option<Parsed>)
    ensures r.Some? ==> |r.value.rest| <= |t|
  {
    if t == "" || !IsRepeat(t[0]) then Some(Parsed(a, t))
    else if |t| > 1 && IsRepeat(t[1]) then None
    else if t[0] == '*' then Some(Parsed(Star(a), t[1..]))
    else if t[0] == '?' then Some(Parsed(Opt(a), t[1..]))
    else None
  }

  function ParseAtom(t: string): (r: Option<Parsed>)
    requires t != ""
    ensures r.Some? ==> |r.value.rest| < |t|
    decreases |t|, 0
  {
    if t[0] == '\\' then
      if |t| > 1 && t[1] < 128 as char && !IsAlnum(t[1]) then Some(Parsed(Chr(t[1]), t[2..])) else None
    else if t[0] == '.' then Some(Parsed(Dot, t[1..]))
    else if t[0] == '[' then
      if |t| >= 4 && t[1] == '^' && !IsMeta(t[2]) && t[3] == ']' then Some(Parsed(NotIn(t[2]), t[4..])) else None
    else if |t| >= 3 && t[..3] == "(?:" then
      var inner := ParseSeq(t[3..]);
      if inner.Some? && inner.value.rest != "" && inner.value.rest[0] == ')'
      then Some(Parsed(inner.value.re, inner.value.rest[1..]))
      else None
    else if IsMeta(t[0]) then None
    else Some(Parsed(Chr(t[0]), t[1..]))
  }

  /** Atoms with their repetitions, up to a closing bracket, an end anchor, or the end. */
  function ParseSeq(t: string): (r: Option<Parsed>)
    ensures r.Some? ==> |r.value.rest| <= |t|
    decreases |t|, 1
  {
    if t == "" || t[0] == ')' || t[0] == '$' then Some(Parsed(Empty, t)) else
      var atom := ParseAtom(t);
      if atom.None? then None else
        var item := ParseRepeat(atom.value.re, atom.value.rest);
        if item.None? then None else
          var rest := ParseSeq(item.value.rest);
          if rest.None? then None else Some(Parsed(Cat(item.value.re, rest.value.re), rest.value.rest))
  }

  /** An expression anchored at both ends. */
  function Compile(t: string): Option<Re> {
    if t == "" || t[0] != '^' then None else
      var p := ParseSeq(t[1..]);
      if p.Some? && p.value.rest == "$" then Some(p.value.re) else None
  }

  // ---- Laws ----------------------------------------------------------------------------

  /** A repeated one-character expression matches exactly the strings of such characters. */
  lemma {:induction false} StarOfOne(r: Re, s: string)
    requires r.Dot? || r.NotIn?
    ensures Matches(Star(r), s) <==> forall i :: 0 <= i < |s| ==> Matches(r, [s[i]])
    decreases |s|
  {
    if s != "" {
      StarOfOne(r, s[1..]);
      assert s[..1] == [s[0]];
      assert forall i :: 0 <= i < |s[1..]| ==> s[1..][i] == s[i + 1];
      assert (forall i :: 0 <= i < |s| ==> Matches(r, [s[i]]))
        <==> Matches(r, s[..1]) && forall i :: 0 <= i < |s[1..]| ==> Matches(r, [s[1..][i]]) by {
        assert forall i :: 1 <= i < |s| ==> s[i] == s[1..][i - 1];
      }
      assert forall k :: 1 < k <= |s| ==> !Matches(r, s[..k]);
    }
  }

  lemma {:induction false} CatEmpty(a: Re, s: string)
    ensures Matches(Cat(a, Empty), s) <==> Matches(a, s)
  {
    assert s[..|s|] == s && s[|s|..] == "";
    assert forall k :: 0 <= k <= |s| && s[k..] == "" ==> k == |s|;
  }

  /** After one character the rest of the expression matches the rest of the string. */
  lemma {:induction false} CatOne(a: Re, b: Re, s: string)
    requires a.Chr? || a.NotIn? || a.Dot?
    ensures Matches(Cat(a, b), s) <==> s != "" && Matches(a, [s[0]]) && Matches(b, s[1..])
  {
    if s != "" { assert s[..1] == [s[0]]; }
    assert forall k :: 0 <= k <= |s| && Matches(a, s[..k]) ==> k == 1;
  }
}
