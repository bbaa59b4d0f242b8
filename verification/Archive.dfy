/** The walk that fills an archive, pruned at excluded directories. */
module Archive {
  import opened Excludes
  import Globs
  import opened Regex

  datatype Tree = File(name: string) | Dir(name: string, children: seq<Tree>)
  datatype Entry = Entry(path: string, isDir: bool)

  /** Names on the disk are not empty and hold no slash. */
  ghost predicate ProperNames(t: Tree) {
    t.Dir? ==> forall i :: 0 <= i < |t.children| ==>
      t.children[i].name != "" && '/' !in t.children[i].name && ProperNames(t.children[i])
  }

  /** Everything below t from its i-th child on, parents first; prefix goes before the children's names. */
  function Below(t: Tree, prefix: string, i: nat): seq<Entry>
    requires t.Dir? ==> i <= |t.children|
    decreases t, if t.Dir? then |t.children| - i else 0
  {
    if t.File? || i == |t.children| then [] else
      var c := t.children[i];
      var path := prefix + c.name;
      [Entry(path, c.Dir?)] + Below(c, path + "/", 0) + Below(t, prefix, i + 1)
  }

  /** The same walk, leaving out an excluded entry and, with a directory, everything below it. */
  function Walked(m: seq<Pattern>, t: Tree, prefix: string, i: nat): seq<Entry>
    requires t.Dir? ==> i <= |t.children|
    decreases t, if t.Dir? then |t.children| - i else 0
  {
    if t.File? || i == |t.children| then [] else
      var c := t.children[i];
      var path := prefix + c.name;
      (if Excluded(m, path, c.Dir?) then [] else [Entry(path, c.Dir?)] + Walked(m, c, path + "/", 0))
        + Walked(m, t, prefix, i + 1)
  }

  /** What goes before the names of a root's children: nothing if the root is "/", whose own path is made up. */
  function ChildPrefix(atTop: bool, path: string): string {
    if atTop then "" else path + "/"
  }

  /** A whole root under its path in the archive. */
  function WalkedRoot(m: seq<Pattern>, t: Tree, path: string, atTop: bool): seq<Entry> {
    if Excluded(m, path, t.Dir?) then [] else [Entry(path, t.Dir?)] + Walked(m, t, ChildPrefix(atTop, path), 0)
  }

  /** The root and everything below it. */
  function Whole(t: Tree, path: string, atTop: bool): seq<Entry> {
    [Entry(path, t.Dir?)] + Below(t, ChildPrefix(atTop, path), 0)
  }

  /** An archive being written. */
  class Tar {
    var entries: seq<Entry>

    constructor ()
      ensures entries == []
    {
      entries := [];
    }

    /** Called for each entry of the walk; tells it to skip an excluded directory. */
    method Visit(m: seq<Pattern>, path: string, isDir: bool) returns (added: bool)
      modifies this
      ensures added == !Excluded(m, path, isDir)
      ensures entries == old(entries) + if added then [Entry(path, isDir)] else []
    {
      var excluded := Match(m, path, isDir);
      if excluded {
        return false;
      }
      entries := entries + [Entry(path, isDir)];
      added := true;
    }

    method WalkChildren(m: seq<Pattern>, t: Tree, prefix: string)
      modifies this
      ensures entries == old(entries) + Walked(m, t, prefix, 0)
      decreases t
    {
      if t.File? {
        return;
      }
      for i := 0 to |t.children|
        invariant entries + Walked(m, t, prefix, i) == old(entries) + Walked(m, t, prefix, 0)
      {
        var c := t.children[i];
        ghost var before := entries;
        var added := Visit(m, prefix + c.name, c.Dir?);
        if added {
          WalkChildren(m, c, prefix + c.name + "/");
        }
        WalkStep(m, t, prefix, i, before, entries);
      }
    }

    method AddRoot(m: seq<Pattern>, t: Tree, path: string, atTop: bool)
      modifies this
      ensures entries == old(entries) + WalkedRoot(m, t, path, atTop)
    {
      var added := Visit(m, path, t.Dir?);
      if added {
        ghost var before := entries[..|entries| - 1];
        Regroup(before, [Entry(path, t.Dir?)], Walked(m, t, ChildPrefix(atTop, path), 0));
        WalkChildren(m, t, ChildPrefix(atTop, path));
      }
    }
  }

  lemma Regroup(a: seq<Entry>, b: seq<Entry>, c: seq<Entry>)
    ensures a + b + c == a + (b + c)
  {
  }

  lemma WalkStep(m: seq<Pattern>, t: Tree, prefix: string, i: nat, before: seq<Entry>, after: seq<Entry>)
    requires t.Dir? && i < |t.children|
    requires var path, isDir := prefix + t.children[i].name, t.children[i].Dir?;
             after == before + if Excluded(m, path, isDir) then []
                               else [Entry(path, isDir)] + Walked(m, t.children[i], path + "/", 0)
    ensures before + Walked(m, t, prefix, i) == after + Walked(m, t, prefix, i + 1)
  {
  }

  // ---- The walk is a filter ------------------------------------------------------------

  function Filter<T>(s: seq<T>, keep: T -> bool): seq<T> {
    if s == [] then [] else
      var rest := Filter(s[1..], keep);
      if keep(s[0]) then [s[0]] + rest else rest
  }

  lemma {:induction false} FilterAppend<T>(a: seq<T>, b: seq<T>, keep: T -> bool)
    ensures Filter(a + b, keep) == Filter(a, keep) + Filter(b, keep)
  {
    if a == [] {
      assert a + b == b;
    } else {
      FilterAppend(a[1..], b, keep);
      ghost var all := a + b;
      assert all[0] == a[0] && all[1..] == a[1..] + b;
    }
  }

  lemma {:induction false} FilterAgrees<T>(s: seq<T>, p: T -> bool, q: T -> bool)
    requires forall e :: e in s ==> p(e) == q(e)
    ensures Filter(s, p) == Filter(s, q)
  {
    if s != [] { FilterAgrees(s[1..], p, q); }
  }

  lemma {:induction false} FilterNone<T>(s: seq<T>, p: T -> bool)
    requires forall e :: e in s ==> !p(e)
    ensures Filter(s, p) == []
  {
    if s != [] { FilterNone(s[1..], p); }
  }

  /** Neither the entry nor any directory above it, from the prefix down, is excluded. */
  predicate Reached(m: seq<Pattern>, prefix: string, e: Entry) {
    && !Excluded(m, e.path, e.isDir)
    && forall i :: |prefix| <= i < |e.path| && e.path[i] == '/' ==> !Excluded(m, e.path[..i], true)
  }

  function ReachedFrom(m: seq<Pattern>, prefix: string): Entry -> bool {
    (e: Entry) => Reached(m, prefix, e)
  }

  lemma {:induction false} BelowStartsWithPrefix(t: Tree, prefix: string, i: nat, e: Entry)
    requires (t.Dir? ==> i <= |t.children|) && e in Below(t, prefix, i) && ProperNames(t)
    ensures |prefix| < |e.path| && prefix <= e.path
    decreases t, if t.Dir? then |t.children| - i else 0
  {
    var c := t.children[i];
    var path := prefix + c.name;
    if e in Below(c, path + "/", 0) {
      BelowStartsWithPrefix(c, path + "/", 0, e);
    } else if e in Below(t, prefix, i + 1) {
      BelowStartsWithPrefix(t, prefix, i + 1, e);
    }
  }

  /** One directory further down: it must not be excluded itself. */
  lemma ReachedThrough(m: seq<Pattern>, prefix: string, name: string, e: Entry)
    requires '/' !in name && prefix + name + "/" <= e.path
    ensures Reached(m, prefix, e) <==> !Excluded(m, prefix + name, true) && Reached(m, prefix + name + "/", e)
  {
    var path := prefix + name;
    assert e.path[..|path|] == path && e.path[|path|] == '/';
    assert forall i :: |prefix| <= i < |path| ==> e.path[i] == name[i - |prefix|];
  }

  lemma ReachedDirectly(m: seq<Pattern>, prefix: string, name: string, isDir: bool)
    requires '/' !in name
    ensures Reached(m, prefix, Entry(prefix + name, isDir)) <==> !Excluded(m, prefix + name, isDir)
  {
    assert forall i :: |prefix| <= i < |prefix + name| ==> (prefix + name)[i] == name[i - |prefix|];
  }

  /** The pruned walk is the filter of the whole tree by "neither it nor an ancestor is excluded". */
  lemma {:induction false} PrunedWalkIsFilter(m: seq<Pattern>, t: Tree, prefix: string, i: nat)
    requires (t.Dir? ==> i <= |t.children|) && ProperNames(t)
    ensures Walked(m, t, prefix, i) == Filter(Below(t, prefix, i), ReachedFrom(m, prefix))
    decreases t, if t.Dir? then |t.children| - i else 0
  {
    if t.Dir? && i < |t.children| {
      var c := t.children[i];
      PrunedWalkIsFilter(m, t, prefix, i + 1);
      PrunedWalkIsFilter(m, c, prefix + c.name + "/", 0);
      ChildWalk(m, c, prefix);
      var path := prefix + c.name;
      FilterAppend([Entry(path, c.Dir?)] + Below(c, path + "/", 0), Below(t, prefix, i + 1), ReachedFrom(m, prefix));
    }
  }

  lemma {:induction false} ChildWalk(m: seq<Pattern>, c: Tree, prefix: string)
    requires ProperNames(c) && '/' !in c.name
    requires var path := prefix + c.name + "/";
             Walked(m, c, path, 0) == Filter(Below(c, path, 0), ReachedFrom(m, path))
    ensures var path := prefix + c.name;
            Filter([Entry(path, c.Dir?)] + Below(c, path + "/", 0), ReachedFrom(m, prefix))
              == if Excluded(m, path, c.Dir?) then [] else [Entry(path, c.Dir?)] + Walked(m, c, path + "/", 0)
  {
    var path := prefix + c.name;
    var below := Below(c, path + "/", 0);
    ReachedDirectly(m, prefix, c.name, c.Dir?);
    forall e | e in below ensures Reached(m, prefix, e) <==> !Excluded(m, path, true) && Reached(m, path + "/", e) {
      BelowStartsWithPrefix(c, path + "/", 0, e);
      ReachedThrough(m, prefix, c.name, e);
    }
    assert ([Entry(path, c.Dir?)] + below)[1..] == below;
    if Excluded(m, path, c.Dir?) {
      FilterNone(below, ReachedFrom(m, prefix));
    } else {
      FilterAgrees(below, ReachedFrom(m, prefix), ReachedFrom(m, path + "/"));
    }
  }

  /** For any root but "/" the root is one more directory above everything else. */
  lemma {:induction false} PrunedRootIsFilter(m: seq<Pattern>, t: Tree, path: string)
    requires ProperNames(t) && '/' !in path
    ensures WalkedRoot(m, t, path, false) == Filter(Whole(t, path, false), ReachedFrom(m, ""))
  {
    PrunedWalkIsFilter(m, t, path + "/", 0);
    assert "" + path == path;
    RenamedChildWalk(m, t, path);
  }

  lemma {:induction false} RenamedChildWalk(m: seq<Pattern>, t: Tree, path: string)
    requires ProperNames(t) && '/' !in path
    requires Walked(m, t, path + "/", 0) == Filter(Below(t, path + "/", 0), ReachedFrom(m, path + "/"))
    ensures WalkedRoot(m, t, path, false) == Filter(Whole(t, path, false), ReachedFrom(m, ""))
  {
    var below := Below(t, path + "/", 0);
    ReachedDirectly(m, "", path, t.Dir?);
    assert "" + path == path;
    forall e | e in below ensures Reached(m, "", e) <==> !Excluded(m, path, true) && Reached(m, path + "/", e) {
      BelowStartsWithPrefix(t, path + "/", 0, e);
      ReachedThrough(m, "", path, e);
    }
    assert ([Entry(path, t.Dir?)] + below)[1..] == below;
    if Excluded(m, path, t.Dir?) {
      FilterNone(below, ReachedFrom(m, ""));
    } else {
      FilterAgrees(below, ReachedFrom(m, ""), ReachedFrom(m, path + "/"));
    }
  }

  /** For "/" too nothing below an excluded root is kept, although no path there starts with the root's. */
  lemma {:induction false} PrunedTopIsFilter(m: seq<Pattern>, t: Tree, path: string)
    requires ProperNames(t)
    ensures WalkedRoot(m, t, path, true)
         == if Excluded(m, path, t.Dir?) then []
            else [Entry(path, t.Dir?)] + Filter(Below(t, "", 0), ReachedFrom(m, ""))
  {
    PrunedWalkIsFilter(m, t, "", 0);
  }

  // ---- Patterns for whole directories --------------------------------------------------

  function NotExcluded(m: seq<Pattern>): Entry -> bool {
    (e: Entry) => !Excluded(m, e.path, e.isDir)
  }

  ghost predicate OneLine(es: seq<Entry>) {
    forall e :: e in es ==> '\n' !in e.path
  }

  lemma {:induction false} BelowIsTidy(t: Tree, prefix: string, i: nat, e: Entry)
    requires (t.Dir? ==> i <= |t.children|) && e in Below(t, prefix, i) && ProperNames(t)
    requires prefix == "" || prefix[0] != '/'
    ensures Tidy(e.path)
    ensures forall k :: |prefix| <= k < |e.path| && e.path[k] == '/' ==> Tidy(e.path[..k])
    decreases t, if t.Dir? then |t.children| - i else 0
  {
    var c := t.children[i];
    var path := prefix + c.name;
    assert c.name[0] in c.name && c.name[|c.name| - 1] in c.name;
    if e in Below(c, path + "/", 0) {
      BelowIsTidy(c, path + "/", 0, e);
      BelowStartsWithPrefix(c, path + "/", 0, e);
      assert e.path[..|path|] == path;
      assert forall k :: |prefix| <= k < |path| ==> e.path[k] == c.name[k - |prefix|];
    } else if e in Below(t, prefix, i + 1) {
      BelowIsTidy(t, prefix, i + 1, e);
    }
  }

  lemma {:induction false} OpenWalk(m: seq<Pattern>, t: Tree, prefix: string)
    requires ProperNames(t) && AllOpen(m) && OneLine(Below(t, prefix, 0))
    requires prefix == "" || prefix[0] != '/'
    ensures Walked(m, t, prefix, 0) == Filter(Below(t, prefix, 0), NotExcluded(m))
  {
    PrunedWalkIsFilter(m, t, prefix, 0);
    var below := Below(t, prefix, 0);
    forall e | e in below ensures ReachedFrom(m, prefix)(e) == NotExcluded(m)(e) {
      BelowIsTidy(t, prefix, 0, e);
      OpenReached(m, prefix, e);
    }
    FilterAgrees(below, ReachedFrom(m, prefix), NotExcluded(m));
  }

  /** Below an excluded root other than "/" everything is excluded on its own. */
  lemma {:induction false} BelowExcludedRoot(m: seq<Pattern>, t: Tree, path: string, e: Entry)
    requires ProperNames(t) && AllOpen(m) && Excluded(m, path, true)
    requires path != "" && '/' !in path && e in Below(t, path + "/", 0) && '\n' !in e.path
    ensures Excluded(m, e.path, e.isDir)
  {
    BelowIsTidy(t, path + "/", 0, e);
    BelowStartsWithPrefix(t, path + "/", 0, e);
    assert path[0] in path && path[|path| - 1] in path;
    var more := e.path[|path| + 1..];
    assert e.path == path + "/" + more;
    BelowExcluded(m, path, more, e.isDir);
  }

  /**
   * If every pattern's last token is two stars, pruning only saves time: for every root but "/" the archive
   * holds exactly the entries that do not match on their own, the root included.
   */
  lemma {:induction false} OpenPatternsPruneNothing(m: seq<Pattern>, t: Tree, path: string)
    requires ProperNames(t) && AllOpen(m) && path != "" && '/' !in path && OneLine(Whole(t, path, false))
    ensures WalkedRoot(m, t, path, false) == Filter(Whole(t, path, false), NotExcluded(m))
  {
    var below := Below(t, path + "/", 0);
    WholeFilter(m, t, path, false);
    assert path[0] in path;
    assert forall e :: e in below ==> e in Whole(t, path, false);
    OpenWalk(m, t, path + "/");
    if Excluded(m, path, t.Dir?) {
      forall e | e in below ensures Excluded(m, e.path, e.isDir) { BelowExcludedRoot(m, t, path, e); }
      FilterNone(below, NotExcluded(m));
    }
  }

  lemma {:induction false} WholeFilter(m: seq<Pattern>, t: Tree, path: string, atTop: bool)
    ensures Filter(Whole(t, path, atTop), NotExcluded(m))
         == (if Excluded(m, path, t.Dir?) then [] else [Entry(path, t.Dir?)])
            + Filter(Below(t, ChildPrefix(atTop, path), 0), NotExcluded(m))
  {
    assert Whole(t, path, atTop)[1..] == Below(t, ChildPrefix(atTop, path), 0);
  }

  /**
   * The root "/" is walked under a made-up path that its children do not carry. There the archive holds
   * the entries that do not match on their own exactly if the made-up path is not excluded, or all
   * that is below is excluded anyway.
   */
  lemma {:induction false} OpenPatternsAtTop(m: seq<Pattern>, t: Tree, path: string)
    requires ProperNames(t) && AllOpen(m) && OneLine(Below(t, "", 0))
    ensures WalkedRoot(m, t, path, true) == Filter(Whole(t, path, true), NotExcluded(m))
       <==> !Excluded(m, path, t.Dir?) || forall e :: e in Below(t, "", 0) ==> Excluded(m, e.path, e.isDir)
  {
    var below := Below(t, "", 0);
    WholeFilter(m, t, path, true);
    OpenWalk(m, t, "");
    if forall e :: e in below ==> Excluded(m, e.path, e.isDir) {
      FilterNone(below, NotExcluded(m));
    } else {
      var e :| e in below && !Excluded(m, e.path, e.isDir);
      FilterKeeps(below, NotExcluded(m), e);
    }
  }

  lemma {:induction false} FilterKeeps<T>(s: seq<T>, keep: T -> bool, e: T)
    requires e in s && keep(e)
    ensures e in Filter(s, keep)
  {
    if e != s[0] { FilterKeeps(s[1..], keep, e); }
  }

  lemma {:induction false} HitsDirectory(p: Pattern, dir: string, slashed: string)
    requires slashed == dir + "/" && Matches(p.re, slashed)
    ensures Hits(p, dir, true)
  {
  }

  lemma {:induction false} MissesFile(p: Pattern, path: string)
    requires !Matches(p.re, path)
    ensures !Hits(p, path, false)
  {
  }

  lemma OneIsOpen(p: Pattern)
    requires Globs.EndsOpen(p.raw) && p.re == Globs.Meaning(p.raw)
    ensures AllOpen([p])
  {
  }

  // A root called "root" is excluded by root/**, a file called "etc" is not.
  lemma RootIsExcluded(p: Pattern)
    requires p == Pattern("root/**", Globs.Meaning("root/**"))
    ensures Hits(p, "root", true) && !Hits(p, "etc", false) && AllOpen([p])
  {
    Globs.RootPattern();
    HitsDirectory(p, "root", "root/");
    MissesFile(p, "etc");
    OneIsOpen(p);
  }

  lemma OnePattern(p: Pattern, path: string, isDir: bool)
    requires Tidy(path)
    ensures Excluded([p], path, isDir) <==> Hits(p, path, isDir)
  {
    TidyIsTrimmed(path);
    assert [p][0] == p;
  }

  lemma OneFile(name: string)
    ensures Below(Dir("", [File(name)]), "", 0) == [Entry(name, false)]
  {
    assert "" + name == name;
  }

  // "/" is walked as "root": the pattern root/** then leaves the archive empty.
  lemma RootPatternEmptiesArchive(p: Pattern)
    requires p == Pattern("root/**", Globs.Meaning("root/**"))
    ensures AllOpen([p]) && !Excluded([p], "etc", false)
    ensures WalkedRoot([p], Dir("", [File("etc")]), "root", true) == []
    ensures Whole(Dir("", [File("etc")]), "root", true) == [Entry("root", true), Entry("etc", false)]
  {
    RootIsExcluded(p);
    OnePattern(p, "root", true);
    OnePattern(p, "etc", false);
    OneFile("etc");
  }

  lemma OpenReached(m: seq<Pattern>, prefix: string, e: Entry)
    requires AllOpen(m) && '\n' !in e.path && Tidy(e.path)
    requires forall k :: |prefix| <= k < |e.path| && e.path[k] == '/' ==> Tidy(e.path[..k])
    ensures Reached(m, prefix, e) <==> !Excluded(m, e.path, e.isDir)
  {
    forall k | |prefix| <= k < |e.path| && e.path[k] == '/' && Excluded(m, e.path[..k], true)
      ensures Excluded(m, e.path, e.isDir)
    {
      UnderExcluded(m, e, k);
    }
  }

  lemma UnderExcluded(m: seq<Pattern>, e: Entry, k: nat)
    requires AllOpen(m) && '\n' !in e.path && Tidy(e.path)
    requires k < |e.path| && e.path[k] == '/' && Tidy(e.path[..k]) && Excluded(m, e.path[..k], true)
    ensures Excluded(m, e.path, e.isDir)
  {
    var dir, more := e.path[..k], e.path[k + 1..];
    assert e.path == dir + "/" + more;
    BelowExcluded(m, dir, more, e.isDir);
  }
}
