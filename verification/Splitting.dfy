/**
 * Splitting a stream by any rule that says where its first piece ends: partition, boundaries and
 * agreement of two splittings after a common boundary.
 */
module Splitting {
  import opened Types

  type Rule = Bytes -> nat

  ghost predicate Progresses(cut: Rule) {
    forall s :: s != [] ==> 0 < cut(s) <= |s|
  }

  ghost function Split(cut: Rule, s: Bytes): seq<Bytes>
    requires Progresses(cut)
    decreases |s|
  {
    if s == [] then [] else [s[..cut(s)]] + Split(cut, s[cut(s)..])
  }

  lemma {:induction false} SplitCons(cut: Rule, s: Bytes)
    requires Progresses(cut) && s != []
    ensures Split(cut, s) != []
    ensures Split(cut, s)[0] == s[..cut(s)] && Split(cut, s)[1..] == Split(cut, s[cut(s)..])
  {
  }

  lemma {:induction false} Partition(cut: Rule, s: Bytes)
    requires Progresses(cut)
    ensures Flatten(Split(cut, s)) == s
    decreases |s|
  {
    if s != [] {
      SplitCons(cut, s);
      Partition(cut, s[cut(s)..]);
    }
  }

  /** Where piece i starts. */
  ghost function Offset(pieces: seq<Bytes>, i: nat): nat
    requires i <= |pieces|
  {
    if i == 0 then 0 else |pieces[0]| + Offset(pieces[1..], i - 1)
  }

  /** Every piece is what the rule takes off the stream that is left at its offset. */
  lemma {:induction false} PieceFollowsRule(cut: Rule, s: Bytes, i: nat)
    requires Progresses(cut) && i < |Split(cut, s)|
    ensures Offset(Split(cut, s), i) < |s|
    ensures var rest := s[Offset(Split(cut, s), i)..]; Split(cut, s)[i] == rest[..cut(rest)]
    decreases i
  {
    SplitCons(cut, s);
    if i == 0 {
      assert s[0..] == s;
    } else {
      PieceFollowsRule(cut, s[cut(s)..], i - 1);
      DropDrop(s, cut(s), Offset(Split(cut, s[cut(s)..]), i - 1));
    }
  }

  lemma LaterPieceFits(cut: Rule, s: Bytes, i: nat)
    requires Progresses(cut) && i + 1 < |Split(cut, s)|
    ensures Offset(Split(cut, s), i + 1) == Offset(Split(cut, s), i) + |Split(cut, s)[i]| < |s|
  {
    PieceFollowsRule(cut, s, i + 1);
    OffsetStep(Split(cut, s), i);
  }

  lemma {:induction false} OffsetStep(pieces: seq<Bytes>, i: nat)
    requires i < |pieces|
    ensures Offset(pieces, i + 1) == Offset(pieces, i) + |pieces[i]|
    decreases i
  {
    if i > 0 { OffsetStep(pieces[1..], i - 1); }
  }

  /** A piece of s ends at offset e, or e is the start. */
  ghost predicate Boundary(cut: Rule, s: Bytes, e: nat)
    requires Progresses(cut) && e <= |s|
    decreases |s|
  {
    e == 0 || (cut(s) <= e && Boundary(cut, s[cut(s)..], e - cut(s)))
  }

  /** The pieces that end at or before the boundary e. */
  ghost function UpTo(cut: Rule, s: Bytes, e: nat): seq<Bytes>
    requires Progresses(cut) && e <= |s| && Boundary(cut, s, e)
    decreases |s|
  {
    if e == 0 then [] else [s[..cut(s)]] + UpTo(cut, s[cut(s)..], e - cut(s))
  }

  lemma {:induction false} FlattenCons(d: Bytes, pieces: seq<Bytes>)
    ensures Flatten([d] + pieces) == d + Flatten(pieces)
  {
    assert ([d] + pieces)[0] == d && ([d] + pieces)[1..] == pieces;
  }

  lemma {:induction false} CoverMore(s: Bytes, k: nat, e: nat, rest: seq<Bytes>)
    requires k <= e <= |s| && Flatten(rest) == s[k..][..e - k]
    ensures Flatten([s[..k]] + rest) == s[..e]
  {
    FlattenCons(s[..k], rest);
    TakeTake(s, k, e - k);
  }

  lemma {:induction false} UpToCovers(cut: Rule, s: Bytes, e: nat)
    requires Progresses(cut) && e <= |s| && Boundary(cut, s, e)
    ensures Flatten(UpTo(cut, s, e)) == s[..e]
    decreases |s|
  {
    if e > 0 {
      var k := cut(s);
      UpToCovers(cut, s[k..], e - k);
      CoverMore(s, k, e, UpTo(cut, s[k..], e - k));
    }
  }

  lemma ConsAppend(d: Bytes, a: seq<Bytes>, b: seq<Bytes>)
    ensures ([d] + a) + b == [d] + (a + b)
  {
  }

  ghost predicate SplitsAt(cut: Rule, s: Bytes, e: nat)
    requires Progresses(cut) && e <= |s| && Boundary(cut, s, e)
  {
    Split(cut, s) == UpTo(cut, s, e) + Split(cut, s[e..])
  }

  lemma SplitsAtStart(cut: Rule, s: Bytes)
    requires Progresses(cut)
    ensures SplitsAt(cut, s, 0)
  {
    assert s[0..] == s;
  }

  lemma SplitStep(cut: Rule, s: Bytes, e: nat)
    requires Progresses(cut) && 0 < e <= |s| && Boundary(cut, s, e)
    requires SplitsAt(cut, s[cut(s)..], e - cut(s))
    ensures SplitsAt(cut, s, e)
  {
    DropDrop(s, cut(s), e - cut(s));
    ConsAppend(s[..cut(s)], UpTo(cut, s[cut(s)..], e - cut(s)), Split(cut, s[e..]));
  }

  /** At a boundary the list of pieces splits into the pieces of the two halves of the stream. */
  lemma {:induction false} SplitAtBoundary(cut: Rule, s: Bytes, e: nat)
    requires Progresses(cut) && e <= |s| && Boundary(cut, s, e)
    ensures SplitsAt(cut, s, e)
    decreases |s|
  {
    if e == 0 {
      SplitsAtStart(cut, s);
    } else {
      SplitAtBoundary(cut, s[cut(s)..], e - cut(s));
      SplitStep(cut, s, e);
    }
  }

  lemma SplitTail(cut: Rule, p: Bytes, s: Bytes, x: nat)
    requires Progresses(cut) && x <= |s| && Boundary(cut, p + s, |p| + x)
    ensures Split(cut, p + s) == UpTo(cut, p + s, |p| + x) + Split(cut, s[x..])
    ensures Flatten(UpTo(cut, p + s, |p| + x)) == p + s[..x]
  {
    TailSlices(p, s, x);
    SplitWhole(cut, p + s, |p| + x, p + s[..x], s[x..]);
  }

  lemma {:induction false} SplitWhole(cut: Rule, s: Bytes, e: nat, head: Bytes, tail: Bytes)
    requires Progresses(cut) && e <= |s| && Boundary(cut, s, e) && s[..e] == head && s[e..] == tail
    ensures Split(cut, s) == UpTo(cut, s, e) + Split(cut, tail) && Flatten(UpTo(cut, s, e)) == head
  {
    SplitAtBoundary(cut, s, e);
    UpToCovers(cut, s, e);
  }

  lemma TailSlices(p: Bytes, s: Bytes, x: nat)
    requires x <= |s|
    ensures (p + s)[|p| + x..] == s[x..] && (p + s)[..|p| + x] == p + s[..x]
  {
  }

  /** Once two streams with a common tail are cut at the same offset of it, all later pieces agree. */
  lemma SameTailAfterCommonCut(cut: Rule, p1: Bytes, p2: Bytes, s: Bytes, x: nat)
    requires Progresses(cut) && x <= |s|
    requires Boundary(cut, p1 + s, |p1| + x) && Boundary(cut, p2 + s, |p2| + x)
    ensures Split(cut, p1 + s) == UpTo(cut, p1 + s, |p1| + x) + Split(cut, s[x..])
    ensures Split(cut, p2 + s) == UpTo(cut, p2 + s, |p2| + x) + Split(cut, s[x..])
    ensures Flatten(UpTo(cut, p1 + s, |p1| + x)) == p1 + s[..x] && Flatten(UpTo(cut, p2 + s, |p2| + x)) == p2 + s[..x]
  {
    SplitTail(cut, p1, s, x);
    SplitTail(cut, p2, s, x);
  }

  /** The start of the piece that is open just before offset e. */
  ghost function OpenStart(cut: Rule, s: Bytes, e: nat): (q: nat)
    requires Progresses(cut) && 0 < e <= |s|
    ensures q < e
    decreases |s|
  {
    if e <= cut(s) then 0 else cut(s) + OpenStart(cut, s[cut(s)..], e - cut(s))
  }

  /** The open piece reaches e, and e is a boundary exactly when it ends there. */
  lemma {:induction false} OpenPieceReaches(cut: Rule, s: Bytes, e: nat)
    requires Progresses(cut) && 0 < e <= |s|
    ensures var q := OpenStart(cut, s, e);
            e - q <= cut(s[q..]) && (Boundary(cut, s, e) <==> cut(s[q..]) == e - q)
    decreases |s|
  {
    if e <= cut(s) {
      assert s[0..] == s;
      assert Boundary(cut, s[cut(s)..], 0);
    } else {
      OpenPieceReaches(cut, s[cut(s)..], e - cut(s));
      DropDrop(s, cut(s), OpenStart(cut, s[cut(s)..], e - cut(s)));
    }
  }
}
