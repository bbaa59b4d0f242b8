/** Deleting the copies of unused chunks: what is reported is what remains. */
module Removal {
  import opened Invariants
  import opened Model
  import opened Operations
  import opened Ordering
  import opened Queries

  // ---- What the calls keep -------------------------------------------------------------

  /** Copies of chunks in use, locations and the accounting are kept. */
  ghost predicate KeepsAll(env: Env, w: World, w': World) {
    Evolves(env, w, w') && (Accounted(env, w) ==> Accounted(env, w'))
  }

  lemma KeepsAllTrans(env: Env, a: World, b: World, c: World)
    requires KeepsAll(env, a, b) && KeepsAll(env, b, c)
    ensures KeepsAll(env, a, c)
  {
    EvolvesTrans(env, a, b, c);
  }

  lemma {:induction false} DropCopiesEvolves(env: Env, w: World, h: Hash, nodes: seq<NodeId>, i: nat, t: Tally)
    requires DeletesAnswered(env)
    requires i <= |nodes| && h !in InUse(w)
    ensures KeepsAll(env, w, DropCopiesFrom(env, w, h, nodes, i, t).0)
    decreases |nodes| - i
  {
    if i == |nodes| {
      EvolvesRefl(env, w);
    } else {
      var (w1, ok) := Discard(env, w, nodes[i], h);
      DiscardEvolves(env, w, nodes[i], h);
      if Accounted(env, w) { DiscardAccounted(env, w, nodes[i], h); }
      var t1 := Counted(t, Loc(h, nodes[i]), ok);
      DropCopiesEvolves(env, w1, h, nodes, i + 1, t1);
      KeepsAllTrans(env, w, w1, DropCopiesFrom(env, w, h, nodes, i, t).0);
    }
  }

  ghost predicate NoneInUse(w: World, hashes: seq<Hash>) {
    forall j :: 0 <= j < |hashes| ==> hashes[j] !in InUse(w)
  }

  lemma StillNoneInUse(w: World, w': World, hashes: seq<Hash>)
    requires NoneInUse(w, hashes) && w'.files == w.files
    ensures NoneInUse(w', hashes)
  {
    FrameKeepsUse(w, w');
  }

  lemma {:induction false} DropUnusedEvolves(env: Env, w: World, at: World, hashes: seq<Hash>, i: nat, t: Tally)
    requires DeletesAnswered(env)
    requires i <= |hashes| && NoneInUse(w, hashes)
    ensures KeepsAll(env, w, DropUnusedFrom(env, w, at, hashes, i, t).0)
    decreases |hashes| - i
  {
    if i == |hashes| {
      EvolvesRefl(env, w);
    } else {
      var nodes := ChunkLocations(at, hashes[i]);
      var (w1, t1) := DropCopiesFrom(env, w, hashes[i], nodes, 0, t);
      DropCopiesEvolves(env, w, hashes[i], nodes, 0, t);
      StillNoneInUse(w, w1, hashes);
      DropUnusedEvolves(env, w1, at, hashes, i + 1, t1);
      KeepsAllTrans(env, w, w1, DropUnusedFrom(env, w1, at, hashes, i + 1, t1).0);
    }
  }

  // ---- What is left --------------------------------------------------------------------

  /** Of h only the copies still to be tried and those reported as failed are recorded. */
  ghost predicate Remaining(w: World, h: Hash, nodes: seq<NodeId>, i: nat, t: Tally)
    requires i <= |nodes|
  {
    forall n :: (Loc(h, n) in w.locs <==> n in nodes[i..] || Loc(h, n) in t.failed)
             && !(n in nodes[i..] && Loc(h, n) in t.failed)
  }

  /** Deleting copies of h changes no other location and no other report. */
  ghost predicate OnlyAbout(w: World, t: Tally, w': World, t': Tally, h: Hash) {
    && (forall k: Loc :: k.hash != h ==> (k in w'.locs <==> k in w.locs) && (k in t'.failed <==> k in t.failed))
    && (forall k :: k in w'.locs ==> k in w.locs)
    && |w'.locs| + t'.deleted == |w.locs| + t.deleted
  }

  /** The tally after trying one copy. */
  function Counted(t: Tally, k: Loc, ok: bool): Tally {
    if ok then t.(deleted := t.deleted + 1) else t.(failed := t.failed + [k])
  }

  lemma DropStep(env: Env, w: World, h: Hash, nodes: seq<NodeId>, i: nat, t: Tally)
    requires i < |nodes| && NoDuplicates(nodes) && Remaining(w, h, nodes, i, t)
    ensures var (w1, ok) := Discard(env, w, nodes[i], h);
            var t1 := Counted(t, Loc(h, nodes[i]), ok);
            Remaining(w1, h, nodes, i + 1, t1) && OnlyAbout(w, t, w1, t1, h)
  {
    DiscardEffect(env, w, nodes[i], h);
    assert nodes[i..] == [nodes[i]] + nodes[i + 1..];
    assert nodes[i] !in nodes[i + 1..];
    assert Loc(h, nodes[i]) in w.locs;
    assert w.locs.Keys - {Loc(h, nodes[i])} == (w.locs - {Loc(h, nodes[i])}).Keys;
  }

  lemma OnlyAboutTrans(w: World, t: Tally, w1: World, t1: Tally, w2: World, t2: Tally, h: Hash)
    requires OnlyAbout(w, t, w1, t1, h) && OnlyAbout(w1, t1, w2, t2, h)
    ensures OnlyAbout(w, t, w2, t2, h)
  {
  }

  lemma {:induction false} DropCopiesReport(env: Env, w: World, h: Hash, nodes: seq<NodeId>, i: nat, t: Tally)
    requires i <= |nodes| && NoDuplicates(nodes) && Remaining(w, h, nodes, i, t)
    ensures var (w', t') := DropCopiesFrom(env, w, h, nodes, i, t);
            Remaining(w', h, nodes, |nodes|, t') && OnlyAbout(w, t, w', t', h)
    decreases |nodes| - i
  {
    if i < |nodes| {
      var (w1, ok) := Discard(env, w, nodes[i], h);
      var t1 := Counted(t, Loc(h, nodes[i]), ok);
      var r := DropCopiesFrom(env, w1, h, nodes, i + 1, t1);
      DropStep(env, w, h, nodes, i, t);
      DropCopiesReport(env, w1, h, nodes, i + 1, t1);
      OnlyAboutTrans(w, t, w1, t1, r.0, r.1, h);
    }
  }

  /** The first i hashes. */
  ghost function Done(hashes: seq<Hash>, i: nat): set<Hash>
    requires i <= |hashes|
  {
    set j | 0 <= j < i :: hashes[j]
  }

  /** For handled hashes the reported failures are what is still recorded; the rest is untouched. */
  ghost predicate Reported(at: World, w: World, handled: set<Hash>, t: Tally) {
    && (forall k: Loc :: if k.hash in handled then k in w.locs <==> k in t.failed
                         else (k in w.locs <==> k in at.locs) && k !in t.failed)
    && (forall k :: k in w.locs ==> k in at.locs)
    && |w.locs| + t.deleted == |at.locs|
  }

  lemma {:induction false} ReportStep(env: Env, at: World, w: World, handled: set<Hash>, h: Hash, t: Tally)
    requires ForeignKeys(at) && h !in handled && Reported(at, w, handled, t)
    ensures var (w1, t1) := DropCopiesFrom(env, w, h, ChunkLocations(at, h), 0, t);
            Reported(at, w1, handled + {h}, t1)
  {
    var nodes := ChunkLocations(at, h);
    var (w1, t1) := DropCopiesFrom(env, w, h, nodes, 0, t);
    assert nodes[0..] == nodes;
    forall n ensures (Loc(h, n) in w.locs <==> n in nodes[0..] || Loc(h, n) in t.failed)
                  && !(n in nodes[0..] && Loc(h, n) in t.failed)
    {
      assert Loc(h, n).hash !in handled;
    }
    DropCopiesReport(env, w, h, nodes, 0, t);
    ReportedNext(at, w, w1, handled, h, nodes, t, t1);
  }

  lemma ReportedNext(at: World, w: World, w1: World, handled: set<Hash>, h: Hash, nodes: seq<NodeId>, t: Tally,
                     t1: Tally)
    requires h !in handled && Reported(at, w, handled, t)
    requires Remaining(w1, h, nodes, |nodes|, t1) && OnlyAbout(w, t, w1, t1, h)
    ensures Reported(at, w1, handled + {h}, t1)
  {
    forall k: Loc
      ensures if k.hash in handled + {h} then k in w1.locs <==> k in t1.failed
              else (k in w1.locs <==> k in at.locs) && k !in t1.failed
    {
      if k.hash == h { assert k == Loc(h, k.node); }
    }
  }

  lemma OneMoreDone(hashes: seq<Hash>, i: nat)
    requires i < |hashes| && NoDuplicates(hashes)
    ensures hashes[i] !in Done(hashes, i) && Done(hashes, i + 1) == Done(hashes, i) + {hashes[i]}
  {
  }

  lemma {:induction false} DropUnusedReport(env: Env, at: World, w: World, hashes: seq<Hash>, i: nat, t: Tally)
    requires i <= |hashes| && NoDuplicates(hashes) && ForeignKeys(at) && Reported(at, w, Done(hashes, i), t)
    ensures var (w', t') := DropUnusedFrom(env, w, at, hashes, i, t);
            Reported(at, w', Done(hashes, |hashes|), t')
    decreases |hashes| - i
  {
    if i < |hashes| {
      var (w1, t1) := DropCopiesFrom(env, w, hashes[i], ChunkLocations(at, hashes[i]), 0, t);
      OneMoreDone(hashes, i);
      ReportStep(env, at, w, Done(hashes, i), hashes[i], t);
      DropUnusedReport(env, at, w1, hashes, i + 1, t1);
    }
  }

  /**
   * After the copies of unused chunks are deleted, a copy of such a chunk is still recorded exactly
   * if its deletion is reported as failed, every other location is untouched, and the number of
   * deleted copies is the number of locations that went.
   */
  lemma DeletionReport(env: Env, w: World, hashes: seq<Hash>)
    requires ForeignKeys(w) && NoDuplicates(hashes)
    ensures var (w', t) := DeleteUnusedChunks(env, w, hashes);
            && (forall k :: k in w'.locs <==> k in w.locs && (k.hash in hashes ==> k in t.failed))
            && (forall k :: k in t.failed ==> k.hash in hashes)
            && |w'.locs| + t.deleted == |w.locs|
  {
    assert Done(hashes, 0) == {};
    DropUnusedReport(env, w, w, hashes, 0, Tally(0, []));
    assert forall h :: h in hashes <==> h in Done(hashes, |hashes|);
  }
}
