/** The upload loop: what it keeps, what it stores, how it counts, how it spreads the load. */
module Uploads {
  import opened Invariants
  import opened Model
  import opened Operations
  import opened Ordering
  import opened Queries
  import opened Scheduler
  import opened Sums
  import opened Types

  // ---- What the node calls of an upload keep -------------------------------------------

  /** An upload only adds copies: it evolves the cluster and loses no location. */
  ghost predicate Grows(env: Env, w: World, w': World) {
    && Evolves(env, w, w') && (forall k :: k in w.locs ==> k in w'.locs)
    && (Accounted(env, w) ==> Accounted(env, w'))
  }

  lemma GrowsRefl(env: Env, w: World)
    ensures Grows(env, w, w)
  {
    EvolvesRefl(env, w);
  }

  lemma GrowsTrans(env: Env, a: World, b: World, c: World)
    requires Grows(env, a, b) && Grows(env, b, c)
    ensures Grows(env, a, c)
  {
    EvolvesTrans(env, a, b, c);
  }

  /** Growth by copies of one chunk. */
  ghost predicate GrowsBy(env: Env, w: World, w': World, h: Hash) {
    Grows(env, w, w') && forall k :: k in w'.locs && k !in w.locs ==> k.hash == h
  }

  lemma GrowsByTrans(env: Env, a: World, b: World, c: World, h: Hash)
    requires GrowsBy(env, a, b, h) && GrowsBy(env, b, c, h)
    ensures GrowsBy(env, a, c, h)
  {
    GrowsTrans(env, a, b, c);
  }

  ghost predicate MayPlace(w: World, nodes: seq<NodeId>, i: nat, h: Hash) {
    NoDuplicates(nodes) && forall j :: i <= j < |nodes| ==> MayCopy(w, nodes[j], h)
  }

  lemma PlaceStep(env: Env, w: World, nodes: seq<NodeId>, i: nat, h: Hash, data: Bytes)
    requires i < |nodes| && MayPlace(w, nodes, i, h)
    ensures var (w1, ok) := CopyTo(env, w, nodes[i], h, data, |data|);
            && GrowsBy(env, w, w1, h) && MayPlace(w1, nodes, i + 1, h)
            && (ok ==> Loc(h, nodes[i]) in w1.locs)
  {
    var n := nodes[i];
    var (w1, ok) := CopyTo(env, w, n, h, data, |data|);
    CopyEvolves(env, w, n, h, data, |data|);
    CopyEffect(env, w, n, h, data, |data|);
    if Accounted(env, w) { CopyAccounted(env, w, n, h, data); }
    assert forall m :: m in OnlineNodes(w) <==> Online(w, m);
    assert forall m :: m in OnlineNodes(w1) <==> Online(w1, m);
  }

  ghost predicate AllPlaced(w: World, nodes: seq<NodeId>, i: nat, h: Hash) {
    forall j :: i <= j < |nodes| ==> Loc(h, nodes[j]) in w.locs
  }

  ghost predicate PlacedWell(env: Env, w: World, r: (World, map<NodeId, nat>, bool), nodes: seq<NodeId>, i: nat,
                             h: Hash)
  {
    GrowsBy(env, w, r.0, h) && (r.2 ==> AllPlaced(r.0, nodes, i, h))
  }

  lemma {:induction false} PlaceGrows(env: Env, w: World, counts: map<NodeId, nat>, nodes: seq<NodeId>, i: nat,
                                          h: Hash, data: Bytes)
    requires i <= |nodes| && MayPlace(w, nodes, i, h)
    ensures PlacedWell(env, w, PlaceFrom(env, w, counts, nodes, i, h, data), nodes, i, h)
    decreases |nodes| - i
  {
    if i == |nodes| {
      GrowsRefl(env, w);
    } else {
      var (w1, ok) := CopyTo(env, w, nodes[i], h, data, |data|);
      PlaceStep(env, w, nodes, i, h, data);
      if ok {
        var counts1 := counts[nodes[i] := Count(counts, nodes[i]) + 1];
        PlaceGrows(env, w1, counts1, nodes, i + 1, h, data);
        PlacedToo(env, w, w1, PlaceFrom(env, w1, counts1, nodes, i + 1, h, data), nodes, i, h);
      }
    }
  }

  lemma PlacedToo(env: Env, w: World, w1: World, r: (World, map<NodeId, nat>, bool), nodes: seq<NodeId>, i: nat,
                  h: Hash)
    requires i < |nodes| && GrowsBy(env, w, w1, h) && Loc(h, nodes[i]) in w1.locs
    requires PlacedWell(env, w1, r, nodes, i + 1, h)
    ensures PlacedWell(env, w, r, nodes, i, h)
  {
    GrowsByTrans(env, w, w1, r.0, h);
  }

  lemma {:induction false} ExistingAreActive(w: World, h: Hash)
    ensures |OnlineOnly(w, ChunkLocations(w, h))| == |Active(w, h)|
  {
    OnlineLocationsAreActive(w, h);
    SizeOfElements(OnlineOnly(w, ChunkLocations(w, h)));
  }

  /** Bringing a chunk up to its copies adds copies of that chunk only, and at least one if it can. */
  lemma PlacementGrows(env: Env, u: Upload, h: Hash, data: Bytes, replication: int)
    ensures var (u', ok) := PlaceChunk(env, u, h, data, replication);
            && GrowsBy(env, u.w, u'.w, h)
            && (ok && replication >= 1 ==> Located(u'.w, h))
            && (replication <= 0 ==> u' == u && ok)
  {
    ExistingAreActive(u.w, h);
    GrowsRefl(env, u.w);
    var missing := MissingCopies(u.w, h, replication);
    if missing > 0 {
      var nodes := PlanChunkSpread(u.w, h, |data|, missing, u.counts);
      PlanIsEligible(u.w, h, |data|, missing, u.counts);
      PlaceGrows(env, u.w, u.counts, nodes, 0, h, data);
    } else if replication >= 1 {
      var n :| n in Active(u.w, h);
      assert Loc(h, n) in u.w.locs;
    }
  }

  lemma ChunkGrows(env: Env, u: Upload, data: Bytes, replication: int)
    ensures var (u', ok) := BackupChunk(env, u, data, replication);
            && GrowsBy(env, u.w, u'.w, env.digest(data))
            && (ok && replication >= 1 ==> Located(u'.w, env.digest(data)))
            && (replication <= 0 ==> u'.w == u.w && ok)
  {
    PlacementGrows(env, Tallied(u, env.digest(data), |data|), env.digest(data), data, replication);
  }

  /** What one successful iteration does to the loop's other variables. */
  ghost predicate ChunkListed(u: Upload, u': Upload, h: Hash, size: nat) {
    var known := h in u.seen || h in InUse(u.w);
    && u'.seen == u.seen + {h}
    && u'.newBytes == u.newBytes + (if known then 0 else size)
    && u'.reusedBytes == u.reusedBytes + (if known then size else 0)
    && u'.refs == u.refs + [ChunkRef(h, size)] && u'.size == u.size + size
  }

  lemma ChunkIsListed(env: Env, u: Upload, data: Bytes, replication: int)
    ensures var (u', ok) := BackupChunk(env, u, data, replication);
            ok ==> ChunkListed(u, u', env.digest(data), |data|)
  {
  }

  // ---- What the loop has done after i chunks -------------------------------------------

  function RefOf(env: Env, data: Bytes): ChunkRef {
    ChunkRef(env.digest(data), |data|)
  }

  ghost function DigestsOf(env: Env, pieces: seq<Bytes>, i: nat): set<Hash>
    requires i <= |pieces|
  {
    set j | 0 <= j < i :: env.digest(pieces[j])
  }

  /** The manifest lists the chunks read so far, in order, and the byte counters add up. */
  ghost predicate Tracks(env: Env, w0: World, u: Upload, pieces: seq<Bytes>, i: nat)
    requires i <= |pieces|
  {
    && u.w.files == w0.files && |u.refs| == i
    && (forall j :: 0 <= j < i ==> u.refs[j] == RefOf(env, pieces[j]))
    && u.size == |Flatten(pieces[..i])| && u.newBytes + u.reusedBytes == u.size
    && u.seen == DigestsOf(env, pieces, i)
  }

  lemma TracksStep(env: Env, w0: World, u: Upload, u': Upload, pieces: seq<Bytes>, i: nat)
    requires i < |pieces| && Tracks(env, w0, u, pieces, i)
    requires u'.w.files == u.w.files && ChunkListed(u, u', env.digest(pieces[i]), |pieces[i]|)
    ensures Tracks(env, w0, u', pieces, i + 1)
  {
    assert pieces[..i + 1] == pieces[..i] + [pieces[i]];
    FlattenAppend(pieces[..i], [pieces[i]]);
    FlattenOne(pieces[i]);
    assert DigestsOf(env, pieces, i + 1) == DigestsOf(env, pieces, i) + {env.digest(pieces[i])};
  }

  lemma FlattenOne(d: Bytes)
    ensures Flatten([d]) == d
  {
    assert Flatten([d]) == d + Flatten([]);
  }

  lemma {:induction false} LoopTracks(env: Env, w0: World, u: Upload, pieces: seq<Bytes>, i: nat, replication: int)
    requires i <= |pieces| && Tracks(env, w0, u, pieces, i)
    requires replication >= 1 ==> forall j :: 0 <= j < i ==> Located(u.w, env.digest(pieces[j]))
    ensures var (u', ok) := BackupFrom(env, u, pieces, i, replication);
            && Grows(env, u.w, u'.w)
            && (ok ==> Tracks(env, w0, u', pieces, |pieces|))
            && (ok && replication >= 1 ==> forall j :: 0 <= j < |pieces| ==> Located(u'.w, env.digest(pieces[j])))
            && (replication <= 0 ==> u'.w == u.w)
    decreases |pieces| - i
  {
    if i == |pieces| {
      GrowsRefl(env, u.w);
    } else {
      var (u1, ok) := BackupChunk(env, u, pieces[i], replication);
      ChunkGrows(env, u, pieces[i], replication);
      ChunkIsListed(env, u, pieces[i], replication);
      if ok {
        TracksStep(env, w0, u, u1, pieces, i);
        forall j | 0 <= j < i && replication >= 1 ensures Located(u1.w, env.digest(pieces[j])) {
          var n :| Loc(env.digest(pieces[j]), n) in u.w.locs;
          assert Loc(env.digest(pieces[j]), n) in u1.w.locs;
        }
        LoopTracks(env, w0, u1, pieces, i + 1, replication);
        GrowsTrans(env, u.w, u1.w, BackupFrom(env, u, pieces, i, replication).0.w);
      }
    }
  }

  // ---- Deduplication accounting --------------------------------------------------------

  /** The chunks among the first i that no file used before, each with the size of its first occurrence. */
  ghost function Fresh(env: Env, w0: World, pieces: seq<Bytes>, i: nat): map<Hash, nat>
    requires i <= |pieces|
    decreases i
  {
    if i == 0 then map[] else
      var m, h := Fresh(env, w0, pieces, i - 1), env.digest(pieces[i - 1]);
      if h in m || h in InUse(w0) then m else m[h := |pieces[i - 1]|]
  }

  /** Which chunks those are. */
  lemma {:induction false} FreshHashes(env: Env, w0: World, pieces: seq<Bytes>, i: nat)
    requires i <= |pieces|
    ensures Fresh(env, w0, pieces, i).Keys == DigestsOf(env, pieces, i) - InUse(w0)
  {
    if i > 0 {
      FreshHashes(env, w0, pieces, i - 1);
      assert DigestsOf(env, pieces, i) == DigestsOf(env, pieces, i - 1) + {env.digest(pieces[i - 1])};
    }
  }

  /** A chunk that is not in use keeps the size of its first occurrence. */
  lemma {:induction false} FreshSize(env: Env, w0: World, pieces: seq<Bytes>, i: nat, j: nat)
    requires j < i <= |pieces| && env.digest(pieces[j]) !in InUse(w0)
    requires env.digest(pieces[j]) !in DigestsOf(env, pieces, j)
    ensures env.digest(pieces[j]) in Fresh(env, w0, pieces, i)
    ensures Fresh(env, w0, pieces, i)[env.digest(pieces[j])] == |pieces[j]|
  {
    if j < i - 1 { FreshSize(env, w0, pieces, i - 1, j); } else { FreshHashes(env, w0, pieces, j); }
  }

  lemma NewBytesStep(env: Env, w0: World, u: Upload, u': Upload, pieces: seq<Bytes>, i: nat)
    requires i < |pieces| && Tracks(env, w0, u, pieces, i)
    requires u.newBytes == Total(Fresh(env, w0, pieces, i))
    requires ChunkListed(u, u', env.digest(pieces[i]), |pieces[i]|)
    ensures u'.newBytes == Total(Fresh(env, w0, pieces, i + 1))
  {
    var h, m := env.digest(pieces[i]), Fresh(env, w0, pieces, i);
    FreshHashes(env, w0, pieces, i);
    FrameKeepsUse(w0, u.w);
    if h !in m { PutFresh(m, h, |pieces[i]|); }
  }

  /** New bytes are the total size of the distinct chunks that no file used before the upload. */
  lemma {:induction false} NewBytesAreFresh(env: Env, w0: World, u: Upload, pieces: seq<Bytes>, i: nat,
                                            replication: int)
    requires i <= |pieces| && Tracks(env, w0, u, pieces, i)
    requires u.newBytes == Total(Fresh(env, w0, pieces, i))
    ensures var (u', ok) := BackupFrom(env, u, pieces, i, replication);
            ok ==> u'.newBytes == Total(Fresh(env, w0, pieces, |pieces|))
    decreases |pieces| - i
  {
    if i < |pieces| && BackupChunk(env, u, pieces[i], replication).1 {
      var u1 := BackupChunk(env, u, pieces[i], replication).0;
      ChunkGrows(env, u, pieces[i], replication);
      ChunkIsListed(env, u, pieces[i], replication);
      NewBytesStep(env, w0, u, u1, pieces, i);
      TracksStep(env, w0, u, u1, pieces, i);
      NewBytesAreFresh(env, w0, u1, pieces, i + 1, replication);
    }
  }

  lemma StartTracks(env: Env, w: World, pieces: seq<Bytes>)
    ensures Tracks(env, w, StartUpload(w), pieces, 0)
  {
    assert pieces[..0] == [];
    assert DigestsOf(env, pieces, 0) == {};
  }

  /**
   * Deduplication accounting of a completed upload loop: the size is the number of bytes chunked,
   * new and reused bytes add up to it, and the new bytes are those of the distinct chunks that no
   * file used before.
   */
  lemma {:induction false} DedupAccounting(env: Env, w: World, pieces: seq<Bytes>, replication: int)
    ensures var (u, ok) := BackupFrom(env, StartUpload(w), pieces, 0, replication);
            ok ==>
              && u.size == |Flatten(pieces)| && u.newBytes + u.reusedBytes == u.size
              && u.newBytes == Total(Fresh(env, w, pieces, |pieces|))
  {
    var u := StartUpload(w);
    StartTracks(env, w, pieces);
    LoopTracks(env, w, u, pieces, 0, replication);
    NewBytesAreFresh(env, w, u, pieces, 0, replication);
    assert pieces[..|pieces|] == pieces;
  }
}
