/** When an upload succeeds, for every pattern of answers, and how many copies it leaves of each chunk. */
module UploadOutcome {
  import opened Chunker
  import opened Downloads
  import opened Invariants
  import opened Model
  import opened Operations
  import opened Ordering
  import opened Placement
  import opened Queries
  import R = Runs
  import opened Scheduler
  import opened Types
  import opened Uploads

  // ---- One copy, one placement ---------------------------------------------------------

  /** The node obeys the call with this number, its disk has room for the data, and the digest is right. */
  ghost predicate Takes(env: Env, w: World, call: nat, n: NodeId, h: Hash, data: Bytes) {
    && env.replies(call, n) == Obey && env.digest(data) == h
    && (|data| == 0 || StoreOf(w, n).used + |data| <= env.capacity(n))
  }

  lemma CopySucceedsIff(env: Env, w: World, n: NodeId, h: Hash, data: Bytes, size: nat)
    requires MayCopy(w, n, h)
    ensures CopyTo(env, w, n, h, data, size).1 <==> Takes(env, w, w.calls, n, h, data)
  {
  }

  /** The nodes from the ith on take the chunk, in calls numbered from first for the whole list. */
  ghost predicate AllTake(env: Env, w: World, first: nat, nodes: seq<NodeId>, i: nat, h: Hash, data: Bytes) {
    forall j :: i <= j < |nodes| ==> Takes(env, w, first + j, nodes[j], h, data)
  }

  /** A copy on one node does not change what the nodes after it will do. */
  lemma StillTake(env: Env, w: World, first: nat, nodes: seq<NodeId>, i: nat, h: Hash, data: Bytes)
    requires i < |nodes| && MayPlace(w, nodes, i, h)
    ensures var w1 := CopyTo(env, w, nodes[i], h, data, |data|).0;
            AllTake(env, w1, first, nodes, i + 1, h, data) <==> AllTake(env, w, first, nodes, i + 1, h, data)
  {
    var w1 := CopyTo(env, w, nodes[i], h, data, |data|).0;
    forall j | i + 1 <= j < |nodes| ensures StoreOf(w1, nodes[j]) == StoreOf(w, nodes[j]) {
      CopyElsewhere(env, w, nodes[i], h, data, nodes[j]);
    }
  }

  /** A placement succeeds exactly if every one of its nodes takes the chunk. */
  lemma {:induction false} PlaceSucceedsIff(env: Env, w: World, first: nat, counts: map<NodeId, nat>,
                                            nodes: seq<NodeId>, i: nat, h: Hash, data: Bytes)
    requires i <= |nodes| && MayPlace(w, nodes, i, h) && w.calls == first + i
    ensures PlaceFrom(env, w, counts, nodes, i, h, data).2 <==> AllTake(env, w, first, nodes, i, h, data)
    decreases |nodes| - i
  {
    if i < |nodes| {
      var (w1, ok) := CopyTo(env, w, nodes[i], h, data, |data|);
      CopySucceedsIff(env, w, nodes[i], h, data, |data|);
      if ok {
        PlaceStep(env, w, nodes, i, h, data);
        CopyEffect(env, w, nodes[i], h, data, |data|);
        StillTake(env, w, first, nodes, i, h, data);
        PlaceSucceedsIff(env, w1, first, counts[nodes[i] := Count(counts, nodes[i]) + 1], nodes, i + 1, h, data);
      }
    }
  }

  /** A completed placement adds exactly its nodes to the active copies. */
  lemma {:induction false} PlaceActive(env: Env, w: World, counts: map<NodeId, nat>, nodes: seq<NodeId>, i: nat,
                                       h: Hash, data: Bytes)
    requires i <= |nodes| && MayPlace(w, nodes, i, h)
    ensures var r := PlaceFrom(env, w, counts, nodes, i, h, data);
            r.2 ==> Active(r.0, h) == Active(w, h) + Elements(nodes[i..])
    decreases |nodes| - i
  {
    if i < |nodes| {
      var (w1, ok) := CopyTo(env, w, nodes[i], h, data, |data|);
      if ok {
        CopyActive(env, w, nodes[i], h, data, |data|, h);
        PlaceStep(env, w, nodes, i, h, data);
        ElementsStep(nodes, i);
        PlaceActive(env, w1, counts[nodes[i] := Count(counts, nodes[i]) + 1], nodes, i + 1, h, data);
      }
    }
  }

  lemma PlacedCount(w: World, nodes: seq<NodeId>, h: Hash)
    requires MayPlace(w, nodes, 0, h)
    ensures |Active(w, h) + Elements(nodes)| == |Active(w, h)| + |nodes|
  {
    SizeOfElements(nodes);
    assert Active(w, h) !! Elements(nodes);
  }

  // ---- One round -----------------------------------------------------------------------

  function Larger(a: int, b: int): int { if a >= b then a else b }

  /** The nodes that the round for a chunk with missing copies chooses. */
  ghost function Plan(w: World, counts: map<NodeId, nat>, h: Hash, data: Bytes, replication: int): seq<NodeId> {
    PlanChunkSpread(w, h, |data|, replication - |Active(w, h)|, counts)
  }

  /** No copy is missing, or as many nodes may get one as copies are missing and those chosen all take it. */
  ghost predicate RoundSucceeds(env: Env, w: World, counts: map<NodeId, nat>, data: Bytes, replication: int) {
    var h := env.digest(data);
    |Active(w, h)| < replication ==>
      && |Receivers(w, h, |data|)| >= replication - |Active(w, h)|
      && AllTake(env, w, w.calls, Plan(w, counts, h, data, replication), 0, h, data)
  }

  /** The copies of the chunk are brought up to the asked-for number, and nothing is known to others. */
  ghost predicate Brought(w: World, w': World, h: Hash, replication: int) {
    && |Active(w', h)| == Larger(|Active(w, h)|, replication)
    && OnlineNodes(w') == OnlineNodes(w)
    && forall g :: g != h ==> Active(w', g) == Active(w, g)
  }

  lemma GrownElsewhere(env: Env, w: World, w': World, h: Hash)
    requires GrowsBy(env, w, w', h)
    ensures OnlineNodes(w') == OnlineNodes(w) && forall g :: g != h ==> Active(w', g) == Active(w, g)
  {
    forall g | g != h ensures Active(w', g) == Active(w, g) { ActiveAfter(w, w', g); }
  }

  /** The same for one plan. */
  lemma {:induction false} PlanSucceedsIff(env: Env, u: Upload, nodes: seq<NodeId>, h: Hash, data: Bytes)
    requires MayPlace(u.w, nodes, 0, h)
    ensures var r := PlaceFrom(env, u.w, u.counts, nodes, 0, h, data);
            && (r.2 <==> AllTake(env, u.w, u.w.calls, nodes, 0, h, data))
            && (r.2 ==> |Active(r.0, h)| == |Active(u.w, h)| + |nodes|)
  {
    PlaceSucceedsIff(env, u.w, u.w.calls, u.counts, nodes, 0, h, data);
    PlaceActive(env, u.w, u.counts, nodes, 0, h, data);
    PlacedCount(u.w, nodes, h);
    assert nodes[0..] == nodes;
  }

  lemma PlanFacts(w: World, counts: map<NodeId, nat>, h: Hash, size: nat, missing: int)
    requires 0 < missing
    ensures var nodes := PlanChunkSpread(w, h, size, missing, counts);
            MayPlace(w, nodes, 0, h) && |nodes| == Least(missing, |Receivers(w, h, size)|)
  {
    PlanIsEligible(w, h, size, missing, counts);
    PlanIsLeast(w, h, size, missing, counts);
  }

  /** The round's condition, for the nodes that are chosen. */
  ghost predicate ChosenTake(env: Env, w: World, counts: map<NodeId, nat>, h: Hash, data: Bytes, missing: int) {
    var nodes := PlanChunkSpread(w, h, |data|, missing, counts);
    missing <= 0 || (|nodes| == missing && AllTake(env, w, w.calls, nodes, 0, h, data))
  }

  lemma {:induction false} ChosenTakeIff(env: Env, w: World, counts: map<NodeId, nat>, data: Bytes, replication: int)
    ensures RoundSucceeds(env, w, counts, data, replication)
       <==> ChosenTake(env, w, counts, env.digest(data), data, replication - |Active(w, env.digest(data))|)
  {
    var h := env.digest(data);
    var missing := replication - |Active(w, h)|;
    if missing > 0 { PlanFacts(w, counts, h, |data|, missing); }
  }

  /** Placing a chunk of which so many copies are missing. */
  ghost function PlacedMissing(env: Env, u: Upload, h: Hash, data: Bytes, missing: int): (Upload, bool) {
    var nodes := PlanChunkSpread(u.w, h, |data|, missing, u.counts);
    if missing <= 0 then (u, true)
    else if |nodes| < missing then (u, false)
    else var r := PlaceFrom(env, u.w, u.counts, nodes, 0, h, data); (u.(w := r.0, counts := r.1), r.2)
  }

  lemma {:induction false} PlacedMissingIs(env: Env, u: Upload, h: Hash, data: Bytes, replication: int, missing: int)
    requires MissingCopies(u.w, h, replication) == missing
    ensures PlaceChunk(env, u, h, data, replication) == PlacedMissing(env, u, h, data, missing)
  {
  }

  lemma MissingIs(w: World, h: Hash, replication: int)
    ensures MissingCopies(w, h, replication) == replication - |Active(w, h)|
  {
    ExistingAreActive(w, h);
  }

  lemma {:induction false} PlacedMissingIff(env: Env, u: Upload, h: Hash, data: Bytes, missing: int)
    ensures var (u', ok) := PlacedMissing(env, u, h, data, missing);
            && (ok <==> ChosenTake(env, u.w, u.counts, h, data, missing))
            && (ok ==> |Active(u'.w, h)| == |Active(u.w, h)| + Larger(missing, 0))
  {
    if missing > 0 {
      PlanFacts(u.w, u.counts, h, |data|, missing);
      PlanSucceedsIff(env, u, PlanChunkSpread(u.w, h, |data|, missing, u.counts), h, data);
    }
  }

  lemma {:induction false} PlacementSucceedsIff(env: Env, u: Upload, h: Hash, data: Bytes, replication: int,
                                                missing: int)
    requires MissingCopies(u.w, h, replication) == missing
    ensures var (u', ok) := PlaceChunk(env, u, h, data, replication);
            && (ok <==> ChosenTake(env, u.w, u.counts, h, data, missing))
            && (ok ==> |Active(u'.w, h)| == |Active(u.w, h)| + Larger(missing, 0))
  {
    PlacedMissingIs(env, u, h, data, replication, missing);
    PlacedMissingIff(env, u, h, data, missing);
  }

  lemma {:induction false} ChunkMissing(env: Env, u: Upload, data: Bytes, replication: int, missing: int)
    requires MissingCopies(u.w, env.digest(data), replication) == missing
    ensures var (u', ok), h := BackupChunk(env, u, data, replication), env.digest(data);
            && (ok <==> ChosenTake(env, u.w, u.counts, h, data, missing))
            && (ok ==> |Active(u'.w, h)| == |Active(u.w, h)| + Larger(missing, 0))
  {
    var h := env.digest(data);
    PlacementSucceedsIff(env, Tallied(u, h, |data|), h, data, replication, missing);
  }

  /** What the missing copies say in terms of the active ones. */
  lemma {:induction false} RoundOutcome(env: Env, u: Upload, r: (Upload, bool), data: Bytes, replication: int,
                                        missing: int)
    requires var h := env.digest(data);
             && missing == replication - |Active(u.w, h)| && GrowsBy(env, u.w, r.0.w, h)
             && (r.1 <==> ChosenTake(env, u.w, u.counts, h, data, missing))
             && (r.1 ==> |Active(r.0.w, h)| == |Active(u.w, h)| + Larger(missing, 0))
    ensures r.1 <==> RoundSucceeds(env, u.w, u.counts, data, replication)
    ensures r.1 ==> Brought(u.w, r.0.w, env.digest(data), replication)
  {
    ChosenTakeIff(env, u.w, u.counts, data, replication);
    GrownElsewhere(env, u.w, r.0.w, env.digest(data));
  }

  /**
   * One round of the upload loop, whatever the nodes answer: exactly when it goes through, and that
   * the chunk, stored before or not, then has max(before, replication) active copies, no other chunk
   * one more or less.
   */
  lemma {:induction false} ChunkSucceedsIff(env: Env, u: Upload, data: Bytes, replication: int)
    ensures var (u', ok) := BackupChunk(env, u, data, replication);
            && (ok <==> RoundSucceeds(env, u.w, u.counts, data, replication))
            && (ok ==> Brought(u.w, u'.w, env.digest(data), replication))
  {
    var missing := MissingCopies(u.w, env.digest(data), replication);
    MissingIs(u.w, env.digest(data), replication);
    ChunkMissing(env, u, data, replication, missing);
    ChunkGrows(env, u, data, replication);
    RoundOutcome(env, u, BackupChunk(env, u, data, replication), data, replication, missing);
  }

  // ---- The loop ------------------------------------------------------------------------

  ghost predicate RoundsSucceed(env: Env, u: Upload, pieces: seq<Bytes>, i: nat, replication: int)
    requires i <= |pieces|
    decreases |pieces| - i
  {
    i < |pieces| ==>
      && RoundSucceeds(env, u.w, u.counts, pieces[i], replication)
      && RoundsSucceed(env, BackupChunk(env, u, pieces[i], replication).0, pieces, i + 1, replication)
  }

  /** From w0 on the chunks read so far were brought up to the asked-for copies, the others left alone. */
  ghost predicate AllBrought(env: Env, w0: World, w: World, pieces: seq<Bytes>, i: nat, replication: int)
    requires i <= |pieces|
  {
    && OnlineNodes(w) == OnlineNodes(w0)
    && forall h :: |Active(w, h)| ==
                   if h in DigestsOf(env, pieces, i) then Larger(|Active(w0, h)|, replication) else |Active(w0, h)|
  }

  lemma AllBroughtNext(env: Env, w0: World, w: World, w': World, pieces: seq<Bytes>, i: nat, replication: int)
    requires i < |pieces| && AllBrought(env, w0, w, pieces, i, replication)
    requires Brought(w, w', env.digest(pieces[i]), replication)
    ensures AllBrought(env, w0, w', pieces, i + 1, replication)
  {
    assert DigestsOf(env, pieces, i + 1) == DigestsOf(env, pieces, i) + {env.digest(pieces[i])};
  }

  lemma {:induction false} LoopSucceedsIff(env: Env, w0: World, u: Upload, pieces: seq<Bytes>, i: nat, replication: int)
    requires i <= |pieces| && AllBrought(env, w0, u.w, pieces, i, replication)
    ensures var (u', ok) := BackupFrom(env, u, pieces, i, replication);
            && (ok <==> RoundsSucceed(env, u, pieces, i, replication))
            && (ok ==> AllBrought(env, w0, u'.w, pieces, |pieces|, replication))
    decreases |pieces| - i
  {
    if i < |pieces| {
      var (u1, ok) := BackupChunk(env, u, pieces[i], replication);
      ChunkSucceedsIff(env, u, pieces[i], replication);
      if ok {
        AllBroughtNext(env, w0, u.w, u1.w, pieces, i, replication);
        LoopSucceedsIff(env, w0, u1, pieces, i + 1, replication);
      }
    }
  }

  lemma {:induction false} LoopOutcome(env: Env, w: World, pieces: seq<Bytes>, replication: int)
    ensures var (u, ok) := BackupFrom(env, StartUpload(w), pieces, 0, replication);
            && (ok <==> RoundsSucceed(env, StartUpload(w), pieces, 0, replication))
            && (ok ==> AllBrought(env, w, u.w, pieces, |pieces|, replication))
  {
    assert DigestsOf(env, pieces, 0) == {};
    LoopSucceedsIff(env, w, StartUpload(w), pieces, 0, replication);
  }

  // ---- The whole upload ----------------------------------------------------------------

  lemma {:induction false} FinishOutcome(env: Env, w: World, id: FileId, req: FileRequest)
    ensures var (w', r) := FinishUpload(env, w, id, req);
            && (id in w.files ==> r == SaveFailed && w' == w)
            && (id !in w.files ==> r.Stored?)
  {
  }

  lemma {:induction false} LoopKeepsFiles(env: Env, w: World, pieces: seq<Bytes>, replication: int)
    ensures BackupFrom(env, StartUpload(w), pieces, 0, replication).0.w.files == w.files
  {
    StartTracks(env, w, pieces);
    LoopTracks(env, w, StartUpload(w), pieces, 0, replication);
  }

  /**
   * How an upload ends, for every pattern of answers: refused for its figures alone and without a
   * trace, failed at a chunk exactly if some round does not go through, failed with its stream, or
   * refused because the id is taken; in every other case it is stored. Unless it is stored the
   * manifests are as they were.
   */
  lemma {:induction false} UploadStoredIff(env: Env, w: World, id: FileId, req: UploadRequest)
    requires ValidGear(env.gear)
    ensures var (w', r) := BackupFile(env, w, id, req);
            var good := 0 < req.chunkSize <= 67108864 && req.retention >= 0;
            && (r == BadRequest <==> !good) && (!good ==> w' == w) && (!r.Stored? ==> w'.files == w.files)
            && (good ==>
                  var done := RoundsSucceed(env, StartUpload(w), R.UploadPieces(env, req), 0, req.replication);
                  && (r == ChunkFailed <==> !done) && (r == StreamFailed <==> done && req.broken)
                  && (r == SaveFailed <==> done && !req.broken && id in w.files)
                  && (r.Stored? <==> done && !req.broken && id !in w.files))
  {
    if Acceptable(req) {
      var pieces := R.UploadPieces(env, req);
      var u := BackupFrom(env, StartUpload(w), pieces, 0, req.replication).0;
      LoopOutcome(env, w, pieces, req.replication);
      LoopKeepsFiles(env, w, pieces, req.replication);
      FinishOutcome(env, u.w, id, RequestFor(req, u));
    }
  }

  lemma FinishKeepsActive(env: Env, w: World, id: FileId, req: FileRequest, h: Hash)
    requires R.Sane(env, w) && FinishUpload(env, w, id, req).1.Stored?
    requires h in InUse(FinishUpload(env, w, id, req).0)
    ensures Active(FinishUpload(env, w, id, req).0, h) == Active(w, h)
  {
    R.FinishKeepsLocations(env, w, id, req);
    FinishOnline(env, w, id, req);
    ActiveAfter(w, FinishUpload(env, w, id, req).0, h);
  }

  lemma {:induction false} FinishOnline(env: Env, w: World, id: FileId, req: FileRequest)
    ensures OnlineNodes(FinishUpload(env, w, id, req).0) == OnlineNodes(w)
  {
    if id !in w.files {
      var w1 := CreateFile(w, id, req).0;
      var (w2, _, unused) := ApplyRetention(w1, w1.files[id].backupName, w1.files[id].retention);
      assert OnlineNodes(w2) == OnlineNodes(w);
      DropOnline(env, w2, w2, unused, 0, Tally(0, []));
    }
  }

  lemma {:induction false} DropCopiesOnline(env: Env, w: World, h: Hash, nodes: seq<NodeId>, i: nat, t: Tally)
    requires i <= |nodes|
    ensures OnlineNodes(DropCopiesFrom(env, w, h, nodes, i, t).0) == OnlineNodes(w)
    decreases |nodes| - i
  {
    if i < |nodes| {
      var (w1, ok) := Discard(env, w, nodes[i], h);
      DiscardOnline(env, w, nodes[i], h);
      DropCopiesOnline(env, w1, h, nodes, i + 1,
        if ok then t.(deleted := t.deleted + 1) else t.(failed := t.failed + [Loc(h, nodes[i])]));
    }
  }

  lemma {:induction false} DropOnline(env: Env, w: World, at: World, hashes: seq<Hash>, i: nat, t: Tally)
    requires i <= |hashes|
    ensures OnlineNodes(DropUnusedFrom(env, w, at, hashes, i, t).0) == OnlineNodes(w)
    decreases |hashes| - i
  {
    if i < |hashes| {
      var (w1, t1) := DropCopiesFrom(env, w, hashes[i], ChunkLocations(at, hashes[i]), 0, t);
      DropCopiesOnline(env, w, hashes[i], ChunkLocations(at, hashes[i]), 0, t);
      DropOnline(env, w1, at, hashes, i + 1, t1);
    }
  }

  lemma ListedInUse(env: Env, w: World, id: FileId, pieces: seq<Bytes>, h: Hash)
    requires id in w.files && ListsPieces(env, w.files[id].chunks, pieces) && h in DigestsOf(env, pieces, |pieces|)
    ensures h in InUse(w)
  {
    var j :| 0 <= j < |pieces| && env.digest(pieces[j]) == h;
    assert w.files[id].chunks[j].hash == h;
  }

  /**
   * A stored upload has brought each of its chunks, stored before or not, to exactly
   * max(before, replication) active copies, and no other chunk in use has one more or less.
   */
  lemma {:induction false} StoredCopies(env: Env, w: World, id: FileId, req: UploadRequest, h: Hash)
    requires ValidGear(env.gear) && R.Sane(env, w) && BackupFile(env, w, id, req).1.Stored?
    ensures Acceptable(req)
    ensures var w', pieces := BackupFile(env, w, id, req).0, R.UploadPieces(env, req);
            && (h in DigestsOf(env, pieces, |pieces|) ==>
                  h in InUse(w') && |Active(w', h)| == Larger(|Active(w, h)|, req.replication))
            && (h in InUse(w') && h !in DigestsOf(env, pieces, |pieces|) ==> |Active(w', h)| == |Active(w, h)|)
  {
    var w', pieces := BackupFile(env, w, id, req).0, R.UploadPieces(env, req);
    var u := BackupFrom(env, StartUpload(w), pieces, 0, req.replication).0;
    R.UploadLoop(env, w, req);
    LoopOutcome(env, w, pieces, req.replication);
    R.FinishLists(env, u.w, id, RequestFor(req, u));
    if h in DigestsOf(env, pieces, |pieces|) { ListedInUse(env, w', id, pieces, h); }
    if h in InUse(w') { FinishKeepsActive(env, u.w, id, RequestFor(req, u), h); }
  }

  // ---- When the nodes obey and report truthfully ---------------------------------------

  /** Every call from this one on is obeyed. */
  ghost predicate Answering(env: Env, calls: nat) {
    forall c, n :: c >= calls ==> env.replies(c, n) == Obey
  }

  /** The space that an online node's row shows as free is there. */
  ghost predicate Truthful(env: Env, w: World) {
    forall n :: n in OnlineNodes(w) ==> n in w.nodes && 0 <= w.nodes[n].free && Honest(env, w, n)
  }

  lemma CopyTruthful(env: Env, w: World, n: NodeId, h: Hash, data: Bytes)
    requires MayCopy(w, n, h) && Truthful(env, w) && CopyTo(env, w, n, h, data, |data|).1
    ensures Truthful(env, CopyTo(env, w, n, h, data, |data|).0)
  {
    var w' := CopyTo(env, w, n, h, data, |data|).0;
    CopyEffect(env, w, n, h, data, |data|);
    assert n in OnlineNodes(w);
    forall m | m in OnlineNodes(w') ensures m in w'.nodes && 0 <= w'.nodes[m].free && Honest(env, w', m) {
      assert m in OnlineNodes(w);
      if m == n { CopyOwnHonest(env, w, n, h, data); } else { CopyElsewhere(env, w, n, h, data, m); }
    }
  }

  lemma TruthfulStep(env: Env, w: World, nodes: seq<NodeId>, i: nat, h: Hash, data: Bytes)
    requires i < |nodes| && MayPlace(w, nodes, i, h) && Truthful(env, w)
    ensures var (w1, ok) := CopyTo(env, w, nodes[i], h, data, |data|);
            MayPlace(w1, nodes, i + 1, h) && (ok ==> Truthful(env, w1))
  {
    PlaceStep(env, w, nodes, i, h, data);
    if CopyTo(env, w, nodes[i], h, data, |data|).1 { CopyTruthful(env, w, nodes[i], h, data); }
  }

  lemma {:induction false} PlaceTruthful(env: Env, w: World, counts: map<NodeId, nat>, nodes: seq<NodeId>, i: nat,
                                         h: Hash, data: Bytes)
    requires i <= |nodes| && MayPlace(w, nodes, i, h) && Truthful(env, w)
    ensures var r := PlaceFrom(env, w, counts, nodes, i, h, data);
            r.2 ==> Truthful(env, r.0)
    decreases |nodes| - i
  {
    if i < |nodes| {
      var (w1, ok) := CopyTo(env, w, nodes[i], h, data, |data|);
      TruthfulStep(env, w, nodes, i, h, data);
      if ok { PlaceTruthful(env, w1, counts[nodes[i] := Count(counts, nodes[i]) + 1], nodes, i + 1, h, data); }
    }
  }

  lemma {:induction false} PlacedMissingTruthful(env: Env, u: Upload, h: Hash, data: Bytes, missing: int)
    requires Truthful(env, u.w)
    ensures var (u', ok) := PlacedMissing(env, u, h, data, missing);
            ok ==> Truthful(env, u'.w)
  {
    if missing > 0 {
      PlanFacts(u.w, u.counts, h, |data|, missing);
      PlaceTruthful(env, u.w, u.counts, PlanChunkSpread(u.w, h, |data|, missing, u.counts), 0, h, data);
    }
  }

  lemma {:induction false} PlacementTruthful(env: Env, u: Upload, h: Hash, data: Bytes, replication: int, missing: int)
    requires Truthful(env, u.w) && MissingCopies(u.w, h, replication) == missing
    ensures var (u', ok) := PlaceChunk(env, u, h, data, replication);
            ok ==> Truthful(env, u'.w)
  {
    PlacedMissingIs(env, u, h, data, replication, missing);
    PlacedMissingTruthful(env, u, h, data, missing);
  }

  lemma {:induction false} ChunkTruthful(env: Env, u: Upload, data: Bytes, replication: int)
    requires Truthful(env, u.w)
    ensures var (u', ok) := BackupChunk(env, u, data, replication);
            ok ==> Truthful(env, u'.w)
  {
    var h := env.digest(data);
    PlacementTruthful(env, Tallied(u, h, |data|), h, data, replication, MissingCopies(u.w, h, replication));
  }

  /** As many nodes may get a copy as copies are missing. */
  ghost predicate EnoughNodes(env: Env, w: World, data: Bytes, replication: int) {
    var h := env.digest(data);
    |Active(w, h)| < replication ==> |Receivers(w, h, |data|)| >= replication - |Active(w, h)|
  }

  ghost predicate EnoughThroughout(env: Env, u: Upload, pieces: seq<Bytes>, i: nat, replication: int)
    requires i <= |pieces|
    decreases |pieces| - i
  {
    i < |pieces| ==>
      && EnoughNodes(env, u.w, pieces[i], replication)
      && var (u1, ok) := BackupChunk(env, u, pieces[i], replication);
         ok ==> EnoughThroughout(env, u1, pieces, i + 1, replication)
  }

  lemma ReceiverTakes(env: Env, w: World, n: NodeId, data: Bytes, call: nat)
    requires Answering(env, w.calls) && Truthful(env, w) && call >= w.calls
    requires MayReceive(w, env.digest(data), |data|, n)
    ensures Takes(env, w, call, n, env.digest(data), data)
  {
    assert n in OnlineNodes(w);
  }

  lemma TruthfulRound(env: Env, w: World, counts: map<NodeId, nat>, data: Bytes, replication: int)
    requires Answering(env, w.calls) && Truthful(env, w)
    ensures RoundSucceeds(env, w, counts, data, replication) <==> EnoughNodes(env, w, data, replication)
  {
    var h := env.digest(data);
    if |Active(w, h)| < replication {
      var nodes := Plan(w, counts, h, data, replication);
      PlanIsLeast(w, h, |data|, replication - |Active(w, h)|, counts);
      forall j | 0 <= j < |nodes| ensures Takes(env, w, w.calls + j, nodes[j], h, data) {
        assert nodes[j] in nodes;
        ReceiverTakes(env, w, nodes[j], data, w.calls + j);
      }
    }
  }

  lemma {:induction false} TruthfulLoop(env: Env, u: Upload, pieces: seq<Bytes>, i: nat, replication: int)
    requires i <= |pieces| && Answering(env, u.w.calls) && Truthful(env, u.w)
    ensures RoundsSucceed(env, u, pieces, i, replication) <==> EnoughThroughout(env, u, pieces, i, replication)
    decreases |pieces| - i
  {
    if i < |pieces| {
      TruthfulRound(env, u.w, u.counts, pieces[i], replication);
      ChunkSucceedsIff(env, u, pieces[i], replication);
      var (u1, ok) := BackupChunk(env, u, pieces[i], replication);
      if ok {
        ChunkTruthful(env, u, pieces[i], replication);
        ChunkGrows(env, u, pieces[i], replication);
        TruthfulLoop(env, u1, pieces, i + 1, replication);
      }
    }
  }

  /**
   * With nodes that obey and rows that are true, an upload with acceptable figures, a stream that
   * ends and a free id is stored exactly if in every round as many nodes may get a copy as copies
   * are missing.
   */
  lemma {:induction false} TruthfulUploadStoredIff(env: Env, w: World, id: FileId, req: UploadRequest)
    requires ValidGear(env.gear) && Answering(env, w.calls) && Truthful(env, w)
    requires 0 < req.chunkSize <= 67108864 && req.retention >= 0 && !req.broken && id !in w.files
    ensures BackupFile(env, w, id, req).1.Stored?
       <==> EnoughThroughout(env, StartUpload(w), R.UploadPieces(env, req), 0, req.replication)
  {
    UploadStoredIff(env, w, id, req);
    TruthfulLoop(env, StartUpload(w), R.UploadPieces(env, req), 0, req.replication);
  }

  /** The nodes that may get a copy are enough, and each has room on its disk too. */
  ghost predicate EnoughDisks(env: Env, w: World, data: Bytes, replication: int) {
    var h := env.digest(data);
    && EnoughNodes(env, w, data, replication)
    && (|Active(w, h)| < replication ==>
          forall n :: n in Receivers(w, h, |data|) ==> |data| == 0 || StoreOf(w, n).used + |data| <= env.capacity(n))
  }

  ghost predicate DisksThroughout(env: Env, u: Upload, pieces: seq<Bytes>, i: nat, replication: int)
    requires i <= |pieces|
    decreases |pieces| - i
  {
    i < |pieces| ==>
      && EnoughDisks(env, u.w, pieces[i], replication)
      && var (u1, ok) := BackupChunk(env, u, pieces[i], replication);
         ok ==> DisksThroughout(env, u1, pieces, i + 1, replication)
  }

  lemma DisksRound(env: Env, w: World, counts: map<NodeId, nat>, data: Bytes, replication: int)
    requires Answering(env, w.calls) && EnoughDisks(env, w, data, replication)
    ensures RoundSucceeds(env, w, counts, data, replication)
  {
    var h := env.digest(data);
    if |Active(w, h)| < replication {
      var nodes := Plan(w, counts, h, data, replication);
      PlanIsLeast(w, h, |data|, replication - |Active(w, h)|, counts);
      forall j | 0 <= j < |nodes| ensures Takes(env, w, w.calls + j, nodes[j], h, data) {
        assert nodes[j] in nodes && nodes[j] in Receivers(w, h, |data|);
      }
    }
  }

  lemma {:induction false} DisksLoop(env: Env, u: Upload, pieces: seq<Bytes>, i: nat, replication: int)
    requires i <= |pieces| && Answering(env, u.w.calls) && DisksThroughout(env, u, pieces, i, replication)
    ensures RoundsSucceed(env, u, pieces, i, replication)
    decreases |pieces| - i
  {
    if i < |pieces| {
      DisksRound(env, u.w, u.counts, pieces[i], replication);
      ChunkSucceedsIff(env, u, pieces[i], replication);
      ChunkGrows(env, u, pieces[i], replication);
      DisksLoop(env, BackupChunk(env, u, pieces[i], replication).0, pieces, i + 1, replication);
    }
  }

  /** With obeying nodes, rows true or not, room by row and on disk in every round is enough. */
  lemma {:induction false} UploadWithDiskRoomIsStored(env: Env, w: World, id: FileId, req: UploadRequest)
    requires ValidGear(env.gear) && Answering(env, w.calls)
    requires 0 < req.chunkSize <= 67108864 && req.retention >= 0 && !req.broken && id !in w.files
    requires DisksThroughout(env, StartUpload(w), R.UploadPieces(env, req), 0, req.replication)
    ensures BackupFile(env, w, id, req).1.Stored?
  {
    UploadStoredIff(env, w, id, req);
    DisksLoop(env, StartUpload(w), R.UploadPieces(env, req), 0, req.replication);
  }

  /** Online nodes with room that do not have the chunk may all get it. */
  lemma RoomReceives(w: World, h: Hash, size: nat)
    requires Room(w, size)
    ensures |Receivers(w, h, size)| == |OnlineNodes(w)| - |Active(w, h)|
  {
    var r, a := Receivers(w, h, size), Active(w, h);
    assert forall n :: n in OnlineNodes(w) <==> n in r || n in a;
    assert OnlineNodes(w) == r + a && r !! a;
  }

  lemma {:induction false} RoomMakesEnough(env: Env, u: Upload, pieces: seq<Bytes>, i: nat, replication: int)
    requires i <= |pieces| && RoomThroughout(env, u, pieces, i, replication) && replication <= |OnlineNodes(u.w)|
    ensures EnoughThroughout(env, u, pieces, i, replication)
    decreases |pieces| - i
  {
    if i < |pieces| {
      var h := env.digest(pieces[i]);
      MissingIs(u.w, h, replication);
      if |Active(u.w, h)| < replication { RoomReceives(u.w, h, |pieces[i]|); }
      var (u1, ok) := BackupChunk(env, u, pieces[i], replication);
      if ok {
        ChunkGrows(env, u, pieces[i], replication);
        RoomMakesEnough(env, u1, pieces, i + 1, replication);
      }
    }
  }

  /** With that many online nodes and room on each for what it is asked to take, the upload is stored. */
  lemma {:induction false} RoomyUploadIsStored(env: Env, w: World, id: FileId, req: UploadRequest)
    requires ValidGear(env.gear) && Answering(env, w.calls) && Truthful(env, w)
    requires 0 < req.chunkSize <= 67108864 && req.retention >= 0 && !req.broken && id !in w.files
    requires req.replication <= |OnlineNodes(w)|
    requires RoomThroughout(env, StartUpload(w), R.UploadPieces(env, req), 0, req.replication)
    ensures BackupFile(env, w, id, req).1.Stored?
  {
    TruthfulUploadStoredIff(env, w, id, req);
    RoomMakesEnough(env, StartUpload(w), R.UploadPieces(env, req), 0, req.replication);
  }

  /** Free space for the whole stream on every online node is enough, stated before the upload. */
  lemma {:induction false} UploadWithRoomIsStored(env: Env, w: World, id: FileId, req: UploadRequest)
    requires ValidGear(env.gear) && Answering(env, w.calls) && Truthful(env, w)
    requires 0 < req.chunkSize <= 67108864 && req.retention >= 0 && !req.broken && id !in w.files
    requires req.replication <= |OnlineNodes(w)| && Room(w, |req.stream|)
    ensures BackupFile(env, w, id, req).1.Stored?
  {
    var pieces := R.UploadPieces(env, req);
    WindowIsFull(env.gear, req.chunkSize);
    ChunksPartition(CutterFor(env.gear, req.chunkSize), req.stream, false);
    AllBytes(pieces, 0);
    assert pieces[0..] == pieces;
    RoomForAllIsEnough(env, StartUpload(w), pieces, 0, req.replication);
    RoomyUploadIsStored(env, w, id, req);
  }

  lemma {:induction false} AllBytes(pieces: seq<Bytes>, i: nat)
    requires i <= |pieces|
    ensures BytesFrom(pieces, i) == |Flatten(pieces[i..])|
    decreases |pieces| - i
  {
    if i < |pieces| {
      assert pieces[i..][1..] == pieces[i + 1..];
      AllBytes(pieces, i + 1);
    }
  }
}
