/** Runs of the whole server: any sequence of requests, heartbeats, clock ticks and scheduler passes. */
module Runs {
  import opened Chunker
  import opened Downloads
  import opened Files
  import opened Invariants
  import opened Model
  import opened Operations
  import opened Ordering
  import opened Removal
  import opened Scheduler
  import opened Sums
  import opened Types
  import opened Uploads

  datatype Step =
    | Register(node: NodeId, capacity: int, free: int)
    | Heartbeat(node: NodeId)
    | Upload(id: FileId, req: UploadRequest)
    | Delete(id: FileId)
    | SetReplication(id: FileId, replication: int)
    | Download(id: FileId, accepts: nat)
    | Remove(node: NodeId, purge: bool)
    | Tick(seconds: nat)
    | Pass

  /** The free space a node reports about its own store. */
  function ReportedFree(env: Env, w: World, n: NodeId): int {
    var free := env.capacity(n) - StoreOf(w, n).used;
    if free < 0 then 0 else free
  }

  ghost function Apply(env: Env, w: World, s: Step): World
    requires ValidGear(env.gear)
  {
    match s
    case Register(n, capacity, free) => RegisterNode(w, n, capacity, free)
    case Heartbeat(n) => RegisterNode(w, n, env.capacity(n), ReportedFree(env, w, n))
    case Upload(id, req) => BackupFile(env, w, id, req).0
    case Delete(id) => RemoveFile(env, w, id).0
    case SetReplication(id, replication) =>
      if replication <= 0 then w else UpdateFileReplication(w, id, replication).0
    case Download(id, accepts) => DownloadFile(env, w, id, accepts).0
    case Remove(n, purge) => RemoveNode(env, w, n, purge).0
    case Tick(seconds) => w.(now := w.now + seconds)
    case Pass => RunReplicationOnce(env, w)
  }

  ghost function Run(env: Env, w: World, steps: seq<Step>, i: nat): World
    requires ValidGear(env.gear) && i <= |steps|
    decreases |steps| - i
  {
    if i == |steps| then w else Run(env, Apply(env, w, steps[i]), steps, i + 1)
  }

  // ---- What every run keeps ------------------------------------------------------------

  /** In every manifest new and reused bytes add up to the size. */
  ghost predicate BytesAddUp(w: World) {
    forall f :: f in w.files ==> w.files[f].newBytes + w.files[f].reusedBytes == w.files[f].size
  }

  ghost predicate FilesSane(env: Env, w: World) {
    Replicated(w) && VersionsUnique(w) && BytesAddUp(w) && RefsGenuine(env, w)
  }

  ghost predicate Sane(env: Env, w: World) {
    Physical(env, w) && FilesSane(env, w)
  }

  lemma StartSane(env: Env)
    ensures Sane(env, EMPTY_WORLD) && Accounted(env, EMPTY_WORLD)
  {
  }

  /** Copy safety across a change of the files: no chunk still in use drops below what it should have. */
  ghost predicate Safe(w: World, w': World) {
    forall h :: h in InUse(w') ==> |Active(w', h)| >= Lower(|Active(w, h)|, Desired(w', h))
  }

  ghost predicate KeepsLocated(w: World, w': World) {
    forall h :: h in InUse(w') && Located(w, h) ==> Located(w', h)
  }

  /** What every operation but the clock and the removal of a node keeps. */
  ghost predicate StepKeeps(env: Env, w: World, w': World) {
    Sane(env, w') && (Accounted(env, w) ==> Accounted(env, w')) && Safe(w, w') && KeepsLocated(w, w')
  }

  /** Files other than id are as they were, and id too unless it was just stored. */
  ghost predicate OthersUnchanged(w: World, w': World, id: FileId, stored: bool) {
    forall f :: f in w'.files && (f != id || !stored) ==> f in w.files && w'.files[f] == w.files[f]
  }

  lemma EvolvesIsSafe(env: Env, w: World, w': World)
    requires Evolves(env, w, w')
    ensures Safe(w, w') && KeepsLocated(w, w')
  {
    FrameKeepsUse(w, w');
  }

  /** Only the files, the clock or the number of calls differ. */
  ghost predicate SameCopies(w: World, w': World) {
    w'.nodes == w.nodes && w'.locs == w.locs && w'.stores == w.stores
  }

  lemma SameCopiesAccounted(env: Env, w: World, w': World)
    requires SameCopies(w, w')
    ensures Physical(env, w) ==> Physical(env, w')
    ensures Accounted(env, w) ==> Accounted(env, w')
  {
    assert forall n :: StoreOf(w', n) == StoreOf(w, n);
    if Space(env, w) {
      forall n | n in w'.nodes ensures RowFits(env, w', n) { SameRowFits(env, w, w', n); }
    }
  }

  lemma SameCopiesKeep(env: Env, w: World, w': World)
    requires SameCopies(w, w')
    ensures Physical(env, w) ==> Physical(env, w')
    ensures Accounted(env, w) ==> Accounted(env, w')
    ensures forall h :: Located(w', h) == Located(w, h)
    ensures w'.now == w.now ==> forall h :: Active(w', h) == Active(w, h)
  {
    SameCopiesAccounted(env, w, w');
    if w'.now == w.now {
      assert forall n :: Online(w', n) == Online(w, n);
      assert forall h :: Active(w', h) == Active(w, h);
    }
  }

  lemma FilesSaneDepends(env: Env, w: World, w': World)
    requires FilesSane(env, w) && w'.files == w.files
    ensures FilesSane(env, w')
  {
  }

  /** Removing manifests breaks nothing about the others. */
  lemma FewerFilesSane(env: Env, w: World, w': World)
    requires FilesSane(env, w)
    requires forall f :: f in w'.files ==> f in w.files && w'.files[f] == w.files[f]
    ensures FilesSane(env, w')
  {
    forall f, i | f in w'.files && 0 <= i < |w'.files[f].chunks| ensures Genuine(env, w'.files[f].chunks[i]) {
      assert Genuine(env, w.files[f].chunks[i]);
    }
  }

  // ---- Deleting files ------------------------------------------------------------------

  /** Removing files and then the copies of the chunks that became unused. */
  lemma RemovalIsSafe(env: Env, w: World, w1: World, unused: seq<Hash>)
    requires DeletesAnswered(env)
    requires SameCopies(w, w1) && w1.now == w.now && ListsUnused(w, w1, unused)
    ensures var w2 := DeleteUnusedChunks(env, w1, unused).0;
            && Safe(w, w2) && KeepsLocated(w, w2) && w2.files == w1.files
            && (Physical(env, w) ==> Physical(env, w2)) && (Accounted(env, w) ==> Accounted(env, w2))
  {
    SameCopiesKeep(env, w, w1);
    forall j | 0 <= j < |unused| ensures unused[j] !in InUse(w1) { assert unused[j] in Elements(unused); }
    DropUnusedEvolves(env, w1, w1, unused, 0, Tally(0, []));
    var w2 := DeleteUnusedChunks(env, w1, unused).0;
    EvolvesIsSafe(env, w1, w2);
  }

  lemma DeleteStep(env: Env, w: World, id: FileId)
    requires DeletesAnswered(env)
    requires Sane(env, w)
    ensures var w' := RemoveFile(env, w, id).0;
            StepKeeps(env, w, w') && w'.files == w.files - {id}
  {
    if id in w.files {
      DeleteFileListsUnused(w, id);
      var (w1, unused, ok) := DeleteFile(w, id);
      RemovalIsSafe(env, w, w1, unused);
      FewerFilesSane(env, w, RemoveFile(env, w, id).0);
    } else {
      assert w.files - {id} == w.files;
    }
  }

  // ---- Uploading -----------------------------------------------------------------------

  /** Saving a manifest, applying its retention, and deleting what became unused. */
  lemma FinishStep(env: Env, w: World, id: FileId, req: FileRequest)
    requires DeletesAnswered(env)
    requires Sane(env, w) && req.newBytes + req.reusedBytes == req.size
    requires forall i :: 0 <= i < |req.chunks| ==> Genuine(env, req.chunks[i])
    ensures var (w', r) := FinishUpload(env, w, id, req);
            && StepKeeps(env, w, w') && OthersUnchanged(w, w', id, r.Stored?)
            && (r.Stored? ==> id !in w.files && id in w'.files && w'.files[id].chunks == req.chunks)
            && (!r.Stored? ==> w' == w)
  {
    var (w1, saved) := CreateFile(w, id, req);
    if saved {
      CreateSane(env, w, id, req);
      var row := w1.files[id];
      var (w2, deleted, unused) := ApplyRetention(w1, row.backupName, row.retention);
      RetentionListsUnused(w1, row.backupName, row.retention);
      SameCopiesKeep(env, w, w1);
      RemovalIsSafe(env, w1, w2, unused);
      var w3 := DeleteUnusedChunks(env, w2, unused).0;
      FewerFilesSane(env, w1, w3);
      FinishLists(env, w, id, req);
    }
  }

  lemma CreateSane(env: Env, w: World, id: FileId, req: FileRequest)
    requires FilesSane(env, w) && req.newBytes + req.reusedBytes == req.size
    requires forall i :: 0 <= i < |req.chunks| ==> Genuine(env, req.chunks[i])
    ensures FilesSane(env, CreateFile(w, id, req).0)
  {
    CreateKeepsVersions(w, id, req);
  }

  lemma CreatedIsNewest(w: World, id: FileId, req: FileRequest)
    requires id !in w.files
    ensures var w1 := CreateFile(w, id, req).0;
            var name := w1.files[id].backupName;
            && id in Versions(w1, name)
            && forall f :: f in Versions(w1, name) ==> w1.files[f].version <= w1.files[id].version
  {
    var w1 := CreateFile(w, id, req).0;
    NextVersionIsNewest(w, w1.files[id].backupName);
    forall f | f in Versions(w1, w1.files[id].backupName) ensures w1.files[f].version <= w1.files[id].version {
      if f != id { assert f in Versions(w, w1.files[id].backupName); }
    }
  }

  lemma GrowsIsSafe(env: Env, w: World, w': World)
    requires Grows(env, w, w')
    ensures forall h :: |Active(w', h)| >= |Active(w, h)| && (Located(w, h) ==> Located(w', h))
  {
    forall h ensures |Active(w', h)| >= |Active(w, h)| {
      forall n | n in Active(w, h) ensures n in Active(w', h) {
        assert n in OnlineNodes(w');
        assert Loc(h, n) in w'.locs;
      }
      SubsetSize(Active(w, h), Active(w', h));
    }
    forall h | Located(w, h) ensures Located(w', h) {
      var n :| Loc(h, n) in w.locs;
      assert Loc(h, n) in w'.locs;
    }
  }

  ghost function UploadPieces(env: Env, req: UploadRequest): seq<Bytes>
    requires ValidGear(env.gear) && Acceptable(req)
  {
    WindowIsFull(env.gear, req.chunkSize);
    Delivered(CutterFor(env.gear, req.chunkSize), req.stream, req.broken)
  }

  /** The upload loop leaves a sane cluster and a correct list of the chunks it has stored. */
  lemma {:induction false} UploadLoop(env: Env, w: World, req: UploadRequest)
    requires ValidGear(env.gear) && Acceptable(req) && Sane(env, w)
    ensures var pieces := UploadPieces(env, req);
            var (u, ok) := BackupFrom(env, StartUpload(w), pieces, 0, req.replication);
            && Grows(env, w, u.w) && Sane(env, u.w)
            && (ok ==> ListsPieces(env, u.refs, pieces) && u.newBytes + u.reusedBytes == u.size == |Flatten(pieces)|)
            && (ok && req.replication >= 1 ==> forall j :: 0 <= j < |pieces| ==> Located(u.w, env.digest(pieces[j])))
            && (req.replication <= 0 ==> u.w == w)
  {
    var pieces := UploadPieces(env, req);
    StartTracks(env, w, pieces);
    LoopTracks(env, w, StartUpload(w), pieces, 0, req.replication);
    assert pieces[..|pieces|] == pieces;
    FilesSaneDepends(env, w, BackupFrom(env, StartUpload(w), pieces, 0, req.replication).0.w);
  }

  lemma ListedAreGenuine(env: Env, refs: seq<ChunkRef>, pieces: seq<Bytes>)
    requires ListsPieces(env, refs, pieces)
    ensures forall i :: 0 <= i < |refs| ==> Genuine(env, refs[i])
  {
    forall i | 0 <= i < |refs| ensures Genuine(env, refs[i]) {
      assert env.digest(pieces[i]) == refs[i].hash && |pieces[i]| == refs[i].size;
    }
  }

  lemma GrowThenKeep(env: Env, w: World, u: World, w': World)
    requires Grows(env, w, u) && StepKeeps(env, u, w')
    ensures StepKeeps(env, w, w')
  {
    GrowsIsSafe(env, w, u);
  }

  lemma LoopKeeps(env: Env, w: World, u: World)
    requires Grows(env, w, u) && Sane(env, u)
    ensures StepKeeps(env, w, u) && OthersUnchanged(w, u, 0, false)
  {
    EvolvesIsSafe(env, w, u);
  }

  /** An upload, complete or broken off anywhere, keeps everything; if stored, it lists its chunks. */
  lemma UploadStep(env: Env, w: World, id: FileId, req: UploadRequest)
    requires DeletesAnswered(env)
    requires ValidGear(env.gear) && Sane(env, w)
    ensures var (w', r) := BackupFile(env, w, id, req);
            && StepKeeps(env, w, w') && OthersUnchanged(w, w', id, r.Stored?)
            && (r.Stored? ==> id !in w.files && id in w'.files && Acceptable(req) && !req.broken
                              && ListsPieces(env, w'.files[id].chunks, UploadPieces(env, req)))
  {
    if Acceptable(req) {
      UploadLoop(env, w, req);
      var pieces := UploadPieces(env, req);
      var (u, ok) := BackupFrom(env, StartUpload(w), pieces, 0, req.replication);
      if ok && !req.broken {
        ListedAreGenuine(env, u.refs, pieces);
        FinishStep(env, u.w, id, RequestFor(req, u));
        GrowThenKeep(env, w, u.w, FinishUpload(env, u.w, id, RequestFor(req, u)).0);
      } else {
        LoopKeeps(env, w, u.w);
      }
    } else {
      GrowsRefl(env, w);
      LoopKeeps(env, w, w);
    }
  }

  /** With the new manifest in place, a positive retention leaves the newest versions of its name only. */
  ghost predicate Retained(w1: World, w': World, row: FileRow) {
    if row.backupName != NO_NAME && row.retention > 0
    then OnlyNewestRemain(w1, w', row.backupName, row.retention)
    else w'.files == w1.files
  }

  lemma {:induction false} DeletionKeepsFiles(env: Env, w: World, at: World, hashes: seq<Hash>, i: nat, t: Tally)
    requires i <= |hashes|
    ensures DropUnusedFrom(env, w, at, hashes, i, t).0.files == w.files
    decreases |hashes| - i
  {
    if i < |hashes| {
      var (w1, t1) := DropCopiesFrom(env, w, hashes[i], ChunkLocations(at, hashes[i]), 0, t);
      CopiesKeepFiles(env, w, hashes[i], ChunkLocations(at, hashes[i]), 0, t);
      DeletionKeepsFiles(env, w1, at, hashes, i + 1, t1);
    }
  }

  lemma {:induction false} CopiesKeepFiles(env: Env, w: World, h: Hash, nodes: seq<NodeId>, i: nat, t: Tally)
    requires i <= |nodes|
    ensures DropCopiesFrom(env, w, h, nodes, i, t).0.files == w.files
    decreases |nodes| - i
  {
    if i < |nodes| {
      var (w1, ok) := Discard(env, w, nodes[i], h);
      DiscardEffect(env, w, nodes[i], h);
      CopiesKeepFiles(env, w1, h, nodes, i + 1,
        if ok then t.(deleted := t.deleted + 1) else t.(failed := t.failed + [Loc(h, nodes[i])]));
    }
  }

  lemma FinishFiles(env: Env, w: World, id: FileId, req: FileRequest)
    requires FinishUpload(env, w, id, req).1.Stored?
    ensures var w1, row := w.(files := w.files[id := NewRow(w, req)]), NewRow(w, req);
            FinishUpload(env, w, id, req).0.files == ApplyRetention(w1, row.backupName, row.retention).0.files
  {
    var w1, row := CreateFile(w, id, req).0, NewRow(w, req);
    var (w2, deleted, unused) := ApplyRetention(w1, row.backupName, row.retention);
    DeletionKeepsFiles(env, w2, w2, unused, 0, Tally(0, []));
  }

  lemma RetentionRetains(w1: World, row: FileRow)
    requires VersionsUnique(w1)
    ensures Retained(w1, ApplyRetention(w1, row.backupName, row.retention).0, row)
  {
    if row.backupName != NO_NAME && row.retention > 0 { RetentionKeepsNewest(w1, row.backupName, row.retention); }
  }

  lemma SameFilesRetain(w1: World, a: World, b: World, row: FileRow)
    requires a.files == b.files && Retained(w1, a, row)
    ensures Retained(w1, b, row)
  {
    assert Versions(a, row.backupName) == Versions(b, row.backupName);
  }

  lemma FinishRetains(env: Env, w: World, id: FileId, req: FileRequest)
    requires VersionsUnique(w) && FinishUpload(env, w, id, req).1.Stored?
    ensures Retained(w.(files := w.files[id := NewRow(w, req)]), FinishUpload(env, w, id, req).0, NewRow(w, req))
  {
    var w1, row := w.(files := w.files[id := NewRow(w, req)]), NewRow(w, req);
    CreateKeepsVersions(w, id, req);
    FinishFiles(env, w, id, req);
    RetentionRetains(w1, row);
    SameFilesRetain(w1, ApplyRetention(w1, row.backupName, row.retention).0, FinishUpload(env, w, id, req).0, row);
  }

  lemma FinishLists(env: Env, w: World, id: FileId, req: FileRequest)
    requires VersionsUnique(w) && FinishUpload(env, w, id, req).1.Stored?
    ensures id in FinishUpload(env, w, id, req).0.files
    ensures FinishUpload(env, w, id, req).0.files[id] == NewRow(w, req)
  {
    var w1, row := w.(files := w.files[id := NewRow(w, req)]), NewRow(w, req);
    CreateKeepsVersions(w, id, req);
    FinishFiles(env, w, id, req);
    CreatedIsNewest(w, id, req);
    NewestSurvives(w1, row.backupName, row.retention, id);
  }

  /**
   * What a stored upload leaves: its manifest with the true byte counts, new bytes being those of the
   * distinct chunks no file used before, and of its name only as many newest versions as it asked for.
   */
  lemma {:induction false} StoredManifest(env: Env, w: World, id: FileId, req: UploadRequest)
    requires ValidGear(env.gear) && Sane(env, w) && BackupFile(env, w, id, req).1.Stored?
    ensures Acceptable(req) && id in BackupFile(env, w, id, req).0.files
    ensures var w' := BackupFile(env, w, id, req).0;
            var row, pieces := w'.files[id], UploadPieces(env, req);
            && row.name == req.filename && row.retention == req.retention
            && row.backupName == (if req.backupName == NO_NAME then req.filename else req.backupName)
            && row.size == |req.stream| && row.newBytes + row.reusedBytes == row.size
            && row.newBytes == Total(Fresh(env, w, pieces, |pieces|))
            && Retained(w.(files := w.files[id := row]), w', row)
  {
    var pieces := UploadPieces(env, req);
    var u := BackupFrom(env, StartUpload(w), pieces, 0, req.replication).0;
    UploadLoop(env, w, req);
    DedupAccounting(env, w, pieces, req.replication);
    FinishRetains(env, u.w, id, RequestFor(req, u));
    FinishLists(env, u.w, id, RequestFor(req, u));
    WindowIsFull(env.gear, req.chunkSize);
    ChunksPartition(CutterFor(env.gear, req.chunkSize), req.stream, false);
    SameFilesRetained(w, u.w, BackupFile(env, w, id, req).0, id, NewRow(u.w, RequestFor(req, u)));
  }

  lemma SameFilesRetained(w: World, v: World, w': World, id: FileId, row: FileRow)
    requires w.files == v.files && Retained(v.(files := v.files[id := row]), w', row)
    ensures Retained(w.(files := w.files[id := row]), w', row)
  {
    var a, b := v.(files := v.files[id := row]), w.(files := w.files[id := row]);
    assert Versions(a, row.backupName) == Versions(b, row.backupName);
  }

  /** Whether a stored upload has all its chunks somewhere. */
  ghost predicate AllLocated(w: World, id: FileId)
    requires id in w.files
  {
    forall i :: 0 <= i < |w.files[id].chunks| ==> Located(w, w.files[id].chunks[i].hash)
  }

  lemma InUseByFile(w: World, id: FileId, i: nat)
    requires id in w.files && i < |w.files[id].chunks|
    ensures w.files[id].chunks[i].hash in InUse(w)
  {
  }

  lemma FinishKeepsLocations(env: Env, w: World, id: FileId, req: FileRequest)
    requires Sane(env, w) && FinishUpload(env, w, id, req).1.Stored?
    ensures var w' := FinishUpload(env, w, id, req).0;
            forall k: Loc :: k.hash in InUse(w') ==> (k in w'.locs <==> k in w.locs)
  {
    var w1, row := CreateFile(w, id, req).0, NewRow(w, req);
    var (w2, deleted, unused) := ApplyRetention(w1, row.backupName, row.retention);
    RetentionListsUnused(w1, row.backupName, row.retention);
    DeletionReport(env, w2, unused);
    DeletionKeepsFiles(env, w2, w2, unused, 0, Tally(0, []));
    FrameKeepsUse(w2, FinishUpload(env, w, id, req).0);
    assert forall h :: h in unused ==> h in Elements(unused);
  }

  /** Saving the manifest neither adds nor removes copies of the chunks it lists. */
  lemma FinishLocates(env: Env, w: World, id: FileId, req: FileRequest)
    requires Sane(env, w) && FinishUpload(env, w, id, req).1.Stored?
    ensures id in FinishUpload(env, w, id, req).0.files
    ensures AllLocated(FinishUpload(env, w, id, req).0, id)
       <==> forall i :: 0 <= i < |req.chunks| ==> Located(w, req.chunks[i].hash)
  {
    var w' := FinishUpload(env, w, id, req).0;
    FinishLists(env, w, id, req);
    FinishKeepsLocations(env, w, id, req);
    forall i | 0 <= i < |req.chunks|
      ensures Located(w, req.chunks[i].hash) == Located(w', w'.files[id].chunks[i].hash)
    {
      InUseByFile(w', id, i);
      SameLocated(w, w', req.chunks[i].hash);
    }
  }

  lemma SameLocated(w: World, w': World, h: Hash)
    requires h in InUse(w') && forall k: Loc :: k.hash in InUse(w') ==> (k in w'.locs <==> k in w.locs)
    ensures Located(w', h) == Located(w, h)
  {
    assert forall n :: Loc(h, n).hash in InUse(w');
  }

  ghost predicate PiecesLocated(env: Env, w: World, pieces: seq<Bytes>) {
    forall i :: 0 <= i < |pieces| ==> Located(w, env.digest(pieces[i]))
  }

  lemma ListedLocated(env: Env, w: World, refs: seq<ChunkRef>, pieces: seq<Bytes>)
    requires ListsPieces(env, refs, pieces)
    ensures PiecesLocated(env, w, pieces) <==> forall i :: 0 <= i < |refs| ==> Located(w, refs[i].hash)
  {
    assert forall i :: 0 <= i < |refs| ==> refs[i].hash == env.digest(pieces[i]);
  }

  /**
   * A successful upload has stored every chunk it lists exactly if it asked for at least one copy
   * or every chunk was stored before: the upload loop uses the raw replication, the saved manifest
   * the normalized one.
   */
  lemma StoredUploadIsLocated(env: Env, w: World, id: FileId, req: UploadRequest)
    requires ValidGear(env.gear) && Sane(env, w) && BackupFile(env, w, id, req).1.Stored?
    ensures id in BackupFile(env, w, id, req).0.files
    ensures AllLocated(BackupFile(env, w, id, req).0, id)
       <==> req.replication >= 1 || PiecesLocated(env, w, UploadPieces(env, req))
  {
    UploadLoop(env, w, req);
    var pieces := UploadPieces(env, req);
    var (u, ok) := BackupFrom(env, StartUpload(w), pieces, 0, req.replication);
    ListedAreGenuine(env, u.refs, pieces);
    FinishLocates(env, u.w, id, RequestFor(req, u));
    ListedLocated(env, u.w, u.refs, pieces);
  }

  // ---- Zero replication ----------------------------------------------------------------

  lemma {:induction false} OneChunkUpload(env: Env, data: Bytes)
    ensures var (u, ok) := BackupFrom(env, StartUpload(EMPTY_WORLD), [data], 0, 0);
            ok && u.w == EMPTY_WORLD && u.refs == [ChunkRef(env.digest(data), |data|)]
  {
    var u := BackupChunk(env, StartUpload(EMPTY_WORLD), data, 0).0;
    assert MissingCopies(EMPTY_WORLD, env.digest(data), 0) <= 0;
    assert BackupFrom(env, u, [data], 1, 0) == (u, true);
  }

  lemma FirstFileWithoutNodes(env: Env, req: FileRequest)
    requires req.retention == 0 && |req.chunks| == 1
    ensures var (w, r) := FinishUpload(env, EMPTY_WORLD, 1, req);
            r == Stored([]) && DownloadFile(env, w, 1, 1).2 == FetchFailed
  {
    var w1 := CreateFile(EMPTY_WORLD, 1, req).0;
    assert DeleteUnusedChunks(env, w1, []).0 == w1;
    var h := req.chunks[0].hash;
    assert (set n | n in w1.nodes && Loc(h, n) in w1.locs) == {};
    assert ChunkLocations(w1, h) == [];
  }

  /** An upload with replication 0 is accepted by an empty cluster and cannot be downloaded again. */
  lemma ZeroReplicationUploadIsLost(env: Env)
    requires ValidGear(env.gear)
    ensures var (w, r) := BackupFile(env, EMPTY_WORLD, 1, UploadRequest(1, 1, 524288, 0, 0, [7], false));
            r == Stored([]) && DownloadFile(env, w, 1, 1).2 == FetchFailed
  {
    var req := UploadRequest(1, 1, 524288, 0, 0, [7], false);
    WindowIsFull(env.gear, 524288);
    ShortStreamIsOneChunk(CutterFor(env.gear, 524288), [7]);
    OneChunkUpload(env, [7]);
    var u := BackupFrom(env, StartUpload(EMPTY_WORLD), [[7]], 0, 0).0;
    FirstFileWithoutNodes(env, RequestFor(req, u));
  }

  // ---- The other steps -----------------------------------------------------------------

  /** A registration can only bring a node online; its chunks count as active again. */
  lemma RegisterKeeps(env: Env, w: World, n: NodeId, capacity: int, free: int)
    requires Sane(env, w)
    ensures var w' := RegisterNode(w, n, capacity, free);
            Sane(env, w') && Safe(w, w') && KeepsLocated(w, w') && w'.files == w.files
  {
    var w' := RegisterNode(w, n, capacity, free);
    assert forall m :: StoreOf(w', m) == StoreOf(w, m);
    FrameKeepsUse(w, w');
    FilesSaneDepends(env, w, w');
    forall h ensures |Active(w', h)| >= |Active(w, h)| && Located(w', h) == Located(w, h) {
      RegisterActive(w, n, capacity, free, h);
    }
  }

  lemma RegisterActive(w: World, n: NodeId, capacity: int, free: int, h: Hash)
    ensures |Active(RegisterNode(w, n, capacity, free), h)| >= |Active(w, h)|
    ensures Located(RegisterNode(w, n, capacity, free), h) == Located(w, h)
  {
    var w' := RegisterNode(w, n, capacity, free);
    assert Active(w, h) <= Active(w', h);
    SubsetSize(Active(w, h), Active(w', h));
  }

  /** An honest heartbeat reports what the disk leaves free, so the accounting holds again. */
  lemma HeartbeatAccounted(env: Env, w: World, n: NodeId)
    requires Accounted(env, w)
    ensures Accounted(env, RegisterNode(w, n, env.capacity(n), ReportedFree(env, w, n)))
  {
    var w' := RegisterNode(w, n, env.capacity(n), ReportedFree(env, w, n));
    assert forall m :: StoreOf(w', m) == StoreOf(w, m);
    RecordedOnDisk(env, w, n);
    forall m | m in w'.nodes ensures RowFits(env, w', m) {
      assert Recorded(w', m) == Recorded(w, m);
      if m != n { assert RowFits(env, w, m); }
    }
  }

  lemma SetReplicationKeeps(env: Env, w: World, id: FileId, replication: int)
    requires Sane(env, w) && replication > 0
    ensures var w' := UpdateFileReplication(w, id, replication).0;
            StepKeeps(env, w, w') && w'.files.Keys == w.files.Keys
            && forall f :: f in w.files ==> w'.files[f].chunks == w.files[f].chunks
  {
    var w' := UpdateFileReplication(w, id, replication).0;
    SameCopiesKeep(env, w, w');
    ReplicationSane(env, w, id, replication);
  }

  lemma ReplicationSane(env: Env, w: World, id: FileId, replication: int)
    requires FilesSane(env, w) && replication > 0
    ensures FilesSane(env, UpdateFileReplication(w, id, replication).0)
  {
    SameChunksGenuine(env, w, UpdateFileReplication(w, id, replication).0);
  }

  lemma SameChunksGenuine(env: Env, w: World, w': World)
    requires RefsGenuine(env, w)
    requires forall f :: f in w'.files ==> f in w.files && w'.files[f].chunks == w.files[f].chunks
    ensures RefsGenuine(env, w')
  {
    forall f, i | f in w'.files && 0 <= i < |w'.files[f].chunks| ensures Genuine(env, w'.files[f].chunks[i]) {
      assert Genuine(env, w.files[f].chunks[i]);
    }
  }

  lemma {:induction false} DownloadOnlyCalls(env: Env, w: World, refs: seq<ChunkRef>, i: nat, out: Bytes, accepts: nat)
    requires i <= |refs|
    ensures OnlyCalls(w, DownloadFrom(env, w, refs, i, out, accepts).0)
    decreases |refs| - i
  {
    if i < |refs| {
      var nodes, h := ChunkLocations(w, refs[i].hash), refs[i].hash;
      var (w1, body) := FetchFromAny(env, w, nodes, 0, h);
      FetchOnlyCalls(env, w, nodes, 0, h);
      if body.Some? && env.digest(body.value) == h && |out| + |body.value| <= accepts {
        DownloadOnlyCalls(env, w1, refs, i + 1, out + body.value, accepts);
        OnlyCallsTrans(w, w1, DownloadFrom(env, w, refs, i, out, accepts).0);
      }
    }
  }

  lemma DownloadKeeps(env: Env, w: World, id: FileId, accepts: nat)
    requires Sane(env, w)
    ensures var w' := DownloadFile(env, w, id, accepts).0;
            StepKeeps(env, w, w') && w'.files == w.files
  {
    var w' := DownloadFile(env, w, id, accepts).0;
    if id in w.files { DownloadOnlyCalls(env, w, w.files[id].chunks, 0, [], accepts); }
    assert w' == w.(calls := w'.calls);
    SameCopiesKeep(env, w, w');
    FilesSaneDepends(env, w, w');
    FrameKeepsUse(w, w');
  }

  /** Removing a node leaves the rows, the recorded copies and the disks of the other nodes alone. */
  ghost predicate Without(w: World, w': World, n: NodeId) {
    && w'.files == w.files && w'.now == w.now
    && (forall m :: m in w'.nodes ==> m != n && m in w.nodes && w'.nodes[m] == w.nodes[m])
    && (forall m :: m in w.nodes && m != n ==> m in w'.nodes)
    && (forall k :: k in w'.locs ==> k.node != n && k in w.locs && w'.locs[k] == w.locs[k])
    && (forall k :: k in w.locs && k.node != n ==> k in w'.locs)
    && (forall m :: m != n ==> StoreOf(w', m) == StoreOf(w, m))
    && (StoreOf(w', n) == StoreOf(w, n) || StoreOf(w', n) == EMPTY_STORE)
  }

  lemma RemovedIsWithout(env: Env, w: World, n: NodeId, purge: bool)
    requires RemoveNode(env, w, n, purge).1
    ensures Without(w, RemoveNode(env, w, n, purge).0, n)
  {
  }

  /** Only the disk of n has changed, and it holds nothing new. */
  ghost predicate DiskLoses(w: World, w': World, n: NodeId) {
    && w' == w.(stores := w'.stores, calls := w'.calls)
    && w'.stores.Keys <= w.stores.Keys + {n}
    && (forall m :: m != n ==> StoreOf(w', m) == StoreOf(w, m))
    && (forall h :: Holds(w', n, h) ==> Holds(w, n, h) && StoreOf(w', n).chunks[h] == StoreOf(w, n).chunks[h])
    && StoreOf(w', n).used <= StoreOf(w, n).used
    && StoreOf(w', n).used >= Total(Sizes(StoreOf(w', n).chunks))
  }

  lemma RemnantCovered(s: Store, kept: set<Hash>)
    requires s.used >= Total(Sizes(s.chunks))
    ensures Remnant(s, kept).used >= Total(Sizes(Remnant(s, kept).chunks))
  {
    Monotone(Sizes(Remnant(s, kept).chunks), Sizes(s.chunks));
  }

  lemma FailedRemoval(env: Env, w: World, n: NodeId, purge: bool)
    requires Physical(env, w) && !RemoveNode(env, w, n, purge).1
    ensures DiskLoses(w, RemoveNode(env, w, n, purge).0, n)
  {
    var s := StoreOf(w, n);
    UsedFits(env, w, n);
    ZeroTotal(Sizes(map[]));
    ZeroTotal(Sizes(s.chunks));
    if env.replies(w.calls, n).HalfDone? { RemnantCovered(s, env.replies(w.calls, n).kept); }
  }

  /** The store still has every chunk that is recorded there. */
  ghost predicate KeepsRecorded(w: World, w': World, n: NodeId) {
    forall k :: k in w.locs && k.node == n ==> Holds(w', n, k.hash)
  }

  lemma DiskLossSound(env: Env, w: World, w': World, n: NodeId)
    requires DiskLoses(w, w', n) && Sound(env, w) && Fits(env, w)
    ensures Sound(env, w') && Fits(env, w')
  {
    UsedFits(env, w, n);
    assert forall m :: m in w'.stores ==> w'.stores[m] == StoreOf(w', m);
  }

  lemma DiskLossGrounded(env: Env, w: World, w': World, n: NodeId)
    requires DiskLoses(w, w', n) && Grounded(w)
    ensures Grounded(w') <==> KeepsRecorded(w, w', n)
    ensures Measured(w) ==> Measured(w')
  {
    if Grounded(w') {
      forall k | k in w.locs && k.node == n ensures Holds(w', n, k.hash) { assert k in w'.locs; }
    } else {
      var k :| k in w'.locs && !(k.node in w'.nodes && Holds(w', k.node, k.hash));
      assert k in w.locs;
    }
  }

  lemma SameTablesSpace(env: Env, w: World, w': World)
    requires w'.nodes == w.nodes && w'.locs == w.locs && Space(env, w)
    ensures Space(env, w')
  {
    forall m | m in w'.nodes ensures RowFits(env, w', m) { SameRowFits(env, w, w', m); }
  }

  lemma RecordedWithout(w: World, w': World, n: NodeId, m: NodeId)
    requires Without(w, w', n) && m != n
    ensures Recorded(w', m) == Recorded(w, m)
  {
    assert HashesAt(w'.locs, m) == HashesAt(w.locs, m);
    assert At(w'.locs, m) == At(w.locs, m);
  }

  lemma WithoutGrounded(w: World, w': World, n: NodeId)
    requires Without(w, w', n)
    ensures Grounded(w) ==> Grounded(w')
    ensures Measured(w) ==> Measured(w')
  {
  }

  lemma WithoutSound(env: Env, w: World, w': World, n: NodeId)
    requires Without(w, w', n) && w'.stores.Keys <= w.stores.Keys + {n}
    ensures Sound(env, w) ==> Sound(env, w')
    ensures Fits(env, w) ==> Fits(env, w')
  {
    assert forall m :: m in w'.stores ==> w'.stores[m] == StoreOf(w', m);
  }

  lemma WithoutSpace(env: Env, w: World, w': World, n: NodeId)
    requires Without(w, w', n) && Space(env, w)
    ensures Space(env, w')
  {
    forall m | m in w'.nodes ensures RowFits(env, w', m) {
      assert RowFits(env, w, m);
      RecordedWithout(w, w', n, m);
    }
  }

  lemma RemovedKeeps(env: Env, w: World, n: NodeId, purge: bool)
    requires Sane(env, w) && RemoveNode(env, w, n, purge).1
    ensures var w' := RemoveNode(env, w, n, purge).0;
            Sane(env, w') && (Accounted(env, w) ==> Accounted(env, w')) && w'.files == w.files
  {
    var w' := RemoveNode(env, w, n, purge).0;
    RemovedIsWithout(env, w, n, purge);
    FilesSaneDepends(env, w, w');
    WithoutGrounded(w, w', n);
    WithoutSound(env, w, w', n);
    if Space(env, w) { WithoutSpace(env, w, w', n); }
  }

  /**
   * A purge that reports an error has taken no recorded chunk: it did nothing, or its answer was lost
   * on a node without recorded copies, or it stopped before the first of them.
   */
  predicate PurgeHarmless(env: Env, w: World, n: NodeId, purge: bool) {
    purge && n in w.nodes ==>
      match env.replies(w.calls, n)
      case LoseReply => forall k :: k in w.locs ==> k.node != n
      case HalfDone(kept) => forall k :: k in w.locs && k.node == n ==> k.hash in kept
      case _ => true
  }

  lemma HarmlessKeepsRecorded(env: Env, w: World, n: NodeId, purge: bool)
    requires Grounded(w) && !RemoveNode(env, w, n, purge).1
    ensures KeepsRecorded(w, RemoveNode(env, w, n, purge).0, n) <==> PurgeHarmless(env, w, n, purge)
  {
    var w' := RemoveNode(env, w, n, purge).0;
    if n in w.nodes {
      assert purge;
      assert StoreOf(w', n) == AfterClear(StoreOf(w, n), env.replies(w.calls, n));
      assert forall k :: k in w.locs && k.node == n ==> k.hash in StoreOf(w, n).chunks;
    } else {
      assert w' == w;
    }
  }

  /** Removing a node keeps the invariants exactly when a purge that failed took no recorded chunk. */
  lemma RemoveKeepsIff(env: Env, w: World, n: NodeId, purge: bool)
    requires Sane(env, w)
    ensures var w' := RemoveNode(env, w, n, purge).0;
            && w'.files == w.files
            && (Sane(env, w') <==> PurgeHarmless(env, w, n, purge))
            && (Accounted(env, w) ==> (Accounted(env, w') <==> PurgeHarmless(env, w, n, purge)))
  {
    var (w', ok) := RemoveNode(env, w, n, purge);
    if ok {
      RemovedKeeps(env, w, n, purge);
    } else {
      FailedRemoval(env, w, n, purge);
      FilesSaneDepends(env, w, w');
      DiskLossSound(env, w, w', n);
      DiskLossGrounded(env, w, w', n);
      HarmlessKeepsRecorded(env, w, n, purge);
      if Space(env, w) { SameTablesSpace(env, w, w'); }
    }
  }

  lemma PassKeeps(env: Env, w: World)
    requires DeletesAnswered(env)
    requires Sane(env, w)
    ensures var w' := RunReplicationOnce(env, w);
            && Sane(env, w') && Safe(w, w') && KeepsLocated(w, w') && w'.files == w.files
            && (Injective(env) && Accounted(env, w) ==> Accounted(env, w'))
  {
    PassKeepsCopies(env, w);
    EvolvesIsSafe(env, w, RunReplicationOnce(env, w));
    FilesSaneDepends(env, w, RunReplicationOnce(env, w));
    if Injective(env) && Accounted(env, w) { PassAccounted(env, w); }
  }

  // ---- Every step, every run -----------------------------------------------------------

  /** A step adds no file but the upload's own and changes no manifest's chunk list. */
  ghost predicate FilesStay(w: World, w': World, s: Step) {
    forall f :: f in w'.files && !(s.Upload? && s.id == f) ==>
      f in w.files && w'.files[f].chunks == w.files[f].chunks
  }

  /**
   * What a step does: it keeps the cluster sane; only unsupervised registrations can break the
   * accounting, only node removal a location, and only that and the clock the copies.
   */
  ghost predicate StepGood(env: Env, w: World, s: Step, w': World) {
    && Sane(env, w') && FilesStay(w, w', s)
    && (!s.Register? && Injective(env) && Accounted(env, w) ==> Accounted(env, w'))
    && (!s.Remove? ==> KeepsLocated(w, w'))
    && (!s.Remove? && !s.Tick? ==> Safe(w, w'))
  }

  lemma KeptIsGood(env: Env, w: World, s: Step, w': World)
    requires StepKeeps(env, w, w') && FilesStay(w, w', s)
    ensures StepGood(env, w, s, w')
  {
  }

  lemma SameIsKept(env: Env, w: World)
    requires Sane(env, w)
    ensures StepKeeps(env, w, w)
  {
  }

  lemma UploadGood(env: Env, w: World, s: Step)
    requires DeletesAnswered(env)
    requires ValidGear(env.gear) && Sane(env, w) && s.Upload?
    ensures StepGood(env, w, s, BackupFile(env, w, s.id, s.req).0)
  {
    UploadStep(env, w, s.id, s.req);
    KeptIsGood(env, w, s, BackupFile(env, w, s.id, s.req).0);
  }

  lemma DeleteGood(env: Env, w: World, s: Step)
    requires DeletesAnswered(env)
    requires Sane(env, w) && s.Delete?
    ensures StepGood(env, w, s, RemoveFile(env, w, s.id).0)
  {
    DeleteStep(env, w, s.id);
    KeptIsGood(env, w, s, RemoveFile(env, w, s.id).0);
  }

  lemma ReplicationGood(env: Env, w: World, s: Step)
    requires Sane(env, w) && s.SetReplication?
    ensures StepGood(env, w, s, if s.replication <= 0 then w else UpdateFileReplication(w, s.id, s.replication).0)
  {
    if s.replication <= 0 {
      SameIsKept(env, w);
    } else {
      SetReplicationKeeps(env, w, s.id, s.replication);
      KeptIsGood(env, w, s, UpdateFileReplication(w, s.id, s.replication).0);
    }
  }

  lemma DownloadGood(env: Env, w: World, s: Step)
    requires Sane(env, w) && s.Download?
    ensures StepGood(env, w, s, DownloadFile(env, w, s.id, s.accepts).0)
  {
    DownloadKeeps(env, w, s.id, s.accepts);
    KeptIsGood(env, w, s, DownloadFile(env, w, s.id, s.accepts).0);
  }

  lemma HeartbeatGood(env: Env, w: World, s: Step)
    requires Sane(env, w) && s.Heartbeat?
    ensures StepGood(env, w, s, RegisterNode(w, s.node, env.capacity(s.node), ReportedFree(env, w, s.node)))
  {
    RegisterKeeps(env, w, s.node, env.capacity(s.node), ReportedFree(env, w, s.node));
    if Accounted(env, w) { HeartbeatAccounted(env, w, s.node); }
  }

  /** The step is no failed purge that took a recorded chunk. */
  predicate Harmless(env: Env, w: World, s: Step) {
    s.Remove? ==> PurgeHarmless(env, w, s.node, s.purge)
  }

  lemma StepIsGood(env: Env, w: World, s: Step)
    requires DeletesAnswered(env)
    requires ValidGear(env.gear) && Sane(env, w) && Harmless(env, w, s)
    ensures StepGood(env, w, s, Apply(env, w, s))
  {
    match s
    case Register(n, capacity, free) => RegisterKeeps(env, w, n, capacity, free);
    case Heartbeat(_) => HeartbeatGood(env, w, s);
    case Upload(_, _) => UploadGood(env, w, s);
    case Delete(_) => DeleteGood(env, w, s);
    case SetReplication(_, _) => ReplicationGood(env, w, s);
    case Download(_, _) => DownloadGood(env, w, s);
    case Remove(n, purge) => RemoveKeepsIff(env, w, n, purge);
    case Tick(_) =>
      FilesSaneDepends(env, w, Apply(env, w, s));
      SameCopiesKeep(env, w, Apply(env, w, s));
    case Pass => PassKeeps(env, w);
  }

  /** No step of the run is a failed purge that took a recorded chunk. */
  ghost predicate HarmlessRun(env: Env, w: World, steps: seq<Step>, i: nat)
    requires ValidGear(env.gear) && i <= |steps|
    decreases |steps| - i
  {
    i < |steps| ==> Harmless(env, w, steps[i]) && HarmlessRun(env, Apply(env, w, steps[i]), steps, i + 1)
  }

  lemma {:induction false} WithoutRemovalHarmless(env: Env, w: World, steps: seq<Step>, i: nat)
    requires ValidGear(env.gear) && i <= |steps|
    requires forall j :: i <= j < |steps| ==> !steps[j].Remove?
    ensures HarmlessRun(env, w, steps, i)
    decreases |steps| - i
  {
    if i < |steps| { WithoutRemovalHarmless(env, Apply(env, w, steps[i]), steps, i + 1); }
  }

  /** The invariants hold now and after every step, and with honest heartbeats the accounting too. */
  ghost predicate SaneThroughout(env: Env, w: World, steps: seq<Step>, i: nat)
    requires ValidGear(env.gear) && i <= |steps|
    decreases |steps| - i
  {
    Sane(env, w) && (i < |steps| ==> SaneThroughout(env, Apply(env, w, steps[i]), steps, i + 1))
  }

  ghost predicate AccountedThroughout(env: Env, w: World, steps: seq<Step>, i: nat)
    requires ValidGear(env.gear) && i <= |steps|
    decreases |steps| - i
  {
    Accounted(env, w) && (i < |steps| ==> AccountedThroughout(env, Apply(env, w, steps[i]), steps, i + 1))
  }

  lemma HarmfulStep(env: Env, w: World, s: Step)
    requires ValidGear(env.gear) && Sane(env, w) && !Harmless(env, w, s)
    ensures !Sane(env, Apply(env, w, s)) && (Accounted(env, w) ==> !Accounted(env, Apply(env, w, s)))
  {
    RemoveKeepsIff(env, w, s.node, s.purge);
  }

  /**
   * The invariants hold in every state of a run exactly if no failed purge took a recorded chunk.
   * With honest heartbeats and a collision-free digest the same goes for the space accounting.
   */
  lemma {:induction false} RunSaneIff(env: Env, w: World, steps: seq<Step>, i: nat)
    requires DeletesAnswered(env)
    requires ValidGear(env.gear) && i <= |steps| && Sane(env, w)
    ensures SaneThroughout(env, w, steps, i) <==> HarmlessRun(env, w, steps, i)
    ensures Injective(env) && Accounted(env, w) && (forall j :: i <= j < |steps| ==> !steps[j].Register?)
        ==> (AccountedThroughout(env, w, steps, i) <==> HarmlessRun(env, w, steps, i))
    decreases |steps| - i
  {
    if i < |steps| {
      var w1 := Apply(env, w, steps[i]);
      if Harmless(env, w, steps[i]) {
        StepIsGood(env, w, steps[i]);
        RunSaneIff(env, w1, steps, i + 1);
      } else {
        HarmfulStep(env, w, steps[i]);
      }
    }
  }

  lemma {:induction false} LastState(env: Env, w: World, steps: seq<Step>, i: nat)
    requires ValidGear(env.gear) && i <= |steps|
    ensures SaneThroughout(env, w, steps, i) ==> Sane(env, Run(env, w, steps, i))
    ensures AccountedThroughout(env, w, steps, i) ==> Accounted(env, Run(env, w, steps, i))
    decreases |steps| - i
  {
    if i < |steps| { LastState(env, Apply(env, w, steps[i]), steps, i + 1); }
  }

  /** Sanity in the state reached; with honest heartbeats, the space accounting too. */
  lemma {:induction false} RunSane(env: Env, w: World, steps: seq<Step>, i: nat)
    requires DeletesAnswered(env)
    requires ValidGear(env.gear) && i <= |steps| && Sane(env, w) && HarmlessRun(env, w, steps, i)
    ensures Sane(env, Run(env, w, steps, i))
    ensures Injective(env) && Accounted(env, w) && (forall j :: i <= j < |steps| ==> !steps[j].Register?)
        ==> Accounted(env, Run(env, w, steps, i))
  {
    RunSaneIff(env, w, steps, i);
    LastState(env, w, steps, i);
  }

  /**
   * The server's space bookkeeping in every state reachable with honest heartbeats and without a
   * failed purge that took a recorded chunk: free space plus recorded copies never exceed the
   * capacity, so giving space back is never clamped.
   */
  lemma {:induction false} SpaceInvariant(env: Env, steps: seq<Step>)
    requires DeletesAnswered(env)
    requires ValidGear(env.gear) && Injective(env) && forall j :: 0 <= j < |steps| ==> !steps[j].Register?
    requires HarmlessRun(env, EMPTY_WORLD, steps, 0)
    ensures var w := Run(env, EMPTY_WORLD, steps, 0);
            && (forall n :: n in w.nodes ==>
                 0 <= w.nodes[n].free && w.nodes[n].free + Recorded(w, n) <= w.nodes[n].capacity == env.capacity(n))
            && (forall k :: k in w.locs ==>
                 k.node in w.nodes && Raised(w.nodes[k.node], w.locs[k]) == w.nodes[k.node].free + w.locs[k])
  {
    StartSane(env);
    RunSane(env, EMPTY_WORLD, steps, 0);
    var w := Run(env, EMPTY_WORLD, steps, 0);
    forall n | n in w.nodes
      ensures 0 <= w.nodes[n].free && w.nodes[n].free + Recorded(w, n) <= w.nodes[n].capacity == env.capacity(n)
    {
      assert RowFits(env, w, n);
    }
    forall k | k in w.locs
      ensures k.node in w.nodes && Raised(w.nodes[k.node], w.locs[k]) == w.nodes[k.node].free + w.locs[k]
    {
      assert k == Loc(k.hash, k.node) && RowFits(env, w, k.node);
      GiveBackFits(env, w, k.node, k.hash);
    }
  }

  /**
   * A purge whose answer is lost, then an honest heartbeat: the node reports all its capacity as free
   * while copies are still recorded there, and giving back the space of one is clamped.
   */
  lemma LostPurgeBreaksSpace(env: Env, w: World, k: Loc)
    requires ValidGear(env.gear) && k in w.locs && w.locs[k] > 0 && k.node in w.nodes
    requires env.replies(w.calls, k.node) == LoseReply
    ensures var w1 := Apply(env, Apply(env, w, Remove(k.node, true)), Heartbeat(k.node));
            && k.node in w1.nodes && k in w1.locs && !Holds(w1, k.node, k.hash)
            && w1.nodes[k.node].free + Recorded(w1, k.node) > w1.nodes[k.node].capacity == env.capacity(k.node)
            && Raised(w1.nodes[k.node], w1.locs[k]) < w1.nodes[k.node].free + w1.locs[k]
  {
    var n := k.node;
    LostPurgeThenHeartbeat(env, w, n);
    RecordedAtLeast(Apply(env, Apply(env, w, Remove(n, true)), Heartbeat(n)), k);
  }

  /** The store is empty, the locations are as they were, and all the capacity counts as free. */
  lemma LostPurgeThenHeartbeat(env: Env, w: World, n: NodeId)
    requires ValidGear(env.gear) && n in w.nodes && env.replies(w.calls, n) == LoseReply
    ensures var w1 := Apply(env, Apply(env, w, Remove(n, true)), Heartbeat(n));
            && StoreOf(w1, n) == EMPTY_STORE && w1.locs == w.locs
            && n in w1.nodes && w1.nodes[n] == NodeRow(env.capacity(n), env.capacity(n), w.now)
  {
    var w1 := Apply(env, w, Remove(n, true));
    assert w1.locs == w.locs && w1.nodes == w.nodes && StoreOf(w1, n) == EMPTY_STORE;
  }

  lemma RecordedAtLeast(w: World, k: Loc)
    requires k in w.locs
    ensures Recorded(w, k.node) >= w.locs[k]
  {
    assert k == Loc(k.hash, k.node) && k.hash in At(w.locs, k.node);
    TakeOut(At(w.locs, k.node), k.hash);
  }

  // ---- Durability ----------------------------------------------------------------------

  /** Every chunk of every listed file is recorded somewhere. */
  ghost predicate Durable(w: World) {
    forall h :: h in InUse(w) ==> Located(w, h)
  }

  lemma StepDurable(env: Env, w: World, s: Step)
    requires DeletesAnswered(env)
    requires ValidGear(env.gear) && Sane(env, w) && Durable(w)
    requires !s.Remove? && (s.Upload? ==> s.req.replication >= 1)
    ensures Durable(Apply(env, w, s))
  {
    var w' := Apply(env, w, s);
    StepIsGood(env, w, s);
    forall h | h in InUse(w') ensures Located(w', h) {
      var f, i :| f in w'.files && 0 <= i < |w'.files[f].chunks| && w'.files[f].chunks[i].hash == h;
      if s.Upload? && s.id == f {
        UploadStep(env, w, s.id, s.req);
        if BackupFile(env, w, s.id, s.req).1.Stored? {
          StoredUploadIsLocated(env, w, s.id, s.req);
        } else {
          assert w.files[f].chunks[i].hash in InUse(w);
        }
      } else {
        assert w.files[f].chunks[i].hash in InUse(w);
      }
    }
  }

  lemma {:induction false} RunDurable(env: Env, w: World, steps: seq<Step>, i: nat)
    requires DeletesAnswered(env)
    requires ValidGear(env.gear) && i <= |steps| && Sane(env, w) && Durable(w)
    requires forall j :: i <= j < |steps| ==> !steps[j].Remove? && (steps[j].Upload? ==> steps[j].req.replication >= 1)
    ensures Durable(Run(env, w, steps, i))
    decreases |steps| - i
  {
    if i < |steps| {
      StepIsGood(env, w, steps[i]);
      StepDurable(env, w, steps[i]);
      RunDurable(env, Apply(env, w, steps[i]), steps, i + 1);
    }
  }

  /**
   * Durability over every run without node removal, whatever calls fail: each chunk of each listed
   * file is recorded on a node that physically holds bytes with that digest.
   */
  lemma {:induction false} NoChunkIsLost(env: Env, steps: seq<Step>, h: Hash)
    requires DeletesAnswered(env)
    requires ValidGear(env.gear)
    requires forall j :: 0 <= j < |steps| ==> !steps[j].Remove? && (steps[j].Upload? ==> steps[j].req.replication >= 1)
    requires h in InUse(Run(env, EMPTY_WORLD, steps, 0))
    ensures var w := Run(env, EMPTY_WORLD, steps, 0);
            exists n :: && n in w.nodes && Loc(h, n) in w.locs
                        && Holds(w, n, h) && env.digest(StoreOf(w, n).chunks[h]) == h
  {
    StartSane(env);
    WithoutRemovalHarmless(env, EMPTY_WORLD, steps, 0);
    RunSane(env, EMPTY_WORLD, steps, 0);
    RunDurable(env, EMPTY_WORLD, steps, 0);
    var w := Run(env, EMPTY_WORLD, steps, 0);
    var n :| Loc(h, n) in w.locs;
    assert Loc(h, n).node in w.nodes && Holds(w, Loc(h, n).node, Loc(h, n).hash);
    assert StoreSound(env, w.stores[n]);
  }

  /** A file that is still listed has the chunk list it was stored with, and has lost no last copy. */
  lemma {:induction false} RunKeepsFile(env: Env, w: World, steps: seq<Step>, i: nat, id: FileId)
    requires DeletesAnswered(env)
    requires ValidGear(env.gear) && i <= |steps| && Sane(env, w)
    requires forall j :: i <= j < |steps| ==> !steps[j].Remove? && !(steps[j].Upload? && steps[j].id == id)
    requires id in Run(env, w, steps, i).files
    ensures var w' := Run(env, w, steps, i);
            id in w.files && w'.files[id].chunks == w.files[id].chunks && (AllLocated(w, id) ==> AllLocated(w', id))
    decreases |steps| - i
  {
    if i < |steps| {
      var w1 := Apply(env, w, steps[i]);
      StepIsGood(env, w, steps[i]);
      RunKeepsFile(env, w1, steps, i + 1, id);
      if AllLocated(w, id) {
        forall k | 0 <= k < |w1.files[id].chunks| ensures Located(w1, w1.files[id].chunks[k].hash) {
          InUseByFile(w1, id, k);
        }
      }
    }
  }

  /**
   * Backup and restore: store a stream with at least one copy, run anything without removing nodes
   * or reusing the id; if the file is still listed, every one of its chunks is recorded on some node,
   * and a download with one answering holder per chunk returns exactly the bytes of the stream.
   */
  lemma {:induction false} RestoreIsExact(env: Env, w: World, id: FileId, req: UploadRequest, steps: seq<Step>,
                                          r: set<NodeId>)
    requires DeletesAnswered(env)
    requires ValidGear(env.gear) && Injective(env) && Sane(env, w)
    requires BackupFile(env, w, id, req).1.Stored? && req.replication >= 1
    requires forall j :: 0 <= j < |steps| ==> !steps[j].Remove? && !(steps[j].Upload? && steps[j].id == id)
    requires id in Run(env, BackupFile(env, w, id, req).0, steps, 0).files
    ensures var w' := Run(env, BackupFile(env, w, id, req).0, steps, 0);
            && AllLocated(w', id)
            && (Responders(env, w'.calls, r)
                && (forall i :: 0 <= i < |w'.files[id].chunks| ==> Reachable(w', w'.files[id].chunks[i].hash, r))
                ==> var (_, out, result) := DownloadFile(env, w', id, |req.stream|);
                    result == Complete && out == req.stream)
  {
    var w1 := BackupFile(env, w, id, req).0;
    var w' := Run(env, w1, steps, 0);
    UploadStep(env, w, id, req);
    StoredUploadIsLocated(env, w, id, req);
    RunKeepsFile(env, w1, steps, 0, id);
    WithoutRemovalHarmless(env, w1, steps, 0);
    RunSane(env, w1, steps, 0);
    if Responders(env, w'.calls, r)
       && (forall i :: 0 <= i < |w'.files[id].chunks| ==> Reachable(w', w'.files[id].chunks[i].hash, r))
    {
      RestoreNow(env, w', id, req, r);
    }
  }

  lemma RestoreNow(env: Env, w: World, id: FileId, req: UploadRequest, r: set<NodeId>)
    requires ValidGear(env.gear) && Injective(env) && Sane(env, w) && Acceptable(req) && !req.broken
    requires id in w.files && ListsPieces(env, w.files[id].chunks, UploadPieces(env, req))
    requires Responders(env, w.calls, r)
    requires forall i :: 0 <= i < |w.files[id].chunks| ==> Reachable(w, w.files[id].chunks[i].hash, r)
    ensures var (_, out, result) := DownloadFile(env, w, id, |req.stream|);
            result == Complete && out == req.stream
  {
    var pieces := UploadPieces(env, req);
    WindowIsFull(env.gear, req.chunkSize);
    ChunksPartition(CutterFor(env.gear, req.chunkSize), req.stream, false);
    assert forall j :: 0 <= j < |pieces| ==> w.files[id].chunks[j].hash == env.digest(pieces[j]);
    DownloadExact(env, w, id, pieces, |req.stream|, r);
  }
}
