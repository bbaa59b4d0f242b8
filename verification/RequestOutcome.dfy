/** What single requests leave behind, column by column. */
module RequestOutcome {
  import opened Chunker
  import opened Downloads
  import opened Files
  import opened Invariants
  import opened Model
  import opened Operations
  import opened Ordering
  import opened Queries
  import R = Runs
  import opened Types
  import opened UploadOutcome
  import opened Uploads

  // ---- A stored upload -----------------------------------------------------------------

  /** One above the highest version that a name has, or 1. */
  ghost predicate IsNext(w: World, backupName: Name, version: nat) {
    && (forall f :: f in w.files && w.files[f].backupName == backupName ==> w.files[f].version < version)
    && (version == 1 || exists f :: && f in w.files && w.files[f].backupName == backupName
                                    && w.files[f].version + 1 == version)
  }

  lemma NextVersionIs(w: World, backupName: Name)
    ensures IsNext(w, backupName, NextVersion(w, backupName))
  {
    var s := set f | f in w.files && w.files[f].backupName == backupName :: w.files[f].version;
    NextVersionIsNewest(w, backupName);
    assert forall f :: f in w.files && w.files[f].backupName == backupName ==> f in Versions(w, backupName);
    if s != {} { assert MaxOf(s) in s; }
  }

  lemma IsNextDepends(w: World, v: World, backupName: Name, version: nat)
    requires w.files == v.files && IsNext(v, backupName, version)
    ensures IsNext(w, backupName, version)
  {
  }

  /** The manifest of a stored upload: every column in terms of the request, the stream and the cluster before. */
  ghost predicate StoredRow(env: Env, w: World, row: FileRow, req: UploadRequest)
    requires ValidGear(env.gear) && Acceptable(req)
  {
    && row.name == req.filename
    && row.backupName == (if req.backupName == NO_NAME then req.filename else req.backupName)
    && IsNext(w, row.backupName, row.version)
    && row.retention == req.retention && row.chunkSize == req.chunkSize && row.createdAt == w.now
    && row.replication == (if req.replication <= 0 then 3 else req.replication)
    && row.size == |req.stream| && ListsPieces(env, row.chunks, R.UploadPieces(env, req))
  }

  lemma {:induction false} StoredRowIs(env: Env, w: World, id: FileId, req: UploadRequest)
    requires ValidGear(env.gear) && R.Sane(env, w) && BackupFile(env, w, id, req).1.Stored?
    ensures Acceptable(req) && id in BackupFile(env, w, id, req).0.files
    ensures StoredRow(env, w, BackupFile(env, w, id, req).0.files[id], req)
  {
    var pieces := R.UploadPieces(env, req);
    var u := BackupFrom(env, StartUpload(w), pieces, 0, req.replication).0;
    R.UploadLoop(env, w, req);
    R.FinishLists(env, u.w, id, RequestFor(req, u));
    R.StoredManifest(env, w, id, req);
    var row := NewRow(u.w, RequestFor(req, u));
    NextVersionIs(u.w, row.backupName);
    IsNextDepends(w, u.w, row.backupName, row.version);
  }

  /** These files, each once and newest first, are what went of the cluster's files. */
  ghost predicate ListsRemoved(w1: World, w': World, ids: seq<FileId>) {
    && NoDuplicates(ids) && (forall f :: f in w'.files ==> f in w1.files)
    && (forall f :: f in ids <==> f in w1.files && f !in w'.files)
    && (forall i, j :: 0 <= i < j < |ids| ==>
          ids[i] in w1.files && ids[j] in w1.files && w1.files[ids[i]].version > w1.files[ids[j]].version)
  }

  lemma {:induction false} OutdatedOrder(w: World, backupName: Name, keep: nat)
    requires VersionsUnique(w)
    ensures var ids := Outdated(w, backupName, keep);
            forall i, j :: 0 <= i < j < |ids| ==>
              ids[i] in w.files && ids[j] in w.files && w.files[ids[i]].version > w.files[ids[j]].version
  {
    var all, ids := Enumerate(Versions(w, backupName), NewestFirst(w)), Outdated(w, backupName, keep);
    forall i, j | 0 <= i < j < |ids|
      ensures ids[i] in w.files && ids[j] in w.files && w.files[ids[i]].version > w.files[ids[j]].version
    {
      assert ids[i] == all[keep + i] && ids[j] == all[keep + j];
      EarlierIsNewer(w, backupName, keep + i, keep + j);
    }
  }

  lemma {:induction false} RetentionReports(w: World, backupName: Name, keep: int)
    requires VersionsUnique(w)
    ensures var (w', ids, _) := ApplyRetention(w, backupName, keep);
            ListsRemoved(w, w', ids)
  {
    if backupName != NO_NAME && keep > 0 {
      OutdatedCount(w, backupName, keep);
      OutdatedOrder(w, backupName, keep);
      var ids := Outdated(w, backupName, keep);
      assert forall f :: f in ids ==> f in Elements(ids);
    }
  }

  lemma {:induction false} FinishReports(env: Env, w: World, id: FileId, req: FileRequest)
    requires VersionsUnique(w) && FinishUpload(env, w, id, req).1.Stored?
    ensures var (w', r), w1 := FinishUpload(env, w, id, req), w.(files := w.files[id := NewRow(w, req)]);
            ListsRemoved(w1, w', r.deletedVersions)
  {
    var w1, row := w.(files := w.files[id := NewRow(w, req)]), NewRow(w, req);
    var (w2, deleted, unused) := ApplyRetention(w1, row.backupName, row.retention);
    CreateKeepsVersions(w, id, req);
    RetentionReports(w1, row.backupName, row.retention);
    R.FinishFiles(env, w, id, req);
    SameRemoved(w1, w2, FinishUpload(env, w, id, req).0, deleted);
  }

  lemma SameRemoved(w1: World, w2: World, w': World, ids: seq<FileId>)
    requires ListsRemoved(w1, w2, ids) && w'.files == w2.files
    ensures ListsRemoved(w1, w', ids)
  {
  }

  /** The answer to a stored upload lists exactly the versions that its retention removed, newest first. */
  lemma {:induction false} DeletedVersionsAre(env: Env, w: World, id: FileId, req: UploadRequest)
    requires ValidGear(env.gear) && R.Sane(env, w) && BackupFile(env, w, id, req).1.Stored?
    ensures id in BackupFile(env, w, id, req).0.files
    ensures var (w', r) := BackupFile(env, w, id, req);
            ListsRemoved(w.(files := w.files[id := w'.files[id]]), w', r.deletedVersions)
  {
    var pieces := R.UploadPieces(env, req);
    var u := BackupFrom(env, StartUpload(w), pieces, 0, req.replication).0;
    var row := NewRow(u.w, RequestFor(req, u));
    R.UploadLoop(env, w, req);
    R.FinishLists(env, u.w, id, RequestFor(req, u));
    FinishReports(env, u.w, id, RequestFor(req, u));
    var r := BackupFile(env, w, id, req);
    OtherTables(u.w.(files := u.w.files[id := row]), w.(files := w.files[id := row]), r.0, r.1.deletedVersions);
  }

  lemma OtherTables(w1: World, w2: World, w': World, ids: seq<FileId>)
    requires ListsRemoved(w1, w', ids) && w1.files == w2.files
    ensures ListsRemoved(w2, w', ids)
  {
  }

  /** The lengths of the chunks of an upload, in terms of the chunk size it asks for. */
  lemma {:induction false} ChunkLengths(env: Env, req: UploadRequest, i: nat)
    requires ValidGear(env.gear) && Acceptable(req) && i < |R.UploadPieces(env, req)|
    ensures var pieces := R.UploadPieces(env, req);
            && 1 <= |pieces[i]|
            && (|pieces[i]| <= 8192 || |pieces[i]| <= 4 * req.chunkSize)
            && (i + 1 < |pieces| ==> |pieces[i]| >= 8192 && |pieces[i]| >= req.chunkSize / 4)
  {
    WindowIsFull(env.gear, req.chunkSize);
    UploadChunkLengths(env.gear, req.chunkSize, req.stream, req.broken, i);
  }

  // ---- Removing a node -----------------------------------------------------------------

  /**
   * Removing a node succeeds exactly if it is registered and a purge, if one is asked for, is answered;
   * then its row and its locations are gone and, purged, its disk is empty. Otherwise no table changes.
   */
  lemma RemoveNodeIff(env: Env, w: World, n: NodeId, purge: bool)
    ensures var (w', ok) := RemoveNode(env, w, n, purge);
            && (ok <==> n in w.nodes && (purge ==> env.replies(w.calls, n) == Obey))
            && (ok ==>
                  && n !in w'.nodes && R.Without(w, w', n)
                  && StoreOf(w', n) == if purge then EMPTY_STORE else StoreOf(w, n))
            && (!ok ==>
                  && w' == w.(stores := w'.stores, calls := w'.calls)
                  && forall m :: m != n ==> StoreOf(w', m) == StoreOf(w, m))
            && (n !in w.nodes ==> w' == w)
  {
    if RemoveNode(env, w, n, purge).1 { R.RemovedIsWithout(env, w, n, purge); }
  }

  // ---- Setting a replication -----------------------------------------------------------

  /** A positive figure is stored as given, for this file only; nothing else changes. */
  lemma ReplicationIsSet(w: World, id: FileId, replication: int)
    requires replication > 0
    ensures var (w', ok) := UpdateFileReplication(w, id, replication);
            && (ok <==> id in w.files) && w' == w.(files := w'.files) && w'.files.Keys == w.files.Keys
            && (forall f :: f in w.files && f != id ==> w'.files[f] == w.files[f])
            && (ok ==> w'.files[id].replication == replication && w'.files[id].chunks == w.files[id].chunks
                       && w'.files[id] == w.files[id].(replication := w'.files[id].replication))
  {
  }

  /** So the chunks of that file are wanted at least that often, and others as before unless they share one. */
  lemma ReplicationIsWanted(w: World, id: FileId, replication: int, h: Hash)
    requires replication > 0 && id in w.files
    ensures var w' := UpdateFileReplication(w, id, replication).0;
            && InUse(w') == InUse(w)
            && (h in HashesOf(w.files[id].chunks) ==> Desired(w', h) >= replication)
            && (h !in HashesOf(w.files[id].chunks) ==> Desired(w', h) == Desired(w, h))
  {
    var w' := UpdateFileReplication(w, id, replication).0;
    var before := set f | f in w.files && h in HashesOf(w.files[f].chunks) :: w.files[f].replication;
    var after := set f | f in w'.files && h in HashesOf(w'.files[f].chunks) :: w'.files[f].replication;
    UseKept(w, w');
    if h in HashesOf(w.files[id].chunks) {
      assert w'.files[id].replication in after;
    } else {
      assert forall f :: f in w.files && h in HashesOf(w.files[f].chunks) ==> w'.files[f] == w.files[f];
      assert before == after;
    }
  }

  lemma UseKept(w: World, w': World)
    requires w'.files.Keys == w.files.Keys && forall f :: f in w.files ==> w'.files[f].chunks == w.files[f].chunks
    ensures InUse(w') == InUse(w)
  {
    forall h | h in InUse(w) ensures h in InUse(w') {
      var f, i :| f in w.files && 0 <= i < |w.files[f].chunks| && w.files[f].chunks[i].hash == h;
      assert f in w'.files && w'.files[f].chunks[i].hash == h;
    }
  }
}
