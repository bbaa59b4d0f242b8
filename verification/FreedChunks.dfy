/** Deleting a file, or the versions beyond its retention, deletes the chunks that nobody uses any more. */
module FreedChunks {
  import opened Chunker
  import opened Downloads
  import opened Files
  import opened Invariants
  import opened Model
  import opened Operations
  import opened Ordering
  import opened Queries
  import opened Removal
  import R = Runs
  import opened Types
  import opened Uploads

  // ---- What a list of deletions does ---------------------------------------------------

  /**
   * Of the given hashes some locations went, and then the chunk is gone from the node too; every
   * other location and every other chunk on a disk is untouched.
   */
  ghost predicate Sheds(w: World, w': World, hs: set<Hash>) {
    && SameFrame(w, w')
    && (forall k :: k in w'.locs ==> k in w.locs && w'.locs[k] == w.locs[k])
    && (forall k :: k in w.locs && k !in w'.locs ==> k.hash in hs && !Holds(w', k.node, k.hash))
    && (forall n, h :: Holds(w', n, h) ==> Holds(w, n, h) && StoreOf(w', n).chunks[h] == StoreOf(w, n).chunks[h])
    && (forall n, h :: Holds(w, n, h) && !Holds(w', n, h) ==> h in hs)
  }

  lemma ShedsRefl(w: World, hs: set<Hash>)
    ensures Sheds(w, w, hs)
  {
  }

  lemma ShedsTrans(a: World, b: World, c: World, hs: set<Hash>)
    requires Sheds(a, b, hs) && Sheds(b, c, hs)
    ensures Sheds(a, c, hs)
  {
  }

  lemma DiscardSheds(env: Env, w: World, n: NodeId, h: Hash, hs: set<Hash>)
    requires h in hs
    ensures Sheds(w, Discard(env, w, n, h).0, hs)
  {
    DiscardEffect(env, w, n, h);
  }

  /** A call to the node, between these two counts of calls, was not answered with a deletion. */
  ghost predicate Denied(env: Env, from: nat, to: nat, n: NodeId) {
    exists c: nat :: from <= c < to && env.deletes(c, n) != Deleted
  }

  /** Failures are added to the report only for nodes that denied a deletion. */
  ghost predicate ReportsDenied(env: Env, w: World, t: Tally, w': World, t': Tally) {
    && w.calls <= w'.calls
    && forall k :: k in t'.failed && k !in t.failed ==> Denied(env, w.calls, w'.calls, k.node)
  }

  lemma DeniedLonger(env: Env, a: nat, b: nat, c: nat, d: nat, n: NodeId)
    requires a <= b && c <= d && Denied(env, b, c, n)
    ensures Denied(env, a, d, n)
  {
    var x: nat :| b <= x < c && env.deletes(x, n) != Deleted;
    assert a <= x < d;
  }

  lemma ReportsDeniedTrans(env: Env, a: World, ta: Tally, b: World, tb: Tally, c: World, tc: Tally)
    requires ReportsDenied(env, a, ta, b, tb) && ReportsDenied(env, b, tb, c, tc)
    ensures ReportsDenied(env, a, ta, c, tc)
  {
    forall k | k in tc.failed && k !in ta.failed ensures Denied(env, a.calls, c.calls, k.node) {
      if k in tb.failed {
        DeniedLonger(env, a.calls, a.calls, b.calls, c.calls, k.node);
      } else {
        DeniedLonger(env, a.calls, b.calls, c.calls, c.calls, k.node);
      }
    }
  }

  lemma DiscardReportsDenied(env: Env, w: World, n: NodeId, h: Hash, t: Tally)
    ensures var (w', ok) := Discard(env, w, n, h);
            ReportsDenied(env, w, t, w', Counted(t, Loc(h, n), ok))
  {
    DiscardEffect(env, w, n, h);
    var (w', ok) := Discard(env, w, n, h);
    if !ok { assert w.calls <= w.calls < w'.calls && env.deletes(w.calls, n) != Deleted; }
  }

  /** Where a row fits its capacity, free space and recorded bytes add up to what they did before. */
  ghost predicate BooksKept(env: Env, w: World, w': World, n: NodeId) {
    n in w.nodes && RowFits(env, w, n) ==>
      && n in w'.nodes && RowFits(env, w', n)
      && w'.nodes[n].free + Recorded(w', n) == w.nodes[n].free + Recorded(w, n)
  }

  lemma DiscardKeepsBooks(env: Env, w: World, n: NodeId, h: Hash, m: NodeId)
    ensures BooksKept(env, w, Discard(env, w, n, h).0, m)
  {
    if m in w.nodes && RowFits(env, w, m) {
      var (w', ok) := Discard(env, w, n, h);
      DiscardRowFits(env, w, n, h, m);
      if ok && Loc(h, n) in w.locs {
        if m == n { OwnBooksKept(env, w, n, h); } else { OtherBooksKept(env, w, n, h, m); }
      } else {
        DiscardIdle(env, w, n, h);
      }
    }
  }

  lemma OwnBooksKept(env: Env, w: World, n: NodeId, h: Hash)
    requires n in w.nodes && RowFits(env, w, n) && Loc(h, n) in w.locs && Discard(env, w, n, h).1
    ensures var w' := Discard(env, w, n, h).0;
            n in w'.nodes && w'.nodes[n].free + Recorded(w', n) == w.nodes[n].free + Recorded(w, n)
  {
    DiscardNodes(env, w, n, h);
    DiscardEffect(env, w, n, h);
    GiveBackFits(env, w, n, h);
    RecordedDrop(w.locs, h, n);
  }

  lemma OtherBooksKept(env: Env, w: World, n: NodeId, h: Hash, m: NodeId)
    requires m in w.nodes && m != n
    ensures var w' := Discard(env, w, n, h).0;
            m in w'.nodes && w'.nodes[m] == w.nodes[m] && Recorded(w', m) == Recorded(w, m)
  {
    DiscardElsewhere(env, w, n, h, m);
    AtDropElsewhere(w.locs, h, n, m);
  }

  ghost predicate AllBooksKept(env: Env, w: World, w': World) {
    forall n :: BooksKept(env, w, w', n)
  }

  lemma DiscardKeepsAllBooks(env: Env, w: World, n: NodeId, h: Hash)
    ensures AllBooksKept(env, w, Discard(env, w, n, h).0)
  {
    forall m ensures BooksKept(env, w, Discard(env, w, n, h).0, m) { DiscardKeepsBooks(env, w, n, h, m); }
  }

  lemma BooksKeptTrans(env: Env, a: World, b: World, c: World, n: NodeId)
    requires BooksKept(env, a, b, n) && BooksKept(env, b, c, n)
    ensures BooksKept(env, a, c, n)
  {
  }

  lemma AllBooksKeptTrans(env: Env, a: World, b: World, c: World)
    requires AllBooksKept(env, a, b) && AllBooksKept(env, b, c)
    ensures AllBooksKept(env, a, c)
  {
    forall n ensures BooksKept(env, a, c, n) {
      assert BooksKept(env, a, b, n) && BooksKept(env, b, c, n);
      BooksKeptTrans(env, a, b, c, n);
    }
  }

  /** Locations of these chunks go, and their bytes are given back. */
  ghost predicate Releases(env: Env, w: World, w': World, hs: set<Hash>) {
    Sheds(w, w', hs) && AllBooksKept(env, w, w')
  }

  lemma ReleasesRefl(env: Env, w: World, hs: set<Hash>)
    ensures Releases(env, w, w, hs)
  {
  }

  lemma ReleasesTrans(env: Env, a: World, b: World, c: World, hs: set<Hash>)
    requires Releases(env, a, b, hs) && Releases(env, b, c, hs)
    ensures Releases(env, a, c, hs)
  {
    ShedsTrans(a, b, c, hs);
    AllBooksKeptTrans(env, a, b, c);
  }

  lemma DiscardReleases(env: Env, w: World, n: NodeId, h: Hash, hs: set<Hash>)
    requires h in hs
    ensures Releases(env, w, Discard(env, w, n, h).0, hs)
  {
    DiscardSheds(env, w, n, h, hs);
    DiscardKeepsAllBooks(env, w, n, h);
  }

  /** All at once. */
  ghost predicate Cleans(env: Env, w: World, t: Tally, w': World, t': Tally, hs: set<Hash>) {
    Releases(env, w, w', hs) && ReportsDenied(env, w, t, w', t')
  }

  lemma CleansRefl(env: Env, w: World, t: Tally, hs: set<Hash>)
    ensures Cleans(env, w, t, w, t, hs)
  {
  }

  lemma CleansTrans(env: Env, a: World, ta: Tally, b: World, tb: Tally, c: World, tc: Tally, hs: set<Hash>)
    requires Cleans(env, a, ta, b, tb, hs) && Cleans(env, b, tb, c, tc, hs)
    ensures Cleans(env, a, ta, c, tc, hs)
  {
    ReleasesTrans(env, a, b, c, hs);
    ReportsDeniedTrans(env, a, ta, b, tb, c, tc);
  }

  lemma {:induction false} DropCopiesCleans(env: Env, w: World, h: Hash, nodes: seq<NodeId>, i: nat, t: Tally,
                                            hs: set<Hash>)
    requires i <= |nodes| && h in hs
    ensures var r := DropCopiesFrom(env, w, h, nodes, i, t);
            Cleans(env, w, t, r.0, r.1, hs)
    decreases |nodes| - i
  {
    if i == |nodes| {
      CleansRefl(env, w, t, hs);
    } else {
      var (w1, ok) := Discard(env, w, nodes[i], h);
      var t1 := Counted(t, Loc(h, nodes[i]), ok);
      var r := DropCopiesFrom(env, w1, h, nodes, i + 1, t1);
      DiscardReleases(env, w, nodes[i], h, hs);
      DiscardReportsDenied(env, w, nodes[i], h, t);
      DropCopiesCleans(env, w1, h, nodes, i + 1, t1, hs);
      CleansTrans(env, w, t, w1, t1, r.0, r.1, hs);
    }
  }

  lemma {:induction false} DropUnusedCleans(env: Env, w: World, at: World, hashes: seq<Hash>, i: nat, t: Tally,
                                            hs: set<Hash>)
    requires i <= |hashes| && Elements(hashes) == hs
    ensures var r := DropUnusedFrom(env, w, at, hashes, i, t);
            Cleans(env, w, t, r.0, r.1, hs)
    decreases |hashes| - i
  {
    if i == |hashes| {
      CleansRefl(env, w, t, hs);
    } else {
      var nodes := ChunkLocations(at, hashes[i]);
      var (w1, t1) := DropCopiesFrom(env, w, hashes[i], nodes, 0, t);
      var r := DropUnusedFrom(env, w1, at, hashes, i + 1, t1);
      assert hashes[i] in Elements(hashes);
      DropCopiesCleans(env, w, hashes[i], nodes, 0, t, hs);
      DropUnusedCleans(env, w1, at, hashes, i + 1, t1, hs);
      CleansTrans(env, w, t, w1, t1, r.0, r.1, hs);
    }
  }

  /**
   * The copies of the chunks in hs are deleted: of these chunks a location stays exactly if it is
   * reported, the number of deleted copies is the number of locations that went, the nodes no longer
   * hold those and have their bytes back, and a copy is reported only if its node denied a deletion.
   * No other location and no other chunk on a disk changes.
   */
  ghost predicate Freed(env: Env, w: World, w': World, t: Tally, hs: set<Hash>) {
    && w'.nodes.Keys == w.nodes.Keys && w'.now == w.now && OnlineNodes(w') == OnlineNodes(w)
    && (forall k :: k in w'.locs <==> k in w.locs && (k.hash in hs ==> k in t.failed))
    && (forall k :: k in w'.locs ==> w'.locs[k] == w.locs[k])
    && (forall k :: k in t.failed ==> k.hash in hs && Denied(env, w.calls, w'.calls, k.node))
    && |w'.locs| + t.deleted == |w.locs|
    && (forall k :: k in w.locs && k !in w'.locs ==> !Holds(w', k.node, k.hash))
    && (forall n, h :: h !in hs ==> (Holds(w', n, h) <==> Holds(w, n, h)))
    && (forall n, h :: Holds(w', n, h) ==> Holds(w, n, h) && StoreOf(w', n).chunks[h] == StoreOf(w, n).chunks[h])
    && AllBooksKept(env, w, w')
  }

  lemma DeletionFrees(env: Env, w: World, hashes: seq<Hash>, hs: set<Hash>)
    requires ForeignKeys(w) && NoDuplicates(hashes) && Elements(hashes) == hs
    ensures var (w', t) := DeleteUnusedChunks(env, w, hashes);
            Freed(env, w, w', t, hs) && w'.files == w.files
  {
    DeletionReport(env, w, hashes);
    DropUnusedCleans(env, w, w, hashes, 0, Tally(0, []), hs);
    assert forall h :: h in hs <==> h in hashes;
  }

  lemma FirstIsIn(s: seq<Loc>)
    ensures s == [] || s[0] in s
  {
  }

  /** Nobody denies a deletion: then nothing is left, neither in the tables nor on those disks. */
  lemma ObeyedFrees(env: Env, w: World, w': World, t: Tally, hs: set<Hash>)
    requires Freed(env, w, w', t, hs) && forall c: nat, n :: w.calls <= c < w'.calls ==> env.deletes(c, n) == Deleted
    ensures t.failed == [] && forall k :: k in w.locs && k.hash in hs ==> k !in w'.locs && !Holds(w', k.node, k.hash)
  {
    FirstIsIn(t.failed);
  }

  // ---- Deleting a file -----------------------------------------------------------------

  /** The chunks that a change of the files leaves without any file. */
  ghost function Lost(w: World, w': World): set<Hash> {
    InUse(w) - InUse(w')
  }

  lemma SameRowFitsBoth(env: Env, w: World, w': World, m: NodeId)
    requires m in w.nodes && m in w'.nodes && w'.nodes[m] == w.nodes[m] && w'.locs == w.locs
    ensures RowFits(env, w', m) <==> RowFits(env, w, m)
  {
  }

  lemma SameTablesBooks(env: Env, w: World, w1: World, w': World, n: NodeId)
    requires w1 == w.(files := w1.files) && BooksKept(env, w1, w', n)
    ensures BooksKept(env, w, w', n)
  {
    if n in w.nodes { SameRowFitsBoth(env, w, w1, n); }
  }

  lemma SameTablesAllBooks(env: Env, w: World, w1: World, w': World)
    requires w1 == w.(files := w1.files) && AllBooksKept(env, w1, w')
    ensures AllBooksKept(env, w, w')
  {
    forall n ensures BooksKept(env, w, w', n) {
      assert BooksKept(env, w1, w', n);
      SameTablesBooks(env, w, w1, w', n);
    }
  }

  /** The files do not matter to this. */
  lemma SameTablesFreed(env: Env, w: World, w1: World, w': World, t: Tally, hs: set<Hash>)
    requires w1 == w.(files := w1.files) && Freed(env, w1, w', t, hs)
    ensures Freed(env, w, w', t, hs)
  {
    SameTablesAllBooks(env, w, w1, w');
    SameDisks(w, w1);
  }

  lemma SameDisks(w: World, w1: World)
    requires w1 == w.(files := w1.files)
    ensures OnlineNodes(w1) == OnlineNodes(w)
    ensures forall n :: StoreOf(w1, n) == StoreOf(w, n)
    ensures forall n, h :: Holds(w1, n, h) == Holds(w, n, h)
  {
  }

  /**
   * Deleting a file that is there removes it and frees exactly the chunks that it was the last to
   * use; deleting one that is not there changes nothing.
   */
  lemma FileRemovalFrees(env: Env, w: World, id: FileId)
    requires ForeignKeys(w)
    ensures var (w', t) := RemoveFile(env, w, id);
            && (id !in w.files ==> t == None && w' == w)
            && (id in w.files ==>
                  && w'.files == w.files - {id} && t.Some?
                  && Freed(env, w, w', t.value, Lost(w, w')))
  {
    if id in w.files {
      DeleteFileListsUnused(w, id);
      var (w1, unused, ok) := DeleteFile(w, id);
      var (w', t) := DeleteUnusedChunks(env, w1, unused);
      DeletionFrees(env, w1, unused, Lost(w, w1));
      FrameKeepsUse(w1, w');
      SameTablesFreed(env, w, w1, w', t, Lost(w, w1));
    }
  }

  /** If the deletions are obeyed, no recorded copy of such a chunk is left, in the tables or on its node. */
  lemma ObeyedFileRemoval(env: Env, w: World, id: FileId)
    requires ForeignKeys(w) && id in w.files
    requires forall c: nat, n :: c >= w.calls ==> env.deletes(c, n) == Deleted
    ensures var (w', t) := RemoveFile(env, w, id);
            && t.Some? && t.value.failed == []
            && forall k :: k in w.locs && k.hash in Lost(w, w') ==> k !in w'.locs && !Holds(w', k.node, k.hash)
  {
    FileRemovalFrees(env, w, id);
    var (w', t) := RemoveFile(env, w, id);
    ObeyedFrees(env, w, w', t.value, Lost(w, w'));
  }

  // ---- Retention -----------------------------------------------------------------------

  lemma {:induction false} SweptAreFreed(env: Env, w: World, w1: World, w2: World, unused: seq<Hash>)
    requires Grounded(w) && w1 == w.(files := w1.files) && w2 == w1.(files := w2.files)
    requires ListsUnused(w1, w2, unused)
    ensures var (w', t) := DeleteUnusedChunks(env, w2, unused);
            Freed(env, w, w', t, Lost(w1, w'))
  {
    var (w', t) := DeleteUnusedChunks(env, w2, unused);
    DeletionFrees(env, w2, unused, Lost(w1, w2));
    FrameKeepsUse(w2, w');
    SameTablesFreed(env, w, w2, w', t, Lost(w1, w2));
  }

  lemma {:induction false} FinishIs(env: Env, w: World, id: FileId, req: FileRequest)
    requires id !in w.files
    ensures var w1, row := w.(files := w.files[id := NewRow(w, req)]), NewRow(w, req);
            var (w2, deleted, unused) := ApplyRetention(w1, row.backupName, row.retention);
            FinishUpload(env, w, id, req) == (DeleteUnusedChunks(env, w2, unused).0, Stored(deleted))
  {
  }

  lemma {:induction false} RetentionKeepsTables(w: World, backupName: Name, keep: int)
    ensures var w' := ApplyRetention(w, backupName, keep).0;
            w' == w.(files := w'.files)
  {
  }

  lemma {:induction false} FinishFrees(env: Env, w: World, id: FileId, req: FileRequest)
    requires R.Sane(env, w) && id !in w.files
    ensures var w', w1 := FinishUpload(env, w, id, req).0, w.(files := w.files[id := NewRow(w, req)]);
            exists t :: Freed(env, w, w', t, Lost(w1, w'))
  {
    var w1, row := w.(files := w.files[id := NewRow(w, req)]), NewRow(w, req);
    var (w2, deleted, unused) := ApplyRetention(w1, row.backupName, row.retention);
    RetentionListsUnused(w1, row.backupName, row.retention);
    RetentionKeepsTables(w1, row.backupName, row.retention);
    SweptAreFreed(env, w, w1, w2, unused);
    FinishIs(env, w, id, req);
  }

  /** From w to w' copies of these chunks may have been added, and nothing else happened to locations. */
  ghost predicate AddsOnly(w: World, w': World, hs: set<Hash>) {
    && (forall k :: k in w.locs ==> k in w'.locs)
    && (forall k :: k in w'.locs && k !in w.locs ==> k.hash in hs)
  }

  lemma {:induction false} LoopAddsOnly(env: Env, u: Upload, pieces: seq<Bytes>, i: nat, replication: int,
                                        hs: set<Hash>)
    requires i <= |pieces| && forall j :: 0 <= j < |pieces| ==> env.digest(pieces[j]) in hs
    ensures AddsOnly(u.w, BackupFrom(env, u, pieces, i, replication).0.w, hs)
    decreases |pieces| - i
  {
    if i < |pieces| {
      var (u1, ok) := BackupChunk(env, u, pieces[i], replication);
      ChunkGrows(env, u, pieces[i], replication);
      if ok { LoopAddsOnly(env, u1, pieces, i + 1, replication, hs); }
    }
  }

  /** The chunks of the new manifest stay in use: retention frees only what old files used. */
  lemma NewUse(env: Env, w: World, u: World, w': World, id: FileId, row: FileRow, pieces: seq<Bytes>)
    requires u.files == w.files && id !in w.files && id in w'.files && w'.files[id] == row
    requires ListsPieces(env, row.chunks, pieces)
    ensures var w1 := u.(files := u.files[id := row]);
            Lost(w1, w') == Lost(w, w') && DigestsOf(env, pieces, |pieces|) <= InUse(w')
  {
    var w1 := u.(files := u.files[id := row]);
    forall h | h in InUse(w1) && h !in InUse(w') ensures h in InUse(w) {
      var f, i :| f in w1.files && 0 <= i < |w1.files[f].chunks| && w1.files[f].chunks[i].hash == h;
      assert f == id ==> h in InUse(w');
      assert f in w.files && w.files[f].chunks[i].hash == h;
    }
    forall h | h in InUse(w) ensures h in InUse(w1) {
      var f, i :| f in w.files && 0 <= i < |w.files[f].chunks| && w.files[f].chunks[i].hash == h;
      assert f in w1.files && w1.files[f].chunks[i].hash == h;
    }
    forall h | h in DigestsOf(env, pieces, |pieces|) ensures h in InUse(w') {
      var j :| 0 <= j < |pieces| && env.digest(pieces[j]) == h;
      assert w'.files[id].chunks[j].hash == h;
    }
  }

  /** What a stored upload does to the locations that were there before. */
  ghost predicate FreedByRetention(env: Env, w: World, w': World) {
    forall k :: k in w.locs ==>
      if k.hash in Lost(w, w')
      then if k in w'.locs then Denied(env, w.calls, w'.calls, k.node) else !Holds(w', k.node, k.hash)
      else k in w'.locs
  }

  lemma LoopThenFreed(env: Env, w: World, u: World, w': World, t: Tally, hs: set<Hash>)
    requires AddsOnly(w, u, hs) && Freed(env, u, w', t, Lost(w, w')) && w.calls <= u.calls
    ensures FreedByRetention(env, w, w')
  {
    forall k | k in w.locs && k.hash in Lost(w, w') && k in w'.locs ensures Denied(env, w.calls, w'.calls, k.node) {
      DeniedLonger(env, w.calls, u.calls, w'.calls, w'.calls, k.node);
    }
  }

  /**
   * The versions that a stored upload's retention removes lose the chunks that nobody else uses: of
   * those a location stays only if its node denied a deletion, and where one goes the chunk has gone
   * from the node. The locations of all other chunks, unused ones included, stay.
   */
  lemma {:induction false} RetentionFrees(env: Env, w: World, id: FileId, req: UploadRequest)
    requires ValidGear(env.gear) && R.Sane(env, w) && BackupFile(env, w, id, req).1.Stored?
    ensures FreedByRetention(env, w, BackupFile(env, w, id, req).0)
  {
    var w', pieces := BackupFile(env, w, id, req).0, R.UploadPieces(env, req);
    var u := BackupFrom(env, StartUpload(w), pieces, 0, req.replication).0;
    R.UploadLoop(env, w, req);
    LoopAddsOnly(env, StartUpload(w), pieces, 0, req.replication, DigestsOf(env, pieces, |pieces|));
    FinishFrees(env, u.w, id, RequestFor(req, u));
    R.FinishLists(env, u.w, id, RequestFor(req, u));
    var row := NewRow(u.w, RequestFor(req, u));
    NewUse(env, w, u.w, w', id, row, pieces);
    var t :| Freed(env, u.w, w', t, Lost(u.w.(files := u.w.files[id := row]), w'));
    LoopThenFreed(env, w, u.w, w', t, DigestsOf(env, pieces, |pieces|));
  }
}
