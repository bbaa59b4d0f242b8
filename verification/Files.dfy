/** Manifests: versions, retention, and which chunks become unused when files go. */
module Files {
  import opened Model
  import opened Operations
  import opened Ordering
  import opened Queries

  // ---- Versions ------------------------------------------------------------------------

  /** No two files have the same backup name and version. */
  ghost predicate VersionsUnique(w: World) {
    forall f, g :: f in w.files && g in w.files && f != g && w.files[f].backupName == w.files[g].backupName
      ==> w.files[f].version != w.files[g].version
  }

  /** The next version is above every version the name has. */
  lemma NextVersionIsNewest(w: World, backupName: Name)
    ensures forall f :: f in Versions(w, backupName) ==> w.files[f].version < NextVersion(w, backupName)
  {
    var s := set f | f in w.files && w.files[f].backupName == backupName :: w.files[f].version;
    forall f | f in Versions(w, backupName) ensures w.files[f].version < NextVersion(w, backupName) {
      assert w.files[f].version in s;
    }
  }

  lemma CreateKeepsVersions(w: World, id: FileId, req: FileRequest)
    requires VersionsUnique(w)
    ensures VersionsUnique(CreateFile(w, id, req).0)
  {
    NextVersionIsNewest(w, NewRow(w, req).backupName);
    var w' := CreateFile(w, id, req).0;
    assert forall f :: f in w.files && w.files[f].backupName == NewRow(w, req).backupName
                       ==> f in Versions(w, NewRow(w, req).backupName);
  }

  // ---- Unused chunks -------------------------------------------------------------------

  /** The unused hashes found so far are those seen that no file uses, each once. */
  ghost predicate SweepOk(w: World, s: Sweep) {
    NoDuplicates(s.unused) && Elements(s.unused) == s.seen - InUse(w)
  }

  lemma SweepHashOk(w: World, s: Sweep, h: Hash)
    requires SweepOk(w, s)
    ensures SweepOk(w, SweepHash(w, s, h)) && SweepHash(w, s, h).seen == s.seen + {h}
  {
    if h !in s.seen && h !in InUse(w) {
      assert h !in Elements(s.unused);
      assert Elements(s.unused + [h]) == Elements(s.unused) + {h};
    }
  }

  ghost function HashesFrom(refs: seq<ChunkRef>, i: nat): set<Hash> {
    set j | i <= j < |refs| :: refs[j].hash
  }

  lemma {:induction false} SweepRefs(w: World, s: Sweep, refs: seq<ChunkRef>, i: nat)
    requires i <= |refs| && SweepOk(w, s)
    ensures SweepOk(w, SweepFrom(w, s, refs, i))
    ensures SweepFrom(w, s, refs, i).seen == s.seen + HashesFrom(refs, i)
    decreases |refs| - i
  {
    if i < |refs| {
      SweepHashOk(w, s, refs[i].hash);
      SweepRefs(w, SweepHash(w, s, refs[i].hash), refs, i + 1);
      assert HashesFrom(refs, i) == {refs[i].hash} + HashesFrom(refs, i + 1);
    }
  }

  ghost function UsedBy(rows: seq<FileRow>, i: nat): set<Hash> {
    set j, k | i <= j < |rows| && 0 <= k < |rows[j].chunks| :: rows[j].chunks[k].hash
  }

  lemma {:induction false} SweepRows(w: World, s: Sweep, rows: seq<FileRow>, i: nat)
    requires i <= |rows| && SweepOk(w, s)
    ensures SweepOk(w, SweepFilesFrom(w, s, rows, i))
    ensures SweepFilesFrom(w, s, rows, i).seen == s.seen + UsedBy(rows, i)
    decreases |rows| - i
  {
    if i < |rows| {
      SweepRefs(w, s, rows[i].chunks, 0);
      SweepRows(w, SweepFrom(w, s, rows[i].chunks, 0), rows, i + 1);
      assert UsedBy(rows, i) == HashesFrom(rows[i].chunks, 0) + UsedBy(rows, i + 1);
    }
  }

  /** The listed hashes are exactly those used before and not after, each once. */
  ghost predicate ListsUnused(w: World, w': World, unused: seq<Hash>) {
    NoDuplicates(unused) && Elements(unused) == InUse(w) - InUse(w')
  }

  ghost function UsedByFiles(w: World, ids: set<FileId>): set<Hash> {
    set f, k | f in ids && f in w.files && 0 <= k < |w.files[f].chunks| :: w.files[f].chunks[k].hash
  }

  lemma UseAfterRemoval(w: World, ids: set<FileId>)
    requires ids <= w.files.Keys
    ensures var w' := w.(files := w.files - ids);
            InUse(w) == InUse(w') + UsedByFiles(w, ids)
  {
    var w' := w.(files := w.files - ids);
    forall h | h in InUse(w) && h !in InUse(w')
      ensures h in UsedByFiles(w, ids)
    {
      var f, k :| f in w.files && 0 <= k < |w.files[f].chunks| && w.files[f].chunks[k].hash == h;
      assert f !in w'.files;
    }
  }

  lemma DeleteFileListsUnused(w: World, id: FileId)
    requires id in w.files
    ensures var (w', unused, ok) := DeleteFile(w, id);
            ok && w' == w.(files := w.files - {id}) && ListsUnused(w, w', unused)
  {
    var w' := w.(files := w.files - {id});
    SweepRefs(w', Sweep({}, []), w.files[id].chunks, 0);
    UseAfterRemoval(w, {id});
    assert UsedByFiles(w, {id}) == HashesFrom(w.files[id].chunks, 0);
  }

  // ---- Retention -----------------------------------------------------------------------

  /** Of the files of one name only the newest keep remain, and all files of other names do. */
  ghost predicate OnlyNewestRemain(w: World, w': World, backupName: Name, keep: nat) {
    && (forall f :: f in w'.files ==> f in w.files && w'.files[f] == w.files[f])
    && (forall f :: f in w.files && w.files[f].backupName != backupName ==> f in w'.files)
    && |Versions(w', backupName)| == Least(keep, |Versions(w, backupName)|)
    && (forall f, g :: f in Versions(w', backupName) && g in Versions(w, backupName) && g !in w'.files
          ==> w.files[f].version > w.files[g].version)
  }

  /** Retention does that and changes nothing else. */
  ghost predicate KeepsNewest(w: World, w': World, backupName: Name, keep: nat) {
    w' == w.(files := w'.files) && OnlyNewestRemain(w, w', backupName, keep)
  }

  /** Anything listed before the cut is newer than anything listed after it. */
  lemma EarlierIsNewer(w: World, backupName: Name, i: nat, j: nat)
    requires VersionsUnique(w) && i < j < |Enumerate(Versions(w, backupName), NewestFirst(w))|
    ensures var all := Enumerate(Versions(w, backupName), NewestFirst(w));
            all[i] in Versions(w, backupName) && all[j] in Versions(w, backupName)
            && w.files[all[i]].version > w.files[all[j]].version
  {
    var all := Enumerate(Versions(w, backupName), NewestFirst(w));
    Listed(Versions(w, backupName), all);
    assert Before(NewestFirst(w)(all[i]), NewestFirst(w)(all[j]));
    assert all[i] != all[j];
  }

  lemma OutdatedCount(w: World, backupName: Name, keep: nat)
    ensures var ids := Outdated(w, backupName, keep);
            var v := Versions(w, backupName);
            NoDuplicates(ids) && Elements(ids) <= v && |v - Elements(ids)| == Least(keep, |v|)
  {
    BeyondSplits(Versions(w, backupName), Enumerate(Versions(w, backupName), NewestFirst(w)), keep);
  }

  lemma BeyondSplits<T(!new)>(v: set<T>, all: seq<T>, keep: nat)
    requires NoDuplicates(all) && Lists(all, v) && |all| == |v|
    ensures var ids := Beyond(all, keep);
            NoDuplicates(ids) && Elements(ids) <= v && |v - Elements(ids)| == Least(keep, |v|)
  {
    if |all| <= keep {
      assert v - Elements(Beyond(all, keep)) == v;
    } else {
      assert Elements(all) == v;
      SplitListing(all, keep);
    }
  }

  lemma OutdatedAreOlder(w: World, backupName: Name, keep: nat, f: FileId, g: FileId)
    requires VersionsUnique(w) && f in Versions(w, backupName)
    requires f !in Outdated(w, backupName, keep) && g in Outdated(w, backupName, keep)
    ensures w.files[f].version > w.files[g].version
  {
    var all, ids := Enumerate(Versions(w, backupName), NewestFirst(w)), Outdated(w, backupName, keep);
    assert f in all;
    var i :| 0 <= i < |all| && all[i] == f;
    var j :| 0 <= j < |ids| && ids[j] == g;
    assert forall k :: keep <= k < |all| ==> all[k] == ids[k - keep];
    EarlierIsNewer(w, backupName, i, keep + j);
  }

  lemma SplitListing<T(!new)>(all: seq<T>, keep: nat)
    requires NoDuplicates(all) && keep < |all|
    ensures NoDuplicates(all[keep..]) && Elements(all[keep..]) <= Elements(all)
    ensures |Elements(all) - Elements(all[keep..])| == keep
  {
    var newest, oldest := all[..keep], all[keep..];
    assert all == newest + oldest;
    assert Elements(all) - Elements(oldest) == Elements(newest) by {
      forall x | x in newest ensures x !in oldest {
        var i :| 0 <= i < keep && all[i] == x;
        assert forall j :: 0 <= j < |oldest| ==> oldest[j] == all[keep + j] != x;
      }
    }
    SizeOfElements(newest);
  }

  lemma RetentionListsUnused(w: World, backupName: Name, keep: int)
    ensures var (w', ids, unused) := ApplyRetention(w, backupName, keep);
            ListsUnused(w, w', unused)
  {
    var (w', ids, unused) := ApplyRetention(w, backupName, keep);
    if backupName == NO_NAME || keep <= 0 {
      assert Elements<Hash>([]) == {};
    } else {
      SweepRows(w', Sweep({}, []), Manifests(w, ids), 0);
      UseAfterRemoval(w, Elements(ids));
      UsedByIds(w, ids);
    }
  }

  lemma UsedByIds(w: World, ids: seq<FileId>)
    requires forall i :: 0 <= i < |ids| ==> ids[i] in w.files
    ensures UsedBy(Manifests(w, ids), 0) == UsedByFiles(w, Elements(ids))
  {
    var rows := Manifests(w, ids);
    forall h | h in UsedByFiles(w, Elements(ids)) ensures h in UsedBy(rows, 0) {
      var f, k :| f in Elements(ids) && f in w.files && 0 <= k < |w.files[f].chunks| && w.files[f].chunks[k].hash == h;
      var j :| 0 <= j < |ids| && ids[j] == f;
      assert rows[j].chunks[k].hash == h;
    }
    forall h | h in UsedBy(rows, 0) ensures h in UsedByFiles(w, Elements(ids)) {
      var j, k :| 0 <= j < |rows| && 0 <= k < |rows[j].chunks| && rows[j].chunks[k].hash == h;
      var f := ids[j];
      assert f in Elements(ids) && f in w.files && w.files[f].chunks[k].hash == h;
    }
  }

  /** Retention keeps exactly the newest min(keep, count) versions of the name and no other file changes. */
  lemma RetentionKeepsNewest(w: World, backupName: Name, keep: int)
    requires VersionsUnique(w) && backupName != NO_NAME && keep > 0
    ensures KeepsNewest(w, ApplyRetention(w, backupName, keep).0, backupName, keep)
  {
    OutdatedCount(w, backupName, keep);
    var ids := Outdated(w, backupName, keep);
    var w' := ApplyRetention(w, backupName, keep).0;
    assert Versions(w', backupName) == Versions(w, backupName) - Elements(ids);
    forall f, g | f in Versions(w', backupName) && g in Versions(w, backupName) && g !in w'.files
      ensures w.files[f].version > w.files[g].version
    {
      OutdatedAreOlder(w, backupName, keep, f, g);
    }
  }

  /** The newest version always survives, so an upload never deletes itself. */
  lemma NewestSurvives(w: World, backupName: Name, keep: int, id: FileId)
    requires VersionsUnique(w) && id in Versions(w, backupName)
    requires forall f :: f in Versions(w, backupName) ==> w.files[f].version <= w.files[id].version
    ensures id in ApplyRetention(w, backupName, keep).0.files
  {
    if backupName != NO_NAME && keep > 0 {
      RetentionKeepsNewest(w, backupName, keep);
      NewestRemains(w, ApplyRetention(w, backupName, keep).0, backupName, keep, id);
    }
  }

  /** Some version remains, and the newest is not older than it. */
  lemma NewestRemains(w: World, w': World, backupName: Name, keep: nat, id: FileId)
    requires keep > 0 && OnlyNewestRemain(w, w', backupName, keep) && id in Versions(w, backupName)
    requires forall f :: f in Versions(w, backupName) ==> w.files[f].version <= w.files[id].version
    ensures id in w'.files
  {
    assert |Versions(w, backupName)| >= 1;
    var f := Pick(Versions(w', backupName));
    assert f in Versions(w, backupName);
  }

  lemma Pick<T>(s: set<T>) returns (e: T)
    requires |s| >= 1
    ensures e in s
  {
    e :| e in s;
  }
}
