/**
 * The scheduler's three queries as real joins over the tables, and the proof that grouping the
 * multiplied rows yields the simple numbers: desired copies, active copies, orphaned locations.
 */
module Queries {
  import opened Model
  import opened Ordering
  import opened Types

  /**
   * One row of file_chunks JOIN files LEFT JOIN chunk_locations LEFT JOIN nodes. The primary keys
   * of all four tables are in it, so distinct matches are distinct rows.
   */
  datatype JoinRow = JoinRow(file: FileId, index: nat, chunk: ChunkRef, replication: nat,
                             node: Option<NodeId>, seen: Option<int>)

  function SeenOf(w: World, n: NodeId): Option<int> {
    if n in w.nodes then Some(w.nodes[n].lastSeen) else None
  }

  function MatchedRows(w: World): set<JoinRow> {
    set f, i, k | f in w.files && 0 <= i < |w.files[f].chunks| && k in w.locs && k.hash == w.files[f].chunks[i].hash
      :: JoinRow(f, i, w.files[f].chunks[i], w.files[f].replication, Some(k.node), SeenOf(w, k.node))
  }

  function UnmatchedRows(w: World): set<JoinRow> {
    set f, i | f in w.files && 0 <= i < |w.files[f].chunks|
            && (forall k :: k in w.locs ==> k.hash != w.files[f].chunks[i].hash)
      :: JoinRow(f, i, w.files[f].chunks[i], w.files[f].replication, None, None)
  }

  function ChunkJoin(w: World): set<JoinRow> {
    MatchedRows(w) + UnmatchedRows(w)
  }

  function Cutoff(w: World): int { w.now - OFFLINE_AFTER }

  // GROUP BY hash
  function Groups(rows: set<JoinRow>): set<Hash> {
    set r | r in rows :: r.chunk.hash
  }

  // MAX(fc.size)
  function GroupSize(rows: set<JoinRow>, h: Hash): nat {
    MaxOf(set r | r in rows && r.chunk.hash == h :: r.chunk.size)
  }

  // MAX(f.replication)
  function GroupDesired(rows: set<JoinRow>, h: Hash): nat {
    MaxOf(set r | r in rows && r.chunk.hash == h :: r.replication)
  }

  // CASE WHEN n.last_seen >= cutoff THEN cl.node_id END
  predicate CountsAsActive(r: JoinRow, cutoff: int) {
    r.node.Some? && r.seen.Some? && r.seen.value >= cutoff
  }

  // COUNT(DISTINCT ...)
  function GroupActive(rows: set<JoinRow>, h: Hash, cutoff: int): nat {
    |set r | r in rows && r.chunk.hash == h && CountsAsActive(r, cutoff) :: r.node.value|
  }

  /** Every location references an existing node: the foreign key of chunk_locations. */
  ghost predicate ForeignKeys(w: World) {
    forall k :: k in w.locs ==> k.node in w.nodes
  }

  /** The join has a row for every place in every file where h is used, whatever it is matched with. */
  lemma RowForUse(w: World, f: FileId, i: nat)
    requires f in w.files && i < |w.files[f].chunks|
    ensures exists r :: r in ChunkJoin(w) && r.file == f && r.index == i
                     && r.chunk == w.files[f].chunks[i] && r.replication == w.files[f].replication
  {
    var c := w.files[f].chunks[i];
    if k :| k in w.locs && k.hash == c.hash {
      var r := JoinRow(f, i, c, w.files[f].replication, Some(k.node), SeenOf(w, k.node));
      assert r in MatchedRows(w);
    } else {
      var r := JoinRow(f, i, c, w.files[f].replication, None, None);
      assert r in UnmatchedRows(w);
    }
  }

  /** The groups are exactly the chunks in use. */
  lemma GroupsAreInUse(w: World)
    ensures Groups(ChunkJoin(w)) == InUse(w)
  {
    forall h | h in InUse(w) ensures h in Groups(ChunkJoin(w)) {
      var f, i :| f in w.files && 0 <= i < |w.files[f].chunks| && w.files[f].chunks[i].hash == h;
      RowForUse(w, f, i);
    }
  }

  /** Desired copies do not depend on how many locations multiply the rows. */
  lemma DesiredIsMax(w: World, h: Hash)
    ensures GroupDesired(ChunkJoin(w), h) == Desired(w, h)
  {
    var rows := ChunkJoin(w);
    var a := set r | r in rows && r.chunk.hash == h :: r.replication;
    var b := set f | f in w.files && h in HashesOf(w.files[f].chunks) :: w.files[f].replication;
    forall x | x in b ensures x in a {
      var f :| f in w.files && h in HashesOf(w.files[f].chunks) && w.files[f].replication == x;
      var i :| 0 <= i < |w.files[f].chunks| && w.files[f].chunks[i].hash == h;
      RowForUse(w, f, i);
    }
    forall x | x in a ensures x in b {
      var r :| r in rows && r.chunk.hash == h && r.replication == x;
      assert r.file in w.files && w.files[r.file].chunks[r.index] == r.chunk;
      assert h in HashesOf(w.files[r.file].chunks);
    }
    assert a == b;
  }

  /** Counting distinct nodes undoes the multiplication by the places that use the chunk. */
  lemma ActiveIsHolders(w: World, h: Hash)
    requires ForeignKeys(w) && h in InUse(w)
    ensures GroupActive(ChunkJoin(w), h, Cutoff(w)) == |Active(w, h)|
  {
    var rows := ChunkJoin(w);
    var a := set r | r in rows && r.chunk.hash == h && CountsAsActive(r, Cutoff(w)) :: r.node.value;
    forall n | n in Active(w, h) ensures n in a {
      var f, i :| f in w.files && 0 <= i < |w.files[f].chunks| && w.files[f].chunks[i].hash == h;
      var r := JoinRow(f, i, w.files[f].chunks[i], w.files[f].replication, Some(n), SeenOf(w, n));
      assert Loc(h, n) in w.locs && Loc(h, n).hash == h;
      assert r in MatchedRows(w);
    }
    forall n | n in a ensures n in Active(w, h) {
      var r :| r in rows && r.chunk.hash == h && CountsAsActive(r, Cutoff(w)) && r.node.value == n;
      assert r in MatchedRows(w);
    }
    assert a == Active(w, h);
  }

  // ---- Orphaned locations --------------------------------------------------------------

  datatype Use = Use(file: FileId, index: nat)

  /** One row of chunk_locations JOIN nodes LEFT JOIN file_chunks ON hash. */
  datatype LocationRow = LocationRow(loc: Loc, use: Option<Use>)

  function LocationJoin(w: World): set<LocationRow> {
    (set k, f, i | k in w.locs && k.node in w.nodes && f in w.files && 0 <= i < |w.files[f].chunks|
                && w.files[f].chunks[i].hash == k.hash :: LocationRow(k, Some(Use(f, i))))
    + (set k | k in w.locs && k.node in w.nodes && k.hash !in InUse(w) :: LocationRow(k, None))
  }

  // WHERE fc.hash IS NULL AND n.last_seen >= cutoff
  function OrphanRows(w: World): set<LocationRow> {
    set r | r in LocationJoin(w) && r.use.None? && r.loc.node in w.nodes
         && w.nodes[r.loc.node].lastSeen >= Cutoff(w)
  }

  function LocOrder(): LocationRow -> Key {
    (r: LocationRow) => Key(r.loc.hash as int, r.loc.node as int, if r.use.None? then 0 else 1)
  }

  /** Locations on online nodes whose chunk belongs to no file. */
  ghost function Orphans(w: World): set<Loc> {
    set k | k in w.locs && Online(w, k.node) && k.hash !in InUse(w)
  }

  /** The anti-join yields every orphaned location, and each of them in one row only. */
  lemma OrphanRowsAreOrphans(w: World)
    ensures forall k :: k in Orphans(w) <==> LocationRow(k, None) in OrphanRows(w)
    ensures forall r :: r in OrphanRows(w) ==> r.use == None
  {
  }

  function Limit(limit: int): nat {
    if limit <= 0 then TASK_LIMIT else limit
  }

  function OrphanChunkTasks(w: World, limit: int): seq<Loc> {
    var rows := Take(Enumerate(OrphanRows(w), LocOrder()), Limit(limit));
    seq(|rows|, i requires 0 <= i < |rows| => rows[i].loc)
  }

  // ---- Chunks with too many or too few copies ------------------------------------------

  function Excess(w: World, rows: set<JoinRow>): set<Hash> {
    set h | h in Groups(rows) && GroupActive(rows, h, Cutoff(w)) > GroupDesired(rows, h)
  }

  function Deficit(w: World, rows: set<JoinRow>): set<Hash> {
    set h | h in Groups(rows) && GroupActive(rows, h, Cutoff(w)) < GroupDesired(rows, h)
  }

  // ORDER BY active - desired DESC, hash
  function ExcessOrder(w: World, rows: set<JoinRow>): Hash -> Key {
    (h: Hash) => Key(GroupDesired(rows, h) - GroupActive(rows, h, Cutoff(w)), h as int, 0)
  }

  // ORDER BY desired - active DESC, hash
  function DeficitOrder(w: World, rows: set<JoinRow>): Hash -> Key {
    (h: Hash) => Key(GroupActive(rows, h, Cutoff(w)) - GroupDesired(rows, h), h as int, 0)
  }

  datatype PruneTask = PruneTask(hash: Hash, desired: nat, active: nat, extra: int, locations: seq<NodeId>)

  datatype RepairTask = RepairTask(hash: Hash, size: nat, desired: nat, active: nat, missing: int,
                                   sources: seq<NodeId>, candidates: seq<NodeId>)

  function PruneOrder(w: World): NodeId -> Key {
    (n: NodeId) => Key(Free(w, n), LastSeen(w, n), n as int)
  }

  /** The task for a row with these figures: its locations are looked up and ordered. */
  function PruneTaskWith(w: World, h: Hash, desired: nat, active: nat): PruneTask {
    PruneTask(h, desired, active, active - desired,
              Sort(OnlineOnly(w, ChunkLocations(w, h)), PruneOrder(w)))
  }

  function PruneTaskFor(w: World, rows: set<JoinRow>, h: Hash): PruneTask {
    PruneTaskWith(w, h, GroupDesired(rows, h), GroupActive(rows, h, Cutoff(w)))
  }

  function RepairTaskWith(w: World, h: Hash, size: nat, desired: nat, active: nat): RepairTask {
    RepairTask(h, size, desired, active, desired - active,
               OnlineOnly(w, ChunkLocations(w, h)), PlanChunkSpread(w, h, size, desired - active, map[]))
  }

  function RepairTaskFor(w: World, rows: set<JoinRow>, h: Hash): RepairTask {
    RepairTaskWith(w, h, GroupSize(rows, h), GroupDesired(rows, h), GroupActive(rows, h, Cutoff(w)))
  }

  function ExcessRows(w: World, rows: set<JoinRow>, limit: int): seq<Hash> {
    Take(Enumerate(Excess(w, rows), ExcessOrder(w, rows)), Limit(limit))
  }

  function DeficitRows(w: World, rows: set<JoinRow>, limit: int): seq<Hash> {
    Take(Enumerate(Deficit(w, rows), DeficitOrder(w, rows)), Limit(limit))
  }

  function PruneTasks(w: World, limit: int): seq<PruneTask> {
    var rows := ChunkJoin(w);
    var hashes := ExcessRows(w, rows, limit);
    seq(|hashes|, i requires 0 <= i < |hashes| => PruneTaskFor(w, rows, hashes[i]))
  }

  function ReplicationTasks(w: World, limit: int): seq<RepairTask> {
    var rows := ChunkJoin(w);
    var hashes := DeficitRows(w, rows, limit);
    seq(|hashes|, i requires 0 <= i < |hashes| => RepairTaskFor(w, rows, hashes[i]))
  }

  // ---- What the task lists are ---------------------------------------------------------

  /** The chunks in use with more, or with fewer, active copies than desired. */
  ghost function Overfull(w: World): set<Hash> {
    set h | h in InUse(w) && |Active(w, h)| > Desired(w, h)
  }

  ghost function Underfull(w: World): set<Hash> {
    set h | h in InUse(w) && |Active(w, h)| < Desired(w, h)
  }

  ghost function Least(limit: nat, n: nat): nat {
    if n > limit then limit else n
  }

  lemma GroupsRefine(w: World)
    requires ForeignKeys(w)
    ensures Excess(w, ChunkJoin(w)) == Overfull(w)
    ensures Deficit(w, ChunkJoin(w)) == Underfull(w)
  {
    var rows := ChunkJoin(w);
    GroupsAreInUse(w);
    forall h | h in InUse(w)
      ensures GroupDesired(rows, h) == Desired(w, h) && GroupActive(rows, h, Cutoff(w)) == |Active(w, h)|
    {
      DesiredIsMax(w, h);
      ActiveIsHolders(w, h);
    }
  }

  lemma TakePrefix<T>(r: seq<T>, limit: nat)
    requires NoDuplicates(r)
    ensures |Take(r, limit)| == Least(limit, |r|) && NoDuplicates(Take(r, limit))
    ensures forall i :: 0 <= i < |Take(r, limit)| ==> Take(r, limit)[i] == r[i] && r[i] in r
  {
  }

  /** The orphan list: that many distinct orphaned locations, and all of them if they fit. */
  lemma OrphanTasksAre(w: World, limit: int)
    ensures var r := OrphanChunkTasks(w, limit);
            && NoDuplicates(r) && |r| == Least(if limit <= 0 then 100 else limit, |Orphans(w)|)
            && forall i :: 0 <= i < |r| ==> r[i] in Orphans(w)
  {
    OrphanRowsAreOrphans(w);
    var listing := Enumerate(OrphanRows(w), LocOrder());
    TakePrefix(listing, Limit(limit));
    var rows, r := Take(listing, Limit(limit)), OrphanChunkTasks(w, limit);
    assert forall i :: 0 <= i < |r| ==> r[i] == rows[i].loc && rows[i] == LocationRow(r[i], None);
    OrphanCount(w);
  }

  lemma OrphanCount(w: World)
    ensures |OrphanRows(w)| == |Orphans(w)|
  {
    OrphanRowsAreOrphans(w);
    var image := set k | k in Orphans(w) :: LocationRow(k, None);
    assert image == OrphanRows(w);
    ImageSize(Orphans(w));
  }

  lemma {:induction false} ImageSize(s: set<Loc>)
    ensures |set k | k in s :: LocationRow(k, None)| == |s|
    decreases |s|
  {
    if s != {} {
      var e :| e in s;
      ImageSize(s - {e});
      assert (set k | k in s :: LocationRow(k, None))
          == (set k | k in s - {e} :: LocationRow(k, None)) + {LocationRow(e, None)};
    }
  }

  lemma {:induction false} OnlineLocationsAreActive(w: World, h: Hash)
    ensures Elements(OnlineOnly(w, ChunkLocations(w, h))) == Active(w, h)
    ensures Lists(OnlineOnly(w, ChunkLocations(w, h)), Active(w, h))
  {
    var list := OnlineOnly(w, ChunkLocations(w, h));
    forall n ensures n in list <==> n in Active(w, h) { OnlineLocation(w, h, n); }
  }

  lemma {:induction false} OnlineLocation(w: World, h: Hash, n: NodeId)
    ensures n in OnlineOnly(w, ChunkLocations(w, h)) <==> n in Active(w, h)
  {
    var holders := ChunkLocations(w, h);
    assert n in holders <==> n in w.nodes && Loc(h, n) in w.locs;
  }

  ghost predicate IsPruneTask(w: World, t: PruneTask) {
    && t.hash in Overfull(w) && t.desired == Desired(w, t.hash) && t.active == |Active(w, t.hash)|
    && t.extra == t.active - t.desired
    && Lists(t.locations, Active(w, t.hash)) && NoDuplicates(t.locations) && |t.locations| == t.active
    && forall i, j :: 0 <= i < j < |t.locations| ==> PrunedBefore(w, t.locations[i], t.locations[j])
  }

  /** Of two holders the one with less free space loses its copy first, then the one not seen for longer. */
  ghost predicate PrunedBefore(w: World, x: NodeId, y: NodeId) {
    && x in w.nodes && y in w.nodes
    && (|| w.nodes[x].free < w.nodes[y].free
        || (w.nodes[x].free == w.nodes[y].free && w.nodes[x].lastSeen < w.nodes[y].lastSeen)
        || (w.nodes[x].free == w.nodes[y].free && w.nodes[x].lastSeen == w.nodes[y].lastSeen && x < y))
  }

  lemma PruneOrderIs(w: World, x: NodeId, y: NodeId)
    requires x in w.nodes && y in w.nodes
    ensures Before(PruneOrder(w)(x), PruneOrder(w)(y)) <==> PrunedBefore(w, x, y)
  {
  }

  lemma LocationsOrdered(w: World, h: Hash, locations: seq<NodeId>)
    requires Lists(locations, Active(w, h)) && Ascending(locations, PruneOrder(w))
    ensures forall i, j :: 0 <= i < j < |locations| ==> PrunedBefore(w, locations[i], locations[j])
  {
    forall i, j | 0 <= i < j < |locations| ensures PrunedBefore(w, locations[i], locations[j]) {
      assert locations[i] in locations && locations[j] in locations;
      PruneOrderIs(w, locations[i], locations[j]);
    }
  }

  lemma PruneTaskIs(w: World, h: Hash)
    requires ForeignKeys(w) && h in Overfull(w)
    ensures IsPruneTask(w, PruneTaskFor(w, ChunkJoin(w), h))
  {
    DesiredIsMax(w, h);
    ActiveIsHolders(w, h);
    OnlineLocationsAreActive(w, h);
    LocationsOrdered(w, h, PruneTaskFor(w, ChunkJoin(w), h).locations);
  }

  /** The prune list: the overfull chunks, worst first, each with all its active holders. */
  lemma PruneTasksAre(w: World, limit: int)
    requires ForeignKeys(w)
    ensures |PruneTasks(w, limit)| == Least(if limit <= 0 then 100 else limit, |Overfull(w)|)
    ensures forall i :: 0 <= i < |PruneTasks(w, limit)| ==> IsPruneTask(w, PruneTasks(w, limit)[i])
    ensures forall i, j :: 0 <= i < j < |PruneTasks(w, limit)| ==>
              PruneTasks(w, limit)[i].hash != PruneTasks(w, limit)[j].hash
  {
    GroupsRefine(w);
    var rows, r := ChunkJoin(w), PruneTasks(w, limit);
    var listing := Enumerate(Excess(w, rows), ExcessOrder(w, rows));
    TakePrefix(listing, Limit(limit));
    forall i | 0 <= i < |r| ensures r[i].hash == listing[i] && IsPruneTask(w, r[i]) {
      PruneTaskIs(w, listing[i]);
    }
  }

  ghost predicate IsRepairTask(w: World, t: RepairTask) {
    && t.hash in Underfull(w) && t.desired == Desired(w, t.hash) && t.active == |Active(w, t.hash)|
    && t.missing == t.desired - t.active
    && t.size == GroupSize(ChunkJoin(w), t.hash)
    && Lists(t.sources, Active(w, t.hash))
    && t.candidates == PlanChunkSpread(w, t.hash, t.size, t.missing, map[])
  }

  lemma RepairTaskIs(w: World, h: Hash)
    requires ForeignKeys(w) && h in Underfull(w)
    ensures IsRepairTask(w, RepairTaskFor(w, ChunkJoin(w), h))
  {
    GroupFigures(w, h);
    RepairTaskWithIs(w, h, GroupSize(ChunkJoin(w), h));
  }

  lemma RepairTaskWithIs(w: World, h: Hash, size: nat)
    requires h in Underfull(w) && size == GroupSize(ChunkJoin(w), h)
    ensures IsRepairTask(w, RepairTaskWith(w, h, size, Desired(w, h), |Active(w, h)|))
  {
    OnlineLocationsAreActive(w, h);
  }

  lemma GroupFigures(w: World, h: Hash)
    requires ForeignKeys(w) && h in InUse(w)
    ensures GroupDesired(ChunkJoin(w), h) == Desired(w, h)
    ensures GroupActive(ChunkJoin(w), h, Cutoff(w)) == |Active(w, h)|
  {
    DesiredIsMax(w, h);
    ActiveIsHolders(w, h);
  }

  /** The repair list: the underfull chunks, worst first. */
  lemma ReplicationTasksAre(w: World, limit: int)
    requires ForeignKeys(w)
    ensures |ReplicationTasks(w, limit)| == Least(if limit <= 0 then 100 else limit, |Underfull(w)|)
    ensures forall i :: 0 <= i < |ReplicationTasks(w, limit)| ==> IsRepairTask(w, ReplicationTasks(w, limit)[i])
    ensures forall i, j :: 0 <= i < j < |ReplicationTasks(w, limit)| ==>
              ReplicationTasks(w, limit)[i].hash != ReplicationTasks(w, limit)[j].hash
  {
    GroupsRefine(w);
    var rows, r := ChunkJoin(w), ReplicationTasks(w, limit);
    var listing := Enumerate(Deficit(w, rows), DeficitOrder(w, rows));
    TakePrefix(listing, Limit(limit));
    forall i | 0 <= i < |r| ensures r[i].hash == listing[i] && IsRepairTask(w, r[i]) {
      RepairTaskIs(w, listing[i]);
    }
  }

  // ---- Their order ---------------------------------------------------------------------

  /** g is further above its desired copies than h, or as far and of smaller hash. */
  ghost predicate MoreOver(w: World, g: Hash, h: Hash) {
    var x, y := |Active(w, g)| - Desired(w, g), |Active(w, h)| - Desired(w, h);
    x > y || (x == y && g < h)
  }

  /** g misses more copies than h, or as many and has the smaller hash. */
  ghost predicate MoreUnder(w: World, g: Hash, h: Hash) {
    var x, y := Desired(w, g) - |Active(w, g)|, Desired(w, h) - |Active(w, h)|;
    x > y || (x == y && g < h)
  }

  lemma ExcessOrderIs(w: World, g: Hash, h: Hash)
    requires ForeignKeys(w) && g in InUse(w) && h in InUse(w)
    ensures var key := ExcessOrder(w, ChunkJoin(w));
            Before(key(g), key(h)) <==> MoreOver(w, g, h)
  {
    GroupFigures(w, g);
    GroupFigures(w, h);
  }

  lemma DeficitOrderIs(w: World, g: Hash, h: Hash)
    requires ForeignKeys(w) && g in InUse(w) && h in InUse(w)
    ensures var key := DeficitOrder(w, ChunkJoin(w));
            Before(key(g), key(h)) <==> MoreUnder(w, g, h)
  {
    GroupFigures(w, g);
    GroupFigures(w, h);
  }

  /** A list is in this order and what the limit cuts off comes after all of it. */
  ghost predicate WorstFirst(r: seq<Hash>, all: set<Hash>, worse: (Hash, Hash) -> bool) {
    && (forall i, j :: 0 <= i < j < |r| ==> worse(r[i], r[j]))
    && (forall g, h :: g in r && h in all && h !in r ==> worse(g, h))
  }

  lemma OrderedWorst(all: set<Hash>, key: Hash -> Key, r: seq<Hash>, worse: (Hash, Hash) -> bool)
    requires Ascending(r, key) && forall i :: 0 <= i < |r| ==> r[i] in all
    requires forall g, h :: g in r && h in all && h !in r ==> Before(key(g), key(h))
    requires forall g, h :: g in all && h in all && Before(key(g), key(h)) ==> worse(g, h)
    ensures WorstFirst(r, all, worse)
  {
    forall i, j | 0 <= i < j < |r| ensures worse(r[i], r[j]) {
      var g, h := r[i], r[j];
      assert g in all && h in all && Before(key(g), key(h));
      assert worse(g, h);
    }
    forall g, h | g in r && h in all && h !in r ensures worse(g, h) {
      var i :| 0 <= i < |r| && r[i] == g;
      assert r[i] in all;
    }
  }

  lemma {:induction false} TakenWorst(all: set<Hash>, key: Hash -> Key, limit: nat, worse: (Hash, Hash) -> bool)
    requires Distinguishes(key, all)
    requires forall g, h :: g in all && h in all && Before(key(g), key(h)) ==> worse(g, h)
    ensures WorstFirst(Take(Enumerate(all, key), limit), all, worse)
  {
    TakenFirst(all, key, limit);
    TakenFrom(all, key, limit);
    OrderedWorst(all, key, Take(Enumerate(all, key), limit), worse);
  }

  lemma {:induction false} TakenFrom(all: set<Hash>, key: Hash -> Key, limit: nat)
    requires Distinguishes(key, all)
    ensures forall i :: 0 <= i < |Take(Enumerate(all, key), limit)| ==> Take(Enumerate(all, key), limit)[i] in all
  {
    TakePrefix(Enumerate(all, key), limit);
  }

  lemma ExcessRowsWorst(w: World, limit: int)
    requires ForeignKeys(w)
    ensures WorstFirst(ExcessRows(w, ChunkJoin(w), limit), Overfull(w), (g, h) => MoreOver(w, g, h))
  {
    GroupsRefine(w);
    var key := ExcessOrder(w, ChunkJoin(w));
    forall g, h | g in Overfull(w) && h in Overfull(w) && Before(key(g), key(h)) ensures MoreOver(w, g, h) {
      ExcessOrderIs(w, g, h);
    }
    TakenWorst(Overfull(w), key, Limit(limit), (g, h) => MoreOver(w, g, h));
  }

  lemma DeficitRowsWorst(w: World, limit: int)
    requires ForeignKeys(w)
    ensures WorstFirst(DeficitRows(w, ChunkJoin(w), limit), Underfull(w), (g, h) => MoreUnder(w, g, h))
  {
    GroupsRefine(w);
    var key := DeficitOrder(w, ChunkJoin(w));
    forall g, h | g in Underfull(w) && h in Underfull(w) && Before(key(g), key(h)) ensures MoreUnder(w, g, h) {
      DeficitOrderIs(w, g, h);
    }
    TakenWorst(Underfull(w), key, Limit(limit), (g, h) => MoreUnder(w, g, h));
  }

  ghost function PrunedHashes(tasks: seq<PruneTask>): seq<Hash> {
    seq(|tasks|, i requires 0 <= i < |tasks| => tasks[i].hash)
  }

  ghost function RepairedHashes(tasks: seq<RepairTask>): seq<Hash> {
    seq(|tasks|, i requires 0 <= i < |tasks| => tasks[i].hash)
  }

  lemma PrunedHashesAre(w: World, limit: int)
    ensures PrunedHashes(PruneTasks(w, limit)) == ExcessRows(w, ChunkJoin(w), limit)
  {
  }

  lemma RepairedHashesAre(w: World, limit: int)
    ensures RepairedHashes(ReplicationTasks(w, limit)) == DeficitRows(w, ChunkJoin(w), limit)
  {
  }

  /** The prune list starts with the chunk furthest above its desired copies, and the limit cuts off the least. */
  lemma PruneTasksWorstFirst(w: World, limit: int)
    requires ForeignKeys(w)
    ensures WorstFirst(PrunedHashes(PruneTasks(w, limit)), Overfull(w), (g, h) => MoreOver(w, g, h))
  {
    ExcessRowsWorst(w, limit);
    PrunedHashesAre(w, limit);
  }

  /** The repair list starts with the chunk that misses most copies, and the limit cuts off the least. */
  lemma RepairTasksWorstFirst(w: World, limit: int)
    requires ForeignKeys(w)
    ensures WorstFirst(RepairedHashes(ReplicationTasks(w, limit)), Underfull(w), (g, h) => MoreUnder(w, g, h))
  {
    DeficitRowsWorst(w, limit);
    RepairedHashesAre(w, limit);
  }

  /** x comes before y by hash, then node. */
  ghost predicate LocBefore(x: Loc, y: Loc) {
    x.hash < y.hash || (x.hash == y.hash && x.node < y.node)
  }

  lemma Unlisted(rows: seq<LocationRow>, r: seq<Loc>, k: Loc)
    requires |r| == |rows| && forall i :: 0 <= i < |r| ==> rows[i] == LocationRow(r[i], None)
    ensures LocationRow(k, None) in rows ==> k in r
  {
    if LocationRow(k, None) in rows {
      var j :| 0 <= j < |rows| && rows[j] == LocationRow(k, None);
      assert r[j] == k;
    }
  }

  lemma LocOrderIs(x: Loc, y: Loc)
    ensures Before(LocOrder()(LocationRow(x, None)), LocOrder()(LocationRow(y, None))) ==> LocBefore(x, y)
  {
  }

  lemma RowsInOrder(all: set<LocationRow>, rows: seq<LocationRow>, r: seq<Loc>, orphans: set<Loc>)
    requires |r| == |rows| && forall i :: 0 <= i < |r| ==> rows[i] == LocationRow(r[i], None)
    requires forall k :: k in orphans ==> LocationRow(k, None) in all
    requires Ascending(rows, LocOrder())
    requires forall x, y :: x in rows && y in all && y !in rows ==> Before(LocOrder()(x), LocOrder()(y))
    ensures forall i, j :: 0 <= i < j < |r| ==> LocBefore(r[i], r[j])
    ensures forall i, k :: 0 <= i < |r| && k in orphans && k !in r ==> LocBefore(r[i], k)
  {
    forall i, j | 0 <= i < j < |r| ensures LocBefore(r[i], r[j]) { LocOrderIs(r[i], r[j]); }
    forall i, k | 0 <= i < |r| && k in orphans && k !in r ensures LocBefore(r[i], k) {
      Unlisted(rows, r, k);
      assert rows[i] in rows;
      LocOrderIs(r[i], k);
    }
  }

  /** The orphan list is in order of hash and node, and the limit cuts off the last. */
  lemma OrphanTasksInOrder(w: World, limit: int)
    ensures var r := OrphanChunkTasks(w, limit);
            && (forall i, j :: 0 <= i < j < |r| ==> LocBefore(r[i], r[j]))
            && (forall i, k :: 0 <= i < |r| && k in Orphans(w) && k !in r ==> LocBefore(r[i], k))
  {
    OrphanRowsAreOrphans(w);
    var all, r := OrphanRows(w), OrphanChunkTasks(w, limit);
    var rows := Take(Enumerate(all, LocOrder()), Limit(limit));
    TakenFirst(all, LocOrder(), Limit(limit));
    TakePrefix(Enumerate(all, LocOrder()), Limit(limit));
    assert forall i :: 0 <= i < |r| ==> rows[i] in rows && rows[i] == LocationRow(r[i], None);
    RowsInOrder(all, rows, r, Orphans(w));
  }

  /** No chunk is in two task lists at once. */
  lemma TaskListsDisjoint(w: World)
    requires ForeignKeys(w)
    ensures forall i, j, k ::
      && 0 <= i < |OrphanChunkTasks(w, TASK_LIMIT)| && 0 <= j < |PruneTasks(w, TASK_LIMIT)|
      && 0 <= k < |ReplicationTasks(w, TASK_LIMIT)| ==>
        && OrphanChunkTasks(w, TASK_LIMIT)[i].hash != PruneTasks(w, TASK_LIMIT)[j].hash
        && PruneTasks(w, TASK_LIMIT)[j].hash != ReplicationTasks(w, TASK_LIMIT)[k].hash
        && OrphanChunkTasks(w, TASK_LIMIT)[i].hash != ReplicationTasks(w, TASK_LIMIT)[k].hash
  {
    OrphanTasksAre(w, TASK_LIMIT);
    PruneTasksAre(w, TASK_LIMIT);
    ReplicationTasksAre(w, TASK_LIMIT);
  }

  /** There is no work exactly when every chunk in use has its copies and no orphan is reachable. */
  lemma NoWorkIff(w: World, limit: int)
    requires ForeignKeys(w)
    ensures OrphanChunkTasks(w, limit) == [] && PruneTasks(w, limit) == [] && ReplicationTasks(w, limit) == []
       <==> Orphans(w) == {} && forall h :: h in InUse(w) ==> |Active(w, h)| == Desired(w, h)
  {
    OrphanTasksAre(w, limit);
    PruneTasksAre(w, limit);
    ReplicationTasksAre(w, limit);
    if Overfull(w) == {} && Underfull(w) == {} {
      forall h | h in InUse(w) ensures |Active(w, h)| == Desired(w, h) {
        assert h !in Overfull(w) && h !in Underfull(w);
      }
    }
  }
}
