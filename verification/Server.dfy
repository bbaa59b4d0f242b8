/**
 * The server as it runs: tables updated in place, loops over tasks and nodes, one node call after
 * the other. Every method is tied to the operation it implements.
 */
module Server {
  import opened Chunker
  import opened Files
  import opened Invariants
  import opened Model
  import opened Operations
  import opened Ordering
  import Q = Queries
  import opened Runs
  import opened Scheduler
  import opened Types

  /** How reading an upload ended. */
  datatype StreamEnd = StreamEnded | StreamBroke | ChunkRefused

  /** The online nodes of list[i..]. */
  ghost function OnlineFrom(w: World, list: seq<NodeId>, i: nat): seq<NodeId>
    requires i <= |list|
    decreases |list| - i
  {
    if i == |list| then [] else (if Online(w, list[i]) then [list[i]] else []) + OnlineFrom(w, list, i + 1)
  }

  lemma {:induction false} OnlineFromIs(w: World, list: seq<NodeId>, i: nat)
    requires i <= |list| && NoDuplicates(list) && NoDuplicates(list[i..])
    ensures OnlineFrom(w, list, i) == OnlineOnly(w, list[i..])
    decreases |list| - i
  {
    if i < |list| {
      assert list[i..][1..] == list[i + 1..];
      OnlineFromIs(w, list, i + 1);
    }
  }

  ghost function RequestOf(filename: Name, backupName: Name, chunkSize: int, replication: int, retention: int,
                           stream: Bytes, reader: Reader): UploadRequest
  {
    UploadRequest(filename, backupName, chunkSize, replication, retention, stream, reader.broken)
  }

  /** What placing a chunk does to the cluster and the counts. */
  ghost function Placed(env: Env, w: World, counts: map<NodeId, nat>, h: Hash, data: Bytes, replication: int)
    : (World, map<NodeId, nat>, bool)
  {
    var missing := MissingCopies(w, h, replication);
    if missing <= 0 then (w, counts, true) else
      var nodes := PlanChunkSpread(w, h, |data|, missing, counts);
      if |nodes| < missing then (w, counts, false) else PlaceFrom(env, w, counts, nodes, 0, h, data)
  }

  lemma TalliedIs(u: Operations.Upload, h: Hash, size: nat)
    ensures var reused := h in u.seen || h in InUse(u.w);
            Tallied(u, h, size) == Operations.Upload(u.w, u.counts, u.seen + {h}, u.refs, u.size,
              if reused then u.newBytes else u.newBytes + size, if reused then u.reusedBytes + size else u.reusedBytes)
  {
  }

  /** What the rest of the round makes of the variables v after counting. */
  lemma StoredChunkIs(env: Env, u: Operations.Upload, v: Operations.Upload, data: Bytes, replication: int)
    requires v == Tallied(u, env.digest(data), |data|)
    ensures var h := env.digest(data);
            var p := Placed(env, v.w, v.counts, h, data, replication);
            var placed := v.(w := p.0, counts := p.1);
            BackupChunk(env, u, data, replication) == (if p.2 then Appended(placed, h, |data|) else placed, p.2)
  {
    PlaceChunkIsPlaced(env, v, env.digest(data), data, replication);
  }

  lemma PlaceChunkIsPlaced(env: Env, u: Operations.Upload, h: Hash, data: Bytes, replication: int)
    ensures var p := Placed(env, u.w, u.counts, h, data, replication);
            PlaceChunk(env, u, h, data, replication) == (u.(w := p.0, counts := p.1), p.2)
  {
  }

  class Cluster {
    const env: Env
    var nodes: map<NodeId, NodeRow>
    var files: map<FileId, FileRow>
    var locs: map<Loc, nat>
    var stores: map<NodeId, Store>
    var now: int
    var calls: nat

    constructor (env: Env)
      ensures View() == EMPTY_WORLD && this.env == env
    {
      this.env := env;
      nodes, files, locs, stores, now, calls := map[], map[], map[], map[], 0, 0;
    }

    function View(): World
      reads this
    {
      World(nodes, files, locs, stores, now, calls)
    }

    // ---- Node calls --------------------------------------------------------------------

    method PutChunk(n: NodeId, h: Hash, data: Bytes) returns (ok: bool)
      modifies this
      ensures (View(), ok) == PutCall(env, old(View()), n, h, data)
      ensures ok ==> env.digest(data) == h && Holds(View(), n, h) && StoreOf(View(), n).chunks[h] == data
    {
      var reply := env.replies(calls, n);
      var stored := (reply.Obey? || reply.LoseReply?) && Accepts(env, View(), n, h, data);
      if stored {
        stores := stores[n := Write(StoreOf(View(), n), h, data)];
      }
      calls := calls + 1;
      ok := stored && reply.Obey?;
    }

    method DeleteChunk(n: NodeId, h: Hash) returns (ok: bool)
      modifies this
      ensures (View(), ok) == DeleteCall(env, old(View()), n, h)
      ensures ok ==> !Holds(View(), n, h)
      ensures DeletesAnswered(env) && !ok ==> stores == old(stores)
    {
      var deletion := env.deletes(calls, n);
      if !deletion.Kept? {
        stores := stores[n := Erase(StoreOf(View(), n), h)];
      }
      calls := calls + 1;
      ok := deletion.Deleted?;
    }

    method GetChunk(n: NodeId, h: Hash) returns (body: Option<Bytes>)
      modifies this
      ensures (View(), body) == GetCall(env, old(View()), n, h)
    {
      match env.replies(calls, n) {
        case Obey => body := if Holds(View(), n, h) then Some(StoreOf(View(), n).chunks[h]) else None;
        case Forge(d) => body := Some(d);
        case _ => body := None;
      }
      calls := calls + 1;
    }

    method ClearNodeStorage(n: NodeId) returns (ok: bool)
      modifies this
      ensures (View(), ok) == ClearCall(env, old(View()), n)
    {
      var reply := env.replies(calls, n);
      stores := stores[n := AfterClear(StoreOf(View(), n), reply)];
      calls := calls + 1;
      ok := reply.Obey?;
    }

    method FetchFromAny(sources: seq<NodeId>, h: Hash) returns (body: Option<Bytes>)
      modifies this
      ensures (View(), body) == Operations.FetchFromAny(env, old(View()), sources, 0, h)
    {
      body := None;
      var i := 0;
      while i < |sources|
        invariant i <= |sources|
        invariant Operations.FetchFromAny(env, old(View()), sources, 0, h)
               == Operations.FetchFromAny(env, View(), sources, i, h)
        invariant body == None
      {
        body := GetChunk(sources[i], h);
        if body.Some? {
          return;
        }
        i := i + 1;
      }
    }

    // ---- Nodes and locations -----------------------------------------------------------

    method RegisterNode(n: NodeId, capacity: int, free: int)
      modifies this
      ensures View() == Model.RegisterNode(old(View()), n, capacity, free)
      ensures n in nodes && nodes[n] == NodeRow(capacity, free, now)
      ensures forall m :: m != n ==> (m in nodes <==> m in old(nodes)) && (m in nodes ==> nodes[m] == old(nodes)[m])
      ensures Online(View(), n) && forall m :: Online(old(View()), m) ==> Online(View(), m)
    {
      nodes := nodes[n := NodeRow(capacity, free, now)];
    }

    method DeleteNode(n: NodeId) returns (ok: bool)
      modifies this
      ensures View() == Model.DeleteNode(old(View()), n) && ok == (n in old(nodes))
      ensures ok ==> n !in nodes && forall k :: k in locs <==> k in old(locs) && k.node != n
    {
      ok := n in nodes;
      if ok {
        locs := map k | k in locs && k.node != n :: locs[k];
        nodes := nodes - {n};
      }
    }

    method RemoveNode(n: NodeId, purge: bool) returns (ok: bool)
      modifies this
      ensures (View(), ok) == Operations.RemoveNode(env, old(View()), n, purge)
    {
      if purge {
        if n !in nodes {
          return false;
        }
        var cleared := ClearNodeStorage(n);
        if !cleared {
          return false;
        }
      }
      ok := DeleteNode(n);
    }

    method ConfirmChunk(h: Hash, size: nat, n: NodeId) returns (ok: bool)
      modifies this
      ensures (View(), ok) == Model.ConfirmChunk(old(View()), h, size, n)
      ensures ok <==> n in old(nodes)
      ensures ok ==> n in nodes && Loc(h, n) in locs
      ensures forall k :: k in old(locs) ==> k in locs && locs[k] == old(locs)[k]
      ensures ok && Loc(h, n) !in old(locs) ==>
                && locs[Loc(h, n)] == size && nodes[n].capacity == old(nodes)[n].capacity && nodes[n].lastSeen == now
                && nodes[n].free == if old(nodes)[n].free >= size then old(nodes)[n].free - size else 0
    {
      if n !in nodes {
        return false;
      }
      if Loc(h, n) !in locs {
        locs := locs[Loc(h, n) := size];
        var row := nodes[n];
        nodes := nodes[n := NodeRow(row.capacity, if row.free - size < 0 then 0 else row.free - size, now)];
      }
      ok := true;
    }

    method RemoveChunkLocation(h: Hash, n: NodeId)
      modifies this
      ensures View() == Model.RemoveChunkLocation(old(View()), h, n)
      ensures forall k :: k in locs <==> k in old(locs) && k != Loc(h, n)
      ensures n in old(nodes) && Loc(h, n) in old(locs) ==>
                var free := old(nodes)[n].free + old(locs)[Loc(h, n)];
                free <= old(nodes)[n].capacity ==> n in nodes && nodes[n].free == free
    {
      if Loc(h, n) in locs {
        var size := locs[Loc(h, n)];
        locs := locs - {Loc(h, n)};
        if size > 0 && n in nodes {
          var row := nodes[n];
          var free := if row.free + size > row.capacity then row.capacity else row.free + size;
          nodes := nodes[n := NodeRow(row.capacity, free, row.lastSeen)];
        }
      }
    }

    method OnlineNodes(list: seq<NodeId>) returns (online: seq<NodeId>)
      requires NoDuplicates(list)
      ensures online == OnlineOnly(View(), list)
    {
      online := [];
      for i := 0 to |list|
        invariant online + OnlineFrom(View(), list, i) == OnlineFrom(View(), list, 0)
      {
        if Online(View(), list[i]) {
          online := online + [list[i]];
        }
      }
      OnlineFromIs(View(), list, 0);
    }

    method OnlineHolders(h: Hash) returns (online: seq<NodeId>)
      ensures online == OnlineOnly(View(), ChunkLocations(View(), h))
    {
      online := OnlineNodes(ChunkLocations(View(), h));
    }

    method PlanChunkSpread(h: Hash, size: nat, replication: int, counts: map<NodeId, nat>) returns (plan: seq<NodeId>)
      ensures plan == Model.PlanChunkSpread(View(), h, size, replication, counts)
    {
      var wanted: nat := if replication <= 0 then DEFAULT_REPLICATION else replication;
      var w := View();
      var rows := Enumerate(Eligible(w, h, size), (n: NodeId) => Key(-Free(w, n), n as int, 0));
      assert Elements(rows) == Eligible(w, h, size);
      plan := Sort(rows, PlanOrder(w, counts));
      if |plan| > wanted {
        plan := plan[..wanted];
      }
    }

    // ---- Scheduler ---------------------------------------------------------------------

    method OrphanChunkTasks(limit: int) returns (tasks: seq<Loc>)
      ensures tasks == Q.OrphanChunkTasks(View(), limit)
    {
      var rows := Take(Enumerate(Q.OrphanRows(View()), Q.LocOrder()), Q.Limit(limit));
      tasks := Locations(rows);
    }

    static method Locations(rows: seq<Q.LocationRow>) returns (tasks: seq<Loc>)
      ensures |tasks| == |rows| && forall j :: 0 <= j < |rows| ==> tasks[j] == rows[j].loc
    {
      tasks := [];
      for i := 0 to |rows|
        invariant |tasks| == i && forall j :: 0 <= j < i ==> tasks[j] == rows[j].loc
      {
        tasks := tasks + [rows[i].loc];
      }
    }

    method FillPruneTask(rows: set<Q.JoinRow>, h: Hash) returns (task: Q.PruneTask)
      ensures task == Q.PruneTaskFor(View(), rows, h)
    {
      task := FillPrune(h, Q.GroupDesired(rows, h), Q.GroupActive(rows, h, Q.Cutoff(View())));
    }

    method FillPrune(h: Hash, desired: nat, active: nat) returns (task: Q.PruneTask)
      ensures task == Q.PruneTaskWith(View(), h, desired, active)
    {
      var extra: int := active as int - desired as int;
      var locations := PruneLocations(h);
      task := Q.PruneTask(h, desired, active, extra, locations);
    }

    /** The online holders, those with the least free space first. */
    method PruneLocations(h: Hash) returns (locations: seq<NodeId>)
      ensures locations == Sort(OnlineOnly(View(), ChunkLocations(View(), h)), Q.PruneOrder(View()))
    {
      locations := OnlineHolders(h);
      locations := Sort(locations, Q.PruneOrder(View()));
    }

    method FillPruneTasks(rows: set<Q.JoinRow>, hashes: seq<Hash>) returns (tasks: seq<Q.PruneTask>)
      ensures |tasks| == |hashes|
      ensures forall j :: 0 <= j < |hashes| ==> tasks[j] == Q.PruneTaskFor(View(), rows, hashes[j])
    {
      tasks := [];
      for i := 0 to |hashes|
        invariant |tasks| == i && forall j :: 0 <= j < i ==> tasks[j] == Q.PruneTaskFor(View(), rows, hashes[j])
      {
        var task := FillPruneTask(rows, hashes[i]);
        tasks := tasks + [task];
      }
    }

    method PruneTasks(limit: int) returns (tasks: seq<Q.PruneTask>)
      ensures tasks == Q.PruneTasks(View(), limit)
    {
      var rows := Q.ChunkJoin(View());
      tasks := FillPruneTasks(rows, Q.ExcessRows(View(), rows, limit));
    }

    method FillRepairTask(rows: set<Q.JoinRow>, h: Hash) returns (task: Q.RepairTask)
      ensures task == Q.RepairTaskFor(View(), rows, h)
    {
      var size, desired := Q.GroupSize(rows, h), Q.GroupDesired(rows, h);
      task := FillRepair(h, size, desired, Q.GroupActive(rows, h, Q.Cutoff(View())));
    }

    method FillRepair(h: Hash, size: nat, desired: nat, active: nat) returns (task: Q.RepairTask)
      ensures task == Q.RepairTaskWith(View(), h, size, desired, active)
    {
      var missing: int := desired as int - active as int;
      var sources := OnlineHolders(h);
      var candidates := PlanChunkSpread(h, size, missing, map[]);
      task := Q.RepairTask(h, size, desired, active, missing, sources, candidates);
    }

    method FillRepairTasks(rows: set<Q.JoinRow>, hashes: seq<Hash>) returns (tasks: seq<Q.RepairTask>)
      ensures |tasks| == |hashes|
      ensures forall j :: 0 <= j < |hashes| ==> tasks[j] == Q.RepairTaskFor(View(), rows, hashes[j])
    {
      tasks := [];
      for i := 0 to |hashes|
        invariant |tasks| == i && forall j :: 0 <= j < i ==> tasks[j] == Q.RepairTaskFor(View(), rows, hashes[j])
      {
        var task := FillRepairTask(rows, hashes[i]);
        tasks := tasks + [task];
      }
    }

    method ReplicationTasks(limit: int) returns (tasks: seq<Q.RepairTask>)
      ensures tasks == Q.ReplicationTasks(View(), limit)
    {
      var rows := Q.ChunkJoin(View());
      tasks := FillRepairTasks(rows, Q.DeficitRows(View(), rows, limit));
    }

    method CleanupOrphanChunks()
      modifies this
      ensures View() == Operations.CleanupOrphanChunks(env, old(View()))
    {
      var tasks := OrphanChunkTasks(TASK_LIMIT);
      for i := 0 to |tasks|
        invariant CleanupFrom(env, old(View()), tasks, 0) == CleanupFrom(env, View(), tasks, i)
      {
        var ok := DeleteChunk(tasks[i].node, tasks[i].hash);
        if !ok {
          continue;
        }
        RemoveChunkLocation(tasks[i].hash, tasks[i].node);
      }
    }

    method PruneOne(task: Q.PruneTask)
      modifies this
      ensures View() == Prune(env, old(View()), task)
    {
      if task.extra <= 0 {
        return;
      }
      var removed := 0;
      for i := 0 to |task.locations|
        invariant PruneFrom(env, old(View()), task, 0, 0) == PruneFrom(env, View(), task, i, removed)
      {
        if removed >= task.extra {
          break;
        }
        if task.active - removed <= task.desired {
          break;
        }
        var ok := DeleteChunk(task.locations[i], task.hash);
        if !ok {
          continue;
        }
        RemoveChunkLocation(task.hash, task.locations[i]);
        removed := removed + 1;
      }
    }

    method PruneExtraCopies()
      modifies this
      ensures View() == Operations.PruneExtraCopies(env, old(View()))
    {
      var tasks := PruneTasks(TASK_LIMIT);
      for i := 0 to |tasks|
        invariant PruneAllFrom(env, old(View()), tasks, 0) == PruneAllFrom(env, View(), tasks, i)
      {
        PruneOne(tasks[i]);
      }
    }

    method SpreadCopies(task: Q.RepairTask, data: Bytes)
      modifies this
      ensures View() == SpreadFrom(env, old(View()), task, data, 0, 0)
    {
      var copied := 0;
      for i := 0 to |task.candidates|
        invariant SpreadFrom(env, old(View()), task, data, 0, 0) == SpreadFrom(env, View(), task, data, i, copied)
      {
        if copied >= task.missing {
          break;
        }
        var ok := PutChunk(task.candidates[i], task.hash, data);
        if !ok {
          continue;
        }
        ok := ConfirmChunk(task.hash, task.size, task.candidates[i]);
        if !ok {
          continue;
        }
        copied := copied + 1;
      }
    }

    method RepairOne(task: Q.RepairTask)
      modifies this
      ensures View() == Repair(env, old(View()), task)
    {
      if task.missing <= 0 || |task.sources| == 0 || |task.candidates| == 0 {
        return;
      }
      var body := FetchFromAny(task.sources, task.hash);
      if body.None? || env.digest(body.value) != task.hash {
        return;
      }
      SpreadCopies(task, body.value);
    }

    method ReplicateMissingCopies()
      modifies this
      ensures View() == Operations.ReplicateMissingCopies(env, old(View()))
    {
      var tasks := ReplicationTasks(TASK_LIMIT);
      RepairAll(tasks);
    }

    method RepairAll(tasks: seq<Q.RepairTask>)
      modifies this
      ensures View() == RepairAllFrom(env, old(View()), tasks, 0)
    {
      for i := 0 to |tasks|
        invariant RepairAllFrom(env, old(View()), tasks, 0) == RepairAllFrom(env, View(), tasks, i)
      {
        RepairOne(tasks[i]);
      }
    }

    method RunReplicationOnce()
      modifies this
      ensures View() == Operations.RunReplicationOnce(env, old(View()))
      ensures DeletesAnswered(env) && Physical(env, old(View())) && Replicated(old(View())) ==>
                Evolves(env, old(View()), View()) && Approaches(old(View()), View())
    {
      ghost var w := View();
      CleanupOrphanChunks();
      PruneExtraCopies();
      ReplicateMissingCopies();
      if DeletesAnswered(env) && Physical(env, w) && Replicated(w) { PassKeepsCopies(env, w); }
    }

    // ---- Files -------------------------------------------------------------------------

    method CreateFile(id: FileId, req: FileRequest) returns (ok: bool)
      modifies this
      ensures (View(), ok) == Operations.CreateFile(old(View()), id, req)
      ensures VersionsUnique(old(View())) ==> VersionsUnique(View())
    {
      if VersionsUnique(View()) { CreateKeepsVersions(View(), id, req); }
      var backupName := req.backupName;
      if backupName == NO_NAME {
        backupName := req.name;
      }
      var newBytes := req.newBytes;
      if req.newBytes == 0 && req.reusedBytes == 0 && req.size > 0 {
        newBytes := req.size;
      }
      if id in files {
        return false;
      }
      var row := FileRow(req.name, backupName, NextVersion(View(), backupName), NormalizedRetention(req.retention),
                         req.size, req.chunkSize, NormalizedReplication(req.replication), newBytes,
                         req.reusedBytes, now, req.chunks);
      files := files[id := row];
      ok := true;
    }

    method UpdateFileReplication(id: FileId, replication: int) returns (ok: bool)
      modifies this
      ensures (View(), ok) == Operations.UpdateFileReplication(old(View()), id, replication)
    {
      ok := id in files;
      if ok {
        files := files[id := files[id].(replication := NormalizedReplication(replication))];
      }
    }

    /** One manifest's part in collecting unused hashes: skip those seen, keep those without a file. */
    method SweepManifest(refs: seq<ChunkRef>, seen: set<Hash>, unused: seq<Hash>)
      returns (seen': set<Hash>, unused': seq<Hash>)
      ensures Sweep(seen', unused') == SweepFrom(View(), Sweep(seen, unused), refs, 0)
    {
      seen', unused' := seen, unused;
      for i := 0 to |refs|
        invariant SweepFrom(View(), Sweep(seen, unused), refs, 0) == SweepFrom(View(), Sweep(seen', unused'), refs, i)
      {
        var h := refs[i].hash;
        if h in seen' {
          continue;
        }
        seen' := seen' + {h};
        if h !in InUse(View()) {
          unused' := unused' + [h];
        }
      }
    }

    method DeleteFile(id: FileId) returns (unused: seq<Hash>, ok: bool)
      modifies this
      ensures (View(), unused, ok) == Operations.DeleteFile(old(View()), id)
      ensures ok ==> ListsUnused(old(View()), View(), unused)
    {
      if id !in files {
        return [], false;
      }
      DeleteFileListsUnused(View(), id);
      var refs := files[id].chunks;
      files := files - {id};
      var _, found := SweepManifest(refs, {}, []);
      return found, true;
    }

    method ApplyRetention(backupName: Name, keep: int) returns (ids: seq<FileId>, unused: seq<Hash>)
      modifies this
      ensures (View(), ids, unused) == Operations.ApplyRetention(old(View()), backupName, keep)
      ensures ListsUnused(old(View()), View(), unused)
    {
      RetentionListsUnused(View(), backupName, keep);
      if backupName == NO_NAME || keep <= 0 {
        return [], [];
      }
      ids := Outdated(View(), backupName, keep);
      var deleted := Manifests(View(), ids);
      files := files - Elements(ids);
      var seen: set<Hash> := {};
      unused := [];
      ghost var w1 := View();
      for i := 0 to |deleted|
        invariant View() == w1
        invariant SweepFilesFrom(View(), Sweep({}, []), deleted, 0)
               == SweepFilesFrom(View(), Sweep(seen, unused), deleted, i)
      {
        seen, unused := SweepManifest(deleted[i].chunks, seen, unused);
      }
    }

    method DropCopies(h: Hash, nodes: seq<NodeId>, t: Tally) returns (t': Tally)
      modifies this
      ensures (View(), t') == DropCopiesFrom(env, old(View()), h, nodes, 0, t)
    {
      t' := t;
      for i := 0 to |nodes|
        invariant DropCopiesFrom(env, old(View()), h, nodes, 0, t) == DropCopiesFrom(env, View(), h, nodes, i, t')
      {
        var ok := DeleteChunk(nodes[i], h);
        if !ok {
          t' := t'.(failed := t'.failed + [Loc(h, nodes[i])]);
          continue;
        }
        RemoveChunkLocation(h, nodes[i]);
        t' := t'.(deleted := t'.deleted + 1);
      }
    }

    method DeleteUnusedChunks(hashes: seq<Hash>) returns (t: Tally)
      modifies this
      ensures (View(), t) == Operations.DeleteUnusedChunks(env, old(View()), hashes)
    {
      var at := View();
      var locations := seq(|hashes|, i requires 0 <= i < |hashes| => ChunkLocations(at, hashes[i]));
      t := Tally(0, []);
      for i := 0 to |hashes|
        invariant DropUnusedFrom(env, at, at, hashes, 0, Tally(0, [])) == DropUnusedFrom(env, View(), at, hashes, i, t)
      {
        t := DropCopies(hashes[i], locations[i], t);
      }
    }

    method RemoveFile(id: FileId) returns (t: Option<Tally>)
      modifies this
      ensures (View(), t) == Operations.RemoveFile(env, old(View()), id)
      ensures DeletesAnswered(env) && Sane(env, old(View())) ==> StepKeeps(env, old(View()), View())
    {
      if DeletesAnswered(env) && Sane(env, View()) { DeleteStep(env, View(), id); }
      var unused, ok := DeleteFile(id);
      if !ok {
        return None;
      }
      var tally := DeleteUnusedChunks(unused);
      t := Some(tally);
    }

    method UpdateReplication(id: FileId, replication: int) returns (ok: bool)
      modifies this
      ensures View() == if replication <= 0 then old(View())
                        else Operations.UpdateFileReplication(old(View()), id, replication).0
      ensures ok == (replication > 0 && id in old(files))
      ensures ok ==> id in files && files[id] == old(files)[id].(replication := replication)
      ensures forall f :: f != id ==> (f in files <==> f in old(files)) && (f in files ==> files[f] == old(files)[f])
    {
      if replication <= 0 {
        return false;
      }
      ok := UpdateFileReplication(id, replication);
    }

    // ---- Upload ------------------------------------------------------------------------

    /** Stores the chunk on the planned nodes, stopping at the first failure. */
    method PlaceOn(nodes: seq<NodeId>, h: Hash, data: Bytes, counts: map<NodeId, nat>)
      returns (counts': map<NodeId, nat>, ok: bool)
      modifies this
      ensures (View(), counts', ok) == PlaceFrom(env, old(View()), counts, nodes, 0, h, data)
    {
      counts' := counts;
      for i := 0 to |nodes|
        invariant PlaceFrom(env, old(View()), counts, nodes, 0, h, data)
               == PlaceFrom(env, View(), counts', nodes, i, h, data)
      {
        ok := PutChunk(nodes[i], h, data);
        if !ok {
          return;
        }
        ok := ConfirmChunk(h, |data|, nodes[i]);
        if !ok {
          return;
        }
        counts' := counts'[nodes[i] := Count(counts', nodes[i]) + 1];
      }
      ok := true;
    }

    method Missing(h: Hash, replication: int) returns (missing: int)
      ensures missing == MissingCopies(View(), h, replication)
    {
      var holders := OnlineHolders(h);
      missing := replication - |holders|;
    }

    method PlaceChunk(h: Hash, data: Bytes, replication: int, counts: map<NodeId, nat>)
      returns (counts': map<NodeId, nat>, ok: bool)
      modifies this
      ensures (View(), counts', ok) == Placed(env, old(View()), counts, h, data, replication)
    {
      var missing := Missing(h, replication);
      if missing <= 0 {
        return counts, true;
      }
      var nodes := PlanChunkSpread(h, |data|, missing, counts);
      if |nodes| < missing {
        return counts, false;
      }
      counts', ok := PlaceOn(nodes, h, data, counts);
    }

    method FinishUpload(id: FileId, req: FileRequest) returns (result: UploadResult)
      modifies this
      ensures (View(), result) == Operations.FinishUpload(env, old(View()), id, req)
    {
      var saved := CreateFile(id, req);
      if !saved {
        return SaveFailed;
      }
      var deleted, unused := ApplyRetention(files[id].backupName, files[id].retention);
      var _ := DeleteUnusedChunks(unused);
      result := Stored(deleted);
    }

    /** Counts the chunk as new or reused, brings it to its copies and lists it. */
    method StoreChunk(data: Bytes, replication: int, counts: map<NodeId, nat>, seen: set<Hash>, refs: seq<ChunkRef>,
                      size: nat, newBytes: nat, reusedBytes: nat, ghost u: Operations.Upload)
      returns (counts': map<NodeId, nat>, seen': set<Hash>, refs': seq<ChunkRef>, size': nat, newBytes': nat,
               reusedBytes': nat, ok: bool, ghost u': Operations.Upload)
      requires u == Operations.Upload(View(), counts, seen, refs, size, newBytes, reusedBytes)
      modifies this
      ensures u' == Operations.Upload(View(), counts', seen', refs', size', newBytes', reusedBytes')
      ensures (u', ok) == BackupChunk(env, u, data, replication)
    {
      var h := env.digest(data);
      newBytes', reusedBytes', refs', size' := newBytes, reusedBytes, refs, size;
      if h in seen || h in InUse(View()) {
        reusedBytes' := reusedBytes + |data|;
      } else {
        newBytes' := newBytes + |data|;
      }
      seen' := seen + {h};
      ghost var v := Operations.Upload(View(), counts, seen', refs, size, newBytes', reusedBytes');
      TalliedIs(u, h, |data|);
      StoredChunkIs(env, u, v, data, replication);
      counts', ok := PlaceChunk(h, data, replication, counts);
      if ok {
        refs' := refs + [ChunkRef(h, |data|)];
        size' := size + |data|;
      }
      u' := Operations.Upload(View(), counts', seen', refs', size', newBytes', reusedBytes');
    }

    /** The upload loop: read a chunk, count it, bring it to its copies, list it. */
    method StoreStream(chunkSize: int, replication: int, reader: Reader)
      returns (refs: seq<ChunkRef>, size: nat, newBytes: nat, reusedBytes: nat, end: StreamEnd,
               ghost u: Operations.Upload)
      requires ValidGear(env.gear) && reader.Valid() && chunkSize <= MAX_CHUNK_SIZE
      modifies this, reader
      ensures ValidCutter(CutterFor(env.gear, chunkSize))
      ensures (u, end) == StoreFrom(env, CutterFor(env.gear, chunkSize), StartUpload(old(View())), old(reader.Rest()),
                                    reader.broken, replication)
      ensures u == Operations.Upload(View(), u.counts, u.seen, refs, size, newBytes, reusedBytes)
    {
      WindowIsFull(env.gear, chunkSize);
      ghost var c := CutterFor(env.gear, chunkSize);
      ghost var start, stream, broken := StartUpload(View()), reader.Rest(), reader.broken;
      var counts, seen: set<Hash> := map[], {};
      refs, size, newBytes, reusedBytes, u := [], 0, 0, 0, start;
      while true
        invariant reader.Valid()
        invariant StoreFrom(env, c, start, stream, broken, replication)
               == StoreFrom(env, c, u, reader.Rest(), broken, replication)
        invariant u == Operations.Upload(View(), counts, seen, refs, size, newBytes, reusedBytes)
        decreases |reader.Rest()|
      {
        var read := ReadContentDefinedChunk(env.gear, reader, chunkSize);
        if !read.Piece? {
          end := if read.ReadFailed? then StreamBroke else StreamEnded;
          return;
        }
        var ok;
        counts, seen, refs, size, newBytes, reusedBytes, ok, u :=
          StoreChunk(read.data, replication, counts, seen, refs, size, newBytes, reusedBytes, u);
        if !ok {
          end := ChunkRefused;
          return;
        }
      }
    }

    method BackupFile(id: FileId, filename: Name, backupName: Name, chunkSize: int, replication: int, retention: int,
                      reader: Reader)
      returns (result: UploadResult)
      requires ValidGear(env.gear) && reader.Valid()
      modifies this, reader
      ensures var req := RequestOf(filename, backupName, chunkSize, replication, retention, old(reader.Rest()), reader);
              (View(), result) == Operations.BackupFile(env, old(View()), id, req)
      ensures DeletesAnswered(env) && Sane(env, old(View())) ==> StepKeeps(env, old(View()), View())
    {
      ghost var req := RequestOf(filename, backupName, chunkSize, replication, retention, reader.Rest(), reader);
      if DeletesAnswered(env) && Sane(env, View()) { UploadStep(env, View(), id, req); }
      if chunkSize <= 0 || chunkSize > MAX_CHUNK_SIZE || retention < 0 {
        return BadRequest;
      }
      ghost var w := View();
      var storedAs := if backupName == NO_NAME then filename else backupName;
      var refs, size, newBytes, reusedBytes, end, u := StoreStream(chunkSize, replication, reader);
      StreamOutcome(env, w, id, req, u, end);
      if end.ChunkRefused? {
        return ChunkFailed;
      }
      if end.StreamBroke? {
        return StreamFailed;
      }
      result := FinishUpload(id, FileRequest(filename, storedAs, retention, size, chunkSize, replication, newBytes,
                                             reusedBytes, refs));
    }

    // ---- Download ----------------------------------------------------------------------

    /** Writes the file's chunks to a client that takes at most accepts bytes. */
    method DownloadFile(id: FileId, accepts: nat) returns (out: Bytes, result: DownloadResult)
      modifies this
      ensures (View(), out, result) == Operations.DownloadFile(env, old(View()), id, accepts)
      ensures View() == old(View()).(calls := calls)
    {
      out := [];
      if id !in files {
        return [], NotFound;
      }
      var refs := files[id].chunks;
      DownloadOnlyCalls(env, View(), refs, 0, [], accepts);
      for i := 0 to |refs|
        invariant DownloadFrom(env, old(View()), refs, 0, [], accepts)
               == DownloadFrom(env, View(), refs, i, out, accepts)
      {
        var body := FetchFromAny(ChunkLocations(View(), refs[i].hash), refs[i].hash);
        if body.None? {
          return out, FetchFailed;
        }
        if env.digest(body.value) != refs[i].hash {
          return out, HashMismatch;
        }
        if |out| + |body.value| > accepts {
          return out + Taken(out, body.value, accepts), WriteFailed;
        }
        out := out + body.value;
      }
      result := Complete;
    }
  }

  // ---- The upload loop read chunk by chunk ---------------------------------------------

  /** Reading rest to its end, its failure or a refused chunk, storing every chunk on the way. */
  ghost function StoreFrom(env: Env, c: Cutter, u: Operations.Upload, rest: Bytes, broken: bool, replication: int)
    : (Operations.Upload, StreamEnd)
    requires ValidCutter(c)
    decreases |rest|
  {
    match NextPiece(c, rest, broken)
    case NoMore => (u, StreamEnded)
    case ReadFailed => (u, StreamBroke)
    case Piece(data) =>
      var (u1, ok) := BackupChunk(env, u, data, replication);
      if ok then StoreFrom(env, c, u1, rest[|data|..], broken, replication) else (u1, ChunkRefused)
  }

  lemma {:induction false} StoreFromIs(env: Env, c: Cutter, u: Operations.Upload, rest: Bytes, broken: bool,
                                       replication: int, pieces: seq<Bytes>, i: nat)
    requires ValidCutter(c) && i <= |pieces| && pieces[i..] == Delivered(c, rest, broken)
    ensures var (v, end) := StoreFrom(env, c, u, rest, broken, replication);
            && (v, end != ChunkRefused) == BackupFrom(env, u, pieces, i, replication)
            && (end == ChunkRefused || end == if broken then StreamBroke else StreamEnded)
    decreases |rest|
  {
    if NextPiece(c, rest, broken).Piece? {
      var data := NextPiece(c, rest, broken).data;
      DeliveredStep(c, rest, broken, pieces, i);
      var (u1, ok) := BackupChunk(env, u, data, replication);
      if ok { StoreFromIs(env, c, u1, rest[|data|..], broken, replication, pieces, i + 1); }
    }
  }

  /** The chunk just read is the next of those the whole stream delivers. */
  lemma {:induction false} DeliveredStep(c: Cutter, rest: Bytes, broken: bool, pieces: seq<Bytes>, i: nat)
    requires ValidCutter(c) && i <= |pieces| && pieces[i..] == Delivered(c, rest, broken)
    requires NextPiece(c, rest, broken).Piece?
    ensures i < |pieces| && pieces[i] == NextPiece(c, rest, broken).data && |pieces[i]| <= |rest|
    ensures pieces[i + 1..] == Delivered(c, rest[|pieces[i]|..], broken)
  {
    assert pieces[i + 1..] == pieces[i..][1..];
  }

  /** How the end of the loop decides what the whole upload does. */
  lemma {:induction false} StreamOutcome(env: Env, w: World, id: FileId, req: UploadRequest, u: Operations.Upload,
                                         end: StreamEnd)
    requires ValidGear(env.gear) && Acceptable(req) && ValidCutter(CutterFor(env.gear, req.chunkSize))
    requires (u, end) == StoreFrom(env, CutterFor(env.gear, req.chunkSize), StartUpload(w), req.stream, req.broken,
                                   req.replication)
    ensures end.ChunkRefused? ==> BackupFile(env, w, id, req) == (u.w, ChunkFailed)
    ensures end.StreamBroke? ==> BackupFile(env, w, id, req) == (u.w, StreamFailed)
    ensures end.StreamEnded? ==> BackupFile(env, w, id, req) == FinishUpload(env, u.w, id, RequestFor(req, u))
  {
    var c := CutterFor(env.gear, req.chunkSize);
    var pieces := Delivered(c, req.stream, req.broken);
    StoreFromIs(env, c, StartUpload(w), req.stream, req.broken, req.replication, pieces, 0);
  }
}
