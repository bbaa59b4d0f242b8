/**
 * The server's operations as functions of the cluster: what each handler and each scheduler phase
 * does to the tables and the nodes for given answers to its node calls.
 */
module Operations {
  import opened Chunker
  import opened Model
  import opened Ordering
  import opened Queries
  import opened Types

  // ---- Deleting and copying one chunk --------------------------------------------------

  /** Deletes the chunk on the node and, if that worked, forgets its location. */
  function Discard(env: Env, w: World, n: NodeId, h: Hash): (World, bool) {
    var (w1, ok) := DeleteCall(env, w, n, h);
    if ok then (RemoveChunkLocation(w1, h, n), true) else (w1, false)
  }

  /** Stores the chunk on the node and, if that worked, records its location. */
  function CopyTo(env: Env, w: World, n: NodeId, h: Hash, data: Bytes, size: nat): (World, bool) {
    var (w1, ok) := PutCall(env, w, n, h, data);
    if ok then ConfirmChunk(w1, h, size, n) else (w1, false)
  }

  /** Asks nodes[i..] in turn until one delivers. */
  function FetchFromAny(env: Env, w: World, nodes: seq<NodeId>, i: nat, h: Hash): (World, Option<Bytes>)
    requires i <= |nodes|
    decreases |nodes| - i
  {
    if i == |nodes| then (w, None) else
      var (w1, body) := GetCall(env, w, nodes[i], h);
      if body.Some? then (w1, body) else FetchFromAny(env, w1, nodes, i + 1, h)
  }

  // ---- Scheduler: orphans --------------------------------------------------------------

  ghost function CleanupFrom(env: Env, w: World, tasks: seq<Loc>, i: nat): World
    requires i <= |tasks|
    decreases |tasks| - i
  {
    if i == |tasks| then w else CleanupFrom(env, Discard(env, w, tasks[i].node, tasks[i].hash).0, tasks, i + 1)
  }

  ghost function CleanupOrphanChunks(env: Env, w: World): World {
    CleanupFrom(env, w, OrphanChunkTasks(w, TASK_LIMIT), 0)
  }

  // ---- Scheduler: extra copies ---------------------------------------------------------

  ghost function PruneFrom(env: Env, w: World, t: PruneTask, i: nat, removed: nat): World
    requires i <= |t.locations|
    decreases |t.locations| - i
  {
    if i == |t.locations| || removed >= t.extra || t.active - removed <= t.desired then w else
      var (w1, ok) := Discard(env, w, t.locations[i], t.hash);
      PruneFrom(env, w1, t, i + 1, if ok then removed + 1 else removed)
  }

  ghost function Prune(env: Env, w: World, t: PruneTask): World {
    if t.extra <= 0 then w else PruneFrom(env, w, t, 0, 0)
  }

  ghost function PruneAllFrom(env: Env, w: World, tasks: seq<PruneTask>, i: nat): World
    requires i <= |tasks|
    decreases |tasks| - i
  {
    if i == |tasks| then w else PruneAllFrom(env, Prune(env, w, tasks[i]), tasks, i + 1)
  }

  ghost function PruneExtraCopies(env: Env, w: World): World {
    PruneAllFrom(env, w, PruneTasks(w, TASK_LIMIT), 0)
  }

  // ---- Scheduler: missing copies -------------------------------------------------------

  ghost function SpreadFrom(env: Env, w: World, t: RepairTask, data: Bytes, i: nat, copied: nat): World
    requires i <= |t.candidates|
    decreases |t.candidates| - i
  {
    if i == |t.candidates| || copied >= t.missing then w else
      var (w1, ok) := CopyTo(env, w, t.candidates[i], t.hash, data, t.size);
      SpreadFrom(env, w1, t, data, i + 1, if ok then copied + 1 else copied)
  }

  ghost function Repair(env: Env, w: World, t: RepairTask): World {
    if t.missing <= 0 || t.sources == [] || t.candidates == [] then w else
      var (w1, body) := FetchFromAny(env, w, t.sources, 0, t.hash);
      if body.None? || env.digest(body.value) != t.hash then w1
      else SpreadFrom(env, w1, t, body.value, 0, 0)
  }

  ghost function RepairAllFrom(env: Env, w: World, tasks: seq<RepairTask>, i: nat): World
    requires i <= |tasks|
    decreases |tasks| - i
  {
    if i == |tasks| then w else RepairAllFrom(env, Repair(env, w, tasks[i]), tasks, i + 1)
  }

  ghost function ReplicateMissingCopies(env: Env, w: World): World {
    RepairAllFrom(env, w, ReplicationTasks(w, TASK_LIMIT), 0)
  }

  ghost function RunReplicationOnce(env: Env, w: World): World {
    ReplicateMissingCopies(env, PruneExtraCopies(env, CleanupOrphanChunks(env, w)))
  }

  // ---- Files ---------------------------------------------------------------------------

  function NormalizedReplication(replication: int): nat {
    if replication <= 0 then DEFAULT_REPLICATION else replication
  }

  function NormalizedRetention(retention: int): nat {
    if retention < 0 then 0 else retention
  }

  datatype FileRequest = FileRequest(name: Name, backupName: Name, retention: int, size: nat, chunkSize: int,
                                     replication: int, newBytes: nat, reusedBytes: nat, chunks: seq<ChunkRef>)

  function NextVersion(w: World, backupName: Name): nat {
    MaxOf(set f | f in w.files && w.files[f].backupName == backupName :: w.files[f].version) + 1
  }

  function NewRow(w: World, req: FileRequest): FileRow {
    var backupName := if req.backupName == NO_NAME then req.name else req.backupName;
    var untold := req.newBytes == 0 && req.reusedBytes == 0 && req.size > 0;
    FileRow(req.name, backupName, NextVersion(w, backupName), NormalizedRetention(req.retention), req.size,
            req.chunkSize, NormalizedReplication(req.replication),
            if untold then req.size else req.newBytes, req.reusedBytes, w.now, req.chunks)
  }

  /** Inserts the manifest; a taken id makes the insert fail and the transaction roll back. */
  function CreateFile(w: World, id: FileId, req: FileRequest): (World, bool) {
    if id in w.files then (w, false) else (w.(files := w.files[id := NewRow(w, req)]), true)
  }

  function UpdateFileReplication(w: World, id: FileId, replication: int): (World, bool) {
    if id !in w.files then (w, false) else
      (w.(files := w.files[id := w.files[id].(replication := NormalizedReplication(replication))]), true)
  }

  /** Hashes looked at so far, and those of them found without a file. */
  datatype Sweep = Sweep(seen: set<Hash>, unused: seq<Hash>)

  function SweepHash(w: World, s: Sweep, h: Hash): Sweep {
    if h in s.seen then s
    else Sweep(s.seen + {h}, if h in InUse(w) then s.unused else s.unused + [h])
  }

  ghost function SweepFrom(w: World, s: Sweep, refs: seq<ChunkRef>, i: nat): Sweep
    requires i <= |refs|
    decreases |refs| - i
  {
    if i == |refs| then s else SweepFrom(w, SweepHash(w, s, refs[i].hash), refs, i + 1)
  }

  ghost function SweepFilesFrom(w: World, s: Sweep, files: seq<FileRow>, i: nat): Sweep
    requires i <= |files|
    decreases |files| - i
  {
    if i == |files| then s else SweepFilesFrom(w, SweepFrom(w, s, files[i].chunks, 0), files, i + 1)
  }

  /** Removes the file and names the chunks that no file uses any more. */
  ghost function DeleteFile(w: World, id: FileId): (World, seq<Hash>, bool) {
    if id !in w.files then (w, [], false) else
      var w1 := w.(files := w.files - {id});
      (w1, SweepFrom(w1, Sweep({}, []), w.files[id].chunks, 0).unused, true)
  }

  function Versions(w: World, backupName: Name): set<FileId> {
    set f | f in w.files && w.files[f].backupName == backupName
  }

  // ORDER BY version DESC, created_at DESC, id DESC
  function NewestFirst(w: World): FileId -> Key {
    (f: FileId) =>
      if f in w.files then Key(0 - w.files[f].version, 0 - w.files[f].createdAt, 0 - f as int)
      else Key(0, 0, 0 - f as int)
  }

  // LIMIT -1 OFFSET keep
  function Outdated(w: World, backupName: Name, keep: nat): (r: seq<FileId>)
    ensures forall i :: 0 <= i < |r| ==> r[i] in Versions(w, backupName)
  {
    var all := Enumerate(Versions(w, backupName), NewestFirst(w));
    assert forall i :: 0 <= i < |all| ==> all[i] in all;
    Beyond(all, keep)
  }

  function Manifests(w: World, ids: seq<FileId>): (r: seq<FileRow>)
    requires forall i :: 0 <= i < |ids| ==> ids[i] in w.files
    ensures |r| == |ids|
  {
    seq(|ids|, i requires 0 <= i < |ids| => w.files[ids[i]])
  }

  /** Removes all but the newest keep versions and names the chunks that lost their last file. */
  ghost function ApplyRetention(w: World, backupName: Name, keep: int): (World, seq<FileId>, seq<Hash>) {
    if backupName == NO_NAME || keep <= 0 then (w, [], []) else
      var ids := Outdated(w, backupName, keep);
      var w1 := w.(files := w.files - Elements(ids));
      (w1, ids, SweepFilesFrom(w1, Sweep({}, []), Manifests(w, ids), 0).unused)
  }

  // ---- Deleting the chunks of deleted files --------------------------------------------

  /** Copies deleted, and the locations whose deletion failed. */
  datatype Tally = Tally(deleted: nat, failed: seq<Loc>)

  ghost function DropCopiesFrom(env: Env, w: World, h: Hash, nodes: seq<NodeId>, i: nat, t: Tally): (World, Tally)
    requires i <= |nodes|
    decreases |nodes| - i
  {
    if i == |nodes| then (w, t) else
      var (w1, ok) := Discard(env, w, nodes[i], h);
      DropCopiesFrom(env, w1, h, nodes, i + 1,
                     if ok then t.(deleted := t.deleted + 1) else t.(failed := t.failed + [Loc(h, nodes[i])]))
  }

  ghost function DropUnusedFrom(env: Env, w: World, at: World, hashes: seq<Hash>, i: nat, t: Tally): (World, Tally)
    requires i <= |hashes|
    decreases |hashes| - i
  {
    if i == |hashes| then (w, t) else
      var (w1, t1) := DropCopiesFrom(env, w, hashes[i], ChunkLocations(at, hashes[i]), 0, t);
      DropUnusedFrom(env, w1, at, hashes, i + 1, t1)
  }

  /** Deletes every recorded copy of the hashes; the locations are read once, at the start. */
  ghost function DeleteUnusedChunks(env: Env, w: World, hashes: seq<Hash>): (World, Tally) {
    DropUnusedFrom(env, w, w, hashes, 0, Tally(0, []))
  }

  ghost function RemoveFile(env: Env, w: World, id: FileId): (World, Option<Tally>) {
    var (w1, unused, ok) := DeleteFile(w, id);
    if !ok then (w, None) else
      var (w2, t) := DeleteUnusedChunks(env, w1, unused);
      (w2, Some(t))
  }

  ghost function RemoveNode(env: Env, w: World, n: NodeId, purge: bool): (World, bool) {
    if n !in w.nodes then (w, false)
    else if purge then
      var (w1, ok) := ClearCall(env, w, n);
      if ok then (DeleteNode(w1, n), true) else (w1, false)
    else (DeleteNode(w, n), true)
  }

  // ---- Upload --------------------------------------------------------------------------

  /** The upload loop's variables. */
  datatype Upload = Upload(w: World, counts: map<NodeId, nat>, seen: set<Hash>, refs: seq<ChunkRef>,
                           size: nat, newBytes: nat, reusedBytes: nat)

  function StartUpload(w: World): Upload {
    Upload(w, map[], {}, [], 0, 0, 0)
  }

  ghost function PlaceFrom(env: Env, w: World, counts: map<NodeId, nat>, nodes: seq<NodeId>, i: nat, h: Hash,
                           data: Bytes)
    : (World, map<NodeId, nat>, bool)
    requires i <= |nodes|
    decreases |nodes| - i
  {
    if i == |nodes| then (w, counts, true) else
      var (w1, ok) := CopyTo(env, w, nodes[i], h, data, |data|);
      if !ok then (w1, counts, false)
      else PlaceFrom(env, w1, counts[nodes[i] := Count(counts, nodes[i]) + 1], nodes, i + 1, h, data)
  }

  /** Counts the chunk as new or reused. */
  function Tallied(u: Upload, h: Hash, size: nat): Upload {
    if h in u.seen || h in InUse(u.w)
    then u.(seen := u.seen + {h}, reusedBytes := u.reusedBytes + size)
    else u.(seen := u.seen + {h}, newBytes := u.newBytes + size)
  }

  function Appended(u: Upload, h: Hash, size: nat): Upload {
    u.(refs := u.refs + [ChunkRef(h, size)], size := u.size + size)
  }

  function MissingCopies(w: World, h: Hash, replication: int): int {
    replication - |OnlineOnly(w, ChunkLocations(w, h))|
  }

  /** Brings the chunk up to the asked-for copies; only the cluster and the counts change. */
  ghost function PlaceChunk(env: Env, u: Upload, h: Hash, data: Bytes, replication: int): (r: (Upload, bool))
    ensures r.0 == u.(w := r.0.w, counts := r.0.counts)
  {
    var missing := MissingCopies(u.w, h, replication);
    if missing <= 0 then (u, true) else
      var nodes := PlanChunkSpread(u.w, h, |data|, missing, u.counts);
      if |nodes| < missing then (u, false) else
        var (w1, counts, ok) := PlaceFrom(env, u.w, u.counts, nodes, 0, h, data);
        (u.(w := w1, counts := counts), ok)
  }

  ghost function BackupChunk(env: Env, u: Upload, data: Bytes, replication: int): (Upload, bool) {
    var h := env.digest(data);
    var (u1, ok) := PlaceChunk(env, Tallied(u, h, |data|), h, data, replication);
    (if ok then Appended(u1, h, |data|) else u1, ok)
  }

  ghost function BackupFrom(env: Env, u: Upload, pieces: seq<Bytes>, i: nat, replication: int): (Upload, bool)
    requires i <= |pieces|
    decreases |pieces| - i
  {
    if i == |pieces| then (u, true) else
      var (u1, ok) := BackupChunk(env, u, pieces[i], replication);
      if ok then BackupFrom(env, u1, pieces, i + 1, replication) else (u1, false)
  }

  datatype UploadRequest = UploadRequest(filename: Name, backupName: Name, chunkSize: int, replication: int,
                                         retention: int, stream: Bytes, broken: bool)

  datatype UploadResult = BadRequest | ChunkFailed | StreamFailed | SaveFailed | Stored(deletedVersions: seq<FileId>)

  predicate Acceptable(req: UploadRequest) {
    0 < req.chunkSize <= MAX_CHUNK_SIZE && req.retention >= 0
  }

  function RequestFor(req: UploadRequest, u: Upload): FileRequest {
    FileRequest(req.filename, if req.backupName == NO_NAME then req.filename else req.backupName,
                req.retention, u.size, req.chunkSize, req.replication, u.newBytes, u.reusedBytes, u.refs)
  }

  /** Everything after the upload loop: save the manifest, apply retention, delete what became unused. */
  ghost function FinishUpload(env: Env, w: World, id: FileId, req: FileRequest): (World, UploadResult) {
    var (w1, saved) := CreateFile(w, id, req);
    if !saved then (w1, SaveFailed) else
      var (w2, deleted, unused) := ApplyRetention(w1, w1.files[id].backupName, w1.files[id].retention);
      var (w3, _) := DeleteUnusedChunks(env, w2, unused);
      (w3, Stored(deleted))
  }

  ghost function BackupFile(env: Env, w: World, id: FileId, req: UploadRequest): (World, UploadResult)
    requires ValidGear(env.gear)
  {
    if !Acceptable(req) then (w, BadRequest) else
      WindowIsFull(env.gear, req.chunkSize);
      var pieces := Delivered(CutterFor(env.gear, req.chunkSize), req.stream, req.broken);
      var (u, ok) := BackupFrom(env, StartUpload(w), pieces, 0, req.replication);
      if !ok then (u.w, ChunkFailed)
      else if req.broken then (u.w, StreamFailed)
      else FinishUpload(env, u.w, id, RequestFor(req, u))
  }

  // ---- Download ------------------------------------------------------------------------

  datatype DownloadResult = Complete | FetchFailed | HashMismatch | WriteFailed | NotFound

  /** The part of a chunk that still goes out to a client that takes at most accepts bytes. */
  function Taken(out: Bytes, data: Bytes, accepts: nat): Bytes {
    if |out| >= accepts then [] else if |out| + |data| <= accepts then data else data[..accepts - |out|]
  }

  /** Writes chunks refs[i..] to a client that takes at most accepts bytes in all. */
  ghost function DownloadFrom(env: Env, w: World, refs: seq<ChunkRef>, i: nat, out: Bytes, accepts: nat)
    : (World, Bytes, DownloadResult)
    requires i <= |refs|
    decreases |refs| - i
  {
    if i == |refs| then (w, out, Complete) else
      var (w1, body) := FetchFromAny(env, w, ChunkLocations(w, refs[i].hash), 0, refs[i].hash);
      if body.None? then (w1, out, FetchFailed)
      else if env.digest(body.value) != refs[i].hash then (w1, out, HashMismatch)
      else if |out| + |body.value| > accepts then (w1, out + Taken(out, body.value, accepts), WriteFailed)
      else DownloadFrom(env, w1, refs, i + 1, out + body.value, accepts)
  }

  ghost function DownloadFile(env: Env, w: World, id: FileId, accepts: nat): (World, Bytes, DownloadResult) {
    if id !in w.files then (w, [], NotFound) else DownloadFrom(env, w, w.files[id].chunks, 0, [], accepts)
  }
}
