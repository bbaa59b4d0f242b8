/** The cluster's data: the server's tables, the nodes' chunk stores, and one call to a node. */
module Model {
  import opened Ordering
  import opened Types

  // Keys are text in the source and are only compared for equality and order.
  newtype Hash = int
  newtype NodeId = int
  newtype FileId = int
  newtype Name = int

  const NO_NAME: Name := 0
  const OFFLINE_AFTER: int := 45
  const DEFAULT_REPLICATION: nat := 3
  const TASK_LIMIT: nat := 100

  datatype NodeRow = NodeRow(capacity: int, free: int, lastSeen: int)
  datatype Loc = Loc(hash: Hash, node: NodeId)
  datatype ChunkRef = ChunkRef(hash: Hash, size: nat)
  datatype FileRow = FileRow(
    name: Name, backupName: Name, version: nat, retention: nat, size: nat, chunkSize: int,
    replication: nat, newBytes: nat, reusedBytes: nat, createdAt: int, chunks: seq<ChunkRef>)

  /** A node's chunk store: its contents and its cached byte total. */
  datatype Store = Store(chunks: map<Hash, Bytes>, used: int)

  /**
   * The whole cluster: tables nodes, files (each with its file_chunks rows in index order) and
   * chunk_locations, then the nodes' disks, the clock in whole seconds, and the number of node
   * calls made so far.
   */
  datatype World = World(
    nodes: map<NodeId, NodeRow>, files: map<FileId, FileRow>, locs: map<Loc, nat>,
    stores: map<NodeId, Store>, now: int, calls: nat)

  /**
   * How a node answers a call: it obeys, fails, loses the answer, returns a made-up body, or fails
   * halfway through clearing its store, with the given chunks left.
   */
  datatype Reply = Obey | Refuse | LoseReply | Forge(body: Bytes) | HalfDone(kept: set<Hash>)

  /** How a node answers a call to delete a chunk; the last is a deletion whose answer is lost. */
  datatype Deletion = Deleted | Kept | Unanswered

  /** What the cluster does not control: answers to calls, the digest, the nodes' disk sizes. */
  datatype Env = Env(replies: (nat, NodeId) -> Reply, deletes: (nat, NodeId) -> Deletion, digest: Bytes -> Hash,
                     capacity: NodeId -> nat, gear: seq<nat>)

  /** No deletion takes effect without an answer. */
  ghost predicate DeletesAnswered(env: Env) {
    forall c, n :: env.deletes(c, n) != Unanswered
  }

  const EMPTY_WORLD: World := World(map[], map[], map[], map[], 0, 0)

  // ---- What the tables say -------------------------------------------------------------

  predicate Online(w: World, n: NodeId) {
    n in w.nodes && w.now - w.nodes[n].lastSeen <= OFFLINE_AFTER
  }

  function OnlineNodes(w: World): set<NodeId> {
    set n | n in w.nodes && Online(w, n)
  }

  function HashesOf(refs: seq<ChunkRef>): set<Hash> {
    set i | 0 <= i < |refs| :: refs[i].hash
  }

  function InUse(w: World): set<Hash> {
    set f, i | f in w.files && 0 <= i < |w.files[f].chunks| :: w.files[f].chunks[i].hash
  }

  /** The nodes that hold a copy by the tables and are online. */
  function Active(w: World, h: Hash): set<NodeId> {
    set n | n in w.nodes && Online(w, n) && Loc(h, n) in w.locs
  }

  predicate IsMax(m: nat, s: set<nat>) {
    m in s && forall x :: x in s ==> x <= m
  }

  lemma {:induction false} FindMax(s: set<nat>) returns (m: nat)
    requires s != {}
    ensures IsMax(m, s)
    decreases |s|
  {
    var e :| e in s;
    m := e;
    if s - {e} != {} {
      var n := FindMax(s - {e});
      m := if e <= n then n else e;
    }
    assert forall x :: x in s ==> x == e || x in s - {e};
  }

  lemma MaxExists(s: set<nat>)
    requires s != {}
    ensures exists m :: IsMax(m, s)
  {
    var m := FindMax(s);
  }

  /** The largest element, or 0 for the empty set: MAX with COALESCE. */
  function MaxOf(s: set<nat>): (m: nat)
    ensures s != {} ==> IsMax(m, s)
    ensures s == {} ==> m == 0
  {
    if s == {} then 0 else
      MaxExists(s);
      var m: nat :| IsMax(m, s);
      m
  }

  /** How many copies a chunk should have: the most that any file using it asks for. */
  function Desired(w: World, h: Hash): nat {
    MaxOf(set f | f in w.files && h in HashesOf(w.files[f].chunks) :: w.files[f].replication)
  }

  function Free(w: World, n: NodeId): int {
    if n in w.nodes then w.nodes[n].free else 0
  }

  function LastSeen(w: World, n: NodeId): int {
    if n in w.nodes then w.nodes[n].lastSeen else 0
  }

  // ---- The nodes' disks ----------------------------------------------------------------

  const EMPTY_STORE: Store := Store(map[], 0)

  function StoreOf(w: World, n: NodeId): Store {
    if n in w.stores then w.stores[n] else EMPTY_STORE
  }

  predicate Holds(w: World, n: NodeId, h: Hash) {
    h in StoreOf(w, n).chunks
  }

  ghost function Sizes(chunks: map<Hash, Bytes>): map<Hash, nat> {
    map h | h in chunks :: |chunks[h]|
  }

  /** The node's reserved-capacity gate and its digest check. */
  predicate Accepts(env: Env, w: World, n: NodeId, h: Hash, data: Bytes) {
    (|data| == 0 || StoreOf(w, n).used + |data| <= env.capacity(n)) && env.digest(data) == h
  }

  function Write(s: Store, h: Hash, data: Bytes): Store {
    Store(s.chunks[h := data], s.used + |data| - (if h in s.chunks then |s.chunks[h]| else 0))
  }

  function Erase(s: Store, h: Hash): Store {
    if h in s.chunks then Store(s.chunks - {h}, s.used - |s.chunks[h]|) else s
  }

  function Called(w: World): World {
    w.(calls := w.calls + 1)
  }

  /** PUT /chunks/h: a lost reply reports failure although the chunk was stored. */
  function PutCall(env: Env, w: World, n: NodeId, h: Hash, data: Bytes): (World, bool) {
    var reply := env.replies(w.calls, n);
    var stored := (reply.Obey? || reply.LoseReply?) && Accepts(env, w, n, h, data);
    var w' := if stored then w.(stores := w.stores[n := Write(StoreOf(w, n), h, data)]) else w;
    (Called(w'), stored && reply.Obey?)
  }

  /** DELETE /chunks/h: a missing chunk counts as deleted; without an answer the call counts as failed. */
  function DeleteCall(env: Env, w: World, n: NodeId, h: Hash): (World, bool) {
    var deletion := env.deletes(w.calls, n);
    if deletion.Kept? then (Called(w), false)
    else (Called(w.(stores := w.stores[n := Erase(StoreOf(w, n), h)])), deletion.Deleted?)
  }

  /** GET /chunks/h. */
  function GetCall(env: Env, w: World, n: NodeId, h: Hash): (World, Option<Bytes>) {
    var body := match env.replies(w.calls, n) {
      case Obey => if Holds(w, n, h) then Some(StoreOf(w, n).chunks[h]) else None
      case Forge(d) => Some(d)
      case _ => None
    };
    (Called(w), body)
  }

  /** What is left of a store by a clearing that fails halfway: its cached total is not touched. */
  function Remnant(s: Store, kept: set<Hash>): Store {
    Store(map h | h in s.chunks && h in kept :: s.chunks[h], s.used)
  }

  /** The node's store after a call to clear it. */
  function AfterClear(s: Store, reply: Reply): Store {
    match reply
    case Obey => EMPTY_STORE
    case LoseReply => EMPTY_STORE
    case HalfDone(kept) => Remnant(s, kept)
    case _ => s
  }

  /** DELETE /storage: empties the node's store; a failed or lost answer says nothing about how far it got. */
  function ClearCall(env: Env, w: World, n: NodeId): (World, bool) {
    var reply := env.replies(w.calls, n);
    (Called(w.(stores := w.stores[n := AfterClear(StoreOf(w, n), reply)])), reply.Obey?)
  }

  // ---- Small table operations ----------------------------------------------------------

  function RegisterNode(w: World, n: NodeId, capacity: int, free: int): World {
    w.(nodes := w.nodes[n := NodeRow(capacity, free, w.now)])
  }

  function DeleteNode(w: World, n: NodeId): World {
    if n in w.nodes then
      w.(nodes := w.nodes - {n}, locs := map k | k in w.locs && k.node != n :: w.locs[k])
    else w
  }

  function Lowered(free: int, size: nat): int {
    if free - size < 0 then 0 else free - size
  }

  function Raised(row: NodeRow, size: nat): int {
    if row.free + size > row.capacity then row.capacity else row.free + size
  }

  /** Records a copy. A second confirmation of the same copy changes nothing. */
  function ConfirmChunk(w: World, h: Hash, size: nat, n: NodeId): (World, bool) {
    if n !in w.nodes then (w, false)
    else if Loc(h, n) in w.locs then (w, true)
    else
      var row := w.nodes[n];
      (w.(locs := w.locs[Loc(h, n) := size],
          nodes := w.nodes[n := NodeRow(row.capacity, Lowered(row.free, size), w.now)]), true)
  }

  function RemoveChunkLocation(w: World, h: Hash, n: NodeId): World {
    if Loc(h, n) !in w.locs then w
    else
      var size := w.locs[Loc(h, n)];
      var w' := w.(locs := w.locs - {Loc(h, n)});
      if size > 0 && n in w.nodes then
        w'.(nodes := w.nodes[n := w.nodes[n].(free := Raised(w.nodes[n], size))])
      else w'
  }

  // ---- Ordered listings ----------------------------------------------------------------

  function NodeOrder(): NodeId -> Key {
    (n: NodeId) => Key(n as int, 0, 0)
  }

  /** SELECT ... FROM chunk_locations JOIN nodes WHERE hash = h ORDER BY id. */
  function ChunkLocations(w: World, h: Hash): (r: seq<NodeId>)
    ensures forall n :: n in r <==> n in w.nodes && Loc(h, n) in w.locs
    ensures NoDuplicates(r)
  {
    Enumerate((set n | n in w.nodes && Loc(h, n) in w.locs), NodeOrder())
  }

  function OnlineOnly(w: World, r: seq<NodeId>): (o: seq<NodeId>)
    requires NoDuplicates(r)
    ensures forall n :: n in o <==> n in r && Online(w, n)
    ensures NoDuplicates(o)
  {
    if r == [] then [] else
      var rest := OnlineOnly(w, r[1..]);
      if Online(w, r[0]) then [r[0]] + rest else rest
  }

  function Count(counts: map<NodeId, nat>, n: NodeId): nat {
    if n in counts then counts[n] else 0
  }

  function PlanOrder(w: World, counts: map<NodeId, nat>): NodeId -> Key {
    (n: NodeId) => Key(Count(counts, n), -Free(w, n), n as int)
  }

  /** The nodes that may receive a copy: online, with room, and not holding one by the tables. */
  function Eligible(w: World, h: Hash, size: nat): set<NodeId> {
    set n | n in w.nodes && Online(w, n) && w.nodes[n].free >= size && Loc(h, n) !in w.locs
  }

  /** The least nodes by (copies given in this upload, most free space, id). */
  function PlanChunkSpread(w: World, h: Hash, size: nat, replication: int, counts: map<NodeId, nat>)
    : (r: seq<NodeId>)
  {
    var wanted: nat := if replication <= 0 then DEFAULT_REPLICATION else replication;
    Take(Enumerate(Eligible(w, h, size), PlanOrder(w, counts)), wanted)
  }
}
