/**
 * What one scheduler pass achieves, for every pattern of answers: which orphans go, how many copies
 * each listed chunk ends with, and which nodes lose or get them.
 */
module PassOutcome {
  import opened Convergence
  import F = FreedChunks
  import opened Invariants
  import opened Model
  import opened Operations
  import opened Ordering
  import P = Placement
  import opened Queries
  import opened Scheduler
  import opened Types
  import U = UploadOutcome
  import opened Uploads

  // ---- Counting answers ----------------------------------------------------------------

  /** How many of the first i answers are yes. */
  ghost function Yes(answers: seq<bool>, i: nat): (r: nat)
    requires i <= |answers|
    ensures r <= i
  {
    if i == 0 then 0 else Yes(answers, i - 1) + if answers[i - 1] then 1 else 0
  }

  lemma {:induction false} YesMonotone(answers: seq<bool>, i: nat, j: nat)
    requires i <= j <= |answers|
    ensures Yes(answers, i) <= Yes(answers, j)
    decreases j
  {
    if i < j { YesMonotone(answers, i, j - 1); }
  }

  lemma {:induction false} AllYes(answers: seq<bool>, i: nat)
    requires i <= |answers| && forall j :: 0 <= j < i ==> answers[j]
    ensures Yes(answers, i) == i
  {
    if i > 0 { AllYes(answers, i - 1); }
  }

  ghost function Smaller(a: int, b: int): int { if a <= b then a else b }

  // ---- Orphans -------------------------------------------------------------------------

  /** The answers to deleting from these nodes in consecutive calls. */
  ghost function Deletions(env: Env, first: nat, nodes: seq<NodeId>): seq<bool> {
    seq(|nodes|, j requires 0 <= j < |nodes| => env.deletes(first + j, nodes[j]) == Deleted)
  }

  /** The locations from the ith on whose deletion, in calls numbered from first, is answered. */
  ghost function Yielded(env: Env, first: nat, tasks: seq<Loc>, i: nat): set<Loc> {
    set j | i <= j < |tasks| && env.deletes(first + j, tasks[j].node) == Deleted :: tasks[j]
  }

  lemma {:induction false} CleanupExact(env: Env, w: World, first: nat, tasks: seq<Loc>, i: nat, hs: set<Hash>)
    requires i <= |tasks| && w.calls == first + i && forall j :: 0 <= j < |tasks| ==> tasks[j].hash in hs
    ensures var w' := CleanupFrom(env, w, tasks, i);
            F.Releases(env, w, w', hs) && w'.locs.Keys == w.locs.Keys - Yielded(env, first, tasks, i)
    decreases |tasks| - i
  {
    if i == |tasks| {
      F.ReleasesRefl(env, w, hs);
    } else {
      var (w1, ok) := Discard(env, w, tasks[i].node, tasks[i].hash);
      DiscardEffect(env, w, tasks[i].node, tasks[i].hash);
      F.DiscardReleases(env, w, tasks[i].node, tasks[i].hash, hs);
      CleanupExact(env, w1, first, tasks, i + 1, hs);
      YieldedNext(env, first, tasks, i);
      F.ReleasesTrans(env, w, w1, CleanupFrom(env, w, tasks, i), hs);
    }
  }

  lemma YieldedNext(env: Env, first: nat, tasks: seq<Loc>, i: nat)
    requires i < |tasks|
    ensures Loc(tasks[i].hash, tasks[i].node) == tasks[i]
    ensures Yielded(env, first, tasks, i) == Yielded(env, first, tasks, i + 1)
            + if env.deletes(first + i, tasks[i].node) == Deleted then {tasks[i]} else {}
  {
  }

  lemma OrphansWithout(w: World, w': World, gone: set<Loc>)
    requires SameFrame(w, w') && w'.locs.Keys == w.locs.Keys - gone
    ensures Orphans(w') == Orphans(w) - gone
  {
    FrameKeepsUse(w, w');
    assert forall k: Loc :: Online(w', k.node) <==> k.node in OnlineNodes(w');
    assert forall k: Loc :: Online(w, k.node) <==> k.node in OnlineNodes(w);
  }

  /** Exactly the listed orphans whose deletion is answered go, from the tables and from their nodes. */
  lemma CleanupOutcome(env: Env, w: World)
    ensures var w', gone := CleanupOrphanChunks(env, w),
                            Yielded(env, w.calls, OrphanChunkTasks(w, TASK_LIMIT), 0);
            && w'.locs.Keys == w.locs.Keys - gone && Orphans(w') == Orphans(w) - gone && gone <= Orphans(w)
            && (forall k :: k in gone ==> !Holds(w', k.node, k.hash))
            && forall n, h :: h in InUse(w) ==> (Holds(w', n, h) <==> Holds(w, n, h))
  {
    var w', tasks := CleanupOrphanChunks(env, w), OrphanChunkTasks(w, TASK_LIMIT);
    var hs := set k | k in Orphans(w) :: k.hash;
    OrphanTasksAre(w, TASK_LIMIT);
    CleanupExact(env, w, w.calls, tasks, 0, hs);
    OrphansWithout(w, w', Yielded(env, w.calls, tasks, 0));
    GoneFromDisk(w, w', Yielded(env, w.calls, tasks, 0), hs);
  }

  lemma GoneFromDisk(w: World, w': World, gone: set<Loc>, hs: set<Hash>)
    requires F.Sheds(w, w', hs) && w'.locs.Keys == w.locs.Keys - gone && gone <= Orphans(w)
    requires hs == set k | k in Orphans(w) :: k.hash
    ensures forall k :: k in gone ==> !Holds(w', k.node, k.hash)
    ensures forall n, h :: h in InUse(w) ==> (Holds(w', n, h) <==> Holds(w, n, h))
  {
    assert forall k :: k in gone ==> k in w.locs && k !in w'.locs;
  }

  /** With obedient nodes none of the listed is left, and if the list could hold them all, none at all. */
  lemma ObeyedCleanup(env: Env, w: World)
    requires Obedient(env, w.calls)
    ensures Orphans(CleanupOrphanChunks(env, w)) == Orphans(w) - Elements(OrphanChunkTasks(w, TASK_LIMIT))
    ensures |Orphans(w)| <= TASK_LIMIT ==> Orphans(CleanupOrphanChunks(env, w)) == {}
  {
    var tasks := OrphanChunkTasks(w, TASK_LIMIT);
    CleanupOutcome(env, w);
    OrphanTasksAre(w, TASK_LIMIT);
    assert Yielded(env, w.calls, tasks, 0) == Elements(tasks);
    SizeOfElements(tasks);
    if |Orphans(w)| <= TASK_LIMIT { SameSize(Elements(tasks), Orphans(w)); }
  }

  lemma {:induction false} SameSize<T>(a: set<T>, b: set<T>)
    requires a <= b && |a| >= |b|
    ensures a == b
  {
    if a != b {
      var e :| e in b && e !in a;
      SubsetSize(a, b - {e});
    }
  }

  // ---- One prune task ------------------------------------------------------------------

  /** The jth copy goes exactly if its deletion is answered and fewer than limit were before it. */
  ghost predicate Goes(answers: seq<bool>, j: nat, limit: int)
    requires j < |answers|
  {
    answers[j] && Yes(answers, j) < limit
  }

  /** The nodes at the positions from the ith on that go. */
  ghost function Gone(nodes: seq<NodeId>, answers: seq<bool>, i: nat, limit: int): set<NodeId>
    requires |answers| == |nodes|
  {
    set j | i <= j < |nodes| && Goes(answers, j, limit) :: nodes[j]
  }

  lemma GoneNext(nodes: seq<NodeId>, answers: seq<bool>, i: nat, limit: int)
    requires i < |nodes| == |answers|
    ensures Gone(nodes, answers, i, limit)
         == Gone(nodes, answers, i + 1, limit) + if Goes(answers, i, limit) then {nodes[i]} else {}
  {
  }

  lemma {:induction false} GoneNone(nodes: seq<NodeId>, answers: seq<bool>, i: nat, limit: int)
    requires i <= |nodes| == |answers| && (i == |nodes| || Yes(answers, i) >= limit)
    ensures Gone(nodes, answers, i, limit) == {}
  {
    forall j | i <= j < |nodes| ensures !Goes(answers, j, limit) { YesMonotone(answers, i, j); }
  }

  /** How many go in all: as many as answer, up to the limit. */
  lemma {:induction false} GoneSize(nodes: seq<NodeId>, answers: seq<bool>, i: nat, limit: nat)
    requires i <= |nodes| == |answers| && NoDuplicates(nodes) && Yes(answers, i) <= limit
    ensures |Gone(nodes, answers, i, limit)| == Smaller(limit, Yes(answers, |answers|)) - Yes(answers, i)
    decreases |nodes| - i
  {
    if i == |nodes| || Yes(answers, i) == limit {
      GoneNone(nodes, answers, i, limit);
      YesMonotone(answers, i, |answers|);
    } else {
      GoneNext(nodes, answers, i, limit);
      GoneSize(nodes, answers, i + 1, limit);
      assert nodes[i] !in Gone(nodes, answers, i + 1, limit);
    }
  }

  /** Locations of other chunks are untouched. */
  ghost predicate OnlyThisChunk(w: World, w': World, h: Hash) {
    && SameFrame(w, w')
    && (forall k: Loc :: k.hash != h ==> (k in w'.locs <==> k in w.locs))
    && OthersKeepActive(w, w', h)
  }

  lemma ShedsOnlyThis(w: World, w': World, h: Hash)
    requires F.Sheds(w, w', {h})
    ensures OnlyThisChunk(w, w', h)
  {
    forall g | g != h ensures Active(w', g) == Active(w, g) { ActiveAfter(w, w', g); }
  }

  ghost predicate PrunedFrom(w: World, w': World, t: PruneTask, answers: seq<bool>, i: nat)
    requires |answers| == |t.locations|
  {
    F.Sheds(w, w', {t.hash}) && Active(w', t.hash) == Active(w, t.hash) - Gone(t.locations, answers, i, t.extra)
  }

  lemma PruneFirst(env: Env, w: World, t: PruneTask, i: nat, answer: bool)
    requires i < |t.locations| && answer == (env.deletes(w.calls, t.locations[i]) == Deleted)
    ensures var (w1, ok) := Discard(env, w, t.locations[i], t.hash);
            && ok == answer && F.Sheds(w, w1, {t.hash}) && w1.calls == w.calls + 1
            && Active(w1, t.hash) == Active(w, t.hash) - if answer then {t.locations[i]} else {}
  {
    DiscardEffect(env, w, t.locations[i], t.hash);
    DiscardActive(env, w, t.locations[i], t.hash, t.hash);
    F.DiscardSheds(env, w, t.locations[i], t.hash, {t.hash});
  }

  lemma {:induction false} PrunedNext(w: World, w1: World, w2: World, t: PruneTask, answers: seq<bool>, i: nat)
    requires i < |t.locations| == |answers| && Yes(answers, i) < t.extra && F.Sheds(w, w1, {t.hash})
    requires Active(w1, t.hash) == Active(w, t.hash) - if answers[i] then {t.locations[i]} else {}
    requires PrunedFrom(w1, w2, t, answers, i + 1)
    ensures PrunedFrom(w, w2, t, answers, i)
  {
    GoneNext(t.locations, answers, i, t.extra);
    F.ShedsTrans(w, w1, w2, {t.hash});
  }

  lemma {:induction false} PrunedNone(w: World, t: PruneTask, answers: seq<bool>, i: nat)
    requires i <= |t.locations| == |answers| && (i == |t.locations| || Yes(answers, i) >= t.extra)
    ensures PrunedFrom(w, w, t, answers, i)
  {
    GoneNone(t.locations, answers, i, t.extra);
    F.ShedsRefl(w, {t.hash});
  }

  lemma {:induction false} PruneExact(env: Env, w: World, t: PruneTask, first: nat, i: nat, removed: nat,
                                      answers: seq<bool>)
    requires i <= |t.locations| && answers == Deletions(env, first, t.locations)
    requires w.calls == first + i && removed == Yes(answers, i) <= t.extra == t.active - t.desired
    ensures PrunedFrom(w, PruneFrom(env, w, t, i, removed), t, answers, i)
    decreases |t.locations| - i
  {
    if i == |t.locations| || removed >= t.extra {
      PrunedNone(w, t, answers, i);
    } else {
      var (w1, ok) := Discard(env, w, t.locations[i], t.hash);
      PruneFirst(env, w, t, i, answers[i]);
      PruneExact(env, w1, t, first, i + 1, if ok then removed + 1 else removed, answers);
      PrunedNext(w, w1, PruneFrom(env, w, t, i, removed), t, answers, i);
    }
  }

  /** A prune task that lists the chunk's active copies and what to leave of them. */
  ghost predicate Prunes(w: World, t: PruneTask) {
    && t.extra == t.active - t.desired >= 0 && t.active == |Active(w, t.hash)|
    && NoDuplicates(t.locations) && Elements(t.locations) == Active(w, t.hash)
  }

  /** What the task did: which copies went, from the tables and their nodes, and how many were left. */
  ghost predicate Pruned(w: World, w': World, t: PruneTask, answers: seq<bool>) {
    && |answers| == |t.locations|
    && PrunedFrom(w, w', t, answers, 0)
    && |Active(w', t.hash)| == U.Larger(t.desired, t.active - Yes(answers, |answers|))
  }

  /**
   * A prune task, whatever the nodes answer: the first copies of its list whose deletion is answered
   * go, no more than are too many, so max(desired, active - answered) active copies are left.
   */
  lemma {:induction false} PruneOutcome(env: Env, w: World, t: PruneTask)
    requires Prunes(w, t)
    ensures Pruned(w, Prune(env, w, t), t, Deletions(env, w.calls, t.locations))
  {
    var answers := Deletions(env, w.calls, t.locations);
    var gone := Gone(t.locations, answers, 0, t.extra);
    GoneSize(t.locations, answers, 0, t.extra);
    forall n | n in gone ensures n in Active(w, t.hash) { assert n in Elements(t.locations); }
    if t.extra > 0 { PruneExact(env, w, t, w.calls, 0, 0, answers); } else { PrunedNone(w, t, answers, 0); }
  }

  // ---- The prune phase -----------------------------------------------------------------

  /** The cluster after the first i tasks. */
  ghost function PruneUpTo(env: Env, w: World, tasks: seq<PruneTask>, i: nat): World
    requires i <= |tasks|
  {
    if i == 0 then w else Prune(env, PruneUpTo(env, w, tasks, i - 1), tasks[i - 1])
  }

  lemma {:induction false} PruneAllIs(env: Env, w: World, tasks: seq<PruneTask>, i: nat)
    requires i <= |tasks|
    ensures PruneAllFrom(env, PruneUpTo(env, w, tasks, i), tasks, i) == PruneUpTo(env, w, tasks, |tasks|)
    decreases |tasks| - i
  {
    if i < |tasks| { PruneAllIs(env, w, tasks, i + 1); }
  }

  lemma {:induction false} PruneFromReleases(env: Env, w: World, t: PruneTask, i: nat, removed: nat, hs: set<Hash>)
    requires i <= |t.locations| && t.hash in hs
    ensures F.Releases(env, w, PruneFrom(env, w, t, i, removed), hs)
    decreases |t.locations| - i
  {
    if i == |t.locations| || removed >= t.extra || t.active - removed <= t.desired {
      F.ReleasesRefl(env, w, hs);
    } else {
      var (w1, ok) := Discard(env, w, t.locations[i], t.hash);
      F.DiscardReleases(env, w, t.locations[i], t.hash, hs);
      PruneFromReleases(env, w1, t, i + 1, if ok then removed + 1 else removed, hs);
      F.ReleasesTrans(env, w, w1, PruneFrom(env, w, t, i, removed), hs);
    }
  }

  lemma {:induction false} PruneReleases(env: Env, w: World, t: PruneTask, hs: set<Hash>)
    requires t.hash in hs
    ensures F.Releases(env, w, Prune(env, w, t), hs)
  {
    F.ReleasesRefl(env, w, hs);
    PruneFromReleases(env, w, t, 0, 0, hs);
  }

  lemma {:induction false} PruneOnlyThis(env: Env, w: World, t: PruneTask)
    ensures OnlyThisChunk(w, Prune(env, w, t), t.hash)
  {
    PruneReleases(env, w, t, {t.hash});
    ShedsOnlyThis(w, Prune(env, w, t), t.hash);
  }

  lemma {:induction false} PruneAllReleases(env: Env, w: World, tasks: seq<PruneTask>, i: nat, hs: set<Hash>)
    requires i <= |tasks| && forall j :: 0 <= j < |tasks| ==> tasks[j].hash in hs
    ensures F.Releases(env, w, PruneAllFrom(env, w, tasks, i), hs)
    decreases |tasks| - i
  {
    if i == |tasks| {
      F.ReleasesRefl(env, w, hs);
    } else {
      var w1 := Prune(env, w, tasks[i]);
      PruneReleases(env, w, tasks[i], hs);
      PruneAllReleases(env, w1, tasks, i + 1, hs);
      F.ReleasesTrans(env, w, w1, PruneAllFrom(env, w, tasks, i), hs);
    }
  }

  /** Tasks about other chunks leave a chunk's active copies alone. */
  lemma {:induction false} PrunesElsewhere(env: Env, w: World, tasks: seq<PruneTask>, i: nat, j: nat, h: Hash)
    requires i <= j <= |tasks| && forall k :: i <= k < j ==> tasks[k].hash != h
    ensures Active(PruneUpTo(env, w, tasks, j), h) == Active(PruneUpTo(env, w, tasks, i), h)
    decreases j
  {
    if i < j {
      PrunesElsewhere(env, w, tasks, i, j - 1, h);
      PruneOnlyThis(env, PruneUpTo(env, w, tasks, j - 1), tasks[j - 1]);
    }
  }

  ghost predicate PrunedAs(w: World, w': World, t: PruneTask, answers: seq<bool>)
    requires |answers| == |t.locations|
  {
    && Active(w', t.hash) == Active(w, t.hash) - Gone(t.locations, answers, 0, t.extra)
    && |Active(w', t.hash)| == U.Larger(t.desired, t.active - Yes(answers, |answers|))
  }

  /** What the phase did to the chunk of its ith task: what the task did when it was its turn. */
  ghost predicate PrunedInTurn(env: Env, w: World, w': World, tasks: seq<PruneTask>, i: nat)
    requires i < |tasks|
  {
    PrunedAs(w, w', tasks[i], Deletions(env, PruneUpTo(env, w, tasks, i).calls, tasks[i].locations))
  }

  lemma PrunedBetween(w: World, v: World, v': World, w': World, t: PruneTask, answers: seq<bool>)
    requires Pruned(v, v', t, answers) && Active(v, t.hash) == Active(w, t.hash)
    requires Active(w', t.hash) == Active(v', t.hash)
    ensures PrunedAs(w, w', t, answers)
  {
  }

  lemma {:induction false} PruneThen(env: Env, w: World, v: World, w': World, t: PruneTask)
    requires Prunes(w, t) && Active(v, t.hash) == Active(w, t.hash)
    requires Active(w', t.hash) == Active(Prune(env, v, t), t.hash)
    ensures PrunedAs(w, w', t, Deletions(env, v.calls, t.locations))
  {
    PruneOutcome(env, v, t);
    PrunedBetween(w, v, Prune(env, v, t), w', t, Deletions(env, v.calls, t.locations));
  }

  lemma {:induction false} PruneUpToNext(env: Env, w: World, tasks: seq<PruneTask>, i: nat)
    requires i < |tasks|
    ensures PruneUpTo(env, w, tasks, i + 1) == Prune(env, PruneUpTo(env, w, tasks, i), tasks[i])
  {
  }

  lemma {:induction false} PruneTurn(env: Env, w: World, tasks: seq<PruneTask>, i: nat)
    requires i < |tasks| && DistinctPrunes(tasks) && Prunes(w, tasks[i])
    ensures PrunedInTurn(env, w, PruneUpTo(env, w, tasks, |tasks|), tasks, i)
  {
    PrunesElsewhere(env, w, tasks, 0, i, tasks[i].hash);
    PrunesElsewhere(env, w, tasks, i + 1, |tasks|, tasks[i].hash);
    PruneUpToNext(env, w, tasks, i);
    PruneThen(env, w, PruneUpTo(env, w, tasks, i), PruneUpTo(env, w, tasks, |tasks|), tasks[i]);
  }

  lemma PruneTaskPrunes(w: World, t: PruneTask)
    requires IsPruneTask(w, t)
    ensures Prunes(w, t)
  {
  }

  /**
   * The prune phase, whatever the nodes answer, works through its whole list: each listed chunk loses
   * the first copies whose deletion is answered and keeps max(desired, active - answered), and no
   * other chunk loses one.
   */
  lemma {:induction false} PrunePhaseOutcome(env: Env, w: World)
    requires ForeignKeys(w)
    ensures var w', tasks := PruneExtraCopies(env, w), PruneTasks(w, TASK_LIMIT);
            && w' == PruneUpTo(env, w, tasks, |tasks|)
            && (forall i :: 0 <= i < |tasks| ==> PrunedInTurn(env, w, w', tasks, i))
            && forall h :: (forall i :: 0 <= i < |tasks| ==> tasks[i].hash != h) ==> Active(w', h) == Active(w, h)
  {
    var tasks := PruneTasks(w, TASK_LIMIT);
    PruneAllIs(env, w, tasks, 0);
    PruneTasksAre(w, TASK_LIMIT);
    forall i | 0 <= i < |tasks| ensures PrunedInTurn(env, w, PruneUpTo(env, w, tasks, |tasks|), tasks, i) {
      PruneTaskPrunes(w, tasks[i]);
      PruneTurn(env, w, tasks, i);
    }
    forall h | forall i :: 0 <= i < |tasks| ==> tasks[i].hash != h
      ensures Active(PruneUpTo(env, w, tasks, |tasks|), h) == Active(w, h)
    {
      PrunesElsewhere(env, w, tasks, 0, |tasks|, h);
    }
  }

  lemma {:induction false} UpToCalls(env: Env, w: World, tasks: seq<PruneTask>, i: nat)
    requires i <= |tasks|
    ensures PruneUpTo(env, w, tasks, i).calls >= w.calls
  {
    if i > 0 {
      UpToCalls(env, w, tasks, i - 1);
      PruneOnlyThis(env, PruneUpTo(env, w, tasks, i - 1), tasks[i - 1]);
    }
  }

  /** With obedient nodes every listed chunk ends with exactly its desired copies. */
  lemma {:induction false} ObeyedPrune(env: Env, w: World)
    requires ForeignKeys(w) && Obedient(env, w.calls)
    ensures var w', tasks := PruneExtraCopies(env, w), PruneTasks(w, TASK_LIMIT);
            forall i :: 0 <= i < |tasks| ==> |Active(w', tasks[i].hash)| == Desired(w, tasks[i].hash)
  {
    var w', tasks := PruneExtraCopies(env, w), PruneTasks(w, TASK_LIMIT);
    PrunePhaseOutcome(env, w);
    PruneTasksAre(w, TASK_LIMIT);
    forall i | 0 <= i < |tasks| ensures |Active(w', tasks[i].hash)| == Desired(w, tasks[i].hash) {
      assert PrunedInTurn(env, w, w', tasks, i) && IsPruneTask(w, tasks[i]);
      UpToCalls(env, w, tasks, i);
      AllDeleted(env, PruneUpTo(env, w, tasks, i).calls, tasks[i].locations);
    }
  }

  lemma Obeyed(env: Env, first: nat, call: nat, n: NodeId)
    requires Obedient(env, first) && call >= first
    ensures env.replies(call, n) == Obey && env.deletes(call, n) == Deleted
  {
  }

  lemma {:induction false} AllDeleted(env: Env, first: nat, nodes: seq<NodeId>)
    requires Obedient(env, first)
    ensures Yes(Deletions(env, first, nodes), |nodes|) == |nodes|
  {
    var answers := Deletions(env, first, nodes);
    forall j | 0 <= j < |nodes| ensures answers[j] { Obeyed(env, first, first + j, nodes[j]); }
    AllYes(answers, |nodes|);
  }

  // ---- One repair task -----------------------------------------------------------------

  /** The nodes' answers to storing the chunk in consecutive calls, each with the disk as it is now. */
  ghost function Acceptances(env: Env, w: World, first: nat, nodes: seq<NodeId>, h: Hash, data: Bytes): seq<bool> {
    seq(|nodes|, j requires 0 <= j < |nodes| => U.Takes(env, w, first + j, nodes[j], h, data))
  }

  /** These nodes got a copy, in the tables with this size and on disk with these bytes; nothing else went. */
  ghost predicate Gains(w: World, w': World, h: Hash, data: Bytes, size: nat, nodes: set<NodeId>) {
    && SameFrame(w, w')
    && (forall k: Loc :: k in w'.locs <==> k in w.locs || (k.hash == h && k.node in nodes))
    && (forall k :: k in w.locs && !(k.hash == h && k.node in nodes) ==> w'.locs[k] == w.locs[k])
    && (forall n :: n in nodes ==> w'.locs[Loc(h, n)] == size && Holds(w', n, h))
    && (forall n, g :: Holds(w, n, g) ==> Holds(w', n, g))
    && (forall n, g :: Holds(w', n, g) ==>
          || (g == h && StoreOf(w', n).chunks[g] == data)
          || (Holds(w, n, g) && StoreOf(w', n).chunks[g] == StoreOf(w, n).chunks[g]))
  }

  lemma GainsRefl(w: World, h: Hash, data: Bytes, size: nat)
    ensures Gains(w, w, h, data, size, {})
  {
  }

  lemma GainsTrans(a: World, b: World, c: World, h: Hash, data: Bytes, size: nat, s: set<NodeId>, t: set<NodeId>)
    requires Gains(a, b, h, data, size, s) && Gains(b, c, h, data, size, t) && s !! t
    ensures Gains(a, c, h, data, size, s + t)
  {
  }

  lemma CopyGains(env: Env, w: World, n: NodeId, h: Hash, data: Bytes, size: nat)
    requires MayCopy(w, n, h)
    ensures var (w', ok) := CopyTo(env, w, n, h, data, size);
            Gains(w, w', h, data, size, if ok then {n} else {})
  {
    CopyEffect(env, w, n, h, data, size);
    PutEffect(env, w, n, h, data);
  }

  lemma CopyStoresElsewhere(env: Env, w: World, n: NodeId, h: Hash, data: Bytes, size: nat, m: NodeId)
    requires MayCopy(w, n, h) && m != n
    ensures StoreOf(CopyTo(env, w, n, h, data, size).0, m) == StoreOf(w, m)
  {
    CopyEffect(env, w, n, h, data, size);
    PutEffect(env, w, n, h, data);
  }

  /** These are the answers still to come from the ith candidate on. */
  ghost predicate Foretold(env: Env, w: World, first: nat, nodes: seq<NodeId>, h: Hash, data: Bytes, i: nat,
                           answers: seq<bool>)
  {
    && |answers| == |nodes|
    && forall j :: i <= j < |nodes| ==> answers[j] == U.Takes(env, w, first + j, nodes[j], h, data)
  }

  lemma StillForetold(env: Env, w: World, first: nat, nodes: seq<NodeId>, h: Hash, data: Bytes, size: nat, i: nat,
                      answers: seq<bool>)
    requires i < |nodes| && MayPlace(w, nodes, i, h) && Foretold(env, w, first, nodes, h, data, i, answers)
    ensures Foretold(env, CopyTo(env, w, nodes[i], h, data, size).0, first, nodes, h, data, i + 1, answers)
  {
    var w1 := CopyTo(env, w, nodes[i], h, data, size).0;
    forall j | i + 1 <= j < |nodes| ensures StoreOf(w1, nodes[j]) == StoreOf(w, nodes[j]) {
      CopyStoresElsewhere(env, w, nodes[i], h, data, size, nodes[j]);
    }
  }

  lemma StillMayPlace(env: Env, w: World, nodes: seq<NodeId>, i: nat, h: Hash, data: Bytes, size: nat)
    requires i < |nodes| && MayPlace(w, nodes, i, h)
    ensures MayPlace(CopyTo(env, w, nodes[i], h, data, size).0, nodes, i + 1, h)
  {
    var w1 := CopyTo(env, w, nodes[i], h, data, size).0;
    CopyEffect(env, w, nodes[i], h, data, size);
    forall j | i + 1 <= j < |nodes| ensures MayCopy(w1, nodes[j], h) {
      assert nodes[j] in OnlineNodes(w) && nodes[j] in OnlineNodes(w1);
    }
  }

  /** What is done for the candidates from the ith on. */
  ghost predicate SpreadAs(w: World, w': World, t: RepairTask, data: Bytes, answers: seq<bool>, i: nat)
    requires |answers| == |t.candidates|
  {
    Gains(w, w', t.hash, data, t.size, Gone(t.candidates, answers, i, t.missing))
  }

  lemma SpreadFirst(env: Env, w: World, t: RepairTask, data: Bytes, i: nat, answer: bool)
    requires i < |t.candidates| && MayPlace(w, t.candidates, i, t.hash)
    requires answer == U.Takes(env, w, w.calls, t.candidates[i], t.hash, data)
    ensures var (w1, ok) := CopyTo(env, w, t.candidates[i], t.hash, data, t.size);
            && ok == answer && w1.calls == w.calls + 1
            && Gains(w, w1, t.hash, data, t.size, if answer then {t.candidates[i]} else {})
  {
    U.CopySucceedsIff(env, w, t.candidates[i], t.hash, data, t.size);
    CopyEffect(env, w, t.candidates[i], t.hash, data, t.size);
    CopyGains(env, w, t.candidates[i], t.hash, data, t.size);
  }

  lemma {:induction false} SpreadNext(w: World, w1: World, w2: World, t: RepairTask, data: Bytes, answers: seq<bool>,
                                      i: nat)
    requires i < |t.candidates| == |answers| && Yes(answers, i) < t.missing && NoDuplicates(t.candidates)
    requires Gains(w, w1, t.hash, data, t.size, if answers[i] then {t.candidates[i]} else {})
    requires SpreadAs(w1, w2, t, data, answers, i + 1)
    ensures SpreadAs(w, w2, t, data, answers, i)
  {
    var now := if answers[i] then {t.candidates[i]} else {};
    var later := Gone(t.candidates, answers, i + 1, t.missing);
    GoneNext(t.candidates, answers, i, t.missing);
    assert now !! later;
    GainsTrans(w, w1, w2, t.hash, data, t.size, now, later);
    assert now + later == Gone(t.candidates, answers, i, t.missing);
  }

  lemma {:induction false} SpreadNone(w: World, t: RepairTask, data: Bytes, answers: seq<bool>, i: nat)
    requires i <= |t.candidates| == |answers| && (i == |t.candidates| || Yes(answers, i) >= t.missing)
    ensures SpreadAs(w, w, t, data, answers, i)
  {
    GoneNone(t.candidates, answers, i, t.missing);
    GainsRefl(w, t.hash, data, t.size);
  }

  /** The round of copies has come to the ith candidate, with these answers from here on. */
  ghost predicate SpreadReady(env: Env, w: World, t: RepairTask, data: Bytes, first: nat, i: nat, copied: nat,
                              answers: seq<bool>)
  {
    && i <= |t.candidates| && MayPlace(w, t.candidates, i, t.hash) && w.calls == first + i
    && Foretold(env, w, first, t.candidates, t.hash, data, i, answers) && copied == Yes(answers, i)
  }

  lemma {:induction false} SpreadReadyNext(env: Env, w: World, t: RepairTask, data: Bytes, first: nat, i: nat,
                                           copied: nat, answers: seq<bool>)
    requires SpreadReady(env, w, t, data, first, i, copied, answers) && i < |t.candidates|
    ensures var (w1, ok) := CopyTo(env, w, t.candidates[i], t.hash, data, t.size);
            && ok == answers[i]
            && SpreadReady(env, w1, t, data, first, i + 1, if ok then copied + 1 else copied, answers)
            && Gains(w, w1, t.hash, data, t.size, if ok then {t.candidates[i]} else {})
  {
    SpreadFirst(env, w, t, data, i, answers[i]);
    StillForetold(env, w, first, t.candidates, t.hash, data, t.size, i, answers);
    StillMayPlace(env, w, t.candidates, i, t.hash, data, t.size);
  }

  lemma {:induction false} SpreadReadyNow(env: Env, w: World, t: RepairTask, data: Bytes, first: nat, i: nat,
                                          copied: nat, answers: seq<bool>)
    requires SpreadReady(env, w, t, data, first, i, copied, answers)
    ensures i <= |t.candidates| == |answers| && copied == Yes(answers, i) && NoDuplicates(t.candidates)
  {
  }

  lemma {:induction false} SpreadExact(env: Env, w: World, t: RepairTask, data: Bytes, first: nat, i: nat, copied: nat,
                                       answers: seq<bool>, ready: (World, nat, nat) -> bool)
    requires |answers| == |t.candidates| && i <= |t.candidates| && ready(w, i, copied)
    requires forall x: World, k: nat, c: nat :: ready(x, k, c) <==> SpreadReady(env, x, t, data, first, k, c, answers)
    ensures SpreadAs(w, SpreadFrom(env, w, t, data, i, copied), t, data, answers, i)
    decreases |t.candidates| - i
  {
    SpreadReadyNow(env, w, t, data, first, i, copied, answers);
    if i == |t.candidates| || copied >= t.missing {
      SpreadNone(w, t, data, answers, i);
    } else {
      var (w1, ok) := CopyTo(env, w, t.candidates[i], t.hash, data, t.size);
      SpreadReadyNext(env, w, t, data, first, i, copied, answers);
      SpreadExact(env, w1, t, data, first, i + 1, if ok then copied + 1 else copied, answers, ready);
      SpreadNext(w, w1, SpreadFrom(env, w, t, data, i, copied), t, data, answers, i);
    }
  }

  /** The new copies are active ones, of this chunk only. */
  lemma GainsActive(w: World, w': World, h: Hash, data: Bytes, size: nat, nodes: set<NodeId>)
    requires Gains(w, w', h, data, size, nodes) && nodes <= OnlineNodes(w)
    ensures Active(w', h) == Active(w, h) + nodes && OthersKeepActive(w, w', h)
  {
    forall g | g != h ensures Active(w', g) == Active(w, g) { ActiveAfter(w, w', g); }
    assert forall n :: n in Active(w', h) <==> n in OnlineNodes(w') && Loc(h, n) in w'.locs;
    assert forall n :: n in Active(w, h) <==> n in OnlineNodes(w) && Loc(h, n) in w.locs;
  }

  /** The bytes a repair task gets from its sources, if they are the chunk's. */
  ghost function Fetched(env: Env, w: World, t: RepairTask): Option<Bytes> {
    var body := FetchFromAny(env, w, t.sources, 0, t.hash).1;
    if body.Some? && env.digest(body.value) == t.hash then body else None
  }

  /** The candidates' answers after the fetch. */
  ghost function Offers(env: Env, w: World, t: RepairTask, data: Bytes): seq<bool> {
    var v := FetchFromAny(env, w, t.sources, 0, t.hash).0;
    Acceptances(env, v, v.calls, t.candidates, t.hash, data)
  }

  /** The nodes a repair task brings a copy to. */
  ghost function Reached(env: Env, w: World, t: RepairTask): set<NodeId> {
    match Fetched(env, w, t)
    case None => {}
    case Some(data) => Gone(t.candidates, Offers(env, w, t, data), 0, t.missing)
  }

  /** How many of its candidates take the chunk. */
  ghost function Willing(env: Env, w: World, t: RepairTask): nat {
    match Fetched(env, w, t)
    case None => 0
    case Some(data) => Yes(Offers(env, w, t, data), |t.candidates|)
  }

  /** What a repair task does: with the chunk fetched it brings copies to the nodes it reaches, else nothing. */
  ghost predicate Mended(env: Env, w: World, w': World, t: RepairTask) {
    match Fetched(env, w, t)
    case None => OnlyCalls(w, w')
    case Some(data) => Gains(w, w', t.hash, data, t.size, Reached(env, w, t))
  }

  /** How that counts. */
  ghost predicate Repaired(env: Env, w: World, w': World, t: RepairTask) {
    && Mended(env, w, w', t)
    && Active(w', t.hash) == Active(w, t.hash) + Reached(env, w, t)
    && |Active(w', t.hash)| == Smaller(t.desired, t.active + Willing(env, w, t))
    && OnlyThisChunk(w, w', t.hash)
  }

  lemma GainsAfterCalls(w: World, v: World, w': World, h: Hash, data: Bytes, size: nat, nodes: set<NodeId>)
    requires OnlyCalls(w, v) && Gains(v, w', h, data, size, nodes)
    ensures Gains(w, w', h, data, size, nodes)
  {
    assert OnlineNodes(v) == OnlineNodes(w);
    assert forall n :: StoreOf(v, n) == StoreOf(w, n);
  }

  lemma CallsGain(w: World, w': World, h: Hash, data: Bytes, size: nat)
    requires OnlyCalls(w, w')
    ensures Gains(w, w', h, data, size, {})
  {
    GainsRefl(w', h, data, size);
    GainsAfterCalls(w, w', w', h, data, size, {});
  }

  lemma NothingOffered(t: RepairTask, answers: seq<bool>)
    requires |answers| == |t.candidates| && (t.missing <= 0 || t.candidates == [])
    ensures Gone(t.candidates, answers, 0, t.missing) == {}
  {
    GoneNone(t.candidates, answers, 0, t.missing);
  }

  lemma ReadyPlaces(w: World, t: RepairTask)
    requires RepairReady(w, t, 0, 0)
    ensures MayPlace(w, t.candidates, 0, t.hash)
  {
  }

  lemma {:induction false} SpreadAfterFetch(env: Env, w: World, t: RepairTask, v: World, data: Bytes)
    requires RepairReady(w, t, 0, 0) && OnlyCalls(w, v) && t.missing > 0
    ensures var answers := Acceptances(env, v, v.calls, t.candidates, t.hash, data);
            Gains(w, SpreadFrom(env, v, t, data, 0, 0), t.hash, data, t.size,
                  Gone(t.candidates, answers, 0, t.missing))
  {
    var answers := Acceptances(env, v, v.calls, t.candidates, t.hash, data);
    RepairReadyAfterCalls(w, v, t);
    ReadyPlaces(v, t);
    var first := v.calls;
    var ready := (x: World, k: nat, c: nat) => SpreadReady(env, x, t, data, first, k, c, answers);
    SpreadExact(env, v, t, data, first, 0, 0, answers, ready);
    GainsAfterCalls(w, v, SpreadFrom(env, v, t, data, 0, 0), t.hash, data, t.size,
                    Gone(t.candidates, answers, 0, t.missing));
  }

  lemma {:induction false} RepairMended(env: Env, w: World, t: RepairTask)
    requires RepairReady(w, t, 0, 0)
    ensures Mended(env, w, Repair(env, w, t), t)
  {
    var (v, body) := FetchFromAny(env, w, t.sources, 0, t.hash);
    FetchOnlyCalls(env, w, t.sources, 0, t.hash);
    if t.missing <= 0 || t.candidates == [] {
      match Fetched(env, w, t)
      case None =>
      case Some(data) =>
        NothingOffered(t, Offers(env, w, t, data));
        CallsGain(w, w, t.hash, data, t.size);
    } else if body.Some? && env.digest(body.value) == t.hash {
      NoSources(env, w, t);
      SpreadAfterFetch(env, w, t, v, body.value);
    }
  }

  lemma {:induction false} NoSources(env: Env, w: World, t: RepairTask)
    requires FetchFromAny(env, w, t.sources, 0, t.hash).1.Some?
    ensures t.sources != []
  {
  }

  lemma ReachedSize(env: Env, w: World, t: RepairTask)
    requires RepairReady(w, t, 0, 0)
    ensures |Reached(env, w, t)| == Smaller(t.missing, Willing(env, w, t))
    ensures Reached(env, w, t) <= OnlineNodes(w) && Reached(env, w, t) !! Active(w, t.hash)
  {
    match Fetched(env, w, t)
    case None =>
    case Some(data) => GoneSize(t.candidates, Offers(env, w, t, data), 0, t.missing);
  }

  /**
   * A repair task, whatever the nodes answer: once the chunk's bytes are fetched, the first candidates
   * that take them get a copy, no more than are missing, so min(desired, active + willing) copies are
   * active then; the new locations carry the task's size, and nothing else changes.
   */
  lemma {:induction false} RepairOutcome(env: Env, w: World, t: RepairTask)
    requires RepairReady(w, t, 0, 0)
    ensures Repaired(env, w, Repair(env, w, t), t)
  {
    var w' := Repair(env, w, t);
    RepairMended(env, w, t);
    ReachedSize(env, w, t);
    if Fetched(env, w, t).Some? {
      MendedActive(w, w', t.hash, Fetched(env, w, t).value, t.size, Reached(env, w, t));
    } else {
      MendedActive(w, w', t.hash, [], t.size, {});
    }
  }

  lemma MendedActive(w: World, w': World, h: Hash, data: Bytes, size: nat, nodes: set<NodeId>)
    requires nodes <= OnlineNodes(w) && nodes !! Active(w, h)
    requires Gains(w, w', h, data, size, nodes) || (OnlyCalls(w, w') && nodes == {})
    ensures Active(w', h) == Active(w, h) + nodes && |Active(w', h)| == |Active(w, h)| + |nodes|
    ensures OnlyThisChunk(w, w', h)
  {
    if !Gains(w, w', h, data, size, nodes) { CallsGain(w, w', h, data, size); }
    GainsActive(w, w', h, data, size, nodes);
  }

  // ---- The repair phase ----------------------------------------------------------------

  /** The cluster after the first i tasks. */
  ghost function RepairUpTo(env: Env, w: World, tasks: seq<RepairTask>, i: nat): World
    requires i <= |tasks|
  {
    if i == 0 then w else Repair(env, RepairUpTo(env, w, tasks, i - 1), tasks[i - 1])
  }

  lemma {:induction false} RepairAllIs(env: Env, w: World, tasks: seq<RepairTask>, i: nat)
    requires i <= |tasks|
    ensures RepairAllFrom(env, RepairUpTo(env, w, tasks, i), tasks, i) == RepairUpTo(env, w, tasks, |tasks|)
    decreases |tasks| - i
  {
    if i < |tasks| { RepairAllIs(env, w, tasks, i + 1); }
  }

  /** What holds after i tasks and is kept by each of the next holds after j tasks. */
  lemma {:induction false} TaskByTask(env: Env, w: World, tasks: seq<RepairTask>, i: nat, j: nat,
                                      p: (World, nat) -> bool)
    requires i <= j <= |tasks| && p(RepairUpTo(env, w, tasks, i), i)
    requires forall x: World, k: nat :: i <= k < j && p(x, k) ==> p(Repair(env, x, tasks[k]), k + 1)
    ensures p(RepairUpTo(env, w, tasks, j), j)
    decreases j
  {
    if i < j { TaskByTask(env, w, tasks, i, j - 1, p); }
  }

  /** From the ith on the tasks still say the truth about their chunks. */
  ghost predicate ReadyFrom(w: World, tasks: seq<RepairTask>, i: nat) {
    DistinctRepairs(tasks) && forall j :: i <= j < |tasks| ==> RepairReady(w, tasks[j], 0, 0)
  }

  lemma {:induction false} ReadyNext(env: Env, w: World, tasks: seq<RepairTask>, i: nat)
    requires i < |tasks| && ReadyFrom(w, tasks, i)
    ensures ReadyFrom(Repair(env, w, tasks[i]), tasks, i + 1)
  {
    var w1 := Repair(env, w, tasks[i]);
    RepairMends(env, false, w, tasks[i]);
    forall j | i + 1 <= j < |tasks| ensures RepairReady(w1, tasks[j], 0, 0) {
      RepairReadyElsewhere(w, w1, tasks[i].hash, tasks[j]);
    }
  }

  lemma {:induction false} ReadyInTurn(env: Env, w: World, tasks: seq<RepairTask>, i: nat)
    requires i <= |tasks| && ReadyFrom(w, tasks, 0)
    ensures ReadyFrom(RepairUpTo(env, w, tasks, i), tasks, i)
  {
    var p := (x: World, k: nat) => ReadyFrom(x, tasks, k);
    forall x: World, k: nat | k < i && p(x, k) ensures p(Repair(env, x, tasks[k]), k + 1) {
      ReadyNext(env, x, tasks, k);
    }
    TaskByTask(env, w, tasks, 0, i, p);
  }

  ghost predicate ReadyAndSame(w: World, tasks: seq<RepairTask>, i: nat, h: Hash, active: set<NodeId>) {
    ReadyFrom(w, tasks, i) && Active(w, h) == active
  }

  lemma {:induction false} RepairLeaves(env: Env, w: World, tasks: seq<RepairTask>, i: nat, h: Hash,
                                        active: set<NodeId>)
    requires i < |tasks| && ReadyAndSame(w, tasks, i, h, active) && tasks[i].hash != h
    ensures ReadyAndSame(Repair(env, w, tasks[i]), tasks, i + 1, h, active)
  {
    RepairOutcome(env, w, tasks[i]);
    ReadyNext(env, w, tasks, i);
  }

  /** Tasks about other chunks leave a chunk's active copies alone. */
  lemma {:induction false} RepairsElsewhere(env: Env, w: World, tasks: seq<RepairTask>, i: nat, j: nat, h: Hash)
    requires i <= j <= |tasks| && ReadyFrom(w, tasks, 0) && forall k :: i <= k < j ==> tasks[k].hash != h
    ensures Active(RepairUpTo(env, w, tasks, j), h) == Active(RepairUpTo(env, w, tasks, i), h)
  {
    var active := Active(RepairUpTo(env, w, tasks, i), h);
    var p := (x: World, k: nat) => ReadyAndSame(x, tasks, k, h, active);
    ReadyInTurn(env, w, tasks, i);
    forall x: World, k: nat | i <= k < j && p(x, k) ensures p(Repair(env, x, tasks[k]), k + 1) {
      RepairLeaves(env, x, tasks, k, h, active);
    }
    TaskByTask(env, w, tasks, i, j, p);
  }

  /** What the phase did to the chunk of t, whose turn came in the cluster v. */
  ghost predicate RepairedAs(env: Env, w: World, v: World, w': World, t: RepairTask) {
    && Active(w', t.hash) == Active(w, t.hash) + Reached(env, v, t)
    && |Active(w', t.hash)| == Smaller(t.desired, t.active + Willing(env, v, t))
  }

  ghost predicate RepairedInTurn(env: Env, w: World, w': World, tasks: seq<RepairTask>, i: nat)
    requires i < |tasks|
  {
    RepairedAs(env, w, RepairUpTo(env, w, tasks, i), w', tasks[i])
  }

  /** The chunk of task i has been worked on, when the cluster was v, and the tasks from k on are ready. */
  ghost predicate DoneAndReady(env: Env, w: World, v: World, x: World, tasks: seq<RepairTask>, i: nat, k: nat) {
    i < |tasks| && ReadyFrom(x, tasks, k) && RepairedAs(env, w, v, x, tasks[i])
  }

  lemma {:induction false} RepairNow(env: Env, w: World, v: World, tasks: seq<RepairTask>, i: nat)
    requires i < |tasks| && ReadyAndSame(v, tasks, i, tasks[i].hash, Active(w, tasks[i].hash))
    ensures DoneAndReady(env, w, v, Repair(env, v, tasks[i]), tasks, i, i + 1)
  {
    RepairOutcome(env, v, tasks[i]);
    ReadyNext(env, v, tasks, i);
  }

  lemma {:induction false} StaysDone(env: Env, w: World, v: World, x: World, tasks: seq<RepairTask>, i: nat, k: nat)
    requires i < k < |tasks| && DoneAndReady(env, w, v, x, tasks, i, k) && DistinctRepairs(tasks)
    ensures DoneAndReady(env, w, v, Repair(env, x, tasks[k]), tasks, i, k + 1)
  {
    RepairOutcome(env, x, tasks[k]);
    ReadyNext(env, x, tasks, k);
  }

  /** What holds before task i, what it makes of it, and what the later tasks keep of that. */
  lemma {:induction false} InTurn(env: Env, w: World, tasks: seq<RepairTask>, i: nat, p: (World, nat) -> bool,
                                  q: (World, World, nat) -> bool)
    requires i < |tasks| && p(w, 0)
    requires forall x: World, k: nat :: k < i && p(x, k) ==> p(Repair(env, x, tasks[k]), k + 1)
    requires forall x: World :: p(x, i) ==> q(x, Repair(env, x, tasks[i]), i + 1)
    requires forall v: World, x: World, k: nat ::
               i < k < |tasks| && q(v, x, k) ==> q(v, Repair(env, x, tasks[k]), k + 1)
    ensures q(RepairUpTo(env, w, tasks, i), RepairUpTo(env, w, tasks, |tasks|), |tasks|)
  {
    TaskByTask(env, w, tasks, 0, i, p);
    var v := RepairUpTo(env, w, tasks, i);
    TaskByTask(env, w, tasks, i + 1, |tasks|, (x: World, k: nat) => q(v, x, k));
  }

  lemma {:induction false} RepairTurn(env: Env, w: World, tasks: seq<RepairTask>, i: nat)
    requires i < |tasks| && ReadyFrom(w, tasks, 0)
    ensures RepairedInTurn(env, w, RepairUpTo(env, w, tasks, |tasks|), tasks, i)
  {
    var h := tasks[i].hash;
    var p := (x: World, k: nat) => ReadyAndSame(x, tasks, k, h, Active(w, h));
    var q := (v: World, x: World, k: nat) => DoneAndReady(env, w, v, x, tasks, i, k);
    forall x: World, k: nat | k < i && p(x, k) ensures p(Repair(env, x, tasks[k]), k + 1) {
      RepairLeaves(env, x, tasks, k, h, Active(w, h));
    }
    forall x: World | p(x, i) ensures q(x, Repair(env, x, tasks[i]), i + 1) { RepairNow(env, w, x, tasks, i); }
    forall v: World, x: World, k: nat | i < k < |tasks| && q(v, x, k)
      ensures q(v, Repair(env, x, tasks[k]), k + 1)
    {
      StaysDone(env, w, v, x, tasks, i, k);
    }
    InTurn(env, w, tasks, i, p, q);
  }

  /**
   * The repair phase, whatever the nodes answer, works through its whole list: each listed chunk gets
   * a copy on the first candidates that take it when it is its turn and ends with
   * min(desired, active + willing) active copies, and no other chunk gets one.
   */
  lemma {:induction false} RepairPhaseOutcome(env: Env, w: World)
    requires Grounded(w)
    ensures var w', tasks := ReplicateMissingCopies(env, w), ReplicationTasks(w, TASK_LIMIT);
            && w' == RepairUpTo(env, w, tasks, |tasks|)
            && (forall i :: 0 <= i < |tasks| ==> RepairedInTurn(env, w, w', tasks, i))
            && forall h :: (forall i :: 0 <= i < |tasks| ==> tasks[i].hash != h) ==> Active(w', h) == Active(w, h)
  {
    var tasks := ReplicationTasks(w, TASK_LIMIT);
    RepairAllIs(env, w, tasks, 0);
    RepairTasksReady(w);
    forall i | 0 <= i < |tasks| ensures RepairedInTurn(env, w, RepairUpTo(env, w, tasks, |tasks|), tasks, i) {
      RepairTurn(env, w, tasks, i);
    }
    forall h | forall i :: 0 <= i < |tasks| ==> tasks[i].hash != h
      ensures Active(RepairUpTo(env, w, tasks, |tasks|), h) == Active(w, h)
    {
      RepairsElsewhere(env, w, tasks, 0, |tasks|, h);
    }
  }
}
