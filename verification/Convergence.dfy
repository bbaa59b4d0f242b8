/**
 * Convergence: on a calm cluster every scheduler pass strictly lowers the distance to the state
 * without work, so that state is reached and kept.
 */
module Convergence {
  import opened Invariants
  import opened Model
  import opened Operations
  import opened Ordering
  import opened Queries
  import opened Runs
  import opened Scheduler
  import opened Sums
  import opened Types

  /** Everybody is online and obeys, missing copies have nodes with room for them, and no chunk is lost. */
  ghost predicate Calm(env: Env, w: World) {
    DeletesAnswered(env) && Roomy(env, w) && Replicated(w) && Durable(w)
  }

  /** Everything about a calm cluster but its room. */
  ghost predicate Orderly(env: Env, w: World) {
    && DeletesAnswered(env)
    && Accounted(env, w) && Injective(env) && RefsGenuine(env, w) && Obedient(env, w.calls)
    && (forall n :: n in w.nodes ==> Online(w, n)) && (forall n :: n in w.nodes ==> Honest(env, w, n))
    && Replicated(w) && Durable(w)
  }

  /** Room is asked only for copies that are missing: where none is, no node needs any. */
  lemma CalmWithoutSpare(env: Env, w: World)
    requires Orderly(env, w) && forall h :: h in InUse(w) ==> Desired(w, h) <= |Active(w, h)|
    ensures Calm(env, w)
  {
  }

  /** A few nodes with room are enough, however full the others are. */
  lemma CalmWithSpareNodes(env: Env, w: World, roomy: set<NodeId>)
    requires Orderly(env, w) && forall n :: n in roomy ==> n in w.nodes && RoomFor(w, n)
    requires forall h :: Wanting(w, h) ==>
               |roomy| >= Desired(w, h) - |Active(w, h)| && forall n :: n in roomy ==> Loc(h, n) !in w.locs
    ensures Calm(env, w)
  {
    forall h ensures Enough(w, h) {
      if Wanting(w, h) {
        forall n | n in roomy ensures n in Spare(w, h) { assert n in w.nodes && Loc(h, n) !in w.locs; }
        SubsetSize(roomy, Spare(w, h));
      }
    }
  }

  /** Room on every node and as many nodes as desired copies are enough too. */
  lemma CalmWithRoomEverywhere(env: Env, w: World)
    requires Orderly(env, w) && forall n :: n in w.nodes ==> RoomFor(w, n)
    requires forall h :: h in InUse(w) ==> Desired(w, h) <= |w.nodes|
    ensures Calm(env, w)
  {
    forall h ensures Enough(w, h) { RoomEverywhereIsEnough(env, w, h); }
  }

  lemma RoomEverywhereIsEnough(env: Env, w: World, h: Hash)
    requires Orderly(env, w) && (forall n :: n in w.nodes ==> RoomFor(w, n))
    requires h in InUse(w) ==> Desired(w, h) <= |w.nodes|
    ensures Enough(w, h)
  {
    var others := w.nodes.Keys - Active(w, h);
    assert |w.nodes| == |w.nodes.Keys| && Active(w, h) <= w.nodes.Keys;
    assert |others| == |w.nodes.Keys| - |Active(w, h)|;
    forall n | n in others ensures n in Spare(w, h) { assert Online(w, n); }
    SubsetSize(others, Spare(w, h));
  }

  /** How far a chunk is from its desired copies. */
  ghost function Deviation(w: World, h: Hash): nat {
    var a, d := |Active(w, h)|, Desired(w, h);
    if a >= d then a - d else d - a
  }

  ghost function Deviations(w: World): map<Hash, nat> {
    map h | h in InUse(w) :: Deviation(w, h)
  }

  /** Orphaned locations plus the sum over the chunks in use of |active - desired|. */
  ghost function Distance(w: World): nat {
    |Orphans(w)| + Total(Deviations(w))
  }

  lemma SteadyKeepsCalm(env: Env, w: World, w': World)
    requires Calm(env, w) && Steady(env, true, w, w')
    ensures Calm(env, w')
  {
    FrameKeepsUse(w, w');
  }

  lemma SteadyDeviation(env: Env, w: World, w': World, h: Hash)
    requires Steady(env, true, w, w') && h in InUse(w)
    ensures h in InUse(w') && Deviation(w', h) <= Deviation(w, h)
  {
    FrameKeepsUse(w, w');
  }

  lemma SteadyDeviations(env: Env, w: World, w': World)
    requires Steady(env, true, w, w')
    ensures Deviations(w').Keys == Deviations(w).Keys
    ensures forall h :: h in InUse(w) ==> Deviations(w')[h] <= Deviations(w)[h]
  {
    FrameKeepsUse(w, w');
    forall h | h in InUse(w) ensures Deviation(w', h) <= Deviation(w, h) { SteadyDeviation(env, w, w', h); }
  }

  /** No phase moves away from the goal. */
  lemma SteadyDistance(env: Env, w: World, w': World)
    requires Steady(env, true, w, w')
    ensures Distance(w') <= Distance(w)
  {
    SteadyDeviations(env, w, w');
    Monotone(Deviations(w'), Deviations(w));
    SmallerSet(Orphans(w'), Orphans(w));
  }

  lemma SmallerSet(a: set<Loc>, b: set<Loc>)
    requires a <= b
    ensures |a| <= |b| && (a != b ==> |a| < |b|)
  {
    SubsetSize(a, b);
    if a != b {
      var e :| e in b && e !in a;
      SubsetSize(a, b - {e});
    }
  }

  lemma FewerOrphans(env: Env, w: World, w': World, k: Loc)
    requires Steady(env, true, w, w') && k in Orphans(w) && k !in Orphans(w')
    ensures Distance(w') < Distance(w)
  {
    SteadyDeviations(env, w, w');
    Monotone(Deviations(w'), Deviations(w));
    SmallerSet(Orphans(w'), Orphans(w));
  }

  lemma SmallerDeviation(env: Env, w: World, w': World, h: Hash)
    requires Steady(env, true, w, w') && h in InUse(w) && Deviation(w', h) < Deviation(w, h)
    ensures Distance(w') < Distance(w)
  {
    SteadyDeviations(env, w, w');
    StrictlyMonotone(Deviations(w'), Deviations(w), h);
    SmallerSet(Orphans(w'), Orphans(w));
  }

  lemma DistanceZero(w: World)
    ensures Distance(w) == 0 <==> Orphans(w) == {} && forall h :: h in InUse(w) ==> |Active(w, h)| == Desired(w, h)
  {
    ZeroTotal(Deviations(w));
    if Distance(w) == 0 {
      forall h | h in InUse(w) ensures |Active(w, h)| == Desired(w, h) { assert Deviations(w)[h] == 0; }
    }
  }

  // ---- Progress of each phase ----------------------------------------------------------

  lemma CleanupProgress(env: Env, w: World)
    requires Calm(env, w) && Orphans(w) != {}
    ensures Distance(CleanupOrphanChunks(env, w)) < Distance(w)
  {
    var tasks := OrphanChunkTasks(w, TASK_LIMIT);
    OrphanTasksAre(w, TASK_LIMIT);
    var k := tasks[0];
    assert k in Orphans(w);
    var w1 := Discard(env, w, k.node, k.hash).0;
    ObeyedDiscard(env, w, k.node, k.hash);
    DiscardEffect(env, w, k.node, k.hash);
    DiscardSteady(env, w, k.node, k.hash);
    FrameKeepsUse(w, w1);
    assert k == Loc(k.hash, k.node) && k !in w1.locs;
    CleanupSteady(env, w1, tasks, 1);
    SteadyTrans(env, true, w, w1, CleanupOrphanChunks(env, w));
    FewerOrphans(env, w, CleanupOrphanChunks(env, w), k);
  }

  /** Losing a copy beyond the desired ones brings a chunk one closer. */
  lemma FewerIsCloser(env: Env, w: World, w1: World, w2: World, h: Hash)
    requires Steady(env, true, w, w1) && Steady(env, true, w1, w2) && h in InUse(w)
    requires |Active(w1, h)| < |Active(w, h)| && |Active(w1, h)| >= Desired(w, h)
    ensures Deviation(w2, h) < Deviation(w, h)
  {
    FrameKeepsUse(w, w1);
    SteadyDeviation(env, w1, w2, h);
  }

  /** So does gaining one while there are too few. */
  lemma MoreIsCloser(env: Env, w: World, w1: World, w2: World, h: Hash)
    requires Steady(env, true, w, w1) && Steady(env, true, w1, w2) && h in InUse(w)
    requires |Active(w1, h)| > |Active(w, h)| && |Active(w, h)| < Desired(w, h)
    ensures Deviation(w2, h) < Deviation(w, h)
  {
    FrameKeepsUse(w, w1);
    SteadyDeviation(env, w1, w2, h);
  }

  /** The first prune task loses a copy. */
  lemma {:induction false} FirstPruneProgress(env: Env, w: World, t: PruneTask)
    requires DeletesAnswered(env)
    requires Obedient(env, w.calls) && PruneReady(w, t, 0, 0) && t.extra > 0 && t.locations != []
    ensures Deviation(PruneFrom(env, w, t, 0, 0), t.hash) < Deviation(w, t.hash)
  {
    var n := t.locations[0];
    var w1 := Discard(env, w, n, t.hash).0;
    ObeyedDiscard(env, w, n, t.hash);
    PruneStep(env, w, t, 0, 0);
    PruneMends(env, w1, t, 1, 1);
    FewerIsCloser(env, w, w1, PruneFrom(env, w1, t, 1, 1), t.hash);
  }

  /** Closer on the first task's chunk and steady on the rest is closer overall. */
  lemma CloserThenSteady(env: Env, w: World, w1: World, w2: World, h: Hash)
    requires Steady(env, true, w, w1) && Steady(env, true, w1, w2) && h in InUse(w)
    requires Deviation(w1, h) < Deviation(w, h)
    ensures Distance(w2) < Distance(w)
  {
    SmallerDeviation(env, w, w1, h);
    SteadyDistance(env, w1, w2);
  }

  lemma {:induction false} PruneRest(env: Env, w: World, tasks: seq<PruneTask>)
    requires DeletesAnswered(env)
    requires tasks != [] && DistinctPrunes(tasks) && forall j :: 0 <= j < |tasks| ==> PruneReady(w, tasks[j], 0, 0)
    ensures var w1 := PruneFrom(env, w, tasks[0], 0, 0);
            Steady(env, true, w, w1) && Steady(env, true, w1, PruneAllFrom(env, w1, tasks, 1))
  {
    var w1 := PruneFrom(env, w, tasks[0], 0, 0);
    PruneMends(env, w, tasks[0], 0, 0);
    forall j | 1 <= j < |tasks| ensures PruneReady(w1, tasks[j], 0, 0) {
      PruneReadyElsewhere(env, w, w1, tasks[0].hash, tasks[j]);
    }
    PruneAllSteady(env, w1, tasks, 1);
  }

  lemma {:induction false} PruneListProgress(env: Env, w: World, tasks: seq<PruneTask>)
    requires DeletesAnswered(env)
    requires Obedient(env, w.calls) && tasks != [] && tasks[0].extra > 0 && tasks[0].locations != []
    requires DistinctPrunes(tasks) && forall j :: 0 <= j < |tasks| ==> PruneReady(w, tasks[j], 0, 0)
    ensures Distance(PruneAllFrom(env, w, tasks, 0)) < Distance(w)
  {
    FirstPruneProgress(env, w, tasks[0]);
    PruneRest(env, w, tasks);
    CloserThenSteady(env, w, PruneFrom(env, w, tasks[0], 0, 0), PruneAllFrom(env, w, tasks, 0), tasks[0].hash);
  }

  lemma PruneProgress(env: Env, w: World)
    requires Calm(env, w) && Overfull(w) != {}
    ensures Distance(PruneExtraCopies(env, w)) < Distance(w)
  {
    PruneWork(w);
    PruneTasksReady(w);
    PruneListProgress(env, w, PruneTasks(w, TASK_LIMIT));
  }

  /** An overfull chunk is work for the prune phase. */
  lemma PruneWork(w: World)
    requires ForeignKeys(w) && Overfull(w) != {}
    ensures var tasks := PruneTasks(w, TASK_LIMIT); tasks != [] && IsPruneTask(w, tasks[0])
    ensures forall i, j :: 0 <= i < j < |PruneTasks(w, TASK_LIMIT)| ==>
              PruneTasks(w, TASK_LIMIT)[i].hash != PruneTasks(w, TASK_LIMIT)[j].hash
  {
    PruneTasksAre(w, TASK_LIMIT);
  }

  /** A recorded copy on a calm cluster is an active one, with the true size. */
  lemma CalmCopy(env: Env, w: World, h: Hash, n: NodeId)
    requires Calm(env, w) && Loc(h, n) in w.locs
    ensures n in Active(w, h) && Holds(w, n, h) && env.digest(StoreOf(w, n).chunks[h]) == h
    ensures h in InUse(w) ==> RefSize(w, h) == |StoreOf(w, n).chunks[h]|
  {
    RoomyCopy(env, w, Loc(h, n));
    RoomyNode(env, w, n);
  }

  /** Some node can take a copy of an underfull chunk. */
  lemma SpareNode(env: Env, w: World, h: Hash) returns (m: NodeId)
    requires Calm(env, w) && h in Underfull(w)
    ensures m in Eligible(w, h, RefSize(w, h))
  {
    assert Enough(w, h) && Spare(w, h) != {};
    m :| m in Spare(w, h);
    RoomyNode(env, w, m);
    LackingFits(w, m, h);
  }

  lemma PlanNotEmpty(w: World, h: Hash, size: nat, wanted: int, m: NodeId)
    requires m in Eligible(w, h, size) && wanted >= 1
    ensures PlanChunkSpread(w, h, size, wanted, map[]) != []
  {
    var all := Enumerate(Eligible(w, h, size), PlanOrder(w, map[]));
    assert m in all;
  }

  /** On a calm cluster an underfull chunk has a source, and a node to copy it to. */
  lemma UnderfullCanBeRepaired(env: Env, w: World, t: RepairTask)
    requires Calm(env, w) && IsRepairTask(w, t) && TrueSize(env, t)
    ensures t.sources != [] && t.candidates != []
  {
    var h := t.hash;
    assert Located(w, h);
    var n :| Loc(h, n) in w.locs;
    CalmCopy(env, w, h, n);
    assert n in t.sources;
    var m := SpareNode(env, w, h);
    PlanNotEmpty(w, h, t.size, t.missing, m);
  }

  /** The first source delivers the chunk. */
  lemma {:induction false} FirstSourceDelivers(env: Env, w: World, t: RepairTask)
    requires Calm(env, w) && IsRepairTask(w, t) && t.sources != []
    ensures var (w1, body) := FetchFromAny(env, w, t.sources, 0, t.hash);
            w1 == Called(w) && body.Some? && env.digest(body.value) == t.hash
  {
    var n := t.sources[0];
    assert n in t.sources && n in Active(w, t.hash);
    CalmCopy(env, w, t.hash, n);
  }

  lemma {:induction false} FirstSpreadProgress(env: Env, w: World, t: RepairTask, data: Bytes)
    requires Roomy(env, w) && RepairReady(w, t, 0, 0) && t.candidates != [] && t.missing >= 1
    requires env.digest(data) == t.hash && t.size == |data| <= Free(w, t.candidates[0])
    ensures Deviation(SpreadFrom(env, w, t, data, 0, 0), t.hash) < Deviation(w, t.hash)
  {
    var w1 := CopyTo(env, w, t.candidates[0], t.hash, data, |data|).0;
    ObeyedCopy(env, w, t.candidates[0], t.hash, data);
    SpreadStep(env, true, w, t, data, 0, 0);
    SpreadMends(env, true, w1, t, data, 1, 1);
    FirstSpread(env, w, t, data);
    FirstCopyCounts(env, w, w1, SpreadFrom(env, w1, t, data, 1, 1), t);
  }

  lemma {:induction false} FirstSpread(env: Env, w: World, t: RepairTask, data: Bytes)
    requires t.candidates != [] && t.missing >= 1 && t.size == |data|
    requires CopyTo(env, w, t.candidates[0], t.hash, data, |data|).1
    ensures SpreadFrom(env, w, t, data, 0, 0)
         == SpreadFrom(env, CopyTo(env, w, t.candidates[0], t.hash, data, |data|).0, t, data, 1, 1)
  {
  }

  lemma FirstCopyCounts(env: Env, w: World, w1: World, w2: World, t: RepairTask)
    requires RepairReady(w, t, 0, 0) && t.missing >= 1 && t.candidates != [] && RepairReady(w1, t, 1, 1)
    requires Steady(env, true, w, w1) && Steady(env, true, w1, w2)
    ensures Deviation(w2, t.hash) < Deviation(w, t.hash)
  {
    MoreIsCloser(env, w, w1, w2, t.hash);
  }

  /** The first repair task gains a copy. */
  lemma FirstRepairProgress(env: Env, w: World, t: RepairTask)
    requires Calm(env, w) && IsRepairTask(w, t) && RepairReady(w, t, 0, 0) && TrueSize(env, t)
    ensures Deviation(Repair(env, w, t), t.hash) < Deviation(w, t.hash)
  {
    UnderfullCanBeRepaired(env, w, t);
    FirstSourceDelivers(env, w, t);
    var (w1, body) := FetchFromAny(env, w, t.sources, 0, t.hash);
    CallsOnlySteady(env, w, w1);
    RepairReadyAfterCalls(w, w1, t);
    FirstCandidateHasRoom(w, t);
    FirstSpreadProgress(env, w1, t, body.value);
    SteadyDeviation(env, w, w1, t.hash);
    RepairSpreads(env, w, t, w1, body.value);
  }

  lemma FirstCandidateHasRoom(w: World, t: RepairTask)
    requires IsRepairTask(w, t) && t.candidates != []
    ensures t.size <= Free(w, t.candidates[0])
  {
    PlanIsEligible(w, t.hash, t.size, t.missing, map[]);
    assert t.candidates[0] in t.candidates;
  }

  lemma {:induction false} RepairSpreads(env: Env, w: World, t: RepairTask, w1: World, data: Bytes)
    requires t.missing > 0 && t.sources != [] && t.candidates != [] && env.digest(data) == t.hash
    requires FetchFromAny(env, w, t.sources, 0, t.hash) == (w1, Some(data))
    ensures Repair(env, w, t) == SpreadFrom(env, w1, t, data, 0, 0)
  {
  }

  lemma {:induction false} RepairRest(env: Env, w: World, tasks: seq<RepairTask>)
    requires tasks != [] && DistinctRepairs(tasks)
    requires forall j :: 0 <= j < |tasks| ==> RepairReady(w, tasks[j], 0, 0) && TrueSize(env, tasks[j])
    ensures var w1 := Repair(env, w, tasks[0]);
            Steady(env, true, w, w1) && Steady(env, true, w1, RepairAllFrom(env, w1, tasks, 1))
  {
    var w1 := Repair(env, w, tasks[0]);
    RepairMends(env, true, w, tasks[0]);
    forall j | 1 <= j < |tasks| ensures RepairReady(w1, tasks[j], 0, 0) {
      RepairReadyElsewhere(w, w1, tasks[0].hash, tasks[j]);
    }
    RepairAllSteady(env, true, w1, tasks, 1);
  }

  lemma {:induction false} RepairListProgress(env: Env, w: World, tasks: seq<RepairTask>)
    requires Calm(env, w) && tasks != [] && IsRepairTask(w, tasks[0]) && DistinctRepairs(tasks)
    requires forall j :: 0 <= j < |tasks| ==> RepairReady(w, tasks[j], 0, 0) && TrueSize(env, tasks[j])
    ensures Distance(RepairAllFrom(env, w, tasks, 0)) < Distance(w)
  {
    FirstRepairProgress(env, w, tasks[0]);
    RepairRest(env, w, tasks);
    CloserThenSteady(env, w, Repair(env, w, tasks[0]), RepairAllFrom(env, w, tasks, 0), tasks[0].hash);
  }

  lemma RepairProgress(env: Env, w: World)
    requires Calm(env, w) && Underfull(w) != {}
    ensures Distance(ReplicateMissingCopies(env, w)) < Distance(w)
  {
    RepairWork(w);
    RepairTasksReady(w);
    RepairSizesTrue(env, w);
    RepairListProgress(env, w, ReplicationTasks(w, TASK_LIMIT));
  }

  /** An underfull chunk is work for the repair phase. */
  lemma RepairWork(w: World)
    requires ForeignKeys(w) && Underfull(w) != {}
    ensures var tasks := ReplicationTasks(w, TASK_LIMIT);
            tasks != [] && IsRepairTask(w, tasks[0]) && DistinctRepairs(tasks)
  {
    ReplicationTasksAre(w, TASK_LIMIT);
  }

  // ---- Progress of a pass --------------------------------------------------------------

  lemma NoOrphansNoCleanup(env: Env, w: World)
    requires Orphans(w) == {}
    ensures CleanupOrphanChunks(env, w) == w
  {
    OrphanTasksAre(w, TASK_LIMIT);
  }

  lemma NoExcessNoPrune(env: Env, w: World)
    requires Grounded(w) && Overfull(w) == {}
    ensures PruneExtraCopies(env, w) == w
  {
    PruneTasksAre(w, TASK_LIMIT);
  }

  lemma NoDeficitNoRepair(env: Env, w: World)
    requires Grounded(w) && Underfull(w) == {}
    ensures ReplicateMissingCopies(env, w) == w
  {
    ReplicationTasksAre(w, TASK_LIMIT);
  }

  /** Each pass over a calm cluster comes strictly closer to the goal, whatever the task limits cut off. */
  lemma PassProgress(env: Env, w: World)
    requires Calm(env, w)
    ensures Calm(env, RunReplicationOnce(env, w))
    ensures Distance(w) > 0 ==> Distance(RunReplicationOnce(env, w)) < Distance(w)
    ensures Distance(w) == 0 ==> RunReplicationOnce(env, w) == w
  {
    var w1 := CleanupOrphanChunks(env, w);
    var w2 := PruneExtraCopies(env, w1);
    var w3 := RunReplicationOnce(env, w);
    CleanupPhase(env, w);
    SteadyKeepsCalm(env, w, w1);
    PrunePhase(env, w1);
    SteadyKeepsCalm(env, w1, w2);
    ReplicatePhase(env, true, w2);
    SteadyKeepsCalm(env, w2, w3);
    SteadyDistance(env, w, w1);
    SteadyDistance(env, w1, w2);
    SteadyDistance(env, w2, w3);
    if Orphans(w) != {} {
      CleanupProgress(env, w);
    } else {
      NoOrphansNoCleanup(env, w);
      PassProgressWithoutOrphans(env, w);
    }
    DistanceZero(w);
  }

  lemma PassProgressWithoutOrphans(env: Env, w: World)
    requires Calm(env, w) && Orphans(w) == {}
    ensures var w2 := PruneExtraCopies(env, w);
            var w3 := ReplicateMissingCopies(env, w2);
            && (Overfull(w) != {} ==> Distance(w2) < Distance(w))
            && (Overfull(w) == {} ==> w2 == w)
            && (Overfull(w) == {} && Underfull(w) != {} ==> Distance(w3) < Distance(w))
            && (Overfull(w) == {} && Underfull(w) == {} ==> w3 == w && Distance(w) == 0)
            && (Distance(w) == 0 ==> Overfull(w) == {} && Underfull(w) == {})
  {
    DistanceZero(w);
    if Overfull(w) != {} {
      PruneProgress(env, w);
    } else {
      NoExcessNoPrune(env, w);
      if Underfull(w) != {} {
        RepairProgress(env, w);
      } else {
        NoDeficitNoRepair(env, w);
        forall h | h in InUse(w) ensures |Active(w, h)| == Desired(w, h) {
          assert h !in Overfull(w) && h !in Underfull(w);
        }
      }
    }
  }

  ghost function Iterate(next: World -> World, w: World, k: nat): World
    decreases k
  {
    if k == 0 then w else Iterate(next, next(w), k - 1)
  }

  /** The cluster after k scheduler passes with nothing in between. */
  ghost function Passes(env: Env, w: World, k: nat): World {
    Iterate((x: World) => RunReplicationOnce(env, x), w, k)
  }

  /** Nothing left to do: exactly the desired copies, no orphans, empty task lists, an idle pass. */
  ghost predicate Settled(env: Env, w: World) {
    && Orphans(w) == {} && (forall h :: h in InUse(w) ==> |Active(w, h)| == Desired(w, h))
    && OrphanChunkTasks(w, TASK_LIMIT) == [] && PruneTasks(w, TASK_LIMIT) == []
    && ReplicationTasks(w, TASK_LIMIT) == [] && RunReplicationOnce(env, w) == w
  }

  lemma ZeroIsSettled(env: Env, w: World)
    requires Calm(env, w) && Distance(w) == 0
    ensures Settled(env, w)
  {
    PassProgress(env, w);
    DistanceZero(w);
    NoWorkIff(w, TASK_LIMIT);
  }

  ghost predicate Within(env: Env, w: World, k: nat) {
    Calm(env, w) && Distance(w) <= k
  }

  lemma NextPassWithin(env: Env, w: World, k: nat)
    requires k > 0 && Within(env, w, k)
    ensures Within(env, RunReplicationOnce(env, w), k - 1)
  {
    PassProgress(env, w);
  }

  lemma {:induction false} IterateDown(next: World -> World, within: (World, nat) -> bool, w: World, k: nat)
    requires within(w, k)
    requires forall x, j: nat :: j > 0 && within(x, j) ==> within(next(x), j - 1)
    ensures within(Iterate(next, w, k), 0)
    decreases k
  {
    if k > 0 { IterateDown(next, within, next(w), k - 1); }
  }

  lemma PassesReachZero(env: Env, w: World, k: nat)
    requires Within(env, w, k)
    ensures Within(env, Passes(env, w, k), 0)
  {
    var next := (x: World) => RunReplicationOnce(env, x);
    var within := (x: World, j: nat) => Within(env, x, j);
    forall x: World, j: nat | j > 0 && within(x, j) ensures within(next(x), j - 1) { NextPassWithin(env, x, j); }
    IterateDown(next, within, w, k);
  }

  /**
   * Repeated passes over a calm cluster reach, within as many passes as the initial distance, the
   * state in which every chunk in use has exactly its desired copies, no orphan is left and no
   * scheduler query finds work; and they stay there.
   */
  lemma PassesConverge(env: Env, w: World, k: nat)
    requires Calm(env, w) && k >= Distance(w)
    ensures Settled(env, Passes(env, w, k))
  {
    PassesReachZero(env, w, k);
    ZeroIsSettled(env, Passes(env, w, k));
  }
}
