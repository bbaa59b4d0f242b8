/** One scheduler pass, whatever the nodes answer: what it keeps and how far it moves. */
module Scheduler {
  import opened Invariants
  import opened Model
  import opened Operations
  import opened Ordering
  import opened Queries
  import opened Types

  // ---- Orphan cleanup ------------------------------------------------------------------

  ghost predicate NoNewOrphans(w: World, w': World) {
    Orphans(w') <= Orphans(w)
  }

  lemma DiscardNoNewOrphans(env: Env, w: World, n: NodeId, h: Hash)
    ensures NoNewOrphans(w, Discard(env, w, n, h).0)
  {
    DiscardEffect(env, w, n, h);
    var w' := Discard(env, w, n, h).0;
    FrameKeepsUse(w, w');
    forall k | k in Orphans(w') ensures k in Orphans(w) { assert k.node in OnlineNodes(w'); }
  }

  lemma CopyNoNewOrphans(env: Env, w: World, n: NodeId, h: Hash, data: Bytes, size: nat)
    requires MayCopy(w, n, h) && h in InUse(w)
    ensures NoNewOrphans(w, CopyTo(env, w, n, h, data, size).0)
  {
    CopyEffect(env, w, n, h, data, size);
    var w' := CopyTo(env, w, n, h, data, size).0;
    FrameKeepsUse(w, w');
    forall k | k in Orphans(w') ensures k in Orphans(w) { assert k.node in OnlineNodes(w'); }
  }

  /**
   * What the node calls of a scheduler phase do: they keep everything, move no chunk past its
   * desired copies, and make no orphan. The accounting and the room are kept too if recorded sizes
   * are true sizes (sized).
   */
  ghost predicate Steady(env: Env, sized: bool, w: World, w': World) {
    && Evolves(env, w, w') && NoOvershoot(w, w') && NoNewOrphans(w, w')
    && (sized && Accounted(env, w) ==> Accounted(env, w'))
    && (sized && Roomy(env, w) ==> Roomy(env, w'))
  }

  lemma SteadyRefl(env: Env, sized: bool, w: World)
    ensures Steady(env, sized, w, w)
  {
    EvolvesRefl(env, w);
  }

  lemma SteadyTrans(env: Env, sized: bool, a: World, b: World, c: World)
    requires Steady(env, sized, a, b) && Steady(env, sized, b, c)
    ensures Steady(env, sized, a, c)
  {
    EvolvesTrans(env, a, b, c);
    NoOvershootTrans(a, b, c);
  }

  lemma DiscardSteady(env: Env, w: World, n: NodeId, h: Hash)
    requires DeletesAnswered(env)
    requires MayDiscard(w, n, h)
    ensures Steady(env, true, w, Discard(env, w, n, h).0)
  {
    DiscardEvolves(env, w, n, h);
    if Accounted(env, w) { DiscardAccounted(env, w, n, h); }
    if Roomy(env, w) { DiscardRoomy(env, w, n, h); }
    DiscardNoNewOrphans(env, w, n, h);
  }

  lemma CopySteady(env: Env, sized: bool, w: World, n: NodeId, h: Hash, data: Bytes, size: nat)
    requires MayCopy(w, n, h) && h in InUse(w) && |Active(w, h)| < Desired(w, h)
    requires env.digest(data) == h && (sized ==> size == |data|)
    ensures Steady(env, sized, w, CopyTo(env, w, n, h, data, size).0)
  {
    CopyEvolves(env, w, n, h, data, size);
    if sized && Accounted(env, w) { CopyAccounted(env, w, n, h, data); }
    if sized && Roomy(env, w) { CopyRoomy(env, w, n, h, data); }
    CopyNoNewOrphans(env, w, n, h, data, size);
  }

  lemma {:induction false} CleanupSteady(env: Env, w: World, tasks: seq<Loc>, i: nat)
    requires DeletesAnswered(env)
    requires i <= |tasks| && forall j :: i <= j < |tasks| ==> tasks[j].hash !in InUse(w)
    ensures Steady(env, true, w, CleanupFrom(env, w, tasks, i))
    decreases |tasks| - i
  {
    if i < |tasks| {
      var w1 := Discard(env, w, tasks[i].node, tasks[i].hash).0;
      DiscardSteady(env, w, tasks[i].node, tasks[i].hash);
      FrameKeepsUse(w, w1);
      CleanupSteady(env, w1, tasks, i + 1);
      SteadyTrans(env, true, w, w1, CleanupFrom(env, w, tasks, i));
    } else {
      SteadyRefl(env, true, w);
    }
  }

  // ---- Pruning -------------------------------------------------------------------------

  /** The task still says the truth about its chunk; other chunks do not matter. */
  ghost predicate PruneReady(w: World, t: PruneTask, i: nat, removed: nat)
    requires i <= |t.locations|
  {
    && t.hash in InUse(w) && t.desired == Desired(w, t.hash) >= 1
    && |Active(w, t.hash)| == t.active - removed && removed <= t.extra == t.active - t.desired
    && NoDuplicates(t.locations)
    && forall j :: i <= j < |t.locations| ==> t.locations[j] in Active(w, t.hash)
  }

  ghost predicate OthersKeepActive(w: World, w': World, h: Hash) {
    forall g :: g != h ==> Active(w', g) == Active(w, g)
  }

  /** A phase's work on one chunk: steady, and the other chunks keep their active copies. */
  ghost predicate Mends(env: Env, sized: bool, w: World, w': World, h: Hash) {
    Steady(env, sized, w, w') && OthersKeepActive(w, w', h)
  }

  lemma MendsRefl(env: Env, sized: bool, w: World, h: Hash)
    ensures Mends(env, sized, w, w, h)
  {
    SteadyRefl(env, sized, w);
  }

  lemma MendsTrans(env: Env, sized: bool, a: World, b: World, c: World, h: Hash)
    requires Mends(env, sized, a, b, h) && Mends(env, sized, b, c, h)
    ensures Mends(env, sized, a, c, h)
  {
    SteadyTrans(env, sized, a, b, c);
  }

  lemma PruneStep(env: Env, w: World, t: PruneTask, i: nat, removed: nat)
    requires DeletesAnswered(env)
    requires i < |t.locations| && PruneReady(w, t, i, removed)
    requires removed < t.extra && t.active - removed > t.desired
    ensures var (w1, ok) := Discard(env, w, t.locations[i], t.hash);
            Mends(env, true, w, w1, t.hash) && PruneReady(w1, t, i + 1, if ok then removed + 1 else removed)
  {
    var n := t.locations[i];
    var (w1, ok) := Discard(env, w, n, t.hash);
    DiscardSteady(env, w, n, t.hash);
    FrameKeepsUse(w, w1);
    forall g ensures Active(w1, g) == if ok && g == t.hash then Active(w, g) - {n} else Active(w, g) {
      DiscardActive(env, w, n, t.hash, g);
    }
  }

  lemma {:induction false} PruneMends(env: Env, w: World, t: PruneTask, i: nat, removed: nat)
    requires DeletesAnswered(env)
    requires i <= |t.locations| && PruneReady(w, t, i, removed)
    ensures Mends(env, true, w, PruneFrom(env, w, t, i, removed), t.hash)
    decreases |t.locations| - i
  {
    if i == |t.locations| || removed >= t.extra || t.active - removed <= t.desired {
      MendsRefl(env, true, w, t.hash);
    } else {
      var (w1, ok) := Discard(env, w, t.locations[i], t.hash);
      PruneStep(env, w, t, i, removed);
      PruneMends(env, w1, t, i + 1, if ok then removed + 1 else removed);
      MendsTrans(env, true, w, w1, PruneFrom(env, w, t, i, removed), t.hash);
    }
  }

  ghost predicate DistinctPrunes(tasks: seq<PruneTask>) {
    forall i, j :: 0 <= i < j < |tasks| ==> tasks[i].hash != tasks[j].hash
  }

  lemma PruneReadyElsewhere(env: Env, w: World, w1: World, h: Hash, t: PruneTask)
    requires w1.files == w.files && OthersKeepActive(w, w1, h) && t.hash != h && PruneReady(w, t, 0, 0)
    ensures PruneReady(w1, t, 0, 0)
  {
    FrameKeepsUse(w, w1);
  }

  lemma {:induction false} PruneAllSteady(env: Env, w: World, tasks: seq<PruneTask>, i: nat)
    requires DeletesAnswered(env)
    requires i <= |tasks| && DistinctPrunes(tasks)
    requires forall j :: i <= j < |tasks| ==> PruneReady(w, tasks[j], 0, 0)
    ensures Steady(env, true, w, PruneAllFrom(env, w, tasks, i))
    decreases |tasks| - i
  {
    if i == |tasks| {
      SteadyRefl(env, true, w);
    } else {
      var w1 := Prune(env, w, tasks[i]);
      PruneMends(env, w, tasks[i], 0, 0);
      MendsRefl(env, true, w, tasks[i].hash);
      forall j | i + 1 <= j < |tasks| ensures PruneReady(w1, tasks[j], 0, 0) {
        PruneReadyElsewhere(env, w, w1, tasks[i].hash, tasks[j]);
      }
      PruneAllSteady(env, w1, tasks, i + 1);
      SteadyTrans(env, true, w, w1, PruneAllFrom(env, w, tasks, i));
    }
  }

  // ---- Repair --------------------------------------------------------------------------

  /** Nothing has happened but calls that change nothing. */
  ghost predicate OnlyCalls(w: World, w': World) {
    w'.calls >= w.calls && w' == w.(calls := w'.calls)
  }

  lemma {:induction false} FetchOnlyCalls(env: Env, w: World, nodes: seq<NodeId>, i: nat, h: Hash)
    requires i <= |nodes|
    ensures OnlyCalls(w, FetchFromAny(env, w, nodes, i, h).0)
    decreases |nodes| - i
  {
    if i < |nodes| { FetchOnlyCalls(env, Called(w), nodes, i + 1, h); }
  }

  lemma CallsOnlySteady(env: Env, w: World, w': World)
    requires w'.calls >= w.calls && w' == w.(calls := w'.calls)
    ensures Steady(env, true, w, w')
    ensures forall g :: Active(w', g) == Active(w, g)
  {
    CallsOnlyAccounted(env, w, w');
    if Roomy(env, w) { CallsOnlyRoomy(env, w, w'); }
    FrameKeepsUse(w, w');
    assert forall n :: Online(w', n) == Online(w, n);
    assert forall g :: Active(w', g) == Active(w, g);
  }

  ghost predicate RepairReady(w: World, t: RepairTask, i: nat, copied: nat)
    requires i <= |t.candidates|
  {
    && t.hash in InUse(w) && t.desired == Desired(w, t.hash)
    && |Active(w, t.hash)| == t.active + copied && copied <= t.missing == t.desired - t.active
    && NoDuplicates(t.candidates)
    && forall j :: i <= j < |t.candidates| ==> MayCopy(w, t.candidates[j], t.hash)
  }

  /** The task's size is the size of every byte string with the task's digest. */
  ghost predicate TrueSize(env: Env, t: RepairTask) {
    forall d :: env.digest(d) == t.hash ==> |d| == t.size
  }

  /** Nothing recorded about other chunks stops them from being copied. */
  ghost predicate OthersMayCopy(w: World, w': World, h: Hash) {
    forall m, g :: g != h && MayCopy(w, m, g) ==> MayCopy(w', m, g)
  }

  lemma SpreadStep(env: Env, sized: bool, w: World, t: RepairTask, data: Bytes, i: nat, copied: nat)
    requires i < |t.candidates| && copied < t.missing && RepairReady(w, t, i, copied)
    requires env.digest(data) == t.hash && (sized ==> t.size == |data|)
    ensures var (w1, ok) := CopyTo(env, w, t.candidates[i], t.hash, data, t.size);
            && Mends(env, sized, w, w1, t.hash) && OthersMayCopy(w, w1, t.hash)
            && RepairReady(w1, t, i + 1, if ok then copied + 1 else copied)
  {
    var n := t.candidates[i];
    var (w1, ok) := CopyTo(env, w, n, t.hash, data, t.size);
    CopySteady(env, sized, w, n, t.hash, data, t.size);
    CopyEffect(env, w, n, t.hash, data, t.size);
    FrameKeepsUse(w, w1);
    assert n !in Active(w, t.hash);
    forall g ensures Active(w1, g) == if ok && g == t.hash then Active(w, g) + {n} else Active(w, g) {
      CopyActive(env, w, n, t.hash, data, t.size, g);
    }
    assert forall m :: m in OnlineNodes(w) <==> Online(w, m);
    assert forall m :: m in OnlineNodes(w1) <==> Online(w1, m);
  }

  lemma {:induction false} SpreadMends(env: Env, sized: bool, w: World, t: RepairTask, data: Bytes, i: nat, copied: nat)
    requires i <= |t.candidates| && RepairReady(w, t, i, copied)
    requires env.digest(data) == t.hash && (sized ==> t.size == |data|)
    ensures var w' := SpreadFrom(env, w, t, data, i, copied);
            Mends(env, sized, w, w', t.hash) && OthersMayCopy(w, w', t.hash)
    decreases |t.candidates| - i
  {
    if i == |t.candidates| || copied >= t.missing {
      MendsRefl(env, sized, w, t.hash);
    } else {
      var (w1, ok) := CopyTo(env, w, t.candidates[i], t.hash, data, t.size);
      SpreadStep(env, sized, w, t, data, i, copied);
      SpreadMends(env, sized, w1, t, data, i + 1, if ok then copied + 1 else copied);
      MendsTrans(env, sized, w, w1, SpreadFrom(env, w, t, data, i, copied), t.hash);
    }
  }

  lemma RepairReadyAfterCalls(w: World, w': World, t: RepairTask)
    requires w' == w.(calls := w'.calls) && RepairReady(w, t, 0, 0)
    ensures RepairReady(w', t, 0, 0)
  {
    assert forall n :: Online(w', n) == Online(w, n);
    assert Active(w', t.hash) == Active(w, t.hash);
    FrameKeepsUse(w, w');
  }

  lemma RepairMends(env: Env, sized: bool, w: World, t: RepairTask)
    requires RepairReady(w, t, 0, 0) && (sized ==> TrueSize(env, t))
    ensures var w' := Repair(env, w, t);
            Mends(env, sized, w, w', t.hash) && OthersMayCopy(w, w', t.hash)
  {
    if t.missing <= 0 || t.sources == [] || t.candidates == [] {
      MendsRefl(env, sized, w, t.hash);
    } else {
      var (w1, body) := FetchFromAny(env, w, t.sources, 0, t.hash);
      FetchOnlyCalls(env, w, t.sources, 0, t.hash);
      CallsOnlySteady(env, w, w1);
      if body.Some? && env.digest(body.value) == t.hash {
        RepairReadyAfterCalls(w, w1, t);
        SpreadMends(env, sized, w1, t, body.value, 0, 0);
        MendsTrans(env, sized, w, w1, Repair(env, w, t), t.hash);
      }
    }
  }

  ghost predicate DistinctRepairs(tasks: seq<RepairTask>) {
    forall i, j :: 0 <= i < j < |tasks| ==> tasks[i].hash != tasks[j].hash
  }

  lemma RepairReadyElsewhere(w: World, w1: World, h: Hash, t: RepairTask)
    requires w1.files == w.files && OthersKeepActive(w, w1, h) && t.hash != h && RepairReady(w, t, 0, 0)
    requires OthersMayCopy(w, w1, h)
    ensures RepairReady(w1, t, 0, 0)
  {
    FrameKeepsUse(w, w1);
  }

  lemma {:induction false} RepairAllSteady(env: Env, sized: bool, w: World, tasks: seq<RepairTask>, i: nat)
    requires i <= |tasks| && DistinctRepairs(tasks)
    requires forall j :: i <= j < |tasks| ==> RepairReady(w, tasks[j], 0, 0) && (sized ==> TrueSize(env, tasks[j]))
    ensures Steady(env, sized, w, RepairAllFrom(env, w, tasks, i))
    decreases |tasks| - i
  {
    if i == |tasks| {
      SteadyRefl(env, sized, w);
    } else {
      var w1 := Repair(env, w, tasks[i]);
      RepairMends(env, sized, w, tasks[i]);
      forall j | i + 1 <= j < |tasks| ensures RepairReady(w1, tasks[j], 0, 0) {
        RepairReadyElsewhere(w, w1, tasks[i].hash, tasks[j]);
      }
      RepairAllSteady(env, sized, w1, tasks, i + 1);
      SteadyTrans(env, sized, w, w1, RepairAllFrom(env, w, tasks, i));
    }
  }

  // ---- The whole pass ------------------------------------------------------------------

  /** Every file asks for at least one copy. */
  ghost predicate Replicated(w: World) {
    forall f :: f in w.files ==> w.files[f].replication >= 1
  }

  lemma DesiredAtLeastOne(w: World, h: Hash)
    requires Replicated(w) && h in InUse(w)
    ensures Desired(w, h) >= 1
  {
    var f, i :| f in w.files && 0 <= i < |w.files[f].chunks| && w.files[f].chunks[i].hash == h;
    assert h in HashesOf(w.files[f].chunks);
    var s := set f | f in w.files && h in HashesOf(w.files[f].chunks) :: w.files[f].replication;
    assert w.files[f].replication in s;
  }

  /** With a collision-free digest the query's MAX(size) is the only size there is. */
  lemma GroupSizeIsTrue(env: Env, w: World, h: Hash, d: Bytes)
    requires Injective(env) && RefsGenuine(env, w) && h in InUse(w) && env.digest(d) == h
    ensures GroupSize(ChunkJoin(w), h) == |d|
  {
    var rows := ChunkJoin(w);
    var s := set r | r in rows && r.chunk.hash == h :: r.chunk.size;
    forall x | x in s ensures x == |d| {
      var r :| r in rows && r.chunk.hash == h && r.chunk.size == x;
      assert w.files[r.file].chunks[r.index] == r.chunk;
      assert Genuine(env, r.chunk);
    }
    GroupsAreInUse(w);
    assert h in Groups(rows);
    var r :| r in rows && r.chunk.hash == h;
    assert r.chunk.size in s;
  }

  lemma PruneTasksReady(w: World)
    requires Grounded(w) && Replicated(w)
    ensures var tasks := PruneTasks(w, TASK_LIMIT);
            DistinctPrunes(tasks) && forall j :: 0 <= j < |tasks| ==> PruneReady(w, tasks[j], 0, 0)
  {
    PruneTasksAre(w, TASK_LIMIT);
    var tasks := PruneTasks(w, TASK_LIMIT);
    forall j | 0 <= j < |tasks| ensures PruneReady(w, tasks[j], 0, 0) {
      assert IsPruneTask(w, tasks[j]);
      DesiredAtLeastOne(w, tasks[j].hash);
      Listed(Active(w, tasks[j].hash), tasks[j].locations);
    }
  }

  lemma PlanIsEligible(w: World, h: Hash, size: nat, wanted: int, counts: map<NodeId, nat>)
    ensures var r := PlanChunkSpread(w, h, size, wanted, counts);
            NoDuplicates(r) && forall i :: 0 <= i < |r| ==> r[i] in Eligible(w, h, size) && MayCopy(w, r[i], h)
  {
    var all := Enumerate(Eligible(w, h, size), PlanOrder(w, counts));
    Listed(Eligible(w, h, size), all);
  }

  lemma RepairTasksReady(w: World)
    requires Grounded(w)
    ensures var tasks := ReplicationTasks(w, TASK_LIMIT);
            DistinctRepairs(tasks) && forall j :: 0 <= j < |tasks| ==> RepairReady(w, tasks[j], 0, 0)
  {
    ReplicationTasksAre(w, TASK_LIMIT);
    var tasks := ReplicationTasks(w, TASK_LIMIT);
    forall j | 0 <= j < |tasks| ensures RepairReady(w, tasks[j], 0, 0) {
      var t := tasks[j];
      assert IsRepairTask(w, t);
      PlanIsEligible(w, t.hash, t.size, t.missing, map[]);
    }
  }

  lemma RepairSizesTrue(env: Env, w: World)
    requires Grounded(w) && Injective(env) && RefsGenuine(env, w)
    ensures var tasks := ReplicationTasks(w, TASK_LIMIT);
            forall j :: 0 <= j < |tasks| ==> TrueSize(env, tasks[j])
  {
    ReplicationTasksAre(w, TASK_LIMIT);
    var tasks := ReplicationTasks(w, TASK_LIMIT);
    forall j, d | 0 <= j < |tasks| && env.digest(d) == tasks[j].hash ensures |d| == tasks[j].size {
      assert IsRepairTask(w, tasks[j]);
      GroupSizeIsTrue(env, w, tasks[j].hash, d);
    }
  }

  lemma CleanupPhase(env: Env, w: World)
    requires DeletesAnswered(env)
    ensures Steady(env, true, w, CleanupOrphanChunks(env, w))
  {
    OrphanTasksAre(w, TASK_LIMIT);
    CleanupSteady(env, w, OrphanChunkTasks(w, TASK_LIMIT), 0);
  }

  lemma PrunePhase(env: Env, w: World)
    requires DeletesAnswered(env)
    requires Grounded(w) && Replicated(w)
    ensures Steady(env, true, w, PruneExtraCopies(env, w))
  {
    PruneTasksReady(w);
    PruneAllSteady(env, w, PruneTasks(w, TASK_LIMIT), 0);
  }

  lemma ReplicatePhase(env: Env, sized: bool, w: World)
    requires Grounded(w) && (sized ==> Injective(env) && RefsGenuine(env, w))
    ensures Steady(env, sized, w, ReplicateMissingCopies(env, w))
  {
    RepairTasksReady(w);
    if sized { RepairSizesTrue(env, w); }
    RepairAllSteady(env, sized, w, ReplicationTasks(w, TASK_LIMIT), 0);
  }

  /** Every chunk in use has between its copies before and its desired copies, from whichever side it came. */
  ghost predicate Approaches(w: World, w': World) {
    forall h :: h in InUse(w) ==>
      var a, d, a' := |Active(w, h)|, Desired(w, h), |Active(w', h)|;
      if a <= d then a <= a' <= d else d <= a' <= a
  }

  /** A whole pass, whatever the nodes answer, is steady. */
  lemma PassSteady(env: Env, sized: bool, w: World)
    requires DeletesAnswered(env)
    requires Physical(env, w) && Replicated(w) && (sized ==> Injective(env) && RefsGenuine(env, w))
    ensures Steady(env, sized, w, RunReplicationOnce(env, w))
  {
    var w1 := CleanupOrphanChunks(env, w);
    var w2 := PruneExtraCopies(env, w1);
    CleanupPhase(env, w);
    PrunePhase(env, w1);
    ReplicatePhase(env, sized, w2);
    SteadyTrans(env, sized, w, w1, w2);
    SteadyTrans(env, sized, w, w2, RunReplicationOnce(env, w));
  }

  /**
   * Copy safety of a scheduler pass under any failure pattern: every chunk in use ends with at
   * least min(active, desired) and at most max(active, desired) active copies.
   */
  lemma PassKeepsCopies(env: Env, w: World)
    requires DeletesAnswered(env)
    requires Physical(env, w) && Replicated(w)
    ensures Evolves(env, w, RunReplicationOnce(env, w)) && Approaches(w, RunReplicationOnce(env, w))
  {
    PassSteady(env, false, w);
  }

  /** The space accounting survives a pass although all repair targets are planned beforehand. */
  lemma PassAccounted(env: Env, w: World)
    requires DeletesAnswered(env)
    requires Accounted(env, w) && Replicated(w) && Injective(env) && RefsGenuine(env, w)
    ensures Accounted(env, RunReplicationOnce(env, w))
  {
    PassSteady(env, true, w);
  }
}
