/** When one pass over a calm cluster is enough to settle it. */
module OnePass {
  import opened Convergence
  import F = FreedChunks
  import opened Invariants
  import opened Model
  import opened Operations
  import opened Ordering
  import opened PassOutcome
  import P = Placement
  import opened Queries
  import opened Scheduler
  import opened Sums
  import opened Types
  import U = UploadOutcome

  // ---- Room for every copy that could be asked for -------------------------------------

  /** Every node that could be asked to take a missing copy has room for all the copies it lacks. */
  ghost predicate Clear(w: World) {
    forall h, n :: Wanting(w, h) && n in w.nodes && Loc(h, n) !in w.locs && w.nodes[n].free >= RefSize(w, h)
      ==> RoomFor(w, n)
  }

  lemma CopyKeepsRoom(env: Env, w: World, n: NodeId, h: Hash, data: Bytes, m: NodeId)
    requires Roomy(env, w) && MayCopy(w, n, h) && Wanting(w, h) && env.digest(data) == h
    requires m in w.nodes && RoomFor(w, m)
    ensures m in CopyTo(env, w, n, h, data, |data|).0.nodes && RoomFor(CopyTo(env, w, n, h, data, |data|).0, m)
  {
    if !CopyTo(env, w, n, h, data, |data|).1 {
      RefusedCopy(env, w, n, h, data);
      CallsKeepRoom(w, Called(w), m);
    } else if m == n {
      RefSizeIsTrue(env, w, h, data);
      CopyRoomFor(env, w, n, h, data);
    } else {
      CopyRoomForOthers(env, w, n, h, data, m);
    }
  }

  lemma CallsKeepRoom(w: World, w': World, m: NodeId)
    requires OnlyCalls(w, w') && m in w.nodes && RoomFor(w, m)
    ensures RoomFor(w', m)
  {
    forall h ensures Active(w', h) == Active(w, h) { CallsOnlyActive(w, w', h); }
    FrameKeepsUse(w, w');
    RoomKept(w, w', m);
  }

  lemma SpreadStepKeepsRoom(env: Env, w: World, t: RepairTask, data: Bytes, i: nat, copied: nat, m: NodeId)
    requires i < |t.candidates| && copied < t.missing && RepairReady(w, t, i, copied) && Roomy(env, w)
    requires env.digest(data) == t.hash && t.size == |data| && m in w.nodes && RoomFor(w, m)
    ensures var (w1, ok) := CopyTo(env, w, t.candidates[i], t.hash, data, t.size);
            && RepairReady(w1, t, i + 1, if ok then copied + 1 else copied)
            && Roomy(env, w1) && m in w1.nodes && RoomFor(w1, m)
  {
    SpreadStep(env, true, w, t, data, i, copied);
    CopyKeepsRoom(env, w, t.candidates[i], t.hash, data, m);
  }

  /** The cluster and the count after trying the kth candidate. */
  ghost function Tried(env: Env, w: World, t: RepairTask, data: Bytes, k: nat): World
    requires k < |t.candidates|
  {
    CopyTo(env, w, t.candidates[k], t.hash, data, t.size).0
  }

  ghost function CountTried(env: Env, w: World, t: RepairTask, data: Bytes, k: nat, copied: nat): nat
    requires k < |t.candidates|
  {
    if CopyTo(env, w, t.candidates[k], t.hash, data, t.size).1 then copied + 1 else copied
  }

  /** What each copy keeps is kept by the whole round of copies. */
  lemma {:induction false} CopyByCopy(env: Env, w: World, t: RepairTask, data: Bytes, i: nat, copied: nat,
                                      p: (World, nat, nat) -> bool)
    requires i <= |t.candidates| && p(w, i, copied)
    requires forall x: World, k: nat, c: nat :: k < |t.candidates| && c < t.missing && p(x, k, c) ==>
               p(Tried(env, x, t, data, k), k + 1, CountTried(env, x, t, data, k, c))
    ensures exists k: nat, c: nat :: p(SpreadFrom(env, w, t, data, i, copied), k, c)
    decreases |t.candidates| - i
  {
    if i < |t.candidates| && copied < t.missing {
      var w1, copied1 := Tried(env, w, t, data, i), CountTried(env, w, t, data, i, copied);
      CopyByCopy(env, w1, t, data, i + 1, copied1, p);
      assert SpreadFrom(env, w, t, data, i, copied) == SpreadFrom(env, w1, t, data, i + 1, copied1);
    } else {
      assert p(SpreadFrom(env, w, t, data, i, copied), i, copied);
    }
  }

  ghost predicate ReadyWithRoom(env: Env, w: World, t: RepairTask, i: nat, copied: nat, m: NodeId) {
    i <= |t.candidates| && RepairReady(w, t, i, copied) && Roomy(env, w) && m in w.nodes && RoomFor(w, m)
  }

  lemma {:induction false} CopiesKeepRoom(env: Env, t: RepairTask, data: Bytes, m: NodeId, p: (World, nat, nat) -> bool)
    requires env.digest(data) == t.hash && t.size == |data|
    requires forall x: World, k: nat, c: nat :: p(x, k, c) <==> ReadyWithRoom(env, x, t, k, c, m)
    ensures forall x: World, k: nat, c: nat :: k < |t.candidates| && c < t.missing && p(x, k, c) ==>
              p(Tried(env, x, t, data, k), k + 1, CountTried(env, x, t, data, k, c))
  {
    forall x: World, k: nat, c: nat | k < |t.candidates| && c < t.missing && p(x, k, c)
      ensures p(Tried(env, x, t, data, k), k + 1, CountTried(env, x, t, data, k, c))
    {
      SpreadStepKeepsRoom(env, x, t, data, k, c, m);
    }
  }

  lemma {:induction false} SpreadKeepsRoom(env: Env, w: World, t: RepairTask, data: Bytes, m: NodeId)
    requires ReadyWithRoom(env, w, t, 0, 0, m) && env.digest(data) == t.hash && t.size == |data|
    ensures HasRoom(SpreadFrom(env, w, t, data, 0, 0), m)
  {
    var p := (x: World, k: nat, c: nat) => ReadyWithRoom(env, x, t, k, c, m);
    CopiesKeepRoom(env, t, data, m, p);
    CopyByCopy(env, w, t, data, 0, 0, p);
  }

  lemma CallsKeepRoomy(env: Env, w: World, v: World, t: RepairTask, m: NodeId)
    requires OnlyCalls(w, v) && ReadyWithRoom(env, w, t, 0, 0, m)
    ensures ReadyWithRoom(env, v, t, 0, 0, m)
  {
    CallsOnlySteady(env, w, v);
    CallsKeepRoom(w, v, m);
    RepairReadyAfterCalls(w, v, t);
  }

  lemma {:induction false} FetchKeepsRoom(env: Env, w: World, t: RepairTask, m: NodeId)
    requires ReadyWithRoom(env, w, t, 0, 0, m)
    ensures ReadyWithRoom(env, FetchFromAny(env, w, t.sources, 0, t.hash).0, t, 0, 0, m)
  {
    FetchOnlyCalls(env, w, t.sources, 0, t.hash);
    CallsKeepRoomy(env, w, FetchFromAny(env, w, t.sources, 0, t.hash).0, t, m);
  }

  ghost predicate HasRoom(w: World, m: NodeId) {
    m in w.nodes && RoomFor(w, m)
  }

  lemma {:induction false} RepairIs(env: Env, w: World, t: RepairTask, v: World, body: Option<Bytes>)
    requires FetchFromAny(env, w, t.sources, 0, t.hash) == (v, body)
    ensures || Repair(env, w, t) == w || Repair(env, w, t) == v
            || (body.Some? && env.digest(body.value) == t.hash
                && Repair(env, w, t) == SpreadFrom(env, v, t, body.value, 0, 0))
  {
    if t.missing > 0 && t.sources != [] && t.candidates != [] && body.Some? && env.digest(body.value) == t.hash {
      RepairSpreads(env, w, t, v, body.value);
    }
  }

  lemma {:induction false} RepairKeepsRoom(env: Env, w: World, t: RepairTask, m: NodeId, w': World)
    requires w' == Repair(env, w, t) && ReadyWithRoom(env, w, t, 0, 0, m) && TrueSize(env, t)
    ensures HasRoom(w', m)
  {
    var (v, body) := FetchFromAny(env, w, t.sources, 0, t.hash);
    FetchKeepsRoom(env, w, t, m);
    RepairIs(env, w, t, v, body);
    if body.Some? && env.digest(body.value) == t.hash { SpreadKeepsRoom(env, v, t, body.value, m); }
  }

  // ---- Every listed chunk ends with its copies -----------------------------------------

  lemma {:induction false} SourceDelivers(env: Env, v: World, t: RepairTask)
    requires Roomy(env, v) && t.sources != [] && t.sources[0] in Active(v, t.hash)
    ensures FetchFromAny(env, v, t.sources, 0, t.hash).0 == Called(v)
    ensures Fetched(env, v, t).Some? && env.digest(Fetched(env, v, t).value) == t.hash
  {
    RoomyCopy(env, v, Loc(t.hash, t.sources[0]));
  }

  /** A node with room for what it lacks takes the chunk. */
  lemma RoomyNodeTakes(env: Env, v: World, n: NodeId, h: Hash, data: Bytes, call: nat)
    requires Roomy(env, v) && HasRoom(v, n) && Wanting(v, h) && Loc(h, n) !in v.locs && env.digest(data) == h
    requires call >= v.calls
    ensures U.Takes(env, Called(v), call, n, h, data)
  {
    RoomyNode(env, v, n);
    LackingFits(v, n, h);
    RefSizeIsTrue(env, v, h, data);
  }

  lemma ReadyWants(v: World, t: RepairTask)
    requires RepairReady(v, t, 0, 0) && t.missing > 0
    ensures Wanting(v, t.hash) && forall j :: 0 <= j < |t.candidates| ==> Loc(t.hash, t.candidates[j]) !in v.locs
  {
  }

  /** The chunk is wanted and these nodes do not have it but have room for all they lack. */
  ghost predicate AllHaveRoom(env: Env, v: World, nodes: seq<NodeId>, h: Hash) {
    && Roomy(env, v) && Wanting(v, h)
    && forall j :: 0 <= j < |nodes| ==> HasRoom(v, nodes[j]) && Loc(h, nodes[j]) !in v.locs
  }

  lemma {:induction false} OfferAt(env: Env, v: World, nodes: seq<NodeId>, h: Hash, data: Bytes, first: nat, j: nat)
    requires j < |nodes| && AllHaveRoom(env, v, nodes, h) && env.digest(data) == h && first >= v.calls
    ensures U.Takes(env, Called(v), first + j, nodes[j], h, data)
  {
    RoomyNodeTakes(env, v, nodes[j], h, data, first + j);
  }

  lemma {:induction false} AllTakeIt(env: Env, v: World, nodes: seq<NodeId>, h: Hash, data: Bytes, first: nat,
                                     ok: (nat, NodeId) -> bool)
    requires forall j: nat :: j < |nodes| ==> ok(first + j, nodes[j])
    requires forall call: nat, n: NodeId :: ok(call, n) ==> U.Takes(env, v, call, n, h, data)
    ensures Yes(Acceptances(env, v, first, nodes, h, data), |nodes|) == |nodes|
  {
    var offers := Acceptances(env, v, first, nodes, h, data);
    forall j: nat | j < |nodes| ensures offers[j] { assert ok(first + j, nodes[j]); }
    AllYes(offers, |nodes|);
  }

  lemma {:induction false} AllOffer(env: Env, v: World, nodes: seq<NodeId>, h: Hash, data: Bytes)
    requires AllHaveRoom(env, v, nodes, h) && env.digest(data) == h
    ensures Yes(Acceptances(env, Called(v), Called(v).calls, nodes, h, data), |nodes|) == |nodes|
  {
    var ok := (call: nat, n: NodeId) => U.Takes(env, Called(v), call, n, h, data);
    forall j: nat | j < |nodes| ensures ok(Called(v).calls + j, nodes[j]) {
      OfferAt(env, v, nodes, h, data, Called(v).calls, j);
    }
    AllTakeIt(env, Called(v), nodes, h, data, Called(v).calls, ok);
  }

  lemma {:induction false} AllWilling(env: Env, v: World, t: RepairTask)
    requires Roomy(env, v) && RepairReady(v, t, 0, 0) && t.missing > 0
    requires t.sources != [] && t.sources[0] in Active(v, t.hash)
    requires forall j :: 0 <= j < |t.candidates| ==> HasRoom(v, t.candidates[j])
    ensures Willing(env, v, t) == |t.candidates|
  {
    SourceDelivers(env, v, t);
    ReadyWants(v, t);
    AllOffer(env, v, t.candidates, t.hash, Fetched(env, v, t).value);
  }

  /** When task k's turn comes, task i can still find its source and room on its candidates. */
  ghost predicate StillClear(env: Env, w: World, x: World, tasks: seq<RepairTask>, i: nat, k: nat) {
    && i < |tasks| && Roomy(env, x)
    && ReadyAndSame(x, tasks, k, tasks[i].hash, Active(w, tasks[i].hash))
    && forall j :: 0 <= j < |tasks[i].candidates| ==> HasRoom(x, tasks[i].candidates[j])
  }

  lemma {:induction false} StaysClear(env: Env, w: World, x: World, tasks: seq<RepairTask>, i: nat, k: nat)
    requires k < i < |tasks| && StillClear(env, w, x, tasks, i, k) && TrueSize(env, tasks[k])
    ensures StillClear(env, w, Repair(env, x, tasks[k]), tasks, i, k + 1)
  {
    RepairLeaves(env, x, tasks, k, tasks[i].hash, Active(w, tasks[i].hash));
    RepairMends(env, true, x, tasks[k]);
    forall j | 0 <= j < |tasks[i].candidates| ensures HasRoom(Repair(env, x, tasks[k]), tasks[i].candidates[j]) {
      RepairKeepsRoom(env, x, tasks[k], tasks[i].candidates[j], Repair(env, x, tasks[k]));
    }
  }

  lemma {:induction false} ClearInTurn(env: Env, w: World, tasks: seq<RepairTask>, i: nat)
    requires i < |tasks| && StillClear(env, w, w, tasks, i, 0)
    requires forall k :: 0 <= k < |tasks| ==> TrueSize(env, tasks[k])
    ensures StillClear(env, w, RepairUpTo(env, w, tasks, i), tasks, i, i)
  {
    var p := (x: World, k: nat) => StillClear(env, w, x, tasks, i, k);
    forall x: World, k: nat | k < i && p(x, k) ensures p(Repair(env, x, tasks[k]), k + 1) {
      StaysClear(env, w, x, tasks, i, k);
    }
    TaskByTask(env, w, tasks, 0, i, p);
  }

  lemma {:induction false} ClearWilling(env: Env, w: World, x: World, tasks: seq<RepairTask>, i: nat)
    requires i < |tasks| && StillClear(env, w, x, tasks, i, i) && tasks[i].missing > 0
    requires tasks[i].sources != [] && tasks[i].sources[0] in Active(w, tasks[i].hash)
    ensures Willing(env, x, tasks[i]) == |tasks[i].candidates|
  {
    AllWilling(env, x, tasks[i]);
  }

  /** On a calm cluster an underfull chunk is planned for as many nodes as copies are missing. */
  lemma CalmPlan(env: Env, w: World, t: RepairTask)
    requires Calm(env, w) && IsRepairTask(w, t) && TrueSize(env, t)
    ensures |t.candidates| == t.missing && t.size == RefSize(w, t.hash)
  {
    var h := t.hash;
    assert Located(w, h);
    var n :| Loc(h, n) in w.locs;
    CalmCopy(env, w, h, n);
    assert Enough(w, h);
    forall m | m in Spare(w, h) ensures m in Eligible(w, h, t.size) {
      RoomyNode(env, w, m);
      LackingFits(w, m, h);
    }
    SubsetSize(Spare(w, h), Eligible(w, h, t.size));
    P.PlanOrdered(w, h, t.size, t.missing, map[]);
  }

  lemma ClearCandidates(env: Env, w: World, t: RepairTask)
    requires Calm(env, w) && Clear(w) && IsRepairTask(w, t) && TrueSize(env, t)
    ensures forall j :: 0 <= j < |t.candidates| ==> HasRoom(w, t.candidates[j])
  {
    CalmPlan(env, w, t);
    PlanIsEligible(w, t.hash, t.size, t.missing, map[]);
  }

  lemma {:induction false} ClearTaskEnds(env: Env, w: World, tasks: seq<RepairTask>, i: nat)
    requires Calm(env, w) && Clear(w) && i < |tasks| && ReadyFrom(w, tasks, 0) && IsRepairTask(w, tasks[i])
    requires forall k :: 0 <= k < |tasks| ==> TrueSize(env, tasks[k])
    ensures Willing(env, RepairUpTo(env, w, tasks, i), tasks[i]) == tasks[i].missing
  {
    var t := tasks[i];
    CalmPlan(env, w, t);
    ClearCandidates(env, w, t);
    ClearInTurn(env, w, tasks, i);
    UnderfullCanBeRepaired(env, w, t);
    assert t.sources[0] in t.sources;
    ClearWilling(env, w, RepairUpTo(env, w, tasks, i), tasks, i);
  }

  /** Where every candidate has room for what it lacks, each listed chunk ends with its desired copies. */
  lemma {:induction false} ClearRepair(env: Env, w: World)
    requires Calm(env, w) && Clear(w)
    ensures var w', tasks := ReplicateMissingCopies(env, w), ReplicationTasks(w, TASK_LIMIT);
            forall i :: 0 <= i < |tasks| ==> |Active(w', tasks[i].hash)| == Desired(w, tasks[i].hash)
  {
    var w', tasks := ReplicateMissingCopies(env, w), ReplicationTasks(w, TASK_LIMIT);
    RepairPhaseOutcome(env, w);
    ReplicationTasksAre(w, TASK_LIMIT);
    RepairTasksReady(w);
    RepairSizesTrue(env, w);
    forall i | 0 <= i < |tasks| ensures |Active(w', tasks[i].hash)| == Desired(w, tasks[i].hash) {
      assert RepairedInTurn(env, w, w', tasks, i) && IsRepairTask(w, tasks[i]);
      ClearTaskEnds(env, w, tasks, i);
    }
  }

  // ---- The whole pass ------------------------------------------------------------------

  /** If a list names as many as there were, and none of those it names is left, none is left. */
  lemma {:induction false} NoneLeft<T(!new)>(names: seq<T>, before: set<T>, after: set<T>)
    requires NoDuplicates(names) && |names| >= |before| && after <= before
    requires forall i :: 0 <= i < |names| ==> names[i] in before && names[i] !in after
    ensures after == {}
  {
    SizeOfElements(names);
    SameSize(Elements(names), before);
    forall x | x in before ensures x !in after { assert x in Elements(names); }
  }

  /** From either side no chunk moves past its desired copies, so no new one is over or under. */
  lemma SteadyShrinks(env: Env, w: World, w': World)
    requires Steady(env, true, w, w')
    ensures Overfull(w') <= Overfull(w) && Underfull(w') <= Underfull(w) && Orphans(w') <= Orphans(w)
  {
    FrameKeepsUse(w, w');
  }

  lemma PruneNames(w: World, tasks: seq<PruneTask>)
    requires forall i :: 0 <= i < |tasks| ==> IsPruneTask(w, tasks[i])
    requires forall i, j :: 0 <= i < j < |tasks| ==> tasks[i].hash != tasks[j].hash
    ensures NoDuplicates(PrunedHashes(tasks))
    ensures forall i :: 0 <= i < |tasks| ==> PrunedHashes(tasks)[i] in Overfull(w)
  {
    forall i | 0 <= i < |tasks| ensures tasks[i].hash in Overfull(w) { assert IsPruneTask(w, tasks[i]); }
  }

  lemma RepairNames(w: World, tasks: seq<RepairTask>)
    requires forall i :: 0 <= i < |tasks| ==> IsRepairTask(w, tasks[i])
    requires forall i, j :: 0 <= i < j < |tasks| ==> tasks[i].hash != tasks[j].hash
    ensures NoDuplicates(RepairedHashes(tasks))
    ensures forall i :: 0 <= i < |tasks| ==> RepairedHashes(tasks)[i] in Underfull(w)
  {
    forall i | 0 <= i < |tasks| ensures tasks[i].hash in Underfull(w) { assert IsRepairTask(w, tasks[i]); }
  }

  lemma AsDesired(w: World, w': World, h: Hash)
    requires w'.files == w.files && |Active(w', h)| == Desired(w, h)
    ensures h !in Overfull(w') && h !in Underfull(w')
  {
    FrameKeepsUse(w, w');
  }

  lemma {:induction false} NoneOver(env: Env, w: World, w': World, names: seq<Hash>)
    requires Steady(env, true, w, w') && NoDuplicates(names) && |names| >= |Overfull(w)|
    requires forall i :: 0 <= i < |names| ==> names[i] in Overfull(w) && |Active(w', names[i])| == Desired(w, names[i])
    ensures Overfull(w') == {}
  {
    SteadyShrinks(env, w, w');
    forall i | 0 <= i < |names| ensures names[i] !in Overfull(w') { AsDesired(w, w', names[i]); }
    NoneLeft(names, Overfull(w), Overfull(w'));
  }

  lemma {:induction false} NoneUnder(env: Env, w: World, w': World, names: seq<Hash>)
    requires Steady(env, true, w, w') && NoDuplicates(names) && |names| >= |Underfull(w)|
    requires forall i :: 0 <= i < |names| ==> names[i] in Underfull(w) && |Active(w', names[i])| == Desired(w, names[i])
    ensures Underfull(w') == {}
  {
    SteadyShrinks(env, w, w');
    forall i | 0 <= i < |names| ensures names[i] !in Underfull(w') { AsDesired(w, w', names[i]); }
    NoneLeft(names, Underfull(w), Underfull(w'));
  }

  lemma {:induction false} PrunedAll(env: Env, w: World, w': World, tasks: seq<PruneTask>)
    requires Steady(env, true, w, w') && |tasks| >= |Overfull(w)| && PruneListDone(w, w', tasks)
    ensures Overfull(w') == {}
  {
    PruneNames(w, tasks);
    NoneOver(env, w, w', PrunedHashes(tasks));
  }

  lemma {:induction false} RepairedAll(env: Env, w: World, w': World, tasks: seq<RepairTask>)
    requires Steady(env, true, w, w') && |tasks| >= |Underfull(w)| && RepairListDone(w, w', tasks)
    ensures Underfull(w') == {}
  {
    RepairNames(w, tasks);
    NoneUnder(env, w, w', RepairedHashes(tasks));
  }

  /** A list of tasks about different overfull chunks, all of which end with their desired copies. */
  ghost predicate PruneListDone(w: World, w': World, tasks: seq<PruneTask>) {
    && (forall i :: 0 <= i < |tasks| ==> IsPruneTask(w, tasks[i]))
    && (forall i, j :: 0 <= i < j < |tasks| ==> tasks[i].hash != tasks[j].hash)
    && (forall i :: 0 <= i < |tasks| ==> |Active(w', tasks[i].hash)| == Desired(w, tasks[i].hash))
  }

  ghost predicate RepairListDone(w: World, w': World, tasks: seq<RepairTask>) {
    && (forall i :: 0 <= i < |tasks| ==> IsRepairTask(w, tasks[i]))
    && (forall i, j :: 0 <= i < j < |tasks| ==> tasks[i].hash != tasks[j].hash)
    && (forall i :: 0 <= i < |tasks| ==> |Active(w', tasks[i].hash)| == Desired(w, tasks[i].hash))
  }

  lemma {:induction false} PruneListIsDone(env: Env, w: World, w': World)
    requires Grounded(w) && Obedient(env, w.calls) && w' == PruneExtraCopies(env, w)
    ensures PruneListDone(w, w', PruneTasks(w, TASK_LIMIT))
    ensures |PruneTasks(w, TASK_LIMIT)| == Least(TASK_LIMIT, |Overfull(w)|)
  {
    PruneTasksAre(w, TASK_LIMIT);
    ObeyedPrune(env, w);
  }

  lemma {:induction false} RepairListIsDone(env: Env, w: World, w': World)
    requires Calm(env, w) && Clear(w) && w' == ReplicateMissingCopies(env, w)
    ensures RepairListDone(w, w', ReplicationTasks(w, TASK_LIMIT))
    ensures |ReplicationTasks(w, TASK_LIMIT)| == Least(TASK_LIMIT, |Underfull(w)|)
  {
    ReplicationTasksAre(w, TASK_LIMIT);
    ClearRepair(env, w);
  }

  lemma {:induction false} ObeyedPruneEnds(env: Env, w: World, w': World)
    requires Grounded(w) && Obedient(env, w.calls) && Steady(env, true, w, w') && w' == PruneExtraCopies(env, w)
    requires |Overfull(w)| <= TASK_LIMIT
    ensures Overfull(w') == {}
  {
    PruneListIsDone(env, w, w');
    PrunedAll(env, w, w', PruneTasks(w, TASK_LIMIT));
  }

  lemma {:induction false} ClearRepairEnds(env: Env, w: World, w': World)
    requires Calm(env, w) && Clear(w) && Steady(env, true, w, w') && w' == ReplicateMissingCopies(env, w)
    requires |Underfull(w)| <= TASK_LIMIT
    ensures Underfull(w') == {}
  {
    RepairListIsDone(env, w, w');
    RepairedAll(env, w, w', ReplicationTasks(w, TASK_LIMIT));
  }

  /** No list of this cluster is cut off. */
  ghost predicate ShortLists(w: World) {
    |Orphans(w)| <= TASK_LIMIT && |Overfull(w)| <= TASK_LIMIT && |Underfull(w)| <= TASK_LIMIT
  }

  lemma ShorterLists(env: Env, w: World, w': World)
    requires Steady(env, true, w, w') && ShortLists(w)
    ensures ShortLists(w')
  {
    SteadyShrinks(env, w, w');
    SubsetSize(Orphans(w'), Orphans(w));
    SubsetSize(Overfull(w'), Overfull(w));
    SubsetSize(Underfull(w'), Underfull(w));
  }

  lemma NothingLeft(w: World)
    requires Orphans(w) == {} && Overfull(w) == {} && Underfull(w) == {}
    ensures Distance(w) == 0
  {
    forall h | h in InUse(w) ensures |Active(w, h)| == Desired(w, h) {
      assert h !in Overfull(w) && h !in Underfull(w);
    }
    DistanceZero(w);
  }

  /** The cluster that the repair phase of a pass starts from. */
  ghost function BeforeRepair(env: Env, w: World): World {
    PruneExtraCopies(env, CleanupOrphanChunks(env, w))
  }

  /** One pass settles a calm cluster if no list is cut off and every node it may plan has room for all it lacks. */
  lemma {:induction false} OnePassSettles(env: Env, w: World)
    requires Calm(env, w) && ShortLists(w) && Clear(BeforeRepair(env, w))
    ensures Settled(env, RunReplicationOnce(env, w))
  {
    var w1, w2, w3 := CleanupOrphanChunks(env, w), BeforeRepair(env, w), RunReplicationOnce(env, w);
    CleanupPhase(env, w);
    SteadyKeepsCalm(env, w, w1);
    ShorterLists(env, w, w1);
    PrunePhase(env, w1);
    SteadyKeepsCalm(env, w1, w2);
    ShorterLists(env, w1, w2);
    ReplicatePhase(env, true, w2);
    SteadyKeepsCalm(env, w2, w3);
    ObeyedCleanup(env, w);
    ObeyedPruneEnds(env, w1, w2);
    ClearRepairEnds(env, w2, w3);
    SteadyShrinks(env, w1, w2);
    SteadyShrinks(env, w2, w3);
    NothingLeft(w3);
    ZeroIsSettled(env, w3);
  }

  // ---- Room everywhere -----------------------------------------------------------------

  lemma ReleaseFrees(env: Env, w: World, w': World, hs: set<Hash>, m: NodeId)
    requires F.Releases(env, w, w', hs) && m in w.nodes && RowFits(env, w, m)
    ensures m in w'.nodes && w'.nodes[m].free >= w.nodes[m].free
  {
    assert F.BooksKept(env, w, w', m);
    forall h | h in At(w'.locs, m) ensures h in At(w.locs, m) && At(w'.locs, m)[h] <= At(w.locs, m)[h] {
      assert Loc(h, m) in w'.locs;
    }
    Monotone(At(w'.locs, m), At(w.locs, m));
  }

  /** None of these chunks misses a copy. */
  ghost predicate NoneWanting(w: World, hs: set<Hash>) {
    forall h :: h in hs ==> !Wanting(w, h)
  }

  lemma ReleaseLacks(env: Env, w: World, w': World, hs: set<Hash>, m: NodeId)
    requires F.Releases(env, w, w', hs) && Underfull(w') <= Underfull(w) && NoneWanting(w, hs)
    ensures LacksNothingNew(w, w', m)
  {
    forall h | Wanting(w', h) && Loc(h, m) !in w'.locs ensures Wanting(w, h) && Loc(h, m) !in w.locs {
      assert h in Underfull(w');
    }
  }

  ghost predicate RoomOnAll(w: World) {
    forall m :: m in w.nodes ==> RoomFor(w, m)
  }

  /** Deleting copies of chunks that miss none costs no node its room. */
  lemma ReleaseKeepsRoom(env: Env, w: World, w': World, hs: set<Hash>)
    requires F.Releases(env, w, w', hs) && Steady(env, true, w, w') && Space(env, w)
    requires RoomOnAll(w) && NoneWanting(w, hs)
    ensures RoomOnAll(w')
  {
    SteadyShrinks(env, w, w');
    forall m | m in w'.nodes ensures RoomFor(w', m) {
      ReleaseFrees(env, w, w', hs, m);
      ReleaseLacks(env, w, w', hs, m);
      RoomKept(w, w', m);
    }
  }

  lemma CleanupReleases(env: Env, w: World, w': World)
    requires w' == CleanupOrphanChunks(env, w)
    ensures exists hs :: F.Releases(env, w, w', hs) && NoneWanting(w, hs)
  {
    var hs := set k | k in Orphans(w) :: k.hash;
    OrphanTasksAre(w, TASK_LIMIT);
    CleanupExact(env, w, w.calls, OrphanChunkTasks(w, TASK_LIMIT), 0, hs);
    assert F.Releases(env, w, w', hs);
  }

  lemma PrunePhaseReleases(env: Env, w: World, w': World)
    requires Grounded(w) && w' == PruneExtraCopies(env, w)
    ensures F.Releases(env, w, w', Overfull(w))
  {
    var tasks := PruneTasks(w, TASK_LIMIT);
    PruneTasksAre(w, TASK_LIMIT);
    forall j | 0 <= j < |tasks| ensures tasks[j].hash in Overfull(w) { assert IsPruneTask(w, tasks[j]); }
    PruneAllReleases(env, w, tasks, 0, Overfull(w));
  }

  lemma {:induction false} RoomBeforeRepair(env: Env, w: World)
    requires Calm(env, w) && RoomOnAll(w)
    ensures RoomOnAll(BeforeRepair(env, w))
  {
    var w1, w2 := CleanupOrphanChunks(env, w), BeforeRepair(env, w);
    CleanupPhase(env, w);
    SteadyKeepsCalm(env, w, w1);
    CleanupReleases(env, w, w1);
    var hs :| F.Releases(env, w, w1, hs) && NoneWanting(w, hs);
    ReleaseKeepsRoom(env, w, w1, hs);
    PrunePhase(env, w1);
    PrunePhaseReleases(env, w1, w2);
    ReleaseKeepsRoom(env, w1, w2, Overfull(w1));
  }

  /**
   * One pass settles an orderly cluster in which no list is cut off, if every node has room for all
   * the missing copies it lacks and there are as many nodes as desired copies.
   */
  lemma {:induction false} OnePassWithRoomEverywhere(env: Env, w: World)
    requires Orderly(env, w) && ShortLists(w) && RoomOnAll(w)
    requires forall h :: h in InUse(w) ==> Desired(w, h) <= |w.nodes|
    ensures Settled(env, RunReplicationOnce(env, w))
  {
    CalmWithRoomEverywhere(env, w);
    RoomBeforeRepair(env, w);
    OnePassSettles(env, w);
  }
}
