/** A calm cluster that one pass does not settle: the last free byte of a node is planned for two chunks. */
module StuckExample {
  import opened CalmExample
  import opened Convergence
  import opened Invariants
  import opened Model
  import opened OnePass
  import opened Operations
  import opened Ordering
  import P = Placement
  import opened Queries
  import opened RepairRoom
  import opened Runs
  import opened Scheduler
  import opened Sums
  import opened Types

  const FIRST: Bytes := [1]
  const SECOND: Bytes := [2]

  /** Everybody obeys; node 1 has room for one byte, nodes 2 and 3 for two. */
  ghost predicate Willingly(env: Env) {
    && Injective(env) && Obedient(env, 0) && DeletesAnswered(env)
    && env.capacity(1) == 1 && env.capacity(2) == 2 && env.capacity(3) == 2
  }

  /** Two chunks of one byte that should have two copies each; one is on node 2, the other on node 3. */
  ghost function Halves(a: Hash, b: Hash): World {
    World(map[1 := NodeRow(1, 1, 0), 2 := NodeRow(2, 1, 0), 3 := NodeRow(2, 1, 0)],
          map[1 := FileRow(1, 1, 1, 0, 2, 1, 2, 2, 0, 0, [ChunkRef(a, 1), ChunkRef(b, 1)])],
          map[Loc(a, 2) := 1, Loc(b, 3) := 1],
          map[2 := Store(map[a := FIRST], 1), 3 := Store(map[b := SECOND], 1)], 0, 0)
  }

  ghost function Stuck(env: Env): World {
    Halves(env.digest(FIRST), env.digest(SECOND))
  }

  lemma Different(env: Env)
    requires Willingly(env)
    ensures env.digest(FIRST) != env.digest(SECOND)
  {
    assert FIRST[0] != SECOND[0];
  }

  lemma SmallStore(env: Env, d: Bytes)
    requires |d| == 1
    ensures StoreSound(env, Store(map[env.digest(d) := d], 1))
  {
    var h := env.digest(d);
    assert Sizes(map[h := d]) == map[h := 1];
    OneByte(h);
  }

  lemma StuckDisks(env: Env)
    requires Willingly(env)
    ensures Physical(env, Stuck(env)) && Measured(Stuck(env))
  {
    Different(env);
    SmallStore(env, FIRST);
    SmallStore(env, SECOND);
  }

  lemma EmptyRow(env: Env)
    requires Willingly(env)
    ensures RowFits(env, Stuck(env), 1)
  {
    assert HashesAt(Stuck(env).locs, 1) == {};
    ZeroTotal(At(Stuck(env).locs, 1));
  }

  lemma HalfRow(env: Env, n: NodeId, h: Hash)
    requires Willingly(env) && ((n == 2 && h == env.digest(FIRST)) || (n == 3 && h == env.digest(SECOND)))
    ensures RowFits(env, Stuck(env), n)
  {
    Different(env);
    assert HashesAt(Stuck(env).locs, n) == {h};
    assert At(Stuck(env).locs, n) == map[h := 1];
    OneByte(h);
  }

  lemma StuckDesired(a: Hash, b: Hash, h: Hash)
    requires h == a || h == b
    ensures Desired(Halves(a, b), h) == 2
  {
    var w := Halves(a, b);
    assert w.files[1].chunks[0].hash == a && w.files[1].chunks[1].hash == b;
    assert h in HashesOf(w.files[1].chunks);
    assert (set f | f in w.files && h in HashesOf(w.files[f].chunks) :: w.files[f].replication) == {2};
  }

  lemma StuckUse(a: Hash, b: Hash)
    ensures InUse(Halves(a, b)) == {a, b}
  {
    var w := Halves(a, b);
    assert w.files[1].chunks[0].hash == a && w.files[1].chunks[1].hash == b;
  }

  lemma StuckHolders(a: Hash, b: Hash)
    requires a != b
    ensures Active(Halves(a, b), a) == {2} && Active(Halves(a, b), b) == {3}
  {
  }

  lemma StuckGenuine(env: Env)
    ensures RefsGenuine(env, Stuck(env))
  {
    assert |FIRST| == 1 && |SECOND| == 1;
    assert Genuine(env, ChunkRef(env.digest(FIRST), 1)) && Genuine(env, ChunkRef(env.digest(SECOND), 1));
  }

  lemma StuckRefSize(env: Env, h: Hash)
    requires Willingly(env) && h in InUse(Stuck(env))
    ensures RefSize(Stuck(env), h) == 1
  {
    StuckUse(env.digest(FIRST), env.digest(SECOND));
    StuckGenuine(env);
    if h == env.digest(FIRST) {
      RefSizeIsTrue(env, Stuck(env), h, FIRST);
    } else {
      RefSizeIsTrue(env, Stuck(env), h, SECOND);
    }
  }

  lemma StuckWanting(a: Hash, b: Hash, h: Hash)
    requires a != b
    ensures Wanting(Halves(a, b), h) <==> h == a || h == b
  {
    StuckUse(a, b);
    StuckHolders(a, b);
    StuckDesired(a, b, a);
    StuckDesired(a, b, b);
  }

  lemma LackingOne(w: World, n: NodeId, h: Hash)
    requires forall g :: Wanting(w, g) && Loc(g, n) !in w.locs <==> g == h
    requires RefSize(w, h) == 1
    ensures Lacking(w, n) == map[h := 1]
  {
    assert Wanting(w, h);
  }

  lemma LacksWhich(a: Hash, b: Hash, n: NodeId, h: Hash, g: Hash)
    requires a != b && ((n == 3 && h == a) || (n == 2 && h == b))
    ensures Wanting(Halves(a, b), g) && Loc(g, n) !in Halves(a, b).locs <==> g == h
  {
    StuckWanting(a, b, g);
  }

  /** A node that has one of the chunks lacks the other. */
  lemma LacksOther(env: Env, n: NodeId, h: Hash)
    requires Willingly(env) && ((n == 3 && h == env.digest(FIRST)) || (n == 2 && h == env.digest(SECOND)))
    ensures Lacking(Stuck(env), n) == map[h := 1]
  {
    var a, b := env.digest(FIRST), env.digest(SECOND);
    Different(env);
    StuckUse(a, b);
    forall g ensures Wanting(Stuck(env), g) && Loc(g, n) !in Stuck(env).locs <==> g == h { LacksWhich(a, b, n, h, g); }
    StuckRefSize(env, h);
    LackingOne(Stuck(env), n, h);
  }

  lemma RoomForOne(w: World, n: NodeId, h: Hash)
    requires n in w.nodes && Loc(h, n) !in w.locs && Lacking(w, n) == map[h := 1] && w.nodes[n].free == 1
    ensures |Spare(w, h)| >= 1
  {
    OneByte(h);
    assert n in Spare(w, h);
    SubsetSize({n}, Spare(w, h));
  }

  lemma OtherIsSpare(env: Env, n: NodeId, h: Hash)
    requires Willingly(env) && ((n == 3 && h == env.digest(FIRST)) || (n == 2 && h == env.digest(SECOND)))
    ensures |Spare(Stuck(env), h)| >= 1
  {
    LacksOther(env, n, h);
    Different(env);
    RoomForOne(Stuck(env), n, h);
  }

  lemma StuckEnough(env: Env, g: Hash)
    requires Willingly(env)
    ensures Enough(Stuck(env), g)
  {
    var a, b := env.digest(FIRST), env.digest(SECOND);
    Different(env);
    StuckWanting(a, b, g);
    StuckHolders(a, b);
    if g == a || g == b {
      StuckDesired(a, b, g);
      OtherIsSpare(env, if g == a then 3 else 2, g);
    }
  }

  lemma StuckNode(env: Env, n: NodeId)
    requires Willingly(env) && n in Stuck(env).nodes
    ensures RowFits(env, Stuck(env), n) && Online(Stuck(env), n) && Honest(env, Stuck(env), n)
  {
    if n == 1 { EmptyRow(env); }
    if n == 2 { HalfRow(env, 2, env.digest(FIRST)); }
    if n == 3 { HalfRow(env, 3, env.digest(SECOND)); }
  }

  lemma StuckRoomy(env: Env)
    requires Willingly(env)
    ensures Roomy(env, Stuck(env))
  {
    var w := Stuck(env);
    StuckDisks(env);
    StuckGenuine(env);
    forall n | n in w.nodes ensures RowFits(env, w, n) && Online(w, n) && Honest(env, w, n) { StuckNode(env, n); }
    forall g ensures Enough(w, g) { StuckEnough(env, g); }
    Together(env, w);
  }

  lemma StuckDurable(a: Hash, b: Hash)
    ensures Durable(Halves(a, b)) && Replicated(Halves(a, b))
  {
    StuckUse(a, b);
    assert Loc(a, 2) in Halves(a, b).locs && Loc(b, 3) in Halves(a, b).locs;
  }

  lemma StuckIsCalm(env: Env)
    requires Willingly(env)
    ensures Calm(env, Stuck(env))
  {
    StuckRoomy(env);
    StuckDurable(env.digest(FIRST), env.digest(SECOND));
  }

  lemma StuckLists(a: Hash, b: Hash)
    requires a != b
    ensures var w := Halves(a, b);
            Orphans(w) == {} && Overfull(w) == {} && Underfull(w) == {a, b}
  {
    StuckUse(a, b);
    StuckHolders(a, b);
    StuckDesired(a, b, a);
    StuckDesired(a, b, b);
  }

  /** Where no node has more than one byte free, the one with the smallest id is planned for the chunk. */
  lemma SmallestIsPlanned(w: World, h: Hash)
    requires P.MayReceive(w, h, 1, 1) && forall n :: n in w.nodes ==> n >= 1 && w.nodes[n].free <= 1
    ensures PlanChunkSpread(w, h, 1, 1, map[]) == [1]
  {
    var r := PlanChunkSpread(w, h, 1, 1, map[]);
    P.PlanIsLeast(w, h, 1, 1, map[]);
    assert 1 in P.Receivers(w, h, 1);
    assert |r| == 1 && r[0] in r;
    assert !P.Preferred(w, map[], r[0], 1);
  }

  lemma StuckSize(env: Env, h: Hash)
    requires Willingly(env) && h in InUse(Stuck(env))
    ensures GroupSize(ChunkJoin(Stuck(env)), h) == 1
  {
    StuckUse(env.digest(FIRST), env.digest(SECOND));
    StuckGenuine(env);
    if h == env.digest(FIRST) {
      GroupSizeIsTrue(env, Stuck(env), h, FIRST);
    } else {
      GroupSizeIsTrue(env, Stuck(env), h, SECOND);
    }
  }

  lemma StuckMissing(a: Hash, b: Hash, h: Hash)
    requires a != b && h in {a, b}
    ensures Desired(Halves(a, b), h) - |Active(Halves(a, b), h)| == 1 && P.MayReceive(Halves(a, b), h, 1, 1)
  {
    StuckHolders(a, b);
    StuckDesired(a, b, h);
  }

  /** One byte of this chunk is missing, and node 1 is the first of those with a byte free. */
  ghost predicate ForFirst(w: World, h: Hash) {
    && GroupSize(ChunkJoin(w), h) == 1 && Desired(w, h) - |Active(w, h)| == 1
    && P.MayReceive(w, h, 1, 1) && forall n :: n in w.nodes ==> n >= 1 && w.nodes[n].free <= 1
  }

  lemma SmallIds(a: Hash, b: Hash)
    ensures forall n :: n in Halves(a, b).nodes ==> n >= 1 && Halves(a, b).nodes[n].free <= 1
  {
  }

  lemma StuckForFirst(env: Env, h: Hash)
    requires Willingly(env) && h in {env.digest(FIRST), env.digest(SECOND)}
    ensures ForFirst(Stuck(env), h)
  {
    Different(env);
    StuckUse(env.digest(FIRST), env.digest(SECOND));
    StuckSize(env, h);
    StuckMissing(env.digest(FIRST), env.digest(SECOND), h);
    SmallIds(env.digest(FIRST), env.digest(SECOND));
  }

  /** Both chunks are planned for node 1: all have as much free space, and its id is the smallest. */
  lemma PlannedForFirst(w: World, t: RepairTask)
    requires IsRepairTask(w, t) && ForFirst(w, t.hash)
    ensures t.candidates == [1] && t.size == 1
  {
    SmallestIsPlanned(w, t.hash);
  }

  ghost predicate BothForFirst(tasks: seq<RepairTask>) {
    |tasks| == 2 && forall k :: 0 <= k < 2 ==> tasks[k].candidates == [1] && tasks[k].size == 1
  }

  lemma TasksForFirst(w: World, tasks: seq<RepairTask>)
    requires |tasks| == 2 && forall k :: 0 <= k < |tasks| ==> IsRepairTask(w, tasks[k])
    requires forall h :: h in Underfull(w) ==> ForFirst(w, h)
    ensures BothForFirst(tasks)
  {
    forall k | 0 <= k < |tasks| ensures tasks[k].candidates == [1] && tasks[k].size == 1 {
      assert IsRepairTask(w, tasks[k]);
      PlannedForFirst(w, tasks[k]);
    }
  }

  lemma TwoTasks(w: World)
    requires Grounded(w) && |Underfull(w)| == 2 && forall h :: h in Underfull(w) ==> ForFirst(w, h)
    ensures BothForFirst(ReplicationTasks(w, TASK_LIMIT))
  {
    ReplicationTasksAre(w, TASK_LIMIT);
    TasksForFirst(w, ReplicationTasks(w, TASK_LIMIT));
  }

  lemma TwoElements(a: Hash, b: Hash)
    requires a != b
    ensures |{a, b}| == 2
  {
  }

  lemma TooMuchForFirst(env: Env, w: World, tasks: seq<RepairTask>)
    requires BothForFirst(tasks)
    requires StoreOf(w, 1) == EMPTY_STORE && env.capacity(1) == 1
    ensures !PlanWorks(env, w, tasks)
  {
    assert Load(w, tasks, 0, 1) == 0;
    assert Load(w, tasks, 1, 1) == 1;
    assert !FitsInTurn(env, w, tasks, 1, 1);
    assert !WorksInTurn(env, w, tasks, 1);
  }

  lemma StuckDeviations(a: Hash, b: Hash)
    requires a != b
    ensures Deviations(Halves(a, b)) == map[a := 1, b := 1]
  {
    StuckUse(a, b);
    StuckHolders(a, b);
    StuckDesired(a, b, a);
    StuckDesired(a, b, b);
  }

  lemma TwoBytes(a: Hash, b: Hash)
    requires a != b
    ensures Total(map[a := 1, b := 1]) == 2
  {
    assert map[a := 1, b := 1] == map[a := 1][b := 1];
    OneByte(a);
    PutFresh(map[a := 1], b, 1);
  }

  lemma StuckDistance(a: Hash, b: Hash)
    requires a != b
    ensures Distance(Halves(a, b)) == 2
  {
    StuckLists(a, b);
    StuckDeviations(a, b);
    TwoBytes(a, b);
  }

  /** Without orphans and extra copies a pass is its repair phase, which settles the cluster only if the plan works. */
  lemma {:induction false} NotInOnePass(env: Env, w: World)
    requires Calm(env, w) && Orphans(w) == {} && Overfull(w) == {} && ShortLists(w)
    requires !PlanWorks(env, w, ReplicationTasks(w, TASK_LIMIT))
    ensures !Settled(env, RunReplicationOnce(env, w))
  {
    NoOrphansNoCleanup(env, w);
    NoExcessNoPrune(env, w);
    CalmIsQuiet(env, w);
    OnePassIff(env, w);
  }

  lemma StuckUnderfull(env: Env, w: World)
    requires Willingly(env) && w == Stuck(env)
    ensures |Underfull(w)| == 2 && forall h :: h in Underfull(w) ==> ForFirst(w, h)
  {
    Different(env);
    StuckLists(env.digest(FIRST), env.digest(SECOND));
    TwoElements(env.digest(FIRST), env.digest(SECOND));
    forall h | h in Underfull(w) ensures ForFirst(w, h) { StuckForFirst(env, h); }
  }

  lemma {:induction false} PlanFails(env: Env, w: World)
    requires Grounded(w) && |Underfull(w)| == 2 && forall h :: h in Underfull(w) ==> ForFirst(w, h)
    requires StoreOf(w, 1) == EMPTY_STORE && env.capacity(1) == 1
    ensures !PlanWorks(env, w, ReplicationTasks(w, TASK_LIMIT))
  {
    TwoTasks(w);
    TooMuchForFirst(env, w, ReplicationTasks(w, TASK_LIMIT));
  }

  lemma {:induction false} StuckPlanFails(env: Env, w: World)
    requires Willingly(env) && w == Stuck(env)
    ensures !PlanWorks(env, w, ReplicationTasks(w, TASK_LIMIT))
  {
    StuckDisks(env);
    StuckUnderfull(env, w);
    assert StoreOf(w, 1) == EMPTY_STORE;
    PlanFails(env, w);
  }

  lemma StuckShort(a: Hash, b: Hash)
    requires a != b
    ensures ShortLists(Halves(a, b))
  {
    StuckLists(a, b);
  }

  /**
   * On this calm cluster one pass leaves a chunk with a copy missing, although two nodes could take one
   * each: the plan for the second chunk was made before the first copy. Two passes settle it.
   */
  lemma {:induction false} OnePassIsNotEnough(env: Env, w: World)
    requires Willingly(env) && w == Stuck(env)
    ensures Calm(env, w) && ShortLists(w)
    ensures !Settled(env, RunReplicationOnce(env, w)) && Settled(env, Passes(env, w, 2))
  {
    Different(env);
    StuckIsCalm(env);
    StuckLists(env.digest(FIRST), env.digest(SECOND));
    StuckShort(env.digest(FIRST), env.digest(SECOND));
    StuckDistance(env.digest(FIRST), env.digest(SECOND));
    StuckPlanFails(env, w);
    NotInOnePass(env, w);
    PassesConverge(env, w, 2);
  }
}
