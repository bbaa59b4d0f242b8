/** A calm cluster that has work to do although one of its nodes is full. */
module CalmExample {
  import opened Convergence
  import opened Invariants
  import opened Model
  import opened Ordering
  import opened Queries
  import opened Runs
  import opened Scheduler
  import opened Sums
  import opened Types

  const DATA: Bytes := [7]

  /** Everybody obeys; node 1 has room for one byte, node 2 for two. */
  ghost predicate Obliging(env: Env) {
    Injective(env) && Obedient(env, 0) && DeletesAnswered(env) && env.capacity(1) == 1 && env.capacity(2) == 2
  }

  /** One file with one chunk that should have two copies and has one, on the full node. */
  ghost function Cluster(h: Hash): World {
    World(map[1 := NodeRow(1, 0, 0), 2 := NodeRow(2, 2, 0)],
          map[1 := FileRow(1, 1, 1, 0, 1, 1, 2, 1, 0, 0, [ChunkRef(h, 1)])],
          map[Loc(h, 1) := 1], map[1 := Store(map[h := DATA], 1)], 0, 0)
  }

  lemma OneByte(h: Hash)
    ensures Total(map[h := 1]) == 1
  {
    var m: map<Hash, nat> := map[h := 1];
    TakeOut(m, h);
    assert m - {h} == map[];
  }

  lemma StoreIsSound(env: Env)
    ensures StoreSound(env, Store(map[env.digest(DATA) := DATA], 1))
  {
    var h := env.digest(DATA);
    assert Sizes(map[h := DATA]) == map[h := 1];
    OneByte(h);
  }

  lemma Disks(env: Env)
    requires Obliging(env)
    ensures Physical(env, Cluster(env.digest(DATA))) && Measured(Cluster(env.digest(DATA)))
  {
    StoreIsSound(env);
  }

  lemma FirstRow(env: Env)
    requires Obliging(env)
    ensures RowFits(env, Cluster(env.digest(DATA)), 1)
  {
    var h, w := env.digest(DATA), Cluster(env.digest(DATA));
    assert HashesAt(w.locs, 1) == {h};
    assert At(w.locs, 1) == map[h := 1];
    OneByte(h);
  }

  lemma SecondRow(env: Env)
    requires Obliging(env)
    ensures RowFits(env, Cluster(env.digest(DATA)), 2)
  {
    var w := Cluster(env.digest(DATA));
    assert HashesAt(w.locs, 2) == {};
    ZeroTotal(At(w.locs, 2));
  }

  lemma Use(h: Hash)
    ensures InUse(Cluster(h)) == {h} && Desired(Cluster(h), h) == 2
  {
    var w := Cluster(h);
    assert w.files[1].chunks[0].hash == h;
    assert h in HashesOf(w.files[1].chunks);
    assert (set f | f in w.files && h in HashesOf(w.files[f].chunks) :: w.files[f].replication) == {2};
  }

  lemma Holder(h: Hash)
    ensures Active(Cluster(h), h) == {1}
  {
  }

  lemma Genuinely(env: Env)
    ensures RefsGenuine(env, Cluster(env.digest(DATA)))
  {
    assert |DATA| == 1;
    assert Genuine(env, ChunkRef(env.digest(DATA), 1));
  }

  lemma SecondHasRoom(env: Env)
    requires Obliging(env)
    ensures 2 in Spare(Cluster(env.digest(DATA)), env.digest(DATA))
  {
    var h, w := env.digest(DATA), Cluster(env.digest(DATA));
    SecondLacksOne(env);
    OneByte(h);
  }

  lemma SecondLacksOne(env: Env)
    requires Obliging(env)
    ensures Lacking(Cluster(env.digest(DATA)), 2) == map[env.digest(DATA) := 1]
  {
    var h, w := env.digest(DATA), Cluster(env.digest(DATA));
    Use(h);
    Holder(h);
    Genuinely(env);
    RefSizeIsTrue(env, w, h, DATA);
  }

  lemma EnoughNodes(env: Env, g: Hash)
    requires Obliging(env)
    ensures Enough(Cluster(env.digest(DATA)), g)
  {
    var h, w := env.digest(DATA), Cluster(env.digest(DATA));
    Use(h);
    Holder(h);
    SecondHasRoom(env);
    SubsetSize({2}, Spare(w, h));
  }

  lemma BothNodes(env: Env, n: NodeId)
    requires Obliging(env) && n in Cluster(env.digest(DATA)).nodes
    ensures var w := Cluster(env.digest(DATA));
            RowFits(env, w, n) && Online(w, n) && Honest(env, w, n)
  {
    if n == 1 { FirstRow(env); } else { SecondRow(env); }
  }

  lemma Together(env: Env, w: World)
    requires Physical(env, w) && Measured(w) && Injective(env) && RefsGenuine(env, w) && Obedient(env, w.calls)
    requires forall n :: n in w.nodes ==> RowFits(env, w, n) && Online(w, n) && Honest(env, w, n)
    requires forall g :: Enough(w, g)
    ensures Roomy(env, w)
  {
  }

  lemma HasRoom(env: Env)
    requires Obliging(env)
    ensures Roomy(env, Cluster(env.digest(DATA)))
  {
    var w := Cluster(env.digest(DATA));
    Disks(env);
    Genuinely(env);
    forall n | n in w.nodes ensures RowFits(env, w, n) && Online(w, n) && Honest(env, w, n) { BothNodes(env, n); }
    forall g ensures Enough(w, g) { EnoughNodes(env, g); }
    Together(env, w);
  }

  lemma MissesOne(h: Hash)
    ensures Underfull(Cluster(h)) == {h} && Replicated(Cluster(h)) && Durable(Cluster(h))
  {
    Use(h);
    Holder(h);
    assert Loc(h, 1) in Cluster(h).locs;
  }

  /** The cluster is calm, its chunk misses a copy, and the node that has the chunk is full. */
  lemma CalmWithFullNode(env: Env)
    requires Obliging(env)
    ensures var w := Cluster(env.digest(DATA));
            Calm(env, w) && Underfull(w) == {env.digest(DATA)} && w.nodes[1].free == 0
  {
    HasRoom(env);
    MissesOne(env.digest(DATA));
  }
}
