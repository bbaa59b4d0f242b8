/**
 * What one discard and one copy keep: the frame, the copies of every chunk in use, the agreement of
 * the location table with the disks, and the space accounting.
 */
module Invariants {
  import opened Model
  import opened Operations
  import opened Ordering
  import opened Sums
  import opened Types

  // ---- State predicates ----------------------------------------------------------------

  /** Every recorded location is on a registered node that physically holds the chunk. */
  ghost predicate Grounded(w: World) {
    forall k :: k in w.locs ==> k.node in w.nodes && Holds(w, k.node, k.hash)
  }

  ghost predicate StoreSound(env: Env, s: Store) {
    && (forall h :: h in s.chunks ==> env.digest(s.chunks[h]) == h)
    && s.used >= Total(Sizes(s.chunks))
  }

  /** Every stored chunk has the digest it is stored under, and the cached total covers the real one. */
  ghost predicate Sound(env: Env, w: World) {
    forall n :: n in w.stores ==> StoreSound(env, w.stores[n])
  }

  /** No node stores more than its reserved capacity. */
  ghost predicate Fits(env: Env, w: World) {
    forall n :: n in w.stores ==> w.stores[n].used <= env.capacity(n)
  }

  /** Recorded sizes are the sizes on disk. */
  ghost predicate Measured(w: World) {
    forall k :: k in w.locs && Holds(w, k.node, k.hash) ==> w.locs[k] == |StoreOf(w, k.node).chunks[k.hash]|
  }

  ghost function HashesAt(locs: map<Loc, nat>, n: NodeId): (hs: set<Hash>)
    ensures forall h :: h in hs <==> Loc(h, n) in locs
  {
    assert forall h :: Loc(h, n) in locs ==> Loc(h, n).hash == h;
    set k | k in locs && k.node == n :: k.hash
  }

  /** The recorded copies on one node, with their sizes. */
  ghost function At(locs: map<Loc, nat>, n: NodeId): map<Hash, nat> {
    map h | h in HashesAt(locs, n) :: locs[Loc(h, n)]
  }

  ghost function Recorded(w: World, n: NodeId): nat {
    Total(At(w.locs, n))
  }

  /** The free space a row claims never exceeds what its recorded copies leave of the capacity. */
  ghost predicate RowFits(env: Env, w: World, n: NodeId)
    requires n in w.nodes
  {
    var row := w.nodes[n];
    row.capacity == env.capacity(n) && 0 <= row.free && row.free + Recorded(w, n) <= row.capacity
  }

  ghost predicate Space(env: Env, w: World) {
    forall n :: n in w.nodes ==> RowFits(env, w, n)
  }

  /** The accounting invariant of a cluster with honest heartbeats and plaintext stores. */
  ghost predicate Accounted(env: Env, w: World) {
    Grounded(w) && Sound(env, w) && Fits(env, w) && Measured(w) && Space(env, w)
  }

  ghost predicate Physical(env: Env, w: World) {
    Grounded(w) && Sound(env, w) && Fits(env, w)
  }

  // ---- Totals --------------------------------------------------------------------------

  lemma WriteKeepsSound(env: Env, s: Store, h: Hash, data: Bytes)
    requires StoreSound(env, s) && env.digest(data) == h
    ensures StoreSound(env, Write(s, h, data))
    ensures Write(s, h, data).used <= s.used + |data|
  {
    assert Sizes(s.chunks[h := data]) == Sizes(s.chunks)[h := |data|];
    if h in s.chunks { PutOver(Sizes(s.chunks), h, |data|); } else { PutFresh(Sizes(s.chunks), h, |data|); }
  }

  lemma EraseKeepsSound(env: Env, s: Store, h: Hash)
    requires StoreSound(env, s)
    ensures StoreSound(env, Erase(s, h))
    ensures Erase(s, h).used <= s.used
  {
    if h in s.chunks {
      TakeOut(Sizes(s.chunks), h);
      assert Sizes(s.chunks - {h}) == Sizes(s.chunks) - {h};
    }
  }

  lemma AtAddElsewhere(locs: map<Loc, nat>, h: Hash, n: NodeId, size: nat, m: NodeId)
    requires m != n
    ensures At(locs[Loc(h, n) := size], m) == At(locs, m)
  {
    assert HashesAt(locs[Loc(h, n) := size], m) == HashesAt(locs, m);
  }

  lemma AtDropElsewhere(locs: map<Loc, nat>, h: Hash, n: NodeId, m: NodeId)
    requires m != n
    ensures At(locs - {Loc(h, n)}, m) == At(locs, m)
  {
    assert HashesAt(locs - {Loc(h, n)}, m) == HashesAt(locs, m);
  }

  lemma RecordedAdd(locs: map<Loc, nat>, h: Hash, n: NodeId, size: nat)
    requires Loc(h, n) !in locs
    ensures Total(At(locs[Loc(h, n) := size], n)) == Total(At(locs, n)) + size
  {
    assert At(locs[Loc(h, n) := size], n) == At(locs, n)[h := size];
    PutFresh(At(locs, n), h, size);
  }

  lemma RecordedDrop(locs: map<Loc, nat>, h: Hash, n: NodeId)
    requires Loc(h, n) in locs
    ensures Total(At(locs - {Loc(h, n)}, n)) == Total(At(locs, n)) - locs[Loc(h, n)]
  {
    assert At(locs - {Loc(h, n)}, n) == At(locs, n) - {h};
    TakeOut(At(locs, n), h);
  }

  /** What is recorded on a node is at most what is on its disk. */
  lemma RecordedOnDisk(env: Env, w: World, n: NodeId)
    requires Grounded(w) && Measured(w) && Sound(env, w) && Fits(env, w)
    ensures Recorded(w, n) <= StoreOf(w, n).used <= env.capacity(n)
  {
    forall h | h in At(w.locs, n)
      ensures h in Sizes(StoreOf(w, n).chunks) && At(w.locs, n)[h] <= Sizes(StoreOf(w, n).chunks)[h]
    {
      LocatedOnDisk(w, Loc(h, n));
    }
    Monotone(At(w.locs, n), Sizes(StoreOf(w, n).chunks));
    UsedFits(env, w, n);
  }

  lemma LocatedOnDisk(w: World, k: Loc)
    requires Grounded(w) && Measured(w) && k in w.locs
    ensures k.hash in StoreOf(w, k.node).chunks && w.locs[k] == |StoreOf(w, k.node).chunks[k.hash]|
  {
  }

  lemma UsedFits(env: Env, w: World, n: NodeId)
    requires Sound(env, w) && Fits(env, w)
    ensures StoreSound(env, StoreOf(w, n)) && StoreOf(w, n).used <= env.capacity(n)
  {
  }

  // ---- Evolution -----------------------------------------------------------------------

  /** Same files, same clock, same registered nodes, same nodes online. */
  ghost predicate SameFrame(w: World, w': World) {
    && w'.files == w.files && w'.now == w.now && w'.nodes.Keys == w.nodes.Keys
    && OnlineNodes(w') == OnlineNodes(w) && w'.calls >= w.calls
  }

  ghost function Lower(a: nat, b: nat): nat { if a <= b then a else b }

  /** Every chunk in use keeps min(active, desired) active copies, and some copy if it had one. */
  ghost predicate KeepsCopies(w: World, w': World) {
    forall h :: h in InUse(w) ==>
      && |Active(w', h)| >= Lower(|Active(w, h)|, Desired(w, h))
      && (Located(w, h) ==> Located(w', h))
  }

  ghost predicate Located(w: World, h: Hash) {
    exists n :: Loc(h, n) in w.locs
  }

  /** Repairing never lifts a chunk in use above its desired copies, and never copies any other. */
  ghost predicate NoOvershoot(w: World, w': World) {
    forall h :: h in InUse(w) ==>
      |Active(w', h)| <= (if |Active(w, h)| >= Desired(w, h) then |Active(w, h)| else Desired(w, h))
  }

  /** What node calls of one operation do to the cluster. */
  ghost predicate Evolves(env: Env, w: World, w': World) {
    && SameFrame(w, w') && KeepsCopies(w, w')
    && (Physical(env, w) ==> Physical(env, w'))
  }

  lemma FrameKeepsUse(w: World, w': World)
    requires w'.files == w.files
    ensures InUse(w') == InUse(w) && forall h :: Desired(w', h) == Desired(w, h)
  {
    forall h ensures Desired(w', h) == Desired(w, h) {
      assert (set f | f in w'.files && h in HashesOf(w'.files[f].chunks) :: w'.files[f].replication)
          == (set f | f in w.files && h in HashesOf(w.files[f].chunks) :: w.files[f].replication);
    }
  }

  lemma EvolvesRefl(env: Env, w: World)
    ensures Evolves(env, w, w) && NoOvershoot(w, w)
  {
  }

  lemma EvolvesTrans(env: Env, a: World, b: World, c: World)
    requires Evolves(env, a, b) && Evolves(env, b, c)
    ensures Evolves(env, a, c)
  {
    FrameKeepsUse(a, b);
  }

  lemma NoOvershootTrans(a: World, b: World, c: World)
    requires b.files == a.files && NoOvershoot(a, b) && NoOvershoot(b, c)
    ensures NoOvershoot(a, c)
  {
    FrameKeepsUse(a, b);
  }

  // ---- One discard ---------------------------------------------------------------------

  /** A copy may go if no file uses the chunk, or if it is an active copy beyond the desired ones. */
  ghost predicate MayDiscard(w: World, n: NodeId, h: Hash) {
    h !in InUse(w) || (n in Active(w, h) && |Active(w, h)| > Desired(w, h) >= 1)
  }

  lemma DiscardOnline(env: Env, w: World, n: NodeId, h: Hash)
    ensures OnlineNodes(Discard(env, w, n, h).0) == OnlineNodes(w)
  {
    var w' := Discard(env, w, n, h).0;
    assert forall m :: m in w.nodes ==> w'.nodes[m].lastSeen == w.nodes[m].lastSeen;
  }

  lemma DiscardEffect(env: Env, w: World, n: NodeId, h: Hash)
    ensures var (w', ok) := Discard(env, w, n, h);
            && SameFrame(w, w') && w'.calls == w.calls + 1
            && w'.locs == (if ok then w.locs - {Loc(h, n)} else w.locs)
            && ok == env.deletes(w.calls, n).Deleted?
            && w'.stores == (if env.deletes(w.calls, n).Kept? then w.stores else w.stores[n := Erase(StoreOf(w, n), h)])
  {
    var (w', ok) := Discard(env, w, n, h);
    DiscardOnline(env, w, n, h);
    if ok && Loc(h, n) !in w.locs { assert w.locs - {Loc(h, n)} == w.locs; }
  }

  lemma ActiveAfter(w: World, w': World, h: Hash)
    requires OnlineNodes(w') == OnlineNodes(w)
    requires forall m :: Loc(h, m) in w'.locs <==> Loc(h, m) in w.locs
    ensures Active(w', h) == Active(w, h)
  {
    assert forall m :: m in Active(w', h) <==> m in OnlineNodes(w') && Loc(h, m) in w'.locs;
    assert forall m :: m in Active(w, h) <==> m in OnlineNodes(w) && Loc(h, m) in w.locs;
  }

  /** Discarding touches the active copies of its own chunk only, and removes at most the one. */
  lemma DiscardActive(env: Env, w: World, n: NodeId, h: Hash, g: Hash)
    ensures var (w', ok) := Discard(env, w, n, h);
            Active(w', g) == if ok && g == h then Active(w, g) - {n} else Active(w, g)
  {
    DiscardEffect(env, w, n, h);
    var (w', ok) := Discard(env, w, n, h);
    if ok && g == h {
      assert forall m :: m in Active(w', g) <==> m in OnlineNodes(w') && Loc(g, m) in w'.locs;
      assert forall m :: m in Active(w, g) <==> m in OnlineNodes(w) && Loc(g, m) in w.locs;
    } else {
      ActiveAfter(w, w', g);
    }
  }

  lemma DiscardEvolves(env: Env, w: World, n: NodeId, h: Hash)
    requires DeletesAnswered(env)
    requires MayDiscard(w, n, h)
    ensures Evolves(env, w, Discard(env, w, n, h).0) && NoOvershoot(w, Discard(env, w, n, h).0)
  {
    DiscardEffect(env, w, n, h);
    var (w', ok) := Discard(env, w, n, h);
    forall g | g in InUse(w)
      ensures |Active(w', g)| >= Lower(|Active(w, g)|, Desired(w, g)) && |Active(w', g)| <= |Active(w, g)|
      ensures Located(w, g) ==> Located(w', g)
    {
      DiscardActive(env, w, n, h, g);
      if g == h && ok {
        var m :| m in Active(w', g);
        assert Loc(g, m) in w'.locs;
      } else if Located(w, g) {
        var m :| Loc(g, m) in w.locs;
        assert Loc(g, m) in w'.locs;
      }
    }
    if Physical(env, w) { DiscardPhysical(env, w, n, h); }
  }

  lemma DiscardPhysical(env: Env, w: World, n: NodeId, h: Hash)
    requires DeletesAnswered(env)
    requires Physical(env, w)
    ensures Physical(env, Discard(env, w, n, h).0)
  {
    DiscardEffect(env, w, n, h);
    EraseKeepsSound(env, StoreOf(w, n), h);
  }

  // ---- One copy ------------------------------------------------------------------------

  /** A copy goes to an online node that has none by the tables. */
  ghost predicate MayCopy(w: World, n: NodeId, h: Hash) {
    Online(w, n) && Loc(h, n) !in w.locs
  }

  lemma PutEffect(env: Env, w: World, n: NodeId, h: Hash, data: Bytes)
    ensures var (w', ok) := PutCall(env, w, n, h, data);
            && w' == w.(stores := w'.stores, calls := w.calls + 1)
            && (ok ==> Accepts(env, w, n, h, data) && w'.stores == w.stores[n := Write(StoreOf(w, n), h, data)])
            && (w'.stores != w.stores ==>
                  Accepts(env, w, n, h, data) && w'.stores == w.stores[n := Write(StoreOf(w, n), h, data)])
  {
  }

  lemma CopyEffect(env: Env, w: World, n: NodeId, h: Hash, data: Bytes, size: nat)
    requires MayCopy(w, n, h)
    ensures var (w', ok) := CopyTo(env, w, n, h, data, size);
            && SameFrame(w, w') && w'.calls == w.calls + 1
            && w'.stores == PutCall(env, w, n, h, data).0.stores
            && ok == PutCall(env, w, n, h, data).1
            && w'.locs == (if ok then w.locs[Loc(h, n) := size] else w.locs)
            && w'.nodes == (if ok then w.nodes[n := NodeRow(w.nodes[n].capacity, Lowered(w.nodes[n].free, size), w.now)]
                            else w.nodes)
  {
    PutEffect(env, w, n, h, data);
    var (w', ok) := CopyTo(env, w, n, h, data, size);
    assert forall m :: m in w.nodes ==> Online(w', m) == Online(w, m);
    assert OnlineNodes(w') == OnlineNodes(w);
  }

  lemma CopyActive(env: Env, w: World, n: NodeId, h: Hash, data: Bytes, size: nat, g: Hash)
    requires MayCopy(w, n, h)
    ensures var (w', ok) := CopyTo(env, w, n, h, data, size);
            Active(w', g) == if ok && g == h then Active(w, g) + {n} else Active(w, g)
  {
    CopyEffect(env, w, n, h, data, size);
    var (w', ok) := CopyTo(env, w, n, h, data, size);
    if ok && g == h {
      assert forall m :: m in Active(w', g) <==> m in OnlineNodes(w') && Loc(g, m) in w'.locs;
      assert forall m :: m in Active(w, g) <==> m in OnlineNodes(w) && Loc(g, m) in w.locs;
    } else {
      ActiveAfter(w, w', g);
    }
  }

  lemma CopyPhysical(env: Env, w: World, n: NodeId, h: Hash, data: Bytes, size: nat)
    requires MayCopy(w, n, h) && Physical(env, w)
    ensures Physical(env, CopyTo(env, w, n, h, data, size).0)
  {
    CopyEffect(env, w, n, h, data, size);
    PutEffect(env, w, n, h, data);
    var (w', ok) := CopyTo(env, w, n, h, data, size);
    if w'.stores == w.stores {
      assert Grounded(w');
    } else {
      WrittenPhysical(env, w, w', n, h, data, ok, size);
    }
  }

  lemma WrittenPhysical(env: Env, w: World, w': World, n: NodeId, h: Hash, data: Bytes, ok: bool, size: nat)
    requires Physical(env, w) && n in w.nodes && Accepts(env, w, n, h, data)
    requires w'.stores == w.stores[n := Write(StoreOf(w, n), h, data)] && w'.nodes.Keys == w.nodes.Keys
    requires w'.locs == (if ok then w.locs[Loc(h, n) := size] else w.locs)
    ensures Physical(env, w')
  {
    WriteKeepsSound(env, StoreOf(w, n), h, data);
    EmptyWriteFits(StoreOf(w, n), h, data);
  }

  /** Storing an empty chunk skips the gate but cannot add bytes. */
  lemma EmptyWriteFits(s: Store, h: Hash, data: Bytes)
    ensures |data| == 0 ==> Write(s, h, data).used <= s.used
  {
  }

  lemma CopyEvolves(env: Env, w: World, n: NodeId, h: Hash, data: Bytes, size: nat)
    requires MayCopy(w, n, h)
    ensures Evolves(env, w, CopyTo(env, w, n, h, data, size).0)
    ensures h in InUse(w) && |Active(w, h)| < Desired(w, h) ==> NoOvershoot(w, CopyTo(env, w, n, h, data, size).0)
  {
    CopyEffect(env, w, n, h, data, size);
    var (w', ok) := CopyTo(env, w, n, h, data, size);
    forall g | g in InUse(w)
      ensures |Active(w, g)| <= |Active(w', g)| <= |Active(w, g)| + (if g == h then 1 else 0)
      ensures Located(w, g) ==> Located(w', g)
    {
      CopyActive(env, w, n, h, data, size, g);
      if ok && g == h { GrowsByAtMostOne(Active(w, g), n); }
      if Located(w, g) {
        var m :| Loc(g, m) in w.locs;
        assert Loc(g, m) in w'.locs;
      }
    }
    if Physical(env, w) { CopyPhysical(env, w, n, h, data, size); }
  }

  lemma GrowsByAtMostOne(s: set<NodeId>, n: NodeId)
    ensures |s| <= |s + {n}| <= |s| + 1
  {
    if n in s { assert s + {n} == s; }
  }

  // ---- Space accounting ----------------------------------------------------------------

  lemma DiscardMeasured(env: Env, w: World, n: NodeId, h: Hash)
    requires Measured(w)
    ensures Measured(Discard(env, w, n, h).0)
  {
    DiscardEffect(env, w, n, h);
  }

  /** Giving back the size of a recorded copy never exceeds the capacity: the clamp is idle. */
  lemma GiveBackFits(env: Env, w: World, n: NodeId, h: Hash)
    requires n in w.nodes && RowFits(env, w, n) && Loc(h, n) in w.locs
    ensures w.nodes[n].free + w.locs[Loc(h, n)] <= w.nodes[n].capacity
    ensures Raised(w.nodes[n], w.locs[Loc(h, n)]) == w.nodes[n].free + w.locs[Loc(h, n)]
  {
    RecordedDrop(w.locs, h, n);
  }

  lemma SameRowFits(env: Env, w: World, w': World, m: NodeId)
    requires m in w.nodes && m in w'.nodes && w'.nodes[m] == w.nodes[m] && RowFits(env, w, m)
    requires At(w'.locs, m) == At(w.locs, m)
    ensures RowFits(env, w', m)
  {
  }

  lemma DiscardNodes(env: Env, w: World, n: NodeId, h: Hash)
    requires n in w.nodes && Loc(h, n) in w.locs && Discard(env, w, n, h).1
    ensures var w', size := Discard(env, w, n, h).0, w.locs[Loc(h, n)];
            w'.nodes == if size > 0 then w.nodes[n := w.nodes[n].(free := Raised(w.nodes[n], size))] else w.nodes
  {
  }

  lemma DiscardOwnRowFits(env: Env, w: World, n: NodeId, h: Hash)
    requires n in w.nodes && RowFits(env, w, n) && Loc(h, n) in w.locs && Discard(env, w, n, h).1
    ensures n in Discard(env, w, n, h).0.nodes && RowFits(env, Discard(env, w, n, h).0, n)
  {
    DiscardEffect(env, w, n, h);
    DiscardNodes(env, w, n, h);
    GiveBackFits(env, w, n, h);
    RecordedDrop(w.locs, h, n);
  }

  lemma DiscardElsewhere(env: Env, w: World, n: NodeId, h: Hash, m: NodeId)
    requires m in w.nodes && m != n
    ensures var w' := Discard(env, w, n, h).0;
            && m in w'.nodes && w'.nodes[m] == w.nodes[m]
            && (w'.locs == w.locs || w'.locs == w.locs - {Loc(h, n)})
  {
  }

  lemma DiscardOtherRowFits(env: Env, w: World, n: NodeId, h: Hash, m: NodeId)
    requires m in w.nodes && RowFits(env, w, m) && m != n
    ensures m in Discard(env, w, n, h).0.nodes && RowFits(env, Discard(env, w, n, h).0, m)
  {
    DiscardElsewhere(env, w, n, h, m);
    AtDropElsewhere(w.locs, h, n, m);
    SameRowFits(env, w, Discard(env, w, n, h).0, m);
  }

  lemma DiscardIdle(env: Env, w: World, n: NodeId, h: Hash)
    requires Discard(env, w, n, h).1 ==> Loc(h, n) !in w.locs
    ensures Discard(env, w, n, h).0.nodes == w.nodes && Discard(env, w, n, h).0.locs == w.locs
  {
  }

  lemma DiscardRowFits(env: Env, w: World, n: NodeId, h: Hash, m: NodeId)
    requires m in w.nodes && RowFits(env, w, m)
    ensures m in Discard(env, w, n, h).0.nodes && RowFits(env, Discard(env, w, n, h).0, m)
  {
    if Discard(env, w, n, h).1 && Loc(h, n) in w.locs {
      if m == n { DiscardOwnRowFits(env, w, n, h); } else { DiscardOtherRowFits(env, w, n, h, m); }
    } else {
      DiscardIdle(env, w, n, h);
      SameRowFits(env, w, Discard(env, w, n, h).0, m);
    }
  }

  lemma DiscardAccounted(env: Env, w: World, n: NodeId, h: Hash)
    requires DeletesAnswered(env)
    requires Accounted(env, w)
    ensures Accounted(env, Discard(env, w, n, h).0)
  {
    DiscardPhysical(env, w, n, h);
    DiscardMeasured(env, w, n, h);
    var w' := Discard(env, w, n, h).0;
    DiscardEffect(env, w, n, h);
    forall m | m in w'.nodes ensures RowFits(env, w', m) { DiscardRowFits(env, w, n, h, m); }
  }

  lemma CopyMeasured(env: Env, w: World, n: NodeId, h: Hash, data: Bytes)
    requires MayCopy(w, n, h) && Measured(w)
    ensures Measured(CopyTo(env, w, n, h, data, |data|).0)
  {
    CopyEffect(env, w, n, h, data, |data|);
    PutEffect(env, w, n, h, data);
  }

  lemma ConfirmedRowFits(env: Env, w: World, w': World, n: NodeId, h: Hash, size: nat)
    requires n in w.nodes && RowFits(env, w, n) && Loc(h, n) !in w.locs && Recorded(w', n) <= env.capacity(n)
    requires w'.locs == w.locs[Loc(h, n) := size] && n in w'.nodes
    requires w'.nodes[n].capacity == w.nodes[n].capacity && w'.nodes[n].free == Lowered(w.nodes[n].free, size)
    ensures RowFits(env, w', n)
  {
    RecordedAdd(w.locs, h, n, size);
  }

  lemma CopyOtherRowFits(env: Env, w: World, n: NodeId, h: Hash, data: Bytes, m: NodeId)
    requires MayCopy(w, n, h) && m in w.nodes && RowFits(env, w, m) && (m != n || !CopyTo(env, w, n, h, data, |data|).1)
    ensures m in CopyTo(env, w, n, h, data, |data|).0.nodes && RowFits(env, CopyTo(env, w, n, h, data, |data|).0, m)
  {
    var (w', ok) := CopyTo(env, w, n, h, data, |data|);
    CopyEffect(env, w, n, h, data, |data|);
    UntouchedRowFits(env, w, w', ok, Loc(h, n), |data|, if ok then w'.nodes[n] else w.nodes[n], m);
  }

  lemma UntouchedRowFits(env: Env, w: World, w': World, ok: bool, k: Loc, size: nat, row: NodeRow, m: NodeId)
    requires m in w.nodes && RowFits(env, w, m) && (m != k.node || !ok)
    requires w'.locs == (if ok then w.locs[k := size] else w.locs)
    requires w'.nodes == (if ok then w.nodes[k.node := row] else w.nodes)
    ensures m in w'.nodes && RowFits(env, w', m)
  {
    if ok { AtAddElsewhere(w.locs, k.hash, k.node, size, m); }
    SameRowFits(env, w, w', m);
  }

  lemma CopyRowFits(env: Env, w: World, n: NodeId, h: Hash, data: Bytes, m: NodeId)
    requires MayCopy(w, n, h) && m in w.nodes && RowFits(env, w, m)
    requires Recorded(CopyTo(env, w, n, h, data, |data|).0, m) <= env.capacity(m)
    ensures m in CopyTo(env, w, n, h, data, |data|).0.nodes && RowFits(env, CopyTo(env, w, n, h, data, |data|).0, m)
  {
    var (w', ok) := CopyTo(env, w, n, h, data, |data|);
    if m == n && ok {
      CopyEffect(env, w, n, h, data, |data|);
      ConfirmedRowFits(env, w, w', n, h, |data|);
    } else {
      CopyOtherRowFits(env, w, n, h, data, m);
    }
  }

  /** Even when free was already too low, what is then recorded is on disk, so it fits. */
  lemma CopyAccounted(env: Env, w: World, n: NodeId, h: Hash, data: Bytes)
    requires MayCopy(w, n, h) && Accounted(env, w)
    ensures Accounted(env, CopyTo(env, w, n, h, data, |data|).0)
  {
    CopyPhysical(env, w, n, h, data, |data|);
    CopyMeasured(env, w, n, h, data);
    CopyEffect(env, w, n, h, data, |data|);
    var w' := CopyTo(env, w, n, h, data, |data|).0;
    forall m | m in w'.nodes ensures RowFits(env, w', m) {
      RecordedOnDisk(env, w', m);
      CopyRowFits(env, w, n, h, data, m);
    }
  }

  // ---- Sizes of chunks -----------------------------------------------------------------

  /** Every manifest entry names a chunk by the digest and the length of some bytes. */
  ghost predicate RefsGenuine(env: Env, w: World) {
    forall f, i :: f in w.files && 0 <= i < |w.files[f].chunks| ==> Genuine(env, w.files[f].chunks[i])
  }

  ghost predicate Genuine(env: Env, r: ChunkRef) {
    exists d :: env.digest(d) == r.hash && |d| == r.size
  }

  ghost predicate Injective(env: Env) {
    forall x, y :: env.digest(x) == env.digest(y) ==> x == y
  }

  /** The size that the manifests give a chunk. */
  ghost function RefSize(w: World, h: Hash): nat {
    MaxOf(set f, i | f in w.files && 0 <= i < |w.files[f].chunks| && w.files[f].chunks[i].hash == h
            :: w.files[f].chunks[i].size)
  }

  /** With a collision-free digest the size in the manifests is the size of the data. */
  lemma RefSizeIsTrue(env: Env, w: World, h: Hash, d: Bytes)
    requires Injective(env) && RefsGenuine(env, w) && h in InUse(w) && env.digest(d) == h
    ensures RefSize(w, h) == |d|
  {
    var s := set f, i | f in w.files && 0 <= i < |w.files[f].chunks| && w.files[f].chunks[i].hash == h
            :: w.files[f].chunks[i].size;
    forall x | x in s ensures x == |d| {
      var f, i :| f in w.files && 0 <= i < |w.files[f].chunks| && w.files[f].chunks[i].hash == h
               && w.files[f].chunks[i].size == x;
      assert Genuine(env, w.files[f].chunks[i]);
    }
    var f, i :| f in w.files && 0 <= i < |w.files[f].chunks| && w.files[f].chunks[i].hash == h;
    assert w.files[f].chunks[i].size in s;
  }

  // ---- A calm cluster: everybody answers and there is room -----------------------------

  ghost predicate Obedient(env: Env, calls: nat) {
    forall c, n :: c >= calls ==> env.replies(c, n) == Obey && env.deletes(c, n) == Deleted
  }

  /** The chunk is in use and has fewer active copies than it should have. */
  ghost predicate Wanting(w: World, h: Hash) {
    h in InUse(w) && |Active(w, h)| < Desired(w, h)
  }

  /** The chunks with missing copies that a node does not hold by the tables, with their sizes. */
  ghost function Lacking(w: World, n: NodeId): map<Hash, nat> {
    map h | h in InUse(w) && Wanting(w, h) && Loc(h, n) !in w.locs :: RefSize(w, h)
  }

  /** By the tables the node could take a copy of every chunk that misses one and that it does not have. */
  ghost predicate RoomFor(w: World, n: NodeId)
    requires n in w.nodes
  {
    w.nodes[n].free >= Total(Lacking(w, n))
  }

  /** The nodes that could take a copy of h and of everything else they might be asked to take. */
  ghost function Spare(w: World, h: Hash): set<NodeId> {
    set n | n in w.nodes && Loc(h, n) !in w.locs && RoomFor(w, n)
  }

  /** There are as many such nodes as copies are missing. */
  ghost predicate Enough(w: World, h: Hash) {
    Wanting(w, h) ==> Desired(w, h) - |Active(w, h)| <= |Spare(w, h)|
  }

  /** The space recorded as free is there, as after a heartbeat. */
  ghost predicate Honest(env: Env, w: World, n: NodeId)
    requires n in w.nodes
  {
    w.nodes[n].free + StoreOf(w, n).used <= env.capacity(n)
  }

  ghost predicate Roomy(env: Env, w: World) {
    && Accounted(env, w) && Injective(env) && RefsGenuine(env, w) && Obedient(env, w.calls)
    && (forall n :: n in w.nodes ==> Online(w, n)) && (forall n :: n in w.nodes ==> Honest(env, w, n))
    && (forall h :: Enough(w, h))
  }

  lemma RefSizeFrame(w: World, w': World, h: Hash)
    requires w'.files == w.files
    ensures RefSize(w', h) == RefSize(w, h)
  {
    assert (set f, i | f in w'.files && 0 <= i < |w'.files[f].chunks| && w'.files[f].chunks[i].hash == h
              :: w'.files[f].chunks[i].size)
        == (set f, i | f in w.files && 0 <= i < |w.files[f].chunks| && w.files[f].chunks[i].hash == h
              :: w.files[f].chunks[i].size);
  }

  /** From w to w' the node n comes to lack no chunk that it did not lack. */
  ghost predicate LacksNothingNew(w: World, w': World, n: NodeId) {
    forall h :: Wanting(w', h) && Loc(h, n) !in w'.locs ==> Wanting(w, h) && Loc(h, n) !in w.locs
  }

  lemma LackingPointwise(w: World, w': World, n: NodeId)
    requires w'.files == w.files && LacksNothingNew(w, w', n)
    ensures forall h :: h in Lacking(w', n) ==> h in Lacking(w, n) && Lacking(w', n)[h] == Lacking(w, n)[h]
  {
    FrameKeepsUse(w, w');
    forall h | h in Lacking(w', n) ensures h in Lacking(w, n) && Lacking(w', n)[h] == Lacking(w, n)[h] {
      RefSizeFrame(w, w', h);
    }
  }

  lemma LackingShrinks(w: World, w': World, n: NodeId)
    requires w'.files == w.files && LacksNothingNew(w, w', n)
    ensures Total(Lacking(w', n)) <= Total(Lacking(w, n))
  {
    LackingPointwise(w, w', n);
    Monotone(Lacking(w', n), Lacking(w, n));
  }

  /** A chunk that the node no longer lacks frees the room kept for it. */
  lemma LackingDrops(w: World, w': World, n: NodeId, h: Hash)
    requires w'.files == w.files && LacksNothingNew(w, w', n)
    requires Wanting(w, h) && Loc(h, n) !in w.locs && Loc(h, n) in w'.locs
    ensures Total(Lacking(w', n)) + RefSize(w, h) <= Total(Lacking(w, n))
  {
    LackingPointwise(w, w', n);
    var before, after := Lacking(w, n), Lacking(w', n);
    assert h in before && h !in after;
    TakeOut(before, h);
    Monotone(after, before - {h});
  }

  lemma RoomKept(w: World, w': World, n: NodeId)
    requires n in w.nodes && n in w'.nodes && RoomFor(w, n)
    requires w'.files == w.files && LacksNothingNew(w, w', n) && w'.nodes[n].free >= w.nodes[n].free
    ensures RoomFor(w', n)
  {
    LackingShrinks(w, w', n);
  }

  lemma LackingFits(w: World, n: NodeId, h: Hash)
    requires n in w.nodes && RoomFor(w, n) && Wanting(w, h) && Loc(h, n) !in w.locs
    ensures RefSize(w, h) <= w.nodes[n].free
  {
    TakeOut(Lacking(w, n), h);
  }

  /** Nodes stay enough for a chunk whose copies and spare nodes do not become fewer. */
  lemma EnoughKept(w: World, w': World, g: Hash)
    requires w'.files == w.files && Enough(w, g) && Spare(w, g) <= Spare(w', g)
    requires |Active(w', g)| >= |Active(w, g)|
    ensures Enough(w', g)
  {
    FrameKeepsUse(w, w');
    SubsetSize(Spare(w, g), Spare(w', g));
  }

  lemma RoomyNode(env: Env, w: World, n: NodeId)
    requires Roomy(env, w) && n in w.nodes
    ensures Honest(env, w, n) && RowFits(env, w, n) && StoreSound(env, StoreOf(w, n)) && Online(w, n)
  {
    UsedFits(env, w, n);
  }

  /** What a roomy cluster says about one recorded copy. */
  lemma RoomyCopy(env: Env, w: World, k: Loc)
    requires Roomy(env, w) && k in w.locs
    ensures k.node in w.nodes && Holds(w, k.node, k.hash) && w.locs[k] == |StoreOf(w, k.node).chunks[k.hash]|
    ensures env.digest(StoreOf(w, k.node).chunks[k.hash]) == k.hash
    ensures k.hash in InUse(w) ==> RefSize(w, k.hash) == w.locs[k]
  {
    LocatedOnDisk(w, k);
    UsedFits(env, w, k.node);
    if k.hash in InUse(w) { RefSizeIsTrue(env, w, k.hash, StoreOf(w, k.node).chunks[k.hash]); }
  }

  lemma ObeyedDiscard(env: Env, w: World, n: NodeId, h: Hash)
    requires Obedient(env, w.calls)
    ensures Discard(env, w, n, h).1
  {
  }

  /** A permitted discard leaves no chunk wanting. */
  lemma DiscardLacks(env: Env, w: World, n: NodeId, h: Hash, m: NodeId)
    requires MayDiscard(w, n, h)
    ensures LacksNothingNew(w, Discard(env, w, n, h).0, m)
  {
    var w' := Discard(env, w, n, h).0;
    DiscardEffect(env, w, n, h);
    FrameKeepsUse(w, w');
    forall g | Wanting(w', g) && Loc(g, m) !in w'.locs ensures Wanting(w, g) && Loc(g, m) !in w.locs {
      DiscardActive(env, w, n, h, g);
    }
  }

  /** A discard takes neither recorded nor real space from any node. */
  lemma DiscardFrees(env: Env, w: World, n: NodeId, h: Hash, m: NodeId)
    requires m in w.nodes && RowFits(env, w, m)
    ensures m in Discard(env, w, n, h).0.nodes && Discard(env, w, n, h).0.nodes[m].free >= w.nodes[m].free
  {
    if m != n {
      DiscardElsewhere(env, w, n, h, m);
    } else if Discard(env, w, n, h).1 && Loc(h, n) in w.locs {
      GiveBackFits(env, w, n, h);
      DiscardNodes(env, w, n, h);
    } else {
      DiscardIdle(env, w, n, h);
    }
  }

  lemma DiscardUses(env: Env, w: World, n: NodeId, h: Hash, m: NodeId)
    requires StoreSound(env, StoreOf(w, n))
    ensures StoreOf(Discard(env, w, n, h).0, m).used <= StoreOf(w, m).used
  {
    DiscardEffect(env, w, n, h);
    EraseKeepsSound(env, StoreOf(w, n), h);
  }

  /** On the node itself the space given back is what the chunk took. */
  lemma DiscardOwnHonest(env: Env, w: World, n: NodeId, h: Hash)
    requires Roomy(env, w) && Loc(h, n) in w.locs && n in w.nodes
    ensures n in Discard(env, w, n, h).0.nodes && Honest(env, Discard(env, w, n, h).0, n)
  {
    RoomyCopy(env, w, Loc(h, n));
    RoomyNode(env, w, n);
    GiveBackFits(env, w, n, h);
    ObeyedDiscard(env, w, n, h);
  }

  lemma DiscardHonest(env: Env, w: World, n: NodeId, h: Hash, m: NodeId)
    requires Roomy(env, w) && m in w.nodes
    ensures m in Discard(env, w, n, h).0.nodes && Honest(env, Discard(env, w, n, h).0, m)
  {
    UsedFits(env, w, n);
    RoomyNode(env, w, m);
    DiscardUses(env, w, n, h, m);
    if m != n {
      DiscardElsewhere(env, w, n, h, m);
    } else if Loc(h, n) in w.locs {
      DiscardOwnHonest(env, w, n, h);
    } else {
      DiscardIdle(env, w, n, h);
    }
  }

  lemma DiscardSpare(env: Env, w: World, n: NodeId, h: Hash, g: Hash, m: NodeId)
    requires Space(env, w) && MayDiscard(w, n, h) && m in Spare(w, g)
    ensures m in Spare(Discard(env, w, n, h).0, g)
  {
    var w' := Discard(env, w, n, h).0;
    DiscardEffect(env, w, n, h);
    DiscardLacks(env, w, n, h, m);
    DiscardFrees(env, w, n, h, m);
    RoomKept(w, w', m);
  }

  lemma DiscardEnough(env: Env, w: World, n: NodeId, h: Hash, g: Hash)
    requires Space(env, w) && MayDiscard(w, n, h) && Enough(w, g)
    ensures Enough(Discard(env, w, n, h).0, g)
  {
    var w' := Discard(env, w, n, h).0;
    DiscardEffect(env, w, n, h);
    DiscardActive(env, w, n, h, g);
    FrameKeepsUse(w, w');
    if Wanting(w', g) {
      forall m | m in Spare(w, g) ensures m in Spare(w', g) { DiscardSpare(env, w, n, h, g, m); }
      EnoughKept(w, w', g);
    }
  }

  lemma DiscardRoomy(env: Env, w: World, n: NodeId, h: Hash)
    requires DeletesAnswered(env)
    requires Roomy(env, w) && MayDiscard(w, n, h)
    ensures Roomy(env, Discard(env, w, n, h).0)
  {
    var w' := Discard(env, w, n, h).0;
    DiscardEffect(env, w, n, h);
    DiscardAccounted(env, w, n, h);
    forall m | m in w'.nodes ensures Honest(env, w', m) && Online(w', m) {
      assert Online(w, m) && m in OnlineNodes(w');
      DiscardHonest(env, w, n, h, m);
    }
    forall g ensures Enough(w', g) { DiscardEnough(env, w, n, h, g); }
  }

  /** A copy to a node whose row has room succeeds. */
  lemma ObeyedCopy(env: Env, w: World, n: NodeId, h: Hash, data: Bytes)
    requires Roomy(env, w) && MayCopy(w, n, h) && env.digest(data) == h && |data| <= w.nodes[n].free
    ensures CopyTo(env, w, n, h, data, |data|).1
  {
    RoomyNode(env, w, n);
  }

  lemma CopyLacks(env: Env, w: World, n: NodeId, h: Hash, data: Bytes, m: NodeId)
    requires MayCopy(w, n, h) && Wanting(w, h)
    ensures LacksNothingNew(w, CopyTo(env, w, n, h, data, |data|).0, m)
  {
    var w' := CopyTo(env, w, n, h, data, |data|).0;
    CopyEffect(env, w, n, h, data, |data|);
    FrameKeepsUse(w, w');
    forall g | Wanting(w', g) && Loc(g, m) !in w'.locs ensures Wanting(w, g) && Loc(g, m) !in w.locs {
      CopyActive(env, w, n, h, data, |data|, g);
    }
  }

  /** On the node that took the copy the room shrinks by what is no longer lacking there. */
  lemma CopyRoomFor(env: Env, w: World, n: NodeId, h: Hash, data: Bytes)
    requires MayCopy(w, n, h) && Wanting(w, h) && RoomFor(w, n) && CopyTo(env, w, n, h, data, |data|).1
    requires RefSize(w, h) == |data|
    ensures n in CopyTo(env, w, n, h, data, |data|).0.nodes && RoomFor(CopyTo(env, w, n, h, data, |data|).0, n)
  {
    var w' := CopyTo(env, w, n, h, data, |data|).0;
    LackingFits(w, n, h);
    CopyLacks(env, w, n, h, data, n);
    CopyEffect(env, w, n, h, data, |data|);
    LackingDrops(w, w', n, h);
  }

  lemma CopyRoomForOthers(env: Env, w: World, n: NodeId, h: Hash, data: Bytes, m: NodeId)
    requires MayCopy(w, n, h) && Wanting(w, h) && m in w.nodes && m != n && RoomFor(w, m)
    ensures m in CopyTo(env, w, n, h, data, |data|).0.nodes && RoomFor(CopyTo(env, w, n, h, data, |data|).0, m)
  {
    var w' := CopyTo(env, w, n, h, data, |data|).0;
    CopyEffect(env, w, n, h, data, |data|);
    CopyLacks(env, w, n, h, data, m);
    RoomKept(w, w', m);
  }

  /** A successful copy costs no chunk a spare node, but for the node and the chunk that it is about. */
  lemma CopySpare(env: Env, w: World, n: NodeId, h: Hash, data: Bytes, g: Hash, m: NodeId)
    requires MayCopy(w, n, h) && Wanting(w, h) && CopyTo(env, w, n, h, data, |data|).1 && RefSize(w, h) == |data|
    requires m in Spare(w, g) && (g != h || m != n)
    ensures m in Spare(CopyTo(env, w, n, h, data, |data|).0, g)
  {
    CopyEffect(env, w, n, h, data, |data|);
    if m == n { CopyRoomFor(env, w, n, h, data); } else { CopyRoomForOthers(env, w, n, h, data, m); }
  }

  lemma CopyEnoughElsewhere(env: Env, w: World, n: NodeId, h: Hash, data: Bytes, g: Hash)
    requires MayCopy(w, n, h) && Wanting(w, h) && CopyTo(env, w, n, h, data, |data|).1 && RefSize(w, h) == |data|
    requires Enough(w, g) && g != h
    ensures Enough(CopyTo(env, w, n, h, data, |data|).0, g)
  {
    var w' := CopyTo(env, w, n, h, data, |data|).0;
    CopyEffect(env, w, n, h, data, |data|);
    CopyActive(env, w, n, h, data, |data|, g);
    forall m | m in Spare(w, g) ensures m in Spare(w', g) { CopySpare(env, w, n, h, data, g, m); }
    EnoughKept(w, w', g);
  }

  lemma CopyOwnSpare(env: Env, w: World, n: NodeId, h: Hash, data: Bytes)
    requires MayCopy(w, n, h) && Wanting(w, h) && CopyTo(env, w, n, h, data, |data|).1 && RefSize(w, h) == |data|
    ensures |Spare(CopyTo(env, w, n, h, data, |data|).0, h)| >= |Spare(w, h)| - 1
  {
    var before, after := Spare(w, h) - {n}, Spare(CopyTo(env, w, n, h, data, |data|).0, h);
    forall m | m in before ensures m in after { CopySpare(env, w, n, h, data, h, m); }
    SubsetSize(before, after);
  }

  lemma CopyOwnActive(env: Env, w: World, n: NodeId, h: Hash, data: Bytes)
    requires MayCopy(w, n, h) && CopyTo(env, w, n, h, data, |data|).1
    ensures |Active(CopyTo(env, w, n, h, data, |data|).0, h)| == |Active(w, h)| + 1
  {
    CopyActive(env, w, n, h, data, |data|, h);
    assert n !in Active(w, h);
  }

  /** The chunk itself may lose the node as a spare one, but then misses a copy less. */
  lemma CopyEnoughOwn(env: Env, w: World, n: NodeId, h: Hash, data: Bytes)
    requires MayCopy(w, n, h) && Wanting(w, h) && CopyTo(env, w, n, h, data, |data|).1 && RefSize(w, h) == |data|
    requires Enough(w, h)
    ensures Enough(CopyTo(env, w, n, h, data, |data|).0, h)
  {
    var w' := CopyTo(env, w, n, h, data, |data|).0;
    CopyEffect(env, w, n, h, data, |data|);
    FrameKeepsUse(w, w');
    CopyOwnActive(env, w, n, h, data);
    CopyOwnSpare(env, w, n, h, data);
  }

  lemma CopyElsewhere(env: Env, w: World, n: NodeId, h: Hash, data: Bytes, m: NodeId)
    requires MayCopy(w, n, h) && m in w.nodes && m != n
    ensures var w' := CopyTo(env, w, n, h, data, |data|).0;
            m in w'.nodes && w'.nodes[m] == w.nodes[m] && StoreOf(w', m) == StoreOf(w, m)
  {
    CopyEffect(env, w, n, h, data, |data|);
    PutEffect(env, w, n, h, data);
  }

  lemma CopyOwnHonest(env: Env, w: World, n: NodeId, h: Hash, data: Bytes)
    requires MayCopy(w, n, h) && Honest(env, w, n) && CopyTo(env, w, n, h, data, |data|).1
    requires w.nodes[n].free >= 0
    ensures n in CopyTo(env, w, n, h, data, |data|).0.nodes && Honest(env, CopyTo(env, w, n, h, data, |data|).0, n)
  {
    CopyEffect(env, w, n, h, data, |data|);
    PutEffect(env, w, n, h, data);
  }

  lemma CopyHonest(env: Env, w: World, n: NodeId, h: Hash, data: Bytes, m: NodeId)
    requires Roomy(env, w) && MayCopy(w, n, h) && m in w.nodes && CopyTo(env, w, n, h, data, |data|).1
    ensures m in CopyTo(env, w, n, h, data, |data|).0.nodes && Honest(env, CopyTo(env, w, n, h, data, |data|).0, m)
  {
    RoomyNode(env, w, m);
    if m == n { CopyOwnHonest(env, w, n, h, data); } else { CopyElsewhere(env, w, n, h, data, m); }
  }

  /** On an obedient node a copy that fails changes nothing. */
  lemma RefusedCopy(env: Env, w: World, n: NodeId, h: Hash, data: Bytes)
    requires Obedient(env, w.calls) && MayCopy(w, n, h) && !CopyTo(env, w, n, h, data, |data|).1
    ensures CopyTo(env, w, n, h, data, |data|).0 == Called(w)
  {
  }

  lemma CopyRoomy(env: Env, w: World, n: NodeId, h: Hash, data: Bytes)
    requires Roomy(env, w) && MayCopy(w, n, h) && Wanting(w, h) && env.digest(data) == h
    ensures Roomy(env, CopyTo(env, w, n, h, data, |data|).0)
  {
    var (w', ok) := CopyTo(env, w, n, h, data, |data|);
    if ok {
      CopiedRoomy(env, w, n, h, data);
    } else {
      RefusedCopy(env, w, n, h, data);
      CallsOnlyRoomy(env, w, w');
    }
  }

  lemma CopiedRoomy(env: Env, w: World, n: NodeId, h: Hash, data: Bytes)
    requires Roomy(env, w) && MayCopy(w, n, h) && Wanting(w, h) && env.digest(data) == h
    requires CopyTo(env, w, n, h, data, |data|).1
    ensures Roomy(env, CopyTo(env, w, n, h, data, |data|).0)
  {
    var w' := CopyTo(env, w, n, h, data, |data|).0;
    CopyEffect(env, w, n, h, data, |data|);
    CopyAccounted(env, w, n, h, data);
    RefSizeIsTrue(env, w, h, data);
    forall m | m in w'.nodes ensures Honest(env, w', m) && Online(w', m) {
      assert Online(w, m) && m in OnlineNodes(w');
      CopyHonest(env, w, n, h, data, m);
    }
    forall g ensures Enough(w', g) {
      if g == h { CopyEnoughOwn(env, w, n, h, data); } else { CopyEnoughElsewhere(env, w, n, h, data, g); }
    }
  }

  // ---- Calls that change nothing -------------------------------------------------------

  lemma CallsOnlyAccounted(env: Env, w: World, w': World)
    requires w' == w.(calls := w'.calls)
    ensures Physical(env, w) ==> Physical(env, w')
    ensures Accounted(env, w) ==> Accounted(env, w')
  {
    assert forall n :: StoreOf(w', n) == StoreOf(w, n);
  }

  lemma CallsOnlyRoomy(env: Env, w: World, w': World)
    requires w'.calls >= w.calls && w' == w.(calls := w'.calls) && Roomy(env, w)
    ensures Roomy(env, w')
  {
    CallsOnlyAccounted(env, w, w');
    forall n | n in w'.nodes ensures Honest(env, w', n) && Online(w', n) { RoomyNode(env, w, n); }
    forall g ensures Enough(w', g) { CallsOnlyEnough(w, w', g); }
  }

  lemma CallsOnlyEnough(w: World, w': World, g: Hash)
    requires w' == w.(calls := w'.calls) && Enough(w, g)
    ensures Enough(w', g)
  {
    forall h ensures Active(w', h) == Active(w, h) { CallsOnlyActive(w, w', h); }
    FrameKeepsUse(w, w');
    forall m | m in Spare(w, g) ensures m in Spare(w', g) { RoomKept(w, w', m); }
    EnoughKept(w, w', g);
  }

  lemma CallsOnlyActive(w: World, w': World, h: Hash)
    requires w' == w.(calls := w'.calls)
    ensures Active(w', h) == Active(w, h)
  {
    assert OnlineNodes(w') == OnlineNodes(w);
    ActiveAfter(w, w', h);
  }
}
