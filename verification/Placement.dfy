/** Where new copies go, and why repeated placement keeps the load of one upload even. */
module Placement {
  import opened Invariants
  import opened Model
  import opened Operations
  import opened Ordering
  import opened Queries
  import opened Scheduler
  import opened Types
  import opened Uploads

  // ---- The choice ----------------------------------------------------------------------

  /** The node may get a copy: seen in the last 45 seconds, with that much free, and without the chunk. */
  ghost predicate MayReceive(w: World, h: Hash, size: nat, n: NodeId) {
    n in w.nodes && w.now - w.nodes[n].lastSeen <= 45 && w.nodes[n].free >= size && Loc(h, n) !in w.locs
  }

  ghost function Receivers(w: World, h: Hash, size: nat): set<NodeId> {
    set n | n in w.nodes && MayReceive(w, h, size, n)
  }

  /** x gets a copy before y: it was given fewer copies, or has more free space, or the smaller id. */
  ghost predicate Preferred(w: World, counts: map<NodeId, nat>, x: NodeId, y: NodeId) {
    var cx, cy := Count(counts, x), Count(counts, y);
    && x in w.nodes && y in w.nodes
    && (|| cx < cy
        || (cx == cy && w.nodes[x].free > w.nodes[y].free)
        || (cx == cy && w.nodes[x].free == w.nodes[y].free && x < y))
  }

  /**
   * The plan, column by column: as many of the nodes that may get a copy as are wanted or there are,
   * each once, in order of preference, and preferred to every one of them that is left out.
   */
  lemma PlanIsLeast(w: World, h: Hash, size: nat, replication: int, counts: map<NodeId, nat>)
    ensures var r := PlanChunkSpread(w, h, size, replication, counts);
            && NoDuplicates(r) && |r| == Least(if replication <= 0 then 3 else replication, |Receivers(w, h, size)|)
            && (forall x :: x in r ==> MayReceive(w, h, size, x))
            && (forall i, j :: 0 <= i < j < |r| ==> Preferred(w, counts, r[i], r[j]))
            && (forall x, y :: x in r && MayReceive(w, h, size, y) && y !in r ==> Preferred(w, counts, x, y))
  {
    PlanOrdered(w, h, size, replication, counts);
    EligibleReceive(w, h, size);
    var r := PlanChunkSpread(w, h, size, replication, counts);
    forall x | x in r ensures MayReceive(w, h, size, x) { assert x in Elements(r); }
    forall i, j | 0 <= i < j < |r| ensures Preferred(w, counts, r[i], r[j]) {
      OrderPrefers(w, counts, r[i], r[j]);
    }
    forall x, y | x in r && MayReceive(w, h, size, y) && y !in r ensures Preferred(w, counts, x, y) {
      assert y in Eligible(w, h, size);
      OrderPrefers(w, counts, x, y);
    }
  }

  lemma EligibleReceive(w: World, h: Hash, size: nat)
    ensures Receivers(w, h, size) == Eligible(w, h, size)
  {
  }

  lemma OrderPrefers(w: World, counts: map<NodeId, nat>, x: NodeId, y: NodeId)
    requires x in w.nodes && y in w.nodes
    ensures Before(PlanOrder(w, counts)(x), PlanOrder(w, counts)(y)) <==> Preferred(w, counts, x, y)
  {
  }

  lemma PlanOrdered(w: World, h: Hash, size: nat, replication: int, counts: map<NodeId, nat>)
    ensures var r := PlanChunkSpread(w, h, size, replication, counts);
            var e := Eligible(w, h, size);
            && NoDuplicates(r) && Elements(r) <= e
            && |r| == Least(NormalizedReplication(replication), |e|)
            && Ascending(r, PlanOrder(w, counts))
            && forall x, y :: x in r && y in e && y !in r ==> Before(PlanOrder(w, counts)(x), PlanOrder(w, counts)(y))
  {
    var r, e := PlanChunkSpread(w, h, size, replication, counts), Eligible(w, h, size);
    var all := Enumerate(e, PlanOrder(w, counts));
    TakePrefix(all, NormalizedReplication(replication));
    assert forall y :: y in e ==> y in all;
    TakenFirst(e, PlanOrder(w, counts), NormalizedReplication(replication));
  }

  lemma PlanPrefersIdle(w: World, h: Hash, size: nat, replication: int, counts: map<NodeId, nat>)
    ensures var r := PlanChunkSpread(w, h, size, replication, counts);
            forall x, y :: x in r && y in Eligible(w, h, size) && y !in r ==> Count(counts, x) <= Count(counts, y)
  {
    PlanOrdered(w, h, size, replication, counts);
    var r := PlanChunkSpread(w, h, size, replication, counts);
    forall x, y | x in r && y in Eligible(w, h, size) && y !in r ensures Count(counts, x) <= Count(counts, y) {
      assert Before(PlanOrder(w, counts)(x), PlanOrder(w, counts)(y));
    }
  }

  // ---- Counting placements -------------------------------------------------------------

  /** A completed placement gives every planned node one more copy and nobody else any. */
  lemma {:induction false} PlaceCounts(env: Env, w: World, counts: map<NodeId, nat>, nodes: seq<NodeId>, i: nat,
                                           h: Hash, data: Bytes)
    requires i <= |nodes| && NoDuplicates(nodes)
    ensures var r := PlaceFrom(env, w, counts, nodes, i, h, data);
            r.2 ==> forall x :: Count(r.1, x) == Count(counts, x) + (if x in nodes[i..] then 1 else 0)
    decreases |nodes| - i
  {
    if i < |nodes| {
      var (w1, ok) := CopyTo(env, w, nodes[i], h, data, |data|);
      var counts1 := counts[nodes[i] := Count(counts, nodes[i]) + 1];
      PlaceCounts(env, w1, counts1, nodes, i + 1, h, data);
      assert nodes[i..] == [nodes[i]] + nodes[i + 1..];
      assert nodes[i] !in nodes[i + 1..];
    }
  }

  lemma {:induction false} PlaceAllCounts(env: Env, w: World, counts: map<NodeId, nat>, nodes: seq<NodeId>, h: Hash,
                                          data: Bytes)
    requires NoDuplicates(nodes)
    ensures var r := PlaceFrom(env, w, counts, nodes, 0, h, data);
            r.2 ==> forall x :: Count(r.1, x) == Count(counts, x) + (if x in nodes then 1 else 0)
  {
    PlaceCounts(env, w, counts, nodes, 0, h, data);
    assert nodes[0..] == nodes;
  }

  ghost predicate Balanced(counts: map<NodeId, nat>, s: set<NodeId>) {
    forall x, y :: x in s && y in s ==> Count(counts, x) <= Count(counts, y) + 1
  }

  /** Giving one more to some of the least keeps the counts within one of each other. */
  lemma LeastFirstKeepsBalance(before: map<NodeId, nat>, after: map<NodeId, nat>, chosen: seq<NodeId>, s: set<NodeId>)
    requires Balanced(before, s)
    requires forall x :: Count(after, x) == Count(before, x) + (if x in chosen then 1 else 0)
    requires forall x, y :: x in chosen && y in s && y !in chosen ==> Count(before, x) <= Count(before, y)
    ensures Balanced(after, s)
  {
  }

  /** One placement keeps the balance if every online node is eligible for the chunk. */
  lemma PlacementBalances(env: Env, u: Upload, h: Hash, data: Bytes, replication: int)
    requires Balanced(u.counts, OnlineNodes(u.w))
    requires MissingCopies(u.w, h, replication) > 0 ==> Eligible(u.w, h, |data|) == OnlineNodes(u.w)
    ensures var (u', ok) := PlaceChunk(env, u, h, data, replication);
            ok ==> Balanced(u'.counts, OnlineNodes(u.w))
  {
    var missing := MissingCopies(u.w, h, replication);
    if missing > 0 {
      var nodes := PlanChunkSpread(u.w, h, |data|, missing, u.counts);
      PlanPrefersIdle(u.w, h, |data|, missing, u.counts);
      PlanIsEligible(u.w, h, |data|, missing, u.counts);
      PlaceAllCounts(env, u.w, u.counts, nodes, h, data);
      var r := PlaceFrom(env, u.w, u.counts, nodes, 0, h, data);
      if r.2 {
        LeastFirstKeepsBalance(u.counts, r.1, nodes, OnlineNodes(u.w));
      }
    }
  }

  // ---- Room ----------------------------------------------------------------------------

  ghost function BytesFrom(pieces: seq<Bytes>, i: nat): nat
    requires i <= |pieces|
    decreases |pieces| - i
  {
    if i == |pieces| then 0 else |pieces[i]| + BytesFrom(pieces, i + 1)
  }

  ghost predicate Room(w: World, bytes: nat) {
    forall n :: n in OnlineNodes(w) ==> w.nodes[n].free >= bytes
  }

  ghost predicate FreeKept(w: World, w': World, except: set<NodeId>, size: nat) {
    && OnlineNodes(w') == OnlineNodes(w)
    && forall n :: n in OnlineNodes(w) ==> w'.nodes[n].free >= w.nodes[n].free - (if n in except then size else 0)
  }

  lemma CopyFree(env: Env, w: World, n: NodeId, h: Hash, data: Bytes)
    requires MayCopy(w, n, h)
    ensures FreeKept(w, CopyTo(env, w, n, h, data, |data|).0, {n}, |data|)
  {
    CopyEffect(env, w, n, h, data, |data|);
  }

  lemma FreeKeptTrans(a: World, b: World, c: World, n: NodeId, rest: set<NodeId>, size: nat)
    requires FreeKept(a, b, {n}, size) && FreeKept(b, c, rest, size) && n !in rest
    ensures FreeKept(a, c, {n} + rest, size)
  {
  }

  lemma FreeKeptWider(a: World, b: World, s: set<NodeId>, t: set<NodeId>, size: nat)
    requires FreeKept(a, b, s, size) && s <= t
    ensures FreeKept(a, b, t, size)
  {
  }

  lemma FreeKeptRoom(a: World, b: World, s: set<NodeId>, size: nat, bytes: nat)
    requires FreeKept(a, b, s, size) && Room(a, size + bytes)
    ensures Room(b, bytes)
  {
  }

  lemma ElementsStep(nodes: seq<NodeId>, i: nat)
    requires i < |nodes| && NoDuplicates(nodes)
    ensures Elements(nodes[i..]) == {nodes[i]} + Elements(nodes[i + 1..]) && nodes[i] !in Elements(nodes[i + 1..])
  {
    assert nodes[i..] == [nodes[i]] + nodes[i + 1..];
  }

  /** Placing a chunk takes its size from each planned node once, and nothing from the others. */
  lemma {:induction false} PlaceFree(env: Env, w: World, counts: map<NodeId, nat>, nodes: seq<NodeId>, i: nat,
                                         h: Hash, data: Bytes)
    requires i <= |nodes| && MayPlace(w, nodes, i, h)
    ensures FreeKept(w, PlaceFrom(env, w, counts, nodes, i, h, data).0, Elements(nodes[i..]), |data|)
    decreases |nodes| - i
  {
    if i < |nodes| {
      var (w1, ok) := CopyTo(env, w, nodes[i], h, data, |data|);
      PlaceStep(env, w, nodes, i, h, data);
      CopyFree(env, w, nodes[i], h, data);
      ElementsStep(nodes, i);
      if ok {
        var counts1 := counts[nodes[i] := Count(counts, nodes[i]) + 1];
        PlaceFree(env, w1, counts1, nodes, i + 1, h, data);
        var w2 := PlaceFrom(env, w1, counts1, nodes, i + 1, h, data).0;
        FreeKeptTrans(w, w1, w2, nodes[i], Elements(nodes[i + 1..]), |data|);
      } else {
        FreeKeptWider(w, w1, {nodes[i]}, Elements(nodes[i..]), |data|);
      }
    }
  }

  lemma PlacementRoom(env: Env, u: Upload, h: Hash, data: Bytes, replication: int, bytes: nat)
    requires Room(u.w, |data| + bytes)
    ensures var w' := PlaceChunk(env, u, h, data, replication).0.w;
            Room(w', bytes) && OnlineNodes(w') == OnlineNodes(u.w)
  {
    var missing := MissingCopies(u.w, h, replication);
    if missing > 0 {
      var nodes := PlanChunkSpread(u.w, h, |data|, missing, u.counts);
      PlanIsEligible(u.w, h, |data|, missing, u.counts);
      PlaceFree(env, u.w, u.counts, nodes, 0, h, data);
      FreeKeptRoom(u.w, PlaceFrom(env, u.w, u.counts, nodes, 0, h, data).0, Elements(nodes[0..]), |data|, bytes);
    }
  }

  /** A completed placement leaves the chunk with at least the asked-for copies. */
  lemma PlacementReaches(env: Env, u: Upload, h: Hash, data: Bytes, replication: int)
    ensures var (u', ok) := PlaceChunk(env, u, h, data, replication);
            ok && (forall n :: Loc(h, n) !in u.w.locs) ==> |Active(u'.w, h)| >= replication
    ensures var (u', ok) := PlaceChunk(env, u, h, data, replication);
            ok && |Active(u.w, h)| >= replication ==> u' == u
  {
    ExistingAreActive(u.w, h);
    var missing := MissingCopies(u.w, h, replication);
    if missing > 0 {
      var nodes := PlanChunkSpread(u.w, h, |data|, missing, u.counts);
      PlanIsEligible(u.w, h, |data|, missing, u.counts);
      PlaceGrows(env, u.w, u.counts, nodes, 0, h, data);
      var r := PlaceFrom(env, u.w, u.counts, nodes, 0, h, data);
      if r.2 && (forall n :: Loc(h, n) !in u.w.locs) {
        PlacedAreActive(u.w, r.0, nodes, h);
        assert Active(u.w, h) == {};
      }
    }
  }

  lemma PlacedAreActive(w: World, w': World, nodes: seq<NodeId>, h: Hash)
    requires OnlineNodes(w') == OnlineNodes(w) && MayPlace(w, nodes, 0, h) && AllPlaced(w', nodes, 0, h)
    ensures |Active(w', h)| >= |nodes|
  {
    SizeOfElements(nodes);
    forall n | n in Elements(nodes) ensures n in Active(w', h) {
      var j :| 0 <= j < |nodes| && nodes[j] == n;
      assert n in OnlineNodes(w');
    }
    SubsetSize(Elements(nodes), Active(w', h));
  }

  // ---- The whole upload ----------------------------------------------------------------

  /** Chunks of the upload seen so far have their copies, the others are not stored anywhere. */
  ghost predicate FreshOrDone(env: Env, u: Upload, pieces: seq<Bytes>, replication: int) {
    forall j :: 0 <= j < |pieces| ==>
      var h := env.digest(pieces[j]);
      if h in u.seen then |Active(u.w, h)| >= replication else forall n :: Loc(h, n) !in u.w.locs
  }

  lemma ChunkKeepsFreshOrDone(env: Env, u: Upload, pieces: seq<Bytes>, i: nat, replication: int)
    requires i < |pieces| && FreshOrDone(env, u, pieces, replication)
    requires BackupChunk(env, u, pieces[i], replication).1
    ensures FreshOrDone(env, BackupChunk(env, u, pieces[i], replication).0, pieces, replication)
  {
    var d := pieces[i];
    var h := env.digest(d);
    var u1 := Tallied(u, h, |d|);
    var (u', ok) := BackupChunk(env, u, d, replication);
    var p := PlaceChunk(env, u1, h, d, replication).0;
    ChunkGrows(env, u, d, replication);
    PlacementReaches(env, u1, h, d, replication);
    assert u'.w == p.w && u'.seen == u.seen + {h};
    forall j | 0 <= j < |pieces|
      ensures var g := env.digest(pieces[j]);
              if g in u'.seen then |Active(u'.w, g)| >= replication else forall n :: Loc(g, n) !in u'.w.locs
    {
      var g := env.digest(pieces[j]);
      if g != h { ActiveAfter(u.w, u'.w, g); }
    }
  }

  /** After every completed iteration the numbers of copies given to any two nodes differ by at most one. */
  ghost predicate BalancedThroughout(env: Env, u: Upload, pieces: seq<Bytes>, i: nat, replication: int, s: set<NodeId>)
    requires i <= |pieces|
    decreases |pieces| - i
  {
    && Balanced(u.counts, s)
    && (i < |pieces| ==> var (u1, ok) := BackupChunk(env, u, pieces[i], replication);
                         ok ==> BalancedThroughout(env, u1, pieces, i + 1, replication, s))
  }

  /** A round that places copies finds room for its chunk on every online node. */
  ghost predicate RoomInRound(env: Env, u: Upload, data: Bytes, replication: int) {
    MissingCopies(u.w, env.digest(data), replication) > 0 ==> Room(u.w, |data|)
  }

  ghost predicate RoomThroughout(env: Env, u: Upload, pieces: seq<Bytes>, i: nat, replication: int)
    requires i <= |pieces|
    decreases |pieces| - i
  {
    i < |pieces| ==>
      && RoomInRound(env, u, pieces[i], replication)
      && var (u1, ok) := BackupChunk(env, u, pieces[i], replication);
         ok ==> RoomThroughout(env, u1, pieces, i + 1, replication)
  }

  /** One round keeps the balance. */
  lemma RoundBalances(env: Env, u: Upload, pieces: seq<Bytes>, i: nat, replication: int)
    requires i < |pieces| && Balanced(u.counts, OnlineNodes(u.w)) && RoomInRound(env, u, pieces[i], replication)
    requires FreshOrDone(env, u, pieces, replication) && BackupChunk(env, u, pieces[i], replication).1
    ensures var u' := BackupChunk(env, u, pieces[i], replication).0;
            OnlineNodes(u'.w) == OnlineNodes(u.w) && Balanced(u'.counts, OnlineNodes(u'.w))
  {
    var d := pieces[i];
    var h := env.digest(d);
    ExistingAreActive(u.w, h);
    if MissingCopies(u.w, h, replication) > 0 {
      assert Eligible(u.w, h, |d|) == OnlineNodes(u.w);
    }
    PlacementBalances(env, Tallied(u, h, |d|), h, d, replication);
    ChunkGrows(env, u, d, replication);
  }

  lemma {:induction false} LoopBalances(env: Env, u: Upload, pieces: seq<Bytes>, i: nat, replication: int)
    requires i <= |pieces| && Balanced(u.counts, OnlineNodes(u.w)) && RoomThroughout(env, u, pieces, i, replication)
    requires FreshOrDone(env, u, pieces, replication)
    ensures BalancedThroughout(env, u, pieces, i, replication, OnlineNodes(u.w))
    decreases |pieces| - i
  {
    if i < |pieces| && BackupChunk(env, u, pieces[i], replication).1 {
      RoundBalances(env, u, pieces, i, replication);
      ChunkKeepsFreshOrDone(env, u, pieces, i, replication);
      LoopBalances(env, BackupChunk(env, u, pieces[i], replication).0, pieces, i + 1, replication);
    }
  }

  /** No chunk of the upload is stored anywhere yet. */
  ghost predicate Unstored(env: Env, w: World, pieces: seq<Bytes>) {
    forall j, n :: 0 <= j < |pieces| ==> Loc(env.digest(pieces[j]), n) !in w.locs
  }

  /**
   * Load balance of an upload whose chunks are stored nowhere yet, on nodes that have room for the
   * chunk in every round that places one: for any sequence of chunks, repeats included, no node ever
   * gets two copies ahead of another.
   */
  lemma {:induction false} UploadBalances(env: Env, w: World, pieces: seq<Bytes>, replication: int)
    requires RoomThroughout(env, StartUpload(w), pieces, 0, replication) && Unstored(env, w, pieces)
    ensures BalancedThroughout(env, StartUpload(w), pieces, 0, replication, OnlineNodes(w))
  {
    LoopBalances(env, StartUpload(w), pieces, 0, replication);
  }

  /** Room for the whole stream is more than enough. */
  lemma {:induction false} RoomForAllIsEnough(env: Env, u: Upload, pieces: seq<Bytes>, i: nat, replication: int)
    requires i <= |pieces| && Room(u.w, BytesFrom(pieces, i))
    ensures RoomThroughout(env, u, pieces, i, replication)
    decreases |pieces| - i
  {
    if i < |pieces| {
      var h := env.digest(pieces[i]);
      PlacementRoom(env, Tallied(u, h, |pieces[i]|), h, pieces[i], replication, BytesFrom(pieces, i + 1));
      RoomForAllIsEnough(env, BackupChunk(env, u, pieces[i], replication).0, pieces, i + 1, replication);
    }
  }
}
