/**
 * How much room an upload needs for an even spread: on each node only the share of the copies that
 * the even spread itself gives it.
 */
module LoadShare {
  import opened Invariants
  import opened Model
  import opened Operations
  import opened Ordering
  import opened Placement
  import opened Scheduler
  import opened Sums
  import opened Types
  import opened Uploads

  // ---- Totals of counts ----------------------------------------------------------------

  ghost function CountsOn(counts: map<NodeId, nat>, s: set<NodeId>): map<NodeId, nat> {
    map x | x in s :: Count(counts, x)
  }

  lemma QuotientBound(n: nat, c: nat, k: nat)
    requires n > 0 && n * c <= k
    ensures c <= k / n
  {
    var q, d := k / n, c - k / n - 1;
    assert k == q * n + k % n;
    assert n * c == q * n + n + n * d;
    assert d >= 0 ==> n * d >= 0;
  }

  /** With an even spread no node is more than one copy above the average. */
  lemma AboveAverage(counts: map<NodeId, nat>, s: set<NodeId>, x: NodeId, copies: nat)
    requires Balanced(counts, s) && x in s && Total(CountsOn(counts, s)) <= copies
    ensures s != {} && Count(counts, x) <= copies / |s| + 1
  {
    assert |s| > 0;
    if Count(counts, x) > 0 {
      TotalOfSpread(counts, s, Count(counts, x) - 1);
      QuotientBound(|s|, Count(counts, x) - 1, copies);
    }
  }

  lemma TotalOfSpread(counts: map<NodeId, nat>, s: set<NodeId>, low: nat)
    requires forall y :: y in s ==> Count(counts, y) >= low
    ensures Total(CountsOn(counts, s)) >= |s| * low
  {
    CountsSize(counts, s);
    TotalAtLeast(CountsOn(counts, s), low);
  }

  lemma CountsSize(counts: map<NodeId, nat>, s: set<NodeId>)
    ensures |CountsOn(counts, s)| == |s|
  {
    assert CountsOn(counts, s).Keys == s;
    assert |CountsOn(counts, s)| == |CountsOn(counts, s).Keys|;
  }

  // ---- One round -----------------------------------------------------------------------

  /** At most replication copies were given for each chunk seen, and each took at most size bytes. */
  ghost predicate Given(w0: World, u: Upload, replication: int, size: nat) {
    && OnlineNodes(u.w) == OnlineNodes(w0)
    && (forall x :: x in OnlineNodes(w0) ==> u.w.nodes[x].free + Count(u.counts, x) * size >= w0.nodes[x].free)
    && Total(CountsOn(u.counts, OnlineNodes(w0))) <= Copies(replication, |u.seen|)
  }

  function Copies(replication: int, chunks: nat): nat {
    if replication <= 0 then 0 else replication * chunks
  }

  lemma CopiesMonotone(replication: int, a: nat, b: nat)
    requires a <= b
    ensures Copies(replication, a) <= Copies(replication, b)
  {
    if replication > 0 { assert replication * (b - a) >= 0; }
  }

  lemma GivenAlready(env: Env, w0: World, u: Upload, data: Bytes, replication: int, size: nat)
    requires Given(w0, u, replication, size) && MissingCopies(u.w, env.digest(data), replication) <= 0
    ensures Given(w0, BackupChunk(env, u, data, replication).0, replication, size)
  {
    SubsetSize(u.seen, u.seen + {env.digest(data)});
    CopiesMonotone(replication, |u.seen|, |u.seen + {env.digest(data)}|);
  }

  /** The nodes that a round with missing copies gives one to. */
  ghost function Chosen(env: Env, u: Upload, data: Bytes, replication: int): seq<NodeId> {
    var h := env.digest(data);
    PlanChunkSpread(u.w, h, |data|, MissingCopies(u.w, h, replication), u.counts)
  }

  lemma RoundPlaces(env: Env, u: Upload, data: Bytes, replication: int)
    requires MissingCopies(u.w, env.digest(data), replication) > 0 && BackupChunk(env, u, data, replication).1
    ensures var u', nodes := BackupChunk(env, u, data, replication).0, Chosen(env, u, data, replication);
            && NoDuplicates(nodes) && |nodes| <= replication && Elements(nodes) <= OnlineNodes(u.w)
            && FreeKept(u.w, u'.w, Elements(nodes), |data|)
            && (forall x :: Count(u'.counts, x) == Count(u.counts, x) + if x in nodes then 1 else 0)
            && u'.seen == u.seen + {env.digest(data)}
  {
    var h, nodes := env.digest(data), Chosen(env, u, data, replication);
    PlanOrdered(u.w, h, |data|, MissingCopies(u.w, h, replication), u.counts);
    PlanIsEligible(u.w, h, |data|, MissingCopies(u.w, h, replication), u.counts);
    PlaceFree(env, u.w, u.counts, nodes, 0, h, data);
    PlaceAllCounts(env, u.w, u.counts, nodes, h, data);
    assert nodes[0..] == nodes;
  }

  lemma FreeAfterRound(u: Upload, u': Upload, nodes: seq<NodeId>, taken: nat, size: nat, x: NodeId, before: int)
    requires FreeKept(u.w, u'.w, Elements(nodes), taken) && taken <= size && x in OnlineNodes(u.w)
    requires Count(u'.counts, x) == Count(u.counts, x) + if x in nodes then 1 else 0
    requires u.w.nodes[x].free + Count(u.counts, x) * size >= before
    ensures x in u'.w.nodes && u'.w.nodes[x].free + Count(u'.counts, x) * size >= before
  {
    OneMoreTimes(Count(u.counts, x), size);
    assert x in OnlineNodes(u'.w);
  }

  lemma CountsAfterRound(u: Upload, u': Upload, nodes: seq<NodeId>, s: set<NodeId>)
    requires NoDuplicates(nodes) && Elements(nodes) <= s
    requires forall x :: Count(u'.counts, x) == Count(u.counts, x) + if x in nodes then 1 else 0
    ensures Total(CountsOn(u'.counts, s)) == Total(CountsOn(u.counts, s)) + |nodes|
  {
    TotalPlusOnes(CountsOn(u.counts, s), CountsOn(u'.counts, s), Elements(nodes));
    SizeOfElements(nodes);
  }

  lemma CopiesMore(replication: int, seen: set<Hash>, h: Hash)
    requires replication > 0 && h !in seen
    ensures Copies(replication, |seen + {h}|) == Copies(replication, |seen|) + replication
  {
    assert |seen + {h}| == |seen| + 1;
    OneMoreTimes(|seen|, replication);
  }

  lemma GivenNow(env: Env, w0: World, u: Upload, data: Bytes, replication: int, size: nat)
    requires Given(w0, u, replication, size) && |data| <= size && env.digest(data) !in u.seen
    requires MissingCopies(u.w, env.digest(data), replication) > 0 && BackupChunk(env, u, data, replication).1
    ensures Given(w0, BackupChunk(env, u, data, replication).0, replication, size)
  {
    var u', nodes, s := BackupChunk(env, u, data, replication).0, Chosen(env, u, data, replication), OnlineNodes(w0);
    RoundPlaces(env, u, data, replication);
    RoundGiven(w0, u, u', nodes, |data|, env.digest(data), replication, size);
  }

  lemma RoundGiven(w0: World, u: Upload, u': Upload, nodes: seq<NodeId>, taken: nat, h: Hash, replication: int,
                   size: nat)
    requires Given(w0, u, replication, size) && taken <= size && h !in u.seen && u'.seen == u.seen + {h}
    requires NoDuplicates(nodes) && 0 < replication && |nodes| <= replication && Elements(nodes) <= OnlineNodes(w0)
    requires FreeKept(u.w, u'.w, Elements(nodes), taken)
    requires forall x :: Count(u'.counts, x) == Count(u.counts, x) + if x in nodes then 1 else 0
    ensures Given(w0, u', replication, size)
  {
    var s := OnlineNodes(w0);
    forall x | x in s ensures u'.w.nodes[x].free + Count(u'.counts, x) * size >= w0.nodes[x].free {
      FreeAfterRound(u, u', nodes, taken, size, x, w0.nodes[x].free);
    }
    CountsAfterRound(u, u', nodes, s);
    CopiesMore(replication, u.seen, h);
  }

  // ---- The whole upload ----------------------------------------------------------------

  /** What an even spread of the copies gives to one of n nodes at most, and one for the current round. */
  function Share(copies: nat, n: nat): nat {
    if n == 0 then 0 else copies / n + 2
  }

  ghost predicate SharesFit(env: Env, w: World, pieces: seq<Bytes>, replication: int, size: nat) {
    && (forall j :: 0 <= j < |pieces| ==> |pieces[j]| <= size)
    && Room(w, Share(Copies(replication, |DigestsOf(env, pieces, |pieces|)|), |OnlineNodes(w)|) * size)
  }

  lemma ShareLeavesRoom(free: int, before: int, c: nat, share: nat, size: nat)
    requires before >= share * size && free + c * size >= before && c + 1 <= share
    ensures free >= size
  {
    var d := share - c - 1;
    assert share * size == c * size + size + d * size;
    assert d * size >= 0;
  }

  lemma RoundHasRoom(env: Env, w0: World, u: Upload, pieces: seq<Bytes>, i: nat, replication: int, size: nat)
    requires i < |pieces| && SharesFit(env, w0, pieces, replication, size)
    requires Given(w0, u, replication, size) && Balanced(u.counts, OnlineNodes(w0))
    requires u.seen <= DigestsOf(env, pieces, |pieces|)
    ensures Room(u.w, |pieces[i]|)
  {
    var s, all := OnlineNodes(w0), DigestsOf(env, pieces, |pieces|);
    var copies := Copies(replication, |all|);
    SubsetSize(u.seen, all);
    CopiesMonotone(replication, |u.seen|, |all|);
    forall x | x in s ensures u.w.nodes[x].free >= |pieces[i]| {
      AboveAverage(u.counts, s, x, copies);
      ShareLeavesRoom(u.w.nodes[x].free, w0.nodes[x].free, Count(u.counts, x), Share(copies, |s|), size);
    }
  }

  /** A chunk seen before has its copies, so a round that places copies is about a new one. */
  lemma PlacesOnlyNew(env: Env, u: Upload, pieces: seq<Bytes>, i: nat, replication: int)
    requires i < |pieces| && FreshOrDone(env, u, pieces, replication)
    requires MissingCopies(u.w, env.digest(pieces[i]), replication) > 0
    ensures env.digest(pieces[i]) !in u.seen
  {
    ExistingAreActive(u.w, env.digest(pieces[i]));
  }

  lemma RoundGives(env: Env, w0: World, u: Upload, pieces: seq<Bytes>, i: nat, replication: int, size: nat)
    requires i < |pieces| && |pieces[i]| <= size && FreshOrDone(env, u, pieces, replication)
    requires Given(w0, u, replication, size) && BackupChunk(env, u, pieces[i], replication).1
    ensures var u' := BackupChunk(env, u, pieces[i], replication).0;
            Given(w0, u', replication, size) && u'.seen == u.seen + {env.digest(pieces[i])}
  {
    if MissingCopies(u.w, env.digest(pieces[i]), replication) > 0 {
      PlacesOnlyNew(env, u, pieces, i, replication);
      GivenNow(env, w0, u, pieces[i], replication, size);
    } else {
      GivenAlready(env, w0, u, pieces[i], replication, size);
    }
  }

  /** Where an even spread stands before round i. */
  ghost predicate Even(env: Env, w0: World, u: Upload, pieces: seq<Bytes>, i: nat, replication: int, size: nat)
    requires i <= |pieces|
  {
    && Given(w0, u, replication, size) && Balanced(u.counts, OnlineNodes(w0))
    && FreshOrDone(env, u, pieces, replication) && u.seen == DigestsOf(env, pieces, i)
  }

  lemma EvenHasRoom(env: Env, w0: World, u: Upload, pieces: seq<Bytes>, i: nat, replication: int, size: nat)
    requires i < |pieces| && SharesFit(env, w0, pieces, replication, size)
    requires Even(env, w0, u, pieces, i, replication, size)
    ensures RoomInRound(env, u, pieces[i], replication)
  {
    RoundHasRoom(env, w0, u, pieces, i, replication, size);
  }

  lemma EvenStep(env: Env, w0: World, u: Upload, pieces: seq<Bytes>, i: nat, replication: int, size: nat)
    requires i < |pieces| && |pieces[i]| <= size && RoomInRound(env, u, pieces[i], replication)
    requires Even(env, w0, u, pieces, i, replication, size) && BackupChunk(env, u, pieces[i], replication).1
    ensures Even(env, w0, BackupChunk(env, u, pieces[i], replication).0, pieces, i + 1, replication, size)
  {
    RoundBalances(env, u, pieces, i, replication);
    ChunkKeepsFreshOrDone(env, u, pieces, i, replication);
    RoundGives(env, w0, u, pieces, i, replication, size);
    assert DigestsOf(env, pieces, i + 1) == DigestsOf(env, pieces, i) + {env.digest(pieces[i])};
  }

  lemma {:induction false} SharesSuffice(env: Env, w0: World, u: Upload, pieces: seq<Bytes>, i: nat, replication: int,
                                         size: nat)
    requires i <= |pieces| && SharesFit(env, w0, pieces, replication, size)
    requires Even(env, w0, u, pieces, i, replication, size)
    ensures RoomThroughout(env, u, pieces, i, replication)
    decreases |pieces| - i
  {
    if i < |pieces| {
      EvenHasRoom(env, w0, u, pieces, i, replication, size);
      if BackupChunk(env, u, pieces[i], replication).1 {
        EvenStep(env, w0, u, pieces, i, replication, size);
        SharesSuffice(env, w0, BackupChunk(env, u, pieces[i], replication).0, pieces, i + 1, replication, size);
      }
    }
  }

  lemma NothingGiven(w: World, replication: int, size: nat)
    ensures Given(w, StartUpload(w), replication, size)
  {
    ZeroTotal(CountsOn(map[], OnlineNodes(w)));
  }

  /**
   * An upload of distinct chunks of at most size bytes spreads evenly over n online nodes as soon as
   * each has room for copies / n + 2 chunks, copies being replication times the distinct chunks.
   */
  lemma {:induction false} ShareBalances(env: Env, w: World, pieces: seq<Bytes>, replication: int, size: nat)
    requires SharesFit(env, w, pieces, replication, size) && Unstored(env, w, pieces)
    ensures BalancedThroughout(env, StartUpload(w), pieces, 0, replication, OnlineNodes(w))
  {
    NothingGiven(w, replication, size);
    assert DigestsOf(env, pieces, 0) == {};
    SharesSuffice(env, w, StartUpload(w), pieces, 0, replication, size);
    UploadBalances(env, w, pieces, replication);
  }
}
