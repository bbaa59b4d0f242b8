/** Downloads: never wrong bytes from lying nodes, and the whole file from one honest holder per chunk. */
module Downloads {
  import opened Invariants
  import opened Model
  import opened Operations
  import opened Scheduler
  import opened Types
  import opened Uploads

  /** The manifest entries of these pieces, in order. */
  ghost predicate ListsPieces(env: Env, refs: seq<ChunkRef>, pieces: seq<Bytes>) {
    |refs| == |pieces| && forall j :: 0 <= j < |refs| ==> refs[j] == RefOf(env, pieces[j])
  }

  lemma FlattenSnoc(pieces: seq<Bytes>, i: nat)
    requires i < |pieces|
    ensures Flatten(pieces[..i + 1]) == Flatten(pieces[..i]) + pieces[i]
  {
    assert pieces[..i + 1] == pieces[..i] + [pieces[i]];
    FlattenAppend(pieces[..i], [pieces[i]]);
    FlattenOne(pieces[i]);
  }

  // ---- Fetching ------------------------------------------------------------------------

  /** What the node answers to the call with this number. */
  function Answer(env: Env, w: World, call: nat, n: NodeId, h: Hash): Option<Bytes> {
    match env.replies(call, n)
    case Obey => if Holds(w, n, h) then Some(StoreOf(w, n).chunks[h]) else None
    case Forge(body) => Some(body)
    case _ => None
  }

  /** Nodes are asked in turn up to the first that answers, whose body is returned. */
  ghost predicate FirstAnswer(env: Env, w: World, nodes: seq<NodeId>, i: nat, h: Hash, w': World, body: Option<Bytes>)
    requires i <= |nodes|
  {
    || (body == None && w'.calls == w.calls + (|nodes| - i)
        && forall j :: i <= j < |nodes| ==> Answer(env, w, w.calls + (j - i), nodes[j], h) == None)
    || exists k :: i <= k < |nodes| && body.Some? && w'.calls == w.calls + (k - i) + 1
                && Answer(env, w, w.calls + (k - i), nodes[k], h) == body
                && forall j :: i <= j < k ==> Answer(env, w, w.calls + (j - i), nodes[j], h) == None
  }

  lemma LaterAnswer(env: Env, w: World, nodes: seq<NodeId>, i: nat, h: Hash, w': World, body: Option<Bytes>)
    requires i < |nodes| && Answer(env, w, w.calls, nodes[i], h) == None
    requires FirstAnswer(env, Called(w), nodes, i + 1, h, w', body)
    ensures FirstAnswer(env, w, nodes, i, h, w', body)
  {
    var w1 := Called(w);
    forall c: nat, n ensures Answer(env, w1, c, n, h) == Answer(env, w, c, n, h) {
      assert StoreOf(w1, n) == StoreOf(w, n);
    }
  }

  lemma {:induction false} FetchIsFirst(env: Env, w: World, nodes: seq<NodeId>, i: nat, h: Hash)
    requires i <= |nodes|
    ensures var (w', body) := FetchFromAny(env, w, nodes, i, h);
            OnlyCalls(w, w') && FirstAnswer(env, w, nodes, i, h, w', body)
    decreases |nodes| - i
  {
    FetchOnlyCalls(env, w, nodes, i, h);
    if i < |nodes| {
      var (w1, body) := GetCall(env, w, nodes[i], h);
      assert body == Answer(env, w, w.calls + (i - i), nodes[i], h);
      if body.None? {
        var r := FetchFromAny(env, w1, nodes, i + 1, h);
        FetchIsFirst(env, w1, nodes, i + 1, h);
        LaterAnswer(env, w, nodes, i, h, r.0, r.1);
      }
    }
  }

  // ---- How a download ends -------------------------------------------------------------

  lemma OnlyCallsTrans(a: World, b: World, c: World)
    requires OnlyCalls(a, b) && OnlyCalls(b, c)
    ensures OnlyCalls(a, c)
  {
  }

  /** What stopped the download at a chunk, and what had been written: all before, or all the client takes. */
  ghost predicate Stops(env: Env, v: World, h: Hash, before: Bytes, through: Bytes, accepts: nat, out: Bytes,
                        result: DownloadResult)
  {
    match FetchFromAny(env, v, ChunkLocations(v, h), 0, h).1
    case None => result == FetchFailed && out == before
    case Some(data) =>
      if env.digest(data) != h then result == HashMismatch && out == before
      else result == WriteFailed && |through| > accepts && out == through[..accepts]
  }

  /** The download wrote k pieces, the clusters until then being w and v, and then ended. */
  ghost predicate Ends(env: Env, w: World, v: World, pieces: seq<Bytes>, k: nat, accepts: nat, out: Bytes,
                       result: DownloadResult)
  {
    && OnlyCalls(w, v) && k <= |pieces| && |out| <= accepts
    && if k == |pieces| then result == Complete && out == Flatten(pieces)
       else Stops(env, v, env.digest(pieces[k]), Flatten(pieces[..k]), Flatten(pieces[..k + 1]), accepts, out, result)
  }

  lemma TakenCuts(before: Bytes, data: Bytes, accepts: nat)
    requires |before| <= accepts < |before| + |data|
    ensures before + Taken(before, data, accepts) == (before + data)[..accepts]
  {
  }

  lemma {:induction false} DownloadFromEnds(env: Env, w: World, refs: seq<ChunkRef>, pieces: seq<Bytes>, i: nat,
                                            accepts: nat)
    returns (k: nat, v: World)
    requires Injective(env) && ListsPieces(env, refs, pieces) && i <= |refs| && |Flatten(pieces[..i])| <= accepts
    ensures var (_, out, result) := DownloadFrom(env, w, refs, i, Flatten(pieces[..i]), accepts);
            Ends(env, w, v, pieces, k, accepts, out, result)
    decreases |refs| - i
  {
    k, v := i, w;
    if i == |refs| {
      assert pieces[..i] == pieces;
    } else {
      var (w1, body) := FetchFromAny(env, w, ChunkLocations(w, refs[i].hash), 0, refs[i].hash);
      FetchOnlyCalls(env, w, ChunkLocations(w, refs[i].hash), 0, refs[i].hash);
      if body.Some? && env.digest(body.value) == refs[i].hash {
        assert body.value == pieces[i];
        FlattenSnoc(pieces, i);
        if |Flatten(pieces[..i])| + |body.value| <= accepts {
          k, v := DownloadFromEnds(env, w1, refs, pieces, i + 1, accepts);
          OnlyCallsTrans(w, w1, v);
        } else {
          TakenCuts(Flatten(pieces[..i]), pieces[i], accepts);
        }
      }
    }
  }

  /**
   * How a download ends, whatever the nodes answer: a file that is not listed is not found; otherwise
   * some number of pieces is written, and then either that was all of them, or nobody delivered the
   * next one, or its digest was wrong, or the client took no more, having got all it takes.
   */
  lemma {:induction false} DownloadEnds(env: Env, w: World, id: FileId, pieces: seq<Bytes>, accepts: nat)
    requires Injective(env) && (id in w.files ==> ListsPieces(env, w.files[id].chunks, pieces))
    ensures var (w', out, result) := DownloadFile(env, w, id, accepts);
            if id !in w.files then result == NotFound && out == [] && w' == w
            else exists k: nat, v :: Ends(env, w, v, pieces, k, accepts, out, result)
  {
    if id in w.files {
      assert pieces[..0] == [];
      var k, v := DownloadFromEnds(env, w, w.files[id].chunks, pieces, 0, accepts);
      var (_, out, result) := DownloadFile(env, w, id, accepts);
      assert Ends(env, w, v, pieces, k, accepts, out, result);
    }
  }

  lemma {:induction false} EndsInPrefix(env: Env, w: World, v: World, pieces: seq<Bytes>, k: nat, accepts: nat,
                                        out: Bytes, result: DownloadResult)
    requires Ends(env, w, v, pieces, k, accepts, out, result)
    ensures out <= Flatten(pieces) && (result != WriteFailed ==> out == Flatten(pieces[..k]))
    ensures result == Complete <==> k == |pieces|
    ensures result == WriteFailed ==> out == Flatten(pieces)[..accepts] && |Flatten(pieces)| > accepts
    ensures result != Complete && (forall p :: p in pieces ==> p != []) ==> |out| < |Flatten(pieces)|
  {
    FlattenPrefix(pieces[..k], pieces);
    if k < |pieces| {
      FlattenPrefix(pieces[..k + 1], pieces);
      FlattenSnoc(pieces, k);
      assert pieces[k] in pieces;
    } else {
      assert pieces[..k] == pieces;
    }
  }

  /**
   * Download soundness: whatever the nodes answer, the bytes written are a prefix of the upload, cut
   * between chunks, or exactly as long as what the client takes if a write failed, and all of them
   * exactly if the loop ends without an error.
   */
  lemma {:induction false} DownloadSound(env: Env, w: World, id: FileId, pieces: seq<Bytes>, accepts: nat)
    requires Injective(env) && id in w.files && ListsPieces(env, w.files[id].chunks, pieces)
    ensures var (_, out, result) := DownloadFile(env, w, id, accepts);
            && out <= Flatten(pieces)
            && (result != WriteFailed ==> exists k: nat :: k <= |pieces| && out == Flatten(pieces[..k]))
            && (result == WriteFailed ==> |Flatten(pieces)| > accepts && out == Flatten(pieces)[..accepts])
            && (result == Complete ==> out == Flatten(pieces))
            && (result != Complete && (forall p :: p in pieces ==> p != []) ==> |out| < |Flatten(pieces)|)
  {
    DownloadEnds(env, w, id, pieces, accepts);
    var (_, out, result) := DownloadFile(env, w, id, accepts);
    var k: nat, v :| Ends(env, w, v, pieces, k, accepts, out, result);
    EndsInPrefix(env, w, v, pieces, k, accepts, out, result);
  }

  // ---- Completeness --------------------------------------------------------------------

  /** From call number calls on the nodes in r answer honestly, and no other makes up an answer. */
  ghost predicate Responders(env: Env, calls: nat, r: set<NodeId>) {
    forall c, n :: c >= calls ==> if n in r then env.replies(c, n) == Obey else !env.replies(c, n).Forge?
  }

  /** A chunk can be fetched: it is recorded on a node that answers. */
  ghost predicate Reachable(w: World, h: Hash, r: set<NodeId>) {
    exists n :: n in r && n in w.nodes && Loc(h, n) in w.locs
  }

  lemma {:induction false} FetchFindsResponder(env: Env, w: World, nodes: seq<NodeId>, i: nat, h: Hash, r: set<NodeId>)
    requires i <= |nodes| && Responders(env, w.calls, r) && Sound(env, w)
    requires forall j :: i <= j < |nodes| ==> Holds(w, nodes[j], h)
    requires exists j :: i <= j < |nodes| && nodes[j] in r
    ensures var (w', body) := FetchFromAny(env, w, nodes, i, h);
            body.Some? && env.digest(body.value) == h
    decreases |nodes| - i
  {
    if nodes[i] !in r && env.replies(w.calls, nodes[i]) != Obey {
      var w1 := Called(w);
      assert forall n :: StoreOf(w1, n) == StoreOf(w, n);
      FetchFindsResponder(env, w1, nodes, i + 1, h, r);
    }
  }

  lemma {:induction false} ReachableFetch(env: Env, w: World, h: Hash, r: set<NodeId>)
    requires Responders(env, w.calls, r) && Sound(env, w) && Grounded(w) && Reachable(w, h, r)
    ensures var (w', body) := FetchFromAny(env, w, ChunkLocations(w, h), 0, h);
            body.Some? && env.digest(body.value) == h
  {
    var nodes := ChunkLocations(w, h);
    var n :| n in r && n in w.nodes && Loc(h, n) in w.locs;
    assert n in nodes;
    forall j | 0 <= j < |nodes| ensures Holds(w, nodes[j], h) {
      assert nodes[j] in nodes;
      assert Loc(h, nodes[j]) in w.locs;
    }
    FetchFindsResponder(env, w, nodes, 0, h, r);
  }

  /** Fetching the i-th chunk delivers the i-th piece and leaves everything as it was. */
  lemma {:induction false} FetchedPiece(env: Env, w: World, refs: seq<ChunkRef>, pieces: seq<Bytes>, i: nat,
                                        r: set<NodeId>)
    requires Injective(env) && ListsPieces(env, refs, pieces) && i < |refs|
    requires Responders(env, w.calls, r) && Sound(env, w) && Grounded(w) && Reachable(w, refs[i].hash, r)
    ensures var (w1, body) := FetchFromAny(env, w, ChunkLocations(w, refs[i].hash), 0, refs[i].hash);
            && body == Some(pieces[i]) && OnlyCalls(w, w1)
            && Responders(env, w1.calls, r) && Sound(env, w1) && Grounded(w1)
  {
    var h := refs[i].hash;
    var w1 := FetchFromAny(env, w, ChunkLocations(w, h), 0, h).0;
    ReachableFetch(env, w, h, r);
    FetchOnlyCalls(env, w, ChunkLocations(w, h), 0, h);
    assert forall n :: StoreOf(w1, n) == StoreOf(w, n);
  }

  lemma {:induction false} DownloadCompletes(env: Env, w: World, refs: seq<ChunkRef>, pieces: seq<Bytes>, i: nat,
                                             out: Bytes, accepts: nat, r: set<NodeId>)
    requires Injective(env) && ListsPieces(env, refs, pieces) && i <= |refs| && |Flatten(pieces)| <= accepts
    requires Responders(env, w.calls, r) && Sound(env, w) && Grounded(w)
    requires out == Flatten(pieces[..i]) && forall j :: i <= j < |refs| ==> Reachable(w, refs[j].hash, r)
    ensures DownloadFrom(env, w, refs, i, out, accepts).2 == Complete
    decreases |refs| - i
  {
    if i < |refs| {
      var w1 := FetchFromAny(env, w, ChunkLocations(w, refs[i].hash), 0, refs[i].hash).0;
      FetchedPiece(env, w, refs, pieces, i, r);
      FlattenSnoc(pieces, i);
      FlattenPrefix(pieces[..i + 1], pieces);
      assert |out| + |pieces[i]| <= accepts;
      DownloadCompletes(env, w1, refs, pieces, i + 1, out + pieces[i], accepts, r);
    }
  }

  /** With one answering holder per chunk and a client that takes all of it, the download is exact. */
  lemma {:induction false} DownloadExact(env: Env, w: World, id: FileId, pieces: seq<Bytes>, accepts: nat,
                                         r: set<NodeId>)
    requires Injective(env) && Sound(env, w) && Grounded(w)
    requires id in w.files && ListsPieces(env, w.files[id].chunks, pieces) && accepts >= |Flatten(pieces)|
    requires Responders(env, w.calls, r)
    requires forall j :: 0 <= j < |pieces| ==> Reachable(w, env.digest(pieces[j]), r)
    ensures var (_, out, result) := DownloadFile(env, w, id, accepts);
            result == Complete && out == Flatten(pieces)
  {
    assert pieces[..0] == [];
    DownloadCompletes(env, w, w.files[id].chunks, pieces, 0, [], accepts, r);
    DownloadSound(env, w, id, pieces, accepts);
  }
}
