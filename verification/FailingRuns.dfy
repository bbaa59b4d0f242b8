/** What becomes of the invariants when an answer is lost: a deletion in the prune loop, and a whole purge. */
module FailingRuns {
  import C = Chunker
  import opened Invariants
  import opened Model
  import opened Operations
  import opened Ordering
  import opened Queries
  import opened Runs
  import opened Types

  // ---- Deletions without an answer -----------------------------------------------------

  /** A recorded copy goes from the disk but not from the table exactly if its deletion is not answered. */
  lemma DiscardGroundedIff(env: Env, w: World, n: NodeId, h: Hash)
    requires Grounded(w)
    ensures Grounded(Discard(env, w, n, h).0) <==> !(env.deletes(w.calls, n) == Unanswered && Loc(h, n) in w.locs)
  {
    var w' := Discard(env, w, n, h).0;
    DiscardEffect(env, w, n, h);
    if env.deletes(w.calls, n) == Unanswered && Loc(h, n) in w.locs {
      assert !Holds(w', n, h) && Loc(h, n) in w'.locs;
      assert !(Holds(w', Loc(h, n).node, Loc(h, n).hash));
    } else {
      forall k | k in w'.locs ensures k.node in w'.nodes && Holds(w', k.node, k.hash) {
        assert k in w.locs && (k.node == n && k.hash == h ==> k == Loc(h, n));
      }
    }
  }

  /** A prune task with two holders of a chunk that should have one copy. */
  ghost predicate OneTooMany(w: World, t: PruneTask, a: NodeId, b: NodeId) {
    && t.locations == [a, b] && a != b && t.desired == 1 && t.active == 2 && t.extra == 1
    && Loc(t.hash, a) in w.locs && Loc(t.hash, b) in w.locs
  }

  lemma PruneBoth(env: Env, w: World, t: PruneTask, a: NodeId, b: NodeId)
    requires OneTooMany(w, t, a, b)
    requires env.deletes(w.calls, a) == Unanswered && env.deletes(w.calls + 1, b) == Deleted
    ensures Prune(env, w, t) == Discard(env, Discard(env, w, a, t.hash).0, b, t.hash).0
  {
    var w1 := Discard(env, w, a, t.hash).0;
    var w2 := Discard(env, w1, b, t.hash).0;
    DiscardEffect(env, w, a, t.hash);
    DiscardEffect(env, w1, b, t.hash);
    assert PruneFrom(env, w, t, 0, 0) == PruneFrom(env, w1, t, 1, 0);
    assert PruneFrom(env, w2, t, 2, 1) == w2;
    assert PruneFrom(env, w1, t, 1, 0) == PruneFrom(env, w2, t, 2, 1);
  }

  /**
   * If the first deletion of a prune loop takes effect without an answer, the loop deletes the other
   * copy too: the tables still name one holder, but neither node holds the chunk.
   */
  lemma LostDeletionLosesChunk(env: Env, w: World, t: PruneTask, a: NodeId, b: NodeId)
    requires OneTooMany(w, t, a, b)
    requires env.deletes(w.calls, a) == Unanswered && env.deletes(w.calls + 1, b) == Deleted
    ensures var w' := Prune(env, w, t);
            && w'.files == w.files && Loc(t.hash, a) in w'.locs && Loc(t.hash, b) !in w'.locs
            && !Holds(w', a, t.hash) && !Holds(w', b, t.hash)
  {
    var w1 := Discard(env, w, a, t.hash).0;
    PruneBoth(env, w, t, a, b);
    DiscardEffect(env, w, a, t.hash);
    DiscardEffect(env, w1, b, t.hash);
  }

  // ---- A purge without an answer -------------------------------------------------------

  const STREAM: Bytes := [7]
  const REQUEST: UploadRequest := UploadRequest(1, 1, 524288, 1, 0, STREAM, false)

  /** One node with room for a byte, which stores what it is sent and then loses one answer. */
  ghost predicate OneNode(env: Env) {
    && C.ValidGear(env.gear) && env.capacity(1) >= 1
    && env.replies(0, 1) == Obey && env.replies(1, 1) == LoseReply
  }

  ghost function Registered(env: Env): World {
    RegisterNode(EMPTY_WORLD, 1, env.capacity(1), env.capacity(1))
  }

  lemma OnlyNodeIsPlanned(env: Env, h: Hash)
    requires OneNode(env)
    ensures MissingCopies(Registered(env), h, 1) == 1
    ensures PlanChunkSpread(Registered(env), h, 1, 1, map[]) == [1]
  {
    var w := Registered(env);
    assert forall n :: n !in ChunkLocations(w, h);
    assert ChunkLocations(w, h) == [];
    assert Eligible(w, h, 1) == {1};
    var all := Enumerate(Eligible(w, h, 1), PlanOrder(w, map[]));
    assert |all| == 1 && all[0] in all;
  }

  lemma OnlyCopy(env: Env)
    requires OneNode(env)
    ensures var (w, ok) := CopyTo(env, Registered(env), 1, env.digest(STREAM), STREAM, 1);
            ok && 1 in w.nodes && w.calls == 1 && w.files == map[] && w.locs == map[Loc(env.digest(STREAM), 1) := 1]
  {
  }

  lemma {:induction false} OnlyChunk(env: Env)
    requires OneNode(env)
    ensures var (u, ok) := BackupFrom(env, StartUpload(Registered(env)), [STREAM], 0, 1);
            && ok && 1 in u.w.nodes && u.w.calls == 1 && u.w.files == map[]
            && u.w.locs == map[Loc(env.digest(STREAM), 1) := 1]
  {
    var h, u0 := env.digest(STREAM), StartUpload(Registered(env));
    var v := Tallied(u0, h, 1);
    OnlyNodeIsPlanned(env, h);
    OnlyCopy(env);
    var (w1, ok) := CopyTo(env, Registered(env), 1, h, STREAM, 1);
    assert PlaceFrom(env, Registered(env), map[], [1], 0, h, STREAM)
        == PlaceFrom(env, w1, map[1 := 1], [1], 1, h, STREAM);
    assert PlaceChunk(env, v, h, STREAM, 1).1;
    var u1 := BackupChunk(env, u0, STREAM, 1).0;
    assert BackupFrom(env, u1, [STREAM], 1, 1) == (u1, true);
  }

  lemma NothingToDelete(env: Env, w: World, req: FileRequest)
    requires w.files == map[] && req.retention == 0
    ensures var w' := FinishUpload(env, w, 1, req).0;
            w'.locs == w.locs && w'.nodes == w.nodes && w'.calls == w.calls
  {
    var w1 := CreateFile(w, 1, req).0;
    assert DeleteUnusedChunks(env, w1, []).0 == w1;
  }

  lemma OnlyUpload(env: Env)
    requires OneNode(env)
    ensures var w := BackupFile(env, Registered(env), 1, REQUEST).0;
            1 in w.nodes && w.calls == 1 && w.locs == map[Loc(env.digest(STREAM), 1) := 1]
  {
    C.WindowIsFull(env.gear, 524288);
    C.ShortStreamIsOneChunk(C.CutterFor(env.gear, 524288), STREAM);
    OnlyChunk(env);
    var u := BackupFrom(env, StartUpload(Registered(env)), [STREAM], 0, 1).0;
    NothingToDelete(env, u.w, RequestFor(REQUEST, u));
  }

  lemma TakesRecorded(env: Env, w: World, k: Loc)
    requires k in w.locs && k.node in w.nodes && env.replies(w.calls, k.node) == LoseReply
    ensures !Harmless(env, w, Remove(k.node, true))
  {
  }

  /** The tables promise more space on the node than it has. */
  ghost predicate Overcommitted(env: Env, w: World, n: NodeId) {
    n in w.nodes && w.nodes[n].free + Recorded(w, n) > w.nodes[n].capacity == env.capacity(n)
  }

  lemma PurgeAfterUpload(env: Env, w2: World)
    requires OneNode(env) && w2 == BackupFile(env, Registered(env), 1, REQUEST).0
    ensures !Harmless(env, w2, Remove(1, true))
    ensures Overcommitted(env, Apply(env, Apply(env, w2, Remove(1, true)), Heartbeat(1)), 1)
  {
    var k := Loc(env.digest(STREAM), 1);
    OnlyUpload(env);
    LostPurgeBreaksSpace(env, w2, k);
    TakesRecorded(env, w2, k);
  }

  lemma {:induction false} ThreeSteps(env: Env, w: World, steps: seq<Step>, w3: World)
    requires C.ValidGear(env.gear) && |steps| == 4
    requires Apply(env, Apply(env, Apply(env, w, steps[0]), steps[1]), steps[2]) == w3
    ensures Run(env, w, steps, 0) == Apply(env, w3, steps[3])
  {
    var w1 := Apply(env, w, steps[0]);
    var w2 := Apply(env, w1, steps[1]);
    assert Run(env, w, steps, 0) == Run(env, w1, steps, 1);
    assert Run(env, w1, steps, 1) == Run(env, w2, steps, 2);
    assert Run(env, w2, steps, 2) == Run(env, w3, steps, 3);
    assert Run(env, w3, steps, 3) == Run(env, Apply(env, w3, steps[3]), steps, 4);
  }

  lemma {:induction false} ThirdStepHarmless(env: Env, w: World, steps: seq<Step>)
    requires C.ValidGear(env.gear) && |steps| == 4 && HarmlessRun(env, w, steps, 0)
    ensures Harmless(env, Apply(env, Apply(env, w, steps[0]), steps[1]), steps[2])
  {
    assert HarmlessRun(env, Apply(env, w, steps[0]), steps, 1);
    assert HarmlessRun(env, Apply(env, Apply(env, w, steps[0]), steps[1]), steps, 2);
  }

  lemma UploadedWorld(env: Env, first: Step, second: Step)
    requires OneNode(env) && first == Heartbeat(1) && second == Step.Upload(1, REQUEST)
    ensures Apply(env, Apply(env, EMPTY_WORLD, first), second) == BackupFile(env, Registered(env), 1, REQUEST).0
  {
    assert Apply(env, EMPTY_WORLD, first) == Registered(env);
  }

  /** From the empty cluster: a heartbeat, an upload, a purge whose answer is lost, a heartbeat. */
  lemma {:induction false} LostPurgeRun(env: Env, steps: seq<Step>)
    requires OneNode(env) && |steps| == 4 && steps[0] == Heartbeat(1) && steps[1] == Step.Upload(1, REQUEST)
    requires steps[2] == Remove(1, true) && steps[3] == Heartbeat(1)
    ensures !HarmlessRun(env, EMPTY_WORLD, steps, 0)
    ensures Overcommitted(env, Run(env, EMPTY_WORLD, steps, 0), 1)
  {
    var w2 := BackupFile(env, Registered(env), 1, REQUEST).0;
    UploadedWorld(env, steps[0], steps[1]);
    PurgeAfterUpload(env, w2);
    LostPurgeEnds(env, EMPTY_WORLD, w2, steps);
  }

  lemma {:induction false} LostPurgeEnds(env: Env, w: World, w2: World, steps: seq<Step>)
    requires C.ValidGear(env.gear) && |steps| == 4 && Apply(env, Apply(env, w, steps[0]), steps[1]) == w2
    requires !Harmless(env, w2, steps[2])
    requires Overcommitted(env, Apply(env, Apply(env, w2, steps[2]), steps[3]), 1)
    ensures !HarmlessRun(env, w, steps, 0) && Overcommitted(env, Run(env, w, steps, 0), 1)
  {
    ThreeSteps(env, w, steps, Apply(env, w2, steps[2]));
    if HarmlessRun(env, w, steps, 0) { ThirdStepHarmless(env, w, steps); }
  }
}
