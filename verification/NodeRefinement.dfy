/** A plain node is the node the cluster model talks about: its answers and its contents agree. */
module NodeRefinement {
  import opened ChunkNames
  import opened ChunkStore
  import opened NodeGate
  import opened StoreLaws
  import opened Types
  import M = Model

  /** Hashes as the cluster knows them, written out as text. */
  type Names = M.Hash -> string

  ghost predicate ValidNames(env: M.Env, cfg: Config, names: Names) {
    && (forall h :: Path(names(h)).Some?)
    && (forall g, h :: Path(names(g)) == Path(names(h)) ==> g == h)
    && (forall d: Bytes :: names(env.digest(d)) == HashBytes(cfg, d))
  }

  ghost predicate Represents(names: Names, m: M.Store, s: State) {
    && m.used == s.used
    && (forall h :: Path(names(h)).Some? ==> (h in m.chunks <==> Path(names(h)).value in s.files))
    && (forall h :: Path(names(h)).Some? && h in m.chunks && Path(names(h)).value in s.files ==>
          m.chunks[h] == s.files[Path(names(h)).value])
  }

  lemma NameOfDigest(env: M.Env, cfg: Config, names: Names, h: M.Hash, data: Bytes)
    requires ValidNames(env, cfg, names)
    ensures HashBytes(cfg, data) == names(h) <==> env.digest(data) == h
  {
    assert names(env.digest(data)) == HashBytes(cfg, data);
  }

  /** Moving a chunk's file into place. */
  lemma CommitRepresents(env: M.Env, cfg: Config, names: Names, m: M.Store, s: State, h: M.Hash, data: Bytes, f: Faults)
    requires ValidNames(env, cfg, names) && Represents(names, m, s) && Covers(s)
    requires !f.rename && !f.statOld && !f.statNew
    ensures Represents(names, M.Write(m, h, data), Commit(s, Path(names(h)).value, data, |data|, f).0)
  {
    var path := Path(names(h)).value;
    var files := (s.files - {Temp(path)})[path := data];
    ClampIdle(cfg, s, names(h), data);
    forall g ensures Path(names(g)).value in files <==> g == h || Path(names(g)).value in s.files {
      PathIsChunkName(names(g));
      TempIsNoChunkName(path);
    }
  }

  /** The upload reaches the node whole and meets no failure there. */
  predicate GoesThrough(r: Request, f: Faults) {
    !Breaks(r) && Unhindered(Plain, f)
  }

  /** The cluster model's store after the upload. */
  ghost function AfterPut(env: M.Env, n: M.NodeId, w: M.World, h: M.Hash, r: Request, f: Faults): M.Store {
    if GoesThrough(r, f) && M.Accepts(env, w, n, h, BodyOf(r)) then M.Write(M.StoreOf(w, n), h, BodyOf(r))
    else M.StoreOf(w, n)
  }

  /** The gate, and behind it the hash check, are those of the cluster model. */
  lemma AcceptedAlike(env: M.Env, n: M.NodeId, w: M.World, cfg: Config, names: Names, s: State, h: M.Hash, r: Request,
                      f: Faults)
    requires ValidConfig(cfg) && cfg.cipher.Plain? && ValidNames(env, cfg, names)
    requires M.StoreOf(w, n).used == s.used && r.hash == names(h) && r.declared >= 0
    ensures var reply := PutChunk(cfg, env.capacity(n), s, r, [], f).1;
            reply.Answered? && reply.result.Accepted?
            <==> GoesThrough(r, f) && M.Accepts(env, w, n, h, BodyOf(r))
  {
    NameOfDigest(env, cfg, names, h, BodyOf(r));
    PutAccepts(cfg, s, r.hash, BodyOf(r), [], Reading(r, f));
  }

  /**
   * An upload of declared length to a plain node, with any failure but that of a size lookup: it is
   * accepted exactly if it goes through and the cluster model accepts it, and the contents agree.
   */
  lemma PutRefines(env: M.Env, n: M.NodeId, w: M.World, cfg: Config, names: Names, s: State, h: M.Hash, r: Request,
                   f: Faults)
    requires ValidConfig(cfg) && cfg.cipher.Plain? && ValidNames(env, cfg, names)
    requires Represents(names, M.StoreOf(w, n), s) && Covers(s)
    requires r.hash == names(h) && r.declared >= 0 && !f.statOld && !f.statNew
    ensures var (s', reply) := PutChunk(cfg, env.capacity(n), s, r, [], f);
            && (reply.Answered? && reply.result.Accepted?
                <==> GoesThrough(r, f) && M.Accepts(env, w, n, h, BodyOf(r)))
            && Represents(names, AfterPut(env, n, w, h, r, f), s')
  {
    var (s', reply) := PutChunk(cfg, env.capacity(n), s, r, [], f);
    AcceptedAlike(env, n, w, cfg, names, s, h, r, f);
    PutCases(cfg, s, r.hash, BodyOf(r), [], Reading(r, f));
    if reply.Answered? && reply.result.Accepted? {
      CommitRepresents(env, cfg, names, M.StoreOf(w, n), s, h, BodyOf(r), Reading(r, f));
    } else {
      RefusedRepresents(names, M.StoreOf(w, n), s, s');
    }
  }

  lemma RefusedRepresents(names: Names, m: M.Store, s: State, s': State)
    requires Represents(names, m, s) && ChunkFiles(s'.files) == ChunkFiles(s.files) && s'.used == s.used
    ensures Represents(names, m, s')
  {
    forall h
      ensures Path(names(h)).Some? ==> (Path(names(h)).value in s.files <==> Path(names(h)).value in s'.files)
      ensures Path(names(h)).Some? && Path(names(h)).value in s.files ==>
                s.files[Path(names(h)).value] == s'.files[Path(names(h)).value]
    {
      SameEntry(s.files, names(h));
      SameEntry(s'.files, names(h));
    }
  }

  lemma DeleteRefines(env: M.Env, cfg: Config, names: Names, m: M.Store, s: State, h: M.Hash, removeFails: bool)
    requires ValidNames(env, cfg, names) && Represents(names, m, s) && Covers(s)
    ensures Delete(s, names(h), false, removeFails).1 == !removeFails
    ensures Represents(names, if removeFails then m else M.Erase(m, h), Delete(s, names(h), false, removeFails).0)
  {
    ClampIdle(cfg, s, names(h), []);
  }

  /** How the cluster model sees a clearing: what it failed to remove is what is left. */
  ghost function ReplyOf(cfg: Config, names: Names, m: M.Store, course: ClearCourse): M.Reply {
    if !cfg.rootIsSafe then M.Refuse else
      match course
      case WalkFails => M.Refuse
      case RemoveFails(survivors) =>
        M.HalfDone(set h | h in m.chunks && Path(names(h)).Some? && Path(names(h)).value in survivors)
      case MkdirFails => M.HalfDone({})
      case Clears => M.Obey
  }

  /** Every way a clearing can go is an answer of the cluster model, with the same store left behind. */
  lemma ClearRefines(env: M.Env, cfg: Config, names: Names, m: M.Store, s: State, course: ClearCourse)
    requires ValidNames(env, cfg, names) && Represents(names, m, s)
    ensures var (s', ok) := Clear(cfg, s, course);
            && Represents(names, M.AfterClear(m, ReplyOf(cfg, names, m, course)), s')
            && ok == ReplyOf(cfg, names, m, course).Obey?
  {
  }

  lemma OpenRefines(env: M.Env, cfg: Config, names: Names, m: M.Store, s: State, h: M.Hash)
    requires cfg.cipher.Plain? && ValidNames(env, cfg, names) && Represents(names, m, s)
    ensures Open(cfg, s, names(h)) == if h in m.chunks then Some(m.chunks[h]) else None
  {
  }
}
