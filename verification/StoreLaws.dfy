/** What a node's chunk store keeps through every run: its count, its contents, its reserved capacity. */
module StoreLaws {
  import opened ChunkNames
  import opened ChunkStore
  import opened Sums
  import opened Types

  // ---- Names ---------------------------------------------------------------------------

  /** Every digest has a file of its own. */
  lemma HashHasPath(cfg: Config, data: Bytes)
    requires ValidConfig(cfg)
    ensures Path(HashBytes(cfg, data)) == Some(FileOf(HexText(cfg.digest(data))))
  {
    HexRoundTrip(cfg.digest(data));
    var hash := HashBytes(cfg, data);
    assert hash[|PREFIX|..] == HexText(cfg.digest(data));
  }

  /** Two contents share a file only if their digests agree. */
  lemma PathsByDigest(cfg: Config, d: Bytes, e: Bytes)
    requires ValidConfig(cfg)
    ensures Path(HashBytes(cfg, d)) == Path(HashBytes(cfg, e)) <==> cfg.digest(d) == cfg.digest(e)
  {
    HashHasPath(cfg, d);
    HashHasPath(cfg, e);
    HexRoundTrip(cfg.digest(d));
    HexRoundTrip(cfg.digest(e));
    if Path(HashBytes(cfg, d)) == Path(HashBytes(cfg, e)) {
      FileOfInjective(HexText(cfg.digest(d)), HexText(cfg.digest(e)));
    }
  }

  // ---- Files and their total -----------------------------------------------------------

  lemma AbandonedKeepsChunks(files: map<string, Bytes>, path: string, left: Bytes, cleanup: bool)
    ensures ChunkFiles(Abandoned(files, Temp(path), left, cleanup)) == ChunkFiles(files)
  {
    TempIsNoChunkName(path);
  }

  lemma SameChunksSameScan(a: map<string, Bytes>, b: map<string, Bytes>)
    requires ChunkFiles(a) == ChunkFiles(b)
    ensures Scan(a) == Scan(b)
  {
    assert forall p :: p in a && IsChunkName(p) <==> p in ChunkFiles(a);
    assert forall p :: p in b && IsChunkName(p) <==> p in ChunkFiles(b);
    assert forall p :: p in ChunkFiles(a) ==> ChunkFiles(a)[p] == a[p] && ChunkFiles(b)[p] == b[p];
    assert ChunkSizes(a) == ChunkSizes(b);
  }

  lemma CommittedChunks(files: map<string, Bytes>, path: string, content: Bytes)
    requires IsChunkName(path)
    ensures ChunkFiles((files - {Temp(path)})[path := content]) == ChunkFiles(files)[path := content]
  {
    TempIsNoChunkName(path);
    var after := (files - {Temp(path)})[path := content];
    forall p
      ensures p in ChunkFiles(after) <==> p in ChunkFiles(files)[path := content]
      ensures p in ChunkFiles(after) ==> ChunkFiles(after)[p] == ChunkFiles(files)[path := content][p]
    {
      assert p in after <==> p == path || (p in files && p != Temp(path));
    }
  }

  lemma SizesOfChunks(files: map<string, Bytes>)
    ensures ChunkSizes(files).Keys == ChunkFiles(files).Keys
    ensures forall p :: p in ChunkSizes(files) ==> ChunkSizes(files)[p] == |ChunkFiles(files)[p]|
  {
  }

  lemma CommittedSizes(files: map<string, Bytes>, path: string, content: Bytes)
    requires IsChunkName(path)
    ensures ChunkSizes((files - {Temp(path)})[path := content]) == ChunkSizes(files)[path := |content|]
  {
    var after := (files - {Temp(path)})[path := content];
    CommittedChunks(files, path, content);
    SizesOfChunks(files);
    SizesOfChunks(after);
    assert ChunkSizes(after).Keys == ChunkSizes(files)[path := |content|].Keys;
  }

  lemma ScanCommitted(files: map<string, Bytes>, path: string, content: Bytes)
    requires IsChunkName(path)
    ensures Scan((files - {Temp(path)})[path := content]) == Scan(files) - SizeAt(files, path, false) + |content|
    ensures SizeAt(files, path, false) <= Scan(files)
  {
    CommittedSizes(files, path, content);
    if path in files {
      PutOver(ChunkSizes(files), path, |content|);
    } else {
      PutFresh(ChunkSizes(files), path, |content|);
    }
  }

  // ---- Storing -------------------------------------------------------------------------

  /** The call meets none of the failures that its cipher's path can meet. */
  predicate Unhindered(c: Cipher, f: Faults) {
    !f.mkdir && !f.create && !f.copy && !f.close && !f.rename && (c.Sealed? ==> !f.random)
  }

  /** A body is accepted exactly when nothing fails and it hashes to the name it is stored under. */
  lemma PutAccepts(cfg: Config, s: State, hash: string, body: Bytes, nonce: Bytes, f: Faults)
    requires ValidConfig(cfg)
    ensures Put(cfg, s, hash, body, nonce, f).1.Accepted? <==> Unhindered(cfg.cipher, f) && HashBytes(cfg, body) == hash
    ensures Put(cfg, s, hash, body, nonce, f).1.Accepted? ==> Put(cfg, s, hash, body, nonce, f).1.n == |body|
  {
    HashHasPath(cfg, body);
  }

  /** Which answer a call gets: a bad name first, a wrong digest only if the body was read and, unsealed, written. */
  lemma PutAnswers(cfg: Config, s: State, hash: string, body: Bytes, nonce: Bytes, f: Faults)
    ensures var r := Put(cfg, s, hash, body, nonce, f).1;
            && (r == BadName <==> !ValidName(hash))
            && (r == HashMismatch <==>
                  && ValidName(hash) && HashBytes(cfg, body) != hash && !f.copy
                  && (cfg.cipher.Plain? ==> !f.mkdir && !f.create && !f.close))
  {
    PathAcceptsIff(hash);
  }

  /** An accepted body's new state, and only then a new count. */
  lemma PutCases(cfg: Config, s: State, hash: string, body: Bytes, nonce: Bytes, f: Faults)
    ensures var (s', r) := Put(cfg, s, hash, body, nonce, f);
            && (!r.Accepted? ==> ChunkFiles(s'.files) == ChunkFiles(s.files) && s'.used == s.used)
            && (r.Accepted? ==> Path(hash).Some? && HashBytes(cfg, body) == hash && !f.rename)
            && (r.Accepted? ==>
                  (s', Accepted(|body|)) == Commit(s, Path(hash).value, OnDisk(cfg.cipher, nonce, body), |body|, f))
  {
    var path := Path(hash);
    if path.Some? {
      TempIsNoChunkName(path.value);
      AbandonedKeepsChunks(s.files, path.value, f.left, f.cleanup);
      AbandonedKeepsChunks(s.files, path.value, body, f.cleanup);
      AbandonedKeepsChunks(s.files, path.value, OnDisk(cfg.cipher, nonce, body), f.cleanup);
    }
  }

  lemma UnwrapOnDisk(c: Cipher, nonce: Bytes, data: Bytes)
    requires ValidCipher(c) && (c.Sealed? ==> |nonce| == c.nonceSize)
    ensures Unwrap(c, OnDisk(c, nonce, data)) == Some(data)
  {
    if c.Sealed? {
      var file := nonce + c.seal(nonce, data);
      assert file[..c.nonceSize] == nonce && file[c.nonceSize..] == c.seal(nonce, data);
    }
  }

  predicate NonceFits(c: Cipher, nonce: Bytes) {
    c.Sealed? ==> |nonce| == c.nonceSize
  }

  /** What an accepted call stored is what opening returns; every other chunk opens as before. */
  lemma PutThenOpen(cfg: Config, s: State, hash: string, body: Bytes, nonce: Bytes, f: Faults, g: string)
    requires ValidConfig(cfg) && NonceFits(cfg.cipher, nonce)
    ensures var (s', r) := Put(cfg, s, hash, body, nonce, f);
            Open(cfg, s', g) == if r.Accepted? && Path(g) == Path(hash) then Some(body) else Open(cfg, s, g)
  {
    var (s', r) := Put(cfg, s, hash, body, nonce, f);
    PutCases(cfg, s, hash, body, nonce, f);
    UnwrapOnDisk(cfg.cipher, nonce, body);
    PathIsChunkName(g);
    if r.Accepted? {
      PathIsChunkName(hash);
      CommittedChunks(s.files, Path(hash).value, OnDisk(cfg.cipher, nonce, body));
    }
    SameEntry(s'.files, g);
    SameEntry(s.files, g);
  }

  lemma SameEntry(files: map<string, Bytes>, g: string)
    ensures Path(g).Some? ==> (Path(g).value in files <==> Path(g).value in ChunkFiles(files))
    ensures Path(g).Some? && Path(g).value in files ==> ChunkFiles(files)[Path(g).value] == files[Path(g).value]
  {
    PathIsChunkName(g);
  }

  /** Deleting a chunk takes away that chunk and nothing else. */
  lemma DeleteThenOpen(cfg: Config, s: State, hash: string, statFails: bool, removeFails: bool, g: string)
    ensures var (s', ok) := Delete(s, hash, statFails, removeFails);
            Open(cfg, s', g) == if ok && Path(g) == Path(hash) then None else Open(cfg, s, g)
  {
  }

  /** Deleting succeeds exactly for a valid name, unless the removal fails; failing, it changes nothing. */
  lemma DeleteSucceedsIff(s: State, hash: string, statFails: bool, removeFails: bool)
    ensures var (s', ok) := Delete(s, hash, statFails, removeFails);
            && (ok <==> ValidName(hash) && !removeFails) && (!ok ==> s' == s)
  {
    PathAcceptsIff(hash);
  }

  /** Clearing succeeds exactly if the root is safe and nothing fails; then no chunk opens and the count is zero. */
  lemma ClearSucceedsIff(cfg: Config, s: State, course: ClearCourse, g: string)
    ensures var (s', ok) := Clear(cfg, s, course);
            && (ok <==> cfg.rootIsSafe && course == Clears)
            && (ok ==> s'.used == 0 && Open(cfg, s', g) == None)
            && (!cfg.rootIsSafe || course == WalkFails ==> s' == s)
            && (!ok ==> s'.used == s.used)
  {
  }

  // ---- Contents ------------------------------------------------------------------------

  /** The file opens to data whose digest names it. */
  ghost predicate Proper(cfg: Config, path: string, file: Bytes) {
    var data := Unwrap(cfg.cipher, file);
    data.Some? && Path(HashBytes(cfg, data.value)) == Some(path)
  }

  ghost predicate Genuine(cfg: Config, s: State) {
    forall p :: p in s.files && IsChunkName(p) ==> Proper(cfg, p, s.files[p])
  }

  lemma PutGenuine(cfg: Config, s: State, hash: string, body: Bytes, nonce: Bytes, f: Faults)
    requires ValidConfig(cfg) && NonceFits(cfg.cipher, nonce) && Genuine(cfg, s)
    ensures Genuine(cfg, Put(cfg, s, hash, body, nonce, f).0)
  {
    var (s', r) := Put(cfg, s, hash, body, nonce, f);
    PutCases(cfg, s, hash, body, nonce, f);
    UnwrapOnDisk(cfg.cipher, nonce, body);
    assert forall p :: p in s'.files && IsChunkName(p) <==> p in ChunkFiles(s'.files);
    assert forall p :: p in s.files && IsChunkName(p) <==> p in ChunkFiles(s.files);
    if r.Accepted? {
      PathIsChunkName(hash);
      CommittedChunks(s.files, Path(hash).value, OnDisk(cfg.cipher, nonce, body));
    } else {
      assert forall p :: p in ChunkFiles(s'.files) ==>
        ChunkFiles(s'.files)[p] == s'.files[p] && ChunkFiles(s.files)[p] == s.files[p];
    }
  }

  lemma FewerFilesGenuine(cfg: Config, s: State, s': State)
    requires Genuine(cfg, s)
    requires forall p :: p in s'.files ==> p in s.files && s'.files[p] == s.files[p]
    ensures Genuine(cfg, s')
  {
  }

  /** Whatever a store serves under a digest's name has that digest. */
  lemma ServedHashes(cfg: Config, s: State, data: Bytes)
    requires ValidConfig(cfg) && Genuine(cfg, s)
    ensures var got := Open(cfg, s, HashBytes(cfg, data)); got.Some? ==> cfg.digest(got.value) == cfg.digest(data)
  {
    HashHasPath(cfg, data);
    PathIsChunkName(HashBytes(cfg, data));
    var got := Open(cfg, s, HashBytes(cfg, data));
    if got.Some? {
      var p := Path(HashBytes(cfg, data)).value;
      assert Proper(cfg, p, s.files[p]);
      PathsByDigest(cfg, got.value, data);
    }
  }

  // ---- The count -----------------------------------------------------------------------

  ghost predicate Exact(s: State) {
    s.used == Scan(s.files)
  }

  /** The count never reports less than is on the disk. */
  ghost predicate Covers(s: State) {
    s.used >= Scan(s.files)
  }

  /** By how much the count exceeds what is on the disk. */
  ghost function Excess(s: State): int {
    s.used - Scan(s.files)
  }

  /** The bytes of the old file, and of the new one, that a call to Put fails to look up. */
  function Overlooked(cfg: Config, s: State, hash: string, nonce: Bytes, body: Bytes, f: Faults): (nat, nat) {
    var path := Path(hash);
    (if f.statOld && path.Some? then SizeAt(s.files, path.value, false) else 0,
     if f.statNew then |OnDisk(cfg.cipher, nonce, body)| else 0)
  }

  /** Where the count misses after a call to Put: by the sizes it failed to look up. */
  lemma PutCount(cfg: Config, s: State, hash: string, body: Bytes, nonce: Bytes, f: Faults)
    requires Covers(s)
    ensures var (s', r) := Put(cfg, s, hash, body, nonce, f);
            var missed := Overlooked(cfg, s, hash, nonce, body, f);
            Excess(s') == Excess(s) + if r.Accepted? then missed.0 - missed.1 else 0
  {
    var (s', r) := Put(cfg, s, hash, body, nonce, f);
    PutCases(cfg, s, hash, body, nonce, f);
    if r.Accepted? {
      PathIsChunkName(hash);
      ScanCommitted(s.files, Path(hash).value, OnDisk(cfg.cipher, nonce, body));
    } else {
      SameChunksSameScan(s'.files, s.files);
    }
  }

  /**
   * The count stays exact exactly when the body is not accepted, or the failed lookups miss the same
   * number of bytes of the old file as of the new one.
   */
  lemma PutExact(cfg: Config, s: State, hash: string, body: Bytes, nonce: Bytes, f: Faults)
    requires ValidConfig(cfg) && Exact(s)
    ensures var missed := Overlooked(cfg, s, hash, nonce, body, f);
            Exact(Put(cfg, s, hash, body, nonce, f).0)
            <==> (Unhindered(cfg.cipher, f) && HashBytes(cfg, body) == hash ==> missed.0 == missed.1)
  {
    PutCount(cfg, s, hash, body, nonce, f);
    PutCases(cfg, s, hash, body, nonce, f);
    PutAccepts(cfg, s, hash, body, nonce, f);
  }

  lemma DeletedChunk(s: State, hash: string)
    requires Path(hash).Some? && Path(hash).value in s.files
    ensures Scan(s.files) == Scan(s.files - {Path(hash).value}) + |s.files[Path(hash).value]|
  {
    PathIsChunkName(hash);
    ScanWithout(s.files, Path(hash).value);
  }

  lemma DeleteCount(s: State, hash: string, statFails: bool, removeFails: bool)
    requires Covers(s)
    ensures var (s', ok) := Delete(s, hash, statFails, removeFails);
            Excess(s') == Excess(s) + if ok && statFails then SizeAt(s.files, Path(hash).value, false) else 0
    ensures Scan(Delete(s, hash, statFails, removeFails).0.files) <= Scan(s.files)
  {
    if Path(hash).Some? && Path(hash).value in s.files { DeletedChunk(s, hash); }
  }

  /** Deleting keeps the count exact unless it removes bytes whose number it could not look up. */
  lemma DeleteExact(s: State, hash: string, statFails: bool, removeFails: bool)
    requires Exact(s)
    ensures Exact(Delete(s, hash, statFails, removeFails).0)
       <==> !(statFails && !removeFails && Path(hash).Some? && SizeAt(s.files, Path(hash).value, false) > 0)
  {
    DeleteCount(s, hash, statFails, removeFails);
  }

  /** The count never has to be clamped at zero. */
  lemma ClampIdle(cfg: Config, s: State, hash: string, content: Bytes)
    requires Covers(s) && Path(hash).Some?
    ensures s.used + |content| - SizeAt(s.files, Path(hash).value, false) >= 0
    ensures s.used - SizeAt(s.files, Path(hash).value, false) >= 0
  {
    if Path(hash).value in s.files { DeletedChunk(s, hash); }
  }

  lemma FewerFilesSmallerScan(a: map<string, Bytes>, b: map<string, Bytes>)
    requires forall p :: p in a ==> p in b && a[p] == b[p]
    ensures Scan(a) <= Scan(b)
  {
    Monotone(ChunkSizes(a), ChunkSizes(b));
  }

  lemma FewerBytesSmallerScan(a: map<string, Bytes>, b: map<string, Bytes>, path: string)
    requires forall p :: p in a ==> p in b && a[p] == b[p]
    requires path in b && path !in a && IsChunkName(path) && b[path] != []
    ensures Scan(a) < Scan(b)
  {
    FewerFilesSmallerScan(a, b - {path});
    ScanWithout(b, path);
  }

  lemma {:induction false} SameBytesSameScan(a: map<string, Bytes>, b: map<string, Bytes>)
    requires forall p :: p in a ==> p in b && a[p] == b[p]
    requires forall p :: p in b && IsChunkName(p) && b[p] != [] ==> p in a
    ensures Scan(a) == Scan(b)
    decreases |b|
  {
    FewerFilesSmallerScan(a, b);
    if path :| path in b && path !in a {
      ScanWithout(b, path);
      SameBytesSameScan(a, b - {path});
    } else {
      assert a == b;
    }
  }

  /** No way of clearing creates or changes a file. */
  lemma ClearRemoves(cfg: Config, s: State, course: ClearCourse, p: string)
    ensures var (s', ok) := Clear(cfg, s, course); p in s'.files ==> p in s.files && s'.files[p] == s.files[p]
    ensures var (s', ok) := Clear(cfg, s, course); if ok then s' == State(map[], 0) else s'.used == s.used
  {
  }

  /** A chunk file with data in it. */
  predicate HasData(s: State, path: string) {
    path in s.files && IsChunkName(path) && s.files[path] != []
  }

  /** Clearing is refused, does nothing, succeeds, or stops before removing a byte of a chunk. */
  ghost predicate LosesNothingUncounted(cfg: Config, s: State, course: ClearCourse) {
    cfg.rootIsSafe ==>
      match course
      case RemoveFails(survivors) => forall p :: HasData(s, p) ==> p in survivors
      case MkdirFails => forall p :: !HasData(s, p)
      case _ => true
  }

  /** Clearing leaves the count exact exactly when it succeeds or stops before removing a byte of a chunk. */
  lemma ClearExact(cfg: Config, s: State, course: ClearCourse)
    requires Exact(s)
    ensures Exact(Clear(cfg, s, course).0) <==> LosesNothingUncounted(cfg, s, course)
  {
    var (s', ok) := Clear(cfg, s, course);
    forall p ensures p in s'.files ==> p in s.files && s'.files[p] == s.files[p] { ClearRemoves(cfg, s, course, p); }
    ClearRemoves(cfg, s, course, "");
    ZeroTotal(ChunkSizes(map[]));
    if p :| HasData(s, p) && p !in s'.files {
      FewerBytesSmallerScan(s'.files, s.files, p);
    } else {
      SameBytesSameScan(s'.files, s.files);
    }
  }
}
