/** A node's content-addressed chunk store: files under a root and a cached count of their bytes. */
module ChunkStore {
  import opened ChunkNames
  import opened Sums
  import opened Types

  /** How chunks lie on the disk: as they are, or behind a nonce and sealed. */
  datatype Cipher =
    | Plain
    | Sealed(nonceSize: nat, tagSize: nat, seal: (Bytes, Bytes) -> Bytes, open: (Bytes, Bytes) -> Option<Bytes>)

  datatype Config = Config(cipher: Cipher, digest: Bytes -> Bytes, rootIsSafe: bool)

  /** The files under the root, by path, and the cached total. */
  datatype State = State(files: map<string, Bytes>, used: int)

  /** Opening undoes sealing under the same nonce; sealing adds a tag of fixed size. */
  ghost predicate ValidCipher(c: Cipher) {
    c.Sealed? ==> forall nonce: Bytes, data: Bytes | |nonce| == c.nonceSize ::
      c.open(nonce, c.seal(nonce, data)) == Some(data) && |c.seal(nonce, data)| == |data| + c.tagSize
  }

  ghost predicate ValidConfig(cfg: Config) {
    ValidCipher(cfg.cipher) && forall d: Bytes :: |cfg.digest(d)| == 32
  }

  /** "sha256:" and the digest's digits. */
  function HashBytes(cfg: Config, data: Bytes): string {
    PREFIX + HexText(cfg.digest(data))
  }

  // ---- What is on the disk -------------------------------------------------------------

  function ChunkSizes(files: map<string, Bytes>): map<string, nat> {
    map p | p in files && IsChunkName(p) :: |files[p]|
  }

  ghost function ChunkFiles(files: map<string, Bytes>): map<string, Bytes> {
    map p | p in files && IsChunkName(p) :: files[p]
  }

  /** The bytes in chunk files: what a walk over the storage tree adds up. */
  ghost function Scan(files: map<string, Bytes>): nat {
    Total(ChunkSizes(files))
  }

  function OnDisk(c: Cipher, nonce: Bytes, data: Bytes): Bytes {
    if c.Plain? then data else nonce + c.seal(nonce, data)
  }

  function Unwrap(c: Cipher, file: Bytes): Option<Bytes> {
    if c.Plain? then Some(file)
    else if |file| < c.nonceSize then None
    else c.open(file[..c.nonceSize], file[c.nonceSize..])
  }

  function Open(cfg: Config, s: State, hash: string): Option<Bytes> {
    var path := Path(hash);
    if path.None? || path.value !in s.files then None else Unwrap(cfg.cipher, s.files[path.value])
  }

  // ---- Storing -------------------------------------------------------------------------

  /**
   * What goes wrong during a call to Put: the directory, creating the file, reading or writing
   * the body, closing, the random source, renaming, removing the temporary file, and the two
   * size lookups. left is what an unfinished write leaves in the temporary file.
   */
  datatype Faults = Faults(mkdir: bool, create: bool, copy: bool, close: bool, random: bool, rename: bool,
                           cleanup: bool, statOld: bool, statNew: bool, left: Bytes)

  datatype PutResult = Accepted(n: nat) | BadName | Failed | HashMismatch

  function SizeAt(files: map<string, Bytes>, path: string, fails: bool): nat {
    if fails || path !in files then 0 else |files[path]|
  }

  function AddUsed(used: int, delta: int): int {
    if used + delta < 0 then 0 else used + delta
  }

  function Abandoned(files: map<string, Bytes>, tmp: string, left: Bytes, cleanup: bool): map<string, Bytes> {
    if cleanup then files[tmp := left] else files - {tmp}
  }

  /** Moves the finished temporary file into place and adjusts the count. */
  function Commit(s: State, path: string, content: Bytes, n: nat, f: Faults): (State, PutResult) {
    if f.rename then (s.(files := Abandoned(s.files, Temp(path), content, f.cleanup)), Failed) else
      var files := (s.files - {Temp(path)})[path := content];
      (State(files, AddUsed(s.used, SizeAt(files, path, f.statNew) - SizeAt(s.files, path, f.statOld))), Accepted(n))
  }

  function PutPlain(cfg: Config, s: State, hash: string, body: Bytes, f: Faults): (State, PutResult) {
    var path := Path(hash);
    if path.None? then (s, BadName)
    else if f.mkdir || f.create then (s, Failed)
    else if f.copy || f.close then (s.(files := Abandoned(s.files, Temp(path.value), f.left, f.cleanup)), Failed)
    else if HashBytes(cfg, body) != hash then
      (s.(files := Abandoned(s.files, Temp(path.value), body, f.cleanup)), HashMismatch)
    else Commit(s, path.value, body, |body|, f)
  }

  function PutSealed(cfg: Config, s: State, hash: string, body: Bytes, nonce: Bytes, f: Faults): (State, PutResult) {
    var path := Path(hash);
    if path.None? then (s, BadName)
    else if f.copy then (s, Failed)
    else if HashBytes(cfg, body) != hash then (s, HashMismatch)
    else if f.random || f.mkdir || f.create then (s, Failed)
    else if f.close then (s.(files := s.files[Temp(path.value) := f.left]), Failed)
    else Commit(s, path.value, OnDisk(cfg.cipher, nonce, body), |body|, f)
  }

  function Put(cfg: Config, s: State, hash: string, body: Bytes, nonce: Bytes, f: Faults): (State, PutResult) {
    if cfg.cipher.Plain? then PutPlain(cfg, s, hash, body, f) else PutSealed(cfg, s, hash, body, nonce, f)
  }

  // ---- Removing ------------------------------------------------------------------------

  /** Deleting what is not there succeeds. */
  function Delete(s: State, hash: string, statFails: bool, removeFails: bool): (State, bool) {
    var path := Path(hash);
    if path.None? || removeFails then (s, false)
    else if path.value !in s.files then (s, true)
    else (State(s.files - {path.value}, AddUsed(s.used, 0 - SizeAt(s.files, path.value, statFails))), true)
  }

  /** How far clearing gets: it may fail to walk, to remove everything, or to recreate the root. */
  datatype ClearCourse = WalkFails | RemoveFails(survivors: set<string>) | MkdirFails | Clears

  function Clear(cfg: Config, s: State, course: ClearCourse): (State, bool) {
    if !cfg.rootIsSafe then (s, false) else
      match course
      case WalkFails => (s, false)
      case RemoveFails(survivors) => (s.(files := map p | p in s.files && p in survivors :: s.files[p]), false)
      case MkdirFails => (s.(files := map[]), false)
      case Clears => (State(map[], 0), true)
  }

  ghost function Reopen(s: State): State {
    s.(used := Scan(s.files))
  }

  // ---- Counting ------------------------------------------------------------------------

  function AllSizes(files: map<string, Bytes>): map<string, nat> {
    map p | p in files :: |files[p]|
  }

  lemma AbandonedTwice(files: map<string, Bytes>, tmp: string, left: Bytes, cleanup: bool)
    ensures Abandoned(files[tmp := left], tmp, left, cleanup) == Abandoned(files, tmp, left, cleanup)
  {
    assert files[tmp := left] - {tmp} == files - {tmp};
    assert files[tmp := left][tmp := left] == files[tmp := left];
  }

  /** What the temporary file held before makes no difference. */
  lemma CommitIgnoresTemp(s: State, path: string, content: Bytes, n: nat, f: Faults)
    ensures Commit(s.(files := s.files[Temp(path) := content]), path, content, n, f) == Commit(s, path, content, n, f)
  {
    var tmp, files := Temp(path), s.files;
    assert |tmp| > |path|;
    assert files[tmp := content] - {tmp} == files - {tmp};
    assert files[tmp := content][tmp := content] == files[tmp := content];
  }

  lemma ScanWithout(files: map<string, Bytes>, p: string)
    requires p in files
    ensures Scan(files) == Scan(files - {p}) + if IsChunkName(p) then |files[p]| else 0
  {
    if IsChunkName(p) {
      TakeOut(ChunkSizes(files), p);
      assert ChunkSizes(files) - {p} == ChunkSizes(files - {p});
    } else {
      assert ChunkSizes(files) == ChunkSizes(files - {p});
    }
  }
}
