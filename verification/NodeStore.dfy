/** A node's chunk store as it runs: files written, renamed and removed, the count kept in step. */
module NodeStore {
  import opened ChunkNames
  import opened ChunkStore
  import opened Sums
  import opened Types

  class Store {
    const cfg: Config
    var files: map<string, Bytes>
    var used: int

    function View(): State
      reads this
    {
      State(files, used)
    }

    /** Opens a store over a directory and counts what is there. */
    constructor (cfg: Config, files: map<string, Bytes>)
      ensures this.cfg == cfg && View() == State(files, Scan(files))
    {
      this.cfg, this.files, this.used := cfg, files, 0;
      new;
      this.used := ScanUsed();
    }

    method ScanUsed() returns (total: nat)
      ensures total == Scan(files)
    {
      var rest := files;
      total := 0;
      while rest != map[]
        invariant total + Scan(rest) == Scan(files)
        decreases |rest|
      {
        var p :| p in rest;
        ScanWithout(rest, p);
        if IsChunkName(p) {
          total := total + |rest[p]|;
        }
        rest := rest - {p};
      }
    }

    method AddToUsed(delta: int)
      modifies this`used
      ensures used == AddUsed(old(used), delta)
    {
      used := used + delta;
      if used < 0 {
        used := 0;
      }
    }

    /** Gives up on the temporary file: what was written stays only if removing it fails. */
    method Abandon(tmp: string, cleanup: bool)
      requires tmp in files
      modifies this`files
      ensures files == Abandoned(old(files), tmp, old(files[tmp]), cleanup)
    {
      if !cleanup {
        files := files - {tmp};
      }
    }

    method Rename(path: string, n: nat, f: Faults) returns (r: PutResult)
      requires Temp(path) in files
      modifies this
      ensures (View(), r) == Commit(old(View()), path, old(files[Temp(path)]), n, f)
    {
      var tmp := Temp(path);
      var oldSize := SizeAt(files, path, f.statOld);
      if f.rename {
        Abandon(tmp, f.cleanup);
        return Failed;
      }
      files := (files - {tmp})[path := files[tmp]];
      AddToUsed(SizeAt(files, path, f.statNew) - oldSize);
      r := Accepted(n);
    }

    /** Streams the body into a temporary file, hashing on the way, then moves it into place. */
    method PutPlain(hash: string, body: Bytes, f: Faults) returns (r: PutResult)
      modifies this
      ensures (View(), r) == ChunkStore.PutPlain(cfg, old(View()), hash, body, f)
    {
      var path := Path(hash);
      if path.None? {
        return BadName;
      }
      if f.mkdir || f.create {
        return Failed;
      }
      var tmp := Temp(path.value);
      var written := if f.copy || f.close then f.left else body;
      AbandonedTwice(files, tmp, written, f.cleanup);
      files := files[tmp := written];
      if f.copy || f.close {
        Abandon(tmp, f.cleanup);
        return Failed;
      }
      if HashBytes(cfg, body) != hash {
        Abandon(tmp, f.cleanup);
        return HashMismatch;
      }
      CommitIgnoresTemp(old(View()), path.value, body, |body|, f);
      r := Rename(path.value, |body|, f);
    }

    /** Checks the plain body's hash, then writes it sealed. */
    method PutSealed(hash: string, body: Bytes, nonce: Bytes, f: Faults) returns (r: PutResult)
      modifies this
      ensures (View(), r) == ChunkStore.PutSealed(cfg, old(View()), hash, body, nonce, f)
    {
      var path := Path(hash);
      if path.None? {
        return BadName;
      }
      if f.copy {
        return Failed;
      }
      if HashBytes(cfg, body) != hash {
        return HashMismatch;
      }
      if f.random || f.mkdir || f.create {
        return Failed;
      }
      var sealed := OnDisk(cfg.cipher, nonce, body);
      files := files[Temp(path.value) := if f.close then f.left else sealed];
      if f.close {
        return Failed;
      }
      CommitIgnoresTemp(old(View()), path.value, sealed, |body|, f);
      r := Rename(path.value, |body|, f);
    }

    method Put(hash: string, body: Bytes, nonce: Bytes, f: Faults) returns (r: PutResult)
      modifies this
      ensures (View(), r) == ChunkStore.Put(cfg, old(View()), hash, body, nonce, f)
    {
      if cfg.cipher.Sealed? {
        r := PutSealed(hash, body, nonce, f);
      } else {
        r := PutPlain(hash, body, f);
      }
    }

    method Open(hash: string) returns (data: Option<Bytes>)
      ensures data == ChunkStore.Open(cfg, View(), hash)
    {
      var path := Path(hash);
      if path.None? || path.value !in files {
        return None;
      }
      var file := files[path.value];
      if cfg.cipher.Plain? {
        return Some(file);
      }
      var nonceSize := cfg.cipher.nonceSize;
      if |file| < nonceSize {
        return None;
      }
      data := cfg.cipher.open(file[..nonceSize], file[nonceSize..]);
    }

    method Delete(hash: string, statFails: bool, removeFails: bool) returns (ok: bool)
      modifies this
      ensures (View(), ok) == ChunkStore.Delete(old(View()), hash, statFails, removeFails)
    {
      var path := Path(hash);
      if path.None? {
        return false;
      }
      var size := SizeAt(files, path.value, statFails);
      if removeFails {
        return false;
      }
      if path.value !in files {
        return true;
      }
      files := files - {path.value};
      AddToUsed(0 - size as int);
      ok := true;
    }

    /** Counts every file under the root, then removes them all. */
    method Clear(course: ClearCourse) returns (count: nat, bytes: nat, ok: bool)
      modifies this
      ensures (View(), ok) == ChunkStore.Clear(cfg, old(View()), course)
      ensures ok ==> count == |old(files)| && bytes == Total(AllSizes(old(files)))
    {
      count, bytes := 0, 0;
      if !cfg.rootIsSafe || course.WalkFails? {
        return 0, 0, false;
      }
      count, bytes := CountFiles();
      match course {
        case RemoveFails(survivors) =>
          files := map p | p in files && p in survivors :: files[p];
          ok := false;
        case MkdirFails =>
          files := map[];
          ok := false;
        case Clears =>
          files, used := map[], 0;
          ok := true;
      }
    }

    method CountFiles() returns (count: nat, bytes: nat)
      ensures count == |files| && bytes == Total(AllSizes(files))
    {
      var rest := files;
      count, bytes := 0, 0;
      while rest != map[]
        invariant count + |rest| == |files|
        invariant bytes + Total(AllSizes(rest)) == Total(AllSizes(files))
        decreases |rest|
      {
        var p :| p in rest;
        TakeOut(AllSizes(rest), p);
        assert AllSizes(rest) - {p} == AllSizes(rest - {p});
        count, bytes := count + 1, bytes + |rest[p]|;
        assert (rest - {p}).Keys == rest.Keys - {p};
        rest := rest - {p};
      }
    }
  }

  /**
   * Opens a store: the directory must exist or be created, a key must have 32 bytes, and a walk must
   * reach every file.
   */
  method New(cfg: Config, files: map<string, Bytes>, keyLength: nat, mkdirFails: bool, walkFails: bool)
    returns (store: Option<Store>)
    ensures store.None? <==> mkdirFails || keyLength !in {0, 32} || walkFails
    ensures store.Some? ==> fresh(store.value) && store.value.cfg == cfg
    ensures store.Some? ==> store.value.View() == State(files, Scan(files))
  {
    if mkdirFails {
      return None;
    }
    if keyLength > 0 && keyLength != 32 {
      return None;
    }
    if walkFails {
      return None;
    }
    var s := new Store(cfg, files);
    store := Some(s);
  }
}
