/** The node's request handlers over its store. */
module BackupNode {
  import opened ChunkStore
  import opened NodeGate
  import opened NodeStore
  import opened Types

  method HandlePut(store: NodeStore.Store, capacity: int, r: Request, nonce: Bytes, f: Faults) returns (reply: Reply)
    modifies store
    ensures (store.View(), reply) == PutChunk(store.cfg, capacity, old(store.View()), r, nonce, f)
  {
    if r.declared > 0 {
      var used := store.used;
      if used + r.declared > capacity {
        return NoSpace;
      }
    }
    var result := store.Put(r.hash, BodyOf(r), nonce, Reading(r, f));
    reply := Answered(result);
  }

  method RegisterRequest(store: NodeStore.Store, capacity: int) returns (free: int)
    ensures free == ReportedFree(capacity, store.View())
  {
    var used := store.used;
    free := capacity - used;
    if free < 0 {
      free := 0;
    }
  }
}
