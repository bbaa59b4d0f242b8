/** A backup node: the reserved-capacity gate in front of its store, and the space it reports. */
module NodeGate {
  import opened ChunkNames
  import opened ChunkStore
  import opened StoreLaws
  import opened Sums
  import opened Types

  /** A PUT of a chunk: the declared length (negative if there is none) and what the client sends. */
  datatype Request = Request(hash: string, declared: int, sent: Bytes, broken: bool)

  datatype Reply = NoSpace | Answered(result: PutResult)

  /** A body with a declared length ends there; a shorter one is an error. */
  function BodyOf(r: Request): Bytes {
    if 0 <= r.declared < |r.sent| then r.sent[..r.declared] else r.sent
  }

  predicate Breaks(r: Request) {
    if r.declared >= 0 then |r.sent| < r.declared else r.broken
  }

  function Reading(r: Request, f: Faults): Faults {
    f.(copy := f.copy || Breaks(r))
  }

  function PutChunk(cfg: Config, capacity: int, s: State, r: Request, nonce: Bytes, f: Faults): (State, Reply) {
    if r.declared > 0 && s.used + r.declared > capacity then (s, NoSpace)
    else
      var (s', result) := Put(cfg, s, r.hash, BodyOf(r), nonce, Reading(r, f));
      (s', Answered(result))
  }

  function ReportedFree(capacity: int, s: State): int {
    if capacity - s.used < 0 then 0 else capacity - s.used
  }

  /** Once the count covers the disk, the free space reported is really there. */
  lemma ReportIsHonest(capacity: nat, s: State)
    requires Covers(s)
    ensures 0 <= ReportedFree(capacity, s) <= capacity
    ensures ReportedFree(capacity, s) > 0 ==> ReportedFree(capacity, s) + Scan(s.files) <= capacity
    ensures s.used <= capacity ==> (ReportedFree(capacity, s) + Scan(s.files) == capacity <==> Exact(s))
  {
  }

  // ---- Runs ----------------------------------------------------------------------------

  datatype NodeStep =
    | Store(request: Request, nonce: Bytes, faults: Faults)
    | Drop(hash: string, statFails: bool, removeFails: bool)
    | Wipe(course: ClearCourse)
    | Restart

  ghost function Apply(cfg: Config, capacity: int, s: State, step: NodeStep): State {
    match step
    case Store(r, nonce, f) => PutChunk(cfg, capacity, s, r, nonce, f).0
    case Drop(hash, statFails, removeFails) => Delete(s, hash, statFails, removeFails).0
    case Wipe(course) => Clear(cfg, s, course).0
    case Restart => Reopen(s)
  }

  ghost function Run(cfg: Config, capacity: int, s: State, steps: seq<NodeStep>, i: nat): State
    requires i <= |steps|
    decreases |steps| - i
  {
    if i == |steps| then s else Run(cfg, capacity, Apply(cfg, capacity, s, steps[i]), steps, i + 1)
  }

  const EMPTY: State := State(map[], 0)

  /** Random nonces have the cipher's size, and a file just renamed can be looked at. */
  predicate Regular(cfg: Config, step: NodeStep) {
    step.Store? ==> NonceFits(cfg.cipher, step.nonce) && !step.faults.statNew
  }

  /** Also the size of a file about to go can be looked up, and clearing is all or nothing. */
  predicate Smooth(step: NodeStep) {
    match step
    case Store(_, _, f) => !f.statOld
    case Drop(_, statFails, _) => !statFails
    case Wipe(course) => course.Clears? || course.WalkFails?
    case Restart => true
  }

  /** Regular steps, with declared lengths if so asked. */
  ghost predicate RunsWell(cfg: Config, steps: seq<NodeStep>, declared: bool) {
    forall j :: 0 <= j < |steps| ==>
      Regular(cfg, steps[j]) && (declared && steps[j].Store? ==> steps[j].request.declared >= 0)
  }

  lemma StepCovers(cfg: Config, capacity: int, s: State, step: NodeStep)
    requires Covers(s) && Regular(cfg, step)
    ensures var s' := Apply(cfg, capacity, s, step); Covers(s') && (Exact(s) && Smooth(step) ==> Exact(s'))
  {
    match step
    case Store(r, nonce, f) => PutCount(cfg, s, r.hash, BodyOf(r), nonce, Reading(r, f));
    case Drop(hash, statFails, removeFails) => DeleteCount(s, hash, statFails, removeFails);
    case Wipe(course) =>
      var s' := Clear(cfg, s, course).0;
      forall p ensures p in s'.files ==> p in s.files && s'.files[p] == s.files[p] { ClearRemoves(cfg, s, course, p); }
      FewerFilesSmallerScan(s'.files, s.files);
      ZeroTotal(ChunkSizes(map[]));
    case Restart =>
  }

  lemma StepGenuine(cfg: Config, capacity: int, s: State, step: NodeStep)
    requires ValidConfig(cfg) && Genuine(cfg, s) && Regular(cfg, step)
    ensures Genuine(cfg, Apply(cfg, capacity, s, step))
  {
    match step
    case Store(r, nonce, f) => PutGenuine(cfg, s, r.hash, BodyOf(r), nonce, Reading(r, f));
    case Drop(hash, statFails, removeFails) => FewerFilesGenuine(cfg, s, Delete(s, hash, statFails, removeFails).0);
    case Wipe(course) =>
      var s' := Clear(cfg, s, course).0;
      forall p ensures p in s'.files ==> p in s.files && s'.files[p] == s.files[p] { ClearRemoves(cfg, s, course, p); }
      FewerFilesGenuine(cfg, s, s');
    case Restart =>
  }

  /** In every run the count covers the disk and every chunk file opens to the data that names it. */
  lemma {:induction false} RunCovers(cfg: Config, capacity: int, s: State, steps: seq<NodeStep>, i: nat)
    requires ValidConfig(cfg) && i <= |steps| && Covers(s) && Genuine(cfg, s)
    requires forall j :: 0 <= j < |steps| ==> Regular(cfg, steps[j])
    ensures Covers(Run(cfg, capacity, s, steps, i)) && Genuine(cfg, Run(cfg, capacity, s, steps, i))
    decreases |steps| - i
  {
    if i < |steps| {
      StepCovers(cfg, capacity, s, steps[i]);
      StepGenuine(cfg, capacity, s, steps[i]);
      RunCovers(cfg, capacity, Apply(cfg, capacity, s, steps[i]), steps, i + 1);
    }
  }

  /** From a restart on, the count is exact for as long as no lookup fails and no clearing stops halfway. */
  lemma {:induction false} RunExact(cfg: Config, capacity: int, s: State, steps: seq<NodeStep>, i: nat)
    requires i <= |steps| && Exact(s)
    requires forall j :: 0 <= j < |steps| ==> Regular(cfg, steps[j]) && Smooth(steps[j])
    ensures Exact(Run(cfg, capacity, s, steps, i))
    decreases |steps| - i
  {
    if i < |steps| {
      StepCovers(cfg, capacity, s, steps[i]);
      RunExact(cfg, capacity, Apply(cfg, capacity, s, steps[i]), steps, i + 1);
    }
  }

  lemma StartCovers(cfg: Config)
    ensures Exact(EMPTY) && Covers(EMPTY) && Genuine(cfg, EMPTY)
  {
    ZeroTotal(ChunkSizes(map[]));
  }

  // ---- Reserved capacity ---------------------------------------------------------------

  /** What a chunk file takes beyond its data. */
  function Overhead(c: Cipher): nat {
    if c.Plain? then 0 else c.nonceSize + c.tagSize
  }

  ghost predicate EmptyIsUnique(cfg: Config) {
    forall d: Bytes :: cfg.digest(d) == cfg.digest([]) ==> d == []
  }

  /** The bytes on the disk that no gate looked at: the sealed empty chunk. */
  function Ungated(cfg: Config, s: State): nat {
    var path := Path(HashBytes(cfg, []));
    if cfg.cipher.Plain? || path.None? then 0 else SizeAt(s.files, path.value, false)
  }

  ghost predicate Within(cfg: Config, capacity: nat, s: State) {
    && Ungated(cfg, s) <= Overhead(cfg.cipher)
    && Scan(s.files) <= capacity + Overhead(cfg.cipher) + Ungated(cfg, s)
  }

  lemma OnDiskSize(c: Cipher, nonce: Bytes, data: Bytes)
    requires ValidCipher(c) && NonceFits(c, nonce)
    ensures |OnDisk(c, nonce, data)| == |data| + Overhead(c)
  {
  }

  lemma PutWithin(cfg: Config, capacity: nat, s: State, r: Request, nonce: Bytes, f: Faults)
    requires ValidConfig(cfg) && NonceFits(cfg.cipher, nonce) && (cfg.cipher.Sealed? ==> EmptyIsUnique(cfg))
    requires Covers(s) && Within(cfg, capacity, s) && r.declared >= 0
    ensures Within(cfg, capacity, PutChunk(cfg, capacity, s, r, nonce, f).0)
  {
    var (s', reply) := PutChunk(cfg, capacity, s, r, nonce, f);
    var body, f1, empty := BodyOf(r), Reading(r, f), HashBytes(cfg, []);
    if reply.Answered? {
      HashHasPath(cfg, []);
      PutCases(cfg, s, r.hash, body, nonce, f1);
      SameEntry(s.files, empty);
      SameEntry(s'.files, empty);
      if !reply.result.Accepted? {
        SameChunksSameScan(s'.files, s.files);
      } else {
        PutAccepts(cfg, s, r.hash, body, nonce, f1);
        OnDiskSize(cfg.cipher, nonce, body);
        PathsByDigest(cfg, body, []);
        PathIsChunkName(r.hash);
        ScanCommitted(s.files, Path(r.hash).value, OnDisk(cfg.cipher, nonce, body));
        CommittedChunks(s.files, Path(r.hash).value, OnDisk(cfg.cipher, nonce, body));
      }
    }
  }

  lemma FewerFilesWithin(cfg: Config, capacity: nat, s: State, s': State)
    requires ValidConfig(cfg) && Within(cfg, capacity, s)
    requires forall p :: p in s'.files ==> p in s.files && s'.files[p] == s.files[p]
    ensures Within(cfg, capacity, s')
  {
    HashHasPath(cfg, []);
    var path := Path(HashBytes(cfg, [])).value;
    PathIsChunkName(HashBytes(cfg, []));
    FewerFilesSmallerScan(s'.files, s.files);
    if path in s.files && path !in s'.files {
      ScanWithout(s.files, path);
      FewerFilesSmallerScan(s'.files, s.files - {path});
    }
  }

  lemma StepWithin(cfg: Config, capacity: nat, s: State, step: NodeStep)
    requires ValidConfig(cfg) && (cfg.cipher.Sealed? ==> EmptyIsUnique(cfg)) && Regular(cfg, step)
    requires Covers(s) && Within(cfg, capacity, s) && (step.Store? ==> step.request.declared >= 0)
    ensures Within(cfg, capacity, Apply(cfg, capacity, s, step))
  {
    match step
    case Store(r, nonce, f) => PutWithin(cfg, capacity, s, r, nonce, f);
    case Drop(hash, statFails, removeFails) =>
      FewerFilesWithin(cfg, capacity, s, Delete(s, hash, statFails, removeFails).0);
    case Wipe(course) =>
      var s' := Clear(cfg, s, course).0;
      forall p ensures p in s'.files ==> p in s.files && s'.files[p] == s.files[p] { ClearRemoves(cfg, s, course, p); }
      FewerFilesWithin(cfg, capacity, s, s');
    case Restart =>
  }

  /** In every run of uploads with a declared length the gate confines the store: a plain one to its capacity. */
  lemma {:induction false} RunWithin(cfg: Config, capacity: nat, s: State, steps: seq<NodeStep>, i: nat)
    requires ValidConfig(cfg) && (cfg.cipher.Sealed? ==> EmptyIsUnique(cfg)) && i <= |steps|
    requires Covers(s) && Within(cfg, capacity, s)
    requires RunsWell(cfg, steps, true)
    ensures Scan(Run(cfg, capacity, s, steps, i).files) <= capacity + 2 * Overhead(cfg.cipher)
    decreases |steps| - i
  {
    if i < |steps| {
      StepCovers(cfg, capacity, s, steps[i]);
      StepWithin(cfg, capacity, s, steps[i]);
      RunWithin(cfg, capacity, Apply(cfg, capacity, s, steps[i]), steps, i + 1);
    }
  }

  lemma StartWithin(cfg: Config, capacity: nat)
    ensures Within(cfg, capacity, EMPTY)
  {
    ZeroTotal(ChunkSizes(map[]));
  }

  const NO_FAULTS: Faults := Faults(false, false, false, false, false, false, false, false, false, [])

  /** The request that stores the data, with or without its length. */
  function RequestFor(cfg: Config, data: Bytes, declared: bool): Request {
    Request(HashBytes(cfg, data), if declared then |data| else -1, data, false)
  }

  /** A first chunk's file ends up on the disk whole. */
  lemma FirstChunk(cfg: Config, capacity: nat, r: Request, nonce: Bytes)
    requires ValidConfig(cfg) && NonceFits(cfg.cipher, nonce) && !Breaks(r) && r.declared <= capacity
    requires r.hash == HashBytes(cfg, BodyOf(r))
    ensures Scan(PutChunk(cfg, capacity, EMPTY, r, nonce, NO_FAULTS).0.files) == |BodyOf(r)| + Overhead(cfg.cipher)
  {
    StartCovers(cfg);
    PutAccepts(cfg, EMPTY, r.hash, BodyOf(r), nonce, Reading(r, NO_FAULTS));
    PutCases(cfg, EMPTY, r.hash, BodyOf(r), nonce, Reading(r, NO_FAULTS));
    PathIsChunkName(r.hash);
    OnDiskSize(cfg.cipher, nonce, BodyOf(r));
    ScanCommitted(map[], Path(r.hash).value, OnDisk(cfg.cipher, nonce, BodyOf(r)));
  }

  /** The gate counts plain bytes: sealed, a chunk of exactly the capacity passes and overfills it. */
  lemma SealedExceedsCapacity(cfg: Config, data: Bytes, nonce: Bytes)
    requires ValidConfig(cfg) && NonceFits(cfg.cipher, nonce) && Overhead(cfg.cipher) > 0
    ensures var r := RequestFor(cfg, data, true);
            Scan(PutChunk(cfg, |data|, EMPTY, r, nonce, NO_FAULTS).0.files) > |data|
  {
    FirstChunk(cfg, |data|, RequestFor(cfg, data, true), nonce);
  }

  /** Without a declared length the gate does not look at all. */
  lemma UndeclaredExceedsCapacity(cfg: Config, capacity: nat, data: Bytes, nonce: Bytes)
    requires ValidConfig(cfg) && NonceFits(cfg.cipher, nonce) && |data| > capacity
    ensures var r := RequestFor(cfg, data, false);
            Scan(PutChunk(cfg, capacity, EMPTY, r, nonce, NO_FAULTS).0.files) > capacity
  {
    FirstChunk(cfg, capacity, RequestFor(cfg, data, false), nonce);
  }

  /** In every run of regular steps, with declared lengths if so asked, the disk stays within the capacity. */
  ghost predicate KeepsCapacity(cfg: Config, capacity: nat, declared: bool) {
    forall steps: seq<NodeStep> :: RunsWell(cfg, steps, declared) ==>
      Scan(Run(cfg, capacity, EMPTY, steps, 0).files) <= capacity
  }

  function Zeros(n: nat): (z: Bytes)
    ensures |z| == n
  {
    seq(n, i => 0)
  }

  function ZeroNonce(c: Cipher): (nonce: Bytes)
    ensures NonceFits(c, nonce)
  {
    if c.Sealed? then Zeros(c.nonceSize) else []
  }

  lemma {:induction false} RunOne(cfg: Config, capacity: int, s: State, step: NodeStep)
    ensures Run(cfg, capacity, s, [step], 0) == Apply(cfg, capacity, s, step)
  {
    assert Run(cfg, capacity, Apply(cfg, capacity, s, step), [step], 1) == Apply(cfg, capacity, s, step);
  }

  lemma {:induction false} RunTwo(cfg: Config, capacity: int, s: State, a: NodeStep, b: NodeStep)
    ensures Run(cfg, capacity, s, [a, b], 0) == Apply(cfg, capacity, Apply(cfg, capacity, s, a), b)
  {
    var t := Apply(cfg, capacity, s, a);
    assert Run(cfg, capacity, Apply(cfg, capacity, t, b), [a, b], 2) == Apply(cfg, capacity, t, b);
    assert Run(cfg, capacity, t, [a, b], 1) == Apply(cfg, capacity, t, b);
  }

  lemma OneChunkExceeds(cfg: Config, capacity: nat, data: Bytes, declared: bool)
    requires ValidConfig(cfg) && (declared ==> |data| <= capacity) && |data| + Overhead(cfg.cipher) > capacity
    ensures !KeepsCapacity(cfg, capacity, declared)
  {
    var r, nonce := RequestFor(cfg, data, declared), ZeroNonce(cfg.cipher);
    var step := Store(r, nonce, NO_FAULTS);
    FirstChunk(cfg, capacity, r, nonce);
    RunOne(cfg, capacity, EMPTY, step);
    assert RunsWell(cfg, [step], declared);
  }

  /**
   * The gate keeps the capacity in every run exactly if chunk files take nothing beyond their data and
   * every upload declares its length.
   */
  lemma GateKeepsCapacityIff(cfg: Config, capacity: nat, declared: bool)
    requires ValidConfig(cfg) && (cfg.cipher.Sealed? ==> EmptyIsUnique(cfg))
    ensures KeepsCapacity(cfg, capacity, declared) <==> declared && Overhead(cfg.cipher) == 0
  {
    if !declared {
      OneChunkExceeds(cfg, capacity, Zeros(capacity + 1), false);
    } else if Overhead(cfg.cipher) > 0 {
      OneChunkExceeds(cfg, capacity, Zeros(capacity), true);
    } else {
      StartCovers(cfg);
      StartWithin(cfg, capacity);
      forall steps: seq<NodeStep> | RunsWell(cfg, steps, true)
        ensures Scan(Run(cfg, capacity, EMPTY, steps, 0).files) <= capacity
      {
        RunWithin(cfg, capacity, EMPTY, steps, 0);
      }
    }
  }

  /** An upload that is accepted without a length fits exactly if its file, for the one it replaces, does. */
  lemma UndeclaredFitsIff(cfg: Config, capacity: nat, s: State, r: Request, nonce: Bytes, f: Faults)
    requires ValidConfig(cfg) && NonceFits(cfg.cipher, nonce) && r.declared < 0 && !r.broken
    requires Unhindered(cfg.cipher, f) && r.hash == HashBytes(cfg, r.sent)
    ensures Path(r.hash).Some?
    ensures Scan(PutChunk(cfg, capacity, s, r, nonce, f).0.files) <= capacity
       <==> Scan(s.files) + |r.sent| + Overhead(cfg.cipher) <= capacity + SizeAt(s.files, Path(r.hash).value, false)
  {
    PutAccepts(cfg, s, r.hash, r.sent, nonce, Reading(r, f));
    PutCases(cfg, s, r.hash, r.sent, nonce, Reading(r, f));
    PathIsChunkName(r.hash);
    OnDiskSize(cfg.cipher, nonce, r.sent);
    ScanCommitted(s.files, Path(r.hash).value, OnDisk(cfg.cipher, nonce, r.sent));
  }

  /** The bound is reached: a chunk of exactly the capacity, then the empty chunk, which no gate looks at. */
  lemma BoundIsReached(cfg: Config, capacity: nat)
    requires ValidConfig(cfg) && EmptyIsUnique(cfg) && capacity > 0
    ensures exists steps: seq<NodeStep> :: RunsWell(cfg, steps, true)
              && Scan(Run(cfg, capacity, EMPTY, steps, 0).files) == capacity + 2 * Overhead(cfg.cipher)
  {
    var data, nonce := Zeros(capacity), ZeroNonce(cfg.cipher);
    var full := Store(RequestFor(cfg, data, true), nonce, NO_FAULTS);
    var empty := Store(RequestFor(cfg, [], true), nonce, NO_FAULTS);
    FullThenEmpty(cfg, data, nonce);
    RunTwo(cfg, capacity, EMPTY, full, empty);
    assert RunsWell(cfg, [full, empty], true);
  }

  lemma FullThenEmpty(cfg: Config, data: Bytes, nonce: Bytes)
    requires ValidConfig(cfg) && EmptyIsUnique(cfg) && NonceFits(cfg.cipher, nonce) && data != []
    ensures var s := Sent(cfg, |data|, EMPTY, data, nonce);
            Scan(Sent(cfg, |data|, s, [], nonce).files) == |data| + 2 * Overhead(cfg.cipher)
  {
    FirstChunk(cfg, |data|, RequestFor(cfg, data, true), nonce);
    EmptyOnTop(cfg, |data|, data, nonce);
  }

  /** The store once the data was sent with its length and without faults. */
  function Sent(cfg: Config, capacity: nat, s: State, data: Bytes, nonce: Bytes): State {
    PutChunk(cfg, capacity, s, RequestFor(cfg, data, true), nonce, NO_FAULTS).0
  }

  lemma EmptyOnTop(cfg: Config, capacity: nat, data: Bytes, nonce: Bytes)
    requires ValidConfig(cfg) && EmptyIsUnique(cfg) && NonceFits(cfg.cipher, nonce) && 0 < |data| <= capacity
    ensures var s := Sent(cfg, capacity, EMPTY, data, nonce);
            Scan(Sent(cfg, capacity, s, [], nonce).files) == Scan(s.files) + Overhead(cfg.cipher)
  {
    var s := Sent(cfg, capacity, EMPTY, data, nonce);
    EmptyNotStored(cfg, capacity, data, nonce);
    StoredEmpty(cfg, capacity, s, nonce);
  }

  lemma StoredEmpty(cfg: Config, capacity: nat, s: State, nonce: Bytes)
    requires ValidConfig(cfg) && NonceFits(cfg.cipher, nonce)
    requires Path(HashBytes(cfg, [])).Some? ==> Path(HashBytes(cfg, [])).value !in s.files
    ensures Scan(Sent(cfg, capacity, s, [], nonce).files) == Scan(s.files) + Overhead(cfg.cipher)
  {
    var r := RequestFor(cfg, [], true);
    PutAccepts(cfg, s, r.hash, [], nonce, Reading(r, NO_FAULTS));
    PutCases(cfg, s, r.hash, [], nonce, Reading(r, NO_FAULTS));
    PathIsChunkName(r.hash);
    OnDiskSize(cfg.cipher, nonce, []);
    ScanCommitted(s.files, Path(r.hash).value, OnDisk(cfg.cipher, nonce, []));
  }

  lemma EmptyNotStored(cfg: Config, capacity: nat, data: Bytes, nonce: Bytes)
    requires ValidConfig(cfg) && EmptyIsUnique(cfg) && NonceFits(cfg.cipher, nonce) && 0 < |data| <= capacity
    ensures Path(HashBytes(cfg, [])).Some?
    ensures Path(HashBytes(cfg, [])).value !in Sent(cfg, capacity, EMPTY, data, nonce).files
  {
    var r := RequestFor(cfg, data, true);
    HashHasPath(cfg, []);
    PathsByDigest(cfg, data, []);
    PutAccepts(cfg, EMPTY, r.hash, data, nonce, Reading(r, NO_FAULTS));
    PutCases(cfg, EMPTY, r.hash, data, nonce, Reading(r, NO_FAULTS));
  }

  /** If the new file's size cannot be looked up its bytes go uncounted and later counts are clamped. */
  lemma LostSizeIsClamped(cfg: Config, data: Bytes)
    requires ValidConfig(cfg) && cfg.cipher.Plain? && data != []
    ensures var hash := HashBytes(cfg, data);
            var s := Put(cfg, EMPTY, hash, data, [], NO_FAULTS.(statNew := true)).0;
            !Covers(s) && Path(hash).Some? && s.used - SizeAt(s.files, Path(hash).value, false) < 0
  {
    var hash := HashBytes(cfg, data);
    StartCovers(cfg);
    PutAccepts(cfg, EMPTY, hash, data, [], NO_FAULTS.(statNew := true));
    PutCases(cfg, EMPTY, hash, data, [], NO_FAULTS.(statNew := true));
    PathIsChunkName(hash);
    ScanCommitted(map[], Path(hash).value, data);
  }
}
