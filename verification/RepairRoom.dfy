/**
 * Repairs are planned for all chunks up front, by the free space of that moment: exactly when the
 * nodes can take what was planned for them.
 */
module RepairRoom {
  import opened Convergence
  import opened Invariants
  import opened Model
  import opened OnePass
  import opened Operations
  import opened Ordering
  import opened PassOutcome
  import P = Placement
  import opened Queries
  import opened Runs
  import opened Scheduler
  import opened Types
  import U = UploadOutcome
  import opened Uploads

  // ---- What copies do to the disks -----------------------------------------------------

  /** The chunk is new on these disks but for those that had it, and takes its size there. */
  ghost predicate Stocks(w: World, w': World, h: Hash, size: nat, nodes: set<NodeId>) {
    && (forall n, g :: Holds(w', n, g) <==> Holds(w, n, g) || (g == h && n in nodes))
    && (forall n :: StoreOf(w', n).used == StoreOf(w, n).used + if n in nodes && !Holds(w, n, h) then size else 0)
  }

  lemma StocksTrans(a: World, b: World, c: World, h: Hash, size: nat, s: set<NodeId>, t: set<NodeId>)
    requires Stocks(a, b, h, size, s) && Stocks(b, c, h, size, t) && s !! t
    ensures Stocks(a, c, h, size, s + t)
  {
  }

  /** Whoever has the chunk has it with this size. */
  ghost predicate TrueCopies(w: World, h: Hash, size: nat) {
    forall n :: Holds(w, n, h) ==> |StoreOf(w, n).chunks[h]| == size
  }

  lemma SoundCopies(env: Env, w: World, h: Hash, data: Bytes)
    requires Sound(env, w) && Injective(env) && env.digest(data) == h
    ensures TrueCopies(w, h, |data|)
  {
    forall n | Holds(w, n, h) ensures StoreOf(w, n).chunks[h] == data {
      assert n in w.stores && StoreSound(env, w.stores[n]);
    }
  }

  lemma WrittenStocks(w: World, w': World, n: NodeId, h: Hash, data: Bytes)
    requires TrueCopies(w, h, |data|) && w'.stores == w.stores[n := Write(StoreOf(w, n), h, data)]
    ensures Stocks(w, w', h, |data|, {n}) && TrueCopies(w', h, |data|)
  {
  }

  lemma SameStocks(w: World, w': World, h: Hash, size: nat)
    requires TrueCopies(w, h, size) && w'.stores == w.stores
    ensures Stocks(w, w', h, size, {}) && TrueCopies(w', h, size)
  {
  }

  lemma CopyStocks(env: Env, w: World, n: NodeId, h: Hash, data: Bytes, size: nat)
    requires Obedient(env, w.calls) && MayCopy(w, n, h) && TrueCopies(w, h, |data|)
    ensures var (w', ok) := CopyTo(env, w, n, h, data, size);
            Stocks(w, w', h, |data|, if ok then {n} else {}) && TrueCopies(w', h, |data|)
  {
    CopyEffect(env, w, n, h, data, size);
    PutEffect(env, w, n, h, data);
    Obeyed(env, w.calls, w.calls, n);
    var (w', ok) := CopyTo(env, w, n, h, data, size);
    if ok { WrittenStocks(w, w', n, h, data); } else { SameStocks(w, w', h, |data|); }
  }

  /** What is stored for the candidates from the ith on. */
  ghost predicate StockedAs(w: World, w': World, t: RepairTask, answers: seq<bool>, i: nat)
    requires |answers| == |t.candidates|
  {
    Stocks(w, w', t.hash, t.size, Gone(t.candidates, answers, i, t.missing))
  }

  lemma {:induction false} StockNone(w: World, t: RepairTask, answers: seq<bool>, i: nat)
    requires i <= |t.candidates| == |answers| && (i == |t.candidates| || Yes(answers, i) >= t.missing)
    ensures StockedAs(w, w, t, answers, i)
  {
    GoneNone(t.candidates, answers, i, t.missing);
  }

  lemma {:induction false} StockNext(w: World, w1: World, w2: World, t: RepairTask, answers: seq<bool>, i: nat)
    requires i < |t.candidates| == |answers| && Yes(answers, i) < t.missing && NoDuplicates(t.candidates)
    requires Stocks(w, w1, t.hash, t.size, if answers[i] then {t.candidates[i]} else {})
    requires StockedAs(w1, w2, t, answers, i + 1)
    ensures StockedAs(w, w2, t, answers, i)
  {
    var now := if answers[i] then {t.candidates[i]} else {};
    var later := Gone(t.candidates, answers, i + 1, t.missing);
    GoneNext(t.candidates, answers, i, t.missing);
    assert now !! later;
    StocksTrans(w, w1, w2, t.hash, t.size, now, later);
    assert now + later == Gone(t.candidates, answers, i, t.missing);
  }

  ghost predicate StockReady(env: Env, w: World, t: RepairTask, data: Bytes, first: nat, i: nat, copied: nat,
                             answers: seq<bool>)
  {
    && SpreadReady(env, w, t, data, first, i, copied, answers) && |data| == t.size
    && Obedient(env, w.calls) && TrueCopies(w, t.hash, t.size)
  }

  lemma {:induction false} StockReadyNext(env: Env, w: World, t: RepairTask, data: Bytes, first: nat, i: nat,
                                          copied: nat, answers: seq<bool>)
    requires StockReady(env, w, t, data, first, i, copied, answers) && i < |t.candidates|
    ensures var (w1, ok) := CopyTo(env, w, t.candidates[i], t.hash, data, t.size);
            && StockReady(env, w1, t, data, first, i + 1, if ok then copied + 1 else copied, answers)
            && Stocks(w, w1, t.hash, t.size, if answers[i] then {t.candidates[i]} else {})
  {
    SpreadReadyNext(env, w, t, data, first, i, copied, answers);
    CopyStocks(env, w, t.candidates[i], t.hash, data, t.size);
  }

  lemma {:induction false} StockReadyNow(env: Env, w: World, t: RepairTask, data: Bytes, first: nat, i: nat,
                                         copied: nat, answers: seq<bool>)
    requires StockReady(env, w, t, data, first, i, copied, answers)
    ensures i <= |t.candidates| == |answers| && copied == Yes(answers, i) && NoDuplicates(t.candidates)
  {
  }

  lemma {:induction false} SpreadStocks(env: Env, w: World, t: RepairTask, data: Bytes, first: nat, i: nat, copied: nat,
                                        answers: seq<bool>, ready: (World, nat, nat) -> bool)
    requires |answers| == |t.candidates| && NoDuplicates(t.candidates) && i <= |t.candidates| && ready(w, i, copied)
    requires forall x: World, k: nat, c: nat :: ready(x, k, c) <==> StockReady(env, x, t, data, first, k, c, answers)
    ensures StockedAs(w, SpreadFrom(env, w, t, data, i, copied), t, answers, i)
    decreases |t.candidates| - i
  {
    StockReadyNow(env, w, t, data, first, i, copied, answers);
    if i == |t.candidates| || copied >= t.missing {
      StockNone(w, t, answers, i);
    } else {
      var (w1, ok) := CopyTo(env, w, t.candidates[i], t.hash, data, t.size);
      StockReadyNext(env, w, t, data, first, i, copied, answers);
      SpreadStocks(env, w1, t, data, first, i + 1, if ok then copied + 1 else copied, answers, ready);
      StockNext(w, w1, SpreadFrom(env, w, t, data, i, copied), t, answers, i);
    }
  }

  // ---- One task ------------------------------------------------------------------------

  /** The task's chunk can be fetched from its first source; the task plans for what it can. */
  ghost predicate Doable(env: Env, x: World, t: RepairTask) {
    && Physical(env, x) && Obedient(env, x.calls) && Injective(env) && TrueSize(env, t)
    && RepairReady(x, t, 0, 0) && t.missing > 0 && |t.candidates| <= t.missing
    && t.sources != [] && t.sources[0] in Active(x, t.hash)
  }

  lemma {:induction false} SourceAnswers(env: Env, x: World, t: RepairTask)
    requires Physical(env, x) && Obedient(env, x.calls) && t.sources != [] && t.sources[0] in Active(x, t.hash)
    ensures FetchFromAny(env, x, t.sources, 0, t.hash).0 == Called(x)
    ensures Fetched(env, x, t).Some? && env.digest(Fetched(env, x, t).value) == t.hash
  {
    var n := t.sources[0];
    assert Loc(t.hash, n) in x.locs;
    assert Holds(x, Loc(t.hash, n).node, Loc(t.hash, n).hash);
    assert StoreSound(env, x.stores[n]);
    Obeyed(env, x.calls, x.calls, n);
  }

  lemma StocksAfterCall(x: World, w': World, h: Hash, size: nat, nodes: set<NodeId>)
    requires Stocks(Called(x), w', h, size, nodes)
    ensures Stocks(x, w', h, size, nodes)
  {
    assert forall n :: StoreOf(Called(x), n) == StoreOf(x, n);
  }

  /** What the task does to the disks when the spreading is all that matters. */
  lemma {:induction false} SpreadFromStart(env: Env, x: World, t: RepairTask, data: Bytes)
    requires RepairReady(x, t, 0, 0) && Obedient(env, x.calls) && |data| == t.size && TrueCopies(x, t.hash, t.size)
    ensures var answers := Acceptances(env, x, x.calls, t.candidates, t.hash, data);
            StockedAs(x, SpreadFrom(env, x, t, data, 0, 0), t, answers, 0)
  {
    var answers, first := Acceptances(env, x, x.calls, t.candidates, t.hash, data), x.calls;
    ReadyPlaces(x, t);
    var ready := (y: World, k: nat, c: nat) => StockReady(env, y, t, data, first, k, c, answers);
    SpreadStocks(env, x, t, data, first, 0, 0, answers, ready);
  }

  lemma {:induction false} RepairStocks(env: Env, x: World, t: RepairTask)
    requires Doable(env, x, t)
    ensures Stocks(x, Repair(env, x, t), t.hash, t.size, Reached(env, x, t))
  {
    SourceAnswers(env, x, t);
    var data := Fetched(env, x, t).value;
    if t.candidates == [] {
      NothingOffered(t, Offers(env, x, t, data));
    } else {
      SoundCopies(env, x, t.hash, data);
      RepairReadyAfterCalls(x, Called(x), t);
      SpreadFromStart(env, Called(x), t, data);
      RepairSpreads(env, x, t, Called(x), data);
      StocksAfterCall(x, Repair(env, x, t), t.hash, t.size, Reached(env, x, t));
    }
  }

  /** All candidates took the chunk, and they are as many as copies were missing. */
  ghost predicate Full(env: Env, x: World, t: RepairTask) {
    Willing(env, x, t) == t.missing
  }

  lemma {:induction false} YesToAll(answers: seq<bool>, i: nat)
    requires i <= |answers| && Yes(answers, i) == i
    ensures forall j :: 0 <= j < i ==> answers[j]
  {
    if i > 0 { YesToAll(answers, i - 1); }
  }

  lemma {:induction false} AllGo(nodes: seq<NodeId>, answers: seq<bool>, limit: nat)
    requires |nodes| == |answers| <= limit && Yes(answers, |answers|) == |answers|
    ensures Gone(nodes, answers, 0, limit) == Elements(nodes)
  {
    YesToAll(answers, |answers|);
    forall n | n in nodes ensures n in Gone(nodes, answers, 0, limit) {
      var j :| 0 <= j < |nodes| && nodes[j] == n;
      assert Goes(answers, j, limit);
    }
  }

  lemma {:induction false} FullReaches(env: Env, x: World, t: RepairTask)
    requires Doable(env, x, t) && Full(env, x, t)
    ensures Reached(env, x, t) == Elements(t.candidates) && |t.candidates| == t.missing
  {
    SourceAnswers(env, x, t);
    AllGo(t.candidates, Offers(env, x, t, Fetched(env, x, t).value), t.missing);
  }

  /** The node's disk has room for the chunk. */
  ghost predicate DiskRoom(env: Env, x: World, t: RepairTask, n: NodeId) {
    t.size == 0 || StoreOf(x, n).used + t.size <= env.capacity(n)
  }

  lemma {:induction false} OffersAre(env: Env, x: World, t: RepairTask, data: Bytes)
    requires Obedient(env, x.calls) && env.digest(data) == t.hash && |data| == t.size
    ensures var offers := Acceptances(env, Called(x), Called(x).calls, t.candidates, t.hash, data);
            forall j :: 0 <= j < |offers| ==> (offers[j] <==> DiskRoom(env, x, t, t.candidates[j]))
  {
    forall j | 0 <= j < |t.candidates|
      ensures U.Takes(env, Called(x), Called(x).calls + j, t.candidates[j], t.hash, data)
         <==> DiskRoom(env, x, t, t.candidates[j])
    {
      Obeyed(env, x.calls, Called(x).calls + j, t.candidates[j]);
    }
  }

  lemma {:induction false} YesIff(answers: seq<bool>)
    ensures Yes(answers, |answers|) == |answers| <==> forall j :: 0 <= j < |answers| ==> answers[j]
  {
    if Yes(answers, |answers|) == |answers| {
      YesToAll(answers, |answers|);
    } else if forall j :: 0 <= j < |answers| ==> answers[j] {
      AllYes(answers, |answers|);
    }
  }

  /** With obedient nodes a task ends with all its copies exactly if its plan is long enough and fits. */
  lemma {:induction false} FullIff(env: Env, x: World, t: RepairTask)
    requires Doable(env, x, t)
    ensures Full(env, x, t)
       <==> |t.candidates| == t.missing && forall n :: n in t.candidates ==> DiskRoom(env, x, t, n)
  {
    SourceAnswers(env, x, t);
    var data := Fetched(env, x, t).value;
    var offers := Offers(env, x, t, data);
    OffersAre(env, x, t, data);
    YesIff(offers);
    assert forall n :: n in t.candidates <==> exists j :: 0 <= j < |t.candidates| && t.candidates[j] == n;
  }

  // ---- The list of tasks ---------------------------------------------------------------

  /** The bytes that the first k tasks bring to the node if each does all that was planned. */
  ghost function Load(w: World, tasks: seq<RepairTask>, k: nat, n: NodeId): nat
    requires k <= |tasks|
  {
    if k == 0 then 0 else
      Load(w, tasks, k - 1, n)
      + if n in tasks[k - 1].candidates && !Holds(w, n, tasks[k - 1].hash) then tasks[k - 1].size else 0
  }

  /** When it is task k's turn, the node has taken what was planned for it before and has room for this chunk. */
  ghost predicate FitsInTurn(env: Env, w: World, tasks: seq<RepairTask>, k: nat, n: NodeId)
    requires k < |tasks|
  {
    n in tasks[k].candidates && tasks[k].size > 0 ==>
      StoreOf(w, n).used + Load(w, tasks, k, n) + tasks[k].size <= env.capacity(n)
  }

  /** The task is planned for as many nodes as copies are missing, and each has room for it in turn. */
  ghost predicate WorksInTurn(env: Env, w: World, tasks: seq<RepairTask>, k: nat)
    requires k < |tasks|
  {
    |tasks[k].candidates| == tasks[k].missing && forall n :: FitsInTurn(env, w, tasks, k, n)
  }

  /** Enough nodes for each task, and room on each node for all that is planned for it. */
  ghost predicate PlanWorks(env: Env, w: World, tasks: seq<RepairTask>) {
    forall k: nat :: k < |tasks| ==> WorksInTurn(env, w, tasks, k)
  }

  /** The disks carry what the first k tasks planned, and nothing of the chunks to come. */
  ghost predicate Loaded(w: World, x: World, tasks: seq<RepairTask>, k: nat)
    requires k <= |tasks|
  {
    && (forall n :: StoreOf(x, n).used == StoreOf(w, n).used + Load(w, tasks, k, n))
    && (forall n, j :: k <= j < |tasks| ==> (Holds(x, n, tasks[j].hash) <==> Holds(w, n, tasks[j].hash)))
  }

  /** Task k's turn has come and everything before went as planned. */
  ghost predicate AtTurn(env: Env, w: World, x: World, tasks: seq<RepairTask>, k: nat) {
    && k <= |tasks| && DistinctRepairs(tasks) && Loaded(w, x, tasks, k)
    && forall j :: k <= j < |tasks| ==> Doable(env, x, tasks[j])
  }

  lemma {:induction false} OtherStaysDoable(env: Env, x: World, x1: World, t: RepairTask, other: RepairTask)
    requires x1 == Repair(env, x, t) && Doable(env, x, t) && Doable(env, x, other) && t.hash != other.hash
    ensures Doable(env, x1, other)
  {
    RepairMends(env, false, x, t);
    RepairReadyElsewhere(x, x1, t.hash, other);
  }

  lemma LoadedNext(w: World, x: World, x1: World, tasks: seq<RepairTask>, k: nat)
    requires k < |tasks| && DistinctRepairs(tasks) && Loaded(w, x, tasks, k)
    requires Stocks(x, x1, tasks[k].hash, tasks[k].size, Elements(tasks[k].candidates))
    ensures Loaded(w, x1, tasks, k + 1)
  {
  }

  lemma {:induction false} NextTurn(env: Env, w: World, x: World, x1: World, tasks: seq<RepairTask>, k: nat)
    requires k < |tasks| && AtTurn(env, w, x, tasks, k) && x1 == Repair(env, x, tasks[k]) && Full(env, x, tasks[k])
    ensures AtTurn(env, w, x1, tasks, k + 1)
  {
    RepairStocks(env, x, tasks[k]);
    FullReaches(env, x, tasks[k]);
    LoadedNext(w, x, x1, tasks, k);
    forall j | k + 1 <= j < |tasks| ensures Doable(env, x1, tasks[j]) {
      OtherStaysDoable(env, x, x1, tasks[k], tasks[j]);
    }
  }

  ghost predicate FullInTurn(env: Env, w: World, tasks: seq<RepairTask>, k: nat)
    requires k < |tasks|
  {
    Full(env, RepairUpTo(env, w, tasks, k), tasks[k])
  }

  lemma {:induction false} FullAtTurn(env: Env, w: World, x: World, tasks: seq<RepairTask>, k: nat)
    requires k < |tasks| && AtTurn(env, w, x, tasks, k)
    ensures Full(env, x, tasks[k]) <==> WorksInTurn(env, w, tasks, k)
  {
    var t := tasks[k];
    FullIff(env, x, t);
    forall n | n in t.candidates ensures DiskRoom(env, x, t, n) <==> FitsInTurn(env, w, tasks, k, n) {
      assert StoreOf(x, n).used == StoreOf(w, n).used + Load(w, tasks, k, n);
    }
  }

  ghost predicate HoldsInTurn(env: Env, w: World, tasks: seq<RepairTask>, j: nat, full: (World, nat) -> bool) {
    j < |tasks| && full(RepairUpTo(env, w, tasks, j), j)
  }

  /** If a task done in full leads to the next turn, turns come as long as all tasks are. */
  lemma {:induction false} TurnComes(env: Env, w: World, tasks: seq<RepairTask>, k: nat, turn: (World, nat) -> bool,
                                     full: (World, nat) -> bool)
    requires k <= |tasks| && turn(w, 0)
    requires forall x: World, j: nat ::
               j < |tasks| && turn(x, j) && full(x, j) ==> turn(Repair(env, x, tasks[j]), j + 1)
    requires forall j: nat :: j < k ==> HoldsInTurn(env, w, tasks, j, full)
    ensures turn(RepairUpTo(env, w, tasks, k), k)
  {
    if k > 0 {
      TurnComes(env, w, tasks, k - 1, turn, full);
      assert HoldsInTurn(env, w, tasks, k - 1, full);
    }
  }

  /** If in its turn a task is done in full exactly when it works, all are exactly when all work. */
  lemma {:induction false} AllInTurn(env: Env, w: World, tasks: seq<RepairTask>, k: nat, turn: (World, nat) -> bool,
                                     full: (World, nat) -> bool, works: nat -> bool)
    requires k <= |tasks| && turn(w, 0)
    requires forall x: World, j: nat ::
               j < |tasks| && turn(x, j) && full(x, j) ==> turn(Repair(env, x, tasks[j]), j + 1)
    requires forall x: World, j: nat :: j < |tasks| && turn(x, j) ==> (full(x, j) <==> works(j))
    ensures (forall j: nat :: j < k ==> HoldsInTurn(env, w, tasks, j, full)) <==> (forall j: nat :: j < k ==> works(j))
  {
    if k > 0 {
      AllInTurn(env, w, tasks, k - 1, turn, full, works);
      if forall j: nat :: j < k - 1 ==> works(j) {
        TurnComes(env, w, tasks, k - 1, turn, full);
        assert HoldsInTurn(env, w, tasks, k - 1, full) <==> works(k - 1);
      }
    }
  }

  lemma {:induction false} TurnsFollow(env: Env, w: World, tasks: seq<RepairTask>, turn: (World, nat) -> bool,
                                       full: (World, nat) -> bool)
    requires forall x: World, j: nat :: turn(x, j) <==> AtTurn(env, w, x, tasks, j)
    requires forall x: World, j: nat :: full(x, j) <==> j < |tasks| && Full(env, x, tasks[j])
    ensures forall x: World, j: nat ::
              j < |tasks| && turn(x, j) && full(x, j) ==> turn(Repair(env, x, tasks[j]), j + 1)
  {
    forall x: World, j: nat | j < |tasks| && turn(x, j) && full(x, j) ensures turn(Repair(env, x, tasks[j]), j + 1) {
      NextTurn(env, w, x, Repair(env, x, tasks[j]), tasks, j);
    }
  }

  lemma {:induction false} TurnsDecide(env: Env, w: World, tasks: seq<RepairTask>, turn: (World, nat) -> bool,
                                       full: (World, nat) -> bool, works: nat -> bool)
    requires forall x: World, j: nat :: turn(x, j) <==> AtTurn(env, w, x, tasks, j)
    requires forall x: World, j: nat :: full(x, j) <==> j < |tasks| && Full(env, x, tasks[j])
    requires forall j: nat :: works(j) <==> j < |tasks| && WorksInTurn(env, w, tasks, j)
    ensures forall x: World, j: nat :: j < |tasks| && turn(x, j) ==> (full(x, j) <==> works(j))
  {
    forall x: World, j: nat | j < |tasks| && turn(x, j) ensures full(x, j) <==> works(j) {
      FullAtTurn(env, w, x, tasks, j);
    }
  }

  lemma {:induction false} FullAre(env: Env, w: World, tasks: seq<RepairTask>, full: (World, nat) -> bool)
    requires forall x: World, j: nat :: full(x, j) <==> j < |tasks| && Full(env, x, tasks[j])
    ensures (forall j: nat :: j < |tasks| ==> HoldsInTurn(env, w, tasks, j, full))
       <==> (forall j: nat :: j < |tasks| ==> FullInTurn(env, w, tasks, j))
  {
    forall j: nat | j < |tasks|
      ensures HoldsInTurn(env, w, tasks, j, full) <==> FullInTurn(env, w, tasks, j)
    {
    }
  }

  lemma {:induction false} WorkAre(env: Env, w: World, tasks: seq<RepairTask>, works: nat -> bool)
    requires forall j: nat :: works(j) <==> j < |tasks| && WorksInTurn(env, w, tasks, j)
    ensures (forall j: nat :: j < |tasks| ==> works(j)) <==> PlanWorks(env, w, tasks)
  {
  }

  lemma {:induction false} AllTurns(env: Env, w: World, tasks: seq<RepairTask>, turn: (World, nat) -> bool,
                                    full: (World, nat) -> bool, works: nat -> bool)
    requires turn(w, 0)
    requires forall x: World, j: nat :: turn(x, j) <==> AtTurn(env, w, x, tasks, j)
    requires forall x: World, j: nat :: full(x, j) <==> j < |tasks| && Full(env, x, tasks[j])
    requires forall j: nat :: works(j) <==> j < |tasks| && WorksInTurn(env, w, tasks, j)
    ensures (forall j: nat :: j < |tasks| ==> HoldsInTurn(env, w, tasks, j, full))
       <==> (forall j: nat :: j < |tasks| ==> works(j))
  {
    TurnsFollow(env, w, tasks, turn, full);
    TurnsDecide(env, w, tasks, turn, full, works);
    AllInTurn(env, w, tasks, |tasks|, turn, full, works);
  }

  /** Every task does all it is meant to exactly if the plan works. */
  lemma {:induction false} AllFullIff(env: Env, w: World, tasks: seq<RepairTask>)
    requires AtTurn(env, w, w, tasks, 0)
    ensures (forall k: nat :: k < |tasks| ==> FullInTurn(env, w, tasks, k)) <==> PlanWorks(env, w, tasks)
  {
    var turn := (x: World, k: nat) => AtTurn(env, w, x, tasks, k);
    var full := (x: World, k: nat) => k < |tasks| && Full(env, x, tasks[k]);
    var works := (k: nat) => k < |tasks| && WorksInTurn(env, w, tasks, k);
    AllTurns(env, w, tasks, turn, full, works);
    FullAre(env, w, tasks, full);
    WorkAre(env, w, tasks, works);
  }

  // ---- The repair phase and the pass ---------------------------------------------------

  /** Everybody is online and obeys, the accounting holds, and no chunk in use is lost; room is not asked for. */
  ghost predicate Quiet(env: Env, w: World) {
    && DeletesAnswered(env) && Accounted(env, w) && Injective(env) && RefsGenuine(env, w) && Obedient(env, w.calls)
    && (forall n :: n in w.nodes ==> Online(w, n)) && Replicated(w) && Durable(w)
  }

  /** So are the clusters that passes are proved to settle. */
  lemma CalmIsQuiet(env: Env, w: World)
    requires Calm(env, w)
    ensures Quiet(env, w)
  {
  }

  lemma SteadyKeepsQuiet(env: Env, w: World, w': World)
    requires Quiet(env, w) && Steady(env, true, w, w')
    ensures Quiet(env, w')
  {
    FrameKeepsUse(w, w');
    forall n | n in w'.nodes ensures Online(w', n) {
      assert Online(w, n) && n in OnlineNodes(w);
      assert n in OnlineNodes(w');
    }
  }

  lemma QuietSource(env: Env, w: World, t: RepairTask)
    requires Quiet(env, w) && IsRepairTask(w, t)
    ensures t.sources != [] && t.sources[0] in Active(w, t.hash)
  {
    assert Located(w, t.hash);
    var n :| Loc(t.hash, n) in w.locs;
    assert Loc(t.hash, n).node in w.nodes;
    assert n in Active(w, t.hash) && n in t.sources;
    assert t.sources[0] in t.sources;
  }

  lemma QuietDoable(env: Env, w: World, t: RepairTask)
    requires Quiet(env, w) && IsRepairTask(w, t) && TrueSize(env, t) && RepairReady(w, t, 0, 0)
    ensures Doable(env, w, t)
  {
    QuietSource(env, w, t);
    P.PlanOrdered(w, t.hash, t.size, t.missing, map[]);
  }

  lemma {:induction false} QuietStart(env: Env, w: World, tasks: seq<RepairTask>)
    requires Quiet(env, w) && DistinctRepairs(tasks)
    requires forall j :: 0 <= j < |tasks| ==>
               IsRepairTask(w, tasks[j]) && TrueSize(env, tasks[j]) && RepairReady(w, tasks[j], 0, 0)
    ensures AtTurn(env, w, w, tasks, 0)
  {
    forall j | 0 <= j < |tasks| ensures Doable(env, w, tasks[j]) { QuietDoable(env, w, tasks[j]); }
  }

  /** A task ends with its chunk's desired copies exactly if it was done in full. */
  lemma {:induction false} EndsIff(env: Env, w: World, v: World, w': World, t: RepairTask)
    requires IsRepairTask(w, t) && RepairedAs(env, w, v, w', t)
    ensures |Active(w', t.hash)| == Desired(w, t.hash) <==> Full(env, v, t)
  {
    P.PlanOrdered(w, t.hash, t.size, t.missing, map[]);
  }

  lemma {:induction false} TasksEndIff(env: Env, w: World, w': World, tasks: seq<RepairTask>)
    requires forall i :: 0 <= i < |tasks| ==> IsRepairTask(w, tasks[i]) && RepairedInTurn(env, w, w', tasks, i)
    ensures (forall i: nat :: i < |tasks| ==> |Active(w', tasks[i].hash)| == Desired(w, tasks[i].hash))
       <==> (forall i: nat :: i < |tasks| ==> FullInTurn(env, w, tasks, i))
  {
    forall i: nat | i < |tasks|
      ensures |Active(w', tasks[i].hash)| == Desired(w, tasks[i].hash) <==> FullInTurn(env, w, tasks, i)
    {
      assert IsRepairTask(w, tasks[i]) && RepairedInTurn(env, w, w', tasks, i);
      EndsIff(env, w, RepairUpTo(env, w, tasks, i), w', tasks[i]);
    }
  }

  /** The listed chunks all end with exactly their desired copies. */
  ghost predicate AllEnd(w: World, w': World, tasks: seq<RepairTask>) {
    forall i: nat :: i < |tasks| ==> |Active(w', tasks[i].hash)| == Desired(w, tasks[i].hash)
  }

  /**
   * All chunks listed for repair end with exactly their desired copies if and only if each is planned
   * for as many nodes as it misses copies and every node's disk has room for what is planned for it.
   */
  lemma {:induction false} RepairEndsIff(env: Env, w: World, tasks: seq<RepairTask>)
    requires Quiet(env, w) && tasks == ReplicationTasks(w, TASK_LIMIT)
    ensures AllEnd(w, ReplicateMissingCopies(env, w), tasks) <==> PlanWorks(env, w, tasks)
  {
    ReplicationTasksAre(w, TASK_LIMIT);
    RepairTasksReady(w);
    RepairSizesTrue(env, w);
    QuietStart(env, w, tasks);
    AllFullIff(env, w, tasks);
    RepairPhaseOutcome(env, w);
    TasksEndIff(env, w, ReplicateMissingCopies(env, w), tasks);
  }

  lemma IdleIsSettled(env: Env, w: World)
    requires Grounded(w) && Orphans(w) == {} && Overfull(w) == {} && Underfull(w) == {}
    ensures Settled(env, w)
  {
    NothingLeft(w);
    DistanceZero(w);
    NoWorkIff(w, TASK_LIMIT);
    NoOrphansNoCleanup(env, w);
    NoExcessNoPrune(env, w);
    NoDeficitNoRepair(env, w);
  }

  lemma {:induction false} RepairSettlesIff(env: Env, w: World, w': World, tasks: seq<RepairTask>)
    requires Quiet(env, w) && tasks == ReplicationTasks(w, TASK_LIMIT) && w' == ReplicateMissingCopies(env, w)
    requires Orphans(w) == {} && Overfull(w) == {} && |Underfull(w)| <= TASK_LIMIT
    ensures Settled(env, w') <==> PlanWorks(env, w, tasks)
  {
    RepairEndsIff(env, w, tasks);
    ReplicatePhase(env, true, w);
    SteadyKeepsQuiet(env, w, w');
    if AllEnd(w, w', tasks) { EndedIsSettled(env, w, w', tasks); }
    if Settled(env, w') { SettledEnds(env, w, w', tasks); }
  }

  lemma {:induction false} EndedIsSettled(env: Env, w: World, w': World, tasks: seq<RepairTask>)
    requires Steady(env, true, w, w') && Grounded(w) && Grounded(w') && AllEnd(w, w', tasks)
    requires tasks == ReplicationTasks(w, TASK_LIMIT)
    requires Orphans(w) == {} && Overfull(w) == {} && |Underfull(w)| <= TASK_LIMIT
    ensures Settled(env, w')
  {
    ReplicationTasksAre(w, TASK_LIMIT);
    RepairedAll(env, w, w', tasks);
    SteadyShrinks(env, w, w');
    IdleIsSettled(env, w');
  }

  lemma {:induction false} SettledEnds(env: Env, w: World, w': World, tasks: seq<RepairTask>)
    requires Steady(env, true, w, w') && Grounded(w) && Settled(env, w') && tasks == ReplicationTasks(w, TASK_LIMIT)
    ensures AllEnd(w, w', tasks)
  {
    ReplicationTasksAre(w, TASK_LIMIT);
    FrameKeepsUse(w, w');
    forall i: nat | i < |tasks| ensures |Active(w', tasks[i].hash)| == Desired(w, tasks[i].hash) {
      assert IsRepairTask(w, tasks[i]);
    }
  }

  /**
   * One pass over a quiet cluster whose lists are not cut off settles it if and only if the repair plans,
   * all made before the first copy, work out: enough nodes for each chunk, and on each node room for
   * everything planned for it.
   */
  lemma {:induction false} OnePassIff(env: Env, w: World)
    requires Quiet(env, w) && ShortLists(w)
    ensures var w2 := BeforeRepair(env, w);
            Settled(env, RunReplicationOnce(env, w)) <==> PlanWorks(env, w2, ReplicationTasks(w2, TASK_LIMIT))
  {
    var w1, w2 := CleanupOrphanChunks(env, w), BeforeRepair(env, w);
    CleanupPhase(env, w);
    SteadyKeepsQuiet(env, w, w1);
    ShorterLists(env, w, w1);
    PrunePhase(env, w1);
    SteadyKeepsQuiet(env, w1, w2);
    ShorterLists(env, w1, w2);
    ObeyedCleanup(env, w);
    ObeyedPruneEnds(env, w1, w2);
    SteadyShrinks(env, w1, w2);
    RepairSettlesIff(env, w2, RunReplicationOnce(env, w), ReplicationTasks(w2, TASK_LIMIT));
  }
}
