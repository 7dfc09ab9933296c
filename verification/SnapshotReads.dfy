/**
 * Reads at a timestamp. A partition serves a read only up to its safe timestamp; the result of such a read never
 * changes afterwards, whatever the partition goes on to apply.
 */
module SnapshotReads {
  import opened Options
  import opened TxnLocks
  import opened MvccStore
  import opened TxnManager
  import opened PartitionSafety
  import opened PartitionRuns

  /** A prepared or decided transaction that holds a lock in conflict with one of the read's locks. */
  predicate Blocks(p: Partition, id: TxnId, locks: seq<Lock>) {
    Active(p, id) && !ListsCompatible(locks, p.prepared[id].locks)
  }

  /** The safe timestamp: below every conflicting transaction and no higher than the partition's own. */
  ghost predicate IsSafe(p: Partition, locks: seq<Lock>, safe: nat, conflicting: bool) {
    (conflicting <==> exists id :: Blocks(p, id, locks)) &&
    safe <= p.maxTimestamp &&
    (forall id :: Blocks(p, id, locks) ==> safe < p.prepared[id].timestamp) &&
    (safe == p.maxTimestamp || exists id :: Blocks(p, id, locks) && safe == p.prepared[id].timestamp - 1)
  }

  method GetSafeTimestamp(p: Partition, high: nat, txn: seq<Action>) returns (safe: nat, conflicting: bool)
    requires Shape(p, high)
    ensures IsSafe(p, LocksOf(txn), safe, conflicting)
  {
    var locks := BuildLocks(txn);
    var lowest: Option<nat> := None;
    var ids := p.prepared.Keys;
    while ids != {}
      invariant ids <= p.prepared.Keys
      invariant lowest.None? <==> forall id :: id in p.prepared.Keys - ids ==> !Blocks(p, id, locks)
      invariant lowest.Some? ==> exists id :: Blocks(p, id, locks) && lowest.value == p.prepared[id].timestamp
      invariant lowest.Some? ==>
                  forall id :: id in p.prepared.Keys - ids && Blocks(p, id, locks) ==>
                    lowest.value <= p.prepared[id].timestamp
    {
      var id :| id in ids;
      ids := ids - {id};
      assert EntryOk(p, id, high);
      if Blocks(p, id, locks) {
        var t := p.prepared[id].timestamp;
        lowest := if lowest.Some? && lowest.value <= t then lowest else Some(t);
      }
    }
    if lowest.None? {
      return p.maxTimestamp, false;
    }
    ghost var id :| Blocks(p, id, locks) && lowest.value == p.prepared[id].timestamp;
    assert EntryOk(p, id, high);
    return if p.maxTimestamp <= lowest.value - 1 then p.maxTimestamp else lowest.value - 1, true;
  }

  // ---- stability

  /** Nothing that may still commit can change what the locks cover at or below `t`. */
  ghost predicate Sealed(w: World, locks: seq<Lock>, t: nat) {
    Shape(w.p, w.high) && t <= w.high &&
    (forall id :: Active(w.p, id) ==> ListsCompatible(w.p.prepared[id].locks, locks) || t < w.p.prepared[id].timestamp)
  }

  lemma {:induction false} SafeIsSealed(w: World, locks: seq<Lock>, safe: nat, conflicting: bool, t: nat)
    requires Shape(w.p, w.high) && w.p.maxTimestamp <= w.high
    requires IsSafe(w.p, locks, safe, conflicting) && t <= safe
    ensures Sealed(w, locks, t)
  {
    forall id | Active(w.p, id)
      ensures ListsCompatible(w.p.prepared[id].locks, locks) || t < w.p.prepared[id].timestamp
    {
      if !Blocks(w.p, id, locks) {
        ListsCompatibleSymmetric(locks, w.p.prepared[id].locks);
      }
    }
  }

  lemma {:induction false} AutocommitSealed(w: World, base: Db, txn: Txn, ts: nat, locks: seq<Lock>, t: nat)
    requires Sealed(w, locks, t) && ts > w.high && txn.id !in w.p.status && Admit(w.p, base, txn, ts).None?
    ensures Sealed(Step(w, base, Autocommit(txn, ts)), locks, t)
    ensures SamePast(locks, w.p.db, Step(w, base, Autocommit(txn, ts)).p.db, t)
  {
    AutocommitShape(w.p, w.high, base, txn, ts);
    PutAllPast(w.p.db, txn.actions, ts, locks, t);
  }

  lemma {:induction false} CommitSealed(w: World, base: Db, id: TxnId, ts: nat, locks: seq<Lock>, t: nat)
    requires Sealed(w, locks, t) && Active(w.p, id) && CommitAllowed(w.p.status[id], w.p.prepared[id], ts) && ts > 0
    ensures Sealed(Step(w, base, Commit(id, ts)), locks, t)
    ensures SamePast(locks, w.p.db, Step(w, base, Commit(id, ts)).p.db, t)
  {
    var x := w.p.prepared[id];
    CommitShape(w.p, w.high, id, ts);
    assert EntryOk(w.p, id, w.high);
    if t < x.timestamp {
      PutAllPast(w.p.db, x.txn.actions, ts, locks, t);
    } else {
      PutAllForeign(w.p.db, x.txn.actions, ts, locks, t);
    }
  }

  lemma {:induction false} PrepareSealed(w: World, base: Db, txn: Txn, ts: nat, locks: seq<Lock>, t: nat)
    requires Sealed(w, locks, t) && ts > w.high && txn.id !in w.p.status && Admit(w.p, base, txn, ts).None?
    ensures Sealed(Step(w, base, Prepare(txn, ts)), locks, t)
  {
    PrepareShape(w.p, Step(w, base, Prepare(txn, ts)).p, w.high, txn, ts);
  }

  lemma {:induction false} RetreatSealed(w: World, w': World, locks: seq<Lock>, t: nat)
    requires Sealed(w, locks, t) && Retreat(w.p, w'.p, w.high) && w'.high == w.high
    ensures Sealed(w', locks, t) && SamePast(locks, w.p.db, w'.p.db, t)
  {
    forall id | Active(w'.p, id)
      ensures ListsCompatible(w'.p.prepared[id].locks, locks) || t < w'.p.prepared[id].timestamp
    {
      assert Active(w.p, id) && Held(w'.p, id);
    }
  }

  lemma {:induction false} UnchangedSealed(w: World, base: Db, c: Command, locks: seq<Lock>, t: nat)
    requires Sealed(w, locks, t) && Stamped(c) && Apply(w.p, base, c).0 == w.p
    ensures Sealed(Step(w, base, c), locks, t)
  {
    var w' := Step(w, base, c);
    forall id | id in w'.p.prepared ensures EntryOk(w'.p, id, w'.high) {
      assert EntryOk(w.p, id, w.high);
    }
  }

  /** Any command leaves a sealed snapshot as it is. */
  lemma {:induction false} StepSealed(w: World, base: Db, c: Command, locks: seq<Lock>, t: nat)
    requires Sealed(w, locks, t) && Stamped(c) && Fresh(w, c)
    ensures Sealed(Step(w, base, c), locks, t)
    ensures SamePast(locks, w.p.db, Step(w, base, c).p.db, t)
  {
    match c {
      case Autocommit(txn, ts) =>
        if txn.id !in w.p.status && Admit(w.p, base, txn, ts).None? {
          AutocommitSealed(w, base, txn, ts, locks, t);
        } else {
          UnchangedSealed(w, base, c, locks, t);
        }
      case Prepare(txn, ts) =>
        if txn.id !in w.p.status && Admit(w.p, base, txn, ts).None? {
          PrepareSealed(w, base, txn, ts, locks, t);
        } else {
          UnchangedSealed(w, base, c, locks, t);
        }
      case Commit(id, ts) =>
        if id in w.p.prepared {
          assert EntryOk(w.p, id, w.high);
        }
        if Active(w.p, id) && CommitAllowed(w.p.status[id], w.p.prepared[id], ts) {
          CommitSealed(w, base, id, ts, locks, t);
        } else {
          UnchangedSealed(w, base, c, locks, t);
        }
      case Abort(id, ts) =>
        AbortRetreats(w.p, w.high, id, ts);
        RetreatSealed(w, Step(w, base, c), locks, t);
      case MarkTimedout(id, ts, release) =>
        TimeoutRetreats(w.p, w.high, id, ts, release);
        RetreatSealed(w, Step(w, base, c), locks, t);
      case StoreDecision(id, ts, d) =>
        DecisionRetreats(w.p, w.high, id, ts, d);
        RetreatSealed(w, Step(w, base, c), locks, t);
    }
  }

  lemma {:induction false} SamePastTransitive(locks: seq<Lock>, a: Db, b: Db, c: Db, t: nat)
    requires SamePast(locks, a, b, t) && SamePast(locks, b, c, t)
    ensures SamePast(locks, a, c, t)
  {
  }

  lemma {:induction false} CommandsSealed(w: World, base: Db, cs: seq<Command>, locks: seq<Lock>, t: nat)
    requires Sealed(w, locks, t) && AllStamped(cs) && FreshCommands(w, base, cs)
    ensures Sealed(RunCommands(w, base, cs), locks, t)
    ensures SamePast(locks, w.p.db, RunCommands(w, base, cs).p.db, t)
  {
    if cs != [] {
      var front := cs[..|cs| - 1];
      CommandsSealed(w, base, front, locks, t);
      var v := RunCommands(w, base, front);
      StepSealed(v, base, cs[|cs| - 1], locks, t);
      SamePastTransitive(locks, w.p.db, v.p.db, RunCommands(w, base, cs).p.db, t);
    }
  }

  lemma {:induction false} BatchSealed(w: World, b: Batch, oldest: nat, locks: seq<Lock>, t: nat)
    requires Sealed(w, locks, t)
    requires AllStamped(Sequence(b)) && FreshCommands(w, w.p.db, Sequence(b))
    ensures Sealed(RunBatch(w, b, oldest), locks, t)
    ensures SamePast(locks, w.p.db, RunBatch(w, b, oldest).p.db, t)
  {
    CommandsSealed(w, w.p.db, Sequence(b), locks, t);
    var v := RunCommands(w, w.p.db, Sequence(b));
    var f := v.(p := Finish(v.p));
    FinishRetreats(v.p, v.high);
    RetreatSealed(v, f, locks, t);
    var m := f.(p := f.p.(maxTimestamp := b.maxTimestamp));
    RetimeRetreats(f.p, f.high, b.maxTimestamp);
    RetreatSealed(f, m, locks, t);
    var c := m.(p := Cleanup(m.p, oldest));
    CleanupRetreats(m.p, m.high, oldest);
    RetreatSealed(m, c, locks, t);
    HigherSealed(c, Max(v.high, b.maxTimestamp), locks, t);
  }

  lemma {:induction false} HigherSealed(w: World, high: nat, locks: seq<Lock>, t: nat)
    requires Sealed(w, locks, t) && high >= w.high
    ensures Sealed(w.(high := high), locks, t)
  {
    forall id | id in w.p.prepared ensures EntryOk(w.p, id, high) {
      assert EntryOk(w.p, id, w.high);
    }
  }

  lemma {:induction false} LogSealed(w: World, log: seq<LogEntry>, locks: seq<Lock>, t: nat)
    requires Sealed(w, locks, t) && FreshLog(w, log)
    ensures SamePast(locks, w.p.db, RunLog(w, log).p.db, t)
    decreases |log|
  {
    if log != [] {
      var v := RunBatch(w, log[0].batch, log[0].oldest);
      BatchSealed(w, log[0].batch, log[0].oldest, locks, t);
      LogSealed(v, log[1..], locks, t);
      SamePastTransitive(locks, w.p.db, v.p.db, RunLog(w, log).p.db, t);
    }
  }

  /** The read of `txn` at `t` is one the partition serves. */
  ghost predicate Served(w: World, txn: seq<Action>, t: nat) {
    Shape(w.p, w.high) && w.p.maxTimestamp <= w.high &&
    exists safe, conflicting :: IsSafe(w.p, LocksOf(txn), safe, conflicting) && t <= safe
  }

  /**
   * Main result: a read at or below the safe timestamp finds, for every address its locks cover, the versions and so
   * the value that address will have at that timestamp for ever, over any log the partition applies later.
   */
  lemma {:induction false} SnapshotsAreStable(w: World, log: seq<LogEntry>, txn: seq<Action>, t: nat, a: Address)
    requires Served(w, txn, t) && FreshLog(w, log) && ListCovers(LocksOf(txn), a)
    ensures SameUpTo(w.p.db, RunLog(w, log).p.db, a, t)
    ensures Get(RunLog(w, log).p.db, a, t) == Get(w.p.db, a, t)
  {
    var safe, conflicting :| IsSafe(w.p, LocksOf(txn), safe, conflicting) && t <= safe;
    SafeIsSealed(w, LocksOf(txn), safe, conflicting, t);
    LogSealed(w, log, LocksOf(txn), t);
    GetDependsOnPast(w.p.db, RunLog(w, log).p.db, a, t);
  }

  /**
   * The reads of a committed transaction are served at its commit timestamp, whenever they are fetched: what its locks
   * cover there is settled once it has committed.
   */
  lemma {:induction false} CommittedReadsStable(w: World, log: seq<LogEntry>, d: Done, a: Address)
    requires Inv(w) && d in w.history && FreshLog(w, log) && ListCovers(LocksOf(d.actions), a)
    ensures SameUpTo(w.p.db, RunLog(w, log).p.db, a, d.commit)
    ensures Get(RunLog(w, log).p.db, a, d.commit) == Get(w.p.db, a, d.commit)
  {
    var locks := LocksOf(d.actions);
    assert Settled(w.p.db, w.high, d);
    forall id | Active(w.p, id)
      ensures ListsCompatible(w.p.prepared[id].locks, locks) || d.commit < w.p.prepared[id].timestamp
    {
      assert Apart(d, w.p.prepared[id]);
      ListsCompatibleSymmetric(locks, w.p.prepared[id].locks);
    }
    LogSealed(w, log, locks, d.commit);
    GetDependsOnPast(w.p.db, RunLog(w, log).p.db, a, d.commit);
  }

  // ---- whether the safe timestamp keeps up with what has been committed

  function MaxOf(cs: seq<Command>): (m: nat)
    ensures forall i :: 0 <= i < |cs| ==> cs[i].timestamp <= m
    ensures cs != [] ==> exists i :: 0 <= i < |cs| && cs[i].timestamp == m
  {
    if cs == [] then 0
    else
      var front := MaxOf(cs[..|cs| - 1]);
      assert forall i :: 0 <= i < |cs| - 1 ==> cs[..|cs| - 1][i] == cs[i];
      Max(front, cs[|cs| - 1].timestamp)
  }

  /** The commands that the leader stamps from its own clock when it seals the batch; commits bring their own. */
  function OwnStamped(b: Batch): seq<Command> {
    b.autocommit + b.prepare + b.abort + b.storeDecision + b.markTimedout
  }

  /** The timestamp a sealed batch carries, given what read requests asked it to reach. */
  function BatchMax(b: Batch, asked: nat): nat {
    Max(asked, Max(MaxOf(OwnStamped(b)), MaxOf(b.commit)))
  }

  /**
   * The partition's timestamp is overwritten by each batch, so it may go back. It does not exactly when the batch
   * holds a command stamped by the leader, or a commit or read request that reaches the old value.
   */
  lemma {:induction false} MaxTimestampExact(p: Partition, b: Batch, asked: nat, oldest: nat)
    requires AllStamped(Sequence(b)) && b.maxTimestamp == BatchMax(b, asked)
    requires forall i :: 0 <= i < |OwnStamped(b)| ==> OwnStamped(b)[i].timestamp > p.maxTimestamp
    ensures ApplyBatch(p, b, oldest).maxTimestamp >= p.maxTimestamp <==>
            OwnStamped(b) != [] || asked >= p.maxTimestamp ||
            exists i :: 0 <= i < |b.commit| && b.commit[i].timestamp >= p.maxTimestamp
  {
    if OwnStamped(b) == [] && b.commit == [] {
      assert MaxOf(OwnStamped(b)) == 0 && MaxOf(b.commit) == 0;
    }
  }

  /** Stored at a covered address. */
  ghost predicate Concerns(p: Partition, locks: seq<Lock>, v: Version) {
    v in p.db && ListCovers(locks, v.address)
  }

  const OTHER := Action(0, Upsert(16, [2], [9]))
  const FIRST := Txn(TxnId(0, 1, 1), [OTHER], [])
  const SECOND := Txn(TxnId(0, 1, 2), [INSERT], [])

  /** A partition with one prepared transaction on one key and a later committed insert of another. */
  function Contended(): World {
    World(Partition(0,
                    map[FIRST.id := Status(2, Prepared, []), SECOND.id := Status(10, Committed, [])],
                    map[FIRST.id := Entry(FIRST, 2, LocksOf([OTHER]), false, None)],
                    10,
                    map[Version(KEY, 10) := Some([7])]),
          10, [Done([INSERT], 10, true)], map[FIRST.id := true])
  }

  lemma {:induction false} OtherFacts()
    ensures LocksOf([OTHER]) == [Lock(0, OnKey(KeyLock(16, [2], true)))]
    ensures forall db: Db, ts: nat :: PutAll(db, [OTHER], ts) == db[Version(Address(16, [2]), ts) := Some([9])]
  {
    assert [OTHER][..0] == [];
  }

  function Alone(c: Command): Batch {
    match c
    case Prepare(_, ts) => Batch([], [], [], [], [c], [], ts)
    case Commit(_, ts) => Batch([], [], [c], [], [], [], ts)
    case _ => Batch([], [], [], [c], [], [], c.timestamp)
  }

  lemma {:induction false} AloneRuns(w: World, c: Command)
    requires Stamped(c) && (c.Prepare? || c.Commit? || c.Autocommit?)
    ensures Sequence(Alone(c)) == [c]
    ensures RunCommands(w, w.p.db, [c]) == Step(w, w.p.db, c)
    ensures Fresh(w, c) ==> FreshCommands(w, w.p.db, [c])
  {
    OneCommand(w, w.p.db, c);
  }

  lemma {:induction false} PreparedFirst() returns (w: World)
    ensures FreshCommands(Start(0), map[], Sequence(Alone(Prepare(FIRST, 2))))
    ensures w == RunBatch(Start(0), Alone(Prepare(FIRST, 2)), 0)
    ensures w == World(Partition(0, map[FIRST.id := Status(2, Prepared, [])],
                                 map[FIRST.id := Entry(FIRST, 2, LocksOf([OTHER]), false, None)], 2, map[]),
                       2, [], map[FIRST.id := true])
  {
    AloneRuns(Start(0), Prepare(FIRST, 2));
    FirstStep();
    w := RunBatch(Start(0), Alone(Prepare(FIRST, 2)), 0);
    var v := Step(Start(0), map[], Prepare(FIRST, 2));
    NothingToDo(v.p);
    NothingToDo(v.p.(maxTimestamp := 2));
  }

  lemma {:induction false} FirstStep()
    ensures Step(Start(0), map[], Prepare(FIRST, 2)) ==
            World(Partition(0, map[FIRST.id := Status(2, Prepared, [])],
                            map[FIRST.id := Entry(FIRST, 2, LocksOf([OTHER]), false, None)], 0, map[]), 2, [],
                  map[FIRST.id := true])
  {
    assert CheckHolds(map[], OTHER, 1);
    assert FirstInvalid(map[], [OTHER], 1) == None;
  }

  lemma {:induction false} NothingToDo(p: Partition)
    requires forall id :: id in p.status ==> p.status[id].timestamp > 0
    requires forall id :: id in p.prepared && id in p.status ==> !p.status[id].state.Committed?
    ensures Finish(p) == p && Cleanup(p, 0) == p
  {
    assert Finish(p).prepared == p.prepared;
    assert (set id | id in p.status && Forgettable(p, id, 0)) == {};
  }

  lemma {:induction false} InsertAdmitted(p: Partition)
    requires p.prepared == map[FIRST.id := Entry(FIRST, 2, LocksOf([OTHER]), false, None)]
    ensures Admit(p, map[], SECOND, 10) == None
  {
    OtherFacts();
    InsertFacts(9, map[]);
    assert LockFree(p, LocksOf([INSERT])[0]);
  }

  lemma {:induction false} ThenInserted(w: World) returns (w': World)
    requires w == World(Partition(0, map[FIRST.id := Status(2, Prepared, [])],
                                  map[FIRST.id := Entry(FIRST, 2, LocksOf([OTHER]), false, None)], 2, map[]),
                        2, [], map[FIRST.id := true])
    ensures FreshCommands(w, w.p.db, Sequence(Alone(Autocommit(SECOND, 10))))
    ensures w' == RunBatch(w, Alone(Autocommit(SECOND, 10)), 0) == Contended()
  {
    var c := Autocommit(SECOND, 10);
    AloneRuns(w, c);
    InsertAdmitted(w.p);
    InsertFacts(10, map[]);
    w' := RunBatch(w, Alone(c), 0);
    var v := Step(w, w.p.db, c);
    assert v.p == Contended().p.(maxTimestamp := 2);
    NothingToDo(v.p);
    NothingToDo(Contended().p);
  }

  /** The partition after a batch with nothing but the commit of the prepared transaction. */
  function Retreated(): World {
    World(Partition(0,
                    map[FIRST.id := Status(2, Committed, []), SECOND.id := Status(10, Committed, [])],
                    map[FIRST.id := Entry(FIRST, 2, [], true, None)],
                    2,
                    map[Version(KEY, 10) := Some([7]), Version(Address(16, [2]), 2) := Some([9])]),
          10, [Done([INSERT], 10, true), Done([OTHER], 2, true)], map[FIRST.id := true])
  }

  lemma {:induction false} CommitRuns()
    ensures var w := Step(Contended(), Contended().p.db, Commit(FIRST.id, 2));
            w.p.status == Retreated().p.status && w.p.prepared == Contended().p.prepared && w.p.pid == 0 &&
            w.p.db == Retreated().p.db && w.high == 10 && w.history == Retreated().history &&
            w.current == Retreated().current
  {
    OtherFacts();
    assert Contended().current + map[] == Contended().current;
  }

  /** The end of that batch: the committed transaction lets go of its locks, and nothing is forgotten. */
  lemma {:induction false} CommitEnds(p: Partition)
    requires p.status == Retreated().p.status && p.prepared == Contended().p.prepared && p.pid == 0
    requires p.db == Retreated().p.db
    ensures Cleanup(Finish(p).(maxTimestamp := 2), 0) == Retreated().p
  {
    var f := Finish(p).(maxTimestamp := 2);
    assert f.prepared == Retreated().p.prepared;
    assert (set id | id in f.status && Forgettable(f, id, 0)) == {};
  }

  lemma {:induction false} ThenCommitted() returns (w': World)
    ensures FreshCommands(Contended(), Contended().p.db, Sequence(Alone(Commit(FIRST.id, 2))))
    ensures w' == RunBatch(Contended(), Alone(Commit(FIRST.id, 2)), 0) == Retreated()
  {
    var w, c := Contended(), Commit(FIRST.id, 2);
    AloneRuns(w, c);
    CommitRuns();
    CommitEnds(Step(w, w.p.db, c).p);
    w' := RunBatch(w, Alone(c), 0);
  }

  ghost predicate MissesCommitted(w: World, txn: seq<Action>, safe: nat, conflicting: bool) {
    IsSafe(w.p, LocksOf(txn), safe, conflicting) &&
    exists v :: Concerns(w.p, LocksOf(txn), v) && v.timestamp > safe
  }

  const READ_KEY := Action(0, Read(16, [1]))
  const READ_OTHER := Action(1, Read(16, [2]))

  const E1 := LogEntry(Alone(Prepare(FIRST, 2)), 0)
  const E2 := LogEntry(Alone(Autocommit(SECOND, 10)), 0)
  const E3 := LogEntry(Alone(Commit(FIRST.id, 2)), 0)

  lemma {:induction false} TheLogRuns()
    ensures FreshLog(Start(0), [E1, E2]) && RunLog(Start(0), [E1, E2]) == Contended()
    ensures FreshLog(Start(0), [E1, E2, E3]) && RunLog(Start(0), [E1, E2, E3]) == Retreated()
  {
    AloneRuns(Start(0), Prepare(FIRST, 2));
    var w1 := PreparedFirst();
    AloneRuns(w1, Autocommit(SECOND, 10));
    var w2 := ThenInserted(w1);
    AloneRuns(w2, Commit(FIRST.id, 2));
    var w3 := ThenCommitted();
    ReplayTwo(Start(0), E1, E2, w1, w2);
    ReplayThree(Start(0), E1, E2, E3, w1, w2, w3);
  }

  /**
   * The safe timestamp is what a read-only transaction reads at, and it can lie below a commit that was
   * acknowledged earlier: first because of an unrelated prepared transaction on another key that is read along,
   * then because a batch of commits took the partition's timestamp back.
   */
  lemma {:induction false} ReadOnlyMayMissCommits() returns (log: seq<LogEntry>)
    ensures |log| == 3 && FreshLog(Start(0), log) && FreshLog(Start(0), log[..2])
    ensures MissesCommitted(RunLog(Start(0), log[..2]), [READ_KEY, READ_OTHER], 1, true)
    ensures MissesCommitted(RunLog(Start(0), log), [READ_KEY], 2, false)
  {
    log := [E1, E2, E3];
    assert log[..2] == [E1, E2];
    TheLogRuns();
    WideReadBlocked();
    NarrowReadFree();
  }

  lemma {:induction false} ReplayTwo(w: World, e: LogEntry, f: LogEntry, w1: World, w2: World)
    requires FreshBatch(w, e.batch) && w1 == RunBatch(w, e.batch, e.oldest)
    requires FreshBatch(w1, f.batch) && w2 == RunBatch(w1, f.batch, f.oldest)
    ensures FreshLog(w, [e, f]) && RunLog(w, [e, f]) == w2
  {
    assert [e, f][1..] == [f];
    OneBatch(w1, f);
  }

  lemma {:induction false} ReplayThree(w: World, e: LogEntry, f: LogEntry, g: LogEntry, w1: World, w2: World, w3: World)
    requires FreshBatch(w, e.batch) && w1 == RunBatch(w, e.batch, e.oldest)
    requires FreshBatch(w1, f.batch) && w2 == RunBatch(w1, f.batch, f.oldest)
    requires FreshBatch(w2, g.batch) && w3 == RunBatch(w2, g.batch, g.oldest)
    ensures FreshLog(w, [e, f, g]) && RunLog(w, [e, f, g]) == w3
  {
    assert [e, f, g][1..] == [f, g];
    ReplayTwo(w1, f, g, w2, w3);
  }

  lemma {:induction false} ReadLocks()
    ensures LocksOf([READ_KEY]) == [Lock(0, OnKey(KeyLock(16, [1], false)))]
    ensures LocksOf([READ_KEY, READ_OTHER]) ==
            [Lock(0, OnKey(KeyLock(16, [1], false))), Lock(1, OnKey(KeyLock(16, [2], false)))]
  {
    assert [READ_KEY][..0] == [];
    assert [READ_KEY, READ_OTHER][..1] == [READ_KEY];
  }

  lemma {:induction false} WideReadBlocked()
    ensures MissesCommitted(Contended(), [READ_KEY, READ_OTHER], 1, true)
  {
    var p, locks := Contended().p, LocksOf([READ_KEY, READ_OTHER]);
    ReadLocks();
    OtherFacts();
    assert Active(p, FIRST.id);
    assert locks[1] in locks && p.prepared[FIRST.id].locks[0] in p.prepared[FIRST.id].locks;
    assert !CompatibleWith(locks[1], p.prepared[FIRST.id].locks[0]);
    assert Blocks(p, FIRST.id, locks);
    assert locks[0] in locks && Covers(locks[0], KEY);
    assert Version(KEY, 10) in p.db && Version(KEY, 10).address == KEY;
  }

  lemma {:induction false} NarrowReadFree()
    ensures MissesCommitted(Retreated(), [READ_KEY], 2, false)
  {
    var w, locks := Retreated(), LocksOf([READ_KEY]);
    ReadLocks();
    assert forall id :: !Active(w.p, id);
    assert locks[0] in locks && Covers(locks[0], KEY);
    assert Version(KEY, 10).address == KEY && Version(KEY, 10) in w.p.db;
  }
}
