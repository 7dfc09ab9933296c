/**
 * Whole logs of a partition. Commands reach it in batches: checks look at the store as it was when the batch began,
 * writes are stored and locks released when it ends.
 */
module PartitionRuns {
  import opened Options
  import opened TxnLocks
  import opened MvccStore
  import opened TxnManager
  import opened PartitionSafety

  function RunCommands(w: World, base: Db, cs: seq<Command>): (r: World)
    requires AllStamped(cs)
    ensures r.p == ApplyAll(w.p, base, cs)
  {
    if cs == [] then w else Step(RunCommands(w, base, cs[..|cs| - 1]), base, cs[|cs| - 1])
  }

  function RunBatch(w: World, b: Batch, oldest: nat): (r: World)
    requires AllStamped(Sequence(b))
    ensures r.p == ApplyBatch(w.p, b, oldest)
  {
    var end := RunCommands(w, w.p.db, Sequence(b));
    end.(p := Cleanup(Finish(end.p).(maxTimestamp := b.maxTimestamp), oldest), high := Max(end.high, b.maxTimestamp))
  }

  predicate FreshCommands(w: World, base: Db, cs: seq<Command>)
    requires AllStamped(cs)
  {
    cs != [] ==>
      FreshCommands(w, base, cs[..|cs| - 1]) && Fresh(RunCommands(w, base, cs[..|cs| - 1]), cs[|cs| - 1])
  }

  /** Later transactions of the batch lock nothing that an earlier autocommit of the same batch locks. */
  predicate NoStaleChecks(cs: seq<Command>) {
    forall i, j :: 0 <= i < j < |cs| && cs[i].Autocommit? && (cs[j].Autocommit? || cs[j].Prepare?) ==>
      ListsCompatible(LocksOf(cs[i].txn.actions), LocksOf(cs[j].txn.actions))
  }

  // ---- what a batch has written so far

  ghost predicate SameVersion(base: Db, db: Db, v: Version) {
    (v in base <==> v in db) && (v in base ==> base[v] == db[v])
  }

  predicate Committing(p: Partition, id: TxnId) {
    Held(p, id) && id in p.status && p.status[id].state.Committed?
  }

  ghost predicate OwnedByCommitting(p: Partition, a: Address) {
    exists id :: Committing(p, id) && ListOwns(p.prepared[id].locks, a)
  }

  ghost predicate OwnedByAutocommit(cs: seq<Command>, a: Address) {
    exists i :: 0 <= i < |cs| && cs[i].Autocommit? && ListOwns(LocksOf(cs[i].txn.actions), a)
  }

  /** Every change to the store since the batch began is owned by a transaction that can be named. */
  ghost predicate Accounted(p: Partition, base: Db, cs: seq<Command>) {
    forall v: Version ::
      SameVersion(base, p.db, v) || OwnedByCommitting(p, v.address) || OwnedByAutocommit(cs, v.address)
  }

  lemma {:induction false} CommittingKept(p: Partition, high: nat, base: Db, c: Command, id: TxnId)
    requires Shape(p, high) && Stamped(c) && Committing(p, id)
    ensures Committing(Apply(p, base, c).0, id)
    ensures Apply(p, base, c).0.prepared[id] == p.prepared[id]
  {
  }

  lemma {:induction false} NewWritesOwned(p: Partition, high: nat, base: Db, c: Command, v: Version)
    requires Shape(p, high) && Stamped(c) && !SameVersion(p.db, Apply(p, base, c).0.db, v)
    ensures (c.Autocommit? && ListOwns(LocksOf(c.txn.actions), v.address)) ||
            (c.Commit? && Committing(Apply(p, base, c).0, c.id) &&
             ListOwns(Apply(p, base, c).0.prepared[c.id].locks, v.address))
  {
    match c {
      case Autocommit(txn, ts) =>
        PutAllEffect(p.db, txn.actions, ts, v);
        WritesAreOwned(txn.actions, v.address);
      case Commit(id, ts) =>
        var x := p.prepared[id];
        assert EntryOk(p, id, high);
        PutAllEffect(p.db, x.txn.actions, ts, v);
        WritesAreOwned(x.txn.actions, v.address);
    }
  }

  lemma {:induction false} AccountedStep(p: Partition, high: nat, base: Db, cs: seq<Command>)
    requires cs != [] && Stamped(cs[|cs| - 1]) && Shape(p, high) && Accounted(p, base, cs[..|cs| - 1])
    ensures Accounted(Apply(p, base, cs[|cs| - 1]).0, base, cs)
  {
    var front, c := cs[..|cs| - 1], cs[|cs| - 1];
    var q := Apply(p, base, c).0;
    forall v: Version
      ensures SameVersion(base, q.db, v) || OwnedByCommitting(q, v.address) || OwnedByAutocommit(cs, v.address)
    {
      if !SameVersion(p.db, q.db, v) {
        NewWritesOwned(p, high, base, c, v);
        if c.Autocommit? {
          assert cs[|cs| - 1].Autocommit?;
        }
      } else if OwnedByCommitting(p, v.address) {
        var id :| Committing(p, id) && ListOwns(p.prepared[id].locks, v.address);
        CommittingKept(p, high, base, c, id);
      } else if OwnedByAutocommit(front, v.address) {
        var i :| 0 <= i < |front| && front[i].Autocommit? && ListOwns(LocksOf(front[i].txn.actions), v.address);
        assert cs[i] == front[i];
      }
    }
  }

  /** What the batch has written so far is invisible to the transaction, so its checks are as good as current. */
  ghost predicate Unseen(base: Db, db: Db, txn: Txn, timestamp: nat) {
    timestamp > 0 && SameView(LocksOf(txn.actions), base, timestamp - 1, db, timestamp - 1)
  }

  /** Checks made against the start of the batch are current for any transaction that gets its locks. */
  lemma {:induction false} AdmittedUnseen(p: Partition, base: Db, cs: seq<Command>, txn: Txn, ts: nat)
    requires Accounted(p, base, cs) && ts > 0 && Admit(p, base, txn, ts).None?
    requires forall i :: 0 <= i < |cs| && cs[i].Autocommit? ==>
               ListsCompatible(LocksOf(cs[i].txn.actions), LocksOf(txn.actions))
    ensures Unseen(base, p.db, txn, ts)
  {
    var locks := LocksOf(txn.actions);
    forall a | ListCovers(locks, a) ensures Get(base, a, ts - 1) == Get(p.db, a, ts - 1) {
      if OwnedByCommitting(p, a) {
        var id :| Committing(p, id) && ListOwns(p.prepared[id].locks, a);
        AdmittedIsCompatible(p, base, txn, ts, id);
        ListsCompatibleSymmetric(locks, p.prepared[id].locks);
        OwnedIsPrivate(p.prepared[id].locks, locks, a);
      }
      if OwnedByAutocommit(cs, a) {
        var i :| 0 <= i < |cs| && cs[i].Autocommit? && ListOwns(LocksOf(cs[i].txn.actions), a);
        OwnedIsPrivate(LocksOf(cs[i].txn.actions), locks, a);
      }
      forall t | 0 <= t <= ts - 1 ensures SameVersion(base, p.db, Version(a, t)) {
        assert Version(a, t).address == a;
      }
      assert SameUpTo(base, p.db, a, ts - 1);
      GetDependsOnPast(base, p.db, a, ts - 1);
    }
  }

  lemma {:induction false} NoStaleChecksPrefix(cs: seq<Command>)
    requires NoStaleChecks(cs) && cs != []
    ensures NoStaleChecks(cs[..|cs| - 1])
  {
  }

  // ---- batches and logs keep the invariant

  lemma {:induction false} CommandsKeepInv(w: World, base: Db, cs: seq<Command>)
    requires Inv(w) && AllStamped(cs) && FreshCommands(w, base, cs)
    ensures Inv(RunCommands(w, base, cs))
  {
    if cs != [] {
      CommandsKeepInv(w, base, cs[..|cs| - 1]);
      StepKeepsInv(RunCommands(w, base, cs[..|cs| - 1]), base, cs[|cs| - 1]);
    }
  }

  predicate FreshBatch(w: World, b: Batch) {
    AllStamped(Sequence(b)) && FreshCommands(w, w.p.db, Sequence(b))
  }

  lemma {:induction false} HigherKeepsInv(w: World, high: nat)
    requires Inv(w) && high >= w.high
    ensures Inv(w.(high := high))
  {
    var w' := w.(high := high);
    HigherKeepsRecord(w, w');
    forall id | id in w'.p.prepared ensures EntryOk(w'.p, id, w'.high) {
      assert EntryOk(w.p, id, w.high);
    }
  }

  lemma {:induction false} BatchKeepsInv(w: World, b: Batch, oldest: nat)
    requires Inv(w) && FreshBatch(w, b)
    ensures Inv(RunBatch(w, b, oldest))
  {
    CommandsKeepInv(w, w.p.db, Sequence(b));
    var v := RunCommands(w, w.p.db, Sequence(b));
    EndOfBatchKeepsInv(v, b.maxTimestamp, oldest);
    HigherKeepsInv(v.(p := ApplyBatch(w.p, b, oldest)), Max(v.high, b.maxTimestamp));
  }

  datatype LogEntry = LogEntry(batch: Batch, oldest: nat)

  ghost predicate StampedLog(log: seq<LogEntry>) {
    forall i :: 0 <= i < |log| ==> AllStamped(Sequence(log[i].batch))
  }

  /** New transactions are stamped above everything before them. */
  ghost predicate FreshLog(w: World, log: seq<LogEntry>)
    decreases |log|
  {
    StampedLog(log) &&
    (log != [] ==>
       FreshCommands(w, w.p.db, Sequence(log[0].batch)) && FreshLog(RunBatch(w, log[0].batch, log[0].oldest), log[1..]))
  }

  ghost function RunLog(w: World, log: seq<LogEntry>): World
    requires StampedLog(log)
    decreases |log|
  {
    if log == [] then w else RunLog(RunBatch(w, log[0].batch, log[0].oldest), log[1..])
  }

  lemma {:induction false} LogKeepsInv(w: World, log: seq<LogEntry>)
    requires Inv(w) && FreshLog(w, log)
    ensures Inv(RunLog(w, log))
    decreases |log|
  {
    if log != [] {
      BatchKeepsInv(w, log[0].batch, log[0].oldest);
      LogKeepsInv(RunBatch(w, log[0].batch, log[0].oldest), log[1..]);
    }
  }

  // ---- what holds whatever the stamps

  /** Every transaction with a lock table entry has a status. */
  predicate Known(p: Partition) {
    forall id :: id in p.prepared ==> id in p.status
  }

  lemma {:induction false} ApplyKeepsExclusion(p: Partition, base: Db, c: Command)
    requires Stamped(c) && Known(p) && Exclusion(p)
    ensures Known(Apply(p, base, c).0) && Exclusion(Apply(p, base, c).0)
  {
    var q := Apply(p, base, c).0;
    if c.Prepare? && c.txn.id !in p.status && Admit(p, base, c.txn, c.timestamp).None? {
      AdmittedAmongHeld(p, base, c.txn, c.timestamp);
      PrepareKeepsExclusion(p, q, c.txn.id);
    } else {
      HeldAlready(p, base, c);
      FewerKeepExclusion(p, q);
    }
  }

  lemma {:induction false} HeldAlready(p: Partition, base: Db, c: Command)
    requires Stamped(c) && Known(p)
    requires !(c.Prepare? && c.txn.id !in p.status && Admit(p, base, c.txn, c.timestamp).None?)
    ensures var q := Apply(p, base, c).0;
            Known(q) && forall i :: Held(q, i) ==> Held(p, i) && q.prepared[i].locks == p.prepared[i].locks
  {
  }

  lemma {:induction false} FewerKeepExclusion(p: Partition, q: Partition)
    requires Exclusion(p) && forall i :: Held(q, i) ==> Held(p, i) && q.prepared[i].locks == p.prepared[i].locks
    ensures Exclusion(q)
  {
    forall i, j | Held(q, i) && Held(q, j) && i != j ensures ListsCompatible(q.prepared[i].locks, q.prepared[j].locks) {
      assert Held(p, i) && Held(p, j);
    }
  }

  lemma {:induction false} CommandsKeepExclusion(p: Partition, base: Db, cs: seq<Command>)
    requires AllStamped(cs) && Known(p) && Exclusion(p)
    ensures Known(ApplyAll(p, base, cs)) && Exclusion(ApplyAll(p, base, cs))
  {
    if cs != [] {
      CommandsKeepExclusion(p, base, cs[..|cs| - 1]);
      ApplyKeepsExclusion(ApplyAll(p, base, cs[..|cs| - 1]), base, cs[|cs| - 1]);
    }
  }

  lemma {:induction false} EndKeepsExclusion(p: Partition, maxTimestamp: nat, oldest: nat)
    requires Known(p) && Exclusion(p)
    ensures var q := Cleanup(Finish(p).(maxTimestamp := maxTimestamp), oldest); Known(q) && Exclusion(q)
  {
    FewerKeepExclusion(p, Cleanup(Finish(p).(maxTimestamp := maxTimestamp), oldest));
  }

  /** Two-phase locking holds for any log, whatever its stamps: no two transactions ever hold conflicting locks. */
  lemma {:induction false} LocksExclude(w: World, log: seq<LogEntry>)
    requires Known(w.p) && Exclusion(w.p) && StampedLog(log)
    ensures Exclusion(RunLog(w, log).p)
    decreases |log|
  {
    if log != [] {
      var b := log[0].batch;
      CommandsKeepExclusion(w.p, w.p.db, Sequence(b));
      EndKeepsExclusion(ApplyAll(w.p, w.p.db, Sequence(b)), b.maxTimestamp, log[0].oldest);
      LocksExclude(RunBatch(w, b, log[0].oldest), log[1..]);
    }
  }

  // ---- serializability

  /** The checks of a committed transaction hold in its serial place, just below its commit timestamp. */
  ghost predicate Legal(db: Db, d: Done) {
    d.commit > 0 && ChecksHold(db, d.actions, d.commit - 1)
  }

  /**
   * The committed transactions in timestamp order are a legal serial history: each finds its checks true, its writes
   * are what the store holds at its timestamp, and nothing else is in the store.
   */
  ghost predicate Serial(w: World) {
    (forall d :: d in w.history ==> Legal(w.p.db, d) && Stands(w.p.db, d)) &&
    (forall v :: Explained(w.p.db, w.history, v))
  }

  /**
   * Main result, for any log of a partition. No two transactions hold conflicting locks; and the history is serial
   * exactly when every transaction in it was admitted on checks that were true of all that was stored by then.
   */
  lemma {:induction false} PartitionExact(pid: nat, log: seq<LogEntry>)
    requires FreshLog(Start(pid), log)
    ensures Exclusion(RunLog(Start(pid), log).p)
    ensures Serial(RunLog(Start(pid), log)) <==> forall d :: d in RunLog(Start(pid), log).history ==> d.current
  {
    InitInv(pid);
    LogKeepsInv(Start(pid), log);
    var w := RunLog(Start(pid), log);
    forall d | d in w.history ensures (d.current <==> Legal(w.p.db, d)) && Stands(w.p.db, d) {
      assert Settled(w.p.db, w.high, d);
    }
  }

  // ---- when all admissions are current

  predicate AllCurrent(w: World) {
    (forall d :: d in w.history ==> d.current) && (forall id :: id in w.current ==> w.current[id])
  }

  lemma {:induction false} StepCurrent(w: World, base: Db, c: Command)
    requires AllCurrent(w) && Inv(w) && Stamped(c)
    requires (c.Autocommit? || c.Prepare?) && Admit(w.p, base, c.txn, c.timestamp).None? ==>
               Unseen(base, w.p.db, c.txn, c.timestamp)
    ensures AllCurrent(Step(w, base, c))
  {
    if (c.Autocommit? || c.Prepare?) && Admit(w.p, base, c.txn, c.timestamp).None? {
      assert FirstInvalid(base, c.txn.actions, c.timestamp - 1).None?;
      ChecksSameView(c.txn.actions, base, c.timestamp - 1, w.p.db, c.timestamp - 1);
    }
    if c.Commit? && c.id in w.p.prepared {
      assert EntryOk(w.p, c.id, w.high);
    }
  }

  lemma {:induction false} CommandsCurrent(w: World, base: Db, cs: seq<Command>)
    requires AllCurrent(w) && Inv(w) && w.p.db == base && AllStamped(cs) && FreshCommands(w, base, cs)
    requires NoStaleChecks(cs)
    ensures AllCurrent(RunCommands(w, base, cs)) && Accounted(RunCommands(w, base, cs).p, base, cs)
  {
    if cs != [] {
      var front, c := cs[..|cs| - 1], cs[|cs| - 1];
      NoStaleChecksPrefix(cs);
      CommandsCurrent(w, base, front);
      CommandsKeepInv(w, base, front);
      var v := RunCommands(w, base, front);
      if (c.Autocommit? || c.Prepare?) && Admit(v.p, base, c.txn, c.timestamp).None? {
        forall i | 0 <= i < |front| && front[i].Autocommit?
          ensures ListsCompatible(LocksOf(front[i].txn.actions), LocksOf(c.txn.actions))
        {
          assert cs[i] == front[i];
        }
        AdmittedUnseen(v.p, base, front, c.txn, c.timestamp);
      }
      StepCurrent(v, base, c);
      AccountedStep(v.p, v.high, base, cs);
    }
  }

  ghost predicate NoStaleLog(log: seq<LogEntry>) {
    forall i :: 0 <= i < |log| ==> NoStaleChecks(Sequence(log[i].batch))
  }

  lemma {:induction false} LogCurrent(w: World, log: seq<LogEntry>)
    requires AllCurrent(w) && Inv(w) && FreshLog(w, log) && NoStaleLog(log)
    ensures AllCurrent(RunLog(w, log))
    decreases |log|
  {
    if log != [] {
      assert NoStaleChecks(Sequence(log[0].batch));
      CommandsCurrent(w, w.p.db, Sequence(log[0].batch));
      BatchKeepsInv(w, log[0].batch, log[0].oldest);
      LogCurrent(RunBatch(w, log[0].batch, log[0].oldest), log[1..]);
    }
  }

  /** Batches whose later transactions keep clear of their earlier autocommits make the history serial. */
  lemma {:induction false} PartitionSerializable(pid: nat, log: seq<LogEntry>)
    requires FreshLog(Start(pid), log) && NoStaleLog(log)
    ensures Serial(RunLog(Start(pid), log))
  {
    InitInv(pid);
    LogCurrent(Start(pid), log);
    PartitionExact(pid, log);
  }

  // ---- an admission that is not current

  const KEY := Address(16, [1])
  const INSERT := Action(0, Insert(16, [1], [7]))

  lemma {:induction false} InsertFacts(ts: nat, db: Db)
    ensures LocksOf([INSERT]) == [Lock(0, OnKey(KeyLock(16, [1], true)))]
    ensures PutAll(db, [INSERT], ts) == db[Version(KEY, ts) := Some([7])]
    ensures FirstInvalid(map[], [INSERT], ts) == None
  {
    assert [INSERT][..0] == [];
    EmptyStore(KEY, ts);
  }

  lemma {:induction false} EmptyStore(a: Address, ts: nat)
    ensures Get(map[], a, ts) == None
  {
    if ts > 0 {
      EmptyStore(a, ts - 1);
    }
  }

  /** An insert is admitted where nobody holds a lock and the batch began with an empty store. */
  lemma {:induction false} InsertRuns(w: World, txn: Txn, ts: nat)
    requires w.p.prepared == map[] && txn.id !in w.p.status && txn.actions == [INSERT] && ts > w.high
    ensures Step(w, map[], Autocommit(txn, ts)) ==
            World(w.p.(status := w.p.status[txn.id := Status(ts, Committed, [])],
                       db := w.p.db[Version(KEY, ts) := Some([7])]), ts,
                  w.history + [Done([INSERT], ts, ChecksHold(w.p.db, [INSERT], ts - 1))], w.current)
  {
    InsertAdmissible(w.p, txn, ts);
    InsertFacts(ts, w.p.db);
    assert w.current + map[] == w.current;
  }

  lemma {:induction false} InsertAdmissible(p: Partition, txn: Txn, ts: nat)
    requires p.prepared == map[] && txn.actions == [INSERT] && ts > 0
    ensures Admit(p, map[], txn, ts).None?
  {
    InsertFacts(ts - 1, map[]);
  }

  lemma {:induction false} OneCommand(w: World, base: Db, c: Command)
    requires Stamped(c)
    ensures RunCommands(w, base, [c]) == Step(w, base, c)
    ensures Fresh(w, c) ==> FreshCommands(w, base, [c])
  {
    assert [c][..|[c]| - 1] == [];
    assert RunCommands(w, base, []) == w && FreshCommands(w, base, []);
  }

  lemma {:induction false} TwoCommands(w: World, base: Db, c: Command, d: Command)
    requires Stamped(c) && Stamped(d)
    ensures RunCommands(w, base, [c, d]) == Step(Step(w, base, c), base, d)
    ensures Fresh(w, c) && Fresh(Step(w, base, c), d) ==> FreshCommands(w, base, [c, d])
  {
    assert [c, d][..|[c, d]| - 1] == [c];
    OneCommand(w, base, c);
  }

  lemma {:induction false} SecondInsertIsWrong(w: World, d: Done)
    requires d in w.history && d.actions == [INSERT] && d.commit == 3
    requires Version(KEY, 2) in w.p.db && w.p.db[Version(KEY, 2)] == Some([7])
    ensures !Serial(w)
  {
    assert !CheckHolds(w.p.db, d.actions[0], 2);
  }

  /**
   * Such admissions do happen: two inserts of one key in the same batch both commit, although the second one's check
   * is false on the snapshot below its timestamp.
   */
  lemma {:induction false} DoubleInsert() returns (log: seq<LogEntry>)
    ensures FreshLog(Start(0), log) && !Serial(RunLog(Start(0), log))
  {
    var t1, t2 := Txn(TxnId(0, 1, 2), [INSERT], []), Txn(TxnId(0, 1, 3), [INSERT], []);
    var first, second := Autocommit(t1, 2), Autocommit(t2, 3);
    var b := Batch([], [], [], [first, second], [], [], 3);
    var w0, base: Db := Start(0), map[];
    assert Sequence(b) == [first, second];
    InsertRuns(w0, t1, 2);
    InsertRuns(Step(w0, base, first), t2, 3);
    TwoCommands(w0, base, first, second);
    var w := RunBatch(w0, b, 0);
    SecondInsertIsWrong(w, w.history[1]);
    log := [LogEntry(b, 0)];
    OneBatch(w0, log[0]);
  }

  lemma {:induction false} OneBatch(w: World, e: LogEntry)
    requires FreshBatch(w, e.batch)
    ensures FreshLog(w, [e]) && RunLog(w, [e]) == RunBatch(w, e.batch, e.oldest)
  {
    var w' := RunBatch(w, e.batch, e.oldest);
    assert [e][1..] == [];
    assert FreshLog(w', []) && RunLog(w', []) == w';
  }
}
