/**
 * Reads on several partitions. A transaction that two-phase commit carries to two partitions is seen by reads of one
 * timestamp on both of them or on neither.
 */
module ConsistentReads {
  import opened Options
  import opened TxnLocks
  import opened MvccStore
  import opened TxnManager
  import opened PartitionSafety
  import opened PartitionRuns
  import opened SnapshotReads
  import opened ParticipantView
  import P = TwoPhaseCommit

  /** The writes of a committed transaction are stored at its commit timestamp, as long as it is remembered. */
  ghost predicate StoredAt(p: Partition, id: TxnId, a: Address) {
    (id in p.prepared && id in p.status && p.status[id].state.Committed? &&
     LastWrite(p.prepared[id].txn.actions, a).Some?) ==> Version(a, p.status[id].timestamp) in p.db
  }

  ghost predicate AllStored(p: Partition) {
    Known(p) && forall id, a :: StoredAt(p, id, a)
  }

  lemma {:induction false} ApplyStores(p: Partition, base: Db, c: Command, id: TxnId, a: Address)
    requires Stamped(c) && Known(p) && StoredAt(p, id, a)
    ensures StoredAt(Apply(p, base, c).0, id, a)
  {
    match c {
      case Autocommit(txn, ts) =>
        if id in p.status {
          PutAllEffect(p.db, txn.actions, ts, Version(a, p.status[id].timestamp));
        }
      case Commit(other, ts) =>
        if other in p.prepared && id in p.status {
          PutAllEffect(p.db, p.prepared[other].txn.actions, ts, Version(a, p.status[id].timestamp));
          PutAllEffect(p.db, p.prepared[other].txn.actions, ts, Version(a, ts));
        }
      case _ =>
    }
  }

  lemma {:induction false} CommandsStore(p: Partition, base: Db, cs: seq<Command>)
    requires AllStamped(cs) && AllStored(p) && Exclusion(p)
    ensures AllStored(ApplyAll(p, base, cs)) && Exclusion(ApplyAll(p, base, cs))
  {
    if cs != [] {
      var front := cs[..|cs| - 1];
      CommandsStore(p, base, front);
      var q := ApplyAll(p, base, front);
      ApplyKeepsExclusion(q, base, cs[|cs| - 1]);
      var r := Apply(q, base, cs[|cs| - 1]).0;
      forall id, a ensures StoredAt(r, id, a) {
        ApplyStores(q, base, cs[|cs| - 1], id, a);
      }
    }
  }

  lemma {:induction false} EndStores(p: Partition, maxTimestamp: nat, oldest: nat)
    requires AllStored(p)
    ensures AllStored(Cleanup(Finish(p).(maxTimestamp := maxTimestamp), oldest))
  {
    var q := Cleanup(Finish(p).(maxTimestamp := maxTimestamp), oldest);
    forall id, a ensures StoredAt(q, id, a) {
      assert StoredAt(p, id, a);
    }
  }

  lemma {:induction false} LogStores(w: World, log: seq<LogEntry>)
    requires AllStored(w.p) && Exclusion(w.p) && StampedLog(log)
    ensures AllStored(RunLog(w, log).p)
    decreases |log|
  {
    if log != [] {
      var b := log[0].batch;
      CommandsStore(w.p, w.p.db, Sequence(b));
      var p := ApplyAll(w.p, w.p.db, Sequence(b));
      EndStores(p, b.maxTimestamp, log[0].oldest);
      EndKeepsExclusion(p, b.maxTimestamp, log[0].oldest);
      LogStores(RunBatch(w, b, log[0].oldest), log[1..]);
    }
  }

  /** What one partition of a two-phase commit makes of the transaction `id`, from a state it is read in, over a log. */
  ghost predicate Takes(cfg: P.Config, g: P.World, id: TxnId, w: World, log: seq<LogEntry>, a: Address) {
    AllStored(w.p) && Exclusion(w.p) && FreshLog(w, log) &&
    var p := RunLog(w, log).p;
    p.pid in g.part && View(p, id) == g.part[p.pid] && g.part[p.pid].Committed? &&
    id in p.prepared && LastWrite(p.prepared[id].txn.actions, a).Some?
  }

  /** What the transaction wrote at an address is visible at `t` in the state. */
  ghost predicate Visible(w: World, a: Address, commit: nat, t: nat) {
    commit <= t && Version(a, commit) in w.p.db
  }

  lemma {:induction false} SeenIff(db: Db, later: Db, a: Address, commit: nat, t: nat)
    requires SameUpTo(db, later, a, t) && Version(a, commit) in later
    ensures commit <= t ==> Version(a, commit) in db
  {
  }

  lemma {:induction false} CommitIsStored(w: World, log: seq<LogEntry>, id: TxnId, a: Address)
    requires AllStored(w.p) && Exclusion(w.p) && StampedLog(log)
    requires var p := RunLog(w, log).p;
             View(p, id).Committed? && id in p.prepared && LastWrite(p.prepared[id].txn.actions, a).Some?
    ensures Version(a, View(RunLog(w, log).p, id).commitAt) in RunLog(w, log).p.db
  {
    LogStores(w, log);
    assert StoredAt(RunLog(w, log).p, id, a);
  }

  lemma {:induction false} ReadSeesIt(cfg: P.Config, g: P.World, id: TxnId, t: nat, w: World, log: seq<LogEntry>,
                                      txn: seq<Action>, a: Address)
    requires Takes(cfg, g, id, w, log, a) && Served(w, txn, t) && ListCovers(LocksOf(txn), a)
    ensures Visible(w, a, View(RunLog(w, log).p, id).commitAt, t) <==> View(RunLog(w, log).p, id).commitAt <= t
  {
    CommitIsStored(w, log, id, a);
    SnapshotsAreStable(w, log, txn, t, a);
    SeenIff(w.p.db, RunLog(w, log).p.db, a, View(RunLog(w, log).p, id).commitAt, t);
  }

  /**
   * Reads of one timestamp on two partitions, served at unrelated moments, form a consistent cut. Of a transaction
   * that two-phase commit carries to both, sooner or later and whatever the coordinator aborts on, they see both writes
   * or neither.
   */
  lemma {:induction false} TransactionCut(cfg: P.Config, g: P.World, id: TxnId, t: nat,
                       w1: World, log1: seq<LogEntry>, txn1: seq<Action>, a1: Address,
                       w2: World, log2: seq<LogEntry>, txn2: seq<Action>, a2: Address)
    requires cfg.Valid() && P.Reachable(cfg, g)
    requires Takes(cfg, g, id, w1, log1, a1) && Served(w1, txn1, t) && ListCovers(LocksOf(txn1), a1)
    requires Takes(cfg, g, id, w2, log2, a2) && Served(w2, txn2, t) && ListCovers(LocksOf(txn2), a2)
    ensures var c := View(RunLog(w1, log1).p, id).commitAt;
            View(RunLog(w2, log2).p, id) == P.Committed(c) &&
            (Visible(w1, a1, c, t) <==> Visible(w2, a2, c, t)) && (Visible(w1, a1, c, t) <==> c <= t)
  {
    P.CommittedAgree(cfg, g, RunLog(w1, log1).p.pid, RunLog(w2, log2).p.pid);
    ReadSeesIt(cfg, g, id, t, w1, log1, txn1, a1);
    ReadSeesIt(cfg, g, id, t, w2, log2, txn2, a2);
  }
}
