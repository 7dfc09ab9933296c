/**
 * Reads on the partitions of a running cluster. Once a distributed transaction is decided, every read that any of its
 * participants has ever served, at whatever point of its log, shows the transaction exactly if it reads at or above
 * the commit timestamp.
 */
module ClusterReads {
  import opened Options
  import opened TxnLocks
  import opened MvccStore
  import opened TxnManager
  import opened PartitionSafety
  import opened PartitionRuns
  import opened SnapshotReads
  import opened ParticipantView
  import opened ConsistentReads
  import opened Cluster
  import P = TwoPhaseCommit

  // ---- what a state of a partition says of the transaction, against the record

  ghost predicate AllWritten(db: Db, actions: seq<Action>, commit: nat) {
    forall a :: LastWrite(actions, a).Some? ==> Version(a, commit) in db
  }

  ghost predicate Remembered(p: Partition, id: TxnId, net: P.World, pid: nat, actions: seq<Action>) {
    id in p.status && id in p.prepared && p.prepared[id].txn.actions == actions &&
    (pid, p.prepared[id].timestamp) in net.voted &&
    (p.status[id].state.Committed? ==> (pid, p.status[id].timestamp) in net.didCommit) &&
    (p.status[id].state.Aborted? || p.status[id].state.Timedout? ==> pid in net.didAbort)
  }

  ghost predicate Gone(p: Partition, id: TxnId, net: P.World, pid: nat, actions: seq<Action>) {
    id !in p.status &&
    (pid in net.didAbort || exists c :: (pid, c) in net.didCommit && AllWritten(p.db, actions, c))
  }

  /** The partition has not prepared the transaction yet; if it has by now, it voted above this state. */
  ghost predicate Ahead(w: World, id: TxnId, net: P.World, pid: nat) {
    id !in w.p.status && forall v :: (pid, v) in net.voted ==> v > w.high
  }

  /** A state the partition has been in. `work` are the actions it has prepared, if it has. */
  ghost predicate PastOk(w: World, id: TxnId, net: P.World, pid: nat, work: Option<seq<Action>>) {
    Ahead(w, id, net, pid) ||
    (work.Some? && (Remembered(w.p, id, net, pid, work.value) || Gone(w.p, id, net, pid, work.value)))
  }

  /** The state it is in. */
  ghost predicate NowOk(p: Partition, id: TxnId, net: P.World, pid: nat, work: Option<seq<Action>>) {
    match work
    case None => id !in p.status && forall v :: (pid, v) !in net.voted
    case Some(actions) =>
      Remembered(p, id, net, pid, actions) || (Gone(p, id, net, pid, actions) && pid in net.forgotten)
  }

  lemma {:induction false} NowIsPast(w: World, id: TxnId, net: P.World, pid: nat, work: Option<seq<Action>>)
    requires NowOk(w.p, id, net, pid, work)
    ensures PastOk(w, id, net, pid, work)
  {
  }

  /** The record grows, without a new vote of the partition. */
  ghost predicate Grows(net: P.World, net': P.World, pid: nat) {
    (forall v :: (pid, v) in net'.voted <==> (pid, v) in net.voted) &&
    net.didCommit <= net'.didCommit && net.didAbort <= net'.didAbort && net.forgotten <= net'.forgotten
  }

  lemma {:induction false} PastGrows(w: World, id: TxnId, net: P.World, net': P.World, pid: nat,
                                     work: Option<seq<Action>>)
    requires PastOk(w, id, net, pid, work) && Grows(net, net', pid)
    ensures PastOk(w, id, net', pid, work)
  {
    if work.Some? && Gone(w.p, id, net, pid, work.value) && pid !in net.didAbort {
      var c :| (pid, c) in net.didCommit && AllWritten(w.p.db, work.value, c);
      assert (pid, c) in net'.didCommit;
    }
  }

  lemma {:induction false} NowGrows(p: Partition, id: TxnId, net: P.World, net': P.World, pid: nat,
                                    work: Option<seq<Action>>)
    requires NowOk(p, id, net, pid, work) && Grows(net, net', pid)
    ensures NowOk(p, id, net', pid, work)
  {
    if work.Some? && Gone(p, id, net, pid, work.value) && pid !in net.didAbort {
      var c :| (pid, c) in net.didCommit && AllWritten(p.db, work.value, c);
      assert (pid, c) in net'.didCommit;
    }
  }

  lemma {:induction false} HeardElsewhere(net: P.World, pid: nat, other: nat, c: Command, before: P.PState, r: Reply)
    requires other != pid
    ensures Grows(net, Heard(net, other, c, before, r), pid)
  {
  }

  // ---- commands on other transactions

  lemma {:induction false} StoreGrows(p: Partition, base: Db, c: Command, v: Version)
    requires Stamped(c) && v in p.db
    ensures v in Apply(p, base, c).0.db
  {
    match c {
      case Autocommit(txn, ts) => PutAllEffect(p.db, txn.actions, ts, v);
      case Commit(id, ts) =>
        if id in p.prepared {
          PutAllEffect(p.db, p.prepared[id].txn.actions, ts, v);
        }
      case _ =>
    }
  }

  lemma {:induction false} WrittenStays(p: Partition, base: Db, c: Command, actions: seq<Action>, commit: nat)
    requires Stamped(c) && AllWritten(p.db, actions, commit)
    ensures AllWritten(Apply(p, base, c).0.db, actions, commit)
  {
    forall a | LastWrite(actions, a).Some? ensures Version(a, commit) in Apply(p, base, c).0.db {
      StoreGrows(p, base, c, Version(a, commit));
    }
  }

  lemma {:induction false} GoneStays(p: Partition, base: Db, c: Command, id: TxnId, net: P.World, pid: nat,
                                     actions: seq<Action>)
    requires Stamped(c) && Gone(p, id, net, pid, actions) && id !in Apply(p, base, c).0.status
    ensures Gone(Apply(p, base, c).0, id, net, pid, actions)
  {
    if pid !in net.didAbort {
      var commit :| (pid, commit) in net.didCommit && AllWritten(p.db, actions, commit);
      WrittenStays(p, base, c, actions, commit);
    }
  }

  lemma {:induction false} SameRecord(p: Partition, base: Db, c: Command, id: TxnId)
    requires Stamped(c) && Target(c) != id
    ensures var q := Apply(p, base, c).0;
            (id in q.status <==> id in p.status) && (id in p.status ==> q.status[id] == p.status[id]) &&
            (id in q.prepared <==> id in p.prepared) && (id in p.prepared ==> q.prepared[id] == p.prepared[id])
  {
  }

  lemma {:induction false} OtherKeepsNow(p: Partition, base: Db, c: Command, id: TxnId, net: P.World, pid: nat,
                                         work: Option<seq<Action>>)
    requires Stamped(c) && Target(c) != id && NowOk(p, id, net, pid, work)
    ensures NowOk(Apply(p, base, c).0, id, net, pid, work)
  {
    SameRecord(p, base, c, id);
    if work.Some? && Gone(p, id, net, pid, work.value) {
      GoneStays(p, base, c, id, net, pid, work.value);
    }
  }

  // ---- commands on the transaction

  /** The command that has the partition prepare the transaction. */
  predicate Admits(p: Partition, base: Db, c: Command)
    requires Stamped(c)
  {
    c.Prepare? && c.txn.id !in p.status && Admit(p, base, c.txn, c.timestamp).None?
  }

  lemma {:induction false} AdmittedNow(p: Partition, base: Db, c: Command, net: P.World, pid: nat)
    requires Stamped(c) && Admits(p, base, c)
    ensures var (q, r) := Apply(p, base, c);
            NowOk(q, c.txn.id, Heard(net, pid, c, View(p, c.txn.id), r), pid, Some(c.txn.actions)) &&
            Heard(net, pid, c, View(p, c.txn.id), r) == net.(voted := net.voted + {(pid, c.timestamp)})
  {
  }

  lemma {:induction false} AdmittedPast(w: World, id: TxnId, net: P.World, pid: nat, ts: nat, actions: seq<Action>)
    requires PastOk(w, id, net, pid, None) && ts > w.high
    ensures PastOk(w, id, net.(voted := net.voted + {(pid, ts)}), pid, Some(actions))
  {
  }

  /** Any other command on it leaves the votes alone. */
  lemma {:induction false} NoNewVote(p: Partition, high: nat, base: Db, c: Command, net: P.World, pid: nat,
                                     work: Option<seq<Action>>)
    requires Stamped(c) && !c.Autocommit? && !Admits(p, base, c) && Shape(p, high)
    requires NowOk(p, Target(c), net, pid, work)
    ensures Grows(net, Heard(net, pid, c, View(p, Target(c)), Apply(p, base, c).1), pid)
  {
    if Target(c) in p.prepared {
      assert EntryOk(p, Target(c), high);
    }
  }

  lemma {:induction false} CommandOnGone(p: Partition, base: Db, c: Command)
    requires Stamped(c) && !c.Autocommit? && !Admits(p, base, c) && Target(c) !in p.status
    ensures Apply(p, base, c).0 == p
  {
  }

  lemma {:induction false} PrepareOnKept(p: Partition, high: nat, base: Db, c: Command, net: P.World, pid: nat,
                                         actions: seq<Action>)
    requires Stamped(c) && (c.Prepare? || c.StoreDecision?) && Shape(p, high)
    requires Remembered(p, Target(c), net, pid, actions)
    ensures var (q, r) := Apply(p, base, c);
            Remembered(q, Target(c), Heard(net, pid, c, View(p, Target(c)), r), pid, actions)
  {
    assert EntryOk(p, Target(c), high);
  }

  lemma {:induction false} OutcomeOnKept(p: Partition, high: nat, base: Db, c: Command, net: P.World, pid: nat,
                                         actions: seq<Action>)
    requires Stamped(c) && (c.Commit? || c.Abort? || c.MarkTimedout?) && Shape(p, high)
    requires Remembered(p, c.id, net, pid, actions)
    ensures var (q, r) := Apply(p, base, c);
            Remembered(q, c.id, Heard(net, pid, c, View(p, c.id), r), pid, actions)
  {
    assert EntryOk(p, c.id, high);
  }

  lemma {:induction false} OwnKeepsNow(p: Partition, high: nat, base: Db, c: Command, net: P.World, pid: nat,
                                       work: Option<seq<Action>>)
    requires Stamped(c) && !c.Autocommit? && !Admits(p, base, c) && Shape(p, high)
    requires NowOk(p, Target(c), net, pid, work)
    ensures var (q, r) := Apply(p, base, c);
            NowOk(q, Target(c), Heard(net, pid, c, View(p, Target(c)), r), pid, work)
  {
    var (q, r) := Apply(p, base, c);
    if work.Some? && Remembered(p, Target(c), net, pid, work.value) {
      if c.Prepare? || c.StoreDecision? {
        PrepareOnKept(p, high, base, c, net, pid, work.value);
      } else {
        OutcomeOnKept(p, high, base, c, net, pid, work.value);
      }
    } else {
      CommandOnGone(p, base, c);
      NoNewVote(p, high, base, c, net, pid, work);
      NowGrows(p, Target(c), net, Heard(net, pid, c, View(p, Target(c)), r), pid, work);
    }
  }

  // ---- the end of a batch

  lemma {:induction false} EndKeepsRecord(p: Partition, maxTimestamp: nat, oldest: nat, id: TxnId)
    ensures var q := Cleanup(Finish(p).(maxTimestamp := maxTimestamp), oldest);
            q.db == p.db && (id in q.status ==> id in p.status && q.status[id] == p.status[id]) &&
            (id in p.prepared && id in q.status ==>
               id in q.prepared && q.prepared[id].txn == p.prepared[id].txn &&
               q.prepared[id].timestamp == p.prepared[id].timestamp) &&
            (Forgets(p, q, id) ==> IsFinal(p.status[id].state))
  {
  }

  lemma {:induction false} EndForgets(p: Partition, q: Partition, id: TxnId, net: P.World, pid: nat,
                                      actions: seq<Action>)
    requires Remembered(p, id, net, pid, actions) && AllStored(p) && q.db == p.db
    requires id !in q.status && IsFinal(p.status[id].state)
    ensures Gone(q, id, net.(forgotten := net.forgotten + {pid}), pid, actions)
  {
    if p.status[id].state.Committed? {
      var c := p.status[id].timestamp;
      forall a | LastWrite(actions, a).Some? ensures Version(a, c) in q.db {
        assert StoredAt(p, id, a);
      }
      assert (pid, c) in net.didCommit && AllWritten(q.db, actions, c);
    }
  }

  lemma {:induction false} EndKeepsNow(p: Partition, maxTimestamp: nat, oldest: nat, id: TxnId, net: P.World, pid: nat,
                                       work: Option<seq<Action>>)
    requires NowOk(p, id, net, pid, work) && AllStored(p)
    ensures var q := Cleanup(Finish(p).(maxTimestamp := maxTimestamp), oldest);
            var net' := Ended(net, pid, Forgets(p, q, id));
            NowOk(q, id, net', pid, work) && Grows(net, net', pid)
  {
    var q := Cleanup(Finish(p).(maxTimestamp := maxTimestamp), oldest);
    EndKeepsRecord(p, maxTimestamp, oldest, id);
    if Forgets(p, q, id) {
      EndForgets(p, q, id, net, pid, work.value);
    }
  }

  // ---- whole runs

  ghost predicate FreshSite(pid: nat, s: Site) {
    FreshLog(Start(pid), s.log) && AllStamped(s.cmds) && FreshCommands(s.start, s.start.p.db, s.cmds)
  }

  /** All states of the partition between its batches, and the one it is in, agree with the record. */
  ghost predicate History(s: Site, net: P.World, pid: nat, id: TxnId, work: Option<seq<Action>>) {
    AllStamped(s.cmds) && StampedLog(s.log) && NowOk(Now(s).p, id, net, pid, work) &&
    forall n :: 0 <= n <= |s.log| ==>
      PastOk(StateAfter(pid, s, n), id, net, pid, work) && StateAfter(pid, s, n).high <= Now(s).high
  }

  lemma {:induction false} HistoryGrows(s: Site, net: P.World, net': P.World, pid: nat, id: TxnId,
                                        work: Option<seq<Action>>)
    requires History(s, net, pid, id, work) && Grows(net, net', pid)
    ensures History(s, net', pid, id, work)
  {
    NowGrows(Now(s).p, id, net, net', pid, work);
    forall n | 0 <= n <= |s.log| ensures PastOk(StateAfter(pid, s, n), id, net', pid, work) {
      PastGrows(StateAfter(pid, s, n), id, net, net', pid, work);
    }
  }

  lemma {:induction false} HistoryStarts(pid: nat, id: TxnId, net: P.World)
    requires net.voted == {}
    ensures History(Site([], Start(pid), []), net, pid, id, None)
  {
    var s := Site([], Start(pid), []);
    assert s.log[..0] == [];
    NowIsPast(Start(pid), id, net, pid, None);
  }

  lemma {:induction false} TakenFresh(pid: nat, s: Site, c: Command)
    requires AllStamped(s.cmds) && Stamped(c) && FreshSite(pid, Taken(s, c))
    ensures FreshSite(pid, s) && Fresh(Now(s), c)
  {
    var cs := Taken(s, c).cmds;
    assert cs[..|cs| - 1] == s.cmds && cs[|cs| - 1] == c;
  }

  lemma {:induction false} ClosedFresh(pid: nat, s: Site, b: Batch, oldest: nat, id: TxnId)
    requires SiteOk(pid, s, id) && Sequence(b) == s.cmds && FreshSite(pid, Closed(s, b, oldest))
    ensures FreshSite(pid, s)
  {
    var e, end := LogEntry(b, oldest), RunLog(Start(pid), s.log + [LogEntry(b, oldest)]);
    var mid := LogParts(Start(pid), s.log, [e], s.log + [e], end);
    var v := LeadsOn(mid, [e], end);
  }

  lemma {:induction false} NowStored(pid: nat, s: Site, id: TxnId)
    requires SiteOk(pid, s, id)
    ensures AllStored(Now(s).p)
  {
    LogStores(Start(pid), s.log);
    LocksExclude(Start(pid), s.log);
    CommandsStore(s.start.p, s.start.p.db, s.cmds);
  }

  // ---- events of the partition

  lemma {:induction false} TakeOtherHistory(s: Site, net: P.World, pid: nat, id: TxnId, c: Command,
                                            work: Option<seq<Action>>)
    requires History(s, net, pid, id, work) && SiteOk(pid, s, id) && Stamped(c) && Target(c) != id
    ensures History(Taken(s, c), net, pid, id, work)
  {
    TakenNow(s, c);
    StepShape(Now(s), s.start.p.db, c);
    OtherKeepsNow(Now(s).p, s.start.p.db, c, id, net, pid, work);
    SamePast(s, Taken(s, c), pid);
  }

  lemma {:induction false} SamePast(s: Site, s': Site, pid: nat)
    requires StampedLog(s.log) && s'.log == s.log
    ensures forall n :: 0 <= n <= |s.log| ==> StateAfter(pid, s', n) == StateAfter(pid, s, n)
  {
  }

  lemma {:induction false} TakeOwnHistory(s: Site, net: P.World, pid: nat, c: Command, work: Option<seq<Action>>)
    requires SiteOk(pid, s, Target(c)) && History(s, net, pid, Target(c), work) && Stamped(c) && !c.Autocommit?
    requires !Admits(Now(s).p, s.start.p.db, c)
    ensures var (q, r) := Apply(Now(s).p, s.start.p.db, c);
            History(Taken(s, c), Heard(net, pid, c, View(Now(s).p, Target(c)), r), pid, Target(c), work)
  {
    var id, p, base := Target(c), Now(s).p, s.start.p.db;
    var net' := Heard(net, pid, c, View(p, id), Apply(p, base, c).1);
    TakenNow(s, c);
    StepShape(Now(s), base, c);
    OwnKeepsNow(p, Now(s).high, base, c, net, pid, work);
    NoNewVote(p, Now(s).high, base, c, net, pid, work);
    HistoryGrows(s, net, net', pid, id, work);
    SamePast(s, Taken(s, c), pid);
  }

  lemma {:induction false} TakeAdmitHistory(s: Site, net: P.World, pid: nat, c: Command, work: Option<seq<Action>>)
    requires Stamped(c) && SiteOk(pid, s, Target(c)) && History(s, net, pid, Target(c), work)
    requires Admits(Now(s).p, s.start.p.db, c) && Fresh(Now(s), c) && pid !in net.forgotten
    ensures var (q, r) := Apply(Now(s).p, s.start.p.db, c);
            History(Taken(s, c), Heard(net, pid, c, View(Now(s).p, Target(c)), r), pid, Target(c), Some(c.txn.actions))
  {
    var id, p, base := c.txn.id, Now(s).p, s.start.p.db;
    assert work.None?;
    TakenNow(s, c);
    StepShape(Now(s), base, c);
    AdmittedNow(p, base, c, net, pid);
    var net' := net.(voted := net.voted + {(pid, c.timestamp)});
    SamePast(s, Taken(s, c), pid);
    forall n | 0 <= n <= |s.log| ensures PastOk(StateAfter(pid, s, n), id, net', pid, Some(c.txn.actions)) {
      AdmittedPast(StateAfter(pid, s, n), id, net, pid, c.timestamp, c.txn.actions);
    }
  }

  lemma {:induction false} ClosedPast(pid: nat, s: Site, b: Batch, oldest: nat)
    requires StampedLog(s.log) && AllStamped(s.cmds) && Sequence(b) == s.cmds && RunLog(Start(pid), s.log) == s.start
    ensures var s' := Closed(s, b, oldest);
            StampedLog(s'.log) && StateAfter(pid, s', |s'.log|) == s'.start &&
            forall n :: 0 <= n <= |s.log| ==> StateAfter(pid, s', n) == StateAfter(pid, s, n)
  {
    var s' := Closed(s, b, oldest);
    LogPlus(Start(pid), s.log, s.start, LogEntry(b, oldest));
    assert s'.log[..|s'.log|] == s'.log;
    forall n | 0 <= n <= |s.log| ensures StateAfter(pid, s', n) == StateAfter(pid, s, n) {
      assert s'.log[..n] == s.log[..n];
    }
  }

  lemma {:induction false} OneMoreState(s: Site, s': Site, net: P.World, pid: nat, id: TxnId,
                                        work: Option<seq<Action>>)
    requires History(s, net, pid, id, work) && s'.cmds == [] && StampedLog(s'.log) && |s'.log| == |s.log| + 1
    requires StateAfter(pid, s', |s'.log|) == s'.start && Now(s).high <= s'.start.high
    requires forall n :: 0 <= n <= |s.log| ==> StateAfter(pid, s', n) == StateAfter(pid, s, n)
    requires NowOk(s'.start.p, id, net, pid, work)
    ensures History(s', net, pid, id, work)
  {
    NowIsPast(s'.start, id, net, pid, work);
    forall n | 0 <= n <= |s'.log|
      ensures PastOk(StateAfter(pid, s', n), id, net, pid, work) && StateAfter(pid, s', n).high <= Now(s').high
    {
      if n <= |s.log| {
        assert StateAfter(pid, s', n) == StateAfter(pid, s, n);
      }
    }
  }

  lemma {:induction false} CloseHistory(s: Site, net: P.World, pid: nat, id: TxnId, b: Batch, oldest: nat,
                                        work: Option<seq<Action>>)
    requires SiteOk(pid, s, id) && History(s, net, pid, id, work) && Sequence(b) == s.cmds
    ensures var s' := Closed(s, b, oldest);
            var net' := Ended(net, pid, Forgets(Now(s).p, s'.start.p, id));
            History(s', net', pid, id, work)
  {
    var s' := Closed(s, b, oldest);
    var net' := Ended(net, pid, Forgets(Now(s).p, s'.start.p, id));
    NowStored(pid, s, id);
    EndKeepsNow(Now(s).p, b.maxTimestamp, oldest, id, net, pid, work);
    HistoryGrows(s, net, net', pid, id, work);
    ClosedPast(pid, s, b, oldest);
    OneMoreState(s, s', net', pid, id, work);
  }

  // ---- all events

  predicate IsAt(e: Event, pid: nat) {
    !e.Talk? && e.pid == pid
  }

  lemma {:induction false} TalkGrows(cfg: P.Config, g: P.World, s: P.Step, net: P.World, pid: nat)
    requires cfg.Valid() && g.part.Keys == cfg.parts && IsTalk(s) && P.Enabled(cfg, g, s) && g == net.(part := g.part)
    ensures Grows(net, P.Do(cfg, g, s), pid)
  {
  }

  lemma {:induction false} ElsewhereGrows(cfg: P.Config, id: TxnId, k: Cluster, e: Event, pid: nat)
    requires Fits(cfg, id) && k.sites.Keys == cfg.parts && AllReady(k) && Allowed(cfg, id, k, e) && !IsAt(e, pid)
    requires pid in k.sites
    ensures var k' := After(cfg, id, k, e);
            pid in k'.sites && k'.sites[pid] == k.sites[pid] && Grows(k.net, k'.net, pid)
  {
    match e {
      case Talk(s) => TalkGrows(cfg, Project(k, id), s, k.net, pid);
      case Take(other, c) =>
        var w := Now(k.sites[other]);
        HeardElsewhere(k.net, pid, other, c, View(w.p, id), Apply(w.p, k.sites[other].start.p.db, c).1);
      case Close(other, b, oldest) =>
    }
  }

  lemma {:induction false} TakeHistory(cfg: P.Config, id: TxnId, k: Cluster, pid: nat, c: Command,
                                       work: Option<seq<Action>>) returns (work': Option<seq<Action>>)
    requires Fits(cfg, id) && ClusterOk(cfg, id, k) && Allowed(cfg, id, k, Take(pid, c))
    requires History(k.sites[pid], k.net, pid, id, work) && Fresh(Now(k.sites[pid]), c)
    ensures var k' := After(cfg, id, k, Take(pid, c)); History(k'.sites[pid], k'.net, pid, id, work')
  {
    var s := k.sites[pid];
    assert SiteOk(pid, s, id);
    work' := work;
    if Target(c) != id {
      TakeOtherHistory(s, k.net, pid, id, c, work);
    } else if Admits(Now(s).p, s.start.p.db, c) {
      TakeAdmitHistory(s, k.net, pid, c, work);
      work' := Some(c.txn.actions);
    } else {
      TakeOwnHistory(s, k.net, pid, c, work);
    }
  }

  lemma {:induction false} EventHistory(cfg: P.Config, id: TxnId, k: Cluster, e: Event, pid: nat,
                                        work: Option<seq<Action>>) returns (work': Option<seq<Action>>)
    requires Fits(cfg, id) && ClusterOk(cfg, id, k) && Allowed(cfg, id, k, e) && pid in k.sites
    requires History(k.sites[pid], k.net, pid, id, work)
    requires e.Take? && e.pid == pid ==> Fresh(Now(k.sites[pid]), e.command)
    ensures var k' := After(cfg, id, k, e); pid in k'.sites && History(k'.sites[pid], k'.net, pid, id, work')
  {
    work' := work;
    if !IsAt(e, pid) {
      ElsewhereGrows(cfg, id, k, e, pid);
      HistoryGrows(k.sites[pid], k.net, After(cfg, id, k, e).net, pid, id, work);
    } else if e.Take? {
      work' := TakeHistory(cfg, id, k, pid, e.command, work);
    } else {
      assert SiteOk(pid, k.sites[pid], id);
      CloseHistory(k.sites[pid], k.net, pid, id, e.batch, e.oldest, work);
    }
  }

  lemma {:induction false} AfterHere(cfg: P.Config, id: TxnId, k: Cluster, e: Event, pid: nat)
    requires Fits(cfg, id) && k.sites.Keys == cfg.parts && AllReady(k) && Allowed(cfg, id, k, e) && IsAt(e, pid)
    ensures After(cfg, id, k, e).sites[pid] ==
            if e.Take? then Taken(k.sites[pid], e.command) else Closed(k.sites[pid], e.batch, e.oldest)
  {
  }

  lemma {:induction false} FreshBefore(cfg: P.Config, id: TxnId, k: Cluster, e: Event, pid: nat, s': Site)
    requires Fits(cfg, id) && ClusterOk(cfg, id, k) && Allowed(cfg, id, k, e) && pid in k.sites
    requires s' == After(cfg, id, k, e).sites[pid] && FreshSite(pid, s')
    ensures FreshSite(pid, k.sites[pid]) && (e.Take? && e.pid == pid ==> Fresh(Now(k.sites[pid]), e.command))
  {
    assert SiteOk(pid, k.sites[pid], id);
    if !IsAt(e, pid) {
      ElsewhereGrows(cfg, id, k, e, pid);
    } else {
      AfterHere(cfg, id, k, e, pid);
      if e.Take? {
        TakenFresh(pid, k.sites[pid], e.command);
      } else {
        ClosedFresh(pid, k.sites[pid], e.batch, e.oldest, id);
      }
    }
  }

  /** The event that led from one state to the next, and was fresh if it is at the partition. */
  ghost predicate Led(cfg: P.Config, id: TxnId, k: Cluster, e: Event, k': Cluster, pid: nat) {
    Fits(cfg, id) && ClusterOk(cfg, id, k) && pid in k.sites && Allowed(cfg, id, k, e) && k' == After(cfg, id, k, e) &&
    (e.Take? && e.pid == pid ==> Fresh(Now(k.sites[pid]), e.command))
  }

  lemma {:induction false} NextLed(cfg: P.Config, id: TxnId, k: Cluster, k': Cluster, pid: nat) returns (e: Event)
    requires ClusterOk(cfg, id, k) && Next(cfg, id, k, k') && pid in k'.sites && FreshSite(pid, k'.sites[pid])
    ensures Led(cfg, id, k, e, k', pid) && FreshSite(pid, k.sites[pid])
  {
    e :| Allowed(cfg, id, k, e) && k' == After(cfg, id, k, e);
    FreshBefore(cfg, id, k, e, pid, k'.sites[pid]);
  }

  lemma {:induction false} LedHistory(cfg: P.Config, id: TxnId, k: Cluster, e: Event, k': Cluster, pid: nat,
                                      work: Option<seq<Action>>) returns (work': Option<seq<Action>>)
    requires Led(cfg, id, k, e, k', pid) && History(k.sites[pid], k.net, pid, id, work)
    ensures pid in k'.sites && History(k'.sites[pid], k'.net, pid, id, work')
  {
    work' := EventHistory(cfg, id, k, e, pid, work);
  }

  lemma {:induction false} RunHistory(cfg: P.Config, id: TxnId, run: seq<Cluster>, n: nat, pid: nat)
    returns (work: Option<seq<Action>>)
    requires IsRun(cfg, id, run) && n < |run| && pid in run[n].sites && FreshSite(pid, run[n].sites[pid])
    ensures History(run[n].sites[pid], run[n].net, pid, id, work)
    decreases n
  {
    if n == 0 {
      work := None;
      HistoryStarts(pid, id, run[0].net);
    } else {
      RunKeepsOk(cfg, id, run, n - 1);
      assert Next(cfg, id, run[n - 1], run[n - 1 + 1]);
      var e := NextLed(cfg, id, run[n - 1], run[n], pid);
      work := RunHistory(cfg, id, run, n - 1, pid);
      work := LedHistory(cfg, id, run[n - 1], e, run[n], pid, work);
    }
  }

  // ---- what reads show

  /** Whoever has the transaction prepared or decided keeps reads of its addresses below its own timestamp. */
  lemma {:induction false} WaitingBlocks(w: World, id: TxnId, txn: seq<Action>, t: nat, a: Address)
    requires Served(w, txn, t) && ListCovers(LocksOf(txn), a) && id in w.p.prepared && id in w.p.status
    requires w.p.status[id].state.Prepared? || w.p.status[id].state.Decided?
    requires LastWrite(w.p.prepared[id].txn.actions, a).Some?
    ensures t < w.p.prepared[id].timestamp
  {
    var x := w.p.prepared[id];
    assert EntryOk(w.p, id, w.high);
    WritesAreOwned(x.txn.actions, a);
    if ListsCompatible(LocksOf(txn), x.locks) {
      ListsCompatibleSymmetric(LocksOf(txn), x.locks);
      OwnedIsPrivate(x.locks, LocksOf(txn), a);
    }
    assert Blocks(w.p, id, LocksOf(txn));
  }

  /** A read at or above the commit timestamp that is served after the vote finds the write in the store. */
  lemma {:induction false} PastShows(w: World, id: TxnId, net: P.World, pid: nat, actions: seq<Action>, vote: nat,
                                     c: nat, txn: seq<Action>, t: nat, a: Address)
    requires PastOk(w, id, net, pid, Some(actions)) && AllStored(w.p) && Served(w, txn, t) && c <= t
    requires (pid, vote) in net.voted && vote <= c && pid !in net.didAbort
    requires forall v :: (pid, v) in net.voted ==> v == vote
    requires forall d :: (pid, d) in net.didCommit ==> d == c
    requires ListCovers(LocksOf(txn), a) && LastWrite(actions, a).Some?
    ensures Version(a, c) in w.p.db
  {
    var safe, conflicting :| IsSafe(w.p, LocksOf(txn), safe, conflicting) && t <= safe;
    if Remembered(w.p, id, net, pid, actions) {
      if w.p.status[id].state.Prepared? || w.p.status[id].state.Decided? {
        WaitingBlocks(w, id, txn, t, a);
      }
      assert StoredAt(w.p, id, a);
    }
  }

  /** At some point of its log the partition had the transaction, to write the address, and at some point it served. */
  ghost predicate Asks(pid: nat, s: Site, id: TxnId, m: nat, n: nat, txn: seq<Action>, t: nat, a: Address) {
    FreshSite(pid, s) && m <= |s.log| && n <= |s.log| &&
    Served(StateAfter(pid, s, n), txn, t) && ListCovers(LocksOf(txn), a) &&
    var p := StateAfter(pid, s, m).p;
    id in p.prepared && LastWrite(p.prepared[id].txn.actions, a).Some?
  }

  lemma {:induction false} VoteOf(cfg: P.Config, g: P.World, pid: nat, c: nat) returns (vote: nat)
    requires cfg.Valid() && P.Reachable(cfg, g) && g.decision == Some(c) && pid in cfg.parts
    ensures (pid, vote) in g.voted && vote <= c
    ensures forall v :: (pid, v) in g.voted ==> v == vote
    ensures forall d :: (pid, d) in g.didCommit ==> d == c
  {
    var run :| P.IsRun(cfg, run) && run[|run| - 1] == g;
    P.RunKeepsVotes(cfg, run, |run| - 1);
    P.RunKeepsDecision(cfg, run, |run| - 1);
    P.DecisionIsVoted(cfg, run, |run| - 1);
    assert P.AllVotedBy(cfg, g, c);
    vote :| (pid, vote) in g.voted && vote <= c;
    forall v | (pid, v) in g.voted ensures v == vote {
      assert (pid, v).0 == (pid, vote).0;
    }
    forall d | (pid, d) in g.didCommit ensures d == c {
      assert (pid, d) in g.commits + g.didCommit;
    }
  }

  /** The actions in an entry of the past are the ones the partition has prepared. */
  lemma {:induction false} OneWork(s: Site, net: P.World, pid: nat, id: TxnId, work: Option<seq<Action>>, m: nat)
    requires History(s, net, pid, id, work) && m <= |s.log|
    requires Shape(StateAfter(pid, s, m).p, StateAfter(pid, s, m).high) && id in StateAfter(pid, s, m).p.prepared
    ensures work == Some(StateAfter(pid, s, m).p.prepared[id].txn.actions)
  {
    var w := StateAfter(pid, s, m);
    assert EntryOk(w.p, id, w.high);
    assert PastOk(w, id, net, pid, work);
  }

  lemma {:induction false} PastShape(pid: nat, s: Site, m: nat)
    requires FreshLog(Start(pid), s.log) && RunLog(Start(pid), s.log) == s.start && m <= |s.log|
    ensures Shape(StateAfter(pid, s, m).p, StateAfter(pid, s, m).high)
  {
    assert s.log[..m] + s.log[m..] == s.log;
    var mid := LogParts(Start(pid), s.log[..m], s.log[m..], s.log, s.start);
    InitInv(pid);
    LogKeepsInv(Start(pid), s.log[..m]);
  }

  lemma {:induction false} HistoryShows(s: Site, net: P.World, pid: nat, id: TxnId, work: Option<seq<Action>>,
                                        vote: nat, c: nat, m: nat, n: nat, txn: seq<Action>, t: nat, a: Address)
    requires History(s, net, pid, id, work) && RunLog(Start(pid), s.log) == s.start && Asks(pid, s, id, m, n, txn, t, a)
    requires (pid, vote) in net.voted && vote <= c <= t && pid !in net.didAbort
    requires forall v :: (pid, v) in net.voted ==> v == vote
    requires forall d :: (pid, d) in net.didCommit ==> d == c
    ensures Version(a, c) in StateAfter(pid, s, n).p.db
  {
    SitePast(pid, s, n);
    PastShape(pid, s, m);
    OneWork(s, net, pid, id, work, m);
    PastShows(StateAfter(pid, s, n), id, net, pid, work.value, vote, c, txn, t, a);
  }

  /**
   * Main result, in every setting. Once the transaction is decided, take any participant that has not aborted it, any
   * point of its log and any read it served there. The read shows what the transaction wrote where it looks exactly if
   * it reads at or above the commit timestamp: before the partition prepared, while it holds the locks, once it has
   * committed, and after it has forgotten the transaction.
   */
  lemma {:induction false} SeenExact(cfg: P.Config, id: TxnId, k: Cluster, c: nat, pid: nat, m: nat, n: nat,
                                     txn: seq<Action>, t: nat, a: Address)
    requires Fits(cfg, id) && Reachable(cfg, id, k) && pid in k.sites && Asks(pid, k.sites[pid], id, m, n, txn, t, a)
    requires k.net.decision == Some(c) && pid !in k.net.didAbort
    ensures Visible(StateAfter(pid, k.sites[pid], n), a, c, t) <==> c <= t
  {
    if c <= t {
      ClusterIsProtocol(cfg, id, k);
      var vote := VoteOf(cfg, Project(k, id), pid, c);
      var run :| IsRun(cfg, id, run) && run[|run| - 1] == k;
      var work := RunHistory(cfg, id, run, |run| - 1, pid);
      HistoryShows(k.sites[pid], k.net, pid, id, work, vote, c, m, n, txn, t, a);
    }
  }

  /**
   * In a safe setting, once the transaction has committed anywhere, all reads that any two participants have ever
   * served at one timestamp agree on it: both show it, or neither does.
   */
  lemma {:induction false} CommitSeenAlike(cfg: P.Config, id: TxnId, k: Cluster, c: nat, t: nat,
                                           pid1: nat, m1: nat, n1: nat, txn1: seq<Action>, a1: Address,
                                           pid2: nat, m2: nat, n2: nat, txn2: seq<Action>, a2: Address)
    requires Fits(cfg, id) && cfg.Safe() && Reachable(cfg, id, k) && pid1 in k.sites && pid2 in k.sites
    requires exists q :: (q, c) in k.net.didCommit
    requires Asks(pid1, k.sites[pid1], id, m1, n1, txn1, t, a1) && Asks(pid2, k.sites[pid2], id, m2, n2, txn2, t, a2)
    ensures var w1, w2 := StateAfter(pid1, k.sites[pid1], n1), StateAfter(pid2, k.sites[pid2], n2);
            (Visible(w1, a1, c, t) <==> Visible(w2, a2, c, t)) && (Visible(w1, a1, c, t) <==> c <= t)
  {
    DecidedAnywhere(cfg, id, k, c);
    SeenExact(cfg, id, k, c, pid1, m1, n1, txn1, t, a1);
    SeenExact(cfg, id, k, c, pid2, m2, n2, txn2, t, a2);
  }

  lemma {:induction false} DecidedAnywhere(cfg: P.Config, id: TxnId, k: Cluster, c: nat)
    requires Fits(cfg, id) && cfg.Safe() && Reachable(cfg, id, k) && exists q :: (q, c) in k.net.didCommit
    ensures k.net.decision == Some(c) && k.net.didAbort == {}
  {
    ClusterIsProtocol(cfg, id, k);
    var g := Project(k, id);
    P.SafeIsAtomic(cfg, g);
    var run :| P.IsRun(cfg, run) && run[|run| - 1] == g;
    P.RunKeepsDecision(cfg, run, |run| - 1);
    var q :| (q, c) in k.net.didCommit;
    assert (q, c) in g.commits + g.didCommit;
  }
}
