/**
 * Partitions and protocol together: each partition applies its own log of batches, and the commands on one distributed
 * transaction come from the wire. Seen through that transaction, every run of such a cluster is a run of two-phase
 * commit, so what is proved of the protocol holds of the partitions' logs.
 */
module Cluster {
  import opened Options
  import opened TxnLocks
  import opened MvccStore
  import opened TxnManager
  import opened PartitionSafety
  import opened PartitionRuns
  import opened SnapshotReads
  import opened ParticipantView
  import opened ConsistentReads
  import Leadership
  import P = TwoPhaseCommit

  /** A partition: its log, the state the log has led to, and the commands of the batch it is applying. */
  datatype Site = Site(log: seq<LogEntry>, start: World, cmds: seq<Command>)

  /** `net` is the coordinator, the wire and the record of what happened; what it says of partitions is not used. */
  datatype Cluster = Cluster(sites: map<nat, Site>, net: P.World)

  function Now(s: Site): World
    requires AllStamped(s.cmds)
  {
    RunCommands(s.start, s.start.p.db, s.cmds)
  }

  predicate AllReady(k: Cluster) {
    forall pid :: pid in k.sites ==> AllStamped(k.sites[pid].cmds)
  }

  /** The cluster seen through one transaction. */
  function Project(k: Cluster, id: TxnId): P.World
    requires AllReady(k)
  {
    k.net.(part := map pid | pid in k.sites :: View(Now(k.sites[pid]).p, id))
  }

  function Init(cfg: P.Config): Cluster {
    Cluster(map pid | pid in cfg.parts :: Site([], Start(pid), []), P.Init(cfg))
  }

  datatype Event =
    | Talk(step: P.Step)
    | Take(pid: nat, command: Command)
    | Close(pid: nat, batch: Batch, oldest: nat)

  /** Steps of the coordinator and the watchdog, which only read what partitions know. */
  predicate IsTalk(s: P.Step) {
    s.AskPrepare? || s.TakeVote? || s.Decide? || s.GiveUp? || s.LearnStored? || s.Abandon? || s.SendCommit? ||
    s.SendAbort? || s.WatchCommit? || s.WatchAbort?
  }

  /** A command on the transaction has been sent to the partition. */
  predicate OnWire(cfg: P.Config, net: P.World, pid: nat, c: Command) {
    match c
    case Prepare(_, _) => pid in net.asked && pid !in net.forgotten
    case StoreDecision(_, _, d) => pid == cfg.principal && net.decision == Some(d.commitTimestamp)
    case Commit(_, ts) => (pid, ts) in net.commits
    case Abort(_, _) => pid in net.aborts
    case MarkTimedout(_, _, _) => pid == cfg.principal
    case Autocommit(_, _) => false
  }

  function AnswerFor(e: Error): P.Answer {
    match e
    case NotFound => P.NotFound
    case FailedPrecondition => P.FailedPrecondition
    case InvalidRequest => P.InvalidRequest
    case PermissionDenied => P.NoReply
  }

  /** What a partition's reply to a command on the transaction adds to the wire and the record. */
  function Heard(net: P.World, pid: nat, c: Command, before: P.PState, r: Reply): P.World {
    match c
    case Prepare(_, _) => if r.Ok? then net.(voted := net.voted + {(pid, r.status.timestamp)}) else net
    case StoreDecision(_, _, d) =>
      if r.Ok? && r.status.state.Decided? then
        net.(stored := true, decided := if before.Prepared? then Some(d.commitTimestamp) else net.decided)
      else if r.Err? then net.(answers := net.answers + {AnswerFor(r.error)})
      else net
    case Commit(_, ts) =>
      if r.Ok? then
        net.(acked := net.acked + {pid},
             didCommit := if before.Committed? then net.didCommit else net.didCommit + {(pid, ts)})
      else if r == Err(NotFound) then net.(gone := net.gone + {pid})
      else net
    case Abort(_, _) => if before.Prepared? then net.(didAbort := net.didAbort + {pid}) else net
    case MarkTimedout(_, _, _) => if before.Prepared? then net.(didAbort := net.didAbort + {pid}) else net
    case Autocommit(_, _) => net
  }

  predicate Fits(cfg: P.Config, id: TxnId) {
    cfg.Valid() && cfg.principal == id.principal
  }

  /**
   * Commands on the transaction must be on the wire. Commands on others may come at any time, and all may carry any
   * stamp, above what the log holds or not. A batch ends once its commands have been applied.
   */
  predicate Allowed(cfg: P.Config, id: TxnId, k: Cluster, e: Event)
    requires Fits(cfg, id) && k.sites.Keys == cfg.parts && AllReady(k)
  {
    match e
    case Talk(s) => IsTalk(s) && P.Enabled(cfg, Project(k, id), s)
    case Take(pid, c) =>
      pid in k.sites && Stamped(c) && (c.StoreDecision? ==> c.decision.commit) &&
      (Target(c) == id ==> OnWire(cfg, k.net, pid, c))
    case Close(pid, b, _) => pid in k.sites && Sequence(b) == k.sites[pid].cmds
  }

  function Taken(s: Site, c: Command): Site {
    s.(cmds := s.cmds + [c])
  }

  function Closed(s: Site, b: Batch, oldest: nat): Site
    requires AllStamped(s.cmds) && Sequence(b) == s.cmds
  {
    Site(s.log + [LogEntry(b, oldest)], RunBatch(s.start, b, oldest), [])
  }

  predicate Forgets(p: Partition, q: Partition, id: TxnId) {
    id in p.status && id !in q.status
  }

  function Ended(net: P.World, pid: nat, forgets: bool): P.World {
    if forgets then net.(forgotten := net.forgotten + {pid}) else net
  }

  function After(cfg: P.Config, id: TxnId, k: Cluster, e: Event): Cluster
    requires Fits(cfg, id) && k.sites.Keys == cfg.parts && AllReady(k) && Allowed(cfg, id, k, e)
  {
    match e
    case Talk(s) => k.(net := P.Do(cfg, Project(k, id), s))
    case Take(pid, c) =>
      var w := Now(k.sites[pid]);
      var r := Apply(w.p, k.sites[pid].start.p.db, c).1;
      Cluster(k.sites[pid := Taken(k.sites[pid], c)],
              if Target(c) == id then Heard(k.net, pid, c, View(w.p, id), r) else k.net)
    case Close(pid, b, oldest) =>
      var s := Closed(k.sites[pid], b, oldest);
      Cluster(k.sites[pid := s], Ended(k.net, pid, Forgets(Now(k.sites[pid]).p, s.start.p, id)))
  }

  ghost predicate Next(cfg: P.Config, id: TxnId, k: Cluster, k': Cluster) {
    Fits(cfg, id) && k.sites.Keys == cfg.parts && AllReady(k) &&
    exists e :: Allowed(cfg, id, k, e) && k' == After(cfg, id, k, e)
  }

  ghost predicate IsRun(cfg: P.Config, id: TxnId, run: seq<Cluster>) {
    run != [] && run[0] == Init(cfg) && forall i :: 0 <= i < |run| - 1 ==> Next(cfg, id, run[i], run[i + 1])
  }

  ghost predicate Reachable(cfg: P.Config, id: TxnId, k: Cluster) {
    exists run :: IsRun(cfg, id, run) && run[|run| - 1] == k
  }

  // ---- one partition

  ghost predicate SiteOk(pid: nat, s: Site, id: TxnId) {
    AllStamped(s.cmds) && StampedLog(s.log) && RunLog(Start(pid), s.log) == s.start &&
    Shape(Now(s).p, Now(s).high) &&
    var p := Now(s).p;
    p.pid == pid && OnlyCommitDecisions(p) && (id in p.status <==> id in p.prepared)
  }

  lemma {:induction false} TakenNow(s: Site, c: Command)
    requires AllStamped(s.cmds) && Stamped(c)
    ensures AllStamped(Taken(s, c).cmds) && Now(Taken(s, c)) == PartitionSafety.Step(Now(s), s.start.p.db, c)
  {
    var cs := Taken(s, c).cmds;
    assert cs[..|cs| - 1] == s.cmds && cs[|cs| - 1] == c;
  }

  lemma {:induction false} ApplyKeepsBoth(p: Partition, base: Db, c: Command, id: TxnId)
    requires Stamped(c) && (id in p.status <==> id in p.prepared) && (Target(c) == id ==> !c.Autocommit?)
    ensures var q := Apply(p, base, c).0; q.pid == p.pid && (id in q.status <==> id in q.prepared)
  {
  }

  lemma {:induction false} TakenOk(pid: nat, s: Site, c: Command, id: TxnId)
    requires SiteOk(pid, s, id) && Stamped(c) && (c.StoreDecision? ==> c.decision.commit)
    requires Target(c) == id ==> !c.Autocommit?
    ensures SiteOk(pid, Taken(s, c), id)
  {
    TakenNow(s, c);
    StepShape(Now(s), s.start.p.db, c);
    ApplyKeepsBoth(Now(s).p, s.start.p.db, c, id);
    DecisionsKept(Now(s).p, s.start.p.db, c);
  }

  lemma {:induction false} LogPlus(w: World, log: seq<LogEntry>, mid: World, e: LogEntry)
    requires StampedLog(log) && RunLog(w, log) == mid && AllStamped(Sequence(e.batch))
    ensures StampedLog(log + [e]) && RunLog(w, log + [e]) == RunBatch(mid, e.batch, e.oldest)
    decreases |log|
  {
    var all := log + [e];
    forall i | 0 <= i < |all| ensures AllStamped(Sequence(all[i].batch)) {
      if i < |log| {
        assert all[i] == log[i];
      }
    }
    if log == [] {
      assert all[0] == e && all[1..] == [];
    } else {
      assert all[0] == log[0] && all[1..] == log[1..] + [e];
      LogPlus(RunBatch(w, log[0].batch, log[0].oldest), log[1..], mid, e);
    }
  }

  lemma {:induction false} ClosedOk(pid: nat, s: Site, b: Batch, oldest: nat, id: TxnId)
    requires SiteOk(pid, s, id) && Sequence(b) == s.cmds
    ensures SiteOk(pid, Closed(s, b, oldest), id)
  {
    LogPlus(Start(pid), s.log, s.start, LogEntry(b, oldest));
    EndShape(Now(s).p, Now(s).high, b.maxTimestamp, oldest);
  }

  // ---- what a command on the transaction does, seen through it

  /** The world stays as it is or takes a step of the protocol. */
  ghost predicate Moves(cfg: P.Config, g: P.World, g': P.World) {
    g' == g || P.Next(cfg, g, g')
  }

  lemma {:induction false} MovesBy(cfg: P.Config, g: P.World, s: P.Step)
    requires cfg.Valid() && g.part.Keys == cfg.parts && P.Enabled(cfg, g, s)
    ensures Moves(cfg, g, P.Do(cfg, g, s))
  {
  }

  /** The partition knows the transaction as the world says. */
  ghost predicate Agrees(cfg: P.Config, g: P.World, pid: nat, p: Partition, high: nat, id: TxnId) {
    Fits(cfg, id) && g.part.Keys == cfg.parts && pid in cfg.parts && p.pid == pid && g.part[pid] == View(p, id) &&
    Shape(p, high) && OnlyCommitDecisions(p) && (id in p.status <==> id in p.prepared)
  }

  function Told(g: P.World, pid: nat, c: Command, r: Reply, after: P.PState): P.World
    requires pid in g.part
  {
    Heard(g, pid, c, g.part[pid], r).(part := g.part[pid := after])
  }

  lemma {:induction false} PrepareMoves(cfg: P.Config, g: P.World, pid: nat, p: Partition, high: nat, base: Db,
                                        c: Command)
    requires c.Prepare? && Stamped(c) && Agrees(cfg, g, pid, p, high, c.txn.id) && OnWire(cfg, g, pid, c)
    requires P.VotesInv(cfg, g)
    ensures var (q, r) := Apply(p, base, c); Moves(cfg, g, Told(g, pid, c, r, View(q, c.txn.id)))
  {
    var (q, r) := Apply(p, base, c);
    var g' := Told(g, pid, c, r, View(q, c.txn.id));
    if c.txn.id in p.status {
      assert EntryOk(p, c.txn.id, high);
      assert g'.part == g.part;
      if r.Ok? {
        assert (pid, r.status.timestamp) in g.voted;
        assert g'.voted == g.voted;
      }
    } else if r.Ok? {
      MovesBy(cfg, g, P.DoPrepare(pid, c.timestamp));
    } else {
      assert g'.part == g.part;
    }
  }

  lemma {:induction false} CommitMoves(cfg: P.Config, g: P.World, pid: nat, p: Partition, high: nat, base: Db,
                                       c: Command)
    requires c.Commit? && Stamped(c) && Agrees(cfg, g, pid, p, high, c.id) && OnWire(cfg, g, pid, c)
    ensures var (q, r) := Apply(p, base, c); Moves(cfg, g, Told(g, pid, c, r, View(q, c.id)))
  {
    var (q, r) := Apply(p, base, c);
    CommitFollows(p, high, c.id, c.timestamp);
    var g' := Told(g, pid, c, r, View(q, c.id));
    var s := P.DoCommit(pid, c.timestamp);
    assert c.id in p.prepared ==> EntryOk(p, c.id, high);
    MovesBy(cfg, g, s);
    assert g'.part == P.Do(cfg, g, s).part;
  }

  lemma {:induction false} AbortMoves(cfg: P.Config, g: P.World, pid: nat, p: Partition, high: nat, base: Db,
                                      c: Command)
    requires c.Abort? && Stamped(c) && Agrees(cfg, g, pid, p, high, c.id) && OnWire(cfg, g, pid, c)
    ensures var (q, r) := Apply(p, base, c); Moves(cfg, g, Told(g, pid, c, r, View(q, c.id)))
  {
    var (q, r) := Apply(p, base, c);
    OldFollows(p, high, base, c);
    var g' := Told(g, pid, c, r, View(q, c.id));
    var s := P.DoAbort(pid);
    MovesBy(cfg, g, s);
    assert g'.part == P.Do(cfg, g, s).part;
  }

  lemma {:induction false} TimeoutMoves(cfg: P.Config, g: P.World, pid: nat, p: Partition, high: nat, base: Db,
                                        c: Command)
    requires c.MarkTimedout? && Stamped(c) && Agrees(cfg, g, pid, p, high, c.id) && OnWire(cfg, g, pid, c)
    ensures var (q, r) := Apply(p, base, c); Moves(cfg, g, Told(g, pid, c, r, View(q, c.id)))
  {
    var (q, r) := Apply(p, base, c);
    OldFollows(p, high, base, c);
    var g' := Told(g, pid, c, r, View(q, c.id));
    if g.part[pid].Prepared? {
      MovesBy(cfg, g, P.DoTimeout);
      assert g'.part == P.Do(cfg, g, P.DoTimeout).part;
    } else {
      assert g'.part == g.part;
    }
  }

  lemma {:induction false} DecisionMoves(cfg: P.Config, g: P.World, pid: nat, p: Partition, high: nat, base: Db,
                                         c: Command)
    requires c.StoreDecision? && Stamped(c) && Agrees(cfg, g, pid, p, high, c.id) && OnWire(cfg, g, pid, c)
    requires c.decision.commit
    ensures var (q, r) := Apply(p, base, c); Moves(cfg, g, Told(g, pid, c, r, View(q, c.id)))
  {
    var (q, r) := Apply(p, base, c);
    OldFollows(p, high, base, c);
    DecisionAnswers(p, high, c.id, c.timestamp, c.decision);
    var g' := Told(g, pid, c, r, View(q, c.id));
    var s := P.DoStoreDecision(c.decision.commitTimestamp);
    assert c.id in p.prepared ==> EntryOk(p, c.id, high);
    MovesBy(cfg, g, s);
    assert g'.part == P.Do(cfg, g, s).part;
  }

  /** Every command on the transaction that was on the wire moves the world as the protocol does, or not at all. */
  lemma {:induction false} CommandMoves(cfg: P.Config, g: P.World, pid: nat, p: Partition, high: nat, base: Db,
                                        c: Command)
    requires Stamped(c) && Agrees(cfg, g, pid, p, high, Target(c)) && OnWire(cfg, g, pid, c) && P.VotesInv(cfg, g)
    requires c.StoreDecision? ==> c.decision.commit
    ensures var (q, r) := Apply(p, base, c); Moves(cfg, g, Told(g, pid, c, r, View(q, Target(c))))
  {
    match c {
      case Prepare(_, _) => PrepareMoves(cfg, g, pid, p, high, base, c);
      case Commit(_, _) => CommitMoves(cfg, g, pid, p, high, base, c);
      case Abort(_, _) => AbortMoves(cfg, g, pid, p, high, base, c);
      case MarkTimedout(_, _, _) => TimeoutMoves(cfg, g, pid, p, high, base, c);
      case StoreDecision(_, _, _) => DecisionMoves(cfg, g, pid, p, high, base, c);
    }
  }

  lemma {:induction false} EndView(p: Partition, maxTimestamp: nat, oldest: nat, id: TxnId)
    ensures var q := Cleanup(Finish(p).(maxTimestamp := maxTimestamp), oldest);
            if Forgets(p, q, id) then P.Final(View(p, id)) && View(q, id) == P.Absent else View(q, id) == View(p, id)
  {
    var f := Finish(p).(maxTimestamp := maxTimestamp);
    assert f.status == p.status;
    EndOfBatch(p, oldest, id);
    EndOfBatch(f, oldest, id);
    assert View(f, id) == View(Finish(p), id);
  }

  /** The end of a batch forgets the transaction, if at all, when it is final. */
  lemma {:induction false} EndMoves(cfg: P.Config, g: P.World, pid: nat, p: Partition, q: Partition, id: TxnId)
    requires cfg.Valid() && g.part.Keys == cfg.parts && pid in cfg.parts && g.part[pid] == View(p, id)
    requires if Forgets(p, q, id) then P.Final(View(p, id)) && View(q, id) == P.Absent else View(q, id) == View(p, id)
    ensures Moves(cfg, g, Ended(g, pid, Forgets(p, q, id)).(part := g.part[pid := View(q, id)]))
  {
    if Forgets(p, q, id) {
      MovesBy(cfg, g, P.Forget(pid));
    } else {
      assert g.part[pid := View(q, id)] == g.part;
    }
  }

  // ---- the whole cluster

  ghost predicate ClusterOk(cfg: P.Config, id: TxnId, k: Cluster) {
    k.sites.Keys == cfg.parts && (forall pid :: pid in k.sites ==> SiteOk(pid, k.sites[pid], id)) &&
    P.Reachable(cfg, Project(k, id))
  }

  lemma {:induction false} InitOk(cfg: P.Config, id: TxnId)
    ensures ClusterOk(cfg, id, Init(cfg))
  {
    var k := Init(cfg);
    forall pid | pid in k.sites ensures SiteOk(pid, k.sites[pid], id) {
    }
    assert Project(k, id).part == P.Init(cfg).part;
    P.InitReachable(cfg);
  }

  lemma {:induction false} MovesReach(cfg: P.Config, g: P.World, g': P.World)
    requires P.Reachable(cfg, g) && Moves(cfg, g, g')
    ensures P.Reachable(cfg, g')
  {
    if g' != g {
      P.Extend(cfg, g, g');
    }
  }

  /** Replacing one partition changes the projection at that place only. */
  lemma {:induction false} ProjectOne(k: Cluster, id: TxnId, pid: nat, s: Site, net: P.World)
    requires AllReady(k) && pid in k.sites && AllStamped(s.cmds)
    ensures AllReady(Cluster(k.sites[pid := s], net))
    ensures Project(Cluster(k.sites[pid := s], net), id) ==
            net.(part := Project(k, id).part[pid := View(Now(s).p, id)])
  {
    var k' := Cluster(k.sites[pid := s], net);
    assert Project(k', id).part == Project(k, id).part[pid := View(Now(s).p, id)];
  }

  lemma {:induction false} SiteAgrees(cfg: P.Config, id: TxnId, k: Cluster, pid: nat)
    requires Fits(cfg, id) && ClusterOk(cfg, id, k) && pid in k.sites
    ensures Agrees(cfg, Project(k, id), pid, Now(k.sites[pid]).p, Now(k.sites[pid]).high, id)
  {
    assert SiteOk(pid, k.sites[pid], id);
  }

  lemma {:induction false} ProjectTaken(k: Cluster, id: TxnId, pid: nat, c: Command, net: P.World)
    requires AllReady(k) && pid in k.sites && SiteOk(pid, k.sites[pid], id) && Stamped(c)
    ensures var k' := Cluster(k.sites[pid := Taken(k.sites[pid], c)], net);
            AllReady(k') &&
            Project(k', id) == net.(part := Project(k, id).part[pid :=
                                      View(Apply(Now(k.sites[pid]).p, k.sites[pid].start.p.db, c).0, id)])
  {
    TakenNow(k.sites[pid], c);
    ProjectOne(k, id, pid, Taken(k.sites[pid], c), net);
  }

  /** Neither the wire nor what a reply adds to it depends on what `net` says of partitions. */
  lemma {:induction false} HeardApart(cfg: P.Config, net: P.World, g: P.World, pid: nat, c: Command, r: Reply,
                                      after: P.PState)
    requires pid in g.part && g == net.(part := g.part)
    ensures OnWire(cfg, net, pid, c) <==> OnWire(cfg, g, pid, c)
    ensures Heard(net, pid, c, g.part[pid], r).(part := g.part[pid := after]) == Told(g, pid, c, r, after)
  {
  }

  lemma {:induction false} OwnMoves(cfg: P.Config, k: Cluster, pid: nat, c: Command)
    requires Fits(cfg, Target(c)) && ClusterOk(cfg, Target(c), k) && Allowed(cfg, Target(c), k, Take(pid, c))
    ensures var (q, r) := Apply(Now(k.sites[pid]).p, k.sites[pid].start.p.db, c);
            var g := Project(k, Target(c));
            pid in g.part && Moves(cfg, g, Told(g, pid, c, r, View(q, Target(c))))
  {
    var s, g := k.sites[pid], Project(k, Target(c));
    SiteAgrees(cfg, Target(c), k, pid);
    HeardApart(cfg, k.net, g, pid, c, Err(NotFound), P.Absent);
    var run :| P.IsRun(cfg, run) && run[|run| - 1] == g;
    P.RunKeepsVotes(cfg, run, |run| - 1);
    CommandMoves(cfg, g, pid, Now(s).p, Now(s).high, s.start.p.db, c);
  }

  lemma {:induction false} TakeOwn(cfg: P.Config, k: Cluster, pid: nat, c: Command)
    requires Fits(cfg, Target(c)) && ClusterOk(cfg, Target(c), k) && Allowed(cfg, Target(c), k, Take(pid, c))
    ensures var k' := After(cfg, Target(c), k, Take(pid, c));
            AllReady(k') && Moves(cfg, Project(k, Target(c)), Project(k', Target(c)))
  {
    var id := Target(c);
    var s, g, k' := k.sites[pid], Project(k, id), After(cfg, id, k, Take(pid, c));
    var (q, r) := Apply(Now(s).p, s.start.p.db, c);
    assert SiteOk(pid, s, id);
    ProjectTaken(k, id, pid, c, k'.net);
    HeardApart(cfg, k.net, g, pid, c, r, View(q, id));
    OwnMoves(cfg, k, pid, c);
  }

  lemma {:induction false} SamePart(net: P.World, g: P.World, pid: nat, v: P.PState)
    requires g == net.(part := g.part) && pid in g.part && g.part[pid] == v
    ensures net.(part := g.part[pid := v]) == g
  {
    assert g.part[pid := v] == g.part;
  }

  lemma {:induction false} ProjectOther(k: Cluster, id: TxnId, pid: nat, c: Command)
    requires AllReady(k) && pid in k.sites && SiteOk(pid, k.sites[pid], id) && Stamped(c)
    requires Target(c) != id
    ensures var k' := k.(sites := k.sites[pid := Taken(k.sites[pid], c)]);
            AllReady(k') && Project(k', id) == Project(k, id)
  {
    var s := k.sites[pid];
    ProjectTaken(k, id, pid, c, k.net);
    OthersUntouched(Now(s).p, s.start.p.db, c, id);
    SamePart(k.net, Project(k, id), pid, View(Now(s).p, id));
  }

  lemma {:induction false} TakeOther(cfg: P.Config, id: TxnId, k: Cluster, pid: nat, c: Command)
    requires Fits(cfg, id) && ClusterOk(cfg, id, k) && Allowed(cfg, id, k, Take(pid, c)) && Target(c) != id
    ensures var k' := After(cfg, id, k, Take(pid, c)); AllReady(k') && Project(k', id) == Project(k, id)
  {
    assert SiteOk(pid, k.sites[pid], id);
    ProjectOther(k, id, pid, c);
  }

  lemma {:induction false} ProjectClosed(k: Cluster, id: TxnId, pid: nat, b: Batch, oldest: nat)
    requires AllReady(k) && pid in k.sites && Sequence(b) == k.sites[pid].cmds
    ensures var s, s', g := k.sites[pid], Closed(k.sites[pid], b, oldest), Project(k, id);
            var forgets := Forgets(Now(s).p, s'.start.p, id);
            var k' := Cluster(k.sites[pid := s'], Ended(k.net, pid, forgets));
            AllReady(k') && Project(k', id) == Ended(g, pid, forgets).(part := g.part[pid := View(s'.start.p, id)])
  {
    var s' := Closed(k.sites[pid], b, oldest);
    ProjectOne(k, id, pid, s', Ended(k.net, pid, Forgets(Now(k.sites[pid]).p, s'.start.p, id)));
  }

  lemma {:induction false} CloseMoves(cfg: P.Config, id: TxnId, k: Cluster, pid: nat, b: Batch, oldest: nat)
    requires Fits(cfg, id) && ClusterOk(cfg, id, k) && Allowed(cfg, id, k, Close(pid, b, oldest))
    ensures var k' := After(cfg, id, k, Close(pid, b, oldest));
            AllReady(k') && Moves(cfg, Project(k, id), Project(k', id))
  {
    var s := k.sites[pid];
    ProjectClosed(k, id, pid, b, oldest);
    EndView(Now(s).p, b.maxTimestamp, oldest, id);
    EndMoves(cfg, Project(k, id), pid, Now(s).p, Closed(s, b, oldest).start.p, id);
  }

  lemma {:induction false} TalkMoves(cfg: P.Config, id: TxnId, k: Cluster, s: P.Step)
    requires Fits(cfg, id) && ClusterOk(cfg, id, k) && Allowed(cfg, id, k, Talk(s))
    ensures var k' := After(cfg, id, k, Talk(s)); AllReady(k') && Moves(cfg, Project(k, id), Project(k', id))
  {
    var g := Project(k, id);
    MovesBy(cfg, g, s);
    assert P.Do(cfg, g, s).part == g.part;
  }

  lemma {:induction false} OneSiteKeepsOk(cfg: P.Config, id: TxnId, k: Cluster, pid: nat, k': Cluster)
    requires ClusterOk(cfg, id, k) && pid in k.sites && pid in k'.sites && k'.sites == k.sites[pid := k'.sites[pid]]
    requires SiteOk(pid, k'.sites[pid], id) && AllReady(k') && Moves(cfg, Project(k, id), Project(k', id))
    ensures ClusterOk(cfg, id, k')
  {
    MovesReach(cfg, Project(k, id), Project(k', id));
  }

  lemma {:induction false} TakeKeepsOk(cfg: P.Config, id: TxnId, k: Cluster, pid: nat, c: Command)
    requires Fits(cfg, id) && ClusterOk(cfg, id, k) && Allowed(cfg, id, k, Take(pid, c))
    ensures ClusterOk(cfg, id, After(cfg, id, k, Take(pid, c)))
  {
    if Target(c) == id {
      TakeOwn(cfg, k, pid, c);
    } else {
      TakeOther(cfg, id, k, pid, c);
    }
    assert SiteOk(pid, k.sites[pid], id);
    TakenOk(pid, k.sites[pid], c, id);
    OneSiteKeepsOk(cfg, id, k, pid, After(cfg, id, k, Take(pid, c)));
  }

  lemma {:induction false} CloseKeepsOk(cfg: P.Config, id: TxnId, k: Cluster, pid: nat, b: Batch, oldest: nat)
    requires Fits(cfg, id) && ClusterOk(cfg, id, k) && Allowed(cfg, id, k, Close(pid, b, oldest))
    ensures ClusterOk(cfg, id, After(cfg, id, k, Close(pid, b, oldest)))
  {
    CloseMoves(cfg, id, k, pid, b, oldest);
    ClosedOk(pid, k.sites[pid], b, oldest, id);
    OneSiteKeepsOk(cfg, id, k, pid, After(cfg, id, k, Close(pid, b, oldest)));
  }

  lemma {:induction false} TalkKeepsOk(cfg: P.Config, id: TxnId, k: Cluster, s: P.Step)
    requires Fits(cfg, id) && ClusterOk(cfg, id, k) && Allowed(cfg, id, k, Talk(s))
    ensures ClusterOk(cfg, id, After(cfg, id, k, Talk(s)))
  {
    TalkMoves(cfg, id, k, s);
    MovesReach(cfg, Project(k, id), Project(After(cfg, id, k, Talk(s)), id));
  }

  lemma {:induction false} EventKeepsOk(cfg: P.Config, id: TxnId, k: Cluster, e: Event)
    requires Fits(cfg, id) && ClusterOk(cfg, id, k) && Allowed(cfg, id, k, e)
    ensures ClusterOk(cfg, id, After(cfg, id, k, e))
  {
    match e {
      case Talk(s) => TalkKeepsOk(cfg, id, k, s);
      case Take(pid, c) => TakeKeepsOk(cfg, id, k, pid, c);
      case Close(pid, b, oldest) => CloseKeepsOk(cfg, id, k, pid, b, oldest);
    }
  }

  lemma {:induction false} RunKeepsOk(cfg: P.Config, id: TxnId, run: seq<Cluster>, n: nat)
    requires IsRun(cfg, id, run) && n < |run|
    ensures ClusterOk(cfg, id, run[n])
  {
    if n == 0 {
      InitOk(cfg, id);
    } else {
      RunKeepsOk(cfg, id, run, n - 1);
      assert Next(cfg, id, run[n - 1], run[n - 1 + 1]);
      var e :| Allowed(cfg, id, run[n - 1], e) && run[n] == After(cfg, id, run[n - 1], e);
      EventKeepsOk(cfg, id, run[n - 1], e);
    }
  }

  /**
   * Main result: a cluster whose partitions take the commands on a transaction from the wire is, seen through that
   * transaction, in a state two-phase commit can reach; and each partition is where its own log leads.
   */
  lemma {:induction false} ClusterIsProtocol(cfg: P.Config, id: TxnId, k: Cluster)
    requires Reachable(cfg, id, k)
    ensures AllReady(k) && k.sites.Keys == cfg.parts && P.Reachable(cfg, Project(k, id))
    ensures forall pid :: pid in k.sites ==>
              StampedLog(k.sites[pid].log) && RunLog(Start(pid), k.sites[pid].log) == k.sites[pid].start
  {
    var run :| IsRun(cfg, id, run) && run[|run| - 1] == k;
    RunKeepsOk(cfg, id, run, |run| - 1);
    forall pid | pid in k.sites
      ensures StampedLog(k.sites[pid].log) && RunLog(Start(pid), k.sites[pid].log) == k.sites[pid].start
    {
      assert SiteOk(pid, k.sites[pid], id);
    }
  }

  // ---- what follows for the partitions' logs

  /** In a safe setting no partition has aborted what another has committed. */
  lemma {:induction false} ClusterIsAtomic(cfg: P.Config, id: TxnId, k: Cluster, a: nat, b: nat)
    requires Fits(cfg, id) && cfg.Safe() && Reachable(cfg, id, k) && AllReady(k) && a in k.sites && b in k.sites
    requires View(Now(k.sites[a]).p, id).Committed?
    ensures !View(Now(k.sites[b]).p, id).Aborted? && !View(Now(k.sites[b]).p, id).Timedout?
  {
    ClusterIsProtocol(cfg, id, k);
    var g := Project(k, id);
    P.ReachableKeepsInv(cfg, g);
    P.SafeIsAtomic(cfg, g);
    assert g.part[a].Committed? && (a, g.part[a].commitAt) in g.didCommit;
    assert b in g.part;
  }

  ghost predicate Leads(w: World, log: seq<LogEntry>, end: World) {
    FreshLog(w, log) && RunLog(w, log) == end
  }

  lemma {:induction false} LeadsNot(w: World, end: World)
    ensures Leads(w, [], end) <==> end == w
  {
  }

  lemma {:induction false} LeadsOn(w: World, log: seq<LogEntry>, end: World) returns (v: World)
    requires Leads(w, log, end) && log != []
    ensures FreshBatch(w, log[0].batch) && v == RunBatch(w, log[0].batch, log[0].oldest) && Leads(v, log[1..], end)
  {
    v := RunBatch(w, log[0].batch, log[0].oldest);
  }

  lemma {:induction false} LeadsFrom(w: World, log: seq<LogEntry>, v: World, end: World)
    requires log != [] && FreshBatch(w, log[0].batch) && v == RunBatch(w, log[0].batch, log[0].oldest)
    requires Leads(v, log[1..], end)
    ensures Leads(w, log, end)
  {
    Leadership.LogHead(w, log[0], log[1..]);
    assert [log[0]] + log[1..] == log;
  }

  /** A log can be read in two parts. */
  lemma {:induction false} LogParts(w: World, a: seq<LogEntry>, b: seq<LogEntry>, log: seq<LogEntry>, end: World)
    returns (mid: World)
    requires log == a + b && Leads(w, log, end)
    ensures Leads(w, a, mid) && Leads(mid, b, end)
    decreases |a|
  {
    if a == [] {
      assert log == b;
      mid := w;
      LeadsNot(w, w);
    } else {
      assert log[0] == a[0] && log[1..] == a[1..] + b;
      var v := LeadsOn(w, log, end);
      mid := LogParts(v, a[1..], b, log[1..], end);
      LeadsFrom(w, a, v, mid);
    }
  }

  /** The state of a partition after the first `n` batches of its log. */
  ghost function StateAfter(pid: nat, s: Site, n: nat): World
    requires StampedLog(s.log) && n <= |s.log|
  {
    RunLog(Start(pid), s.log[..n])
  }

  /**
   * After some batches of its fresh log the partition served a read at `t` that covers the address, and by now the
   * transaction, which writes it, stands as committed.
   */
  ghost predicate Reads(k: Cluster, id: TxnId, t: nat, pid: nat, n: nat, txn: seq<Action>, a: Address) {
    pid in k.sites && FreshLog(Start(pid), k.sites[pid].log) && n <= |k.sites[pid].log| && k.sites[pid].cmds == [] &&
    Served(StateAfter(pid, k.sites[pid], n), txn, t) && ListCovers(LocksOf(txn), a) &&
    var p := k.sites[pid].start.p;
    View(p, id).Committed? && id in p.prepared && LastWrite(p.prepared[id].txn.actions, a).Some?
  }

  lemma {:induction false} PidKept(w: World, log: seq<LogEntry>)
    requires StampedLog(log)
    ensures RunLog(w, log).p.pid == w.p.pid
    decreases |log|
  {
    if log != [] {
      CommandsKeepPid(w.p, w.p.db, Sequence(log[0].batch));
      PidKept(RunBatch(w, log[0].batch, log[0].oldest), log[1..]);
    }
  }

  lemma {:induction false} CommandsKeepPid(p: Partition, base: Db, cs: seq<Command>)
    requires AllStamped(cs)
    ensures ApplyAll(p, base, cs).pid == p.pid
  {
    if cs != [] {
      CommandsKeepPid(p, base, cs[..|cs| - 1]);
    }
  }

  lemma {:induction false} PastIsSound(pid: nat, log: seq<LogEntry>)
    requires FreshLog(Start(pid), log)
    ensures AllStored(RunLog(Start(pid), log).p) && Exclusion(RunLog(Start(pid), log).p)
  {
    InitInv(pid);
    LogKeepsInv(Start(pid), log);
    LogStores(Start(pid), log);
  }

  lemma {:induction false} SitePast(pid: nat, s: Site, n: nat)
    requires FreshLog(Start(pid), s.log) && RunLog(Start(pid), s.log) == s.start && n <= |s.log|
    ensures AllStored(StateAfter(pid, s, n).p) && Exclusion(StateAfter(pid, s, n).p) && s.start.p.pid == pid
    ensures FreshLog(StateAfter(pid, s, n), s.log[n..]) && RunLog(StateAfter(pid, s, n), s.log[n..]) == s.start
  {
    var a, b := s.log[..n], s.log[n..];
    assert a + b == s.log;
    var mid := LogParts(Start(pid), a, b, s.log, s.start);
    PastIsSound(pid, a);
    PidKept(Start(pid), s.log);
  }

  lemma {:induction false} ReadsTake(cfg: P.Config, id: TxnId, k: Cluster, t: nat, pid: nat, n: nat, txn: seq<Action>,
                                     a: Address)
    requires Reachable(cfg, id, k) && Reads(k, id, t, pid, n, txn, a)
    ensures AllReady(k) && k.sites.Keys == cfg.parts
    ensures var s := k.sites[pid];
            Takes(cfg, Project(k, id), id, StateAfter(pid, s, n), s.log[n..], a) &&
            RunLog(StateAfter(pid, s, n), s.log[n..]) == s.start
  {
    ClusterIsProtocol(cfg, id, k);
    var s := k.sites[pid];
    SitePast(pid, s, n);
    assert Now(s) == s.start;
  }

  /**
   * Main result: in a running cluster, reads of one timestamp on two partitions, served at unrelated moments, see both
   * of a distributed transaction's writes or neither, and the transaction has one commit timestamp on both.
   */
  lemma {:induction false} ClusterCut(cfg: P.Config, id: TxnId, k: Cluster, t: nat,
                                      pid1: nat, n1: nat, txn1: seq<Action>, a1: Address,
                                      pid2: nat, n2: nat, txn2: seq<Action>, a2: Address)
    requires Fits(cfg, id) && Reachable(cfg, id, k)
    requires Reads(k, id, t, pid1, n1, txn1, a1) && Reads(k, id, t, pid2, n2, txn2, a2)
    ensures var c := View(k.sites[pid1].start.p, id).commitAt;
            View(k.sites[pid2].start.p, id) == P.Committed(c) &&
            (Visible(StateAfter(pid1, k.sites[pid1], n1), a1, c, t) <==>
             Visible(StateAfter(pid2, k.sites[pid2], n2), a2, c, t))
  {
    ReadsTake(cfg, id, k, t, pid1, n1, txn1, a1);
    ReadsTake(cfg, id, k, t, pid2, n2, txn2, a2);
    ClusterIsProtocol(cfg, id, k);
    TransactionCut(cfg, Project(k, id), id, t,
                   StateAfter(pid1, k.sites[pid1], n1), k.sites[pid1].log[n1..], txn1, a1,
                   StateAfter(pid2, k.sites[pid2], n2), k.sites[pid2].log[n2..], txn2, a2);
  }
}
