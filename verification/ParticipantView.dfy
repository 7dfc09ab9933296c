/**
 * The partition state machine seen through one transaction: each command on that transaction acts on its view
 * exactly as the two-phase commit protocol says, and commands on others leave the view alone.
 */
module ParticipantView {
  import opened Options
  import opened MvccStore
  import opened TxnManager
  import opened PartitionSafety
  import opened PartitionRuns
  import P = TwoPhaseCommit

  function View(p: Partition, id: TxnId): P.PState {
    if id !in p.status then P.Absent
    else
      var s := p.status[id];
      match s.state
      case Prepared => P.Prepared(s.timestamp)
      case Decided =>
        if id in p.prepared && p.prepared[id].decision.Some?
        then P.Decided(p.prepared[id].timestamp, p.prepared[id].decision.value.commitTimestamp)
        else P.Absent
      case Committed => P.Committed(s.timestamp)
      case Aborted => P.Aborted
      case Timedout => P.Timedout
  }

  function Target(c: Command): TxnId {
    if c.Autocommit? || c.Prepare? then c.txn.id else c.id
  }

  /** The protocol's own account of what a command does to a transaction it names. */
  function Expected(s: P.PState, c: Command): P.PState
  {
    match c
    case Abort(_, _) => P.AfterAbort(s)
    case MarkTimedout(_, _, _) => P.AfterTimeout(s)
    case Commit(_, ts) => P.AfterCommit(s, ts)
    case Prepare(_, ts) => P.AfterPrepare(s, ts)
    case StoreDecision(_, _, d) => P.AfterDecision(s, d.commitTimestamp)
    case Autocommit(_, ts) => if s.Absent? then P.Committed(ts) else s
  }

  /** The command reaches a transaction it can act on: one that takes part in two-phase commit on this partition. */
  predicate Addressed(p: Partition, c: Command) {
    match c
    case Abort(id, _) => id in p.prepared
    case Commit(id, _) => id in p.prepared
    case MarkTimedout(id, _, _) => id in p.prepared && id.principal == p.pid
    case StoreDecision(id, _, _) => id in p.prepared && id.principal == p.pid
    case _ => true
  }

  lemma {:induction false} OthersUntouched(p: Partition, base: Db, c: Command, id: TxnId)
    requires Stamped(c) && id != Target(c)
    ensures View(Apply(p, base, c).0, id) == View(p, id)
  {
  }

  ghost predicate Follows(p: Partition, q: Partition, r: Reply, c: Command) {
    var s, s' := View(p, Target(c)), View(q, Target(c));
    (Addressed(p, c) && !r.Refused? ==> s' == Expected(s, c)) && (!Addressed(p, c) || r.Refused? ==> s' == s)
  }

  lemma {:induction false} AutocommitFollows(p: Partition, high: nat, base: Db, txn: Txn, ts: nat)
    requires ts > 0 && Shape(p, high)
    ensures var (q, r) := ApplyAutocommit(p, base, txn, ts); Follows(p, q, r, Autocommit(txn, ts))
  {
    assert txn.id in p.status && p.status[txn.id].state.Decided? ==> EntryOk(p, txn.id, high);
  }

  lemma {:induction false} PrepareFollows(p: Partition, high: nat, base: Db, txn: Txn, ts: nat)
    requires ts > 0 && Shape(p, high)
    ensures var (q, r) := ApplyPrepare(p, base, txn, ts); Follows(p, q, r, Prepare(txn, ts))
  {
    assert txn.id in p.status && p.status[txn.id].state.Decided? ==> EntryOk(p, txn.id, high);
  }

  lemma {:induction false} CommitFollows(p: Partition, high: nat, id: TxnId, ts: nat)
    requires Shape(p, high)
    ensures Follows(p, ApplyCommit(p, id, ts).0, ApplyCommit(p, id, ts).1, Commit(id, ts))
  {
    assert id in p.prepared ==> EntryOk(p, id, high);
  }

  lemma {:induction false} AbortFollows(p: Partition, high: nat, id: TxnId, ts: nat)
    requires Shape(p, high)
    ensures Follows(p, ApplyAbort(p, id, ts).0, ApplyAbort(p, id, ts).1, Abort(id, ts))
  {
    assert id in p.prepared ==> EntryOk(p, id, high);
  }

  lemma {:induction false} TimeoutFollows(p: Partition, high: nat, id: TxnId, ts: nat, release: bool)
    requires Shape(p, high)
    ensures var (q, r) := ApplyMarkTimedout(p, id, ts, release); Follows(p, q, r, MarkTimedout(id, ts, release))
  {
    assert id in p.prepared ==> EntryOk(p, id, high);
  }

  lemma {:induction false} DecisionFollows(p: Partition, high: nat, id: TxnId, ts: nat, d: Decision)
    requires Shape(p, high)
    ensures var (q, r) := ApplyStoreDecision(p, id, ts, d); Follows(p, q, r, StoreDecision(id, ts, d))
  {
    assert id in p.prepared ==> EntryOk(p, id, high);
  }

  lemma {:induction false} OldFollows(p: Partition, high: nat, base: Db, c: Command)
    requires Stamped(c) && Shape(p, high) && (c.Abort? || c.MarkTimedout? || c.StoreDecision?)
    ensures Follows(p, Apply(p, base, c).0, Apply(p, base, c).1, c)
  {
    match c {
      case Abort(id, ts) => AbortFollows(p, high, id, ts);
      case MarkTimedout(id, ts, release) => TimeoutFollows(p, high, id, ts, release);
      case StoreDecision(id, ts, d) => DecisionFollows(p, high, id, ts, d);
    }
  }

  /**
   * A command moves its transaction as the protocol prescribes. New transactions may also be refused, for a lock or
   * a check, and then stay absent; commands that reach nothing they can act on change nothing.
   */
  lemma {:induction false} FollowsProtocol(p: Partition, high: nat, base: Db, c: Command)
    requires Stamped(c) && Shape(p, high)
    ensures Follows(p, Apply(p, base, c).0, Apply(p, base, c).1, c)
  {
    match c {
      case Autocommit(txn, ts) => AutocommitFollows(p, high, base, txn, ts);
      case Prepare(txn, ts) => PrepareFollows(p, high, base, txn, ts);
      case Commit(id, ts) => CommitFollows(p, high, id, ts);
      case _ => OldFollows(p, high, base, c);
    }
  }

  /** The answers the protocol relies on: "not found" means absent, and success means the state it names. */
  lemma {:induction false} AnswersAreTruthful(p: Partition, high: nat, base: Db, c: Command)
    requires Stamped(c) && Shape(p, high)
    ensures var (q, r) := Apply(p, base, c);
            (c.Commit? && r.Ok? ==> View(q, c.id).Committed?) &&
            (c.Abort? && r.Ok? ==> View(q, c.id).Aborted? || View(q, c.id).Timedout?) &&
            (c.StoreDecision? && r.Ok? && r.status.state.Decided? ==> View(q, c.id).Decided?) &&
            ((c.Commit? || c.Abort?) && r == Err(NotFound) ==> c.id !in p.prepared) &&
            (c.Prepare? && r.Ok? ==> View(q, c.txn.id) == P.Prepared(r.status.timestamp))
  {
    if Target(c) in p.prepared {
      assert EntryOk(p, Target(c), high);
    }
  }

  // ---- what the errors from storing a decision tell

  /** Requests to store an abort decision are turned down, so none is on record. */
  predicate OnlyCommitDecisions(p: Partition) {
    forall id :: id in p.prepared && p.prepared[id].decision.Some? ==> p.prepared[id].decision.value.commit
  }

  lemma {:induction false} DecisionsKept(p: Partition, base: Db, c: Command)
    requires Stamped(c) && OnlyCommitDecisions(p) && (c.StoreDecision? ==> c.decision.commit)
    ensures OnlyCommitDecisions(Apply(p, base, c).0)
  {
  }

  function ErrorOf(a: P.Answer): Option<Reply> {
    match a
    case NoReply => None
    case NotFound => Some(Err(NotFound))
    case FailedPrecondition => Some(Err(FailedPrecondition))
    case InvalidRequest => Some(Err(InvalidRequest))
  }

  /** The principal answers a decision as the protocol has it: success, or the error that its view calls for. */
  lemma {:induction false} DecisionAnswers(p: Partition, high: nat, id: TxnId, ts: nat, d: Decision)
    requires Shape(p, high) && OnlyCommitDecisions(p) && d.commit
    requires id.principal == p.pid && (id in p.status ==> id in p.prepared)
    ensures var r, answer := ApplyStoreDecision(p, id, ts, d).1, P.AnswerTo(View(p, id), d.commitTimestamp);
            if answer.None? then r.Ok? else ErrorOf(answer.value) == Some(r)
  {
    if id in p.prepared {
      assert EntryOk(p, id, high);
    }
  }

  /**
   * "Failed precondition" and "not found" do not show that a decision was not stored: once it has been carried out,
   * a repeated request gets the one and, after the clean-up, the other.
   */
  lemma {:induction false} RepeatedIsLate(p: Partition, high: nat, id: TxnId, ts: nat, d: Decision, oldest: nat)
    requires Shape(p, high) && id.principal == p.pid && id in p.prepared && View(p, id).Decided?
    requires oldest >= View(p, id).commitAt
    ensures var q := ApplyCommit(p, id, View(p, id).commitAt).0;
            View(q, id) == P.Committed(View(p, id).commitAt) &&
            ApplyStoreDecision(q, id, ts, d).1 == Err(FailedPrecondition) &&
            ApplyStoreDecision(Cleanup(Finish(q), oldest), id, ts, d).1 == Err(NotFound)
  {
    assert EntryOk(p, id, high);
    var q := ApplyCommit(p, id, View(p, id).commitAt).0;
    var f := Finish(q);
    assert f.status == q.status && id in f.prepared && f.prepared[id].released;
    assert Forgettable(f, id, oldest);
  }

  /** Storing the batch changes no view; the clean-up only forgets transactions that are final and hold no lock. */
  lemma {:induction false} EndOfBatch(p: Partition, oldest: nat, id: TxnId)
    ensures View(Finish(p), id) == View(p, id)
    ensures View(Cleanup(p, oldest), id) == View(p, id) ||
            (P.Final(View(p, id)) && View(Cleanup(p, oldest), id).Absent? && !Held(p, id))
  {
  }

  // ---- what the watchdog is told about running transactions

  datatype Running = Running(id: TxnId, timestamp: nat, state: State, participants: seq<nat>)

  /** The transactions a new leader's watchdog loads: own ones, still holding their locks. */
  function GetRunning(p: Partition): set<Running> {
    set id | id in p.prepared && id.principal == p.pid && !p.prepared[id].released && id in p.status ::
      Running(id, p.status[id].timestamp, p.status[id].state, p.status[id].participants)
  }

  /** Exactly the partition's own transactions that hold locks are loaded, each with the status on record. */
  lemma {:induction false} RunningExact(p: Partition, high: nat, id: TxnId)
    requires Shape(p, high)
    ensures Held(p, id) && id.principal == p.pid <==> exists r :: r in GetRunning(p) && r.id == id
    ensures forall r :: r in GetRunning(p) ==>
              r.id in p.status && r.timestamp == p.status[r.id].timestamp && r.state == p.status[r.id].state &&
              r.participants == p.status[r.id].participants
  {
    if Held(p, id) && id.principal == p.pid {
      assert EntryOk(p, id, high);
      var s := p.status[id];
      assert Running(id, s.timestamp, s.state, s.participants) in GetRunning(p);
    }
  }

  /** Participants are recorded in a status only when it commits. */
  predicate OnlyCommittedNameParticipants(p: Partition) {
    forall id :: id in p.status && !p.status[id].state.Committed? ==> p.status[id].participants == []
  }

  lemma {:induction false} ParticipantsUnnamed(p: Partition, base: Db, c: Command)
    requires Stamped(c) && OnlyCommittedNameParticipants(p)
    ensures OnlyCommittedNameParticipants(Apply(p, base, c).0)
  {
  }

  lemma {:induction false} ParticipantsUnnamedAll(p: Partition, base: Db, cs: seq<Command>)
    requires AllStamped(cs) && OnlyCommittedNameParticipants(p)
    ensures OnlyCommittedNameParticipants(ApplyAll(p, base, cs))
  {
    if cs != [] {
      ParticipantsUnnamedAll(p, base, cs[..|cs| - 1]);
      ParticipantsUnnamed(ApplyAll(p, base, cs[..|cs| - 1]), base, cs[|cs| - 1]);
    }
  }

  lemma {:induction false} LogNamesNone(w: World, log: seq<LogEntry>)
    requires OnlyCommittedNameParticipants(w.p) && StampedLog(log)
    ensures OnlyCommittedNameParticipants(RunLog(w, log).p)
    decreases |log|
  {
    if log != [] {
      ParticipantsUnnamedAll(w.p, w.p.db, Sequence(log[0].batch));
      LogNamesNone(RunBatch(w, log[0].batch, log[0].oldest), log[1..]);
    }
  }

  /**
   * Whatever a partition has applied, the record the watchdog loads for a transaction that is prepared, decided or
   * timed out names no participants at all.
   */
  lemma {:induction false} WatchdogLoadsNoParticipants(pid: nat, log: seq<LogEntry>, r: Running)
    requires StampedLog(log) && r in GetRunning(RunLog(Start(pid), log).p) && !r.state.Committed?
    ensures r.participants == []
  {
    LogNamesNone(Start(pid), log);
  }
}
