/**
 * The answers of a partition, for every command in every state: which one comes when, what it leaves on record, that
 * asking again gives the same answer, and in which order a batch is taken.
 */
module CommandReplies {
  import opened Options
  import opened MvccStore
  import opened TxnManager
  import opened PartitionSafety
  import opened ParticipantView
  import P = TwoPhaseCommit

  /** Commits are answered by where the transaction stands and which commit timestamps the protocol allows there. */
  lemma {:induction false} CommitAnswersExact(p: Partition, high: nat, id: TxnId, ts: nat)
    requires Shape(p, high)
    ensures var s, r := View(p, id), ApplyCommit(p, id, ts).1;
            (r == Err(NotFound) <==> id !in p.prepared) &&
            (r.Ok? <==> id in p.prepared && (s.Committed? || P.CommitAllowed(s, ts))) &&
            (r == Err(FailedPrecondition) <==> id in p.prepared && (s.Aborted? || s.Timedout?)) &&
            (r == Err(InvalidRequest) <==>
               id in p.prepared && (s.Prepared? || s.Decided?) && !P.CommitAllowed(s, ts))
  {
    assert id in p.prepared ==> EntryOk(p, id, high);
  }

  /** An abort comes too late exactly once the transaction is decided or committed. */
  lemma {:induction false} AbortAnswersExact(p: Partition, high: nat, id: TxnId, ts: nat)
    requires Shape(p, high)
    ensures var s, r := View(p, id), ApplyAbort(p, id, ts).1;
            (r == Err(NotFound) <==> id !in p.prepared) &&
            (r.Ok? <==> id in p.prepared && (s.Prepared? || s.Aborted? || s.Timedout?)) &&
            (r == Err(FailedPrecondition) <==> id in p.prepared && (s.Decided? || s.Committed?))
  {
    assert id in p.prepared ==> EntryOk(p, id, high);
  }

  /** Only the principal marks as timed out, and only what is not decided, committed or aborted. */
  lemma {:induction false} TimeoutAnswersExact(p: Partition, high: nat, id: TxnId, ts: nat, release: bool)
    requires Shape(p, high)
    ensures var s, r := View(p, id), ApplyMarkTimedout(p, id, ts, release).1;
            (r == Err(PermissionDenied) <==> id in p.status && id.principal != p.pid) &&
            (r.Ok? <==> id in p.prepared && id.principal == p.pid && (s.Prepared? || s.Timedout?)) &&
            (r == Err(FailedPrecondition) <==>
               id in p.prepared && id.principal == p.pid && (s.Decided? || s.Committed? || s.Aborted?)) &&
            (r == Err(NotFound) <==> id !in p.status || (id.principal == p.pid && id !in p.prepared))
  {
    assert id in p.prepared ==> EntryOk(p, id, high);
  }

  /** Only the principal stores decisions, of prepared transactions, at or above the timestamp they prepared at. */
  lemma {:induction false} DecisionAnswersExact(p: Partition, high: nat, id: TxnId, ts: nat, d: Decision)
    requires Shape(p, high) && OnlyCommitDecisions(p) && d.commit
    ensures var s, r := View(p, id), ApplyStoreDecision(p, id, ts, d).1;
            (r == Err(PermissionDenied) <==> id in p.status && id.principal != p.pid) &&
            (r.Ok? <==> id in p.prepared && id.principal == p.pid &&
                        (s.Decided? || s.Timedout? || (s.Prepared? && d.commitTimestamp >= s.at))) &&
            (r == Err(InvalidRequest) <==>
               id in p.prepared && id.principal == p.pid && s.Prepared? && d.commitTimestamp < s.at) &&
            (r == Err(FailedPrecondition) <==>
               id in p.prepared && id.principal == p.pid && (s.Committed? || s.Aborted?)) &&
            (r == Err(NotFound) <==> id !in p.status || (id.principal == p.pid && id !in p.prepared))
  {
    assert id in p.prepared ==> EntryOk(p, id, high);
  }

  /** A transaction that is on record already is not started again: it gets its status, or "failed precondition". */
  lemma {:induction false} StartAnswersExact(p: Partition, high: nat, base: Db, txn: Txn, ts: nat)
    requires Shape(p, high) && ts > 0
    ensures var s, r := View(p, txn.id), ApplyPrepare(p, base, txn, ts).1;
            (r.Ok? <==> s.Prepared? || (txn.id !in p.status && Admit(p, base, txn, ts).None?)) &&
            (r.Refused? ==> txn.id !in p.status && Admit(p, base, txn, ts) == Some(r)) &&
            (r.Err? ==> r == Err(FailedPrecondition) && txn.id in p.status && !s.Prepared?)
    ensures var s, r := View(p, txn.id), ApplyAutocommit(p, base, txn, ts).1;
            (r.Ok? <==> s.Committed? || (txn.id !in p.status && Admit(p, base, txn, ts).None?)) &&
            (r.Refused? ==> txn.id !in p.status && Admit(p, base, txn, ts) == Some(r)) &&
            (r.Err? ==> r == Err(FailedPrecondition) && txn.id in p.status && !s.Committed?)
  {
    assert txn.id in p.status && p.status[txn.id].state.Decided? ==> EntryOk(p, txn.id, high);
  }

  // ---- what is left on record

  /** The state a command takes a transaction to when it is carried out. */
  function Reaches(c: Command): State {
    match c
    case Abort(_, _) => Aborted
    case MarkTimedout(_, _, _) => Timedout
    case Commit(_, _) => Committed
    case Autocommit(_, _) => Committed
    case Prepare(_, _) => Prepared
    case StoreDecision(_, _, _) => Decided
  }

  /**
   * Success reports the status that is on record afterwards. A new status carries the command's own timestamp and
   * state; a commit also names the participants of the transaction that was prepared. Without success nothing changes.
   */
  lemma {:induction false} RecordExact(p: Partition, base: Db, c: Command)
    requires Stamped(c)
    ensures var (q, r) := Apply(p, base, c);
            var id := Target(c);
            (!r.Ok? ==> q == p) && (r.Ok? ==> id in q.status && q.status[id] == r.status) &&
            (r.Ok? && (id !in p.status || p.status[id] != r.status) ==>
               r.status.timestamp == c.timestamp && r.status.state == Reaches(c) &&
               r.status.participants == if c.Commit? && id in p.prepared then p.prepared[id].txn.participants else [])
  {
  }

  /** A decision that is stored is the one that was sent, and stays. */
  lemma {:induction false} DecisionOnRecord(p: Partition, id: TxnId, ts: nat, d: Decision)
    ensures var (q, r) := ApplyStoreDecision(p, id, ts, d);
            (r.Ok? && p.status[id].state.Prepared? ==> id in q.prepared && q.prepared[id].decision == Some(d)) &&
            (forall other :: other in p.prepared && !(other == id && r.Ok? && p.status[id].state.Prepared?) ==>
               other in q.prepared && q.prepared[other].decision == p.prepared[other].decision)
  {
  }

  /** A command that succeeded gets the same answer when repeated, and changes nothing, unless to release locks. */
  lemma {:induction false} RepeatIsSafe(p: Partition, base: Db, c: Command, base': Db)
    requires Stamped(c) && Apply(p, base, c).1.Ok?
    ensures var (q, r) := Apply(p, base, c);
            Apply(q, base', c).1 == r &&
            (!(c.MarkTimedout? && c.releaseLocks) ==> Apply(q, base', c).0 == q)
  {
    var (q, r) := Apply(p, base, c);
    if c.MarkTimedout? && q.prepared != p.prepared {
      assert q.prepared[c.id := Release(q.prepared[c.id])] == q.prepared;
    }
  }

  // ---- batches

  /** Each list of a batch holds commands of its kind. */
  predicate ByKind(b: Batch) {
    (forall i :: 0 <= i < |b.abort| ==> b.abort[i].Abort?) &&
    (forall i :: 0 <= i < |b.markTimedout| ==> b.markTimedout[i].MarkTimedout?) &&
    (forall i :: 0 <= i < |b.commit| ==> b.commit[i].Commit?) &&
    (forall i :: 0 <= i < |b.autocommit| ==> b.autocommit[i].Autocommit?) &&
    (forall i :: 0 <= i < |b.prepare| ==> b.prepare[i].Prepare?) &&
    (forall i :: 0 <= i < |b.storeDecision| ==> b.storeDecision[i].StoreDecision?)
  }

  /** What lets go of locks comes before what finishes, and that before what takes locks. */
  predicate InOrder(c: Command, d: Command) {
    (d.Abort? ==> c.Abort?) && (d.MarkTimedout? ==> c.Abort? || c.MarkTimedout?) &&
    (d.Commit? ==> c.Abort? || c.MarkTimedout? || c.Commit?) &&
    (d.Autocommit? ==> !c.Prepare? && !c.StoreDecision?) && (d.Prepare? ==> !c.StoreDecision?)
  }

  /** A batch is applied in that order, every command of it once. */
  lemma {:induction false} BatchOrder(b: Batch)
    requires ByKind(b)
    ensures forall i, j :: 0 <= i < j < |Sequence(b)| ==> InOrder(Sequence(b)[i], Sequence(b)[j])
    ensures multiset(Sequence(b)) ==
            multiset(b.abort) + multiset(b.markTimedout) + multiset(b.commit) + multiset(b.autocommit) +
            multiset(b.prepare) + multiset(b.storeDecision)
  {
  }

  /** After a batch nothing is on record that is final, old and without locks, and nothing else is gone. */
  lemma {:induction false} BatchForgetsExactly(p: Partition, b: Batch, oldest: nat, id: TxnId)
    requires AllStamped(Sequence(b))
    ensures var mid, q := Finish(ApplyAll(p, p.db, Sequence(b))), ApplyBatch(p, b, oldest);
            q.maxTimestamp == b.maxTimestamp && q.db == mid.db &&
            (id in q.status ==> !IsFinal(q.status[id].state) || q.status[id].timestamp > oldest || Held(q, id)) &&
            (id in mid.status &&
             (!IsFinal(mid.status[id].state) || mid.status[id].timestamp > oldest || Held(mid, id)) ==>
               id in q.status && q.status[id] == mid.status[id]) &&
            (id in mid.prepared && (id !in mid.status || id in q.status) ==>
               id in q.prepared && q.prepared[id] == mid.prepared[id]) &&
            (id in mid.status && id !in q.status ==> id !in q.prepared)
  {
  }
}
