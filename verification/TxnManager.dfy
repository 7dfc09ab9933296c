/**
 * The transaction state machine of one partition, as its Raft log drives it: two-phase locking, the participant
 * side of two-phase commit, and the batches in which commands are applied.
 */
module TxnManager {
  import opened Options
  import opened TxnLocks
  import opened MvccStore

  datatype TxnId = TxnId(principal: nat, server: nat, timestamp: nat)
  datatype Txn = Txn(id: TxnId, actions: seq<Action>, participants: seq<nat>)

  /** The states a partition stores. Pending and Failed exist on the wire only. */
  datatype State = Prepared | Decided | Committed | Aborted | Timedout

  predicate IsFinal(s: State) {
    s.Committed? || s.Aborted? || s.Timedout?
  }

  datatype Status = Status(timestamp: nat, state: State, participants: seq<nat>)
  datatype Decision = Decision(commit: bool, commitTimestamp: nat)

  datatype Entry = Entry(txn: Txn, timestamp: nat, locks: seq<Lock>, released: bool, decision: Option<Decision>)

  datatype Partition = Partition(
    pid: nat,
    status: map<TxnId, Status>,
    prepared: map<TxnId, Entry>,
    maxTimestamp: nat,
    db: Db)

  datatype Code = KeyNotFound | KeyAlreadyExists | LockCheckFailed | LockFailed
  datatype Error = NotFound | FailedPrecondition | InvalidRequest | PermissionDenied

  datatype Reply = Ok(status: Status) | Refused(actionId: nat, code: Code) | Err(error: Error)

  // ---- lock table

  predicate Held(p: Partition, id: TxnId) {
    id in p.prepared && !p.prepared[id].released
  }

  predicate LockFree(p: Partition, l: Lock) {
    forall id :: id in p.prepared && !p.prepared[id].released ==>
      forall m :: m in p.prepared[id].locks ==> CompatibleWith(l, m)
  }

  /** The action whose lock is the first to conflict with a held one. */
  function FirstBlocked(p: Partition, locks: seq<Lock>): (r: Option<nat>)
    ensures r.None? <==> forall i :: 0 <= i < |locks| ==> LockFree(p, locks[i])
  {
    if locks == [] then None
    else
      var front := FirstBlocked(p, locks[..|locks| - 1]);
      if front.Some? then front
      else if LockFree(p, locks[|locks| - 1]) then None
      else Some(locks[|locks| - 1].actionId)
  }

  function FailureCode(act: Action): Code {
    match act.payload
    case Insert(_, _, _) => KeyAlreadyExists
    case Update(_, _, _) => KeyNotFound
    case Delete(_, _) => KeyNotFound
    case _ => LockCheckFailed
  }

  /** The first action whose check fails on the snapshot. */
  function FirstInvalid(db: Db, actions: seq<Action>, timestamp: nat): (r: Option<(nat, Code)>)
    ensures r.None? <==> ChecksHold(db, actions, timestamp)
  {
    if actions == [] then None
    else
      var front := FirstInvalid(db, actions[..|actions| - 1], timestamp);
      var last := actions[|actions| - 1];
      if front.Some? then front
      else if CheckHolds(db, last, timestamp) then None
      else Some((last.id, FailureCode(last)))
  }

  function Release(x: Entry): Entry {
    x.(locks := [], released := true)
  }

  // ---- single commands; `base` is the store as it was when the batch began, which is what checks look at

  datatype Command =
    | Abort(id: TxnId, timestamp: nat)
    | MarkTimedout(id: TxnId, timestamp: nat, releaseLocks: bool)
    | Commit(id: TxnId, timestamp: nat)
    | Autocommit(txn: Txn, timestamp: nat)
    | Prepare(txn: Txn, timestamp: nat)
    | StoreDecision(id: TxnId, timestamp: nat, decision: Decision)

  /** Why a transaction may not start: a held lock or a failed check. */
  function Admit(p: Partition, base: Db, txn: Txn, timestamp: nat): Option<Reply>
    requires timestamp > 0
  {
    match FirstBlocked(p, LocksOf(txn.actions))
    case Some(id) => Some(Refused(id, LockFailed))
    case None =>
      match FirstInvalid(base, txn.actions, timestamp - 1)
      case Some(f) => Some(Refused(f.0, f.1))
      case None => None
  }

  function ApplyAutocommit(p: Partition, base: Db, txn: Txn, timestamp: nat): (Partition, Reply)
    requires timestamp > 0
  {
    if txn.id in p.status then
      if p.status[txn.id].state.Committed? then (p, Ok(p.status[txn.id])) else (p, Err(FailedPrecondition))
    else
      match Admit(p, base, txn, timestamp)
      case Some(refusal) => (p, refusal)
      case None =>
        var status := Status(timestamp, Committed, []);
        (p.(status := p.status[txn.id := status], db := PutAll(p.db, txn.actions, timestamp)), Ok(status))
  }

  function ApplyPrepare(p: Partition, base: Db, txn: Txn, timestamp: nat): (Partition, Reply)
    requires timestamp > 0
  {
    if txn.id in p.status then
      if p.status[txn.id].state.Prepared? then (p, Ok(p.status[txn.id])) else (p, Err(FailedPrecondition))
    else
      match Admit(p, base, txn, timestamp)
      case Some(refusal) => (p, refusal)
      case None =>
        var status := Status(timestamp, Prepared, []);
        var entry := Entry(txn, timestamp, LocksOf(txn.actions), false, None);
        (p.(status := p.status[txn.id := status], prepared := p.prepared[txn.id := entry]), Ok(status))
  }

  /** The commit timestamps a prepared or decided transaction may commit at. */
  predicate CommitAllowed(s: Status, x: Entry, timestamp: nat) {
    if s.state.Decided? then x.decision.Some? && timestamp == x.decision.value.commitTimestamp
    else timestamp >= s.timestamp
  }

  /** The locks of a committed transaction stay held until the batch is stored. */
  function ApplyCommit(p: Partition, id: TxnId, timestamp: nat): (Partition, Reply) {
    if id !in p.status || id !in p.prepared then (p, Err(NotFound))
    else
      var s, x := p.status[id], p.prepared[id];
      if s.state.Committed? then (p, Ok(s))
      else if !s.state.Decided? && !s.state.Prepared? then (p, Err(FailedPrecondition))
      else if !CommitAllowed(s, x, timestamp) then (p, Err(InvalidRequest))
      else
        var status := Status(timestamp, Committed, x.txn.participants);
        (p.(status := p.status[id := status], db := PutAll(p.db, x.txn.actions, timestamp)), Ok(status))
  }

  function ApplyAbort(p: Partition, id: TxnId, timestamp: nat): (Partition, Reply) {
    if id !in p.status || id !in p.prepared then (p, Err(NotFound))
    else
      match p.status[id].state
      case Aborted => (p, Ok(p.status[id]))
      case Timedout => (p, Ok(p.status[id]))
      case Prepared =>
        var status := Status(timestamp, Aborted, []);
        (p.(status := p.status[id := status], prepared := p.prepared[id := Release(p.prepared[id])]), Ok(status))
      case _ => (p, Err(FailedPrecondition))
  }

  function ApplyStoreDecision(p: Partition, id: TxnId, timestamp: nat, decision: Decision): (Partition, Reply) {
    if id !in p.status then (p, Err(NotFound))
    else if id.principal != p.pid then (p, Err(PermissionDenied))
    else if id !in p.prepared then (p, Err(NotFound))
    else
      var s, x := p.status[id], p.prepared[id];
      match s.state
      case Decided =>
        if x.decision.Some? && x.decision.value.commit == decision.commit then (p, Ok(s))
        else (p, Err(FailedPrecondition))
      case Timedout => (p, Ok(s))
      case Prepared =>
        if decision.commitTimestamp < s.timestamp then (p, Err(InvalidRequest))
        else
          var status := Status(timestamp, Decided, []);
          (p.(status := p.status[id := status], prepared := p.prepared[id := x.(decision := Some(decision))]),
           Ok(status))
      case _ => (p, Err(FailedPrecondition))
  }

  function ApplyMarkTimedout(p: Partition, id: TxnId, timestamp: nat, releaseLocks: bool): (Partition, Reply) {
    if id !in p.status then (p, Err(NotFound))
    else if id.principal != p.pid then (p, Err(PermissionDenied))
    else if id !in p.prepared then (p, Err(NotFound))
    else
      match p.status[id].state
      case Timedout =>
        (if releaseLocks then p.(prepared := p.prepared[id := Release(p.prepared[id])]) else p, Ok(p.status[id]))
      case Prepared =>
        var status := Status(timestamp, Timedout, []);
        (p.(status := p.status[id := status]), Ok(status))
      case _ => (p, Err(FailedPrecondition))
  }

  predicate Stamped(c: Command) {
    c.timestamp > 0
  }

  function Apply(p: Partition, base: Db, c: Command): (Partition, Reply)
    requires Stamped(c)
  {
    match c
    case Abort(id, ts) => ApplyAbort(p, id, ts)
    case MarkTimedout(id, ts, release) => ApplyMarkTimedout(p, id, ts, release)
    case Commit(id, ts) => ApplyCommit(p, id, ts)
    case Autocommit(txn, ts) => ApplyAutocommit(p, base, txn, ts)
    case Prepare(txn, ts) => ApplyPrepare(p, base, txn, ts)
    case StoreDecision(id, ts, d) => ApplyStoreDecision(p, id, ts, d)
  }

  // ---- batches

  datatype Batch = Batch(
    abort: seq<Command>,
    markTimedout: seq<Command>,
    commit: seq<Command>,
    autocommit: seq<Command>,
    prepare: seq<Command>,
    storeDecision: seq<Command>,
    maxTimestamp: nat)

  /** Releasing commands first, then those that take no locks, then those that do. */
  function Sequence(b: Batch): seq<Command> {
    b.abort + b.markTimedout + b.commit + b.autocommit + b.prepare + b.storeDecision
  }

  predicate AllStamped(cs: seq<Command>) {
    forall i :: 0 <= i < |cs| ==> Stamped(cs[i])
  }

  lemma {:induction false} StampedAppend(cs: seq<Command>, ds: seq<Command>)
    requires AllStamped(cs + ds)
    ensures AllStamped(cs) && AllStamped(ds)
  {
    forall i | 0 <= i < |cs| ensures Stamped(cs[i]) {
      assert (cs + ds)[i] == cs[i];
    }
    forall i | 0 <= i < |ds| ensures Stamped(ds[i]) {
      assert (cs + ds)[|cs| + i] == ds[i];
    }
  }

  function ApplyAll(p: Partition, base: Db, cs: seq<Command>): Partition
    requires AllStamped(cs)
  {
    if cs == [] then p else Apply(ApplyAll(p, base, cs[..|cs| - 1]), base, cs[|cs| - 1]).0
  }

  /** The completions of a stored batch: committed transactions let go of their locks. */
  function Finish(p: Partition): Partition {
    p.(prepared := map id | id in p.prepared ::
         if id in p.status && p.status[id].state.Committed? then Release(p.prepared[id]) else p.prepared[id])
  }

  predicate Forgettable(p: Partition, id: TxnId, oldest: nat)
    requires id in p.status
  {
    p.status[id].timestamp <= oldest && IsFinal(p.status[id].state) && !Held(p, id)
  }

  function Cleanup(p: Partition, oldest: nat): Partition {
    var gone := set id | id in p.status && Forgettable(p, id, oldest);
    p.(status := p.status - gone, prepared := p.prepared - gone)
  }

  function ApplyBatch(p: Partition, b: Batch, oldest: nat): Partition
    requires AllStamped(Sequence(b))
  {
    Cleanup(Finish(ApplyAll(p, p.db, Sequence(b))).(maxTimestamp := b.maxTimestamp), oldest)
  }

  function Empty(pid: nat): Partition {
    Partition(pid, map[], map[], 0, map[])
  }
}
