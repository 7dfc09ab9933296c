/** The transaction manager as the object it is, updated in place, proved against the partition state machine. */
module ManagerObject {
  import opened Options
  import opened TxnLocks
  import opened MvccStore
  import opened TxnManager
  import opened PartitionSafety

  /** Writes wait until the whole batch has been applied. */
  datatype Staged = Staged(actions: seq<Action>, timestamp: nat)

  function PutMany(db: Db, ws: seq<Staged>): Db {
    if ws == [] then db
    else PutAll(PutMany(db, ws[..|ws| - 1]), ws[|ws| - 1].actions, ws[|ws| - 1].timestamp)
  }

  /** What a command stages; it does not depend on what is stored meanwhile. */
  function Writes(p: Partition, base: Db, c: Command): seq<Staged>
    requires Stamped(c)
  {
    match c
    case Autocommit(txn, ts) =>
      if txn.id !in p.status && Admit(p, base, txn, ts).None? then [Staged(txn.actions, ts)] else []
    case Commit(id, ts) =>
      if id in p.status && id in p.prepared && (p.status[id].state.Prepared? || p.status[id].state.Decided?) &&
         CommitAllowed(p.status[id], p.prepared[id], ts)
      then [Staged(p.prepared[id].txn.actions, ts)] else []
    case _ => []
  }

  lemma {:induction false} LockFreeIgnoresStore(p: Partition, db: Db, locks: seq<Lock>)
    ensures FirstBlocked(p.(db := db), locks) == FirstBlocked(p, locks)
  {
    if locks != [] {
      LockFreeIgnoresStore(p, db, locks[..|locks| - 1]);
      assert LockFree(p.(db := db), locks[|locks| - 1]) <==> LockFree(p, locks[|locks| - 1]);
    }
  }

  lemma {:induction false} PutOne(db: Db, actions: seq<Action>, ts: nat)
    ensures PutMany(db, [Staged(actions, ts)]) == PutAll(db, actions, ts)
  {
    var w := [Staged(actions, ts)];
    assert w[..0] == [] && PutMany(db, w[..0]) == db;
  }

  lemma {:induction false} AdmitIgnoresStore(p: Partition, db: Db, base: Db, txn: Txn, ts: nat)
    requires ts > 0
    ensures Admit(p.(db := db), base, txn, ts) == Admit(p, base, txn, ts)
  {
    LockFreeIgnoresStore(p, db, LocksOf(txn.actions));
  }

  lemma {:induction false} AutocommitMayLag(p: Partition, db: Db, base: Db, txn: Txn, ts: nat)
    requires ts > 0
    ensures var c, q := Autocommit(txn, ts), p.(db := db);
            Writes(q, base, c) == Writes(p, base, c) && Apply(q, base, c).1 == Apply(p, base, c).1 &&
            Apply(p, base, c).0 == Apply(q, base, c).0.(db := PutMany(p.db, Writes(p, base, c)))
  {
    AdmitIgnoresStore(p, db, base, txn, ts);
    PutOne(p.db, txn.actions, ts);
  }

  lemma {:induction false} CommitMayLag(p: Partition, db: Db, base: Db, id: TxnId, ts: nat)
    requires ts > 0
    ensures var c, q := Commit(id, ts), p.(db := db);
            Writes(q, base, c) == Writes(p, base, c) && Apply(q, base, c).1 == Apply(p, base, c).1 &&
            Apply(p, base, c).0 == Apply(q, base, c).0.(db := PutMany(p.db, Writes(p, base, c)))
  {
    if id in p.prepared {
      PutOne(p.db, p.prepared[id].txn.actions, ts);
    }
  }

  /** Applying a command to a partition whose store lags behind differs only in the store. */
  lemma {:induction false} StoreMayLag(p: Partition, db: Db, base: Db, c: Command)
    requires Stamped(c)
    ensures Writes(p.(db := db), base, c) == Writes(p, base, c)
    ensures Apply(p.(db := db), base, c).1 == Apply(p, base, c).1
    ensures Apply(p, base, c).0 == Apply(p.(db := db), base, c).0.(db := PutMany(p.db, Writes(p, base, c)))
  {
    match c {
      case Autocommit(txn, ts) => AutocommitMayLag(p, db, base, txn, ts);
      case Commit(id, ts) => CommitMayLag(p, db, base, id, ts);
      case Prepare(txn, ts) => AdmitIgnoresStore(p, db, base, txn, ts);
      case _ =>
    }
  }

  lemma {:induction false} PutManyAppend(db: Db, ws: seq<Staged>, vs: seq<Staged>)
    ensures PutMany(db, ws + vs) == PutMany(PutMany(db, ws), vs)
  {
    if vs == [] {
      assert ws + vs == ws;
    } else {
      assert (ws + vs)[..|ws + vs| - 1] == ws + vs[..|vs| - 1];
      PutManyAppend(db, ws, vs[..|vs| - 1]);
    }
  }

  lemma {:induction false} BlockedPrefix(p: Partition, locks: seq<Lock>, n: nat)
    requires n <= |locks| && FirstBlocked(p, locks[..n]).Some?
    ensures FirstBlocked(p, locks) == FirstBlocked(p, locks[..n])
  {
    if n < |locks| {
      assert locks[..|locks| - 1][..n] == locks[..n];
      BlockedPrefix(p, locks[..|locks| - 1], n);
    } else {
      assert locks[..n] == locks;
    }
  }

  lemma {:induction false} InvalidPrefix(db: Db, actions: seq<Action>, timestamp: nat, n: nat)
    requires n <= |actions| && FirstInvalid(db, actions[..n], timestamp).Some?
    ensures FirstInvalid(db, actions, timestamp) == FirstInvalid(db, actions[..n], timestamp)
  {
    if n < |actions| {
      assert actions[..|actions| - 1][..n] == actions[..n];
      InvalidPrefix(db, actions[..|actions| - 1], timestamp, n);
    } else {
      assert actions[..n] == actions;
    }
  }

  /** The state after the commands `cs` from `p`, with their writes still staged. */
  ghost predicate Tracks(p: Partition, cs: seq<Command>, st: Partition, ws: seq<Staged>) {
    AllStamped(cs) && p.db == st.db && ApplyAll(p, p.db, cs) == st.(db := PutMany(st.db, ws))
  }

  /** One more command on a state that has the writes of the earlier ones still staged. */
  lemma {:induction false} OneMore(p: Partition, cs: seq<Command>, st: Partition, ws: seq<Staged>, c: Command)
    requires Stamped(c) && Tracks(p, cs, st, ws)
    ensures Tracks(p, cs + [c], Apply(st, st.db, c).0.(db := st.db), ws + Writes(st, st.db, c))
  {
    var full := st.(db := PutMany(st.db, ws));
    assert full.(db := st.db) == st;
    StoreMayLag(full, st.db, st.db, c);
    PutManyAppend(st.db, ws, Writes(st, st.db, c));
    assert (cs + [c])[..|cs|] == cs;
  }

  class Manager {
    const pid: nat
    var status: map<TxnId, Status>
    var prepared: map<TxnId, Entry>
    var maxTimestamp: nat
    var db: Db

    function State(): Partition
      reads this
    {
      Partition(pid, status, prepared, maxTimestamp, db)
    }

    constructor (pid: nat)
      ensures State() == Empty(pid)
    {
      this.pid, status, prepared, maxTimestamp, db := pid, map[], map[], 0, map[];
    }

    method CheckLock(lock: Lock) returns (ok: bool)
      ensures ok <==> LockFree(State(), lock)
    {
      var ids := prepared.Keys;
      while ids != {}
        invariant ids <= prepared.Keys
        invariant forall id :: id in prepared && id !in ids && !prepared[id].released ==>
                    forall m :: m in prepared[id].locks ==> CompatibleWith(lock, m)
      {
        var id :| id in ids;
        ids := ids - {id};
        if !prepared[id].released {
          var others := prepared[id].locks;
          for i := 0 to |others|
            invariant forall m :: m in others[..i] ==> CompatibleWith(lock, m)
          {
            if !CompatibleWith(lock, others[i]) {
              return false;
            }
          }
        }
      }
      return true;
    }

    method CheckLocks(locks: seq<Lock>) returns (blocked: Option<nat>)
      ensures blocked == FirstBlocked(State(), locks)
    {
      for i := 0 to |locks|
        invariant FirstBlocked(State(), locks[..i]).None?
      {
        assert locks[..i + 1][..i] == locks[..i];
        var free := CheckLock(locks[i]);
        if !free {
          BlockedPrefix(State(), locks, i + 1);
          return Some(locks[i].actionId);
        }
      }
      assert locks[..|locks|] == locks;
      return None;
    }

    method Validate(actions: seq<Action>, timestamp: nat) returns (failed: Option<(nat, Code)>)
      ensures failed == FirstInvalid(db, actions, timestamp)
    {
      for i := 0 to |actions|
        invariant FirstInvalid(db, actions[..i], timestamp).None?
      {
        assert actions[..i + 1][..i] == actions[..i];
        if !CheckHolds(db, actions[i], timestamp) {
          InvalidPrefix(db, actions, timestamp, i + 1);
          return Some((actions[i].id, FailureCode(actions[i])));
        }
      }
      assert actions[..|actions|] == actions;
      return None;
    }

    method Admission(txn: Txn, timestamp: nat) returns (refusal: Option<Reply>)
      requires timestamp > 0
      ensures refusal == Admit(State(), db, txn, timestamp)
    {
      var locks := BuildLocks(txn.actions);
      var blocked := CheckLocks(locks);
      assert blocked == FirstBlocked(State(), LocksOf(txn.actions));
      if blocked.Some? {
        return Some(Refused(blocked.value, LockFailed));
      }
      var failed := Validate(txn.actions, timestamp - 1);
      if failed.Some? {
        return Some(Refused(failed.value.0, failed.value.1));
      }
      return None;
    }

    method ReleaseLocks(id: TxnId)
      requires id in prepared
      modifies this`prepared
      ensures prepared == old(prepared)[id := Release(old(prepared)[id])]
    {
      prepared := prepared[id := prepared[id].(locks := [], released := true)];
    }

    /** One command of a batch: the state changes, the reply, and what it leaves to be stored. */
    method ApplyCommand(c: Command) returns (reply: Reply, writes: seq<Staged>)
      requires Stamped(c)
      modifies this`status, this`prepared
      ensures reply == Apply(old(State()), db, c).1 && writes == Writes(old(State()), db, c)
      ensures State() == Apply(old(State()), db, c).0.(db := db)
    {
      writes := [];
      match c {
        case Abort(id, ts) => reply := DoAbort(id, ts);
        case MarkTimedout(id, ts, release) => reply := DoMarkTimedout(id, ts, release);
        case Commit(id, ts) => reply, writes := DoCommit(id, ts);
        case Autocommit(txn, ts) => reply, writes := DoAutocommit(txn, ts);
        case Prepare(txn, ts) => reply := DoPrepare(txn, ts);
        case StoreDecision(id, ts, d) => reply := DoStoreDecision(id, ts, d);
      }
    }

    method DoAutocommit(txn: Txn, ts: nat) returns (reply: Reply, writes: seq<Staged>)
      requires ts > 0
      modifies this`status
      ensures reply == ApplyAutocommit(old(State()), db, txn, ts).1
      ensures writes == Writes(old(State()), db, Autocommit(txn, ts))
      ensures State() == ApplyAutocommit(old(State()), db, txn, ts).0.(db := db)
    {
      if txn.id in status {
        return if status[txn.id].state.Committed? then Ok(status[txn.id]) else Err(FailedPrecondition), [];
      }
      var refusal := Admission(txn, ts);
      if refusal.Some? {
        return refusal.value, [];
      }
      var s := Status(ts, Committed, []);
      status := status[txn.id := s];
      return Ok(s), [Staged(txn.actions, ts)];
    }

    method DoPrepare(txn: Txn, ts: nat) returns (reply: Reply)
      requires ts > 0
      modifies this`status, this`prepared
      ensures (State(), reply) == ApplyPrepare(old(State()), db, txn, ts)
    {
      if txn.id in status {
        return if status[txn.id].state.Prepared? then Ok(status[txn.id]) else Err(FailedPrecondition);
      }
      var refusal := Admission(txn, ts);
      if refusal.Some? {
        return refusal.value;
      }
      var locks := BuildLocks(txn.actions);
      var s := Status(ts, Prepared, []);
      prepared := prepared[txn.id := Entry(txn, ts, locks, false, None)];
      status := status[txn.id := s];
      return Ok(s);
    }

    method DoCommit(id: TxnId, ts: nat) returns (reply: Reply, writes: seq<Staged>)
      requires ts > 0
      modifies this`status
      ensures reply == ApplyCommit(old(State()), id, ts).1 && writes == Writes(old(State()), db, Commit(id, ts))
      ensures State() == ApplyCommit(old(State()), id, ts).0.(db := db)
    {
      if id !in status || id !in prepared {
        return Err(NotFound), [];
      }
      var s, x := status[id], prepared[id];
      match s.state {
        case Committed => return Ok(s), [];
        case Decided =>
          if x.decision.None? || ts != x.decision.value.commitTimestamp {
            return Err(InvalidRequest), [];
          }
        case Prepared =>
          if ts < s.timestamp {
            return Err(InvalidRequest), [];
          }
        case _ => return Err(FailedPrecondition), [];
      }
      status := status[id := Status(ts, Committed, x.txn.participants)];
      return Ok(status[id]), [Staged(x.txn.actions, ts)];
    }

    method DoAbort(id: TxnId, ts: nat) returns (reply: Reply)
      modifies this`status, this`prepared
      ensures (State(), reply) == ApplyAbort(old(State()), id, ts)
    {
      if id !in status || id !in prepared {
        return Err(NotFound);
      }
      match status[id].state {
        case Aborted => return Ok(status[id]);
        case Timedout => return Ok(status[id]);
        case Prepared =>
          ReleaseLocks(id);
          status := status[id := Status(ts, Aborted, [])];
          return Ok(status[id]);
        case _ => return Err(FailedPrecondition);
      }
    }

    method DoStoreDecision(id: TxnId, ts: nat, d: Decision) returns (reply: Reply)
      modifies this`status, this`prepared
      ensures (State(), reply) == ApplyStoreDecision(old(State()), id, ts, d)
    {
      if id !in status {
        return Err(NotFound);
      } else if id.principal != pid {
        return Err(PermissionDenied);
      } else if id !in prepared {
        return Err(NotFound);
      }
      var s, x := status[id], prepared[id];
      match s.state {
        case Decided =>
          return if x.decision.Some? && x.decision.value.commit == d.commit then Ok(s) else Err(FailedPrecondition);
        case Timedout => return Ok(s);
        case Prepared =>
          if d.commitTimestamp < s.timestamp {
            return Err(InvalidRequest);
          }
          prepared := prepared[id := x.(decision := Some(d))];
          status := status[id := Status(ts, Decided, [])];
          return Ok(status[id]);
        case _ => return Err(FailedPrecondition);
      }
    }

    method DoMarkTimedout(id: TxnId, ts: nat, release: bool) returns (reply: Reply)
      modifies this`status, this`prepared
      ensures (State(), reply) == ApplyMarkTimedout(old(State()), id, ts, release)
    {
      if id !in status {
        return Err(NotFound);
      } else if id.principal != pid {
        return Err(PermissionDenied);
      } else if id !in prepared {
        return Err(NotFound);
      }
      match status[id].state {
        case Timedout =>
          if release {
            ReleaseLocks(id);
          }
          return Ok(status[id]);
        case Prepared =>
          status := status[id := Status(ts, Timedout, [])];
          return Ok(status[id]);
        case _ => return Err(FailedPrecondition);
      }
    }

    method ApplyList(cs: seq<Command>, staged: seq<Staged>, ghost p: Partition, ghost before: seq<Command>)
      returns (ws: seq<Staged>)
      requires AllStamped(cs) && Tracks(p, before, State(), staged)
      modifies this`status, this`prepared
      ensures Tracks(p, before + cs, State(), ws)
    {
      ws := staged;
      assert before == before + cs[..0];
      for i := 0 to |cs|
        invariant Tracks(p, before + cs[..i], State(), ws)
      {
        ghost var st := State();
        var reply, writes := ApplyCommand(cs[i]);
        OneMore(p, before + cs[..i], st, ws, cs[i]);
        ws := ws + writes;
        assert before + cs[..i] + [cs[i]] == before + cs[..i + 1];
      }
      assert before + cs[..|cs|] == before + cs;
    }

    /** Committed transactions let go of their locks; those of earlier batches already have. */
    method Complete()
      modifies this`prepared
      ensures State() == Finish(old(State()))
    {
      var ids := prepared.Keys;
      while ids != {}
        invariant prepared.Keys == old(prepared).Keys && ids <= prepared.Keys
        invariant forall id :: id in prepared ==>
                    prepared[id] == if id !in ids then Finish(old(State())).prepared[id] else old(prepared)[id]
      {
        var id :| id in ids;
        ids := ids - {id};
        if id in status && status[id].state.Committed? {
          ReleaseLocks(id);
        }
      }
      assert prepared == Finish(old(State())).prepared;
    }

    method Clean(oldest: nat)
      modifies this`status, this`prepared
      ensures State() == Cleanup(old(State()), oldest)
    {
      var ids, gone := status.Keys, {};
      while ids != {}
        invariant ids <= status.Keys
        invariant gone == set id | id in status && id !in ids && Forgettable(State(), id, oldest)
      {
        var id :| id in ids;
        ids := ids - {id};
        if status[id].timestamp <= oldest && IsFinal(status[id].state) && !(id in prepared && !prepared[id].released) {
          gone := gone + {id};
        }
      }
      assert gone == set id | id in status && Forgettable(State(), id, oldest);
      status := status - gone;
      prepared := prepared - gone;
    }

    /** A whole batch: commands in their order, then one store of all writes, then the completions and the clean-up. */
    method ApplyBatch(b: Batch, oldest: nat)
      requires AllStamped(Sequence(b))
      modifies this
      ensures State() == TxnManager.ApplyBatch(old(State()), b, oldest)
    {
      ghost var p := State();
      StampedParts(b);
      assert [] + b.abort == b.abort;
      var ws := ApplyList(b.abort, [], p, []);
      ws := ApplyList(b.markTimedout, ws, p, b.abort);
      ws := ApplyList(b.commit, ws, p, b.abort + b.markTimedout);
      ws := ApplyList(b.autocommit, ws, p, b.abort + b.markTimedout + b.commit);
      ws := ApplyList(b.prepare, ws, p, b.abort + b.markTimedout + b.commit + b.autocommit);
      ws := ApplyList(b.storeDecision, ws, p, b.abort + b.markTimedout + b.commit + b.autocommit + b.prepare);
      db := PutMany(db, ws);
      Complete();
      maxTimestamp := b.maxTimestamp;
      Clean(oldest);
    }
  }

  lemma {:induction false} StampedParts(b: Batch)
    requires AllStamped(Sequence(b))
    ensures AllStamped(b.abort) && AllStamped(b.markTimedout) && AllStamped(b.commit)
    ensures AllStamped(b.autocommit) && AllStamped(b.prepare) && AllStamped(b.storeDecision)
  {
    StampedAppend(b.abort + b.markTimedout + b.commit + b.autocommit + b.prepare, b.storeDecision);
    StampedAppend(b.abort + b.markTimedout + b.commit + b.autocommit, b.prepare);
    StampedAppend(b.abort + b.markTimedout + b.commit, b.autocommit);
    StampedAppend(b.abort + b.markTimedout, b.commit);
    StampedAppend(b.abort, b.markTimedout);
  }

  // ---- snapshots of the state machine

  /** Locks are left out of a snapshot and rebuilt from the transactions. */
  datatype Snapshot = Snapshot(status: map<TxnId, Status>, prepared: set<Entry>, maxTimestamp: nat)

  function TakeSnapshot(p: Partition): Snapshot {
    Snapshot(p.status, set id | id in p.prepared :: p.prepared[id].(locks := []), p.maxTimestamp)
  }

  predicate OneEntryEach(s: Snapshot) {
    forall x, y :: x in s.prepared && y in s.prepared && x.txn.id == y.txn.id ==> x == y
  }

  function Relock(x: Entry): Entry {
    if x.released then x else x.(locks := LocksOf(x.txn.actions))
  }

  function Restore(pid: nat, db: Db, s: Snapshot): Partition
    requires OneEntryEach(s)
  {
    Partition(pid, s.status, map x | x in s.prepared :: x.txn.id := Relock(x), s.maxTimestamp, db)
  }

  lemma {:induction false} SavedEntry(p: Partition, high: nat, x: Entry)
    requires Shape(p, high) && x in TakeSnapshot(p).prepared
    ensures x.txn.id in p.prepared && x == p.prepared[x.txn.id].(locks := []) && Relock(x) == p.prepared[x.txn.id]
  {
    var id :| id in p.prepared && x == p.prepared[id].(locks := []);
    assert EntryOk(p, id, high);
  }

  lemma {:induction false} EntrySaved(p: Partition, high: nat, id: TxnId)
    requires Shape(p, high) && id in p.prepared
    ensures p.prepared[id].(locks := []) in TakeSnapshot(p).prepared && p.prepared[id].txn.id == id
  {
    assert EntryOk(p, id, high);
  }

  lemma {:induction false} SnapshotOnce(p: Partition, high: nat)
    requires Shape(p, high)
    ensures OneEntryEach(TakeSnapshot(p))
  {
    var s := TakeSnapshot(p);
    forall x, y | x in s.prepared && y in s.prepared && x.txn.id == y.txn.id ensures x == y {
      SavedEntry(p, high, x);
      SavedEntry(p, high, y);
    }
  }

  lemma {:induction false} RestoredEntry(p: Partition, high: nat, id: TxnId)
    requires Shape(p, high) && OneEntryEach(TakeSnapshot(p))
    ensures var r := Restore(p.pid, p.db, TakeSnapshot(p)).prepared;
            (id in r <==> id in p.prepared) && (id in r ==> r[id] == p.prepared[id])
  {
    var s := TakeSnapshot(p);
    if id in p.prepared {
      EntrySaved(p, high, id);
      var x := p.prepared[id].(locks := []);
      assert x in s.prepared && x.txn.id == id;
      SavedEntry(p, high, x);
    }
    if id in Restore(p.pid, p.db, s).prepared {
      var x :| x in s.prepared && x.txn.id == id;
      SavedEntry(p, high, x);
    }
  }

  lemma {:induction false} RestoredTable(p: Partition, high: nat)
    requires Shape(p, high) && OneEntryEach(TakeSnapshot(p))
    ensures Restore(p.pid, p.db, TakeSnapshot(p)).prepared == p.prepared
  {
    var r := Restore(p.pid, p.db, TakeSnapshot(p)).prepared;
    forall id ensures (id in r <==> id in p.prepared) && (id in r ==> r[id] == p.prepared[id]) {
      RestoredEntry(p, high, id);
    }
  }

  /** Restoring a snapshot gives back the state it was taken from, lock table included. */
  lemma {:induction false} SnapshotRoundTrip(p: Partition, high: nat)
    requires Shape(p, high)
    ensures OneEntryEach(TakeSnapshot(p)) && Restore(p.pid, p.db, TakeSnapshot(p)) == p
  {
    SnapshotOnce(p, high);
    RestoredTable(p, high);
  }
}
