/**
 * What every command keeps, towards the serializability of one partition: locks exclude, the writes of a committed
 * transaction stand at its commit timestamp and are never overwritten, every version is explained by one, and whether
 * a transaction's checks hold just below its timestamp is settled for good at the moment it is admitted.
 */
module PartitionSafety {
  import opened Options
  import opened TxnLocks
  import opened MvccStore
  import opened TxnManager

  /**
   * A transaction that has committed on this partition. `current` records whether, when it was admitted, its checks
   * held on all that was stored by then, and not only on the store as it was when the batch began.
   */
  datatype Done = Done(actions: seq<Action>, commit: nat, current: bool)

  /**
   * A partition with the history that led to it; `high` is the largest data timestamp in its log, `current` the
   * record of the prepared transactions.
   */
  datatype World = World(p: Partition, high: nat, history: seq<Done>, current: map<TxnId, bool>)

  function Start(pid: nat): World {
    World(Empty(pid), 0, [], map[])
  }

  function Max(a: nat, b: nat): nat {
    if a >= b then a else b
  }

  predicate IsCurrent(p: Partition, txn: Txn, timestamp: nat) {
    timestamp > 0 && ChecksHold(p.db, txn.actions, timestamp - 1)
  }

  /** What a command adds to the history. */
  function NewlyDone(w: World, q: Partition, c: Command): seq<Done> {
    var p := w.p;
    match c
    case Autocommit(txn, ts) =>
      if txn.id !in p.status && txn.id in q.status then [Done(txn.actions, ts, IsCurrent(p, txn, ts))] else []
    case Commit(id, ts) =>
      if id in p.status && !p.status[id].state.Committed? && id in q.status && q.status[id].state.Committed? &&
         id in p.prepared
      then [Done(p.prepared[id].txn.actions, ts, id in w.current && w.current[id])] else []
    case _ => []
  }

  /** What a command adds to the record of the prepared transactions. */
  function NewlyPrepared(w: World, q: Partition, c: Command): map<TxnId, bool> {
    if c.Prepare? && c.txn.id !in w.p.status && c.txn.id in q.status
    then map[c.txn.id := IsCurrent(w.p, c.txn, c.timestamp)] else map[]
  }

  function NewHigh(high: nat, c: Command): nat {
    if c.Autocommit? || c.Prepare? || c.Commit? then Max(high, c.timestamp) else high
  }

  function Step(w: World, base: Db, c: Command): World
    requires Stamped(c)
  {
    var q := Apply(w.p, base, c).0;
    World(q, NewHigh(w.high, c), w.history + NewlyDone(w, q, c), w.current + NewlyPrepared(w, q, c))
  }

  /** New transactions are stamped above everything already in the log. */
  predicate Fresh(w: World, c: Command) {
    (c.Autocommit? || c.Prepare?) ==> c.timestamp > w.high
  }

  // ---- the invariant

  predicate Active(p: Partition, id: TxnId) {
    Held(p, id) && id in p.status && (p.status[id].state.Prepared? || p.status[id].state.Decided?)
  }

  predicate EntryOk(p: Partition, id: TxnId, high: nat)
    requires id in p.prepared
  {
    var x := p.prepared[id];
    id in p.status && x.txn.id == id && 0 < x.timestamp <= high &&
    x.locks == (if x.released then [] else LocksOf(x.txn.actions)) &&
    (p.status[id].state.Prepared? ==> !x.released && p.status[id].timestamp == x.timestamp) &&
    (p.status[id].state.Decided? ==>
       !x.released && x.decision.Some? && x.decision.value.commitTimestamp >= x.timestamp)
  }

  ghost predicate Shape(p: Partition, high: nat) {
    (forall id :: id in p.prepared ==> EntryOk(p, id, high)) &&
    (forall id :: id in p.status && (p.status[id].state.Prepared? || p.status[id].state.Decided?) ==>
       id in p.prepared) &&
    (forall v :: v in p.db ==> v.timestamp <= high)
  }

  /** Two-phase locking: no two transactions ever hold conflicting locks. */
  ghost predicate Exclusion(p: Partition) {
    forall i, j :: Held(p, i) && Held(p, j) && i != j ==> ListsCompatible(p.prepared[i].locks, p.prepared[j].locks)
  }

  /** Nothing an active transaction has locked was written since it prepared, and its checks stand as recorded. */
  ghost predicate Undisturbed(p: Partition, x: Entry, current: bool) {
    (forall v :: v in p.db && ListCovers(x.locks, v.address) ==> v.timestamp < x.timestamp) &&
    (x.timestamp > 0 ==> (current <==> ChecksHold(p.db, x.txn.actions, x.timestamp - 1)))
  }

  /** The writes of a committed transaction, one value per address, stand at its commit timestamp. */
  ghost predicate Stands(db: Db, d: Done) {
    forall a :: LastWrite(d.actions, a).Some? ==>
      Version(a, d.commit) in db && db[Version(a, d.commit)] == LastWrite(d.actions, a).value
  }

  /** The serial place of a committed transaction is just below its timestamp: there its checks are as recorded. */
  ghost predicate Settled(db: Db, high: nat, d: Done) {
    0 < d.commit <= high && (d.current <==> ChecksHold(db, d.actions, d.commit - 1)) && Stands(db, d)
  }

  /** An active transaction either cannot interfere with a committed one or will commit after it. */
  predicate Apart(d: Done, x: Entry) {
    ListsCompatible(LocksOf(d.actions), x.locks) || x.timestamp > d.commit
  }

  /** Every stored version was written by a committed transaction. */
  ghost predicate Explained(db: Db, history: seq<Done>, v: Version) {
    v in db ==> exists d :: d in history && d.commit == v.timestamp && LastWrite(d.actions, v.address) == Some(db[v])
  }

  ghost predicate Recorded(w: World) {
    (forall d :: d in w.history ==> Settled(w.p.db, w.high, d)) &&
    (forall v :: Explained(w.p.db, w.history, v))
  }

  ghost predicate Inv(w: World) {
    Shape(w.p, w.high) && Exclusion(w.p) && Recorded(w) &&
    (forall id :: Active(w.p, id) ==> id in w.current && Undisturbed(w.p, w.p.prepared[id], w.current[id])) &&
    (forall d, id :: d in w.history && Active(w.p, id) ==> Apart(d, w.p.prepared[id]))
  }

  lemma {:induction false} InitInv(pid: nat)
    ensures Inv(Start(pid))
  {
  }

  // ---- writing a transaction at its commit timestamp

  /** A write of `actions` leaves untouched whatever a compatible list of locks covers. */
  lemma {:induction false} PutAllForeignVersion(db: Db, actions: seq<Action>, c: nat, locks: seq<Lock>, v: Version)
    requires ListsCompatible(LocksOf(actions), locks) && ListCovers(locks, v.address)
    ensures v in db <==> v in PutAll(db, actions, c)
    ensures v in db ==> db[v] == PutAll(db, actions, c)[v]
  {
    if LastWrite(actions, v.address).Some? {
      WritesAreOwned(actions, v.address);
      OwnedIsPrivate(LocksOf(actions), locks, v.address);
    }
    PutAllEffect(db, actions, c, v);
  }

  lemma {:induction false} PutAllForeign(db: Db, actions: seq<Action>, c: nat, locks: seq<Lock>, t: nat)
    requires ListsCompatible(LocksOf(actions), locks)
    ensures SamePast(locks, db, PutAll(db, actions, c), t)
    ensures SameView(locks, db, t, PutAll(db, actions, c), t)
  {
    var db' := PutAll(db, actions, c);
    forall a | ListCovers(locks, a) ensures SameUpTo(db, db', a, t) {
      forall u | 0 <= u <= t
        ensures (Version(a, u) in db <==> Version(a, u) in db') &&
                (Version(a, u) in db ==> db[Version(a, u)] == db'[Version(a, u)])
      {
        PutAllForeignVersion(db, actions, c, locks, Version(a, u));
      }
    }
    SamePastSameView(locks, db, db', t);
  }

  /** A write at `c` leaves every snapshot below `c` as it was. */
  lemma {:induction false} PutAllPast(db: Db, actions: seq<Action>, c: nat, locks: seq<Lock>, t: nat)
    requires t < c
    ensures SamePast(locks, db, PutAll(db, actions, c), t)
    ensures SameView(locks, db, t, PutAll(db, actions, c), t)
  {
    var db' := PutAll(db, actions, c);
    forall a | ListCovers(locks, a) ensures SameUpTo(db, db', a, t) {
      forall u | 0 <= u <= t
        ensures (Version(a, u) in db <==> Version(a, u) in db') &&
                (Version(a, u) in db ==> db[Version(a, u)] == db'[Version(a, u)])
      {
        PutAllEffect(db, actions, c, Version(a, u));
      }
    }
    SamePastSameView(locks, db, db', t);
  }

  lemma {:induction false} SettledKept(db: Db, high: nat, d: Done, actions: seq<Action>, c: nat)
    requires Settled(db, high, d)
    requires ListsCompatible(LocksOf(d.actions), LocksOf(actions)) || c > d.commit
    ensures Settled(PutAll(db, actions, c), Max(high, c), d)
  {
    var db' := PutAll(db, actions, c);
    if c > d.commit {
      PutAllPast(db, actions, c, LocksOf(d.actions), d.commit - 1);
    } else {
      ListsCompatibleSymmetric(LocksOf(d.actions), LocksOf(actions));
      PutAllForeign(db, actions, c, LocksOf(d.actions), d.commit - 1);
    }
    ChecksSameView(d.actions, db, d.commit - 1, db', d.commit - 1);
    StandsKept(db, d, actions, c);
  }

  lemma {:induction false} StandsKept(db: Db, d: Done, actions: seq<Action>, c: nat)
    requires Stands(db, d)
    requires ListsCompatible(LocksOf(d.actions), LocksOf(actions)) || c > d.commit
    ensures Stands(PutAll(db, actions, c), d)
  {
    var db' := PutAll(db, actions, c);
    forall a | LastWrite(d.actions, a).Some?
      ensures Version(a, d.commit) in db' && db'[Version(a, d.commit)] == LastWrite(d.actions, a).value
    {
      PutAllEffect(db, actions, c, Version(a, d.commit));
      if c <= d.commit && LastWrite(actions, a).Some? {
        WritesAreOwned(actions, a);
        WritesAreOwned(d.actions, a);
        OwnedIsPrivate(LocksOf(d.actions), LocksOf(actions), a);
      }
    }
  }

  lemma {:induction false} ChecksAcrossGap(db: Db, actions: seq<Action>, from: nat, c: nat)
    requires 0 < from <= c
    requires forall v :: v in db && ListCovers(LocksOf(actions), v.address) ==> v.timestamp < from
    ensures ChecksHold(db, actions, from - 1) <==> ChecksHold(db, actions, c - 1)
  {
    forall a | ListCovers(LocksOf(actions), a) ensures Get(db, a, from - 1) == Get(db, a, c - 1) {
      forall t | from - 1 < t <= c - 1 ensures Version(a, t) !in db {
        assert Version(a, t).address == a;
      }
      GetAcrossGap(db, a, from - 1, c - 1);
    }
    ChecksSameView(actions, db, from - 1, db, c - 1);
  }

  /** Committing at `c` what was checked just below `from`, with nothing written in between. */
  lemma {:induction false} SettledNew(db: Db, high: nat, actions: seq<Action>, from: nat, c: nat, current: bool)
    requires 0 < from <= c
    requires current <==> ChecksHold(db, actions, from - 1)
    requires forall v :: v in db && ListCovers(LocksOf(actions), v.address) ==> v.timestamp < from
    ensures Settled(PutAll(db, actions, c), Max(high, c), Done(actions, c, current))
  {
    var db' := PutAll(db, actions, c);
    ChecksAcrossGap(db, actions, from, c);
    PutAllPast(db, actions, c, LocksOf(actions), c - 1);
    ChecksSameView(actions, db, c - 1, db', c - 1);
    forall a | LastWrite(actions, a).Some?
      ensures Version(a, c) in db' && db'[Version(a, c)] == LastWrite(actions, a).value
    {
      PutAllEffect(db, actions, c, Version(a, c));
    }
  }

  lemma {:induction false} UndisturbedKept(p: Partition, q: Partition, x: Entry, current: bool, actions: seq<Action>,
                                           c: nat)
    requires Undisturbed(p, x, current) && q.db == PutAll(p.db, actions, c)
    requires x.locks == LocksOf(x.txn.actions) && ListsCompatible(LocksOf(actions), x.locks)
    ensures Undisturbed(q, x, current)
  {
    forall v | v in q.db && ListCovers(x.locks, v.address) ensures v.timestamp < x.timestamp {
      PutAllForeignVersion(p.db, actions, c, x.locks, v);
    }
    if x.timestamp > 0 {
      PutAllForeign(p.db, actions, c, x.locks, x.timestamp - 1);
      ChecksSameView(x.txn.actions, p.db, x.timestamp - 1, q.db, x.timestamp - 1);
    }
  }

  lemma {:induction false} ExplainedKept(db: Db, history: seq<Done>, actions: seq<Action>, c: nat, current: bool,
                                         v: Version)
    requires Explained(db, history, v)
    ensures Explained(PutAll(db, actions, c), history + [Done(actions, c, current)], v)
  {
    var db' := PutAll(db, actions, c);
    PutAllEffect(db, actions, c, v);
    if v in db' {
      if v.timestamp == c && LastWrite(actions, v.address).Some? {
        assert Done(actions, c, current) in history + [Done(actions, c, current)];
      } else {
        var d :| d in history && d.commit == v.timestamp && LastWrite(d.actions, v.address) == Some(db[v]);
        assert d in history + [Done(actions, c, current)];
      }
    }
  }

  /**
   * The common core of committing and autocommitting: a transaction leaves the set of active ones, or was never in
   * it, and its writes are stored at `c`. The lock table and the other transactions stay as they are.
   */
  lemma {:induction false} WriteKeepsInv(w: World, w': World, id: TxnId, actions: seq<Action>, from: nat, c: nat,
                                         current: bool)
    requires Inv(w) && 0 < from <= c
    requires w'.p.db == PutAll(w.p.db, actions, c) && w'.high == Max(w.high, c)
    requires w'.history == w.history + [Done(actions, c, current)] && w'.current == w.current
    requires w'.p.prepared == w.p.prepared && Shape(w'.p, w'.high)
    requires forall i :: Active(w'.p, i) ==> Active(w.p, i) && i != id
    requires forall i :: Active(w.p, i) && i != id ==> ListsCompatible(LocksOf(actions), w.p.prepared[i].locks)
    requires forall d :: d in w.history ==> ListsCompatible(LocksOf(d.actions), LocksOf(actions)) || c > d.commit
    requires current <==> ChecksHold(w.p.db, actions, from - 1)
    requires forall v :: v in w.p.db && ListCovers(LocksOf(actions), v.address) ==> v.timestamp < from
    ensures Inv(w')
  {
    var done := Done(actions, c, current);
    SettledNew(w.p.db, w.high, actions, from, c, current);
    forall d | d in w'.history ensures Settled(w'.p.db, w'.high, d) {
      if d != done {
        SettledKept(w.p.db, w.high, d, actions, c);
      }
    }
    forall i | Active(w'.p, i)
      ensures i in w'.current && Undisturbed(w'.p, w'.p.prepared[i], w'.current[i])
    {
      assert EntryOk(w.p, i, w.high);
      UndisturbedKept(w.p, w'.p, w.p.prepared[i], w.current[i], actions, c);
    }
    forall d, i | d in w'.history && Active(w'.p, i) ensures Apart(d, w'.p.prepared[i]) {
      assert Active(w.p, i);
    }
    forall v ensures Explained(w'.p.db, w'.history, v) {
      ExplainedKept(w.p.db, w.history, actions, c, current, v);
    }
    SameExclusion(w.p, w'.p);
  }

  lemma {:induction false} SameExclusion(p: Partition, q: Partition)
    requires Exclusion(p) && q.prepared == p.prepared
    ensures Exclusion(q)
  {
    forall i, j | Held(q, i) && Held(q, j) && i != j
      ensures ListsCompatible(q.prepared[i].locks, q.prepared[j].locks)
    {
      assert Held(p, i) && Held(p, j);
    }
  }

  lemma {:induction false} StoreBounded(db: Db, actions: seq<Action>, c: nat, high: nat)
    requires forall v :: v in db ==> v.timestamp <= high
    ensures forall v :: v in PutAll(db, actions, c) ==> v.timestamp <= Max(high, c)
  {
    forall v | v in PutAll(db, actions, c) ensures v.timestamp <= Max(high, c) {
      PutAllEffect(db, actions, c, v);
    }
  }

  // ---- the commands, one by one

  lemma {:induction false} AdmittedIsCompatible(p: Partition, base: Db, txn: Txn, timestamp: nat, id: TxnId)
    requires timestamp > 0 && Admit(p, base, txn, timestamp).None? && Held(p, id)
    ensures ListsCompatible(LocksOf(txn.actions), p.prepared[id].locks)
  {
    forall l, m | l in LocksOf(txn.actions) && m in p.prepared[id].locks ensures CompatibleWith(l, m) {
      var i :| 0 <= i < |LocksOf(txn.actions)| && LocksOf(txn.actions)[i] == l;
      assert LockFree(p, LocksOf(txn.actions)[i]);
    }
  }

  lemma {:induction false} AutocommitShape(p: Partition, high: nat, base: Db, txn: Txn, ts: nat)
    requires Shape(p, high) && ts > 0 && txn.id !in p.status && Admit(p, base, txn, ts).None?
    ensures Shape(ApplyAutocommit(p, base, txn, ts).0, Max(high, ts))
    ensures forall i :: Active(ApplyAutocommit(p, base, txn, ts).0, i) ==> Active(p, i) && i != txn.id
  {
    var q := ApplyAutocommit(p, base, txn, ts).0;
    StoreBounded(p.db, txn.actions, ts, high);
    forall id | id in q.prepared ensures EntryOk(q, id, Max(high, ts)) {
      assert EntryOk(p, id, high);
    }
  }

  lemma {:induction false} AutocommitKeepsInv(w: World, base: Db, txn: Txn, ts: nat)
    requires Inv(w) && ts > w.high && txn.id !in w.p.status && Admit(w.p, base, txn, ts).None?
    ensures Inv(Step(w, base, Autocommit(txn, ts)))
  {
    var w' := Step(w, base, Autocommit(txn, ts));
    assert w'.current == w.current + map[] == w.current;
    AutocommitShape(w.p, w.high, base, txn, ts);
    AdmittedAmongHeld(w.p, base, txn, ts);
    CommittedBefore(w, ts);
    forall i | Active(w.p, i) && i != txn.id ensures ListsCompatible(LocksOf(txn.actions), w.p.prepared[i].locks) {
      assert Held(w.p, i);
    }
    WriteKeepsInv(w, w', txn.id, txn.actions, ts, ts, IsCurrent(w.p, txn, ts));
  }

  lemma {:induction false} CommitShape(p: Partition, high: nat, id: TxnId, ts: nat)
    requires Shape(p, high) && Active(p, id) && CommitAllowed(p.status[id], p.prepared[id], ts)
    ensures Shape(ApplyCommit(p, id, ts).0, Max(high, ts))
    ensures forall i :: Active(ApplyCommit(p, id, ts).0, i) ==> Active(p, i) && i != id
  {
    StoreBounded(p.db, p.prepared[id].txn.actions, ts, high);
    var q := ApplyCommit(p, id, ts).0;
    forall i | i in q.prepared ensures EntryOk(q, i, Max(high, ts)) {
      assert EntryOk(p, i, high);
    }
  }

  lemma {:induction false} CommitStep(w: World, base: Db, id: TxnId, ts: nat)
    requires ts > 0 && Active(w.p, id) && CommitAllowed(w.p.status[id], w.p.prepared[id], ts) && id in w.current
    ensures var x, w' := w.p.prepared[id], Step(w, base, Commit(id, ts));
            w'.p == ApplyCommit(w.p, id, ts).0 && w'.p.db == PutAll(w.p.db, x.txn.actions, ts) &&
            w'.p.prepared == w.p.prepared && w'.high == Max(w.high, ts) && w'.current == w.current &&
            w'.history == w.history + [Done(x.txn.actions, ts, w.current[id])]
  {
    assert w.current + map[] == w.current;
  }

  lemma {:induction false} CommitKeepsInv(w: World, base: Db, id: TxnId, ts: nat)
    requires Inv(w) && ts > 0 && Active(w.p, id) && CommitAllowed(w.p.status[id], w.p.prepared[id], ts)
    ensures Inv(Step(w, base, Commit(id, ts)))
  {
    var w' := Step(w, base, Commit(id, ts));
    var x := w.p.prepared[id];
    CommitIsSafe(w, id, ts);
    CommitStep(w, base, id, ts);
    CommitShape(w.p, w.high, id, ts);
    WriteKeepsInv(w, w', id, x.txn.actions, x.timestamp, ts, w.current[id]);
  }

  lemma {:induction false} CommitIsSafe(w: World, id: TxnId, ts: nat)
    requires Inv(w) && Active(w.p, id) && CommitAllowed(w.p.status[id], w.p.prepared[id], ts)
    ensures var x := w.p.prepared[id];
            0 < x.timestamp <= ts && x.locks == LocksOf(x.txn.actions) &&
            id in w.current && Undisturbed(w.p, x, w.current[id]) &&
            (forall i :: Active(w.p, i) && i != id ==> ListsCompatible(x.locks, w.p.prepared[i].locks)) &&
            (forall d :: d in w.history ==> ListsCompatible(LocksOf(d.actions), x.locks) || ts > d.commit)
  {
    var x := w.p.prepared[id];
    assert EntryOk(w.p, id, w.high);
    forall d | d in w.history ensures ListsCompatible(LocksOf(d.actions), x.locks) || ts > d.commit {
      assert Apart(d, x);
    }
  }

  lemma {:induction false} PrepareShape(p: Partition, q: Partition, high: nat, txn: Txn, ts: nat)
    requires Shape(p, high) && ts > 0 && txn.id !in p.status
    requires q == p.(status := p.status[txn.id := Status(ts, Prepared, [])],
                     prepared := p.prepared[txn.id := Entry(txn, ts, LocksOf(txn.actions), false, None)])
    ensures Shape(q, Max(high, ts))
    ensures txn.id !in p.prepared
    ensures forall i :: Active(q, i) && i != txn.id ==> Active(p, i) && q.prepared[i] == p.prepared[i]
  {
    forall i | i in q.prepared ensures EntryOk(q, i, Max(high, ts)) {
      if i != txn.id {
        assert EntryOk(p, i, high);
      }
    }
    forall i | i in p.prepared ensures i in p.status {
      assert EntryOk(p, i, high);
    }
  }

  lemma {:induction false} AdmittedAmongHeld(p: Partition, base: Db, txn: Txn, ts: nat)
    requires ts > 0 && Admit(p, base, txn, ts).None?
    ensures forall i :: Held(p, i) ==> ListsCompatible(LocksOf(txn.actions), p.prepared[i].locks)
  {
    forall i | Held(p, i) ensures ListsCompatible(LocksOf(txn.actions), p.prepared[i].locks) {
      AdmittedIsCompatible(p, base, txn, ts, i);
    }
  }

  lemma {:induction false} FreshUndisturbed(q: Partition, high: nat, x: Entry)
    requires (forall v :: v in q.db ==> v.timestamp <= high) && x.timestamp > high
    ensures Undisturbed(q, x, IsCurrent(q, x.txn, x.timestamp))
  {
  }

  lemma {:induction false} CommittedBefore(w: World, ts: nat)
    requires Recorded(w) && ts > w.high
    ensures forall d :: d in w.history ==> ts > d.commit
  {
    forall d | d in w.history ensures ts > d.commit {
      assert Settled(w.p.db, w.high, d);
    }
  }

  /** The world after a transaction has been prepared. */
  function WithPrepared(w: World, txn: Txn, ts: nat): World {
    World(w.p.(status := w.p.status[txn.id := Status(ts, Prepared, [])],
               prepared := w.p.prepared[txn.id := Entry(txn, ts, LocksOf(txn.actions), false, None)]),
          ts, w.history, w.current[txn.id := IsCurrent(w.p, txn, ts)])
  }

  lemma {:induction false} PrepareStep(w: World, base: Db, txn: Txn, ts: nat)
    requires ts > w.high && txn.id !in w.p.status && Admit(w.p, base, txn, ts).None?
    ensures Step(w, base, Prepare(txn, ts)) == WithPrepared(w, txn, ts)
  {
    assert w.history + [] == w.history;
  }

  lemma {:induction false} PreparedIsSound(w: World, txn: Txn, ts: nat)
    requires Inv(w) && ts > w.high && txn.id !in w.p.status
    requires forall i :: Held(w.p, i) ==> ListsCompatible(LocksOf(txn.actions), w.p.prepared[i].locks)
    ensures Inv(WithPrepared(w, txn, ts))
  {
    var w' := WithPrepared(w, txn, ts);
    PreparedLocks(w, txn, ts);
    HigherKeepsRecord(w, w');
    PreparedOthers(w, txn, ts);
  }

  lemma {:induction false} PreparedLocks(w: World, txn: Txn, ts: nat)
    requires Shape(w.p, w.high) && Exclusion(w.p) && ts > w.high && txn.id !in w.p.status
    requires forall i :: Held(w.p, i) ==> ListsCompatible(LocksOf(txn.actions), w.p.prepared[i].locks)
    ensures Shape(WithPrepared(w, txn, ts).p, ts) && Exclusion(WithPrepared(w, txn, ts).p)
  {
    PrepareShape(w.p, WithPrepared(w, txn, ts).p, w.high, txn, ts);
    PrepareKeepsExclusion(w.p, WithPrepared(w, txn, ts).p, txn.id);
  }

  lemma {:induction false} PreparedOthers(w: World, txn: Txn, ts: nat)
    requires Inv(w) && ts > w.high && txn.id !in w.p.status
    ensures var w' := WithPrepared(w, txn, ts);
            (forall i :: Active(w'.p, i) ==> i in w'.current && Undisturbed(w'.p, w'.p.prepared[i], w'.current[i])) &&
            (forall d, i :: d in w'.history && Active(w'.p, i) ==> Apart(d, w'.p.prepared[i]))
  {
    var w' := WithPrepared(w, txn, ts);
    PrepareShape(w.p, w'.p, w.high, txn, ts);
    FreshUndisturbed(w'.p, w.high, w'.p.prepared[txn.id]);
    CommittedBefore(w, ts);
    PrepareKeepsOthers(w, w', txn.id);
  }

  lemma {:induction false} PrepareKeepsInv(w: World, base: Db, txn: Txn, ts: nat)
    requires Inv(w) && ts > w.high && txn.id !in w.p.status && Admit(w.p, base, txn, ts).None?
    ensures Inv(Step(w, base, Prepare(txn, ts)))
  {
    PrepareStep(w, base, txn, ts);
    AdmittedAmongHeld(w.p, base, txn, ts);
    PreparedIsSound(w, txn, ts);
  }

  lemma {:induction false} PrepareKeepsOthers(w: World, w': World, id: TxnId)
    requires w'.p.db == w.p.db && w'.history == w.history && id in w'.p.prepared
    requires id in w'.current && w'.current == w.current[id := w'.current[id]]
    requires forall i :: Active(w.p, i) ==> i in w.current && Undisturbed(w.p, w.p.prepared[i], w.current[i])
    requires forall d, i :: d in w.history && Active(w.p, i) ==> Apart(d, w.p.prepared[i])
    requires forall i :: Active(w'.p, i) && i != id ==> Active(w.p, i) && w'.p.prepared[i] == w.p.prepared[i]
    requires Undisturbed(w'.p, w'.p.prepared[id], w'.current[id])
    requires forall d :: d in w.history ==> w'.p.prepared[id].timestamp > d.commit
    ensures forall i :: Active(w'.p, i) ==> i in w'.current && Undisturbed(w'.p, w'.p.prepared[i], w'.current[i])
    ensures forall d, i :: d in w'.history && Active(w'.p, i) ==> Apart(d, w'.p.prepared[i])
  {
    forall i | Active(w'.p, i)
      ensures i in w'.current && Undisturbed(w'.p, w'.p.prepared[i], w'.current[i])
    {
      if i != id {
        assert Undisturbed(w.p, w.p.prepared[i], w.current[i]);
      }
    }
  }

  lemma {:induction false} HigherKeepsRecord(w: World, w': World)
    requires Recorded(w) && w'.p.db == w.p.db && w'.history == w.history && w'.high >= w.high
    ensures Recorded(w')
  {
    forall d | d in w'.history ensures Settled(w'.p.db, w'.high, d) {
      assert Settled(w.p.db, w.high, d);
    }
    forall v ensures Explained(w'.p.db, w'.history, v) {
      assert Explained(w.p.db, w.history, v);
    }
  }

  lemma {:induction false} PrepareKeepsExclusion(p: Partition, q: Partition, id: TxnId)
    requires Exclusion(p) && id in q.prepared && q.prepared == p.prepared[id := q.prepared[id]]
    requires forall i :: Held(p, i) ==> i != id && ListsCompatible(q.prepared[id].locks, p.prepared[i].locks)
    ensures Exclusion(q)
  {
    forall i, j | Held(q, i) && Held(q, j) && i != j
      ensures ListsCompatible(q.prepared[i].locks, q.prepared[j].locks)
    {
      if i == id {
        assert Held(p, j);
      } else if j == id {
        assert Held(p, i);
        ListsCompatibleSymmetric(q.prepared[id].locks, p.prepared[i].locks);
      } else {
        assert Held(p, i) && Held(p, j);
      }
    }
  }

  /** Steps that store nothing: they may end transactions, drop locks and forget final ones. */
  lemma {:induction false} QuietKeepsInv(w: World, w': World)
    requires Inv(w) && w'.high == w.high && w'.history == w.history && w'.current == w.current
    requires Retreat(w.p, w'.p, w.high)
    ensures Inv(w')
  {
    HigherKeepsRecord(w, w');
    forall i | Active(w'.p, i)
      ensures i in w'.current && Undisturbed(w'.p, w'.p.prepared[i], w'.current[i])
    {
      assert Undisturbed(w.p, w.p.prepared[i], w.current[i]);
    }
    forall d, i | d in w'.history && Active(w'.p, i) ensures Apart(d, w'.p.prepared[i]) {
      assert Apart(d, w.p.prepared[i]);
    }
  }

  /** The commands that store nothing, as far as the lock table is concerned. */
  ghost predicate Retreat(p: Partition, q: Partition, high: nat) {
    Shape(q, high) && q.db == p.db &&
    (forall i :: Held(q, i) ==> Held(p, i) && q.prepared[i].locks == p.prepared[i].locks) &&
    (forall i :: Active(q, i) ==>
       Active(p, i) && q.prepared[i].timestamp == p.prepared[i].timestamp && q.prepared[i].txn == p.prepared[i].txn)
  }

  /** Giving one transaction a new status and entry, without waking it up or adding locks. */
  lemma {:induction false} ReplaceEntry(p: Partition, q: Partition, high: nat, id: TxnId)
    requires Shape(p, high) && id in p.prepared && id in q.prepared && id in q.status
    requires q.status == p.status[id := q.status[id]] && q.prepared == p.prepared[id := q.prepared[id]]
    requires q.db == p.db && EntryOk(q, id, high)
    requires q.prepared[id].timestamp == p.prepared[id].timestamp && q.prepared[id].txn == p.prepared[id].txn
    requires Held(q, id) ==> Held(p, id)
    requires Active(q, id) ==> Active(p, id)
    ensures Retreat(p, q, high)
  {
    forall i | i in q.prepared ensures EntryOk(q, i, high) {
      if i != id {
        assert EntryOk(p, i, high);
      }
    }
    forall i | Held(q, i) ensures Held(p, i) && q.prepared[i].locks == p.prepared[i].locks {
      assert EntryOk(p, i, high);
    }
    forall i | Active(q, i) ensures Active(p, i) && q.prepared[i].timestamp == p.prepared[i].timestamp &&
                                    q.prepared[i].txn == p.prepared[i].txn
    {
      if i != id {
        assert Held(p, i);
      }
    }
  }

  lemma {:induction false} AbortRetreats(p: Partition, high: nat, id: TxnId, ts: nat)
    requires Shape(p, high)
    ensures Retreat(p, ApplyAbort(p, id, ts).0, high)
  {
    var q := ApplyAbort(p, id, ts).0;
    if q != p {
      assert EntryOk(p, id, high);
      ReplaceEntry(p, q, high, id);
    }
  }

  lemma {:induction false} TimeoutRetreats(p: Partition, high: nat, id: TxnId, ts: nat, release: bool)
    requires Shape(p, high)
    ensures Retreat(p, ApplyMarkTimedout(p, id, ts, release).0, high)
  {
    var q := ApplyMarkTimedout(p, id, ts, release).0;
    if q != p {
      assert EntryOk(p, id, high);
      ReplaceEntry(p, q, high, id);
    }
  }

  lemma {:induction false} DecisionRetreats(p: Partition, high: nat, id: TxnId, ts: nat, d: Decision)
    requires Shape(p, high)
    ensures Retreat(p, ApplyStoreDecision(p, id, ts, d).0, high)
  {
    var q := ApplyStoreDecision(p, id, ts, d).0;
    if q != p {
      assert EntryOk(p, id, high);
      ReplaceEntry(p, q, high, id);
    }
  }

  lemma {:induction false} QuietCommand(w: World, base: Db, c: Command)
    requires Inv(w) && Stamped(c) && (c.Abort? || c.MarkTimedout? || c.StoreDecision?)
    ensures Inv(Step(w, base, c))
  {
    var w' := Step(w, base, c);
    assert w'.history == w.history + [] == w.history && w'.current == w.current + map[] == w.current;
    match c {
      case Abort(id, ts) => AbortRetreats(w.p, w.high, id, ts);
      case MarkTimedout(id, ts, release) => TimeoutRetreats(w.p, w.high, id, ts, release);
      case StoreDecision(id, ts, d) => DecisionRetreats(w.p, w.high, id, ts, d);
    }
    QuietKeepsInv(w, w');
  }

  /** Any command keeps the invariant, whatever store its checks looked at. */
  lemma {:induction false} StepKeepsInv(w: World, base: Db, c: Command)
    requires Inv(w) && Stamped(c) && Fresh(w, c)
    ensures Inv(Step(w, base, c))
  {
    match c {
      case Autocommit(txn, ts) =>
        if txn.id !in w.p.status && Admit(w.p, base, txn, ts).None? {
          AutocommitKeepsInv(w, base, txn, ts);
        } else {
          Unchanged(w, base, c);
        }
      case Prepare(txn, ts) =>
        if txn.id !in w.p.status && Admit(w.p, base, txn, ts).None? {
          PrepareKeepsInv(w, base, txn, ts);
        } else {
          Unchanged(w, base, c);
        }
      case Commit(id, ts) =>
        if id in w.p.prepared {
          assert EntryOk(w.p, id, w.high);
        }
        if Active(w.p, id) && CommitAllowed(w.p.status[id], w.p.prepared[id], ts) {
          CommitKeepsInv(w, base, id, ts);
        } else {
          Unchanged(w, base, c);
        }
      case _ => QuietCommand(w, base, c);
    }
  }

  /** A refused or repeated command at most raises the largest timestamp seen. */
  lemma {:induction false} Unchanged(w: World, base: Db, c: Command)
    requires Inv(w) && Stamped(c) && Apply(w.p, base, c).0 == w.p
    ensures Inv(Step(w, base, c))
  {
    var w' := Step(w, base, c);
    assert w'.history == w.history + [] == w.history && w'.current == w.current + map[] == w.current;
    forall id | id in w'.p.prepared ensures EntryOk(w'.p, id, w'.high) {
      assert EntryOk(w.p, id, w.high);
    }
    forall d | d in w'.history ensures Settled(w'.p.db, w'.high, d) {
      assert Settled(w.p.db, w.high, d);
    }
  }

  lemma {:induction false} FinishRetreats(p: Partition, high: nat)
    requires Shape(p, high)
    ensures Retreat(p, Finish(p), high)
  {
    var q := Finish(p);
    forall id | id in q.prepared ensures EntryOk(q, id, high) {
      FinishedEntry(p, high, id);
    }
    forall i | Held(q, i) ensures q.prepared[i] == p.prepared[i] {
    }
  }

  lemma {:induction false} FinishedEntry(p: Partition, high: nat, id: TxnId)
    requires Shape(p, high) && id in p.prepared
    ensures EntryOk(Finish(p), id, high)
  {
    assert EntryOk(p, id, high);
  }

  lemma {:induction false} RetimeRetreats(p: Partition, high: nat, maxTimestamp: nat)
    requires Shape(p, high)
    ensures Retreat(p, p.(maxTimestamp := maxTimestamp), high)
  {
    var q := p.(maxTimestamp := maxTimestamp);
    forall id | id in q.prepared ensures EntryOk(q, id, high) {
      assert EntryOk(p, id, high);
    }
  }

  lemma {:induction false} CleanupRetreats(p: Partition, high: nat, oldest: nat)
    requires Shape(p, high)
    ensures Retreat(p, Cleanup(p, oldest), high)
  {
    var q := Cleanup(p, oldest);
    forall id | id in q.prepared ensures EntryOk(q, id, high) {
      assert EntryOk(p, id, high);
    }
    forall id | id in q.status && (q.status[id].state.Prepared? || q.status[id].state.Decided?)
      ensures id in q.prepared
    {
      assert id in p.prepared;
    }
  }

  // ---- the shape, whatever the stamps

  lemma {:induction false} HigherShape(p: Partition, high: nat, higher: nat)
    requires Shape(p, high) && high <= higher
    ensures Shape(p, higher)
  {
    forall id | id in p.prepared ensures EntryOk(p, id, higher) {
      assert EntryOk(p, id, high);
    }
  }

  lemma {:induction false} NewShape(p: Partition, high: nat, base: Db, c: Command)
    requires Shape(p, high) && Stamped(c) && (c.Autocommit? || c.Prepare?)
    ensures Shape(Apply(p, base, c).0, Max(high, c.timestamp))
  {
    if Apply(p, base, c).0 == p {
      HigherShape(p, high, Max(high, c.timestamp));
    } else if c.Autocommit? {
      AutocommitShape(p, high, base, c.txn, c.timestamp);
    } else {
      PrepareShape(p, Apply(p, base, c).0, high, c.txn, c.timestamp);
    }
  }

  lemma {:induction false} CommittedShape(p: Partition, high: nat, id: TxnId, ts: nat)
    requires Shape(p, high)
    ensures Shape(ApplyCommit(p, id, ts).0, Max(high, ts))
  {
    if ApplyCommit(p, id, ts).0 == p {
      HigherShape(p, high, Max(high, ts));
    } else {
      assert EntryOk(p, id, high);
      CommitShape(p, high, id, ts);
    }
  }

  /** Any stamped command keeps the shape, also one stamped below what the log holds. */
  lemma {:induction false} StepShape(w: World, base: Db, c: Command)
    requires Shape(w.p, w.high) && Stamped(c)
    ensures Shape(Step(w, base, c).p, Step(w, base, c).high) && w.high <= Step(w, base, c).high
  {
    match c {
      case Abort(id, ts) => AbortRetreats(w.p, w.high, id, ts);
      case MarkTimedout(id, ts, release) => TimeoutRetreats(w.p, w.high, id, ts, release);
      case StoreDecision(id, ts, d) => DecisionRetreats(w.p, w.high, id, ts, d);
      case Commit(id, ts) => CommittedShape(w.p, w.high, id, ts);
      case _ => NewShape(w.p, w.high, base, c);
    }
  }

  /** So does the end of a batch. */
  lemma {:induction false} EndShape(p: Partition, high: nat, maxTimestamp: nat, oldest: nat)
    requires Shape(p, high)
    ensures Shape(Cleanup(Finish(p).(maxTimestamp := maxTimestamp), oldest), Max(high, maxTimestamp))
  {
    FinishRetreats(p, high);
    RetimeRetreats(Finish(p), high, maxTimestamp);
    CleanupRetreats(Finish(p).(maxTimestamp := maxTimestamp), high, oldest);
    HigherShape(Cleanup(Finish(p).(maxTimestamp := maxTimestamp), oldest), high, Max(high, maxTimestamp));
  }

  // ---- the end of a batch

  /** It stores nothing more. */
  lemma {:induction false} EndOfBatchKeepsInv(w: World, maxTimestamp: nat, oldest: nat)
    requires Inv(w)
    ensures Inv(w.(p := Cleanup(Finish(w.p).(maxTimestamp := maxTimestamp), oldest)))
  {
    var f := w.(p := Finish(w.p));
    FinishRetreats(w.p, w.high);
    QuietKeepsInv(w, f);
    var m := w.(p := f.p.(maxTimestamp := maxTimestamp));
    RetimeRetreats(f.p, w.high, maxTimestamp);
    QuietKeepsInv(f, m);
    CleanupRetreats(m.p, w.high, oldest);
    QuietKeepsInv(m, w.(p := Cleanup(m.p, oldest)));
  }
}
