/**
 * What reads find and what commits store, told by the versions in the store and the payloads of the actions, without
 * the functions that compute them.
 */
module StoredWrites {
  import opened Options
  import opened ByteStrings
  import opened TxnLocks
  import opened MvccStore
  import opened TxnManager

  // ---- reads

  /** Version `u` is the newest one of the address that the timestamp can see. */
  predicate NewestAt(db: Db, a: Address, t: nat, u: nat) {
    u <= t && Version(a, u) in db && forall s :: u < s <= t ==> Version(a, s) !in db
  }

  /** A read finds a value exactly if the newest visible version holds it. */
  lemma {:induction false} GetExact(db: Db, a: Address, t: nat, value: Bytes)
    ensures Get(db, a, t) == Some(value) <==> exists u :: NewestAt(db, a, t, u) && db[Version(a, u)] == Some(value)
  {
    if Version(a, t) in db {
      assert NewestAt(db, a, t, t);
    } else if t > 0 {
      GetExact(db, a, t - 1, value);
      if u :| NewestAt(db, a, t - 1, u) && db[Version(a, u)] == Some(value) {
        assert NewestAt(db, a, t, u);
      }
      if u :| NewestAt(db, a, t, u) && db[Version(a, u)] == Some(value) {
        assert NewestAt(db, a, t - 1, u);
      }
    }
  }

  /** A range is taken for non-empty exactly if some key in it, end excluded, exists. */
  lemma {:induction false} RangeExact(db: Db, r: RangeLock, t: nat)
    ensures ExistsInRange(db, r, t) <==>
            exists key :: AtMost(r.startKey, key) && Less(key, r.endKey) && Exists(db, Address(r.keyspace, key), t)
  {
    if v :| v in db && Covers(Lock(0, OnRange(r)), v.address) && Exists(db, v.address, t) {
      assert v.address == Address(r.keyspace, v.address.key);
    }
    if key :| AtMost(r.startKey, key) && Less(key, r.endKey) && Exists(db, Address(r.keyspace, key), t) {
      var u := ExistsHasVersion(db, Address(r.keyspace, key), t);
      assert Version(Address(r.keyspace, key), u).address == Address(r.keyspace, key);
    }
  }

  // ---- writes

  /** The action changes the address. */
  predicate Changes(act: Action, a: Address) {
    (act.payload.Insert? || act.payload.Update? || act.payload.Upsert? || act.payload.Delete?) &&
    act.payload.keyspace == a.keyspace && act.payload.key == a.key
  }

  predicate LastChange(actions: seq<Action>, i: nat, a: Address) {
    i < |actions| && Changes(actions[i], a) && forall j :: i < j < |actions| ==> !Changes(actions[j], a)
  }

  predicate Untouched(actions: seq<Action>, a: Address) {
    forall i :: 0 <= i < |actions| ==> !Changes(actions[i], a)
  }

  ghost predicate SameVersion(db: Db, db': Db, a: Address, t: nat) {
    (Version(a, t) in db' <==> Version(a, t) in db) &&
    (Version(a, t) in db ==> db'[Version(a, t)] == db[Version(a, t)])
  }

  /**
   * The store after a transaction's writes at a timestamp: of each address the last action on it counts, an insert,
   * update or upsert with its own value and a delete with none; nothing else changes, and no other timestamp.
   */
  ghost predicate Stores(db: Db, db': Db, actions: seq<Action>, ts: nat) {
    (forall i: nat, a :: LastChange(actions, i, a) && !actions[i].payload.Delete? ==>
       Get(db', a, ts) == Some(actions[i].payload.value)) &&
    (forall i: nat, a :: LastChange(actions, i, a) && actions[i].payload.Delete? ==> !Exists(db', a, ts)) &&
    (forall a, t :: Untouched(actions, a) ==> SameVersion(db, db', a, t)) &&
    (forall a, t :: t != ts ==> SameVersion(db, db', a, t))
  }

  lemma {:induction false} LastChangePut(db: Db, actions: seq<Action>, ts: nat, i: nat, a: Address)
    requires LastChange(actions, i, a)
    ensures Version(a, ts) in PutAll(db, actions, ts)
    ensures PutAll(db, actions, ts)[Version(a, ts)] ==
            if actions[i].payload.Delete? then None else Some(actions[i].payload.value)
  {
    var n := |actions| - 1;
    if i < n {
      assert !Changes(actions[n], a);
      LastChangePut(db, actions[..n], ts, i, a);
    }
  }

  lemma {:induction false} UntouchedPut(db: Db, actions: seq<Action>, ts: nat, a: Address, t: nat)
    requires Untouched(actions, a) || t != ts
    ensures SameVersion(db, PutAll(db, actions, ts), a, t)
  {
    if actions != [] {
      var n := |actions| - 1;
      UntouchedPut(db, actions[..n], ts, a, t);
      assert t == ts ==> !Changes(actions[n], a);
    }
  }

  /** Main result: storing a transaction's records does that. */
  lemma {:induction false} PutStores(db: Db, actions: seq<Action>, ts: nat)
    ensures Stores(db, PutAll(db, actions, ts), actions, ts)
  {
    var db' := PutAll(db, actions, ts);
    forall i: nat, a | LastChange(actions, i, a)
      ensures !actions[i].payload.Delete? ==> Get(db', a, ts) == Some(actions[i].payload.value)
      ensures actions[i].payload.Delete? ==> !Exists(db', a, ts)
    {
      LastChangePut(db, actions, ts, i, a);
    }
    forall a, t | Untouched(actions, a) || t != ts ensures SameVersion(db, db', a, t) {
      UntouchedPut(db, actions, ts, a, t);
    }
  }

  /** An autocommit that succeeds anew stores its transaction; any other leaves the store alone. */
  lemma {:induction false} AutocommitStores(p: Partition, base: Db, txn: Txn, ts: nat)
    requires ts > 0
    ensures var (q, r) := ApplyAutocommit(p, base, txn, ts);
            if r.Ok? && txn.id !in p.status then Stores(p.db, q.db, txn.actions, ts) else q.db == p.db
  {
    PutStores(p.db, txn.actions, ts);
  }

  /** So does a commit, with the transaction as it was prepared. */
  lemma {:induction false} CommitStores(p: Partition, id: TxnId, ts: nat)
    ensures var (q, r) := ApplyCommit(p, id, ts);
            if r.Ok? && !p.status[id].state.Committed? then
              id in p.prepared && Stores(p.db, q.db, p.prepared[id].txn.actions, ts)
            else q.db == p.db
  {
    if id in p.prepared {
      PutStores(p.db, p.prepared[id].txn.actions, ts);
    }
  }

  /** What was committed is what is read, as long as nothing newer is stored. */
  lemma {:induction false} CommittedIsRead(p: Partition, base: Db, txn: Txn, ts: nat, t: nat, i: nat, a: Address)
    requires ts > 0 && ts <= t && txn.id !in p.status && LastChange(txn.actions, i, a)
    requires forall s :: ts < s <= t ==> Version(a, s) !in p.db
    ensures var (q, r) := ApplyAutocommit(p, base, txn, ts);
            r.Ok? ==> Get(q.db, a, t) ==
                      if txn.actions[i].payload.Delete? then None else Some(txn.actions[i].payload.value)
  {
    var (q, r) := ApplyAutocommit(p, base, txn, ts);
    AutocommitStores(p, base, txn, ts);
    if r.Ok? {
      forall s | ts < s <= t ensures Version(a, s) !in q.db {
        assert SameVersion(p.db, q.db, a, s);
      }
      GetAcrossGap(q.db, a, ts, t);
    }
  }

  // ---- checks

  /** The checks, payload by payload: inserts of absent keys, updates and deletes of present ones, locks as they say. */
  ghost predicate Meets(db: Db, act: Action, t: nat) {
    var x := act.payload;
    (x.Insert? ==> !Exists(db, Address(x.keyspace, x.key), t)) &&
    (x.Update? || x.Delete? ==> Exists(db, Address(x.keyspace, x.key), t)) &&
    (x.LockKey? && x.keyCheck.MustExist? ==> Exists(db, Address(x.keyLock.keyspace, x.keyLock.key), t)) &&
    (x.LockKey? && x.keyCheck.MustNotExist? ==> !Exists(db, Address(x.keyLock.keyspace, x.keyLock.key), t)) &&
    (x.LockRange? && x.rangeCheck.MustNotBeEmpty? ==> ExistsInRange(db, x.rangeLock, t)) &&
    (x.LockRange? && x.rangeCheck.MustBeEmpty? ==> !ExistsInRange(db, x.rangeLock, t))
  }

  lemma {:induction false} ChecksExact(db: Db, actions: seq<Action>, t: nat)
    ensures ChecksHold(db, actions, t) <==> forall i :: 0 <= i < |actions| ==> Meets(db, actions[i], t)
  {
    forall i | 0 <= i < |actions| ensures CheckHolds(db, actions[i], t) <==> Meets(db, actions[i], t) {
    }
  }
}
