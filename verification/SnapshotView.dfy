/**
 * One version deep and many versions deep: a transaction carried out on the snapshot a multi-version store shows at a
 * timestamp is carried out as on the store itself, checks, writes and reads.
 */
module SnapshotView {
  import opened Options
  import opened ByteStrings
  import opened TxnLocks
  import opened MvccStore
  import opened TxnManager
  import L = LockIsolation

  /** The plain store holds just what the multi-version store shows at `t`. */
  ghost predicate Shows(db: Db, t: nat, s: L.Store) {
    forall a :: Get(db, a, t) == if a in s then Some(s[a]) else None
  }

  lemma {:induction false} RangeShown(db: Db, t: nat, s: L.Store, r: RangeLock)
    requires Shows(db, t, s)
    ensures L.InRange(s, r) != map[] <==> ExistsInRange(db, r, t)
  {
    var items := L.InRange(s, r);
    if a :| a in items {
      var u := ExistsHasVersion(db, a, t);
      assert Version(a, u).address == a;
    }
    if v :| v in db && Covers(Lock(0, OnRange(r)), v.address) && Exists(db, v.address, t) {
      assert v.address in items;
    }
  }

  lemma {:induction false} CheckShown(db: Db, t: nat, s: L.Store, act: Action)
    requires Shows(db, t, s)
    ensures L.CheckOn(s, act) <==> CheckHolds(db, act, t)
  {
    if act.payload.LockRange? {
      RangeShown(db, t, s, act.payload.rangeLock);
    }
  }

  /** Checks fail on the same action. */
  lemma {:induction false} FailureShown(db: Db, t: nat, s: L.Store, actions: seq<Action>)
    requires Shows(db, t, s)
    ensures L.FirstFailed(s, actions) ==
            match FirstInvalid(db, actions, t) case None => None case Some(f) => Some(f.0)
  {
    if actions != [] {
      FailureShown(db, t, s, actions[..|actions| - 1]);
      CheckShown(db, t, s, actions[|actions| - 1]);
    }
  }

  /** A read finds what the store shows: the value of a key, or the pairs of a range that exist. */
  lemma {:induction false} ReadShown(db: Db, t: nat, s: L.Store, act: Action)
    requires Shows(db, t, s)
    ensures var x, found := act.payload, L.ReadOf(s, act);
            (x.Read? ==> found == L.Value(Get(db, Address(x.keyspace, x.key), t))) &&
            (x.ReadRange? ==> found.Items?) &&
            (x.ReadRange? ==> forall a :: a in found.items ==> Get(db, a, t) == Some(found.items[a])) &&
            (x.ReadRange? ==> forall a :: a in found.items <==> NamesRange(act, a) && Exists(db, a, t))
  {
  }

  lemma {:induction false} WriteShown(db: Db, t: nat, s: L.Store, actions: seq<Action>, ts: nat, a: Address)
    requires Shows(db, t, s) && t <= ts && forall u :: t < u <= ts ==> Version(a, u) !in db
    ensures Get(PutAll(db, actions, ts), a, ts) ==
            if a in L.WriteAll(s, actions) then Some(L.WriteAll(s, actions)[a]) else None
  {
    var db' := PutAll(db, actions, ts);
    L.WriteAllEffect(s, actions, a);
    PutAllEffect(db, actions, ts, Version(a, ts));
    if LastWrite(actions, a).None? {
      forall u | 0 <= u <= ts
        ensures (Version(a, u) in db <==> Version(a, u) in db') &&
                (Version(a, u) in db ==> db[Version(a, u)] == db'[Version(a, u)])
      {
        PutAllEffect(db, actions, ts, Version(a, u));
      }
      assert SameUpTo(db, db', a, ts);
      GetDependsOnPast(db, db', a, ts);
      GetAcrossGap(db, a, t, ts);
      assert L.SameAt(L.WriteAll(s, actions), s, a);
    }
  }

  /** Writes lead from snapshot to snapshot. */
  lemma {:induction false} WritesShown(db: Db, t: nat, s: L.Store, actions: seq<Action>, ts: nat)
    requires Shows(db, t, s) && t <= ts && forall a, u :: t < u <= ts ==> Version(a, u) !in db
    ensures Shows(PutAll(db, actions, ts), ts, L.WriteAll(s, actions))
  {
    forall a ensures Get(PutAll(db, actions, ts), a, ts) ==
                     if a in L.WriteAll(s, actions) then Some(L.WriteAll(s, actions)[a]) else None
    {
      WriteShown(db, t, s, actions, ts, a);
    }
  }

  /**
   * An autocommit whose locks are free is carried out as on the snapshot just below its timestamp: refused for the same
   * action, or applied, and then the store shows the plain store with its writes.
   */
  lemma {:induction false} AutocommitShown(p: Partition, txn: Txn, ts: nat, s: L.Store)
    requires ts > 0 && txn.id !in p.status && FirstBlocked(p, LocksOf(txn.actions)).None?
    requires Shows(p.db, ts - 1, s) && forall a :: Version(a, ts) !in p.db
    ensures var (q, r) := ApplyAutocommit(p, p.db, txn, ts);
            var (s', out) := L.Execute(txn.actions, L.Apply, s);
            (r.Ok? <==> out.Applied?) && (out.Refused? ==> r.Refused? && r.actionId == out.actionId) &&
            Shows(q.db, ts, s')
  {
    FailureShown(p.db, ts - 1, s, txn.actions);
    WritesShown(p.db, ts - 1, s, txn.actions, ts);
    WritesShown(p.db, ts - 1, s, [], ts);
  }
}
