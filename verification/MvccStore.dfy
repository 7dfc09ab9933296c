/** The multi-version store of a partition: every write is kept under its address and commit timestamp. */
module MvccStore {
  import opened Options
  import opened ByteStrings
  import opened TxnLocks

  datatype Version = Version(address: Address, timestamp: nat)

  /** A stored None is a tombstone. */
  type Db = map<Version, Option<Bytes>>

  /** The value visible at a timestamp: the newest version not above it, unless that one is a tombstone. */
  function Get(db: Db, a: Address, timestamp: nat): Option<Bytes> {
    if Version(a, timestamp) in db then db[Version(a, timestamp)]
    else if timestamp == 0 then None
    else Get(db, a, timestamp - 1)
  }

  predicate Exists(db: Db, a: Address, timestamp: nat) {
    Get(db, a, timestamp).Some?
  }

  predicate ExistsInRange(db: Db, r: RangeLock, timestamp: nat) {
    exists v :: v in db && Covers(Lock(0, OnRange(r)), v.address) && Exists(db, v.address, timestamp)
  }

  /** The write an action stands for, if it is one. */
  function WriteOf(act: Action): Option<(Address, Option<Bytes>)> {
    match act.payload
    case Insert(ks, key, v) => Some((Address(ks, key), Some(v)))
    case Update(ks, key, v) => Some((Address(ks, key), Some(v)))
    case Upsert(ks, key, v) => Some((Address(ks, key), Some(v)))
    case Delete(ks, key) => Some((Address(ks, key), None))
    case _ => None
  }

  function LastWrite(actions: seq<Action>, a: Address): Option<Option<Bytes>> {
    if actions == [] then None
    else
      var w := WriteOf(actions[|actions| - 1]);
      if w.Some? && w.value.0 == a then Some(w.value.1) else LastWrite(actions[..|actions| - 1], a)
  }

  /** The records of a transaction stored at its commit timestamp, in action order. */
  function PutAll(db: Db, actions: seq<Action>, timestamp: nat): Db {
    if actions == [] then db
    else
      var front := PutAll(db, actions[..|actions| - 1], timestamp);
      match WriteOf(actions[|actions| - 1])
      case None => front
      case Some(w) => front[Version(w.0, timestamp) := w.1]
  }

  lemma {:induction false} PutAllEffect(db: Db, actions: seq<Action>, timestamp: nat, v: Version)
    ensures var w := LastWrite(actions, v.address);
            if v.timestamp == timestamp && w.Some?
            then v in PutAll(db, actions, timestamp) && PutAll(db, actions, timestamp)[v] == w.value
            else (v in PutAll(db, actions, timestamp) <==> v in db) &&
                 (v in db ==> PutAll(db, actions, timestamp)[v] == db[v])
  {
    if actions != [] {
      PutAllEffect(db, actions[..|actions| - 1], timestamp, v);
    }
  }

  lemma {:induction false} LocksOfPrefix(actions: seq<Action>, n: nat, a: Address)
    requires n <= |actions|
    ensures ListOwns(LocksOf(actions[..n]), a) ==> ListOwns(LocksOf(actions), a)
  {
    if ListOwns(LocksOf(actions[..n]), a) {
      var l :| l in LocksOf(actions[..n]) && Exclusive(l) && Covers(l, a);
      var i :| 0 <= i < n && BuildLock(actions[..n][i]) == Some(l);
      assert BuildLock(actions[i]) == Some(l);
      assert l in LocksOf(actions);
    }
  }

  /** A transaction writes only addresses it holds an exclusive lock on. */
  lemma {:induction false} WritesAreOwned(actions: seq<Action>, a: Address)
    requires LastWrite(actions, a).Some?
    ensures ListOwns(LocksOf(actions), a)
  {
    var last := actions[|actions| - 1];
    var w := WriteOf(last);
    if w.Some? && w.value.0 == a {
      var l := BuildLock(last).value;
      assert BuildLock(actions[|actions| - 1]) == Some(l);
      assert l in LocksOf(actions) && Exclusive(l) && Covers(l, a);
    } else {
      WritesAreOwned(actions[..|actions| - 1], a);
      LocksOfPrefix(actions, |actions| - 1, a);
    }
  }

  // ---- what a read depends on

  ghost predicate SameUpTo(db: Db, db': Db, a: Address, timestamp: nat) {
    forall t :: 0 <= t <= timestamp ==>
      (Version(a, t) in db <==> Version(a, t) in db') &&
      (Version(a, t) in db ==> db[Version(a, t)] == db'[Version(a, t)])
  }

  lemma {:induction false} GetDependsOnPast(db: Db, db': Db, a: Address, timestamp: nat)
    requires SameUpTo(db, db', a, timestamp)
    ensures Get(db, a, timestamp) == Get(db', a, timestamp)
  {
    assert Version(a, timestamp) in db <==> Version(a, timestamp) in db';
    if Version(a, timestamp) !in db && timestamp > 0 {
      GetDependsOnPast(db, db', a, timestamp - 1);
    }
  }

  /** With no version in between, two timestamps show the same value. */
  lemma {:induction false} GetAcrossGap(db: Db, a: Address, lo: nat, hi: nat)
    requires lo <= hi && forall t :: lo < t <= hi ==> Version(a, t) !in db
    ensures Get(db, a, lo) == Get(db, a, hi)
  {
    if lo < hi {
      assert Version(a, hi) !in db;
      GetAcrossGap(db, a, lo, hi - 1);
    }
  }

  lemma {:induction false} ExistsHasVersion(db: Db, a: Address, timestamp: nat) returns (t: nat)
    requires Exists(db, a, timestamp)
    ensures t <= timestamp && Version(a, t) in db
  {
    if Version(a, timestamp) in db {
      t := timestamp;
    } else {
      t := ExistsHasVersion(db, a, timestamp - 1);
    }
  }

  // ---- existence checks

  /** The check an action makes, as the data server validates it against a snapshot. */
  predicate CheckHolds(db: Db, act: Action, timestamp: nat) {
    match act.payload
    case Insert(ks, key, _) => !Exists(db, Address(ks, key), timestamp)
    case Update(ks, key, _) => Exists(db, Address(ks, key), timestamp)
    case Delete(ks, key) => Exists(db, Address(ks, key), timestamp)
    case LockKey(l, check) =>
      check.NoKeyCheck? || Exists(db, Address(l.keyspace, l.key), timestamp) == check.MustExist?
    case LockRange(l, check) =>
      check.NoRangeCheck? || ExistsInRange(db, l, timestamp) == check.MustNotBeEmpty?
    case _ => true
  }

  predicate ChecksHold(db: Db, actions: seq<Action>, timestamp: nat) {
    forall i :: 0 <= i < |actions| ==> CheckHolds(db, actions[i], timestamp)
  }

  /** Two snapshots that show the same values on everything the lists lock. */
  ghost predicate SameView(locks: seq<Lock>, db: Db, t: nat, db': Db, t': nat) {
    forall a :: ListCovers(locks, a) ==> Get(db, a, t) == Get(db', a, t')
  }

  /** Two stores with the same versions, up to a timestamp, of everything the list locks. */
  ghost predicate SamePast(locks: seq<Lock>, db: Db, db': Db, t: nat) {
    forall a :: ListCovers(locks, a) ==> SameUpTo(db, db', a, t)
  }

  lemma {:induction false} SamePastSameView(locks: seq<Lock>, db: Db, db': Db, t: nat)
    requires SamePast(locks, db, db', t)
    ensures SameView(locks, db, t, db', t)
  {
    forall a | ListCovers(locks, a) ensures Get(db, a, t) == Get(db', a, t) {
      GetDependsOnPast(db, db', a, t);
    }
  }

  lemma {:induction false} RangeSameView(db: Db, t: nat, db': Db, t': nat, r: RangeLock)
    requires forall a :: Covers(Lock(0, OnRange(r)), a) ==> Get(db, a, t) == Get(db', a, t')
    ensures ExistsInRange(db, r, t) ==> ExistsInRange(db', r, t')
  {
    if ExistsInRange(db, r, t) {
      var v :| v in db && Covers(Lock(0, OnRange(r)), v.address) && Exists(db, v.address, t);
      var u := ExistsHasVersion(db', v.address, t');
      assert Version(v.address, u).address == v.address;
    }
  }

  lemma {:induction false} CheckSameView(act: Action, locks: seq<Lock>, db: Db, t: nat, db': Db, t': nat)
    requires SameView(locks, db, t, db', t')
    requires BuildLock(act).Some? ==> BuildLock(act).value in locks
    ensures CheckHolds(db, act, t) <==> CheckHolds(db', act, t')
  {
    if BuildLock(act).Some? {
      var l := BuildLock(act).value;
      forall a | Covers(l, a) ensures Get(db, a, t) == Get(db', a, t') {
        assert ListCovers(locks, a);
      }
      match act.payload {
        case LockRange(r, _) =>
          RangeSameView(db, t, db', t', r);
          RangeSameView(db', t', db, t, r);
        case LockKey(k, _) => assert Covers(l, Address(k.keyspace, k.key));
        case Insert(ks, key, _) => assert Covers(l, Address(ks, key));
        case Update(ks, key, _) => assert Covers(l, Address(ks, key));
        case Delete(ks, key) => assert Covers(l, Address(ks, key));
        case _ =>
      }
    }
  }

  /** The checks of a transaction depend only on what its own locks cover. */
  lemma {:induction false} ChecksSameView(actions: seq<Action>, db: Db, t: nat, db': Db, t': nat)
    requires SameView(LocksOf(actions), db, t, db', t')
    ensures ChecksHold(db, actions, t) <==> ChecksHold(db', actions, t')
  {
    forall i | 0 <= i < |actions| ensures CheckHolds(db, actions[i], t) <==> CheckHolds(db', actions[i], t') {
      if BuildLock(actions[i]).Some? {
        assert BuildLock(actions[i]) == Some(BuildLock(actions[i]).value);
      }
      CheckSameView(actions[i], LocksOf(actions), db, t, db', t');
    }
  }
}
