/** Transaction actions, the locks built from them and lock compatibility. */
module TxnLocks {
  import opened Options
  import opened ByteStrings

  datatype Address = Address(keyspace: nat, key: Bytes)

  datatype KeyCheck = NoKeyCheck | MustExist | MustNotExist
  datatype RangeCheck = NoRangeCheck | MustBeEmpty | MustNotBeEmpty

  datatype KeyLock = KeyLock(keyspace: nat, key: Bytes, exclusive: bool)
  datatype RangeLock = RangeLock(keyspace: nat, startKey: Bytes, endKey: Bytes, exclusive: bool)

  datatype LockPayload = OnKey(keyLock: KeyLock) | OnRange(rangeLock: RangeLock)
  datatype Lock = Lock(actionId: nat, payload: LockPayload)

  datatype Payload =
    | Read(keyspace: nat, key: Bytes)
    | ReadRange(keyspace: nat, startKey: Bytes, endKey: Bytes, maxResults: nat)
    | Insert(keyspace: nat, key: Bytes, value: Bytes)
    | Update(keyspace: nat, key: Bytes, value: Bytes)
    | Upsert(keyspace: nat, key: Bytes, value: Bytes)
    | Delete(keyspace: nat, key: Bytes)
    | LockKey(keyLock: KeyLock, keyCheck: KeyCheck)
    | LockRange(rangeLock: RangeLock, rangeCheck: RangeCheck)
    | Unset

  datatype Action = Action(id: nat, payload: Payload)

  predicate IsReadOnly(a: Action) {
    a.payload.Read? || a.payload.ReadRange?
  }

  predicate AllReadOnly(actions: seq<Action>) {
    forall i :: 0 <= i < |actions| ==> IsReadOnly(actions[i])
  }

  function BuildLock(a: Action): Option<Lock> {
    match a.payload
    case Read(ks, key) => Some(Lock(a.id, OnKey(KeyLock(ks, key, false))))
    case ReadRange(ks, lo, hi, _) => Some(Lock(a.id, OnRange(RangeLock(ks, lo, hi, false))))
    case Insert(ks, key, _) => Some(Lock(a.id, OnKey(KeyLock(ks, key, true))))
    case Update(ks, key, _) => Some(Lock(a.id, OnKey(KeyLock(ks, key, true))))
    case Upsert(ks, key, _) => Some(Lock(a.id, OnKey(KeyLock(ks, key, true))))
    case Delete(ks, key) => Some(Lock(a.id, OnKey(KeyLock(ks, key, true))))
    case LockKey(l, _) => Some(Lock(a.id, OnKey(l)))
    case LockRange(l, _) => Some(Lock(a.id, OnRange(l)))
    case Unset => None
  }

  /** The locks of a transaction, in action order. */
  function LocksOf(actions: seq<Action>): (locks: seq<Lock>)
    ensures forall l :: l in locks <==> exists i :: 0 <= i < |actions| && BuildLock(actions[i]) == Some(l)
  {
    if actions == [] then []
    else
      var last := actions[|actions| - 1];
      var front := LocksOf(actions[..|actions| - 1]);
      match BuildLock(last)
      case None => front
      case Some(l) => front + [l]
  }

  /** The address an action on a single key names. */
  predicate NamesKey(a: Action, address: Address) {
    var x := a.payload;
    (x.Read? || x.Insert? || x.Update? || x.Upsert? || x.Delete? ==>
       address.keyspace == x.keyspace && address.key == x.key) &&
    (x.LockKey? ==> address.keyspace == x.keyLock.keyspace && address.key == x.keyLock.key) &&
    !x.ReadRange? && !x.LockRange? && !x.Unset?
  }

  /** The addresses an action on a range names, the end excluded. */
  predicate NamesRange(a: Action, address: Address) {
    var x := a.payload;
    (x.ReadRange? && address.keyspace == x.keyspace && AtMost(x.startKey, address.key) &&
     Less(address.key, x.endKey)) ||
    (x.LockRange? && address.keyspace == x.rangeLock.keyspace && AtMost(x.rangeLock.startKey, address.key) &&
     Less(address.key, x.rangeLock.endKey))
  }

  /**
   * The lock of an action bears its id and covers exactly what the action names; it is exclusive for whatever writes
   * and for locks that ask for it, and shared for reads. Only an action without a payload has none.
   */
  lemma {:induction false} LockExact(a: Action, address: Address)
    ensures BuildLock(a).None? <==> a.payload.Unset?
    ensures BuildLock(a).Some? ==>
              var l, x := BuildLock(a).value, a.payload;
              l.actionId == a.id && (Covers(l, address) <==> NamesKey(a, address) || NamesRange(a, address)) &&
              (Exclusive(l) <==> x.Insert? || x.Update? || x.Upsert? || x.Delete? ||
                                 (x.LockKey? && x.keyLock.exclusive) || (x.LockRange? && x.rangeLock.exclusive))
  {
  }

  method BuildLocks(actions: seq<Action>) returns (locks: seq<Lock>)
    ensures locks == LocksOf(actions)
  {
    locks := [];
    for i := 0 to |actions|
      invariant locks == LocksOf(actions[..i])
    {
      assert actions[..i + 1][..i] == actions[..i];
      match BuildLock(actions[i]) {
        case None =>
        case Some(l) => locks := locks + [l];
      }
    }
    assert actions[..|actions|] == actions;
  }

  method TxnIsReadOnly(actions: seq<Action>) returns (ok: bool)
    ensures ok <==> AllReadOnly(actions)
  {
    for i := 0 to |actions|
      invariant AllReadOnly(actions[..i])
    {
      if !IsReadOnly(actions[i]) {
        return false;
      }
    }
    return true;
  }

  // ---- compatibility, as the three pairwise functions decide it

  predicate KeyLocksCompatible(a: KeyLock, b: KeyLock) {
    if a.keyspace != b.keyspace then true
    else if a.key != b.key then true
    else !a.exclusive && !b.exclusive
  }

  predicate RangeLocksCompatible(a: RangeLock, b: RangeLock) {
    if a.keyspace != b.keyspace then true
    else if Compare(a.endKey, b.startKey) <= 0 then true
    else if Compare(a.startKey, b.endKey) >= 0 then true
    else !a.exclusive && !b.exclusive
  }

  predicate RangeLockCompatibleWithKeyLock(a: RangeLock, b: KeyLock) {
    if a.keyspace != b.keyspace then true
    else if Compare(b.key, a.startKey) < 0 then true
    else if Compare(b.key, a.endKey) >= 0 then true
    else !a.exclusive && !b.exclusive
  }

  predicate CompatibleWith(l: Lock, other: Lock) {
    match (l.payload, other.payload)
    case (OnKey(a), OnKey(b)) => KeyLocksCompatible(a, b)
    case (OnKey(a), OnRange(b)) => RangeLockCompatibleWithKeyLock(b, a)
    case (OnRange(a), OnKey(b)) => RangeLockCompatibleWithKeyLock(a, b)
    case (OnRange(a), OnRange(b)) => RangeLocksCompatible(a, b)
  }

  // ---- what a lock protects, independently of how conflicts are detected

  predicate Exclusive(l: Lock) {
    match l.payload
    case OnKey(k) => k.exclusive
    case OnRange(r) => r.exclusive
  }

  predicate Covers(l: Lock, a: Address) {
    match l.payload
    case OnKey(k) => k.keyspace == a.keyspace && k.key == a.key
    case OnRange(r) => r.keyspace == a.keyspace && AtMost(r.startKey, a.key) && Less(a.key, r.endKey)
  }

  predicate EmptyRange(l: Lock) {
    l.payload.OnRange? && AtMost(l.payload.rangeLock.endKey, l.payload.rangeLock.startKey)
  }

  ghost predicate Overlap(l: Lock, m: Lock) {
    exists a :: Covers(l, a) && Covers(m, a)
  }

  lemma {:induction false} EmptyRangeCoversNothing(l: Lock, a: Address)
    requires EmptyRange(l)
    ensures !Covers(l, a)
  {
    var r := l.payload.rangeLock;
    if Covers(l, a) {
      AtMostTransitive(r.startKey, a.key, r.endKey);
      Trichotomy(r.endKey, r.startKey);
    }
  }

  lemma {:induction false} CompatibilitySymmetric(l: Lock, m: Lock)
    ensures CompatibleWith(l, m) <==> CompatibleWith(m, l)
  {
    if l.payload.OnRange? && m.payload.OnRange? {
      var a, b := l.payload.rangeLock, m.payload.rangeLock;
      CompareFlips(a.endKey, b.startKey);
      CompareFlips(a.startKey, b.endKey);
    }
  }

  /** A compatible pair with an exclusive side protects disjoint keys: this is what isolation rests on. */
  lemma {:induction false} CompatibleIsDisjoint(l: Lock, m: Lock, a: Address)
    requires CompatibleWith(l, m) && (Exclusive(l) || Exclusive(m))
    ensures !(Covers(l, a) && Covers(m, a))
  {
    if Covers(l, a) && Covers(m, a) {
      match (l.payload, m.payload) {
        case (OnKey(_), OnKey(_)) =>
        case (OnKey(k), OnRange(r)) => Trichotomy(r.startKey, k.key);
        case (OnRange(r), OnKey(k)) => Trichotomy(r.startKey, k.key);
        case (OnRange(r), OnRange(t)) =>
          RangesMeet(r, t, a.key);
          RangesMeet(t, r, a.key);
          CompareFlips(r.startKey, t.endKey);
      }
    }
  }

  lemma {:induction false} RangesMeet(r: RangeLock, t: RangeLock, k: Bytes)
    requires Less(k, r.endKey) && AtMost(t.startKey, k)
    ensures Less(t.startKey, r.endKey)
    ensures !AtMost(r.endKey, t.startKey)
  {
    AtMostTransitive(t.startKey, k, r.endKey);
    Trichotomy(r.endKey, t.startKey);
  }

  /** Incompatible non-empty locks really do share a key. */
  lemma {:induction false} IncompatibleOverlap(l: Lock, m: Lock)
    requires !CompatibleWith(l, m) && !EmptyRange(l) && !EmptyRange(m)
    ensures Overlap(l, m)
  {
    match (l.payload, m.payload) {
      case (OnKey(k), OnKey(_)) =>
        assert Covers(l, Address(k.keyspace, k.key));
      case (OnKey(k), OnRange(r)) =>
        Trichotomy(r.startKey, k.key);
        assert Covers(l, Address(k.keyspace, k.key));
      case (OnRange(r), OnKey(k)) =>
        Trichotomy(r.startKey, k.key);
        assert Covers(m, Address(k.keyspace, k.key));
      case (OnRange(r), OnRange(t)) =>
        // the larger of the two start keys lies in both ranges
        var start := if AtMost(r.startKey, t.startKey) then t.startKey else r.startKey;
        Trichotomy(r.startKey, t.startKey);
        Trichotomy(r.endKey, r.startKey);
        Trichotomy(t.endKey, t.startKey);
        Trichotomy(r.endKey, t.startKey);
        CompareFlips(r.startKey, t.endKey);
        CompareZero(start, start);
        assert Covers(l, Address(r.keyspace, start)) && Covers(m, Address(r.keyspace, start));
    }
  }

  /** Each of two ranges starts strictly before the other ends. For an empty one: it lies strictly inside the other. */
  predicate Straddle(l: Lock, m: Lock) {
    l.payload.OnRange? && m.payload.OnRange? &&
    var a, b := l.payload.rangeLock, m.payload.rangeLock;
    a.keyspace == b.keyspace && Less(b.startKey, a.endKey) && Less(a.startKey, b.endKey)
  }

  /** What makes two locks collide: a common key or, for an empty range, lying strictly inside another range. */
  ghost predicate Meet(l: Lock, m: Lock) {
    Overlap(l, m) || ((EmptyRange(l) || EmptyRange(m)) && Straddle(l, m))
  }

  lemma {:induction false} EmptyRangeExact(l: Lock, m: Lock)
    requires EmptyRange(l) || EmptyRange(m)
    ensures CompatibleWith(l, m) <==> (!Exclusive(l) && !Exclusive(m)) || !Straddle(l, m)
    ensures !Overlap(l, m)
  {
    forall a ensures !(Covers(l, a) && Covers(m, a)) {
      if EmptyRange(l) {
        EmptyRangeCoversNothing(l, a);
      } else {
        EmptyRangeCoversNothing(m, a);
      }
    }
    match (l.payload, m.payload) {
      case (OnKey(k), OnRange(r)) => EmptyHoldsNoKey(m, k);
      case (OnRange(r), OnKey(k)) => EmptyHoldsNoKey(l, k);
      case (OnRange(r), OnRange(t)) =>
        Trichotomy(r.endKey, t.startKey);
        CompareFlips(r.startKey, t.endKey);
    }
  }

  lemma {:induction false} EmptyHoldsNoKey(l: Lock, k: KeyLock)
    requires EmptyRange(l)
    ensures RangeLockCompatibleWithKeyLock(l.payload.rangeLock, k)
  {
    EmptyRangeCoversNothing(l, Address(k.keyspace, k.key));
    Trichotomy(l.payload.rangeLock.startKey, k.key);
  }

  /** Locks are compatible exactly if both are shared or they do not meet. */
  lemma {:induction false} CompatibilityExact(l: Lock, m: Lock)
    ensures CompatibleWith(l, m) <==> (!Exclusive(l) && !Exclusive(m)) || !Meet(l, m)
  {
    if EmptyRange(l) || EmptyRange(m) {
      EmptyRangeExact(l, m);
    } else if !CompatibleWith(l, m) {
      IncompatibleOverlap(l, m);
    } else if Exclusive(l) || Exclusive(m) {
      forall a ensures !(Covers(l, a) && Covers(m, a)) {
        CompatibleIsDisjoint(l, m, a);
      }
    }
    if !Exclusive(l) && !Exclusive(m) {
      assert CompatibleWith(l, m);
    }
  }

  /** An empty range strictly inside an exclusive range covers nothing and is refused all the same. */
  lemma {:induction false} EmptyRangeStillConflicts()
    ensures exists l, m :: EmptyRange(l) && !Overlap(l, m) && !CompatibleWith(l, m)
  {
    var l := Lock(0, OnRange(RangeLock(16, [2], [2], false)));
    var m := Lock(1, OnRange(RangeLock(16, [1], [3], true)));
    forall a ensures !(Covers(l, a) && Covers(m, a)) {
      EmptyRangeCoversNothing(l, a);
    }
    assert EmptyRange(l) && !Overlap(l, m) && !CompatibleWith(l, m);
  }

  // ---- lock lists

  predicate ListsCompatible(ls: seq<Lock>, ms: seq<Lock>) {
    forall l, m :: l in ls && m in ms ==> CompatibleWith(l, m)
  }

  ghost predicate ListCovers(ls: seq<Lock>, a: Address) {
    exists l :: l in ls && Covers(l, a)
  }

  ghost predicate ListOwns(ls: seq<Lock>, a: Address) {
    exists l :: l in ls && Exclusive(l) && Covers(l, a)
  }

  lemma {:induction false} OwnedIsPrivate(ls: seq<Lock>, ms: seq<Lock>, a: Address)
    requires ListsCompatible(ls, ms) && ListOwns(ls, a)
    ensures !ListCovers(ms, a)
  {
    var l :| l in ls && Exclusive(l) && Covers(l, a);
    if ListCovers(ms, a) {
      var m :| m in ms && Covers(m, a);
      CompatibleIsDisjoint(l, m, a);
    }
  }

  lemma {:induction false} ListsCompatibleSymmetric(ls: seq<Lock>, ms: seq<Lock>)
    ensures ListsCompatible(ls, ms) <==> ListsCompatible(ms, ls)
  {
    forall l, m | l in ls && m in ms ensures CompatibleWith(l, m) <==> CompatibleWith(m, l) {
      CompatibilitySymmetric(l, m);
    }
  }

  lemma {:induction false} ReadOnlyTxnsNeverConflict(a: seq<Action>, b: seq<Action>)
    requires AllReadOnly(a) && AllReadOnly(b)
    ensures ListsCompatible(LocksOf(a), LocksOf(b))
  {
    forall l, m | l in LocksOf(a) && m in LocksOf(b) ensures CompatibleWith(l, m) {
      var i :| 0 <= i < |a| && BuildLock(a[i]) == Some(l);
      var j :| 0 <= j < |b| && BuildLock(b[j]) == Some(m);
      assert IsReadOnly(a[i]) && IsReadOnly(b[j]);
    }
  }
}
