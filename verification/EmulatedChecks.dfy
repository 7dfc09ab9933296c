/**
 * The checks of a transaction on the emulated store. They ask whether a key, or anything in a range, exists; range
 * checks are always answered as the multi-version store would, key checks exactly unless the key is misread.
 */
module EmulatedChecks {
  import opened Options
  import opened ByteStrings
  import opened TxnLocks
  import opened EmulatedStore
  import M = MvccStore

  // ---- single checks

  /** A tombstone reads as absent; the record's key is not looked at. */
  predicate KeyExists(rs: seq<Rec>, keyspace: nat, key: Bytes, timestamp: nat) {
    var r := GetFirst(rs, keyspace, key, timestamp);
    r.Some? && r.value.value.Some?
  }

  predicate RangeExists(rs: seq<Rec>, l: RangeLock, timestamp: nat) {
    exists j :: 0 <= j < |rs| && Wanted(rs, j, l.keyspace, l.startKey, l.endKey, AsOf(timestamp))
  }

  method ExistsInRange(rs: seq<Rec>, l: RangeLock, timestamp: nat) returns (found: bool)
    requires Sorted(rs) && l.startKey != []
    ensures found <==> RangeExists(rs, l, timestamp)
  {
    var out := GetRange(rs, l.keyspace, l.startKey, l.endKey, timestamp);
    found := out != [];
    assert found ==> out[0] in out;
    if j :| 0 <= j < |rs| && Wanted(rs, j, l.keyspace, l.startKey, l.endKey, AsOf(timestamp)) {
      assert rs[j] in out;
    }
  }

  predicate Checked(rs: seq<Rec>, act: Action, timestamp: nat) {
    match act.payload
    case Insert(ks, key, _) => !KeyExists(rs, ks, key, timestamp)
    case Update(ks, key, _) => KeyExists(rs, ks, key, timestamp)
    case Delete(ks, key) => KeyExists(rs, ks, key, timestamp)
    case LockKey(l, check) =>
      check.NoKeyCheck? || KeyExists(rs, l.keyspace, l.key, timestamp) == check.MustExist?
    case LockRange(l, check) =>
      check.NoRangeCheck? || RangeExists(rs, l, timestamp) == check.MustNotBeEmpty?
    case _ => true
  }

  predicate AllChecked(rs: seq<Rec>, actions: seq<Action>, timestamp: nat) {
    forall i :: 0 <= i < |actions| ==> Checked(rs, actions[i], timestamp)
  }

  // ---- range checks

  lemma {:induction false} RangeWanted(rs: seq<Rec>, db: M.Db, l: RangeLock, t: nat, j: nat)
    requires Represents(rs, db) && Wanted(rs, j, l.keyspace, l.startKey, l.endKey, t)
    ensures M.ExistsInRange(db, l, t)
  {
    NewestIsRead(rs, db, j, l.keyspace, rs[j].pos.key, t);
    assert VersionOf(rs[j]) in db;
  }

  /** Range checks are always right. */
  lemma {:induction false} RangeExact(rs: seq<Rec>, db: M.Db, l: RangeLock, timestamp: nat)
    requires Sorted(rs) && Represents(rs, db)
    ensures RangeExists(rs, l, timestamp) <==> M.ExistsInRange(db, l, AsOf(timestamp))
  {
    var t := AsOf(timestamp);
    if j :| 0 <= j < |rs| && Wanted(rs, j, l.keyspace, l.startKey, l.endKey, t) {
      RangeWanted(rs, db, l, t, j);
    }
    if v :| v in db && Covers(Lock(0, OnRange(l)), v.address) && M.Exists(db, v.address, t) {
      var ks, key := v.address.keyspace, v.address.key;
      if !SeenBy(rs, ks, key, t) {
        UnseenReadsNone(rs, db, ks, key, t);
      }
      SearchFindsNewest(rs, ks, key, t);
      var i := FindFirst(rs, Pos(ks, key, t));
      NewestIsRead(rs, db, i, ks, key, t);
      assert Wanted(rs, i, l.keyspace, l.startKey, l.endKey, t);
    }
  }

  // ---- key checks

  /** Record `i` is of another key, and stored after the key's own and before the end of its scan. */
  predicate OtherAt(rs: seq<Rec>, i: nat, keyspace: nat, key: Bytes) {
    i < |rs| && !OfKey(rs[i], keyspace, key) &&
    Before(Pos(keyspace, key, 0), rs[i].pos) && Before(rs[i].pos, EndOf(keyspace, key))
  }

  /** The next record of another key within the scan is a value, not a tombstone. */
  predicate LiveNext(rs: seq<Rec>, keyspace: nat, key: Bytes) {
    exists i :: 0 <= i < |rs| && OtherAt(rs, i, keyspace, key) && rs[i].value.Some? &&
      forall j :: 0 <= j < i ==> !OtherAt(rs, j, keyspace, key)
  }

  /** The newest visible version of the key is a value. */
  predicate LiveAt(rs: seq<Rec>, keyspace: nat, key: Bytes, t: nat) {
    exists i :: 0 <= i < |rs| && Newest(rs, i, keyspace, key, t) && rs[i].value.Some?
  }

  /**
   * An absent key is misread if another key's value comes next in its scan. A key whose scan ends before it begins is
   * misread if it has a value.
   */
  predicate Misread(rs: seq<Rec>, keyspace: nat, key: Bytes, timestamp: nat) {
    if EndsAfter(keyspace, key) then !SeenBy(rs, keyspace, key, AsOf(timestamp)) && LiveNext(rs, keyspace, key)
    else LiveAt(rs, keyspace, key, AsOf(timestamp))
  }

  lemma {:induction false} LiveIsExists(rs: seq<Rec>, db: M.Db, keyspace: nat, key: Bytes, t: nat)
    requires Sorted(rs) && Represents(rs, db)
    ensures LiveAt(rs, keyspace, key, t) <==> M.Exists(db, Address(keyspace, key), t)
    ensures !SeenBy(rs, keyspace, key, t) ==> !M.Exists(db, Address(keyspace, key), t)
  {
    if SeenBy(rs, keyspace, key, t) {
      SearchFindsNewest(rs, keyspace, key, t);
      var i := FindFirst(rs, Pos(keyspace, key, t));
      NewestIsRead(rs, db, i, keyspace, key, t);
      if j :| 0 <= j < |rs| && Newest(rs, j, keyspace, key, t) && rs[j].value.Some? {
        NewestIsRead(rs, db, j, keyspace, key, t);
      }
    } else {
      UnseenReadsNone(rs, db, keyspace, key, t);
    }
  }

  /** For an absent key the scan starts at the next record of another key. */
  lemma {:induction false} UnseenStartsNext(rs: seq<Rec>, keyspace: nat, key: Bytes, t: nat, j: nat)
    requires Sorted(rs) && !SeenBy(rs, keyspace, key, t) && OtherAt(rs, j, keyspace, key)
    ensures FindFirst(rs, Pos(keyspace, key, t)) <= j
    ensures OtherAt(rs, FindFirst(rs, Pos(keyspace, key, t)), keyspace, key)
  {
    var p := Pos(keyspace, key, t);
    var i := FindFirst(rs, p);
    OneSide(rs[j].pos, keyspace, key, t);
    if i < j {
      BeforeTransitive(rs[i].pos, rs[j].pos, EndOf(keyspace, key));
    }
    if OfKey(rs[i], keyspace, key) {
      SameKeyOrder(rs[i].pos, p);
    }
    OneSide(rs[i].pos, keyspace, key, t);
  }

  lemma {:induction false} FoundIsNext(rs: seq<Rec>, keyspace: nat, key: Bytes, timestamp: nat)
    requires Sorted(rs) && !SeenBy(rs, keyspace, key, AsOf(timestamp))
    requires KeyExists(rs, keyspace, key, timestamp)
    ensures LiveNext(rs, keyspace, key)
  {
    var t := AsOf(timestamp);
    var i := FindFirst(rs, Pos(keyspace, key, t));
    UnseenExact(rs, keyspace, key, timestamp);
    var k :| 0 <= k < |rs| && !OfKey(rs[k], keyspace, key) &&
      Before(Pos(keyspace, key, 0), rs[k].pos) && Before(rs[k].pos, EndOf(keyspace, key));
    UnseenStartsNext(rs, keyspace, key, t, k);
    forall j | 0 <= j < i ensures !OtherAt(rs, j, keyspace, key) {
      if OtherAt(rs, j, keyspace, key) {
        UnseenStartsNext(rs, keyspace, key, t, j);
      }
    }
  }

  lemma {:induction false} UnseenKey(rs: seq<Rec>, keyspace: nat, key: Bytes, timestamp: nat)
    requires Sorted(rs) && !SeenBy(rs, keyspace, key, AsOf(timestamp))
    ensures KeyExists(rs, keyspace, key, timestamp) <==> LiveNext(rs, keyspace, key)
  {
    if KeyExists(rs, keyspace, key, timestamp) {
      FoundIsNext(rs, keyspace, key, timestamp);
    }
    if LiveNext(rs, keyspace, key) {
      var j :| 0 <= j < |rs| && OtherAt(rs, j, keyspace, key) && rs[j].value.Some? &&
        forall k :: 0 <= k < j ==> !OtherAt(rs, k, keyspace, key);
      UnseenStartsNext(rs, keyspace, key, AsOf(timestamp), j);
    }
  }

  /** The check of a key agrees with the multi-version store exactly if the key is not misread. */
  lemma {:induction false} KeyExact(rs: seq<Rec>, db: M.Db, keyspace: nat, key: Bytes, timestamp: nat)
    requires Sorted(rs) && Represents(rs, db) && key != [] && keyspace <= MAX_KEYSPACE
    ensures KeyExists(rs, keyspace, key, timestamp) == M.Exists(db, Address(keyspace, key), AsOf(timestamp)) <==>
            !Misread(rs, keyspace, key, timestamp)
  {
    var t := AsOf(timestamp);
    LiveIsExists(rs, db, keyspace, key, t);
    if !EndsAfter(keyspace, key) {
      EndBeforeFindsNone(rs, keyspace, key, timestamp);
    } else if SeenBy(rs, keyspace, key, t) {
      SearchFindsNewest(rs, keyspace, key, t);
      var i := FindFirst(rs, Pos(keyspace, key, t));
      EndExact(keyspace, key, rs[i].pos.timestamp);
      NewestIsRead(rs, db, i, keyspace, key, t);
    } else {
      UnseenKey(rs, keyspace, key, timestamp);
    }
  }

  // ---- whole transactions

  /** The address whose existence an action checks. */
  function KeyChecked(act: Action): Option<Address> {
    match act.payload
    case Insert(ks, key, _) => Some(Address(ks, key))
    case Update(ks, key, _) => Some(Address(ks, key))
    case Delete(ks, key) => Some(Address(ks, key))
    case LockKey(l, check) => if check.NoKeyCheck? then None else Some(Address(l.keyspace, l.key))
    case _ => None
  }

  predicate AddressOk(a: Address) {
    a.key != [] && a.keyspace <= MAX_KEYSPACE
  }

  /** As request validation leaves it. */
  predicate WellFormed(act: Action) {
    (KeyChecked(act).Some? ==> AddressOk(KeyChecked(act).value)) &&
    (act.payload.LockRange? ==> act.payload.rangeLock.startKey != [])
  }

  predicate ActionMisread(rs: seq<Rec>, act: Action, timestamp: nat) {
    KeyChecked(act).Some? && Misread(rs, KeyChecked(act).value.keyspace, KeyChecked(act).value.key, timestamp)
  }

  /** What an action with a key check makes of the answer. */
  predicate Passes(act: Action, found: bool) {
    match act.payload
    case Insert(_, _, _) => !found
    case LockKey(_, check) => found == check.MustExist?
    case _ => found
  }

  lemma {:induction false} PassesStored(db: M.Db, act: Action, t: nat)
    requires KeyChecked(act).Some?
    ensures M.CheckHolds(db, act, t) == Passes(act, M.Exists(db, KeyChecked(act).value, t))
  {
  }

  lemma {:induction false} PassesEmulated(rs: seq<Rec>, act: Action, timestamp: nat)
    requires KeyChecked(act).Some?
    ensures var a := KeyChecked(act).value;
            Checked(rs, act, timestamp) == Passes(act, KeyExists(rs, a.keyspace, a.key, timestamp))
  {
  }

  /** The check of one action comes out as on the multi-version store exactly if it is not of a misread key. */
  lemma {:induction false} ActionExact(rs: seq<Rec>, db: M.Db, act: Action, timestamp: nat)
    requires Sorted(rs) && Represents(rs, db) && WellFormed(act)
    ensures (Checked(rs, act, timestamp) <==> M.CheckHolds(db, act, AsOf(timestamp))) <==>
            !ActionMisread(rs, act, timestamp)
  {
    var t := AsOf(timestamp);
    if KeyChecked(act).Some? {
      PassesStored(db, act, t);
      PassesEmulated(rs, act, timestamp);
      KeyExact(rs, db, KeyChecked(act).value.keyspace, KeyChecked(act).value.key, timestamp);
    } else if act.payload.LockRange? {
      RangeExact(rs, db, act.payload.rangeLock, timestamp);
    }
  }

  lemma {:induction false} ChecksAgree(rs: seq<Rec>, db: M.Db, actions: seq<Action>, timestamp: nat)
    requires Sorted(rs) && Represents(rs, db)
    requires forall i :: 0 <= i < |actions| ==> WellFormed(actions[i]) && !ActionMisread(rs, actions[i], timestamp)
    ensures AllChecked(rs, actions, timestamp) <==> M.ChecksHold(db, actions, AsOf(timestamp))
  {
    forall i | 0 <= i < |actions|
      ensures Checked(rs, actions[i], timestamp) <==> M.CheckHolds(db, actions[i], AsOf(timestamp))
    {
      ActionExact(rs, db, actions[i], timestamp);
    }
  }

  ghost predicate Alike(rs: seq<Rec>, db: M.Db, actions: seq<Action>, timestamp: nat) {
    (forall i :: 0 <= i < |actions| ==> WellFormed(actions[i])) ==>
    (AllChecked(rs, actions, timestamp) <==> M.ChecksHold(db, actions, AsOf(timestamp)))
  }

  lemma {:induction false} OneAction(rs: seq<Rec>, db: M.Db, act: Action, timestamp: nat, t: nat)
    ensures AllChecked(rs, [act], timestamp) <==> Checked(rs, act, timestamp)
    ensures M.ChecksHold(db, [act], t) <==> M.CheckHolds(db, act, t)
  {
    assert [act][0] == act;
  }

  lemma {:induction false} MisreadDiffers(rs: seq<Rec>, db: M.Db, act: Action, timestamp: nat)
    requires Sorted(rs) && Represents(rs, db) && WellFormed(act) && ActionMisread(rs, act, timestamp)
    ensures !Alike(rs, db, [act], timestamp)
  {
    ActionExact(rs, db, act, timestamp);
    OneAction(rs, db, act, timestamp, AsOf(timestamp));
  }

  ghost predicate NoneMisread(rs: seq<Rec>, timestamp: nat) {
    forall a: Address :: AddressOk(a) ==> !Misread(rs, a.keyspace, a.key, timestamp)
  }

  lemma {:induction false} AlikeIfNoneMisread(rs: seq<Rec>, db: M.Db, actions: seq<Action>, timestamp: nat)
    requires Sorted(rs) && Represents(rs, db) && NoneMisread(rs, timestamp)
    ensures Alike(rs, db, actions, timestamp)
  {
    if forall i :: 0 <= i < |actions| ==> WellFormed(actions[i]) {
      forall i | 0 <= i < |actions| ensures !ActionMisread(rs, actions[i], timestamp) {
        assert WellFormed(actions[i]);
      }
      ChecksAgree(rs, db, actions, timestamp);
    }
  }

  lemma {:induction false} SomeMisread(rs: seq<Rec>, timestamp: nat) returns (act: Action)
    requires !NoneMisread(rs, timestamp)
    ensures WellFormed(act) && ActionMisread(rs, act, timestamp)
  {
    var a: Address :| AddressOk(a) && Misread(rs, a.keyspace, a.key, timestamp);
    act := Action(0, Delete(a.keyspace, a.key));
  }

  /** A store checks every transaction as the multi-version store would exactly if it misreads no key. */
  lemma {:induction false} ChecksExact(rs: seq<Rec>, db: M.Db, timestamp: nat)
    requires Sorted(rs) && Represents(rs, db)
    ensures (forall actions :: Alike(rs, db, actions, timestamp)) <==> NoneMisread(rs, timestamp)
  {
    if NoneMisread(rs, timestamp) {
      forall actions ensures Alike(rs, db, actions, timestamp) {
        AlikeIfNoneMisread(rs, db, actions, timestamp);
      }
    } else {
      var act := SomeMisread(rs, timestamp);
      MisreadDiffers(rs, db, act, timestamp);
    }
  }

  /** An insert of a key that does not exist can be refused, because the next key does. */
  lemma {:induction false} InsertRefused() returns (rs: seq<Rec>, db: M.Db, act: Action)
    ensures Sorted(rs) && Represents(rs, db) && WellFormed(act) && act.payload.Insert?
    ensures M.CheckHolds(db, act, 9) && !Checked(rs, act, 9)
  {
    rs := NeighbourReturned();
    db := map[VersionOf(rs[0]) := rs[0].value];
    act := Action(0, Insert(16, [1, 2], [8]));
    assert Represents(rs, db) by {
      assert VersionOf(rs[0]) in db;
    }
    UnseenReadsNone(rs, db, 16, [1, 2], 9);
  }
}
