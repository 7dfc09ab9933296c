/**
 * The multi-version reads that are emulated on an ordered key-value store: records are sorted by keyspace and key,
 * newest first within a key, and reads are scans.
 */
module EmulatedStore {
  import opened Options
  import opened ByteStrings
  import TxnLocks
  import MvccStore

  const MAX_TIMESTAMP: nat := 0xFFFF_FFFF_FFFF_FFFF
  const MAX_KEYSPACE: nat := 0xFFFF_FFFF

  datatype Pos = Pos(keyspace: nat, key: Bytes, timestamp: nat)

  /** A missing value is a tombstone. */
  datatype Rec = Rec(pos: Pos, value: Option<Bytes>)

  function ComparePos(a: Pos, b: Pos): int {
    if a.keyspace != b.keyspace then a.keyspace - b.keyspace
    else if Compare(a.key, b.key) != 0 then Compare(a.key, b.key)
    else b.timestamp - a.timestamp
  }

  predicate Before(a: Pos, b: Pos) {
    ComparePos(a, b) < 0
  }

  lemma {:induction false} BeforeTransitive(a: Pos, b: Pos, c: Pos)
    requires Before(a, b) && Before(b, c)
    ensures Before(a, c)
  {
    if a.keyspace == b.keyspace == c.keyspace {
      AtMostTransitive(a.key, b.key, c.key);
      CompareZero(a.key, b.key);
      CompareZero(b.key, c.key);
      CompareZero(a.key, c.key);
    }
  }

  lemma {:induction false} BeforeTotal(a: Pos, b: Pos)
    ensures Before(a, b) || Before(b, a) || a == b
    ensures !(Before(a, b) && Before(b, a))
    ensures !Before(a, a)
  {
    CompareFlips(a.key, b.key);
    CompareZero(a.key, b.key);
    CompareZero(a.key, a.key);
  }

  predicate Sorted(rs: seq<Rec>) {
    forall i, j :: 0 <= i < j < |rs| ==> Before(rs[i].pos, rs[j].pos)
  }

  // ---- searching

  /** The index of the first record that does not come before `p`. */
  function FindFirst(rs: seq<Rec>, p: Pos): (i: nat)
    ensures i <= |rs|
    ensures forall j :: 0 <= j < i ==> Before(rs[j].pos, p)
    ensures i < |rs| ==> !Before(rs[i].pos, p)
  {
    if rs == [] || !Before(rs[0].pos, p) then 0
    else
      var i := FindFirst(rs[1..], p);
      assert forall j :: 1 <= j < i + 1 ==> rs[j] == rs[1..][j - 1];
      i + 1
  }

  predicate OfKey(r: Rec, keyspace: nat, key: Bytes) {
    r.pos.keyspace == keyspace && r.pos.key == key
  }

  /** Record `i` is the newest version of its key that the timestamp can see. */
  predicate Newest(rs: seq<Rec>, i: nat, keyspace: nat, key: Bytes, timestamp: nat) {
    i < |rs| && OfKey(rs[i], keyspace, key) && rs[i].pos.timestamp <= timestamp &&
    forall j :: 0 <= j < |rs| && OfKey(rs[j], keyspace, key) && rs[j].pos.timestamp <= timestamp ==>
      rs[j].pos.timestamp <= rs[i].pos.timestamp
  }

  predicate SeenBy(rs: seq<Rec>, keyspace: nat, key: Bytes, timestamp: nat) {
    exists i :: 0 <= i < |rs| && OfKey(rs[i], keyspace, key) && rs[i].pos.timestamp <= timestamp
  }

  lemma {:induction false} SameKeyOrder(a: Pos, b: Pos)
    requires a.keyspace == b.keyspace && a.key == b.key
    ensures Before(a, b) <==> a.timestamp > b.timestamp
  {
    CompareZero(a.key, b.key);
  }

  /** The search lands on the newest visible version of a key, if there is one. */
  lemma {:induction false} SearchFindsNewest(rs: seq<Rec>, keyspace: nat, key: Bytes, timestamp: nat)
    requires Sorted(rs) && SeenBy(rs, keyspace, key, timestamp)
    ensures Newest(rs, FindFirst(rs, Pos(keyspace, key, timestamp)), keyspace, key, timestamp)
  {
    var p := Pos(keyspace, key, timestamp);
    var i := FindFirst(rs, p);
    var k :| 0 <= k < |rs| && OfKey(rs[k], keyspace, key) && rs[k].pos.timestamp <= timestamp;
    SameKeyOrder(rs[k].pos, p);
    assert i <= k;
    BetweenSameKey(p, rs[i].pos, rs[k].pos, i == k);
    SameKeyOrder(rs[i].pos, p);
    forall j | 0 <= j < |rs| && OfKey(rs[j], keyspace, key) && rs[j].pos.timestamp <= timestamp
      ensures rs[j].pos.timestamp <= rs[i].pos.timestamp
    {
      SameKeyOrder(rs[j].pos, p);
      if i < j {
        SameKeyOrder(rs[i].pos, rs[j].pos);
      }
    }
  }

  /** A position between two of one key is of that key. */
  lemma {:induction false} BetweenSameKey(p: Pos, x: Pos, q: Pos, same: bool)
    requires p.keyspace == q.keyspace && p.key == q.key
    requires !Before(x, p) && (same ==> x == q) && (!same ==> Before(x, q))
    ensures x.keyspace == p.keyspace && x.key == p.key
  {
    if !same {
      CompareFlips(x.key, p.key);
      CompareZero(x.key, p.key);
      CompareZero(p.key, p.key);
    }
  }

  // ---- point reads

  /** Adds one to a byte string from its first byte, carrying to the right; None if every byte wraps. */
  function IncrementKey(key: Bytes): Option<Bytes> {
    if key == [] then None
    else if key[0] < 255 then Some([key[0] + 1] + key[1..])
    else
      match IncrementKey(key[1..])
      case None => None
      case Some(rest) => Some([0] + rest)
  }

  /** Where a point read stops: the address after the last one of the key. */
  function EndOf(keyspace: nat, key: Bytes): Pos {
    match IncrementKey(key)
    case Some(next) => Pos(keyspace, next, MAX_TIMESTAMP)
    case None => Pos(if keyspace == MAX_KEYSPACE then 0 else keyspace + 1, seq(|key|, _ => 0), MAX_TIMESTAMP)
  }

  /** Zero asks for the latest version. */
  function AsOf(timestamp: nat): nat {
    if timestamp == 0 then MAX_TIMESTAMP else timestamp
  }

  /** The first record from the key's newest visible position on, whatever its key, up to the end address. */
  function GetFirst(rs: seq<Rec>, keyspace: nat, key: Bytes, timestamp: nat): Option<Rec> {
    var i := FindFirst(rs, Pos(keyspace, key, AsOf(timestamp)));
    if i < |rs| && Before(rs[i].pos, EndOf(keyspace, key)) then Some(rs[i]) else None
  }

  /** The record a point read should find. */
  predicate Right(rs: seq<Rec>, keyspace: nat, key: Bytes, timestamp: nat, r: Option<Rec>) {
    match r
    case None => !SeenBy(rs, keyspace, key, timestamp)
    case Some(x) => exists i :: 0 <= i < |rs| && Newest(rs, i, keyspace, key, timestamp) && rs[i] == x
  }

  /** The end address lies after the key: its first byte leaves room, or all wrap and the next keyspace exists. */
  predicate EndsAfter(keyspace: nat, key: Bytes) {
    key != [] && (key[0] < 255 || ((forall i :: 0 <= i < |key| ==> key[i] == 255) && keyspace < MAX_KEYSPACE))
  }

  lemma {:induction false} WrapsExactly(key: Bytes)
    ensures IncrementKey(key).None? <==> forall i :: 0 <= i < |key| ==> key[i] == 255
  {
    if key != [] {
      WrapsExactly(key[1..]);
      assert forall i :: 1 <= i < |key| ==> key[i] == key[1..][i - 1];
    }
  }

  lemma {:induction false} EndExact(keyspace: nat, key: Bytes, t: nat)
    requires key != [] && keyspace <= MAX_KEYSPACE
    ensures if EndsAfter(keyspace, key) then Before(Pos(keyspace, key, t), EndOf(keyspace, key))
            else Before(EndOf(keyspace, key), Pos(keyspace, key, t))
  {
    WrapsExactly(key);
    if IncrementKey(key).Some? {
      var next := IncrementKey(key).value;
      assert key[0] < 255 ==> next[0] == key[0] + 1;
      assert key[0] == 255 ==> next[0] == 0;
    } else {
      assert key[0] == 255;
    }
  }

  /** A record of another key is stored after the key's own and before the end address. */
  predicate OtherBetween(rs: seq<Rec>, keyspace: nat, key: Bytes) {
    exists i :: 0 <= i < |rs| && !OfKey(rs[i], keyspace, key) &&
      Before(Pos(keyspace, key, 0), rs[i].pos) && Before(rs[i].pos, EndOf(keyspace, key))
  }

  /** A position of another key is on the same side of all positions of a key. */
  lemma {:induction false} OneSide(x: Pos, keyspace: nat, key: Bytes, t: nat)
    requires x.keyspace != keyspace || x.key != key
    ensures !Before(x, Pos(keyspace, key, t)) <==> Before(Pos(keyspace, key, 0), x)
  {
    CompareZero(x.key, key);
    CompareFlips(x.key, key);
  }

  /** For a key without a visible version the scan hands out whatever other record comes before the end address. */
  lemma {:induction false} UnseenExact(rs: seq<Rec>, keyspace: nat, key: Bytes, timestamp: nat)
    requires Sorted(rs) && !SeenBy(rs, keyspace, key, AsOf(timestamp))
    ensures GetFirst(rs, keyspace, key, timestamp).Some? <==> OtherBetween(rs, keyspace, key)
  {
    var t := AsOf(timestamp);
    var i := FindFirst(rs, Pos(keyspace, key, t));
    if i < |rs| && Before(rs[i].pos, EndOf(keyspace, key)) {
      if OfKey(rs[i], keyspace, key) {
        SameKeyOrder(rs[i].pos, Pos(keyspace, key, t));
      }
      OneSide(rs[i].pos, keyspace, key, t);
      assert OtherBetween(rs, keyspace, key);
    }
    if OtherBetween(rs, keyspace, key) {
      var j :| 0 <= j < |rs| && !OfKey(rs[j], keyspace, key) &&
        Before(Pos(keyspace, key, 0), rs[j].pos) && Before(rs[j].pos, EndOf(keyspace, key));
      OneSide(rs[j].pos, keyspace, key, t);
      if i < j {
        BeforeTransitive(rs[i].pos, rs[j].pos, EndOf(keyspace, key));
      }
    }
  }

  /** Where the end address lies before the key, nothing is ever found. */
  lemma {:induction false} EndBeforeFindsNone(rs: seq<Rec>, keyspace: nat, key: Bytes, timestamp: nat)
    requires key != [] && keyspace <= MAX_KEYSPACE && !EndsAfter(keyspace, key)
    ensures GetFirst(rs, keyspace, key, timestamp) == None
  {
    var p := Pos(keyspace, key, AsOf(timestamp));
    var i := FindFirst(rs, p);
    EndExact(keyspace, key, p.timestamp);
    if i < |rs| && Before(rs[i].pos, EndOf(keyspace, key)) {
      BeforeTransitive(rs[i].pos, EndOf(keyspace, key), p);
    }
  }

  /**
   * A point read, of any key, is right exactly if its end address lies after the key, and then the key has a visible
   * version or no other record is stored before that address; or if it lies before the key, and the key has none.
   */
  lemma {:induction false} GetFirstExact(rs: seq<Rec>, keyspace: nat, key: Bytes, timestamp: nat)
    requires Sorted(rs) && key != [] && keyspace <= MAX_KEYSPACE
    ensures Right(rs, keyspace, key, AsOf(timestamp), GetFirst(rs, keyspace, key, timestamp)) <==>
            if EndsAfter(keyspace, key)
            then SeenBy(rs, keyspace, key, AsOf(timestamp)) || !OtherBetween(rs, keyspace, key)
            else !SeenBy(rs, keyspace, key, AsOf(timestamp))
  {
    var t := AsOf(timestamp);
    var i := FindFirst(rs, Pos(keyspace, key, t));
    if !EndsAfter(keyspace, key) {
      EndBeforeFindsNone(rs, keyspace, key, timestamp);
    } else if SeenBy(rs, keyspace, key, t) {
      SearchFindsNewest(rs, keyspace, key, t);
      EndExact(keyspace, key, rs[i].pos.timestamp);
    } else {
      UnseenExact(rs, keyspace, key, timestamp);
    }
  }

  /** Asked for no timestamp in particular, a point read of a stored key finds its latest version. */
  lemma {:induction false} ZeroReadsLatest(rs: seq<Rec>, keyspace: nat, key: Bytes, i: nat)
    requires Sorted(rs) && keyspace <= MAX_KEYSPACE && EndsAfter(keyspace, key)
    requires i < |rs| && OfKey(rs[i], keyspace, key) && rs[i].pos.timestamp <= MAX_TIMESTAMP
    requires forall j :: 0 <= j < |rs| && OfKey(rs[j], keyspace, key) ==> rs[j].pos.timestamp <= rs[i].pos.timestamp
    ensures GetFirst(rs, keyspace, key, 0) == Some(rs[i])
  {
    SearchFindsNewest(rs, keyspace, key, MAX_TIMESTAMP);
    var k := FindFirst(rs, Pos(keyspace, key, MAX_TIMESTAMP));
    EndExact(keyspace, key, rs[k].pos.timestamp);
    SameKeyOrder(rs[k].pos, rs[i].pos);
    SameKeyOrder(rs[i].pos, rs[k].pos);
  }

  /** Reading an absent key can return the record of the next one. */
  lemma {:induction false} NeighbourReturned() returns (rs: seq<Rec>)
    ensures Sorted(rs) && GetFirst(rs, 16, [1, 2], 9) == Some(Rec(Pos(16, [1, 3], 5), Some([7])))
    ensures !SeenBy(rs, 16, [1, 2], 9) && rs == [Rec(Pos(16, [1, 3], 5), Some([7]))]
  {
    rs := [Rec(Pos(16, [1, 3], 5), Some([7]))];
    assert Compare([1, 3], [1, 2]) == 1 by {
      assert [1, 3][1..] == [3] && [1, 2][1..] == [2];
    }
    assert [1] + [3][1..] == [1];
  }

  // ---- range reads

  predicate InRange(r: Rec, keyspace: nat, lo: Bytes, hi: Bytes) {
    r.pos.keyspace == keyspace && AtMost(lo, r.pos.key) && Less(r.pos.key, hi)
  }

  /** A range read should yield this record: visible, newest of its key, in the range and not a tombstone. */
  predicate Wanted(rs: seq<Rec>, i: nat, keyspace: nat, lo: Bytes, hi: Bytes, timestamp: nat) {
    i < |rs| && InRange(rs[i], keyspace, lo, hi) && rs[i].value.Some? &&
    Newest(rs, i, keyspace, rs[i].pos.key, timestamp)
  }

  /** A visible version of the key has been passed. */
  predicate Passed(rs: seq<Rec>, n: nat, keyspace: nat, key: Bytes, timestamp: nat)
    requires n <= |rs|
  {
    exists j :: 0 <= j < n && OfKey(rs[j], keyspace, key) && rs[j].pos.timestamp <= timestamp
  }

  /** Before the start of the scan nothing is wanted, and nothing of a key from the range has been passed. */
  lemma {:induction false} NothingBeforeStart(rs: seq<Rec>, keyspace: nat, lo: Bytes, timestamp: nat, j: nat)
    requires Sorted(rs) && j < FindFirst(rs, Pos(keyspace, lo, timestamp))
    ensures !(rs[j].pos.keyspace == keyspace && AtMost(lo, rs[j].pos.key) && rs[j].pos.timestamp <= timestamp)
  {
    Trichotomy(lo, rs[j].pos.key);
    CompareFlips(lo, rs[j].pos.key);
  }

  /** From the end of the scan on nothing is in the range. */
  lemma {:induction false} NothingAfterEnd(rs: seq<Rec>, i: nat, k: nat, keyspace: nat, hi: Bytes, timestamp: nat)
    requires Sorted(rs) && i <= k < |rs| && !Before(rs[i].pos, Pos(keyspace, hi, timestamp))
    ensures !(rs[k].pos.keyspace == keyspace && Less(rs[k].pos.key, hi))
  {
    var e := Pos(keyspace, hi, timestamp);
    if rs[k].pos.keyspace == keyspace && Less(rs[k].pos.key, hi) {
      assert Before(rs[k].pos, e);
      if i < k {
        BeforeTransitive(rs[i].pos, rs[k].pos, e);
      }
    }
  }

  /** The earlier of two visible versions of a key is the newer, so the first one passed is the one to yield. */
  lemma {:induction false} FirstIsNewest(rs: seq<Rec>, i: nat, keyspace: nat, timestamp: nat)
    requires Sorted(rs) && i < |rs| && rs[i].pos.keyspace == keyspace && rs[i].pos.timestamp <= timestamp
    ensures Newest(rs, i, keyspace, rs[i].pos.key, timestamp) <==> !Passed(rs, i, keyspace, rs[i].pos.key, timestamp)
  {
    forall j | 0 <= j < |rs| && OfKey(rs[j], keyspace, rs[i].pos.key)
      ensures rs[j].pos.timestamp > rs[i].pos.timestamp <==> j < i
    {
      SameKeyOrder(rs[j].pos, rs[i].pos);
      BeforeTotal(rs[j].pos, rs[i].pos);
    }
  }

  /** Keys come in blocks: once another visible key has been passed, an earlier key does not come back. */
  lemma {:induction false} PassedStep(rs: seq<Rec>, i: nat, k: nat, keyspace: nat, timestamp: nat)
    requires Sorted(rs) && i < k < |rs| && rs[i].pos.keyspace == keyspace == rs[k].pos.keyspace
    ensures rs[i].pos.timestamp <= timestamp ==>
              (Passed(rs, i + 1, keyspace, rs[k].pos.key, timestamp) <==> rs[i].pos.key == rs[k].pos.key)
    ensures rs[i].pos.timestamp > timestamp ==>
              (Passed(rs, i + 1, keyspace, rs[k].pos.key, timestamp) <==>
               Passed(rs, i, keyspace, rs[k].pos.key, timestamp))
  {
    if Passed(rs, i + 1, keyspace, rs[k].pos.key, timestamp) {
      var j :| 0 <= j < i + 1 && OfKey(rs[j], keyspace, rs[k].pos.key) && rs[j].pos.timestamp <= timestamp;
      if j < i {
        BeforeTotal(rs[j].pos, rs[i].pos);
        BetweenSameKey(rs[j].pos, rs[i].pos, rs[k].pos, false);
      }
    }
  }

  /** What the scan has gathered by index `n`: the wanted records so far, in order. */
  ghost predicate Gathered(rs: seq<Rec>, n: nat, keyspace: nat, lo: Bytes, hi: Bytes, timestamp: nat, out: seq<Rec>) {
    n <= |rs| &&
    (forall r :: r in out <==> exists j :: 0 <= j < n && Wanted(rs, j, keyspace, lo, hi, timestamp) && rs[j] == r) &&
    Sorted(out) && (forall r, k :: r in out && n <= k < |rs| ==> Before(r.pos, rs[k].pos))
  }

  lemma {:induction false} GatherOne(rs: seq<Rec>, i: nat, keyspace: nat, lo: Bytes, hi: Bytes, timestamp: nat,
                                     out: seq<Rec>)
    requires Sorted(rs) && i < |rs| && Gathered(rs, i, keyspace, lo, hi, timestamp, out)
    ensures Gathered(rs, i + 1, keyspace, lo, hi, timestamp,
                     if Wanted(rs, i, keyspace, lo, hi, timestamp) then out + [rs[i]] else out)
  {
    var more := if Wanted(rs, i, keyspace, lo, hi, timestamp) then out + [rs[i]] else out;
    forall r
      ensures r in more <==> exists j :: 0 <= j < i + 1 && Wanted(rs, j, keyspace, lo, hi, timestamp) && rs[j] == r
    {
      if r in out {
        var j :| 0 <= j < i && Wanted(rs, j, keyspace, lo, hi, timestamp) && rs[j] == r;
      }
    }
    forall x, y | 0 <= x < y < |more| ensures Before(more[x].pos, more[y].pos) {
      if y == |out| {
        assert more[x] in out;
      }
    }
    forall r, k | r in more && i + 1 <= k < |rs| ensures Before(r.pos, rs[k].pos) {
      if r in out {
        assert Before(r.pos, rs[k].pos);
      }
    }
  }

  lemma {:induction false} GatherUnwanted(rs: seq<Rec>, m: nat, n: nat, keyspace: nat, lo: Bytes, hi: Bytes,
                                          timestamp: nat, out: seq<Rec>)
    requires m <= n <= |rs| && Gathered(rs, m, keyspace, lo, hi, timestamp, out)
    requires forall j :: m <= j < n ==> !Wanted(rs, j, keyspace, lo, hi, timestamp)
    ensures Gathered(rs, n, keyspace, lo, hi, timestamp, out)
  {
    forall r ensures r in out <==> exists j :: 0 <= j < n && Wanted(rs, j, keyspace, lo, hi, timestamp) && rs[j] == r {
      if r in out {
        var j :| 0 <= j < m && Wanted(rs, j, keyspace, lo, hi, timestamp) && rs[j] == r;
        assert j < n;
      }
    }
  }

  /**
   * One pass over the records yields exactly the wanted ones, in key order. The start key must not be empty, as the
   * requests' validation asks: with nothing passed yet the scan takes the empty key for one already done.
   */
  method GetRange(rs: seq<Rec>, keyspace: nat, lo: Bytes, hi: Bytes, timestamp: nat) returns (out: seq<Rec>)
    requires Sorted(rs) && lo != []
    ensures Sorted(out)
    ensures forall r :: r in out <==>
              exists j :: 0 <= j < |rs| && Wanted(rs, j, keyspace, lo, hi, AsOf(timestamp)) && rs[j] == r
  {
    var t := AsOf(timestamp);
    var i := FindFirst(rs, Pos(keyspace, lo, t));
    out := [];
    var skip: Bytes := [];
    forall j | 0 <= j < i ensures !Wanted(rs, j, keyspace, lo, hi, t) {
      NothingBeforeStart(rs, keyspace, lo, t, j);
    }
    GatherUnwanted(rs, 0, i, keyspace, lo, hi, t, out);
    StartFresh(rs, i, keyspace, lo, t);
    while i < |rs| && Before(rs[i].pos, Pos(keyspace, hi, t))
      invariant FindFirst(rs, Pos(keyspace, lo, t)) <= i <= |rs|
      invariant Gathered(rs, i, keyspace, lo, hi, t, out)
      invariant Tracked(rs, i, keyspace, lo, t, skip)
    {
      var r := rs[i];
      InScan(rs, i, keyspace, lo, hi, t);
      if r.pos.keyspace > keyspace || Compare(r.pos.key, hi) >= 0 {
        break;
      }
      GatherOne(rs, i, keyspace, lo, hi, t, out);
      TrackOne(rs, i, keyspace, lo, hi, t, skip);
      if r.value.None? {
        if r.pos.timestamp <= t {
          skip := r.pos.key;
        }
      } else if r.pos.key != skip && r.pos.timestamp <= t {
        out := out + [r];
        skip := r.pos.key;
      }
      i := i + 1;
    }
    forall k | i <= k < |rs| ensures !Wanted(rs, k, keyspace, lo, hi, t) {
      if Before(rs[i].pos, Pos(keyspace, hi, t)) {
        InScan(rs, i, keyspace, lo, hi, t);
        NothingAfterKey(rs, i, k, keyspace, hi);
      } else {
        NothingAfterEnd(rs, i, k, keyspace, hi, t);
      }
    }
    GatherUnwanted(rs, i, |rs|, keyspace, lo, hi, t, out);
  }

  /** The key to skip is the one, among those still to come, of which a visible version has been passed. */
  ghost predicate Tracked(rs: seq<Rec>, i: nat, keyspace: nat, lo: Bytes, timestamp: nat, skip: Bytes) {
    i <= |rs| &&
    forall k :: i <= k < |rs| && rs[k].pos.keyspace == keyspace && AtMost(lo, rs[k].pos.key) ==>
      (Passed(rs, i, keyspace, rs[k].pos.key, timestamp) <==> rs[k].pos.key == skip)
  }

  lemma {:induction false} StartFresh(rs: seq<Rec>, i: nat, keyspace: nat, lo: Bytes, timestamp: nat)
    requires Sorted(rs) && lo != [] && i == FindFirst(rs, Pos(keyspace, lo, timestamp))
    ensures Tracked(rs, i, keyspace, lo, timestamp, [])
  {
    forall k | i <= k < |rs| && rs[k].pos.keyspace == keyspace && AtMost(lo, rs[k].pos.key)
      ensures !Passed(rs, i, keyspace, rs[k].pos.key, timestamp) && rs[k].pos.key != []
    {
      if Passed(rs, i, keyspace, rs[k].pos.key, timestamp) {
        var j :| 0 <= j < i && OfKey(rs[j], keyspace, rs[k].pos.key) && rs[j].pos.timestamp <= timestamp;
        NothingBeforeStart(rs, keyspace, lo, timestamp, j);
      }
    }
  }

  lemma {:induction false} FromStart(rs: seq<Rec>, i: nat, p: Pos)
    requires Sorted(rs) && FindFirst(rs, p) <= i < |rs|
    ensures !Before(rs[i].pos, p)
  {
    var f := FindFirst(rs, p);
    if f < i && Before(rs[i].pos, p) {
      BeforeTransitive(rs[f].pos, rs[i].pos, p);
    }
  }

  lemma {:induction false} Between(x: Pos, keyspace: nat, lo: Bytes, hi: Bytes, timestamp: nat)
    requires !Before(x, Pos(keyspace, lo, timestamp)) && Before(x, Pos(keyspace, hi, timestamp))
    ensures x.keyspace == keyspace && AtMost(lo, x.key)
  {
    CompareFlips(lo, x.key);
  }

  /** Records under the scan lie in the keyspace, at or after the start key and no further than the end key. */
  lemma {:induction false} InScan(rs: seq<Rec>, i: nat, keyspace: nat, lo: Bytes, hi: Bytes, timestamp: nat)
    requires Sorted(rs) && FindFirst(rs, Pos(keyspace, lo, timestamp)) <= i < |rs|
    requires Before(rs[i].pos, Pos(keyspace, hi, timestamp))
    ensures rs[i].pos.keyspace == keyspace && AtMost(lo, rs[i].pos.key)
  {
    FromStart(rs, i, Pos(keyspace, lo, timestamp));
    Between(rs[i].pos, keyspace, lo, hi, timestamp);
  }

  lemma {:induction false} NothingAfterKey(rs: seq<Rec>, i: nat, k: nat, keyspace: nat, hi: Bytes)
    requires Sorted(rs) && i <= k < |rs| && rs[i].pos.keyspace == keyspace && Compare(rs[i].pos.key, hi) >= 0
    ensures !(rs[k].pos.keyspace == keyspace && Less(rs[k].pos.key, hi))
  {
    CompareFlips(rs[i].pos.key, hi);
    if i < k && rs[k].pos.keyspace == keyspace && Less(rs[k].pos.key, hi) {
      AtMostTransitive(rs[i].pos.key, rs[k].pos.key, hi);
    }
  }

  lemma {:induction false} TrackOne(rs: seq<Rec>, i: nat, keyspace: nat, lo: Bytes, hi: Bytes, timestamp: nat,
                                    skip: Bytes)
    requires Sorted(rs) && i < |rs| && rs[i].pos.keyspace == keyspace && AtMost(lo, rs[i].pos.key)
    requires Tracked(rs, i, keyspace, lo, timestamp, skip) && Less(rs[i].pos.key, hi)
    ensures Tracked(rs, i + 1, keyspace, lo, timestamp,
                    if rs[i].pos.timestamp <= timestamp then rs[i].pos.key else skip)
    ensures Wanted(rs, i, keyspace, lo, hi, timestamp) <==>
            rs[i].value.Some? && rs[i].pos.timestamp <= timestamp && rs[i].pos.key != skip
  {
    if rs[i].pos.timestamp <= timestamp {
      FirstIsNewest(rs, i, keyspace, timestamp);
    }
    forall k | i + 1 <= k < |rs| && rs[k].pos.keyspace == keyspace && AtMost(lo, rs[k].pos.key)
      ensures Passed(rs, i + 1, keyspace, rs[k].pos.key, timestamp) <==>
              rs[k].pos.key == if rs[i].pos.timestamp <= timestamp then rs[i].pos.key else skip
    {
      PassedStep(rs, i, k, keyspace, timestamp);
    }
  }

  // ---- against the multi-version store

  /** The sorted records hold exactly the versions of the store. */
  ghost predicate Represents(rs: seq<Rec>, db: MvccStore.Db) {
    (forall i :: 0 <= i < |rs| ==> VersionOf(rs[i]) in db && db[VersionOf(rs[i])] == rs[i].value) &&
    (forall v :: v in db ==> exists i :: 0 <= i < |rs| && VersionOf(rs[i]) == v)
  }

  function VersionOf(r: Rec): MvccStore.Version {
    MvccStore.Version(TxnLocks.Address(r.pos.keyspace, r.pos.key), r.pos.timestamp)
  }

  lemma {:induction false} StoredIsRecord(rs: seq<Rec>, db: MvccStore.Db, keyspace: nat, key: Bytes, t: nat)
    requires Represents(rs, db)
    ensures MvccStore.Version(TxnLocks.Address(keyspace, key), t) in db ==>
              exists i :: 0 <= i < |rs| && OfKey(rs[i], keyspace, key) && rs[i].pos.timestamp == t
  {
    var v := MvccStore.Version(TxnLocks.Address(keyspace, key), t);
    if v in db {
      var i :| 0 <= i < |rs| && VersionOf(rs[i]) == v;
      assert OfKey(rs[i], keyspace, key);
    }
  }

  lemma {:induction false} UnseenReadsNone(rs: seq<Rec>, db: MvccStore.Db, keyspace: nat, key: Bytes, timestamp: nat)
    requires Represents(rs, db) && !SeenBy(rs, keyspace, key, timestamp)
    ensures MvccStore.Get(db, TxnLocks.Address(keyspace, key), timestamp) == None
  {
    StoredIsRecord(rs, db, keyspace, key, timestamp);
    if timestamp > 0 {
      UnseenReadsNone(rs, db, keyspace, key, timestamp - 1);
    }
  }

  /** The newest record a timestamp can see is the value the multi-version store shows at it. */
  lemma {:induction false} NewestIsRead(rs: seq<Rec>, db: MvccStore.Db, i: nat, keyspace: nat, key: Bytes,
                                        timestamp: nat)
    requires Represents(rs, db) && Newest(rs, i, keyspace, key, timestamp)
    ensures MvccStore.Get(db, TxnLocks.Address(keyspace, key), timestamp) == rs[i].value
    decreases timestamp
  {
    StoredIsRecord(rs, db, keyspace, key, timestamp);
    if rs[i].pos.timestamp == timestamp {
      assert VersionOf(rs[i]) == MvccStore.Version(TxnLocks.Address(keyspace, key), timestamp);
    } else {
      NewestIsRead(rs, db, i, keyspace, key, timestamp - 1);
    }
  }
}
