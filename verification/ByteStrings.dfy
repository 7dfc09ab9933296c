/** Byte strings under the lexicographic order of Go's `bytes.Compare`. */
module ByteStrings {

  type Byte = x: nat | x < 256
  type Bytes = seq<Byte>

  /** Negative, zero or positive as `a` sorts before, with or after `b`. */
  function Compare(a: Bytes, b: Bytes): int {
    if a == [] && b == [] then 0
    else if a == [] then -1
    else if b == [] then 1
    else if a[0] < b[0] then -1
    else if a[0] > b[0] then 1
    else Compare(a[1..], b[1..])
  }

  predicate Less(a: Bytes, b: Bytes) {
    Compare(a, b) < 0
  }

  predicate AtMost(a: Bytes, b: Bytes) {
    Compare(a, b) <= 0
  }

  lemma {:induction false} CompareZero(a: Bytes, b: Bytes)
    ensures Compare(a, b) == 0 <==> a == b
  {
    if a != [] && b != [] && a[0] == b[0] {
      CompareZero(a[1..], b[1..]);
      assert a == [a[0]] + a[1..] && b == [b[0]] + b[1..];
    }
  }

  lemma {:induction false} CompareFlips(a: Bytes, b: Bytes)
    ensures Compare(a, b) == -Compare(b, a)
  {
    if a != [] && b != [] && a[0] == b[0] {
      CompareFlips(a[1..], b[1..]);
    }
  }

  lemma {:induction false} AtMostTransitive(a: Bytes, b: Bytes, c: Bytes)
    requires AtMost(a, b) && AtMost(b, c)
    ensures AtMost(a, c)
    ensures Less(a, b) || Less(b, c) ==> Less(a, c)
  {
    if a != [] && b != [] && c != [] && a[0] == b[0] == c[0] {
      AtMostTransitive(a[1..], b[1..], c[1..]);
    }
  }

  /** `a` comes first at `i`: the strings agree up to there, and `a` ends or has the smaller byte. */
  predicate FirstAt(a: Bytes, b: Bytes, i: nat) {
    i <= |a| && i < |b| && a[..i] == b[..i] && (i == |a| || a[i] < b[i])
  }

  /** The order is the lexicographic one, a prefix before what it begins. */
  lemma {:induction false} LessExact(a: Bytes, b: Bytes)
    ensures Less(a, b) <==> exists i :: FirstAt(a, b, i)
  {
    if a == [] && b != [] {
      assert FirstAt(a, b, 0);
    } else if a != [] && b != [] && a[0] < b[0] {
      assert FirstAt(a, b, 0);
    } else if a != [] && b != [] && a[0] == b[0] {
      LessExact(a[1..], b[1..]);
      if i: nat :| FirstAt(a[1..], b[1..], i) {
        assert a[..i + 1] == [a[0]] + a[1..][..i] && b[..i + 1] == [b[0]] + b[1..][..i];
        assert FirstAt(a, b, i + 1);
      }
      if i: nat :| FirstAt(a, b, i) {
        assert i > 0 && a[1..][..i - 1] == a[..i][1..] && b[1..][..i - 1] == b[..i][1..];
        assert FirstAt(a[1..], b[1..], i - 1);
      }
    } else {
      NeverFirst(a, b);
    }
  }

  lemma {:induction false} NeverFirst(a: Bytes, b: Bytes)
    requires b == [] || (a != [] && a[0] > b[0])
    ensures forall i: nat :: !FirstAt(a, b, i)
  {
    forall i: nat ensures !FirstAt(a, b, i) {
      if 0 < i <= |a| && i < |b| {
        assert a[..i][0] == a[0] && b[..i][0] == b[0];
      }
    }
  }

  /** Either order of two strings, as facts about `Compare` in both directions. */
  lemma {:induction false} Trichotomy(a: Bytes, b: Bytes)
    ensures AtMost(a, b) || Less(b, a)
    ensures AtMost(a, b) <==> !Less(b, a)
    ensures AtMost(a, b) && AtMost(b, a) ==> a == b
  {
    CompareFlips(a, b);
    CompareZero(a, b);
  }
}
