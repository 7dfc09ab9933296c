/**
 * Isolation by locks: transactions whose lock lists are pairwise compatible may be interleaved phase by phase in any
 * order. How a phase of a transaction is executed is a parameter; all that is asked of it is that it reads only what
 * the transaction's locks cover and writes only what its exclusive locks cover.
 */
module LockIsolation {
  import opened Options
  import opened ByteStrings
  import opened TxnLocks
  import MvccStore

  type Store = map<Address, Bytes>

  /** What a transaction does, and the phases it does it in. */
  datatype Txn<P> = Txn(actions: seq<Action>, phases: seq<P>)

  type Executor<!P, !R> = (seq<Action>, P, Store) -> (Store, R)

  ghost predicate SameAt(s: Store, t: Store, a: Address) {
    (a in s <==> a in t) && (a in s ==> s[a] == t[a])
  }

  ghost predicate Agree(actions: seq<Action>, s: Store, t: Store) {
    forall a :: ListCovers(LocksOf(actions), a) ==> SameAt(s, t, a)
  }

  ghost predicate WritesOnlyOwned<P(!new), R>(exec: Executor<P, R>) {
    forall actions: seq<Action>, ph: P, s: Store, a: Address :: !ListOwns(LocksOf(actions), a) ==>
      SameAt(exec(actions, ph, s).0, s, a)
  }

  ghost predicate ReadsOnlyCovered<P(!new), R>(exec: Executor<P, R>) {
    forall actions: seq<Action>, ph: P, s: Store, t: Store :: Agree(actions, s, t) ==>
      exec(actions, ph, s).1 == exec(actions, ph, t).1 &&
      Agree(actions, exec(actions, ph, s).0, exec(actions, ph, t).0)
  }

  ghost predicate Disciplined<P(!new), R>(exec: Executor<P, R>) {
    WritesOnlyOwned(exec) && ReadsOnlyCovered(exec)
  }

  function Perform<P, R>(exec: Executor<P, R>, t: Txn<P>, n: nat, s: Store): (Store, R)
    requires n < |t.phases|
  {
    exec(t.actions, t.phases[n], s)
  }

  // ---- running one transaction by itself

  function AloneStore<P, R>(exec: Executor<P, R>, t: Txn<P>, n: nat, s0: Store): Store
    requires n <= |t.phases|
  {
    if n == 0 then s0 else Perform(exec, t, n - 1, AloneStore(exec, t, n - 1, s0)).0
  }

  function AloneResults<P, R>(exec: Executor<P, R>, t: Txn<P>, n: nat, s0: Store): (rs: seq<R>)
    requires n <= |t.phases|
    ensures |rs| == n
  {
    if n == 0 then []
    else AloneResults(exec, t, n - 1, s0) + [Perform(exec, t, n - 1, AloneStore(exec, t, n - 1, s0)).1]
  }

  // ---- running an interleaving: the schedule names, step by step, the transaction that moves

  function Count(sched: seq<nat>, i: nat): nat {
    if sched == [] then 0
    else Count(sched[..|sched| - 1], i) + if sched[|sched| - 1] == i then 1 else 0
  }

  ghost predicate Admissible<P>(txns: seq<Txn<P>>, sched: seq<nat>) {
    (forall k :: 0 <= k < |sched| ==> sched[k] < |txns|) &&
    (forall i :: 0 <= i < |txns| ==> Count(sched, i) <= |txns[i].phases|)
  }

  ghost predicate Complete<P>(txns: seq<Txn<P>>, sched: seq<nat>) {
    Admissible(txns, sched) && forall i :: 0 <= i < |txns| ==> Count(sched, i) == |txns[i].phases|
  }

  lemma {:induction false} AdmissiblePrefix<P>(txns: seq<Txn<P>>, sched: seq<nat>)
    requires Admissible(txns, sched) && sched != []
    ensures Admissible(txns, sched[..|sched| - 1])
    ensures Count(sched[..|sched| - 1], sched[|sched| - 1]) < |txns[sched[|sched| - 1]].phases|
  {
    forall i | 0 <= i < |txns| ensures Count(sched[..|sched| - 1], i) <= |txns[i].phases| {
      assert Count(sched, i) <= |txns[i].phases|;
    }
    assert Count(sched, sched[|sched| - 1]) <= |txns[sched[|sched| - 1]].phases|;
  }

  /** What the last step of the schedule does to a store. */
  ghost function LastStep<P, R>(exec: Executor<P, R>, txns: seq<Txn<P>>, sched: seq<nat>, s: Store): (Store, R)
    requires Admissible(txns, sched) && sched != []
  {
    AdmissiblePrefix(txns, sched);
    Perform(exec, txns[sched[|sched| - 1]], Count(sched[..|sched| - 1], sched[|sched| - 1]), s)
  }

  ghost function RunStore<P, R>(exec: Executor<P, R>, txns: seq<Txn<P>>, sched: seq<nat>, s0: Store): Store
    requires Admissible(txns, sched)
  {
    if sched == [] then s0
    else
      AdmissiblePrefix(txns, sched);
      LastStep(exec, txns, sched, RunStore(exec, txns, sched[..|sched| - 1], s0)).0
  }

  /** What transaction `i` has been told so far, one result per phase it has performed. */
  ghost function RunResults<P, R>(exec: Executor<P, R>, txns: seq<Txn<P>>, sched: seq<nat>, s0: Store, i: nat): seq<R>
    requires Admissible(txns, sched)
  {
    if sched == [] then []
    else
      AdmissiblePrefix(txns, sched);
      var front := RunResults(exec, txns, sched[..|sched| - 1], s0, i);
      if sched[|sched| - 1] != i then front
      else front + [LastStep(exec, txns, sched, RunStore(exec, txns, sched[..|sched| - 1], s0)).1]
  }

  ghost predicate PairwiseCompatible<P>(txns: seq<Txn<P>>) {
    forall i, j :: 0 <= i < |txns| && 0 <= j < |txns| && i != j ==>
      ListsCompatible(LocksOf(txns[i].actions), LocksOf(txns[j].actions))
  }

  ghost predicate Foreign<P>(txns: seq<Txn<P>>, a: Address) {
    forall i :: 0 <= i < |txns| ==> !ListOwns(LocksOf(txns[i].actions), a)
  }

  // ---- one step

  /** Two runs that agree on everything a transaction locks still do after it performs its next phase in both. */
  lemma {:induction false} OwnStep<P(!new), R>(exec: Executor<P, R>, t: Txn<P>, n: nat, s: Store, u: Store)
    requires Disciplined(exec) && n < |t.phases| && Agree(t.actions, s, u)
    ensures Perform(exec, t, n, s).1 == Perform(exec, t, n, u).1
    ensures Agree(t.actions, Perform(exec, t, n, s).0, Perform(exec, t, n, u).0)
  {
  }

  /** A phase never touches what a compatible transaction locks. */
  lemma {:induction false} ForeignStep<P(!new), R>(exec: Executor<P, R>, t: Txn<P>, n: nat, other: Txn<P>, s: Store,
                                                   u: Store)
    requires Disciplined(exec) && n < |t.phases| && ListsCompatible(LocksOf(t.actions), LocksOf(other.actions))
    requires Agree(other.actions, s, u)
    ensures Agree(other.actions, Perform(exec, t, n, s).0, u)
  {
    forall a | ListCovers(LocksOf(other.actions), a) ensures SameAt(Perform(exec, t, n, s).0, u, a) {
      if ListOwns(LocksOf(t.actions), a) {
        OwnedIsPrivate(LocksOf(t.actions), LocksOf(other.actions), a);
      }
      assert SameAt(exec(t.actions, t.phases[n], s).0, s, a);
    }
  }

  // ---- the whole run

  /** To transaction `i`, the interleaving so far looks like running alone from the initial store. */
  ghost predicate LooksAlone<P, R>(exec: Executor<P, R>, txns: seq<Txn<P>>, sched: seq<nat>, s0: Store, i: nat)
    requires Admissible(txns, sched) && i < |txns|
  {
    RunResults(exec, txns, sched, s0, i) == AloneResults(exec, txns[i], Count(sched, i), s0) &&
    Agree(txns[i].actions, RunStore(exec, txns, sched, s0), AloneStore(exec, txns[i], Count(sched, i), s0))
  }

  lemma {:induction false} LastMove<P, R>(exec: Executor<P, R>, txns: seq<Txn<P>>, front: seq<nat>, j: nat, s0: Store,
                                          i: nat)
    requires Admissible(txns, front) && Admissible(txns, front + [j])
    requires j < |txns| && Count(front, j) < |txns[j].phases|
    ensures Count(front + [j], i) == Count(front, i) + if i == j then 1 else 0
    ensures var r := Perform(exec, txns[j], Count(front, j), RunStore(exec, txns, front, s0));
            RunStore(exec, txns, front + [j], s0) == r.0 &&
            RunResults(exec, txns, front + [j], s0, i) ==
              RunResults(exec, txns, front, s0, i) + if i == j then [r.1] else []
  {
    var sched := front + [j];
    assert sched[..|sched| - 1] == front && sched[|sched| - 1] == j;
  }

  lemma {:induction false} RoomLeft<P>(txns: seq<Txn<P>>, front: seq<nat>, j: nat)
    requires Admissible(txns, front + [j]) && j < |txns|
    ensures Count(front, j) < |txns[j].phases|
  {
    AdmissiblePrefix(txns, front + [j]);
    assert (front + [j])[..|front|] == front;
  }

  lemma {:induction false} OwnMove<P, R>(exec: Executor<P, R>, txns: seq<Txn<P>>, front: seq<nat>, s0: Store, i: nat)
    requires Admissible(txns, front) && Admissible(txns, front + [i])
    requires i < |txns| && Count(front, i) < |txns[i].phases|
    requires RunResults(exec, txns, front, s0, i) == AloneResults(exec, txns[i], Count(front, i), s0)
    requires var n, s, u := Count(front, i), RunStore(exec, txns, front, s0),
                            AloneStore(exec, txns[i], Count(front, i), s0);
             Perform(exec, txns[i], n, s).1 == Perform(exec, txns[i], n, u).1 &&
             Agree(txns[i].actions, Perform(exec, txns[i], n, s).0, Perform(exec, txns[i], n, u).0)
    ensures LooksAlone(exec, txns, front + [i], s0, i)
  {
    LastMove(exec, txns, front, i, s0, i);
    AloneMove(exec, txns[i], Count(front, i), s0);
  }

  lemma {:induction false} AloneMove<P, R>(exec: Executor<P, R>, t: Txn<P>, n: nat, s0: Store)
    requires n < |t.phases|
    ensures AloneStore(exec, t, n + 1, s0) == Perform(exec, t, n, AloneStore(exec, t, n, s0)).0
    ensures AloneResults(exec, t, n + 1, s0) ==
            AloneResults(exec, t, n, s0) + [Perform(exec, t, n, AloneStore(exec, t, n, s0)).1]
  {
  }

  lemma {:induction false} OwnTurn<P(!new), R>(exec: Executor<P, R>, txns: seq<Txn<P>>, front: seq<nat>, s0: Store,
                                               i: nat)
    requires Disciplined(exec) && Admissible(txns, front) && Admissible(txns, front + [i]) && i < |txns|
    requires LooksAlone(exec, txns, front, s0, i)
    ensures LooksAlone(exec, txns, front + [i], s0, i)
  {
    var n := Count(front, i);
    RoomLeft(txns, front, i);
    OwnStep(exec, txns[i], n, RunStore(exec, txns, front, s0), AloneStore(exec, txns[i], n, s0));
    OwnMove(exec, txns, front, s0, i);
  }

  lemma {:induction false} ForeignTurn<P(!new), R>(exec: Executor<P, R>, txns: seq<Txn<P>>, front: seq<nat>, j: nat,
                                                   s0: Store, i: nat)
    requires Disciplined(exec) && Admissible(txns, front) && Admissible(txns, front + [j]) && i < |txns| && j < |txns|
    requires i != j && ListsCompatible(LocksOf(txns[j].actions), LocksOf(txns[i].actions))
    requires LooksAlone(exec, txns, front, s0, i)
    ensures LooksAlone(exec, txns, front + [j], s0, i)
  {
    RoomLeft(txns, front, j);
    LastMove(exec, txns, front, j, s0, i);
    ForeignStep(exec, txns[j], Count(front, j), txns[i], RunStore(exec, txns, front, s0),
                AloneStore(exec, txns[i], Count(front, i), s0));
  }

  /** Every interleaving looks to each transaction exactly like running alone from the initial store. */
  lemma {:induction false} SeesOnlyItself<P(!new), R>(exec: Executor<P, R>, txns: seq<Txn<P>>, sched: seq<nat>,
                                                      s0: Store, i: nat)
    requires Disciplined(exec) && PairwiseCompatible(txns) && Admissible(txns, sched) && i < |txns|
    ensures LooksAlone(exec, txns, sched, s0, i)
  {
    if sched != [] {
      AdmissiblePrefix(txns, sched);
      var front, j := sched[..|sched| - 1], sched[|sched| - 1];
      SeesOnlyItself(exec, txns, front, s0, i);
      assert sched == front + [j];
      if j == i {
        OwnTurn(exec, txns, front, s0, i);
      } else {
        ForeignTurn(exec, txns, front, j, s0, i);
      }
    }
  }

  lemma {:induction false} ForeignKeysUntouched<P(!new), R>(exec: Executor<P, R>, txns: seq<Txn<P>>, sched: seq<nat>,
                                                            s0: Store, a: Address)
    requires Disciplined(exec) && Admissible(txns, sched) && Foreign(txns, a)
    ensures SameAt(RunStore(exec, txns, sched, s0), s0, a)
  {
    if sched != [] {
      AdmissiblePrefix(txns, sched);
      var front, j := sched[..|sched| - 1], sched[|sched| - 1];
      ForeignKeysUntouched(exec, txns, front, s0, a);
      assert SameAt(Perform(exec, txns[j], Count(front, j), RunStore(exec, txns, front, s0)).0,
                    RunStore(exec, txns, front, s0), a);
    }
  }

  /**
   * Main result. Any two complete interleavings of pairwise compatible transactions end in the same store and
   * give every transaction the same results; serial orders are interleavings, so all of them are serializable
   * in every order at once.
   */
  lemma {:induction false} InterleavingsAgree<P(!new), R>(exec: Executor<P, R>, txns: seq<Txn<P>>, sched: seq<nat>,
                                                          other: seq<nat>, s0: Store)
    requires Disciplined(exec) && PairwiseCompatible(txns)
    requires Complete(txns, sched) && Complete(txns, other)
    ensures RunStore(exec, txns, sched, s0) == RunStore(exec, txns, other, s0)
    ensures forall i :: 0 <= i < |txns| ==>
              RunResults(exec, txns, sched, s0, i) == RunResults(exec, txns, other, s0, i)
  {
    var s, t := RunStore(exec, txns, sched, s0), RunStore(exec, txns, other, s0);
    forall i | 0 <= i < |txns|
      ensures RunResults(exec, txns, sched, s0, i) == RunResults(exec, txns, other, s0, i)
      ensures forall a :: ListCovers(LocksOf(txns[i].actions), a) ==> SameAt(s, t, a)
    {
      SeesOnlyItself(exec, txns, sched, s0, i);
      SeesOnlyItself(exec, txns, other, s0, i);
    }
    forall a ensures SameAt(s, t, a) {
      if Foreign(txns, a) {
        ForeignKeysUntouched(exec, txns, sched, s0, a);
        ForeignKeysUntouched(exec, txns, other, s0, a);
      } else {
        var i :| 0 <= i < |txns| && ListOwns(LocksOf(txns[i].actions), a);
        assert ListCovers(LocksOf(txns[i].actions), a);
      }
    }
    StoresEqual(s, t);
  }

  lemma {:induction false} StoresEqual(s: Store, t: Store)
    requires forall a :: SameAt(s, t, a)
    ensures s == t
  {
    forall a ensures (a in s <==> a in t) && (a in s ==> s[a] == t[a]) {
      assert SameAt(s, t, a);
    }
  }

  // ---- what the data servers do, one version deep

  /** A transaction is applied as a whole, all checks before all writes, and its reads are fetched afterwards. */
  datatype Phase = Apply | Fetch

  datatype Found = NoRead | Value(value: Option<Bytes>) | Items(items: Store)

  datatype Outcome =
    | Applied
    | Refused(actionId: nat)
    | Fetched(found: seq<Found>)

  function InRange(s: Store, r: RangeLock): Store {
    map a | a in s && Covers(Lock(0, OnRange(r)), a) :: s[a]
  }

  predicate CheckOn(s: Store, act: Action) {
    match act.payload
    case Insert(ks, key, _) => Address(ks, key) !in s
    case Update(ks, key, _) => Address(ks, key) in s
    case Delete(ks, key) => Address(ks, key) in s
    case LockKey(l, check) => check.NoKeyCheck? || (Address(l.keyspace, l.key) in s) == check.MustExist?
    case LockRange(l, check) => check.NoRangeCheck? || (InRange(s, l) != map[]) == check.MustNotBeEmpty?
    case _ => true
  }

  function FirstFailed(s: Store, actions: seq<Action>): Option<nat> {
    if actions == [] then None
    else
      var front := FirstFailed(s, actions[..|actions| - 1]);
      if front.Some? then front
      else if CheckOn(s, actions[|actions| - 1]) then None
      else Some(actions[|actions| - 1].id)
  }

  function WriteAll(s: Store, actions: seq<Action>): Store {
    if actions == [] then s
    else
      var front := WriteAll(s, actions[..|actions| - 1]);
      match MvccStore.WriteOf(actions[|actions| - 1])
      case None => front
      case Some(w) => if w.1.Some? then front[w.0 := w.1.value] else front - {w.0}
  }

  function ReadOf(s: Store, act: Action): Found {
    match act.payload
    case Read(ks, key) => Value(if Address(ks, key) in s then Some(s[Address(ks, key)]) else None)
    case ReadRange(ks, lo, hi, _) => Items(InRange(s, RangeLock(ks, lo, hi, false)))
    case _ => NoRead
  }

  function Execute(actions: seq<Action>, ph: Phase, s: Store): (Store, Outcome) {
    match ph
    case Apply =>
      (match FirstFailed(s, actions)
       case Some(id) => (s, Refused(id))
       case None => (WriteAll(s, actions), Applied))
    case Fetch => (s, Fetched(seq(|actions|, i requires 0 <= i < |actions| => ReadOf(s, actions[i]))))
  }

  lemma {:induction false} WriteAllEffect(s: Store, actions: seq<Action>, a: Address)
    ensures match MvccStore.LastWrite(actions, a)
            case None => SameAt(WriteAll(s, actions), s, a)
            case Some(None) => a !in WriteAll(s, actions)
            case Some(Some(v)) => a in WriteAll(s, actions) && WriteAll(s, actions)[a] == v
  {
    if actions != [] {
      WriteAllEffect(s, actions[..|actions| - 1], a);
    }
  }

  lemma {:induction false} CoveredByTxn(actions: seq<Action>, i: nat, a: Address)
    requires i < |actions| && BuildLock(actions[i]).Some? && Covers(BuildLock(actions[i]).value, a)
    ensures ListCovers(LocksOf(actions), a)
  {
    var l := BuildLock(actions[i]).value;
    assert BuildLock(actions[i]) == Some(l);
    assert l in LocksOf(actions);
  }

  lemma {:induction false} SameRange(actions: seq<Action>, i: nat, s: Store, t: Store, r: RangeLock)
    requires Agree(actions, s, t) && i < |actions| && BuildLock(actions[i]).Some?
    requires BuildLock(actions[i]).value.payload == OnRange(r)
    ensures InRange(s, r) == InRange(t, r)
  {
    forall a | Covers(Lock(0, OnRange(r)), a) ensures SameAt(s, t, a) {
      CoveredByTxn(actions, i, a);
    }
    StoresEqual(InRange(s, r), InRange(t, r));
  }

  /** Each check and each read looks only at what the transaction's locks cover. */
  lemma {:induction false} ActionAgrees(actions: seq<Action>, i: nat, s: Store, t: Store)
    requires Agree(actions, s, t) && i < |actions|
    ensures (CheckOn(s, actions[i]) <==> CheckOn(t, actions[i])) && ReadOf(s, actions[i]) == ReadOf(t, actions[i])
  {
    match actions[i].payload {
      case ReadRange(ks, lo, hi, _) => SameRange(actions, i, s, t, RangeLock(ks, lo, hi, false));
      case LockRange(l, _) => SameRange(actions, i, s, t, l);
      case LockKey(l, _) => CoveredByTxn(actions, i, Address(l.keyspace, l.key));
      case Read(ks, key) => CoveredByTxn(actions, i, Address(ks, key));
      case Insert(ks, key, _) => CoveredByTxn(actions, i, Address(ks, key));
      case Update(ks, key, _) => CoveredByTxn(actions, i, Address(ks, key));
      case Delete(ks, key) => CoveredByTxn(actions, i, Address(ks, key));
      case _ =>
    }
  }

  lemma {:induction false} FailuresAgree(actions: seq<Action>, n: nat, s: Store, t: Store)
    requires Agree(actions, s, t) && n <= |actions|
    ensures FirstFailed(s, actions[..n]) == FirstFailed(t, actions[..n])
  {
    if n > 0 {
      FailuresAgree(actions, n - 1, s, t);
      ActionAgrees(actions, n - 1, s, t);
      assert actions[..n][..n - 1] == actions[..n - 1];
    }
  }

  lemma {:induction false} ExecuteReadsCovered(actions: seq<Action>, ph: Phase, s: Store, t: Store)
    requires Agree(actions, s, t)
    ensures Execute(actions, ph, s).1 == Execute(actions, ph, t).1
    ensures Agree(actions, Execute(actions, ph, s).0, Execute(actions, ph, t).0)
  {
    match ph {
      case Apply =>
        FailuresAgree(actions, |actions|, s, t);
        assert actions[..|actions|] == actions;
        forall a | ListCovers(LocksOf(actions), a) ensures SameAt(WriteAll(s, actions), WriteAll(t, actions), a) {
          WriteAllEffect(s, actions, a);
          WriteAllEffect(t, actions, a);
        }
      case Fetch =>
        forall i | 0 <= i < |actions| ensures ReadOf(s, actions[i]) == ReadOf(t, actions[i]) {
          ActionAgrees(actions, i, s, t);
        }
    }
  }

  lemma {:induction false} ExecuteWritesOwned(actions: seq<Action>, ph: Phase, s: Store, a: Address)
    requires !ListOwns(LocksOf(actions), a)
    ensures SameAt(Execute(actions, ph, s).0, s, a)
  {
    WriteAllEffect(s, actions, a);
    if MvccStore.LastWrite(actions, a).Some? {
      MvccStore.WritesAreOwned(actions, a);
    }
  }

  /** The data servers' execution meets the lock discipline, so the main result applies to it. */
  lemma {:induction false} ExecuteDisciplined()
    ensures Disciplined(Execute)
  {
    var exec: Executor<Phase, Outcome> := Execute;
    forall actions: seq<Action>, ph: Phase, s: Store, t: Store | Agree(actions, s, t)
      ensures exec(actions, ph, s).1 == exec(actions, ph, t).1 &&
              Agree(actions, exec(actions, ph, s).0, exec(actions, ph, t).0)
    {
      ExecuteReadsCovered(actions, ph, s, t);
    }
    assert ReadsOnlyCovered(exec);
    forall actions: seq<Action>, ph: Phase, s: Store, a: Address | !ListOwns(LocksOf(actions), a)
      ensures SameAt(exec(actions, ph, s).0, s, a)
    {
      ExecuteWritesOwned(actions, ph, s, a);
    }
    assert WritesOnlyOwned(exec);
  }
}
