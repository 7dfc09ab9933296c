/**
 * Who is let in and who is let go: exactly when a transaction is admitted, which command releases which locks, and what
 * replies, statuses and the clean-up leave on record.
 */
module LockRelease {
  import opened Options
  import opened TxnLocks
  import opened MvccStore
  import opened TxnManager
  import opened PartitionSafety
  import opened StoredWrites

  // ---- admission

  /** A lock of the list conflicts with one that a transaction other than `but` holds. */
  ghost predicate Conflicts(p: Partition, l: Lock, but: Option<TxnId>) {
    exists id, m :: Held(p, id) && Some(id) != but && m in p.prepared[id].locks && !CompatibleWith(l, m)
  }

  lemma {:induction false} FreeExact(p: Partition, l: Lock)
    ensures LockFree(p, l) <==> !Conflicts(p, l, None)
  {
  }

  /** The lock of the action is free. */
  ghost predicate Grantable(p: Partition, act: Action, but: Option<TxnId>) {
    BuildLock(act).Some? ==> !Conflicts(p, BuildLock(act).value, but)
  }

  lemma {:induction false} UnblockedExact(p: Partition, actions: seq<Action>)
    ensures FirstBlocked(p, LocksOf(actions)).None? <==>
            forall i :: 0 <= i < |actions| ==> Grantable(p, actions[i], None)
  {
    var locks := LocksOf(actions);
    if forall i :: 0 <= i < |locks| ==> LockFree(p, locks[i]) {
      forall i | 0 <= i < |actions| ensures Grantable(p, actions[i], None) {
        if BuildLock(actions[i]).Some? {
          assert BuildLock(actions[i]) == Some(BuildLock(actions[i]).value);
          assert BuildLock(actions[i]).value in locks;
        }
      }
    }
    if forall i :: 0 <= i < |actions| ==> Grantable(p, actions[i], None) {
      forall j | 0 <= j < |locks| ensures LockFree(p, locks[j]) {
        assert locks[j] in locks;
        var i :| 0 <= i < |actions| && BuildLock(actions[i]) == Some(locks[j]);
        assert Grantable(p, actions[i], None);
      }
    }
  }

  lemma {:induction false} AdmitParts(p: Partition, base: Db, txn: Txn, ts: nat)
    requires ts > 0
    ensures Admit(p, base, txn, ts).None? <==>
            FirstBlocked(p, LocksOf(txn.actions)).None? && ChecksHold(base, txn.actions, ts - 1)
  {
  }

  /** A transaction is admitted exactly if every lock it needs is free and every check of its actions is met. */
  lemma {:induction false} AdmitExact(p: Partition, base: Db, txn: Txn, ts: nat)
    requires ts > 0
    ensures Admit(p, base, txn, ts).None? <==>
            (forall i :: 0 <= i < |txn.actions| ==> Grantable(p, txn.actions[i], None)) &&
            (forall i :: 0 <= i < |txn.actions| ==> Meets(base, txn.actions[i], ts - 1))
  {
    AdmitParts(p, base, txn, ts);
    UnblockedExact(p, txn.actions);
    ChecksExact(base, txn.actions, ts - 1);
  }

  /** The first action whose lock is taken. */
  ghost predicate FirstTaken(p: Partition, actions: seq<Action>, i: nat) {
    i < |actions| && !Grantable(p, actions[i], None) && forall j :: 0 <= j < i ==> Grantable(p, actions[j], None)
  }

  lemma {:induction false} BlockedExact(p: Partition, actions: seq<Action>) returns (i: nat)
    requires FirstBlocked(p, LocksOf(actions)).Some?
    ensures FirstTaken(p, actions, i) && FirstBlocked(p, LocksOf(actions)) == Some(actions[i].id)
  {
    var n := |actions| - 1;
    var front, last := actions[..n], actions[n];
    if FirstBlocked(p, LocksOf(front)).Some? {
      i := BlockedExact(p, front);
      assert forall j :: 0 <= j < n ==> actions[j] == front[j];
      BlockedPrefix(p, LocksOf(front), last);
    } else {
      UnblockedExact(p, front);
      forall j | 0 <= j < n ensures Grantable(p, actions[j], None) {
        assert actions[j] == front[j];
      }
      i := n;
      var l := BuildLock(last).value;
      assert LocksOf(actions) == LocksOf(front) + [l];
      assert (LocksOf(front) + [l])[..|LocksOf(front)|] == LocksOf(front);
    }
  }

  lemma {:induction false} BlockedPrefix(p: Partition, locks: seq<Lock>, last: Action)
    requires FirstBlocked(p, locks).Some?
    ensures BuildLock(last).Some? ==> FirstBlocked(p, locks + [BuildLock(last).value]) == FirstBlocked(p, locks)
  {
    if BuildLock(last).Some? {
      assert (locks + [BuildLock(last).value])[..|locks|] == locks;
    }
  }

  /** The first action whose check is not met. */
  ghost predicate FirstUnmet(db: Db, actions: seq<Action>, t: nat, i: nat) {
    i < |actions| && !Meets(db, actions[i], t) && forall j :: 0 <= j < i ==> Meets(db, actions[j], t)
  }

  lemma {:induction false} InvalidExact(db: Db, actions: seq<Action>, t: nat) returns (i: nat)
    requires FirstInvalid(db, actions, t).Some?
    ensures FirstUnmet(db, actions, t, i)
    ensures var x, f := actions[i].payload, FirstInvalid(db, actions, t).value;
            f.0 == actions[i].id && f.1 != LockFailed &&
            (f.1 == KeyAlreadyExists <==> x.Insert?) && (f.1 == KeyNotFound <==> x.Update? || x.Delete?) &&
            (f.1 == LockCheckFailed <==> x.LockKey? || x.LockRange?)
  {
    var n := |actions| - 1;
    var front := actions[..n];
    if FirstInvalid(db, front, t).Some? {
      i := InvalidExact(db, front, t);
      assert forall j :: 0 <= j < n ==> actions[j] == front[j];
    } else {
      i := n;
      ChecksExact(db, front, t);
      forall j | 0 <= j < n ensures Meets(db, actions[j], t) {
        assert actions[j] == front[j];
      }
    }
  }

  /**
   * A refusal names the first action whose lock is taken; or, if all are free, the first whose check fails, with the
   * code that goes with it.
   */
  lemma {:induction false} RefusalExact(p: Partition, base: Db, txn: Txn, ts: nat) returns (i: nat)
    requires ts > 0 && Admit(p, base, txn, ts).Some?
    ensures i < |txn.actions| && Admit(p, base, txn, ts).value.Refused?
    ensures var x, r := txn.actions[i].payload, Admit(p, base, txn, ts).value;
            r.actionId == txn.actions[i].id &&
            (if r.code == LockFailed then FirstTaken(p, txn.actions, i)
             else (forall j :: 0 <= j < |txn.actions| ==> Grantable(p, txn.actions[j], None)) &&
                  FirstUnmet(base, txn.actions, ts - 1, i)) &&
            (r.code == KeyAlreadyExists ==> x.Insert?) && (r.code == KeyNotFound ==> x.Update? || x.Delete?) &&
            (r.code == LockCheckFailed ==> x.LockKey? || x.LockRange?)
  {
    UnblockedExact(p, txn.actions);
    if FirstBlocked(p, LocksOf(txn.actions)).Some? {
      i := BlockedExact(p, txn.actions);
    } else {
      i := InvalidExact(base, txn.actions, ts - 1);
    }
  }

  // ---- release

  /** From `p` to `q` the transaction lets go of its locks, and nobody else's change. */
  ghost predicate LetsGo(p: Partition, q: Partition, id: TxnId) {
    !Held(q, id) &&
    (forall other :: other != id ==> (Held(q, other) <==> Held(p, other))) &&
    (forall other :: other != id && Held(p, other) ==>
       other in q.prepared && q.prepared[other] == p.prepared[other]) &&
    (forall l :: LockFree(q, l) <==> !Conflicts(p, l, Some(id)))
  }

  lemma {:induction false} LetsGoIf(p: Partition, q: Partition, id: TxnId)
    requires !Held(q, id) && forall other :: other != id ==> (Held(q, other) <==> Held(p, other))
    requires forall other :: other != id && Held(p, other) ==>
               other in q.prepared && q.prepared[other] == p.prepared[other]
    ensures LetsGo(p, q, id)
  {
    forall l ensures LockFree(q, l) <==> !Conflicts(p, l, Some(id)) {
      if Conflicts(p, l, Some(id)) {
        var other, m :| Held(p, other) && Some(other) != Some(id) && m in p.prepared[other].locks &&
          !CompatibleWith(l, m);
        assert Held(q, other) && m in q.prepared[other].locks;
      }
      if !LockFree(q, l) {
        var other, m :| other in q.prepared && !q.prepared[other].released && m in q.prepared[other].locks &&
          !CompatibleWith(l, m);
        assert Held(q, other) && Held(p, other);
      }
    }
  }

  /** All held locks stay held. */
  ghost predicate HoldsOn(p: Partition, q: Partition) {
    forall id :: (Held(q, id) <==> Held(p, id)) && (Held(p, id) ==> q.prepared[id].locks == p.prepared[id].locks)
  }

  /** An abort that is carried out lets go of the transaction's locks; one that is not changes nothing. */
  lemma {:induction false} AbortLetsGo(p: Partition, id: TxnId, ts: nat)
    ensures var (q, r) := ApplyAbort(p, id, ts);
            if id in p.prepared && id in p.status && p.status[id].state.Prepared? then
              r == Ok(Status(ts, Aborted, [])) && q.status == p.status[id := Status(ts, Aborted, [])] && q.db == p.db &&
              LetsGo(p, q, id)
            else q == p
  {
    var q := ApplyAbort(p, id, ts).0;
    if id in p.prepared && id in p.status && p.status[id].state.Prepared? {
      LetsGoIf(p, q, id);
    }
  }

  /** Marking as timed out keeps the locks, until a second request asks to release them. */
  lemma {:induction false} TimeoutLetsGo(p: Partition, id: TxnId, ts: nat, release: bool)
    ensures var (q, r) := ApplyMarkTimedout(p, id, ts, release);
            if id !in p.prepared || id !in p.status || id.principal != p.pid then q == p
            else if p.status[id].state.Prepared? then
              r == Ok(Status(ts, Timedout, [])) && q.status == p.status[id := Status(ts, Timedout, [])] &&
              q.db == p.db && HoldsOn(p, q)
            else if p.status[id].state.Timedout? && release then
              r == Ok(p.status[id]) && q.status == p.status && q.db == p.db && LetsGo(p, q, id)
            else q == p
  {
    var q := ApplyMarkTimedout(p, id, ts, release).0;
    if id in p.prepared && id in p.status && id.principal == p.pid && p.status[id].state.Timedout? && release {
      LetsGoIf(p, q, id);
    }
  }

  /** A commit keeps its locks for the rest of the batch, and its end lets go of them. */
  lemma {:induction false} CommitLetsGo(p: Partition, id: TxnId, ts: nat)
    requires id in p.prepared && id in p.status && (p.status[id].state.Prepared? || p.status[id].state.Decided?)
    requires forall other :: other in p.prepared && other in p.status && p.status[other].state.Committed? ==>
               !Held(p, other)
    ensures var (q, r) := ApplyCommit(p, id, ts);
            if r.Ok? then HoldsOn(p, q) && LetsGo(p, Finish(q), id) else q == p
  {
    var (q, r) := ApplyCommit(p, id, ts);
    if r.Ok? {
      LetsGoIf(p, Finish(q), id);
    }
  }

  /** Whatever a batch has applied, its end lets go of exactly the locks of committed transactions. */
  lemma {:induction false} EndLetsGo(p: Partition, id: TxnId)
    ensures Held(Finish(p), id) <==> Held(p, id) && !(id in p.status && p.status[id].state.Committed?)
    ensures Held(Finish(p), id) ==> Finish(p).prepared[id] == p.prepared[id]
  {
  }

  /** Storing a decision keeps all locks. */
  lemma {:induction false} DecisionHoldsOn(p: Partition, id: TxnId, ts: nat, d: Decision)
    ensures HoldsOn(p, ApplyStoreDecision(p, id, ts, d).0)
  {
  }

  /** A prepare that is carried out takes the transaction's locks; autocommits take none. */
  lemma {:induction false} PrepareTakes(p: Partition, base: Db, txn: Txn, ts: nat)
    requires ts > 0 && txn.id !in p.status && Admit(p, base, txn, ts).None?
    ensures var (q, r) := ApplyPrepare(p, base, txn, ts);
            r == Ok(Status(ts, Prepared, [])) && q.status == p.status[txn.id := Status(ts, Prepared, [])] &&
            q.db == p.db && Held(q, txn.id) && q.prepared[txn.id].txn == txn &&
            (forall i :: 0 <= i < |txn.actions| && BuildLock(txn.actions[i]).Some? ==>
               BuildLock(txn.actions[i]).value in q.prepared[txn.id].locks) &&
            (forall other :: other != txn.id ==> (Held(q, other) <==> Held(p, other)))
    ensures HoldsOn(p, ApplyAutocommit(p, base, txn, ts).0)
  {
    forall i | 0 <= i < |txn.actions| && BuildLock(txn.actions[i]).Some?
      ensures BuildLock(txn.actions[i]).value in LocksOf(txn.actions)
    {
      assert BuildLock(txn.actions[i]) == Some(BuildLock(txn.actions[i]).value);
    }
  }

  /** After a release, whoever gets along with the others, and whose checks are met, is let in. */
  lemma {:induction false} NextIsAdmitted(p: Partition, q: Partition, id: TxnId, base: Db, txn: Txn, ts: nat)
    requires LetsGo(p, q, id) && ts > 0
    ensures Admit(q, base, txn, ts).None? <==>
            (forall i :: 0 <= i < |txn.actions| ==> Grantable(p, txn.actions[i], Some(id))) &&
            (forall i :: 0 <= i < |txn.actions| ==> Meets(base, txn.actions[i], ts - 1))
  {
    AdmitExact(q, base, txn, ts);
    forall i | 0 <= i < |txn.actions|
      ensures Grantable(q, txn.actions[i], None) <==> Grantable(p, txn.actions[i], Some(id))
    {
      if BuildLock(txn.actions[i]).Some? {
        var l := BuildLock(txn.actions[i]).value;
        FreeExact(q, l);
        assert LockFree(q, l) <==> !Conflicts(p, l, Some(id));
      }
    }
  }

  /** So an aborted transaction never keeps another from being prepared. */
  lemma {:induction false} AbortMakesRoom(p: Partition, id: TxnId, ts: nat, base: Db, txn: Txn, ts': nat)
    requires id in p.prepared && id in p.status && p.status[id].state.Prepared? && ts' > 0
    requires txn.id !in p.status && txn.id != id
    ensures var q := ApplyAbort(p, id, ts).0;
            ApplyPrepare(q, base, txn, ts').1.Ok? <==>
            (forall i :: 0 <= i < |txn.actions| ==> Grantable(p, txn.actions[i], Some(id))) &&
            (forall i :: 0 <= i < |txn.actions| ==> Meets(base, txn.actions[i], ts' - 1))
  {
    AbortLetsGo(p, id, ts);
    var q := ApplyAbort(p, id, ts).0;
    NextIsAdmitted(p, q, id, base, txn, ts');
    if Admit(q, base, txn, ts').Some? {
      var i := RefusalExact(q, base, txn, ts');
    }
  }
}
