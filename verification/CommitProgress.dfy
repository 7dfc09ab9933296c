/**
 * What two-phase commit can bring about. Whatever the partitions vote, the transaction can be committed everywhere at
 * the largest vote, and can be aborted everywhere; and from the states in which the coordinator or the watchdog takes
 * over, the steps left to it lead to the end.
 */
module CommitProgress {
  import opened Options
  import opened TwoPhaseCommit

  ghost predicate ReachesIn(cfg: Config, w: World, w': World, n: nat)
    decreases n
  {
    if n == 0 then w' == w else exists v :: Next(cfg, w, v) && ReachesIn(cfg, v, w', n - 1)
  }

  ghost predicate Path(cfg: Config, w: World, w': World) {
    exists n :: ReachesIn(cfg, w, w', n)
  }

  lemma {:induction false} Here(cfg: Config, w: World)
    ensures Path(cfg, w, w)
  {
    assert ReachesIn(cfg, w, w, 0);
  }

  lemma {:induction false} First(cfg: Config, w: World, s: Step, w': World)
    requires cfg.Valid() && w.part.Keys == cfg.parts && Enabled(cfg, w, s) && Path(cfg, Do(cfg, w, s), w')
    ensures Path(cfg, w, w')
  {
    var v := Do(cfg, w, s);
    var n: nat :| ReachesIn(cfg, v, w', n);
    assert Next(cfg, w, v);
    assert ReachesIn(cfg, w, w', n + 1);
  }

  lemma {:induction false} Further(cfg: Config, u: World, w: World, w': World)
    requires Path(cfg, u, w) && Path(cfg, w, w')
    ensures Path(cfg, u, w')
  {
    var n: nat :| ReachesIn(cfg, u, w, n);
    FurtherIn(cfg, u, w, w', n);
  }

  lemma {:induction false} FurtherIn(cfg: Config, u: World, w: World, w': World, n: nat)
    requires ReachesIn(cfg, u, w, n) && Path(cfg, w, w')
    ensures Path(cfg, u, w')
    decreases n
  {
    if n > 0 {
      var v :| Next(cfg, u, v) && ReachesIn(cfg, v, w, n - 1);
      FurtherIn(cfg, v, w, w', n - 1);
      var m: nat :| ReachesIn(cfg, v, w', m);
      assert ReachesIn(cfg, u, w', m + 1);
    }
  }

  lemma {:induction false} PathReaches(cfg: Config, w: World, w': World)
    requires Reachable(cfg, w) && Path(cfg, w, w')
    ensures Reachable(cfg, w')
  {
    var n: nat :| ReachesIn(cfg, w, w', n);
    ReachesOn(cfg, w, w', n);
  }

  lemma {:induction false} ReachesOn(cfg: Config, w: World, w': World, n: nat)
    requires Reachable(cfg, w) && ReachesIn(cfg, w, w', n)
    ensures Reachable(cfg, w')
    decreases n
  {
    if n > 0 {
      var v :| Next(cfg, w, v) && ReachesIn(cfg, v, w', n - 1);
      Extend(cfg, w, v);
      ReachesOn(cfg, v, w', n - 1);
    }
  }

  // ---- voting

  /** The coordinator has the votes `ts`, and no partition but those has heard of the transaction. */
  ghost predicate Voting(cfg: Config, w: World, ts: map<nat, nat>) {
    cfg.Valid() && w.part.Keys == cfg.parts && w.coord == Preparing(ts) && ts.Keys <= cfg.parts &&
    (forall p :: p in ts ==> w.part[p] == Prepared(ts[p])) &&
    (forall p :: p in cfg.parts - ts.Keys ==> w.part[p] == Absent) && w.forgotten == {} && w.decision == None
  }

  lemma {:induction false} VoteOne(cfg: Config, w: World, ts: map<nat, nat>, p: nat, t: nat) returns (w': World)
    requires Voting(cfg, w, ts) && p in cfg.parts - ts.Keys && (p == cfg.principal || cfg.principal in ts)
    ensures Voting(cfg, w', ts[p := t]) && Path(cfg, w, w')
  {
    var w1 := Do(cfg, w, AskPrepare(p));
    var w2 := Do(cfg, w1, DoPrepare(p, t));
    w' := Do(cfg, w2, TakeVote(p, t));
    Here(cfg, w');
    First(cfg, w2, TakeVote(p, t), w');
    First(cfg, w1, DoPrepare(p, t), w');
    First(cfg, w, AskPrepare(p), w');
  }

  /** Any votes can come about. */
  lemma {:induction false} AnyVotes(cfg: Config, w: World, had: map<nat, nat>, ts: map<nat, nat>) returns (w': World)
    requires Voting(cfg, w, had) && cfg.principal in had && ts.Keys == cfg.parts
    requires forall p :: p in had ==> had[p] == ts[p]
    ensures Voting(cfg, w', ts) && Path(cfg, w, w')
    decreases cfg.parts - had.Keys
  {
    if p :| p in cfg.parts - had.Keys {
      var v := VoteOne(cfg, w, had, p, ts[p]);
      w' := AnyVotes(cfg, v, had[p := ts[p]], ts);
      Further(cfg, w, v, w');
    } else {
      AllIn(cfg.parts, had, ts);
      w' := w;
      Here(cfg, w);
    }
  }

  lemma {:induction false} AllIn(parts: set<nat>, had: map<nat, nat>, ts: map<nat, nat>)
    requires had.Keys <= parts && ts.Keys == parts && (forall p :: p !in parts - had.Keys)
    requires forall p :: p in had ==> had[p] == ts[p]
    ensures had == ts
  {
    forall p | p in parts ensures p in had {
      assert p !in parts - had.Keys;
    }
    assert had.Keys == parts;
  }

  // ---- committing

  /** A decision has been stored, and every partition has committed it or still can. */
  ghost predicate Committable(cfg: Config, w: World, c: nat) {
    cfg.Valid() && w.part.Keys == cfg.parts &&
    forall p :: p in cfg.parts ==> w.part[p] == Committed(c) || CommitAllowed(w.part[p], c)
  }

  ghost predicate AllCommitted(cfg: Config, w: World, c: nat) {
    w.part.Keys == cfg.parts && forall p :: p in cfg.parts ==> w.part[p] == Committed(c)
  }

  lemma {:induction false} CommitOne(cfg: Config, w: World, c: nat, p: nat)
    requires Committable(cfg, w, c) && (p, c) in w.commits && p in cfg.parts
    ensures var w' := Do(cfg, w, DoCommit(p, c));
            Committable(cfg, w', c) && w'.part == w.part[p := Committed(c)] && w'.acked == w.acked + {p} &&
            w'.coord == w.coord && w'.commits == w.commits && w'.gone == w.gone
  {
  }

  lemma {:induction false} CommitOthers(cfg: Config, w: World, c: nat, todo: set<nat>) returns (w': World)
    requires Committable(cfg, w, c) && w.coord == Committing(c) && todo <= cfg.Others()
    requires forall p :: p in cfg.Others() - todo ==> p in w.acked && w.part[p] == Committed(c)
    ensures Path(cfg, w, w') && Committable(cfg, w', c) && w'.coord == Committing(c)
    ensures forall p :: p in cfg.Others() ==> p in w'.acked && w'.part[p] == Committed(c)
    decreases todo
  {
    if p :| p in todo {
      var w1 := Do(cfg, w, SendCommit(p));
      CommitOne(cfg, w1, c, p);
      var w2 := Do(cfg, w1, DoCommit(p, c));
      w' := CommitOthers(cfg, w2, c, todo - {p});
      First(cfg, w1, DoCommit(p, c), w');
      First(cfg, w, SendCommit(p), w');
    } else {
      w' := w;
      Here(cfg, w);
    }
  }

  /** A coordinator that has heard of its stored decision can carry it to every partition, the principal last. */
  lemma {:induction false} CoordinatorCommits(cfg: Config, w: World, c: nat) returns (w': World)
    requires Committable(cfg, w, c) && w.coord == Committing(c)
    ensures Path(cfg, w, w') && AllCommitted(cfg, w', c)
  {
    var v := CommitOthers(cfg, w, c, cfg.Others());
    var p := cfg.principal;
    var v1 := Do(cfg, v, SendCommit(p));
    CommitOne(cfg, v1, c, p);
    w' := Do(cfg, v1, DoCommit(p, c));
    Here(cfg, w');
    First(cfg, v1, DoCommit(p, c), w');
    First(cfg, v, SendCommit(p), w');
    Further(cfg, w, v, w');
    forall q | q in cfg.parts ensures w'.part[q] == Committed(c) {
      assert q == p || q in cfg.Others();
    }
  }

  lemma {:induction false} WatchOthers(cfg: Config, w: World, c: nat, todo: set<nat>) returns (w': World)
    requires Committable(cfg, w, c) && w.part[cfg.principal].Decided? && todo <= cfg.Others() <= cfg.watch
    requires forall p :: p in cfg.Others() - todo ==> p in w.acked && w.part[p] == Committed(c)
    ensures Path(cfg, w, w') && Committable(cfg, w', c) && w'.part[cfg.principal].Decided?
    ensures forall p :: p in cfg.Others() ==> p in w'.acked && w'.part[p] == Committed(c)
    decreases todo
  {
    if p :| p in todo {
      var w1 := Do(cfg, w, WatchCommit(p));
      CommitOne(cfg, w1, c, p);
      var w2 := Do(cfg, w1, DoCommit(p, c));
      w' := WatchOthers(cfg, w2, c, todo - {p});
      First(cfg, w1, DoCommit(p, c), w');
      First(cfg, w, WatchCommit(p), w');
    } else {
      w' := w;
      Here(cfg, w);
    }
  }

  /** With all participants on record, so can the watchdog, once the decision is stored and whoever else has stopped. */
  lemma {:induction false} WatchdogCommits(cfg: Config, w: World, c: nat) returns (w': World)
    requires Committable(cfg, w, c) && w.part[cfg.principal].Decided? && cfg.Others() <= cfg.watch
    ensures Path(cfg, w, w') && AllCommitted(cfg, w', c)
  {
    var v := WatchOthers(cfg, w, c, cfg.Others());
    var p := cfg.principal;
    assert forall q :: q in cfg.watch - {p} ==> q in cfg.Others();
    var v1 := Do(cfg, v, WatchCommit(p));
    CommitOne(cfg, v1, c, p);
    w' := Do(cfg, v1, DoCommit(p, c));
    Here(cfg, w');
    First(cfg, v1, DoCommit(p, c), w');
    First(cfg, v, WatchCommit(p), w');
    Further(cfg, w, v, w');
    forall q | q in cfg.parts ensures w'.part[q] == Committed(c) {
      assert q == p || q in cfg.Others();
    }
  }

  /** With all votes in, the coordinator can decide, have the decision stored and hear of it. */
  lemma {:induction false} DecideAndStore(cfg: Config, w: World, ts: map<nat, nat>, c: nat) returns (w': World)
    requires Voting(cfg, w, ts) && ts.Keys == cfg.parts && IsMax(ts, c)
    ensures Path(cfg, w, w') && Committable(cfg, w', c) && w'.coord == Committing(c)
  {
    var p := cfg.principal;
    var w1 := Do(cfg, w, Decide(c));
    var w2 := Do(cfg, w1, DoStoreDecision(c));
    assert w2.part == w1.part[p := Decided(ts[p], c)];
    w' := Do(cfg, w2, LearnStored);
    Here(cfg, w');
    First(cfg, w2, LearnStored, w');
    First(cfg, w1, DoStoreDecision(c), w');
    First(cfg, w, Decide(c), w');
  }

  lemma {:induction false} AllVote(cfg: Config, ts: map<nat, nat>) returns (w: World)
    requires cfg.Valid() && ts.Keys == cfg.parts
    ensures Voting(cfg, w, ts) && Path(cfg, Init(cfg), w)
  {
    var p := cfg.principal;
    var first := VoteOne(cfg, Init(cfg), map[], p, ts[p]);
    w := AnyVotes(cfg, first, map[p := ts[p]], ts);
    Further(cfg, Init(cfg), first, w);
  }

  /** Main result: whatever the partitions vote, the transaction can be committed everywhere at the largest vote. */
  lemma {:induction false} AnyVotesCommit(cfg: Config, ts: map<nat, nat>, c: nat) returns (w: World)
    requires cfg.Valid() && ts.Keys == cfg.parts && IsMax(ts, c)
    ensures Reachable(cfg, w) && AllCommitted(cfg, w, c)
  {
    InitReachable(cfg);
    var voted := AllVote(cfg, ts);
    var stored := DecideAndStore(cfg, voted, ts, c);
    w := CoordinatorCommits(cfg, stored, c);
    Further(cfg, voted, stored, w);
    Further(cfg, Init(cfg), voted, w);
    PathReaches(cfg, Init(cfg), w);
  }

  // ---- aborting

  ghost predicate NonePrepared(cfg: Config, w: World) {
    w.part.Keys == cfg.parts && forall p :: p in cfg.parts ==> !w.part[p].Prepared?
  }

  lemma {:induction false} AbortAll(cfg: Config, w: World, todo: set<nat>, watching: bool) returns (w': World)
    requires cfg.Valid() && w.part.Keys == cfg.parts && todo <= cfg.parts
    requires if watching then w.part[cfg.principal].Timedout? && todo <= cfg.watch else w.coord.Aborting?
    requires forall p :: p in cfg.parts - todo ==> !w.part[p].Prepared?
    ensures Path(cfg, w, w') && NonePrepared(cfg, w') && w'.coord == w.coord
    ensures forall p :: p in cfg.parts ==> w'.part[p] == if w.part[p].Prepared? then Aborted else w.part[p]
    decreases todo
  {
    if p :| p in todo {
      var s := if watching then WatchAbort(p) else SendAbort(p);
      var w1 := Do(cfg, w, s);
      var w2 := Do(cfg, w1, DoAbort(p));
      assert w2.part == w.part[p := if w.part[p].Prepared? then Aborted else w.part[p]];
      w' := AbortAll(cfg, w2, todo - {p}, watching);
      First(cfg, w1, DoAbort(p), w');
      First(cfg, w, s, w');
    } else {
      w' := w;
      Here(cfg, w);
    }
  }

  /** A coordinator that has given up can abort every prepared partition. */
  lemma {:induction false} CoordinatorAborts(cfg: Config, w: World) returns (w': World)
    requires cfg.Valid() && w.part.Keys == cfg.parts && w.coord.Aborting?
    ensures Path(cfg, w, w') && NonePrepared(cfg, w')
    ensures forall p :: p in cfg.parts ==> w'.part[p] == if w.part[p].Prepared? then Aborted else w.part[p]
  {
    w' := AbortAll(cfg, w, cfg.parts, false);
  }

  /** With all participants on record, a watchdog that times the transaction out can do the same. */
  lemma {:induction false} WatchdogAborts(cfg: Config, w: World) returns (w': World)
    requires cfg.Valid() && w.part.Keys == cfg.parts && w.part[cfg.principal].Prepared? && cfg.Others() <= cfg.watch
    ensures Path(cfg, w, w') && NonePrepared(cfg, w') && w'.part[cfg.principal].Timedout?
    ensures forall p :: p in cfg.Others() ==> w'.part[p] == if w.part[p].Prepared? then Aborted else w.part[p]
  {
    var v := Do(cfg, w, DoTimeout);
    w' := AbortAll(cfg, v, cfg.Others(), true);
    First(cfg, w, DoTimeout, w');
  }

  /** And whatever has been voted so far, the transaction can still be aborted everywhere. */
  lemma {:induction false} AnyVotesAbort(cfg: Config, ts: map<nat, nat>) returns (w: World)
    requires cfg.Valid() && ts.Keys == cfg.parts
    ensures Reachable(cfg, w) && w.part.Keys == cfg.parts && forall p :: p in cfg.parts ==> w.part[p] == Aborted
  {
    InitReachable(cfg);
    var voted := AllVote(cfg, ts);
    w := CoordinatorAborts(cfg, Do(cfg, voted, GiveUp));
    First(cfg, voted, GiveUp, w);
    Further(cfg, Init(cfg), voted, w);
    PathReaches(cfg, Init(cfg), w);
  }
}
