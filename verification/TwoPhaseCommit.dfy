/**
 * Two-phase commit of one transaction: an API server coordinates, the partitions vote and follow, and the watchdog
 * of the principal partition takes over. Requests and replies stay on the wire once sent, so they may arrive late,
 * more than once, in any order or never; a server that stops taking steps has crashed.
 */
module TwoPhaseCommit {
  import opened Options

  /** What a partition knows of the transaction. */
  datatype PState =
    | Absent
    | Prepared(at: nat)
    | Decided(at: nat, commitAt: nat)
    | Committed(commitAt: nat)
    | Aborted
    | Timedout

  predicate Final(s: PState) {
    s.Committed? || s.Aborted? || s.Timedout?
  }

  // ---- a partition's answer to each request

  function AfterPrepare(s: PState, timestamp: nat): PState {
    if s.Absent? then Prepared(timestamp) else s
  }

  predicate CommitAllowed(s: PState, timestamp: nat) {
    match s
    case Prepared(t) => timestamp >= t
    case Decided(_, c) => timestamp == c
    case _ => false
  }

  function AfterCommit(s: PState, timestamp: nat): PState {
    if CommitAllowed(s, timestamp) then Committed(timestamp) else s
  }

  function AfterAbort(s: PState): PState {
    if s.Prepared? then Aborted else s
  }

  function AfterDecision(s: PState, commitAt: nat): PState {
    if s.Prepared? && commitAt >= s.at then Decided(s.at, commitAt) else s
  }

  function AfterTimeout(s: PState): PState {
    if s.Prepared? then Timedout else s
  }

  /**
   * The errors the coordinator may get from storing the decision. `NoReply` also stands for errors raised before the
   * request reaches the state machine (not the leader, time out of range): like a lost reply they tell nothing.
   */
  datatype Answer = NoReply | NotFound | FailedPrecondition | InvalidRequest

  /** The principal's answer to a decision; None stands for success. */
  function AnswerTo(s: PState, commitAt: nat): Option<Answer> {
    match s
    case Absent => Some(NotFound)
    case Prepared(t) => if commitAt < t then Some(InvalidRequest) else None
    case Decided(_, _) => None
    case Timedout => None
    case Committed(_) => Some(FailedPrecondition)
    case Aborted => Some(FailedPrecondition)
  }

  /** Answers a repeated request also gets once its decision has been stored and carried out. */
  const LATE: set<Answer> := {NotFound, FailedPrecondition}

  /**
   * The setting. `abortOn` are the errors from storing the decision on which the coordinator aborts; on others it
   * leaves the rest to the watchdog. `watch` is the set of participants the watchdog has on record.
   */
  datatype Config = Config(parts: set<nat>, principal: nat, watch: set<nat>, abortOn: set<Answer>) {
    predicate Valid() {
      principal in parts && watch <= parts && parts - {principal} != {}
    }

    /** The watchdog knows all, or the coordinator does not abort on what may come late. */
    predicate Safe() {
      NoReply !in abortOn && (abortOn !! LATE || Others() <= watch)
    }

    function Others(): set<nat> {
      parts - {principal}
    }
  }

  datatype Coordinator =
    | Preparing(votes: map<nat, nat>)
    | Deciding(commitAt: nat)
    | Committing(commitAt: nat)
    | Aborting

  /** The cluster, the wire and, last, what has ever happened. */
  datatype World = World(
    part: map<nat, PState>,
    forgotten: set<nat>,
    coord: Coordinator,
    asked: set<nat>,
    voted: set<(nat, nat)>,
    decision: Option<nat>,
    stored: bool,
    answers: set<Answer>,
    commits: set<(nat, nat)>,
    acked: set<nat>,
    gone: set<nat>,
    aborts: set<nat>,
    decided: Option<nat>,
    didCommit: set<(nat, nat)>,
    didAbort: set<nat>)

  function Init(cfg: Config): World {
    World(map p | p in cfg.parts :: Absent, {}, Preparing(map[]), {}, {}, None, false, {}, {}, {}, {}, {}, None, {}, {})
  }

  datatype Step =
    | AskPrepare(pid: nat)
    | DoPrepare(pid: nat, timestamp: nat)
    | TakeVote(pid: nat, timestamp: nat)
    | Decide(commitAt: nat)
    | GiveUp
    | DoStoreDecision(commitAt: nat)
    | LearnStored
    | Abandon(answer: Answer)
    | SendCommit(pid: nat)
    | SendAbort(pid: nat)
    | DoCommit(pid: nat, timestamp: nat)
    | DoAbort(pid: nat)
    | DoTimeout
    | WatchCommit(pid: nat)
    | WatchAbort(pid: nat)
    | Forget(pid: nat)

  predicate IsMax(votes: map<nat, nat>, c: nat) {
    (forall p :: p in votes ==> votes[p] <= c) && exists p :: p in votes && votes[p] == c
  }

  /** The coordinator's decision from the replies it has: None for abort, else the commit timestamp. */
  method DecideCommit(replies: map<nat, Option<nat>>) returns (commitAt: Option<nat>)
    requires replies != map[]
    ensures commitAt.Some? <==> forall p :: p in replies ==> replies[p].Some?
    ensures commitAt.Some? ==> IsMax(map p | p in replies && replies[p].Some? :: replies[p].value, commitAt.value)
  {
    var highest, todo := 0, replies.Keys;
    while todo != {}
      invariant todo <= replies.Keys
      invariant forall p :: p in replies && p !in todo ==> replies[p].Some? && replies[p].value <= highest
      invariant (todo == replies.Keys && highest == 0) ||
                exists p :: p in replies && p !in todo && replies[p] == Some(highest)
    {
      var p :| p in todo;
      todo := todo - {p};
      if replies[p].None? {
        return None;
      }
      highest := if replies[p].value >= highest then replies[p].value else highest;
    }
    ghost var votes := map p | p in replies && replies[p].Some? :: replies[p].value;
    ghost var top :| top in replies && replies[top] == Some(highest);
    assert top in votes && votes[top] == highest;
    return Some(highest);
  }

  predicate Enabled(cfg: Config, w: World, s: Step)
    requires w.part.Keys == cfg.parts && cfg.Valid()
  {
    match s
    // the principal is prepared first, the rest once it has voted
    case AskPrepare(p) =>
      w.coord.Preparing? && p in cfg.parts && (p == cfg.principal || cfg.principal in w.coord.votes)
    case DoPrepare(p, _) => p in w.asked && p in cfg.parts && p !in w.forgotten && w.part[p].Absent?
    case TakeVote(p, t) => w.coord.Preparing? && (p, t) in w.voted && p !in w.coord.votes
    case Decide(c) => w.coord.Preparing? && w.coord.votes.Keys == cfg.parts && IsMax(w.coord.votes, c)
    // a failed or refused participant, after the principal has voted
    case GiveUp => w.coord.Preparing? && cfg.principal in w.coord.votes
    case DoStoreDecision(c) => w.decision == Some(c)
    case LearnStored => w.coord.Deciding? && w.stored
    // a reply may be lost at any time, the other errors are the principal's
    case Abandon(a) => w.coord.Deciding? && a in cfg.abortOn && (a == NoReply || a in w.answers)
    // the principal is committed last, after every other participant has reported success
    case SendCommit(p) =>
      w.coord.Committing? && p in cfg.parts && (p == cfg.principal ==> cfg.Others() <= w.acked)
    case SendAbort(p) => w.coord.Aborting? && p in cfg.parts
    case DoCommit(p, c) => (p, c) in w.commits && p in cfg.parts
    case DoAbort(p) => p in w.aborts && p in cfg.parts
    case DoTimeout => w.part[cfg.principal].Prepared?
    // the watchdog takes "not found" for an answer
    case WatchCommit(p) =>
      w.part[cfg.principal].Decided? &&
      (p in cfg.watch - {cfg.principal} ||
       (p == cfg.principal && cfg.watch - {cfg.principal} <= w.acked + w.gone))
    case WatchAbort(p) => w.part[cfg.principal].Timedout? && p in cfg.watch
    case Forget(p) => p in cfg.parts && Final(w.part[p])
  }

  function StoreDecisionAt(cfg: Config, w: World, c: nat): World
    requires cfg.principal in w.part
  {
    var s' := AfterDecision(w.part[cfg.principal], c);
    var answer := AnswerTo(w.part[cfg.principal], c);
    if answer.Some? then w.(answers := w.answers + {answer.value})
    else if !s'.Decided? then w
    else w.(part := w.part[cfg.principal := s'],
            stored := true,
            decided := if w.part[cfg.principal].Prepared? then Some(c) else w.decided)
  }

  function CommitAt(w: World, p: nat, c: nat): World
    requires p in w.part
  {
    var s' := AfterCommit(w.part[p], c);
    if w.part[p].Absent? then w.(gone := w.gone + {p})
    else if !s'.Committed? then w
    else w.(part := w.part[p := s'],
            acked := w.acked + {p},
            didCommit := if w.part[p].Committed? then w.didCommit else w.didCommit + {(p, c)})
  }

  function AbortAt(w: World, p: nat): World
    requires p in w.part
  {
    if w.part[p].Prepared? then w.(part := w.part[p := AfterAbort(w.part[p])], didAbort := w.didAbort + {p}) else w
  }

  function Do(cfg: Config, w: World, s: Step): World
    requires w.part.Keys == cfg.parts && cfg.Valid() && Enabled(cfg, w, s)
  {
    match s
    case AskPrepare(p) => w.(asked := w.asked + {p})
    case DoPrepare(p, t) => w.(part := w.part[p := AfterPrepare(w.part[p], t)], voted := w.voted + {(p, t)})
    case TakeVote(p, t) => w.(coord := Preparing(w.coord.votes[p := t]))
    case Decide(c) => w.(coord := Deciding(c), decision := Some(c))
    case GiveUp => w.(coord := Aborting)
    case DoStoreDecision(c) => StoreDecisionAt(cfg, w, c)
    case LearnStored => w.(coord := Committing(w.coord.commitAt))
    case Abandon(_) => w.(coord := Aborting)
    case SendCommit(p) => w.(commits := w.commits + {(p, w.coord.commitAt)})
    case SendAbort(p) => w.(aborts := w.aborts + {p})
    case DoCommit(p, c) => CommitAt(w, p, c)
    case DoAbort(p) => AbortAt(w, p)
    case DoTimeout =>
      w.(part := w.part[cfg.principal := AfterTimeout(w.part[cfg.principal])],
         didAbort := w.didAbort + {cfg.principal})
    case WatchCommit(p) => w.(commits := w.commits + {(p, w.part[cfg.principal].commitAt)})
    case WatchAbort(p) => w.(aborts := w.aborts + {p})
    case Forget(p) => w.(part := w.part[p := Absent], forgotten := w.forgotten + {p})
  }

  // ---- runs

  ghost predicate Next(cfg: Config, w: World, w': World) {
    cfg.Valid() && w.part.Keys == cfg.parts && exists s :: Enabled(cfg, w, s) && w' == Do(cfg, w, s)
  }

  ghost predicate IsRun(cfg: Config, run: seq<World>) {
    run != [] && run[0] == Init(cfg) && forall i :: 0 <= i < |run| - 1 ==> Next(cfg, run[i], run[i + 1])
  }

  ghost predicate Reachable(cfg: Config, w: World) {
    exists run :: IsRun(cfg, run) && run[|run| - 1] == w
  }

  lemma {:induction false} InitReachable(cfg: Config)
    ensures Reachable(cfg, Init(cfg))
  {
    assert IsRun(cfg, [Init(cfg)]);
  }

  lemma {:induction false} Extend(cfg: Config, w: World, w': World)
    requires Reachable(cfg, w) && Next(cfg, w, w')
    ensures Reachable(cfg, w')
  {
    var run :| IsRun(cfg, run) && run[|run| - 1] == w;
    var longer := run + [w'];
    forall i | 0 <= i < |longer| - 1 ensures Next(cfg, longer[i], longer[i + 1]) {
      if i < |run| - 1 {
        assert Next(cfg, run[i], run[i + 1]);
      }
    }
    assert IsRun(cfg, longer);
  }

  // ---- the promise

  /** All or nothing: committed partitions agree on one timestamp, and then none has aborted or timed out. */
  ghost predicate Atomic(w: World) {
    (forall x, y :: x in w.didCommit && y in w.didCommit ==> x.1 == y.1) &&
    (w.didCommit != {} ==> w.didAbort == {})
  }

  /** The commit timestamp is no earlier than the timestamp any participant prepared at. */
  ghost predicate AboveVotes(cfg: Config, w: World) {
    forall x, p :: x in w.didCommit && p in cfg.parts ==> exists t :: (p, t) in w.voted && t <= x.1
  }

  // ---- the invariant behind it

  ghost predicate VotesInv(cfg: Config, w: World) {
    w.part.Keys == cfg.parts &&
    (forall x, y :: x in w.voted && y in w.voted && x.0 == y.0 ==> x == y) &&
    (forall x :: x in w.voted ==> x.0 in cfg.parts && (w.part[x.0].Absent? ==> x.0 in w.forgotten)) &&
    (forall p :: p in cfg.parts && w.part[p].Prepared? ==> (p, w.part[p].at) in w.voted) &&
    (forall p :: p in cfg.parts && w.part[p].Decided? ==>
       p == cfg.principal && w.decided == Some(w.part[p].commitAt)) &&
    (w.coord.Preparing? ==> forall p :: p in w.coord.votes ==> (p, w.coord.votes[p]) in w.voted)
  }

  ghost predicate AllVotedBy(cfg: Config, w: World, c: nat) {
    forall p :: p in cfg.parts ==> exists t :: (p, t) in w.voted && t <= c
  }

  /** The principal is done with the transaction: it will not store a decision any more. */
  predicate Past(cfg: Config, w: World) {
    cfg.principal in w.forgotten || (cfg.principal in w.part && Final(w.part[cfg.principal]))
  }

  /** Where the coordinator stands. */
  ghost predicate CoordInv(cfg: Config, w: World) {
    (w.coord.Preparing? ==> w.decision.None?) &&
    (w.coord.Deciding? || w.coord.Committing? ==> w.decision == Some(w.coord.commitAt)) &&
    (w.decision.Some? ==> AllVotedBy(cfg, w, w.decision.value)) &&
    (w.decided.Some? ==> w.decision == w.decided) &&
    (w.coord.Committing? || w.stored ==> w.decided.Some?) &&
    (w.coord.Aborting? && w.decision.Some? ==> Past(cfg, w)) &&
    (w.answers * LATE != {} ==> Past(cfg, w)) &&
    w.answers <= LATE
  }

  /** Where the outcome stands. */
  ghost predicate OutcomeInv(cfg: Config, w: World) {
    w.part.Keys == cfg.parts && cfg.principal in cfg.parts &&
    (forall x :: x in w.commits ==> w.decided == Some(x.1)) &&
    (forall x :: x in w.didCommit ==> w.decided == Some(x.1)) &&
    (w.decided.Some? ==> w.didAbort == {}) &&
    (w.decided.Some? && (w.aborts != {} || w.coord.Aborting?) ==> cfg.parts <= Committers(w)) &&
    (w.decided.Some? ==>
       var s := w.part[cfg.principal];
       s.Decided? || s.Committed? || (s.Absent? && cfg.principal in w.forgotten)) &&
    (w.aborts != {} ==> w.coord.Aborting? || cfg.principal in w.didAbort) &&
    w.didAbort <= w.aborts + {cfg.principal} &&
    (cfg.principal in w.didAbort ==> Past(cfg, w)) &&
    (w.part[cfg.principal].Timedout? ==> cfg.principal in w.didAbort)
  }

  /** The partitions that have ever committed. */
  function Committers(w: World): set<nat> {
    set x | x in w.didCommit :: x.0
  }

  /**
   * Every report of success, and every "not found", comes from a partition that has committed; a partition that has
   * committed is not prepared again.
   */
  ghost predicate ReportsInv(cfg: Config, w: World) {
    w.part.Keys == cfg.parts && w.acked <= Committers(w) && w.gone <= Committers(w) &&
    w.forgotten <= Committers(w) + w.didAbort &&
    (forall p :: p in w.forgotten && p in cfg.parts ==> w.part[p].Absent?) &&
    (forall x :: x in w.didCommit ==> x.0 in cfg.parts && (x.0 in w.forgotten || w.part[x.0] == Committed(x.1))) &&
    (forall p :: p in cfg.parts && w.part[p].Committed? ==> (p, w.part[p].commitAt) in w.didCommit) &&
    (forall p :: p in cfg.parts && (w.part[p].Aborted? || w.part[p].Timedout?) ==> p in w.didAbort)
  }

  /** The principal commits last. */
  ghost predicate OrderInv(cfg: Config, w: World) {
    (forall c :: (cfg.principal, c) in w.commits ==> cfg.Others() <= Committers(w)) &&
    (forall p :: p in Committers(w) ==> exists c :: (p, c) in w.commits)
  }

  ghost predicate Inv(cfg: Config, w: World) {
    cfg.Valid() && VotesInv(cfg, w) && CoordInv(cfg, w) && OutcomeInv(cfg, w) && ReportsInv(cfg, w) &&
    (cfg.Others() <= cfg.watch ==> OrderInv(cfg, w))
  }

  lemma {:induction false} VotesPrepare(cfg: Config, w: World, p: nat, t: nat)
    requires cfg.Valid() && VotesInv(cfg, w) && Enabled(cfg, w, DoPrepare(p, t))
    ensures VotesInv(cfg, Do(cfg, w, DoPrepare(p, t)))
  {
    var w' := Do(cfg, w, DoPrepare(p, t));
    forall x, y | x in w'.voted && y in w'.voted && x.0 == y.0 ensures x == y {
      if x.0 == p {
        assert x !in w.voted && y !in w.voted;
      }
    }
  }

  lemma {:induction false} VotesStoreDecision(cfg: Config, w: World, c: nat)
    requires cfg.Valid() && VotesInv(cfg, w) && Enabled(cfg, w, DoStoreDecision(c))
    ensures VotesInv(cfg, StoreDecisionAt(cfg, w, c))
  {
  }

  lemma {:induction false} VotesPartChange(cfg: Config, w: World, w': World, p: nat)
    requires VotesInv(cfg, w) && p in cfg.parts && p in w'.part && w'.part == w.part[p := w'.part[p]]
    requires Final(w'.part[p]) || (w'.part[p].Absent? && p in w'.forgotten)
    requires w'.voted == w.voted && w.forgotten <= w'.forgotten && w'.coord == w.coord && w'.decided == w.decided
    ensures VotesInv(cfg, w')
  {
  }

  lemma {:induction false} VotesKept(cfg: Config, w: World, s: Step)
    requires cfg.Valid() && VotesInv(cfg, w) && Enabled(cfg, w, s)
    ensures VotesInv(cfg, Do(cfg, w, s))
  {
    var w' := Do(cfg, w, s);
    match s {
      case DoPrepare(p, t) => VotesPrepare(cfg, w, p, t);
      case DoStoreDecision(c) => VotesStoreDecision(cfg, w, c);
      case DoCommit(p, c) =>
        if w'.part != w.part {
          VotesPartChange(cfg, w, w', p);
        }
      case DoAbort(p) =>
        if w'.part != w.part {
          VotesPartChange(cfg, w, w', p);
        }
      case DoTimeout => VotesPartChange(cfg, w, w', cfg.principal);
      case Forget(p) => VotesPartChange(cfg, w, w', p);
      case _ => VotesMessages(cfg, w, w');
    }
  }

  lemma {:induction false} VotesMessages(cfg: Config, w: World, w': World)
    requires VotesInv(cfg, w) && w'.part == w.part && w'.voted == w.voted && w'.forgotten == w.forgotten
    requires w'.decided == w.decided
    requires w'.coord == w.coord || !w'.coord.Preparing? ||
             (w.coord.Preparing? && exists p, t :: (p, t) in w.voted && w'.coord.votes == w.coord.votes[p := t])
    ensures VotesInv(cfg, w')
  {
  }

  /** Whoever has voted is known to its partition, or has been forgotten. */
  lemma {:induction false} VotedIsKnown(cfg: Config, w: World, p: nat, c: nat)
    requires VotesInv(cfg, w) && p in cfg.parts
    ensures AllVotedBy(cfg, w, c) && w.part[p].Absent? ==> p in w.forgotten
    ensures AllVotedBy(cfg, w, c) && w.part[p].Prepared? ==> w.part[p].at <= c
  {
    if AllVotedBy(cfg, w, c) {
      var t :| (p, t) in w.voted && t <= c;
      assert (p, t).0 == p;
      if w.part[p].Prepared? {
        assert (p, w.part[p].at).0 == p;
      }
    }
  }

  lemma {:induction false} CoordStoreDecision(cfg: Config, w: World, c: nat)
    requires cfg.Valid() && VotesInv(cfg, w) && CoordInv(cfg, w) && Enabled(cfg, w, DoStoreDecision(c))
    ensures CoordInv(cfg, StoreDecisionAt(cfg, w, c))
  {
    VotedIsKnown(cfg, w, cfg.principal, c);
  }

  lemma {:induction false} CoordPrepare(cfg: Config, w: World, p: nat, t: nat)
    requires cfg.Valid() && VotesInv(cfg, w) && CoordInv(cfg, w) && Enabled(cfg, w, DoPrepare(p, t))
    ensures CoordInv(cfg, Do(cfg, w, DoPrepare(p, t)))
  {
    // too late for that once the decision is out: this partition has voted before
    forall c ensures !AllVotedBy(cfg, w, c) {
      VotedIsKnown(cfg, w, p, c);
    }
  }

  /** Steps that leave the coordinator and its decision alone. */
  lemma {:induction false} CoordSame(cfg: Config, w: World, w': World)
    requires CoordInv(cfg, w) && w'.coord == w.coord && w'.decision == w.decision && w'.decided == w.decided
    requires w'.stored == w.stored && w'.answers == w.answers && w'.voted == w.voted
    requires Past(cfg, w) ==> Past(cfg, w')
    ensures CoordInv(cfg, w')
  {
  }

  lemma {:induction false} CoordDecide(cfg: Config, w: World, c: nat)
    requires cfg.Valid() && VotesInv(cfg, w) && CoordInv(cfg, w) && Enabled(cfg, w, Decide(c))
    ensures CoordInv(cfg, Do(cfg, w, Decide(c)))
  {
    var w' := Do(cfg, w, Decide(c));
    forall p | p in cfg.parts ensures exists t :: (p, t) in w'.voted && t <= c {
      assert (p, w.coord.votes[p]) in w'.voted;
    }
  }

  lemma {:induction false} CoordMoves(cfg: Config, w: World, s: Step)
    requires cfg.Safe() && cfg.Valid() && w.part.Keys == cfg.parts && CoordInv(cfg, w) && Enabled(cfg, w, s)
    requires s.TakeVote? || s.GiveUp? || s.LearnStored? || s.Abandon?
    ensures CoordInv(cfg, Do(cfg, w, s))
  {
    assert s.Abandon? ==> s.answer in w.answers * LATE;
  }

  /** What a partition does, short of preparing and deciding, leaves the principal as past as it was. */
  lemma {:induction false} CoordPartition(cfg: Config, w: World, s: Step)
    requires cfg.Valid() && w.part.Keys == cfg.parts && CoordInv(cfg, w) && Enabled(cfg, w, s)
    requires s.DoCommit? || s.DoAbort? || s.DoTimeout? || s.Forget?
    ensures CoordInv(cfg, Do(cfg, w, s))
  {
    var w' := Do(cfg, w, s);
    assert Past(cfg, w) ==> Past(cfg, w');
    CoordSame(cfg, w, w');
  }

  lemma {:induction false} CoordKept(cfg: Config, w: World, s: Step)
    requires cfg.Safe() && cfg.Valid() && VotesInv(cfg, w) && CoordInv(cfg, w) && Enabled(cfg, w, s)
    ensures CoordInv(cfg, Do(cfg, w, s))
  {
    match s {
      case Decide(c) => CoordDecide(cfg, w, c);
      case DoPrepare(p, t) => CoordPrepare(cfg, w, p, t);
      case DoStoreDecision(c) => CoordStoreDecision(cfg, w, c);
      case Abandon(_) => CoordMoves(cfg, w, s);
      case TakeVote(_, _) => CoordMoves(cfg, w, s);
      case GiveUp => CoordMoves(cfg, w, s);
      case LearnStored => CoordMoves(cfg, w, s);
      case DoCommit(_, _) => CoordPartition(cfg, w, s);
      case DoAbort(_) => CoordPartition(cfg, w, s);
      case DoTimeout => CoordPartition(cfg, w, s);
      case Forget(_) => CoordPartition(cfg, w, s);
      case _ => CoordSame(cfg, w, Do(cfg, w, s));
    }
  }

  lemma {:induction false} OutcomeStoreDecision(cfg: Config, w: World, c: nat)
    requires cfg.Valid() && CoordInv(cfg, w) && OutcomeInv(cfg, w) && ReportsInv(cfg, w)
    requires Enabled(cfg, w, DoStoreDecision(c))
    ensures OutcomeInv(cfg, StoreDecisionAt(cfg, w, c))
  {
    assert Committers(StoreDecisionAt(cfg, w, c)) == Committers(w);
    if w.part[cfg.principal].Prepared? {
      assert !Past(cfg, w);
    }
  }

  lemma {:induction false} OutcomeCommit(cfg: Config, w: World, p: nat, c: nat)
    requires cfg.Valid() && OutcomeInv(cfg, w) && Enabled(cfg, w, DoCommit(p, c))
    ensures OutcomeInv(cfg, CommitAt(w, p, c))
  {
    CommittersAfter(w, p, c);
    var w' := CommitAt(w, p, c);
    assert w'.didCommit <= w.didCommit + {(p, c)};
    assert w.decided == Some((p, c).1);
  }

  lemma {:induction false} OutcomeAbort(cfg: Config, w: World, p: nat)
    requires cfg.Safe() && Inv(cfg, w) && Enabled(cfg, w, DoAbort(p))
    ensures OutcomeInv(cfg, AbortAt(w, p))
  {
    assert Committers(AbortAt(w, p)) == Committers(w);
    if w.decided.Some? {
      var x :| x in w.didCommit && x.0 == p;
      assert !w.part[p].Prepared?;
    }
  }

  lemma {:induction false} OutcomePrepare(cfg: Config, w: World, p: nat, t: nat)
    requires cfg.Valid() && OutcomeInv(cfg, w) && Enabled(cfg, w, DoPrepare(p, t))
    ensures OutcomeInv(cfg, Do(cfg, w, DoPrepare(p, t)))
  {
    assert Committers(Do(cfg, w, DoPrepare(p, t))) == Committers(w);
  }

  lemma {:induction false} OutcomeTimeout(cfg: Config, w: World)
    requires cfg.Valid() && OutcomeInv(cfg, w) && Enabled(cfg, w, DoTimeout)
    ensures OutcomeInv(cfg, Do(cfg, w, DoTimeout))
  {
    assert Committers(Do(cfg, w, DoTimeout)) == Committers(w);
  }

  lemma {:induction false} OutcomeForget(cfg: Config, w: World, p: nat)
    requires cfg.Valid() && OutcomeInv(cfg, w) && Enabled(cfg, w, Forget(p))
    ensures OutcomeInv(cfg, Do(cfg, w, Forget(p)))
  {
    assert Committers(Do(cfg, w, Forget(p))) == Committers(w);
  }

  /** An abort on a late answer comes when all have committed. */
  lemma {:induction false} OutcomeAbandon(cfg: Config, w: World, a: Answer)
    requires cfg.Safe() && Inv(cfg, w) && Enabled(cfg, w, Abandon(a))
    ensures OutcomeInv(cfg, Do(cfg, w, Abandon(a)))
  {
    assert Committers(Do(cfg, w, Abandon(a))) == Committers(w);
    assert a in w.answers * LATE && a in cfg.abortOn * LATE;
    if w.decided.Some? {
      PastHasCommitted(cfg, w);
      var c :| (cfg.principal, c) in w.commits;
      assert cfg.Others() <= Committers(w);
    }
  }

  lemma {:induction false} PastHasCommitted(cfg: Config, w: World)
    requires Inv(cfg, w) && w.decided.Some? && Past(cfg, w)
    ensures cfg.principal in Committers(w)
  {
    var s := w.part[cfg.principal];
    if s.Committed? {
      assert (cfg.principal, s.commitAt) in w.didCommit;
    }
  }

  lemma {:induction false} OutcomeTalk(cfg: Config, w: World, w': World)
    requires OutcomeInv(cfg, w) && w'.part == w.part && w'.forgotten == w.forgotten && w'.decided == w.decided
    requires w'.commits == w.commits && w'.aborts == w.aborts
    requires w'.didCommit == w.didCommit && w'.didAbort == w.didAbort
    requires w.coord.Aborting? ==> w'.coord.Aborting?
    requires w'.coord.Aborting? ==> w.coord.Aborting? || w.decided.None?
    ensures OutcomeInv(cfg, w')
  {
    assert Committers(w') == Committers(w);
  }

  lemma {:induction false} OutcomeSendCommit(cfg: Config, w: World, p: nat, c: nat)
    requires OutcomeInv(cfg, w) && w.decided == Some(c)
    ensures OutcomeInv(cfg, w.(commits := w.commits + {(p, c)}))
  {
    assert Committers(w.(commits := w.commits + {(p, c)})) == Committers(w);
  }

  lemma {:induction false} OutcomeSendAbort(cfg: Config, w: World, p: nat)
    requires OutcomeInv(cfg, w) && (w.coord.Aborting? || w.part[cfg.principal].Timedout?)
    ensures OutcomeInv(cfg, w.(aborts := w.aborts + {p}))
  {
    assert Committers(w.(aborts := w.aborts + {p})) == Committers(w);
  }

  lemma {:induction false} OutcomeKept(cfg: Config, w: World, s: Step)
    requires cfg.Safe() && Inv(cfg, w) && Enabled(cfg, w, s)
    ensures OutcomeInv(cfg, Do(cfg, w, s))
  {
    match s {
      case DoStoreDecision(c) => OutcomeStoreDecision(cfg, w, c);
      case DoPrepare(p, t) => OutcomePrepare(cfg, w, p, t);
      case DoCommit(p, c) => OutcomeCommit(cfg, w, p, c);
      case DoAbort(p) => OutcomeAbort(cfg, w, p);
      case DoTimeout => OutcomeTimeout(cfg, w);
      case Forget(p) => OutcomeForget(cfg, w, p);
      case Abandon(a) => OutcomeAbandon(cfg, w, a);
      case SendCommit(p) => OutcomeSendCommit(cfg, w, p, w.coord.commitAt);
      case WatchCommit(p) => OutcomeSendCommit(cfg, w, p, w.part[cfg.principal].commitAt);
      case SendAbort(p) => OutcomeSendAbort(cfg, w, p);
      case WatchAbort(p) => OutcomeSendAbort(cfg, w, p);
      case _ => OutcomeTalk(cfg, w, Do(cfg, w, s));
    }
  }

  // ---- reports, and the order of commits

  lemma {:induction false} GoneHasCommitted(cfg: Config, w: World, p: nat, c: nat)
    requires Inv(cfg, w) && (p, c) in w.commits && p in cfg.parts && w.part[p].Absent?
    ensures p in Committers(w)
  {
    assert w.decided == Some((p, c).1);
    assert AllVotedBy(cfg, w, c);
    var t :| (p, t) in w.voted && t <= c;
    assert (p, t).0 in w.forgotten;
  }

  lemma {:induction false} CommittersAfter(w: World, p: nat, c: nat)
    requires p in w.part
    ensures Committers(CommitAt(w, p, c)) ==
            Committers(w) + if CommitAllowed(w.part[p], c) then {p} else {}
  {
    var w' := CommitAt(w, p, c);
    if CommitAllowed(w.part[p], c) {
      assert w'.didCommit == w.didCommit + {(p, c)};
      assert (p, c) in w'.didCommit;
      forall q | q in Committers(w) ensures q in Committers(w') {
        var x :| x in w.didCommit && x.0 == q;
        assert x in w'.didCommit;
      }
    }
  }

  /** A change to one partition that is not a commit. */
  lemma {:induction false} ReportsPartChange(cfg: Config, w: World, w': World, p: nat)
    requires ReportsInv(cfg, w) && p in cfg.parts && p in w'.part && w'.part == w.part[p := w'.part[p]]
    requires !w'.part[p].Committed? && (w'.part[p].Aborted? || w'.part[p].Timedout? ==> p in w'.didAbort)
    requires w'.didCommit == w.didCommit && w'.acked == w.acked && w'.gone == w.gone && w.didAbort <= w'.didAbort
    requires (w'.forgotten == w.forgotten && p !in w.forgotten && !w.part[p].Committed?) ||
             (w'.forgotten == w.forgotten + {p} && Final(w.part[p]) && w'.part[p].Absent?)
    ensures ReportsInv(cfg, w')
  {
    assert Committers(w') == Committers(w);
    if w.part[p].Committed? {
      assert (p, w.part[p].commitAt) in w.didCommit;
    }
  }

  lemma {:induction false} ReportsCommit(cfg: Config, w: World, p: nat, c: nat)
    requires Inv(cfg, w) && Enabled(cfg, w, DoCommit(p, c))
    ensures ReportsInv(cfg, CommitAt(w, p, c))
  {
    if w.part[p].Absent? {
      GoneHasCommitted(cfg, w, p, c);
      ReportsTold(cfg, w, CommitAt(w, p, c));
    } else if w.part[p].Committed? {
      assert (p, w.part[p].commitAt) in w.didCommit;
      ReportsTold(cfg, w, CommitAt(w, p, c));
    } else if CommitAllowed(w.part[p], c) {
      ReportsNewCommit(cfg, w, p, c);
    }
  }

  lemma {:induction false} ReportsTold(cfg: Config, w: World, w': World)
    requires ReportsInv(cfg, w) && w'.acked <= Committers(w) && w'.gone <= Committers(w)
    requires w'.part == w.part && w'.forgotten == w.forgotten
    requires w'.didCommit == w.didCommit && w'.didAbort == w.didAbort
    ensures ReportsInv(cfg, w')
  {
    assert Committers(w') == Committers(w);
  }

  lemma {:induction false} ReportsNewCommit(cfg: Config, w: World, p: nat, c: nat)
    requires ReportsInv(cfg, w) && p in cfg.parts && CommitAllowed(w.part[p], c)
    ensures ReportsInv(cfg, CommitAt(w, p, c))
  {
    CommittersAfter(w, p, c);
    var w' := CommitAt(w, p, c);
    assert w'.didCommit == w.didCommit + {(p, c)} && p !in w.forgotten;
    forall x | x in w'.didCommit ensures x.0 in cfg.parts && (x.0 in w'.forgotten || w'.part[x.0] == Committed(x.1)) {
      if x != (p, c) {
        assert x in w.didCommit;
      }
    }
  }

  lemma {:induction false} ReportsKept(cfg: Config, w: World, s: Step)
    requires Inv(cfg, w) && Enabled(cfg, w, s)
    ensures ReportsInv(cfg, Do(cfg, w, s))
  {
    var w' := Do(cfg, w, s);
    match s {
      case DoCommit(p, c) => ReportsCommit(cfg, w, p, c);
      case DoPrepare(p, _) => ReportsPartChange(cfg, w, w', p);
      case DoStoreDecision(c) => ReportsDecision(cfg, w, c);
      case DoAbort(p) =>
        if w' != w {
          ReportsPartChange(cfg, w, w', p);
        }
      case DoTimeout => ReportsPartChange(cfg, w, w', cfg.principal);
      case Forget(p) => ReportsPartChange(cfg, w, w', p);
      case _ => ReportsTold(cfg, w, w');
    }
  }

  lemma {:induction false} ReportsDecision(cfg: Config, w: World, c: nat)
    requires cfg.Valid() && ReportsInv(cfg, w) && Enabled(cfg, w, DoStoreDecision(c))
    ensures ReportsInv(cfg, StoreDecisionAt(cfg, w, c))
  {
    var w' := StoreDecisionAt(cfg, w, c);
    if w.part[cfg.principal].Prepared? && w'.part != w.part {
      ReportsPartChange(cfg, w, w', cfg.principal);
    } else {
      assert Committers(w') == Committers(w);
    }
  }

  lemma {:induction false} CommittersGrow(cfg: Config, w: World, s: Step)
    requires cfg.Valid() && w.part.Keys == cfg.parts && Enabled(cfg, w, s)
    ensures Committers(w) <= Committers(Do(cfg, w, s))
    ensures Committers(Do(cfg, w, s)) <= Committers(w) + if s.DoCommit? then {s.pid} else {}
  {
    if s.DoCommit? {
      CommittersAfter(w, s.pid, s.timestamp);
    } else {
      assert Do(cfg, w, s).didCommit == w.didCommit;
    }
  }

  /** A commit request to the principal goes out only when all the others have committed. */
  lemma {:induction false} PrincipalAskedLast(cfg: Config, w: World, s: Step, c: nat)
    requires cfg.Others() <= cfg.watch && cfg.Valid() && ReportsInv(cfg, w) && Enabled(cfg, w, s)
    requires (cfg.principal, c) in Do(cfg, w, s).commits && (cfg.principal, c) !in w.commits
    ensures cfg.Others() <= Committers(w)
  {
    assert cfg.Others() <= w.acked + w.gone;
  }

  lemma {:induction false} OrderKept(cfg: Config, w: World, s: Step)
    requires cfg.Others() <= cfg.watch && cfg.Valid() && ReportsInv(cfg, w) && OrderInv(cfg, w) && Enabled(cfg, w, s)
    ensures OrderInv(cfg, Do(cfg, w, s))
  {
    var w' := Do(cfg, w, s);
    assert w.commits <= w'.commits;
    CommittersGrow(cfg, w, s);
    forall c | (cfg.principal, c) in w'.commits ensures cfg.Others() <= Committers(w') {
      if (cfg.principal, c) !in w.commits {
        PrincipalAskedLast(cfg, w, s, c);
      }
    }
    forall p | p in Committers(w') ensures exists c :: (p, c) in w'.commits {
      if p in Committers(w) {
        var c :| (p, c) in w.commits;
        assert (p, c) in w'.commits;
      } else {
        assert (p, s.timestamp) in w'.commits;
      }
    }
  }

  // ---- whole runs

  lemma {:induction false} StepKeepsInv(cfg: Config, w: World, s: Step)
    requires cfg.Safe() && Inv(cfg, w) && Enabled(cfg, w, s)
    ensures Inv(cfg, Do(cfg, w, s))
  {
    VotesKept(cfg, w, s);
    CoordKept(cfg, w, s);
    OutcomeKept(cfg, w, s);
    ReportsKept(cfg, w, s);
    if cfg.Others() <= cfg.watch {
      OrderKept(cfg, w, s);
    }
  }

  lemma {:induction false} RunKeepsInv(cfg: Config, run: seq<World>, n: nat)
    requires cfg.Valid() && cfg.Safe() && IsRun(cfg, run) && n < |run|
    ensures Inv(cfg, run[n])
  {
    if n > 0 {
      RunKeepsInv(cfg, run, n - 1);
      assert Next(cfg, run[n - 1], run[n - 1 + 1]);
      var s :| Enabled(cfg, run[n - 1], s) && run[n] == Do(cfg, run[n - 1], s);
      StepKeepsInv(cfg, run[n - 1], s);
    }
  }

  lemma {:induction false} ReachableKeepsInv(cfg: Config, w: World)
    requires cfg.Valid() && cfg.Safe() && Reachable(cfg, w)
    ensures Inv(cfg, w)
  {
    var run :| IsRun(cfg, run) && run[|run| - 1] == w;
    RunKeepsInv(cfg, run, |run| - 1);
  }

  /** In a safe setting every reachable state is all or nothing, and commits lie above all votes. */
  lemma {:induction false} SafeIsAtomic(cfg: Config, w: World)
    requires cfg.Valid() && cfg.Safe() && Reachable(cfg, w)
    ensures Atomic(w) && AboveVotes(cfg, w)
  {
    ReachableKeepsInv(cfg, w);
    forall x, p | x in w.didCommit && p in cfg.parts ensures exists t :: (p, t) in w.voted && t <= x.1 {
      assert AllVotedBy(cfg, w, x.1);
    }
  }

  // ---- one commit timestamp, safe or not

  lemma {:induction false} RunKeepsVotes(cfg: Config, run: seq<World>, n: nat)
    requires cfg.Valid() && IsRun(cfg, run) && n < |run|
    ensures VotesInv(cfg, run[n])
  {
    if n > 0 {
      RunKeepsVotes(cfg, run, n - 1);
      assert Next(cfg, run[n - 1], run[n - 1 + 1]);
      var s :| Enabled(cfg, run[n - 1], s) && run[n] == Do(cfg, run[n - 1], s);
      VotesKept(cfg, run[n - 1], s);
    }
  }

  /** Whatever carries a commit timestamp carries the one decision there is. */
  ghost predicate OneDecision(cfg: Config, w: World) {
    w.part.Keys == cfg.parts &&
    (w.coord.Preparing? ==> w.decision.None?) &&
    (w.coord.Deciding? || w.coord.Committing? ==> w.decision == Some(w.coord.commitAt)) &&
    (forall p :: p in w.part && (w.part[p].Decided? || w.part[p].Committed?) ==>
       w.decision == Some(w.part[p].commitAt)) &&
    (forall x :: x in w.commits + w.didCommit ==> w.decision == Some(x.1))
  }

  lemma {:induction false} DecisionKept(cfg: Config, w: World, s: Step)
    requires cfg.Valid() && OneDecision(cfg, w) && Enabled(cfg, w, s)
    ensures OneDecision(cfg, Do(cfg, w, s))
  {
    match s {
      case DoCommit(p, c) => assert (p, c) in w.commits + w.didCommit;
      case _ =>
    }
  }

  lemma {:induction false} RunKeepsDecision(cfg: Config, run: seq<World>, n: nat)
    requires cfg.Valid() && IsRun(cfg, run) && n < |run|
    ensures OneDecision(cfg, run[n])
  {
    if n > 0 {
      RunKeepsDecision(cfg, run, n - 1);
      assert Next(cfg, run[n - 1], run[n - 1 + 1]);
      var s :| Enabled(cfg, run[n - 1], s) && run[n] == Do(cfg, run[n - 1], s);
      DecisionKept(cfg, run[n - 1], s);
    }
  }

  /** A decision comes after a vote of every participant, none above it. */
  ghost predicate DecisionVoted(cfg: Config, w: World) {
    w.decision.Some? ==> AllVotedBy(cfg, w, w.decision.value)
  }

  lemma {:induction false} DecideVoted(cfg: Config, w: World, c: nat)
    requires cfg.Valid() && VotesInv(cfg, w) && Enabled(cfg, w, Decide(c))
    ensures DecisionVoted(cfg, Do(cfg, w, Decide(c)))
  {
    forall p | p in cfg.parts ensures exists t :: (p, t) in w.voted && t <= c {
      assert (p, w.coord.votes[p]) in w.voted;
    }
  }

  lemma {:induction false} MoreVotes(cfg: Config, w: World, w': World)
    requires DecisionVoted(cfg, w) && w'.decision == w.decision && w.voted <= w'.voted
    ensures DecisionVoted(cfg, w')
  {
    if w.decision.Some? {
      forall p | p in cfg.parts ensures exists t :: (p, t) in w'.voted && t <= w.decision.value {
        var t :| (p, t) in w.voted && t <= w.decision.value;
        assert (p, t) in w'.voted;
      }
    }
  }

  lemma {:induction false} DecisionVotedStep(cfg: Config, w: World, s: Step)
    requires cfg.Valid() && VotesInv(cfg, w) && DecisionVoted(cfg, w) && Enabled(cfg, w, s)
    ensures DecisionVoted(cfg, Do(cfg, w, s))
  {
    if s.Decide? {
      DecideVoted(cfg, w, s.commitAt);
    } else {
      MoreVotes(cfg, w, Do(cfg, w, s));
    }
  }

  lemma {:induction false} DecisionVotedNext(cfg: Config, w: World, w': World)
    requires VotesInv(cfg, w) && DecisionVoted(cfg, w) && Next(cfg, w, w')
    ensures DecisionVoted(cfg, w')
  {
    var s :| Enabled(cfg, w, s) && w' == Do(cfg, w, s);
    DecisionVotedStep(cfg, w, s);
  }

  lemma {:induction false} DecisionStaysVoted(cfg: Config, run: seq<World>, n: nat)
    requires cfg.Valid() && IsRun(cfg, run) && n + 1 < |run| && DecisionVoted(cfg, run[n])
    ensures DecisionVoted(cfg, run[n + 1])
  {
    RunKeepsVotes(cfg, run, n);
    assert Next(cfg, run[n], run[n + 1]);
    DecisionVotedNext(cfg, run[n], run[n + 1]);
  }

  /** That holds in every setting. */
  lemma {:induction false} DecisionIsVoted(cfg: Config, run: seq<World>, n: nat)
    requires cfg.Valid() && IsRun(cfg, run) && n < |run|
    ensures DecisionVoted(cfg, run[n])
  {
    if n > 0 {
      DecisionIsVoted(cfg, run, n - 1);
      DecisionStaysVoted(cfg, run, n - 1);
    }
  }

  /** In every setting, partitions in which the transaction stands as committed agree on its timestamp. */
  lemma {:induction false} CommittedAgree(cfg: Config, w: World, p: nat, q: nat)
    requires cfg.Valid() && Reachable(cfg, w) && p in w.part && q in w.part
    requires w.part[p].Committed? && w.part[q].Committed?
    ensures w.part[p].commitAt == w.part[q].commitAt
  {
    var run :| IsRun(cfg, run) && run[|run| - 1] == w;
    RunKeepsDecision(cfg, run, |run| - 1);
  }

  ghost predicate PrincipalLast(cfg: Config, w: World) {
    cfg.principal in Committers(w) ==> cfg.parts <= Committers(w)
  }

  lemma {:induction false} WatchedIsOrdered(cfg: Config, w: World)
    requires cfg.Valid() && cfg.Safe() && cfg.Others() <= cfg.watch && Reachable(cfg, w)
    ensures PrincipalLast(cfg, w)
  {
    ReachableKeepsInv(cfg, w);
  }

  // ---- runs that break the promises

  function AllPrepared(cfg: Config, ps: set<nat>): World {
    Init(cfg).(part := map p | p in cfg.parts :: if p in ps then Prepared(1) else Absent,
               coord := Preparing(map p | p in ps :: 1),
               asked := ps,
               voted := set p | p in ps :: (p, 1))
  }

  lemma {:induction false} Take(cfg: Config, w: World, s: Step) returns (w': World)
    requires cfg.Valid() && w.part.Keys == cfg.parts && Reachable(cfg, w) && Enabled(cfg, w, s)
    ensures w' == Do(cfg, w, s) && Reachable(cfg, w') && w'.part.Keys == cfg.parts
  {
    w' := Do(cfg, w, s);
    Extend(cfg, w, w');
  }

  lemma {:induction false} PrepareOne(cfg: Config, rest: set<nat>, p: nat)
    requires cfg.Valid() && rest <= cfg.parts && p in cfg.parts - rest && (p == cfg.principal || cfg.principal in rest)
    requires Reachable(cfg, AllPrepared(cfg, rest))
    ensures Reachable(cfg, AllPrepared(cfg, rest + {p}))
  {
    var w := AllPrepared(cfg, rest);
    w := Take(cfg, w, AskPrepare(p));
    w := Take(cfg, w, DoPrepare(p, 1));
    w := Take(cfg, w, TakeVote(p, 1));
    var goal := AllPrepared(cfg, rest + {p});
    assert w.part == goal.part && w.coord.votes == goal.coord.votes && w.voted == goal.voted;
  }

  lemma {:induction false} PrepareAll(cfg: Config, ps: set<nat>)
    requires cfg.Valid() && ps <= cfg.parts && (ps == {} || cfg.principal in ps)
    ensures Reachable(cfg, AllPrepared(cfg, ps))
    decreases ps
  {
    if ps == {} {
      InitReachable(cfg);
      assert AllPrepared(cfg, ps) == Init(cfg);
    } else {
      var p := cfg.principal;
      if q :| q in ps - {p} {
        p := q;
      } else {
        assert forall q :: q in ps ==> q in ps - {p} || q == p;
        assert ps == {p};
      }
      PrepareAll(cfg, ps - {p});
      PrepareOne(cfg, ps - {p}, p);
      assert ps - {p} + {p} == ps;
    }
  }

  /** Everyone has voted and the decision is stored; the coordinator has not heard of it. */
  function JustStored(cfg: Config): World {
    AllPrepared(cfg, cfg.parts).(
      part := map p | p in cfg.parts :: if p == cfg.principal then Decided(1, 1) else Prepared(1),
      coord := Deciding(1),
      decision := Some(1),
      stored := true,
      decided := Some(1))
  }

  lemma {:induction false} JustStoredReachable(cfg: Config)
    requires cfg.Valid()
    ensures Reachable(cfg, JustStored(cfg)) && JustStored(cfg).part.Keys == cfg.parts
  {
    PrepareAll(cfg, cfg.parts);
    var w := AllPrepared(cfg, cfg.parts);
    assert w.coord.votes[cfg.principal] == 1;
    w := Take(cfg, w, Decide(1));
    w := Take(cfg, w, DoStoreDecision(1));
    assert w == JustStored(cfg);
  }

  /** The coordinator took an error for a failure and aborted a participant of a stored decision, now forgotten. */
  function AbortedAnyway(cfg: Config, q: nat): World
    requires q in cfg.Others()
  {
    JustStored(cfg).(
      part := JustStored(cfg).part[q := Absent], forgotten := {q}, coord := Aborting, aborts := {q}, didAbort := {q})
  }

  lemma {:induction false} AbortedAnywayReachable(cfg: Config, q: nat)
    requires cfg.Valid() && NoReply in cfg.abortOn && q in cfg.Others()
    ensures Reachable(cfg, AbortedAnyway(cfg, q)) && AbortedAnyway(cfg, q).part.Keys == cfg.parts
  {
    JustStoredReachable(cfg);
    var w := Take(cfg, JustStored(cfg), Abandon(NoReply));
    w := Take(cfg, w, SendAbort(q));
    w := Take(cfg, w, DoAbort(q));
    w := Take(cfg, w, Forget(q));
    assert w == AbortedAnyway(cfg, q);
  }

  /** The watchdog has carried the decision to `ps`. */
  function Watched(w: World, ps: set<nat>): World {
    w.(part := map p | p in w.part :: if p in ps then Committed(1) else w.part[p],
       commits := w.commits + set p | p in ps :: (p, 1),
       acked := w.acked + ps,
       didCommit := w.didCommit + set p | p in ps :: (p, 1))
  }

  /** The decision is stored and the watchdog can still carry it to `ps`. */
  ghost predicate Waiting(cfg: Config, w: World, ps: set<nat>) {
    cfg.Valid() && Reachable(cfg, w) && w.part.Keys == cfg.parts && w.part[cfg.principal] == Decided(1, 1) &&
    ps <= cfg.watch - {cfg.principal} && forall p :: p in ps ==> w.part[p] == Prepared(1)
  }

  lemma {:induction false} WatchOne(cfg: Config, w: World, ps: set<nat>, rest: set<nat>, p: nat)
    requires Waiting(cfg, w, ps) && rest <= ps && p in ps - rest && Reachable(cfg, Watched(w, rest))
    ensures Reachable(cfg, Watched(w, rest + {p}))
  {
    var v := Watched(w, rest);
    assert v.part[cfg.principal] == Decided(1, 1) && v.part[p] == Prepared(1);
    v := Take(cfg, v, WatchCommit(p));
    v := Take(cfg, v, DoCommit(p, 1));
    assert v == Watched(w, rest + {p});
  }

  lemma {:induction false} WatchSome(cfg: Config, w: World, ps: set<nat>, rest: set<nat>)
    requires Waiting(cfg, w, ps) && rest <= ps
    ensures Reachable(cfg, Watched(w, rest))
    decreases rest
  {
    if rest == {} {
      assert Watched(w, {}) == w;
    } else {
      var p :| p in rest;
      WatchSome(cfg, w, ps, rest - {p});
      WatchOne(cfg, w, ps, rest - {p}, p);
      assert rest - {p} + {p} == rest;
    }
  }

  lemma {:induction false} WatchPrincipal(cfg: Config, w: World) returns (w': World)
    requires Waiting(cfg, w, {}) && cfg.watch - {cfg.principal} <= w.acked + w.gone
    ensures Reachable(cfg, w') && (cfg.principal, 1) in w'.didCommit && w'.part.Keys == cfg.parts
    ensures w' == CommitAt(w.(commits := w.commits + {(cfg.principal, 1)}), cfg.principal, 1)
  {
    w' := Take(cfg, w, WatchCommit(cfg.principal));
    w' := Take(cfg, w', DoCommit(cfg.principal, 1));
  }

  /** All the watchdog knows have committed, but for `q`, which has aborted and forgotten. */
  lemma {:induction false} AllButOne(cfg: Config, q: nat) returns (w: World)
    requires cfg.Valid() && NoReply in cfg.abortOn && q in cfg.Others()
    ensures Waiting(cfg, w, {}) && w.part[q] == Absent && q in w.didAbort && (q, 1) !in w.didCommit
    ensures cfg.watch - {cfg.principal, q} <= w.acked && forall x :: x in w.didCommit ==> x.1 == 1
  {
    var ps := cfg.watch - {cfg.principal, q};
    AbortedAnywayReachable(cfg, q);
    WatchSome(cfg, AbortedAnyway(cfg, q), ps, ps);
    w := Watched(AbortedAnyway(cfg, q), ps);
    assert w.part[cfg.principal] == Decided(1, 1) && w.part[q] == Absent;
  }

  /** Without a reply the decision may be stored: then all but one participant commit what that one has aborted. */
  lemma {:induction false} NoReplyBreaks(cfg: Config, q: nat) returns (w: World)
    requires cfg.Valid() && NoReply in cfg.abortOn && q in cfg.Others()
    ensures Reachable(cfg, w) && !Atomic(w) && cfg.principal in Committers(w) && q !in Committers(w)
  {
    w := AllButOne(cfg, q);
    if q in cfg.watch {
      w := Take(cfg, w, WatchCommit(q));
      w := Take(cfg, w, DoCommit(q, 1));
    }
    var before := w;
    w := WatchPrincipal(cfg, w);
    assert w.didCommit == before.didCommit + {(cfg.principal, 1)} && q in w.didAbort;
    forall x | x in w.didCommit ensures x.0 != q {
      assert x == (x.0, 1);
    }
  }

  /** A participant missing from the watchdog's record is left behind, still holding its locks. */
  lemma {:induction false} UnwatchedLeftBehind(cfg: Config, q: nat) returns (w: World)
    requires cfg.Valid() && q in cfg.Others() - cfg.watch
    ensures Reachable(cfg, w) && cfg.principal in Committers(w) && q !in Committers(w)
    ensures w.part.Keys == cfg.parts && w.part[q] == Prepared(1) && w.part[cfg.principal] == Committed(1)
    ensures w.coord == Deciding(1) && w.decision == Some(1) && w.answers == {} && w.aborts == {}
  {
    var others := cfg.watch - {cfg.principal};
    JustStoredReachable(cfg);
    WatchSome(cfg, JustStored(cfg), others, others);
    w := Watched(JustStored(cfg), others);
    assert w.part[cfg.principal] == Decided(1, 1) && w.part[q] == Prepared(1);
    var before := w;
    w := WatchPrincipal(cfg, w);
    assert w.didCommit == before.didCommit + {(cfg.principal, 1)};
  }

  /** The decision was carried out without `q`; a repeated request is answered late, and `q` is aborted. */
  lemma {:induction false} LateAnswerBreaks(cfg: Config, q: nat, a: Answer) returns (w: World)
    requires cfg.Valid() && q in cfg.Others() - cfg.watch && a in cfg.abortOn && a in LATE
    ensures Reachable(cfg, w) && !Atomic(w)
  {
    w := UnwatchedLeftBehind(cfg, q);
    var x :| x in w.didCommit && x.0 == cfg.principal;
    if a == NotFound {
      w := Take(cfg, w, Forget(cfg.principal));
    }
    w := LateAbort(cfg, w, q, a);
    assert x in w.didCommit && q in w.didAbort;
  }

  lemma {:induction false} LateAbort(cfg: Config, w: World, q: nat, a: Answer) returns (w': World)
    requires cfg.Valid() && Reachable(cfg, w) && w.part.Keys == cfg.parts && w.coord.Deciding? && w.decision == Some(1)
    requires a in cfg.abortOn && AnswerTo(w.part[cfg.principal], 1) == Some(a)
    requires q in cfg.Others() && w.part[q].Prepared?
    ensures Reachable(cfg, w') && w'.didCommit == w.didCommit && q in w'.didAbort
  {
    w' := Take(cfg, w, DoStoreDecision(1));
    w' := Take(cfg, w', Abandon(a));
    w' := Take(cfg, w', SendAbort(q));
    w' := Take(cfg, w', DoAbort(q));
  }

  /**
   * Main result. Two-phase commit is all or nothing in every run exactly when the coordinator does not abort for want
   * of a reply and, if it aborts on "not found" or "failed precondition", the watchdog knows all participants.
   */
  lemma {:induction false} AtomicityExact(cfg: Config)
    requires cfg.Valid()
    ensures cfg.Safe() <==> forall w :: Reachable(cfg, w) ==> Atomic(w)
  {
    if cfg.Safe() {
      forall w | Reachable(cfg, w) ensures Atomic(w) {
        SafeIsAtomic(cfg, w);
      }
    } else if NoReply in cfg.abortOn {
      var q :| q in cfg.Others();
      var w := NoReplyBreaks(cfg, q);
    } else {
      var a, q :| a in cfg.abortOn && a in LATE && q in cfg.Others() && q !in cfg.watch;
      var w := LateAnswerBreaks(cfg, q, a);
    }
  }

  /**
   * The principal is the last to commit in every run exactly when the coordinator does not abort for want of a reply
   * and the watchdog has all participants on record.
   */
  lemma {:induction false} PrincipalLastExact(cfg: Config)
    requires cfg.Valid()
    ensures NoReply !in cfg.abortOn && cfg.Others() <= cfg.watch <==>
            forall w :: Reachable(cfg, w) ==> PrincipalLast(cfg, w)
  {
    if NoReply in cfg.abortOn {
      var q :| q in cfg.Others();
      var w := NoReplyBreaks(cfg, q);
      assert !PrincipalLast(cfg, w);
    } else if cfg.Others() <= cfg.watch {
      forall w | Reachable(cfg, w) ensures PrincipalLast(cfg, w) {
        WatchedIsOrdered(cfg, w);
      }
    } else {
      var q :| q in cfg.Others() && q !in cfg.watch;
      var w := UnwatchedLeftBehind(cfg, q);
      assert !PrincipalLast(cfg, w);
    }
  }

  /** What the code does: it aborts on any error. */
  const ANY_ERROR: set<Answer> := {NoReply, NotFound, FailedPrecondition, InvalidRequest}

  /** So neither promise holds of it, whatever the watchdog knows. */
  lemma {:induction false} CodeBreaksBoth(cfg: Config) returns (w: World)
    requires cfg.Valid() && cfg.abortOn == ANY_ERROR
    ensures Reachable(cfg, w) && !Atomic(w) && !PrincipalLast(cfg, w)
  {
    var q :| q in cfg.Others();
    w := NoReplyBreaks(cfg, q);
  }
}
