/** One server's clock over whole histories: boots, issued timestamps and accepted or refused updates. */
module ServerRuns {
  import opened HybridClock

  datatype Op =
    | Boot(reading: nat)
    | Issue(wall: Wall)
    | Receive(incoming: nat, check: nat, wall: Wall)

  /** `last` is the latest wall clock reading; `issued` every timestamp handed out, over all lives. */
  datatype Server = Server(up: bool, clock: Clock, last: nat, issued: seq<nat>)

  const FRESH := Server(false, Clock(0, 0), 0, [])

  function Settle(s: Server, r: Outcome, last: nat, issues: bool): Server {
    match r
    case Advanced(c) => Server(true, c, last, if issues then s.issued + [c.Packed()] else s.issued)
    case OutOfRange => s.(last := last)
    case Shutdown(_) => s.(up := false, last := last)
  }

  /** A server that is down ignores everything but a boot. */
  function Step(s: Server, op: Op, maxOffset: nat): Server {
    match op
    case Boot(reading) => Server(true, Clock(Physical(reading), 0), reading, s.issued)
    case Issue(wall) => if s.up then Settle(s, NowOf(s.clock, maxOffset, wall), wall[2], true) else s
    case Receive(incoming, check, wall) =>
      if s.up then Settle(s, UpdateOf(s.clock, maxOffset, incoming, check, wall), wall[2], false) else s
  }

  function Run(s: Server, ops: seq<Op>, maxOffset: nat): Server {
    if ops == [] then s else Step(Run(s, ops[..|ops| - 1], maxOffset), ops[|ops| - 1], maxOffset)
  }

  // ---- uniqueness of issued timestamps

  predicate Increasing(xs: seq<nat>) {
    forall i, j :: 0 <= i < j < |xs| ==> xs[i] < xs[j]
  }

  predicate BoundsIssued(s: Server, t: nat) {
    forall i :: 0 <= i < |s.issued| ==> s.issued[i] <= t
  }

  predicate Sound(s: Server) {
    s.clock.WellFormed() && Increasing(s.issued) && (s.up ==> BoundsIssued(s, s.clock.Packed()))
  }

  /** A boot is late enough when its slot is no earlier than any timestamp issued in earlier lives. */
  predicate LateBoot(s: Server, op: Op) {
    op.Boot? ==> BoundsIssued(s, Physical(op.reading))
  }

  predicate LateBoots(s: Server, ops: seq<Op>, maxOffset: nat) {
    forall n :: 0 <= n < |ops| ==> LateBoot(Run(s, ops[..n], maxOffset), ops[n])
  }

  lemma {:induction false} StepSound(s: Server, op: Op, maxOffset: nat)
    requires Sound(s) && LateBoot(s, op)
    ensures Sound(Step(s, op, maxOffset))
    ensures s.issued <= Step(s, op, maxOffset).issued
  {
    match op {
      case Boot(_) =>
      case Issue(wall) => var k := NowAdvances(s.clock, maxOffset, wall);
      case Receive(incoming, check, wall) => UpdateAdvances(s.clock, maxOffset, incoming, check, wall);
    }
  }

  lemma {:induction false} RunSound(s: Server, ops: seq<Op>, maxOffset: nat)
    requires Sound(s) && LateBoots(s, ops, maxOffset)
    ensures Sound(Run(s, ops, maxOffset))
  {
    if ops != [] {
      var front := ops[..|ops| - 1];
      forall n | 0 <= n < |front| ensures LateBoot(Run(s, front[..n], maxOffset), front[n]) {
        assert front[..n] == ops[..n];
      }
      RunSound(s, front, maxOffset);
      StepSound(Run(s, front, maxOffset), ops[|ops| - 1], maxOffset);
    }
  }

  /**
   * With late enough boots a server never issues a timestamp twice, however updates push it ahead and however
   * its wall clock jumps inside one life. Pairs (server id, timestamp) are then unique across the cluster.
   */
  lemma {:induction false} NeverIssuedTwice(ops: seq<Op>, maxOffset: nat)
    requires LateBoots(FRESH, ops, maxOffset)
    ensures Increasing(Run(FRESH, ops, maxOffset).issued)
  {
    RunSound(FRESH, ops, maxOffset);
  }

  /** A boot in a later slot than every earlier issue is late enough: issues carry the slot of a past reading. */
  lemma {:induction false} LaterSlotIsLate(s: Server, reading: nat)
    requires forall i :: 0 <= i < |s.issued| ==> Physical(s.issued[i]) < Physical(reading)
    ensures LateBoot(s, Boot(reading))
  {
    forall i | 0 <= i < |s.issued| ensures s.issued[i] <= Physical(reading) {
      MultiplesApart(Physical(s.issued[i]), Physical(reading));
    }
  }

  // ---- what one life can issue, exactly

  predicate OneLife(ops: seq<Op>) {
    forall i :: 0 <= i < |ops| ==> !ops[i].Boot?
  }

  /** A server whose clock stands at `c`, with nothing issued yet. */
  function Life(c: Clock): Server {
    Server(true, c, 0, [])
  }

  lemma {:induction false} IssuesOnlyAbove(c: Clock, ops: seq<Op>, maxOffset: nat)
    requires c.WellFormed() && OneLife(ops)
    ensures Run(Life(c), ops, maxOffset).clock.WellFormed()
    ensures Run(Life(c), ops, maxOffset).clock.Packed() >= c.Packed()
    ensures forall t :: t in Run(Life(c), ops, maxOffset).issued ==> t > c.Packed()
  {
    if ops != [] {
      IssuesOnlyAbove(c, ops[..|ops| - 1], maxOffset);
      var s := Run(Life(c), ops[..|ops| - 1], maxOffset);
      match ops[|ops| - 1] {
        case Issue(wall) => var k := NowAdvances(s.clock, maxOffset, wall);
        case Receive(incoming, check, wall) => UpdateAdvances(s.clock, maxOffset, incoming, check, wall);
      }
    }
  }

  function Repeat(reading: nat, n: nat): (ops: seq<Op>)
    ensures |ops| == n && OneLife(ops)
  {
    seq(n, _ => Issue([reading, reading, reading]))
  }

  lemma {:induction false} CountUp(s: Server, p: nat, n: nat, maxOffset: nat)
    requires s.up && s.clock.WellFormed() && s.clock == Clock(p, 0) && n <= LOGICAL_MAX
    ensures Run(s, Repeat(p, n), maxOffset).up && Run(s, Repeat(p, n), maxOffset).clock == Clock(p, n)
    ensures s.issued <= Run(s, Repeat(p, n), maxOffset).issued
    ensures n > 0 ==> p + n in Run(s, Repeat(p, n), maxOffset).issued
  {
    OffsetInSlot(p, 0);
    if n > 0 {
      CountUp(s, p, n - 1, maxOffset);
      assert Repeat(p, n)[..n - 1] == Repeat(p, n - 1);
    }
  }

  lemma {:induction false} RunFirst(s: Server, op: Op, ops: seq<Op>, maxOffset: nat)
    ensures Run(s, [op] + ops, maxOffset) == Run(Step(s, op, maxOffset), ops, maxOffset)
  {
    var all := [op] + ops;
    if ops == [] {
      assert all[..0] == [] && all == [op];
      assert Run(s, all[..0], maxOffset) == s;
    } else {
      assert all[..|all| - 1] == [op] + ops[..|ops| - 1];
      RunFirst(s, op, ops[..|ops| - 1], maxOffset);
    }
  }

  lemma {:induction false} CanIssue(slot: nat, t: nat, maxOffset: nat) returns (ops: seq<Op>)
    requires slot % SLOT == 0 && t > slot
    ensures OneLife(ops) && t in Run(Life(Clock(slot, 0)), ops, maxOffset).issued
  {
    var s, p, l := Life(Clock(slot, 0)), Physical(t), Logical(t);
    SplitPack(t);
    OffsetInSlot(p, 0);
    if p == slot {
      ops := Repeat(p, l);
      CountUp(s, p, l, maxOffset);
    } else {
      if p < slot {
        MultiplesApart(p, slot);
      }
      var first := Issue([p, p, p]);
      ops := [first] + Repeat(p, l);
      RunFirst(s, first, Repeat(p, l), maxOffset);
      CountUp(Step(s, first, maxOffset), p, l, maxOffset);
    }
  }

  /** What a life issues depends only on where its clock starts. */
  lemma {:induction false} LifeAppends(s: Server, ops: seq<Op>, maxOffset: nat)
    requires s.up && OneLife(ops)
    ensures var r, q := Run(s, ops, maxOffset), Run(Life(s.clock), ops, maxOffset);
            r.up == q.up && r.clock == q.clock && r.issued == s.issued + q.issued
  {
    if ops != [] {
      LifeAppends(s, ops[..|ops| - 1], maxOffset);
    }
  }

  /** A boot that is not late enough has a continuation that issues some timestamp a second time. */
  lemma {:induction false} EarlyBootRepeats(s: Server, reading: nat, maxOffset: nat) returns (ops: seq<Op>)
    requires !LateBoot(s, Boot(reading))
    ensures OneLife(ops)
    ensures var issued := Run(Step(s, Boot(reading), maxOffset), ops, maxOffset).issued;
            exists i, j :: 0 <= i < j < |issued| && issued[i] == issued[j]
  {
    var i :| 0 <= i < |s.issued| && s.issued[i] > Physical(reading);
    var t := s.issued[i];
    ops := CanIssue(Physical(reading), t, maxOffset);
    var b := Step(s, Boot(reading), maxOffset);
    LifeAppends(b, ops, maxOffset);
    var later := Run(Life(b.clock), ops, maxOffset).issued;
    var j :| 0 <= j < |later| && later[j] == t;
    var issued := Run(b, ops, maxOffset).issued;
    assert issued[i] == t && issued[|s.issued| + j] == t;
  }

  /**
   * A life that boots in a given slot can issue a timestamp exactly when it lies above that slot. So `LateBoot`
   * is not just enough but exact: any earlier boot can repeat a timestamp of an earlier life.
   */
  lemma {:induction false} LifeIssuesExactly(reading: nat, t: nat, maxOffset: nat)
    ensures t > Physical(reading) <==>
            exists ops :: OneLife(ops) && t in Run(Life(Clock(Physical(reading), 0)), ops, maxOffset).issued
  {
    var c := Clock(Physical(reading), 0);
    if t > Physical(reading) {
      var ops := CanIssue(Physical(reading), t, maxOffset);
    }
    forall ops | OneLife(ops) ensures t in Run(Life(c), ops, maxOffset).issued ==> t > Physical(reading) {
      IssuesOnlyAbove(c, ops, maxOffset);
    }
  }

  // ---- a wall clock that never goes back

  predicate Nondecreasing(xs: seq<nat>) {
    forall i, j :: 0 <= i < j < |xs| ==> xs[i] <= xs[j]
  }

  /** The readings of `op` continue from the latest one without going back. */
  predicate Honest(s: Server, op: Op) {
    match op
    case Boot(reading) => s.last <= reading
    case Issue(wall) => Nondecreasing([s.last] + wall)
    case Receive(_, check, wall) => Nondecreasing([s.last, check] + wall)
  }

  predicate HonestRun(s: Server, ops: seq<Op>, maxOffset: nat) {
    forall n :: 0 <= n < |ops| ==> Honest(Run(s, ops[..n], maxOffset), ops[n])
  }

  predicate WithinOffset(s: Server, maxOffset: nat) {
    s.clock.WellFormed() && (s.up ==> s.clock.physical <= Physical(s.last) + maxOffset)
  }

  lemma {:induction false} NoBackwardJump(c: Clock, maxOffset: nat, last: nat, wall: Wall, attempt: nat)
    requires c.physical <= Physical(last) + maxOffset && Nondecreasing([last] + wall) && attempt <= MAX_RETRIES
    ensures NowFrom(c, maxOffset, wall, attempt) != Shutdown(BackwardJump)
    decreases MAX_RETRIES - attempt
  {
    if attempt < MAX_RETRIES {
      assert ([last] + wall)[0] <= ([last] + wall)[attempt + 1];
      PhysicalMonotone(last, wall[attempt]);
      NoBackwardJump(c, maxOffset, last, wall, attempt + 1);
    }
  }

  lemma {:induction false} UpdateWithinOffset(c: Clock, incoming: nat, top: nat, last: nat, wall: Wall, attempt: nat)
    requires attempt <= MAX_RETRIES && c.physical <= top && Physical(incoming) <= top
    requires Physical(last) <= top && forall i :: 0 <= i < MAX_RETRIES ==> wall[i] <= last
    ensures UpdateFrom(c, incoming, wall, attempt).Advanced? ==>
              UpdateFrom(c, incoming, wall, attempt).clock.physical <= top
    decreases MAX_RETRIES - attempt
  {
    if attempt < MAX_RETRIES {
      PhysicalMonotone(wall[attempt], last);
      UpdateWithinOffset(c, incoming, top, last, wall, attempt + 1);
    }
  }

  lemma {:induction false} IssueWithinOffset(s: Server, wall: Wall, maxOffset: nat)
    requires WithinOffset(s, maxOffset) && Honest(s, Issue(wall))
    ensures WithinOffset(Step(s, Issue(wall), maxOffset), maxOffset)
  {
    var k := NowAdvances(s.clock, maxOffset, wall);
    var all := [s.last] + wall;
    assert all[0] == s.last && forall i :: 0 <= i < MAX_RETRIES ==> all[i + 1] == wall[i];
    if k < MAX_RETRIES {
      PhysicalMonotone(wall[k], wall[2]);
    }
    PhysicalMonotone(s.last, wall[2]);
  }

  lemma {:induction false} ReceiveWithinOffset(s: Server, incoming: nat, check: nat, wall: Wall, maxOffset: nat)
    requires WithinOffset(s, maxOffset) && Honest(s, Receive(incoming, check, wall)) && s.up
    ensures WithinOffset(Step(s, Receive(incoming, check, wall), maxOffset), maxOffset)
  {
    UpdateAdvances(s.clock, maxOffset, incoming, check, wall);
    var all := [s.last, check] + wall;
    assert all[0] == s.last && all[1] == check && forall i :: 0 <= i < MAX_RETRIES ==> all[i + 2] == wall[i];
    PhysicalMonotone(s.last, wall[2]);
    PhysicalMonotone(check, wall[2]);
    if !TooFarAhead(maxOffset, incoming, check) {
      UpdateWithinOffset(s.clock, incoming, Physical(wall[2]) + maxOffset, wall[2], wall, 0);
    }
  }

  lemma {:induction false} AlwaysWithinOffset(ops: seq<Op>, maxOffset: nat)
    requires HonestRun(FRESH, ops, maxOffset)
    ensures WithinOffset(Run(FRESH, ops, maxOffset), maxOffset)
  {
    if ops != [] {
      var front, op := ops[..|ops| - 1], ops[|ops| - 1];
      assert HonestRun(FRESH, front, maxOffset) by {
        forall n | 0 <= n < |front| ensures Honest(Run(FRESH, front[..n], maxOffset), front[n]) {
          assert front[..n] == ops[..n];
        }
      }
      AlwaysWithinOffset(front, maxOffset);
      var s := Run(FRESH, front, maxOffset);
      if s.up {
        match op {
          case Boot(_) =>
          case Issue(wall) => IssueWithinOffset(s, wall, maxOffset);
          case Receive(incoming, check, wall) => ReceiveWithinOffset(s, incoming, check, wall, maxOffset);
        }
      }
    }
  }

  /**
   * On a wall clock that never goes back, across any boots and any incoming timestamps, the clock stays within
   * the allowed offset of the wall clock and the backward jump shutdown cannot happen.
   */
  lemma {:induction false} BackwardJumpUnreachable(ops: seq<Op>, wall: Wall, maxOffset: nat)
    requires HonestRun(FRESH, ops, maxOffset) && Honest(Run(FRESH, ops, maxOffset), Issue(wall))
    requires Run(FRESH, ops, maxOffset).up
    ensures NowOf(Run(FRESH, ops, maxOffset).clock, maxOffset, wall) != Shutdown(BackwardJump)
  {
    AlwaysWithinOffset(ops, maxOffset);
    var s := Run(FRESH, ops, maxOffset);
    NoBackwardJump(s.clock, maxOffset, s.last, wall, 0);
  }

  // ---- what becomes of a server

  /** A boot brings the server up in the slot of its reading; what it has issued before stays issued. */
  lemma {:induction false} BootBringsUp(s: Server, reading: nat, maxOffset: nat)
    ensures var v := Step(s, Boot(reading), maxOffset);
            v.up && v.clock.physical == reading / SLOT * SLOT && v.clock.logical == 0 && v.issued == s.issued
  {
  }

  /** A timestamp too far ahead is refused and does no harm: the server stays up, its clock and issues as they were. */
  lemma {:induction false} RefusalIsHarmless(s: Server, incoming: nat, check: nat, wall: Wall, maxOffset: nat)
    requires s.up && incoming / SLOT * SLOT > check / SLOT * SLOT + maxOffset
    ensures Step(s, Receive(incoming, check, wall), maxOffset) == s.(last := wall[2])
  {
    RangeExact(s.clock, maxOffset, incoming, check, wall);
  }

  /** One within the offset is accepted if room is left: the server stays up, above it, and issues nothing. */
  lemma {:induction false} AcceptedMovesOn(s: Server, incoming: nat, check: nat, wall: Wall, maxOffset: nat)
    requires s.up && s.clock.WellFormed() && incoming / SLOT * SLOT <= check / SLOT * SLOT + maxOffset
    requires RoomLeft(s.clock, incoming)
    ensures var v := Step(s, Receive(incoming, check, wall), maxOffset);
            v.up && v.clock.Packed() > s.clock.Packed() && v.clock.Packed() > incoming && v.issued == s.issued
  {
    RangeExact(s.clock, maxOffset, incoming, check, wall);
    UpdateAdvances(s.clock, maxOffset, incoming, check, wall);
  }

  /** An issue on a wall clock that has moved on goes on record as the clock's new value. */
  lemma {:induction false} IssueGoesOnRecord(s: Server, wall: Wall, maxOffset: nat)
    requires s.up && s.clock.WellFormed() && wall[0] / SLOT * SLOT > s.clock.physical
    ensures var v := Step(s, Issue(wall), maxOffset);
            v.up && v.clock == Clock(wall[0] / SLOT * SLOT, 0) && v.issued == s.issued + [wall[0] / SLOT * SLOT]
  {
  }

  /** A server that is down stays as it is until it boots. */
  lemma {:induction false} DownStaysDown(s: Server, ops: seq<Op>, maxOffset: nat)
    requires !s.up && forall i :: 0 <= i < |ops| ==> !ops[i].Boot?
    ensures Run(s, ops, maxOffset) == s
  {
    if ops != [] {
      DownStaysDown(s, ops[..|ops| - 1], maxOffset);
    }
  }
}
