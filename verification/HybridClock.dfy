/**
 * The hybrid logical clock of one server. A packed timestamp holds 48 physical bits, a wall clock reading
 * rounded down to a slot of 2^16 ns, and 16 logical bits. The wall clock is a parameter: every call is given
 * the nanosecond readings it would take, one per attempt, so all that is proved holds for every wall clock.
 */
module HybridClock {
  import opened Options

  const SLOT: nat := 0x1_0000
  const LOGICAL_MAX: nat := 0xFFFF
  const MAX_RETRIES: nat := 3

  /** Rounds down to a slot, as masking out the logical bits does. */
  function Physical(timestamp: nat): (p: nat)
    ensures p % SLOT == 0 && p <= timestamp < p + SLOT
  {
    timestamp / SLOT * SLOT
  }

  function Logical(timestamp: nat): nat {
    timestamp % SLOT
  }

  datatype Clock = Clock(physical: nat, logical: nat) {
    predicate WellFormed() {
      physical % SLOT == 0 && logical <= LOGICAL_MAX
    }

    /** The 64-bit form. The two parts share no bit, so "or" is addition. */
    function Packed(): nat {
      physical + logical
    }
  }

  datatype Cause = BackwardJump | TooManyAttempts

  datatype Outcome =
    | Advanced(clock: Clock)
    | OutOfRange
    | Shutdown(cause: Cause)

  type Wall = w: seq<nat> | |w| == MAX_RETRIES witness [0, 0, 0]

  lemma {:induction false} MultiplesApart(a: nat, b: nat)
    requires a % SLOT == 0 && b % SLOT == 0 && a < b
    ensures a + SLOT <= b
  {
  }

  lemma {:induction false} PackOrder(a: Clock, b: Clock)
    requires a.WellFormed() && b.WellFormed()
    ensures a.Packed() < b.Packed() <==>
            a.physical < b.physical || (a.physical == b.physical && a.logical < b.logical)
    ensures a.Packed() == b.Packed() <==> a == b
  {
    if a.physical < b.physical {
      MultiplesApart(a.physical, b.physical);
    } else if b.physical < a.physical {
      MultiplesApart(b.physical, a.physical);
    }
  }

  lemma {:induction false} PackSplit(c: Clock)
    requires c.WellFormed()
    ensures Physical(c.Packed()) == c.physical && Logical(c.Packed()) == c.logical
  {
    var p, q := Physical(c.Packed()), c.physical;
    if p < q {
      MultiplesApart(p, q);
    } else if q < p {
      MultiplesApart(q, p);
    }
  }

  lemma {:induction false} SplitPack(timestamp: nat)
    ensures Clock(Physical(timestamp), Logical(timestamp)).WellFormed()
    ensures Clock(Physical(timestamp), Logical(timestamp)).Packed() == timestamp
  {
  }

  // ---- the two operations, as functions of the readings

  /** `Now` from the given attempt on; the clock is unchanged until an attempt succeeds. */
  function NowFrom(c: Clock, maxOffset: nat, wall: Wall, attempt: nat): Outcome
    requires attempt <= MAX_RETRIES
    decreases MAX_RETRIES - attempt
  {
    if attempt == MAX_RETRIES then Shutdown(TooManyAttempts)
    else
      var now := Physical(wall[attempt]);
      if now > c.physical then Advanced(Clock(now, 0))
      else if now < c.physical then
        if c.physical - now > maxOffset then Shutdown(BackwardJump) else NowFrom(c, maxOffset, wall, attempt + 1)
      else if c.logical == LOGICAL_MAX then NowFrom(c, maxOffset, wall, attempt + 1)
      else Advanced(Clock(c.physical, c.logical + 1))
  }

  function NowOf(c: Clock, maxOffset: nat, wall: Wall): Outcome {
    NowFrom(c, maxOffset, wall, 0)
  }

  function Max(a: nat, b: nat): nat {
    if a >= b then a else b
  }

  /** The logical part an incoming timestamp forces on a clock that moves to `physical`. */
  function NextLogical(c: Clock, incoming: nat, physical: nat): nat {
    if physical == c.physical && physical == Physical(incoming) then Max(c.logical, Logical(incoming)) + 1
    else if physical == c.physical then c.logical + 1
    else if physical == Physical(incoming) then Logical(incoming) + 1
    else 0
  }

  function UpdateFrom(c: Clock, incoming: nat, wall: Wall, attempt: nat): Outcome
    requires attempt <= MAX_RETRIES
    decreases MAX_RETRIES - attempt
  {
    if attempt == MAX_RETRIES then Shutdown(TooManyAttempts)
    else
      var physical := Max(Max(c.physical, Physical(incoming)), Physical(wall[attempt]));
      var logical := NextLogical(c, incoming, physical);
      if logical > LOGICAL_MAX then UpdateFrom(c, incoming, wall, attempt + 1)
      else Advanced(Clock(physical, logical))
  }

  predicate TooFarAhead(maxOffset: nat, incoming: nat, check: nat) {
    Physical(incoming) > Physical(check) && Physical(incoming) - Physical(check) > maxOffset
  }

  /** `Update`: the range check takes the reading `check`, then the attempts take theirs. */
  function UpdateOf(c: Clock, maxOffset: nat, incoming: nat, check: nat, wall: Wall): Outcome {
    if TooFarAhead(maxOffset, incoming, check) then OutOfRange else UpdateFrom(c, incoming, wall, 0)
  }

  // ---- what one call guarantees

  lemma {:induction false} NowFromAdvances(c: Clock, maxOffset: nat, wall: Wall, attempt: nat) returns (k: nat)
    requires c.WellFormed() && attempt <= MAX_RETRIES
    ensures NowFrom(c, maxOffset, wall, attempt).Advanced? ==>
              var d := NowFrom(c, maxOffset, wall, attempt).clock;
              d.WellFormed() && d.Packed() > c.Packed() && k < MAX_RETRIES && d.physical == Physical(wall[k])
    decreases MAX_RETRIES - attempt
  {
    k := attempt;
    if attempt < MAX_RETRIES {
      var now := Physical(wall[attempt]);
      if now > c.physical {
        PackOrder(c, Clock(now, 0));
      } else if now < c.physical || c.logical == LOGICAL_MAX {
        k := NowFromAdvances(c, maxOffset, wall, attempt + 1);
      }
    }
  }

  /** Issued timestamps grow, and the physical part of each is a wall clock reading taken inside its own call. */
  lemma {:induction false} NowAdvances(c: Clock, maxOffset: nat, wall: Wall) returns (k: nat)
    requires c.WellFormed()
    ensures NowOf(c, maxOffset, wall).Advanced? ==>
              var d := NowOf(c, maxOffset, wall).clock;
              d.WellFormed() && d.Packed() > c.Packed() && k < MAX_RETRIES && d.physical == Physical(wall[k])
  {
    k := NowFromAdvances(c, maxOffset, wall, 0);
  }

  lemma {:induction false} UpdateFromAdvances(c: Clock, incoming: nat, wall: Wall, attempt: nat)
    requires c.WellFormed() && attempt <= MAX_RETRIES
    ensures UpdateFrom(c, incoming, wall, attempt).Advanced? ==>
              var d := UpdateFrom(c, incoming, wall, attempt).clock;
              d.WellFormed() && d.Packed() > c.Packed() && d.Packed() > incoming
    decreases MAX_RETRIES - attempt
  {
    if attempt < MAX_RETRIES {
      var physical := Max(Max(c.physical, Physical(incoming)), Physical(wall[attempt]));
      var logical := NextLogical(c, incoming, physical);
      if logical > LOGICAL_MAX {
        UpdateFromAdvances(c, incoming, wall, attempt + 1);
      } else {
        SplitPack(incoming);
        PackOrder(c, Clock(physical, logical));
        PackOrder(Clock(Physical(incoming), Logical(incoming)), Clock(physical, logical));
      }
    }
  }

  /** An accepted timestamp leaves the clock above both its old value and the timestamp. */
  lemma {:induction false} UpdateAdvances(c: Clock, maxOffset: nat, incoming: nat, check: nat, wall: Wall)
    requires c.WellFormed()
    ensures UpdateOf(c, maxOffset, incoming, check, wall).Advanced? ==>
              var d := UpdateOf(c, maxOffset, incoming, check, wall).clock;
              d.WellFormed() && d.Packed() > c.Packed() && d.Packed() > incoming
  {
    UpdateFromAdvances(c, incoming, wall, 0);
  }

  // ---- progress, when sleeping lasts at least as long as asked

  function SleepAfter(c: Clock, reading: nat): nat {
    if Physical(reading) < c.physical then c.physical - Physical(reading) else SLOT / 2
  }

  /** Readings a call to `Now` may see from `start` on if the clock never goes back and sleeps are honoured. */
  predicate NowReadings(c: Clock, start: nat, wall: Wall) {
    wall[0] == start &&
    (forall i :: 0 < i < MAX_RETRIES ==> wall[i] >= wall[i - 1] + SleepAfter(c, wall[i - 1]))
  }

  predicate NowMustSucceed(c: Clock, start: nat) {
    c.physical <= Physical(start) || c.logical < LOGICAL_MAX || Logical(start) >= SLOT / 2
  }

  lemma {:induction false} TwoHalfSlotsCross(a: nat, b: nat)
    requires b >= a + SLOT
    ensures Physical(b) > Physical(a)
  {
  }

  lemma {:induction false} CaughtUp(c: Clock, a: nat, b: nat)
    requires c.physical % SLOT == 0 && Physical(a) < c.physical && b >= a + (c.physical - Physical(a))
    ensures Physical(b) >= c.physical
  {
    if Physical(b) < c.physical {
      MultiplesApart(Physical(b), c.physical);
    }
  }

  lemma {:induction false} OffsetInSlot(p: nat, offset: nat)
    requires p % SLOT == 0 && offset < SLOT
    ensures Physical(p + offset) == p
  {
    PackSplit(Clock(p, offset));
  }

  /** Waking in the second half of a slot, another half-slot sleep leaves it. */
  lemma {:induction false} LateInSlotCrosses(c: Clock, first: nat, second: nat, third: nat)
    requires c.WellFormed() && Physical(first) < c.physical == Physical(second) && Logical(first) >= SLOT / 2
    requires second >= first + (c.physical - Physical(first)) && third >= second + SLOT / 2
    ensures Physical(third) > c.physical
  {
    assert first == Physical(first) + Logical(first);
    assert third >= c.physical + SLOT;
  }

  lemma {:induction false} NowSucceeds(c: Clock, maxOffset: nat, start: nat, wall: Wall)
    requires c.WellFormed() && c.physical <= Physical(start) + maxOffset
    requires NowReadings(c, start, wall) && NowMustSucceed(c, start)
    ensures NowOf(c, maxOffset, wall).Advanced?
  {
    assert wall[1] >= wall[0] + SleepAfter(c, wall[0]);
    assert wall[2] >= wall[1] + SleepAfter(c, wall[1]);
    if Physical(wall[0]) < c.physical {
      CaughtUp(c, wall[0], wall[1]);
      if Physical(wall[1]) == c.physical && c.logical == LOGICAL_MAX {
        LateInSlotCrosses(c, wall[0], wall[1], wall[2]);
        assert NowFrom(c, maxOffset, wall, 2).Advanced?;
      }
      assert NowFrom(c, maxOffset, wall, 1).Advanced?;
    } else if Physical(wall[0]) == c.physical && c.logical == LOGICAL_MAX {
      assert Physical(wall[1]) >= c.physical;
      if Physical(wall[1]) == c.physical {
        TwoHalfSlotsCross(wall[0], wall[2]);
        assert NowFrom(c, maxOffset, wall, 2).Advanced?;
      }
      assert NowFrom(c, maxOffset, wall, 1).Advanced?;
    }
  }

  /** Behind the clock's own physical part with no logical room left, three attempts need not be enough. */
  lemma {:induction false} NowCanRunOut(c: Clock, maxOffset: nat, start: nat) returns (wall: Wall)
    requires c.WellFormed() && c.physical <= Physical(start) + maxOffset && !NowMustSucceed(c, start)
    ensures NowReadings(c, start, wall) && NowOf(c, maxOffset, wall) == Shutdown(TooManyAttempts)
  {
    wall := [start, c.physical + Logical(start), c.physical + Logical(start) + SLOT / 2];
    assert NowFrom(c, maxOffset, wall, 2) == Shutdown(TooManyAttempts) by {
      OffsetInSlot(c.physical, Logical(start) + SLOT / 2);
    }
    assert NowFrom(c, maxOffset, wall, 1) == Shutdown(TooManyAttempts) by {
      OffsetInSlot(c.physical, Logical(start));
    }
  }

  /**
   * Exact progress of `Now` on an honest wall clock that the clock is not too far ahead of: it succeeds on all
   * readings from `start` exactly when the wall clock has reached the physical part, logical room is left, or it
   * starts late in a slot.
   */
  lemma {:induction false} NowProgressExact(c: Clock, maxOffset: nat, start: nat)
    requires c.WellFormed() && c.physical <= Physical(start) + maxOffset
    ensures NowMustSucceed(c, start) <==>
            forall wall: Wall :: NowReadings(c, start, wall) ==> NowOf(c, maxOffset, wall).Advanced?
  {
    if NowMustSucceed(c, start) {
      forall wall: Wall | NowReadings(c, start, wall) ensures NowOf(c, maxOffset, wall).Advanced? {
        NowSucceeds(c, maxOffset, start, wall);
      }
    } else {
      var wall := NowCanRunOut(c, maxOffset, start);
      assert !NowOf(c, maxOffset, wall).Advanced?;
    }
  }

  function Ahead(c: Clock, incoming: nat): nat {
    Max(c.physical, Physical(incoming))
  }

  /** Readings the attempts of `Update` may see: each failed attempt sleeps half a slot. */
  predicate UpdateReadings(start: nat, wall: Wall) {
    wall[0] == start && (forall i :: 0 < i < MAX_RETRIES ==> wall[i] >= wall[i - 1] + SLOT / 2)
  }

  predicate UpdateMustSucceed(c: Clock, incoming: nat, start: nat) {
    Ahead(c, incoming) <= Physical(start) || NextLogical(c, incoming, Ahead(c, incoming)) <= LOGICAL_MAX
  }

  lemma {:induction false} UpdateSucceeds(c: Clock, incoming: nat, start: nat, wall: Wall)
    requires c.WellFormed() && UpdateReadings(start, wall) && UpdateMustSucceed(c, incoming, start)
    ensures UpdateFrom(c, incoming, wall, 0).Advanced?
  {
    assert wall[1] >= wall[0] + SLOT / 2 && wall[2] >= wall[1] + SLOT / 2;
    if !UpdateFrom(c, incoming, wall, 0).Advanced? {
      TwoHalfSlotsCross(wall[0], wall[2]);
      assert UpdateFrom(c, incoming, wall, 2).Advanced?;
      assert UpdateFrom(c, incoming, wall, 1).Advanced?;
    }
  }

  lemma {:induction false} UpdateCanRunOut(c: Clock, incoming: nat, start: nat) returns (wall: Wall)
    requires c.WellFormed() && !UpdateMustSucceed(c, incoming, start)
    ensures UpdateReadings(start, wall) && UpdateFrom(c, incoming, wall, 0) == Shutdown(TooManyAttempts)
  {
    wall := [start, start + SLOT / 2, start + SLOT];
    MultiplesApart(Physical(start), Ahead(c, incoming));
    OffsetInSlot(Physical(start) + SLOT, Logical(start));
    assert Physical(wall[2]) <= Ahead(c, incoming);
    assert UpdateFrom(c, incoming, wall, 2) == Shutdown(TooManyAttempts);
    assert Physical(wall[1]) <= Ahead(c, incoming) by {
      if Physical(wall[1]) > Ahead(c, incoming) {
        MultiplesApart(Ahead(c, incoming), Physical(wall[1]));
      }
    }
    assert UpdateFrom(c, incoming, wall, 1) == Shutdown(TooManyAttempts);
  }

  /** The attempts of `Update` succeed on all honest readings exactly when nothing is ahead or logical room is left. */
  lemma {:induction false} UpdateProgressExact(c: Clock, incoming: nat, start: nat)
    requires c.WellFormed()
    ensures UpdateMustSucceed(c, incoming, start) <==>
            forall wall: Wall :: UpdateReadings(start, wall) ==> UpdateFrom(c, incoming, wall, 0).Advanced?
  {
    if UpdateMustSucceed(c, incoming, start) {
      forall wall: Wall | UpdateReadings(start, wall) ensures UpdateFrom(c, incoming, wall, 0).Advanced? {
        UpdateSucceeds(c, incoming, start, wall);
      }
    } else {
      var wall := UpdateCanRunOut(c, incoming, start);
      assert !UpdateFrom(c, incoming, wall, 0).Advanced?;
    }
  }

  // ---- exactly which timestamps are accepted, and what becomes of the clock

  lemma {:induction false} AttemptsNotOutOfRange(c: Clock, incoming: nat, wall: Wall, attempt: nat)
    requires attempt <= MAX_RETRIES
    ensures UpdateFrom(c, incoming, wall, attempt) != OutOfRange
    decreases MAX_RETRIES - attempt
  {
    if attempt < MAX_RETRIES {
      AttemptsNotOutOfRange(c, incoming, wall, attempt + 1);
    }
  }

  /** A timestamp is refused exactly if its slot lies further ahead of the reading's than the offset allows. */
  lemma {:induction false} RangeExact(c: Clock, maxOffset: nat, incoming: nat, check: nat, wall: Wall)
    ensures UpdateOf(c, maxOffset, incoming, check, wall) == OutOfRange <==>
            incoming / SLOT * SLOT > check / SLOT * SLOT + maxOffset
  {
    AttemptsNotOutOfRange(c, incoming, wall, 0);
  }

  /** Of the clock and the timestamp, whichever is ahead has a logical part that can still grow. */
  predicate RoomLeft(c: Clock, incoming: nat) {
    (c.physical >= incoming / SLOT * SLOT ==> c.logical < LOGICAL_MAX) &&
    (c.physical <= incoming / SLOT * SLOT ==> incoming % SLOT < LOGICAL_MAX)
  }

  lemma {:induction false} RoomExact(c: Clock, incoming: nat)
    requires c.WellFormed()
    ensures NextLogical(c, incoming, Ahead(c, incoming)) <= LOGICAL_MAX <==> RoomLeft(c, incoming)
  {
  }

  /**
   * The whole of `Update`, the range check and the attempts: it accepts a timestamp on all honest readings exactly if
   * it is within the offset, and room is left or the wall clock has caught up with both sides.
   */
  lemma {:induction false} AcceptExact(c: Clock, maxOffset: nat, incoming: nat, check: nat, start: nat)
    requires c.WellFormed()
    ensures (forall wall: Wall :: UpdateReadings(start, wall) ==>
               UpdateOf(c, maxOffset, incoming, check, wall).Advanced?) <==>
            incoming / SLOT * SLOT <= check / SLOT * SLOT + maxOffset &&
            (RoomLeft(c, incoming) ||
             (c.physical <= start / SLOT * SLOT && incoming / SLOT * SLOT <= start / SLOT * SLOT))
  {
    RoomExact(c, incoming);
    UpdateProgressExact(c, incoming, start);
    var honest: Wall := [start, start + SLOT / 2, start + SLOT];
    assert UpdateReadings(start, honest);
    RangeExact(c, maxOffset, incoming, check, honest);
    if !TooFarAhead(maxOffset, incoming, check) {
      forall wall: Wall | UpdateReadings(start, wall)
        ensures UpdateOf(c, maxOffset, incoming, check, wall) == UpdateFrom(c, incoming, wall, 0)
      {
      }
    }
  }

  /** No well-formed clock from the slot `from` on lies above both values and below `d`. */
  ghost predicate LeastAbove(d: Clock, low: nat, incoming: nat, from: nat) {
    d.WellFormed() && d.physical >= from && d.Packed() > low && d.Packed() > incoming &&
    forall e: Clock :: e.WellFormed() && e.physical >= from && e.Packed() > low && e.Packed() > incoming ==>
      d.Packed() <= e.Packed()
  }

  lemma {:induction false} NextIsLeast(c: Clock, incoming: nat, reading: nat)
    requires c.WellFormed()
    ensures var physical := Max(Max(c.physical, Physical(incoming)), Physical(reading));
            var d := Clock(physical, NextLogical(c, incoming, physical));
            d.logical <= LOGICAL_MAX ==> LeastAbove(d, c.Packed(), incoming, Physical(reading))
  {
    var physical := Max(Max(c.physical, Physical(incoming)), Physical(reading));
    var d, i := Clock(physical, NextLogical(c, incoming, physical)), Clock(Physical(incoming), Logical(incoming));
    SplitPack(incoming);
    if d.logical <= LOGICAL_MAX {
      PackOrder(c, d);
      PackOrder(i, d);
      forall e: Clock |
        e.WellFormed() && e.physical >= Physical(reading) && e.Packed() > c.Packed() && e.Packed() > incoming
        ensures d.Packed() <= e.Packed()
      {
        PackOrder(c, e);
        PackOrder(i, e);
        PackOrder(e, d);
      }
    }
  }

  lemma {:induction false} AttemptsLeast(c: Clock, incoming: nat, wall: Wall, attempt: nat) returns (k: nat)
    requires c.WellFormed() && attempt <= MAX_RETRIES
    ensures UpdateFrom(c, incoming, wall, attempt).Advanced? ==>
              attempt <= k < MAX_RETRIES &&
              LeastAbove(UpdateFrom(c, incoming, wall, attempt).clock, c.Packed(), incoming, Physical(wall[k]))
    decreases MAX_RETRIES - attempt
  {
    k := attempt;
    if attempt < MAX_RETRIES {
      NextIsLeast(c, incoming, wall[attempt]);
      var physical := Max(Max(c.physical, Physical(incoming)), Physical(wall[attempt]));
      if NextLogical(c, incoming, physical) > LOGICAL_MAX {
        k := AttemptsLeast(c, incoming, wall, attempt + 1);
      }
    }
  }

  /** An accepted timestamp moves the clock no further than it must: to the least value above both sides. */
  lemma {:induction false} UpdateIsLeast(c: Clock, maxOffset: nat, incoming: nat, check: nat, wall: Wall)
    returns (k: nat)
    requires c.WellFormed()
    ensures UpdateOf(c, maxOffset, incoming, check, wall).Advanced? ==>
              k < MAX_RETRIES && LeastAbove(UpdateOf(c, maxOffset, incoming, check, wall).clock, c.Packed(), incoming,
                                            Physical(wall[k]))
  {
    k := AttemptsLeast(c, incoming, wall, 0);
  }

  lemma {:induction false} NowFromLeast(c: Clock, maxOffset: nat, wall: Wall, attempt: nat) returns (k: nat)
    requires c.WellFormed() && attempt <= MAX_RETRIES
    ensures NowFrom(c, maxOffset, wall, attempt).Advanced? ==>
              attempt <= k < MAX_RETRIES && NowFrom(c, maxOffset, wall, attempt).clock.physical == Physical(wall[k]) &&
              LeastAbove(NowFrom(c, maxOffset, wall, attempt).clock, c.Packed(), 0, Physical(wall[k]))
    decreases MAX_RETRIES - attempt
  {
    k := attempt;
    if attempt < MAX_RETRIES {
      var now := Physical(wall[attempt]);
      if now < c.physical || (now == c.physical && c.logical == LOGICAL_MAX) {
        k := NowFromLeast(c, maxOffset, wall, attempt + 1);
      } else {
        var d := if now > c.physical then Clock(now, 0) else Clock(now, c.logical + 1);
        PackOrder(c, d);
        forall e: Clock | e.WellFormed() && e.physical >= now && e.Packed() > c.Packed()
          ensures d.Packed() <= e.Packed()
        {
          PackOrder(c, e);
          PackOrder(e, d);
        }
      }
    }
  }

  /** An issued timestamp is the least one above the clock that carries a reading of the call. */
  lemma {:induction false} NowIsLeast(c: Clock, maxOffset: nat, wall: Wall) returns (k: nat)
    requires c.WellFormed()
    ensures NowOf(c, maxOffset, wall).Advanced? ==>
              k < MAX_RETRIES && NowOf(c, maxOffset, wall).clock.physical == Physical(wall[k]) &&
              LeastAbove(NowOf(c, maxOffset, wall).clock, c.Packed(), 0, Physical(wall[k]))
  {
    k := NowFromLeast(c, maxOffset, wall, 0);
  }

  /** A call of `Now` shuts the process down for a backward jump exactly if some reading it takes is too far back. */
  lemma {:induction false} BackwardJumpExact(c: Clock, maxOffset: nat, wall: Wall)
    ensures NowOf(c, maxOffset, wall) == Shutdown(BackwardJump) <==>
            exists k :: 0 <= k < MAX_RETRIES && Physical(wall[k]) + maxOffset < c.physical &&
              forall j :: 0 <= j < k ==> Stalls(c, maxOffset, wall[j])
  {
    JumpFrom(c, maxOffset, wall, 0);
  }

  /** The attempt neither advances nor gives up: the reading is behind, within the offset, or the slot is used up. */
  predicate Stalls(c: Clock, maxOffset: nat, reading: nat) {
    (Physical(reading) < c.physical && c.physical <= Physical(reading) + maxOffset) ||
    (Physical(reading) == c.physical && c.logical == LOGICAL_MAX)
  }

  lemma {:induction false} JumpFrom(c: Clock, maxOffset: nat, wall: Wall, attempt: nat)
    requires attempt <= MAX_RETRIES
    ensures NowFrom(c, maxOffset, wall, attempt) == Shutdown(BackwardJump) <==>
            exists k :: attempt <= k < MAX_RETRIES && Physical(wall[k]) + maxOffset < c.physical &&
              forall j :: attempt <= j < k ==> Stalls(c, maxOffset, wall[j])
    decreases MAX_RETRIES - attempt
  {
    if attempt < MAX_RETRIES {
      JumpFrom(c, maxOffset, wall, attempt + 1);
      if k :| attempt <= k < MAX_RETRIES && Physical(wall[k]) + maxOffset < c.physical &&
              forall j :: attempt <= j < k ==> Stalls(c, maxOffset, wall[j]) {
        assert k == attempt || Stalls(c, maxOffset, wall[attempt]);
      }
    }
  }

  // ---- the mutable clock

  lemma {:induction false} PhysicalMonotone(a: nat, b: nat)
    requires a <= b
    ensures Physical(a) <= Physical(b)
  {
    if Physical(a) > Physical(b) {
      MultiplesApart(Physical(b), Physical(a));
    }
  }

  datatype SleepResult = Passed | Canceled | Stopped

  /** The physical distance from `b` up to `a`; negative when `b` is later. */
  function Subtract(a: nat, b: nat): int {
    Physical(a) - Physical(b)
  }

  /** The clock after the first `n` rounds of `Now`; None if it shuts down in one of them. */
  function AfterRounds(c: Clock, maxOffset: nat, wall: nat -> Wall, n: nat): Option<Clock> {
    if n == 0 then Some(c)
    else
      match AfterRounds(c, maxOffset, wall, n - 1)
      case None => None
      case Some(d) =>
        var r := NowOf(d, maxOffset, wall(n - 1));
        if r.Advanced? then Some(r.clock) else None
  }

  /** After round `i` the clock is up, has not passed the deadline, and the context is not done. */
  predicate WaitsOn(c: Clock, maxOffset: nat, wall: nat -> Wall, done: nat -> bool, i: nat, deadline: nat) {
    var d := AfterRounds(c, maxOffset, wall, i + 1);
    d.Some? && d.value.Packed() <= deadline && !done(i)
  }

  class Hlc {
    const maxOffset: nat
    var physical: nat
    var logical: nat

    function Value(): Clock
      reads this
    {
      Clock(physical, logical)
    }

    constructor (offset: nat, reading: nat)
      ensures maxOffset == Physical(offset)
      ensures Value() == Clock(Physical(reading), 0) && Value().WellFormed()
    {
      maxOffset := Physical(offset);
      physical := Physical(reading);
      logical := 0;
    }

    /** None stands for the process shutting down. */
    method Now(wall: Wall) returns (timestamp: Option<nat>)
      requires Value().WellFormed()
      modifies this
      ensures var r := NowOf(old(Value()), maxOffset, wall);
              if r.Advanced? then Value() == r.clock && timestamp == Some(r.clock.Packed())
              else Value() == old(Value()) && timestamp == None
      ensures Value().WellFormed()
      ensures timestamp.Some? ==> timestamp.value == Value().Packed() > old(Value()).Packed()
    {
      ghost var k := NowAdvances(Value(), maxOffset, wall);
      for attempt := 0 to MAX_RETRIES
        invariant Value() == old(Value())
        invariant NowOf(old(Value()), maxOffset, wall) == NowFrom(old(Value()), maxOffset, wall, attempt)
      {
        var now := Physical(wall[attempt]);
        if now > physical {
          physical := now;
          logical := 0;
          return Some(now);
        } else if now < physical {
          if physical - now > maxOffset {
            return None;
          }
        } else if logical != LOGICAL_MAX {
          logical := logical + 1;
          return Some(physical + logical);
        }
      }
      return None;
    }

    method Update(incoming: nat, check: nat, wall: Wall) returns (outcome: Outcome)
      requires Value().WellFormed()
      modifies this
      ensures outcome == UpdateOf(old(Value()), maxOffset, incoming, check, wall)
      ensures Value() == if outcome.Advanced? then outcome.clock else old(Value())
      ensures Value().WellFormed()
      ensures outcome.Advanced? ==> Value().Packed() > old(Value()).Packed() && Value().Packed() > incoming
    {
      UpdateAdvances(Value(), maxOffset, incoming, check, wall);
      var inPhysical, inLogical := Physical(incoming), Logical(incoming);
      var now := Physical(check);
      if inPhysical > now && inPhysical - now > maxOffset {
        return OutOfRange;
      }
      for attempt := 0 to MAX_RETRIES
        invariant Value() == old(Value())
        invariant UpdateFrom(old(Value()), incoming, wall, 0) == UpdateFrom(old(Value()), incoming, wall, attempt)
      {
        var nextPhysical := Max(Max(physical, inPhysical), Physical(wall[attempt]));
        var nextLogical := 0;
        if nextPhysical == physical && nextPhysical == inPhysical {
          nextLogical := Max(logical, inLogical) + 1;
        } else if nextPhysical == physical {
          nextLogical := logical + 1;
        } else if nextPhysical == inPhysical {
          nextLogical := inLogical + 1;
        }
        if nextLogical <= LOGICAL_MAX {
          physical := nextPhysical;
          logical := nextLogical;
          return Advanced(Value());
        }
      }
      return Shutdown(TooManyAttempts);
    }

    /**
     * Waits until the clock has passed `deadline`. Round `i` reads the wall clock as `wall(i)` and then finds the
     * context done if `done(i)`. The rounds run out whatever the wall clock does and however short the waits are.
     */
    method Sleep(deadline: nat, wall: nat -> Wall, done: nat -> bool) returns (r: SleepResult, ghost last: nat)
      requires Value().WellFormed()
      modifies this
      ensures Value().WellFormed() && Value().Packed() >= old(Value()).Packed()
      ensures r.Passed? ==> Value().Packed() > deadline
      ensures r.Canceled? ==> Value().Packed() <= deadline && done(last)
      ensures r.Stopped? ==> AfterRounds(old(Value()), maxOffset, wall, last + 1) == None
      ensures AfterRounds(old(Value()), maxOffset, wall, if r.Stopped? then last else last + 1) == Some(Value())
      ensures forall i: nat :: i < last ==> WaitsOn(old(Value()), maxOffset, wall, done, i, deadline)
    {
      var round := 0;
      while true
        invariant Value().WellFormed() && Value().Packed() >= old(Value()).Packed()
        invariant AfterRounds(old(Value()), maxOffset, wall, round) == Some(Value())
        invariant forall i: nat :: i < round ==> WaitsOn(old(Value()), maxOffset, wall, done, i, deadline)
        decreases if Value().Packed() <= deadline then deadline + 1 - Value().Packed() else 0
      {
        var now := Now(wall(round));
        assert now.Some? ==> AfterRounds(old(Value()), maxOffset, wall, round + 1) == Some(Value());
        if now.None? {
          return Stopped, round;
        } else if now.value > deadline {
          return Passed, round;
        }
        PhysicalMonotone(now.value, deadline);
        var wait := Subtract(deadline, now.value);
        assert wait >= 0;
        if done(round) {
          return Canceled, round;
        }
        assert WaitsOn(old(Value()), maxOffset, wall, done, round, deadline);
        round := round + 1;
      }
    }
  }
}
