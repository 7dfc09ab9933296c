/**
 * Causality over a cluster. A run is a sequence of events on any number of servers: a server issues a timestamp,
 * or it is handed the timestamp another event issued, as the request metadata or the session hello carry it.
 * Replies carry none, so they are not edges of the happens-before order.
 */
module ClockCluster {
  import opened Options
  import opened HybridClock

  datatype Event =
    | Issue(node: nat, wall: Wall)
    | Deliver(node: nat, source: nat, check: nat, wall: Wall)

  /** Where the clocks start and how far ahead an incoming timestamp may be. */
  datatype Cluster = Cluster(boot: nat -> Clock, maxOffset: nat)

  ghost predicate Booted(c: Cluster) {
    forall n :: c.boot(n).WellFormed()
  }

  /** A delivery names an earlier issue, whose timestamp travels with the message. */
  predicate Causal(run: seq<Event>) {
    forall i :: 0 <= i < |run| && run[i].Deliver? ==> run[i].source < i && run[run[i].source].Issue?
  }

  /** The clock of `node` after the first `n` events; None once it has shut down. */
  function ClockAfter(c: Cluster, run: seq<Event>, n: nat, node: nat): Option<Clock>
    requires Causal(run) && n <= |run|
    decreases n, 0
  {
    if n == 0 then Some(c.boot(node))
    else
      var before := ClockAfter(c, run, n - 1, node);
      var e := run[n - 1];
      if e.node != node || before.None? then before else Handle(c, run, n - 1, before.value)
  }

  function Handle(c: Cluster, run: seq<Event>, i: nat, clock: Clock): Option<Clock>
    requires Causal(run) && i < |run|
    decreases i, 3
  {
    match Result(c, run, i, clock)
    case Advanced(d) => Some(d)
    case OutOfRange => Some(clock)
    case Shutdown(_) => None
  }

  function Result(c: Cluster, run: seq<Event>, i: nat, clock: Clock): Outcome
    requires Causal(run) && i < |run|
    decreases i, 2
  {
    match run[i]
    case Issue(_, wall) => NowOf(clock, c.maxOffset, wall)
    case Deliver(_, source, check, wall) => UpdateOf(clock, c.maxOffset, Stamp(c, run, source), check, wall)
  }

  /** The packed clock an event leaves behind: for an issue, the timestamp it hands out. */
  function Stamp(c: Cluster, run: seq<Event>, i: nat): nat
    requires Causal(run) && i < |run|
    decreases i + 1, 1
  {
    match ClockAfter(c, run, i + 1, run[i].node)
    case None => 0
    case Some(d) => d.Packed()
  }

  /** The event took place: a timestamp was issued, or an incoming one was accepted before its handler ran. */
  predicate Happened(c: Cluster, run: seq<Event>, i: nat)
    requires Causal(run) && i < |run|
  {
    var before := ClockAfter(c, run, i, run[i].node);
    before.Some? && Result(c, run, i, before.value).Advanced?
  }

  predicate Edge(c: Cluster, run: seq<Event>, i: nat, j: nat)
    requires Causal(run)
  {
    i < j < |run| && Happened(c, run, i) && Happened(c, run, j) &&
    (run[i].node == run[j].node || (run[j].Deliver? && run[j].source == i))
  }

  ghost predicate HappensBefore(c: Cluster, run: seq<Event>, i: nat, j: nat)
    requires Causal(run)
    decreases j
  {
    Edge(c, run, i, j) || exists k: nat :: i < k < j && HappensBefore(c, run, i, k) && Edge(c, run, k, j)
  }

  lemma {:induction false} ClockWellFormed(c: Cluster, run: seq<Event>, n: nat, node: nat)
    requires Booted(c) && Causal(run) && n <= |run|
    ensures ClockAfter(c, run, n, node).Some? ==> ClockAfter(c, run, n, node).value.WellFormed()
  {
    if n > 0 {
      ClockWellFormed(c, run, n - 1, node);
      var before := ClockAfter(c, run, n - 1, node);
      if before.Some? {
        ResultAdvances(c, run, n - 1, before.value);
      }
    }
  }

  lemma {:induction false} ResultAdvances(c: Cluster, run: seq<Event>, i: nat, clock: Clock)
    requires Causal(run) && i < |run| && clock.WellFormed()
    ensures Result(c, run, i, clock).Advanced? ==>
              var d := Result(c, run, i, clock).clock;
              d.WellFormed() && d.Packed() > clock.Packed() &&
              (run[i].Deliver? ==> d.Packed() > Stamp(c, run, run[i].source))
  {
    match run[i] {
      case Issue(_, wall) => var k := NowAdvances(clock, c.maxOffset, wall);
      case Deliver(_, source, check, wall) =>
        UpdateAdvances(clock, c.maxOffset, Stamp(c, run, source), check, wall);
    }
  }

  lemma {:induction false} NodeMonotone(c: Cluster, run: seq<Event>, m: nat, n: nat, node: nat)
    requires Booted(c) && Causal(run) && m <= n <= |run| && ClockAfter(c, run, n, node).Some?
    ensures ClockAfter(c, run, m, node).Some?
    ensures ClockAfter(c, run, m, node).value.Packed() <= ClockAfter(c, run, n, node).value.Packed()
  {
    if m < n {
      var before := ClockAfter(c, run, n - 1, node);
      assert before.Some?;
      NodeMonotone(c, run, m, n - 1, node);
      ClockWellFormed(c, run, n - 1, node);
      ResultAdvances(c, run, n - 1, before.value);
    }
  }

  lemma {:induction false} EdgeIncreases(c: Cluster, run: seq<Event>, i: nat, j: nat)
    requires Booted(c) && Causal(run) && Edge(c, run, i, j)
    ensures Stamp(c, run, i) < Stamp(c, run, j)
  {
    var before := ClockAfter(c, run, j, run[j].node).value;
    ClockWellFormed(c, run, j, run[j].node);
    ResultAdvances(c, run, j, before);
    assert ClockAfter(c, run, j + 1, run[j].node) == Handle(c, run, j, before);
    if run[i].node == run[j].node {
      NodeMonotone(c, run, i + 1, j, run[j].node);
    }
  }

  /** Main result: if one event happens before another, its timestamp is strictly smaller. */
  lemma {:induction false} CausalityPreserved(c: Cluster, run: seq<Event>, i: nat, j: nat)
    requires Booted(c) && Causal(run) && HappensBefore(c, run, i, j)
    ensures i < j < |run| && Stamp(c, run, i) < Stamp(c, run, j)
    decreases j
  {
    if Edge(c, run, i, j) {
      EdgeIncreases(c, run, i, j);
    } else {
      var k: nat :| i < k < j && HappensBefore(c, run, i, k) && Edge(c, run, k, j);
      CausalityPreserved(c, run, i, k);
      EdgeIncreases(c, run, k, j);
    }
  }

  /**
   * Messages get through: a delivery to a server that is up takes place if its timestamp is within the offset of the
   * receiver's reading and whichever side is ahead has logical room left.
   */
  lemma {:induction false} DeliveryHappens(c: Cluster, run: seq<Event>, i: nat)
    requires Booted(c) && Causal(run) && i < |run| && run[i].Deliver? && ClockAfter(c, run, i, run[i].node).Some?
    requires var s := Stamp(c, run, run[i].source);
             s / SLOT * SLOT <= run[i].check / SLOT * SLOT + c.maxOffset &&
             RoomLeft(ClockAfter(c, run, i, run[i].node).value, s)
    ensures Happened(c, run, i)
  {
    var clock, s, wall := ClockAfter(c, run, i, run[i].node).value, Stamp(c, run, run[i].source), run[i].wall;
    ClockWellFormed(c, run, i, run[i].node);
    RangeExact(clock, c.maxOffset, s, run[i].check, wall);
    RoomExact(clock, s);
    RoomAnywhere(clock, s, wall[0]);
  }

  lemma {:induction false} RoomAnywhere(c: Clock, incoming: nat, reading: nat)
    requires c.WellFormed() && RoomLeft(c, incoming)
    ensures NextLogical(c, incoming, Max(Max(c.physical, Physical(incoming)), Physical(reading))) <= LOGICAL_MAX
  {
  }

  /** A delivery further ahead than that does not take place, and leaves the receiver's clock alone. */
  lemma {:induction false} FarDeliveryRefused(c: Cluster, run: seq<Event>, i: nat)
    requires Causal(run) && i < |run| && run[i].Deliver? && ClockAfter(c, run, i, run[i].node).Some?
    requires Stamp(c, run, run[i].source) / SLOT * SLOT > run[i].check / SLOT * SLOT + c.maxOffset
    ensures !Happened(c, run, i) && ClockAfter(c, run, i + 1, run[i].node) == ClockAfter(c, run, i, run[i].node)
  {
    RangeExact(ClockAfter(c, run, i, run[i].node).value, c.maxOffset, Stamp(c, run, run[i].source), run[i].check,
               run[i].wall);
  }
}
