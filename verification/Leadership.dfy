/**
 * Leaderships of a partition. A leader brings its clock above the partition's largest timestamp, passes every timestamp
 * that commit and read requests bring, and stamps the commands of each batch it seals from its clock. Whether new
 * transactions end up above everything in the log depends on where its clock stands when it starts.
 */
module Leadership {
  import opened Options
  import opened TxnLocks
  import opened MvccStore
  import opened TxnManager
  import opened PartitionSafety
  import opened PartitionRuns
  import opened SnapshotReads
  import C = HybridClock

  // ---- stamping

  /** The timestamps of successive clock readings and the clock after them; None if the clock shuts down. */
  function Stamps(c: C.Clock, maxOffset: nat, walls: seq<C.Wall>): Option<(seq<nat>, C.Clock)>
    decreases |walls|
  {
    if walls == [] then Some(([], c))
    else
      match C.NowOf(c, maxOffset, walls[0])
      case Advanced(d) =>
        (match Stamps(d, maxOffset, walls[1..])
         case Some(r) => Some(([d.Packed()] + r.0, r.1))
         case None => None)
      case _ => None
  }

  predicate Rising(ts: seq<nat>, low: nat, high: nat) {
    (forall i :: 0 <= i < |ts| ==> low < ts[i] <= high) && (forall i, j :: 0 <= i < j < |ts| ==> ts[i] < ts[j])
  }

  lemma {:induction false} StampsRise(c: C.Clock, maxOffset: nat, walls: seq<C.Wall>)
    requires c.WellFormed() && Stamps(c, maxOffset, walls).Some?
    ensures var (ts, d) := Stamps(c, maxOffset, walls).value;
            |ts| == |walls| && d.WellFormed() && c.Packed() <= d.Packed() && Rising(ts, c.Packed(), d.Packed())
    decreases |walls|
  {
    if walls != [] {
      var k := C.NowAdvances(c, maxOffset, walls[0]);
      StampsRise(C.NowOf(c, maxOffset, walls[0]).clock, maxOffset, walls[1..]);
    }
  }

  lemma {:induction false} StampsAppend(c: C.Clock, maxOffset: nat, ws: seq<C.Wall>, vs: seq<C.Wall>)
    requires Stamps(c, maxOffset, ws).Some?
    ensures var (ts, d) := Stamps(c, maxOffset, ws).value;
            Stamps(c, maxOffset, ws + vs) ==
            match Stamps(d, maxOffset, vs) case Some(r) => Some((ts + r.0, r.1)) case None => None
    decreases |ws|
  {
    if ws == [] {
      assert ws + vs == vs;
      assert Stamps(c, maxOffset, vs).Some? ==>
          [] + Stamps(c, maxOffset, vs).value.0 == Stamps(c, maxOffset, vs).value.0;
    } else {
      var d := C.NowOf(c, maxOffset, ws[0]).clock;
      StampsAppend(d, maxOffset, ws[1..], vs);
      assert (ws + vs)[1..] == ws[1..] + vs;
      var mid := Stamps(d, maxOffset, ws[1..]).value;
      if Stamps(mid.1, maxOffset, vs).Some? {
        var r := Stamps(mid.1, maxOffset, vs).value;
        assert [d.Packed()] + (mid.0 + r.0) == ([d.Packed()] + mid.0) + r.0;
      }
    }
  }

  /** Once the clock has shut down, no more timestamps come. */
  lemma {:induction false} StampsEnd(c: C.Clock, maxOffset: nat, ws: seq<C.Wall>, vs: seq<C.Wall>)
    requires Stamps(c, maxOffset, ws).None?
    ensures Stamps(c, maxOffset, ws + vs).None?
    decreases |ws|
  {
    assert (ws + vs)[0] == ws[0] && (ws + vs)[1..] == ws[1..] + vs;
    if C.NowOf(c, maxOffset, ws[0]).Advanced? {
      StampsEnd(C.NowOf(c, maxOffset, ws[0]).clock, maxOffset, ws[1..], vs);
    }
  }

  lemma {:induction false} OneStamp(c: C.Clock, maxOffset: nat, wall: C.Wall)
    requires C.NowOf(c, maxOffset, wall).Advanced?
    ensures var d := C.NowOf(c, maxOffset, wall).clock; Stamps(c, maxOffset, [wall]) == Some(([d.Packed()], d))
  {
    var d := C.NowOf(c, maxOffset, wall).clock;
    assert [wall][1..] == [] && Stamps(d, maxOffset, []) == Some(([], d));
    assert [d.Packed()] + [] == [d.Packed()];
  }

  function Timestamps(cs: seq<Command>): (ts: seq<nat>)
    ensures |ts| == |cs| && forall i :: 0 <= i < |cs| ==> ts[i] == cs[i].timestamp
  {
    seq(|cs|, i requires 0 <= i < |cs| => cs[i].timestamp)
  }

  /** The same commands under new timestamps. */
  predicate Restamped(cs: seq<Command>, ds: seq<Command>) {
    |ds| == |cs| && forall i :: 0 <= i < |cs| ==> ds[i] == cs[i].(timestamp := ds[i].timestamp)
  }

  /** What has been stamped so far, and the last timestamp given, zero if there is none. */
  ghost predicate StampedSoFar(c: C.Clock, maxOffset: nat, walls: seq<C.Wall>, cs: seq<Command>, ds: seq<Command>,
                           d: C.Clock, last: nat) {
    Restamped(cs, ds) && Stamps(c, maxOffset, walls) == Some((Timestamps(ds), d)) && d.WellFormed() &&
    last == if ds == [] then 0 else ds[|ds| - 1].timestamp
  }

  lemma {:induction false} StampMore(c: C.Clock, maxOffset: nat, ws: seq<C.Wall>, cs: seq<Command>, ds: seq<Command>,
                                     d: C.Clock,
                  wall: C.Wall, more: Command, last: nat)
    requires StampedSoFar(c, maxOffset, ws, cs, ds, d, last) && C.NowOf(d, maxOffset, wall).Advanced?
    requires C.NowOf(d, maxOffset, wall).clock.WellFormed()
    ensures var e := C.NowOf(d, maxOffset, wall).clock;
            StampedSoFar(c, maxOffset, ws + [wall], cs + [more], ds + [more.(timestamp := e.Packed())], e, e.Packed())
  {
    var e := C.NowOf(d, maxOffset, wall).clock;
    StampsAppend(c, maxOffset, ws, [wall]);
    OneStamp(d, maxOffset, wall);
    assert Timestamps(ds + [more.(timestamp := e.Packed())]) == Timestamps(ds) + [e.Packed()];
  }

  lemma {:induction false} StampFails(c: C.Clock, maxOffset: nat, ws: seq<C.Wall>, vs: seq<C.Wall>, d: C.Clock)
    requires Stamps(c, maxOffset, ws).Some? && Stamps(c, maxOffset, ws).value.1 == d
    requires vs != [] && !C.NowOf(d, maxOffset, vs[0]).Advanced?
    ensures Stamps(c, maxOffset, ws + vs).None?
  {
    StampsAppend(c, maxOffset, ws, vs);
  }

  /** Stamps one more command. */
  method StampOne(hlc: C.Hlc, cmd: Command, wall: C.Wall, ghost maxTS: nat,
                  ghost c: C.Clock, ghost ws: seq<C.Wall>, ghost was: seq<Command>, ghost done: seq<Command>)
    returns (r: Option<Command>)
    requires StampedSoFar(c, hlc.maxOffset, ws, was, done, hlc.Value(), maxTS)
    modifies hlc
    ensures r.Some? ==> StampedSoFar(c, hlc.maxOffset, ws + [wall], was + [cmd], done + [r.value], hlc.Value(),
                                     r.value.timestamp)
    ensures r.None? ==> !C.NowOf(old(hlc.Value()), hlc.maxOffset, wall).Advanced?
  {
    ghost var before := hlc.Value();
    var now := hlc.Now(wall);
    if now.None? {
      return None;
    }
    StampMore(c, hlc.maxOffset, ws, was, done, before, wall, cmd, maxTS);
    return Some(cmd.(timestamp := now.value));
  }

  lemma {:induction false} OneFurther<T>(was: seq<T>, xs: seq<T>, i: nat)
    requires i < |xs|
    ensures was + xs[..i + 1] == was + xs[..i] + [xs[i]]
  {
  }

  /** Stamps one list of a batch after others; None stands for the process shutting down. */
  method StampAll(hlc: C.Hlc, cs: seq<Command>, walls: seq<C.Wall>, maxTS: nat,
                  ghost c: C.Clock, ghost ws: seq<C.Wall>, ghost was: seq<Command>, ghost done: seq<Command>)
    returns (r: Option<seq<Command>>, last: nat)
    requires |walls| == |cs| && StampedSoFar(c, hlc.maxOffset, ws, was, done, hlc.Value(), maxTS)
    modifies hlc
    ensures r.Some? ==> |r.value| == |cs| &&
                        StampedSoFar(c, hlc.maxOffset, ws + walls, was + cs, done + r.value, hlc.Value(), last)
    ensures r.None? ==> Stamps(c, hlc.maxOffset, ws + walls).None?
  {
    var out: seq<Command> := [];
    last := maxTS;
    assert ws + walls[..0] == ws && was + cs[..0] == was && done + out == done;
    for i := 0 to |cs|
      invariant |out| == i
      invariant StampedSoFar(c, hlc.maxOffset, ws + walls[..i], was + cs[..i], done + out, hlc.Value(), last)
    {
      ghost var before := hlc.Value();
      var stamped := StampOne(hlc, cs[i], walls[i], last, c, ws + walls[..i], was + cs[..i], done + out);
      if stamped.None? {
        StampFails(c, hlc.maxOffset, ws + walls[..i], walls[i..], before);
        assert ws + walls[..i] + walls[i..] == ws + walls;
        return None, last;
      }
      OneFurther(ws, walls, i);
      OneFurther(was, cs, i);
      assert done + (out + [stamped.value]) == done + out + [stamped.value];
      out := out + [stamped.value];
      last := stamped.value.timestamp;
    }
    assert cs[..|cs|] == cs && walls[..|walls|] == walls;
    return Some(out), last;
  }

  /** The commands of a batch are under the headings they belong to. */
  predicate Typed(b: Batch) {
    (forall i :: 0 <= i < |b.abort| ==> b.abort[i].Abort?) &&
    (forall i :: 0 <= i < |b.markTimedout| ==> b.markTimedout[i].MarkTimedout?) &&
    (forall i :: 0 <= i < |b.commit| ==> b.commit[i].Commit?) &&
    (forall i :: 0 <= i < |b.autocommit| ==> b.autocommit[i].Autocommit?) &&
    (forall i :: 0 <= i < |b.prepare| ==> b.prepare[i].Prepare?) &&
    (forall i :: 0 <= i < |b.storeDecision| ==> b.storeDecision[i].StoreDecision?)
  }

  /** A batch sealed by a leader: own stamps from its clock, in order, and the largest timestamp it carries. */
  predicate SealedBatch(b: Batch, asked: nat, c: C.Clock, maxOffset: nat, walls: seq<C.Wall>) {
    Typed(b) && b.maxTimestamp == BatchMax(b, asked) &&
    Stamps(c, maxOffset, walls).Some? && Stamps(c, maxOffset, walls).value.0 == Timestamps(OwnStamped(b))
  }

  lemma {:induction false} LastIsLargest(c: C.Clock, maxOffset: nat, walls: seq<C.Wall>, cs: seq<Command>,
                                         ds: seq<Command>,
                      d: C.Clock, last: nat)
    requires c.WellFormed() && StampedSoFar(c, maxOffset, walls, cs, ds, d, last)
    ensures MaxOf(ds) == last
  {
    StampsRise(c, maxOffset, walls);
    var ts := Timestamps(ds);
    if ds != [] {
      var i :| 0 <= i < |ds| && ds[i].timestamp == MaxOf(ds);
      assert ts[i] == MaxOf(ds) && ts[|ds| - 1] == last && last <= MaxOf(ds);
    }
  }

  method LargestCommit(cs: seq<Command>, maxTS: nat) returns (m: nat)
    ensures m == Max(maxTS, MaxOf(cs))
  {
    m := maxTS;
    for i := 0 to |cs|
      invariant m == Max(maxTS, MaxOf(cs[..i]))
    {
      assert cs[..i + 1][..i] == cs[..i];
      m := Max(m, cs[i].timestamp);
    }
    assert cs[..|cs|] == cs;
  }

  method StampThree(hlc: C.Hlc, xs: seq<Command>, ys: seq<Command>, zs: seq<Command>,
                    w1: seq<C.Wall>, w2: seq<C.Wall>, w3: seq<C.Wall>)
    returns (ok: bool, ax: seq<Command>, ay: seq<Command>, az: seq<Command>, last: nat)
    requires hlc.Value().WellFormed() && |w1| == |xs| && |w2| == |ys| && |w3| == |zs|
    modifies hlc
    ensures ok ==> |ax| == |xs| && |ay| == |ys| && |az| == |zs| &&
                   StampedSoFar(old(hlc.Value()), hlc.maxOffset, w1 + w2 + w3, xs + ys + zs, ax + ay + az, hlc.Value(),
                                last)
    ensures !ok ==> Stamps(old(hlc.Value()), hlc.maxOffset, w1 + w2 + w3).None?
  {
    ghost var c := hlc.Value();
    ghost var none: seq<Command> := [];
    ok, ax, ay, az, last := false, [], [], [], 0;
    var s1, t1 := StampAll(hlc, xs, w1, 0, c, [], [], []);
    assert [] + w1 == w1;
    if s1.None? {
      StampsEnd(c, hlc.maxOffset, w1, w2 + w3);
      assert w1 + (w2 + w3) == w1 + w2 + w3;
      return;
    }
    assert [] + w1 == w1 && none + xs == xs && none + s1.value == s1.value;
    var s2, t2 := StampAll(hlc, ys, w2, t1, c, w1, xs, s1.value);
    if s2.None? {
      StampsEnd(c, hlc.maxOffset, w1 + w2, w3);
      return;
    }
    var s3, t3 := StampAll(hlc, zs, w3, t2, c, w1 + w2, xs + ys, s1.value + s2.value);
    if s3.None? { return; }
    return true, s1.value, s2.value, s3.value, t3;
  }

  predicate SameLengths(b: Batch, c: Batch) {
    |c.autocommit| == |b.autocommit| && |c.prepare| == |b.prepare| && |c.abort| == |b.abort| &&
    |c.storeDecision| == |b.storeDecision| && |c.markTimedout| == |b.markTimedout|
  }

  lemma {:induction false} RestampedSplit(xs: seq<Command>, ys: seq<Command>, us: seq<Command>, vs: seq<Command>)
    requires |xs| == |us| && Restamped(xs + ys, us + vs)
    ensures Restamped(xs, us) && Restamped(ys, vs)
  {
    var x, u := xs + ys, us + vs;
    forall i | 0 <= i < |xs| ensures us[i] == xs[i].(timestamp := us[i].timestamp) {
      assert x[i] == xs[i] && u[i] == us[i];
    }
    forall i | 0 <= i < |ys| ensures vs[i] == ys[i].(timestamp := vs[i].timestamp) {
      assert x[|xs| + i] == ys[i] && u[|us| + i] == vs[i];
    }
  }

  /** New timestamps do not move commands to another heading. */
  lemma {:induction false} TypedKept(b: Batch, c: Batch)
    requires Typed(b) && SameLengths(b, c) && c.commit == b.commit && Restamped(OwnStamped(b), OwnStamped(c))
    ensures Typed(c)
  {
    var b2, c2 := b.autocommit + b.prepare, c.autocommit + c.prepare;
    var b3, c3 := b2 + b.abort, c2 + c.abort;
    var b4, c4 := b3 + b.storeDecision, c3 + c.storeDecision;
    RestampedSplit(b4, b.markTimedout, c4, c.markTimedout);
    RestampedSplit(b3, b.storeDecision, c3, c.storeDecision);
    RestampedSplit(b2, b.abort, c2, c.abort);
    RestampedSplit(b.autocommit, b.prepare, c.autocommit, c.prepare);
  }

  /** Seals a batch: five lists are stamped, one after the other; commits keep their own timestamps. */
  method PrepareBatch(hlc: C.Hlc, b: Batch, asked: nat, w1: seq<C.Wall>, w2: seq<C.Wall>, w3: seq<C.Wall>,
                      w4: seq<C.Wall>, w5: seq<C.Wall>) returns (r: Option<Batch>)
    requires hlc.Value().WellFormed() && |w1| == |b.autocommit| && |w2| == |b.prepare| && |w3| == |b.abort|
    requires |w4| == |b.storeDecision| && |w5| == |b.markTimedout|
    modifies hlc
    ensures r.Some? ==> r.value.commit == b.commit && SameLengths(b, r.value) &&
                        Restamped(OwnStamped(b), OwnStamped(r.value))
    ensures r.Some? && Typed(b) ==> SealedBatch(r.value, asked, old(hlc.Value()), hlc.maxOffset, w1 + w2 + w3 + w4 + w5)
    ensures r.Some? <==> Stamps(old(hlc.Value()), hlc.maxOffset, w1 + w2 + w3 + w4 + w5).Some?
    ensures r.Some? ==> hlc.Value() == Stamps(old(hlc.Value()), hlc.maxOffset, w1 + w2 + w3 + w4 + w5).value.1
  {
    ghost var c := hlc.Value();
    var ok, s1, s2, s3, t3 := StampThree(hlc, b.autocommit, b.prepare, b.abort, w1, w2, w3);
    if !ok {
      StampsEnd(c, hlc.maxOffset, w1 + w2 + w3, w4);
      StampsEnd(c, hlc.maxOffset, w1 + w2 + w3 + w4, w5);
      return None;
    }
    var s4, t4 := StampAll(hlc, b.storeDecision, w4, t3, c, w1 + w2 + w3, b.autocommit + b.prepare + b.abort,
                           s1 + s2 + s3);
    if s4.None? {
      StampsEnd(c, hlc.maxOffset, w1 + w2 + w3 + w4, w5);
      return None;
    }
    var s5, t5 := StampAll(hlc, b.markTimedout, w5, t4, c, w1 + w2 + w3 + w4,
                           b.autocommit + b.prepare + b.abort + b.storeDecision, s1 + s2 + s3 + s4.value);
    if s5.None? { return None; }
    var top := LargestCommit(b.commit, t5);
    var out := Batch(s3, s5.value, b.commit, s1, s2, s4.value, Max(asked, top));
    LastIsLargest(c, hlc.maxOffset, w1 + w2 + w3 + w4 + w5, OwnStamped(b), OwnStamped(out), hlc.Value(), t5);
    if Typed(b) {
      TypedKept(b, out);
    }
    return Some(out);
  }

  // ---- the start of a leadership

  /** However long a wait lasts, it is not canceled and the clock stays up. */
  ghost predicate LeftAlone(c: C.Clock, maxOffset: nat, wall: nat -> C.Wall, done: nat -> bool) {
    forall i: nat :: !done(i) && C.AfterRounds(c, maxOffset, wall, i + 1).Some?
  }

  /** The clock once an empty partition has its first timestamp. */
  function Brought(c: C.Clock, maxOffset: nat, maxTimestamp: nat, wall: C.Wall): Option<C.Clock> {
    if maxTimestamp != 0 then Some(c)
    else if C.NowOf(c, maxOffset, wall).Advanced? then Some(C.NowOf(c, maxOffset, wall).clock)
    else None
  }

  /**
   * Brings the clock above the partition's largest timestamp, at once or by waiting until it is. An empty partition
   * first gets a timestamp of its own, `first`, to write.
   */
  method StartLeader(hlc: C.Hlc, maxTimestamp: nat, wall: C.Wall, check: nat, updateWall: C.Wall,
                     sleepWall: nat -> C.Wall, done: nat -> bool) returns (ok: bool, first: Option<nat>)
    requires hlc.Value().WellFormed()
    modifies hlc
    ensures hlc.Value().WellFormed() && hlc.Value().Packed() >= old(hlc.Value()).Packed()
    ensures ok ==> hlc.Value().Packed() > maxTimestamp
    ensures ok ==> (first.Some? <==> maxTimestamp == 0)
    ensures first.Some? ==> old(hlc.Value()).Packed() < first.value <= hlc.Value().Packed()
    // it fails only if the clock shuts down or the wait is canceled
    ensures maxTimestamp == 0 && !C.NowOf(old(hlc.Value()), hlc.maxOffset, wall).Advanced? ==> !ok && first.None?
    ensures var c := Brought(old(hlc.Value()), hlc.maxOffset, maxTimestamp, wall);
            c.Some? ==>
              var r := C.UpdateOf(c.value, hlc.maxOffset, maxTimestamp, check, updateWall);
              (maxTimestamp == 0 ==> first == Some(c.value.Packed())) &&
              (r.Advanced? ==> ok && hlc.Value() == r.clock) && (r.Shutdown? ==> !ok) &&
              (r.OutOfRange? && LeftAlone(c.value, hlc.maxOffset, sleepWall, done) ==> ok)
  {
    first := None;
    if maxTimestamp == 0 {
      first := hlc.Now(wall);
      if first.None? {
        return false, None;
      }
    }
    var outcome := hlc.Update(maxTimestamp, check, updateWall);
    match outcome {
      case Advanced(_) => return true, first;
      case Shutdown(_) => return false, first;
      case OutOfRange =>
        ghost var last;
        var slept;
        ghost var c := hlc.Value();
        slept, last := hlc.Sleep(maxTimestamp, sleepWall, done);
        assert LeftAlone(c, hlc.maxOffset, sleepWall, done) ==>
            !done(last) && C.AfterRounds(c, hlc.maxOffset, sleepWall, last + 1).Some?;
        return slept.Passed?, first;
    }
  }

  // ---- one leadership

  /** `reached` are the timestamps its clock has issued or passed; requests that bring one are served after that. */
  datatype Leader = Leader(clock: C.Clock, reached: set<nat>)

  datatype Event =
    | Issue(wall: C.Wall)
    | Receive(incoming: nat, check: nat, readings: C.Wall)
    | Seal(batch: Batch, asked: nat, walls: seq<C.Wall>, oldest: nat)

  predicate Possible(l: Leader, e: Event, maxOffset: nat) {
    match e
    case Issue(wall) => C.NowOf(l.clock, maxOffset, wall).Advanced?
    case Receive(t, check, wall) => C.UpdateOf(l.clock, maxOffset, t, check, wall).Advanced?
    case Seal(b, asked, walls, _) =>
      SealedBatch(b, asked, l.clock, maxOffset, walls) && AllStamped(Sequence(b)) &&
      (asked == 0 || asked in l.reached) && forall i :: 0 <= i < |b.commit| ==> b.commit[i].timestamp in l.reached
  }

  function After(l: Leader, e: Event, maxOffset: nat): Leader
    requires Possible(l, e, maxOffset)
  {
    match e
    case Issue(wall) =>
      var c := C.NowOf(l.clock, maxOffset, wall).clock;
      Leader(c, l.reached + {c.Packed()})
    case Receive(t, check, wall) => Leader(C.UpdateOf(l.clock, maxOffset, t, check, wall).clock, l.reached + {t})
    case Seal(_, _, walls, _) => l.(clock := Stamps(l.clock, maxOffset, walls).value.1)
  }

  predicate Leads(l: Leader, events: seq<Event>, maxOffset: nat)
    decreases |events|
  {
    events != [] ==> Possible(l, events[0], maxOffset) && Leads(After(l, events[0], maxOffset), events[1..], maxOffset)
  }

  function Finally(l: Leader, events: seq<Event>, maxOffset: nat): Leader
    requires Leads(l, events, maxOffset)
    decreases |events|
  {
    if events == [] then l else Finally(After(l, events[0], maxOffset), events[1..], maxOffset)
  }

  /** The batches of a leadership, as they enter the log. */
  function LogOf(events: seq<Event>): seq<LogEntry>
    decreases |events|
  {
    if events == [] then []
    else (if events[0].Seal? then [LogEntry(events[0].batch, events[0].oldest)] else []) + LogOf(events[1..])
  }

  /** The clock is above all that the log holds and all that requests have brought. */
  predicate Ready(l: Leader, w: World) {
    l.clock.WellFormed() && w.high <= l.clock.Packed() && forall t :: t in l.reached ==> t <= l.clock.Packed()
  }

  // ---- lists of commands, one kind at a time

  lemma {:induction false} RunLast(w: World, base: Db, cs: seq<Command>, c: Command)
    requires AllStamped(cs) && Stamped(c) && AllStamped(cs + [c])
    ensures RunCommands(w, base, cs + [c]) == Step(RunCommands(w, base, cs), base, c)
    ensures FreshCommands(w, base, cs + [c]) <==> FreshCommands(w, base, cs) && Fresh(RunCommands(w, base, cs), c)
  {
    var all := cs + [c];
    assert all[..|all| - 1] == cs && all[|all| - 1] == c;
  }

  lemma {:induction false} RunAppend(w: World, base: Db, cs: seq<Command>, ds: seq<Command>)
    requires AllStamped(cs + ds) && AllStamped(cs) && AllStamped(ds)
    ensures RunCommands(w, base, cs + ds) == RunCommands(RunCommands(w, base, cs), base, ds)
    ensures FreshCommands(w, base, cs + ds) <==>
            FreshCommands(w, base, cs) && FreshCommands(RunCommands(w, base, cs), base, ds)
    decreases |ds|
  {
    if ds == [] {
      assert cs + ds == cs;
    } else {
      var front, last := ds[..|ds| - 1], ds[|ds| - 1];
      assert ds == front + [last] && cs + ds == (cs + front) + [last];
      StampedAppend(cs + front, [last]);
      RunAppend(w, base, cs, front);
      RunLast(w, base, cs + front, last);
      RunLast(RunCommands(w, base, cs), base, front, last);
    }
  }

  predicate TakesTimestamp(c: Command) {
    c.Autocommit? || c.Prepare? || c.Commit?
  }

  /** Commands that are stamped below `top` leave the log below it. */
  lemma {:induction false} HighBounded(w: World, base: Db, cs: seq<Command>, top: nat)
    requires AllStamped(cs) && w.high <= top
    requires forall i :: 0 <= i < |cs| && TakesTimestamp(cs[i]) ==> cs[i].timestamp <= top
    ensures RunCommands(w, base, cs).high <= top
  {
    if cs != [] {
      HighBounded(w, base, cs[..|cs| - 1], top);
    }
  }

  lemma {:induction false} OldKindsFresh(w: World, base: Db, cs: seq<Command>)
    requires AllStamped(cs) && forall i :: 0 <= i < |cs| ==> !cs[i].Autocommit? && !cs[i].Prepare?
    ensures FreshCommands(w, base, cs)
  {
    if cs != [] {
      OldKindsFresh(w, base, cs[..|cs| - 1]);
    }
  }

  lemma {:induction false} RisingFresh(w: World, base: Db, cs: seq<Command>, top: nat)
    requires AllStamped(cs) && Rising(Timestamps(cs), w.high, top)
    ensures FreshCommands(w, base, cs)
  {
    if cs != [] {
      var front, last := cs[..|cs| - 1], cs[|cs| - 1];
      var ts := Timestamps(cs);
      forall i | 0 <= i < |front| ensures front[i].timestamp < last.timestamp && Timestamps(front)[i] == ts[i] {
        assert ts[i] < ts[|cs| - 1];
      }
      RisingFresh(w, base, front, top);
      assert ts[|cs| - 1] == last.timestamp;
      HighBounded(w, base, front, last.timestamp - 1);
    }
  }

  // ---- a sealed batch

  function New(b: Batch): seq<Command> {
    b.autocommit + b.prepare
  }

  function Old(b: Batch): seq<Command> {
    b.abort + b.markTimedout + b.commit
  }

  lemma {:induction false} Parts(b: Batch)
    requires AllStamped(Sequence(b))
    ensures Sequence(b) == Old(b) + New(b) + b.storeDecision
    ensures AllStamped(Old(b) + New(b)) && AllStamped(Old(b)) && AllStamped(New(b)) && AllStamped(b.storeDecision)
  {
    assert Sequence(b) == Old(b) + New(b) + b.storeDecision;
    StampedAppend(Old(b) + New(b), b.storeDecision);
    StampedAppend(Old(b), New(b));
  }

  lemma {:induction false} NewRises(b: Batch, asked: nat, c: C.Clock, maxOffset: nat, walls: seq<C.Wall>, high: nat)
    requires c.WellFormed() && SealedBatch(b, asked, c, maxOffset, walls) && high <= c.Packed()
    ensures Rising(Timestamps(New(b)), high, Stamps(c, maxOffset, walls).value.1.Packed())
  {
    StampsRise(c, maxOffset, walls);
    var ts := Timestamps(OwnStamped(b));
    assert forall i :: 0 <= i < |New(b)| ==> OwnStamped(b)[i] == New(b)[i] && ts[i] == Timestamps(New(b))[i];
  }

  lemma {:induction false} OldBounded(w: World, b: Batch, top: nat)
    requires AllStamped(Old(b)) && Typed(b) && w.high <= top
    requires forall i :: 0 <= i < |b.commit| ==> b.commit[i].timestamp <= top
    ensures FreshCommands(w, w.p.db, Old(b)) && RunCommands(w, w.p.db, Old(b)).high <= top
  {
    var cs := Old(b);
    forall i | 0 <= i < |cs|
      ensures !cs[i].Autocommit? && !cs[i].Prepare? && (TakesTimestamp(cs[i]) ==> cs[i].timestamp <= top)
    {
      if i >= |b.abort| + |b.markTimedout| {
        assert cs[i] == b.commit[i - |b.abort| - |b.markTimedout|];
      }
    }
    OldKindsFresh(w, w.p.db, cs);
    HighBounded(w, w.p.db, cs, top);
  }

  lemma {:induction false} NewFresh(v: World, base: Db, b: Batch, low: nat, top: nat)
    requires AllStamped(New(b)) && v.high <= low <= top && Rising(Timestamps(New(b)), low, top)
    ensures FreshCommands(v, base, New(b)) && RunCommands(v, base, New(b)).high <= top
  {
    assert Rising(Timestamps(New(b)), v.high, top);
    RisingFresh(v, base, New(b), top);
    assert forall i :: 0 <= i < |New(b)| ==> Timestamps(New(b))[i] <= top;
    HighBounded(v, base, New(b), top);
  }

  lemma {:induction false} ThreeLists(w: World, base: Db, xs: seq<Command>, ys: seq<Command>, zs: seq<Command>,
                                      top: nat)
    requires AllStamped(xs) && AllStamped(ys) && AllStamped(zs) && AllStamped(xs + ys) && AllStamped(xs + ys + zs)
    requires FreshCommands(w, base, xs) && FreshCommands(RunCommands(w, base, xs), base, ys)
    requires RunCommands(RunCommands(w, base, xs), base, ys).high <= top
    requires forall i :: 0 <= i < |zs| ==> zs[i].StoreDecision?
    ensures FreshCommands(w, base, xs + ys + zs) && RunCommands(w, base, xs + ys + zs).high <= top
  {
    RunAppend(w, base, xs, ys);
    var u := RunCommands(w, base, xs + ys);
    OldKindsFresh(u, base, zs);
    HighBounded(u, base, zs, top);
    RunAppend(w, base, xs + ys, zs);
  }

  lemma {:induction false} SequenceFresh(w: World, b: Batch, low: nat, top: nat)
    requires AllStamped(Sequence(b)) && Typed(b) && w.high <= low <= top && Rising(Timestamps(New(b)), low, top)
    requires forall i :: 0 <= i < |b.commit| ==> b.commit[i].timestamp <= low
    ensures FreshCommands(w, w.p.db, Sequence(b)) && RunCommands(w, w.p.db, Sequence(b)).high <= top
  {
    Parts(b);
    OldBounded(w, b, low);
    NewFresh(RunCommands(w, w.p.db, Old(b)), w.p.db, b, low, top);
    ThreeLists(w, w.p.db, Old(b), New(b), b.storeDecision, top);
  }

  /** What a ready leader seals is fresh, and leaves it ready. */
  lemma {:induction false} SealFresh(l: Leader, w: World, b: Batch, asked: nat, walls: seq<C.Wall>, oldest: nat,
                                     maxOffset: nat)
    requires Ready(l, w) && Possible(l, Seal(b, asked, walls, oldest), maxOffset)
    ensures FreshBatch(w, b)
    ensures Ready(After(l, Seal(b, asked, walls, oldest), maxOffset), RunBatch(w, b, oldest))
  {
    StampsRise(l.clock, maxOffset, walls);
    NewRises(b, asked, l.clock, maxOffset, walls, l.clock.Packed());
    SequenceFresh(w, b, l.clock.Packed(), Stamps(l.clock, maxOffset, walls).value.1.Packed());
    SealedBelow(l, b, asked, walls, oldest, maxOffset);
  }

  lemma {:induction false} SealedBelow(l: Leader, b: Batch, asked: nat, walls: seq<C.Wall>, oldest: nat, maxOffset: nat)
    requires l.clock.WellFormed() && (forall t :: t in l.reached ==> t <= l.clock.Packed())
    requires Possible(l, Seal(b, asked, walls, oldest), maxOffset)
    ensures b.maxTimestamp <= Stamps(l.clock, maxOffset, walls).value.1.Packed()
  {
    StampsRise(l.clock, maxOffset, walls);
    var own, ts := OwnStamped(b), Timestamps(OwnStamped(b));
    if own != [] {
      var i :| 0 <= i < |own| && own[i].timestamp == MaxOf(own);
      assert ts[i] == MaxOf(own);
    }
    if b.commit != [] {
      var i :| 0 <= i < |b.commit| && b.commit[i].timestamp == MaxOf(b.commit);
      assert b.commit[i].timestamp in l.reached;
    }
    assert own == [] ==> MaxOf(own) == 0;
    assert b.commit == [] ==> MaxOf(b.commit) == 0;
  }

  lemma {:induction false} EventKeepsReady(l: Leader, w: World, e: Event, maxOffset: nat)
    requires Ready(l, w) && Possible(l, e, maxOffset) && !e.Seal?
    ensures Ready(After(l, e, maxOffset), w)
  {
    match e {
      case Issue(wall) => var k := C.NowAdvances(l.clock, maxOffset, wall);
      case Receive(t, check, wall) => C.UpdateAdvances(l.clock, maxOffset, t, check, wall);
    }
  }

  /** Within one leadership, and whatever it serves, every batch is fresh if the clock reached the log at its start. */
  lemma {:induction false} LeadershipFresh(l: Leader, w: World, events: seq<Event>, maxOffset: nat)
    requires Ready(l, w) && Leads(l, events, maxOffset)
    ensures FreshLog(w, LogOf(events)) && Ready(Finally(l, events, maxOffset), RunLog(w, LogOf(events)))
    decreases |events|
  {
    if events != [] {
      var e, l' := events[0], After(l, events[0], maxOffset);
      if e.Seal? {
        SealFresh(l, w, e.batch, e.asked, e.walls, e.oldest, maxOffset);
        var w' := RunBatch(w, e.batch, e.oldest);
        LeadershipFresh(l', w', events[1..], maxOffset);
        LogHead(w, LogEntry(e.batch, e.oldest), LogOf(events[1..]));
      } else {
        EventKeepsReady(l, w, e, maxOffset);
        LeadershipFresh(l', w, events[1..], maxOffset);
        assert LogOf(events) == LogOf(events[1..]);
      }
    } else {
      assert LogOf(events) == [];
    }
  }

  lemma {:induction false} LogHead(w: World, e: LogEntry, rest: seq<LogEntry>)
    requires FreshBatch(w, e.batch) && FreshLog(RunBatch(w, e.batch, e.oldest), rest)
    ensures FreshLog(w, [e] + rest)
    ensures RunLog(w, [e] + rest) == RunLog(RunBatch(w, e.batch, e.oldest), rest)
  {
    var log := [e] + rest;
    assert log[1..] == rest && log[0] == e;
    forall i | 0 <= i < |log| ensures AllStamped(Sequence(log[i].batch)) {
      if i > 0 {
        assert log[i] == rest[i - 1];
      }
    }
  }

  // ---- the start decides

  lemma {:induction false} NextTick(c: C.Clock, maxOffset: nat) returns (wall: C.Wall)
    requires c.WellFormed()
    ensures C.NowOf(c, maxOffset, wall).Advanced? && C.NowOf(c, maxOffset, wall).clock.Packed() == c.Packed() + 1
  {
    var reading := if c.logical == C.LOGICAL_MAX then c.physical + C.SLOT else c.physical;
    wall := [reading, reading, reading];
    C.OffsetInSlot(reading, 0);
  }

  /** A batch of one new transaction. */
  function Lone(t: nat): Batch {
    Batch([], [], [], [Autocommit(Txn(TxnId(0, 0, t), [], []), t)], [], [], t)
  }

  lemma {:induction false} LoneSealed(c: C.Clock, maxOffset: nat) returns (wall: C.Wall)
    requires c.WellFormed()
    ensures Leads(Leader(c, {}), [Seal(Lone(c.Packed() + 1), 0, [wall], 0)], maxOffset)
  {
    wall := NextTick(c, maxOffset);
    OneStamp(c, maxOffset, wall);
    var t := c.Packed() + 1;
    var b, e := Lone(t), Seal(Lone(t), 0, [wall], 0);
    assert OwnStamped(b) == b.autocommit && Sequence(b) == b.autocommit;
    assert Timestamps(OwnStamped(b)) == [t];
    assert MaxOf(b.commit) == 0 && MaxOf(OwnStamped(b)) == t;
    assert Possible(Leader(c, {}), e, maxOffset);
    assert [e][1..] == [];
  }

  /**
   * All that a leadership will ever seal is fresh exactly if its clock reaches, at its start, everything the log
   * holds. Being above the partition's own timestamp, which may have gone back, is not the same.
   */
  lemma {:induction false} StartExact(c: C.Clock, w: World, maxOffset: nat)
    requires c.WellFormed()
    ensures w.high <= c.Packed() <==>
            forall events :: Leads(Leader(c, {}), events, maxOffset) ==> FreshLog(w, LogOf(events))
  {
    if w.high <= c.Packed() {
      forall events | Leads(Leader(c, {}), events, maxOffset) ensures FreshLog(w, LogOf(events)) {
        LeadershipFresh(Leader(c, {}), w, events, maxOffset);
      }
    } else {
      var wall := LoneSealed(c, maxOffset);
      var events, b := [Seal(Lone(c.Packed() + 1), 0, [wall], 0)], Lone(c.Packed() + 1);
      assert events[1..] == [] && LogOf(events) == [LogEntry(b, 0)];
      assert Sequence(b) == [b.autocommit[0]];
      LoneStale(w, b.autocommit[0]);
      assert !FreshLog(w, LogOf(events));
    }
  }

  /**
   * The code starts a leadership anywhere above the partition's own timestamp. All that any such leadership will ever
   * seal is fresh exactly if that timestamp is at most one short of everything the log holds.
   */
  lemma {:induction false} CodeStartExact(w: World, maxOffset: nat)
    ensures w.high <= w.p.maxTimestamp + 1 <==>
            forall c: C.Clock, events ::
              c.WellFormed() && c.Packed() > w.p.maxTimestamp && Leads(Leader(c, {}), events, maxOffset) ==>
                FreshLog(w, LogOf(events))
  {
    if w.high <= w.p.maxTimestamp + 1 {
      forall c: C.Clock, events |
        c.WellFormed() && c.Packed() > w.p.maxTimestamp && Leads(Leader(c, {}), events, maxOffset)
        ensures FreshLog(w, LogOf(events))
      {
        LeadershipFresh(Leader(c, {}), w, events, maxOffset);
      }
    } else {
      var t := w.p.maxTimestamp + 1;
      var c := C.Clock(C.Physical(t), C.Logical(t));
      C.SplitPack(t);
      StartExact(c, w, maxOffset);
    }
  }

  lemma {:induction false} LoneStale(w: World, c: Command)
    requires Stamped(c) && c.Autocommit? && c.timestamp <= w.high
    ensures !FreshCommands(w, w.p.db, [c])
  {
    assert [c][..|[c]| - 1] == [];
    assert RunCommands(w, w.p.db, []) == w;
  }

  // ---- one leadership after another

  datatype Term = Term(clock: C.Clock, events: seq<Event>)

  /** Each term begins, on whatever server, with a clock above the partition's timestamp, and no more is known of it. */
  ghost predicate Terms(w: World, terms: seq<Term>, maxOffset: nat)
    decreases |terms|
  {
    terms != [] ==>
      var t := terms[0];
      t.clock.WellFormed() && t.clock.Packed() > w.p.maxTimestamp && Leads(Leader(t.clock, {}), t.events, maxOffset) &&
      StampedLog(LogOf(t.events)) && Terms(RunLog(w, LogOf(t.events)), terms[1..], maxOffset)
  }

  /** Every term's clock reaches the log at its start. */
  ghost predicate Reach(w: World, terms: seq<Term>, maxOffset: nat)
    requires Terms(w, terms, maxOffset)
    decreases |terms|
  {
    terms != [] ==>
      w.high <= terms[0].clock.Packed() && Reach(RunLog(w, LogOf(terms[0].events)), terms[1..], maxOffset)
  }

  function WholeLog(terms: seq<Term>): seq<LogEntry>
    decreases |terms|
  {
    if terms == [] then [] else LogOf(terms[0].events) + WholeLog(terms[1..])
  }

  lemma {:induction false} LogTail(w: World, log: seq<LogEntry>)
    requires FreshLog(w, log) && log != []
    ensures FreshBatch(w, log[0].batch) && FreshLog(RunBatch(w, log[0].batch, log[0].oldest), log[1..])
    ensures RunLog(w, log) == RunLog(RunBatch(w, log[0].batch, log[0].oldest), log[1..])
  {
  }

  lemma {:induction false} LogAppendStep(w: World, e: LogEntry, a: seq<LogEntry>, b: seq<LogEntry>, end: World)
    requires FreshBatch(w, e.batch) && FreshLog(RunBatch(w, e.batch, e.oldest), a + b)
    requires RunLog(RunBatch(w, e.batch, e.oldest), a + b) == end
    ensures FreshLog(w, [e] + a + b) && RunLog(w, [e] + a + b) == end
  {
    assert [e] + a + b == [e] + (a + b);
    LogHead(w, e, a + b);
  }

  lemma {:induction false} LogAppend(w: World, a: seq<LogEntry>, mid: World, b: seq<LogEntry>, end: World)
    requires FreshLog(w, a) && RunLog(w, a) == mid && FreshLog(mid, b) && RunLog(mid, b) == end
    ensures FreshLog(w, a + b) && RunLog(w, a + b) == end
    decreases |a|
  {
    if a == [] {
      assert a + b == b;
    } else {
      LogTail(w, a);
      LogAppend(RunBatch(w, a[0].batch, a[0].oldest), a[1..], mid, b, end);
      LogAppendStep(w, a[0], a[1..], b, end);
      assert [a[0]] + a[1..] == a;
    }
  }

  lemma {:induction false} TermsFresh(w: World, terms: seq<Term>, maxOffset: nat)
    requires Terms(w, terms, maxOffset) && Reach(w, terms, maxOffset)
    ensures FreshLog(w, WholeLog(terms))
    decreases |terms|
  {
    if terms != [] {
      var t := terms[0];
      LeadershipFresh(Leader(t.clock, {}), w, t.events, maxOffset);
      TermsFresh(RunLog(w, LogOf(t.events)), terms[1..], maxOffset);
      var mid := RunLog(w, LogOf(t.events));
      LogAppend(w, LogOf(t.events), mid, WholeLog(terms[1..]), RunLog(mid, WholeLog(terms[1..])));
    }
  }

  /**
   * Main result, for any series of leaderships whose clocks reach the log: the history is serial exactly when every
   * transaction in it was admitted on checks that were true of all that was stored by then.
   */
  lemma {:induction false} LeadershipsExact(pid: nat, terms: seq<Term>, maxOffset: nat)
    requires Terms(Start(pid), terms, maxOffset) && Reach(Start(pid), terms, maxOffset)
    ensures FreshLog(Start(pid), WholeLog(terms))
    ensures var w := RunLog(Start(pid), WholeLog(terms)); Serial(w) <==> forall d :: d in w.history ==> d.current
  {
    TermsFresh(Start(pid), terms, maxOffset);
    PartitionExact(pid, WholeLog(terms));
  }

  // ---- when the partition's timestamp tells where the log stands

  /** The batch does not take the partition's timestamp back. */
  predicate NotBack(maxTimestamp: nat, b: Batch, asked: nat) {
    OwnStamped(b) != [] || asked >= maxTimestamp ||
    exists i :: 0 <= i < |b.commit| && b.commit[i].timestamp >= maxTimestamp
  }

  lemma {:induction false} InSealed(b: Batch, asked: nat, c: Command)
    requires b.maxTimestamp == BatchMax(b, asked) && c in Sequence(b)
    ensures c.timestamp <= b.maxTimestamp
  {
    assert c in OwnStamped(b) || c in b.commit;
    if c in OwnStamped(b) {
      var i :| 0 <= i < |OwnStamped(b)| && OwnStamped(b)[i] == c;
    } else {
      var i :| 0 <= i < |b.commit| && b.commit[i] == c;
    }
  }

  /** A sealed batch raises the log to its own timestamp and no further. */
  lemma {:induction false} HighAfter(w: World, b: Batch, asked: nat, oldest: nat)
    requires AllStamped(Sequence(b)) && b.maxTimestamp == BatchMax(b, asked)
    ensures RunBatch(w, b, oldest).high == Max(w.high, b.maxTimestamp)
  {
    var cs, top := Sequence(b), Max(w.high, b.maxTimestamp);
    forall i | 0 <= i < |cs| ensures cs[i].timestamp <= top {
      InSealed(b, asked, cs[i]);
    }
    HighBounded(w, w.p.db, cs, top);
    HighGrows(w, w.p.db, cs);
  }

  lemma {:induction false} HighGrows(w: World, base: Db, cs: seq<Command>)
    requires AllStamped(cs)
    ensures RunCommands(w, base, cs).high >= w.high
  {
    if cs != [] {
      HighGrows(w, base, cs[..|cs| - 1]);
    }
  }

  lemma {:induction false} SealKeepsMax(l: Leader, w: World, e: Event, maxOffset: nat)
    requires Ready(l, w) && e.Seal? && Possible(l, e, maxOffset) && w.p.maxTimestamp == w.high
    requires NotBack(w.p.maxTimestamp, e.batch, e.asked)
    ensures var w' := RunBatch(w, e.batch, e.oldest); w'.p.maxTimestamp == w'.high
  {
    var own := OwnStamped(e.batch);
    StampsRise(l.clock, maxOffset, e.walls);
    forall i | 0 <= i < |own| ensures own[i].timestamp > w.p.maxTimestamp {
      assert Timestamps(own)[i] > l.clock.Packed();
    }
    MaxTimestampExact(w.p, e.batch, e.asked, e.oldest);
    HighAfter(w, e.batch, e.asked, e.oldest);
  }

  ghost predicate NoneBack(w: World, events: seq<Event>)
    requires StampedLog(LogOf(events))
    decreases |events|
  {
    if events == [] then true
    else
      StampedRest(events);
      if events[0].Seal?
      then NotBack(w.p.maxTimestamp, events[0].batch, events[0].asked) &&
           NoneBack(RunBatch(w, events[0].batch, events[0].oldest), events[1..])
      else NoneBack(w, events[1..])
  }

  lemma {:induction false} StampedRest(events: seq<Event>)
    requires StampedLog(LogOf(events)) && events != []
    ensures StampedLog(LogOf(events[1..])) && (events[0].Seal? ==> AllStamped(Sequence(events[0].batch)))
  {
    var log, rest := LogOf(events), LogOf(events[1..]);
    var k := if events[0].Seal? then 1 else 0;
    if events[0].Seal? {
      assert log[0] == LogEntry(events[0].batch, events[0].oldest);
    }
    forall i | 0 <= i < |rest| ensures AllStamped(Sequence(rest[i].batch)) {
      assert log[i + k] == rest[i];
    }
  }

  lemma {:induction false} RunRest(w: World, events: seq<Event>)
    requires StampedLog(LogOf(events)) && events != []
    ensures StampedLog(LogOf(events[1..])) && (events[0].Seal? ==> AllStamped(Sequence(events[0].batch)))
    ensures RunLog(w, LogOf(events)) ==
            RunLog(if events[0].Seal? then RunBatch(w, events[0].batch, events[0].oldest) else w, LogOf(events[1..]))
  {
    StampedRest(events);
    if events[0].Seal? {
      assert LogOf(events)[1..] == LogOf(events[1..]) && LogOf(events)[0].batch == events[0].batch;
    } else {
      assert LogOf(events) == LogOf(events[1..]);
    }
  }

  lemma {:induction false} TermKeepsMax(l: Leader, w: World, events: seq<Event>, maxOffset: nat)
    requires Ready(l, w) && Leads(l, events, maxOffset) && w.p.maxTimestamp == w.high
    requires StampedLog(LogOf(events)) && NoneBack(w, events)
    ensures RunLog(w, LogOf(events)).p.maxTimestamp == RunLog(w, LogOf(events)).high
    decreases |events|
  {
    if events != [] {
      var e := events[0];
      RunRest(w, events);
      if e.Seal? {
        SealFresh(l, w, e.batch, e.asked, e.walls, e.oldest, maxOffset);
        SealKeepsMax(l, w, e, maxOffset);
        TermKeepsMax(After(l, e, maxOffset), RunBatch(w, e.batch, e.oldest), events[1..], maxOffset);
      } else {
        EventKeepsReady(l, w, e, maxOffset);
        TermKeepsMax(After(l, e, maxOffset), w, events[1..], maxOffset);
      }
    }
  }

  ghost predicate NoneEverBack(w: World, terms: seq<Term>, maxOffset: nat)
    requires Terms(w, terms, maxOffset)
    decreases |terms|
  {
    terms != [] ==>
      NoneBack(w, terms[0].events) && NoneEverBack(RunLog(w, LogOf(terms[0].events)), terms[1..], maxOffset)
  }

  /** If no batch takes the partition's timestamp back, every leadership starts with a clock that reaches the log. */
  lemma {:induction false} NoneBackReaches(w: World, terms: seq<Term>, maxOffset: nat)
    requires Terms(w, terms, maxOffset) && NoneEverBack(w, terms, maxOffset) && w.p.maxTimestamp == w.high
    ensures Reach(w, terms, maxOffset)
    decreases |terms|
  {
    if terms != [] {
      var t := terms[0];
      TermKeepsMax(Leader(t.clock, {}), w, t.events, maxOffset);
      NoneBackReaches(RunLog(w, LogOf(t.events)), terms[1..], maxOffset);
    }
  }

  /** So a partition whose timestamp never goes back is safe through any changes of leadership. */
  lemma {:induction false} NoneBackIsFresh(pid: nat, terms: seq<Term>, maxOffset: nat)
    requires Terms(Start(pid), terms, maxOffset) && NoneEverBack(Start(pid), terms, maxOffset)
    ensures FreshLog(Start(pid), WholeLog(terms))
  {
    NoneBackReaches(Start(pid), terms, maxOffset);
    TermsFresh(Start(pid), terms, maxOffset);
  }

  // ---- whether reads at the partition's timestamp see every commit

  /** Nothing is stored above the partition's timestamp. */
  ghost predicate AllBelow(p: Partition) {
    forall v :: v in p.db ==> v.timestamp <= p.maxTimestamp
  }

  /** The batch brings the partition's timestamp up to everything stored before it. */
  ghost predicate Reaches(db: Db, b: Batch, asked: nat) {
    OwnStamped(b) != [] ||
    forall v :: v in db ==>
      v.timestamp <= asked || exists i :: 0 <= i < |b.commit| && b.commit[i].timestamp >= v.timestamp
  }

  lemma {:induction false} StoreStep(p: Partition, base: Db, c: Command, v: Version)
    requires Stamped(c)
    ensures v in p.db ==> v in Apply(p, base, c).0.db
    ensures v in Apply(p, base, c).0.db ==> v in p.db || v.timestamp == c.timestamp
  {
    match c {
      case Autocommit(txn, ts) => PutAllEffect(p.db, txn.actions, ts, v);
      case Commit(id, ts) =>
        if id in p.prepared {
          PutAllEffect(p.db, p.prepared[id].txn.actions, ts, v);
        }
      case _ =>
    }
  }

  lemma {:induction false} StoreAfter(p: Partition, base: Db, cs: seq<Command>, v: Version, top: nat)
    requires AllStamped(cs) && forall i :: 0 <= i < |cs| ==> cs[i].timestamp <= top
    ensures v in p.db ==> v in ApplyAll(p, base, cs).db
    ensures v in ApplyAll(p, base, cs).db ==> v in p.db || v.timestamp <= top
  {
    if cs != [] {
      StoreAfter(p, base, cs[..|cs| - 1], v, top);
      StoreStep(ApplyAll(p, base, cs[..|cs| - 1]), base, cs[|cs| - 1], v);
    }
  }

  /** After a batch everything stored lies below the partition's timestamp exactly if the batch reaches it. */
  lemma {:induction false} SealReachesExact(l: Leader, w: World, e: Event, maxOffset: nat)
    requires Ready(l, w) && Shape(w.p, w.high) && e.Seal? && Possible(l, e, maxOffset)
    ensures AllBelow(RunBatch(w, e.batch, e.oldest).p) <==> Reaches(w.p.db, e.batch, e.asked)
  {
    var b, own := e.batch, OwnStamped(e.batch);
    var q := RunBatch(w, b, e.oldest).p;
    forall v ensures (v in w.p.db ==> v in q.db) && (v in q.db ==> v in w.p.db || v.timestamp <= b.maxTimestamp) {
      forall i | 0 <= i < |Sequence(b)| ensures Sequence(b)[i].timestamp <= b.maxTimestamp {
        InSealed(b, e.asked, Sequence(b)[i]);
      }
      StoreAfter(w.p, w.p.db, Sequence(b), v, b.maxTimestamp);
    }
    if own != [] {
      StampsRise(l.clock, maxOffset, e.walls);
      assert Timestamps(own)[0] > l.clock.Packed() && own[0].timestamp <= MaxOf(own);
    } else {
      ReachedExact(w.p.db, b, e.asked);
    }
  }

  lemma {:induction false} ReachedExact(db: Db, b: Batch, asked: nat)
    requires OwnStamped(b) == []
    ensures Reaches(db, b, asked) <==> forall v :: v in db ==> v.timestamp <= BatchMax(b, asked)
  {
    assert MaxOf(OwnStamped(b)) == 0 && (b.commit == [] ==> MaxOf(b.commit) == 0);
    forall v | v in db
      ensures v.timestamp <= BatchMax(b, asked) <==>
              v.timestamp <= asked || exists i :: 0 <= i < |b.commit| && b.commit[i].timestamp >= v.timestamp
    {
      if b.commit != [] {
        var i :| 0 <= i < |b.commit| && b.commit[i].timestamp == MaxOf(b.commit);
        assert v.timestamp <= MaxOf(b.commit) ==> b.commit[i].timestamp >= v.timestamp;
      }
    }
  }

  /** At every moment of the leadership nothing is stored above the partition's timestamp. */
  ghost predicate AlwaysBelow(w: World, events: seq<Event>)
    requires StampedLog(LogOf(events))
    decreases |events|
  {
    AllBelow(w.p) &&
    if events == [] then true
    else
      StampedRest(events);
      AlwaysBelow(if events[0].Seal? then RunBatch(w, events[0].batch, events[0].oldest) else w, events[1..])
  }

  ghost predicate EachReaches(w: World, events: seq<Event>)
    requires StampedLog(LogOf(events))
    decreases |events|
  {
    if events == [] then true
    else
      StampedRest(events);
      if events[0].Seal?
      then Reaches(w.p.db, events[0].batch, events[0].asked) &&
           EachReaches(RunBatch(w, events[0].batch, events[0].oldest), events[1..])
      else EachReaches(w, events[1..])
  }

  /**
   * Over a leadership the partition's timestamp keeps up with all that is stored exactly if each of its batches holds a
   * command stamped by the leader, or a commit or read request that reaches what is stored.
   */
  lemma {:induction false} KeepsUpExact(l: Leader, w: World, events: seq<Event>, maxOffset: nat)
    requires Ready(l, w) && Inv(w) && AllBelow(w.p) && Leads(l, events, maxOffset) && StampedLog(LogOf(events))
    ensures AlwaysBelow(w, events) <==> EachReaches(w, events)
    decreases |events|
  {
    if events != [] {
      var e := events[0];
      StampedRest(events);
      if e.Seal? {
        SealReachesExact(l, w, e, maxOffset);
        SealFresh(l, w, e.batch, e.asked, e.walls, e.oldest, maxOffset);
        BatchKeepsInv(w, e.batch, e.oldest);
        var w' := RunBatch(w, e.batch, e.oldest);
        if AllBelow(w'.p) {
          KeepsUpExact(After(l, e, maxOffset), w', events[1..], maxOffset);
        }
      } else {
        EventKeepsReady(l, w, e, maxOffset);
        KeepsUpExact(After(l, e, maxOffset), w, events[1..], maxOffset);
      }
    }
  }

  lemma {:induction false} BelowAtEnd(w: World, events: seq<Event>)
    requires StampedLog(LogOf(events)) && AlwaysBelow(w, events)
    ensures AllBelow(RunLog(w, LogOf(events)).p)
    decreases |events|
  {
    if events != [] {
      RunRest(w, events);
      BelowAtEnd(if events[0].Seal? then RunBatch(w, events[0].batch, events[0].oldest) else w, events[1..]);
    }
  }

  ghost predicate BelowThroughout(w: World, terms: seq<Term>, maxOffset: nat)
    requires Terms(w, terms, maxOffset)
    decreases |terms|
  {
    terms != [] ==>
      AlwaysBelow(w, terms[0].events) && BelowThroughout(RunLog(w, LogOf(terms[0].events)), terms[1..], maxOffset)
  }

  ghost predicate ReachThroughout(w: World, terms: seq<Term>, maxOffset: nat)
    requires Terms(w, terms, maxOffset)
    decreases |terms|
  {
    terms != [] ==>
      EachReaches(w, terms[0].events) && ReachThroughout(RunLog(w, LogOf(terms[0].events)), terms[1..], maxOffset)
  }

  /** The same over any series of leaderships whose clocks reach the log. */
  lemma {:induction false} TermsKeepUpExact(w: World, terms: seq<Term>, maxOffset: nat)
    requires Inv(w) && AllBelow(w.p) && Terms(w, terms, maxOffset) && Reach(w, terms, maxOffset)
    ensures BelowThroughout(w, terms, maxOffset) <==> ReachThroughout(w, terms, maxOffset)
    decreases |terms|
  {
    if terms != [] {
      var l, events := Leader(terms[0].clock, {}), terms[0].events;
      KeepsUpExact(l, w, events, maxOffset);
      if AlwaysBelow(w, events) {
        LeadershipFresh(l, w, events, maxOffset);
        LogKeepsInv(w, LogOf(events));
        BelowAtEnd(w, events);
        TermsKeepUpExact(RunLog(w, LogOf(events)), terms[1..], maxOffset);
      }
    }
  }

  /** A read is overtaken: it conflicts with a transaction, and covers something else stored since that prepared. */
  ghost predicate Overtaken(p: Partition, locks: seq<Lock>, v: Version, id: TxnId) {
    Concerns(p, locks, v) && Blocks(p, id, locks) && v.timestamp >= p.prepared[id].timestamp &&
    !ListCovers(p.prepared[id].locks, v.address)
  }

  /** The partition's timestamp has kept up with all that is stored where the read looks. */
  ghost predicate KeptUpFor(p: Partition, locks: seq<Lock>) {
    forall v :: Concerns(p, locks, v) ==> v.timestamp <= p.maxTimestamp
  }

  ghost predicate SeesAll(p: Partition, locks: seq<Lock>, safe: nat) {
    forall v :: Concerns(p, locks, v) ==> v.timestamp <= safe
  }

  /**
   * A read at the safe timestamp sees all that is committed where it looks exactly if the partition's timestamp has
   * kept up with that and the read is not overtaken.
   */
  lemma {:induction false} ReadSeesAllExact(w: World, locks: seq<Lock>, safe: nat, conflicting: bool)
    requires Inv(w) && IsSafe(w.p, locks, safe, conflicting)
    ensures SeesAll(w.p, locks, safe) <==>
            KeptUpFor(w.p, locks) && !exists v, id :: Overtaken(w.p, locks, v, id)
  {
    if v, id :| Overtaken(w.p, locks, v, id) {
      assert safe < w.p.prepared[id].timestamp;
    } else if KeptUpFor(w.p, locks) {
      forall v | Concerns(w.p, locks, v) ensures v.timestamp <= safe {
        if safe != w.p.maxTimestamp {
          var id :| Blocks(w.p, id, locks) && safe == w.p.prepared[id].timestamp - 1;
          assert !Overtaken(w.p, locks, v, id);
          assert Undisturbed(w.p, w.p.prepared[id], w.current[id]);
        }
      }
    }
  }

  /**
   * Main result for read-only transactions, after any fresh log of a partition: a read at the safe timestamp sees every
   * commit exactly if the partition's timestamp has kept up where it looks and it is not overtaken. For a read of one
   * key only the first is in question.
   */
  lemma {:induction false} LogReadsExact(pid: nat, log: seq<LogEntry>, txn: seq<Action>, safe: nat, conflicting: bool)
    requires FreshLog(Start(pid), log) && IsSafe(RunLog(Start(pid), log).p, LocksOf(txn), safe, conflicting)
    ensures var p, locks := RunLog(Start(pid), log).p, LocksOf(txn);
            (SeesAll(p, locks, safe) <==> KeptUpFor(p, locks) && !exists v, id :: Overtaken(p, locks, v, id)) &&
            (|txn| == 1 && txn[0].payload.Read? ==> (SeesAll(p, locks, safe) <==> KeptUpFor(p, locks)))
  {
    var end := RunLog(Start(pid), log);
    InitInv(pid);
    LogKeepsInv(Start(pid), log);
    ReadSeesAllExact(end, LocksOf(txn), safe, conflicting);
    if |txn| == 1 && txn[0].payload.Read? {
      PointNeverOvertaken(end.p, txn);
    }
  }

  lemma {:induction false} PointNeverOvertaken(p: Partition, txn: seq<Action>)
    requires |txn| == 1 && txn[0].payload.Read?
    ensures !exists v, id :: Overtaken(p, LocksOf(txn), v, id)
  {
    assert txn == [txn[0]];
    forall v, id ensures !Overtaken(p, LocksOf(txn), v, id) {
      PointReadNotOvertaken(p, txn[0], v, id);
    }
  }

  /** A read of a single key is never overtaken: whoever it conflicts with has that very key locked. */
  lemma {:induction false} PointReadNotOvertaken(p: Partition, act: Action, v: Version, id: TxnId)
    requires act.payload.Read?
    ensures !Overtaken(p, LocksOf([act]), v, id)
  {
    var a, l := Address(act.payload.keyspace, act.payload.key), BuildLock(act).value;
    assert [act][..0] == [] && LocksOf([act]) == [l];
    if Blocks(p, id, LocksOf([act])) && ListCovers(LocksOf([act]), v.address) {
      var m :| m in p.prepared[id].locks && !CompatibleWith(l, m);
      if EmptyRange(m) {
        EmptyRangeExact(l, m);
      } else {
        IncompatibleOverlap(l, m);
        var shared :| Covers(l, shared) && Covers(m, shared);
        assert Covers(m, v.address);
      }
    }
  }

  /** After a leadership whose batches reach what is stored, a read misses something only where it is overtaken. */
  lemma {:induction false} ReadsSeeAll(l: Leader, w: World, events: seq<Event>, maxOffset: nat, txn: seq<Action>,
                                       safe: nat, conflicting: bool)
    requires Ready(l, w) && Inv(w) && AllBelow(w.p) && Leads(l, events, maxOffset)
    requires StampedLog(LogOf(events)) && EachReaches(w, events)
    requires IsSafe(RunLog(w, LogOf(events)).p, LocksOf(txn), safe, conflicting)
    ensures var p, locks := RunLog(w, LogOf(events)).p, LocksOf(txn);
            (SeesAll(p, locks, safe) <==> !exists v, id :: Overtaken(p, locks, v, id)) &&
            (|txn| == 1 && txn[0].payload.Read? ==> SeesAll(p, locks, safe))
  {
    var end := RunLog(w, LogOf(events));
    LeadershipFresh(l, w, events, maxOffset);
    LogKeepsInv(w, LogOf(events));
    KeepsUpExact(l, w, events, maxOffset);
    BelowAtEnd(w, events);
    ReadSeesAllExact(end, LocksOf(txn), safe, conflicting);
    if |txn| == 1 && txn[0].payload.Read? {
      PointNeverOvertaken(end.p, txn);
    }
  }

  // ---- a change of leadership that breaks the promises

  const THIRD := Txn(TxnId(0, 2, 4), [INSERT], [])
  const E4 := LogEntry(Alone(Autocommit(THIRD, 4)), 0)
  const ZERO: C.Wall := [0, 0, 0]

  function FirstEvents(): seq<Event> {
    [Seal(E1.batch, 0, [ZERO], 0), Receive(8, 0, ZERO), Seal(E2.batch, 0, [ZERO], 0), Receive(2, 0, ZERO),
     Seal(E3.batch, 0, [], 0)]
  }

  function SecondEvents(): seq<Event> {
    [Seal(E4.batch, 0, [ZERO], 0)]
  }

  lemma {:induction false} AloneParts(c: Command)
    requires c.Prepare? || c.Autocommit?
    ensures var b := Alone(c);
            OwnStamped(b) == [c] && Sequence(b) == [c] && b.commit == [] && Typed(b) && b.maxTimestamp == BatchMax(b, 0)
  {
    var b := Alone(c);
    assert OwnStamped(b) == [c] && b.commit == [];
    assert [c][..|[c]| - 1] == [] && MaxOf([c]) == c.timestamp && MaxOf([]) == 0;
  }

  lemma {:induction false} SealAlone(l: Leader, c: Command)
    requires c.Prepare? || c.Autocommit?
    requires l.clock.WellFormed() && l.clock.physical == 0 && l.clock.logical < C.LOGICAL_MAX
    requires c.timestamp == l.clock.logical + 1
    ensures Possible(l, Seal(Alone(c), 0, [ZERO], 0), 0)
    ensures After(l, Seal(Alone(c), 0, [ZERO], 0), 0) == l.(clock := C.Clock(0, c.timestamp))
  {
    assert C.NowOf(l.clock, 0, ZERO) == C.Advanced(C.Clock(0, c.timestamp));
    OneStamp(l.clock, 0, ZERO);
    AloneParts(c);
    assert Timestamps([c]) == [c.timestamp];
  }

  lemma {:induction false} SealCommit(l: Leader)
    requires 2 in l.reached
    ensures Possible(l, Seal(E3.batch, 0, [], 0), 0) && After(l, Seal(E3.batch, 0, [], 0), 0) == l
  {
    var b := E3.batch;
    assert OwnStamped(b) == [] && b.commit == [Commit(FIRST.id, 2)] && Sequence(b) == b.commit;
    assert Timestamps([]) == [];
    assert b.commit[..0] == [] && MaxOf(b.commit) == 2 && MaxOf([]) == 0;
  }

  lemma {:induction false} LeadsFirst(l: Leader, e: Event, rest: seq<Event>, maxOffset: nat)
    requires Possible(l, e, maxOffset) && Leads(After(l, e, maxOffset), rest, maxOffset)
    ensures Leads(l, [e] + rest, maxOffset)
    ensures LogOf([e] + rest) == (if e.Seal? then [LogEntry(e.batch, e.oldest)] else []) + LogOf(rest)
  {
    assert ([e] + rest)[0] == e && ([e] + rest)[1..] == rest;
  }

  lemma {:induction false} PassesEight()
    ensures var l := Leader(C.Clock(0, 2), {});
            Possible(l, Receive(8, 0, ZERO), 0) && After(l, Receive(8, 0, ZERO), 0) == Leader(C.Clock(0, 9), {8})
  {
    assert {} + {8} == {8};
  }

  lemma {:induction false} PassesTwo()
    ensures var l := Leader(C.Clock(0, 10), {8});
            Possible(l, Receive(2, 0, ZERO), 0) && 2 in After(l, Receive(2, 0, ZERO), 0).reached
  {
  }

  lemma {:induction false} CommitLeads()
    ensures var es := [Receive(2, 0, ZERO), Seal(E3.batch, 0, [], 0)];
            Leads(Leader(C.Clock(0, 10), {8}), es, 0) && LogOf(es) == [E3]
  {
    var l, e, f := Leader(C.Clock(0, 10), {8}), Receive(2, 0, ZERO), Seal(E3.batch, 0, [], 0);
    PassesTwo();
    var l' := After(l, e, 0);
    SealCommit(l');
    LeadsFirst(l', f, [], 0);
    assert [f] + [] == [f] && LogOf([f]) == [E3];
    LeadsFirst(l, e, [f], 0);
    assert [e] + [f] == [e, f] && [] + LogOf([f]) == LogOf([f]);
  }

  lemma {:induction false} InsertLeads()
    ensures var es := [Seal(E2.batch, 0, [ZERO], 0), Receive(2, 0, ZERO), Seal(E3.batch, 0, [], 0)];
            Leads(Leader(C.Clock(0, 9), {8}), es, 0) && LogOf(es) == [E2, E3]
  {
    var rest := [Receive(2, 0, ZERO), Seal(E3.batch, 0, [], 0)];
    SealAlone(Leader(C.Clock(0, 9), {8}), Autocommit(SECOND, 10));
    CommitLeads();
    LeadsFirst(Leader(C.Clock(0, 9), {8}), Seal(E2.batch, 0, [ZERO], 0), rest, 0);
    assert [Seal(E2.batch, 0, [ZERO], 0)] + rest == [Seal(E2.batch, 0, [ZERO], 0), rest[0], rest[1]];
    assert [E2] + [E3] == [E2, E3];
  }

  lemma {:induction false} FirstLeads()
    ensures Leads(Leader(C.Clock(0, 1), {}), FirstEvents(), 0)
    ensures LogOf(FirstEvents()) == [E1, E2, E3]
  {
    var rest := [Seal(E2.batch, 0, [ZERO], 0), Receive(2, 0, ZERO), Seal(E3.batch, 0, [], 0)];
    var e, f := Seal(E1.batch, 0, [ZERO], 0), Receive(8, 0, ZERO);
    InsertLeads();
    PassesEight();
    LeadsFirst(Leader(C.Clock(0, 2), {}), f, rest, 0);
    assert [] + LogOf(rest) == LogOf(rest);
    SealAlone(Leader(C.Clock(0, 1), {}), Prepare(FIRST, 2));
    LeadsFirst(Leader(C.Clock(0, 1), {}), e, [f] + rest, 0);
    assert [e] + ([f] + rest) == FirstEvents() && [E1] + [E2, E3] == [E1, E2, E3];
  }

  lemma {:induction false} SecondLeads()
    ensures Leads(Leader(C.Clock(0, 3), {}), SecondEvents(), 0) && LogOf(SecondEvents()) == [E4]
  {
    SealAlone(Leader(C.Clock(0, 3), {}), Autocommit(THIRD, 4));
    assert SecondEvents()[1..] == [] && LogOf(SecondEvents()[1..]) == [];
  }

  lemma {:induction false} FreeInsert(p: Partition, db: Db, txn: Txn, ts: nat)
    requires (forall id :: !Held(p, id)) && ts > 0 && Get(db, KEY, ts - 1) == None && txn.actions == [INSERT]
    ensures Admit(p, db, txn, ts) == None
  {
    InsertFacts(ts - 1, db);
    assert ChecksHold(db, [INSERT], ts - 1);
    forall l ensures LockFree(p, l) {
      forall id | id in p.prepared && !p.prepared[id].released ensures false {
        assert Held(p, id);
      }
    }
  }

  lemma {:induction false} NothingBelow(db: Db, t: nat)
    requires forall u :: 0 <= u <= t ==> Version(KEY, u) !in db
    ensures Get(db, KEY, t) == None
  {
    if t > 0 {
      NothingBelow(db, t - 1);
    }
  }

  lemma {:induction false} InsertShowsThrough(db: Db)
    requires Version(KEY, 4) in db && db[Version(KEY, 4)] == Some([7])
    requires forall t :: 4 < t <= 9 ==> Version(KEY, t) !in db
    ensures Get(db, KEY, 9) == Some([7]) && !CheckHolds(db, INSERT, 9)
  {
    GetAcrossGap(db, KEY, 4, 9);
  }

  /** The key was inserted at 10 and at no time before, nothing is locked, and the partition's timestamp is 2. */
  ghost predicate Exposed(w: World) {
    w.p.maxTimestamp == 2 && (forall id :: !Held(w.p, id)) && THIRD.id !in w.p.status &&
    (forall t :: 0 <= t < 10 ==> Version(KEY, t) !in w.p.db) && Done([INSERT], 10, true) in w.history
  }

  lemma {:induction false} FirstTerm() returns (t: Term, served: seq<LogEntry>, log: seq<LogEntry>)
    ensures t.clock == C.Clock(0, 1) && Leads(Leader(t.clock, {}), t.events, 0) && LogOf(t.events) == log
    ensures FreshLog(Start(0), log) && NoStaleLog(log) && Exposed(RunLog(Start(0), log))
    ensures forall d :: d in RunLog(Start(0), log).history ==> d.current
    ensures FreshLog(Start(0), served) && served <= log && Served(RunLog(Start(0), served), [READ_KEY], 9)
    ensures Get(RunLog(Start(0), served).p.db, KEY, 9) == None
  {
    served, log := FirstLog();
    t := Term(C.Clock(0, 1), FirstEvents());
    FirstLeads();
    NotStale(log);
    assert log == LogOf(t.events);
    RetreatedIsExposed();
    ServedAtNine();
  }

  lemma {:induction false} FirstLog() returns (served: seq<LogEntry>, log: seq<LogEntry>)
    ensures served == [E1, E2] && log == [E1, E2, E3] && served <= log
    ensures FreshLog(Start(0), served) && RunLog(Start(0), served) == Contended()
    ensures FreshLog(Start(0), log) && RunLog(Start(0), log) == Retreated()
  {
    served, log := [E1, E2], [E1, E2, E3];
    TheLogRuns();
  }

  lemma {:induction false} NotStale(log: seq<LogEntry>)
    requires log == [E1, E2, E3]
    ensures NoStaleLog(log)
  {
    LoneNotStale(Prepare(FIRST, 2));
    LoneNotStale(Autocommit(SECOND, 10));
    LoneNotStale(Commit(FIRST.id, 2));
  }

  lemma {:induction false} RetreatedIsExposed()
    ensures Exposed(Retreated()) && forall d :: d in Retreated().history ==> d.current
  {
    assert Retreated().history[0] == Done([INSERT], 10, true);
  }

  lemma {:induction false} LoneNotStale(c: Command)
    requires c.Prepare? || c.Commit? || c.Autocommit?
    ensures NoStaleChecks(Sequence(Alone(c)))
  {
    assert Sequence(Alone(c)) == [c];
  }

  lemma {:induction false} ServedAtNine()
    ensures Served(Contended(), [READ_KEY], 9) && Get(Contended().p.db, KEY, 9) == None
  {
    var w, locks := Contended(), LocksOf([READ_KEY]);
    ReadLocks();
    OtherFacts();
    forall id ensures !Blocks(w.p, id, locks) {
    }
    assert IsSafe(w.p, locks, 10, false);
    assert EntryOk(w.p, FIRST.id, 10);
    NothingBelow(w.p.db, 9);
  }

  /** The second leader's insert is admitted below the first one's, which it cannot see. */
  lemma {:induction false} SecondRuns(w: World)
    requires Exposed(w)
    ensures Sequence(E4.batch) == [Autocommit(THIRD, 4)]
    ensures var w' := RunBatch(w, E4.batch, 0);
            w'.p.db == w.p.db[Version(KEY, 4) := Some([7])] && Done([INSERT], 10, true) in w'.history
  {
    var c := Autocommit(THIRD, 4);
    NothingBelow(w.p.db, 3);
    FreeInsert(w.p, w.p.db, THIRD, 4);
    AloneRuns(w, c);
    InsertFacts(4, w.p.db);
    var i :| 0 <= i < |w.history| && w.history[i] == Done([INSERT], 10, true);
    assert Step(w, w.p.db, c).history[i] == w.history[i];
  }

  lemma {:induction false} SecondTerm(w: World) returns (t: Term, log: seq<LogEntry>)
    requires Exposed(w)
    ensures t.clock == C.Clock(0, 3) && Leads(Leader(t.clock, {}), t.events, 0) && LogOf(t.events) == log
    ensures StampedLog(log) && NoStaleLog(log) && !Serial(RunLog(w, log))
    ensures Get(RunLog(w, log).p.db, KEY, 9) == Some([7])
  {
    t, log := Term(C.Clock(0, 3), SecondEvents()), [E4];
    SecondLeads();
    SecondRuns(w);
    LoneNotStale(Autocommit(THIRD, 4));
    OneEntry(w, E4);
    BrokenHistory(RunLog(w, log));
  }

  lemma {:induction false} BrokenHistory(w: World)
    requires Version(KEY, 4) in w.p.db && w.p.db[Version(KEY, 4)] == Some([7])
    requires (forall t :: 4 < t <= 9 ==> Version(KEY, t) !in w.p.db) && Done([INSERT], 10, true) in w.history
    ensures !Serial(w) && Get(w.p.db, KEY, 9) == Some([7])
  {
    InsertShowsThrough(w.p.db);
    var d := Done([INSERT], 10, true);
    assert !CheckHolds(w.p.db, d.actions[0], 9);
  }

  lemma {:induction false} OneEntry(w: World, e: LogEntry)
    requires AllStamped(Sequence(e.batch))
    ensures StampedLog([e]) && RunLog(w, [e]) == RunBatch(w, e.batch, e.oldest)
  {
    assert [e][1..] == [] && RunLog(RunBatch(w, e.batch, e.oldest), []) == RunBatch(w, e.batch, e.oldest);
  }

  lemma {:induction false} TwoTerms(w: World, t1: Term, t2: Term)
    requires t1.clock.WellFormed() && Leads(Leader(t1.clock, {}), t1.events, 0) && StampedLog(LogOf(t1.events))
    requires t2.clock.WellFormed() && Leads(Leader(t2.clock, {}), t2.events, 0) && StampedLog(LogOf(t2.events))
    requires t1.clock.Packed() > w.p.maxTimestamp
    requires t2.clock.Packed() > RunLog(w, LogOf(t1.events)).p.maxTimestamp
    ensures Terms(w, [t1, t2], 0)
  {
    var w1 := RunLog(w, LogOf(t1.events));
    assert [t2][1..] == [] && Terms(w1, [t2], 0);
    assert [t1, t2][1..] == [t2];
  }

  /**
   * A change of leadership breaks both promises, without any stale check: a commit alone takes the partition's
   * timestamp back, the next leader's clock need only pass that, and its insert is stored below one that has
   * committed. The history was serial and no longer is, and a read that was served finds another value.
   */
  lemma {:induction false} LeaderChangeBreaks() returns (t1: Term, t2: Term, served: seq<LogEntry>)
    ensures Terms(Start(0), [t1, t2], 0)
    ensures StampedLog(LogOf(t1.events)) && StampedLog(LogOf(t2.events)) && StampedLog(served)
    ensures NoStaleLog(LogOf(t1.events)) && NoStaleLog(LogOf(t2.events)) && served <= LogOf(t1.events)
    ensures var w := RunLog(Start(0), LogOf(t1.events)); Serial(w) && !Serial(RunLog(w, LogOf(t2.events)))
    ensures Served(RunLog(Start(0), served), [READ_KEY], 9)
    ensures Get(RunLog(RunLog(Start(0), LogOf(t1.events)), LogOf(t2.events)).p.db, KEY, 9) !=
            Get(RunLog(Start(0), served).p.db, KEY, 9)
  {
    var log1, log2;
    t1, served, log1 := FirstTerm();
    var w := RunLog(Start(0), log1);
    PartitionExact(0, log1);
    t2, log2 := SecondTerm(w);
    TwoTerms(Start(0), t1, t2);
  }
}
