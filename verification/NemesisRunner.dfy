/**
 * The fault injection agent: requests queue commands under a lock, a main loop runs the faults and collects their
 * results, and a counter that both sides update tells how many are under way.
 */
module NemesisRunner {

  datatype Cmd = RunCmd | StopAllCmd

  /** What the request that holds the lock is doing. */
  datatype Holder =
    | Nobody
    | Adding         // its run command is queued, the counter not yet raised
    | AwaitingStop   // its stop command is queued or being carried out

  datatype Main =
    | Selecting
    | Lowering                  // took a result off the map, the counter not yet lowered
    | Collecting(got: nat)      // stopping all: that many results received
    | Zeroing                   // all received, the map cleared
    | Announcing                // counter reset, the requester not yet told
    | Ended

  /** `live` are the faults whose result has not been received. */
  datatype World = World(
    holder: Holder,
    queue: seq<Cmd>,
    main: Main,
    running: set<nat>,
    live: set<nat>,
    started: nat,
    count: int)

  const FRESH := World(Nobody, [], Selecting, {}, {}, 0, 0)

  datatype Step =
    | RequestRun
    | RaiseCount
    | RequestStop
    | TakeRun
    | TakeStop
    | TakeResult(id: nat)
    | LowerCount
    | CollectResult(id: nat)
    | ClearRunning
    | ZeroCount
    | Announce
    | Shutdown

  /** The command channel holds one command. */
  predicate Enabled(w: World, s: Step) {
    match s
    case RequestRun => w.holder.Nobody? && w.queue == []
    case RaiseCount => w.holder.Adding?
    case RequestStop => w.holder.Nobody? && w.queue == []
    case TakeRun => w.main.Selecting? && w.queue == [RunCmd]
    case TakeStop => w.main.Selecting? && w.queue == [StopAllCmd]
    case TakeResult(id) => w.main.Selecting? && id in w.live
    case LowerCount => w.main.Lowering?
    case CollectResult(id) => w.main.Collecting? && w.main.got < |w.running| && id in w.live
    case ClearRunning => w.main.Collecting? && w.main.got == |w.running|
    case ZeroCount => w.main.Zeroing?
    case Announce => w.main.Announcing? && w.holder.AwaitingStop?
    case Shutdown => w.main.Selecting?
  }

  function Do(w: World, s: Step): World
    requires Enabled(w, s)
  {
    match s
    case RequestRun => w.(queue := [RunCmd], holder := Adding)
    case RaiseCount => w.(count := w.count + 1, holder := Nobody)
    case RequestStop => w.(queue := [StopAllCmd], holder := AwaitingStop)
    case TakeRun =>
      w.(queue := [], started := w.started + 1, running := w.running + {w.started + 1},
         live := w.live + {w.started + 1})
    case TakeStop => w.(queue := [], main := Collecting(0))
    case TakeResult(id) => w.(live := w.live - {id}, running := w.running - {id}, main := Lowering)
    case LowerCount => w.(count := w.count - 1, main := Selecting)
    case CollectResult(id) => w.(live := w.live - {id}, main := Collecting(w.main.got + 1))
    case ClearRunning => w.(running := {}, main := Zeroing)
    case ZeroCount => w.(count := 0, main := Announcing)
    case Announce => w.(main := Selecting, holder := Nobody)
    case Shutdown => w.(main := Ended)
  }

  ghost predicate Next(w: World, w': World) {
    exists s :: Enabled(w, s) && w' == Do(w, s)
  }

  ghost predicate IsRun(run: seq<World>) {
    run != [] && run[0] == FRESH && forall i :: 0 <= i < |run| - 1 ==> Next(run[i], run[i + 1])
  }

  predicate Stopping(m: Main) {
    m.Collecting? || m.Zeroing? || m.Announcing?
  }

  function Queued(w: World): nat {
    if w.queue == [RunCmd] then 1 else 0
  }

  function Pending(w: World): int {
    (if w.holder.Adding? then 1 else 0) - if w.main.Lowering? then 1 else 0
  }

  ghost predicate Shape(w: World) {
    (w.queue == [] || w.queue == [RunCmd] || w.queue == [StopAllCmd]) &&
    (forall id :: id in w.running ==> id <= w.started) && w.live <= w.running &&
    (w.holder.AwaitingStop? <==> w.queue == [StopAllCmd] || Stopping(w.main)) &&
    (Stopping(w.main) ==> w.queue == []) &&
    (w.main.Selecting? || w.main.Lowering? ==> w.live == w.running) &&
    (w.main.Collecting? ==> |w.live| + w.main.got == |w.running|) &&
    (w.main.Zeroing? || w.main.Announcing? ==> w.running == {} && w.live == {})
  }

  /** The counter with the updates still to come is the number of queued and running faults. */
  predicate Conserved(w: World) {
    w.main.Zeroing? || w.count + Pending(w) == Queued(w) + |w.running|
  }

  ghost predicate Inv(w: World) {
    !w.main.Ended? ==> Shape(w) && Conserved(w)
  }

  lemma {:induction false} SizeGrows(s: set<nat>, x: nat)
    requires x !in s
    ensures |s + {x}| == |s| + 1
  {
  }

  lemma {:induction false} SizeShrinks(s: set<nat>, x: nat)
    requires x in s
    ensures |s - {x}| == |s| - 1
  {
  }

  lemma {:induction false} ShapeKept(w: World, s: Step)
    requires Shape(w) && !w.main.Ended? && Enabled(w, s) && !s.Shutdown?
    ensures Shape(Do(w, s))
  {
    if s.CollectResult? {
      SizeShrinks(w.live, s.id);
    }
  }

  lemma {:induction false} CountKept(w: World, s: Step)
    requires Shape(w) && Conserved(w) && !w.main.Ended? && Enabled(w, s) && !s.Shutdown?
    ensures Conserved(Do(w, s))
  {
    match s {
      case TakeRun => SizeGrows(w.running, w.started + 1);
      case TakeResult(id) => SizeShrinks(w.running, id);
      case _ =>
    }
  }

  lemma {:induction false} StepKeepsInv(w: World, s: Step)
    requires Inv(w) && Enabled(w, s)
    ensures Inv(Do(w, s))
  {
    if !w.main.Ended? && !s.Shutdown? {
      ShapeKept(w, s);
      CountKept(w, s);
    }
  }

  lemma {:induction false} RunKeepsInv(run: seq<World>, n: nat)
    requires IsRun(run) && n < |run|
    ensures Inv(run[n])
  {
    if n > 0 {
      RunKeepsInv(run, n - 1);
      assert Next(run[n - 1], run[n - 1 + 1]);
      var s :| Enabled(run[n - 1], s) && run[n] == Do(run[n - 1], s);
      StepKeepsInv(run[n - 1], s);
    }
  }

  /**
   * Until shutdown, in every run: the counter is conserved; whoever takes the lock reads a counter that is not
   * negative; and stopping all receives exactly one result for each running fault before it clears the map.
   */
  lemma {:induction false} CounterConserved(run: seq<World>, n: nat)
    requires IsRun(run) && n < |run| && !run[n].main.Ended?
    ensures Conserved(run[n])
    ensures run[n].holder.Nobody? ==> run[n].count >= 0
    ensures run[n].main.Collecting? ==>
              |run[n].live| + run[n].main.got == |run[n].running| &&
              (run[n].main.got == |run[n].running| <==> run[n].live == {})
    ensures run[n].main.Announcing? ==> run[n].count == 0 && run[n].live == {}
  {
    RunKeepsInv(run, n);
  }

  /** Without the lock a reader could see a negative counter. */
  lemma {:induction false} NegativeUnlocked() returns (run: seq<World>)
    ensures IsRun(run) && run[|run| - 1].count == -1 && !run[|run| - 1].holder.Nobody?
  {
    var w1 := Do(FRESH, RequestRun);
    var w2 := Do(w1, TakeRun);
    var w3 := Do(w2, TakeResult(1));
    var w4 := Do(w3, LowerCount);
    run := [FRESH, w1, w2, w3, w4];
    assert Next(FRESH, w1) && Next(w1, w2) && Next(w2, w3) && Next(w3, w4);
  }

  // ---- what requests achieve

  /** A run request starts one more fault and raises the counter by one. */
  lemma {:induction false} RunStarts(w: World) returns (w1: World, w2: World, w3: World)
    requires Inv(w) && w.main.Selecting? && w.holder.Nobody? && w.queue == []
    ensures Next(w, w1) && Next(w1, w2) && Next(w2, w3)
    ensures w3.count == w.count + 1 && w3.holder.Nobody? && w3.main.Selecting? && w3.queue == []
    ensures w3.started == w.started + 1 && w3.running == w.running + {w.started + 1} && w.started + 1 !in w.running
    ensures w3.live == w.live + {w.started + 1}
  {
    assert Enabled(w, RequestRun);
    w1 := Do(w, RequestRun);
    assert Enabled(w1, TakeRun);
    w2 := Do(w1, TakeRun);
    assert Enabled(w2, RaiseCount);
    w3 := Do(w2, RaiseCount);
  }

  /** A fault that ends by itself is taken off, and the counter lowered by one. */
  lemma {:induction false} ResultTaken(w: World, id: nat) returns (w1: World, w2: World)
    requires Inv(w) && w.main.Selecting? && id in w.running
    ensures Next(w, w1) && Next(w1, w2) && w2.main.Selecting? && w2.holder == w.holder
    ensures w2.count == w.count - 1 && w2.running == w.running - {id} && w2.live == w.live - {id}
  {
    assert Enabled(w, TakeResult(id));
    w1 := Do(w, TakeResult(id));
    assert Enabled(w1, LowerCount);
    w2 := Do(w1, LowerCount);
  }

  ghost predicate Reaches(w: World, w': World, n: nat)
    decreases n
  {
    if n == 0 then w' == w else exists v :: Next(w, v) && Reaches(v, w', n - 1)
  }

  /** Collecting goes on to the end: with every fault heard from, the counter is zero and the requester is told. */
  lemma {:induction false} StopCompletes(w: World) returns (w': World, n: nat)
    requires Inv(w) && w.main.Collecting?
    ensures Reaches(w, w', n) && w'.main.Selecting? && w'.holder.Nobody? && w'.count == 0
    ensures w'.running == {} && w'.live == {} && w'.queue == []
    decreases |w.live|
  {
    if w.live == {} {
      assert Enabled(w, ClearRunning);
      var w1 := Do(w, ClearRunning);
      var w2 := Do(w1, ZeroCount);
      w' := Do(w2, Announce);
      StepKeepsInv(w, ClearRunning);
      assert Enabled(w2, Announce) && Next(w, w1) && Next(w1, w2) && Next(w2, w');
      assert Reaches(w', w', 0) && Reaches(w2, w', 1) && Reaches(w1, w', 2);
      n := 3;
    } else {
      var id :| id in w.live;
      SizeShrinks(w.live, id);
      assert Enabled(w, CollectResult(id));
      var v := Do(w, CollectResult(id));
      StepKeepsInv(w, CollectResult(id));
      var m;
      w', m := StopCompletes(v);
      assert Next(w, v);
      n := m + 1;
    }
  }
}
