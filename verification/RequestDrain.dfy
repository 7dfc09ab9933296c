/**
 * Draining of in-flight requests. Admission looks at the drain channel and then counts itself in, as two steps;
 * stopping closes the channel and then waits until it reads a count of zero.
 */
module RequestDrain {

  datatype Caller =
    | Entering      // saw the channel open, not yet counted
    | Admitted
    | Released      // has called its cancel function
    | Rejected      // got a canceled context and is not counted

  datatype Stop = NotStopped | Draining | Drained

  datatype World = World(stop: Stop, inFlight: int, callers: map<nat, Caller>)

  datatype Step =
    | Look(id: nat)
    | CountIn(id: nat)
    | Cancel(id: nat)
    | Close
    | ReadZero

  predicate Enabled(w: World, s: Step) {
    match s
    case Look(id) => id !in w.callers
    case CountIn(id) => id in w.callers && w.callers[id].Entering?
    case Cancel(id) => id in w.callers && w.callers[id].Admitted?
    case Close => w.stop.NotStopped?
    case ReadZero => w.stop.Draining? && w.inFlight == 0
  }

  function Do(w: World, s: Step): World {
    match s
    case Look(id) => w.(callers := w.callers[id := if w.stop.NotStopped? then Entering else Rejected])
    case CountIn(id) => w.(callers := w.callers[id := Admitted], inFlight := w.inFlight + 1)
    case Cancel(id) => w.(callers := w.callers[id := Released], inFlight := w.inFlight - 1)
    case Close => w.(stop := Draining)
    case ReadZero => w.(stop := Drained)
  }

  function Run(w: World, steps: seq<Step>): World {
    if steps == [] then w else Do(Run(w, steps[..|steps| - 1]), steps[|steps| - 1])
  }

  ghost predicate Possible(w: World, steps: seq<Step>) {
    forall n :: 0 <= n < |steps| ==> Enabled(Run(w, steps[..n]), steps[n])
  }

  const FRESH := World(NotStopped, 0, map[])

  function InState(w: World, c: Caller): set<nat> {
    set id | id in w.callers && w.callers[id] == c
  }

  lemma {:induction false} PossiblePrefix(w: World, steps: seq<Step>)
    requires Possible(w, steps) && steps != []
    ensures Possible(w, steps[..|steps| - 1])
    ensures Enabled(Run(w, steps[..|steps| - 1]), steps[|steps| - 1])
  {
    var front := steps[..|steps| - 1];
    forall n | 0 <= n < |front| ensures Enabled(Run(w, front[..n]), front[n]) {
      assert front[..n] == steps[..n];
    }
  }

  lemma {:induction false} Joined(w: World, w': World, id: nat)
    requires id in w.callers && !w.callers[id].Admitted? && w'.callers == w.callers[id := Admitted]
    ensures |InState(w', Admitted)| == |InState(w, Admitted)| + 1
  {
    assert InState(w', Admitted) == InState(w, Admitted) + {id};
  }

  lemma {:induction false} Left(w: World, w': World, id: nat)
    requires id in w.callers && w.callers[id].Admitted? && w'.callers == w.callers[id := Released]
    ensures |InState(w', Admitted)| == |InState(w, Admitted)| - 1
  {
    assert InState(w', Admitted) == InState(w, Admitted) - {id};
  }

  lemma {:induction false} Looked(w: World, w': World, id: nat, c: Caller)
    requires id !in w.callers && !c.Admitted? && w'.callers == w.callers[id := c]
    ensures InState(w', Admitted) == InState(w, Admitted)
  {
  }

  lemma {:induction false} StepCounts(w: World, s: Step)
    requires Enabled(w, s) && w.inFlight == |InState(w, Admitted)|
    ensures Do(w, s).inFlight == |InState(Do(w, s), Admitted)|
  {
    match s {
      case Look(id) => Looked(w, Do(w, s), id, Do(w, s).callers[id]);
      case CountIn(id) => Joined(w, Do(w, s), id);
      case Cancel(id) => Left(w, Do(w, s), id);
      case Close => assert InState(Do(w, s), Admitted) == InState(w, Admitted);
      case ReadZero => assert InState(Do(w, s), Admitted) == InState(w, Admitted);
    }
  }

  /** With each cancel called once, the counter is the number of admitted contexts not yet released. */
  lemma {:induction false} CountsAdmitted(steps: seq<Step>)
    requires Possible(FRESH, steps)
    ensures Run(FRESH, steps).inFlight == |InState(Run(FRESH, steps), Admitted)|
  {
    if steps != [] {
      PossiblePrefix(FRESH, steps);
      CountsAdmitted(steps[..|steps| - 1]);
      StepCounts(Run(FRESH, steps[..|steps| - 1]), steps[|steps| - 1]);
    }
  }

  /** When stopping reads zero, every context counted before that has been released. */
  lemma {:induction false} ZeroMeansReleased(steps: seq<Step>)
    requires Possible(FRESH, steps) && Enabled(Run(FRESH, steps), ReadZero)
    ensures InState(Run(FRESH, steps), Admitted) == {}
  {
    CountsAdmitted(steps);
  }

  // ---- what may still be admitted afterwards

  ghost predicate Quiet(w: World) {
    !w.stop.NotStopped? && InState(w, Admitted) == {} && InState(w, Entering) == {}
  }

  lemma {:induction false} QuietForever(w: World, steps: seq<Step>)
    requires Quiet(w) && Possible(w, steps)
    ensures Quiet(Run(w, steps))
  {
    if steps != [] {
      PossiblePrefix(w, steps);
      var front := steps[..|steps| - 1];
      QuietForever(w, front);
      var v, s := Run(w, front), steps[|steps| - 1];
      forall id | id in v.callers ensures !v.callers[id].Entering? && !v.callers[id].Admitted? {
        assert id !in InState(v, Entering) && id !in InState(v, Admitted);
      }
      assert InState(Do(v, s), Admitted) == {} && InState(Do(v, s), Entering) == {};
    }
  }

  /**
   * Stopping drains everything, in every continuation, exactly when no caller stands between its look at the channel
   * and counting itself in at the moment zero is read. Otherwise that caller is admitted after the stop.
   */
  lemma {:induction false} DrainExact(steps: seq<Step>)
    requires Possible(FRESH, steps) && Enabled(Run(FRESH, steps), ReadZero)
    ensures var w := Do(Run(FRESH, steps), ReadZero);
            InState(w, Entering) == {} <==>
            forall more :: Possible(w, more) ==> InState(Run(w, more), Admitted) == {}
  {
    ZeroMeansReleased(steps);
    var w := Do(Run(FRESH, steps), ReadZero);
    assert InState(w, Admitted) == {};
    if InState(w, Entering) == {} {
      forall more | Possible(w, more) ensures InState(Run(w, more), Admitted) == {} {
        QuietForever(w, more);
      }
    } else {
      var id :| id in InState(w, Entering);
      var more := [CountIn(id)];
      assert more[..0] == [];
      assert Possible(w, more);
      assert id in InState(Run(w, more), Admitted);
    }
  }

  /** Such a caller does exist in some run. */
  lemma {:induction false} LateAdmission() returns (steps: seq<Step>)
    ensures Possible(FRESH, steps) && Run(FRESH, steps).stop.Drained?
    ensures InState(Run(FRESH, steps), Admitted) != {}
  {
    steps := [Look(1), Close, ReadZero, CountIn(1)];
    assert steps[..0] == [] && steps[..1] == [Look(1)] && steps[..2] == [Look(1), Close];
    assert steps[..3] == [Look(1), Close, ReadZero];
    assert steps[..1][..0] == [] && steps[..2][..1] == steps[..1] && steps[..3][..2] == steps[..2];
    assert 1 in InState(Run(FRESH, steps), Admitted);
  }

  // ---- what is let in and what is turned away

  /** A caller that looks before the stop gets in; one that looks after it is turned away and never counted. */
  lemma {:induction false} AdmittedBeforeStop(w: World, id: nat)
    requires id !in w.callers
    ensures Enabled(w, Look(id))
    ensures var v := Do(w, Look(id));
            if w.stop.NotStopped? then
              Enabled(v, CountIn(id)) && Do(v, CountIn(id)).callers == w.callers[id := Admitted] &&
              Do(v, CountIn(id)).inFlight == w.inFlight + 1
            else v.callers == w.callers[id := Rejected] && v.inFlight == w.inFlight && !Enabled(v, CountIn(id))
  {
    assert w.callers[id := Entering][id := Admitted] == w.callers[id := Admitted];
  }

  /** Releasing what is admitted, one after the other, is always possible and brings the counter to zero. */
  lemma {:induction false} DrainCompletes(w: World) returns (steps: seq<Step>)
    requires w.inFlight == |InState(w, Admitted)|
    ensures Possible(w, steps) && Run(w, steps).inFlight == 0 && Run(w, steps).stop == w.stop
    decreases |InState(w, Admitted)|
  {
    if InState(w, Admitted) == {} {
      steps := [];
    } else {
      var id :| id in InState(w, Admitted);
      var v := Do(w, Cancel(id));
      Left(w, v, id);
      var rest := DrainCompletes(v);
      steps := [Cancel(id)] + rest;
      RunFirst(w, Cancel(id), rest);
    }
  }

  lemma {:induction false} RunFirst(w: World, s: Step, rest: seq<Step>)
    requires Enabled(w, s) && Possible(Do(w, s), rest)
    ensures Possible(w, [s] + rest) && Run(w, [s] + rest) == Run(Do(w, s), rest)
  {
    var all := [s] + rest;
    forall n | 0 <= n < |all| ensures Enabled(Run(w, all[..n]), all[n]) {
      if n > 0 {
        RunHead(w, s, rest[..n - 1]);
        assert all[..n] == [s] + rest[..n - 1] && all[n] == rest[n - 1];
      }
    }
    RunHead(w, s, rest);
  }

  lemma {:induction false} RunHead(w: World, s: Step, rest: seq<Step>)
    ensures Run(w, [s] + rest) == Run(Do(w, s), rest)
  {
    var all := [s] + rest;
    if rest == [] {
      assert all[..0] == [] && all[0] == s;
    } else {
      assert all[..|all| - 1] == [s] + rest[..|rest| - 1] && all[|all| - 1] == rest[|rest| - 1];
      RunHead(w, s, rest[..|rest| - 1]);
    }
  }
}
