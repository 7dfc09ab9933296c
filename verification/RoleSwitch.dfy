/**
 * The control service switching between its leader and follower roles. A role is started before it is published and
 * stopped, in the background, after it is taken back.
 */
module RoleSwitch {
  import opened Options

  datatype Role = Role(leads: bool, started: bool, stops: nat)

  datatype Phase =
    | Waiting                          // not bootstrapped
    | Retracting(leads: bool)          // about to take back the published role
    | Starting(leads: bool)
    | Publishing(leads: bool, id: nat)
    | Listening
    | Ended

  /** `leads` is the latest notification the loop has acted on; `stopping` the roles whose stop has been spawned. */
  datatype World = World(
    phase: Phase,
    leads: bool,
    roles: seq<Role>,
    current: Option<nat>,
    stopping: set<nat>,
    everPublished: set<nat>)

  const FRESH := World(Waiting, false, [], None, {}, {})

  datatype Step =
    | Bootstrap(leads: bool)
    | Retract
    | StartRole
    | StartFails
    | Publish
    | Notify(leads: bool)
    | Cancel
    | RunStop(id: nat)

  predicate Enabled(w: World, s: Step) {
    match s
    case Bootstrap(_) => w.phase.Waiting?
    case Retract => w.phase.Retracting?
    case StartRole => w.phase.Starting?
    case StartFails => w.phase.Starting?
    case Publish => w.phase.Publishing?
    case Notify(_) => w.phase.Listening?
    case Cancel => w.phase.Waiting? || w.phase.Listening?
    case RunStop(id) => id in w.stopping && id < |w.roles|
  }

  function StopNow(w: World, id: nat): World {
    if id < |w.roles| then w.(roles := w.roles[id := w.roles[id].(stops := w.roles[id].stops + 1)]) else w
  }

  function Do(w: World, s: Step): World
    requires Enabled(w, s)
  {
    match s
    case Bootstrap(l) => w.(phase := Retracting(l), leads := l)
    // requests are refused from here until the new role is published
    case Retract =>
      w.(phase := Starting(w.phase.leads), current := None,
         stopping := if w.current.Some? then w.stopping + {w.current.value} else w.stopping)
    case StartRole =>
      w.(phase := Publishing(w.phase.leads, |w.roles|), roles := w.roles + [Role(w.phase.leads, true, 0)])
    case StartFails => w.(phase := Ended, roles := w.roles + [Role(w.phase.leads, false, 0)])
    case Publish =>
      w.(phase := Listening, leads := w.phase.leads, current := Some(w.phase.id),
         everPublished := w.everPublished + {w.phase.id})
    case Notify(l) => if l != w.leads then w.(phase := Retracting(l)) else w
    case Cancel =>
      var v := w.(phase := Ended, current := None);
      if w.current.Some? then StopNow(v, w.current.value) else v
    case RunStop(id) => StopNow(w.(stopping := w.stopping - {id}), id)
  }

  ghost predicate Next(w: World, w': World) {
    exists s :: Enabled(w, s) && w' == Do(w, s)
  }

  ghost predicate IsRun(run: seq<World>) {
    run != [] && run[0] == FRESH && forall i :: 0 <= i < |run| - 1 ==> Next(run[i], run[i + 1])
  }

  /** The published role serves, and is of the kind last announced whenever the loop is listening. */
  ghost predicate CurrentOk(w: World) {
    (w.current.Some? ==>
       var id := w.current.value;
       id < |w.roles| && w.roles[id].started && w.roles[id].stops == 0 && id !in w.stopping &&
       id in w.everPublished && (w.phase.Listening? || w.phase.Retracting?) && w.roles[id].leads == w.leads) &&
    (w.phase.Listening? ==> w.current.Some?)
  }

  /** A role that was published and taken back has been stopped once or is about to be; no other is ever stopped. */
  ghost predicate StopsOk(w: World) {
    w.stopping <= w.everPublished &&
    (forall id :: id in w.everPublished ==>
       id < |w.roles| && w.roles[id].started &&
       (w.current != Some(id) ==> w.roles[id].stops + (if id in w.stopping then 1 else 0) == 1)) &&
    (forall id :: 0 <= id < |w.roles| && id !in w.everPublished ==> w.roles[id].stops == 0) &&
    (w.phase.Publishing? ==>
       w.phase.id < |w.roles| && w.roles[w.phase.id].started && w.roles[w.phase.id].leads == w.phase.leads &&
       w.phase.id !in w.everPublished && w.current.None?) &&
    (w.phase.Starting? ==> w.current.None?)
  }

  lemma {:induction false} CurrentKept(w: World, s: Step)
    requires CurrentOk(w) && StopsOk(w) && Enabled(w, s)
    ensures CurrentOk(Do(w, s))
  {
  }

  lemma {:induction false} StopKept(w: World, id: nat)
    requires CurrentOk(w) && StopsOk(w) && Enabled(w, RunStop(id))
    ensures StopsOk(Do(w, RunStop(id)))
  {
  }

  lemma {:induction false} CancelKept(w: World)
    requires CurrentOk(w) && StopsOk(w) && Enabled(w, Cancel)
    ensures StopsOk(Do(w, Cancel))
  {
  }

  lemma {:induction false} StopsKept(w: World, s: Step)
    requires CurrentOk(w) && StopsOk(w) && Enabled(w, s)
    ensures StopsOk(Do(w, s))
  {
    match s {
      case RunStop(id) => StopKept(w, id);
      case Cancel => CancelKept(w);
      case _ =>
    }
  }

  lemma {:induction false} RunKeeps(run: seq<World>, n: nat)
    requires IsRun(run) && n < |run|
    ensures CurrentOk(run[n]) && StopsOk(run[n])
  {
    if n > 0 {
      RunKeeps(run, n - 1);
      assert Next(run[n - 1], run[n - 1 + 1]);
      var s :| Enabled(run[n - 1], s) && run[n] == Do(run[n - 1], s);
      CurrentKept(run[n - 1], s);
      StopsKept(run[n - 1], s);
    }
  }

  /**
   * Through any series of leadership changes and failures: the published role is started, never stopped, and of the
   * announced kind; every role taken back is stopped exactly once, counting a stop still to run; nothing else is.
   */
  lemma {:induction false} RolesAlwaysSound(run: seq<World>, n: nat, id: nat)
    requires IsRun(run) && n < |run| && id < |run[n].roles|
    ensures run[n].current == Some(id) ==>
              run[n].roles[id].started && run[n].roles[id].stops == 0 && run[n].roles[id].leads == run[n].leads
    ensures run[n].current != Some(id) && id in run[n].everPublished ==>
              run[n].roles[id].stops + (if id in run[n].stopping then 1 else 0) == 1
    ensures id !in run[n].everPublished ==> run[n].roles[id].stops == 0
  {
    RunKeeps(run, n);
  }

  // ---- the switch itself

  /**
   * A notification of the other kind is carried out: the old role is taken back and its stop spawned, and a new one of
   * the announced kind is started and published. One of the same kind changes nothing.
   */
  lemma {:induction false} SwitchCompletes(w: World, leads: bool) returns (w1: World, w2: World, w3: World, w4: World)
    requires CurrentOk(w) && StopsOk(w) && w.phase.Listening?
    ensures Next(w, w1) && (leads == w.leads ==> w1 == w)
    ensures leads != w.leads ==>
              Next(w1, w2) && w2.current.None? && w2.stopping == w.stopping + {w.current.value} &&
              Next(w2, w3) && Next(w3, w4) && w4.phase.Listening? && w4.leads == leads &&
              w4.current == Some(|w.roles|) && w4.roles == w.roles + [Role(leads, true, 0)] &&
              w4.stopping == w2.stopping && w4.everPublished == w.everPublished + {|w.roles|}
  {
    assert Enabled(w, Notify(leads));
    w1 := Do(w, Notify(leads));
    w2, w3, w4 := w1, w1, w1;
    if leads != w.leads {
      assert Enabled(w1, Retract);
      w2 := Do(w1, Retract);
      assert Enabled(w2, StartRole);
      w3 := Do(w2, StartRole);
      assert Enabled(w3, Publish);
      w4 := Do(w3, Publish);
    }
  }

  /** A spawned stop can run at any time, and stops just its role. */
  lemma {:induction false} StopRuns(w: World, id: nat)
    requires StopsOk(w) && id in w.stopping
    ensures Enabled(w, RunStop(id)) && id < |w.roles|
    ensures var w' := Do(w, RunStop(id));
            w'.stopping == w.stopping - {id} && |w'.roles| == |w.roles| && w'.current == w.current &&
            w'.roles[id].stops == w.roles[id].stops + 1 &&
            forall i :: 0 <= i < |w.roles| && i != id ==> w'.roles[i] == w.roles[i]
  {
  }
}
