/**
 * The control session of a server: a main loop that reconnects for ever, and per session a send and a receive loop
 * that it joins before closing the channel between them. Channel operations are the steps; a send and its receive on
 * an unbuffered channel are one step.
 */
module SessionLoops {

  datatype Cell = ConfigTag | DataServersTag | ApiServersTag

  datatype Loop =
    | Off
    | Running
    | Delivering                       // blocked sending on the receive channel
    | Publishing(cell: Cell, tag: string)
    | Storing(cell: Cell, tag: string)
    | Finishing                        // blocked sending on the done channel
    | Done

  predicate Alive(l: Loop) {
    !l.Off? && !l.Done?
  }

  datatype Main =
    | Idle
    | Serving
    | Enqueuing                        // blocked sending on the send channel
    | Closing(left: nat)               // draining, with that many loops still to join
    | Stopped

  /** `joined` counts the loop completions consumed since the session began; `stray` the loops it left behind. */
  datatype World = World(
    main: Main,
    send: Loop,
    recv: Loop,
    recvClosed: bool,
    buffered: nat,
    joined: nat,
    stray: nat,
    panicked: bool,
    cells: Cell -> string,
    published: seq<(Cell, string)>)

  function Init(): World {
    World(Idle, Off, Off, false, 0, 0, 0, false, _ => "", [])
  }

  datatype Answer = Accepted | ClockRefused | Reply

  datatype Step =
    | Connect
    | SendOne
    | SendEnds
    | ReceiveForMain
    | ReceiveTagged(cell: Cell, tag: string)
    | Publish
    | StoreTag
    | ReceiveEnds
    | MainReceives(answer: Answer)
    | MainEnqueues
    | MainSends
    | MainJoinsSend
    | MainJoinsReceive
    | MainCanceled
    | DrainReceives
    | CloseJoinsSend
    | CloseJoinsReceive
    | CloseChannel
    | SendOnClosed
    | StopMain

  predicate Enabled(w: World, capacity: nat, s: Step) {
    match s
    case Connect => w.main.Idle?
    case SendOne => w.send.Running? && w.buffered > 0
    case SendEnds => w.send.Running?
    case ReceiveForMain => w.recv.Running?
    case ReceiveTagged(_, _) => w.recv.Running?
    case Publish => w.recv.Publishing?
    case StoreTag => w.recv.Storing?
    case ReceiveEnds => w.recv.Running?
    case MainReceives(_) => w.main.Serving? && w.recv.Delivering? && !w.recvClosed
    case MainEnqueues => w.main.Serving?
    case MainSends => w.main.Enqueuing? && w.buffered < capacity
    case MainJoinsSend => w.main.Serving? && w.send.Finishing?
    case MainJoinsReceive => w.main.Serving? && w.recv.Finishing?
    case MainCanceled => w.main.Serving?
    case DrainReceives => w.main.Closing? && w.recv.Delivering? && !w.recvClosed
    case CloseJoinsSend => w.main.Closing? && w.main.left > 0 && w.send.Finishing?
    case CloseJoinsReceive => w.main.Closing? && w.main.left > 0 && w.recv.Finishing?
    case CloseChannel => w.main.Closing? && w.main.left == 0
    case SendOnClosed => w.recv.Delivering? && w.recvClosed
    case StopMain => w.main.Idle?
  }

  function Count(l: Loop): nat {
    if Alive(l) then 1 else 0
  }

  function Do(w: World, s: Step): World {
    match s
    case Connect =>
      w.(main := Serving, send := Running, recv := Running, recvClosed := false, buffered := 0, joined := 0,
         stray := w.stray + Count(w.send) + Count(w.recv))
    case SendOne => if w.buffered > 0 then w.(buffered := w.buffered - 1) else w
    case SendEnds => w.(send := Finishing)
    case ReceiveForMain => w.(recv := Delivering)
    // a message with the tag already held is dropped
    case ReceiveTagged(c, t) => if w.cells(c) == t then w else w.(recv := Publishing(c, t))
    case Publish =>
      if w.recv.Publishing?
      then w.(recv := Storing(w.recv.cell, w.recv.tag), published := w.published + [(w.recv.cell, w.recv.tag)]) else w
    case StoreTag =>
      if w.recv.Storing?
      then
        var c, t, old' := w.recv.cell, w.recv.tag, w.cells;
        w.(recv := Running, cells := x => if x == c then t else old'(x))
      else w
    case ReceiveEnds => w.(recv := Finishing)
    case MainReceives(a) =>
      w.(recv := Running,
         main := match a case Accepted => Serving case ClockRefused => Closing(2) case Reply => Enqueuing)
    case MainEnqueues => w.(main := Enqueuing)
    case MainSends => w.(main := Serving, buffered := w.buffered + 1)
    case MainJoinsSend => w.(send := Done, joined := w.joined + 1, main := Closing(1))
    case MainJoinsReceive => w.(recv := Done, joined := w.joined + 1, main := Closing(1))
    case MainCanceled => w.(main := Closing(2))
    case DrainReceives => w.(recv := Running)
    case CloseJoinsSend =>
      if w.main.Closing? && w.main.left > 0
      then w.(send := Done, joined := w.joined + 1, main := Closing(w.main.left - 1)) else w
    case CloseJoinsReceive =>
      if w.main.Closing? && w.main.left > 0
      then w.(recv := Done, joined := w.joined + 1, main := Closing(w.main.left - 1)) else w
    case CloseChannel => w.(recvClosed := true, main := Idle)
    case SendOnClosed => w.(panicked := true)
    case StopMain => w.(main := Stopped)
  }

  ghost predicate IsRun(capacity: nat, run: seq<World>) {
    run != [] && run[0] == Init() &&
    forall i :: 0 <= i < |run| - 1 ==> Next(capacity, run[i], run[i + 1])
  }

  ghost predicate Next(capacity: nat, w: World, w': World) {
    exists s :: Enabled(w, capacity, s) && w' == Do(w, s)
  }

  // ---- joining

  ghost predicate JoinInv(w: World) {
    w.stray == 0 && !w.panicked && (w.send.Off? || w.send.Running? || w.send.Finishing? || w.send.Done?) &&
    (match w.main
     case Idle => !Alive(w.send) && !Alive(w.recv) && (w.recvClosed ==> w.joined == 2)
     case Stopped => !Alive(w.send) && !Alive(w.recv) && (w.recvClosed ==> w.joined == 2)
     case Closing(n) => Count(w.send) + Count(w.recv) == n && w.joined + n == 2 && !w.recvClosed
     case _ => Alive(w.send) && Alive(w.recv) && w.joined == 0 && !w.recvClosed)
  }

  lemma {:induction false} JoinKept(w: World, capacity: nat, s: Step)
    requires JoinInv(w) && Enabled(w, capacity, s)
    ensures JoinInv(Do(w, s))
  {
  }

  // ---- publishing

  /** The latest tag published through a cell; empty before the first. */
  function Latest(published: seq<(Cell, string)>, c: Cell): string {
    if published == [] then ""
    else if published[|published| - 1].0 == c then published[|published| - 1].1
    else Latest(published[..|published| - 1], c)
  }

  /** No publication repeats the tag of the one before it through the same cell. */
  ghost predicate NoRepeats(published: seq<(Cell, string)>) {
    forall i :: 0 <= i < |published| ==> published[i].1 != Latest(published[..i], published[i].0)
  }

  ghost predicate PublishInv(w: World) {
    NoRepeats(w.published) &&
    (forall c :: (w.recv.Storing? && w.recv.cell == c) || w.cells(c) == Latest(w.published, c)) &&
    (w.recv.Storing? ==> Latest(w.published, w.recv.cell) == w.recv.tag) &&
    (w.recv.Publishing? ==> w.recv.tag != w.cells(w.recv.cell))
  }

  lemma {:induction false} PublishKept(w: World, capacity: nat, s: Step)
    requires PublishInv(w) && JoinInv(w) && Enabled(w, capacity, s)
    ensures PublishInv(Do(w, s))
  {
    if s.Publish? {
      var longer := Do(w, s).published;
      assert longer[..|w.published|] == w.published;
      forall i | 0 <= i < |longer| ensures longer[i].1 != Latest(longer[..i], longer[i].0) {
        if i < |w.published| {
          assert longer[..i] == w.published[..i];
        }
      }
    }
  }

  lemma {:induction false} RunKeepsInv(capacity: nat, run: seq<World>, n: nat)
    requires IsRun(capacity, run) && n < |run|
    ensures JoinInv(run[n]) && PublishInv(run[n])
  {
    if n > 0 {
      RunKeepsInv(capacity, run, n - 1);
      assert Next(capacity, run[n - 1], run[n - 1 + 1]);
      var s :| Enabled(run[n - 1], capacity, s) && run[n] == Do(run[n - 1], s);
      JoinKept(run[n - 1], capacity, s);
      PublishKept(run[n - 1], capacity, s);
    }
  }

  /**
   * In every run, across all reconnects: no loop of an earlier session is alive, the channel is closed only after
   * exactly two completions with both loops gone, so nothing is sent on it afterwards, and no two consecutive
   * publications through one cell carry the same tag.
   */
  lemma {:induction false} SessionSafe(capacity: nat, run: seq<World>, n: nat)
    requires IsRun(capacity, run) && n < |run|
    ensures run[n].stray == 0 && !run[n].panicked
    ensures run[n].recvClosed ==> run[n].joined == 2 && !Alive(run[n].send) && !Alive(run[n].recv)
    ensures NoRepeats(run[n].published)
  {
    RunKeepsInv(capacity, run, n);
  }

  // ---- what gets through

  /** Taking steps one after the other, each of them possible. */
  ghost predicate Takes(w: World, capacity: nat, steps: seq<Step>, w': World)
    decreases |steps|
  {
    if steps == [] then w' == w
    else Enabled(w, capacity, steps[0]) && Takes(Do(w, steps[0]), capacity, steps[1..], w')
  }

  lemma {:induction false} TakesOne(w: World, capacity: nat, s: Step, rest: seq<Step>, w': World)
    requires Enabled(w, capacity, s) && Takes(Do(w, s), capacity, rest, w')
    ensures Takes(w, capacity, [s] + rest, w')
  {
    assert ([s] + rest)[1..] == rest;
  }

  lemma {:induction false} TakesNone(w: World, capacity: nat)
    ensures Takes(w, capacity, [], w)
  {
  }

  /** A new tag is published, once, and then held; the other cells, the channel and the main loop are as they were. */
  lemma {:induction false} NewTagPublished(w: World, capacity: nat, c: Cell, t: string) returns (w': World)
    requires w.recv.Running? && w.cells(c) != t
    ensures Takes(w, capacity, [ReceiveTagged(c, t), Publish, StoreTag], w')
    ensures w'.published == w.published + [(c, t)] && w'.cells(c) == t && w'.recv.Running?
    ensures (forall x :: x != c ==> w'.cells(x) == w.cells(x)) && w'.main == w.main && w'.send == w.send
    ensures w'.buffered == w.buffered && w'.joined == w.joined && w'.recvClosed == w.recvClosed
  {
    var w1 := Do(w, ReceiveTagged(c, t));
    var w2 := Do(w1, Publish);
    w' := Do(w2, StoreTag);
    TakesNone(w', capacity);
    TakesOne(w2, capacity, StoreTag, [], w');
    TakesOne(w1, capacity, Publish, [StoreTag], w');
    TakesOne(w, capacity, ReceiveTagged(c, t), [Publish, StoreTag], w');
    assert [ReceiveTagged(c, t)] + [Publish, StoreTag] == [ReceiveTagged(c, t), Publish, StoreTag];
    assert [Publish] + [StoreTag] == [Publish, StoreTag] && [StoreTag] + [] == [StoreTag];
  }

  /** A tag that is held already is dropped. */
  lemma {:induction false} KnownTagDropped(w: World, capacity: nat, c: Cell, t: string)
    requires w.recv.Running? && w.cells(c) == t
    ensures Enabled(w, capacity, ReceiveTagged(c, t)) && Do(w, ReceiveTagged(c, t)) == w
  {
  }

  /** What the main loop enqueues the send loop sends, one at a time, as long as both run. */
  lemma {:induction false} EnqueuedIsSent(w: World, capacity: nat) returns (w': World)
    requires w.main.Serving? && w.send.Running? && w.buffered < capacity
    ensures Takes(w, capacity, [MainEnqueues, MainSends], w') && w'.main.Serving? && w'.buffered == w.buffered + 1
    ensures Enabled(w', capacity, SendOne) && Do(w', SendOne) == w
  {
    var w1 := Do(w, MainEnqueues);
    w' := Do(w1, MainSends);
    TakesNone(w', capacity);
    TakesOne(w1, capacity, MainSends, [], w');
    TakesOne(w, capacity, MainEnqueues, [MainSends], w');
    assert [MainEnqueues] + [MainSends] == [MainEnqueues, MainSends] && [MainSends] + [] == [MainSends];
  }

  /** How far a session is from being closed. */
  function Left(l: Loop): nat {
    match l
    case Off => 0
    case Running => 2
    case Delivering => 3
    case Publishing(_, _) => 4
    case Storing(_, _) => 3
    case Finishing => 1
    case Done => 0
  }

  /**
   * Closing never gets stuck: from every state of a closing session there is a series of steps, of the loops and of the
   * join, after which both have ended, the channel is closed and the main loop may connect again.
   */
  lemma {:induction false} ClosingCompletes(w: World, capacity: nat) returns (steps: seq<Step>, w': World)
    requires JoinInv(w) && w.main.Closing?
    ensures Takes(w, capacity, steps, w') && w'.main.Idle? && w'.recvClosed && w'.joined == 2
    ensures Enabled(w', capacity, Connect)
    decreases Left(w.send) + Left(w.recv)
  {
    var s := NextToClose(w, capacity);
    JoinKept(w, capacity, s);
    if s.CloseChannel? {
      w' := Do(w, s);
      TakesNone(w', capacity);
      steps := [s] + [];
      TakesOne(w, capacity, s, [], w');
    } else {
      var rest;
      rest, w' := ClosingCompletes(Do(w, s), capacity);
      TakesOne(w, capacity, s, rest, w');
      steps := [s] + rest;
    }
  }

  lemma {:induction false} NextToClose(w: World, capacity: nat) returns (s: Step)
    requires JoinInv(w) && w.main.Closing?
    ensures Enabled(w, capacity, s) && (w.main.left == 0 <==> s.CloseChannel?)
    ensures s.CloseChannel? || (Do(w, s).main.Closing? &&
                                Left(Do(w, s).send) + Left(Do(w, s).recv) < Left(w.send) + Left(w.recv))
    ensures s.CloseChannel? ==> w.joined == 2
  {
    if w.main.left == 0 {
      s := CloseChannel;
    } else if w.send.Finishing? {
      s := CloseJoinsSend;
    } else if w.recv.Finishing? {
      s := CloseJoinsReceive;
    } else if w.recv.Delivering? {
      s := DrainReceives;
    } else if w.recv.Publishing? {
      s := Publish;
    } else if w.recv.Storing? {
      s := StoreTag;
    } else if w.recv.Running? {
      s := ReceiveEnds;
    } else {
      s := SendEnds;
    }
  }
}
