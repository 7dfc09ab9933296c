/** The bookkeeping of the two-phase commit watchdog: which transactions it tracks and which it steps in for. */
module WatchdogLoop {
  import opened TxnManager

  datatype Item = Item(id: TxnId, timestamp: nat, state: State)

  /** `resolved` are the transactions it has stepped in for, oldest first. */
  datatype Dog = Dog(all: map<TxnId, State>, prepared: seq<Item>, decided: seq<Item>, resolved: seq<TxnId>)

  datatype Event =
    | Report(item: Item)
    | PhaseOneTick(oldest: nat)
    | PhaseTwoTick(oldest: nat)

  /** Takes timed out items off the front; those still in the expected state are stepped in for and dropped. */
  function Sweep(q: seq<Item>, all: map<TxnId, State>, oldest: nat, expected: State)
    : (seq<Item>, map<TxnId, State>, seq<TxnId>)
  {
    if q == [] || q[0].timestamp > oldest then (q, all, [])
    else if q[0].id !in all || all[q[0].id] != expected then Sweep(q[1..], all, oldest, expected)
    else
      var rest := Sweep(q[1..], all - {q[0].id}, oldest, expected);
      (rest.0, rest.1, [q[0].id] + rest.2)
  }

  method CheckTimedout(q: seq<Item>, all: map<TxnId, State>, oldest: nat, expected: State)
    returns (q': seq<Item>, all': map<TxnId, State>, started: seq<TxnId>)
    ensures (q', all', started) == Sweep(q, all, oldest, expected)
  {
    q', all', started := q, all, [];
    assert [] + Sweep(q, all, oldest, expected).2 == Sweep(q, all, oldest, expected).2;
    while q' != [] && q'[0].timestamp <= oldest
      invariant var rest := Sweep(q', all', oldest, expected);
                Sweep(q, all, oldest, expected) == (rest.0, rest.1, started + rest.2)
      decreases |q'|
    {
      var item := q'[0];
      q' := q'[1..];
      if item.id in all' && all'[item.id] == expected {
        all' := all' - {item.id};
        ghost var later := Sweep(q', all', oldest, expected).2;
        assert started + ([item.id] + later) == (started + [item.id]) + later;
        started := started + [item.id];
      }
    }
    assert started + [] == started;
  }

  predicate Distinct(ids: seq<TxnId>) {
    forall i, j :: 0 <= i < j < |ids| ==> ids[i] != ids[j]
  }

  /** A sweep moves transactions from the tracked to the resolved, each once. */
  lemma {:induction false} SweepMoves(q: seq<Item>, all: map<TxnId, State>, oldest: nat, expected: State)
    ensures var r := Sweep(q, all, oldest, expected);
            r.1.Keys <= all.Keys && (forall id :: id in r.1 ==> r.1[id] == all[id]) && Distinct(r.2) &&
            (forall id :: id in r.2 ==> id in all && all[id] == expected && id !in r.1)
  {
    if q != [] && q[0].timestamp <= oldest {
      if q[0].id in all && all[q[0].id] == expected {
        SweepMoves(q[1..], all - {q[0].id}, oldest, expected);
      } else {
        SweepMoves(q[1..], all, oldest, expected);
      }
    }
  }

  /** Reports about transactions that are not tracked already are dropped. */
  function OnReport(d: Dog, item: Item): Dog {
    if item.id !in d.all then d
    else
      match item.state
      case Prepared => d.(all := d.all[item.id := Prepared], prepared := d.prepared + [item])
      case Decided => d.(all := d.all[item.id := Decided], decided := d.decided + [item])
      case Committed => d.(all := d.all - {item.id})
      case Aborted => d.(all := d.all - {item.id})
      case Timedout => d
  }

  function Handle(d: Dog, e: Event): Dog {
    match e
    case Report(item) => OnReport(d, item)
    case PhaseOneTick(oldest) =>
      var r := Sweep(d.prepared, d.all, oldest, Prepared);
      Dog(r.1, r.0, d.decided, d.resolved + r.2)
    case PhaseTwoTick(oldest) =>
      var r := Sweep(d.decided, d.all, oldest, Decided);
      Dog(r.1, d.prepared, r.0, d.resolved + r.2)
  }

  function Run(d: Dog, events: seq<Event>): Dog {
    if events == [] then d else Handle(Run(d, events[..|events| - 1]), events[|events| - 1])
  }

  function States(items: seq<Item>): (m: map<TxnId, State>)
    ensures forall id :: id in m <==> exists i :: 0 <= i < |items| && items[i].id == id
    ensures forall id :: id in m ==> exists i :: 0 <= i < |items| && items[i].id == id && items[i].state == m[id]
  {
    if items == [] then map[] else States(items[..|items| - 1])[items[|items| - 1].id := items[|items| - 1].state]
  }

  /** The start of a leadership: transactions still running, timed out ones queued with the prepared. */
  function Load(prepared: seq<Item>, decided: seq<Item>): Dog {
    Dog(States(prepared + decided), prepared, decided, [])
  }

  // ---- what it tracks, over any run

  /** Tracked and resolved transactions are apart, resolved ones come up once, and all were known from the start. */
  ghost predicate Inv(d: Dog, known: set<TxnId>) {
    d.all.Keys <= known && Distinct(d.resolved) &&
    forall id :: id in d.resolved ==> id in known && id !in d.all
  }

  lemma {:induction false} HandleKeepsInv(d: Dog, known: set<TxnId>, e: Event)
    requires Inv(d, known)
    ensures Inv(Handle(d, e), known)
  {
    match e {
      case Report(_) =>
      case PhaseOneTick(oldest) => SweepMoves(d.prepared, d.all, oldest, Prepared);
      case PhaseTwoTick(oldest) => SweepMoves(d.decided, d.all, oldest, Decided);
    }
    var more := Handle(d, e).resolved;
    forall i, j | 0 <= i < j < |more| ensures more[i] != more[j] {
      assert d.resolved <= more;
      if i < |d.resolved| <= j {
        assert more[i] in d.resolved;
      }
    }
  }

  lemma {:induction false} RunKeepsInv(d: Dog, known: set<TxnId>, events: seq<Event>)
    requires Inv(d, known)
    ensures Inv(Run(d, events), known)
  {
    if events != [] {
      RunKeepsInv(d, known, events[..|events| - 1]);
      HandleKeepsInv(Run(d, events[..|events| - 1]), known, events[|events| - 1]);
    }
  }

  /**
   * A watchdog steps in at most once for a transaction, and only ever for those it loaded when its leadership began:
   * a transaction prepared later, though reported to it, is never resolved.
   */
  lemma {:induction false} OnlyLoadedResolved(prepared: seq<Item>, decided: seq<Item>, events: seq<Event>)
    ensures Distinct(Run(Load(prepared, decided), events).resolved)
    ensures forall id :: id in Run(Load(prepared, decided), events).resolved ==>
              exists i :: 0 <= i < |prepared + decided| && (prepared + decided)[i].id == id
  {
    var d := Load(prepared, decided);
    RunKeepsInv(d, d.all.Keys, events);
  }

  // ---- transactions that were timed out when it took over

  predicate Revives(e: Event, id: TxnId) {
    e.Report? && e.item.id == id && (e.item.state.Prepared? || e.item.state.Decided?)
  }

  lemma {:induction false} TimedoutStays(d: Dog, events: seq<Event>, id: TxnId)
    requires id !in d.resolved && (id in d.all ==> d.all[id].Timedout?)
    requires forall i :: 0 <= i < |events| ==> !Revives(events[i], id)
    ensures id !in Run(d, events).resolved && (id in Run(d, events).all ==> Run(d, events).all[id].Timedout?)
  {
    if events != [] {
      TimedoutStays(d, events[..|events| - 1], id);
      var v, e := Run(d, events[..|events| - 1]), events[|events| - 1];
      assert !Revives(e, id);
      match e {
        case Report(_) =>
        case PhaseOneTick(oldest) => SweepMoves(v.prepared, v.all, oldest, Prepared);
        case PhaseTwoTick(oldest) => SweepMoves(v.decided, v.all, oldest, Decided);
      }
    }
  }

  /** A transaction loaded as timed out is never resolved: no report can make a final transaction live again. */
  lemma {:induction false} TimedoutNeverResolved(prepared: seq<Item>, decided: seq<Item>, events: seq<Event>, id: TxnId)
    requires id in States(prepared + decided) && States(prepared + decided)[id].Timedout?
    requires forall i :: 0 <= i < |events| ==> !Revives(events[i], id)
    ensures id !in Run(Load(prepared, decided), events).resolved
  {
    TimedoutStays(Load(prepared, decided), events, id);
  }

  // ---- what a tick resolves

  /** The transaction is queued at `i` and nothing up to there is younger than `oldest`. */
  predicate ClearAt(q: seq<Item>, id: TxnId, oldest: nat, i: nat) {
    i < |q| && q[i].id == id && forall j :: 0 <= j <= i ==> q[j].timestamp <= oldest
  }

  /** A tick comes to the transaction: it is queued, and not held up behind a younger one. */
  ghost predicate Clear(q: seq<Item>, id: TxnId, oldest: nat) {
    exists i :: ClearAt(q, id, oldest, i)
  }

  lemma {:induction false} ClearTail(q: seq<Item>, id: TxnId, oldest: nat)
    requires q != [] && q[0].timestamp <= oldest
    ensures Clear(q, id, oldest) <==> q[0].id == id || Clear(q[1..], id, oldest)
  {
    if q[0].id == id {
      assert ClearAt(q, id, oldest, 0);
    } else if i: nat :| ClearAt(q, id, oldest, i) {
      assert ClearAt(q[1..], id, oldest, i - 1);
    }
    if i: nat :| ClearAt(q[1..], id, oldest, i) {
      forall j | 0 <= j <= i + 1 ensures q[j].timestamp <= oldest {
        if j > 0 {
          assert q[j] == q[1..][j - 1];
        }
      }
      assert ClearAt(q, id, oldest, i + 1);
    }
  }

  /** On any queue, a tick steps in for exactly the transactions in the expected state that it comes to. */
  lemma {:induction false} SweepExact(q: seq<Item>, all: map<TxnId, State>, oldest: nat, expected: State, id: TxnId)
    ensures id in Sweep(q, all, oldest, expected).2 <==> id in all && all[id] == expected && Clear(q, id, oldest)
  {
    if q != [] && q[0].timestamp <= oldest {
      var rest := if q[0].id in all && all[q[0].id] == expected then all - {q[0].id} else all;
      SweepExact(q[1..], rest, oldest, expected, id);
      ClearTail(q, id, oldest);
    }
  }

  predicate ByTime(q: seq<Item>) {
    forall i, j :: 0 <= i < j < |q| ==> q[i].timestamp <= q[j].timestamp
  }

  /** On a queue in time order nothing is held up. */
  lemma {:induction false} InOrderClear(q: seq<Item>, id: TxnId, oldest: nat)
    requires ByTime(q)
    ensures Clear(q, id, oldest) <==> exists i :: 0 <= i < |q| && q[i].id == id && q[i].timestamp <= oldest
  {
    if i :| 0 <= i < |q| && q[i].id == id && q[i].timestamp <= oldest {
      assert ClearAt(q, id, oldest, i);
    }
  }

  // ---- what a whole run resolves

  /** The event makes the watchdog step in for the transaction. */
  ghost predicate StepsIn(d: Dog, e: Event, id: TxnId) {
    match e
    case Report(_) => false
    case PhaseOneTick(oldest) => id in d.all && d.all[id] == Prepared && Clear(d.prepared, id, oldest)
    case PhaseTwoTick(oldest) => id in d.all && d.all[id] == Decided && Clear(d.decided, id, oldest)
  }

  lemma {:induction false} StepsInExact(d: Dog, e: Event, id: TxnId)
    ensures id in Handle(d, e).resolved <==> id in d.resolved || StepsIn(d, e, id)
  {
    match e {
      case Report(_) =>
      case PhaseOneTick(oldest) => SweepExact(d.prepared, d.all, oldest, Prepared, id);
      case PhaseTwoTick(oldest) => SweepExact(d.decided, d.all, oldest, Decided, id);
    }
  }

  ghost predicate SteppedInAt(d: Dog, events: seq<Event>, id: TxnId, n: nat) {
    n < |events| && StepsIn(Run(d, events[..n]), events[n], id)
  }

  lemma {:induction false} SteppedInPrefix(d: Dog, events: seq<Event>, id: TxnId, k: nat, n: nat)
    requires n < k <= |events|
    ensures SteppedInAt(d, events[..k], id, n) <==> SteppedInAt(d, events, id, n)
  {
    assert events[..k][..n] == events[..n] && events[..k][n] == events[n];
  }

  /** Event by event: what is resolved is what some tick came to in the expected state. */
  lemma {:induction false} RunExact(d: Dog, events: seq<Event>, id: TxnId)
    ensures id in Run(d, events).resolved <==> id in d.resolved || exists n :: SteppedInAt(d, events, id, n)
  {
    if events != [] {
      var k := |events| - 1;
      RunExact(d, events[..k], id);
      StepsInExact(Run(d, events[..k]), events[k], id);
      forall n: nat | n < k
        ensures SteppedInAt(d, events[..k], id, n) <==> SteppedInAt(d, events, id, n)
      {
        SteppedInPrefix(d, events, id, k, n);
      }
      assert SteppedInAt(d, events, id, k) <==> StepsIn(Run(d, events[..k]), events[k], id);
      if n: nat :| SteppedInAt(d, events, id, n) {
        assert n == k || SteppedInAt(d, events[..k], id, n);
      }
    }
  }

  // ---- when a tick comes to a waiting transaction

  /** The transaction is first queued at `i`, and `due` is the latest timestamp up to there. */
  predicate WaitsAt(q: seq<Item>, id: TxnId, due: nat, i: nat) {
    i < |q| && q[i].id == id && (forall j :: 0 <= j < i ==> q[j].id != id) &&
    (forall j :: 0 <= j <= i ==> q[j].timestamp <= due) && (exists j :: 0 <= j <= i && q[j].timestamp == due)
  }

  ghost predicate Waits(q: seq<Item>, id: TxnId, due: nat) {
    exists i :: WaitsAt(q, id, due, i)
  }

  function Later(a: nat, b: nat): nat {
    if a >= b then a else b
  }

  /** The latest timestamp up to the first place where the transaction is queued. */
  function DueTime(q: seq<Item>, id: TxnId): nat {
    if q == [] then 0 else if q[0].id == id then q[0].timestamp else Later(q[0].timestamp, DueTime(q[1..], id))
  }

  lemma {:induction false} WaitsUntilDue(q: seq<Item>, id: TxnId, k: nat)
    requires k < |q| && q[k].id == id
    ensures Waits(q, id, DueTime(q, id))
  {
    if q[0].id == id {
      assert WaitsAt(q, id, DueTime(q, id), 0);
    } else {
      var rest, due := q[1..], DueTime(q, id);
      WaitsUntilDue(rest, id, k - 1);
      var i: nat :| WaitsAt(rest, id, DueTime(rest, id), i);
      var j :| 0 <= j <= i && rest[j].timestamp == DueTime(rest, id);
      forall m | 0 <= m <= i + 1 ensures q[m].timestamp <= due && (m < i + 1 ==> q[m].id != id) {
        if m > 0 {
          assert q[m] == rest[m - 1];
        }
      }
      assert q[j + 1].timestamp == DueTime(rest, id) && q[0].timestamp <= due;
      assert due == q[0].timestamp || due == q[j + 1].timestamp;
      assert WaitsAt(q, id, due, i + 1);
    }
  }

  /** A tick reaches a waiting transaction exactly if it is past everything queued before it; else it waits on. */
  lemma {:induction false} SweepWaiting(q: seq<Item>, all: map<TxnId, State>, oldest: nat, expected: State,
                                        id: TxnId, due: nat, i: nat)
    requires WaitsAt(q, id, due, i) && id in all && all[id] == expected
    ensures var r := Sweep(q, all, oldest, expected);
            if due <= oldest then id in r.2
            else Waits(r.0, id, due) && id !in r.2 && id in r.1 && r.1[id] == expected
  {
    if q[0].timestamp > oldest {
      assert WaitsAt(q, id, due, i);
    } else if i > 0 {
      var rest := if q[0].id in all && all[q[0].id] == expected then all - {q[0].id} else all;
      if due > oldest {
        var j :| 0 <= j <= i && q[j].timestamp == due;
        assert q[1..][j - 1].timestamp == due;
        assert WaitsAt(q[1..], id, due, i - 1);
        SweepWaiting(q[1..], rest, oldest, expected, id, due, i - 1);
      } else {
        SweepExact(q, all, oldest, expected, id);
        assert ClearAt(q, id, oldest, i);
      }
    }
  }

  /** A sweep for one state leaves transactions in another as they are. */
  lemma {:induction false} SweepOther(q: seq<Item>, all: map<TxnId, State>, oldest: nat, expected: State, id: TxnId)
    requires id in all && all[id] != expected
    ensures var r := Sweep(q, all, oldest, expected); id !in r.2 && id in r.1 && r.1[id] == all[id]
  {
    if q != [] && q[0].timestamp <= oldest {
      SweepOther(q[1..], if q[0].id in all && all[q[0].id] == expected then all - {q[0].id} else all,
                 oldest, expected, id);
    }
  }

  predicate Live(s: State) {
    s.Prepared? || s.Decided?
  }

  function QueueFor(d: Dog, s: State): seq<Item> {
    if s.Prepared? then d.prepared else d.decided
  }

  /** Tracked in the given state and queued for it, and not resolved yet. */
  ghost predicate Pending(d: Dog, id: TxnId, s: State, due: nat) {
    id in d.all && d.all[id] == s && id !in d.resolved && Waits(QueueFor(d, s), id, due)
  }

  /** A tick of the phase that comes past `due`. */
  predicate Due(e: Event, s: State, due: nat) {
    (e.PhaseOneTick? && s.Prepared? && due <= e.oldest) || (e.PhaseTwoTick? && s.Decided? && due <= e.oldest)
  }

  lemma {:induction false} PushKeeps(q: seq<Item>, other: Item, id: TxnId, due: nat)
    requires Waits(q, id, due)
    ensures Waits(q + [other], id, due)
  {
    var i: nat :| WaitsAt(q, id, due, i);
    var j :| 0 <= j <= i && q[j].timestamp == due;
    assert (q + [other])[j].timestamp == due;
    assert WaitsAt(q + [other], id, due, i);
  }

  lemma {:induction false} PendingTick(d: Dog, id: TxnId, s: State, due: nat, oldest: nat, expected: State)
    requires Pending(d, id, s, due) && Live(s) && Live(expected)
    ensures var e := if expected.Prepared? then PhaseOneTick(oldest) else PhaseTwoTick(oldest);
            if Due(e, s, due) then id in Handle(d, e).resolved else Pending(Handle(d, e), id, s, due)
  {
    if s == expected {
      var i: nat :| WaitsAt(QueueFor(d, s), id, due, i);
      SweepWaiting(QueueFor(d, s), d.all, oldest, expected, id, due, i);
    } else {
      SweepOther(QueueFor(d, expected), d.all, oldest, expected, id);
    }
  }

  lemma {:induction false} PendingStep(d: Dog, e: Event, id: TxnId, s: State, due: nat)
    requires Pending(d, id, s, due) && Live(s) && (e.Report? ==> e.item.id != id)
    ensures if Due(e, s, due) then id in Handle(d, e).resolved else Pending(Handle(d, e), id, s, due)
  {
    match e {
      case Report(other) => PushKeeps(QueueFor(d, s), other, id, due);
      case PhaseOneTick(oldest) => PendingTick(d, id, s, due, oldest, Prepared);
      case PhaseTwoTick(oldest) => PendingTick(d, id, s, due, oldest, Decided);
    }
  }

  predicate SomeDue(events: seq<Event>, s: State, due: nat) {
    exists n :: 0 <= n < |events| && Due(events[n], s, due)
  }

  predicate Unreported(events: seq<Event>, id: TxnId) {
    forall n :: 0 <= n < |events| && events[n].Report? ==> events[n].item.id != id
  }

  lemma {:induction false} PendingRun(d: Dog, events: seq<Event>, id: TxnId, s: State, due: nat)
    requires Pending(d, id, s, due) && Live(s) && Unreported(events, id)
    ensures if SomeDue(events, s, due) then id in Run(d, events).resolved else Pending(Run(d, events), id, s, due)
  {
    if events != [] {
      var front, last := events[..|events| - 1], events[|events| - 1];
      PendingRun(d, front, id, s, due);
      if n :| 0 <= n < |front| && Due(front[n], s, due) {
        assert Due(events[n], s, due);
        assert Run(d, front).resolved <= Run(d, events).resolved;
      } else {
        PendingStep(Run(d, front), last, id, s, due);
        assert forall n :: 0 <= n < |front| ==> events[n] == front[n];
      }
    }
  }

  // ---- transactions that something is reported of

  lemma {:induction false} RunAppend(d: Dog, a: seq<Event>, b: seq<Event>)
    ensures Run(d, a + b) == Run(Run(d, a), b)
    decreases |b|
  {
    if b == [] {
      assert a + b == a;
    } else {
      RunAppend(d, a, b[..|b| - 1]);
      assert (a + b)[..|a + b| - 1] == a + b[..|b| - 1] && (a + b)[|a + b| - 1] == b[|b| - 1];
    }
  }

  /** What is not tracked any more is not resolved later: nothing tracks it again. */
  lemma {:induction false} UntrackedStays(d: Dog, events: seq<Event>, id: TxnId)
    requires id !in d.all
    ensures id !in Run(d, events).all && (id in Run(d, events).resolved <==> id in d.resolved)
  {
    if events != [] {
      var front, last := events[..|events| - 1], events[|events| - 1];
      UntrackedStays(d, front, id);
      var v := Run(d, front);
      match last {
        case Report(_) =>
        case PhaseOneTick(oldest) => SweepMoves(v.prepared, v.all, oldest, Prepared);
        case PhaseTwoTick(oldest) => SweepMoves(v.decided, v.all, oldest, Decided);
      }
    }
  }

  /**
   * What the last report about a transaction leads to, in any run of any loaded watchdog. If it was resolved before,
   * that stays. If it is not tracked, or was committed or aborted, it is never resolved. If it was prepared or decided,
   * it is resolved exactly if a tick of that phase comes past everything then queued up to it, so possibly late: it may
   * be held up behind a younger one. A report that it timed out changes nothing.
   */
  lemma {:induction false} ReportedExact(prepared: seq<Item>, decided: seq<Item>, before: seq<Event>, item: Item,
                                         after: seq<Event>)
    requires Unreported(after, item.id)
    ensures var d0, id := Load(prepared, decided), item.id;
            var d := Run(d0, before);
            id in Run(d0, before + [Report(item)] + after).resolved <==>
            if item.state.Timedout? then id in Run(d0, before + after).resolved
            else
              id in d.resolved ||
              (id in d.all && Live(item.state) &&
               SomeDue(after, item.state, DueTime(QueueFor(d, item.state) + [item], id)))
  {
    var d0, id, s := Load(prepared, decided), item.id, item.state;
    var d := Run(d0, before);
    RunKeepsInv(d0, d0.all.Keys, before);
    RunAppend(d0, before + [Report(item)], after);
    RunAppend(d0, before, after);
    assert (before + [Report(item)])[..|before|] == before;
    var v := Run(d0, before + [Report(item)]);
    assert v == OnReport(d, item);
    if s.Timedout? {
      assert v == d;
    } else if id !in d.all || !Live(s) {
      UntrackedStays(v, after, id);
    } else {
      var q := QueueFor(d, s) + [item];
      assert QueueFor(v, s) == q && q[|q| - 1].id == id;
      WaitsUntilDue(q, id, |q| - 1);
      PendingRun(v, after, id, s, DueTime(q, id));
    }
  }

  // ---- transactions that nothing is reported of

  /** What `getRunning` gives a new leader: each transaction once, prepared and timed out ones in one queue, by time. */
  predicate Loadable(prepared: seq<Item>, decided: seq<Item>) {
    ByTime(prepared) && ByTime(decided) &&
    (forall i, j :: 0 <= i < j < |prepared + decided| ==> (prepared + decided)[i].id != (prepared + decided)[j].id) &&
    (forall i :: 0 <= i < |prepared| ==> prepared[i].state.Prepared? || prepared[i].state.Timedout?) &&
    (forall i :: 0 <= i < |decided| ==> decided[i].state.Decided?)
  }

  lemma {:induction false} LoadedState(prepared: seq<Item>, decided: seq<Item>, k: nat)
    requires Loadable(prepared, decided) && k < |prepared + decided|
    ensures var item := (prepared + decided)[k];
            item.id in Load(prepared, decided).all && Load(prepared, decided).all[item.id] == item.state
  {
    var all := prepared + decided;
    var i :| 0 <= i < |all| && all[i].id == all[k].id && all[i].state == States(all)[all[k].id];
    assert i == k;
  }

  lemma {:induction false} InOrderWaits(q: seq<Item>, k: nat)
    requires ByTime(q) && k < |q| && forall j :: 0 <= j < k ==> q[j].id != q[k].id
    ensures Waits(q, q[k].id, q[k].timestamp)
  {
    assert WaitsAt(q, q[k].id, q[k].timestamp, k);
  }

  lemma {:induction false} LoadedIsPending(prepared: seq<Item>, decided: seq<Item>, k: nat)
    requires Loadable(prepared, decided) && k < |prepared + decided|
    requires !(prepared + decided)[k].state.Timedout?
    ensures var item := (prepared + decided)[k];
            Pending(Load(prepared, decided), item.id, item.state, item.timestamp)
  {
    var all, n := prepared + decided, |prepared|;
    LoadedState(prepared, decided, k);
    if k < n {
      assert forall j :: 0 <= j < k ==> prepared[j] == all[j];
      InOrderWaits(prepared, k);
    } else {
      forall j | 0 <= j < k - n ensures decided[j].id != decided[k - n].id {
        assert decided[j] == all[n + j];
      }
      InOrderWaits(decided, k - n);
    }
  }

  lemma {:induction false} LoadedExact(prepared: seq<Item>, decided: seq<Item>, events: seq<Event>, k: nat)
    requires Loadable(prepared, decided) && k < |prepared + decided|
    requires Unreported(events, (prepared + decided)[k].id)
    ensures var item := (prepared + decided)[k];
            item.id in Run(Load(prepared, decided), events).resolved <==>
            SomeDue(events, item.state, item.timestamp)
  {
    var item := (prepared + decided)[k];
    if item.state.Timedout? {
      LoadedState(prepared, decided, k);
      TimedoutNeverResolved(prepared, decided, events, item.id);
      assert forall n :: 0 <= n < |events| ==> !Due(events[n], item.state, item.timestamp);
    } else {
      LoadedIsPending(prepared, decided, k);
      PendingRun(Load(prepared, decided), events, item.id, item.state, item.timestamp);
    }
  }

  /**
   * Over a whole run, a transaction nothing is reported of is resolved exactly if it was loaded, not as timed out, and
   * a tick of its phase came past its timestamp.
   */
  lemma {:induction false} ResolvedExact(prepared: seq<Item>, decided: seq<Item>, events: seq<Event>, id: TxnId)
    requires Loadable(prepared, decided) && Unreported(events, id)
    ensures id in Run(Load(prepared, decided), events).resolved <==>
            exists k :: 0 <= k < |prepared + decided| && (prepared + decided)[k].id == id &&
              SomeDue(events, (prepared + decided)[k].state, (prepared + decided)[k].timestamp)
  {
    var all := prepared + decided;
    if k :| 0 <= k < |all| && all[k].id == id {
      LoadedExact(prepared, decided, events, k);
    } else {
      OnlyLoadedResolved(prepared, decided, events);
    }
  }

  /** A decided transaction can be held up: a tick past its own timestamp does not come to it. */
  lemma {:induction false} HeldUp() returns (younger: Item, older: Item)
    ensures younger.id != older.id && older.timestamp < younger.timestamp
    ensures forall oldest :: older.timestamp <= oldest < younger.timestamp ==>
              !Clear([younger, older], older.id, oldest)
  {
    younger, older := Item(TxnId(0, 1, 1), 9, Decided), Item(TxnId(0, 1, 2), 5, Decided);
    forall oldest | older.timestamp <= oldest < younger.timestamp ensures !Clear([younger, older], older.id, oldest) {
      assert [younger, older][0].timestamp > oldest;
    }
  }
}
