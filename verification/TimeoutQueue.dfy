/**
  The timer queue and its workers. A step is what a thread does between two
  points at which another thread may run; whoever keeps the lock that
  `WaitUntilAllDone` returned excludes the steps that need the lock.
 */
module TimeoutQueues {
  import opened Collections
  import opened Text

  type Id = nat
  type Worker = int
  type Time = int

  /** `pushed` and `runs` are history; `deadline` is the key in the queue. */
  datatype Event = Event(pushed: Time, period: int, runs: nat, deadline: Time)

  datatype Hand =
    /** Taken out of the queue, waiting for its deadline. */
    | Waiting(id: Id)
    | Running(id: Id)
    /** Ran, asked to be repeated, not back in the queue yet. */
    | Returning(id: Id)
    /** Its function returned false; only the counter is still to be decremented. */
    | Leaving(id: Id)

  /** `lent`: the lock is kept by a caller of WaitUntilAllDone. */
  datatype Queue = Queue(
    events: seq<Event>, queue: set<Id>, hands: map<Worker, Hand>, finished: set<Id>,
    out: int, quit: bool, now: Time, lent: bool)

  const EMPTY: Queue := Queue([], {}, map[], {}, 0, false, 0, false)

  datatype Action =
    | Push(period: int)
    | Quit
    | Tick(elapsed: nat)
    | Take(w: Worker, id: Id)
    | Start(w: Worker)
    | PutBack(w: Worker)
    | Return(w: Worker, repeat: bool)
    | Reinsert(w: Worker)
    | Depart(w: Worker)
    | AllDone
    | Unlock

  predicate Earliest(q: Queue, id: Id)
    requires id in q.queue && forall i | i in q.queue :: i < |q.events|
  {
    forall i | i in q.queue :: q.events[id].deadline <= q.events[i].deadline
  }

  /** The ids in use are indices of `events`. */
  predicate WellScoped(q: Queue) {
    && (forall i | i in q.queue :: i < |q.events|)
    && (forall w | w in q.hands :: q.hands[w].id < |q.events|)
  }

  /**
    The guards of the worker loop. A waiting worker wakes to run its event once
    the deadline has passed and the queue is not quitting, and wakes to put it
    back when it is quitting or when an earlier event has been pushed.
   */
  predicate CanDo(q: Queue, a: Action)
    requires WellScoped(q)
  {
    match a
    case Push(_) => !q.lent
    case Quit => true
    case Tick(_) => true
    case Take(w, id) => !q.lent && !q.quit && w !in q.hands && id in q.queue && Earliest(q, id)
    case Start(w) =>
      !q.lent && w in q.hands && q.hands[w].Waiting? && !q.quit && q.events[q.hands[w].id].deadline <= q.now
    case PutBack(w) =>
      !q.lent && w in q.hands && q.hands[w].Waiting?
      && (q.quit || (q.now < q.events[q.hands[w].id].deadline
                     && exists i | i in q.queue :: q.events[i].deadline < q.events[q.hands[w].id].deadline))
    case Return(w, _) => w in q.hands && q.hands[w].Running?
    case Reinsert(w) => !q.lent && w in q.hands && q.hands[w].Returning?
    case Depart(w) => w in q.hands && q.hands[w].Leaving?
    case AllDone => !q.lent && q.queue == {} && q.out == 0
    case Unlock => q.lent
  }

  function Insert(q: Queue, w: Worker, id: Id): Queue {
    q.(queue := q.queue + {id}, hands := q.hands - {w}, out := q.out - 1)
  }

  /** The deadline moves by exactly one period, from the old deadline and not from the clock. */
  function AfterRun(e: Event): Event { e.(deadline := e.deadline + e.period) }

  function Do(q: Queue, a: Action): Queue
    requires WellScoped(q) && CanDo(q, a)
  {
    match a
    case Push(period) =>
      q.(events := q.events + [Event(q.now, period, 0, q.now + period)], queue := q.queue + {|q.events|})
    case Quit => q.(quit := true)
    case Tick(elapsed) => q.(now := q.now + elapsed)
    case Take(w, id) => q.(queue := q.queue - {id}, hands := q.hands[w := Waiting(id)], out := q.out + 1)
    case Start(w) =>
      var id := q.hands[w].id;
      q.(events := q.events[id := q.events[id].(runs := q.events[id].runs + 1)], hands := q.hands[w := Running(id)])
    case PutBack(w) => Insert(q, w, q.hands[w].id)
    case Return(w, repeat) =>
      var id := q.hands[w].id;
      if repeat
      then q.(events := q.events[id := AfterRun(q.events[id])], hands := q.hands[w := Returning(id)])
      else q.(hands := q.hands[w := Leaving(id)], finished := q.finished + {id})
    case Reinsert(w) => Insert(q, w, q.hands[w].id)
    case Depart(w) => q.(hands := q.hands - {w}, out := q.out - 1)
    case AllDone => q.(lent := true)
    case Unlock => q.(lent := false)
  }

  ghost predicate IsRun(run: seq<Queue>, actions: seq<Action>) {
    && |run| == |actions| + 1 && run[0] == EMPTY
    && forall i | 0 <= i < |actions| ::
         WellScoped(run[i]) ==> CanDo(run[i], actions[i]) && run[i + 1] == Do(run[i], actions[i])
  }

  // ----- where an event is -----

  /** The events in workers' hands that still have to go back or to finish. */
  predicate HeldBy(q: Queue, w: Worker, id: Id) {
    w in q.hands && !q.hands[w].Leaving? && q.hands[w].id == id
  }

  predicate Held(q: Queue, id: Id) { exists w | w in q.hands :: HeldBy(q, w, id) }

  /** Exactly one of: queued, in one worker's hands, finished. */
  ghost predicate Placed(q: Queue, id: Id) {
    && (forall v, w | HeldBy(q, v, id) && HeldBy(q, w, id) :: v == w)
    && (id in q.queue ==> !Held(q, id) && id !in q.finished)
    && (Held(q, id) ==> id !in q.finished)
    && (id in q.queue || Held(q, id) || id in q.finished)
  }

  ghost predicate PlaceInv(q: Queue) {
    && WellScoped(q)
    && (forall id | 0 <= id < |q.events| :: Placed(q, id))
    && (forall id | id in q.finished :: id < |q.events|)
    && (forall w | w in q.hands && q.hands[w].Leaving? :: q.hands[w].id in q.finished)
    && q.out == |q.hands|
    && (q.lent ==> q.queue == {} && forall id | 0 <= id < |q.events| :: id in q.finished)
  }

  lemma PlacedElsewhere(q: Queue, q': Queue, id: Id, w: Worker)
    requires Placed(q, id) && q'.hands - {w} == q.hands - {w}
    requires !HeldBy(q, w, id) && !HeldBy(q', w, id)
    requires (id in q'.queue <==> id in q.queue) && (id in q'.finished <==> id in q.finished)
    ensures Placed(q', id)
  {
    forall v
      ensures HeldBy(q', v, id) <==> HeldBy(q, v, id)
    {
      SameHand(q, q', v, w);
    }
    assert Held(q', id) <==> Held(q, id) by {
      if Held(q, id) { var v :| v in q.hands && HeldBy(q, v, id); assert HeldBy(q', v, id); }
      if Held(q', id) { var v :| v in q'.hands && HeldBy(q', v, id); assert HeldBy(q, v, id); }
    }
  }

  /** The event a step moves, if it moves one. */
  function Target(q: Queue, a: Action): Option<Id>
    requires WellScoped(q) && CanDo(q, a)
  {
    match a
    case Push(_) => Some(|q.events|)
    case Take(_, id) => Some(id)
    case Start(w) => Some(q.hands[w].id)
    case PutBack(w) => Some(q.hands[w].id)
    case Return(w, _) => Some(q.hands[w].id)
    case Reinsert(w) => Some(q.hands[w].id)
    case Depart(w) => Some(q.hands[w].id)
    case _ => None
  }

  function WorkerOf(a: Action): Worker {
    match a
    case Take(w, _) => w
    case Start(w) => w
    case PutBack(w) => w
    case Return(w, _) => w
    case Reinsert(w) => w
    case Depart(w) => w
    case _ => 0
  }

  /** A step touches one worker and one event. */
  lemma StepFrame(q: Queue, a: Action, id: Id)
    requires PlaceInv(q) && CanDo(q, a) && id < |q.events| && Target(q, a) != Some(id)
    ensures var q', w := Do(q, a), WorkerOf(a);
            && (id in q'.queue <==> id in q.queue) && (id in q'.finished <==> id in q.finished)
            && (q'.hands == q.hands
                || (q'.hands - {w} == q.hands - {w} && !HeldBy(q, w, id) && !HeldBy(q', w, id)))
  {
    var q', w := Do(q, a), WorkerOf(a);
    assert q'.hands == q.hands || q'.hands - {w} == q.hands - {w};
  }

  lemma OthersStayPlaced(q: Queue, a: Action, id: Id)
    requires PlaceInv(q) && CanDo(q, a) && id < |q.events| && Target(q, a) != Some(id)
    ensures Placed(Do(q, a), id)
  {
    StepFrame(q, a, id);
    var q', w := Do(q, a), WorkerOf(a);
    hide Do;
    assert Placed(q, id);
    if q'.hands == q.hands {
      assert forall v :: HeldBy(q', v, id) <==> HeldBy(q, v, id);
      assert Held(q', id) <==> Held(q, id);
    } else {
      PlacedElsewhere(q, q', id, w);
    }
  }

  lemma TargetPlaced(q: Queue, a: Action)
    requires PlaceInv(q) && CanDo(q, a) && Target(q, a).Some?
    ensures Placed(Do(q, a), Target(q, a).value)
  {
    var id, q', w := Target(q, a).value, Do(q, a), WorkerOf(a);
    if id < |q.events| {
      assert Placed(q, id);
      if w in q.hands && !q.hands[w].Leaving? { assert HeldBy(q, w, id); }
      if w in q'.hands && !q'.hands[w].Leaving? { assert HeldBy(q', w, id); }
    }
    forall v | v != w
      ensures HeldBy(q', v, id) <==> HeldBy(q, v, id)
    {}
  }

  /** An empty queue and a zero counter leave nowhere for an unfinished event to be. */
  lemma AllFinished(q: Queue)
    requires PlaceInv(q) && q.queue == {} && q.out == 0
    ensures forall id | 0 <= id < |q.events| :: id in q.finished
  {
    assert q.hands == map[];
    forall id | 0 <= id < |q.events|
      ensures id in q.finished
    {
      assert Placed(q, id);
    }
  }

  lemma PlaceStep(q: Queue, a: Action)
    requires PlaceInv(q) && CanDo(q, a)
    ensures PlaceInv(Do(q, a))
  {
    var q' := Do(q, a);
    forall id | 0 <= id < |q'.events|
      ensures Placed(q', id)
    {
      if Target(q, a) == Some(id) { TargetPlaced(q, a); } else { OthersStayPlaced(q, a, id); }
    }
    if a.AllDone? {
      AllFinished(q);
    }
  }

  // ----- when an event runs -----

  /** When the r-th run of an event is due. */
  function Due(e: Event, r: nat): Time { e.pushed + r * e.period }

  lemma DueNext(e: Event, r: nat)
    ensures Due(e, r + 1) == Due(e, r) + e.period
  {
    assert (r + 1) * e.period == r * e.period + e.period;
  }

  /** A run in progress, or a finished event, still has the deadline of its last run. */
  ghost predicate LastRunDeadline(q: Queue, id: Id) {
    id in q.finished || exists w | w in q.hands :: HeldBy(q, w, id) && q.hands[w].Running?
  }

  ghost predicate TimeInv(q: Queue) {
    forall id | 0 <= id < |q.events| ::
      var e := q.events[id];
      && e.pushed <= q.now
      && Due(e, e.runs) <= q.now
      && e.deadline == Due(e, if LastRunDeadline(q, id) then e.runs else e.runs + 1)
  }

  lemma TimeStep(q: Queue, a: Action)
    requires PlaceInv(q) && TimeInv(q) && CanDo(q, a)
    ensures TimeInv(Do(q, a))
  {
    var q' := Do(q, a);
    forall id | 0 <= id < |q'.events|
      ensures var e := q'.events[id];
              && e.pushed <= q'.now && Due(e, e.runs) <= q'.now
              && e.deadline == Due(e, if LastRunDeadline(q', id) then e.runs else e.runs + 1)
    {
      if id < |q.events| {
        TimeStepFor(q, a, id);
      } else {
        DueNext(q'.events[id], 0);
        assert Due(q'.events[id], 0) == q.now;
      }
    }
  }

  lemma TimeStepFor(q: Queue, a: Action, id: Id)
    requires PlaceInv(q) && TimeInv(q) && CanDo(q, a) && id < |q.events|
    ensures var q' := Do(q, a);
            var e := q'.events[id];
            && e.pushed <= q'.now && Due(e, e.runs) <= q'.now
            && e.deadline == Due(e, if LastRunDeadline(q', id) then e.runs else e.runs + 1)
  {
    var q', e, w := Do(q, a), q.events[id], WorkerOf(a);
    DueNext(e, e.runs);
    PlaceStep(q, a);
    if Target(q, a) == Some(id) {
      PhaseOf(q, id, w);
      PhaseOf(q', id, w);
    } else {
      StepFrame(q, a, id);
      PhaseUnmoved(q, q', id, w);
    }
  }

  lemma PhaseOf(q: Queue, id: Id, w: Worker)
    requires Placed(q, id)
    ensures id in q.queue ==> !LastRunDeadline(q, id)
    ensures id in q.finished ==> LastRunDeadline(q, id)
    ensures HeldBy(q, w, id) ==> (LastRunDeadline(q, id) <==> q.hands[w].Running?)
  {
    if HeldBy(q, w, id) { assert Held(q, id); }
  }

  lemma PhaseUnmoved(q: Queue, q': Queue, id: Id, w: Worker)
    requires id in q'.finished <==> id in q.finished
    requires q'.hands == q.hands
             || (q'.hands - {w} == q.hands - {w} && !HeldBy(q, w, id) && !HeldBy(q', w, id))
    ensures LastRunDeadline(q', id) <==> LastRunDeadline(q, id)
  {
    forall v
      ensures HeldBy(q', v, id) <==> HeldBy(q, v, id)
      ensures HeldBy(q, v, id) ==> q'.hands[v] == q.hands[v]
    {
      SameHand(q, q', v, w);
    }
  }

  lemma SameHand(q: Queue, q': Queue, v: Worker, w: Worker)
    requires q'.hands == q.hands || q'.hands - {w} == q.hands - {w}
    ensures v != w || q'.hands == q.hands ==>
              (v in q'.hands <==> v in q.hands) && (v in q.hands ==> q'.hands[v] == q.hands[v])
  {
    if v != w && q'.hands != q.hands {
      assert v in q.hands <==> v in q.hands - {w};
      assert v in q'.hands <==> v in q'.hands - {w};
      assert v in q.hands ==> (q.hands - {w})[v] == q.hands[v];
      assert v in q'.hands ==> (q'.hands - {w})[v] == q'.hands[v];
    }
  }

  lemma StepKeeps(q: Queue, a: Action)
    requires PlaceInv(q) && TimeInv(q) && CanDo(q, a)
    ensures PlaceInv(Do(q, a)) && TimeInv(Do(q, a))
  {
    PlaceStep(q, a);
    TimeStep(q, a);
  }

  // ----- over whole runs -----

  lemma {:induction false} RunInv(run: seq<Queue>, actions: seq<Action>, n: nat)
    requires IsRun(run, actions) && n < |run|
    ensures PlaceInv(run[n]) && TimeInv(run[n])
  {
    if n > 0 {
      RunInv(run, actions, n - 1);
      StepKeeps(run[n - 1], actions[n - 1]);
    }
  }

  /** The events that some worker still has to return or finish. */
  ghost function HeldIds(hands: map<Worker, Hand>): set<Id> {
    set w | w in hands && !hands[w].Leaving? :: hands[w].id
  }

  lemma {:induction false} HeldIdsBound(hands: map<Worker, Hand>)
    ensures |HeldIds(hands)| <= |hands|
    decreases |hands|
  {
    if w :| w in hands {
      var rest := hands - {w};
      assert hands.Keys == rest.Keys + {w};
      HeldIdsBound(rest);
      assert HeldIds(hands) <= HeldIds(rest) + {hands[w].id};
      CardinalityOfSubset(HeldIds(hands), HeldIds(rest) + {hands[w].id});
    } else {
      assert HeldIds(hands) == {};
    }
  }

  /**
    Event conservation: in every state of every run each pushed event is in
    exactly one of the queue, one worker's hands and the finished set, and the
    counter never says fewer than the events in hand.
   */
  lemma EventConservation(run: seq<Queue>, actions: seq<Action>, n: nat, id: Id)
    requires IsRun(run, actions) && n < |run| && id < |run[n].events|
    ensures Placed(run[n], id)
    ensures |HeldIds(run[n].hands)| <= run[n].out
  {
    RunInv(run, actions, n);
    HeldIdsBound(run[n].hands);
  }

  /** WaitUntilAllDone returns only when every pushed event has finished, which lasts while its lock is kept. */
  lemma AllDoneSound(run: seq<Queue>, actions: seq<Action>, n: nat)
    requires IsRun(run, actions) && n < |run|
    ensures run[n].lent ==> forall id | 0 <= id < |run[n].events| :: id in run[n].finished
    ensures n < |actions| && actions[n].AllDone? ==> forall id | 0 <= id < |run[n].events| :: id in run[n].finished
  {
    RunInv(run, actions, n);
    if n < |actions| && actions[n].AllDone? { AllFinished(run[n]); }
  }

  /** How many of the first `n` actions start a run of event `id`. */
  function StartCount(run: seq<Queue>, actions: seq<Action>, n: nat, id: Id): nat
    requires n <= |actions| < |run|
  {
    if n == 0 then 0
    else StartCount(run, actions, n - 1, id) + if Starts(run[n - 1], actions[n - 1], id) then 1 else 0
  }

  predicate Starts(q: Queue, a: Action, id: Id) {
    a.Start? && a.w in q.hands && q.hands[a.w].id == id
  }

  /** The milliseconds that have passed in the first `n` actions, which is all the clock shows. */
  function Elapsed(actions: seq<Action>, n: nat): nat
    requires n <= |actions|
  {
    if n == 0 then 0 else Elapsed(actions, n - 1) + if actions[n - 1].Tick? then actions[n - 1].elapsed else 0
  }

  lemma {:induction false} ClockShows(run: seq<Queue>, actions: seq<Action>, n: nat)
    requires IsRun(run, actions) && n < |run|
    ensures run[n].now == Elapsed(actions, n)
  {
    if n > 0 {
      RunInv(run, actions, n - 1);
      ClockShows(run, actions, n - 1);
    }
  }

  lemma {:induction false} NoStartBeforePush(run: seq<Queue>, actions: seq<Action>, n: nat, id: Id)
    requires IsRun(run, actions) && n < |run| && |run[n].events| <= id
    ensures StartCount(run, actions, n, id) == 0
  {
    if n > 0 {
      RunInv(run, actions, n - 1);
      NoStartBeforePush(run, actions, n - 1, id);
    }
  }

  /** An event is what was pushed, when it was pushed, and has run as often as it was started. */
  lemma {:induction false} PushRecorded(run: seq<Queue>, actions: seq<Action>, m: nat, n: nat, period: int)
    requires IsRun(run, actions) && m < n < |run| && actions[m] == Push(period)
    ensures var id := |run[m].events|;
            && id < |run[n].events| && run[n].events[id].pushed == Elapsed(actions, m)
            && run[n].events[id].period == period && run[n].events[id].runs == StartCount(run, actions, n, id)
    decreases n
  {
    var id := |run[m].events|;
    RunInv(run, actions, n - 1);
    ClockShows(run, actions, m);
    if n == m + 1 {
      NoStartBeforePush(run, actions, m, id);
    } else {
      PushRecorded(run, actions, m, n - 1, period);
      RecordStep(run[n - 1], actions[n - 1], id);
    }
  }

  lemma RecordStep(q: Queue, a: Action, id: Id)
    requires WellScoped(q) && CanDo(q, a) && id < |q.events|
    ensures var e, e' := q.events[id], Do(q, a).events[id];
            && e'.pushed == e.pushed && e'.period == e.period
            && e'.runs == e.runs + if Starts(q, a, id) then 1 else 0
  {}

  /**
    No early run: when the event pushed by action `m` is started for the r-th time,
    at least r periods have passed since the push.
   */
  lemma NoEarlyRun(run: seq<Queue>, actions: seq<Action>, m: nat, n: nat, period: int)
    requires IsRun(run, actions) && m < n < |actions| && actions[m] == Push(period)
    requires Starts(run[n], actions[n], |run[m].events|)
    ensures var r := StartCount(run, actions, n + 1, |run[m].events|);
            Elapsed(actions, n) >= Elapsed(actions, m) + r * period
  {
    var id := |run[m].events|;
    PushRecorded(run, actions, m, n, period);
    ClockShows(run, actions, n);
    DueWhenStarted(run, actions, n);
    assert StartCount(run, actions, n + 1, id) == run[n].events[id].runs + 1;
  }

  /** When a run of an event starts, its due time has passed. */
  lemma DueWhenStarted(run: seq<Queue>, actions: seq<Action>, n: nat)
    requires IsRun(run, actions) && n < |actions| && actions[n].Start?
    ensures actions[n].w in run[n].hands && run[n].hands[actions[n].w].id < |run[n].events|
    ensures var e := run[n].events[run[n].hands[actions[n].w].id];
            Due(e, e.runs + 1) <= run[n].now
  {
    RunInv(run, actions, n);
    var w := actions[n].w;
    var id := run[n].hands[w].id;
    assert HeldBy(run[n], w, id) && Placed(run[n], id);
    PhaseOf(run[n], id, w);
  }

  /** Quitting is for good: no event is taken or started afterwards. */
  lemma {:induction false} QuitStops(run: seq<Queue>, actions: seq<Action>, m: nat, n: nat)
    requires IsRun(run, actions) && m < n < |run| && actions[m].Quit?
    ensures run[n].quit && (n < |actions| ==> !actions[n].Take? && !actions[n].Start?)
    decreases n
  {
    RunInv(run, actions, n - 1);
    RunInv(run, actions, n);
    if n > m + 1 { QuitStops(run, actions, m, n - 1); }
  }

  /** No drift: a queued event is due exactly one period after its last due time, whatever the delays. */
  lemma NoDrift(run: seq<Queue>, actions: seq<Action>, n: nat, id: Id)
    requires IsRun(run, actions) && n < |run| && id < |run[n].events|
    ensures var e := run[n].events[id];
            && (id in run[n].queue ==> e.deadline == Due(e, e.runs + 1))
            && (e.period > 0 ==> e.runs <= (run[n].now - e.pushed) / e.period)
  {
    RunInv(run, actions, n);
    assert Placed(run[n], id);
    PhaseOf(run[n], id, 0);
    var e := run[n].events[id];
    if e.period > 0 { AtMost(e.runs, e.period, run[n].now - e.pushed); }
  }

  lemma AtMost(k: nat, period: nat, elapsed: int)
    requires period > 0 && k * period <= elapsed
    ensures k <= elapsed / period
  {
    var d := elapsed / period;
    assert (d - k) * period == d * period - k * period;
    NegativeMultiple(d - k, period);
  }

  lemma NegativeMultiple(x: int, period: int)
    requires 0 <= period
    ensures x <= -1 ==> x * period <= -period
  {
    if x <= -1 { assert x * period == (x + 1) * period - period; }
  }

  // ----- what moves a deadline -----

  /** Whether the action ends a run of event `id` that asked to be repeated. */
  predicate Repeats(q: Queue, a: Action, id: Id) {
    a.Return? && a.repeat && a.w in q.hands && q.hands[a.w].id == id
  }

  /** How many of the first `n` actions do. */
  function RepeatCount(run: seq<Queue>, actions: seq<Action>, n: nat, id: Id): nat
    requires n <= |actions| < |run|
  {
    if n == 0 then 0
    else RepeatCount(run, actions, n - 1, id) + if Repeats(run[n - 1], actions[n - 1], id) then 1 else 0
  }

  lemma {:induction false} NoRepeatBeforePush(run: seq<Queue>, actions: seq<Action>, n: nat, id: Id)
    requires IsRun(run, actions) && n < |run| && |run[n].events| <= id
    ensures RepeatCount(run, actions, n, id) == 0
  {
    if n > 0 {
      RunInv(run, actions, n - 1);
      NoRepeatBeforePush(run, actions, n - 1, id);
    }
  }

  /**
    A deadline is the push time and one period for the push and for every run that
    asked to be repeated; taking an event out, waiting, putting it back and running
    it never move it.
   */
  lemma {:induction false} DeadlineCountsRepeats(run: seq<Queue>, actions: seq<Action>, n: nat, id: Id)
    requires IsRun(run, actions) && n < |run| && id < |run[n].events|
    ensures run[n].events[id].deadline == Due(run[n].events[id], RepeatCount(run, actions, n, id) + 1)
    decreases n
  {
    if n > 0 {
      RunInv(run, actions, n - 1);
      var q, a := run[n - 1], actions[n - 1];
      if id < |q.events| {
        DeadlineCountsRepeats(run, actions, n - 1, id);
        DeadlineStep(q, a, id);
        DueNext(q.events[id], RepeatCount(run, actions, n - 1, id) + 1);
      } else {
        NoRepeatBeforePush(run, actions, n - 1, id);
        DueNext(run[n].events[id], 0);
        assert Due(run[n].events[id], 0) == run[n].events[id].pushed;
      }
    }
  }

  lemma DeadlineStep(q: Queue, a: Action, id: Id)
    requires WellScoped(q) && CanDo(q, a) && id < |q.events|
    ensures var e, e' := q.events[id], Do(q, a).events[id];
            && e'.pushed == e.pushed && e'.period == e.period
            && e'.deadline == e.deadline + if Repeats(q, a, id) then e.period else 0
  {}

  /** While worker `w` waits with an event in its hands, no other worker touches the event. */
  lemma {:induction false} WaitingKept(run: seq<Queue>, actions: seq<Action>, m: nat, n: nat, w: Worker, id: Id)
    requires IsRun(run, actions) && m < n < |run| && actions[m] == Take(w, id)
    requires forall k | m < k < n :: !ByWorker(actions[k], w)
    ensures id < |run[m].events| && id < |run[n].events| && run[n].events[id] == run[m].events[id]
    ensures w in run[n].hands && run[n].hands[w] == Waiting(id)
    decreases n
  {
    RunInv(run, actions, m);
    if n > m + 1 {
      WaitingKept(run, actions, m, n - 1, w, id);
      RunInv(run, actions, n - 1);
      EventUntouched(run[n - 1], actions[n - 1], w, id);
    }
  }

  predicate ByWorker(a: Action, w: Worker) {
    (a.Take? || a.Start? || a.PutBack? || a.Return? || a.Reinsert? || a.Depart?) && a.w == w
  }

  lemma EventUntouched(q: Queue, a: Action, w: Worker, id: Id)
    requires PlaceInv(q) && CanDo(q, a) && w in q.hands && q.hands[w] == Waiting(id) && !ByWorker(a, w)
    ensures id < |Do(q, a).events| && Do(q, a).events[id] == q.events[id]
    ensures w in Do(q, a).hands && Do(q, a).hands[w] == Waiting(id)
  {
    assert HeldBy(q, w, id) && Placed(q, id);
    if (a.Start? || a.Return?) && q.hands[a.w].id == id { assert HeldBy(q, a.w, id); }
  }

  /** Taking an event out and putting it back without running it is a round trip: it is queued as it was. */
  lemma PutBackKeepsDeadline(run: seq<Queue>, actions: seq<Action>, m: nat, n: nat, w: Worker, id: Id)
    requires IsRun(run, actions) && m < n < |actions| && actions[m] == Take(w, id) && actions[n] == PutBack(w)
    requires forall k | m < k < n :: !ByWorker(actions[k], w)
    ensures id < |run[m].events| && id < |run[n + 1].events| && run[n + 1].events[id] == run[m].events[id]
    ensures id in run[m].queue && id in run[n + 1].queue
  {
    WaitingKept(run, actions, m, n, w, id);
    RunInv(run, actions, m);
    RunInv(run, actions, n);
  }

  /** When `wait_until` returns: quitting, an earlier event in the queue, or the deadline has passed. */
  predicate WaitOver(q: Queue, id: Id)
    requires WellScoped(q) && id < |q.events|
  {
    q.quit || q.events[id].deadline <= q.now || exists i | i in q.queue :: q.events[i].deadline < q.events[id].deadline
  }

  // ----- the queue object -----

  class TimeoutQueue {
    var events: seq<Event>
    var timeOutQueue: set<Id>
    var hands: map<Worker, Hand>
    var finished: set<Id>
    var eventsOutOfQueue: int
    var quit: bool
    var now: Time
    var lent: bool

    ghost function State(): Queue
      reads this
    {
      Queue(events, timeOutQueue, hands, finished, eventsOutOfQueue, quit, now, lent)
    }

    ghost predicate Valid()
      reads this
    {
      PlaceInv(State()) && TimeInv(State())
    }

    constructor ()
      ensures Valid() && State() == EMPTY
    {
      events, timeOutQueue, hands, finished := [], {}, map[], {};
      eventsOutOfQueue, quit, now, lent := 0, false, 0, false;
    }

    method PushEvent(period: int)
      requires Valid() && CanDo(State(), Push(period))
      modifies this
      ensures Valid() && State() == Do(old(State()), Push(period))
      ensures events == old(events) + [Event(now, period, 0, now + period)] && now == old(now)
      ensures timeOutQueue == old(timeOutQueue) + {|old(events)|}
    {
      StepKeeps(State(), Push(period));
      hide PlaceInv, TimeInv;
      timeOutQueue := timeOutQueue + {|events|};
      events := events + [Event(now, period, 0, now + period)];
    }

    method RequestQuit()
      requires Valid()
      modifies this
      ensures Valid() && State() == Do(old(State()), Quit)
      ensures quit && State() == old(State()).(quit := true)
    {
      StepKeeps(State(), Quit);
      hide PlaceInv, TimeInv;
      quit := true;
    }

    /** The start of a worker round: quit, nothing to do, or the earliest event, taken out and counted. */
    method TakeNext(w: Worker) returns (id: Option<Id>)
      requires Valid() && !lent && w !in hands
      modifies this
      ensures Valid()
      ensures id.None? <==> old(quit || timeOutQueue == {})
      ensures id.None? ==> State() == old(State())
      ensures id.Some? ==> CanDo(old(State()), Take(w, id.value)) && State() == Do(old(State()), Take(w, id.value))
      ensures id.Some? ==>
                && id.value in old(timeOutQueue) && timeOutQueue == old(timeOutQueue) - {id.value}
                && (forall i | i in old(timeOutQueue) :: events[id.value].deadline <= events[i].deadline)
                && hands == old(hands)[w := Waiting(id.value)] && eventsOutOfQueue == old(eventsOutOfQueue) + 1
    {
      if quit || timeOutQueue == {} { return None; }
      var first := Front();
      StepKeeps(State(), Take(w, first));
      hide PlaceInv, TimeInv;
      eventsOutOfQueue := eventsOutOfQueue + 1;
      timeOutQueue := timeOutQueue - {first};
      hands := hands[w := Waiting(first)];
      return Some(first);
    }

    /** `time_out_queue_.begin()`: an event with the smallest deadline. */
    method Front() returns (first: Id)
      requires WellScoped(State()) && timeOutQueue != {}
      ensures first in timeOutQueue && Earliest(State(), first)
    {
      first :| first in timeOutQueue;
      var rest := timeOutQueue - {first};
      while rest != {}
        invariant first in timeOutQueue && rest <= timeOutQueue
        invariant forall i | i in timeOutQueue - rest :: events[first].deadline <= events[i].deadline
        decreases rest
      {
        var i :| i in rest;
        if events[i].deadline < events[first].deadline { first := i; }
        rest := rest - {i};
      }
    }

    /** After the wait: run the event, or put it back. */
    method AfterWait(w: Worker) returns (started: bool)
      requires Valid() && !lent && w in hands && hands[w].Waiting?
      requires WaitOver(State(), hands[w].id)
      modifies this
      ensures Valid()
      ensures started <==> !old(quit) && old(events[hands[w].id].deadline) <= old(now)
      ensures State() == Do(old(State()), if started then Start(w) else PutBack(w))
      ensures var id := old(hands[w].id);
              if started then
                && events[id] == old(events[id]).(runs := old(events[id].runs) + 1) && hands[w] == Running(id)
              else
                && id in timeOutQueue && w !in hands && events == old(events)
                && eventsOutOfQueue == old(eventsOutOfQueue) - 1
    {
      var id := hands[w].id;
      started := !quit && events[id].deadline <= now;
      StepKeeps(State(), if started then Start(w) else PutBack(w));
      hide PlaceInv, TimeInv;
      if started {
        events := events[id := events[id].(runs := events[id].runs + 1)];
        hands := hands[w := Running(id)];
      } else {
        timeOutQueue := timeOutQueue + {id};
        hands := hands - {w};
        eventsOutOfQueue := eventsOutOfQueue - 1;
      }
    }

    /** The event function has returned. */
    method AfterFunction(w: Worker, isRepeat: bool)
      requires Valid() && CanDo(State(), Return(w, isRepeat))
      modifies this
      ensures Valid() && State() == Do(old(State()), Return(w, isRepeat))
      ensures var id := old(hands[w].id);
              if isRepeat then
                && events[id].deadline == old(events[id].deadline) + old(events[id].period)
                && hands[w] == Returning(id) && finished == old(finished)
              else
                && events == old(events) && id in finished && hands[w] == Leaving(id)
    {
      StepKeeps(State(), Return(w, isRepeat));
      hide PlaceInv, TimeInv;
      var id := hands[w].id;
      if isRepeat {
        events := events[id := events[id].(deadline := events[id].deadline + events[id].period)];
        hands := hands[w := Returning(id)];
      } else {
        finished := finished + {id};
        hands := hands[w := Leaving(id)];
      }
    }

    /** The end of a repeated round: back into the queue under the lock, then the counter. */
    method EndRepeat(w: Worker)
      requires Valid() && CanDo(State(), Reinsert(w))
      modifies this
      ensures Valid() && State() == Do(old(State()), Reinsert(w))
      ensures old(hands[w].id) in timeOutQueue && w !in hands && eventsOutOfQueue == old(eventsOutOfQueue) - 1
    {
      StepKeeps(State(), Reinsert(w));
      hide PlaceInv, TimeInv;
      timeOutQueue := timeOutQueue + {hands[w].id};
      hands := hands - {w};
      eventsOutOfQueue := eventsOutOfQueue - 1;
    }

    /** The end of a last round: only the counter, without the lock. */
    method EndLast(w: Worker)
      requires Valid() && CanDo(State(), Depart(w))
      modifies this
      ensures Valid() && State() == Do(old(State()), Depart(w))
      ensures timeOutQueue == old(timeOutQueue) && w !in hands && eventsOutOfQueue == old(eventsOutOfQueue) - 1
    {
      StepKeeps(State(), Depart(w));
      hide PlaceInv, TimeInv;
      hands := hands - {w};
      eventsOutOfQueue := eventsOutOfQueue - 1;
    }

    /** One evaluation of the condition of WaitUntilAllDone; when it holds the caller keeps the lock. */
    method TryAllDone() returns (done: bool)
      requires Valid() && !lent
      modifies this`lent
      ensures Valid() && lent == done
      ensures done <==> timeOutQueue == {} && eventsOutOfQueue == 0
      ensures done ==> forall id | 0 <= id < |events| :: id in finished
    {
      done := timeOutQueue == {} && eventsOutOfQueue == 0;
      if done {
        AllFinished(State());
        StepKeeps(State(), AllDone);
        hide PlaceInv, TimeInv;
        lent := true;
      }
    }
  }
}
