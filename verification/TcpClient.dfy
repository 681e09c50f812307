/**
  One TCP client over the service: request queues, asynchronous reads and writes
  and disconnection, by any number of threads. A thread is between two steps
  where it waits for a mutex or has just released one; a thread that holds a
  request mutex across steps says so in its program counter.
 */
module TcpClients {
  import opened Text
  import opened IoServices

  type Tid = int

  datatype Pc =
    /** `async_read` or `async_write` saw the connection up and holds the mutex of queue `k`. */
    | AsyncSet(k: Kind)
    | AsyncPush(k: Kind)
    /** `process_read` or `process_write` emptied queue `k` and still holds its mutex. */
    | ProcessSet(k: Kind)
    /** `disconnect` passed the connection check. */
    | Store(wait: bool)
    | Clear(k: Kind, wait: bool)
    | Remove(wait: bool)
    | Await
    | Close

  /** The fields of a `tcp_client` and the service it uses. */
  datatype Shared = Shared(io: Io, fd: Fd, connected: bool, readRequests: nat, writeRequests: nat, closed: bool)

  /** How a `disconnect(true)` got past its waiting. */
  datatype Ending =
    /** `wait_for_removal` returned while the socket was open. */
    | OpenWait
    /** It returned after another disconnect had closed the socket. */
    | LateWait
    /** The client was down already, so nothing was waited for. */
    | Refusal

  /**
    How many calls of `disconnect` passed the check, which queues were cleared,
    whether `untrack` ran on the open descriptor, and how calls of
    `disconnect(true)` got past their waiting.
   */
  datatype Past = Past(checks: nat, cleared: set<Kind>, removed: bool, endings: set<Ending>)

  const NO_PAST: Past := Past(0, {}, false, {})

  datatype Client = Client(now: Shared, past: Past, threads: map<Tid, Pc>)

  predicate Holds(pc: Pc, k: Kind) {
    (pc.AsyncSet? || pc.AsyncPush? || pc.ProcessSet?) && pc.k == k
  }

  predicate Disconnecting(pc: Pc) {
    pc.Store? || pc.Clear? || pc.Remove? || pc.Await? || pc.Close?
  }

  /** The mutex of queue `k` is free. */
  ghost predicate Free(c: Client, k: Kind) {
    forall t | t in c.threads :: !Holds(c.threads[t], k)
  }

  function Queue(s: Shared, k: Kind): nat { if k.Rd? then s.readRequests else s.writeRequests }

  function WithQueue(s: Shared, k: Kind, n: nat): Shared {
    if k.Rd? then s.(readRequests := n) else s.(writeRequests := n)
  }

  datatype Action =
    | BeginAsync(t: Tid, k: Kind)
    | BeginProcess(t: Tid, k: Kind)
    | BeginDisconnect(t: Tid, wait: bool)
    /** A `disconnect` that finds the client down returns at once, whether or not it was to wait. */
    | Refuse(wait: bool)
    | Advance(t: Tid, callback: Callback)
    | Environment(event: Event)

  predicate Names(e: Event, fd: Fd) {
    (e.ETrack? || e.ESet? || e.EUntrack?) && e.fd == fd
  }

  /** When an action is possible. The rest of the program never touches this client's descriptor. */
  ghost predicate CanStep(c: Client, a: Action) {
    match a
    case BeginAsync(t, k) => t !in c.threads && Free(c, k) && c.now.connected
    case BeginProcess(t, k) => t !in c.threads && Free(c, k) && Queue(c.now, k) > 0
    case BeginDisconnect(t, _) => t !in c.threads && c.now.connected
    case Refuse(_) => !c.now.connected
    case Advance(t, _) =>
      t in c.threads
      && (c.threads[t].Clear? ==> Free(c, c.threads[t].k))
      && (c.threads[t].Await? ==> c.now.closed || c.now.fd !in c.now.io.sockets)
    case Environment(e) => Enabled(c.now.io, e) && !Names(e, c.now.fd)
  }

  /** What a thread does next; None when the call is over. */
  function NextPc(pc: Pc): Option<Pc> {
    match pc
    case AsyncSet(k) => Some(AsyncPush(k))
    case AsyncPush(_) => None
    case ProcessSet(_) => None
    case Store(wait) => Some(Clear(Rd, wait))
    case Clear(k, wait) => Some(if k.Rd? then Clear(Wr, wait) else Remove(wait))
    case Remove(wait) => Some(if wait then Await else Close)
    case Await => Some(Close)
    case Close => None
  }

  /** The effect of the step at `pc`; a closed socket names no tracked descriptor. */
  function Effect(s: Shared, pc: Pc, cb: Callback): Shared {
    match pc
    case AsyncSet(k) => if s.closed then s else s.(io := SetCallback(s.io, s.fd, k, Some(cb)))
    case AsyncPush(k) => WithQueue(s, k, Queue(s, k) + 1)
    case ProcessSet(k) => if s.closed then s else s.(io := SetCallback(s.io, s.fd, k, None))
    case Store(_) => s.(connected := false)
    case Clear(k, _) => WithQueue(s, k, 0)
    case Remove(_) => if s.closed then s else s.(io := Untrack(s.io, s.fd))
    case Await => s
    case Close => s.(closed := true)
  }

  function Record(p: Past, pc: Pc, closed: bool): Past {
    match pc
    case Clear(k, _) => p.(cleared := p.cleared + {k})
    case Remove(_) => p.(removed := p.removed || !closed)
    case Await => p.(endings := p.endings + {if closed then LateWait else OpenWait})
    case _ => p
  }

  /** The next atomic piece of what thread `t` is doing. */
  function AdvanceThread(c: Client, t: Tid, cb: Callback): Client
    requires t in c.threads
  {
    var pc := c.threads[t];
    Client(Effect(c.now, pc, cb), Record(c.past, pc, c.now.closed),
           match NextPc(pc) case None => c.threads - {t} case Some(next) => c.threads[t := next])
  }

  function Do(c: Client, a: Action): Client
    requires a.Advance? ==> a.t in c.threads
    requires a.BeginProcess? ==> Queue(c.now, a.k) > 0
  {
    match a
    case BeginAsync(t, k) => c.(threads := c.threads[t := AsyncSet(k)])
    case BeginProcess(t, k) =>
      var n := Queue(c.now, k) - 1;
      Client(WithQueue(c.now, k, n), c.past, if n == 0 then c.threads[t := ProcessSet(k)] else c.threads)
    case BeginDisconnect(t, wait) =>
      Client(c.now, c.past.(checks := c.past.checks + 1), c.threads[t := Store(wait)])
    case Refuse(wait) =>
      if wait then c.(past := c.past.(endings := c.past.endings + {Refusal})) else c
    case Advance(t, cb) => AdvanceThread(c, t, cb)
    case Environment(e) => c.(now := c.now.(io := Apply(c.now.io, e)))
  }

  /** A freshly connected client, whose socket has just been tracked and whose history is empty. */
  predicate Initial(c: Client) {
    && c.now.connected && c.now.readRequests == c.now.writeRequests == 0 && !c.now.closed
    && c.now.fd in c.now.io.sockets && c.now.io.sockets[c.now.fd] == UNTRACKED
    && InFlight(c.now.io, c.now.fd, Rd) == InFlight(c.now.io, c.now.fd, Wr) == 0
    && c.threads == map[] && c.past == NO_PAST
  }

  ghost predicate IsRun(run: seq<Client>, actions: seq<Action>) {
    && |run| == |actions| + 1 && Initial(run[0]) && IoServices.Inv(run[0].now.io)
    && forall i | 0 <= i < |actions| :: CanStep(run[i], actions[i]) && run[i + 1] == Do(run[i], actions[i])
  }

  // ----- invariant -----

  /** What a cleared queue means: no request, no holder of its mutex, and none to come. */
  ghost predicate QueueInv(c: Client, k: Kind) {
    && (forall t, u | t in c.threads && u in c.threads && Holds(c.threads[t], k) && Holds(c.threads[u], k) :: t == u)
    && (k in c.past.cleared ==> !c.now.connected && Queue(c.now, k) == 0 && Free(c, k))
  }

  predicate AllCleared(c: Client) { Rd in c.past.cleared && Wr in c.past.cleared }

  /** What the program counter of a disconnecting thread says about the client. */
  predicate PcInv(c: Client, pc: Pc) {
    && (pc.Clear? ==> !c.now.connected && (pc.k.Wr? ==> Rd in c.past.cleared))
    && (pc.Remove? ==> AllCleared(c))
    && (pc.Await? || pc.Close? ==> AllCleared(c) && (c.past.removed || c.now.closed))
  }

  ghost predicate ClientInv(c: Client) {
    && IoServices.Inv(c.now.io)
    && QueueInv(c, Rd) && QueueInv(c, Wr)
    && (forall t | t in c.threads :: PcInv(c, c.threads[t]))
    && (c.past.removed || c.now.closed ==> AllCleared(c))
    && (c.now.closed ==> c.past.removed)
  }

  lemma AdvanceKeepsService(c: Client, t: Tid, cb: Callback)
    requires IoServices.Inv(c.now.io) && t in c.threads
    ensures IoServices.Inv(AdvanceThread(c, t, cb).now.io)
  {
    match c.threads[t]
    case AsyncSet(k) => StepKeeps(c.now.io, ESet(c.now.fd, k, Some(cb)));
    case ProcessSet(k) => StepKeeps(c.now.io, ESet(c.now.fd, k, None));
    case Remove(_) => StepKeeps(c.now.io, EUntrack(c.now.fd));
    case _ =>
  }

  /** History only grows, so what a program counter says stays true. */
  predicate Progress(c: Client, c': Client) {
    && (c'.now.connected ==> c.now.connected) && (c.now.closed ==> c'.now.closed)
    && c.past.cleared <= c'.past.cleared && (c.past.removed ==> c'.past.removed)
  }

  lemma PcsKept(c: Client, c': Client, t: Tid)
    requires forall u | u in c.threads :: PcInv(c, c.threads[u])
    requires Progress(c, c') && c'.threads - {t} == c.threads - {t}
    requires t in c'.threads ==> PcInv(c', c'.threads[t])
    ensures forall u | u in c'.threads :: PcInv(c', c'.threads[u])
  {
    forall u | u in c'.threads && u != t
      ensures PcInv(c', c'.threads[u])
    {
      assert u in c'.threads - {t} && (c'.threads - {t})[u] == (c.threads - {t})[u];
    }
  }

  /** A queue survives a step of `t` that neither takes its mutex nor fills it. */
  lemma QueueKept(c: Client, c': Client, k: Kind, t: Tid)
    requires QueueInv(c, k) && c'.threads - {t} == c.threads - {t} && Progress(c, c')
    requires t in c'.threads && Holds(c'.threads[t], k) ==> Free(c, k) || (t in c.threads && Holds(c.threads[t], k))
    requires t in c'.threads && Holds(c'.threads[t], k) ==> k !in c'.past.cleared
    requires k in c'.past.cleared && k !in c.past.cleared ==> !c'.now.connected && Queue(c'.now, k) == 0 && Free(c, k)
    requires k in c.past.cleared ==> Queue(c'.now, k) == 0
    ensures QueueInv(c', k)
  {
    forall u | u in c'.threads && u != t
      ensures u in c.threads && c'.threads[u] == c.threads[u]
    {
      assert u in c'.threads - {t} && (c'.threads - {t})[u] == (c.threads - {t})[u];
    }
  }

  /** What the step at `pc` does to everything but the service and the threads. */
  predicate Moved(c: Client, c': Client, pc: Pc, k: Kind) {
    && Progress(c, c')
    && c'.now.connected == (c.now.connected && !pc.Store?)
    && c'.past.cleared == (if pc.Clear? then c.past.cleared + {pc.k} else c.past.cleared)
    && c'.past.removed == (c.past.removed || (pc.Remove? && !c.now.closed))
    && c'.now.closed == (c.now.closed || pc.Close?)
    && (pc.Clear? && pc.k == k ==> Queue(c'.now, k) == 0)
    && (Queue(c'.now, k) != Queue(c.now, k) ==> Holds(pc, k) || Queue(c'.now, k) == 0)
  }

  lemma ThreadStep(c: Client, t: Tid, cb: Callback, k: Kind)
    requires t in c.threads
    ensures var c', pc := AdvanceThread(c, t, cb), c.threads[t];
            && Moved(c, c', pc, k) && c'.threads - {t} == c.threads - {t}
            && (t in c'.threads ==> NextPc(pc) == Some(c'.threads[t]))
  {
    hide SetCallback, Untrack;
  }

  lemma AdvanceKeepsQueue(c: Client, t: Tid, cb: Callback, k: Kind)
    requires ClientInv(c) && CanStep(c, Advance(t, cb))
    ensures QueueInv(AdvanceThread(c, t, cb), k)
  {
    ThreadStep(c, t, cb, k);
    hide AdvanceThread, IoServices.Inv;
    assert PcInv(c, c.threads[t]);
    QueueKept(c, AdvanceThread(c, t, cb), k, t);
  }

  lemma AdvanceKeepsPcs(c: Client, t: Tid, cb: Callback)
    requires ClientInv(c) && CanStep(c, Advance(t, cb))
    ensures var c' := AdvanceThread(c, t, cb);
            && (forall u | u in c'.threads :: PcInv(c', c'.threads[u]))
            && (c'.past.removed || c'.now.closed ==> AllCleared(c'))
            && (c'.now.closed ==> c'.past.removed)
  {
    ThreadStep(c, t, cb, Rd);
    hide AdvanceThread, IoServices.Inv, QueueInv;
    assert PcInv(c, c.threads[t]);
    PcsKept(c, AdvanceThread(c, t, cb), t);
  }

  lemma AdvanceKeepsClient(c: Client, t: Tid, cb: Callback)
    requires ClientInv(c) && CanStep(c, Advance(t, cb))
    ensures ClientInv(AdvanceThread(c, t, cb))
  {
    hide IoServices.Inv, QueueInv, PcInv, AdvanceThread;
    AdvanceKeepsService(c, t, cb);
    AdvanceKeepsQueue(c, t, cb, Rd);
    AdvanceKeepsQueue(c, t, cb, Wr);
    AdvanceKeepsPcs(c, t, cb);
  }

  lemma BeginKeeps(c: Client, a: Action)
    requires ClientInv(c) && CanStep(c, a) && (a.BeginAsync? || a.BeginProcess? || a.BeginDisconnect?)
    ensures ClientInv(Do(c, a))
  {
    hide IoServices.Inv;
    var c' := Do(c, a);
    assert c'.threads - {a.t} == c.threads - {a.t};
    PcsKept(c, c', a.t);
    QueueKept(c, c', Rd, a.t);
    QueueKept(c, c', Wr, a.t);
  }

  lemma EnvironmentKeeps(c: Client, e: Event)
    requires ClientInv(c) && CanStep(c, Environment(e))
    ensures ClientInv(Do(c, Environment(e)))
  {
    StepKeeps(c.now.io, e);
    hide IoServices.Inv;
    var c' := Do(c, Environment(e));
    forall t | t in c.threads
      ensures PcInv(c', c.threads[t])
    {
      assert PcInv(c, c.threads[t]);
    }
  }

  lemma RefuseKeeps(c: Client, wait: bool)
    requires ClientInv(c) && CanStep(c, Refuse(wait))
    ensures ClientInv(Do(c, Refuse(wait)))
  {
    hide IoServices.Inv;
    var c' := Do(c, Refuse(wait));
    forall t | t in c.threads
      ensures PcInv(c', c.threads[t])
    {
      assert PcInv(c, c.threads[t]);
    }
  }

  lemma DoKeeps(c: Client, a: Action)
    requires ClientInv(c) && CanStep(c, a)
    ensures ClientInv(Do(c, a))
  {
    hide ClientInv;
    match a
    case Advance(t, cb) => AdvanceKeepsClient(c, t, cb);
    case Environment(e) => EnvironmentKeeps(c, e);
    case Refuse(wait) => RefuseKeeps(c, wait);
    case _ => BeginKeeps(c, a);
  }

  lemma {:induction false} RunInv(run: seq<Client>, actions: seq<Action>, n: nat)
    requires IsRun(run, actions) && n < |run|
    ensures ClientInv(run[n])
  {
    if n > 0 {
      RunInv(run, actions, n - 1);
      DoKeeps(run[n - 1], actions[n - 1]);
    }
  }

  /**
    No re-creation: once a disconnect has untracked the socket, no step of any
    thread of the client touches a callback or adds an entry to the service.
   */
  lemma NoRecreation(run: seq<Client>, actions: seq<Action>, n: nat)
    requires IsRun(run, actions) && n < |actions| && run[n].past.removed
    ensures !actions[n].Environment? ==> run[n + 1].now.io.sockets.Keys <= run[n].now.io.sockets.Keys
    ensures !actions[n].BeginAsync? && !actions[n].BeginProcess?
    ensures run[n].now.readRequests == run[n].now.writeRequests == 0 && Free(run[n], Rd) && Free(run[n], Wr)
  {
    RunInv(run, actions, n);
  }

  // ----- the removal barrier -----

  /** Nothing left of the descriptor. */
  ghost predicate Quiet(c: Client) {
    c.now.fd !in c.now.io.sockets && InFlight(c.now.io, c.now.fd, Rd) == InFlight(c.now.io, c.now.fd, Wr) == 0
  }

  /**
    While at most one disconnect passed the check the socket is open while it waits;
    and a wait on the open socket is never undone.
   */
  ghost predicate SoleInv(c: Client) {
    && (c.past.checks <= 1 ==> forall t, u |
          t in c.threads && u in c.threads && Disconnecting(c.threads[t]) && Disconnecting(c.threads[u]) :: t == u)
    && (c.past.checks <= 1 && c.now.closed ==> forall t | t in c.threads :: !Disconnecting(c.threads[t]))
    && (c.past.checks == 0 ==> forall t | t in c.threads :: !Disconnecting(c.threads[t]))
    && (c.past.checks == 0 ==> c.now.connected && c.past.endings == {})
    && (c.now.closed ==> !c.now.connected)
    && (c.past.checks <= 1 ==> LateWait !in c.past.endings)
    && (OpenWait in c.past.endings ==> c.past.removed && c.now.fd !in c.now.io.sockets)
  }

  lemma EnvironmentAdds(c: Client, e: Event)
    requires IoServices.Inv(c.now.io) && Enabled(c.now.io, e) && !Names(e, c.now.fd) && c.now.fd !in c.now.io.sockets
    ensures c.now.fd !in Apply(c.now.io, e).sockets
  {
    match e
    case EPoll(polled, rdSet, wrSet) => ProcessAllKeeps(c.now.io, polled, rdSet, wrSet);
    case _ =>
  }

  lemma AdvanceKeepsSole(c: Client, t: Tid, cb: Callback)
    requires ClientInv(c) && SoleInv(c) && CanStep(c, Advance(t, cb))
    ensures SoleInv(AdvanceThread(c, t, cb))
  {
    hide IoServices.Inv;
    assert PcInv(c, c.threads[t]);
  }

  lemma DoKeepsSole(c: Client, a: Action)
    requires ClientInv(c) && SoleInv(c) && CanStep(c, a)
    ensures SoleInv(Do(c, a))
  {
    assert IoServices.Inv(c.now.io);
    hide IoServices.Inv, ClientInv, AdvanceThread;
    match a
    case Environment(e) => if c.now.fd !in c.now.io.sockets { EnvironmentAdds(c, e); }
    case Advance(t, cb) => AdvanceKeepsSole(c, t, cb);
    case _ =>
  }

  lemma {:induction false} RunSole(run: seq<Client>, actions: seq<Action>, n: nat)
    requires IsRun(run, actions) && n < |run|
    ensures SoleInv(run[n]) && run[n].now.fd == run[0].now.fd
  {
    if n > 0 {
      RunSole(run, actions, n - 1);
      RunInv(run, actions, n - 1);
      DoKeepsSole(run[n - 1], actions[n - 1]);
    }
  }

  /**
    Removal barrier: once a `disconnect(true)` has waited on the open socket, no
    callback of the client is in flight and none ever starts, whatever other
    disconnects there were or are. Every wait is of that sort unless two
    disconnects passed the check.
   */
  lemma RemovalBarrier(run: seq<Client>, actions: seq<Action>, n: nat)
    requires IsRun(run, actions) && n < |run|
    ensures OpenWait in run[n].past.endings ==> Quiet(run[n])
    ensures LateWait in run[n].past.endings ==> run[n].past.checks >= 2
    ensures run[n].past.endings != {} ==> run[n].past.checks >= 1
  {
    RunInv(run, actions, n);
    RunSole(run, actions, n);
    assert SocketInv(run[n].now.io, run[n].now.fd);
  }

  // ----- why the barrier needs a sole disconnect -----

  /** A run that ends in `last`. */
  ghost predicate Ends(run: seq<Client>, actions: seq<Action>, last: Client) {
    IsRun(run, actions) && run[|run| - 1] == last
  }

  lemma Extended(run: seq<Client>, actions: seq<Action>, last: Client, a: Action)
      returns (run': seq<Client>, actions': seq<Action>)
    requires Ends(run, actions, last) && CanStep(last, a)
    ensures Ends(run', actions', Do(last, a))
  {
    run', actions' := run + [Do(last, a)], actions + [a];
  }

  /** A client with no request left whose read callback is executing, with the given disconnecting threads. */
  function Racing(connected: bool, closed: bool, marked: bool, threads: map<Tid, Pc>, checks: nat,
                  cleared: set<Kind>, removed: bool): Client
  {
    var io := Io(map[0 := TrackedSocket(None, true, None, false, marked)], multiset{(0, Rd)});
    Client(Shared(io, 0, connected, 0, 0, closed), Past(checks, cleared, removed, {}), threads)
  }

  /** The client on its way there, with one thread inside a call. */
  function Reading(callback: Option<Callback>, executing: bool, requests: nat, threads: map<Tid, Pc>): Client {
    var tasks := if executing then multiset{(0, Rd)} else multiset{};
    Client(Shared(Io(map[0 := TrackedSocket(callback, executing, None, false, false)], tasks),
                  0, true, requests, 0, false), NO_PAST, threads)
  }

  lemma ReadRequested() returns (run: seq<Client>, actions: seq<Action>)
    ensures Ends(run, actions, Reading(Some(7), false, 1, map[]))
  {
    var c := Reading(None, false, 0, map[]);
    forall fd
      ensures SocketInv(c.now.io, fd)
    {}
    run, actions := [c], [];
    assert Ends(run, actions, c);
    hide Ends;
    assert Do(c, BeginAsync(1, Rd)) == Reading(None, false, 0, map[1 := AsyncSet(Rd)]);
    run, actions := Extended(run, actions, c, BeginAsync(1, Rd));
    var c1 := Reading(None, false, 0, map[1 := AsyncSet(Rd)]);
    assert Do(c1, Advance(1, 7)) == Reading(Some(7), false, 0, map[1 := AsyncPush(Rd)]);
    run, actions := Extended(run, actions, c1, Advance(1, 7));
    var c2 := Reading(Some(7), false, 0, map[1 := AsyncPush(Rd)]);
    assert Do(c2, Advance(1, 7)) == Reading(Some(7), false, 1, map[]);
    run, actions := Extended(run, actions, c2, Advance(1, 7));
  }

  /** The poller hands out the read callback. */
  lemma ReadPolled() returns (run: seq<Client>, actions: seq<Action>)
    ensures Ends(run, actions, Reading(Some(7), true, 1, map[]))
  {
    run, actions := ReadRequested();
    hide Ends;
    var c := Reading(Some(7), false, 1, map[]);
    var poll := Environment(EPoll([0], {0}, {}));
    assert Do(c, poll) == Reading(Some(7), true, 1, map[]) by {
      assert [0][..0] == [];
      assert ProcessAll(c.now.io, [0], {0}, {}) == ProcessFd(c.now.io, 0, {0}, {});
    }
    run, actions := Extended(run, actions, c, poll);
  }

  /** Every state below starts here: the callback has taken the only request and is still executing. */
  lemma CallbackRuns() returns (run: seq<Client>, actions: seq<Action>)
    ensures Ends(run, actions, Racing(true, false, false, map[], 0, {}, false))
  {
    run, actions := ReadPolled();
    hide Ends;
    var c := Reading(Some(7), true, 1, map[]);
    var c1 := Reading(Some(7), true, 0, map[3 := ProcessSet(Rd)]);
    assert Do(c, BeginProcess(3, Rd)) == c1;
    run, actions := Extended(run, actions, c, BeginProcess(3, Rd));
    assert Do(c1, Advance(3, 0)) == Racing(true, false, false, map[], 0, {}, false);
    run, actions := Extended(run, actions, c1, Advance(3, 0));
  }

  lemma BothCheck() returns (run: seq<Client>, actions: seq<Action>)
    ensures Ends(run, actions, Racing(true, false, false, map[1 := Store(true), 2 := Store(false)], 2, {}, false))
  {
    run, actions := CallbackRuns();
    hide Ends;
    var c := Racing(true, false, false, map[], 0, {}, false);
    run, actions := Extended(run, actions, c, BeginDisconnect(1, true));
    var c1 := Racing(true, false, false, map[1 := Store(true)], 1, {}, false);
    assert Do(c, BeginDisconnect(1, true)) == c1;
    run, actions := Extended(run, actions, c1, BeginDisconnect(2, false));
    assert Do(c1, BeginDisconnect(2, false)) ==
           Racing(true, false, false, map[1 := Store(true), 2 := Store(false)], 2, {}, false);
  }

  lemma FirstClears() returns (run: seq<Client>, actions: seq<Action>)
    ensures Ends(run, actions,
                 Racing(false, false, false, map[1 := Clear(Wr, true), 2 := Store(false)], 2, {Rd}, false))
  {
    run, actions := BothCheck();
    hide Ends;
    var c0 := Racing(true, false, false, map[1 := Store(true), 2 := Store(false)], 2, {}, false);
    var c1 := Racing(false, false, false, map[1 := Clear(Rd, true), 2 := Store(false)], 2, {}, false);
    assert Do(c0, Advance(1, 0)) == c1;
    run, actions := Extended(run, actions, c0, Advance(1, 0));
    assert Do(c1, Advance(1, 0))
        == Racing(false, false, false, map[1 := Clear(Wr, true), 2 := Store(false)], 2, {Rd}, false);
    run, actions := Extended(run, actions, c1, Advance(1, 0));
  }

  lemma FirstRemoves() returns (run: seq<Client>, actions: seq<Action>)
    ensures Ends(run, actions, Racing(false, false, true, map[1 := Await, 2 := Store(false)], 2, {Rd, Wr}, true))
  {
    run, actions := FirstClears();
    hide Ends;
    var c2 := Racing(false, false, false, map[1 := Clear(Wr, true), 2 := Store(false)], 2, {Rd}, false);
    var c3 := Racing(false, false, false, map[1 := Remove(true), 2 := Store(false)], 2, {Rd, Wr}, false);
    assert Do(c2, Advance(1, 0)) == c3;
    run, actions := Extended(run, actions, c2, Advance(1, 0));
    assert Do(c3, Advance(1, 0)) == Racing(false, false, true, map[1 := Await, 2 := Store(false)], 2, {Rd, Wr}, true);
    run, actions := Extended(run, actions, c3, Advance(1, 0));
  }

  lemma SecondClears() returns (run: seq<Client>, actions: seq<Action>)
    ensures Ends(run, actions, Racing(false, false, true, map[1 := Await, 2 := Remove(false)], 2, {Rd, Wr}, true))
  {
    run, actions := FirstRemoves();
    hide Ends;
    var c0 := Racing(false, false, true, map[1 := Await, 2 := Store(false)], 2, {Rd, Wr}, true);
    var c1 := c0.(threads := map[1 := Await, 2 := Clear(Rd, false)]);
    var c2 := c0.(threads := map[1 := Await, 2 := Clear(Wr, false)]);
    assert Do(c0, Advance(2, 0)) == c1;
    assert Do(c1, Advance(2, 0)) == c2;
    assert Do(c2, Advance(2, 0)) == c0.(threads := map[1 := Await, 2 := Remove(false)]);
    run, actions := Extended(run, actions, c0, Advance(2, 0));
    run, actions := Extended(run, actions, c1, Advance(2, 0));
    run, actions := Extended(run, actions, c2, Advance(2, 0));
  }

  lemma SecondCloses() returns (run: seq<Client>, actions: seq<Action>)
    ensures Ends(run, actions, Racing(false, true, true, map[1 := Await], 2, {Rd, Wr}, true))
  {
    run, actions := SecondClears();
    hide Ends;
    var c0 := Racing(false, false, true, map[1 := Await, 2 := Remove(false)], 2, {Rd, Wr}, true);
    var c1 := c0.(threads := map[1 := Await, 2 := Close]);
    assert Do(c0, Advance(2, 0)) == c1;
    assert Do(c1, Advance(2, 0)) == Racing(false, true, true, map[1 := Await], 2, {Rd, Wr}, true);
    run, actions := Extended(run, actions, c0, Advance(2, 0));
    run, actions := Extended(run, actions, c1, Advance(2, 0));
  }

  /**
    Two disconnects that both found the client connected: the second closes the
    socket, after which the first no longer recognises its descriptor and
    returns although the read callback is still executing.
   */
  lemma RacingDisconnects() returns (run: seq<Client>, actions: seq<Action>)
    ensures IsRun(run, actions)
    ensures var c := run[|run| - 1];
            c.past.checks == 2 && c.past.endings == {LateWait} && InFlight(c.now.io, c.now.fd, Rd) == 1
  {
    run, actions := SecondCloses();
    var c := Racing(false, true, true, map[1 := Await], 2, {Rd, Wr}, true);
    run, actions := Extended(run, actions, c, Advance(1, 0));
  }

  lemma OneDisconnects() returns (run: seq<Client>, actions: seq<Action>)
    ensures Ends(run, actions, Racing(false, false, false, map[1 := Clear(Wr, false)], 1, {Rd}, false))
  {
    run, actions := CallbackRuns();
    hide Ends;
    var c := Racing(true, false, false, map[], 0, {}, false);
    var c0 := Racing(true, false, false, map[1 := Store(false)], 1, {}, false);
    var c1 := Racing(false, false, false, map[1 := Clear(Rd, false)], 1, {}, false);
    assert Do(c, BeginDisconnect(1, false)) == c0;
    run, actions := Extended(run, actions, c, BeginDisconnect(1, false));
    assert Do(c0, Advance(1, 0)) == c1;
    run, actions := Extended(run, actions, c0, Advance(1, 0));
    assert Do(c1, Advance(1, 0)) == Racing(false, false, false, map[1 := Clear(Wr, false)], 1, {Rd}, false);
    run, actions := Extended(run, actions, c1, Advance(1, 0));
  }

  lemma OneIsOver() returns (run: seq<Client>, actions: seq<Action>)
    ensures Ends(run, actions, Racing(false, true, true, map[], 1, {Rd, Wr}, true))
  {
    run, actions := OneDisconnects();
    hide Ends;
    var c2 := Racing(false, false, false, map[1 := Clear(Wr, false)], 1, {Rd}, false);
    var c3 := Racing(false, false, false, map[1 := Remove(false)], 1, {Rd, Wr}, false);
    var c4 := Racing(false, false, true, map[1 := Close], 1, {Rd, Wr}, true);
    assert Do(c2, Advance(1, 0)) == c3;
    run, actions := Extended(run, actions, c2, Advance(1, 0));
    assert Do(c3, Advance(1, 0)) == c4;
    run, actions := Extended(run, actions, c3, Advance(1, 0));
    assert Do(c4, Advance(1, 0)) == Racing(false, true, true, map[], 1, {Rd, Wr}, true);
    run, actions := Extended(run, actions, c4, Advance(1, 0));
  }

  /**
    A read callback that disconnects after a failed read, and then an owner whose
    `disconnect(true)` finds the client down: it returns although that callback is
    still executing, and no thread is inside any call.
   */
  lemma RefusedDisconnect() returns (run: seq<Client>, actions: seq<Action>)
    ensures IsRun(run, actions)
    ensures var c := run[|run| - 1];
            && c.past.checks == 1 && c.past.endings == {Refusal} && c.threads == map[]
            && InFlight(c.now.io, c.now.fd, Rd) == 1
  {
    run, actions := OneIsOver();
    var c := Racing(false, true, true, map[], 1, {Rd, Wr}, true);
    run, actions := Extended(run, actions, c, Refuse(true));
  }

  /** In every state of every run after a return of one of these sorts the client is quiet. */
  ghost predicate BarrierBy(how: set<Ending>) {
    forall run: seq<Client>, actions: seq<Action>, n: nat
      | IsRun(run, actions) && n < |run| && run[n].past.endings * how != {} :: Quiet(run[n])
  }

  /** The same after any return, with so many disconnects past the check and, if asked for, one that has waited. */
  ghost predicate BarrierFor(passed: nat, waited: bool) {
    forall run: seq<Client>, actions: seq<Action>, n: nat
      | IsRun(run, actions) && n < |run| && run[n].past.endings != {} && run[n].past.checks <= passed
        && (waited ==> run[n].past.endings * {OpenWait, LateWait} != {}) :: Quiet(run[n])
  }

  lemma SortsOfEnding(how: set<Ending>)
    ensures how <= {OpenWait} <==> LateWait !in how && Refusal !in how
    ensures how <= {OpenWait} ==> forall s: set<Ending> | s * how != {} :: OpenWait in s
  {
    if LateWait !in how && Refusal !in how {
      forall e | e in how
        ensures e == OpenWait
      {
        match e
        case OpenWait =>
        case LateWait => assert false;
        case Refusal => assert false;
      }
    }
  }

  /**
    What a returned `disconnect(true)` is worth. By the way it returned: it is a
    barrier exactly when it waited on the open socket. By the number of calls: it
    is one exactly when no other disconnect passed the check and some call has waited.
   */
  lemma BarrierExact(how: set<Ending>, passed: nat, waited: bool)
    ensures BarrierBy(how) <==> how <= {OpenWait}
    ensures BarrierFor(passed, waited) <==> passed == 0 || (passed == 1 && waited)
  {
    var late, lateActions := RacingDisconnects();
    var m := |late| - 1;
    assert !Quiet(late[m]);
    assert LateWait in how ==> LateWait in late[m].past.endings * how;
    assert LateWait in late[m].past.endings * {OpenWait, LateWait};
    var refused, refusedActions := RefusedDisconnect();
    var n := |refused| - 1;
    assert !Quiet(refused[n]);
    assert Refusal in how ==> Refusal in refused[n].past.endings * how;
    hide IsRun, Quiet;
    forall run: seq<Client>, actions: seq<Action>, i: nat | IsRun(run, actions) && i < |run|
      ensures OpenWait in run[i].past.endings ==> Quiet(run[i])
      ensures LateWait in run[i].past.endings ==> run[i].past.checks >= 2
      ensures run[i].past.endings != {} ==> run[i].past.checks >= 1
    {
      RemovalBarrier(run, actions, i);
    }
    SortsOfEnding(how);
  }

  // ----- the client object -----

  /** How many steps a thread at `pc` still has before the last one of its call. */
  function Left(pc: Pc): nat {
    match pc
    case AsyncSet(_) => 1
    case AsyncPush(_) => 0
    case ProcessSet(_) => 0
    case Store(wait) => if wait then 5 else 4
    case Clear(k, wait) => (if k.Rd? then 3 else 2) + if wait then 1 else 0
    case Remove(wait) => if wait then 2 else 1
    case Await => 1
    case Close => 0
  }

  /** A call that runs from `pc` to its end with nothing in between. */
  function Complete(s: Shared, pc: Pc, cb: Callback): Shared
    decreases Left(pc)
  {
    match NextPc(pc)
    case None => Effect(s, pc, cb)
    case Some(next) => Complete(Effect(s, pc, cb), next, cb)
  }

  /** `n` consecutive steps of thread `t`, as long as its call lasts. */
  function Drive(c: Client, t: Tid, cb: Callback, n: nat): Client
    decreases n
  {
    if n == 0 || t !in c.threads then c else Drive(AdvanceThread(c, t, cb), t, cb, n - 1)
  }

  lemma LeftDrops(pc: Pc)
    ensures match NextPc(pc) case None => Left(pc) == 0 case Some(next) => Left(next) + 1 == Left(pc)
  {}

  /** Driving a thread to the end of its call is exactly what `Complete` says, and the thread is gone. */
  lemma {:induction false} DriveCompletes(c: Client, t: Tid, cb: Callback)
    requires t in c.threads
    ensures var c' := Drive(c, t, cb, Left(c.threads[t]) + 1);
            c'.now == Complete(c.now, c.threads[t], cb) && c'.threads == c.threads - {t}
    decreases Left(c.threads[t])
  {
    var pc, c', n := c.threads[t], AdvanceThread(c, t, cb), Left(c.threads[t]);
    LeftDrops(pc);
    hide Effect, Record, Left;
    assert Drive(c, t, cb, n + 1) == Drive(c', t, cb, n);
    match NextPc(pc)
    case None =>
      assert Drive(c', t, cb, 0) == c';
    case Some(next) =>
      DriveCompletes(c', t, cb);
  }

  class TcpClient {
    const ioService: IoService
    const fd: Fd
    var isConnected: bool
    var readRequests: nat
    var writeRequests: nat
    var closed: bool

    ghost function Now(): Shared
      reads this, ioService
    {
      Shared(ioService.State(), fd, isConnected, readRequests, writeRequests, closed)
    }

    ghost predicate Valid()
      reads this, ioService
    {
      && IoServices.Inv(ioService.State())
      && (closed ==> !isConnected && readRequests == 0 && writeRequests == 0)
    }

    /** A client whose connection has just been established. */
    constructor (ioService: IoService, fd: Fd)
      requires IoServices.Inv(ioService.State())
      modifies ioService
      ensures Valid() && this.ioService == ioService && this.fd == fd
      ensures Now() == Shared(Track(old(ioService.State()), fd, None, None), fd, true, 0, 0, false)
      ensures fd !in old(ioService.trackedSockets) ==> Initial(Client(Now(), NO_PAST, map[]))
    {
      this.ioService, this.fd := ioService, fd;
      isConnected, readRequests, writeRequests, closed := true, 0, 0, false;
      new;
      assert SocketInv(ioService.State(), fd);
      ioService.Track(fd, None, None);
    }

    /** `async_read` and `async_write`; a refusal is the exception thrown when disconnected. */
    method Async(k: Kind, cb: Callback) returns (accepted: bool)
      requires Valid()
      modifies this, ioService
      ensures Valid() && accepted == old(isConnected)
      ensures Now() == if accepted then Complete(old(Now()), AsyncSet(k), cb) else old(Now())
      ensures accepted ==>
                && readRequests == old(readRequests) + (if k == Rd then 1 else 0)
                && writeRequests == old(writeRequests) + (if k == Wr then 1 else 0)
                && fd in ioService.trackedSockets
                && (k == Rd ==> ioService.trackedSockets[fd].rdCallback == Some(cb))
                && (k == Wr ==> ioService.trackedSockets[fd].wrCallback == Some(cb))
    {
      hide IoServices.Inv;
      if !isConnected { return false; }
      ghost var s := Effect(Now(), AsyncSet(k), cb);
      ioService.SetCallback(fd, k, Some(cb));
      assert Now() == s;
      if k == Rd { readRequests := readRequests + 1; } else { writeRequests := writeRequests + 1; }
      assert Now() == Complete(s, AsyncPush(k), cb);
      return true;
    }

    /** `process_read` and `process_write`: one request is taken; the callback is removed with the last one. */
    method Process(k: Kind) returns (taken: bool)
      requires Valid()
      modifies this, ioService
      ensures Valid() && taken == (Queue(old(Now()), k) > 0)
      ensures taken ==>
                var rest := Queue(old(Now()), k) - 1;
                var s := WithQueue(old(Now()), k, rest);
                Now() == if rest == 0 then Complete(s, ProcessSet(k), 0) else s
      ensures !taken ==> Now() == old(Now())
      ensures taken ==>
                && readRequests == old(readRequests) - (if k == Rd then 1 else 0)
                && writeRequests == old(writeRequests) - (if k == Wr then 1 else 0)
                && (k == Rd && readRequests == 0 ==>
                      fd in ioService.trackedSockets && ioService.trackedSockets[fd].rdCallback == None)
                && (k == Wr && writeRequests == 0 ==>
                      fd in ioService.trackedSockets && ioService.trackedSockets[fd].wrCallback == None)
    {
      hide IoServices.Inv;
      if (if k == Rd then readRequests else writeRequests) == 0 { return false; }
      if k == Rd { readRequests := readRequests - 1; } else { writeRequests := writeRequests - 1; }
      if (if k == Rd then readRequests else writeRequests) == 0 {
        ioService.SetCallback(fd, k, None);
      }
      return true;
    }

    /**
      `disconnect`. While it waits, the callbacks in flight end, the one of kind
      `first` before the other; a client that is down already is left alone.
     */
    method Disconnect(wait: bool, first: Kind)
      requires Valid()
      modifies this, ioService
      ensures Valid() && !isConnected
      ensures !old(isConnected) ==> Now() == old(Now())
      ensures old(isConnected) ==> Now() == Disconnected(old(Now()), wait, first)
      ensures old(isConnected) ==> closed && readRequests == 0 && writeRequests == 0
      ensures old(isConnected) && !wait ==> ioService.State() == Untrack(old(ioService.State()), fd)
      ensures old(isConnected) && wait ==>
                && fd !in ioService.trackedSockets
                && InFlight(ioService.State(), fd, Rd) == InFlight(ioService.State(), fd, Wr) == 0
    {
      if !isConnected { return; }
      ghost var s := Now();
      UntrackCompletes(ioService.State(), fd, first);
      hide IoServices.Inv;
      isConnected := false;
      readRequests := 0;
      writeRequests := 0;
      ioService.Untrack(fd);
      DisconnectUnfolds(s, Now(), wait, first);
      if wait {
        AwaitRemoval(first);
        var _ := ioService.Removed(fd);
      }
      closed := true;
    }

    /** `wait_for_removal`: the workers end the callbacks of this descriptor that are in flight. */
    method AwaitRemoval(first: Kind)
      requires IoServices.Inv(ioService.State())
      modifies ioService
      ensures IoServices.Inv(ioService.State()) && ioService.State() == Ended(old(ioService.State()), fd, first)
    {
      hide IoServices.Inv, FinishIfAny;
      EndCallback(first);
      EndCallback(Other(first));
    }

    method EndCallback(k: Kind)
      requires IoServices.Inv(ioService.State())
      modifies ioService
      ensures IoServices.Inv(ioService.State())
      ensures ioService.State() == FinishIfAny(old(ioService.State()), fd, k)
    {
      hide IoServices.Inv, IoServices.Finish;
      if (fd, k) in ioService.callbackWorkers { ioService.FinishTask(fd, k); }
    }
  }

  /** The service once the callbacks of `fd` in flight have ended. */
  function Ended(io: Io, fd: Fd, first: Kind): Io {
    FinishIfAny(FinishIfAny(io, fd, first), fd, Other(first))
  }

  /** A disconnect of a connected client: its steps up to the wait, the wait, and its steps after it. */
  function Disconnected(s: Shared, wait: bool, first: Kind): Shared {
    if !wait then Complete(s, Store(false), 0)
    else
      var removed := Effect(Effect(Effect(Effect(s, Store(true), 0), Clear(Rd, true), 0), Clear(Wr, true), 0),
                            Remove(true), 0);
      Complete(removed.(io := Ended(removed.io, s.fd, first)), Await, 0)
  }

  /** The steps of a disconnect on an open client, merged. */
  lemma DisconnectUnfolds(s: Shared, untracked: Shared, wait: bool, first: Kind)
    requires !s.closed && untracked == Shared(Untrack(s.io, s.fd), s.fd, false, 0, 0, false)
    ensures Disconnected(s, wait, first)
            == untracked.(io := if wait then Ended(untracked.io, s.fd, first) else untracked.io, closed := true)
  {
    hide Untrack, Ended;
    var s2 := s.(connected := false, readRequests := 0);
    var s3 := s2.(writeRequests := 0);
    if !wait {
      assert Complete(s, Store(wait), 0) == Complete(s2, Clear(Wr, wait), 0) by {
        assert Complete(s, Store(wait), 0) == Complete(s.(connected := false), Clear(Rd, wait), 0);
      }
      assert Complete(s2, Clear(Wr, wait), 0) == Complete(s3, Remove(wait), 0);
      assert Complete(s3, Remove(wait), 0) == Complete(untracked, Close, 0);
    } else {
      assert Effect(s3, Remove(true), 0) == untracked;
      var u := untracked.(io := Ended(untracked.io, s.fd, first));
      assert Complete(u, Await, 0) == Complete(u, Close, 0);
    }
  }
}
