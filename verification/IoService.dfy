/**
  Socket tracking. Every function below is one critical section of
  `m_tracked_sockets_mtx`; a run is any interleaving of them.
 */
module IoServices {
  import opened Text

  type Fd = int
  type Callback = int
  datatype Kind = Rd | Wr

  datatype TrackedSocket = TrackedSocket(
    rdCallback: Option<Callback>, executingRd: bool,
    wrCallback: Option<Callback>, executingWr: bool,
    marked: bool)

  const UNTRACKED: TrackedSocket := TrackedSocket(None, false, None, false, false)

  /** `tasks` are the callbacks given to the workers whose closing section has not run yet. */
  datatype Io = Io(sockets: map<Fd, TrackedSocket>, tasks: multiset<(Fd, Kind)>)

  predicate Executing(s: TrackedSocket, k: Kind) { if k.Rd? then s.executingRd else s.executingWr }

  function SetExecuting(s: TrackedSocket, k: Kind, b: bool): TrackedSocket {
    if k.Rd? then s.(executingRd := b) else s.(executingWr := b)
  }

  function CallbackOf(s: TrackedSocket, k: Kind): Option<Callback> {
    if k.Rd? then s.rdCallback else s.wrCallback
  }

  predicate Idle(s: TrackedSocket) { !s.executingRd && !s.executingWr }

  /** `m_tracked_sockets[fd]`, which creates the entry when it is missing. */
  function EntryOf(io: Io, fd: Fd): TrackedSocket {
    if fd in io.sockets then io.sockets[fd] else UNTRACKED
  }

  function Track(io: Io, fd: Fd, rd: Option<Callback>, wr: Option<Callback>): Io {
    io.(sockets := io.sockets[fd := EntryOf(io, fd).(rdCallback := rd, wrCallback := wr, marked := false)])
  }

  function SetCallback(io: Io, fd: Fd, k: Kind, cb: Option<Callback>): Io {
    var s := EntryOf(io, fd);
    io.(sockets := io.sockets[fd := if k.Rd? then s.(rdCallback := cb) else s.(wrCallback := cb)])
  }

  function Untrack(io: Io, fd: Fd): Io {
    if fd !in io.sockets then io
    else if Idle(io.sockets[fd]) then io.(sockets := io.sockets - {fd})
    else io.(sockets := io.sockets[fd := io.sockets[fd].(marked := true)])
  }

  /** Hands the callback of a ready descriptor to the workers, unless one is already executing. */
  function Dispatch(io: Io, fd: Fd, k: Kind, ready: bool): Io {
    if fd in io.sockets && ready && CallbackOf(io.sockets[fd], k).Some? && !Executing(io.sockets[fd], k)
    then Io(io.sockets[fd := SetExecuting(io.sockets[fd], k, true)], io.tasks + multiset{(fd, k)})
    else io
  }

  function EraseIfMarked(io: Io, fd: Fd): Io {
    if fd in io.sockets && io.sockets[fd].marked && Idle(io.sockets[fd])
    then io.(sockets := io.sockets - {fd})
    else io
  }

  function ProcessFd(io: Io, fd: Fd, rdSet: set<Fd>, wrSet: set<Fd>): Io {
    EraseIfMarked(Dispatch(Dispatch(io, fd, Rd, fd in rdSet), fd, Wr, fd in wrSet), fd)
  }

  function ProcessAll(io: Io, polled: seq<Fd>, rdSet: set<Fd>, wrSet: set<Fd>): Io {
    if polled == [] then io
    else ProcessFd(ProcessAll(io, polled[..|polled| - 1], rdSet, wrSet), polled[|polled| - 1], rdSet, wrSet)
  }

  /** The section that closes a task once its callback has returned. */
  function Finish(io: Io, fd: Fd, k: Kind): Io {
    var done := io.(tasks := io.tasks - multiset{(fd, k)});
    if fd !in io.sockets then done
    else
      var s := SetExecuting(io.sockets[fd], k, false);
      done.(sockets := if s.marked && !Executing(s, Other(k)) then io.sockets - {fd} else io.sockets[fd := s])
  }

  function Other(k: Kind): Kind { if k.Rd? then Wr else Rd }

  datatype Event =
    | ETrack(fd: Fd, rd: Option<Callback>, wr: Option<Callback>)
    | ESet(fd: Fd, kind: Kind, callback: Option<Callback>)
    | EUntrack(fd: Fd)
    | EPoll(polled: seq<Fd>, rdSet: set<Fd>, wrSet: set<Fd>)
    | EFinish(fd: Fd, kind: Kind)

  /** Only a task that was handed out can be finished. */
  predicate Enabled(io: Io, e: Event) { e.EFinish? ==> (e.fd, e.kind) in io.tasks }

  function Apply(io: Io, e: Event): Io {
    match e
    case ETrack(fd, rd, wr) => Track(io, fd, rd, wr)
    case ESet(fd, k, cb) => SetCallback(io, fd, k, cb)
    case EUntrack(fd) => Untrack(io, fd)
    case EPoll(polled, rdSet, wrSet) => ProcessAll(io, polled, rdSet, wrSet)
    case EFinish(fd, k) => Finish(io, fd, k)
  }

  /** A run from the empty service, one critical section at a time. */
  ghost predicate IsRun(run: seq<Io>, events: seq<Event>) {
    && |run| == |events| + 1 && run[0] == Io(map[], multiset{})
    && forall i | 0 <= i < |events| :: Enabled(run[i], events[i]) && run[i + 1] == Apply(run[i], events[i])
  }

  // ----- invariant -----

  /** How many callbacks of this kind are in flight for `fd`. */
  function InFlight(io: Io, fd: Fd, k: Kind): nat { io.tasks[(fd, k)] }

  predicate KindInv(io: Io, fd: Fd, k: Kind) {
    InFlight(io, fd, k) == if fd in io.sockets && Executing(io.sockets[fd], k) then 1 else 0
  }

  predicate SocketInv(io: Io, fd: Fd) {
    && KindInv(io, fd, Rd) && KindInv(io, fd, Wr)
    && (fd in io.sockets && io.sockets[fd].marked ==> !Idle(io.sockets[fd]))
  }

  ghost predicate Inv(io: Io) { forall fd :: SocketInv(io, fd) }

  lemma DispatchKeeps(io: Io, fd: Fd, k: Kind, ready: bool)
    requires Inv(io)
    ensures Inv(Dispatch(io, fd, k, ready))
    ensures Dispatch(io, fd, k, ready).sockets.Keys == io.sockets.Keys
  {
    var io' := Dispatch(io, fd, k, ready);
    forall fd'
      ensures SocketInv(io', fd')
    {
      assert SocketInv(io, fd');
    }
  }

  /** The erasure in the poll loop never fires: a marked socket always has a callback in flight. */
  lemma ProcessFdKeeps(io: Io, fd: Fd, rdSet: set<Fd>, wrSet: set<Fd>)
    requires Inv(io)
    ensures Inv(ProcessFd(io, fd, rdSet, wrSet))
    ensures ProcessFd(io, fd, rdSet, wrSet).sockets.Keys == io.sockets.Keys
  {
    DispatchKeeps(io, fd, Rd, fd in rdSet);
    var io1 := Dispatch(io, fd, Rd, fd in rdSet);
    DispatchKeeps(io1, fd, Wr, fd in wrSet);
    assert SocketInv(Dispatch(io1, fd, Wr, fd in wrSet), fd);
  }

  lemma {:induction false} ProcessAllKeeps(io: Io, polled: seq<Fd>, rdSet: set<Fd>, wrSet: set<Fd>)
    requires Inv(io)
    ensures Inv(ProcessAll(io, polled, rdSet, wrSet))
    ensures ProcessAll(io, polled, rdSet, wrSet).sockets.Keys == io.sockets.Keys
  {
    if polled != [] {
      var n := |polled| - 1;
      ProcessAllKeeps(io, polled[..n], rdSet, wrSet);
      ProcessFdKeeps(ProcessAll(io, polled[..n], rdSet, wrSet), polled[n], rdSet, wrSet);
    }
  }

  /** A closing section always finds its socket still tracked. */
  lemma FinishFindsSocket(io: Io, fd: Fd, k: Kind)
    requires Inv(io) && (fd, k) in io.tasks
    ensures fd in io.sockets && Executing(io.sockets[fd], k) && InFlight(io, fd, k) == 1
  {
    assert SocketInv(io, fd);
    assert InFlight(io, fd, k) > 0;
  }

  lemma FinishKeeps(io: Io, fd: Fd, k: Kind)
    requires Inv(io) && (fd, k) in io.tasks
    ensures Inv(Finish(io, fd, k))
  {
    FinishFindsSocket(io, fd, k);
    var io' := Finish(io, fd, k);
    assert SocketInv(io, fd) && SocketInv(io', fd);
    forall fd' | fd' != fd
      ensures SocketInv(io', fd')
    {
      assert SocketInv(io, fd');
    }
  }

  lemma StepKeeps(io: Io, e: Event)
    requires Inv(io) && Enabled(io, e)
    ensures Inv(Apply(io, e))
  {
    match e
    case EPoll(polled, rdSet, wrSet) => ProcessAllKeeps(io, polled, rdSet, wrSet);
    case EFinish(fd, k) => FinishKeeps(io, fd, k);
    case _ =>
      forall fd
        ensures SocketInv(Apply(io, e), fd)
      {
        assert SocketInv(io, fd);
      }
  }

  lemma {:induction false} RunKeeps(run: seq<Io>, events: seq<Event>, n: nat)
    requires IsRun(run, events) && n < |run|
    ensures Inv(run[n])
  {
    if n == 0 {
      forall fd
        ensures SocketInv(run[0], fd)
      {}
    } else {
      RunKeeps(run, events, n - 1);
      StepKeeps(run[n - 1], events[n - 1]);
    }
  }

  /**
    One callback in flight: in every state of every run, `fd` has a read (write)
    task outstanding exactly when it is tracked with that callback executing, and
    never two of the same kind.
   */
  lemma OneCallbackInFlight(run: seq<Io>, events: seq<Event>, n: nat, fd: Fd, k: Kind)
    requires IsRun(run, events) && n < |run|
    ensures InFlight(run[n], fd, k) <= 1
    ensures InFlight(run[n], fd, k) == 1 <==> fd in run[n].sockets && Executing(run[n].sockets[fd], k)
    ensures fd in run[n].sockets && run[n].sockets[fd].marked ==>
              InFlight(run[n], fd, Rd) + InFlight(run[n], fd, Wr) >= 1
  {
    RunKeeps(run, events, n);
    assert SocketInv(run[n], fd);
  }

  /** Once a socket is not tracked, which is what `wait_for_removal` waits for, none of its callbacks is in flight. */
  lemma RemovedMeansQuiet(run: seq<Io>, events: seq<Event>, n: nat, fd: Fd)
    requires IsRun(run, events) && n < |run| && fd !in run[n].sockets
    ensures InFlight(run[n], fd, Rd) == InFlight(run[n], fd, Wr) == 0
  {
    RunKeeps(run, events, n);
    assert SocketInv(run[n], fd);
  }

  /** Ending a task of a marked socket erases it, unless the other callback is still in flight. */
  lemma FinishMarked(io: Io, fd: Fd, k: Kind)
    requires Inv(io) && (fd, k) in io.tasks && fd in io.sockets && io.sockets[fd].marked
    ensures Inv(Finish(io, fd, k)) && (fd, k) !in Finish(io, fd, k).tasks
    ensures fd in Finish(io, fd, k).sockets <==> (fd, Other(k)) in io.tasks
    ensures fd in Finish(io, fd, k).sockets ==> Finish(io, fd, k).sockets[fd].marked
    ensures (fd, Other(k)) in Finish(io, fd, k).tasks <==> (fd, Other(k)) in io.tasks
  {
    FinishFindsSocket(io, fd, k);
    FinishKeeps(io, fd, k);
    assert SocketInv(io, fd) && SocketInv(Finish(io, fd, k), fd);
    assert KindInv(io, fd, Other(k));
  }

  function FinishIfAny(io: Io, fd: Fd, k: Kind): Io {
    if (fd, k) in io.tasks then Finish(io, fd, k) else io
  }

  /** An untracked socket is gone as soon as the callbacks that were in flight have ended, in either order. */
  lemma UntrackCompletes(io: Io, fd: Fd, k: Kind)
    requires Inv(io)
    ensures fd !in FinishIfAny(FinishIfAny(Untrack(io, fd), fd, k), fd, Other(k)).sockets
  {
    var io1 := Untrack(io, fd);
    StepKeeps(io, EUntrack(fd));
    assert SocketInv(io1, fd);
    if (fd, k) in io1.tasks {
      FinishMarked(io1, fd, k);
    }
    var io2 := FinishIfAny(io1, fd, k);
    if (fd, Other(k)) in io2.tasks {
      assert SocketInv(io2, fd);
      FinishMarked(io2, fd, Other(k));
    }
  }

  /** Tracking again while the removal is pending cancels it: callbacks in flight end without erasing the socket. */
  lemma RetrackCancelsRemoval(io: Io, fd: Fd, rd: Option<Callback>, wr: Option<Callback>, k: Kind)
    requires Inv(io) && (fd, k) in io.tasks
    ensures fd in Finish(Track(Untrack(io, fd), fd, rd, wr), fd, k).sockets
    ensures !Executing(Finish(Track(Untrack(io, fd), fd, rd, wr), fd, k).sockets[fd], k)
  {
    FinishFindsSocket(io, fd, k);
  }

  // ----- what a poll pass hands out -----

  /** A callback of kind `k` is to be handed out: polled, ready for it, wanted, and not executing already. */
  predicate ToHandOut(io: Io, polled: seq<Fd>, rdSet: set<Fd>, wrSet: set<Fd>, fd: Fd, k: Kind) {
    && fd in polled && fd in io.sockets
    && match k
       case Rd => fd in rdSet && io.sockets[fd].rdCallback.Some? && !io.sockets[fd].executingRd
       case Wr => fd in wrSet && io.sockets[fd].wrCallback.Some? && !io.sockets[fd].executingWr
  }

  /** The pass hands out exactly those, sets exactly their flags, and changes nothing else. */
  ghost predicate HandsOut(io: Io, io': Io, polled: seq<Fd>, rdSet: set<Fd>, wrSet: set<Fd>, fd: Fd) {
    && (forall k ::
          io'.tasks[(fd, k)] == io.tasks[(fd, k)] + if ToHandOut(io, polled, rdSet, wrSet, fd, k) then 1 else 0)
    && (fd in io'.sockets <==> fd in io.sockets)
    && (fd in io.sockets ==>
          io'.sockets[fd] == TrackedSocket(
            io.sockets[fd].rdCallback, io.sockets[fd].executingRd || ToHandOut(io, polled, rdSet, wrSet, fd, Rd),
            io.sockets[fd].wrCallback, io.sockets[fd].executingWr || ToHandOut(io, polled, rdSet, wrSet, fd, Wr),
            io.sockets[fd].marked))
  }

  /** One callback of `fd` was handed out, or nothing about `fd` has changed. */
  ghost predicate Handed(io: Io, io': Io, fd: Fd, rd: bool, wr: bool) {
    && io'.tasks[(fd, Rd)] == io.tasks[(fd, Rd)] + (if rd then 1 else 0)
    && io'.tasks[(fd, Wr)] == io.tasks[(fd, Wr)] + (if wr then 1 else 0)
    && (fd in io'.sockets <==> fd in io.sockets)
    && (fd in io.sockets ==>
          io'.sockets[fd] == TrackedSocket(
            io.sockets[fd].rdCallback, io.sockets[fd].executingRd || rd,
            io.sockets[fd].wrCallback, io.sockets[fd].executingWr || wr, io.sockets[fd].marked))
  }

  lemma DispatchHands(io: Io, polled: Fd, k: Kind, ready: bool, fd: Fd)
    ensures var hands := fd == polled && ready && fd in io.sockets && CallbackOf(io.sockets[fd], k).Some?
                         && !Executing(io.sockets[fd], k);
            Handed(io, Dispatch(io, polled, k, ready), fd, hands && k == Rd, hands && k == Wr)
  {}

  lemma ProcessFdHandsOut(io: Io, polled: Fd, rdSet: set<Fd>, wrSet: set<Fd>, fd: Fd)
    requires Inv(io)
    ensures HandsOut(io, ProcessFd(io, polled, rdSet, wrSet), [polled], rdSet, wrSet, fd)
  {
    var io1 := Dispatch(io, polled, Rd, polled in rdSet);
    var io2 := Dispatch(io1, polled, Wr, polled in wrSet);
    NotErased(io, polled, rdSet, wrSet);
    DispatchHands(io, polled, Rd, polled in rdSet, fd);
    DispatchHands(io1, polled, Wr, polled in wrSet, fd);
    hide Inv, ProcessFd, Dispatch;
    assert fd in [polled] <==> fd == polled;
    BothKinds(io, io2, [polled], rdSet, wrSet, fd);
  }

  lemma NotErased(io: Io, polled: Fd, rdSet: set<Fd>, wrSet: set<Fd>)
    requires Inv(io)
    ensures ProcessFd(io, polled, rdSet, wrSet)
            == Dispatch(Dispatch(io, polled, Rd, polled in rdSet), polled, Wr, polled in wrSet)
  {
    DispatchKeeps(io, polled, Rd, polled in rdSet);
    var io1 := Dispatch(io, polled, Rd, polled in rdSet);
    DispatchKeeps(io1, polled, Wr, polled in wrSet);
    assert SocketInv(Dispatch(io1, polled, Wr, polled in wrSet), polled);
  }

  lemma BothKinds(io: Io, io': Io, polled: seq<Fd>, rdSet: set<Fd>, wrSet: set<Fd>, fd: Fd)
    requires Handed(io, io', fd, ToHandOut(io, polled, rdSet, wrSet, fd, Rd),
                    ToHandOut(io, polled, rdSet, wrSet, fd, Wr))
    ensures HandsOut(io, io', polled, rdSet, wrSet, fd)
  {
    forall k: Kind
      ensures io'.tasks[(fd, k)] == io.tasks[(fd, k)] + if ToHandOut(io, polled, rdSet, wrSet, fd, k) then 1 else 0
    {
      match k
      case Rd =>
      case Wr =>
    }
  }

  /**
    A poll pass hands out a read callback exactly for the polled descriptors that are
    ready for reading, have one, and are not executing it, and a write callback
    exactly for those ready for writing; nothing else changes.
   */
  lemma {:induction false} PollHandsOut(io: Io, polled: seq<Fd>, rdSet: set<Fd>, wrSet: set<Fd>, fd: Fd)
    requires Inv(io)
    ensures HandsOut(io, ProcessAll(io, polled, rdSet, wrSet), polled, rdSet, wrSet, fd)
  {
    if polled != [] {
      var n := |polled| - 1;
      var mid := ProcessAll(io, polled[..n], rdSet, wrSet);
      PollHandsOut(io, polled[..n], rdSet, wrSet, fd);
      ProcessAllKeeps(io, polled[..n], rdSet, wrSet);
      ProcessFdHandsOut(mid, polled[n], rdSet, wrSet, fd);
      assert fd in polled <==> fd in polled[..n] || fd == polled[n];
      hide Inv, ProcessFd;
      HandsOutThrough(io, mid, ProcessAll(io, polled, rdSet, wrSet), polled[..n], polled[n], polled, rdSet, wrSet, fd);
    }
  }

  lemma HandsOutThrough(io: Io, mid: Io, io': Io, some: seq<Fd>, last: Fd, all: seq<Fd>, rdSet: set<Fd>,
                        wrSet: set<Fd>, fd: Fd)
    requires HandsOut(io, mid, some, rdSet, wrSet, fd) && HandsOut(mid, io', [last], rdSet, wrSet, fd)
    requires fd in all <==> fd in some || fd == last
    ensures HandsOut(io, io', all, rdSet, wrSet, fd)
  {}

  // ----- the service object -----

  class IoService {
    var trackedSockets: map<Fd, TrackedSocket>
    var callbackWorkers: multiset<(Fd, Kind)>

    ghost function State(): Io
      reads this
    {
      Io(trackedSockets, callbackWorkers)
    }

    constructor ()
      ensures State() == Io(map[], multiset{}) && Inv(State())
    {
      trackedSockets, callbackWorkers := map[], multiset{};
    }

    method Track(fd: Fd, rd: Option<Callback>, wr: Option<Callback>)
      requires Inv(State())
      modifies this
      ensures Inv(State()) && State() == Apply(old(State()), ETrack(fd, rd, wr))
      ensures var s := old(EntryOf(State(), fd));
              trackedSockets == old(trackedSockets)[fd := TrackedSocket(rd, s.executingRd, wr, s.executingWr, false)]
      ensures callbackWorkers == old(callbackWorkers)
    {
      StepKeeps(State(), ETrack(fd, rd, wr));
      if fd !in trackedSockets { trackedSockets := trackedSockets[fd := UNTRACKED]; }
      trackedSockets := trackedSockets[fd := trackedSockets[fd].(rdCallback := rd)];
      trackedSockets := trackedSockets[fd := trackedSockets[fd].(wrCallback := wr)];
      trackedSockets := trackedSockets[fd := trackedSockets[fd].(marked := false)];
      assert State() == Apply(old(State()), ETrack(fd, rd, wr));
    }

    method SetCallback(fd: Fd, k: Kind, cb: Option<Callback>)
      requires Inv(State())
      modifies this
      ensures Inv(State()) && State() == Apply(old(State()), ESet(fd, k, cb))
      ensures var s := old(EntryOf(State(), fd));
              var rd, wr := if k == Rd then cb else s.rdCallback, if k == Wr then cb else s.wrCallback;
              trackedSockets
              == old(trackedSockets)[fd := TrackedSocket(rd, s.executingRd, wr, s.executingWr, s.marked)]
      ensures callbackWorkers == old(callbackWorkers)
    {
      StepKeeps(State(), ESet(fd, k, cb));
      if fd !in trackedSockets { trackedSockets := trackedSockets[fd := UNTRACKED]; }
      if k == Rd {
        trackedSockets := trackedSockets[fd := trackedSockets[fd].(rdCallback := cb)];
      } else {
        trackedSockets := trackedSockets[fd := trackedSockets[fd].(wrCallback := cb)];
      }
      assert State() == Apply(old(State()), ESet(fd, k, cb));
    }

    method Untrack(fd: Fd)
      requires Inv(State())
      modifies this
      ensures Inv(State()) && State() == Apply(old(State()), EUntrack(fd))
      ensures trackedSockets ==
              if fd !in old(trackedSockets) then old(trackedSockets)
              else if old(trackedSockets[fd].executingRd || trackedSockets[fd].executingWr)
              then old(trackedSockets)[fd := old(trackedSockets[fd]).(marked := true)]
              else old(trackedSockets) - {fd}
      ensures callbackWorkers == old(callbackWorkers)
    {
      StepKeeps(State(), EUntrack(fd));
      if fd !in trackedSockets { return; }
      if trackedSockets[fd].executingRd || trackedSockets[fd].executingWr {
        trackedSockets := trackedSockets[fd := trackedSockets[fd].(marked := true)];
      } else {
        trackedSockets := trackedSockets - {fd};
      }
    }

    method ProcessEvent(fd: Fd, k: Kind)
      requires fd in trackedSockets && CallbackOf(trackedSockets[fd], k).Some? && !Executing(trackedSockets[fd], k)
      modifies this
      ensures State() == Dispatch(old(State()), fd, k, true)
    {
      trackedSockets := trackedSockets[fd := SetExecuting(trackedSockets[fd], k, true)];
      callbackWorkers := callbackWorkers + multiset{(fd, k)};
    }

    /** One pass over the polled descriptors. */
    method ProcessEvents(polled: seq<Fd>, rdSet: set<Fd>, wrSet: set<Fd>)
      requires Inv(State())
      modifies this
      ensures Inv(State()) && State() == Apply(old(State()), EPoll(polled, rdSet, wrSet))
      ensures forall fd :: HandsOut(old(State()), State(), polled, rdSet, wrSet, fd)
    {
      for i := 0 to |polled|
        invariant State() == ProcessAll(old(State()), polled[..i], rdSet, wrSet)
      {
        assert polled[..i + 1][..i] == polled[..i];
        ProcessPolled(polled[i], rdSet, wrSet);
      }
      assert polled[..|polled|] == polled;
      StepKeeps(old(State()), EPoll(polled, rdSet, wrSet));
      forall fd
        ensures HandsOut(old(State()), State(), polled, rdSet, wrSet, fd)
      {
        PollHandsOut(old(State()), polled, rdSet, wrSet, fd);
      }
    }

    method ProcessPolled(fd: Fd, rdSet: set<Fd>, wrSet: set<Fd>)
      modifies this
      ensures State() == ProcessFd(old(State()), fd, rdSet, wrSet)
    {
      if fd !in trackedSockets { return; }
      if fd in rdSet && trackedSockets[fd].rdCallback.Some? && !trackedSockets[fd].executingRd {
        ProcessEvent(fd, Rd);
      }
      assert State() == Dispatch(old(State()), fd, Rd, fd in rdSet);
      ghost var io1 := State();
      if fd in wrSet && trackedSockets[fd].wrCallback.Some? && !trackedSockets[fd].executingWr {
        ProcessEvent(fd, Wr);
      }
      assert State() == Dispatch(io1, fd, Wr, fd in wrSet);
      var s := trackedSockets[fd];
      if s.marked && !s.executingRd && !s.executingWr {
        trackedSockets := trackedSockets - {fd};
      }
    }

    /** The closing section of a task. */
    method FinishTask(fd: Fd, k: Kind)
      requires Inv(State()) && (fd, k) in callbackWorkers
      modifies this
      ensures Inv(State()) && State() == Apply(old(State()), EFinish(fd, k))
      ensures callbackWorkers == old(callbackWorkers) - multiset{(fd, k)} && fd in old(trackedSockets)
      ensures var s := old(trackedSockets[fd]);
              var idle := if k == Rd then s.(executingRd := false) else s.(executingWr := false);
              trackedSockets == if s.marked && !idle.executingRd && !idle.executingWr then old(trackedSockets) - {fd}
                                else old(trackedSockets)[fd := idle]
    {
      FinishFindsSocket(State(), fd, k);
      StepKeeps(State(), EFinish(fd, k));
      callbackWorkers := callbackWorkers - multiset{(fd, k)};
      if fd !in trackedSockets { return; }
      trackedSockets := trackedSockets[fd := SetExecuting(trackedSockets[fd], k, false)];
      var s := trackedSockets[fd];
      if s.marked && !Executing(s, Other(k)) {
        trackedSockets := trackedSockets - {fd};
      }
      assert State() == Apply(old(State()), EFinish(fd, k)) by {
        assert old(trackedSockets)[fd := s] - {fd} == old(trackedSockets) - {fd};
      }
    }

    /** The condition `wait_for_removal` waits for. */
    method Removed(fd: Fd) returns (removed: bool)
      requires Inv(State())
      ensures removed ==> InFlight(State(), fd, Rd) == InFlight(State(), fd, Wr) == 0
      ensures removed <==> fd !in trackedSockets
    {
      assert SocketInv(State(), fd);
      removed := fd !in trackedSockets;
    }
  }
}
