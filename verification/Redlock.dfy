/**
  The lock protocol: clients of one process that set, extend and delete one key
  on many databases of a Redis server. A step is one critical section of the
  process-wide mutex, a thread-local decision, or the passage of time.
 */
module Redlock {
  import opened Collections
  import opened Text

  type Client = int
  type Host = nat
  type Time = int

  /** `owner` stands for the client's distinct random value. */
  datatype Entry = Entry(owner: Client, expiry: Time)

  /** `validity` is each client's lock_validity_time_ in milliseconds. */
  datatype Config = Config(hosts: set<Host>, clients: set<Client>, validity: map<Client, int>)

  datatype Phase =
    | Idle
    /** Inside the acquisition loop, with the hosts still to be tried. */
    | Acquiring(start: Time, todo: set<Host>)
    /** The majority and validity checks passed; lock_status_ is not set yet. */
    | Granted(start: Time)
    /** The checks failed; everything is about to be released. */
    | Failing

  /** A KeepLock round that has extended the first `next` hosts of the list. */
  datatype Round = Round(start: Time, next: nat)

  /**
    `have` is have_lock_num_. `lease`, `backing` and `rounds` are history: until
    when the client may believe it holds the lock, the hosts that granted it,
    and the rounds that will renew it if they run to their end without a lock or
    unlock call of the same client in between.
   */
  datatype Local = Local(
    phase: Phase, have: seq<Host>, locked: bool, continued: bool,
    lease: Time, backing: set<Host>, rounds: map<nat, Round>)

  const FRESH: Local := Local(Idle, [], false, true, 0, {}, map[])

  datatype State = State(now: Time, store: map<Host, Entry>, clients: map<Client, Local>)

  function Initial(g: Config): State { State(0, map[], map c | c in g.clients :: FRESH) }

  predicate ValidConfig(g: Config) { g.validity.Keys == g.clients }

  /** The expiry sent to the server: the milliseconds, converted to a 32-bit int. */
  function Px(g: Config, c: Client): int
    requires c in g.validity
  {
    ToInt32(g.validity[c])
  }

  function HostSet(have: seq<Host>): set<Host> { set h | h in have }

  predicate Live(s: State, h: Host) { h in s.store && s.now < s.store[h].expiry }

  predicate Mine(s: State, c: Client, h: Host) { Live(s, h) && s.store[h].owner == c }

  function With(s: State, c: Client, l: Local): State { s.(clients := s.clients[c := l]) }

  // ----- the three operations on the store -----

  /** SET NX PX. A non-positive expiry is an error and has no effect. */
  function SetNx(g: Config, s: State, c: Client, h: Host): State
    requires c in g.validity
  {
    if Live(s, h) || Px(g, c) <= 0 then s
    else s.(store := s.store[h := Entry(c, s.now + Px(g, c))])
  }

  /** PEXPIRE of the client's own key; a non-positive expiry deletes it. */
  function Extend(g: Config, s: State, c: Client, h: Host): State
    requires c in g.validity
  {
    if !Live(s, h) then SetNx(g, s, c, h)
    else if s.store[h].owner != c then s
    else if Px(g, c) <= 0 then s.(store := s.store - {h})
    else s.(store := s.store[h := Entry(c, s.now + Px(g, c))])
  }

  /** The compare-and-deletes that were answered, on the hosts `released`. */
  function Release(s: State, c: Client, released: set<Host>): State {
    s.(store := map h | h in s.store && !(h in released && Mine(s, c, h)) :: s.store[h])
  }

  // ----- steps -----

  datatype Action =
    | Tick(elapsed: nat)
    | Start(c: Client, clear: bool)
    | TrySet(c: Client, h: Host)
    /** A SET that failed otherwise, once 50 ms have elapsed. */
    | GiveUp(c: Client, h: Host)
    | Decide(c: Client)
    | Grant(c: Client)
    /** A release that deletes only on `released`, because an error cut it short or hid a key from it. */
    | Unlock(c: Client, released: set<Host>)
    | KeepStart(c: Client, r: nat)
    | KeepExtend(c: Client, r: nat)
    | KeepEnd(c: Client, r: nat)
    /** Any other UpdateExpire of the client, such as a round overtaken by an unlock. */
    | Stray(c: Client, h: Host)

  const TIME_OUT_LIMIT: int := 50

  predicate Majority(g: Config, have: seq<Host>) { |have| >= |g.hosts| / 2 + 1 }

  /** The elapsed time is compared as an unsigned 64-bit number. */
  predicate InTime(g: Config, s: State, c: Client, start: Time)
    requires c in g.validity
  {
    s.now - start <= g.validity[c] % TWO_TO_64
  }

  predicate CanDo(g: Config, s: State, a: Action) {
    a.Tick? ||
    (&& a.c in s.clients && a.c in g.validity
     && var l := s.clients[a.c];
        match a
        case Start(_, _) => l.phase.Idle?
        case TrySet(c, h) => l.phase.Acquiring? && h in l.phase.todo && (Live(s, h) || Px(g, c) > 0)
        case GiveUp(_, h) => l.phase.Acquiring? && h in l.phase.todo && s.now - l.phase.start >= TIME_OUT_LIMIT
        case Decide(_) => l.phase.Acquiring? && l.phase.todo == {}
        case Grant(_) => l.phase.Granted?
        case Unlock(_, released) => (l.phase.Idle? || l.phase.Failing?) && released <= g.hosts
        case KeepStart(_, _) => l.phase.Idle? && l.continued && l.locked
        case KeepExtend(_, r) => r in l.rounds && l.rounds[r].next < |l.have|
        case KeepEnd(_, r) => r in l.rounds && l.rounds[r].next == |l.have|
        case Stray(_, h) => h in g.hosts)
  }

  function Max(a: int, b: int): int { if a < b then b else a }

  function Do(g: Config, s: State, a: Action): State
    requires CanDo(g, s, a)
  {
    if a.Tick? then s.(now := s.now + a.elapsed)
    else
      var l := s.clients[a.c];
      match a
      case Start(c, clear) =>
        With(s, c, l.(phase := Acquiring(s.now, g.hosts), have := if clear then [] else l.have, rounds := map[]))
      case TrySet(c, h) =>
        var l' := l.(phase := Acquiring(l.phase.start, l.phase.todo - {h}));
        With(SetNx(g, s, c, h), c, if Live(s, h) then l' else l'.(have := l.have + [h]))
      case GiveUp(c, h) => With(s, c, l.(phase := Acquiring(l.phase.start, l.phase.todo - {h})))
      case Decide(c) =>
        With(s, c, l.(phase := if Majority(g, l.have) && InTime(g, s, c, l.phase.start)
                               then Granted(l.phase.start) else Failing))
      case Grant(c) =>
        With(s, c, l.(phase := Idle, locked := true, continued := true,
                      lease := l.phase.start + g.validity[c], backing := HostSet(l.have), rounds := map[]))
      case Unlock(c, released) =>
        With(Release(s, c, released), c, l.(phase := Idle, locked := false, continued := false, rounds := map[]))
      case KeepStart(c, r) => With(s, c, l.(rounds := l.rounds[r := Round(s.now, 0)]))
      case KeepExtend(c, r) =>
        var h, round := l.have[l.rounds[r].next], l.rounds[r];
        var succeeded := Mine(s, c, h);
        With(Extend(g, s, c, h), c,
             if succeeded then l.(rounds := l.rounds[r := round.(next := round.next + 1)]) else l)
      case KeepEnd(c, r) =>
        With(s, c, l.(lease := Max(l.lease, l.rounds[r].start + g.validity[c]), rounds := l.rounds - {r}))
      case Stray(c, h) => Extend(g, s, c, h)
      case Tick(_) => s
  }

  /** The client's lock is set and its lease has not run out. */
  predicate Holds(s: State, c: Client) {
    c in s.clients && s.clients[c].locked && s.now < s.clients[c].lease
  }

  ghost predicate IsRun(g: Config, run: seq<State>, actions: seq<Action>) {
    && |run| == |actions| + 1 && run[0] == Initial(g)
    && forall i | 0 <= i < |actions| :: CanDo(g, run[i], actions[i]) && run[i + 1] == Do(g, run[i], actions[i])
  }

  /** Every acquisition starts from an empty list, as in Lock and TryLock(expire). */
  predicate CleanAt(s: State, a: Action) {
    a.Start? ==> a.clear || (a.c in s.clients && s.clients[a.c].have == [])
  }

  ghost predicate Clean(run: seq<State>, actions: seq<Action>) {
    |actions| <= |run| && forall i | 0 <= i < |actions| :: CleanAt(run[i], actions[i])
  }

  // ----- one step, whatever the history -----

  predicate StepOfClient(a: Action, c: Client) { !a.Tick? && a.c == c }

  /** Non-interference: no step of a client removes, overwrites or re-times a live key of another client. */
  lemma NonInterference(g: Config, s: State, a: Action, h: Host)
    requires CanDo(g, s, a) && Live(s, h)
    requires !StepOfClient(a, s.store[h].owner)
    ensures h in Do(g, s, a).store && Do(g, s, a).store[h] == s.store[h]
  {}

  lemma NowGrows(g: Config, s: State, a: Action)
    requires CanDo(g, s, a)
    ensures s.now <= Do(g, s, a).now
  {}

  lemma StepOf(g: Config, run: seq<State>, actions: seq<Action>, k: nat)
    requires IsRun(g, run, actions) && k < |actions|
    ensures CanDo(g, run[k], actions[k]) && run[k + 1] == Do(g, run[k], actions[k])
  {}

  /** Over a whole stretch of a run: a key stays as it is until it expires or its owner acts. */
  lemma {:induction false} KeyStays(g: Config, run: seq<State>, actions: seq<Action>, i: nat, j: nat, h: Host)
    requires IsRun(g, run, actions) && i <= j < |run| && Live(run[i], h)
    requires run[j].now < run[i].store[h].expiry
    requires forall k | i <= k < j :: !StepOfClient(actions[k], run[i].store[h].owner)
    ensures Live(run[j], h) && run[j].store[h] == run[i].store[h]
    decreases j
  {
    if i < j {
      StepOf(g, run, actions, j - 1);
      hide Do, CanDo, IsRun, StepOfClient;
      NowGrows(g, run[j - 1], actions[j - 1]);
      KeyStays(g, run, actions, i, j - 1, h);
      NonInterference(g, run[j - 1], actions[j - 1], h);
    }
  }

  /** The steps in which `c` sets, extends or deletes a key. */
  predicate Touches(a: Action, c: Client) {
    (a.TrySet? || a.KeepExtend? || a.Stray? || a.Unlock?) && a.c == c
  }

  /** Of the live keys of `c`, host `h` has in `s'` the one it had in `s`, if that was `kept` and has not expired. */
  predicate Leaves(s: State, s': State, c: Client, h: Host, kept: bool) {
    && s.now <= s'.now
    && (Mine(s', c, h) <==> kept && Mine(s, c, h) && s'.now < s.store[h].expiry)
    && (Mine(s', c, h) ==> s'.store[h] == s.store[h])
  }

  /**
    Release completeness, over a stretch of a run: from an unlock until the client
    touches a key again, a host holds a live key of the client exactly when the unlock did
    not reach it and the key it had has not expired.
   */
  lemma {:induction false} ReleaseComplete(g: Config, run: seq<State>, actions: seq<Action>, i: nat, j: nat,
                                           c: Client, released: set<Host>, h: Host)
    requires IsRun(g, run, actions) && i < j < |run| && actions[i] == Unlock(c, released)
    requires forall k | i < k < j :: !Touches(actions[k], c)
    ensures Leaves(run[i], run[j], c, h, h !in released)
    decreases j
  {
    StepOf(g, run, actions, j - 1);
    hide Do, CanDo, IsRun, Touches, Leaves;
    if j == i + 1 {
      UnlockLeaves(g, run[i], c, released, h);
    } else {
      ReleaseComplete(g, run, actions, i, j - 1, c, released, h);
      NoNewKey(g, run[j - 1], actions[j - 1], c, h);
      LeavesThrough(run[i], run[j - 1], run[j], c, h, h !in released);
    }
  }

  lemma UnlockLeaves(g: Config, s: State, c: Client, released: set<Host>, h: Host)
    requires CanDo(g, s, Unlock(c, released))
    ensures Leaves(s, Do(g, s, Unlock(c, released)), c, h, h !in released)
  {}

  /** A step that touches no key of `c` gives it none, and takes away only keys that expire. */
  lemma NoNewKey(g: Config, s: State, a: Action, c: Client, h: Host)
    requires CanDo(g, s, a) && !Touches(a, c)
    ensures Leaves(s, Do(g, s, a), c, h, true)
  {}

  lemma LeavesThrough(s: State, s1: State, s2: State, c: Client, h: Host, kept: bool)
    requires Leaves(s, s1, c, h, kept) && Leaves(s1, s2, c, h, true)
    ensures Leaves(s, s2, c, h, kept)
  {}

  // ----- invariant -----

  /** The validity reaches the server as it is. */
  predicate Exact(g: Config, c: Client)
    requires c in g.validity
  {
    0 < g.validity[c] <= INT32_MAX
  }

  /** Until time `until`, host `h` holds a key of `c` that does not expire before `until`. */
  predicate Backed(s: State, c: Client, h: Host, until: Time) {
    s.now < until ==> h in s.store && s.store[h].owner == c && until <= s.store[h].expiry
  }

  predicate PhaseInv(g: Config, s: State, c: Client)
    requires c in s.clients && c in g.validity
  {
    var l := s.clients[c];
    && NoDup(l.have)
    && (l.phase.Acquiring? ==> HostSet(l.have) !! l.phase.todo)
    && (l.phase.Acquiring? || l.phase.Granted? ==>
          forall h | h in l.have :: Backed(s, c, h, l.phase.start + g.validity[c]))
    && (l.phase.Granted? ==> Majority(g, l.have))
  }

  predicate LeaseInv(g: Config, s: State, c: Client)
    requires c in s.clients && c in g.validity
  {
    var l := s.clients[c];
    && (l.locked ==> l.backing <= g.hosts && |l.backing| >= |g.hosts| / 2 + 1)
    && (l.locked ==> forall h | h in l.backing :: Backed(s, c, h, l.lease))
    && (l.locked && l.phase.Idle? ==> l.backing == HostSet(l.have))
    && (forall r | r in l.rounds :: l.rounds[r].next <= |l.have|)
    && (forall r, i | r in l.rounds && 0 <= i < l.rounds[r].next ::
          Backed(s, c, l.have[i], l.rounds[r].start + g.validity[c]))
  }

  predicate BasicInv(g: Config, s: State, c: Client)
    requires c in s.clients && c in g.validity
  {
    var l := s.clients[c];
    && HostSet(l.have) <= g.hosts
    && (l.phase.Acquiring? ==> l.phase.todo <= g.hosts)
    && (l.phase.Granted? ==> l.have != [])
    && (l.locked ==> g.hosts != {})
    && (Px(g, c) <= 0 ==> l.have == [] && !l.locked && !l.phase.Granted?)
    && (l.locked ==> l.lease <= s.now + g.validity[c])
    && (l.phase.Acquiring? || l.phase.Granted? ==> l.phase.start <= s.now)
    && (forall r | r in l.rounds :: l.rounds[r].start <= s.now && l.locked && l.phase.Idle?)
  }

  predicate LocalInv(g: Config, s: State, c: Client)
    requires c in s.clients && c in g.validity
  {
    BasicInv(g, s, c) && (Exact(g, c) ==> PhaseInv(g, s, c) && LeaseInv(g, s, c))
  }

  predicate Inv(g: Config, s: State) {
    s.clients.Keys == g.clients == g.validity.Keys && forall c | c in s.clients :: LocalInv(g, s, c)
  }

  /** Backing survives every step but the client's own unlock. */
  lemma BackedKept(g: Config, s: State, a: Action, c: Client, h: Host, until: Time)
    requires CanDo(g, s, a) && c in g.validity && Exact(g, c)
    requires Backed(s, c, h, until) && until <= s.now + g.validity[c]
    requires !(a.Unlock? && a.c == c)
    ensures Backed(Do(g, s, a), c, h, until)
  {}

  /** A step that leaves the client's own variables alone keeps its invariant. */
  lemma UntouchedKept(g: Config, s: State, a: Action, c: Client)
    requires CanDo(g, s, a) && c in s.clients && c in g.validity && LocalInv(g, s, c)
    requires c in Do(g, s, a).clients && Do(g, s, a).clients[c] == s.clients[c]
    requires !(a.Unlock? && a.c == c)
    ensures LocalInv(g, Do(g, s, a), c)
  {
    var s' := Do(g, s, a);
    assert s.now <= s'.now;
    if Exact(g, c) {
      var l, v := s.clients[c], g.validity[c];
      forall h, until | Backed(s, c, h, until) && until <= s.now + v
        ensures Backed(s', c, h, until)
      {
        BackedKept(g, s, a, c, h, until);
      }
    }
  }

  // ----- the client's own steps -----

  /** Everything the client relies on besides its own variables. */
  lemma AllBackedKept(g: Config, s: State, a: Action, c: Client)
    requires CanDo(g, s, a) && c in g.validity && Exact(g, c) && !(a.Unlock? && a.c == c)
    ensures forall h, until | Backed(s, c, h, until) && until <= s.now + g.validity[c] ::
              Backed(Do(g, s, a), c, h, until)
    ensures s.now <= Do(g, s, a).now
  {
    forall h, until | Backed(s, c, h, until) && until <= s.now + g.validity[c]
      ensures Backed(Do(g, s, a), c, h, until)
    {
      BackedKept(g, s, a, c, h, until);
    }
  }

  lemma StartKept(g: Config, s: State, c: Client, clear: bool)
    requires CanDo(g, s, Start(c, clear)) && LocalInv(g, s, c) && CleanAt(s, Start(c, clear))
    ensures LocalInv(g, Do(g, s, Start(c, clear)), c)
  {
    if Exact(g, c) { AllBackedKept(g, s, Start(c, clear), c); }
    assert HostSet([]) == {};
  }

  lemma TrySetKept(g: Config, s: State, c: Client, h: Host)
    requires CanDo(g, s, TrySet(c, h)) && LocalInv(g, s, c)
    ensures LocalInv(g, Do(g, s, TrySet(c, h)), c)
  {
    var a, l := TrySet(c, h), s.clients[c];
    assert HostSet(l.have + [h]) == HostSet(l.have) + {h};
    if Exact(g, c) {
      AllBackedKept(g, s, a, c);
      assert !Live(s, h) ==> Backed(Do(g, s, a), c, h, l.phase.start + g.validity[c]);
      assert h !in HostSet(l.have) && forall i | 0 <= i < |l.have| :: l.have[i] in HostSet(l.have);
    }
  }

  lemma DecideKept(g: Config, s: State, c: Client)
    requires CanDo(g, s, Decide(c)) && LocalInv(g, s, c)
    ensures LocalInv(g, Do(g, s, Decide(c)), c)
  {
    if Exact(g, c) { AllBackedKept(g, s, Decide(c), c); }
  }

  lemma {:induction false} DistinctCount(have: seq<Host>)
    requires NoDup(have)
    ensures |HostSet(have)| == |have|
  {
    if have == [] {
      assert HostSet(have) == {};
    } else {
      var n := |have| - 1;
      DistinctCount(have[..n]);
      assert HostSet(have) == HostSet(have[..n]) + {have[n]};
      assert have[n] !in HostSet(have[..n]);
    }
  }

  lemma GrantKept(g: Config, s: State, c: Client)
    requires CanDo(g, s, Grant(c)) && LocalInv(g, s, c)
    ensures LocalInv(g, Do(g, s, Grant(c)), c)
  {
    assert s.clients[c].have != [] && s.clients[c].have[0] in HostSet(s.clients[c].have);
    if Exact(g, c) {
      AllBackedKept(g, s, Grant(c), c);
      DistinctCount(s.clients[c].have);
    }
  }

  lemma UnlockKept(g: Config, s: State, c: Client, released: set<Host>)
    requires CanDo(g, s, Unlock(c, released)) && LocalInv(g, s, c)
    ensures LocalInv(g, Do(g, s, Unlock(c, released)), c)
  {}

  lemma GiveUpKept(g: Config, s: State, c: Client, h: Host)
    requires CanDo(g, s, GiveUp(c, h)) && LocalInv(g, s, c)
    ensures LocalInv(g, Do(g, s, GiveUp(c, h)), c)
  {
    if Exact(g, c) { AllBackedKept(g, s, GiveUp(c, h), c); }
  }

  lemma KeepStartKept(g: Config, s: State, c: Client, r: nat)
    requires CanDo(g, s, KeepStart(c, r)) && LocalInv(g, s, c)
    ensures LocalInv(g, Do(g, s, KeepStart(c, r)), c)
  {
    if Exact(g, c) { AllBackedKept(g, s, KeepStart(c, r), c); }
  }

  lemma KeepExtendKept(g: Config, s: State, c: Client, r: nat)
    requires CanDo(g, s, KeepExtend(c, r)) && LocalInv(g, s, c)
    ensures LocalInv(g, Do(g, s, KeepExtend(c, r)), c)
  {
    var a, l := KeepExtend(c, r), s.clients[c];
    if Exact(g, c) {
      AllBackedKept(g, s, a, c);
      var h := l.have[l.rounds[r].next];
      assert Mine(s, c, h) ==> Backed(Do(g, s, a), c, h, l.rounds[r].start + g.validity[c]);
    }
  }

  /** A round that ran to its end has re-backed every host of the list. */
  lemma KeepEndKept(g: Config, s: State, c: Client, r: nat)
    requires CanDo(g, s, KeepEnd(c, r)) && LocalInv(g, s, c)
    ensures LocalInv(g, Do(g, s, KeepEnd(c, r)), c)
  {
    if Exact(g, c) {
      AllBackedKept(g, s, KeepEnd(c, r), c);
      var l := s.clients[c];
      forall h | h in l.backing
        ensures Backed(s, c, h, l.rounds[r].start + g.validity[c])
      {
        var i :| 0 <= i < |l.have| && l.have[i] == h;
      }
    }
  }

  lemma OwnStepKept(g: Config, s: State, a: Action)
    requires CanDo(g, s, a) && !a.Tick? && LocalInv(g, s, a.c) && CleanAt(s, a)
    ensures LocalInv(g, Do(g, s, a), a.c)
  {
    match a
    case Start(c, clear) => StartKept(g, s, c, clear);
    case TrySet(c, h) => TrySetKept(g, s, c, h);
    case GiveUp(c, h) => GiveUpKept(g, s, c, h);
    case Decide(c) => DecideKept(g, s, c);
    case Grant(c) => GrantKept(g, s, c);
    case Unlock(c, released) => UnlockKept(g, s, c, released);
    case KeepStart(c, r) => KeepStartKept(g, s, c, r);
    case KeepExtend(c, r) => KeepExtendKept(g, s, c, r);
    case KeepEnd(c, r) => KeepEndKept(g, s, c, r);
    case Stray(c, h) => UntouchedKept(g, s, a, c);
  }

  lemma StepClients(g: Config, s: State, a: Action)
    requires CanDo(g, s, a)
    ensures Do(g, s, a).clients.Keys == s.clients.Keys
    ensures forall c | c in s.clients && (a.Tick? || c != a.c) :: Do(g, s, a).clients[c] == s.clients[c]
  {}

  lemma StepKept(g: Config, s: State, a: Action)
    requires Inv(g, s) && CanDo(g, s, a) && CleanAt(s, a)
    ensures Inv(g, Do(g, s, a))
  {
    StepClients(g, s, a);
    hide LocalInv, Do, CanDo;
    forall c | c in s.clients
      ensures LocalInv(g, Do(g, s, a), c)
    {
      if !a.Tick? && c == a.c { OwnStepKept(g, s, a); } else { UntouchedKept(g, s, a, c); }
    }
  }

  lemma {:induction false} RunInv(g: Config, run: seq<State>, actions: seq<Action>, n: nat)
    requires ValidConfig(g) && IsRun(g, run, actions) && Clean(run, actions) && n < |run|
    ensures Inv(g, run[n])
  {
    if n > 0 {
      RunInv(g, run, actions, n - 1);
      StepKept(g, run[n - 1], actions[n - 1]);
    }
  }

  // ----- mutual exclusion -----

  /** Two majorities of the same hosts share a host. */
  lemma QuorumsMeet(hosts: set<Host>, a: set<Host>, b: set<Host>) returns (h: Host)
    requires a <= hosts && b <= hosts
    requires |a| >= |hosts| / 2 + 1 && |b| >= |hosts| / 2 + 1
    ensures h in a && h in b
  {
    CardinalityOfSubset(a + b, hosts);
    assert |a + b| + |a * b| == |a| + |b|;
    var x: Host :| x in a * b;
    h := x;
  }

  /** Whether a client can ever hold the lock: its keys live for some time, and so do its leases. */
  predicate CanHold(g: Config, c: Client)
    requires c in g.validity
  {
    Px(g, c) > 0 && g.validity[c] > 0
  }

  lemma HoldersCanHold(g: Config, s: State, c: Client)
    requires Inv(g, s) && Holds(s, c)
    ensures CanHold(g, c)
  {
    assert LocalInv(g, s, c);
  }

  lemma ExclusiveIn(g: Config, s: State, c: Client, d: Client)
    requires Inv(g, s) && Holds(s, c) && Holds(s, d) && Exact(g, c) && Exact(g, d)
    ensures c == d
  {
    var a, b := s.clients[c].backing, s.clients[d].backing;
    assert LocalInv(g, s, c) && LocalInv(g, s, d);
    var h := QuorumsMeet(g.hosts, a, b);
    assert Backed(s, c, h, s.clients[c].lease) && Backed(s, d, h, s.clients[d].lease);
  }

  /** In no state of any clean run do two clients hold the lock. */
  ghost predicate MutuallyExclusive(g: Config) {
    forall run: seq<State>, actions: seq<Action>, n: nat, c: Client, d: Client
      | IsRun(g, run, actions) && Clean(run, actions) && n < |run| && Holds(run[n], c) && Holds(run[n], d) :: c == d
  }

  /** No client that could hold the lock beside another has its expiry truncated on the way to the server. */
  predicate NoTruncation(g: Config)
    requires ValidConfig(g)
  {
    g.hosts == {} ||
    forall c, d | c in g.clients && d in g.clients && c != d && CanHold(g, c) && CanHold(g, d) ::
      g.validity[c] <= INT32_MAX
  }

  lemma HoldersHaveHosts(g: Config, s: State, c: Client)
    requires Inv(g, s) && Holds(s, c)
    ensures g.hosts != {} && c in g.clients
  {
    assert LocalInv(g, s, c);
  }

  // ----- a run on which a truncated expiry admits two holders -----

  /** A run that ends in `last`, clean if asked for. */
  ghost predicate Ends(g: Config, run: seq<State>, actions: seq<Action>, clean: bool, last: State) {
    IsRun(g, run, actions) && (clean ==> Clean(run, actions)) && run[|run| - 1] == last
  }

  lemma Extended(g: Config, run: seq<State>, actions: seq<Action>, clean: bool, s: State, a: Action)
      returns (run': seq<State>, actions': seq<Action>)
    requires Ends(g, run, actions, clean, s) && CanDo(g, s, a) && (clean ==> CleanAt(s, a))
    ensures Ends(g, run', actions', clean, Do(g, s, a))
  {
    run', actions' := run + [Do(g, s, a)], actions + [a];
  }

  /** Every key on the server has expired by `t`. */
  predicate ExpiredBy(s: State, t: Time) { forall h | h in s.store :: s.store[h].expiry <= t }

  /** The loop of an acquisition that meets no live key takes every host still to be tried. */
  lemma {:induction false} SetAll(g: Config, run: seq<State>, actions: seq<Action>, clean: bool, s: State, c: Client)
      returns (run': seq<State>, actions': seq<Action>, s': State)
    requires Ends(g, run, actions, clean, s) && c in s.clients && c in g.validity && Px(g, c) > 0
    requires s.clients[c].phase.Acquiring? && ExpiredBy(s, s.now + Px(g, c))
    requires forall h | h in s.clients[c].phase.todo :: !Live(s, h)
    ensures Ends(g, run', actions', clean, s')
    ensures s'.now == s.now && ExpiredBy(s', s.now + Px(g, c))
    ensures s'.clients.Keys == s.clients.Keys && forall d | d in s.clients && d != c :: s'.clients[d] == s.clients[d]
    ensures s'.clients[c].phase == Acquiring(s.clients[c].phase.start, {})
    ensures |s'.clients[c].have| == |s.clients[c].have| + |s.clients[c].phase.todo|
    ensures s'.clients[c].locked == s.clients[c].locked
    ensures forall h | h in s.clients[c].phase.todo || Live(s, h) :: Live(s', h)
    decreases |s.clients[c].phase.todo|
  {
    run', actions', s' := run, actions, s;
    if s.clients[c].phase.todo != {} {
      var h: Host :| h in s.clients[c].phase.todo;
      run', actions' := Extended(g, run, actions, clean, s, TrySet(c, h));
      var s1 := Do(g, s, TrySet(c, h));
      hide Ends;
      run', actions', s' := SetAll(g, run', actions', clean, s1, c);
    }
  }

  /** With no live key about, a client whose keys live for some time gets the lock at once. */
  lemma AcquireAll(g: Config, run: seq<State>, actions: seq<Action>, clean: bool, s: State, c: Client)
      returns (run': seq<State>, actions': seq<Action>, s': State)
    requires Ends(g, run, actions, clean, s) && c in s.clients && c in g.validity && Px(g, c) > 0 && g.hosts != {}
    requires s.clients[c].phase.Idle? && ExpiredBy(s, s.now)
    ensures Ends(g, run', actions', clean, s')
    ensures s'.now == s.now && ExpiredBy(s', s.now + Px(g, c))
    ensures s'.clients.Keys == s.clients.Keys && forall d | d in s.clients && d != c :: s'.clients[d] == s.clients[d]
    ensures s'.clients[c].locked && s'.clients[c].lease == s.now + g.validity[c]
    ensures forall h | h in g.hosts :: Live(s', h)
  {
    run', actions' := Extended(g, run, actions, clean, s, Start(c, true));
    var s1 := Do(g, s, Start(c, true));
    hide Ends;
    var s2;
    run', actions', s2 := SetAll(g, run', actions', clean, s1, c);
    assert |g.hosts| >= 1;
    run', actions' := Extended(g, run', actions', clean, s2, Decide(c));
    var s3 := Do(g, s2, Decide(c));
    run', actions' := Extended(g, run', actions', clean, s3, Grant(c));
    s' := Do(g, s3, Grant(c));
  }

  lemma FreshRun(g: Config, clean: bool) returns (run: seq<State>, actions: seq<Action>)
    ensures Ends(g, run, actions, clean, Initial(g))
  {
    run, actions := [Initial(g)], [];
  }

  lemma TruncationBreaks(g: Config, c: Client, d: Client)
    requires ValidConfig(g) && g.hosts != {} && c in g.clients && d in g.clients && c != d
    requires CanHold(g, c) && CanHold(g, d) && g.validity[c] > INT32_MAX
    ensures !MutuallyExclusive(g)
  {
    var run, actions := FreshRun(g, true);
    var s1, s3;
    run, actions, s1 := AcquireAll(g, run, actions, true, Initial(g), c);
    var wait := Tick(Px(g, c));
    run, actions := Extended(g, run, actions, true, s1, wait);
    var s2 := Do(g, s1, wait);
    run, actions, s3 := AcquireAll(g, run, actions, true, s2, d);
    assert Px(g, c) < g.validity[c];
    assert Holds(run[|run| - 1], c) && Holds(run[|run| - 1], d);
  }

  /** Two clients and three hosts; the first asks for 2^32 + 1 milliseconds, of which the server sees one. */
  lemma TruncationExample()
    ensures var g := Config({0, 1, 2}, {1, 2}, map[1 := TWO_TO_32 + 1, 2 := 30000]);
            ValidConfig(g) && Px(g, 1) == 1 && !MutuallyExclusive(g)
  {
    var g := Config({0, 1, 2}, {1, 2}, map[1 := TWO_TO_32 + 1, 2 := 30000]);
    TruncationBreaks(g, 1, 2);
  }

  /**
    Mutual exclusion: over every clean run at most one client holds an unexpired
    lease, exactly when no expiry is truncated on the way to the server.
   */
  lemma MutualExclusion(g: Config)
    requires ValidConfig(g)
    ensures MutuallyExclusive(g) <==> NoTruncation(g)
  {
    if NoTruncation(g) {
      forall run: seq<State>, actions: seq<Action>, n: nat, c: Client, d: Client
        | IsRun(g, run, actions) && Clean(run, actions) && n < |run| && Holds(run[n], c) && Holds(run[n], d)
        ensures c == d
      {
        RunInv(g, run, actions, n);
        ExclusiveUnlessTruncated(g, run[n], c, d);
      }
    } else {
      var c, d :| c in g.clients && d in g.clients && c != d && CanHold(g, c) && CanHold(g, d)
                  && g.validity[c] > INT32_MAX;
      TruncationBreaks(g, c, d);
    }
  }

  lemma ExclusiveUnlessTruncated(g: Config, s: State, c: Client, d: Client)
    requires ValidConfig(g) && NoTruncation(g) && Inv(g, s) && Holds(s, c) && Holds(s, d)
    ensures c == d
  {
    HoldersCanHold(g, s, c);
    HoldersCanHold(g, s, d);
    HoldersHaveHosts(g, s, c);
    HoldersHaveHosts(g, s, d);
    if c != d {
      ExclusiveIn(g, s, c, d);
    }
  }

  // ----- acquisitions that keep a stale list, as TryLock() without a timeout does -----

  /** In no state of any run at all do two clients hold the lock. */
  ghost predicate AlwaysExclusive(g: Config) {
    forall run: seq<State>, actions: seq<Action>, n: nat, c: Client, d: Client
      | IsRun(g, run, actions) && n < |run| && Holds(run[n], c) && Holds(run[n], d) :: c == d
  }

  predicate SoleContender(g: Config)
    requires ValidConfig(g)
  {
    g.hosts == {} || forall c, d | c in g.clients && d in g.clients && CanHold(g, c) && CanHold(g, d) :: c == d
  }

  lemma BasicKept(g: Config, s: State, a: Action, c: Client)
    requires CanDo(g, s, a) && c in s.clients && c in g.validity && BasicInv(g, s, c)
    ensures c in Do(g, s, a).clients && BasicInv(g, Do(g, s, a), c)
  {
    if a.Tick? || c != a.c {
      StepClients(g, s, a);
      NowGrows(g, s, a);
    } else {
      var l := s.clients[c];
      if a.TrySet? { assert HostSet(l.have + [a.h]) == HostSet(l.have) + {a.h}; }
      if a.Grant? { assert l.have[0] in HostSet(l.have); }
      if a.Start? { assert HostSet([]) == {}; }
    }
  }

  lemma {:induction false} RunBasic(g: Config, run: seq<State>, actions: seq<Action>, n: nat, c: Client)
    requires ValidConfig(g) && IsRun(g, run, actions) && n < |run| && c in g.clients
    ensures c in run[n].clients && BasicInv(g, run[n], c)
  {
    if n > 0 {
      RunBasic(g, run, actions, n - 1, c);
      BasicKept(g, run[n - 1], actions[n - 1], c);
    }
  }

  /** An acquisition loop that meets only live keys leaves the list as it was. */
  lemma {:induction false} SkipAll(g: Config, run: seq<State>, actions: seq<Action>, s: State, c: Client)
      returns (run': seq<State>, actions': seq<Action>, s': State)
    requires Ends(g, run, actions, false, s) && c in s.clients && c in g.validity
    requires s.clients[c].phase.Acquiring?
    requires forall h | h in s.clients[c].phase.todo :: Live(s, h)
    ensures Ends(g, run', actions', false, s')
    ensures s' == With(s, c, s.clients[c].(phase := Acquiring(s.clients[c].phase.start, {})))
    decreases |s.clients[c].phase.todo|
  {
    run', actions', s' := run, actions, s;
    if s.clients[c].phase.todo != {} {
      var h: Host :| h in s.clients[c].phase.todo;
      run', actions' := Extended(g, run, actions, false, s, TrySet(c, h));
      var s1 := Do(g, s, TrySet(c, h));
      hide Ends;
      run', actions', s' := SkipAll(g, run', actions', s1, c);
    }
  }

  /** A client that took every host too slowly has let go of them all, but not of its list. */
  lemma TooSlow(g: Config, d: Client) returns (run: seq<State>, actions: seq<Action>, s: State)
    requires ValidConfig(g) && g.hosts != {} && d in g.clients && CanHold(g, d)
    ensures Ends(g, run, actions, false, s) && s.clients.Keys == g.clients && ExpiredBy(s, s.now)
    ensures forall c | c in g.clients && c != d :: s.clients[c] == FRESH
    ensures s.clients[d].phase.Idle? && |s.clients[d].have| == |g.hosts|
  {
    var s0 := Initial(g);
    run, actions := FreshRun(g, false);
    run, actions := Extended(g, run, actions, false, s0, Start(d, true));
    var s1 := Do(g, s0, Start(d, true));
    hide Ends;
    var s2;
    run, actions, s2 := SetAll(g, run, actions, false, s1, d);
    var wait := Tick(g.validity[d] + 1);
    run, actions := Extended(g, run, actions, false, s2, wait);
    var s3 := Do(g, s2, wait);
    run, actions := Extended(g, run, actions, false, s3, Decide(d));
    var s4 := Do(g, s3, Decide(d));
    run, actions := Extended(g, run, actions, false, s4, Unlock(d, g.hosts));
    s := Do(g, s4, Unlock(d, g.hosts));
  }

  lemma StaleListBreaks(g: Config, c: Client, d: Client)
    requires ValidConfig(g) && g.hosts != {} && c in g.clients && d in g.clients && c != d
    requires CanHold(g, c) && CanHold(g, d)
    ensures !AlwaysExclusive(g)
  {
    var run, actions, s := TooSlow(g, d);
    var s1, s3;
    run, actions, s1 := AcquireAll(g, run, actions, false, s, c);
    run, actions := Extended(g, run, actions, false, s1, Start(d, false));
    var s2 := Do(g, s1, Start(d, false));
    run, actions, s3 := Relock(g, run, actions, s2, d);
    assert Holds(run[|run| - 1], c) && Holds(run[|run| - 1], d);
  }

  /** The default validity, two clients and three hosts. */
  lemma StaleListExample()
    ensures var g := Config({0, 1, 2}, {1, 2}, map[1 := 30000, 2 := 30000]);
            ValidConfig(g) && MutuallyExclusive(g) && !AlwaysExclusive(g)
  {
    var g := Config({0, 1, 2}, {1, 2}, map[1 := 30000, 2 := 30000]);
    MutualExclusion(g);
    StaleListBreaks(g, 1, 2);
  }

  /** The stale list alone passes for a majority. */
  lemma Relock(g: Config, run: seq<State>, actions: seq<Action>, s: State, d: Client)
      returns (run': seq<State>, actions': seq<Action>, s': State)
    requires Ends(g, run, actions, false, s) && d in s.clients && d in g.validity && g.hosts != {}
    requires s.clients[d].phase == Acquiring(s.now, g.hosts) && |s.clients[d].have| == |g.hosts|
    requires forall h | h in g.hosts :: Live(s, h)
    ensures Ends(g, run', actions', false, s') && s'.now == s.now
    ensures d in s'.clients && s'.clients[d].locked && s'.clients[d].lease == s.now + g.validity[d]
    ensures forall c | c in s.clients && c != d :: c in s'.clients && s'.clients[c] == s.clients[c]
  {
    hide Ends;
    var s1;
    run', actions', s1 := SkipAll(g, run, actions, s, d);
    assert |g.hosts| >= 1;
    run', actions' := Extended(g, run', actions', false, s1, Decide(d));
    var s2 := Do(g, s1, Decide(d));
    run', actions' := Extended(g, run', actions', false, s2, Grant(d));
    s' := Do(g, s2, Grant(d));
  }

  /**
    Without the clean start mutual exclusion fails for every configuration with
    hosts and two clients able to hold the lock, and only for those.
   */
  lemma StaleListExclusion(g: Config)
    requires ValidConfig(g)
    ensures AlwaysExclusive(g) <==> SoleContender(g)
  {
    if SoleContender(g) {
      forall run: seq<State>, actions: seq<Action>, n: nat, c: Client, d: Client
        | IsRun(g, run, actions) && n < |run| && Holds(run[n], c) && Holds(run[n], d)
        ensures c == d
      {
        HolderIsContender(g, run, actions, n, c);
        HolderIsContender(g, run, actions, n, d);
      }
    } else {
      var c, d :| c in g.clients && d in g.clients && CanHold(g, c) && CanHold(g, d) && c != d;
      StaleListBreaks(g, c, d);
    }
  }

  lemma HolderIsContender(g: Config, run: seq<State>, actions: seq<Action>, n: nat, c: Client)
    requires ValidConfig(g) && IsRun(g, run, actions) && n < |run| && Holds(run[n], c)
    ensures c in g.clients && CanHold(g, c) && g.hosts != {}
  {
    RunClients(g, run, actions, n);
    RunBasic(g, run, actions, n, c);
  }

  lemma {:induction false} RunClients(g: Config, run: seq<State>, actions: seq<Action>, n: nat)
    requires IsRun(g, run, actions) && n < |run|
    ensures run[n].clients.Keys == g.clients
  {
    if n > 0 {
      RunClients(g, run, actions, n - 1);
      StepClients(g, run[n - 1], actions[n - 1]);
    }
  }

  // ----- what an acquisition has when it is granted -----

  /**
    Acquisition postcondition: a granted client's list is a duplicate-free
    majority of the hosts, each holding its key until start plus validity.
   */
  lemma GrantedHasQuorum(g: Config, run: seq<State>, actions: seq<Action>, n: nat)
    requires ValidConfig(g) && IsRun(g, run, actions) && Clean(run, actions) && n < |actions| && actions[n].Grant?
    requires actions[n].c in g.clients && Exact(g, actions[n].c)
    ensures actions[n].c in run[n].clients && run[n].clients[actions[n].c].phase.Granted?
    ensures var c := actions[n].c;
            var l := run[n].clients[c];
            && NoDup(l.have) && HostSet(l.have) <= g.hosts && |l.have| >= |g.hosts| / 2 + 1
            && forall h | h in l.have :: Backed(run[n], c, h, l.phase.start + g.validity[c])
  {
    RunInv(g, run, actions, n);
    assert LocalInv(g, run[n], actions[n].c);
  }
}
