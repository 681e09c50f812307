/**
  The lock object against the lock protocol: every section of the object, its
  list and its flags included, is a step of the protocol or changes nothing but
  the time.
 */
module LockSteps {
  import opened Collections
  import opened Text
  import opened RedisStores
  import opened Releases
  import opened DMutexes
  import opened Refinement
  import R = Redlock

  /** The object is client `c` of the configuration. */
  ghost predicate Configured(m: DMutexImpl, g: R.Config, c: R.Client, owner: Owner) {
    && c in g.validity && g.validity[c] == m.lockValidityTime && OwnValue(owner, m.value, c)
    && g.hosts == R.HostSet(m.hosts)
  }

  /** The protocol's local state agrees with the fields of the object. */
  ghost predicate Matches(m: DMutexImpl, l: R.Local)
    reads m
  {
    l.have == m.haveLockNum && l.locked == m.lockStatus && l.continued == m.lockContinue
  }

  /** The protocol's state as far as one client and one key are concerned. */
  ghost function StateAt(dbs: Dbs, now: int, key: string, owner: Owner, c: R.Client, l: R.Local): R.State {
    R.State(now, Abstract(dbs, key, owner), map[c := l])
  }

  /** `s'` follows from `s` by the action, or is `s` when there is none. */
  ghost predicate Follows(g: R.Config, s: R.State, a: Option<R.Action>, s': R.State) {
    match a
    case None => s' == s
    case Some(a) => R.CanDo(g, s, a) && R.Do(g, s, a) == s'
  }

  /** Two states that differ at most in keys that have expired. */
  ghost predicate SameLive(s: R.State, s': R.State) {
    && s.now == s'.now && s.clients == s'.clients
    && forall h: nat :: (R.Live(s, h) <==> R.Live(s', h)) && (R.Live(s, h) ==> s.store[h] == s'.store[h])
  }

  lemma LiveAt(dbs: Dbs, now: int, key: string, owner: Owner, c: R.Client, l: R.Local, h: nat)
    ensures R.Live(StateAt(dbs, now, key, owner, c, l), h) <==> Live(dbs, (h, key), now)
    ensures Live(dbs, (h, key), now) ==>
              StateAt(dbs, now, key, owner, c, l).store[h].owner == owner(dbs[(h, key)].value)
  {
    AbstractAt(dbs, key, owner, h);
  }

  lemma OwnerIs(owner: Owner, value: string, c: R.Client)
    requires OwnValue(owner, value, c)
    ensures owner(value) == c
  {}

  /** The local state of a client that is through with host `h`. */
  function Tried(l: R.Local, h: nat): R.Local
    requires l.phase.Acquiring?
  {
    l.(phase := R.Acquiring(l.phase.start, l.phase.todo - {h}))
  }

  /** The protocol's own account of a host taken. */
  lemma TrySetTakes(g: R.Config, s: R.State, c: R.Client, l: R.Local, h: nat)
    requires c in g.validity && R.Px(g, c) > 0 && s.clients == map[c := l] && !R.Live(s, h)
    requires l.phase.Acquiring? && h in l.phase.todo
    ensures R.CanDo(g, s, R.TrySet(c, h))
    ensures R.Do(g, s, R.TrySet(c, h))
            == R.State(s.now, s.store[h := R.Entry(c, s.now + R.Px(g, c))],
                       map[c := Tried(l, h).(have := l.have + [h])])
  {}

  lemma TookHost(g: R.Config, c: R.Client, dbs: Dbs, now: int, key: string, value: string, h: nat, owner: Owner,
                 l: R.Local)
    requires c in g.validity && OwnValue(owner, value, c) && R.Px(g, c) > 0 && !Live(dbs, (h, key), now)
    requires l.phase.Acquiring? && h in l.phase.todo
    ensures Follows(g, StateAt(dbs, now, key, owner, c, l), Some(R.TrySet(c, h)),
                    StateAt(dbs[(h, key) := Entry(value, now + R.Px(g, c))], now, key, owner, c,
                            Tried(l, h).(have := l.have + [h])))
  {
    hide Abstract, OwnValue, R.Do, R.CanDo, R.Live, Live, Tried, R.Px;
    OwnerIs(owner, value, c);
    LiveAt(dbs, now, key, owner, c, l, h);
    PutAbstract(dbs, key, owner, h, Entry(value, now + R.Px(g, c)));
    TrySetTakes(g, StateAt(dbs, now, key, owner, c, l), c, l, h);
  }

  lemma FoundHeld(g: R.Config, c: R.Client, dbs: Dbs, now: int, key: string, h: nat, owner: Owner, l: R.Local)
    requires c in g.validity && Live(dbs, (h, key), now) && l.phase.Acquiring? && h in l.phase.todo
    ensures Follows(g, StateAt(dbs, now, key, owner, c, l), Some(R.TrySet(c, h)),
                    StateAt(dbs, now, key, owner, c, Tried(l, h)))
  {
    LiveAt(dbs, now, key, owner, c, l, h);
    hide Abstract;
  }

  lemma GaveUp(g: R.Config, c: R.Client, dbs: Dbs, now: int, key: string, h: nat, owner: Owner, l: R.Local)
    requires c in g.validity && l.phase.Acquiring? && h in l.phase.todo && now - l.phase.start >= R.TIME_OUT_LIMIT
    ensures Follows(g, StateAt(dbs, now, key, owner, c, l), Some(R.GiveUp(c, h)),
                    StateAt(dbs, now, key, owner, c, Tried(l, h)))
  {
    hide Abstract;
  }

  lemma ConfiguredPx(m: DMutexImpl, g: R.Config, c: R.Client, owner: Owner)
    requires Configured(m, g, c, owner)
    ensures c in g.validity && OwnValue(owner, m.value, c) && m.Px() == R.Px(g, c)
  {}

  lemma Stays(g: R.Config, dbs: Dbs, now: int, key: string, owner: Owner, c: R.Client, l: R.Local)
    ensures Follows(g, StateAt(dbs, now, key, owner, c, l), None, StateAt(dbs, now, key, owner, c, l))
  {}

  lemma AttemptMeans(g: R.Config, c: R.Client, was: Dbs, dbs: Dbs, now: int, key: string, value: string, h: nat,
                     owner: Owner, l: R.Local, r: DBResult)
      returns (a: Option<R.Action>, l': R.Local)
    requires c in g.validity && OwnValue(owner, value, c) && l.phase.Acquiring? && h in l.phase.todo
    requires SetOutcome(was, dbs, now, (h, key), value, R.Px(g, c), r)
    ensures Follows(g, StateAt(was, now, key, owner, c, l), a, StateAt(dbs, now, key, owner, c, l'))
    ensures l'.have == l.have + (if r == SetKeySucceed then [h] else [])
    ensures l'.locked == l.locked && l'.continued == l.continued
    ensures a == if r != SetKeyFailed then Some(R.TrySet(c, h))
                 else if now - l.phase.start >= R.TIME_OUT_LIMIT then Some(R.GiveUp(c, h))
                 else None
  {
    hide StateAt, Abstract, Follows, OwnValue, Live, R.Px;
    if r == SetKeySucceed {
      l', a := Tried(l, h).(have := l.have + [h]), Some(R.TrySet(c, h));
      TookHost(g, c, was, now, key, value, h, owner, l);
    } else if r == KeyExist {
      l', a := Tried(l, h), Some(R.TrySet(c, h));
      FoundHeld(g, c, was, now, key, h, owner, l);
    } else if now - l.phase.start >= R.TIME_OUT_LIMIT {
      l', a := Tried(l, h), Some(R.GiveUp(c, h));
      GaveUp(g, c, was, now, key, h, owner, l);
    } else {
      l', a := l, None;
      Stays(g, was, now, key, owner, c, l);
    }
  }

  /** An attempt is TrySet, or GiveUp once the time to retry is over, or nothing. */
  method AttemptStep(m: DMutexImpl, g: R.Config, c: R.Client, ghost l: R.Local, h: nat, ghost owner: Owner)
      returns (r: DBResult, ghost a: Option<R.Action>, ghost l': R.Local)
    requires Configured(m, g, c, owner) && Matches(m, l) && l.phase.Acquiring? && h in l.phase.todo
    modifies m`haveLockNum, m.db, m.db.server
    ensures Matches(m, l')
    ensures Follows(g, StateAt(old(m.db.server.dbs), m.db.server.now, m.key, owner, c, l), a,
                    StateAt(m.db.server.dbs, m.db.server.now, m.key, owner, c, l'))
    ensures a == if r != SetKeyFailed then Some(R.TrySet(c, h))
                 else if m.db.server.now - l.phase.start >= R.TIME_OUT_LIMIT then Some(R.GiveUp(c, h))
                 else None
  {
    hide StateAt, Follows, OwnValue, SetOutcome, Configured, R.Px, ToInt32;
    ghost var was := m.db.server.dbs;
    ConfiguredPx(m, g, c, owner);
    r := m.Attempt(h);
    a, l' := AttemptMeans(g, c, was, m.db.server.dbs, m.db.server.now, m.key, m.value, h, owner, l, r);
  }

  /** The object's check of quorum and validity is the protocol's decision. */
  lemma DecideStep(m: DMutexImpl, g: R.Config, c: R.Client, s: R.State, l: R.Local, owner: Owner)
    requires Configured(m, g, c, owner) && Matches(m, l) && NoDup(m.hosts)
    requires c in s.clients && s.clients[c] == l && R.CanDo(g, s, R.Decide(c))
    ensures R.Do(g, s, R.Decide(c)).clients[c]
            == l.(phase := if m.EnoughInTime(l.phase.start, s.now) then R.Granted(l.phase.start) else R.Failing)
    ensures R.Do(g, s, R.Decide(c)).store == s.store
    ensures R.Do(g, s, R.Decide(c)).clients[c].phase.Granted? <==>
              |m.haveLockNum| >= |m.hosts| / 2 + 1 && s.now - l.phase.start <= m.lockValidityTime % TWO_TO_64
  {
    R.DistinctCount(m.hosts);
  }

  lemma Granted(g: R.Config, c: R.Client, dbs: Dbs, now: int, key: string, owner: Owner, l: R.Local)
    requires c in g.validity && l.phase.Granted?
    ensures Follows(g, StateAt(dbs, now, key, owner, c, l), Some(R.Grant(c)),
                    StateAt(dbs, now, key, owner, c,
                            l.(phase := R.Idle, locked := true, continued := true,
                               lease := l.phase.start + g.validity[c], backing := R.HostSet(l.have), rounds := map[])))
  {
    hide Abstract, R.HostSet;
  }

  /** The section that sets the lock is Grant. */
  method GrantStep(m: DMutexImpl, g: R.Config, c: R.Client, ghost l: R.Local, ghost owner: Owner)
      returns (ghost l': R.Local)
    requires Configured(m, g, c, owner) && Matches(m, l) && l.phase.Granted?
    modifies m`lockStatus, m`lockContinue, m`timers
    ensures Matches(m, l') && l'.locked && l'.phase.Idle?
    ensures Follows(g, StateAt(m.db.server.dbs, m.db.server.now, m.key, owner, c, l), Some(R.Grant(c)),
                    StateAt(m.db.server.dbs, m.db.server.now, m.key, owner, c, l'))
  {
    m.GrantSection();
    l' := l.(phase := R.Idle, locked := true, continued := true,
             lease := l.phase.start + g.validity[c], backing := R.HostSet(l.have), rounds := map[]);
    Granted(g, c, m.db.server.dbs, m.db.server.now, m.key, owner, l);
    hide Follows;
  }

  /** The local state of a client whose round has extended one more host. */
  function OneMore(l: R.Local, round: nat): R.Local
    requires round in l.rounds
  {
    l.(rounds := l.rounds[round := R.Round(l.rounds[round].start, l.rounds[round].next + 1)])
  }

  predicate InRound(l: R.Local, round: nat, h: nat) {
    round in l.rounds && l.rounds[round].next < |l.have| && l.have[l.rounds[round].next] == h
  }

  /** The protocol's own account of a host extended. */
  lemma KeepExtends(g: R.Config, s: R.State, c: R.Client, l: R.Local, h: nat, round: nat)
    requires c in g.validity && s.clients == map[c := l] && InRound(l, round, h) && R.Mine(s, c, h)
    ensures R.CanDo(g, s, R.KeepExtend(c, round))
    ensures R.Do(g, s, R.KeepExtend(c, round))
            == R.State(s.now,
                       if R.Px(g, c) <= 0 then s.store - {h} else s.store[h := R.Entry(c, s.now + R.Px(g, c))],
                       map[c := OneMore(l, round)])
  {}

  /** The protocol's own account of an absent host set again, which the round then retries. */
  lemma KeepSets(g: R.Config, s: R.State, c: R.Client, l: R.Local, h: nat, round: nat)
    requires c in g.validity && R.Px(g, c) > 0 && s.clients == map[c := l] && InRound(l, round, h) && !R.Live(s, h)
    ensures R.CanDo(g, s, R.KeepExtend(c, round))
    ensures R.Do(g, s, R.KeepExtend(c, round))
            == R.State(s.now, s.store[h := R.Entry(c, s.now + R.Px(g, c))], map[c := l])
  {
    assert map[c := l][c := l] == map[c := l];
  }

  lemma ExtendedHost(g: R.Config, c: R.Client, dbs: Dbs, now: int, key: string, value: string, h: nat, owner: Owner,
                     l: R.Local, round: nat)
    requires c in g.validity && OwnValue(owner, value, c) && InRound(l, round, h) && LiveWith(dbs, (h, key), value, now)
    ensures Follows(g, StateAt(dbs, now, key, owner, c, l), Some(R.KeepExtend(c, round)),
                    StateAt(if R.Px(g, c) <= 0 then dbs - {(h, key)}
                            else dbs[(h, key) := Entry(value, now + R.Px(g, c))],
                            now, key, owner, c, OneMore(l, round)))
  {
    hide Abstract, OwnValue, R.Do, R.CanDo, R.Live, Live, R.Px, OneMore, InRound;
    OwnerIs(owner, value, c);
    LiveAt(dbs, now, key, owner, c, l, h);
    DropAbstract(dbs, key, owner, h);
    PutAbstract(dbs, key, owner, h, Entry(value, now + R.Px(g, c)));
    KeepExtends(g, StateAt(dbs, now, key, owner, c, l), c, l, h, round);
  }

  lemma SetAgain(g: R.Config, c: R.Client, dbs: Dbs, now: int, key: string, value: string, h: nat, owner: Owner,
                 l: R.Local, round: nat)
    requires c in g.validity && OwnValue(owner, value, c) && R.Px(g, c) > 0 && InRound(l, round, h)
    requires !Live(dbs, (h, key), now)
    ensures Follows(g, StateAt(dbs, now, key, owner, c, l), Some(R.KeepExtend(c, round)),
                    StateAt(dbs[(h, key) := Entry(value, now + R.Px(g, c))], now, key, owner, c, l))
  {
    hide Abstract, OwnValue, R.Do, R.CanDo, R.Live, Live, R.Px, InRound;
    OwnerIs(owner, value, c);
    LiveAt(dbs, now, key, owner, c, l, h);
    PutAbstract(dbs, key, owner, h, Entry(value, now + R.Px(g, c)));
    KeepSets(g, StateAt(dbs, now, key, owner, c, l), c, l, h, round);
  }

  lemma ExtensionMeans(g: R.Config, c: R.Client, was: Dbs, dbs: Dbs, now: int, key: string, value: string, h: nat,
                       owner: Owner, l: R.Local, round: nat, r: Option<DBResult>)
      returns (a: Option<R.Action>, l': R.Local)
    requires c in g.validity && OwnValue(owner, value, c) && InRound(l, round, h)
    requires ExtendOutcome(was, dbs, now, (h, key), value, R.Px(g, c), r)
    ensures Follows(g, StateAt(was, now, key, owner, c, l), a, StateAt(dbs, now, key, owner, c, l'))
    ensures l' == if r == Some(UpdateKeySucceed) then OneMore(l, round) else l
    ensures a == if r == Some(UpdateKeySucceed) || r == Some(SetKeySucceed) then Some(R.KeepExtend(c, round)) else None
  {
    hide StateAt, Abstract, Follows, OwnValue, Live, LiveWith, R.Px;
    l', a := l, None;
    if r == Some(UpdateKeySucceed) {
      l', a := OneMore(l, round), Some(R.KeepExtend(c, round));
      ExtendedHost(g, c, was, now, key, value, h, owner, l, round);
    } else if r == Some(SetKeySucceed) {
      a := Some(R.KeepExtend(c, round));
      SetAgain(g, c, was, now, key, value, h, owner, l, round);
    } else {
      Stays(g, was, now, key, owner, c, l);
    }
  }

  /** A section of a KeepLock round is KeepExtend, or nothing. */
  method ExtendStep(m: DMutexImpl, g: R.Config, c: R.Client, ghost l: R.Local, h: nat, ghost round: nat,
                    ghost owner: Owner)
      returns (r: Option<DBResult>, ghost a: Option<R.Action>, ghost l': R.Local)
    requires Configured(m, g, c, owner) && Matches(m, l) && InRound(l, round, h)
    modifies m.db, m.db.server
    ensures Matches(m, l') && l' == if r == Some(UpdateKeySucceed) then OneMore(l, round) else l
    ensures Follows(g, StateAt(old(m.db.server.dbs), m.db.server.now, m.key, owner, c, l), a,
                    StateAt(m.db.server.dbs, m.db.server.now, m.key, owner, c, l'))
    ensures a == if r == Some(UpdateKeySucceed) || r == Some(SetKeySucceed) then Some(R.KeepExtend(c, round)) else None
  {
    hide StateAt, Follows, OwnValue, ExtendOutcome, Configured, R.Px, ToInt32;
    ghost var was := m.db.server.dbs;
    ConfiguredPx(m, g, c, owner);
    r := m.ExtendSection(h);
    a, l' := ExtensionMeans(g, c, was, m.db.server.dbs, m.db.server.now, m.key, m.value, h, owner, l, round, r);
  }

  /** A release, complete or cut short, is Unlock on the hosts that answered, up to keys that have expired. */
  method UnlockStep(m: DMutexImpl, g: R.Config, c: R.Client, ghost l: R.Local, ghost owner: Owner)
      returns (r: Option<bool>, ghost released: set<nat>, ghost l': R.Local)
    requires Configured(m, g, c, owner) && Matches(m, l) && (l.phase.Idle? || l.phase.Failing?)
    modifies m`lockStatus, m`lockContinue, m.db`selected, m.db.server
    ensures Matches(m, l') && !l'.locked && l'.phase.Idle?
    ensures var s := StateAt(old(m.db.server.dbs), m.db.server.now, m.key, owner, c, l);
            && R.CanDo(g, s, R.Unlock(c, released))
            && SameLive(R.Do(g, s, R.Unlock(c, released)),
                        StateAt(m.db.server.dbs, m.db.server.now, m.key, owner, c, l'))
  {
    ghost var was, since := m.db.server.dbs, m.db.server.now;
    ghost var ps;
    r, ps := m.UnlockAll();
    released := AnsweredHosts(m.hosts, ps);
    l' := l.(phase := R.Idle, locked := false, continued := false, rounds := map[]);
    UnlockLive(m, g, c, l, l', was, ps, since, m.db.server.now, owner);
  }

  lemma UnlockLive(m: DMutexImpl, g: R.Config, c: R.Client, l: R.Local, l': R.Local, was: Dbs, ps: seq<Probe>,
                   since: int, now: int, owner: Owner)
    requires Configured(m, g, c, owner) && (l.phase.Idle? || l.phase.Failing?)
    requires IsRelease(was, m.hosts, m.key, m.value, ps, since, now)
    requires l' == l.(phase := R.Idle, locked := false, continued := false, rounds := map[])
    ensures var s, released := StateAt(was, now, m.key, owner, c, l), AnsweredHosts(m.hosts, ps);
            && R.CanDo(g, s, R.Unlock(c, released))
            && SameLive(R.Do(g, s, R.Unlock(c, released)),
                        StateAt(ReleaseAll(was, m.hosts, m.key, m.value, ps).dbs, now, m.key, owner, c, l'))
  {
    var released := AnsweredHosts(m.hosts, ps);
    var s, s' := StateAt(was, now, m.key, owner, c, l), StateOf(was, now, m.key, owner);
    var end := ReleaseAll(was, m.hosts, m.key, m.value, ps).dbs;
    assert released <= g.hosts;
    UnlockActs(g, c, s, s', l, released);
    forall h: nat
      ensures var s1, s2 := R.Release(s', c, released), StateOf(end, now, m.key, owner);
              (R.Live(s1, h) <==> R.Live(s2, h)) && (R.Live(s1, h) ==> s1.store[h] == s2.store[h])
    {
      UnlockMatches(c, was, m.hosts, m.key, m.value, ps, since, now, h, owner);
    }
    hide Abstract, ReleaseAll, AnsweredHosts, IsRelease, Configured, R.Release, R.Do, R.CanDo;
    SameLiveStores(R.Do(g, s, R.Unlock(c, released)), R.Release(s', c, released),
                   StateAt(end, now, m.key, owner, c, l'), StateOf(end, now, m.key, owner));
  }

  lemma UnlockActs(g: R.Config, c: R.Client, s: R.State, s': R.State, l: R.Local, released: set<nat>)
    requires c in g.validity && s.clients == map[c := l] && (l.phase.Idle? || l.phase.Failing?)
    requires s.now == s'.now && s.store == s'.store && released <= g.hosts
    ensures R.CanDo(g, s, R.Unlock(c, released))
    ensures R.Do(g, s, R.Unlock(c, released))
            == R.State(s.now, R.Release(s', c, released).store,
                       map[c := l.(phase := R.Idle, locked := false, continued := false, rounds := map[])])
    ensures R.Release(s', c, released).now == s.now
  {}

  lemma SameLiveStores(a: R.State, a': R.State, b: R.State, b': R.State)
    requires a.now == a'.now == b.now == b'.now && a.store == a'.store && b.store == b'.store && a.clients == b.clients
    requires forall h: nat :: (R.Live(a', h) <==> R.Live(b', h)) && (R.Live(a', h) ==> a'.store[h] == b'.store[h])
    ensures SameLive(a, b)
  {
    forall h: nat
      ensures R.Live(a, h) == R.Live(a', h) && R.Live(b, h) == R.Live(b', h)
    {}
  }
}
