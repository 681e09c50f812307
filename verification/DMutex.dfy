/** The lock object: acquisition, background extension and release over the hosts. */
module DMutexes {
  import opened Collections
  import opened Text
  import opened RedisStores
  import opened Releases
  import P = Redlock

  /** The keys of these hosts hold `value` and last until `until`. */
  predicate AllKept(dbs: Dbs, hosts: seq<nat>, key: string, value: string, until: int, now: int) {
    forall h | h in hosts :: Kept(dbs, (h, key), value, until, now)
  }

  /** Whatever this client relied on, up to one validity ahead, it can still rely on. */
  ghost predicate Respected(was: Dbs, since: int, dbs: Dbs, now: int, key: string, value: string, px: int) {
    && since <= now
    && forall h: nat, until: int | until <= since + px && Kept(was, (h, key), value, until, since) ::
         Kept(dbs, (h, key), value, until, now)
  }

  /** Live keys of other clients, and all other keys, are as they were. */
  ghost predicate NotDisturbed(was: Dbs, dbs: Dbs, key: string, value: string, now: int) {
    forall k | Live(was, k, now) && (k.1 != key || was[k].value != value) :: k in dbs && dbs[k] == was[k]
  }

  lemma RespectedAll(was: Dbs, since: int, dbs: Dbs, now: int, key: string, value: string, px: int,
                     hosts: seq<nat>, until: int)
    requires Respected(was, since, dbs, now, key, value, px) && until <= since + px
    requires AllKept(was, hosts, key, value, until, since)
    ensures AllKept(dbs, hosts, key, value, until, now)
  {}

  lemma RespectedSelf(dbs: Dbs, now: int, key: string, value: string, px: int)
    ensures Respected(dbs, now, dbs, now, key, value, px)
  {}

  lemma RespectedThrough(a: Dbs, t0: int, b: Dbs, t1: int, c: Dbs, t2: int, key: string, value: string, px: int)
    requires Respected(a, t0, b, t1, key, value, px) && Respected(b, t1, c, t2, key, value, px)
    ensures Respected(a, t0, c, t2, key, value, px)
  {}

  lemma KeptLonger(dbs: Dbs, k: Slot, value: string, until: int, sooner: int, now: int)
    requires Kept(dbs, k, value, until, now) && sooner <= until
    ensures Kept(dbs, k, value, sooner, now)
  {}

  lemma AlsoKept(dbs: Dbs, hosts: seq<nat>, host: nat, key: string, value: string, until: int, now: int)
    requires AllKept(dbs, hosts, key, value, until, now) && Kept(dbs, (host, key), value, until, now)
    ensures AllKept(dbs, hosts + [host], key, value, until, now)
  {}

  /** An operation of a client with another value respects this one. */
  lemma StrangerRespects(was: Dbs, since: int, dbs: Dbs, now: int, k: Slot, other: string,
                         key: string, value: string, px: int)
    requires since <= now && other != value && OthersKept(was, dbs, k, other, now)
    ensures Respected(was, since, dbs, now, key, value, px)
  {
    forall h: nat, until: int | until <= since + px && Kept(was, (h, key), value, until, since)
      ensures Kept(dbs, (h, key), value, until, now)
    {
      if k != (h, key) { SlotUnchanged(was, dbs, k, (h, key)); }
    }
  }

  lemma SlotUnchanged(was: Dbs, dbs: Dbs, k: Slot, other: Slot)
    requires was - {k} == dbs - {k} && other != k
    ensures (other in was <==> other in dbs) && (other in was ==> dbs[other] == was[other])
  {
    assert other in was <==> other in was - {k};
    assert other in dbs <==> other in dbs - {k};
    assert other in was ==> (was - {k})[other] == was[other];
    assert other in dbs ==> (dbs - {k})[other] == dbs[other];
  }

  /** The hosts whose SET succeeded, in the order of the attempts. */
  function Won(sets: seq<(Slot, DBResult)>): seq<nat> {
    if sets == [] then []
    else
      var (k, r) := sets[|sets| - 1];
      Won(sets[..|sets| - 1]) + if r == SetKeySucceed then [k.0] else []
  }

  /** Host `h` was tried until it was taken, or held by a live key, or the time to retry was over. */
  predicate Tried(sets: seq<(Slot, DBResult)>, h: nat, key: string, elapsed: int) {
    || ((h, key), SetKeySucceed) in sets
    || ((h, key), KeyExist) in sets
    || (((h, key), SetKeyFailed) in sets && elapsed >= P.TIME_OUT_LIMIT)
  }

  /** The loop is through with `done`: every host was tried, and the ones that were taken are `added`. */
  ghost predicate Through(done: seq<nat>, added: seq<nat>, sets: seq<(Slot, DBResult)>, key: string, elapsed: int) {
    && added == Won(sets) && (NoDup(done) ==> NoDup(added)) && (forall h | h in added :: h in done)
    && (forall h | h in done :: Tried(sets, h, key, elapsed))
  }

  /** The order of the hosts does not matter, and time passing does not either. */
  lemma ThroughAny(done: seq<nat>, all: seq<nat>, added: seq<nat>, sets: seq<(Slot, DBResult)>, key: string,
                   elapsed: int, now: int)
    requires Through(done, added, sets, key, elapsed) && elapsed <= now
    requires (forall h :: h in done <==> h in all) && (NoDup(all) ==> NoDup(done))
    ensures Through(all, added, sets, key, now)
  {}

  lemma ThroughMeans(done: seq<nat>, added: seq<nat>, sets: seq<(Slot, DBResult)>, key: string, elapsed: int)
    requires Through(done, added, sets, key, elapsed)
    ensures (NoDup(done) ==> NoDup(added)) && forall h | h in added :: h in done
  {}

  lemma ThroughNothing(key: string, elapsed: int)
    ensures Through([], [], [], key, elapsed)
  {}

  lemma DistinctLast(done: seq<nat>, host: nat)
    requires NoDup(done + [host])
    ensures NoDup(done) && host !in done
  {
    var all := done + [host];
    forall i, j | 0 <= i < j < |done|
      ensures done[i] != done[j]
    {
      assert all[i] == done[i] && all[j] == done[j];
    }
    forall i | 0 <= i < |done|
      ensures done[i] != host
    {
      assert all[i] == done[i] && all[|done|] == host;
    }
  }

  /**
    One more attempt; the loop may move on, and for a host not tried to the end before
    it may only then, unless the attempt failed and there is time to retry.
   */
  lemma AttemptMade(done: seq<nat>, added: seq<nat>, sets: seq<(Slot, DBResult)>, key: string, elapsed: int,
                    host: nat, r: DBResult, now: int)
    requires Through(done, added, sets, key, elapsed) && elapsed <= now
    requires r == SetKeySucceed || r == KeyExist || r == SetKeyFailed
    ensures var added', sets' := if r == SetKeySucceed then added + [host] else added, sets + [((host, key), r)];
            && (r != SetKeySucceed ==> Through(done, added', sets', key, now))
            && (r != SetKeyFailed || now >= P.TIME_OUT_LIMIT ==> Through(done + [host], added', sets', key, now))
            && (r == SetKeyFailed && now < P.TIME_OUT_LIMIT && !Tried(sets, host, key, now) ==>
                  !Through(done + [host], added', sets', key, now))
  {
    assert (sets + [((host, key), r)])[..|sets|] == sets;
    assert added + [] == added;
    assert forall h | h in done :: Tried(sets + [((host, key), r)], h, key, now);
    if NoDup(done + [host]) { DistinctLast(done, host); }
    assert host in done + [host] by { assert (done + [host])[|done|] == host; }
  }

  lemma NothingReleased(fate: nat -> Fate, n: nat, now: int, was: Dbs, hosts: seq<nat>, key: string, value: string)
    ensures ReleaseAll(was, hosts, key, value, []) == Released(was, 0, false)
    ensures SentAll(was, hosts, key, value, []) == [] && Performed(fate, n, now, was, hosts, key, value, [])
    ensures EndOf(now, []) == now
  {}

  lemma ProbeMeans(dbs: Dbs, k: Slot, value: string, p: Probe)
    ensures Escapes(dbs, k, value, p) <==>
              || p.found.error || (Found(dbs, k, p) && !p.read.error && !Live(dbs, k, p.read.at))
              || (ReadOwn(dbs, k, value, p) && p.write.error)
    ensures Deletes(dbs, k, value, p) <==> !Erred(p) && LiveWith(dbs, k, value, p.write.at)
  {}

  lemma ReleaseStep(was: Dbs, hosts: seq<nat>, key: string, value: string, ps: seq<Probe>, p: Probe)
    requires |ps| < |hosts| && !ReleaseAll(was, hosts, key, value, ps).aborted
    ensures var r, k := ReleaseAll(was, hosts, key, value, ps), (hosts[|ps|], key);
            && ReleaseAll(was, hosts, key, value, ps + [p])
               == Released(if Deletes(r.dbs, k, value, p) then r.dbs - {k} else r.dbs,
                           if Deletes(r.dbs, k, value, p) then r.deleted + 1 else r.deleted,
                           Escapes(r.dbs, k, value, p))
            && SentAll(was, hosts, key, value, ps + [p])
               == SentAll(was, hosts, key, value, ps) + Sent(r.dbs, k, value, p, OpDel)
  {
    hide Deletes, Escapes, Sent;
    assert (ps + [p])[..|ps|] == ps;
  }

  lemma PrefixesKept(ps: seq<Probe>, p: Probe)
    ensures forall j | 0 <= j <= |ps| :: (ps + [p])[..j] == ps[..j]
    ensures ps[..|ps|] == ps && (ps + [p])[|ps|] == p
  {}

  lemma ReleaseNext(fate: nat -> Fate, n: nat, now: int, was: Dbs, hosts: seq<nat>, key: string, value: string,
                    ps: seq<Probe>)
    requires |ps| < |hosts| && Performed(fate, n, now, was, hosts, key, value, ps)
    ensures var p := NextReading(fate, n, now, was, hosts, key, value, ps);
            Performed(fate, n, now, was, hosts, key, value, ps + [p]) && EndOf(now, ps + [p]) == p.write.at
  {
    hide NextReading;
    var p := NextReading(fate, n, now, was, hosts, key, value, ps);
    PrefixesKept(ps, p);
    forall i | 0 <= i < |ps + [p]|
      ensures (ps + [p])[i] == NextReading(fate, n, now, was, hosts, key, value, (ps + [p])[..i])
    {
      if i < |ps| { assert (ps + [p])[..i] == ps[..i]; } else { assert (ps + [p])[..i] == ps; }
    }
    EndAfter(now, ps, p);
  }

  lemma EndAfter(now: int, ps: seq<Probe>, p: Probe)
    ensures EndOf(now, ps + [p]) == p.write.at
  {}

  lemma UndisturbedByRelease(was: Dbs, hosts: seq<nat>, key: string, value: string, ps: seq<Probe>, now: int)
    requires |ps| <= |hosts|
    ensures NotDisturbed(was, ReleaseAll(was, hosts, key, value, ps).dbs, key, value, now)
  {
    forall k | Live(was, k, now) && (k.1 != key || was[k].value != value)
      ensures k in ReleaseAll(was, hosts, key, value, ps).dbs && ReleaseAll(was, hosts, key, value, ps).dbs[k] == was[k]
    {
      ReleaseRemoves(was, hosts, key, value, ps, k);
    }
  }

  /** What a release leaves on a server without faults. */
  lemma UnlockMeans(fate: nat -> Fate, log: seq<Served>, was: Dbs, hosts: seq<nat>, key: string, value: string,
                    ps: seq<Probe>, from: int, now: int)
    requires IsRelease(was, hosts, key, value, ps, from, now) && forall i: nat :: !fate(i).fault
    requires |SentAll(was, hosts, key, value, ps)| <= |log|
    requires Performed(fate, |log| - |SentAll(was, hosts, key, value, ps)|, from, was, hosts, key, value, ps)
    ensures var end := ReleaseAll(was, hosts, key, value, ps);
            if !end.aborted then Complete(end.dbs, hosts, key, value, now)
            else exists h | h in hosts :: (h, key) in end.dbs && from < end.dbs[(h, key)].expiry <= now
  {
    FaultlessProbes(fate, |log| - |SentAll(was, hosts, key, value, ps)|, from, was, hosts, key, value, ps);
    if ReleaseAll(was, hosts, key, value, ps).aborted {
      AbortWithoutErrors(was, hosts, key, value, ps, from, now);
    } else {
      ErrorFreeRelease(was, hosts, key, value, ps, from, now);
    }
  }

  /** A third of `ms`, truncated toward zero. */
  function Trunc(ms: int): (r: int)
    ensures 0 <= ms ==> 3 * r <= ms < 3 * r + 3
    ensures ms <= 0 ==> 3 * r - 3 < ms <= 3 * r
  {
    if 0 <= ms then ms / 3 else -(-ms / 3)
  }

  /** How often slot `k` was to be set. */
  function Asked(sets: seq<(Slot, DBResult)>, k: Slot): nat {
    if sets == [] then 0 else Asked(sets[..|sets| - 1], k) + if sets[|sets| - 1].0 == k then 1 else 0
  }

  lemma {:induction false} AskedAppend(a: seq<(Slot, DBResult)>, b: seq<(Slot, DBResult)>, k: Slot)
    ensures Asked(a + b, k) == Asked(a, k) + Asked(b, k)
    decreases |b|
  {
    if b == [] {
      assert a + b == a;
    } else {
      var n := |b| - 1;
      AskedAppend(a, b[..n], k);
      assert (a + b)[..|a + b| - 1] == a + b[..n] && (a + b)[|a + b| - 1] == b[n];
    }
  }

  lemma {:induction false} EntryAsked(sets: seq<(Slot, DBResult)>, k: Slot, r: DBResult)
    requires (k, r) in sets
    ensures Asked(sets, k) >= 1
    decreases |sets|
  {
    var n := |sets| - 1;
    if sets[n] != (k, r) {
      assert sets == sets[..n] + [sets[n]];
      EntryAsked(sets[..n], k, r);
    }
  }

  /** Every host was to be set at least `times` times. */
  predicate AllAsked(sets: seq<(Slot, DBResult)>, hosts: seq<nat>, key: string, times: int) {
    forall h | h in hosts :: Asked(sets, (h, key)) >= times
  }

  lemma NothingAsked(hosts: seq<nat>, key: string)
    ensures AllAsked([], hosts, key, 0)
  {}

  /** One more acquisition has asked every host once more. */
  lemma AskedAgain(a: seq<(Slot, DBResult)>, b: seq<(Slot, DBResult)>, hosts: seq<nat>, added: seq<nat>, key: string,
                   elapsed: int, times: int)
    requires AllAsked(a, hosts, key, times) && Through(hosts, added, b, key, elapsed)
    ensures AllAsked(a + b, hosts, key, times + 1)
  {
    forall h | h in hosts
      ensures Asked(a + b, (h, key)) >= times + 1
    {
      AskedAppend(a, b, (h, key));
      assert Tried(b, h, key, elapsed);
      var r :| ((h, key), r) in b;
      EntryAsked(b, (h, key), r);
    }
  }

  /** How many of the compare-and-extends succeeded. */
  function Wins(calls: seq<(Slot, Option<DBResult>)>): nat {
    if calls == [] then 0
    else Wins(calls[..|calls| - 1]) + if calls[|calls| - 1].1 == Some(UpdateKeySucceed) then 1 else 0
  }

  /** After these calls the next one is about slot `k`. */
  predicate GoesTo(calls: seq<(Slot, Option<DBResult>)>, k: Slot, have: seq<nat>, key: string) {
    Wins(calls) < |have| && k == (have[Wins(calls)], key)
  }

  /**
    The calls of a KeepLock round: each goes to the first host of the list without
    a success so far, and an escaped error ends them.
   */
  predicate IsRound(calls: seq<(Slot, Option<DBResult>)>, have: seq<nat>, key: string) {
    && (forall i | 0 <= i < |calls| :: GoesTo(calls[..i], calls[i].0, have, key))
    && (forall i | 0 <= i < |calls| - 1 :: calls[i].1.Some?)
  }

  lemma RoundBegins(have: seq<nat>, key: string, value: string, dbs: Dbs, until: int, now: int)
    ensures IsRound([], have, key) && Wins([]) == 0 && AllKept(dbs, [], key, value, until, now)
  {}

  lemma WinsNext(calls: seq<(Slot, Option<DBResult>)>, k: Slot, r: Option<DBResult>)
    ensures Wins(calls + [(k, r)]) == Wins(calls) + if r == Some(UpdateKeySucceed) then 1 else 0
  {
    assert (calls + [(k, r)])[..|calls|] == calls;
  }

  lemma RoundNext(calls: seq<(Slot, Option<DBResult>)>, have: seq<nat>, key: string, r: Option<DBResult>)
    requires IsRound(calls, have, key) && (forall i | 0 <= i < |calls| :: calls[i].1.Some?) && Wins(calls) < |have|
    ensures var calls' := calls + [((have[Wins(calls)], key), r)];
            && IsRound(calls', have, key)
            && Wins(calls') == Wins(calls) + if r == Some(UpdateKeySucceed) then 1 else 0
  {
    var k := (have[Wins(calls)], key);
    var calls' := calls + [(k, r)];
    WinsNext(calls, k, r);
    assert GoesTo(calls, k, have, key);
    hide Wins, GoesTo;
    forall i | 0 <= i < |calls'|
      ensures GoesTo(calls'[..i], calls'[i].0, have, key)
    {
      if i < |calls| {
        assert calls'[..i] == calls[..i] && calls'[i] == calls[i];
      } else {
        assert calls'[..i] == calls;
      }
    }
  }

  /** The latest the server served is a release of these hosts that began at `since` with the store `was`. */
  ghost predicate JustReleased(server: RedisServer, hosts: seq<nat>, key: string, value: string, was: Dbs, since: int,
                               ps: seq<Probe>)
    reads server
  {
    && IsRelease(was, hosts, key, value, ps, since, server.now) && server.now == EndOf(since, ps)
    && server.dbs == ReleaseAll(was, hosts, key, value, ps).dbs
    && (var sent := SentAll(was, hosts, key, value, ps);
        && |sent| <= |server.log| && server.log[|server.log| - |sent|..] == sent
        && Performed(server.fate, |server.log| - |sent|, since, was, hosts, key, value, ps))
  }

  class DMutexImpl {
    const hosts: seq<nat>
    const key: string
    const value: string
    const lockValidityTime: int
    const db: DBRedis
    var haveLockNum: seq<nat>
    var lockStatus: bool
    var lockContinue: bool
    const runTime: int
    /** The periods of the KeepLock events pushed to the timer queue. */
    var timers: seq<int>
    /** How many acquisitions have been gone through. */
    ghost var acquisitions: nat

    constructor (key: string, hosts: seq<nat>, value: string, lockValidityTime: int, runTime: int, server: RedisServer)
      ensures this.key == key && this.hosts == hosts && this.value == value
      ensures this.lockValidityTime == lockValidityTime && this.runTime == runTime && db.server == server && fresh(db)
      ensures haveLockNum == [] && !lockStatus && lockContinue && timers == [] && acquisitions == 0
    {
      this.key, this.hosts, this.value := key, hosts, value;
      this.lockValidityTime, this.runTime := lockValidityTime, runTime;
      db := new DBRedis(server);
      haveLockNum, lockStatus, lockContinue, timers, acquisitions := [], false, true, [], 0;
    }

    function Px(): Int32 { ToInt32(lockValidityTime) }

    /** One operation of another thread: any operation with another value, or an extension of this client's key. */
    method Other()
      modifies db.server
      ensures Respected(old(db.server.dbs), old(db.server.now), db.server.dbs, db.server.now, key, value, Px())
    {
      var index, choice: int, other: string, otherKey: string, expire: int := *, *, *, *, *;
      var stranger := new DBRedis(db.server);
      var _ := stranger.SelectDB(if index < 0 then 0 else index);
      ghost var k := (stranger.selected, otherKey);
      if other == value {
        var _ := stranger.UpdateExpire(key, value, lockValidityTime);
      } else {
        if choice == 0 {
          var _ := stranger.SetKeyValue(otherKey, other, expire);
        } else if choice == 1 {
          var _ := stranger.UpdateExpire(otherKey, other, expire);
        } else {
          var _ := stranger.DelKeyValue(otherKey, other);
        }
        StrangerRespects(old(db.server.dbs), old(db.server.now), db.server.dbs, db.server.now, k, other,
                         key, value, Px());
      }
    }

    /** What the other threads of the process do while this one does not hold the mutex. */
    method Others()
      modifies db.server
      ensures Respected(old(db.server.dbs), old(db.server.now), db.server.dbs, db.server.now, key, value, Px())
    {
      db.server.Elapse(0);
      var steps: int := *;
      while 0 < steps
        invariant Respected(old(db.server.dbs), old(db.server.now), db.server.dbs, db.server.now, key, value, Px())
      {
        Other();
        steps := steps - 1;
      }
    }

    /** `std::shuffle`: the same hosts in some order. */
    method Shuffled(s: seq<nat>) returns (r: seq<nat>)
      ensures |r| == |s| && (forall h :: h in r <==> h in s) && (NoDup(s) ==> NoDup(r))
    {
      r := s;
    }

    /** One critical section of the acquisition loop, and the note of its success. */
    method Attempt(host: nat) returns (r: DBResult)
      modifies this`haveLockNum, db, db.server
      ensures db.server.now >= old(db.server.now) && (r == SetKeyFailed ==> db.server.now > old(db.server.now))
      ensures r == SetKeySucceed || r == KeyExist || r == SetKeyFailed
      ensures db.sets == old(db.sets) + [((host, key), r)]
      ensures haveLockNum == old(haveLockNum) + if r == SetKeySucceed then [host] else []
      ensures SetOutcome(old(db.server.dbs), db.server.dbs, db.server.now, (host, key), value, Px(), r)
    {
      var _ := db.SelectDB(host);
      r := db.SetKeyValue(key, value, lockValidityTime);
      if r == SetKeySucceed { haveLockNum := haveLockNum + [host]; }
    }

    /** The same after whatever other threads did before it got the mutex. */
    method TrySet(host: nat) returns (r: DBResult)
      modifies this`haveLockNum, db, db.server
      ensures db.server.now >= old(db.server.now) && (r == SetKeyFailed ==> db.server.now > old(db.server.now))
      ensures r == SetKeySucceed || r == KeyExist || r == SetKeyFailed
      ensures db.sets == old(db.sets) + [((host, key), r)]
      ensures haveLockNum == old(haveLockNum) + if r == SetKeySucceed then [host] else []
      ensures Respected(old(db.server.dbs), old(db.server.now), db.server.dbs, db.server.now, key, value, Px())
      ensures r == SetKeySucceed ==>
                Kept(db.server.dbs, (host, key), value, old(db.server.now) + Px(), db.server.now)
    {
      Others();
      r := Attempt(host);
    }

    /** Whether the list is a majority and the validity has not passed. */
    predicate EnoughInTime(start: int, decided: int)
      reads this
    {
      |haveLockNum| >= |hosts| / 2 + 1 && decided - start <= lockValidityTime % TWO_TO_64
    }

    /** The section that sets the lock and schedules its extension. */
    method GrantSection()
      modifies this`lockStatus, this`lockContinue, this`timers
      ensures lockStatus && lockContinue && timers == old(timers) + [Trunc(runTime) * 2]
    {
      lockStatus := true;
      lockContinue := true;
      timers := timers + [Trunc(runTime) * 2];
    }

    /**
      The acquisition. What it adds to the list, `haveLockNum` after the hosts that
      were on it before, are hosts that it set itself, distinct if the given ones are;
      the quorum check, however, counts the whole list.
     */
    method MainLockFunction()
        returns (r: Option<bool>, start: int, decided: int, ghost was: Dbs, ghost since: int, ghost ps: seq<Probe>)
      modifies this, db, db.server
      ensures old(db.server.now) <= start <= decided <= db.server.now && acquisitions == old(acquisitions) + 1
      ensures old(haveLockNum) <= haveLockNum && old(db.sets) <= db.sets
      ensures var added := haveLockNum[|old(haveLockNum)|..];
              && Through(hosts, added, db.sets[|old(db.sets)|..], key, decided - start)
              && (r == Some(true) ==> AllKept(db.server.dbs, added, key, value, start + Px(), db.server.now))
      ensures r == Some(true) <==> |haveLockNum| >= |hosts| / 2 + 1 && decided - start <= lockValidityTime % TWO_TO_64
      ensures r == Some(true) ==> lockStatus && lockContinue && timers == old(timers) + [Trunc(runTime) * 2]
      ensures r != Some(true) ==> !lockStatus && !lockContinue && timers == old(timers)
      ensures r != Some(true) ==> decided <= since && FailedBy(r, was, since, ps)
      ensures r != Some(true) && (forall i: nat :: !db.server.fate(i).fault) ==>
                if r == Some(false) then Complete(db.server.dbs, hosts, key, value, db.server.now)
                else exists h | h in hosts ::
                       (h, key) in db.server.dbs && decided < db.server.dbs[(h, key)].expiry <= db.server.now
      ensures r == Some(true) && old(haveLockNum) == [] ==> Acquired(start)
    {
      hide Through, Respected, Complete, JustReleased;
      acquisitions := acquisitions + 1;
      start, was, since, ps := db.server.now, map[], 0, [];
      var tempVec := Shuffled(hosts);
      AcquisitionLoop(tempVec, start);
      ghost var added, sets := haveLockNum[|old(haveLockNum)|..], db.sets[|old(db.sets)|..];
      ghost var before := db.server.now;
      db.server.Elapse(0);
      decided := db.server.now;
      ThroughAny(tempVec, hosts, added, sets, key, before - start, decided - start);
      if EnoughInTime(start, decided) {
        ghost var dbs := db.server.dbs;
        Others();
        RespectedAll(dbs, decided, db.server.dbs, db.server.now, key, value, Px(), added, start + Px());
        ThroughMeans(hosts, added, sets, key, decided - start);
        GrantSection();
        return Some(true), start, decided, was, since, ps;
      }
      r, was, since, ps := GiveBack(decided);
    }

    /** How a failed acquisition ended: a release of all hosts that began with the store `was` at `since`. */
    ghost predicate FailedBy(r: Option<bool>, was: Dbs, since: int, ps: seq<Probe>)
      reads this, db, db.server
    {
      && JustReleased(db.server, hosts, key, value, was, since, ps)
      && (r == None <==> ReleaseAll(was, hosts, key, value, ps).aborted)
      && (Complete(db.server.dbs, hosts, key, value, db.server.now) <==>
            forall h | h in hosts && LiveWith(was, (h, key), value, db.server.now) :: Answered(hosts, ps, h))
    }

    /** The end of an acquisition that failed. */
    method GiveBack(decided: int) returns (r: Option<bool>, ghost was: Dbs, ghost since: int, ghost ps: seq<Probe>)
      requires decided <= db.server.now
      modifies this`lockStatus, this`lockContinue, db, db.server
      ensures r != Some(true) && !lockStatus && !lockContinue && db.sets == old(db.sets)
      ensures decided <= since <= db.server.now && FailedBy(r, was, since, ps)
      ensures (forall i: nat :: !db.server.fate(i).fault) ==>
                if r == Some(false) then Complete(db.server.dbs, hosts, key, value, db.server.now)
                else exists h | h in hosts ::
                       (h, key) in db.server.dbs && decided < db.server.dbs[(h, key)].expiry <= db.server.now
    {
      hide Performed, ReleaseAll, SentAll, Complete, IsRelease, Answered;
      Others();
      was, since := db.server.dbs, db.server.now;
      r, ps := UnlockAll();
      if forall i: nat :: !db.server.fate(i).fault {
        UnlockMeans(db.server.fate, db.server.log, was, hosts, key, value, ps, since, db.server.now);
      }
      r := if r.None? then None else Some(false);
    }

    method AcquisitionLoop(tempVec: seq<nat>, start: int)
      requires start <= db.server.now
      modifies this`haveLockNum, db, db.server
      ensures start <= db.server.now && old(haveLockNum) <= haveLockNum && old(db.sets) <= db.sets
      ensures var added := haveLockNum[|old(haveLockNum)|..];
              && Through(tempVec, added, db.sets[|old(db.sets)|..], key, db.server.now - start)
              && AllKept(db.server.dbs, added, key, value, start + Px(), db.server.now)
    {
      hide Through, Respected;
      var lockIndex := 0;
      ghost var added, sets := [], [];
      ThroughNothing(key, db.server.now - start);
      assert tempVec[..0] == [];
      while lockIndex < |tempVec|
        invariant 0 <= lockIndex <= |tempVec| && start <= db.server.now
        invariant haveLockNum == old(haveLockNum) + added && db.sets == old(db.sets) + sets
        invariant Through(tempVec[..lockIndex], added, sets, key, db.server.now - start)
        invariant AllKept(db.server.dbs, added, key, value, start + Px(), db.server.now)
        decreases |tempVec| - lockIndex, start + P.TIME_OUT_LIMIT - db.server.now
      {
        var host := tempVec[lockIndex];
        ghost var was, since := db.server.dbs, db.server.now;
        var setRes := TrySet(host);
        AttemptMade(tempVec[..lockIndex], added, sets, key, since - start, host, setRes, db.server.now - start);
        RespectedAll(was, since, db.server.dbs, db.server.now, key, value, Px(), added, start + Px());
        sets := sets + [((host, key), setRes)];
        assert tempVec[..lockIndex + 1] == tempVec[..lockIndex] + [host];
        if setRes == SetKeySucceed {
          AlsoKept(db.server.dbs, added, host, key, value, start + Px(), db.server.now);
          added := added + [host];
          lockIndex := lockIndex + 1;
        } else if setRes == KeyExist || db.server.now - start >= P.TIME_OUT_LIMIT {
          lockIndex := lockIndex + 1;
        }
      }
      assert tempVec[..|tempVec|] == tempVec;
    }

    /** The release: one critical section over all hosts. A result of None is an escaped `redis_error`. */
    method UnlockAll() returns (r: Option<bool>, ghost ps: seq<Probe>)
      modifies this`lockStatus, this`lockContinue, db`selected, db.server
      ensures !lockStatus && !lockContinue && db.server.now >= old(db.server.now)
      ensures JustReleased(db.server, hosts, key, value, old(db.server.dbs), old(db.server.now), ps)
      ensures db.server.log == old(db.server.log) + SentAll(old(db.server.dbs), hosts, key, value, ps)
      ensures var end := ReleaseAll(old(db.server.dbs), hosts, key, value, ps);
              && (r.None? <==> end.aborted)
              && (r.Some? ==> (r.value <==> end.deleted == |haveLockNum|))
      ensures NotDisturbed(old(db.server.dbs), db.server.dbs, key, value, db.server.now)
      ensures Complete(db.server.dbs, hosts, key, value, db.server.now) <==>
                forall h | h in hosts && LiveWith(old(db.server.dbs), (h, key), value, db.server.now) ::
                  Answered(hosts, ps, h)
    {
      hide ProbeAt, Sent, Deletes, Escapes, SentAll, ReleaseAll, Performed, Found, ReadOwn;
      lockContinue := false;
      lockStatus := false;
      var lockSize := 0;
      ps := [];
      r := Some(false);
      var i := 0;
      ghost var was, since, n := db.server.dbs, db.server.now, |db.server.log|;
      NothingReleased(db.server.fate, n, since, was, hosts, key, value);
      while i < |hosts| && r.Some?
        invariant 0 <= i == |ps| <= |hosts| && since <= db.server.now && !lockStatus && !lockContinue
        invariant forall j | 0 <= j < i :: Ordered(ps[j], since, db.server.now)
        invariant forall j | 0 <= j < i :: !ReleaseAll(was, hosts, key, value, ps[..j]).aborted
        invariant ReleaseAll(was, hosts, key, value, ps) == Released(db.server.dbs, lockSize, r.None?)
        invariant db.server.log == old(db.server.log) + SentAll(was, hosts, key, value, ps)
        invariant Performed(db.server.fate, n, since, was, hosts, key, value, ps) && db.server.now == EndOf(since, ps)
      {
        var _ := db.SelectDB(hosts[i]);
        ghost var p := db.NextProbe(key, value);
        ReleaseNext(db.server.fate, n, since, was, hosts, key, value, ps);
        ReleaseStep(was, hosts, key, value, ps, p);
        PrefixesKept(ps, p);
        ProbeMeans(db.server.dbs, (hosts[i], key), value, p);
        var delRes := db.DelKeyValue(key, value);
        ps := ps + [p];
        if delRes == Some(DelKeySucceed) { lockSize := lockSize + 1; }
        if delRes.None? { r := None; }
        i := i + 1;
      }
      if r.Some? { r := Some(lockSize == |haveLockNum|); }
      UndisturbedByRelease(was, hosts, key, value, ps, db.server.now);
      ReleaseCompleteness(was, hosts, key, value, ps, since, db.server.now);
    }

    /** What other threads do, one of which may unlock this very object. */
    method OthersOrUnlock() returns (ghost unlocked: bool)
      modifies this`lockStatus, this`lockContinue, db`selected, db.server
      ensures db.server.now >= old(db.server.now)
      ensures !unlocked ==>
                && lockStatus == old(lockStatus) && lockContinue == old(lockContinue)
                && Respected(old(db.server.dbs), old(db.server.now), db.server.dbs, db.server.now, key, value, Px())
      ensures unlocked ==> !lockStatus && !lockContinue
    {
      Others();
      unlocked := false;
      var unlock: bool := *;
      if unlock {
        unlocked := true;
        var _, _ := UnlockAll();
        Others();
      }
    }

    /**
      The first `attempts` iterations of a KeepLock round. It goes through the list,
      trying each host until it succeeds there. Unless the lock is released
      meanwhile, a completed round has extended every host on the list by one
      validity from its start.
     */
    method KeepLock(attempts: nat) returns (r: Option<bool>, completed: bool, start: int, ghost unlocked: bool)
      modifies this`lockStatus, this`lockContinue, db, db.server
      ensures !old(lockContinue) ==> r == Some(false) && !completed
      ensures old(lockContinue) && !old(lockStatus) ==> r == Some(true) && !completed
      ensures !old(lockContinue && lockStatus) ==> db.extensions == old(db.extensions)
      ensures old(db.extensions) <= db.extensions
      ensures old(lockContinue && lockStatus) ==>
                var calls := db.extensions[|old(db.extensions)|..];
                && IsRound(calls, haveLockNum, key) && |calls| <= attempts
                && (completed <==> Wins(calls) == |haveLockNum|)
                && (r == None <==> calls != [] && calls[|calls| - 1].1 == None)
                && (r.Some? ==> r.value && (completed || |calls| == attempts))
      ensures old(db.server.now) == start <= db.server.now
      ensures completed && !unlocked ==>
                AllKept(db.server.dbs, haveLockNum, key, value, start + Px(), db.server.now)
      ensures !unlocked ==>
                && lockStatus == old(lockStatus) && lockContinue == old(lockContinue)
                && Respected(old(db.server.dbs), old(db.server.now), db.server.dbs, db.server.now, key, value, Px())
      ensures unlocked ==> !lockStatus && !lockContinue
    {
      start, unlocked := db.server.now, false;
      if !lockContinue { return Some(false), false, start, false; }
      if !lockStatus { return Some(true), false, start, false; }
      ghost var calls;
      r, completed, unlocked, calls := ExtendAll(attempts);
      assert db.extensions[|old(db.extensions)|..] == calls;
    }

    /** The loop of a KeepLock round over the list. */
    method ExtendAll(attempts: nat)
        returns (r: Option<bool>, completed: bool, ghost unlocked: bool, ghost calls: seq<(Slot, Option<DBResult>)>)
      modifies this`lockStatus, this`lockContinue, db, db.server
      ensures db.extensions == old(db.extensions) + calls && IsRound(calls, haveLockNum, key) && |calls| <= attempts
      ensures completed <==> Wins(calls) == |haveLockNum|
      ensures completed ==> r == Some(true)
      ensures r == None <==> calls != [] && calls[|calls| - 1].1 == None
      ensures r.Some? ==> r.value && (completed || |calls| == attempts)
      ensures old(db.server.now) <= db.server.now
      ensures completed && !unlocked ==>
                AllKept(db.server.dbs, haveLockNum, key, value, old(db.server.now) + Px(), db.server.now)
      ensures !unlocked ==>
                && lockStatus == old(lockStatus) && lockContinue == old(lockContinue)
                && Respected(old(db.server.dbs), old(db.server.now), db.server.dbs, db.server.now, key, value, Px())
      ensures unlocked ==> !lockStatus && !lockContinue
    {
      hide Respected, AllKept, IsRound, Wins, Px;
      var lockIndex, left := 0, attempts;
      ghost var first, start := db.server.dbs, db.server.now;
      calls, unlocked := [], false;
      RoundBegins(haveLockNum, key, value, db.server.dbs, start + Px(), db.server.now);
      RespectedSelf(first, start, key, value, Px());
      assert haveLockNum[..0] == [];
      while lockIndex < |haveLockNum|
        invariant 0 <= lockIndex <= |haveLockNum| && start <= db.server.now && 0 <= left <= attempts
        invariant db.extensions == old(db.extensions) + calls && IsRound(calls, haveLockNum, key)
        invariant (forall i | 0 <= i < |calls| :: calls[i].1.Some?) && Wins(calls) == lockIndex
        invariant |calls| + left == attempts
        invariant !unlocked ==>
                    && lockStatus == old(lockStatus) && lockContinue == old(lockContinue)
                    && AllKept(db.server.dbs, haveLockNum[..lockIndex], key, value, start + Px(), db.server.now)
                    && Respected(first, start, db.server.dbs, db.server.now, key, value, Px())
        invariant unlocked ==> !lockStatus && !lockContinue
        decreases left
      {
        if left == 0 { return Some(true), false, unlocked, calls; }
        left := left - 1;
        ghost var was, since := db.server.dbs, db.server.now;
        var host := haveLockNum[lockIndex];
        var setRes, cut := ExtendHost(host);
        RoundNext(calls, haveLockNum, key, setRes);
        calls := calls + [((host, key), setRes)];
        unlocked := unlocked || cut;
        if !unlocked {
          RespectedAll(was, since, db.server.dbs, db.server.now, key, value, Px(),
                       haveLockNum[..lockIndex], start + Px());
          RespectedThrough(first, start, was, since, db.server.dbs, db.server.now, key, value, Px());
        }
        if setRes.None? { return None, false, unlocked, calls; }
        if setRes == Some(UpdateKeySucceed) {
          if !unlocked {
            KeptLonger(db.server.dbs, (host, key), value, since + Px(), start + Px(), db.server.now);
            AlsoKept(db.server.dbs, haveLockNum[..lockIndex], host, key, value, start + Px(), db.server.now);
          }
          assert haveLockNum[..lockIndex + 1] == haveLockNum[..lockIndex] + [host];
          lockIndex := lockIndex + 1;
        }
      }
      assert haveLockNum[..|haveLockNum|] == haveLockNum;
      return Some(true), true, unlocked, calls;
    }

    /** One critical section of a KeepLock round. */
    method ExtendSection(host: nat) returns (r: Option<DBResult>)
      modifies db, db.server
      ensures db.server.now >= old(db.server.now)
      ensures db.extensions == old(db.extensions) + [((host, key), r)]
      ensures OthersKept(old(db.server.dbs), db.server.dbs, (host, key), value, db.server.now)
      ensures ExtendOutcome(old(db.server.dbs), db.server.dbs, db.server.now, (host, key), value, Px(), r)
    {
      var _ := db.SelectDB(host);
      r := db.UpdateExpire(key, value, lockValidityTime);
    }

    /** The same after whatever other threads did before it got the mutex. */
    method ExtendHost(host: nat) returns (r: Option<DBResult>, ghost unlocked: bool)
      modifies this`lockStatus, this`lockContinue, db, db.server
      ensures db.server.now >= old(db.server.now)
      ensures db.extensions == old(db.extensions) + [((host, key), r)]
      ensures !unlocked ==>
                && lockStatus == old(lockStatus) && lockContinue == old(lockContinue)
                && Respected(old(db.server.dbs), old(db.server.now), db.server.dbs, db.server.now, key, value, Px())
      ensures unlocked ==> !lockStatus && !lockContinue
      ensures r == Some(UpdateKeySucceed) ==>
                Kept(db.server.dbs, (host, key), value, old(db.server.now) + Px(), db.server.now)
    {
      unlocked := OthersOrUnlock();
      r := ExtendSection(host);
    }

    /** The first `attempts` tries of Lock, each on a cleared list. */
    method Lock(attempts: nat) returns (r: Option<bool>, start: int)
      modifies this, db, db.server
      ensures r == Some(true) ==> Acquired(start)
      ensures 0 < attempts && r != Some(true) ==> !lockStatus && !lockContinue
      ensures old(db.sets) <= db.sets
      ensures r == Some(false) ==>
                && AllAsked(db.sets[|old(db.sets)|..], hosts, key, attempts)
                && acquisitions == old(acquisitions) + attempts
      ensures acquisitions - old(acquisitions) <= attempts
      ensures db.server.now - old(db.server.now)
              >= (acquisitions - old(acquisitions) - if r == Some(false) then 0 else 1) * (Trunc(lockValidityTime) * 2)
    {
      hide Through, AllKept, AllAsked, Acquired, FailedBy, Complete, Trunc;
      r, start := Some(false), db.server.now;
      NothingAsked(hosts, key);
      var left := attempts;
      ghost var sets, wait := [], Trunc(lockValidityTime) * 2;
      while 0 < left && r == Some(false)
        invariant 0 <= left <= attempts && (r != Some(false) ==> left < attempts)
        invariant r == Some(true) ==> Acquired(start)
        invariant left < attempts && r != Some(true) ==> !lockStatus && !lockContinue
        invariant db.sets == old(db.sets) + sets
        invariant r == Some(false) ==> AllAsked(sets, hosts, key, attempts - left)
        invariant acquisitions == old(acquisitions) + (attempts - left)
        invariant db.server.now - old(db.server.now) >= (attempts - left - if r == Some(false) then 0 else 1) * wait
        decreases left
      {
        haveLockNum := [];
        ghost var had := db.sets;
        var decided;
        ghost var was, since, ps;
        r, start, decided, was, since, ps := MainLockFunction();
        AskedAgain(sets, db.sets[|had|..], hosts, haveLockNum, key, decided - start, attempts - left);
        sets := sets + db.sets[|had|..];
        if r == Some(false) { db.server.Elapse(if lockValidityTime < 0 then 0 else Trunc(lockValidityTime) * 2); }
        assert (attempts - left + 1) * wait == (attempts - left) * wait + wait;
        left := left - 1;
      }
      assert db.sets[|old(db.sets)|..] == sets;
      assert r == Some(false) ==> attempts - left == attempts;
    }

    /**
      A quorum of hosts, distinct if the given ones are, each holding this client's
      key until `start` plus the expiry sent.
     */
    ghost predicate Acquired(start: int)
      reads this, db, db.server
    {
      && lockStatus && (NoDup(hosts) ==> NoDup(haveLockNum)) && (forall h | h in haveLockNum :: h in hosts)
      && |haveLockNum| >= |hosts| / 2 + 1
      && AllKept(db.server.dbs, haveLockNum, key, value, start + Px(), db.server.now)
    }

    /** Tries, on a cleared list each time, until the timeout has passed; the wait between tries is two seconds. */
    method TryLockFor(expire: int) returns (r: Option<bool>, start: int)
      modifies this, db, db.server
      ensures r == Some(true) ==> Acquired(start)
      ensures r == Some(false) ==> db.server.now - old(db.server.now) >= expire % TWO_TO_64
      ensures r == Some(false) ==> !lockStatus
      ensures old(db.sets) <= db.sets
      ensures acquisitions > old(acquisitions)
      ensures AllAsked(db.sets[|old(db.sets)|..], hosts, key, acquisitions - old(acquisitions))
      ensures db.server.now - old(db.server.now)
              >= (acquisitions - old(acquisitions) - if r == Some(false) then 0 else 1) * 2000
    {
      hide Through, AllKept, AllAsked, Acquired, FailedBy, Complete;
      NothingAsked(hosts, key);
      var began := db.server.now;
      var trying := true;
      r, start := Some(false), began;
      ghost var sets, times: nat := [], 0;
      while trying
        invariant began == old(db.server.now) <= db.server.now
        invariant db.sets == old(db.sets) + sets && AllAsked(sets, hosts, key, times)
        invariant acquisitions == old(acquisitions) + times && (!trying ==> 1 <= times)
        invariant db.server.now - began >= times * 2000 && (!trying ==> r == Some(false))
        invariant !trying ==> (r == Some(true) ==> Acquired(start))
        invariant !trying && r == Some(false) ==> db.server.now - began >= expire % TWO_TO_64 && !lockStatus
        decreases trying, began + expire % TWO_TO_64 - db.server.now
      {
        haveLockNum := [];
        ghost var had := db.sets;
        var decided;
        ghost var was, since, ps;
        r, start, decided, was, since, ps := MainLockFunction();
        AskedAgain(sets, db.sets[|had|..], hosts, haveLockNum, key, decided - start, times);
        sets, times := sets + db.sets[|had|..], times + 1;
        if r != Some(false) {
          assert db.sets[|old(db.sets)|..] == sets;
          return;
        }
        db.server.Elapse(2000);
        trying := db.server.now - began < expire % TWO_TO_64;
      }
      assert db.sets[|old(db.sets)|..] == sets;
    }
  }
}
