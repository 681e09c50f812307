/**
  The release loop of the lock as a function of when its commands reached the
  server and which of them got error replies, and exactly what it leaves behind.
 */
module Releases {
  import opened RedisStores

  datatype Released = Released(dbs: Dbs, deleted: nat, aborted: bool)

  /** The compare-and-delete of the first |ps| hosts, in order. */
  function ReleaseAll(dbs: Dbs, hosts: seq<nat>, key: string, value: string, ps: seq<Probe>): Released
    requires |ps| <= |hosts|
  {
    if ps == [] then Released(dbs, 0, false)
    else
      var n := |ps| - 1;
      var r := ReleaseAll(dbs, hosts, key, value, ps[..n]);
      var k := (hosts[n], key);
      var aborted := r.aborted || Escapes(r.dbs, k, value, ps[n]);
      if Deletes(r.dbs, k, value, ps[n]) then Released(r.dbs - {k}, r.deleted + 1, aborted)
      else Released(r.dbs, r.deleted, aborted)
  }

  /** The hosts are gone through in order until one lets an error escape. */
  predicate IsRelease(dbs: Dbs, hosts: seq<nat>, key: string, value: string, ps: seq<Probe>, from: int, to: int) {
    && |ps| <= |hosts| && (forall i | 0 <= i < |ps| :: Ordered(ps[i], from, to))
    && (forall i | 0 <= i < |ps| :: !ReleaseAll(dbs, hosts, key, value, ps[..i]).aborted)
    && (ReleaseAll(dbs, hosts, key, value, ps).aborted || |ps| == |hosts|)
  }

  /** The commands the release sends. */
  function SentAll(dbs: Dbs, hosts: seq<nat>, key: string, value: string, ps: seq<Probe>): seq<Served>
    requires |ps| <= |hosts|
  {
    if ps == [] then []
    else
      var n := |ps| - 1;
      SentAll(dbs, hosts, key, value, ps[..n])
      + Sent(ReleaseAll(dbs, hosts, key, value, ps[..n]).dbs, (hosts[n], key), value, ps[n], OpDel)
  }

  /** When the release is over. */
  function EndOf(now: int, ps: seq<Probe>): int { if ps == [] then now else ps[|ps| - 1].write.at }

  /** The reading that a release which started at `now` with the server's n-th command gets after `ps`. */
  function NextReading(fate: nat -> Fate, n: nat, now: int, dbs: Dbs, hosts: seq<nat>, key: string, value: string,
                       ps: seq<Probe>): Probe
    requires |ps| < |hosts|
  {
    ProbeAt(fate, n + |SentAll(dbs, hosts, key, value, ps)|, EndOf(now, ps),
            ReleaseAll(dbs, hosts, key, value, ps).dbs, (hosts[|ps|], key), value)
  }

  /** The readings are what such a release gets: they are determined. */
  ghost predicate Performed(fate: nat -> Fate, n: nat, now: int, dbs: Dbs, hosts: seq<nat>, key: string, value: string,
                            ps: seq<Probe>)
  {
    |ps| <= |hosts|
    && forall i | 0 <= i < |ps| :: ps[i] == NextReading(fate, n, now, dbs, hosts, key, value, ps[..i])
  }

  /** Without faults there are no error replies. */
  lemma FaultlessProbes(fate: nat -> Fate, n: nat, now: int, dbs: Dbs, hosts: seq<nat>, key: string, value: string,
                        ps: seq<Probe>)
    requires Performed(fate, n, now, dbs, hosts, key, value, ps) && forall i: nat :: !fate(i).fault
    ensures forall i | 0 <= i < |ps| :: !Erred(ps[i])
  {
    forall i | 0 <= i < |ps|
      ensures !Erred(ps[i])
    {
      var j := n + |SentAll(dbs, hosts, key, value, ps[..i])|;
      assert !fate(j).fault && !fate(j + 1).fault && !fate(j + 2).fault;
    }
  }

  /** Host `h` was reached, and every command sent about it was answered. */
  predicate Answered(hosts: seq<nat>, ps: seq<Probe>, h: nat) {
    exists i | 0 <= i < |ps| && i < |hosts| :: hosts[i] == h && !Erred(ps[i])
  }

  /** The release deletes only live keys with its own value. */
  lemma {:induction false} ReleaseRemoves(dbs: Dbs, hosts: seq<nat>, key: string, value: string, ps: seq<Probe>,
                                          k: Slot)
    requires |ps| <= |hosts|
    ensures var r := ReleaseAll(dbs, hosts, key, value, ps);
            && (k in r.dbs ==> k in dbs && r.dbs[k] == dbs[k])
            && (k in dbs && k !in r.dbs ==> k.1 == key && dbs[k].value == value && k.0 in hosts)
    decreases |ps|
  {
    if ps != [] {
      ReleaseRemoves(dbs, hosts, key, value, ps[..|ps| - 1], k);
    }
  }

  /**
    What is left: a key that is live after the release is one of those it should
    have deleted exactly when its host was never reached without an error reply.
   */
  lemma {:induction false} LeftBehind(dbs: Dbs, hosts: seq<nat>, key: string, value: string, ps: seq<Probe>, h: nat,
                                      from: int, now: int)
    requires |ps| <= |hosts| && forall i | 0 <= i < |ps| :: Ordered(ps[i], from, now)
    ensures LiveWith(ReleaseAll(dbs, hosts, key, value, ps).dbs, (h, key), value, now)
            <==> LiveWith(dbs, (h, key), value, now) && !Answered(hosts, ps, h)
    decreases |ps|
  {
    if ps != [] {
      var n := |ps| - 1;
      LeftBehind(dbs, hosts, key, value, ps[..n], h, from, now);
      var r := ReleaseAll(dbs, hosts, key, value, ps[..n]);
      AnsweredNext(hosts, ps, h);
      ReleaseRemoves(dbs, hosts, key, value, ps[..n], (h, key));
      hide Answered, ReleaseAll;
      if LiveWith(r.dbs, (h, key), value, now) {
        DeletesLasting(r.dbs, (h, key), value, ps[n], from, now);
      }
      ReleaseUnfolds(dbs, hosts, key, value, ps);
    }
  }

  lemma ReleaseUnfolds(dbs: Dbs, hosts: seq<nat>, key: string, value: string, ps: seq<Probe>)
    requires 0 < |ps| <= |hosts|
    ensures var r := ReleaseAll(dbs, hosts, key, value, ps[..|ps| - 1]);
            var k := (hosts[|ps| - 1], key);
            ReleaseAll(dbs, hosts, key, value, ps).dbs
            == if Deletes(r.dbs, k, value, ps[|ps| - 1]) then r.dbs - {k} else r.dbs
  {}

  lemma AnsweredNext(hosts: seq<nat>, ps: seq<Probe>, h: nat)
    requires 0 < |ps| <= |hosts|
    ensures var n := |ps| - 1;
            Answered(hosts, ps, h) <==> Answered(hosts, ps[..n], h) || (hosts[n] == h && !Erred(ps[n]))
  {
    var n := |ps| - 1;
    if Answered(hosts, ps[..n], h) {
      var i :| 0 <= i < n && hosts[i] == h && !Erred(ps[..n][i]);
      assert hosts[i] == h && !Erred(ps[i]);
    }
    if Answered(hosts, ps, h) {
      var i :| 0 <= i < |ps| && hosts[i] == h && !Erred(ps[i]);
      assert i < n ==> hosts[i] == h && !Erred(ps[..n][i]);
    }
  }

  /** Release completeness: no key of this client is left on the hosts. */
  predicate Complete(dbs: Dbs, hosts: seq<nat>, key: string, value: string, now: int) {
    forall h | h in hosts :: !LiveWith(dbs, (h, key), value, now)
  }

  /**
    The release is complete if and only if every host whose key of this client
    would still be live was reached and answered without an error.
   */
  lemma ReleaseCompleteness(dbs: Dbs, hosts: seq<nat>, key: string, value: string, ps: seq<Probe>, from: int, now: int)
    requires IsRelease(dbs, hosts, key, value, ps, from, now)
    ensures Complete(ReleaseAll(dbs, hosts, key, value, ps).dbs, hosts, key, value, now)
            <==> forall h | h in hosts && LiveWith(dbs, (h, key), value, now) :: Answered(hosts, ps, h)
  {
    forall h | h in hosts
      ensures LiveWith(ReleaseAll(dbs, hosts, key, value, ps).dbs, (h, key), value, now)
              <==> LiveWith(dbs, (h, key), value, now) && !Answered(hosts, ps, h)
    {
      LeftBehind(dbs, hosts, key, value, ps, h, from, now);
    }
  }

  /** Without error replies a release that reaches its end is complete. */
  lemma ErrorFreeRelease(dbs: Dbs, hosts: seq<nat>, key: string, value: string, ps: seq<Probe>, from: int, now: int)
    requires IsRelease(dbs, hosts, key, value, ps, from, now)
    requires !ReleaseAll(dbs, hosts, key, value, ps).aborted && forall i | 0 <= i < |ps| :: !Erred(ps[i])
    ensures Complete(ReleaseAll(dbs, hosts, key, value, ps).dbs, hosts, key, value, now)
  {
    forall h | h in hosts
      ensures Answered(hosts, ps, h)
    {
      var i :| 0 <= i < |hosts| && hosts[i] == h;
      assert hosts[i] == h && !Erred(ps[i]);
    }
    ReleaseCompleteness(dbs, hosts, key, value, ps, from, now);
  }

  /**
    Why a release stops early: an error reply, or a key that was live when EXISTS
    looked and had expired when GET did.
   */
  lemma AbortCause(dbs: Dbs, hosts: seq<nat>, key: string, value: string, ps: seq<Probe>, from: int, now: int)
    requires IsRelease(dbs, hosts, key, value, ps, from, now)
    ensures ReleaseAll(dbs, hosts, key, value, ps).aborted <==>
              ps != [] && Escapes(ReleaseAll(dbs, hosts, key, value, ps[..|ps| - 1]).dbs, (hosts[|ps| - 1], key), value,
                                  ps[|ps| - 1])
    ensures ReleaseAll(dbs, hosts, key, value, ps).aborted ==>
              var h, p := hosts[|ps| - 1], ps[|ps| - 1];
              Erred(p) || (Live(dbs, (h, key), p.found.at) && !Live(dbs, (h, key), p.read.at))
  {
    if ps != [] {
      var n := |ps| - 1;
      assert !ReleaseAll(dbs, hosts, key, value, ps[..n]).aborted;
      ReleaseRemoves(dbs, hosts, key, value, ps[..n], (hosts[n], key));
      var r := ReleaseAll(dbs, hosts, key, value, ps[..n]);
      if Escapes(r.dbs, (hosts[n], key), value, ps[n]) && !Erred(ps[n]) {
        assert (hosts[n], key) in r.dbs;
      }
    }
  }

  /** Without error replies a release that stops early met a key that expired in the course of it. */
  lemma AbortWithoutErrors(dbs: Dbs, hosts: seq<nat>, key: string, value: string, ps: seq<Probe>, from: int, now: int)
    requires IsRelease(dbs, hosts, key, value, ps, from, now) && forall i | 0 <= i < |ps| :: !Erred(ps[i])
    requires ReleaseAll(dbs, hosts, key, value, ps).aborted
    ensures var end := ReleaseAll(dbs, hosts, key, value, ps).dbs;
            exists h | h in hosts :: (h, key) in end && from < end[(h, key)].expiry <= now
  {
    AbortCause(dbs, hosts, key, value, ps, from, now);
    ReleaseUnfolds(dbs, hosts, key, value, ps);
    var n := |ps| - 1;
    var h, r := hosts[n], ReleaseAll(dbs, hosts, key, value, ps[..n]);
    assert Live(r.dbs, (h, key), ps[n].found.at) && !Live(r.dbs, (h, key), ps[n].read.at);
    assert h in hosts && ReleaseAll(dbs, hosts, key, value, ps).dbs == r.dbs;
  }

  // ----- releases that are not what they seem -----

  const QUICK: Reading := Reading(0, false)

  /**
    No error reply at all: the key of another client on the first host expires
    between EXISTS and GET, and this client's key on the second host stays.
   */
  lemma AbortLeavesKey()
    ensures var dbs := map[(0, "k") := Entry("other", 1), (1, "k") := Entry("mine", 100)];
            var ps := [Probe(QUICK, Reading(1, false), Reading(1, false))];
            && IsRelease(dbs, [0, 1], "k", "mine", ps, 0, 2)
            && ReleaseAll(dbs, [0, 1], "k", "mine", ps).aborted && !Erred(ps[0])
            && !Complete(ReleaseAll(dbs, [0, 1], "k", "mine", ps).dbs, [0, 1], "k", "mine", 2)
  {
    var dbs := map[(0, "k") := Entry("other", 1), (1, "k") := Entry("mine", 100)];
    var ps := [Probe(QUICK, Reading(1, false), Reading(1, false))];
    assert ps[..0] == [];
    assert Live(dbs, (0, "k"), 0) && !Live(dbs, (0, "k"), 1);
    assert Escapes(dbs, (0, "k"), "mine", ps[0]) && !Deletes(dbs, (0, "k"), "mine", ps[0]);
    assert ReleaseAll(dbs, [0, 1], "k", "mine", ps) == Released(dbs, 0, true);
    assert 1 in [0, 1] && LiveWith(dbs, (1, "k"), "mine", 2);
  }

  /** A release that throws may be complete all the same. */
  lemma AbortMayBeComplete()
    ensures var dbs := map[(0, "k") := Entry("mine", 1)];
            var ps := [Probe(QUICK, Reading(1, false), Reading(1, false))];
            && IsRelease(dbs, [0], "k", "mine", ps, 0, 2) && ReleaseAll(dbs, [0], "k", "mine", ps).aborted
            && Complete(ReleaseAll(dbs, [0], "k", "mine", ps).dbs, [0], "k", "mine", 2)
  {
    var dbs := map[(0, "k") := Entry("mine", 1)];
    var ps := [Probe(QUICK, Reading(1, false), Reading(1, false))];
    assert ps[..0] == [];
    assert Escapes(dbs, (0, "k"), "mine", ps[0]) && !Deletes(dbs, (0, "k"), "mine", ps[0]);
    assert ReleaseAll(dbs, [0], "k", "mine", ps) == Released(dbs, 0, true);
  }

  /** An error reply to GET passes for a wrong value: the release reaches its end and leaves the key. */
  lemma QuietErrorLeavesKey()
    ensures var dbs := map[(0, "k") := Entry("mine", 100)];
            var ps := [Probe(QUICK, Reading(0, true), QUICK)];
            && IsRelease(dbs, [0], "k", "mine", ps, 0, 0) && !ReleaseAll(dbs, [0], "k", "mine", ps).aborted
            && !Complete(ReleaseAll(dbs, [0], "k", "mine", ps).dbs, [0], "k", "mine", 0)
  {
    var dbs := map[(0, "k") := Entry("mine", 100)];
    var ps := [Probe(QUICK, Reading(0, true), QUICK)];
    assert ps[..0] == [];
    assert ReleaseAll(dbs, [0], "k", "mine", ps) == Released(dbs, 0, false);
    assert 0 in [0] && LiveWith(dbs, (0, "k"), "mine", 0);
  }

  /** An error reply to DEL escapes, and the key stays. */
  lemma DelErrorAborts()
    ensures var dbs := map[(0, "k") := Entry("mine", 100)];
            var ps := [Probe(QUICK, QUICK, Reading(0, true))];
            && IsRelease(dbs, [0], "k", "mine", ps, 0, 0) && ReleaseAll(dbs, [0], "k", "mine", ps).aborted
            && !Complete(ReleaseAll(dbs, [0], "k", "mine", ps).dbs, [0], "k", "mine", 0)
  {
    var dbs := map[(0, "k") := Entry("mine", 100)];
    var ps := [Probe(QUICK, QUICK, Reading(0, true))];
    assert ps[..0] == [];
    assert ReleaseAll(dbs, [0], "k", "mine", ps) == Released(dbs, 0, true);
    assert 0 in [0] && LiveWith(dbs, (0, "k"), "mine", 0);
  }
}
