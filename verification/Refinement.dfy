/**
  What the critical sections of the lock object do to the real key space is what
  the steps of the lock protocol do to its store.
 */
module Refinement {
  import opened Text
  import opened RedisStores
  import opened Releases
  import R = Redlock

  /** Which client a stored value belongs to. */
  type Owner = string -> R.Client

  /** The protocol's store: the slots of one key, each with its owner. */
  ghost function Abstract(dbs: Dbs, key: string, owner: Owner): map<R.Host, R.Entry> {
    map k | k in dbs && k.1 == key :: k.0 := R.Entry(owner(dbs[k].value), dbs[k].expiry)
  }

  ghost function StateOf(dbs: Dbs, now: int, key: string, owner: Owner): R.State {
    R.State(now, Abstract(dbs, key, owner), map[])
  }

  lemma AbstractAt(dbs: Dbs, key: string, owner: Owner, h: nat)
    ensures h in Abstract(dbs, key, owner) <==> (h, key) in dbs
    ensures (h, key) in dbs ==>
              Abstract(dbs, key, owner)[h] == R.Entry(owner(dbs[(h, key)].value), dbs[(h, key)].expiry)
  {
    if (h, key) in dbs { assert (h, key).0 == h; }
  }

  lemma DropAbstract(dbs: Dbs, key: string, owner: Owner, h: nat)
    ensures Abstract(dbs - {(h, key)}, key, owner) == Abstract(dbs, key, owner) - {h}
  {
    var dbs' := dbs - {(h, key)};
    forall i: nat
      ensures i in Abstract(dbs', key, owner) <==> i != h && i in Abstract(dbs, key, owner)
      ensures i in Abstract(dbs', key, owner) ==> Abstract(dbs', key, owner)[i] == Abstract(dbs, key, owner)[i]
    {
      AbstractAt(dbs, key, owner, i);
      AbstractAt(dbs', key, owner, i);
    }
  }

  /** `value` is this client's and nobody else's. */
  ghost predicate OwnValue(owner: Owner, value: string, c: R.Client) {
    forall v :: owner(v) == c <==> v == value
  }

  lemma PutAbstract(dbs: Dbs, key: string, owner: Owner, h: nat, e: Entry)
    ensures Abstract(dbs[(h, key) := e], key, owner)
            == Abstract(dbs, key, owner)[h := R.Entry(owner(e.value), e.expiry)]
  {
    var dbs' := dbs[(h, key) := e];
    forall i: nat
      ensures i in Abstract(dbs', key, owner) <==> i == h || i in Abstract(dbs, key, owner)
      ensures i in Abstract(dbs', key, owner) && i != h ==>
                Abstract(dbs', key, owner)[i] == Abstract(dbs, key, owner)[i]
    {
      AbstractAt(dbs, key, owner, i);
      AbstractAt(dbs', key, owner, i);
    }
    AbstractAt(dbs', key, owner, h);
  }

  lemma LiveAbstract(dbs: Dbs, now: int, key: string, owner: Owner, h: nat)
    ensures R.Live(StateOf(dbs, now, key, owner), h) <==> Live(dbs, (h, key), now)
    ensures Live(dbs, (h, key), now) ==>
              StateOf(dbs, now, key, owner).store[h].owner == owner(dbs[(h, key)].value)
  {
    AbstractAt(dbs, key, owner, h);
  }

  /** Writing the client's own entry is what SET NX PX and PEXPIRE do in the protocol. */
  lemma WriteMatches(g: R.Config, c: R.Client, dbs: Dbs, now: int, key: string, value: string, h: nat, owner: Owner)
    requires c in g.validity && OwnValue(owner, value, c) && R.Px(g, c) > 0
    requires Live(dbs, (h, key), now) ==> dbs[(h, key)].value == value
    ensures var s := StateOf(dbs, now, key, owner);
            var store := Abstract(dbs[(h, key) := Entry(value, now + R.Px(g, c))], key, owner);
            store == R.Extend(g, s, c, h).store && (!Live(dbs, (h, key), now) ==> store == R.SetNx(g, s, c, h).store)
  {
    LiveAbstract(dbs, now, key, owner, h);
    PutAbstract(dbs, key, owner, h, Entry(value, now + R.Px(g, c)));
    hide Abstract;
  }

  /** SetKeyValue is SET NX PX of the protocol, or an error without effect. */
  method SetSection(db: DBRedis, g: R.Config, c: R.Client, key: string, value: string, h: nat, ghost owner: Owner)
      returns (r: DBResult)
    requires c in g.validity && OwnValue(owner, value, c)
    modifies db, db.server
    ensures var s := StateOf(old(db.server.dbs), db.server.now, key, owner);
            && (r == SetKeySucceed ==> !R.Live(s, h) && R.Px(g, c) > 0)
            && (r == KeyExist ==> R.Live(s, h))
            && (r == SetKeySucceed ==> Abstract(db.server.dbs, key, owner) == R.SetNx(g, s, c, h).store)
            && (r != SetKeySucceed ==> db.server.dbs == old(db.server.dbs))
  {
    hide Abstract, R.Extend, R.SetNx;
    var _ := db.SelectDB(h);
    r := db.SetKeyValue(key, value, g.validity[c]);
    ghost var was, now := old(db.server.dbs), db.server.now;
    LiveAbstract(was, now, key, owner, h);
    if r == SetKeySucceed { WriteMatches(g, c, was, now, key, value, h, owner); }
  }

  /** UpdateExpire is the extension of the protocol, or has no effect. */
  method ExtendSection(db: DBRedis, g: R.Config, c: R.Client, key: string, value: string, h: nat, ghost owner: Owner)
      returns (r: Option<DBResult>)
    requires c in g.validity && OwnValue(owner, value, c) && R.Px(g, c) > 0
    modifies db, db.server
    ensures var s := StateOf(old(db.server.dbs), db.server.now, key, owner);
            && (r == Some(UpdateKeySucceed) ==> R.Mine(s, c, h))
            && (r == Some(UpdateKeySucceed) || r == Some(SetKeySucceed) ==>
                  Abstract(db.server.dbs, key, owner) == R.Extend(g, s, c, h).store)
            && (r != Some(UpdateKeySucceed) && r != Some(SetKeySucceed) ==> db.server.dbs == old(db.server.dbs))
  {
    hide Abstract, R.Extend, R.SetNx;
    var _ := db.SelectDB(h);
    r := db.UpdateExpire(key, value, g.validity[c]);
    LiveAbstract(old(db.server.dbs), db.server.now, key, owner, h);
    if r == Some(UpdateKeySucceed) || r == Some(SetKeySucceed) {
      WriteMatches(g, c, old(db.server.dbs), db.server.now, key, value, h, owner);
    }
  }

  /**
    DelKeyValue removes a live key of the client, as the release of the protocol
    does on every host, and nothing else.
   */
  method DeleteSection(db: DBRedis, g: R.Config, c: R.Client, key: string, value: string, h: nat, ghost owner: Owner)
      returns (r: Option<DBResult>)
    requires OwnValue(owner, value, c)
    modifies db, db.server
    ensures var s := StateOf(old(db.server.dbs), db.server.now, key, owner);
            && (!Erred(old(ProbeAt(db.server.fate, |db.server.log|, db.server.now, db.server.dbs, (h, key), value))) ==>
                  (r == Some(DelKeySucceed) <==> R.Mine(s, c, h)))
            && Abstract(db.server.dbs, key, owner) ==
               if r == Some(DelKeySucceed) then Abstract(old(db.server.dbs), key, owner) - {h}
               else Abstract(old(db.server.dbs), key, owner)
  {
    hide Abstract, ProbeAt, Sent;
    var _ := db.SelectDB(h);
    r := db.DelKeyValue(key, value);
    ghost var was, dbs := old(db.server.dbs), db.server.dbs;
    AbstractAt(was, key, owner, h);
    AbstractAt(dbs, key, owner, h);
    if r == Some(DelKeySucceed) { DropAbstract(was, key, owner, h); }
  }

  /** The hosts on which a release had every command answered. */
  ghost function AnsweredHosts(hosts: seq<nat>, ps: seq<Probe>): set<nat> {
    set h | h in hosts && Answered(hosts, ps, h)
  }

  /**
    A whole release, aborted or not, is the unlock of the protocol on the hosts
    that answered, as far as any live key is concerned.
   */
  lemma UnlockMatches(c: R.Client, dbs: Dbs, hosts: seq<nat>, key: string, value: string, ps: seq<Probe>,
                      from: int, now: int, h: nat, owner: Owner)
    requires OwnValue(owner, value, c) && IsRelease(dbs, hosts, key, value, ps, from, now)
    ensures var end := StateOf(ReleaseAll(dbs, hosts, key, value, ps).dbs, now, key, owner);
            var unlocked := R.Release(StateOf(dbs, now, key, owner), c, AnsweredHosts(hosts, ps));
            && (R.Live(end, h) <==> R.Live(unlocked, h))
            && (R.Live(end, h) ==> end.store[h] == unlocked.store[h])
  {
    var after := ReleaseAll(dbs, hosts, key, value, ps).dbs;
    AbstractAt(dbs, key, owner, h);
    AbstractAt(after, key, owner, h);
    ReleaseRemoves(dbs, hosts, key, value, ps, (h, key));
    LeftBehind(dbs, hosts, key, value, ps, h, from, now);
    assert Answered(hosts, ps, h) ==> h in hosts;
    hide ReleaseAll, Answered, IsRelease, Abstract;
  }
}
