/**
  The Redis server as this program uses it, and the set-if-absent,
  compare-and-extend and compare-and-delete built on it.
 */
module RedisStores {
  import opened Text

  type Slot = (nat, string)
  datatype Entry = Entry(value: string, expiry: int)
  type Dbs = map<Slot, Entry>

  predicate Live(dbs: Dbs, k: Slot, now: int) { k in dbs && now < dbs[k].expiry }

  /** Slot `k` holds `value` and does not expire before `until`, unless `until` has passed. */
  predicate Kept(dbs: Dbs, k: Slot, value: string, until: int, now: int) {
    now < until ==> k in dbs && dbs[k].value == value && until <= dbs[k].expiry
  }

  predicate LiveWith(dbs: Dbs, k: Slot, value: string, now: int) { Live(dbs, k, now) && dbs[k].value == value }

  predicate Foreign(dbs: Dbs, k: Slot, value: string, now: int) { Live(dbs, k, now) && dbs[k].value != value }

  datatype DBResult =
    | KeyExist | SetKeySucceed | SetKeyFailed
    | KeyDoesNotExist | KeyValueWrong
    | UpdateKeySucceed | UpdateKeyFailed
    | DelKeySucceed | DelKeyFailed
    | SelectDBSucceed

  /** What a set-if-absent with the expiry `px` did to slot `k`, at the time `now` of the command. */
  predicate SetOutcome(was: Dbs, dbs: Dbs, now: int, k: Slot, value: string, px: int, r: DBResult) {
    match r
    case SetKeySucceed => px > 0 && !Live(was, k, now) && dbs == was[k := Entry(value, now + px)]
    case KeyExist => Live(was, k, now) && dbs == was
    case SetKeyFailed => dbs == was
    case _ => false
  }

  /** What a compare-and-extend did. */
  predicate ExtendOutcome(was: Dbs, dbs: Dbs, now: int, k: Slot, value: string, px: int, r: Option<DBResult>) {
    match r
    case Some(UpdateKeySucceed) =>
      LiveWith(was, k, value, now) && dbs == if px <= 0 then was - {k} else was[k := Entry(value, now + px)]
    case Some(SetKeySucceed) => px > 0 && !Live(was, k, now) && dbs == was[k := Entry(value, now + px)]
    case _ => dbs == was
  }

  datatype SetReply = SetOk | SetNil | SetError

  datatype GetReply = GetText(text: string) | GetNil | GetError

  /** How long a command takes to be served, and whether its reply is an error, which then had no effect. */
  datatype Fate = Fate(delay: nat, fault: bool)

  datatype Op = OpSet | OpExists | OpGet | OpExpire | OpDel

  /** A command in the server's log. */
  datatype Served = Served(op: Op, slot: Slot, at: int, error: bool)

  /**
    The server. Commands of one critical section are never interleaved with those
    of another, but time passes before each of them. The fate of the n-th command
    the server ever serves is settled beforehand.
   */
  class RedisServer {
    const fate: nat -> Fate
    var now: int
    var dbs: Dbs
    var log: seq<Served>

    constructor (now: int, fate: nat -> Fate)
      ensures this.now == now && dbs == map[] && log == [] && this.fate == fate
    {
      this.now, dbs, log, this.fate := now, map[], [], fate;
    }

    method Elapse(atLeast: nat)
      modifies this`now
      ensures now >= old(now) + atLeast
    {
      var extra: int := *;
      now := now + atLeast + if extra < 0 then 0 else extra;
    }

    /** Whether the next command gets an error reply. */
    predicate NextFails()
      reads this
    {
      fate(|log|).fault
    }

    /** SET key value PX px NX. An error reply has no effect and takes one millisecond more. */
    method SetNxPx(k: Slot, value: string, px: int) returns (reply: SetReply)
      modifies this
      ensures var error := old(NextFails()) || px <= 0;
              && now == old(now + fate(|log|).delay) + (if error then 1 else 0)
              && log == old(log) + [Served(OpSet, k, now, error)]
              && reply == if error then SetError else if Live(old(dbs), k, now) then SetNil else SetOk
      ensures dbs == if reply == SetOk then old(dbs)[k := Entry(value, now + px)] else old(dbs)
    {
      var refused := px <= 0 || fate(|log|).fault;
      now := now + fate(|log|).delay + if refused then 1 else 0;
      log := log + [Served(OpSet, k, now, refused)];
      if refused { return SetError; }
      if k in dbs && now < dbs[k].expiry { return SetNil; }
      dbs := dbs[k := Entry(value, now + px)];
      return SetOk;
    }

    /** EXISTS; a reply of None is an error reply. */
    method Exists(k: Slot) returns (flag: Option<int>)
      modifies this`now, this`log
      ensures now == old(now + fate(|log|).delay) && log == old(log) + [Served(OpExists, k, now, old(NextFails()))]
      ensures flag == if old(NextFails()) then None else Some(if Live(dbs, k, now) then 1 else 0)
    {
      var refused := fate(|log|).fault;
      now := now + fate(|log|).delay;
      log := log + [Served(OpExists, k, now, refused)];
      if refused { return None; }
      flag := Some(if k in dbs && now < dbs[k].expiry then 1 else 0);
    }

    method Get(k: Slot) returns (reply: GetReply)
      modifies this`now, this`log
      ensures now == old(now + fate(|log|).delay) && log == old(log) + [Served(OpGet, k, now, old(NextFails()))]
      ensures reply == if old(NextFails()) then GetError
                       else if Live(dbs, k, now) then GetText(dbs[k].value) else GetNil
    {
      var refused := fate(|log|).fault;
      now := now + fate(|log|).delay;
      log := log + [Served(OpGet, k, now, refused)];
      if refused { return GetError; }
      reply := if k in dbs && now < dbs[k].expiry then GetText(dbs[k].value) else GetNil;
    }

    /** PEXPIRE; a time that is not positive deletes the key. */
    method PExpire(k: Slot, px: int) returns (flag: Option<int>)
      modifies this
      ensures now == old(now + fate(|log|).delay) && log == old(log) + [Served(OpExpire, k, now, old(NextFails()))]
      ensures flag == if old(NextFails()) then None else Some(if Live(old(dbs), k, now) then 1 else 0)
      ensures dbs == if flag != Some(1) then old(dbs)
                     else if px <= 0 then old(dbs) - {k}
                     else old(dbs)[k := Entry(old(dbs)[k].value, now + px)]
    {
      var refused := fate(|log|).fault;
      now := now + fate(|log|).delay;
      log := log + [Served(OpExpire, k, now, refused)];
      if refused { return None; }
      if k !in dbs || dbs[k].expiry <= now { return Some(0); }
      dbs := if px <= 0 then dbs - {k} else dbs[k := Entry(dbs[k].value, now + px)];
      return Some(1);
    }

    method Del(k: Slot) returns (flag: Option<int>)
      modifies this
      ensures now == old(now + fate(|log|).delay) && log == old(log) + [Served(OpDel, k, now, old(NextFails()))]
      ensures flag == if old(NextFails()) then None else Some(if Live(old(dbs), k, now) then 1 else 0)
      ensures dbs == if flag == Some(1) then old(dbs) - {k} else old(dbs)
    {
      var refused := fate(|log|).fault;
      now := now + fate(|log|).delay;
      log := log + [Served(OpDel, k, now, refused)];
      if refused { return None; }
      if k !in dbs || dbs[k].expiry <= now { return Some(0); }
      dbs := dbs - {k};
      return Some(1);
    }
  }

  // ----- compare and delete, as a function of when each command ran and which ones failed -----

  /** When a command reached the server, and whether its reply was an error. */
  datatype Reading = Reading(at: int, error: bool)

  /** The EXISTS, the GET and the write of one compare-and-write; commands not sent count as sent at once. */
  datatype Probe = Probe(found: Reading, read: Reading, write: Reading)

  predicate Ordered(p: Probe, from: int, to: int) { from <= p.found.at <= p.read.at <= p.write.at <= to }

  predicate Erred(p: Probe) { p.found.error || p.read.error || p.write.error }

  /**
    When a `redis_error` escapes: an error reply to EXISTS or to the write is not an
    integer, and the null reply of a key that expired before GET is not a string.
   */
  predicate Escapes(dbs: Dbs, k: Slot, value: string, p: Probe) {
    || p.found.error
    || (Live(dbs, k, p.found.at) && !p.read.error
        && (!Live(dbs, k, p.read.at) || (dbs[k].value == value && p.write.error)))
  }

  /** Whether the key is deleted. An error reply to GET is a string, but not this value. */
  predicate Deletes(dbs: Dbs, k: Slot, value: string, p: Probe) {
    !Erred(p) && LiveWith(dbs, k, value, p.write.at)
  }

  /** Whether EXISTS found the key, so that GET is sent. */
  predicate Found(dbs: Dbs, k: Slot, p: Probe) { !p.found.error && Live(dbs, k, p.found.at) }

  /** Whether GET read the value, so that the write is sent. */
  predicate ReadOwn(dbs: Dbs, k: Slot, value: string, p: Probe) {
    Found(dbs, k, p) && !p.read.error && LiveWith(dbs, k, value, p.read.at)
  }

  /** When the commands of a compare-and-write that starts at `now` with the server's n-th command are served. */
  function ProbeAt(fate: nat -> Fate, n: nat, now: int, dbs: Dbs, k: Slot, value: string): Probe {
    var found := Reading(now + fate(n).delay, fate(n).fault);
    var unread := Probe(found, Reading(found.at, false), Reading(found.at, false));
    if !Found(dbs, k, unread) then unread
    else
      var read := Reading(found.at + fate(n + 1).delay, fate(n + 1).fault);
      var unwritten := Probe(found, read, Reading(read.at, false));
      if !ReadOwn(dbs, k, value, unwritten) then unwritten
      else Probe(found, read, Reading(read.at + fate(n + 2).delay, fate(n + 2).fault))
  }

  /** The commands it sends. */
  function Sent(dbs: Dbs, k: Slot, value: string, p: Probe, op: Op): seq<Served> {
    [Served(OpExists, k, p.found.at, p.found.error)]
    + (if Found(dbs, k, p) then [Served(OpGet, k, p.read.at, p.read.error)] else [])
    + (if ReadOwn(dbs, k, value, p) then [Served(op, k, p.write.at, p.write.error)] else [])
  }

  /** A key that is still live in the end was live at every reading. */
  lemma DeletesLasting(dbs: Dbs, k: Slot, value: string, p: Probe, from: int, to: int)
    requires Ordered(p, from, to) && LiveWith(dbs, k, value, to)
    ensures Deletes(dbs, k, value, p) <==> !Erred(p)
  {}

  /** Every slot but `k`, and `k` itself when a live value other than `value` is in it, is as before. */
  predicate OthersKept(was: Dbs, dbs: Dbs, k: Slot, value: string, now: int) {
    && was - {k} == dbs - {k}
    && (Foreign(was, k, value, now) ==> k in dbs && dbs[k] == was[k])
  }

  /**
    The client of the server. A result of None is a `redis_error` that escaped.
   */
  class DBRedis {
    const server: RedisServer
    var selected: nat
    /** Every SET of this connection, and every compare-and-extend, with its slot and its outcome. */
    ghost var sets: seq<(Slot, DBResult)>
    ghost var extensions: seq<(Slot, Option<DBResult>)>

    constructor (server: RedisServer)
      ensures this.server == server && sets == [] && extensions == []
    {
      this.server, selected, sets, extensions := server, 0, [], [];
    }

    method SelectDB(index: nat) returns (r: DBResult)
      modifies this`selected
      ensures r == SelectDBSucceed && selected == index
    {
      selected := index;
      return SelectDBSucceed;
    }

    /** One SET, which fails exactly on an error reply; the server refuses an expiry that is not positive. */
    method SetKeyValue(key: string, value: string, expire: int) returns (r: DBResult)
      modifies server, this`sets
      ensures sets == old(sets) + [((selected, key), r)]
      ensures server.now >= old(server.now) && (r == SetKeyFailed ==> server.now > old(server.now))
      ensures server.log == old(server.log) + [Served(OpSet, (selected, key), server.now, r == SetKeyFailed)]
      ensures r == if old(server.NextFails()) || ToInt32(expire) <= 0 then SetKeyFailed
                   else if Live(old(server.dbs), (selected, key), server.now) then KeyExist
                   else SetKeySucceed
      ensures server.dbs == if r == SetKeySucceed
                            then old(server.dbs)[(selected, key) := Entry(value, server.now + ToInt32(expire))]
                            else old(server.dbs)
      ensures OthersKept(old(server.dbs), server.dbs, (selected, key), value, server.now)
    {
      var reply := server.SetNxPx((selected, key), value, ToInt32(expire));
      if reply == SetNil {
        r := KeyExist;
      } else if reply == SetOk {
        r := SetKeySucceed;
      } else {
        r := SetKeyFailed;
      }
      sets := sets + [((selected, key), r)];
    }

    /** The readings of a compare-and-write that starts now. */
    ghost function NextProbe(key: string, value: string): Probe
      reads this, server
    {
      ProbeAt(server.fate, |server.log|, server.now, server.dbs, (selected, key), value)
    }

    /**
      Extends the key if it holds `value`, and sets it if it is absent. Without error
      replies the outcome is certain for a key that outlives the call and for one
      that is absent.
     */
    method UpdateExpire(key: string, value: string, expire: int) returns (r: Option<DBResult>)
      modifies server, this`sets, this`extensions
      ensures var p, k := old(NextProbe(key, value)), (selected, key);
              && Ordered(p, old(server.now), server.now) && old(sets) <= sets
              && old(server.log) + Sent(old(server.dbs), k, value, p, OpExpire) <= server.log
              && (r == None <==>
                    || p.found.error
                    || (Found(old(server.dbs), k, p) && !p.read.error && !Live(old(server.dbs), k, p.read.at))
                    || (ReadOwn(old(server.dbs), k, value, p) && p.write.error))
              && (LiveWith(old(server.dbs), k, value, server.now) && !Erred(p) ==> r == Some(UpdateKeySucceed))
              && (Foreign(old(server.dbs), k, value, server.now) && !Erred(p) ==> r == Some(KeyValueWrong))
              && (!p.found.error && !Live(old(server.dbs), k, p.found.at) ==>
                    r == if server.fate(old(|server.log|) + 1).fault || ToInt32(expire) <= 0
                         then Some(SetKeyFailed) else Some(SetKeySucceed))
              && (r == Some(KeyValueWrong) ==> p.read.error || (k in server.dbs && server.dbs[k].value != value))
      ensures extensions == old(extensions) + [((selected, key), r)]
      ensures OthersKept(old(server.dbs), server.dbs, (selected, key), value, server.now)
      ensures r == Some(UpdateKeySucceed) ==>
                && LiveWith(old(server.dbs), (selected, key), value, server.now)
                && server.dbs == if ToInt32(expire) <= 0 then old(server.dbs) - {(selected, key)}
                                 else old(server.dbs)[(selected, key) := Entry(value, server.now + ToInt32(expire))]
      ensures r == Some(SetKeySucceed) ==>
                && ToInt32(expire) > 0 && !Live(old(server.dbs), (selected, key), server.now)
                && server.dbs == old(server.dbs)[(selected, key) := Entry(value, server.now + ToInt32(expire))]
      ensures r != Some(UpdateKeySucceed) && r != Some(SetKeySucceed) ==> server.dbs == old(server.dbs)
    {
      r := CompareAndExtend(key, value, expire);
      extensions := extensions + [((selected, key), r)];
    }

    method CompareAndExtend(key: string, value: string, expire: int) returns (r: Option<DBResult>)
      modifies server, this`sets
      ensures var p, k := old(NextProbe(key, value)), (selected, key);
              && Ordered(p, old(server.now), server.now) && old(sets) <= sets
              && old(server.log) + Sent(old(server.dbs), k, value, p, OpExpire) <= server.log
              && (r == None <==> Escapes(old(server.dbs), k, value, p))
              && (r == Some(UpdateKeySucceed) <==> Deletes(old(server.dbs), k, value, p))
              && (r == Some(UpdateKeyFailed) ==> !Live(old(server.dbs), k, server.now))
              && (Foreign(old(server.dbs), k, value, server.now) && !Erred(p) ==> r == Some(KeyValueWrong))
              && (!p.found.error && !Live(old(server.dbs), k, p.found.at) ==>
                    r == if server.fate(old(|server.log|) + 1).fault || ToInt32(expire) <= 0
                         then Some(SetKeyFailed) else Some(SetKeySucceed))
              && (r == Some(KeyValueWrong) ==> p.read.error || (k in server.dbs && server.dbs[k].value != value))
              && (r == Some(UpdateKeySucceed) ==> server.now == p.write.at)
      ensures OthersKept(old(server.dbs), server.dbs, (selected, key), value, server.now)
      ensures r == Some(UpdateKeySucceed) ==>
                server.dbs == if ToInt32(expire) <= 0 then old(server.dbs) - {(selected, key)}
                              else old(server.dbs)[(selected, key) := Entry(value, server.now + ToInt32(expire))]
      ensures r == Some(SetKeySucceed) ==>
                && ToInt32(expire) > 0 && !Live(old(server.dbs), (selected, key), server.now)
                && server.dbs == old(server.dbs)[(selected, key) := Entry(value, server.now + ToInt32(expire))]
      ensures r != Some(UpdateKeySucceed) && r != Some(SetKeySucceed) ==> server.dbs == old(server.dbs)
    {
      var flag := server.Exists((selected, key));
      if flag.None? { return None; }
      if flag == Some(0) {
        var s := SetKeyValue(key, value, expire);
        return Some(s);
      }
      var current := server.Get((selected, key));
      if current.GetNil? { return None; }
      if current.GetError? || current.text != value { return Some(KeyValueWrong); }
      flag := server.PExpire((selected, key), ToInt32(expire));
      r := if flag.None? then None else Some(if flag == Some(0) then UpdateKeyFailed else UpdateKeySucceed);
    }

    /** Deletes the key if it holds `value`. */
    method DelKeyValue(key: string, value: string) returns (r: Option<DBResult>)
      modifies server
      ensures var p, k := old(NextProbe(key, value)), (selected, key);
              && Ordered(p, old(server.now), server.now) && p.write.at == server.now
              && server.log == old(server.log) + Sent(old(server.dbs), k, value, p, OpDel)
              && (r == None <==>
                    || p.found.error
                    || (Found(old(server.dbs), k, p) && !p.read.error && !Live(old(server.dbs), k, p.read.at))
                    || (ReadOwn(old(server.dbs), k, value, p) && p.write.error))
              && (r == Some(DelKeySucceed) <==> !Erred(p) && LiveWith(old(server.dbs), k, value, server.now))
              && (LiveWith(server.dbs, k, value, server.now) ==> Erred(p))
              && (r.Some? && !p.read.error ==> !LiveWith(server.dbs, k, value, server.now))
              && (Foreign(old(server.dbs), k, value, server.now) && !Erred(p) ==> r == Some(KeyValueWrong))
              && (!Live(old(server.dbs), k, old(server.now)) && !Erred(p) ==> r == Some(KeyDoesNotExist))
      ensures OthersKept(old(server.dbs), server.dbs, (selected, key), value, server.now)
      ensures server.dbs == if r == Some(DelKeySucceed) then old(server.dbs) - {(selected, key)} else old(server.dbs)
    {
      var flag := server.Exists((selected, key));
      if flag.None? { return None; }
      if flag == Some(0) { return Some(KeyDoesNotExist); }
      var current := server.Get((selected, key));
      if current.GetNil? { return None; }
      if current.GetError? || current.text != value { return Some(KeyValueWrong); }
      flag := server.Del((selected, key));
      r := if flag.None? then None else Some(if flag == Some(0) then DelKeyFailed else DelKeySucceed);
    }
  }
}
