/** The client object on one connection: a callback queue in lockstep with the bytes. */
module Clients {
  import opened Text
  import opened Resp
  import opened Encoding
  import opened RedisConnections
  import D = Decoder
  import P = ClientPipelines

  /** Callbacks matched with replies, in order, as long as both last. */
  function Matched(callbacks: seq<nat>, replies: seq<Reply>): seq<(nat, Reply)> {
    if callbacks == [] || replies == [] then []
    else [(callbacks[0], replies[0])] + Matched(callbacks[1..], replies[1..])
  }

  lemma MatchedOne(callbacks: seq<nat>, reply: Reply)
    ensures Matched(callbacks, [reply]) == if callbacks == [] then [] else [(callbacks[0], reply)]
  {
    assert [reply][1..] == [];
  }

  lemma MatchedNothing(callbacks: seq<nat>)
    ensures Matched(callbacks, []) == []
  {}

  lemma {:induction false} MatchedAppend(callbacks: seq<nat>, a: seq<Reply>, b: seq<Reply>)
    ensures var left := if |a| <= |callbacks| then callbacks[|a|..] else [];
            Matched(callbacks, a + b) == Matched(callbacks, a) + Matched(left, b)
    decreases a
  {
    if a == [] {
      assert a + b == b && callbacks[0..] == callbacks;
    } else if callbacks != [] {
      assert (a + b)[1..] == a[1..] + b;
      MatchedAppend(callbacks[1..], a[1..], b);
    }
  }

  /** One more reply takes the callback at the head of what is left. */
  lemma MatchedNext(callbacks: seq<nat>, replies: seq<Reply>, i: nat)
    requires i < |replies|
    ensures var left := if i <= |callbacks| then callbacks[i..] else [];
            && Matched(callbacks, replies[..i + 1]) == Matched(callbacks, replies[..i]) + Matched(left, [replies[i]])
            && (if i + 1 <= |callbacks| then callbacks[i + 1..] else []) == if left == [] then [] else left[1..]
  {
    assert replies[..i + 1] == replies[..i] + [replies[i]];
    MatchedAppend(callbacks, replies[..i], [replies[i]]);
  }

  class Client {
    const connection: RedisConnection
    /** The callbacks still queued. */
    var commands: seq<nat>
    var callbacksRunning: int
    /** The callback in progress, if there is one. */
    var current: Option<P.Current>
    /** Callbacks that have returned, with the reply each was given. */
    var completed: seq<(nat, Reply)>
    /** The callback of every command ever sent. */
    ghost var callbacks: seq<nat>

    ghost function Queue(): P.Callbacks
      reads this
    {
      P.Callbacks(commands, callbacksRunning, current, completed)
    }

    /** The callback taken from the queue that has not returned yet. */
    ghost function Unreturned(): seq<nat>
      reads this
    {
      if current.Some? && !current.value.returned && current.value.command.Some? then [current.value.command.value]
      else []
    }

    /** The queue holds the callbacks of exactly the commands not taken yet, oldest first. */
    ghost predicate InStep()
      reads this
    {
      && callbacksRunning == (if current.Some? then 1 else 0)
      && |completed| + |Unreturned()| + |commands| == |callbacks|
      && (forall i | 0 <= i < |commands| :: commands[i] == callbacks[|completed| + |Unreturned()| + i])
      && (forall i | 0 <= i < |Unreturned()| :: Unreturned()[i] == callbacks[|completed| + i])
      && (forall i | 0 <= i < |completed| :: completed[i].0 == callbacks[i])
    }

    ghost predicate Valid()
      reads this, connection, connection.Repr
    {
      connection.Valid() && this !in connection.Repr && InStep() && |callbacks| == |connection.sent|
    }

    constructor ()
      ensures Valid() && fresh(connection) && fresh(connection.Repr)
      ensures Queue() == P.START.queue && connection.sent == [] && connection.Model() == RECEIVER_START
    {
      connection := new RedisConnection();
      commands, callbacksRunning, current, completed, callbacks := [], 0, None, [], [];
    }

    method Send(cmd: Command, callback: nat)
      requires Valid()
      modifies this, connection
      ensures Valid() && connection.sent == old(connection.sent) + [cmd] && callbacks == old(callbacks) + [callback]
      ensures Queue() == old(Queue()).(commands := old(commands) + [callback])
      ensures connection.buffer == old(connection.buffer) + Encode(CommandReply(cmd))
    {
      connection.Send(cmd);
      commands := commands + [callback];
      callbacks := callbacks + [callback];
    }

    method Commit()
      requires Valid()
      modifies connection
      ensures Valid() && connection.buffer == "" && D.Concat(connection.written) == PipelineText(connection.sent)
    {
      connection.Commit();
    }

    /** The first section of the handler: the oldest callback, if there is one, leaves the queue. */
    method BeginCallback(reply: Reply)
      requires InStep() && current.None?
      modifies `callbacksRunning, `commands, `current
      ensures InStep() && Queue() == P.TakeCallback(old(Queue()), reply)
    {
      callbacksRunning := callbacksRunning + 1;
      var callback: Option<nat> := None;
      if |commands| > 0 {
        callback := Some(commands[0]);
        commands := commands[1..];
      }
      current := Some(P.Current(callback, reply, false));
    }

    /** Between the sections, without the mutex: the callback runs and returns. */
    method RunCallback()
      requires InStep() && current.Some? && !current.value.returned
      modifies `current, `completed
      ensures InStep() && Queue() == P.ReturnCallback(old(Queue()))
    {
      var callback := current.value.command;
      assert callback.Some? ==> Unreturned()[0] == callback.value;
      current := Some(current.value.(returned := true));
      completed := completed + if callback.Some? then [(callback.value, current.value.reply)] else [];
    }

    /** The last section, after which waiting threads are notified. */
    method EndCallback()
      requires InStep() && current.Some? && current.value.returned
      modifies `callbacksRunning, `current
      ensures InStep()
      ensures Queue() == old(Queue()).(callbacksRunning := old(callbacksRunning) - 1, current := None)
    {
      callbacksRunning := callbacksRunning - 1;
      current := None;
    }

    /** One reply: the oldest callback is taken from the queue and run; without one the reply is dropped. */
    method ConnectionReceiveHandler(reply: Reply)
      requires InStep() && current.None?
      modifies `callbacksRunning, `commands, `current, `completed
      ensures InStep() && current.None?
      ensures completed == old(completed) + Matched(old(commands), [reply])
      ensures commands == if old(commands) == [] then [] else old(commands)[1..]
    {
      BeginCallback(reply);
      RunCallback();
      EndCallback();
      MatchedOne(old(commands), reply);
    }

    /** One packet: every reply it completes is matched with the next callback. */
    method ReceivePacket(chunk: string)
      requires Valid() && connection.reading && current.None?
      modifies this, connection.Repr
      ensures Valid() && current.None?
      ensures connection.delivered == Receive(old(connection.Model()), chunk).delivered
      ensures var replies := connection.delivered[|old(connection.delivered)|..];
              && completed == old(completed) + Matched(old(commands), replies)
              && commands == if |replies| <= |old(commands)| then old(commands)[|replies|..] else []
      ensures connection.sent == old(connection.sent)
    {
      var n := |connection.delivered|;
      connection.TcpClientReceiveHandler(chunk);
      RunCallbacks(connection.delivered[n..]);
    }

    method RunCallbacks(replies: seq<Reply>)
      requires InStep() && current.None?
      modifies `callbacksRunning, `commands, `current, `completed
      ensures InStep() && current.None?
      ensures completed == old(completed) + Matched(old(commands), replies)
      ensures commands == if |replies| <= |old(commands)| then old(commands)[|replies|..] else []
    {
      hide Matched, InStep;
      assert Matched(commands, replies[..0]) == [] by { assert replies[..0] == []; MatchedNothing(commands); }
      for i := 0 to |replies|
        invariant InStep() && current.None?
        invariant completed == old(completed) + Matched(old(commands), replies[..i])
        invariant commands == if i <= |old(commands)| then old(commands)[i..] else []
      {
        ConnectionReceiveHandler(replies[i]);
        MatchedNext(old(commands), replies, i);
      }
      assert replies[..|replies|] == replies;
    }

    /**
      The condition `sync_commit` waits for, also while a callback is in progress:
      every command sent has had its callback completed and no handler is between
      its sections.
     */
    method AllCallbacksDone() returns (done: bool)
      requires Valid()
      ensures done <==> |completed| == |connection.sent| && current.None?
    {
      done := callbacksRunning == 0 && commands == [];
    }
  }
}
