/**
  A client, its connection and an in-order server, end to end: bytes out, bytes
  back, and one callback per command. A step is one piece of work between two
  points at which another thread may run.
 */
module ClientPipelines {
  import opened Text
  import opened Resp
  import opened Grammar
  import opened Encoding
  import opened RedisConnections
  import D = Decoder

  /** A callback taken from the queue: the index of its command, its reply, and whether it has returned. */
  datatype Current = Current(command: Option<nat>, reply: Reply, returned: bool)

  /** What the server answers to its latest request, given all requests so far: any text of one reply. */
  type Server = seq<Reply> -> Wire

  /**
    `written` are the commands handed to the socket and `buffered` those still in
    the send buffer. `sending`: a thread is inside `send`, holding the callback
    mutex, between appending the bytes and queueing the callback.
   */
  datatype Sender = Sender(written: seq<Command>, buffered: seq<Command>, sending: bool)

  /** The reads of the server and what it has answered. */
  datatype Peer = Peer(serverChunks: seq<string>, answers: seq<Wire>)

  /** The reads of the client, and the replies of the latest one not handed over yet. */
  datatype Reader = Reader(chunks: seq<string>, receiver: Receiver, draining: seq<Reply>)

  /** The queue of callbacks, the one in progress, and those that have returned. */
  datatype Callbacks = Callbacks(
    commands: seq<nat>, callbacksRunning: int, current: Option<Current>, completed: seq<(nat, Reply)>)

  datatype Pipeline = Pipeline(out: Sender, peer: Peer, input: Reader, queue: Callbacks)

  const START: Pipeline :=
    Pipeline(Sender([], [], false), Peer([], []), Reader([], RECEIVER_START, []), Callbacks([], 0, None, []))

  datatype Action =
    | SendAppend(cmd: Command)
    | SendPush
    | Commit
    | ServerRead(chunk: string)
    | ServerAnswer
    | ClientRead(chunk: string)
    | HandlerBegin
    | HandlerCallback
    | HandlerEnd
    | SyncReturn

  /** Every command sent so far. */
  function Sent(p: Pipeline): seq<Command> { p.out.written + p.out.buffered }

  /** What the server answers to request number `i`, having seen the requests up to it. */
  function AnswerTo(serve: Server, requests: seq<Reply>, i: nat): Wire
    requires i < |requests|
  {
    serve(requests[..i + 1])
  }

  /** The requests the server has decoded. */
  function Requests(p: Pipeline): seq<Reply> { D.FeedAll(D.START, p.peer.serverChunks).replies }

  predicate CanDo(p: Pipeline, serve: Server, a: Action) {
    match a
    case SendAppend(cmd) => !p.out.sending && Fits(cmd)
    case SendPush => p.out.sending
    case Commit => true
    case ServerRead(chunk) => D.Concat(p.peer.serverChunks + [chunk]) <= PipelineText(p.out.written)
    case ServerAnswer => |p.peer.answers| < |Requests(p)| && WellFormed(AnswerTo(serve, Requests(p), |p.peer.answers|))
    case ClientRead(chunk) =>
      p.input.draining == [] && p.queue.current.None? && p.input.receiver.decoder.Live?
      && D.Concat(p.input.chunks + [chunk]) <= TextAll(p.peer.answers)
    case HandlerBegin => !p.out.sending && p.queue.current.None? && p.input.draining != []
    case HandlerCallback => p.queue.current.Some? && !p.queue.current.value.returned
    case HandlerEnd => !p.out.sending && p.queue.current.Some? && p.queue.current.value.returned
    case SyncReturn => !p.out.sending && p.queue.callbacksRunning == 0 && p.queue.commands == []
  }

  /** The client takes the next reply and the oldest callback. */
  function TakeCallback(q: Callbacks, reply: Reply): Callbacks {
    var (command, rest) := if q.commands == [] then (None, []) else (Some(q.commands[0]), q.commands[1..]);
    Callbacks(rest, q.callbacksRunning + 1, Some(Current(command, reply, false)), q.completed)
  }

  /** The callback in progress returns; without a callback the reply is dropped. */
  function ReturnCallback(q: Callbacks): Callbacks
    requires q.current.Some?
  {
    var c := q.current.value;
    q.(current := Some(c.(returned := true)),
       completed := q.completed + if c.command.None? then [] else [(c.command.value, c.reply)])
  }

  function Do(p: Pipeline, serve: Server, a: Action): Pipeline
    requires CanDo(p, serve, a)
  {
    match a
    case SendAppend(cmd) => p.(out := Sender(p.out.written, p.out.buffered + [cmd], true))
    case SendPush =>
      var id := if Sent(p) == [] then 0 else |Sent(p)| - 1;
      p.(out := p.out.(sending := false), queue := p.queue.(commands := p.queue.commands + [id]))
    case Commit => p.(out := Sender(Sent(p), [], p.out.sending))
    case ServerRead(chunk) => p.(peer := Peer(p.peer.serverChunks + [chunk], p.peer.answers))
    case ServerAnswer =>
      p.(peer := Peer(p.peer.serverChunks, p.peer.answers + [AnswerTo(serve, Requests(p), |p.peer.answers|)]))
    case ClientRead(chunk) =>
      var d := D.Feed(p.input.receiver.decoder, chunk);
      p.(input := Reader(p.input.chunks + [chunk], Receive(p.input.receiver, chunk), if d.Dead? then [] else d.replies))
    case HandlerBegin =>
      p.(input := p.input.(draining := p.input.draining[1..]), queue := TakeCallback(p.queue, p.input.draining[0]))
    case HandlerCallback => p.(queue := ReturnCallback(p.queue))
    case HandlerEnd =>
      p.(queue := p.queue.(callbacksRunning := p.queue.callbacksRunning - 1, current := None))
    case SyncReturn => p
  }

  ghost predicate IsRun(run: seq<Pipeline>, actions: seq<Action>, serve: Server) {
    && |run| == |actions| + 1 && run[0] == START
    && forall i | 0 <= i < |actions| :: CanDo(run[i], serve, actions[i]) && run[i + 1] == Do(run[i], serve, actions[i])
  }

  // ----- invariant -----

  /** The reply a callback still in progress will contribute. */
  function InProgress(p: Pipeline): seq<Reply> {
    if p.queue.current.Some? && !p.queue.current.value.returned then [p.queue.current.value.reply] else []
  }

  function CompletedReplies(p: Pipeline): (rs: seq<Reply>)
    ensures |rs| == |p.queue.completed|
  {
    seq(|p.queue.completed|, i requires 0 <= i < |p.queue.completed| => p.queue.completed[i].1)
  }

  /** Commands and callbacks advance in lockstep. */
  predicate QueueInv(p: Pipeline) {
    && |p.queue.completed| + |InProgress(p)| + |p.queue.commands| + (if p.out.sending then 1 else 0) == |Sent(p)|
    && (forall i | 0 <= i < |p.queue.commands| :: p.queue.commands[i] == |p.queue.completed| + |InProgress(p)| + i)
    && (forall i | 0 <= i < |p.queue.completed| :: p.queue.completed[i].0 == i)
    && (p.queue.current.Some? && !p.queue.current.value.returned ==>
          p.queue.current.value.command == Some(|p.queue.completed|))
    && p.queue.callbacksRunning == if p.queue.current.Some? then 1 else 0
  }

  predicate Answered(answers: seq<Wire>, serve: Server, requests: seq<Reply>) {
    |answers| <= |requests| && forall i | 0 <= i < |answers| :: answers[i] == AnswerTo(serve, requests, i)
  }

  lemma AnsweredGrows(answers: seq<Wire>, serve: Server, a: seq<Reply>, b: seq<Reply>)
    requires Answered(answers, serve, a) && a <= b
    ensures Answered(answers, serve, b)
  {
    forall i | 0 <= i < |answers|
      ensures answers[i] == AnswerTo(serve, b, i)
    {
      assert a[..i + 1] == b[..i + 1];
    }
  }

  predicate ServerInv(p: Pipeline, serve: Server) {
    && (forall c | c in Sent(p) :: Fits(c))
    && D.Concat(p.peer.serverChunks) <= PipelineText(p.out.written)
    && Requests(p) <= CommandReplies(Sent(p))
    && |p.peer.answers| <= |Requests(p)|
    && Answered(p.peer.answers, serve, CommandReplies(Sent(p)))
    && AllWellFormed(p.peer.answers)
  }

  predicate ReceiverInv(p: Pipeline) {
    && AllWellFormed(p.peer.answers)
    && D.Concat(p.input.chunks) <= TextAll(p.peer.answers)
    && p.input.receiver == ReceiveAll(RECEIVER_START, p.input.chunks)
    && p.input.receiver.decoder.Live?
    && p.input.receiver.delivered == CompletedReplies(p) + InProgress(p) + p.input.draining
    && p.input.receiver.delivered <= Values(p.peer.answers)
  }

  predicate Inv(p: Pipeline, serve: Server) {
    QueueInv(p) && ServerInv(p, serve) && ReceiverInv(p)
  }

  // ----- a prefix of a stream of trees decodes to a prefix of their values -----

  lemma PrefixDecodes(ws: seq<Wire>, chunks: seq<string>)
    requires AllWellFormed(ws) && D.Concat(chunks) <= TextAll(ws)
    ensures D.FeedAll(D.START, chunks).Live? && D.FeedAll(D.START, chunks).replies <= Values(ws)
  {
    var all := TextAll(ws);
    var rest := all[|D.Concat(chunks)|..];
    assert D.Concat(chunks) + rest == all;
    D.ChunkIndependence(D.START, chunks);
    D.DecodesStream(ws);
    D.FeedTwice(D.START, D.Concat(chunks), rest);
    RepliesGrow(D.Feed(D.START, D.Concat(chunks)), rest);
  }

  lemma {:induction false} ReceiveAllAppend(r: Receiver, chunks: seq<string>, chunk: string)
    ensures ReceiveAll(r, chunks + [chunk]) == Receive(ReceiveAll(r, chunks), chunk)
    decreases chunks
  {
    if chunks == [] {
      assert [] + [chunk] == [chunk] && [chunk][1..] == [];
      assert ReceiveAll(r, [chunk]) == ReceiveAll(Receive(r, chunk), []);
    } else {
      assert (chunks + [chunk])[1..] == chunks[1..] + [chunk];
      ReceiveAllAppend(Receive(r, chunks[0]), chunks[1..], chunk);
    }
  }

  /** The server decodes a prefix of exactly the commands that were sent. */
  lemma ServerSees(cmds: seq<Command>, chunks: seq<string>)
    requires forall c | c in cmds :: Fits(c)
    requires D.Concat(chunks) <= PipelineText(cmds)
    ensures D.FeedAll(D.START, chunks).replies <= CommandReplies(cmds)
  {
    var rs := CommandReplies(cmds);
    forall i | 0 <= i < |cmds|
      ensures Encodable(rs[i])
    {
      assert cmds[i] in cmds;
      CommandEncodable(cmds[i]);
    }
    CanonAllWellFormed(rs);
    CanonTextAll(rs);
    PrefixDecodes(CanonAll(rs), chunks);
  }

  // ----- every step keeps the invariant -----

  /** When a reply is handed over, its command is at the head of the callback queue. */
  lemma QueueNotEmpty(p: Pipeline, serve: Server)
    requires Inv(p, serve) && CanDo(p, serve, HandlerBegin)
    ensures p.queue.commands != []
  {
    assert |p.input.receiver.delivered| == |p.queue.completed| + |p.input.draining|;
    assert |p.input.receiver.delivered| <= |Values(p.peer.answers)| <= |Requests(p)| <= |CommandReplies(Sent(p))|;
  }

  lemma QueueStep(p: Pipeline, serve: Server, a: Action)
    requires Inv(p, serve) && CanDo(p, serve, a)
    ensures QueueInv(Do(p, serve, a))
  {
    if a.HandlerBegin? { QueueNotEmpty(p, serve); }
    hide ServerInv, ReceiverInv, Requests, PipelineText, D.Feed, Receive, EncodeAll, Encodable, AnswerTo;
  }

  lemma SentGrows(p: Pipeline, cmd: Command)
    ensures CommandReplies(p.out.written + (p.out.buffered + [cmd])) == CommandReplies(Sent(p)) + [CommandReply(cmd)]
    ensures p.out.written + (p.out.buffered + [cmd]) == Sent(p) + [cmd]
  {}

  lemma {:induction false} EncodeAllPrefix(a: seq<Reply>, b: seq<Reply>)
    requires a <= b
    ensures EncodeAll(a) <= EncodeAll(b)
  {
    assert a + b[|a|..] == b;
    EncodeAllAppend(a, b[|a|..]);
  }

  lemma AnswersGrow(a: seq<Wire>, b: seq<Wire>)
    requires a <= b && AllWellFormed(b)
    ensures AllWellFormed(a) && TextAll(a) <= TextAll(b) && Values(a) <= Values(b)
  {
    var rest := b[|a|..];
    assert a + rest == b;
    assert forall w | w in rest :: w in b;
    assert forall w | w in a :: w in b;
    TextAllAppend(a, rest);
    ValuesAppend(a, rest);
  }

  lemma ServerStep(p: Pipeline, serve: Server, a: Action)
    requires Inv(p, serve) && CanDo(p, serve, a)
    ensures ServerInv(Do(p, serve, a), serve)
  {
    hide QueueInv, ReceiverInv;
    var p' := Do(p, serve, a);
    match a
    case SendAppend(cmd) =>
      SentGrows(p, cmd);
      AnsweredGrows(p.peer.answers, serve, CommandReplies(Sent(p)), CommandReplies(Sent(p')));
    case Commit =>
      assert CommandReplies(p.out.written) <= CommandReplies(Sent(p));
      EncodeAllPrefix(CommandReplies(p.out.written), CommandReplies(Sent(p)));
      assert Sent(p') == Sent(p);
    case ServerRead(chunk) =>
      ServerSees(p.out.written, p'.peer.serverChunks);
      assert CommandReplies(p.out.written) <= CommandReplies(Sent(p));
      RequestsGrow(p, chunk);
    case ServerAnswer =>
      var n := |p.peer.answers|;
      assert Requests(p)[..n + 1] == CommandReplies(Sent(p))[..n + 1];
    case _ =>
  }

  lemma RequestsGrow(p: Pipeline, chunk: string)
    ensures Requests(p) <= Requests(p.(peer := Peer(p.peer.serverChunks + [chunk], p.peer.answers)))
  {
    D.ChunkIndependence(D.START, p.peer.serverChunks);
    D.ChunkIndependence(D.START, p.peer.serverChunks + [chunk]);
    ConcatAppend(p.peer.serverChunks, chunk);
    D.FeedTwice(D.START, D.Concat(p.peer.serverChunks), chunk);
    RepliesGrow(D.Feed(D.START, D.Concat(p.peer.serverChunks)), chunk);
  }

  /** A read of a stream of trees delivers the values of the ones it completes, which are the next ones. */
  lemma ReadDelivers(answers: seq<Wire>, chunks: seq<string>, chunk: string)
    requires AllWellFormed(answers) && D.Concat(chunks + [chunk]) <= TextAll(answers)
    ensures var r, r' := ReceiveAll(RECEIVER_START, chunks), ReceiveAll(RECEIVER_START, chunks + [chunk]);
            && r' == Receive(r, chunk) && r'.decoder.Live? && r'.delivered <= Values(answers)
            && (r.decoder.Live? ==> r'.delivered == r.delivered + D.Feed(r.decoder, chunk).replies)
  {
    ReceiveAllAppend(RECEIVER_START, chunks, chunk);
    PrefixDecodes(answers, chunks + [chunk]);
    D.ChunkIndependence(D.START, chunks + [chunk]);
    DeliveriesFromStart(chunks + [chunk]);
    hide D.Feed, D.FeedAll, ReceiveAll, TextAll, Values;
  }

  lemma ReadStep(p: Pipeline, serve: Server, chunk: string)
    requires ReceiverInv(p) && CanDo(p, serve, ClientRead(chunk))
    ensures ReceiverInv(Do(p, serve, ClientRead(chunk)))
  {
    ReadDelivers(p.peer.answers, p.input.chunks, chunk);
    hide D.Feed, ReceiveAll, Receive, TextAll, Values, AllWellFormed, D.Concat, Requests, PipelineText;
    var p' := Do(p, serve, ClientRead(chunk));
    assert CompletedReplies(p') == CompletedReplies(p);
    assert InProgress(p) == InProgress(p') == [] && p.input.draining == [];
    assert p'.input.receiver == ReceiveAll(RECEIVER_START, p'.input.chunks);
  }

  lemma HandlerStep(p: Pipeline, serve: Server, a: Action)
    requires Inv(p, serve) && CanDo(p, serve, a) && (a.HandlerBegin? || a.HandlerCallback? || a.HandlerEnd?)
    ensures ReceiverInv(Do(p, serve, a))
  {
    hide ServerInv, ReceiveAll;
    var p' := Do(p, serve, a);
    if a.HandlerCallback? {
      assert CompletedReplies(p') == CompletedReplies(p) + InProgress(p);
    } else {
      assert CompletedReplies(p') == CompletedReplies(p);
      if a.HandlerBegin? { assert p.input.draining == InProgress(p') + p'.input.draining; }
    }
  }

  lemma ReceiverStep(p: Pipeline, serve: Server, a: Action)
    requires Inv(p, serve) && CanDo(p, serve, a)
    ensures ReceiverInv(Do(p, serve, a))
  {
    match a
    case ClientRead(chunk) => ReadStep(p, serve, chunk);
    case HandlerBegin => HandlerStep(p, serve, a);
    case HandlerCallback => HandlerStep(p, serve, a);
    case HandlerEnd => HandlerStep(p, serve, a);
    case _ =>
      hide ServerInv, QueueInv, ReceiveAll;
      var p' := Do(p, serve, a);
      assert CompletedReplies(p') == CompletedReplies(p);
      if a.ServerAnswer? { AnswersGrow(p.peer.answers, p'.peer.answers); }
  }

  lemma {:induction false} RunInv(run: seq<Pipeline>, actions: seq<Action>, serve: Server, n: nat)
    requires IsRun(run, actions, serve) && n < |run|
    ensures Inv(run[n], serve)
  {
    if n == 0 {
      assert CompletedReplies(START) == [];
    } else {
      RunInv(run, actions, serve, n - 1);
      QueueStep(run[n - 1], serve, actions[n - 1]);
      ServerStep(run[n - 1], serve, actions[n - 1]);
      ReceiverStep(run[n - 1], serve, actions[n - 1]);
    }
  }

  lemma {:induction false} ValuesAt(ws: seq<Wire>, k: nat)
    requires AllWellFormed(ws) && k < |ws|
    ensures ws[k] in ws && Values(ws)[k] == Value(ws[k])
  {
    if k > 0 { ValuesAt(ws[1..], k - 1); }
  }

  // ----- main results -----

  /**
    Callback order, end to end: under every interleaving and every slicing of
    both byte streams, the k-th completed callback is the one of the k-th command
    sent, and its reply is what the server answers to that command after the
    commands before it. Each callback completes at most once.
   */
  lemma CallbackOrder(run: seq<Pipeline>, actions: seq<Action>, serve: Server, n: nat, k: nat)
    requires IsRun(run, actions, serve) && n < |run| && k < |run[n].queue.completed|
    ensures k < |Sent(run[n])|
    ensures WellFormed(AnswerTo(serve, CommandReplies(Sent(run[n])), k))
    ensures run[n].queue.completed[k] == (k, Value(AnswerTo(serve, CommandReplies(Sent(run[n])), k)))
  {
    RunInv(run, actions, serve, n);
    var p := run[n];
    assert CompletedReplies(p)[k] == p.input.receiver.delivered[k] == Values(p.peer.answers)[k];
    assert p.peer.answers[k] in p.peer.answers;
    ValuesAt(p.peer.answers, k);
  }

  /** sync_commit returns only when the callback of every command sent has completed. */
  lemma SyncCommitSound(run: seq<Pipeline>, actions: seq<Action>, serve: Server, n: nat)
    requires IsRun(run, actions, serve) && n < |actions| && actions[n] == SyncReturn
    ensures |run[n].queue.completed| == |Sent(run[n])|
  {
    RunInv(run, actions, serve, n);
  }

  /** No reply is ever dropped for want of a callback, and neither side ever fails to decode. */
  lemma NothingDropped(run: seq<Pipeline>, actions: seq<Action>, serve: Server, n: nat)
    requires IsRun(run, actions, serve) && n < |run|
    ensures run[n].input.receiver.decoder.Live? && D.FeedAll(D.START, run[n].peer.serverChunks).Live?
    ensures n < |actions| && actions[n] == HandlerBegin ==> run[n + 1].queue.current.value.command.Some?
  {
    RunInv(run, actions, serve, n);
    var p := run[n];
    forall i | 0 <= i < |p.out.written|
      ensures Encodable(CommandReplies(p.out.written)[i])
    {
      assert p.out.written[i] in Sent(p);
      CommandEncodable(p.out.written[i]);
    }
    var rs := CommandReplies(p.out.written);
    CanonAllWellFormed(rs);
    CanonTextAll(rs);
    PrefixDecodes(CanonAll(rs), p.peer.serverChunks);
    if n < |actions| && actions[n] == HandlerBegin { QueueNotEmpty(p, serve); }
  }

  // ----- the pipeline gets somewhere -----

  /** A run that ends in `last`. */
  ghost predicate Ends(run: seq<Pipeline>, actions: seq<Action>, serve: Server, last: Pipeline) {
    IsRun(run, actions, serve) && run[|run| - 1] == last
  }

  lemma Extended(run: seq<Pipeline>, actions: seq<Action>, serve: Server, last: Pipeline, a: Action)
      returns (run': seq<Pipeline>, actions': seq<Action>)
    requires Ends(run, actions, serve, last) && CanDo(last, serve, a)
    ensures Ends(run', actions', serve, Do(last, serve, a))
  {
    run', actions' := run + [Do(last, serve, a)], actions + [a];
  }

  /** One command on its way: sent, committed, read and answered by the server. */
  lemma Served(cmd: Command, serve: Server) returns (run: seq<Pipeline>, actions: seq<Action>)
    requires Fits(cmd) && WellFormed(serve([CommandReply(cmd)]))
    ensures Ends(run, actions, serve,
                 Pipeline(Sender([cmd], [], false), Peer([PipelineText([cmd])], [serve([CommandReply(cmd)])]),
                          Reader([], RECEIVER_START, []), Callbacks([0], 0, None, [])))
  {
    run, actions := [START], [];
    assert Ends(run, actions, serve, START);
    hide Ends;
    var p1 := START.(out := Sender([], [cmd], true));
    assert [] + [cmd] == [cmd];
    run, actions := Extended(run, actions, serve, START, SendAppend(cmd));
    var p2 := p1.(out := Sender([], [cmd], false), queue := Callbacks([0], 0, None, []));
    assert Sent(p1) == [cmd];
    run, actions := Extended(run, actions, serve, p1, SendPush);
    var p3 := p2.(out := Sender([cmd], [], false));
    run, actions := Extended(run, actions, serve, p2, Commit);
    var text := PipelineText([cmd]);
    var p4 := p3.(peer := Peer([text], []));
    ConcatOne(text);
    assert [] + [text] == [text];
    run, actions := Extended(run, actions, serve, p3, ServerRead(text));
    PipelineRoundTrip([cmd], [text]);
    assert Requests(p4) == CommandReplies([cmd]) == [CommandReply(cmd)];
    assert Requests(p4)[..1] == [CommandReply(cmd)];
    run, actions := Extended(run, actions, serve, p4, ServerAnswer);
    assert [] + [serve([CommandReply(cmd)])] == [serve([CommandReply(cmd)])];
  }

  /** The answer has arrived and is about to be handed over. */
  lemma Delivered(cmd: Command, serve: Server) returns (run: seq<Pipeline>, actions: seq<Action>)
    requires Fits(cmd) && WellFormed(serve([CommandReply(cmd)]))
    ensures var w := serve([CommandReply(cmd)]);
            Ends(run, actions, serve,
                 Pipeline(Sender([cmd], [], false), Peer([PipelineText([cmd])], [w]),
                          Reader([TextAll([w])], Receiver(D.START, [Value(w)]), [Value(w)]),
                          Callbacks([0], 0, None, [])))
  {
    var w := serve([CommandReply(cmd)]);
    run, actions := Served(cmd, serve);
    hide Ends;
    var p := Pipeline(Sender([cmd], [], false), Peer([PipelineText([cmd])], [w]),
                      Reader([], RECEIVER_START, []), Callbacks([0], 0, None, []));
    var text := TextAll([w]);
    ConcatOne(text);
    assert [] + [text] == [text];
    D.DecodesStream([w]);
    assert Values([w]) == [Value(w)] by { assert [w][1..] == []; }
    assert [] + [Value(w)] == [Value(w)];
    run, actions := Extended(run, actions, serve, p, ClientRead(text));
  }

  /** Any command can be sent, answered and have its callback run with the answer, after which sync_commit returns. */
  lemma CommandCompletes(cmd: Command, serve: Server)
    requires Fits(cmd) && WellFormed(serve([CommandReply(cmd)]))
    ensures exists run: seq<Pipeline>, actions: seq<Action> ::
              && IsRun(run, actions, serve) && CanDo(run[|run| - 1], serve, SyncReturn)
              && run[|run| - 1].queue.completed == [(0, Value(serve([CommandReply(cmd)])))]
  {
    var w := serve([CommandReply(cmd)]);
    var run, actions := Delivered(cmd, serve);
    hide Ends, TextAll, Value, PipelineText;
    var p1 := Pipeline(Sender([cmd], [], false), Peer([PipelineText([cmd])], [w]),
                       Reader([TextAll([w])], Receiver(D.START, [Value(w)]), [Value(w)]), Callbacks([0], 0, None, []));
    var p2 := p1.(input := p1.input.(draining := []),
                  queue := Callbacks([], 1, Some(Current(Some(0), Value(w), false)), []));
    assert [Value(w)][1..] == [] && [0][1..] == [];
    run, actions := Extended(run, actions, serve, p1, HandlerBegin);
    var p3 := p2.(queue := Callbacks([], 1, Some(Current(Some(0), Value(w), true)), [(0, Value(w))]));
    run, actions := Extended(run, actions, serve, p2, HandlerCallback);
    run, actions := Extended(run, actions, serve, p3, HandlerEnd);
    EndsMeans(run, actions, serve, Do(p3, serve, HandlerEnd));
  }

  lemma EndsMeans(run: seq<Pipeline>, actions: seq<Action>, serve: Server, last: Pipeline)
    requires Ends(run, actions, serve, last)
    ensures IsRun(run, actions, serve) && run[|run| - 1] == last
  {}
}
