/** Commands out, replies in: the connection that owns the send buffer and the reply builder. */
module RedisConnections {
  import opened Text
  import opened Resp
  import opened Grammar
  import opened Encoding
  import opened ReplyBuilders
  import D = Decoder

  type Command = seq<string>

  // ----- the wire form of commands -----

  /** A command as the server sees it: an array of bulk strings. */
  function CommandReply(cmd: Command): Reply {
    Array(seq(|cmd|, i requires 0 <= i < |cmd| => Bulk(cmd[i])))
  }

  function CommandReplies(cmds: seq<Command>): (rs: seq<Reply>)
    ensures |rs| == |cmds| && forall i | 0 <= i < |cmds| :: rs[i] == CommandReply(cmds[i])
  {
    seq(|cmds|, i requires 0 <= i < |cmds| => CommandReply(cmds[i]))
  }

  function PipelineText(cmds: seq<Command>): string { EncodeAll(CommandReplies(cmds)) }

  predicate Fits(cmd: Command) {
    |cmd| <= INT64_MAX && forall part | part in cmd :: |part| <= BULK_MAX
  }

  lemma {:induction false} EncodeAllAppend(a: seq<Reply>, b: seq<Reply>)
    ensures EncodeAll(a + b) == EncodeAll(a) + EncodeAll(b)
  {
    if a == [] {
      assert a + b == b;
    } else {
      assert (a + b)[1..] == a[1..] + b;
      EncodeAllAppend(a[1..], b);
    }
  }

  lemma PipelineAppend(cmds: seq<Command>, cmd: Command)
    ensures PipelineText(cmds + [cmd]) == PipelineText(cmds) + Encode(CommandReply(cmd))
  {
    assert CommandReplies(cmds + [cmd]) == CommandReplies(cmds) + [CommandReply(cmd)];
    EncodeAllAppend(CommandReplies(cmds), [CommandReply(cmd)]);
    assert EncodeAll([CommandReply(cmd)]) == Encode(CommandReply(cmd));
  }

  lemma CommandEncodable(cmd: Command)
    ensures Encodable(CommandReply(cmd)) <==> Fits(cmd)
  {
    var rows := CommandReply(cmd).rows;
    forall i | 0 <= i < |cmd|
      ensures rows[i] in rows && (Encodable(rows[i]) <==> |cmd[i]| <= BULK_MAX)
    {}
    if Encodable(CommandReply(cmd)) {
      forall part | part in cmd
        ensures |part| <= BULK_MAX
      {
        var i :| 0 <= i < |cmd| && cmd[i] == part;
        assert AllEncodable(rows) && rows[i] in rows;
        assert Encodable(rows[i]) && rows[i] == Bulk(part);
      }
    }
  }

  /** `build_command`: the header line, then each part with its length. */
  method BuildCommand(cmd: Command) returns (text: string)
    ensures text == Encode(CommandReply(cmd))
  {
    text := "*" + Decimal(|cmd|) + CRLF;
    ghost var head, rows := text, CommandReply(cmd).rows;
    for i := 0 to |cmd|
      invariant text == head + EncodeAll(rows[..i])
    {
      text := text + ("$" + Decimal(|cmd[i]|) + CRLF + cmd[i] + CRLF);
      assert rows[..i + 1] == rows[..i] + [rows[i]];
      EncodeAllAppend(rows[..i], [rows[i]]);
      assert EncodeAll([rows[i]]) == Encode(rows[i]);
    }
    assert rows[..|cmd|] == rows;
  }

  /** A stream of encoded replies is decoded to them, however it is cut, exactly when all are encodable. */
  lemma StreamRoundTrip(rs: seq<Reply>, chunks: seq<string>)
    requires D.Concat(chunks) == EncodeAll(rs)
    ensures D.FeedAll(D.START, chunks) == D.Live(rs, None, "") <==> AllEncodable(rs)
  {
    if AllEncodable(rs) {
      D.RepliesRoundTrip(rs, chunks);
    }
    if D.FeedAll(D.START, chunks) == D.Live(rs, None, "") {
      D.DecoderSound(chunks);
      var ws, q, unread :| D.Explains(D.FeedAll(D.START, chunks), D.Concat(chunks), ws, q, unread);
      ValuesEncodable(ws);
    }
  }

  /** Encoder inverse: a pipeline decodes to exactly its commands if and only if every command fits. */
  lemma PipelineRoundTrip(cmds: seq<Command>, chunks: seq<string>)
    requires D.Concat(chunks) == PipelineText(cmds)
    ensures D.FeedAll(D.START, chunks) == D.Live(CommandReplies(cmds), None, "") <==> (forall c | c in cmds :: Fits(c))
  {
    var rs := CommandReplies(cmds);
    StreamRoundTrip(rs, chunks);
    forall i | 0 <= i < |cmds|
      ensures rs[i] in rs && (Encodable(rs[i]) <==> Fits(cmds[i]))
    {
      CommandEncodable(cmds[i]);
    }
    if AllEncodable(rs) {
      forall c | c in cmds
        ensures Fits(c)
      {
        var i :| 0 <= i < |cmds| && cmds[i] == c;
        assert rs[i] in rs;
      }
    }
  }

  lemma CommandReplyInjective(a: Command, b: Command)
    requires CommandReply(a) == CommandReply(b)
    ensures a == b
  {
    var ra, rb := CommandReply(a).rows, CommandReply(b).rows;
    assert |a| == |ra| == |rb| == |b|;
    forall i | 0 <= i < |a|
      ensures a[i] == b[i]
    {
      assert ra[i] == Bulk(a[i]) && rb[i] == Bulk(b[i]);
    }
  }

  /** Two pipelines of fitting commands with the same bytes are the same pipeline. */
  lemma PipelineInjective(a: seq<Command>, b: seq<Command>)
    requires forall c | c in a + b :: Fits(c)
    requires PipelineText(a) == PipelineText(b)
    ensures a == b
  {
    var chunks := [PipelineText(a)];
    assert D.Concat(chunks[1..]) == "" && D.Concat(chunks) == PipelineText(a);
    forall c | c in a ensures Fits(c) { assert c in a + b; }
    forall c | c in b ensures Fits(c) { assert c in a + b; }
    PipelineRoundTrip(a, chunks);
    PipelineRoundTrip(b, chunks);
    forall i | 0 <= i < |a|
      ensures a[i] == b[i]
    {
      CommandReplyInjective(a[i], b[i]);
    }
  }

  // ----- deliveries -----

  /** The decoder and the replies handed to the reply callback so far. */
  datatype Receiver = Receiver(decoder: D.Decoder, delivered: seq<Reply>)

  const RECEIVER_START: Receiver := Receiver(D.START, [])

  /** The receive handler: if decoding throws, the replies completed by this very chunk are not delivered. */
  function Receive(r: Receiver, chunk: string): Receiver {
    var d := D.Feed(r.decoder, chunk);
    if r.decoder.Dead? then r
    else if d.Dead? then Receiver(d, r.delivered)
    else Receiver(D.Taken(d), r.delivered + d.replies)
  }

  function ReceiveAll(r: Receiver, chunks: seq<string>): Receiver
    decreases chunks
  {
    if chunks == [] then r else ReceiveAll(Receive(r, chunks[0]), chunks[1..])
  }

  lemma {:induction false} DeadStays(r: Receiver, chunks: seq<string>)
    requires r.decoder.Dead?
    ensures ReceiveAll(r, chunks) == r && D.FeedAll(r.decoder, chunks) == r.decoder
    decreases chunks
  {
    if chunks != [] { DeadStays(r, chunks[1..]); }
  }

  lemma RepliesGrow(d: D.Decoder, data: string)
    ensures d.replies <= D.Feed(d, data).replies
  {
    D.FeedFrame(d.replies, D.Taken(d), data);
    assert d.replies + [] == d.replies;
  }

  lemma {:induction false} RepliesGrowAll(d: D.Decoder, chunks: seq<string>)
    ensures d.replies <= D.FeedAll(d, chunks).replies
    decreases chunks
  {
    if chunks != [] {
      RepliesGrow(d, chunks[0]);
      RepliesGrowAll(D.Feed(d, chunks[0]), chunks[1..]);
    }
  }

  /** Taking replies out after every chunk loses nothing as long as the stream is decodable. */
  lemma {:induction false} Deliveries(r: Receiver, chunks: seq<string>)
    requires r.decoder.Live? && r.decoder.replies == []
    ensures var d, e := D.FeedAll(D.Prepend(r.delivered, r.decoder), chunks), ReceiveAll(r, chunks);
            && (d.Live? ==> e == Receiver(D.Taken(d), d.replies))
            && (d.Dead? ==> e.decoder.Dead? && e.delivered <= d.replies)
    decreases chunks
  {
    hide D.Drain;
    if chunks == [] {
      assert r.delivered + [] == r.delivered;
    } else {
      D.FeedFrame(r.delivered, r.decoder, chunks[0]);
      var next, d1 := Receive(r, chunks[0]), D.Feed(D.Prepend(r.delivered, r.decoder), chunks[0]);
      if next.decoder.Dead? {
        DeadStays(next, chunks[1..]);
        DeadStays(Receiver(d1, []), chunks[1..]);
        assert next.delivered <= d1.replies;
      } else {
        Deliveries(next, chunks[1..]);
        assert next.delivered + [] == next.delivered;
        assert D.Prepend(next.delivered, next.decoder) == d1;
      }
    }
  }

  /** Every cut of `bytes` delivers the same replies. */
  ghost predicate DeliversAlike(bytes: string) {
    forall a: seq<string>, b: seq<string> | D.Concat(a) == bytes && D.Concat(b) == bytes ::
      ReceiveAll(RECEIVER_START, a).delivered == ReceiveAll(RECEIVER_START, b).delivered
  }

  lemma DeliveriesFromStart(chunks: seq<string>)
    ensures var d, e := D.Feed(D.START, D.Concat(chunks)), ReceiveAll(RECEIVER_START, chunks);
            && (d.Live? ==> e == Receiver(D.Taken(d), d.replies))
            && (d.Dead? ==> e.decoder.Dead? && e.delivered <= d.replies)
  {
    Deliveries(RECEIVER_START, chunks);
    D.ChunkIndependence(D.START, chunks);
    assert D.Prepend([], D.START) == D.START;
  }

  /**
    Deliveries do not depend on how TCP cuts the stream exactly when the stream
    never throws, or throws before its first complete reply.
   */
  lemma DeliveryIndependentOfSlicing(bytes: string)
    ensures DeliversAlike(bytes) <==> D.Feed(D.START, bytes).Live? || D.Feed(D.START, bytes).replies == []
  {
    hide D.Drain;
    var d := D.Feed(D.START, bytes);
    forall chunks: seq<string> | D.Concat(chunks) == bytes
      ensures d.Live? ==> ReceiveAll(RECEIVER_START, chunks).delivered == d.replies
      ensures d.Dead? ==> ReceiveAll(RECEIVER_START, chunks).delivered <= d.replies
    {
      DeliveriesFromStart(chunks);
    }
    if d.Dead? && d.replies != [] {
      FailingStreamSplits(bytes);
    }
  }

  /**
    A stream that throws after complete replies: sent whole it delivers none of
    them, cut after them it delivers all.
   */
  lemma FailingStreamSplits(bytes: string)
    requires D.Feed(D.START, bytes).Dead? && D.Feed(D.START, bytes).replies != []
    ensures !DeliversAlike(bytes)
  {
    var d := D.Feed(D.START, bytes);
    var ws, q, unread := D.DrainExplained([], None, "" + bytes);
    var good, tail := TextAll(ws), D.Prefix(q) + unread;
    assert TextAll([]) + D.Prefix(None) + ("" + bytes) == bytes;
    Assoc(good, D.Prefix(q), unread);
    var whole, cut := [bytes], [good, tail];
    ConcatTwo(good, tail);
    ConcatOne(bytes);
    SplitDeliversPrefix(ws, tail);
    WholeDeliversNothing(bytes);
    assert ReceiveAll(RECEIVER_START, cut).delivered == d.replies;
    assert ReceiveAll(RECEIVER_START, whole).delivered == [];
  }

  lemma ConcatOne(a: string)
    ensures D.Concat([a]) == a
  {
    assert [a][1..] == [];
  }

  lemma ConcatTwo(a: string, b: string)
    ensures D.Concat([a, b]) == a + b
  {
    assert [a, b][1..] == [b];
    ConcatOne(b);
  }

  lemma WholeDeliversNothing(bytes: string)
    requires D.Feed(D.START, bytes).Dead?
    ensures ReceiveAll(RECEIVER_START, [bytes]).delivered == []
  {
    hide D.Drain;
    assert [bytes][1..] == [];
    assert ReceiveAll(RECEIVER_START, [bytes]) == ReceiveAll(Receive(RECEIVER_START, bytes), []);
  }

  lemma SplitDeliversPrefix(ws: seq<Wire>, tail: string)
    requires AllWellFormed(ws) && D.Feed(D.START, TextAll(ws) + tail).Dead?
    ensures ReceiveAll(RECEIVER_START, [TextAll(ws), tail]).delivered == Values(ws)
  {
    hide D.Drain;
    D.DecodesStream(ws);
    D.FeedTwice(D.START, TextAll(ws), tail);
    D.FeedFrame(Values(ws), D.Live([], None, ""), tail);
    var r := Receive(RECEIVER_START, TextAll(ws));
    assert r == Receiver(D.START, Values(ws)) by { assert [] + Values(ws) == Values(ws); }
    assert D.Prepend(Values(ws), D.START) == D.Live(Values(ws), None, "") by { assert Values(ws) + [] == Values(ws); }
    assert Receive(r, tail).delivered == Values(ws);
    assert [TextAll(ws), tail][1..] == [tail] && [tail][1..] == [];
    assert ReceiveAll(RECEIVER_START, [TextAll(ws), tail]) == ReceiveAll(r, [tail]);
    assert ReceiveAll(r, [tail]) == ReceiveAll(Receive(r, tail), []);
  }

  /** A complete reply and a stray byte: in one packet the reply is lost, in two it is delivered. */
  lemma FailingStreamExample()
    ensures ReceiveAll(RECEIVER_START, ["+OK\r\n?"]).delivered == []
    ensures ReceiveAll(RECEIVER_START, ["+OK\r\n", "?"]).delivered == [Simple("OK")]
    ensures !DeliversAlike("+OK\r\n?")
  {
    var ws := [WSimple("OK")];
    OkText(ws);
    StrayByte(ws);
    hide D.Feed, D.Drain, TextAll, Values, ReceiveAll, Receive, DeliversAlike;
    WholeDeliversNothing(TextAll(ws) + "?");
    SplitDeliversPrefix(ws, "?");
    FailingStreamSplits(TextAll(ws) + "?");
  }

  lemma OkText(ws: seq<Wire>)
    requires ws == [WSimple("OK")]
    ensures AllWellFormed(ws) && Values(ws) == [Simple("OK")]
    ensures TextAll(ws) == "+OK\r\n" && TextAll(ws) + "?" == "+OK\r\n?"
  {
    assert NoCrlf("OK") && ws[1..] == [];
  }

  lemma StrayByte(ws: seq<Wire>)
    requires AllWellFormed(ws)
    ensures D.Feed(D.START, TextAll(ws) + "?") == D.Dead(Values(ws), InvalidType)
  {
    D.DecodesTrees([], ws, "?");
    assert [] + Values(ws) == Values(ws) && "" + (TextAll(ws) + "?") == TextAll(ws) + "?";
  }

  /**
    A bad tail need not throw yet: no bytes after `:a` make it the start of a
    well-formed stream, and still this stream delivers alike however it is cut.
   */
  lemma StalledStreamExample(more: string, ws: seq<Wire>)
    requires AllWellFormed(ws)
    ensures ":a" + more != TextAll(ws)
    ensures DeliversAlike("+OK\r\n:a")
  {
    D.DecodesStream(ws);
    StalledNumber([], "");
    StalledNumber([], more);
    assert ":a" + "" == ":a";
    var ok := [WSimple("OK")];
    OkText(ok);
    D.DecodesTrees([], ok, ":a");
    StalledNumber([] + Values(ok), "");
    assert "" + (TextAll(ok) + ":a") == TextAll(ok) + ":a" == "+OK\r\n:a";
    DeliveryIndependentOfSlicing("+OK\r\n:a");
  }

  lemma StalledNumber(replies: seq<Reply>, more: string)
    ensures D.Drain(replies, None, ":a" + more).Live? ==> D.Drain(replies, None, ":a" + more).current == Some(PInteger)
    ensures D.Drain(replies, None, ":a" + "").Live?
    ensures D.Feed(D.START, ":a" + more) == D.Drain([], None, ":a" + more)
  {
    BadNumber(more);
    BadNumber("");
    assert "" + (":a" + more) == ":a" + more;
    assert !CrlfAt("a" + "", 0);
  }

  lemma BadNumber(more: string)
    ensures RunFresh(":a" + more) == More(PInteger, "a" + more) || RunFresh(":a" + more) == Fail(InvalidDigit)
    ensures FindCrlf("a" + more).None? ==> RunFresh(":a" + more).More?
  {
    var buf := "a" + more;
    assert (":a" + more)[1..] == buf;
    if FindCrlf(buf).Some? {
      var line := buf[..FindCrlf(buf).value];
      assert !CrlfAt(buf, 0) && line[0] == 'a';
      assert DigitRun(line) == 0;
    }
  }

  // ----- the connection object -----

  class RedisConnection {
    var buffer: string
    /** Buffers handed to `async_write`, oldest first. */
    var written: seq<string>
    const builder: ReplyBuilder
    /** Replies passed to the reply callback, oldest first. */
    var delivered: seq<Reply>
    /** Whether a read request is outstanding. */
    var reading: bool
    /** Whether the disconnection handler was called. */
    var dropped: bool
    /** Every command ever sent. */
    ghost var sent: seq<Command>
    ghost var Repr: set<object>

    ghost predicate Valid()
      reads this, Repr
    {
      && this in Repr && builder in Repr && builder.Repr <= Repr && this !in builder.Repr
      && builder.Valid()
      && (reading ==> builder.thrown.None? && builder.availableReplies == [])
      && D.Concat(written) + buffer == PipelineText(sent)
    }

    ghost function Model(): Receiver
      requires Valid()
      reads this, Repr
    {
      Receiver(builder.Model(), delivered)
    }

    /** A connection on which the first read has been requested. */
    constructor ()
      ensures Valid() && fresh(Repr) && Model() == RECEIVER_START && reading && !dropped
      ensures written == [] && buffer == "" && sent == []
    {
      buffer, written, delivered, reading, dropped, sent := "", [], [], true, false, [];
      builder := new ReplyBuilder();
      new;
      Repr := {this} + builder.Repr;
    }

    method Send(cmd: Command)
      requires Valid()
      modifies this
      ensures Valid() && Repr == old(Repr) && Model() == old(Model())
      ensures sent == old(sent) + [cmd] && written == old(written)
      ensures buffer == old(buffer) + Encode(CommandReply(cmd))
      ensures reading == old(reading) && dropped == old(dropped)
    {
      var text := BuildCommand(cmd);
      Assoc(D.Concat(written), buffer, text);
      buffer := buffer + text;
      PipelineAppend(sent, cmd);
      sent := sent + [cmd];
    }

    /** Moves the whole send buffer into one write request. */
    method Commit()
      requires Valid()
      modifies this
      ensures Valid() && Repr == old(Repr) && Model() == old(Model()) && sent == old(sent)
      ensures buffer == "" && written == old(written) + [old(buffer)]
      ensures D.Concat(written) == PipelineText(sent)
      ensures reading == old(reading) && dropped == old(dropped)
    {
      ConcatAppend(written, buffer);
      written := written + [buffer];
      buffer := "";
      assert D.Concat(written) + "" == D.Concat(written);
    }

    /** The handler of a successful read. */
    method TcpClientReceiveHandler(chunk: string)
      requires Valid() && reading
      modifies Repr
      ensures Valid() && fresh(Repr - old(Repr))
      ensures Model().delivered == Receive(old(Model()), chunk).delivered
      ensures Model().decoder == Receive(old(Model()), chunk).decoder
      ensures reading == Model().decoder.Live? && dropped == (old(dropped) || !reading)
      ensures sent == old(sent) && written == old(written) && buffer == old(buffer)
    {
      reading := false;
      var failed := builder.Feed(chunk);
      Repr := Repr + builder.Repr;
      if failed.Some? {
        dropped := true;
        return;
      }
      Drain();
      reading := true;
    }

    /** Hands every available reply to the reply callback, in order. */
    method Drain()
      requires Valid() && builder.thrown.None?
      modifies this`delivered, builder`availableReplies
      ensures Valid() && builder.availableReplies == []
      ensures builder.Model() == D.Taken(old(builder.Model()))
      ensures delivered == old(delivered) + old(builder.availableReplies)
    {
      while |builder.availableReplies| > 0
        invariant Valid() && builder.Model() == old(builder.Model()).(replies := builder.availableReplies)
        invariant delivered + builder.availableReplies == old(delivered) + old(builder.availableReplies)
        decreases |builder.availableReplies|
      {
        var reply := builder.GetFront();
        var _ := builder.PopFront();
        delivered := delivered + [reply.value];
      }
    }
  }

  lemma {:induction false} ConcatAppend(chunks: seq<string>, chunk: string)
    ensures D.Concat(chunks + [chunk]) == D.Concat(chunks) + chunk
  {
    if chunks == [] {
      ConcatOne(chunk);
      assert [] + [chunk] == [chunk];
    } else {
      assert (chunks + [chunk])[1..] == chunks[1..] + [chunk];
      ConcatAppend(chunks[1..], chunk);
      Assoc(chunks[0], D.Concat(chunks[1..]), chunk);
    }
  }
}
