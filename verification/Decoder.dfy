/** The streaming decoder as a function of its state and the chunks it is fed. */
module Decoder {
  import opened Text
  import opened Resp
  import opened Grammar
  import opened Encoding

  /**
    `Live`: replies not yet taken, the builder in progress and the unread bytes.
    `Dead`: a builder threw; the connection is dropped and nothing more is fed.
   */
  datatype Decoder =
    | Live(replies: seq<Reply>, current: Option<Pending>, buffer: string)
    | Dead(replies: seq<Reply>, failure: Failure)

  const START: Decoder := Live([], None, "")

  /** One call of the builder in progress, or of a fresh one. */
  function NextStep(current: Option<Pending>, buffer: string): Step
    requires buffer != ""
  {
    if current.Some? then Run(current.value, buffer) else RunFresh(buffer)
  }

  function Drain(replies: seq<Reply>, current: Option<Pending>, buffer: string): Decoder
    decreases |buffer|
  {
    if buffer == "" then Live(replies, current, buffer)
    else
      match NextStep(current, buffer)
      case Fail(f) => Dead(replies, f)
      case More(p, rest) => Live(replies, Some(p), rest)
      case Done(r, rest) => Drain(replies + [r], None, rest)
  }

  function Pump(d: Decoder): Decoder {
    if d.Dead? then d else Drain(d.replies, d.current, d.buffer)
  }

  function Feed(d: Decoder, data: string): Decoder {
    match d
    case Dead(_, _) => d
    case Live(replies, current, buffer) => Drain(replies, current, buffer + data)
  }

  function FeedAll(d: Decoder, chunks: seq<string>): Decoder
    decreases chunks
  {
    if chunks == [] then d else FeedAll(Feed(d, chunks[0]), chunks[1..])
  }

  function Concat(chunks: seq<string>): string {
    if chunks == [] then "" else chunks[0] + Concat(chunks[1..])
  }

  lemma FreshResumes(x: string, y: string)
    requires x != ""
    ensures RunFresh(x + y) == Continue(RunFresh(x), y)
  {
    assert (x + y)[1..] == x[1..] + y;
    if CreateBuilder(x[0]).Some? {
      RunResumes(CreateBuilder(x[0]).value, x[1..], y);
    }
  }

  lemma {:induction false} DrainResumes(replies: seq<Reply>, current: Option<Pending>, x: string, y: string)
    ensures Drain(replies, current, x + y) == Feed(Drain(replies, current, x), y)
    decreases |x|
  {
    if x == "" {
      assert x + y == y;
    } else {
      var s := NextStep(current, x);
      if current.Some? { RunResumes(current.value, x, y); } else { FreshResumes(x, y); }
      assert NextStep(current, x + y) == Continue(s, y);
      if s.Done? {
        DrainResumes(replies + [s.reply], None, s.rest, y);
      } else if s.More? && s.rest + y == "" {
        assert x + y == x;
      }
    }
  }

  /** A decoder that has been fed has nothing left to do until more bytes arrive. */
  predicate Settled(d: Decoder) { Feed(d, "") == d }

  lemma FeedSettles(d: Decoder, data: string)
    ensures Settled(Feed(d, data))
  {
    if d.Live? {
      DrainResumes(d.replies, d.current, d.buffer + data, "");
      assert d.buffer + data + "" == d.buffer + data;
    }
  }

  lemma FeedTwice(d: Decoder, a: string, b: string)
    ensures Feed(Feed(d, a), b) == Feed(d, a + b)
  {
    hide Drain;
    if d.Live? {
      DrainResumes(d.replies, d.current, d.buffer + a, b);
      assert d.buffer + a + b == d.buffer + (a + b);
    }
  }

  /** Chunk independence: however a stream is cut, the decoder ends in the same state. */
  lemma {:induction false} ChunkIndependence(d: Decoder, chunks: seq<string>)
    requires Settled(d)
    ensures FeedAll(d, chunks) == Feed(d, Concat(chunks))
    decreases chunks
  {
    if chunks != [] {
      FeedSettles(d, chunks[0]);
      ChunkIndependence(Feed(d, chunks[0]), chunks[1..]);
      FeedTwice(d, chunks[0], Concat(chunks[1..]));
    }
  }

  lemma SlicingIrrelevant(a: seq<string>, b: seq<string>)
    requires Concat(a) == Concat(b)
    ensures FeedAll(START, a) == FeedAll(START, b)
  {
    ChunkIndependence(START, a);
    ChunkIndependence(START, b);
  }

  // ----- taking replies out between feeds -----

  function Prepend(taken: seq<Reply>, d: Decoder): Decoder { d.(replies := taken + d.replies) }

  /** The decoder once every waiting reply has been taken. */
  function Taken(d: Decoder): Decoder { d.(replies := []) }

  /** Replies already waiting never influence decoding. */
  lemma {:induction false} DrainFrame(taken: seq<Reply>, replies: seq<Reply>, current: Option<Pending>, buffer: string)
    ensures Drain(taken + replies, current, buffer) == Prepend(taken, Drain(replies, current, buffer))
    decreases |buffer|
  {
    if buffer != "" {
      var s := NextStep(current, buffer);
      if s.Done? {
        assert taken + replies + [s.reply] == taken + (replies + [s.reply]);
        DrainFrame(taken, replies + [s.reply], None, s.rest);
      }
    }
  }

  lemma FeedFrame(taken: seq<Reply>, d: Decoder, data: string)
    ensures Feed(Prepend(taken, d), data) == Prepend(taken, Feed(d, data))
  {
    if d.Live? { DrainFrame(taken, d.replies, d.current, d.buffer + data); }
  }

  // ----- what the decoder state says about the bytes -----

  /** `ws` were delivered, `q` is the tree in progress, and the rest is unread. */
  predicate Explains(d: Decoder, bytes: string, ws: seq<Wire>, q: Option<Part>, unread: string) {
    && AllWellFormed(ws) && Values(ws) == d.replies
    && (q.Some? ==> PartWellFormed(q.value))
    && bytes == TextAll(ws) + Prefix(q) + unread
    && (d.Live? ==> unread == d.buffer && d.current == (if q.Some? then Some(PartPending(q.value)) else None))
  }

  /** The bytes of a part that is being continued, or nothing for a fresh start. */
  function Prefix(q: Option<Part>): string { if q.Some? then PartText(q.value) else "" }

  lemma StepAccounts(q: Option<Part>, buffer: string) returns (w: Wire, q': Part)
    requires q.Some? ==> PartWellFormed(q.value)
    requires buffer != ""
    ensures var s := if q.Some? then Run(PartPending(q.value), buffer) else RunFresh(buffer);
            && (s.Done? ==> WellFormed(w) && Value(w) == s.reply && Prefix(q) + buffer == TextOf(w) + s.rest)
            && (s.More? ==>
                  && PartWellFormed(q') && PartPending(q') == s.pending
                  && Prefix(q) + buffer == PartText(q') + s.rest)
  {
    w, q' := WSimple(""), QSimple;
    if q.Some? {
      w, q' := RunAccounts(q.value, buffer);
    } else if NewPart(buffer[0]).Some? {
      w, q' := RunAccounts(NewPart(buffer[0]).value, buffer[1..]);
    }
  }

  lemma {:induction false} DrainExplained(ws: seq<Wire>, q: Option<Part>, buffer: string)
      returns (ws': seq<Wire>, q': Option<Part>, unread: string)
    requires AllWellFormed(ws) && (q.Some? ==> PartWellFormed(q.value))
    ensures var current := if q.Some? then Some(PartPending(q.value)) else None;
            Explains(Drain(Values(ws), current, buffer), TextAll(ws) + Prefix(q) + buffer, ws', q', unread)
    decreases |buffer|
  {
    ws', q', unread := ws, q, buffer;
    if buffer != "" {
      var s := if q.Some? then Run(PartPending(q.value), buffer) else RunFresh(buffer);
      var w, q1 := StepAccounts(q, buffer);
      Assoc(TextAll(ws), Prefix(q), buffer);
      if s.More? {
        q', unread := Some(q1), s.rest;
        Assoc(TextAll(ws), Prefix(q'), unread);
      } else if s.Done? {
        TreeAppended(ws, w);
        Assoc(TextAll(ws), TextOf(w), s.rest);
        assert TextAll(ws + [w]) + "" == TextAll(ws + [w]);
        ws', q', unread := DrainExplained(ws + [w], None, s.rest);
      }
    }
  }

  /**
    Soundness and byte conservation: the bytes fed are the text of the delivered
    replies, the text of the one reply in progress, and the unread buffer.
   */
  lemma DecoderSound(chunks: seq<string>)
    ensures exists ws, q, unread :: Explains(FeedAll(START, chunks), Concat(chunks), ws, q, unread)
  {
    ChunkIndependence(START, chunks);
    var bytes := Concat(chunks);
    var ws, q, unread := DrainExplained([], None, "" + bytes);
    assert TextAll([]) + Prefix(None) + ("" + bytes) == bytes;
    assert Explains(FeedAll(START, chunks), bytes, ws, q, unread);
  }

  /** Completeness: the text of well-formed trees delivers exactly their values. */
  lemma {:induction false} DecodesTrees(replies: seq<Reply>, ws: seq<Wire>, rest: string)
    requires AllWellFormed(ws)
    ensures Drain(replies, None, TextAll(ws) + rest) == Drain(replies + Values(ws), None, rest)
    decreases ws
  {
    if ws == [] {
      assert TextAll(ws) + rest == rest && replies + Values(ws) == replies;
    } else {
      var w, tail := ws[0], TextAll(ws[1..]) + rest;
      TextAllStep(ws, rest);
      assert (TextAll(ws) + rest)[1..] == Payload(w) + tail;
      DecodesWire(w, tail);
      DecodesTrees(replies + [Value(w)], ws[1..], rest);
      assert replies + Values(ws) == replies + [Value(w)] + Values(ws[1..]);
    }
  }

  lemma DecodesStream(ws: seq<Wire>)
    requires AllWellFormed(ws)
    ensures Feed(START, TextAll(ws)) == Live(Values(ws), None, "")
  {
    DecodesTrees([], ws, "");
    assert TextAll(ws) + "" == "" + TextAll(ws) && [] + Values(ws) == Values(ws);
  }

  /** A stream on which the decoder dies cannot be extended to a well-formed one. */
  lemma DeadMeansMalformed(bytes: string, more: string, ws: seq<Wire>)
    requires Feed(START, bytes).Dead? && AllWellFormed(ws)
    ensures bytes + more != TextAll(ws)
  {
    FeedTwice(START, bytes, more);
    DecodesStream(ws);
  }

  /** The grammar is unambiguous. */
  lemma GrammarUnambiguous(a: seq<Wire>, b: seq<Wire>)
    requires AllWellFormed(a) && AllWellFormed(b) && TextAll(a) == TextAll(b)
    ensures Values(a) == Values(b)
  {
    DecodesStream(a);
    DecodesStream(b);
  }

  /** A pipeline of encoded replies, cut anywhere, delivers exactly those replies. */
  lemma RepliesRoundTrip(rs: seq<Reply>, chunks: seq<string>)
    requires AllEncodable(rs) && Concat(chunks) == EncodeAll(rs)
    ensures FeedAll(START, chunks) == Live(rs, None, "")
  {
    ChunkIndependence(START, chunks);
    CanonAllWellFormed(rs);
    CanonTextAll(rs);
    DecodesStream(CanonAll(rs));
  }
}
