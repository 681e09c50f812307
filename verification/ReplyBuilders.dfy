/** The top-level builder: buffers incoming data and queues the replies it completes. */
module ReplyBuilders {
  import opened Text
  import opened Resp
  import opened Builders
  import opened ArrayBuilders
  import D = Decoder

  lemma PumpUnfolds(d: D.Decoder)
    requires d.Live?
    ensures d.buffer == "" ==> D.Pump(d) == d
    ensures d.buffer != "" ==>
              match D.NextStep(d.current, d.buffer)
              case Fail(f) => D.Pump(d) == D.Dead(d.replies, f)
              case More(p, rest) => D.Pump(d) == D.Live(d.replies, Some(p), rest)
              case Done(r, rest) => D.Pump(d) == D.Pump(D.Live(d.replies + [r], None, rest))
  {}

  class ReplyBuilder {
    const buffer: Buffer
    var builder: Option<BuilderRef>
    var availableReplies: seq<Reply>
    ghost var thrown: Option<Failure>
    ghost var Repr: set<object>

    /** After a throw only the queued replies are still meaningful. */
    ghost predicate Valid()
      reads this, Repr
    {
      && this in Repr && buffer in Repr
      && (builder.Some? ==>
            var b := builder.value;
            Root(b) in Repr && Footprint(b) <= Repr && this !in Footprint(b) && buffer !in Footprint(b))
      && (thrown.None? && builder.Some? ==> ValidRef(builder.value) && ViewOf(builder.value).Waiting?)
    }

    ghost function Model(): D.Decoder
      requires Valid()
      reads this, Repr
    {
      if thrown.Some? then D.Dead(availableReplies, thrown.value)
      else D.Live(availableReplies, if builder.Some? then Some(ViewOf(builder.value).pending) else None, buffer.data)
    }

    constructor ()
      ensures Valid() && fresh(Repr) && Model() == D.START
    {
      buffer := new Buffer("");
      builder, availableReplies, thrown := None, [], None;
      new;
      Repr := {this, buffer};
    }

    /** Feeds the builder in progress, or a new one, and queues its reply once it is ready. */
    method BuildReply() returns (built: bool, failed: Option<Failure>)
      requires Valid() && thrown.None?
      modifies Repr
      ensures Valid() && fresh(Repr - old(Repr)) && thrown == failed
      ensures built ==> failed.None? && |buffer.data| < |old(buffer.data)|
      ensures built ==> D.Pump(old(Model())) == D.Pump(Model())
      ensures !built ==> Model() == D.Pump(old(Model()))
    {
      PumpUnfolds(Model());
      if buffer.data == "" { return false, None; }
      failed := FeedBuilder();
      if failed.Some? { return false, failed; }
      built := QueueReply();
    }

    /** The reply of the builder in progress, if it is ready, becomes available. */
    method QueueReply() returns (built: bool)
      requires this in Repr && buffer in Repr && thrown.None? && builder.Some? && ValidRef(builder.value)
      requires ViewOf(builder.value).Waiting? ==> Valid()
      modifies this
      ensures Valid() && Repr == old(Repr) && thrown.None?
      ensures built == old(ViewOf(builder.value)).Ready?
      ensures Model() == match old(ViewOf(builder.value))
                         case Ready(r) => D.Live(old(availableReplies) + [r], None, buffer.data)
                         case Waiting(p) => D.Live(old(availableReplies), Some(p), buffer.data)
    {
      built := RefReady(builder.value);
      if built {
        var reply := RefReply(builder.value);
        availableReplies := availableReplies + [reply];
        builder := None;
      }
    }

    method FeedBuilder() returns (failed: Option<Failure>)
      requires Valid() && thrown.None? && buffer.data != ""
      modifies Repr
      ensures this in Repr && buffer in Repr && fresh(Repr - old(Repr)) && thrown == failed
      ensures availableReplies == old(availableReplies)
      ensures failed.Some? ==> Valid() && D.NextStep(old(Model()).current, old(buffer.data)) == Fail(failed.value)
      ensures failed.None? ==> builder.Some? && ValidRef(builder.value)
      ensures failed.None? ==> Reached(D.NextStep(old(Model()).current, old(buffer.data)), None,
                                       ViewOf(builder.value), buffer.data)
      ensures failed.None? && ViewOf(builder.value).Waiting? ==> Valid()
    {
      failed := Begin();
      if failed.Some? { return failed; }
      failed := FeedCurrent();
    }

    /** Feeds the builder in progress; a throw leaves it behind. */
    method FeedCurrent() returns (failed: Option<Failure>)
      requires Valid() && thrown.None? && builder.Some?
      modifies Repr
      ensures this in Repr && buffer in Repr && fresh(Repr - old(Repr)) && thrown == failed
      ensures availableReplies == old(availableReplies)
      ensures failed.Some? ==>
                Valid() && Run(old(ViewOf(builder.value)).pending, old(buffer.data)) == Fail(failed.value)
      ensures failed.None? ==> builder == old(builder) && ValidRef(builder.value)
      ensures failed.None? ==> Reached(Run(old(ViewOf(builder.value)).pending, old(buffer.data)), None,
                                       ViewOf(builder.value), buffer.data)
      ensures failed.None? && ViewOf(builder.value).Waiting? ==> Valid()
    {
      var b := builder.value;
      failed := FeedRef(b, buffer);
      thrown := failed;
      if failed.Some? {
        builder := None;
      } else {
        Repr := Repr + Footprint(b);
      }
    }

    /** Makes sure a builder is in progress, choosing it by the first byte. */
    method Begin() returns (failed: Option<Failure>)
      requires Valid() && thrown.None? && buffer.data != ""
      modifies this, buffer
      ensures Valid() && fresh(Repr - old(Repr)) && thrown == failed && availableReplies == old(availableReplies)
      ensures old(builder).Some? ==> builder == old(builder) && buffer.data == old(buffer.data) && failed.None?
      ensures old(builder).None? ==>
                failed == (if CreateBuilder(old(buffer.data)[0]).Some? then None else Some(InvalidType))
      ensures old(builder).None? && failed.None? ==>
                builder.Some? && ViewOf(builder.value) == Waiting(CreateBuilder(old(buffer.data)[0]).value)
                && buffer.data == old(buffer.data)[1..]
    {
      failed := None;
      if builder.None? {
        builder := CreateBuilderObject(buffer.data[0]);
        if builder.None? {
          thrown := Some(InvalidType);
          return Some(InvalidType);
        }
        buffer.data := buffer.data[1..];
        Repr := Repr + Footprint(builder.value);
      }
    }

    method Feed(data: string) returns (failed: Option<Failure>)
      requires Valid() && thrown.None?
      modifies Repr
      ensures Valid() && fresh(Repr - old(Repr))
      ensures Model() == D.Feed(old(Model()), data) && thrown == failed
    {
      buffer.data := buffer.data + data;
      var building := true;
      failed := None;
      while building
        invariant Valid() && fresh(Repr - old(Repr)) && thrown == failed
        invariant failed.Some? ==> !building
        invariant building ==> D.Pump(Model()) == D.Feed(old(Model()), data)
        invariant !building ==> Model() == D.Feed(old(Model()), data)
        decreases building, |buffer.data|
      {
        building, failed := BuildReply();
      }
    }

    /** The oldest reply, or the error thrown when there is none. */
    method GetFront() returns (front: Option<Reply>)
      ensures front == if availableReplies == [] then None else Some(availableReplies[0])
    {
      front := if |availableReplies| > 0 then Some(availableReplies[0]) else None;
    }

    method PopFront() returns (popped: bool)
      modifies this`availableReplies
      ensures popped == (old(availableReplies) != [])
      ensures availableReplies == if popped then old(availableReplies)[1..] else []
    {
      popped := |availableReplies| > 0;
      if popped { availableReplies := availableReplies[1..]; }
    }
  }
}
