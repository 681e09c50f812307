/** The array builder, which owns the builder of its current row, and the builder factory. */
module ArrayBuilders {
  import opened Text
  import opened Resp
  import opened Builders

  /** An owned builder: `std::unique_ptr<builder_iface>` as the sum of its implementations. */
  datatype BuilderRef =
    | SimpleRef(simple: SimpleStringBuilder)
    | ErrorRef(error: ErrorBuilder)
    | IntegerRef(integer: IntegerBuilder)
    | BulkRef(bulk: BulkStringBuilder)
    | ArrayRef(array: ArrayBuilder)

  ghost function Root(b: BuilderRef): object {
    match b
    case SimpleRef(o) => o
    case ErrorRef(o) => o
    case IntegerRef(o) => o
    case BulkRef(o) => o
    case ArrayRef(o) => o
  }

  /** Every object a builder may change. */
  ghost function Footprint(b: BuilderRef): set<object>
    reads Root(b)
  {
    match b
    case SimpleRef(o) => {o}
    case ErrorRef(o) => {o, o.stringBuilder}
    case IntegerRef(o) => {o}
    case BulkRef(o) => {o, o.intBuilder}
    case ArrayRef(o) => o.Repr
  }

  ghost predicate ValidRef(b: BuilderRef)
    reads Root(b), Footprint(b)
    decreases Footprint(b), 1
  {
    match b
    case SimpleRef(o) => o.Valid()
    case ErrorRef(o) => o.Valid()
    case IntegerRef(o) => o.Valid()
    case BulkRef(o) => o.Valid()
    case ArrayRef(o) => o.Valid()
  }

  ghost function ViewOf(b: BuilderRef): View
    reads Root(b), Footprint(b)
  {
    match b
    case SimpleRef(o) => o.View()
    case ErrorRef(o) => o.View()
    case IntegerRef(o) => o.View()
    case BulkRef(o) => o.View()
    case ArrayRef(o) => o.view
  }

  /** What an array still waits for while `current` is on its current row. */
  function RowsPending(count: nat, rows: seq<Reply>, current: Option<View>): Pending {
    match current
    case Some(Waiting(p)) => PRows(count, rows, Some(p))
    case _ => PRows(count, rows, None)
  }

  /** What an array does with the step of its current row. */
  function RowStep(count: nat, rows: seq<Reply>, s: Step): Step {
    match s
    case Fail(f) => Fail(f)
    case More(c, rest) => More(PRows(count, rows, Some(c)), rest)
    case Done(row, rest) =>
      if |rows| + 1 == count then Done(Array(rows + [row]), rest)
      else Run(PRows(count, rows + [row], None), rest)
  }

  class ArrayBuilder {
    const intBuilder: IntegerBuilder
    var arraySize: nat
    var currentBuilder: Option<BuilderRef>
    var replyReady: bool
    var reply: Reply
    ghost var view: View
    ghost var Repr: set<object>

    ghost predicate OwnsCurrent()
      reads this, Repr
    {
      && this in Repr && intBuilder in Repr
      && (currentBuilder.Some? ==>
            var c := currentBuilder.value;
            Root(c) in Repr && Footprint(c) <= Repr && this !in Footprint(c) && intBuilder !in Footprint(c))
    }

    ghost predicate Valid()
      reads this, Repr
      decreases Repr, 0
    {
      && OwnsCurrent()
      && intBuilder.Valid()
      && (currentBuilder.Some? ==> ValidRef(currentBuilder.value) && ViewOf(currentBuilder.value).Waiting?)
      && (if replyReady then view == Ready(reply)
          else
            && reply.Array?
            && (if !intBuilder.replyReady
                then currentBuilder == None && reply == Array([]) && view == Waiting(PArraySize)
                else |reply.rows| < arraySize
                     && view == Waiting(RowsPending(arraySize, reply.rows,
                          if currentBuilder.Some? then Some(ViewOf(currentBuilder.value)) else None))))
    }

    constructor ()
      ensures Valid() && fresh(Repr) && view == Waiting(PArraySize)
    {
      intBuilder := new IntegerBuilder();
      arraySize, currentBuilder, replyReady, reply := 0, None, false, Array([]);
      view := Waiting(PArraySize);
      new;
      Repr := {this, intBuilder};
    }

    /** Reads the number of rows; a negative one is the null array and zero the empty array. */
    method FetchArraySize(buf: Buffer) returns (fetched: bool, failed: Option<Failure>)
      requires Valid() && buf !in Repr && !replyReady
      modifies Repr, buf
      ensures Repr == old(Repr)
      ensures failed.None? ==> |buf.data| <= |old(buf.data)|
      ensures failed.None? ==> Valid() && fetched == intBuilder.replyReady && (!fetched ==> !replyReady)
      ensures failed.None? ==> RunView(old(view), old(buf.data)) == RunView(view, buf.data)
      ensures failed.None? && !fetched ==> Reached(RunView(view, buf.data), None, view, buf.data)
      ensures failed.Some? ==> RunView(old(view), old(buf.data)) == Fail(failed.value)
    {
      fetched, failed := true, None;
      if intBuilder.replyReady { return; }
      failed := intBuilder.Feed(buf);
      if failed.Some? { return; }
      if !intBuilder.replyReady { return false, None; }
      var size := intBuilder.GetInteger();
      if size < 0 {
        reply := Null;
        replyReady := true;
        view := Ready(reply);
      } else if size == 0 {
        replyReady := true;
        view := Ready(reply);
      } else {
        view := Waiting(PRows(size, [], None));
      }
      arraySize := size % TWO_TO_64;
    }

    /** A row is being built; `view` need not have caught up with the current builder. */
    ghost predicate InRow()
      reads this, Repr
    {
      && OwnsCurrent() && intBuilder.Valid() && intBuilder.replyReady && !replyReady
      && reply.Array? && |reply.rows| < arraySize
      && currentBuilder.Some? && ValidRef(currentBuilder.value) && ViewOf(currentBuilder.value).Waiting?
    }

    /** Picks the builder of the next row from its type byte, which is consumed. */
    method StartRow(buf: Buffer) returns (failed: Option<Failure>)
      requires Valid() && buf !in Repr && !replyReady && intBuilder.replyReady
      requires buf.data != "" && currentBuilder.None?
      modifies this, buf
      ensures failed.None? ==> InRow() && fresh(Repr - old(Repr)) && buf !in Repr
      ensures failed.None? ==> CreateBuilder(old(buf.data)[0]) == Some(ViewOf(currentBuilder.value).pending)
      ensures failed.None? ==> buf.data == old(buf.data)[1..]
      ensures failed.Some? ==> failed.value == InvalidType && CreateBuilder(old(buf.data)[0]) == None
      ensures reply == old(reply) && arraySize == old(arraySize)
    {
      failed := None;
      var created := CreateBuilderObject(buf.data[0]);
      if created.None? { return Some(InvalidType); }
      currentBuilder := created;
      buf.data := buf.data[1..];
      Repr := Repr + Footprint(created.value);
    }

    /** Feeds the current builder and, once it is ready, appends its row. */
    method FeedRow(buf: Buffer) returns (built: bool, failed: Option<Failure>)
      requires InRow() && buf !in Repr
      modifies Repr, buf
      ensures failed.None? ==> Valid() && fresh(Repr - old(Repr)) && buf !in Repr && intBuilder.replyReady
      ensures var s := RowStep(old(arraySize), old(reply.rows),
                               Run(old(ViewOf(currentBuilder.value)).pending, old(buf.data)));
              if failed.None? && built then s == RunView(view, buf.data) && |buf.data| < |old(buf.data)|
              else Reached(s, failed, view, buf.data)
      decreases |buf.data|, Repr, 1
    {
      failed := FeedCurrent(buf);
      if failed.Some? { return false, failed; }
      var c := currentBuilder.value;
      var done := RefReady(c);
      if done {
        var row := RefReply(c);
        AppendRow(row);
        built := true;
      } else {
        view := Waiting(RowsPending(arraySize, reply.rows, Some(ViewOf(c))));
        built := false;
      }
    }

    method FeedCurrent(buf: Buffer) returns (failed: Option<Failure>)
      requires InRow() && buf !in Repr
      modifies `Repr, Footprint(currentBuilder.value), buf
      ensures failed.None? ==>
                OwnsCurrent() && ValidRef(currentBuilder.value) && fresh(Repr - old(Repr)) && buf !in Repr
      ensures unchanged(intBuilder) && currentBuilder == old(currentBuilder)
      ensures Reached(Run(old(ViewOf(currentBuilder.value)).pending, old(buf.data)), failed,
                      ViewOf(currentBuilder.value), buf.data)
      decreases |buf.data|, Repr, 0
    {
      failed := FeedRef(currentBuilder.value, buf);
      if failed.None? { Repr := Repr + Footprint(currentBuilder.value); }
    }

    method AppendRow(row: Reply)
      requires this in Repr && intBuilder in Repr && intBuilder.Valid() && intBuilder.replyReady && !replyReady
      requires reply.Array? && |reply.rows| < arraySize
      modifies this
      ensures Valid() && Repr == old(Repr)
      ensures view == if |old(reply.rows)| + 1 == arraySize then Ready(Array(old(reply.rows) + [row]))
                      else Waiting(PRows(arraySize, old(reply.rows) + [row], None))
      ensures arraySize == old(arraySize)
    {
      reply := Array(reply.rows + [row]);
      currentBuilder := None;
      if |reply.rows| == arraySize {
        replyReady := true;
        view := Ready(reply);
      } else {
        view := Waiting(PRows(arraySize, reply.rows, None));
      }
    }

    /** Builds at most one row. */
    method BuildRow(buf: Buffer) returns (built: bool, failed: Option<Failure>)
      requires Valid() && buf !in Repr && !replyReady && intBuilder.replyReady && buf.data != ""
      modifies Repr, buf
      ensures failed.None? ==> Valid() && fresh(Repr - old(Repr)) && buf !in Repr && intBuilder.replyReady
      ensures if failed.None? && built then
                Run(old(view).pending, old(buf.data)) == RunView(view, buf.data) && |buf.data| < |old(buf.data)|
              else Reached(Run(old(view).pending, old(buf.data)), failed, view, buf.data)
      decreases |buf.data|, Repr, 2
    {
      if currentBuilder.None? {
        failed := StartRow(buf);
        if failed.Some? { return false, failed; }
      }
      built, failed := FeedRow(buf);
    }

    method Feed(buf: Buffer) returns (failed: Option<Failure>)
      requires Valid() && buf !in Repr
      modifies Repr, buf
      ensures failed.None? ==> Valid() && fresh(Repr - old(Repr)) && buf !in Repr
      ensures Reached(RunView(old(view), old(buf.data)), failed, view, buf.data)
      decreases |buf.data|, Repr, 3
    {
      failed := None;
      if replyReady { return; }
      var fetched;
      fetched, failed := FetchArraySize(buf);
      if failed.Some? || !fetched { return; }
      while buf.data != "" && !replyReady
        invariant failed == None && Valid() && fresh(Repr - old(Repr)) && buf !in Repr && intBuilder.replyReady
        invariant RunView(old(view), old(buf.data)) == RunView(view, buf.data)
        invariant |buf.data| < |old(buf.data)| || (|buf.data| == |old(buf.data)| && Repr == old(Repr))
        decreases |buf.data|
      {
        var built;
        built, failed := BuildRow(buf);
        if failed.Some? || !built { return; }
      }
    }
  }

  /** The factory: one fresh builder for each type byte. */
  method CreateBuilderObject(id: char) returns (b: Option<BuilderRef>)
    ensures b.Some? <==> CreateBuilder(id).Some?
    ensures b.Some? ==> fresh(Footprint(b.value)) && fresh(Root(b.value)) && Root(b.value) in Footprint(b.value)
    ensures b.Some? ==> ValidRef(b.value) && ViewOf(b.value) == Waiting(CreateBuilder(id).value)
  {
    match id
    case '+' => var o := new SimpleStringBuilder(); b := Some(SimpleRef(o));
    case '-' => var o := new ErrorBuilder(); b := Some(ErrorRef(o));
    case ':' => var o := new IntegerBuilder(); b := Some(IntegerRef(o));
    case '$' => var o := new BulkStringBuilder(); b := Some(BulkRef(o));
    case '*' => var o := new ArrayBuilder(); b := Some(ArrayRef(o));
    case _ => b := None;
  }

  /** `*builder << buffer`: dispatch to the builder's own method. */
  method FeedRef(b: BuilderRef, buf: Buffer) returns (failed: Option<Failure>)
    requires ValidRef(b) && buf !in Footprint(b)
    modifies Footprint(b), buf
    ensures failed.None? ==> ValidRef(b) && fresh(Footprint(b) - old(Footprint(b))) && buf !in Footprint(b)
    ensures Reached(RunView(old(ViewOf(b)), old(buf.data)), failed, ViewOf(b), buf.data)
    decreases |buf.data|, Footprint(b), 4
  {
    match b
    case SimpleRef(o) => failed := o.Feed(buf);
    case ErrorRef(o) => failed := o.Feed(buf);
    case IntegerRef(o) => failed := o.Feed(buf);
    case BulkRef(o) => failed := o.Feed(buf);
    case ArrayRef(o) => failed := o.Feed(buf);
  }

  method RefReady(b: BuilderRef) returns (ready: bool)
    requires ValidRef(b)
    ensures ready == ViewOf(b).Ready?
  {
    match b
    case SimpleRef(o) => ready := o.replyReady;
    case ErrorRef(o) => ready := o.stringBuilder.replyReady;
    case IntegerRef(o) => ready := o.replyReady;
    case BulkRef(o) => ready := o.replyReady;
    case ArrayRef(o) => ready := o.replyReady;
  }

  method RefReply(b: BuilderRef) returns (reply: Reply)
    requires ValidRef(b) && ViewOf(b).Ready?
    ensures ViewOf(b) == Ready(reply)
  {
    match b
    case SimpleRef(o) => reply := o.reply;
    case ErrorRef(o) => reply := o.reply;
    case IntegerRef(o) => reply := o.reply;
    case BulkRef(o) => reply := o.reply;
    case ArrayRef(o) => reply := o.reply;
  }
}
