// The matching engine: one writer that owns the book, takes commands off its
// channel one at a time, and publishes what each did as a numbered event stream.

module Engine {
  import opened Domain
  import opened FlatBook
  import opened EventStream
  import opened BookSides
  import opened OrderBooks
  import opened Stores
  import opened DepthQuery
  import opened BookInvariant
  import opened Execution
  import Pipeline
  import EventIds

  datatype EngineCommand =
    | PlaceOrder(order: OrderCell)
    | CancelOrder(orderId: string)
    | TakeSnapshot(depth: int)
  {
    function Value(): Pipeline.Command
      reads Carried(this)
    {
      match this
      case PlaceOrder(o) => Pipeline.PlaceCommand(o.Snap())
      case CancelOrder(id) => Pipeline.CancelCommand(id)
      case TakeSnapshot(d) => Pipeline.SnapshotCommand(d)
    }
  }

  // The order a command carries, if it carries one.
  ghost function Carried(cmd: EngineCommand): set<OrderCell> {
    if cmd.PlaceOrder? then {cmd.order} else {}
  }

  ghost function AllCarried(cmds: seq<EngineCommand>): set<OrderCell> {
    if cmds == [] then {} else Carried(cmds[0]) + AllCarried(cmds[1..])
  }

  ghost function Values(cmds: seq<EngineCommand>): seq<Pipeline.Command>
    reads AllCarried(cmds)
  {
    if cmds == [] then [] else [cmds[0].Value()] + Values(cmds[1..])
  }

  lemma {:induction false} ValuesAt(cmds: seq<EngineCommand>)
    ensures |Values(cmds)| == |cmds|
    ensures forall i :: 0 <= i < |cmds| ==> Values(cmds)[i] == cmds[i].Value() && Carried(cmds[i]) <= AllCarried(cmds)
  {
    if cmds != [] {
      ValuesAt(cmds[1..]);
    }
  }

  // No order object is queued twice.
  ghost predicate Separate(cmds: seq<EngineCommand>) {
    cmds == [] || (Carried(cmds[0]) !! AllCarried(cmds[1..]) && Separate(cmds[1..]))
  }

  datatype Reply = OrderReply(order: Order) | SnapshotReply(snapshot: BookSnapshot) | ErrorReply(error: Error)

  // The engine's command channel.
  class Channel {
    var waiting: seq<EngineCommand>

    constructor ()
      ensures waiting == []
    {
      waiting := [];
    }

    method Send(cmd: EngineCommand)
      modifies this
      ensures waiting == old(waiting) + [cmd]
    {
      waiting := waiting + [cmd];
    }

    method Receive() returns (cmd: EngineCommand)
      requires waiting != []
      modifies this
      ensures cmd == old(waiting)[0] && waiting == old(waiting)[1..]
    {
      cmd := waiting[0];
      waiting := waiting[1..];
    }
  }

  lemma {:induction false} FillEventsAppend(a: seq<Fill>, b: seq<Fill>)
    ensures FillEvents(a + b) == FillEvents(a) + FillEvents(b)
  {
    if a == [] {
      assert a + b == b;
    } else {
      assert (a + b)[1..] == a[1..] + b;
      FillEventsAppend(a[1..], b);
      var head := [TradeOnly(a[0].trade), Update(a[0].maker, 0, 0)];
      assert head + (FillEvents(a[1..]) + FillEvents(b)) == (head + FillEvents(a[1..])) + FillEvents(b);
    }
  }

  lemma FillEventsNext(fills: seq<Fill>, i: nat)
    requires i < |fills|
    ensures FillEvents(fills[..i + 1])
         == FillEvents(fills[..i]) + [TradeOnly(fills[i].trade)] + [Update(fills[i].maker, 0, 0)]
  {
    assert fills[..i + 1] == fills[..i] + [fills[i]];
    FillEventsAppend(fills[..i], [fills[i]]);
    assert FillEvents([fills[i]]) == [TradeOnly(fills[i].trade)] + [Update(fills[i].maker, 0, 0)];
  }

  // What a command is answered, given the book before it and the log before and
  // after it.
  ghost predicate RightReply(c: Pipeline.Command, reply: Reply, b: Book, log: seq<Event>, log': seq<Event>) {
    match c
    case PlaceCommand(o) =>
      && reply.OrderReply? && reply.order.Terms() == o.Terms()
      && |log| < |log'| && log'[|log'| - 1].order == Some(reply.order)
    case CancelCommand(id) =>
      if NoId(b.bids, id) && NoId(b.asks, id) then
        reply == ErrorReply(ErrOrderNotFound) && log' == log
      else
        && reply.OrderReply? && reply.order.id == id && reply.order.status == Cancelled
        && |log'| == |log| + 1 && log'[|log|].order == Some(reply.order)
    case SnapshotCommand(depth) =>
      && reply.SnapshotReply? && reply.snapshot.symbol == b.symbol && log' == log
      && ShowsBest(true, reply.snapshot.bids, b.bids, depth) && ShowsBest(false, reply.snapshot.asks, b.asks, depth)
  }

  lemma PlacedReply(b: Book, o: Order, producer: string, log: seq<Event>)
    requires BookInv(b) && Placeable(b, o)
    ensures RightReply(Pipeline.PlaceCommand(o), OrderReply(Place(b, o).taker), b, log,
                       Publish(producer, log, PlaceEvents(Place(b, o))))
  {
    var p := Place(b, o);
    var events := PlaceEvents(p);
    MatchTakerResting(b, o);
    assert events[|events| - 1] == Update(p.taker, p.release, 0);
    assert Publish(producer, log, events)[|log| + (|events| - 1)].order == Some(p.taker);
  }

  lemma CancelledReply(b: Book, id: string, producer: string, log: seq<Event>)
    ensures var c := Cancel(b, id);
      RightReply(Pipeline.CancelCommand(id),
                 if c.None? then ErrorReply(ErrOrderNotFound) else OrderReply(c.value.order), b, log,
                 if c.None? then log else Publish(producer, log, CancelEvents(c)))
  {
    NothingToCancel(b, id);
    if Cancel(b, id).Some? {
      CancelNames(b, id);
      assert Publish(producer, log, CancelEvents(Cancel(b, id)))[|log| + 0].order == Some(Cancel(b, id).value.order);
    }
  }

  class Worker {
    const book: OrderBook
    const sink: EventLog
    const input: Channel
    const producerId: string
    var seqNo: nat

    ghost predicate Numbered()
      reads this, sink
    {
      sink.Valid() && seqNo == |sink.published|
    }

    ghost predicate Valid()
      reads this, sink, book, book.bids, book.asks, book.bids.owned, book.asks.owned, book.bids.flat, book.asks.flat
    {
      Numbered() && book.Valid()
    }

    constructor (symbol: string, sink: EventLog, input: Channel, producerId: string)
      requires sink.Valid() && sink.published == []
      ensures Valid() && this.sink == sink && this.input == input && this.producerId == producerId
      ensures book.View() == EmptyBook(symbol)
    {
      this.sink, this.input, this.producerId, seqNo := sink, input, producerId, 0;
      book := new OrderBook(symbol);
    }

    // Numbers and identifies an event, then hands it to the log.
    method PublishEvent(e: Event)
      requires Numbered()
      modifies this, sink
      ensures Numbered() && sink.published == Publish(producerId, old(sink.published), [e])
      ensures book.View() == old(book.View()) && (old(book.Valid()) ==> book.Valid())
    {
      seqNo := seqNo + 1;
      sink.Publish(e.(sequence := seqNo, id := EventIds.Join(producerId, seqNo)));
    }

    // Each fill as a trade and the maker's new state.
    method PublishFills(fills: seq<Fill>, ghost log: seq<Event>)
      requires Numbered() && log == sink.published
      modifies this, sink
      ensures Numbered() && sink.published == Publish(producerId, log, FillEvents(fills))
      ensures book.View() == old(book.View()) && (old(book.Valid()) ==> book.Valid())
    {
      var i := 0;
      while i < |fills|
        invariant 0 <= i <= |fills| && Numbered()
        invariant sink.published == Publish(producerId, log, FillEvents(fills[..i]))
        invariant book.View() == old(book.View()) && (old(book.Valid()) ==> book.Valid())
      {
        PublishEvent(TradeOnly(fills[i].trade));
        PublishEvent(Update(fills[i].maker, 0, 0));
        FillEventsNext(fills, i);
        PublishTwice(producerId, log, FillEvents(fills[..i]), [TradeOnly(fills[i].trade)]);
        PublishTwice(producerId, log, FillEvents(fills[..i]) + [TradeOnly(fills[i].trade)],
                     [Update(fills[i].maker, 0, 0)]);
        i := i + 1;
      }
      assert fills[..i] == fills;
    }

    method HandlePlace(o: OrderCell, ghost b: Book, ghost taker: Order, ghost log: seq<Event>)
      returns (reply: Reply, ghost p: Placed)
      requires Valid() && book.View() == b && sink.published == log && o.Snap() == taker && Placeable(b, taker)
      modifies this, sink, o
      modifies book, book.bids, book.asks, book.bids.owned, book.asks.owned, book.Cells()
      ensures Valid() && p == Place(b, taker) && book.Cells() <= old(book.Cells()) + {o}
      ensures book.View() == p.book && reply == OrderReply(p.taker) && o.Snap() == p.taker
      ensures sink.published == Publish(producerId, log, PlaceEvents(p))
      ensures forall l ::
          l in book.bids.owned + book.asks.owned && l !in old(book.bids.owned + book.asks.owned) ==> fresh(l)
    {
      p := Place(b, taker);
      var fills, snapshot, release := PlaceOnBook(o, b, taker, p);
      PublishPlaced(fills, snapshot, release, log, p);
      reply := OrderReply(snapshot);
    }

    // The book takes the order; nothing is published yet.
    method PlaceOnBook(o: OrderCell, ghost b: Book, ghost taker: Order, ghost p: Placed)
      returns (fills: seq<Fill>, snapshot: Order, release: int)
      requires Valid() && book.View() == b && o.Snap() == taker && Placeable(b, taker) && p == Place(b, taker)
      modifies o, book, book.bids, book.asks, book.bids.owned, book.asks.owned, book.Cells()
      ensures Valid() && book.Cells() <= old(book.Cells()) + {o} && book.View() == p.book && o.Snap() == p.taker
      ensures fills == p.fills && snapshot == p.taker && release == p.release
      ensures forall l ::
          l in book.bids.owned + book.asks.owned && l !in old(book.bids.owned + book.asks.owned) ==> fresh(l)
    {
      var res := book.Place(o);
      fills, snapshot, release := res.fills, res.taker.Snap(), res.takerReleaseCOP;
    }

    method PublishPlaced(fills: seq<Fill>, taker: Order, release: int, ghost log: seq<Event>, ghost p: Placed)
      requires Numbered() && log == sink.published && fills == p.fills && taker == p.taker && release == p.release
      modifies this, sink
      ensures Numbered() && sink.published == Publish(producerId, log, PlaceEvents(p))
      ensures book.View() == old(book.View()) && (old(book.Valid()) ==> book.Valid())
      ensures book.Cells() == old(book.Cells())
      ensures book.bids.owned == old(book.bids.owned) && book.asks.owned == old(book.asks.owned)
    {
      PublishFills(fills, log);
      PublishEvent(Update(taker, release, 0));
      PublishTwice(producerId, log, FillEvents(fills), [Update(taker, release, 0)]);
    }

    method HandleCancel(orderId: string, ghost b: Book, ghost log: seq<Event>)
      returns (reply: Reply, ghost c: Option<Cancellation>)
      requires Valid() && book.View() == b && sink.published == log
      modifies this, sink
      modifies book, book.bids, book.asks, book.bids.owned, book.asks.owned, book.Cells()
      ensures Valid() && book.Cells() <= old(book.Cells())
      ensures book.bids.owned == old(book.bids.owned) && book.asks.owned == old(book.asks.owned)
      ensures c == Cancel(b, orderId)
      ensures book.View() == (if c.None? then b else c.value.book)
      ensures reply == (if c.None? then ErrorReply(ErrOrderNotFound) else OrderReply(c.value.order))
      ensures sink.published == if c.None? then log else Publish(producerId, log, CancelEvents(c))
    {
      c := Cancel(b, orderId);
      var res := book.Cancel(orderId);
      reply := PublishCancelled(res, log, c);
    }

    method PublishCancelled(res: Option<CancelResult>, ghost log: seq<Event>, ghost c: Option<Cancellation>)
      returns (reply: Reply)
      requires Numbered() && log == sink.published && res.Some? == c.Some?
      requires c.Some? ==> && res.value.order.Snap() == c.value.order
                           && res.value.releaseCOP == c.value.releaseCOP
                           && res.value.releaseVibranium == c.value.releaseVibranium
      modifies this, sink
      ensures Numbered() && sink.published == if c.None? then log else Publish(producerId, log, CancelEvents(c))
      ensures reply == (if c.None? then ErrorReply(ErrOrderNotFound) else OrderReply(c.value.order))
      ensures book.View() == old(book.View()) && (old(book.Valid()) ==> book.Valid())
      ensures book.bids.owned == old(book.bids.owned) && book.asks.owned == old(book.asks.owned)
    {
      if res.None? {
        return ErrorReply(ErrOrderNotFound);
      }
      var snapshot := res.value.order.Snap();
      PublishEvent(Update(snapshot, res.value.releaseCOP, res.value.releaseVibranium));
      reply := OrderReply(snapshot);
    }

    // One command: what it does to the book and to the log is what Process says.
    method Handle(cmd: EngineCommand) returns (reply: Reply)
      requires Valid()
      requires cmd.PlaceOrder? ==> Placeable(book.View(), cmd.order.Snap())
      modifies this, sink, Carried(cmd)
      modifies book, book.bids, book.asks, book.bids.owned, book.asks.owned, book.Cells()
      ensures Valid() && book.Cells() <= old(book.Cells()) + Carried(cmd)
      ensures forall l ::
          l in book.bids.owned + book.asks.owned && l !in old(book.bids.owned + book.asks.owned) ==> fresh(l)
      ensures var (b, events) := Pipeline.Process(old(book.View()), old(cmd.Value()));
        book.View() == b && sink.published == Publish(producerId, old(sink.published), events)
      ensures RightReply(old(cmd.Value()), reply, old(book.View()), old(sink.published), sink.published)
      ensures cmd.PlaceOrder? ==> reply == OrderReply(cmd.order.Snap())
    {
      ghost var b, log := book.View(), sink.published;
      match cmd
      case PlaceOrder(o) =>
        ghost var p;
        PlacedReply(b, o.Snap(), producerId, log);
        reply, p := HandlePlace(o, b, o.Snap(), log);
      case CancelOrder(id) =>
        ghost var c;
        CancelledReply(b, id, producerId, log);
        reply, c := HandleCancel(id, b, log);
      case TakeSnapshot(depth) =>
        var snapshot := book.Snapshot(depth);
        reply := SnapshotReply(snapshot);
    }

    // One turn of the engine's loop: the oldest command waiting.
    method Step() returns (reply: Reply)
      requires Valid() && input.waiting != []
      requires input.waiting[0].PlaceOrder? ==> Placeable(book.View(), input.waiting[0].order.Snap())
      modifies this, sink, input, Carried(input.waiting[0])
      modifies book, book.bids, book.asks, book.bids.owned, book.asks.owned, book.Cells()
      ensures Valid() && input.waiting == old(input.waiting)[1..]
      ensures book.Cells() <= old(book.Cells()) + Carried(old(input.waiting)[0])
      ensures forall l ::
          l in book.bids.owned + book.asks.owned && l !in old(book.bids.owned + book.asks.owned) ==> fresh(l)
      ensures var (b, events) := Pipeline.Process(old(book.View()), old(input.waiting[0].Value()));
        book.View() == b && sink.published == Publish(producerId, old(sink.published), events)
      ensures RightReply(old(input.waiting[0].Value()), reply, old(book.View()), old(sink.published), sink.published)
      ensures old(input.waiting[0]).PlaceOrder? ==> reply == OrderReply(old(input.waiting)[0].order.Snap())
    {
      ghost var b, c := book.View(), input.waiting[0].Value();
      var cmd := input.Receive();
      assert book.View() == b && cmd.Value() == c;
      reply := Handle(cmd);
    }

    // The same turn leaves orders that are elsewhere as they were.
    method StepBeside(ghost aside: seq<EngineCommand>, ghost values: seq<Pipeline.Command>) returns (reply: Reply)
      requires Valid() && input.waiting != []
      requires input.waiting[0].PlaceOrder? ==> Placeable(book.View(), input.waiting[0].order.Snap())
      requires Values(aside) == values
      requires AllCarried(aside) !! book.Cells() + Carried(input.waiting[0])
      modifies this, sink, input, Carried(input.waiting[0])
      modifies book, book.bids, book.asks, book.bids.owned, book.asks.owned, book.Cells()
      ensures Valid() && input.waiting == old(input.waiting)[1..]
      ensures book.Cells() <= old(book.Cells()) + Carried(old(input.waiting)[0])
      ensures forall l ::
          l in book.bids.owned + book.asks.owned && l !in old(book.bids.owned + book.asks.owned) ==> fresh(l)
      ensures var (b, events) := Pipeline.Process(old(book.View()), old(input.waiting[0].Value()));
        book.View() == b && sink.published == Publish(producerId, old(sink.published), events)
      ensures RightReply(old(input.waiting[0].Value()), reply, old(book.View()), old(sink.published), sink.published)
      ensures Values(aside) == values
    {
      ValuesAt(aside);
      reply := Step();
      forall i | 0 <= i < |aside|
        ensures aside[i].Value() == values[i]
      {
        assert aside[i].PlaceOrder? ==> aside[i].order in AllCarried(aside);
      }
      ValuesAt(aside);
      assert Values(aside) == values;
    }

    // One turn as a step of a run through the channel.
    method Turn(ghost b: Book, ghost c: Pipeline.Command, ghost more: seq<Pipeline.Command>, ghost log: seq<Event>)
      returns (ghost b': Book, ghost log': seq<Event>)
      requires Valid() && input.waiting != [] && Separate(input.waiting) && AllCarried(input.waiting) !! book.Cells()
      requires book.View() == b && sink.published == log && Values(input.waiting) == [c] + more
      requires Pipeline.Ready(b, [c] + more)
      modifies this, sink, input, AllCarried(input.waiting)
      modifies book, book.bids, book.asks, book.bids.owned, book.asks.owned, book.Cells()
      ensures Valid() && input.waiting == old(input.waiting)[1..]
      ensures Separate(input.waiting) && AllCarried(input.waiting) !! book.Cells()
      ensures book.Cells() <= old(book.Cells() + AllCarried(input.waiting))
      ensures forall l ::
          l in book.bids.owned + book.asks.owned && l !in old(book.bids.owned + book.asks.owned) ==> fresh(l)
      ensures Values(input.waiting) == more
      ensures b' == Pipeline.Process(b, c).0 && log' == Publish(producerId, log, Pipeline.Process(b, c).1)
      ensures book.View() == b' && sink.published == log'
    {
      b', log' := Pipeline.Process(b, c).0, Publish(producerId, log, Pipeline.Process(b, c).1);
      ghost var tail := input.waiting[1..];
      assert AllCarried(input.waiting) == Carried(input.waiting[0]) + AllCarried(tail);
      assert input.waiting[0].Value() == c && Values(tail) == more;
      var reply := StepBeside(tail, more);
    }

    // The engine's loop: every command waiting, in the order they were sent.
    method Run()
      requires Valid() && Separate(input.waiting) && AllCarried(input.waiting) !! book.Cells()
      requires Pipeline.Ready(book.View(), Values(input.waiting))
      modifies this, sink, input, AllCarried(input.waiting)
      modifies book, book.bids, book.asks, book.bids.owned, book.asks.owned, book.Cells()
      ensures Valid() && input.waiting == []
      ensures var (b, events) := Pipeline.ProcessAll(old(book.View()), old(Values(input.waiting)));
        book.View() == b && sink.published == Publish(producerId, old(sink.published), events)
    {
      ghost var b, log, cs, done := book.View(), sink.published, Values(input.waiting), [];
      ghost var cells, owned := book.Cells() + AllCarried(input.waiting), book.bids.owned + book.asks.owned;
      ghost var log0, all := log, Pipeline.ProcessAll(b, cs);
      assert [] + all.1 == all.1 && Publish(producerId, log, []) == log;
      while input.waiting != []
        invariant Valid() && Separate(input.waiting) && AllCarried(input.waiting) !! book.Cells()
        invariant book.Cells() + AllCarried(input.waiting) <= cells
        invariant forall l :: l in book.bids.owned + book.asks.owned && l !in owned ==> fresh(l)
        invariant book.View() == b && sink.published == log && Values(input.waiting) == cs
        invariant Pipeline.Ready(b, cs) && log == Publish(producerId, log0, done)
        invariant all.0 == Pipeline.ProcessAll(b, cs).0 && all.1 == done + Pipeline.ProcessAll(b, cs).1
        decreases |input.waiting|
      {
        ghost var c, more := cs[0], cs[1..];
        ghost var events := Pipeline.Process(b, c).1;
        assert cs == [c] + more;
        PublishTwice(producerId, log0, done, events);
        Pipeline.ProcessAllNext(b, c, more, done);
        b, log := Turn(b, c, more, log);
        cs, done := more, done + events;
      }
      assert cs == [] && done + [] == done;
      assert Pipeline.ProcessAll(b, []) == (b, []);
    }
  }
}
