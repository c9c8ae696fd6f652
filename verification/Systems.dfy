// The services together: one object that owns the stores, the engine, settlement
// and trading, and does nothing but call them. Whatever it is asked to do, it is
// in the state that the state machine reaches by the same steps, so every
// whole-run theorem holds of it.

module Systems {
  import opened Domain
  import opened FlatBook
  import opened EventStream
  import opened Ledger
  import Money = Ledger
  import opened Pipeline
  import opened Reachability
  import opened OrderLife
  import opened Theorems
  import opened BookSides
  import opened OrderBooks
  import opened Engine
  import Settlement
  import Trading

  ghost function Objects(cmds: seq<EngineCommand>): set<OrderCell> {
    set i | 0 <= i < |cmds| && cmds[i].PlaceOrder? :: cmds[i].order
  }

  // The commands stand for these values.
  ghost predicate Holds(cmds: seq<EngineCommand>, values: seq<Command>)
    reads Objects(cmds)
  {
    |cmds| == |values| && forall i :: 0 <= i < |cmds| ==> cmds[i].Value() == values[i]
  }

  // What the engine's objects stand for.
  datatype EngineState = EngineState(producer: string, book: Book, log: seq<Event>)

  ghost predicate HoldsOrders(cmds: seq<EngineCommand>, orders: seq<Order>)
    reads Objects(cmds)
  {
    |cmds| == |orders|
    && forall i :: 0 <= i < |cmds| ==> cmds[i].PlaceOrder? && cmds[i].order.Snap() == orders[i]
  }

  function Sends(orders: seq<Order>): seq<Command> {
    seq(|orders|, i requires 0 <= i < |orders| => PlaceCommand(orders[i]))
  }

  // Both sets of commands at once.
  lemma HeldTogether(waiting: seq<EngineCommand>, sending: seq<EngineCommand>, queue: seq<Command>, orders: seq<Order>)
    requires |waiting| == |queue|
    ensures Values(waiting + sending) == queue + Sends(orders) <==>
            Holds(waiting, queue) && HoldsOrders(sending, orders)
  {
    var all, values := waiting + sending, queue + Sends(orders);
    ValuesAt(all);
    if Values(all) == values {
      assert forall i :: 0 <= i < |waiting| ==> waiting[i] == all[i] && values[i] == queue[i];
      assert forall i :: 0 <= i < |sending| ==>
          sending[i] == all[|waiting| + i] && values[|waiting| + i] == PlaceCommand(orders[i]);
    }
  }

  // An order sent, or being sent, behind the head of the queue.
  lemma ElsewhereIsWaiting(s: State, o: Order)
    requires Inv(s) && s.queue != [] && o in PlacedOrders(s.queue[1..] + Sends(s.reserved))
    ensures NoId(s.book.bids, o.id) && NoId(s.book.asks, o.id)
    ensures s.queue[0].PlaceCommand? ==> o.id != s.queue[0].order.id
  {
    PlacedOrdersAppend(s.queue[1..], Sends(s.reserved));
    SendsPlaced(s.reserved);
    assert o in s.reserved + PlacedOrders(s.queue[1..]);
    assert o in Pending(s);
    if s.queue[0].PlaceCommand? { OthersKeepWaiting(s, o); }
  }

  lemma {:induction false} SendsPlaced(orders: seq<Order>)
    ensures PlacedOrders(Sends(orders)) == orders
  {
    if orders != [] {
      assert Sends(orders)[1..] == Sends(orders[1..]);
      SendsPlaced(orders[1..]);
    }
  }

  lemma {:induction false} CarriedIsPlaced(cmds: seq<EngineCommand>, c: OrderCell)
    requires c in AllCarried(cmds)
    ensures c.Snap() in PlacedOrders(Values(cmds))
  {
    if c !in Carried(cmds[0]) {
      CarriedIsPlaced(cmds[1..], c);
    }
  }

  class System {
    const engine: Worker
    const settlement: Settlement.Service
    const trading: Trading.Service
    const seeding: Trading.SeedService
    var sending: seq<EngineCommand>

    ghost predicate Wired() {
      && engine.input == trading.engine && engine.sink == settlement.log
      && settlement.wallets == trading.wallets && settlement.wallets == seeding.wallets
      && trading.symbol == engine.book.symbol
    }

    // Every price level the book ever opened.
    ghost function Levels(): set<PriceLevel>
      reads engine.book.bids, engine.book.asks
    {
      engine.book.bids.owned + engine.book.asks.owned
    }

    ghost function EngineView(): Option<EngineState>
      reads engine, engine.sink, engine.input, engine.book, engine.book.bids, engine.book.asks
      reads engine.book.bids.owned, engine.book.asks.owned, engine.book.bids.flat, engine.book.asks.flat
    {
      if engine.Valid() then Some(EngineState(engine.producerId, engine.book.View(), engine.sink.published)) else None
    }

    ghost predicate LedgerIs(l: Ledger)
      reads settlement.journal, settlement.wallets, settlement.wallets.cells, settlement.trades, settlement.orders
    {
      && settlement.wallets.Valid() && settlement.wallets.Contents() == l.wallets
      && settlement.journal.seen == l.journal && settlement.trades.trades == l.trades
      && settlement.orders.orders == l.orders
    }

    ghost function LedgerView(): Option<Ledger>
      reads settlement.journal, settlement.wallets, settlement.wallets.cells, settlement.trades, settlement.orders
    {
      if settlement.wallets.Valid() then Some(settlement.State()) else None
    }

    lemma LedgerSeen(l: Ledger)
      ensures LedgerView() == Some(l) <==> LedgerIs(l)
    {
    }

    // The state of the state machine that the objects stand for.
    ghost predicate Represents(s: State)
      reads this, engine, engine.sink, engine.input, engine.book, engine.book.bids, engine.book.asks
      reads engine.book.bids.owned, engine.book.asks.owned, engine.book.bids.flat, engine.book.asks.flat
      reads Objects(sending), Objects(engine.input.waiting)
      reads settlement.journal, settlement.wallets, settlement.wallets.cells, settlement.trades, settlement.orders
    {
      && EngineView() == Some(EngineState(s.producer, s.book, s.log)) && Holds(engine.input.waiting, s.queue)
      && LedgerIs(s.ledger)
      && HoldsOrders(sending, s.reserved)
    }

    // The parts, wired together and not yet used.
    constructor (engine: Worker, settlement: Settlement.Service, trading: Trading.Service, seeding: Trading.SeedService)
      requires engine.input == trading.engine && engine.sink == settlement.log
      requires settlement.wallets == trading.wallets && settlement.wallets == seeding.wallets
      requires trading.symbol == engine.book.symbol
      requires engine.Valid() && engine.book.View() == EmptyBook(engine.book.symbol)
      requires engine.sink.published == [] && engine.input.waiting == []
      requires settlement.wallets.Valid() && settlement.State() == EmptyLedger()
      ensures Wired() && Represents(Init(engine.producerId, engine.book.symbol))
    {
      this.engine, this.settlement, this.trading, this.seeding, sending := engine, settlement, trading, seeding, [];
    }

    // Handling an event, as the ledger's own objects see it.
    method HandleEvent(e: Event, ghost l: Ledger) returns (clean: bool)
      requires LedgerIs(l)
      modifies settlement.journal, settlement.wallets, settlement.wallets.cells, settlement.trades, settlement.orders
      ensures settlement.wallets.cells == old(settlement.wallets.cells)
      ensures LedgerIs(Money.Handle(l, e))
      ensures clean <==> e.id in l.journal || SettlesCleanly(l.wallets, e)
      ensures EngineView() == old(EngineView())
    {
      clean := settlement.Handle(e, true);
    }

    // The commands under way are not its business.
    method HandleBeside(e: Event, ghost l: Ledger, ghost queue: seq<Command>) returns (clean: bool)
      requires LedgerIs(l) && Holds(engine.input.waiting, queue)
      modifies settlement.journal, settlement.wallets, settlement.wallets.cells, settlement.trades, settlement.orders
      ensures settlement.wallets.cells == old(settlement.wallets.cells) && EngineView() == old(EngineView())
      ensures LedgerIs(Money.Handle(l, e)) && Holds(engine.input.waiting, queue)
      ensures clean <==> e.id in l.journal || SettlesCleanly(l.wallets, e)
    {
      clean := HandleEvent(e, l);
    }

    // The consumer is handed the i-th published event.
    method Deliver(i: nat, e: Event, ghost s: State) returns (clean: bool)
      requires Wired() && Represents(s) && i < |s.log| && e == s.log[i]
      modifies settlement.journal, settlement.wallets, settlement.wallets.cells, settlement.trades, settlement.orders
      ensures Represents(DoDeliver(s, i))
      ensures settlement.wallets.cells == old(settlement.wallets.cells)
      ensures clean <==> e.id in s.ledger.journal || SettlesCleanly(s.ledger.wallets, e)
    {
      clean := HandleBeside(e, s.ledger, s.queue);
    }

    // In a state that some run reaches, nothing it does ever fails.
    method DeliverInRun(i: nat, e: Event, ghost s: State, ghost steps: seq<Step>) returns (clean: bool)
      requires Wired() && Represents(s) && i < |s.log| && e == s.log[i]
      requires s == After(s.producer, engine.book.symbol, steps)
      modifies settlement.journal, settlement.wallets, settlement.wallets.cells, settlement.trades, settlement.orders
      ensures Represents(DoDeliver(s, i)) && clean
    {
      SettlementNeverFails(s.producer, engine.book.symbol, steps, i);
      clean := Deliver(i, e, s);
    }

    // A new user's wallet.
    method Seed(user: string, cop: int, vibranium: int, ghost s: State)
      requires Wired() && Represents(s) && user !in s.ledger.wallets
      modifies settlement.wallets
      ensures Represents(DoSeed(s, user, cop, vibranium))
      ensures fresh(settlement.wallets.cells - old(settlement.wallets.cells))
    {
      ghost var l' := SeedBeside(user, cop, vibranium, s.ledger, s.queue, s.reserved);
    }

    // The commands and orders under way stay as they are, and so does the engine.
    method SeedBeside(user: string, cop: int, vibranium: int, ghost l: Ledger,
                      ghost queue: seq<Command>, ghost orders: seq<Order>)
      returns (ghost l': Ledger)
      requires Wired() && LedgerIs(l) && Holds(engine.input.waiting, queue) && HoldsOrders(sending, orders)
      modifies settlement.wallets
      ensures LedgerIs(l') && Holds(engine.input.waiting, queue) && HoldsOrders(sending, orders)
      ensures EngineView() == old(EngineView()) && fresh(settlement.wallets.cells - old(settlement.wallets.cells))
      ensures l' == if user == "" || cop < 0 || vibranium < 0 then l
                    else l.(wallets := l.wallets[user := Wallet(user, cop, 0, vibranium, 0)])
    {
      l' := SeedLedger(user, cop, vibranium, l);
    }

    method SeedLedger(user: string, cop: int, vibranium: int, ghost l: Ledger) returns (ghost l': Ledger)
      requires Wired() && LedgerIs(l)
      modifies settlement.wallets
      ensures LedgerIs(l') && fresh(settlement.wallets.cells - old(settlement.wallets.cells))
      ensures l' == if user == "" || cop < 0 || vibranium < 0 then l
                    else l.(wallets := l.wallets[user := Wallet(user, cop, 0, vibranium, 0)])
    {
      var err := seeding.Seed(user, cop, vibranium);
      l' := if err.Some? then l else l.(wallets := l.wallets[user := Wallet(user, cop, 0, vibranium, 0)]);
    }

    // One wallet update of the trading service.
    method UpdateLedger(cell: OrderCell, reserve: bool, ghost o: Order, ghost l: Ledger, ghost op: WalletOp)
      returns (err: Option<Error>)
      requires Wired() && LedgerIs(l) && cell.Snap() == o
      requires op == if reserve then ReserveOp(o) else ReleaseOp(o)
      modifies settlement.wallets, settlement.wallets.cells
      ensures settlement.wallets.cells == old(settlement.wallets.cells)
      ensures LedgerIs(l.(wallets := Updated(l.wallets, o.userId, op)))
      ensures reserve ==> err == UpdateError(l.wallets, o.userId, op)
      ensures EngineView() == old(EngineView())
    {
      err := None;
      if reserve {
        err := trading.Reserve(cell, l.wallets, o);
      } else {
        trading.Release(cell);
      }
    }

    method UpdateFunds(cell: OrderCell, reserve: bool, ghost o: Order, ghost s: State, ghost op: WalletOp)
      returns (err: Option<Error>)
      requires Wired() && Represents(s) && cell.Snap() == o
      requires op == if reserve then ReserveOp(o) else ReleaseOp(o)
      modifies settlement.wallets, settlement.wallets.cells
      ensures settlement.wallets.cells == old(settlement.wallets.cells)
      ensures Represents(s.(ledger := s.ledger.(wallets := Updated(s.ledger.wallets, o.userId, op))))
      ensures reserve ==> err == UpdateError(s.ledger.wallets, o.userId, op)
    {
      err := UpdateLedger(cell, reserve, o, s.ledger, op);
    }

    // The orders between the two halves of PlaceOrder.
    method Push(cell: OrderCell, ghost o: Order, ghost s: State)
      requires Represents(s) && cell.Snap() == o
      modifies this`sending
      ensures Represents(s.(reserved := s.reserved + [o])) && sending == old(sending) + [PlaceOrder(cell)]
      ensures settlement.wallets.cells == old(settlement.wallets.cells)
    {
      sending := sending + [PlaceOrder(cell)];
    }

    method Remove(i: nat, ghost s: State)
      requires Represents(s) && i < |sending|
      modifies this`sending
      ensures |sending| == |s.reserved| - 1 && sending == old(sending)[..i] + old(sending)[i + 1..]
      ensures i < |s.reserved| && Represents(s.(reserved := RemoveAt(s.reserved, i)))
      ensures settlement.wallets.cells == old(settlement.wallets.cells)
    {
      sending := sending[..i] + sending[i + 1..];
    }

    // The first half of placing an order: validate it and lock the funds behind it.
    method Reserve(id: string, user: string, side: Side, price: int, quantity: int, ghost s: State)
      returns (err: Option<Error>, order: OrderCell)
      requires Wired() && Represents(s) && id !in s.accepted
      modifies this`sending, settlement.wallets, settlement.wallets.cells
      ensures settlement.wallets.cells == old(settlement.wallets.cells)
      ensures var o := NewOrder(id, user, s.book.symbol, side, price, quantity);
        Represents(DoReserve(s, o)) && (err.None? <==> id in DoReserve(s, o).accepted)
      ensures fresh(order) && sending == old(sending) + (if err.None? then [PlaceOrder(order)] else [])
    {
      ghost var o := NewOrder(id, user, s.book.symbol, side, price, quantity);
      order := NewCell(id, user, side, price, quantity, s);
      err := order.Snap().Validate();
      if err.None? {
        err := LockAndKeep(order, o, s, ReserveOp(o));
      }
    }

    method LockAndKeep(cell: OrderCell, ghost o: Order, ghost s: State, ghost op: WalletOp) returns (err: Option<Error>)
      requires Wired() && Represents(s) && cell.Snap() == o && op == ReserveOp(o)
      modifies this`sending, settlement.wallets, settlement.wallets.cells
      ensures settlement.wallets.cells == old(settlement.wallets.cells)
      ensures err == UpdateError(s.ledger.wallets, o.userId, op)
      ensures Represents(if err.Some? then s
                         else s.(ledger := s.ledger.(wallets := Updated(s.ledger.wallets, o.userId, op)),
                                 reserved := s.reserved + [o]))
      ensures sending == old(sending) + (if err.None? then [PlaceOrder(cell)] else [])
    {
      ghost var s1 := s.(ledger := s.ledger.(wallets := Updated(s.ledger.wallets, o.userId, op)));
      err := UpdateFunds(cell, true, o, s, op);
      if err.None? {
        Push(cell, o, s1);
      }
    }

    method NewCell(id: string, user: string, side: Side, price: int, quantity: int, ghost s: State)
      returns (cell: OrderCell)
      requires Wired() && Represents(s)
      ensures Represents(s) && fresh(cell) && cell.Snap() == NewOrder(id, user, s.book.symbol, side, price, quantity)
    {
      cell := new OrderCell(id, user, trading.symbol, side, price, quantity);
    }

    // The second half: the channel takes the order.
    method Send(i: nat, ghost s: State)
      requires Wired() && Represents(s) && i < |sending|
      modifies this`sending, engine.input
      ensures Represents(DoEnqueue(s, i))
      ensures sending == old(sending)[..i] + old(sending)[i + 1..]
      ensures engine.input.waiting == old(engine.input.waiting) + [old(sending)[i]]
    {
      var cmd := sending[i];
      ghost var o := s.reserved[i];
      Remove(i, s);
      Enqueue(cmd, PlaceCommand(o), s.(reserved := RemoveAt(s.reserved, i)));
    }

    // Or it refuses, and the funds are freed.
    method Refuse(i: nat, ghost s: State)
      requires Wired() && Represents(s) && i < |sending|
      modifies this`sending, settlement.wallets, settlement.wallets.cells
      ensures settlement.wallets.cells == old(settlement.wallets.cells)
      ensures Represents(DoRefuse(s, i)) && sending == old(sending)[..i] + old(sending)[i + 1..]
    {
      var cell := sending[i].order;
      ghost var o := s.reserved[i];
      var err := UpdateFunds(cell, false, o, s, ReleaseOp(o));
      Remove(i, s.(ledger := s.ledger.(wallets := Updated(s.ledger.wallets, o.userId, ReleaseOp(o)))));
    }

    method Enqueue(cmd: EngineCommand, ghost c: Command, ghost s: State)
      requires Wired() && Represents(s) && cmd.Value() == c
      modifies engine.input
      ensures Represents(s.(queue := s.queue + [c])) && engine.input.waiting == old(engine.input.waiting) + [cmd]
    {
      trading.engine.Send(cmd);
    }

    // Every order object that may still change.
    ghost function Orders(): set<OrderCell>
      reads this, engine.input, engine.book, engine.book.bids, engine.book.asks
    {
      engine.book.Cells() + AllCarried(engine.input.waiting) + AllCarried(sending)
    }

    // Every object of the system.
    ghost function Footprint(): set<object>
      reads this, engine.input, engine.book, engine.book.bids, engine.book.asks, settlement.wallets
    {
      {this} + EngineFrame(Orders(), Levels()) + LedgerFrame()
    }

    // Cancelling an order is asking the engine to.
    method Cancel(orderId: string, ghost s: State)
      requires Wired() && Represents(s)
      modifies engine.input
      ensures Represents(DoSubmit(s, CancelCommand(orderId)))
      ensures engine.input.waiting == old(engine.input.waiting) + [CancelOrder(orderId)]
    {
      trading.CancelOrder(orderId);
    }

    // So is asking for the depth.
    method Query(depth: int, ghost s: State)
      requires Wired() && Represents(s)
      modifies engine.input
      ensures Represents(DoSubmit(s, SnapshotCommand(depth)))
      ensures engine.input.waiting == old(engine.input.waiting) + [TakeSnapshot(depth)]
    {
      Enqueue(TakeSnapshot(depth), SnapshotCommand(depth), s);
    }

    // What a turn of the engine may touch, and what it may not.
    ghost function EngineFrame(cells: set<OrderCell>, levels: set<PriceLevel>): set<object> {
      {engine, engine.sink, engine.input, engine.book, engine.book.bids, engine.book.asks} + levels + cells
    }

    ghost function LedgerFrame(): set<object>
      reads settlement.wallets
    {
      {settlement.journal, settlement.wallets, settlement.trades, settlement.orders} + settlement.wallets.cells
    }

    lemma FramesAreApart(cells: set<OrderCell>, levels: set<PriceLevel>)
      ensures EngineFrame(cells, levels) !! LedgerFrame() && this !in EngineFrame(cells, levels)
    {
    }

    // A turn of the engine, as the engine's own objects see it.
    method StepEngine(ghost v: EngineState, ghost c: Command, ghost v': EngineState,
                      ghost aside: seq<EngineCommand>, ghost values: seq<Command>,
                      ghost cells: set<OrderCell>, ghost levels: set<PriceLevel>, ghost frame: set<object>)
      returns (reply: Reply)
      requires EngineView() == Some(v) && engine.input.waiting != [] && engine.input.waiting[0].Value() == c
      requires c.PlaceCommand? ==> Placeable(v.book, c.order)
      requires v' == EngineState(v.producer, Process(v.book, c).0, Publish(v.producer, v.log, Process(v.book, c).1))
      requires Values(aside) == values
      requires cells == engine.book.Cells() + Carried(engine.input.waiting[0]) && levels == Levels()
      requires AllCarried(aside) !! engine.book.Cells() + Carried(engine.input.waiting[0])
      requires frame == EngineFrame(cells, levels)
      modifies frame
      ensures RightReply(c, reply, v.book, v.log, v'.log)
      ensures EngineView() == Some(v')
      ensures engine.input.waiting == old(engine.input.waiting)[1..] && Values(aside) == values
      ensures engine.book.Cells() <= cells && fresh(Levels() - levels)
    {
      reply := engine.StepBeside(aside, values);
    }

    // It leaves the ledger alone.
    method TurnEngine(ghost v: EngineState, ghost c: Command, ghost v': EngineState,
                      ghost aside: seq<EngineCommand>, ghost values: seq<Command>,
                      ghost cells: set<OrderCell>, ghost levels: set<PriceLevel>, ghost frame: set<object>)
      returns (reply: Reply)
      requires EngineView() == Some(v) && engine.input.waiting != [] && engine.input.waiting[0].Value() == c
      requires c.PlaceCommand? ==> Placeable(v.book, c.order)
      requires v' == EngineState(v.producer, Process(v.book, c).0, Publish(v.producer, v.log, Process(v.book, c).1))
      requires Values(aside) == values
      requires cells == engine.book.Cells() + Carried(engine.input.waiting[0]) && levels == Levels()
      requires AllCarried(aside) !! engine.book.Cells() + Carried(engine.input.waiting[0])
      requires frame == EngineFrame(cells, levels) && frame !! LedgerFrame() && this !in frame
      modifies frame
      ensures RightReply(c, reply, v.book, v.log, v'.log)
      ensures EngineView() == Some(v') && LedgerView() == old(LedgerView())
      ensures engine.input.waiting == old(engine.input.waiting)[1..] && Values(aside) == values
      ensures engine.book.Cells() <= cells && fresh(Levels() - levels)
      ensures sending == old(sending) && settlement.wallets.cells == old(settlement.wallets.cells)
    {
      reply := StepEngine(v, c, v', aside, values, cells, levels, frame);
    }

    // A turn of the engine leaves the ledger and the orders elsewhere alone.
    method TurnBeside(ghost s: State, ghost cells: set<OrderCell>, ghost levels: set<PriceLevel>,
                      ghost frame: set<object>)
      returns (reply: Reply)
      requires Wired() && Represents(s) && s.queue != []
      requires cells == engine.book.Cells() + Carried(engine.input.waiting[0]) && levels == Levels()
      requires s.queue[0].PlaceCommand? ==> Placeable(s.book, s.queue[0].order)
      requires AllCarried(engine.input.waiting[1..] + sending) !! engine.book.Cells() + Carried(engine.input.waiting[0])
      requires frame == EngineFrame(cells, levels) && frame !! LedgerFrame() && this !in frame
      modifies frame
      ensures RightReply(s.queue[0], reply, s.book, s.log, DoEngine(s).log)
      ensures Represents(DoEngine(s)) && engine.input.waiting == old(engine.input.waiting)[1..]
      ensures engine.book.Cells() <= cells && fresh(Levels() - levels)
      ensures sending == old(sending) && settlement.wallets.cells == old(settlement.wallets.cells)
    {
      ghost var tail, values := engine.input.waiting[1..], s.queue[1..] + Sends(s.reserved);
      HeldTogether(tail, sending, s.queue[1..], s.reserved);
      ghost var s' := DoEngine(s);
      LedgerSeen(s.ledger);
      reply := TurnEngine(EngineState(s.producer, s.book, s.log), s.queue[0], EngineState(s'.producer, s'.book, s'.log),
                          tail + sending, values, cells, levels, frame);
      LedgerSeen(s.ledger);
      HeldTogether(tail, sending, s.queue[1..], s.reserved);
    }

    // Orders elsewhere are not on the book and not the order whose turn it is:
    // their IDs are their own.
    lemma OrdersAreApart(s: State)
      requires Represents(s) && Inv(s) && s.queue != []
      ensures AllCarried(engine.input.waiting[1..] + sending) !! engine.book.Cells() + Carried(engine.input.waiting[0])
    {
      var aside, head := engine.input.waiting[1..] + sending, engine.input.waiting[0];
      HeldTogether(engine.input.waiting[1..], sending, s.queue[1..], s.reserved);
      forall c | c in AllCarried(aside)
        ensures c !in engine.book.Cells() && c !in Carried(head)
      {
        CarriedIsPlaced(aside, c);
        ElsewhereIsWaiting(s, c.Snap());
        if c in engine.book.Cells() { OnBook(c); }
      }
    }

    lemma OnBook(c: OrderCell)
      requires engine.book.Shaped() && c in engine.book.Cells()
      ensures !NoId(engine.book.View().bids, c.id) || !NoId(engine.book.View().asks, c.id)
    {
      ListedIsFound(engine.book.bids.flat, engine.book.asks.flat, engine.book.orders, c);
      engine.book.NotIndexed(c.id);
    }

    // One turn of the engine.
    method RunEngine(ghost s: State) returns (reply: Reply)
      requires Wired() && Represents(s) && Inv(s) && s.queue != []
      modifies engine, engine.sink, engine.input, Carried(engine.input.waiting[0])
      modifies engine.book, engine.book.bids, engine.book.asks
      modifies engine.book.bids.owned, engine.book.asks.owned, engine.book.Cells()
      ensures RightReply(s.queue[0], reply, s.book, s.log, DoEngine(s).log)
      ensures Represents(DoEngine(s)) && engine.input.waiting == old(engine.input.waiting)[1..]
      ensures engine.book.Cells() <= old(engine.book.Cells() + Carried(engine.input.waiting[0]))
      ensures forall l :: l in engine.book.bids.owned && l !in old(Levels()) ==> fresh(l)
      ensures forall l :: l in engine.book.asks.owned && l !in old(Levels()) ==> fresh(l)
      ensures sending == old(sending) && settlement.wallets.cells == old(settlement.wallets.cells)
    {
      OrdersAreApart(s);
      if s.queue[0].PlaceCommand? { HeadPlaceable(s); }
      ghost var cells, levels := engine.book.Cells() + Carried(engine.input.waiting[0]), Levels();
      FramesAreApart(cells, levels);
      reply := TurnBeside(s, cells, levels, EngineFrame(cells, levels));
    }

    // ----- Any steps in any order -----

    // What a step has added to the system's objects is new.
    twostate predicate Grew()
      reads this, engine.input, engine.book, engine.book.bids, engine.book.asks, settlement.wallets
    {
      && fresh(Orders() - old(Orders())) && fresh(Levels() - old(Levels()))
      && fresh(settlement.wallets.cells - old(settlement.wallets.cells))
    }

    twostate lemma GrewFrom(frame: set<object>)
      requires Grew() && old(Footprint()) <= frame
      ensures fresh(Footprint() - frame)
    {
    }

    twostate lemma LedgerGrew()
      requires unchanged(this, engine.input, engine.book, engine.book.bids, engine.book.asks)
      requires fresh(settlement.wallets.cells - old(settlement.wallets.cells))
      ensures Grew()
    {
    }

    method PerformSeed(user: string, cop: int, vibranium: int, ghost s: State)
      requires Wired() && Represents(s) && user !in s.ledger.wallets
      modifies settlement.wallets
      ensures Represents(DoSeed(s, user, cop, vibranium)) && Grew()
    {
      Seed(user, cop, vibranium, s);
      LedgerGrew();
    }

    twostate lemma SendingGrew(new order: OrderCell, added: bool)
      requires unchanged(engine.input, engine.book, engine.book.bids, engine.book.asks) && fresh(order)
      requires settlement.wallets.cells == old(settlement.wallets.cells)
      requires sending == old(sending) + if added then [PlaceOrder(order)] else []
      ensures Grew()
    {
      CarriedAppend(old(sending), PlaceOrder(order));
      assert sending == old(sending) || added;
    }

    method PerformReserve(id: string, user: string, side: Side, price: int, quantity: int, ghost s: State)
      returns (err: Option<Error>)
      requires Wired() && Represents(s) && id !in s.accepted
      modifies this`sending, settlement.wallets, settlement.wallets.cells
      ensures var o := NewOrder(id, user, s.book.symbol, side, price, quantity);
        Represents(DoReserve(s, o)) && (err.None? <==> id in DoReserve(s, o).accepted)
      ensures Grew()
    {
      var order;
      err, order := Reserve(id, user, side, price, quantity, s);
      SendingGrew(order, err.None?);
    }

    // An order has left the ones being sent, for the channel or for good.
    twostate lemma SendingShrank(i: nat)
      requires unchanged(engine.book, engine.book.bids, engine.book.asks)
      requires settlement.wallets.cells == old(settlement.wallets.cells)
      requires i < |old(sending)| && sending == old(sending)[..i] + old(sending)[i + 1..]
      requires AllCarried(engine.input.waiting) <= AllCarried(old(engine.input.waiting)) + Carried(old(sending)[i])
      ensures Grew()
    {
      CarriedRemoved(old(sending), i);
    }

    method PerformSend(i: nat, ghost s: State)
      requires Wired() && Represents(s) && i < |sending|
      modifies this`sending, engine.input
      ensures Represents(DoEnqueue(s, i)) && Grew()
      ensures engine.input.waiting == old(engine.input.waiting) + [old(sending)[i]]
    {
      CarriedAppend(engine.input.waiting, sending[i]);
      Send(i, s);
      SendingShrank(i);
    }

    method PerformRefuse(i: nat, ghost s: State)
      requires Wired() && Represents(s) && i < |sending|
      modifies this`sending, settlement.wallets, settlement.wallets.cells
      ensures Represents(DoRefuse(s, i)) && Grew()
    {
      Refuse(i, s);
      SendingShrank(i);
    }

    twostate lemma ChannelGrew(cmd: EngineCommand)
      requires unchanged(this, engine.book, engine.book.bids, engine.book.asks)
      requires settlement.wallets.cells == old(settlement.wallets.cells)
      requires engine.input.waiting == old(engine.input.waiting) + [cmd] && !cmd.PlaceOrder?
      ensures Grew()
    {
      CarriedAppend(old(engine.input.waiting), cmd);
    }

    method PerformCancel(orderId: string, ghost s: State)
      requires Wired() && Represents(s)
      modifies engine.input
      ensures Represents(DoSubmit(s, CancelCommand(orderId))) && Grew()
      ensures engine.input.waiting == old(engine.input.waiting) + [CancelOrder(orderId)]
    {
      Cancel(orderId, s);
      ChannelGrew(CancelOrder(orderId));
    }

    method PerformQuery(depth: int, ghost s: State)
      requires Wired() && Represents(s)
      modifies engine.input
      ensures Represents(DoSubmit(s, SnapshotCommand(depth))) && Grew()
      ensures engine.input.waiting == old(engine.input.waiting) + [TakeSnapshot(depth)]
    {
      Query(depth, s);
      ChannelGrew(TakeSnapshot(depth));
    }

    method PerformDeliver(i: nat, e: Event, ghost s: State)
      requires Wired() && Represents(s) && i < |s.log| && e == s.log[i]
      modifies settlement.journal, settlement.wallets, settlement.wallets.cells, settlement.trades, settlement.orders
      ensures Represents(DoDeliver(s, i)) && Grew()
    {
      var clean := Deliver(i, e, s);
      LedgerGrew();
    }

    twostate lemma EngineGrew()
      requires sending == old(sending) && settlement.wallets.cells == old(settlement.wallets.cells)
      requires old(engine.input.waiting) != []
      requires engine.input.waiting == old(engine.input.waiting)[1..]
      requires engine.book.Cells() <= old(engine.book.Cells() + Carried(engine.input.waiting[0]))
      requires forall l :: l in engine.book.bids.owned && l !in old(Levels()) ==> fresh(l)
      requires forall l :: l in engine.book.asks.owned && l !in old(Levels()) ==> fresh(l)
      ensures Grew()
    {
    }

    method PerformEngine(ghost s: State)
      requires Wired() && Represents(s) && Inv(s) && s.queue != []
      modifies engine, engine.sink, engine.input, Carried(engine.input.waiting[0])
      modifies engine.book, engine.book.bids, engine.book.asks
      modifies engine.book.bids.owned, engine.book.asks.owned, engine.book.Cells()
      ensures Represents(DoEngine(s)) && Grew()
    {
      var reply := RunEngine(s);
      EngineGrew();
    }

    // Reserving under an ID that may have been used, which its generator avoids.
    method PerformNext(id: string, user: string, side: Side, price: int, quantity: int, used: set<string>,
                       ghost s: State)
      returns (used': set<string>)
      requires Wired() && Represents(s) && used == s.accepted.Keys && id !in used
      modifies this`sending, settlement.wallets, settlement.wallets.cells
      ensures var s' := DoReserve(s, NewOrder(id, user, s.book.symbol, side, price, quantity));
        Represents(s') && used' == s'.accepted.Keys
      ensures Grew()
    {
      AcceptedAfter(s, NewOrder(id, user, s.book.symbol, side, price, quantity));
      var err := PerformReserve(id, user, side, price, quantity, s);
      used' := if err.None? then used + {id} else used;
    }

    // Steps that move funds.
    method PerformFunds(step: Step, used: set<string>, ghost s: State, ghost s': State)
      returns (used': set<string>)
      requires Wired() && Represents(s) && used == s.accepted.Keys && s' == Do(s, step)
      requires step.Seed? || step.Reserve? || step.Refuse?
      modifies this`sending, settlement.wallets, settlement.wallets.cells
      ensures Represents(s') && used' == s'.accepted.Keys && Grew()
    {
      used' := used;
      match step
      case Seed(user, cop, vibranium) =>
        if user !in settlement.wallets.wallets { PerformSeed(user, cop, vibranium, s); }
      case Reserve(id, user, side, price, quantity) =>
        if id !in used { used' := PerformNext(id, user, side, price, quantity, used, s); }
      case Refuse(i) =>
        if i < |sending| { PerformRefuse(i, s); }
    }

    // Steps that put something into the engine's channel.
    method PerformSending(step: Step, ghost s: State, ghost s': State)
      requires Wired() && Represents(s) && s' == Do(s, step) && (step.Enqueue? || step.Submit?)
      modifies this`sending, engine.input
      ensures Represents(s') && Grew()
      ensures step.Enqueue? && step.i < |old(sending)| ==>
          engine.input.waiting == old(engine.input.waiting) + [old(sending)[step.i]]
      ensures step.Submit? && step.command.CancelCommand? ==>
          engine.input.waiting == old(engine.input.waiting) + [CancelOrder(step.command.orderId)]
      ensures step.Submit? && step.command.SnapshotCommand? ==>
          engine.input.waiting == old(engine.input.waiting) + [TakeSnapshot(step.command.depth)]
    {
      match step
      case Enqueue(i) =>
        if i < |sending| { PerformSend(i, s); }
      case Submit(CancelCommand(orderId)) =>
        PerformCancel(orderId, s);
      case Submit(SnapshotCommand(depth)) =>
        PerformQuery(depth, s);
      case Submit(PlaceCommand(_)) =>
    }

    // Turns of the engine and of settlement.
    method PerformTurn(step: Step, ghost s: State, ghost s': State, ghost frame: set<object>)
      requires Wired() && Represents(s) && Inv(s) && s' == Do(s, step) && (step.Engine? || step.Deliver?)
      requires Footprint() <= frame
      modifies frame
      ensures Represents(s') && Grew()
    {
      match step
      case Engine =>
        if engine.input.waiting != [] { PerformEngine(s); }
      case Deliver(i) =>
        if i < |settlement.log.published| { PerformDeliver(i, settlement.log.published[i], s); }
    }

    method PerformOther(step: Step, ghost s: State, ghost s': State, ghost frame: set<object>)
      requires Wired() && Represents(s) && Inv(s) && s' == Do(s, step)
      requires !step.Seed? && !step.Reserve? && !step.Refuse? && Footprint() <= frame
      modifies frame
      ensures Represents(s') && Grew()
      ensures step.Enqueue? && step.i < |old(sending)| ==>
          engine.input.waiting == old(engine.input.waiting) + [old(sending)[step.i]]
      ensures step.Submit? && step.command.CancelCommand? ==>
          engine.input.waiting == old(engine.input.waiting) + [CancelOrder(step.command.orderId)]
      ensures step.Submit? && step.command.SnapshotCommand? ==>
          engine.input.waiting == old(engine.input.waiting) + [TakeSnapshot(step.command.depth)]
    {
      if step.Enqueue? || step.Submit? { PerformSending(step, s, s'); } else { PerformTurn(step, s, s', frame); }
    }

    // Any step; one that the state machine ignores is asked of nobody.
    method Perform(step: Step, used: set<string>, ghost s: State, ghost s': State, ghost frame: set<object>)
      returns (used': set<string>)
      requires Wired() && Represents(s) && Inv(s) && used == s.accepted.Keys && s' == Do(s, step)
      requires Footprint() <= frame
      modifies frame
      ensures Represents(s') && used' == s'.accepted.Keys && Grew()
      ensures step.Enqueue? && step.i < |old(sending)| ==>
          engine.input.waiting == old(engine.input.waiting) + [old(sending)[step.i]]
      ensures step.Submit? && step.command.CancelCommand? ==>
          engine.input.waiting == old(engine.input.waiting) + [CancelOrder(step.command.orderId)]
      ensures step.Submit? && step.command.SnapshotCommand? ==>
          engine.input.waiting == old(engine.input.waiting) + [TakeSnapshot(step.command.depth)]
    {
      used' := used;
      if step.Seed? || step.Reserve? || step.Refuse? {
        used' := PerformFunds(step, used, s, s');
      } else {
        AcceptedStays(s, step);
        PerformOther(step, s, s', frame);
      }
    }

    method Next(step: Step, used: set<string>, ghost s: State, ghost s': State, ghost frame: set<object>)
      returns (used': set<string>, ghost frame': set<object>)
      requires Wired() && Represents(s) && Inv(s) && used == s.accepted.Keys && s' == Do(s, step)
      requires Footprint() <= frame
      modifies frame
      ensures Represents(s') && used' == s'.accepted.Keys && Footprint() <= frame' && fresh(frame' - frame)
    {
      used' := Perform(step, used, s, s', frame);
      GrewFrom(frame);
      frame' := frame + Footprint();
    }

    method DriveWithin(steps: seq<Step>, used: set<string>, ghost s: State, ghost s': State, ghost frame: set<object>)
      returns (ghost frame': set<object>)
      requires Wired() && Represents(s) && Inv(s) && used == s.accepted.Keys && s' == Run(s, steps)
      requires Footprint() <= frame
      modifies frame
      ensures Represents(s') && Footprint() <= frame' && fresh(frame' - frame)
      decreases |steps|
    {
      frame' := frame;
      if steps != [] {
        ghost var next := Do(s, steps[0]);
        StepInv(s, steps[0]);
        var used';
        used', frame' := Next(steps[0], used, s, next, frame);
        frame' := DriveWithin(steps[1..], used', next, s', frame');
      }
    }

    // Any run: whatever steps are asked for, the objects end where the state machine
    // does.
    method Drive(steps: seq<Step>, used: set<string>, ghost s: State)
      requires Wired() && Represents(s) && Inv(s) && used == s.accepted.Keys
      modifies Footprint()
      ensures Represents(Run(s, steps)) && fresh(Footprint() - old(Footprint()))
    {
      ghost var frame' := DriveWithin(steps, used, s, Run(s, steps), Footprint());
    }

    // From the start, every run of the objects is a run of the state machine, and
    // what is proved of those holds of them.
    method DriveFromStart(steps: seq<Step>)
      requires Wired() && Represents(Init(engine.producerId, engine.book.symbol))
      modifies Footprint()
      ensures var s := After(engine.producerId, engine.book.symbol, steps); Represents(s) && Sound(s)
      ensures fresh(Footprint() - old(Footprint()))
    {
      InitMoney(engine.producerId, engine.book.symbol);
      EveryRunSound(engine.producerId, engine.book.symbol, steps);
      Drive(steps, {}, Init(engine.producerId, engine.book.symbol));
    }
  }

  lemma AcceptedStays(s: State, step: Step)
    requires !step.Reserve?
    ensures Do(s, step).accepted == s.accepted
  {
  }

  lemma AcceptedAfter(s: State, o: Order)
    requires o.id !in s.accepted
    ensures DoReserve(s, o).accepted.Keys
         == if o.id in DoReserve(s, o).accepted then s.accepted.Keys + {o.id} else s.accepted.Keys
  {
  }

  lemma {:induction false} CarriedAppend(cmds: seq<EngineCommand>, cmd: EngineCommand)
    ensures AllCarried(cmds + [cmd]) == AllCarried(cmds) + Carried(cmd)
  {
    if cmds == [] {
      assert cmds + [cmd] == [cmd] && [cmd][1..] == [];
    } else {
      assert (cmds + [cmd])[1..] == cmds[1..] + [cmd];
      CarriedAppend(cmds[1..], cmd);
    }
  }

  lemma {:induction false} CarriedRemoved(cmds: seq<EngineCommand>, i: nat)
    requires i < |cmds|
    ensures AllCarried(cmds) == AllCarried(cmds[..i] + cmds[i + 1..]) + Carried(cmds[i])
  {
    if i == 0 {
      assert cmds[..0] + cmds[1..] == cmds[1..];
    } else {
      assert (cmds[..i] + cmds[i + 1..])[1..] == cmds[1..][..i - 1] + cmds[1..][i..];
      CarriedRemoved(cmds[1..], i - 1);
    }
  }
}
