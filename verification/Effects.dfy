// What each step does for whoever asked for it, in every run: said of balances,
// orders, the book and the log alone, with nothing of how the step is carried out.

module Effects {
  import opened Domain
  import opened Sums
  import opened FlatBook
  import opened BookInvariant
  import opened EventStream
  import opened Claims
  import opened Ledger
  import opened Pipeline
  import opened Reachability
  import opened Collateral
  import opened Execution
  import opened Lifecycle
  import opened OrderLife
  import opened Theorems
  import EventIds

  lemma RunInv(producer: string, symbol: string, steps: seq<Step>)
    ensures Inv(After(producer, symbol, steps)) && CollateralInv(After(producer, symbol, steps))
  {
    EveryRunSound(producer, symbol, steps);
  }

  // ----- Seeding -----

  // A new user gets a wallet with the seed available; anything else is ignored.
  lemma SeedTakesEffect(producer: string, symbol: string, steps: seq<Step>, user: string, cop: int, vibranium: int)
    ensures var s := After(producer, symbol, steps);
      Run(s, [Seed(user, cop, vibranium)])
      == if user != "" && 0 <= cop && 0 <= vibranium && user !in s.ledger.wallets then
           var w := Wallet(user, cop, 0, vibranium, 0);
           s.(ledger := s.ledger.(wallets := s.ledger.wallets[user := w]), seeds := s.seeds[user := w])
         else s
  {
    RunOne(After(producer, symbol, steps), Seed(user, cop, vibranium));
  }

  // ----- Reserving -----

  // The order is valid and its owner can pay for it.
  predicate Affordable(ws: Wallets, o: Order) {
    && o.userId != "" && o.symbol != "" && 0 < o.price && 0 < o.quantity && o.userId in ws
    && ((o.side == Buy && o.price * o.quantity <= ws[o.userId].copAvailable)
        || (o.side == Sell && o.quantity <= ws[o.userId].vibraniumAvailable))
  }

  // What it may need moves from available to locked.
  function Locking(w: Wallet, o: Order): Wallet {
    if o.side == Buy then
      w.(copAvailable := w.copAvailable - o.price * o.quantity, copLocked := w.copLocked + o.price * o.quantity)
    else
      w.(vibraniumAvailable := w.vibraniumAvailable - o.quantity, vibraniumLocked := w.vibraniumLocked + o.quantity)
  }

  lemma ReserveTakesEffect(producer: string, symbol: string, steps: seq<Step>, id: string, user: string, side: Side,
                           price: int, quantity: int)
    ensures var s := After(producer, symbol, steps);
      var o := Order(id, user, s.book.symbol, side, price, quantity, Unset, 0, 0);
      Run(s, [Reserve(id, user, side, price, quantity)])
      == if id !in s.accepted && Affordable(s.ledger.wallets, o) then
           s.(ledger := s.ledger.(wallets := s.ledger.wallets[user := Locking(s.ledger.wallets[user], o)]),
              reserved := s.reserved + [o],
              accepted := s.accepted[id := o])
         else s
  {
    var s := After(producer, symbol, steps);
    RunOne(s, Reserve(id, user, side, price, quantity));
    ReserveExplained(s, Order(id, user, s.book.symbol, side, price, quantity, Unset, 0, 0));
  }

  lemma ReserveExplained(s: State, o: Order)
    requires o.filled == 0
    ensures DoReserve(s, o)
         == if o.id !in s.accepted && Affordable(s.ledger.wallets, o) then
              s.(ledger := s.ledger.(wallets := s.ledger.wallets[o.userId := Locking(s.ledger.wallets[o.userId], o)]),
                 reserved := s.reserved + [o],
                 accepted := s.accepted[o.id := o])
            else s
  {
    if o.Validate().None? { MulPositive(o.price, o.quantity); }
  }

  // ----- Sending and refusing -----

  // An order on its way reaches the end of the engine's channel.
  lemma SendTakesEffect(producer: string, symbol: string, steps: seq<Step>, i: nat)
    requires i < |After(producer, symbol, steps).reserved|
    ensures var s := After(producer, symbol, steps);
      Run(s, [Enqueue(i)]) == s.(reserved := s.reserved[..i] + s.reserved[i + 1..],
                                 queue := s.queue + [PlaceCommand(s.reserved[i])])
  {
    RunOne(After(producer, symbol, steps), Enqueue(i));
  }

  // What an order had locked is available again.
  function Unlocking(w: Wallet, o: Order): Wallet {
    if o.side == Buy then
      w.(copAvailable := w.copAvailable + o.price * o.quantity, copLocked := w.copLocked - o.price * o.quantity)
    else
      w.(vibraniumAvailable := w.vibraniumAvailable + o.quantity, vibraniumLocked := w.vibraniumLocked - o.quantity)
  }

  // Or it is refused, and its owner has the funds back.
  lemma RefuseTakesEffect(producer: string, symbol: string, steps: seq<Step>, i: nat)
    requires i < |After(producer, symbol, steps).reserved|
    ensures var s := After(producer, symbol, steps);
      var o := s.reserved[i];
      && o.userId in s.ledger.wallets
      && Run(s, [Refuse(i)])
         == s.(ledger := s.ledger.(wallets := s.ledger.wallets[o.userId := Unlocking(s.ledger.wallets[o.userId], o)]),
               reserved := s.reserved[..i] + s.reserved[i + 1..],
               withdrawn := s.withdrawn + {o.id})
  {
    var s := After(producer, symbol, steps);
    RunInv(producer, symbol, steps);
    RefuseCollateral(s, i);
    assert Pending(s)[i] == s.reserved[i];
    assert Waiting(s, s.reserved[i]);
    RunOne(s, Refuse(i));
    RefuseExplained(s, i);
  }

  lemma RefuseExplained(s: State, i: nat)
    requires i < |s.reserved| && s.reserved[i].Validate().None?
    requires UpdateError(s.ledger.wallets, s.reserved[i].userId, ReleaseOp(s.reserved[i])).None?
    ensures var o := s.reserved[i];
      && o.userId in s.ledger.wallets
      && DoRefuse(s, i)
         == s.(ledger := s.ledger.(wallets := s.ledger.wallets[o.userId := Unlocking(s.ledger.wallets[o.userId], o)]),
               reserved := s.reserved[..i] + s.reserved[i + 1..],
               withdrawn := s.withdrawn + {o.id})
  {
  }

  // ----- Placing -----

  // The event that ends a placement: the order as it now stands.
  ghost predicate Ends(log: seq<Event>, x: Order, n: nat) {
    n < |log| && IsUpdate(log[|log| - 1]) && log[|log| - 1].order.value == x
  }

  // What a placement leaves: the order filled as far as the other side crosses it,
  // and the rest of it on its own side.
  ghost predicate Leaves(b: Book, o: Order, b': Book, x: Order) {
    && x == o.(filled := x.filled, status := x.status, sequence := b.orderSeq + 1)
    && x.filled == Min(o.quantity, Sum(b.Opposite(o.side), Crossing(o.side, o.price)))
    && (forall y :: y in b'.Own(o.side) <==> y in b.Own(o.side) || (y == x && x.filled < o.quantity))
    && (x.filled < o.quantity ==> forall y :: y in b'.Opposite(o.side) ==> !Crosses(o.side, o.price, y.price))
  }

  lemma PlaceLeaves(b: Book, o: Order)
    requires BookInv(b) && Placeable(b, o)
    ensures Leaves(b, o, Place(b, o).book, Place(b, o).taker)
  {
    PlaceFillsAllThatCrosses(b, o);
    TakerIsAccepted(b, o);
    MatchTakerResting(b, o);
    OwnSideAfter(b, o, Place(b, o).taker);
    OtherSideAfter(b, o);
  }

  // The engine has taken o, now x: nothing but its channel, the book and the log has
  // changed, and x is the last thing published.
  ghost predicate Places(s: State, s': State, o: Order, x: Order) {
    && s.queue != [] && s' == s.(queue := s.queue[1..], book := s'.book, log := s'.log) && s.log <= s'.log
    && Ends(s'.log, x, |s.log|) && Leaves(s.book, o, s'.book, x)
  }

  lemma PlaceTakesEffect(producer: string, symbol: string, steps: seq<Step>, o: Order) returns (x: Order)
    requires var s := After(producer, symbol, steps); s.queue != [] && s.queue[0] == PlaceCommand(o)
    ensures var s := After(producer, symbol, steps); Places(s, Run(s, [Engine]), o, x)
  {
    var s := After(producer, symbol, steps);
    RunInv(producer, symbol, steps);
    RunOne(s, Engine);
    x := HeadPlaces(s, o);
  }

  lemma HeadPlaces(s: State, o: Order) returns (x: Order)
    requires Inv(s) && s.queue != [] && s.queue[0] == PlaceCommand(o)
    ensures Places(s, DoEngine(s), o, x)
  {
    x := Place(s.book, o).taker;
    HeadPlaceable(s);
    EnginePlaces(s, o);
  }

  lemma EnginePlaces(s: State, o: Order)
    requires s.queue != [] && s.queue[0] == PlaceCommand(o) && BookInv(s.book) && Placeable(s.book, o)
    ensures Places(s, DoEngine(s), o, Place(s.book, o).taker)
  {
    LastIsTaker(s.producer, s.log, Place(s.book, o));
    PlaceLeaves(s.book, o);
  }

  lemma LastIsTaker(producer: string, log: seq<Event>, p: Placed)
    ensures Ends(Publish(producer, log, PlaceEvents(p)), p.taker, |log|)
  {
    var events := PlaceEvents(p);
    var n := |events| - 1;
    assert events[n] == Update(p.taker, p.release, 0);
    assert Publish(producer, log, events)[|log| + n] == Stamp(producer, |log| + 1 + n, events[n]);
  }

  lemma TakerIsAccepted(b: Book, o: Order)
    ensures var x := Place(b, o).taker; x == o.(filled := x.filled, status := x.status, sequence := b.orderSeq + 1)
  {
    MatchKeepsTaker(b.symbol, b.tradeSeq, Accepted(b, o), b.Opposite(o.side));
  }

  lemma OwnSideAfter(b: Book, o: Order, x: Order)
    requires o.side.Valid() && x == Place(b, o).taker && x.side == o.side && x.quantity == o.quantity
    requires x.filled <= o.quantity
    ensures forall y :: y in Place(b, o).book.Own(o.side) <==> y in b.Own(o.side) || (y == x && x.filled < o.quantity)
  {
    InsertMembers(o.side == Buy, b.Own(o.side), x);
  }

  lemma InsertMembers(isBid: bool, flat: seq<Order>, o: Order)
    ensures forall y :: y in Insert(isBid, flat, o) <==> y in flat || y == o
  {
    var i := Slot(isBid, flat, o);
    InsertAtSlot(isBid, flat, o);
    assert flat == flat[..i] + flat[i..];
  }

  lemma OtherSideAfter(b: Book, o: Order)
    requires BookInv(b) && Placeable(b, o)
    ensures var p := Place(b, o);
      p.taker.filled < o.quantity ==> forall y :: y in p.book.Opposite(o.side) ==> !Crosses(o.side, o.price, y.price)
  {
    var x := Place(b, o).taker;
    MatchTakerResting(b, o);
    PlaceKeepsBookInv(b, o);
    if x.filled < o.quantity {
      OwnSideAfter(b, o, x);
      assert x in Place(b, o).book.Own(o.side);
    }
  }

  // ----- Cancelling -----

  // Exactly this update of o ends the log.
  ghost predicate Withdraws(log: seq<Event>, log': seq<Event>, o: Order) {
    && |log'| == |log| + 1 && log <= log'
    && var e := log'[|log|];
       && e.kind == OrderUpdated && e.trade.None? && e.order == Some(o.(status := Cancelled))
       && e.releaseCOP == Due(COP, o) && e.releaseVibranium == Due(VIB, o)
  }

  ghost predicate TakenOff(b: Book, b': Book, id: string) {
    && (forall x :: x in b'.bids <==> x in b.bids && x.id != id)
    && (forall x :: x in b'.asks <==> x in b.asks && x.id != id)
  }

  lemma EngineCancels(s: State, o: Order)
    requires s.queue != [] && s.queue[0] == CancelCommand(o.id) && BookInv(s.book)
    requires o in s.book.bids || o in s.book.asks
    ensures var s' := DoEngine(s);
      && s' == s.(queue := s.queue[1..], book := s'.book, log := s'.log)
      && Withdraws(s.log, s'.log, o) && TakenOff(s.book, s'.book, o.id)
  {
    CancelTakesOff(s.book, o);
    var events := CancelEvents(Cancel(s.book, o.id));
    assert DoEngine(s).log[|s.log| + 0] == Stamp(s.producer, |s.log| + 1, events[0]);
  }

  // A cancellation that is asked for when nothing else waits takes the order, and no
  // other, off the book, and publishes that it is cancelled and what is released.
  lemma CancelTakesEffect(producer: string, symbol: string, steps: seq<Step>, o: Order)
    requires var s := After(producer, symbol, steps); s.queue == [] && (o in s.book.bids || o in s.book.asks)
    ensures var s := After(producer, symbol, steps);
      var s' := Run(s, [Submit(CancelCommand(o.id)), Engine]);
      && s' == s.(book := s'.book, log := s'.log)
      && Withdraws(s.log, s'.log, o) && TakenOff(s.book, s'.book, o.id)
      && NoId(s'.book.bids, o.id) && NoId(s'.book.asks, o.id)
  {
    var s := After(producer, symbol, steps);
    BookAlwaysSound(producer, symbol, steps);
    RunTwo(s, Submit(CancelCommand(o.id)), Engine);
    EngineCancels(DoSubmit(s, CancelCommand(o.id)), o);
    AbsentAfter(s.book, Run(s, [Submit(CancelCommand(o.id)), Engine]).book, o.id);
  }

  lemma AbsentAfter(b: Book, b': Book, id: string)
    requires TakenOff(b, b', id)
    ensures NoId(b'.bids, id) && NoId(b'.asks, id)
  {
    assert forall i :: 0 <= i < |b'.bids| ==> b'.bids[i] in b'.bids;
    assert forall i :: 0 <= i < |b'.asks| ==> b'.asks[i] in b'.asks;
  }

  // One for an order that does not rest changes nothing.
  lemma CancelInVain(producer: string, symbol: string, steps: seq<Step>, id: string)
    requires var s := After(producer, symbol, steps);
      s.queue == [] && NoId(s.book.bids, id) && NoId(s.book.asks, id)
    ensures var s := After(producer, symbol, steps); Run(s, [Submit(CancelCommand(id)), Engine]) == s
  {
    var s := After(producer, symbol, steps);
    RunTwo(s, Submit(CancelCommand(id)), Engine);
    AbsentIsNotFound(s.book, id);
    assert Publish(s.producer, s.log, []) == s.log;
  }

  // Nor does a depth query.
  lemma QueryTakesNothing(producer: string, symbol: string, steps: seq<Step>, depth: int)
    requires After(producer, symbol, steps).queue == []
    ensures var s := After(producer, symbol, steps); Run(s, [Submit(SnapshotCommand(depth)), Engine]) == s
  {
    var s := After(producer, symbol, steps);
    RunTwo(s, Submit(SnapshotCommand(depth)), Engine);
    assert Publish(s.producer, s.log, []) == s.log;
  }

  // Whatever is submitted otherwise waits behind what waits already.
  lemma SubmitTakesEffect(producer: string, symbol: string, steps: seq<Step>, c: Command)
    requires !c.PlaceCommand?
    ensures var s := After(producer, symbol, steps); Run(s, [Submit(c)]) == s.(queue := s.queue + [c])
  {
    RunOne(After(producer, symbol, steps), Submit(c));
  }

  // ----- Settling -----

  ghost predicate Settles(s: State, s': State, e: Event) {
    && s' == s.(ledger := s'.ledger, applied := s.applied + [e])
    && s'.ledger.journal == s.ledger.journal + {e.id}
    && Shifts(s.ledger.wallets, s'.ledger.wallets, e)
    && s'.ledger.trades == s.ledger.trades + (if IsTrade(e) then [e.trade.value] else [])
    && s'.ledger.orders == if IsUpdate(e) then s.ledger.orders[e.order.value.id := e.order.value] else s.ledger.orders
  }

  // A published event that is delivered for the first time moves what it says and is
  // recorded; one delivered again does nothing.
  lemma DeliverTakesEffect(producer: string, symbol: string, steps: seq<Step>, i: nat)
    requires i < |After(producer, symbol, steps).log|
    ensures var s := After(producer, symbol, steps);
      var s' := Run(s, [Deliver(i)]);
      if s.log[i].id in s.ledger.journal then s' == s else Settles(s, s', s.log[i])
  {
    var s := After(producer, symbol, steps);
    RunInv(producer, symbol, steps);
    RunOne(s, Deliver(i));
    if s.log[i].id !in s.ledger.journal { FirstDelivery(s, i); }
  }

  lemma FirstDelivery(s: State, i: nat)
    requires Inv(s) && CollateralInv(s) && i < |s.log| && s.log[i].id !in s.ledger.journal
    ensures Settles(s, DoDeliver(s, i), s.log[i])
  {
    DeliverySettles(s, i);
    EventClaimed(s, COP, ByUser(""), s.log[i]);
    DeliveryRecords(s, i);
  }

  lemma DeliveryRecords(s: State, i: nat)
    requires i < |s.log| && s.log[i].id !in s.ledger.journal && WellFormed(s.log[i], s.ledger.wallets.Keys)
    requires Shifts(s.ledger.wallets, DoDeliver(s, i).ledger.wallets, s.log[i])
    ensures Settles(s, DoDeliver(s, i), s.log[i])
  {
  }

  // What a cancelled order had behind it is available to its owner again as soon as
  // the cancellation is settled, and no other wallet changes.
  ghost predicate Returns(ws: Wallets, ws': Wallets, o: Order) {
    && ws'.Keys == ws.Keys
    && forall a, u :: u in ws ==>
         var due := if u == o.userId then Due(a, o) else 0;
         && Locked(a, ws'[u]) == Locked(a, ws[u]) - due
         && Available(a, ws'[u]) == Available(a, ws[u]) + due
  }

  lemma WithdrawalReturns(ws: Wallets, ws': Wallets, e: Event, o: Order)
    requires Shifts(ws, ws', e) && 0 <= Due(COP, o) && 0 <= Due(VIB, o)
    requires e.kind == OrderUpdated && e.order == Some(o.(status := Cancelled))
    requires e.releaseCOP == Due(COP, o) && e.releaseVibranium == Due(VIB, o)
    ensures Returns(ws, ws', o)
  {
    forall a, u | u in ws
      ensures var due := if u == o.userId then Due(a, o) else 0;
        && Locked(a, ws'[u]) == Locked(a, ws[u]) - due
        && Available(a, ws'[u]) == Available(a, ws[u]) + due
    {
      assert a == COP || a == VIB;
    }
  }

  lemma RestingDue(s: State, o: Order)
    requires Inv(s) && (o in s.book.bids || o in s.book.asks)
    ensures 0 <= Due(COP, o) && 0 <= Due(VIB, o)
  {
    RestingClaimed(s, COP, ByUser(o.userId), o);
    RestingClaimed(s, VIB, ByUser(o.userId), o);
  }

  // The next event published is not journalled yet.
  lemma NextIsFresh(s: State, s': State)
    requires LogInv(s) && LogInv(s') && |s.log| < |s'.log| && s'.producer == s.producer
    ensures s'.log[|s.log|].id !in s.ledger.journal
  {
    JournalledIsPublished(s);
    UnpublishedIsFresh(s, s.ledger.journal, |s.log| + 1);
    assert s'.log[|s.log|].id == EventIds.Join(s'.producer, |s.log| + 1);
  }

  lemma CancelReturnsFunds(producer: string, symbol: string, steps: seq<Step>, o: Order)
    requires var s := After(producer, symbol, steps); s.queue == [] && (o in s.book.bids || o in s.book.asks)
    ensures var s := After(producer, symbol, steps);
      var s' := Run(s, [Submit(CancelCommand(o.id)), Engine, Deliver(|s.log|)]);
      Returns(s.ledger.wallets, s'.ledger.wallets, o)
  {
    var s, cancel := After(producer, symbol, steps), [Submit(CancelCommand(o.id)), Engine];
    var s1 := After(producer, symbol, steps + cancel);
    RunAppend(Init(producer, symbol), steps, cancel);
    CancelTakesEffect(producer, symbol, steps, o);
    RunInv(producer, symbol, steps);
    RunInv(producer, symbol, steps + cancel);
    NextIsFresh(s, s1);
    RestingDue(s, o);
    DeliverTakesEffect(producer, symbol, steps + cancel, |s.log|);
    RunAppend(s, cancel, [Deliver(|s.log|)]);
    assert cancel + [Deliver(|s.log|)] == [Submit(CancelCommand(o.id)), Engine, Deliver(|s.log|)];
    WithdrawalReturns(s.ledger.wallets, Run(s1, [Deliver(|s.log|)]).ledger.wallets, s1.log[|s.log|], o);
  }
}
