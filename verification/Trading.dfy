// The services on the user's side: seeding a wallet, and placing an order -
// validate, lock the funds, hand the order to the engine, and undo the lock when
// the engine's channel refuses it.

module Trading {
  import opened Domain
  import opened FlatBook
  import opened Ledger
  import opened Pipeline
  import opened OrderLife
  import opened Limits
  import opened Effects
  import opened BookSides
  import opened Stores
  import Engine

  // What a caller is told about a reservation that failed.
  function Reported(e: Error): Error {
    if e == ErrInsufficientCOP || e == ErrInsufficientVibranium || e == ErrWalletNotFound then e
    else ErrReservationFailed
  }

  // How handing an order to the engine can end: the channel does not take it; it
  // takes it but the caller gives up waiting; or the engine answers with the order
  // as it then is.
  datatype Hand = NotSent | Unanswered | Answered(reply: Order)

  // The error of placing o over wallets ws.
  function PlaceError(ws: Wallets, o: Order, hand: Hand): Option<Error> {
    if o.Validate().Some? then o.Validate()
    else if UpdateError(ws, o.userId, ReserveOp(o)).Some? then
      Some(Reported(UpdateError(ws, o.userId, ReserveOp(o)).value))
    else if hand.Answered? then None
    else Some(ErrEngineUnavailable)
  }

  ghost predicate IsValid(o: Order) {
    (o.side == Buy || o.side == Sell) && o.userId != "" && o.symbol != "" && 0 < o.price && 0 < o.quantity
  }

  // Which error says what: of the order, of the owner's funds, of the engine.
  ghost predicate SaysWhy(err: Option<Error>, ws: Wallets, o: Order, hand: Hand) {
    && (!IsValid(o) <==> err == Some(ErrInvalidSide) || err == Some(ErrMissingUser) || err == Some(ErrMissingSymbol)
                         || err == Some(ErrInvalidPrice) || err == Some(ErrInvalidQuantity))
    && (!IsValid(o) ==> err == o.Validate())
    && (err == Some(ErrWalletNotFound) <==> IsValid(o) && o.userId !in ws)
    && (err == Some(ErrInsufficientCOP) <==>
          IsValid(o) && o.userId in ws && o.side == Buy && ws[o.userId].copAvailable < o.price * o.quantity)
    && (err == Some(ErrInsufficientVibranium) <==>
          IsValid(o) && o.userId in ws && o.side == Sell && ws[o.userId].vibraniumAvailable < o.quantity)
    && (err == Some(ErrEngineUnavailable) <==> Affordable(ws, o) && !hand.Answered?)
    && (err.None? <==> Affordable(ws, o) && hand.Answered?)
  }

  lemma ErrorsSayWhy(ws: Wallets, o: Order, hand: Hand)
    ensures SaysWhy(PlaceError(ws, o, hand), ws, o, hand)
  {
    if IsValid(o) { MulPositive(o.price, o.quantity); }
  }

  // The order was validated and its funds were locked.
  predicate Backed(ws: Wallets, o: Order) {
    o.Validate().None? && UpdateError(ws, o.userId, ReserveOp(o)).None?
  }

  // The wallets afterwards: funds stay locked only behind an answered order.
  function WalletsAfter(ws: Wallets, o: Order, hand: Hand): Wallets {
    if Backed(ws, o) && hand.Answered? then Updated(ws, o.userId, ReserveOp(o)) else ws
  }

  lemma ReleaseUndoesReserve(ws: Wallets, o: Order)
    requires o.Validate().None? && UpdateError(ws, o.userId, ReserveOp(o)).None?
    requires forall u :: u in ws ==> 0 <= ws[u].copLocked && 0 <= ws[u].vibraniumLocked
    ensures Updated(Updated(ws, o.userId, ReserveOp(o)), o.userId, ReleaseOp(o)) == ws
  {
    var ws1 := Updated(ws, o.userId, ReserveOp(o));
    assert UpdateError(ws1, o.userId, ReleaseOp(o)).None?;
    assert Moved(ws1[o.userId], ReleaseOp(o)) == ws[o.userId];
  }

  // Placing an order, uninterrupted, is reserving it and then refusing or enqueuing
  // it - and, when the caller gave up waiting, releasing it too late.
  lemma PlacingIsTwoSteps(s: State, o: Order, hand: Hand)
    requires o.id !in s.accepted
    requires forall u :: u in s.ledger.wallets ==>
        0 <= s.ledger.wallets[u].copLocked && 0 <= s.ledger.wallets[u].vibraniumLocked
    ensures var s1 := DoReserve(s, o);
      var s2 := if !Backed(s.ledger.wallets, o) then s1
                else if hand.NotSent? then DoRefuse(s1, |s.reserved|)
                else if hand.Answered? then DoEnqueue(s1, |s.reserved|)
                else LateRelease(DoEnqueue(s1, |s.reserved|), o);
      && s2.ledger.wallets == WalletsAfter(s.ledger.wallets, o, hand)
      && s2.queue == s.queue + (if Backed(s.ledger.wallets, o) && !hand.NotSent? then [PlaceCommand(o)] else [])
      && s2.reserved == s.reserved
  {
    if Backed(s.ledger.wallets, o) {
      var s1 := DoReserve(s, o);
      assert o.id in s1.accepted;
      assert RemoveAt(s1.reserved, |s.reserved|) == s.reserved;
      ReleaseUndoesReserve(s.ledger.wallets, o);
    }
  }

  // The channel holds what it held and a command to place o.
  ghost predicate SentLast(before: seq<Engine.EngineCommand>, after: seq<Engine.EngineCommand>, o: Order)
    reads if after != [] && after[|after| - 1].PlaceOrder? then {after[|after| - 1].order} else {}
  {
    && after != [] && after[|after| - 1].PlaceOrder?
    && after == before + [after[|after| - 1]] && after[|after| - 1].order.Snap() == o
  }

  class SeedService {
    const wallets: WalletStore

    constructor (wallets: WalletStore)
      ensures this.wallets == wallets
    {
      this.wallets := wallets;
    }

    // Creates or replaces a wallet.
    method Seed(userId: string, cop: int, vibranium: int) returns (err: Option<Error>)
      requires wallets.Valid()
      modifies wallets
      ensures wallets.Valid() && fresh(wallets.cells - old(wallets.cells))
      ensures err == if userId == "" then Some(ErrMissingUser)
                     else if cop < 0 || vibranium < 0 then Some(ErrInvalidBalance) else None
      ensures wallets.Contents() == if err.Some? then old(wallets.Contents())
                                    else old(wallets.Contents())[userId := Wallet(userId, cop, 0, vibranium, 0)]
    {
      if userId == "" { return Some(ErrMissingUser); }
      if cop < 0 || vibranium < 0 { return Some(ErrInvalidBalance); }
      wallets.Upsert(Wallet(userId, cop, 0, vibranium, 0));
      return None;
    }
  }

  class Service {
    const symbol: string
    const engine: Engine.Channel
    const wallets: WalletStore

    constructor (symbol: string, engine: Engine.Channel, wallets: WalletStore)
      ensures this.symbol == symbol && this.engine == engine && this.wallets == wallets
    {
      this.symbol, this.engine, this.wallets := symbol, engine, wallets;
    }

    // The ID is generated; hand tells how handing the order to the engine ends.
    method PlaceOrder(id: string, userId: string, side: Side, price: int, quantity: int, hand: Hand)
      returns (order: Option<Order>, err: Option<Error>)
      requires wallets.Valid()
      requires forall u :: u in wallets.Contents() ==>
          0 <= wallets.Contents()[u].copLocked && 0 <= wallets.Contents()[u].vibraniumLocked
      modifies wallets, wallets.cells, engine
      ensures wallets.Valid() && wallets.cells == old(wallets.cells)
      ensures var ws, o := old(wallets.Contents()), NewOrder(id, userId, symbol, side, price, quantity);
        && err == PlaceError(ws, o, hand) && SaysWhy(err, ws, o, hand)
        && wallets.Contents() == WalletsAfter(ws, o, hand)
        && (err.None? ==> order == Some(hand.reply))
        && (order.Some? && err.Some? <==> err == Some(ErrInsufficientCOP) || err == Some(ErrInsufficientVibranium))
        && (order.Some? && err.Some? ==> order == Some(o.(status := Rejected)))
        && (!Backed(ws, o) || hand.NotSent? ==> engine.waiting == old(engine.waiting))
        && (Backed(ws, o) && !hand.NotSent? ==> SentLast(old(engine.waiting), engine.waiting, o))
    {
      ghost var ws, o := wallets.Contents(), NewOrder(id, userId, symbol, side, price, quantity);
      ErrorsSayWhy(ws, o, hand);
      var cell := new OrderCell(id, userId, symbol, side, price, quantity);
      var invalid := cell.Snap().Validate();
      if invalid.Some? {
        return None, invalid;
      }
      var rejected;
      rejected, err := Lock(cell, ws, o);
      if err.Some? {
        return if rejected then Some(cell.Snap()) else None, err;
      }
      err := Submit(cell, hand, ws, o);
      order := if err.None? then Some(hand.reply) else None;
    }

    // The risk check. An order that its owner cannot pay is rejected and shown.
    method Lock(cell: OrderCell, ghost ws: Wallets, ghost o: Order) returns (rejected: bool, err: Option<Error>)
      requires wallets.Valid() && wallets.Contents() == ws && cell.Snap() == o
      modifies wallets, wallets.cells, cell
      ensures wallets.Valid() && wallets.cells == old(wallets.cells)
      ensures var e := UpdateError(ws, o.userId, ReserveOp(o));
        && err == (if e.Some? then Some(Reported(e.value)) else None)
        && rejected == (e == Some(ErrInsufficientCOP) || e == Some(ErrInsufficientVibranium))
        && cell.Snap() == (if rejected then o.(status := Rejected) else o)
        && wallets.Contents() == (if e.Some? then ws else Updated(ws, o.userId, ReserveOp(o)))
    {
      rejected := false;
      err := Reserve(cell, ws, o);
      if err.Some? {
        match err.value
        case ErrInsufficientCOP | ErrInsufficientVibranium =>
          cell.status := Rejected;
          rejected := true;
        case ErrWalletNotFound =>
        case _ =>
          err := Some(ErrReservationFailed);
      }
    }

    // Hands a backed order to the engine, and frees its funds on any error.
    method Submit(cell: OrderCell, hand: Hand, ghost ws: Wallets, ghost o: Order) returns (err: Option<Error>)
      requires wallets.Valid() && cell.Snap() == o && wallets.Contents() == Updated(ws, o.userId, ReserveOp(o))
      requires Backed(ws, o)
      requires forall u :: u in ws ==> 0 <= ws[u].copLocked && 0 <= ws[u].vibraniumLocked
      modifies wallets, wallets.cells, engine
      ensures wallets.Valid() && wallets.cells == old(wallets.cells) && cell.Snap() == o
      ensures err == if hand.Answered? then None else Some(ErrEngineUnavailable)
      ensures wallets.Contents() == WalletsAfter(ws, o, hand)
      ensures engine.waiting == old(engine.waiting) + if hand.NotSent? then [] else [Engine.PlaceOrder(cell)]
    {
      if !hand.NotSent? {
        engine.Send(Engine.PlaceOrder(cell));
      }
      if !hand.Answered? {
        ReleaseUndoesReserve(ws, o);
        Release(cell);
        return Some(ErrEngineUnavailable);
      }
      return None;
    }

    // Locks the funds backing a new order.
    method Reserve(cell: OrderCell, ghost ws: Wallets, ghost o: Order) returns (err: Option<Error>)
      requires wallets.Valid() && wallets.Contents() == ws && cell.Snap() == o
      modifies wallets, wallets.cells
      ensures wallets.Valid() && wallets.cells == old(wallets.cells) && cell.Snap() == o
      ensures err == UpdateError(ws, o.userId, ReserveOp(o))
      ensures wallets.Contents() == if err.Some? then ws else Updated(ws, o.userId, ReserveOp(o))
    {
      var order := cell.Snap();
      err := wallets.Update(order.userId, if order.side == Buy then ReserveCOP(order.ReservedCOP())
                                          else ReserveVibranium(order.ReservedVibranium()));
    }

    // Undoes a reservation; an error would be dropped.
    method Release(o: OrderCell)
      requires wallets.Valid()
      modifies wallets, wallets.cells
      ensures wallets.Valid() && wallets.cells == old(wallets.cells)
      ensures wallets.Contents() == Updated(old(wallets.Contents()), o.userId, ReleaseOp(o.Snap()))
    {
      var order := o.Snap();
      var err := wallets.Update(o.userId, if o.side == Buy then ReleaseCOP(order.ReservedCOP())
                                          else ReleaseVibranium(order.ReservedVibranium()));
    }

    method CancelOrder(orderId: string)
      modifies engine
      ensures engine.waiting == old(engine.waiting) + [Engine.CancelOrder(orderId)]
    {
      engine.Send(Engine.CancelOrder(orderId));
    }
  }
}
