// Value types of the trading core: orders, trades, events and the errors its
// operations return. Amounts are unbounded integers; Machine.dfy and
// FineMachine.dfy say when the 64-bit ones of the service agree with them.

module Domain {

  datatype Option<+T> = None | Some(value: T)

  datatype Side = Buy | Sell | OtherSide(text: string) {
    predicate Valid() { Buy? || Sell? }
  }

  // Unset is the zero value an order carries until it is accepted or rejected.
  datatype Status = Unset | Open | PartiallyFilled | Filled | Cancelled | Rejected {
    predicate Terminal() { Filled? || Cancelled? || Rejected? }
  }

  datatype Error =
    | ErrInvalidSide
    | ErrMissingUser
    | ErrMissingSymbol
    | ErrInvalidPrice
    | ErrInvalidQuantity
    | ErrInsufficientCOP
    | ErrInsufficientVibranium
    | ErrInsufficientLocked
    | ErrNegativeAmount
    | ErrWalletNotFound
    | ErrInvalidBalance
    | ErrOrderNotFound
    | ErrReservationFailed
    | ErrEngineUnavailable

  datatype Order = Order(
    id: string,
    userId: string,
    symbol: string,
    side: Side,
    price: int,
    quantity: int,
    status: Status,
    filled: int,
    sequence: int)
  {
    function Remaining(): int { quantity - filled }

    function ReservedCOP(): int { if side == Buy then price * quantity else 0 }

    function ReservedVibranium(): int { if side == Sell then quantity else 0 }

    // The first failing check decides the error.
    function Validate(): (r: Option<Error>)
      ensures r.None? <==> side.Valid() && userId != "" && symbol != "" && price > 0 && quantity > 0
      ensures r == Some(ErrInvalidSide) <==> !side.Valid()
      ensures r == Some(ErrMissingUser) <==> side.Valid() && userId == ""
      ensures r == Some(ErrMissingSymbol) <==> side.Valid() && userId != "" && symbol == ""
      ensures r == Some(ErrInvalidPrice) <==> side.Valid() && userId != "" && symbol != "" && price <= 0
      ensures r == Some(ErrInvalidQuantity) <==>
          side.Valid() && userId != "" && symbol != "" && price > 0 && quantity <= 0
    {
      if !side.Valid() then Some(ErrInvalidSide)
      else if userId == "" then Some(ErrMissingUser)
      else if symbol == "" then Some(ErrMissingSymbol)
      else if price <= 0 then Some(ErrInvalidPrice)
      else if quantity <= 0 then Some(ErrInvalidQuantity)
      else None
    }

    // The part of an order that nothing changes after it is built.
    function Terms(): Terms {
      FixedTerms(id, userId, symbol, side, price, quantity)
    }
  }

  datatype Terms = FixedTerms(id: string, userId: string, symbol: string, side: Side, price: int, quantity: int)

  datatype Trade = Trade(
    id: string,
    symbol: string,
    price: int,
    quantity: int,
    buyOrderId: string,
    sellOrderId: string,
    buyerId: string,
    sellerId: string,
    sequence: int)
  {
    function Notional(): int { price * quantity }
  }

  datatype EventType = TradeEvent | OrderUpdated | OrderAccepted

  // trade and order are the two nullable payload pointers of an event.
  datatype Event = Event(
    id: string,
    sequence: int,
    kind: EventType,
    trade: Option<Trade>,
    order: Option<Order>,
    releaseCOP: int,
    releaseVibranium: int)
}
