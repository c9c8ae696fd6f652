// Who still has locked funds behind what. An order that is waiting or resting
// claims collateral for its unfilled part; a published trade claims what the
// buyer pays and the seller delivers; a published release claims what goes back.
// The book never sees money, yet every Place and Cancel moves claims without
// creating or losing any: that is the identity conservation rests on.

module Claims {
  import opened Domain
  import opened Sums
  import opened FlatBook
  import opened Matching
  import opened BookInvariant
  import opened EventStream

  datatype Asset = COP | VIB

  // Claims are counted for one user, or for one order over its life.
  datatype Key = ByUser(user: string) | ByOrder(order: string)

  predicate Owns(k: Key, o: Order) {
    match k
    case ByUser(u) => o.userId == u
    case ByOrder(id) => o.id == id
  }

  predicate Buys(k: Key, t: Trade) {
    match k
    case ByUser(u) => t.buyerId == u
    case ByOrder(id) => t.buyOrderId == id
  }

  predicate Sells(k: Key, t: Trade) {
    match k
    case ByUser(u) => t.sellerId == u
    case ByOrder(id) => t.sellOrderId == id
  }

  // Collateral behind the unfilled part of an order.
  function Due(a: Asset, o: Order): int {
    if a == COP then (if o.side == Buy then o.price * o.Remaining() else 0)
    else (if o.side == Sell then o.Remaining() else 0)
  }

  function OrderClaim(a: Asset, k: Key): Order -> int {
    (o: Order) => if Owns(k, o) then Due(a, o) else 0
  }

  function TradeClaim(a: Asset, k: Key, t: Trade): int {
    if a == COP then (if Buys(k, t) then t.Notional() else 0)
    else (if Sells(k, t) then t.quantity else 0)
  }

  // Settlement releases only strictly positive amounts.
  function ReleaseOf(a: Asset, e: Event): int {
    var r := if a == COP then e.releaseCOP else e.releaseVibranium;
    if r > 0 then r else 0
  }

  function ClaimOf(a: Asset, k: Key, e: Event): int {
    if e.kind == TradeEvent && e.trade.Some? then TradeClaim(a, k, e.trade.value)
    else if e.kind == OrderUpdated && e.order.Some? && Owns(k, e.order.value) then ReleaseOf(a, e)
    else 0
  }

  function EventClaim(a: Asset, k: Key): Event -> int {
    (e: Event) => ClaimOf(a, k, e)
  }

  function BookClaims(a: Asset, k: Key, b: Book): int {
    Sum(b.bids, OrderClaim(a, k)) + Sum(b.asks, OrderClaim(a, k))
  }

  // ----- Matching moves claims from orders to events -----

  lemma Distribute(p: int, x: int, y: int)
    ensures p * (x + y) == p * x + p * y
    ensures (x + y) * p == x * p + y * p
  {
  }

  // One fill: what maker and taker owned before equals what they own after plus
  // the trade and the refund.
  lemma HitConservesClaims(a: Asset, k: Key, symbol: string, seqNo: nat, taker: Order, maker: Order, qty: int)
    requires taker.side.Valid() && maker.side.Valid() && maker.side != taker.side
    ensures var t := TradeOf(symbol, seqNo, taker, maker, qty);
      OrderClaim(a, k)(taker) + OrderClaim(a, k)(maker)
      == OrderClaim(a, k)(TakerAfter(taker, qty)) + OrderClaim(a, k)(MakerAfter(maker, qty))
         + TradeClaim(a, k, t) + (if a == COP && Owns(k, taker) then Refund(taker, maker, qty) else 0)
  {
    Distribute(taker.price, TakerAfter(taker, qty).Remaining(), qty);
    Distribute(maker.price, MakerAfter(maker, qty).Remaining(), qty);
    Distribute(qty, taker.price - maker.price, maker.price);
  }

  lemma {:induction false} MatchConservesClaims(a: Asset, k: Key, symbol: string, tradeSeq: nat, taker: Order,
                                                flat: seq<Order>)
    requires taker.side.Valid()
    requires forall i :: 0 <= i < |flat| ==> flat[i].side.Valid() && flat[i].side != taker.side
    ensures var m := Match(symbol, tradeSeq, taker, flat);
      Sum(flat, OrderClaim(a, k)) + OrderClaim(a, k)(taker)
      == Sum(m.rest, OrderClaim(a, k)) + OrderClaim(a, k)(m.taker) + Sum(FillEvents(m.fills), EventClaim(a, k))
         + (if a == COP && Owns(k, taker) then m.refund else 0)
    decreases |flat|, taker.Remaining() > 0
  {
    if CanFill(taker, flat) {
      var oc, ec := OrderClaim(a, k), EventClaim(a, k);
      var qty := FillQuantity(taker, flat[0]);
      var taker', maker', flat' := TakerAfter(taker, qty), MakerAfter(flat[0], qty), AfterHit(flat, qty);
      var m := Match(symbol, tradeSeq, taker, flat);
      var more := Match(symbol, tradeSeq + 1, taker', flat');
      HitConservesClaims(a, k, symbol, tradeSeq + 1, taker, flat[0], qty);
      assert Sum(flat', oc) == oc(maker') + Sum(flat[1..], oc) by {
        assert maker'.Remaining() == 0 ==> oc(maker') == 0;
        assert ([maker'] + flat[1..])[1..] == flat[1..];
      }
      MatchConservesClaims(a, k, symbol, tradeSeq + 1, taker', flat');
      FillEventsHead(m.fills, more.fills, ec);
      assert ec(Update(maker', 0, 0)) == 0;
    }
  }

  lemma FillEventsHead(fills: seq<Fill>, more: seq<Fill>, f: Event -> int)
    requires fills != [] && fills == [fills[0]] + more
    ensures Sum(FillEvents(fills), f)
         == f(TradeOnly(fills[0].trade)) + f(Update(fills[0].maker, 0, 0)) + Sum(FillEvents(more), f)
  {
    assert fills[1..] == more;
    var t, u := TradeOnly(fills[0].trade), Update(fills[0].maker, 0, 0);
    SumConcat([t, u], FillEvents(more), f);
    assert [t, u] == [t] + [u];
    SumConcat([t], [u], f);
    SumOne(t, f);
    SumOne(u, f);
  }

  // A BUY's refund is its limit for what it got, less what it paid; a SELL gets none.
  lemma {:induction false} RefundNonNegative(symbol: string, tradeSeq: nat, taker: Order, flat: seq<Order>)
    requires Tradable(flat)
    ensures 0 <= Match(symbol, tradeSeq, taker, flat).refund
    decreases |flat|, taker.Remaining() > 0
  {
    if CanFill(taker, flat) {
      var qty := FillQuantity(taker, flat[0]);
      RefundNonNegative(symbol, tradeSeq + 1, TakerAfter(taker, qty), AfterHit(flat, qty));
      if taker.side == Buy {
        MulNonNegative(taker.price - flat[0].price, qty);
      }
    }
  }

  lemma MulNonNegative(x: int, y: int)
    requires 0 <= x && 0 <= y
    ensures 0 <= x * y
  {
  }

  lemma InsertAddsClaim(isBid: bool, flat: seq<Order>, o: Order, f: Order -> int)
    ensures Sum(Insert(isBid, flat, o), f) == Sum(flat, f) + f(o)
  {
    var i := Slot(isBid, flat, o);
    InsertAtSlot(isBid, flat, o);
    SumRemove(Insert(isBid, flat, o), i, f);
    assert Insert(isBid, flat, o)[..i] + Insert(isBid, flat, o)[i + 1..] == flat;
  }

  lemma PlaceBookSum(b: Book, o: Order, f: Order -> int)
    requires o.side.Valid()
    ensures var p := Place(b, o);
      Sum(p.book.bids, f) + Sum(p.book.asks, f)
      == Sum(b.Own(o.side), f) + Sum(Match(b.symbol, b.tradeSeq, Accepted(b, o), b.Opposite(o.side)).rest, f)
         + (if p.taker.Remaining() == 0 then 0 else f(p.taker))
  {
    var p := Place(b, o);
    var m := Match(b.symbol, b.tradeSeq, Accepted(b, o), b.Opposite(o.side));
    assert p.taker.side == o.side by { MatchKeepsTaker(b.symbol, b.tradeSeq, Accepted(b, o), b.Opposite(o.side)); }
    if p.taker.Remaining() != 0 {
      InsertAddsClaim(o.side == Buy, b.Own(o.side), p.taker, f);
    }
  }

  lemma {:induction false} MatchKeepsTaker(symbol: string, tradeSeq: nat, taker: Order, flat: seq<Order>)
    ensures var m := Match(symbol, tradeSeq, taker, flat); m.taker == taker.(filled := m.taker.filled)
    decreases |flat|, taker.Remaining() > 0
  {
    if CanFill(taker, flat) {
      var qty := FillQuantity(taker, flat[0]);
      MatchKeepsTaker(symbol, tradeSeq + 1, TakerAfter(taker, qty), AfterHit(flat, qty));
    }
  }

  // ----- The cross-component identity -----

  lemma PlaceConservesClaims(a: Asset, k: Key, b: Book, o: Order)
    requires BookInv(b) && Placeable(b, o)
    ensures var p := Place(b, o);
      BookClaims(a, k, p.book) + Sum(PlaceEvents(p), EventClaim(a, k)) == BookClaims(a, k, b) + OrderClaim(a, k)(o)
  {
    OppositeSides(b, o);
    PlaceMovesClaims(a, k, b, o, Match(b.symbol, b.tradeSeq, Accepted(b, o), b.Opposite(o.side)));
  }

  // The part of the book invariant the identity needs: makers are on the other
  // side and have something positive to trade.
  ghost predicate Opposed(b: Book, o: Order) {
    && o.side.Valid()
    && (forall i :: 0 <= i < |b.Opposite(o.side)| ==>
          b.Opposite(o.side)[i].side.Valid() && b.Opposite(o.side)[i].side != o.side)
    && Tradable(b.Opposite(o.side))
  }

  lemma OppositeSides(b: Book, o: Order)
    requires BookInv(b) && Placeable(b, o)
    ensures Opposed(b, o)
  {
  }

  lemma PlaceMovesClaims(a: Asset, k: Key, b: Book, o: Order, m: Matched)
    requires Opposed(b, o)
    requires m == Match(b.symbol, b.tradeSeq, Accepted(b, o), b.Opposite(o.side))
    ensures var p := Place(b, o);
      BookClaims(a, k, p.book) + Sum(PlaceEvents(p), EventClaim(a, k)) == BookClaims(a, k, b) + OrderClaim(a, k)(o)
  {
    var t, p := Accepted(b, o), Place(b, o);
    var oc, ec := OrderClaim(a, k), EventClaim(a, k);
    MatchConservesClaims(a, k, b.symbol, b.tradeSeq, t, b.Opposite(o.side));
    RefundNonNegative(b.symbol, b.tradeSeq, t, b.Opposite(o.side));
    MatchKeepsTaker(b.symbol, b.tradeSeq, t, b.Opposite(o.side));
    ClaimIgnoresStatus(a, k, o, t);
    ClaimIgnoresStatus(a, k, m.taker, p.taker);
    PlaceBookSum(b, o, oc);
    var last := Update(p.taker, p.release, 0);
    SumConcat(FillEvents(p.fills), [last], ec);
    SumOne(last, ec);
    assert ec(last) == if a == COP && Owns(k, t) then m.refund else 0;
  }

  lemma ClaimIgnoresStatus(a: Asset, k: Key, x: Order, y: Order)
    requires x.Terms() == y.Terms() && x.filled == y.filled
    ensures OrderClaim(a, k)(x) == OrderClaim(a, k)(y)
    ensures x.Remaining() == 0 ==> OrderClaim(a, k)(x) == 0
  {
  }

  lemma CancelConservesClaims(a: Asset, k: Key, b: Book, id: string)
    requires BookInv(b) && Cancel(b, id).Some?
    ensures var c := Cancel(b, id);
      BookClaims(a, k, c.value.book) + Sum(CancelEvents(c), EventClaim(a, k)) == BookClaims(a, k, b)
  {
    var c := Cancel(b, id).value;
    SumOne(Update(c.order, c.releaseCOP, c.releaseVibranium), EventClaim(a, k));
    var i := Find(b.bids, id);
    if i < |b.bids| {
      SumRemove(b.bids, i, OrderClaim(a, k));
      CancelReleasesClaim(a, k, c.book, b.bids[i]);
    } else {
      var j := Find(b.asks, id);
      SumRemove(b.asks, j, OrderClaim(a, k));
      CancelReleasesClaim(a, k, c.book, b.asks[j]);
    }
  }

  lemma CancelReleasesClaim(a: Asset, k: Key, b: Book, o: Order)
    requires o.side.Valid() && 0 <= o.price && 0 <= o.Remaining()
    ensures var c := CancelOf(b, o);
      EventClaim(a, k)(Update(c.order, c.releaseCOP, c.releaseVibranium)) == OrderClaim(a, k)(o)
  {
    MulNonNegative(o.Remaining(), o.price);
  }
}
