// The simple order book: each side is one list of resting orders, best price
// first and earliest sequence first within a price. Matching walks the
// opposite list recursively. OrderBooks.dfy proves that the imperative book with
// its price slice, level map and queues computes exactly these functions.

module FlatBook {
  import opened Domain
  import EventIds

  // ----- Price-time priority -----

  // p is a strictly better price than q on the given side.
  predicate Before(isBid: bool, p: int, q: int) {
    if isBid then p > q else p < q
  }

  predicate Priority(isBid: bool, x: Order, y: Order) {
    Before(isBid, x.price, y.price) || (x.price == y.price && x.sequence < y.sequence)
  }

  predicate Crosses(takerSide: Side, takerPrice: int, makerPrice: int) {
    if takerSide == Buy then makerPrice <= takerPrice else makerPrice >= takerPrice
  }

  datatype Book = Book(symbol: string, bids: seq<Order>, asks: seq<Order>, orderSeq: nat, tradeSeq: nat) {
    // The side a taker matches against, and the side it rests on.
    function Opposite(side: Side): seq<Order> { if side == Sell then bids else asks }
    function Own(side: Side): seq<Order> { if side == Buy then bids else asks }
  }

  function EmptyBook(symbol: string): Book { Book(symbol, [], [], 0, 0) }

  // ----- Matching -----

  // An executed trade and the maker as it stands after it.
  datatype Fill = Fill(trade: Trade, maker: Order)

  datatype Matched = Matched(taker: Order, rest: seq<Order>, fills: seq<Fill>, refund: int)

  function Min(a: int, b: int): int { if a < b then a else b }

  predicate CanFill(taker: Order, flat: seq<Order>) {
    taker.Remaining() > 0 && flat != [] && Crosses(taker.side, taker.price, flat[0].price)
  }

  function FillQuantity(taker: Order, maker: Order): int {
    Min(taker.Remaining(), maker.Remaining())
  }

  function TakerAfter(taker: Order, qty: int): Order {
    taker.(filled := taker.filled + qty)
  }

  function MakerAfter(maker: Order, qty: int): Order {
    var m := maker.(filled := maker.filled + qty);
    m.(status := if m.Remaining() == 0 then Filled else PartiallyFilled)
  }

  function TradeOf(symbol: string, seqNo: nat, taker: Order, maker: Order, qty: int): Trade {
    var (buy, sell) := if taker.side == Buy then (taker, maker) else (maker, taker);
    Trade(EventIds.Join(symbol, seqNo), symbol, maker.price, qty, buy.id, sell.id, buy.userId, sell.userId, seqNo)
  }

  // A buy taker locked funds at its own limit; the gap to the maker's price is refunded.
  function Refund(taker: Order, maker: Order, qty: int): int {
    if taker.side == Buy then (taker.price - maker.price) * qty else 0
  }

  // The opposite list once its first order has been hit for qty.
  function AfterHit(flat: seq<Order>, qty: int): seq<Order>
    requires flat != []
  {
    var maker := MakerAfter(flat[0], qty);
    if maker.Remaining() == 0 then flat[1..] else [maker] + flat[1..]
  }

  function Match(symbol: string, tradeSeq: nat, taker: Order, flat: seq<Order>): Matched
    decreases |flat|, taker.Remaining() > 0
  {
    if !CanFill(taker, flat) then
      Matched(taker, flat, [], 0)
    else
      var qty := FillQuantity(taker, flat[0]);
      var fill := Fill(TradeOf(symbol, tradeSeq + 1, taker, flat[0], qty), MakerAfter(flat[0], qty));
      var more := Match(symbol, tradeSeq + 1, TakerAfter(taker, qty), AfterHit(flat, qty));
      more.(fills := [fill] + more.fills, refund := Refund(taker, flat[0], qty) + more.refund)
  }

  // ----- Resting -----

  // Inserts o behind every order at its own or a better price.
  function Insert(isBid: bool, flat: seq<Order>, o: Order): seq<Order> {
    if flat == [] || Before(isBid, o.price, flat[0].price) then [o] + flat
    else [flat[0]] + Insert(isBid, flat[1..], o)
  }

  function Rest(b: Book, o: Order): Book {
    if o.side == Buy then b.(bids := Insert(true, b.bids, o)) else b.(asks := Insert(false, b.asks, o))
  }

  // ----- Place and Cancel -----

  datatype Placed = Placed(book: Book, taker: Order, fills: seq<Fill>, release: int)

  function Accepted(b: Book, o: Order): Order {
    o.(sequence := b.orderSeq + 1, status := Open)
  }

  function Outcome(taker: Order): Order {
    taker.(status := if taker.Remaining() == 0 then Filled else if taker.filled > 0 then PartiallyFilled else Open)
  }

  function AfterMatch(b: Book, side: Side, m: Matched): Book {
    Book(b.symbol,
         if side == Sell then m.rest else b.bids,
         if side == Sell then b.asks else m.rest,
         b.orderSeq + 1,
         b.tradeSeq + |m.fills|)
  }

  function Place(b: Book, o: Order): Placed {
    var m := Match(b.symbol, b.tradeSeq, Accepted(b, o), b.Opposite(o.side));
    var taker := Outcome(m.taker);
    var b' := AfterMatch(b, o.side, m);
    Placed(if taker.Remaining() == 0 then b' else Rest(b', taker), taker, m.fills, m.refund)
  }

  datatype Cancellation = Cancellation(book: Book, order: Order, releaseCOP: int, releaseVibranium: int)

  // Position of the first order with this ID, or |s| when there is none.
  function Find(s: seq<Order>, id: string): (i: nat)
    ensures i <= |s|
    ensures i < |s| ==> s[i].id == id
    ensures forall j :: 0 <= j < i ==> s[j].id != id
  {
    if s == [] || s[0].id == id then 0 else 1 + Find(s[1..], id)
  }

  function RemoveAt(s: seq<Order>, i: nat): seq<Order>
    requires i < |s|
  {
    s[..i] + s[i + 1..]
  }

  function AsCancelled(o: Order): Order { o.(status := Cancelled) }

  function Cancel(b: Book, id: string): Option<Cancellation> {
    var i, j := Find(b.bids, id), Find(b.asks, id);
    if i < |b.bids| then
      var o := b.bids[i];
      Some(CancelOf(b.(bids := RemoveAt(b.bids, i)), o))
    else if j < |b.asks| then
      var o := b.asks[j];
      Some(CancelOf(b.(asks := RemoveAt(b.asks, j)), o))
    else None
  }

  function CancelOf(b: Book, o: Order): Cancellation {
    Cancellation(b, AsCancelled(o),
                 if o.side == Buy then o.Remaining() * o.price else 0,
                 if o.side == Buy then 0 else o.Remaining())
  }

  // ----- The book invariant -----

  ghost predicate Resting(o: Order, isBid: bool, orderSeq: int) {
    && o.side == (if isBid then Buy else Sell)
    && o.Validate().None?
    && 0 <= o.filled < o.quantity
    && o.status == (if o.filled == 0 then Open else PartiallyFilled)
    && 1 <= o.sequence <= orderSeq
  }

  ghost predicate Sorted(isBid: bool, s: seq<Order>) {
    forall i, j :: 0 <= i < j < |s| ==> Priority(isBid, s[i], s[j])
  }

  ghost predicate UniqueIds(s: seq<Order>) {
    forall i, j :: 0 <= i < j < |s| ==> s[i].id != s[j].id
  }

  ghost predicate NoId(s: seq<Order>, id: string) {
    forall i :: 0 <= i < |s| ==> s[i].id != id
  }

  ghost predicate AllResting(isBid: bool, s: seq<Order>, orderSeq: int) {
    forall i :: 0 <= i < |s| ==> Resting(s[i], isBid, orderSeq)
  }

  ghost predicate SideInv(isBid: bool, s: seq<Order>, orderSeq: int) {
    && AllResting(isBid, s, orderSeq)
    && Sorted(isBid, s)
    && UniqueIds(s)
  }

  // No order rests on both sides, and the book is never crossed: every bid is
  // strictly below every ask.
  ghost predicate Apart(bids: seq<Order>, asks: seq<Order>) {
    forall i, j :: 0 <= i < |bids| && 0 <= j < |asks| ==> bids[i].id != asks[j].id && bids[i].price < asks[j].price
  }

  ghost predicate BookInv(b: Book) {
    && SideInv(true, b.bids, b.orderSeq)
    && SideInv(false, b.asks, b.orderSeq)
    && Apart(b.bids, b.asks)
  }

  // What the callers of Place guarantee: validated, nothing filled, an ID that
  // is not resting.
  ghost predicate Placeable(b: Book, o: Order) {
    o.Validate().None? && o.filled == 0 && NoId(b.bids, o.id) && NoId(b.asks, o.id)
  }
}
