// How good an execution is. A taker gets as much as crosses its limit, at the
// best total price that any split of that quantity over the resting orders
// could give; and cancelling what rests undoes placing it.

module Execution {
  import opened Domain
  import opened Sums
  import opened FlatBook
  import opened Matching
  import opened BookInvariant
  import opened Claims

  // Best price first; time within a price does not matter here.
  ghost predicate PriceSorted(isBid: bool, s: seq<Order>) {
    forall i, j :: 0 <= i < j < |s| ==> !Before(isBid, s[j].price, s[i].price)
  }

  lemma SideIsPriceSorted(isBid: bool, s: seq<Order>, orderSeq: int)
    requires SideInv(isBid, s, orderSeq)
    ensures PriceSorted(isBid, s) && Tradable(s)
  {
    forall i, j | 0 <= i < j < |s|
      ensures !Before(isBid, s[j].price, s[i].price)
    {
      assert Priority(isBid, s[i], s[j]);
    }
  }

  lemma HitKeepsSorted(isBid: bool, flat: seq<Order>, qty: int)
    requires PriceSorted(isBid, flat) && Tradable(flat) && flat != [] && 0 <= qty <= flat[0].Remaining()
    ensures PriceSorted(isBid, AfterHit(flat, qty)) && Tradable(AfterHit(flat, qty))
  {
    var s := AfterHit(flat, qty);
    var k := |flat| - |s|;
    assert forall i :: 0 <= i < |s| ==> s[i].price == flat[k + i].price;
  }

  // ----- How much is filled -----

  function Crossing(side: Side, price: int): Order -> int {
    (o: Order) => if Crosses(side, price, o.price) then o.Remaining() else 0
  }

  lemma {:induction false} FillsAllThatCrosses(symbol: string, tradeSeq: nat, taker: Order, flat: seq<Order>)
    requires PriceSorted(taker.side != Buy, flat) && Tradable(flat) && taker.filled <= taker.quantity
    ensures Match(symbol, tradeSeq, taker, flat).taker.filled
         == taker.filled + Min(taker.Remaining(), Sum(flat, Crossing(taker.side, taker.price)))
    decreases |flat|, taker.Remaining() > 0
  {
    var f := Crossing(taker.side, taker.price);
    if CanFill(taker, flat) {
      var qty := FillQuantity(taker, flat[0]);
      var maker', flat' := MakerAfter(flat[0], qty), AfterHit(flat, qty);
      HitKeepsSorted(taker.side != Buy, flat, qty);
      FillsAllThatCrosses(symbol, tradeSeq + 1, TakerAfter(taker, qty), flat');
      assert ([maker'] + flat[1..])[1..] == flat[1..];
      assert Sum(flat', f) == Sum(flat, f) - qty;
    } else {
      SumNonNegative(flat, f);
      if taker.Remaining() > 0 {
        forall o | o in flat
          ensures f(o) == 0
        {
          var i :| 0 <= i < |flat| && flat[i] == o;
          assert i > 0 ==> !Before(taker.side != Buy, flat[i].price, flat[0].price);
        }
        SumZero(flat, f);
      }
    }
  }

  // A placed order is filled for exactly the lesser of what it asks for and what
  // rests on the other side at prices it accepts.
  lemma PlaceFillsAllThatCrosses(b: Book, o: Order)
    requires BookInv(b) && Placeable(b, o)
    ensures Place(b, o).taker.filled == Min(o.quantity, Sum(b.Opposite(o.side), Crossing(o.side, o.price)))
  {
    SideIsPriceSorted(o.side != Buy, b.Opposite(o.side), b.orderSeq);
    FillsAllThatCrosses(b.symbol, b.tradeSeq, Accepted(b, o), b.Opposite(o.side));
  }

  // ----- At what price -----

  // What one unit costs the taker: a seller's proceeds count negatively.
  function UnitCost(side: Side, price: int): int { if side == Buy then price else -price }

  function CostOf(side: Side, price: int, quantity: int): int { UnitCost(side, price) * quantity }

  function FillCost(side: Side): Fill -> int {
    (f: Fill) => CostOf(side, f.trade.price, f.trade.quantity)
  }

  // Some way of taking quantities from resting orders within their remainders.
  ghost predicate Allocation(alloc: seq<int>, flat: seq<Order>) {
    |alloc| == |flat| && forall i :: 0 <= i < |flat| ==> 0 <= alloc[i] <= flat[i].Remaining()
  }

  function Identity(): int -> int { (n: int) => n }

  function AllocationCost(side: Side, alloc: seq<int>, flat: seq<Order>): int
    requires |alloc| == |flat|
  {
    if flat == [] then 0
    else CostOf(side, flat[0].price, alloc[0]) + AllocationCost(side, alloc[1..], flat[1..])
  }

  // Cost of taking q from the front of the list.
  function FrontCost(side: Side, q: int, flat: seq<Order>): int
    decreases |flat|
  {
    if q <= 0 || flat == [] then 0
    else
      var m := Min(q, flat[0].Remaining());
      CostOf(side, flat[0].price, m) + FrontCost(side, q - m, flat[1..])
  }

  ghost predicate AllCostAtLeast(side: Side, p: int, flat: seq<Order>) {
    forall i :: 0 <= i < |flat| ==> p <= UnitCost(side, flat[i].price)
  }

  lemma MulMonotone(p: int, u: int, d: int)
    requires p <= u && 0 <= d
    ensures p * d <= u * d
  {
  }

  // Taking d more units costs at least d times the least unit cost.
  lemma {:induction false} MoreCostsMore(side: Side, p: int, q: int, d: int, flat: seq<Order>)
    requires AllCostAtLeast(side, p, flat) && Tradable(flat) && 0 <= q && 0 <= d
    requires q + d <= Sum(flat, Remainders())
    ensures FrontCost(side, q, flat) + p * d <= FrontCost(side, q + d, flat)
    decreases |flat|
  {
    if flat != [] {
      var u, r := UnitCost(side, flat[0].price), flat[0].Remaining();
      var m, m' := Min(q, r), Min(q + d, r);
      var e := m' - m;
      SumNonNegative(flat[1..], Remainders());
      MoreCostsMore(side, p, q - m, d - e, flat[1..]);
      MulMonotone(p, u, e);
      Distribute(u, m, e);
      Distribute(p, e, d - e);
    }
  }

  function Remainders(): Order -> int { (o: Order) => o.Remaining() }

  lemma {:induction false} AllocationFits(alloc: seq<int>, flat: seq<Order>)
    requires Allocation(alloc, flat)
    ensures 0 <= Sum(alloc, Identity()) <= Sum(flat, Remainders())
  {
    if flat != [] {
      AllocationFits(alloc[1..], flat[1..]);
    }
  }

  // Taking from the front is cheapest.
  lemma {:induction false} FrontIsCheapest(side: Side, alloc: seq<int>, flat: seq<Order>)
    requires Allocation(alloc, flat) && PriceSorted(side != Buy, flat) && Tradable(flat)
    ensures FrontCost(side, Sum(alloc, Identity()), flat) <= AllocationCost(side, alloc, flat)
    decreases |flat|
  {
    if flat != [] {
      var total, u := Sum(alloc, Identity()), UnitCost(side, flat[0].price);
      var m := Min(total, flat[0].Remaining());
      AllocationFits(alloc[1..], flat[1..]);
      FrontIsCheapest(side, alloc[1..], flat[1..]);
      forall i | 0 <= i < |flat[1..]|
        ensures u <= UnitCost(side, flat[1..][i].price)
      {
        assert !Before(side != Buy, flat[i + 1].price, flat[0].price);
      }
      MoreCostsMore(side, u, total - m, m - alloc[0], flat[1..]);
      Distribute(u, alloc[0], m - alloc[0]);
    }
  }

  // One hit and then the rest of the same list.
  lemma FrontCostHit(side: Side, qty: int, q: int, flat: seq<Order>)
    requires flat != [] && 0 < qty <= flat[0].Remaining() && qty <= q
    requires qty < flat[0].Remaining() ==> q == qty
    ensures FrontCost(side, q, flat) == CostOf(side, flat[0].price, qty) + FrontCost(side, q - qty, AfterHit(flat, qty))
  {
  }

  lemma {:induction false} MatchFillBounds(symbol: string, tradeSeq: nat, taker: Order, flat: seq<Order>)
    requires Tradable(flat) && taker.filled <= taker.quantity
    ensures taker.filled <= Match(symbol, tradeSeq, taker, flat).taker.filled <= taker.quantity
    decreases |flat|, taker.Remaining() > 0
  {
    if CanFill(taker, flat) {
      var qty := FillQuantity(taker, flat[0]);
      MatchFillBounds(symbol, tradeSeq + 1, TakerAfter(taker, qty), AfterHit(flat, qty));
    }
  }

  // What a match pays is the cost of its quantity taken from the front.
  lemma {:induction false} MatchTakesFront(symbol: string, tradeSeq: nat, taker: Order, flat: seq<Order>, q: int)
    requires Tradable(flat) && taker.filled <= taker.quantity
    requires Match(symbol, tradeSeq, taker, flat).taker.filled == taker.filled + q
    ensures Sum(Match(symbol, tradeSeq, taker, flat).fills, FillCost(taker.side)) == FrontCost(taker.side, q, flat)
    decreases |flat|, taker.Remaining() > 0
  {
    if CanFill(taker, flat) {
      var qty := FillQuantity(taker, flat[0]);
      var taker', flat' := TakerAfter(taker, qty), AfterHit(flat, qty);
      var m, more := Match(symbol, tradeSeq, taker, flat), Match(symbol, tradeSeq + 1, taker', flat');
      assert m.fills[1..] == more.fills;
      MatchFillBounds(symbol, tradeSeq + 1, taker', flat');
      MatchTakesFront(symbol, tradeSeq + 1, taker', flat', q - qty);
      FrontCostHit(taker.side, qty, q, flat);
    }
  }

  // Best execution: among all ways of taking the same quantity from the resting
  // opposite orders, none costs a BUY less or brings a SELL more.
  lemma BestExecution(b: Book, o: Order, alloc: seq<int>)
    requires BookInv(b) && Placeable(b, o)
    requires Allocation(alloc, b.Opposite(o.side)) && Sum(alloc, Identity()) == Place(b, o).taker.filled
    ensures Sum(Place(b, o).fills, FillCost(o.side)) <= AllocationCost(o.side, alloc, b.Opposite(o.side))
  {
    var flat := b.Opposite(o.side);
    SideIsPriceSorted(o.side != Buy, flat, b.orderSeq);
    MatchTakesFront(b.symbol, b.tradeSeq, Accepted(b, o), flat, Place(b, o).taker.filled);
    FrontIsCheapest(o.side, alloc, flat);
  }

  // ----- Place and Cancel -----

  lemma {:induction false} FindInserted(isBid: bool, flat: seq<Order>, o: Order)
    requires NoId(flat, o.id)
    ensures var s := Insert(isBid, flat, o);
      && Find(s, o.id) < |s| && s[Find(s, o.id)] == o
      && RemoveAt(s, Find(s, o.id)) == flat
  {
    var s, i := Insert(isBid, flat, o), Slot(isBid, flat, o);
    InsertAtSlot(isBid, flat, o);
    assert s[i] == o;
    assert forall j :: 0 <= j < |s| && j != i ==> s[j].id != o.id;
    assert Find(s, o.id) == i;
    assert RemoveAt(s, i) == flat;
  }

  // Cancelling an order that has just come to rest takes back exactly the
  // resting: both sides are as the match left them.
  lemma CancelUndoesResting(b: Book, o: Order)
    requires BookInv(b) && Placeable(b, o) && Place(b, o).taker.Remaining() != 0
    ensures var m := Match(b.symbol, b.tradeSeq, Accepted(b, o), b.Opposite(o.side));
      Cancel(Place(b, o).book, o.id) == Some(CancelOf(AfterMatch(b, o.side, m), Place(b, o).taker))
  {
    var m := Match(b.symbol, b.tradeSeq, Accepted(b, o), b.Opposite(o.side));
    AfterMatchInv(b, o, m);
    MatchKeepsTaker(b.symbol, b.tradeSeq, Accepted(b, o), b.Opposite(o.side));
    RestThenCancel(AfterMatch(b, o.side, m), Outcome(m.taker));
  }

  // And what it releases is the unfilled part of the reservation.
  lemma CancelReleasesUnfilled(b: Book, o: Order)
    requires BookInv(b) && Placeable(b, o) && Place(b, o).taker.Remaining() != 0
    ensures var filled := Place(b, o).taker.filled;
      && Cancel(Place(b, o).book, o.id).Some?
      && var c := Cancel(Place(b, o).book, o.id).value;
         && c.order.status == Cancelled
         && c.releaseCOP == (if o.side == Buy then o.ReservedCOP() - o.price * filled else 0)
         && c.releaseVibranium == (if o.side == Sell then o.ReservedVibranium() - filled else 0)
  {
    CancelUndoesResting(b, o);
    MatchTakerResting(b, o);
    UnfilledPart(Cancel(Place(b, o).book, o.id).value.book, o, Place(b, o).taker);
  }

  lemma UnfilledPart(b: Book, o: Order, x: Order)
    requires x.Terms() == o.Terms() && o.side.Valid()
    ensures CancelOf(b, x).releaseCOP == (if o.side == Buy then o.ReservedCOP() - o.price * x.filled else 0)
    ensures CancelOf(b, x).releaseVibranium == (if o.side == Sell then o.ReservedVibranium() - x.filled else 0)
  {
    Distribute(o.price, x.Remaining(), x.filled);
  }

  lemma RestThenCancel(b: Book, o: Order)
    requires NoId(b.bids, o.id) && NoId(b.asks, o.id)
    ensures Cancel(Rest(b, o), o.id) == Some(CancelOf(b, o))
  {
    FindInserted(o.side == Buy, b.Own(o.side), o);
    AbsentIsNotFound(b, o.id);
  }

  lemma AbsentIsNotFound(b: Book, id: string)
    requires NoId(b.bids, id) && NoId(b.asks, id)
    ensures Find(b.bids, id) == |b.bids| && Find(b.asks, id) == |b.asks| && Cancel(b, id).None?
  {
  }

  // A non-crossing order followed by its cancellation leaves both sides as they
  // were and releases the whole reservation.
  lemma PlaceThenCancel(b: Book, o: Order)
    requires BookInv(b) && Placeable(b, o) && Place(b, o).fills == []
    ensures var c := Cancel(Place(b, o).book, o.id);
      && c.Some? && c.value.book.bids == b.bids && c.value.book.asks == b.asks
      && c.value.releaseCOP == o.ReservedCOP() && c.value.releaseVibranium == o.ReservedVibranium()
  {
    assert !CanFill(Accepted(b, o), b.Opposite(o.side));
    CancelUndoesResting(b, o);
    CancelReleasesUnfilled(b, o);
  }

  // A second cancellation always fails.
  lemma CancelOnce(b: Book, id: string)
    requires BookInv(b) && Cancel(b, id).Some?
    ensures Cancel(Cancel(b, id).value.book, id).None?
  {
    CancelKeepsBookInv(b, id);
    AbsentIsNotFound(Cancel(b, id).value.book, id);
  }

  // Cancelling a resting order takes it, and nothing else, off the book, and what
  // is released is the collateral that stood behind it.
  lemma CancelTakesOff(b: Book, o: Order)
    requires BookInv(b) && (o in b.bids || o in b.asks)
    ensures Cancel(b, o.id).Some?
    ensures var c := Cancel(b, o.id).value;
      && c.order == o.(status := Cancelled) && c.releaseCOP == Due(COP, o) && c.releaseVibranium == Due(VIB, o)
      && (forall x :: x in c.book.bids <==> x in b.bids && x.id != o.id)
      && (forall x :: x in c.book.asks <==> x in b.asks && x.id != o.id)
      && c.book == b.(bids := c.book.bids, asks := c.book.asks)
  {
    if o in b.bids {
      var i :| 0 <= i < |b.bids| && b.bids[i] == o;
      FoundWhere(b.bids, i);
      RemovedExactly(b.bids, i);
      CancelBid(b, i);
    } else {
      var j :| 0 <= j < |b.asks| && b.asks[j] == o;
      FoundWhere(b.asks, j);
      RemovedExactly(b.asks, j);
      CancelAsk(b, j);
    }
  }

  lemma CancelBid(b: Book, i: nat)
    requires i < |b.bids| && Find(b.bids, b.bids[i].id) == i && Apart(b.bids, b.asks) && b.bids[i].side == Buy
    ensures var o := b.bids[i];
      && Cancel(b, o.id) == Some(Cancellation(b.(bids := RemoveAt(b.bids, i)), o.(status := Cancelled), Due(COP, o), 0))
      && forall x :: x in b.asks ==> x.id != o.id
  {
  }

  lemma CancelAsk(b: Book, j: nat)
    requires j < |b.asks| && Find(b.asks, b.asks[j].id) == j && Apart(b.bids, b.asks) && b.asks[j].side == Sell
    ensures var o := b.asks[j];
      && Cancel(b, o.id) == Some(Cancellation(b.(asks := RemoveAt(b.asks, j)), o.(status := Cancelled), 0, Due(VIB, o)))
      && forall x :: x in b.bids ==> x.id != o.id
  {
    forall x | x in b.bids
      ensures x.id != b.asks[j].id
    {
      var i :| 0 <= i < |b.bids| && b.bids[i] == x;
    }
  }

  lemma FoundWhere(s: seq<Order>, i: nat)
    requires UniqueIds(s) && i < |s|
    ensures Find(s, s[i].id) == i
  {
  }

  lemma RemovedExactly(s: seq<Order>, i: nat)
    requires UniqueIds(s) && i < |s|
    ensures forall x :: x in RemoveAt(s, i) <==> x in s && x.id != s[i].id
  {
    var r := RemoveAt(s, i);
    RemovedAt(s, i);
    forall x | x in s && x.id != s[i].id
      ensures x in r
    {
      var j :| 0 <= j < |s| && s[j] == x;
      assert r[if j < i then j else j - 1] == x;
    }
    forall x | x in r
      ensures x in s && x.id != s[i].id
    {
      var j :| 0 <= j < |r| && r[j] == x;
    }
  }

  lemma RemovedAt(s: seq<Order>, i: nat)
    requires i < |s|
    ensures |RemoveAt(s, i)| == |s| - 1
    ensures forall j :: 0 <= j < |s| - 1 ==> RemoveAt(s, i)[j] == s[if j < i then j else j + 1]
  {
  }

  lemma CancelNames(b: Book, id: string)
    requires Cancel(b, id).Some?
    ensures Cancel(b, id).value.order.id == id && Cancel(b, id).value.order.status == Cancelled
  {
  }

  // There is nothing to cancel exactly when no order with that ID rests.
  lemma NothingToCancel(b: Book, id: string)
    ensures Cancel(b, id).None? <==> NoId(b.bids, id) && NoId(b.asks, id)
  {
    if NoId(b.bids, id) && NoId(b.asks, id) { AbsentIsNotFound(b, id); }
  }
}
