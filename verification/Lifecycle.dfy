// The life of an order as the log tells it. The projection built from the log
// agrees with the book, fills only grow, terminal states are final, and the
// filled quantity of every order is the quantity of the trades that name it.

module Lifecycle {
  import opened Domain
  import opened Sums
  import opened FlatBook
  import opened Matching
  import opened BookInvariant
  import opened EventStream
  import opened Claims
  import opened Ledger

  // ----- Reading a log -----

  // The order projection after a log: the latest state of each order wins.
  function Projection(es: seq<Event>): map<string, Order> {
    if es == [] then map[] else Projected(Projection(es[..|es| - 1]), es[|es| - 1])
  }

  lemma ProjectionAppend(es: seq<Event>, e: Event)
    ensures Projection(es + [e]) == Projected(Projection(es), e)
  {
    assert (es + [e])[..|es|] == es;
  }

  predicate IsTrade(e: Event) { e.kind == TradeEvent && e.trade.Some? }

  predicate IsUpdate(e: Event) { e.kind == OrderUpdated && e.order.Some? }

  // Quantity an event trades on behalf of an order.
  function QuantityOf(id: string): Event -> int {
    (e: Event) =>
      if e.kind == TradeEvent && e.trade.Some? then
        (if e.trade.value.buyOrderId == id then e.trade.value.quantity else 0)
        + (if e.trade.value.sellOrderId == id then e.trade.value.quantity else 0)
      else 0
  }

  // Along the log an order's fill never shrinks and nothing follows a terminal state.
  ghost predicate Progresses(es: seq<Event>) {
    forall i, j :: 0 <= i < j < |es| && IsUpdate(es[i]) && IsUpdate(es[j])
                   && es[i].order.value.id == es[j].order.value.id ==>
        es[i].order.value.filled <= es[j].order.value.filled && !es[i].order.value.status.Terminal()
  }

  ghost predicate UpdatesOnly(es: seq<Event>) {
    forall e :: e in es ==> e.kind == TradeEvent || IsUpdate(e)
  }

  // The projection holds what every update said or something later.
  ghost predicate Latest(es: seq<Event>) {
    forall e :: e in es && IsUpdate(e) ==>
        var o := e.order.value;
        && o.id in Projection(es)
        && o.filled <= Projection(es)[o.id].filled
        && (o.status.Terminal() ==> Projection(es)[o.id] == o)
  }

  // live is exactly the set of projected orders that are not terminal.
  ghost predicate Mirrors(orders: map<string, Order>, live: set<Order>) {
    && (forall x :: x in live ==> x.id in orders && orders[x.id] == x && !x.status.Terminal())
    && (forall id :: id in orders ==>
          && orders[id].id == id
          && 0 <= orders[id].filled <= orders[id].quantity
          && (!orders[id].status.Terminal() ==> orders[id] in live))
  }

  ghost predicate Shape(es: seq<Event>, live: set<Order>) {
    UpdatesOnly(es) && Mirrors(Projection(es), live) && Latest(es) && Progresses(es)
  }

  // Every order's fill is what was traded for it; who has traded q so far
  // without an update that says so.
  ghost predicate FillsAddUp(es: seq<Event>, who: string, q: int) {
    forall id :: Sum(es, QuantityOf(id)) ==
        if id in Projection(es) then Projection(es)[id].filled else if id == who then q else 0
  }

  function Replace(live: set<Order>, o: Order): set<Order> {
    (set x | x in live && x.id != o.id) + (if o.status.Terminal() then {} else {o})
  }

  // ----- Appending events -----

  lemma ShapeTrade(es: seq<Event>, live: set<Order>, e: Event)
    requires Shape(es, live) && e.kind == TradeEvent
    ensures Shape(es + [e], live) && Projection(es + [e]) == Projection(es)
  {
    ProjectionAppend(es, e);
  }

  lemma ShapeUpdate(es: seq<Event>, live: set<Order>, e: Event)
    requires Shape(es, live) && IsUpdate(e)
    requires var o := e.order.value;
      && 0 <= o.filled <= o.quantity
      && (o.id in Projection(es) ==>
            !Projection(es)[o.id].status.Terminal() && Projection(es)[o.id].filled <= o.filled)
    ensures Shape(es + [e], Replace(live, e.order.value))
    ensures Projection(es + [e]) == Projection(es)[e.order.value.id := e.order.value]
  {
    ProjectionAppend(es, e);
    LatestUpdate(es, e);
    ProgressUpdate(es, e);
  }

  lemma LatestUpdate(es: seq<Event>, e: Event)
    requires Latest(es) && IsUpdate(e)
    requires var o := e.order.value;
      o.id in Projection(es) ==> !Projection(es)[o.id].status.Terminal() && Projection(es)[o.id].filled <= o.filled
    ensures Latest(es + [e])
  {
    ProjectionAppend(es, e);
  }

  lemma ProgressUpdate(es: seq<Event>, e: Event)
    requires Latest(es) && Progresses(es) && IsUpdate(e)
    requires var o := e.order.value;
      o.id in Projection(es) ==> !Projection(es)[o.id].status.Terminal() && Projection(es)[o.id].filled <= o.filled
    ensures Progresses(es + [e])
  {
    forall i | 0 <= i < |es| && IsUpdate(es[i]) && es[i].order.value.id == e.order.value.id
      ensures es[i].order.value.filled <= e.order.value.filled && !es[i].order.value.status.Terminal()
    {
      assert es[i] in es;
    }
  }

  lemma QuantityAppend(es: seq<Event>, e: Event, id: string)
    ensures Sum(es + [e], QuantityOf(id)) == Sum(es, QuantityOf(id)) + QuantityOf(id)(e)
  {
    SumConcat(es, [e], QuantityOf(id));
    SumOne(e, QuantityOf(id));
  }

  // ----- One command -----

  ghost function SetOf(s: seq<Order>): set<Order> { set x | x in s }

  ghost function Live(b: Book): set<Order> { SetOf(b.bids) + SetOf(b.asks) }

  // While a taker is matching: the log agrees with what is live, and no update
  // has spoken of the taker yet.
  ghost predicate Tracked(es: seq<Event>, live: set<Order>, taker: Order) {
    Shape(es, live) && FillsAddUp(es, taker.id, taker.filled) && taker.id !in Projection(es)
  }

  // A trade counts for both orders, an update for none.
  lemma HitQuantity(es: seq<Event>, t: Trade, maker: Order, x: string, y: string, id: string)
    requires {t.buyOrderId, t.sellOrderId} == {x, y} && (t.buyOrderId == t.sellOrderId <==> x == y)
    ensures Sum(es + [TradeOnly(t)] + [Update(maker, 0, 0)], QuantityOf(id))
         == Sum(es, QuantityOf(id)) + (if id == x then t.quantity else 0) + (if id == y then t.quantity else 0)
  {
    QuantityAppend(es, TradeOnly(t), id);
    QuantityAppend(es + [TradeOnly(t)], Update(maker, 0, 0), id);
  }

  // A fill: the trade counts for both orders, the update replaces the maker.
  lemma TrackHit(es: seq<Event>, live: set<Order>, symbol: string, seqNo: nat, taker: Order, maker: Order, qty: int)
    requires Tracked(es, live, taker) && maker in live && 0 <= qty <= maker.Remaining()
    ensures var trade := TradeOnly(TradeOf(symbol, seqNo, taker, maker, qty));
      var update := Update(MakerAfter(maker, qty), 0, 0);
      Tracked(es + [trade] + [update], Replace(live, MakerAfter(maker, qty)), TakerAfter(taker, qty))
  {
    var t := TradeOf(symbol, seqNo, taker, maker, qty);
    HitShape(es, live, t, maker, qty);
    forall id
      ensures Sum(es + [TradeOnly(t)] + [Update(MakerAfter(maker, qty), 0, 0)], QuantityOf(id))
           == Sum(es, QuantityOf(id)) + (if id == taker.id then qty else 0) + (if id == maker.id then qty else 0)
    {
      HitQuantity(es, t, MakerAfter(maker, qty), taker.id, maker.id, id);
    }
    FilledHit(es, es + [TradeOnly(t)] + [Update(MakerAfter(maker, qty), 0, 0)], taker, maker, qty);
  }

  lemma HitShape(es: seq<Event>, live: set<Order>, t: Trade, maker: Order, qty: int)
    requires Shape(es, live) && maker in live && 0 <= qty <= maker.Remaining()
    ensures var x := MakerAfter(maker, qty);
      var es' := es + [TradeOnly(t)] + [Update(x, 0, 0)];
      && Shape(es', Replace(live, x)) && maker.id in Projection(es) && Projection(es)[maker.id] == maker
      && Projection(es') == Projection(es)[maker.id := x]
  {
    ShapeTrade(es, live, TradeOnly(t));
    ShapeUpdate(es + [TradeOnly(t)], live, Update(MakerAfter(maker, qty), 0, 0));
  }

  lemma FilledHit(es: seq<Event>, es': seq<Event>, taker: Order, maker: Order, qty: int)
    requires FillsAddUp(es, taker.id, taker.filled) && taker.id !in Projection(es)
    requires maker.id in Projection(es) && Projection(es)[maker.id] == maker
    requires Projection(es') == Projection(es)[maker.id := MakerAfter(maker, qty)]
    requires forall id ::
        (Sum(es', QuantityOf(id))
         == Sum(es, QuantityOf(id)) + (if id == taker.id then qty else 0) + (if id == maker.id then qty else 0))
    ensures FillsAddUp(es', taker.id, taker.filled + qty)
  {
  }

  // The opposite side during a match, and everything else that is live.
  ghost predicate Splits(live: set<Order>, others: set<Order>, flat: seq<Order>) {
    && live == others + SetOf(flat)
    && UniqueIds(flat)
    && forall x, y :: x in others && y in flat ==> x.id != y.id
  }

  lemma HeadIdUnique(flat: seq<Order>, x: Order)
    requires UniqueIds(flat) && flat != [] && x in flat[1..]
    ensures x.id != flat[0].id
  {
    var i :| 0 <= i < |flat[1..]| && flat[1..][i] == x;
    assert flat[i + 1].id != flat[0].id;
  }

  lemma HitSplits(live: set<Order>, others: set<Order>, flat: seq<Order>, qty: int)
    requires Splits(live, others, flat) && flat != []
    ensures Splits(Replace(live, MakerAfter(flat[0], qty)), others, AfterHit(flat, qty))
  {
    var maker := MakerAfter(flat[0], qty);
    assert forall x :: x in flat <==> x == flat[0] || x in flat[1..];
    forall x | x in flat[1..] { HeadIdUnique(flat, x); }
    assert SetOf(AfterHit(flat, qty)) == SetOf(flat[1..]) + (if maker.Remaining() == 0 then {} else {maker});
  }

  lemma {:induction false} TrackMatch(es: seq<Event>, live: set<Order>, others: set<Order>,
                                      symbol: string, tradeSeq: nat, taker: Order, flat: seq<Order>)
    requires Tracked(es, live, taker) && Splits(live, others, flat) && Tradable(flat)
    ensures var m := Match(symbol, tradeSeq, taker, flat);
      Tracked(es + FillEvents(m.fills), others + SetOf(m.rest), m.taker)
    decreases |flat|, taker.Remaining() > 0
  {
    var m := Match(symbol, tradeSeq, taker, flat);
    if !CanFill(taker, flat) {
      assert es + FillEvents(m.fills) == es;
    } else {
      var qty := FillQuantity(taker, flat[0]);
      var t := TradeOf(symbol, tradeSeq + 1, taker, flat[0], qty);
      TrackFirst(es, live, others, symbol, tradeSeq, taker, flat);
      TrackMatch(es + [TradeOnly(t)] + [Update(MakerAfter(flat[0], qty), 0, 0)],
                 Replace(live, MakerAfter(flat[0], qty)), others,
                 symbol, tradeSeq + 1, TakerAfter(taker, qty), AfterHit(flat, qty));
      FirstFillEvents(es, Fill(t, MakerAfter(flat[0], qty)),
                      Match(symbol, tradeSeq + 1, TakerAfter(taker, qty), AfterHit(flat, qty)).fills);
    }
  }

  lemma TrackFirst(es: seq<Event>, live: set<Order>, others: set<Order>,
                   symbol: string, tradeSeq: nat, taker: Order, flat: seq<Order>)
    requires Tracked(es, live, taker) && Splits(live, others, flat) && Tradable(flat) && CanFill(taker, flat)
    ensures var qty := FillQuantity(taker, flat[0]);
      var t := TradeOf(symbol, tradeSeq + 1, taker, flat[0], qty);
      && Tracked(es + [TradeOnly(t)] + [Update(MakerAfter(flat[0], qty), 0, 0)],
                 Replace(live, MakerAfter(flat[0], qty)), TakerAfter(taker, qty))
      && Splits(Replace(live, MakerAfter(flat[0], qty)), others, AfterHit(flat, qty))
      && Tradable(AfterHit(flat, qty))
  {
    var qty := FillQuantity(taker, flat[0]);
    HitKeepsTradable(taker, flat);
    HeadIsLive(live, others, flat);
    TrackHit(es, live, symbol, tradeSeq + 1, taker, flat[0], qty);
    HitSplits(live, others, flat, qty);
  }

  lemma HeadIsLive(live: set<Order>, others: set<Order>, flat: seq<Order>)
    requires Splits(live, others, flat) && flat != []
    ensures flat[0] in live
  {
  }

  lemma FirstFillEvents(es: seq<Event>, f: Fill, more: seq<Fill>)
    ensures es + FillEvents([f] + more)
         == es + [TradeOnly(f.trade)] + [Update(f.maker, 0, 0)] + FillEvents(more)
  {
    assert ([f] + more)[1..] == more;
  }

  // ----- Place and Cancel -----

  lemma SetOfCons(x: Order, s: seq<Order>)
    ensures SetOf([x] + s) == {x} + SetOf(s)
  {
    assert forall y :: y in [x] + s <==> y == x || y in s;
  }

  lemma {:induction false} InsertSet(isBid: bool, flat: seq<Order>, o: Order)
    ensures SetOf(Insert(isBid, flat, o)) == SetOf(flat) + {o}
  {
    if flat == [] || Before(isBid, o.price, flat[0].price) {
      SetOfCons(o, flat);
    } else {
      InsertSet(isBid, flat[1..], o);
      SetOfCons(flat[0], flat[1..]);
      SetOfCons(flat[0], Insert(isBid, flat[1..], o));
      assert flat == [flat[0]] + flat[1..];
    }
  }

  lemma BookSplits(b: Book, side: Side)
    requires BookInv(b) && side.Valid()
    ensures Splits(Live(b), SetOf(b.Own(side)), b.Opposite(side))
  {
  }

  // The last update of a placement: the taker's own state.
  lemma TrackTaker(es: seq<Event>, live: set<Order>, taker: Order, last: Order, release: int)
    requires Tracked(es, live, taker)
    requires last == taker.(status := last.status) && 0 <= last.filled <= last.quantity
    ensures var es' := es + [Update(last, release, 0)];
      Shape(es', live + (if last.status.Terminal() then {} else {last})) && FillsAddUp(es', last.id, 0)
  {
    var e := Update(last, release, 0);
    ShapeUpdate(es, live, e);
    assert Replace(live, last) == live + (if last.status.Terminal() then {} else {last});
    forall id { QuantityAppend(es, e, id); }
  }

  lemma TrackPlace(es: seq<Event>, b: Book, o: Order)
    requires BookInv(b) && Placeable(b, o)
    requires Shape(es, Live(b)) && FillsAddUp(es, o.id, 0) && o.id !in Projection(es)
    ensures var p := Place(b, o);
      Shape(es + PlaceEvents(p), Live(p.book)) && FillsAddUp(es + PlaceEvents(p), o.id, 0)
  {
    BookSplits(b, o.side);
    OppositeSides(b, o);
    MatchTakerResting(b, o);
    TrackOpposed(es, b, o);
  }

  lemma TrackOpposed(es: seq<Event>, b: Book, o: Order)
    requires Opposed(b, o) && Splits(Live(b), SetOf(b.Own(o.side)), b.Opposite(o.side))
    requires Tracked(es, Live(b), Accepted(b, o))
    requires 0 <= Place(b, o).taker.filled <= Place(b, o).taker.quantity
    ensures var p := Place(b, o);
      Shape(es + PlaceEvents(p), Live(p.book)) && FillsAddUp(es + PlaceEvents(p), o.id, 0)
  {
    var m := Match(b.symbol, b.tradeSeq, Accepted(b, o), b.Opposite(o.side));
    PlacedLive(b, o, m);
    TrackTaking(es, Live(b), SetOf(b.Own(o.side)), b.symbol, b.tradeSeq, Accepted(b, o), b.Opposite(o.side),
                Outcome(m.taker));
    assert es + FillEvents(m.fills) + [Update(Outcome(m.taker), m.refund, 0)] == es + PlaceEvents(Place(b, o));
  }

  lemma TrackTaking(es: seq<Event>, live: set<Order>, others: set<Order>,
                    symbol: string, tradeSeq: nat, taker: Order, flat: seq<Order>, last: Order)
    requires Tracked(es, live, taker) && Splits(live, others, flat) && Tradable(flat)
    requires var m := Match(symbol, tradeSeq, taker, flat);
      last == m.taker.(status := last.status) && 0 <= last.filled <= last.quantity
    ensures var m := Match(symbol, tradeSeq, taker, flat);
      var es' := es + FillEvents(m.fills) + [Update(last, m.refund, 0)];
      && Shape(es', others + SetOf(m.rest) + (if last.status.Terminal() then {} else {last}))
      && FillsAddUp(es', taker.id, 0)
  {
    var m := Match(symbol, tradeSeq, taker, flat);
    TrackMatch(es, live, others, symbol, tradeSeq, taker, flat);
    MatchKeepsTaker(symbol, tradeSeq, taker, flat);
    TrackTaker(es + FillEvents(m.fills), others + SetOf(m.rest), m.taker, last, m.refund);
  }

  lemma PlacedLive(b: Book, o: Order, m: Matched)
    requires o.side.Valid() && m == Match(b.symbol, b.tradeSeq, Accepted(b, o), b.Opposite(o.side))
    ensures var p := Place(b, o);
      Live(p.book) == SetOf(b.Own(o.side)) + SetOf(m.rest) + (if p.taker.status.Terminal() then {} else {p.taker})
  {
    MatchKeepsTaker(b.symbol, b.tradeSeq, Accepted(b, o), b.Opposite(o.side));
    InsertSet(o.side == Buy, b.Own(o.side), Place(b, o).taker);
  }

  lemma TrackCancel(es: seq<Event>, b: Book, id: string)
    requires BookInv(b) && Shape(es, Live(b)) && FillsAddUp(es, "", 0) && Cancel(b, id).Some?
    ensures var c := Cancel(b, id);
      Shape(es + CancelEvents(c), Live(c.value.book)) && FillsAddUp(es + CancelEvents(c), "", 0)
  {
    var c := Cancel(b, id).value;
    var o := CancelledWasLive(b, id);
    TrackCancelled(es, Live(b), o, Update(c.order, c.releaseCOP, c.releaseVibranium));
  }

  lemma TrackCancelled(es: seq<Event>, live: set<Order>, o: Order, e: Event)
    requires Shape(es, live) && FillsAddUp(es, "", 0) && o in live && IsUpdate(e) && e.order.value == AsCancelled(o)
    ensures Shape(es + [e], Replace(live, AsCancelled(o))) && FillsAddUp(es + [e], "", 0)
  {
    ShapeUpdate(es, live, e);
    QuietFills(es, o, e);
  }

  // An update that changes no fill leaves the fills adding up.
  lemma QuietFills(es: seq<Event>, o: Order, e: Event)
    requires FillsAddUp(es, "", 0) && IsUpdate(e)
    requires o.id in Projection(es) && Projection(es)[o.id] == o && e.order.value == AsCancelled(o)
    requires Projection(es + [e]) == Projection(es)[o.id := AsCancelled(o)]
    ensures FillsAddUp(es + [e], "", 0)
  {
    forall id
      ensures Sum(es + [e], QuantityOf(id)) == Sum(es, QuantityOf(id))
    {
      QuantityAppend(es, e, id);
    }
  }

  lemma CancelledWasLive(b: Book, id: string) returns (o: Order)
    requires BookInv(b) && Cancel(b, id).Some?
    ensures var c := Cancel(b, id).value;
      && Live(c.book) == Replace(Live(b), c.order)
      && o in Live(b) && c.order == AsCancelled(o)
  {
    var i := Find(b.bids, id);
    if i < |b.bids| {
      o := b.bids[i];
      RemoveSet(b.bids, i);
      assert b.bids[i] in Live(b);
      assert forall y :: y in b.asks ==> y.id != b.bids[i].id;
    } else {
      var j := Find(b.asks, id);
      o := b.asks[j];
      RemoveSet(b.asks, j);
      assert b.asks[j] in Live(b);
      assert forall x :: x in b.bids ==> x.id != b.asks[j].id;
    }
  }

  lemma RemoveSet(s: seq<Order>, i: nat)
    requires UniqueIds(s) && i < |s|
    ensures SetOf(RemoveAt(s, i)) == set x | x in s && x.id != s[i].id
  {
    forall x | x in s && x.id != s[i].id
      ensures x in RemoveAt(s, i)
    {
      var j :| 0 <= j < |s| && s[j] == x;
      assert RemoveAt(s, i)[if j < i then j else j - 1] == x;
    }
    forall j | 0 <= j < |s| - 1
      ensures RemoveAt(s, i)[j] == s[if j < i then j else j + 1]
    {}
  }
}
