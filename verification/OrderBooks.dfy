// The imperative order book. Place matches by hitting the front order of the
// best opposite level again and again, changing makers and taker in place;
// Cancel removes from the middle of a queue. Each method is proved to compute
// the corresponding function on the flat book.

module OrderBooks {
  import opened Domain
  import opened FlatBook
  import opened Matching
  import opened BookInvariant
  import opened Depth
  import opened DepthQuery
  import opened BookSides
  import EventIds

  datatype PlaceResult = PlaceResult(taker: OrderCell, fills: seq<Fill>, takerReleaseCOP: int)

  datatype CancelResult = CancelResult(order: OrderCell, releaseCOP: int, releaseVibranium: int)

  datatype BookSnapshot = BookSnapshot(symbol: string, bids: seq<LevelView>, asks: seq<LevelView>)

  ghost predicate UniqueCells(cells: seq<OrderCell>) {
    forall i, j :: 0 <= i < j < |cells| ==> cells[i].id != cells[j].id
  }

  // Every cell is on the expected side and findable by its ID.
  ghost predicate Listed(cells: seq<OrderCell>, side: Side, orders: map<string, OrderCell>) {
    && UniqueCells(cells)
    && forall c :: c in cells ==> c.side == side && c.id in orders && orders[c.id] == c
  }

  // The ID index holds exactly the orders of the two lists.
  ghost predicate Indexed(bids: seq<OrderCell>, asks: seq<OrderCell>, orders: map<string, OrderCell>) {
    && Listed(bids, Buy, orders) && Listed(asks, Sell, orders)
    && forall id :: id in orders ==> orders[id].id == id && (orders[id] in bids || orders[id] in asks)
  }

  // The same, read off one order at a time: each accounts for its own entry.
  ghost predicate Indexes(bids: seq<OrderCell>, asks: seq<OrderCell>, orders: map<string, OrderCell>)
    decreases |bids| + |asks|
  {
    if bids != [] then
      var c := bids[0];
      c.side == Buy && c.id in orders && orders[c.id] == c && Indexes(bids[1..], asks, orders - {c.id})
    else if asks != [] then
      var c := asks[0];
      c.side == Sell && c.id in orders && orders[c.id] == c && Indexes(bids, asks[1..], orders - {c.id})
    else orders.Keys == {}
  }

  ghost predicate Submap(a: map<string, OrderCell>, b: map<string, OrderCell>) {
    forall id :: id in a ==> id in b && a[id] == b[id]
  }

  lemma SubmapPut(a: map<string, OrderCell>, b: map<string, OrderCell>, c: map<string, OrderCell>, o: OrderCell)
    requires Submap(a, b[o.id := o]) && Submap(b, c)
    ensures Submap(a, c[o.id := o])
  {
  }

  lemma {:induction false} IndexesUnpack(bids: seq<OrderCell>, asks: seq<OrderCell>, orders: map<string, OrderCell>)
    requires Indexes(bids, asks, orders)
    ensures Indexed(bids, asks, orders)
    decreases |bids| + |asks|
  {
    if bids != [] {
      IndexesUnpack(bids[1..], asks, orders - {bids[0].id});
      ListedOnTop(bids, Buy, orders);
      ListedAround(asks, Sell, orders, bids[0]);
      forall id | id in orders
        ensures orders[id].id == id && (orders[id] in bids || orders[id] in asks)
      {
        assert id != bids[0].id ==> id in orders - {bids[0].id};
      }
    } else if asks != [] {
      IndexesUnpack(bids, asks[1..], orders - {asks[0].id});
      ListedOnTop(asks, Sell, orders);
      forall id | id in orders
        ensures orders[id].id == id && orders[id] in asks
      {
        assert id != asks[0].id ==> id in orders - {asks[0].id};
      }
    }
  }

  lemma ListedOnTop(cells: seq<OrderCell>, side: Side, orders: map<string, OrderCell>)
    requires cells != [] && cells[0].side == side && cells[0].id in orders && orders[cells[0].id] == cells[0]
    requires Listed(cells[1..], side, orders - {cells[0].id})
    ensures Listed(cells, side, orders)
  {
    assert forall c :: c in cells <==> c == cells[0] || c in cells[1..];
    forall i, j | 0 <= i < j < |cells|
      ensures cells[i].id != cells[j].id
    {
      assert cells[j] == cells[1..][j - 1] && cells[j] in cells[1..];
      if i > 0 { assert cells[i] == cells[1..][i - 1]; }
    }
  }

  lemma ListedAround(cells: seq<OrderCell>, side: Side, orders: map<string, OrderCell>, other: OrderCell)
    requires Listed(cells, side, orders - {other.id})
    ensures Listed(cells, side, orders)
  {
  }

  lemma {:induction false} IndexesPack(bids: seq<OrderCell>, asks: seq<OrderCell>, orders: map<string, OrderCell>)
    requires Indexed(bids, asks, orders)
    ensures Indexes(bids, asks, orders)
    decreases |bids| + |asks|
  {
    if bids != [] {
      IndexedWithoutBid(bids, asks, orders, 0);
      assert Without(bids, 0) == bids[1..] && bids[0] in bids;
      IndexesPack(bids[1..], asks, orders - {bids[0].id});
    } else if asks != [] {
      IndexedWithoutAsk(bids, asks, orders, 0);
      assert Without(asks, 0) == asks[1..] && asks[0] in asks;
      IndexesPack(bids, asks[1..], orders - {asks[0].id});
    } else {
      forall id
        ensures id !in orders
      {
      }
    }
  }

  lemma WithoutMember(cells: seq<OrderCell>, i: nat)
    requires UniqueCells(cells) && i < |cells|
    ensures UniqueCells(Without(cells, i))
    ensures forall c :: c in Without(cells, i) <==> c in cells && c != cells[i]
    ensures forall c :: c in Without(cells, i) ==> c.id != cells[i].id
  {
    var t := Without(cells, i);
    assert forall j :: 0 <= j < |t| ==> t[j] == cells[if j < i then j else j + 1];
    forall c | c in cells && c != cells[i]
      ensures c in t
    {
      var j :| 0 <= j < |cells| && cells[j] == c;
      assert t[if j < i then j else j - 1] == c;
    }
  }

  lemma IndexedWithoutBid(bids: seq<OrderCell>, asks: seq<OrderCell>, orders: map<string, OrderCell>, i: nat)
    requires Indexed(bids, asks, orders) && i < |bids|
    ensures Indexed(Without(bids, i), asks, orders - {bids[i].id})
  {
    WithoutMember(bids, i);
    assert bids[i] in bids;
  }

  lemma IndexedWithoutAsk(bids: seq<OrderCell>, asks: seq<OrderCell>, orders: map<string, OrderCell>, i: nat)
    requires Indexed(bids, asks, orders) && i < |asks|
    ensures Indexed(bids, Without(asks, i), orders - {asks[i].id})
  {
    WithoutMember(asks, i);
    assert asks[i] in asks;
  }

  lemma SplicedCells(cells: seq<OrderCell>, k: nat, o: OrderCell)
    requires k <= |cells|
    ensures forall c :: c in cells[..k] + [o] + cells[k..] <==> c in cells || c == o
    ensures UniqueCells(cells) && (forall c :: c in cells ==> c.id != o.id) ==>
        UniqueCells(cells[..k] + [o] + cells[k..])
  {
    var t := cells[..k] + [o] + cells[k..];
    assert forall j :: 0 <= j < |t| ==> t[j] == if j < k then cells[j] else if j == k then o else cells[j - 1];
    forall c | c in cells
      ensures c in t
    {
      var j :| 0 <= j < |cells| && cells[j] == c;
      assert t[if j < k then j else j + 1] == c;
    }
    if UniqueCells(cells) && (forall c :: c in cells ==> c.id != o.id) {
      forall i, j | 0 <= i < j < |t|
        ensures t[i].id != t[j].id
      {
        assert i != k ==> t[i] in cells;
        assert j != k ==> t[j] in cells;
      }
    }
  }

  lemma ListedWith(isBid: bool, cells: seq<OrderCell>, orders: map<string, OrderCell>, o: OrderCell)
    requires Listed(cells, o.side, orders) && o.id !in orders
    ensures Listed(InsertCell(isBid, cells, o), o.side, orders[o.id := o])
    ensures forall c :: c in InsertCell(isBid, cells, o) <==> c in cells || c == o
  {
    SplicedCells(cells, CellSlot(isBid, cells, o.price), o);
  }

  lemma IndexesWith(bids: seq<OrderCell>, asks: seq<OrderCell>, orders: map<string, OrderCell>, o: OrderCell)
    requires Indexes(bids, asks, orders) && o.id !in orders && o.side.Valid()
    ensures o.side == Buy ==> Indexes(InsertCell(true, bids, o), asks, orders[o.id := o])
    ensures o.side != Buy ==> Indexes(bids, InsertCell(false, asks, o), orders[o.id := o])
  {
    IndexesUnpack(bids, asks, orders);
    if o.side == Buy {
      ListedWith(true, bids, orders, o);
      IndexesPack(InsertCell(true, bids, o), asks, orders[o.id := o]);
    } else {
      ListedWith(false, asks, orders, o);
      IndexesPack(bids, InsertCell(false, asks, o), orders[o.id := o]);
    }
  }

  // An order stands on one side only, and the index finds it.
  lemma OnOneSide(own: seq<OrderCell>, other: seq<OrderCell>, orders: map<string, OrderCell>, c: OrderCell)
    requires (Indexes(own, other, orders) || Indexes(other, own, orders)) && c in own
    ensures c.id in orders && orders[c.id] == c && c !in other
  {
    if Indexes(own, other, orders) {
      IndexesUnpack(own, other, orders);
    } else {
      IndexesUnpack(other, own, orders);
    }
  }

  lemma WhereItRests(bids: seq<OrderCell>, asks: seq<OrderCell>, orders: map<string, OrderCell>, id: string)
    requires Indexes(bids, asks, orders) && id in orders
    ensures orders[id].id == id && orders[id] in if orders[id].side == Buy then bids else asks
  {
    IndexesUnpack(bids, asks, orders);
  }

  // A new order can change without changing any on the lists.
  lemma Unlisted(bids: seq<OrderCell>, asks: seq<OrderCell>, orders: map<string, OrderCell>, o: OrderCell)
    requires Indexes(bids, asks, orders) && o.id !in orders
    ensures o !in bids && o !in asks
  {
    IndexesUnpack(bids, asks, orders);
  }

  lemma IndexesWithout(own: seq<OrderCell>, other: seq<OrderCell>, orders: map<string, OrderCell>, at: nat, bid: bool)
    requires at < |own| && if bid then Indexes(own, other, orders) else Indexes(other, own, orders)
    ensures if bid then Indexes(Without(own, at), other, orders - {own[at].id})
            else Indexes(other, Without(own, at), orders - {own[at].id})
  {
    if bid {
      IndexesUnpack(own, other, orders);
      IndexedWithoutBid(own, other, orders, at);
      IndexesPack(Without(own, at), other, orders - {own[at].id});
    } else {
      IndexesUnpack(other, own, orders);
      IndexedWithoutAsk(other, own, orders, at);
      IndexesPack(other, Without(own, at), orders - {own[at].id});
    }
  }

  // An order is found exactly where it stands, and only on its own side.
  lemma FoundAt(own: seq<OrderCell>, other: seq<OrderCell>, orders: map<string, OrderCell>, at: nat, bid: bool)
    requires at < |own| && if bid then Indexes(own, other, orders) else Indexes(other, own, orders)
    ensures Find(Snaps(own), own[at].id) == at && Find(Snaps(other), own[at].id) == |other|
  {
    if bid { IndexesUnpack(own, other, orders); } else { IndexesUnpack(other, own, orders); }
    forall j | 0 <= j < |other|
      ensures Snaps(other)[j].id != own[at].id
    {
      assert other[j] in other && own[at] in own;
    }
    assert Snaps(own)[at].id == own[at].id;
    forall j | 0 <= j < at
      ensures Snaps(own)[j].id != own[at].id
    {
    }
  }

  lemma SnapsWithout(cells: seq<OrderCell>, at: nat)
    requires at < |cells|
    ensures Snaps(Without(cells, at)) == RemoveAt(Snaps(cells), at)
  {
  }

  lemma SnapsSplice(cells: seq<OrderCell>, k: nat, o: OrderCell)
    requires k <= |cells|
    ensures Snaps(cells[..k] + [o] + cells[k..]) == Snaps(cells)[..k] + [o.Snap()] + Snaps(cells)[k..]
  {
  }

  lemma InsertSplit(isBid: bool, flat: seq<Order>, k: nat, o: Order)
    requires k <= |flat| && forall j :: 0 <= j < k ==> !Before(isBid, o.price, flat[j].price)
    requires k < |flat| ==> Before(isBid, o.price, flat[k].price)
    ensures Insert(isBid, flat, o) == flat[..k] + [o] + flat[k..]
  {
    assert flat == flat[..k] + flat[k..];
    InsertBetween(isBid, flat[..k], o, flat[k..]);
  }

  // The cells' insertion is the orders' insertion.
  lemma SnapsInsert(isBid: bool, cells: seq<OrderCell>, o: OrderCell)
    ensures Snaps(InsertCell(isBid, cells, o)) == Insert(isBid, Snaps(cells), o.Snap())
  {
    SnapsSplice(cells, CellSlot(isBid, cells, o.price), o);
    InsertSplit(isBid, Snaps(cells), CellSlot(isBid, cells, o.price), o.Snap());
  }

  // ----- The footprint -----

  ghost function CellSet(cells: seq<OrderCell>): set<OrderCell> {
    if cells == [] then {} else {cells[0]} + CellSet(cells[1..])
  }

  lemma {:induction false} CellSetMembers(cells: seq<OrderCell>)
    ensures forall c :: c in CellSet(cells) <==> c in cells
  {
    if cells != [] {
      CellSetMembers(cells[1..]);
    }
  }

  lemma FoundIsListed(bids: seq<OrderCell>, asks: seq<OrderCell>, orders: map<string, OrderCell>, id: string)
    requires Indexes(bids, asks, orders) && id in orders
    ensures orders[id] in CellSet(bids) + CellSet(asks)
  {
    WhereItRests(bids, asks, orders, id);
    CellSetMembers(bids);
    CellSetMembers(asks);
  }

  lemma ListedIsFound(bids: seq<OrderCell>, asks: seq<OrderCell>, orders: map<string, OrderCell>, c: OrderCell)
    requires Indexes(bids, asks, orders) && c in CellSet(bids) + CellSet(asks)
    ensures c.id in orders && orders[c.id] == c
  {
    CellSetMembers(bids);
    CellSetMembers(asks);
    if c in bids { OnOneSide(bids, asks, orders, c); } else { OnOneSide(asks, bids, orders, c); }
  }

  // Orders found through a smaller index are among the orders of the larger one.
  lemma CellsWithin(bids: seq<OrderCell>, asks: seq<OrderCell>, orders: map<string, OrderCell>,
                    bids': seq<OrderCell>, asks': seq<OrderCell>, orders': map<string, OrderCell>, o: OrderCell)
    requires Indexes(bids, asks, orders) && Indexes(bids', asks', orders') && Submap(orders', orders[o.id := o])
    ensures CellSet(bids') + CellSet(asks') <= CellSet(bids) + CellSet(asks) + {o}
  {
    forall c | c in CellSet(bids') + CellSet(asks')
      ensures c in CellSet(bids) + CellSet(asks) + {o}
    {
      ListedIsFound(bids', asks', orders', c);
      if c != o { FoundIsListed(bids, asks, orders, c.id); }
    }
  }

  // ----- The match as a loop -----

  // One more hit on top of a match under way.
  function NextHit(symbol: string, tradeSeq: nat, m: Matched): Matched {
    if !CanFill(m.taker, m.rest) then m
    else
      var qty := FillQuantity(m.taker, m.rest[0]);
      var fill := Fill(TradeOf(symbol, tradeSeq, m.taker, m.rest[0], qty), MakerAfter(m.rest[0], qty));
      Matched(TakerAfter(m.taker, qty), AfterHit(m.rest, qty),
              m.fills + [fill], m.refund + Refund(m.taker, m.rest[0], qty))
  }

  // Where a match stands after n turns of the loop.
  function Hits(symbol: string, tradeSeq: nat, taker: Order, flat: seq<Order>, n: nat): Matched {
    if n == 0 then Matched(taker, flat, [], 0)
    else NextHit(symbol, tradeSeq + n, Hits(symbol, tradeSeq, taker, flat, n - 1))
  }

  function Prepended(before: Matched, m: Matched): Matched {
    m.(fills := before.fills + m.fills, refund := before.refund + m.refund)
  }

  // A hit takes its share of what is ahead.
  lemma MatchStep(symbol: string, tradeSeq: nat, whole: Matched, h: Matched, h': Matched)
    requires CanFill(h.taker, h.rest) && h' == NextHit(symbol, tradeSeq + 1, h)
    requires whole == Prepended(h, Match(symbol, tradeSeq, h.taker, h.rest))
    ensures whole == Prepended(h', Match(symbol, tradeSeq + 1, h'.taker, h'.rest))
  {
    var more := Match(symbol, tradeSeq, h.taker, h.rest).fills;
    assert h.fills + more == (h.fills + more[..1]) + more[1..];
  }

  lemma HitsNext(symbol: string, tradeSeq: nat, taker: Order, flat: seq<Order>, n: nat)
    ensures Hits(symbol, tradeSeq, taker, flat, n + 1)
         == NextHit(symbol, tradeSeq + n + 1, Hits(symbol, tradeSeq, taker, flat, n))
  {
  }

  lemma {:induction false} HitsAtMost(symbol: string, tradeSeq: nat, taker: Order, flat: seq<Order>, n: nat)
    ensures |Hits(symbol, tradeSeq, taker, flat, n).fills| <= n
  {
    if n > 0 { HitsAtMost(symbol, tradeSeq, taker, flat, n - 1); }
  }

  lemma HitsNeverIdled(symbol: string, tradeSeq: nat, taker: Order, flat: seq<Order>, n: nat)
    requires |Hits(symbol, tradeSeq, taker, flat, n + 1).fills| == n + 1
    ensures var h := Hits(symbol, tradeSeq, taker, flat, n); |h.fills| == n && CanFill(h.taker, h.rest)
  {
    HitsAtMost(symbol, tradeSeq, taker, flat, n);
  }

  lemma {:induction false} HitsAhead(symbol: string, tradeSeq: nat, taker: Order, flat: seq<Order>, n: nat)
    requires |Hits(symbol, tradeSeq, taker, flat, n).fills| == n
    ensures var h := Hits(symbol, tradeSeq, taker, flat, n);
      Match(symbol, tradeSeq, taker, flat) == Prepended(h, Match(symbol, tradeSeq + n, h.taker, h.rest))
  {
    if n == 0 {
      assert Hits(symbol, tradeSeq, taker, flat, 0) == Matched(taker, flat, [], 0);
    } else {
      HitsNeverIdled(symbol, tradeSeq, taker, flat, n - 1);
      HitsAhead(symbol, tradeSeq, taker, flat, n - 1);
      HitsNext(symbol, tradeSeq, taker, flat, n - 1);
      MatchStep(symbol, tradeSeq + n - 1, Match(symbol, tradeSeq, taker, flat),
                Hits(symbol, tradeSeq, taker, flat, n - 1), Hits(symbol, tradeSeq, taker, flat, n));
    }
  }

  // A loop that hits until it cannot has computed the recursive match.
  lemma HitsReachMatch(symbol: string, tradeSeq: nat, taker: Order, flat: seq<Order>, n: nat)
    requires var h := Hits(symbol, tradeSeq, taker, flat, n); |h.fills| == n && !CanFill(h.taker, h.rest)
    ensures Hits(symbol, tradeSeq, taker, flat, n) == Match(symbol, tradeSeq, taker, flat)
  {
    HitsAhead(symbol, tradeSeq, taker, flat, n);
  }

  lemma NextHitKeepsTradable(symbol: string, tradeSeq: nat, m: Matched)
    requires Tradable(m.rest) && CanFill(m.taker, m.rest)
    ensures var m' := NextHit(symbol, tradeSeq, m);
      Tradable(m'.rest) && m.taker.filled < m'.taker.filled <= m.taker.quantity == m'.taker.quantity
      && |m'.fills| == |m.fills| + 1
  {
  }

  class OrderBook {
    const symbol: string
    const bids: BookSide
    const asks: BookSide
    var orders: map<string, OrderCell>
    var orderSeq: nat
    var tradeSeq: nat

    ghost predicate Shaped()
      reads this, bids, asks, bids.owned, asks.owned
    {
      && bids != asks && bids.isBid && !asks.isBid
      && bids.Valid() && asks.Valid()
      && Indexes(bids.flat, asks.flat, orders)
    }

    ghost function View(): Book
      reads this, bids, asks, bids.flat, asks.flat
    {
      Book(symbol, Snaps(bids.flat), Snaps(asks.flat), orderSeq, tradeSeq)
    }

    // The orders on the book.
    ghost function Cells(): set<OrderCell>
      reads this, bids, asks
    {
      CellSet(bids.flat) + CellSet(asks.flat)
    }

    // View() == b, part by part.
    ghost predicate Shows(b: Book)
      reads this, bids, asks, bids.flat, asks.flat
    {
      && symbol == b.symbol && orderSeq == b.orderSeq && tradeSeq == b.tradeSeq
      && Snaps(bids.flat) == b.bids && Snaps(asks.flat) == b.asks
    }

    ghost predicate Valid()
      reads this, bids, asks, bids.owned, asks.owned, bids.flat, asks.flat
    {
      Shaped() && BookInv(View())
    }

    constructor (symbol: string)
      ensures Valid() && View() == EmptyBook(symbol) && orders == map[]
    {
      this.symbol := symbol;
      var b := new BookSide(true);
      var a := new BookSide(false);
      bids, asks := b, a;
      orders, orderSeq, tradeSeq := map[], 0, 0;
    }

    ghost predicate Opposed(opposite: BookSide, own: BookSide) {
      (opposite == bids && own == asks) || (opposite == asks && own == bids)
    }

    // The maker at the front of the best level is used up: it leaves the side and
    // the index.
    method Retire(opposite: BookSide, lvl: PriceLevel, maker: OrderCell)
      requires Shaped() && (opposite == bids || opposite == asks)
      requires opposite.prices != [] && lvl == opposite.levels[opposite.prices[0]]
      requires opposite.flat != [] && maker == opposite.flat[0]
      modifies this`orders, opposite, lvl
      ensures Shaped() && Submap(orders, old(orders))
      ensures opposite.owned == old(opposite.owned)
      ensures opposite.flat == old(opposite.flat)[1..]
    {
      ghost var other := if opposite == bids then asks else bids;
      opposite.BestIsFirst();
      RetireIndex(opposite == bids, maker);
      opposite.PopFront(lvl);
      orders := orders - {maker.id};
      assert other.Valid();
    }

    method RetireIfDone(opposite: BookSide, lvl: PriceLevel, maker: OrderCell, ghost own: BookSide)
      requires Shaped() && Opposed(opposite, own)
      requires opposite.prices != [] && lvl == opposite.levels[opposite.prices[0]]
      requires opposite.flat != [] && maker == opposite.flat[0]
      modifies this`orders, opposite, lvl
      ensures Shaped() && Submap(orders, old(orders))
      ensures opposite.owned == old(opposite.owned)
      ensures opposite.flat == if maker.Remaining() == 0 then old(opposite.flat)[1..] else old(opposite.flat)
      ensures Snaps(opposite.flat)
           == if maker.Remaining() == 0 then old(Snaps(opposite.flat))[1..] else old(Snaps(opposite.flat))
      ensures own.flat == old(own.flat) && own.owned == old(own.owned) && Snaps(own.flat) == old(Snaps(own.flat))
      ensures orderSeq == old(orderSeq)
    {
      ghost var cells, snaps := opposite.flat, Snaps(opposite.flat);
      if maker.Remaining() == 0 {
        Retire(opposite, lvl, maker);
        assert Snaps(cells[1..]) == snaps[1..];
      }
    }

    // Which front order leaves the lists is which entry leaves the index.
    lemma RetireIndex(bid: bool, maker: OrderCell)
      requires Shaped()
      requires bid ==> bids.flat != [] && maker == bids.flat[0]
      requires !bid ==> asks.flat != [] && maker == asks.flat[0]
      ensures bid ==> Indexes(bids.flat[1..], asks.flat, orders - {maker.id})
      ensures !bid ==> Indexes(bids.flat, asks.flat[1..], orders - {maker.id})
    {
      if !bid {
        IndexesUnpack(bids.flat, asks.flat, orders);
        IndexedWithoutAsk(bids.flat, asks.flat, orders, 0);
        assert Without(asks.flat, 0) == asks.flat[1..];
        IndexesPack(bids.flat, asks.flat[1..], orders - {maker.id});
      }
    }

    // The trade between a taker and the maker whose price it gets, and what a BUY
    // taker locked above that price.
    method NewTrade(o: OrderCell, maker: OrderCell, qty: int) returns (trade: Trade, refund: int)
      ensures trade == TradeOf(symbol, tradeSeq, o.Snap(), maker.Snap(), qty)
      ensures refund == Refund(o.Snap(), maker.Snap(), qty)
      ensures Names(trade, o.Snap(), maker.Snap()) && trade.price == maker.price && trade.quantity == qty
      ensures trade.symbol == symbol && trade.sequence == tradeSeq && trade.id == EventIds.Join(symbol, tradeSeq)
      ensures refund == if o.side == Buy then o.price * qty - trade.Notional() else 0
    {
      var execPrice := maker.price;
      if o.side == Buy {
        trade := Trade(EventIds.Join(symbol, tradeSeq), symbol, execPrice, qty,
                       o.id, maker.id, o.userId, maker.userId, tradeSeq);
        refund := (o.price - execPrice) * qty;
      } else {
        trade := Trade(EventIds.Join(symbol, tradeSeq), symbol, execPrice, qty,
                       maker.id, o.id, maker.userId, o.userId, tradeSeq);
        refund := 0;
      }
    }

    // Both orders progress; nothing else on the book does.
    method ExchangeFront(o: OrderCell, maker: OrderCell, opposite: BookSide, ghost own: BookSide, qty: int)
      requires Shaped() && o.id !in orders && Opposed(opposite, own)
      requires opposite.flat != [] && maker == opposite.flat[0]
      modifies maker, o
      ensures Shaped()
      ensures o.Snap() == TakerAfter(old(o.Snap()), qty) && maker.Snap() == MakerAfter(old(maker.Snap()), qty)
      ensures Snaps(opposite.flat) == [MakerAfter(old(maker.Snap()), qty)] + old(Snaps(opposite.flat))[1..]
      ensures Snaps(own.flat) == old(Snaps(own.flat))
    {
      ghost var before := Snaps(opposite.flat);
      FrontIsApart(opposite, own, o);
      Exchange(o, maker, qty);
      OnlyFrontChanged(opposite.flat, before);
    }

    // The taker trades with the first order of a side, which stays in place.
    method HitFront(o: OrderCell, maker: OrderCell, opposite: BookSide, ghost own: BookSide,
                    ghost taker: Order, ghost flat: seq<Order>)
      returns (fill: Fill, refund: int)
      requires Shaped() && o.id !in orders && Opposed(opposite, own)
      requires opposite.flat != [] && maker == opposite.flat[0]
      requires o.Snap() == taker && Snaps(opposite.flat) == flat
      modifies this`tradeSeq, maker, o
      ensures Shaped() && tradeSeq == old(tradeSeq) + 1
      ensures var qty := FillQuantity(taker, flat[0]);
        && o.Snap() == TakerAfter(taker, qty)
        && Snaps(opposite.flat) == [MakerAfter(flat[0], qty)] + flat[1..]
        && fill == Fill(TradeOf(symbol, tradeSeq, taker, flat[0], qty), MakerAfter(flat[0], qty))
        && refund == Refund(taker, flat[0], qty)
      ensures own.flat == old(own.flat) && own.owned == old(own.owned) && Snaps(own.flat) == old(Snaps(own.flat))
      ensures orderSeq == old(orderSeq)
    {
      ghost var others := Snaps(own.flat);
      var qty := Min(o.Remaining(), maker.Remaining());
      var trade;
      trade, refund := NumberTrade(o, maker, opposite, own, qty, taker, flat, others);
      ExchangeFront(o, maker, opposite, own, qty);
      fill := Fill(trade, maker.Snap());
    }

    // The trade is made out under the next number.
    method NumberTrade(o: OrderCell, maker: OrderCell, opposite: BookSide, ghost own: BookSide, qty: int,
                       ghost taker: Order, ghost flat: seq<Order>, ghost others: seq<Order>)
      returns (trade: Trade, refund: int)
      requires Shaped() && opposite.flat != [] && maker == opposite.flat[0]
      requires o.Snap() == taker && Snaps(opposite.flat) == flat && Snaps(own.flat) == others
      modifies this`tradeSeq
      ensures Shaped() && tradeSeq == old(tradeSeq) + 1 && orderSeq == old(orderSeq) && orders == old(orders)
      ensures o.Snap() == taker && maker.Snap() == flat[0]
      ensures Snaps(opposite.flat) == flat && Snaps(own.flat) == others
      ensures opposite.flat == old(opposite.flat) && own.flat == old(own.flat) && own.owned == old(own.owned)
      ensures trade == TradeOf(symbol, tradeSeq, taker, flat[0], qty) && refund == Refund(taker, flat[0], qty)
    {
      tradeSeq := tradeSeq + 1;
      trade, refund := NewTrade(o, maker, qty);
    }

    // The taker trades with the first order of the best opposite level, which
    // leaves if that uses it up.
    method HitBest(o: OrderCell, opposite: BookSide, ghost own: BookSide) returns (fill: Fill, refund: int)
      requires Shaped() && o.id !in orders && Opposed(opposite, own) && opposite.flat != []
      modifies this`orders, this`tradeSeq, opposite, opposite.owned, opposite.flat[0], o
      ensures Shaped() && o.id !in orders && Submap(orders, old(orders))
      ensures opposite.owned == old(opposite.owned)
      ensures opposite.flat == old(opposite.flat) || opposite.flat == old(opposite.flat)[1..]
      ensures tradeSeq == old(tradeSeq) + 1
      ensures var taker, flat := old(o.Snap()), old(Snaps(opposite.flat));
        var qty := FillQuantity(taker, flat[0]);
        && o.Snap() == TakerAfter(taker, qty)
        && Snaps(opposite.flat) == AfterHit(flat, qty)
        && fill == Fill(TradeOf(symbol, tradeSeq, taker, flat[0], qty), MakerAfter(flat[0], qty))
        && refund == Refund(taker, flat[0], qty)
      ensures own.flat == old(own.flat) && own.owned == old(own.owned) && Snaps(own.flat) == old(Snaps(own.flat))
      ensures orderSeq == old(orderSeq)
    {
      opposite.BestIsFirst();
      var lvl := opposite.levels[opposite.prices[0]];
      var maker := lvl.queue[0];
      ghost var before, qty := Snaps(opposite.flat), FillQuantity(o.Snap(), maker.Snap());
      fill, refund := HitFront(o, maker, opposite, own, o.Snap(), before);
      AfterHitCases(before, Snaps(opposite.flat), qty);
      RetireIfDone(opposite, lvl, maker, own);
    }

    // One turn of the matching loop.
    method Hit(o: OrderCell, opposite: BookSide, ghost own: BookSide, fills: seq<Fill>, refund: int,
               ghost h: Matched, ghost h': Matched)
      returns (fills': seq<Fill>, refund': int)
      requires Shaped() && o.id !in orders && Opposed(opposite, own)
      requires h == Matched(o.Snap(), Snaps(opposite.flat), fills, refund) && CanFill(h.taker, h.rest)
      requires h' == NextHit(symbol, tradeSeq + 1, h)
      modifies this`orders, this`tradeSeq, opposite, opposite.owned, opposite.flat[0], o
      ensures Shaped() && o.id !in orders && Submap(orders, old(orders))
      ensures opposite.owned == old(opposite.owned)
      ensures opposite.flat == old(opposite.flat) || opposite.flat == old(opposite.flat)[1..]
      ensures tradeSeq == old(tradeSeq) + 1
      ensures Matched(o.Snap(), Snaps(opposite.flat), fills', refund') == h'
      ensures own.flat == old(own.flat) && own.owned == old(own.owned) && Snaps(own.flat) == old(Snaps(own.flat))
      ensures orderSeq == old(orderSeq)
    {
      var fill, gap := HitBest(o, opposite, own);
      fills', refund' := fills + [fill], refund + gap;
    }

    static lemma AfterHitCases(before: seq<Order>, after: seq<Order>, qty: int)
      requires before != [] && after == [MakerAfter(before[0], qty)] + before[1..]
      ensures AfterHit(before, qty) == if after[0].Remaining() == 0 then after[1..] else after
    {
    }

    // Both orders progress by the traded quantity; the maker's status follows.
    method Exchange(o: OrderCell, maker: OrderCell, qty: int)
      requires o != maker
      modifies o, maker
      ensures o.Snap() == TakerAfter(old(o.Snap()), qty)
      ensures maker.Snap() == MakerAfter(old(maker.Snap()), qty)
      ensures o.filled == old(o.filled) + qty && maker.filled == old(maker.filled) + qty && o.status == old(o.status)
      ensures maker.status == Filled <==> maker.filled == maker.quantity
      ensures maker.status == PartiallyFilled <==> maker.filled != maker.quantity
    {
      maker.filled := maker.filled + qty;
      o.filled := o.filled + qty;
      maker.status := if maker.Remaining() == 0 then Filled else PartiallyFilled;
    }

    lemma OnlyFrontChanged(cells: seq<OrderCell>, before: seq<Order>)
      requires cells != [] && |cells| == |before|
      requires forall i :: 1 <= i < |cells| ==> cells[i].Snap() == before[i]
      ensures Snaps(cells) == [cells[0].Snap()] + before[1..]
    {
    }

    lemma FrontIsApart(opposite: BookSide, own: BookSide, o: OrderCell)
      requires Shaped() && Opposed(opposite, own) && opposite.flat != [] && o.id !in orders
      ensures var cells := opposite.flat;
        && cells[0] != o && cells[0] !in own.flat && o !in own.flat
        && forall i :: 1 <= i < |cells| ==> cells[i] != cells[0] && cells[i] != o
    {
      var cells := opposite.flat;
      IndexesUnpack(bids.flat, asks.flat, orders);
      assert cells[0] in cells;
      forall i | 1 <= i < |cells|
        ensures cells[i] != cells[0] && cells[i] != o
      {
        assert cells[i].id != cells[0].id && cells[i] in cells;
      }
    }

    // The same turn as a step of the match under way since the taker came in.
    method Turn(o: OrderCell, opposite: BookSide, ghost own: BookSide, fills: seq<Fill>, refund: int,
                ghost t0: nat, ghost taker: Order, ghost flat: seq<Order>)
      returns (fills': seq<Fill>, refund': int)
      requires Shaped() && o.id !in orders && Opposed(opposite, own) && opposite.flat != []
      requires Tradable(Snaps(opposite.flat)) && CanFill(o.Snap(), Snaps(opposite.flat))
      requires tradeSeq == t0 + |fills|
      requires Hits(symbol, t0, taker, flat, |fills|) == Matched(o.Snap(), Snaps(opposite.flat), fills, refund)
      modifies this`orders, this`tradeSeq, opposite, opposite.owned, opposite.flat[0], o
      ensures Shaped() && o.id !in orders && Submap(orders, old(orders))
      ensures opposite.owned == old(opposite.owned)
      ensures opposite.flat == old(opposite.flat) || opposite.flat == old(opposite.flat)[1..]
      ensures Tradable(Snaps(opposite.flat)) && old(o.filled) < o.filled <= o.quantity
      ensures tradeSeq == t0 + |fills'|
      ensures Hits(symbol, t0, taker, flat, |fills'|) == Matched(o.Snap(), Snaps(opposite.flat), fills', refund')
      ensures own.flat == old(own.flat) && own.owned == old(own.owned) && Snaps(own.flat) == old(Snaps(own.flat))
      ensures orderSeq == old(orderSeq)
    {
      ghost var h, n := Matched(o.Snap(), Snaps(opposite.flat), fills, refund), |fills|;
      ghost var h' := Hits(symbol, t0, taker, flat, n + 1);
      HitsNext(symbol, t0, taker, flat, n);
      NextHitKeepsTradable(symbol, t0 + n + 1, h);
      fills', refund' := Hit(o, opposite, own, fills, refund, h, h');
    }

    // The matching loop: as long as the taker wants more and the best opposite
    // price crosses its limit.
    method MatchAgainst(o: OrderCell, opposite: BookSide, ghost own: BookSide) returns (fills: seq<Fill>, refund: int)
      requires Shaped() && o.id !in orders && Opposed(opposite, own)
      requires Tradable(Snaps(opposite.flat)) && o.filled <= o.quantity
      modifies this`orders, this`tradeSeq, opposite, opposite.owned, opposite.flat, o
      ensures Shaped() && o.id !in orders && Submap(orders, old(orders))
      ensures opposite.owned == old(opposite.owned)
      ensures tradeSeq == old(tradeSeq) + |fills|
      ensures Matched(o.Snap(), Snaps(opposite.flat), fills, refund)
           == Match(symbol, old(tradeSeq), old(o.Snap()), old(Snaps(opposite.flat)))
      ensures own.flat == old(own.flat) && own.owned == old(own.owned) && Snaps(own.flat) == old(Snaps(own.flat))
      ensures orderSeq == old(orderSeq)
    {
      fills, refund := [], 0;
      ghost var cells, owned, k := opposite.flat, opposite.owned, 0;
      ghost var t0, taker0, snaps0 := tradeSeq, o.Snap(), Snaps(opposite.flat);
      while o.Remaining() > 0
        invariant Shaped() && o.id !in orders && Submap(orders, old(orders))
        invariant own.flat == old(own.flat) && own.owned == old(own.owned) && Snaps(own.flat) == old(Snaps(own.flat))
        invariant orderSeq == old(orderSeq)
        invariant opposite.owned == owned && k <= |cells| && opposite.flat == cells[k..]
        invariant Tradable(Snaps(opposite.flat)) && o.filled <= o.quantity
        invariant Hits(symbol, t0, taker0, snaps0, |fills|) == Matched(o.Snap(), Snaps(opposite.flat), fills, refund)
        invariant tradeSeq == t0 + |fills|
        decreases o.Remaining()
      {
        opposite.BestIsFirst();
        var best := opposite.Best();
        if best.None? || !Crosses(o.side, o.price, best.value) {
          break;
        }
        ghost var flat := opposite.flat;
        fills, refund := Turn(o, opposite, own, fills, refund, t0, taker0, snaps0);
        k := if opposite.flat == flat then k else k + 1;
      }
      HitsReachMatch(symbol, t0, taker0, snaps0, |fills|);
    }

    // Matches an order that b has just accepted against the other side.
    method MatchTaker(o: OrderCell, ghost b: Book)
      returns (fills: seq<Fill>, refund: int, ghost m: Matched, ghost b': Book)
      requires Shaped() && o.id !in orders && o.filled <= o.quantity && Shows(b.(orderSeq := b.orderSeq + 1))
      requires Tradable(b.bids) && Tradable(b.asks)
      modifies this`orders, this`tradeSeq, bids, asks, bids.owned, asks.owned, bids.flat, asks.flat, o
      ensures Shaped() && o.id !in orders && Submap(orders, old(orders))
      ensures bids.owned == old(bids.owned) && asks.owned == old(asks.owned)
      ensures m == Match(symbol, b.tradeSeq, old(o.Snap()), b.Opposite(o.side))
      ensures o.Snap() == m.taker && fills == m.fills && refund == m.refund
      ensures Shows(b') && b' == AfterMatch(b, o.side, m)
    {
      m := Match(symbol, tradeSeq, o.Snap(), b.Opposite(o.side));
      b' := AfterMatch(b, o.side, m);
      var opposite := if o.side == Sell then bids else asks;
      fills, refund := MatchAgainst(o, opposite, if o.side == Sell then asks else bids);
    }

    // Numbers the order and opens it.
    method Accept(o: OrderCell, ghost b: Book, ghost taker: Order)
      requires Shaped() && o.id !in orders && Shows(b) && o.Snap() == taker
      modifies this`orderSeq, o
      ensures Shaped() && o.Snap() == Accepted(b, taker) && Shows(b.(orderSeq := b.orderSeq + 1))
    {
      Unlisted(bids.flat, asks.flat, orders, o);
      orderSeq := orderSeq + 1;
      o.sequence, o.status := orderSeq, Open;
    }

    // The order's status once matching is over.
    method Conclude(o: OrderCell, ghost b: Book, ghost taker: Order)
      requires Shaped() && o.id !in orders && Shows(b) && o.Snap() == taker
      modifies o
      ensures Shaped() && o.Snap() == Outcome(taker) && Shows(b)
    {
      Unlisted(bids.flat, asks.flat, orders, o);
      o.status := if o.Remaining() == 0 then Filled else if o.filled > 0 then PartiallyFilled else Open;
    }

    // Everything up to resting the remainder.
    method Execute(o: OrderCell, ghost b: Book, ghost taker: Order)
      returns (fills: seq<Fill>, refund: int, ghost m: Matched, ghost b': Book)
      requires Shaped() && o.id !in orders && Shows(b) && o.Snap() == taker
      requires Tradable(b.bids) && Tradable(b.asks) && taker.filled <= taker.quantity
      modifies this, bids, asks, bids.owned, asks.owned, bids.flat, asks.flat, o
      ensures Shaped() && o.id !in orders && Submap(orders, old(orders))
      ensures bids.owned == old(bids.owned) && asks.owned == old(asks.owned)
      ensures m == Match(b.symbol, b.tradeSeq, Accepted(b, taker), b.Opposite(taker.side))
      ensures o.Snap() == Outcome(m.taker) && fills == m.fills && refund == m.refund
      ensures Shows(b') && b' == AfterMatch(b, taker.side, m)
    {
      Accept(o, b, taker);
      fills, refund, m, b' := MatchTaker(o, b);
      Conclude(o, b', m.taker);
    }

    // Queues an order on its own side, which leaves the other side alone.
    method AddBeside(o: OrderCell, own: BookSide, ghost other: BookSide,
                     ghost owns: seq<Order>, ghost others: seq<Order>, ghost snap: Order)
      requires bids != asks && bids.Valid() && asks.Valid()
      requires Opposed(other, own)
      requires owns == Snaps(own.flat) && others == Snaps(other.flat) && snap == o.Snap()
      modifies own, own.owned
      ensures own.Valid() && other.Valid() && other.owned == old(other.owned)
      ensures forall l :: l in own.owned && l !in old(own.owned) ==> fresh(l)
      ensures own.flat == InsertCell(own.isBid, old(own.flat), o) && other.flat == old(other.flat)
      ensures Snaps(own.flat) == Insert(own.isBid, owns, snap) && Snaps(other.flat) == others && o.Snap() == snap
    {
      ghost var cells := own.flat;
      own.Add(o);
      assert Snaps(cells) == owns && o.Snap() == snap;
      SnapsInsert(own.isBid, cells, o);
    }

    // Makes an order findable and queues it.
    method Rest(o: OrderCell, ghost b: Book, ghost snap: Order)
      requires Shaped() && o.id !in orders && o.side.Valid() && Shows(b) && o.Snap() == snap
      modifies this`orders, bids, asks, bids.owned, asks.owned
      ensures Shaped() && Shows(FlatBook.Rest(b, snap)) && o.Snap() == snap && orders == old(orders)[o.id := o]
      ensures forall l :: l in bids.owned + asks.owned && l !in old(bids.owned + asks.owned) ==> fresh(l)
    {
      IndexesWith(bids.flat, asks.flat, orders, o);
      orders := orders[o.id := o];
      assert o.Snap() == snap && Snaps(bids.flat) == b.bids && Snaps(asks.flat) == b.asks;
      if o.side == Buy {
        AddBeside(o, bids, asks, b.bids, b.asks, snap);
      } else {
        AddBeside(o, asks, bids, b.asks, b.bids, snap);
      }
    }

    method RestIfLeft(o: OrderCell, ghost b: Book, ghost snap: Order) returns (ghost b': Book)
      requires Shaped() && o.id !in orders && o.side.Valid() && Shows(b) && o.Snap() == snap
      modifies this`orders, bids, asks, bids.owned, asks.owned
      ensures Shaped() && o.Snap() == snap && Submap(orders, old(orders)[o.id := o])
      ensures Shows(b') && b' == if snap.Remaining() == 0 then b else FlatBook.Rest(b, snap)
      ensures forall l :: l in bids.owned + asks.owned && l !in old(bids.owned + asks.owned) ==> fresh(l)
    {
      b' := b;
      if o.Remaining() != 0 {
        b' := FlatBook.Rest(b, snap);
        Rest(o, b, snap);
      }
    }

    // Place, on the book b that the caller sees.
    method PlaceOn(o: OrderCell, ghost b: Book, ghost taker: Order)
      returns (fills: seq<Fill>, refund: int, ghost p: Placed)
      requires Shaped() && o.id !in orders && Shows(b) && o.Snap() == taker && o.side.Valid()
      requires Tradable(b.bids) && Tradable(b.asks) && taker.filled <= taker.quantity
      modifies this, bids, asks, bids.owned, asks.owned, bids.flat, asks.flat, o
      ensures Shaped() && Submap(orders, old(orders)[o.id := o]) && Shows(p.book) && p == FlatBook.Place(b, taker)
      ensures o.Snap() == p.taker && fills == p.fills && refund == p.release
      ensures forall l :: l in bids.owned + asks.owned && l !in old(bids.owned + asks.owned) ==> fresh(l)
    {
      ghost var m, b', index0, index1;
      index0 := orders;
      fills, refund, m, b' := Execute(o, b, taker);
      index1 := orders;
      b' := RestIfLeft(o, b', Outcome(m.taker));
      SubmapPut(orders, index1, index0, o);
      p := Placed(b', Outcome(m.taker), m.fills, m.refund);
    }

    // Matches an incoming order and rests any remainder: exactly what the simple
    // book does.
    method Place(o: OrderCell) returns (res: PlaceResult)
      requires Valid() && Placeable(View(), o.Snap())
      modifies this, bids, asks, bids.owned, asks.owned, Cells(), o
      ensures Valid() && Cells() <= old(Cells()) + {o}
      ensures var p := FlatBook.Place(old(View()), old(o.Snap()));
        && View() == p.book && res.taker == o && o.Snap() == p.taker
        && res.fills == p.fills && res.takerReleaseCOP == p.release
      ensures forall l :: l in bids.owned + asks.owned && l !in old(bids.owned + asks.owned) ==> fresh(l)
    {
      ghost var b, taker := View(), o.Snap();
      ghost var bs, as_, index := bids.flat, asks.flat, orders;
      assert o.id !in orders by { NotIndexed(o.id); }
      assert Tradable(b.bids) by { RestingIsTradable(b.bids, true, b.orderSeq); }
      assert Tradable(b.asks) by { RestingIsTradable(b.asks, false, b.orderSeq); }
      CellSetMembers(bids.flat);
      CellSetMembers(asks.flat);
      var fills, refund;
      ghost var p;
      fills, refund, p := PlaceOn(o, b, taker);
      res := PlaceResult(o, fills, refund);
      PlaceKeepsBookInv(b, taker);
      CellsWithin(bs, as_, index, bids.flat, asks.flat, orders, o);
    }

    lemma NotIndexed(id: string)
      requires Shaped()
      ensures NoId(View().bids, id) && NoId(View().asks, id) <==> id !in orders
    {
      IndexesUnpack(bids.flat, asks.flat, orders);
      if id in orders {
        var c := orders[id];
        if c in bids.flat {
          var i :| 0 <= i < |bids.flat| && bids.flat[i] == c;
          assert View().bids[i].id == id;
        } else {
          var i :| 0 <= i < |asks.flat| && asks.flat[i] == c;
          assert View().asks[i].id == id;
        }
      } else {
        forall i | 0 <= i < |bids.flat| ensures View().bids[i].id != id { assert bids.flat[i] in bids.flat; }
        forall i | 0 <= i < |asks.flat| ensures View().asks[i].id != id { assert asks.flat[i] in asks.flat; }
      }
    }

    static lemma RestingIsTradable(s: seq<Order>, isBid: bool, orderSeq: int)
      requires AllResting(isBid, s, orderSeq)
      ensures Tradable(s)
    {
    }

    // Entry k is the only one with o's ID; it leaves its side, and the other side
    // is left alone.
    method RemoveBeside(o: OrderCell, own: BookSide, ghost other: BookSide, ghost k: nat,
                        ghost owns: seq<Order>, ghost others: seq<Order>, ghost snap: Order)
      requires bids != asks && bids.Valid() && asks.Valid() && Opposed(other, own)
      requires k < |own.flat| && own.flat[k] == o
      requires forall i :: 0 <= i < |own.flat| && own.flat[i].id == o.id ==> i == k
      requires Snaps(own.flat) == owns && Snaps(other.flat) == others && o.Snap() == snap
      modifies own, own.owned
      ensures own.Valid() && other.Valid() && own.owned == old(own.owned) && other.owned == old(other.owned)
      ensures own.flat == Without(old(own.flat), k) && other.flat == old(other.flat)
      ensures k < |owns| && Snaps(own.flat) == RemoveAt(owns, k) && Snaps(other.flat) == others && o.Snap() == snap
      ensures orders == old(orders) && orderSeq == old(orderSeq) && tradeSeq == old(tradeSeq)
    {
      ghost var cells := own.flat;
      SnapsWithout(cells, k);
      var ok;
      ghost var at;
      ok, at := own.Remove(o);
      assert ok;
    }

    static ghost function Removed(b: Book, bid: bool, k: nat): Book
      requires k < if bid then |b.bids| else |b.asks|
    {
      if bid then b.(bids := RemoveAt(b.bids, k)) else b.(asks := RemoveAt(b.asks, k))
    }

    static lemma CancelFinds(b: Book, k: nat, o: Order)
      requires o.side == Buy ==> k < |b.bids| && b.bids[k] == o && Find(b.bids, o.id) == k
      requires o.side != Buy ==>
          k < |b.asks| && b.asks[k] == o && Find(b.asks, o.id) == k && Find(b.bids, o.id) == |b.bids|
      ensures FlatBook.Cancel(b, o.id) == Some(CancelOf(Removed(b, o.side == Buy, k), o))
    {
    }

    // Where a resting order is found from the outside.
    lemma Located(o: OrderCell, own: BookSide, other: BookSide, b: Book) returns (k: nat)
      requires Shaped() && Shows(b) && Opposed(other, own) && o in own.flat
      ensures k < |own.flat| && own.flat[k] == o && (o.side == Buy) == (own == bids)
      ensures forall i :: 0 <= i < |own.flat| && own.flat[i].id == o.id ==> i == k
      ensures own == bids ==> b.bids[k] == o.Snap() && Find(b.bids, o.id) == k
      ensures own == asks ==> b.asks[k] == o.Snap() && Find(b.asks, o.id) == k && Find(b.bids, o.id) == |b.bids|
    {
      k :| 0 <= k < |own.flat| && own.flat[k] == o;
      FoundAt(own.flat, other.flat, orders, k, own == bids);
      IndexesUnpack(bids.flat, asks.flat, orders);
    }

    // Taking an order off its queue and out of the index.
    method Unlist(o: OrderCell, own: BookSide, ghost other: BookSide, ghost k: nat,
                  ghost owns: seq<Order>, ghost others: seq<Order>, ghost snap: Order)
      requires Shaped() && Opposed(other, own)
      requires k < |own.flat| && own.flat[k] == o
      requires forall i :: 0 <= i < |own.flat| && own.flat[i].id == o.id ==> i == k
      requires Snaps(own.flat) == owns && Snaps(other.flat) == others && o.Snap() == snap
      modifies this`orders, own, own.owned
      ensures Shaped() && o.id !in orders && Submap(orders, old(orders))
      ensures own.owned == old(own.owned) && other.owned == old(other.owned)
      ensures k < |owns| && Snaps(own.flat) == RemoveAt(owns, k) && Snaps(other.flat) == others && o.Snap() == snap
      ensures orderSeq == old(orderSeq) && tradeSeq == old(tradeSeq)
    {
      IndexesWithout(own.flat, other.flat, orders, k, own == bids);
      RemoveBeside(o, own, other, k, owns, others, snap);
      orders := orders - {o.id};
    }

    method Withdraw(o: OrderCell, own: BookSide, ghost other: BookSide, ghost b: Book, ghost snap: Order)
      returns (ghost b': Book)
      requires Shaped() && Shows(b) && Opposed(other, own) && o in own.flat && o.Snap() == snap
      modifies this`orders, own, own.owned
      ensures Shaped() && Shows(b') && o.id !in orders && o.Snap() == snap && Submap(orders, old(orders))
      ensures own.owned == old(own.owned) && other.owned == old(other.owned)
      ensures FlatBook.Cancel(b, o.id) == Some(CancelOf(b', snap))
    {
      ghost var k := Located(o, own, other, b);
      CancelFinds(b, k, snap);
      b' := Removed(b, own == bids, k);
      Unlist(o, own, other, k, Snaps(own.flat), Snaps(other.flat), snap);
    }

    // Either side.
    method WithdrawAny(o: OrderCell, ghost b: Book, ghost snap: Order) returns (ghost b': Book)
      requires Shaped() && Shows(b) && o.id in orders && orders[o.id] == o && o.Snap() == snap
      modifies this`orders, bids, asks, bids.owned, asks.owned, o
      ensures Shaped() && Shows(b') && o.Snap() == AsCancelled(snap) && Submap(orders, old(orders))
      ensures bids.owned == old(bids.owned) && asks.owned == old(asks.owned)
      ensures FlatBook.Cancel(b, o.id) == Some(CancelOf(b', snap))
    {
      WhereItRests(bids.flat, asks.flat, orders, o.id);
      if o.side == Buy {
        b' := Withdraw(o, bids, asks, b, snap);
      } else {
        b' := Withdraw(o, asks, bids, b, snap);
      }
      MarkCancelled(o, b', snap);
    }

    method MarkCancelled(o: OrderCell, ghost b: Book, ghost snap: Order)
      requires Shaped() && o.id !in orders && Shows(b) && o.Snap() == snap
      modifies o
      ensures Shaped() && o.Snap() == AsCancelled(snap) && Shows(b)
    {
      Unlisted(bids.flat, asks.flat, orders, o);
      o.status := Cancelled;
    }

    // A resting order is withdrawn, and the amounts to release are read off it.
    method CancelFound(o: OrderCell, ghost b: Book, ghost snap: Order) returns (res: CancelResult, ghost b': Book)
      requires Shaped() && Shows(b) && o.id in orders && orders[o.id] == o && o.Snap() == snap
      modifies this, bids, asks, bids.owned, asks.owned, o
      ensures Shaped() && Submap(orders, old(orders)) && Shows(b') && res.order == o && o.Snap() == AsCancelled(snap)
      ensures bids.owned == old(bids.owned) && asks.owned == old(asks.owned)
      ensures var c := CancelOf(b', snap); res.releaseCOP == c.releaseCOP && res.releaseVibranium == c.releaseVibranium
      ensures FlatBook.Cancel(b, o.id) == Some(CancelOf(b', snap))
    {
      var remaining := o.Remaining();
      res := if o.side == Buy then CancelResult(o, remaining * o.price, 0) else CancelResult(o, 0, remaining);
      assert res.releaseCOP == CancelOf(b, snap).releaseCOP;
      assert res.releaseVibranium == CancelOf(b, snap).releaseVibranium;
      b' := WithdrawAny(o, b, snap);
    }

    // Cancel, on the book b that the caller sees.
    method CancelOn(id: string, ghost b: Book) returns (res: Option<CancelResult>, ghost c: Option<Cancellation>)
      requires Shaped() && Shows(b)
      modifies this, bids, asks, bids.owned, asks.owned, Cells()
      ensures Shaped() && Cells() <= old(Cells())
      ensures bids.owned == old(bids.owned) && asks.owned == old(asks.owned)
      ensures c == FlatBook.Cancel(b, id) && res.Some? == c.Some? && Shows(if c.Some? then c.value.book else b)
      ensures c.Some? ==> && res.value.order.Snap() == c.value.order
                          && res.value.releaseCOP == c.value.releaseCOP
                          && res.value.releaseVibranium == c.value.releaseVibranium
    {
      c := FlatBook.Cancel(b, id);
      if id !in orders {
        NotIndexed(id);
        return None, c;
      }
      ghost var bs, as_, index, b' := bids.flat, asks.flat, orders, b;
      var o := orders[id];
      assert o.id == id by { WhereItRests(bs, as_, orders, id); }
      FoundIsListed(bs, as_, orders, id);
      var found;
      found, b' := CancelFound(o, b, o.Snap());
      res := Some(found);
      CellsWithin(bs, as_, index, bids.flat, asks.flat, orders, o);
    }

    // Cancels a resting order: exactly what the simple book does.
    method Cancel(id: string) returns (res: Option<CancelResult>)
      requires Valid()
      modifies this, bids, asks, bids.owned, asks.owned, Cells()
      ensures Valid() && Cells() <= old(Cells())
      ensures bids.owned == old(bids.owned) && asks.owned == old(asks.owned)
      ensures var c := FlatBook.Cancel(old(View()), id);
        && res.Some? == c.Some?
        && View() == (if c.Some? then c.value.book else old(View()))
        && (c.Some? ==> && res.value.order.Snap() == c.value.order
                        && res.value.releaseCOP == c.value.releaseCOP
                        && res.value.releaseVibranium == c.value.releaseVibranium)
    {
      ghost var b, c := View(), None;
      res, c := CancelOn(id, b);
      if c.Some? {
        CancelKeepsBookInv(b, id);
      }
    }

    // Prices are sorted best first and are exactly the keys of the levels, and no
    // level is empty.
    lemma PricesAreLevels(own: BookSide, p: int)
      requires Shaped() && (own == bids || own == asks)
      ensures BestFirst(own.isBid, own.prices) && (p in own.prices <==> p in own.levels)
      ensures p in own.levels ==> own.levels[p].queue != []
    {
      own.Unpack();
      assert p in own.levels ==> p in own.Queues();
    }

    // A queue holds live orders of its side and price, each findable by its ID.
    lemma QueuedIsLive(own: BookSide, p: int, i: nat)
      requires Valid() && (own == bids || own == asks) && p in own.levels && i < |own.levels[p].queue|
      ensures var o := own.levels[p].queue[i];
        && o.price == p && o.Remaining() > 0 && o.side == (if own == bids then Buy else Sell)
        && o.id in orders && orders[o.id] == o
    {
      var q := own.levels[p].queue;
      var at := own.QueueInList(p);
      own.QueuePrice(p, i);
      assert own.flat[at..at + |q|][i] == own.flat[at + i];
      OnOneSide(own.flat, if own == bids then asks.flat else bids.flat, orders, q[i]);
      var o := Snaps(own.flat)[at + i];
      assert o == q[i].Snap() && o.Remaining() > 0;
    }

    // A queue is in the order in which its orders were accepted.
    lemma QueueInOrder(own: BookSide, p: int, i: nat, j: nat)
      requires Valid() && (own == bids || own == asks) && p in own.levels && i < j < |own.levels[p].queue|
      ensures own.levels[p].queue[i].sequence < own.levels[p].queue[j].sequence
    {
      var q, s := own.levels[p].queue, Snaps(own.flat);
      var at := own.QueueInList(p);
      own.QueuePrice(p, i);
      own.QueuePrice(p, j);
      assert own.flat[at..at + |q|][i] == own.flat[at + i] && own.flat[at..at + |q|][j] == own.flat[at + j];
      assert Priority(own.isBid, s[at + i], s[at + j]);
    }

    // Every order of the index waits in the queue at its price, on its side.
    lemma IndexedIsQueued(id: string)
      requires Valid() && id in orders
      ensures var o := orders[id];
        var own := if o.side == Buy then bids else asks;
        o.id == id && o.price in own.levels && o in own.levels[o.price].queue
    {
      WhereItRests(bids.flat, asks.flat, orders, id);
      var own := if orders[id].side == Buy then bids else asks;
      own.Unpack();
      own.InOwnQueue(orders[id]);
    }

    // Aggregated depth of both sides.
    method Snapshot(depth: int) returns (snapshot: BookSnapshot)
      requires Valid()
      ensures snapshot == BookSnapshot(symbol, Top(Levels(View().bids), depth), Top(Levels(View().asks), depth))
      ensures ShowsBest(true, snapshot.bids, View().bids, depth) && ShowsBest(false, snapshot.asks, View().asks, depth)
    {
      var bidLevels := bids.LevelsView(depth);
      var askLevels := asks.LevelsView(depth);
      snapshot := BookSnapshot(symbol, bidLevels, askLevels);
    }
  }
}
