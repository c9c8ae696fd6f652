// The same system in 64-bit arithmetic: every sum, difference and product of
// amounts wraps as it does on the machine. While the seeded supply fits, a machine
// run of whole deliveries is the exact run if and only if no BUY is taken for a
// wrapped product. FineMachine lets other steps come between two wallet updates.

module Machine {
  import opened Domain
  import opened Sums
  import opened FlatBook
  import opened Matching
  import opened EventStream
  import opened Claims
  import opened Ledger
  import opened Pipeline
  import opened Reachability
  import opened OrderLife
  import opened Theorems
  import opened Int64Bounds
  import opened Execution
  import opened Collateral
  import opened Accounts

  // ----- Orders and matching -----

  function Remaining64(o: Order): int { Wrap(o.quantity - o.filled) }

  function Filled64(o: Order, qty: int): Order { o.(filled := Wrap(o.filled + qty)) }

  function MakerAfter64(maker: Order, qty: int): Order {
    var m := Filled64(maker, qty);
    m.(status := if Remaining64(m) == 0 then Filled else PartiallyFilled)
  }

  function AfterHit64(flat: seq<Order>, qty: int): seq<Order>
    requires flat != []
  {
    var maker := MakerAfter64(flat[0], qty);
    if Remaining64(maker) == 0 then flat[1..] else [maker] + flat[1..]
  }

  predicate CanFill64(taker: Order, flat: seq<Order>) {
    Remaining64(taker) > 0 && flat != [] && Crosses(taker.side, taker.price, flat[0].price)
  }

  function Refund64(taker: Order, maker: Order, qty: int): int {
    if taker.side == Buy then Wrap(Wrap(taker.price - maker.price) * qty) else 0
  }

  lemma WrapShift(x: int, k: int)
    ensures Wrap(x + 0x1_0000_0000_0000_0000 * k) == Wrap(x)
  {
  }

  // Filling what remains leaves nothing, wrapped or not.
  lemma NothingRemains(o: Order)
    ensures Remaining64(Filled64(o, Remaining64(o))) == 0
  {
    var k := (o.quantity - o.filled - MIN_INT64) / 0x1_0000_0000_0000_0000;
    assert Remaining64(o) == o.quantity - o.filled - 0x1_0000_0000_0000_0000 * k;
    WrapShift(o.quantity, -k);
    var j := (o.quantity - MIN_INT64) / 0x1_0000_0000_0000_0000;
    assert Wrap(o.quantity) == o.quantity - 0x1_0000_0000_0000_0000 * j;
    WrapShift(0, j);
  }

  // The loop: released is what has been added up so far.
  function Match64(symbol: string, tradeSeq: nat, taker: Order, flat: seq<Order>, released: int): Matched
    decreases |flat|, Remaining64(taker) > 0
  {
    if !CanFill64(taker, flat) then
      Matched(taker, flat, [], released)
    else
      var qty := Min(Remaining64(taker), Remaining64(flat[0]));
      var fill := Fill(TradeOf(symbol, tradeSeq + 1, taker, flat[0], qty), MakerAfter64(flat[0], qty));
      NothingRemains(taker);
      NothingRemains(flat[0]);
      var more := Match64(symbol, tradeSeq + 1, Filled64(taker, qty), AfterHit64(flat, qty),
                          Wrap(released + Refund64(taker, flat[0], qty)));
      more.(fills := [fill] + more.fills)
  }

  function Place64(b: Book, o: Order): Placed {
    Finish64(b, o, Match64(b.symbol, b.tradeSeq, Accepted(b, o), b.Opposite(o.side), 0))
  }

  function Finish64(b: Book, o: Order, m: Matched): Placed {
    var done := Remaining64(m.taker) == 0;
    var taker := m.taker.(status := if done then Filled else if m.taker.filled > 0 then PartiallyFilled else Open);
    var b' := AfterMatch(b, o.side, m);
    Placed(if done then b' else Rest(b', taker), taker, m.fills, m.refund)
  }

  function Cancel64(b: Book, id: string): Option<Cancellation> {
    var i, j := Find(b.bids, id), Find(b.asks, id);
    if i < |b.bids| then Some(CancelOf64(b.(bids := RemoveAt(b.bids, i)), b.bids[i]))
    else if j < |b.asks| then Some(CancelOf64(b.(asks := RemoveAt(b.asks, j)), b.asks[j]))
    else None
  }

  function CancelOf64(b: Book, o: Order): Cancellation {
    Cancellation(b, AsCancelled(o),
                 if o.side == Buy then Wrap(Remaining64(o) * o.price) else 0,
                 if o.side == Buy then 0 else Remaining64(o))
  }

  function Process64(b: Book, c: Command): (Book, seq<Event>) {
    match c
    case PlaceCommand(o) => var p := Place64(b, o); (p.book, PlaceEvents(p))
    case CancelCommand(id) =>
      var r := Cancel64(b, id);
      (if r.None? then b else r.value.book, CancelEvents(r))
    case SnapshotCommand(_) => (b, [])
  }

  // ----- Wallets and settlement -----

  function Moved64(w: Wallet, op: WalletOp): Wallet {
    var x := Moved(w, op);
    Wallet(w.userId, Wrap(x.copAvailable), Wrap(x.copLocked), Wrap(x.vibraniumAvailable), Wrap(x.vibraniumLocked))
  }

  function Updated64(ws: Wallets, user: string, op: WalletOp): Wallets {
    if UpdateError(ws, user, op).Some? then ws else ws[user := Moved64(ws[user], op)]
  }

  function Notional64(t: Trade): int { Wrap(t.price * t.quantity) }

  function Money64(ws: Wallets, e: Event): Wallets {
    if e.kind == TradeEvent && e.trade.Some? then
      var t := e.trade.value;
      Updated64(Updated64(ws, t.buyerId, SettleBuy(Notional64(t), t.quantity)),
                t.sellerId, SettleSell(t.quantity, Notional64(t)))
    else if e.kind == OrderUpdated && e.order.Some? then
      var u := e.order.value.userId;
      var ws1 := if e.releaseCOP > 0 then Updated64(ws, u, ReleaseCOP(e.releaseCOP)) else ws;
      if e.releaseVibranium > 0 then Updated64(ws1, u, ReleaseVibranium(e.releaseVibranium)) else ws1
    else ws
  }

  function Handle64(l: Ledger, e: Event): Ledger {
    if e.id in l.journal then l
    else Ledger(l.journal + {e.id}, Money64(l.wallets, e), Recorded(l.trades, e), Projected(l.orders, e))
  }

  // ----- Steps -----

  function Reserved64(o: Order): int { if o.side == Buy then Wrap(o.price * o.quantity) else 0 }

  function ReserveOp64(o: Order): WalletOp {
    if o.side == Buy then ReserveCOP(Reserved64(o)) else ReserveVibranium(o.ReservedVibranium())
  }

  function ReleaseOp64(o: Order): WalletOp {
    if o.side == Buy then ReleaseCOP(Reserved64(o)) else ReleaseVibranium(o.ReservedVibranium())
  }

  function Do64(s: State, step: Step): State {
    match step
    case Reserve(id, u, side, p, q) =>
      var o := NewOrder(id, u, s.book.symbol, side, p, q);
      if o.id in s.accepted || o.Validate().Some? || UpdateError(s.ledger.wallets, u, ReserveOp64(o)).Some? then s
      else s.(ledger := s.ledger.(wallets := Updated64(s.ledger.wallets, u, ReserveOp64(o))),
              reserved := s.reserved + [o],
              accepted := s.accepted[o.id := o])
    case Refuse(i) =>
      if i >= |s.reserved| then s
      else
        var o := s.reserved[i];
        s.(ledger := s.ledger.(wallets := Updated64(s.ledger.wallets, o.userId, ReleaseOp64(o))),
           reserved := RemoveAt(s.reserved, i),
           withdrawn := s.withdrawn + {o.id})
    case Engine =>
      if s.queue == [] then s
      else
        var (book, events) := Process64(s.book, s.queue[0]);
        s.(queue := s.queue[1..], book := book, log := Publish(s.producer, s.log, events))
    case Deliver(i) =>
      if i >= |s.log| then s
      else s.(ledger := Handle64(s.ledger, s.log[i]),
              applied := if s.log[i].id in s.ledger.journal then s.applied else s.applied + [s.log[i]])
    case _ => Do(s, step)  // no arithmetic
  }

  function Run64(s: State, steps: seq<Step>): State
    decreases |steps|
  {
    if steps == [] then s else Run64(Do64(s, steps[0]), steps[1..])
  }

  // ----- Exactness of matching -----

  ghost predicate SmallOrder(o: Order) {
    0 <= o.filled <= o.quantity <= MAX_INT64 && 0 < o.price <= MAX_INT64
  }

  ghost predicate SmallOrders(s: seq<Order>) { forall o :: o in s ==> SmallOrder(o) }

  lemma HitExact(taker: Order, flat: seq<Order>)
    requires SmallOrder(taker) && flat != [] && SmallOrder(flat[0])
    ensures Remaining64(taker) == taker.Remaining() && Remaining64(flat[0]) == flat[0].Remaining()
    ensures var qty := FillQuantity(taker, flat[0]);
      0 <= qty ==>
        && Filled64(taker, qty) == TakerAfter(taker, qty) && SmallOrder(TakerAfter(taker, qty))
        && MakerAfter64(flat[0], qty) == MakerAfter(flat[0], qty) && SmallOrder(MakerAfter(flat[0], qty))
        && AfterHit64(flat, qty) == AfterHit(flat, qty)
  {
  }

  lemma RefundExact(taker: Order, maker: Order, qty: int, released: int, more: int)
    requires SmallOrder(taker) && SmallOrder(maker) && Crosses(taker.side, taker.price, maker.price) && 0 <= qty
    requires 0 <= released && 0 <= more && released + (Refund(taker, maker, qty) + more) <= MAX_INT64
    ensures 0 <= Refund(taker, maker, qty)
    ensures Wrap(released + Refund64(taker, maker, qty)) == released + Refund(taker, maker, qty)
  {
    if taker.side == Buy { MulNonNegative(taker.price - maker.price, qty); }
  }

  // One turn of the loop, in exact terms.
  lemma Turn64(symbol: string, tradeSeq: nat, taker: Order, flat: seq<Order>, released: int, released': int)
    requires SmallOrder(taker) && flat != [] && SmallOrder(flat[0]) && CanFill(taker, flat)
    requires 0 <= FillQuantity(taker, flat[0])
    requires released' == Wrap(released + Refund64(taker, flat[0], FillQuantity(taker, flat[0])))
    ensures var qty := FillQuantity(taker, flat[0]);
      var more := Match64(symbol, tradeSeq + 1, TakerAfter(taker, qty), AfterHit(flat, qty), released');
      Match64(symbol, tradeSeq, taker, flat, released)
      == more.(fills := [Fill(TradeOf(symbol, tradeSeq + 1, taker, flat[0], qty), MakerAfter(flat[0], qty))]
                        + more.fills)
  {
    HitExact(taker, flat);
  }

  lemma HitKeepsSmall(taker: Order, flat: seq<Order>)
    requires SmallOrder(taker) && SmallOrders(flat) && Tradable(flat) && CanFill(taker, flat)
    ensures var qty := FillQuantity(taker, flat[0]);
      0 < qty && SmallOrder(TakerAfter(taker, qty)) && SmallOrders(AfterHit(flat, qty)) && Tradable(AfterHit(flat, qty))
  {
    HitExact(taker, flat);
  }

  lemma {:induction false} MatchExact(symbol: string, tradeSeq: nat, taker: Order, flat: seq<Order>, released: int)
    requires SmallOrder(taker) && SmallOrders(flat) && Tradable(flat) && 0 <= released
    requires released + Match(symbol, tradeSeq, taker, flat).refund <= MAX_INT64
    ensures var m := Match(symbol, tradeSeq, taker, flat);
      Match64(symbol, tradeSeq, taker, flat, released) == m.(refund := released + m.refund)
    decreases |flat|, taker.Remaining() > 0
  {
    if CanFill(taker, flat) {
      var qty := FillQuantity(taker, flat[0]);
      var taker', flat' := TakerAfter(taker, qty), AfterHit(flat, qty);
      var released' := released + Refund(taker, flat[0], qty);
      HitKeepsSmall(taker, flat);
      RefundNonNegative(symbol, tradeSeq + 1, taker', flat');
      RefundExact(taker, flat[0], qty, released, Match(symbol, tradeSeq + 1, taker', flat').refund);
      MatchExact(symbol, tradeSeq + 1, taker', flat', released');
      Turn64(symbol, tradeSeq, taker, flat, released, released');
    } else if flat != [] {
      HitExact(taker, flat);
    }
  }

  // ----- Exactness of commands -----

  lemma PlaceExact(b: Book, o: Order)
    requires SmallOrder(o) && SmallOrders(b.Opposite(o.side)) && Tradable(b.Opposite(o.side))
    requires Place(b, o).release <= MAX_INT64
    ensures Place64(b, o) == Place(b, o)
  {
    var m := Match(b.symbol, b.tradeSeq, Accepted(b, o), b.Opposite(o.side));
    MatchExact(b.symbol, b.tradeSeq, Accepted(b, o), b.Opposite(o.side), 0);
    TakerStaysSmall(b.symbol, b.tradeSeq, Accepted(b, o), b.Opposite(o.side));
    FinishExact(b, o, m, Place(b, o));
  }

  lemma TakerStaysSmall(symbol: string, tradeSeq: nat, taker: Order, flat: seq<Order>)
    requires SmallOrder(taker) && Tradable(flat)
    ensures SmallOrder(Match(symbol, tradeSeq, taker, flat).taker)
  {
    MatchFillBounds(symbol, tradeSeq, taker, flat);
    MatchKeepsTaker(symbol, tradeSeq, taker, flat);
  }

  lemma FinishExact(b: Book, o: Order, m: Matched, p: Placed)
    requires SmallOrder(m.taker) && p.taker == Outcome(m.taker) && p.fills == m.fills && p.release == m.refund
    requires var b' := AfterMatch(b, o.side, m);
      p.book == if p.taker.Remaining() == 0 then b' else Rest(b', p.taker)
    ensures Finish64(b, o, m) == p
  {
    assert Remaining64(m.taker) == m.taker.Remaining();
  }

  lemma CancelOfExact(b: Book, o: Order)
    requires SmallOrder(o) && CancelOf(b, o).releaseCOP <= MAX_INT64
    ensures CancelOf64(b, o) == CancelOf(b, o)
  {
    MulNonNegative(o.Remaining(), o.price);
  }

  lemma CancelExact(b: Book, id: string)
    requires SmallOrders(b.bids) && SmallOrders(b.asks)
    requires Cancel(b, id).Some? ==> Cancel(b, id).value.releaseCOP <= MAX_INT64
    ensures Cancel64(b, id) == Cancel(b, id)
  {
    var i, j := Find(b.bids, id), Find(b.asks, id);
    if i < |b.bids| {
      CancelOfExact(b.(bids := RemoveAt(b.bids, i)), b.bids[i]);
    } else if j < |b.asks| {
      CancelOfExact(b.(asks := RemoveAt(b.asks, j)), b.asks[j]);
    }
  }

  // ----- Exactness of wallet updates -----

  ghost predicate WalletFits(w: Wallet) {
    Fits(w.copAvailable) && Fits(w.copLocked) && Fits(w.vibraniumAvailable) && Fits(w.vibraniumLocked)
  }

  ghost predicate WalletsFit(ws: Wallets) { forall u :: u in ws ==> WalletFits(ws[u]) }

  lemma UpdatedExact(ws: Wallets, user: string, op: WalletOp)
    requires UpdateError(ws, user, op).None? ==> WalletFits(Moved(ws[user], op))
    ensures Updated64(ws, user, op) == Updated(ws, user, op)
  {
  }

  // Each field is touched by at most one leg, so a field between the legs is either
  // as before or as after.
  lemma LegFits(ws: Wallets, t: Trade)
    requires TradeClean(ws, t) && WalletsFit(ws) && WalletsFit(TradeMoney(ws, t))
    ensures var ws1 := Updated(ws, t.buyerId, SettleBuy(t.Notional(), t.quantity)); WalletsFit(ws1)
  {
    var ws1 := Updated(ws, t.buyerId, SettleBuy(t.Notional(), t.quantity));
    assert WalletFits(ws[t.buyerId]) && WalletFits(TradeMoney(ws, t)[t.buyerId]);
    assert WalletFits(ws1[t.buyerId]);
  }

  lemma LegsExact(ws: Wallets, u: string, op: WalletOp, v: string, op': WalletOp)
    requires UpdateError(ws, u, op).None? && UpdateError(Updated(ws, u, op), v, op').None?
    requires WalletFits(Moved(ws[u], op)) && WalletFits(Moved(Updated(ws, u, op)[v], op'))
    ensures Updated64(Updated64(ws, u, op), v, op') == Updated(Updated(ws, u, op), v, op')
  {
    UpdatedExact(ws, u, op);
    UpdatedExact(Updated(ws, u, op), v, op');
  }

  lemma TradeLegsExact(ws: Wallets, t: Trade)
    requires TradeClean(ws, t) && WalletsFit(ws) && WalletsFit(TradeMoney(ws, t))
    ensures Updated64(Updated64(ws, t.buyerId, SettleBuy(t.Notional(), t.quantity)),
                      t.sellerId, SettleSell(t.quantity, t.Notional())) == TradeMoney(ws, t)
  {
    var op, op' := SettleBuy(t.Notional(), t.quantity), SettleSell(t.quantity, t.Notional());
    var ws1 := Updated(ws, t.buyerId, op);
    LegFits(ws, t);
    assert WalletFits(ws1[t.buyerId]) && WalletFits(TradeMoney(ws, t)[t.sellerId]);
    LegsExact(ws, t.buyerId, op, t.sellerId, op');
  }

  lemma TradeMoneyExact(ws: Wallets, e: Event)
    requires e.kind == TradeEvent && e.trade.Some? && TradeClean(ws, e.trade.value) && Fits(e.trade.value.Notional())
    requires WalletsFit(ws) && WalletsFit(TradeMoney(ws, e.trade.value))
    ensures Money64(ws, e) == Money(ws, e)
  {
    FitsIsExact(e.trade.value.price * e.trade.value.quantity);
    TradeLegsExact(ws, e.trade.value);
  }

  lemma ReleaseMoneyExact(ws: Wallets, e: Event)
    requires e.kind == OrderUpdated && e.order.Some? && SettlesCleanly(ws, e)
    requires WalletsFit(ws) && WalletsFit(Money(ws, e))
    ensures Money64(ws, e) == Money(ws, e)
  {
    var u := e.order.value.userId;
    var ws1 := ReleaseMoney(ws, u, e.releaseCOP, 0);
    if u in ws {
      assert WalletFits(ws[u]) && WalletFits(Money(ws, e)[u]);
      if e.releaseCOP > 0 { UpdatedExact(ws, u, ReleaseCOP(e.releaseCOP)); }
      if e.releaseVibranium > 0 { UpdatedExact(ws1, u, ReleaseVibranium(e.releaseVibranium)); }
    }
  }

  // ----- Exactness of steps -----

  ghost predicate AcceptedSmall(s: State) {
    forall id :: id in s.accepted ==> s.accepted[id].quantity <= MAX_INT64 && s.accepted[id].price <= MAX_INT64
  }

  lemma RestingSmall(s: State)
    requires Inv(s) && AcceptedSmall(s)
    ensures SmallOrders(s.book.bids) && SmallOrders(s.book.asks)
  {
    forall o | o in s.book.bids || o in s.book.asks
      ensures SmallOrder(o)
    {
      assert o.Terms() in BookTerms(s.book);
      var id :| id in s.accepted && s.accepted[id].Terms() == o.Terms();
      assert o.quantity == s.accepted[id].quantity && o.price == s.accepted[id].price;
      if o in s.book.bids {
        var i :| 0 <= i < |s.book.bids| && s.book.bids[i] == o;
        assert Resting(o, true, s.book.orderSeq);
      } else {
        var i :| 0 <= i < |s.book.asks| && s.book.asks[i] == o;
        assert Resting(o, false, s.book.orderSeq);
      }
    }
  }

  ghost predicate ReleasesFit(log: seq<Event>) {
    forall i :: 0 <= i < |log| && log[i].kind == OrderUpdated ==> log[i].releaseCOP <= MAX_INT64
  }

  lemma LastRelease(producer: string, log: seq<Event>, events: seq<Event>, o: Order, cop: int, vib: int)
    requires ReleasesFit(Publish(producer, log, events))
    requires events != [] && events[|events| - 1] == Update(o, cop, vib)
    ensures cop <= MAX_INT64
  {
    var log' := Publish(producer, log, events);
    assert log'[|log| + (|events| - 1)] == Stamp(producer, |log| + |events|, events[|events| - 1]);
  }

  lemma ProcessExact(s: State)
    requires Inv(s) && AcceptedSmall(s) && s.queue != [] && ReleasesFit(DoEngine(s).log)
    ensures Process64(s.book, s.queue[0]) == Process(s.book, s.queue[0])
  {
    RestingSmall(s);
    var c := s.queue[0];
    if c.PlaceCommand? {
      var p := Place(s.book, c.order);
      HeadPlaceable(s);
      LastRelease(s.producer, s.log, PlaceEvents(p), p.taker, p.release, 0);
      SideIsPriceSorted(true, s.book.bids, s.book.orderSeq);
      SideIsPriceSorted(false, s.book.asks, s.book.orderSeq);
      PlaceExact(s.book, c.order);
    } else if c.CancelCommand? && Cancel(s.book, c.orderId).Some? {
      var r := Cancel(s.book, c.orderId).value;
      LastRelease(s.producer, s.log, CancelEvents(Some(r)), r.order, r.releaseCOP, r.releaseVibranium);
      CancelExact(s.book, c.orderId);
    } else if c.CancelCommand? {
      CancelExact(s.book, c.orderId);
    }
  }

  lemma EngineExact(s: State)
    requires Inv(s) && AcceptedSmall(s) && s.queue != [] && ReleasesFit(DoEngine(s).log)
    ensures Do64(s, Engine) == DoEngine(s)
  {
    ProcessExact(s);
    EngineFollows(s);
  }

  lemma EngineFollows(s: State)
    requires s.queue != [] && Process64(s.book, s.queue[0]) == Process(s.book, s.queue[0])
    ensures Do64(s, Engine) == DoEngine(s)
  {
  }

  lemma DeliverExact(s: State, i: nat)
    requires i < |s.log| && s.log[i].id !in s.ledger.journal && s.log[i].kind != OrderAccepted
    requires SettlesCleanly(s.ledger.wallets, s.log[i]) && Fits(Amount(COP, s.log[i]))
    requires WalletsFit(s.ledger.wallets) && WalletsFit(DoDeliver(s, i).ledger.wallets)
    ensures Do64(s, Deliver(i)) == DoDeliver(s, i)
  {
    var e, ws := s.log[i], s.ledger.wallets;
    if e.kind == TradeEvent && e.trade.Some? {
      TradeMoneyExact(ws, e);
    } else if e.kind == OrderUpdated && e.order.Some? {
      ReleaseMoneyExact(ws, e);
    }
  }

  // An order as it comes in: price and quantity are machine integers.
  ghost predicate Input(step: Step) {
    step.Reserve? ==> step.price <= MAX_INT64 && step.quantity <= MAX_INT64
  }

  // A BUY whose product is one, too.
  ghost predicate Fitting(step: Step) {
    Input(step) && (step.Reserve? && step.side == Buy ==> step.price * step.quantity <= MAX_INT64)
  }

  lemma ReserveExact(s: State, step: Step)
    requires step.Reserve? && Fitting(step) && WalletsFit(Do(s, step).ledger.wallets)
    ensures Do64(s, step) == Do(s, step)
  {
    var o := NewOrder(step.id, step.user, s.book.symbol, step.side, step.price, step.quantity);
    if o.Validate().None? {
      MulNonNegative(o.price, o.quantity);
      FitsIsExact(o.price * o.quantity);
      assert ReserveOp64(o) == ReserveOp(o);
      if Do(s, step) != s {
        assert WalletFits(Do(s, step).ledger.wallets[step.user]);
        UpdatedExact(s.ledger.wallets, step.user, ReserveOp(o));
      }
    }
  }

  lemma RefuseExact(s: State, i: nat)
    requires i < |s.reserved| ==>
        var o := s.reserved[i];
        o.filled == 0 && Fits(Due(COP, o)) && UpdateError(s.ledger.wallets, o.userId, ReleaseOp(o)).None?
    requires WalletsFit(DoRefuse(s, i).ledger.wallets)
    ensures Do64(s, Refuse(i)) == DoRefuse(s, i)
  {
    if i < |s.reserved| {
      var o := s.reserved[i];
      if o.side == Buy { FitsIsExact(o.price * o.quantity); }
      assert ReleaseOp64(o) == ReleaseOp(o);
      assert WalletFits(DoRefuse(s, i).ledger.wallets[o.userId]);
      UpdatedExact(s.ledger.wallets, o.userId, ReleaseOp(o));
    }
  }

  // ----- Exactness of runs -----

  ghost predicate SupplyFits(s: State) { Supply(COP, s.seeds) <= MAX_INT64 && Supply(VIB, s.seeds) <= MAX_INT64 }

  // What the supply bounds in one state.
  lemma SmallHere(s: State)
    requires Inv(s) && CollateralInv(s) && AccountsInv(s) && EventsBounded(s)
    requires SupplyFits(s)
    ensures WalletsFit(s.ledger.wallets) && ReleasesFit(s.log)
    ensures forall o :: o in s.reserved ==> Fits(Due(COP, o))
    ensures forall e :: e in s.log ==> Fits(Amount(COP, e))
  {
    forall a
      ensures Supply(a, s.seeds) <= MAX_INT64
    {
      if a == COP {}
    }
    SoundFits(s);
    assert BalancesFit(s, COP) && BalancesFit(s, VIB) && AmountsFit(s, COP);
    forall i | 0 <= i < |s.log| && s.log[i].kind == OrderUpdated
      ensures s.log[i].releaseCOP <= MAX_INT64
    {
      assert Fits(Amount(COP, s.log[i]));
    }
    forall o | o in s.reserved
      ensures Fits(Due(COP, o))
    {
      assert o in Pending(s);
    }
  }

  lemma StepKeepsSmall(s: State, step: Step)
    requires AcceptedSmall(s) && Input(step)
    ensures AcceptedSmall(Do(s, step))
  {
  }

  lemma DeliveredIsExact(s: State, i: nat)
    requires Inv(s) && CollateralInv(s) && i < |s.log|
    requires WalletsFit(s.ledger.wallets) && WalletsFit(DoDeliver(s, i).ledger.wallets) && Fits(Amount(COP, s.log[i]))
    ensures Do64(s, Deliver(i)) == DoDeliver(s, i)
  {
    if s.log[i].id !in s.ledger.journal {
      DeliverySettles(s, i);
      assert EventFrom(s.log[i], AcceptedTerms(s));
      DeliverExact(s, i);
    }
  }

  lemma RefusedIsExact(s: State, i: nat)
    requires Inv(s) && CollateralInv(s) && WalletsFit(DoRefuse(s, i).ledger.wallets)
    requires forall o :: o in s.reserved ==> Fits(Due(COP, o))
    ensures Do64(s, Refuse(i)) == DoRefuse(s, i)
  {
    if i < |s.reserved| {
      RefuseCollateral(s, i);
      assert Pending(s)[i] == s.reserved[i] && s.reserved[i] in s.reserved;
      assert Waiting(s, s.reserved[i]);
    }
    RefuseExact(s, i);
  }

  lemma StepExact(s: State, step: Step)
    requires Sound(s) && EventsBounded(s) && AcceptedSmall(s) && Fitting(step)
    requires SupplyFits(Do(s, step))
    ensures Do64(s, step) == Do(s, step)
  {
    StepEventsBounded(s, step);
    SeedsOnlyGrow(s, step, COP);
    SeedsOnlyGrow(s, step, VIB);
    SmallHere(s);
    SmallHere(Do(s, step));
    match step
    case Reserve(_, _, _, _, _) => ReserveExact(s, step);
    case Refuse(i) => RefusedIsExact(s, i);
    case Engine => if s.queue != [] { EngineExact(s); }
    case Deliver(i) => if i < |s.log| { DeliveredIsExact(s, i); }
    case _ =>
  }

  lemma {:induction false} SeedsGrow(s: State, steps: seq<Step>, a: Asset)
    requires Sound(s)
    ensures Supply(a, s.seeds) <= Supply(a, Run(s, steps).seeds)
    decreases |steps|
  {
    if steps != [] {
      StepSound(s, steps[0]);
      SeedsOnlyGrow(s, steps[0], a);
      SeedsGrow(Do(s, steps[0]), steps[1..], a);
    }
  }

  ghost predicate MachineOk(s: State) { Sound(s) && EventsBounded(s) && AcceptedSmall(s) }

  // A reservation that goes as far as the owner's wallet.
  predicate ReachesWallet(s: State, step: Step) {
    && step.Reserve? && step.id !in s.accepted && step.user in s.ledger.wallets
    && NewOrder(step.id, step.user, s.book.symbol, step.side, step.price, step.quantity).Validate().None?
  }

  // The machine does not take a wrapped product for a price the user can pay.
  predicate Harmless(s: State, step: Step) {
    ReachesWallet(s, step) && step.side == Buy ==>
      var product := step.price * step.quantity;
      product <= MAX_INT64 || Wrap(product) < 0 || s.ledger.wallets[step.user].copAvailable < Wrap(product)
  }

  // A product that does not fit is more than anybody owns.
  lemma TooMuchIsRefused(s: State, step: Step)
    requires ReachesWallet(s, step) && step.side == Buy && step.price * step.quantity > MAX_INT64
    requires WalletsFit(s.ledger.wallets)
    ensures Do(s, step) == s
    ensures Harmless(s, step) ==> Do64(s, step) == s
    ensures !Harmless(s, step) ==> Taken64(s, step)
  {
    assert WalletFits(s.ledger.wallets[step.user]);
  }

  // The machine locks the wrapped product and accepts the order.
  predicate Taken64(s: State, step: Step)
    requires ReachesWallet(s, step)
  {
    var o := NewOrder(step.id, step.user, s.book.symbol, step.side, step.price, step.quantity);
    && UpdateError(s.ledger.wallets, step.user, ReserveOp64(o)).None?
    && Do64(s, step) == s.(ledger := s.ledger.(wallets := Updated64(s.ledger.wallets, step.user, ReserveOp64(o))),
                           reserved := s.reserved + [o],
                           accepted := s.accepted[o.id := o])
  }

  // What the accepted order adds to its owner's claims.
  lemma TakenClaims(s: State, step: Step, s': State)
    requires ReachesWallet(s, step) && step.side == Buy
    requires s' == s.(ledger := s'.ledger, reserved := s'.reserved, accepted := s'.accepted)
    requires s'.reserved == s.reserved + [NewOrder(step.id, step.user, s.book.symbol, Buy, step.price, step.quantity)]
    ensures Claimed(s', COP, ByUser(step.user), s.ledger.journal)
         == Claimed(s, COP, ByUser(step.user), s.ledger.journal) + step.price * step.quantity
  {
    var o := s'.reserved[|s.reserved|];
    OneMoreClaim(s.reserved, o, PlacedOrders(s.queue), OrderClaim(COP, ByUser(step.user)));
  }

  // Then what is locked falls short of what the order claims.
  lemma TakenIsUnbacked(s: State, step: Step)
    requires ReachesWallet(s, step) && Exact(s, COP, step.user) && 0 <= s.ledger.wallets[step.user].copLocked
    requires step.side == Buy && step.price * step.quantity > MAX_INT64 && Taken64(s, step)
    ensures !CollateralInv(Do64(s, step))
  {
    var s' := Do64(s, step);
    TakenClaims(s, step, s');
    LockedStaysBelow(s.ledger.wallets[step.user],
                     NewOrder(step.id, step.user, s.book.symbol, step.side, step.price, step.quantity));
    assert !Exact(s', COP, step.user);
  }

  lemma OneMoreClaim(a: seq<Order>, o: Order, b: seq<Order>, f: Order -> int)
    ensures Sum(a + [o] + b, f) == Sum(a + b, f) + f(o)
  {
    SumConcat(a + [o], b, f);
    SumConcat(a, [o], f);
    SumConcat(a, b, f);
    SumOne(o, f);
  }

  lemma LockedStaysBelow(w: Wallet, o: Order)
    requires o.price * o.quantity > MAX_INT64 && 0 <= w.copLocked
    ensures Moved64(w, ReserveOp64(o)).copLocked < w.copLocked + o.price * o.quantity
  {
  }

  // ----- Exactly when the machine is exact -----

  lemma StepExactIff(s: State, step: Step)
    requires MachineOk(s) && Input(step) && SupplyFits(Do(s, step))
    ensures Do64(s, step) == Do(s, step) <==> Harmless(s, step)
    ensures CollateralInv(Do64(s, step)) <==> Harmless(s, step)
  {
    StepCollateral(s, step);
    if Fitting(step) || !ReachesWallet(s, step) {
      HarmlessIsExact(s, step);
    } else {
      SeedsOnlyGrow(s, step, COP);
      SeedsOnlyGrow(s, step, VIB);
      SmallHere(s);
      TooMuchIsRefused(s, step);
      if !Harmless(s, step) {
        BalancesNonNegative(s, COP);
        assert Exact(s, COP, step.user);
        TakenIsUnbacked(s, step);
        assert step.id in Do64(s, step).accepted;
      }
    }
  }

  lemma HarmlessIsExact(s: State, step: Step)
    requires MachineOk(s) && SupplyFits(Do(s, step)) && (Fitting(step) || (step.Reserve? && !ReachesWallet(s, step)))
    ensures Do64(s, step) == Do(s, step)
  {
    if Fitting(step) { StepExact(s, step); }
  }

  lemma ReserveKeepsSeeds(s: State, step: Step)
    requires step.Reserve?
    ensures Do(s, step).seeds == s.seeds
  {
  }

  // A reservation by a user who has a wallet, under a new ID: the state stays
  // exactly backed if and only if the product fits, or wraps to a negative amount,
  // or wraps to more than the user has.
  lemma ReservationBackedExactly(s: State, step: Step)
    requires MachineOk(s) && SupplyFits(s) && Input(step) && ReachesWallet(s, step) && step.side == Buy
    ensures var product := step.price * step.quantity;
      CollateralInv(Do64(s, step)) <==>
        product <= MAX_INT64 || Wrap(product) < 0 || s.ledger.wallets[step.user].copAvailable < Wrap(product)
  {
    ReserveKeepsSeeds(s, step);
    StepExactIff(s, step);
  }

  ghost predicate AllInputs(steps: seq<Step>) { steps == [] || (Input(steps[0]) && AllInputs(steps[1..])) }

  ghost predicate AllFitting(steps: seq<Step>) { steps == [] || (Fitting(steps[0]) && AllFitting(steps[1..])) }

  // Along the exact run, no reservation is taken for a wrapped product.
  ghost predicate HarmlessRun(s: State, steps: seq<Step>)
    decreases |steps|
  {
    steps == [] || (Harmless(s, steps[0]) && HarmlessRun(Do(s, steps[0]), steps[1..]))
  }

  // The machine is where the exact run is after every one of the steps.
  ghost predicate Agrees(s: State, steps: seq<Step>) {
    forall k :: 0 <= k <= |steps| ==> Run64(s, steps[..k]) == Run(s, steps[..k])
  }

  lemma AgreesStepwise(s: State, steps: seq<Step>)
    requires steps != []
    ensures Agrees(s, steps) <==> Do64(s, steps[0]) == Do(s, steps[0]) && Agrees(Do(s, steps[0]), steps[1..])
  {
    var tail := steps[1..];
    forall k | 0 <= k <= |tail|
      ensures Run64(s, steps[..k + 1]) == Run64(Do64(s, steps[0]), tail[..k])
      ensures Run(s, steps[..k + 1]) == Run(Do(s, steps[0]), tail[..k])
    {
      assert steps[..k + 1][1..] == tail[..k];
    }
    if Agrees(s, steps) {
      assert Run64(s, steps[..1]) == Run(s, steps[..1]);
      assert tail[..0] == [];
      assert Run64(s, steps[..0 + 1]) == Do64(s, steps[0]) && Run(s, steps[..0 + 1]) == Do(s, steps[0]);
      forall k | 0 <= k <= |tail|
        ensures Run64(Do(s, steps[0]), tail[..k]) == Run(Do(s, steps[0]), tail[..k])
      {
        assert Run64(s, steps[..k + 1]) == Run(s, steps[..k + 1]);
      }
    }
    if Do64(s, steps[0]) == Do(s, steps[0]) && Agrees(Do(s, steps[0]), tail) {
      forall k | 0 <= k <= |steps|
        ensures Run64(s, steps[..k]) == Run(s, steps[..k])
      {
        if k > 0 {
          assert Run64(Do(s, steps[0]), tail[..k - 1]) == Run(Do(s, steps[0]), tail[..k - 1]);
          assert steps[..k] == steps[..(k - 1) + 1];
        }
      }
    }
  }

  lemma {:induction false} RunExactIff(s: State, steps: seq<Step>)
    requires MachineOk(s) && AllInputs(steps) && SupplyFits(Run(s, steps))
    ensures Agrees(s, steps) <==> HarmlessRun(s, steps)
    decreases |steps|
  {
    if steps == [] {
      assert Agrees(s, steps);
    } else {
      AgreesStepwise(s, steps);
      NextIsExactIff(s, steps[0], steps[1..]);
      RunExactIff(Do(s, steps[0]), steps[1..]);
    }
  }

  lemma NextIsExactIff(s: State, step: Step, rest: seq<Step>)
    requires MachineOk(s) && Input(step) && SupplyFits(Run(Do(s, step), rest))
    ensures Do64(s, step) == Do(s, step) <==> Harmless(s, step)
    ensures MachineOk(Do(s, step))
  {
    StepEventsBounded(s, step);
    StepKeepsSmall(s, step);
    SeedsGrow(Do(s, step), rest, COP);
    SeedsGrow(Do(s, step), rest, VIB);
    StepExactIff(s, step);
  }

  // As long as the seeded supply fits in 64 bits, a machine run is the exact run at
  // every moment if and only if no BUY is ever taken for a wrapped product.
  lemma MachineRunIsExact(producer: string, symbol: string, steps: seq<Step>)
    requires AllInputs(steps) && SupplyFits(After(producer, symbol, steps))
    ensures Agrees(Init(producer, symbol), steps) <==> HarmlessRun(Init(producer, symbol), steps)
  {
    InitSound(producer, symbol);
    assert MachineOk(Init(producer, symbol));
    RunExactIff(Init(producer, symbol), steps);
  }

  lemma {:induction false} RunKeepsMachineOk(s: State, steps: seq<Step>)
    requires MachineOk(s) && AllInputs(steps)
    ensures MachineOk(Run(s, steps))
    decreases |steps|
  {
    if steps != [] {
      StepEventsBounded(s, steps[0]);
      StepKeepsSmall(s, steps[0]);
      RunKeepsMachineOk(Do(s, steps[0]), steps[1..]);
    }
  }

  // The first reservation that could go wrong goes wrong exactly when the guard of
  // the wallet takes the wrapped product.
  lemma ReservationBackedInRun(producer: string, symbol: string, steps: seq<Step>, step: Step)
    requires AllInputs(steps) && SupplyFits(After(producer, symbol, steps)) && Input(step)
    requires HarmlessRun(Init(producer, symbol), steps)
    ensures var s := Run64(Init(producer, symbol), steps);
      ReachesWallet(s, step) && step.side == Buy ==>
        var product := step.price * step.quantity;
        CollateralInv(Do64(s, step)) <==>
          product <= MAX_INT64 || Wrap(product) < 0 || s.ledger.wallets[step.user].copAvailable < Wrap(product)
  {
    var s0, s := Init(producer, symbol), After(producer, symbol, steps);
    MachineRunIsExact(producer, symbol, steps);
    assert steps[..|steps|] == steps;
    assert Run64(s0, steps) == s;
    InitSound(producer, symbol);
    assert MachineOk(s0);
    RunKeepsMachineOk(s0, steps);
    if ReachesWallet(s, step) && step.side == Buy {
      ReservationBackedExactly(s, step);
    }
  }

  // It is enough that every BUY's product fits.
  lemma {:induction false} FittingIsHarmless(s: State, steps: seq<Step>)
    requires AllFitting(steps)
    ensures AllInputs(steps) && HarmlessRun(s, steps)
    decreases |steps|
  {
    if steps != [] {
      FittingIsHarmless(Do(s, steps[0]), steps[1..]);
    }
  }

  // ----- The order that costs nothing -----

  // A valid BUY whose product wraps to zero.
  ghost predicate CostsNothing(o: Order) {
    o == NewOrder(o.id, o.userId, o.symbol, Buy, o.price, o.quantity) && o.Validate().None?
    && Reserved64(o) == 0 && o.quantity <= MAX_INT64
  }

  function UnbackedRun(o: Order): State {
    var s := Do64(Init("e", o.symbol), Seed(o.userId, 0, 0));
    Do64(Do64(Do64(s, Reserve(o.id, o.userId, o.side, o.price, o.quantity)), Enqueue(0)), Engine)
  }

  lemma AcceptedForNothing(o: Order)
    requires CostsNothing(o)
    ensures var s0 := Do64(Init("e", o.symbol), Seed(o.userId, 0, 0));
      var s := Do64(Do64(s0, Reserve(o.id, o.userId, o.side, o.price, o.quantity)), Enqueue(0));
      && s.queue == [PlaceCommand(o)] && s.book == EmptyBook(o.symbol) && s.reserved == [] && s.log == []
      && s.ledger == s0.ledger && s0.ledger.wallets == map[o.userId := Wallet(o.userId, 0, 0, 0, 0)]
  {
    var s0 := Do64(Init("e", o.symbol), Seed(o.userId, 0, 0));
    var s1 := Do64(s0, Reserve(o.id, o.userId, o.side, o.price, o.quantity));
    assert s1.ledger.wallets == s0.ledger.wallets;
    assert s1.reserved == [o];
  }

  lemma RestsAlone64(symbol: string, o: Order)
    requires CostsNothing(o)
    ensures var x := o.(sequence := 1, status := Open);
      Place64(EmptyBook(symbol), o) == Placed(Book(symbol, [x], [], 1, 0), x, [], 0)
  {
    var x := Accepted(EmptyBook(symbol), o);
    assert Match64(symbol, 0, x, [], 0) == Matched(x, [], [], 0);
    assert Insert(true, [], x) == [x];
  }

  // A user without funds gets it accepted, and it rests with nothing behind it.
  lemma UnbackedOrderRests(o: Order)
    requires CostsNothing(o)
    ensures var s := UnbackedRun(o);
      && s.book.bids == [o.(sequence := 1, status := Open)]
      && o.userId in s.ledger.wallets && s.ledger.wallets[o.userId].copLocked == 0
      && 0 < Due(COP, s.book.bids[0])
  {
    AcceptedForNothing(o);
    RestsAlone64(o.symbol, o);
    MulPositive(o.price, o.quantity);
  }

  lemma TwoToThe32CostsNothing()
    ensures CostsNothing(NewOrder("o", "u", "V", Buy, 0x1_0000_0000, 0x1_0000_0000))
  {
  }
}
