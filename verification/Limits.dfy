// Where the guarantees stop: what happens when one of their conditions is not
// met, and exactly when it is.

module Limits {
  import opened Domain
  import opened FlatBook
  import opened EventStream
  import opened Claims
  import opened Ledger
  import opened Pipeline
  import opened Reachability
  import opened Collateral
  import opened OrderLife
  import opened Theorems

  // ----- Compensation that comes too late -----

  // The caller gave up waiting for the engine's reply: the reservation is released
  // although the engine's channel took the order, which may by now be waiting,
  // resting, filled or cancelled.
  function LateRelease(s: State, o: Order): State {
    s.(ledger := s.ledger.(wallets := Updated(s.ledger.wallets, o.userId, ReleaseOp(o))))
  }

  // What the wallet still has locked of the asset the order reserved.
  function LockedFor(w: Wallet, o: Order): int { if o.side == Buy then w.copLocked else w.vibraniumLocked }

  function ReservedBy(o: Order): int { if o.side == Buy then o.ReservedCOP() else o.ReservedVibranium() }

  // It keeps collateral exact if and only if the wallet turns it down, because less
  // is locked there than the order had reserved.
  lemma LateReleaseExact(s: State, o: Order)
    requires Inv(s) && CollateralInv(s) && o.Validate().None? && o.userId in s.ledger.wallets
    ensures CollateralInv(LateRelease(s, o)) <==> LockedFor(s.ledger.wallets[o.userId], o) < ReservedBy(o)
  {
    var a := if o.side == Buy then COP else VIB;
    var k, s' := ByUser(o.userId), LateRelease(s, o);
    MulPositive(o.price, o.quantity);
    if LockedFor(s.ledger.wallets[o.userId], o) < ReservedBy(o) {
      assert s'.ledger == s.ledger;
    } else {
      assert Exact(s, a, o.userId);
      assert Claimed(s', a, k, s.ledger.journal) == Claimed(s, a, k, s.ledger.journal);
      assert !Exact(s', a, o.userId);
    }
  }

  // So it is for every order ever accepted, whatever has become of it.
  lemma LateReleaseInRun(producer: string, symbol: string, steps: seq<Step>, id: string)
    ensures var s := After(producer, symbol, steps);
      id in s.accepted ==>
        var o := s.accepted[id];
        && o.userId in s.ledger.wallets
        && (CollateralInv(LateRelease(s, o)) <==> LockedFor(s.ledger.wallets[o.userId], o) < ReservedBy(o))
  {
    var s := After(producer, symbol, steps);
    EveryRunSound(producer, symbol, steps);
    if id in s.accepted {
      assert AcceptedOk(id, s.accepted[id], s.ledger.wallets);
      LateReleaseExact(s, s.accepted[id]);
    }
  }

  // An order that still waits for the engine is fully backed, so releasing it is
  // never turned down.
  lemma LateReleaseUnbacks(s: State, o: Order)
    requires Inv(s) && CollateralInv(s) && o in Pending(s)
    ensures UpdateError(s.ledger.wallets, o.userId, ReleaseOp(o)).None?
    ensures !CollateralInv(LateRelease(s, o))
  {
    var a := if o.side == Buy then COP else VIB;
    WaitingClaimed(s, a, ByUser(o.userId), o);
    PendingWithin(s, a, ByUser(o.userId), s.ledger.journal, o);
    assert Waiting(s, o) && Exact(s, a, o.userId);
    LateReleaseExact(s, o);
  }

  // A run in which it happens: a one-unit BUY is released late, rests, and then a
  // one-unit SELL of somebody else trades with it.
  function BuyReleasedLate(buy: Order, sell: Order): State {
    var s0 := DoSeed(DoSeed(Init("e", buy.symbol), buy.userId, buy.price, 0), sell.userId, 0, 1);
    DoEngine(LateRelease(DoEnqueue(DoReserve(s0, buy), 0), buy))
  }

  function SellComes(s: State, sell: Order): State {
    DoEngine(DoEnqueue(DoReserve(s, sell), 0))
  }

  ghost predicate OneUnitEach(buy: Order, sell: Order) {
    && buy == NewOrder(buy.id, buy.userId, buy.symbol, Buy, buy.price, 1) && buy.Validate().None?
    && sell == NewOrder(sell.id, sell.userId, buy.symbol, Sell, buy.price, 1) && sell.Validate().None?
    && buy.id != sell.id && buy.userId != sell.userId
  }

  lemma RestsAlone(symbol: string, o: Order)
    requires o.side == Buy && o.Validate().None? && o.filled == 0
    ensures var x := o.(sequence := 1, status := Open);
      Place(EmptyBook(symbol), o) == Placed(Book(symbol, [x], [], 1, 0), x, [], 0)
  {
    var x := Accepted(EmptyBook(symbol), o);
    assert Match(symbol, 0, x, []) == Matched(x, [], [], 0);
    assert Insert(true, [], x) == [x];
  }

  // Two orders that want the same quantity use each other up.
  lemma MatchesWhole(symbol: string, tradeSeq: nat, taker: Order, maker: Order)
    requires CanFill(taker, [maker]) && taker.Remaining() == maker.Remaining()
    ensures var q := taker.Remaining();
      var m := Match(symbol, tradeSeq, taker, [maker]);
      m.taker == TakerAfter(taker, q)
      && m.fills == [Fill(TradeOf(symbol, tradeSeq + 1, taker, maker, q), MakerAfter(maker, q))]
  {
    var q := taker.Remaining();
    assert AfterHit([maker], q) == [];
    assert Match(symbol, tradeSeq + 1, TakerAfter(taker, q), []).fills == [];
  }

  // The BUY rests, and its owner's funds are free again.
  ghost predicate RestsUnbacked(s: State, buy: Order, sell: Order) {
    && s.ledger.wallets == map[buy.userId := Wallet(buy.userId, buy.price, 0, 0, 0),
                               sell.userId := Wallet(sell.userId, 0, 0, 1, 0)]
    && s.book == Book(buy.symbol, [buy.(sequence := 1, status := Open)], [], 1, 0)
    && |s.log| == 1 && s.queue == [] && s.reserved == [] && s.accepted == map[buy.id := buy] && s.producer == "e"
    && s.ledger.journal == {}
  }

  lemma FirstHalf(buy: Order, sell: Order)
    requires OneUnitEach(buy, sell)
    ensures RestsUnbacked(BuyReleasedLate(buy, sell), buy, sell)
  {
    LateAndQueued(buy, sell);
    RestsAlone(buy.symbol, buy);
  }

  lemma LateAndQueued(buy: Order, sell: Order)
    requires OneUnitEach(buy, sell)
    ensures var s0 := DoSeed(DoSeed(Init("e", buy.symbol), buy.userId, buy.price, 0), sell.userId, 0, 1);
      var s := LateRelease(DoEnqueue(DoReserve(s0, buy), 0), buy);
      && s.ledger.wallets == map[buy.userId := Wallet(buy.userId, buy.price, 0, 0, 0),
                                 sell.userId := Wallet(sell.userId, 0, 0, 1, 0)]
      && s.queue == [PlaceCommand(buy)] && s.reserved == [] && s.accepted == map[buy.id := buy]
      && s.book == EmptyBook(buy.symbol) && s.log == [] && s.ledger.journal == {} && s.producer == "e"
  {
    var s0 := DoSeed(DoSeed(Init("e", buy.symbol), buy.userId, buy.price, 0), sell.userId, 0, 1);
    var s1 := DoReserve(s0, buy);
    assert s1.ledger.wallets[buy.userId] == Wallet(buy.userId, 0, buy.price, 0, 0);
    var s2 := LateRelease(DoEnqueue(s1, 0), buy);
    assert s2.ledger.wallets == s0.ledger.wallets && s2.queue == [PlaceCommand(buy)] && s2.reserved == [];
  }

  lemma SecondHalf(s: State, buy: Order, sell: Order) returns (t: Trade)
    requires OneUnitEach(buy, sell) && RestsUnbacked(s, buy, sell)
    ensures var s' := SellComes(s, sell);
      && |s'.log| == 4 && s'.log[1] == Stamp("e", 2, TradeOnly(t)) && s'.ledger.journal == {}
      && s'.ledger.wallets == map[buy.userId := Wallet(buy.userId, buy.price, 0, 0, 0),
                                  sell.userId := Wallet(sell.userId, 0, 0, 0, 1)]
    ensures t.buyerId == buy.userId && t.sellerId == sell.userId && t.price == buy.price && t.quantity == 1
  {
    var s2 := DoEnqueue(DoReserve(s, sell), 0);
    assert s2.ledger.wallets[sell.userId] == Wallet(sell.userId, 0, 0, 0, 1);
    assert s2.queue == [PlaceCommand(sell)];
    var maker, taker := s.book.bids[0], Accepted(s.book, sell);
    MatchesWhole(buy.symbol, 0, taker, maker);
    t := TradeOf(buy.symbol, 1, taker, maker, 1);
    SecondEvents(s.book, sell, t);
  }

  lemma SecondEvents(b: Book, sell: Order, t: Trade)
    requires sell.side == Sell
    requires var m := Match(b.symbol, b.tradeSeq, Accepted(b, sell), b.bids);
      |m.fills| == 1 && m.fills[0].trade == t
    ensures |PlaceEvents(Place(b, sell))| == 3 && PlaceEvents(Place(b, sell))[0] == TradeOnly(t)
  {
    var fills := Match(b.symbol, b.tradeSeq, Accepted(b, sell), b.bids).fills;
    assert fills[1..] == [] && FillEvents(fills) == [TradeOnly(t), Update(fills[0].maker, 0, 0)] + FillEvents([]);
  }

  // The trade then settles for the seller only: money comes from nothing.
  lemma LateReleaseCreatesMoney(buy: Order, sell: Order)
    requires OneUnitEach(buy, sell)
    ensures var s := SellComes(BuyReleasedLate(buy, sell), sell);
      && |s.log| == 4 && !SettlesCleanly(s.ledger.wallets, s.log[1])
      && Supply(COP, DoDeliver(s, 1).ledger.wallets) == Supply(COP, s.ledger.wallets) + buy.price
  {
    FirstHalf(buy, sell);
    var t := SecondHalf(BuyReleasedLate(buy, sell), buy, sell);
    var s := SellComes(BuyReleasedLate(buy, sell), sell);
    OnlySellerSettles(s.ledger.wallets, s.log[1], t);
    assert DoDeliver(s, 1).ledger.wallets == Money(s.ledger.wallets, s.log[1]);
  }

  lemma OnlySellerSettles(ws: Wallets, e: Event, t: Trade)
    requires e.kind == TradeEvent && e.trade == Some(t) && 0 < t.Notional() && 0 < t.quantity && t.buyerId != t.sellerId
    requires t.buyerId in ws && ws[t.buyerId].copLocked == 0
    requires t.sellerId in ws && ws[t.sellerId].vibraniumLocked == t.quantity
    ensures !SettlesCleanly(ws, e) && Supply(COP, Money(ws, e)) == Supply(COP, ws) + t.Notional()
  {
    TradeMovesSupply(ws, t);
  }

  lemma MoneyFromNothing()
    ensures var buy, sell := NewOrder("b", "buyer", "V", Buy, 10, 1), NewOrder("s", "seller", "V", Sell, 10, 1);
      var s := SellComes(BuyReleasedLate(buy, sell), sell);
      Supply(COP, DoDeliver(s, 1).ledger.wallets) == Supply(COP, s.ledger.wallets) + 10
  {
    LateReleaseCreatesMoney(NewOrder("b", "buyer", "V", Buy, 10, 1), NewOrder("s", "seller", "V", Sell, 10, 1));
  }

  // ----- Two legs -----

  function LegApplied(err: Option<Error>, amount: int): int { if err.None? then amount else 0 }

  // Each leg of a trade applies on its own, so supply moves by whatever one leg
  // did and the other did not.
  lemma TradeMovesSupply(ws: Wallets, t: Trade)
    ensures var op, n := SettleBuy(t.Notional(), t.quantity), t.Notional();
      var ws1 := Updated(ws, t.buyerId, op);
      var buy, sell := UpdateError(ws, t.buyerId, op), UpdateError(ws1, t.sellerId, SettleSell(t.quantity, n));
      && Supply(COP, TradeMoney(ws, t)) == Supply(COP, ws) + LegApplied(sell, n) - LegApplied(buy, n)
      && Supply(VIB, TradeMoney(ws, t)) == Supply(VIB, ws) + LegApplied(buy, t.quantity) - LegApplied(sell, t.quantity)
  {
    var op, op' := SettleBuy(t.Notional(), t.quantity), SettleSell(t.quantity, t.Notional());
    UpdateMovesSupply(COP, ws, t.buyerId, op);
    UpdateMovesSupply(VIB, ws, t.buyerId, op);
    UpdateMovesSupply(COP, Updated(ws, t.buyerId, op), t.sellerId, op');
    UpdateMovesSupply(VIB, Updated(ws, t.buyerId, op), t.sellerId, op');
  }

  // A trade between wallet owners keeps the money supply if and only if its legs
  // succeed or fail together, or it moves no money.
  lemma TradeKeepsSupplyExactly(ws: Wallets, t: Trade)
    ensures var op := SettleBuy(t.Notional(), t.quantity);
      var buy, sell := UpdateError(ws, t.buyerId, op),
                       UpdateError(Updated(ws, t.buyerId, op), t.sellerId, SettleSell(t.quantity, t.Notional()));
      Supply(COP, TradeMoney(ws, t)) == Supply(COP, ws) <==> buy.None? == sell.None? || t.Notional() == 0
  {
    TradeMovesSupply(ws, t);
  }

  // ----- Seeding a wallet that exists -----

  // What the service does: the wallet is replaced and nothing is locked any more.
  function Reseed(s: State, user: string, cop: int, vibranium: int): State {
    s.(ledger := s.ledger.(wallets := s.ledger.wallets[user := Wallet(user, cop, 0, vibranium, 0)]))
  }

  // It keeps collateral exact if and only if the user has nothing locked.
  lemma ReseedExact(s: State, user: string, cop: int, vibranium: int)
    requires Inv(s) && CollateralInv(s) && user in s.ledger.wallets && 0 <= cop && 0 <= vibranium
    ensures CollateralInv(Reseed(s, user, cop, vibranium)) <==>
        s.ledger.wallets[user].copLocked == 0 && s.ledger.wallets[user].vibraniumLocked == 0
  {
    var s' := Reseed(s, user, cop, vibranium);
    forall a, u | u in s.ledger.wallets
      ensures Exact(s, a, u) && 0 <= Available(a, s.ledger.wallets[u])
      ensures Claimed(s', a, ByUser(u), s'.ledger.journal) == Claimed(s, a, ByUser(u), s.ledger.journal)
    {
    }
    assert Exact(s', COP, user) <==> Locked(COP, s.ledger.wallets[user]) == 0;
    assert Exact(s', VIB, user) <==> Locked(VIB, s.ledger.wallets[user]) == 0;
    if s.ledger.wallets[user].copLocked == 0 && s.ledger.wallets[user].vibraniumLocked == 0 {
      forall a, u | u in s'.ledger.wallets
        ensures Exact(s', a, u) && 0 <= Available(a, s'.ledger.wallets[u])
      {
        assert u != user ==> Exact(s, a, u);
        if u == user { assert a == COP || a == VIB; }
      }
    }
  }

  // So it is in every state of every run.
  lemma ReseedInRun(producer: string, symbol: string, steps: seq<Step>, user: string, cop: int, vibranium: int)
    requires 0 <= cop && 0 <= vibranium
    ensures var s := After(producer, symbol, steps);
      user in s.ledger.wallets ==>
        (CollateralInv(Reseed(s, user, cop, vibranium)) <==>
           s.ledger.wallets[user].copLocked == 0 && s.ledger.wallets[user].vibraniumLocked == 0)
  {
    var s := After(producer, symbol, steps);
    EveryRunSound(producer, symbol, steps);
    if user in s.ledger.wallets { ReseedExact(s, user, cop, vibranium); }
  }

  // A user who has all funds behind one BUY.
  function Backs(o: Order): seq<Step> {
    [Seed(o.userId, o.ReservedCOP(), 0), Reserve(o.id, o.userId, o.side, o.price, o.quantity)]
  }

  lemma AllIsLocked(o: Order)
    requires o == NewOrder(o.id, o.userId, o.symbol, Buy, o.price, o.quantity) && o.Validate().None?
    ensures After("e", o.symbol, Backs(o)).ledger.wallets
         == map[o.userId := Wallet(o.userId, 0, o.ReservedCOP(), 0, 0)]
  {
    MulPositive(o.price, o.quantity);
    var s1 := DoSeed(Init("e", o.symbol), o.userId, o.ReservedCOP(), 0);
    var reserve := Reserve(o.id, o.userId, o.side, o.price, o.quantity);
    assert Backs(o)[1..] == [reserve] && [reserve][1..] == [];
    assert Run(s1, [reserve]) == Run(DoReserve(s1, o), []);
    assert After("e", o.symbol, Backs(o)) == Run(s1, [reserve]);
  }

  // Seeding the user again then leaves the waiting BUY with nothing behind it.
  lemma ReseedUnbacks(o: Order, cop: int, vibranium: int)
    requires o == NewOrder(o.id, o.userId, o.symbol, Buy, o.price, o.quantity) && o.Validate().None?
    requires 0 <= cop && 0 <= vibranium
    ensures !CollateralInv(Reseed(After("e", o.symbol, Backs(o)), o.userId, cop, vibranium))
  {
    AllIsLocked(o);
    MulPositive(o.price, o.quantity);
    ReseedInRun("e", o.symbol, Backs(o), o.userId, cop, vibranium);
  }
}
