// The run in which 64-bit arithmetic goes wrong between two wallet updates: halfway
// through a trade with oneself, the owner locks more than fits.

module SelfTrades {
  import opened Domain
  import opened FlatBook
  import opened Matching
  import opened EventStream
  import opened Claims
  import opened Ledger
  import opened Pipeline
  import opened Int64Bounds
  import opened Machine
  import opened Grain
  import opened FineMachine
  import opened Limits

  // A user seeded with q COP and v Vibranium, whose own SELL of q units at price 1
  // meets the user's own BUY.
  datatype Scenario = Scenario(user: string, symbol: string, q: int, v: int) {
    predicate Valid() { user != "" && symbol != "" && 0 < q <= v <= MAX_INT64 }

    function Buys(): Order { NewOrder("b", user, symbol, Buy, 1, q) }

    function Offers(): Order { NewOrder("s", user, symbol, Sell, 1, q) }

    function Resting(): Order { Buys().(sequence := 1, status := Open) }
  }

  // A step of the exact machine or of the 64-bit one.
  function DoIn(machine: bool, f: Fine, step: FineStep): Fine {
    if machine then DoFine64(f, step) else DoFine(f, step)
  }

  // An order is accepted, reaches the engine and is matched, and its first event is
  // published.
  function Comes(machine: bool, f: Fine, o: Order): Fine {
    DoIn(machine, DoIn(machine, Waits(machine, f, o), Take), Emit)
  }

  function Waits(machine: bool, f: Fine, o: Order): Fine {
    DoIn(machine, DoIn(machine, f, Coarse(Reserve(o.id, o.userId, o.side, o.price, o.quantity))), Coarse(Enqueue(0)))
  }

  function Seeded(machine: bool, x: Scenario): Fine {
    DoIn(machine, FineInit("e", x.symbol), Coarse(Seed(x.user, x.q, x.v)))
  }

  // The first leg of the trade is through, the second is not.
  function Between(machine: bool, x: Scenario): Fine {
    var f := Comes(machine, Comes(machine, Seeded(machine, x), x.Buys()), x.Offers());
    DoIn(machine, DoIn(machine, f, Begin(1)), OneLeg)
  }

  // What the steps below look at.
  ghost predicate At(f: Fine, w: Wallet, queue: seq<Command>, book: Book, used: set<string>) {
    && f.s.ledger.wallets == map[w.userId := w] && f.s.queue == queue && f.s.book == book
    && f.s.reserved == [] && f.s.accepted.Keys == used && f.s.producer == "e"
    && f.s.ledger.journal == {} && f.event.None? && f.rest == [] && f.outbox == []
  }

  lemma OrderWaits(machine: bool, f: Fine, o: Order, w: Wallet, book: Book, used: set<string>)
    requires At(f, w, [], book, used) && o.id !in used && w.userId == o.userId && WalletFits(w)
    requires o == NewOrder(o.id, o.userId, book.symbol, o.side, 1, o.quantity) && o.Validate().None?
    requires Check(w, ReserveOp(o)).None? && WalletFits(Moved(w, ReserveOp(o))) && o.quantity <= MAX_INT64
    ensures At(Waits(machine, f, o), Moved(w, ReserveOp(o)), [PlaceCommand(o)], book, used + {o.id})
    ensures Waits(machine, f, o).s.log == f.s.log && Waits(machine, f, o).s.seeds == f.s.seeds
  {
    var f1 := DoIn(machine, f, Coarse(Reserve(o.id, o.userId, o.side, o.price, o.quantity)));
    FitsIsExact(o.quantity);
    assert ReserveOp64(o) == ReserveOp(o);
    UpdatedExact(f.s.ledger.wallets, o.userId, ReserveOp(o));
    assert f1.s.reserved == [o] && f1.s.ledger.wallets == map[w.userId := Moved(w, ReserveOp(o))];
  }

  lemma SmallScenario(x: Scenario)
    requires x.Valid()
    ensures SmallOrder(x.Buys()) && SmallOrder(x.Offers()) && SmallOrder(x.Resting()) && Tradable([x.Resting()])
    ensures x.Buys().Validate().None? && x.Offers().Validate().None?
  {
  }

  // The engine takes an order it treats exactly.
  lemma Taken(machine: bool, f: Fine, o: Order, w: Wallet, book: Book, used: set<string>)
    requires At(f, w, [PlaceCommand(o)], book, used) && Place64(book, o) == Place(book, o)
    requires PlaceEvents(Place(book, o)) != []
    ensures var f', events := DoIn(machine, DoIn(machine, f, Take), Emit), PlaceEvents(Place(book, o));
      && f'.s == f.s.(queue := [], book := Place(book, o).book, log := Publish("e", f.s.log, [events[0]]))
      && f'.outbox == events[1..] && f'.event.None? && f'.rest == []
  {
  }

  lemma BuyRests(machine: bool, x: Scenario, f: Fine, w: Wallet)
    requires x.Valid() && At(f, w, [PlaceCommand(x.Buys())], EmptyBook(x.symbol), {"b"}) && f.s.log == []
    ensures var f' := DoIn(machine, DoIn(machine, f, Take), Emit);
      At(f', w, [], Book(x.symbol, [x.Resting()], [], 1, 0), {"b"}) && |f'.s.log| == 1
  {
    SmallScenario(x);
    RestsAlone(x.symbol, x.Buys());
    PlaceExact(EmptyBook(x.symbol), x.Buys());
    Taken(machine, f, x.Buys(), w, EmptyBook(x.symbol), {"b"});
  }

  function TheTrade(x: Scenario): Trade {
    var b := Book(x.symbol, [x.Resting()], [], 1, 0);
    TradeOf(x.symbol, 1, Accepted(b, x.Offers()), x.Resting(), x.q)
  }

  lemma OwnOrdersMatch(x: Scenario)
    requires x.Valid()
    ensures var b := Book(x.symbol, [x.Resting()], [], 1, 0);
      && Place64(b, x.Offers()) == Place(b, x.Offers()) && Place(b, x.Offers()).book.symbol == x.symbol
      && |PlaceEvents(Place(b, x.Offers()))| == 3
      && PlaceEvents(Place(b, x.Offers()))[0] == TradeOnly(TheTrade(x))
  {
    var b := Book(x.symbol, [x.Resting()], [], 1, 0);
    SmallScenario(x);
    MatchesWhole(x.symbol, 0, Accepted(b, x.Offers()), x.Resting());
    SecondEvents(b, x.Offers(), TheTrade(x));
    SellerIsRefundedNothing(x.symbol, 0, Accepted(b, x.Offers()), [x.Resting()]);
    PlaceExact(b, x.Offers());
  }

  lemma {:induction false} SellerIsRefundedNothing(symbol: string, tradeSeq: nat, taker: Order, flat: seq<Order>)
    requires taker.side != Buy
    ensures Match(symbol, tradeSeq, taker, flat).refund == 0
    decreases |flat|, taker.Remaining() > 0
  {
    if CanFill(taker, flat) {
      var qty := FillQuantity(taker, flat[0]);
      SellerIsRefundedNothing(symbol, tradeSeq + 1, TakerAfter(taker, qty), AfterHit(flat, qty));
    }
  }

  lemma SellMatches(machine: bool, x: Scenario, f: Fine, w: Wallet)
    requires x.Valid() && |f.s.log| == 1
    requires At(f, w, [PlaceCommand(x.Offers())], Book(x.symbol, [x.Resting()], [], 1, 0), {"b", "s"})
    ensures var f' := DoIn(machine, DoIn(machine, f, Take), Emit);
      && f'.s.ledger == f.s.ledger && f'.s.accepted == f.s.accepted && f'.s.book.symbol == x.symbol
      && f'.s.seeds == f.s.seeds && |f'.s.log| == 2 && f'.s.log[1] == Stamp("e", 2, TradeOnly(TheTrade(x)))
      && f'.event.None? && f'.rest == []
  {
    var b := Book(x.symbol, [x.Resting()], [], 1, 0);
    OwnOrdersMatch(x);
    Taken(machine, f, x.Offers(), w, b, {"b", "s"});
  }

  // Halfway through it, the user has v units available again and q still locked.
  ghost predicate Halfways(f: Fine, x: Scenario) {
    && f.s.ledger.wallets == map[x.user := Wallet(x.user, 0, 0, x.v, x.q)]
    && f.rest == [Leg(x.user, SettleSell(x.q, x.q))] && "x" !in f.s.accepted && f.s.book.symbol == x.symbol
  }

  lemma FirstLegDone(machine: bool, x: Scenario, f: Fine)
    requires x.Valid() && Traded(f, x)
    ensures Halfways(DoIn(machine, DoIn(machine, f, Begin(1)), OneLeg), x)
  {
    var t, f1 := TheTrade(x), DoIn(machine, f, Begin(1));
    FitsIsExact(t.price * t.quantity);
    assert t.price == 1 && t.Notional() == x.q;
    assert f1.rest == [Leg(x.user, SettleBuy(x.q, x.q)), Leg(x.user, SettleSell(x.q, x.q))];
    UpdatedExact(f1.s.ledger.wallets, x.user, SettleBuy(x.q, x.q));
    assert f1.rest[1..] == [Leg(x.user, SettleSell(x.q, x.q))];
  }

  lemma FirstCome(machine: bool, x: Scenario, f: Fine)
    requires x.Valid() && At(f, Wallet(x.user, x.q, 0, x.v, 0), [], EmptyBook(x.symbol), {}) && f.s.log == []
    ensures var f' := Comes(machine, f, x.Buys());
      && At(f', Wallet(x.user, 0, x.q, x.v, 0), [], Book(x.symbol, [x.Resting()], [], 1, 0), {"b"})
      && |f'.s.log| == 1
  {
    SmallScenario(x);
    OrderWaits(machine, f, x.Buys(), Wallet(x.user, x.q, 0, x.v, 0), EmptyBook(x.symbol), {});
    BuyRests(machine, x, Waits(machine, f, x.Buys()), Wallet(x.user, 0, x.q, x.v, 0));
  }

  // Both orders are in, and the trade between them is published.
  ghost predicate Traded(f: Fine, x: Scenario) {
    && f.s.ledger.wallets == map[x.user := Wallet(x.user, 0, x.q, x.v - x.q, x.q)]
    && |f.s.log| == 2 && f.s.log[1] == Stamp("e", 2, TradeOnly(TheTrade(x)))
    && f.event.None? && f.rest == [] && f.s.ledger.journal == {}
    && "x" !in f.s.accepted && f.s.book.symbol == x.symbol
  }

  lemma OfferWaits(machine: bool, x: Scenario, f: Fine)
    requires x.Valid() && |f.s.log| == 1
    requires At(f, Wallet(x.user, 0, x.q, x.v, 0), [], Book(x.symbol, [x.Resting()], [], 1, 0), {"b"})
    ensures var f', b := Waits(machine, f, x.Offers()), Book(x.symbol, [x.Resting()], [], 1, 0);
      && At(f', Wallet(x.user, 0, x.q, x.v - x.q, x.q), [PlaceCommand(x.Offers())], b, {"b", "s"})
      && |f'.s.log| == 1
  {
    SmallScenario(x);
    OrderWaits(machine, f, x.Offers(), Wallet(x.user, 0, x.q, x.v, 0), Book(x.symbol, [x.Resting()], [], 1, 0), {"b"});
    assert {"b"} + {"s"} == {"b", "s"};
  }

  lemma ThenComes(machine: bool, x: Scenario, f: Fine)
    requires x.Valid() && |f.s.log| == 1
    requires At(f, Wallet(x.user, 0, x.q, x.v, 0), [], Book(x.symbol, [x.Resting()], [], 1, 0), {"b"})
    ensures Traded(Comes(machine, f, x.Offers()), x)
  {
    OfferWaits(machine, x, f);
    SellMatches(machine, x, Waits(machine, f, x.Offers()), Wallet(x.user, 0, x.q, x.v - x.q, x.q));
  }

  lemma SeededAt(machine: bool, x: Scenario)
    requires x.Valid()
    ensures var f := Seeded(machine, x);
      At(f, Wallet(x.user, x.q, 0, x.v, 0), [], EmptyBook(x.symbol), {}) && f.s.log == []
  {
  }

  // Both machines come there.
  lemma BothComeHalfway(machine: bool, x: Scenario)
    requires x.Valid()
    ensures Halfways(Between(machine, x), x)
  {
    var f := Seeded(machine, x);
    SeededAt(machine, x);
    FirstCome(machine, x, f);
    ThenComes(machine, x, Comes(machine, f, x.Buys()));
    FirstLegDone(machine, x, Comes(machine, Comes(machine, f, x.Buys()), x.Offers()));
  }

  lemma OnlySeedingSeeds(machine: bool, f: Fine, step: FineStep)
    requires !Seeds(step)
    ensures DoIn(machine, f, step).s.seeds == f.s.seeds
  {
  }

  lemma ComingSeedsNothing(machine: bool, f: Fine, o: Order)
    ensures Comes(machine, f, o).s.seeds == f.s.seeds
  {
    var reserve := Coarse(Reserve(o.id, o.userId, o.side, o.price, o.quantity));
    var f1 := DoIn(machine, f, reserve);
    var f2 := DoIn(machine, f1, Coarse(Enqueue(0)));
    OnlySeedingSeeds(machine, f, reserve);
    OnlySeedingSeeds(machine, f1, Coarse(Enqueue(0)));
    OnlySeedingSeeds(machine, f2, Take);
    OnlySeedingSeeds(machine, DoIn(machine, f2, Take), Emit);
  }

  lemma SeedsOf(machine: bool, x: Scenario)
    requires x.Valid()
    ensures Supply(COP, Between(machine, x).s.seeds) == x.q
  {
    var f := Seeded(machine, x);
    var f1 := Comes(machine, f, x.Buys());
    var f2 := Comes(machine, f1, x.Offers());
    ComingSeedsNothing(machine, f, x.Buys());
    ComingSeedsNothing(machine, f1, x.Offers());
    OnlySeedingSeeds(machine, f2, Begin(1));
    OnlySeedingSeeds(machine, DoIn(machine, f2, Begin(1)), OneLeg);
    SeedSupply(x, f.s.seeds);
  }

  lemma SeedSupply(x: Scenario, seeds: Wallets)
    requires seeds == map[x.user := Wallet(x.user, x.q, 0, x.v, 0)]
    ensures Supply(COP, seeds) == x.q
  {
    SupplyWithout(COP, seeds, x.user);
    assert seeds - {x.user} == map[];
  }

  function VibraniumLocked(f: Fine, user: string): int {
    if user in f.s.ledger.wallets then f.s.ledger.wallets[user].vibraniumLocked else 0
  }

  // Exactly counted, more is then locked than fits; in 64 bits the sum is negative,
  // the seller's leg is refused, and the COP that the buyer's leg has spent is gone.
  ghost predicate Strays(x: Scenario, exact: Fine, machine: Fine) {
    && VibraniumLocked(exact, x.user) == x.v + x.q
    && VibraniumLocked(machine, x.user) < 0
    && machine.rest != []
    && UpdateError(machine.s.ledger.wallets, machine.rest[0].user, machine.rest[0].op) == Some(ErrInsufficientLocked)
    && Supply(COP, machine.s.seeds) == x.q && Supply(COP, DoFine64(machine, OneLeg).s.ledger.wallets) == 0
  }

  lemma AllIsSold(x: Scenario, f: Fine)
    requires x.Valid() && Halfways(f, x)
    ensures var w, step := Wallet(x.user, 0, 0, x.v, x.q), SellOf("x", x.user, 1, x.v);
      && DoFine(f, step).s.ledger.wallets == map[x.user := Moved(w, ReserveVibranium(x.v))]
      && DoFine64(f, step).s.ledger.wallets == map[x.user := Moved64(w, ReserveVibranium(x.v))]
      && DoFine64(f, step).rest == f.rest
  {
  }

  lemma LegIsRefused(x: Scenario, f: Fine)
    requires x.Valid() && x.v + x.q > MAX_INT64 && f.rest == [Leg(x.user, SettleSell(x.q, x.q))]
    requires f.s.ledger.wallets == map[x.user := Moved64(Wallet(x.user, 0, 0, x.v, x.q), ReserveVibranium(x.v))]
    ensures VibraniumLocked(f, x.user) < 0
    ensures UpdateError(f.s.ledger.wallets, x.user, f.rest[0].op) == Some(ErrInsufficientLocked)
    ensures Supply(COP, DoFine64(f, OneLeg).s.ledger.wallets) == 0
  {
    var ws := f.s.ledger.wallets;
    assert DoFine64(f, OneLeg).s.ledger.wallets == ws;
    SupplyWithout(COP, ws, x.user);
    assert ws - {x.user} == map[];
  }

  lemma StraysHere(x: Scenario, f: Fine, g: Fine)
    requires x.Valid() && x.v + x.q > MAX_INT64 && Halfways(f, x) && Halfways(g, x)
    requires Supply(COP, g.s.seeds) == x.q
    ensures var step := SellOf("x", x.user, 1, x.v); Strays(x, DoFine(f, step), DoFine64(g, step))
  {
    AllIsSold(x, f);
    AllIsSold(x, g);
    OnlySeedingSeeds(true, g, SellOf("x", x.user, 1, x.v));
    LegIsRefused(x, DoFine64(g, SellOf("x", x.user, 1, x.v)));
  }

  // Whenever seed and quantity together do not fit, a SELL of all that is available
  // halfway through the self-trade sends the machine astray.
  lemma SelfTradeStrays(x: Scenario)
    requires x.Valid() && x.v + x.q > MAX_INT64
    ensures var step := SellOf("x", x.user, 1, x.v);
      Strays(x, DoFine(Between(false, x), step), DoFine64(Between(true, x), step))
  {
    BothComeHalfway(false, x);
    BothComeHalfway(true, x);
    SeedsOf(true, x);
    StraysHere(x, Between(false, x), Between(true, x));
  }

  // One COP, and as many units as fit.
  lemma OneCopIsLost()
    ensures var x, step := Scenario("u", "V", 1, MAX_INT64), SellOf("x", "u", 1, MAX_INT64);
      Strays(x, DoFine(Between(false, x), step), DoFine64(Between(true, x), step))
  {
    SelfTradeStrays(Scenario("u", "V", 1, MAX_INT64));
  }
}
