// Wallets and the settlement ledger as values: what each wallet operation and
// each settled event does to balances, trade history, order projection and the
// idempotency journal. Stores.dfy and Settlement.dfy prove that the stores and
// the settlement service, which update their state in place, compute these.

module Ledger {
  import opened Domain
  import opened Claims

  datatype Wallet = Wallet(
    userId: string,
    copAvailable: int,
    copLocked: int,
    vibraniumAvailable: int,
    vibraniumLocked: int)
  {
    function TotalCOP(): int { copAvailable + copLocked }
    function TotalVibranium(): int { vibraniumAvailable + vibraniumLocked }
  }

  // The mutations a caller hands to the wallet store as a closure.
  datatype WalletOp =
    | ReserveCOP(amount: int)
    | ReserveVibranium(amount: int)
    | ReleaseCOP(amount: int)
    | ReleaseVibranium(amount: int)
    | SettleBuy(spent: int, vibranium: int)
    | SettleSell(vibranium: int, received: int)

  function Check(w: Wallet, op: WalletOp): Option<Error> {
    match op
    case ReserveCOP(n) =>
      if n < 0 then Some(ErrNegativeAmount) else if w.copAvailable < n then Some(ErrInsufficientCOP) else None
    case ReserveVibranium(n) =>
      if n < 0 then Some(ErrNegativeAmount)
      else if w.vibraniumAvailable < n then Some(ErrInsufficientVibranium)
      else None
    case ReleaseCOP(n) =>
      if n < 0 then Some(ErrNegativeAmount) else if w.copLocked < n then Some(ErrInsufficientLocked) else None
    case ReleaseVibranium(n) =>
      if n < 0 then Some(ErrNegativeAmount) else if w.vibraniumLocked < n then Some(ErrInsufficientLocked) else None
    case SettleBuy(c, v) =>
      if c < 0 || v < 0 then Some(ErrNegativeAmount) else if w.copLocked < c then Some(ErrInsufficientLocked) else None
    case SettleSell(v, c) =>
      if v < 0 || c < 0 then Some(ErrNegativeAmount)
      else if w.vibraniumLocked < v then Some(ErrInsufficientLocked)
      else None
  }

  function Moved(w: Wallet, op: WalletOp): Wallet {
    match op
    case ReserveCOP(n) => w.(copAvailable := w.copAvailable - n, copLocked := w.copLocked + n)
    case ReserveVibranium(n) =>
      w.(vibraniumAvailable := w.vibraniumAvailable - n, vibraniumLocked := w.vibraniumLocked + n)
    case ReleaseCOP(n) => w.(copLocked := w.copLocked - n, copAvailable := w.copAvailable + n)
    case ReleaseVibranium(n) =>
      w.(vibraniumLocked := w.vibraniumLocked - n, vibraniumAvailable := w.vibraniumAvailable + n)
    case SettleBuy(c, v) => w.(copLocked := w.copLocked - c, vibraniumAvailable := w.vibraniumAvailable + v)
    case SettleSell(v, c) => w.(vibraniumLocked := w.vibraniumLocked - v, copAvailable := w.copAvailable + c)
  }

  // What a mutation adds to its wallet's total of an asset.
  function Brings(a: Asset, op: WalletOp): int {
    match op
    case SettleBuy(c, v) => if a == COP then -c else v
    case SettleSell(v, c) => if a == COP then c else -v
    case _ => 0
  }

  // What it takes from what is locked there.
  function Unlocks(a: Asset, op: WalletOp): int {
    match op
    case ReserveCOP(n) => if a == COP then -n else 0
    case ReserveVibranium(n) => if a == VIB then -n else 0
    case ReleaseCOP(n) => if a == COP then n else 0
    case ReleaseVibranium(n) => if a == VIB then n else 0
    case SettleBuy(c, v) => if a == COP then c else 0
    case SettleSell(v, c) => if a == VIB then v else 0
  }

  type Wallets = map<string, Wallet>

  function UpdateError(ws: Wallets, user: string, op: WalletOp): Option<Error> {
    if user !in ws then Some(ErrWalletNotFound) else Check(ws[user], op)
  }

  // An update either applies in full or leaves the store as it was.
  function Updated(ws: Wallets, user: string, op: WalletOp): Wallets {
    if UpdateError(ws, user, op).Some? then ws else ws[user := Moved(ws[user], op)]
  }

  // ----- Settling one event -----

  datatype Ledger = Ledger(
    journal: set<string>,
    wallets: Wallets,
    trades: seq<Trade>,
    orders: map<string, Order>)

  function EmptyLedger(): Ledger { Ledger({}, map[], [], map[]) }

  // Both legs are attempted whatever the other one returned.
  function TradeMoney(ws: Wallets, t: Trade): Wallets {
    Updated(Updated(ws, t.buyerId, SettleBuy(t.Notional(), t.quantity)),
            t.sellerId, SettleSell(t.quantity, t.Notional()))
  }

  function ReleaseMoney(ws: Wallets, user: string, releaseCOP: int, releaseVibranium: int): Wallets {
    var ws1 := if releaseCOP > 0 then Updated(ws, user, ReleaseCOP(releaseCOP)) else ws;
    if releaseVibranium > 0 then Updated(ws1, user, ReleaseVibranium(releaseVibranium)) else ws1
  }

  function Money(ws: Wallets, e: Event): Wallets {
    if e.kind == TradeEvent && e.trade.Some? then TradeMoney(ws, e.trade.value)
    else if e.kind == OrderUpdated && e.order.Some? then
      ReleaseMoney(ws, e.order.value.userId, e.releaseCOP, e.releaseVibranium)
    else ws
  }

  function Recorded(trades: seq<Trade>, e: Event): seq<Trade> {
    if e.kind == TradeEvent && e.trade.Some? then trades + [e.trade.value] else trades
  }

  function Projected(orders: map<string, Order>, e: Event): map<string, Order> {
    if e.kind != TradeEvent && e.order.Some? then orders[e.order.value.id := e.order.value] else orders
  }

  function Apply(l: Ledger, e: Event): Ledger {
    Ledger(l.journal, Money(l.wallets, e), Recorded(l.trades, e), Projected(l.orders, e))
  }

  // A journalled event is skipped; a fresh one is journalled and then applied.
  function Handle(l: Ledger, e: Event): Ledger {
    if e.id in l.journal then l else Apply(l.(journal := l.journal + {e.id}), e)
  }

  predicate TradeClean(ws: Wallets, t: Trade) {
    var op := SettleBuy(t.Notional(), t.quantity);
    && UpdateError(ws, t.buyerId, op).None?
    && UpdateError(Updated(ws, t.buyerId, op), t.sellerId, SettleSell(t.quantity, t.Notional())).None?
  }

  // Every wallet update the event asks for returns nil.
  predicate SettlesCleanly(ws: Wallets, e: Event) {
    if e.kind == TradeEvent && e.trade.Some? then TradeClean(ws, e.trade.value)
    else if e.kind == OrderUpdated && e.order.Some? then
      var u := e.order.value.userId;
      && (e.releaseCOP > 0 ==> UpdateError(ws, u, ReleaseCOP(e.releaseCOP)).None?)
      && (e.releaseVibranium > 0 ==>
            UpdateError(ReleaseMoney(ws, u, e.releaseCOP, 0), u, ReleaseVibranium(e.releaseVibranium)).None?)
    else true
  }

  // ----- What an event does to each balance -----

  function Available(a: Asset, w: Wallet): int { if a == COP then w.copAvailable else w.vibraniumAvailable }
  function Locked(a: Asset, w: Wallet): int { if a == COP then w.copLocked else w.vibraniumLocked }
  function Total(a: Asset, w: Wallet): (t: int)
    ensures t == Available(a, w) + Locked(a, w)
  {
    if a == COP then w.TotalCOP() else w.TotalVibranium()
  }


  function Gain(a: Asset, user: string, e: Event): int {
    if e.kind == TradeEvent && e.trade.Some? then
      var t := e.trade.value;
      if a == COP then (if t.sellerId == user then t.Notional() else 0)
      else (if t.buyerId == user then t.quantity else 0)
    else if e.kind == OrderUpdated && e.order.Some? && e.order.value.userId == user then ReleaseOf(a, e)
    else 0
  }

  // An event as the engine emits it for users that have wallets.
  ghost predicate WellFormed(e: Event, users: set<string>) {
    match e.kind
    case TradeEvent =>
      e.trade.Some? && e.trade.value.price >= 0 && e.trade.value.quantity >= 0
      && e.trade.value.buyerId in users && e.trade.value.sellerId in users
    case OrderUpdated => e.order.Some? && e.order.value.userId in users
    case OrderAccepted => false
  }

  ghost predicate Covers(ws: Wallets, e: Event) {
    forall a, u :: u in ws ==> ClaimOf(a, ByUser(u), e) <= Locked(a, ws[u])
  }

  ghost predicate Shifts(ws: Wallets, ws': Wallets, e: Event) {
    && ws'.Keys == ws.Keys
    && forall a, u :: u in ws ==>
         && ws'[u].userId == ws[u].userId
         && Locked(a, ws'[u]) == Locked(a, ws[u]) - ClaimOf(a, ByUser(u), e)
         && Available(a, ws'[u]) == Available(a, ws[u]) + Gain(a, u, e)
  }

  // Both legs of a covered trade apply, and each moves its own side of it; buyer
  // and seller may be the same.
  lemma LegsSettle(ws: Wallets, buyer: string, seller: string, n: int, q: int)
    requires buyer in ws && seller in ws && 0 <= n <= ws[buyer].copLocked && 0 <= q <= ws[seller].vibraniumLocked
    ensures UpdateError(ws, buyer, SettleBuy(n, q)).None?
    ensures var ws1 := Updated(ws, buyer, SettleBuy(n, q)); var ws2 := Updated(ws1, seller, SettleSell(q, n));
      && UpdateError(ws1, seller, SettleSell(q, n)).None?
      && ws2.Keys == ws.Keys
      && forall u :: u in ws ==>
           ws2[u] == ws[u].(copLocked := ws[u].copLocked - (if u == buyer then n else 0),
                            vibraniumAvailable := ws[u].vibraniumAvailable + (if u == buyer then q else 0),
                            vibraniumLocked := ws[u].vibraniumLocked - (if u == seller then q else 0),
                            copAvailable := ws[u].copAvailable + (if u == seller then n else 0))
  {
  }

  lemma TradeSettles(ws: Wallets, e: Event)
    requires e.kind == TradeEvent && WellFormed(e, ws.Keys) && Covers(ws, e)
    ensures SettlesCleanly(ws, e) && Shifts(ws, Money(ws, e), e)
  {
    var t := e.trade.value;
    MulNonNegative(t.price, t.quantity);
    assert ClaimOf(COP, ByUser(t.buyerId), e) <= Locked(COP, ws[t.buyerId]);
    assert ClaimOf(VIB, ByUser(t.sellerId), e) <= Locked(VIB, ws[t.sellerId]);
    LegsSettle(ws, t.buyerId, t.sellerId, t.Notional(), t.quantity);
  }

  lemma ReleaseSettles(ws: Wallets, e: Event)
    requires e.kind == OrderUpdated && WellFormed(e, ws.Keys) && Covers(ws, e)
    ensures SettlesCleanly(ws, e) && Shifts(ws, Money(ws, e), e)
  {
    var u := e.order.value.userId;
    assert ClaimOf(COP, ByUser(u), e) <= Locked(COP, ws[u]);
    assert ClaimOf(VIB, ByUser(u), e) <= Locked(VIB, ws[u]);
  }

  // Covered claims settle without an error, self-trades included.
  lemma CoveredSettles(ws: Wallets, e: Event)
    requires WellFormed(e, ws.Keys) && Covers(ws, e)
    ensures SettlesCleanly(ws, e) && Shifts(ws, Money(ws, e), e)
  {
    if e.kind == TradeEvent { TradeSettles(ws, e); } else { ReleaseSettles(ws, e); }
  }

  // ----- Supply -----

  ghost function Supply(a: Asset, ws: Wallets): int {
    if ws == map[] then 0
    else
      var u :| u in ws;
      Total(a, ws[u]) + Supply(a, ws - {u})
  }

  // The order in which a supply is added up does not matter.
  lemma {:induction false} SupplyWithout(a: Asset, ws: Wallets, u: string)
    requires u in ws
    ensures Supply(a, ws) == Total(a, ws[u]) + Supply(a, ws - {u})
    decreases |ws|
  {
    var v :| v in ws && Supply(a, ws) == Total(a, ws[v]) + Supply(a, ws - {v});
    if v != u {
      SupplyWithout(a, ws - {v}, u);
      SupplyWithout(a, ws - {u}, v);
      assert ws - {v} - {u} == ws - {u} - {v};
    }
  }

  lemma SupplyPut(a: Asset, ws: Wallets, u: string, w: Wallet)
    ensures Supply(a, ws[u := w]) == Supply(a, ws) + Total(a, w) - (if u in ws then Total(a, ws[u]) else 0)
  {
    SupplyWithout(a, ws[u := w], u);
    if u in ws {
      SupplyWithout(a, ws, u);
      assert ws[u := w] - {u} == ws - {u};
    } else {
      assert ws[u := w] - {u} == ws;
    }
  }

  lemma {:induction false} SupplyBounds(a: Asset, ws: Wallets, u: string)
    requires u in ws && forall v :: v in ws ==> 0 <= Total(a, ws[v])
    ensures 0 <= Total(a, ws[u]) <= Supply(a, ws)
  {
    SupplyWithout(a, ws, u);
    SupplyNonNegative(a, ws - {u});
  }

  lemma {:induction false} SupplyNonNegative(a: Asset, ws: Wallets)
    requires forall v :: v in ws ==> 0 <= Total(a, ws[v])
    ensures 0 <= Supply(a, ws)
    decreases |ws|
  {
    if ws != map[] {
      var u :| u in ws && Supply(a, ws) == Total(a, ws[u]) + Supply(a, ws - {u});
      SupplyNonNegative(a, ws - {u});
    }
  }

  // An event that settles cleanly creates and destroys nothing.
  lemma MoneyKeepsSupply(a: Asset, ws: Wallets, e: Event)
    requires SettlesCleanly(ws, e)
    ensures Supply(a, Money(ws, e)) == Supply(a, ws)
  {
    if e.kind == TradeEvent && e.trade.Some? {
      var t := e.trade.value;
      var op := SettleBuy(t.Notional(), t.quantity);
      var ws1 := Updated(ws, t.buyerId, op);
      SupplyPut(a, ws, t.buyerId, Moved(ws[t.buyerId], op));
      SupplyPut(a, ws1, t.sellerId, Moved(ws1[t.sellerId], SettleSell(t.quantity, t.Notional())));
    } else if e.kind == OrderUpdated && e.order.Some? {
      var u := e.order.value.userId;
      var ws1 := ReleaseMoney(ws, u, e.releaseCOP, 0);
      if e.releaseCOP > 0 {
        SupplyPut(a, ws, u, Moved(ws[u], ReleaseCOP(e.releaseCOP)));
      }
      if e.releaseVibranium > 0 {
        SupplyPut(a, ws1, u, Moved(ws1[u], ReleaseVibranium(e.releaseVibranium)));
      }
    }
  }

  // An update moves the supply by what it brings, if it applies.
  lemma UpdateMovesSupply(a: Asset, ws: Wallets, u: string, op: WalletOp)
    ensures Supply(a, Updated(ws, u, op)) == Supply(a, ws) + (if UpdateError(ws, u, op).None? then Brings(a, op) else 0)
  {
    if UpdateError(ws, u, op).None? {
      SupplyPut(a, ws, u, Moved(ws[u], op));
    }
  }

  lemma OpKeepsSupply(a: Asset, ws: Wallets, u: string, op: WalletOp)
    requires !op.SettleBuy? && !op.SettleSell?
    ensures Supply(a, Updated(ws, u, op)) == Supply(a, ws)
  {
    if UpdateError(ws, u, op).None? {
      SupplyPut(a, ws, u, Moved(ws[u], op));
    }
  }
}
