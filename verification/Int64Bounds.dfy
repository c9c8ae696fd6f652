// The service computes in 64-bit integers. If the seeded supply of each asset
// fits, so does, between any two deliveries, every balance, notional, refund,
// release and depth total; the price times quantity of a SELL, which nothing
// computes, may be as large as it likes. FineMachine says what is added between the
// two wallet updates of a trade.

module Int64Bounds {
  import opened Domain
  import opened Sums
  import opened FlatBook
  import opened Matching
  import opened EventStream
  import opened Claims
  import opened Ledger
  import opened Pipeline
  import opened Reachability
  import opened Collateral
  import opened Accounts
  import opened Theorems

  const MAX_INT64 := 0x7FFF_FFFF_FFFF_FFFF

  const MIN_INT64 := -0x8000_0000_0000_0000

  // Value of a 64-bit two's-complement result.
  function Wrap(x: int): int {
    (x - MIN_INT64) % 0x1_0000_0000_0000_0000 + MIN_INT64
  }

  // A result is in range, and off by a multiple of the modulus.
  lemma WrapIsTwosComplement(x: int)
    ensures Fits(Wrap(x)) && (Wrap(x) - x) % 0x1_0000_0000_0000_0000 == 0
  {
  }

  predicate Fits(x: int) { MIN_INT64 <= x <= MAX_INT64 }

  // A machine computation of x yields x exactly when x fits.
  lemma FitsIsExact(x: int)
    ensures Fits(x) <==> Wrap(x) == x
  {
  }

  // The largest part of an asset one event can move.
  function Amount(a: Asset, e: Event): int {
    if e.kind == TradeEvent && e.trade.Some? then
      (if a == COP then e.trade.value.Notional() else e.trade.value.quantity)
    else if a == COP then e.releaseCOP else e.releaseVibranium
  }

  // Every event ever published moves at most what was seeded.
  ghost predicate EventsBounded(s: State) {
    forall a, e :: e in s.log ==> 0 <= Amount(a, e) <= Supply(a, s.seeds)
  }

  lemma BalancesNonNegative(s: State, a: Asset)
    requires Inv(s) && CollateralInv(s)
    ensures forall u :: u in s.ledger.wallets ==>
        0 <= Locked(a, s.ledger.wallets[u]) && 0 <= Available(a, s.ledger.wallets[u])
  {
    forall u | u in s.ledger.wallets
      ensures 0 <= Locked(a, s.ledger.wallets[u]) && 0 <= Available(a, s.ledger.wallets[u])
    {
      assert Exact(s, a, u);
      ClaimParts(s, a, ByUser(u), s.ledger.journal);
    }
  }

  lemma LockedWithinSupply(s: State, a: Asset, u: string)
    requires Inv(s) && CollateralInv(s) && AccountsInv(s) && u in s.ledger.wallets
    ensures 0 <= Locked(a, s.ledger.wallets[u]) <= Supply(a, s.seeds)
    ensures 0 <= Available(a, s.ledger.wallets[u]) <= Supply(a, s.seeds)
    ensures 0 <= Total(a, s.ledger.wallets[u]) <= Supply(a, s.seeds)
  {
    BalancesNonNegative(s, a);
    SupplyBounds(a, s.ledger.wallets, u);
  }

  // An unsettled event is still backed by its owner's locked funds.
  lemma OpenEventBounded(s: State, a: Asset, e: Event)
    requires Inv(s) && CollateralInv(s) && AccountsInv(s)
    requires e in s.log && e.id !in s.ledger.journal
    ensures 0 <= Amount(a, e) <= Supply(a, s.seeds)
  {
    EventClaimed(s, a, ByUser(""), e);
    assert EventFrom(e, AcceptedTerms(s));
    var u := if e.kind == OrderUpdated then e.order.value.userId
             else if a == COP then e.trade.value.buyerId else e.trade.value.sellerId;
    EventClaimed(s, a, ByUser(u), e);
    EventWithin(s, a, ByUser(u), s.ledger.journal, e);
    assert Exact(s, a, u);
    LockedWithinSupply(s, a, u);
  }

  lemma SeedsOnlyGrow(s: State, step: Step, a: Asset)
    requires AccountsInv(s)
    ensures Supply(a, s.seeds) <= Supply(a, Do(s, step).seeds)
  {
    match step
    case Seed(u, c, v) =>
      if Do(s, step) != s {
        SupplyPut(a, s.seeds, u, Do(s, step).seeds[u]);
      }
    case _ =>
  }

  // Only the engine adds to the log, and what it adds is not yet settled.
  lemma LogStep(s: State, step: Step, e: Event)
    requires Inv(s) && e in Do(s, step).log
    ensures e in s.log || e.id !in Do(s, step).ledger.journal
  {
    if step.Engine? && s.queue != [] {
      NewlyPublished(s, Process(s.book, s.queue[0]).1, e);
    }
  }

  lemma NewlyPublished(s: State, events: seq<Event>, e: Event)
    requires LogInv(s) && e in Publish(s.producer, s.log, events)
    ensures e in s.log || e.id !in s.ledger.journal
  {
    if e !in s.log {
      var log' := Publish(s.producer, s.log, events);
      var i :| 0 <= i < |log'| && log'[i] == e;
      assert i >= |s.log|;
      JournalledIsPublished(s);
      UnpublishedIsFresh(s, s.ledger.journal, i + 1);
    }
  }

  lemma StepEventsBounded(s: State, step: Step)
    requires Sound(s) && EventsBounded(s)
    ensures Sound(Do(s, step)) && EventsBounded(Do(s, step))
  {
    var s' := Do(s, step);
    StepSound(s, step);
    forall a, e | e in s'.log
      ensures 0 <= Amount(a, e) <= Supply(a, s'.seeds)
    {
      LogStep(s, step, e);
      SeedsOnlyGrow(s, step, a);
      if e !in s.log {
        OpenEventBounded(s', a, e);
      }
    }
  }

  lemma {:induction false} RunEventsBounded(s: State, steps: seq<Step>)
    requires Sound(s) && EventsBounded(s)
    ensures EventsBounded(Run(s, steps))
    decreases |steps|
  {
    if steps != [] {
      StepEventsBounded(s, steps[0]);
      RunEventsBounded(Do(s, steps[0]), steps[1..]);
    }
  }

  // ----- Totals across users -----

  function DueAmong(a: Asset, users: set<string>): Order -> int {
    (o: Order) => if o.userId in users then Due(a, o) else 0
  }

  lemma DueSplit(a: Asset, u: string, users: set<string>, o: Order)
    requires u !in users
    ensures DueAmong(a, users + {u})(o) == OrderClaim(a, ByUser(u))(o) + DueAmong(a, users)(o)
  {
  }

  lemma DueOfOneMore(a: Asset, os: seq<Order>, ws: Wallets, u: string)
    requires u in ws
    ensures Sum(os, DueAmong(a, ws.Keys))
         == Sum(os, OrderClaim(a, ByUser(u))) + Sum(os, DueAmong(a, (ws - {u}).Keys))
  {
    var others := (ws - {u}).Keys;
    assert ws.Keys == others + {u};
    forall o | o in os { DueSplit(a, u, others, o); }
    SumAdd(os, OrderClaim(a, ByUser(u)), DueAmong(a, others), DueAmong(a, ws.Keys));
  }

  // Claims added up user by user are at most the supply.
  lemma {:induction false} ClaimsWithinSupply(a: Asset, os: seq<Order>, ws: Wallets)
    requires forall u :: u in ws ==>
        Sum(os, OrderClaim(a, ByUser(u))) <= Locked(a, ws[u]) && 0 <= Available(a, ws[u])
    ensures Sum(os, DueAmong(a, ws.Keys)) <= Supply(a, ws)
    decreases |ws|
  {
    if ws == map[] {
      SumZero(os, DueAmong(a, ws.Keys));
    } else {
      var u :| u in ws && Supply(a, ws) == Total(a, ws[u]) + Supply(a, ws - {u});
      DueOfOneMore(a, os, ws, u);
      ClaimsWithinSupply(a, os, ws - {u});
      assert Sum(os, OrderClaim(a, ByUser(u))) <= Total(a, ws[u]);
    }
  }

  function Quantity(): Order -> int { (o: Order) => o.Remaining() }

  // A depth total counts units; a resting bid has locked at least one COP per unit.
  lemma DepthWithinSupply(s: State)
    requires Inv(s) && CollateralInv(s) && AccountsInv(s)
    ensures 0 <= Sum(s.book.bids, Quantity()) <= Supply(COP, s.seeds)
    ensures 0 <= Sum(s.book.asks, Quantity()) <= Supply(VIB, s.seeds)
  {
    SideWithinSupply(s, COP, s.book.bids);
    SideWithinSupply(s, VIB, s.book.asks);
  }

  lemma SideWithinSupply(s: State, a: Asset, side: seq<Order>)
    requires Inv(s) && CollateralInv(s) && AccountsInv(s)
    requires side == if a == COP then s.book.bids else s.book.asks
    ensures 0 <= Sum(side, Quantity()) <= Supply(a, s.seeds)
  {
    var ws := s.ledger.wallets;
    BalancesNonNegative(s, a);
    forall u | u in ws
      ensures Sum(side, OrderClaim(a, ByUser(u))) <= Locked(a, ws[u])
    {
      assert Exact(s, a, u);
      ClaimParts(s, a, ByUser(u), s.ledger.journal);
    }
    ClaimsWithinSupply(a, side, ws);
    forall o | o in side
      ensures 0 <= Quantity()(o) <= DueAmong(a, ws.Keys)(o)
    {
      RestingClaimed(s, a, ByUser(o.userId), o);
      AtLeastOnce(o.price, o.Remaining());
    }
    SumNonNegative(side, Quantity());
    SumAtMost(side, Quantity(), DueAmong(a, ws.Keys));
  }

  lemma AtLeastOnce(price: int, quantity: int)
    requires 1 <= price && 0 <= quantity
    ensures quantity <= price * quantity
  {
  }

  // ----- Running totals inside one match -----

  lemma FillRefundNonNegative(symbol: string, seqNo: nat, taker: Order, maker: Order, f: Fill)
    requires FillOf(symbol, seqNo, taker, maker, f) && taker.side == Buy
    ensures 0 <= RefundOf(taker.price)(f)
  {
    MulNonNegative(taker.price - f.trade.price, f.trade.quantity);
  }

  lemma RefundsAddUp(symbol: string, tradeSeq: nat, taker: Order, flat: seq<Order>, fills: seq<Fill>, n: nat)
    requires FillsFrom(symbol, tradeSeq, taker, flat, fills) && taker.side == Buy && n <= |fills|
    ensures 0 <= Sum(fills[..n], RefundOf(taker.price)) <= RefundTotal(taker, fills)
  {
    forall i | 0 <= i < |fills|
      ensures 0 <= RefundOf(taker.price)(fills[i])
    {
      assert FillOf(symbol, tradeSeq + 1 + i, taker, flat[i], fills[i]);
      FillRefundNonNegative(symbol, tradeSeq + 1 + i, taker, flat[i], fills[i]);
    }
    SumPrefix(fills, n, RefundOf(taker.price));
  }

  // The refund a BUY taker has accumulated after any number of its fills lies
  // between zero and the final release.
  lemma RunningRefund(symbol: string, tradeSeq: nat, taker: Order, flat: seq<Order>, n: nat)
    requires taker.side == Buy && Tradable(flat)
    ensures var m := Match(symbol, tradeSeq, taker, flat);
      m.refund == Sum(m.fills, RefundOf(taker.price))
      && (n <= |m.fills| ==> 0 <= Sum(m.fills[..n], RefundOf(taker.price)) <= m.refund)
  {
    var m := Match(symbol, tradeSeq, taker, flat);
    RefundExplained(symbol, tradeSeq, taker, flat);
    if taker.filled <= taker.quantity {
      MatchExplained(symbol, tradeSeq, taker, flat);
      if n <= |m.fills| { RefundsAddUp(symbol, tradeSeq, taker, flat, m.fills, n); }
    } else {
      assert m.fills == [] && (n <= |m.fills| ==> m.fills[..n] == []);
    }
  }

  lemma SumPrefix<T>(s: seq<T>, n: nat, f: T -> int)
    requires n <= |s| && forall i :: 0 <= i < |s| ==> 0 <= f(s[i])
    ensures 0 <= Sum(s[..n], f) <= Sum(s, f)
  {
    assert s == s[..n] + s[n..];
    SumConcat(s[..n], s[n..], f);
    SumNonNegative(s[..n], f);
    SumNonNegative(s[n..], f);
  }

  // ----- The bound -----

  ghost predicate BalancesFit(s: State, a: Asset) {
    && Fits(Supply(a, s.ledger.wallets))
    && forall u :: u in s.ledger.wallets ==>
         && Fits(Locked(a, s.ledger.wallets[u]))
         && Fits(Available(a, s.ledger.wallets[u]))
         && Fits(Total(a, s.ledger.wallets[u]))
  }

  ghost predicate AmountsFit(s: State, a: Asset) {
    && (forall e :: e in s.log ==> Fits(Amount(a, e)))
    && (forall o :: o in Pending(s) || o in s.book.bids || o in s.book.asks ==> Fits(Due(a, o)))
  }

  ghost predicate EverythingFits(s: State) {
    && (forall a :: BalancesFit(s, a) && AmountsFit(s, a))
    && Fits(Sum(s.book.bids, Quantity())) && Fits(Sum(s.book.asks, Quantity()))
  }

  // In any run of whole deliveries whose seeded supply fits in 64 bits, so does
  // every balance and user total, every amount in the log, every claim of a live
  // order, and the depth of either side (hence of any of its levels).
  lemma NothingOverflows(producer: string, symbol: string, steps: seq<Step>)
    requires forall a :: Supply(a, After(producer, symbol, steps).seeds) <= MAX_INT64
    ensures EverythingFits(After(producer, symbol, steps))
  {
    EveryRunSound(producer, symbol, steps);
    InitSound(producer, symbol);
    RunEventsBounded(Init(producer, symbol), steps);
    SoundFits(After(producer, symbol, steps));
  }

  lemma SoundFits(s: State)
    requires Inv(s) && CollateralInv(s) && AccountsInv(s) && EventsBounded(s)
    requires forall a :: Supply(a, s.seeds) <= MAX_INT64
    ensures EverythingFits(s)
  {
    forall a
      ensures BalancesFit(s, a) && AmountsFit(s, a)
    {
      BalancesStayFit(s, a);
      AmountsStayFit(s, a);
    }
    DepthStaysFit(s);
  }

  lemma BalancesStayFit(s: State, a: Asset)
    requires Inv(s) && CollateralInv(s) && AccountsInv(s) && Supply(a, s.seeds) <= MAX_INT64
    ensures BalancesFit(s, a)
  {
    BalancesNonNegative(s, a);
    SupplyNonNegative(a, s.ledger.wallets);
    forall u | u in s.ledger.wallets
      ensures Fits(Locked(a, s.ledger.wallets[u]))
      ensures Fits(Available(a, s.ledger.wallets[u]))
      ensures Fits(Total(a, s.ledger.wallets[u]))
    {
      LockedWithinSupply(s, a, u);
    }
  }

  lemma AmountsStayFit(s: State, a: Asset)
    requires Inv(s) && CollateralInv(s) && AccountsInv(s) && EventsBounded(s)
    requires Supply(a, s.seeds) <= MAX_INT64
    ensures AmountsFit(s, a)
  {
    forall o | o in Pending(s) || o in s.book.bids || o in s.book.asks
      ensures Fits(Due(a, o))
    {
      OrderBounded(s, a, o);
    }
  }

  lemma DepthStaysFit(s: State)
    requires Inv(s) && CollateralInv(s) && AccountsInv(s)
    requires Supply(COP, s.seeds) <= MAX_INT64 && Supply(VIB, s.seeds) <= MAX_INT64
    ensures Fits(Sum(s.book.bids, Quantity())) && Fits(Sum(s.book.asks, Quantity()))
  {
    DepthWithinSupply(s);
  }

  lemma OrderBounded(s: State, a: Asset, o: Order)
    requires Inv(s) && CollateralInv(s) && AccountsInv(s)
    requires o in Pending(s) || o in s.book.bids || o in s.book.asks
    ensures 0 <= Due(a, o) <= Supply(a, s.seeds)
  {
    var k := ByUser(o.userId);
    if o in Pending(s) {
      WaitingClaimed(s, a, k, o);
      PendingWithin(s, a, k, s.ledger.journal, o);
    } else {
      RestingClaimed(s, a, k, o);
      ClaimParts(s, a, k, s.ledger.journal);
      var side := if o in s.book.bids then s.book.bids else s.book.asks;
      forall x | x in side ensures 0 <= OrderClaim(a, k)(x) { RestingClaimed(s, a, k, x); }
      SumTerm(side, o, OrderClaim(a, k));
    }
    assert Exact(s, a, o.userId);
    LockedWithinSupply(s, a, o.userId);
  }
}
