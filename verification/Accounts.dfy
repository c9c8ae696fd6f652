// Whole-run money theorems built on exact collateral: supply is conserved, each
// user's total is explained by the trade history, and the order in which
// pending events are settled does not matter.

module Accounts {
  import opened Domain
  import opened Sums
  import opened Claims
  import opened Ledger
  import opened Pipeline
  import opened Reachability
  import opened Collateral

  // ----- Supply and trade history -----

  // What a recorded trade adds to a user's total of an asset.
  function NetOf(a: Asset, u: string, t: Trade): int {
    if a == COP then (if t.sellerId == u then t.Notional() else 0) - (if t.buyerId == u then t.Notional() else 0)
    else (if t.buyerId == u then t.quantity else 0) - (if t.sellerId == u then t.quantity else 0)
  }

  function Net(a: Asset, u: string): Trade -> int { (t: Trade) => NetOf(a, u, t) }

  ghost predicate Explained(s: State, a: Asset, u: string)
    requires u in s.ledger.wallets && u in s.seeds
  {
    Total(a, s.ledger.wallets[u]) == Total(a, s.seeds[u]) + Sum(s.ledger.trades, Net(a, u))
  }

  ghost predicate AccountsInv(s: State) {
    && s.ledger.wallets.Keys == s.seeds.Keys
    && (forall a :: Supply(a, s.ledger.wallets) == Supply(a, s.seeds))
    && (forall a, u :: u in s.ledger.wallets ==> Explained(s, a, u))
    && (forall t :: t in s.ledger.trades ==> t.buyerId in s.seeds && t.sellerId in s.seeds)
  }

  lemma SeedAccounts(s: State, user: string, cop: int, vibranium: int)
    requires AccountsInv(s)
    ensures AccountsInv(DoSeed(s, user, cop, vibranium))
  {
    var s' := DoSeed(s, user, cop, vibranium);
    if s' != s {
      forall a
        ensures Supply(a, s'.ledger.wallets) == Supply(a, s'.seeds)
      {
        SupplyPut(a, s.ledger.wallets, user, s'.ledger.wallets[user]);
        SupplyPut(a, s.seeds, user, s'.seeds[user]);
      }
      forall a, u | u in s'.ledger.wallets
        ensures Explained(s', a, u)
      {
        if u == user {
          SumZero(s.ledger.trades, Net(a, u));
        } else {
          assert Explained(s, a, u);
        }
      }
    }
  }

  // Reserving and releasing move funds inside one wallet.
  lemma MoveAccounts(s: State, s': State, user: string, op: WalletOp)
    requires AccountsInv(s) && !op.SettleBuy? && !op.SettleSell?
    requires s'.ledger == s.ledger.(wallets := Updated(s.ledger.wallets, user, op)) && s'.seeds == s.seeds
    ensures AccountsInv(s')
  {
    forall a { OpKeepsSupply(a, s.ledger.wallets, user, op); }
    forall a, u | u in s'.ledger.wallets
      ensures Explained(s', a, u)
    {
      assert Explained(s, a, u);
    }
  }

  // What an event moves is what its recorded trade says; releases net to nothing.
  lemma RecordedExplains(ws: Wallets, ws': Wallets, trades: seq<Trade>, e: Event, a: Asset, u: string)
    requires WellFormed(e, ws.Keys) && Shifts(ws, ws', e) && u in ws
    ensures Total(a, ws'[u]) - Total(a, ws[u]) == Sum(Recorded(trades, e), Net(a, u)) - Sum(trades, Net(a, u))
  {
    if e.kind == TradeEvent {
      SumConcat(trades, [e.trade.value], Net(a, u));
      SumOne(e.trade.value, Net(a, u));
    }
  }

  lemma DeliverAccounts(s: State, i: nat)
    requires Inv(s) && CollateralInv(s) && AccountsInv(s)
    requires i < |s.log| && s.log[i].id !in s.ledger.journal
    ensures AccountsInv(DoDeliver(s, i))
  {
    DeliverySettles(s, i);
    EventClaimed(s, COP, ByUser(""), s.log[i]);
    SettledAccounts(s, DoDeliver(s, i), s.log[i]);
  }

  lemma SettledAccounts(s: State, s': State, e: Event)
    requires AccountsInv(s)
    requires WellFormed(e, s.ledger.wallets.Keys) && SettlesCleanly(s.ledger.wallets, e)
    requires s'.seeds == s.seeds && s'.ledger == Apply(s.ledger.(journal := s'.ledger.journal), e)
    requires Shifts(s.ledger.wallets, s'.ledger.wallets, e)
    ensures AccountsInv(s')
  {
    forall a { MoneyKeepsSupply(a, s.ledger.wallets, e); }
    forall a, u | u in s'.ledger.wallets
      ensures Explained(s', a, u)
    {
      assert Explained(s, a, u);
      RecordedExplains(s.ledger.wallets, s'.ledger.wallets, s.ledger.trades, e, a, u);
    }
  }

  lemma QuietAccounts(s: State, s': State)
    requires AccountsInv(s)
    requires s'.ledger == s.ledger && s'.seeds == s.seeds
    ensures AccountsInv(s')
  {
    forall a, u | u in s'.ledger.wallets
      ensures Explained(s', a, u)
    {
      assert Explained(s, a, u);
    }
  }

  lemma StepAccounts(s: State, step: Step)
    requires Inv(s) && CollateralInv(s) && AccountsInv(s)
    ensures AccountsInv(Do(s, step))
  {
    var s' := Do(s, step);
    match step
    case Seed(u, c, v) => SeedAccounts(s, u, c, v);
    case Reserve(id, u, side, p, q) =>
      if s' != s {
        MoveAccounts(s, s', u, ReserveOp(NewOrder(id, u, s.book.symbol, side, p, q)));
      }
    case Refuse(i) =>
      if i < |s.reserved| {
        MoveAccounts(s, s', s.reserved[i].userId, ReleaseOp(s.reserved[i]));
      }
    case Deliver(i) =>
      if i < |s.log| && s.log[i].id !in s.ledger.journal {
        DeliverAccounts(s, i);
      } else {
        QuietAccounts(s, s');
      }
    case Enqueue(_) => QuietAccounts(s, s');
    case Submit(_) => QuietAccounts(s, s');
    case Engine => QuietAccounts(s, s');
  }

  // ----- Settlement order -----

  function Deliveries(indices: seq<nat>): seq<Step> {
    seq(|indices|, j requires 0 <= j < |indices| => Deliver(indices[j]))
  }

  function DoneGain(a: Asset, u: string, done: set<string>): Event -> int {
    (e: Event) => if e.id in done then Gain(a, u, e) else 0
  }

  // What a wallet held before any of the settled events credited it.
  function Uncredited(s: State, a: Asset, u: string): int
    requires u in s.ledger.wallets
  {
    Available(a, s.ledger.wallets[u]) - Sum(s.log, DoneGain(a, u, s.ledger.journal))
  }

  // Delivering changes nothing but the ledger, and no uncredited balance.
  ghost predicate SameButSettled(s: State, s': State) {
    && s' == s.(ledger := s'.ledger, applied := s'.applied)
    && s'.ledger.wallets.Keys == s.ledger.wallets.Keys
    && (forall a, u :: u in s.ledger.wallets ==>
          Uncredited(s', a, u) == Uncredited(s, a, u) && s'.ledger.wallets[u].userId == s.ledger.wallets[u].userId)
  }

  lemma DeliverSameButSettled(s: State, i: nat)
    requires Inv(s) && CollateralInv(s)
    ensures SameButSettled(s, DoDeliver(s, i))
  {
    var s' := DoDeliver(s, i);
    if i < |s.log| && s.log[i].id !in s.ledger.journal {
      DeliverySettles(s, i);
      forall j | 0 <= j < |s.log| && j != i
        ensures s.log[j].id != s.log[i].id
      {
        if s.log[j].id == s.log[i].id { LogIdsDiffer(s, i, j); }
      }
      forall a, u | u in s.ledger.wallets
        ensures Uncredited(s', a, u) == Uncredited(s, a, u)
      {
        SumReweigh(s.log, i, DoneGain(a, u, s.ledger.journal), DoneGain(a, u, s'.ledger.journal));
      }
    }
  }

  lemma {:induction false} DeliveriesSameButSettled(s: State, indices: seq<nat>)
    requires Inv(s) && CollateralInv(s)
    ensures var s' := Run(s, Deliveries(indices)); SameButSettled(s, s') && Inv(s') && CollateralInv(s')
    decreases |indices|
  {
    if indices != [] {
      var s1 := DoDeliver(s, indices[0]);
      DeliverSameButSettled(s, indices[0]);
      StepInv(s, Deliver(indices[0]));
      StepCollateral(s, Deliver(indices[0]));
      assert Deliveries(indices)[1..] == Deliveries(indices[1..]);
      DeliveriesSameButSettled(s1, indices[1..]);
    }
  }

  lemma SettledAlike(s: State, s1: State, s2: State, a: Asset, u: string)
    requires SameButSettled(s, s1) && SameButSettled(s, s2) && CollateralInv(s1) && CollateralInv(s2)
    requires s1.ledger.journal == s2.ledger.journal && u in s.ledger.wallets
    ensures Locked(a, s1.ledger.wallets[u]) == Locked(a, s2.ledger.wallets[u])
    ensures Available(a, s1.ledger.wallets[u]) == Available(a, s2.ledger.wallets[u])
  {
    assert Exact(s1, a, u) && Exact(s2, a, u);
    assert Uncredited(s1, a, u) == Uncredited(s2, a, u);
  }

  // Two ways of settling the same events, in any two orders and with any
  // repetitions, leave the same wallets.
  lemma SettlementOrderIrrelevant(s: State, one: seq<nat>, two: seq<nat>)
    requires Inv(s) && CollateralInv(s)
    requires Run(s, Deliveries(one)).ledger.journal == Run(s, Deliveries(two)).ledger.journal
    ensures Run(s, Deliveries(one)).ledger.wallets == Run(s, Deliveries(two)).ledger.wallets
  {
    DeliveriesSameButSettled(s, one);
    DeliveriesSameButSettled(s, two);
    SameJournalSameWallets(s, Run(s, Deliveries(one)), Run(s, Deliveries(two)));
  }

  lemma SameJournalSameWallets(s: State, s1: State, s2: State)
    requires SameButSettled(s, s1) && SameButSettled(s, s2) && CollateralInv(s1) && CollateralInv(s2)
    requires s1.ledger.journal == s2.ledger.journal
    ensures s1.ledger.wallets == s2.ledger.wallets
  {
    forall u | u in s.ledger.wallets
      ensures s1.ledger.wallets[u] == s2.ledger.wallets[u]
    {
      SettledAlike(s, s1, s2, COP, u);
      SettledAlike(s, s1, s2, VIB, u);
      assert Uncredited(s1, COP, u) == Uncredited(s2, COP, u);
    }
  }
}
