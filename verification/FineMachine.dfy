// 64-bit arithmetic at the grain of single wallet updates. Between the two legs of
// a trade with oneself the buyer's Vibranium has come and the seller's has not
// gone yet, so the wallet holds more than was ever seeded; a reservation at that
// moment is the one thing that can run over. Everything else is exact.

module FineMachine {
  import opened Domain
  import opened Sums
  import opened EventStream
  import opened Claims
  import opened Ledger
  import opened Lifecycle
  import opened Pipeline
  import opened Reachability
  import opened Collateral
  import opened Theorems
  import opened Int64Bounds
  import opened Machine
  import opened Grain
  import opened Stores
  import opened Reconciliation

  function Legs64(e: Event): seq<Leg> {
    if e.kind == TradeEvent && e.trade.Some? then
      var t := e.trade.value;
      [Leg(t.buyerId, SettleBuy(Notional64(t), t.quantity)), Leg(t.sellerId, SettleSell(t.quantity, Notional64(t)))]
    else Legs(e)
  }

  function DoFine64(f: Fine, step: FineStep): Fine {
    match step
    case Coarse(c) => if c.Deliver? || c.Engine? then f else f.(s := Do64(f.s, c))
    case Take =>
      if f.outbox != [] || f.s.queue == [] then f
      else
        var (book, events) := Process64(f.s.book, f.s.queue[0]);
        f.(s := f.s.(queue := f.s.queue[1..], book := book), outbox := events)
    case Begin(i) =>
      var f' := DoFine(f, step);
      if f' == f then f else f'.(rest := Legs64(f.s.log[i]))
    case OneLeg =>
      if f.rest == [] then f
      else f.(s := WithWallets(f.s, Updated64(f.s.ledger.wallets, f.rest[0].user, f.rest[0].op)), rest := f.rest[1..])
    case _ => DoFine(f, step)  // no arithmetic
  }

  function RunFine64(f: Fine, steps: seq<FineStep>): Fine
    decreases |steps|
  {
    if steps == [] then f else RunFine64(DoFine64(f, steps[0]), steps[1..])
  }

  // ----- How much a wallet can hold -----

  ghost predicate NonNegative(w: Wallet) {
    0 <= w.copAvailable && 0 <= w.copLocked && 0 <= w.vibraniumAvailable && 0 <= w.vibraniumLocked
  }

  ghost predicate AllNonNegative(ws: Wallets) { forall u :: u in ws ==> NonNegative(ws[u]) }

  lemma UpdateNonNegative(ws: Wallets, user: string, op: WalletOp)
    requires AllNonNegative(ws)
    ensures AllNonNegative(Updated(ws, user, op))
  {
  }

  // The wallet update a step makes, if any.
  function UpdateOf(f: Fine, step: FineStep): Option<Leg> {
    match step
    case Coarse(Reserve(id, u, side, p, q)) =>
      var o := NewOrder(id, u, f.s.book.symbol, side, p, q);
      if DoReserve(f.s, o) == f.s then None else Some(Leg(u, ReserveOp(o)))
    case Coarse(Refuse(i)) =>
      if i >= |f.s.reserved| then None else Some(Leg(f.s.reserved[i].userId, ReleaseOp(f.s.reserved[i])))
    case OneLeg => if f.rest == [] then None else Some(f.rest[0])
    case _ => None
  }

  function AfterUpdate(ws: Wallets, update: Option<Leg>): Wallets {
    if update.None? then ws else Updated(ws, update.value.user, update.value.op)
  }

  predicate Seeds(step: FineStep) { step.Coarse? && step.step.Seed? }

  lemma CoarseUpdates(f: Fine, step: Step)
    requires !step.Seed?
    ensures DoFine(f, Coarse(step)).s.ledger.wallets == AfterUpdate(f.s.ledger.wallets, UpdateOf(f, Coarse(step)))
  {
  }

  lemma StepUpdates(f: Fine, step: FineStep)
    requires !Seeds(step)
    ensures DoFine(f, step).s.ledger.wallets == AfterUpdate(f.s.ledger.wallets, UpdateOf(f, step))
  {
    if step.Coarse? { CoarseUpdates(f, step.step); }
  }

  lemma SeedAdds(f: Fine, step: FineStep)
    requires Seeds(step)
    ensures var ws, ws' := f.s.ledger.wallets, DoFine(f, step).s.ledger.wallets;
      ws' == ws || (step.step.user !in ws && 0 <= step.step.cop && 0 <= step.step.vibranium
                    && ws' == ws[step.step.user := Wallet(step.step.user, step.step.cop, 0, step.step.vibranium, 0)])
  {
  }

  lemma StepNonNegative(f: Fine, step: FineStep)
    requires AllNonNegative(f.s.ledger.wallets)
    ensures AllNonNegative(DoFine(f, step).s.ledger.wallets)
  {
    if Seeds(step) {
      SeedAdds(f, step);
    } else {
      StepUpdates(f, step);
      var update := UpdateOf(f, step);
      if update.Some? { UpdateNonNegative(f.s.ledger.wallets, update.value.user, update.value.op); }
    }
  }

  lemma NotALeg(f: Fine, step: FineStep)
    requires !step.OneLeg? && UpdateOf(f, step).Some?
    ensures var op := UpdateOf(f, step).value.op; !op.SettleBuy? && !op.SettleSell?
  {
  }

  // Nothing but a leg changes what a wallet holds in all.
  lemma OthersKeepTotals(f: Fine, step: FineStep, a: Asset, u: string)
    requires !step.OneLeg? && u in f.s.ledger.wallets
    ensures var ws, ws' := f.s.ledger.wallets, DoFine(f, step).s.ledger.wallets;
      u in ws' && Total(a, ws'[u]) == Total(a, ws[u])
  {
    if Seeds(step) {
      SeedAdds(f, step);
    } else {
      StepUpdates(f, step);
      if UpdateOf(f, step).Some? { NotALeg(f, step); }
    }
  }

  // Halfway, the buyer has at least what the trade brought.
  ghost predicate BuyerHolds(ws: Wallets, t: Trade) {
    t.buyerId in ws && t.quantity <= Total(VIB, ws[t.buyerId])
  }

  // What every exact fine run keeps.
  ghost predicate FineSound(f: Fine) {
    && FineOk(f) && FromEvent(f.event, f.rest) && (f.event.Some? ==> f.event.value in f.s.log)
    && AllNonNegative(f.s.ledger.wallets)
    && (Halfway(f) ==> BuyerHolds(f.s.ledger.wallets, f.event.value.trade.value))
  }

  // The legs of a trade: the buyer's, then the seller's.
  lemma LegsOfTrade(e: Event, rest: seq<Leg>)
    requires IsTrade(e) && FromEvent(Some(e), rest)
    ensures var t := e.trade.value;
      && (|rest| == 1 ==> rest[0] == Leg(t.sellerId, SettleSell(t.quantity, t.Notional())))
      && (|rest| == 2 ==> rest[0] == Leg(t.buyerId, SettleBuy(t.Notional(), t.quantity)))
  {
    RestAt(Legs(e), rest);
  }

  lemma BuyerIsCredited(ws: Wallets, t: Trade, n: int)
    requires AllNonNegative(ws) && UpdateError(ws, t.buyerId, SettleBuy(n, t.quantity)).None?
    ensures BuyerHolds(Updated(ws, t.buyerId, SettleBuy(n, t.quantity)), t)
  {
  }

  lemma LegBuyerHolds(f: Fine)
    requires FromEvent(f.event, f.rest) && LegsClean(f.s.ledger.wallets, f.rest)
    requires AllNonNegative(f.s.ledger.wallets) && f.rest != [] && Halfway(DoFine(f, OneLeg))
    ensures BuyerHolds(DoFine(f, OneLeg).s.ledger.wallets, f.event.value.trade.value)
  {
    var t := f.event.value.trade.value;
    LegsOfTrade(f.event.value, f.rest);
    BuyerIsCredited(f.s.ledger.wallets, t, t.Notional());
  }

  lemma BeginIsNotHalfway(f: Fine, i: nat)
    requires DoFine(f, Begin(i)) != f
    ensures !Halfway(DoFine(f, Begin(i)))
  {
  }

  lemma OthersBuyerHolds(f: Fine, step: FineStep)
    requires !step.OneLeg? && DoFine(f, step) != f && Halfway(DoFine(f, step))
    requires Halfway(f) ==> BuyerHolds(f.s.ledger.wallets, f.event.value.trade.value)
    ensures Halfway(f) && DoFine(f, step).event == f.event
    ensures BuyerHolds(DoFine(f, step).s.ledger.wallets, f.event.value.trade.value)
  {
    if step.Begin? { BeginIsNotHalfway(f, step.i); }
    assert Halfway(f) && DoFine(f, step).event == f.event;
    OthersKeepTotals(f, step, VIB, f.event.value.trade.value.buyerId);
  }

  lemma StepFromEvent(f: Fine, step: FineStep)
    requires FromEvent(f.event, f.rest)
    ensures FromEvent(DoFine(f, step).event, DoFine(f, step).rest)
  {
    match step
    case Begin(i) =>
      if DoFine(f, step) != f { AllRemains(f.s.log[i]); }
    case OneLeg =>
      if f.rest != [] { NextLegRemains(f.event.value, f.rest); }
    case _ =>
  }

  lemma AllRemains(e: Event)
    ensures FromEvent(Some(e), Legs(e))
  {
  }

  // What settlement has in hand was published.
  lemma StepInLog(f: Fine, step: FineStep)
    requires f.event.Some? ==> f.event.value in f.s.log
    ensures var f' := DoFine(f, step); f'.event.Some? ==> f'.event.value in f'.s.log
  {
  }

  lemma StepFineSound(f: Fine, step: FineStep)
    requires FineSound(f)
    ensures FineSound(DoFine(f, step))
  {
    var f' := DoFine(f, step);
    FineStepRefines(f, step);
    StepFromEvent(f, step);
    StepInLog(f, step);
    StepNonNegative(f, step);
    if f' != f && Halfway(f') {
      if step.OneLeg? { LegBuyerHolds(f); } else { OthersBuyerHolds(f, step); }
    }
  }

  // Halfway through a trade with oneself.
  ghost predicate Doubled(f: Fine) {
    Halfway(f) && f.event.value.trade.value.buyerId == f.event.value.trade.value.sellerId
  }

  lemma TwoWithinSupply(a: Asset, ws: Wallets, u: string, v: string)
    requires AllNonNegative(ws) && u in ws && v in ws && u != v
    ensures Total(a, ws[u]) + Total(a, ws[v]) <= Supply(a, ws)
  {
    SupplyWithout(a, ws, u);
    SupplyBounds(a, ws - {u}, v);
  }

  // Whoever is not in the middle of a self-trade holds at most what was seeded, and
  // nobody has more available.
  lemma HalfwayBounds(ws: Wallets, t: Trade, seeded: int, u: string)
    requires AllNonNegative(ws) && BuyerHolds(ws, t) && u in ws && Supply(VIB, ws) == seeded + t.quantity
    requires t.sellerId in ws && 0 <= t.quantity <= ws[t.sellerId].vibraniumLocked
    ensures ws[u].vibraniumAvailable <= seeded
    ensures u != t.buyerId || t.buyerId != t.sellerId ==> Total(VIB, ws[u]) <= seeded
    ensures Total(VIB, ws[u]) <= seeded + t.quantity
  {
    SupplyBounds(VIB, ws, u);
    if u != t.buyerId { TwoWithinSupply(VIB, ws, u, t.buyerId); }
    if u != t.sellerId { TwoWithinSupply(VIB, ws, u, t.sellerId); }
  }

  // What the trade in hand holds of it twice.
  ghost function Twice(f: Fine, u: string): int {
    if Doubled(f) && u == f.event.value.trade.value.buyerId then f.event.value.trade.value.quantity else 0
  }

  // What bounds the balances, without the rest of the invariant.
  ghost predicate Holds(f: Fine) {
    && FromEvent(f.event, f.rest) && LegsClean(f.s.ledger.wallets, f.rest)
    && AllNonNegative(f.s.ledger.wallets) && Sampled(f)
    && (Halfway(f) ==> BuyerHolds(f.s.ledger.wallets, f.event.value.trade.value))
  }

  lemma SoundHolds(f: Fine)
    requires FineSound(f)
    ensures Holds(f)
  {
    SampledHere(f);
  }

  lemma SellerLegIsNext(ws: Wallets, e: Event, rest: seq<Leg>)
    requires IsTrade(e) && |rest| == 1 && FromEvent(Some(e), rest) && LegsClean(ws, rest)
    ensures var t := e.trade.value;
      t.sellerId in ws && 0 <= t.quantity <= ws[t.sellerId].vibraniumLocked && 0 <= t.Notional()
  {
    LegsOfTrade(e, rest);
    assert rest[0].user == e.trade.value.sellerId;
  }

  lemma HoldingsBounded(f: Fine, u: string)
    requires Holds(f) && u in f.s.ledger.wallets
    ensures var w := f.s.ledger.wallets[u];
      && NonNegative(w) && Total(COP, w) <= Supply(COP, f.s.seeds)
      && w.vibraniumAvailable <= Supply(VIB, f.s.seeds) && Total(VIB, w) <= Supply(VIB, f.s.seeds) + Twice(f, u)
  {
    SupplyBounds(COP, f.s.ledger.wallets, u);
    if Halfway(f) {
      SellerLegIsNext(f.s.ledger.wallets, f.event.value, f.rest);
      HalfwayBounds(f.s.ledger.wallets, f.event.value.trade.value, Supply(VIB, f.s.seeds), u);
    } else {
      SupplyBounds(VIB, f.s.ledger.wallets, u);
    }
  }

  // Every balance fits, unless a trade with oneself stands halfway, and then if and
  // only if what its owner has locked does.
  lemma FitsExactly(f: Fine)
    requires Holds(f) && SupplyFits(f.s)
    ensures WalletsFit(f.s.ledger.wallets) <==> LockedFits(f)
  {
    if LockedFits(f) {
      forall u | u in f.s.ledger.wallets
        ensures WalletFits(f.s.ledger.wallets[u])
      {
        HoldingsBounded(f, u);
      }
    }
  }

  ghost predicate LockedFits(f: Fine) {
    Doubled(f) ==>
      var u := f.event.value.trade.value.buyerId;
      u in f.s.ledger.wallets && f.s.ledger.wallets[u].vibraniumLocked <= MAX_INT64
  }

  // ----- Exactly when a step is exact -----

  // What a SELL adds to what its owner has locked still fits.
  predicate LockFits(s: State, step: Step) {
    ReachesWallet(s, step) && step.side == Sell ==>
      var w := s.ledger.wallets[step.user];
      step.quantity <= w.vibraniumAvailable ==> w.vibraniumLocked + step.quantity <= MAX_INT64
  }

  predicate FineHarmless(f: Fine, step: FineStep) {
    step.Coarse? ==> Harmless(f.s, step.step) && LockFits(f.s, step.step)
  }

  ghost predicate FineInput(step: FineStep) { step.Coarse? ==> Input(step.step) }

  lemma SellExactIff(s: State, step: Step)
    requires ReachesWallet(s, step) && step.side == Sell && Input(step) && WalletsFit(s.ledger.wallets)
    ensures Do64(s, step) == Do(s, step) <==> LockFits(s, step)
  {
    var w, op := s.ledger.wallets[step.user], ReserveVibranium(step.quantity);
    assert WalletFits(w);
    if Check(w, op).None? {
      assert Do(s, step).ledger.wallets[step.user] == Moved(w, op);
      assert Do64(s, step).ledger.wallets[step.user] == Moved64(w, op);
    }
  }

  // Within one wallet, a BUY moves funds that fit.
  lemma BuyFits(s: State, step: Step)
    requires ReachesWallet(s, step) && step.side == Buy && WalletsFit(s.ledger.wallets)
    requires NonNegative(s.ledger.wallets[step.user]) && Fits(Total(COP, s.ledger.wallets[step.user]))
    ensures WalletsFit(Do(s, step).ledger.wallets)
  {
    var w, op := s.ledger.wallets[step.user], ReserveCOP(step.price * step.quantity);
    assert WalletFits(w);
    if Check(w, op).None? { FundsFit(w, step.price * step.quantity); }
    assert Do(s, step).ledger.wallets == Updated(s.ledger.wallets, step.user, op);
  }

  lemma FundsFit(w: Wallet, n: int)
    requires WalletFits(w) && NonNegative(w) && Fits(Total(COP, w)) && Check(w, ReserveCOP(n)).None?
    ensures WalletFits(Moved(w, ReserveCOP(n)))
  {
  }

  lemma BuyExactIff(s: State, step: Step)
    requires ReachesWallet(s, step) && step.side == Buy && Input(step) && WalletsFit(s.ledger.wallets)
    requires NonNegative(s.ledger.wallets[step.user]) && Fits(Total(COP, s.ledger.wallets[step.user]))
    ensures Do64(s, step) == Do(s, step) <==> Harmless(s, step)
  {
    if Fitting(step) {
      BuyFits(s, step);
      ReserveExact(s, step);
    } else {
      TooMuchIsRefused(s, step);
      if !Harmless(s, step) { assert step.id in Do64(s, step).accepted; }
    }
  }

  lemma ReservationExactIff(s: State, step: Step)
    requires step.Reserve? && Input(step) && WalletsFit(s.ledger.wallets)
    requires step.user in s.ledger.wallets ==>
        var w := s.ledger.wallets[step.user]; NonNegative(w) && Fits(Total(COP, w))
    ensures Do64(s, step) == Do(s, step) <==> Harmless(s, step) && LockFits(s, step)
  {
    if ReachesWallet(s, step) {
      if step.side == Buy { BuyExactIff(s, step); } else { SellExactIff(s, step); }
    }
  }

  // Only a SELL reservation adds to the Vibranium somebody has locked.
  lemma LockedGrows(f: Fine, step: FineStep, u: string)
    requires u in DoFine(f, step).s.ledger.wallets
    requires UpdateOf(f, step).Some? ==> !UpdateOf(f, step).value.op.ReserveVibranium?
    ensures DoFine(f, step).s.ledger.wallets[u].vibraniumLocked
         <= if u in f.s.ledger.wallets then f.s.ledger.wallets[u].vibraniumLocked else 0
  {
    if Seeds(step) { SeedAdds(f, step); } else { StepUpdates(f, step); }
  }

  lemma LocksVibranium(f: Fine, step: FineStep)
    requires AllSettling(f.rest)
    requires UpdateOf(f, step).Some? && UpdateOf(f, step).value.op.ReserveVibranium?
    ensures step.Coarse? && ReachesWallet(f.s, step.step) && step.step.side == Sell
    ensures var w := f.s.ledger.wallets[step.step.user];
      && step.step.quantity <= w.vibraniumAvailable
      && DoFine(f, step).s.ledger.wallets
         == f.s.ledger.wallets[step.step.user := Moved(w, ReserveVibranium(step.step.quantity))]
  {
  }

  // After a harmless step, what is locked still fits.
  lemma HarmlessFits(f: Fine, step: FineStep, u: string)
    requires AllSettling(f.rest) && WalletsFit(f.s.ledger.wallets) && FineHarmless(f, step)
    requires u in DoFine(f, step).s.ledger.wallets
    ensures DoFine(f, step).s.ledger.wallets[u].vibraniumLocked <= MAX_INT64
  {
    assert u in f.s.ledger.wallets ==> WalletFits(f.s.ledger.wallets[u]);
    if UpdateOf(f, step).Some? && UpdateOf(f, step).value.op.ReserveVibranium? {
      LocksVibranium(f, step);
    } else {
      LockedGrows(f, step, u);
    }
  }

  lemma HarmlessKeepsFit(f: Fine, step: FineStep)
    requires AllSettling(f.rest) && WalletsFit(f.s.ledger.wallets) && FineHarmless(f, step)
    requires Holds(DoFine(f, step)) && SupplyFits(DoFine(f, step).s)
    ensures WalletsFit(DoFine(f, step).s.ledger.wallets)
  {
    var f' := DoFine(f, step);
    FitsExactly(f');
    if Doubled(f') { HarmlessFits(f, step, f'.event.value.trade.value.buyerId); }
  }

  lemma TakeExact(f: Fine)
    requires Inv(Completed(f)) && AcceptedSmall(f.s) && Refines(f, Take) && ReleasesFit(Completed(DoFine(f, Take)).log)
    ensures DoFine64(f, Take) == DoFine(f, Take)
  {
    if DoFine(f, Take) != f {
      RunOne(Completed(f), Engine);
      ProcessExact(Completed(f));
    }
  }

  lemma BeginExact(f: Fine, i: nat)
    requires forall e :: e in f.s.log ==> Fits(Amount(COP, e))
    ensures DoFine64(f, Begin(i)) == DoFine(f, Begin(i))
  {
    if DoFine(f, Begin(i)) != f && IsTrade(f.s.log[i]) {
      var t := f.s.log[i].trade.value;
      assert f.s.log[i] in f.s.log && Fits(Amount(COP, f.s.log[i]));
      FitsIsExact(t.price * t.quantity);
    }
  }

  lemma LegExact(f: Fine)
    requires LegsClean(f.s.ledger.wallets, f.rest) && WalletsFit(DoFine(f, OneLeg).s.ledger.wallets)
    ensures DoFine64(f, OneLeg) == DoFine(f, OneLeg)
  {
    if f.rest != [] {
      assert WalletFits(DoFine(f, OneLeg).s.ledger.wallets[f.rest[0].user]);
      UpdatedExact(f.s.ledger.wallets, f.rest[0].user, f.rest[0].op);
    }
  }

  // What every exact fine run keeps whose inputs are machine integers.
  ghost predicate FineMachineOk(f: Fine) {
    FineSound(f) && EventsBounded(Completed(f)) && AcceptedSmall(f.s)
  }

  lemma StepFineMachineOk(f: Fine, step: FineStep)
    requires FineMachineOk(f) && FineInput(step)
    ensures FineMachineOk(DoFine(f, step))
  {
    StepFineSound(f, step);
    FineStepRefines(f, step);
    RunEventsBounded(Completed(f), Shadow(f, step));
    FineKeepsSmall(f, step);
  }

  lemma FineKeepsSmall(f: Fine, step: FineStep)
    requires AcceptedSmall(f.s) && FineInput(step)
    ensures AcceptedSmall(DoFine(f, step).s)
  {
    if step.Coarse? { StepKeepsSmall(f.s, step.step); }
  }

  // What the supply bounds in one state.
  ghost predicate Bounded(f: Fine) {
    && Holds(f) && ReleasesFit(Completed(f).log)
    && (forall e :: e in f.s.log ==> Fits(Amount(COP, e)))
    && (forall o :: o in f.s.reserved ==> Fits(Due(COP, o)) && o.filled == 0)
  }

  lemma FineBounded(f: Fine)
    requires FineMachineOk(f) && SupplyFits(f.s)
    ensures Bounded(f)
  {
    var s := Completed(f);
    SoundHolds(f);
    SmallHere(s);
    forall o | o in f.s.reserved
      ensures o.filled == 0
    {
      assert o in Pending(s) && Waiting(s, o);
    }
  }

  lemma RefuseFineExact(f: Fine, i: nat)
    requires FineOk(f) && WalletsFit(DoRefuse(f.s, i).ledger.wallets)
    requires forall o :: o in f.s.reserved ==> Fits(Due(COP, o)) && o.filled == 0
    ensures Do64(f.s, Refuse(i)) == DoRefuse(f.s, i)
  {
    if i < |f.s.reserved| {
      var o := f.s.reserved[i];
      RefuseCollateral(Completed(f), i);
      ReleasePastLegs(f.s.ledger.wallets, o.userId, ReleaseOp(o), f.rest);
    }
    RefuseExact(f.s, i);
  }

  lemma ReserveFineExactIff(f: Fine, step: Step)
    requires step.Reserve? && Input(step) && Holds(f) && SupplyFits(f.s) && WalletsFit(f.s.ledger.wallets)
    ensures Do64(f.s, step) == Do(f.s, step) <==> FineHarmless(f, Coarse(step))
  {
    if step.user in f.s.ledger.wallets { HoldingsBounded(f, step.user); }
    ReservationExactIff(f.s, step);
  }

  lemma CoarseFollows(f: Fine, step: Step)
    requires !step.Reserve? && (step.Refuse? ==> Do64(f.s, step) == Do(f.s, step))
    ensures DoFine64(f, Coarse(step)) == DoFine(f, Coarse(step)) && FineHarmless(f, Coarse(step))
  {
  }

  lemma CoarseExactIff(f: Fine, step: Step)
    requires FineOk(f) && Bounded(f) && SupplyFits(f.s) && WalletsFit(f.s.ledger.wallets) && Input(step)
    requires FineHarmless(f, Coarse(step)) ==> WalletsFit(DoFine(f, Coarse(step)).s.ledger.wallets)
    ensures DoFine64(f, Coarse(step)) == DoFine(f, Coarse(step)) <==> FineHarmless(f, Coarse(step))
  {
    if step.Reserve? {
      ReserveFineExactIff(f, step);
    } else {
      if step.Refuse? { RefuseFineExact(f, step.i); }
      CoarseFollows(f, step);
    }
  }

  // A step comes out exactly if and only if it is harmless.
  lemma StepFineExactIff(f: Fine, step: FineStep)
    requires FineMachineOk(f) && FineInput(step)
    requires SupplyFits(f.s) && SupplyFits(DoFine(f, step).s) && WalletsFit(f.s.ledger.wallets)
    ensures DoFine64(f, step) == DoFine(f, step) <==> FineHarmless(f, step)
    ensures FineHarmless(f, step) ==> WalletsFit(DoFine(f, step).s.ledger.wallets)
  {
    StepFineMachineOk(f, step);
    FineBounded(f);
    FineBounded(DoFine(f, step));
    if FineHarmless(f, step) { HarmlessKeepsFit(f, step); }
    match step
    case Coarse(c) => CoarseExactIff(f, c);
    case Take => FineStepRefines(f, step); TakeExact(f);
    case Begin(i) => BeginExact(f, i);
    case OneLeg => LegExact(f);
    case _ =>
  }

  function SellOf(id: string, user: string, price: int, quantity: int): FineStep {
    Coarse(Reserve(id, user, Sell, price, quantity))
  }

  ghost predicate EverySellFits(f: Fine, id: string, user: string) {
    forall p, q :: FineInput(SellOf(id, user, p, q)) ==>
      DoFine64(f, SellOf(id, user, p, q)) == DoFine(f, SellOf(id, user, p, q))
  }

  // Every SELL reservation that can come next fits if and only if all the user has,
  // available and locked, does.
  lemma NextSellFits(f: Fine, id: string, user: string)
    requires WalletsFit(f.s.ledger.wallets) && user in f.s.ledger.wallets
    requires id !in f.s.accepted && user != "" && f.s.book.symbol != ""
    ensures EverySellFits(f, id, user) <==> Total(VIB, f.s.ledger.wallets[user]) <= MAX_INT64
  {
    var w := f.s.ledger.wallets[user];
    assert WalletFits(w);
    forall p, q | FineInput(SellOf(id, user, p, q))
      ensures ReachesWallet(f.s, SellOf(id, user, p, q).step) <==> 0 < p && 0 < q
      ensures DoFine64(f, SellOf(id, user, p, q)) == DoFine(f, SellOf(id, user, p, q)) <==>
          (0 < p && 0 < q && q <= w.vibraniumAvailable ==> w.vibraniumLocked + q <= MAX_INT64)
    {
      var step := SellOf(id, user, p, q).step;
      if ReachesWallet(f.s, step) { SellExactIff(f.s, step); }
    }
    assert FineInput(SellOf(id, user, 1, w.vibraniumAvailable));
  }

  // ----- Exactly when a run is exact -----

  ghost predicate FineInputs(steps: seq<FineStep>) { steps == [] || (FineInput(steps[0]) && FineInputs(steps[1..])) }

  // Along the exact run, no BUY is taken for a wrapped product and no SELL locks
  // more than fits.
  ghost predicate FineHarmlessRun(f: Fine, steps: seq<FineStep>)
    decreases |steps|
  {
    steps == [] || (FineHarmless(f, steps[0]) && FineHarmlessRun(DoFine(f, steps[0]), steps[1..]))
  }

  ghost predicate FineAgrees(f: Fine, steps: seq<FineStep>) {
    forall k :: 0 <= k <= |steps| ==> RunFine64(f, steps[..k]) == RunFine(f, steps[..k])
  }

  lemma FirstSteps(f: Fine, steps: seq<FineStep>, k: nat)
    requires k < |steps|
    ensures RunFine64(f, steps[..k + 1]) == RunFine64(DoFine64(f, steps[0]), steps[1..][..k])
    ensures RunFine(f, steps[..k + 1]) == RunFine(DoFine(f, steps[0]), steps[1..][..k])
  {
    assert steps[..k + 1][1..] == steps[1..][..k];
  }

  lemma FineAgreesStepwise(f: Fine, steps: seq<FineStep>)
    requires steps != []
    ensures FineAgrees(f, steps) <==>
        DoFine64(f, steps[0]) == DoFine(f, steps[0]) && FineAgrees(DoFine(f, steps[0]), steps[1..])
  {
    var tail := steps[1..];
    if FineAgrees(f, steps) {
      FirstSteps(f, steps, 0);
      assert RunFine64(f, steps[..0 + 1]) == RunFine(f, steps[..0 + 1]) && tail[..0] == [];
      assert DoFine64(f, steps[0]) == DoFine(f, steps[0]);
      forall k | 0 <= k <= |tail|
        ensures RunFine64(DoFine(f, steps[0]), tail[..k]) == RunFine(DoFine(f, steps[0]), tail[..k])
      {
        FirstSteps(f, steps, k);
        assert RunFine64(f, steps[..k + 1]) == RunFine(f, steps[..k + 1]);
      }
    }
    if DoFine64(f, steps[0]) == DoFine(f, steps[0]) && FineAgrees(DoFine(f, steps[0]), tail) {
      forall k | 0 <= k <= |steps|
        ensures RunFine64(f, steps[..k]) == RunFine(f, steps[..k])
      {
        if k > 0 {
          FirstSteps(f, steps, k - 1);
          assert RunFine64(DoFine(f, steps[0]), tail[..k - 1]) == RunFine(DoFine(f, steps[0]), tail[..k - 1]);
        }
      }
    }
  }

  lemma FineSeedsGrow(f: Fine, steps: seq<FineStep>, a: Asset)
    requires FineOk(f)
    ensures Supply(a, f.s.seeds) <= Supply(a, RunFine(f, steps).s.seeds)
  {
    FineRunRefines(f, steps);
    SeedsGrow(Completed(f), Shadows(f, steps), a);
  }

  lemma FineSupplyFits(f: Fine, steps: seq<FineStep>)
    requires FineOk(f) && SupplyFits(RunFine(f, steps).s)
    ensures SupplyFits(f.s)
  {
    FineSeedsGrow(f, steps, COP);
    FineSeedsGrow(f, steps, VIB);
  }

  lemma {:induction false} FineRunExactIff(f: Fine, steps: seq<FineStep>)
    requires FineMachineOk(f) && WalletsFit(f.s.ledger.wallets) && FineInputs(steps) && SupplyFits(RunFine(f, steps).s)
    ensures FineAgrees(f, steps) <==> FineHarmlessRun(f, steps)
    decreases |steps|
  {
    if steps == [] {
      assert FineAgrees(f, steps);
    } else {
      FineAgreesStepwise(f, steps);
      StepFineMachineOk(f, steps[0]);
      FineSupplyFits(f, steps);
      FineSupplyFits(DoFine(f, steps[0]), steps[1..]);
      StepFineExactIff(f, steps[0]);
      if FineHarmless(f, steps[0]) { FineRunExactIff(DoFine(f, steps[0]), steps[1..]); }
    }
  }

  lemma FineInitOk(producer: string, symbol: string)
    ensures FineMachineOk(FineInit(producer, symbol)) && WalletsFit(FineInit(producer, symbol).s.ledger.wallets)
  {
    var f := FineInit(producer, symbol);
    InitSound(producer, symbol);
    assert Publish(producer, [], []) == [] && Completed(f) == f.s;
  }

  // As long as the seeded supply fits in 64 bits, a fine machine run is the exact run
  // at every moment if and only if each of its reservations is harmless.
  lemma FineMachineRunIsExact(producer: string, symbol: string, steps: seq<FineStep>)
    requires FineInputs(steps) && SupplyFits(FineAfter(producer, symbol, steps).s)
    ensures FineAgrees(FineInit(producer, symbol), steps) <==> FineHarmlessRun(FineInit(producer, symbol), steps)
  {
    FineInitOk(producer, symbol);
    FineRunExactIff(FineInit(producer, symbol), steps);
  }

  // ----- A bound known beforehand -----

  ghost predicate FineFitting(step: FineStep) { step.Coarse? ==> Fitting(step.step) }

  ghost predicate AllFineFitting(steps: seq<FineStep>) {
    steps == [] || (FineFitting(steps[0]) && AllFineFitting(steps[1..]))
  }

  // The seeded Vibranium fits together with what any trade with oneself moves.
  ghost predicate SelfTradesFit(s: State) {
    forall e :: e in s.log && IsTrade(e) && e.trade.value.buyerId == e.trade.value.sellerId ==>
      Supply(VIB, s.seeds) + e.trade.value.quantity <= MAX_INT64
  }

  lemma {:induction false} FineLogGrows(f: Fine, steps: seq<FineStep>, e: Event)
    requires e in f.s.log
    ensures e in RunFine(f, steps).s.log
    decreases |steps|
  {
    if steps != [] {
      FineLogGrows(DoFine(f, steps[0]), steps[1..], e);
    }
  }

  lemma SelfTradesFitBefore(f: Fine, steps: seq<FineStep>)
    requires FineOk(f) && SelfTradesFit(RunFine(f, steps).s)
    ensures SelfTradesFit(f.s)
  {
    FineSeedsGrow(f, steps, VIB);
    forall e | e in f.s.log { FineLogGrows(f, steps, e); }
  }

  lemma TwiceFits(f: Fine, u: string)
    requires Holds(f) && SupplyFits(f.s) && SelfTradesFit(f.s) && u in f.s.ledger.wallets
    requires f.event.Some? ==> f.event.value in f.s.log
    ensures f.s.ledger.wallets[u].vibraniumLocked <= MAX_INT64
  {
    HoldingsBounded(f, u);
  }

  lemma FittingIsFineHarmless(f: Fine, step: FineStep)
    requires AllSettling(f.rest) && FineFitting(step)
    requires forall u :: u in DoFine(f, step).s.ledger.wallets ==>
        DoFine(f, step).s.ledger.wallets[u].vibraniumLocked <= MAX_INT64
    ensures FineHarmless(f, step)
  {
    if step.Coarse? && ReachesWallet(f.s, step.step) && step.step.side == Sell {
      assert step.step.user in DoFine(f, step).s.ledger.wallets;
    }
  }

  lemma FittingStepIsHarmless(f: Fine, step: FineStep)
    requires FineMachineOk(f) && FineFitting(step)
    requires SupplyFits(DoFine(f, step).s) && SelfTradesFit(DoFine(f, step).s)
    ensures FineHarmless(f, step)
  {
    var f' := DoFine(f, step);
    StepFineSound(f, step);
    SoundHolds(f');
    forall u | u in f'.s.ledger.wallets
      ensures f'.s.ledger.wallets[u].vibraniumLocked <= MAX_INT64
    {
      TwiceFits(f', u);
    }
    FittingIsFineHarmless(f, step);
  }

  lemma {:induction false} FittingRunIsHarmless(f: Fine, steps: seq<FineStep>)
    requires FineMachineOk(f) && AllFineFitting(steps)
    requires SupplyFits(RunFine(f, steps).s) && SelfTradesFit(RunFine(f, steps).s)
    ensures FineInputs(steps) && FineHarmlessRun(f, steps)
    decreases |steps|
  {
    if steps != [] {
      var f' := DoFine(f, steps[0]);
      StepFineMachineOk(f, steps[0]);
      FineSupplyFits(f', steps[1..]);
      SelfTradesFitBefore(f', steps[1..]);
      FittingStepIsHarmless(f, steps[0]);
      FittingRunIsHarmless(f', steps[1..]);
    }
  }

  // If every BUY's product fits, and the seeded supply does even with the quantity
  // of a self-trade added, the machine never strays.
  lemma FittingRunsAreExact(producer: string, symbol: string, steps: seq<FineStep>)
    requires AllFineFitting(steps) && SupplyFits(FineAfter(producer, symbol, steps).s)
    requires SelfTradesFit(FineAfter(producer, symbol, steps).s)
    ensures FineAgrees(FineInit(producer, symbol), steps)
  {
    FineInitOk(producer, symbol);
    FittingRunIsHarmless(FineInit(producer, symbol), steps);
    FineMachineRunIsExact(producer, symbol, steps);
  }

  // No trade moves more than was seeded, so twice the seeded Vibranium is enough.
  lemma TwiceTheSeedsIsEnough(producer: string, symbol: string, steps: seq<FineStep>)
    requires AllFineFitting(steps)
    requires var seeds := FineAfter(producer, symbol, steps).s.seeds;
      Supply(COP, seeds) <= MAX_INT64 && 2 * Supply(VIB, seeds) <= MAX_INT64
    ensures FineAgrees(FineInit(producer, symbol), steps)
  {
    FineEventsBounded(producer, symbol, steps);
    HalfTheSupply(FineAfter(producer, symbol, steps));
    FittingRunsAreExact(producer, symbol, steps);
  }

  lemma FineEventsBounded(producer: string, symbol: string, steps: seq<FineStep>)
    requires AllFineFitting(steps)
    ensures EventsBounded(Completed(FineAfter(producer, symbol, steps)))
  {
    FineInitOk(producer, symbol);
    FittingInputs(steps);
    FineRunMachineOk(FineInit(producer, symbol), steps);
  }

  lemma {:induction false} FittingInputs(steps: seq<FineStep>)
    requires AllFineFitting(steps)
    ensures FineInputs(steps)
  {
    if steps != [] { FittingInputs(steps[1..]); }
  }

  lemma {:induction false} FineRunMachineOk(f: Fine, steps: seq<FineStep>)
    requires FineMachineOk(f) && FineInputs(steps)
    ensures FineMachineOk(RunFine(f, steps))
    decreases |steps|
  {
    if steps != [] {
      StepFineMachineOk(f, steps[0]);
      FineRunMachineOk(DoFine(f, steps[0]), steps[1..]);
    }
  }

  lemma HalfTheSupply(f: Fine)
    requires EventsBounded(Completed(f))
    requires Supply(COP, f.s.seeds) <= MAX_INT64 && 2 * Supply(VIB, f.s.seeds) <= MAX_INT64
    ensures SupplyFits(f.s) && SelfTradesFit(f.s)
  {
    var s := Completed(f);
    forall e | e in f.s.log && IsTrade(e)
      ensures 0 <= e.trade.value.quantity <= Supply(VIB, f.s.seeds)
    {
      assert e in s.log && 0 <= Amount(VIB, e) <= Supply(VIB, s.seeds);
    }
  }

  // ----- Balances and samples along a run -----

  lemma {:induction false} FineRunSound(f: Fine, steps: seq<FineStep>)
    requires FineSound(f)
    ensures FineSound(RunFine(f, steps))
    decreases |steps|
  {
    if steps != [] {
      StepFineSound(f, steps[0]);
      FineRunSound(DoFine(f, steps[0]), steps[1..]);
    }
  }

  lemma FineRunHolds(producer: string, symbol: string, steps: seq<FineStep>)
    ensures Holds(FineAfter(producer, symbol, steps))
  {
    FineInitOk(producer, symbol);
    FineRunSound(FineInit(producer, symbol), steps);
    SoundHolds(FineAfter(producer, symbol, steps));
  }

  // At every moment every balance fits, unless a trade with oneself stands halfway;
  // then they do if and only if what its owner has locked does.
  lemma BalancesFitExactly(producer: string, symbol: string, steps: seq<FineStep>)
    requires SupplyFits(FineAfter(producer, symbol, steps).s)
    ensures var f := FineAfter(producer, symbol, steps);
      WalletsFit(f.s.ledger.wallets) <==> LockedFits(f)
  {
    FineRunHolds(producer, symbol, steps);
    FitsExactly(FineAfter(producer, symbol, steps));
  }

  // A sample adds up the wallets one by one. The COP sums always fit; the Vibranium
  // sums do unless a trade stands halfway, and then the last one does if and only if
  // the seeded supply fits together with the quantity of the trade.
  lemma SampleFits(producer: string, symbol: string, steps: seq<FineStep>, list: seq<Wallet>, n: nat)
    requires SupplyFits(FineAfter(producer, symbol, steps).s)
    requires Lists(list, FineAfter(producer, symbol, steps).s.ledger.wallets) && n <= |list|
    ensures var f := FineAfter(producer, symbol, steps);
      var fits := Halfway(f) ==> Supply(VIB, f.s.seeds) + f.event.value.trade.value.quantity <= MAX_INT64;
      && Fits(Sum(list[..n], Totals(COP))) && (fits ==> Fits(Sum(list[..n], Totals(VIB))))
      && (Fits(Sum(list, Totals(VIB))) <==> fits)
  {
    var f := FineAfter(producer, symbol, steps);
    FineRunHolds(producer, symbol, steps);
    PartialTotal(COP, list, f.s.ledger.wallets, n);
    PartialTotal(VIB, list, f.s.ledger.wallets, n);
    if Halfway(f) { SellerLegIsNext(f.s.ledger.wallets, f.event.value, f.rest); }
  }

  lemma PartialTotal(a: Asset, list: seq<Wallet>, ws: Wallets, n: nat)
    requires AllNonNegative(ws) && Lists(list, ws) && n <= |list|
    ensures 0 <= Sum(list[..n], Totals(a)) <= Sum(list, Totals(a)) == Supply(a, ws)
  {
    ListingTotal(a, list, ws);
    forall i | 0 <= i < |list|
      ensures 0 <= Totals(a)(list[i])
    {
      assert ws[list[i].userId] == list[i] && NonNegative(list[i]);
    }
    SumPrefix(list, n, Totals(a));
  }
}
