// The system at the grain of its smallest steps. Settlement marks an event, then
// updates one wallet at a time; the engine changes its book, then publishes one
// event at a time. Anything else - a reservation, a compensation, a sample of the
// money supply, the other of the two - can come in between. Every such run is a
// run of the coarse machine with events published and settled at once.

module Grain {
  import opened Domain
  import opened EventStream
  import opened Claims
  import opened Ledger
  import opened Pipeline
  import opened Collateral
  import opened Accounts
  import opened Theorems

  // One wallet update that settling an event asks for.
  datatype Leg = Leg(user: string, op: WalletOp)

  function Legs(e: Event): seq<Leg> {
    if e.kind == TradeEvent && e.trade.Some? then
      var t := e.trade.value;
      [Leg(t.buyerId, SettleBuy(t.Notional(), t.quantity)), Leg(t.sellerId, SettleSell(t.quantity, t.Notional()))]
    else if e.kind == OrderUpdated && e.order.Some? then
      var u := e.order.value.userId;
      (if e.releaseCOP > 0 then [Leg(u, ReleaseCOP(e.releaseCOP))] else [])
      + (if e.releaseVibranium > 0 then [Leg(u, ReleaseVibranium(e.releaseVibranium))] else [])
    else []
  }

  function ApplyLegs(ws: Wallets, legs: seq<Leg>): Wallets {
    if legs == [] then ws else ApplyLegs(Updated(ws, legs[0].user, legs[0].op), legs[1..])
  }

  predicate LegsClean(ws: Wallets, legs: seq<Leg>) {
    legs == []
    || (UpdateError(ws, legs[0].user, legs[0].op).None? && LegsClean(Updated(ws, legs[0].user, legs[0].op), legs[1..]))
  }

  predicate IsSettling(op: WalletOp) { !op.ReserveCOP? && !op.ReserveVibranium? }

  predicate AllSettling(legs: seq<Leg>) { forall l :: l in legs ==> IsSettling(l.op) }

  lemma OneLegApplied(ws: Wallets, a: Leg)
    ensures ApplyLegs(ws, [a]) == Updated(ws, a.user, a.op)
    ensures LegsClean(ws, [a]) <==> UpdateError(ws, a.user, a.op).None?
  {
    assert [a][1..] == [];
  }

  lemma TwoLegsApplied(ws: Wallets, a: Leg, b: Leg)
    ensures ApplyLegs(ws, [a, b]) == Updated(Updated(ws, a.user, a.op), b.user, b.op)
    ensures LegsClean(ws, [a, b]) <==>
        UpdateError(ws, a.user, a.op).None? && UpdateError(Updated(ws, a.user, a.op), b.user, b.op).None?
  {
    assert [a, b][1..] == [b];
    OneLegApplied(Updated(ws, a.user, a.op), b);
  }

  // The legs of an event are the wallet updates that settling it makes.
  lemma LegsAreMoney(ws: Wallets, e: Event)
    ensures ApplyLegs(ws, Legs(e)) == Money(ws, e)
    ensures LegsClean(ws, Legs(e)) <==> SettlesCleanly(ws, e)
    ensures AllSettling(Legs(e))
  {
    var legs := Legs(e);
    if |legs| == 1 {
      assert legs == [legs[0]];
      OneLegApplied(ws, legs[0]);
    } else if |legs| == 2 {
      assert legs == [legs[0], legs[1]];
      TwoLegsApplied(ws, legs[0], legs[1]);
    }
  }

  // ----- The fine machine -----

  // event and rest are what settlement has in hand, outbox what the engine has.
  datatype Fine = Fine(s: State, event: Option<Event>, rest: seq<Leg>, outbox: seq<Event>)

  datatype FineStep =
    | Coarse(step: Step)  // any step but the engine's and deliveries
    | Take                // the engine takes a command and changes the book
    | Emit                // and publishes the next event of it
    | Begin(i: nat)       // mark an event; an order update is projected at once
    | OneLeg              // the next wallet update
    | Finish              // a trade enters the history once both legs are through

  function DoFine(f: Fine, step: FineStep): Fine {
    match step
    case Coarse(c) => if c.Deliver? || c.Engine? then f else f.(s := Do(f.s, c))
    case Take =>
      if f.outbox != [] || f.s.queue == [] then f
      else
        var (book, events) := Process(f.s.book, f.s.queue[0]);
        f.(s := f.s.(queue := f.s.queue[1..], book := book), outbox := events)
    case Emit =>
      if f.outbox == [] then f
      else f.(s := f.s.(log := Publish(f.s.producer, f.s.log, [f.outbox[0]])), outbox := f.outbox[1..])
    case Begin(i) =>
      if f.event.Some? || i >= |f.s.log| || f.s.log[i].id in f.s.ledger.journal then f
      else
        var e, l := f.s.log[i], f.s.ledger;
        f.(s := f.s.(ledger := l.(journal := l.journal + {e.id}, orders := Projected(l.orders, e)),
                     applied := f.s.applied + [e]),
           event := Some(e), rest := Legs(e))
    case OneLeg =>
      if f.rest == [] then f
      else f.(s := WithWallets(f.s, Updated(f.s.ledger.wallets, f.rest[0].user, f.rest[0].op)), rest := f.rest[1..])
    case Finish =>
      if f.event.None? || f.rest != [] then f
      else f.(s := f.s.(ledger := f.s.ledger.(trades := Recorded(f.s.ledger.trades, f.event.value))), event := None)
  }

  function WithWallets(s: State, ws: Wallets): State { s.(ledger := s.ledger.(wallets := ws)) }

  function RunFine(f: Fine, steps: seq<FineStep>): Fine
    decreases |steps|
  {
    if steps == [] then f else RunFine(DoFine(f, steps[0]), steps[1..])
  }

  // The state once the event in hand is settled and the outbox is published.
  function Completed(f: Fine): State {
    var l := f.s.ledger;
    f.s.(ledger := l.(wallets := ApplyLegs(l.wallets, f.rest),
                      trades := if f.event.Some? then Recorded(l.trades, f.event.value) else l.trades),
         log := Publish(f.s.producer, f.s.log, f.outbox))
  }

  // What is left of the event in hand will go through.
  ghost predicate InHand(f: Fine) {
    && (f.event.None? ==> f.rest == [])
    && LegsClean(f.s.ledger.wallets, f.rest) && AllSettling(f.rest)
  }

  ghost predicate FineOk(f: Fine) {
    InHand(f) && Sound(Completed(f))
  }

  // ----- Other wallet updates between two legs -----

  lemma MovesCommute(w: Wallet, op: WalletOp, leg: WalletOp)
    requires IsSettling(leg) && Check(w, leg).None? && Check(w, op).None?
    requires !IsSettling(op) || op.ReleaseCOP? || op.ReleaseVibranium?
    requires IsSettling(op) ==> Check(Moved(w, leg), op).None?
    ensures Check(Moved(w, op), leg).None? && Check(Moved(w, leg), op).None?
    ensures Moved(Moved(w, op), leg) == Moved(Moved(w, leg), op)
  {
  }

  // A reservation that succeeds between legs commutes with a leg.
  lemma ReservePastLeg(ws: Wallets, u: string, op: WalletOp, leg: Leg)
    requires !IsSettling(op) && IsSettling(leg.op)
    requires UpdateError(ws, u, op).None? && UpdateError(ws, leg.user, leg.op).None?
    ensures UpdateError(Updated(ws, u, op), leg.user, leg.op).None?
    ensures UpdateError(Updated(ws, leg.user, leg.op), u, op).None?
    ensures Updated(Updated(ws, u, op), leg.user, leg.op) == Updated(Updated(ws, leg.user, leg.op), u, op)
  {
    if u == leg.user { MovesCommute(ws[u], op, leg.op); }
  }

  lemma {:induction false} ReservePastLegs(ws: Wallets, u: string, op: WalletOp, legs: seq<Leg>)
    requires !IsSettling(op) && AllSettling(legs) && LegsClean(ws, legs) && UpdateError(ws, u, op).None?
    ensures UpdateError(ApplyLegs(ws, legs), u, op).None? && LegsClean(Updated(ws, u, op), legs)
    ensures ApplyLegs(Updated(ws, u, op), legs) == Updated(ApplyLegs(ws, legs), u, op)
  {
    if legs != [] {
      assert legs[0] in legs;
      ReservePastLeg(ws, u, op, legs[0]);
      ReservePastLegs(Updated(ws, legs[0].user, legs[0].op), u, op, legs[1..]);
    }
  }

  lemma ReleaseWasPossible(w: Wallet, op: WalletOp, leg: WalletOp)
    requires (op.ReleaseCOP? || op.ReleaseVibranium?) && IsSettling(leg)
    requires Check(w, leg).None? && Check(Moved(w, leg), op).None?
    ensures Check(w, op).None?
  {
  }

  // A release that would still succeed after a leg commutes with it.
  lemma ReleasePastLeg(ws: Wallets, u: string, op: WalletOp, leg: Leg)
    requires (op.ReleaseCOP? || op.ReleaseVibranium?) && IsSettling(leg.op)
    requires UpdateError(ws, leg.user, leg.op).None? && UpdateError(Updated(ws, leg.user, leg.op), u, op).None?
    ensures UpdateError(ws, u, op).None? && UpdateError(Updated(ws, u, op), leg.user, leg.op).None?
    ensures Updated(Updated(ws, u, op), leg.user, leg.op) == Updated(Updated(ws, leg.user, leg.op), u, op)
  {
    if u == leg.user {
      ReleaseWasPossible(ws[u], op, leg.op);
      MovesCommute(ws[u], op, leg.op);
    }
  }

  lemma {:induction false} ReleasePastLegs(ws: Wallets, u: string, op: WalletOp, legs: seq<Leg>)
    requires (op.ReleaseCOP? || op.ReleaseVibranium?) && AllSettling(legs) && LegsClean(ws, legs)
    requires UpdateError(ApplyLegs(ws, legs), u, op).None?
    ensures UpdateError(ws, u, op).None? && LegsClean(Updated(ws, u, op), legs)
    ensures ApplyLegs(Updated(ws, u, op), legs) == Updated(ApplyLegs(ws, legs), u, op)
  {
    if legs != [] {
      assert legs[0] in legs;
      ReleasePastLegs(Updated(ws, legs[0].user, legs[0].op), u, op, legs[1..]);
      ReleasePastLeg(ws, u, op, legs[0]);
    }
  }

  lemma {:induction false} SeedPastLegs(ws: Wallets, u: string, w: Wallet, legs: seq<Leg>)
    requires LegsClean(ws, legs) && u !in ws
    ensures u !in ApplyLegs(ws, legs) && LegsClean(ws[u := w], legs)
    ensures ApplyLegs(ws[u := w], legs) == ApplyLegs(ws, legs)[u := w]
  {
    if legs != [] {
      var l := legs[0];
      assert Updated(ws[u := w], l.user, l.op) == Updated(ws, l.user, l.op)[u := w];
      SeedPastLegs(Updated(ws, l.user, l.op), u, w, legs[1..]);
    }
  }

  lemma {:induction false} LegsKeepUsers(ws: Wallets, legs: seq<Leg>)
    ensures ApplyLegs(ws, legs).Keys == ws.Keys
  {
    if legs != [] {
      LegsKeepUsers(Updated(ws, legs[0].user, legs[0].op), legs[1..]);
    }
  }

  // ----- The fine machine runs the coarse one -----

  // The coarse steps, none or one, that a fine step amounts to.
  function Shadow(f: Fine, step: FineStep): seq<Step> {
    match step
    case Coarse(c) => if DoFine(f, step) == f then [] else [c]
    case Take => if DoFine(f, step) == f then [] else [Engine]
    case Emit => []
    case Begin(i) => if DoFine(f, step) == f then [] else [Deliver(i)]
    case OneLeg => []
    case Finish => []
  }

  ghost predicate Refines(f: Fine, step: FineStep) {
    InHand(DoFine(f, step)) && Completed(DoFine(f, step)) == Run(Completed(f), Shadow(f, step))
  }

  lemma FineReserve(f: Fine, step: Step)
    requires InHand(f) && step.Reserve?
    ensures Refines(f, Coarse(step))
  {
    var o := NewOrder(step.id, step.user, f.s.book.symbol, step.side, step.price, step.quantity);
    RunOne(Completed(f), step);
    if DoReserve(f.s, o) != f.s {
      ReservePastLegs(f.s.ledger.wallets, o.userId, ReserveOp(o), f.rest);
    }
  }

  lemma FineRefuse(f: Fine, step: Step)
    requires InHand(f) && step.Refuse?
    requires step.i < |f.s.reserved| ==>
        var o := f.s.reserved[step.i]; UpdateError(Completed(f).ledger.wallets, o.userId, ReleaseOp(o)).None?
    ensures Refines(f, Coarse(step))
  {
    RunOne(Completed(f), step);
    if step.i < |f.s.reserved| {
      var o := f.s.reserved[step.i];
      ReleasePastLegs(f.s.ledger.wallets, o.userId, ReleaseOp(o), f.rest);
    }
  }

  lemma FineSeed(f: Fine, step: Step)
    requires InHand(f) && step.Seed?
    ensures Refines(f, Coarse(step))
  {
    RunOne(Completed(f), step);
    LegsKeepUsers(f.s.ledger.wallets, f.rest);
    if step.user !in f.s.ledger.wallets {
      SeedPastLegs(f.s.ledger.wallets, step.user, Wallet(step.user, step.cop, 0, step.vibranium, 0), f.rest);
    }
  }

  // Steps that touch no wallet.
  lemma FineQuiet(f: Fine, step: Step)
    requires InHand(f) && (step.Enqueue? || step.Submit? || step.Engine? || step.Deliver?)
    ensures Refines(f, Coarse(step))
  {
    RunOne(Completed(f), step);
  }

  lemma FineBegin(f: Fine, i: nat)
    requires InHand(f)
    requires DoFine(f, Begin(i)) != f ==> SettlesCleanly(f.s.ledger.wallets, f.s.log[i])
    ensures Refines(f, Begin(i))
  {
    if DoFine(f, Begin(i)) != f {
      RunOne(Completed(f), Deliver(i));
      assert Completed(f).log[i] == f.s.log[i];
      LegsAreMoney(f.s.ledger.wallets, f.s.log[i]);
    }
  }

  lemma FineTake(f: Fine)
    requires InHand(f)
    ensures Refines(f, Take)
  {
    if DoFine(f, Take) != f {
      RunOne(Completed(f), Engine);
      assert Publish(f.s.producer, f.s.log, []) == f.s.log;
    }
  }

  lemma FineEmit(f: Fine)
    requires InHand(f)
    ensures Refines(f, Emit)
  {
    if f.outbox != [] {
      PublishTwice(f.s.producer, f.s.log, [f.outbox[0]], f.outbox[1..]);
      assert f.outbox == [f.outbox[0]] + f.outbox[1..];
    }
  }

  lemma FineLegOrFinish(f: Fine, step: FineStep)
    requires InHand(f) && (step.OneLeg? || step.Finish?)
    ensures Refines(f, step)
  {
  }

  lemma FineStepRefines(f: Fine, step: FineStep)
    requires FineOk(f)
    ensures Refines(f, step) && FineOk(DoFine(f, step))
  {
    match step {
      case Coarse(c) =>
        match c {
          case Reserve(_, _, _, _, _) => FineReserve(f, c);
          case Refuse(i) =>
            if i < |f.s.reserved| { RefuseCollateral(Completed(f), i); }
            FineRefuse(f, c);
          case Seed(_, _, _) => FineSeed(f, c);
          case _ => FineQuiet(f, c);
        }
      case Begin(i) =>
        if DoFine(f, step) != f {
          assert Completed(f).ledger.wallets == f.s.ledger.wallets && Completed(f).log[i] == f.s.log[i];
          DeliverySettles(Completed(f), i);
        }
        FineBegin(f, i);
      case Take => FineTake(f);
      case Emit => FineEmit(f);
      case _ => FineLegOrFinish(f, step);
    }
    SoundRun(Completed(f), Shadow(f, step));
  }

  // ----- Whole runs -----

  function FineInit(producer: string, symbol: string): Fine { Fine(Init(producer, symbol), None, [], []) }

  function FineAfter(producer: string, symbol: string, steps: seq<FineStep>): Fine {
    RunFine(FineInit(producer, symbol), steps)
  }

  function Shadows(f: Fine, steps: seq<FineStep>): seq<Step>
    decreases |steps|
  {
    if steps == [] then [] else Shadow(f, steps[0]) + Shadows(DoFine(f, steps[0]), steps[1..])
  }

  lemma {:induction false} FineRunRefines(f: Fine, steps: seq<FineStep>)
    requires FineOk(f)
    ensures FineOk(RunFine(f, steps)) && Completed(RunFine(f, steps)) == Run(Completed(f), Shadows(f, steps))
    decreases |steps|
  {
    if steps != [] {
      FineStepRefines(f, steps[0]);
      FineRunRefines(DoFine(f, steps[0]), steps[1..]);
      RunAppend(Completed(f), Shadow(f, steps[0]), Shadows(DoFine(f, steps[0]), steps[1..]));
    }
  }

  // However settlement and the engine are interrupted, completing what they have in
  // hand leads to a state of the coarse machine.
  lemma FineRunsAreRuns(producer: string, symbol: string, steps: seq<FineStep>)
    ensures var f := FineAfter(producer, symbol, steps);
      FineOk(f) && exists coarse :: Completed(f) == After(producer, symbol, coarse)
  {
    var f0 := FineInit(producer, symbol);
    InitSound(producer, symbol);
    assert Publish(producer, [], []) == [] && Completed(f0) == f0.s;
    FineRunRefines(f0, steps);
    assert Completed(FineAfter(producer, symbol, steps)) == After(producer, symbol, Shadows(f0, steps));
  }

  // No wallet update of settlement ever fails, whatever came between two of them.
  lemma NoLegEverFails(producer: string, symbol: string, steps: seq<FineStep>)
    ensures var f := FineAfter(producer, symbol, steps);
      f.rest != [] ==> UpdateError(f.s.ledger.wallets, f.rest[0].user, f.rest[0].op).None?
  {
    FineRunsAreRuns(producer, symbol, steps);
  }

  // ----- What a sample between two legs sees -----

  function StillBrings(a: Asset, legs: seq<Leg>): int {
    if legs == [] then 0 else Brings(a, legs[0].op) + StillBrings(a, legs[1..])
  }

  function StillUnlocks(a: Asset, u: string, legs: seq<Leg>): int {
    if legs == [] then 0
    else (if legs[0].user == u then Unlocks(a, legs[0].op) else 0) + StillUnlocks(a, u, legs[1..])
  }

  lemma {:induction false} LegsMoveSupply(a: Asset, ws: Wallets, legs: seq<Leg>)
    requires LegsClean(ws, legs)
    ensures Supply(a, ApplyLegs(ws, legs)) == Supply(a, ws) + StillBrings(a, legs)
  {
    if legs != [] {
      UpdateMovesSupply(a, ws, legs[0].user, legs[0].op);
      LegsMoveSupply(a, Updated(ws, legs[0].user, legs[0].op), legs[1..]);
    }
  }

  lemma {:induction false} LegsMoveLocked(a: Asset, u: string, ws: Wallets, legs: seq<Leg>)
    requires LegsClean(ws, legs) && u in ws
    ensures u in ApplyLegs(ws, legs)
    ensures Locked(a, ApplyLegs(ws, legs)[u]) == Locked(a, ws[u]) - StillUnlocks(a, u, legs)
  {
    if legs != [] {
      LegsMoveLocked(a, u, Updated(ws, legs[0].user, legs[0].op), legs[1..]);
    }
  }

  lemma FineLocked(f: Fine, a: Asset, u: string)
    requires InHand(f) && u in f.s.ledger.wallets && u in Completed(f).ledger.wallets && Exact(Completed(f), a, u)
    ensures Locked(a, f.s.ledger.wallets[u])
         == Claimed(Completed(f), a, ByUser(u), f.s.ledger.journal) + StillUnlocks(a, u, f.rest)
  {
    LegsMoveLocked(a, u, f.s.ledger.wallets, f.rest);
  }

  // Between two wallet updates, a user has locked what the user's orders and
  // unsettled events claim, published or not, and what the event in hand has still
  // to take.
  lemma FineCollateral(producer: string, symbol: string, steps: seq<FineStep>, a: Asset, u: string)
    ensures var f := FineAfter(producer, symbol, steps);
      u in f.s.ledger.wallets ==>
        Locked(a, f.s.ledger.wallets[u])
        == Claimed(Completed(f), a, ByUser(u), f.s.ledger.journal) + StillUnlocks(a, u, f.rest)
  {
    var f := FineAfter(producer, symbol, steps);
    FineRunsAreRuns(producer, symbol, steps);
    if u in f.s.ledger.wallets {
      LegsKeepUsers(f.s.ledger.wallets, f.rest);
      FineLocked(f, a, u);
    }
  }

  // And the supply is off by what the event in hand has still to bring.
  lemma SupplyHere(f: Fine, a: Asset)
    requires FineOk(f)
    ensures Supply(a, f.s.ledger.wallets) + StillBrings(a, f.rest) == Supply(a, f.s.seeds)
  {
    LegsMoveSupply(a, f.s.ledger.wallets, f.rest);
    assert AccountsInv(Completed(f));
  }

  // The last n legs of an event.
  function Remaining(e: Event, n: nat): seq<Leg> {
    if n <= |Legs(e)| then Legs(e)[|Legs(e)| - n..] else Legs(e)
  }

  ghost predicate FromEvent(event: Option<Event>, rest: seq<Leg>) {
    rest == if event.None? then [] else Remaining(event.value, |rest|)
  }

  lemma NextLegRemains(e: Event, rest: seq<Leg>)
    requires FromEvent(Some(e), rest) && rest != []
    ensures FromEvent(Some(e), rest[1..])
  {
  }

  lemma {:induction false} RestIsOfEvent(f: Fine, steps: seq<FineStep>)
    requires FromEvent(f.event, f.rest)
    ensures FromEvent(RunFine(f, steps).event, RunFine(f, steps).rest)
    decreases |steps|
  {
    if steps != [] {
      if steps[0].OneLeg? && f.rest != [] { NextLegRemains(f.event.value, f.rest); }
      RestIsOfEvent(DoFine(f, steps[0]), steps[1..]);
    }
  }

  // Halfway through a trade: the buyer has paid, the seller has not delivered.
  ghost predicate Halfway(f: Fine) {
    f.event.Some? && f.event.value.kind == TradeEvent && f.event.value.trade.Some? && |f.rest| == 1
  }

  // So a sample is exact but for the moment between the two legs of a trade, when
  // the notional is missing from COP and the quantity is twice in Vibranium.
  ghost predicate Sampled(f: Fine) {
    && Supply(COP, f.s.ledger.wallets)
       == Supply(COP, f.s.seeds) - (if Halfway(f) then f.event.value.trade.value.Notional() else 0)
    && Supply(VIB, f.s.ledger.wallets)
       == Supply(VIB, f.s.seeds) + (if Halfway(f) then f.event.value.trade.value.quantity else 0)
  }

  lemma SampledHere(f: Fine)
    requires FineOk(f) && FromEvent(f.event, f.rest)
    ensures Sampled(f)
  {
    SupplyHere(f, COP);
    SupplyHere(f, VIB);
    if f.event.Some? { StillToBring(f.event.value, f.rest); }
  }

  lemma MidTradeSample(producer: string, symbol: string, steps: seq<FineStep>)
    ensures Sampled(FineAfter(producer, symbol, steps))
  {
    FineRunsAreRuns(producer, symbol, steps);
    RestIsOfEvent(FineInit(producer, symbol), steps);
    SampledHere(FineAfter(producer, symbol, steps));
  }

  lemma StillBringsOne(a: Asset, x: Leg)
    ensures StillBrings(a, [x]) == Brings(a, x.op)
  {
    assert [x][1..] == [];
  }

  lemma StillBringsTwo(a: Asset, x: Leg, y: Leg)
    ensures StillBrings(a, [x, y]) == Brings(a, x.op) + Brings(a, y.op)
  {
    assert [x, y][1..] == [y];
    StillBringsOne(a, y);
  }

  lemma StillBringsShort(a: Asset, rest: seq<Leg>)
    requires |rest| <= 2
    ensures StillBrings(a, rest)
         == (if |rest| > 0 then Brings(a, rest[0].op) else 0) + (if |rest| > 1 then Brings(a, rest[1].op) else 0)
  {
    if |rest| == 1 {
      assert rest == [rest[0]];
      StillBringsOne(a, rest[0]);
    } else if |rest| == 2 {
      assert rest == [rest[0], rest[1]];
      StillBringsTwo(a, rest[0], rest[1]);
    }
  }

  lemma LegsBring(e: Event)
    ensures |Legs(e)| <= 2
    ensures e.kind == TradeEvent && e.trade.Some? ==>
        var t := e.trade.value;
        && |Legs(e)| == 2
        && Brings(COP, Legs(e)[0].op) == -t.Notional() && Brings(COP, Legs(e)[1].op) == t.Notional()
        && Brings(VIB, Legs(e)[0].op) == t.quantity && Brings(VIB, Legs(e)[1].op) == -t.quantity
    ensures !(e.kind == TradeEvent && e.trade.Some?) ==> forall a, l :: l in Legs(e) ==> Brings(a, l.op) == 0
  {
  }

  lemma RestAt(legs: seq<Leg>, rest: seq<Leg>)
    requires rest == if |rest| <= |legs| then legs[|legs| - |rest|..] else legs
    ensures |rest| <= |legs| && forall i :: 0 <= i < |rest| ==> rest[i] == legs[|legs| - |rest| + i]
  {
  }

  lemma StillToBring(e: Event, rest: seq<Leg>)
    requires FromEvent(Some(e), rest)
    ensures var halfway := e.kind == TradeEvent && e.trade.Some? && |rest| == 1;
      && StillBrings(COP, rest) == (if halfway then e.trade.value.Notional() else 0)
      && StillBrings(VIB, rest) == (if halfway then -e.trade.value.quantity else 0)
  {
    RestAt(Legs(e), rest);
    StillBringsBy(e, rest, COP);
    StillBringsBy(e, rest, VIB);
  }

  lemma StillBringsBy(e: Event, rest: seq<Leg>, a: Asset)
    requires var n := |Legs(e)|; |rest| <= n && forall i :: 0 <= i < |rest| ==> rest[i] == Legs(e)[n - |rest| + i]
    ensures var halfway := e.kind == TradeEvent && e.trade.Some? && |rest| == 1;
      StillBrings(a, rest)
      == if !halfway then 0 else if a == COP then e.trade.value.Notional() else -e.trade.value.quantity
  {
    LegsBring(e);
    StillBringsShort(a, rest);
  }
}
