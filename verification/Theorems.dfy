// The whole-run theorems. A run starts with no users, an empty book and an empty
// log, and is any sequence of steps at all: every interleaving of seeding,
// reserving, submitting, refusing, matching, cancelling and settling, with
// events delivered in any order and any number of times.

module Theorems {
  import opened Domain
  import opened Sums
  import opened FlatBook
  import opened BookInvariant
  import opened EventStream
  import opened Claims
  import opened Ledger
  import opened Pipeline
  import opened Reachability
  import opened Collateral
  import opened Accounts
  import opened Lifecycle
  import opened OrderLife
  import opened Delivery
  import EventIds

  ghost predicate Sound(s: State) {
    Inv(s) && CollateralInv(s) && AccountsInv(s) && ProjectionInv(s) && ReservationsInv(s) && StoresInv(s)
  }

  function After(producer: string, symbol: string, steps: seq<Step>): State {
    Run(Init(producer, symbol), steps)
  }

  lemma InitSound(producer: string, symbol: string)
    ensures Sound(Init(producer, symbol))
  {
    InitMoney(producer, symbol);
    InitOrders(producer, symbol);
  }

  lemma InitMoney(producer: string, symbol: string)
    ensures var s := Init(producer, symbol); Inv(s) && CollateralInv(s) && AccountsInv(s)
  {
  }

  lemma InitOrders(producer: string, symbol: string)
    ensures var s := Init(producer, symbol); ProjectionInv(s) && ReservationsInv(s) && StoresInv(s)
  {
    assert Bare(Init(producer, symbol).log) == [];
  }

  lemma StepSound(s: State, step: Step)
    requires Sound(s)
    ensures Sound(Do(s, step))
  {
    StepInv(s, step);
    StepCollateral(s, step);
    StepAccounts(s, step);
    StepProjection(s, step);
    StepReservations(s, step);
    StepStores(s, step);
  }

  lemma {:induction false} SoundRun(s: State, steps: seq<Step>)
    requires Sound(s)
    ensures Sound(Run(s, steps))
    decreases |steps|
  {
    if steps != [] {
      StepSound(s, steps[0]);
      SoundRun(Do(s, steps[0]), steps[1..]);
    }
  }

  lemma EveryRunSound(producer: string, symbol: string, steps: seq<Step>)
    ensures Sound(After(producer, symbol, steps))
  {
    InitSound(producer, symbol);
    SoundRun(Init(producer, symbol), steps);
  }

  // ----- Money -----

  // What a user has locked is exactly what waiting orders, resting orders and
  // unsettled events of that user still claim, and no balance is negative.
  lemma ExactCollateral(producer: string, symbol: string, steps: seq<Step>, a: Asset, u: string)
    ensures var s := After(producer, symbol, steps);
      u in s.ledger.wallets ==>
        && Locked(a, s.ledger.wallets[u])
           == Sum(s.reserved, OrderClaim(a, ByUser(u))) + Sum(PlacedOrders(s.queue), OrderClaim(a, ByUser(u)))
              + Sum(s.book.bids, OrderClaim(a, ByUser(u))) + Sum(s.book.asks, OrderClaim(a, ByUser(u)))
              + Sum(s.log, OpenClaim(a, ByUser(u), s.ledger.journal))
        && 0 <= Locked(a, s.ledger.wallets[u]) && 0 <= Available(a, s.ledger.wallets[u])
  {
    var s := After(producer, symbol, steps);
    EveryRunSound(producer, symbol, steps);
    if u in s.ledger.wallets {
      assert Exact(s, a, u) && 0 <= Available(a, s.ledger.wallets[u]);
      SumConcat(s.reserved, PlacedOrders(s.queue), OrderClaim(a, ByUser(u)));
      ClaimParts(s, a, ByUser(u), s.ledger.journal);
    }
  }

  // Whichever published event is delivered next, none of its wallet updates
  // fails, and a redelivered one changes nothing.
  lemma SettlementNeverFails(producer: string, symbol: string, steps: seq<Step>, i: nat)
    ensures var s := After(producer, symbol, steps);
      i < |s.log| ==>
        if s.log[i].id in s.ledger.journal then DoDeliver(s, i) == s
        else SettlesCleanly(s.ledger.wallets, s.log[i])
             && Shifts(s.ledger.wallets, DoDeliver(s, i).ledger.wallets, s.log[i])
  {
    var s := After(producer, symbol, steps);
    EveryRunSound(producer, symbol, steps);
    if i < |s.log| && s.log[i].id !in s.ledger.journal {
      DeliverySettles(s, i);
    }
  }

  // The compensating release of a refused order cannot fail either.
  lemma CompensationNeverFails(producer: string, symbol: string, steps: seq<Step>, i: nat)
    ensures var s := After(producer, symbol, steps);
      i < |s.reserved| ==>
        UpdateError(s.ledger.wallets, s.reserved[i].userId, ReleaseOp(s.reserved[i])).None?
  {
    var s := After(producer, symbol, steps);
    EveryRunSound(producer, symbol, steps);
    if i < |s.reserved| {
      RefuseCollateral(s, i);
    }
  }

  // Trading neither creates nor destroys either asset, and each user's total is
  // the seed plus what the recorded trades brought.
  lemma MoneyConserved(producer: string, symbol: string, steps: seq<Step>, a: Asset)
    ensures var s := After(producer, symbol, steps);
      && s.ledger.wallets.Keys == s.seeds.Keys
      && Supply(a, s.ledger.wallets) == Supply(a, s.seeds)
      && forall u :: u in s.seeds ==>
           Total(a, s.ledger.wallets[u]) == Total(a, s.seeds[u]) + Sum(s.ledger.trades, Net(a, u))
  {
    var s := After(producer, symbol, steps);
    EveryRunSound(producer, symbol, steps);
    forall u | u in s.seeds
      ensures Total(a, s.ledger.wallets[u]) == Total(a, s.seeds[u]) + Sum(s.ledger.trades, Net(a, u))
    {
      assert Explained(s, a, u);
    }
  }

  // Two ways of settling the same published events - any permutation, with any
  // repetitions - leave the same wallets.
  lemma SettlementOrderFree(producer: string, symbol: string, steps: seq<Step>, one: seq<nat>, two: seq<nat>)
    requires forall i :: i in one <==> i in two
    ensures var s := After(producer, symbol, steps);
      Run(s, Deliveries(one)).ledger.wallets == Run(s, Deliveries(two)).ledger.wallets
  {
    var s := After(producer, symbol, steps);
    EveryRunSound(producer, symbol, steps);
    DeliveriesJournal(s, one);
    DeliveriesJournal(s, two);
    SettlementOrderIrrelevant(s, one, two);
  }

  lemma {:induction false} DeliveriesJournal(s: State, indices: seq<nat>)
    ensures Run(s, Deliveries(indices)).ledger.journal
         == s.ledger.journal + set i | i in indices && i < |s.log| :: s.log[i].id
    decreases |indices|
  {
    if indices != [] {
      assert Deliveries(indices)[1..] == Deliveries(indices[1..]);
      DeliveriesJournal(DoDeliver(s, indices[0]), indices[1..]);
      assert forall i :: i in indices <==> i == indices[0] || i in indices[1..];
    }
  }

  // As long as nobody is seeded, every observation of the money supply is the
  // same: the reconciliation job has nothing to warn about.
  lemma SupplyFlatBetweenSeeds(producer: string, symbol: string, before: seq<Step>, more: seq<Step>, a: Asset)
    requires forall st :: st in more ==> !st.Seed?
    ensures Supply(a, After(producer, symbol, before + more).ledger.wallets)
         == Supply(a, After(producer, symbol, before).ledger.wallets)
  {
    MoneyConserved(producer, symbol, before, a);
    MoneyConserved(producer, symbol, before + more, a);
    RunAppend(Init(producer, symbol), before, more);
    SeedsKept(After(producer, symbol, before), more);
  }

  lemma {:induction false} SeedsKept(s: State, steps: seq<Step>)
    requires forall st :: st in steps ==> !st.Seed?
    ensures Run(s, steps).seeds == s.seeds
    decreases |steps|
  {
    if steps != [] {
      assert steps[0] in steps;
      SeedsKept(Do(s, steps[0]), steps[1..]);
    }
  }

  // ----- Orders -----

  // The book is in order after any run, and never crossed.
  lemma BookAlwaysSound(producer: string, symbol: string, steps: seq<Step>)
    ensures var b := After(producer, symbol, steps).book;
      BookInv(b) && (b.bids != [] && b.asks != [] ==> b.bids[0].price < b.asks[0].price)
  {
    var b := After(producer, symbol, steps).book;
    EveryRunSound(producer, symbol, steps);
    if b.bids != [] && b.asks != [] {
      NeverCrossed(b);
    }
  }

  // Log positions, not contents, decide identity: no two events share an ID.
  lemma EventIdsNeverRepeat(producer: string, symbol: string, steps: seq<Step>, i: nat, j: nat)
    ensures var s := After(producer, symbol, steps);
      i < |s.log| && j < |s.log| && s.log[i].id == s.log[j].id ==> i == j
  {
    var s := After(producer, symbol, steps);
    EveryRunSound(producer, symbol, steps);
    if i < |s.log| && j < |s.log| && s.log[i].id == s.log[j].id {
      LogIdsDiffer(s, i, j);
    }
  }

  lemma EventIdAt(producer: string, symbol: string, steps: seq<Step>, i: nat)
    requires i < |After(producer, symbol, steps).log|
    ensures After(producer, symbol, steps).log[i].id == EventIds.Join(producer, i + 1)
  {
    EveryRunSound(producer, symbol, steps);
    ProducerKept(Init(producer, symbol), steps);
  }

  // Nor do two engine instances with different producer IDs.
  lemma ProducersNeverCollide(p: string, q: string, symbol: string, one: seq<Step>, two: seq<Step>, i: nat, j: nat)
    requires p != q
    requires i < |After(p, symbol, one).log| && j < |After(q, symbol, two).log|
    ensures After(p, symbol, one).log[i].id != After(q, symbol, two).log[j].id
  {
    EventIdAt(p, symbol, one, i);
    EventIdAt(q, symbol, two, j);
    if EventIds.Join(p, i + 1) == EventIds.Join(q, j + 1) {
      EventIds.JoinInjective(p, i + 1, q, j + 1);
    }
  }

  lemma {:induction false} ProducerKept(s: State, steps: seq<Step>)
    ensures Run(s, steps).producer == s.producer
    decreases |steps|
  {
    if steps != [] {
      ProducerKept(Do(s, steps[0]), steps[1..]);
    }
  }

  // What each order reserved is, at every moment, what its trades have paid (or
  // delivered), what was released to it, and what still stands for it; an order
  // the engine refused has nothing standing.
  lemma ReservationAccounted(producer: string, symbol: string, steps: seq<Step>, id: string)
    ensures var s := After(producer, symbol, steps);
      id in s.accepted ==>
        forall a ::
          Sum(Pending(s), OrderClaim(a, ByOrder(id))) + BookClaims(a, ByOrder(id), s.book)
          + Sum(s.log, EventClaim(a, ByOrder(id)))
          == if id in s.withdrawn then 0 else Due(a, s.accepted[id])
  {
    var s := After(producer, symbol, steps);
    EveryRunSound(producer, symbol, steps);
    if id in s.accepted {
      forall a
        ensures Sum(Pending(s), OrderClaim(a, ByOrder(id))) + BookClaims(a, ByOrder(id), s.book)
             + Sum(s.log, EventClaim(a, ByOrder(id)))
             == if id in s.withdrawn then 0 else Due(a, s.accepted[id])
      {
        assert Accounted(s, a, id);
        SumPairwise(s.log, s.log, OpenClaim(a, ByOrder(id), {}), EventClaim(a, ByOrder(id)));
      }
    }
  }

  // An order's filled quantity is the quantity of the trades that name it, never
  // more than it asked for; and every trade is between two accepted orders, a
  // BUY and a SELL, within both limits.
  lemma FillsAreTrades(producer: string, symbol: string, steps: seq<Step>)
    ensures var s := After(producer, symbol, steps);
      && (forall id :: Sum(s.log, QuantityOf(id))
                       == if id in Projection(s.log) then Projection(s.log)[id].filled else 0)
      && (forall id :: id in Projection(s.log) ==>
            id in s.accepted && Projection(s.log)[id].Terms() == s.accepted[id].Terms()
            && 0 <= Projection(s.log)[id].filled <= s.accepted[id].quantity)
      && (forall e :: e in s.log && e.kind == TradeEvent ==> EventFrom(e, AcceptedTerms(s)))
  {
    var s := After(producer, symbol, steps);
    EveryRunSound(producer, symbol, steps);
    BareProjection(s.log);
    forall id { BareQuantity(s.log, id); }
    forall id | id in Projection(s.log) { ProjectedIsAccepted(s, id); }
  }

  // Along the log an order's fill never falls and a terminal state is the last.
  lemma OrdersOnlyProgress(producer: string, symbol: string, steps: seq<Step>)
    ensures Progresses(After(producer, symbol, steps).log)
  {
    var s := After(producer, symbol, steps);
    EveryRunSound(producer, symbol, steps);
    forall i, j | 0 <= i < j < |s.log| && IsUpdate(s.log[i]) && IsUpdate(s.log[j])
                  && s.log[i].order.value.id == s.log[j].order.value.id
      ensures s.log[i].order.value.filled <= s.log[j].order.value.filled
      ensures !s.log[i].order.value.status.Terminal()
    {
      assert IsUpdate(Bare(s.log)[i]) && IsUpdate(Bare(s.log)[j]);
    }
  }

  // Deliveries that only repeat, rewind or advance by one.
  predicate InStep(s: State, steps: seq<Step>)
    decreases |steps|
  {
    steps == []
    || ((steps[0].Deliver? ==> steps[0].i <= |s.applied|) && InStep(Do(s, steps[0]), steps[1..]))
  }

  // Then settlement has applied exactly a prefix of the log.
  lemma {:induction false} InStepAppliesPrefix(s: State, steps: seq<Step>)
    requires Inv(s) && s.applied <= s.log && InStep(s, steps)
    ensures Run(s, steps).applied <= Run(s, steps).log
    decreases |steps|
  {
    if steps != [] {
      StepInv(s, steps[0]);
      if steps[0].Deliver? {
        DeliverKeepsPrefix(s, steps[0].i);
      } else {
        OtherStepsKeepPrefix(s, steps[0]);
      }
      InStepAppliesPrefix(Do(s, steps[0]), steps[1..]);
    }
  }

  lemma DeliverKeepsPrefix(s: State, i: nat)
    requires JournalOk(s) && s.applied <= s.log && i <= |s.applied|
    ensures DoDeliver(s, i).applied <= DoDeliver(s, i).log
  {
    if i < |s.applied| {
      assert s.log[i] == s.applied[i];
      assert s.log[i].id in Ids(s.applied);
    }
  }

  lemma OtherStepsKeepPrefix(s: State, step: Step)
    requires s.applied <= s.log && !step.Deliver?
    ensures Do(s, step).applied <= Do(s, step).log
  {
    assert Do(s, step).applied == s.applied && s.log <= Do(s, step).log;
  }

  // The stored orders that are not terminal are exactly the resting orders, field for field.
  ghost predicate StoredMatchesBook(orders: map<string, Order>, b: Book) {
    && (forall o :: o in b.bids || o in b.asks ==> o.id in orders && orders[o.id] == o)
    && (forall id :: id in orders ==> (!orders[id].status.Terminal() <==> orders[id] in b.bids || orders[id] in b.asks))
  }

  lemma MirrorMatchesBook(orders: map<string, Order>, b: Book)
    requires Mirrors(orders, Live(b))
    ensures StoredMatchesBook(orders, b)
  {
    assert forall o :: o in b.bids || o in b.asks <==> o in Live(b);
  }

  // Settlement that is in step with the log has stored what that part of the log
  // says, and once it has caught up, the stored orders agree with the book.
  lemma ProjectionAgreesWithBook(producer: string, symbol: string, steps: seq<Step>)
    requires InStep(Init(producer, symbol), steps)
    ensures var s := After(producer, symbol, steps);
      && s.applied <= s.log
      && s.ledger.orders == Projection(s.log[..|s.applied|])
      && s.ledger.trades == TradesOf(s.log[..|s.applied|])
      && (|s.applied| == |s.log| ==> StoredMatchesBook(s.ledger.orders, s.book))
  {
    InitSound(producer, symbol);
    InStepAppliesPrefix(Init(producer, symbol), steps);
    EveryRunSound(producer, symbol, steps);
    CaughtUp(After(producer, symbol, steps));
  }

  lemma CaughtUp(s: State)
    requires ProjectionInv(s) && StoresInv(s) && s.applied <= s.log
    ensures s.applied == s.log[..|s.applied|]
    ensures |s.applied| == |s.log| ==> StoredMatchesBook(s.ledger.orders, s.book)
  {
    if |s.applied| == |s.log| {
      assert s.applied == s.log;
      BareProjection(s.log);
      MirrorMatchesBook(s.ledger.orders, s.book);
    }
  }

  // ----- Redelivery -----

  lemma {:induction false} DeliveriesHandle(s: State, positions: seq<nat>)
    requires forall i :: 0 <= i < |positions| ==> positions[i] < |s.log|
    ensures Run(s, Deliveries(positions)).ledger == HandleAll(s.ledger, Delivered(s.log, positions))
    decreases |positions|
  {
    if positions != [] {
      assert Deliveries(positions)[1..] == Deliveries(positions[1..]);
      assert Delivered(s.log, positions)[1..] == Delivered(s.log, positions[1..]);
      DeliveriesHandle(DoDeliver(s, positions[0]), positions[1..]);
    }
  }

  lemma JournalIsPrefix(s: State)
    requires Inv(s) && s.applied <= s.log
    ensures DistinctIds(s.log) && JournalAt(s.ledger, s.log, |s.applied|)
  {
    forall i, j | 0 <= i < j < |s.log|
      ensures s.log[i].id != s.log[j].id
    {
      if s.log[i].id == s.log[j].id { LogIdsDiffer(s, i, j); }
    }
    forall i | 0 <= i < |s.log|
      ensures s.log[i].id in s.ledger.journal <==> i < |s.applied|
    {
      if i < |s.applied| {
        assert s.applied[i] == s.log[i];
      }
      forall e | e in s.applied && e.id == s.log[i].id
        ensures i < |s.applied|
      {
        var j :| 0 <= j < |s.applied| && s.applied[j] == e;
        assert s.log[j].id == s.log[i].id;
      }
    }
  }

  // A consumer that repeats and rewinds leaves the whole ledger - wallets, trade
  // history, projection and journal - as one that sees each event once.
  lemma EffectivelyOnce(producer: string, symbol: string, steps: seq<Step>, positions: seq<nat>)
    requires InStep(Init(producer, symbol), steps)
    requires var s := After(producer, symbol, steps);
      Rewinds(positions, |s.applied|) && forall i :: 0 <= i < |positions| ==> positions[i] < |s.log|
    ensures var s := After(producer, symbol, steps);
      var n, m := |s.applied|, Reached(positions, |s.applied|);
      n <= m <= |s.log| && Run(s, Deliveries(positions)).ledger == HandleAll(s.ledger, s.log[n..m])
  {
    var s := After(producer, symbol, steps);
    InitSound(producer, symbol);
    InStepAppliesPrefix(Init(producer, symbol), steps);
    EveryRunSound(producer, symbol, steps);
    JournalIsPrefix(s);
    DeliveriesHandle(s, positions);
    RewindsAreHarmless(s.ledger, s.log, positions, |s.applied|);
  }
}
