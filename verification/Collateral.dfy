// Exact collateral: in every state of every run, what a user has locked is to
// the unit what the user's waiting orders, resting orders and unsettled events
// still claim. Hence settlement never meets an error, and no balance goes below
// zero.

module Collateral {
  import opened Domain
  import opened Sums
  import opened FlatBook
  import opened EventStream
  import opened Claims
  import opened Ledger
  import opened Pipeline
  import opened Reachability
  import EventIds

  // Claims of events, except those whose IDs are in done.
  function OpenClaim(a: Asset, k: Key, done: set<string>): Event -> int {
    (e: Event) => if e.id in done then 0 else ClaimOf(a, k, e)
  }

  function Claimed(s: State, a: Asset, k: Key, done: set<string>): int {
    Sum(Pending(s), OrderClaim(a, k)) + BookClaims(a, k, s.book) + Sum(s.log, OpenClaim(a, k, done))
  }

  ghost predicate Exact(s: State, a: Asset, u: string)
    requires u in s.ledger.wallets
  {
    Locked(a, s.ledger.wallets[u]) == Claimed(s, a, ByUser(u), s.ledger.journal)
  }

  ghost predicate CollateralInv(s: State) {
    forall a, u :: u in s.ledger.wallets ==> Exact(s, a, u) && 0 <= Available(a, s.ledger.wallets[u])
  }

  // ----- Signs -----

  lemma WaitingClaimed(s: State, a: Asset, k: Key, o: Order)
    requires Inv(s) && o in Pending(s)
    ensures 0 <= OrderClaim(a, k)(o)
    ensures o.userId in s.ledger.wallets
  {
    assert Waiting(s, o);
    MulNonNegative(o.price, o.Remaining());
  }

  lemma RestingClaimed(s: State, a: Asset, k: Key, o: Order)
    requires Inv(s) && (o in s.book.bids || o in s.book.asks)
    ensures 0 <= OrderClaim(a, k)(o)
    ensures o.userId in s.ledger.wallets
  {
    assert o.Terms() in BookTerms(s.book);
    MulNonNegative(o.price, o.Remaining());
  }

  lemma EventClaimed(s: State, a: Asset, k: Key, e: Event)
    requires Inv(s) && e in s.log
    ensures WellFormed(e, s.ledger.wallets.Keys)
    ensures 0 <= ClaimOf(a, k, e)
  {
    assert EventFrom(e, AcceptedTerms(s));
    if e.kind == TradeEvent {
      var t := e.trade.value;
      var buy, sell :| buy in AcceptedTerms(s) && sell in AcceptedTerms(s) && TradeBetween(t, buy, sell);
      MulNonNegative(t.price, t.quantity);
    }
  }

  // No part of the claimed sum is negative, so each is at most the whole.
  lemma ClaimParts(s: State, a: Asset, k: Key, done: set<string>)
    requires Inv(s)
    ensures 0 <= Sum(Pending(s), OrderClaim(a, k))
    ensures 0 <= Sum(s.book.bids, OrderClaim(a, k))
    ensures 0 <= Sum(s.book.asks, OrderClaim(a, k))
    ensures 0 <= Sum(s.log, OpenClaim(a, k, done))
  {
    var oc, ec := OrderClaim(a, k), OpenClaim(a, k, done);
    forall o | o in Pending(s) ensures 0 <= oc(o) { WaitingClaimed(s, a, k, o); }
    forall o | o in s.book.bids || o in s.book.asks ensures 0 <= oc(o) { RestingClaimed(s, a, k, o); }
    forall e | e in s.log ensures 0 <= ec(e) { EventClaimed(s, a, k, e); }
    SumNonNegative(Pending(s), oc);
    SumNonNegative(s.book.bids, oc);
    SumNonNegative(s.book.asks, oc);
    SumNonNegative(s.log, ec);
  }

  lemma PendingWithin(s: State, a: Asset, k: Key, done: set<string>, o: Order)
    requires Inv(s) && o in Pending(s)
    ensures OrderClaim(a, k)(o) <= Claimed(s, a, k, done)
  {
    ClaimParts(s, a, k, done);
    forall x | x in Pending(s) ensures 0 <= OrderClaim(a, k)(x) { WaitingClaimed(s, a, k, x); }
    SumTerm(Pending(s), o, OrderClaim(a, k));
  }

  lemma EventWithin(s: State, a: Asset, k: Key, done: set<string>, e: Event)
    requires Inv(s) && e in s.log && e.id !in done
    ensures ClaimOf(a, k, e) <= Claimed(s, a, k, done)
  {
    ClaimParts(s, a, k, done);
    forall x | x in s.log ensures 0 <= OpenClaim(a, k, done)(x) { EventClaimed(s, a, k, x); }
    SumTerm(s.log, e, OpenClaim(a, k, done));
  }

  // ----- How steps move claims -----

  lemma ReserveClaims(s: State, o: Order, a: Asset, k: Key, done: set<string>)
    requires DoReserve(s, o) != s
    ensures Claimed(DoReserve(s, o), a, k, done) == Claimed(s, a, k, done) + OrderClaim(a, k)(o)
  {
    var f, tail := OrderClaim(a, k), PlacedOrders(s.queue);
    SumConcat(s.reserved + [o], tail, f);
    SumConcat(s.reserved, [o], f);
    SumConcat(s.reserved, tail, f);
    SumOne(o, f);
  }

  lemma EnqueueClaims(s: State, i: nat, a: Asset, k: Key, done: set<string>)
    requires i < |s.reserved|
    ensures Claimed(DoEnqueue(s, i), a, k, done) == Claimed(s, a, k, done)
  {
    var f, o, tail := OrderClaim(a, k), s.reserved[i], PlacedOrders(s.queue);
    PlacedOrdersAppend(s.queue, [PlaceCommand(o)]);
    SumRemove(s.reserved, i, f);
    SumConcat(s.reserved, tail, f);
    SumConcat(RemoveAt(s.reserved, i), tail + [o], f);
    SumConcat(tail, [o], f);
    SumOne(o, f);
    assert PlacedOrders([PlaceCommand(o)]) == [o];
  }

  lemma RefuseClaims(s: State, i: nat, a: Asset, k: Key, done: set<string>)
    requires i < |s.reserved|
    ensures Claimed(DoRefuse(s, i), a, k, done) == Claimed(s, a, k, done) - OrderClaim(a, k)(s.reserved[i])
  {
    var f, tail := OrderClaim(a, k), PlacedOrders(s.queue);
    SumRemove(s.reserved, i, f);
    SumConcat(s.reserved, tail, f);
    SumConcat(RemoveAt(s.reserved, i), tail, f);
  }

  lemma SubmitClaims(s: State, c: Command, a: Asset, k: Key, done: set<string>)
    ensures Claimed(DoSubmit(s, c), a, k, done) == Claimed(s, a, k, done)
  {
    if !c.PlaceCommand? {
      PlacedOrdersAppend(s.queue, [c]);
      assert PlacedOrders([c]) == [];
      assert Pending(DoSubmit(s, c)) == Pending(s);
    }
  }

  lemma PublishClaims(producer: string, log: seq<Event>, events: seq<Event>, a: Asset, k: Key, done: set<string>)
    requires forall n: nat {:trigger EventIds.Join(producer, n)} ::
        |log| < n <= |log| + |events| ==> EventIds.Join(producer, n) !in done
    ensures Sum(Publish(producer, log, events), OpenClaim(a, k, done))
         == Sum(log, OpenClaim(a, k, done)) + Sum(events, EventClaim(a, k))
  {
    var tail := Publish(producer, log, events)[|log|..];
    assert Publish(producer, log, events) == log + tail;
    SumConcat(log, tail, OpenClaim(a, k, done));
    forall j | 0 <= j < |tail|
      ensures OpenClaim(a, k, done)(tail[j]) == EventClaim(a, k)(events[j])
    {
      assert tail[j] == Stamp(producer, |log| + 1 + j, events[j]);
    }
    SumPairwise(tail, events, OpenClaim(a, k, done), EventClaim(a, k));
  }

  // What is waiting, resting or just published claims what was waiting or resting.
  ghost predicate Conserves(s: State, a: Asset, k: Key, book: Book, events: seq<Event>)
    requires s.queue != []
  {
    Sum(s.reserved + PlacedOrders(s.queue[1..]), OrderClaim(a, k)) + BookClaims(a, k, book)
    + Sum(events, EventClaim(a, k))
    == Sum(Pending(s), OrderClaim(a, k)) + BookClaims(a, k, s.book)
  }

  lemma PlaceClaims(s: State, a: Asset, k: Key, o: Order)
    requires BookInv(s.book) && Placeable(s.book, o)
    requires s.queue != [] && s.queue[0] == PlaceCommand(o)
    ensures Conserves(s, a, k, Place(s.book, o).book, PlaceEvents(Place(s.book, o)))
  {
    PlaceConservesClaims(a, k, s.book, o);
    PlacedFirst(s.queue, o);
    SumConcat(s.reserved, [o] + PlacedOrders(s.queue[1..]), OrderClaim(a, k));
    SumConcat([o], PlacedOrders(s.queue[1..]), OrderClaim(a, k));
    SumConcat(s.reserved, PlacedOrders(s.queue[1..]), OrderClaim(a, k));
    SumOne(o, OrderClaim(a, k));
  }

  lemma PlacedFirst(queue: seq<Command>, o: Order)
    requires queue != [] && queue[0] == PlaceCommand(o)
    ensures PlacedOrders(queue) == [o] + PlacedOrders(queue[1..])
  {
  }

  lemma CancelClaims(s: State, a: Asset, k: Key, id: string)
    requires BookInv(s.book)
    requires s.queue != [] && s.queue[0] == CancelCommand(id)
    ensures Conserves(s, a, k, Process(s.book, s.queue[0]).0, Process(s.book, s.queue[0]).1)
  {
    assert PlacedOrders(s.queue) == PlacedOrders(s.queue[1..]);
    if Cancel(s.book, id).Some? {
      CancelConservesClaims(a, k, s.book, id);
    }
  }

  // The engine moves claims between orders and events and changes no total.
  lemma EngineClaims(s: State, a: Asset, k: Key, done: set<string>)
    requires Inv(s) && done <= Ids(s.log)
    ensures Claimed(DoEngine(s), a, k, done) == Claimed(s, a, k, done)
  {
    if s.queue != [] {
      var (book, events) := Process(s.book, s.queue[0]);
      assert Conserves(s, a, k, book, events) by {
        match s.queue[0]
        case PlaceCommand(o) =>
          HeadPlaceable(s);
          PlaceClaims(s, a, k, o);
        case CancelCommand(id) => CancelClaims(s, a, k, id);
        case SnapshotCommand(_) => assert PlacedOrders(s.queue) == PlacedOrders(s.queue[1..]);
      }
      forall n: nat | |s.log| < n <= |s.log| + |events|
        ensures EventIds.Join(s.producer, n) !in done
      {
        UnpublishedIsFresh(s, done, n);
      }
      PublishClaims(s.producer, s.log, events, a, k, done);
    }
  }

  // Journalling an event settles its claim and no other.
  lemma DeliverClaims(s: State, i: nat, a: Asset, k: Key)
    requires Inv(s) && i < |s.log| && s.log[i].id !in s.ledger.journal
    ensures Claimed(DoDeliver(s, i), a, k, DoDeliver(s, i).ledger.journal)
         == Claimed(s, a, k, s.ledger.journal) - ClaimOf(a, k, s.log[i])
  {
    var done, done' := s.ledger.journal, s.ledger.journal + {s.log[i].id};
    forall j | 0 <= j < |s.log| && j != i
      ensures s.log[j].id != s.log[i].id
    {
      if s.log[j].id == s.log[i].id { LogIdsDiffer(s, i, j); }
    }
    SumReweigh(s.log, i, OpenClaim(a, k, done), OpenClaim(a, k, done'));
  }

  // ----- The invariant -----

  lemma SeedCollateral(s: State, user: string, cop: int, vibranium: int)
    requires Inv(s) && CollateralInv(s)
    ensures CollateralInv(DoSeed(s, user, cop, vibranium))
  {
    var s' := DoSeed(s, user, cop, vibranium);
    if s' != s {
      forall a, u | u in s'.ledger.wallets
        ensures Exact(s', a, u) && 0 <= Available(a, s'.ledger.wallets[u])
      {
        if u == user {
          StrangerClaimsNothing(s, a, u);
        } else {
          assert Exact(s, a, u) && 0 <= Available(a, s.ledger.wallets[u]);
        }
      }
    }
  }

  lemma StrangerClaimsNothing(s: State, a: Asset, u: string)
    requires Inv(s) && u !in s.ledger.wallets
    ensures Claimed(s, a, ByUser(u), s.ledger.journal) == 0
  {
    var k := ByUser(u);
    var oc, ec := OrderClaim(a, k), OpenClaim(a, k, s.ledger.journal);
    forall o | o in Pending(s) ensures oc(o) == 0 { WaitingClaimed(s, a, k, o); }
    forall o | o in s.book.bids || o in s.book.asks ensures oc(o) == 0 { RestingClaimed(s, a, k, o); }
    forall e | e in s.log ensures ec(e) == 0 { EventClaimed(s, a, k, e); }
    SumZero(Pending(s), oc);
    SumZero(s.book.bids, oc);
    SumZero(s.book.asks, oc);
    SumZero(s.log, ec);
  }

  lemma ReserveCollateral(s: State, o: Order)
    requires CollateralInv(s) && o.filled == 0
    ensures CollateralInv(DoReserve(s, o))
  {
    var s' := DoReserve(s, o);
    if s' != s {
      forall a, u | u in s'.ledger.wallets
        ensures Exact(s', a, u) && 0 <= Available(a, s'.ledger.wallets[u])
      {
        assert Exact(s, a, u) && 0 <= Available(a, s.ledger.wallets[u]);
        ReserveClaims(s, o, a, ByUser(u), s.ledger.journal);
      }
    }
  }

  // The compensating release always succeeds and gives back exactly the reservation.
  lemma RefuseCollateral(s: State, i: nat)
    requires Inv(s) && CollateralInv(s) && i < |s.reserved|
    ensures UpdateError(s.ledger.wallets, s.reserved[i].userId, ReleaseOp(s.reserved[i])).None?
    ensures CollateralInv(DoRefuse(s, i))
  {
    var o, s' := s.reserved[i], DoRefuse(s, i);
    var a0 := if o.side == Buy then COP else VIB;
    assert Pending(s)[i] == o;
    WaitingClaimed(s, a0, ByUser(o.userId), o);
    PendingWithin(s, a0, ByUser(o.userId), s.ledger.journal, o);
    assert Waiting(s, o) && Exact(s, a0, o.userId);
    forall a, u | u in s'.ledger.wallets
      ensures Exact(s', a, u) && 0 <= Available(a, s'.ledger.wallets[u])
    {
      assert Exact(s, a, u) && 0 <= Available(a, s.ledger.wallets[u]);
      RefuseClaims(s, i, a, ByUser(u), s.ledger.journal);
    }
  }

  // Whatever unsettled event is delivered, and in whatever order, its wallet
  // updates all return nil and move exactly what the event says.
  lemma DeliverySettles(s: State, i: nat)
    requires Inv(s) && CollateralInv(s) && i < |s.log| && s.log[i].id !in s.ledger.journal
    ensures SettlesCleanly(s.ledger.wallets, s.log[i])
    ensures Shifts(s.ledger.wallets, DoDeliver(s, i).ledger.wallets, s.log[i])
  {
    var e, ws := s.log[i], s.ledger.wallets;
    EventClaimed(s, COP, ByUser(""), e);
    forall a, u | u in ws
      ensures ClaimOf(a, ByUser(u), e) <= Locked(a, ws[u])
    {
      assert Exact(s, a, u);
      EventWithin(s, a, ByUser(u), s.ledger.journal, e);
    }
    CoveredSettles(ws, e);
  }

  lemma DeliverCollateral(s: State, i: nat)
    requires Inv(s) && CollateralInv(s)
    ensures CollateralInv(DoDeliver(s, i))
  {
    var s' := DoDeliver(s, i);
    if i < |s.log| && s.log[i].id !in s.ledger.journal {
      DeliverySettles(s, i);
      forall a, u | u in s'.ledger.wallets
        ensures Exact(s', a, u) && 0 <= Available(a, s'.ledger.wallets[u])
      {
        assert Exact(s, a, u) && 0 <= Available(a, s.ledger.wallets[u]);
        DeliverClaims(s, i, a, ByUser(u));
        GainNonNegative(s, a, u, s.log[i]);
      }
    }
  }

  lemma GainNonNegative(s: State, a: Asset, u: string, e: Event)
    requires Inv(s) && e in s.log
    ensures 0 <= Gain(a, u, e)
  {
    EventClaimed(s, a, ByUser(u), e);
    if e.kind == TradeEvent {
      MulNonNegative(e.trade.value.price, e.trade.value.quantity);
    }
  }

  // Steps that touch no wallet and change no total.
  lemma QuietCollateral(s: State, s': State)
    requires CollateralInv(s) && s'.ledger == s.ledger
    requires forall a, u :: Claimed(s', a, ByUser(u), s.ledger.journal) == Claimed(s, a, ByUser(u), s.ledger.journal)
    ensures CollateralInv(s')
  {
    forall a, u | u in s'.ledger.wallets
      ensures Exact(s', a, u) && 0 <= Available(a, s'.ledger.wallets[u])
    {
      assert Exact(s, a, u) && 0 <= Available(a, s.ledger.wallets[u]);
    }
  }

  lemma StepCollateral(s: State, step: Step)
    requires Inv(s) && CollateralInv(s)
    ensures CollateralInv(Do(s, step))
  {
    match step
    case Seed(u, c, v) => SeedCollateral(s, u, c, v);
    case Reserve(id, u, side, p, q) => ReserveCollateral(s, NewOrder(id, u, s.book.symbol, side, p, q));
    case Refuse(i) => if i < |s.reserved| { RefuseCollateral(s, i); }
    case Deliver(i) => DeliverCollateral(s, i);
    case Enqueue(i) =>
      if i < |s.reserved| {
        forall a, u { EnqueueClaims(s, i, a, ByUser(u), s.ledger.journal); }
        QuietCollateral(s, DoEnqueue(s, i));
      }
    case Submit(c) =>
      forall a, u { SubmitClaims(s, c, a, ByUser(u), s.ledger.journal); }
      QuietCollateral(s, DoSubmit(s, c));
    case Engine =>
      JournalledIsPublished(s);
      forall a, u { EngineClaims(s, a, ByUser(u), s.ledger.journal); }
      QuietCollateral(s, DoEngine(s));
  }
}
