// The lifecycle facts over whole runs: projection and book agree, quantities
// add up, and each accepted order's reservation is accounted for to the unit by
// what it traded, what was released to it and what still stands.

module OrderLife {
  import opened Domain
  import opened Sums
  import opened FlatBook
  import opened EventStream
  import opened Claims
  import opened Ledger
  import opened Pipeline
  import opened Reachability
  import opened Collateral
  import opened Lifecycle

  // ----- The log without its stamps -----

  function Bare(es: seq<Event>): seq<Event> {
    seq(|es|, i requires 0 <= i < |es| => es[i].(id := "", sequence := 0))
  }

  lemma {:induction false} FillEventsBare(fills: seq<Fill>)
    ensures Bare(FillEvents(fills)) == FillEvents(fills)
  {
    if fills != [] {
      FillEventsBare(fills[1..]);
      var two := [TradeOnly(fills[0].trade), Update(fills[0].maker, 0, 0)];
      assert Bare(two + FillEvents(fills[1..])) == two + Bare(FillEvents(fills[1..]));
    }
  }

  lemma ProcessBare(b: Book, c: Command)
    ensures Bare(Process(b, c).1) == Process(b, c).1
  {
    if c.PlaceCommand? {
      FillEventsBare(Place(b, c.order).fills);
      assert Bare(PlaceEvents(Place(b, c.order))) == PlaceEvents(Place(b, c.order));
    }
  }

  lemma PublishBare(producer: string, log: seq<Event>, events: seq<Event>)
    requires Bare(events) == events
    ensures Bare(Publish(producer, log, events)) == Bare(log) + events
  {
    var r := Bare(Publish(producer, log, events));
    forall i | 0 <= i < |events|
      ensures r[|log| + i] == events[i]
    {
      assert events[i] == Bare(events)[i];
    }
  }

  lemma {:induction false} BareProjection(es: seq<Event>)
    ensures Projection(Bare(es)) == Projection(es)
  {
    if es != [] {
      var n := |es| - 1;
      BareProjection(es[..n]);
      assert Bare(es)[..n] == Bare(es[..n]);
    }
  }

  lemma BareQuantity(es: seq<Event>, id: string)
    ensures Sum(Bare(es), QuantityOf(id)) == Sum(es, QuantityOf(id))
  {
    SumPairwise(Bare(es), es, QuantityOf(id), QuantityOf(id));
  }

  // ----- Where projected orders come from -----

  lemma {:induction false} ProjectionSource(es: seq<Event>, id: string)
    requires id in Projection(es) && UpdatesOnly(es)
    ensures exists e :: e in es && IsUpdate(e) && e.order.value.id == id && e.order.value == Projection(es)[id]
  {
    var n := |es| - 1;
    var last := es[n];
    if last.kind != TradeEvent && last.order.Some? && last.order.value.id == id {
      assert last in es;
    } else {
      ProjectionSource(es[..n], id);
    }
  }

  lemma {:induction false} ProjectionKeys(es: seq<Event>, events: seq<Event>, ids: set<string>)
    requires forall e :: e in events && e.kind != TradeEvent && e.order.Some? ==> e.order.value.id in ids
    ensures Projection(es + events).Keys <= Projection(es).Keys + ids
  {
    if events == [] {
      assert es + events == es;
    } else {
      var n := |events| - 1;
      ProjectionKeys(es, events[..n], ids);
      assert es + events == es + events[..n] + [events[n]];
      ProjectionAppend(es + events[..n], events[n]);
    }
  }

  lemma ProjectedIsAccepted(s: State, id: string)
    requires Inv(s) && UpdatesOnly(Bare(s.log)) && id in Projection(Bare(s.log))
    ensures id in s.accepted && Projection(Bare(s.log))[id].Terms() == s.accepted[id].Terms()
  {
    ProjectionSource(Bare(s.log), id);
    var e :| e in Bare(s.log) && IsUpdate(e) && e.order.value.id == id && e.order.value == Projection(Bare(s.log))[id];
    var i :| 0 <= i < |s.log| && Bare(s.log)[i] == e;
    assert EventFrom(s.log[i], AcceptedTerms(s));
    var x :| x in s.accepted && s.accepted[x].Terms() == e.order.value.Terms();
    assert AcceptedOk(x, s.accepted[x], s.ledger.wallets);
  }

  // ----- The invariant -----

  ghost predicate ProjectionInv(s: State) {
    && Shape(Bare(s.log), Live(s.book))
    && FillsAddUp(Bare(s.log), "", 0)
    && (forall o :: o in Pending(s) ==> o.id !in Projection(Bare(s.log)))
  }

  lemma QuietProjection(s: State, s': State)
    requires ProjectionInv(s) && s'.log == s.log && s'.book == s.book
    requires forall o :: o in Pending(s') ==> o in Pending(s)
    ensures ProjectionInv(s')
  {
  }

  lemma ReserveProjection(s: State, o: Order)
    requires Inv(s) && ProjectionInv(s)
    ensures ProjectionInv(DoReserve(s, o))
  {
    if o.id !in s.accepted && o.id in Projection(Bare(s.log)) {
      ProjectedIsAccepted(s, o.id);
    }
  }

  lemma EnqueueProjection(s: State, i: nat)
    requires ProjectionInv(s) && i < |s.reserved|
    ensures ProjectionInv(DoEnqueue(s, i))
  {
    PlacedOrdersAppend(s.queue, [PlaceCommand(s.reserved[i])]);
    assert PlacedOrders([PlaceCommand(s.reserved[i])]) == [s.reserved[i]];
    QuietProjection(s, DoEnqueue(s, i));
  }

  lemma EngineProjection(s: State)
    requires Inv(s) && ProjectionInv(s) && s.queue != []
    ensures ProjectionInv(DoEngine(s))
  {
    ProcessBare(s.book, s.queue[0]);
    PublishBare(s.producer, s.log, Process(s.book, s.queue[0]).1);
    match s.queue[0]
    case PlaceCommand(_) => PlaceProjection(s);
    case CancelCommand(id) => CancelProjection(s, id);
    case SnapshotCommand(_) =>
      assert Bare(s.log) + [] == Bare(s.log);
      assert PlacedOrders(s.queue) == PlacedOrders(s.queue[1..]);
  }

  lemma PlaceProjection(s: State)
    requires Inv(s) && ProjectionInv(s) && s.queue != [] && s.queue[0].PlaceCommand?
    requires Bare(DoEngine(s).log) == Bare(s.log) + PlaceEvents(Place(s.book, s.queue[0].order))
    ensures ProjectionInv(DoEngine(s))
  {
    var o := s.queue[0].order;
    HeadPlaceable(s);
    PlacedFirst(s.queue, o);
    assert o in Pending(s);
    TrackPlace(Bare(s.log), s.book, o);
    OthersStayUnprojected(s);
  }

  ghost function IdsOf(terms: set<Terms>): set<string> { set t | t in terms :: t.id }

  // What the events of a Place project are orders of the book and the order itself.
  lemma PlaceNames(b: Book, o: Order)
    requires BookInv(b) && Placeable(b, o)
    ensures forall e :: e in PlaceEvents(Place(b, o)) && e.kind != TradeEvent && e.order.Some? ==>
        e.order.value.id in IdsOf(BookTerms(b) + {o.Terms()})
  {
    var terms := BookTerms(b) + {o.Terms()};
    PlaceTerms(b, o, terms);
    forall e | e in PlaceEvents(Place(b, o)) && e.kind != TradeEvent && e.order.Some?
      ensures e.order.value.id in IdsOf(terms)
    {
      assert EventFrom(e, terms);
    }
  }

  lemma PlaceProjects(s: State, x: string)
    requires Inv(s) && s.queue != [] && s.queue[0].PlaceCommand?
    requires x !in Projection(Bare(s.log)) && x != s.queue[0].order.id
    requires forall t :: t in BookTerms(s.book) ==> t.id != x
    ensures x !in Projection(Bare(s.log) + PlaceEvents(Place(s.book, s.queue[0].order)))
  {
    var o := s.queue[0].order;
    HeadPlaceable(s);
    PlaceNames(s.book, o);
    ProjectionKeys(Bare(s.log), PlaceEvents(Place(s.book, o)), IdsOf(BookTerms(s.book) + {o.Terms()}));
  }

  lemma OthersStayUnprojected(s: State)
    requires Inv(s) && ProjectionInv(s) && s.queue != [] && s.queue[0].PlaceCommand?
    ensures forall x :: x in s.reserved + PlacedOrders(s.queue[1..]) ==>
        x.id !in Projection(Bare(s.log) + PlaceEvents(Place(s.book, s.queue[0].order)))
  {
    forall x | x in s.reserved + PlacedOrders(s.queue[1..])
      ensures x.id !in Projection(Bare(s.log) + PlaceEvents(Place(s.book, s.queue[0].order)))
    {
      OthersKeepWaiting(s, x);
      PlaceProjects(s, x.id);
    }
  }

  // An order waiting behind the head is neither the head nor resting.
  lemma OthersKeepWaiting(s: State, x: Order)
    requires Inv(s) && s.queue != [] && s.queue[0].PlaceCommand?
    requires x in s.reserved + PlacedOrders(s.queue[1..])
    ensures x in Pending(s) && x.id != s.queue[0].order.id
    ensures forall t :: t in BookTerms(s.book) ==> t.id != x.id
  {
    PlacedFirst(s.queue, s.queue[0].order);
    RemoveKeepsUnique(Pending(s), |s.reserved|);
    assert s.reserved + PlacedOrders(s.queue[1..]) == RemoveAt(Pending(s), |s.reserved|);
    assert Waiting(s, x);
    NoIdByTerms(s.book, x.id);
  }

  lemma CancelProjection(s: State, id: string)
    requires Inv(s) && ProjectionInv(s) && s.queue != [] && s.queue[0] == CancelCommand(id)
    requires Bare(DoEngine(s).log) == Bare(s.log) + CancelEvents(Cancel(s.book, id))
    ensures ProjectionInv(DoEngine(s))
  {
    assert PlacedOrders(s.queue) == PlacedOrders(s.queue[1..]);
    if Cancel(s.book, id).None? {
      assert Bare(s.log) + [] == Bare(s.log);
    } else {
      TrackCancel(Bare(s.log), s.book, id);
      CancelTerms(s.book, id);
      ProjectionKeys(Bare(s.log), CancelEvents(Cancel(s.book, id)), set t | t in BookTerms(s.book) :: t.id);
      forall x | x in Pending(s)
        ensures forall t :: t in BookTerms(s.book) ==> t.id != x.id
      {
        assert Waiting(s, x);
        NoIdByTerms(s.book, x.id);
      }
    }
  }

  lemma StepProjection(s: State, step: Step)
    requires Inv(s) && ProjectionInv(s)
    ensures ProjectionInv(Do(s, step))
  {
    match step
    case Seed(u, c, v) => QuietProjection(s, DoSeed(s, u, c, v));
    case Reserve(id, u, side, p, q) => ReserveProjection(s, NewOrder(id, u, s.book.symbol, side, p, q));
    case Enqueue(i) => if i < |s.reserved| { EnqueueProjection(s, i); }
    case Refuse(i) => QuietProjection(s, DoRefuse(s, i));
    case Submit(c) =>
      PlacedOrdersAppend(s.queue, [c]);
      QuietProjection(s, DoSubmit(s, c));
    case Deliver(i) => QuietProjection(s, DoDeliver(s, i));
    case Engine => if s.queue != [] { EngineProjection(s); }
  }

  // ----- Reservations accounted for -----

  ghost predicate Accounted(s: State, a: Asset, id: string)
    requires id in s.accepted
  {
    Claimed(s, a, ByOrder(id), {}) == if id in s.withdrawn then 0 else Due(a, s.accepted[id])
  }

  ghost predicate ReservationsInv(s: State) {
    forall a, id :: id in s.accepted ==> Accounted(s, a, id)
  }

  lemma UnknownClaimsNothing(s: State, a: Asset, id: string)
    requires Inv(s) && id !in s.accepted
    ensures Claimed(s, a, ByOrder(id), {}) == 0
  {
    var k := ByOrder(id);
    var oc, ec := OrderClaim(a, k), OpenClaim(a, k, {});
    forall o | o in Pending(s) ensures oc(o) == 0 { assert Waiting(s, o); }
    forall o | o in s.book.bids || o in s.book.asks ensures oc(o) == 0 { assert o.Terms() in BookTerms(s.book); }
    forall e | e in s.log
      ensures ec(e) == 0
    {
      assert EventFrom(e, AcceptedTerms(s));
    }
    SumZero(Pending(s), oc);
    SumZero(s.book.bids, oc);
    SumZero(s.book.asks, oc);
    SumZero(s.log, ec);
  }

  lemma ReserveReservations(s: State, o: Order)
    requires Inv(s) && ReservationsInv(s)
    ensures ReservationsInv(DoReserve(s, o))
  {
    var s' := DoReserve(s, o);
    if s' != s {
      forall a, id | id in s'.accepted
        ensures Accounted(s', a, id)
      {
        ReserveClaims(s, o, a, ByOrder(id), {});
        if id == o.id {
          UnknownClaimsNothing(s, a, id);
        } else {
          assert Accounted(s, a, id) && AcceptedOk(id, s.accepted[id], s.ledger.wallets);
        }
      }
    }
  }

  lemma RefuseReservations(s: State, i: nat)
    requires Inv(s) && ReservationsInv(s) && i < |s.reserved|
    ensures ReservationsInv(DoRefuse(s, i))
  {
    var o, s' := s.reserved[i], DoRefuse(s, i);
    assert o == Pending(s)[i];
    assert Waiting(s, o);
    NotWithdrawnYet(s, o);
    forall a, id | id in s'.accepted
      ensures Accounted(s', a, id)
    {
      assert Accounted(s, a, id);
      RefuseClaims(s, i, a, ByOrder(id), {});
    }
  }

  // An order that still waits has a positive claim, so it was not withdrawn.
  lemma NotWithdrawnYet(s: State, o: Order)
    requires Inv(s) && ReservationsInv(s) && o in Pending(s)
    ensures o.id !in s.withdrawn
  {
    var a := if o.side == Buy then COP else VIB;
    assert Waiting(s, o);
    assert AcceptedOk(o.id, s.accepted[o.id], s.ledger.wallets) && Accounted(s, a, o.id);
    PendingWithin(s, a, ByOrder(o.id), {}, o);
    MulPositive(o.price, o.quantity);
  }

  lemma MulPositive(x: int, y: int)
    requires 0 < x && 0 < y
    ensures 0 < x * y
  {
  }

  lemma QuietReservations(s: State, s': State)
    requires ReservationsInv(s) && s'.accepted == s.accepted && s'.withdrawn == s.withdrawn
    requires forall a, id :: Claimed(s', a, ByOrder(id), {}) == Claimed(s, a, ByOrder(id), {})
    ensures ReservationsInv(s')
  {
    forall a, id | id in s'.accepted
      ensures Accounted(s', a, id)
    {
      assert Accounted(s, a, id);
    }
  }

  lemma StepReservations(s: State, step: Step)
    requires Inv(s) && ReservationsInv(s)
    ensures ReservationsInv(Do(s, step))
  {
    match step
    case Seed(u, c, v) => QuietReservations(s, DoSeed(s, u, c, v));
    case Reserve(id, u, side, p, q) => ReserveReservations(s, NewOrder(id, u, s.book.symbol, side, p, q));
    case Refuse(i) => if i < |s.reserved| { RefuseReservations(s, i); }
    case Deliver(i) => QuietReservations(s, DoDeliver(s, i));
    case Enqueue(i) =>
      if i < |s.reserved| {
        forall a, id { EnqueueClaims(s, i, a, ByOrder(id), {}); }
        QuietReservations(s, DoEnqueue(s, i));
      }
    case Submit(c) =>
      forall a, id { SubmitClaims(s, c, a, ByOrder(id), {}); }
      QuietReservations(s, DoSubmit(s, c));
    case Engine =>
      forall a, id { EngineClaims(s, a, ByOrder(id), {}); }
      QuietReservations(s, DoEngine(s));
  }

  // ----- What settlement has written -----

  function TradesOf(es: seq<Event>): seq<Trade> {
    if es == [] then [] else Recorded(TradesOf(es[..|es| - 1]), es[|es| - 1])
  }

  // The stores hold what the applied events say, in the order they were applied.
  ghost predicate StoresInv(s: State) {
    s.ledger.orders == Projection(s.applied) && s.ledger.trades == TradesOf(s.applied)
  }

  lemma StepStores(s: State, step: Step)
    requires StoresInv(s)
    ensures StoresInv(Do(s, step))
  {
    if step.Deliver? && step.i < |s.log| {
      var e := s.log[step.i];
      ProjectionAppend(s.applied, e);
      assert (s.applied + [e])[..|s.applied|] == s.applied;
    }
  }
}
