// What every run keeps, before any money is counted: the book stays in order,
// every waiting or resting order is one that was accepted and reserved, and the
// log holds well-formed events under IDs that never repeat.

module Reachability {
  import opened Domain
  import opened FlatBook
  import opened Matching
  import opened BookInvariant
  import opened EventStream
  import opened Claims
  import opened Pipeline
  import EventIds

  // ----- What Place and Cancel can put on the book and in the log -----

  lemma TermsOfCons(x: Order, s: seq<Order>)
    ensures TermsOf([x] + s) == {x.Terms()} + TermsOf(s)
  {
    assert forall y :: y in [x] + s <==> y == x || y in s;
  }

  lemma {:induction false} InsertTerms(isBid: bool, flat: seq<Order>, o: Order)
    ensures TermsOf(Insert(isBid, flat, o)) == TermsOf(flat) + {o.Terms()}
  {
    if flat == [] || Before(isBid, o.price, flat[0].price) {
      TermsOfCons(o, flat);
    } else {
      InsertTerms(isBid, flat[1..], o);
      TermsOfCons(flat[0], flat[1..]);
      TermsOfCons(flat[0], Insert(isBid, flat[1..], o));
      assert [flat[0]] + flat[1..] == flat;
    }
  }

  // A match keeps only terms that were there, and every event it causes is
  // between the taker and one of them.
  lemma {:induction false} MatchTerms(symbol: string, tradeSeq: nat, taker: Order, flat: seq<Order>, terms: set<Terms>)
    requires Tradable(flat) && taker.side.Valid()
    requires forall x :: x in flat ==> x.side.Valid() && x.side != taker.side
    requires TermsOf(flat) + {taker.Terms()} <= terms
    ensures var m := Match(symbol, tradeSeq, taker, flat);
      TermsOf(m.rest) <= terms && forall e :: e in FillEvents(m.fills) ==> EventFrom(e, terms)
    decreases |flat|, taker.Remaining() > 0
  {
    if CanFill(taker, flat) {
      var qty := FillQuantity(taker, flat[0]);
      var taker', maker', flat' := TakerAfter(taker, qty), MakerAfter(flat[0], qty), AfterHit(flat, qty);
      assert flat == [flat[0]] + flat[1..];
      TermsOfCons(flat[0], flat[1..]);
      TermsOfCons(maker', flat[1..]);
      MatchTerms(symbol, tradeSeq + 1, taker', flat', terms);
      var m, more := Match(symbol, tradeSeq, taker, flat), Match(symbol, tradeSeq + 1, taker', flat');
      assert m.fills[1..] == more.fills;
      var trade := m.fills[0].trade;
      var (buy, sell) := if taker.side == Buy then (taker, flat[0]) else (flat[0], taker);
      assert TradeBetween(trade, buy.Terms(), sell.Terms());
    }
  }

  lemma PlaceTerms(b: Book, o: Order, terms: set<Terms>)
    requires BookInv(b) && Placeable(b, o)
    requires BookTerms(b) + {o.Terms()} <= terms
    ensures BookTerms(Place(b, o).book) <= terms
    ensures forall e :: e in PlaceEvents(Place(b, o)) ==> EventFrom(e, terms)
  {
    var t, flat := Accepted(b, o), b.Opposite(o.side);
    OppositeSides(b, o);
    MatchTerms(b.symbol, b.tradeSeq, t, flat, terms);
    MatchKeepsTaker(b.symbol, b.tradeSeq, t, flat);
    RefundNonNegative(b.symbol, b.tradeSeq, t, flat);
    InsertTerms(o.side == Buy, b.Own(o.side), Place(b, o).taker);
  }

  lemma CancelTerms(b: Book, id: string)
    requires BookInv(b) && Cancel(b, id).Some?
    ensures BookTerms(Cancel(b, id).value.book) <= BookTerms(b)
    ensures forall e :: e in CancelEvents(Cancel(b, id)) ==> EventFrom(e, BookTerms(b))
  {
    var i := Find(b.bids, id);
    if i < |b.bids| {
      assert b.bids[i] in b.bids;
      MulNonNegative(b.bids[i].Remaining(), b.bids[i].price);
    } else {
      assert b.asks[Find(b.asks, id)] in b.asks;
    }
  }

  // An ID that no order of the book had is still absent, unless it is o's.
  lemma NoIdByTerms(b: Book, id: string)
    ensures NoId(b.bids, id) && NoId(b.asks, id) <==> forall t :: t in BookTerms(b) ==> t.id != id
  {
    if forall t :: t in BookTerms(b) ==> t.id != id {
      forall x | x in b.bids || x in b.asks
        ensures x.id != id
      {
        assert x.Terms() in BookTerms(b);
      }
    }
  }

  // ----- Steps -----

  ghost predicate Inv(s: State) { OrdersInv(s) && LogInv(s) }

  lemma RemoveKeepsUnique(s: seq<Order>, i: nat)
    requires UniqueIds(s) && i < |s|
    ensures UniqueIds(RemoveAt(s, i)) && NoId(RemoveAt(s, i), s[i].id)
    ensures forall x :: x in RemoveAt(s, i) ==> x in s
  {
    assert forall j :: 0 <= j < |s| - 1 ==> RemoveAt(s, i)[j] == s[if j < i then j else j + 1];
  }

  lemma InsertKeepsUnique(a: seq<Order>, o: Order, b: seq<Order>)
    requires UniqueIds(a + b) && NoId(a + b, o.id)
    ensures UniqueIds(a + [o] + b)
  {
    var s, t := a + [o] + b, a + b;
    forall j, k | 0 <= j < k < |s|
      ensures s[j].id != s[k].id
    {
      assert j != |a| ==> s[j] == t[if j < |a| then j else j - 1];
      assert k != |a| ==> s[k] == t[if k < |a| then k else k - 1];
    }
  }

  lemma SeedInv(s: State, user: string, cop: int, vibranium: int)
    requires Inv(s)
    ensures Inv(DoSeed(s, user, cop, vibranium))
  {
  }

  lemma ReserveInv(s: State, o: Order)
    requires Inv(s) && o.filled == 0
    ensures Inv(DoReserve(s, o))
  {
    var s' := DoReserve(s, o);
    if s' != s {
      var tail := PlacedOrders(s.queue);
      assert Pending(s') == s.reserved + [o] + tail;
      forall x | x in Pending(s)
        ensures x.id != o.id && Waiting(s', x)
      {
        assert Waiting(s, x);
      }
      InsertKeepsUnique(s.reserved, o, tail);
      AcceptedGrows(s, s', o);
      NoIdByTerms(s.book, o.id);
      forall i | 0 <= i < |s.log|
        ensures EventFrom(s.log[i], AcceptedTerms(s'))
      {
        assert EventFrom(s.log[i], AcceptedTerms(s));
      }
    }
  }

  lemma AcceptedGrows(s: State, s': State, o: Order)
    requires o.id !in s.accepted && s'.accepted == s.accepted[o.id := o]
    ensures AcceptedTerms(s') == AcceptedTerms(s) + {o.Terms()}
  {
    assert forall id :: id in s.accepted ==> s'.accepted[id] == s.accepted[id];
    assert o.id in s'.accepted;
  }

  lemma EnqueueInv(s: State, i: nat)
    requires Inv(s)
    ensures Inv(DoEnqueue(s, i))
  {
    if i < |s.reserved| {
      var o, tail := s.reserved[i], PlacedOrders(s.queue);
      PlacedOrdersAppend(s.queue, [PlaceCommand(o)]);
      RemoveKeepsUnique(Pending(s), i);
      var rest := RemoveAt(Pending(s), i);
      assert rest == RemoveAt(s.reserved, i) + tail;
      InsertKeepsUnique(rest, o, []);
      assert PlacedOrders([PlaceCommand(o)]) == [o];
      assert Pending(DoEnqueue(s, i)) == rest + [o] + [];
      forall x | x in Pending(DoEnqueue(s, i))
        ensures Waiting(DoEnqueue(s, i), x)
      {
        assert x in Pending(s) && Waiting(s, x);
      }
    }
  }

  lemma RefuseInv(s: State, i: nat)
    requires Inv(s)
    ensures Inv(DoRefuse(s, i))
  {
    if i < |s.reserved| {
      RemoveKeepsUnique(Pending(s), i);
      assert Pending(DoRefuse(s, i)) == RemoveAt(Pending(s), i);
      assert s.reserved[i] == Pending(s)[i];
      assert Waiting(s, s.reserved[i]);
    }
  }

  lemma SubmitInv(s: State, c: Command)
    requires Inv(s)
    ensures Inv(DoSubmit(s, c))
  {
    PlacedOrdersAppend(s.queue, [c]);
    assert !c.PlaceCommand? ==> Pending(DoSubmit(s, c)) == Pending(s);
  }

  lemma DeliverInv(s: State, i: nat)
    requires Inv(s)
    ensures Inv(DoDeliver(s, i))
  {
    var s' := DoDeliver(s, i);
    if i < |s.log| && s.log[i].id !in s.ledger.journal {
      assert s'.ledger.wallets.Keys == s.ledger.wallets.Keys;
      IdsAppend(s.applied, s.log[i]);
    }
  }

  lemma IdsAppend(es: seq<Event>, e: Event)
    ensures Ids(es + [e]) == Ids(es) + {e.id}
  {
    assert forall x :: x in es + [e] <==> x in es || x == e;
  }

  // The order at the head of the queue is one the book can accept.
  lemma HeadPlaceable(s: State)
    requires Inv(s) && s.queue != [] && s.queue[0].PlaceCommand?
    ensures Placeable(s.book, s.queue[0].order)
    ensures s.queue[0].order.id in s.accepted && s.queue[0].order == s.accepted[s.queue[0].order.id]
    ensures s.queue[0].order.Terms() in AcceptedTerms(s)
  {
    assert Pending(s)[|s.reserved|] == s.queue[0].order;
    assert Waiting(s, s.queue[0].order);
  }

  // Removing the head order from the queue and changing the book only in terms
  // that were there, or are the head's, keeps every other waiting order waiting.
  lemma HeadLeaves(s: State, s': State)
    requires Inv(s) && s.queue != [] && s.queue[0].PlaceCommand?
    requires s' == s.(queue := s.queue[1..], book := s'.book, log := s'.log)
    requires BookTerms(s'.book) <= BookTerms(s.book) + {s.queue[0].order.Terms()}
    ensures PendingInv(s', Pending(s'))
  {
    RemoveKeepsUnique(Pending(s), |s.reserved|);
    assert Pending(s') == RemoveAt(Pending(s), |s.reserved|);
    forall x | x in Pending(s')
      ensures Waiting(s', x)
    {
      assert Waiting(s, x);
      NoIdByTerms(s.book, x.id);
      NoIdByTerms(s'.book, x.id);
    }
  }

  lemma PlaceInv(s: State)
    requires Inv(s) && s.queue != [] && s.queue[0].PlaceCommand?
    ensures Inv(DoEngine(s))
  {
    var o, s' := s.queue[0].order, DoEngine(s);
    HeadPlaceable(s);
    PlaceKeepsBookInv(s.book, o);
    PlaceTerms(s.book, o, BookTerms(s.book) + {o.Terms()});
    PlaceTerms(s.book, o, AcceptedTerms(s));
    HeadLeaves(s, s');
    LogGrows(s, s', PlaceEvents(Place(s.book, o)));
  }

  lemma LogGrows(s: State, s': State, events: seq<Event>)
    requires LogInv(s)
    requires s' == s.(queue := s'.queue, book := s'.book, log := Publish(s.producer, s.log, events))
    requires forall e :: e in events ==> EventFrom(e, AcceptedTerms(s))
    ensures LogInv(s')
  {
    forall i | |s.log| <= i < |s'.log|
      ensures s'.log[i].id == EventIds.Join(s.producer, i + 1) && EventFrom(s'.log[i], AcceptedTerms(s))
    {
      assert s'.log[i] == Stamp(s.producer, i + 1, events[i - |s.log|]);
      assert EventFrom(events[i - |s.log|], AcceptedTerms(s));
    }
  }

  lemma CancelInv(s: State)
    requires Inv(s) && s.queue != [] && s.queue[0].CancelCommand?
    ensures Inv(DoEngine(s))
  {
    var id, s' := s.queue[0].orderId, DoEngine(s);
    assert Pending(s') == Pending(s);
    if Cancel(s.book, id).Some? {
      CancelKeepsBookInv(s.book, id);
      CancelTerms(s.book, id);
      forall x | x in Pending(s')
        ensures Waiting(s', x)
      {
        assert Waiting(s, x);
        NoIdByTerms(s.book, x.id);
        NoIdByTerms(s'.book, x.id);
      }
    }
    LogGrows(s, s', CancelEvents(Cancel(s.book, id)));
  }

  lemma StepInv(s: State, step: Step)
    requires Inv(s)
    ensures Inv(Do(s, step))
  {
    match step
    case Seed(u, c, v) => SeedInv(s, u, c, v);
    case Reserve(id, u, side, p, q) => ReserveInv(s, NewOrder(id, u, s.book.symbol, side, p, q));
    case Enqueue(i) => EnqueueInv(s, i);
    case Refuse(i) => RefuseInv(s, i);
    case Submit(c) => SubmitInv(s, c);
    case Deliver(i) => DeliverInv(s, i);
    case Engine =>
      if s.queue != [] {
        match s.queue[0]
        case PlaceCommand(_) => PlaceInv(s);
        case CancelCommand(_) => CancelInv(s);
        case SnapshotCommand(_) =>
          assert Pending(DoEngine(s)) == Pending(s);
          LogGrows(s, DoEngine(s), []);
      }
  }

  // ----- Draining the channel -----

  // Whatever waits in the channel can be placed when its turn comes.
  lemma {:induction false} QueueReady(s: State)
    requires Inv(s)
    ensures Ready(s.book, s.queue)
    decreases |s.queue|
  {
    if s.queue != [] {
      if s.queue[0].PlaceCommand? { HeadPlaceable(s); }
      StepInv(s, Engine);
      QueueReady(DoEngine(s));
    }
  }

  // Processing every waiting command is that many engine steps.
  lemma {:induction false} DrainingIsRunning(s: State)
    ensures var (book, events) := ProcessAll(s.book, s.queue);
      Run(s, seq(|s.queue|, i => Engine)) == s.(queue := [], book := book, log := Publish(s.producer, s.log, events))
    decreases |s.queue|
  {
    var steps := seq(|s.queue|, i => Engine);
    if s.queue == [] {
      assert Publish(s.producer, s.log, []) == s.log;
    } else {
      var s1 := DoEngine(s);
      assert steps[1..] == seq(|s1.queue|, i => Engine);
      DrainingIsRunning(s1);
      PublishTwice(s.producer, s.log, Process(s.book, s.queue[0]).1, ProcessAll(s1.book, s1.queue).1);
    }
  }
}
