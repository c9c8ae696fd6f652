// The whole system as a state machine: users are seeded, orders reserve funds
// and are submitted, one engine drains its command queue and publishes events,
// and settlement is delivered published events. A run is any sequence of steps;
// a step that the system would refuse changes nothing. Delivery may pick any
// published event at any time, so runs include reordering and redelivery.

module Pipeline {
  import opened Domain
  import opened FlatBook
  import opened EventStream
  import opened Ledger
  import EventIds

  datatype Command =
    | PlaceCommand(order: Order)
    | CancelCommand(orderId: string)
    | SnapshotCommand(depth: int)

  datatype State = State(
    producer: string,
    ledger: Ledger,
    reserved: seq<Order>,   // funds locked, not yet in the engine's channel
    queue: seq<Command>,    // the engine's channel
    book: Book,
    log: seq<Event>,        // everything published so far
    // History, which no step reads except to keep generated order IDs unique:
    seeds: Wallets,                // wallets as first seeded
    accepted: map<string, Order>,  // orders as accepted by Reserve
    withdrawn: set<string>,        // orders the engine's channel refused
    applied: seq<Event>)           // events in the order settlement applied them

  datatype Step =
    | Seed(user: string, cop: int, vibranium: int)
    | Reserve(id: string, user: string, side: Side, price: int, quantity: int)
    | Enqueue(i: nat)
    | Refuse(i: nat)
    | Submit(command: Command)
    | Engine
    | Deliver(i: nat)

  function Init(producer: string, symbol: string): State {
    State(producer, EmptyLedger(), [], [], EmptyBook(symbol), [], map[], map[], {}, [])
  }

  // ----- Steps -----

  // Creating a wallet; replacing one that exists is not a step of this machine.
  function DoSeed(s: State, user: string, cop: int, vibranium: int): State {
    if user == "" || cop < 0 || vibranium < 0 || user in s.ledger.wallets then s
    else
      var w := Wallet(user, cop, 0, vibranium, 0);
      s.(ledger := s.ledger.(wallets := s.ledger.wallets[user := w]), seeds := s.seeds[user := w])
  }

  function ReserveOp(o: Order): WalletOp {
    if o.side == Buy then ReserveCOP(o.ReservedCOP()) else ReserveVibranium(o.ReservedVibranium())
  }

  function ReleaseOp(o: Order): WalletOp {
    if o.side == Buy then ReleaseCOP(o.ReservedCOP()) else ReleaseVibranium(o.ReservedVibranium())
  }

  function NewOrder(id: string, user: string, symbol: string, side: Side, price: int, quantity: int): Order {
    Order(id, user, symbol, side, price, quantity, Unset, 0, 0)
  }

  // Generated IDs never repeat; an order that fails validation or cannot be
  // backed by funds is answered with an error and leaves no trace.
  function DoReserve(s: State, o: Order): State {
    if o.id in s.accepted || o.Validate().Some? || UpdateError(s.ledger.wallets, o.userId, ReserveOp(o)).Some? then s
    else s.(ledger := s.ledger.(wallets := Updated(s.ledger.wallets, o.userId, ReserveOp(o))),
            reserved := s.reserved + [o],
            accepted := s.accepted[o.id := o])
  }

  function DoEnqueue(s: State, i: nat): State {
    if i >= |s.reserved| then s
    else s.(reserved := RemoveAt(s.reserved, i), queue := s.queue + [PlaceCommand(s.reserved[i])])
  }

  // The channel refused the order: its reservation is released.
  function DoRefuse(s: State, i: nat): State {
    if i >= |s.reserved| then s
    else
      var o := s.reserved[i];
      s.(ledger := s.ledger.(wallets := Updated(s.ledger.wallets, o.userId, ReleaseOp(o))),
         reserved := RemoveAt(s.reserved, i),
         withdrawn := s.withdrawn + {o.id})
  }

  // Cancellations and depth queries go straight to the channel.
  function DoSubmit(s: State, c: Command): State {
    if c.PlaceCommand? then s else s.(queue := s.queue + [c])
  }

  // The book after a command and the events it publishes.
  function Process(b: Book, c: Command): (Book, seq<Event>) {
    match c
    case PlaceCommand(o) => var p := Place(b, o); (p.book, PlaceEvents(p))
    case CancelCommand(id) =>
      var r := Cancel(b, id);
      (if r.None? then b else r.value.book, CancelEvents(r))
    case SnapshotCommand(_) => (b, [])
  }

  // All of them in order.
  function ProcessAll(b: Book, cs: seq<Command>): (Book, seq<Event>)
    decreases |cs|
  {
    if cs == [] then (b, [])
    else
      var (b', events) := Process(b, cs[0]);
      var (b'', more) := ProcessAll(b', cs[1..]);
      (b'', events + more)
  }

  // With done already published, the first command's events come next.
  lemma ProcessAllNext(b: Book, c: Command, more: seq<Command>, done: seq<Event>)
    ensures var (b', events) := Process(b, c);
      var rest, all := ProcessAll(b', more), ProcessAll(b, [c] + more);
      all.0 == rest.0 && done + all.1 == (done + events) + rest.1
  {
    var (b', events) := Process(b, c);
    var cs := [c] + more;
    assert cs[0] == c && cs[1..] == more;
    JoinTwice(done, events, ProcessAll(b', more).1);
  }

  lemma JoinTwice(a: seq<Event>, b: seq<Event>, c: seq<Event>)
    ensures a + (b + c) == (a + b) + c
  {
  }

  // Each order is one the book can accept by the time its turn comes.
  ghost predicate Ready(b: Book, cs: seq<Command>)
    decreases |cs|
  {
    cs == [] || ((cs[0].PlaceCommand? ==> Placeable(b, cs[0].order)) && Ready(Process(b, cs[0]).0, cs[1..]))
  }

  function DoEngine(s: State): State {
    if s.queue == [] then s
    else
      var (book, events) := Process(s.book, s.queue[0]);
      s.(queue := s.queue[1..], book := book, log := Publish(s.producer, s.log, events))
  }

  function DoDeliver(s: State, i: nat): State {
    if i >= |s.log| then s
    else s.(ledger := Handle(s.ledger, s.log[i]),
            applied := if s.log[i].id in s.ledger.journal then s.applied else s.applied + [s.log[i]])
  }

  function Do(s: State, step: Step): State {
    match step
    case Seed(u, c, v) => DoSeed(s, u, c, v)
    case Reserve(id, u, side, p, q) => DoReserve(s, NewOrder(id, u, s.book.symbol, side, p, q))
    case Enqueue(i) => DoEnqueue(s, i)
    case Refuse(i) => DoRefuse(s, i)
    case Submit(c) => DoSubmit(s, c)
    case Engine => DoEngine(s)
    case Deliver(i) => DoDeliver(s, i)
  }

  function Run(s: State, steps: seq<Step>): State
    decreases |steps|
  {
    if steps == [] then s else Run(Do(s, steps[0]), steps[1..])
  }

  lemma RunOne(s: State, step: Step)
    ensures Run(s, [step]) == Do(s, step)
  {
    assert [step][1..] == [];
  }

  lemma RunTwo(s: State, a: Step, b: Step)
    ensures Run(s, [a, b]) == Do(Do(s, a), b)
  {
    assert [a, b][1..] == [b];
    RunOne(Do(s, a), b);
  }

  lemma {:induction false} RunAppend(s: State, a: seq<Step>, b: seq<Step>)
    ensures Run(s, a + b) == Run(Run(s, a), b)
    decreases |a|
  {
    if a == [] {
      assert a + b == b;
    } else {
      assert (a + b)[1..] == a[1..] + b;
      RunAppend(Do(s, a[0]), a[1..], b);
    }
  }

  // ----- Orders and the log -----

  function PlacedOrders(queue: seq<Command>): seq<Order> {
    if queue == [] then []
    else (if queue[0].PlaceCommand? then [queue[0].order] else []) + PlacedOrders(queue[1..])
  }

  lemma {:induction false} PlacedOrdersAppend(a: seq<Command>, b: seq<Command>)
    ensures PlacedOrders(a + b) == PlacedOrders(a) + PlacedOrders(b)
  {
    if a == [] {
      assert a + b == b;
    } else {
      var head := if a[0].PlaceCommand? then [a[0].order] else [];
      assert (a + b)[1..] == a[1..] + b;
      PlacedOrdersAppend(a[1..], b);
      assert head + (PlacedOrders(a[1..]) + PlacedOrders(b)) == (head + PlacedOrders(a[1..])) + PlacedOrders(b);
    }
  }

  // Accepted orders the engine has not processed yet.
  function Pending(s: State): seq<Order> { s.reserved + PlacedOrders(s.queue) }

  // An accepted order, valid and backed by an existing wallet.
  ghost predicate AcceptedOk(id: string, o: Order, ws: Wallets) {
    o.id == id && o.Validate().None? && o.filled == 0 && o.userId in ws
  }

  ghost function AcceptedTerms(s: State): set<Terms> { set id | id in s.accepted :: s.accepted[id].Terms() }

  ghost predicate OrdersInv(s: State) {
    && BookInv(s.book)
    && (forall id :: id in s.accepted ==> AcceptedOk(id, s.accepted[id], s.ledger.wallets))
    && s.withdrawn <= s.accepted.Keys
    && BookTerms(s.book) <= AcceptedTerms(s)
    && PendingInv(s, Pending(s))
  }

  // Each waiting order is exactly as accepted, waits once, and is not yet resting.
  ghost predicate PendingInv(s: State, pending: seq<Order>) {
    && UniqueIds(pending)
    && forall o :: o in pending ==> Waiting(s, o)
  }

  ghost predicate Waiting(s: State, o: Order) {
    && o.id in s.accepted && o == s.accepted[o.id]
    && NoId(s.book.bids, o.id) && NoId(s.book.asks, o.id)
  }

  ghost predicate LogInv(s: State) {
    && s.ledger.wallets.Keys == s.seeds.Keys
    && (forall i {:trigger s.log[i]} :: 0 <= i < |s.log| ==>
          s.log[i].id == EventIds.Join(s.producer, i + 1) && EventFrom(s.log[i], AcceptedTerms(s)))
    && JournalOk(s)
  }

  ghost function Ids(es: seq<Event>): set<string> { set e | e in es :: e.id }

  // Settlement has applied published events only, and journalled exactly those.
  ghost predicate JournalOk(s: State) {
    && (forall e :: e in s.applied ==> e in s.log)
    && s.ledger.journal == Ids(s.applied)
  }

  lemma LogIdsDiffer(s: State, i: nat, j: nat)
    requires LogInv(s) && i < |s.log| && j < |s.log| && s.log[i].id == s.log[j].id
    ensures i == j
  {
    EventIds.JoinInjective(s.producer, i + 1, s.producer, j + 1);
  }

  lemma UnpublishedIsFresh(s: State, done: set<string>, n: nat)
    requires LogInv(s) && done <= Ids(s.log) && n > |s.log|
    ensures EventIds.Join(s.producer, n) !in done
  {
    if EventIds.Join(s.producer, n) in done {
      var e :| e in s.log && e.id == EventIds.Join(s.producer, n);
      var i :| 0 <= i < |s.log| && s.log[i] == e;
      EventIds.JoinInjective(s.producer, i + 1, s.producer, n);
    }
  }

  lemma JournalledIsPublished(s: State)
    requires LogInv(s)
    ensures s.ledger.journal <= Ids(s.log)
  {
  }
}
