// What the log says of each trade and each order, in every run: trades and events
// are numbered from one without a gap, every trade is followed by what it left of
// its maker, and an order's status says how far it is filled.

module Records {
  import opened Domain
  import opened FlatBook
  import opened Matching
  import opened BookInvariant
  import opened EventStream
  import opened Pipeline
  import opened Reachability
  import opened Lifecycle
  import opened OrderLife
  import opened Delivery
  import opened Theorems
  import EventIds

  function CountTrades(es: seq<Event>): nat {
    if es == [] then 0 else CountTrades(es[..|es| - 1]) + (if IsTrade(es[|es| - 1]) then 1 else 0)
  }

  // Trade number n of a symbol.
  ghost predicate IsNumber(t: Trade, symbol: string, n: nat) {
    t.symbol == symbol && t.sequence == n && t.id == EventIds.Join(symbol, n)
  }

  ghost predicate NumberedAt(es: seq<Event>, symbol: string, i: nat)
    requires i < |es|
  {
    IsTrade(es[i]) ==> IsNumber(es[i].trade.value, symbol, CountTrades(es[..i]) + 1)
  }

  ghost predicate Numbered(es: seq<Event>, symbol: string) {
    forall i :: 0 <= i < |es| ==> NumberedAt(es, symbol, i)
  }

  // The order's filled quantity decides its status, but for a cancellation.
  ghost predicate StatusRight(o: Order) {
    && (o.status == Filled <==> o.filled == o.quantity)
    && (o.status == PartiallyFilled ==> 0 < o.filled < o.quantity)
    && (o.status == Open ==> o.filled == 0)
    && (o.status == Open || o.status == PartiallyFilled || o.status == Filled || o.status == Cancelled)
  }

  ghost predicate StatusesRight(es: seq<Event>) { forall e :: e in es && IsUpdate(e) ==> StatusRight(e.order.value) }

  // The maker of a trade: on its side of it, and at its price.
  ghost predicate IsMakerOf(o: Order, t: Trade) {
    && o.price == t.price
    && (if o.side == Buy then o.id == t.buyOrderId && o.userId == t.buyerId
                         else o.id == t.sellOrderId && o.userId == t.sellerId)
  }

  // Right after a trade comes its maker, to whom nothing is released.
  ghost predicate MakerFollowsAt(es: seq<Event>, i: nat)
    requires i < |es|
  {
    IsTrade(es[i]) ==>
      && i + 1 < |es| && IsUpdate(es[i + 1]) && es[i + 1].releaseCOP == 0 && es[i + 1].releaseVibranium == 0
      && IsMakerOf(es[i + 1].order.value, es[i].trade.value)
  }

  ghost predicate MakersFollow(es: seq<Event>) { forall i :: 0 <= i < |es| ==> MakerFollowsAt(es, i) }

  // An event carries a trade or an order, not both, and a trade releases nothing.
  ghost predicate Plain(e: Event) {
    if e.kind == TradeEvent then e.trade.Some? && e.order.None? && e.releaseCOP == 0 && e.releaseVibranium == 0
    else e.kind == OrderUpdated && e.trade.None? && e.order.Some?
  }

  ghost predicate AllPlain(es: seq<Event>) { forall e :: e in es ==> Plain(e) }

  ghost predicate InRecord(es: seq<Event>, symbol: string, n: nat) {
    Numbered(es, symbol) && CountTrades(es) == n && StatusesRight(es) && MakersFollow(es)
    && AllPlain(es)
  }

  // ----- One command -----

  lemma CountAppend(es: seq<Event>, e: Event)
    ensures CountTrades(es + [e]) == CountTrades(es) + (if IsTrade(e) then 1 else 0)
  {
    assert (es + [e])[..|es|] == es;
  }

  lemma NumberedAppend(es: seq<Event>, e: Event, symbol: string)
    requires Numbered(es, symbol) && (IsTrade(e) ==> IsNumber(e.trade.value, symbol, CountTrades(es) + 1))
    ensures Numbered(es + [e], symbol)
  {
    forall i | 0 <= i < |es + [e]|
      ensures NumberedAt(es + [e], symbol, i)
    {
      assert (es + [e])[..i] == es[..i];
      assert i < |es| ==> NumberedAt(es, symbol, i);
      assert i == |es| ==> es[..i] == es;
    }
  }

  lemma StatusesAppend(es: seq<Event>, e: Event)
    requires StatusesRight(es) && (IsUpdate(e) ==> StatusRight(e.order.value))
    ensures StatusesRight(es + [e])
  {
  }

  lemma MakersFollowUpdate(es: seq<Event>, e: Event)
    requires MakersFollow(es) && !IsTrade(e)
    ensures MakersFollow(es + [e])
  {
    forall i | 0 <= i < |es + [e]|
      ensures MakerFollowsAt(es + [e], i)
    {
      assert i < |es| ==> MakerFollowsAt(es, i);
    }
  }

  lemma MakersFollowFill(es: seq<Event>, t: Event, u: Event)
    requires MakersFollow(es) && IsTrade(t) && IsUpdate(u) && u.releaseCOP == 0 && u.releaseVibranium == 0
    requires IsMakerOf(u.order.value, t.trade.value)
    ensures MakersFollow(es + [t] + [u])
  {
    var es' := es + [t] + [u];
    forall i | 0 <= i < |es'|
      ensures MakerFollowsAt(es', i)
    {
      if i < |es| {
        assert MakerFollowsAt(es, i) && es'[i] == es[i];
      }
    }
  }

  lemma AppendUpdate(es: seq<Event>, e: Event, symbol: string, n: nat)
    requires InRecord(es, symbol, n) && IsUpdate(e) && Plain(e) && StatusRight(e.order.value)
    ensures InRecord(es + [e], symbol, n)
  {
    CountAppend(es, e);
    NumberedAppend(es, e, symbol);
    StatusesAppend(es, e);
    MakersFollowUpdate(es, e);
  }

  ghost predicate FillRight(f: Fill, symbol: string, n: nat) {
    IsNumber(f.trade, symbol, n) && StatusRight(f.maker) && IsMakerOf(f.maker, f.trade)
  }

  lemma AppendFill(es: seq<Event>, f: Fill, symbol: string, n: nat)
    requires InRecord(es, symbol, n) && FillRight(f, symbol, n + 1)
    ensures InRecord(es + [TradeOnly(f.trade)] + [Update(f.maker, 0, 0)], symbol, n + 1)
  {
    var t, u := TradeOnly(f.trade), Update(f.maker, 0, 0);
    CountAppend(es, t);
    CountAppend(es + [t], u);
    NumberedAppend(es, t, symbol);
    NumberedAppend(es + [t], u, symbol);
    StatusesAppend(es, t);
    StatusesAppend(es + [t], u);
    MakersFollowFill(es, t, u);
  }

  lemma {:induction false} AppendFills(es: seq<Event>, fills: seq<Fill>, symbol: string, n: nat)
    requires InRecord(es, symbol, n) && forall k :: 0 <= k < |fills| ==> FillRight(fills[k], symbol, n + 1 + k)
    ensures InRecord(es + FillEvents(fills), symbol, n + |fills|)
    decreases |fills|
  {
    if fills == [] {
      assert es + FillEvents(fills) == es;
    } else {
      AppendFill(es, fills[0], symbol, n);
      forall k | 0 <= k < |fills[1..]|
        ensures FillRight(fills[1..][k], symbol, n + 2 + k)
      {
        assert FillRight(fills[k + 1], symbol, n + 1 + (k + 1));
      }
      AppendFills(es + [TradeOnly(fills[0].trade)] + [Update(fills[0].maker, 0, 0)], fills[1..], symbol, n + 1);
      assert fills == [fills[0]] + fills[1..];
      FirstFillEvents(es, fills[0], fills[1..]);
    }
  }

  lemma FillIsRight(symbol: string, n: nat, taker: Order, maker: Order, f: Fill, orderSeq: int)
    requires FillOf(symbol, n, taker, maker, f) && Resting(maker, taker.side == Sell, orderSeq) && taker.side.Valid()
    ensures FillRight(f, symbol, n)
  {
  }

  lemma FillsAreRight(b: Book, t: Order, flat: seq<Order>, fills: seq<Fill>)
    requires AllResting(t.side == Sell, flat, b.orderSeq) && t.side.Valid()
    requires FillsFrom(b.symbol, b.tradeSeq, t, flat, fills)
    ensures forall k :: 0 <= k < |fills| ==> FillRight(fills[k], b.symbol, b.tradeSeq + 1 + k)
  {
    forall k | 0 <= k < |fills|
      ensures FillRight(fills[k], b.symbol, b.tradeSeq + 1 + k)
    {
      FillIsRight(b.symbol, b.tradeSeq + 1 + k, t, flat[k], fills[k], b.orderSeq);
    }
  }

  lemma PlaceFillsRight(b: Book, o: Order)
    requires BookInv(b) && Placeable(b, o)
    ensures forall k :: 0 <= k < |Place(b, o).fills| ==> FillRight(Place(b, o).fills[k], b.symbol, b.tradeSeq + 1 + k)
  {
    MatchExplained(b.symbol, b.tradeSeq, Accepted(b, o), b.Opposite(o.side));
    FillsAreRight(b, Accepted(b, o), b.Opposite(o.side), Place(b, o).fills);
  }

  lemma PlaceNumbers(b: Book, o: Order)
    ensures var p := Place(b, o); p.book.symbol == b.symbol && p.book.tradeSeq == b.tradeSeq + |p.fills|
  {
  }

  lemma PlacedStatus(b: Book, o: Order)
    requires BookInv(b) && Placeable(b, o)
    ensures StatusRight(Place(b, o).taker)
  {
    MatchTakerResting(b, o);
  }

  lemma PlaceRecorded(es: seq<Event>, b: Book, o: Order)
    requires BookInv(b) && Placeable(b, o) && InRecord(es, b.symbol, b.tradeSeq)
    ensures var p := Place(b, o); InRecord(es + PlaceEvents(p), p.book.symbol, p.book.tradeSeq)
  {
    PlaceFillsRight(b, o);
    PlacedStatus(b, o);
    PlaceNumbers(b, o);
    PlacedRecord(es, b.symbol, b.tradeSeq, Place(b, o));
  }

  lemma PlacedRecord(es: seq<Event>, symbol: string, n: nat, p: Placed)
    requires InRecord(es, symbol, n) && StatusRight(p.taker)
    requires forall k :: 0 <= k < |p.fills| ==> FillRight(p.fills[k], symbol, n + 1 + k)
    ensures InRecord(es + PlaceEvents(p), symbol, n + |p.fills|)
  {
    AppendFills(es, p.fills, symbol, n);
    AppendUpdate(es + FillEvents(p.fills), Update(p.taker, p.release, 0), symbol, n + |p.fills|);
    assert es + FillEvents(p.fills) + [Update(p.taker, p.release, 0)] == es + PlaceEvents(p);
  }

  lemma CancelRecorded(es: seq<Event>, b: Book, id: string)
    requires BookInv(b) && InRecord(es, b.symbol, b.tradeSeq) && Cancel(b, id).Some?
    ensures var c := Cancel(b, id); InRecord(es + CancelEvents(c), c.value.book.symbol, c.value.book.tradeSeq)
  {
    var c := Cancel(b, id).value;
    CancelledStatus(b, id);
    AppendUpdate(es, Update(c.order, c.releaseCOP, c.releaseVibranium), b.symbol, b.tradeSeq);
  }

  lemma CancelledStatus(b: Book, id: string)
    requires BookInv(b) && Cancel(b, id).Some?
    ensures var c := Cancel(b, id).value;
      StatusRight(c.order) && c.book.symbol == b.symbol && c.book.tradeSeq == b.tradeSeq
  {
    var i, j := Find(b.bids, id), Find(b.asks, id);
    assert i < |b.bids| ==> Resting(b.bids[i], true, b.orderSeq);
    assert i >= |b.bids| ==> Resting(b.asks[j], false, b.orderSeq);
  }

  // ----- Runs -----

  // The n-th event of the log says so.
  ghost predicate EventsNumbered(log: seq<Event>) { forall i :: 0 <= i < |log| ==> log[i].sequence == i + 1 }

  ghost predicate RecordsInv(s: State) {
    InRecord(Bare(s.log), s.book.symbol, s.book.tradeSeq) && EventsNumbered(s.log) && DistinctIds(s.applied)
  }

  lemma EngineRecords(s: State)
    requires Inv(s) && RecordsInv(s) && s.queue != []
    ensures RecordsInv(DoEngine(s))
  {
    ProcessBare(s.book, s.queue[0]);
    PublishBare(s.producer, s.log, Process(s.book, s.queue[0]).1);
    CommandRecorded(s, s.queue[0]);
    PublishNumbers(s.producer, s.log, Process(s.book, s.queue[0]).1);
  }

  lemma CommandRecorded(s: State, c: Command)
    requires Inv(s) && s.queue != [] && c == s.queue[0] && InRecord(Bare(s.log), s.book.symbol, s.book.tradeSeq)
    ensures var (b, events) := Process(s.book, c); InRecord(Bare(s.log) + events, b.symbol, b.tradeSeq)
  {
    match c
    case PlaceCommand(o) =>
      HeadPlaceable(s);
      PlaceRecorded(Bare(s.log), s.book, o);
    case CancelCommand(id) =>
      if Cancel(s.book, id).Some? {
        CancelRecorded(Bare(s.log), s.book, id);
      } else {
        assert Bare(s.log) + [] == Bare(s.log);
      }
    case SnapshotCommand(_) =>
      assert Bare(s.log) + [] == Bare(s.log);
  }

  lemma PublishNumbers(producer: string, log: seq<Event>, events: seq<Event>)
    requires EventsNumbered(log)
    ensures EventsNumbered(Publish(producer, log, events))
  {
    var r := Publish(producer, log, events);
    forall i | 0 <= i < |r|
      ensures r[i].sequence == i + 1
    {
      assert i < |log| ==> r[i] == log[i];
      assert i >= |log| ==> r[|log| + (i - |log|)] == Stamp(producer, i + 1, events[i - |log|]);
    }
  }

  lemma DeliverRecords(s: State, i: nat)
    requires Inv(s) && RecordsInv(s)
    ensures RecordsInv(DoDeliver(s, i))
  {
    if i < |s.log| && s.log[i].id !in s.ledger.journal {
      forall j | 0 <= j < |s.applied|
        ensures s.applied[j].id != s.log[i].id
      {
        assert s.applied[j] in s.applied && s.applied[j].id in Ids(s.applied);
      }
    }
  }

  lemma StepRecords(s: State, step: Step)
    requires Inv(s) && RecordsInv(s)
    ensures RecordsInv(Do(s, step))
  {
    match step
    case Engine => if s.queue != [] { EngineRecords(s); }
    case Deliver(i) => DeliverRecords(s, i);
    case _ =>
  }

  lemma {:induction false} RunRecords(s: State, steps: seq<Step>)
    requires Inv(s) && RecordsInv(s)
    ensures RecordsInv(Run(s, steps)) && Inv(Run(s, steps))
    decreases |steps|
  {
    if steps != [] {
      StepRecords(s, steps[0]);
      StepInv(s, steps[0]);
      RunRecords(Do(s, steps[0]), steps[1..]);
    }
  }

  lemma ProcessKeepsSymbol(b: Book, c: Command)
    ensures Process(b, c).0.symbol == b.symbol
  {
  }

  lemma StepKeepsSymbol(s: State, step: Step)
    ensures Do(s, step).book.symbol == s.book.symbol
  {
    if step.Engine? && s.queue != [] { ProcessKeepsSymbol(s.book, s.queue[0]); }
  }

  lemma {:induction false} SymbolKept(s: State, steps: seq<Step>)
    ensures Run(s, steps).book.symbol == s.book.symbol
    decreases |steps|
  {
    if steps != [] {
      StepKeepsSymbol(s, steps[0]);
      SymbolKept(Do(s, steps[0]), steps[1..]);
    }
  }

  lemma EveryRunRecorded(producer: string, symbol: string, steps: seq<Step>)
    ensures var s := After(producer, symbol, steps); RecordsInv(s) && Inv(s) && s.book.symbol == symbol
  {
    InitMoney(producer, symbol);
    assert Bare(Init(producer, symbol).log) == [];
    RunRecords(Init(producer, symbol), steps);
    SymbolKept(Init(producer, symbol), steps);
  }

  // ----- What every run's records say -----

  lemma {:induction false} BareCount(es: seq<Event>)
    ensures CountTrades(Bare(es)) == CountTrades(es)
  {
    if es != [] {
      BareCount(es[..|es| - 1]);
      assert Bare(es)[..|es| - 1] == Bare(es[..|es| - 1]);
    }
  }

  lemma BareNumbers(es: seq<Event>, symbol: string)
    requires Numbered(Bare(es), symbol)
    ensures Numbered(es, symbol)
  {
    forall i | 0 <= i < |es|
      ensures NumberedAt(es, symbol, i)
    {
      assert NumberedAt(Bare(es), symbol, i);
      assert Bare(es)[..i] == Bare(es[..i]);
      BareCount(es[..i]);
    }
  }

  // Trades are numbered from one in the order of the log, and named after it.
  lemma TradesAreNumbered(producer: string, symbol: string, steps: seq<Step>, i: nat)
    ensures var log := After(producer, symbol, steps).log;
      i < |log| && log[i].kind == TradeEvent ==>
        && log[i].trade.Some?
        && var t, n := log[i].trade.value, CountTrades(log[..i]) + 1;
           t.symbol == symbol && t.sequence == n && t.id == EventIds.Join(symbol, n)
  {
    var s := After(producer, symbol, steps);
    EveryRunRecorded(producer, symbol, steps);
    BareNumbers(s.log, symbol);
    if i < |s.log| && s.log[i].kind == TradeEvent {
      assert EventFrom(s.log[i], AcceptedTerms(s)) && NumberedAt(s.log, symbol, i);
    }
  }

  lemma {:induction false} CountGrows(es: seq<Event>, i: nat, j: nat)
    requires i < j <= |es| && IsTrade(es[i])
    ensures CountTrades(es[..i]) < CountTrades(es[..j])
    decreases j
  {
    assert es[..j][..j - 1] == es[..j - 1];
    if i < j - 1 { CountGrows(es, i, j - 1); }
  }

  ghost predicate TradeIdsDiffer(es: seq<Event>) {
    forall i, j :: 0 <= i < j < |es| && IsTrade(es[i]) && IsTrade(es[j]) ==>
      es[i].trade.value.id != es[j].trade.value.id
  }

  lemma NumberedIdsDiffer(es: seq<Event>, symbol: string)
    requires Numbered(es, symbol)
    ensures TradeIdsDiffer(es)
  {
    forall i, j | 0 <= i < j < |es| && IsTrade(es[i]) && IsTrade(es[j])
      ensures es[i].trade.value.id != es[j].trade.value.id
    {
      assert NumberedAt(es, symbol, i) && NumberedAt(es, symbol, j);
      var m, n := CountTrades(es[..i]) + 1, CountTrades(es[..j]) + 1;
      CountGrows(es, i, j);
      if EventIds.Join(symbol, m) == EventIds.Join(symbol, n) { EventIds.JoinInjective(symbol, m, symbol, n); }
    }
  }

  // Events that are all different and all from a log whose trades differ.
  lemma ChosenIdsDiffer(log: seq<Event>, es: seq<Event>)
    requires TradeIdsDiffer(log) && DistinctIds(es) && forall e :: e in es ==> e in log
    ensures TradeIdsDiffer(es)
  {
    forall i, j | 0 <= i < j < |es| && IsTrade(es[i]) && IsTrade(es[j])
      ensures es[i].trade.value.id != es[j].trade.value.id
    {
      var m := PositionOf(log, es[i]);
      var n := PositionOf(log, es[j]);
      assert m != n;
    }
  }

  lemma PositionOf(log: seq<Event>, e: Event) returns (i: nat)
    requires e in log
    ensures i < |log| && log[i] == e
  {
    i :| 0 <= i < |log| && log[i] == e;
  }

  ghost predicate Distinct(ts: seq<Trade>) { forall i, j :: 0 <= i < j < |ts| ==> ts[i].id != ts[j].id }

  lemma {:induction false} StoredIdsDiffer(es: seq<Event>)
    requires TradeIdsDiffer(es)
    ensures Distinct(TradesOf(es))
    ensures forall t :: t in TradesOf(es) ==> exists e :: e in es && IsTrade(e) && e.trade.value == t
  {
    if es != [] {
      var n := |es| - 1;
      StoredIdsDiffer(es[..n]);
      forall t | t in TradesOf(es[..n])
        ensures IsTrade(es[n]) ==> t.id != es[n].trade.value.id
      {
        var e :| e in es[..n] && IsTrade(e) && e.trade.value == t;
        var i := PositionOf(es[..n], e);
        assert es[i] == e;
      }
      forall t | t in TradesOf(es)
        ensures exists e :: e in es && IsTrade(e) && e.trade.value == t
      {
        if t in TradesOf(es[..n]) {
          var e :| e in es[..n] && IsTrade(e) && e.trade.value == t;
          assert e in es;
        } else {
          assert es[n] in es;
        }
      }
    }
  }

  // No two trades of a run share an ID, in the log or in the trade history.
  lemma TradeIdsNeverRepeat(producer: string, symbol: string, steps: seq<Step>)
    ensures var s := After(producer, symbol, steps);
      && (forall i, j :: 0 <= i < j < |s.log| && s.log[i].kind == TradeEvent && s.log[j].kind == TradeEvent ==>
            s.log[i].trade.Some? && s.log[j].trade.Some? && s.log[i].trade.value.id != s.log[j].trade.value.id)
      && (forall i, j :: 0 <= i < j < |s.ledger.trades| ==> s.ledger.trades[i].id != s.ledger.trades[j].id)
  {
    var s := After(producer, symbol, steps);
    EveryRunRecorded(producer, symbol, steps);
    EveryRunSound(producer, symbol, steps);
    BareNumbers(s.log, symbol);
    NumberedIdsDiffer(s.log, symbol);
    ChosenIdsDiffer(s.log, s.applied);
    StoredIdsDiffer(s.applied);
    TradesCarryTrades(s);
  }

  lemma TradesCarryTrades(s: State)
    requires LogInv(s)
    ensures forall i :: 0 <= i < |s.log| && s.log[i].kind == TradeEvent ==> IsTrade(s.log[i])
  {
    forall i | 0 <= i < |s.log| && s.log[i].kind == TradeEvent
      ensures IsTrade(s.log[i])
    {
      assert EventFrom(s.log[i], AcceptedTerms(s));
    }
  }

  // Each event is a trade or an order update and carries nothing else.
  lemma EventsArePlain(producer: string, symbol: string, steps: seq<Step>)
    ensures forall e :: e in After(producer, symbol, steps).log ==> Plain(e)
  {
    var s := After(producer, symbol, steps);
    EveryRunRecorded(producer, symbol, steps);
    forall e | e in s.log
      ensures Plain(e)
    {
      var i := PositionOf(s.log, e);
      assert Bare(s.log)[i] in Bare(s.log);
    }
  }

  // Right behind a trade the log has its maker, at the price of the trade and on its
  // side of it, and nothing is released to the maker.
  lemma MakersFollowTrades(producer: string, symbol: string, steps: seq<Step>, i: nat)
    ensures var log := After(producer, symbol, steps).log;
      i < |log| && IsTrade(log[i]) ==>
        && i + 1 < |log| && IsUpdate(log[i + 1]) && log[i + 1].releaseCOP == 0 && log[i + 1].releaseVibranium == 0
        && IsMakerOf(log[i + 1].order.value, log[i].trade.value)
  {
    var s := After(producer, symbol, steps);
    EveryRunRecorded(producer, symbol, steps);
    if i < |s.log| { assert MakerFollowsAt(Bare(s.log), i); }
  }

  // Every published and every stored order has the status its fills call for.
  lemma StatusesTellFills(producer: string, symbol: string, steps: seq<Step>)
    ensures var s := After(producer, symbol, steps);
      && (forall e :: e in s.log && IsUpdate(e) ==> StatusRight(e.order.value))
      && (forall id :: id in s.ledger.orders ==> StatusRight(s.ledger.orders[id]))
  {
    var s := After(producer, symbol, steps);
    EveryRunRecorded(producer, symbol, steps);
    EveryRunSound(producer, symbol, steps);
    forall e | e in s.log && IsUpdate(e)
      ensures StatusRight(e.order.value)
    {
      var i := PositionOf(s.log, e);
      assert Bare(s.log)[i] in Bare(s.log);
    }
    forall id | id in s.ledger.orders
      ensures StatusRight(s.ledger.orders[id])
    {
      AppliedAreUpdates(s);
      ProjectionSource(s.applied, id);
    }
  }

  lemma AppliedAreUpdates(s: State)
    requires Inv(s)
    ensures UpdatesOnly(s.applied)
  {
    forall e | e in s.applied
      ensures e.kind == TradeEvent || IsUpdate(e)
    {
      var i := PositionOf(s.log, e);
      assert EventFrom(s.log[i], AcceptedTerms(s));
    }
  }

  // The n-th event published carries n, in its sequence and in its ID.
  lemma EventsAreNumbered(producer: string, symbol: string, steps: seq<Step>, i: nat)
    ensures var log := After(producer, symbol, steps).log;
      i < |log| ==> log[i].sequence == i + 1 && log[i].id == EventIds.Join(producer, i + 1)
  {
    EveryRunRecorded(producer, symbol, steps);
    if i < |After(producer, symbol, steps).log| { EventIdAt(producer, symbol, steps, i); }
  }

  // ----- Order numbers -----

  // The engine has numbered as many orders as it has taken.
  ghost predicate OrdersNumbered(s: State) {
    s.book.orderSeq == |s.accepted| - |s.withdrawn| - |Pending(s)|
  }

  lemma ReserveNumbers(s: State, o: Order)
    requires OrdersNumbered(s)
    ensures OrdersNumbered(DoReserve(s, o))
  {
    var s' := DoReserve(s, o);
    if s' != s {
      assert s'.accepted.Keys == s.accepted.Keys + {o.id};
      assert |s.accepted| == |s.accepted.Keys| && |s'.accepted| == |s'.accepted.Keys|;
    }
  }

  lemma RefuseNumbers(s: State, i: nat)
    requires Inv(s) && ReservationsInv(s) && OrdersNumbered(s)
    ensures OrdersNumbered(DoRefuse(s, i))
  {
    if i < |s.reserved| {
      assert s.reserved[i] == Pending(s)[i];
      NotWithdrawnYet(s, s.reserved[i]);
    }
  }

  lemma EnqueueNumbers(s: State, i: nat)
    requires OrdersNumbered(s)
    ensures OrdersNumbered(DoEnqueue(s, i))
  {
    if i < |s.reserved| {
      PlacedOrdersAppend(s.queue, [PlaceCommand(s.reserved[i])]);
      assert PlacedOrders([PlaceCommand(s.reserved[i])]) == [s.reserved[i]];
    }
  }

  lemma SubmitNumbers(s: State, c: Command)
    requires OrdersNumbered(s)
    ensures OrdersNumbered(DoSubmit(s, c))
  {
    PlacedOrdersAppend(s.queue, [c]);
    assert !c.PlaceCommand? ==> PlacedOrders([c]) == [];
  }

  lemma CommandNumbers(b: Book, c: Command)
    ensures Process(b, c).0.orderSeq == b.orderSeq + (if c.PlaceCommand? then 1 else 0)
  {
  }

  lemma EngineNumbers(s: State)
    requires OrdersNumbered(s)
    ensures OrdersNumbered(DoEngine(s))
  {
    if s.queue != [] { CommandNumbers(s.book, s.queue[0]); }
  }

  lemma StepNumbers(s: State, step: Step)
    requires Inv(s) && ReservationsInv(s) && OrdersNumbered(s)
    ensures OrdersNumbered(Do(s, step))
  {
    match step
    case Reserve(id, u, side, p, q) => ReserveNumbers(s, NewOrder(id, u, s.book.symbol, side, p, q));
    case Refuse(i) => RefuseNumbers(s, i);
    case Enqueue(i) => EnqueueNumbers(s, i);
    case Submit(c) => SubmitNumbers(s, c);
    case Engine => EngineNumbers(s);
    case _ =>
  }

  lemma {:induction false} RunNumbers(s: State, steps: seq<Step>)
    requires Inv(s) && ReservationsInv(s) && OrdersNumbered(s)
    ensures OrdersNumbered(Run(s, steps))
    decreases |steps|
  {
    if steps != [] {
      StepNumbers(s, steps[0]);
      StepInv(s, steps[0]);
      StepReservations(s, steps[0]);
      RunNumbers(Do(s, steps[0]), steps[1..]);
    }
  }

  // The order counter of the book is the number of orders accepted, less those that
  // were withdrawn and those that still wait.
  lemma OrdersAreNumbered(producer: string, symbol: string, steps: seq<Step>)
    ensures var s := After(producer, symbol, steps);
      s.book.orderSeq == |s.accepted| - |s.withdrawn| - |s.reserved| - |PlacedOrders(s.queue)|
  {
    InitMoney(producer, symbol);
    InitOrders(producer, symbol);
    RunNumbers(Init(producer, symbol), steps);
  }
}
