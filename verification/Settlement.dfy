// Settlement: consumes the engine's events, guards each against redelivery and
// applies its monetary effects, the trade history and the order projection.

module Settlement {
  import opened Domain
  import opened Ledger
  import Values = Ledger  // the datatype of that name hides the module's
  import opened Delivery
  import opened Stores

  class Service {
    const log: EventLog
    const journal: Journal
    const wallets: WalletStore
    const trades: TradeStore
    const orders: OrderStore

    constructor (log: EventLog, journal: Journal, wallets: WalletStore, trades: TradeStore, orders: OrderStore)
      ensures this.log == log && this.journal == journal && this.wallets == wallets
      ensures this.trades == trades && this.orders == orders
    {
      this.log, this.journal, this.wallets, this.trades, this.orders := log, journal, wallets, trades, orders;
    }

    // The four stores as one value.
    ghost function State(): Ledger
      requires wallets.Valid()
      reads journal, wallets, wallets.cells, trades, orders
    {
      Values.Ledger(journal.seen, wallets.Contents(), trades.trades, orders.orders)
    }

    // Consumes everything waiting on the stream, in order.
    method Run()
      requires log.Valid() && wallets.Valid()
      modifies log, journal, wallets, wallets.cells, trades, orders
      ensures log.Valid() && wallets.Valid() && wallets.cells == old(wallets.cells)
      ensures log.waiting == [] && log.published == old(log.published)
      ensures State() == HandleAll(old(State()), old(log.waiting))
    {
      ghost var events, cells, n := log.waiting, wallets.cells, 0;
      while log.waiting != []
        invariant log.Valid() && wallets.Valid() && wallets.cells == cells
        invariant log.published == old(log.published)
        invariant n <= |events| && log.waiting == events[n..]
        invariant HandleAll(State(), events[n..]) == HandleAll(old(State()), events)
        decreases |log.waiting|
      {
        var e := log.Receive();
        var clean := Handle(e, true);
        n := n + 1;
      }
    }

    // Skips an event that is already journalled; journals and applies a new one. An
    // event is also skipped when the journal does not answer. clean tells that
    // nothing was logged as failed.
    method Handle(e: Event, journalAnswers: bool) returns (clean: bool)
      requires wallets.Valid()
      modifies journal, wallets, wallets.cells, trades, orders
      ensures wallets.Valid() && wallets.cells == old(wallets.cells)
      ensures State() == if journalAnswers then Values.Handle(old(State()), e) else old(State())
      ensures clean <==> journalAnswers && (e.id in old(journal.seen) || SettlesCleanly(old(wallets.Contents()), e))
    {
      if !journalAnswers {
        return false;
      }
      var isNew := journal.MarkProcessed(e.id);
      if !isNew {
        return true;
      }
      clean := Apply(e);
    }

    method Apply(e: Event) returns (clean: bool)
      requires wallets.Valid()
      modifies wallets, wallets.cells, trades, orders
      ensures wallets.Valid() && wallets.cells == old(wallets.cells)
      ensures State() == Values.Apply(old(State()), e)
      ensures clean == SettlesCleanly(old(wallets.Contents()), e)
      ensures e.kind != TradeEvent && e.order.Some? ==>
          orders.orders == old(orders.orders)[e.order.value.id := e.order.value]
      ensures e.kind == TradeEvent || e.order.None? ==> orders.orders == old(orders.orders)
      ensures trades.trades
           == old(trades.trades) + (if e.kind == TradeEvent && e.trade.Some? then [e.trade.value] else [])
      ensures e.kind == OrderAccepted ==> wallets.Contents() == old(wallets.Contents()) && clean
    {
      match e.kind
      case TradeEvent =>
        clean := ApplyTrade(e.trade);
      case OrderUpdated =>
        clean := ApplyOrderUpdate(e);
      case OrderAccepted =>
        clean := true;
        if e.order.Some? {
          orders.Upsert(e.order.value);
        }
    }

    // Value for value between buyer and seller. Each leg is attempted whatever the
    // other returned; errors are only logged.
    method ApplyTrade(trade: Option<Trade>) returns (clean: bool)
      requires wallets.Valid()
      modifies wallets, wallets.cells, trades
      ensures wallets.Valid() && wallets.cells == old(wallets.cells)
      ensures wallets.Contents() == if trade.None? then old(wallets.Contents())
                                    else TradeMoney(old(wallets.Contents()), trade.value)
      ensures trades.trades == if trade.Some? then old(trades.trades) + [trade.value] else old(trades.trades)
      ensures trade.Some? ==> clean == TradeClean(old(wallets.Contents()), trade.value)
      ensures trade.None? ==> clean
    {
      if trade.None? {
        return true;
      }
      var t := trade.value;
      var notional := t.Notional();
      var buyErr := wallets.Update(t.buyerId, SettleBuy(notional, t.quantity));
      var sellErr := wallets.Update(t.sellerId, SettleSell(t.quantity, notional));
      trades.Append(t);
      clean := buyErr.None? && sellErr.None?;
    }

    // Refreshes the projection and returns the funds the engine flagged.
    method ApplyOrderUpdate(e: Event) returns (clean: bool)
      requires wallets.Valid()
      modifies wallets, wallets.cells, orders
      ensures wallets.Valid() && wallets.cells == old(wallets.cells)
      ensures orders.orders == if e.order.None? then old(orders.orders)
                               else old(orders.orders)[e.order.value.id := e.order.value]
      ensures wallets.Contents() == if e.order.None? then old(wallets.Contents())
                                    else ReleaseMoney(old(wallets.Contents()), e.order.value.userId,
                                                      e.releaseCOP, e.releaseVibranium)
      ensures e.kind == OrderUpdated ==> clean == SettlesCleanly(old(wallets.Contents()), e)
    {
      clean := true;
      if e.order.None? {
        return;
      }
      var o := e.order.value;
      orders.Upsert(o);
      if e.releaseCOP > 0 {
        var err := wallets.Update(o.userId, ReleaseCOP(e.releaseCOP));
        clean := err.None?;
      }
      if e.releaseVibranium > 0 {
        var err := wallets.Update(o.userId, ReleaseVibranium(e.releaseVibranium));
        clean := clean && err.None?;
      }
    }
  }
}
