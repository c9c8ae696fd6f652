// The events the engine publishes for one command, in the order it publishes
// them, and the identifiers it stamps on them.

module EventStream {
  import opened Domain
  import opened FlatBook
  import EventIds

  function TradeOnly(t: Trade): Event {
    Event("", 0, TradeEvent, Some(t), None, 0, 0)
  }

  function Update(o: Order, releaseCOP: int, releaseVibranium: int): Event {
    Event("", 0, OrderUpdated, None, Some(o), releaseCOP, releaseVibranium)
  }

  // Each fill is a trade followed by the maker's new state.
  function FillEvents(fills: seq<Fill>): seq<Event> {
    if fills == [] then []
    else [TradeOnly(fills[0].trade), Update(fills[0].maker, 0, 0)] + FillEvents(fills[1..])
  }

  function PlaceEvents(p: Placed): seq<Event> {
    FillEvents(p.fills) + [Update(p.taker, p.release, 0)]
  }

  function CancelEvents(c: Option<Cancellation>): seq<Event> {
    if c.None? then [] else [Update(c.value.order, c.value.releaseCOP, c.value.releaseVibranium)]
  }

  // ----- Where the content of an event comes from -----

  ghost function TermsOf(s: seq<Order>): set<Terms> { set x | x in s :: x.Terms() }

  ghost function BookTerms(b: Book): set<Terms> { TermsOf(b.bids) + TermsOf(b.asks) }

  // A trade between a BUY and a SELL, within the limits of both.
  ghost predicate TradeBetween(t: Trade, buy: Terms, sell: Terms) {
    && buy.side == Buy && sell.side == Sell
    && t.buyOrderId == buy.id && t.buyerId == buy.userId
    && t.sellOrderId == sell.id && t.sellerId == sell.userId
    && sell.price <= t.price <= buy.price
    && 0 < t.quantity
  }

  ghost predicate EventFrom(e: Event, terms: set<Terms>) {
    match e.kind
    case TradeEvent => e.trade.Some? && exists b, s :: b in terms && s in terms && TradeBetween(e.trade.value, b, s)
    case OrderUpdated =>
      e.order.Some? && e.order.value.Terms() in terms && 0 <= e.releaseCOP && 0 <= e.releaseVibranium
    case OrderAccepted => false
  }

  // The n-th event of a producer.
  function Stamp(producer: string, n: nat, e: Event): Event {
    e.(id := EventIds.Join(producer, n), sequence := n)
  }

  // Appends events to a log whose length is the producer's sequence number.
  function Publish(producer: string, log: seq<Event>, events: seq<Event>): (r: seq<Event>)
    ensures |r| == |log| + |events|
    ensures log <= r
    ensures forall i :: 0 <= i < |events| ==> r[|log| + i] == Stamp(producer, |log| + 1 + i, events[i])
  {
    log + seq(|events|, i requires 0 <= i < |events| => Stamp(producer, |log| + 1 + i, events[i]))
  }

  lemma PublishTwice(producer: string, log: seq<Event>, a: seq<Event>, b: seq<Event>)
    ensures Publish(producer, Publish(producer, log, a), b) == Publish(producer, log, a + b)
  {
  }
}
