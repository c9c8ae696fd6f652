// Place and Cancel keep the book invariant: both sides sorted by price-time
// priority, every ID resting once, every order live, and no crossed prices.

module BookInvariant {
  import opened Domain
  import opened FlatBook
  import opened Matching

  // ----- Resting an order -----

  // How many orders of a list go before o.
  function Slot(isBid: bool, flat: seq<Order>, o: Order): (i: nat)
    ensures i <= |flat|
    ensures forall j :: 0 <= j < i ==> !Before(isBid, o.price, flat[j].price)
    ensures i < |flat| ==> Before(isBid, o.price, flat[i].price)
  {
    if flat == [] || Before(isBid, o.price, flat[0].price) then 0 else 1 + Slot(isBid, flat[1..], o)
  }

  lemma {:induction false} InsertBetween(isBid: bool, a: seq<Order>, o: Order, b: seq<Order>)
    requires forall j :: 0 <= j < |a| ==> !Before(isBid, o.price, a[j].price)
    requires b != [] ==> Before(isBid, o.price, b[0].price)
    ensures Insert(isBid, a + b, o) == a + [o] + b
  {
    if a == [] {
      assert a + b == b;
    } else {
      assert (a + b)[1..] == a[1..] + b;
      InsertBetween(isBid, a[1..], o, b);
    }
  }

  lemma InsertAtSlot(isBid: bool, flat: seq<Order>, o: Order)
    ensures Insert(isBid, flat, o) == flat[..Slot(isBid, flat, o)] + [o] + flat[Slot(isBid, flat, o)..]
    ensures InsertedAt(Insert(isBid, flat, o), flat, Slot(isBid, flat, o), o)
  {
    var i := Slot(isBid, flat, o);
    assert flat == flat[..i] + flat[i..];
    InsertBetween(isBid, flat[..i], o, flat[i..]);
    SpliceAt(flat, i, o);
  }

  lemma SpliceAt(flat: seq<Order>, i: nat, o: Order)
    requires i <= |flat|
    ensures InsertedAt(flat[..i] + [o] + flat[i..], flat, i, o)
  {
  }

  ghost predicate InsertedAt(s: seq<Order>, flat: seq<Order>, i: nat, o: Order) {
    && i <= |flat| && |s| == |flat| + 1
    && forall j {:trigger s[j]} :: 0 <= j < |s| ==> s[j] == if j < i then flat[j] else if j == i then o else flat[j - 1]
  }

  lemma InsertKeepsSide(isBid: bool, flat: seq<Order>, o: Order)
    requires SideInv(isBid, flat, o.sequence - 1)
    requires Resting(o, isBid, o.sequence) && NoId(flat, o.id)
    ensures SideInv(isBid, Insert(isBid, flat, o), o.sequence)
  {
    var i := Slot(isBid, flat, o);
    InsertAtSlot(isBid, flat, o);
    SlotOrders(isBid, flat, o);
    InsertedInOrder(isBid, Insert(isBid, flat, o), flat, i, o);
  }

  // Everything in front of the slot goes before o, everything from it on after.
  lemma SlotOrders(isBid: bool, flat: seq<Order>, o: Order)
    requires SideInv(isBid, flat, o.sequence - 1)
    ensures forall j :: 0 <= j < Slot(isBid, flat, o) ==> Priority(isBid, flat[j], o)
    ensures forall j :: Slot(isBid, flat, o) <= j < |flat| ==> Priority(isBid, o, flat[j])
  {
    var i := Slot(isBid, flat, o);
    forall j | i <= j < |flat|
      ensures Priority(isBid, o, flat[j])
    {
      assert i < j ==> Priority(isBid, flat[i], flat[j]);
    }
  }

  lemma InsertedInOrder(isBid: bool, s: seq<Order>, flat: seq<Order>, i: nat, o: Order)
    requires InsertedAt(s, flat, i, o) && Sorted(isBid, flat) && UniqueIds(flat) && NoId(flat, o.id)
    requires forall j :: 0 <= j < i ==> Priority(isBid, flat[j], o)
    requires forall j :: i <= j < |flat| ==> Priority(isBid, o, flat[j])
    ensures Sorted(isBid, s) && UniqueIds(s)
  {
    forall j, k | 0 <= j < k < |s|
      ensures Priority(isBid, s[j], s[k]) && s[j].id != s[k].id
    {
      if j != i && k != i {
        var j', k' := if j < i then j else j - 1, if k < i then k else k - 1;
        assert Priority(isBid, flat[j'], flat[k']) && flat[j'].id != flat[k'].id;
      }
    }
  }

  // ----- What a match leaves behind -----

  // s is the tail end of flat, with nothing but fill progress changed.
  ghost predicate TailOf(isBid: bool, s: seq<Order>, flat: seq<Order>, orderSeq: int) {
    && |s| <= |flat|
    && forall i {:trigger s[i]} :: 0 <= i < |s| ==>
         var x := flat[|flat| - |s| + i];
         s[i].Terms() == x.Terms() && s[i].sequence == x.sequence && Resting(s[i], isBid, orderSeq)
  }

  lemma MatchLeavesTail(symbol: string, tradeSeq: nat, taker: Order, isBid: bool, flat: seq<Order>, orderSeq: int)
    requires SideInv(isBid, flat, orderSeq) && taker.filled <= taker.quantity
    ensures TailOf(isBid, Match(symbol, tradeSeq, taker, flat).rest, flat, orderSeq)
  {
    MatchExplained(symbol, tradeSeq, taker, flat);
    var m := Match(symbol, tradeSeq, taker, flat);
    LeftoverIsTail(symbol, tradeSeq, taker, isBid, flat, orderSeq, m);
  }

  lemma LeftoverIsTail(symbol: string, tradeSeq: nat, taker: Order, isBid: bool, flat: seq<Order>, orderSeq: int,
                       m: Matched)
    requires AllResting(isBid, flat, orderSeq)
    requires FillsFrom(symbol, tradeSeq, taker, flat, m.fills) && m.rest == Leftover(m.fills) + flat[|m.fills|..]
    ensures TailOf(isBid, m.rest, flat, orderSeq)
  {
    var n := |m.fills|;
    if Leftover(m.fills) != [] {
      assert FillOf(symbol, tradeSeq + n, taker, flat[n - 1], m.fills[n - 1]);
    }
    forall i | 0 <= i < |m.rest|
      ensures var x := flat[|flat| - |m.rest| + i];
        m.rest[i].Terms() == x.Terms() && m.rest[i].sequence == x.sequence && Resting(m.rest[i], isBid, orderSeq)
    {
      if Leftover(m.fills) != [] && i == 0 {
        assert m.rest[0] == m.fills[n - 1].maker;
      } else {
        assert m.rest[i] == flat[|flat| - |m.rest| + i];
      }
    }
  }

  lemma TailKeepsSide(isBid: bool, s: seq<Order>, flat: seq<Order>, orderSeq: int)
    requires SideInv(isBid, flat, orderSeq) && TailOf(isBid, s, flat, orderSeq)
    ensures SideInv(isBid, s, orderSeq)
  {
    var k := |flat| - |s|;
    forall i, j | 0 <= i < j < |s|
      ensures Priority(isBid, s[i], s[j]) && s[i].id != s[j].id
    {
      assert Priority(isBid, flat[k + i], flat[k + j]);
    }
  }

  // Nothing the match leaves crosses a taker that still wants to trade.
  lemma RestDoesNotCross(symbol: string, tradeSeq: nat, taker: Order, isBid: bool, flat: seq<Order>, orderSeq: int)
    requires SideInv(isBid, flat, orderSeq) && taker.filled <= taker.quantity
    requires taker.side == (if isBid then Sell else Buy)
    ensures var m := Match(symbol, tradeSeq, taker, flat);
      m.taker.Remaining() > 0 ==>
        forall i :: 0 <= i < |m.rest| ==> !Crosses(taker.side, taker.price, m.rest[i].price)
  {
    var m := Match(symbol, tradeSeq, taker, flat);
    MatchExplained(symbol, tradeSeq, taker, flat);
    MatchLeavesTail(symbol, tradeSeq, taker, isBid, flat, orderSeq);
    TailKeepsSide(isBid, m.rest, flat, orderSeq);
    forall i | 0 <= i < |m.rest| && m.taker.Remaining() > 0
      ensures !Crosses(taker.side, taker.price, m.rest[i].price)
    {
      assert i > 0 ==> Priority(isBid, m.rest[0], m.rest[i]);
    }
  }

  // ----- The operations -----

  // The best bid stays below the best ask.
  lemma NeverCrossed(b: Book)
    requires BookInv(b) && b.bids != [] && b.asks != []
    ensures b.bids[0].price < b.asks[0].price
    ensures forall i :: 0 <= i < |b.bids| ==> b.bids[i].price <= b.bids[0].price
    ensures forall i :: 0 <= i < |b.asks| ==> b.asks[0].price <= b.asks[i].price
  {
    assert forall i :: 1 <= i < |b.bids| ==> Priority(true, b.bids[0], b.bids[i]);
    assert forall i :: 1 <= i < |b.asks| ==> Priority(false, b.asks[0], b.asks[i]);
  }

  // Shrinking one side to a tail of itself keeps the book in order.
  lemma TailKeepsBook(b: Book, b': Book, isBid: bool)
    requires BookInv(b) && b.orderSeq <= b'.orderSeq
    requires if isBid then b'.asks == b.asks && TailOf(true, b'.bids, b.bids, b.orderSeq)
                      else b'.bids == b.bids && TailOf(false, b'.asks, b.asks, b.orderSeq)
    ensures BookInv(b')
    ensures forall id :: NoId(b.bids, id) && NoId(b.asks, id) ==> NoId(b'.bids, id) && NoId(b'.asks, id)
  {
    if isBid {
      TailKeepsSide(true, b'.bids, b.bids, b.orderSeq);
      var k := |b.bids| - |b'.bids|;
      assert forall i :: 0 <= i < |b'.bids| ==> b'.bids[i].Terms() == b.bids[k + i].Terms();
    } else {
      TailKeepsSide(false, b'.asks, b.asks, b.orderSeq);
      var k := |b.asks| - |b'.asks|;
      assert forall i :: 0 <= i < |b'.asks| ==> b'.asks[i].Terms() == b.asks[k + i].Terms();
    }
  }

  lemma AfterMatchInv(b: Book, o: Order, m: Matched)
    requires BookInv(b) && Placeable(b, o)
    requires m == Match(b.symbol, b.tradeSeq, Accepted(b, o), b.Opposite(o.side))
    ensures var b' := AfterMatch(b, o.side, m);
      BookInv(b') && NoId(b'.bids, o.id) && NoId(b'.asks, o.id)
  {
    MatchLeavesTail(b.symbol, b.tradeSeq, Accepted(b, o), o.side == Sell, b.Opposite(o.side), b.orderSeq);
    TailKeepsBook(b, AfterMatch(b, o.side, m), o.side == Sell);
  }

  // Resting an order that crosses nothing on the other side.
  lemma RestKeepsBook(b: Book, o: Order)
    requires BookInv(b) && NoId(b.bids, o.id) && NoId(b.asks, o.id)
    requires b.orderSeq == o.sequence && Resting(o, o.side == Buy, o.sequence)
    requires SideInv(o.side == Buy, b.Own(o.side), o.sequence - 1)
    requires forall i :: 0 <= i < |b.Opposite(o.side)| ==> !Crosses(o.side, o.price, b.Opposite(o.side)[i].price)
    ensures BookInv(Rest(b, o))
  {
    InsertKeepsSide(o.side == Buy, b.Own(o.side), o);
    InsertAtSlot(o.side == Buy, b.Own(o.side), o);
    if o.side == Buy {
      assert b.Opposite(o.side) == b.asks;
      ApartAfterBid(Insert(true, b.bids, o), b.bids, Slot(true, b.bids, o), o, b.asks);
    } else {
      assert b.Opposite(o.side) == b.bids;
      ApartAfterAsk(Insert(false, b.asks, o), b.asks, Slot(false, b.asks, o), o, b.bids);
    }
  }

  lemma ApartAfterBid(s: seq<Order>, bids: seq<Order>, k: nat, o: Order, asks: seq<Order>)
    requires InsertedAt(s, bids, k, o) && NoId(asks, o.id) && Apart(bids, asks)
    requires forall j :: 0 <= j < |asks| ==> o.price < asks[j].price
    ensures Apart(s, asks)
  {
  }

  lemma ApartAfterAsk(s: seq<Order>, asks: seq<Order>, k: nat, o: Order, bids: seq<Order>)
    requires InsertedAt(s, asks, k, o) && NoId(bids, o.id) && Apart(bids, asks)
    requires forall j :: 0 <= j < |bids| ==> bids[j].price < o.price
    ensures Apart(bids, s)
  {
  }

  lemma {:induction false} PlaceKeepsBookInv(b: Book, o: Order)
    requires BookInv(b) && Placeable(b, o)
    ensures BookInv(Place(b, o).book)
  {
    var t := Accepted(b, o);
    var m := Match(b.symbol, b.tradeSeq, t, b.Opposite(o.side));
    var taker := Outcome(m.taker);
    AfterMatchInv(b, o, m);
    if taker.Remaining() != 0 {
      MatchTakerResting(b, o);
      RestDoesNotCross(b.symbol, b.tradeSeq, t, o.side == Sell, b.Opposite(o.side), b.orderSeq);
      RestKeepsBook(AfterMatch(b, o.side, m), taker);
    }
  }

  lemma MatchTakerResting(b: Book, o: Order)
    requires BookInv(b) && Placeable(b, o)
    ensures var p := Place(b, o);
      && p.taker.Terms() == o.Terms() && p.taker.sequence == b.orderSeq + 1
      && 0 <= p.taker.filled <= o.quantity
      && (p.taker.Remaining() == 0 ==> p.taker.status == Filled)
      && (p.taker.Remaining() != 0 ==> Resting(p.taker, o.side == Buy, b.orderSeq + 1))
  {
    var t, flat := Accepted(b, o), b.Opposite(o.side);
    MatchExplained(b.symbol, b.tradeSeq, t, flat);
    FillsMakeProgress(b.symbol, b.tradeSeq, t, flat, Match(b.symbol, b.tradeSeq, t, flat));
  }

  lemma {:induction false} CancelKeepsBookInv(b: Book, id: string)
    requires BookInv(b) && Cancel(b, id).Some?
    ensures BookInv(Cancel(b, id).value.book)
    ensures NoId(Cancel(b, id).value.book.bids, id) && NoId(Cancel(b, id).value.book.asks, id)
  {
    var i := Find(b.bids, id);
    if i < |b.bids| {
      RemoveKeepsSide(true, b.bids, i, b.orderSeq);
    } else {
      RemoveKeepsSide(false, b.asks, Find(b.asks, id), b.orderSeq);
    }
  }

  lemma RemoveKeepsSide(isBid: bool, s: seq<Order>, i: nat, orderSeq: int)
    requires SideInv(isBid, s, orderSeq) && i < |s|
    ensures SideInv(isBid, RemoveAt(s, i), orderSeq) && NoId(RemoveAt(s, i), s[i].id)
  {
    var r := RemoveAt(s, i);
    forall j | 0 <= j < |r|
      ensures r[j] == s[if j < i then j else j + 1]
    {}
  }
}
