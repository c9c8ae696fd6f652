// What a match does, said without its recursion: Explains is a declarative
// reading of the outcome, and it holds of exactly one outcome, the one Match
// computes.

module Matching {
  import opened Domain
  import opened Sums
  import opened FlatBook
  import EventIds

  // An order against which a match may run: something to trade at a positive price.
  ghost predicate Tradable(s: seq<Order>) {
    forall i :: 0 <= i < |s| ==> 0 <= s[i].filled < s[i].quantity && s[i].price > 0
  }

  lemma HitKeepsTradable(taker: Order, flat: seq<Order>)
    requires Tradable(flat) && CanFill(taker, flat)
    ensures var qty := FillQuantity(taker, flat[0]);
      0 < qty <= flat[0].Remaining() && Tradable(AfterHit(flat, qty))
  {
  }

  // The trade between taker and maker under a number: who buys and who sells.
  ghost predicate Names(t: Trade, taker: Order, maker: Order) {
    if taker.side == Buy then
      t.buyOrderId == taker.id && t.buyerId == taker.userId && t.sellOrderId == maker.id && t.sellerId == maker.userId
    else
      t.sellOrderId == taker.id && t.sellerId == taker.userId && t.buyOrderId == maker.id && t.buyerId == maker.userId
  }

  // A fill of taker against maker as trade number seqNo, at the maker's price and
  // within both limits.
  ghost predicate FillOf(symbol: string, seqNo: nat, taker: Order, maker: Order, f: Fill) {
    var t, m := f.trade, f.maker;
    && 0 < t.quantity <= maker.Remaining() && t.price == maker.price && Names(t, taker, maker)
    && t.symbol == symbol && t.sequence == seqNo && t.id == EventIds.Join(symbol, seqNo)
    && m == maker.(filled := maker.filled + t.quantity, status := m.status)
    && m.status == (if m.filled == m.quantity then Filled else PartiallyFilled)
    && Crosses(taker.side, taker.price, maker.price)
  }

  // What is left of the last maker hit, when it was not used up.
  function Leftover(fills: seq<Fill>): seq<Order> {
    if fills != [] && fills[|fills| - 1].maker.Remaining() > 0 then [fills[|fills| - 1].maker] else []
  }

  function Traded(): Fill -> int { (f: Fill) => f.trade.quantity }

  // Makers are consumed strictly from the front of the list, each in full except
  // perhaps the last, and the trades are numbered consecutively.
  ghost predicate FillsFrom(symbol: string, tradeSeq: nat, taker: Order, flat: seq<Order>, fills: seq<Fill>) {
    && |fills| <= |flat|
    && (forall i :: 0 <= i < |fills| ==> FillOf(symbol, tradeSeq + 1 + i, taker, flat[i], fills[i]))
    && (forall i :: 0 <= i < |fills| - 1 ==> fills[i].maker.Remaining() == 0)
  }

  // What those fills do: nothing behind them is touched, and matching stops only
  // when the taker is done or the next maker does not cross.
  ghost predicate ExplainsTrades(symbol: string, tradeSeq: nat, taker: Order, flat: seq<Order>, m: Matched) {
    && FillsFrom(symbol, tradeSeq, taker, flat, m.fills)
    && m.taker == taker.(filled := taker.filled + Sum(m.fills, Traded()))
    && m.taker.filled <= taker.quantity
    && m.rest == Leftover(m.fills) + flat[|m.fills|..]
    && (Leftover(m.fills) != [] ==> m.taker.Remaining() == 0)
    && !CanFill(m.taker, m.rest)
  }

  function RefundOf(limit: int): Fill -> int { (f: Fill) => (limit - f.trade.price) * f.trade.quantity }

  // A BUY gets back, per fill, what it locked above the maker's price.
  function RefundTotal(taker: Order, fills: seq<Fill>): int {
    if taker.side == Buy then Sum(fills, RefundOf(taker.price)) else 0
  }

  // The declarative reading of a match.
  ghost predicate Explains(symbol: string, tradeSeq: nat, taker: Order, flat: seq<Order>, m: Matched) {
    ExplainsTrades(symbol, tradeSeq, taker, flat, m) && m.refund == RefundTotal(taker, m.fills)
  }

  lemma {:induction false} MatchExplained(symbol: string, tradeSeq: nat, taker: Order, flat: seq<Order>)
    requires Tradable(flat) && taker.filled <= taker.quantity
    ensures ExplainsTrades(symbol, tradeSeq, taker, flat, Match(symbol, tradeSeq, taker, flat))
    decreases |flat|, taker.Remaining() > 0
  {
    if CanFill(taker, flat) {
      var qty := FillQuantity(taker, flat[0]);
      MatchExplained(symbol, tradeSeq + 1, TakerAfter(taker, qty), AfterHit(flat, qty));
      FrontHitExplained(symbol, tradeSeq, taker, flat, Match(symbol, tradeSeq, taker, flat),
                        Match(symbol, tradeSeq + 1, TakerAfter(taker, qty), AfterHit(flat, qty)));
    }
  }

  lemma FrontHitExplained(symbol: string, tradeSeq: nat, taker: Order, flat: seq<Order>, m: Matched, more: Matched)
    requires Tradable(flat) && CanFill(taker, flat)
    requires var qty := FillQuantity(taker, flat[0]);
      && ExplainsTrades(symbol, tradeSeq + 1, TakerAfter(taker, qty), AfterHit(flat, qty), more)
      && m.fills == [Fill(TradeOf(symbol, tradeSeq + 1, taker, flat[0], qty), MakerAfter(flat[0], qty))] + more.fills
    requires m.taker == more.taker && m.rest == more.rest
    ensures ExplainsTrades(symbol, tradeSeq, taker, flat, m)
  {
    var qty := FillQuantity(taker, flat[0]);
    assert FillOf(symbol, tradeSeq + 1, taker, flat[0], m.fills[0]);
    if m.fills[0].maker.Remaining() > 0 {
      FillsMakeProgress(symbol, tradeSeq + 1, TakerAfter(taker, qty), AfterHit(flat, qty), more);
      LastHitExplained(symbol, tradeSeq, taker, flat, m);
    } else {
      assert m.fills[1..] == more.fills;
      HitExplained(symbol, tradeSeq, taker, flat, m, more);
    }
  }

  lemma {:induction false} RefundExplained(symbol: string, tradeSeq: nat, taker: Order, flat: seq<Order>)
    ensures var m := Match(symbol, tradeSeq, taker, flat); m.refund == RefundTotal(taker, m.fills)
    decreases |flat|, taker.Remaining() > 0
  {
    if CanFill(taker, flat) {
      var qty := FillQuantity(taker, flat[0]);
      RefundExplained(symbol, tradeSeq + 1, TakerAfter(taker, qty), AfterHit(flat, qty));
      assert Match(symbol, tradeSeq, taker, flat).fills[1..]
          == Match(symbol, tradeSeq + 1, TakerAfter(taker, qty), AfterHit(flat, qty)).fills;
    }
  }

  // Match computes the one outcome that the declarative reading allows.
  lemma MatchIsTheExplanation(symbol: string, tradeSeq: nat, taker: Order, flat: seq<Order>, m: Matched)
    requires Tradable(flat) && taker.filled <= taker.quantity
    ensures Explains(symbol, tradeSeq, taker, flat, m) <==> m == Match(symbol, tradeSeq, taker, flat)
  {
    MatchExplained(symbol, tradeSeq, taker, flat);
    RefundExplained(symbol, tradeSeq, taker, flat);
    if Explains(symbol, tradeSeq, taker, flat, m) {
      ExplanationUnique(symbol, tradeSeq, taker, flat, m);
    }
  }

  lemma FillsMakeProgress(symbol: string, tradeSeq: nat, taker: Order, flat: seq<Order>, m: Matched)
    requires ExplainsTrades(symbol, tradeSeq, taker, flat, m)
    ensures m.fills != [] ==> taker.filled < m.taker.filled
  {
    if m.fills != [] {
      forall j | 0 <= j < |m.fills|
        ensures 0 < Traded()(m.fills[j])
      {
        assert FillOf(symbol, tradeSeq + 1 + j, taker, flat[j], m.fills[j]);
      }
      SumTerm(m.fills, m.fills[0], Traded());
    }
  }

  // A single fill that leaves part of its maker is an explained match.
  lemma LastHitExplained(symbol: string, tradeSeq: nat, taker: Order, flat: seq<Order>, m: Matched)
    requires flat != [] && |m.fills| == 1
    requires FillOf(symbol, tradeSeq + 1, taker, flat[0], m.fills[0])
    requires m.taker == TakerAfter(taker, m.fills[0].trade.quantity)
    requires m.taker.Remaining() == 0
    requires m.fills[0].maker.Remaining() > 0 && m.rest == [m.fills[0].maker] + flat[1..]
    ensures ExplainsTrades(symbol, tradeSeq, taker, flat, m)
  {
    assert m.fills == [m.fills[0]];
    SumOne(m.fills[0], Traded());
  }

  // Fills behind a maker that was used up, seen from the list it heads; the
  // taker's own progress does not show in them.
  lemma FillsFromTail(symbol: string, tradeSeq: nat, taker: Order, flat: seq<Order>, fills: seq<Fill>)
    requires flat != [] && fills != []
    requires FillOf(symbol, tradeSeq + 1, taker, flat[0], fills[0])
    requires fills[0].maker.Remaining() == 0
    ensures FillsFrom(symbol, tradeSeq, taker, flat, fills) <==>
            FillsFrom(symbol, tradeSeq + 1, TakerAfter(taker, fills[0].trade.quantity), flat[1..], fills[1..])
  {
    var taker' := TakerAfter(taker, fills[0].trade.quantity);
    if FillsFrom(symbol, tradeSeq, taker, flat, fills) {
      forall i | 0 <= i < |fills[1..]|
        ensures FillOf(symbol, tradeSeq + 2 + i, taker', flat[1..][i], fills[1..][i])
      {
        assert FillOf(symbol, tradeSeq + 1 + (i + 1), taker, flat[i + 1], fills[i + 1]);
      }
    }
    if FillsFrom(symbol, tradeSeq + 1, taker', flat[1..], fills[1..]) {
      forall i | 1 <= i < |fills|
        ensures FillOf(symbol, tradeSeq + 1 + i, taker, flat[i], fills[i])
      {
        assert FillOf(symbol, tradeSeq + 2 + (i - 1), taker', flat[1..][i - 1], fills[1..][i - 1]);
      }
      forall i | 0 <= i < |fills| - 1
        ensures fills[i].maker.Remaining() == 0
      {
        assert i > 0 ==> fills[i] == fills[1..][i - 1];
      }
    }
  }

  // A maker used up in front: the match is explained when what follows is.
  lemma HitExplained(symbol: string, tradeSeq: nat, taker: Order, flat: seq<Order>, m: Matched, more: Matched)
    requires flat != [] && m.fills != []
    requires FillOf(symbol, tradeSeq + 1, taker, flat[0], m.fills[0])
    requires m.fills[0].maker.Remaining() == 0
    requires more.fills == m.fills[1..] && m.taker == more.taker && m.rest == more.rest
    ensures ExplainsTrades(symbol, tradeSeq, taker, flat, m) <==>
            ExplainsTrades(symbol, tradeSeq + 1, TakerAfter(taker, m.fills[0].trade.quantity), flat[1..], more)
  {
    FillsFromTail(symbol, tradeSeq, taker, flat, m.fills);
    assert Leftover(m.fills) == Leftover(more.fills);
    if |more.fills| <= |flat[1..]| {
      assert flat[1..][|more.fills|..] == flat[|m.fills|..];
    }
  }

  // The trades alone leave no freedom: taker, fills and remaining list are the
  // ones Match computes.
  lemma {:induction false} ExplanationUnique(symbol: string, tradeSeq: nat, taker: Order, flat: seq<Order>, m: Matched)
    requires Tradable(flat) && taker.filled <= taker.quantity
    requires ExplainsTrades(symbol, tradeSeq, taker, flat, m)
    ensures m == Match(symbol, tradeSeq, taker, flat).(refund := m.refund)
    decreases |flat|, 1
  {
    FillsMakeProgress(symbol, tradeSeq, taker, flat, m);
    if m.fills == [] {
      assert m.rest == flat;
    } else {
      FirstFillQuantity(symbol, tradeSeq, taker, flat, m);
      ExplanationTailUnique(symbol, tradeSeq, taker, flat, m);
      MatchFromTail(symbol, tradeSeq, taker, flat, m);
    }
  }

  lemma MatchFromTail(symbol: string, tradeSeq: nat, taker: Order, flat: seq<Order>, m: Matched)
    requires CanFill(taker, flat) && m.fills != [] && FillOf(symbol, tradeSeq + 1, taker, flat[0], m.fills[0])
    requires m.fills[0].trade.quantity == FillQuantity(taker, flat[0])
    requires var qty := FillQuantity(taker, flat[0]);
      m.(fills := m.fills[1..])
      == Match(symbol, tradeSeq + 1, TakerAfter(taker, qty), AfterHit(flat, qty)).(refund := m.refund)
    ensures m == Match(symbol, tradeSeq, taker, flat).(refund := m.refund)
  {
    assert m.fills == [m.fills[0]] + m.fills[1..];
  }

  lemma {:induction false} ExplanationTailUnique(symbol: string, tradeSeq: nat, taker: Order, flat: seq<Order>,
                                                 m: Matched)
    requires Tradable(flat) && taker.filled <= taker.quantity
    requires ExplainsTrades(symbol, tradeSeq, taker, flat, m) && m.fills != []
    requires FillOf(symbol, tradeSeq + 1, taker, flat[0], m.fills[0])
    requires m.fills[0].trade.quantity == FillQuantity(taker, flat[0])
    requires m.fills[0].maker.Remaining() > 0 ==>
               |m.fills| == 1 && m.taker == TakerAfter(taker, m.fills[0].trade.quantity)
    ensures var qty := FillQuantity(taker, flat[0]);
      m.(fills := m.fills[1..])
      == Match(symbol, tradeSeq + 1, TakerAfter(taker, qty), AfterHit(flat, qty)).(refund := m.refund)
    decreases |flat|, 0
  {
    var taker' := TakerAfter(taker, m.fills[0].trade.quantity);
    if m.fills[0].maker.Remaining() > 0 {
      assert m.fills[1..] == [];
      assert !CanFill(taker', AfterHit(flat, m.fills[0].trade.quantity));
    } else {
      HitExplained(symbol, tradeSeq, taker, flat, m, m.(fills := m.fills[1..]));
      ExplanationUnique(symbol, tradeSeq + 1, taker', flat[1..], m.(fills := m.fills[1..]));
    }
  }

  lemma FirstFillQuantity(symbol: string, tradeSeq: nat, taker: Order, flat: seq<Order>, m: Matched)
    requires ExplainsTrades(symbol, tradeSeq, taker, flat, m) && m.fills != []
    ensures FillOf(symbol, tradeSeq + 1, taker, flat[0], m.fills[0])
    ensures m.fills[0].trade.quantity == FillQuantity(taker, flat[0])
    ensures m.fills[0].maker.Remaining() > 0 ==>
              |m.fills| == 1 && m.taker == TakerAfter(taker, m.fills[0].trade.quantity)
  {
    forall j | 0 <= j < |m.fills|
      ensures 0 < Traded()(m.fills[j])
    {
      assert FillOf(symbol, tradeSeq + 1 + j, taker, flat[j], m.fills[j]);
    }
    SumTerm(m.fills, m.fills[0], Traded());
    if m.fills[0].maker.Remaining() > 0 {
      assert m.fills == [m.fills[0]];
      SumOne(m.fills[0], Traded());
    }
  }
}
