// What a depth query shows: the best prices of a side, as many as were asked for.

module DepthQuery {
  import opened Domain
  import opened Sums
  import opened FlatBook
  import opened Execution
  import opened Depth

  ghost function Prices(side: seq<Order>): set<int> { set o | o in side :: o.price }

  // At most depth levels, unless depth is not positive.
  function Shown(depth: int, prices: nat): int { if depth <= 0 then prices else Min(depth, prices) }

  // The best prices of the side, best first, and what rests at each.
  ghost predicate ShowsBest(isBid: bool, levels: seq<LevelView>, side: seq<Order>, depth: int) {
    && |levels| == Shown(depth, |Prices(side)|)
    && (forall i, j :: 0 <= i < j < |levels| ==>
          if isBid then levels[i].price > levels[j].price else levels[i].price < levels[j].price)
    && (forall l :: l in levels ==>
          && l.price in Prices(side)
          && l.quantity == Sum(side, AtPrice(l.price)) && l.orders == Sum(side, CountAt(l.price)))
    && (forall l, o :: l in levels && o in side && (forall x :: x in levels ==> x.price != o.price) ==>
          if isBid then l.price > o.price else l.price < o.price)
  }

  ghost function LevelPrices(ls: seq<LevelView>): set<int> { set l | l in ls :: l.price }

  lemma {:induction false} LevelsHavePrices(flat: seq<Order>)
    ensures LevelPrices(Levels(flat)) == Prices(flat)
  {
    if flat != [] {
      LevelsHavePrices(flat[1..]);
      var rest := Levels(flat[1..]);
      PricesOf(flat);
      LevelPricesOf(Levels(flat));
      if rest != [] { LevelPricesOf(rest); }
      if rest != [] && rest[0].price == flat[0].price {
        assert Levels(flat)[1..] == rest[1..];
      } else {
        assert Levels(flat)[1..] == rest;
      }
    }
  }

  lemma PricesOf(flat: seq<Order>)
    requires flat != []
    ensures Prices(flat) == {flat[0].price} + Prices(flat[1..])
  {
    assert forall o :: o in flat <==> o == flat[0] || o in flat[1..];
  }

  lemma LevelPricesOf(ls: seq<LevelView>)
    requires ls != []
    ensures LevelPrices(ls) == {ls[0].price} + LevelPrices(ls[1..])
  {
    assert forall l :: l in ls <==> l == ls[0] || l in ls[1..];
  }

  lemma {:induction false} DistinctLevels(ls: seq<LevelView>)
    requires forall i, j :: 0 <= i < j < |ls| ==> ls[i].price != ls[j].price
    ensures |LevelPrices(ls)| == |ls|
  {
    if ls != [] {
      LevelPricesOf(ls);
      DistinctLevels(ls[1..]);
      forall l | l in ls[1..]
        ensures l.price != ls[0].price
      {
        var i :| 0 <= i < |ls[1..]| && ls[1..][i] == l;
        assert ls[i + 1] == l;
      }
    }
  }

  // Counts are those of the side, for every level there is.
  lemma LevelCounts(isBid: bool, side: seq<Order>, l: LevelView)
    requires PriceSorted(isBid, side) && l in Levels(side)
    ensures l.quantity == Sum(side, AtPrice(l.price)) && l.orders == Sum(side, CountAt(l.price))
  {
    var i :| 0 <= i < |Levels(side)| && Levels(side)[i] == l;
    LevelsExact(isBid, side, i);
  }

  // Whoever stands at a price that is not among the first n levels is behind them.
  lemma UnshownIsWorse(isBid: bool, side: seq<Order>, n: nat, i: nat, o: Order)
    requires PriceSorted(isBid, side) && i < n <= |Levels(side)| && o in side
    ensures (forall j :: 0 <= j < n ==> Levels(side)[j].price != o.price) ==>
        Before(isBid, Levels(side)[i].price, o.price)
  {
    var k := LevelAt(side, o);
    LevelsSorted(isBid, side);
    if k < n {
      assert Levels(side)[k].price == o.price;
    }
  }

  lemma LevelNumber(isBid: bool, side: seq<Order>)
    requires PriceSorted(isBid, side)
    ensures |Levels(side)| == |Prices(side)|
  {
    LevelsSorted(isBid, side);
    LevelsHavePrices(side);
    DistinctLevels(Levels(side));
  }

  // The levels of a query are the best of its side.
  lemma TopShowsBest(isBid: bool, side: seq<Order>, depth: int)
    requires PriceSorted(isBid, side)
    ensures ShowsBest(isBid, Top(Levels(side), depth), side, depth)
  {
    LevelNumber(isBid, side);
    FrontShowsBest(isBid, side, Levels(side), Top(Levels(side), depth), depth);
  }

  lemma FrontShowsBest(isBid: bool, side: seq<Order>, all: seq<LevelView>, top: seq<LevelView>, depth: int)
    requires PriceSorted(isBid, side) && all == Levels(side) && top <= all && |top| == Shown(depth, |Prices(side)|)
    ensures ShowsBest(isBid, top, side, depth)
  {
    LevelsSorted(isBid, side);
    LevelsHavePrices(side);
    forall l | l in top
      ensures l.price in Prices(side)
      ensures l.quantity == Sum(side, AtPrice(l.price)) && l.orders == Sum(side, CountAt(l.price))
    {
      assert l in all && l.price in LevelPrices(all);
      LevelCounts(isBid, side, l);
    }
    forall l, o | l in top && o in side && (forall x :: x in top ==> x.price != o.price)
      ensures if isBid then l.price > o.price else l.price < o.price
    {
      ShownIsBetter(isBid, side, top, l, o);
    }
  }

  lemma ShownIsBetter(isBid: bool, side: seq<Order>, top: seq<LevelView>, l: LevelView, o: Order)
    requires PriceSorted(isBid, side) && top <= Levels(side) && l in top && o in side
    requires forall x :: x in top ==> x.price != o.price
    ensures Before(isBid, l.price, o.price)
  {
    var i :| 0 <= i < |top| && top[i] == l;
    assert forall j :: 0 <= j < |top| ==> Levels(side)[j] == top[j] && top[j] in top;
    UnshownIsWorse(isBid, side, |top|, i, o);
  }

  lemma LevelAt(side: seq<Order>, o: Order) returns (k: nat)
    requires o in side
    ensures k < |Levels(side)| && Levels(side)[k].price == o.price
  {
    LevelsHavePrices(side);
    assert o.price in Prices(side);
    var l :| l in Levels(side) && l.price == o.price;
    k :| k < |Levels(side)| && Levels(side)[k] == l;
  }
}
