// Market depth: resting orders of a side grouped by price.

module Depth {
  import opened Domain
  import opened Sums
  import opened FlatBook
  import opened Execution

  datatype LevelView = LevelView(price: int, quantity: int, orders: int)

  // Consecutive orders at one price form a level.
  function Levels(flat: seq<Order>): seq<LevelView> {
    if flat == [] then []
    else
      var o, rest := flat[0], Levels(flat[1..]);
      if rest != [] && rest[0].price == o.price then
        [LevelView(o.price, o.Remaining() + rest[0].quantity, 1 + rest[0].orders)] + rest[1..]
      else [LevelView(o.price, o.Remaining(), 1)] + rest
  }

  // A non-positive depth asks for all levels.
  function Top(levels: seq<LevelView>, depth: int): seq<LevelView> {
    if 0 < depth < |levels| then levels[..depth] else levels
  }

  function LevelQuantity(): LevelView -> int { (l: LevelView) => l.quantity }

  function AtPrice(p: int): Order -> int { (o: Order) => if o.price == p then o.Remaining() else 0 }

  function CountAt(p: int): Order -> int { (o: Order) => if o.price == p then 1 else 0 }

  lemma {:induction false} LevelsStart(flat: seq<Order>)
    ensures (flat == []) == (Levels(flat) == [])
    ensures flat != [] ==> Levels(flat)[0].price == flat[0].price
  {
  }

  // Nothing resting is lost in the aggregation.
  lemma {:induction false} LevelsTotal(flat: seq<Order>)
    ensures Sum(Levels(flat), LevelQuantity()) == Sum(flat, Remainders())
  {
    if flat != [] {
      LevelsTotal(flat[1..]);
      var rest := Levels(flat[1..]);
      if rest != [] && rest[0].price == flat[0].price {
        assert Levels(flat)[1..] == rest[1..];
      } else {
        assert Levels(flat)[1..] == rest;
      }
    }
  }

  function LevelQuantityAt(p: int): LevelView -> int { (l: LevelView) => if l.price == p then l.quantity else 0 }

  function LevelCountAt(p: int): LevelView -> int { (l: LevelView) => if l.price == p then l.orders else 0 }

  lemma {:induction false} LevelsByPrice(flat: seq<Order>, p: int)
    ensures Sum(Levels(flat), LevelQuantityAt(p)) == Sum(flat, AtPrice(p))
    ensures Sum(Levels(flat), LevelCountAt(p)) == Sum(flat, CountAt(p))
  {
    if flat != [] {
      LevelsByPrice(flat[1..], p);
      var rest := Levels(flat[1..]);
      if rest != [] && rest[0].price == flat[0].price {
        assert Levels(flat)[1..] == rest[1..];
      } else {
        assert Levels(flat)[1..] == rest;
      }
    }
  }

  // On a sorted side the levels run strictly best price first.
  lemma {:induction false} LevelsSorted(isBid: bool, flat: seq<Order>)
    requires PriceSorted(isBid, flat)
    ensures forall i, j :: 0 <= i < j < |Levels(flat)| ==> Before(isBid, Levels(flat)[i].price, Levels(flat)[j].price)
  {
    if |flat| > 1 {
      var ls, rest := Levels(flat), Levels(flat[1..]);
      LevelsSorted(isBid, flat[1..]);
      LevelsStart(flat[1..]);
      assert !Before(isBid, flat[1].price, flat[0].price);
      assert forall i :: 1 <= i < |rest| ==> Before(isBid, rest[0].price, rest[i].price);
      if rest[0].price == flat[0].price {
        assert forall i :: 1 <= i < |ls| ==> ls[i] == rest[i];
      } else {
        assert forall i :: 1 <= i < |ls| ==> ls[i] == rest[i - 1];
      }
    }
  }

  // Each level of a sorted side counts exactly the orders resting at its price.
  lemma LevelsExact(isBid: bool, flat: seq<Order>, i: nat)
    requires PriceSorted(isBid, flat) && i < |Levels(flat)|
    ensures Levels(flat)[i].quantity == Sum(flat, AtPrice(Levels(flat)[i].price))
    ensures Levels(flat)[i].orders == Sum(flat, CountAt(Levels(flat)[i].price))
  {
    var ls := Levels(flat);
    var p, others := ls[i].price, ls[..i] + ls[i + 1..];
    LevelsSorted(isBid, flat);
    LevelsByPrice(flat, p);
    SumRemove(ls, i, LevelQuantityAt(p));
    SumRemove(ls, i, LevelCountAt(p));
    forall l | l in others
      ensures l.price != p
    {
      var k :| 0 <= k < |others| && others[k] == l;
      assert l == ls[if k < i then k else k + 1];
    }
    SumZero(others, LevelQuantityAt(p));
    SumZero(others, LevelCountAt(p));
  }

  // A block of orders at one price in front of orders at other prices is one level.
  lemma {:induction false} LevelsOfBlock(p: int, block: seq<Order>, rest: seq<Order>)
    requires block != [] && forall i :: 0 <= i < |block| ==> block[i].price == p
    requires rest != [] ==> rest[0].price != p
    ensures Levels(block + rest) == [LevelView(p, Sum(block, Remainders()), |block|)] + Levels(rest)
    decreases |block|
  {
    LevelsStart(rest);
    assert (block + rest)[1..] == block[1..] + rest;
    if |block| == 1 {
      assert block[1..] + rest == rest;
    } else {
      LevelsOfBlock(p, block[1..], rest);
    }
  }
}
