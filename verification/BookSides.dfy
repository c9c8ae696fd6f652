// One side of the imperative book: FIFO queues of live orders keyed by price,
// and the prices kept sorted best first. The ghost field flat is the list the
// three structures stand for.

module BookSides {
  import opened Domain
  import opened Sums
  import opened FlatBook
  import opened Execution
  import opened Depth
  import opened DepthQuery

  // A live order, shared by its queue and the ID index. Only its progress changes.
  class OrderCell {
    const id: string
    const userId: string
    const symbol: string
    const side: Side
    const price: int
    const quantity: int
    var status: Status
    var filled: int
    var sequence: int

    constructor (id: string, userId: string, symbol: string, side: Side, price: int, quantity: int)
      ensures Snap() == Order(id, userId, symbol, side, price, quantity, Unset, 0, 0)
    {
      this.id, this.userId, this.symbol := id, userId, symbol;
      this.side, this.price, this.quantity := side, price, quantity;
      status, filled, sequence := Unset, 0, 0;
    }

    function Remaining(): int
      reads this
    {
      quantity - filled
    }

    // The immutable copy handed to consumers.
    function Snap(): Order
      reads this
    {
      Order(id, userId, symbol, side, price, quantity, status, filled, sequence)
    }
  }

  class PriceLevel {
    const price: int
    ghost const owner: BookSide
    var queue: seq<OrderCell>

    constructor (price: int, ghost owner: BookSide)
      ensures this.price == price && this.owner == owner && queue == []
    {
      this.price, this.owner, queue := price, owner, [];
    }
  }

  ghost function Snaps(cells: seq<OrderCell>): (s: seq<Order>)
    reads cells
    ensures |s| == |cells|
    ensures forall i {:trigger s[i]} :: 0 <= i < |cells| ==> s[i] == cells[i].Snap()
  {
    seq(|cells|, i requires 0 <= i < |cells| reads cells => cells[i].Snap())
  }

  lemma SnapsConcat(a: seq<OrderCell>, b: seq<OrderCell>)
    ensures Snaps(a + b) == Snaps(a) + Snaps(b)
  {
  }

  // ----- Sorted prices -----

  ghost predicate BestFirst(isBid: bool, prices: seq<int>) {
    forall i, j :: 0 <= i < j < |prices| ==> Before(isBid, prices[i], prices[j])
  }

  // First position whose price p beats.
  function PriceSlot(isBid: bool, prices: seq<int>, p: int): (i: nat)
    ensures i <= |prices|
    ensures forall j :: 0 <= j < i ==> !Before(isBid, p, prices[j])
    ensures i < |prices| ==> Before(isBid, p, prices[i])
  {
    if prices == [] || Before(isBid, p, prices[0]) then 0 else 1 + PriceSlot(isBid, prices[1..], p)
  }

  // Smallest index from which on f holds, by bisection.
  method Search(n: nat, f: int --> bool) returns (i: nat)
    requires forall k :: 0 <= k < n ==> f.requires(k)
    requires forall j, k :: 0 <= j < k < n && f(j) ==> f(k)
    ensures i <= n
    ensures forall k :: 0 <= k < i ==> !f(k)
    ensures forall k :: i <= k < n ==> f(k)
  {
    var lo, hi := 0, n;
    while lo < hi
      invariant 0 <= lo <= hi <= n
      invariant forall k :: 0 <= k < lo ==> !f(k)
      invariant forall k :: hi <= k < n ==> f(k)
    {
      var h := (lo + hi) / 2;
      if !f(h) {
        lo := h + 1;
      } else {
        hi := h;
      }
    }
    i := lo;
  }

  // ----- Queues laid end to end -----

  ghost function Concat<T>(prices: seq<int>, queues: map<int, seq<T>>): seq<T>
    requires forall i :: 0 <= i < |prices| ==> prices[i] in queues
  {
    if prices == [] then []
    else queues[prices[0]] + Concat(prices[1..], queues)
  }

  lemma {:induction false} ConcatAppend<T>(a: seq<int>, b: seq<int>, queues: map<int, seq<T>>)
    requires forall i :: 0 <= i < |a| ==> a[i] in queues
    requires forall i :: 0 <= i < |b| ==> b[i] in queues
    ensures Concat(a + b, queues) == Concat(a, queues) + Concat(b, queues)
  {
    if a == [] {
      assert a + b == b;
    } else {
      assert (a + b)[1..] == a[1..] + b;
      ConcatAppend(a[1..], b, queues);
    }
  }

  lemma {:induction false} ConcatAgree<T>(prices: seq<int>, queues: map<int, seq<T>>, queues': map<int, seq<T>>)
    requires forall i :: 0 <= i < |prices| ==>
        prices[i] in queues && prices[i] in queues' && queues[prices[i]] == queues'[prices[i]]
    ensures Concat(prices, queues) == Concat(prices, queues')
  {
    if prices != [] {
      ConcatAgree(prices[1..], queues, queues');
    }
  }

  lemma ConcatAt<T>(prices: seq<int>, k: nat, queues: map<int, seq<T>>)
    requires k < |prices| && forall i :: 0 <= i < |prices| ==> prices[i] in queues
    ensures Concat(prices, queues)
         == Concat(prices[..k], queues) + queues[prices[k]] + Concat(prices[k + 1..], queues)
  {
    assert prices == prices[..k] + prices[k..];
    ConcatAppend(prices[..k], prices[k..], queues);
  }

  ghost predicate Priced(queues: map<int, seq<OrderCell>>) {
    forall p, c :: p in queues && c in queues[p] ==> c.price == p
  }

  lemma {:induction false} ConcatPrices(prices: seq<int>, queues: map<int, seq<OrderCell>>, c: OrderCell)
    requires forall i :: 0 <= i < |prices| ==> prices[i] in queues
    requires Priced(queues) && c in Concat(prices, queues)
    ensures c.price in prices && c.price in queues && c in queues[c.price]
  {
    if c in queues[prices[0]] {
      assert c.price == prices[0];
    } else {
      ConcatPrices(prices[1..], queues, c);
      assert c.price in prices[1..];
    }
  }

  // First position whose order the price p beats.
  function CellSlot(isBid: bool, cells: seq<OrderCell>, p: int): (i: nat)
    ensures i <= |cells|
    ensures forall j :: 0 <= j < i ==> !Before(isBid, p, cells[j].price)
    ensures i < |cells| ==> Before(isBid, p, cells[i].price)
  {
    if cells == [] || Before(isBid, p, cells[0].price) then 0 else 1 + CellSlot(isBid, cells[1..], p)
  }

  function InsertCell(isBid: bool, cells: seq<OrderCell>, o: OrderCell): seq<OrderCell> {
    cells[..CellSlot(isBid, cells, o.price)] + [o] + cells[CellSlot(isBid, cells, o.price)..]
  }

  // Between a block of at-least-as-good prices and a block of worse ones.
  lemma InsertBetweenBlocks(isBid: bool, a: seq<OrderCell>, b: seq<OrderCell>, o: OrderCell)
    requires forall c :: c in a ==> !Before(isBid, o.price, c.price)
    requires forall c :: c in b ==> Before(isBid, o.price, c.price)
    ensures InsertCell(isBid, a + b, o) == a + [o] + b
  {
    var s := a + b;
    forall j | 0 <= j < |a|
      ensures !Before(isBid, o.price, s[j].price)
    {
      assert s[j] in a;
    }
    if b != [] {
      assert s[|a|] == b[0] && b[0] in b;
    }
  }

  lemma AddToLevel(isBid: bool, prices: seq<int>, k: nat, queues: map<int, seq<OrderCell>>, o: OrderCell)
    requires BestFirst(isBid, prices) && k < |prices| && prices[k] == o.price && Priced(queues)
    requires forall i :: 0 <= i < |prices| ==> prices[i] in queues
    ensures Concat(prices, queues[o.price := queues[o.price] + [o]])
         == InsertCell(isBid, Concat(prices, queues), o)
  {
    var queues' := queues[o.price := queues[o.price] + [o]];
    var pre, post := Concat(prices[..k], queues), Concat(prices[k + 1..], queues);
    ConcatAt(prices, k, queues);
    ConcatAt(prices, k, queues');
    ConcatAgree(prices[..k], queues, queues');
    ConcatAgree(prices[k + 1..], queues, queues');
    forall c | c in pre ensures !Before(isBid, o.price, c.price) { ConcatPrices(prices[..k], queues, c); }
    forall c | c in post ensures Before(isBid, o.price, c.price) { ConcatPrices(prices[k + 1..], queues, c); }
    InsertBetweenBlocks(isBid, pre + queues[o.price], post, o);
    assert pre + (queues[o.price] + [o]) + post == pre + queues[o.price] + [o] + post;
  }

  lemma ConcatThree<T>(a: seq<int>, p: int, b: seq<int>, queues: map<int, seq<T>>)
    requires p in queues
    requires forall i :: 0 <= i < |a| ==> a[i] in queues
    requires forall i :: 0 <= i < |b| ==> b[i] in queues
    ensures Concat(a + [p] + b, queues) == Concat(a, queues) + queues[p] + Concat(b, queues)
  {
    ConcatAppend(a + [p], b, queues);
    ConcatAppend(a, [p], queues);
    ConcatOne(p, queues);
  }

  lemma ConcatOne<T>(p: int, queues: map<int, seq<T>>)
    requires p in queues
    ensures Concat([p], queues) == queues[p]
  {
    assert Concat([p], queues) == queues[p] + [];
  }

  // A level opened between two blocks of the list.
  lemma OpenedBetween(a: seq<int>, b: seq<int>, queues: map<int, seq<OrderCell>>, o: OrderCell)
    requires forall i :: 0 <= i < |a| ==> a[i] in queues && a[i] != o.price
    requires forall i :: 0 <= i < |b| ==> b[i] in queues && b[i] != o.price
    requires forall i :: 0 <= i < |a + b| ==> (a + b)[i] in queues
    requires forall i :: 0 <= i < |a + [o.price] + b| ==> (a + [o.price] + b)[i] in queues[o.price := [o]]
    ensures Concat(a + [o.price] + b, queues[o.price := [o]]) == Concat(a, queues) + [o] + Concat(b, queues)
    ensures Concat(a + b, queues) == Concat(a, queues) + Concat(b, queues)
  {
    var queues' := queues[o.price := [o]];
    ConcatThree(a, o.price, b, queues');
    ConcatAgree(a, queues, queues');
    ConcatAgree(b, queues, queues');
    ConcatAppend(a, b, queues);
  }

  lemma AddNewLevel(isBid: bool, prices: seq<int>, prices': seq<int>, queues: map<int, seq<OrderCell>>, o: OrderCell)
    requires BestFirst(isBid, prices) && Priced(queues)
    requires forall i :: 0 <= i < |prices| ==> prices[i] in queues && prices[i] != o.price
    requires var k := PriceSlot(isBid, prices, o.price); prices' == prices[..k] + [o.price] + prices[k..]
    requires forall i :: 0 <= i < |prices'| ==> prices'[i] in queues[o.price := [o]]
    ensures Concat(prices', queues[o.price := [o]]) == InsertCell(isBid, Concat(prices, queues), o)
  {
    var k := PriceSlot(isBid, prices, o.price);
    assert prices == prices[..k] + prices[k..];
    OpenedBetween(prices[..k], prices[k..], queues, o);
    SlotSplits(isBid, prices, queues, o.price);
    InsertBetweenBlocks(isBid, Concat(prices[..k], queues), Concat(prices[k..], queues), o);
  }

  // The slot of a price separates the list into no worse and worse.
  lemma SlotSplits(isBid: bool, prices: seq<int>, queues: map<int, seq<OrderCell>>, p: int)
    requires BestFirst(isBid, prices) && Priced(queues)
    requires forall i :: 0 <= i < |prices| ==> prices[i] in queues
    ensures var k := PriceSlot(isBid, prices, p);
      && (forall c :: c in Concat(prices[..k], queues) ==> !Before(isBid, p, c.price))
      && (forall c :: c in Concat(prices[k..], queues) ==> Before(isBid, p, c.price))
  {
    var k := PriceSlot(isBid, prices, p);
    forall c | c in Concat(prices[..k], queues)
      ensures !Before(isBid, p, c.price)
    {
      ConcatPrices(prices[..k], queues, c);
    }
    forall c | c in Concat(prices[k..], queues)
      ensures Before(isBid, p, c.price)
    {
      ConcatPrices(prices[k..], queues, c);
      var i :| 0 <= i < |prices[k..]| && prices[k..][i] == c.price;
      assert i > 0 ==> Before(isBid, prices[k], prices[k + i]);
    }
  }

  function Without(cells: seq<OrderCell>, i: nat): seq<OrderCell>
    requires i < |cells|
  {
    cells[..i] + cells[i + 1..]
  }

  // Taking one order out of a queue takes it out of the list.
  lemma TakeFromLevel(isBid: bool, prices: seq<int>, k: nat, queues: map<int, seq<OrderCell>>, i: nat)
    requires BestFirst(isBid, prices) && k < |prices|
    requires forall j :: 0 <= j < |prices| ==> prices[j] in queues
    requires i < |queues[prices[k]]|
    ensures var at := |Concat(prices[..k], queues)| + i;
      && at < |Concat(prices, queues)| && Concat(prices, queues)[at] == queues[prices[k]][i]
      && (forall j :: |Concat(prices[..k], queues)| <= j < at ==>
            Concat(prices, queues)[j] == queues[prices[k]][j - |Concat(prices[..k], queues)|])
      && Concat(prices, queues[prices[k] := Without(queues[prices[k]], i)]) == Without(Concat(prices, queues), at)
  {
    var p, q := prices[k], queues[prices[k]];
    var pre, post := Concat(prices[..k], queues), Concat(prices[k + 1..], queues);
    var queues' := queues[p := Without(q, i)];
    ConcatAt(prices, k, queues);
    ConcatAt(prices, k, queues');
    ConcatAgree(prices[..k], queues, queues');
    ConcatAgree(prices[k + 1..], queues, queues');
    assert pre + Without(q, i) + post == Without(pre + q + post, |pre| + i);
  }

  // Taking the last order of a queue takes the queue out of the list.
  lemma TakeLevel(isBid: bool, prices: seq<int>, k: nat, queues: map<int, seq<OrderCell>>)
    requires BestFirst(isBid, prices) && k < |prices|
    requires forall j :: 0 <= j < |prices| ==> prices[j] in queues
    requires |queues[prices[k]]| == 1
    ensures var at := |Concat(prices[..k], queues)|;
      && at < |Concat(prices, queues)|
      && Concat(prices[..k] + prices[k + 1..], queues - {prices[k]}) == Without(Concat(prices, queues), at)
  {
    var p := prices[k];
    ConcatAt(prices, k, queues);
    ConcatAgree(prices[..k], queues, queues - {p});
    ConcatAgree(prices[k + 1..], queues, queues - {p});
    ConcatAppend(prices[..k], prices[k + 1..], queues - {p});
  }

  // What the three structures must agree on. It speaks of levels only through
  // fields that never change, so it can be carried across updates.
  ghost predicate Agree(owner: BookSide, prices: seq<int>, levels: map<int, PriceLevel>,
                        queues: map<int, seq<OrderCell>>, flat: seq<OrderCell>)
  {
    && BestFirst(owner.isBid, prices)
    && (forall p :: p in prices <==> p in levels)
    && (forall p :: p in levels ==> levels[p].price == p && levels[p].owner == owner)
    && queues.Keys == levels.Keys
    && (forall p :: p in queues ==> queues[p] != [])
    && Priced(queues)
    && (forall i :: 0 <= i < |prices| ==> prices[i] in queues)
    && flat == Concat(prices, queues)
  }

  lemma SplicedMember(s: seq<int>, k: nat, p: int)
    requires k <= |s|
    ensures forall x :: x in s[..k] + [p] + s[k..] <==> x in s || x == p
  {
    assert s == s[..k] + s[k..];
  }

  // The queues once o stands at the end of the one at its price.
  function Appended(queues: map<int, seq<OrderCell>>, o: OrderCell): map<int, seq<OrderCell>> {
    queues[o.price := if o.price in queues then queues[o.price] + [o] else [o]]
  }

  lemma AppendedOpens(queues: map<int, seq<OrderCell>>, o: OrderCell)
    requires o.price !in queues
    ensures Appended(queues, o) == queues[o.price := [o]]
  {
  }

  lemma PricedAppended(queues: map<int, seq<OrderCell>>, o: OrderCell)
    requires Priced(queues)
    ensures Priced(Appended(queues, o))
  {
    var q := Appended(queues, o)[o.price];
    assert forall c :: c in q ==> c == o || (o.price in queues && c in queues[o.price]);
  }

  lemma OpenedList(isBid: bool, prices: seq<int>, prices': seq<int>, queues: map<int, seq<OrderCell>>, o: OrderCell)
    requires BestFirst(isBid, prices) && Priced(queues) && o.price !in queues
    requires forall i :: 0 <= i < |prices| ==> prices[i] in queues
    requires var k := PriceSlot(isBid, prices, o.price); prices' == prices[..k] + [o.price] + prices[k..]
    ensures forall i :: 0 <= i < |prices'| ==> prices'[i] in Appended(queues, o)
    ensures Concat(prices', Appended(queues, o)) == InsertCell(isBid, Concat(prices, queues), o)
  {
    AppendedOpens(queues, o);
    AddNewLevel(isBid, prices, prices', queues, o);
  }

  lemma AgreeOpened(owner: BookSide, prices: seq<int>, prices': seq<int>, levels: map<int, PriceLevel>,
                    queues: map<int, seq<OrderCell>>, flat: seq<OrderCell>, lvl: PriceLevel, o: OrderCell)
    requires Agree(owner, prices, levels, queues, flat)
    requires o.price !in levels && lvl.price == o.price && lvl.owner == owner
    requires var k := PriceSlot(owner.isBid, prices, o.price); prices' == prices[..k] + [o.price] + prices[k..]
    requires BestFirst(owner.isBid, prices')
    ensures Agree(owner, prices', levels[o.price := lvl], Appended(queues, o), InsertCell(owner.isBid, flat, o))
  {
    SplicedMember(prices, PriceSlot(owner.isBid, prices, o.price), o.price);
    OpenedList(owner.isBid, prices, prices', queues, o);
    PricedAppended(queues, o);
  }

  lemma AgreeAppended(owner: BookSide, prices: seq<int>, levels: map<int, PriceLevel>,
                      queues: map<int, seq<OrderCell>>, flat: seq<OrderCell>, o: OrderCell)
    requires Agree(owner, prices, levels, queues, flat) && o.price in levels
    ensures Agree(owner, prices, levels, Appended(queues, o), InsertCell(owner.isBid, flat, o))
  {
    var k :| 0 <= k < |prices| && prices[k] == o.price;
    AddToLevel(owner.isBid, prices, k, queues, o);
  }

  // Position in the list of entry i of the queue at prices[k].
  ghost function ListPosition(prices: seq<int>, queues: map<int, seq<OrderCell>>, k: nat, i: nat): nat
    requires k < |prices| && forall j :: 0 <= j < |prices| ==> prices[j] in queues
  {
    |Concat(prices[..k], queues)| + i
  }

  lemma CutMember(isBid: bool, s: seq<int>, k: nat)
    requires BestFirst(isBid, s) && k < |s|
    ensures BestFirst(isBid, s[..k] + s[k + 1..])
    ensures forall x :: x in s[..k] + s[k + 1..] <==> x in s && x != s[k]
  {
    var t := s[..k] + s[k + 1..];
    forall x | x in s && x != s[k]
      ensures x in t
    {
      var i :| 0 <= i < |s| && s[i] == x;
      assert t[if i < k then i else i - 1] == x;
    }
    assert forall i :: 0 <= i < |t| ==> t[i] == s[if i < k then i else i + 1];
  }

  lemma AgreeShortened(owner: BookSide, prices: seq<int>, levels: map<int, PriceLevel>,
                       queues: map<int, seq<OrderCell>>, flat: seq<OrderCell>, k: nat, i: nat)
    requires Agree(owner, prices, levels, queues, flat)
    requires k < |prices| && i < |queues[prices[k]]| && |queues[prices[k]]| > 1
    ensures var p, at := prices[k], ListPosition(prices, queues, k, i);
      at < |flat| && Agree(owner, prices, levels, queues[p := Without(queues[p], i)], Without(flat, at))
  {
    TakeFromLevel(owner.isBid, prices, k, queues, i);
  }

  lemma AgreeClosed(owner: BookSide, prices: seq<int>, levels: map<int, PriceLevel>,
                    queues: map<int, seq<OrderCell>>, flat: seq<OrderCell>, k: nat)
    requires Agree(owner, prices, levels, queues, flat)
    requires k < |prices| && |queues[prices[k]]| == 1
    ensures var p, at := prices[k], ListPosition(prices, queues, k, 0);
      at < |flat|
      && Agree(owner, prices[..k] + prices[k + 1..], levels - {p}, queues - {p}, Without(flat, at))
  {
    var prices', p := prices[..k] + prices[k + 1..], prices[k];
    TakeLevel(owner.isBid, prices, k, queues);
    CutMember(owner.isBid, prices, k);
    forall i | 0 <= i < |prices'|
      ensures prices'[i] in queues - {p}
    {
      assert prices'[i] in prices';
    }
  }

  // Only the contents of the queues matter.
  lemma AgreeSame(owner: BookSide, prices: seq<int>, levels: map<int, PriceLevel>,
                  queues: map<int, seq<OrderCell>>, queues': map<int, seq<OrderCell>>, flat: seq<OrderCell>)
    requires Agree(owner, prices, levels, queues, flat)
    requires queues'.Keys == queues.Keys && forall p :: p in queues ==> queues'[p] == queues[p]
    ensures Agree(owner, prices, levels, queues', flat)
  {
    ConcatAgree(prices, queues, queues');
  }

  // One more level on top of an agreement.
  lemma AgreeOnTop(owner: BookSide, ps: seq<int>, ls: map<int, PriceLevel>, queues: map<int, seq<OrderCell>>,
                   queues': map<int, seq<OrderCell>>, q: seq<OrderCell>, rest: seq<OrderCell>)
    requires ps != [] && ps[0] in ls && ls[ps[0]].price == ps[0] && ls[ps[0]].owner == owner
    requires Agree(owner, ps[1..], ls - {ps[0]}, queues', rest)
    requires |ps| > 1 ==> Before(owner.isBid, ps[0], ps[1])
    requires queues.Keys == ls.Keys && queues[ps[0]] == q && q != [] && forall c :: c in q ==> c.price == ps[0]
    requires forall p :: p in queues' ==> p in queues && queues[p] == queues'[p]
    ensures Agree(owner, ps, ls, queues, q + rest)
  {
    PricesOnTop(owner.isBid, ps, ls.Keys);
    QueuesOnTop(ps, queues, queues', q, rest);
  }

  lemma QueuesOnTop(ps: seq<int>, queues: map<int, seq<OrderCell>>, queues': map<int, seq<OrderCell>>,
                    q: seq<OrderCell>, rest: seq<OrderCell>)
    requires ps != [] && ps[0] in queues && queues[ps[0]] == q
    requires forall i :: 0 <= i < |ps[1..]| ==> ps[1..][i] in queues'
    requires forall p :: p in queues' ==> p in queues && queues[p] == queues'[p]
    requires rest == Concat(ps[1..], queues')
    ensures forall i :: 0 <= i < |ps| ==> ps[i] in queues
    ensures q + rest == Concat(ps, queues)
  {
    forall i | 0 <= i < |ps|
      ensures ps[i] in queues
    {
      assert i > 0 ==> ps[i] == ps[1..][i - 1];
    }
    forall i | 0 <= i < |ps[1..]|
      ensures ps[1..][i] in queues && queues[ps[1..][i]] == queues'[ps[1..][i]]
    {
      var p := ps[1..][i];
      assert p in queues';
    }
    ConcatAgree(ps[1..], queues', queues);
  }

  lemma PricesOnTop(isBid: bool, ps: seq<int>, keys: set<int>)
    requires ps != [] && ps[0] in keys && BestFirst(isBid, ps[1..])
    requires |ps| > 1 ==> Before(isBid, ps[0], ps[1])
    requires forall x :: x in ps[1..] <==> x in keys - {ps[0]}
    ensures BestFirst(isBid, ps) && forall x :: x in ps <==> x in keys
  {
    var p, tail := ps[0], ps[1..];
    forall i | 1 <= i < |ps|
      ensures Before(isBid, p, ps[i])
    {
      assert ps[i] == tail[i - 1] && (i > 1 ==> Before(isBid, tail[0], tail[i - 1]));
    }
    forall i, j | 0 <= i < j < |ps|
      ensures Before(isBid, ps[i], ps[j])
    {
      if i > 0 { assert Before(isBid, tail[i - 1], tail[j - 1]); }
    }
    forall x
      ensures x in ps <==> x in keys
    {
      assert x in ps <==> x == p || x in tail;
    }
  }

  lemma PricesBelow(isBid: bool, ps: seq<int>, keys: set<int>)
    requires BestFirst(isBid, ps) && ps != [] && forall x :: x in ps <==> x in keys
    ensures BestFirst(isBid, ps[1..]) && forall x :: x in ps[1..] <==> x in keys - {ps[0]}
  {
    var tail := ps[1..];
    forall x
      ensures x in tail <==> x in keys - {ps[0]}
    {
      assert x in ps <==> x == ps[0] || x in tail;
      if x in tail {
        var i :| 0 <= i < |tail| && tail[i] == x;
        assert Before(isBid, ps[0], ps[i + 1]);
      }
    }
  }

  lemma QueuesBelow(ps: seq<int>, queues: map<int, seq<OrderCell>>, queues': map<int, seq<OrderCell>>,
                    cells: seq<OrderCell>)
    requires ps != [] && (forall i :: 0 <= i < |ps| ==> ps[i] in queues) && cells == Concat(ps, queues)
    requires forall i :: 0 <= i < |ps[1..]| ==> ps[1..][i] in queues'
    requires forall p :: p in queues' ==> p in queues && queues'[p] == queues[p]
    ensures queues[ps[0]] <= cells && cells[|queues[ps[0]]|..] == Concat(ps[1..], queues')
  {
    forall i | 0 <= i < |ps[1..]|
      ensures queues[ps[1..][i]] == queues'[ps[1..][i]]
    {
      var p := ps[1..][i];
      assert p in queues';
    }
    ConcatAgree(ps[1..], queues, queues');
  }

  // What is left of an agreement below its top level.
  lemma AgreeBelow(owner: BookSide, ps: seq<int>, ls: map<int, PriceLevel>, queues: map<int, seq<OrderCell>>,
                   queues': map<int, seq<OrderCell>>, cells: seq<OrderCell>)
    requires Agree(owner, ps, ls, queues, cells) && ps != []
    requires queues'.Keys == (ls - {ps[0]}).Keys && forall p :: p in queues' ==> queues'[p] == queues[p]
    ensures ps[0] in queues && queues[ps[0]] <= cells
    ensures Agree(owner, ps[1..], ls - {ps[0]}, queues', cells[|queues[ps[0]]|..])
  {
    PricesBelow(owner.isBid, ps, ls.Keys);
    forall i | 0 <= i < |ps[1..]|
      ensures ps[1..][i] in queues'
    {
      assert ps[1..][i] in ps[1..];
    }
    QueuesBelow(ps, queues, queues', cells);
  }

  function Pick<V>(keys: seq<int>, values: map<int, V>): (s: seq<V>)
    requires forall i :: 0 <= i < |keys| ==> keys[i] in values
    ensures |s| == |keys| && forall i :: 0 <= i < |keys| ==> s[i] == values[keys[i]]
  {
    if keys == [] then [] else [values[keys[0]]] + Pick(keys[1..], values)
  }

  class BookSide {
    const isBid: bool
    var levels: map<int, PriceLevel>
    var prices: seq<int>
    ghost var flat: seq<OrderCell>
    ghost var owned: set<PriceLevel>  // every level this side ever opened

    ghost predicate Owns()
      reads this
    {
      OwnsAll(levels) && forall l :: l in owned ==> l.owner == this
    }

    ghost predicate OwnsAll(ls: map<int, PriceLevel>)
      reads this
    {
      forall p :: p in ls ==> ls[p] in owned
    }

    ghost function QueuesOf(ls: map<int, PriceLevel>): (q: map<int, seq<OrderCell>>)
      requires OwnsAll(ls)
      reads this, owned
      ensures q.Keys == ls.Keys
      ensures forall p :: p in ls ==> q[p] == ls[p].queue
    {
      map p | p in ls :: ls[p].queue
    }

    ghost function Queues(): (q: map<int, seq<OrderCell>>)
      requires Owns()
      reads this, owned
    {
      QueuesOf(levels)
    }

    ghost predicate Coherent()
      reads this, owned
    {
      Owns() && Agree(this, prices, levels, Queues(), flat)
    }

    // The same agreement read off level by level: best price first, each price
    // accounts for its level and for the front of the list.
    ghost predicate Peels(ps: seq<int>, cells: seq<OrderCell>, ls: map<int, PriceLevel>)
      reads this, owned
      decreases |ps|
    {
      if ps == [] then cells == [] && ls.Keys == {}
      else
        var p := ps[0];
        && p in ls && ls[p] in owned && ls[p].price == p
        && (|ps| > 1 ==> Before(isBid, p, ps[1]))
        && ls[p].queue != [] && ls[p].queue <= cells
        && (forall c :: c in ls[p].queue ==> c.price == p)
        && Peels(ps[1..], cells[|ls[p].queue|..], ls - {p})
    }

    ghost predicate Valid()
      reads this, owned
    {
      (forall l :: l in owned ==> l.owner == this) && Peels(prices, flat, levels)
    }

    lemma {:induction false} PeelsAgrees(ps: seq<int>, cells: seq<OrderCell>, ls: map<int, PriceLevel>)
      requires (forall l :: l in owned ==> l.owner == this) && Peels(ps, cells, ls)
      ensures OwnsAll(ls) && Agree(this, ps, ls, QueuesOf(ls), cells)
      decreases |ps|
    {
      if ps != [] {
        var p, ps', ls' := ps[0], ps[1..], ls - {ps[0]};
        var q := ls[p].queue;
        PeelsAgrees(ps', cells[|q|..], ls');
        assert OwnsAll(ls) by {
          forall x | x in ls ensures ls[x] in owned { assert x != p ==> x in ls'; }
        }
        AgreeOnTop(this, ps, ls, QueuesOf(ls), QueuesOf(ls'), q, cells[|q|..]);
        assert q + cells[|q|..] == cells;
      }
    }

    lemma {:induction false} AgreesPeels(ps: seq<int>, cells: seq<OrderCell>, ls: map<int, PriceLevel>)
      requires OwnsAll(ls) && Agree(this, ps, ls, QueuesOf(ls), cells)
      ensures Peels(ps, cells, ls)
      decreases |ps|
    {
      if ps == [] {
        assert forall p :: p in ls ==> p in ps;
      } else {
        var p, ls' := ps[0], ls - {ps[0]};
        var q := ls[p].queue;
        assert p in QueuesOf(ls) && QueuesOf(ls)[p] == q;
        AgreeBelow(this, ps, ls, QueuesOf(ls), QueuesOf(ls'), cells);
        AgreesPeels(ps[1..], cells[|q|..], ls');
      }
    }

    lemma Unpack()
      requires Valid()
      ensures Coherent()
    {
      PeelsAgrees(prices, flat, levels);
    }

    lemma Pack()
      requires Coherent()
      ensures Valid()
    {
      AgreesPeels(prices, flat, levels);
    }

    // A queue is a contiguous stretch of the list.
    lemma QueueInList(p: int) returns (at: nat)
      requires Valid() && p in levels
      ensures at + |levels[p].queue| <= |flat| && flat[at..at + |levels[p].queue|] == levels[p].queue
    {
      Unpack();
      var queues := Queues();
      var k :| 0 <= k < |prices| && prices[k] == p;
      ConcatAt(prices, k, queues);
      at := |Concat(prices[..k], queues)|;
      assert queues[p] == levels[p].queue;
    }

    lemma QueuePrice(p: int, i: nat)
      requires Valid() && p in levels && i < |levels[p].queue|
      ensures levels[p].queue[i].price == p
    {
      Unpack();
      assert levels[p].queue[i] in Queues()[p];
    }

    constructor (isBid: bool)
      ensures Valid() && this.isBid == isBid && flat == [] && owned == {}
    {
      this.isBid, levels, prices, flat, owned := isBid, map[], [], [], {};
    }

    function Best(): Option<int>
      reads this
    {
      if prices == [] then None else Some(prices[0])
    }

    // The first order of the best level is the first of the list.
    lemma BestIsFirst()
      requires Valid()
      ensures (prices == []) == (flat == [])
      ensures prices != [] ==>
          && prices[0] in levels && levels[prices[0]].queue != []
          && levels[prices[0]].queue[0] == flat[0] && flat[0].price == prices[0]
    {
      if prices != [] {
        var p := prices[0];
        assert levels[p].queue != [] && levels[p].queue <= flat;
        assert flat[0] in levels[p].queue;
      }
    }

    method InsertPrice(p: int)
      requires BestFirst(isBid, prices) && p !in prices
      modifies this`prices
      ensures var k := PriceSlot(isBid, old(prices), p);
        prices == old(prices)[..k] + [p] + old(prices)[k..]
      ensures BestFirst(isBid, prices)
    {
      var ps, bid := prices, isBid;
      var f := k requires 0 <= k < |ps| => if bid then ps[k] < p else ps[k] > p;
      var i := Search(|ps|, f);
      assert i == PriceSlot(isBid, ps, p) by {
        assert forall k :: 0 <= k < |ps| ==> (f(k) <==> Before(isBid, p, ps[k]));
        assert i < |ps| ==> f(i);
        assert PriceSlot(isBid, ps, p) < |ps| ==> f(PriceSlot(isBid, ps, p));
      }
      prices := ps[..i] + [p] + ps[i..];
    }

    method RemovePrice(p: int)
      requires BestFirst(isBid, prices)
      modifies this`prices
      ensures p !in old(prices) ==> prices == old(prices)
      ensures forall k :: 0 <= k < |old(prices)| && old(prices)[k] == p ==>
          prices == old(prices)[..k] + old(prices)[k + 1..]
      ensures BestFirst(isBid, prices)
    {
      var i := 0;
      while i < |prices|
        invariant 0 <= i <= |prices|
        invariant prices == old(prices)
        invariant p !in prices[..i]
      {
        if prices[i] == p {
          prices := prices[..i] + prices[i + 1..];
          return;
        }
        i := i + 1;
      }
    }

    // Opens the level of o's price. The side agrees again, on the queues returned,
    // once o stands in it.
    method OpenLevel(o: OrderCell) returns (lvl: PriceLevel, ghost queues: map<int, seq<OrderCell>>)
      requires Coherent() && o.price !in levels
      modifies this`levels, this`prices, this`owned
      ensures Owns() && levels == old(levels)[o.price := lvl] && lvl.queue == []
      ensures fresh(lvl) && owned == old(owned) + {lvl}
      ensures queues == Appended(old(Queues()), o)
      ensures Agree(this, prices, levels, queues, InsertCell(isBid, flat, o))
    {
      ghost var prices0, levels0 := prices, levels;
      queues := Appended(Queues(), o);
      lvl := new PriceLevel(o.price, this);
      levels, owned := levels[o.price := lvl], owned + {lvl};
      InsertPrice(o.price);
      AgreeOpened(this, prices0, prices, levels0, old(Queues()), flat, lvl, o);
    }

    // The level of o's price, opened if it is missing.
    method LevelFor(o: OrderCell) returns (lvl: PriceLevel, ghost queues: map<int, seq<OrderCell>>)
      requires Coherent()
      modifies this`levels, this`prices, this`owned
      ensures Owns() && o.price in levels && lvl == levels[o.price]
      ensures owned == old(owned) || (fresh(lvl) && owned == old(owned) + {lvl})
      ensures Agree(this, prices, levels, queues, InsertCell(isBid, flat, o))
      ensures forall p :: p in levels ==> queues[p] == if p == o.price then lvl.queue + [o] else levels[p].queue
    {
      if o.price !in levels {
        lvl, queues := OpenLevel(o);
      } else {
        lvl, queues := levels[o.price], Appended(Queues(), o);
        AgreeAppended(this, prices, levels, Queues(), flat, o);
      }
    }

    // Queues o behind every order at its price.
    method Add(o: OrderCell)
      requires Valid()
      modifies this, owned
      ensures Valid() && fresh(owned - old(owned))
      ensures flat == InsertCell(isBid, old(flat), o)
    {
      Unpack();
      var lvl, queues := LevelFor(o);
      lvl.queue := lvl.queue + [o];
      flat := InsertCell(isBid, flat, o);
      AgreeSame(this, prices, levels, queues, Queues(), flat);
      Pack();
    }

    // The last order of a level is out of its queue: the level goes too.
    method CloseLevel(lvl: PriceLevel, ghost k: nat, ghost before: map<int, seq<OrderCell>>)
      requires Owns() && Agree(this, prices, levels, before, flat)
      requires k < |prices| && prices[k] == lvl.price && |before[lvl.price]| == 1
      requires forall p :: p in levels && p != lvl.price ==> before[p] == levels[p].queue
      modifies this
      ensures Coherent() && owned == old(owned)
      ensures ListPosition(old(prices), before, k, 0) < |old(flat)|
      ensures flat == Without(old(flat), ListPosition(old(prices), before, k, 0))
    {
      ghost var p, at, prices' := prices[k], ListPosition(prices, before, k, 0), prices[..k] + prices[k + 1..];
      AgreeClosed(this, prices, levels, before, flat, k);
      levels := levels - {lvl.price};
      RemovePrice(lvl.price);
      flat := Without(flat, at);
      assert prices == prices';
      AgreeSame(this, prices, levels, before - {p}, Queues(), flat);
    }

    // With entry i out of its queue, closes the level if nothing is left.
    method CloseIfEmpty(lvl: PriceLevel, ghost k: nat, ghost i: nat, ghost before: map<int, seq<OrderCell>>)
      requires Owns() && Agree(this, prices, levels, before, flat)
      requires k < |prices| && prices[k] == lvl.price && levels[lvl.price] == lvl
      requires i < |before[lvl.price]| && lvl.queue == Without(before[lvl.price], i)
      requires forall p :: p in levels && p != lvl.price ==> before[p] == levels[p].queue
      modifies this
      ensures Coherent() && owned == old(owned)
      ensures ListPosition(old(prices), before, k, i) < |old(flat)|
      ensures flat == Without(old(flat), ListPosition(old(prices), before, k, i))
    {
      if lvl.queue == [] {
        CloseLevel(lvl, k, before);
      } else {
        ghost var p, at := prices[k], ListPosition(prices, before, k, i);
        AgreeShortened(this, prices, levels, before, flat, k, i);
        flat := Without(flat, at);
        AgreeSame(this, prices, levels, before[p := Without(before[p], i)], Queues(), flat);
      }
    }

    // Takes entry i out of a level's queue.
    method Cut(lvl: PriceLevel, i: nat) returns (ghost at: nat)
      requires Coherent() && lvl.price in levels && levels[lvl.price] == lvl && i < |lvl.queue|
      modifies this, lvl
      ensures Coherent() && owned == old(owned)
      ensures i <= at < |old(flat)| && flat == Without(old(flat), at)
      ensures old(flat)[at] == old(lvl.queue)[i]
      ensures lvl.price == old(prices)[0] ==> at == i
    {
      ghost var before := Queues();
      ghost var k :| 0 <= k < |prices| && prices[k] == lvl.price;
      at := ListPosition(prices, before, k, i);
      TakeFromLevel(isBid, prices, k, before, i);
      assert k > 0 ==> prices[0] != lvl.price;
      lvl.queue := lvl.queue[..i] + lvl.queue[i + 1..];
      CloseIfEmpty(lvl, k, i, before);
    }

    // The front order of the best level has been filled.
    method PopFront(lvl: PriceLevel)
      requires Valid() && prices != [] && lvl == levels[prices[0]]
      modifies this, lvl
      ensures Valid() && owned == old(owned)
      ensures old(flat) != [] && flat == old(flat)[1..]
    {
      BestIsFirst();
      Unpack();
      ghost var at := Cut(lvl, 0);
      Pack();
    }

    // Removes the first order at o's price that has o's ID.
    method Remove(o: OrderCell) returns (ok: bool, ghost at: nat)
      requires Valid()
      modifies this, owned
      ensures Valid() && owned == old(owned)
      ensures ok ==> at < |old(flat)| && old(flat)[at].id == o.id && flat == Without(old(flat), at)
      ensures !ok ==> flat == old(flat) && forall c :: c in flat ==> c.price != o.price || c.id != o.id
    {
      at := 0;
      Unpack();
      forall c | c in flat { InOwnQueue(c); }
      if o.price !in levels {
        return false, 0;
      }
      var lvl, i := levels[o.price], 0;
      while i < |lvl.queue| && lvl.queue[i].id != o.id
        invariant 0 <= i <= |lvl.queue|
        invariant forall j :: 0 <= j < i ==> lvl.queue[j].id != o.id
      {
        i := i + 1;
      }
      ok := i < |lvl.queue|;
      if ok {
        at := Cut(lvl, i);
        Pack();
      }
    }

    // Every order of the list is in the queue at its price.
    lemma InOwnQueue(c: OrderCell)
      requires Coherent() && c in flat
      ensures c.price in levels && c in levels[c.price].queue
    {
      ConcatPrices(prices, Queues(), c);
    }

    // The flattened side is best price first.
    lemma {:induction false} PeelsSorted(ps: seq<int>, cells: seq<OrderCell>, ls: map<int, PriceLevel>)
      requires Peels(ps, cells, ls)
      ensures PriceSorted(isBid, Snaps(cells))
      ensures forall c :: c in cells ==> ps != [] && (c.price == ps[0] || Before(isBid, ps[0], c.price))
      decreases |ps|
    {
      if ps != [] {
        var q := ls[ps[0]].queue;
        var rest := cells[|q|..];
        PeelsSorted(ps[1..], rest, ls - {ps[0]});
        assert cells == q + rest;
        assert Snaps(cells) == Snaps(q) + Snaps(rest);
      }
    }

    // Aggregated depth of the first levels; a non-positive depth asks for all.
    method LevelsView(depth: int) returns (out: seq<LevelView>)
      requires Valid()
      ensures out == Top(Levels(Snaps(flat)), depth) && ShowsBest(isBid, out, Snaps(flat), depth)
    {
      LevelsAreGroups();
      PeelsSorted(prices, flat, levels);
      TopShowsBest(isBid, Snaps(flat), depth);
      out := Collect(depth, Levels(Snaps(flat)));
    }

    lemma LevelsAreGroups()
      requires Valid()
      ensures Owns() && |Levels(Snaps(flat))| == |prices|
      ensures forall i :: 0 <= i < |prices| ==> prices[i] in levels && Levels(Snaps(flat))[i] == ViewOf(prices[i])
    {
      Unpack();
      var views := map p | p in levels :: ViewOf(p);
      LevelsFrom(0, views);
      assert prices[0..] == prices;
      assert Levels(Snaps(flat)) == Pick(prices, views);
    }

    method Collect(depth: int, ghost all: seq<LevelView>) returns (out: seq<LevelView>)
      requires Owns() && |all| == |prices|
      requires forall i :: 0 <= i < |prices| ==> prices[i] in levels && all[i] == ViewOf(prices[i])
      ensures out == Top(all, depth)
    {
      out := [];
      var i := 0;
      while i < |prices|
        invariant 0 <= i <= |prices| && (depth > 0 ==> i <= depth)
        invariant out == all[..i]
      {
        if depth > 0 && i >= depth {
          break;
        }
        var lvl := levels[prices[i]];
        assert all[i] == ViewOf(prices[i]);
        var q := Quantity(lvl.queue, Snaps(lvl.queue));
        out := out + [LevelView(prices[i], q, |lvl.queue|)];
        i := i + 1;
      }
    }

    static method Quantity(queue: seq<OrderCell>, ghost snaps: seq<Order>) returns (q: int)
      requires snaps == Snaps(queue)
      ensures q == Sum(snaps, Remainders())
    {
      var j := 0;
      q := 0;
      assert snaps[0..] == snaps;
      while j < |queue|
        invariant 0 <= j <= |queue|
        invariant q + Sum(snaps[j..], Remainders()) == Sum(snaps, Remainders())
      {
        q := q + queue[j].Remaining();
        assert snaps[j..][1..] == snaps[j + 1..];
        j := j + 1;
      }
    }

    ghost function ViewOf(p: int): LevelView
      requires Owns() && p in levels
      reads this, owned, levels[p].queue
    {
      LevelView(p, Sum(Snaps(levels[p].queue), Remainders()), |levels[p].queue|)
    }

    // The list is grouped exactly as the levels are.
    lemma {:induction false} LevelsFrom(i: nat, views: map<int, LevelView>)
      requires Coherent() && i <= |prices|
      requires forall p :: p in levels ==> p in views && views[p] == ViewOf(p)
      ensures forall j :: 0 <= j < |prices[i..]| ==> prices[i..][j] in views
      ensures Levels(Snaps(Concat(prices[i..], Queues()))) == Pick(prices[i..], views)
      decreases |prices| - i
    {
      if i < |prices| {
        NextLevel(i);
        LevelsFrom(i + 1, views);
        assert prices[i..][1..] == prices[i + 1..];
      }
    }

    // The list from a level on starts with exactly that level.
    lemma NextLevel(i: nat)
      requires Coherent() && i < |prices|
      ensures prices[i] in levels
      ensures Levels(Snaps(Concat(prices[i..], Queues())))
           == [ViewOf(prices[i])] + Levels(Snaps(Concat(prices[i + 1..], Queues())))
    {
      var p, queues := prices[i], Queues();
      var rest := Concat(prices[i + 1..], queues);
      assert p in queues && queues[p] != [];
      assert prices[i..][1..] == prices[i + 1..];
      SnapsConcat(queues[p], rest);
      if rest != [] {
        ConcatPrices(prices[i + 1..], queues, rest[0]);
        var j :| 0 <= j < |prices[i + 1..]| && prices[i + 1..][j] == rest[0].price;
        assert Before(isBid, prices[i], prices[i + 1 + j]);
      }
      forall j | 0 <= j < |queues[p]|
        ensures Snaps(queues[p])[j].price == p
      {
        assert queues[p][j] in queues[p];
      }
      LevelsOfBlock(p, Snaps(queues[p]), Snaps(rest));
    }
  }
}
