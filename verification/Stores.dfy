// The in-memory stores: wallets updated in place under one lock, the seen-set
// journal, the order projection, the trade history, and the log between engine
// and settlement. Each method does to its store what the ledger functions do to
// values.

module Stores {
  import opened Domain
  import opened Ledger

  // ----- Wallets -----

  class WalletCell {
    const userId: string
    var copAvailable: int
    var copLocked: int
    var vibraniumAvailable: int
    var vibraniumLocked: int

    constructor (w: Wallet)
      ensures Value() == w
    {
      userId, copAvailable, copLocked := w.userId, w.copAvailable, w.copLocked;
      vibraniumAvailable, vibraniumLocked := w.vibraniumAvailable, w.vibraniumLocked;
    }

    function Value(): Wallet
      reads this
    {
      Wallet(userId, copAvailable, copLocked, vibraniumAvailable, vibraniumLocked)
    }

    // A mutation either reports why it cannot apply, and changes nothing, or
    // moves the amounts.
    predicate Did(before: Wallet, op: WalletOp, err: Option<Error>)
      reads this
    {
      err == Check(before, op) && Value() == if err.None? then Moved(before, op) else before
    }

    method ReserveCOP(amount: int) returns (err: Option<Error>)
      modifies this
      ensures Did(old(Value()), WalletOp.ReserveCOP(amount), err)
      ensures err == Some(ErrNegativeAmount) <==> amount < 0
      ensures err == Some(ErrInsufficientCOP) <==> 0 <= amount && old(copAvailable) < amount
      ensures err.None? <==> 0 <= amount <= old(copAvailable)
      ensures err.None? ==> copAvailable == old(copAvailable) - amount && copLocked == old(copLocked) + amount
    {
      if amount < 0 { return Some(ErrNegativeAmount); }
      if copAvailable < amount { return Some(ErrInsufficientCOP); }
      copAvailable := copAvailable - amount;
      copLocked := copLocked + amount;
      return None;
    }

    method ReserveVibranium(amount: int) returns (err: Option<Error>)
      modifies this
      ensures Did(old(Value()), WalletOp.ReserveVibranium(amount), err)
      ensures err == Some(ErrNegativeAmount) <==> amount < 0
      ensures err == Some(ErrInsufficientVibranium) <==> 0 <= amount && old(vibraniumAvailable) < amount
      ensures err.None? <==> 0 <= amount <= old(vibraniumAvailable)
      ensures err.None? ==> vibraniumAvailable == old(vibraniumAvailable) - amount
                            && vibraniumLocked == old(vibraniumLocked) + amount
    {
      if amount < 0 { return Some(ErrNegativeAmount); }
      if vibraniumAvailable < amount { return Some(ErrInsufficientVibranium); }
      vibraniumAvailable := vibraniumAvailable - amount;
      vibraniumLocked := vibraniumLocked + amount;
      return None;
    }

    method ReleaseCOP(amount: int) returns (err: Option<Error>)
      modifies this
      ensures Did(old(Value()), WalletOp.ReleaseCOP(amount), err)
      ensures err == Some(ErrNegativeAmount) <==> amount < 0
      ensures err == Some(ErrInsufficientLocked) <==> 0 <= amount && old(copLocked) < amount
      ensures err.None? <==> 0 <= amount <= old(copLocked)
      ensures err.None? ==> copLocked == old(copLocked) - amount && copAvailable == old(copAvailable) + amount
    {
      if amount < 0 { return Some(ErrNegativeAmount); }
      if copLocked < amount { return Some(ErrInsufficientLocked); }
      copLocked := copLocked - amount;
      copAvailable := copAvailable + amount;
      return None;
    }

    method ReleaseVibranium(amount: int) returns (err: Option<Error>)
      modifies this
      ensures Did(old(Value()), WalletOp.ReleaseVibranium(amount), err)
      ensures err == Some(ErrNegativeAmount) <==> amount < 0
      ensures err == Some(ErrInsufficientLocked) <==> 0 <= amount && old(vibraniumLocked) < amount
      ensures err.None? <==> 0 <= amount <= old(vibraniumLocked)
      ensures err.None? ==> vibraniumLocked == old(vibraniumLocked) - amount
                            && vibraniumAvailable == old(vibraniumAvailable) + amount
    {
      if amount < 0 { return Some(ErrNegativeAmount); }
      if vibraniumLocked < amount { return Some(ErrInsufficientLocked); }
      vibraniumLocked := vibraniumLocked - amount;
      vibraniumAvailable := vibraniumAvailable + amount;
      return None;
    }

    method SettleBuy(spent: int, vibranium: int) returns (err: Option<Error>)
      modifies this
      ensures Did(old(Value()), WalletOp.SettleBuy(spent, vibranium), err)
      ensures err == Some(ErrNegativeAmount) <==> spent < 0 || vibranium < 0
      ensures err == Some(ErrInsufficientLocked) <==> 0 <= spent && 0 <= vibranium && old(copLocked) < spent
      ensures err.None? <==> 0 <= spent <= old(copLocked) && 0 <= vibranium
      ensures err.None? ==> copLocked == old(copLocked) - spent
                            && vibraniumAvailable == old(vibraniumAvailable) + vibranium
    {
      if spent < 0 || vibranium < 0 { return Some(ErrNegativeAmount); }
      if copLocked < spent { return Some(ErrInsufficientLocked); }
      copLocked := copLocked - spent;
      vibraniumAvailable := vibraniumAvailable + vibranium;
      return None;
    }

    method SettleSell(vibranium: int, received: int) returns (err: Option<Error>)
      modifies this
      ensures Did(old(Value()), WalletOp.SettleSell(vibranium, received), err)
      ensures err == Some(ErrNegativeAmount) <==> vibranium < 0 || received < 0
      ensures err == Some(ErrInsufficientLocked) <==>
          0 <= vibranium && 0 <= received && old(vibraniumLocked) < vibranium
      ensures err.None? <==> 0 <= vibranium <= old(vibraniumLocked) && 0 <= received
      ensures err.None? ==> vibraniumLocked == old(vibraniumLocked) - vibranium
                            && copAvailable == old(copAvailable) + received
    {
      if vibranium < 0 || received < 0 { return Some(ErrNegativeAmount); }
      if vibraniumLocked < vibranium { return Some(ErrInsufficientLocked); }
      vibraniumLocked := vibraniumLocked - vibranium;
      copAvailable := copAvailable + received;
      return None;
    }

    // Runs the mutation a caller asked for.
    method Perform(op: WalletOp) returns (err: Option<Error>)
      modifies this
      ensures Did(old(Value()), op, err)
    {
      match op
      case ReserveCOP(n) => err := this.ReserveCOP(n);
      case ReserveVibranium(n) => err := this.ReserveVibranium(n);
      case ReleaseCOP(n) => err := this.ReleaseCOP(n);
      case ReleaseVibranium(n) => err := this.ReleaseVibranium(n);
      case SettleBuy(c, v) => err := this.SettleBuy(c, v);
      case SettleSell(v, c) => err := this.SettleSell(v, c);
    }

    method Restore(snapshot: Wallet)
      requires snapshot.userId == userId
      modifies this
      ensures Value() == snapshot
    {
      copAvailable, copLocked := snapshot.copAvailable, snapshot.copLocked;
      vibraniumAvailable, vibraniumLocked := snapshot.vibraniumAvailable, snapshot.vibraniumLocked;
    }
  }

  // What a mutation has made of a wallet by the time it returns, error or not.
  datatype Attempt = Attempt(wallet: Wallet, error: Option<Error>)

  // Byte-wise order on user IDs.
  predicate Less(a: string, b: string) {
    if b == "" then false
    else if a == "" then true
    else a[0] < b[0] || (a[0] == b[0] && Less(a[1..], b[1..]))
  }

  lemma {:induction false} LessTotal(a: string, b: string)
    ensures a != b <==> Less(a, b) || Less(b, a)
    ensures !(Less(a, b) && Less(b, a))
  {
    if a != "" && b != "" && a[0] == b[0] {
      LessTotal(a[1..], b[1..]);
      assert a == [a[0]] + a[1..] && b == [b[0]] + b[1..];
    }
  }

  lemma {:induction false} LessTransitive(a: string, b: string, c: string)
    requires Less(a, b) && Less(b, c)
    ensures Less(a, c)
  {
    if a != "" && a[0] == b[0] && b[0] == c[0] {
      LessTransitive(a[1..], b[1..], c[1..]);
    }
  }

  // a comes before b where they first differ, or is the beginning of it.
  ghost predicate Precedes(a: string, b: string, k: nat) {
    k <= |a| && k < |b| && a[..k] == b[..k] && (k == |a| || a[k] < b[k])
  }

  lemma {:induction false} LessIsLexicographic(a: string, b: string)
    ensures Less(a, b) <==> exists k: nat :: Precedes(a, b, k)
  {
    if b != "" && a != "" {
      LessIsLexicographic(a[1..], b[1..]);
      if Less(a, b) {
        if a[0] < b[0] {
          assert Precedes(a, b, 0);
        } else {
          var k: nat :| Precedes(a[1..], b[1..], k);
          assert a[..k + 1] == [a[0]] + a[1..][..k] && b[..k + 1] == [b[0]] + b[1..][..k];
          assert Precedes(a, b, k + 1);
        }
      }
      if k: nat :| Precedes(a, b, k) {
        if 0 < k {
          assert a[..k][0] == b[..k][0] && a[..k][1..] == b[..k][1..];
          assert a[1..][..k - 1] == a[..k][1..];
          assert b[1..][..k - 1] == b[..k][1..];
          assert Precedes(a[1..], b[1..], k - 1);
        }
      }
    } else if b != "" {
      assert Precedes(a, b, 0);
    }
  }

  ghost predicate ByUser(list: seq<Wallet>) {
    forall i, j :: 0 <= i < j < |list| ==> Less(list[i].userId, list[j].userId)
  }

  // Every wallet of the store exactly once.
  ghost predicate Lists(list: seq<Wallet>, ws: Wallets) {
    && (forall i :: 0 <= i < |list| ==> list[i].userId in ws && ws[list[i].userId] == list[i])
    && (forall i, j :: 0 <= i < j < |list| ==> list[i].userId != list[j].userId)
    && (forall u :: u in ws ==> ws[u].userId == u && ws[u] in list)
  }

  lemma InsertKeepsOrder(out: seq<Wallet>, k: nat, w: Wallet)
    requires ByUser(out) && k <= |out| && forall x :: x in out ==> x.userId != w.userId
    requires forall j :: 0 <= j < k ==> Less(out[j].userId, w.userId)
    requires k < |out| ==> !Less(out[k].userId, w.userId)
    ensures ByUser(out[..k] + [w] + out[k..])
    ensures forall x :: x in out[..k] + [w] + out[k..] <==> x in out || x == w
  {
    forall j | k <= j < |out|
      ensures Less(w.userId, out[j].userId)
    {
      assert out[k] in out;
      LessTotal(w.userId, out[k].userId);
      if j > k { LessTransitive(w.userId, out[k].userId, out[j].userId); }
    }
    assert out == out[..k] + out[k..];
  }

  lemma ListsAdded(list: seq<Wallet>, ws: Wallets, w: Wallet)
    requires Lists(list, ws) && w.userId !in ws
    ensures Lists(list + [w], ws[w.userId := w])
  {
    var l := list + [w];
    assert forall i :: 0 <= i < |list| ==> l[i] == list[i];
    forall u | u in ws
      ensures ws[u] in l
    {
      assert ws[u] in list;
    }
    assert l[|list|] == w;
  }

  // Sorting keeps a listing a listing.
  lemma SortedLists(list: seq<Wallet>, out: seq<Wallet>, ws: Wallets)
    requires Lists(list, ws) && ByUser(out) && forall w :: w in out <==> w in list
    ensures Lists(out, ws)
  {
    forall i | 0 <= i < |out|
      ensures out[i].userId in ws && ws[out[i].userId] == out[i]
    {
      assert out[i] in list;
    }
    forall i, j | 0 <= i < j < |out|
      ensures out[i].userId != out[j].userId
    {
      LessTotal(out[i].userId, out[j].userId);
    }
  }

  class WalletStore {
    var wallets: map<string, WalletCell>
    ghost var cells: set<WalletCell>  // every wallet cell this store ever made

    ghost predicate Valid()
      reads this, cells
    {
      forall u :: u in wallets ==> wallets[u] in cells && wallets[u].userId == u
    }

    ghost function Contents(): Wallets
      requires Valid()
      reads this, cells
    {
      map u | u in wallets :: wallets[u].Value()
    }

    constructor ()
      ensures Valid() && Contents() == map[] && cells == {}
    {
      wallets, cells := map[], {};
    }

    method Get(userId: string) returns (w: Option<Wallet>)
      requires Valid()
      ensures w == if userId in Contents() then Some(Contents()[userId]) else None
    {
      w := if userId in wallets then Some(wallets[userId].Value()) else None;
    }

    method Upsert(w: Wallet)
      requires Valid()
      modifies this
      ensures Valid() && fresh(cells - old(cells)) && old(cells) <= cells
      ensures Contents() == old(Contents())[w.userId := w]
    {
      var cp := new WalletCell(w);
      wallets := wallets[w.userId := cp];
      cells := cells + {cp};
    }

    // Mutates one wallet, or reports an error and leaves every wallet alone.
    method Update(userId: string, op: WalletOp) returns (err: Option<Error>)
      requires Valid()
      modifies this, cells
      ensures Valid() && cells == old(cells)
      ensures err == UpdateError(old(Contents()), userId, op)
      ensures Contents() == Updated(old(Contents()), userId, op)
      ensures err == Some(ErrWalletNotFound) <==> userId !in old(Contents())
      ensures Contents().Keys == old(Contents()).Keys
      ensures forall u :: u in Contents() && (u != userId || err.Some?) ==> Contents()[u] == old(Contents())[u]
    {
      if userId !in wallets { return Some(ErrWalletNotFound); }
      var w := wallets[userId];
      var snapshot := w.Value();
      err := w.Perform(op);
      if err.Some? {
        w.Restore(snapshot);
      }
    }

    // The same for any mutation at all: whatever it has done to the wallet before it
    // fails is undone.
    method UpdateAny(userId: string, mutation: Wallet -> Attempt) returns (err: Option<Error>)
      requires Valid() && forall w :: mutation(w).wallet.userId == w.userId
      modifies this, cells
      ensures Valid() && cells == old(cells)
      ensures userId !in old(Contents()) ==> err == Some(ErrWalletNotFound) && Contents() == old(Contents())
      ensures userId in old(Contents()) ==>
          var attempt := mutation(old(Contents())[userId]);
          && err == attempt.error
          && Contents() == if err.Some? then old(Contents()) else old(Contents())[userId := attempt.wallet]
    {
      if userId !in wallets { return Some(ErrWalletNotFound); }
      var w := wallets[userId];
      var snapshot := w.Value();
      var attempt := mutation(snapshot);
      w.Restore(attempt.wallet);
      err := attempt.error;
      if err.Some? {
        w.Restore(snapshot);
      }
    }

    // Copies of all wallets, sorted by user.
    method List() returns (out: seq<Wallet>)
      requires Valid()
      ensures Lists(out, Contents()) && ByUser(out)
    {
      out := [];
      var rest := wallets.Keys;
      ghost var done: Wallets := map[];
      while rest != {}
        invariant rest <= wallets.Keys
        invariant Lists(out, done) && done.Keys == wallets.Keys - rest
        invariant forall u :: u in done ==> done[u] == wallets[u].Value()
      {
        var u :| u in rest;
        ListsAdded(out, done, wallets[u].Value());
        out, done := out + [wallets[u].Value()], done[u := wallets[u].Value()];
        rest := rest - {u};
      }
      assert done == Contents();
      out := Sort(out, Contents());
    }

    // Sorts by user ID.
    static method Sort(list: seq<Wallet>, ghost ws: Wallets) returns (out: seq<Wallet>)
      requires Lists(list, ws)
      ensures Lists(out, ws) && ByUser(out)
    {
      out := [];
      var i := 0;
      while i < |list|
        invariant 0 <= i <= |list| && ByUser(out)
        invariant forall w :: w in out <==> w in list[..i]
      {
        var k := 0;
        while k < |out| && Less(out[k].userId, list[i].userId)
          invariant 0 <= k <= |out|
          invariant forall j :: 0 <= j < k ==> Less(out[j].userId, list[i].userId)
        {
          k := k + 1;
        }
        assert forall w :: w in list[..i] ==> w.userId != list[i].userId;
        InsertKeepsOrder(out, k, list[i]);
        assert list[..i + 1] == list[..i] + [list[i]];
        out := out[..k] + [list[i]] + out[k..];
        i := i + 1;
      }
      assert list[..i] == list;
      SortedLists(list, out, ws);
    }
  }

  // ----- Journal, order projection, trade history -----

  class Journal {
    var seen: set<string>

    constructor ()
      ensures seen == {}
    {
      seen := {};
    }

    // Records an event, reporting whether it is new.
    method MarkProcessed(eventId: string) returns (isNew: bool)
      modifies this
      ensures isNew <==> eventId !in old(seen)
      ensures seen == old(seen) + {eventId}
    {
      if eventId in seen { return false; }
      seen := seen + {eventId};
      return true;
    }
  }

  class OrderStore {
    var orders: map<string, Order>

    constructor ()
      ensures orders == map[]
    {
      orders := map[];
    }

    // The latest write wins.
    method Upsert(o: Order)
      modifies this
      ensures orders == old(orders)[o.id := o]
    {
      orders := orders[o.id := o];
    }

    method Get(orderId: string) returns (o: Option<Order>)
      ensures o.None? <==> orderId !in orders
      ensures o.Some? ==> orderId in orders && orders[orderId] == o.value
    {
      o := if orderId in orders then Some(orders[orderId]) else None;
    }
  }

  class TradeStore {
    var trades: seq<Trade>

    constructor ()
      ensures trades == []
    {
      trades := [];
    }

    method Append(t: Trade)
      modifies this
      ensures trades == old(trades) + [t]
    {
      trades := trades + [t];
    }

    // The newest trades first, up to limit; a non-positive limit means all.
    method Recent(limit: int) returns (out: seq<Trade>)
      ensures |out| == if limit <= 0 || limit > |trades| then |trades| else limit
      ensures forall i :: 0 <= i < |out| ==> out[i] == trades[|trades| - 1 - i]
    {
      var n := |trades|;
      var m := if limit <= 0 || limit > n then n else limit;
      out := [];
      var i := n - 1;
      while i >= n - m
        invariant n - m - 1 <= i < n && |out| == n - 1 - i
        invariant forall j :: 0 <= j < |out| ==> out[j] == trades[n - 1 - j]
      {
        out := out + [trades[i]];
        i := i - 1;
      }
    }
  }

  // ----- The log -----

  // A FIFO between the engine and its consumer. The published history is kept
  // beside the events still waiting.
  class EventLog {
    var waiting: seq<Event>
    var published: seq<Event>

    ghost predicate Valid()
      reads this
    {
      |waiting| <= |published| && waiting == published[|published| - |waiting|..]
    }

    constructor ()
      ensures Valid() && waiting == [] && published == []
    {
      waiting, published := [], [];
    }

    method Publish(e: Event)
      requires Valid()
      modifies this
      ensures Valid() && published == old(published) + [e] && waiting == old(waiting) + [e]
    {
      waiting, published := waiting + [e], published + [e];
    }

    // The consumer takes events in the order they were published.
    method Receive() returns (e: Event)
      requires Valid() && waiting != []
      modifies this
      ensures Valid() && published == old(published) && waiting == old(waiting)[1..]
      ensures e == published[|published| - |old(waiting)|]
    {
      e := waiting[0];
      waiting := waiting[1..];
    }
  }
}
