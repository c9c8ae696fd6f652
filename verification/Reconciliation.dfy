// The reconciliation job: adds up every wallet and watches the totals.

module Reconciliation {
  import opened Sums
  import opened Claims
  import opened Ledger
  import opened Stores

  function Totals(a: Asset): Wallet -> int { (w: Wallet) => Total(a, w) }

  // Adding up a listing of the wallets is adding up the wallets, in any order.
  lemma {:induction false} ListingTotal(a: Asset, list: seq<Wallet>, ws: Wallets)
    requires Lists(list, ws)
    ensures Sum(list, Totals(a)) == Supply(a, ws)
    decreases |list|
  {
    if list == [] {
      assert forall u :: u !in ws;
    } else {
      var w := list[0];
      var u := w.userId;
      assert u in ws && ws[u] == w;
      ListsTail(list, ws);
      ListingTotal(a, list[1..], ws - {u});
      SupplyWithout(a, ws, u);
    }
  }

  lemma ListsTail(list: seq<Wallet>, ws: Wallets)
    requires Lists(list, ws) && list != []
    ensures Lists(list[1..], ws - {list[0].userId})
  {
    forall u | u in ws && u != list[0].userId
      ensures ws[u] in list[1..]
    {
      var i :| 0 <= i < |list| && list[i] == ws[u];
      assert i > 0 ==> list[1..][i - 1] == ws[u];
      assert ws[list[i].userId] == list[i];
    }
  }

  class Service {
    const wallets: WalletStore
    var baselineCOP: int
    var baselineVib: int
    var haveBase: bool

    constructor (wallets: WalletStore)
      ensures this.wallets == wallets && !haveBase
    {
      this.wallets, baselineCOP, baselineVib, haveBase := wallets, 0, 0, false;
    }

    // One observation of the money supply. changed is the warning that is logged.
    method Sample() returns (cop: int, vib: int, changed: bool)
      requires wallets.Valid()
      modifies this
      ensures cop == Supply(COP, old(wallets.Contents())) && vib == Supply(VIB, old(wallets.Contents()))
      ensures changed <==> old(haveBase) && (cop != old(baselineCOP) || vib != old(baselineVib))
      ensures haveBase && baselineCOP == cop && baselineVib == vib
    {
      cop, vib := ReadAll(wallets.Contents());
      changed := Compare(cop, vib);
    }

    // The first observation becomes the baseline; a later one that differs moves it.
    method Compare(cop: int, vib: int) returns (changed: bool)
      modifies this
      ensures changed <==> old(haveBase) && (cop != old(baselineCOP) || vib != old(baselineVib))
      ensures haveBase && baselineCOP == cop && baselineVib == vib
    {
      changed := false;
      if !haveBase {
        baselineCOP, baselineVib, haveBase := cop, vib, true;
        return;
      }
      if cop != baselineCOP || vib != baselineVib {
        changed := true;
        baselineCOP, baselineVib := cop, vib;
      }
    }

    method ReadAll(ghost ws: Wallets) returns (cop: int, vib: int)
      requires wallets.Valid() && ws == wallets.Contents()
      ensures cop == Supply(COP, ws) && vib == Supply(VIB, ws)
    {
      var list := wallets.List();
      ListingTotal(COP, list, ws);
      ListingTotal(VIB, list, ws);
      cop, vib := AddUp(list);
    }

    static method AddUp(list: seq<Wallet>) returns (cop: int, vib: int)
      ensures cop == Sum(list, Totals(COP)) && vib == Sum(list, Totals(VIB))
    {
      cop, vib := 0, 0;
      var i := 0;
      assert list[0..] == list;
      while i < |list|
        invariant 0 <= i <= |list|
        invariant cop + Sum(list[i..], Totals(COP)) == Sum(list, Totals(COP))
        invariant vib + Sum(list[i..], Totals(VIB)) == Sum(list, Totals(VIB))
      {
        cop := cop + list[i].TotalCOP();
        vib := vib + list[i].TotalVibranium();
        assert list[i..][1..] == list[i + 1..];
        i := i + 1;
      }
    }
  }
}
