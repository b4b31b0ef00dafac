/**
  The dashboard summary: the sum of `totalAmount` over all purchases, the same
  sum over all sales, and the number of stock items. Each collection is read
  in full on every call; if any of the three reads fails the whole summary
  fails with one message and no partial totals.
 */
module Dashboard {
  import opened Core
  import opened Schemas
  import opened Records
  import opened Paths
  import Ledger

  /** Exactly the three figures the summary reports. */
  datatype Summary = Summary(totalPurchaseAmount: real, totalSalesAmount: real, totalStockCount: nat)

  /** A read of a whole collection that failed (store unavailable, permission denied). */
  datatype FetchError = FetchError

  const FailureMessage := "Could not fetch dashboard summary data."

  /** `reduce((sum, x) => sum + amount(x), 0)`: a left fold from 0. */
  function SumOf<T>(xs: seq<T>, amount: T -> real): real {
    if |xs| == 0 then 0.0 else SumOf(xs[..|xs| - 1], amount) + amount(xs[|xs| - 1])
  }

  function PurchaseAmount(p: Purchase): real {
    p.totalAmount
  }

  function SaleAmount(x: Sale): real {
    x.totalAmount
  }

  function GetDashboardSummary(
    purchases: Result<seq<Purchase>, FetchError>,
    sales: Result<seq<Sale>, FetchError>,
    stocks: Result<map<Id, Stock>, FetchError>): (r: Result<Summary, string>)
    ensures r.Success? <==> purchases.Success? && sales.Success? && stocks.Success?
    ensures r.Failure? ==> r.error == FailureMessage
    ensures r.Success? ==>
      && r.value.totalStockCount == |stocks.value|
      && r.value.totalPurchaseAmount == SumOf(purchases.value, PurchaseAmount)
      && r.value.totalSalesAmount == SumOf(sales.value, SaleAmount)
      && (|purchases.value| == 0 ==> r.value.totalPurchaseAmount == 0.0)
      && (|sales.value| == 0 ==> r.value.totalSalesAmount == 0.0)
  {
    if purchases.Failure? || sales.Failure? || stocks.Failure? then Failure(FailureMessage)
    else
      Success(Summary(SumOf(purchases.value, PurchaseAmount),
                      SumOf(sales.value, SaleAmount),
                      |stocks.value|))
  }

  /** The summary of a store whose three reads all succeed. */
  function StoreSummary(s: Store): (r: Summary)
    ensures r.totalStockCount == |s.stocks|
    ensures GetDashboardSummary(Success(s.purchases), Success(s.sales), Success(s.stocks)) == Success(r)
  {
    Summary(SumOf(s.purchases, PurchaseAmount), SumOf(s.sales, SaleAmount), |s.stocks|)
  }

  // ---------------------------------------------------------------- sums

  lemma SumAppend<T>(xs: seq<T>, x: T, amount: T -> real)
    ensures SumOf(xs + [x], amount) == SumOf(xs, amount) + amount(x)
  {
    assert (xs + [x])[..|xs|] == xs;
  }

  lemma {:induction false} SumConcat<T>(a: seq<T>, b: seq<T>, amount: T -> real)
    ensures SumOf(a + b, amount) == SumOf(a, amount) + SumOf(b, amount)
    decreases |b|
  {
    if |b| == 0 {
      assert a + b == a;
    } else {
      var b' := b[..|b| - 1];
      SumConcat(a, b', amount);
      assert a + b == (a + b') + [b[|b| - 1]];
      SumAppend(a + b', b[|b| - 1], amount);
    }
  }

  /** The totals do not depend on the order in which the store returns the records. */
  lemma {:induction false} SumPermutation<T>(a: seq<T>, b: seq<T>, amount: T -> real)
    requires multiset(a) == multiset(b)
    ensures SumOf(a, amount) == SumOf(b, amount)
    decreases |a|
  {
    if |a| == 0 {
      assert |multiset(b)| == 0;
    } else {
      var x := a[|a| - 1];
      var a' := a[..|a| - 1];
      assert a == a' + [x];
      assert x in multiset(b);
      var k :| 0 <= k < |b| && b[k] == x;
      RemoveOne(a', b, k);
      SumPermutation(a', b[..k] + b[k + 1..], amount);
      SumWithout(b, k, amount);
      SumAppend(a', x, amount);
    }
  }

  /** Taking the same element from two permutations of each other leaves permutations. */
  lemma RemoveOne<T>(a: seq<T>, b: seq<T>, k: int)
    requires 0 <= k < |b| && multiset(a + [b[k]]) == multiset(b)
    ensures multiset(a) == multiset(b[..k] + b[k + 1..])
  {
    var left, right := b[..k], b[k + 1..];
    assert b == left + [b[k]] + right;
    assert multiset(b) == multiset(left) + multiset{b[k]} + multiset(right);
    assert multiset(a + [b[k]]) == multiset(a) + multiset{b[k]};
    assert multiset(left + right) == multiset(left) + multiset(right);
    assert multiset(a) == multiset(a + [b[k]]) - multiset{b[k]};
    assert multiset(left) + multiset(right) == multiset(b) - multiset{b[k]};
  }

  /** The sum over `b` is the sum without its `k`-th record plus that record's amount. */
  lemma SumWithout<T>(b: seq<T>, k: int, amount: T -> real)
    requires 0 <= k < |b|
    ensures SumOf(b, amount) == SumOf(b[..k] + b[k + 1..], amount) + amount(b[k])
  {
    var left, x, right := b[..k], b[k], b[k + 1..];
    SplitAround(b, k);
    SumConcat(left + [x], right, amount);
    SumAppend(left, x, amount);
    SumConcat(left, right, amount);
  }

  /** A sequence is its part before `k`, its `k`-th element and its part after. */
  lemma SplitAround<T>(b: seq<T>, k: int)
    requires 0 <= k < |b|
    ensures b == (b[..k] + [b[k]]) + b[k + 1..]
  {
  }

  /** A sum of amounts none of which is negative is not negative. */
  lemma {:induction false} SumNonNegative<T>(xs: seq<T>, amount: T -> real)
    requires forall i | 0 <= i < |xs| :: amount(xs[i]) >= 0.0
    ensures SumOf(xs, amount) >= 0.0
  {
    if |xs| > 0 {
      var init := xs[..|xs| - 1];
      assert forall i | 0 <= i < |init| :: init[i] == xs[i];
      SumNonNegative(init, amount);
    }
  }

  /** On a well-formed store both totals are non-negative: every stored amount is positive. */
  lemma TotalsNonNegative(s: Store)
    requires Wf(s)
    ensures StoreSummary(s).totalPurchaseAmount >= 0.0
    ensures StoreSummary(s).totalSalesAmount >= 0.0
  {
    forall i | 0 <= i < |s.purchases|
      ensures PurchaseAmount(s.purchases[i]) >= 0.0
    {
      var p := s.purchases[i];
      assert p in s.purchases;
      assert p.kg * p.rate >= 0.0;
    }
    SumNonNegative(s.purchases, PurchaseAmount);
    forall i | 0 <= i < |s.sales|
      ensures SaleAmount(s.sales[i]) >= 0.0
    {
      var x := s.sales[i];
      assert x in s.sales;
      assert x.kg * x.saleRate >= 0.0;
    }
    SumNonNegative(s.sales, SaleAmount);
  }

  // ---------------------------------------------------------------- writes

  /** A purchase write raises the purchase total by exactly kg × rate and leaves the rest alone. */
  lemma AddPurchaseRaisesPurchaseTotal(s: Store, input: PurchaseInput, newId: Id, now: int)
    requires Ledger.AddPurchase(s, input, newId, now).Success?
    ensures var t := Ledger.AddPurchase(s, input, newId, now).value;
      && StoreSummary(t).totalPurchaseAmount == StoreSummary(s).totalPurchaseAmount + input.kg * input.rate
      && StoreSummary(t).totalSalesAmount == StoreSummary(s).totalSalesAmount
      && StoreSummary(t).totalStockCount == StoreSummary(s).totalStockCount
  {
    var t := Ledger.AddPurchase(s, input, newId, now).value;
    var p := t.purchases[|s.purchases|];
    assert t.purchases == s.purchases + [p];
    SumAppend(s.purchases, p, PurchaseAmount);
  }

  /** A sale write raises the sales total by exactly kg × saleRate and leaves the rest alone. */
  lemma AddSaleRaisesSalesTotal(s: Store, input: SaleInput, newId: Id, now: int)
    requires Ledger.AddSale(s, input, newId, now).Success?
    ensures var t := Ledger.AddSale(s, input, newId, now).value;
      && StoreSummary(t).totalSalesAmount == StoreSummary(s).totalSalesAmount + input.kg * input.saleRate
      && StoreSummary(t).totalPurchaseAmount == StoreSummary(s).totalPurchaseAmount
      && StoreSummary(t).totalStockCount == StoreSummary(s).totalStockCount
  {
    var t := Ledger.AddSale(s, input, newId, now).value;
    AddSaleAppendsOne(s, input, newId, now);
    SaleAppendTotals(s, t, t.sales[|s.sales|]);
  }

  lemma AddSaleAppendsOne(s: Store, input: SaleInput, newId: Id, now: int)
    requires Ledger.AddSale(s, input, newId, now).Success?
    ensures var t := Ledger.AddSale(s, input, newId, now).value;
      && t.sales == s.sales + [t.sales[|s.sales|]]
      && t.sales[|s.sales|].totalAmount == input.kg * input.saleRate
      && t.stocks == s.stocks && t.purchases == s.purchases
  {
  }

  lemma SaleAppendTotals(s: Store, t: Store, x: Sale)
    requires t.sales == s.sales + [x] && t.stocks == s.stocks && t.purchases == s.purchases
    ensures StoreSummary(t) == StoreSummary(s).(totalSalesAmount := StoreSummary(s).totalSalesAmount + x.totalAmount)
  {
    SumAppend(s.sales, x, SaleAmount);
  }

  /** Adding a stock item counts one more; deleting one counts one fewer exactly when it existed. */
  lemma StockWritesCount(s: Store, input: StockInput, newId: Id, now: int, id: Id)
    requires Ledger.FreshKey(s.stocks, newId) && !DocRefOf(id).Refused?
    ensures ValidStock(input) ==>
      StoreSummary(Ledger.AddStock(s, input, newId, now).value).totalStockCount == StoreSummary(s).totalStockCount + 1
    ensures StoreSummary(Ledger.DeleteStock(s, id).value).totalStockCount
         == StoreSummary(s).totalStockCount - (if Ledger.Resolves(s.stocks, id) then 1 else 0)
  {
    if ValidStock(input) {
      AddStockCount(s, input, newId, now);
    }
    DeleteStockCount(s, id);
  }

  lemma AddStockCount(s: Store, input: StockInput, newId: Id, now: int)
    requires Ledger.FreshKey(s.stocks, newId) && ValidStock(input)
    ensures |Ledger.AddStock(s, input, newId, now).value.stocks| == |s.stocks| + 1
  {
    var t := Ledger.AddStock(s, input, newId, now).value;
    assert t.stocks.Keys == s.stocks.Keys + {newId};
    assert |t.stocks.Keys| == |s.stocks.Keys| + 1;
  }

  lemma DeleteStockCount(s: Store, id: Id)
    requires !DocRefOf(id).Refused?
    ensures |Ledger.DeleteStock(s, id).value.stocks| == |s.stocks| - (if Ledger.Resolves(s.stocks, id) then 1 else 0)
  {
    var u := Ledger.DeleteStock(s, id).value;
    if Ledger.Resolves(s.stocks, id) {
      var k := DocRefOf(id).key;
      assert u.stocks.Keys == s.stocks.Keys - {k};
      assert |u.stocks.Keys| == |s.stocks.Keys - {k}| == |s.stocks.Keys| - 1;
    } else {
      assert u.stocks.Keys == s.stocks.Keys;
    }
  }

  /** Reading the same collections in another order yields the same summary. */
  lemma SummaryIgnoresOrder(s: Store, ps: seq<Purchase>, xs: seq<Sale>)
    requires multiset(ps) == multiset(s.purchases) && multiset(xs) == multiset(s.sales)
    ensures StoreSummary(s.(purchases := ps, sales := xs)) == StoreSummary(s)
  {
    SumPermutation(ps, s.purchases, PurchaseAmount);
    SumPermutation(xs, s.sales, SaleAmount);
  }
}
