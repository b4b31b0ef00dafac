/**
  The latest-purchase-rate resolver. It appears in three places, and all of
  them are modelled here:
  - the sale write, which queries purchases `where stockId == k`,
    `orderBy date desc`, `limit 1`, and snapshots that purchase's rate or 0;
  - the server action `getLatestPurchaseRate`, which does the same and first
    answers 0 for an empty stock id;
  - the browser client, which filters the purchase listing, sorts it by date
    descending and takes the first rate, falling back to 0 on a falsy rate.

  `LatestIndex` is the reference definition: the first purchase of the stock,
  in store order, whose date no other purchase of that stock exceeds. Taking
  the first in store order (the earliest written) among purchases of the same
  date is a modelling choice; the record store breaks such ties by document
  id, descending, and document ids are not modelled as ordered.
 */
module Resolver {
  import opened Core
  import opened Records
  import opened Ordering

  function DateKey(p: Purchase): int {
    p.date
  }

  function StockIs(k: Id): Purchase -> bool {
    (p: Purchase) => p.stockId == k
  }

  predicate NoPurchaseOf(ps: seq<Purchase>, k: Id) {
    forall i :: 0 <= i < |ps| ==> ps[i].stockId != k
  }

  /** `ps[i]` is a latest purchase of stock `k`, and the first such in `ps`. */
  predicate IsLatest(ps: seq<Purchase>, k: Id, i: int) {
    && 0 <= i < |ps| && ps[i].stockId == k
    && (forall j :: 0 <= j < |ps| && ps[j].stockId == k ==> ps[j].date <= ps[i].date)
    && (forall j :: 0 <= j < i && ps[j].stockId == k ==> ps[j].date < ps[i].date)
  }

  function LatestIndex(ps: seq<Purchase>, k: Id): (r: Option<nat>)
    ensures r.None? <==> NoPurchaseOf(ps, k)
    ensures r.Some? ==> IsLatest(ps, k, r.value)
    decreases |ps|
  {
    if |ps| == 0 then None
    else
      var rest := LatestIndex(ps[1..], k);
      if rest.None? then
        (if ps[0].stockId == k then Some(0) else None)
      else if ps[0].stockId == k && ps[rest.value + 1].date <= ps[0].date then Some(0)
      else Some(rest.value + 1)
  }

  /**
    The store query `where stockId == k, orderBy date desc, limit 1`, with
    ties between purchases of the same date broken by write order (see the
    module comment). It finds the purchase `LatestIndex` designates.
   */
  function QueryLatest(ps: seq<Purchase>, k: Id): (r: Option<Purchase>)
    ensures LatestIndex(ps, k).None? ==> r.None?
    ensures LatestIndex(ps, k).Some? ==> r == Some(ps[LatestIndex(ps, k).value])
  {
    var m := SortDesc(Filter(ps, StockIs(k)), DateKey);
    QueryFindsLatest(ps, k);
    if |m| == 0 then None else Some(m[0])
  }

  lemma {:induction false} QueryFindsLatest(ps: seq<Purchase>, k: Id)
    ensures var m := SortDesc(Filter(ps, StockIs(k)), DateKey);
      && (NoPurchaseOf(ps, k) <==> |m| == 0)
      && (forall i :: IsLatest(ps, k, i) ==> |m| > 0 && m[0] == ps[i])
  {
    if |ps| > 0 {
      var p0, ps1 := ps[0], ps[1..];
      assert ps == [p0] + ps1;
      QueryFindsLatest(ps1, k);
      FilterCons(p0, ps1, StockIs(k));
      if p0.stockId == k {
        LatestWhenFirstMatches(ps, k);
      } else {
        LatestWhenFirstOther(ps, k);
        assert Filter(ps, StockIs(k)) == Filter(ps1, StockIs(k));
      }
    }
  }

  /** Past the first purchase, a latest purchase is still the latest of the rest. */
  lemma LatestTail(ps: seq<Purchase>, k: Id, i: int)
    requires IsLatest(ps, k, i) && i > 0
    ensures IsLatest(ps[1..], k, i - 1)
  {
    var ps1 := ps[1..];
    forall j | 0 <= j < |ps1| && ps1[j].stockId == k ensures ps1[j].date <= ps1[i - 1].date {
      assert ps1[j] == ps[j + 1];
    }
    forall j | 0 <= j < i - 1 && ps1[j].stockId == k ensures ps1[j].date < ps1[i - 1].date {
      assert ps1[j] == ps[j + 1];
    }
  }

  /** The query step when the first purchase is of another stock: it is skipped. */
  lemma LatestWhenFirstOther(ps: seq<Purchase>, k: Id)
    requires |ps| > 0 && ps[0].stockId != k
    ensures NoPurchaseOf(ps, k) <==> NoPurchaseOf(ps[1..], k)
    ensures forall i :: IsLatest(ps, k, i) ==> IsLatest(ps[1..], k, i - 1)
  {
    forall i | IsLatest(ps, k, i) ensures IsLatest(ps[1..], k, i - 1) {
      LatestTail(ps, k, i);
    }
    if NoPurchaseOf(ps[1..], k) {
      forall i | 0 < i < |ps| ensures ps[i].stockId != k {
        assert ps[i] == ps[1..][i - 1];
      }
    }
  }

  /** The head of the sorted matches of `ps` is a purchase of `ps` for stock `k`. */
  lemma SortedHeadMatches(ps: seq<Purchase>, k: Id)
    requires |SortDesc(Filter(ps, StockIs(k)), DateKey)| > 0
    ensures var h := SortDesc(Filter(ps, StockIs(k)), DateKey)[0];
      exists j :: 0 <= j < |ps| && ps[j] == h && ps[j].stockId == k
  {
    var f := Filter(ps, StockIs(k));
    var h := SortDesc(f, DateKey)[0];
    assert h in multiset(SortDesc(f, DateKey));
    assert h in f;
    FilterMembers(ps, StockIs(k));
    var n :| 0 <= n < |f| && f[n] == h;
    assert h in ps && h.stockId == k;
  }

  /** The query step when the first purchase is of stock `k`: it is inserted into the sorted rest. */
  lemma LatestWhenFirstMatches(ps: seq<Purchase>, k: Id)
    requires |ps| > 0 && ps[0].stockId == k
    requires var m1 := SortDesc(Filter(ps[1..], StockIs(k)), DateKey);
      forall i :: IsLatest(ps[1..], k, i) ==> |m1| > 0 && m1[0] == ps[1..][i]
    requires Filter(ps, StockIs(k)) == [ps[0]] + Filter(ps[1..], StockIs(k))
    ensures var m := SortDesc(Filter(ps, StockIs(k)), DateKey);
      && |m| > 0 && !NoPurchaseOf(ps, k)
      && (forall i :: IsLatest(ps, k, i) ==> m[0] == ps[i])
  {
    var p0, ps1 := ps[0], ps[1..];
    var f1 := Filter(ps1, StockIs(k));
    var m1 := SortDesc(f1, DateKey);
    var f := [p0] + f1;
    assert f[0] == p0 && f[1..] == f1;
    assert SortDesc(f, DateKey) == Insert(p0, m1, DateKey);
    forall i | IsLatest(ps, k, i) ensures Insert(p0, m1, DateKey)[0] == ps[i] {
      if i == 0 {
        FirstIsLatest(ps, k);
      } else {
        LatestTail(ps, k, i);
        LaterIsLatest(ps, k, i);
      }
    }
  }

  /** When the first purchase is the latest, no sorted match of the rest outranks it. */
  lemma FirstIsLatest(ps: seq<Purchase>, k: Id)
    requires IsLatest(ps, k, 0)
    ensures Insert(ps[0], SortDesc(Filter(ps[1..], StockIs(k)), DateKey), DateKey)[0] == ps[0]
  {
    var ps1 := ps[1..];
    var m1 := SortDesc(Filter(ps1, StockIs(k)), DateKey);
    if |m1| > 0 {
      SortedHeadMatches(ps1, k);
      var j :| 0 <= j < |ps1| && ps1[j] == m1[0] && ps1[j].stockId == k;
      assert ps[j + 1] == m1[0];
      assert DateKey(m1[0]) <= DateKey(ps[0]);
    }
    InsertFront(ps[0], m1, DateKey);
  }

  /** When a later purchase is the latest, it heads the sorted rest and outranks the first one. */
  lemma LaterIsLatest(ps: seq<Purchase>, k: Id, i: int)
    requires IsLatest(ps, k, i) && i > 0 && ps[0].stockId == k
    requires var m1 := SortDesc(Filter(ps[1..], StockIs(k)), DateKey);
      |m1| > 0 && m1[0] == ps[1..][i - 1]
    ensures Insert(ps[0], SortDesc(Filter(ps[1..], StockIs(k)), DateKey), DateKey)[0] == ps[i]
  {
    var m1 := SortDesc(Filter(ps[1..], StockIs(k)), DateKey);
    assert m1[0] == ps[i];
    assert DateKey(ps[0]) < DateKey(m1[0]);
  }

  /**
    The reference rate: the rate of the purchase `LatestIndex` designates,
    or 0 when no purchase of stock `k` exists.
   */
  function ReferenceRate(ps: seq<Purchase>, k: Id): real {
    match LatestIndex(ps, k)
    case None => 0.0
    case Some(i) => ps[i].rate
  }

  /** The purchase-rate snapshot a sale write takes: the latest purchase's rate, or 0 when there is none. */
  function SnapshotRate(ps: seq<Purchase>, k: Id): (r: real)
    ensures r == ReferenceRate(ps, k)
  {
    match QueryLatest(ps, k)
    case None => 0.0
    case Some(p) => p.rate
  }

  /** The server action `getLatestPurchaseRate`: 0 for an empty id, without consulting purchases. */
  function LatestPurchaseRate(ps: seq<Purchase>, k: Id): (r: real)
    ensures k == "" ==> r == 0.0
    ensures k != "" ==> r == ReferenceRate(ps, k)
  {
    if k == "" then 0.0 else SnapshotRate(ps, k)
  }

  /**
    `x || 0` on a number. JavaScript numbers that are falsy are 0, -0 and NaN;
    with rates modelled as reals only 0 is falsy, so this is the identity.
   */
  function OrZero(x: real): (r: real)
    ensures r == x
  {
    if x == 0.0 then 0.0 else x
  }

  /** The listing the client receives: all purchases, ordered by date, descending. */
  function PurchaseListing(ps: seq<Purchase>): (r: seq<Purchase>)
    ensures multiset(r) == multiset(ps)
    ensures SortedDesc(r, DateKey)
  {
    SortDesc(ps, DateKey)
  }

  /** The browser client's resolver over a purchase listing: filter, sort by date descending, first rate or 0. */
  function ClientLatestRate(listing: seq<Purchase>, k: Id): (r: real)
    ensures r == ReferenceRate(listing, k)
  {
    var matches := Filter(listing, StockIs(k));
    QueryFindsLatest(listing, k);
    if |matches| == 0 then 0.0
    else OrZero(SortDesc(matches, DateKey)[0].rate)
  }

  /**
    The client, reading the sorted listing, picks the same purchase as the
    server action reading the store, ties included: both sorts are stable.
    For the empty id the action answers 0 at once; the client agrees on a
    well-formed store, where no purchase has an empty stock id.
   */
  lemma ClientAgreesWithAction(s: Store, k: Id)
    requires Wf(s)
    ensures ClientLatestRate(PurchaseListing(s.purchases), k) == LatestPurchaseRate(s.purchases, k)
  {
    var ps := s.purchases;
    var listing := PurchaseListing(ps);
    if k == "" {
      forall i | 0 <= i < |listing| ensures listing[i].stockId != k {
        assert listing[i] in multiset(ps);
        assert WellFormedPurchase(listing[i]);
      }
    } else {
      FilterSortCommute(ps, DateKey, StockIs(k));
      var sorted := SortDesc(Filter(ps, StockIs(k)), DateKey);
      SortSortedIsIdentity(sorted, DateKey);
      QueryFindsLatest(ps, k);
    }
  }

  /** Purchases of other stock items never affect the resolved rate. */
  lemma OtherStocksIrrelevant(ps: seq<Purchase>, k: Id)
    ensures ReferenceRate(Filter(ps, StockIs(k)), k) == ReferenceRate(ps, k)
  {
    FilterIdempotent(ps, StockIs(k));
    assert SnapshotRate(Filter(ps, StockIs(k)), k) == SnapshotRate(ps, k);
  }

  /** A purchase dated strictly after every earlier purchase of its stock becomes the resolved rate. */
  lemma LaterPurchaseWins(ps: seq<Purchase>, p: Purchase)
    requires p.stockId != ""
    requires forall i :: 0 <= i < |ps| && ps[i].stockId == p.stockId ==> ps[i].date < p.date
    ensures LatestPurchaseRate(ps + [p], p.stockId) == p.rate
  {
    var qs := ps + [p];
    assert IsLatest(qs, p.stockId, |ps|);
  }

  /** Appending a purchase of another stock item leaves the resolved rate unchanged. */
  lemma AppendOtherStock(ps: seq<Purchase>, p: Purchase, k: Id)
    requires p.stockId != k
    ensures LatestPurchaseRate(ps + [p], k) == LatestPurchaseRate(ps, k)
  {
    var qs := ps + [p];
    if k != "" {
      match LatestIndex(ps, k)
      case None =>
        assert NoPurchaseOf(qs, k);
      case Some(i) =>
        assert IsLatest(qs, k, i);
    }
  }
}
