/**
 * What `Store.buy` (src/store/Store.java) computes, stated on values: the
 * stock ledger and the ordered ids of the books bought go in, the updated
 * ledger and one status code per item come out.
 */
module Purchases {

  /** Status codes of `buy`. */
  const PURCHASED := 0
  const OUT_OF_STOCK := 1
  const NOT_FOUND := 2

  datatype Purchase = Purchase(stock: map<int, int>, codes: seq<int>)

  /** The status code of buying one copy of `id` against the ledger `stock`. */
  function Code(stock: map<int, int>, id: int): int
  {
    if id !in stock then NOT_FOUND
    else if stock[id] >= 1 then PURCHASED
    else OUT_OF_STOCK
  }

  /** The ledger after buying one copy of `id`: one unit fewer when one was there. */
  function Decrement(stock: map<int, int>, id: int): map<int, int>
  {
    if id in stock && stock[id] >= 1 then stock[id := stock[id] - 1] else stock
  }

  /**
   * The first `n` items processed in order, each against the ledger the
   * earlier items left behind, with no rollback. One code per item, and no
   * key of the ledger is added or removed.
   */
  function BuyPrefix(stock: map<int, int>, ids: seq<int>, n: nat): (p: Purchase)
    requires n <= |ids|
    ensures |p.codes| == n
    ensures p.stock.Keys == stock.Keys
  {
    if n == 0 then Purchase(stock, [])
    else
      var before := BuyPrefix(stock, ids, n - 1);
      Purchase(Decrement(before.stock, ids[n - 1]), before.codes + [Code(before.stock, ids[n - 1])])
  }

  /** The whole batch. */
  function BuyRun(stock: map<int, int>, ids: seq<int>): Purchase
  {
    BuyPrefix(stock, ids, |ids|)
  }

  /** How many of the first `n` items are copies of `k` that were actually bought. */
  function Bought(ids: seq<int>, codes: seq<int>, k: int, n: nat): nat
    requires n <= |ids| && n <= |codes|
  {
    if n == 0 then 0
    else Bought(ids, codes, k, n - 1) + (if ids[n - 1] == k && codes[n - 1] == PURCHASED then 1 else 0)
  }

  /** Later items do not change the codes of earlier ones. */
  lemma {:induction false} CodesStable(stock: map<int, int>, ids: seq<int>, i: nat, n: nat)
    requires i < n <= |ids|
    ensures BuyPrefix(stock, ids, n).codes[i] == BuyPrefix(stock, ids, i + 1).codes[i]
  {
    if n > i + 1 {
      CodesStable(stock, ids, i, n - 1);
    }
  }

  /** Item `i` is judged against the ledger left by items 0 .. i-1. */
  lemma CodeAt(stock: map<int, int>, ids: seq<int>, i: nat)
    requires i < |ids|
    ensures BuyRun(stock, ids).codes[i] == Code(BuyPrefix(stock, ids, i).stock, ids[i])
  {
    CodesStable(stock, ids, i, |ids|);
  }

  /**
   * Every code is 0, 1 or 2: 2 exactly when the id is not in the ledger,
   * 1 exactly when it is but fewer than one unit is left at that point,
   * 0 exactly when a unit was left and taken.
   */
  lemma BuyCodes(stock: map<int, int>, ids: seq<int>)
    ensures var p := BuyRun(stock, ids);
      forall i :: 0 <= i < |ids| ==>
        && p.codes[i] in {PURCHASED, OUT_OF_STOCK, NOT_FOUND}
        && (p.codes[i] == NOT_FOUND <==> ids[i] !in stock)
        && (p.codes[i] == OUT_OF_STOCK <==> ids[i] in stock && BuyPrefix(stock, ids, i).stock[ids[i]] < 1)
        && (p.codes[i] == PURCHASED <==> ids[i] in stock && BuyPrefix(stock, ids, i).stock[ids[i]] >= 1)
  {
    forall i | 0 <= i < |ids|
      ensures var p := BuyRun(stock, ids);
        && p.codes[i] in {PURCHASED, OUT_OF_STOCK, NOT_FOUND}
        && (p.codes[i] == NOT_FOUND <==> ids[i] !in stock)
        && (p.codes[i] == OUT_OF_STOCK <==> ids[i] in stock && BuyPrefix(stock, ids, i).stock[ids[i]] < 1)
        && (p.codes[i] == PURCHASED <==> ids[i] in stock && BuyPrefix(stock, ids, i).stock[ids[i]] >= 1)
    {
      CodeAt(stock, ids, i);
    }
  }

  /** After `n` items, each id's stock has dropped by exactly the number of its items coded 0. */
  lemma {:induction false} StockAfterBuy(stock: map<int, int>, ids: seq<int>, n: nat)
    requires n <= |ids|
    ensures var p := BuyPrefix(stock, ids, n);
      forall k :: k in stock ==> p.stock[k] == stock[k] - Bought(ids, p.codes, k, n)
  {
    if n > 0 {
      var p := BuyPrefix(stock, ids, n);
      var before := BuyPrefix(stock, ids, n - 1);
      StockAfterBuy(stock, ids, n - 1);
      BoughtDependsOnPrefix(ids, before.codes, p.codes, n - 1);
    }
  }

  /** `Bought` over the first `n` items only looks at their codes. */
  lemma {:induction false} BoughtDependsOnPrefix(ids: seq<int>, c1: seq<int>, c2: seq<int>, n: nat)
    requires n <= |ids| && n <= |c1| && n <= |c2| && c1[..n] == c2[..n]
    ensures forall k :: Bought(ids, c1, k, n) == Bought(ids, c2, k, n)
  {
    if n > 0 {
      assert c1[..n - 1] == c1[..n][..n - 1] && c2[..n - 1] == c2[..n][..n - 1];
      assert c1[n - 1] == c1[..n][n - 1] && c2[n - 1] == c2[..n][n - 1];
      BoughtDependsOnPrefix(ids, c1, c2, n - 1);
    }
  }

  /** A ledger entry that starts non-negative never goes below 0 and never grows. */
  lemma {:induction false} StockStaysNonNegative(stock: map<int, int>, ids: seq<int>, n: nat)
    requires n <= |ids|
    ensures var p := BuyPrefix(stock, ids, n);
      forall k :: k in stock && stock[k] >= 0 ==> 0 <= p.stock[k] <= stock[k]
  {
    if n > 0 {
      StockStaysNonNegative(stock, ids, n - 1);
    }
  }

  /**
   * Closed form of the in-order semantics: item `i` is bought exactly when
   * its id is known and its starting stock, less the copies bought by the
   * earlier items, is still at least one.
   */
  lemma PurchaseIffUnitLeft(stock: map<int, int>, ids: seq<int>, i: nat)
    requires i < |ids|
    ensures var p := BuyRun(stock, ids);
      p.codes[i] == PURCHASED <==>
        ids[i] in stock && stock[ids[i]] - Bought(ids, p.codes, ids[i], i) >= 1
  {
    var p := BuyRun(stock, ids);
    var q := BuyPrefix(stock, ids, i);
    CodeAt(stock, ids, i);
    StockAfterBuy(stock, ids, i);
    forall j | 0 <= j < i ensures q.codes[j] == p.codes[j] {
      CodesStable(stock, ids, j, i);
      CodesStable(stock, ids, j, |ids|);
    }
    assert q.codes[..i] == p.codes[..i];
    BoughtDependsOnPrefix(ids, q.codes, p.codes, i);
  }
}
