/**
 * The summary cards on the admin dashboard: how many products it was given,
 * how many of them are active and how many inactive.
 */
module AdminStats {
  import opened Catalog

  /** The three numbers the dashboard shows. */
  datatype Stats = Stats(totalProducts: nat, activeProducts: nat, inactiveProducts: nat)

  /** The counts over the product list the dashboard fetched. */
  function ComputeStats(products: seq<Product>): (s: Stats)
    ensures s.totalProducts == |products|
    ensures s.activeProducts <= s.totalProducts && s.inactiveProducts <= s.totalProducts
  {
    Stats(|products|, |ActiveRows(products)|, |InactiveRows(products)|)
  }

  /**
   * The active counter counts every active product of the list as often as it
   * occurs and no inactive one; the inactive counter the other way round.
   */
  lemma StatsCountProducts(products: seq<Product>)
    ensures forall p :: multiset(ActiveRows(products))[p] == if p.data.active then multiset(products)[p] else 0
    ensures forall p :: multiset(InactiveRows(products))[p] == if p.data.active then 0 else multiset(products)[p]
    ensures ComputeStats(products).activeProducts == |multiset(ActiveRows(products))|
    ensures ComputeStats(products).inactiveProducts == |multiset(InactiveRows(products))|
  {
    forall p ensures multiset(ActiveRows(products))[p] == if p.data.active then multiset(products)[p] else 0 {
      ActiveRowsCount(products, p);
    }
    forall p ensures multiset(InactiveRows(products))[p] == if p.data.active then 0 else multiset(products)[p] {
      InactiveRowsCount(products, p);
    }
  }

  /** Every product is counted as exactly one of active or inactive. */
  lemma {:induction false} ActiveInactivePartition(products: seq<Product>)
    ensures ComputeStats(products).activeProducts + ComputeStats(products).inactiveProducts
         == ComputeStats(products).totalProducts
  {
    if products != [] {
      ActiveInactivePartition(products[1..]);
    }
  }

  /** On a list that holds only active products the active filter keeps everything. */
  lemma {:induction false} AllActiveFilters(products: seq<Product>)
    requires forall i :: 0 <= i < |products| ==> products[i].data.active
    ensures ActiveRows(products) == products
    ensures InactiveRows(products) == []
  {
    if products != [] {
      AllActiveFilters(products[1..]);
      assert products == [products[0]] + products[1..];
    }
  }

  /**
   * The dashboard is fed by the public product list, which holds only active
   * rows: its inactive count is always zero and its total is the number of
   * active rows in the table.
   */
  lemma StatsOfPublicList(rows: seq<Product>)
    ensures ComputeStats(ListActive(rows)).inactiveProducts == 0
    ensures ComputeStats(ListActive(rows)).activeProducts == ComputeStats(ListActive(rows)).totalProducts
    ensures ComputeStats(ListActive(rows)).totalProducts == |ActiveRows(rows)|
  {
    var a := ActiveRows(rows);
    var r := ListActive(rows);
    assert |multiset(r)| == |multiset(a)|;
    forall i | 0 <= i < |r| ensures r[i].data.active {
      assert r[i] in multiset(a);
      var j :| 0 <= j < |a| && a[j] == r[i];
    }
    AllActiveFilters(r);
  }
}
