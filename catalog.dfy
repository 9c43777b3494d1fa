/**
 * The `Product` table and the query behind the public product list: rows where
 * `active` is true, newest `createdAt` first.
 */
module Catalog {
  import opened Wrappers

  /** The columns a caller supplies when a row is created. Prices are in cents. */
  datatype ProductData = ProductData(
    name: string,
    description: Option<string>,
    basePrice: int,
    images: Option<string>,
    active: bool)

  /** A stored row: the supplied columns plus the identifier and creation time the store assigns. */
  datatype Product = Product(id: nat, data: ProductData, createdAt: nat)

  /** No two rows share an identifier. */
  ghost predicate DistinctIds(rows: seq<Product>) {
    forall i, j :: 0 <= i < j < |rows| ==> rows[i].id != rows[j].id
  }

  /** Every row has a non-negative price. */
  ghost predicate PricesNonNegative(rows: seq<Product>) {
    forall i :: 0 <= i < |rows| ==> rows[i].data.basePrice >= 0
  }

  /**
   * The product table. Identifiers and creation times come from counters the
   * store advances on every insert, so a later insert has a later `createdAt`.
   */
  class ProductTable {
    var rows: seq<Product>
    var nextId: nat
    var clock: nat

    ghost predicate Valid()
      reads this
    {
      && DistinctIds(rows)
      && (forall i :: 0 <= i < |rows| ==> rows[i].id < nextId && rows[i].createdAt < clock)
    }

    constructor ()
      ensures Valid() && rows == []
    {
      rows, nextId, clock := [], 0, 0;
    }

    /** `prisma.product.count()`. */
    function Count(): (n: nat)
      reads this
      ensures n == 0 <==> rows == []
    {
      |rows|
    }

    /** `prisma.product.create`: appends one row holding `data`; earlier rows are untouched. */
    method Create(data: ProductData) returns (p: Product)
      requires Valid()
      modifies this
      ensures Valid()
      ensures rows == old(rows) + [p]
      ensures p.data == data
      ensures forall i :: 0 <= i < |old(rows)| ==> old(rows)[i].id != p.id
      ensures forall i :: 0 <= i < |old(rows)| ==> old(rows)[i].createdAt < p.createdAt
    {
      p := Product(nextId, data, clock);
      rows := rows + [p];
      nextId := nextId + 1;
      clock := clock + 1;
    }
  }

  // ---------------------------------------------------------------------
  // The public list: `findMany({ where: { active: true }, orderBy: { createdAt: 'desc' } })`
  // ---------------------------------------------------------------------

  /** The rows whose `active` flag is set, in table order. */
  function ActiveRows(rows: seq<Product>): (r: seq<Product>)
    ensures |r| <= |rows|
    ensures forall i :: 0 <= i < |r| ==> r[i].data.active
  {
    if rows == [] then []
    else (if rows[0].data.active then [rows[0]] else []) + ActiveRows(rows[1..])
  }

  /** The rows whose `active` flag is clear, in table order. */
  function InactiveRows(rows: seq<Product>): (r: seq<Product>)
    ensures |r| <= |rows|
    ensures forall i :: 0 <= i < |r| ==> !r[i].data.active
  {
    if rows == [] then []
    else (if rows[0].data.active then [] else [rows[0]]) + InactiveRows(rows[1..])
  }

  /** Newest first: `createdAt` never increases along the list. */
  ghost predicate NewestFirst(s: seq<Product>) {
    forall i, j :: 0 <= i < j < |s| ==> s[i].createdAt >= s[j].createdAt
  }

  /** A row at least as new as the head of a newest-first list may go in front of it. */
  lemma PrependKeepsOrder(x: Product, t: seq<Product>)
    requires NewestFirst(t)
    requires t != [] ==> x.createdAt >= t[0].createdAt
    ensures NewestFirst([x] + t)
  {
    var r := [x] + t;
    forall i, j | 0 <= i < j < |r| ensures r[i].createdAt >= r[j].createdAt {
      if i == 0 {
        assert r[j] == t[j - 1];
        assert t[0].createdAt >= t[j - 1].createdAt;
      } else {
        assert r[i] == t[i - 1] && r[j] == t[j - 1];
      }
    }
  }

  /** Places `p` in front of the first row of `s` that is not newer than it. */
  function InsertByCreatedAt(p: Product, s: seq<Product>): (r: seq<Product>)
    requires NewestFirst(s)
    ensures NewestFirst(r)
    ensures multiset(r) == multiset(s) + multiset{p}
    ensures |r| == |s| + 1 && (r[0] == p || (s != [] && r[0] == s[0]))
  {
    if s == [] then [p]
    else if p.createdAt >= s[0].createdAt then
      PrependKeepsOrder(p, s);
      [p] + s
    else
      TailKeepsOrder(s);
      var tail := InsertByCreatedAt(p, s[1..]);
      InsertBehindHead(p, s, tail);
      [s[0]] + tail
  }

  /** The head of `s` stays in front when `p` went into the rest of `s`. */
  lemma InsertBehindHead(p: Product, s: seq<Product>, tail: seq<Product>)
    requires NewestFirst(s) && s != [] && p.createdAt < s[0].createdAt
    requires NewestFirst(tail) && multiset(tail) == multiset(s[1..]) + multiset{p}
    requires |tail| == |s| && (tail[0] == p || (|s| > 1 && tail[0] == s[1]))
    ensures NewestFirst([s[0]] + tail)
    ensures multiset([s[0]] + tail) == multiset(s) + multiset{p}
  {
    assert s == [s[0]] + s[1..];
    PrependKeepsOrder(s[0], tail);
  }

  /** Dropping the head of a newest-first list leaves it newest first. */
  lemma TailKeepsOrder(s: seq<Product>)
    requires NewestFirst(s) && s != []
    ensures NewestFirst(s[1..])
  {
    var t := s[1..];
    forall i, j | 0 <= i < j < |t| ensures t[i].createdAt >= t[j].createdAt {
      assert t[i] == s[i + 1] && t[j] == s[j + 1];
    }
  }

  /** Orders rows newest first (an insertion sort on `createdAt`). */
  function SortNewestFirst(s: seq<Product>): (r: seq<Product>)
    ensures NewestFirst(r)
    ensures multiset(r) == multiset(s)
  {
    if s == [] then []
    else
      assert s == [s[0]] + s[1..];
      InsertByCreatedAt(s[0], SortNewestFirst(s[1..]))
  }

  /** The rows the public list returns. */
  function ListActive(rows: seq<Product>): (r: seq<Product>)
    ensures NewestFirst(r)
    ensures |r| == |ActiveRows(rows)|
  {
    var r := SortNewestFirst(ActiveRows(rows));
    assert |multiset(r)| == |multiset(ActiveRows(rows))|;
    r
  }

  /** A row is kept by the active filter exactly as often as it occurs, when it is active. */
  lemma {:induction false} ActiveRowsCount(rows: seq<Product>, p: Product)
    ensures multiset(ActiveRows(rows))[p] == if p.data.active then multiset(rows)[p] else 0
  {
    if rows != [] {
      ActiveRowsCount(rows[1..], p);
      assert rows == [rows[0]] + rows[1..];
    }
  }

  /** A row is kept by the inactive filter exactly as often as it occurs, when it is inactive. */
  lemma {:induction false} InactiveRowsCount(rows: seq<Product>, p: Product)
    ensures multiset(InactiveRows(rows))[p] == if p.data.active then 0 else multiset(rows)[p]
  {
    if rows != [] {
      InactiveRowsCount(rows[1..], p);
      assert rows == [rows[0]] + rows[1..];
    }
  }

  /** With distinct identifiers every row occurs once. */
  lemma {:induction false} DistinctRowsOccurOnce(rows: seq<Product>, k: nat)
    requires DistinctIds(rows) && k < |rows|
    ensures multiset(rows)[rows[k]] == 1
  {
    assert rows == [rows[0]] + rows[1..];
    var tail := rows[1..];
    if k == 0 {
      assert forall j :: 0 <= j < |tail| ==> tail[j] == rows[j + 1];
    } else {
      DistinctRowsOccurOnce(tail, k - 1);
      assert tail[k - 1] == rows[k];
      assert rows[0].id != rows[k].id;
    }
  }

  /**
   * The public list holds only active rows, newest first, and every active row
   * of the table exactly once; an inactive row never appears.
   */
  lemma ListActiveSpec(rows: seq<Product>)
    requires DistinctIds(rows)
    ensures NewestFirst(ListActive(rows))
    ensures forall i :: 0 <= i < |ListActive(rows)| ==> ListActive(rows)[i].data.active
    ensures forall k :: 0 <= k < |rows| && rows[k].data.active ==> multiset(ListActive(rows))[rows[k]] == 1
    ensures forall k :: 0 <= k < |rows| && !rows[k].data.active ==> rows[k] !in ListActive(rows)
    ensures forall p :: p in ListActive(rows) ==> p in rows
  {
    var r := ListActive(rows);
    forall i | 0 <= i < |r| ensures r[i].data.active {
      assert r[i] in multiset(ActiveRows(rows));
      var j :| 0 <= j < |ActiveRows(rows)| && ActiveRows(rows)[j] == r[i];
    }
    forall k | 0 <= k < |rows|
      ensures rows[k].data.active ==> multiset(r)[rows[k]] == 1
      ensures !rows[k].data.active ==> rows[k] !in r
    {
      ActiveRowsCount(rows, rows[k]);
      DistinctRowsOccurOnce(rows, k);
    }
    forall p | p in r ensures p in rows {
      ActiveRowsCount(rows, p);
    }
  }

  /** The public list of an empty table is empty, not an error. */
  lemma ListActiveEmpty()
    ensures ListActive([]) == []
  {
  }
}
