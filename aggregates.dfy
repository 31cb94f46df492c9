/**
 * Aggregates over the preprocessed table that are pure counting or integer
 * sums (value_counts, crosstab, groupby-sum), and the interactive row filter
 * of the data explorer.
 */
module Aggregates {
  import opened Wrappers
  import opened Seqs
  import opened Frame
  import Catalog

  // ---------------------------------------------------------------------
  // Columns of the preprocessed table
  // ---------------------------------------------------------------------

  function Products(rows: seq<Row>): seq<string>
  {
    seq(|rows|, i requires 0 <= i < |rows| => rows[i].record.product)
  }

  function Genders(rows: seq<Row>): seq<string>
  {
    seq(|rows|, i requires 0 <= i < |rows| => rows[i].record.gender)
  }

  function Prices(rows: seq<Row>): seq<Option<nat>>
  {
    seq(|rows|, i requires 0 <= i < |rows| => rows[i].productPrice)
  }

  /** The sum of m over the given keys; a key m lacks adds nothing. */
  function SumAt<K>(m: map<K, nat>, keys: seq<K>): nat
  {
    if |keys| == 0 then 0
    else
      var last := keys[|keys| - 1];
      SumAt(m, keys[..|keys| - 1]) + (if last in m then m[last] else 0)
  }

  /** A map that agrees with a multiset on the keys sums like the multiset's counts. */
  lemma {:induction false} SumAtAgrees<K>(m: map<K, nat>, ms: multiset<K>, keys: seq<K>)
    requires forall i :: 0 <= i < |keys| ==> keys[i] in m && m[keys[i]] == ms[keys[i]]
    ensures SumAt(m, keys) == TotalCount(ms, keys)
  {
    if |keys| > 0 {
      SumAtAgrees(m, ms, keys[..|keys| - 1]);
    }
  }

  // ---------------------------------------------------------------------
  // value_counts
  // ---------------------------------------------------------------------

  /**
   * Series.value_counts(): how often each value present occurs, counted
   * one row at a time.
   */
  function ValueCounts<T(==,!new)>(s: seq<T>): (m: map<T, nat>)
    ensures forall x :: x in m <==> x in s
    ensures forall x :: x in m ==> m[x] == multiset(s)[x]
  {
    if |s| == 0 then map[]
    else
      var init, last := s[..|s| - 1], s[|s| - 1];
      assert s == init + [last];
      var counts := ValueCounts(init);
      counts[last := (if last in counts then counts[last] else 0) + 1]
  }

  /** The counts of all values of a column add up to the number of rows. */
  lemma {:induction false} ValueCountsTotal<T(!new)>(s: seq<T>)
    ensures SumAt(ValueCounts(s), Distinct(s)) == |s|
  {
    var keys := Distinct(s);
    SumAtAgrees(ValueCounts(s), multiset(s), keys);
    CountsSumToLength(s, keys);
  }

  /** The product counts: every product present is counted, and the counts sum to the row count. */
  lemma ProductCountsTotal(rows: seq<Row>)
    ensures forall p :: p in ValueCounts(Products(rows)) <==> exists i :: 0 <= i < |rows| && rows[i].record.product == p
    ensures SumAt(ValueCounts(Products(rows)), Distinct(Products(rows))) == |rows|
  {
    ValueCountsTotal(Products(rows));
    forall p | p in Products(rows)
      ensures exists i :: 0 <= i < |rows| && rows[i].record.product == p
    {
      var i :| 0 <= i < |rows| && Products(rows)[i] == p;
    }
    forall p, i | 0 <= i < |rows| && rows[i].record.product == p
      ensures p in Products(rows)
    {
      assert Products(rows)[i] == p;
    }
  }

  /** The gender counts: every gender present is counted, and the counts sum to the row count. */
  lemma GenderCountsTotal(rows: seq<Row>)
    ensures forall g :: g in ValueCounts(Genders(rows)) <==> exists i :: 0 <= i < |rows| && rows[i].record.gender == g
    ensures SumAt(ValueCounts(Genders(rows)), Distinct(Genders(rows))) == |rows|
  {
    ValueCountsTotal(Genders(rows));
    forall g | g in Genders(rows)
      ensures exists i :: 0 <= i < |rows| && rows[i].record.gender == g
    {
      var i :| 0 <= i < |rows| && Genders(rows)[i] == g;
    }
    forall g, i | 0 <= i < |rows| && rows[i].record.gender == g
      ensures g in Genders(rows)
    {
      assert Genders(rows)[i] == g;
    }
  }

  // ---------------------------------------------------------------------
  // crosstab
  // ---------------------------------------------------------------------

  function Zip<A, B>(a: seq<A>, b: seq<B>): (z: seq<(A, B)>)
    requires |a| == |b|
  {
    seq(|a|, i requires 0 <= i < |a| => (a[i], b[i]))
  }

  /**
   * pd.crosstab(a, b): the counts of the (a, b) pairs that occur, laid out
   * over every value of a and every value of b, a pair that never occurs
   * filled with 0.
   */
  function Crosstab<A(==,!new), B(==,!new)>(a: seq<A>, b: seq<B>): (t: map<(A, B), nat>)
    requires |a| == |b|
    ensures forall x, y :: (x, y) in t <==> x in a && y in b
    ensures forall p :: p in t ==> t[p] == multiset(Zip(a, b))[p]
  {
    var pairCounts := ValueCounts(Zip(a, b));
    map x, y | x in a && y in b :: (x, y) := if (x, y) in pairCounts then pairCounts[(x, y)] else 0
  }

  /** The cells of row x, one per column value in cols. */
  function RowKeys<A, B>(x: A, cols: seq<B>): (keys: seq<(A, B)>)
  {
    seq(|cols|, j requires 0 <= j < |cols| => (x, cols[j]))
  }

  /** Sum of all cells, row by row. */
  function TableSum<A(==), B(==)>(t: map<(A, B), nat>, rows: seq<A>, cols: seq<B>): nat
  {
    if |rows| == 0 then 0
    else TableSum(t, rows[..|rows| - 1], cols) + SumAt(t, RowKeys(rows[|rows| - 1], cols))
  }

  /** Counting the pairs of row x over all columns counts the occurrences of x. */
  lemma {:induction false} PairCountsByRow<A, B>(a: seq<A>, b: seq<B>, x: A, cols: seq<B>)
    requires |a| == |b|
    requires NoDuplicates(cols)
    requires forall y :: y in b ==> y in cols
    ensures TotalCount(multiset(Zip(a, b)), RowKeys(x, cols)) == multiset(a)[x]
  {
    var keys := RowKeys(x, cols);
    if |a| == 0 {
      TotalCountEmpty(keys);
    } else {
      var n := |a| - 1;
      assert a == a[..n] + [a[n]];
      assert b == b[..n] + [b[n]];
      assert Zip(a, b) == Zip(a[..n], b[..n]) + [(a[n], b[n])];
      PairCountsByRow(a[..n], b[..n], x, cols);
      assert b[n] in b;
      assert (a[n], b[n]) in keys <==> a[n] == x by {
        if a[n] == x {
          var j :| 0 <= j < |cols| && cols[j] == b[n];
          assert keys[j] == (a[n], b[n]);
        }
      }
      TotalCountAdd(multiset(Zip(a[..n], b[..n])), (a[n], b[n]), keys);
    }
  }

  /**
   * Each row of the contingency table sums to that value's count in the
   * first column.
   */
  lemma {:induction false} CrosstabRowSums<A(!new), B(!new)>(a: seq<A>, b: seq<B>, x: A)
    requires |a| == |b|
    requires x in a
    ensures SumAt(Crosstab(a, b), RowKeys(x, Distinct(b))) == ValueCounts(a)[x]
  {
    var t, cols := Crosstab(a, b), Distinct(b);
    SumAtAgrees(t, multiset(Zip(a, b)), RowKeys(x, cols));
    PairCountsByRow(a, b, x, cols);
  }

  lemma {:induction false} TableSumByRows<A(!new), B(!new)>(a: seq<A>, b: seq<B>, rows: seq<A>)
    requires |a| == |b|
    requires forall x :: x in rows ==> x in a
    ensures TableSum(Crosstab(a, b), rows, Distinct(b)) == TotalCount(multiset(a), rows)
  {
    if |rows| > 0 {
      var last := rows[|rows| - 1];
      assert last in rows;
      TableSumByRows(a, b, rows[..|rows| - 1]);
      CrosstabRowSums(a, b, last);
    }
  }

  /** All cells of the contingency table add up to the number of rows. */
  lemma {:induction false} CrosstabTotal<A(!new), B(!new)>(a: seq<A>, b: seq<B>)
    requires |a| == |b|
    ensures TableSum(Crosstab(a, b), Distinct(a), Distinct(b)) == |a|
  {
    TableSumByRows(a, b, Distinct(a));
    CountsSumToLength(a, Distinct(a));
  }

  /** The Product by Gender table: row sums are the product counts, cells sum to the row count. */
  lemma ProductGenderCrosstab(rows: seq<Row>)
    ensures forall p, g :: (p, g) in Crosstab(Products(rows), Genders(rows)) <==> p in Products(rows) && g in Genders(rows)
    ensures forall p :: p in Products(rows) ==>
              SumAt(Crosstab(Products(rows), Genders(rows)), RowKeys(p, Distinct(Genders(rows))))
              == ValueCounts(Products(rows))[p]
    ensures TableSum(Crosstab(Products(rows), Genders(rows)), Distinct(Products(rows)), Distinct(Genders(rows))) == |rows|
  {
    forall p | p in Products(rows)
      ensures SumAt(Crosstab(Products(rows), Genders(rows)), RowKeys(p, Distinct(Genders(rows))))
              == ValueCounts(Products(rows))[p]
    {
      CrosstabRowSums(Products(rows), Genders(rows), p);
    }
    CrosstabTotal(Products(rows), Genders(rows));
  }

  // ---------------------------------------------------------------------
  // groupby-sum: revenue
  // ---------------------------------------------------------------------

  /** Series.sum() skips missing values. */
  function Amount(v: Option<nat>): nat
  {
    if v.Some? then v.value else 0
  }

  /** Sum of all present values of a column. */
  function SumPresent(vals: seq<Option<nat>>): nat
  {
    if |vals| == 0 then 0 else SumPresent(vals[..|vals| - 1]) + Amount(vals[|vals| - 1])
  }

  /** Sum of vals over the rows whose key is k. */
  function SumWhere<K(==)>(keys: seq<K>, vals: seq<Option<nat>>, k: K): nat
    requires |keys| == |vals|
  {
    if |keys| == 0 then 0
    else
      var n := |keys| - 1;
      SumWhere(keys[..n], vals[..n], k) + (if keys[n] == k then Amount(vals[n]) else 0)
  }

  /** Grouping vals by keys and summing each group: one total per key present. */
  function GroupSum<K(==,!new)>(keys: seq<K>, vals: seq<Option<nat>>): (m: map<K, nat>)
    requires |keys| == |vals|
    ensures forall k :: k in m <==> k in keys
  {
    map k | k in keys :: SumWhere(keys, vals, k)
  }

  /** Sum over a list of groups of each group's total. */
  function GroupTotal<K(==)>(keys: seq<K>, vals: seq<Option<nat>>, groups: seq<K>): nat
    requires |keys| == |vals|
  {
    if |groups| == 0 then 0
    else GroupTotal(keys, vals, groups[..|groups| - 1]) + SumWhere(keys, vals, groups[|groups| - 1])
  }

  lemma {:induction false} GroupTotalAdd<K>(keys: seq<K>, vals: seq<Option<nat>>, k: K, v: Option<nat>, groups: seq<K>)
    requires |keys| == |vals|
    requires NoDuplicates(groups)
    ensures GroupTotal(keys + [k], vals + [v], groups)
            == GroupTotal(keys, vals, groups) + (if k in groups then Amount(v) else 0)
  {
    assert (keys + [k])[..|keys|] == keys;
    assert (vals + [v])[..|vals|] == vals;
    if |groups| > 0 {
      var init, last := groups[..|groups| - 1], groups[|groups| - 1];
      assert groups == init + [last];
      GroupTotalAdd(keys, vals, k, v, init);
      assert k in groups <==> k in init || k == last;
      assert k == last ==> k !in init;
    }
  }

  /** The group totals over all groups add up to the column's total. */
  lemma {:induction false} GroupTotalIsSum<K>(keys: seq<K>, vals: seq<Option<nat>>, groups: seq<K>)
    requires |keys| == |vals|
    requires NoDuplicates(groups)
    requires forall k :: k in keys ==> k in groups
    ensures GroupTotal(keys, vals, groups) == SumPresent(vals)
  {
    if |keys| == 0 {
      GroupTotalEmpty(groups);
    } else {
      var n := |keys| - 1;
      assert keys == keys[..n] + [keys[n]];
      assert vals == vals[..n] + [vals[n]];
      GroupTotalIsSum(keys[..n], vals[..n], groups);
      GroupTotalAdd(keys[..n], vals[..n], keys[n], vals[n], groups);
    }
  }

  lemma {:induction false} GroupTotalEmpty<K>(groups: seq<K>)
    ensures GroupTotal([], [], groups) == 0
  {
    if |groups| > 0 {
      GroupTotalEmpty(groups[..|groups| - 1]);
    }
  }

  lemma {:induction false} SumAtGroupSum<K(!new)>(keys: seq<K>, vals: seq<Option<nat>>, groups: seq<K>)
    requires |keys| == |vals|
    requires forall k :: k in groups ==> k in keys
    ensures SumAt(GroupSum(keys, vals), groups) == GroupTotal(keys, vals, groups)
  {
    if |groups| > 0 {
      assert groups[|groups| - 1] in groups;
      SumAtGroupSum(keys, vals, groups[..|groups| - 1]);
    }
  }

  /** Revenue per product: the prices of each product's rows, summed. */
  function Revenue(rows: seq<Row>): (m: map<string, nat>)
    ensures forall p :: p in m <==> p in Products(rows)
  {
    GroupSum(Products(rows), Prices(rows))
  }

  /** Total revenue: the per-product revenues, summed; equal to the sum of every row's price (a missing price adds nothing). */
  function TotalRevenue(rows: seq<Row>): (total: nat)
    ensures total == SumPresent(Prices(rows))
  {
    var keys, vals, groups := Products(rows), Prices(rows), Distinct(Products(rows));
    SumAtGroupSum(keys, vals, groups);
    GroupTotalIsSum(keys, vals, groups);
    SumAt(Revenue(rows), groups)
  }

  /** When every price is looked up from its own product, a product's total is price times count. */
  lemma {:induction false} SumWherePriced(keys: seq<string>, vals: seq<Option<nat>>, k: string)
    requires |keys| == |vals|
    requires forall i :: 0 <= i < |keys| ==> vals[i] == Catalog.ProductPrice(keys[i])
    ensures SumWhere(keys, vals, k) == Amount(Catalog.ProductPrice(k)) * multiset(keys)[k]
  {
    if |keys| > 0 {
      var n := |keys| - 1;
      assert keys == keys[..n] + [keys[n]];
      SumWherePriced(keys[..n], vals[..n], k);
      var p := Amount(Catalog.ProductPrice(k));
      var c := multiset(keys[..n])[k];
      if keys[n] == k {
        assert multiset(keys)[k] == c + 1;
        assert p * (c + 1) == p * c + p;
      } else {
        assert multiset(keys)[k] == c;
      }
    }
  }

  /**
   * On the preprocessed table, each product's revenue is its catalog price
   * times its number of rows; a product without a price has revenue 0.
   */
  lemma {:induction false} RevenuePerProduct(rs: seq<Record>, product: string)
    requires product in Products(Enrich(rs))
    ensures product in Revenue(Enrich(rs))
    ensures Catalog.ProductPrice(product).Some? ==>
              Revenue(Enrich(rs))[product] == Catalog.ProductPrice(product).value * ValueCounts(Products(Enrich(rs)))[product]
    ensures Catalog.ProductPrice(product).None? ==> Revenue(Enrich(rs))[product] == 0
  {
    var rows := Enrich(rs);
    SumWherePriced(Products(rows), Prices(rows), product);
  }

  // ---------------------------------------------------------------------
  // The data explorer's row filter
  // ---------------------------------------------------------------------

  /** product in the chosen products, gender in the chosen genders, lo <= age <= hi */
  predicate Selected(row: Row, products: set<string>, genders: set<string>, lo: int, hi: int)
  {
    && row.record.product in products
    && row.record.gender in genders
    && lo <= row.record.age
    && row.record.age <= hi
  }

  /**
   * The explorer's filter: the rows that meet all four conditions of
   * Selected, unmodified and in their original order.
   */
  function FilterRows(rows: seq<Row>, products: set<string>, genders: set<string>, lo: int, hi: int): (r: seq<Row>)
    ensures SubsequenceOf(r, rows)
    ensures forall row :: multiset(r)[row] == if Selected(row, products, genders, lo, hi) then multiset(rows)[row] else 0
    ensures forall row :: row in r <==> row in rows && Selected(row, products, genders, lo, hi)
    ensures |r| <= |rows|
  {
    Filter(rows, row => Selected(row, products, genders, lo, hi))
  }

  function MinAge(rows: seq<Row>): (m: int)
    requires |rows| > 0
    ensures forall i :: 0 <= i < |rows| ==> m <= rows[i].record.age
    ensures exists i :: 0 <= i < |rows| && rows[i].record.age == m
  {
    var n := |rows| - 1;
    if n == 0 then rows[0].record.age
    else
      var m := MinAge(rows[..n]);
      assert forall i :: 0 <= i < n ==> rows[..n][i] == rows[i];
      if rows[n].record.age < m then rows[n].record.age else m
  }

  function MaxAge(rows: seq<Row>): (m: int)
    requires |rows| > 0
    ensures forall i :: 0 <= i < |rows| ==> rows[i].record.age <= m
    ensures exists i :: 0 <= i < |rows| && rows[i].record.age == m
  {
    var n := |rows| - 1;
    if n == 0 then rows[0].record.age
    else
      var m := MaxAge(rows[..n]);
      assert forall i :: 0 <= i < n ==> rows[..n][i] == rows[i];
      if rows[n].record.age > m then rows[n].record.age else m
  }

  /** With the default widgets (every product, every gender, the full age range) nothing is filtered out. */
  lemma DefaultFilterKeepsAll(rows: seq<Row>)
    requires |rows| > 0
    ensures FilterRows(rows, (set p | p in Products(rows)), (set g | g in Genders(rows)), MinAge(rows), MaxAge(rows)) == rows
  {
    var products, genders := (set p | p in Products(rows)), (set g | g in Genders(rows));
    forall i | 0 <= i < |rows|
      ensures Selected(rows[i], products, genders, MinAge(rows), MaxAge(rows))
    {
      assert Products(rows)[i] == rows[i].record.product;
      assert Genders(rows)[i] == rows[i].record.gender;
    }
  }
}
