/** The aggregation engine, `generate_aggregations`
    (dashboard_proyek_copy.py, lines 65-102): four group-by tables over the
    filtered rows and the top/bottom selections made from them. A group-by
    lists its groups in ascending key order and drops rows whose key is
    null, so the product and category tables see only rows with a
    category. */
module Aggregations {
  import opened Records
  import opened Ordering
  import opened Ranking
  import Filters

  datatype DailyRow = DailyRow(date: Date, totalOrders: nat, totalRevenue: int)
  datatype CityRow = CityRow(city: string, customerCount: nat)
  datatype ProductRow = ProductRow(productId: string, category: string, sales: nat, revenue: int)
  datatype CategoryRow = CategoryRow(category: string, sales: nat, revenue: int, productCount: nat)

  /** The seven tables `generate_aggregations` returns. */
  datatype Aggregates = Aggregates(
    daily: seq<DailyRow>,
    topCities: seq<CityRow>,
    bottomCities: seq<CityRow>,
    topProducts: seq<ProductRow>,
    bottomProducts: seq<ProductRow>,
    topCategories: seq<CategoryRow>,
    bottomCategories: seq<CategoryRow>)

  // Daily sales (lines 67-71)

  /** One day's aggregate: distinct orders and the price sum of its rows. */
  function DayOf(rows: seq<Row>, d: Date): DailyRow {
    var day := GroupOf(rows, DateKey, d);
    DailyRow(d, Nunique(day, OrderKey), PriceSum(day))
  }

  /** The distinct order dates, ascending. */
  function Dates(rows: seq<Row>): (ds: seq<Date>)
    ensures StrictlySorted(ds, DateLess)
    ensures forall d :: d in ds <==> d in Values(rows, DateKey)
    ensures |ds| == |Values(rows, DateKey)|
  {
    DateLessIsStrictTotal();
    ColumnValues(rows, DateKey);
    SortedDistinctCount(Column(rows, DateKey), DateLess);
    assert (set k | k in Column(rows, DateKey)) == Values(rows, DateKey);
    SortedDistinct(Column(rows, DateKey), DateLess)
  }

  /** A key that occurs in `rows` has a non-empty group. */
  lemma GroupNonEmpty<K>(rows: seq<Row>, key: Row -> K, k: K)
    requires k in Values(rows, key)
    ensures GroupOf(rows, key, k) != []
  {
    var r :| r in rows && key(r) == k;
    assert r in GroupOf(rows, key, k);
  }

  /** `daily_sales`: one row per distinct order date, in ascending date
      order, each holding that day's distinct orders (at least one, at most
      one per row of the day) and the day's price sum. */
  function DailySales(rows: seq<Row>): (t: seq<DailyRow>)
    ensures |t| == |Values(rows, DateKey)|
    ensures forall i, j :: 0 <= i < j < |t| ==> t[i].date < t[j].date
    ensures forall d :: d in Values(rows, DateKey) <==> exists i :: 0 <= i < |t| && t[i].date == d
    ensures forall i :: 0 <= i < |t| ==> t[i] == DayOf(rows, t[i].date)
    ensures forall i :: 0 <= i < |t| ==>
      1 <= t[i].totalOrders <= |GroupOf(rows, DateKey, t[i].date)|
  {
    var ds := Dates(rows);
    var t := seq(|ds|, i requires 0 <= i < |ds| => DayOf(rows, ds[i]));
    assert forall i :: 0 <= i < |t| ==> t[i].date == ds[i];
    forall i | 0 <= i < |t|
      ensures 1 <= t[i].totalOrders <= |GroupOf(rows, DateKey, t[i].date)|
    {
      GroupNonEmpty(rows, DateKey, ds[i]);
      NuniqueBounds(GroupOf(rows, DateKey, ds[i]), OrderKey);
    }
    t
  }

  // Customers per city (lines 74-81)

  function CityOf(rows: seq<Row>, c: string): CityRow {
    CityRow(c, Nunique(GroupOf(rows, CityKey, c), CustomerKey))
  }

  function Cities(rows: seq<Row>): (cs: seq<string>)
    ensures StrictlySorted(cs, StrLess)
    ensures forall c :: c in cs <==> c in Values(rows, CityKey)
    ensures |cs| == |Values(rows, CityKey)|
  {
    StrLessIsStrictTotal();
    ColumnValues(rows, CityKey);
    SortedDistinctCount(Column(rows, CityKey), StrLess);
    assert (set k | k in Column(rows, CityKey)) == Values(rows, CityKey);
    SortedDistinct(Column(rows, CityKey), StrLess)
  }

  /** The city table before sorting: one row per distinct city, in
      ascending name order, with its number of distinct customers (at least
      one, at most one per row of the city). */
  function CityCustomers(rows: seq<Row>): (t: seq<CityRow>)
    ensures |t| == |Values(rows, CityKey)|
    ensures forall i, j :: 0 <= i < j < |t| ==> StrLess(t[i].city, t[j].city)
    ensures forall c :: c in Values(rows, CityKey) <==> exists i :: 0 <= i < |t| && t[i].city == c
    ensures forall i :: 0 <= i < |t| ==> t[i] == CityOf(rows, t[i].city)
    ensures forall i :: 0 <= i < |t| ==>
      1 <= t[i].customerCount <= |GroupOf(rows, CityKey, t[i].city)|
  {
    var cs := Cities(rows);
    var t := seq(|cs|, i requires 0 <= i < |cs| => CityOf(rows, cs[i]));
    assert forall i :: 0 <= i < |t| ==> t[i].city == cs[i];
    forall i | 0 <= i < |t|
      ensures 1 <= t[i].customerCount <= |GroupOf(rows, CityKey, t[i].city)|
    {
      GroupNonEmpty(rows, CityKey, cs[i]);
      NuniqueBounds(GroupOf(rows, CityKey, cs[i]), CustomerKey);
    }
    t
  }

  function CustomerCount(c: CityRow): int { c.customerCount }

  /** `top_10_cities`. */
  function TopCities(rows: seq<Row>): (r: seq<CityRow>)
    ensures IsTop(CityCustomers(rows), CustomerCount, 10, r)
  {
    TopN(CityCustomers(rows), CustomerCount, 10)
  }

  /** `bottom_5_cities`. */
  function BottomCities(rows: seq<Row>): (r: seq<CityRow>)
    ensures IsBottom(CityCustomers(rows), CustomerCount, 5, r)
  {
    BottomN(CityCustomers(rows), CustomerCount, 5)
  }

  // Sales per product (lines 84-91)

  /** The (product id, category) pairs that key the product groups: rows
      without a category form no group. */
  ghost function ProductGroups(rows: seq<Row>): set<(string, string)> {
    set r | r in rows && r.category.Some? :: (r.productId, r.category.value)
  }

  lemma {:induction false} ProductGroupsSplit(rows: seq<Row>)
    requires rows != []
    ensures ProductGroups(rows) ==
      (match rows[0].category
       case Some(c) => {(rows[0].productId, c)}
       case None => {}) + ProductGroups(rows[1..])
  {
    assert rows == [rows[0]] + rows[1..];
  }

  /** The product key of each row that has a category, in row order. */
  function ProductPairs(rows: seq<Row>): (ps: seq<(string, string)>)
    ensures forall p :: p in ps <==> p in ProductGroups(rows)
  {
    if rows == [] then []
    else
      ProductGroupsSplit(rows);
      match rows[0].category
      case Some(c) => [(rows[0].productId, c)] + ProductPairs(rows[1..])
      case None => ProductPairs(rows[1..])
  }

  function ProductOf(rows: seq<Row>, p: (string, string)): ProductRow {
    var g := GroupOf(rows, ProductKey, (p.0, Some(p.1)));
    ProductRow(p.0, p.1, |g|, PriceSum(g))
  }

  function ProductKeys(rows: seq<Row>): (ps: seq<(string, string)>)
    ensures StrictlySorted(ps, PairLess)
    ensures forall p :: p in ps <==> p in ProductGroups(rows)
    ensures |ps| == |ProductGroups(rows)|
  {
    PairLessIsStrictTotal();
    SortedDistinctCount(ProductPairs(rows), PairLess);
    assert (set k | k in ProductPairs(rows)) == ProductGroups(rows);
    SortedDistinct(ProductPairs(rows), PairLess)
  }

  /** `product_sales`: one row per (product id, category) pair, in ascending
      key order, with the group's row count as `sales` (at least one) and
      its price sum as `revenue`. */
  function ProductSales(rows: seq<Row>): (t: seq<ProductRow>)
    ensures |t| == |ProductGroups(rows)|
    ensures forall i, j :: 0 <= i < j < |t| ==>
      PairLess((t[i].productId, t[i].category), (t[j].productId, t[j].category))
    ensures forall p :: p in ProductGroups(rows) <==>
      exists i :: 0 <= i < |t| && (t[i].productId, t[i].category) == p
    ensures forall i :: 0 <= i < |t| ==> t[i] == ProductOf(rows, (t[i].productId, t[i].category))
    ensures forall i :: 0 <= i < |t| ==> t[i].sales >= 1
  {
    var ps := ProductKeys(rows);
    var t := seq(|ps|, i requires 0 <= i < |ps| => ProductOf(rows, ps[i]));
    assert forall i :: 0 <= i < |t| ==> (t[i].productId, t[i].category) == ps[i];
    forall i | 0 <= i < |t| ensures t[i].sales >= 1 {
      ProductGroupNonEmpty(rows, ps[i]);
    }
    t
  }

  lemma ProductGroupNonEmpty(rows: seq<Row>, p: (string, string))
    requires p in ProductGroups(rows)
    ensures |GroupOf(rows, ProductKey, (p.0, Some(p.1)))| >= 1
  {
    var r :| r in rows && r.category.Some? && (r.productId, r.category.value) == p;
    assert ProductKey(r) == (p.0, Some(p.1));
    assert r in GroupOf(rows, ProductKey, (p.0, Some(p.1)));
  }

  function Sales(p: ProductRow): int { p.sales }

  /** `top_10_products`. */
  function TopProducts(rows: seq<Row>): (r: seq<ProductRow>)
    ensures IsTop(ProductSales(rows), Sales, 10, r)
  {
    TopN(ProductSales(rows), Sales, 10)
  }

  /** `bottom_10_products`, which keeps five rows. */
  function BottomProducts(rows: seq<Row>): (r: seq<ProductRow>)
    ensures IsBottom(ProductSales(rows), Sales, 5, r)
  {
    BottomN(ProductSales(rows), Sales, 5)
  }

  // Sales per category (lines 94-100)

  function CategoryOf(rows: seq<Row>, c: string): CategoryRow {
    var g := GroupOf(rows, CategoryKey, Some(c));
    CategoryRow(c, |g|, PriceSum(g), Nunique(g, ProductIdKey))
  }

  /** The category table before sorting: one row per category, in the order
      of the category options, with its row count (at least one), price sum
      and number of distinct products (at least one, at most the row
      count). */
  function CategoryTable(rows: seq<Row>): (t: seq<CategoryRow>)
    ensures |t| == |Filters.CategoryOptions(rows)|
    ensures forall i :: 0 <= i < |t| ==> t[i].category == Filters.CategoryOptions(rows)[i]
    ensures forall i :: 0 <= i < |t| ==> t[i] == CategoryOf(rows, t[i].category)
    ensures forall i :: 0 <= i < |t| ==> 1 <= t[i].productCount <= t[i].sales
  {
    var cs := Filters.CategoryOptions(rows);
    var t := seq(|cs|, i requires 0 <= i < |cs| => CategoryOf(rows, cs[i]));
    forall i | 0 <= i < |t| ensures 1 <= t[i].productCount <= t[i].sales {
      GroupNonEmpty(rows, CategoryKey, Some(cs[i]));
      NuniqueBounds(GroupOf(rows, CategoryKey, Some(cs[i])), ProductIdKey);
    }
    t
  }

  function CategorySalesCount(c: CategoryRow): int { c.sales }

  /** `category_sales`: the category table sorted by sales, highest first. */
  function CategorySales(rows: seq<Row>): (t: seq<CategoryRow>)
    ensures NonIncreasing(t, CategorySalesCount)
    ensures multiset(t) == multiset(CategoryTable(rows))
  {
    SortDesc(CategoryTable(rows), CategorySalesCount)
  }

  /** `top_10_categories`: the first ten rows of `category_sales`, a top-10
      selection of that sorted table and so of the category table. */
  function TopCategories(rows: seq<Row>): (r: seq<CategoryRow>)
    ensures r == CategorySales(rows)[..Min(10, |CategorySales(rows)|)]
    ensures IsTop(CategorySales(rows), CategorySalesCount, 10, r)
    ensures IsTop(CategoryTable(rows), CategorySalesCount, 10, r)
  {
    var sorted := CategorySales(rows);
    var r := sorted[..Min(10, |sorted|)];
    PrefixOfSortedIsTop(sorted, sorted, CategorySalesCount, 10);
    TopIgnoresGroupOrder(CategoryTable(rows), sorted, CategorySalesCount, 10, r);
    r
  }

  /** `bottom_10_categories`: `category_sales` sorted again, ascending. */
  function BottomCategories(rows: seq<Row>): (r: seq<CategoryRow>)
    ensures IsBottom(CategoryTable(rows), CategorySalesCount, 10, r)
  {
    var r := BottomN(CategorySales(rows), CategorySalesCount, 10);
    BottomIgnoresGroupOrder(CategoryTable(rows), CategorySales(rows), CategorySalesCount, 10, r);
    r
  }

  /** `generate_aggregations`. */
  function GenerateAggregations(rows: seq<Row>): (a: Aggregates)
    ensures a.daily == DailySales(rows)
    ensures IsTop(CityCustomers(rows), CustomerCount, 10, a.topCities)
    ensures IsBottom(CityCustomers(rows), CustomerCount, 5, a.bottomCities)
    ensures IsTop(ProductSales(rows), Sales, 10, a.topProducts)
    ensures IsBottom(ProductSales(rows), Sales, 5, a.bottomProducts)
    ensures IsTop(CategoryTable(rows), CategorySalesCount, 10, a.topCategories)
    ensures IsBottom(CategoryTable(rows), CategorySalesCount, 10, a.bottomCategories)
  {
    Aggregates(
      DailySales(rows),
      TopCities(rows), BottomCities(rows),
      TopProducts(rows), BottomProducts(rows),
      TopCategories(rows), BottomCategories(rows))
  }
}
