/** The order-item table the dashboard works on, and the table operations it
    is built from: boolean masks, group selection, `nunique` and `sum`. */
module Records {

  datatype Option<T> = None | Some(value: T)

  /** A calendar date as a day number; later days have larger numbers. */
  type Date = int

  /** One row of the order-item table. `category` is the nullable
      `product_category_name`; `date` is the `order_date` column, the date
      part of `order_purchase_timestamp`; `price` is in the currency's
      smallest unit. */
  datatype Row = Row(
    orderId: string,
    orderItemId: int,
    productId: string,
    category: Option<string>,
    customerId: string,
    city: string,
    date: Date,
    price: int)

  function Min(a: int, b: int): int {
    if a <= b then a else b
  }

  /** The rows of `s` for which the mask `p` is true, in their original order. */
  function Keep(s: seq<Row>, p: Row -> bool): (r: seq<Row>)
    ensures |r| <= |s|
    ensures forall x :: x in r <==> x in s && p(x)
  {
    if s == [] then []
    else if p(s[0]) then [s[0]] + Keep(s[1..], p)
    else Keep(s[1..], p)
  }

  /** The mask keeps each row as often as it occurs, or drops it entirely. */
  lemma {:induction false} KeepMultiplicity(s: seq<Row>, p: Row -> bool)
    ensures forall x :: multiset(Keep(s, p))[x] == if p(x) then multiset(s)[x] else 0
  {
    if s != [] {
      KeepMultiplicity(s[1..], p);
      assert s == [s[0]] + s[1..];
    }
  }

  /** A mask commutes with concatenation: kept rows stay in their original
      relative order. */
  lemma {:induction false} KeepConcat(a: seq<Row>, b: seq<Row>, p: Row -> bool)
    ensures Keep(a + b, p) == Keep(a, p) + Keep(b, p)
  {
    if a == [] {
      assert a + b == b;
    } else {
      var ab := a + b;
      assert ab != [] && ab[0] == a[0] && ab[1..] == a[1..] + b;
      KeepConcat(a[1..], b, p);
      if p(a[0]) {
        calc {
          Keep(ab, p);
          [a[0]] + Keep(a[1..] + b, p);
          [a[0]] + (Keep(a[1..], p) + Keep(b, p));
          ([a[0]] + Keep(a[1..], p)) + Keep(b, p);
        }
      }
    }
  }

  /** A mask that holds on every row keeps the table unchanged. */
  lemma {:induction false} KeepAll(s: seq<Row>, p: Row -> bool)
    requires forall x :: x in s ==> p(x)
    ensures Keep(s, p) == s
  {
    if s != [] {
      KeepAll(s[1..], p);
      assert s == [s[0]] + s[1..];
    }
  }

  function DateKey(r: Row): Date { r.date }
  function CityKey(r: Row): string { r.city }
  function OrderKey(r: Row): string { r.orderId }
  function CustomerKey(r: Row): string { r.customerId }
  function ProductIdKey(r: Row): string { r.productId }
  function CategoryKey(r: Row): Option<string> { r.category }
  function ProductKey(r: Row): (string, Option<string>) { (r.productId, r.category) }

  /** The group of `rows` whose `key` column equals `k`. */
  function GroupOf<K(==)>(rows: seq<Row>, key: Row -> K, k: K): seq<Row> {
    Keep(rows, r => key(r) == k)
  }

  /** The set of values of column `key` in `rows`. */
  function Values<K(==)>(rows: seq<Row>, key: Row -> K): set<K> {
    set r | r in rows :: key(r)
  }

  /** `nunique`: the number of distinct values of column `key`. */
  function Nunique<K(==)>(rows: seq<Row>, key: Row -> K): nat {
    |Values(rows, key)|
  }

  /** Column `key` of `rows`, one entry per row. */
  function Column<K>(rows: seq<Row>, key: Row -> K): (c: seq<K>)
    ensures |c| == |rows|
    ensures forall i :: 0 <= i < |rows| ==> c[i] == key(rows[i])
  {
    seq(|rows|, i requires 0 <= i < |rows| => key(rows[i]))
  }

  lemma ColumnValues<K>(rows: seq<Row>, key: Row -> K)
    ensures forall k :: k in Column(rows, key) <==> k in Values(rows, key)
  {
    var c := Column(rows, key);
    forall k | k in Values(rows, key) ensures k in c {
      var r :| r in rows && key(r) == k;
      var i :| 0 <= i < |rows| && rows[i] == r;
      assert c[i] == k;
    }
  }

  function Price(r: Row): int { r.price }
  function One(r: Row): int { 1 }

  /** `sum` of the column that `w` reads, over `rows`. */
  function Total(rows: seq<Row>, w: Row -> int): int {
    if rows == [] then 0 else w(rows[0]) + Total(rows[1..], w)
  }

  /** `sum` of the price column. */
  function PriceSum(rows: seq<Row>): int {
    Total(rows, Price)
  }

  /** Counting the rows is summing a column of ones. */
  lemma {:induction false} TotalOfOnes(rows: seq<Row>)
    ensures Total(rows, One) == |rows|
  {
    if rows != [] {
      TotalOfOnes(rows[1..]);
    }
  }

  lemma {:induction false} ValuesSplit<K>(rows: seq<Row>, key: Row -> K)
    requires rows != []
    ensures Values(rows, key) == {key(rows[0])} + Values(rows[1..], key)
  {
    assert rows == [rows[0]] + rows[1..];
  }

  /** A non-empty group has at least one and at most as many distinct values
      of a column as it has rows. */
  lemma {:induction false} NuniqueBounds<K>(rows: seq<Row>, key: Row -> K)
    ensures rows != [] ==> 1 <= Nunique(rows, key)
    ensures Nunique(rows, key) <= |rows|
  {
    if rows != [] {
      ValuesSplit(rows, key);
      NuniqueBounds(rows[1..], key);
    }
  }

}
