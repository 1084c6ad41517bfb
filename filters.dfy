/** The filter stage: the date-range filter, the category options offered to
    the user with their default selection, and the category filter
    (dashboard_proyek_copy.py, lines 45-61). */
module Filters {
  import opened Records
  import opened Ordering

  /** An inclusive range of order dates. */
  datatype DateRange = DateRange(start: Date, end: Date)

  /** The date picker's value turned into a range: two dates are the bounds,
      one date is a one-day range. Python indexes the first date of an empty
      value and fails, which is `None` here. */
  function ResolveRange(picked: seq<Date>): (r: Option<DateRange>)
    ensures r.None? <==> picked == []
    ensures |picked| == 2 ==> r == Some(DateRange(picked[0], picked[1]))
    ensures |picked| == 1 ==> r.Some? && r.value.start == r.value.end == picked[0]
  {
    if |picked| == 2 then Some(DateRange(picked[0], picked[1]))
    else if picked != [] then Some(DateRange(picked[0], picked[0]))
    else None
  }

  /** `start <= order_date <= end`. */
  predicate InRange(x: Row, range: DateRange) {
    range.start <= x.date <= range.end
  }

  /** The rows whose order date lies in the range, bounds included, each as
      often as in the input; the mask keeps their order (Records.KeepConcat). */
  function DateFilter(rows: seq<Row>, range: DateRange): (r: seq<Row>)
    ensures forall x :: x in r <==> x in rows && range.start <= x.date <= range.end
    ensures forall x :: multiset(r)[x] == (if InRange(x, range) then multiset(rows)[x] else 0)
  {
    KeepMultiplicity(rows, x => InRange(x, range));
    Keep(rows, x => InRange(x, range))
  }

  /** Picking a single day keeps exactly that day's group of rows. */
  lemma {:induction false} SingleDateSelectsOneDay(rows: seq<Row>, d: Date)
    ensures DateFilter(rows, ResolveRange([d]).value) == GroupOf(rows, DateKey, d)
  {
    var range := DateRange(d, d);
    assert ResolveRange([d]) == Some(range);
    if rows != [] {
      SingleDateSelectsOneDay(rows[1..], d);
      assert InRange(rows[0], range) == (DateKey(rows[0]) == d);
    }
  }

  /** The non-null categories of `rows`, in row order, with repeats. */
  function CategoryNames(rows: seq<Row>): (names: seq<string>)
    ensures forall c :: c in names <==> Some(c) in Values(rows, CategoryKey)
  {
    if rows == [] then []
    else
      ValuesSplit(rows, CategoryKey);
      match rows[0].category
      case Some(c) => [c] + CategoryNames(rows[1..])
      case None => CategoryNames(rows[1..])
  }

  lemma {:induction false} NoCategoryNoNames(rows: seq<Row>)
    requires forall x :: x in rows ==> x.category.None?
    ensures CategoryNames(rows) == []
  {
    if rows != [] {
      NoCategoryNoNames(rows[1..]);
    }
  }

  /** `sorted(df['product_category_name'].dropna().unique())`. */
  function CategoryOptions(rows: seq<Row>): (opts: seq<string>)
    ensures StrictlySorted(opts, StrLess)
    ensures forall c :: c in opts <==> Some(c) in Values(rows, CategoryKey)
  {
    StrLessIsStrictTotal();
    SortedDistinct(CategoryNames(rows), StrLess)
  }

  /** The first five options, or all of them when there are fewer. */
  function DefaultSelection(opts: seq<string>): (d: seq<string>)
    ensures |d| == Min(5, |opts|)
    ensures d == opts[..|d|]
  {
    if |opts| >= 5 then opts[..5] else opts
  }

  /** The default selection is made of options, in ascending order, and
      every option left out sorts after every option selected. */
  lemma DefaultSelectsSmallest(rows: seq<Row>)
    ensures var opts := CategoryOptions(rows);
      var d := DefaultSelection(opts);
      && (forall c :: c in d ==> c in opts)
      && StrictlySorted(d, StrLess)
      && (forall c, e :: c in opts && c !in d && e in d ==> StrLess(e, c))
  {
    var opts := CategoryOptions(rows);
    var d := DefaultSelection(opts);
    forall c, e | c in opts && c !in d && e in d ensures StrLess(e, c) {
      var i :| 0 <= i < |opts| && opts[i] == c;
      var j :| 0 <= j < |d| && d[j] == e;
      assert opts[j] == e;
    }
  }

  /** `isin(selected)` on the category column: a null category never
      matches. */
  predicate CategoryIn(x: Row, selected: seq<string>) {
    x.category.Some? && x.category.value in selected
  }

  /** Applied only when something is selected: an empty selection keeps
      every row. */
  function CategoryFilter(rows: seq<Row>, selected: seq<string>): (r: seq<Row>)
    ensures selected == [] ==> r == rows
    ensures selected != [] ==> forall x :: x in r <==> x in rows && CategoryIn(x, selected)
    ensures selected != [] ==>
      forall x :: multiset(r)[x] == (if CategoryIn(x, selected) then multiset(rows)[x] else 0)
  {
    if selected == [] then rows
    else
      KeepMultiplicity(rows, x => CategoryIn(x, selected));
      Keep(rows, x => CategoryIn(x, selected))
  }

  /** Selecting every offered category keeps the table unchanged, as an empty
      selection does, exactly when all rows have a category or none has. */
  lemma SelectingAllOptions(rows: seq<Row>)
    ensures CategoryFilter(rows, CategoryOptions(rows)) == rows <==>
      (forall x :: x in rows ==> x.category.Some?) ||
      (forall x :: x in rows ==> x.category.None?)
  {
    var opts := CategoryOptions(rows);
    if forall x :: x in rows ==> x.category.Some? {
      if opts != [] {
        forall x | x in rows ensures CategoryIn(x, opts) {
          assert CategoryKey(x) in Values(rows, CategoryKey);
        }
        KeepAll(rows, x => CategoryIn(x, opts));
      }
    } else if forall x :: x in rows ==> x.category.None? {
      NoCategoryNoNames(rows);
    } else {
      var x :| x in rows && x.category.None?;
      var y :| y in rows && y.category.Some?;
      assert y.category.value in opts by {
        assert CategoryKey(y) in Values(rows, CategoryKey);
      }
      assert x !in CategoryFilter(rows, opts);
    }
  }
}
