# E-commerce dashboard: filter and aggregation core

This project models the data pipeline of a one-page e-commerce dashboard, and
proves properties of it. The dashboard loads a table of order items. Each row
has an order id, an order item id, a product id, a nullable product category,
a customer id, a customer city, an order date and a price. The user picks a
date range and some product categories. The dashboard then shows:

- a daily trend of distinct orders and revenue;
- the ten cities with the most distinct customers, and the five with the fewest;
- the ten best-selling (product, category) pairs, and the five worst-selling;
- the ten categories with the most sales, and the ten with the fewest;
- three summary numbers: total orders, total revenue, and revenue per order.

Everything in the pipeline is a pure computation, so the model is made of
datatypes, functions and lemmas:

- `Ordering`: Python's string order, as code-point lexicographic order. It
  also holds the sorted, duplicate-free key list that `sorted(...unique())`
  and a pandas group-by produce.
- `Records`: the row type, boolean masks (`Keep`), group selection,
  `nunique` and `sum`.
- `Ranking`: `sort_values(...).head(n)`. pandas' default sort is not stable,
  so the order among equal scores is not fixed. `IsTop` and `IsBottom` state
  what any correct result must satisfy. `TopN` and `BottomN` compute one
  result that satisfies them.
- `Filters`: the date picker's value, the date filter, the category
  options, the default category selection and the category filter.
- `Aggregations`: the daily, city, product and category tables, and
  `generate_aggregations`.
- `Summary`: the three metrics. It also proves that the revenue summed over
  the daily table equals the price sum of the filtered rows, and that the
  orders summed over it lie between the number of distinct orders and the
  number of rows (an order whose items fall on two days counts twice).
- `Chart`: which days of the trend chart get a date label, and the
  shortened product ids.
- `Dashboard`: one run of the script, from the widget values to the page.

Dates are day numbers. Prices are integers in the currency's smallest unit.
Revenue per order is exact rational division.

## Model

| member | source | states |
|---|---|---|
| `Filters.ResolveRange` | dashboard_proyek_copy.py:45 | two picked dates are the bounds; one picked date gives a range with start == end; an empty value is the failure case |
| `Filters.DateFilter` | dashboard_proyek_copy.py:48 | keeps exactly the rows with start <= order_date <= end, each row as many times as it occurs in the input |
| `Filters.SingleDateSelectsOneDay` | dashboard_proyek_copy.py:45-48 | picking one date keeps exactly that day's rows, in table order |
| `Records.KeepConcat` | dashboard_proyek_copy.py:48 | a boolean mask commutes with concatenation, so kept rows stay in their original relative order |
| `Records.Keep` | dashboard_proyek_copy.py:61 | a row is kept if and only if it is in the input and the mask holds for it; the result is never longer than the input |
| `Records.KeepMultiplicity` | dashboard_proyek_copy.py:61 | each row is kept as often as it occurs, or dropped entirely |
| `Filters.CategoryNames` | dashboard_proyek_copy.py:52 | `dropna()`: the names it lists are exactly the non-null categories of the rows |
| `Filters.CategoryOptions` | dashboard_proyek_copy.py:52 | the options are strictly increasing in string order, so they have no duplicates, and they are exactly the non-null categories of the rows |
| `Ordering.StrLessIsStrictTotal` | dashboard_proyek_copy.py:52 | code-point lexicographic string order, as Python's `sorted` uses it, is irreflexive, transitive and total |
| `Ordering.Insert` | dashboard_proyek_copy.py:52 | inserting into a strictly sorted list keeps it strictly sorted, and the elements become the old ones plus the new one |
| `Ordering.SortedDistinct` | dashboard_proyek_copy.py:52 | `sorted(unique(...))`: strictly sorted, with exactly the input's values |
| `Ordering.SortedDistinctCount` | dashboard_proyek_copy.py:52 | the sorted key list has one entry per distinct value |
| `Filters.DefaultSelection` | dashboard_proyek_copy.py:56 | the default is the first min(5, number of options) options |
| `Filters.DefaultSelectsSmallest` | dashboard_proyek_copy.py:52-56 | the default contains only options, in ascending order, and every option left out sorts after every selected one |
| `Filters.CategoryFilter` | dashboard_proyek_copy.py:60-61 | an empty selection leaves the rows unchanged; a non-empty one keeps exactly the rows whose category is non-null and selected, each as often as before |
| `Filters.SelectingAllOptions` | dashboard_proyek_copy.py:52-61 | selecting every offered category leaves the rows unchanged if and only if all rows have a category or none has |
| `Dashboard.FilteredRows` | dashboard_proyek_copy.py:48-61 | a row survives both filters if and only if it is in the table, its date is in range, and the selection is empty or contains its category |
| `Records.NuniqueBounds` | dashboard_proyek_copy.py:68 | `nunique` of a non-empty group is at least 1 and at most the group's row count |
| `Aggregations.DailySales` | dashboard_proyek_copy.py:67-71 | one row per distinct order date, with dates strictly increasing; each row's order count is the number of distinct order ids that day, between 1 and the day's row count; its revenue is the day's price sum |
| `Summary.GroupTotalsPartition` | dashboard_proyek_copy.py:67-69 | group-by partitions the rows: summing a column's group totals over all keys gives the column's total |
| `Summary.DailyTotals` | dashboard_proyek_copy.py:141-142 | summed revenue equals the price sum of the filtered rows; summed orders lie between the number of distinct orders and the number of rows, and are at least 1 for a non-empty table |
| `Aggregations.CityCustomers` | dashboard_proyek_copy.py:74-75 | one row per distinct city in ascending name order; each customer count is the number of distinct customers in that city, between 1 and the city's row count |
| `Aggregations.TopCities` | dashboard_proyek_copy.py:74-76 | at most 10 cities, counts non-increasing, taken from the city table; no city left out has a higher count than a city kept |
| `Aggregations.BottomCities` | dashboard_proyek_copy.py:79-81 | at most 5 cities, counts non-decreasing, taken from the city table; no city left out has a lower count than a city kept |
| `Aggregations.ProductPairs` | dashboard_proyek_copy.py:84 | the group keys are exactly the (product id, category) pairs of rows that have a category |
| `Aggregations.ProductSales` | dashboard_proyek_copy.py:84-87 | one row per (product id, non-null category) pair, in ascending key order; sales is the group's row count, at least 1; revenue is its price sum |
| `Aggregations.TopProducts` | dashboard_proyek_copy.py:88 | at most 10 products, sales non-increasing; none left out sells more than one kept |
| `Aggregations.BottomProducts` | dashboard_proyek_copy.py:91 | at most 5 products, sales non-decreasing; none left out sells less than one kept |
| `Aggregations.CategoryTable` | dashboard_proyek_copy.py:94-97 | one row per category option; each row's product count is at least 1 and at most its sales |
| `Aggregations.CategorySales` | dashboard_proyek_copy.py:98 | the category table reordered by sales, highest first |
| `Aggregations.TopCategories` | dashboard_proyek_copy.py:98-99 | the first 10 rows of `category_sales`; they are a top-10 selection of that sorted table and so of the category table |
| `Aggregations.BottomCategories` | dashboard_proyek_copy.py:100 | re-sorting the sorted table ascending and keeping 10 rows gives a bottom-10 selection of the categories |
| `Aggregations.GenerateAggregations` | dashboard_proyek_copy.py:65-102 | the seven tables: the daily table, and each top or bottom table a valid selection of its group table with its own n |
| `Ranking.SortDesc` | dashboard_proyek_copy.py:76 | `sort_values(ascending=False)`: a permutation of the input, with scores non-increasing |
| `Ranking.InsertDesc` | dashboard_proyek_copy.py:76 | inserting into a non-increasing list keeps it non-increasing and adds exactly the new element |
| `Ranking.TopN` | dashboard_proyek_copy.py:76 | min(n, groups) rows with scores non-increasing, forming a sub-multiset of the groups; no omitted group scores above a kept one |
| `Ranking.BottomN` | dashboard_proyek_copy.py:81 | min(n, groups) rows with scores non-decreasing, forming a sub-multiset of the groups; no omitted group scores below a kept one |
| `Ranking.PrefixOfSortedIsTop` | dashboard_proyek_copy.py:98-99 | the first n rows of any descending sort form a top-n selection |
| `Ranking.TopKeepsAllWhenFew` | dashboard_proyek_copy.py:76 | with no more groups than n, a top-n table holds every group: fewer groups is not an error |
| `Ranking.BottomKeepsAllWhenFew` | dashboard_proyek_copy.py:81 | with no more groups than n, a bottom-n table holds every group |
| `Ranking.BottomIgnoresGroupOrder` | dashboard_proyek_copy.py:100 | a bottom-n selection of a reordered table is one of the original table |
| `Ranking.TopIgnoresGroupOrder` | dashboard_proyek_copy.py:99 | a top-n selection of a reordered table is one of the original table |
| `Summary.MetricsOf` | dashboard_proyek_copy.py:141-143 | orders and revenue are the daily column sums; when orders > 0, average × orders == revenue; otherwise the average is 0 |
| `Dashboard.ReportMetrics` | dashboard_proyek_copy.py:141-143 | for a non-empty filtered table: revenue is the rows' price sum, orders are between 1 and the row count, and the average is exact |
| `Dashboard.Render` | dashboard_proyek_copy.py:105-143 | an empty picker value fails; the aggregates are computed if and only if the filtered rows are non-empty; then they are those of the filtered rows, the metrics are `MetricsOf` their daily table, revenue is the rows' price sum, orders lie between 1 and the row count, and the average is exact |
| `Chart.Stride` | dashboard_proyek_copy.py:125 | `range(start, n, step)`: element i is start + i·step and below n, and one more step would reach n |
| `Chart.TickStep` | dashboard_proyek_copy.py:123-124 | more than 20 days: step = n // 10, at least 2 (10·step <= n < 10·(step+1)); otherwise 1 |
| `Chart.TickPositions` | dashboard_proyek_copy.py:123-129 | ticks are 0, step, 2·step, … below n, with none left out; up to 20 days every index is a tick; beyond that 10 to 15 ticks, fewer than n |
| `Chart.TickCount` | dashboard_proyek_copy.py:124-125 | the number of multiples of n // 10 below n, for n > 20, lies between 10 and 15 |
| `Chart.TickPositionsIncreasing` | dashboard_proyek_copy.py:125 | tick positions are strictly increasing |
| `Chart.TickDates` | dashboard_proyek_copy.py:126-129 | label i is the date of the daily row at tick position i |
| `Chart.TickDatesChronological` | dashboard_proyek_copy.py:126 | the labels under the trend chart are in strictly increasing date order |
| `Chart.ShortId` | dashboard_proyek_copy.py:179 | the label is the id's first min(10, length) characters followed by "..." |
| `Chart.ShortIdCollision` | dashboard_proyek_copy.py:179-181 | two products share a label if and only if their ids agree on the first ten characters; ids of at most ten characters never share one |

## Left out

- Page setup, sidebar widgets, metrics widgets, data frames, warnings and the detail-view selector (lines 9-13, 28-42, 53-55, 106, 112-122, 131-140, 145-236) are user-interface calls. Only the values the widgets return are modelled, as parameters of `Dashboard.Render`.
- Figures, bar plots, legends, text labels and the `xlim` scale at line 200 are plotting. The scale is also floating point.
- Reading the CSV file and parsing timestamps (lines 17-23) are file I/O and a library parser. Rows arrive with `order_date` already derived.
- The `@st.cache_data` memoisation (lines 16, 64) does not change any result.
- The `short_id` column is added in place (lines 179, 194), and `filtered_df` is rebound (line 61). Both are modelled as fresh values.
- Ids, cities and `order_item_id` are never null here. pandas would drop rows with a null city or product id from those groups, and `count` would skip a null `order_item_id`.
- Summary.MetricsOf: price sums and the average are exact (integers and a rational). The source uses floating-point sums and division, so rounding is not modelled.
- Ranking.TopN, Ranking.BottomN: these fix one order among equal scores. pandas' default sort leaves that order open, so every statement about the tables is made through `IsTop` and `IsBottom`, which do not fix it.
- The variable `bottom_10_products` holds five rows (line 91). The model follows the code.
- One might expect an empty category selection to give the same rows as selecting every option. It does not when some rows have a null category and others do not: only the empty selection keeps the null-category rows, because no filter is applied then (line 60), while `isin` never matches a null (line 61). `Filters.SelectingAllOptions` states exactly when the two agree.
