/** One run of the dashboard script from the widget values to what the page
    shows (dashboard_proyek_copy.py, lines 45-61, 105-109 and 141-143). The
    widgets are parameters: `picked` is what the date picker returns and
    `selected` what the category multiselect returns. */
module Dashboard {
  import opened Records
  import opened Filters
  import opened Aggregations
  import opened Summary

  /** The page: the date picker's empty value fails at line 45, an empty
      filtered table shows a warning, anything else the report. */
  datatype Page =
    | PickerError
    | NoData
    | Report(range: DateRange, aggregates: Aggregates, metrics: Metrics)

  /** `filtered_df` after line 61. */
  function FilteredRows(table: seq<Row>, range: DateRange, selected: seq<string>): (r: seq<Row>)
    ensures forall x :: x in r <==>
      x in table && InRange(x, range) && (selected == [] || CategoryIn(x, selected))
  {
    CategoryFilter(DateFilter(table, range), selected)
  }

  /** The page for the widget values: aggregates are computed only for a
      non-empty filtered table, and then the metrics are those summed from
      its daily table: the revenue is the price sum of the filtered rows,
      there is at least one order and no more than rows, and the average is
      exactly revenue per order. */
  function Render(table: seq<Row>, picked: seq<Date>, selected: seq<string>): (p: Page)
    ensures p.PickerError? <==> picked == []
    ensures picked != [] ==>
      (p.NoData? <==> FilteredRows(table, ResolveRange(picked).value, selected) == [])
    ensures p.Report? ==>
      var rows := FilteredRows(table, p.range, selected);
      && Some(p.range) == ResolveRange(picked)
      && p.aggregates == GenerateAggregations(rows)
      && p.metrics == MetricsOf(p.aggregates.daily)
      && p.metrics.totalRevenue == PriceSum(rows)
      && 1 <= p.metrics.totalOrders <= |rows|
      && AverageIsRevenuePerOrder(p.metrics)
  {
    match ResolveRange(picked)
    case None => PickerError
    case Some(range) =>
      var rows := FilteredRows(table, range, selected);
      if rows == [] then NoData
      else
        var metrics := MetricsOf(DailySales(rows));
        ReportMetrics(rows);
        Report(range, GenerateAggregations(rows), metrics)
  }

  /** The metrics of a non-empty filtered table. */
  lemma ReportMetrics(rows: seq<Row>)
    requires rows != []
    ensures var m := MetricsOf(DailySales(rows));
      && m.totalRevenue == PriceSum(rows)
      && 1 <= m.totalOrders <= |rows|
      && AverageIsRevenuePerOrder(m)
  {
    DailyTotals(rows);
  }
}
