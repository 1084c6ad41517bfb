/** The two computations inside the charts: which x-axis positions of the
    sales trend get a date label (dashboard_proyek_copy.py, lines 123-129),
    and the shortened product id on the product charts (line 179). */
module Chart {
  import opened Records
  import Aggregations

  /** `range(start, n, step)`: the positions start, start + step, ... that
      lie below n; the next one would not. */
  function Stride(start: nat, n: nat, step: nat): (s: seq<nat>)
    requires step >= 1
    ensures forall i :: 0 <= i < |s| ==> s[i] == start + i * step && s[i] < n
    ensures start + |s| * step >= n
    decreases n - start
  {
    if start >= n then []
    else
      var rest := Stride(start + step, n, step);
      assert start + (|rest| + 1) * step == start + step + |rest| * step;
      assert forall i :: 0 < i < |rest| + 1 ==> start + i * step == start + step + (i - 1) * step;
      [start] + rest
  }

  lemma MulMonotonic(a: int, b: int, c: nat)
    ensures a <= b ==> a * c <= b * c
    ensures a < b && c > 0 ==> a * c < b * c
  {
  }

  /** The index step between labelled days: `len(daily_sales) // 10` when
      there are more than 20 days; every day is labelled otherwise. */
  function TickStep(n: nat): (step: nat)
    ensures n <= 20 ==> step == 1
    ensures n > 20 ==> 2 <= step && step * 10 <= n < (step + 1) * 10
  {
    if n > 20 then n / 10 else 1
  }

  /** The labelled positions among `n` days: `range(n)[::step]`, that is
      0, step, 2 * step, ... below n and no multiple of the step left out.
      Up to 20 days every position is labelled; beyond that between 10 and
      15 positions are, fewer than the days. */
  function TickPositions(n: nat): (ts: seq<nat>)
    ensures forall i :: 0 <= i < |ts| ==> ts[i] == i * TickStep(n) && ts[i] < n
    ensures |ts| * TickStep(n) >= n
    ensures n <= 20 ==> |ts| == n
    ensures n > 20 ==> 10 <= |ts| <= 15 && |ts| < n
  {
    var step := TickStep(n);
    var ts := Stride(0, n, step);
    assert |ts| > 0 ==> ts[|ts| - 1] == (|ts| - 1) * step < n;
    TickCount(n, |ts|, step);
    ts
  }

  /** Counting the multiples of the step below n. */
  lemma TickCount(n: nat, count: nat, step: nat)
    requires step == TickStep(n)
    requires count * step >= n
    requires count > 0 ==> (count - 1) * step < n
    ensures n <= 20 ==> count == n
    ensures n > 20 ==> 10 <= count <= 15
  {
    assert (count - 1) * step == count * step - step;
    MulMonotonic(count, 9, step);
    MulMonotonic(15, count - 1, step);
  }

  /** Positions further right on the axis are further right in the list. */
  lemma TickPositionsIncreasing(n: nat)
    ensures var ts := TickPositions(n);
      forall i, j :: 0 <= i < j < |ts| ==> ts[i] < ts[j]
  {
    var ts := TickPositions(n);
    forall i, j | 0 <= i < j < |ts| ensures ts[i] < ts[j] {
      MulMonotonic(i, j, TickStep(n));
    }
  }

  /** The dates written under the labelled positions. */
  function TickDates(daily: seq<Aggregations.DailyRow>): (labels: seq<Date>)
    ensures |labels| == |TickPositions(|daily|)|
    ensures forall i :: 0 <= i < |labels| ==>
      TickPositions(|daily|)[i] < |daily| && labels[i] == daily[TickPositions(|daily|)[i]].date
  {
    var ts := TickPositions(|daily|);
    seq(|ts|, i requires 0 <= i < |ts| => daily[ts[i]].date)
  }

  /** The labels of the trend chart run in calendar order. */
  lemma TickDatesChronological(rows: seq<Row>)
    ensures var labels := TickDates(Aggregations.DailySales(rows));
      forall i, j :: 0 <= i < j < |labels| ==> labels[i] < labels[j]
  {
    TickPositionsIncreasing(|Aggregations.DailySales(rows)|);
  }

  /** `product_id.str[:10] + '...'`. */
  function ShortId(id: string): (s: string)
    ensures |s| == Min(10, |id|) + 3
    ensures s[|s| - 3..] == "..."
    ensures forall i :: 0 <= i < |s| - 3 ==> s[i] == id[i]
  {
    id[..Min(10, |id|)] + "..."
  }

  /** Two products get the same label exactly when their ids agree up to
      the tenth character; ids of at most ten characters never share one. */
  lemma ShortIdCollision(a: string, b: string)
    ensures ShortId(a) == ShortId(b) <==> a[..Min(10, |a|)] == b[..Min(10, |b|)]
    ensures |a| <= 10 && |b| <= 10 ==> (ShortId(a) == ShortId(b) <==> a == b)
  {
    var sa, sb := ShortId(a), ShortId(b);
    if sa == sb {
      assert a[..Min(10, |a|)] == sa[..|sa| - 3] == sb[..|sb| - 3] == b[..Min(10, |b|)];
    }
    if |a| <= 10 {
      assert a[..Min(10, |a|)] == a;
    }
    if |b| <= 10 {
      assert b[..Min(10, |b|)] == b;
    }
  }
}
