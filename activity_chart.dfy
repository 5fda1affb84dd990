/** The weekly activity chart: the common scale, the width of the drawing and
    the position and height of each day's two bars and label. Heights are
    exact reals rather than floating point. */
module ActivityChart {
  import opened ProgressTracker

  const ChartHeight: nat := 150
  const BarWidth: nat := 12
  const BarGap: nat := 20

  function Max(a: nat, b: nat): nat {
    if a < b then b else a
  }

  /** `maxValue`: the largest count of the week, but at least 5. */
  function MaxValue(data: seq<DayCounts>): (m: nat)
    ensures m >= 5
    ensures forall i :: 0 <= i < |data| ==> data[i].exercises <= m && data[i].photos <= m
    ensures m == 5 || exists i :: 0 <= i < |data| && (m == data[i].exercises || m == data[i].photos)
    decreases |data|
  {
    if data == [] then 5
    else
      var last := data[|data| - 1];
      var init := data[..|data| - 1];
      var m := MaxValue(init);
      assert forall i :: 0 <= i < |init| ==> init[i] == data[i];
      Max(m, Max(last.exercises, last.photos))
  }

  /** `chartWidth` */
  function ChartWidth(data: seq<DayCounts>): nat {
    |data| * (BarWidth * 2 + BarGap)
  }

  /** One day's drawing: the exercise bar at `x`, the photo bar and the label
      at `x + barWidth`. */
  datatype DayLayout = DayLayout(
    x: nat, exerciseY: real, exerciseHeight: real,
    photoX: nat, photoY: real, photoHeight: real,
    labelX: nat)

  /** `(count / maxValue) * chartHeight`: no count draws a negative bar, an
      empty day draws none and a day at the scale reaches the top. */
  function BarHeight(count: nat, maxValue: nat): (h: real)
    requires maxValue > 0
    ensures 0.0 <= h
    ensures count == 0 ==> h == 0.0
    ensures count == maxValue ==> h == ChartHeight as real
  {
    (count as real / maxValue as real) * ChartHeight as real
  }

  function DayAt(data: seq<DayCounts>, index: nat): DayLayout
    requires index < |data|
  {
    var m := MaxValue(data);
    var x := index * (BarWidth * 2 + BarGap);
    var eh := BarHeight(data[index].exercises, m);
    var ph := BarHeight(data[index].photos, m);
    DayLayout(x, ChartHeight as real - eh, eh, x + BarWidth, ChartHeight as real - ph, ph, x + BarWidth)
  }

  /** The chart's days, in order: day `i` starts at `44 i`, its photo bar and
      label one bar width to the right; both bars stand on the baseline, scaled
      from the day's counts, within the chart's height and width. */
  function Layout(data: seq<DayCounts>): (r: seq<DayLayout>)
    ensures |r| == |data|
    ensures forall i :: 0 <= i < |r| ==>
      && r[i].x == 44 * i && r[i].photoX == r[i].x + 12 && r[i].labelX == r[i].x + 12
      && r[i].photoX + BarWidth <= ChartWidth(data)
    ensures forall i :: 0 <= i < |r| ==>
      && r[i].exerciseHeight == BarHeight(data[i].exercises, MaxValue(data))
      && r[i].photoHeight == BarHeight(data[i].photos, MaxValue(data))
      && 0.0 <= r[i].exerciseHeight <= 150.0 && 0.0 <= r[i].photoHeight <= 150.0
      && r[i].exerciseY + r[i].exerciseHeight == 150.0 && r[i].photoY + r[i].photoHeight == 150.0
  {
    assert forall i :: 0 <= i < |data| ==>
      && 0.0 <= DayAt(data, i).exerciseHeight <= 150.0 && 0.0 <= DayAt(data, i).photoHeight <= 150.0
      && DayAt(data, i).photoX + BarWidth <= ChartWidth(data)
    by {
      forall i | 0 <= i < |data|
        ensures 0.0 <= DayAt(data, i).exerciseHeight <= 150.0 && 0.0 <= DayAt(data, i).photoHeight <= 150.0
        ensures DayAt(data, i).photoX + BarWidth <= ChartWidth(data)
      {
        DayPlacement(data, i);
      }
    }
    seq(|data|, i requires 0 <= i < |data| => DayAt(data, i))
  }

  /** A count no larger than the scale gives a height between 0 and the
      chart's height, reaching the top exactly at the scale. */
  lemma BarHeightBounds(count: nat, m: nat)
    requires 0 < m && count <= m
    ensures 0.0 <= BarHeight(count, m) <= ChartHeight as real
    ensures BarHeight(count, m) == ChartHeight as real <==> count == m
  {
    var q := count as real / m as real;
    assert q * m as real == count as real;
    assert q <= 1.0 by {
      if q > 1.0 {
        assert q * m as real > 1.0 * m as real;
      }
    }
  }

  /** A larger count never yields a shorter bar. */
  lemma BarHeightMonotone(a: nat, b: nat, m: nat)
    requires 0 < m && a <= b
    ensures BarHeight(a, m) <= BarHeight(b, m)
  {
    var qa, qb := a as real / m as real, b as real / m as real;
    assert qa * m as real == a as real && qb * m as real == b as real;
    assert (qb - qa) * m as real == (b - a) as real;
  }

  /** Day `i` starts at `44 i`, its photo bar and label sit one bar width to
      the right, both bars stand on the baseline with heights within the chart,
      and the day fits inside the chart's width. */
  lemma DayPlacement(data: seq<DayCounts>, i: nat)
    requires i < |data|
    ensures DayAt(data, i).x == 44 * i
    ensures DayAt(data, i).photoX == DayAt(data, i).x + 12 && DayAt(data, i).labelX == DayAt(data, i).x + 12
    ensures 0.0 <= DayAt(data, i).exerciseHeight <= 150.0 && 0.0 <= DayAt(data, i).photoHeight <= 150.0
    ensures DayAt(data, i).exerciseY + DayAt(data, i).exerciseHeight == 150.0
    ensures DayAt(data, i).photoY + DayAt(data, i).photoHeight == 150.0
    ensures DayAt(data, i).photoX + BarWidth <= ChartWidth(data)
  {
    var m := MaxValue(data);
    BarHeightBounds(data[i].exercises, m);
    BarHeightBounds(data[i].photos, m);
    assert (i + 1) * 44 <= |data| * 44;
  }

  /** The chart is 44 units wide per day, and with no data it has the
      minimum scale of 5. */
  lemma ChartWidthAndScale(data: seq<DayCounts>)
    ensures ChartWidth(data) == 44 * |data|
    ensures data == [] ==> MaxValue(data) == 5
  {
  }
}
