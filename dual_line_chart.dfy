/**
 * The data behind the "Case Volume & Efficiency Overtime" chart of the
 * operating-room dashboard (src/components/charts/DualLineChart.tsx): a fixed
 * hourly table, a weekly series generated once from random draws, the choice
 * between them, the x-axis tick labels and the two y-axis domains.
 *
 * The random draws `Math.floor(Math.random() * N)` are the parameter `draws`:
 * whole numbers `k` with `0 <= k < N`, grouped by day in the order the
 * generator draws them.
 */
module DualLineChart {
  import opened Decimal

  /** One plotted point: a time label, a case count (left axis) and an efficiency percentage (right axis). */
  datatype Point = Point(time: string, cases: int, efficiency: int)

  /** The two views the chart offers. */
  datatype ViewType = Daily | Weekly

  /** An inclusive value range of a y axis. */
  datatype Domain = Domain(lo: int, hi: int) {
    predicate Contains(x: int) {
      lo <= x <= hi
    }
  }

  // ---------------------------------------------------------------------------
  // The hourly table
  // ---------------------------------------------------------------------------

  /** Case volume and efficiency for each hour of the day. */
  const HourlyData: seq<Point> := [
    Point("00:00", 5, 65),
    Point("01:00", 3, 70),
    Point("02:00", 2, 75),
    Point("03:00", 1, 72),
    Point("04:00", 1, 68),
    Point("05:00", 2, 70),
    Point("06:00", 4, 75),
    Point("07:00", 8, 78),
    Point("08:00", 15, 80),
    Point("09:00", 22, 85),
    Point("10:00", 25, 90),
    Point("11:00", 27, 92),
    Point("12:00", 24, 88),
    Point("13:00", 21, 82),
    Point("14:00", 18, 80),
    Point("15:00", 15, 78),
    Point("16:00", 13, 75),
    Point("17:00", 11, 72),
    Point("18:00", 9, 70),
    Point("19:00", 7, 68),
    Point("20:00", 6, 65),
    Point("21:00", 5, 62),
    Point("22:00", 4, 60),
    Point("23:00", 3, 58)
  ]

  const HoursPerDay: nat := 24

  /** The label of hour `h`: its two-digit number followed by ":00". */
  function HourLabel(h: nat): string
    requires h < HoursPerDay
  {
    [DigitChar(h / 10), DigitChar(h % 10), ':', '0', '0']
  }

  /** An hour label is five characters: two digits that denote the hour, then ":00". */
  lemma HourLabelDenotesHour(h: nat)
    requires h < HoursPerDay
    ensures |HourLabel(h)| == 5 && HourLabel(h)[2..] == ":00"
    ensures forall i :: 0 <= i < 2 ==> '0' <= HourLabel(h)[i] <= '9'
    ensures DecimalValue(HourLabel(h)[..2]) == h
  {
    var tens, ones := DigitChar(h / 10), DigitChar(h % 10);
    assert HourLabel(h)[..2] == [tens, ones];
    assert [tens, ones][..1] == [tens] && [tens][..0] == [];
    assert DecimalValue([tens]) == h / 10;
    assert DecimalValue([tens, ones]) == (h / 10) * 10 + h % 10;
  }

  // The hour-by-hour case splits below give the solver one ground fact per
  // hour; they are there to keep verification time small, not for soundness.

  /** Hours 0 to 5 of the hourly table carry their own labels. */
  lemma HourLabelsNight()
    ensures forall h :: 0 <= h < 6 ==> HourlyData[h].time == HourLabel(h)
  {
    forall h | 0 <= h < 6 ensures HourlyData[h].time == HourLabel(h) {
      if h == 0 {} else if h == 1 {} else if h == 2 {} else if h == 3 {} else if h == 4 {} else {}
    }
  }

  /** Hours 6 to 11 of the hourly table carry their own labels. */
  lemma HourLabelsMorning()
    ensures forall h :: 6 <= h < 12 ==> HourlyData[h].time == HourLabel(h)
  {
    forall h | 6 <= h < 12 ensures HourlyData[h].time == HourLabel(h) {
      if h == 6 {} else if h == 7 {} else if h == 8 {} else if h == 9 {} else if h == 10 {} else {}
    }
  }

  /** Hours 12 to 17 of the hourly table carry their own labels. */
  lemma HourLabelsAfternoon()
    ensures forall h :: 12 <= h < 18 ==> HourlyData[h].time == HourLabel(h)
  {
    forall h | 12 <= h < 18 ensures HourlyData[h].time == HourLabel(h) {
      if h == 12 {} else if h == 13 {} else if h == 14 {} else if h == 15 {} else if h == 16 {} else {}
    }
  }

  /** Hours 18 to 23 of the hourly table carry their own labels. */
  lemma HourLabelsEvening()
    ensures forall h :: 18 <= h < 24 ==> HourlyData[h].time == HourLabel(h)
  {
    forall h | 18 <= h < 24 ensures HourlyData[h].time == HourLabel(h) {
      if h == 18 {} else if h == 19 {} else if h == 20 {} else if h == 21 {} else if h == 22 {} else {}
    }
  }

  /** The hourly table has one point per hour, in order, each labelled with its hour. */
  lemma HourlyTableShape()
    ensures |HourlyData| == HoursPerDay
    ensures forall h :: 0 <= h < HoursPerDay ==> HourlyData[h].time == HourLabel(h)
  {
    HourLabelsNight();
    HourLabelsMorning();
    HourLabelsAfternoon();
    HourLabelsEvening();
  }

  // ---------------------------------------------------------------------------
  // The weekly generator
  // ---------------------------------------------------------------------------

  const Days: seq<string> := ["Mon", "Tue", "Wed", "Thu", "Fri", "Sat", "Sun"]
  const AmSuffix: string := " 12 AM"
  const PmSuffix: string := " 12 PM"

  /** Number of values a case draw can take, and the value added to it. */
  const CasesSpan: nat := 26
  const CasesBase: int := 45
  /** Number of values an efficiency draw can take, and the value added to it. */
  const EfficiencySpan: nat := 31
  const EfficiencyBase: int := 60

  /**
   * The four draws of one day, in the order the generator makes them: cases
   * at 12 AM, cases at 12 PM, efficiency at 12 AM, efficiency at 12 PM.
   */
  datatype DayDraws = DayDraws(amCases: int, pmCases: int, amEfficiency: int, pmEfficiency: int)

  /** A possible outcome of one day's draws. */
  predicate ValidDay(dd: DayDraws) {
    && 0 <= dd.amCases < CasesSpan && 0 <= dd.pmCases < CasesSpan
    && 0 <= dd.amEfficiency < EfficiencySpan && 0 <= dd.pmEfficiency < EfficiencySpan
  }

  /** A possible outcome of the generator's random draws: one record per day, Monday first. */
  predicate ValidDraws(draws: seq<DayDraws>) {
    && |draws| == |Days|
    && forall d :: 0 <= d < |draws| ==> ValidDay(draws[d])
  }

  /** The label of weekly point `i`: its day, then 12 AM at even and 12 PM at odd positions. */
  function WeeklyLabel(i: nat): (r: string)
    requires i < 2 * |Days|
    ensures |r| == 9
    ensures r[..3] == Days[i / 2]
    ensures r[3..] == if i % 2 == 0 then " 12 AM" else " 12 PM"
  {
    var day := Days[i / 2];
    assert |day| == 3;
    var r := day + (if i % 2 == 0 then AmSuffix else PmSuffix);
    assert r[..3] == day;
    r
  }

  /** No two weekly points share a label. */
  lemma WeeklyLabelsDistinct(i: nat, j: nat)
    requires i < 2 * |Days| && j < 2 * |Days| && i != j
    ensures WeeklyLabel(i) != WeeklyLabel(j)
  {
    if i / 2 != j / 2 {
      assert WeeklyLabel(i)[..3] != WeeklyLabel(j)[..3];
    } else {
      assert i % 2 != j % 2;
      assert WeeklyLabel(i)[3..][4] != WeeklyLabel(j)[3..][4];
    }
  }

  /** Weekly point `i` as the generator builds it from the draws of its day. */
  function WeeklyPoint(draws: seq<DayDraws>, i: nat): Point
    requires ValidDraws(draws) && i < 2 * |Days|
  {
    var dd := draws[i / 2];
    if i % 2 == 0 then Point(WeeklyLabel(i), dd.amCases + CasesBase, dd.amEfficiency + EfficiencyBase)
    else Point(WeeklyLabel(i), dd.pmCases + CasesBase, dd.pmEfficiency + EfficiencyBase)
  }

  /**
   * Weekly point `i` carries its label, a case count of 45 plus its day's
   * cases draw for its half of the day, within [45, 70], and an efficiency of
   * 60 plus the matching efficiency draw, within [60, 90].
   */
  lemma WeeklyPointInRange(draws: seq<DayDraws>, i: nat)
    requires ValidDraws(draws) && i < 2 * |Days|
    ensures WeeklyPoint(draws, i).time == WeeklyLabel(i)
    ensures 45 <= WeeklyPoint(draws, i).cases <= 70
    ensures WeeklyPoint(draws, i).cases - CasesBase ==
      if i % 2 == 0 then draws[i / 2].amCases else draws[i / 2].pmCases
    ensures 60 <= WeeklyPoint(draws, i).efficiency <= 90
    ensures WeeklyPoint(draws, i).efficiency - EfficiencyBase ==
      if i % 2 == 0 then draws[i / 2].amEfficiency else draws[i / 2].pmEfficiency
  {
    assert ValidDay(draws[i / 2]);
  }

  /** `w` is the weekly series the generator builds from `draws`. */
  predicate IsWeeklySeries(draws: seq<DayDraws>, w: seq<Point>)
    requires ValidDraws(draws)
  {
    && |w| == 2 * |Days|
    && forall i :: 0 <= i < |w| ==> w[i] == WeeklyPoint(draws, i)
  }

  /** The two points of day `d` are "<day> 12 AM" and "<day> 12 PM", built from that day's draws. */
  lemma WeeklyDay(draws: seq<DayDraws>, d: nat)
    requires ValidDraws(draws) && d < |Days|
    ensures WeeklyPoint(draws, 2 * d) ==
      Point(Days[d] + AmSuffix, draws[d].amCases + CasesBase, draws[d].amEfficiency + EfficiencyBase)
    ensures WeeklyPoint(draws, 2 * d + 1) ==
      Point(Days[d] + PmSuffix, draws[d].pmCases + CasesBase, draws[d].pmEfficiency + EfficiencyBase)
  {
    assert (2 * d) / 2 == d && (2 * d) % 2 == 0;
    assert (2 * d + 1) / 2 == d && (2 * d + 1) % 2 == 1;
  }

  /** Builds the weekly series: two points per day, Monday to Sunday. */
  method GenerateWeeklyData(draws: seq<DayDraws>) returns (weekly: seq<Point>)
    requires ValidDraws(draws)
    ensures IsWeeklySeries(draws, weekly)
  {
    weekly := [];
    for d := 0 to |Days|
      invariant |weekly| == 2 * d
      invariant forall i :: 0 <= i < |weekly| ==> weekly[i] == WeeklyPoint(draws, i)
    {
      var day := Days[d];
      var amValue := draws[d].amCases + CasesBase;
      var pmValue := draws[d].pmCases + CasesBase;
      var amEfficiency := draws[d].amEfficiency + EfficiencyBase;
      var pmEfficiency := draws[d].pmEfficiency + EfficiencyBase;
      WeeklyDay(draws, d);
      weekly := weekly + [Point(day + AmSuffix, amValue, amEfficiency)];
      weekly := weekly + [Point(day + PmSuffix, pmValue, pmEfficiency)];
    }
  }


  /**
   * The weekly series has fourteen points labelled Mon 12 AM, Mon 12 PM, ...,
   * Sun 12 PM; every case count lies in [45, 70] and every efficiency in [60, 90].
   */
  lemma WeeklySeriesShape(draws: seq<DayDraws>, w: seq<Point>)
    requires ValidDraws(draws) && IsWeeklySeries(draws, w)
    ensures |w| == 2 * |Days| == 14
    ensures forall i :: 0 <= i < |w| ==> w[i].time == WeeklyLabel(i)
    ensures forall i :: 0 <= i < |w| ==> 45 <= w[i].cases <= 70 && 60 <= w[i].efficiency <= 90
  {
    forall i | 0 <= i < |w|
      ensures w[i].time == WeeklyLabel(i)
      ensures 45 <= w[i].cases <= 70 && 60 <= w[i].efficiency <= 90
    {
      WeeklyPointInRange(draws, i);
    }
  }

  // ---------------------------------------------------------------------------
  // View selection, ticks and axes
  // ---------------------------------------------------------------------------

  /** The data plotted: the hourly table in the daily view, the weekly series otherwise. */
  function CurrentData(view: ViewType, weekly: seq<Point>): (r: seq<Point>)
    ensures view == Daily ==> r == HourlyData
    ensures view == Weekly ==> r == weekly
  {
    if view == Daily then HourlyData else weekly
  }

  /** The text of `s` before the first `sep`, or all of `s` when there is none. */
  function PrefixBefore(s: string, sep: char): (r: string)
    ensures r <= s
    ensures sep !in r
    ensures |r| < |s| ==> s[|r|] == sep
  {
    if s == [] then []
    else if s[0] == sep then []
    else [s[0]] + PrefixBefore(s[1..], sep)
  }

  /** The x-axis tick label for a time label. */
  function TickLabel(view: ViewType, value: string): (r: string)
    ensures view == Weekly ==> r == value
    ensures view == Daily ==>
      && |r| > 0 && r[|r| - 1] == 'h'
      && r[..|r| - 1] <= value
      && ':' !in r[..|r| - 1]
      && (|r| - 1 < |value| ==> value[|r| - 1] == ':')
  {
    if view == Daily then
      var prefix := PrefixBefore(value, ':');
      assert (prefix + "h")[..|prefix|] == prefix;
      prefix + "h"
    else value
  }

  /** In the daily view the tick for hour `h` is its two digits followed by "h", e.g. "09:00" becomes "09h". */
  lemma HourlyTicks(h: nat)
    requires h < HoursPerDay
    ensures TickLabel(Daily, HourLabel(h)) == [DigitChar(h / 10), DigitChar(h % 10), 'h']
  {
    var text := HourLabel(h);
    assert PrefixBefore(text[2..], ':') == [];
    assert PrefixBefore(text[1..], ':') == [text[1]] + PrefixBefore(text[2..], ':');
  }

  /** The largest case count in non-empty data. */
  function MaxCases(data: seq<Point>): (m: int)
    requires data != []
    ensures forall i :: 0 <= i < |data| ==> data[i].cases <= m
    ensures exists i :: 0 <= i < |data| && data[i].cases == m
  {
    if |data| == 1 then data[0].cases
    else
      var rest := MaxCases(data[1..]);
      assert forall i :: 1 <= i < |data| ==> data[i] == data[1..][i - 1];
      if data[0].cases >= rest then data[0].cases else rest
  }

  /** Headroom the daily left axis adds above the largest case count. */
  const DataMaxPadding: int := 5

  /** The left (case volume) axis: from 0 to the data maximum plus 5 daily, [40, 75] weekly. */
  function LeftDomain(view: ViewType): (d: Domain)
    ensures d.lo <= d.hi
    ensures view == Weekly ==> d.lo == 40 && d.hi == 75
    ensures view == Daily ==> d.lo == 0
    ensures view == Daily ==>
      && (forall h :: 0 <= h < |HourlyData| ==> HourlyData[h].cases + DataMaxPadding <= d.hi)
      && (exists h :: 0 <= h < |HourlyData| && HourlyData[h].cases + DataMaxPadding == d.hi)
  {
    HourlyValuesInRange();
    match view
    case Daily => Domain(0, MaxCases(HourlyData) + DataMaxPadding)
    case Weekly => Domain(40, 75)
  }

  /** The right (efficiency) axis, a percentage scale. */
  const RightDomain: Domain := Domain(0, 100)

  /** Every hourly case count is positive and every hourly efficiency lies in [58, 92]. */
  lemma HourlyValuesInRange()
    ensures forall h :: 0 <= h < |HourlyData| ==> 1 <= HourlyData[h].cases && 58 <= HourlyData[h].efficiency <= 92
  {
    // One ground fact per hour, to keep verification time small.
    forall h | 0 <= h < |HourlyData| ensures 1 <= HourlyData[h].cases && 58 <= HourlyData[h].efficiency <= 92 {
      if h == 0 {} else if h == 1 {} else if h == 2 {} else if h == 3 {} else if h == 4 {} else if h == 5 {} else if h == 6 {} else if h == 7 {} else if h == 8 {} else if h == 9 {} else if h == 10 {} else if h == 11 {} else if h == 12 {} else if h == 13 {} else if h == 14 {} else if h == 15 {} else if h == 16 {} else if h == 17 {} else if h == 18 {} else if h == 19 {} else if h == 20 {} else if h == 21 {} else if h == 22 {} else {}
    }
  }

  /**
   * Every plotted value lies inside the axis it is drawn against, in both
   * views: no point is clipped.
   */
  lemma PlottedValuesFitDomains(view: ViewType, draws: seq<DayDraws>, weekly: seq<Point>)
    requires ValidDraws(draws) && IsWeeklySeries(draws, weekly)
    ensures forall p :: p in CurrentData(view, weekly) ==>
      LeftDomain(view).Contains(p.cases) && RightDomain.Contains(p.efficiency)
  {
    if view == Daily {
      HourlyValuesInRange();
    } else {
      WeeklySeriesShape(draws, weekly);
    }
  }
}
