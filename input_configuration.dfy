/** The configuration screen (`src/components/InputConfigurationScreen.tsx`):
    the state the parameter inputs, the horizon buttons, the date range and
    the three tables write into. Calendar dates are whole day numbers
    (days since 1970-01-01). */
module InputConfiguration {
  import opened Js
  import opened Aggregation
  import opened Settings

  /** 2025-06-29 and 2025-07-26, the default range: four weeks. */
  const DefaultFromDay := 20268
  const DefaultToDay := 20295

  function Abs(x: int): nat { if x < 0 then -x else x }

  /** The horizon chosen for a range of diffDays days between its two
      dates: the span in weeks rounded up (`Math.ceil(diffDays / 7)`), then
      bucketed to 4, 8 or 12. */
  function WeeksForSpan(diffDays: nat): (w: Weeks)
    ensures w == 4 <==> diffDays <= 28
    ensures w == 8 <==> 28 < diffDays <= 56
    ensures w == 12 <==> 56 < diffDays
  {
    var calculatedWeeks := Ceil(diffDays as real / 7.0);
    assert calculatedWeeks <= 4 <==> diffDays <= 28;
    assert calculatedWeeks <= 8 <==> diffDays <= 56;
    if calculatedWeeks <= 4 then 4 else if calculatedWeeks <= 8 then 8 else 12
  }

  /** A longer range never gets a shorter horizon. */
  lemma WeeksForSpanMonotone(a: nat, b: nat)
    requires a <= b
    ensures WeeksForSpan(a) <= WeeksForSpan(b)
  {
  }

  /** The horizon covers the range whenever a 12-week horizon can, and it is
      the shortest that does. */
  lemma WeeksForSpanCovers(diffDays: nat)
    requires diffDays <= 84
    ensures diffDays <= 7 * WeeksForSpan(diffDays)
    ensures WeeksForSpan(diffDays) == 4 || 7 * (WeeksForSpan(diffDays) - 4) < diffDays
  {
  }

  /** The horizon of a date range: only the distance between the dates
      matters, so swapping them changes nothing. */
  function WeeksForRange(fromDay: int, toDay: int): Weeks
  {
    WeeksForSpan(Abs(toDay - fromDay))
  }

  lemma {:induction false} WeeksForRangeSymmetric(fromDay: int, toDay: int, shift: int)
    ensures WeeksForRange(fromDay, toDay) == WeeksForRange(toDay, fromDay)
    ensures WeeksForRange(fromDay + shift, toDay + shift) == WeeksForRange(fromDay, toDay)
  {
    assert Abs(toDay - fromDay) == Abs(fromDay - toDay);
    assert (toDay + shift) - (fromDay + shift) == toDay - fromDay;
  }

  /** The last day of a horizon of w weeks starting on fromDay:
      `fromDate + w * 7 - 1` days. */
  function HorizonEnd(fromDay: int, w: Weeks): int
  {
    fromDay + w * 7 - 1
  }

  /** A horizon chosen with the buttons spans exactly w·7 days, and reading
      its range back gives the same horizon. */
  lemma HorizonRoundTrip(fromDay: int, w: Weeks)
    ensures HorizonEnd(fromDay, w) - fromDay + 1 == TotalDays(w)
    ensures WeeksForRange(fromDay, HorizonEnd(fromDay, w)) == w
  {
  }

  /** The default range is the four-week horizon from its first day. */
  lemma DefaultRangeIsFourWeeks()
    ensures DefaultToDay == HorizonEnd(DefaultFromDay, 4)
    ensures WeeksForRange(DefaultFromDay, DefaultToDay) == 4
  {
  }

  /** The screen's state. */
  class Screen {
    var weeks: Weeks
    var fromDay: int
    var toDay: int
    var plannedAHT: real
    var slaTarget: real
    var serviceTime: real
    var inOfficeShrinkage: real
    var outOfOfficeShrinkage: real
    var billableBreak: real
    var volumeMatrix: Matrix
    var ahtMatrix: Matrix
    var rosterGrid: Grid

    /** The initial state: four weeks from 2025-06-29, a planned AHT of
        1560 s, an 80 % target within 30 s, 0 % in-office and 34.88 %
        out-of-office shrinkage, a 5.88 % billable break, empty tables. */
    constructor ()
      ensures weeks == 4 && fromDay == DefaultFromDay && toDay == DefaultToDay
      ensures plannedAHT == 1560.0 && slaTarget == 80.0 && serviceTime == 30.0
      ensures inOfficeShrinkage == 0.0 && outOfOfficeShrinkage == 34.88 && billableBreak == 5.88
      ensures volumeMatrix == [] && ahtMatrix == [] && rosterGrid == []
    {
      weeks, fromDay, toDay := 4, 20268, 20295;
      plannedAHT, slaTarget, serviceTime := 1560.0, 80.0, 30.0;
      inOfficeShrinkage, outOfOfficeShrinkage, billableBreak := 0.0, 34.88, 5.88;
      volumeMatrix, ahtMatrix, rosterGrid := [], [], [];
    }

    /** The parameters the metrics are computed from. */
    function Parameters(): (cfg: Config)
      reads this
      ensures cfg.weeks == weeks && cfg.plannedAHT == plannedAHT
    {
      Config(weeks, plannedAHT, slaTarget, serviceTime, inOfficeShrinkage, outOfOfficeShrinkage, billableBreak)
    }

    /** `handleClear()`: empty the three tables; nothing else changes. */
    method HandleClear()
      modifies this
      ensures volumeMatrix == [] && ahtMatrix == [] && rosterGrid == []
      ensures Parameters() == old(Parameters())
      ensures fromDay == old(fromDay) && toDay == old(toDay)
    {
      volumeMatrix := [];
      ahtMatrix := [];
      rosterGrid := [];
    }

    /** `calculateDateRange(w)`: keep the first day, end the range after w
        weeks and select w. */
    method CalculateDateRange(selectedWeeks: Weeks)
      modifies this
      ensures toDay == HorizonEnd(fromDay, selectedWeeks) && weeks == selectedWeeks
      ensures fromDay == old(fromDay)
      ensures volumeMatrix == old(volumeMatrix) && ahtMatrix == old(ahtMatrix) && rosterGrid == old(rosterGrid)
      ensures plannedAHT == old(plannedAHT) && slaTarget == old(slaTarget) && serviceTime == old(serviceTime)
      ensures inOfficeShrinkage == old(inOfficeShrinkage) && outOfOfficeShrinkage == old(outOfOfficeShrinkage)
      ensures billableBreak == old(billableBreak)
      ensures weeks == WeeksForRange(fromDay, toDay)
    {
      toDay := fromDay + (selectedWeeks * 7) - 1;
      weeks := selectedWeeks;
      HorizonRoundTrip(fromDay, selectedWeeks);
    }

    /** `handleDateRangeChange(from, to)`: take both dates and choose the
        horizon from the number of days between them. */
    method HandleDateRangeChange(newFromDay: int, newToDay: int)
      modifies this
      ensures fromDay == newFromDay && toDay == newToDay
      ensures weeks == WeeksForRange(newFromDay, newToDay)
      ensures volumeMatrix == old(volumeMatrix) && ahtMatrix == old(ahtMatrix) && rosterGrid == old(rosterGrid)
      ensures plannedAHT == old(plannedAHT) && slaTarget == old(slaTarget) && serviceTime == old(serviceTime)
      ensures inOfficeShrinkage == old(inOfficeShrinkage) && outOfOfficeShrinkage == old(outOfOfficeShrinkage)
      ensures billableBreak == old(billableBreak)
    {
      fromDay := newFromDay;
      toDay := newToDay;
      var diffDays := Abs(newToDay - newFromDay);
      var calculatedWeeks := Ceil(diffDays as real / 7.0);
      if calculatedWeeks <= 4 {
        weeks := 4;
      } else if calculatedWeeks <= 8 {
        weeks := 8;
      } else {
        weeks := 12;
      }
    }
  }
}
