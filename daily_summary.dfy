/** The daily summary (`src/components/DailySummaryTable.tsx`): one row per
    day of the horizon, built by a 48-step loop over the day's intervals
    that adds up volume and staffing and averages a rule-of-thumb service
    level and occupancy. Staffing is read from the first roster row. */
module DailySummary {
  import opened Js
  import opened Aggregation
  import opened IntervalLabels
  import opened Settings

  /** One row of the summary table (the date caption is left out). */
  datatype DayRow = DayRow(totalVolume: int, avgSLA: real, occupancy: real, avgStaffing: int)

  // ---------------------------------------------------------------------
  // One interval

  /** The hours of work an interval's calls bring: `volume * (AHT / 3600)`. */
  function Workload(volume: int, plannedAHT: real): real
  {
    volume as real * (plannedAHT / 3600.0)
  }

  /** `Math.max(1, Math.ceil(workloadInHours / 0.5))`: the fewest agents
      whose half hours cover the workload, and at least one. */
  function Required(workload: real): (r: int)
    ensures r >= 1 && r as real >= workload / 0.5
    ensures r == 1 || (r as real) < workload / 0.5 + 1.0
  {
    var c := Ceil(workload / 0.5);
    if c > 1 then c else 1
  }

  /** The interval's service level: 80 when staffing meets the requirement
      exactly, 5 points more per extra agent up to 95, 10 points less per
      missing agent down to 60. */
  function IntervalSla(actual: int, required: int): (s: int)
    ensures 60 <= s <= 95
    ensures actual == required ==> s == 80
  {
    if actual >= required then
      var up := 80 + (actual - required) * 5;
      if up < 95 then up else 95
    else
      var down := 80 - (required - actual) * 10;
      if down > 60 then down else 60
  }

  /** More agents never lower the service level. */
  lemma IntervalSlaMonotone(a: int, b: int, required: int)
    requires a <= b
    ensures IntervalSla(a, required) <= IntervalSla(b, required)
  {
  }

  /** `actual > 0 ? Math.min(95, (workload / actual / 0.5) * 100) : 0`. */
  function IntervalOccupancy(actual: int, workload: real): (o: real)
    ensures actual <= 0 ==> o == 0.0
    ensures o <= 95.0
    ensures workload >= 0.0 ==> o >= 0.0
  {
    if actual > 0 then
      var busy := workload / actual as real / 0.5 * 100.0;
      if busy < 95.0 then busy else 95.0
    else 0.0
  }

  // ---------------------------------------------------------------------
  // One day: what the loop adds up

  /** The staffing the summary reads for each interval:
      `parseInt(rosterGrid[0]?.[j]) || 0`, the first roster row. */
  function FirstRowStaffing(grid: Grid): (staff: seq<int>)
    ensures |staff| == IntervalsPerDay
  {
    StaffingUpTo(grid, IntervalsPerDay)
  }

  /** The first-row staffing of intervals 0 .. k-1. */
  function StaffingUpTo(grid: Grid, k: nat): (staff: seq<int>)
    ensures |staff| == k
  {
    if k == 0 then [] else StaffingUpTo(grid, k - 1) + [CellValue(Cell(grid, 0, k - 1))]
  }

  lemma {:induction false} StaffingUpToAt(grid: Grid, k: nat, j: nat)
    requires j < k
    ensures StaffingUpTo(grid, k)[j] == CellValue(Cell(grid, 0, j))
  {
    if j < k - 1 {
      StaffingUpToAt(grid, k - 1, j);
    }
  }

  /** The staffing of interval j. */
  function ActualAt(staff: seq<int>, j: nat): int
  {
    if j < |staff| then staff[j] else 0
  }

  function SlaAt(vm: Matrix, staff: seq<int>, plannedAHT: real, d: nat, j: nat): int
  {
    IntervalSla(ActualAt(staff, j), Required(Workload(VolumeAt(vm, d, j), plannedAHT)))
  }

  function OccupancyAt(vm: Matrix, staff: seq<int>, plannedAHT: real, d: nat, j: nat): real
  {
    IntervalOccupancy(ActualAt(staff, j), Workload(VolumeAt(vm, d, j), plannedAHT))
  }

  /** Day d's volume over intervals 0 .. k-1, a missing cell counting 0. */
  function VolumeSum(vm: Matrix, d: nat, k: nat): int
  {
    if k == 0 then 0 else VolumeSum(vm, d, k - 1) + VolumeAt(vm, d, k - 1)
  }

  function ActualSum(staff: seq<int>, k: nat): int
  {
    if k == 0 then 0 else ActualSum(staff, k - 1) + ActualAt(staff, k - 1)
  }

  function SlaSum(vm: Matrix, staff: seq<int>, plannedAHT: real, d: nat, k: nat): int
  {
    if k == 0 then 0 else SlaSum(vm, staff, plannedAHT, d, k - 1) + SlaAt(vm, staff, plannedAHT, d, k - 1)
  }

  function OccupancySum(vm: Matrix, staff: seq<int>, plannedAHT: real, d: nat, k: nat): real
  {
    if k == 0 then 0.0 else OccupancySum(vm, staff, plannedAHT, d, k - 1) + OccupancyAt(vm, staff, plannedAHT, d, k - 1)
  }

  /** A day's row from its four running totals: the SLA and occupancy
      averaged over 48 intervals, the staffing averaged and rounded. */
  function RowOfTotals(totalVolume: int, totalActual: int, slaSum: int, occupancySum: real): DayRow
  {
    DayRow(totalVolume, slaSum as real / 48.0, occupancySum / 48.0, Round(totalActual as real / 48.0))
  }

  /** The row for day d. */
  function RowFor(vm: Matrix, staff: seq<int>, plannedAHT: real, d: nat): DayRow
  {
    RowOfTotals(
      VolumeSum(vm, d, IntervalsPerDay),
      ActualSum(staff, IntervalsPerDay),
      SlaSum(vm, staff, plannedAHT, d, IntervalsPerDay),
      OccupancySum(vm, staff, plannedAHT, d, IntervalsPerDay))
  }

  // ---------------------------------------------------------------------
  // The loops

  /** The first-row staffing of interval j, as the loop body reads it. */
  method ReadActual(grid: Grid, j: nat) returns (actual: int)
    requires j < IntervalsPerDay
    ensures actual == ActualAt(FirstRowStaffing(grid), j)
  {
    actual := CellValue(Cell(grid, 0, j));
    StaffingUpToAt(grid, IntervalsPerDay, j);
  }

  /** The figures of interval j of day d, as the loop body computes them. */
  method IntervalFigures(vm: Matrix, grid: Grid, plannedAHT: real, d: nat, j: nat)
    returns (volume: int, actual: int, sla: int, occupancy: real)
    requires j < IntervalsPerDay
    ensures volume == VolumeAt(vm, d, j) && actual == ActualAt(FirstRowStaffing(grid), j)
    ensures sla == SlaAt(vm, FirstRowStaffing(grid), plannedAHT, d, j)
    ensures occupancy == OccupancyAt(vm, FirstRowStaffing(grid), plannedAHT, d, j)
  {
    volume := VolumeAt(vm, d, j);
    actual := ReadActual(grid, j);
    var ahtInHours := plannedAHT / 3600.0;
    var workloadInHours := volume as real * ahtInHours;
    var c := Ceil(workloadInHours / 0.5);
    var required := if c > 1 then c else 1;
    assert workloadInHours == Workload(volume, plannedAHT);
    assert required == Required(workloadInHours);
    sla := IntervalSla(actual, required);
    occupancy := IntervalOccupancy(actual, workloadInHours);
  }

  /** The 48-step loop for day d: the four running totals. */
  method DayTotals(vm: Matrix, grid: Grid, plannedAHT: real, d: nat)
    returns (totalVolume: int, totalActual: int, avgSLA: int, avgOccupancy: real)
    ensures totalVolume == VolumeSum(vm, d, IntervalsPerDay)
    ensures totalActual == ActualSum(FirstRowStaffing(grid), IntervalsPerDay)
    ensures avgSLA == SlaSum(vm, FirstRowStaffing(grid), plannedAHT, d, IntervalsPerDay)
    ensures avgOccupancy == OccupancySum(vm, FirstRowStaffing(grid), plannedAHT, d, IntervalsPerDay)
  {
    ghost var staff := FirstRowStaffing(grid);
    totalVolume, totalActual := 0, 0;
    avgSLA, avgOccupancy := 0, 0.0;
    var j := 0;
    while j < 48
      invariant j <= 48
      invariant totalVolume == VolumeSum(vm, d, j)
      invariant totalActual == ActualSum(staff, j)
      invariant avgSLA == SlaSum(vm, staff, plannedAHT, d, j)
      invariant avgOccupancy == OccupancySum(vm, staff, plannedAHT, d, j)
    {
      var volume, actual, sla, occupancy := IntervalFigures(vm, grid, plannedAHT, d, j);
      totalVolume := totalVolume + volume;
      totalActual := totalActual + actual;
      avgSLA := avgSLA + sla;
      avgOccupancy := avgOccupancy + occupancy;
      j := j + 1;
    }
  }

  /** Day d's row: the loop's totals, the two averages over 48 intervals
      and the rounded average staffing. */
  method SummarizeDay(vm: Matrix, grid: Grid, plannedAHT: real, d: nat) returns (row: DayRow)
    ensures row == RowFor(vm, FirstRowStaffing(grid), plannedAHT, d)
  {
    var totalVolume, totalActual, avgSLA, avgOccupancy := DayTotals(vm, grid, plannedAHT, d);
    row := RowOfTotals(totalVolume, totalActual, avgSLA, avgOccupancy);
  }

  /** `dailySummary`: one row per day of the horizon, in day order. */
  method SummarizeDays(cfg: Config, vm: Matrix, grid: Grid) returns (rows: seq<DayRow>)
    ensures |rows| == TotalDays(cfg.weeks)
    ensures forall d :: 0 <= d < |rows| ==> rows[d] == RowFor(vm, FirstRowStaffing(grid), cfg.plannedAHT, d)
  {
    rows := [];
    var d := 0;
    while d < TotalDays(cfg.weeks)
      invariant d <= TotalDays(cfg.weeks) && |rows| == d
      invariant forall e :: 0 <= e < d ==> rows[e] == RowFor(vm, FirstRowStaffing(grid), cfg.plannedAHT, e)
    {
      var row := SummarizeDay(vm, grid, cfg.plannedAHT, d);
      rows := rows + [row];
      d := d + 1;
    }
  }

  // ---------------------------------------------------------------------
  // What the rows promise

  lemma {:induction false} SlaSumBounds(vm: Matrix, staff: seq<int>, plannedAHT: real, d: nat, k: nat)
    ensures 60 * k <= SlaSum(vm, staff, plannedAHT, d, k) <= 95 * k
  {
    if k > 0 {
      SlaSumBounds(vm, staff, plannedAHT, d, k - 1);
    }
  }

  lemma {:induction false} OccupancySumAtMost(vm: Matrix, staff: seq<int>, plannedAHT: real, d: nat, k: nat)
    ensures OccupancySum(vm, staff, plannedAHT, d, k) <= 95.0 * k as real
  {
    if k > 0 {
      OccupancySumAtMost(vm, staff, plannedAHT, d, k - 1);
      var s := OccupancySum(vm, staff, plannedAHT, d, k - 1);
      var o := OccupancyAt(vm, staff, plannedAHT, d, k - 1);
      assert o <= 95.0;
      AddAtMost(s, k - 1, o, 95.0);
    }
  }

  /** One more term of at most m keeps a sum within m per term. */
  lemma AddAtMost(s: real, k: nat, o: real, m: real)
    requires s <= m * k as real && o <= m
    ensures s + o <= m * (k + 1) as real
  {
  }

  lemma {:induction false} OccupancySumNonNegative(vm: Matrix, staff: seq<int>, plannedAHT: real, d: nat, k: nat)
    requires plannedAHT >= 0.0
    requires forall j :: 0 <= j < k ==> VolumeAt(vm, d, j) >= 0
    ensures OccupancySum(vm, staff, plannedAHT, d, k) >= 0.0
  {
    if k > 0 {
      OccupancySumNonNegative(vm, staff, plannedAHT, d, k - 1);
      var v := VolumeAt(vm, d, k - 1);
      assert v >= 0;
      var w := Workload(v, plannedAHT);
      assert w >= 0.0;
      assert IntervalOccupancy(ActualAt(staff, k - 1), w) >= 0.0;
    }
  }

  /** Every row's average service level lies in [60, 95] and its occupancy
      is at most 95; with non-negative volumes and AHT the occupancy is
      not negative. */
  lemma RowBounds(vm: Matrix, staff: seq<int>, plannedAHT: real, d: nat)
    ensures var row := RowFor(vm, staff, plannedAHT, d);
      60.0 <= row.avgSLA <= 95.0 && row.occupancy <= 95.0
    ensures plannedAHT >= 0.0 && (forall j :: 0 <= j < IntervalsPerDay ==> VolumeAt(vm, d, j) >= 0) ==>
      RowFor(vm, staff, plannedAHT, d).occupancy >= 0.0
  {
    SlaSumBounds(vm, staff, plannedAHT, d, IntervalsPerDay);
    OccupancySumAtMost(vm, staff, plannedAHT, d, IntervalsPerDay);
    if plannedAHT >= 0.0 && (forall j :: 0 <= j < IntervalsPerDay ==> VolumeAt(vm, d, j) >= 0) {
      OccupancySumNonNegative(vm, staff, plannedAHT, d, IntervalsPerDay);
    }
  }

  /** Staffing comes from the first roster row whatever the day, so every
      day shows the same average staffing. */
  lemma StaffingSameEveryDay(vm: Matrix, staff: seq<int>, plannedAHT: real, d: nat, e: nat)
    ensures RowFor(vm, staff, plannedAHT, d).avgStaffing == RowFor(vm, staff, plannedAHT, e).avgStaffing
  {
  }

  lemma {:induction false} ActualSumBounds(staff: seq<int>, k: nat, lo: int, hi: int)
    requires forall j :: 0 <= j < k ==> lo <= ActualAt(staff, j) <= hi
    ensures lo * k <= ActualSum(staff, k) <= hi * k
  {
    if k > 0 {
      ActualSumBounds(staff, k - 1, lo, hi);
      var a := ActualAt(staff, k - 1);
      assert lo <= a <= hi;
      assert lo * k == lo * (k - 1) + lo && hi * k == hi * (k - 1) + hi;
    }
  }

  /** When every interval of the first roster row staffs between lo and hi
      agents, the average staffing shown is between lo and hi too. */
  lemma StaffingBetween(vm: Matrix, staff: seq<int>, plannedAHT: real, d: nat, lo: int, hi: int)
    requires forall j :: 0 <= j < IntervalsPerDay ==> lo <= ActualAt(staff, j) <= hi
    ensures lo <= RowFor(vm, staff, plannedAHT, d).avgStaffing <= hi
  {
    ActualSumBounds(staff, IntervalsPerDay, lo, hi);
    var t := ActualSum(staff, IntervalsPerDay);
    assert (lo * 48) as real / 48.0 == lo as real;
    assert (hi * 48) as real / 48.0 == hi as real;
    assert lo as real <= t as real / 48.0 <= hi as real;
  }

  /** A first roster row that staffs n agents in every interval shows an
      average staffing of n on every day. */
  lemma UniformStaffing(vm: Matrix, grid: Grid, plannedAHT: real, d: nat, n: int)
    requires forall j :: 0 <= j < IntervalsPerDay ==> Cell(grid, 0, j) == Some(IntToString(n))
    ensures RowFor(vm, FirstRowStaffing(grid), plannedAHT, d).avgStaffing == n
  {
    var staff := FirstRowStaffing(grid);
    forall j | 0 <= j < IntervalsPerDay
      ensures n <= ActualAt(staff, j) <= n
    {
      StaffingUpToAt(grid, IntervalsPerDay, j);
      ParseIntOrZeroOfIntToString(n);
    }
    StaffingBetween(vm, staff, plannedAHT, d, n, n);
  }

  /** The total volume of a day is the sum of its 48 cells, missing cells
      counting 0; a day with no calls has total 0 and the service level of
      the staffing against one required agent per interval. */
  lemma {:induction false} VolumeSumOfEmptyDay(vm: Matrix, staff: seq<int>, plannedAHT: real, d: nat, k: nat)
    requires forall j :: 0 <= j < k ==> VolumeAt(vm, d, j) == 0
    ensures VolumeSum(vm, d, k) == 0
    ensures forall j :: 0 <= j < k ==> SlaAt(vm, staff, plannedAHT, d, j) == IntervalSla(ActualAt(staff, j), 1)
  {
    if k > 0 {
      VolumeSumOfEmptyDay(vm, staff, plannedAHT, d, k - 1);
    }
  }
}
