/** The transposed calculated metrics table
    (`src/components/TransposedCalculatedMetricsTable.tsx`): one column per
    interval with volume or shrunk rostered agents, labelled with the end of
    the interval, and one row per metric. The requirement, service level and
    occupancy come from the Erlang library. */
module TransposedMetrics {
  import opened Js
  import opened Aggregation
  import opened Settings
  import opened IntervalLabels
  import opened Erlang
  import StaffingChart

  /** One interval's metrics, each rounded to one decimal place except the
      influx, which is rounded to a whole number. */
  datatype MetricRow = MetricRow(
    time: string,
    actual: real,
    requirement: real,
    variance: real,
    callTrend: real,
    aht: real,
    serviceLevel: real,
    occupancy: real,
    influx: int,
    agentDistributionRatio: real)

  // ---------------------------------------------------------------------
  // Total agents

  /** The total of every parsed cell of the roster, or 1 in place of 0. */
  function TotalAgents(grid: Grid): (n: int)
    ensures n != 0
    ensures GridTotal(grid) != 0 ==> n == GridTotal(grid)
    ensures GridTotal(grid) == 0 ==> n == 1
  {
    var sum := GridTotal(grid);
    if sum == 0 then 1 else sum
  }

  /** No parsed cell of the roster is negative. */
  predicate NonNegativeCells(grid: Grid)
  {
    forall r, c :: 0 <= r < |grid| && grid[r].Some? && 0 <= c < |grid[r].value| ==> CellValue(grid[r].value[c]) >= 0
  }

  lemma {:induction false} RowSumNonNegative(row: Arr<string>)
    requires forall c :: 0 <= c < |row| ==> CellValue(row[c]) >= 0
    ensures RowSum(row) >= 0
  {
    if row != [] {
      var p := row[..|row| - 1];
      assert forall c :: 0 <= c < |p| ==> p[c] == row[c];
      RowSumNonNegative(p);
    }
  }

  /** With no negative cell, each row's total lies between 0 and the total
      of the whole roster. */
  lemma {:induction false} RowTotalAtMostGridTotal(grid: Grid, r: int)
    requires NonNegativeCells(grid)
    ensures 0 <= RowTotal(grid, r) <= GridTotal(grid)
  {
    if grid != [] {
      var n := |grid|;
      var p := grid[..n - 1];
      assert forall k :: 0 <= k < |p| ==> p[k] == grid[k];
      RowTotalAtMostGridTotal(p, r);
      if grid[n - 1].Some? {
        RowSumNonNegative(grid[n - 1].value);
      }
      if 0 <= r < n - 1 {
        assert At(grid, r) == At(p, r);
      }
    }
  }

  /** So every interval's raw roster total is at most the total agents the
      distribution ratio divides by. */
  lemma RowWithinTotalAgents(grid: Grid, i: nat)
    requires NonNegativeCells(grid)
    ensures 0 <= RowTotal(grid, i) <= TotalAgents(grid)
  {
    RowTotalAtMostGridTotal(grid, i);
  }

  /** The roster total is the sum of the row totals. */
  lemma TotalAgentsByRows(grid: Grid)
    ensures var sum := RowTotalsUpTo(grid, |grid|);
      TotalAgents(grid) == if sum == 0 then 1 else sum
  {
    GridTotalByRows(grid, |grid|);
  }

  // ---------------------------------------------------------------------
  // One interval

  /** The service level in percent, 0 without rostered agents. */
  function ServiceLevel(lib: Library, cfg: Config, effectiveVolume: real, avgAHT: real, rostered: real): (r: real)
    ensures rostered <= 0.0 ==> r == 0.0
    ensures SlaIsFraction(lib) ==> 0.0 <= r <= 100.0
  {
    if rostered > 0.0 then lib.sla(effectiveVolume, avgAHT, cfg.serviceTime, rostered) * 100.0 else 0.0
  }

  /** The occupancy in percent, 0 without rostered agents. */
  function Occupancy(lib: Library, effectiveVolume: real, avgAHT: real, rostered: real): (r: real)
    ensures rostered <= 0.0 ==> r == 0.0
    ensures UtilizationIsFraction(lib) ==> 0.0 <= r <= 100.0
  {
    if rostered > 0.0
    then lib.utilization(StaffingChart.TrafficIntensity(effectiveVolume, avgAHT), rostered) * 100.0
    else 0.0
  }

  /** The effective volume of an interval's volume. */
  function EffectiveVolume(lib: Library, cfg: Config, totalVolume: int): real
  {
    lib.effectiveVolume(totalVolume as real, cfg.outOfOfficeShrinkage, cfg.inOfficeShrinkage, cfg.billableBreak)
  }

  /** The row the formulas give for an interval with the given label,
      volume, average AHT, shrunk rostered agents and total agents. */
  function RowFrom(lib: Library, cfg: Config, time: string, totalVolume: int, avgAHT: real, rostered: real, totalAgents: int): MetricRow
  {
    var effectiveVolume := EffectiveVolume(lib, cfg, totalVolume);
    var required := StaffingChart.RequiredAgents(lib, cfg, effectiveVolume, avgAHT);
    MetricRow(
      time,
      Tenths(rostered),
      Tenths(required),
      Tenths(lib.variance(rostered, required)),
      Tenths(lib.callTrend(effectiveVolume, totalVolume as real)),
      Tenths(avgAHT / 60.0),
      Tenths(ServiceLevel(lib, cfg, effectiveVolume, avgAHT, rostered)),
      Tenths(Occupancy(lib, effectiveVolume, avgAHT, rostered)),
      Round(lib.influx(effectiveVolume, 0.5)),
      Tenths(lib.distributionRatio(rostered, totalAgents as real)))
  }

  /** The row of interval i: the end-of-interval label, the volume and mean
      AHT over the horizon's days with volume, and row i of the roster. */
  function MetricRowOf(lib: Library, cfg: Config, vm: Matrix, am: Matrix, grid: Grid, i: nat): MetricRow
  {
    var totalDays := TotalDays(cfg.weeks);
    RowFrom(lib, cfg, EndLabel(i), TotalVolume(vm, i, totalDays), AverageAht(vm, am, i, totalDays, cfg.plannedAHT),
      Shrunk(RowTotal(grid, i) as real, cfg), TotalAgents(grid))
  }

  /** Whether interval i gets a column: some volume, or some rostered agents
      left after shrinkage. */
  predicate Emitted(cfg: Config, vm: Matrix, grid: Grid, i: nat)
  {
    TotalVolume(vm, i, TotalDays(cfg.weeks)) > 0 || Shrunk(RowTotal(grid, i) as real, cfg) > 0.0
  }

  function EmitFilter(cfg: Config, vm: Matrix, grid: Grid): nat -> bool
  {
    (i: nat) => Emitted(cfg, vm, grid, i)
  }

  function RowOf(lib: Library, cfg: Config, vm: Matrix, am: Matrix, grid: Grid): nat -> MetricRow
  {
    (i: nat) => MetricRowOf(lib, cfg, vm, am, grid, i)
  }

  /** The rows pushed for intervals 0 .. n-1, in interval order. */
  function MetricRows(lib: Library, cfg: Config, vm: Matrix, am: Matrix, grid: Grid, n: nat): seq<MetricRow>
  {
    Gather(RowOf(lib, cfg, vm, am, grid), EmitFilter(cfg, vm, grid), n)
  }

  lemma RowOfAndFilter(lib: Library, cfg: Config, vm: Matrix, am: Matrix, grid: Grid, i: nat)
    ensures RowOf(lib, cfg, vm, am, grid)(i) == MetricRowOf(lib, cfg, vm, am, grid, i)
    ensures EmitFilter(cfg, vm, grid)(i) == Emitted(cfg, vm, grid, i)
  {
  }

  // ---------------------------------------------------------------------
  // The loop

  /** `calculateMetrics()`: the roster total, then the loop over the 48
      intervals. */
  method CalculateMetrics(lib: Library, cfg: Config, vm: Matrix, am: Matrix, grid: Grid) returns (metrics: seq<MetricRow>)
    ensures metrics == MetricRows(lib, cfg, vm, am, grid, IntervalsPerDay)
  {
    metrics := [];
    var totalAgents := TotalAgents(grid);
    var intervalIndex := 0;
    while intervalIndex < IntervalsPerDay
      invariant 0 <= intervalIndex <= IntervalsPerDay
      invariant metrics == MetricRows(lib, cfg, vm, am, grid, intervalIndex)
    {
      metrics := PushInterval(lib, cfg, vm, am, grid, totalAgents, intervalIndex, metrics);
      intervalIndex := intervalIndex + 1;
    }
  }

  /** One pass of that loop: the interval's row is pushed when the interval
      has volume or shrunk rostered agents. */
  method PushInterval(lib: Library, cfg: Config, vm: Matrix, am: Matrix, grid: Grid, totalAgents: int, intervalIndex: nat,
                      metrics: seq<MetricRow>)
    returns (pushed: seq<MetricRow>)
    requires totalAgents == TotalAgents(grid)
    requires metrics == MetricRows(lib, cfg, vm, am, grid, intervalIndex)
    ensures pushed == MetricRows(lib, cfg, vm, am, grid, intervalIndex + 1)
  {
    var emit, row := IntervalRow(lib, cfg, vm, am, grid, totalAgents, intervalIndex);
    GatherStep(RowOf(lib, cfg, vm, am, grid), EmitFilter(cfg, vm, grid), intervalIndex, emit, row);
    pushed := metrics;
    if emit {
      pushed := pushed + [row];
    }
  }

  /** The body of that loop for one interval: the label, the day loop, the
      shrunk roster, the formulas, and whether the row is pushed. */
  method IntervalRow(lib: Library, cfg: Config, vm: Matrix, am: Matrix, grid: Grid, totalAgents: int, intervalIndex: nat)
    returns (emit: bool, row: MetricRow)
    requires totalAgents == TotalAgents(grid)
    ensures emit == EmitFilter(cfg, vm, grid)(intervalIndex)
    ensures row == RowOf(lib, cfg, vm, am, grid)(intervalIndex)
  {
    var timeDisplay := EndTimeDisplay(intervalIndex);
    var totalDays := TotalDays(cfg.weeks);
    var totalVolume, totalAHT, validDays, avgAHT := AggregateInterval(vm, am, intervalIndex, totalDays, cfg.plannedAHT);
    var rosteredAgents := ShrunkRoster(cfg, RowTotal(grid, intervalIndex));
    row := IntervalFormulas(lib, cfg, timeDisplay, totalVolume, avgAHT, rosteredAgents, totalAgents);
    emit := totalVolume > 0 || rosteredAgents > 0.0;
    RowOfAndFilter(lib, cfg, vm, am, grid, intervalIndex);
  }

  /** The label of that loop body: the interval's end, 30 minutes past its
      start, on the 24-hour clock. */
  method EndTimeDisplay(intervalIndex: nat) returns (timeDisplay: string)
    ensures timeDisplay == EndLabel(intervalIndex)
  {
    var totalMinutes := intervalIndex * 30 + 30;
    var hour := (totalMinutes / 60) % 24;
    var minute := totalMinutes % 60;
    assert hour == EndHour(intervalIndex) && minute == EndMinute(intervalIndex);
    timeDisplay := Clock(hour, minute);
  }

  /** The interval's row total after the three shrinkages. */
  method ShrunkRoster(cfg: Config, rawRosteredAgents: int) returns (rosteredAgents: real)
    ensures rosteredAgents == Shrunk(rawRosteredAgents as real, cfg)
  {
    rosteredAgents := rawRosteredAgents as real
      * (1.0 - cfg.outOfOfficeShrinkage / 100.0)
      * (1.0 - cfg.inOfficeShrinkage / 100.0)
      * (1.0 - cfg.billableBreak / 100.0);
  }

  /** The formulas of that loop body, from the interval's figures to its
      row. */
  method IntervalFormulas(lib: Library, cfg: Config, timeDisplay: string, totalVolume: int, avgAHT: real,
                          rosteredAgents: real, totalAgents: int)
    returns (row: MetricRow)
    ensures row == RowFrom(lib, cfg, timeDisplay, totalVolume, avgAHT, rosteredAgents, totalAgents)
  {
    var effectiveVolume := lib.effectiveVolume(totalVolume as real, cfg.outOfOfficeShrinkage, cfg.inOfficeShrinkage, cfg.billableBreak);
    var trafficIntensity := (effectiveVolume * avgAHT) / 3600.0;
    var requiredAgents := if effectiveVolume > 0.0
      then lib.agents(cfg.slaTarget / 100.0, cfg.serviceTime, trafficIntensity, avgAHT) else 0.0;
    var variance := lib.variance(rosteredAgents, requiredAgents);
    var callTrend := lib.callTrend(effectiveVolume, totalVolume as real);
    var serviceLevel := if rosteredAgents > 0.0
      then lib.sla(effectiveVolume, avgAHT, cfg.serviceTime, rosteredAgents) * 100.0 else 0.0;
    var occupancy := if rosteredAgents > 0.0
      then lib.utilization(trafficIntensity, rosteredAgents) * 100.0 else 0.0;
    var influx := lib.influx(effectiveVolume, 0.5);
    var agentDistributionRatio := lib.distributionRatio(rosteredAgents, totalAgents as real);
    assert effectiveVolume == EffectiveVolume(lib, cfg, totalVolume);
    assert trafficIntensity == StaffingChart.TrafficIntensity(effectiveVolume, avgAHT);
    assert requiredAgents == StaffingChart.RequiredAgents(lib, cfg, effectiveVolume, avgAHT);
    assert serviceLevel == ServiceLevel(lib, cfg, effectiveVolume, avgAHT, rosteredAgents);
    assert occupancy == Occupancy(lib, effectiveVolume, avgAHT, rosteredAgents);
    row := MetricRow(timeDisplay, Tenths(rosteredAgents), Tenths(requiredAgents), Tenths(variance), Tenths(callTrend),
      Tenths(avgAHT / 60.0), Tenths(serviceLevel), Tenths(occupancy), Round(influx), Tenths(agentDistributionRatio));
  }

  // ---------------------------------------------------------------------
  // What the rows show

  /** The rows are exactly the rows of the emitted intervals, in increasing
      interval order: row k is the row of the k-th emitted interval. */
  lemma MetricRowsFollowEmission(lib: Library, cfg: Config, vm: Matrix, am: Matrix, grid: Grid, n: nat)
    ensures var idx := Where(n, EmitFilter(cfg, vm, grid));
      |MetricRows(lib, cfg, vm, am, grid, n)| == |idx| &&
      forall k :: 0 <= k < |idx| ==> MetricRows(lib, cfg, vm, am, grid, n)[k] == MetricRowOf(lib, cfg, vm, am, grid, idx[k])
  {
    GatherFollowsWhere(RowOf(lib, cfg, vm, am, grid), EmitFilter(cfg, vm, grid), n);
  }

  /** Each column belongs to an emitted interval and is labelled with the
      end of that interval, columns are in increasing interval order, and
      every emitted interval has a column. */
  lemma MetricRowsEmission(lib: Library, cfg: Config, vm: Matrix, am: Matrix, grid: Grid)
    ensures var rows := MetricRows(lib, cfg, vm, am, grid, IntervalsPerDay);
      var idx := Where(IntervalsPerDay, EmitFilter(cfg, vm, grid));
      |rows| == |idx| &&
      (forall k :: 0 <= k < |rows| ==> idx[k] < IntervalsPerDay && Emitted(cfg, vm, grid, idx[k]) && rows[k].time == EndLabel(idx[k])) &&
      (forall k, l :: 0 <= k < l < |rows| ==> idx[k] < idx[l]) &&
      (forall i :: 0 <= i < IntervalsPerDay && Emitted(cfg, vm, grid, i) ==> i in idx)
  {
    MetricRowsFollowEmission(lib, cfg, vm, am, grid, IntervalsPerDay);
  }

  /** A product of a number and three positive factors has the number's
      sign. */
  lemma PositiveScaling(x: real, f1: real, f2: real, f3: real)
    requires f1 > 0.0 && f2 > 0.0 && f3 > 0.0
    ensures x * f1 * f2 * f3 > 0.0 <==> x > 0.0
  {
    var f := f1 * f2 * f3;
    assert f > 0.0 by {
      assert f1 * f2 > 0.0;
    }
    assert x * f1 * f2 * f3 == x * f;
    if x > 0.0 {
      assert x * f > 0.0;
    } else {
      assert x * f <= 0.0;
    }
  }

  /** With every shrinkage below 100%, an interval has a column exactly when
      it has volume or a positive raw roster total; with some shrinkage at
      100%, exactly when it has volume. */
  lemma EmittedByRawRoster(cfg: Config, vm: Matrix, grid: Grid, i: nat)
    ensures cfg.outOfOfficeShrinkage < 100.0 && cfg.inOfficeShrinkage < 100.0 && cfg.billableBreak < 100.0 ==>
      (Emitted(cfg, vm, grid, i) <==> TotalVolume(vm, i, TotalDays(cfg.weeks)) > 0 || RowTotal(grid, i) > 0)
    ensures cfg.outOfOfficeShrinkage == 100.0 || cfg.inOfficeShrinkage == 100.0 || cfg.billableBreak == 100.0 ==>
      (Emitted(cfg, vm, grid, i) <==> TotalVolume(vm, i, TotalDays(cfg.weeks)) > 0)
  {
    var raw := RowTotal(grid, i) as real;
    if cfg.outOfOfficeShrinkage < 100.0 && cfg.inOfficeShrinkage < 100.0 && cfg.billableBreak < 100.0 {
      PositiveScaling(raw, Remaining(cfg.outOfOfficeShrinkage), Remaining(cfg.inOfficeShrinkage), Remaining(cfg.billableBreak));
    }
    if cfg.outOfOfficeShrinkage == 100.0 || cfg.inOfficeShrinkage == 100.0 || cfg.billableBreak == 100.0 {
      ShrunkFullShrinkage(raw, cfg);
    }
  }

  /** The actual agents lie between 0 and the raw roster total for shrinkage
      percentages in [0, 100], and equal it without shrinkage. */
  lemma ActualWithinRoster(lib: Library, cfg: Config, time: string, totalVolume: int, avgAHT: real, raw: int, totalAgents: int)
    requires raw >= 0
    requires IsPercent(cfg.outOfOfficeShrinkage) && IsPercent(cfg.inOfficeShrinkage) && IsPercent(cfg.billableBreak)
    ensures var row := RowFrom(lib, cfg, time, totalVolume, avgAHT, Shrunk(raw as real, cfg), totalAgents);
      0.0 <= row.actual <= raw as real &&
      (cfg.outOfOfficeShrinkage == 0.0 && cfg.inOfficeShrinkage == 0.0 && cfg.billableBreak == 0.0 ==> row.actual == raw as real)
  {
    ShrunkBounds(raw as real, cfg);
    TenthsWithin(Shrunk(raw as real, cfg), 0, raw);
    if cfg.outOfOfficeShrinkage == 0.0 && cfg.inOfficeShrinkage == 0.0 && cfg.billableBreak == 0.0 {
      ShrunkWithoutShrinkage(raw as real, cfg);
      TenthsWithin(raw as real, raw, raw);
    }
  }

  /** No effective volume, no requirement. */
  lemma RequirementWithoutVolume(lib: Library, cfg: Config, time: string, totalVolume: int, avgAHT: real, rostered: real, totalAgents: int)
    requires EffectiveVolume(lib, cfg, totalVolume) <= 0.0
    ensures RowFrom(lib, cfg, time, totalVolume, avgAHT, rostered, totalAgents).requirement == 0.0
  {
    TenthsWithin(0.0, 0, 0);
  }

  /** No agents left after shrinkage, no service level and no occupancy. */
  lemma NoAgentsNoService(lib: Library, cfg: Config, time: string, totalVolume: int, avgAHT: real, rostered: real, totalAgents: int)
    requires rostered <= 0.0
    ensures RowFrom(lib, cfg, time, totalVolume, avgAHT, rostered, totalAgents).serviceLevel == 0.0
    ensures RowFrom(lib, cfg, time, totalVolume, avgAHT, rostered, totalAgents).occupancy == 0.0
  {
    TenthsWithin(0.0, 0, 0);
  }

  /** When the library reports fractions, the service level and the
      occupancy are percentages. */
  lemma ServiceAndOccupancyArePercent(lib: Library, cfg: Config, time: string, totalVolume: int, avgAHT: real, rostered: real, totalAgents: int)
    requires SlaIsFraction(lib) && UtilizationIsFraction(lib)
    ensures var row := RowFrom(lib, cfg, time, totalVolume, avgAHT, rostered, totalAgents);
      0.0 <= row.serviceLevel <= 100.0 && 0.0 <= row.occupancy <= 100.0
  {
    var effectiveVolume := EffectiveVolume(lib, cfg, totalVolume);
    TenthsWithin(ServiceLevel(lib, cfg, effectiveVolume, avgAHT, rostered), 0, 100);
    TenthsWithin(Occupancy(lib, effectiveVolume, avgAHT, rostered), 0, 100);
  }

  /** `Math.round(x * 10) / 10` is positive exactly from 0.05 up. */
  lemma TenthsPositive(x: real)
    ensures Tenths(x) > 0.0 <==> x >= 0.05
  {
    var k := Round(x * 10.0);
    assert Tenths(x) == k as real / 10.0;
  }

  /** `Math.round(x * 10) / 10` is below -2 exactly below -2.05. */
  lemma TenthsBelowMinusTwo(x: real)
    ensures Tenths(x) < -2.0 <==> x < -2.05
  {
    var k := Round(x * 10.0);
    assert Tenths(x) == k as real / 10.0;
  }

  // ---------------------------------------------------------------------
  // The transposed table

  /** The keys of the row values, in the order the table lists them. */
  datatype Key = Actual | Requirement | Variance | CallTrend | Aht | ServiceLevelKey | OccupancyKey | Influx | AgentDistributionRatio

  const MetricTypes: seq<Key> := [Actual, Requirement, Variance, CallTrend, Aht, ServiceLevelKey, OccupancyKey, Influx, AgentDistributionRatio]

  function KeyName(k: Key): string
  {
    match k
    case Actual => "actual"
    case Requirement => "requirement"
    case Variance => "variance"
    case CallTrend => "callTrend"
    case Aht => "aht"
    case ServiceLevelKey => "serviceLevel"
    case OccupancyKey => "occupancy"
    case Influx => "influx"
    case AgentDistributionRatio => "agentDistributionRatio"
  }

  function Label(k: Key): string
  {
    match k
    case Actual => "Actual Agents"
    case Requirement => "Required Agents"
    case Variance => "Variance"
    case CallTrend => "Call Trend (%)"
    case Aht => "AHT (min)"
    case ServiceLevelKey => "Service Level (%)"
    case OccupancyKey => "Occupancy (%)"
    case Influx => "Influx (calls/hr)"
    case AgentDistributionRatio => "Agent Ratio (%)"
  }

  /** The percent sign of the percentages. */
  function Suffix(k: Key): string
  {
    if IsPercentage(k) then "%" else ""
  }

  /** The metrics shown with a percent sign. */
  predicate IsPercentage(k: Key)
  {
    k == CallTrend || k == ServiceLevelKey || k == OccupancyKey || k == AgentDistributionRatio
  }

  /** `metric[key]`. */
  function Field(m: MetricRow, k: Key): real
  {
    match k
    case Actual => m.actual
    case Requirement => m.requirement
    case Variance => m.variance
    case CallTrend => m.callTrend
    case Aht => m.aht
    case ServiceLevelKey => m.serviceLevel
    case OccupancyKey => m.occupancy
    case Influx => m.influx as real
    case AgentDistributionRatio => m.agentDistributionRatio
  }

  /** The Tailwind classes of the variance cells. */
  const Green := "text-green-600"
  const Red := "text-red-600"
  const Yellow := "text-yellow-600"

  /** `getVarianceColor(metricKey, value)`: only the variance row is
      coloured, green above 0, red below -2, yellow in between. */
  function VarianceColor(metricKey: string, value: real): (c: string)
    ensures metricKey != "variance" ==> c == ""
    ensures metricKey == "variance" ==> c != ""
    ensures metricKey == "variance" ==> (c == Green <==> value > 0.0) && (c == Red <==> value < -2.0)
  {
    if metricKey == "variance" then
      if value > 0.0 then Green else if value < -2.0 then Red else Yellow
    else ""
  }

  /** A table cell: its text and its classes. */
  datatype TableCell = TableCell(text: string, className: string)

  /** The cell of metric k for one interval: the value to one decimal place,
      with a percent sign for the percentages. */
  function CellOf(m: MetricRow, k: Key): TableCell
  {
    var v := Field(m, k);
    TableCell(ToFixed1(v) + Suffix(k), VarianceColor(KeyName(k), v))
  }

  /** The table body: for each metric type its label and one cell per
      interval. */
  function Transposed(metrics: seq<MetricRow>): seq<(string, seq<TableCell>)>
  {
    seq(|MetricTypes|, r requires 0 <= r < |MetricTypes| =>
      (Label(MetricTypes[r]), seq(|metrics|, j requires 0 <= j < |metrics| => CellOf(metrics[j], MetricTypes[r]))))
  }

  /** Every value of a computed row is a whole number of tenths. */
  lemma FieldsAreWholeTenths(lib: Library, cfg: Config, time: string, totalVolume: int, avgAHT: real, rostered: real, totalAgents: int, k: Key)
    ensures WholeTenths(Field(RowFrom(lib, cfg, time, totalVolume, avgAHT, rostered, totalAgents), k))
  {
    var row := RowFrom(lib, cfg, time, totalVolume, avgAHT, rostered, totalAgents);
    var effectiveVolume := EffectiveVolume(lib, cfg, totalVolume);
    var required := StaffingChart.RequiredAgents(lib, cfg, effectiveVolume, avgAHT);
    match k
    case Actual => TenthsAreWhole(rostered);
    case Requirement => TenthsAreWhole(required);
    case Variance => TenthsAreWhole(lib.variance(rostered, required));
    case CallTrend => TenthsAreWhole(lib.callTrend(effectiveVolume, totalVolume as real));
    case Aht => TenthsAreWhole(avgAHT / 60.0);
    case ServiceLevelKey => TenthsAreWhole(ServiceLevel(lib, cfg, effectiveVolume, avgAHT, rostered));
    case OccupancyKey => TenthsAreWhole(Occupancy(lib, effectiveVolume, avgAHT, rostered));
    case Influx => WholeTenthsOfInt(row.influx);
    case AgentDistributionRatio => TenthsAreWhole(lib.distributionRatio(rostered, totalAgents as real));
  }

  /** The text of a cell holding a whole number of tenths gives the value
      back: two such values with the same text are equal. */
  lemma CellTextDeterminesValue(m: MetricRow, n: MetricRow, k: Key)
    requires WholeTenths(Field(m, k)) && WholeTenths(Field(n, k))
    requires CellOf(m, k).text == CellOf(n, k).text
    ensures Field(m, k) == Field(n, k)
  {
    ToFixed1Injective(Field(m, k), Field(n, k), Suffix(k));
  }

  /** Only the variance key reads as `'variance'`. */
  lemma KeyNameOfVariance(k: Key)
    ensures KeyName(k) == "variance" <==> k == Variance
  {
    if k != Variance {
      assert |KeyName(k)| != 8;
    }
  }

  /** The transposed table has one row per metric type, labelled with it,
      and each row has one cell per interval column holding that interval's
      value; only the variance row is coloured, green exactly where the
      variance is positive. */
  lemma TransposedLayout(metrics: seq<MetricRow>)
    ensures var t := Transposed(metrics);
      |t| == 9 &&
      forall r :: 0 <= r < 9 ==>
        t[r].0 == Label(MetricTypes[r]) && |t[r].1| == |metrics| &&
        forall j :: 0 <= j < |metrics| ==>
          t[r].1[j] == CellOf(metrics[j], MetricTypes[r]) &&
          (t[r].1[j].className != "" <==> MetricTypes[r] == Variance) &&
          (MetricTypes[r] == Variance ==> (t[r].1[j].className == Green <==> metrics[j].variance > 0.0))
  {
    forall k: Key ensures KeyName(k) == "variance" <==> k == Variance {
      KeyNameOfVariance(k);
    }
  }

  /** When the library's variance is rostered minus required, the colour of
      the variance cell is read from the staffing gap: green from 0.05
      agents over the requirement, red more than 2.05 under it, yellow in
      between. */
  lemma VarianceColourFromGap(lib: Library, cfg: Config, time: string, totalVolume: int, avgAHT: real, rostered: real, totalAgents: int)
    requires VarianceIsDifference(lib)
    ensures var row := RowFrom(lib, cfg, time, totalVolume, avgAHT, rostered, totalAgents);
      var gap := rostered - StaffingChart.RequiredAgents(lib, cfg, EffectiveVolume(lib, cfg, totalVolume), avgAHT);
      (VarianceColor("variance", row.variance) == Green <==> gap >= 0.05) &&
      (VarianceColor("variance", row.variance) == Red <==> gap < -2.05) &&
      (VarianceColor("variance", row.variance) == Yellow <==> -2.05 <= gap < 0.05)
  {
    var gap := rostered - StaffingChart.RequiredAgents(lib, cfg, EffectiveVolume(lib, cfg, totalVolume), avgAHT);
    TenthsPositive(gap);
    TenthsBelowMinusTwo(gap);
    assert Green != Red && Green != Yellow && Red != Yellow by {
      assert Green[5] == 'g' && Red[5] == 'r' && Yellow[5] == 'y';
    }
  }
}
