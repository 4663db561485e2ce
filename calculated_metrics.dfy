/** The calculated metrics table (`src/components/CalculatedMetricsTable.tsx`):
    one row per interval with volume or rostered agents, computed with a
    linear staffing requirement instead of Erlang C, and the helpers that
    colour and format the row. */
module CalculatedMetrics {
  import opened Js
  import opened Aggregation
  import opened Settings
  import opened IntervalLabels
  import opened TimeFormat

  /** One table row. A service level of `None` is JavaScript's `NaN`. */
  datatype MetricRow = MetricRow(
    time: string,
    actual: int,
    requirement: real,
    variance: real,
    callTrend: int,
    aht: int,
    serviceLevel: Option<real>,
    occupancy: real,
    influx: int,
    agentDistributionRatio: real)

  /** The call trend every row reports. */
  const CallTrend := 100

  /** An agent's productive hours in a half-hour interval after
      out-of-office shrinkage and billable breaks (in-office shrinkage is not
      applied here). */
  function AgentWorkHours(cfg: Config): real
  {
    0.5 * (1.0 - (cfg.outOfOfficeShrinkage + cfg.billableBreak) / 100.0)
  }

  /** A configuration that leaves agents some working time. With
      out-of-office shrinkage and billable breaks adding up to 100% the
      table divides by zero. */
  type WorkableConfig = cfg: Config | AgentWorkHours(cfg) != 0.0
    witness Config(4, 1560.0, 80.0, 30.0, 0.0, 0.0, 0.0)

  /** `parseInt(rosterGrid[0]?.[i] || '0') || 0`: only the first roster row
      is read; a missing, empty or unparseable cell gives 0. */
  function RosteredAgents(grid: Grid, i: nat): int
  {
    CellValue(Cell(grid, 0, i))
  }

  /** The staff hours the interval's calls need: volume times AHT, in
      hours. */
  function StaffHoursRequired(totalVolume: int, avgAHT: real): real
  {
    totalVolume as real * avgAHT / 3600.0
  }

  /** Staff hours over the hours one agent works in the interval, written
      with a single division (`StaffHoursAndRequirement` shows it is the
      quotient the table computes). */
  function Requirement(cfg: WorkableConfig, totalVolume: int, avgAHT: real): real
  {
    totalVolume as real * avgAHT / (3600.0 * AgentWorkHours(cfg))
  }

  function Abs(x: real): real { if x < 0.0 then -x else x }

  /** `Math.min(100, Math.max(0, x))`. */
  function Clamp(x: real): (r: real)
    ensures 0.0 <= r <= 100.0
    ensures 0.0 <= x <= 100.0 ==> r == x
  {
    if x > 100.0 then 100.0 else if x < 0.0 then 0.0 else x
  }

  /** The service-level estimate: the target moved up by 20 points per unit
      of relative over-staffing, or down by 30 per unit of relative
      under-staffing, clamped to [0, 100]. With a zero requirement the
      relative variance is an infinity (100 or 0 after clamping) or, with no
      agents either, `NaN`. */
  function ServiceLevel(slaTarget: real, rostered: int, requirement: real): (r: Option<real>)
    ensures r.Some? ==> 0.0 <= r.value <= 100.0
    ensures r.None? <==> requirement == 0.0 && rostered == 0
  {
    if requirement == 0.0 then
      if rostered > 0 then Some(100.0) else if rostered < 0 then Some(0.0) else None
    else
      var variance := rostered as real - requirement;
      Some(Clamp(if rostered as real >= requirement
                 then slaTarget + (variance / requirement) * 20.0
                 else slaTarget - Abs(variance / requirement) * 30.0))
  }

  /** Busy hours over scheduled agent hours, in percent, capped at 100; 0
      without rostered agents. Written with a single division, like
      `Requirement`. */
  function Occupancy(cfg: WorkableConfig, rostered: int, totalVolume: int, avgAHT: real): (r: real)
    ensures r <= 100.0
    ensures rostered <= 0 ==> r == 0.0
  {
    if rostered > 0
    then
      var x := totalVolume as real * avgAHT / (3600.0 * rostered as real * AgentWorkHours(cfg)) * 100.0;
      if x < 100.0 then x else 100.0
    else 0.0
  }

  /** The single divisions of `Requirement` and `Occupancy` are the
      table's two-step quotients: staff hours over agent work hours, and
      staff hours over the rostered agents' work hours. */
  lemma StaffHoursAndRequirement(cfg: WorkableConfig, rostered: int, totalVolume: int, avgAHT: real)
    ensures Requirement(cfg, totalVolume, avgAHT) == StaffHoursRequired(totalVolume, avgAHT) / AgentWorkHours(cfg)
    ensures rostered > 0 ==>
      Occupancy(cfg, rostered, totalVolume, avgAHT)
      == var x := StaffHoursRequired(totalVolume, avgAHT) / (rostered as real * AgentWorkHours(cfg)) * 100.0;
         if x < 100.0 then x else 100.0
  {
    var a, w := totalVolume as real * avgAHT, AgentWorkHours(cfg);
    QuotientOfQuotient(a, 3600.0, w);
    if rostered > 0 {
      QuotientOfQuotient(a, 3600.0, rostered as real * w);
      assert 3600.0 * rostered as real * w == 3600.0 * (rostered as real * w);
    }
  }

  /** `(a / b) / c == a / (b * c)` for non-zero divisors. */
  lemma QuotientOfQuotient(a: real, b: real, c: real)
    requires b != 0.0 && c != 0.0
    ensures (a / b) / c == a / (b * c)
  {
    var p, q := a / b, a / (b * c);
    assert p * b == a;
    assert q * (b * c) == a;
    assert (p / c) * c == p;
    assert (p / c) * c * b == q * c * b;
  }

  /** `rosterGrid[0]?.reduce(...) || 1`: the first row's total, with 1 in
      place of 0 (and of a missing row). */
  function TotalAgents(grid: Grid): (n: int)
    ensures n != 0
    ensures RowTotal(grid, 0) != 0 ==> n == RowTotal(grid, 0)
  {
    var sum := RowTotal(grid, 0);
    if sum == 0 then 1 else sum
  }

  /** `Math.round(x * 10) / 10` on a value that may be `NaN`. */
  function TenthsOf(x: Option<real>): Option<real>
  {
    match x
    case None => None
    case Some(v) => Some(Tenths(v))
  }

  /** The row the formulas give for an interval with the given label,
      volume, average AHT, rostered agents and first-row total. */
  function RowFrom(cfg: WorkableConfig, time: string, totalVolume: int, avgAHT: real, rostered: int, totalAgents: int): MetricRow
    requires totalAgents != 0
  {
    var requirement := Requirement(cfg, totalVolume, avgAHT);
    var variance := rostered as real - requirement;
    MetricRow(
      time,
      totalVolume,
      Tenths(requirement),
      Tenths(variance),
      CallTrend,
      Round(avgAHT),
      TenthsOf(ServiceLevel(cfg.slaTarget, rostered, requirement)),
      Tenths(Occupancy(cfg, rostered, totalVolume, avgAHT)),
      totalVolume * 2,
      Tenths(rostered as real / totalAgents as real * 100.0))
  }

  /** The row of interval i. */
  function MetricRowOf(cfg: WorkableConfig, vm: Matrix, am: Matrix, grid: Grid, i: nat): MetricRow
  {
    var totalDays := TotalDays(cfg.weeks);
    RowFrom(cfg, StartDisplay(i), TotalVolume(vm, i, totalDays), AverageAht(vm, am, i, totalDays, cfg.plannedAHT),
      RosteredAgents(grid, i), TotalAgents(grid))
  }

  /** Whether interval i gets a row: some volume or some rostered agents. */
  predicate Emitted(cfg: Config, vm: Matrix, grid: Grid, i: nat)
  {
    TotalVolume(vm, i, TotalDays(cfg.weeks)) > 0 || RosteredAgents(grid, i) > 0
  }

  function EmitFilter(cfg: Config, vm: Matrix, grid: Grid): nat -> bool
  {
    (i: nat) => Emitted(cfg, vm, grid, i)
  }

  function RowOf(cfg: WorkableConfig, vm: Matrix, am: Matrix, grid: Grid): nat -> MetricRow
  {
    (i: nat) => MetricRowOf(cfg, vm, am, grid, i)
  }

  /** The rows pushed for intervals 0 .. n-1, in interval order. */
  function MetricRows(cfg: WorkableConfig, vm: Matrix, am: Matrix, grid: Grid, n: nat): seq<MetricRow>
  {
    Gather(RowOf(cfg, vm, am, grid), EmitFilter(cfg, vm, grid), n)
  }

  lemma RowOfAndFilter(cfg: WorkableConfig, vm: Matrix, am: Matrix, grid: Grid, i: nat)
    ensures RowOf(cfg, vm, am, grid)(i) == MetricRowOf(cfg, vm, am, grid, i)
    ensures EmitFilter(cfg, vm, grid)(i) == Emitted(cfg, vm, grid, i)
  {
  }

  /** `calculateMetrics()`: the loop over the 48 intervals. */
  method CalculateMetrics(cfg: WorkableConfig, vm: Matrix, am: Matrix, grid: Grid) returns (metrics: seq<MetricRow>)
    ensures metrics == MetricRows(cfg, vm, am, grid, IntervalsPerDay)
  {
    metrics := [];
    var intervalIndex := 0;
    while intervalIndex < IntervalsPerDay
      invariant 0 <= intervalIndex <= IntervalsPerDay
      invariant metrics == MetricRows(cfg, vm, am, grid, intervalIndex)
    {
      metrics := PushInterval(cfg, vm, am, grid, intervalIndex, metrics);
      intervalIndex := intervalIndex + 1;
    }
  }

  /** One pass of that loop: the interval's row is pushed when the interval
      has volume or rostered agents. */
  method PushInterval(cfg: WorkableConfig, vm: Matrix, am: Matrix, grid: Grid, intervalIndex: nat, metrics: seq<MetricRow>)
    returns (pushed: seq<MetricRow>)
    requires metrics == MetricRows(cfg, vm, am, grid, intervalIndex)
    ensures pushed == MetricRows(cfg, vm, am, grid, intervalIndex + 1)
  {
    var emit, row := IntervalRow(cfg, vm, am, grid, intervalIndex);
    GatherStep(RowOf(cfg, vm, am, grid), EmitFilter(cfg, vm, grid), intervalIndex, emit, row);
    pushed := metrics;
    if emit {
      pushed := pushed + [row];
    }
  }

  /** The body of that loop for one interval: the day loop, the formulas,
      and whether the row is pushed. */
  method IntervalRow(cfg: WorkableConfig, vm: Matrix, am: Matrix, grid: Grid, intervalIndex: nat) returns (emit: bool, row: MetricRow)
    ensures emit == EmitFilter(cfg, vm, grid)(intervalIndex)
    ensures row == RowOf(cfg, vm, am, grid)(intervalIndex)
  {
    var totalDays := TotalDays(cfg.weeks);
    var timeDisplay := StartDisplay(intervalIndex);
    var totalVolume, totalAHT, validDays, avgAHT := AggregateInterval(vm, am, intervalIndex, totalDays, cfg.plannedAHT);
    var rosteredAgents := CellValue(Cell(grid, 0, intervalIndex));
    var totalAgents := TotalAgents(grid);
    row := IntervalFormulas(cfg, timeDisplay, totalVolume, avgAHT, rosteredAgents, totalAgents);
    emit := totalVolume > 0 || rosteredAgents > 0;
    RowOfAndFilter(cfg, vm, am, grid, intervalIndex);
  }

  /** The formulas of that loop body, from the interval's figures to its
      row. */
  method IntervalFormulas(cfg: WorkableConfig, timeDisplay: string, totalVolume: int, avgAHT: real, rosteredAgents: int, totalAgents: int)
    returns (row: MetricRow)
    requires totalAgents != 0
    ensures row == RowFrom(cfg, timeDisplay, totalVolume, avgAHT, rosteredAgents, totalAgents)
  {
    var actual := totalVolume;
    var staffHoursRequired := totalVolume as real * avgAHT / 3600.0;
    var agentWorkHours := 0.5 * (1.0 - (cfg.outOfOfficeShrinkage + cfg.billableBreak) / 100.0);
    assert agentWorkHours == AgentWorkHours(cfg);
    var requirement := staffHoursRequired / agentWorkHours;
    assert requirement == Requirement(cfg, totalVolume, avgAHT) by {
      StaffHoursAndRequirement(cfg, rosteredAgents, totalVolume, avgAHT);
    }
    var variance := rosteredAgents as real - requirement;
    var serviceLevel := ServiceLevel(cfg.slaTarget, rosteredAgents, requirement);
    var occupancy := Occupancy(cfg, rosteredAgents, totalVolume, avgAHT);
    var influx := totalVolume * 2;
    var agentDistributionRatio := rosteredAgents as real / totalAgents as real * 100.0;
    row := MetricRow(timeDisplay, actual, Tenths(requirement), Tenths(variance), CallTrend,
      Round(avgAHT), TenthsOf(serviceLevel), Tenths(occupancy), influx, Tenths(agentDistributionRatio));
  }

  /** The rows are exactly the rows of the emitted intervals, in increasing
      interval order: row k is the row of the k-th emitted interval. */
  lemma MetricRowsFollowEmission(cfg: WorkableConfig, vm: Matrix, am: Matrix, grid: Grid, n: nat)
    ensures var idx := Where(n, EmitFilter(cfg, vm, grid));
      |MetricRows(cfg, vm, am, grid, n)| == |idx| &&
      forall k :: 0 <= k < |idx| ==> MetricRows(cfg, vm, am, grid, n)[k] == MetricRowOf(cfg, vm, am, grid, idx[k])
  {
    GatherFollowsWhere(RowOf(cfg, vm, am, grid), EmitFilter(cfg, vm, grid), n);
  }

  /** What the table shows: each row belongs to an emitted interval and is
      labelled with its start time, rows are in increasing interval order,
      and every emitted interval has a row. */
  lemma MetricRowsEmission(cfg: WorkableConfig, vm: Matrix, am: Matrix, grid: Grid)
    ensures var rows := MetricRows(cfg, vm, am, grid, IntervalsPerDay);
      var idx := Where(IntervalsPerDay, EmitFilter(cfg, vm, grid));
      |rows| == |idx| &&
      (forall k :: 0 <= k < |rows| ==> idx[k] < IntervalsPerDay && Emitted(cfg, vm, grid, idx[k]) && rows[k].time == StartDisplay(idx[k])) &&
      (forall k, l :: 0 <= k < l < |rows| ==> idx[k] < idx[l]) &&
      (forall i :: 0 <= i < IntervalsPerDay && Emitted(cfg, vm, grid, i) ==> i in idx)
  {
    MetricRowsFollowEmission(cfg, vm, am, grid, IntervalsPerDay);
  }

  /** A shown service level is a percentage, and it is `NaN` exactly for an
      interval with neither requirement nor agents. */
  lemma ServiceLevelIsPercent(cfg: WorkableConfig, time: string, totalVolume: int, avgAHT: real, rostered: int, totalAgents: int)
    requires totalAgents != 0
    ensures var row := RowFrom(cfg, time, totalVolume, avgAHT, rostered, totalAgents);
      (row.serviceLevel.Some? ==> 0.0 <= row.serviceLevel.value <= 100.0) &&
      (row.serviceLevel.None? <==> Requirement(cfg, totalVolume, avgAHT) == 0.0 && rostered == 0)
  {
    var sl := ServiceLevel(cfg.slaTarget, rostered, Requirement(cfg, totalVolume, avgAHT));
    if sl.Some? {
      TenthsWithin(sl.value, 0, 100);
    }
  }

  /** Occupancy is never above 100, and 0 without rostered agents. */
  lemma OccupancyAtMostFull(cfg: WorkableConfig, time: string, totalVolume: int, avgAHT: real, rostered: int, totalAgents: int)
    requires totalAgents != 0
    ensures RowFrom(cfg, time, totalVolume, avgAHT, rostered, totalAgents).occupancy <= 100.0
    ensures rostered <= 0 ==> RowFrom(cfg, time, totalVolume, avgAHT, rostered, totalAgents).occupancy == 0.0
  {
    var occupancy := Occupancy(cfg, rostered, totalVolume, avgAHT);
    var k := Round(occupancy * 10.0);
    assert k as real <= occupancy * 10.0 + 0.5;
    assert k <= 1000;
  }

  /** The actual column is the interval's volume, never negative, the
      influx twice that, and the call trend the constant 100. */
  lemma ActualAndInflux(cfg: WorkableConfig, vm: Matrix, am: Matrix, grid: Grid, i: nat)
    ensures var row := MetricRowOf(cfg, vm, am, grid, i);
      row.actual == TotalVolume(vm, i, TotalDays(cfg.weeks)) && row.influx == 2 * row.actual && row.callTrend == 100
      && row.actual >= 0
  {
    TotalVolumeCountsValidDays(vm, i, TotalDays(cfg.weeks));
  }

  /** A cell of a row whose cells are all non-negative is at most the row's
      sum. */
  lemma {:induction false} CellAtMostRowSum(row: Arr<string>, c: nat)
    requires forall k :: 0 <= k < |row| ==> CellValue(row[k]) >= 0
    ensures 0 <= CellValue(At(row, c)) <= RowSum(row)
  {
    if row != [] {
      var p := row[..|row| - 1];
      assert forall k :: 0 <= k < |p| ==> p[k] == row[k];
      CellAtMostRowSum(p, c);
      if c < |p| {
        assert At(row, c) == At(p, c);
      }
    }
  }

  /** When no cell of the first roster row is negative, an interval's
      rostered agents are between 0 and the first row's total. */
  lemma RosteredWithinTotal(grid: Grid, i: nat)
    requires At(grid, 0).Some? ==> forall k :: 0 <= k < |grid[0].value| ==> CellValue(grid[0].value[k]) >= 0
    ensures 0 <= RosteredAgents(grid, i) <= TotalAgents(grid)
  {
    if At(grid, 0).Some? {
      CellAtMostRowSum(grid[0].value, i);
    }
  }

  /** With rostered agents between 0 and the first row's total, the agent
      distribution ratio is a percentage. */
  lemma RatioIsPercent(cfg: WorkableConfig, time: string, totalVolume: int, avgAHT: real, rostered: int, totalAgents: int)
    requires 0 <= rostered <= totalAgents && totalAgents != 0
    ensures 0.0 <= RowFrom(cfg, time, totalVolume, avgAHT, rostered, totalAgents).agentDistributionRatio <= 100.0
  {
    ShareIsPercent(rostered, totalAgents);
  }

  /** A part between 0 and a positive whole, as a percentage to one decimal
      place, is between 0 and 100. */
  lemma ShareIsPercent(part: int, whole: int)
    requires 0 <= part <= whole && whole > 0
    ensures 0.0 <= Tenths(part as real / whole as real * 100.0) <= 100.0
  {
    var q := part as real / whole as real;
    assert q * whole as real == part as real;
    assert 0.0 <= q <= 1.0;
    TenthsWithin(q * 100.0, 0, 100);
  }

  /** With all AHT cells and the planned AHT in [lo, hi], the shown AHT is
      within the rounded bounds. */
  lemma AhtWithinBounds(cfg: WorkableConfig, vm: Matrix, am: Matrix, grid: Grid, i: nat, lo: int, hi: int)
    requires lo as real <= cfg.plannedAHT <= hi as real
    requires forall d :: 0 <= d < TotalDays(cfg.weeks) ==> lo as real <= AhtAt(am, d, i, cfg.plannedAHT) <= hi as real
    ensures lo <= MetricRowOf(cfg, vm, am, grid, i).aht <= hi
  {
    AverageAhtBounds(vm, am, i, TotalDays(cfg.weeks), cfg.plannedAHT, lo as real, hi as real);
  }

  // ---------------------------------------------------------------------
  // Presentation helpers

  /** The text a template literal gives a number of whole tenths, with
      `NaN` for the service level that is not a number. */
  function NumberText(v: Option<real>): (r: string)
    requires v.Some? ==> WholeTenths(v.value)
    ensures v.None? ==> r == "NaN"
    ensures v.Some? ==> r == Decimal1(Round(v.value * 10.0)) && Round(v.value * 10.0) as real == v.value * 10.0
  {
    match v
    case None => "NaN"
    case Some(x) => RoundOfWholeTenths(x); Decimal1(Round(x * 10.0))
  }

  /** Whether a number is a whole number of seconds. */
  predicate Whole(v: Option<real>)
  {
    v.Some? && v.value.Floor as real == v.value
  }

  /** `formatValue(value, type)` on the numbers the table hands it: whole
      tenths, or `NaN`, for a percentage; whole seconds for a time. */
  function FormatValue(value: Option<real>, kind: string): (r: string)
    requires value.Some? ==> WholeTenths(value.value)
    requires kind == "time" ==> Whole(value)
    ensures kind == "percentage" ==> |r| >= 1 && r[|r| - 1] == '%' && r[..|r| - 1] == NumberText(value)
    ensures kind == "time" ==> r == MinutesSeconds(value.value.Floor)
    ensures kind != "percentage" && kind != "time" ==> r == NumberText(value)
  {
    if kind == "percentage" then NumberText(value) + "%"
    else if kind == "time" then MinutesSeconds(value.value.Floor)
    else NumberText(value)
  }

  /** A whole percentage is written as the integer and a percent sign. */
  lemma PercentageOfInteger(n: int)
    ensures WholeTenths(n as real) && FormatValue(Some(n as real), "percentage") == IntToString(n) + "%"
  {
    WholeTenthsOfInt(n);
    RoundOfWholeTenths(n as real);
    var k := Round(n as real * 10.0);
    assert k == 10 * n;
    assert k % 10 == 0 && k / 10 == n;
  }

  /** The service level that is not a number shows as "NaN%". */
  lemma PercentageOfNaN()
    ensures FormatValue(None, "percentage") == "NaN%"
  {
  }

  /** A percentage with a tenths digit keeps it: 80.5 shows as "80.5%". */
  lemma PercentageOfTenths()
    ensures WholeTenths(80.5) && FormatValue(Some(80.5), "percentage") == "80.5%"
  {
    assert 80.5 * 10.0 == 805.0;
    assert Round(805.0) == 805;
    assert NatToString(80) == "80" by {
      assert NatToString(8) == "8";
    }
    assert Fixed1(805) == "80.5" by {
      assert Unsigned1(805) == NatToString(80) + "." + [DigitChar(5)];
    }
  }

  /** A percentage cell's text determines the number in it. */
  lemma PercentageTextInjective(v: Option<real>, w: Option<real>)
    requires v.Some? ==> WholeTenths(v.value)
    requires w.Some? ==> WholeTenths(w.value)
    requires FormatValue(v, "percentage") == FormatValue(w, "percentage")
    ensures v == w
  {
    var s, t := FormatValue(v, "percentage"), FormatValue(w, "percentage");
    assert NumberText(v) == s[..|s| - 1] == NumberText(w);
    if v.Some? && w.Some? {
      Decimal1Injective(Round(v.value * 10.0), Round(w.value * 10.0));
    } else if v.Some? || w.Some? {
      assert false;
    }
  }

  /** Whether a row's percentage figures are whole tenths, as the
      formulas leave them. */
  predicate Renderable(row: MetricRow)
  {
    WholeTenths(row.occupancy) && WholeTenths(row.agentDistributionRatio) &&
    (row.serviceLevel.Some? ==> WholeTenths(row.serviceLevel.value))
  }

  /** The four percentage cells of a row: call trend, service level,
      occupancy and agent ratio. */
  function PercentageCells(row: MetricRow): (cells: seq<string>)
    requires Renderable(row)
    ensures |cells| == 4
  {
    WholeTenthsOfInt(row.callTrend);
    [FormatValue(Some(row.callTrend as real), "percentage"), FormatValue(row.serviceLevel, "percentage"),
     FormatValue(Some(row.occupancy), "percentage"), FormatValue(Some(row.agentDistributionRatio), "percentage")]
  }

  /** Every row the formulas give can be rendered. */
  lemma RowFromRenderable(cfg: WorkableConfig, time: string, totalVolume: int, avgAHT: real, rostered: int, totalAgents: int)
    requires totalAgents != 0
    ensures Renderable(RowFrom(cfg, time, totalVolume, avgAHT, rostered, totalAgents))
  {
    var requirement := Requirement(cfg, totalVolume, avgAHT);
    TenthsAreWhole(Occupancy(cfg, rostered, totalVolume, avgAHT));
    TenthsAreWhole(rostered as real / totalAgents as real * 100.0);
    var sl := ServiceLevel(cfg.slaTarget, rostered, requirement);
    if sl.Some? {
      TenthsAreWhole(sl.value);
    }
  }

  /** Rows whose percentage cells read the same have the same service
      level, occupancy and agent ratio. */
  lemma PercentageCellsInjective(m: MetricRow, n: MetricRow)
    requires Renderable(m) && Renderable(n) && PercentageCells(m) == PercentageCells(n)
    ensures m.serviceLevel == n.serviceLevel && m.occupancy == n.occupancy
    ensures m.agentDistributionRatio == n.agentDistributionRatio
  {
    assert PercentageCells(m)[1] == PercentageCells(n)[1];
    assert PercentageCells(m)[2] == PercentageCells(n)[2];
    assert PercentageCells(m)[3] == PercentageCells(n)[3];
    PercentageTextInjective(m.serviceLevel, n.serviceLevel);
    PercentageTextInjective(Some(m.occupancy), Some(n.occupancy));
    PercentageTextInjective(Some(m.agentDistributionRatio), Some(n.agentDistributionRatio));
  }

  /** The Tailwind classes of the variance cell. */
  const Green := "text-chart-2"
  const Red := "text-chart-1"
  const Yellow := "text-chart-4"

  function VarianceColor(variance: real): string
  {
    if variance > 0.0 then Green else if variance < -2.0 then Red else Yellow
  }

  datatype Icon = TrendingUp | TrendingDown | NoIcon

  function VarianceIcon(variance: real): Icon
  {
    if variance > 0.0 then TrendingUp else if variance < 0.0 then TrendingDown else NoIcon
  }

  /** The colour's rank: red below yellow below green. */
  function ColorRank(color: string): int
  {
    if color == Green then 2 else if color == Yellow then 1 else 0
  }

  /** Colour and icon agree: green exactly with the up arrow, red only with
      the down arrow, and a larger variance never gets a lower colour. */
  lemma VarianceColorAndIcon(v: real, w: real)
    ensures VarianceColor(v) == Green <==> VarianceIcon(v) == TrendingUp
    ensures VarianceColor(v) == Red ==> VarianceIcon(v) == TrendingDown
    ensures VarianceColor(v) == Yellow <==> -2.0 <= v <= 0.0
    ensures VarianceIcon(v) == NoIcon <==> v == 0.0
    ensures v <= w ==> ColorRank(VarianceColor(v)) <= ColorRank(VarianceColor(w))
  {
    assert Green != Red && Green != Yellow && Red != Yellow by {
      assert Green[11] == '2' && Red[11] == '1' && Yellow[11] == '4';
    }
  }
}
