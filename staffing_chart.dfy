/** The live staffing chart (`src/components/StaffingChart.tsx`): the
    roster-count row above the chart, which fills a column of the roster
    grid over a wrapping shift of rows, the roster counts read back from the
    grid, the per-interval metrics behind each chart point, and the live
    service level and occupancy. */
module StaffingChart {
  import opened Js
  import opened Aggregation
  import opened Settings
  import opened Erlang
  import opened IntervalLabels

  /** The shift length a column starts with, and the one `|| 17` falls back
      to. */
  const DefaultShiftLength := 17

  /** `shiftCounts[colIndex] || 17`: a missing or zero entry gives 17. */
  function ShiftLength(shiftCounts: Arr<int>, col: nat): (k: int)
    ensures k != 0
  {
    match At(shiftCounts, col)
    case None => DefaultShiftLength
    case Some(s) => if s == 0 then DefaultShiftLength else s
  }

  // ---------------------------------------------------------------------
  // Filling a roster column over a wrapping shift

  /** The row the loop writes at a given offset: `(colIndex + rowOffset) % 48`. */
  function ShiftRow(col: nat, offset: nat): nat
  {
    (col + offset) % IntervalsPerDay
  }

  /** Row r is one of the k rows `(col + offset) % 48`, offset < k, that a
      shift starting at column col covers. */
  predicate InShift(r: int, col: int, k: int)
  {
    (r - col) % IntervalsPerDay < k
  }

  /** The closed form agrees with the loop's enumeration of offsets. */
  lemma InShiftByOffset(r: nat, col: nat, k: int)
    requires r < IntervalsPerDay
    ensures InShift(r, col, k) <==> exists offset: nat :: offset < k && ShiftRow(col, offset) == r
  {
    var j0 := (r - col) % IntervalsPerDay;
    OffsetHitsRow(r, col, j0);
    assert ShiftRow(col, j0) == r;
    if exists offset: nat :: offset < k && ShiftRow(col, offset) == r {
      var offset: nat :| offset < k && ShiftRow(col, offset) == r;
      RowFixesOffset(r, col, offset);
    }
  }

  lemma OffsetHitsRow(r: nat, col: nat, j: int)
    requires r < IntervalsPerDay && j == (r - col) % IntervalsPerDay
    ensures 0 <= j && (col + j) % IntervalsPerDay == r
  {
    var q := (r - col) / IntervalsPerDay;
    assert r - col == q * IntervalsPerDay + j;
    assert col + j == r + (-q) * IntervalsPerDay;
  }

  lemma RowFixesOffset(r: nat, col: nat, offset: nat)
    requires r < IntervalsPerDay && (col + offset) % IntervalsPerDay == r
    ensures (r - col) % IntervalsPerDay <= offset
  {
    var q := (col + offset) / IntervalsPerDay;
    assert col + offset == q * IntervalsPerDay + r;
    assert r - col == (-q) * IntervalsPerDay + offset;
    ModOfShift(r - col, -q, offset);
  }

  lemma ModOfShift(x: int, q: int, offset: nat)
    requires x == q * IntervalsPerDay + offset
    ensures x % IntervalsPerDay <= offset
  {
    var m := x % IntervalsPerDay;
    var p := x / IntervalsPerDay;
    assert x == p * IntervalsPerDay + m;
    assert (p - q) * IntervalsPerDay == offset - m;
  }

  /** The row `updateRosterCount` works on: the existing one, or a fresh
      `Array(48).fill('')` for a missing one. */
  function BaseRow(grid: Grid, r: int): Arr<string>
  {
    match At(grid, r)
    case None => Filled(IntervalsPerDay, "")
    case Some(row) => row
  }

  /** The text row r of the filled column ends up with. */
  function FillText(r: int, col: int, value: int, shift: int): string
  {
    if value > 0 && InShift(r, col, shift) then IntToString(value) else ""
  }

  /** The grid `updateRosterCount(col, value)` hands on: each of the first 48
      rows exists and holds the fill text in column col; later rows are as
      they were. */
  function FilledGrid(grid: Grid, col: nat, value: int, shift: int): Grid
  {
    seq(if |grid| < IntervalsPerDay then IntervalsPerDay else |grid|,
        r => if r < IntervalsPerDay then Some(Put(BaseRow(grid, r), col, FillText(r, col, value, shift))) else At(grid, r))
  }

  /** The three loops of `updateRosterCount` on a copy of the grid: create
      the missing rows, clear column col, then write the value into the
      shift's rows (only when the value is positive). */
  method FillColumn(grid: Grid, col: nat, value: int, shift: int) returns (newGrid: Grid)
    ensures newGrid == FilledGrid(grid, col, value, shift)
  {
    newGrid := InitializeRows(grid);
    newGrid := ClearColumn(grid, col, newGrid);
    if value > 0 {
      newGrid := WriteShift(grid, col, value, shift, newGrid);
    }
    if value <= 0 {
      assert forall r :: 0 <= r < IntervalsPerDay ==> FillText(r, col, value, shift) == "";
    }
  }

  /** The first loop: every missing row among the first 48 becomes a row of
      48 blanks. */
  method InitializeRows(grid: Grid) returns (newGrid: Grid)
    ensures |newGrid| == if |grid| < IntervalsPerDay then IntervalsPerDay else |grid|
    ensures forall r :: 0 <= r < IntervalsPerDay ==> newGrid[r] == Some(BaseRow(grid, r))
    ensures forall r :: IntervalsPerDay <= r < |newGrid| ==> newGrid[r] == grid[r]
  {
    newGrid := grid;
    var i := 0;
    while i < IntervalsPerDay
      invariant 0 <= i <= IntervalsPerDay
      invariant |newGrid| == if |grid| < i then i else |grid|
      invariant forall r :: 0 <= r < i ==> newGrid[r] == Some(BaseRow(grid, r))
      invariant forall r :: i <= r < |newGrid| ==> newGrid[r] == grid[r]
    {
      if At(newGrid, i).None? {
        newGrid := Put(newGrid, i, Filled(IntervalsPerDay, ""));
      }
      i := i + 1;
    }
  }

  /** The second loop: column col of the first 48 rows is blanked. */
  method ClearColumn(grid: Grid, col: nat, rows: Grid) returns (newGrid: Grid)
    requires |rows| == if |grid| < IntervalsPerDay then IntervalsPerDay else |grid|
    requires forall r :: 0 <= r < IntervalsPerDay ==> rows[r] == Some(BaseRow(grid, r))
    requires forall r :: IntervalsPerDay <= r < |rows| ==> rows[r] == grid[r]
    ensures |newGrid| == |rows|
    ensures forall r :: 0 <= r < IntervalsPerDay ==> newGrid[r] == Some(Put(BaseRow(grid, r), col, ""))
    ensures forall r :: IntervalsPerDay <= r < |newGrid| ==> newGrid[r] == grid[r]
  {
    newGrid := rows;
    var i := 0;
    while i < IntervalsPerDay
      invariant 0 <= i <= IntervalsPerDay
      invariant |newGrid| == |rows|
      invariant forall r :: 0 <= r < i ==> newGrid[r] == Some(Put(BaseRow(grid, r), col, ""))
      invariant forall r :: i <= r < |newGrid| ==> newGrid[r] == rows[r]
    {
      newGrid := newGrid[i := Some(Put(newGrid[i].value, col, ""))];
      i := i + 1;
    }
  }

  /** The third loop: the value is written into column col of the rows
      `(col + offset) % 48` for every offset below the shift length. */
  method WriteShift(grid: Grid, col: nat, value: int, shift: int, rows: Grid) returns (newGrid: Grid)
    requires value > 0
    requires |rows| == if |grid| < IntervalsPerDay then IntervalsPerDay else |grid|
    requires forall r :: 0 <= r < IntervalsPerDay ==> rows[r] == Some(Put(BaseRow(grid, r), col, ""))
    requires forall r :: IntervalsPerDay <= r < |rows| ==> rows[r] == grid[r]
    ensures newGrid == FilledGrid(grid, col, value, shift)
  {
    newGrid := rows;
    var offset := 0;
    while offset < shift
      invariant 0 <= offset && (offset <= shift || offset == 0)
      invariant |newGrid| == |rows|
      invariant forall r :: 0 <= r < IntervalsPerDay ==> newGrid[r] == Some(Put(BaseRow(grid, r), col, FillText(r, col, value, offset)))
      invariant forall r :: IntervalsPerDay <= r < |newGrid| ==> newGrid[r] == grid[r]
    {
      var target := ShiftRow(col, offset);
      FillStep(grid, col, value, offset, target);
      newGrid := newGrid[target := Some(Put(newGrid[target].value, col, IntToString(value)))];
      offset := offset + 1;
    }
    ShiftCovered(grid, col, value, offset, shift);
  }

  /** Writing the value into row `(col + offset) % 48` extends the filled
      rows from offset to offset + 1. */
  lemma FillStep(grid: Grid, col: nat, value: int, offset: nat, target: int)
    requires value > 0 && target == (col + offset) % IntervalsPerDay
    ensures forall r :: 0 <= r < IntervalsPerDay && r != target ==> FillText(r, col, value, offset + 1) == FillText(r, col, value, offset)
    ensures FillText(target, col, value, offset + 1) == IntToString(value)
    ensures forall r :: 0 <= r < IntervalsPerDay ==>
      Put(Put(BaseRow(grid, r), col, FillText(r, col, value, offset)), col, IntToString(value))
        == Put(BaseRow(grid, r), col, IntToString(value))
  {
    forall r | 0 <= r < IntervalsPerDay && r != target
      ensures InShift(r, col, offset + 1) == InShift(r, col, offset)
    {
      if (r - col) % IntervalsPerDay == offset {
        OffsetHitsRow(r, col, offset);
      }
    }
    OffsetHitsRow(target, col, (target - col) % IntervalsPerDay);
    RowFixesOffset(target, col, offset);
    forall r | 0 <= r < IntervalsPerDay
      ensures Put(Put(BaseRow(grid, r), col, FillText(r, col, value, offset)), col, IntToString(value))
           == Put(BaseRow(grid, r), col, IntToString(value))
    {
      PutPut(BaseRow(grid, r), col, FillText(r, col, value, offset), IntToString(value));
    }
  }

  /** After the last offset the shift is complete: a non-positive shift
      covers nothing, and a longer one all it names. */
  lemma ShiftCovered(grid: Grid, col: nat, value: int, offset: nat, shift: int)
    requires offset == shift || (offset == 0 && shift <= 0)
    ensures forall r :: 0 <= r < IntervalsPerDay ==> FillText(r, col, value, offset) == FillText(r, col, value, shift)
  {
  }

  /** The row the loop writes at offset k < 48 is the one whose distance
      from col, wrapping at 48, is k. */
  lemma OffsetOfShiftRow(col: nat, offset: nat)
    requires offset < IntervalsPerDay
    ensures (ShiftRow(col, offset) - col) % IntervalsPerDay == offset
  {
    var q := (col + offset) / IntervalsPerDay;
    assert ShiftRow(col, offset) - col == (-q) * IntervalsPerDay + offset;
  }

  // ---------------------------------------------------------------------
  // What the filled grid holds

  /** In the first 48 rows, column col holds the value exactly in the rows
      `(col + k) % 48`, k below the shift length, and `''` elsewhere; with a
      non-positive value the whole column is `''`. Later rows are kept. */
  lemma FilledColumnCells(grid: Grid, col: nat, value: int, shift: int, r: nat)
    ensures |FilledGrid(grid, col, value, shift)| == if |grid| < IntervalsPerDay then IntervalsPerDay else |grid|
    ensures r < IntervalsPerDay && value > 0 ==>
      Cell(FilledGrid(grid, col, value, shift), r, col)
        == Some(if exists offset: nat :: offset < shift && ShiftRow(col, offset) == r then IntToString(value) else "")
    ensures r < IntervalsPerDay && value <= 0 ==> Cell(FilledGrid(grid, col, value, shift), r, col) == Some("")
    ensures r >= IntervalsPerDay ==> At(FilledGrid(grid, col, value, shift), r) == At(grid, r)
  {
    if r < IntervalsPerDay {
      InShiftByOffset(r, col, shift);
    }
  }

  /** Every other column keeps its cells; a row that was missing comes back
      as 48 blanks. */
  lemma FilledOtherCells(grid: Grid, col: nat, value: int, shift: int, r: nat, c: int)
    requires c != col
    ensures Cell(FilledGrid(grid, col, value, shift), r, c)
         == if r < IntervalsPerDay && At(grid, r).None? then At(Filled(IntervalsPerDay, ""), c) else Cell(grid, r, c)
  {
  }

  /** On a grid of at most 48 rows, a positive value over a shift of k <= 48
      rows adds up to k times the value down the column. */
  lemma FilledColumnTotal(grid: Grid, col: nat, value: int, k: nat)
    requires |grid| <= IntervalsPerDay && value > 0 && k <= IntervalsPerDay
    ensures ColumnTotal(FilledGrid(grid, col, value, k), col) == value * k
  {
    FilledColumnRepeated(grid, col, value, k);
    RepeatedIsProduct(k, value);
  }

  /** FilledColumnTotal as a sum of k copies of the value, by induction on
      the shift length. */
  lemma {:induction false} FilledColumnRepeated(grid: Grid, col: nat, value: int, k: nat)
    requires |grid| <= IntervalsPerDay && value > 0 && k <= IntervalsPerDay
    ensures ColumnTotal(FilledGrid(grid, col, value, k), col) == Repeated(k, value)
  {
    if k == 0 {
      FilledGridBlank(grid, col, value);
    } else {
      var shorter: nat := k - 1;
      FilledColumnRepeated(grid, col, value, shorter);
      FilledColumnStep(grid, col, value, shorter, k);
      RepeatedOneMore(shorter, k, value);
    }
  }

  /** The inductive step of FilledColumnTotal: one row more adds the value once. */
  lemma FilledColumnStep(grid: Grid, col: nat, value: int, shorter: nat, k: nat)
    requires |grid| <= IntervalsPerDay && value > 0 && k == shorter + 1 <= IntervalsPerDay
    ensures ColumnTotal(FilledGrid(grid, col, value, k), col) == ColumnTotal(FilledGrid(grid, col, value, shorter), col) + value
  {
    var t := ShiftRow(col, shorter);
    var x := Some(Put(BaseRow(grid, t), col, IntToString(value)));
    FilledGridGrows(grid, col, value, shorter, k, t, x);
    ColumnTotalGrows(FilledGrid(grid, col, value, shorter), FilledGrid(grid, col, value, k), t, x, col, value);
  }

  /** Writing the value into a blank cell of the column adds it to the total. */
  lemma ColumnTotalGrows(before: Grid, after: Grid, t: nat, x: Option<Arr<string>>, col: nat, value: int)
    requires t < |before| && after == before[t := x]
    requires RowCellValue(before[t], col) == 0 && RowCellValue(x, col) == value
    ensures ColumnTotal(after, col) == ColumnTotal(before, col) + value
  {
    ColumnTotalUpdate(before, t, x, col);
  }

  /** With an empty shift the column is blank throughout. */
  lemma FilledGridBlank(grid: Grid, col: nat, value: int)
    requires |grid| <= IntervalsPerDay
    ensures ColumnTotal(FilledGrid(grid, col, value, 0), col) == 0
  {
    var g := FilledGrid(grid, col, value, 0);
    assert forall r :: 0 <= r < |g| ==> Cell(g, r, col) == Some("");
    ColumnTotalAllBlank(g, col);
  }

  /** One offset more writes the value into exactly one more row. */
  lemma FilledGridGrows(grid: Grid, col: nat, value: int, shorter: nat, k: nat, t: nat, x: Option<Arr<string>>)
    requires |grid| <= IntervalsPerDay && value > 0 && k == shorter + 1 <= IntervalsPerDay
    requires t == ShiftRow(col, shorter) && x == Some(Put(BaseRow(grid, t), col, IntToString(value)))
    ensures t < |FilledGrid(grid, col, value, shorter)|
    ensures FilledGrid(grid, col, value, k) == FilledGrid(grid, col, value, shorter)[t := x]
    ensures RowCellValue(FilledGrid(grid, col, value, shorter)[t], col) == 0
    ensures RowCellValue(x, col) == value
  {
    FilledGridStep(grid, col, value, shorter, k, t, x);
    OffsetOfShiftRow(col, shorter);
    var blank := Put(BaseRow(grid, t), col, "");
    assert FillText(t, col, value, shorter) == "";
    assert FilledGrid(grid, col, value, shorter)[t] == Some(blank);
    assert At(blank, col) == Some("");
    ParseIntOrZeroOfEmpty();
    ParseIntOrZeroOfIntToString(value);
  }

  /** The grid a shift one row longer gives differs from the shorter one in
      row t alone. */
  lemma FilledGridStep(grid: Grid, col: nat, value: int, shorter: nat, k: nat, t: nat, x: Option<Arr<string>>)
    requires |grid| <= IntervalsPerDay && value > 0 && k == shorter + 1 <= IntervalsPerDay
    requires t == ShiftRow(col, shorter) && x == Some(Put(BaseRow(grid, t), col, IntToString(value)))
    ensures t < |FilledGrid(grid, col, value, shorter)|
    ensures FilledGrid(grid, col, value, k) == FilledGrid(grid, col, value, shorter)[t := x]
  {
    FillStep(grid, col, value, shorter, t);
    var g0, g1 := FilledGrid(grid, col, value, shorter), FilledGrid(grid, col, value, k);
    assert |g1| == |g0| == IntervalsPerDay;
    forall r | 0 <= r < |g1|
      ensures g1[r] == g0[t := x][r]
    {
      if r != t {
        assert FillText(r, col, value, k) == FillText(r, col, value, shorter);
      }
    }
  }

  // ---------------------------------------------------------------------
  // Roster counts read back from the grid

  /** The count the initialising effect shows above column i: when row i
      exists and column i sums to a positive number, that sum over 17,
      rounded; otherwise 0. */
  function RosterCountOf(grid: Grid, i: nat): int
  {
    var columnSum := ColumnTotal(grid, i);
    if At(grid, i).Some? && columnSum > 0 then Round(columnSum as real / 17.0) else 0
  }

  /** The effect's loop over the 48 columns. */
  method RosterCountsFrom(grid: Grid) returns (counts: Arr<int>)
    ensures |counts| == IntervalsPerDay
    ensures forall i :: 0 <= i < IntervalsPerDay ==> counts[i] == Some(RosterCountOf(grid, i))
  {
    counts := Filled(IntervalsPerDay, 0);
    var i := 0;
    while i < IntervalsPerDay
      invariant 0 <= i <= IntervalsPerDay && |counts| == IntervalsPerDay
      invariant forall j :: 0 <= j < i ==> counts[j] == Some(RosterCountOf(grid, j))
      invariant forall j :: i <= j < IntervalsPerDay ==> counts[j] == Some(0)
    {
      if At(grid, i).Some? {
        var columnSum := ColumnTotal(grid, i);
        if columnSum > 0 {
          counts := counts[i := Some(Round(columnSum as real / 17.0))];
        }
      }
      i := i + 1;
    }
  }

  /** A count read back is never negative. */
  lemma RosterCountNonNegative(grid: Grid, i: nat)
    ensures RosterCountOf(grid, i) >= 0
  {
    var columnSum := ColumnTotal(grid, i);
    if At(grid, i).Some? && columnSum > 0 {
      assert columnSum as real / 17.0 > 0.0;
    }
  }

  /** Filling a column over the default 17-row shift and reading the grid
      back gives the value that was entered, for a grid of at most 48 rows. */
  lemma RosterCountRoundTrip(grid: Grid, col: nat, value: int)
    requires |grid| <= IntervalsPerDay && col < IntervalsPerDay && value > 0
    ensures RosterCountOf(FilledGrid(grid, col, value, DefaultShiftLength), col) == value
  {
    var g := FilledGrid(grid, col, value, DefaultShiftLength);
    FilledColumnTotal(grid, col, value, DefaultShiftLength);
    assert ColumnTotal(g, col) as real / 17.0 == value as real;
    RoundOfInt(value);
  }

  /** Changing a column's shift length to k rows, 1 <= k <= 48, and filling
      the column over the new length puts the roster count into exactly k
      rows: the column adds up to k times the count. */
  lemma ShiftCountReapplied(grid: Grid, col: nat, shiftCounts: Arr<int>, value: int, rosterValue: int)
    requires |grid| <= IntervalsPerDay && rosterValue > 0 && 0 < value <= IntervalsPerDay
    ensures ShiftLength(Put(shiftCounts, col, value), col) == value
    ensures ColumnTotal(FilledGrid(grid, col, rosterValue, ShiftLength(Put(shiftCounts, col, value), col)), col)
         == rosterValue * value
  {
    assert At(Put(shiftCounts, col, value), col) == Some(value);
    FilledColumnTotal(grid, col, rosterValue, value);
  }

  /** The re-application as written fills over the length the column had
      before the change: from the initial 17-row shifts, asking for a
      10-row shift still puts the count into 17 rows. */
  lemma StaleShiftCountReapplied(grid: Grid, col: nat, shiftCounts: Arr<int>, value: int, rosterValue: int)
    requires |grid| <= IntervalsPerDay && col < IntervalsPerDay && rosterValue > 0
    requires shiftCounts == Filled(IntervalsPerDay, DefaultShiftLength) && value == 10
    ensures ColumnTotal(FilledGrid(grid, col, rosterValue, ShiftLength(shiftCounts, col)), col)
         == rosterValue * DefaultShiftLength
    ensures rosterValue * DefaultShiftLength != rosterValue * value
  {
    assert At(shiftCounts, col) == Some(DefaultShiftLength);
    FilledColumnTotal(grid, col, rosterValue, DefaultShiftLength);
  }

  // ---------------------------------------------------------------------
  // The metrics behind each chart point

  /** What `calculateMetricsForInterval` returns. */
  datatype IntervalMetrics = IntervalMetrics(actual: int, requirement: real, variance: real, gap: real)

  function Abs(x: real): (r: real)
    ensures r >= 0.0 && (r == x || r == -x)
  {
    if x < 0.0 then -x else x
  }

  /** The effective volume of interval i: the library's shrinkage applied to
      the interval's positive volume over the horizon. */
  function EffectiveVolumeAt(lib: Library, cfg: Config, vm: Matrix, i: nat): real
  {
    lib.effectiveVolume(TotalVolume(vm, i, TotalDays(cfg.weeks)) as real,
                        cfg.outOfOfficeShrinkage, cfg.inOfficeShrinkage, cfg.billableBreak)
  }

  /** Offered load in Erlangs: calls per interval times AHT, over an hour. */
  function TrafficIntensity(effectiveVolume: real, aht: real): real
  {
    effectiveVolume * aht / 3600.0
  }

  /** The Erlang C requirement, or 0 when there is no effective volume. */
  function RequiredAgents(lib: Library, cfg: Config, effectiveVolume: real, avgAHT: real): real
  {
    if effectiveVolume > 0.0
    then lib.agents(cfg.slaTarget / 100.0, cfg.serviceTime, TrafficIntensity(effectiveVolume, avgAHT), avgAHT)
    else 0.0
  }

  /** The metrics of interval i: the shrunk roster of row i, rounded, against
      the requirement at the interval's mean AHT. */
  function IntervalMetricsOf(lib: Library, cfg: Config, vm: Matrix, am: Matrix, grid: Grid, i: nat): (m: IntervalMetrics)
    ensures m.gap >= 0.0
    ensures EffectiveVolumeAt(lib, cfg, vm, i) <= 0.0 ==> m.requirement == 0.0
  {
    var avgAHT := AverageAht(vm, am, i, TotalDays(cfg.weeks), cfg.plannedAHT);
    var rostered := Shrunk(RowTotal(grid, i) as real, cfg);
    var required := RequiredAgents(lib, cfg, EffectiveVolumeAt(lib, cfg, vm, i), avgAHT);
    IntervalMetrics(Round(rostered), Tenths(required), Tenths(lib.variance(rostered, required)), Abs(rostered - required))
  }

  /** `calculateMetricsForInterval(i)`: the day loop, then the formulas. */
  method CalculateMetricsForInterval(lib: Library, cfg: Config, vm: Matrix, am: Matrix, grid: Grid, i: nat)
    returns (m: IntervalMetrics)
    ensures m == IntervalMetricsOf(lib, cfg, vm, am, grid, i)
  {
    var totalVolume, totalAHT, validDays, avgAHT := AggregateInterval(vm, am, i, TotalDays(cfg.weeks), cfg.plannedAHT);
    var rawRosteredAgents := RowTotal(grid, i);
    var rosteredAgents := rawRosteredAgents as real
      * (1.0 - cfg.outOfOfficeShrinkage / 100.0)
      * (1.0 - cfg.inOfficeShrinkage / 100.0)
      * (1.0 - cfg.billableBreak / 100.0);
    var effectiveVolume := lib.effectiveVolume(totalVolume as real, cfg.outOfOfficeShrinkage, cfg.inOfficeShrinkage, cfg.billableBreak);
    var trafficIntensity := TrafficIntensity(effectiveVolume, avgAHT);
    var requiredAgents := if effectiveVolume > 0.0
      then lib.agents(cfg.slaTarget / 100.0, cfg.serviceTime, trafficIntensity, avgAHT) else 0.0;
    assert rosteredAgents == Shrunk(rawRosteredAgents as real, cfg);
    assert effectiveVolume == EffectiveVolumeAt(lib, cfg, vm, i);
    assert requiredAgents == RequiredAgents(lib, cfg, effectiveVolume, avgAHT);
    var variance := lib.variance(rosteredAgents, requiredAgents);
    m := IntervalMetrics(Round(rosteredAgents), Tenths(requiredAgents), Tenths(variance), Abs(rosteredAgents - requiredAgents));
  }

  /** Rounding keeps a value between 0 and a whole number above it between
      the same bounds. */
  lemma RoundBetween(x: real, n: int)
    requires 0.0 <= x <= n as real
    ensures 0 <= Round(x) <= n
  {
  }

  /** With shrinkage percentages between 0 and 100 and a non-negative row,
      the rounded actual lies between 0 and the raw row total. */
  lemma ActualWithinRoster(lib: Library, cfg: Config, vm: Matrix, am: Matrix, grid: Grid, i: nat)
    requires IsPercent(cfg.outOfOfficeShrinkage) && IsPercent(cfg.inOfficeShrinkage) && IsPercent(cfg.billableBreak)
    requires RowTotal(grid, i) >= 0
    ensures 0 <= IntervalMetricsOf(lib, cfg, vm, am, grid, i).actual <= RowTotal(grid, i)
  {
    var raw := RowTotal(grid, i);
    ShrunkBounds(raw as real, cfg);
    RoundBetween(Shrunk(raw as real, cfg), raw);
  }

  // ---------------------------------------------------------------------
  // Chart data

  /** The bar colours: yellow for an overstaffed interval, red otherwise. */
  const Overstaffed := "#eab308"
  const Understaffed := "#ef4444"

  datatype ChartPoint = ChartPoint(time: string, actual: int, required: real, gap: real, fill: string)

  /** `chartData`: one point per interval, labelled by the interval's end
      time. */
  function ChartData(lib: Library, cfg: Config, vm: Matrix, am: Matrix, grid: Grid): (points: seq<ChartPoint>)
    ensures |points| == IntervalsPerDay
    ensures forall i :: 0 <= i < IntervalsPerDay ==>
      var m := IntervalMetricsOf(lib, cfg, vm, am, grid, i);
      points[i].time == EndLabel(i) && points[i].actual == m.actual && points[i].required == m.requirement && points[i].gap == m.gap
    ensures forall i :: 0 <= i < IntervalsPerDay ==>
      (points[i].fill == Overstaffed <==> points[i].actual as real > points[i].required) &&
      (points[i].fill == Understaffed <==> points[i].actual as real <= points[i].required)
  {
    seq(IntervalsPerDay, i requires 0 <= i =>
      var m := IntervalMetricsOf(lib, cfg, vm, am, grid, i);
      ChartPoint(EndLabel(i), m.actual, m.requirement, m.gap,
                 if m.actual as real > m.requirement then Overstaffed else Understaffed))
  }

  // ---------------------------------------------------------------------
  // Live service level and occupancy

  /** One interval's share of the live metrics: whether it counts (some
      volume or some rostered agents), its effective volume, its service
      level and occupancy in percent (0 without rostered agents), and its
      raw rostered agents. */
  datatype LiveInterval = LiveInterval(counted: bool, effectiveVolume: real, sla: real, occupancy: real, rostered: int)

  function LiveIntervalOf(lib: Library, cfg: Config, vm: Matrix, grid: Grid, i: nat): (m: LiveInterval)
    ensures m.rostered <= 0 ==> m.sla == 0.0 && m.occupancy == 0.0
    ensures m.counted <==> TotalVolume(vm, i, TotalDays(cfg.weeks)) > 0 || m.rostered > 0
  {
    var totalVolume := TotalVolume(vm, i, TotalDays(cfg.weeks));
    var rostered := RowTotal(grid, i);
    var effectiveVolume := EffectiveVolumeAt(lib, cfg, vm, i);
    var sla := if rostered > 0 then lib.sla(effectiveVolume, cfg.plannedAHT, cfg.serviceTime, rostered as real) * 100.0 else 0.0;
    var occupancy := if rostered > 0 then lib.utilization(TrafficIntensity(effectiveVolume, cfg.plannedAHT), rostered as real) * 100.0 else 0.0;
    LiveInterval(totalVolume > 0 || rostered > 0, effectiveVolume, sla, occupancy, rostered)
  }

  /** The four running totals of the live-metrics loop. */
  datatype LiveTotals = LiveTotals(volume: real, slaWeighted: real, occupancyWeighted: real, staffing: int)

  /** Adding one counted interval to the running totals: the service level
      weighted by effective volume and the occupancy by rostered agents. */
  function Accumulate(t: LiveTotals, m: LiveInterval): LiveTotals
  {
    LiveTotals(t.volume + m.effectiveVolume, t.slaWeighted + m.sla * m.effectiveVolume,
               t.occupancyWeighted + m.occupancy * (m.rostered as real), t.staffing + m.rostered)
  }

  /** The totals over intervals 0 .. n-1; only counted intervals add. */
  function LiveTotalsUpTo(lib: Library, cfg: Config, vm: Matrix, grid: Grid, n: nat): LiveTotals
  {
    if n == 0 then LiveTotals(0.0, 0.0, 0.0, 0)
    else
      var t := LiveTotalsUpTo(lib, cfg, vm, grid, n - 1);
      var m := LiveIntervalOf(lib, cfg, vm, grid, n - 1);
      if m.counted then Accumulate(t, m) else t
  }

  /** The weighted mean service level, or 0 without effective volume. */
  function FinalSla(t: LiveTotals): real
  {
    if t.volume > 0.0 then t.slaWeighted / t.volume else 0.0
  }

  /** The weighted mean occupancy, or 0 without rostered agents. */
  function FinalOccupancy(t: LiveTotals): real
  {
    if t.staffing > 0 then t.occupancyWeighted / (t.staffing as real) else 0.0
  }

  /** One interval of the live-metrics loop: the day loop over the horizon,
      then the interval's SLA and occupancy from the Erlang library. */
  method MeasureLiveInterval(lib: Library, cfg: Config, vm: Matrix, grid: Grid, i: nat) returns (m: LiveInterval)
    ensures m == LiveIntervalOf(lib, cfg, vm, grid, i)
  {
    var totalDays := TotalDays(cfg.weeks);
    var totalVolume := 0;
    var d := 0;
    while d < totalDays
      invariant 0 <= d <= totalDays && totalVolume == TotalVolume(vm, i, d)
    {
      var volume := VolumeAt(vm, d, i);
      if volume > 0 {
        totalVolume := totalVolume + volume;
      }
      d := d + 1;
    }
    var rosteredAgents := RowTotal(grid, i);
    var effectiveVolume := lib.effectiveVolume(totalVolume as real, cfg.outOfOfficeShrinkage, cfg.inOfficeShrinkage, cfg.billableBreak);
    var trafficIntensity := TrafficIntensity(effectiveVolume, cfg.plannedAHT);
    var sla := if rosteredAgents > 0
      then lib.sla(effectiveVolume, cfg.plannedAHT, cfg.serviceTime, rosteredAgents as real) * 100.0 else 0.0;
    var occupancy := if rosteredAgents > 0
      then lib.utilization(trafficIntensity, rosteredAgents as real) * 100.0 else 0.0;
    m := LiveInterval(totalVolume > 0 || rosteredAgents > 0, effectiveVolume, sla, occupancy, rosteredAgents);
  }

  /** The live-metrics effect: a loop over the 48 intervals, each with a loop
      over the days of the horizon. */
  method LiveMetrics(lib: Library, cfg: Config, vm: Matrix, grid: Grid) returns (finalSLA: real, finalOccupancy: real)
    ensures finalSLA == FinalSla(LiveTotalsUpTo(lib, cfg, vm, grid, IntervalsPerDay))
    ensures finalOccupancy == FinalOccupancy(LiveTotalsUpTo(lib, cfg, vm, grid, IntervalsPerDay))
  {
    var totalVolumeAll, totalSLAWeighted, totalOccupancyWeighted, totalStaffingAll := 0.0, 0.0, 0.0, 0;
    var i := 0;
    while i < IntervalsPerDay
      invariant 0 <= i <= IntervalsPerDay
      invariant LiveTotals(totalVolumeAll, totalSLAWeighted, totalOccupancyWeighted, totalStaffingAll)
             == LiveTotalsUpTo(lib, cfg, vm, grid, i)
    {
      var m := MeasureLiveInterval(lib, cfg, vm, grid, i);
      if m.counted {
        totalVolumeAll := totalVolumeAll + m.effectiveVolume;
        totalSLAWeighted := totalSLAWeighted + m.sla * m.effectiveVolume;
        totalOccupancyWeighted := totalOccupancyWeighted + m.occupancy * (m.rostered as real);
        totalStaffingAll := totalStaffingAll + m.rostered;
      }
      i := i + 1;
    }
    finalSLA := if totalVolumeAll > 0.0 then totalSLAWeighted / totalVolumeAll else 0.0;
    finalOccupancy := if totalStaffingAll > 0 then totalOccupancyWeighted / (totalStaffingAll as real) else 0.0;
  }

  /** Adding a weight w and a value x in [0, 100] keeps a weighted sum t
      within [0, 100] times the summed weights v. */
  lemma AddWeighted(t: real, v: real, x: real, w: real)
    requires 0.0 <= t <= 100.0 * v && 0.0 <= x <= 100.0 && w >= 0.0
    ensures 0.0 <= t + x * w <= 100.0 * (v + w)
  {
    assert 0.0 <= x * w <= 100.0 * w;
  }

  /** Every row of the first n is non-negative (no negative cells entered). */
  predicate RowsNonNegative(grid: Grid, n: nat)
  {
    forall r :: 0 <= r < n ==> RowTotal(grid, r) >= 0
  }

  /** The weighted sums lie within [0, 100] times their weights. */
  predicate SlaWithinWeights(t: LiveTotals) { 0.0 <= t.slaWeighted <= 100.0 * t.volume }

  predicate OccupancyWithinWeights(t: LiveTotals) { 0.0 <= t.occupancyWeighted <= 100.0 * (t.staffing as real) }

  /** The running totals keep the weighted service level within bounds,
      given a library whose service level and utilisation are fractions and
      whose effective volume is non-negative. */
  lemma {:induction false} LiveSlaTotalsBounds(lib: Library, cfg: Config, vm: Matrix, grid: Grid, n: nat)
    requires SlaIsFraction(lib) && UtilizationIsFraction(lib) && EffectiveVolumeNonNegative(lib)
    ensures SlaWithinWeights(LiveTotalsUpTo(lib, cfg, vm, grid, n))
  {
    if n > 0 {
      LiveSlaTotalsBounds(lib, cfg, vm, grid, n - 1);
      var t := LiveTotalsUpTo(lib, cfg, vm, grid, n - 1);
      var m := LiveIntervalOf(lib, cfg, vm, grid, n - 1);
      if m.counted {
        LiveIntervalBounds(lib, cfg, vm, grid, n - 1);
        AddWeighted(t.slaWeighted, t.volume, m.sla, m.effectiveVolume);
        assert LiveTotalsUpTo(lib, cfg, vm, grid, n) == Accumulate(t, m);
      }
    }
  }

  /** The same for the weighted occupancy, on rows that are not negative. */
  lemma {:induction false} LiveOccupancyTotalsBounds(lib: Library, cfg: Config, vm: Matrix, grid: Grid, n: nat)
    requires SlaIsFraction(lib) && UtilizationIsFraction(lib) && EffectiveVolumeNonNegative(lib)
    requires RowsNonNegative(grid, n)
    ensures OccupancyWithinWeights(LiveTotalsUpTo(lib, cfg, vm, grid, n))
  {
    if n > 0 {
      assert RowsNonNegative(grid, n - 1);
      LiveOccupancyTotalsBounds(lib, cfg, vm, grid, n - 1);
      var t := LiveTotalsUpTo(lib, cfg, vm, grid, n - 1);
      var m := LiveIntervalOf(lib, cfg, vm, grid, n - 1);
      if m.counted {
        LiveIntervalBounds(lib, cfg, vm, grid, n - 1);
        assert m.rostered >= 0;
        AddWeighted(t.occupancyWeighted, t.staffing as real, m.occupancy, m.rostered as real);
        assert LiveTotalsUpTo(lib, cfg, vm, grid, n) == Accumulate(t, m);
      }
    }
  }

  /** One interval's service level and occupancy are percentages and its
      effective volume is non-negative. */
  lemma LiveIntervalBounds(lib: Library, cfg: Config, vm: Matrix, grid: Grid, i: nat)
    requires SlaIsFraction(lib) && UtilizationIsFraction(lib) && EffectiveVolumeNonNegative(lib)
    ensures var m := LiveIntervalOf(lib, cfg, vm, grid, i);
      m.effectiveVolume >= 0.0 && 0.0 <= m.sla <= 100.0 && 0.0 <= m.occupancy <= 100.0
  {
    var totalDays := TotalDays(cfg.weeks);
    TotalVolumeCountsValidDays(vm, i, totalDays);
    var m := LiveIntervalOf(lib, cfg, vm, grid, i);
    if m.rostered > 0 {
      var s := lib.sla(m.effectiveVolume, cfg.plannedAHT, cfg.serviceTime, m.rostered as real);
      var u := lib.utilization(TrafficIntensity(m.effectiveVolume, cfg.plannedAHT), m.rostered as real);
      assert 0.0 <= s <= 1.0 && 0.0 <= u <= 1.0;
    }
  }

  /** The live service level is a percentage. */
  lemma LiveSlaIsPercent(lib: Library, cfg: Config, vm: Matrix, grid: Grid)
    requires SlaIsFraction(lib) && UtilizationIsFraction(lib) && EffectiveVolumeNonNegative(lib)
    ensures 0.0 <= FinalSla(LiveTotalsUpTo(lib, cfg, vm, grid, IntervalsPerDay)) <= 100.0
  {
    var t := LiveTotalsUpTo(lib, cfg, vm, grid, IntervalsPerDay);
    LiveSlaTotalsBounds(lib, cfg, vm, grid, IntervalsPerDay);
    if t.volume > 0.0 {
      DivideBounds(t.slaWeighted, t.volume, 0.0, 100.0);
    }
  }

  /** With no negative rows the live occupancy is a percentage. */
  lemma LiveOccupancyIsPercent(lib: Library, cfg: Config, vm: Matrix, grid: Grid)
    requires SlaIsFraction(lib) && UtilizationIsFraction(lib) && EffectiveVolumeNonNegative(lib)
    requires RowsNonNegative(grid, IntervalsPerDay)
    ensures 0.0 <= FinalOccupancy(LiveTotalsUpTo(lib, cfg, vm, grid, IntervalsPerDay)) <= 100.0
  {
    var t := LiveTotalsUpTo(lib, cfg, vm, grid, IntervalsPerDay);
    LiveOccupancyTotalsBounds(lib, cfg, vm, grid, IntervalsPerDay);
    if t.staffing > 0 {
      DivideBounds(t.occupancyWeighted, t.staffing as real, 0.0, 100.0);
    }
  }

  // ---------------------------------------------------------------------
  // The component's state

  /** The state the chart keeps: a shift length and an entered roster count
      per column, and the live service level and occupancy. */
  class ChartState {
    var shiftCounts: Arr<int>
    var rosterCounts: Arr<int>
    var liveSLA: real
    var liveOccupancy: real

    constructor ()
      ensures shiftCounts == Filled(IntervalsPerDay, DefaultShiftLength)
      ensures rosterCounts == Filled(IntervalsPerDay, 0)
      ensures liveSLA == 0.0 && liveOccupancy == 0.0
    {
      shiftCounts := Filled(IntervalsPerDay, DefaultShiftLength);
      rosterCounts := Filled(IntervalsPerDay, 0);
      liveSLA := 0.0;
      liveOccupancy := 0.0;
    }

    /** The effect that re-reads the roster counts when the grid changes. */
    method SyncRosterCounts(grid: Grid)
      modifies this
      ensures |rosterCounts| == IntervalsPerDay
      ensures forall i :: 0 <= i < IntervalsPerDay ==> rosterCounts[i] == Some(RosterCountOf(grid, i))
      ensures shiftCounts == old(shiftCounts) && liveSLA == old(liveSLA) && liveOccupancy == old(liveOccupancy)
    {
      rosterCounts := RosterCountsFrom(grid);
    }

    /** The effect that recomputes the live service level and occupancy. */
    method UpdateLiveMetrics(lib: Library, cfg: Config, vm: Matrix, grid: Grid)
      modifies this
      ensures liveSLA == FinalSla(LiveTotalsUpTo(lib, cfg, vm, grid, IntervalsPerDay))
      ensures liveOccupancy == FinalOccupancy(LiveTotalsUpTo(lib, cfg, vm, grid, IntervalsPerDay))
      ensures shiftCounts == old(shiftCounts) && rosterCounts == old(rosterCounts)
    {
      liveSLA, liveOccupancy := LiveMetrics(lib, cfg, vm, grid);
    }

    /** `updateRosterCount(col, value)`: record the count and hand on the
        grid with column col filled over the column's shift. */
    method UpdateRosterCount(grid: Grid, col: nat, value: int) returns (newGrid: Grid)
      modifies this
      ensures rosterCounts == Put(old(rosterCounts), col, value)
      ensures newGrid == FilledGrid(grid, col, value, ShiftLength(shiftCounts, col))
      ensures shiftCounts == old(shiftCounts) && liveSLA == old(liveSLA) && liveOccupancy == old(liveOccupancy)
    {
      rosterCounts := Put(rosterCounts, col, value);
      newGrid := FillColumn(grid, col, value, ShiftLength(shiftCounts, col));
    }

    /** `updateShiftCount(col, value)` as written: it records the new shift
        length and, when the column has a positive roster count, re-applies
        it through `updateRosterCount`. That handler belongs to the same
        render, so it still reads the shift lengths from before the change:
        the column is filled over the old length. */
    method UpdateShiftCountAsWritten(grid: Grid, col: nat, value: int) returns (change: Option<Grid>)
      modifies this
      ensures shiftCounts == Put(old(shiftCounts), col, value)
      ensures var rosterValue := At(old(rosterCounts), col);
        if rosterValue.Some? && rosterValue.value > 0 then
          change == Some(FilledGrid(grid, col, rosterValue.value, ShiftLength(old(shiftCounts), col))) &&
          rosterCounts == Put(old(rosterCounts), col, rosterValue.value)
        else
          change == None && rosterCounts == old(rosterCounts)
      ensures liveSLA == old(liveSLA) && liveOccupancy == old(liveOccupancy)
    {
      var renderedShiftCounts := shiftCounts;
      shiftCounts := Put(shiftCounts, col, value);
      var rosterValue := At(rosterCounts, col);
      if rosterValue.Some? && rosterValue.value > 0 {
        rosterCounts := Put(rosterCounts, col, rosterValue.value);
        var newGrid := FillColumn(grid, col, rosterValue.value, ShiftLength(renderedShiftCounts, col));
        change := Some(newGrid);
      } else {
        change := None;
      }
    }

    /** `updateShiftCount(col, value)` as intended: the re-applied roster
        count is filled over the new shift length. */
    method UpdateShiftCount(grid: Grid, col: nat, value: int) returns (change: Option<Grid>)
      modifies this
      ensures shiftCounts == Put(old(shiftCounts), col, value)
      ensures var rosterValue := At(old(rosterCounts), col);
        if rosterValue.Some? && rosterValue.value > 0 then
          change == Some(FilledGrid(grid, col, rosterValue.value, ShiftLength(shiftCounts, col))) &&
          rosterCounts == Put(old(rosterCounts), col, rosterValue.value)
        else
          change == None && rosterCounts == old(rosterCounts)
      ensures liveSLA == old(liveSLA) && liveOccupancy == old(liveOccupancy)
    {
      shiftCounts := Put(shiftCounts, col, value);
      var rosterValue := At(rosterCounts, col);
      if rosterValue.Some? && rosterValue.value > 0 {
        var newGrid := UpdateRosterCount(grid, col, rosterValue.value);
        change := Some(newGrid);
      } else {
        change := None;
      }
    }
  }
}
