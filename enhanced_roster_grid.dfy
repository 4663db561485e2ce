/** The daily roster grid (`src/components/EnhancedRosterGrid.tsx`): 48
    half-hour intervals as rows and 17 shifts as columns, each cell the text
    of a head count. The grid belongs to the parent; the component keeps
    only the roster count typed into its fill box. */
module EnhancedRoster {
  import opened Js
  import opened Aggregation
  import opened IntervalLabels

  const ShiftsPerInterval := 17

  // ---------------------------------------------------------------------
  // Fresh grids

  /** `Array(48).fill(null).map(() => Array(17).fill(v))`: 48 separate rows
      of 17 copies of v. */
  function Uniform(v: string): (g: Grid)
    ensures |g| == IntervalsPerDay
    ensures forall r :: 0 <= r < IntervalsPerDay ==> g[r] == Some(Filled(ShiftsPerInterval, v))
  {
    Filled(IntervalsPerDay, Filled(ShiftsPerInterval, v))
  }

  /** The blank roster: every cell `''`. */
  function Blank(): Grid { Uniform("") }

  // ---------------------------------------------------------------------
  // The render-time check

  /** The shape the component accepts: 48 rows, the first of them with 17
      cells. */
  predicate WellShaped(grid: Grid)
  {
    |grid| == IntervalsPerDay && At(grid, 0).Some? && |grid[0].value| == ShiftsPerInterval
  }

  /** The grid the component hands to its parent while rendering, if any: a
      blank roster in place of a grid of any other shape. */
  function Normalization(grid: Grid): (change: Option<Grid>)
    ensures change.None? <==> WellShaped(grid)
    ensures change.Some? ==> change.value == Blank()
  {
    if |grid| == 0 || |grid| != IntervalsPerDay || At(grid, 0).None? || |grid[0].value| != ShiftsPerInterval
    then Some(Blank())
    else None
  }

  /** What the grid is once that change has been applied. */
  function Normalized(grid: Grid): Grid
  {
    match Normalization(grid)
    case None => grid
    case Some(g) => g
  }

  /** The check settles after one round: the grid it produces is accepted,
      a well-shaped grid is left alone, and any other grid becomes blank. */
  lemma NormalizationSettles(grid: Grid)
    ensures WellShaped(Normalized(grid))
    ensures Normalization(Normalized(grid)).None?
    ensures WellShaped(grid) ==> Normalized(grid) == grid
    ensures !WellShaped(grid) ==> Normalized(grid) == Blank()
  {
  }

  // ---------------------------------------------------------------------
  // Editing a cell

  /** The row `updateRosterValue` writes into: the existing one, or a fresh
      row of 17 blanks for a missing one. */
  function RowToEdit(grid: Grid, i: nat): Arr<string>
  {
    RowOr(grid, i, Filled(ShiftsPerInterval, ""))
  }

  /** The grid `updateRosterValue(i, s, value)` hands on: a grid without 48
      rows is replaced by a blank one first, then cell (i, s) is set. */
  function EditedRoster(grid: Grid, i: nat, s: nat, value: string): (g: Grid)
    ensures var base := if |grid| == IntervalsPerDay then grid else Blank();
      |g| == (if i < |base| then |base| else i + 1) &&
      Cell(g, i, s) == Some(value) &&
      (forall r, c :: r != i ==> Cell(g, r, c) == Cell(base, r, c)) &&
      (forall c :: c != s ==> Cell(g, i, c) == At(RowToEdit(base, i), c))
  {
    var base := if |grid| == IntervalsPerDay then grid else Blank();
    SetCell(base, i, s, value, Filled(ShiftsPerInterval, ""))
  }

  /** `updateRosterValue(i, s, value)`: copy the grid, reset it if it does
      not have 48 rows, create the row if it is missing, write the cell. */
  method UpdateRosterValue(rosterGrid: Grid, intervalIndex: nat, shiftIndex: nat, value: string) returns (newGrid: Grid)
    ensures newGrid == EditedRoster(rosterGrid, intervalIndex, shiftIndex, value)
  {
    newGrid := rosterGrid;
    if |newGrid| != IntervalsPerDay {
      newGrid := Uniform("");
    }
    var row: Arr<string>;
    if At(newGrid, intervalIndex).None? {
      row := Filled(ShiftsPerInterval, "");
      newGrid := Put(newGrid, intervalIndex, row);
    } else {
      row := newGrid[intervalIndex].value;
    }
    newGrid := Put(newGrid, intervalIndex, Put(row, shiftIndex, value));
    PutPut(if |rosterGrid| == IntervalsPerDay then rosterGrid else Blank(), intervalIndex, row, Put(row, shiftIndex, value));
  }

  // ---------------------------------------------------------------------
  // Totals

  /** `calculateTotalRoster()`: every parsed cell of every row. */
  function TotalRoster(grid: Grid): (n: int)
    ensures n == GridTotal(grid)
  {
    if |grid| == 0 then 0 else GridTotal(grid)
  }

  /** `calculateIntervalTotal(i)`: the parsed cells of row i, 0 for a
      missing row. */
  function IntervalTotal(grid: Grid, i: int): (n: int)
    ensures n == RowTotal(grid, i)
  {
    if |grid| == 0 || At(grid, i).None? then 0 else RowSum(grid[i].value)
  }

  /** `calculateShiftTotal(s)`: the parsed cells of column s. */
  function ShiftTotal(grid: Grid, s: int): (n: int)
    ensures n == ColumnTotal(grid, s)
  {
    if |grid| == 0 then 0 else ColumnTotal(grid, s)
  }

  /** The grand total is both the sum of the 48 interval totals and the sum
      of the 17 shift totals, for any grid of at most 48 rows none wider than
      17 cells. */
  lemma TotalsAgree(grid: Grid)
    requires |grid| <= IntervalsPerDay && RowsAtMost(grid, ShiftsPerInterval)
    ensures TotalRoster(grid) == RowTotalsUpTo(grid, IntervalsPerDay)
    ensures TotalRoster(grid) == ColumnTotalsUpTo(grid, ShiftsPerInterval)
  {
    GridTotalByRows(grid, IntervalsPerDay);
    GridTotalByColumns(grid, ShiftsPerInterval);
  }

  /** An empty grid shows 0 everywhere. */
  lemma EmptyRosterTotals(i: int, s: int)
    ensures TotalRoster([]) == 0 && IntervalTotal([], i) == 0 && ShiftTotal([], s) == 0
  {
    EmptyGridTotals(s, i);
  }

  /** Editing an existing cell of a 48-row grid moves the grand total, that
      interval's total and that shift's total by the change in the cell's
      value, and leaves every other interval and shift total as it was. */
  lemma EditMovesTotals(grid: Grid, i: nat, s: nat, value: string)
    requires |grid| == IntervalsPerDay && i < IntervalsPerDay && grid[i].Some? && s < |grid[i].value|
    ensures var g := EditedRoster(grid, i, s, value);
      var delta := CellValue(Some(value)) - CellValue(grid[i].value[s]);
      TotalRoster(g) == TotalRoster(grid) + delta &&
      IntervalTotal(g, i) == IntervalTotal(grid, i) + delta &&
      ShiftTotal(g, s) == ShiftTotal(grid, s) + delta &&
      (forall j :: j != i ==> IntervalTotal(g, j) == IntervalTotal(grid, j)) &&
      (forall t :: t != s ==> ShiftTotal(g, t) == ShiftTotal(grid, t))
  {
    var row := grid[i].value;
    var edited := row[s := Some(value)];
    assert Put(row, s, value) == edited;
    var g := EditedRoster(grid, i, s, value);
    assert g == grid[i := Some(edited)];
    RowSumUpdate(row, s, Some(value));
    GridTotalUpdate(grid, i, Some(edited));
    ColumnTotalUpdate(grid, i, Some(edited), s);
    forall t | t != s
      ensures ShiftTotal(g, t) == ShiftTotal(grid, t)
    {
      ColumnTotalUpdate(grid, i, Some(edited), t);
      assert At(edited, t) == At(row, t);
    }
    forall j | j != i
      ensures IntervalTotal(g, j) == IntervalTotal(grid, j)
    {
      assert At(g, j) == At(grid, j);
    }
  }

  // ---------------------------------------------------------------------
  // Clearing and filling

  /** `clearRoster()`: the grid handed on is blank, and every total is 0. */
  function ClearRoster(): (g: Grid)
    ensures WellShaped(g)
    ensures forall r, c :: 0 <= r < IntervalsPerDay && 0 <= c < ShiftsPerInterval ==> Cell(g, r, c) == Some("")
  {
    Blank()
  }

  /** The component's own state: the count typed into the fill box. */
  class RosterCountInput {
    var rosterCount: int

    constructor ()
      ensures rosterCount == 0
    {
      rosterCount := 0;
    }

    /** `handleRosterCountChange(count)`: remember the count and, for a
        positive count, hand on a grid with every cell set to it. */
    method HandleRosterCountChange(count: int) returns (change: Option<Grid>)
      modifies this
      ensures rosterCount == count
      ensures count > 0 ==> change == Some(Uniform(IntToString(count)))
      ensures count <= 0 ==> change == None
    {
      rosterCount := count;
      if count > 0 {
        var newGrid := Uniform(IntToString(count));
        change := Some(newGrid);
      } else {
        change := None;
      }
    }
  }

  /** A grid filled with one value v shows v in every cell: each interval
      totals 17 v, each shift 48 v, and the whole roster 816 v. Clearing is
      the case of the blank text, which counts as 0. */
  lemma UniformTotals(v: string, i: nat, s: nat)
    requires i < IntervalsPerDay && s < ShiftsPerInterval
    ensures var g := Uniform(v);
      WellShaped(g) &&
      IntervalTotal(g, i) == ShiftsPerInterval * CellValue(Some(v)) &&
      ShiftTotal(g, s) == IntervalsPerDay * CellValue(Some(v)) &&
      TotalRoster(g) == IntervalsPerDay * ShiftsPerInterval * CellValue(Some(v))
  {
    var row := Filled(ShiftsPerInterval, v);
    RowSumOfFilled(ShiftsPerInterval, v);
    GridTotalOfFilled(IntervalsPerDay, row);
    ColumnTotalOfFilled(IntervalsPerDay, row, s);
  }

  /** Filling with a positive count n: every cell reads back as n, so the
      roster totals 816 n; clearing gives 0. */
  lemma FillTotals(n: int)
    requires n > 0
    ensures TotalRoster(Uniform(IntToString(n))) == IntervalsPerDay * ShiftsPerInterval * n
    ensures TotalRoster(ClearRoster()) == 0
  {
    UniformTotals(IntToString(n), 0, 0);
    ParseIntOrZeroOfIntToString(n);
    UniformTotals("", 0, 0);
    ParseIntOrZeroOfEmpty();
  }

  // ---------------------------------------------------------------------
  // Row and column captions

  /** The caption of each interval row: its start on the 24-hour clock and
      on the 12-hour clock. */
  function Intervals(): (labels: seq<(string, string)>)
    ensures |labels| == IntervalsPerDay
    ensures forall i :: 0 <= i < IntervalsPerDay ==> labels[i] == (StartLabel(i), StartDisplay(i))
  {
    seq(IntervalsPerDay, i requires 0 <= i => (StartLabel(i), StartDisplay(i)))
  }

  /** The 48 captions are different, and the first is midnight, "00:00" or
      "12:00 AM", although the grid's description announces 12:30 AM. */
  lemma IntervalCaptions(i: nat, j: nat)
    requires i < IntervalsPerDay && j < IntervalsPerDay && i != j
    ensures Intervals()[i] != Intervals()[j]
    ensures Intervals()[0] == ("00:00", "12:00 AM")
  {
    StartLabelsDistinct(i, j);
    FirstStartLabel();
    FirstStartDisplay();
  }

  /** The caption of each shift column: `Shift 1` to `Shift 17`. */
  function Shifts(): (names: seq<string>)
    ensures |names| == ShiftsPerInterval
    ensures forall k :: 0 <= k < ShiftsPerInterval ==> names[k] == "Shift " + NatToString(k + 1)
  {
    seq(ShiftsPerInterval, k requires 0 <= k => "Shift " + NatToString(k + 1))
  }

  /** The 17 shift captions are different. */
  lemma ShiftCaptionsDistinct(k: nat, l: nat)
    requires k < ShiftsPerInterval && l < ShiftsPerInterval && k != l
    ensures Shifts()[k] != Shifts()[l]
  {
    if Shifts()[k] == Shifts()[l] {
      var a, b := Shifts()[k], Shifts()[l];
      assert a[6..] == NatToString(k + 1) && b[6..] == NatToString(l + 1);
      NatToStringInjective(k + 1, l + 1);
      assert false;
    }
  }
}
