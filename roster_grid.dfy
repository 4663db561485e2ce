/** The shift planner grid (`src/components/RosterGrid.tsx`): one row per
    agent, one text cell per half-hour interval. The grid belongs to the
    parent; each handler builds the grid it hands back. */
module AgentRoster {
  import opened Js
  import opened Aggregation
  import opened IntervalLabels

  // ---------------------------------------------------------------------
  // Column captions

  /** The 48 interval captions, `hh:mm` from the start of each interval. */
  function Intervals(): (labels: seq<string>)
    ensures |labels| == IntervalsPerDay
    ensures forall i :: 0 <= i < IntervalsPerDay ==> labels[i] == StartLabel(i)
  {
    seq(IntervalsPerDay, i requires 0 <= i => StartLabel(i))
  }

  /** The captions are pairwise different and each is a whole or half hour. */
  lemma IntervalCaptions(i: nat, j: nat)
    requires i < IntervalsPerDay && j < IntervalsPerDay && i != j
    ensures Intervals()[i] != Intervals()[j]
    ensures StartMinute(i) == 0 || StartMinute(i) == 30
  {
    StartLabelsDistinct(i, j);
    StartTimeInRange(i);
  }

  /** The table header shows only the first 24 captions, the morning from
      00:00 to 11:30. */
  lemma HeaderIsMorning()
    ensures var header := Intervals()[..24]; |header| == 24 && header[0] == "00:00" && header[23] == "11:30"
  {
    var header := Intervals()[..24];
    assert header[0] == StartLabel(0) && header[23] == StartLabel(23);
    FirstStartLabel();
    ClockIs(StartHour(23), StartMinute(23), "11:30");
  }

  // ---------------------------------------------------------------------
  // Adding and removing agents

  /** The row a new agent starts with: 48 blank cells. */
  function BlankAgent(): Arr<string> { Filled(IntervalsPerDay, "") }

  /** The grid with one more agent: the old rows in place and a blank row
      after them. */
  function WithAgent(grid: Grid): (g: Grid)
    ensures |g| == |grid| + 1
    ensures g[..|grid|] == grid
    ensures g[|grid|] == Some(BlankAgent())
  {
    grid + [Some(BlankAgent())]
  }

  /** `addAgent()`: copy the grid and push a blank row. */
  method AddAgent(rosterGrid: Grid) returns (newGrid: Grid)
    ensures newGrid == WithAgent(rosterGrid)
  {
    newGrid := rosterGrid;
    newGrid := newGrid + [Some(Filled(IntervalsPerDay, ""))];
  }

  /** `rosterGrid.filter((_, i) => i !== index)`: the rows whose position
      is not index, in order. */
  function Without(grid: Grid, index: int): (g: Grid)
    ensures |g| == if 0 <= index < |grid| then |grid| - 1 else |grid|
  {
    if grid == [] then []
    else
      var n := |grid| - 1;
      Without(grid[..n], index) + (if n != index then [grid[n]] else [])
  }

  /** The filter removes exactly row index when there is one, closing the
      gap, and otherwise keeps every row. */
  lemma {:induction false} WithoutRemovesOne(grid: Grid, index: int)
    ensures 0 <= index < |grid| ==> Without(grid, index) == grid[..index] + grid[index + 1..]
    ensures !(0 <= index < |grid|) ==> Without(grid, index) == grid
  {
    if grid != [] {
      var n := |grid| - 1;
      var p := grid[..n];
      WithoutRemovesOne(p, index);
      if 0 <= index < n {
        assert p[..index] == grid[..index];
        assert p[index + 1..] + [grid[n]] == grid[index + 1..];
      } else if index == n {
        assert grid[index + 1..] == [];
      } else {
        assert p + [grid[n]] == grid;
      }
    }
  }

  /** Removing the agent just added gives the grid back. */
  lemma RemoveUndoesAdd(grid: Grid)
    ensures Without(WithAgent(grid), |grid|) == grid
  {
    var g := WithAgent(grid);
    WithoutRemovesOne(g, |grid|);
    assert g[..|grid|] == grid;
  }

  /** After removal every later agent moves up one place. */
  lemma RemovalShifts(grid: Grid, index: nat, r: nat)
    requires index < |grid| && r < |grid| - 1
    ensures Without(grid, index)[r] == if r < index then grid[r] else grid[r + 1]
  {
    WithoutRemovesOne(grid, index);
  }

  // ---------------------------------------------------------------------
  // Editing a cell

  /** The grid `updateCell(a, i, value)` hands on: cell (a, i) holds value,
      the rest of row a is as before (blank if the row was missing), and
      every other row is unchanged (see `SetCell`). */
  function EditedCell(grid: Grid, a: nat, i: nat, value: string): Grid
  {
    SetCell(grid, a, i, value, BlankAgent())
  }

  /** `updateCell(a, i, value)`: copy the grid, create the row as 48
      blanks if it is missing, write the cell. Only cell (a, i) changes. */
  method UpdateCell(rosterGrid: Grid, agentIndex: nat, intervalIndex: nat, value: string) returns (newGrid: Grid)
    ensures newGrid == EditedCell(rosterGrid, agentIndex, intervalIndex, value)
    ensures |newGrid| == if agentIndex < |rosterGrid| then |rosterGrid| else agentIndex + 1
    ensures Cell(newGrid, agentIndex, intervalIndex) == Some(value)
    ensures forall r, c :: r != agentIndex ==> Cell(newGrid, r, c) == Cell(rosterGrid, r, c)
    ensures forall c :: c != intervalIndex ==>
      Cell(newGrid, agentIndex, c) ==
        if At(rosterGrid, agentIndex).Some? then Cell(rosterGrid, agentIndex, c)
        else if 0 <= c < IntervalsPerDay then Some("") else None
  {
    newGrid := rosterGrid;
    var row: Arr<string>;
    if At(newGrid, agentIndex).None? {
      row := Filled(IntervalsPerDay, "");
      newGrid := Put(newGrid, agentIndex, row);
    } else {
      row := newGrid[agentIndex].value;
    }
    newGrid := Put(newGrid, agentIndex, Put(row, intervalIndex, value));
    PutPut(rosterGrid, agentIndex, row, Put(row, intervalIndex, value));
  }

  /** Typing into the same cell twice keeps only the second text. */
  lemma LastEditWins(grid: Grid, a: nat, i: nat, v: string, w: string)
    ensures EditedCell(EditedCell(grid, a, i, v), a, i, w) == EditedCell(grid, a, i, w)
  {
    SetCellTwice(grid, a, i, v, w, BlankAgent());
  }

  /** The text a cell shows: its value, or blank when the row or the cell
      is missing. */
  function Shown(grid: Grid, a: nat, i: nat): string
  {
    match Cell(grid, a, i)
    case None => ""
    case Some(v) => v
  }

  /** After an edit the cell shows the typed text and every other agent's
      cells show what they showed before. */
  lemma ShownAfterEdit(grid: Grid, a: nat, i: nat, value: string, r: nat, c: nat)
    ensures Shown(EditedCell(grid, a, i, value), a, i) == value
    ensures r != a ==> Shown(EditedCell(grid, a, i, value), r, c) == Shown(grid, r, c)
  {
  }
}
