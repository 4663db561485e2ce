/** The computations the dashboard components share: reading the
    day-by-interval volume and AHT matrices, the per-interval aggregation
    over days (written out three times in the components, once here), sums
    over roster grids with `parseInt(x) || 0` coercion, and the choice of
    the intervals that produce a table row. */
module Aggregation {
  import opened Js

  /** A day-by-interval matrix of numbers (volume or AHT in seconds). */
  type Matrix = Arr<Arr<int>>

  /** A roster grid of text cells. */
  type Grid = Arr<Arr<string>>

  // ---------------------------------------------------------------------
  // Matrix cells

  /** `volumeMatrix[d]?.[i] || 0`. */
  function VolumeAt(vm: Matrix, d: int, i: int): int
  {
    match Cell(vm, d, i)
    case None => 0
    case Some(v) => v
  }

  /** `ahtMatrix[d]?.[i] || plannedAHT`: a missing or zero cell gives the
      planned AHT. */
  function AhtAt(am: Matrix, d: int, i: int, planned: real): real
  {
    match Cell(am, d, i)
    case None => planned
    case Some(a) => if a == 0 then planned else a as real
  }

  // ---------------------------------------------------------------------
  // Per-interval aggregation over the first n days

  /** The sum of the positive volumes of interval i over days 0 .. n-1. */
  function TotalVolume(vm: Matrix, i: nat, n: nat): int
  {
    if n == 0 then 0
    else TotalVolume(vm, i, n - 1) + (if VolumeAt(vm, n - 1, i) > 0 then VolumeAt(vm, n - 1, i) else 0)
  }

  /** The number of days among 0 .. n-1 with a positive volume at interval i. */
  function ValidDays(vm: Matrix, i: nat, n: nat): nat
  {
    if n == 0 then 0
    else ValidDays(vm, i, n - 1) + (if VolumeAt(vm, n - 1, i) > 0 then 1 else 0)
  }

  /** The sum of the AHTs of those same days. */
  function TotalAht(vm: Matrix, am: Matrix, i: nat, n: nat, planned: real): real
  {
    if n == 0 then 0.0
    else TotalAht(vm, am, i, n - 1, planned) + (if VolumeAt(vm, n - 1, i) > 0 then AhtAt(am, n - 1, i, planned) else 0.0)
  }

  /** The mean AHT over the days with volume, or the planned AHT if none. */
  function AverageAht(vm: Matrix, am: Matrix, i: nat, n: nat, planned: real): real
  {
    var v := ValidDays(vm, i, n);
    if v > 0 then TotalAht(vm, am, i, n, planned) / (v as real) else planned
  }

  /** The day loop of `calculateMetrics` and `calculateMetricsForInterval`. */
  method AggregateInterval(vm: Matrix, am: Matrix, i: nat, totalDays: nat, planned: real)
    returns (totalVolume: int, totalAHT: real, validDays: nat, avgAHT: real)
    ensures totalVolume == TotalVolume(vm, i, totalDays)
    ensures validDays == ValidDays(vm, i, totalDays)
    ensures totalAHT == TotalAht(vm, am, i, totalDays, planned)
    ensures avgAHT == AverageAht(vm, am, i, totalDays, planned)
  {
    totalVolume, totalAHT, validDays := 0, 0.0, 0;
    var d := 0;
    while d < totalDays
      invariant d <= totalDays
      invariant totalVolume == TotalVolume(vm, i, d)
      invariant validDays == ValidDays(vm, i, d)
      invariant totalAHT == TotalAht(vm, am, i, d, planned)
    {
      var volume := VolumeAt(vm, d, i);
      var aht := AhtAt(am, d, i, planned);
      if volume > 0 {
        totalVolume := totalVolume + volume;
        totalAHT := totalAHT + aht;
        validDays := validDays + 1;
      }
      d := d + 1;
    }
    avgAHT := if validDays > 0 then totalAHT / (validDays as real) else planned;
  }

  /** Only positive volumes are added, so the total is at least the number
      of contributing days, and it is positive exactly when some day
      contributes. */
  lemma {:induction false} TotalVolumeCountsValidDays(vm: Matrix, i: nat, n: nat)
    ensures TotalVolume(vm, i, n) >= ValidDays(vm, i, n)
    ensures TotalVolume(vm, i, n) > 0 <==> ValidDays(vm, i, n) > 0
  {
    if n > 0 {
      TotalVolumeCountsValidDays(vm, i, n - 1);
    }
  }

  /** x added once for every day with volume among days 0 .. n-1. */
  function CountedSum(vm: Matrix, i: nat, n: nat, x: real): real
  {
    if n == 0 then 0.0 else CountedSum(vm, i, n - 1, x) + (if VolumeAt(vm, n - 1, i) > 0 then x else 0.0)
  }

  lemma {:induction false} CountedSumIsProduct(vm: Matrix, i: nat, n: nat, x: real)
    ensures CountedSum(vm, i, n, x) == x * ValidDays(vm, i, n) as real
  {
    if n > 0 {
      CountedSumIsProduct(vm, i, n - 1, x);
      var v := ValidDays(vm, i, n - 1) as real;
      assert x * (v + 1.0) == x * v + x;
    }
  }

  /** The AHT total lies between the totals of lo and of hi over the same
      days. */
  lemma {:induction false} TotalAhtBetween(vm: Matrix, am: Matrix, i: nat, n: nat, planned: real, lo: real, hi: real)
    requires forall d :: 0 <= d < n ==> lo <= AhtAt(am, d, i, planned) <= hi
    ensures CountedSum(vm, i, n, lo) <= TotalAht(vm, am, i, n, planned) <= CountedSum(vm, i, n, hi)
  {
    if n > 0 {
      TotalAhtBetween(vm, am, i, n - 1, planned, lo, hi);
      assert lo <= AhtAt(am, n - 1, i, planned) <= hi;
    }
  }

  /** The AHT total lies between lo and hi times the number of days. */
  lemma TotalAhtBounds(vm: Matrix, am: Matrix, i: nat, n: nat, planned: real, lo: real, hi: real)
    requires forall d :: 0 <= d < n ==> lo <= AhtAt(am, d, i, planned) <= hi
    ensures lo * (ValidDays(vm, i, n) as real) <= TotalAht(vm, am, i, n, planned) <= hi * (ValidDays(vm, i, n) as real)
  {
    TotalAhtBetween(vm, am, i, n, planned, lo, hi);
    CountedSumIsProduct(vm, i, n, lo);
    CountedSumIsProduct(vm, i, n, hi);
  }

  /** When every AHT read for the interval, and the planned AHT, lie in
      [lo, hi], so does the average. */
  lemma AverageAhtBounds(vm: Matrix, am: Matrix, i: nat, n: nat, planned: real, lo: real, hi: real)
    requires lo <= planned <= hi
    requires forall d :: 0 <= d < n ==> lo <= AhtAt(am, d, i, planned) <= hi
    ensures lo <= AverageAht(vm, am, i, n, planned) <= hi
  {
    var v := ValidDays(vm, i, n);
    if v > 0 {
      var t := TotalAht(vm, am, i, n, planned);
      var vr := v as real;
      assert lo * vr <= t <= hi * vr by {
        TotalAhtBounds(vm, am, i, n, planned, lo, hi);
      }
      DivideBounds(t, vr, lo, hi);
      assert AverageAht(vm, am, i, n, planned) == t / vr;
    }
  }

  lemma DivideBounds(t: real, v: real, lo: real, hi: real)
    requires v > 0.0 && lo * v <= t <= hi * v
    ensures lo <= t / v <= hi
  {
    var q := t / v;
    assert q * v == t;
    assert (q - lo) * v == t - lo * v;
    assert (hi - q) * v == hi * v - t;
  }

  /** With no volume anywhere in the interval the average is the planned AHT. */
  lemma AverageAhtWithoutVolume(vm: Matrix, am: Matrix, i: nat, n: nat, planned: real)
    requires TotalVolume(vm, i, n) <= 0
    ensures AverageAht(vm, am, i, n, planned) == planned
  {
    TotalVolumeCountsValidDays(vm, i, n);
  }

  // ---------------------------------------------------------------------
  // Roster sums. `Array.prototype.reduce` skips holes, and a hole or a cell
  // that does not parse counts as 0, so every cell contributes
  // `parseInt(cell) || 0`.

  function CellValue(c: Option<string>): int { ParseIntOrZero(c) }

  /** `row.reduce((sum, v) => sum + (parseInt(v) || 0), 0)`. */
  function RowSum(row: Arr<string>): int
  {
    if row == [] then 0 else RowSum(row[..|row| - 1]) + CellValue(row[|row| - 1])
  }

  /** The sum of row r, or 0 when there is no such row. */
  function RowTotal(grid: Grid, r: int): int
  {
    match At(grid, r)
    case None => 0
    case Some(row) => RowSum(row)
  }

  /** What a row adds to the total of column c: nothing for a hole. */
  function RowCellValue(row: Option<Arr<string>>, c: int): int
  {
    match row
    case None => 0
    case Some(cells) => CellValue(At(cells, c))
  }

  /** `grid.reduce((sum, row) => sum + (parseInt(row[c]) || 0), 0)`. */
  function ColumnTotal(grid: Grid, c: int): int
  {
    if grid == [] then 0 else ColumnTotal(grid[..|grid| - 1], c) + RowCellValue(grid[|grid| - 1], c)
  }

  /** Replacing one row changes a column total by the difference of the
      two rows' cells in that column. */
  lemma {:induction false} ColumnTotalUpdate(grid: Grid, r: nat, x: Option<Arr<string>>, c: int)
    requires r < |grid|
    ensures ColumnTotal(grid[r := x], c) == ColumnTotal(grid, c) - RowCellValue(grid[r], c) + RowCellValue(x, c)
  {
    var n := |grid|;
    var g := grid[r := x];
    if r == n - 1 {
      assert g[..n - 1] == grid[..n - 1];
    } else {
      ColumnTotalUpdate(grid[..n - 1], r, x, c);
      assert g[..n - 1] == grid[..n - 1][r := x];
    }
  }

  /** A column whose every row holds `''` there totals 0. */
  lemma {:induction false} ColumnTotalAllBlank(grid: Grid, c: int)
    requires forall r :: 0 <= r < |grid| ==> Cell(grid, r, c) == Some("")
    ensures ColumnTotal(grid, c) == 0
  {
    if grid != [] {
      var p := grid[..|grid| - 1];
      assert forall r :: 0 <= r < |p| ==> Cell(p, r, c) == Cell(grid, r, c);
      ColumnTotalAllBlank(p, c);
      assert Cell(grid, |grid| - 1, c) == Some("");
      ParseIntOrZeroOfEmpty();
    }
  }

  /** The nested reduce over every row and every cell. */
  function GridTotal(grid: Grid): int
  {
    if grid == [] then 0
    else
      var last := match grid[|grid| - 1] case None => 0 case Some(row) => RowSum(row);
      GridTotal(grid[..|grid| - 1]) + last
  }

  /** The sum of the first w cells of a row, holes and missing cells as 0. */
  function CellsUpTo(row: Arr<string>, w: nat): int
  {
    if w == 0 then 0 else CellsUpTo(row, w - 1) + CellValue(At(row, w - 1))
  }

  /** The sum of the row totals of rows 0 .. n-1. */
  function RowTotalsUpTo(grid: Grid, n: nat): int
  {
    if n == 0 then 0 else RowTotalsUpTo(grid, n - 1) + RowTotal(grid, n - 1)
  }

  /** The sum of the column totals of columns 0 .. w-1. */
  function ColumnTotalsUpTo(grid: Grid, w: nat): int
  {
    if w == 0 then 0 else ColumnTotalsUpTo(grid, w - 1) + ColumnTotal(grid, w - 1)
  }

  /** Every row that is present has at most w cells. */
  predicate RowsAtMost(grid: Grid, w: nat)
  {
    forall r :: 0 <= r < |grid| && grid[r].Some? ==> |grid[r].value| <= w
  }

  lemma {:induction false} CellsUpToIsRowSum(row: Arr<string>, w: nat)
    requires |row| <= w
    ensures CellsUpTo(row, w) == RowSum(row)
  {
    if w > |row| {
      CellsUpToIsRowSum(row, w - 1);
    } else if w > 0 {
      var p := row[..w - 1];
      CellsUpToIsRowSum(p, w - 1);
      CellsUpToPrefix(row, p, w - 1);
    }
  }

  lemma {:induction false} CellsUpToPrefix(row: Arr<string>, p: Arr<string>, w: nat)
    requires w <= |p| <= |row| && p == row[..|p|]
    ensures CellsUpTo(p, w) == CellsUpTo(row, w)
  {
    if w > 0 {
      CellsUpToPrefix(row, p, w - 1);
      assert At(p, w - 1) == At(row, w - 1);
    }
  }

  lemma {:induction false} ColumnTotalsSnoc(g: Grid, x: Option<Arr<string>>, w: nat)
    ensures ColumnTotalsUpTo(g + [x], w)
         == ColumnTotalsUpTo(g, w) + (match x case None => 0 case Some(row) => CellsUpTo(row, w))
  {
    if w > 0 {
      ColumnTotalsSnoc(g, x, w - 1);
      assert (g + [x])[..|g|] == g;
    }
  }

  /** Summing a grid row by row or column by column gives the same total
      when no row is wider than the columns counted. */
  lemma {:induction false} GridTotalByColumns(grid: Grid, w: nat)
    requires RowsAtMost(grid, w)
    ensures GridTotal(grid) == ColumnTotalsUpTo(grid, w)
  {
    if grid == [] {
      ColumnTotalsEmpty(grid, w);
    } else {
      var p, x := grid[..|grid| - 1], grid[|grid| - 1];
      assert grid == p + [x];
      assert RowsAtMost(p, w) by {
        forall r | 0 <= r < |p| && p[r].Some? ensures |p[r].value| <= w {
          assert p[r] == grid[r];
        }
      }
      GridTotalByColumns(p, w);
      ColumnTotalsSnoc(p, x, w);
      if x.Some? {
        CellsUpToIsRowSum(x.value, w);
      }
    }
  }

  lemma {:induction false} ColumnTotalsEmpty(grid: Grid, w: nat)
    requires grid == []
    ensures ColumnTotalsUpTo(grid, w) == 0
  {
    if w > 0 {
      ColumnTotalsEmpty(grid, w - 1);
    }
  }

  lemma {:induction false} RowTotalsPrefix(grid: Grid, p: Grid, n: nat)
    requires n <= |p| <= |grid| && p == grid[..|p|]
    ensures RowTotalsUpTo(p, n) == RowTotalsUpTo(grid, n)
  {
    if n > 0 {
      RowTotalsPrefix(grid, p, n - 1);
      assert At(p, n - 1) == At(grid, n - 1);
    }
  }

  /** Summing the row totals of the first n rows, n at least the grid's
      length, gives the grid total. */
  lemma {:induction false} GridTotalByRows(grid: Grid, n: nat)
    requires |grid| <= n
    ensures GridTotal(grid) == RowTotalsUpTo(grid, n)
  {
    if n > |grid| {
      GridTotalByRows(grid, n - 1);
    } else if n > 0 {
      var p := grid[..n - 1];
      GridTotalByRows(p, n - 1);
      RowTotalsPrefix(grid, p, n - 1);
    }
  }

  /** An empty grid sums to 0 whichever way it is summed. */
  lemma EmptyGridTotals(c: int, r: int)
    ensures GridTotal([]) == 0 && ColumnTotal([], c) == 0 && RowTotal([], r) == 0
  {
  }

  /** What a row adds to the grid total: nothing for a hole. */
  function RowContribution(row: Option<Arr<string>>): int
  {
    match row
    case None => 0
    case Some(cells) => RowSum(cells)
  }

  /** Replacing one cell changes a row's sum by the difference of the two
      cells. */
  lemma {:induction false} RowSumUpdate(row: Arr<string>, c: nat, x: Option<string>)
    requires c < |row|
    ensures RowSum(row[c := x]) == RowSum(row) - CellValue(row[c]) + CellValue(x)
  {
    var n := |row|;
    var u := row[c := x];
    if c == n - 1 {
      assert u[..n - 1] == row[..n - 1];
    } else {
      RowSumUpdate(row[..n - 1], c, x);
      assert u[..n - 1] == row[..n - 1][c := x];
    }
  }

  /** Replacing one row changes the grid total by the difference of the two
      rows' sums. */
  lemma {:induction false} GridTotalUpdate(grid: Grid, r: nat, x: Option<Arr<string>>)
    requires r < |grid|
    ensures GridTotal(grid[r := x]) == GridTotal(grid) - RowContribution(grid[r]) + RowContribution(x)
  {
    var n := |grid|;
    var g := grid[r := x];
    if r == n - 1 {
      assert g[..n - 1] == grid[..n - 1];
    } else {
      GridTotalUpdate(grid[..n - 1], r, x);
      assert g[..n - 1] == grid[..n - 1][r := x];
    }
  }

  /** k copies of x added up. */
  function Repeated(k: nat, x: int): int
  {
    if k == 0 then 0 else Repeated(k - 1, x) + x
  }

  lemma {:induction false} RepeatedIsProduct(k: nat, x: int)
    ensures Repeated(k, x) == k * x
  {
    if k > 0 {
      RepeatedIsProduct(k - 1, x);
      assert (k - 1) * x + x == k * x;
    }
  }

  /** One copy more, with the count passed under a name of its own. */
  lemma RepeatedOneMore(shorter: nat, k: nat, x: int)
    requires k == shorter + 1
    ensures Repeated(k, x) == Repeated(shorter, x) + x
  {
  }

  lemma {:induction false} RowSumOfFilledRepeated(k: nat, v: string)
    ensures RowSum(Filled(k, v)) == Repeated(k, CellValue(Some(v)))
  {
    if k > 0 {
      assert Filled(k, v)[..k - 1] == Filled(k - 1, v);
      RowSumOfFilledRepeated(k - 1, v);
    }
  }

  /** A row of k copies of one text sums to k times its value. */
  lemma RowSumOfFilled(k: nat, v: string)
    ensures RowSum(Filled(k, v)) == k * CellValue(Some(v))
  {
    RowSumOfFilledRepeated(k, v);
    RepeatedIsProduct(k, CellValue(Some(v)));
  }

  lemma {:induction false} GridTotalOfFilledRepeated(n: nat, row: Arr<string>)
    ensures GridTotal(Filled(n, row)) == Repeated(n, RowSum(row))
  {
    if n > 0 {
      assert Filled(n, row)[..n - 1] == Filled(n - 1, row);
      GridTotalOfFilledRepeated(n - 1, row);
    }
  }

  /** A grid of n copies of one row totals n times the row's sum. */
  lemma GridTotalOfFilled(n: nat, row: Arr<string>)
    ensures GridTotal(Filled(n, row)) == n * RowSum(row)
  {
    GridTotalOfFilledRepeated(n, row);
    RepeatedIsProduct(n, RowSum(row));
  }

  lemma {:induction false} ColumnTotalOfFilledRepeated(n: nat, row: Arr<string>, c: int)
    ensures ColumnTotal(Filled(n, row), c) == Repeated(n, CellValue(At(row, c)))
  {
    if n > 0 {
      assert Filled(n, row)[..n - 1] == Filled(n - 1, row);
      ColumnTotalOfFilledRepeated(n - 1, row, c);
    }
  }

  /** Each column of a grid of n copies of one row totals n times that
      row's cell. */
  lemma ColumnTotalOfFilled(n: nat, row: Arr<string>, c: int)
    ensures ColumnTotal(Filled(n, row), c) == n * CellValue(At(row, c))
  {
    ColumnTotalOfFilledRepeated(n, row, c);
    RepeatedIsProduct(n, CellValue(At(row, c)));
  }

  // ---------------------------------------------------------------------
  // Emission

  /** The indices below n that satisfy keep, in increasing order: the
      intervals for which a component pushes a record. */
  function Where(n: nat, keep: nat -> bool): (r: seq<nat>)
    ensures forall k :: 0 <= k < |r| ==> r[k] < n && keep(r[k])
    ensures forall k, l :: 0 <= k < l < |r| ==> r[k] < r[l]
    ensures forall i :: 0 <= i < n && keep(i) ==> i in r
  {
    if n == 0 then [] else Where(n - 1, keep) + (if keep(n - 1) then [n - 1] else [])
  }

  /** The values f(i) of the indices i below n that satisfy keep, in
      increasing index order: the records a component pushes. */
  function Gather<T>(f: nat -> T, keep: nat -> bool, n: nat): seq<T>
  {
    if n == 0 then [] else Gather(f, keep, n - 1) + (if keep(n - 1) then [f(n - 1)] else [])
  }

  /** Record k of the gathered values is the value of the k-th kept index. */
  lemma {:induction false} GatherFollowsWhere<T>(f: nat -> T, keep: nat -> bool, n: nat)
    ensures |Gather(f, keep, n)| == |Where(n, keep)|
    ensures forall k :: 0 <= k < |Where(n, keep)| ==> Gather(f, keep, n)[k] == f(Where(n, keep)[k])
  {
    if n > 0 {
      GatherFollowsWhere(f, keep, n - 1);
      if keep(n - 1) {
        assert Gather(f, keep, n) == Gather(f, keep, n - 1) + [f(n - 1)];
        assert Where(n, keep) == Where(n - 1, keep) + [n - 1];
      } else {
        assert Gather(f, keep, n) == Gather(f, keep, n - 1) + [];
        assert Where(n, keep) == Where(n - 1, keep) + [];
      }
    }
  }

  lemma GatherStep<T>(f: nat -> T, keep: nat -> bool, n: nat, emit: bool, x: T)
    requires emit == keep(n) && x == f(n)
    ensures emit ==> Gather(f, keep, n + 1) == Gather(f, keep, n) + [x]
    ensures !emit ==> Gather(f, keep, n + 1) == Gather(f, keep, n)
  {
    assert Gather(f, keep, n) + [] == Gather(f, keep, n);
  }
}
