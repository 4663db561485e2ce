/** The forecast volume table (`src/components/ForecastVolumeTable.tsx`):
    expected calls per day (row) and half-hour interval (column). */
module ForecastVolume {
  import opened Js
  import opened Aggregation
  import opened IntervalLabels
  import opened Settings

  /** A day with no calls in any interval. */
  function ZeroDay(): Arr<int> { Filled(IntervalsPerDay, 0) }

  /** `clearData()`: weeks·7 days of 48 zero volumes. */
  function ClearedVolumes(weeks: Weeks): (vm: Matrix)
    ensures |vm| == TotalDays(weeks)
    ensures forall d, i :: 0 <= d < TotalDays(weeks) && 0 <= i < IntervalsPerDay ==> Cell(vm, d, i) == Some(0)
  {
    seq(TotalDays(weeks), _ => Some(ZeroDay()))
  }

  /** A cleared table carries no traffic: every interval's total over the
      horizon is 0, so the metrics fall back to the planned AHT. */
  lemma {:induction false} ClearedVolumesCarryNoTraffic(weeks: Weeks, i: nat, n: nat)
    requires i < IntervalsPerDay && n <= TotalDays(weeks)
    ensures TotalVolume(ClearedVolumes(weeks), i, n) == 0
    ensures forall am: Matrix, planned: real :: AverageAht(ClearedVolumes(weeks), am, i, n, planned) == planned
  {
    if n > 0 {
      ClearedVolumesCarryNoTraffic(weeks, i, n - 1);
      assert VolumeAt(ClearedVolumes(weeks), n - 1, i) == 0;
    }
    forall am: Matrix, planned: real
      ensures AverageAht(ClearedVolumes(weeks), am, i, n, planned) == planned
    {
      AverageAhtWithoutVolume(ClearedVolumes(weeks), am, i, n, planned);
    }
  }

  /** The number stored for typed text: `parseInt(value) || 0`. */
  function StoredVolume(value: string): int
  {
    ParseIntOrZero(Some(value))
  }

  /** Typing an integer stores that integer; clearing the input stores 0. */
  lemma StoredVolumeOfTyped(n: int)
    ensures StoredVolume(IntToString(n)) == n
    ensures StoredVolume("") == 0
  {
    ParseIntOrZeroOfIntToString(n);
    ParseIntOrZeroOfEmpty();
  }

  /** The matrix `updateVolumeValue(d, i, value)` hands on. */
  function EditedVolumes(vm: Matrix, d: nat, i: nat, value: string): Matrix
  {
    SetCell(vm, d, i, StoredVolume(value), ZeroDay())
  }

  /** `updateVolumeValue(d, i, value)`: copy the matrix, create the day as
      48 zeros if it is missing, store the parsed number. Only cell (d, i)
      changes. */
  method UpdateVolumeValue(volumeMatrix: Matrix, dayIndex: nat, intervalIndex: nat, value: string)
    returns (newMatrix: Matrix)
    ensures newMatrix == EditedVolumes(volumeMatrix, dayIndex, intervalIndex, value)
    ensures |newMatrix| == if dayIndex < |volumeMatrix| then |volumeMatrix| else dayIndex + 1
    ensures Cell(newMatrix, dayIndex, intervalIndex) == Some(StoredVolume(value))
    ensures forall d, i :: d != dayIndex ==> Cell(newMatrix, d, i) == Cell(volumeMatrix, d, i)
    ensures forall i :: i != intervalIndex ==>
      Cell(newMatrix, dayIndex, i) ==
        if At(volumeMatrix, dayIndex).Some? then Cell(volumeMatrix, dayIndex, i)
        else if 0 <= i < IntervalsPerDay then Some(0) else None
  {
    newMatrix := volumeMatrix;
    var row: Arr<int>;
    if At(newMatrix, dayIndex).None? {
      row := Filled(IntervalsPerDay, 0);
      newMatrix := Put(newMatrix, dayIndex, row);
    } else {
      row := newMatrix[dayIndex].value;
    }
    var stored := ParseIntOrZero(Some(value));
    newMatrix := Put(newMatrix, dayIndex, Put(row, intervalIndex, stored));
    PutPut(volumeMatrix, dayIndex, row, Put(row, intervalIndex, stored));
  }

  /** The input shows `volumeMatrix[d]?.[i] || 0`, the same number the
      metrics read: after an edit it is the stored number, and every other
      day shows what it showed before. */
  lemma ShownAfterEdit(vm: Matrix, d: nat, i: nat, value: string, d': nat, i': nat)
    ensures VolumeAt(EditedVolumes(vm, d, i, value), d, i) == StoredVolume(value)
    ensures d' != d ==> VolumeAt(EditedVolumes(vm, d, i, value), d', i') == VolumeAt(vm, d', i')
    ensures At(vm, d).None? && i' != i && i' < IntervalsPerDay ==> VolumeAt(EditedVolumes(vm, d, i, value), d, i') == 0
  {
  }

  /** Typing into the same cell twice keeps only the second number. */
  lemma LastEditWins(vm: Matrix, d: nat, i: nat, v: string, w: string)
    ensures EditedVolumes(EditedVolumes(vm, d, i, v), d, i, w) == EditedVolumes(vm, d, i, w)
  {
    SetCellTwice(vm, d, i, StoredVolume(v), StoredVolume(w), ZeroDay());
  }

  /** One sample volume for interval i from a uniform draw r in [0, 1):
      busier from 09:00 to 17:59, quieter from 06:00 to 22:59, near zero
      at night. */
  function SampleVolume(i: nat, r: real): (v: int)
    requires 0.0 <= r < 1.0
    ensures 9 <= StartHour(i) <= 17 ==> 30 <= v <= 79
    ensures (6 <= StartHour(i) < 9 || 17 < StartHour(i) <= 22) ==> 10 <= v <= 29
    ensures (StartHour(i) < 6 || 22 < StartHour(i)) ==> 0 <= v <= 4
  {
    var hour := StartHour(i);
    if 9 <= hour <= 17 then (r * 50.0).Floor + 30
    else if 6 <= hour <= 22 then (r * 20.0).Floor + 10
    else (r * 5.0).Floor
  }
}
