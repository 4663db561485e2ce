/** The AHT table (`src/components/AHTTable.tsx`): average handle time in
    seconds per day (row) and half-hour interval (column). A missing, zero
    or unparseable entry stands for the default of 1560 seconds. */
module AhtTable {
  import opened Js
  import opened Aggregation
  import opened IntervalLabels
  import opened Settings
  import opened TimeFormat

  /** 26 minutes, in seconds. */
  const DefaultAht := 1560

  /** A day with the default AHT in every interval. */
  function DefaultDay(): Arr<int> { Filled(IntervalsPerDay, DefaultAht) }

  /** The matrix an empty table is initialised with, and what `clearData()`
      resets it to: weeks·7 days of 48 default AHTs. */
  function DefaultMatrix(weeks: Weeks): (am: Matrix)
    ensures |am| == TotalDays(weeks)
    ensures forall d, i :: 0 <= d < TotalDays(weeks) && 0 <= i < IntervalsPerDay ==> Cell(am, d, i) == Some(DefaultAht)
  {
    seq(TotalDays(weeks), _ => Some(DefaultDay()))
  }

  /** The render-time initialisation: an empty matrix is replaced by the
      default one, any other is left alone. */
  function Initialised(weeks: Weeks, am: Matrix): (r: Option<Matrix>)
    ensures r.Some? <==> |am| == 0
    ensures r.Some? ==> r.value == DefaultMatrix(weeks)
  {
    if |am| == 0 then Some(DefaultMatrix(weeks)) else None
  }

  /** With the default matrix and a planned AHT of 1560 seconds, every
      interval's average AHT over the horizon is 1560 seconds. */
  lemma DefaultMatrixAverage(weeks: Weeks, vm: Matrix, i: nat)
    requires i < IntervalsPerDay
    ensures AverageAht(vm, DefaultMatrix(weeks), i, TotalDays(weeks), DefaultAht as real) == DefaultAht as real
  {
    var am, p := DefaultMatrix(weeks), DefaultAht as real;
    forall d | 0 <= d < TotalDays(weeks)
      ensures p <= AhtAt(am, d, i, p) <= p
    {
      assert Cell(am, d, i) == Some(DefaultAht);
    }
    AverageAhtBounds(vm, am, i, TotalDays(weeks), p, p, p);
  }

  /** The number stored for typed text: `parseInt(value) || 1560`, so a
      zero or an unparseable entry stores the default. */
  function StoredAht(value: string): (a: int)
    ensures a != 0
  {
    var parsed := ParseIntOrZero(Some(value));
    if parsed == 0 then DefaultAht else parsed
  }

  /** Typing a non-zero integer stores it; typing 0 or clearing the input
      stores the default. */
  lemma StoredAhtOfTyped(n: int)
    ensures StoredAht(IntToString(n)) == if n == 0 then DefaultAht else n
    ensures StoredAht("") == DefaultAht
  {
    ParseIntOrZeroOfIntToString(n);
    ParseIntOrZeroOfEmpty();
  }

  /** The matrix `updateAHTValue(d, i, value)` hands on. */
  function EditedAht(am: Matrix, d: nat, i: nat, value: string): Matrix
  {
    SetCell(am, d, i, StoredAht(value), DefaultDay())
  }

  /** `updateAHTValue(d, i, value)`: copy the matrix, create the day as 48
      default AHTs if it is missing, store the parsed number or the
      default. Only cell (d, i) changes. */
  method UpdateAhtValue(ahtMatrix: Matrix, dayIndex: nat, intervalIndex: nat, value: string)
    returns (newMatrix: Matrix)
    ensures newMatrix == EditedAht(ahtMatrix, dayIndex, intervalIndex, value)
    ensures |newMatrix| == if dayIndex < |ahtMatrix| then |ahtMatrix| else dayIndex + 1
    ensures Cell(newMatrix, dayIndex, intervalIndex) == Some(StoredAht(value))
    ensures forall d, i :: d != dayIndex ==> Cell(newMatrix, d, i) == Cell(ahtMatrix, d, i)
    ensures forall i :: i != intervalIndex ==>
      Cell(newMatrix, dayIndex, i) ==
        if At(ahtMatrix, dayIndex).Some? then Cell(ahtMatrix, dayIndex, i)
        else if 0 <= i < IntervalsPerDay then Some(DefaultAht) else None
  {
    newMatrix := ahtMatrix;
    var row: Arr<int>;
    if At(newMatrix, dayIndex).None? {
      row := Filled(IntervalsPerDay, 1560);
      newMatrix := Put(newMatrix, dayIndex, row);
    } else {
      row := newMatrix[dayIndex].value;
    }
    var parsed := ParseIntOrZero(Some(value));
    var stored := if parsed == 0 then 1560 else parsed;
    newMatrix := Put(newMatrix, dayIndex, Put(row, intervalIndex, stored));
    PutPut(ahtMatrix, dayIndex, row, Put(row, intervalIndex, stored));
  }

  /** Typing into the same cell twice keeps only the second number. */
  lemma LastEditWins(am: Matrix, d: nat, i: nat, v: string, w: string)
    ensures EditedAht(EditedAht(am, d, i, v), d, i, w) == EditedAht(am, d, i, w)
  {
    SetCellTwice(am, d, i, StoredAht(v), StoredAht(w), DefaultDay());
  }

  /** The AHT a cell shows: `ahtMatrix[d]?.[i] || 1560`. */
  function ShownAht(am: Matrix, d: nat, i: nat): (a: int)
    ensures a != 0
  {
    match Cell(am, d, i)
    case None => DefaultAht
    case Some(a) => if a == 0 then DefaultAht else a
  }

  /** The table shows what the metrics read when the planned AHT is the
      default, and after an edit it shows the stored number. */
  lemma ShownIsWhatMetricsRead(am: Matrix, d: nat, i: nat, value: string)
    ensures AhtAt(am, d, i, DefaultAht as real) == ShownAht(am, d, i) as real
    ensures ShownAht(EditedAht(am, d, i, value), d, i) == StoredAht(value)
  {
  }

  /** The caption under each entry: `formatSeconds(a)`, minutes and two
      second digits. Different non-negative AHTs get different captions. */
  function AhtCaption(seconds: int): string
  {
    MinutesSeconds(seconds)
  }

  lemma AhtCaptionSpelled(seconds: nat, other: nat)
    ensures AhtCaption(seconds) == NatToString(seconds / 60) + ":" + TwoDigits(seconds % 60)
    ensures (seconds / 60) * 60 + seconds % 60 == seconds
    ensures AhtCaption(seconds) == AhtCaption(other) ==> seconds == other
  {
    MinutesSecondsSpelled(seconds);
    if AhtCaption(seconds) == AhtCaption(other) {
      MinutesSecondsInjective(seconds, other);
    }
  }

  /** The default caption reads 26:00. */
  lemma DefaultCaption()
    ensures AhtCaption(DefaultAht) == "26:00"
  {
    MinutesSecondsSpelled(DefaultAht);
    assert DefaultAht / 60 == 26 && DefaultAht % 60 == 0;
  }

  /** One sample AHT from a uniform draw r in [0, 1): 24 to just under 28
      minutes. */
  function SampleAht(r: real): (a: int)
    requires 0.0 <= r < 1.0
    ensures 1440 <= a <= 1679
  {
    (r * 240.0).Floor + 1440
  }
}
