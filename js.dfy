/** JavaScript value semantics the dashboard components rely on: sparse
    arrays with holes, `parseInt`, `Number.prototype.toString` on integers,
    `String.prototype.padStart`, `Math.round` and `Math.ceil`. */
module Js {

  datatype Option<T> = None | Some(value: T)

  /** A JavaScript array. `None` is a hole (reading it gives `undefined`). */
  type Arr<T> = seq<Option<T>>

  /** `a[k]`: `undefined` outside the array. */
  function At<T>(a: Arr<T>, k: int): Option<T>
  {
    if 0 <= k < |a| then a[k] else None
  }

  /** `m[r]?.[c]` on an array of arrays. */
  function Cell<T>(m: Arr<Arr<T>>, r: int, c: int): Option<T>
  {
    match At(m, r)
    case None => None
    case Some(row) => At(row, c)
  }

  /** `Array(n).fill(v)`. */
  function Filled<T>(n: nat, v: T): (r: Arr<T>)
    ensures |r| == n
    ensures forall k :: 0 <= k < n ==> r[k] == Some(v)
  {
    seq(n, _ => Some(v))
  }

  function Holes<T>(n: nat): (r: Arr<T>)
    ensures |r| == n
    ensures forall k :: 0 <= k < n ==> r[k] == None
  {
    seq(n, _ => None)
  }

  /** `a[k] = v`: writing past the end grows the array and leaves holes. */
  function Put<T>(a: Arr<T>, k: nat, v: T): (r: Arr<T>)
    ensures |r| == if k < |a| then |a| else k + 1
    ensures At(r, k) == Some(v)
    ensures forall j :: j != k ==> At(r, j) == At(a, j)
  {
    if k < |a| then a[k := Some(v)] else a + Holes(k - |a|) + [Some(v)]
  }

  /** Writing the same index twice keeps only the second value. */
  lemma PutPut<T>(a: Arr<T>, k: nat, v: T, w: T)
    ensures Put(Put(a, k, v), k, w) == Put(a, k, w)
  {
    var x, y := Put(Put(a, k, v), k, w), Put(a, k, w);
    assert |x| == |y|;
    forall j | 0 <= j < |x| ensures x[j] == y[j] {
      assert At(x, j) == At(y, j);
    }
  }

  /** `m[r]`, or newRow when row r is missing. */
  function RowOr<T>(m: Arr<Arr<T>>, r: nat, newRow: Arr<T>): Arr<T>
  {
    match At(m, r)
    case None => newRow
    case Some(row) => row
  }

  /** The matrix edit every table component performs: copy the matrix,
      create row r from newRow when it is missing, then write `m[r][c] = v`.
      Cell (r, c) holds v, the rest of row r is as before (or as in newRow),
      and every other row is unchanged. */
  function SetCell<T>(m: Arr<Arr<T>>, r: nat, c: nat, v: T, newRow: Arr<T>): (g: Arr<Arr<T>>)
    ensures |g| == if r < |m| then |m| else r + 1
    ensures Cell(g, r, c) == Some(v)
    ensures forall r', c' :: r' != r ==> Cell(g, r', c') == Cell(m, r', c')
    ensures forall c' :: c' != c ==> Cell(g, r, c') == At(RowOr(m, r, newRow), c')
  {
    Put(m, r, Put(RowOr(m, r, newRow), c, v))
  }

  /** Writing the same cell twice keeps only the second value. */
  lemma SetCellTwice<T>(m: Arr<Arr<T>>, r: nat, c: nat, v: T, w: T, newRow: Arr<T>)
    ensures SetCell(SetCell(m, r, c, v, newRow), r, c, w, newRow) == SetCell(m, r, c, w, newRow)
  {
    var row := RowOr(m, r, newRow);
    assert RowOr(SetCell(m, r, c, v, newRow), r, newRow) == Put(row, c, v);
    PutPut(row, c, v, w);
    PutPut(m, r, Put(row, c, v), Put(row, c, w));
  }

  // ---------------------------------------------------------------------
  // Digits and integer printing

  predicate IsDigit(c: char) { '0' <= c <= '9' }

  function DigitValue(c: char): nat
    requires IsDigit(c)
  {
    (c as int) - ('0' as int)
  }

  function DigitChar(d: nat): (c: char)
    requires d < 10
    ensures IsDigit(c) && DigitValue(c) == d
  {
    ((('0' as int) + d) as char)
  }

  predicate AllDigits(s: string) { forall k :: 0 <= k < |s| ==> IsDigit(s[k]) }

  /** `n.toString()` for a non-negative integer. */
  function NatToString(n: nat): (s: string)
    ensures |s| >= 1 && AllDigits(s)
    ensures n < 10 <==> |s| == 1
  {
    if n < 10 then [DigitChar(n)] else NatToString(n / 10) + [DigitChar(n % 10)]
  }

  /** `n.toString()` for an integer. */
  function IntToString(n: int): string
  {
    if n < 0 then "-" + NatToString(-n) else NatToString(n)
  }

  /** `s.padStart(width, c)`. */
  function PadStart(s: string, width: nat, c: char): (r: string)
    ensures |r| == if |s| >= width then |s| else width
    ensures r[|r| - |s|..] == s
  {
    if |s| >= width then s else seq(width - |s|, _ => c) + s
  }

  /** A number below 100 padded to two places: both digits, tens first. */
  function TwoDigits(n: nat): string
  {
    PadStart(NatToString(n), 2, '0')
  }

  lemma {:induction false} TwoDigitsSpelled(n: nat)
    requires n < 100
    ensures TwoDigits(n) == [DigitChar(n / 10), DigitChar(n % 10)]
  {
    if n >= 10 {
      assert NatToString(n) == NatToString(n / 10) + [DigitChar(n % 10)];
      assert NatToString(n / 10) == [DigitChar(n / 10)];
    }
  }

  lemma TwoDigitsInjective(a: nat, b: nat)
    requires a < 100 && b < 100 && TwoDigits(a) == TwoDigits(b)
    ensures a == b
  {
    TwoDigitsSpelled(a);
    TwoDigitsSpelled(b);
    assert DigitValue(TwoDigits(a)[0]) == a / 10 && DigitValue(TwoDigits(b)[0]) == b / 10;
    assert DigitValue(TwoDigits(a)[1]) == a % 10 && DigitValue(TwoDigits(b)[1]) == b % 10;
  }

  // ---------------------------------------------------------------------
  // parseInt

  /** The white space `parseInt` skips before the number. */
  predicate IsSpace(c: char)
  {
    c == ' ' || c == '\t' || c == '\n' || c == '\r' || c == '\U{B}' || c == '\U{C}'
    || c == '\U{A0}' || c == '\U{FEFF}' || c == '\U{2028}' || c == '\U{2029}'
  }

  function TrimStart(s: string): (r: string)
    ensures |r| <= |s| && r == s[|s| - |r|..]
    ensures r == [] || !IsSpace(r[0])
  {
    if |s| > 0 && IsSpace(s[0]) then TrimStart(s[1..]) else s
  }

  /** Length of the longest prefix of `s` made of decimal digits. */
  function DigitRun(s: string): (n: nat)
    ensures n <= |s| && AllDigits(s[..n])
    ensures n < |s| ==> !IsDigit(s[n])
  {
    if |s| > 0 && IsDigit(s[0]) then
      var n := 1 + DigitRun(s[1..]);
      assert s[..n] == [s[0]] + s[1..][..n - 1];
      n
    else 0
  }

  /** The value of a string of decimal digits, most significant first. */
  function DigitsValue(s: string): nat
    requires AllDigits(s)
  {
    if s == [] then 0 else DigitsValue(s[..|s| - 1]) * 10 + DigitValue(s[|s| - 1])
  }

  /** `parseInt(s)`; `None` is `NaN`. Leading white space is skipped, a sign
      is optional and a run of decimal digits must follow; whatever follows
      the run is ignored. */
  function ParseInt(s: string): (r: Option<int>)
  {
    ParseTrimmed(TrimStart(s))
  }

  /** `parseInt` once the leading white space is gone. */
  function ParseTrimmed(t: string): (r: Option<int>)
    ensures r.Some? ==> exists k :: 0 <= k < |t| && IsDigit(t[k])
  {
    var negative := |t| > 0 && t[0] == '-';
    var u := if |t| > 0 && (t[0] == '-' || t[0] == '+') then t[1..] else t;
    var n := DigitRun(u);
    if n == 0 then None
    else
      assert IsDigit(t[|t| - |u|]);
      var v: int := DigitsValue(u[..n]);
      Some(if negative then -v else v)
  }

  /** `parseInt` yields a number only when the text holds a digit. */
  lemma ParseIntNeedsDigit(s: string)
    ensures ParseInt(s).Some? ==> exists k :: 0 <= k < |s| && IsDigit(s[k])
  {
    var t := TrimStart(s);
    if ParseTrimmed(t).Some? {
      var k :| 0 <= k < |t| && IsDigit(t[k]);
      assert s[|s| - |t| + k] == t[k];
    }
  }

  lemma TrimStartOfNoSpace(s: string)
    requires |s| > 0 && !IsSpace(s[0])
    ensures TrimStart(s) == s
  {
  }

  /** `parseInt(x) || 0` where `x` may be `undefined`: `NaN` (and 0) give 0. */
  function ParseIntOrZero(x: Option<string>): int
  {
    match x
    case None => 0
    case Some(s) => match ParseInt(s) case None => 0 case Some(v) => v
  }

  lemma {:induction false} DigitsValueOfNatToString(n: nat)
    ensures DigitsValue(NatToString(n)) == n
  {
    var s := NatToString(n);
    if n >= 10 {
      assert s[..|s| - 1] == NatToString(n / 10);
      DigitsValueOfNatToString(n / 10);
    }
  }

  lemma DigitRunOfDigits(s: string)
    requires AllDigits(s)
    ensures DigitRun(s) == |s|
  {
  }

  /** Parsing a digit string reads all of it. */
  lemma ParseIntOfDigits(d: string)
    requires |d| >= 1 && AllDigits(d)
    ensures ParseInt(d) == Some(DigitsValue(d))
  {
    assert IsDigit(d[0]);
    TrimStartOfNoSpace(d);
    DigitRunOfDigits(d);
    assert d[..|d|] == d;
  }

  /** Parsing a minus sign followed by digits reads all of it. */
  lemma ParseIntOfNegativeDigits(s: string)
    requires |s| >= 2 && s[0] == '-' && AllDigits(s[1..])
    ensures ParseInt(s) == Some(-(DigitsValue(s[1..]) as int))
  {
    TrimStartOfNoSpace(s);
    var u := s[1..];
    DigitRunOfDigits(u);
    assert u[..|u|] == u;
  }

  /** Printing an integer and parsing it back gives the integer. */
  lemma ParseIntOfIntToString(n: int)
    ensures ParseInt(IntToString(n)) == Some(n)
  {
    var m: nat := if n < 0 then -n else n;
    DigitsValueOfNatToString(m);
    if n < 0 {
      var s := IntToString(n);
      assert s[1..] == NatToString(m);
      ParseIntOfNegativeDigits(s);
    } else {
      ParseIntOfDigits(NatToString(m));
    }
  }

  lemma ParseIntOrZeroOfIntToString(n: int)
    ensures ParseIntOrZero(Some(IntToString(n))) == n
  {
    ParseIntOfIntToString(n);
  }

  /** `parseInt('')` is `NaN`, so an empty cell counts as 0. */
  lemma ParseIntOrZeroOfEmpty()
    ensures ParseIntOrZero(Some("")) == 0
  {
  }

  /** `NatToString` is injective: different numbers print differently. */
  lemma NatToStringInjective(a: nat, b: nat)
    requires NatToString(a) == NatToString(b)
    ensures a == b
  {
    DigitsValueOfNatToString(a);
    DigitsValueOfNatToString(b);
  }

  // ---------------------------------------------------------------------
  // Rounding

  /** `Math.round(x)`: the nearest integer, halves rounded up. */
  function Round(x: real): (r: int)
    ensures r as real - 0.5 <= x < r as real + 0.5
  {
    (x + 0.5).Floor
  }

  /** `Math.ceil(x)`. */
  function Ceil(x: real): (r: int)
    ensures x <= r as real < x + 1.0
  {
    -((-x).Floor)
  }

  /** `Math.round(x * 10) / 10`: one decimal place. */
  function Tenths(x: real): (r: real)
    ensures x - 0.05 < r <= x + 0.05
  {
    var k := Round(x * 10.0) as real;
    assert x * 10.0 - 0.5 < k <= x * 10.0 + 0.5;
    k / 10.0
  }

  /** One decimal place keeps a value between two whole numbers between
      them. */
  lemma TenthsWithin(x: real, lo: int, hi: int)
    requires lo as real <= x <= hi as real
    ensures lo as real <= Tenths(x) <= hi as real
  {
    var k := Round(x * 10.0);
    assert 10 * lo <= k <= 10 * hi;
  }

  lemma RoundOfInt(n: int)
    ensures Round(n as real) == n
  {
  }

  // ---------------------------------------------------------------------
  // One-decimal text

  /** Whether a value is a whole number of tenths, as `Math.round(x * 10) / 10`
      leaves it. */
  predicate WholeTenths(v: real)
  {
    (v * 10.0).Floor as real == v * 10.0
  }

  lemma TenthsAreWhole(x: real)
    ensures WholeTenths(Tenths(x))
  {
    var k := Round(x * 10.0);
    assert Tenths(x) * 10.0 == k as real;
  }

  lemma WholeTenthsOfInt(n: int)
    ensures WholeTenths(n as real)
  {
    assert n as real * 10.0 == (n * 10) as real;
  }

  /** `v.toFixed(1)` for a value of k tenths: a minus sign when k is
      negative, then the whole part, a point and the tenths digit. */
  function Fixed1(k: int): (r: string)
    ensures |r| >= 3 && r[|r| - 2] == '.' && IsDigit(r[|r| - 1])
    ensures k < 0 <==> r[0] == '-'
  {
    (if k < 0 then "-" else "") + Unsigned1(if k < 0 then -k else k)
  }

  function Unsigned1(m: nat): (r: string)
    ensures |r| >= 3 && IsDigit(r[0]) && r[|r| - 2] == '.' && IsDigit(r[|r| - 1])
  {
    NatToString(m / 10) + "." + [DigitChar(m % 10)]
  }

  lemma Unsigned1Injective(a: nat, b: nat)
    requires Unsigned1(a) == Unsigned1(b)
    ensures a == b
  {
    var s := Unsigned1(a);
    assert s[..|s| - 2] == NatToString(a / 10);
    assert s[..|s| - 2] == NatToString(b / 10);
    NatToStringInjective(a / 10, b / 10);
    assert DigitValue(s[|s| - 1]) == a % 10 && DigitValue(s[|s| - 1]) == b % 10;
  }

  /** Different numbers of tenths are written differently. */
  lemma Fixed1Injective(a: int, b: int)
    requires Fixed1(a) == Fixed1(b)
    ensures a == b
  {
    var ma: nat, mb: nat := if a < 0 then -a else a, if b < 0 then -b else b;
    var fa, fb := Fixed1(a), Fixed1(b);
    assert (a < 0) == (fa[0] == '-') && (b < 0) == (fb[0] == '-');
    var off := if a < 0 then 1 else 0;
    assert fa[off..] == Unsigned1(ma);
    assert fb[off..] == Unsigned1(mb);
    Unsigned1Injective(ma, mb);
  }

  /** `v.toFixed(1)` for a value v that is a whole number of tenths. */
  function ToFixed1(v: real): string
  {
    Fixed1(Round(v * 10.0))
  }

  /** `toFixed(1)` followed by the same suffix tells whole numbers of
      tenths apart. */
  lemma ToFixed1Injective(v: real, w: real, suffix: string)
    requires WholeTenths(v) && WholeTenths(w)
    requires ToFixed1(v) + suffix == ToFixed1(w) + suffix
    ensures v == w
  {
    var s, t := ToFixed1(v), ToFixed1(w);
    assert s == (s + suffix)[..|s|];
    assert |s| == |t|;
    assert t == (t + suffix)[..|t|];
    Fixed1Injective(Round(v * 10.0), Round(w * 10.0));
    RoundOfWholeTenths(v);
    RoundOfWholeTenths(w);
  }

  /** The number of tenths `toFixed(1)` writes for a whole number of tenths
      is the value times ten. */
  lemma RoundOfWholeTenths(v: real)
    requires WholeTenths(v)
    ensures Round(v * 10.0) as real == v * 10.0
  {
    var k := (v * 10.0).Floor;
    RoundOfInt(k);
    assert v * 10.0 == k as real;
  }

  // ---------------------------------------------------------------------
  // Number to text

  /** `String(v)` for a value of k tenths: JavaScript writes a whole number
      without a decimal part and any other number of tenths with one
      decimal digit. */
  function Decimal1(k: int): (r: string)
    ensures k % 10 == 0 ==> r == IntToString(k / 10)
    ensures k % 10 != 0 ==> r == Fixed1(k)
    ensures |r| >= 1 && (r[0] == '-' || IsDigit(r[0]))
  {
    var m: nat := if k < 0 then -k else k;
    assert (k % 10 == 0) == (m % 10 == 0) && (k % 10 == 0 ==> m / 10 == if k < 0 then -(k / 10) else k / 10) by {
      DivModOfNegation(k, m);
    }
    (if k < 0 then "-" else "") + NatToString(m / 10) + (if m % 10 == 0 then "" else "." + [DigitChar(m % 10)])
  }

  /** Negating a number keeps its remainder by ten zero or non-zero, and an
      exact quotient changes sign with it. */
  lemma DivModOfNegation(k: int, m: nat)
    requires m == if k < 0 then -k else k
    ensures (k % 10 == 0) == (m % 10 == 0)
    ensures k % 10 == 0 ==> m / 10 == if k < 0 then -(k / 10) else k / 10
  {
    if k < 0 {
      var q, r := k / 10, k % 10;
      assert k == 10 * q + r && 0 <= r < 10;
      if r == 0 {
        assert m == 10 * (-q);
      } else {
        assert m == 10 * (-q - 1) + (10 - r);
      }
    }
  }

  /** The text of an integer is a minus sign or a digit, then digits only. */
  lemma IntToStringShape(n: int)
    ensures |IntToString(n)| >= 1
    ensures IntToString(n)[0] == '-' || IsDigit(IntToString(n)[0])
    ensures forall k :: 1 <= k < |IntToString(n)| ==> IsDigit(IntToString(n)[k])
  {
  }

  lemma IntToStringInjective(a: int, b: int)
    requires IntToString(a) == IntToString(b)
    ensures a == b
  {
    var s := IntToString(a);
    assert (a < 0) == (s[0] == '-') && (b < 0) == (s[0] == '-');
    var off := if a < 0 then 1 else 0;
    assert s[off..] == NatToString(if a < 0 then -a else a);
    assert s[off..] == NatToString(if b < 0 then -b else b);
    NatToStringInjective(if a < 0 then -a else a, if b < 0 then -b else b);
  }

  /** Different numbers of tenths are written differently. */
  lemma Decimal1Injective(a: int, b: int)
    requires Decimal1(a) == Decimal1(b)
    ensures a == b
  {
    var r := Decimal1(a);
    if a % 10 == 0 && b % 10 == 0 {
      IntToStringInjective(a / 10, b / 10);
    } else if a % 10 != 0 && b % 10 != 0 {
      Fixed1Injective(a, b);
    } else {
      var n := if a % 10 == 0 then a / 10 else b / 10;
      IntToStringShape(n);
    }
  }
}
