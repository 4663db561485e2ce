/** The `m:ss` rendering of a number of seconds shared by the AHT table
    (`formatSeconds`) and the calculated metrics table (`formatValue` with
    type `'time'`). */
module TimeFormat {
  import opened Js

  /** JavaScript's `%` on integers: the remainder takes the sign of the
      dividend. */
  function JsRem(a: int, b: int): (r: int)
    requires b > 0
    ensures a >= 0 ==> r == a % b
    ensures a < 0 ==> -b < r <= 0
  {
    if a >= 0 then a % b else -((-a) % b)
  }

  /** `${Math.floor(s / 60)}:${(s % 60).toString().padStart(2, '0')}`.
      Dafny's `/` by a positive divisor rounds down, as `Math.floor` does. */
  function MinutesSeconds(seconds: int): string
  {
    IntToString(seconds / 60) + ":" + PadStart(IntToString(JsRem(seconds, 60)), 2, '0')
  }

  /** For a non-negative number of seconds the text is the minutes, a colon
      and exactly two second digits, and minutes and seconds add back up to
      the number. */
  lemma MinutesSecondsSpelled(seconds: nat)
    ensures MinutesSeconds(seconds) == NatToString(seconds / 60) + ":" + TwoDigits(seconds % 60)
    ensures |TwoDigits(seconds % 60)| == 2 && AllDigits(TwoDigits(seconds % 60))
    ensures (seconds / 60) * 60 + seconds % 60 == seconds
  {
    TwoDigitsSpelled(seconds % 60);
  }

  /** Different non-negative durations are rendered differently, so the text
      can be read back. */
  lemma MinutesSecondsInjective(a: nat, b: nat)
    requires MinutesSeconds(a) == MinutesSeconds(b)
    ensures a == b
  {
    MinutesSecondsSpelled(a);
    MinutesSecondsSpelled(b);
    ColonSplit(NatToString(a / 60), TwoDigits(a % 60), NatToString(b / 60), TwoDigits(b % 60));
    NatToStringInjective(a / 60, b / 60);
    TwoDigitsInjective(a % 60, b % 60);
  }

  /** Two texts made of a head, a colon and a two-character tail are equal
      only when heads and tails are. */
  lemma ColonSplit(ma: string, sa: string, mb: string, sb: string)
    requires |sa| == 2 && |sb| == 2
    requires ma + ":" + sa == mb + ":" + sb
    ensures ma == mb && sa == sb
  {
    var t := ma + ":" + sa;
    assert |ma| == |mb|;
    assert ma == t[..|ma|];
    assert mb == (mb + ":" + sb)[..|mb|];
    assert sa == t[|ma| + 1..];
    assert sb == (mb + ":" + sb)[|mb| + 1..];
  }
}
