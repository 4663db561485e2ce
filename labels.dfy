/** The 48 half-hour intervals of a day and the two labelling conventions the
    components use for them. */
module IntervalLabels {
  import opened Js

  const IntervalsPerDay := 48

  /** `${hour.padStart(2,'0')}:${minute.padStart(2,'0')}`. */
  function Clock(hour: nat, minute: nat): string
  {
    TwoDigits(hour) + ":" + TwoDigits(minute)
  }

  /** The 12-hour clock hour shown for a 24-hour hour: `hour % 12 || 12`. */
  function TwelveHour(hour: nat): (h: nat)
    ensures 1 <= h <= 12
  {
    if hour % 12 == 0 then 12 else hour % 12
  }

  lemma TwelveHourOfDayHour(hour: nat)
    requires hour < 24
    ensures TwelveHour(hour) == if hour == 0 || hour == 12 then 12 else if hour < 12 then hour else hour - 12
  {
  }

  function Meridiem(hour: nat): string
  {
    if hour < 12 then "AM" else "PM"
  }

  /** `hh:mm AM` / `hh:mm PM`, the hour on the 12-hour clock. */
  function Display(hour: nat, minute: nat): string
  {
    Clock(TwelveHour(hour), minute) + " " + Meridiem(hour)
  }

  // Start-of-interval convention (roster, volume, AHT and calculated metrics
  // tables): interval i begins i * 30 minutes after midnight.

  function StartHour(i: nat): nat { i / 2 }

  function StartMinute(i: nat): nat { (i % 2) * 30 }

  function StartLabel(i: nat): string { Clock(StartHour(i), StartMinute(i)) }

  function StartDisplay(i: nat): string { Display(StartHour(i), StartMinute(i)) }

  // End-of-interval convention (staffing chart and transposed metrics table):
  // interval i is labelled 30 * i + 30 minutes after midnight, wrapped at 24h.

  function EndHour(i: nat): nat { ((i * 30 + 30) / 60) % 24 }

  function EndMinute(i: nat): nat { (i * 30 + 30) % 60 }

  function EndLabel(i: nat): string { Clock(EndHour(i), EndMinute(i)) }

  lemma ClockSpelled(hour: nat, minute: nat)
    requires hour < 100 && minute < 100
    ensures Clock(hour, minute)
         == [DigitChar(hour / 10), DigitChar(hour % 10), ':', DigitChar(minute / 10), DigitChar(minute % 10)]
  {
    TwoDigitsSpelled(hour);
    TwoDigitsSpelled(minute);
  }

  /** A clock label determines its hour and its minute. */
  lemma ClockInjective(h1: nat, m1: nat, h2: nat, m2: nat)
    requires h1 < 100 && m1 < 100 && h2 < 100 && m2 < 100
    requires Clock(h1, m1) == Clock(h2, m2)
    ensures h1 == h2 && m1 == m2
  {
    ClockSpelled(h1, m1);
    ClockSpelled(h2, m2);
    var c1 := [DigitChar(h1 / 10), DigitChar(h1 % 10), ':', DigitChar(m1 / 10), DigitChar(m1 % 10)];
    var c2 := [DigitChar(h2 / 10), DigitChar(h2 % 10), ':', DigitChar(m2 / 10), DigitChar(m2 % 10)];
    assert c1 == c2;
    assert c1[0] == c2[0] && c1[1] == c2[1] && c1[3] == c2[3] && c1[4] == c2[4];
    assert DigitValue(c1[0]) == DigitValue(c2[0]) && DigitValue(c1[1]) == DigitValue(c2[1]);
    assert DigitValue(c1[3]) == DigitValue(c2[3]) && DigitValue(c1[4]) == DigitValue(c2[4]);
  }

  /** A clock label is the five characters that spell it. (The boundary
      lemmas below pass hours and minutes as terms over their index, which
      keeps the solver from evaluating the label functions on constants.) */
  lemma ClockIs(hour: nat, minute: nat, s: string)
    requires hour < 100 && minute < 100
    requires s == [DigitChar(hour / 10), DigitChar(hour % 10), ':', DigitChar(minute / 10), DigitChar(minute % 10)]
    ensures Clock(hour, minute) == s
  {
    ClockSpelled(hour, minute);
  }

  /** Start-of-interval times: every hour is on the 24-hour clock, every
      minute is 0 or 30, and together they give 30 * i minutes. */
  lemma StartTimeInRange(i: nat)
    requires i < IntervalsPerDay
    ensures StartHour(i) < 24 && (StartMinute(i) == 0 || StartMinute(i) == 30)
    ensures StartHour(i) * 60 + StartMinute(i) == 30 * i
  {
  }

  // The boundary labels.

  /** Index 0 is labelled midnight, "00:00". */
  lemma FirstStartLabel()
    ensures StartLabel(0) == "00:00"
  {
    ClockIs(StartHour(0), StartMinute(0), "00:00");
  }

  /** Index 47 is labelled "23:30". */
  lemma LastStartLabel()
    ensures StartLabel(47) == "23:30"
  {
    ClockIs(StartHour(47), StartMinute(47), "23:30");
  }

  /** The 48 start labels are pairwise different. */
  lemma StartLabelsDistinct(i: nat, j: nat)
    requires i < IntervalsPerDay && j < IntervalsPerDay && i != j
    ensures StartLabel(i) != StartLabel(j)
  {
    if StartLabel(i) == StartLabel(j) {
      StartTimeInRange(i);
      StartTimeInRange(j);
      ClockInjective(StartHour(i), StartMinute(i), StartHour(j), StartMinute(j));
      assert false;
    }
  }

  /** End-of-interval times: every hour is on the 24-hour clock, every minute
      is 0 or 30, and together they give 30 * i + 30 minutes modulo a day. */
  lemma EndTimeInRange(i: nat)
    requires i < IntervalsPerDay
    ensures EndHour(i) < 24 && (EndMinute(i) == 0 || EndMinute(i) == 30)
    ensures EndHour(i) * 60 + EndMinute(i) == if i == 47 then 0 else 30 * i + 30
  {
    var t := i * 30 + 30;
    if i == 47 {
      assert t == 1440;
    } else {
      assert t < 1440;
      assert t / 60 < 24;
    }
  }

  /** Index 0 is labelled "00:30", the end of the first half hour. */
  lemma FirstEndLabel()
    ensures EndLabel(0) == "00:30"
  {
    ClockIs(EndHour(0), EndMinute(0), "00:30");
  }

  /** Index 47 wraps round to "00:00". */
  lemma LastEndLabel()
    ensures EndLabel(47) == "00:00"
  {
    ClockIs(EndHour(47), EndMinute(47), "00:00");
  }

  /** The 48 end labels are pairwise different. */
  lemma EndLabelsDistinct(i: nat, j: nat)
    requires i < IntervalsPerDay && j < IntervalsPerDay && i != j
    ensures EndLabel(i) != EndLabel(j)
  {
    if EndLabel(i) == EndLabel(j) {
      EndTimeInRange(i);
      EndTimeInRange(j);
      ClockInjective(EndHour(i), EndMinute(i), EndHour(j), EndMinute(j));
      assert false;
    }
  }

  lemma DisplaySplit(hour: nat, minute: nat)
    requires minute < 100
    ensures var d := Display(hour, minute);
      d[..5] == Clock(TwelveHour(hour), minute) && d[6..] == Meridiem(hour)
  {
    ClockSpelled(TwelveHour(hour), minute);
  }

  /** A 12-hour display label determines the 24-hour hour and the minute. */
  lemma DisplayInjective(h1: nat, m1: nat, h2: nat, m2: nat)
    requires h1 < 24 && m1 < 60 && h2 < 24 && m2 < 60
    requires Display(h1, m1) == Display(h2, m2)
    ensures h1 == h2 && m1 == m2
  {
    DisplaySplit(h1, m1);
    DisplaySplit(h2, m2);
    ClockInjective(TwelveHour(h1), m1, TwelveHour(h2), m2);
    assert (h1 < 12) == (h2 < 12) by { assert Meridiem(h1)[0] == Meridiem(h2)[0]; }
    TwelveHourOfDayHour(h1);
    TwelveHourOfDayHour(h2);
  }

  /** The 48 start-of-interval display labels are pairwise different. */
  lemma StartDisplaysDistinct(i: nat, j: nat)
    requires i < IntervalsPerDay && j < IntervalsPerDay && i != j
    ensures StartDisplay(i) != StartDisplay(j)
  {
    if StartDisplay(i) == StartDisplay(j) {
      StartTimeInRange(i);
      StartTimeInRange(j);
      DisplayInjective(StartHour(i), StartMinute(i), StartHour(j), StartMinute(j));
      assert false;
    }
  }

  /** A display label character by character: the two digits of the
      12-hour hour, a colon, the two digits of the minute, a space and the
      meridiem. */
  lemma DisplaySpelled(hour: nat, minute: nat)
    requires minute < 100
    ensures Display(hour, minute)
         == [DigitChar(TwelveHour(hour) / 10), DigitChar(TwelveHour(hour) % 10), ':',
             DigitChar(minute / 10), DigitChar(minute % 10), ' ', if hour < 12 then 'A' else 'P', 'M']
  {
    var h := TwelveHour(hour);
    ClockSpelled(h, minute);
    Spaced(DigitChar(h / 10), DigitChar(h % 10), DigitChar(minute / 10), DigitChar(minute % 10),
           if hour < 12 then 'A' else 'P');
  }

  /** A display label equals any string spelled as above. */
  lemma DisplayIs(hour: nat, minute: nat, s: string)
    requires minute < 100
    requires s == [DigitChar(TwelveHour(hour) / 10), DigitChar(TwelveHour(hour) % 10), ':',
                   DigitChar(minute / 10), DigitChar(minute % 10), ' ', if hour < 12 then 'A' else 'P', 'M']
    ensures Display(hour, minute) == s
  {
    DisplaySpelled(hour, minute);
  }

  lemma Spaced(h1: char, h2: char, m1: char, m2: char, a: char)
    ensures [h1, h2, ':', m1, m2] + " " + [a, 'M'] == [h1, h2, ':', m1, m2, ' ', a, 'M']
  {
    assert |[h1, h2, ':', m1, m2] + " " + [a, 'M']| == 8;
  }

  lemma FirstStartClock()
    ensures Clock(TwelveHour(StartHour(0)), StartMinute(0)) == "12:00"
  {
    ClockIs(TwelveHour(StartHour(0)), StartMinute(0), "12:00");
  }

  lemma LastStartClock()
    ensures Clock(TwelveHour(StartHour(47)), StartMinute(47)) == "11:30"
  {
    ClockIs(TwelveHour(StartHour(47)), StartMinute(47), "11:30");
  }

  /** On the 12-hour clock index 0 shows as "12:00 AM" (the roster grid's
      caption announces 12:30 AM as its first column). */
  lemma FirstStartDisplay()
    ensures StartDisplay(0) == "12:00 AM"
  {
    DisplayIs(StartHour(0), StartMinute(0), "12:00 AM");
  }

  /** Index 47 shows as "11:30 PM". */
  lemma LastStartDisplay()
    ensures StartDisplay(47) == "11:30 PM"
  {
    DisplayIs(StartHour(47), StartMinute(47), "11:30 PM");
  }
}
