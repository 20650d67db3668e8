/**
 * Reading the "h:mm AM/PM" clock strings of the timetable. The dashboard
 * (App.tsx) and the hero card (HeroSection.tsx) each carry an identical copy of
 * parseTime; this module is that one definition. A parsed time is the minute
 * past local midnight of today that `setHours(hours, minutes, 0, 0)` lands on.
 */
module ClassTime {
  import opened JsRuntime
  import opened Types

  /** The hour of the day after the 12-hour rules: "PM" below 12 adds 12, "12 AM" is hour 0. */
  function To24Hour(hours: nat, modifier: Option<string>): (h: nat)
    ensures 1 <= hours <= 12 && (modifier == Some("AM") || modifier == Some("PM")) ==>
              h < 24 && (h < 12 <==> modifier == Some("AM")) && h % 12 == hours % 12
    ensures modifier != Some("AM") && modifier != Some("PM") ==> h == hours
    ensures hours > 12 ==> h == hours
  {
    if modifier == Some("PM") && hours < 12 then hours + 12
    else if modifier == Some("AM") && hours == 12 then 0
    else hours
  }

  /**
   * parseTime(timeStr). None stands for an Invalid Date: an hour or a minute
   * that Number() reads as NaN, or a missing ":mm" part. Hours and minutes past
   * the end of the day are not rejected: setHours carries them into the next
   * day, so the minute may be 1440 or more.
   */
  function ParseTime(timeStr: string): (r: Option<nat>)
  {
    var parts := Split(timeStr, " ");
    var modifier := if |parts| > 1 then Some(parts[1]) else None;
    var clock := Split(parts[0], ":");
    var hours := ToNumber(clock[0]);
    var minutes := if |clock| > 1 then ToNumber(clock[1]) else None;
    if hours.None? || minutes.None? then None
    else Some(To24Hour(hours.value, modifier) * 60 + minutes.value)
  }

  /** The instant, in milliseconds past local midnight, of a parsed minute. */
  function AtMs(minute: nat): int
  {
    minute * MinuteMs
  }

  /** A clock string as the timetable writes it: "09:00 AM", "12:30 PM". */
  function FormatClock(hour: nat, minute: nat, pm: bool): string
    requires 1 <= hour <= 12 && minute < 60
  {
    Pad2(hour) + ":" + Pad2(minute) + " " + (if pm then "PM" else "AM")
  }

  /** Splitting at a character that `a` does not contain cuts right after `a`. */
  lemma SplitAfterCharFree(a: string, c: char, b: string)
    requires c !in a
    ensures Split(a + [c] + b, [c]) == [a] + Split(b, [c])
  {
    forall i | 0 <= i < |a| ensures !OccursAt(a + [c] + b, [c], i) {
      CharSeparatorOccurs(a + [c] + b, c, i);
      assert (a + [c] + b)[i] == a[i];
    }
    SplitFirstCut(a, [c], b);
  }

  lemma SplitCharFree(s: string, c: char)
    requires c !in s
    ensures Split(s, [c]) == [s]
  {
    forall i: nat ensures !OccursAt(s, [c], i) {
      CharSeparatorOccurs(s, c, i);
    }
    SplitWithoutSeparator(s, [c]);
  }

  /** Digits, a colon, digits, a space and a modifier parse to that hour and minute. */
  lemma {:induction false} ParseWrittenClock(hs: string, ms: string, modifier: string)
    requires AllDigits(hs) && AllDigits(ms) && ' ' !in modifier
    ensures ParseTime(hs + ":" + ms + " " + modifier)
            == Some(To24Hour(DigitsValue(hs), Some(modifier)) * 60 + DigitsValue(ms))
  {
    var clock := hs + ":" + ms;
    assert ' ' !in clock by {
      forall i | 0 <= i < |clock| ensures clock[i] != ' ' {
        if i < |hs| { assert clock[i] == hs[i]; }
        else if i > |hs| { assert clock[i] == ms[i - |hs| - 1]; }
      }
    }
    assert ':' !in hs by {
      forall i | 0 <= i < |hs| ensures hs[i] != ':' { assert IsDigit(hs[i]); }
    }
    assert ':' !in ms by {
      forall i | 0 <= i < |ms| ensures ms[i] != ':' { assert IsDigit(ms[i]); }
    }
    SplitAfterCharFree(clock, ' ', modifier);
    SplitCharFree(modifier, ' ');
    assert hs + ":" + ms + " " + modifier == clock + [' '] + modifier;
    SplitAfterCharFree(hs, ':', ms);
    SplitCharFree(ms, ':');
    assert clock == hs + [':'] + ms;
  }

  /**
   * A twelve-hour clock string parses to a minute of the day in [0, 1440)
   * whose hour agrees with the written hour modulo 12, is before noon exactly
   * for "AM", and whose minute is the written minute.
   */
  lemma ParseTwelveHourClock(hour: nat, minute: nat, pm: bool)
    requires 1 <= hour <= 12 && minute < 60
    ensures ParseTime(FormatClock(hour, minute, pm)).Some?
    ensures var m := ParseTime(FormatClock(hour, minute, pm)).value;
            m < 1440 && m % 60 == minute && (m / 60) % 12 == hour % 12 && (m / 60 < 12 <==> !pm)
  {
    NumberOfPad2(hour);
    NumberOfPad2(minute);
    var modifier := if pm then "PM" else "AM";
    ParseWrittenClock(Pad2(hour), Pad2(minute), modifier);
    var h := To24Hour(hour, Some(modifier));
    MinuteOfDay(h, minute);
  }

  /** The minute of the day a twelve-hour clock stands for. */
  function ClockMinute(hour: nat, minute: nat, pm: bool): nat
  {
    To24Hour(hour, Some(if pm then "PM" else "AM")) * 60 + minute
  }

  /** A written clock parses to the minute of the day it stands for. */
  lemma ParseFormattedClock(hour: nat, minute: nat, pm: bool)
    requires 1 <= hour <= 12 && minute < 60
    ensures ParseTime(FormatClock(hour, minute, pm)) == Some(ClockMinute(hour, minute, pm))
  {
    ParseTwelveHourClock(hour, minute, pm);
    var modifier := if pm then "PM" else "AM";
    ParseWrittenClock(Pad2(hour), Pad2(minute), modifier);
    NumberOfPad2(hour);
    NumberOfPad2(minute);
  }

  lemma MinuteOfDay(h: nat, minute: nat)
    requires minute < 60
    ensures (h * 60 + minute) / 60 == h && (h * 60 + minute) % 60 == minute
  {
  }

  const RangeSeparator: string := " - "

  /**
   * `const [startStr, endStr] = range.split(' - ')` followed by
   * parseTime(startStr) and parseTime(endStr). Without the separator endStr is
   * undefined and parseTime(undefined) throws a TypeError.
   */
  function RangeBounds(range: string): (r: Completion<(Option<nat>, Option<nat>)>)
    ensures r.Throw? <==> forall i :: !OccursAt(range, RangeSeparator, i)
  {
    var parts := Split(range, RangeSeparator);
    if |parts| < 2 then Throw
    else Normal((ParseTime(parts[0]), ParseTime(parts[1])))
  }

  /** A range as the timetable writes it: "11:00 AM - 12:30 PM". */
  function FormatRange(startClock: string, endClock: string): string
  {
    startClock + RangeSeparator + endClock
  }

  /** " - " cannot start inside a string free of '-' that it follows. */
  lemma RangeSeparatorAfterDashFree(a: string, b: string)
    requires '-' !in a
    ensures forall i :: 0 <= i < |a| ==> !OccursAt(a + RangeSeparator + b, RangeSeparator, i)
  {
    var s := a + RangeSeparator + b;
    forall i | 0 <= i < |a| ensures !OccursAt(s, RangeSeparator, i) {
      assert s[i + 1] != '-' by {
        if i + 1 < |a| { assert s[i + 1] == a[i + 1]; } else { assert s[i + 1] == RangeSeparator[0]; }
      }
      if i + 3 <= |s| { assert s[i..i + 3][1] == s[i + 1]; }
    }
  }

  lemma DashFreeHasNoSeparator(s: string)
    requires '-' !in s
    ensures forall i :: 0 <= i ==> !OccursAt(s, RangeSeparator, i)
  {
    forall i: nat ensures !OccursAt(s, RangeSeparator, i) {
      if i + 3 <= |s| { assert s[i..i + 3][1] == s[i + 1] != '-'; }
    }
  }

  lemma FormatClockDashFree(hour: nat, minute: nat, pm: bool)
    requires 1 <= hour <= 12 && minute < 60
    ensures '-' !in FormatClock(hour, minute, pm)
  {
    var s := FormatClock(hour, minute, pm);
    forall i | 0 <= i < |s| ensures s[i] != '-' {
      if i < 2 { assert s[i] == Pad2(hour)[i]; }
      else if 2 < i < 5 { assert s[i] == Pad2(minute)[i - 3]; }
    }
  }

  /** A range of two twelve-hour clocks splits at its " - " and parses both ends. */
  lemma {:induction false} ParseWrittenRange(sh: nat, sm: nat, spm: bool, eh: nat, em: nat, epm: bool)
    requires 1 <= sh <= 12 && sm < 60 && 1 <= eh <= 12 && em < 60
    ensures RangeBounds(FormatRange(FormatClock(sh, sm, spm), FormatClock(eh, em, epm)))
            == Normal((ParseTime(FormatClock(sh, sm, spm)), ParseTime(FormatClock(eh, em, epm))))
  {
    var a, b := FormatClock(sh, sm, spm), FormatClock(eh, em, epm);
    FormatClockDashFree(sh, sm, spm);
    FormatClockDashFree(eh, em, epm);
    RangeSeparatorAfterDashFree(a, b);
    SplitFirstCut(a, RangeSeparator, b);
    DashFreeHasNoSeparator(b);
    SplitWithoutSeparator(b, RangeSeparator);
  }

  /** Both ends of a written range parse to the minutes they stand for. */
  lemma ParseFormattedRange(sh: nat, sm: nat, spm: bool, eh: nat, em: nat, epm: bool)
    requires 1 <= sh <= 12 && sm < 60 && 1 <= eh <= 12 && em < 60
    ensures RangeBounds(FormatRange(FormatClock(sh, sm, spm), FormatClock(eh, em, epm)))
            == Normal((Some(ClockMinute(sh, sm, spm)), Some(ClockMinute(eh, em, epm))))
  {
    ParseWrittenRange(sh, sm, spm, eh, em, epm);
    ParseFormattedClock(sh, sm, spm);
    ParseFormattedClock(eh, em, epm);
  }
}
