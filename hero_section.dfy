/**
 * The hero card of the dashboard: the status of each class on today's
 * timetable, the progress bar and countdown of the class in session, and the
 * check-in toggle. Instants are milliseconds past local midnight of today.
 */
module HeroSection {
  import opened JsRuntime
  import opened Types
  import opened ClassTime

  /**
   * getClassStatus(range) at `now`: "completed" once now is past the end,
   * otherwise "upcoming" before the start, otherwise "ongoing". A comparison
   * with an Invalid Date is false, so an unparseable bound never decides.
   */
  function ClassStatus(range: string, now: int): (r: Completion<SessionStatus>)
    ensures r.Throw? <==> RangeBounds(range).Throw?
  {
    match RangeBounds(range)
    case Throw => Throw
    case Normal((start, end)) =>
      if end.Some? && now > AtMs(end.value) then Normal(Completed)
      else if start.Some? && now < AtMs(start.value) then Normal(Upcoming)
      else Normal(Ongoing)
  }

  /** For a well-formed range, a class is ongoing from its start to its end, both instants included. */
  lemma StatusOfParsedRange(range: string, now: int)
    requires RangeBounds(range).Normal?
    requires var (start, end) := RangeBounds(range).value;
             start.Some? && end.Some? && start.value <= end.value
    ensures var (start, end) := RangeBounds(range).value;
            var s, e := AtMs(start.value), AtMs(end.value);
            && (ClassStatus(range, now) == Normal(Ongoing) <==> s <= now <= e)
            && (ClassStatus(range, now) == Normal(Completed) <==> now > e)
            && (ClassStatus(range, now) == Normal(Upcoming) <==> now < s)
  {
  }

  /** A range whose bounds both fail to parse reads as "ongoing" at every instant. */
  lemma StatusOfUnparsedRange(range: string, now: int)
    requires RangeBounds(range).Normal?
    requires RangeBounds(range).value.0.None? && RangeBounds(range).value.1.None?
    ensures ClassStatus(range, now) == Normal(Ongoing)
  {
  }

  /** At 11:45 the 11:00 AM - 12:30 PM class is ongoing. */
  lemma OngoingAtElevenFortyFive(range: string)
    requires range == FormatRange(FormatClock(11, 0, false), FormatClock(12, 30, true))
    ensures ClassStatus(range, 705 * MinuteMs) == Normal(Ongoing)
  {
    MorningLateBounds(range);
  }

  /** At 11:45 the 09:00 AM - 10:30 AM class is completed. */
  lemma CompletedAtElevenFortyFive(range: string)
    requires range == FormatRange(FormatClock(9, 0, false), FormatClock(10, 30, false))
    ensures ClassStatus(range, 705 * MinuteMs) == Normal(Completed)
  {
    ParseFormattedRange(9, 0, false, 10, 30, false);
    assert To24Hour(9, Some("AM")) == 9 && To24Hour(10, Some("AM")) == 10;
    assert RangeBounds(range) == Normal((Some(540), Some(630)));
  }

  /** At 11:45 the 02:00 PM - 03:30 PM class is upcoming. */
  lemma UpcomingAtElevenFortyFive(range: string)
    requires range == FormatRange(FormatClock(2, 0, true), FormatClock(3, 30, true))
    ensures ClassStatus(range, 705 * MinuteMs) == Normal(Upcoming)
  {
    ParseFormattedRange(2, 0, true, 3, 30, true);
    assert To24Hour(2, Some("PM")) == 14 && To24Hour(3, Some("PM")) == 15;
    assert RangeBounds(range) == Normal((Some(840), Some(930)));
  }

  /** "11:00 AM - 12:30 PM" spans the minutes 660 to 750 of the day. */
  lemma MorningLateBounds(range: string)
    requires range == FormatRange(FormatClock(11, 0, false), FormatClock(12, 30, true))
    ensures RangeBounds(range) == Normal((Some(660), Some(750)))
  {
    ParseFormattedRange(11, 0, false, 12, 30, true);
    assert To24Hour(11, Some("AM")) == 11 && To24Hour(12, Some("PM")) == 12;
  }

  // ---------------------------------------------------------------------
  // Progress bar and countdown of the class in session

  /** A JavaScript number as far as the progress bar is concerned: a finite value or NaN. */
  datatype Num = Finite(r: real) | NaN

  /** Math.min(100, Math.max(0, p)). */
  function Clamp(p: real): (c: real)
    ensures 0.0 <= c <= 100.0
    ensures 0.0 <= p <= 100.0 ==> c == p
  {
    if p < 0.0 then 0.0 else if p > 100.0 then 100.0 else p
  }

  /**
   * (elapsed / totalDuration) * 100, clamped to [0, 100]. A zero duration
   * divides to +Infinity, -Infinity or NaN by the sign of elapsed; an Invalid
   * Date bound makes both NaN.
   */
  function Progress(start: Option<nat>, end: Option<nat>, now: int): (p: Num)
    ensures p.Finite? ==> 0.0 <= p.r <= 100.0
    ensures p.NaN? <==> start.None? || end.None? || (start == end && now == AtMs(start.value))
    ensures start.Some? && end.Some? && start.value < end.value ==>
              var s, e := AtMs(start.value), AtMs(end.value);
              && (now <= s ==> p == Finite(0.0))
              && (now >= e ==> p == Finite(100.0))
              && (s <= now <= e ==> p.r * (e - s) as real == 100.0 * (now - s) as real)
  {
    if start.None? || end.None? then NaN
    else
      var total := AtMs(end.value) - AtMs(start.value);
      var elapsed := now - AtMs(start.value);
      if total == 0 then
        (if elapsed > 0 then Finite(100.0) else if elapsed < 0 then Finite(0.0) else NaN)
      else
        RatioBounds(elapsed, total);
        Finite(Clamp(100.0 * elapsed as real / total as real))
  }

  /**
   * The clamped percentage of a positive duration: 0 up to the start, 100
   * from the end, and exactly proportional in between.
   */
  lemma RatioBounds(elapsed: int, total: int)
    requires total != 0
    ensures var c := Clamp(100.0 * elapsed as real / total as real);
            total > 0 ==>
              && (elapsed <= 0 ==> c == 0.0)
              && (elapsed >= total ==> c == 100.0)
              && (0 <= elapsed <= total ==> c * total as real == 100.0 * elapsed as real)
  {
    var t, x := total as real, elapsed as real;
    var q := 100.0 * x / t;
    assert q * t == 100.0 * x;
    if total > 0 {
      ScaleSign(q, t);
    }
  }

  /** Multiplying by a positive t keeps the sign of q and its order against 100. */
  lemma ScaleSign(q: real, t: real)
    requires t > 0.0
    ensures q * t <= 0.0 ==> q <= 0.0
    ensures q * t >= 0.0 ==> q >= 0.0
    ensures q * t <= 100.0 * t ==> q <= 100.0
    ensures q * t >= 100.0 * t ==> q >= 100.0
  {
    if q > 0.0 {
      assert q * t > 0.0;
    }
    if q < 0.0 {
      assert q * t < 0.0;
    }
    if q > 100.0 {
      assert (q - 100.0) * t > 0.0;
    }
    if q < 100.0 {
      assert (100.0 - q) * t > 0.0;
    }
  }

  /** The countdown label, before it is rendered as text. */
  datatype Countdown = HoursLeft(hrs: nat, mins: nat) | MinutesLeft(minutes: nat) | ClassEnded

  /**
   * The remaining time rounded UP to whole minutes: "{h}h {m}m left" from an
   * hour on, "{m}m left" below, "Class ended" once nothing remains (or the end
   * is an Invalid Date).
   */
  function CountdownOf(end: Option<nat>, now: int): (c: Countdown)
    ensures c == ClassEnded <==> end.None? || AtMs(end.value) - now <= 0
    ensures c.MinutesLeft? ==>
              1 <= c.minutes < 60
              && (c.minutes - 1) * MinuteMs < AtMs(end.value) - now <= c.minutes * MinuteMs
    ensures c.HoursLeft? ==>
              c.hrs >= 1 && c.mins < 60
              && var m := 60 * c.hrs + c.mins;
                 (m - 1) * MinuteMs < AtMs(end.value) - now <= m * MinuteMs
  {
    if end.None? then ClassEnded
    else
      var remaining := AtMs(end.value) - now;
      if remaining > 0 then
        var minutes := CeilDiv(remaining, MinuteMs);
        if minutes >= 60 then HoursLeft(minutes / 60, minutes % 60)
        else MinutesLeft(minutes)
      else ClassEnded
  }

  function CountdownText(c: Countdown): string
  {
    match c
    case HoursLeft(h, m) => NatToString(h) + "h " + NatToString(m) + "m left"
    case MinutesLeft(m) => NatToString(m) + "m left"
    case ClassEnded => "Class ended"
  }

  /**
   * One run of updateProgress for a class whose time is `range`: the new
   * progress and countdown text. When the range has no " - ", parseTime
   * throws and the handler falls back to progress 0 and an empty label.
   */
  function Tick(range: string, now: int): (r: (Num, string))
    ensures RangeBounds(range).Throw? ==> r == (Finite(0.0), "")
    ensures r.0.Finite? ==> 0.0 <= r.0.r <= 100.0
  {
    match RangeBounds(range)
    case Throw => (Finite(0.0), "")
    case Normal((start, end)) => (Progress(start, end, now), CountdownText(CountdownOf(end, now)))
  }

  /** At 11:45 the 11:00 AM - 12:30 PM class is half way through with 45 minutes left. */
  lemma TickAtElevenFortyFive(range: string)
    requires range == FormatRange(FormatClock(11, 0, false), FormatClock(12, 30, true))
    ensures Tick(range, 705 * MinuteMs) == (Finite(50.0), "45m left")
  {
    MorningLateBounds(range);
    HalfwayProgress();
    FortyFiveMinutesLeft();
  }

  lemma HalfwayProgress()
    ensures Progress(Some(660), Some(750), 705 * MinuteMs) == Finite(50.0)
  {
    assert AtMs(660) == 39600000 && AtMs(750) == 45000000;
    RatioBounds(2700000, 5400000);
    assert 100.0 * (2700000 as real) / (5400000 as real) == 50.0;
  }

  lemma FortyFiveMinutesLeft()
    ensures CountdownText(CountdownOf(Some(750), 705 * MinuteMs)) == "45m left"
  {
    assert CountdownOf(Some(750), 705 * MinuteMs) == MinutesLeft(45);
    assert NatToString(45) == "45";
  }

  /** 59 minutes 30 seconds before the end the label already reads "1h 0m left". */
  lemma CountdownRoundsUp(end: nat)
    requires AtMs(end) >= 3570000
    ensures CountdownText(CountdownOf(Some(end), AtMs(end) - 3570000)) == "1h 0m left"
  {
    assert CountdownOf(Some(end), AtMs(end) - 3570000) == HoursLeft(1, 0);
  }

  /** The hero card's state: check-in flag, progress bar and countdown label. */
  class HeroPanel {
    var isCheckedIn: bool
    var progress: Num
    var timeRemaining: string

    constructor ()
      ensures !isCheckedIn && progress == Finite(0.0) && timeRemaining == ""
    {
      isCheckedIn := false;
      progress := Finite(0.0);
      timeRemaining := "";
    }

    /** The effect run when the current class changes: the flag follows the class's attendance mark. */
    method OnClassChange(currentClass: Option<ClassSession>)
      modifies this`isCheckedIn
      ensures currentClass.Some? ==> isCheckedIn == currentClass.value.attendanceMarked
      ensures currentClass.None? ==> isCheckedIn == old(isCheckedIn)
    {
      if currentClass.Some? {
        isCheckedIn := currentClass.value.attendanceMarked;
      }
    }

    /** handleCheckIn flips the flag. */
    method HandleCheckIn()
      modifies this`isCheckedIn
      ensures isCheckedIn == !old(isCheckedIn)
    {
      isCheckedIn := !isCheckedIn;
    }

    /** updateProgress: nothing happens without a current class. */
    method UpdateProgress(currentClass: Option<ClassSession>, now: int)
      modifies this`progress, this`timeRemaining
      ensures currentClass.None? ==> progress == old(progress) && timeRemaining == old(timeRemaining)
      ensures currentClass.Some? ==> (progress, timeRemaining) == Tick(currentClass.value.time, now)
      ensures progress.Finite? ==> 0.0 <= progress.r <= 100.0 || progress == old(progress)
    {
      if currentClass.Some? {
        var next := Tick(currentClass.value.time, now);
        progress := next.0;
        timeRemaining := next.1;
      }
    }
  }
}
