/**
 * The upcoming-deadlines card: a list of three deadlines, each with the time
 * left until it is due, a colour that follows its authored urgency, and a
 * click that reports its subject code. Instants are milliseconds since the
 * epoch.
 */
module DeadlineCard {
  import opened JsRuntime
  import opened Types

  /** The card's list: the given deadline, then two copies with every field overridden. */
  function DeadlineList(d: Deadline, now: int): (ds: seq<Deadline>)
    ensures |ds| == 3 && ds[0] == d
    ensures ds[1] == Deadline("d2", "Database Project", "CS-305", now + 2 * DayMs, Medium)
    ensures ds[2] == Deadline("d3", "Calculus Quiz", "MATH-102", now + 5 * DayMs, Low)
  {
    [ d,
      d.(id := "d2", title := "Database Project", subject := "CS-305", dueDate := now + 2 * DayMs, urgency := Medium),
      d.(id := "d3", title := "Calculus Quiz", subject := "MATH-102", dueDate := now + 5 * DayMs, urgency := Low) ]
  }

  /** The label of getTimeRemaining before it is rendered. */
  datatype Remaining = Days(days: nat) | Hrs(hours: int)

  /**
   * hours = Math.floor(diff / 3600000); whole days (hours div 24) once hours
   * exceeds 24, otherwise the hour count, which is negative once the deadline
   * has passed.
   */
  function TimeRemaining(dueDate: int, now: int): (r: Remaining)
    ensures r.Days? <==> dueDate - now >= 25 * HourMs
    ensures r.Days? ==> r.days >= 1 && r.days * DayMs <= dueDate - now < (r.days + 1) * DayMs
    ensures r.Hrs? ==> r.hours <= 24 && r.hours * HourMs <= dueDate - now < (r.hours + 1) * HourMs
  {
    var hours := FloorDiv(dueDate - now, HourMs);
    if hours > 24 then Days(hours / 24) else Hrs(hours)
  }

  function RemainingText(r: Remaining): string
  {
    match r
    case Days(n) => NatToString(n) + " days"
    case Hrs(h) => IntToString(h) + " hrs"
  }

  /** The threshold is strict: a day exactly reads "24 hrs"; 47 hours is "1 days"; 48 hours "2 days". */
  lemma Boundaries(now: int)
    ensures TimeRemaining(now + 24 * HourMs, now) == Hrs(24)
    ensures TimeRemaining(now + 47 * HourMs, now) == Days(1)
    ensures TimeRemaining(now + 48 * HourMs, now) == Days(2)
    ensures RemainingText(Hrs(24)) == "24 hrs" && RemainingText(Days(1)) == "1 days"
  {
    assert NatToString(24) == "24";
  }

  /** A deadline already past always reads as a negative number of hours. */
  lemma PastDue(dueDate: int, now: int)
    requires dueDate < now
    ensures TimeRemaining(dueDate, now).Hrs? && TimeRemaining(dueDate, now).hours < 0
  {
  }

  /** The colours of a row. */
  datatype Tone = Red | Orange | Blue | Gray

  /** The icon tile: red for high, orange for medium, blue otherwise. */
  function IconTone(u: Urgency): Tone
  {
    match u
    case High => Red
    case Medium => Orange
    case Low => Blue
  }

  /** The time badge: red for high, grey otherwise. */
  function BadgeTone(u: Urgency): Tone
  {
    if u == High then Red else Gray
  }

  /** One rendered row: its colours, its time label and the subject code its click reports. */
  datatype Row = Row(title: string, subject: string, icon: Tone, badge: Tone, timeLeft: string, reports: string)

  function RenderRows(ds: seq<Deadline>, now: int): (rows: seq<Row>)
    ensures |rows| == |ds|
    ensures forall i :: 0 <= i < |ds| ==>
              rows[i].reports == ds[i].subject
              && rows[i].icon == IconTone(ds[i].urgency) && rows[i].badge == BadgeTone(ds[i].urgency)
              && rows[i].timeLeft == RemainingText(TimeRemaining(ds[i].dueDate, now))
  {
    if |ds| == 0 then []
    else
      [Row(ds[0].title, ds[0].subject, IconTone(ds[0].urgency), BadgeTone(ds[0].urgency),
           RemainingText(TimeRemaining(ds[0].dueDate, now)), ds[0].subject)]
      + RenderRows(ds[1..], now)
  }

  /**
   * The colours come from the urgency alone: two deadlines of the same
   * urgency are coloured alike however far apart they are due, and an
   * overdue "low" deadline stays blue.
   */
  lemma ToneIgnoresTime(ds: seq<Deadline>, now: int, i: nat, j: nat)
    requires i < |ds| && j < |ds| && ds[i].urgency == ds[j].urgency
    ensures RenderRows(ds, now)[i].icon == RenderRows(ds, now)[j].icon
    ensures RenderRows(ds, now)[i].badge == RenderRows(ds, now)[j].badge
  {
  }

  /** On the card built from any deadline the second and third rows report CS-305 and MATH-102. */
  lemma ClickReportsSubject(d: Deadline, now: int)
    ensures RenderRows(DeadlineList(d, now), now)[0].reports == d.subject
    ensures RenderRows(DeadlineList(d, now), now)[1].reports == "CS-305"
    ensures RenderRows(DeadlineList(d, now), now)[2].reports == "MATH-102"
  {
  }
}
