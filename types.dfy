/** The records the portal passes between its views, and the time units it computes with. */
module Types {
  import opened JsRuntime

  const SecondMs: int := 1000
  const MinuteMs: int := 60 * SecondMs
  const HourMs: int := 60 * MinuteMs
  const DayMs: int := 24 * HourMs

  /** The three phases of a class session, as authored and as re-derived from the clock. */
  datatype SessionStatus = Upcoming | Ongoing | Completed

  /** One class on today's timetable; `time` is a range such as "11:00 AM - 12:30 PM". */
  datatype ClassSession = ClassSession(
    id: string,
    subject: string,
    code: string,
    time: string,
    room: string,
    professor: string,
    status: SessionStatus,
    attendanceMarked: bool)

  /** A notice on the board; `date` is its publication instant in milliseconds since the epoch. */
  datatype Notice = Notice(
    id: string,
    title: string,
    description: string,
    date: int,
    isNew: bool,
    hasAttachment: Option<bool>)

  datatype Urgency = High | Medium | Low

  /** An upcoming deadline; the urgency is authored, not derived from the due instant. */
  datatype Deadline = Deadline(
    id: string,
    title: string,
    subject: string,
    dueDate: int,
    urgency: Urgency)

  /** A property value of a plain object: a string, null, or undefined for a key that is absent. */
  datatype Value = Text(s: string) | Null | Undefined

  /** A plain object (the user profile, the profile form), from property names to values. */
  type Record = map<string, Value>

  /** `obj[key]`: undefined when the key is absent. */
  function Get(obj: Record, key: string): (v: Value)
    ensures v.Undefined? <==> key !in obj || obj[key].Undefined?
  {
    if key in obj then obj[key] else Undefined
  }
}
