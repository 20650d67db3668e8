/** The fixture data of the portal: the signed-in student, today's timetable and the upcoming deadlines. */
module Constants {
  import opened JsRuntime
  import opened Types
  import opened ClassTime

  /** CURRENT_USER as a plain object. */
  const CurrentUser: Record := map[
    "name" := Text("Alex"),
    "studentId" := Text("2024277634"),
    "avatarUrl" := Text("https://images.unsplash.com/photo-1599566150163-29194dcaad36?ixlib=rb-1.2.1&auto=format&fit=crop&w=256&q=80"),
    "program" := Text("B.Tech (CSE) with Specialization in Artificial Intelligence & Machine Learning"),
    "email" := Text("xyz.alex@niu.edu.in"),
    "department" := Text("Computer Science and Engineering"),
    "school" := Text("SET"),
    "planCode" := Text("0000100026"),
    "academicYear" := Text("2025-26-Sem II"),
    "term" := Text("2502"),
    "semester" := Text("S4"),
    "programStatus" := Text("MATR"),
    "effectiveDate" := Text("09-AUG-24"),
    "phoneNumber" := Text("9898292921")
  ]

  /**
   * TODAY_CLASSES. The ranges are written with FormatRange and FormatClock;
   * TimetableText shows they are the strings "09:00 AM - 10:30 AM",
   * "11:00 AM - 12:30 PM" and "02:00 PM - 03:30 PM".
   */
  const TodayClasses: seq<ClassSession> := [
    ClassSession("1", "Data Structures", "CS-201",
      FormatRange(FormatClock(9, 0, false), FormatClock(10, 30, false)),
      "Lab 304", "Dr. Smith", Completed, true),
    ClassSession("2", "Linear Algebra", "MATH-102",
      FormatRange(FormatClock(11, 0, false), FormatClock(12, 30, true)),
      "Hall B", "Prof. Johnson", Ongoing, false),
    ClassSession("3", "Software Eng.", "CS-305",
      FormatRange(FormatClock(2, 0, true), FormatClock(3, 30, true)),
      "Room 101", "Dr. Lee", Upcoming, false)
  ]

  lemma TimetableText()
    ensures FormatClock(9, 0, false) == "09:00 AM" && FormatClock(10, 30, false) == "10:30 AM"
    ensures FormatClock(11, 0, false) == "11:00 AM" && FormatClock(12, 30, true) == "12:30 PM"
    ensures FormatClock(2, 0, true) == "02:00 PM" && FormatClock(3, 30, true) == "03:30 PM"
    ensures RangeSeparator == " - "
  {
  }

  /** UPCOMING_DEADLINES, due two hours and a day after `now` (milliseconds since the epoch). */
  function UpcomingDeadlines(now: int): seq<Deadline>
  {
    [ Deadline("d1", "Data Structures Assignment", "CS-201", now + 2 * HourMs, High),
      Deadline("d2", "Project Proposal", "CS-305", now + DayMs, Medium) ]
  }
}
