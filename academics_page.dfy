/**
 * The academics page: the assessment list with its filter, overdue flag,
 * days-left label and submit lock, and the exam-eligibility panel. The
 * assessment due dates are milliseconds since the epoch; `now` is the instant
 * the list is rendered.
 */
module AcademicsPage {
  import opened JsRuntime
  import opened Types

  /** The authored status of an assessment: "PENDING", "OVERDUE" or "GRADED". */
  datatype TaskStatus = Pending | Overdue | Graded

  datatype Assessment = Assessment(
    id: string,
    subjectCode: string,
    kind: string,
    title: string,
    dueDate: int,
    status: TaskStatus,
    submitted: bool,
    marks: Option<nat>,
    totalMarks: nat,
    attachmentUrl: string)

  // ---------------------------------------------------------------------
  // The filter

  /** The filter's callback: "All" and any unknown filter keep every task. */
  predicate Keeps(filter: string, task: Assessment)
  {
    if filter == "All" then true
    else if filter == "Pending" then !task.submitted
    else if filter == "Submitted" then task.submitted
    else if filter == "Graded" then task.status == Graded
    else true
  }

  /** `assessments.filter(...)`. */
  function FilterTasks(filter: string, tasks: seq<Assessment>): (r: seq<Assessment>)
    ensures |r| <= |tasks|
    ensures forall t :: t in r <==> t in tasks && Keeps(filter, t)
  {
    if |tasks| == 0 then []
    else (if Keeps(filter, tasks[0]) then [tasks[0]] else []) + FilterTasks(filter, tasks[1..])
  }

  /** What each filter keeps, in the terms of the task's fields. */
  lemma FilterMeaning(tasks: seq<Assessment>, t: Assessment)
    ensures t in FilterTasks("Pending", tasks) <==> t in tasks && !t.submitted
    ensures t in FilterTasks("Submitted", tasks) <==> t in tasks && t.submitted
    ensures t in FilterTasks("Graded", tasks) <==> t in tasks && t.status == Graded
  {
  }

  /** A filter that keeps every task of a list returns that list; one that keeps none returns []. */
  lemma {:induction false} FilterKeepsEvery(filter: string, tasks: seq<Assessment>)
    ensures (forall i :: 0 <= i < |tasks| ==> Keeps(filter, tasks[i])) ==> FilterTasks(filter, tasks) == tasks
    ensures (forall i :: 0 <= i < |tasks| ==> !Keeps(filter, tasks[i])) ==> FilterTasks(filter, tasks) == []
  {
    if |tasks| > 0 {
      FilterKeepsEvery(filter, tasks[1..]);
      assert [tasks[0]] + tasks[1..] == tasks;
    }
  }

  /** "All" and any filter name outside the menu show the whole list. */
  lemma FilterKeepsAll(filter: string, tasks: seq<Assessment>)
    requires filter !in {"Pending", "Submitted", "Graded"}
    ensures FilterTasks(filter, tasks) == tasks
  {
    FilterKeepsEvery(filter, tasks);
  }

  /** Filtering a concatenation filters each part, in order. */
  lemma {:induction false} FilterConcat(filter: string, a: seq<Assessment>, b: seq<Assessment>)
    ensures FilterTasks(filter, a + b) == FilterTasks(filter, a) + FilterTasks(filter, b)
  {
    if |a| > 0 {
      var head := if Keeps(filter, a[0]) then [a[0]] else [];
      assert (a + b)[0] == a[0];
      assert (a + b)[1..] == a[1..] + b;
      assert FilterTasks(filter, a + b) == head + FilterTasks(filter, a[1..] + b);
      assert FilterTasks(filter, a) == head + FilterTasks(filter, a[1..]);
      FilterConcat(filter, a[1..], b);
    } else {
      assert a + b == b;
    }
  }

  /** The filtered list keeps the tasks in their order. */
  lemma {:induction false} FilterIsSublist(filter: string, tasks: seq<Assessment>)
    ensures IsSublist(FilterTasks(filter, tasks), tasks)
  {
    if |tasks| > 0 {
      var rest := FilterTasks(filter, tasks[1..]);
      FilterIsSublist(filter, tasks[1..]);
      if Keeps(filter, tasks[0]) {
        assert FilterTasks(filter, tasks) == [tasks[0]] + rest;
        assert ([tasks[0]] + rest)[1..] == rest;
      } else {
        assert FilterTasks(filter, tasks) == rest;
      }
    }
  }

  /** Two filters that disagree on every task split any list between them. */
  lemma {:induction false} ComplementaryFilters(f: string, g: string, tasks: seq<Assessment>)
    requires forall t :: Keeps(f, t) != Keeps(g, t)
    ensures multiset(FilterTasks(f, tasks)) + multiset(FilterTasks(g, tasks)) == multiset(tasks)
  {
    if |tasks| > 0 {
      var t, rest := tasks[0], tasks[1..];
      var kept, dropped := FilterTasks(f, rest), FilterTasks(g, rest);
      ComplementaryFilters(f, g, rest);
      assert multiset(tasks) == multiset{t} + multiset(rest) by {
        assert tasks == [t] + rest;
      }
      if Keeps(f, t) {
        assert FilterTasks(f, tasks) == [t] + kept;
        assert FilterTasks(g, tasks) == dropped;
      } else {
        assert FilterTasks(f, tasks) == kept;
        assert FilterTasks(g, tasks) == [t] + dropped;
      }
    }
  }

  /** Every task is in exactly one of the Pending and Submitted lists. */
  lemma PendingSubmittedPartition(tasks: seq<Assessment>)
    ensures multiset(FilterTasks("Pending", tasks)) + multiset(FilterTasks("Submitted", tasks)) == multiset(tasks)
  {
    forall t ensures Keeps("Pending", t) != Keeps("Submitted", t) {
      assert Keeps("Pending", t) == !t.submitted;
    }
    ComplementaryFilters("Pending", "Submitted", tasks);
  }

  // ---------------------------------------------------------------------
  // Overdue flag, days left and the due label

  /** isOverdue: past the due instant and not submitted. */
  predicate IsOverdue(task: Assessment, now: int)
  {
    now > task.dueDate && !task.submitted
  }

  /** daysLeft: Math.ceil((due - now) / 86400000). */
  function DaysLeft(task: Assessment, now: int): (d: int)
    ensures (d - 1) * DayMs < task.dueDate - now <= d * DayMs
  {
    CeilDiv(task.dueDate - now, DayMs)
  }

  /** The bracketed part of the due line, before it is rendered. */
  datatype DueNote = SubmittedNote | DaysAgo(n: nat) | DaysToGo(n: nat)

  /**
   * "Submitted" for a submitted task, else "{|d|} days ago" when daysLeft is
   * negative, else "{d} days left". A due instant less than a day in the past
   * gives Math.ceil of a small negative number, -0, which is not below 0 and
   * renders as "0": "0 days left".
   */
  function DueNoteOf(task: Assessment, now: int): (note: DueNote)
    ensures note == SubmittedNote <==> task.submitted
    ensures note.DaysAgo? ==> now - task.dueDate >= DayMs && note.n >= 1
    ensures note.DaysAgo? ==> note.n == -DaysLeft(task, now)
    ensures note.DaysToGo? ==> note.n == DaysLeft(task, now)
    ensures note.DaysToGo? && note.n == 0 ==> now - DayMs < task.dueDate <= now
    ensures note.DaysToGo? && note.n > 0 ==> task.dueDate > now
  {
    if task.submitted then SubmittedNote
    else
      var d := DaysLeft(task, now);
      if d < 0 then DaysAgo(-d) else DaysToGo(d)
  }

  /** The due line; `dateText` stands for the due date's toLocaleDateString. */
  function DueText(note: DueNote, dateText: string): string
  {
    match note
    case SubmittedNote => "Submitted"
    case DaysAgo(n) => "Due: " + dateText + " (" + NatToString(n) + " days ago)"
    case DaysToGo(n) => "Due: " + dateText + " (" + NatToString(n) + " days left)"
  }

  /**
   * The label and the flag agree except in the last day: "days ago" always
   * means overdue, and an overdue task reads "days ago" or, within a day of
   * its due instant, "0 days left".
   */
  lemma DueNoteAgreesWithOverdue(task: Assessment, now: int)
    ensures DueNoteOf(task, now).DaysAgo? ==> IsOverdue(task, now)
    ensures IsOverdue(task, now) ==>
              DueNoteOf(task, now).DaysAgo? || DueNoteOf(task, now) == DaysToGo(0)
    ensures IsOverdue(task, now) && DueNoteOf(task, now) == DaysToGo(0) ==> now - task.dueDate < DayMs
  {
  }

  /** A submitted task is never overdue, and an unsubmitted one is overdue from just after its due instant. */
  lemma OverdueIff(task: Assessment, now: int)
    ensures task.submitted ==> !IsOverdue(task, now)
    ensures !task.submitted ==> (IsOverdue(task, now) <==> now > task.dueDate)
  {
  }

  /** What the task's row offers on the right: the score, or the open and submit buttons. */
  datatype TaskActions = Score(marks: Option<nat>, totalMarks: nat) | Buttons(submitDisabled: bool)

  function ActionsOf(task: Assessment, now: int): (a: TaskActions)
    ensures a.Score? <==> task.status == Graded
    ensures a.Score? ==> a.marks == task.marks && a.totalMarks == task.totalMarks
    ensures a.Buttons? ==> (a.submitDisabled <==> IsOverdue(task, now))
  {
    if task.status == Graded then Score(task.marks, task.totalMarks)
    else Buttons(IsOverdue(task, now))
  }

  // ---------------------------------------------------------------------
  // Exam eligibility

  /** isEligibleForExam: overall attendance of at least 75%. */
  predicate IsEligible(attendance: int)
  {
    attendance >= 75
  }

  /** The hall-ticket panel: eligibility, the bar width, the message and the button's lock. */
  datatype EligibilityPanel = EligibilityPanel(eligible: bool, barWidth: int, message: string, buttonDisabled: bool)

  function Eligibility(attendance: int): (p: EligibilityPanel)
    ensures p.eligible <==> IsEligible(attendance)
    ensures p.buttonDisabled <==> !p.eligible
    ensures p.barWidth <= 100 && (attendance <= 100 ==> p.barWidth == attendance)
    ensures !p.eligible ==>
              p.message == "Requires 75% attendance. You are lagging by " + NatToString(75 - attendance) + "%."
  {
    var eligible := IsEligible(attendance);
    EligibilityPanel(
      eligible,
      if attendance < 100 then attendance else 100,
      if eligible then "You are eligible to download your hall ticket."
      else "Requires 75% attendance. You are lagging by " + NatToString(75 - attendance) + "%.",
      !eligible)
  }

  /** The shortfall shown is positive exactly when the student is not eligible. */
  lemma ShortfallIff(attendance: int)
    ensures !Eligibility(attendance).eligible <==> 75 - attendance > 0
  {
  }

  // ---------------------------------------------------------------------
  // The fixture

  const FixtureAttendance: int := 68

  /** The five assessments, with due dates relative to `loaded`, the instant the data was created. */
  function Assessments(loaded: int): seq<Assessment>
  {
    [ Assessment("ASKP-001", "CS-201", "Assignment", "Data Structures Assignment", loaded + 3 * DayMs,
        Pending, false, None, 20, "/assignments/cs201_ds_impl.pdf"),
      Assessment("ASKP-002", "CS-305", "Lab Report", "Database Project", loaded + 2 * DayMs,
        Pending, false, None, 50, "/assignments/cs305_db.pdf"),
      Assessment("ASKP-003", "MATH-102", "Quiz", "Calculus Quiz", loaded + 5 * DayMs,
        Pending, false, None, 20, "/quizzes/math102_calc"),
      Assessment("ASKP-004", "CS-305", "Lab Report", "Software Requirements Spec", loaded - 2 * DayMs,
        Overdue, false, None, 10, "/assignments/cs305_srs.pdf"),
      Assessment("ASKP-005", "MATH-102", "Quiz", "Linear Algebra Basic Concepts", loaded - 5 * DayMs,
        Graded, true, Some(18), 20, "/quizzes/math102_basics") ]
  }

  /** With 68% attendance the hall ticket is locked and the shortfall is 7. */
  lemma FixtureEligibility()
    ensures !Eligibility(FixtureAttendance).eligible && Eligibility(FixtureAttendance).buttonDisabled
    ensures Eligibility(FixtureAttendance).barWidth == 68
    ensures Eligibility(FixtureAttendance).message == "Requires 75% attendance. You are lagging by 7%."
  {
    assert NatToString(7) == "7";
  }

  /**
   * Rendered when the data is created, the four unsubmitted tasks are due in
   * 3, 2 and 5 days and 2 days ago; only the one authored "OVERDUE" is overdue
   * and has its submit button locked, and the graded one shows its score.
   */
  lemma FixtureLabels(now: int)
    ensures var ts := Assessments(now);
      && DueNoteOf(ts[0], now) == DaysToGo(3) && DueNoteOf(ts[1], now) == DaysToGo(2)
      && DueNoteOf(ts[2], now) == DaysToGo(5) && DueNoteOf(ts[3], now) == DaysAgo(2)
      && DueNoteOf(ts[4], now) == SubmittedNote
      && (forall i :: 0 <= i < 5 ==> (IsOverdue(ts[i], now) <==> ts[i].status == Overdue))
      && ActionsOf(ts[3], now) == Buttons(true) && ActionsOf(ts[0], now) == Buttons(false)
      && ActionsOf(ts[4], now) == Score(Some(18), 20)
  {
    var ts := Assessments(now);
    assert DaysLeft(ts[0], now) == 3;
    assert DaysLeft(ts[1], now) == 2;
    assert DaysLeft(ts[2], now) == 5;
    assert DaysLeft(ts[3], now) == -2;
  }

  /** The Pending filter shows the first four tasks, in order. */
  lemma FixturePendingFilter(now: int)
    ensures FilterTasks("Pending", Assessments(now)) == Assessments(now)[..4]
  {
    var ts := Assessments(now);
    assert ts == ts[..4] + ts[4..];
    FilterConcat("Pending", ts[..4], ts[4..]);
    FilterKeepsEvery("Pending", ts[..4]);
    FilterKeepsEvery("Pending", ts[4..]);
  }
}
