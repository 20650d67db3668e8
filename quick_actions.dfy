/**
 * The dashboard's six academic shortcuts, whose colour, description and
 * urgency follow the fees due, the pending assignments and the attendance
 * percentage.
 */
module QuickActions {
  import opened JsRuntime

  // ---------------------------------------------------------------------
  // toLocaleString('en-IN') on a whole number: the last three digits form a
  // group, the digits before them are grouped in pairs.

  predicate NoCommas(s: string)
  {
    forall i :: 0 <= i < |s| ==> s[i] != ','
  }

  /** The digits before the last three, in pairs from the right. */
  function GroupPairs(p: string): (r: string)
    decreases |p|
  {
    if |p| <= 2 then p else GroupPairs(p[..|p| - 2]) + "," + p[|p| - 2..]
  }

  function GroupIndian(digits: string): (r: string)
  {
    if |digits| <= 3 then digits
    else GroupPairs(digits[..|digits| - 3]) + "," + digits[|digits| - 3..]
  }

  function LocaleEnIn(n: nat): string
  {
    GroupIndian(NatToString(n))
  }

  /** Dropping the separators, the inverse of the grouping. */
  function StripCommas(s: string): (r: string)
    ensures |r| <= |s|
  {
    if |s| == 0 then ""
    else (if s[0] == ',' then "" else [s[0]]) + StripCommas(s[1..])
  }

  lemma {:induction false} StripCommasConcat(a: string, b: string)
    ensures StripCommas(a + b) == StripCommas(a) + StripCommas(b)
  {
    if |a| > 0 {
      assert (a + b)[1..] == a[1..] + b;
      StripCommasConcat(a[1..], b);
    } else {
      assert a + b == b;
    }
  }

  lemma {:induction false} StripCommasNone(s: string)
    requires NoCommas(s)
    ensures StripCommas(s) == s
  {
    if |s| > 0 {
      StripCommasNone(s[1..]);
      assert [s[0]] + s[1..] == s;
    }
  }

  /** Both sides of a cut of a comma-free string are comma-free. */
  lemma NoCommasCut(p: string, k: nat)
    requires NoCommas(p) && k <= |p|
    ensures NoCommas(p[..k]) && NoCommas(p[k..])
  {
    forall i | 0 <= i < |p[..k]| ensures p[..k][i] != ',' {
      assert p[..k][i] == p[i];
    }
    forall i | 0 <= i < |p[k..]| ensures p[k..][i] != ',' {
      assert p[k..][i] == p[k + i];
    }
  }

  /** StripCommas(a + "," + b) == StripCommas(a) + StripCommas(b). */
  lemma StripAroundComma(a: string, b: string)
    ensures StripCommas(a + "," + b) == StripCommas(a) + StripCommas(b)
  {
    StripCommasConcat(a + ",", b);
    StripCommasConcat(a, ",");
    assert StripCommas(",") == "" by {
      assert ","[1..] == "";
    }
    calc {
      StripCommas(a + "," + b);
      StripCommas(a + ",") + StripCommas(b);
      StripCommas(a) + StripCommas(",") + StripCommas(b);
    }
  }

  lemma {:induction false} StripGroupPairs(p: string)
    requires NoCommas(p)
    ensures StripCommas(GroupPairs(p)) == p
    decreases |p|
  {
    if |p| <= 2 {
      StripCommasNone(p);
    } else {
      var head, tail := p[..|p| - 2], p[|p| - 2..];
      assert GroupPairs(p) == GroupPairs(head) + "," + tail;
      NoCommasCut(p, |p| - 2);
      StripGroupPairs(head);
      StripCommasNone(tail);
      StripAroundComma(GroupPairs(head), tail);
      assert head + tail == p;
    }
  }

  /** Removing the separators gives back the digits, so the grouped text still reads as the number. */
  lemma GroupIndianRoundTrip(digits: string)
    requires AllDigits(digits)
    ensures StripCommas(GroupIndian(digits)) == digits
  {
    if |digits| > 3 {
      var head, tail := digits[..|digits| - 3], digits[|digits| - 3..];
      assert GroupIndian(digits) == GroupPairs(head) + "," + tail;
      DigitsHaveNoCommas(digits);
      NoCommasCut(digits, |digits| - 3);
      StripGroupPairs(head);
      StripCommasNone(tail);
      StripAroundComma(GroupPairs(head), tail);
      assert head + tail == digits;
    } else {
      DigitsHaveNoCommas(digits);
      StripCommasNone(digits);
    }
  }

  lemma DigitsHaveNoCommas(digits: string)
    requires AllDigits(digits)
    ensures NoCommas(digits)
  {
    forall i | 0 <= i < |digits| ensures digits[i] != ',' {
      assert IsDigit(digits[i]);
    }
  }

  lemma LocaleEnInReadsBack(n: nat)
    ensures ToNumber(StripCommas(LocaleEnIn(n))) == Some(n)
  {
    GroupIndianRoundTrip(NatToString(n));
    NumberOfNatToString(n);
  }

  /** 45000 is written "45,000" and 4500000 "45,00,000". */
  lemma LocaleEnInExamples()
    ensures LocaleEnIn(45000) == "45,000"
    ensures LocaleEnIn(4500000) == "45,00,000"
    ensures LocaleEnIn(750) == "750"
  {
    LocaleEnInThousands();
    LocaleEnInLakhs();
    assert NatToString(750) == "750";
  }

  lemma LocaleEnInThousands()
    ensures LocaleEnIn(45000) == "45,000"
  {
    assert NatToString(45000) == "45000";
    assert "45000"[..2] == "45" && "45000"[2..] == "000";
  }

  lemma LocaleEnInLakhs()
    ensures LocaleEnIn(4500000) == "45,00,000"
  {
    var digits := "4500000";
    assert NatToString(4500000) == digits;
    assert digits[..4] == "4500" && digits[4..] == "000";
    assert "4500"[..2] == "45" && "4500"[2..] == "00";
    assert GroupPairs("4500") == "45,00";
    assert GroupIndian(digits) == "45,00" + "," + "000";
  }

  // ---------------------------------------------------------------------
  // academicActions

  const DefaultFeesDue: nat := 45000
  const DefaultPendingAssignments: nat := 3
  const DefaultAttendancePercent: int := 85

  const Green: string := "bg-green-500"
  const Red: string := "bg-red-500"
  const Orange: string := "bg-orange-500"
  const AllPaid: string := "All Paid ✓"
  const AllDone: string := "All Done ✓"

  datatype Action = Action(id: string, title: string, color: string, desc: string, isUrgent: bool)

  function AcademicActions(feesDue: nat, pendingAssignments: nat, attendancePercent: int): (r: seq<Action>)
    ensures |r| == 6
    ensures r[0].id == "1" && r[1].id == "2" && r[2].id == "3"
    ensures r[3].id == "4" && r[4].id == "5" && r[5].id == "6"
    ensures r[0].isUrgent <==> attendancePercent < 75
    ensures r[0].color == Green <==> attendancePercent >= 75
    ensures r[1].isUrgent <==> feesDue > 0
    ensures feesDue == 0 ==> r[1].desc == AllPaid && r[1].color == Green
    ensures r[4].isUrgent <==> pendingAssignments > 0
    ensures pendingAssignments == 0 ==> r[4].desc == AllDone && r[4].color == Green
    ensures !r[2].isUrgent && !r[3].isUrgent && !r[5].isUrgent
  {
    [ Action("1", "Attendance", if attendancePercent >= 75 then Green else Red,
             IntToString(attendancePercent) + "% Overall", attendancePercent < 75),
      Action("2", "Pay Fees", if feesDue > 0 then Red else Green,
             if feesDue > 0 then "Due: ₹" + LocaleEnIn(feesDue) else AllPaid, feesDue > 0),
      Action("3", "Syllabus", "bg-teal-500", "View Course Plan", false),
      Action("4", "Support", "bg-emerald-500", "2 Open Tickets", false),
      Action("5", "Assignments", if pendingAssignments > 0 then Orange else Green,
             if pendingAssignments > 0 then NatToString(pendingAssignments) + " Pending" else AllDone,
             pendingAssignments > 0),
      Action("6", "Exams", "bg-pink-500", "Schedule", false) ]
  }

  /** With the defaults the dashboard uses: attendance calm, fees and assignments urgent. */
  lemma DefaultActions()
    ensures var r := AcademicActions(DefaultFeesDue, DefaultPendingAssignments, DefaultAttendancePercent);
            !r[0].isUrgent && r[0].desc == "85% Overall"
            && r[1].isUrgent && r[1].desc == "Due: ₹" + "45,000"
            && r[4].isUrgent && r[4].desc == "3 Pending"
  {
    LocaleEnInExamples();
    assert NatToString(85) == "85";
    assert NatToString(3) == "3";
  }
}
