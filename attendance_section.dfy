/**
 * The attendance view: how many more classes may be skipped while staying at
 * 75%, the rounded percentage of each subject with its "low" flag, and the
 * count of classes missed.
 */
module AttendanceSection {
  import opened JsRuntime

  /** One row of the per-subject table. */
  datatype SubjectAttendance = SubjectAttendance(
    name: string,
    code: string,
    present: nat,
    absent: nat,
    pending: nat,
    leave: nat,
    event: nat,
    total: nat)

  /** The overall figures; `present` and `absent` are the percentages drawn in the pie chart. */
  datatype Overall = Overall(present: nat, absent: nat, totalClasses: nat, attendedClasses: nat)

  const OverallFixture: Overall := Overall(85, 15, 120, 102)

  const SubjectsFixture: seq<SubjectAttendance> := [
    SubjectAttendance("Data Structures", "CS301", 28, 2, 1, 1, 0, 32),
    SubjectAttendance("Database Systems", "CS302", 25, 3, 0, 2, 1, 31),
    SubjectAttendance("Computer Networks", "CS303", 22, 4, 2, 1, 1, 30),
    SubjectAttendance("Operating Systems", "CS304", 27, 1, 0, 1, 0, 29),
    SubjectAttendance("Software Engineering", "CS305", 20, 5, 1, 2, 0, 28)
  ]

  // ---------------------------------------------------------------------
  // Remaining skips

  /**
   * calculateRemainingSkips: Math.max(0, Math.floor(attended / 0.75 - total)),
   * computed exactly as floor((4 * attended - 3 * total) / 3).
   */
  function RemainingSkips(attended: nat, total: nat): (r: nat)
    ensures 4 * attended < 3 * total ==> r == 0
    ensures 4 * attended >= 3 * total ==>
              3 * (total + r) <= 4 * attended < 3 * (total + r + 1)
  {
    var maxSkips := (4 * attended - 3 * total) / 3;
    if maxSkips < 0 then 0 else maxSkips
  }

  /**
   * Skipping x more classes keeps attended / (total + x) at or above 0.75
   * exactly when attendance is already at 75% and x is at most the remaining
   * skips: the bound is both safe and the largest safe count.
   */
  lemma SkipsKeepSeventyFive(attended: nat, total: nat, x: nat)
    ensures 4 * attended >= 3 * (total + x) <==> 4 * attended >= 3 * total && x <= RemainingSkips(attended, total)
  {
    var r := RemainingSkips(attended, total);
    if 4 * attended >= 3 * total && x > r {
      assert 3 * (total + x) >= 3 * (total + r + 1);
    }
  }

  /** More classes held never raises the remaining skips; more attended never lowers them. */
  lemma RemainingSkipsMonotone(attended: nat, attended': nat, total: nat, total': nat)
    requires attended <= attended' && total' <= total
    ensures RemainingSkips(attended, total) <= RemainingSkips(attended', total')
  {
    var r := RemainingSkips(attended, total);
    if r > 0 {
      SkipsKeepSeventyFive(attended, total, r);
      SkipsKeepSeventyFive(attended', total', r);
    }
  }

  /** The overall fixture, 102 attended of 120, leaves 16 skips. */
  lemma FixtureRemainingSkips()
    ensures RemainingSkips(OverallFixture.attendedClasses, OverallFixture.totalClasses) == 16
  {
  }

  // ---------------------------------------------------------------------
  // Per-subject percentage

  /** Math.round(present / total * 100): a whole number, or Infinity / NaN when total is 0. */
  datatype Percent = Whole(n: nat) | Infinity | NaN

  /** Math.round rounds halves up: n - 1/2 <= 100 * present / total < n + 1/2. */
  function Percentage(present: nat, total: nat): (r: Percent)
    ensures total == 0 ==> (r == if present == 0 then NaN else Infinity)
    ensures total > 0 ==> r.Whole? && 2 * total * r.n <= 200 * present + total < 2 * total * (r.n + 1)
    ensures total > 0 && present <= total ==> r.n <= 100
  {
    if total == 0 then (if present == 0 then NaN else Infinity)
    else
      QuotientBounds(200 * present + total, 2 * total, 101);
      Whole((200 * present + total) / (2 * total))
  }

  /** Euclidean division of naturals, and a quotient below k when the dividend is below k divisors. */
  lemma QuotientBounds(a: nat, d: nat, k: nat)
    requires d > 0
    ensures d * (a / d) <= a < d * (a / d + 1)
    ensures a < d * k ==> a / d < k
  {
    var q := a / d;
    assert a == d * q + a % d;
    if q >= k {
      assert d * q >= d * k;
    }
  }

  /** isLow: percentage < 75, which is false for Infinity and NaN. */
  predicate IsLow(p: Percent)
  {
    p.Whole? && p.n < 75
  }

  /** A subject is low exactly when 100 * present / total is below 74.5. */
  lemma IsLowIff(present: nat, total: nat)
    ensures IsLow(Percentage(present, total)) <==> total > 0 && 200 * present < 149 * total
  {
    if total > 0 {
      var n := Percentage(present, total).n;
      if n < 75 {
        ScaleMonotone(n + 1, 75, 2 * total);
      } else {
        ScaleMonotone(75, n, 2 * total);
      }
    }
  }

  lemma ScaleMonotone(a: nat, b: nat, c: nat)
    requires a <= b
    ensures c * a <= c * b
  {
  }

  /** 20 of 28 rounds to 71 and is low; 28 of 32 is 87.5, rounds up to 88 and is not low. */
  lemma SubjectPercentages()
    ensures Percentage(20, 28) == Whole(71) && IsLow(Percentage(20, 28))
    ensures Percentage(28, 32) == Whole(88) && !IsLow(Percentage(28, 32))
  {
  }

  /** The codes of the low subjects of a table, in table order. */
  function LowSubjects(subjects: seq<SubjectAttendance>): (codes: seq<string>)
    ensures |codes| <= |subjects|
    ensures forall s :: s in subjects && IsLow(Percentage(s.present, s.total)) ==> s.code in codes
    ensures forall c :: c in codes ==>
              exists s :: s in subjects && s.code == c && IsLow(Percentage(s.present, s.total))
  {
    if |subjects| == 0 then []
    else
      (if IsLow(Percentage(subjects[0].present, subjects[0].total)) then [subjects[0].code] else [])
      + LowSubjects(subjects[1..])
  }

  /** The table's subject codes, row by row. */
  function Codes(subjects: seq<SubjectAttendance>): (codes: seq<string>)
    ensures |codes| == |subjects|
    ensures forall i :: 0 <= i < |subjects| ==> codes[i] == subjects[i].code
  {
    if |subjects| == 0 then [] else [subjects[0].code] + Codes(subjects[1..])
  }

  /** The low subjects are listed in table order. */
  lemma {:induction false} LowSubjectsInOrder(subjects: seq<SubjectAttendance>)
    ensures IsSublist(LowSubjects(subjects), Codes(subjects))
  {
    if |subjects| > 0 {
      var rest := LowSubjects(subjects[1..]);
      LowSubjectsInOrder(subjects[1..]);
      var codes := Codes(subjects);
      assert codes[1..] == Codes(subjects[1..]);
      if IsLow(Percentage(subjects[0].present, subjects[0].total)) {
        assert LowSubjects(subjects) == [subjects[0].code] + rest;
        assert ([subjects[0].code] + rest)[1..] == rest;
      } else {
        assert LowSubjects(subjects) == rest;
        SublistSkip(rest, codes);
      }
    }
  }

  /** In the fixture table, Computer Networks (73%) and Software Engineering (71%) are low. */
  lemma FixtureLowSubjects()
    ensures LowSubjects(SubjectsFixture) == ["CS303", "CS305"]
  {
  }

  // ---------------------------------------------------------------------
  // Classes missed

  /** totalClasses - attendedClasses. */
  function ClassesMissed(o: Overall): (missed: int)
    ensures o.attendedClasses <= o.totalClasses ==> 0 <= missed <= o.totalClasses
    ensures o.attendedClasses + missed == o.totalClasses
  {
    o.totalClasses - o.attendedClasses
  }

  /**
   * In the fixture the 18 missed of 120 and the 102 attended round to the
   * 15% and 85% drawn in the pie chart.
   */
  lemma FixtureOverallConsistent()
    ensures ClassesMissed(OverallFixture) == 18
    ensures Percentage(102, 120) == Whole(OverallFixture.present)
    ensures Percentage(18, 120) == Whole(OverallFixture.absent)
  {
  }
}
