/**
 * The dashboard shell: which of today's classes is in session, the greeting
 * of the hour, the notice board with its unread count, the merged user
 * profile, and the routing of quick actions, deadline clicks and tab changes.
 */
module App {
  import opened JsRuntime
  import opened Types
  import opened ClassTime
  import opened HeroSection
  import opened Constants

  // ---------------------------------------------------------------------
  // The class in session

  /**
   * The predicate of checkCurrentClass's find: start <= now <= end. A
   * comparison with an Invalid Date is false; a range without " - " throws.
   */
  function IsActive(range: string, now: int): (r: Completion<bool>)
    ensures r.Throw? <==> RangeBounds(range).Throw?
    ensures r == Normal(true) ==>
              var (start, end) := RangeBounds(range).value;
              start.Some? && end.Some? && AtMs(start.value) <= now <= AtMs(end.value)
  {
    match RangeBounds(range)
    case Throw => Throw
    case Normal((start, end)) =>
      Normal(start.Some? && end.Some? && AtMs(start.value) <= now && now <= AtMs(end.value))
  }

  /** With both bounds parsed, the dashboard's "in session" agrees with the hero card's "ongoing". */
  lemma ActiveIffOngoing(range: string, now: int)
    requires RangeBounds(range).Normal?
    requires RangeBounds(range).value.0.Some? && RangeBounds(range).value.1.Some?
    ensures IsActive(range, now) == Normal(true) <==> ClassStatus(range, now) == Normal(Ongoing)
  {
  }

  /**
   * The two copies disagree on a range neither of whose bounds parses: the
   * hero card calls it ongoing, the dashboard never selects it.
   */
  lemma UnparsedRangeOngoingButInactive(range: string, now: int)
    requires RangeBounds(range).Normal?
    requires RangeBounds(range).value.0.None? && RangeBounds(range).value.1.None?
    ensures ClassStatus(range, now) == Normal(Ongoing)
    ensures IsActive(range, now) == Normal(false)
  {
  }

  /**
   * Array.prototype.find from position `from`: the index of the first class
   * whose range is active, or None. The search stops with a throw at the first
   * range, before any active one, that has no " - ".
   */
  function FindActive(classes: seq<ClassSession>, now: int, from: nat): (r: Completion<Option<nat>>)
    decreases |classes| - from
    ensures r.Normal? && r.value.Some? ==>
              from <= r.value.value < |classes|
              && IsActive(classes[r.value.value].time, now) == Normal(true)
              && forall j :: from <= j < r.value.value ==> IsActive(classes[j].time, now) == Normal(false)
    ensures r == Normal(None) ==>
              forall j :: from <= j < |classes| ==> IsActive(classes[j].time, now) == Normal(false)
    ensures r.Throw? ==>
              exists k :: from <= k < |classes| && IsActive(classes[k].time, now).Throw?
                && forall j :: from <= j < k ==> IsActive(classes[j].time, now) == Normal(false)
  {
    if from >= |classes| then Normal(None)
    else
      match IsActive(classes[from].time, now)
      case Throw => Throw
      case Normal(true) => Normal(Some(from))
      case Normal(false) => FindActive(classes, now, from + 1)
  }

  /** checkCurrentClass: the first class in list order that is in session, or null. */
  function CurrentClass(classes: seq<ClassSession>, now: int): (r: Completion<Option<ClassSession>>)
    ensures r.Normal? && r.value.Some? ==>
              exists i :: 0 <= i < |classes| && classes[i] == r.value.value
                && IsActive(classes[i].time, now) == Normal(true)
                && forall j :: 0 <= j < i ==> IsActive(classes[j].time, now) == Normal(false)
    ensures r == Normal(None) ==>
              forall j :: 0 <= j < |classes| ==> IsActive(classes[j].time, now) == Normal(false)
  {
    match FindActive(classes, now, 0)
    case Throw => Throw
    case Normal(None) => Normal(None)
    case Normal(Some(i)) => Normal(Some(classes[i]))
  }

  /** The three timetable ranges parse to 9:00-10:30, 11:00-12:30 and 14:00-15:30. */
  lemma TimetableBounds()
    ensures RangeBounds(TodayClasses[0].time) == Normal((Some(540), Some(630)))
    ensures RangeBounds(TodayClasses[1].time) == Normal((Some(660), Some(750)))
    ensures RangeBounds(TodayClasses[2].time) == Normal((Some(840), Some(930)))
  {
    TimetableSlot(TodayClasses[0].time, 9, 0, false, 10, 30, false);
    TimetableSlot(TodayClasses[1].time, 11, 0, false, 12, 30, true);
    TimetableSlot(TodayClasses[2].time, 2, 0, true, 3, 30, true);
    assert ClockMinute(9, 0, false) == 540 && ClockMinute(10, 30, false) == 630;
    assert ClockMinute(11, 0, false) == 660 && ClockMinute(12, 30, true) == 750;
    assert ClockMinute(2, 0, true) == 840 && ClockMinute(3, 30, true) == 930;
  }

  /** One written slot of the timetable parses to its two minutes of the day. */
  lemma TimetableSlot(range: string, sh: nat, sm: nat, spm: bool, eh: nat, em: nat, epm: bool)
    requires 1 <= sh <= 12 && sm < 60 && 1 <= eh <= 12 && em < 60
    requires range == FormatRange(FormatClock(sh, sm, spm), FormatClock(eh, em, epm))
    ensures RangeBounds(range) == Normal((Some(ClockMinute(sh, sm, spm)), Some(ClockMinute(eh, em, epm))))
  {
    ParseFormattedRange(sh, sm, spm, eh, em, epm);
  }

  /** At 11:45 the timetable's class in session is Linear Algebra. */
  lemma TimetableCurrentClass()
    ensures CurrentClass(TodayClasses, 705 * MinuteMs) == Normal(Some(TodayClasses[1]))
  {
    var ts := TodayClasses;
    TimetableBounds();
    assert FindActive(ts, 705 * MinuteMs, 1) == Normal(Some(1));
    assert FindActive(ts, 705 * MinuteMs, 0) == Normal(Some(1));
  }

  /** At 1 PM, between the second and third classes, no class is in session. */
  lemma TimetableNoClassAtOne()
    ensures CurrentClass(TodayClasses, 780 * MinuteMs) == Normal(None)
  {
    var ts := TodayClasses;
    TimetableBounds();
    assert FindActive(ts, 780 * MinuteMs, 3) == Normal(None);
    assert FindActive(ts, 780 * MinuteMs, 2) == Normal(None);
    assert FindActive(ts, 780 * MinuteMs, 1) == Normal(None);
    assert FindActive(ts, 780 * MinuteMs, 0) == Normal(None);
  }

  // ---------------------------------------------------------------------
  // Greeting of the hour

  datatype DayPart = Morning | Afternoon | Evening | Night

  /** The hour buckets: [5, 12) morning, [12, 17) afternoon, [17, 21) evening, otherwise night. */
  function DayPartOf(hour: int): DayPart
  {
    if 5 <= hour < 12 then Morning
    else if 12 <= hour < 17 then Afternoon
    else if 17 <= hour < 21 then Evening
    else Night
  }

  datatype Greetings = Greetings(morning: string, afternoon: string, evening: string, night: string)

  /** localizedGreetings. */
  const LocalizedGreetings: map<string, Greetings> := map[
    "en" := Greetings("Good Morning", "Good Afternoon", "Good Evening", "Good Night"),
    "hi" := Greetings("सुप्रभात", "शुभ दोपहर", "शुभ संध्या", "शुभ रात्रि"),
    "fr" := Greetings("Bonjour", "Bonne Après-midi", "Bonsoir", "Bonne Nuit"),
    "es" := Greetings("Buenos Días", "Buenas Tardes", "Buenas Tardes", "Buenas Noches"),
    "zh" := Greetings("早上好", "下午好", "晚上好", "晚安"),
    "ar" := Greetings("صباح الخير", "مساء الخير", "مساء الخير", "تصبح على خير")
  ]

  /** The greeting text and emoji shown at `hour` (0..23) in `language`, English when the language is unknown. */
  function Greeting(hour: int, language: string): (g: (string, string))
    ensures language in LocalizedGreetings ==>
              g.0 in {LocalizedGreetings[language].morning, LocalizedGreetings[language].afternoon,
                      LocalizedGreetings[language].evening, LocalizedGreetings[language].night}
  {
    var t := if language in LocalizedGreetings then LocalizedGreetings[language] else LocalizedGreetings["en"];
    match DayPartOf(hour)
    case Morning => (t.morning, "🌅")
    case Afternoon => (t.afternoon, "☀️")
    case Evening => (t.evening, "🌆")
    case Night => (t.night, "🌙")
  }

  /** An unknown language greets as English does. */
  lemma GreetingFallsBackToEnglish(hour: int, language: string)
    requires language !in LocalizedGreetings
    ensures Greeting(hour, language) == Greeting(hour, "en")
  {
  }

  /** Every known language follows the same four hour buckets, each with its own emoji. */
  lemma GreetingBuckets(hour: int, language: string)
    requires language in LocalizedGreetings
    ensures var t := LocalizedGreetings[language];
            && (5 <= hour < 12 ==> Greeting(hour, language) == (t.morning, "🌅"))
            && (12 <= hour < 17 ==> Greeting(hour, language) == (t.afternoon, "☀️"))
            && (17 <= hour < 21 ==> Greeting(hour, language) == (t.evening, "🌆"))
            && (hour < 5 || hour >= 21 ==> Greeting(hour, language) == (t.night, "🌙"))
  {
  }

  /** In English the four greetings cover the day in the four buckets, with no gap and no overlap. */
  lemma EnglishGreetingBuckets(hour: int)
    ensures Greeting(hour, "en").0 == "Good Morning" <==> 5 <= hour < 12
    ensures Greeting(hour, "en").0 == "Good Afternoon" <==> 12 <= hour < 17
    ensures Greeting(hour, "en").0 == "Good Evening" <==> 17 <= hour < 21
    ensures Greeting(hour, "en").0 == "Good Night" <==> hour < 5 || hour >= 21
  {
  }

  // ---------------------------------------------------------------------
  // Notices

  /** newNoticesCount: notices.filter(n => n.isNew).length. */
  function CountNew(notices: seq<Notice>): (n: nat)
    ensures n <= |notices|
    ensures n == 0 <==> forall i :: 0 <= i < |notices| ==> !notices[i].isNew
  {
    if |notices| == 0 then 0
    else (if notices[0].isNew then 1 else 0) + CountNew(notices[1..])
  }

  /** markNoticeAsRead's map: the notices with id `id` lose their "new" mark, the others are kept. */
  function MarkRead(notices: seq<Notice>, id: string): (r: seq<Notice>)
    ensures |r| == |notices|
    ensures forall i :: 0 <= i < |r| ==>
              r[i] == if notices[i].id == id then notices[i].(isNew := false) else notices[i]
  {
    if |notices| == 0 then []
    else [if notices[0].id == id then notices[0].(isNew := false) else notices[0]] + MarkRead(notices[1..], id)
  }

  /** Marking a notice read twice is marking it once. */
  lemma MarkReadIdempotent(notices: seq<Notice>, id: string)
    ensures MarkRead(MarkRead(notices, id), id) == MarkRead(notices, id)
  {
  }

  /** Some notice with id `id` is still new. */
  predicate HasNewWithId(notices: seq<Notice>, id: string)
  {
    exists i :: 0 <= i < |notices| && notices[i].id == id && notices[i].isNew
  }

  lemma HasNewWithIdCons(notices: seq<Notice>, id: string)
    requires |notices| > 0
    ensures HasNewWithId(notices, id)
            <==> (notices[0].id == id && notices[0].isNew) || HasNewWithId(notices[1..], id)
  {
    if HasNewWithId(notices, id) {
      var i :| 0 <= i < |notices| && notices[i].id == id && notices[i].isNew;
      if i > 0 { assert notices[1..][i - 1] == notices[i]; }
    }
    if HasNewWithId(notices[1..], id) {
      var i :| 0 <= i < |notices[1..]| && notices[1..][i].id == id && notices[1..][i].isNew;
      assert notices[i + 1] == notices[1..][i];
    }
  }

  /**
   * Marking read never raises the unread count, and lowers it exactly when a
   * notice with that id was new.
   */
  lemma {:induction false} MarkReadCount(notices: seq<Notice>, id: string)
    ensures CountNew(MarkRead(notices, id)) <= CountNew(notices)
    ensures CountNew(MarkRead(notices, id)) < CountNew(notices) <==> HasNewWithId(notices, id)
  {
    if |notices| > 0 {
      var r := MarkRead(notices, id);
      assert r[1..] == MarkRead(notices[1..], id);
      assert r[0].isNew <==> notices[0].isNew && notices[0].id != id;
      assert CountNew(r) == (if r[0].isNew then 1 else 0) + CountNew(r[1..]);
      MarkReadCount(notices[1..], id);
      HasNewWithIdCons(notices, id);
    }
  }

  /** The bodies of the four initial notices. */
  const ExamNoticeText: string :=
    "End semester examination dates have been announced. Please check the circular for detailed schedule, venue information, and guidelines. Make sure to carry your college ID card."
  const FeeNoticeText: string :=
    "Last date for fee payment is approaching. Pay before 15th Feb to avoid late fee charges. Online payment is available through the student portal."
  const LibraryNoticeText: string :=
    "Library will remain open till 10 PM during exam weeks. Additional reading rooms are also available on the ground floor."
  const PlacementNoticeText: string :=
    "Top tech companies will be visiting campus for recruitment. Register before 20th Feb. Eligible: Final year students with 60% and above."

  /** INITIAL_NOTICES, published at `now` and two, five and seven days before. */
  function InitialNotices(now: int): seq<Notice>
  {
    [ Notice("n1", "End Semester Examination", ExamNoticeText, now, true, Some(true)),
      Notice("n2", "Fee Payment Reminder", FeeNoticeText, now - 2 * DayMs, true, Some(false)),
      Notice("n3", "Library Hours Extended", LibraryNoticeText, now - 5 * DayMs, false, Some(false)),
      Notice("n4", "Campus Placement Drive", PlacementNoticeText, now - 7 * DayMs, false, Some(true)) ]
  }

  /** Two of the initial notices, the newest two, start unread. */
  lemma InitialUnreadCount(now: int)
    ensures CountNew(InitialNotices(now)) == 2
  {
    var ns := InitialNotices(now);
    assert |ns| == 4 && ns[0].isNew && ns[1].isNew && !ns[2].isNew && !ns[3].isNew;
    assert CountNew(ns[3..]) == 0 by { assert ns[3..][1..] == []; }
    assert CountNew(ns[2..]) == 0 by { assert ns[2..][1..] == ns[3..]; }
    assert CountNew(ns[1..]) == 1 by { assert ns[1..][1..] == ns[2..]; }
  }

  // ---------------------------------------------------------------------
  // The profile merge

  /** `{ ...prev, ...updates }`: every key of `updates` overwrites, every other key of `prev` stays. */
  function Merge(prev: Record, updates: Record): (r: Record)
    ensures r.Keys == prev.Keys + updates.Keys
    ensures forall k :: k in updates ==> r[k] == updates[k]
    ensures forall k :: k in prev && k !in updates ==> r[k] == prev[k]
  {
    prev + updates
  }

  /** Merging the same updates twice is merging them once, and an empty update changes nothing. */
  lemma MergeIdempotent(prev: Record, updates: Record)
    ensures Merge(Merge(prev, updates), updates) == Merge(prev, updates)
    ensures Merge(prev, map[]) == prev
  {
  }

  /** The profile the dashboard starts with: CURRENT_USER and three photo slots set to null. */
  function InitialProfile(): (p: Record)
    ensures Get(p, "studentPhoto") == Null && Get(p, "fatherPhoto") == Null && Get(p, "motherPhoto") == Null
    ensures forall k :: k in CurrentUser ==> Get(p, k) == CurrentUser[k]
  {
    Merge(CurrentUser, map["studentPhoto" := Null, "fatherPhoto" := Null, "motherPhoto" := Null])
  }

  // ---------------------------------------------------------------------
  // The dashboard's state

  class PortalApp {
    var isAuthenticated: bool
    var activeTab: string
    var currentClass: Option<ClassSession>
    var notices: seq<Notice>
    var showFeesModal: bool
    var showSyllabusModal: bool
    var language: string
    var greeting: (string, string)
    var filterNewNotices: bool
    var selectedSubject: Option<string>
    var userProfile: Record

    /** The initial state; `now` is the instant the notices are created at. */
    constructor (now: int)
      ensures !isAuthenticated && activeTab == "home" && currentClass.None?
      ensures notices == InitialNotices(now)
      ensures !showFeesModal && !showSyllabusModal && language == "en" && greeting == ("Good Morning", "👋")
      ensures !filterNewNotices && selectedSubject.None? && userProfile == InitialProfile()
    {
      isAuthenticated := false;
      activeTab := "home";
      currentClass := None;
      notices := InitialNotices(now);
      showFeesModal := false;
      showSyllabusModal := false;
      language := "en";
      greeting := ("Good Morning", "👋");
      filterNewNotices := false;
      selectedSubject := None;
      userProfile := InitialProfile();
    }

    /** The login page reports success. */
    method OnLoginSuccess()
      modifies this`isAuthenticated
      ensures isAuthenticated
    {
      isAuthenticated := true;
    }

    /** The sidebar's log-out button. */
    method OnLogout()
      modifies this`isAuthenticated
      ensures !isAuthenticated
    {
      isAuthenticated := false;
    }

    /** handleProfileUpdate: the shallow merge of the updates into the profile. */
    method HandleProfileUpdate(updates: Record)
      modifies this`userProfile
      ensures userProfile == Merge(old(userProfile), updates)
    {
      userProfile := userProfile + updates;
    }

    /** updateGreeting at the local `hour`, in the current language (the clock text is not modelled). */
    method UpdateGreeting(hour: int)
      modifies this`greeting
      ensures greeting == Greeting(hour, language)
    {
      greeting := Greeting(hour, language);
    }

    method SetLanguage(code: string)
      modifies this`language
      ensures language == code
    {
      language := code;
    }

    /** markNoticeAsRead. */
    method MarkNoticeAsRead(noticeId: string)
      modifies this`notices
      ensures notices == MarkRead(old(notices), noticeId)
      ensures CountNew(notices) <= CountNew(old(notices))
    {
      MarkReadCount(notices, noticeId);
      notices := MarkRead(notices, noticeId);
    }

    /**
     * checkCurrentClass against today's timetable at `now` (milliseconds past
     * local midnight). A throwing find leaves the state as it was.
     */
    method CheckCurrentClass(now: int)
      modifies this`currentClass
      ensures CurrentClass(TodayClasses, now).Normal? ==> currentClass == CurrentClass(TodayClasses, now).value
      ensures CurrentClass(TodayClasses, now).Throw? ==> currentClass == old(currentClass)
    {
      var active := CurrentClass(TodayClasses, now);
      if active.Normal? {
        currentClass := active.value;
      }
    }

    /**
     * handleQuickAction: "1" opens attendance and clears the notice filter,
     * "2" the fees modal, "3" the syllabus modal, "5" and "6" the academics tab
     * with no subject selected; any other id changes nothing.
     */
    method HandleQuickAction(actionId: string)
      modifies this`activeTab, this`filterNewNotices, this`showFeesModal, this`showSyllabusModal, this`selectedSubject
      ensures actionId == "1" ==> activeTab == "attendance" && !filterNewNotices
                                  && showFeesModal == old(showFeesModal) && showSyllabusModal == old(showSyllabusModal)
                                  && selectedSubject == old(selectedSubject)
      ensures actionId == "2" ==> showFeesModal && activeTab == old(activeTab) && filterNewNotices == old(filterNewNotices)
                                  && showSyllabusModal == old(showSyllabusModal) && selectedSubject == old(selectedSubject)
      ensures actionId == "3" ==> showSyllabusModal && activeTab == old(activeTab) && filterNewNotices == old(filterNewNotices)
                                  && showFeesModal == old(showFeesModal) && selectedSubject == old(selectedSubject)
      ensures actionId == "5" || actionId == "6" ==>
                activeTab == "academics" && selectedSubject.None? && filterNewNotices == old(filterNewNotices)
                && showFeesModal == old(showFeesModal) && showSyllabusModal == old(showSyllabusModal)
      ensures actionId !in {"1", "2", "3", "5", "6"} ==>
                activeTab == old(activeTab) && filterNewNotices == old(filterNewNotices)
                && showFeesModal == old(showFeesModal) && showSyllabusModal == old(showSyllabusModal)
                && selectedSubject == old(selectedSubject)
    {
      if actionId == "1" {
        activeTab := "attendance";
        filterNewNotices := false;
      } else if actionId == "2" {
        showFeesModal := true;
      } else if actionId == "3" {
        showSyllabusModal := true;
      } else if actionId == "5" {
        activeTab := "academics";
        selectedSubject := None;
      } else if actionId == "6" {
        activeTab := "academics";
        selectedSubject := None;
      }
    }

    /** handleDeadlineClick: the academics tab, focused on the deadline's subject. */
    method HandleDeadlineClick(subjectCode: string)
      modifies this`activeTab, this`selectedSubject
      ensures activeTab == "academics" && selectedSubject == Some(subjectCode)
    {
      activeTab := "academics";
      selectedSubject := Some(subjectCode);
    }

    /** handleTabChange: every navigation clears the new-notices filter. */
    method HandleTabChange(tab: string)
      modifies this`activeTab, this`filterNewNotices
      ensures activeTab == tab && !filterNewNotices
    {
      activeTab := tab;
      filterNewNotices := false;
    }
  }
}
