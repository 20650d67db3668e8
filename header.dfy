/**
 * The top bar: the notification bell with its list of new notices and their
 * "time ago" labels, and the mobile navigation menu. Instants are
 * milliseconds since the epoch.
 */
module Header {
  import opened JsRuntime
  import opened Types
  import App

  // ---------------------------------------------------------------------
  // New notices

  /** newNotices: notices.filter(n => n.isNew). */
  function NewNotices(notices: seq<Notice>): (r: seq<Notice>)
    ensures forall n :: n in r <==> n in notices && n.isNew
    ensures |r| == App.CountNew(notices)
  {
    if |notices| == 0 then []
    else (if notices[0].isNew then [notices[0]] else []) + NewNotices(notices[1..])
  }

  /** The new notices are listed in the board's order. */
  lemma {:induction false} NewNoticesInOrder(notices: seq<Notice>)
    ensures IsSublist(NewNotices(notices), notices)
  {
    if |notices| > 0 {
      var rest := NewNotices(notices[1..]);
      NewNoticesInOrder(notices[1..]);
      if notices[0].isNew {
        assert NewNotices(notices) == [notices[0]] + rest;
        assert ([notices[0]] + rest)[1..] == rest;
      } else {
        assert NewNotices(notices) == rest;
      }
    }
  }

  /** The red dot on the bell and the "No new notifications" panel, as the count decides them. */
  datatype BellView = BellView(dot: bool, countBadge: Option<nat>, emptyState: bool)

  function Bell(notices: seq<Notice>): (v: BellView)
    ensures v.dot <==> exists i :: 0 <= i < |notices| && notices[i].isNew
    ensures v.emptyState <==> !v.dot
    ensures v.countBadge.Some? <==> v.dot
    ensures v.countBadge.Some? ==> v.countBadge.value == App.CountNew(notices)
  {
    var newNotices := NewNotices(notices);
    var count := |newNotices|;
    assert count > 0 ==> newNotices[0] in notices;
    BellView(count > 0, if count > 0 then Some(count) else None, |newNotices| == 0)
  }

  // ---------------------------------------------------------------------
  // getTimeAgo

  /** The units of the ladder, largest first, in seconds. */
  const Units: seq<(nat, string)> := [
    (31536000, "years"), (2592000, "months"), (86400, "days"), (3600, "hours"), (60, "minutes")
  ]

  datatype Ago = Ago(count: int, unit: string)

  /**
   * The ladder: the first unit that the elapsed seconds strictly exceed,
   * counted in whole units; when no unit is exceeded, the seconds themselves.
   */
  function AgoOfSeconds(seconds: int): (a: Ago)
    ensures a.unit == "seconds" <==> seconds <= 60
    ensures a.unit == "seconds" ==> a.count == seconds
    ensures a.unit != "seconds" ==>
              exists k :: 0 <= k < |Units| && Units[k].1 == a.unit
                && seconds > Units[k].0 && a.count == seconds / Units[k].0 && a.count >= 1
                && forall j :: 0 <= j < k ==> seconds <= Units[j].0
  {
    assert Units[0] == (31536000, "years") && Units[1] == (2592000, "months") && Units[2] == (86400, "days");
    assert Units[3] == (3600, "hours") && Units[4] == (60, "minutes");
    if seconds > 31536000 then Ago(seconds / 31536000, "years")
    else if seconds > 2592000 then Ago(seconds / 2592000, "months")
    else if seconds > 86400 then Ago(seconds / 86400, "days")
    else if seconds > 3600 then Ago(seconds / 3600, "hours")
    else if seconds > 60 then Ago(seconds / 60, "minutes")
    else Ago(seconds, "seconds")
  }

  /** getTimeAgo(date) at `now`: the elapsed whole seconds, then the ladder. */
  function TimeAgo(date: int, now: int): (a: Ago)
    ensures a == AgoOfSeconds(FloorDiv(now - date, SecondMs))
  {
    AgoOfSeconds((now - date) / SecondMs)
  }

  function AgoText(a: Ago): string
  {
    IntToString(a.count) + " " + a.unit + " ago"
  }

  /** The thresholds are strict: one day exactly reads "24 hours ago", one second more "1 days ago". */
  lemma StrictThresholds()
    ensures AgoOfSeconds(86400) == Ago(24, "hours")
    ensures AgoOfSeconds(86401) == Ago(1, "days")
    ensures AgoOfSeconds(60) == Ago(60, "seconds")
    ensures AgoOfSeconds(61) == Ago(1, "minutes")
    ensures AgoText(Ago(24, "hours")) == "24 hours ago"
  {
    assert NatToString(24) == "24";
  }

  /** A notice published two days before `now` reads "2 days ago". */
  lemma TwoDaysAgo(now: int)
    ensures TimeAgo(now - 2 * DayMs, now) == Ago(2, "days")
  {
  }

  // ---------------------------------------------------------------------
  // The menus

  class HeaderMenu {
    var isMobileMenuOpen: bool
    var isProfileOpen: bool
    var isNotificationsOpen: bool

    constructor ()
      ensures !isMobileMenuOpen && !isProfileOpen && !isNotificationsOpen
    {
      isMobileMenuOpen := false;
      isProfileOpen := false;
      isNotificationsOpen := false;
    }

    method OpenMobileMenu()
      modifies this`isMobileMenuOpen
      ensures isMobileMenuOpen
    {
      isMobileMenuOpen := true;
    }

    /** The bell toggles the notification dropdown. */
    method ToggleNotifications()
      modifies this`isNotificationsOpen
      ensures isNotificationsOpen == !old(isNotificationsOpen)
    {
      isNotificationsOpen := !isNotificationsOpen;
    }

    /**
     * handleNavClick: the dashboard's tab change when the callback is given
     * (`app` non-null), and the mobile menu closed in every case.
     */
    method HandleNavClick(tabId: string, app: App.PortalApp?)
      modifies this`isMobileMenuOpen, app
      ensures !isMobileMenuOpen
      ensures app != null ==> app.activeTab == tabId && !app.filterNewNotices
      ensures app != null ==> app.notices == old(app.notices) && app.userProfile == old(app.userProfile)
      ensures app != null ==>
                && app.isAuthenticated == old(app.isAuthenticated) && app.currentClass == old(app.currentClass)
                && app.language == old(app.language) && app.greeting == old(app.greeting)
                && app.showFeesModal == old(app.showFeesModal) && app.showSyllabusModal == old(app.showSyllabusModal)
                && app.selectedSubject == old(app.selectedSubject)
    {
      if app != null {
        app.HandleTabChange(tabId);
      }
      isMobileMenuOpen := false;
    }
  }
}
