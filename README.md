# Student portal: a verified model of its logic

This project models the logic behind a mock university student portal, a React single-page app. The portal shows:

- a dashboard with today's timetable and the class in session, with its progress bar and countdown;
- a notice board with read and unread notices, and a notification bell;
- an attendance breakdown and the number of classes that can still be skipped;
- the academics page, with assessment filters, due labels and exam eligibility;
- a fee-payment modal;
- the upcoming-deadlines card;
- the quick-action shortcuts;
- a two-step login with a student ID and a six-digit one-time code;
- a profile editor that tracks which fields changed and sends the synchronised ones back to the dashboard.

## How the model is built

- **One module per component.** Each Dafny module matches one source component.
- **Shared modules.** `JsRuntime` holds the JavaScript built-ins the components rely on: `split`, `join`, `Number()`, `trim`, `toUpperCase`, the `\D` filter, integer formatting, floor and ceiling. `Types` holds the records of `types.ts`. `ClassTime` holds the `parseTime` helper and the `"start - end"` range format, which `App.tsx` and `HeroSection.tsx` both define identically.
- **Pure computation becomes functions.** Anything computed from props or state is a function, and lemmas are proved about it.
- **`useState` clusters become classes.** Each React `useState` cluster whose handlers update it is a class: `App.PortalApp`, `HeroSection.HeroPanel`, `FeesModal.FeesState`, `Header.HeaderMenu`, `LoginPage.LoginForm` and `StudentProfile.ProfileEditor`. Each handler is a method with a `modifies` frame. A handler that calls a parent's callback takes the parent object and calls its method.
- **The clock is a parameter.** The current time is passed in as `now`, and the local hour as `hour`.
  - Class times are in milliseconds past local midnight, because `parseTime` sets the hour on today's date.
  - Every other instant is in milliseconds since the epoch.
- **Exceptions and NaN are modelled.** A JavaScript exception is `Completion.Throw`. An Invalid Date or NaN is `None` or `NaN`, and every comparison with it is false.
- **Arithmetic is exact.** `Math.round(p / t * 100)` is modelled as `(200p + t) div 2t`, and the remaining-skips formula in integer arithmetic. Floating-point rounding is not modelled, so a ratio whose exact value is a half can round differently from the program's doubles; "## Left out" names the case.

## Model

| member | source | states |
|---|---|---|
| ClassTime.To24Hour | components/HeroSection.tsx:16-17 | with AM/PM, an hour 1..12 maps to 0..23 keeping its value mod 12, below 12 exactly for AM; any other modifier, or an hour above 12, leaves the hour unchanged |
| ClassTime.ParseWrittenClock | components/HeroSection.tsx:13-21 | `parseTime("hh:mm MOD")` on digit fields is the minute of the day `To24Hour(hh, MOD)*60 + mm` (also App.tsx:74-82, the same helper) |
| ClassTime.ParseTwelveHourClock | components/HeroSection.tsx:13-21 | every well-formed 12-hour clock text parses to a minute below 1440, with the written minute, the hour mod 12, and a morning hour exactly when AM |
| ClassTime.ParseFormattedClock | App.tsx:74-82 | parsing the written clock gives back the clock's minute of the day (round trip) |
| ClassTime.RangeBounds | components/HeroSection.tsx:84-87 | splitting on `" - "` throws (parseTime of undefined) exactly when the separator never occurs |
| ClassTime.ParseWrittenRange | components/HeroSection.tsx:41-45 | a range written from two well-formed clocks splits into exactly those two clocks |
| ClassTime.ParseFormattedRange | App.tsx:170-172 | a written range parses back to its two minutes of the day |
| HeroSection.ClassStatus | components/HeroSection.tsx:83-92 | the status throws exactly when the range cannot be split |
| HeroSection.StatusOfParsedRange | components/HeroSection.tsx:89-91 | for parsed bounds start <= end: ongoing iff start <= now <= end, completed iff now > end, upcoming iff now < start |
| HeroSection.StatusOfUnparsedRange | components/HeroSection.tsx:89-91 | with both bounds Invalid Date neither comparison holds and the class reads "ongoing" |
| HeroSection.OngoingAtElevenFortyFive | components/HeroSection.tsx:83-92 | at 11:45 the 11:00 AM - 12:30 PM class is ongoing |
| HeroSection.CompletedAtElevenFortyFive | components/HeroSection.tsx:83-92 | at 11:45 the 09:00 AM - 10:30 AM class is completed |
| HeroSection.UpcomingAtElevenFortyFive | components/HeroSection.tsx:83-92 | at 11:45 the 02:00 PM - 03:30 PM class is upcoming |
| HeroSection.Progress | components/HeroSection.tsx:47-52 | the progress bar is NaN exactly when a bound is Invalid Date or the span is empty at its start; otherwise it is clamped to [0, 100], 0 before the start, 100 after the end, and proportional to the elapsed time in between |
| HeroSection.CountdownOf | components/HeroSection.tsx:54-66 | "Class ended" exactly when no time remains; otherwise the whole minutes rounded up, shown as minutes below 60 and as hours and minutes from 60 |
| HeroSection.Tick | components/HeroSection.tsx:39-72 | one tick of updateProgress: a parse failure resets to progress 0 and an empty label; a finite progress is within [0, 100] |
| HeroSection.TickAtElevenFortyFive | components/HeroSection.tsx:47-63 | at 11:45 the 11:00-12:30 class is at 50% with "45m left" |
| HeroSection.CountdownRoundsUp | components/HeroSection.tsx:56-60 | 59 min 30 s remaining reads "1h 0m left" |
| HeroSection.HeroPanel.constructor | components/HeroSection.tsx:24-26 | starts not checked in, progress 0, empty label |
| HeroSection.HeroPanel.OnClassChange | components/HeroSection.tsx:29-33 | a new class sets the check-in flag to its attendanceMarked; no class leaves it |
| HeroSection.HeroPanel.HandleCheckIn | components/HeroSection.tsx:79-81 | the check-in flag flips |
| HeroSection.HeroPanel.UpdateProgress | components/HeroSection.tsx:36-72 | no class changes nothing; otherwise progress and label become the tick's |
| AttendanceSection.RemainingSkips | components/AttendanceSection.tsx:38-43 | zero below 75%; otherwise the largest x with attended/(total+x) >= 0.75 |
| AttendanceSection.SkipsKeepSeventyFive | components/AttendanceSection.tsx:39-41 | skipping x more classes keeps attendance at 75% or above iff it is already there and x <= the remaining skips |
| AttendanceSection.RemainingSkipsMonotone | components/AttendanceSection.tsx:41-42 | attending more, or having had fewer classes, never lowers the remaining skips |
| AttendanceSection.FixtureRemainingSkips | components/AttendanceSection.tsx:58 | 102 attended of 120 leaves 16 skips |
| AttendanceSection.Percentage | components/AttendanceSection.tsx:252 | `Math.round(present/total*100)`: within half a point of the exact ratio, at most 100 when present <= total; Infinity or NaN when the total is 0 |
| AttendanceSection.IsLowIff | components/AttendanceSection.tsx:253 | a subject is flagged low iff total > 0 and present/total < 74.5% |
| AttendanceSection.SubjectPercentages | components/AttendanceSection.tsx:13-17 | 20/28 shows 71% (low), 28/32 shows 88% (not low) |
| AttendanceSection.LowSubjects | components/AttendanceSection.tsx:252-253 | a code is listed exactly when it belongs to a subject whose rounded percentage is low |
| AttendanceSection.LowSubjectsInOrder | components/AttendanceSection.tsx:252-253 | the low subjects are listed in table order |
| AttendanceSection.FixtureLowSubjects | components/AttendanceSection.tsx:13-17 | of the five sample subjects, CS303 and CS305 are low |
| AttendanceSection.ClassesMissed | components/AttendanceSection.tsx:158 | attended + missed = total, and missed is within [0, total] when attended <= total |
| AttendanceSection.FixtureOverallConsistent | components/AttendanceSection.tsx:7-10 | the sample's 85%/15% agree with 102 and 18 of 120 classes, and 18 are missed |
| App.IsActive | App.tsx:169-174 | the find predicate throws exactly when the range cannot be split; true only when both bounds parse and start <= now <= end |
| App.ActiveIffOngoing | App.tsx:169-174 | for parsed bounds, the dashboard's "in session" agrees with the hero card's "ongoing" |
| App.UnparsedRangeOngoingButInactive | App.tsx:173 | with Invalid Date bounds the hero card says "ongoing" while the dashboard finds no class in session |
| App.FindActive | App.tsx:169-175 | `find` returns the first class in session, none when no class is in session, and throws when a class before the first match cannot be split |
| App.CurrentClass | App.tsx:167-176 | the current class is the first one in session, or none |
| App.TimetableCurrentClass | constants.ts:20-51 | at 11:45 the current class is Linear Algebra |
| App.TimetableNoClassAtOne | constants.ts:20-51 | at 13:00, between the second and third classes, no class is in session |
| App.Greeting | App.tsx:125-148 | the greeting is one of the four phrases of the chosen language |
| App.GreetingFallsBackToEnglish | App.tsx:134 | an unknown language code greets in English |
| App.GreetingBuckets | App.tsx:136-148 | in every known language, 5 <= hour < 12 gives its morning phrase with 🌅, 12 <= hour < 17 its afternoon phrase with ☀️, 17 <= hour < 21 its evening phrase with 🌆, and any other hour its night phrase with 🌙 |
| App.EnglishGreetingBuckets | App.tsx:136-148 | morning iff 5 <= hour < 12, afternoon iff 12 <= hour < 17, evening iff 17 <= hour < 21, night otherwise |
| App.CountNew | App.tsx:113 | the unread count is at most the number of notices and is zero iff no notice is new |
| App.MarkRead | App.tsx:159-163 | the notice with the id becomes read; every other notice and the order are kept |
| App.MarkReadIdempotent | App.tsx:159-163 | marking the same notice read twice is marking it once |
| App.MarkReadCount | App.tsx:159-163 | marking read never raises the unread count, and lowers it iff a new notice has that id |
| App.InitialUnreadCount | App.tsx:29-62 | the initial board has two unread notices |
| App.Merge | App.tsx:108-110 | `{...prev, ...updates}`: the keys of both, the updates' values win, the others are kept |
| App.MergeIdempotent | App.tsx:108-110 | applying the same update twice equals once; an empty update changes nothing |
| App.InitialProfile | App.tsx:100-105 | the profile is CURRENT_USER with the three photos null |
| App.PortalApp.constructor | App.tsx:85-105 | the dashboard's initial state |
| App.PortalApp.OnLoginSuccess | App.tsx:228 | the app becomes authenticated |
| App.PortalApp.OnLogout | App.tsx:238 | the app becomes unauthenticated |
| App.PortalApp.HandleProfileUpdate | App.tsx:108-110 | the profile becomes the merge of the old one with the updates |
| App.PortalApp.UpdateGreeting | App.tsx:116-151 | the greeting becomes the one for the hour and the current language |
| App.PortalApp.SetLanguage | App.tsx:402 | the language becomes the chosen code |
| App.PortalApp.MarkNoticeAsRead | App.tsx:159-163 | the board becomes MarkRead of the old one, and the unread count does not rise |
| App.PortalApp.CheckCurrentClass | App.tsx:167-176 | the current class becomes the first class in session, or null; an exception leaves it unchanged |
| App.PortalApp.HandleQuickAction | App.tsx:192-214 | shortcut 1 opens attendance and clears the notice filter, 2 and 3 open the fee and syllabus modals, 5 and 6 open academics with no subject, anything else changes nothing; every other field is unchanged |
| App.PortalApp.HandleDeadlineClick | App.tsx:216-219 | opens academics with the clicked subject selected |
| App.PortalApp.HandleTabChange | App.tsx:221-224 | switches to the tab and clears the notice filter |
| Constants.TimetableText | constants.ts:25-45 | the three sample slots are the written forms "09:00 AM - 10:30 AM", "11:00 AM - 12:30 PM" and "02:00 PM - 03:30 PM" |
| AcademicsPage.FilterTasks | components/AcademicsPage.tsx:416-422 | an assessment is listed iff it is on the list and passes the active filter; the list never grows |
| AcademicsPage.FilterMeaning | components/AcademicsPage.tsx:418-420 | "Pending" lists the unsubmitted, "Submitted" the submitted, "Graded" the graded |
| AcademicsPage.FilterKeepsEvery | components/AcademicsPage.tsx:416-422 | a filter that keeps everything returns the list itself, one that keeps nothing returns [] |
| AcademicsPage.FilterKeepsAll | components/AcademicsPage.tsx:421 | any other filter ("All") returns the whole list |
| AcademicsPage.FilterConcat | components/AcademicsPage.tsx:416-422 | filtering distributes over concatenation |
| AcademicsPage.FilterIsSublist | components/AcademicsPage.tsx:416-422 | the filtered list keeps the original order |
| AcademicsPage.PendingSubmittedPartition | components/AcademicsPage.tsx:418-419 | "Pending" and "Submitted" split the list into two parts that together hold every assessment exactly once |
| AcademicsPage.DaysLeft | components/AcademicsPage.tsx:424 | the days left are the time to the due date rounded up to whole days |
| AcademicsPage.DueNoteOf | components/AcademicsPage.tsx:452-455 | a submitted task reads "Submitted"; otherwise the label shows |daysLeft| "days ago" when daysLeft is negative (at least a day past due) and daysLeft "days left" otherwise; "0 days left" means due within the last day |
| AcademicsPage.DueNoteAgreesWithOverdue | components/AcademicsPage.tsx:423-424 | "days ago" implies OVERDUE; an overdue task reads either "days ago" or, when less than a day late, "0 days left" |
| AcademicsPage.OverdueIff | components/AcademicsPage.tsx:423 | a submitted task is never overdue; an unsubmitted one is overdue iff now is past its due date |
| AcademicsPage.ActionsOf | components/AcademicsPage.tsx:462-488 | graded tasks show their own marks out of their own total, others the buttons, with submit disabled iff overdue |
| AcademicsPage.Eligibility | components/AcademicsPage.tsx:170 | eligible iff attendance >= 75; the exam button is disabled iff ineligible; the bar is capped at 100% (line 247); the shortfall message names 75 - attendance (lines 253-256) |
| AcademicsPage.ShortfallIff | components/AcademicsPage.tsx:253 | the shortfall message appears iff the shortfall is positive |
| AcademicsPage.FixtureEligibility | components/AcademicsPage.tsx:26 | at 68% the student is ineligible, the bar is 68% wide and the message says "lagging by 7%" |
| AcademicsPage.FixtureLabels | components/AcademicsPage.tsx:29-90 | the five sample assessments read 3, 2 and 5 days left, 2 days ago, and submitted; exactly the overdue-status one is overdue; its submit is disabled; the graded one shows 18/20 |
| AcademicsPage.FixturePendingFilter | components/AcademicsPage.tsx:416-422 | "Pending" lists the first four sample assessments |
| FeesModal.Toggle | components/FeesModal.tsx:36-38 | toggling flips the chosen item and leaves the others |
| FeesModal.ToggleTwice | components/FeesModal.tsx:36-38 | toggling an item twice restores the selection |
| FeesModal.Compute | components/FeesModal.tsx:41-61 | the tuition follows the full/half choice; the activity and exam fees count exactly when the bundle is selected and the language course only inside it; the academic total is the four items and the subtotal adds the fine; the payable is the subtotal less 5000, never below 0 |
| FeesModal.ScholarshipNoteIff | components/FeesModal.tsx:286-288 | the scholarship note shows iff the bundle or the fine is selected |
| FeesModal.SelectingNeverLowersTotal | components/FeesModal.tsx:48-61 | selecting one more item never lowers the payable |
| FeesModal.FullTuitionNeverCheaper | components/FeesModal.tsx:41 | paying in full is never cheaper than paying half |
| FeesModal.Examples | components/FeesModal.tsx:20-61 | everything in full pays 48550, with half tuition 26050; the fine alone is covered by the scholarship |
| FeesModal.FeesState.constructor | components/FeesModal.tsx:13 | starts paying in full with every item selected (lines 30-34) |
| FeesModal.FeesState.ToggleItem | components/FeesModal.tsx:36-38 | the selection becomes Toggle of the old one |
| FeesModal.FeesState.SetPayFullAcademic | components/FeesModal.tsx:118-124 | the Full and Half buttons set the installment choice |
| FeesModal.FeesState.Current | components/FeesModal.tsx:41-61 | the shown payable never exceeds the subtotal |
| DeadlineCard.DeadlineList | components/DeadlineCard.tsx:12-16 | the card lists the given deadline followed by the two fixed copies (CS-305 in 2 days, MATH-102 in 5) |
| DeadlineCard.TimeRemaining | components/DeadlineCard.tsx:18-23 | days iff at least 25 whole hours remain, then whole days; otherwise whole hours (negative once past), at most 24 |
| DeadlineCard.Boundaries | components/DeadlineCard.tsx:21 | exactly 24 hours reads "24 hrs", 47 hours "1 days", 48 hours "2 days" |
| DeadlineCard.PastDue | components/DeadlineCard.tsx:20 | a past deadline reads a negative number of hours |
| DeadlineCard.RenderRows | components/DeadlineCard.tsx:35-56 | one row per deadline: icon and badge colours from its urgency, its remaining-time label, and its subject reported on click |
| DeadlineCard.ToneIgnoresTime | components/DeadlineCard.tsx:41-42 | two deadlines of the same urgency get the same colours, however far apart they are due |
| DeadlineCard.ClickReportsSubject | components/DeadlineCard.tsx:38 | the rows of the card report the given subject, CS-305 and MATH-102 |
| Header.NewNotices | components/Header.tsx:18-19 | the bell lists exactly the new notices, as many as the dashboard's unread count |
| Header.NewNoticesInOrder | components/Header.tsx:18 | the new notices keep the board's order |
| Header.Bell | components/Header.tsx:87-103 | the red dot and the count badge show iff a notice is new; otherwise "No new notifications" |
| Header.AgoOfSeconds | components/Header.tsx:39-49 | the first unit, largest first, that the seconds strictly exceed, counted in whole units; "seconds" iff at most 60 |
| Header.TimeAgo | components/Header.tsx:37-38 | the elapsed whole seconds, floored, fed to the ladder |
| Header.StrictThresholds | components/Header.tsx:44-48 | a day exactly reads "24 hours ago", a second more "1 days ago"; 60 s reads "60 seconds", 61 s "1 minutes" |
| Header.TwoDaysAgo | components/Header.tsx:37-44 | a notice published two days ago reads "2 days" |
| Header.HeaderMenu.constructor | components/Header.tsx:14-16 | all three menus start closed |
| Header.HeaderMenu.OpenMobileMenu | components/Header.tsx:59 | the mobile menu opens |
| Header.HeaderMenu.ToggleNotifications | components/Header.tsx:83 | the notification dropdown toggles |
| Header.HeaderMenu.HandleNavClick | components/Header.tsx:30-35 | switches the dashboard's tab and clears the notice filter when the callback is given, leaving every other field of the dashboard unchanged, and closes the mobile menu in every case |
| LoginPage.OtpCompleteIff | components/LoginPage.tsx:68-69 | six one-character-or-empty slots join to six characters iff no slot is empty |
| LoginPage.LoginForm.constructor | components/LoginPage.tsx:9-14 | the ID step, six empty slots, no error |
| LoginPage.LoginForm.TypeStudentId | components/LoginPage.tsx:152 | the ID is stored upper-cased |
| LoginPage.LoginForm.SendOtp | components/LoginPage.tsx:17-35 | a blank ID (after trim) is refused with "Please enter your Student ID" and the step stays; otherwise the masked contact is shown and the form moves to the code step |
| LoginPage.LoginForm.OtpChange | components/LoginPage.tsx:38-50 | a value longer than one character is ignored; otherwise only its slot changes, and every slot keeps at most one character |
| LoginPage.LoginForm.TypeOtp | components/LoginPage.tsx:219 | typing stores the typed text's digits in the slot when at most one remains, and changes nothing when two or more remain |
| LoginPage.LoginForm.Paste | components/LoginPage.tsx:53-61 | the first min(6, n) pasted characters fill slots 0, 1, … in order; later slots keep their contents |
| LoginPage.LoginForm.VerifyOtp | components/LoginPage.tsx:64-82 | an empty slot gives "Please enter the complete 6-digit OTP", leaves the loading flag as it was and does not log in; six filled slots log in, whatever they hold |
| LoginPage.LoginForm.Back | components/LoginPage.tsx:85-89 | back to the ID step with empty slots and no error; the ID is kept |
| LoginPage.LoginForm.Resend | components/LoginPage.tsx:268-271 | "Resend OTP" clears only the slots |
| QuickActions.GroupIndianRoundTrip | components/QuickActions.tsx:40 | `toLocaleString('en-IN')` grouping: removing the commas gives back the digits |
| QuickActions.LocaleEnInReadsBack | components/QuickActions.tsx:40 | the grouped amount reads back as the same number |
| QuickActions.LocaleEnInExamples | components/QuickActions.tsx:40 | 45000 is "45,000", 4500000 is "45,00,000" |
| QuickActions.AcademicActions | components/QuickActions.tsx:31-54 | six actions with ids "1".."6"; attendance urgent iff below 75 and green iff at least 75; fees urgent iff due, else "All Paid ✓"; assignments urgent iff pending, else "All Done ✓"; syllabus, support and exams never urgent |
| QuickActions.DefaultActions | components/QuickActions.tsx:31 | with the defaults 45000, 3 and 85: attendance calm at "85% Overall", fees urgent at "Due: ₹45,000", assignments urgent at "3 Pending" |
| StudentProfile.Without | components/StudentProfile.tsx:161 | removes exactly the name, keeps order, and keeps the list free of repeats |
| StudentProfile.Unique | components/StudentProfile.tsx:177 | `[...new Set(s)]`: the same names, each once |
| StudentProfile.UniqueKeepsPrefix | components/StudentProfile.tsx:177 | adding names to a repeat-free list keeps that list as the prefix |
| StudentProfile.SyncedFromProfile | components/StudentProfile.tsx:52-108 | all nine seeded fields (both names, enrolment number, class, mobile, email and the three photos) start from the dashboard's profile |
| StudentProfile.CopyPermanentAddress | components/StudentProfile.tsx:169-175 | the four correspondence fields take the permanent values; every other field is kept |
| StudentProfile.BuildUpdates | components/StudentProfile.tsx:209-222 | name, phone, email and the three photos are sent iff their form field changed; the avatar is sent iff a non-empty name is, as the student photo or else the current avatar; nothing else is sent |
| StudentProfile.SubmittedProfile | components/StudentProfile.tsx:209-225 | after the merge the profile holds the form's value for each changed synchronised field and its old value for the others |
| StudentProfile.UnsyncedChangesSendNothing | components/StudentProfile.tsx:209-217 | changes only to fields the dashboard does not hold send an empty update |
| StudentProfile.ProfileEditor.constructor | components/StudentProfile.tsx:45-111 | the personal tab, the basic section open, nothing changed, the original equal to the form |
| StudentProfile.ProfileEditor.ToggleSection | components/StudentProfile.tsx:121-123 | the open section closes; any other opens |
| StudentProfile.ProfileEditor.InputChange | components/StudentProfile.tsx:148-163 | only the named field changes; the name is listed iff the value differs from the original, at most once, and no other name's listing changes |
| StudentProfile.ProfileEditor.AddressCheckbox | components/StudentProfile.tsx:165-179 | the flag follows the box; when checked, the address is copied and the four names are added once each after those already listed; unchecking changes only the flag |
| StudentProfile.ProfileEditor.FileChange | components/StudentProfile.tsx:181-198 | a read file sets the field and lists its name once; no file changes nothing |
| StudentProfile.ProfileEditor.RemovePhoto | components/StudentProfile.tsx:642 | the photo becomes null; the changed list is not touched |
| StudentProfile.ProfileEditor.Submit | components/StudentProfile.tsx:200-236 | with nothing changed the dashboard is not updated; otherwise the dashboard's profile merges BuildUpdates, success shows and the list empties |
| StudentProfile.ProfileEditor.HideSuccess | components/StudentProfile.tsx:235 | the success banner hides |
| JsRuntime.JoinSplit | components/HeroSection.tsx:41 | joining the pieces of `split` with the separator gives back the string |
| JsRuntime.SplitFirstCut | components/HeroSection.tsx:84 | a string with its first separator after `a` splits into `a` and the split of the rest |
| JsRuntime.ToNumber | components/HeroSection.tsx:15 | `Number()` is a value exactly for digit strings |
| JsRuntime.NumberOfNatToString | components/HeroSection.tsx:15 | `Number()` reads back what `${n}` wrote |
| JsRuntime.FloorDiv | components/Header.tsx:38 | `Math.floor(x / d)` is the q with q·d <= x < (q+1)·d |
| JsRuntime.CeilDiv | components/AcademicsPage.tsx:424 | `Math.ceil(x / d)` is the q with (q-1)·d < x <= q·d |
| JsRuntime.TrimEmptyIff | components/LoginPage.tsx:21 | `trim()` is empty iff the string is all whitespace |
| JsRuntime.ToUpperCase | components/LoginPage.tsx:152 | same length, each character upper-cased |
| JsRuntime.StripNonDigits | components/LoginPage.tsx:219 | `replace(/\D/g, '')` keeps exactly the digits, in order: a sublist of the input with every digit's count unchanged and no other character |

## Left out

- The AI assistant, the Gemini service, the sidebar, the bottom navigation, the digital ID and syllabus modals, JSX rendering, CSS classes and the SVG pie chart are not part of this model.
- Timers and asynchrony are left out: `setInterval`, `setTimeout`, the simulated 1500 ms delays and the `FileReader` callback. Each handler runs as one sequential step, and the clock is a parameter.
- React's batching and stale closures are left out. `StudentProfile.tsx:157` and `:192` read `changedFields` from the render scope; the model reads the current list.
- DOM focus and scroll, `window.open`, `alert` and `e.preventDefault()` are left out.
- Date formatting with `toLocaleDateString`/`toLocaleTimeString`, the greeting's clock text and the GPA trend are left out.
- Daylight-saving changes are not modelled; a day is 86400000 ms.
- AttendanceSection.Percentage: rounds the exact ratio half up. The program rounds IEEE doubles: `23 / 40 * 100` evaluates to 57.49999999999999, so `Math.round` shows 57 where the model gives 58. 46/80, 69/120 and 115/200 behave the same way, as do 29/200, 57/200 and 113/200.
- JsRuntime.ToNumber: only strings of decimal digits are modelled. Signs, decimals, exponents, hexadecimal and surrounding whitespace make the value NaN here, while `Number()` would accept them.
- JsRuntime.ToUpperCase: upper-cases ASCII letters only; JavaScript's full Unicode case mapping is not modelled.
- JsRuntime.IsJsWhitespace: covers the common whitespace characters, not every Unicode space separator.
- App.Greeting: the language code is looked up as a plain key. Inherited object keys such as `"constructor"` would behave differently in JavaScript.
- QuickActions.AcademicActions: the fees and pending counts are whole non-negative numbers, and the attendance percentage is a whole number. Fractional or negative amounts, which `toLocaleString` would also format, are not modelled, and neither is a fractional percentage such as 74.5, which the template would print as "74.5% Overall".
- LoginPage.LoginForm.Paste: a character is one Dafny `char`. `split('')` cuts UTF-16 code units, so an astral character would fill two slots in JavaScript.
- The AcademicsPage `selectedSubject` effect, which scrolls to and highlights a subject, is left out. The rest of its rendering is also left out.
- Header: the profile dropdown is left out; `isProfileOpen` is only initialised.
- Constants.UpcomingDeadlines and App.InitialNotices: the sample data is modelled without contracts. Lemmas state what it implies.
