# tutorsmart-AI: a Dafny model of the tutoring platform's core

This project models TutorSmart, a tutoring platform built as a Next.js
application. It covers:

- **Route handlers.** Booking and listing sessions, the progress report, AI
  recommendations, the mock quiz generator and its edge-function twin, the
  student list, tutor availability and the subject list.
- **Pages and components.** The role dashboard, the children page, the
  add-progress page, the sessions and progress pages, the student, tutor and
  subject management pages, the session details card, the booking dialog, the
  calendar, the availability card, the time picker, the onboarding wizard and
  the navigation bar.

Every handler is a pure function. It takes:

- the signed-in caller, or `None` when nobody is signed in;
- the parsed request body, or `None` when it does not parse;
- a `Snapshot` of the tables it reads;
- the error a query may return.

It gives back a `Response` (a status code with a body or an error message).
Handlers that write also return the table after the write.

Pages are modelled as functions from their state and the reply they receive
to their next state and the toast they show. User interactions are events
applied one at a time. Invariants are proved over whole runs:

- the booking dialog's picker cascade;
- the wizard's "every earlier step is complete".

Shared pieces are modelled once:

- `Records`: the role rule `user_metadata.role || "student"` and the per-role
  permission check.
- `Strings`: the JavaScript string functions the code calls.
- `UrlQuery`: `URLSearchParams` encoding and parsing, so that the URL a page
  builds can be followed to what the route reads back.
- `Clock`: ISO dates and `HH:mm` times.
- `Common`: `Option`, truthiness and order-keeping filters.

Notable behaviour of the code that the model keeps:

- **Quiz with only multiple choice.** With only multiple choice requested, the
  quiz route still generates `count` short-answer questions after the
  multiple-choice ones (`Quiz.MultipleChoiceOnly`).
- **Booking has no conflict check.** Booking the same slot twice succeeds
  (`SessionsApi.DoubleBookingAccepted`).
- **Parent progress without a child named.** A parent who names no child is
  asked about its own id and refused (`ProgressApi.ParentWithoutStudentIdDenied`).
- **Two spellings of "in progress".** The sessions page writes "in progress"
  and the details card writes "in_progress". The page colours only the first
  (`SessionsPage.InProgressSpellings`).
- **Dashboard button highlighting.** The Dashboard button stays highlighted
  next to every section button except Sessions (`Navbar.AvailabilityLightsTwo`).

## Model

| member | source | states |
|---|---|---|
| Records.EffectiveRole | src/app/api/sessions/route.ts:74 | a caller's role is its metadata role when that is non-empty and "student" otherwise, never empty |
| Records.PreferredName | src/app/dashboard/progress/add/page.tsx:61 | the full name when set, otherwise the name, and empty exactly when neither is set |
| Records.ChildrenOf | src/app/api/sessions/route.ts:82-101 | a student id is a parent's child exactly when a `student_parent` row links the two |
| Records.RoleCheck | src/app/api/progress/route.ts:21-60 | access is allowed exactly when a student asks for itself, a parent for a linked child, a tutor for a student it shares a session with, or the role is none of these three; each refusal names the rule that failed |
| Quiz.HalfUp | src/app/api/ai/quiz/route.ts:47 | `Math.ceil(n / 2)`: twice the result is `n` or `n + 1` |
| Quiz.BuildQuestions | src/app/api/ai/quiz/route.ts:51-74 | the two loops give `m + s` questions: the `m` multiple-choice ones in index order, then the `s` short-answer ones |
| Quiz.ComposeQuiz | src/app/api/ai/quiz/route.ts:40-74 | the quiz is titled "<topic> Quiz", carries the subject, and holds as many questions as both loops iterate |
| Quiz.QuizPost | src/app/api/ai/quiz/route.ts:11-83 | 401 without a user; 500 for an unreadable body; 400 without subject or topic, or with both types off; otherwise 200 exactly when `questionCount` is not `null` (whose `toString()` throws into the 500 catch), with the quiz for `parseInt` of the count's text (5 when absent) and the two switches, and no questions when that is `NaN` |
| Quiz.CountTextParsed | src/app/api/ai/quiz/route.ts:46 | a count sent as a number, as the same digits in a string, or as a decimal fraction gives the quiz for that integer (its integer part) |
| Quiz.NaNCountGivesEmptyQuiz | src/app/api/ai/quiz/route.ts:46-74 | a count text `parseInt` cannot read still gets 200, with a titled quiz holding no questions |
| Quiz.LettersAreNaN | src/app/api/ai/quiz/route.ts:46 | `parseInt("abc")` reads no number |
| Quiz.BothTypesSplit | src/app/api/ai/quiz/route.ts:46-74 | with both types on, exactly `count` questions: the first `ceil(count/2)` multiple choice and the rest short answer |
| Quiz.ShortAnswerOnly | src/app/api/ai/quiz/route.ts:46-74 | with only short answer on, all `count` questions are short answer |
| Quiz.MultipleChoiceOnly | src/app/api/ai/quiz/route.ts:46-74 | with only multiple choice on, the quiz holds `count + ceil(count/2)` questions, because the short-answer loop still runs `count` times |
| Quiz.DefaultsGiveThreePlusTwo | src/app/api/ai/quiz/route.ts:15-21 | a body with only subject and topic gets 3 multiple-choice then 2 short-answer questions |
| Quiz.NegativeCountIsEmpty | src/app/api/ai/quiz/route.ts:46-74 | a negative count runs neither loop |
| Quiz.MultipleChoiceFirst | src/app/api/ai/quiz/route.ts:50-74 | no multiple-choice question follows a short-answer one |
| Quiz.ChoicesAreFixed | src/app/api/ai/quiz/route.ts:56-62 | every multiple-choice question offers options a, b, c, d and expects "b" |
| Quiz.QuestionIdsDistinct | src/app/api/ai/quiz/route.ts:53-69 | the generated question ids `mc-i` and `sa-i` are pairwise distinct |
| QuizEdge.Failure | src/app/api/ai/edge-functions/generate-quiz/index.ts:116-127 | the catch block answers 500 with the JSON and CORS headers |
| QuizEdge.Serve | src/app/api/ai/edge-functions/generate-quiz/index.ts:21-128 | a pre-flight gets "ok" with the CORS headers; an unreadable body gets 500; every reply allows any origin; the status is 200, 400 or 500, and a 200 to a POST carries a quiz |
| QuizEdge.SameQuizAsRoute | src/app/api/ai/edge-functions/generate-quiz/index.ts:33-115 | for a signed-in caller the edge function and the route give the same status, and on success the same quiz |
| QuizEdge.LevelIsIgnored | src/app/api/ai/edge-functions/generate-quiz/index.ts:40 | the student level never changes the reply |
| SessionsApi.CreateSession | src/app/api/sessions/route.ts:4-60 | 401 without a user; 400 when a required field is missing; an explicit `null` duration always fails the insert with 500, because the column is a non-null number; otherwise a stored row (caller as student, duration defaulting to 60 only when absent, status "scheduled") is returned with 201 and appended exactly when the insert succeeds; a failed request leaves the table unchanged |
| SessionsApi.CreateIgnoresTableAndRole | src/app/api/sessions/route.ts:25-45 | the reply to a booking depends on neither the caller's role nor the existing sessions |
| SessionsApi.CreatedSessionListed | src/app/api/sessions/route.ts:33-52 | a booked session is then listed, unfiltered, to the student who booked it and to the tutor it names |
| SessionsApi.DoubleBookingAccepted | src/app/api/sessions/route.ts:25-52 | the same tutor, date and time can be booked twice in a row |
| SessionsApi.DateTimeLeqTotal | src/app/api/sessions/route.ts:120 | the ordering by date then start time compares every two rows |
| SessionsApi.InsertByDateTime | src/app/api/sessions/route.ts:120 | inserting into a sorted list keeps it sorted and adds exactly one copy of the row |
| SessionsApi.SortByDateTime | src/app/api/sessions/route.ts:120 | the result is sorted by date then start time and is a permutation of the input |
| SessionsApi.ListSessions | src/app/api/sessions/route.ts:62-137 | 401 without a user; a parent with no children gets an empty list; a failed query gets 500 with its message; a 200 list is sorted and holds exactly the rows the role may see that match status and date bounds |
| SessionsApi.ListedRows | src/app/api/sessions/route.ts:82-117 | a row is listed exactly when the caller's role lets it see it and it matches the query |
| SessionsApi.MissingRoleMeansStudent | src/app/api/sessions/route.ts:74-86 | a caller with no metadata role sees only sessions where it is the student |
| SessionsApi.AdminSeesEverySelectedRow | src/app/api/sessions/route.ts:82-101 | an admin is not narrowed by ownership: every row matching the query is listed |
| ProgressApi.TargetStudent | src/app/api/progress/route.ts:16 | the report is about `student_id` when it is given and about the caller otherwise |
| ProgressApi.GetProgress | src/app/api/progress/route.ts:11-114 | 401 without a user; for each role the reply is 200 exactly when the role check passes and 403 with that role's message otherwise; a 200 reply reports the requested student |
| ProgressApi.SubjectAndTimeframeIgnored | src/app/api/progress/route.ts:17-18 | requests differing only in subject or timeframe get the same reply |
| ProgressApi.ParentWithoutStudentIdDenied | src/app/api/progress/route.ts:16-43 | a parent naming no student is refused as not its child |
| ProgressApi.StudentCannotSeeOthers | src/app/api/progress/route.ts:22-27 | a student naming someone else is refused, whatever the tables hold |
| RecommendationsApi.Recommend | src/app/api/ai/recommendations/route.ts:11-111 | 401 without a user; 500 for an unreadable body; 400 without a subject; a request about oneself is always served; a request about another student is served exactly when the role check passes, with 403 otherwise; a 200 reply is the sample list, each entry with its title, type, description and link |
| RecommendationsApi.SubjectCheckedFirst | src/app/api/ai/recommendations/route.ts:18-34 | a missing subject is reported before a permission refusal |
| RecommendationsApi.OwnRequestAlwaysServed | src/app/api/ai/recommendations/route.ts:26 | every role is served when it names no student or itself |
| RecommendationsApi.SampleIdsDistinct | src/app/api/ai/recommendations/route.ts:72-103 | the sample list has four entries with ids 1 to 4 |
| StudentsApi.TutorStudents | src/app/api/students/route.ts:26-40 | the de-duplicated student ids of a tutor's sessions: exactly the students sharing a session with the tutor, each once |
| StudentsApi.InAllConcat | src/app/api/students/route.ts:20-89 | an id passes a chain of narrowings exactly when it passes both parts |
| StudentsApi.InAllWhen | src/app/api/students/route.ts:26-89 | a narrowing applied only under a condition admits everything when the condition is false |
| StudentsApi.NarrowingsAdmit | src/app/api/students/route.ts:20-89 | the chained `.in("id", …)` narrowings admit exactly the ids allowed by the caller's own links and by the `tutor_id` and `parent_id` parameters |
| StudentsApi.ListStudents | src/app/api/students/route.ts:9-107 | 401 without a user; otherwise 200 with exactly the student rows the narrowings admit, in snapshot order (the query has no `.order()`), or 500 with the query's message |
| StudentsApi.UnnarrowedRolesSeeAllStudents | src/app/api/students/route.ts:26-57 | without parameters, a caller that is neither tutor nor parent sees every student row |
| StudentsApi.TutorSeesOwnStudents | src/app/api/students/route.ts:26-40 | a tutor's own list holds only students it shares a session with |
| StudentsApi.ParentMayAskForOtherParent | src/app/api/students/route.ts:43-89 | a parent may pass another parent's id and then sees exactly that other parent's linked children, with no link to the caller checked |
| AvailabilityApi.GetAvailability | src/app/api/tutors/availability/route.ts:11-57 | 401 without a user; 400 without `tutorId`; 500 with the first failing query's message; otherwise 200 with the tutor's slots and exactly its sessions dated today or later |
| AvailabilityApi.Upcoming | src/app/api/tutors/availability/route.ts:40-44 | a session is upcoming exactly when it belongs to the tutor and is dated today or later |
| AvailabilityApi.BookedMembers | src/app/api/tutors/availability/route.ts:40-57 | an entry is booked exactly when some upcoming session of the tutor has its date, start and duration |
| AvailabilityApi.BookedSound | src/app/api/tutors/availability/route.ts:40-44 | every booked entry comes from an upcoming session of the tutor |
| AvailabilityApi.BookedComplete | src/app/api/tutors/availability/route.ts:40-44 | every upcoming session of the tutor is booked |
| AvailabilityApi.TodayCountsAsUpcoming | src/app/api/tutors/availability/route.ts:44 | a session dated today is upcoming and one dated earlier is not |
| AvailabilityApi.PostAvailability | src/app/api/tutors/availability/route.ts:66-119 | 401 without a user; 403 for every role but tutor, before the body is read; 400 when the day is undefined or a time is empty; otherwise the slot is stored for the caller and returned with 201, unless the insert fails; a failed request leaves the table unchanged |
| AvailabilityApi.DayChecks | src/app/api/tutors/availability/route.ts:90 | the route's own check accepts day 0 and refuses an undefined day; an explicit `null` day passes that check and reaches the insert |
| AvailabilityApi.RoleCheckedBeforeBody | src/app/api/tutors/availability/route.ts:79-87 | a non-tutor is refused with 403 even when its body cannot be read |
| AvailabilityApi.PostedSlotListed | src/app/api/tutors/availability/route.ts:99-115 | a slot a tutor stores is then returned for that tutor's id, together with the tutor's earlier slots |
| SubjectsApi.ListSubjects | src/app/api/subjects/route.ts:11-27 | 401 without a user; otherwise 200 with the fixed subjects, each with its name as id |
| SubjectsApi.ListedIdsDistinct | src/app/api/subjects/route.ts:17-27 | the listed subject ids are pairwise distinct |
| SubjectsApi.CreateSubject | src/app/api/subjects/route.ts:40-78 | 401 without a user; 403 for every role but admin; 400 without a name; otherwise 201 echoing the request, with the name as id |
| SubjectsApi.MissingRoleCannotCreate | src/app/api/subjects/route.ts:49-55 | a caller with no metadata role counts as a student and is refused |
| Pages.PanelFor | src/app/dashboard/page.tsx:37-40 | a panel is embedded exactly for the four known roles |
| Pages.PanelForInjective | src/app/dashboard/page.tsx:37-40 | different roles get different panels |
| Pages.Dashboard | src/app/dashboard/page.tsx:18-40 | signed-out visitors are sent to sign-in; others see "<Role> Dashboard" and their role's panel |
| Pages.MissingRoleGetsStudentDashboard | src/app/dashboard/page.tsx:23-40 | a user with no metadata role gets the student dashboard |
| Pages.UnknownRoleGetsNoPanel | src/app/dashboard/page.tsx:32-40 | an unknown role gets a capitalised title and no panel |
| Pages.ChildrenPage | src/app/dashboard/children/page.tsx:22-62 | signed-out visitors go to sign-in, non-parents to the dashboard, and a parent sees the list for its own id |
| Pages.SingleUser | src/app/dashboard/progress/add/page.tsx:52-58 | `.single()` yields a user with that id only when exactly one row matches |
| Pages.DuplicateIdMatchesTwice | src/app/dashboard/progress/add/page.tsx:58 | two rows with the same id make the lookup come back empty |
| Pages.AddProgressPage | src/app/dashboard/progress/add/page.tsx:24-74 | only tutors and admins get the page; a tutor naming no student, or naming one it shares a session with when the lookup succeeds, gets it, and a tutor naming any other student goes back to the dashboard; the heading names the student only when one row matches |
| Pages.OnlyTutorsAndAdminsAddProgress | src/app/dashboard/progress/add/page.tsx:29-34 | students and parents are always sent back to the dashboard |
| Pages.AddProgressAgreesWithProgressRoute | src/app/dashboard/progress/add/page.tsx:29-48 | a tutor or admin may open the page for a student exactly when the progress route would show that student's report |
| Pages.ChildrenPageMatchesDashboard | src/app/dashboard/children/page.tsx:22-36 | the children page opens for exactly the callers whose dashboard embeds the parent panel |
| SessionDetails.StatusBadge | src/components/session-details.tsx:240-273 | an unknown status is shown as itself in grey |
| SessionDetails.KnownStatusesDistinct | src/components/session-details.tsx:240-273 | the four known statuses have four different colours, none grey |
| SessionDetails.ShortId | src/components/session-details.tsx:283-285 | the short id is the first eight characters of the id, or all of a shorter id |
| SessionDetails.View | src/components/session-details.tsx:209-346 | a missing session shows "not found"; a loaded one shows its subject title, the first eight characters of its id, its badge, the counterpart for the role (the student for a tutor, the tutor otherwise) and its notes or "No notes provided"; actions appear only for a scheduled session, and the complete button only for a tutor |
| SessionDetails.CancelledNotesKeepHistory | src/components/session-details.tsx:110 | the previous notes stay as a prefix and the new notes end with the reason |
| SessionDetails.Cancel | src/components/session-details.tsx:93-150 | a reason that `trim()` empties is refused without touching the row; a failed update changes nothing; otherwise the row is cancelled with the notes and the card shows the row read back, or the old one when the re-read fails |
| SessionDetails.WhitespaceReasonRejected | src/components/session-details.tsx:94-101 | a reason made only of characters `trim()` removes (ASCII white space, line terminators, the no-break, ideographic and other Unicode spaces, the byte-order mark) leaves card and row unchanged and shows the "reason required" error |
| SessionDetails.Complete | src/components/session-details.tsx:152-198 | a failed update changes nothing; otherwise the row is marked completed |
| SessionDetails.CompleteIdempotent | src/components/session-details.tsx:156-161 | completing twice stores the same row as completing once |
| SessionDetails.StaleCardAfterFailedRefetch | src/components/session-details.tsx:173-187 | after a failed re-read the card still says "scheduled" although the row is completed |
| SessionsPage.BareUrlIffNoFilter | src/app/dashboard/sessions/page.tsx:57-74 | the request has no query exactly when no filter is set |
| SessionsPage.GetParams | src/app/dashboard/sessions/page.tsx:57-74 | each filter is found under its own parameter name, and only when set |
| SessionsPage.FiltersReachServer | src/app/dashboard/sessions/page.tsx:57-79 | the route reads back exactly the status and the formatted date bounds the page holds |
| SessionsPage.FromBound | src/app/dashboard/sessions/page.tsx:64-66 | comparing formatted dates as text agrees with comparing the days |
| SessionsPage.ToBound | src/app/dashboard/sessions/page.tsx:68-70 | comparing formatted dates as text agrees with comparing the days |
| SessionsPage.DateRangeIsChronological | src/app/dashboard/sessions/page.tsx:57-74 | the route keeps a row exactly when its status matches and its day lies within the picked range, as calendar days |
| SessionsPage.Load | src/app/dashboard/sessions/page.tsx:79-90 | a good reply replaces the rows; an error keeps them and shows a destructive toast |
| SessionsPage.ChangeStatus | src/app/dashboard/sessions/page.tsx:96-133 | the table keeps its length and each row's id; on success every row with the id shows the new status and every other row is one of the old rows; on failure the rows stay and an error toast shows |
| SessionsPage.ChangeStatusFacts | src/app/dashboard/sessions/page.tsx:110-116 | after a change every row with the id has the new status and every other row was already there |
| SessionsPage.BadgeClass | src/app/dashboard/sessions/page.tsx:135-148 | an unknown status gets the grey badge |
| SessionsPage.BadgeClassIgnoresCase | src/app/dashboard/sessions/page.tsx:135-148 | the badge depends only on the lower-cased status |
| SessionsPage.InProgressSpellings | src/app/dashboard/sessions/page.tsx:135-172 | "In Progress" is yellow but the stored "in_progress" is grey |
| SessionsPage.TutorName | src/app/dashboard/sessions/page.tsx:265-267 | the tutor's preferred name, or "Unknown"; never empty |
| SessionsPage.Row | src/app/dashboard/sessions/page.tsx:253-309 | the row offers actions exactly for a scheduled session, and shows its duration in minutes and a non-empty tutor name |
| SessionsPage.Content | src/app/dashboard/sessions/page.tsx:235-320 | a spinner while loading; a table with one row per session; the empty notice exactly when loading is done and there are no sessions |
| SessionsPage.CompletedRowHasNoActions | src/app/dashboard/sessions/page.tsx:278-309 | a row marked completed loses its action buttons |
| SessionsPage.PageShowsListedSessions | src/app/dashboard/sessions/page.tsx:57-90 | after the list request for the page's filters, the page holds exactly the sessions the route lets the caller see that match them, one table row each, and the empty notice exactly when there is none |
| ProgressPage.FetchUrl | src/app/dashboard/progress/page.tsx:56-71 | the request always carries a query, because the timeframe is always appended |
| ProgressPage.GetParams | src/app/dashboard/progress/page.tsx:57-67 | the student, subject and timeframe are each found under their own name, and only when present |
| ProgressPage.ViewReachesServer | src/app/dashboard/progress/page.tsx:56-73 | the route reads back the page's student (a blank one is dropped), the subject unless it is "all", and the timeframe |
| ProgressPage.ReportIsForShownStudent | src/app/dashboard/progress/page.tsx:24-77 | a report the route sends is about the student the page names, or about the caller |
| ProgressPage.SelectsDoNotChangeReply | src/app/dashboard/progress/page.tsx:48-50 | changing either select refetches the same reply |
| ProgressPage.Load | src/app/dashboard/progress/page.tsx:76-87 | a good reply is shown; an error keeps the old data and shows the route's message, or "Failed to fetch progress data"; once loading is over, a report is on screen exactly when this reply or an earlier one carried one |
| ProgressPage.OpenedFromStudentList | src/app/dashboard/progress/page.tsx:24-113 | a tutor opening a student's progress from the student list sees "Student Progress" and that student's report |
| UrlQuery.FormDecodeEncode | src/app/dashboard/progress/page.tsx:57-70 | decoding an encoded parameter text gives it back |
| UrlQuery.ParseQueryString | src/app/dashboard/progress/page.tsx:57-70 | parsing the query `URLSearchParams` builds gives back the appended pairs |
| UrlQuery.QueryOfWithQuery | src/app/dashboard/progress/page.tsx:69-71 | the query part of the built URL is exactly the parameter string |
| Booking.FilteredTutors | src/components/session-booking-modal.tsx:68-70 | no subject offers no tutors; otherwise exactly the tutors teaching the parsed subject id, in list order |
| Booking.TutorsForSubjectId | src/components/session-booking-modal.tsx:68-70 | choosing subject `id` offers exactly the tutors whose list holds `id` |
| Booking.ChooseSubject | src/components/session-booking-modal.tsx:109-115 | the subject select reads back the picked id through `parseInt`; the tutor, date, time and the dialog's `open` flag are kept |
| Booking.ChooseTutor | src/components/session-booking-modal.tsx:125 | only the tutor can change, only once a subject is set, and then it reads back the picked id; the picker cascade is kept |
| Booking.ChooseDate | src/components/session-booking-modal.tsx:153-167 | the date changes only once a tutor is set, and never to a day before today |
| Booking.ChooseTime | src/components/session-booking-modal.tsx:175 | only the time can change, and only once a date is set; the picker cascade is kept |
| Booking.Book | src/components/session-booking-modal.tsx:72-92 | with all four fields set, booking closes the dialog and disables every picker past the subject; afterwards the button is always disabled, and a disabled button changes nothing |
| Booking.ApplyKeepsCascade | src/components/session-booking-modal.tsx:125-175 | no action sets a tutor without a subject or a date without a tutor |
| Booking.RunKeepsCascade | src/components/session-booking-modal.tsx:125-175 | every run of actions keeps that cascade |
| Booking.InitialCascade | src/components/session-booking-modal.tsx:192 | the empty dialog satisfies the cascade and cannot book |
| Booking.StaleTutorKept | src/components/session-booking-modal.tsx:109-125 | changing the subject keeps a tutor who may not teach it, and booking stays enabled |
| Booking.BookClears | src/components/session-booking-modal.tsx:82-88 | after booking, the button is disabled and a second press changes nothing |
| Calendar.Visible | src/components/scheduling/calendar-view.tsx:85-89 | a student sees the current student's sessions, a tutor the current tutor's, every other role all of them, in order |
| Calendar.WeekDay | src/components/scheduling/calendar-view.tsx:93 | `getDay()` lies between 0 and 6 |
| Calendar.MondayOf | src/components/scheduling/calendar-view.tsx:93-95 | the week starts on a Monday at most six days back, and a day is six days after it exactly when it is a Sunday |
| Calendar.WeekDates | src/components/scheduling/calendar-view.tsx:92-105 | seven consecutive days from a Monday that contain the selected day, a Sunday being the last |
| Calendar.WeekRunsMondayToSunday | src/components/scheduling/calendar-view.tsx:92-105 | the i-th day of the week has weekday `(i + 1) % 7` |
| Calendar.WeekOfItsDays | src/components/scheduling/calendar-view.tsx:92-105 | every day of a week has that same week |
| Calendar.SameWeekIffSameMonday | src/components/scheduling/calendar-view.tsx:92-105 | a day lies in another day's week exactly when the two have the same Monday |
| Calendar.Next | src/components/scheduling/calendar-view.tsx:148-158 | "next" moves one day in the day view and seven in the week view |
| Calendar.Previous | src/components/scheduling/calendar-view.tsx:136-146 | "previous" moves one day back in the day view and seven in the week view |
| Calendar.NavigationUndoes | src/components/scheduling/calendar-view.tsx:136-158 | the two arrows undo each other |
| Calendar.WeekStepShiftsWeek | src/components/scheduling/calendar-view.tsx:148-158 | a week step keeps the weekday and moves every day of the week by seven |
| Calendar.SundayStepsIntoNextWeek | src/components/scheduling/calendar-view.tsx:94-158 | a day step from a Sunday lands on the next week's Monday |
| Calendar.TimeSlotsEnds | src/components/scheduling/calendar-view.tsx:110-114 | the grid has 24 cells, from 8 on the hour to 19 at half past |
| Calendar.EndTexts | src/components/scheduling/calendar-view.tsx:112-113 | those cells read "8:00" and "19:30", the hour unpadded |
| Calendar.TimeSlotsContents | src/components/scheduling/calendar-view.tsx:110-114 | a text is a grid cell exactly when it is an hour from 8 to 19 on the hour or at half past |
| Calendar.ParseSlot | src/components/scheduling/calendar-view.tsx:125 | the hour and minute read from a cell are never negative |
| Calendar.ParseSlotText | src/components/scheduling/calendar-view.tsx:112-125 | reading a cell back gives the hour and minute it was written from |
| Calendar.FindAt | src/components/scheduling/calendar-view.tsx:126-132 | the first session in the cell, or nothing exactly when no session is in it |
| Calendar.CellFindsItsSession | src/components/scheduling/calendar-view.tsx:124-133 | a cell finds a session exactly when one starts on that day at that hour and minute |
| Calendar.OffGridNeverShown | src/components/scheduling/calendar-view.tsx:110-133 | a session starting off the half-hour grid appears in no cell |
| Calendar.SessionsForDate | src/components/scheduling/calendar-view.tsx:117-121 | exactly the sessions on that day, in order |
| Calendar.CellSessionListedForDay | src/components/scheduling/calendar-view.tsx:117-133 | a session shown in a cell is also listed for its day |
| TimePicker.Minutes | src/components/ui/time-picker.tsx:46-52 | the minute options of an hour start at 0, stay below 60 and increase |
| TimePicker.TimesMembers | src/components/ui/time-picker.tsx:43-53 | the generated times are exactly the hours in range combined with the interval's minutes |
| TimePicker.TimesLength | src/components/ui/time-picker.tsx:43-53 | there are hours times minute options of them |
| TimePicker.TimesOrdered | src/components/ui/time-picker.tsx:43-53 | the times strictly increase |
| TimePicker.GenerateLength | src/components/ui/time-picker.tsx:43-53 | the option count is the number of hours times the options per hour |
| TimePicker.GenerateContents | src/components/ui/time-picker.tsx:43-53 | an option is generated exactly when it is the `HH:mm` of an hour in range and an allowed minute |
| TimePicker.Slots | src/components/ui/time-picker.tsx:39-55 | a non-empty `timeSlots` prop is used as given; otherwise hours times minute options, containing the `HH:mm` of every hour in range with every allowed minute, and strictly increasing for two-digit hours |
| TimePicker.GenerateIncreasing | src/components/ui/time-picker.tsx:43-53 | for two-digit hours the generated options strictly increase as text, so none repeats |
| TimePicker.LastMinute | src/components/ui/time-picker.tsx:46-52 | the last minute option of an hour |
| TimePicker.GenerateFirst | src/components/ui/time-picker.tsx:43-53 | the first option is the start hour on the hour |
| TimePicker.GenerateLast | src/components/ui/time-picker.tsx:43-53 | the last option is the last minute option of the hour before the end |
| TimePicker.DefaultSlotCount | src/components/ui/time-picker.tsx:34-36 | with the default props the picker offers 24 options |
| TimePicker.DefaultSlotEnds | src/components/ui/time-picker.tsx:34-53 | with the default props the options run from 08:00 to 19:30 |
| TimePicker.DefaultLabels | src/components/ui/time-picker.tsx:47-51 | the first and last default options read "08:00" and "19:30" |
| TutorAvailability.OptionsAreHalfHourPicker | src/components/scheduling/tutor-availability.tsx:61-66 | the card's own option loop gives exactly what the time picker generates at a 30-minute interval |
| TutorAvailability.OptionsCount | src/components/scheduling/tutor-availability.tsx:61-66 | two options per hour |
| TutorAvailability.OptionsFirst | src/components/scheduling/tutor-availability.tsx:61-66 | the first option is the first hour on the hour |
| TutorAvailability.OptionsLast | src/components/scheduling/tutor-availability.tsx:61-66 | the last option is half past the last hour |
| TutorAvailability.TimeOptionsIncreasing | src/components/scheduling/tutor-availability.tsx:61-66 | the options strictly increase |
| TutorAvailability.TimeOptionsFacts | src/components/scheduling/tutor-availability.tsx:61-66 | the card offers 24 increasing options from 08:00 to 19:30 |
| TutorAvailability.AddSlot | src/components/scheduling/tutor-availability.tsx:68-95 | a slot is appended exactly when all three fields are set and the start is before the end; otherwise the list is kept and an error toast names the problem |
| TutorAvailability.AddFollowsTimeOrder | src/components/scheduling/tutor-availability.tsx:78-84 | for padded times the text check is the time order: a slot is added exactly when its start time is earlier |
| TutorAvailability.DuplicateWindowAccepted | src/components/scheduling/tutor-availability.tsx:68-95 | the same window can be added twice |
| TutorAvailability.RemoveSlot | src/components/scheduling/tutor-availability.tsx:97-98 | every slot with the id goes, the others stay in order, and the "Time slot removed" toast shows |
| TutorAvailability.RemoveUndoesAdd | src/components/scheduling/tutor-availability.tsx:68-98 | removing a freshly added slot restores the list |
| TutorOnboarding.Input | src/components/admin/tutor-onboarding.tsx:74-79 | the edited input reads back the typed text; every other input, both lists and the document flags keep their values |
| TutorOnboarding.Toggle | src/components/admin/tutor-onboarding.tsx:81-97 | an absent item is appended; a present item is removed everywhere; no other item's membership changes |
| TutorOnboarding.ToggleTwice | src/components/admin/tutor-onboarding.tsx:81-97 | toggling twice restores membership, and restores the list itself for an absent item |
| TutorOnboarding.ToggleKeepsDistinct | src/components/admin/tutor-onboarding.tsx:81-97 | a list without repeats stays without repeats |
| TutorOnboarding.ToggleDocument | src/components/admin/tutor-onboarding.tsx:99-107 | the named flag reads back negated and the other two keep their values |
| TutorOnboarding.ToggleDocumentInvolution | src/components/admin/tutor-onboarding.tsx:99-107 | flipping a flag always changes the documents, and flipping it twice restores them |
| TutorOnboarding.ValidationToast | src/components/admin/tutor-onboarding.tsx:109-144 | a step shows a "Missing information" error exactly when it is incomplete |
| TutorOnboarding.Next | src/components/admin/tutor-onboarding.tsx:146-150 | the step advances by one exactly when `validateStep` shows no toast, and otherwise nothing changes; the form is untouched; pressing the shown button keeps the wizard consistent |
| TutorOnboarding.Previous | src/components/admin/tutor-onboarding.tsx:152-154 | the form is untouched and the step goes back; on a consistent wizard past step 1 the result is consistent and "Next" returns to where it was |
| TutorOnboarding.PreviousUndoesNext | src/components/admin/tutor-onboarding.tsx:146-154 | "Previous" undoes a successful "Next" |
| TutorOnboarding.Submit | src/components/admin/tutor-onboarding.tsx:156-196 | a tutor is handed over exactly when `validateStep` shows no toast, as a pending record of the form with the given id and date, and the wizard starts over; otherwise nothing changes; on a consistent wizard the shown submit button always succeeds |
| TutorOnboarding.StartConsistent | src/components/admin/tutor-onboarding.tsx:37-47 | the wizard starts on step 1 with nothing to check |
| TutorOnboarding.ApplyKeepsConsistent | src/components/admin/tutor-onboarding.tsx:444-465 | every event keeps the step between 1 and 4 with all earlier steps complete |
| TutorOnboarding.SubmittedTutorComplete | src/components/admin/tutor-onboarding.tsx:156-177 | a tutor handed over has every required detail, a subject and an availability option, and is pending |
| TutorOnboarding.RunKeepsConsistent | src/components/admin/tutor-onboarding.tsx:146-196 | any run of events keeps that invariant, so the step never leaves 1 to 4 |
| TutorsPage.Filtered | src/app/dashboard/tutors/page.tsx:129-142 | the list throws exactly when some tutor has no name; otherwise it holds exactly the tutors matching search, status and subject, in order |
| TutorsPage.DefaultFiltersShowAll | src/app/dashboard/tutors/page.tsx:31-33 | with the initial filters every named tutor is listed |
| TutorsPage.BadgeClass | src/app/dashboard/tutors/page.tsx:116-127 | "inactive" and unknown statuses are grey |
| TutorsPage.BadgeClassIgnoresCase | src/app/dashboard/tutors/page.tsx:117 | the badge depends only on the lower-cased status |
| TutorsPage.AddAsWritten | src/app/dashboard/tutors/page.tsx:111-114 | the list keeps its tutors and gains one entry with id `length + 1` and no `name`, after which the list view throws for every filter |
| TutorsPage.OnboardedTutorBreaksFilter | src/app/dashboard/tutors/page.tsx:111-132 | after any onboarding, the list view throws whatever the filters |
| TutorsPage.Add | src/app/dashboard/tutors/page.tsx:111-114 | the list keeps its tutors and gains the entry with id `length + 1` named by the full name; every filter that worked before still works |
| TutorsPage.AddKeepsFilterWorking | src/app/dashboard/tutors/page.tsx:111-142 | after the corrected add the list view still works |
| TutorsPage.AddedTutorListed | src/app/dashboard/tutors/page.tsx:111-142 | the new tutor is listed under the initial filters |
| TutorsPage.AddedTutorFound | src/app/dashboard/tutors/page.tsx:129-142 | a pending new tutor is found by its own name under the "pending" filter |
| TutorsPage.AddKeepsSequentialIds | src/app/dashboard/tutors/page.tsx:112 | when tutors are only ever added, ids stay 1, 2, … and the new id is not taken |
| TutorsPage.MockIdsSequential | src/app/dashboard/tutors/page.tsx:37-104 | the built-in tutors have ids 1 to 5 in order |
| StudentsPage.Filtered | src/app/dashboard/students/page.tsx:121-133 | exactly the students matching search, grade and subject, in order |
| StudentsPage.DefaultFiltersShowAll | src/app/dashboard/students/page.tsx:121-133 | with the initial filters every student is listed |
| StudentsPage.SubjectIgnoresCase | src/app/dashboard/students/page.tsx:126-130 | the subject filter ignores case |
| StudentsPage.GradeIsExact | src/app/dashboard/students/page.tsx:125-130 | the grade filter does not ignore case, unlike the subject filter |
| StudentsPage.ProgressLinkCarriesId | src/app/dashboard/students/page.tsx:249-251 | the progress page opened from the list reads back the student's id |
| StudentsPage.ProgressLinkIsQuery | src/app/dashboard/students/page.tsx:250 | the hand-written link equals the URL `URLSearchParams` would build |
| SubjectManagement.JsMax | src/components/admin/subject-management.tsx:124 | `Math.max` is -Infinity for no ids, NaN when some id is not a number, and otherwise the largest id |
| SubjectManagement.NextIdAsWritten | src/components/admin/subject-management.tsx:123-125 | an empty list gives "-Infinity" and an id that is not a number gives "NaN" |
| SubjectManagement.MaxId | src/components/admin/subject-management.tsx:124 | at least 0 and every numeric id at most it |
| SubjectManagement.NextId | src/components/admin/subject-management.tsx:123-125 | the new id is held by no existing subject |
| SubjectManagement.NextIdAgrees | src/components/admin/subject-management.tsx:123-125 | on a non-empty list of numeric ids the corrected id is the one the code computes |
| SubjectManagement.MaxIdAttained | src/components/admin/subject-management.tsx:124 | the maximum is 0 or some subject's id |
| SubjectManagement.Merge | src/components/admin/subject-management.tsx:105-114 | the id and both counts stay; a draft holding the subject's own fields gives the subject back unchanged |
| SubjectManagement.Save | src/components/admin/subject-management.tsx:92-148 | no name: error and nothing changes; editing: the subjects with that id are merged and the others stay; adding: one subject with a fresh id is appended; afterwards the dialog is reset and closed |
| SubjectManagement.Delete | src/components/admin/subject-management.tsx:160-161 | exactly the subjects with another id stay, in order, and the "Subject deleted successfully" toast shows |
| SubjectManagement.OpenAdd | src/components/admin/subject-management.tsx:185-188 | the header's "Add Subject" trigger opens the dialog on an empty draft, the list unchanged and no subject being edited |
| SubjectManagement.OpenAddThenSaveAppends | src/components/admin/subject-management.tsx:92-188 | after the header's "Add Subject", even following an abandoned edit, saving a named draft appends one subject with a fresh id instead of updating the old one |
| SubjectManagement.CloseDialog | src/components/admin/subject-management.tsx:243-245 | "Cancel" or dismissing closes the dialog and keeps the list, the draft and the subject being edited |
| SubjectManagement.OpenAddEmptyState | src/components/admin/subject-management.tsx:330-334 | the empty list's "Add Subject" only opens the dialog, keeping the list, the draft and the subject being edited |
| SubjectManagement.EmptyStateAddAfterCancelLosesSubject | src/components/admin/subject-management.tsx:92-121 | edit, cancel, delete the last subject and add through the empty list's button: the save updates an empty list, so nothing is added while the update toast shows; the header's trigger would have appended |
| SubjectManagement.Search | src/components/admin/subject-management.tsx:168-170 | exactly the subjects whose name contains the query, ignoring case, in order |
| SubjectManagement.EmptySearchShowsAll | src/components/admin/subject-management.tsx:168-170 | an empty search shows every subject |
| SubjectManagement.DeleteUndoesAdd | src/components/admin/subject-management.tsx:123-161 | deleting the subject just added restores the list |
| SubjectManagement.EditThenSaveKeeps | src/components/admin/subject-management.tsx:102-158 | opening a subject and saving it unchanged leaves the list as it was when ids are unique |
| SubjectManagement.RepeatedIdAfterEmptying | src/components/admin/subject-management.tsx:123-125 | after the list is emptied, the first add gets id "-Infinity" and the next two both get "NaN" |
| SubjectsPage.Enhance | src/app/dashboard/subjects/page.tsx:62-67 | one row per subject keeping id and name, a non-empty level, 5 to 19 tutors and 20 to 69 students |
| SubjectsPage.RouteSubjectsShowAllLevels | src/app/dashboard/subjects/page.tsx:54-68 | every subject the route lists is shown as "All Levels", with its name as id |
| SubjectsPage.Load | src/app/dashboard/subjects/page.tsx:54-82 | a good reply replaces the rows; an error keeps them and shows a destructive toast |
| SubjectsPage.Create | src/app/dashboard/subjects/page.tsx:84-127 | no name: error and nothing sent; otherwise the draft is posted, and on success the dialog resets, closes and the list reloads, on failure the dialog stays |
| SubjectsPage.CreateAgainstRoute | src/app/dashboard/subjects/page.tsx:84-116 | against the route, an admin's draft is created with its level and the dialog resets; anyone else keeps the dialog and sees the refusal |
| SubjectsPage.Search | src/app/dashboard/subjects/page.tsx:129-131 | exactly the rows whose name contains the query, ignoring case, in order |
| SubjectsPage.EmptySearchShowsAll | src/app/dashboard/subjects/page.tsx:129-131 | an empty search shows every row |
| SubjectsPage.SearchIgnoresQueryCase | src/app/dashboard/subjects/page.tsx:129-131 | the search ignores the case of the query |
| Navbar.ActiveMeansPrefix | src/components/dashboard-navbar.tsx:31-33 | an active path starts with the button's path, and a sibling such as "/dashboardx" is not active |
| Navbar.OwnPageHighlighted | src/components/dashboard-navbar.tsx:43-93 | each button is highlighted on its own page |
| Navbar.DashboardExcludesSessions | src/components/dashboard-navbar.tsx:45-58 | Dashboard and Sessions are never highlighted together |
| Navbar.DashboardLitBelow | src/components/dashboard-navbar.tsx:45-49 | every page below "/dashboard/" except the sessions pages keeps Dashboard highlighted |
| Navbar.AvailabilityLightsTwo | src/components/dashboard-navbar.tsx:45-69 | on the availability page two buttons are highlighted |
| Navbar.SectionsExclusive | src/components/dashboard-navbar.tsx:58-88 | at most one of the four section buttons is highlighted |

## Left out

- Network and database I/O. Each query is an input (`Snapshot`, a possible error message). A failed lookup that the code reads as "no rows" is modelled as an empty table.
- Sign-in, cookies and Supabase clients. The signed-in user is a parameter.
- The catch blocks of fetches that fail in the network. A page's error toast is modelled from an error reply only. The progress page's "Failed to load progress data" fallback for a thrown fetch is not modelled.
- The progress route's catch block. The handler has no other failing step in the model.
- `Math.random` and the clock. Random ids, the subject page's random counts and the current date (`today`, `joinDate`) are parameters.
- `setTimeout` delays (mock loading, onboarding submit). The delayed action is applied at once.
- The mock data generators and the chart numbers in the progress reply. These are constants or are not modelled.
- The add-progress-record form's validation, the dashboard panels' own content, `index.tsx` and static pages. These are outside the core.
- Strings.ToLower: maps ASCII letters only, because JavaScript's full Unicode case mapping is not modelled.
- Strings.ParseInt: skips leading white space and reads an optional sign and the leading decimal digits; the `0x` prefix, which `parseInt` without a radix reads as hexadecimal, is not modelled.
- Quiz.QuizPost: takes the count as the text `questionCount.toString()` gives; how JSON numbers print (`1e+21`, `-0`) and the text of arrays and objects are left to that input.
- Strings.NumberOf: accepts only plain digit strings; `Number()` on other forms (spaces, decimals, exponents) is not modelled.
- UrlQuery.FormEncode: percent-encodes characters as single bytes; UTF-8 encoding of characters above U+007F is not modelled.
- Clock.IsoDate: covers years 0 to 9999 only.
- Calendar.Next: the month view (`setMonth`) is excluded by its precondition, because month lengths and day overflow are not modelled.
- Calendar.Previous: as for `Next`, the month view is excluded.
- Time zones and locale formatting (`format(date, "PPP")`, `toLocaleString`). Days are day numbers.
- Joined objects in the sessions list (`tutor:tutor_id(...)`). They are passed alongside the rows.
- String comparison in the browser (the availability form's `startTime >= endTime`, the time picker's order). It is by character code, as JavaScript compares UTF-16 code units for the texts involved.
- SessionsApi.ListSessions: the `gte`/`lte` date bounds and the `order` calls run in PostgreSQL on date and time columns. The model compares their fixed-width `yyyy-MM-dd` and `HH:mm` texts instead; for dates `SessionsPage.FromBound` and `SessionsPage.ToBound` prove that this is day order.
- `handleDocumentToggle`. It is modelled, but no control in the wizard calls it.
- Strings.Capitalize: upper-cases ASCII letters only; JavaScript's `toUpperCase` also maps other letters, some to two characters ("ß" to "SS"), which the model does not.
- Pages.Dashboard: the title's length and first letter follow `Strings.Capitalize`, so they hold as stated only for a role whose first character is ASCII.
- AvailabilityApi.PostAvailability: follows the route, which inserts a `day_of_week` column. The typed schema in src/types/supabase.ts:480-498 has a required text column `day` and no `day_of_week`, so against that schema every insert would fail. The model leaves the insert's outcome to the `insertError` input, because the live table is not part of this model.
- AvailabilityApi.DayChecks: states only what the route's own check accepts; whether a day of 0 or `null` is then stored depends on the insert, which the model leaves to `insertError`.
- SessionsApi.CreateSession: the error message for a `null` duration is PostgreSQL's not-null message; the exact text PostgREST wraps it in is not modelled.
- The "View Details" link of the sessions table, the navigation bar's mobile menu, its sign-out and the calendar's month grid rendering. These are rendering only.
- The booking dialog's `open` flag. It is set by the dialog trigger, which is not modelled. The eight fixed booking times are a constant only.
- `getWeekDates` mutating its argument. The page passes a copy, so the model is a pure function.

## Findings

| source | as written | input that shows it | evidently intended | confidence | as-written member | corrected member |
|---|---|---|---|---|---|---|
| src/app/dashboard/tutors/page.tsx:111-114 | `handleTutorAdded` appends the wizard's record, which has `fullName` but no `name`; the filter at lines 130-132 then calls `tutor.name.toLowerCase()` | onboard any tutor, then render the list | the new tutor is shown under its full name | not executed | TutorsPage.AddAsWritten, TutorsPage.OnboardedTutorBreaksFilter | TutorsPage.Add, TutorsPage.AddKeepsFilterWorking, TutorsPage.AddedTutorListed |
| src/components/admin/subject-management.tsx:123-125 | the new id is `Math.max(...ids) + 1` | delete every subject, then add three: the ids are "-Infinity", "NaN", "NaN" | a fresh numeric id, one more than the largest, starting from 1 | not executed | SubjectManagement.NextIdAsWritten, SubjectManagement.RepeatedIdAfterEmptying | SubjectManagement.NextId, SubjectManagement.Save |
| src/components/admin/subject-management.tsx:330-334 | the empty list's "Add Subject" button only calls `setDialogOpen(true)`, and "Cancel" (line 243) only closes the dialog, so an abandoned edit is still active: the dialog opens titled "Edit Subject" on the old draft | open a subject for editing, cancel, delete it, then add a named subject through the empty list's button: the list stays empty and "Subject updated successfully" shows | the button resets the draft and the edited subject as the header's trigger does (lines 185-188), so the save appends | not executed | SubjectManagement.OpenAddEmptyState, SubjectManagement.EmptyStateAddAfterCancelLosesSubject | SubjectManagement.OpenAdd, SubjectManagement.OpenAddThenSaveAppends |
