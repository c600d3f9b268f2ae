# Enrollment and attendance portal: a Dafny model of its page logic

The portal is a browser front end for biometric enrollment, ID cards and staff attendance.
Its pages hold small rules inside their components. This project states those rules in
Dafny and proves what the pages promise about them. The rules covered are:

- the enrollment wizard: steps from the URL, biometric capture, the gates of the Continue buttons;
- card renewal: urgency of an expiry date, filter and sort, renew, extend, bulk renew and the selection;
- the work-schedule form: validation, save and cancel;
- the personal time clock: clock in and out, hours worked, the copy in browser storage;
- the staff clock card and the attendance overview: status changes, counts, search, departments;
- the admin dashboard: sort toggle, filters and the sorted table;
- the staff attendance table: row limit and cell contents;
- the records list, the card-printing page and the choice of dashboard by role.

Pure rules are functions with lemmas. Each component whose handlers replace state is a
class whose methods state the new state. Those classes are `Wizard`, `CardRenewalPage`,
`ScheduleSetupPage`, `TimeClock`, `AttendancePage`, `AdminDashboardPage` and
`PrintCardsPage`.

Shared building blocks are defined once:

- `Seqs` holds `Array.prototype.filter`, `find`, de-duplication and a stable sort.
  The sort is an insertion sort that keeps tied elements in their original order, as
  JavaScript's sort does.
- `Text` holds ASCII lower-casing, `includes` and JavaScript's `<` on strings.
- `WorkingTime` holds `HH:MM` times of day and the hours/minutes split of a millisecond
  difference. The split uses JavaScript's truncating `%`.

Units:

- Times of day are minutes after midnight.
- Instants ("now", expiry dates) are integer milliseconds.
- Hours worked are hundredths of an hour. `calculateHours` rounds to two decimals, so
  hundredths are exact.

## Model

| member | source | states |
|---|---|---|
| Seqs.FilterMembership | src/pages/Attendance.tsx:117-125 | an element is in a filtered list iff it is in the list and passes the predicate |
| Seqs.FilterMultiset | src/pages/Records.tsx:77-82 | filtering keeps each passing element exactly as often as it occurs and drops the rest |
| Seqs.FilterIsSubseq | src/pages/PrintCards.tsx:52-55 | a filtered list keeps the original order (it is a subsequence) |
| Seqs.FilterKeepsAll | src/pages/PrintCards.tsx:52-55 | a predicate every element passes gives back the same list |
| Seqs.CountThree | src/pages/Attendance.tsx:106-113 | three mutually exclusive counts add up to at most the length, and to the length when they cover every element |
| Seqs.Find | src/pages/Attendance.tsx:128 | `find` gives none iff no element passes, else the first element that passes |
| Seqs.Distinct | src/pages/Attendance.tsx:127 | de-duplication keeps exactly the values of the list |
| Seqs.DistinctOrder | src/pages/Attendance.tsx:127 | the de-duplicated list has no repeats and lists values in first-occurrence order |
| Seqs.SortBy | src/pages/CardRenewal.tsx:119-124 | sorting is a permutation (same multiset, same length) |
| Seqs.SortBySorted | src/pages/AdminDashboard.tsx:242-247 | for a total, transitive comparator the sorted list is ordered |
| Text.Lower | src/pages/Records.tsx:78-79 | lower-casing keeps the length and maps each character by ASCII case folding |
| Text.LowerIdempotent | src/pages/Records.tsx:78-79 | lower-casing twice equals lower-casing once |
| Text.ContainsAt | src/pages/Records.tsx:78-79 | `includes` holds iff the needle occurs at some position |
| Text.EmptyTermMatches | src/pages/AdminDashboard.tsx:238-239 | an empty search term matches every text |
| Text.IgnoresTermCase | src/pages/CardRenewal.tsx:107-116 | a search term matches the same texts as its lower-case form |
| Text.LongerNeedleAbsent | src/pages/PrintCards.tsx:52-55 | a term longer than the text is not in it |
| Text.StrLessTrichotomy | src/pages/AdminDashboard.tsx:245-246 | string `<` is total on distinct strings and asymmetric |
| Text.StrLessTransitive | src/pages/AdminDashboard.tsx:245-246 | string `<` is transitive |
| WorkingTime.FormatParseRoundTrip | src/components/ClockInOut.tsx:51-55 | an `HH:MM` time of day reads back as the same time |
| WorkingTime.JsRem | src/components/StaffClockManager.tsx:80-90 | the truncating remainder lies strictly between -b and b, equals `%` on non-negative operands and is non-positive on negative ones; it is `a - b*trunc(a/b)` |
| WorkingTime.SplitNonNegative | src/components/StaffAttendanceTable.tsx:109-119 | for a non-negative difference, minutes < 60 and hours·60 + minutes = ⌊diff / 60000⌋ |
| WorkingTime.OneMinuteEarly | src/components/ClockInOut.tsx:119-129 | a clock-in time one minute in the future shows -1h -1m |
| WorkingTime.NineAndAHalfHours | src/components/ClockInOut.tsx:119-129 | 08:00 to 17:30 shows 9h 30m |
| StaffClock.ClockActionsIgnorePriorStatus | src/components/StaffClockManager.tsx:44-51 | clock-in always gives clocked-in and clock-out always gives clocked-out |
| StaffClock.BreakToggles | src/components/StaffClockManager.tsx:52-56 | from a duty status, break switches between clocked-in and on-break and twice restores the status |
| StaffClock.OfferedActions | src/components/StaffClockManager.tsx:141-171 | clock-in is offered iff clocked out; clock-out and break iff not clocked out |
| StaffClock.OfferedActionsChangeStatus | src/components/StaffClockManager.tsx:141-171 | every offered button changes the status |
| StaffClock.HandleClockAction | src/components/StaffClockManager.tsx:28-67 | the reported change names the member and carries the status the button produces; break gives clocked-in from on-break and on-break otherwise |
| StaffClock.CurrentWorkingTime | src/components/StaffClockManager.tsx:80-90 | no working time without a clock-in time or once clocked out; otherwise exactly the split of the time since clock-in (`Since`), which for a clock-in not in the future is whole hours and 0-59 minutes |
| Attendance.SetStatus | src/pages/Attendance.tsx:96-104 | the member with the given id gets the new status; everyone else is unchanged |
| Attendance.SetStatusUnknownId | src/pages/Attendance.tsx:96-104 | an id nobody has leaves the list unchanged |
| Attendance.CalculateStats | src/pages/Attendance.tsx:106-113 | total is the list length and active + on break + off duty = total |
| Attendance.FilteredStaffSpec | src/pages/Attendance.tsx:117-125 | the shown staff are exactly those matching name/department search and department filter, in order, with multiplicity |
| Attendance.NoFilterKeepsEveryone | src/pages/Attendance.tsx:117-125 | empty search and 'all' show every member in order |
| Attendance.Departments | src/pages/Attendance.tsx:127 | 'all' first, then every department of the staff and nothing else |
| Attendance.DepartmentsOrder | src/pages/Attendance.tsx:127 | each department is listed once, in first-occurrence order |
| Attendance.SelectedStaff | src/pages/Attendance.tsx:128 | no selection or '' gives none; a result is the first listed member with that id; none otherwise means nobody has that id |
| Attendance.AttendancePage.constructor | src/pages/Attendance.tsx:23-27 | the page starts with the given staff, the employee from the URL, empty search and 'all' |
| Attendance.AttendancePage.HandleStaffStatusChange | src/pages/Attendance.tsx:96-104 | the staff list becomes SetStatus of the old one; filters and selection are kept |
| Attendance.AttendancePage.ClockSelected | src/pages/Attendance.tsx:158-165 | a clock button works only with a selected member; it applies that member's status change |
| Attendance.AttendancePage.BackToOverview | src/pages/Attendance.tsx:145-153 | the selection is cleared and nothing else changes |
| Enrollment.StepPath | src/pages/Enrollment.tsx:51-54 | every step's URL lies under `/enroll/` |
| Enrollment.StepFromPath | src/pages/Enrollment.tsx:30-35 | biometrics iff the path has `/biometrics`; review iff it has `/review` and not `/biometrics`; else demographics |
| Enrollment.PathRoundTrip | src/pages/Enrollment.tsx:51-62 | the step read back from a step's own URL is that step |
| Enrollment.BiometricsWinsOverReview | src/pages/Enrollment.tsx:30-35 | a path with both segments opens biometrics |
| Enrollment.RecordPathOpensDemographics | src/pages/Enrollment.tsx:30-35 | `/enroll/<digits>` opens demographics |
| Enrollment.StepIndexRoundTrip | src/pages/Enrollment.tsx:64-71 | step index and step are inverse on the three steps |
| Enrollment.StepNumber | src/pages/Enrollment.tsx:110 | "Step n of 3" shows n between 1 and 3, one more than the index |
| Enrollment.Capture | src/pages/Enrollment.tsx:73-77 | a capture appends a modality not yet captured and leaves the list alone otherwise |
| Enrollment.CaptureKeepsNoDup | src/pages/Enrollment.tsx:73-77 | captures never repeat a modality and only extend the list |
| Enrollment.CaptureIdempotent | src/pages/Enrollment.tsx:73-77 | capturing the same modality twice equals capturing it once |
| Enrollment.AtMostThreeCaptured | src/pages/Enrollment.tsx:73-79 | a repeat-free capture list has at most three entries |
| Enrollment.CaptureAllContents | src/pages/Enrollment.tsx:73-77 | after a series of presses, the list is repeat-free and holds exactly the pressed or earlier modalities |
| Enrollment.UiCompletionNeedsFingerprintAndPhoto | src/pages/Enrollment.tsx:244-346 | with iris disabled, biometrics is complete iff fingerprint and photo were both captured |
| Enrollment.GenderAndAddressNotChecked | src/pages/Enrollment.tsx:198-202 | the Continue gate ignores gender and address, passes with first and last name and date of birth, and fails on an empty form |
| Enrollment.Wizard.constructor | src/pages/Enrollment.tsx:37-48 | the wizard opens on the step of its URL with nothing captured and an empty form |
| Enrollment.Wizard.HandleStepChange | src/pages/Enrollment.tsx:51-62 | the step and URL move to the chosen step; captures and form are kept |
| Enrollment.Wizard.Navigate | src/pages/Enrollment.tsx:57-62 | a URL change resynchronises the step from the path |
| Enrollment.Wizard.EditForm | src/pages/Enrollment.tsx:39-48 | editing the form changes only the form |
| Enrollment.Wizard.HandleBiometricCapture | src/pages/Enrollment.tsx:73-77 | the capture list becomes Capture of the old list; step and form are kept |
| Enrollment.Wizard.ContinueToBiometrics | src/pages/Enrollment.tsx:198-202 | moves to biometrics iff the required fields are filled, and otherwise changes nothing |
| Enrollment.Wizard.ContinueToReview | src/pages/Enrollment.tsx:342-346 | moves to review iff at least two modalities are captured, and otherwise changes nothing |
| CardRenewal.CeilDiv | src/pages/CardRenewal.tsx:96-104 | `Math.ceil(a / b)` for a positive divisor is the least q with a ≤ q·b |
| CardRenewal.DaysUntilExpiry | src/pages/CardRenewal.tsx:96-104 | the days to expiry round the remaining time up to whole days |
| CardRenewal.DaysUntilShift | src/pages/CardRenewal.tsx:96-104 | moving the expiry by whole days moves the day count by the same amount |
| CardRenewal.UrgencyOfDays | src/pages/CardRenewal.tsx:96-104 | expired iff days < 0, critical iff 0..7, warning iff 8..30, normal iff > 30 |
| CardRenewal.UrgencyMonotone | src/pages/CardRenewal.tsx:96-124 | more days to expiry never gives a more urgent level |
| CardRenewal.FilteredCardsSpec | src/pages/CardRenewal.tsx:107-124 | listed cards are exactly the matching ones with multiplicity, ordered expired, critical, warning, normal |
| CardRenewal.SummaryOf | src/pages/CardRenewal.tsx:326-364 | expired + expiring soon + active = total listed |
| CardRenewal.RenewCard | src/pages/CardRenewal.tsx:156-184 | renewal sets expiry to now + 365 days, status renewed and last renewal now, and appends one renewal entry; identity fields are kept |
| CardRenewal.RenewedCardIsNormal | src/pages/CardRenewal.tsx:156-184 | a renewed card is 365 days from expiry and of normal urgency |
| CardRenewal.RenewIds | src/pages/CardRenewal.tsx:211-246 | bulk renewal renews exactly the selected cards and keeps the rest |
| CardRenewal.ExtendCard | src/pages/CardRenewal.tsx:186-199 | extension adds 90 days to the expiry and changes nothing else |
| CardRenewal.ExtendAddsNinetyDays | src/pages/CardRenewal.tsx:186-199 | an extended card is 90 more days from expiry and never more urgent |
| CardRenewal.ExtendId | src/pages/CardRenewal.tsx:186-199 | extension applies to the card with that id only |
| CardRenewal.ApplyRenewalAction | src/pages/CardRenewal.tsx:156-206 | renew or extend changes only the card with the id; view-history or an unknown id changes nothing |
| CardRenewal.ToggleSelection | src/pages/CardRenewal.tsx:249-255 | the card's selection flips and every other card's is kept |
| CardRenewal.ToggleTwice | src/pages/CardRenewal.tsx:249-255 | toggling a card twice restores the selected set |
| CardRenewal.ToggleKeepsNoDup | src/pages/CardRenewal.tsx:249-255 | toggling keeps the selection free of repeats |
| CardRenewal.ToggleSelectAll | src/pages/CardRenewal.tsx:258-263 | select-all clears the selection when its length equals the listed count, and selects every listed card otherwise |
| CardRenewal.SelectAllComparesLengthsOnly | src/pages/CardRenewal.tsx:258-263 | a selection of one unlisted card counts as all of one listed card and is cleared |
| CardRenewal.SelectAllOfListedClears | src/pages/CardRenewal.tsx:258-263 | when each listed card is selected exactly once, select-all clears the selection |
| CardRenewal.CardIds | src/pages/CardRenewal.tsx:258-263 | the id list has one entry per card, in order |
| CardRenewal.CardRenewalPage.constructor | src/pages/CardRenewal.tsx:90-93 | the page starts with the given cards, nothing selected, empty search and all statuses |
| CardRenewal.CardRenewalPage.HandleRenewalAction | src/pages/CardRenewal.tsx:156-206 | the cards become ApplyRenewalAction of the old ones; selection and filters are kept |
| CardRenewal.CardRenewalPage.HandleBulkRenewal | src/pages/CardRenewal.tsx:211-246 | with nothing selected nothing changes; otherwise the selected cards are renewed and the selection is cleared |
| CardRenewal.CardRenewalPage.ToggleCard | src/pages/CardRenewal.tsx:249-255 | the selection becomes ToggleSelection of the old one |
| CardRenewal.CardRenewalPage.SelectAll | src/pages/CardRenewal.tsx:258-263 | the selection becomes ToggleSelectAll over the ids of the listed cards |
| CardRenewal.CardRenewalPage.SetSearch | src/pages/CardRenewal.tsx:283-297 | search and status filter change; cards and selection do not |
| ScheduleSetup.ValidateSettings | src/pages/ScheduleSetup.tsx:31-52 | a field has an error iff its rule fails, with the page's message for it |
| ScheduleSetup.AcceptedIffValid | src/pages/ScheduleSetup.tsx:31-52 | for times that parse, validation passes iff start < end, start ≤ break, break end ≤ end |
| ScheduleSetup.ErrorConditions | src/pages/ScheduleSetup.tsx:31-52 | each field's error condition, stated in minutes |
| ScheduleSetup.DefaultsAccepted | src/pages/ScheduleSetup.tsx:17-22 | the default schedule 08:00-17:00 with a 60-minute break at 12:00 is valid |
| ScheduleSetup.EmptiedEndTimeAccepted | src/pages/ScheduleSetup.tsx:31-52 | an emptied end time passes validation, because comparisons with an invalid date are false |
| ScheduleSetup.ScheduleSetupPage.constructor | src/pages/ScheduleSetup.tsx:25-28 | saved and form settings start at the defaults, not editing, no errors |
| ScheduleSetup.ScheduleSetupPage.HandleEdit | src/pages/ScheduleSetup.tsx:76-79 | editing starts from the saved settings |
| ScheduleSetup.ScheduleSetupPage.EditForm | src/pages/ScheduleSetup.tsx:25-28 | typing changes only the form |
| ScheduleSetup.ScheduleSetupPage.HandleSave | src/pages/ScheduleSetup.tsx:54-68 | accepted settings are saved, editing ends and errors clear; otherwise the saved settings stay and the errors are shown; saved settings always pass validation |
| ScheduleSetup.ScheduleSetupPage.HandleCancel | src/pages/ScheduleSetup.tsx:70-74 | cancel resets the form to the saved settings and clears editing and errors |
| ClockInOut.StorageKey | src/components/ClockInOut.tsx:30 | the storage key is `clock-` followed by the date |
| ClockInOut.CalculateHours | src/components/ClockInOut.tsx:38-42 | the hours are within half a hundredth of the exact elapsed time |
| ClockInOut.CalculateHoursNearest | src/components/ClockInOut.tsx:38-42 | no other number of hundredths is that close: the rounding is unique |
| ClockInOut.CalculateHoursExamples | src/components/ClockInOut.tsx:38-42 | 08:00 to 17:30 is 9.50 hours and whole hours come out exact |
| ClockInOut.NewRecord | src/components/ClockInOut.tsx:57-62 | a clock-in record is clocked in at the given time, with no clock-out and no total |
| ClockInOut.ClockedOutRecord | src/components/ClockInOut.tsx:90-97 | clocking out keeps id, date and clock-in, and sets clock-out, total hours and clocked-out |
| ClockInOut.OfferAlternates | src/components/ClockInOut.tsx:204-223 | after clock-in the card offers clock-out; after clock-out it offers clock-in |
| ClockInOut.CurrentWorkingTime | src/components/ClockInOut.tsx:119-129 | no working time iff there is no record or it is clocked out; otherwise the time since clock-in |
| ClockInOut.TimeClock.constructor | src/components/ClockInOut.tsx:28-33 | mounting loads the record stored under today's key, or none |
| ClockInOut.TimeClock.HandleClockIn | src/components/ClockInOut.tsx:44-73 | a fresh record replaces today's and is written under the key of today |
| ClockInOut.TimeClock.HandleClockOut | src/components/ClockInOut.tsx:75-108 | without a record nothing changes; otherwise the record is closed and written under today's key |
| AdminDashboard.NextSort | src/pages/AdminDashboard.tsx:224-231 | the clicked column becomes the sort column; the direction flips on the same column and resets to ascending on another |
| AdminDashboard.TwoClicksRestore | src/pages/AdminDashboard.tsx:224-231 | two clicks on the current column restore the sort state |
| AdminDashboard.TwoClicksOnNewColumn | src/pages/AdminDashboard.tsx:224-231 | two clicks on a new column leave it sorted descending |
| AdminDashboard.PrecedesIsPreorder | src/pages/AdminDashboard.tsx:242-247 | the page's comparator is a total preorder in both directions |
| AdminDashboard.FilteredAndSortedSpec | src/pages/AdminDashboard.tsx:234-247 | the table holds exactly the rows passing employee, department and search filters, with multiplicity, non-decreasing ascending and non-increasing descending |
| AdminDashboard.DefaultFiltersShowAll | src/pages/AdminDashboard.tsx:234-241 | with 'all', 'all' and no search every row is shown |
| AdminDashboard.DurationsSortAsText | src/pages/AdminDashboard.tsx:242-247 | durations compare as text: "10:30" sorts before "9:00" |
| AdminDashboard.OvertimeMarker | src/pages/AdminDashboard.tsx:431 | the overtime dot shows iff the duration is over 540 minutes; exactly nine hours shows none |
| AdminDashboard.AdminDashboardPage.constructor | src/pages/AdminDashboard.tsx:161-167 | the dashboard starts sorted by name ascending, with 'all' filters and no search |
| AdminDashboard.AdminDashboardPage.HandleSort | src/pages/AdminDashboard.tsx:224-231 | the sort state becomes NextSort of the old one; data and filters are kept |
| AdminDashboard.AdminDashboardPage.HandleEditRecord | src/pages/AdminDashboard.tsx:205-207 | the dialog opens on the record; data is kept |
| AdminDashboard.AdminDashboardPage.HandleSaveEdit | src/pages/AdminDashboard.tsx:209-215 | saving closes the dialog and leaves the data unchanged |
| AdminDashboard.AdminDashboardPage.HandleResolveAlert | src/pages/AdminDashboard.tsx:217-222 | resolving an alert leaves the table unchanged |
| StaffAttendanceTable.VisibleRows | src/components/StaffAttendanceTable.tsx:93 | the rows are a prefix of the staff; no limit or 0 shows all of them |
| StaffAttendanceTable.SliceEnd | src/components/StaffAttendanceTable.tsx:93 | `slice(0, end)` stops at end, capped at the length; a negative end counts from the back |
| StaffAttendanceTable.PositiveLimitShowsFirstRows | src/components/StaffAttendanceTable.tsx:93 | a positive limit shows the first min(limit, n) rows |
| StaffAttendanceTable.NegativeLimitDropsLastRows | src/components/StaffAttendanceTable.tsx:93 | a negative limit shows the first max(n + limit, 0) rows, dropping that many from the end |
| StaffAttendanceTable.TimeInCell | src/components/StaffAttendanceTable.tsx:152 | "-" iff there is no clock-in time; otherwise an `HH:MM` text that reads back as that time |
| StaffAttendanceTable.WorkingTimeCell | src/components/StaffAttendanceTable.tsx:153-157 | running time iff on duty with a clock-in time; total hours iff clocked out with non-zero hours; "-" otherwise |
| StaffAttendanceTable.ZeroHoursShowDash | src/components/StaffAttendanceTable.tsx:153-157 | zero or missing hours show "-" |
| StaffAttendanceTable.RunningMatchesClockManager | src/components/StaffAttendanceTable.tsx:109-119 | the table's running time agrees with the clock card's working time |
| Records.FilteredRecordsSpec | src/pages/Records.tsx:77-82 | listed records are exactly those matching name/id search and status, in order, with multiplicity |
| Records.DefaultFiltersListAll | src/pages/Records.tsx:77-82 | an empty search with 'all' lists every record in order |
| Records.CountRecords | src/pages/Records.tsx:128-175 | counts are over all records: total is the length and active + pending + review ≤ total, with equality when every status is one of the three |
| Records.HeaderCount | src/pages/Records.tsx:219 | the header count is the number of listed records and never exceeds the total |
| PrintCards.FilteredIndividualsSpec | src/pages/PrintCards.tsx:52-55 | listed people are exactly those whose name or id contains the search, each as often as listed, in order |
| PrintCards.EmptySearchListsAll | src/pages/PrintCards.tsx:52-55 | an empty search lists everyone in the original order |
| PrintCards.LongSearchHides | src/pages/PrintCards.tsx:52-55 | a search longer than a person's name and id hides them |
| PrintCards.PrintCardsPage.constructor | src/pages/PrintCards.tsx:50 | the preview starts on the first enrolled person |
| PrintCards.PrintCardsPage.SetSearch | src/pages/PrintCards.tsx:92 | searching never changes the previewed person, even one the search hides |
| PrintCards.PrintCardsPage.SelectPerson | src/pages/PrintCards.tsx:101 | clicking a person previews them |
| PrintCards.PrintCardsPage.HandleGeneratePDF | src/pages/PrintCards.tsx:57-60 | Generate PDF logs "Generating PDF for:" with the previewed person's name and changes nothing |
| PrintCards.PrintCardsPage.HandlePrintCard | src/pages/PrintCards.tsx:62-65 | Print logs "Printing card for:" with the previewed person's name and changes nothing |
| RoleDashboard.ChooseDashboard | src/pages/RoleDashboard.tsx:7-23 | admin dashboard iff the path is `/admin`; operator dashboard iff `/` with the operator role; the general dashboard otherwise |
| RoleDashboard.RoleMattersOnlyAtHome | src/pages/RoleDashboard.tsx:12-22 | the two roles see different dashboards only on `/` |
| RoleDashboard.NewSessionHome | src/components/RoleProvider.tsx:25 | a new session starts as operator and sees the operator dashboard on `/` |

## Left out

- Markup, badges, icons, styling, dialogs and toast messages are presentation only.
- Reading the clock (`new Date()`, `Date.now()`) and the one-second redraw timer are left out.
  "Now" is a parameter: milliseconds for instants, minutes for times of day.
- Browser storage is a map from key to record. The JSON encoding and `JSON.parse` are left out.
- The simulated `setTimeout` delays and the `isLoading` flags are left out. They are timing, not logic.
- Routing is left out. `Navigate` takes the new pathname, and the attendance page takes the
  `employee` query parameter as an argument.
- Lower-casing is ASCII only; locale-aware case mapping is not modelled.
- String `<` is compared by character code on `seq<char>`; UTF-16 surrogate pairs are not modelled.
- The `toLocaleTimeString` / `toDateString` formatting is not modelled. Times of day are
  `HH:MM` values, and dates are the strings given.
- The locale's "24:00" spelling of midnight is not modelled either.
- The progress bar percentage in the enrollment wizard is floating point and is left out.
- Times in the staff and schedule records are parsed values. A missing or empty time is
  `None`, and a schedule time that does not parse is `Unparsed`; the string parsing of
  `new Date(...)` is not modelled.
- AdminDashboard.NextSort: sorting by the clock-out column is left out. Its values can be
  null, and JavaScript's comparison of null with a string makes the comparator inconsistent.
  The sort fields are the four string columns.
- Seqs.SortBy: no contract states stability, that is, that elements the comparator ties keep
  their input order. The insertion sort does keep that order, as JavaScript's sort does; the
  contracts state only that the result is a permutation and is ordered.
- CardRenewal.RenewCard: the source reads the clock several times while renewing one card.
  The model uses a single "now" for all of them.
- ClockInOut.TimeClock.HandleClockIn: the record id is the millisecond timestamp, a number,
  not the `clock-<timestamp>` string.
- PrintCards.PrintCardsPage.constructor: it requires a non-empty list, because the page
  starts on the first entry of its fixed list of enrolled people.
- The mock data of every page is not modelled; the lists are parameters.
- Some files hold no page logic and are left out:
  - the record detail view (a lookup and a random QR pattern);
  - the operator and general dashboards (lookup tables and markup);
  - the header, sidebar and application shell;
  - the role context provider, apart from its default role "operator".
