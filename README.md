# Citizen complaint portal — a verified model of its page logic

The portal is a Next.js front end with which citizens file complaints about
public services and follow them, and with which administrators triage them.
All data is hard-coded. The logic of the portal lives in four pages, and this
project models those four:

- **Admin dashboard** (`admin_dashboard.dfy`). It has three drop-down filters:
  status, priority and category. An "all" value lifts a filter. The page also
  shows a "Showing N complaints" counter and a coloured priority dot.
- **Citizen dashboard** (`citizen_dashboard.dfy`). It filters the complaint list
  by tab and shows the "Active" and "Resolved" figures. It also keeps an unread
  notification counter, which opening an unread notification decrements.
- **Track page** (`track_page.dfy`, `track_records.dfy`). It looks a complaint
  up by its exact id. A blank or white-space-only id does nothing. The page
  keeps a recent list of at most five complaints, which it loads on mount and
  which is meant to hold no id twice. It runs a search on mount when the URL
  carries an id. As written, that search can list one complaint twice (see
  Findings); the model states the intended, duplicate-free behaviour and
  proves the as-written one separately. Each history entry gets a timeline
  marker, with a grey clock as the fallback for statuses the registry does
  not know, such as "submitted".
- **Submit page** (`submit_page.dfy`). It holds the attached-file list and the
  submitting / success / reference-number flags. It generates a reference
  number of the form "CMP" plus six digits. It has the form's validation rules,
  including the case-insensitive e-mail pattern. Before any of them, the
  browser checks the `type="email"` input: a non-empty value that is not a
  valid e-mail address in the sense of the HTML Living Standard (section
  4.10.5.1.5, "E-mail state") stops the submission, and the page's handler
  never runs.

Shared pieces:

- `registry.dfy` holds the statuses, the priorities and the status-badge table.
  The admin dashboard, the citizen dashboard and the track page declare
  identical copies of that table, so it is defined once here. The submit page
  declares none.
- `seqs.dfy` models `Array.prototype.filter` and proves the facts about it that
  the pages rely on.
- `wrappers.dfy` has `Option`, for the `T | null` values.

The page state is modelled in two layers:

- **Classes.** Each page whose state changes is a class:
  `NotificationBadge`, `TrackPageState` and `SubmitComplaintPage`. The class
  fields are the page's `useState` values, and its methods are the event
  handlers.
- **Specification functions.** Every method is proved to leave exactly the
  state a pure function computes from the old state: `Search`, `Mounted`,
  `Submitted`, `HandleSubmit`, and so on. The lemmas about those functions
  state what the page promises.

Each handler is modelled as one atomic step. A `setState` call takes effect
immediately, and the simulated delays are dropped.

## Model

| member | source | states |
|---|---|---|
| Seqs.Filter | src/app/admin/dashboard/page.tsx:272-280 | Every element of the result is an element of the input that passes the test, every passing element is kept, and the result is never longer. |
| Seqs.FilterCount | src/app/admin/dashboard/page.tsx:272-280 | A passing element occurs in the result exactly as often as in the input; a failing one does not occur. |
| Registry.ParseStatus | src/app/admin/dashboard/page.tsx:26-30 | A status string reads back to a status exactly when it is one of the five key names, and to that key. |
| Registry.ParseStatusName | src/app/admin/dashboard/page.tsx:26-30 | Reading a status name back gives the same status, so the five names are distinct. |
| Registry.StatusBadge | src/app/admin/dashboard/page.tsx:103-129 | The clock marks exactly pending and in progress, the tick exactly resolved, the warning exactly rejected (received has the envelope). |
| Registry.StatusBadgesDistinct | src/app/admin/dashboard/page.tsx:103-129 | Any two different statuses have different badge texts and different badge colours. |
| AdminDashboard.PriorityColor | src/app/admin/dashboard/page.tsx:236-254 | The dot colour is one of the five classes. It is grey exactly when the value is none of the four priorities. |
| AdminDashboard.PriorityColorsDistinct | src/app/admin/dashboard/page.tsx:236-254 | The four priority levels get four different colours, and none of them is grey. |
| AdminDashboard.KeepRow | src/app/admin/dashboard/page.tsx:272-280 | The callback with its three early rejections keeps a row exactly when the row matches every criterion that is not "all". |
| AdminDashboard.FilterComplaints | src/app/admin/dashboard/page.tsx:272-280 | Every matching row is listed as often as it occurs in the table, and no other row is listed. |
| AdminDashboard.FilterComplaintsKeepsIff | src/app/admin/dashboard/page.tsx:272-280 | A row is listed if and only if it is in the table and matches every criterion that is not "all". |
| AdminDashboard.FilterComplaintsIsSubsequence | src/app/admin/dashboard/page.tsx:272-280 | The listed rows keep the table order, and no row is added. |
| AdminDashboard.FilterAllIsIdentity | src/app/admin/dashboard/page.tsx:258-260 | With the initial "all" filters the whole table is listed, unchanged. |
| AdminDashboard.FilterTightening | src/app/admin/dashboard/page.tsx:272-280 | Moving a criterion from "all" to a value gives a subsequence of the looser listing, so never more rows. |
| AdminDashboard.ShownCount | src/app/admin/dashboard/page.tsx:516 | The counter is at most the table size. It equals the table size exactly when every row matches. |
| AdminDashboard.SampleHighPriorityRoads | src/app/admin/dashboard/page.tsx:132-198 | On the sample table, "high" plus roads lists the pothole and the traffic signal, in table order. |
| CitizenDashboard.TabKeep | src/app/citizen/dashboard/page.tsx:194-201 | The callback keeps a complaint exactly when the tab shows its status. |
| CitizenDashboard.FilterByTab | src/app/citizen/dashboard/page.tsx:194-201 | Every complaint whose status the tab shows is listed as often as it occurs, and no other complaint is listed. |
| CitizenDashboard.FilterByTabKeepsIff | src/app/citizen/dashboard/page.tsx:194-201 | A complaint is under a tab if and only if the tab shows its status. "active" shows pending, received and in progress. "resolved" and "rejected" show that status only. Any other tab shows everything. |
| CitizenDashboard.UnfilteredTabs | src/app/citizen/dashboard/page.tsx:194-201 | The "all" tab, and any tab value the page does not know, list every complaint in order. |
| CitizenDashboard.TabsPartition | src/app/citizen/dashboard/page.tsx:194-201 | The "active", "resolved" and "rejected" tabs partition the list: each complaint is under exactly one, and the sizes add up. |
| CitizenDashboard.TabSizesAddUp | src/app/citizen/dashboard/page.tsx:194-201 | The sizes of the "active", "resolved" and "rejected" listings add up to the number of complaints. |
| CitizenDashboard.ActiveComplaintsCount | src/app/citizen/dashboard/page.tsx:257-262 | The "Active Complaints" figure, computed by its own filter, equals the size of the "active" tab. |
| CitizenDashboard.ResolvedComplaintsCount | src/app/citizen/dashboard/page.tsx:281-282 | The "Resolved Complaints" figure equals the size of the "resolved" tab. |
| CitizenDashboard.UnreadCount | src/app/citizen/dashboard/page.tsx:189-191 | The initial counter is at most the number of notifications. It is 0 exactly when every notification is read. |
| CitizenDashboard.AfterClick | src/app/citizen/dashboard/page.tsx:499-502 | Clicking a read notification leaves the counter as it was. Clicking an unread one decrements a positive counter by one. The counter stays in range. |
| CitizenDashboard.AfterClicks | src/app/citizen/dashboard/page.tsx:499-502 | Over any series of clicks, a non-negative counter stays between 0 and its start value. |
| CitizenDashboard.NotificationBadge.constructor | src/app/citizen/dashboard/page.tsx:189-191 | The counter starts at the number of unread notifications. |
| CitizenDashboard.NotificationBadge.MarkNotificationAsRead | src/app/citizen/dashboard/page.tsx:204-206 | The id is ignored. The counter drops by one and never goes below 0. |
| CitizenDashboard.NotificationBadge.ClickNotification | src/app/citizen/dashboard/page.tsx:499-502 | A click leaves the counter that `AfterClick` computes. |
| CitizenDashboard.SampleUnreadCount | src/app/citizen/dashboard/page.tsx:101-146 | Two of the sample notifications are unread, so the badge starts at 2. |
| CitizenDashboard.DoubleClickHidesUnread | src/app/citizen/dashboard/page.tsx:204-206 | Bug as written: with two unread notifications, opening one of them twice drops the counter to 0, although the other is unread and unseen. The corrected counter shows 1. |
| CitizenDashboard.OpenOne | src/app/citizen/dashboard/page.tsx:499-502 | Opening an unread, unseen notification removes exactly one notification from the unseen ones, given distinct ids. |
| CitizenDashboard.CorrectedCounterCountsUnseen | src/app/citizen/dashboard/page.tsx:204-206 | The corrected counter, which remembers the opened ids, equals the number of unread notifications not yet opened after any series of clicks. |
| CitizenDashboard.InitialCounterIsUnseen | src/app/citizen/dashboard/page.tsx:189-191 | The page's initial counter equals the corrected counter's start: unread and none opened. |
| TrackPage.FindById | src/app/citizen/track/page.tsx:227 | A hit is the first record whose id equals the query exactly. A miss means no record has that id. |
| TrackPage.FindOwnId | src/app/citizen/track/page.tsx:227 | With distinct ids, looking up any record's id finds that record. |
| TrackPage.Trim | src/app/citizen/track/page.tsx:220 | The trimmed id is a contiguous piece of the id; everything cut off on either side is white space, and the piece neither starts nor ends with white space. |
| TrackPage.TrimEmptyIff | src/app/citizen/track/page.tsx:220 | The trimmed id is empty exactly when every character is ECMAScript white space or a line terminator. |
| TrackPage.RecentAfterHit | src/app/citizen/track/page.tsx:232-233 | After a hit the found id is listed. An id already listed leaves the list as it was. Otherwise the complaint is prepended and the list cut to five. |
| TrackPage.RecentAfterHitKeepsInvariant | src/app/citizen/track/page.tsx:232-233 | The recent list stays at most five long with no id twice. |
| TrackPage.RecentAfterHitIdempotent | src/app/citizen/track/page.tsx:232-233 | Recording the same hit twice gives the list of recording it once. |
| TrackPage.Search | src/app/citizen/track/page.tsx:219-242 | The box keeps its id. A search that changes anything ends not searching, with `notFound` set exactly when nothing is shown, and shows a record with that id. The recent list is kept, or gains that record in front when its id was not listed, followed by the old list cut to fit. |
| TrackPage.SearchBlankIsNoOp | src/app/citizen/track/page.tsx:220 | An empty or white-space-only id leaves the whole page state unchanged. |
| TrackPage.SearchOutcome | src/app/citizen/track/page.tsx:219-242 | A non-blank search ends with `isSearching` false. A complaint is shown if and only if some record has exactly that id, and it is the first such record. On a hit `notFound` is false and the id is among the recent ones. On a miss `notFound` is true and the recent list is kept. |
| TrackPage.SearchIdempotent | src/app/citizen/track/page.tsx:219-242 | Searching twice for the same id gives the state of searching once. |
| TrackPage.SearchKeepsInvariant | src/app/citizen/track/page.tsx:219-242 | A search keeps the state invariant. The recent list stays bounded, duplicate-free and drawn from the records, and a shown complaint is a record. |
| TrackPage.Mounted | src/app/citizen/track/page.tsx:245-252 | Without a URL id the shown complaint is kept. The recent list ends as the first three records, or as those three behind a record whose id they do not hold. |
| TrackPage.LoadKeepsInvariant | src/app/citizen/track/page.tsx:251 | Loading the first three records as the recent list keeps the state invariant when the record ids are distinct. |
| TrackPage.MountedKeepsInvariant | src/app/citizen/track/page.tsx:245-252 | With distinct record ids, the mount, with or without a URL id, leaves a state that satisfies the invariant. |
| TrackPage.MountedAsWritten | src/app/citizen/track/page.tsx:245-252 | The mount as the code runs it: the recent list ends as the first three records, or as those three behind a record of the list, whose id may already be among them. |
| TrackPage.StaleMountDuplicatesRecent | src/app/citizen/track/page.tsx:245-252 | Bug as written: opening the page with the first record's id in the URL lists that record twice at the head of the recent list. The sequential mount keeps the list duplicate-free. |
| TrackPage.SelectRecentAgreesWithSearch | src/app/citizen/track/page.tsx:581-584 | Clicking a recent complaint shows the complaint a search for its id would show. |
| TrackPage.TrackPageState.constructor | src/app/citizen/track/page.tsx:211-216 | The box starts with the URL's id, or "" when there is none. Nothing is shown, no flag is set and the recent list is empty. |
| TrackPage.TrackPageState.SetSearchId | src/app/citizen/track/page.tsx:212 | Typing changes only the search box and keeps the invariant. |
| TrackPage.TrackPageState.SearchComplaint | src/app/citizen/track/page.tsx:219-242 | The handler leaves exactly the state `Search` computes and keeps the invariant. |
| TrackPage.TrackPageState.RememberRecent | src/app/citizen/track/page.tsx:232-233 | Only the recent list changes, and it becomes `RecentAfterHit` of the old list. |
| TrackPage.TrackPageState.Mount | src/app/citizen/track/page.tsx:245-252 | The mount leaves exactly the state `Mounted` computes: the first three records, then the URL search. It keeps the invariant. |
| TrackPage.TrackPageState.SelectRecent | src/app/citizen/track/page.tsx:581-584 | The click sets the box to the item's id and shows the item. Nothing else changes, and the invariant is kept. |
| TrackPage.TimelineMarker | src/app/citizen/track/page.tsx:443-451 | A registered status gets the registry's icon and colour. Any other status gets the clock in grey. |
| TrackPage.SubmittedFallsBack | src/app/citizen/track/page.tsx:443-451 | "submitted" entries fall back, and the grey fallback colour is no registered status's colour. |
| TrackRecords.MockIdsDistinct | src/app/citizen/track/page.tsx:57-168 | The hard-coded records have pairwise distinct ids. |
| SubmitPage.DecimalString | src/app/citizen/submit/page.tsx:74 | The number's text has at least one character, all of them digits, with no leading zero. |
| SubmitPage.ParseDecimalString | src/app/citizen/submit/page.tsx:74 | Reading the decimal text back gives the number. |
| SubmitPage.DecimalStringLength | src/app/citizen/submit/page.tsx:74 | A number between 10^(k-1) and 10^k is written with exactly k digits. |
| SubmitPage.GeneratedId | src/app/citizen/submit/page.tsx:74 | The reference number is 9 characters: "CMP" then six digits, not starting with 0, whose value is 100000 plus the draw. |
| SubmitPage.GeneratedIdInjective | src/app/citizen/submit/page.tsx:74 | Every generated number has the reference-number shape, and different draws give different numbers. |
| SubmitPage.EmailAccepted | src/app/citizen/submit/page.tsx:302 | The split at the first `@` and the last dot accepts an address if and only if the case-insensitive pattern matches it. |
| SubmitPage.SplitFromParts | src/app/citizen/submit/page.tsx:302 | Parts that pass the split checks, put back together, match the pattern. |
| SubmitPage.MatchSplits | src/app/citizen/submit/page.tsx:302 | A matching address splits at its first `@` into parts that pass the split checks. |
| SubmitPage.DoubledDotIsInvalid | src/app/citizen/submit/page.tsx:297 | A domain with two dots in a row is not a valid HTML e-mail domain. |
| SubmitPage.PatternAcceptsDoubledDot | src/app/citizen/submit/page.tsx:302 | The pattern accepts `a@b..cd`. |
| SubmitPage.BrowserBlocksDoubledDot | src/app/citizen/submit/page.tsx:297 | The browser blocks `a@b..cd`, so the pattern is never consulted for it. |
| SubmitPage.BrowserAcceptsPatternRejects | src/app/citizen/submit/page.tsx:297-305 | The browser accepts `a@b` and the pattern rejects it, so "Invalid email address" can still be shown. |
| SubmitPage.FieldMessage | src/app/citizen/submit/page.tsx:164-410 | A field shows a message exactly when its rule is broken: title, category and location filled in, description at least 20 characters, e-mail filled in and matching the pattern, terms ticked; the phone has no rule. |
| SubmitPage.FieldErrors | src/app/citizen/submit/page.tsx:164-410 | A field reports an error entry exactly when one of its rules fails, and the entry carries that rule's message. |
| SubmitPage.Validate | src/app/citizen/submit/page.tsx:46-51 | Every reported error carries the message of a rule its field breaks, and every field whose rule is broken has its entry. |
| SubmitPage.ValidateEmptyIff | src/app/citizen/submit/page.tsx:152 | No error is reported if and only if every rule holds: title, category and location are filled in, the description has at least 20 characters, the e-mail is filled in and matches the pattern, and the terms box is ticked. |
| SubmitPage.RemoveIndex | src/app/citizen/submit/page.tsx:61-63 | An index in range removes exactly that position. Any other index keeps the list. |
| SubmitPage.RemoveIndexMultiset | src/app/citizen/submit/page.tsx:61-63 | Removing a file in range takes out that one file and nothing else. |
| SubmitPage.InitialInvariant | src/app/citizen/submit/page.tsx:42-45 | The initial state satisfies the page invariant. |
| SubmitPage.AddFiles | src/app/citizen/submit/page.tsx:54-59 | Only the file list changes. Without a batch nothing changes; with one, the old files come first and the batch follows, both in order. |
| SubmitPage.RemoveFile | src/app/citizen/submit/page.tsx:61-63 | Only the file list changes. An index in range takes out exactly the file there; any other index keeps the list. |
| SubmitPage.Submitted | src/app/citizen/submit/page.tsx:65-89 | The submitting flag ends cleared and the errors are kept. A failed run changes nothing else. A successful one shows the panel with the generated number, which has the reference shape, and empties the file list. |
| SubmitPage.HandleSubmit | src/app/citizen/submit/page.tsx:152 | When the browser blocks the e-mail value nothing changes. Otherwise the errors become the validation result, and a new reference number appears only for a form that meets every rule, and it is the generated one. |
| SubmitPage.SubmitAnother | src/app/citizen/submit/page.tsx:126-129 | The panel is hidden and the number forgotten; the files, the errors and the submitting flag are kept. |
| SubmitPage.InvalidFormIsNotSubmitted | src/app/citizen/submit/page.tsx:152 | A form that breaks a rule is not submitted: only the errors may change. When the browser blocks the e-mail nothing changes; otherwise the error list is non-empty. |
| SubmitPage.ValidFormSucceeds | src/app/citizen/submit/page.tsx:152 | A valid form whose submission does not fail reaches the success panel with the generated number, no errors and no files exactly when the browser accepts the address; otherwise nothing changes. |
| SubmitPage.EventsKeepInvariant | src/app/citizen/submit/page.tsx:42-45 | Every event keeps the page invariant. Nothing is left submitting, the panel shows exactly when a number exists, and the number is well formed. |
| SubmitPage.SubmitComplaintPage.constructor | src/app/citizen/submit/page.tsx:42-45 | The page starts idle, without a number and with no files or errors. |
| SubmitPage.SubmitComplaintPage.HandleFileChange | src/app/citizen/submit/page.tsx:54-59 | The handler leaves exactly the state `AddFiles` computes. |
| SubmitPage.SubmitComplaintPage.RemoveFileAt | src/app/citizen/submit/page.tsx:61-63 | The handler leaves exactly the state `RemoveFile` computes. |
| SubmitPage.SubmitComplaintPage.OnSubmit | src/app/citizen/submit/page.tsx:65-89 | The handler leaves exactly the state `Submitted` computes and keeps the invariant. |
| SubmitPage.SubmitComplaintPage.Submit | src/app/citizen/submit/page.tsx:152 | The browser check runs first; the form submission leaves exactly the state `HandleSubmit` computes and keeps the invariant. |
| SubmitPage.SubmitComplaintPage.SubmitAnotherComplaint | src/app/citizen/submit/page.tsx:126-129 | The button leaves exactly the state `SubmitAnother` computes. |

## Left out

- Timing. The simulated delays (`setTimeout`, the awaited promise) are not modelled. Each handler is one atomic step, and a `setState` takes effect at once.
- The track page's stale closure is modelled only in `TrackPage.MountedAsWritten`. Everywhere else the model uses a single sequential writer.
- Date formatting (`toLocaleDateString`) and all rendering beyond the values above are left out.
- SubmitPage.GeneratedId: `Math.random()` is a parameter `draw`, already scaled to [0, 900000) and floored. Floating point is not modelled.
- SubmitPage.OnSubmit: the awaited call cannot throw in the source. The `failed` flag stands for a throw, so that the `catch`/`finally` path is covered.
- The form library's internals are left out. The model keeps only the rules' order and messages, not when errors are re-validated.
- `reset()` of the field values is left out, because the model does not hold the field values.
- Files are a name, a size and a MIME type. Their contents are not modelled.
- `update.status in statusBadges` is also true, in JavaScript, for `Object.prototype` names such as `"toString"`. The model treats only the five keys as registered.
- String lengths count characters, not UTF-16 code units. For text outside the Basic Multilingual Plane, the 20-character minimum may therefore differ.
- The admin dashboard's search box has no handler in the source and is not modelled. The same holds for the static statistics and task lists.
- The admin complaint detail page, the landing page and the shared components are not part of this model.
- Icons are opaque tags. CSS classes are plain strings.
- SubmitPage.HtmlEmailValid: the browser's value sanitisation (stripping line breaks and surrounding white space) and its handling of internationalised domain names are not modelled; the value is taken as the browser hands it to the check.
- The browser's own `required` check is not modelled separately: the form's inputs carry no `required` attribute, so only the form library's rule applies.
- TrackPage.TrackPageState.constructor: the records are a parameter with distinct ids, rather than the hard-coded list. `TrackRecords.MockComplaints` is that list, and `TrackRecords.MockIdsDistinct` shows it meets the requirement.

## Findings

| source | as written | input that shows it | evidently intended | confidence | as-written member | corrected member |
|---|---|---|---|---|---|---|
| src/app/citizen/dashboard/page.tsx:204-206 | `markNotificationAsRead` ignores its id and never marks the notification read. Every click on a still-unread notification decrements the counter. | Two unread notifications, one of them opened twice (for instance with a modifier-click that keeps the dashboard open): the badge shows 0 while the other is still unread. | Each notification is counted off once, so the badge shows the number of unread notifications not yet opened. | not executed | CitizenDashboard.DoubleClickHidesUnread | CitizenDashboard.CorrectedCounterCountsUnseen |
| src/app/citizen/track/page.tsx:245-252 | The mount effect calls `searchComplaint`, whose delayed callback tests the recent list captured at the first render (empty). The prepend it schedules then acts on the list loaded with the first three records. | Opening `/citizen/track?id=CMP123456` yields the recent list CMP123456, CMP123456, CMP654321, CMP789012. | The recent list never holds an id twice. | not executed | TrackPage.StaleMountDuplicatesRecent | TrackPage.MountedKeepsInvariant |
