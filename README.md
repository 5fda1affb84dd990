# Un día a la vez — a verified model of the app's core

This project models the core of "Un día a la vez". It is a small browser app for daily facial exercises and wellbeing, written in React and TypeScript. The model covers these parts:

- **Reminder scheduler** (`notifications.dfy`). It holds a process-wide dictionary from a channel id to the handle of a one-shot browser timer.
  - Scheduling an "HH:MM" time cancels the old timer.
  - It then computes the delay to the next occurrence of that wall-clock time. A time equal to now counts as passed.
  - It arms a timer. When the timer fires, it shows the notification if permission is granted, then schedules itself again.
  - The browser's table of pending timers is part of the state. This makes it possible to state that a cancelled timer can never fire.
- **App shell** (`app.dfy`):
  - the current view and which screen it renders;
  - the selected exercise;
  - the progress photos, kept newest first;
  - the log of completed exercises;
  - the reminder settings, with their persistence in local storage and the effect that keeps the scheduler in step with them.
- **Exercise countdown** (`exercise_detail.dfy`). It counts seconds per repetition and repetitions per exercise, with start/pause, reset and the completion callback.
- **Reminders screen** (`reminders.dfy`). Enabling a channel first asks for notification permission; a time change is also modelled.
- **Progress screen** (`progress_tracker.dfy`):
  - the photo record built from a capture;
  - the comparison selection of at most two photos;
  - the seven-day activity summary.
- **Activity chart** (`activity_chart.dfy`): its scale, its width, and each day's bars and label.
- **Encyclopedia** (`encyclopedia.dfy`):
  - the `**bold**` splitter, with the regular expression's JavaScript semantics written out;
  - the heading, list and paragraph layout of an article;
  - the search;
  - the grouping by category;
  - the single expanded article.
- **Exercise library filter** (`exercise_library.dfy`), **bottom navigation bar** (`bottom_nav_bar.dfy`) and **zen space** (`zen_space.dfy`, the breathing guide's phase cycle and the activities per mode).
- **Shared helpers and data types.** `base.dfy` holds the option type, string predicates and an order-keeping `Filter`. `types.dfy` mirrors the app's record types.

State that the source changes in place is a `class`: the scheduler's dictionary, the countdown, the reminders panel, the breathing guide and the app state. Each class method is specified against a pure function over a value state. The properties are proved as lemmas about those functions.

How the model stands in for the browser:

- **Clocks.** The scheduler's clock is milliseconds since local midnight. Dates are local milliseconds since the epoch. A calendar day is `t / 86 400 000`, and its weekday is `(day + 4) % 7`, because 1 January 1970 was a Thursday.
- **Inputs.** The browser's permission, the user's answer to the permission prompt, and the current time are parameters.

## Model

| member | source | states |
|---|---|---|
| Notifications.RequestPermission | utils/notifications.ts:5-22 | The prompt is shown iff the API exists and permission is still `default`. The result is granted iff permission already was granted, or the user grants it at the prompt. A grant without a prompt means it was granted before. |
| Notifications.ParseTime | utils/notifications.ts:36 | Parsing a well-formed "HH:MM" gives hours below 24 and minutes below 60. |
| Notifications.ParseFormat | utils/notifications.ts:36 | Parsing the zero-padded text of a valid time of day gives that time back. |
| Notifications.FormatParse | utils/notifications.ts:36 | Formatting a parsed well-formed time gives the original text back, so the parse loses nothing. |
| Notifications.TodayTarget | utils/notifications.ts:40-41 | Today's hh:mm:00.000 lies within the day. |
| Notifications.NextDelay | utils/notifications.ts:38-48 | The delay is positive and at most one day, and `now + delay` lands on the target wall-clock time. The negative-delay guard therefore never fires. |
| Notifications.NextDelayIsSoonest | utils/notifications.ts:38-48 | No positive delay that lands on the target time is shorter than the computed one. |
| Notifications.FiresTodayIff | utils/notifications.ts:43-46 | The timer fires today iff today's occurrence is strictly after now. Otherwise, equality included, it fires at tomorrow's occurrence. |
| Notifications.AtTargetNextIsOneDay | utils/notifications.ts:38-48 | Re-arming at exactly the target time gives a delay of one full day. |
| Notifications.EmptyIsConsistent | utils/notifications.ts:3 | The empty dictionary is consistent with the empty timer table and has no pending reminder. |
| Notifications.OneTimerPerId | utils/notifications.ts:3 | In a consistent state, two pending timers with the same id are the same timer. |
| Notifications.Cancelled | utils/notifications.ts:61-66 | With a truthy handle for `id`, the entry is deleted and its timer is no longer armed. Every other entry and every other armed timer stays as it was, and no handle is used up. |
| Notifications.Armed | utils/notifications.ts:52-58 | The next fresh handle is armed with the timer and recorded for its id. Other ids keep their handles, other timers stay armed, and the handle counter advances. |
| Notifications.Scheduled | utils/notifications.ts:32-59 | After scheduling, `id` holds the next fresh handle, armed with the given title, body, time and the next-occurrence delay. Other ids keep their handles, and one handle is used up. |
| Notifications.Fired | utils/notifications.ts:24-56 | The notification is shown iff permission is granted. The fired handle is no longer armed afterwards, and the id is re-armed with the same text and time and a fresh delay. |
| Notifications.CancelledSpec | utils/notifications.ts:61-66 | Cancelling keeps consistency and removes exactly `id` from the pending reminders. No timer for `id` is left. With no entry it changes nothing, and doing it twice is the same as once. |
| Notifications.ArmedSpec | utils/notifications.ts:52-58 | Arming a fresh handle for an id without an entry keeps consistency and adds exactly that reminder. |
| Notifications.ScheduledSpec | utils/notifications.ts:32-59 | Scheduling keeps consistency. The pending reminder of `id` becomes the new timer with the next-occurrence delay, and every other id keeps its reminder. Exactly one timer for `id` is pending, and the previous handle is no longer armed. |
| Notifications.ScheduleTwice | utils/notifications.ts:32-59 | Scheduling the same id twice leaves one pending timer for it: the second one. |
| Notifications.ScheduleThenCancel | utils/notifications.ts:32-66 | Scheduling and then cancelling leaves no timer that can fire for `id`. The other ids keep their reminders. |
| Notifications.ConsumedThenCancelled | utils/notifications.ts:52-56 | Cancelling the stale handle of a timer that has just fired gives the same state as cancelling the pending timer. |
| Notifications.FiredSpec | utils/notifications.ts:52-56 | A fired timer leaves the table. Its notification is shown iff permission is granted. The same reminder is re-armed whatever the permission, and the state stays consistent. |
| Notifications.Scheduler.constructor | utils/notifications.ts:3 | The dictionary starts empty. |
| Notifications.Scheduler.Cancel | utils/notifications.ts:61-66 | The new state is `Cancelled` of the old one. |
| Notifications.Scheduler.Schedule | utils/notifications.ts:32-59 | The new state is `Scheduled` of the old one: cancel, compute the delay, and arm a timer unless the delay is negative. |
| Notifications.Scheduler.Fire | utils/notifications.ts:52-56 | The new state and the shown flag are `Fired` of the old state. |
| App.Loaded | App.tsx:24-33 | Parsable stored settings replace the current ones. Otherwise the current settings stay, so the result is always the current settings or exactly what was stored. |
| App.SaveThenLoad | App.tsx:24-38 | Loading what was saved gives the saved settings; this holds by construction, because saving is modelled as storing the parsed settings rather than JSON text. With nothing parsable stored, the app starts from the defaults (both off, 09:00 and 21:00). Loading either keeps the current settings or takes exactly the stored ones. |
| App.Applied | App.tsx:41-61 | An enabled channel ends with its id pending, armed with that channel's timer. A disabled channel uses no handle and arms nothing new. Every other id keeps its handle. |
| App.Synced | App.tsx:40-62 | After the effect, each enabled channel's id is pending, the zen one armed with its own timer. Exactly one handle is used per enabled channel. |
| App.Tracked | App.tsx:40-62 | One channel's branch leaves that channel's timer exactly when it is enabled, with its own title, body and delay. Every other id is untouched. |
| App.TrackedFixes | App.tsx:40-62 | Pending reminders that already agree with a channel's setting are left unchanged by its branch. |
| App.AppliedSpec | App.tsx:40-62 | One channel's schedule-or-cancel keeps the scheduler consistent and leaves the pending reminders `Tracked` describes. |
| App.SyncedTracksSettings | App.tsx:40-62 | After the effect, exactly the enabled channels have a pending reminder, each with its channel's text, time and next-occurrence delay. Other ids keep theirs, and the scheduler stays consistent. |
| App.SyncIdempotent | App.tsx:40-62 | Running the effect twice with the same settings leaves the same pending reminders as once. |
| App.RenderContentCases | App.tsx:83-102 | Each view shows its own screen. The detail view shows the selected exercise, or the library when none is selected. The article-detail view has no case of its own and falls back to the dashboard. |
| App.InsertByDateContents | App.tsx:75-77 | Inserting a photo adds exactly that photo: the multiset grows by it, and every entry is the photo or an old one. |
| App.InsertKeepsOrder | App.tsx:75-77 | Inserting into a newest-first list keeps it newest first. |
| App.SortNewestFirst | App.tsx:76 | The sort keeps the length of its input. |
| App.SortIsPermutation | App.tsx:76 | The sort result is a permutation of its input. |
| App.SortIsNewestFirst | App.tsx:76 | The sort result is ordered newest first. |
| App.AddedPhoto | App.tsx:75-77 | Adding a photo gives the old photos plus the new one, newest first. |
| App.InsertOldestAppends | App.tsx:76 | A photo no newer than all the others goes last. |
| App.SortKeepsSorted | App.tsx:76 | Sorting a list that is already newest first leaves it unchanged. |
| App.SortIsStable | App.tsx:76 | The sort is stable: the photos taken at any one instant come out in the order they went in, as with `Array.prototype.sort`, which the ECMAScript specification requires to be stable. |
| App.InsertAfterEqualDates | App.tsx:75-77 | Inserting into a newest-first list puts the photo after every photo of its own instant, so each instant's photos keep their order with the new one last. |
| App.NoneOnLaterDate | App.tsx:76 | A newest-first list whose first photo is older than an instant holds no photo of that instant. |
| App.AddPhotoInserts | App.tsx:75-77 | On a newest-first list, adding a photo inserts it after every photo at least as new. A strictly newest photo goes first. |
| App.WithCompletion | App.tsx:79-81 | Recording a completion keeps the log and appends one record with the exercise id and the time. |
| App.AppState.constructor | App.tsx:15-33 | The app starts on the dashboard with nothing selected and no photos or completions. The settings are the stored ones if they parse, else the defaults. |
| App.AppState.HandleSetReminders | App.tsx:35-38 | The settings are replaced and written to storage. Nothing else changes. |
| App.AppState.SyncReminders | App.tsx:40-62 | The scheduler's new state is `Synced` of its old state under the current settings. |
| App.AppState.HandleSetView | App.tsx:65-68 | The view becomes the requested one. |
| App.AppState.HandleSelectExercise | App.tsx:70-73 | The exercise is selected, the view becomes the detail view, and the screen shows that exercise. |
| App.AppState.AddPhoto | App.tsx:75-77 | The photos become `AddedPhoto` of the old photos. |
| App.AppState.HandleExerciseCompletion | App.tsx:79-81 | The completion log becomes `WithCompletion` of the old log. |
| ExerciseDetail.Initial | components/ExerciseDetail.tsx:13-18 | The countdown opens within its bounds, and a tick leaves it unchanged because it is not running. |
| ExerciseDetail.AfterTick | components/ExerciseDetail.tsx:26-42 | An inactive countdown does not change. While running, a tick with seconds left takes one second and keeps the repetitions. A tick at zero with more than one repetition left starts the next repetition at full duration. A completion reports this exercise's id and leaves the countdown stopped and completed, and no other tick completes it. |
| ExerciseDetail.AfterStartStop | components/ExerciseDetail.tsx:53-63 | A completed exercise ignores the button. Otherwise the button flips running. Pausing keeps both counters; starting resets them to full. |
| ExerciseDetail.BoundsInvariant | components/ExerciseDetail.tsx:13-72 | Seconds stay in [0, duration] and repetitions in [0, reps], with at least one repetition left. This holds initially and after every tick and button press. |
| ExerciseDetail.CompletionEvent | components/ExerciseDetail.tsx:20-42 | `onComplete(id)` is called by a tick iff the countdown is active with no seconds and at most one repetition left. That tick stops and completes. An inactive countdown does not change. |
| ExerciseDetail.TickDecreasesLexicographically | components/ExerciseDetail.tsx:26-42 | While running, each tick either completes or strictly decreases (repetitions, seconds) lexicographically. |
| ExerciseDetail.TickConsumesOne | components/ExerciseDetail.tsx:26-42 | Each tick of a running countdown uses up exactly one remaining tick. The tick that uses up the last one completes. |
| ExerciseDetail.RunsToCompletion | components/ExerciseDetail.tsx:26-42 | A running countdown is still running, with no completion, before its remaining ticks are used up. At that point it has completed, with exactly one call of `onComplete`. |
| ExerciseDetail.StartedRunLength | components/ExerciseDetail.tsx:26-63 | Started from full counters, the exercise completes after exactly reps × (duration + 1) ticks, calling `onComplete` once. |
| ExerciseDetail.PauseThenStartRestarts | components/ExerciseDetail.tsx:53-63 | Pausing and then starting restarts from full counters instead of resuming. |
| ExerciseDetail.Session.constructor | components/ExerciseDetail.tsx:13-18 | The countdown opens stopped, not completed, with full counters. |
| ExerciseDetail.Session.Complete | components/ExerciseDetail.tsx:20-24 | The countdown stops and completes, and reports the exercise id. |
| ExerciseDetail.Session.Tick | components/ExerciseDetail.tsx:26-42 | The new state and the reported completion are `AfterTick` of the old state. |
| ExerciseDetail.Session.StartStop | components/ExerciseDetail.tsx:53-63 | The new state is `AfterStartStop` of the old one. |
| ExerciseDetail.Session.Reset | components/ExerciseDetail.tsx:65-72 | The countdown returns to its opening state, whatever the current one. |
| Reminders.WithEnabled | components/Reminders.tsx:64-67 | Only the chosen channel's on/off flag changes. Its time and the other channel stay. |
| Reminders.WithTime | components/Reminders.tsx:70-75 | Only the chosen channel's time changes. Its flag and the other channel stay. |
| Reminders.ToggleBackRestores | components/Reminders.tsx:64-67 | Switching a channel and switching it back gives the settings back. |
| Reminders.TimeChangeRestores | components/Reminders.tsx:70-75 | Restoring the old time gives the settings back, and a time change never switches any channel on or off. |
| Reminders.Panel.constructor | components/Reminders.tsx:32 | The panel starts with the browser's permission. |
| Reminders.Panel.HandleToggle | components/Reminders.tsx:44-68 | Disabling commits without a prompt. Enabling with permission already granted commits without a prompt. Otherwise permission is requested: on a grant the panel records it and commits the enabled settings; on a refusal nothing is committed and the panel keeps the answer, or the browser's state when there was no prompt. |
| ProgressTracker.CapturedPhoto | components/ProgressTracker.tsx:17-25 | A captured photo has no tags, the captured image, and its id and date from the two clock reads. |
| ProgressTracker.CapturesHaveDistinctIds | components/ProgressTracker.tsx:17-25 | Captures at different instants get different ids. This holds by construction, because the id is modelled as the capture instant that its ISO-8601 text encodes. |
| ProgressTracker.ToggleComparison | components/ProgressTracker.tsx:27-38 | A selected photo is deselected, keeping all the others. Otherwise the photo is appended when there is room, or replaces the older of two selections. |
| ProgressTracker.DeselectKeepsOrder | components/ProgressTracker.tsx:29-30 | Deselecting keeps the other selections in order and shortens the selection. |
| ProgressTracker.SelectionInvariant | components/ProgressTracker.tsx:27-38 | The selection never holds more than two photos or the same id twice. |
| ProgressTracker.SelectThenDeselect | components/ProgressTracker.tsx:27-38 | Selecting a photo while there is room, then deselecting it, gives the selection back. |
| ProgressTracker.Weekday | components/ProgressTracker.tsx:63 | The weekday index is one of the seven labels' positions. |
| ProgressTracker.Entry | components/ProgressTracker.tsx:46-66 | A day's entry carries the label of that day's weekday, and its counts are at most the numbers of completions and photos. |
| ProgressTracker.ChartData | components/ProgressTracker.tsx:40-69 | There are seven entries, six days ago first and today last. Each holds that day's weekday letter and its counts of completions and photos. |
| ProgressTracker.DaysPartitionWindow | components/ProgressTracker.tsx:50-60 | The per-day counts of consecutive days add up to the number of records in those days, so each record falls on exactly one day. |
| ProgressTracker.ChartCountsTheWeek | components/ProgressTracker.tsx:45-66 | The seven bars count each completion and photo of the last seven days exactly once. |
| ProgressTracker.WeekdaysAdvance | components/ProgressTracker.tsx:43-63 | Consecutive days carry consecutive weekday letters, wrapping every seven days. 'D' is Sunday. |
| ActivityChart.MaxValue | components/ActivityChart.tsx:14 | The scale is at least 5 and at least every count. It is 5 or one of the counts. |
| ActivityChart.Layout | components/ActivityChart.tsx:35-73 | There is one drawing per day, in order. Day i starts at 44·i with its photo bar and label 12 to the right, inside the chart's width. Its two bars have the heights of its exercise and photo counts on the chart's scale, between 0 and 150, and stand on the baseline. |
| ActivityChart.BarHeight | components/ActivityChart.tsx:37-38 | A bar is never negative. A zero count gives no bar, and a count equal to the scale gives a full bar. |
| ActivityChart.BarHeightBounds | components/ActivityChart.tsx:37-38 | A bar is between 0 and 150 high, and it reaches 150 iff its count equals the scale. |
| ActivityChart.BarHeightMonotone | components/ActivityChart.tsx:37-38 | A larger count never gives a shorter bar. |
| ActivityChart.DayPlacement | components/ActivityChart.tsx:36-64 | Day i starts at 44·i, and its photo bar and label sit 12 to the right. Both bars stand on the baseline within the chart's height, and the day fits in the chart's width. |
| ActivityChart.ChartWidthAndScale | components/ActivityChart.tsx:14-18 | The chart is 44 wide per day. With no data the scale is 5. |
| Encyclopedia.ConcatDropsEmpty | components/Encyclopedia.tsx:17 | Dropping the empty pieces does not change the text they make up. |
| Encyclopedia.JsSubstring | components/Encyclopedia.tsx:20 | Within bounds, `substring` is the slice. |
| Encyclopedia.SplitFrom | components/Encyclopedia.tsx:55 | The left-to-right scan for the separator yields at least one piece. |
| Encyclopedia.SplitOn | components/Encyclopedia.tsx:55 | Splitting gives at least one piece. |
| Encyclopedia.SplitJoin | components/Encyclopedia.tsx:55 | Joining the pieces with the separator gives the content back. |
| Encyclopedia.SplitPiecesFree | components/Encyclopedia.tsx:55 | No piece contains the separator. |
| Encyclopedia.CloseFrom | components/Encyclopedia.tsx:17 | The lazy `.*?` stops at a `**` reached without crossing a line terminator. Whenever such a `**` exists it is found, and nothing earlier is one, so the first is found. |
| Encyclopedia.MatchAt | components/Encyclopedia.tsx:17 | A marker match starts and ends with `**` and is at least four long. |
| Encyclopedia.SplitParts | components/Encyclopedia.tsx:17 | The split's pieces, concatenated, are the rest of the text. |
| Encyclopedia.StyledParts | components/Encyclopedia.tsx:17 | The non-empty pieces concatenate back to the text. |
| Encyclopedia.RenderPart | components/Encyclopedia.tsx:19-22 | A piece is bold iff it starts and ends with `**`. A plain piece keeps its text, and a bold piece of length four or more loses exactly the markers. |
| Encyclopedia.RenderStyled | components/Encyclopedia.tsx:15-24 | There is one segment per non-empty piece, and none for empty text. A piece is bold iff it starts and ends with `**`. Plain pieces keep their text, and bold pieces of length four or more lose exactly the two markers at each end. |
| Encyclopedia.RenderPartCases | components/Encyclopedia.tsx:19-22 | A piece wrapped in `**` is shown bold without the markers, and any other piece is plain. With JavaScript's clamped `substring`, `**` is bold `**` and `***` is bold `*`. |
| Encyclopedia.NoMatchOnePiece | components/Encyclopedia.tsx:17 | With no marker match ahead, the rest of the text is one piece. |
| Encyclopedia.UnmarkedTextIsPlain | components/Encyclopedia.tsx:15-24 | Non-empty text without `**` renders as one plain segment. |
| Encyclopedia.DigitRun | components/Encyclopedia.tsx:66 | The leading digit run is maximal. |
| Encyclopedia.NumberedPrefix | components/Encyclopedia.tsx:66 | A match of `^\d+\.\s` is digits, a dot and one whitespace character, and whenever the line starts that way the match is found. |
| Encyclopedia.FirstDashSpace | components/Encyclopedia.tsx:76 | The result is the leftmost dash followed by whitespace, or none when there is none. |
| Encyclopedia.StripItem | components/Encyclopedia.tsx:76 | Stripping never lengthens a line. |
| Encyclopedia.StripItemCases | components/Encyclopedia.tsx:76 | The leftmost match is removed: a leading "- " is stripped, and otherwise a leading number prefix is. |
| Encyclopedia.StripItemElsewhere | components/Encyclopedia.tsx:76 | A line with neither prefix loses its first dash-whitespace, wherever it is, or is kept whole when it has none. |
| Encyclopedia.RenderContent | components/Encyclopedia.tsx:55-89 | The content is split on blank lines into paragraphs that join back to it, with one block per paragraph, in order. A paragraph is a heading iff it starts and ends with `**`, a list iff it is not a heading and starts with "- " or a number prefix, and otherwise its segments are its styled text. |
| Encyclopedia.Classify | components/Encyclopedia.tsx:57-88 | A paragraph is a heading iff it starts and ends with `**`, titled by the text between the markers. Failing that, it is a list iff it starts with "- " or a number prefix, numbered iff the latter, with one item per line, each the line with its prefix stripped and styled. Anything else is a styled paragraph. |
| Encyclopedia.ParagraphsCoverContent | components/Encyclopedia.tsx:55 | The paragraphs joined by blank lines are the content, and no paragraph holds a blank line. |
| Encyclopedia.Matches | components/Encyclopedia.tsx:101-104 | The empty term matches every article. |
| Encyclopedia.MatchesIgnoresCase | components/Encyclopedia.tsx:101-104 | Matching ignores the case of the term: a term and its lower-cased form match the same articles. |
| Encyclopedia.FilterArticles | components/Encyclopedia.tsx:101-104 | The results are exactly the articles whose lower-cased title or summary contains the lower-cased term. |
| Encyclopedia.SearchProperties | components/Encyclopedia.tsx:101-104 | The empty search shows every article. Any search keeps the order. No result iff no article matches. |
| Encyclopedia.CategoriesInOrder | components/Encyclopedia.tsx:106-109 | There are no more categories than results, and with any result the first category is the first result's. |
| Encyclopedia.CategoriesInOrderSpec | components/Encyclopedia.tsx:106-109 | The categories are listed without repetition. A category is listed iff some result has it. |
| Encyclopedia.CategoriesStep | components/Encyclopedia.tsx:106-109 | One more result adds its category at the end when it is new, and changes nothing otherwise. |
| Encyclopedia.InCategoryStep | components/Encyclopedia.tsx:106-109 | One more result joins the end of its own category's group and no other. A category not yet listed has an empty group. |
| Encyclopedia.GroupStep | components/Encyclopedia.tsx:106-109 | Pushing one more result onto its category's group, created when missing, keeps the key order the first-appearance order and each group exactly its category's results. |
| Encyclopedia.GroupByCategory | components/Encyclopedia.tsx:106-109 | The groups are keyed in first-appearance order, and each holds exactly its category's results, in order. |
| Encyclopedia.GroupingPartitions | components/Encyclopedia.tsx:106-109 | An article is in a category's group iff it is a result of that category, and each group keeps the result order. |
| Encyclopedia.ToggleExpanded | components/Encyclopedia.tsx:111-113 | Clicking the expanded article collapses it. Any other click expands that one. |
| Encyclopedia.ToggleTwice | components/Encyclopedia.tsx:111-113 | Clicking the same article twice gives the previous state back when nothing was expanded or that article was the expanded one. (With another article expanded, two clicks end collapsed.) |
| ExerciseLibrary.FilterExercises | components/ExerciseLibrary.tsx:19-21 | "Todos" shows every exercise. A category shows exactly its exercises. |
| ExerciseLibrary.FilterKeepsOrder | components/ExerciseLibrary.tsx:19-21 | Every filter keeps the library's order. |
| ExerciseLibrary.ExactlyOneActive | components/ExerciseLibrary.tsx:54-77 | Exactly one of the six buttons is highlighted, whatever is selected. |
| ExerciseLibrary.EmptyStateIff | components/ExerciseLibrary.tsx:83-107 | The empty state shows iff the selected category has no exercise, or, with "Todos", iff there are none at all. |
| BottomNavBar.IsActive | components/BottomNavBar.tsx:17 | An item is highlighted for its own view, and only for views whose name is at least as long as the item's. |
| BottomNavBar.ActiveIffSame | components/BottomNavBar.tsx:17 | For the bar's items, the `startsWith` rule is equality. |
| BottomNavBar.ActiveRule | components/BottomNavBar.tsx:17-48 | A view of the bar highlights exactly its own item. The detail and reminders views highlight none, and no view highlights two. |
| BottomNavBar.Clicked | components/BottomNavBar.tsx:22 | Clicking an item highlights that item and no other. |
| ZenSpace.AfterToggle | components/ZenSpace.tsx:10-39 | The button flips running and keeps the phase shown. Starting restarts the index at 0, and stopping keeps it. |
| ZenSpace.AfterInterval | components/ZenSpace.tsx:16-19 | An interval keeps running as it is, moves the index one phase on modulo 4, and shows that cycle entry. |
| ZenSpace.CircleClass | components/ZenSpace.tsx:24-26 | The circle's class is one of the three scales, and stays at the normal size when not running. |
| ZenSpace.NextIndex | components/ZenSpace.tsx:17 | The index moves to the next of the four phases, wrapping to the first. |
| ZenSpace.PhaseAfterIntervals | components/ZenSpace.tsx:10-22 | After n intervals of a run started with the button, the index is n mod 4 and the phase is that cycle entry. Before the first interval the old phase stays. |
| ZenSpace.FourIntervalsReturn | components/ZenSpace.tsx:13-19 | Four intervals come back to the same index, and the phase shown is always one of the cycle's. |
| ZenSpace.CircleClassCases | components/ZenSpace.tsx:24-26 | While running, the circle grows on inhaling and shrinks on exhaling. Otherwise it keeps its size. |
| ZenSpace.BreathingGuide.constructor | components/ZenSpace.tsx:7-8 | The guide starts stopped at "Inhala". |
| ZenSpace.BreathingGuide.Toggle | components/ZenSpace.tsx:10-39 | The new state is `AfterToggle` of the old one: starting restarts the index and keeps the phase shown. |
| ZenSpace.BreathingGuide.Interval | components/ZenSpace.tsx:16-19 | The new state is `AfterInterval` of the old one. |
| ZenSpace.ActivitiesFor | components/ZenSpace.tsx:100 | Exactly the catalogue's activities of the mode are listed. |
| ZenSpace.ActivitiesPartition | components/ZenSpace.tsx:72-100 | Each list keeps the catalogue order, and the two modes split the catalogue between them. |
| ZenSpace.OpensOnBreathingGuide | components/ZenSpace.tsx:72-97 | The screen opens in breathing mode, which shows the breathing guide; meditation mode does not. |

## Left out

- Speech synthesis in the exercise detail screen and the joined instruction text are not modelled. They are browser output with no state the core reads back.
- The polling of the browser's notification permission on the reminders screen is not modelled. `Reminders.Panel.HandleToggle` takes the browser's permission as a parameter.
- Reminders.Panel.HandleToggle: the case where the browser has no Notification API is not modelled. The screen asks for permission with the API present, while `Notifications.RequestPermission` models the unsupported branch.
- Notifications.Scheduled: a time that is not a well-formed "HH:MM" is a precondition. The `NaN` delay such text produces in the source is not modelled.
- Notifications.NextDelay: local midnight is fixed, so daylight-saving transitions (days of 23 or 25 hours) are not modelled.
- ProgressTracker.ChartData: days are a fixed 86 400 000 ms, so `setDate` across a daylight-saving change is not modelled.
- App.Loaded: stored JSON of another shape is not validated; only text that fails to parse is told apart. The empty stored text counts as absent, as the source's truthiness test does.
- Encyclopedia.Matches: lower-casing is ASCII only, so Unicode case mapping is not modelled.
- The photo id is modelled as the instant it encodes rather than as its ISO-8601 text.
- The `type` field of a zen activity is named `mode`, because `type` is a Dafny keyword.
- Chart heights are exact reals, not floating point.
- JSX structure, CSS classes and transitions, `window.scrollTo`, the dashboard tip, the progress ring's stroke arithmetic and the zen mode description texts are presentation and are not modelled.
- `components/PhotoCapture.tsx` and `components/VirtualMirror.tsx` are not part of this model. Camera access is outside the core; a capture enters as `ProgressTracker.CapturedPhoto`.
- The timer delay is not bounded by the browser's 32-bit `setTimeout` limit. Delays are at most one day, far below it.
