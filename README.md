# learnflow-ai core in Dafny

This project models the logic at the heart of the learnflow-ai quiz
application and proves properties of it. It covers:

- **The application store** (`Store`, from `store/store.ts`): the theme
  toggles, session handling, sign-out, profile update, the statistics
  derived from the quiz history, and the actions on history, saved quizzes,
  goals and badges. The store is a class whose fields the actions replace.
  Every request it would send to the hosted backend is appended to a ghost
  `outbox` log instead of being executed.
- **The quiz player** (`QuizPlayer`, from `QuizPlayer.tsx`): the flashcard
  cursor, the question-by-question session, the answer streak, and the
  scoring fold that builds the `QuizResult`.
- **Goals** (`Goals`, `GoalCard`): creating a goal with its defaults, the
  Completed / In Progress / Total counters, a card's percentage, its
  milestones, the remaining amount, the completion rate, the increment
  button and the completion celebration.
- **Achievements** (`Achievements`): the order in which badges are shown and
  the unlocked counter.
- **The activity heatmap** (`CalendarHeatmap`): the Monday-aligned grid of
  weeks, the per-day statistics of a row, the week-complete flag and a
  tile's intensity.
- **The sign-in page** (`Login`): address normalisation and validation,
  error-message rewriting, the sign-up name default, and the submit
  handler.
- **The quiz generator** (`Gemini`, from `services/gemini.ts`): the key
  checks, the excerpt of the source text, the normalisation of the model's
  reply into a `Quiz`, and the error mapping.

Shared modules:

- `Types` holds the data shapes of `types.ts`.
- `Seqs` holds filter, map and sum over sequences, with their lemmas.
- `JsMath` holds `Math.round` of a quotient, as `RoundDiv`, plus min and max.
- `JsStrings` holds the JavaScript string operations used: `trim`, ASCII
  `toLowerCase`, `indexOf`, `includes`, `replace` and decimal rendering.

Remote calls, clocks and random ids become parameters:

- a sign-in or sign-up outcome;
- the model's reply;
- the profile row and the fetched lists;
- `Date.now()` and `crypto.randomUUID()`.

Dates are day numbers counted from 1970-01-01.

## Where the code and its documentation differ

The model follows the code in each case.

- `removeResult` removes every attempt with the given timestamp, not only
  the first (store/store.ts:277). `Store.WithoutAttemptProperties` states
  this.
- `updateGoalProgress` caps progress at the target but has no lower bound
  (store/store.ts:330). A negative increment takes `current` below zero, as
  `Store.NegativeIncrementGoesBelowZero` shows.
- Some actions run without a signed-in user: `removeResult`, `removeGoal`,
  `updateGoalProgress` and `unlockBadge` check for none.
- On a failed read, `fetchUserData` replaces the user's lists with empty
  ones. The hosted client reports a failed query as missing data rather
  than by throwing, and `|| []` turns that into an empty list. Only an
  exception leaves the state as it was.
- The heatmap's comment says five weeks always cover the month. They do not
  (see Findings).

## Model

| member | source | states |
|---|---|---|
| Store.InitialStatsAreEmptyHistoryStats | store/store.ts:87-94 | the initial statistics are exactly those computed from an empty history |
| Store.LevelDecomposition | store/store.ts:208 | for non-negative XP the level is at least 1, and XP = (level-1)·1000 + XP mod 1000 |
| Store.LevelMonotone | store/store.ts:208 | more XP never gives a lower level |
| Store.StatsOrderIndependent | store/store.ts:203-211 | two histories that are permutations of each other give identical statistics |
| Store.AverageInRange | store/store.ts:205 | when every score is in [0,100], the rounded average is in [0,100] |
| Store.XpNonNegative | store/store.ts:206-208 | non-negative scores and question counts give non-negative XP and a level of at least 1 |
| Store.StatsAfterPrepend | store/store.ts:237-244 | putting an attempt first adds exactly its score, its questions and its XP to the totals, and sets the streak to 1 |
| Store.ComputeStats | store/store.ts:203-212 | the statistics derived from a history; `StatsOrderIndependent`, `AverageInRange`, `XpNonNegative`, `LevelDecomposition`, `StatsAfterPrepend` and `InitialStatsAreEmptyHistoryStats` state its properties |
| Store.StatsExample | store/store.ts:203-211 | scores 80 and 60 over 10 and 5 questions give 2 quizzes, average 70, 15 questions, 290 XP, level 1 |
| Store.CatalogFacts | store/store.ts:55-64 | the catalog has eight badges, all locked, with no unlock time |
| Store.CatalogShapedHasPositiveGoals | store/store.ts:55-64 | every badge list of catalog shape has a positive `maxProgress` throughout |
| Store.UnlockInProperties | store/store.ts:341-343 | unlocking sets only the badges with that id to unlocked at `now`, leaves the others alone, never relocks, and keeps catalog shape |
| Store.WithoutAttemptProperties | store/store.ts:276-278 | removal drops every attempt with the timestamp, keeps all others, is the identity when none matches, and is idempotent |
| Store.WithoutAttemptKeepsOrder | store/store.ts:277 | removal distributes over concatenation, so survivors keep their order |
| Store.WithoutGoalProperties | store/store.ts:321 | removal drops exactly the goals with that id and is the identity for an unknown id |
| Store.FindGoal | store/store.ts:327 | the result is the first goal with the id, or none iff no goal has it |
| Store.GoalsAfterProgressProperties | store/store.ts:326-336 | an unknown id changes nothing; matching goals change only `current`, set to min(target, current+increment) of the first match; others are kept |
| Store.ProgressKeepsGoalsInRange | store/store.ts:330-336 | with unique ids and a non-negative increment, every goal stays within [0, target] |
| Store.NegativeIncrementGoesBelowZero | store/store.ts:330 | an increment of -1 on a goal at 0 of 10 leaves it at -1 |
| Store.ProfileFromSession | store/store.ts:110-119 | the profile takes its id and e-mail from the session; the name is row name, else metadata name, else "Student"; the title is row title, else "Student" |
| Store.ApplyUpdate | store/store.ts:150 | each field of the update that is supplied replaces the profile's, the rest are kept |
| Store.TogglesAreInvolutions | store/store.ts:68-77 | each toggle changes its field and toggling twice restores it |
| Store.AppStore.constructor | store/store.ts:67-94 | the initial state: light indigo grid theme, no user, loading, empty lists, the badge catalog, zero statistics at level 1 |
| Store.AppStore.ToggleTheme | store/store.ts:68 | the theme flips between light and dark |
| Store.AppStore.SetThemeColor | store/store.ts:71 | the accent colour becomes the one given |
| Store.AppStore.ToggleDashboardLayout | store/store.ts:74 | the layout flips between grid and list |
| Store.AppStore.ToggleReduceMotion | store/store.ts:77 | reduce-motion is negated |
| Store.AppStore.HandleSession | store/store.ts:96-130 | no session clears the user and every list; a session authenticates, and unless the profile read throws it sets the built profile and requests the user's data |
| Store.AppStore.Login | store/store.ts:132 | the given user is signed in |
| Store.AppStore.Logout | store/store.ts:134-143 | signs out remotely, clears the user and the three lists, and keeps statistics and badges |
| Store.AppStore.UpdateUser | store/store.ts:145-159 | without a user nothing changes; otherwise the update is merged in and the name/title row update is issued |
| Store.AppStore.FetchUserData | store/store.ts:161-229 | with a user, the fetched lists replace the local ones (missing ones become empty) and the statistics are recomputed from the new history; an exception changes nothing |
| Store.AppStore.AddResult | store/store.ts:231-272 | with a user, the result goes first in the history, every statistic but the streak is recomputed, and the insert and a re-sync are issued; without a user nothing changes |
| Store.AppStore.RemoveResult | store/store.ts:274-281 | the history becomes the history without every attempt of that timestamp |
| Store.AppStore.SaveQuiz | store/store.ts:283-299 | with a user, the quiz is put first and the insert and a re-sync are issued; otherwise nothing changes |
| Store.AppStore.AddGoal | store/store.ts:301-318 | with a user, the goal is appended and inserted remotely; otherwise nothing changes |
| Store.AppStore.RemoveGoal | store/store.ts:320-323 | the goals with that id are removed and the delete is issued, with no user check |
| Store.AppStore.UpdateGoalProgress | store/store.ts:325-339 | the goals become the progressed list; the update is issued only when the id is found |
| Store.AppStore.UnlockBadge | store/store.ts:341-343 | the badges become the unlocked list, catalog shape is kept, and no unlocked badge is relocked |
| QuizPlayer.FlashcardViewer.constructor | QuizPlayer.tsx:11-14 | the viewer starts on the first card, face up |
| QuizPlayer.FlashcardViewer.CurrentCard | QuizPlayer.tsx:32 | the card shown is one of the quiz's cards |
| QuizPlayer.FlashcardViewer.Flip | QuizPlayer.tsx:45 | clicking turns the card over |
| QuizPlayer.FlashcardViewer.HandleNext | QuizPlayer.tsx:16-22 | moves to the next card, face up, only when there is one; the index stays in range |
| QuizPlayer.FlashcardViewer.HandlePrev | QuizPlayer.tsx:24-30 | moves to the previous card only when there is one; the index stays in range |
| QuizPlayer.TrailingCorrect | QuizPlayer.tsx:157-162 | the streak is the length of the maximal run of correct answers at the end of the answer list |
| QuizPlayer.TrailingCorrectAppend | QuizPlayer.tsx:157-162 | a correct answer extends the streak by one and a wrong one resets it to 0 |
| QuizPlayer.AnsweredInOrderAppend | QuizPlayer.tsx:163-165 | recording the answer for the current question keeps every answer paired with the question at its position |
| QuizPlayer.FindQuestion | QuizPlayer.tsx:183 | the result is the first question with the id, or none iff no question has it |
| QuizPlayer.CorrectCount | QuizPlayer.tsx:182-185 | the number of correct answers never exceeds the number of answers |
| QuizPlayer.CorrectCountIsPositional | QuizPlayer.tsx:182-185 | with unique question ids and answers in question order, scoring by id equals scoring by position |
| QuizPlayer.AllCorrectCountsAll | QuizPlayer.tsx:182-185 | when every answer is correct, every answer counts |
| QuizPlayer.ScorePercent | QuizPlayer.tsx:189 | the score is `Math.round` of 100·correct/total: the nearest integer, halves rounded up; its range is stated by `ScorePercentRange` |
| QuizPlayer.ScorePercentRange | QuizPlayer.tsx:189 | the score is in [0,100]: 100 when all are correct, 0 when none are |
| QuizPlayer.FinishQuiz | QuizPlayer.tsx:181-196 | the result carries the quiz's id and title, the answers, the question total, the number of answers that match their question's correct option, the rounded percentage of that number over the question total (in [0,100], 100 when all correct), and the rounded elapsed seconds |
| QuizPlayer.QuizSession.constructor | QuizPlayer.tsx:122-130 | the session starts on the first question with nothing selected, no answers and a zero streak |
| QuizPlayer.QuizSession.HandleOptionSelect | QuizPlayer.tsx:146-149 | a selection is recorded only while the question is unanswered, and the session stays well formed |
| QuizPlayer.QuizSession.HandleSubmitAnswer | QuizPlayer.tsx:151-167 | without a selection nothing happens; otherwise the answer is appended for the current question and the streak grows or resets; one answer per question reached, and the streak stays the trailing correct run |
| QuizPlayer.QuizSession.HandleNext | QuizPlayer.tsx:169-179 | before the last question it advances and clears the selection; on the last it returns the finished result over all the answers |
| QuizPlayer.PerfectRunScoresHundred | QuizPlayer.tsx:181-196 | a session with every question answered correctly scores 100 with a full correct count |
| Goals.TargetOrDefault | pages/Goals.tsx:46 | the target is the typed number, or 10 when it is zero or not a number; it is never zero |
| Goals.NewGoal | pages/Goals.tsx:42-51 | the new goal is `g-<now>` with the form's title and description, no progress, the form's target or 10 when it is zero or not a number, and the form's unit, category and colour, each replaced by "units", quiz or blue when unset |
| Goals.NewGoalStartsInProgress | pages/Goals.tsx:42-51 | with a target the field allows, a new goal starts in progress and within range |
| Goals.NewGoalIdsDistinct | pages/Goals.tsx:43 | goals created at different times get different ids |
| Goals.CountersPartition | pages/Goals.tsx:108-126 | Completed plus In Progress equals Total |
| Goals.ProgressKeepsCompletedGoals | pages/Goals.tsx:108 | with unique ids, non-negative progress never un-completes a goal, so the Completed counter never drops |
| Goals.GoalsPage.constructor | pages/Goals.tsx:12-22 | the modal starts closed with the initial form |
| Goals.GoalsPage.OpenModal | pages/Goals.tsx:94 | the modal opens |
| Goals.GoalsPage.EditForm | pages/Goals.tsx:191-262 | the form becomes the edited form |
| Goals.GoalsPage.HandleCreate | pages/Goals.tsx:38-62 | without a title or description nothing changes; otherwise the modal closes, the form resets, and for a signed-in user the new goal is appended to the goals and its insert to the outbox (a signed-out store is left as it was) |
| GoalCard.PercentOf | GoalCard.tsx:63 | a non-zero target gives a finite percentage, and every finite percentage is capped at 100 (a zero target makes JavaScript divide by zero, so the percentage may be infinite or NaN) |
| GoalCard.MilestoneCrossMultiplied | GoalCard.tsx:179-180 | for a positive target, milestone m is reached iff 100·current ≥ m·target, and reaching one means every lower one is reached |
| GoalCard.FullIffCompleted | GoalCard.tsx:63-64 | for a positive target the bar is at 100 exactly when the goal is completed |
| GoalCard.Remaining | GoalCard.tsx:234 | the remaining amount is non-negative, zero iff completed, and otherwise what current lacks to reach the target |
| GoalCard.CompletionRate | GoalCard.tsx:230 | the rate is `Math.round` of 100·current/target: the nearest integer, halves rounded up; its range is stated by `CompletionRateRange` |
| GoalCard.CompletionRateRange | GoalCard.tsx:230 | a goal within [0, target] has a rate in [0,100], exactly 100 when completed |
| GoalCard.HandleIncrement | GoalCard.tsx:89-94 | a completed goal is left alone; otherwise the store records progress of 1 and, when the goal is in the store, queues the update with the new progress |
| GoalCard.FiresOnCrossing | GoalCard.tsx:70 | for a positive target the celebration fires iff a completed goal follows a percentage below 100, and never fires twice in a row |
| GoalCard.CompletionEffect.constructor | GoalCard.tsx:58-67 | the previous percentage starts at 0 and no celebration is shown |
| GoalCard.CompletionEffect.Run | GoalCard.tsx:69-87 | the effect fires exactly on the firing condition against the previous percentage, then records the current percentage |
| GoalCard.CompletionEffect.CelebrationTimeout | GoalCard.tsx:84 | the celebration ends |
| Achievements.Compare | pages/Achievements.tsx:11-16 | an unlocked badge goes before a locked one; within one lock state `CompareMatchesRatio` gives the sign of the ratio difference |
| Achievements.CompareMatchesRatio | pages/Achievements.tsx:12-14 | for positive maxima the integer comparator has the sign of the ratio difference |
| Achievements.CompareAntisymmetric | pages/Achievements.tsx:11-16 | swapping the badges negates the comparator |
| Achievements.CompareTransitive | pages/Achievements.tsx:11-16 | with positive maxima the comparator's order is transitive |
| Achievements.Insert | pages/Achievements.tsx:11-16 | insertion adds exactly the one badge |
| Achievements.SortBadges | pages/Achievements.tsx:11 | the sorted copy holds the same badges |
| Achievements.InsertSorted | pages/Achievements.tsx:11-16 | inserting into a sorted list keeps it sorted |
| Achievements.SortBadgesSorted | pages/Achievements.tsx:11-16 | the displayed order is sorted by the comparator |
| Achievements.SortBadgesStable | pages/Achievements.tsx:11-16 | the sort is stable: the badges the comparator ties with any badge appear in their input order |
| Achievements.SortedBadgesOrder | pages/Achievements.tsx:10-16 | the display is a permutation; unlocked badges come before locked ones; within one lock state the progress ratio never increases |
| Achievements.UnlockedCount | pages/Achievements.tsx:50 | the unlocked count is at most the number of badges |
| Achievements.UnlockedCountIsSum | pages/Achievements.tsx:50 | the unlocked count is the sum of one per unlocked badge |
| Achievements.UnlockedPrefix | pages/Achievements.tsx:50 | in a list with unlocked badges first, exactly the first `count` entries are unlocked |
| Achievements.UnlockedCounterMatchesDisplay | pages/Achievements.tsx:50 | sorting keeps the counter, and the counter is the number of leading unlocked cards |
| Achievements.StoreBadgesDisplay | pages/Achievements.tsx:11-16 | the store's badge list always shows sorted, with the counter equal to the leading unlocked cards |
| CalendarHeatmap.Weekday | components/CalendarHeatmap.tsx:19 | `getDay()` is in [0,7) |
| CalendarHeatmap.Offset | components/CalendarHeatmap.tsx:19 | the Monday-based offset is in [0,6] |
| CalendarHeatmap.GridStart | components/CalendarHeatmap.tsx:19-20 | the grid starts at most six days before the 1st; `GridStartIsMonday` shows it is a Monday |
| CalendarHeatmap.GridStartIsMonday | components/CalendarHeatmap.tsx:17-20 | the grid starts on the Monday on or before the 1st, at most six days earlier |
| CalendarHeatmap.BuildWeeks | components/CalendarHeatmap.tsx:22-33 | the nested loops produce `count` rows of seven consecutive days from the start |
| CalendarHeatmap.GetCalendarWeeks | components/CalendarHeatmap.tsx:9-36 | the grid is five rows from the Monday on or before the 1st |
| CalendarHeatmap.GridIsConsecutive | components/CalendarHeatmap.tsx:23-31 | each cell is the day after the previous one, across rows too, and every row starts on a Monday |
| CalendarHeatmap.ShowsIffInRange | components/CalendarHeatmap.tsx:26-33 | a grid shows a day iff it lies in its range of 7·count days |
| CalendarHeatmap.FiveWeeksCoverIff | components/CalendarHeatmap.tsx:25-26 | five rows show the whole month iff offset + length ≤ 35 |
| CalendarHeatmap.FiveWeeksMissMonthEnd | components/CalendarHeatmap.tsx:25-26 | March 2025 starts on a Saturday (offset 5), and its 31st is not shown |
| CalendarHeatmap.GetCoveringWeeks | components/CalendarHeatmap.tsx:25-26 | the corrected grid has as many rows as the month needs |
| CalendarHeatmap.CoveringWeeksShowMonth | components/CalendarHeatmap.tsx:25-26 | the corrected grid shows every day of the month, has no row wholly after it, has at most six rows, and has five or fewer iff five were enough |
| CalendarHeatmap.AttemptsOnMeasures | components/CalendarHeatmap.tsx:137-140 | the filtered attempts of a day are as many as the history positions completed that day, and their seconds add up, in history order, to that day's time |
| CalendarHeatmap.DayStatsOf | components/CalendarHeatmap.tsx:134-145 | the count is the number of history entries completed that day (positive iff there is one), the time is the sum of their seconds (non-negative for non-negative times), and today and the current month are flagged exactly |
| CalendarHeatmap.ProcessWeek | components/CalendarHeatmap.tsx:134-145 | each day of the row gets its statistics, in order |
| CalendarHeatmap.IsWeekComplete | components/CalendarHeatmap.tsx:147 | `processedDays.every(d => d.count > 0)`; `WeekCompleteIffEveryDayActive` shows it holds iff an attempt was completed on each day of the row |
| CalendarHeatmap.WeekCompleteIffEveryDayActive | components/CalendarHeatmap.tsx:147 | a week is complete iff an attempt was completed on each of its days |
| CalendarHeatmap.Intensity | components/CalendarHeatmap.tsx:57-66 | the intensity is always an index into the five colours: the count below four, else the last |
| CalendarHeatmap.TooltipMinutes | components/CalendarHeatmap.tsx:363 | the minutes shown are the whole minutes in the total seconds |
| JsStrings.Trim | pages/Login.tsx:33 | trimming removes only white space: the result is the slice of the input left once the white space before and after it is dropped, with no white space at either end, empty iff the input is all white space |
| JsStrings.TrimUnique | pages/Login.tsx:33 | any slice with only white space outside it and none at its ends is the trimmed string |
| JsStrings.TrimIdempotent | pages/Login.tsx:33-34 | trimming twice equals trimming once |
| JsStrings.ToLowerProperties | pages/Login.tsx:33 | lowercasing leaves no ASCII capital, is idempotent, and keeps white space, '@' and '.' where they were |
| JsStrings.IndexOf | pages/Login.tsx:109 | the result is the first position where the pattern occurs, or none iff it occurs nowhere |
| JsStrings.ContainsIffIndexOf | pages/Login.tsx:61 | `includes` succeeds iff `indexOf` finds a position |
| JsStrings.ReplaceFirst | pages/Login.tsx:109 | only the first occurrence is replaced; no occurrence leaves the string unchanged |
| JsStrings.Splice | pages/Login.tsx:109 | the replaced text keeps the characters before the cut, then the replacement, then the characters after the cut |
| JsStrings.RemoveFirstKeepsOccurrence | pages/Login.tsx:109-111 | removing the first "AuthApiError: " keeps any mention of "Failed to fetch", since the two cannot overlap |
| JsStrings.NatToStringRoundTrip | pages/Goals.tsx:43 | reading the rendered numeral back gives the number |
| JsStrings.PrefixedNumeralsDistinct | pages/Goals.tsx:43 | a prefix followed by two different numbers gives two different strings |
| JsMath.RoundDiv | store/store.ts:205 | `Math.round(a/b)` is the integer within one half of a/b, halves rounded up |
| JsMath.RoundDivMonotone | store/store.ts:205 | rounding is monotone in the numerator |
| JsMath.RoundDivBounds | store/store.ts:205 | 0 ≤ a ≤ k·b rounds into [0, k] |
| JsMath.RoundDivExact | store/store.ts:205 | a whole quotient rounds to itself |
| Login.NormalizeEmail | pages/Login.tsx:33 | the clean address is no longer than the input, has no ASCII capital and no white space at either end |
| Login.NormalizeEmailTrimsAndLowers | pages/Login.tsx:33 | the clean address is, character by character, the lower-case of a slice of the input that has only white space outside it |
| Login.EmailPatternIffShape | pages/Login.tsx:37 | the pattern accepts exactly the strings with no white space, exactly one '@' with text before it, and a '.' with text on both sides after it |
| Login.SignInErrorMessage | pages/Login.tsx:59-66 | "Invalid login" becomes the credentials message; otherwise "Failed to fetch" becomes the connection message; any other message is kept |
| Login.CatchMessage | pages/Login.tsx:106-115 | the message shown never mentions "Failed to fetch" |
| Login.CatchMessageStripsTag | pages/Login.tsx:108-109 | a message tagged "AuthApiError: " is shown without the tag |
| Login.CatchMessageKeepsPlain | pages/Login.tsx:108-115 | a non-empty untagged message without a fetch failure is shown as it is |
| Login.CatchMessageDefault | pages/Login.tsx:108 | an error without a message is shown as "Authentication failed." |
| Login.CatchMessageFetchFailure | pages/Login.tsx:109-113 | a message mentioning "Failed to fetch", tagged or not, is replaced by the hint about missing connection settings |
| Login.CatchMessageKeepsSignInMessages | pages/Login.tsx:61-64 | the two messages the sign-in branch throws are shown unchanged |
| Login.SignUpName | pages/Login.tsx:79 | the sign-up name is the trimmed name, or "Student" when that is empty; never empty |
| Login.RequestsMade | pages/Login.tsx:52-96 | one or two requests, all with the clean address; a sign-up carries the sign-up name; signing in makes exactly one sign-in |
| Login.SubmitOutcome | pages/Login.tsx:28-119 | what `handleSubmit` does for given request outcomes; `SubmitRejectsBadEmail`, `SubmitRequestsUseCleanEmail`, `SubmitCalls` and `SubmitErrorIsRewritten` state its properties, and `LoginOutcome` and `SignUpOutcome` the messages shown |
| Login.SubmitRejectsBadEmail | pages/Login.tsx:39-49 | an empty address and an address of the wrong shape are rejected with their messages, and no request is made |
| Login.SubmitRequestsUseCleanEmail | pages/Login.tsx:33-96 | every request carries the normalised address, a request is made only for an address of the accepted shape, and a sign-up carries the sign-up name |
| Login.SubmitErrorIsRewritten | pages/Login.tsx:106-115 | the error shown never mentions "Failed to fetch"; navigating implies no error and at least one request |
| Login.LoginOutcome | pages/Login.tsx:52-71 | the page navigates exactly when sign-in returns a session; a response without error shows nothing; an "Invalid login" error shows "Invalid email or password.", a fetch failure the connection message, any other error or thrown error its rewritten message |
| Login.SignUpOutcome | pages/Login.tsx:72-105 | the page navigates exactly when the sign-up or the automatic sign-in after it returns a session, then with no error; an error from the sign-up shows its rewritten message; an automatic sign-in without a session or with an error response shows the auto-login message, one that throws its rewritten message |
| Login.Submit | pages/Login.tsx:30-105 | the address checks followed by the sign-in or sign-up attempt give the submit outcome |
| Login.AttemptSignIn | pages/Login.tsx:52-71 | the sign-in path with its catch gives the sign-in outcome |
| Login.AttemptSignUp | pages/Login.tsx:72-105 | the sign-up path with its catch makes the requests of a sign-up and gives the sign-up outcome |
| Login.LoginPage.constructor | pages/Login.tsx:10-16 | the form starts in sign-in mode, empty, not loading, with no error |
| Login.LoginPage.HandleEmailChange | pages/Login.tsx:18-21 | the address is replaced and the error cleared |
| Login.LoginPage.HandlePasswordChange | pages/Login.tsx:23-26 | the password is replaced and the error cleared |
| Login.LoginPage.HandleNameChange | pages/Login.tsx:182 | the name is replaced |
| Login.LoginPage.SwitchMode | pages/Login.tsx:121-124 | the mode flips and the error is cleared |
| Login.LoginPage.HandleSubmit | pages/Login.tsx:28-119 | requests, navigation and error are those of the submit outcome for the form's fields, and loading ends on every path |
| Gemini.FixedMessagesWithout400 | services/gemini.ts:125-126 | none of the fixed error messages mentions "400" |
| Gemini.CatchError | services/gemini.ts:122-128 | an error mentioning 400 becomes the invalid-key error, any other is rethrown unchanged; what leaves never mentions 400 |
| Gemini.CatchErrorIdempotent | services/gemini.ts:122-128 | mapping an already mapped error changes nothing |
| Gemini.KeyError | services/gemini.ts:27-35 | a missing key gives the missing-key error, a placeholder key the placeholder error, and only a real key passes |
| Gemini.Excerpt | services/gemini.ts:46 | the excerpt is a prefix of the text of at most 15000 characters: the whole text when shorter, exactly 15000 otherwise |
| Gemini.ExcerptIdempotent | services/gemini.ts:46 | cutting an excerpt again keeps it whole |
| Gemini.FallbackId | services/gemini.ts:110 | the id is the given one when present and non-empty, else the prefix and the index; never empty |
| Gemini.FallbackIdsDistinct | services/gemini.ts:108-116 | when the given ids are distinct and none has the generated prefix, two positions get different ids |
| Gemini.NormalizeQuestions | services/gemini.ts:108-112 | one question per raw question, in order, keeping text, options, answer and explanation |
| Gemini.NormalizeFlashcards | services/gemini.ts:113-116 | no flashcards give none; otherwise one card per raw card, keeping front and back |
| Gemini.NormalizedQuestionIds | services/gemini.ts:108-112 | every question id is non-empty, a given id is kept, and safe given ids make all ids unique |
| Gemini.QuestionsWithoutIdsGetUniqueIds | services/gemini.ts:110 | questions without ids get unique ids |
| Gemini.NormalizedFlashcardIds | services/gemini.ts:113-116 | every card id is non-empty, and safe given ids make all ids unique |
| Gemini.GenerateQuiz | services/gemini.ts:19-129 | `generateQuizFromText` for a given reply; `KeyChecksComeFirst`, `ParsedReplyGivesQuiz` and `ErrorsAfterTheRequest` state its properties |
| Gemini.KeyChecksComeFirst | services/gemini.ts:27-46 | a missing or placeholder key fails with its message before any request; a request is made iff the key is real, and quotes the excerpt |
| Gemini.ParsedReplyGivesQuiz | services/gemini.ts:104-118 | a parsed reply gives a quiz with the given id, time and topic, the reply's title, and the reply's questions and flashcards (none when absent) normalised one for one, so each keeps its text, options, answer, explanation or faces, with non-empty ids |
| Gemini.ErrorsAfterTheRequest | services/gemini.ts:97-128 | no error that leaves mentions 400; a failed request or an unparsable reply keeps its error unless that mentions 400, which becomes the invalid-key error; an empty reply reports "No response from AI" |

## Left out

- Backend I/O: nothing talks to the hosted backend. The store logs each
  request in a ghost `outbox`, and the replies it would get are parameters.
  Database error logging, the mapping of snake_case columns, ISO date
  conversion and the JSON decoding of stored quizzes are left out; fetched
  lists arrive already in the application's shapes.
- Concurrency: the asynchronous actions are atomic. The data re-sync that
  `handleSession`, `addResult` and `saveQuiz` start is logged as a request,
  and its completion is the separate `FetchUserData` method.
- `Store.AppStore.FetchUserData`: does not model `totalQuestions || 0` for
  missing values, because every modelled result carries a number.
- Timers and animation: the 150 ms card-change delay (the index changes at
  once), the elapsed-time ticker, confetti, and the 3-second celebration
  timer (a separate method).
- Floating point: percentages and ratios are exact reals, and `Math.round`
  of a quotient is exact integer arithmetic.
- Strings are sequences of code points: `slice` and `length` count code
  points, not UTF-16 units, and `toLowerCase` maps only ASCII letters.
- Dates: days are counted in UTC and the local time zone is ignored.
  `CalendarHeatmap.DayStatsOf` flags the current month by the day range of
  today's month, not by comparing `getMonth()` alone. The two agree on every
  day the grid shows.
- Routing: `navigate` is reduced to a `navigated` flag. The redirects of the
  quiz page and the quiz/flashcard mode switch are left out.
- `Login.LoginPage.HandleSubmit`: does not expose the moment `isLoading` is
  true; only the state after the handler finishes is stated.
- `Goals.GoalsPage.EditForm`: takes the whole edited form, where each
  handler replaces one field.
- The answer index of a raw question is already an integer (the response schema declares one), so `Number` coercion of strings or missing values is not modelled.
- The generator's SDK call is a parameter, and so is a
  `JSON.parse` failure or a parsed value without the required fields, as
  `Malformed(error)`. The prompt's wording is reduced to its variable parts.
  The console logging of the key status and the dummy client key are left
  out.
- Rendering, layout and display-only formatting elsewhere in the
  application are not part of this model. Neither are PDF extraction and
  file-size formatting on the create-quiz page.

## Findings

| source | as written | input that shows it | evidently intended | confidence | as-written member | corrected member |
|---|---|---|---|---|---|---|
| components/CalendarHeatmap.tsx:25-26 | always five weeks from the Monday on or before the 1st | March 2025: the 1st is a Saturday (offset 5), so the 35 cells end on the 30th and the 31st is missing | as many weeks as reach the month's last day (six at most) | not executed | CalendarHeatmap.GetCalendarWeeks, CalendarHeatmap.FiveWeeksMissMonthEnd | CalendarHeatmap.GetCoveringWeeks, CalendarHeatmap.CoveringWeeksShowMonth |
