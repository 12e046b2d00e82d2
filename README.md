# EduSync task queue, signup rules, task card and settings editor

EduSync is a study planner for students. Each task has a course, a due date
and a priority (High, Medium or Low). The user's last logged energy level
reorders the "Smart Task Queue":

- Every task gets a score: a priority weight, inverted when the energy is
  "Low", plus an urgency bonus for a near or past due date.
- The page filters the tasks by course and priority.
- It ranks the filtered tasks by score, in a stable order.
- It recommends the first task as "what to do next".
- It lists the distinct courses and counts four statistics.

Three smaller pieces go with the queue:

- The signup form's validation gate and password-strength meter.
- The task card's due-date badge and relative-day label.
- The settings editor, a record of settings plus a dirty flag.

The model is written in Dafny and proves what each piece promises.

Modules (one per file):

- `Wrappers`: `Option`.
- `Seqs`: `filter` and first-occurrence de-duplication
  (`Array.from(new Set(xs))`), with their lemmas.
- `Ranking`: a stable sort by a numeric key, highest key first, as a copy
  sorted with a comparator `key(b) - key(a)`. It is defined by insertion
  and characterised by "sorted, a permutation and stable".
  - It is generic in the key, so the sorting proofs never see the score's
    arithmetic.
- `Tasks`:
  - The task record.
  - The day length `86400000` ms.
  - `Math.floor` and `Math.ceil` of a quotient, written out over Dafny's
    Euclidean division.
  - The overdue test.
- `PrioritizedTasks`: score, filter, queue, recommendation, course list,
  statistics, and the queue's cards.
- `TaskCard`: what a card shows:
  - the priority style;
  - the Overdue badge;
  - the due-badge tone;
  - the "Today" / "Tomorrow" / "n days" label;
  - the optional sections and buttons.
- `Signup`: the strength meter, the three ordered checks, the submit and
  match predicates, and the form as a class whose `HandleSignup` method
  updates `error`, `loading`, `toastOpen` and `signedUp`.
- `Settings`: the editor as a class with a `map` field and a `hasChanges`
  field, and its handlers as methods.
- `Scenarios`: worked examples.
  - Two-task rankings at Medium and Low energy.
  - The scores, course list and statistics of the page's five fallback
    tasks.

Inputs the page reads from its environment become parameters:

- The current instant `now`, in integer milliseconds. It is fixed for one
  render of the page.
- The energy level.
- The combined outcome of the backend calls in `handleSignup`.
- The props a task card receives.

Due dates are integer milliseconds since the epoch.

## Model

| member | source | states |
|---|---|---|
| Seqs.Filter | src/pages/PrioritizedTasks.jsx:75-79 | `Array.prototype.filter` never returns more elements than it is given |
| Seqs.FilterMembers | src/pages/PrioritizedTasks.jsx:75-79 | an element is in the filtered list exactly when it is in the input and passes the predicate |
| Seqs.FilterSubsequence | src/pages/PrioritizedTasks.jsx:75-79 | the filtered list is an order-preserving subsequence of the input |
| Seqs.FilterMultiplicity | src/pages/PrioritizedTasks.jsx:75-79 | a passing element keeps its multiplicity and a failing one has none |
| Seqs.FilterAppend | src/pages/PrioritizedTasks.jsx:92-94 | filtering a concatenation is concatenating the filtered parts |
| Seqs.FilterKeepsAll | src/pages/PrioritizedTasks.jsx:75-79 | a predicate every element passes leaves the list unchanged |
| Seqs.FilterComplement | src/pages/PrioritizedTasks.jsx:91-92 | the counts of a predicate and of its negation add up to the length |
| Seqs.FilterCountPermutation | src/pages/PrioritizedTasks.jsx:93 | a filter count depends only on the multiset of elements, so a reordered list has the same count |
| Seqs.FilterHead | src/pages/PrioritizedTasks.jsx:75-79 | the first kept element is the first element of the input that passes |
| Seqs.Distinct | src/pages/PrioritizedTasks.jsx:86 | de-duplication has no repeats, holds exactly the input's elements not already seen, and is a subsequence of the input |
| Seqs.DistinctSnoc | src/pages/PrioritizedTasks.jsx:86 | the `Set`'s insertion rule: an appended value is added at the end exactly when it has not been met before, which fixes first-occurrence order |
| Seqs.DistinctKeepsFresh | src/pages/PrioritizedTasks.jsx:86 | a list without repeats comes out of the `Set` unchanged |
| Ranking.Insert | src/pages/PrioritizedTasks.jsx:13-29 | inserting into a ranking keeps it sorted by non-increasing key and adds exactly one element |
| Ranking.Rank | src/pages/PrioritizedTasks.jsx:13-29 | the sorted copy is ordered by non-increasing key and is a permutation of the input |
| Ranking.InsertPosition | src/pages/PrioritizedTasks.jsx:15-28 | an inserted element lands directly behind every element of strictly larger key, ahead of all others |
| Ranking.InsertKeepsKeyGroups | src/pages/PrioritizedTasks.jsx:15-28 | insertion puts the new element at the front of its own key group and leaves the other groups as they were |
| Ranking.RankIsStable | src/pages/PrioritizedTasks.jsx:15-28 | elements of equal score keep their input order, as `Array.prototype.sort` is stable |
| Ranking.RankingIsUnique | src/pages/PrioritizedTasks.jsx:13-29 | two sorted arrangements with the same order inside every key group are identical, so "sorted, permutation, stable" determines the result |
| Ranking.RankOfSortedIsIdentity | src/pages/PrioritizedTasks.jsx:13-29 | sorting a list that is already ranked returns it unchanged |
| Ranking.RankIsIdempotent | src/pages/PrioritizedTasks.jsx:13-29 | sorting the sorted list again changes nothing |
| Ranking.LargerKeyComesFirst | src/pages/PrioritizedTasks.jsx:28 | with the comparator `scoreB - scoreA`, a strictly larger score is placed strictly earlier |
| Ranking.HeadIsFirstOfTopKey | src/pages/PrioritizedTasks.jsx:81-84 | the head of a non-empty ranking has the top score and is the first input element with that score |
| Tasks.FloorDiv | src/pages/PrioritizedTasks.jsx:26-27 | `Math.floor(a / d)` is the largest q with d·q ≤ a |
| Tasks.CeilDiv | src/components/TaskCard.jsx:32 | `Math.ceil(a / d)` is the smallest q with a ≤ d·q |
| Tasks.CeilFloorGap | src/components/TaskCard.jsx:32 | ceiling and floor of the same quotient agree exactly on multiples and differ by one otherwise |
| PrioritizedTasks.BaseScore | src/pages/PrioritizedTasks.jsx:18-24 | the weight is 1 to 3; unless the energy is "Low", 3 iff High and 2 iff Medium; at "Low", 3 iff Low and 2 iff Medium, so High or an unknown priority gets 1 |
| PrioritizedTasks.UrgencyBonus | src/pages/PrioritizedTasks.jsx:26-27 | the bonus is never negative, is 0 exactly when the task is due 10 or more days away, exceeds 10 when overdue and is 10 within the coming day |
| PrioritizedTasks.UrgencyBonusAntitone | src/pages/PrioritizedTasks.jsx:26-27 | a later due date never earns a larger bonus |
| PrioritizedTasks.BonusWithinTenDays | src/pages/PrioritizedTasks.jsx:26-27 | a task due n whole days ahead, for n from 0 to 9, earns 10 − n |
| PrioritizedTasks.OverdueBonus | src/pages/PrioritizedTasks.jsx:26-27 | a task overdue by n whole days earns 10 + n (5 days overdue gives 15) |
| PrioritizedTasks.Score | src/pages/PrioritizedTasks.jsx:18-27 | every task's combined score is at least 1 |
| PrioritizedTasks.SameDueScoreOrder | src/pages/PrioritizedTasks.jsx:18-27 | for equal due dates, scores are ordered exactly as priority weights are |
| PrioritizedTasks.PriorityOrderAtEqualDue | src/pages/PrioritizedTasks.jsx:18-28 | in any list sorted by score, as the ranking and the queue are: with equal due dates, High ranks ahead of Medium ahead of Low (and High ahead of Low), and at "Low" energy Low ranks ahead of Medium ahead of High (and Low ahead of High) |
| PrioritizedTasks.FilterTasks | src/pages/PrioritizedTasks.jsx:74-80 | the filtered list is an order-preserving subsequence; every element matches each non-empty filter; each matching task is kept with its multiplicity; with both filters "All" the list is unchanged |
| PrioritizedTasks.Queue | src/pages/PrioritizedTasks.jsx:74-81 | the shown list is sorted by score, is a permutation of the filtered tasks, and holds exactly the tasks matching both filters |
| PrioritizedTasks.NextTask | src/pages/PrioritizedTasks.jsx:81-84 | there is no recommendation exactly when no task passes the filters; otherwise it is a filtered task whose score no filtered task exceeds |
| PrioritizedTasks.NextTaskIsFirstOfBest | src/pages/PrioritizedTasks.jsx:81-84 | among the top-scoring filtered tasks the recommendation is the first in input order |
| PrioritizedTasks.UnknownCourseEmptiesQueue | src/pages/PrioritizedTasks.jsx:74-84 | a course filter no task has leaves an empty queue and no recommendation |
| PrioritizedTasks.CourseLabels | src/pages/PrioritizedTasks.jsx:86 | `tasks.map(t => t.course)` has one label per task, in order |
| PrioritizedTasks.Courses | src/pages/PrioritizedTasks.jsx:86 | the course list has no duplicates, covers every task's course, holds only task courses, and is a subsequence of the task order |
| PrioritizedTasks.CoursesAppend | src/pages/PrioritizedTasks.jsx:86 | appending a task adds its course at the end exactly when no earlier task has that course, so courses are listed in order of first appearance |
| PrioritizedTasks.ComputeStats | src/pages/PrioritizedTasks.jsx:90-95 | total is the task count; completed, overdue and urgent are each at most the total and zero exactly when no task has progress 100, a past due date or High priority |
| PrioritizedTasks.StatsAppend | src/pages/PrioritizedTasks.jsx:90-95 | each counter of a concatenation is the sum of the parts' counters |
| PrioritizedTasks.CompletedAndOpenMakeTotal | src/pages/PrioritizedTasks.jsx:91-92 | completed tasks and tasks not completed add up to the total |
| PrioritizedTasks.QueueCards | src/pages/PrioritizedTasks.jsx:331-337 | the queue renders one card per ranked task with actions on but no handlers, so no edit, delete or completion control appears |
| PrioritizedTasks.OverdueCardsCount | src/components/TaskCard.jsx:87 | the number of cards with the Overdue badge is the number of ranked tasks past due |
| PrioritizedTasks.OverdueStatMatchesBadges | src/pages/PrioritizedTasks.jsx:93 | with no filter chosen, the Overdue statistic equals the number of Overdue badges in the queue |
| TaskCard.StyleFor | src/components/TaskCard.jsx:30 | High and Low select their own styles, and any other priority falls back to the Medium style |
| TaskCard.DaysUntilDue | src/components/TaskCard.jsx:32 | the day count is the number of whole days, rounded up, until the due instant |
| TaskCard.DueTone | src/components/TaskCard.jsx:136-142 | the badge is danger exactly when overdue, warning exactly when due within three days and not overdue, and neutral otherwise |
| TaskCard.DueLabel | src/components/TaskCard.jsx:144-147 | no label exactly when overdue; "Today" only when due at this very instant; "Tomorrow" for anything later within one day; beyond that "n days", where n ≥ 2 is the rounded-up day count |
| TaskCard.NotOverdueHasDaysLeft | src/components/TaskCard.jsx:144 | the `daysUntilDue >= 0` guard is implied by not being overdue |
| TaskCard.CardRoundsUpWhereQueueRoundsDown | src/components/TaskCard.jsx:32 | a task due within the coming day reads "Tomorrow" (day 1) on the card but is day 0 in the queue's urgency bonus |
| TaskCard.RenderCard | src/components/TaskCard.jsx:30-170 | the badge, tone and label agree on overdue, and the tone and label are those of the due date; description and tags show exactly when non-empty; progress shows whenever the field is defined, even as `null`; edit and delete need `showActions` and their handler; the toggle needs its handler |
| Signup.Utf16Length | src/pages/Signup.jsx:29 | `length` counts UTF-16 code units: at least one and at most two per character, and zero only for the empty string |
| Signup.Utf16LengthOfBmp | src/pages/Signup.jsx:29 | without characters beyond U+FFFF, `length` is the number of characters |
| Signup.Utf16LengthAppend | src/pages/Signup.jsx:29 | code units add up over a concatenation |
| Signup.PasswordStrength | src/pages/Signup.jsx:53-59 | the meter is (0, ""), (25, Weak), (50, Fair), (75, Good) or (100, Strong) at the code-unit thresholds 1, 6, 8 and 12 |
| Signup.StrengthMonotone | src/pages/Signup.jsx:54-58 | a password with more code units never shows a weaker meter |
| Signup.ValidationError | src/pages/Signup.jsx:23-39 | there is no error exactly when the passwords agree, have at least 8 code units and the terms are accepted; otherwise the error is the first failing check's message |
| Signup.EmojiCountTwice | src/pages/Signup.jsx:29 | four emoji make eight code units, which pass the length check and show a Good meter |
| Signup.ValidPasswordIsGoodOrStrong | src/pages/Signup.jsx:29 | a password that passes validation shows at least 75, Good or Strong |
| Signup.EnabledSubmitNeverFailsOnTerms | src/pages/Signup.jsx:35-39 | through an enabled button, the terms check is never the one that fails |
| Signup.MatchIndicator | src/pages/Signup.jsx:236-252 | no hint while the confirmation is empty; otherwise "Passwords match" exactly when both fields are equal |
| Signup.MatchHintAgreesWithValidation | src/pages/Signup.jsx:23-27 | a mismatch hint means validation fails on the mismatch, and a match hint means it does not |
| Signup.SignupForm.constructor | src/pages/Signup.jsx:6-15 | the form starts with empty fields, terms unchecked, no error and not loading, so the submit button starts disabled |
| Signup.SignupForm.HandleSignup | src/pages/Signup.jsx:17-51 | the backend is reached exactly when validation passes; otherwise `error` is the first failing check's message; success signs the user up and opens the toast; failure stores the message; `loading` ends false, so the submit button is enabled again exactly when the terms are accepted; the inputs are untouched |
| Signup.FailureMessage | src/pages/Signup.jsx:48 | a missing or empty backend message is replaced by "Signup failed" |
| Settings.Truthy | src/pages/Settings.jsx:152 | a switch reads its flag, and a missing key reads false |
| Settings.SettingsEditor.constructor | src/pages/Settings.jsx:4-28 | the editor starts from the listed defaults with no unsaved changes, and Save disabled |
| Settings.SettingsEditor.HandleChange | src/pages/Settings.jsx:30-33 | one key is written, every other key is kept, and the editor becomes dirty with Save enabled (Settings.jsx:314) |
| Settings.SettingsEditor.Toggle | src/pages/Settings.jsx:196 | a switch is set to the negation of its current truthiness and the editor becomes dirty with Save enabled |
| Settings.SettingsEditor.HandleSave | src/pages/Settings.jsx:35-39 | saving clears the dirty flag, disabling Save, and leaves the settings as they are |
| Settings.SettingsEditor.HandleReset | src/pages/Settings.jsx:41-44 | "Reset to Defaults" clears the dirty flag, disabling Save, and leaves the settings as they are |
| Settings.ToggleTwice | src/pages/Settings.jsx:271 | flipping a switch twice restores its value, but the editor stays dirty and Save stays enabled |
| Settings.ResetKeepsEdits | src/pages/Settings.jsx:41-44 | after editing the theme and pressing "Reset to Defaults" the edit survives, the settings differ from the defaults, and Save is disabled |
| Scenarios.NearDeadlineBeatsPriorityAtMediumEnergy | src/pages/PrioritizedTasks.jsx:18-28 | at Medium energy a Low task due now (11) outranks a High task due in five days (8) |
| Scenarios.NearDeadlineBeatsPriorityAtLowEnergy | src/pages/PrioritizedTasks.jsx:20-28 | at Low energy the same two tasks score 13 and 6, in the same order |
| Scenarios.FallbackDays | src/pages/PrioritizedTasks.jsx:61-65 | on 2025-07-30 the fallback tasks are 2, 4, 3, 1 and 6 whole days from due |
| Scenarios.MediumScores | src/pages/PrioritizedTasks.jsx:60-67 | the fallback tasks score 11, 8, 8, 12 and 6 at Medium energy on 2025-07-30 |
| Scenarios.LowScores | src/pages/PrioritizedTasks.jsx:60-67 | they score 9, 8, 10, 10 and 6 at Low energy |
| Scenarios.FallbackCourseLabels | src/pages/PrioritizedTasks.jsx:86 | the fallback tasks' course labels are Math, English, Science, History and Physics, in that order |
| Scenarios.FiveDistinctLabels | src/pages/PrioritizedTasks.jsx:86 | five different labels pass through the `Set` unchanged |
| Scenarios.FallbackCourses | src/pages/PrioritizedTasks.jsx:86 | the course filter offers the five fallback courses in task order |
| Scenarios.FallbackStats | src/pages/PrioritizedTasks.jsx:90-95 | on 2025-07-30 the fallback statistics are 5 total, 0 completed, 0 overdue and 2 urgent |
| Scenarios.TwoOfThreeCompleted | src/pages/PrioritizedTasks.jsx:92 | progress values 100, 50 and 100 count as two completed tasks |

## Left out

- Backend and network I/O are outside the model:
  - `fetchData`, which loads the tasks and the latest energy log;
  - every Appwrite call;
  - the `account.create` / session / `account.get` sequence in
    `handleSignup`, whose combined outcome is a parameter instead;
  - the `|| "Medium"` default for a missing energy log.
- The page's initial energy "Medium" and the fallback after a failed load
  feed the model only as the `energy` parameter.
  - The fallback tasks are used as worked examples, not as behaviour.
- Date handling is outside the model:
  - parsing the `dueDate` string;
  - time zones;
  - invalid dates that make a score `NaN`.
  - Due dates are integer milliseconds.
- One clock reading per page render:
  - The comparator reads `Date.now()` on every comparison, the overdue
    statistic reads `new Date()` once per task inside its filter callback
    (src/pages/PrioritizedTasks.jsx:93),
    and every task card reads `new Date()` for itself
    (src/components/TaskCard.jsx:31-32).
  - The model uses a single `now` for all of them: for every comparison of
    the ranking, every task of the overdue count and every card, as in
    PrioritizedTasks.ComputeStats and PrioritizedTasks.OverdueStatMatchesBadges.
- JavaScript number semantics are not modelled:
  - floating point and integer width;
  - the `NaN` comparator results of an invalid date.
  - `Math.floor` and `Math.ceil` are modelled exactly on integers.
- Prototype keys in the style lookup are not modelled:
  - `priorityStyles[task.priority]` would also find inherited keys such as
    `"toString"`.
  - The model treats every string other than the three table keys as
    missing.
- Rendering is not modelled:
  - markup, CSS classes, animation, hover state, and the grid/list view
    switch;
  - password show/hide;
  - where the strength meter and its caption colour appear;
  - toasts.
  - Only the decisions each component makes are modelled.
- The password-match hint follows the code (src/pages/Signup.jsx:236):
  - nothing is shown while the confirmation field is empty;
  - "Passwords match" is shown exactly when the field is non-empty and
    equal to the password.
- Settings persistence:
  - `handleSave` sends nothing anywhere, and the model has nothing to
    send.
  - The settings' lowercase `"medium"` energy never reaches the queue,
    which compares against `"Medium"`.
- The full ranked order of the five fallback tasks is not worked out as a
  lemma. Their scores, courses and statistics are; the general ranking
  lemmas fix the order from the scores.
- Seqs.Filter: its own contract is only the length bound. Membership,
  order and multiplicity are stated in the lemmas FilterMembers,
  FilterSubsequence and FilterMultiplicity, which the members of
  `PrioritizedTasks` call.
- Signup.Utf16Length: a password holding an unpaired surrogate cannot be
  written down, since a Dafny character is a Unicode scalar value; such a
  password is not modelled.
- Absent and `null` fields: only `progress` keeps `null` apart from a
  missing field, because only its test (`!== undefined`) tells them apart;
  description, tags and completion are tested for truthiness, where both read
  as absent.
- Profile, Contact, Login, the navigation bar, routing, the error boundary
  and the end-to-end tests are not part of this model.
