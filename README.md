# Smart study planner — a verified model of its core

The study planner is a single browser script (`script.js`). It keeps a list of study
tasks, each with a title, topic, priority, optional due date, category and a
completion flag, and a map from task ids to rich-text notes. Most of the
script renders this state into the page. This project models the logic underneath:

- **The store** (`store.dfy`, `tasks.dfy`). The state `{tasks, notes, selectedTaskId}`
  is a class, `Store.TaskStore`, whose methods are the script's six operations:
  add, update and remove a task, and add, update and remove a note. They change
  the state in place. Each method states its complete new state. Each one keeps the
  invariant `Valid()`: task ids are unique, and note ids are unique within and
  across note lists. The random ids from `uid` and the timestamps from
  `Date.now()` are parameters. The `save()` and re-render after every change are
  not modelled.
- **Days left and the risk label** (`dates.dfy`, `risk.dfy`). A due date is a local
  day number. "Now" is a day number plus the milliseconds since local midnight.
  `daysLeft` is the ceiling of the time to the due day's last millisecond, in days.
  The risk label is a first-match decision list. Lemmas restate it in calendar days.
- **The suggested daily plan** (`daily_plan.dfy`). It takes the pending tasks,
  scores each as priority weight / max(1, days left), sorts them most urgent
  first, and gives each of the first eight a share of a five-hour day. Scores are
  exact rationals and `Math.round` is `Floor(x + 1/2)`.
- **String helpers** (`text.dfy`). CSV quoting for the export, with its inverse.
  HTML escaping, proved equal to per-character escaping and inverted by an
  unescaper. `capitalize` and `priorityClass`.
- **The visible task list** (`task_list.dfy`). The category, priority and date
  filters compose as one conjunction. The list comparator puts incomplete tasks
  first, then orders by due date, with undated tasks last.
- **Array helpers** (`seqs.dfy`). `filter`, `find`, and a stable insertion sort
  driven by a sign-returning comparator, which is what `Array.prototype.sort` consumes.

The code measures days left to 23:59:59.999 of the due day and rounds up. For a
user at or east of UTC, with due dates read as the local day they name, a task due
today therefore has 1 day left until that day's last millisecond
(`Dates.DueTodayHasOneDayLeft`). It is "High risk" when its priority is high and
"At risk" otherwise, never "Overdue". West of UTC the script parses the due date
as the previous local day, which this model does not capture (see "## Left out").

## Model

| member | source | states |
|---|---|---|
| Seqs.Filter | script.js:86-88 | `filter` keeps exactly the elements satisfying the predicate, each with its original multiplicity and in the original order |
| Seqs.FindIndex | script.js:35 | `find` yields nothing exactly when no element matches; otherwise the first index that matches |
| Seqs.SubsequenceKeepsDistinct | script.js:39 | dropping elements keeps a list's keys distinct and adds no elements |
| Seqs.Insert | script.js:92 | inserting into a sorted list keeps it sorted and adds exactly the one element |
| Seqs.SortBy | script.js:92 | the sort's result is ordered by the comparator and is a permutation of its input |
| Seqs.FilterFilter | script.js:86-88 | two successive filters are one filter by the conjunction |
| Seqs.FilterSamePredicate | script.js:86-88 | filters by predicates that agree on every element give the same list |
| Seqs.FilterKeepingAll | script.js:86-88 | a filter step that keeps everything changes nothing, so a skipped step is that filter |
| Tasks.PriorityName | script.js:28 | a priority is stored as one of "low", "medium", "high" |
| Tasks.PriorityNameInjective | script.js:28 | distinct priorities have distinct stored names |
| Tasks.OrDefault | script.js:28 | `value \|\| fallback` on strings: the value unless it is empty |
| Tasks.NewTask | script.js:28 | a new task has the given id and time, is not completed, and takes "Untitled", medium priority and "general" when title, priority or category are missing; topic and due date are copied |
| Tasks.ApplyChanges | script.js:36 | `Object.assign` overwrites exactly the fields present in the changes and keeps every other field, id and creation time included |
| Tasks.ApplyChangesIdempotent | script.js:36 | merging the same changes twice equals merging them once, and merging no changes is the identity |
| Store.NotesOf | script.js:52 | `notes[taskId] \|\| []`: the list filed under the id, or the empty list when there is none |
| Store.FindTask | script.js:35 | finds a task with the wanted id, or none exactly when no task has it |
| Store.FindNote | script.js:52 | finds a note with the wanted id in a list, or none exactly when no note has it |
| Store.WithoutTask | script.js:39 | no remaining task has the id, every other task keeps its multiplicity, order is kept |
| Store.WithoutNote | script.js:55 | no remaining note has the id, every other note keeps its multiplicity, order is kept |
| Store.SameIdsKeepUnique | script.js:52 | editing notes in place without changing their ids keeps note ids unique |
| Store.SameIdAt | script.js:52 | a note of the edited map has the id of a note filed under the same key before |
| Store.TaskStore.constructor | script.js:6 | the initial state has no tasks, no notes and no selection |
| Store.TaskStore.AddTask | script.js:27-33 | exactly one task, the new one with defaults, is appended; a note list exists for it, an existing one kept; the fresh id is returned; uniqueness of ids is preserved |
| Store.TaskStore.UpdateTask | script.js:34-37 | an unknown id changes nothing; otherwise only the first task with that id changes, by merging the changes, and the list keeps its length and order |
| Store.TaskStore.RemoveTask | script.js:38-43 | no task has the id afterwards; the others stay in order; its note list is deleted; the selection is cleared only if it was that task |
| Store.TaskStore.AddNote | script.js:46-50 | the list filed under the task id gets exactly the new note appended, created if missing even without such a task; other lists unchanged |
| Store.TaskStore.UpdateNote | script.js:51-53 | only the html of the first note with that id changes; no match, or no list, changes nothing; ids stay unique |
| Store.TaskStore.RemoveNote | script.js:54-56 | the list filed under the task id becomes the notes with other ids, in order; the list is created empty if missing |
| Dates.CeilDiv | script.js:64 | `Math.ceil(a / b)` is the integer q with (q-1)·b < a ≤ q·b |
| Dates.DaysLeft | script.js:64 | days left exist exactly when there is a due date (`Infinity` otherwise) |
| Dates.DaysLeftInDays | script.js:64 | days left are the day difference plus one, except at a day's last millisecond |
| Dates.CeilDivUnique | script.js:64 | the rounded-up quotient is unique |
| Dates.DueTodayHasOneDayLeft | script.js:64 | a task due today has one day left |
| Dates.DaysLeftMonotone | script.js:64 | an earlier due day never has more days left |
| Risk.Label | script.js:233-238 | the six labels the classifier shows |
| Risk.LabelInjective | script.js:233-238 | distinct outcomes have distinct labels |
| Risk.TaskRisk | script.js:231-239 | each label holds exactly on its region of the first-match rule list: completed, no due date, at most 0 days, at most 2 days and high priority, at most 3 days, later |
| Risk.Severity | script.js:235-237 | the deadline labels rank overdue 3, high risk 2, at risk 1 and every other label 0 |
| Risk.RiskInCalendarDays | script.js:231-239 | in calendar days: overdue exactly when the due day has passed, high risk when due today or tomorrow with high priority, at risk within two days otherwise, on track later |
| Risk.DueTodayHighPriority | script.js:236 | a pending high-priority task due today is at high risk |
| Risk.EarlierDueNeverSafer | script.js:231-239 | moving a pending task's due date earlier never lowers its risk |
| Risk.HighPriorityNeverSafer | script.js:236 | raising a pending task to high priority never lowers its risk |
| DailyPlan.Weight | script.js:221 | high weighs 3, medium 2, low 1 |
| DailyPlan.Score | script.js:223 | an undated task scores 0; a dated one scores in (0, weight], the full weight when at most one day is left |
| DailyPlan.ScoreNonIncreasingInDaysLeft | script.js:223 | for a fixed priority, more days left never raise the score, and any dated task outscores an undated one |
| DailyPlan.ScoreIncreasingInWeight | script.js:223 | for fixed days left, a heavier priority scores strictly more |
| DailyPlan.DivideByLarger | script.js:223 | dividing a weight by a larger divisor gives no more |
| DailyPlan.ScoreTask | script.js:223 | a scored task keeps the task, its days left are `daysLeft(t.due)` and its score is the priority weight over `max(1, days left)`, 0 when undated |
| DailyPlan.CompareDaysLeft | script.js:224 | `a.dl - b.dl` by sign: two undated tasks are equal (NaN), undated after dated, otherwise the sign of the difference of days left |
| DailyPlan.CompareUrgency | script.js:224 | `b.score - a.score \|\| a.dl - b.dl` by sign: the higher score comes first, and equal scores fall back to days left |
| DailyPlan.UrgencyComparatorConsistent | script.js:224 | `b.score - a.score \|\| a.dl - b.dl` is a consistent comparator (NaN from two undated tasks read as equal) |
| DailyPlan.Pending | script.js:222 | the pending list holds every not-completed task with its multiplicity and nothing else, in the tasks' own order |
| DailyPlan.ScoreAll | script.js:223 | every pending task is scored, position by position |
| DailyPlan.Ranked | script.js:222-224 | the ranked list is sorted by urgency and is a permutation of the scored pending tasks |
| DailyPlan.RankedOrder | script.js:224 | in ranked order scores never increase, and equal scores have non-decreasing days left |
| DailyPlan.RankedScores | script.js:223-224 | every ranked entry carries its own task's days left and the score computed from its priority and due date |
| DailyPlan.ScoreAtMostTotal | script.js:227 | each score, and each prefix's total, is at most the total of all scores |
| DailyPlan.TotalScore | script.js:227 | the `reduce` sums the scores; nonnegative scores total at least zero |
| DailyPlan.Denominator | script.js:227 | `total \|\| 1` is the total when that is nonzero and 1 when it is zero |
| DailyPlan.Round | script.js:227 | `Math.round` lands within half of its argument, halves rounded up |
| DailyPlan.RoundMonotone | script.js:227 | rounding preserves order |
| DailyPlan.Hours | script.js:226-227 | an entry gets at least one hour, and at most five when its score is at most the denominator |
| DailyPlan.FractionAtMostOne | script.js:226-227 | a score no larger than the denominator is at most the whole day's share |
| DailyPlan.HoursMonotone | script.js:227 | a lower score never gets more hours |
| DailyPlan.SuggestDailyPlan | script.js:219-228 | the plan has min(8, pending tasks) entries, each of 1 to 5 hours, hours non-increasing, each entry naming the ranked task at its position |
| DailyPlan.PlanOf | script.js:227 | the plan has an entry for each of the first eight ranked tasks, with hours against the total of all of them |
| DailyPlan.Entry | script.js:227 | an entry carries the task's title, due date and priority and `Hours(score, denominator)` hours, at least one and at most five when the score is within the denominator |
| DailyPlan.Entries | script.js:227 | each entry is the mapped top task, position by position |
| DailyPlan.PlanOfRanked | script.js:227 | on a ranked list every entry has 1 to 5 hours, non-increasing down the plan |
| DailyPlan.AllCompletedGivesEmptyPlan | script.js:222-227 | with every task completed the plan is empty |
| DailyPlan.PlannedScoresWithinTotal | script.js:227 | the planned entries' scores sum to at most the denominator's total over all pending tasks |
| DailyPlan.TotalOfEqualScores | script.js:227 | n equal scores x total n·x |
| DailyPlan.DenominatorOfEqualScores | script.js:227 | n equal positive scores give denominator n·x |
| DailyPlan.ShareOfEqualScores | script.js:227 | each of n equal scores is a 1/n share |
| DailyPlan.NothingCompletedAllPending | script.js:222 | with no task completed every task is pending |
| DailyPlan.RankedSameScore | script.js:223 | tasks of one priority and one due day all get the same score |
| DailyPlan.ThreeEqualTasksGetSixHours | script.js:219-228 | three pending tasks of equal urgency get two hours each, six in total: more than the five-hour day |
| DailyPlan.PlanIsPlanOfRanked | script.js:219-228 | the suggested plan is the plan of the ranked list |
| DailyPlan.ThirdOfTheDay | script.js:227 | three ranked entries of equal score get two hours each |
| DailyPlan.HoursOfAThird | script.js:226-227 | a third of the total is `Math.round(5/3)` = 2 hours |
| Text.ReplaceAll | script.js:209 | a global replace leaves a string without the character unchanged, introduces only the replacement's characters and keeps every other character present |
| Text.CountDoubled | script.js:209 | doubling every quote doubles the number of quotes |
| Text.CountConcat | script.js:209 | counting characters distributes over concatenation |
| Text.ReplaceAllConcat | script.js:267 | a global replace distributes over concatenation |
| Text.EscapeCsv | script.js:209 | null gives ''; otherwise the field starts and ends with a quote, holds an even number of quotes (twice the input's plus two), and reading doubled quotes back in the inner part gives the input |
| Text.UnquoteDoubled | script.js:209 | reading doubled quotes back inverts the quote doubling |
| Text.EscapeHtml | script.js:267 | the escaped text contains no `<` or `>`; a missing or empty input gives '' |
| Text.EscapeChar | script.js:267 | characters other than `&`, `<`, `>` are left as they are |
| Text.EscapeHtmlIsPerCharacter | script.js:267 | the three chained replacements, ampersand first, equal escaping each character once |
| Text.EscapeOne | script.js:267 | on one character the chain gives that character's entity |
| Text.UnescapeChar | script.js:267 | unescaping reads an escaped character back and continues after it |
| Text.UnescapeAmp | script.js:267 | `&amp;` reads back as `&` |
| Text.UnescapeLt | script.js:267 | `&lt;` reads back as `<` |
| Text.UnescapeGt | script.js:267 | `&gt;` reads back as `>` |
| Text.EscapeHtmlRoundTrip | script.js:267 | unescaping the escaped text gives the original text |
| Text.UnescapeEach | script.js:267 | unescaping inverts per-character escaping |
| Text.Upper | script.js:152 | `toUpperCase` on one character maps each lower-case ASCII letter to its own upper-case letter (same alphabet position) and leaves every other character |
| Text.Lower | script.js:152 | lower-casing, the inverse direction, maps each upper-case ASCII letter to its own lower-case letter |
| Text.LowerUndoesUpper | script.js:152 | lower-casing an upper-cased letter gives the letter back |
| Text.Capitalize | script.js:152 | '' stays ''; otherwise the length and all but the first character are kept, and the first character is its own upper case, changed exactly when it was a lower-case letter |
| Text.CapitalizeUndone | script.js:152 | lower-casing the first character of a capitalised word that began in lower case gives the word back |
| Text.CapitalizeIdempotent | script.js:152 | capitalising twice is capitalising once |
| Text.CapitalizedPriorityNames | script.js:152 | the priority badges read "High", "Medium", "Low" |
| Text.PriorityClass | script.js:151 | the class is "priority-high" exactly for "high", "priority-low" exactly for "low", otherwise "priority-mid" |
| Text.PriorityClassOfName | script.js:151 | on stored priority names only medium gets the middle class, and the class tells the priorities apart |
| TaskList.CompareTasks | script.js:92 | by sign: an incomplete task before a completed one; with equal completion two undated tasks are equal, dated before undated, otherwise the earlier due day first |
| TaskList.CategoryShown | script.js:86 | an empty or "all" category shows every task, any other only tasks of that category |
| TaskList.PriorityShown | script.js:87 | an empty or "all" priority shows every task, any other only tasks whose stored priority name is that string |
| TaskList.DateShown | script.js:88 | an empty date shows every task, a date only tasks due that day |
| TaskList.Matches | script.js:86-88 | a task is shown when it passes all three filters |
| TaskList.TaskComparatorConsistent | script.js:92 | the list comparator is a consistent comparator |
| TaskList.Filtered | script.js:85-88 | the chain of filters, each skipped when its control is unset, is one filter by the conjunction of the three tests |
| TaskList.ChainIsConjunction | script.js:86-88 | filtering by category, then priority, then date is filtering by all three at once |
| TaskList.FilterStep | script.js:86-88 | a step skipped or filtering by its test is a filter by "unset or test" |
| TaskList.VisibleTasks | script.js:249-255 | the visible list holds exactly the matching tasks with their multiplicities, sorted by the list comparator |
| TaskList.SortedSelection | script.js:249-255 | sorting the filtered list keeps exactly the matching tasks |
| TaskList.VisibleOrder | script.js:92 | in the visible list incomplete tasks come first; within equal completion dated tasks come before undated ones, earliest due first |
| TaskList.ShowAllListsEverything | script.js:85-88 | with no filter set every task is listed |

## Left out

- Rendering, the modal, the toolbar, alerts and prompts, and click delegation are page code with no state logic of their own.
- Loading and saving through `localStorage`, and the dark-mode toggle, are I/O. The store methods do not model the `save()` that follows each change.
- JSON and CSV export, and import with its "replace only if `tasks` is present" guard, are browser file I/O. Only the CSV field quoting is modelled.
- `uid` draws ids from `Math.random`, and `Date.now()` gives the clock. Both are parameters. The store requires fresh ids to be unused, which random ids only make likely.
- Dates.DaysLeft: a due date is taken to be the local calendar day it names. `new Date('YYYY-MM-DD')` parses as UTC midnight, which west of UTC falls on the previous local day. This model does not capture that shift or daylight-saving days.
- TaskList.CompareTasks: uses the difference of day numbers where the script subtracts two `Date` values. The two have the same sign, which is all `sort` uses.
- Risk.TaskRisk: the label colours, including `varColor`'s style lookup, are not modelled.
- DailyPlan.Score: computed on exact rationals. The model makes no claim about IEEE-754 rounding of the division or of `Math.round`.
- DailyPlan.Ranked: the script sorts with `Array.prototype.sort`. The model uses the stable insertion sort `Seqs.SortBy`. Its contract states order and permutation but not stability.
- Seqs.SortBy: stable by construction, since equal elements keep their input order, but stability is not stated in the contract.
- TaskList.VisibleTasks: the free-text search filter (lower-casing and substring search over title, topic and note html) is not modelled.
- Text.Upper: upper-cases ASCII letters only, whereas `toUpperCase` maps all of Unicode. Stored priority names are ASCII.
- Text.EscapeCsv: takes strings only, where the script's `String(s)` also accepts numbers and booleans. The exported columns passed through it are strings.
- Tasks.ApplyChanges: the changes cover the task's editable fields. `Object.assign` would also overwrite `id` or `created`, or add new properties, if a caller passed them. Callers in the script do not.
- Tasks.NewTask: a priority is one of three values, whereas the script stores whatever string it is given. `Text.PriorityClass` keeps the string form.
- Setting `selectedTaskId` happens from click handlers only, which are page code. Only its clearing in task removal is modelled.
- The earlier `escapeHtml` declaration (script.js:153) is dead code, because the later declaration is hoisted over it.
- `seedIfEmpty` demo data and `isoNDays` are a fixture, not logic.
