# Task Tracker client logic, modelled in Dafny

Task Tracker is a single-page web application. There, a signed-in user keeps tasks (title, description, due date, priority, status, optional goal) and goals (name, description, start and end date), backed by a hosted database. This project models the client-side logic that decides what is shown and what is sent:

- **Dashboard.** Its aggregation counts tasks by status and priority, computes the completion rate, and counts overdue tasks, tasks due today and tasks due within a week. It also builds the seven-day due chart, the per-goal progress sorted by percentage, and the focus list of at most six tasks (`Dashboard`).
- **Tasks page: filters and URL.** The page keeps its filter record and the URL query string in sync. This covers the enum validators, the tolerant parser, the serialiser that leaves defaults out, `hasFilters`, the Clear button, and the one-shot flag that is meant to stop a URL-driven update from being written back (`TaskPage`).
- **Task query.** A filter record becomes an ordered list of predicates and an ordering (`TasksApi`). The same module has the sign-in guard and insert record of `createTask`, and the patch of `updateTask`.
- **Goal progress.** One tally loop folds task rows into per-goal `{ total, completed }` counts. `fetchGoalProgress` and the dashboard both run it (`GoalTally`, `GoalsApi`). `GoalsApi` also has the guard of `createGoal` and the patch of `updateGoal`.
- **Goals page.** Its percentage, the copy of the progress record, the default shown for a goal with no entry, the summary over the listed goals, and the edit submitted to `updateGoal` (`GoalsPage`).
- **Dialogs.** The goal and task dialogs: their initial values, their schemas (including `end_after_start`) and the cleaning of values before submit (`GoalDialog`, `TaskDialog`, `FormFields`).
- **Auth slice.** The reducer, as a pure transition function and as a store class whose methods assign the fields (`AuthSlice`).
- **Theme slice.** The mode read from browser storage at start-up, and `setMode` (`ThemeSlice`).
- **Header.** The page title chosen for a path (`Header`).

Shared pieces:

- `Records`: the task and goal types.
- `Wrappers`: Option, Result, and `Nullable` for TypeScript's `x?: T | null`.
- `Text`: JavaScript `trim` and string order.
- `Seqs`: filter, count and sort.
- `JsRecord`: a plain object with keys in insertion order.
- `Percent`: `Math.round(100 * done / total)` on exact rationals.

Dates are `YYYY-MM-DD` strings compared character by character, as the source compares them. "Today" and the days after it are parameters.

## Model

| member | source | states |
|---|---|---|
| Records.StatusFromText | src/Shared/api/tasks/types.ts:2 | a text names a status exactly when it is that status's literal |
| Records.PriorityFromText | src/Shared/api/tasks/types.ts:1 | a text names a priority exactly when it is that priority's literal |
| Percent.RoundedPercent | src/Pages/DashboardPage/DashboardPage.tsx:75 | the result is the integer nearest to 100·done/total, halves rounded up |
| Percent.RoundedPercentRange | src/Pages/DashboardPage/DashboardPage.tsx:73-76 | for 0 ≤ done ≤ total the percentage is in [0, 100], 0 when none is done and 100 when all are done |
| Dashboard.DashPercent | src/Pages/DashboardPage/DashboardPage.tsx:73-76 | 0 when there are no tasks, otherwise the rounded percentage, which lies in [0, 100] whenever done ≤ total |
| Dashboard.CountsPartition | src/Pages/DashboardPage/DashboardPage.tsx:125-148 | todo + in progress + completed is the total, and so is low + medium + high |
| Dashboard.CompletionRateRange | src/Pages/DashboardPage/DashboardPage.tsx:136 | the completion rate is in [0, 100], 0 with no tasks, 100 when every task is completed |
| Dashboard.OverdueNotCompleted | src/Pages/DashboardPage/DashboardPage.tsx:130 | no completed task is counted overdue: the two counts together never exceed the task count |
| Dashboard.Upcoming | src/Pages/DashboardPage/DashboardPage.tsx:151-155 | one bar per requested day, in order; bar i carries day i's `MM-DD` label and the number of tasks due exactly on that day |
| Dashboard.BarTotalCountsDays | src/Pages/DashboardPage/DashboardPage.tsx:151-155 | for distinct days the bars add up to the number of tasks due on one of those days |
| Dashboard.UpcomingWithinWeek | src/Pages/DashboardPage/DashboardPage.tsx:134-155 | seven distinct days between today and today+7 give seven bars whose sum is at most `dueNext7` |
| Dashboard.AggregateGoals | src/Pages/DashboardPage/DashboardPage.tsx:158-164 | the `goalAgg` loop leaves exactly the per-goal tally of the tasks |
| Dashboard.GoalAggFacts | src/Pages/DashboardPage/DashboardPage.tsx:158-164 | every entry has 1 ≤ total and completed ≤ total, and the totals add up to the tasks that have a goal |
| Dashboard.BuildGoalNames | src/Pages/DashboardPage/DashboardPage.tsx:166-167 | the `goalsMap` loop builds the id-to-name record of the goals, later goals overwriting |
| Dashboard.NamesOfLookup | src/Pages/DashboardPage/DashboardPage.tsx:166-167 | an id has a name exactly when some goal has that id |
| Dashboard.NamesOfLast | src/Pages/DashboardPage/DashboardPage.tsx:166-167 | the name under an id is that of the last goal with that id |
| Dashboard.NameOr | src/Pages/DashboardPage/DashboardPage.tsx:172 | a goal's name when its id is in the record, `Unknown goal` otherwise |
| Dashboard.Items | src/Pages/DashboardPage/DashboardPage.tsx:169-176 | one progress item per tally entry |
| Dashboard.PctFirstPreorder | src/Pages/DashboardPage/DashboardPage.tsx:177 | the percentage comparator is a total preorder, so the sort is well defined |
| Dashboard.GoalProgressFacts | src/Pages/DashboardPage/DashboardPage.tsx:169-177 | `goalProgress` lists each tallied goal once (distinct goal ids, a permutation of the mapped items), sorted by non-increasing percentage; each item carries its goal's tally total and completed count, total ≥ 1, completed ≤ total, the dashboard percentage of the two, in [0, 100], and its name or `Unknown goal` |
| Dashboard.SortedItemsFacts | src/Pages/DashboardPage/DashboardPage.tsx:169-177 | the same facts for any well-formed aggregate whose entries have total ≥ 1 and completed ≤ total |
| Dashboard.ItemsDistinct | src/Pages/DashboardPage/DashboardPage.tsx:169-176 | one item per key, so no two items are equal |
| Dashboard.GoalProgressKeepsKeyOrderOnTies | src/Pages/DashboardPage/DashboardPage.tsx:169-177 | goals with the same percentage keep the order of their keys in the aggregate |
| Dashboard.DueFirstPreorder | src/Pages/DashboardPage/DashboardPage.tsx:182-186 | the due-date comparator is a total preorder |
| Dashboard.FocusFacts | src/Pages/DashboardPage/DashboardPage.tsx:180-187 | `focus` has at most six tasks from the list, each due today or due by today and not completed, sorted by due date; it is the start of the sorted candidates and is short only when there are fewer than six |
| Dashboard.DueFirstTies | src/Pages/DashboardPage/DashboardPage.tsx:182-186 | the comparator ties two tasks exactly when their due keys are equal, a missing due date counting as `9999-12-31` |
| Dashboard.FocusKeepsFetchOrderOnTies | src/Pages/DashboardPage/DashboardPage.tsx:180-187 | tasks with the same due key keep the order they were fetched in, so where the cut to six splits such a group the focus holds the first ones fetched |
| Dashboard.ComputeSummary | src/Pages/DashboardPage/DashboardPage.tsx:121-205 | the `computed` block, with its two loops, yields exactly the summary of counts, chart, goal progress and focus that `SummaryOf` defines |
| Dashboard.SummaryOf | src/Pages/DashboardPage/DashboardPage.tsx:121-205 | the `computed` block; stated by `ComputeSummary`, `CountsPartition`, `CompletionRateRange` and the goal and focus lemmas |
| Dashboard.GoalProgressOf | src/Pages/DashboardPage/DashboardPage.tsx:169-177 | `goalProgress`; stated by `GoalProgressFacts` and `GoalProgressKeepsKeyOrderOnTies` |
| Dashboard.FocusOf | src/Pages/DashboardPage/DashboardPage.tsx:180-187 | `focus`; stated by `FocusFacts` and `FocusKeepsFetchOrderOnTies` |
| Seqs.SortBy | src/Pages/DashboardPage/DashboardPage.tsx:177 | the sorted list is ordered by the comparator and is a permutation of the input |
| Seqs.InsertByStable | src/Pages/DashboardPage/DashboardPage.tsx:177 | inserting an element keeps the elements tied with any given one in their order, the new one behind them |
| Seqs.SortByStable | src/Pages/DashboardPage/DashboardPage.tsx:177 | the sort is stable, as `Array.prototype.sort` is: elements the comparator ties come out in their input order |
| Seqs.FilterPrefix | src/Pages/DashboardPage/DashboardPage.tsx:186 | a prefix of a list, such as `slice(0, 6)`, keeps a prefix of the elements any predicate selects |
| GoalTally.Step | src/Shared/api/goals/goalsApi.ts:21-26 | one row keeps the record well formed |
| GoalTally.Tally | src/Shared/api/goals/goalsApi.ts:19-27 | the tally of the rows is a well-formed record; its counts are stated by `TallyCounts`, `EntriesBounded` and `TallySum` |
| GoalTally.StepByPuts | src/Pages/DashboardPage/DashboardPage.tsx:161-163 | the three assignments of the loop body (create when missing, add to `total`, add to `completed`) amount to one tally step |
| GoalTally.TallyCounts | src/Shared/api/goals/goalsApi.ts:19-27 | there is an entry exactly for each non-empty goal id that occurs, counting its rows and its completed rows |
| GoalTally.EntriesBounded | src/Shared/api/goals/goalsApi.ts:24-26 | every entry has at least one task and no more completed tasks than tasks |
| GoalTally.SkipsRowsWithoutGoal | src/Shared/api/goals/goalsApi.ts:22 | a row with a null or empty goal id changes nothing |
| GoalTally.NewGoalGoesLast | src/Shared/api/goals/goalsApi.ts:24 | a goal seen for the first time is appended to the key order |
| GoalTally.TallySum | src/Shared/api/goals/goalsApi.ts:20-26 | the totals add up to the rows that have a goal id |
| GoalsApi.ProgressStep | src/Shared/api/goals/goalsApi.ts:21-26 | one row keeps the progress record well formed |
| GoalsApi.Progress | src/Shared/api/goals/goalsApi.ts:19-27 | the progress record of the rows is well formed; its entries are stated by `ProgressMirrorsTally` and `ProgressCounts` |
| GoalsApi.ProgressStepByPuts | src/Shared/api/goals/goalsApi.ts:24-26 | the three assignments of the loop body amount to one step of the progress record |
| GoalsApi.FetchGoalProgress | src/Shared/api/goals/goalsApi.ts:19-29 | the loop leaves exactly the progress record of the rows, one step per row in order |
| GoalsApi.ProgressMirrorsTally | src/Shared/api/goals/goalsApi.ts:19-29 | the progress record has the tally's keys in the same order, and each entry carries its own key as `goalId` and the tally's two counts |
| GoalsApi.ProgressCounts | src/Shared/api/goals/goalsApi.ts:11-30 | each goal that occurs has an entry with its key as `goalId`, its row count and completed count, 1 ≤ total, completed ≤ total; the totals sum to the rows with a goal |
| GoalsApi.CreateGoal | src/Shared/api/goals/goalsApi.ts:32-51 | fails with `Not authenticated` exactly when there is no user id; otherwise the row is the caller's and each optional field left out is sent as null |
| GoalsApi.UpdateGoal | src/Shared/api/goals/goalsApi.ts:53-70 | the id selects the row and is not in the patch; the name is sent exactly when given; description and dates are sent only when they hold a value, never as null |
| GoalsApi.UpdateGoalSends | src/Shared/api/goals/goalsApi.ts:53-63 | the value sent for each column: the given name, and the value of each description or date that holds one; no other column is sent |
| GoalsApi.UpdateGoalKeepingNullSends | src/Shared/api/goals/goalsApi.ts:53-63 | corrected: as above, except that a description or date set to null sends SQL null |
| GoalsApi.UpdateGoalKeepsCleared | src/Shared/api/goals/goalsApi.ts:54-63 | as written, a description or date the edit sets to null keeps its stored value |
| GoalsApi.UpdateGoalKeepingNull | src/Shared/api/goals/goalsApi.ts:53-63 | corrected patch: every field given, including a null, is sent |
| GoalsApi.KeepingNullStoresGoalEdit | src/Shared/api/goals/goalsApi.ts:53-63 | corrected: the stored goal holds what the edit sets, null included, and keeps what it leaves out |
| TasksApi.BuildQuery | src/Shared/api/tasks/tasksApi.ts:4-43 | the step-by-step builder yields the query the filter record defines |
| TasksApi.QueryFor | src/Shared/api/tasks/tasksApi.ts:4-43 | the query a filter record defines; stated by `BuildQuery` and the per-column lemmas below |
| TasksApi.ColumnConditions | src/Shared/api/tasks/tasksApi.ts:4-43 | the conditions on each column are those of the five filter groups, and the search group tests no single column |
| TasksApi.StatusConditions | src/Shared/api/tasks/tasksApi.ts:7-21 | a status equality exactly when the status filter is present and not `all`; the only other status test is the overdue bucket's `neq completed` |
| TasksApi.PriorityConditions | src/Shared/api/tasks/tasksApi.ts:8 | a priority equality exactly when the priority filter is present and not `all` |
| TasksApi.GoalConditions | src/Shared/api/tasks/tasksApi.ts:11 | a goal equality exactly when `goal_id` is non-empty |
| TasksApi.DueConditions | src/Shared/api/tasks/tasksApi.ts:20-35 | only the chosen bucket tests `due_date`: overdue is not-null and `< today`; today is equality; no due date is `is null`; this week is not-null with `>= today` and `<= in7`; `all` or none tests nothing |
| TasksApi.DueBucketSelects | src/Shared/api/tasks/tasksApi.ts:20-35 | under SQL semantics each bucket selects exactly the rows the dashboard counts as overdue, due today, undated or due this week |
| TasksApi.SearchSegment | src/Shared/api/tasks/tasksApi.ts:37-40 | a blank search adds no `or`; any other adds one `or` of two `ilike` tests on title and description with `%trimmed%` |
| TasksApi.OrOnlyFromSearch | src/Shared/api/tasks/tasksApi.ts:7-40 | the only `or` predicates of the query are those of the search |
| TasksApi.SearchPredicate | src/Shared/api/tasks/tasksApi.ts:37-42 | the query's `or` predicates are exactly the search's, and the order is always `created_at` descending |
| TasksApi.BlankSearchIsNoSearch | src/Shared/api/tasks/tasksApi.ts:37 | a whitespace-only search gives the same query as no search |
| TasksApi.CreateTask | src/Shared/api/tasks/tasksApi.ts:45-66 | fails with `Not authenticated` exactly when there is no user id; otherwise the row is the caller's, title, priority and status pass through, and optional fields left out are sent as null |
| TasksApi.UpdateTask | src/Shared/api/tasks/tasksApi.ts:75-92 | the id selects the row and is not in the patch; description, due date and goal are sent only when they hold a value |
| TasksApi.UpdateTaskSends | src/Shared/api/tasks/tasksApi.ts:75-85 | the value sent for each column: the given title, the given priority and status as their database text, and the value of each description, due date or goal that holds one; no other column is sent |
| TasksApi.UpdateTaskKeepingNullSends | src/Shared/api/tasks/tasksApi.ts:75-85 | corrected: as above, except that a description, due date or goal set to null sends SQL null |
| TasksApi.UpdateTaskKeepsCleared | src/Shared/api/tasks/tasksApi.ts:75-85 | as written, for every task and edit, a description, due date or goal the edit sets to null keeps its stored value; one holding a value is stored |
| TasksApi.ClearedDueDateIsKept | src/Shared/api/tasks/tasksApi.ts:82-83 | as written, an example: a task due 2024-01-10 edited to a null due date is still due 2024-01-10 |
| TasksApi.UpdateTaskKeepingNull | src/Shared/api/tasks/tasksApi.ts:75-85 | corrected patch: every field given, including a null, is sent |
| TasksApi.KeepingNullStoresEdit | src/Shared/api/tasks/tasksApi.ts:75-85 | corrected: the stored task holds what the edit sets, null included, and keeps what it leaves out |
| TaskPage.StatusFrom | src/Pages/TasksPage/TaskPage.tsx:122 | an accepted status literal becomes the filter whose literal it is; anything else, `null` included, becomes `all` |
| TaskPage.PriorityFrom | src/Pages/TasksPage/TaskPage.tsx:123 | an accepted priority literal becomes the filter whose literal it is; anything else becomes `all` |
| TaskPage.DueFrom | src/Pages/TasksPage/TaskPage.tsx:124 | an accepted due literal becomes the filter whose literal it is; anything else becomes `all` |
| TaskPage.GoalFrom | src/Pages/TasksPage/TaskPage.tsx:126 | the goal id is kept exactly when it is a non-empty string, and is `null` otherwise |
| TaskPage.StatusValidatorExact | src/Pages/TasksPage/TaskPage.tsx:70-72 | `isStatus` accepts the literal of every status filter and reads it back, and rejects null |
| TaskPage.PriorityValidatorExact | src/Pages/TasksPage/TaskPage.tsx:74-76 | `isPriority` accepts the literal of every priority filter and reads it back, and rejects null |
| TaskPage.DueValidatorExact | src/Pages/TasksPage/TaskPage.tsx:79-81 | `isDue` accepts the literal of every due filter and reads it back, and rejects null |
| TaskPage.RemoveAll | src/Pages/TasksPage/TaskPage.tsx:141-145 | after removing a name it has no value, and every other name reads as before |
| TaskPage.Set | src/Pages/TasksPage/TaskPage.tsx:141-145 | `set` makes the name read back the value, and appends when the name was absent |
| TaskPage.SetKeepsOthers | src/Pages/TasksPage/TaskPage.tsx:141-145 | `set` leaves every other name's value alone |
| TaskPage.ParseTolerant | src/Pages/TasksPage/TaskPage.tsx:112-127 | the parse never fails: an accepted literal is taken and any other or missing status, priority or due becomes `all`; a missing search becomes empty; a missing or empty goal id becomes null |
| TaskPage.Parse | src/Pages/TasksPage/TaskPage.tsx:121-127 | reading the filters from the URL; stated by `ParseTolerant`, and by `RoundTrip` and `ParseQueryOf` against `QueryOf` |
| TaskPage.BuildParams | src/Pages/TasksPage/TaskPage.tsx:139-145 | the sequence of `set` calls builds exactly the serialised query |
| TaskPage.AbsentBefore | src/Pages/TasksPage/TaskPage.tsx:141-145 | each name the serialiser sets is not yet present in what it has built, so every `set` appends |
| TaskPage.QueryEmpty | src/Pages/TasksPage/TaskPage.tsx:139-145 | the serialised query is empty exactly when none of the five parameters is written |
| TaskPage.QueryOf | src/Pages/TasksPage/TaskPage.tsx:139-145 | writing the filters to the URL; stated by `BuildParams`, `QueryEmpty`, `AbsentBefore` and the round-trip lemmas |
| TaskPage.GetQueryOf | src/Pages/TasksPage/TaskPage.tsx:139-145 | each name of the serialised query holds its field's value: absent at the default, the search trimmed and absent when blank, the goal under `goalId` |
| TaskPage.StatusRoundTrip | src/Pages/TasksPage/TaskPage.tsx:122-141 | a written status reads back as the filter, and an unwritten one as `all` |
| TaskPage.PriorityRoundTrip | src/Pages/TasksPage/TaskPage.tsx:123-142 | a written priority reads back as the filter, and an unwritten one as `all` |
| TaskPage.DueRoundTrip | src/Pages/TasksPage/TaskPage.tsx:124-143 | a written due filter reads back as the filter, and an unwritten one as `all` |
| TaskPage.SearchRoundTrip | src/Pages/TasksPage/TaskPage.tsx:125-144 | the search reads back trimmed, and a blank one as the empty string |
| TaskPage.RoundTrip | src/Pages/TasksPage/TaskPage.tsx:121-145 | parsing the serialised filters gives back the filters with defaults filled in and the search trimmed |
| TaskPage.NormalizeIdempotent | src/Pages/TasksPage/TaskPage.tsx:121-145 | what the URL keeps of a filter record is stable under a second pass |
| TaskPage.SearchParamTrimmed | src/Pages/TasksPage/TaskPage.tsx:144 | a search and its trimmed form are written alike |
| TaskPage.ParseQueryOf | src/Pages/TasksPage/TaskPage.tsx:121-145 | reading back the written filters gives filters with the same normal form as the ones written |
| TaskPage.QueryOfNormalize | src/Pages/TasksPage/TaskPage.tsx:139-145 | filters with the same normal form serialise alike |
| TaskPage.NormalizeSelectsSame | src/Pages/TasksPage/TaskPage.tsx:154-178 | filters with the same normal form give the same task query |
| TaskPage.HasFiltersIff | src/Pages/TasksPage/TaskPage.tsx:180-188 | `hasFilters` is false exactly when every field is at its default, search trimmed, and exactly when the serialised query is empty |
| TaskPage.HasFilters | src/Pages/TasksPage/TaskPage.tsx:180-188 | whether any filter is set; stated by `HasFiltersIff` |
| TaskPage.ReadUrlEffect | src/Pages/TasksPage/TaskPage.tsx:112-130 | the URL effect leaves URL and filters to the next render; as written it always raises the flag, and the variant raises it only when the parsed filters differ |
| TaskPage.WriteUrlEffect | src/Pages/TasksPage/TaskPage.tsx:133-152 | with the flag up it only lowers it; otherwise the URL becomes the serialised filters, and it changes only when it differed |
| TaskPage.SecondChangeNotWritten | src/Pages/TasksPage/TaskPage.tsx:112-152 | as written: after one filter change is written, the flag stays up, so the next change is not written and URL and filters disagree |
| TaskPage.SettlesAfterRead | src/Pages/TasksPage/TaskPage.tsx:112-152 | with the corrected flag, a read URL settles within one more commit with the parsed filters and the flag down |
| TaskPage.MountAgrees | src/Pages/TasksPage/TaskPage.tsx:112-152 | with the corrected flag, mounting on any URL leaves URL and filters agreed |
| TaskPage.UserSetsKeepsAgreement | src/Pages/TasksPage/TaskPage.tsx:112-152 | with the corrected flag, a filter change by the user keeps URL and filters agreed |
| TaskPage.NavigateKeepsAgreement | src/Pages/TasksPage/TaskPage.tsx:112-152 | with the corrected flag, an outside URL change keeps them agreed and the URL is not rewritten |
| TaskPage.Commit | src/Pages/TasksPage/TaskPage.tsx:112-152 | one commit: the URL effect, then the write effect, each when its dependency changed; stated by `SecondChangeNotWritten` and `SettlesAfterRead` |
| TaskPage.Run | src/Pages/TasksPage/TaskPage.tsx:112-152 | the cascade of commits until nothing changes or the fuel runs out; stated by `SettlesAfterRead` |
| TaskPage.Mount | src/Pages/TasksPage/TaskPage.tsx:112-152 | the first render on a URL; stated by `MountAgrees` |
| TaskPage.UserSets | src/Pages/TasksPage/TaskPage.tsx:112-152 | a filter change by the user; stated by `UserSetsKeepsAgreement` and `SecondChangeNotWritten` |
| TaskPage.Navigate | src/Pages/TasksPage/TaskPage.tsx:112-152 | a URL change from outside; stated by `NavigateKeepsAgreement` |
| TaskPage.FilterUrlSync.constructor | src/Pages/TasksPage/TaskPage.tsx:84-93 | the page starts with the default filters, the given URL and the flag down |
| TaskPage.FilterUrlSync.ReadUrl | src/Pages/TasksPage/TaskPage.tsx:112-130 | raises the flag and sets the filters parsed from the URL |
| TaskPage.FilterUrlSync.WriteUrl | src/Pages/TasksPage/TaskPage.tsx:133-152 | performs the write effect; it reports a write exactly when the URL changed, and never writes with the flag up |
| TaskPage.FilterUrlSync.SetFilters | src/Pages/TasksPage/TaskPage.tsx:84-90 | a filter control replaces the filters and nothing else |
| TaskPage.FilterUrlSync.ClearFilters | src/Pages/TasksPage/TaskPage.tsx:335-341 | Clear resets the filters to the defaults, after which `hasFilters` is false |
| GoalsPage.GoalPercent | src/Pages/GoalsPage/GoalsPage.tsx:24-27 | 0 for a non-positive total, otherwise the rounded percentage, in [0, 100] when 0 ≤ completed ≤ total |
| GoalsPage.CopyProgress | src/Pages/GoalsPage/GoalsPage.tsx:52-53 | the copy has the same keys in the same order, and each entry keeps `total` and `completed` |
| GoalsPage.RowProgress | src/Pages/GoalsPage/GoalsPage.tsx:213-214 | a goal without an entry shows 0/0 and 0%; one with an entry shows its counts and a percentage in [0, 100] when completed ≤ total |
| GoalsPage.Summarize | src/Pages/GoalsPage/GoalsPage.tsx:119-132 | the reduce yields the number of listed goals and the sums of their entries' totals and completed counts |
| GoalsPage.SummaryCompletedBounded | src/Pages/GoalsPage/GoalsPage.tsx:119-132 | with no entry over-counting, the summary has no more completed tasks than tasks |
| GoalsPage.AddGoalWithoutProgress | src/Pages/GoalsPage/GoalsPage.tsx:121-129 | a listed goal without an entry adds one goal and no tasks |
| GoalsPage.SummaryIgnoresUnlisted | src/Pages/GoalsPage/GoalsPage.tsx:121-129 | entries of goals that are not listed do not affect the summary |
| GoalsPage.EditInput | src/Pages/GoalsPage/GoalsPage.tsx:86 | the edit carries the edited goal's id and every field of the dialog's record |
| GoalsPage.ClearedStartLetsGoalEndFirst | src/Shared/api/goals/goalsApi.ts:53-63 | as written: clearing the start date and moving the end date before the old start passes the schema, yet leaves a stored goal that ends before it starts |
| GoalsPage.KeepingNullKeepsDatesOrdered | src/Shared/api/goals/goalsApi.ts:53-63 | corrected: any edit the schema accepts leaves the stored dates in order |
| FormFields.BlankToNull | src/Pages/GoalsPage/GoalDialog.tsx:48 | a missing or whitespace-only text becomes null; any other becomes its trimmed, non-empty form |
| FormFields.EmptyToNull | src/Pages/GoalsPage/GoalDialog.tsx:49-50 | a missing or empty value becomes null; any other is kept |
| FormFields.BlankToNullReshown | src/Pages/GoalsPage/GoalDialog.tsx:30-48 | a cleaned text, shown again with null as empty, cleans to itself |
| FormFields.EmptyToNullReshown | src/Pages/GoalsPage/GoalDialog.tsx:30-50 | a cleaned date, shown again, cleans to itself |
| GoalDialog.EndAfterStartIff | src/Pages/GoalsPage/GoalDialog.tsx:13-17 | the test passes whenever a date is missing or empty; with both given it passes exactly when the end is the start or later in string order |
| GoalDialog.ValidGoalForm | src/Pages/GoalsPage/GoalDialog.tsx:6-18 | the goal schema; stated by `EndAfterStartIff` and `CleanValid` |
| GoalDialog.InitialGoalValues | src/Pages/GoalsPage/GoalDialog.tsx:30-35 | a new goal starts empty with null dates; an edit shows the stored fields, a null description as empty |
| GoalDialog.CleanGoal | src/Pages/GoalsPage/GoalDialog.tsx:46-51 | name trimmed; blank description to null, other trimmed; empty dates to null, others unchanged; every field set |
| GoalDialog.CleanValid | src/Pages/GoalsPage/GoalDialog.tsx:6-51 | a form the schema accepts cleans to a record with a trimmed non-empty name within 120, a trimmed description within 2000 or null, and dates in order |
| GoalDialog.ReopenUnchanged | src/Pages/GoalsPage/GoalDialog.tsx:30-51 | a goal stored from a cleaned record, reopened and saved unchanged, passes the schema and submits the same record |
| TaskDialog.OneOfRules | src/Pages/TasksPage/TaskDialog.tsx:10-11 | priority and status are accepted exactly for their three listed literals |
| TaskDialog.ValidTaskForm | src/Pages/TasksPage/TaskDialog.tsx:6-12 | the task schema; stated by `OneOfRules` and `CleanValid` |
| TaskDialog.InitialTaskValues | src/Pages/TasksPage/TaskDialog.tsx:36-43 | a new task starts with empty title and description, priority medium, status todo, null due date and goal; an edit shows the stored fields |
| TaskDialog.CleanTask | src/Pages/TasksPage/TaskDialog.tsx:54-60 | title trimmed; blank description to null, other trimmed; empty due date to null; undefined goal to null; priority and status unchanged |
| TaskDialog.CleanValid | src/Pages/TasksPage/TaskDialog.tsx:6-60 | a form the schema accepts cleans to a record with a trimmed non-empty title within 120, a trimmed description within 2000 or null, and every field set |
| TaskDialog.ReopenUnchanged | src/Pages/TasksPage/TaskDialog.tsx:36-60 | a task stored from a cleaned record, reopened and saved unchanged, passes the schema and submits the same record |
| TaskDialog.EditInput | src/Pages/TasksPage/TaskPage.tsx:209 | the edit carries the edited task's id and every field of the dialog's record |
| TaskDialog.ClearingDueDateKeepsIt | src/Shared/api/tasks/tasksApi.ts:82-83 | as written: emptying the due date and blanking the description of a task passes the schema, yet the stored task keeps both |
| TaskDialog.KeepingNullStoresForm | src/Shared/api/tasks/tasksApi.ts:75-85 | corrected: the stored task holds the cleaned description, due date and goal, and has no due date exactly when the form's was empty |
| AuthSlice.UserOf | src/App/store/authSlice.ts:66 | the user of a session, or none without one |
| AuthSlice.Reduce | src/App/store/authSlice.ts:60-126 | the reducer, one case per action; its contract is the per-action lemmas below (`SetSessionInstalls` to `LogoutResets`) and `ReducePreservesConsistent` |
| AuthSlice.InitialIsSignedOut | src/App/store/authSlice.ts:13-19 | the initial state has no session, user, error or info, is idle, and is consistent |
| AuthSlice.ReducePreservesConsistent | src/App/store/authSlice.ts:60-126 | every action keeps the shown user equal to the session's and keeps messages empty while loading |
| AuthSlice.ReachableConsistent | src/App/store/authSlice.ts:60-126 | so does every sequence of actions from a consistent state |
| AuthSlice.SetSessionInstalls | src/App/store/authSlice.ts:64-67 | `setSession` installs the session and its user and leaves status and messages alone |
| AuthSlice.ClearMessagesKeepsSession | src/App/store/authSlice.ts:68-71 | `clearMessages` empties error and info, keeps session, user and status, and is idempotent |
| AuthSlice.PendingClears | src/App/store/authSlice.ts:76-102 | a pending register or login shows loading, clears both messages and keeps the session; a pending logout changes nothing |
| AuthSlice.RegisterAwaitingConfirmation | src/App/store/authSlice.ts:81-91 | a fulfilled register is always idle; without a session it is signed out with the confirmation notice, with one it shows the session's user |
| AuthSlice.RegisterThenConfirm | src/App/store/authSlice.ts:76-91 | pending then fulfilled without a session leaves exactly the confirmation notice |
| AuthSlice.RejectedSetsError | src/App/store/authSlice.ts:92-124 | every rejected case ends in the error status with the thrown message or its fixed fallback, and keeps session, user and info |
| AuthSlice.LogoutResets | src/App/store/authSlice.ts:114-120 | a fulfilled logout returns to the initial state from any state |
| AuthSlice.AuthStore.constructor | src/App/store/authSlice.ts:13-19 | the store starts in the initial state |
| AuthSlice.AuthStore.SetSessionReducer | src/App/store/authSlice.ts:64-67 | the field assignments take the state to its `setSession` successor |
| AuthSlice.AuthStore.ClearMessagesReducer | src/App/store/authSlice.ts:68-71 | the field assignments take the state to its `clearMessages` successor |
| AuthSlice.AuthStore.RegisterPendingCase | src/App/store/authSlice.ts:76-80 | the field assignments take the state to its register-pending successor |
| AuthSlice.AuthStore.RegisterFulfilledCase | src/App/store/authSlice.ts:81-91 | the field assignments take the state to its register-fulfilled successor |
| AuthSlice.AuthStore.RegisterRejectedCase | src/App/store/authSlice.ts:92-95 | the field assignments take the state to its register-rejected successor |
| AuthSlice.AuthStore.LoginPendingCase | src/App/store/authSlice.ts:98-102 | the field assignments take the state to its login-pending successor |
| AuthSlice.AuthStore.LoginFulfilledCase | src/App/store/authSlice.ts:103-107 | the field assignments take the state to its login-fulfilled successor |
| AuthSlice.AuthStore.LoginRejectedCase | src/App/store/authSlice.ts:108-111 | the field assignments take the state to its login-rejected successor |
| AuthSlice.AuthStore.LogoutFulfilledCase | src/App/store/authSlice.ts:114-120 | the field assignments take the state to its logout-fulfilled successor |
| AuthSlice.AuthStore.LogoutRejectedCase | src/App/store/authSlice.ts:121-124 | the field assignments take the state to its logout-rejected successor |
| ThemeSlice.ReadInitialMode | src/App/store/themeSlice.ts:12-16 | a stored `light`, `dark` or `system` is taken as the mode; any other value or none gives `system` |
| ThemeSlice.ReadsBackEveryMode | src/App/store/themeSlice.ts:14 | every mode is recovered from its stored text |
| ThemeSlice.PersistedModeIsRead | src/App/store/themeSlice.ts:10-28 | after `setMode(m)` has written storage, reading the initial mode gives `m` |
| ThemeSlice.ThemeStore.constructor | src/App/store/themeSlice.ts:18-20 | the initial mode is the one read from storage |
| ThemeSlice.ThemeStore.SetMode | src/App/store/themeSlice.ts:26-29 | sets the mode, stores its text under `tt_theme_mode` leaving other keys alone, and storage then reads back the mode |
| Header.RouteTitle | src/App/Ui/HeaderComponent.tsx:21-31 | the title is always one of the nine literals, and `/` and `/home` give Home |
| Header.FirstMatch | src/App/Ui/HeaderComponent.tsx:23-30 | the result is `Page` or the title of some rule |
| Header.FirstMatchIsFirst | src/App/Ui/HeaderComponent.tsx:23-29 | the first rule whose prefix matches wins |
| Header.FirstMatchNone | src/App/Ui/HeaderComponent.tsx:30 | with no prefix matching, the title is `Page` |
| Header.RouteTitleIsFirstMatch | src/App/Ui/HeaderComponent.tsx:21-31 | the title is Home for the two exact paths, and otherwise that of the first matching rule in table order, or `Page` |
| Header.TitleExamples | src/App/Ui/HeaderComponent.tsx:21-31 | `/tasks/abc` is Tasks, `/homework` is Page and `/` is Home |

## Left out

- Rendering: all JSX, the MUI and chart components, and the nested goal loop in the dashboard's markup.
- Backend calls: every `supabase` call (fetch, insert, update, delete, auth) is left out. Only the query, the insert record, the patch and the guard handed to the service are modelled. `ilike` matching, row-level security and foreign-key behaviour happen inside the service.
- `fetchGoalProgress`'s server-side `not goal_id is null` filter: the loop receives the rows as a parameter, and it skips null goal ids itself.
- `DueBucketSelects` covers due dates only: it states the SQL meaning of the date-bucket conditions, and `ilike` is not modelled.
- Clock: `todayStr` and `addDaysISO`, and the date arithmetic in `buildQuery`, read the clock. Today, today+7 and the seven chart days are therefore parameters. `UpcomingWithinWeek` asks that the days be distinct and lie between today and today+7, which the clock code ensures.
- Floating point: `Math.round((done / total) * 100)` is computed on exact rationals with halves rounded up. A float rounding error at an exact half is not modelled.
- String order: JavaScript `<` and `>=` on date strings, `localeCompare` on `YYYY-MM-DD` dates, and SQL comparison are all modelled as character-by-character order. Locale collation is not modelled.
- String lengths: lengths count characters (code points) rather than UTF-16 units. Trimming uses a fixed whitespace set.
- Plain objects as dictionaries: `Object.entries` key order is modelled as insertion order, and a key never assigned reads as absent. In JavaScript integer-like keys come first, and a lookup such as `goalAgg[id]`, `goalsMap[id]` or `progressMap[g.id]` also finds names inherited from `Object.prototype` (`constructor`, `toString`, …). The ids are UUIDs, so neither arises; the model does not capture a goal id that is such a name.
- TasksApi.SearchPredicates, TasksApi.SearchPredicate: the search text is pasted unescaped into the `or` filter string. A comma or parenthesis in it changes the parsed alternatives or breaks the request, and `%` or `_` act as wildcards. The model treats the search as two `ilike` tests on the literal pattern `%trimmed%`.
- React scheduling:
  - effects are modelled as a cascade of commits in which an effect runs exactly when one of its dependencies changed, in declaration order;
  - after at most `Fuel` (4) commits the cascade stops, and a longer cascade is not modelled;
  - `Promise.all`, the load effect and the auth subscription are left out.
- URL comparison: `toString()` comparison of query strings is modelled as comparison of the name/value lists, since the encoding is injective.
- Filter record: the filter record has a `goal_id` field, which the page and `buildQuery` use. The `TaskFilters` type has no such field.
- Browser storage: modelled as a map that is passed in and updated.
- Form libraries: yup and Formik internals are modelled only through the rules the schemas state. The login and register validation (email, password length) is not modelled.
- Other files:
  - `SettingsPage` (storage, clipboard, export, initials, theme resolution);
  - the routing shells;
  - `HomePage`, `NotFoundPage` and `DeleteConfirmationDialog`;
  - `store.ts`, `client.ts` and `App.tsx`.
  - They are glue or I/O, and are not part of this model.
- AuthSlice.ClearMessagesKeepsSession: after a rejection, `clearMessages` leaves the status at `error` with no error text. The model states this behaviour as the source has it, and does not call it a defect.

## Findings

| source | as written | input that shows it | evidently intended | confidence | as-written member | corrected member |
|---|---|---|---|---|---|---|
| src/Shared/api/tasks/tasksApi.ts:82-84 | `patch.x ?? undefined` turns the `null` that the dialog sends for a cleared description, due date or goal into "leave unchanged" | a task due 2024-01-10 with description "Monthly", edited to an empty due date and a blank description: the stored task keeps both | clearing a field clears it | not executed | TaskDialog.ClearingDueDateKeepsIt | TaskDialog.KeepingNullStoresForm |
| src/Shared/api/goals/goalsApi.ts:60-62 | a cleared start date is not sent, while `end_after_start` passes because the form's start is empty | a goal from 2024-01-10 to 2024-01-20, edited to clear the start and end on 2024-01-05: stored goal has start 2024-01-10, end 2024-01-05 | a goal accepted by the schema is stored with its dates in order | not executed | GoalsPage.ClearedStartLetsGoalEndFirst | GoalsPage.KeepingNullKeepsDatesOrdered |
| src/Pages/TasksPage/TaskPage.tsx:119 | the URL effect always raises the skip flag, even when the parsed filters equal the shown ones, so the write effect does not run to lower it | mount on an empty URL, set status todo (written as `status=todo`), then set priority high: the URL stays `status=todo` | the flag suppresses only the one write-back of a URL-driven change | not executed | TaskPage.SecondChangeNotWritten | TaskPage.UserSetsKeepsAgreement |
