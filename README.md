# Weekly planner core in Dafny

A model of the logic of a weekly to-do planner whose user interface is written
in TypeScript and React. Users put tasks on one of seven weekdays, give each a
category and a priority, and follow their progress per day. The model covers:

- the weekday registry (`src/lib/dateUtils.ts`): the fixed Monday-first table of
  seven days, lookup by key, the weekend test, the selection of weekend or
  working days, the map from the host's Sunday-first day index to a key, and
  the cyclic next and previous day;
- the task list (`src/components/TodoList.tsx`): the three-level comparator,
  the sorted copy of the tasks, its split into an incomplete and a completed
  section, and the completion percentage;
- the weekday navigation (`src/components/WeekdayNavigation.tsx`): the visible
  days, the `{total, completed}` count per day, the rounded completion rate,
  the badge and progress bar of each day button, and the week overview;
- the category filter (`src/components/CategoryFilter.tsx`): the count per
  category on the selected day, the count for the whole day, the rule that
  disables a category without tasks, and the day overview with its remaining
  count and percentage;
- the add-task form (`src/components/AddTodoForm.tsx`): a class `Form` with the
  six input fields, the submit step that rejects a title made only of white
  space and emits a normalised draft, the reset after a submit (which keeps
  the weekday), the quick-task templates and the click on one of them.

Everything except the form is pure, as in the TypeScript: sequences stand for
arrays, `Seqs.Filter`, `Seqs.FindIndex` and `Seqs.Find` stand for
`Array.prototype.filter`, `findIndex` and `find`, and `Text.Trim` stands for
`String.prototype.trim`. `[...tasks].sort(...)` sorts a copy, so
`TodoList.SortTasks` is a function from the input to a new sequence and the
input is untouched by construction.

The types module (`Weekday`, `TaskCategory`, `TaskPriority`, `WeekdayInfo`,
`Task`) is reconstructed from the fields the components read and write.
`createdAt` is an integer millisecond timestamp, which is what the
comparator's `getTime()` difference works on. `Math.round(c / t * 100)` with
`0 <= c` and `0 < t` is modelled as the integer nearest to `100 * c / t`, halves
rounded up (`TaskFilters.RoundPercent`).

Three behaviours of the code are worth stating plainly, and the model follows
them: the form resets title, description, category, priority and due date
after a submit but keeps the chosen weekday; the category's initial value is
`personal`, whatever categories are suggested for the day; and the week
overview in weekend mode counts tasks by their stored `isWeekend` flag, not by
their weekday (`WeekdayNavigation.WeekendOverviewIsSaturdayPlusSunday` shows the two
agree when the flags are consistent).

## Model

| member | source | states |
|---|---|---|
| DateUtils.WeekdaysTable | src/lib/dateUtils.ts:4-61 | The table has seven entries in Monday-first order with pairwise distinct keys, and exactly the last two (Saturday, Sunday) are flagged as weekend days. |
| DateUtils.IndexOfKey | src/lib/dateUtils.ts:113 | Looking up any key with `findIndex` finds it, at its position in the Monday-first order. |
| DateUtils.WeekdayOfDayIndex | src/lib/dateUtils.ts:68-78 | Day index 0 is Sunday and only 0 is; index i is the ((i + 6) mod 7)-th day of the Monday-first order. |
| DateUtils.DayIndexBijection | src/lib/dateUtils.ts:68-76 | The day-index map is a bijection between 0..6 and the seven keys. |
| DateUtils.GetWeekdayInfo | src/lib/dateUtils.ts:82-88 | The lookup always succeeds and returns the table entry whose key is the argument; the "Invalid weekday" error is never produced. |
| DateUtils.IsWeekendMatchesTable | src/lib/dateUtils.ts:91-93 | `isWeekend(w)` equals the weekend flag stored in w's table entry, and holds exactly for the last two days of the week. |
| DateUtils.IsWeekend | src/lib/dateUtils.ts:91-93 | A day is a weekend day exactly when it is one of the last two of the Monday-first week. |
| DateUtils.GetWeekdays | src/lib/dateUtils.ts:96-99 | Without an argument the whole table; with `true` the last two entries; with `false` the first five. |
| DateUtils.WeekdaysSplitByFlag | src/lib/dateUtils.ts:98 | Filtering the table by flag `b` keeps Saturday and Sunday for `true` and Monday through Friday for `false`, in table order. |
| DateUtils.GetWeekdaysSelections | src/lib/dateUtils.ts:96-99 | The selection by flag `b` has 2 or 5 entries, each has flag `b`, every table entry with flag `b` is in it, and its keys are Saturday, Sunday or Monday through Friday in order. |
| DateUtils.GetNextWeekday | src/lib/dateUtils.ts:112-116 | The next day is the reference successor in the weekly cycle, whose position is the current position plus one modulo 7. |
| DateUtils.GetPreviousWeekday | src/lib/dateUtils.ts:119-123 | The previous day is the reference predecessor, whose position is the current position minus one modulo 7. |
| DateUtils.NextOfSundayIsMonday | src/lib/dateUtils.ts:112-123 | The day after Sunday is Monday and the day before Monday is Sunday. |
| DateUtils.PreviousNextInverse | src/lib/dateUtils.ts:112-123 | Previous undoes next and next undoes previous, for every day. |
| DateUtils.IterateIsRotation | src/lib/dateUtils.ts:112-116 | Applying a one-day-forward step n times moves a day n positions forward modulo 7. |
| DateUtils.NextRepeatedReturnsWhenMultipleOfSeven | src/lib/dateUtils.ts:112-116 | Applying next n times returns to the starting day exactly when n is a multiple of 7. |
| Seqs.Filter | src/lib/dateUtils.ts:98 | A filter is no longer than its input and every element it keeps satisfies the predicate. |
| Seqs.FilterMultiset | src/components/WeekdayNavigation.tsx:29 | A filter keeps every element that satisfies the predicate as often as it occurs in the input, and no other element. |
| Seqs.FilterEmptyIff | src/components/CategoryFilter.tsx:22-24 | A filter is empty exactly when no input element satisfies the predicate. |
| Seqs.FindIndex | src/lib/dateUtils.ts:113 | The index of the first element satisfying the predicate, or -1 exactly when there is none. |
| Seqs.Find | src/lib/dateUtils.ts:83 | Nothing exactly when no element satisfies the predicate, otherwise the first element that does. |
| TaskFilters.CountOf | src/components/WeekdayNavigation.tsx:30-31 | In a `{total, completed}` record, completed is at most total, total minus completed is the number of incomplete tasks, completed is 0 exactly when no task is done and equals total exactly when all are. |
| TaskFilters.SectionsExactly | src/components/TodoList.tsx:39-40 | The completed selection holds each completed task as often as it occurs in the input and nothing else; the incomplete selection likewise for the tasks not done. |
| TaskFilters.CompletedSplit | src/components/TodoList.tsx:39-40 | The completed and the incomplete tasks together are as many as all tasks. |
| TaskFilters.RoundPercent | src/components/WeekdayNavigation.tsx:52 | The percentage is the integer nearest to 100 * part / whole (halves up); it is at most 100 when part <= whole, 100 when part == whole and 0 when part == 0. |
| TodoList.PriorityOrder | src/components/TodoList.tsx:30 | High ranks 0, Low ranks 2, Medium the one in between. |
| TodoList.Compare | src/components/TodoList.tsx:23-37 | The comparator puts an incomplete task before a completed one, then a higher priority before a lower one, then the newer before the older, and ties only tasks equal on all three. |
| TodoList.CompareMeansPrecedes | src/components/TodoList.tsx:23-37 | The comparator is antisymmetric and says "a no later than b" exactly when a is incomplete and b completed, or they agree on completion and a has the higher priority, or they agree on both and a is no older. |
| TodoList.CompareTotalPreorder | src/components/TodoList.tsx:23-37 | The comparator is total and transitive, so it is a valid sort order. |
| TodoList.Insert | src/components/TodoList.tsx:23 | Inserting a task yields the old tasks plus the new one, as a multiset. |
| TodoList.InsertSorted | src/components/TodoList.tsx:23 | Inserting into a sorted list keeps it sorted. |
| TodoList.SortTasks | src/components/TodoList.tsx:23-37 | The sorted copy is sorted under the comparator and is a permutation of the input. |
| TodoList.SortTasksOrder | src/components/TodoList.tsx:25-36 | In the sorted copy no completed task precedes an incomplete one; with equal completion priority never rises; with equal completion and priority creation time never increases. |
| TodoList.SortIdempotent | src/components/TodoList.tsx:23-37 | Sorting a list that is already in order returns it unchanged. |
| TodoList.SortTwice | src/components/TodoList.tsx:23-37 | Sorting the sorted copy again changes nothing. |
| TodoList.PartitionOfSorted | src/components/TodoList.tsx:39-40 | For a sorted list, the incomplete section followed by the completed section is the list itself. |
| TodoList.SectionsCount | src/components/TodoList.tsx:39-40 | The completed section has as many tasks as the input has completed tasks, and the two sections together as many as the input. |
| TodoList.SectionsOfTasks | src/components/TodoList.tsx:39-40 | The two sections of the sorted copy concatenate back to it, hold only incomplete and only completed tasks, together have as many tasks as the input, and the completed one has all of them when all are completed and none when none is. |
| TodoList.RenderTodoList | src/components/TodoList.tsx:39-151 | The empty state is shown exactly when there are no tasks, with the weekend greeting on Saturday and Sunday; otherwise the sections concatenate to the sorted copy and hold only incomplete and only completed tasks, the completed section has as many tasks as the input has completed ones, and the percentage is the rounded value of 100 * completed / all, at most 100, 100 when all are completed and 0 when none is. |
| TodoList.ThreeTaskScenario | src/components/TodoList.tsx:23-37 | An incomplete high-priority task, an incomplete low-priority task and a completed high-priority task come out in that order, whatever their creation times. |
| WeekdayNavigation.VisibleWeekdays | src/components/WeekdayNavigation.tsx:23-25 | In weekend mode exactly Saturday then Sunday are visible, all flagged as weekend; otherwise the whole week. |
| WeekdayNavigation.GetTaskCounts | src/components/WeekdayNavigation.tsx:28-32 | A day's total is the number of tasks on that day and its completed count the number of completed tasks on that day; completed is at most total, and the total is 0 exactly when no task is on that day. |
| WeekdayNavigation.DayTasksExactly | src/components/WeekdayNavigation.tsx:29-30 | The tasks a day's counts are taken over are exactly the input's tasks on that day, and the completed ones exactly its completed tasks on that day, with their multiplicity. |
| WeekdayNavigation.AddTaskDayCounts | src/components/WeekdayNavigation.tsx:28-32 | Adding a task raises the total of its own day by one, and that day's completed count by one when it is done; every other day's counts stay. |
| WeekdayNavigation.CompletionRate | src/components/WeekdayNavigation.tsx:52 | The rate is 0 for a day without tasks, at most 100, 100 when every task of the day is done, and otherwise the nearest integer to 100 * completed / total. |
| WeekdayNavigation.RenderDay | src/components/WeekdayNavigation.tsx:49-110 | A day button shows the badge and the bar exactly when the day has tasks; the badge is the day's counts and the bar width its completion rate; the bar is white exactly on the selected day, green exactly on another day whose tasks are all done, and purple otherwise. |
| WeekdayNavigation.RenderDays | src/components/WeekdayNavigation.tsx:48 | One button per visible day, in order: Saturday and Sunday in weekend mode, Monday through Sunday otherwise. |
| WeekdayNavigation.WeekOverview | src/components/WeekdayNavigation.tsx:182-183 | The overview total is the number of tasks in scope (those flagged as weekend in weekend mode, all tasks otherwise) and its completed count the number of completed tasks in scope; completed is at most total, which is at most the number of tasks; in weekend mode the total is 0 exactly when no task is flagged as weekend. |
| WeekdayNavigation.AddTaskWeekOverview | src/components/WeekdayNavigation.tsx:182-183 | Adding a task raises the overview total by one when it is in scope, and the completed count by one when it is also done. |
| WeekdayNavigation.DayTotalsSum | src/components/WeekdayNavigation.tsx:28-32 | The seven day totals add up to the number of tasks. |
| WeekdayNavigation.WeekendOverviewIsSaturdayPlusSunday | src/components/WeekdayNavigation.tsx:182-183 | When the stored weekend flags agree with the weekdays, the weekend overview counts are the Saturday counts plus the Sunday counts. |
| WeekdayNavigation.EmptyWeek | src/components/WeekdayNavigation.tsx:28-52 | Without tasks every day counts 0/0 with rate 0, no button shows a badge, and the overview is 0/0. |
| CategoryFilter.GetCategoryTaskCount | src/components/CategoryFilter.tsx:21-27 | A category's total is the number of its tasks on the selected day and its completed count the number of those that are done; completed is at most total, and total is 0 exactly when there is no such task. |
| CategoryFilter.CategoryTasksExactly | src/components/CategoryFilter.tsx:22-24 | The tasks a category's count is taken over are exactly the input's tasks of that category on the selected day, with their multiplicity. |
| CategoryFilter.CategoryDoneExactly | src/components/CategoryFilter.tsx:25 | The completed tasks a category counts are exactly the input's completed tasks of that category on the selected day, with their multiplicity. |
| CategoryFilter.AddTaskCategoryCounts | src/components/CategoryFilter.tsx:21-27 | Adding a task raises the total of its own category on its own day by one, and that completed count by one when it is done; every other count stays. |
| CategoryFilter.GetAllTaskCount | src/components/CategoryFilter.tsx:30-34 | The day total is the number of tasks on the selected day and its completed count the number of completed tasks on that day; completed is at most total, and total is 0 exactly when the day has no task. |
| CategoryFilter.AllCountIsDayCount | src/components/CategoryFilter.tsx:30-34 | The "All Tasks" count of the selected day equals the count the weekday navigation shows for that day. |
| CategoryFilter.CategoryWithinDay | src/components/CategoryFilter.tsx:21-34 | A category never has more tasks, nor more completed tasks, than the whole day. |
| CategoryFilter.CategoriesCoverDay | src/components/CategoryFilter.tsx:21-34 | The seven category totals of a day add up to the day's total. |
| CategoryFilter.RenderCategory | src/components/CategoryFilter.tsx:74-118 | A category button is disabled exactly when the category has no task on the selected day, shows its badge exactly when it is enabled, the badge being the category's count, and is selected exactly when it is the chosen category. |
| CategoryFilter.RenderCategories | src/components/CategoryFilter.tsx:74 | One button per suggested category, in the order given. |
| CategoryFilter.RenderOverview | src/components/CategoryFilter.tsx:142-163 | The overview is shown exactly when the day has tasks; its completed count is the day's completed count; its remaining count is never negative and is the number of incomplete tasks of the day; completed plus remaining is the day total; the percentage is the rounded value of 100 * completed / total, at most 100, 100 when nothing remains and 0 when nothing is done. |
| Text.RunFrom | src/components/AddTodoForm.tsx:35 | The run of characters with the property starting at an index: every character in it has the property and the one after it, if any, does not. |
| Text.RunBackTo | src/components/AddTodoForm.tsx:35 | The run of characters with the property ending at an index, scanning back no further than a lower bound: all of it has the property and the character before it, if within bounds, does not. |
| Text.LeadingRun | src/components/AddTodoForm.tsx:35 | The length of the leading run: all of it has the property and the next character, if any, does not. |
| Text.Strip | src/components/AddTodoForm.tsx:35 | Dropping a leading and a trailing run leaves the slice right after the leading run; it is empty exactly when every character has the property, otherwise it neither starts nor ends with one, and everything after it has the property. |
| Text.StripOfStripped | src/components/AddTodoForm.tsx:35 | A non-empty string whose ends lack the property is left unchanged. |
| Text.StripIdempotent | src/components/AddTodoForm.tsx:35 | Stripping twice is stripping once. |
| Text.Trim | src/components/AddTodoForm.tsx:35 | The trimmed string is the part of the input between its leading run and a trailing all-white-space part; it is empty exactly when the input is all white space, and otherwise neither starts nor ends with white space. |
| Text.TrimIdempotent | src/components/AddTodoForm.tsx:35 | Trimming twice is trimming once. |
| Text.TrimOfTrimmed | src/components/AddTodoForm.tsx:35 | A non-empty string with no white space at either end is its own trim. |
| AddTodoForm.BuildDraft | src/components/AddTodoForm.tsx:32-42 | No draft exactly when the title is all white space; otherwise the title is the non-empty trimmed title, `completed` is false, the description is absent exactly when it trims to nothing and is the trimmed text otherwise, the due date is absent exactly when its input is empty, and category, priority and weekday are carried over. |
| AddTodoForm.GetQuickTasks | src/components/AddTodoForm.tsx:55-73 | Four templates: weekend-fun, family, hobbies, personal on Saturday and Sunday, and work, health, personal, shopping on other days; a weekend-fun template is offered exactly on Saturday and Sunday. |
| AddTodoForm.WeekendTitlesTrimmed | src/components/AddTodoForm.tsx:59-64 | Every weekend template title is non-empty and has no white space at either end. |
| AddTodoForm.WorkdayTitlesTrimmed | src/components/AddTodoForm.tsx:66-71 | Every working-day template title is non-empty and has no white space at either end. |
| AddTodoForm.QuickTaskTitlesAreTrimmed | src/components/AddTodoForm.tsx:55-73 | Every template title is its own trim and is not all white space. |
| AddTodoForm.Form.constructor | src/components/AddTodoForm.tsx:19-24 | The form starts with empty title, description and due date, category personal, priority medium, and the page's selected weekday. |
| AddTodoForm.Form.CanSubmit | src/components/AddTodoForm.tsx:231 | The submit button is enabled exactly when the title is not all white space, which is exactly when a draft would be built. |
| AddTodoForm.Form.HandleSubmit | src/components/AddTodoForm.tsx:29-52 | The emitted draft is the one built from the values before the submit; nothing is emitted and no field changes when the button would be disabled; after an emitted draft every field but the weekday is back to its default and the form can no longer be submitted. |
| AddTodoForm.Form.Reset | src/components/AddTodoForm.tsx:46-51 | Every field but the weekday goes back to its default. |
| AddTodoForm.Form.BlankCannotSubmit | src/components/AddTodoForm.tsx:32 | A blank form has its submit disabled and builds no draft. |
| AddTodoForm.Form.ChooseQuickTask | src/components/AddTodoForm.tsx:207-210 | Choosing a template sets the title and category to the template's and leaves every other field unchanged; afterwards the form can be submitted. |
| AddTodoForm.Form.SetTitle | src/components/AddTodoForm.tsx:103 | Sets the title and nothing else. |
| AddTodoForm.Form.SetDescription | src/components/AddTodoForm.tsx:118 | Sets the description and nothing else. |
| AddTodoForm.Form.SetCategory | src/components/AddTodoForm.tsx:134 | Sets the category and nothing else. |
| AddTodoForm.Form.SetPriority | src/components/AddTodoForm.tsx:152 | Sets the priority and nothing else. |
| AddTodoForm.Form.SetWeekday | src/components/AddTodoForm.tsx:171 | Sets the weekday and nothing else. |
| AddTodoForm.Form.SetDueDate | src/components/AddTodoForm.tsx:190 | Sets the due date and nothing else. |
| AddTodoForm.SubmitTwice | src/components/AddTodoForm.tsx:29-52 | Of two submits in a row the second never emits a draft. |

## Left out

- `src/app/layout.tsx` is page chrome with no logic; it is not part of this model.
- `formatDate` (`src/lib/dateUtils.ts:102-109`) depends on the host's `Intl.DateTimeFormat`; it is not modelled.
- `getCurrentWeekday` reads the host clock; the model takes the clock's day index as the argument of `DateUtils.WeekdayOfDayIndex`, and the day buttons take the current weekday as a parameter.
- The due date is kept as the text of the date input; `new Date(dueDate)` parsing and the `min` date from `toISOString()` are host date functions and are not modelled.
- TaskFilters.RoundPercent: states integer half-up rounding of 100 * part / whole, not bit-exact agreement with `Math.round` on the floating-point quotient at .5 boundaries.
- The progress-bar widths (`src/components/TodoList.tsx:158`, `src/components/CategoryFilter.tsx:169`) are unrounded floating-point values and are not modelled.
- `getSuggestedCategories` comes from `src/lib/weekendUtils`, which is not part of this model; the category filter takes the suggestion list as an input, and the category options of the form's select are not modelled.
- `TodoItem` and the `@/types` module are not part of this model; the types are reconstructed from the fields the components use, and `TaskCategory` is closed to the seven values the code names.
- The task store behind `onSubmit`, `onToggleComplete`, `onUpdateTask` and `onDeleteTask` is outside the modelled components; the form returns its draft instead of calling `onSubmit`, and add, toggle, update and delete are not modelled.
- TodoList.SortTasks: stability for tasks the comparator ties (same completion, priority and creation time) is not stated; the model only promises a sorted permutation.
- React rendering, CSS classes, emoji, labels and headings, the duplicated mobile markup of the weekday navigation, `e.preventDefault()` and `onCancel` are presentation and are not modelled; the model keeps only which badges, bars, buttons and sections are shown and with which numbers.
- The `gradient` and `textColor` fields of a weekday entry are style strings and are not modelled; its `label` field is called `fullLabel` because `label` is a Dafny keyword.
