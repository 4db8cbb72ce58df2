/** The category filter panel: per-category counts for the selected day, the
    "All Tasks" count, which category buttons are disabled, and the day
    overview with its remaining count and percentage. */
module CategoryFilter {
  import opened Wrappers
  import opened Types
  import Seqs
  import opened TaskFilters
  import WeekdayNavigation

  /** `getCategoryTaskCount(category)`: the tasks of `category` on the
      selected day and how many of them are completed. */
  function GetCategoryTaskCount(tasks: seq<Task>, selectedWeekday: Weekday, category: TaskCategory): (r: TaskCount)
    ensures r.total == |Seqs.Filter(tasks, OnDayInCategory(selectedWeekday, category))|
    ensures r.completed == |Seqs.Filter(tasks, CompletedOnDayInCategory(selectedWeekday, category))|
    ensures r.completed <= r.total
    ensures r.total == 0 <==>
      forall i :: 0 <= i < |tasks| ==> !(tasks[i].category == category && tasks[i].weekday == selectedWeekday)
  {
    var categoryTasks := Seqs.Filter(tasks, OnDayInCategory(selectedWeekday, category));
    Seqs.FilterEmptyIff(tasks, OnDayInCategory(selectedWeekday, category));
    Seqs.FilterCompose(tasks, OnDayInCategory(selectedWeekday, category), IsCompleted(),
                       CompletedOnDayInCategory(selectedWeekday, category));
    CountOf(categoryTasks)
  }

  /** `getAllTaskCount()`: the tasks on the selected day and how many of them
      are completed. */
  function GetAllTaskCount(tasks: seq<Task>, selectedWeekday: Weekday): (r: TaskCount)
    ensures r.total == |Seqs.Filter(tasks, OnDay(selectedWeekday))|
    ensures r.completed == |Seqs.Filter(tasks, CompletedOn(selectedWeekday))|
    ensures r.completed <= r.total <= |tasks|
    ensures r.total == 0 <==> forall i :: 0 <= i < |tasks| ==> tasks[i].weekday != selectedWeekday
  {
    var weekdayTasks := Seqs.Filter(tasks, OnDay(selectedWeekday));
    Seqs.FilterEmptyIff(tasks, OnDay(selectedWeekday));
    Seqs.FilterCompose(tasks, OnDay(selectedWeekday), IsCompleted(), CompletedOn(selectedWeekday));
    CountOf(weekdayTasks)
  }

  /** The tasks a category counts are exactly the input's tasks of that
      category on the selected day, each as often as it occurs. */
  lemma CategoryTasksExactly(tasks: seq<Task>, selectedWeekday: Weekday, category: TaskCategory)
    ensures forall t :: multiset(Seqs.Filter(tasks, OnDayInCategory(selectedWeekday, category)))[t] ==
                          (if t.category == category && t.weekday == selectedWeekday then multiset(tasks)[t] else 0)
  {
    Seqs.FilterMultiset(tasks, OnDayInCategory(selectedWeekday, category));
  }

  /** The completed tasks a category counts are exactly the input's completed
      tasks of that category on the selected day, each as often as it occurs. */
  lemma CategoryDoneExactly(tasks: seq<Task>, selectedWeekday: Weekday, category: TaskCategory)
    ensures forall t :: multiset(Seqs.Filter(tasks, CompletedOnDayInCategory(selectedWeekday, category)))[t] ==
                          (if t.category == category && t.weekday == selectedWeekday && t.completed
                           then multiset(tasks)[t] else 0)
  {
    Seqs.FilterMultiset(tasks, CompletedOnDayInCategory(selectedWeekday, category));
  }

  /** Adding a task adds one to the count of its own category on its own day,
      and one to that completed count when it is done; no other count changes. */
  lemma AddTaskCategoryCounts(tasks: seq<Task>, t: Task, selectedWeekday: Weekday, category: TaskCategory)
    ensures GetCategoryTaskCount(tasks + [t], selectedWeekday, category).total ==
      GetCategoryTaskCount(tasks, selectedWeekday, category).total
      + (if t.category == category && t.weekday == selectedWeekday then 1 else 0)
    ensures GetCategoryTaskCount(tasks + [t], selectedWeekday, category).completed ==
      GetCategoryTaskCount(tasks, selectedWeekday, category).completed
      + (if t.category == category && t.weekday == selectedWeekday && t.completed then 1 else 0)
  {
    Seqs.FilterSnoc(tasks, t, OnDayInCategory(selectedWeekday, category));
    Seqs.FilterSnoc(tasks, t, CompletedOnDayInCategory(selectedWeekday, category));
  }

  /** The "All Tasks" count of the selected day is the count the weekday
      navigation shows for that day. */
  lemma AllCountIsDayCount(tasks: seq<Task>, selectedWeekday: Weekday)
    ensures GetAllTaskCount(tasks, selectedWeekday) == WeekdayNavigation.GetTaskCounts(tasks, selectedWeekday)
  {
    var a, b := GetAllTaskCount(tasks, selectedWeekday), WeekdayNavigation.GetTaskCounts(tasks, selectedWeekday);
    assert a.total == b.total && a.completed == b.completed;
  }

  /** A category never counts more tasks, or more completed tasks, than the
      whole day. */
  lemma CategoryWithinDay(tasks: seq<Task>, selectedWeekday: Weekday, category: TaskCategory)
    ensures GetCategoryTaskCount(tasks, selectedWeekday, category).total
         <= GetAllTaskCount(tasks, selectedWeekday).total
    ensures GetCategoryTaskCount(tasks, selectedWeekday, category).completed
         <= GetAllTaskCount(tasks, selectedWeekday).completed
  {
    var p, q := OnDayInCategory(selectedWeekday, category), OnDay(selectedWeekday);
    Seqs.FilterMonotone(tasks, p, q);
    Seqs.FilterThenMonotone(tasks, p, q, IsCompleted());
  }

  /** The category counts of a day add up to the day's count, since every
      task has exactly one category. */
  lemma {:induction false} CategoriesCoverDay(tasks: seq<Task>, w: Weekday)
    ensures GetCategoryTaskCount(tasks, w, Personal).total + GetCategoryTaskCount(tasks, w, Work).total
          + GetCategoryTaskCount(tasks, w, Health).total + GetCategoryTaskCount(tasks, w, Shopping).total
          + GetCategoryTaskCount(tasks, w, Family).total + GetCategoryTaskCount(tasks, w, Hobbies).total
          + GetCategoryTaskCount(tasks, w, WeekendFun).total == GetAllTaskCount(tasks, w).total
  {
    CategoryFiltersSum(tasks, w);
  }

  lemma {:induction false} CategoryFiltersSum(tasks: seq<Task>, w: Weekday)
    ensures |Seqs.Filter(tasks, OnDayInCategory(w, Personal))| + |Seqs.Filter(tasks, OnDayInCategory(w, Work))|
          + |Seqs.Filter(tasks, OnDayInCategory(w, Health))| + |Seqs.Filter(tasks, OnDayInCategory(w, Shopping))|
          + |Seqs.Filter(tasks, OnDayInCategory(w, Family))| + |Seqs.Filter(tasks, OnDayInCategory(w, Hobbies))|
          + |Seqs.Filter(tasks, OnDayInCategory(w, WeekendFun))| == |Seqs.Filter(tasks, OnDay(w))|
  {
    if tasks != [] {
      CategoryFiltersSum(tasks[1..], w);
    }
  }

  /** One suggested category's button: disabled when the category has no
      task on the selected day, the badge shown only when it has some. */
  datatype CategoryButton = CategoryButton(
    key: TaskCategory,
    isSelected: bool,
    disabled: bool,
    badge: Option<TaskCount>)

  function RenderCategory(tasks: seq<Task>, selectedWeekday: Weekday, selectedCategory: Option<TaskCategory>,
                          category: TaskCategory): (b: CategoryButton)
    ensures b.key == category
    ensures b.isSelected <==> selectedCategory == Some(category)
    ensures b.disabled <==>
      forall i :: 0 <= i < |tasks| ==> !(tasks[i].category == category && tasks[i].weekday == selectedWeekday)
    ensures b.badge.Some? <==> !b.disabled
    ensures b.badge.Some? ==> b.badge.value == GetCategoryTaskCount(tasks, selectedWeekday, category)
    ensures b.badge.Some? ==> b.badge.value.completed <= b.badge.value.total
  {
    var taskCount := GetCategoryTaskCount(tasks, selectedWeekday, category);
    var hasNoTasks := taskCount.total == 0;
    CategoryButton(category, selectedCategory == Some(category), hasNoTasks,
                   if taskCount.total > 0 then Some(taskCount) else None)
  }

  /** The buttons for the suggested categories, which come from outside this
      component, one per suggestion and in the same order. */
  function RenderCategories(tasks: seq<Task>, selectedWeekday: Weekday, selectedCategory: Option<TaskCategory>,
                            suggested: seq<TaskCategory>): (r: seq<CategoryButton>)
    ensures |r| == |suggested|
    ensures forall i :: 0 <= i < |r| ==> r[i] == RenderCategory(tasks, selectedWeekday, selectedCategory, suggested[i])
  {
    seq(|suggested|, i requires 0 <= i < |suggested| =>
      RenderCategory(tasks, selectedWeekday, selectedCategory, suggested[i]))
  }

  /** The day overview below the buttons. */
  datatype Overview = Overview(completed: nat, remaining: int, percent: nat)

  /** Shown only when the selected day has tasks; `remaining` is
      `total - completed` and `percent` the rounded completion rate. */
  function RenderOverview(tasks: seq<Task>, selectedWeekday: Weekday): (r: Option<Overview>)
    ensures r.None? <==> forall i :: 0 <= i < |tasks| ==> tasks[i].weekday != selectedWeekday
    ensures r.Some? ==> r.value.completed == GetAllTaskCount(tasks, selectedWeekday).completed
    ensures r.Some? ==> r.value.remaining >= 0
    ensures r.Some? ==>
      r.value.remaining == |IncompleteTasks(Seqs.Filter(tasks, OnDay(selectedWeekday)))|
    ensures r.Some? ==> r.value.completed + r.value.remaining == GetAllTaskCount(tasks, selectedWeekday).total
    ensures r.Some? ==>
      && GetAllTaskCount(tasks, selectedWeekday).total > 0
      && r.value.percent == RoundPercent(r.value.completed, GetAllTaskCount(tasks, selectedWeekday).total)
    ensures r.Some? ==> r.value.percent <= 100
    ensures r.Some? && r.value.remaining == 0 ==> r.value.percent == 100
    ensures r.Some? && r.value.completed == 0 ==> r.value.percent == 0
  {
    var allTaskCount := GetAllTaskCount(tasks, selectedWeekday);
    if allTaskCount.total > 0 then
      Some(Overview(allTaskCount.completed, allTaskCount.total - allTaskCount.completed,
                    RoundPercent(allTaskCount.completed, allTaskCount.total)))
    else
      None
  }
}
