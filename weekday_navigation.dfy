/** The weekday navigation bar: which days are shown, the per-day
    `{total, completed}` badge and progress bar, and the week overview. */
module WeekdayNavigation {
  import opened Wrappers
  import opened Types
  import Seqs
  import DateUtils
  import opened TaskFilters

  /** The days the bar shows: the entries flagged as weekend in weekend mode,
      the whole table otherwise. */
  function VisibleWeekdays(isWeekendMode: bool): (r: seq<WeekdayInfo>)
    ensures isWeekendMode ==> |r| == 2 && r[0].key == Saturday && r[1].key == Sunday
    ensures isWeekendMode ==> r == DateUtils.Weekdays[5..]
    ensures !isWeekendMode ==> r == DateUtils.Weekdays
    ensures forall i :: 0 <= i < |r| ==> isWeekendMode ==> r[i].isWeekend
  {
    if isWeekendMode then
      DateUtils.WeekdaysSplitByFlag(true);
      Seqs.Filter(DateUtils.Weekdays, DateUtils.FlagIs(true))
    else
      DateUtils.Weekdays
  }

  /** `getTaskCounts(weekday)`: the tasks on `weekday` and how many of them
      are completed. */
  function GetTaskCounts(tasks: seq<Task>, weekday: Weekday): (r: TaskCount)
    ensures r.total == |Seqs.Filter(tasks, OnDay(weekday))|
    ensures r.completed == |Seqs.Filter(tasks, CompletedOn(weekday))|
    ensures r.completed <= r.total
    ensures r.total == 0 <==> forall i :: 0 <= i < |tasks| ==> tasks[i].weekday != weekday
  {
    var dayTasks := Seqs.Filter(tasks, OnDay(weekday));
    Seqs.FilterEmptyIff(tasks, OnDay(weekday));
    Seqs.FilterCompose(tasks, OnDay(weekday), IsCompleted(), CompletedOn(weekday));
    CountOf(dayTasks)
  }

  /** The tasks counted for a day are exactly the input's tasks on that day,
      and the completed ones exactly its completed tasks on that day, each as
      often as it occurs. */
  lemma DayTasksExactly(tasks: seq<Task>, weekday: Weekday)
    ensures forall t :: multiset(Seqs.Filter(tasks, OnDay(weekday)))[t] ==
                          (if t.weekday == weekday then multiset(tasks)[t] else 0)
    ensures forall t :: multiset(Seqs.Filter(tasks, CompletedOn(weekday)))[t] ==
                          (if t.weekday == weekday && t.completed then multiset(tasks)[t] else 0)
  {
    Seqs.FilterMultiset(tasks, OnDay(weekday));
    Seqs.FilterMultiset(tasks, CompletedOn(weekday));
  }

  /** Adding a task to the list adds one to the total of its own day, and one
      to that day's completed count when it is done; no other day changes.
      With the empty list at 0/0 this fixes every count. */
  lemma AddTaskDayCounts(tasks: seq<Task>, t: Task, weekday: Weekday)
    ensures GetTaskCounts(tasks + [t], weekday).total ==
      GetTaskCounts(tasks, weekday).total + (if t.weekday == weekday then 1 else 0)
    ensures GetTaskCounts(tasks + [t], weekday).completed ==
      GetTaskCounts(tasks, weekday).completed + (if t.weekday == weekday && t.completed then 1 else 0)
  {
    Seqs.FilterSnoc(tasks, t, OnDay(weekday));
    Seqs.FilterSnoc(tasks, t, CompletedOn(weekday));
  }

  /** A day's completion rate in percent, rounded to the nearest integer,
      and 0 for a day without tasks. */
  function CompletionRate(counts: TaskCount): (r: nat)
    ensures counts.total == 0 ==> r == 0
    ensures counts.completed <= counts.total ==> r <= 100
    ensures 0 < counts.total == counts.completed ==> r == 100
    ensures counts.total > 0 ==>
      2 * counts.total * r <= 200 * counts.completed + counts.total < 2 * counts.total * (r + 1)
  {
    if counts.total > 0 then RoundPercent(counts.completed, counts.total) else 0
  }

  /** The progress bar colour: white on the selected day, green when every
      task of the day is done, purple otherwise. */
  datatype BarColour = White | Green | Purple

  /** One day button: the badge and the bar appear only when the day has
      tasks. `isCurrent` marks the day the host clock reports. */
  datatype DayButton = DayButton(
    key: Weekday,
    isSelected: bool,
    isCurrent: bool,
    badge: Option<TaskCount>,
    bar: Option<(nat, BarColour)>)

  function RenderDay(tasks: seq<Task>, day: WeekdayInfo, selected: Weekday, current: Weekday): (b: DayButton)
    ensures b.key == day.key && (b.isSelected <==> selected == day.key) && (b.isCurrent <==> current == day.key)
    ensures b.badge.Some? <==> exists i :: 0 <= i < |tasks| && tasks[i].weekday == day.key
    ensures b.badge.Some? <==> b.bar.Some?
    ensures b.badge.Some? ==> b.badge.value.completed <= b.badge.value.total && b.bar.value.0 <= 100
    ensures b.bar.Some? && b.bar.value.1 == Green ==> b.bar.value.0 == 100
    ensures b.badge.Some? ==> b.badge.value == GetTaskCounts(tasks, day.key)
    ensures b.badge.Some? ==> b.bar.value.0 == CompletionRate(b.badge.value)
    ensures b.bar.Some? ==> (b.bar.value.1 == White <==> b.isSelected)
    ensures b.bar.Some? ==>
      (b.bar.value.1 == Green <==> !b.isSelected && b.badge.value.completed == b.badge.value.total)
  {
    var counts := GetTaskCounts(tasks, day.key);
    var rate := CompletionRate(counts);
    var colour := if selected == day.key then White
                  else if counts.completed == counts.total then Green
                  else Purple;
    if counts.total > 0 then
      DayButton(day.key, selected == day.key, current == day.key, Some(counts), Some((rate, colour)))
    else
      DayButton(day.key, selected == day.key, current == day.key, None, None)
  }

  /** The buttons of the navigation bar, one per visible day, in order. */
  function RenderDays(tasks: seq<Task>, selected: Weekday, current: Weekday, isWeekendMode: bool): (r: seq<DayButton>)
    ensures |r| == |VisibleWeekdays(isWeekendMode)|
    ensures forall i :: 0 <= i < |r| ==> r[i] == RenderDay(tasks, VisibleWeekdays(isWeekendMode)[i], selected, current)
    ensures isWeekendMode ==> |r| == 2 && r[0].key == Saturday && r[1].key == Sunday
    ensures !isWeekendMode ==> |r| == 7 && forall i :: 0 <= i < 7 ==> r[i].key == DateUtils.FromOrdinal(i)
  {
    var days := VisibleWeekdays(isWeekendMode);
    DateUtils.WeekdaysTable();
    seq(|days|, i requires 0 <= i < |days| => RenderDay(tasks, days[i], selected, current))
  }

  /** Selects the tasks the week overview counts: those whose stored weekend
      flag is set in weekend mode, every task otherwise. */
  function InScope(isWeekendMode: bool): Task -> bool
  {
    (t: Task) => if isWeekendMode then t.isWeekend else true
  }

  /** Selects the completed tasks among those the week overview counts. */
  function DoneInScope(isWeekendMode: bool): Task -> bool
  {
    (t: Task) => (if isWeekendMode then t.isWeekend else true) && t.completed
  }

  /** The week overview `completed/total`, counted over the tasks whose
      stored weekend flag is set in weekend mode, over all tasks otherwise. */
  function WeekOverview(tasks: seq<Task>, isWeekendMode: bool): (r: TaskCount)
    ensures r.total == |Seqs.Filter(tasks, InScope(isWeekendMode))|
    ensures r.completed == |Seqs.Filter(tasks, DoneInScope(isWeekendMode))|
    ensures r.completed <= r.total <= |tasks|
    ensures !isWeekendMode ==> r == CountOf(tasks)
    ensures isWeekendMode ==>
      (r.total == 0 <==> forall i :: 0 <= i < |tasks| ==> !tasks[i].isWeekend)
  {
    var scoped := Seqs.Filter(tasks, InScope(isWeekendMode));
    Seqs.FilterCompose(tasks, InScope(isWeekendMode), IsCompleted(), DoneInScope(isWeekendMode));
    if !isWeekendMode then
      Seqs.FilterAll(tasks, InScope(false));
      CountOf(scoped)
    else
      Seqs.FilterEmptyIff(tasks, InScope(true));
      CountOf(scoped)
  }

  /** Adding a task adds one to the overview total when the overview counts
      it, and one to the completed count when it is also done. */
  lemma AddTaskWeekOverview(tasks: seq<Task>, t: Task, isWeekendMode: bool)
    ensures WeekOverview(tasks + [t], isWeekendMode).total ==
      WeekOverview(tasks, isWeekendMode).total + (if !isWeekendMode || t.isWeekend then 1 else 0)
    ensures WeekOverview(tasks + [t], isWeekendMode).completed ==
      WeekOverview(tasks, isWeekendMode).completed + (if (!isWeekendMode || t.isWeekend) && t.completed then 1 else 0)
  {
    Seqs.FilterSnoc(tasks, t, InScope(isWeekendMode));
    Seqs.FilterSnoc(tasks, t, DoneInScope(isWeekendMode));
  }

  /** Every task sits on exactly one day, so the seven day totals add up to
      the number of tasks. */
  lemma {:induction false} DayTotalsSum(tasks: seq<Task>)
    ensures GetTaskCounts(tasks, Monday).total + GetTaskCounts(tasks, Tuesday).total
          + GetTaskCounts(tasks, Wednesday).total + GetTaskCounts(tasks, Thursday).total
          + GetTaskCounts(tasks, Friday).total + GetTaskCounts(tasks, Saturday).total
          + GetTaskCounts(tasks, Sunday).total == |tasks|
  {
    DayFiltersSum(tasks);
  }

  lemma {:induction false} DayFiltersSum(tasks: seq<Task>)
    ensures |Seqs.Filter(tasks, OnDay(Monday))| + |Seqs.Filter(tasks, OnDay(Tuesday))|
          + |Seqs.Filter(tasks, OnDay(Wednesday))| + |Seqs.Filter(tasks, OnDay(Thursday))|
          + |Seqs.Filter(tasks, OnDay(Friday))| + |Seqs.Filter(tasks, OnDay(Saturday))|
          + |Seqs.Filter(tasks, OnDay(Sunday))| == |tasks|
  {
    if tasks != [] {
      DayFiltersSum(tasks[1..]);
    }
  }

  /** When every task's stored weekend flag agrees with its weekday, the
      weekend overview is the Saturday count plus the Sunday count. */
  lemma WeekendOverviewIsSaturdayPlusSunday(tasks: seq<Task>)
    requires forall i :: 0 <= i < |tasks| ==> tasks[i].isWeekend == DateUtils.IsWeekend(tasks[i].weekday)
    ensures WeekOverview(tasks, true).total ==
      GetTaskCounts(tasks, Saturday).total + GetTaskCounts(tasks, Sunday).total
    ensures WeekOverview(tasks, true).completed ==
      GetTaskCounts(tasks, Saturday).completed + GetTaskCounts(tasks, Sunday).completed
  {
    var weekend := (t: Task) => t.weekday == Saturday || t.weekday == Sunday;
    var weekendDone := (t: Task) => (t.weekday == Saturday || t.weekday == Sunday) && t.completed;
    Seqs.FilterSameOn(tasks, InScope(true), weekend);
    Seqs.FilterDisjointUnion(tasks, OnDay(Saturday), OnDay(Sunday), weekend);
    Seqs.FilterCompose(tasks, weekend, IsCompleted(), weekendDone);
    Seqs.FilterDisjointUnion(tasks, CompletedOn(Saturday), CompletedOn(Sunday), weekendDone);
  }

  /** With no tasks every day shows no badge and the overview is 0/0. */
  lemma EmptyWeek(selected: Weekday, current: Weekday, isWeekendMode: bool, w: Weekday)
    ensures GetTaskCounts([], w) == TaskCount(0, 0)
    ensures CompletionRate(GetTaskCounts([], w)) == 0
    ensures WeekOverview([], isWeekendMode) == TaskCount(0, 0)
    ensures forall b :: b in RenderDays([], selected, current, isWeekendMode) ==> b.badge.None?
  {
  }
}
