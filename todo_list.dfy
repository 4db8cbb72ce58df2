/** The ordering and sectioning of one day's task list: a sorted copy of the
    tasks, split into the incomplete and the completed section, with the
    completion percentage of the progress summary. */
module TodoList {
  import opened Types
  import Seqs
  import opened TaskFilters

  /** The rank of a priority in the sort: high first, medium next, low last. */
  function PriorityOrder(p: TaskPriority): (n: nat)
    ensures n < 3
    ensures p == High <==> n == 0
    ensures p == Low <==> n == 2
  {
    match p
    case High => 0
    case Medium => 1
    case Low => 2
  }

  /** The comparator handed to `sort`: a negative result puts `a` first.
      Incomplete tasks go before completed ones, then higher priority before
      lower, then newer before older; it ties only tasks equal on all three. */
  function Compare(a: Task, b: Task): (r: int)
    ensures a.completed != b.completed ==> (r < 0 <==> !a.completed) && r != 0
    ensures a.completed == b.completed && a.priority != b.priority ==>
      (r < 0 <==> PriorityOrder(a.priority) < PriorityOrder(b.priority)) && r != 0
    ensures a.completed == b.completed && a.priority == b.priority ==>
      (r < 0 <==> a.createdAt > b.createdAt) && (r == 0 <==> a.createdAt == b.createdAt)
  {
    if a.completed != b.completed then
      (if a.completed then 1 else -1)
    else if a.priority != b.priority then
      PriorityOrder(a.priority) - PriorityOrder(b.priority)
    else
      b.createdAt - a.createdAt
  }

  /** Reference order, stated as a lexicographic comparison of
      (completed, priority rank, newest first). */
  predicate Precedes(a: Task, b: Task)
  {
    || (!a.completed && b.completed)
    || (a.completed == b.completed && PriorityOrder(a.priority) < PriorityOrder(b.priority))
    || (a.completed == b.completed && a.priority == b.priority && a.createdAt >= b.createdAt)
  }

  /** The comparator is antisymmetric and puts `a` no later than `b` exactly
      when the reference order does. */
  lemma CompareMeansPrecedes(a: Task, b: Task)
    ensures Compare(a, b) == -Compare(b, a)
    ensures Compare(a, b) <= 0 <==> Precedes(a, b)
  {
  }

  /** The comparator is a total preorder, which is what `sort` needs. */
  lemma CompareTotalPreorder(a: Task, b: Task, c: Task)
    ensures Compare(a, b) <= 0 || Compare(b, a) <= 0
    ensures Compare(a, b) <= 0 && Compare(b, c) <= 0 ==> Compare(a, c) <= 0
  {
    CompareMeansPrecedes(a, b);
    CompareMeansPrecedes(b, c);
    CompareMeansPrecedes(a, c);
  }

  /** No later pair of tasks is out of order under the comparator. */
  predicate Sorted(s: seq<Task>)
  {
    forall i, j :: 0 <= i < j < |s| ==> Compare(s[i], s[j]) <= 0
  }

  /** Puts `x` in front of the first task it may precede. */
  function Insert(x: Task, s: seq<Task>): (r: seq<Task>)
    ensures multiset(r) == multiset(s) + multiset{x}
    ensures |r| == |s| + 1
  {
    if s == [] then [x]
    else if Compare(x, s[0]) <= 0 then [x] + s
    else
      assert s == [s[0]] + s[1..];
      [s[0]] + Insert(x, s[1..])
  }

  /** A task that may precede `x` and every task of `s` may precede every
      task of `Insert(x, s)`. */
  lemma {:induction false} InsertLowerBound(y: Task, x: Task, s: seq<Task>)
    requires Compare(y, x) <= 0
    requires forall j :: 0 <= j < |s| ==> Compare(y, s[j]) <= 0
    ensures forall k :: 0 <= k < |Insert(x, s)| ==> Compare(y, Insert(x, s)[k]) <= 0
  {
    if s != [] && Compare(x, s[0]) > 0 {
      InsertLowerBound(y, x, s[1..]);
    }
  }

  lemma {:induction false} InsertSorted(x: Task, s: seq<Task>)
    requires Sorted(s)
    ensures Sorted(Insert(x, s))
  {
    if s != [] && Compare(x, s[0]) > 0 {
      var t := s[1..];
      assert Sorted(t);
      InsertSorted(x, t);
      CompareMeansPrecedes(x, s[0]);
      InsertLowerBound(s[0], x, t);
    } else if s != [] {
      forall j | 0 <= j < |s|
        ensures Compare(x, s[j]) <= 0
      {
        CompareTotalPreorder(x, s[0], s[j]);
      }
    }
  }

  /** The sorted copy `[...tasks].sort(compare)`: a sorted permutation of
      the input, built by insertion so that tied tasks keep their order. */
  function SortTasks(tasks: seq<Task>): (r: seq<Task>)
    ensures Sorted(r)
    ensures multiset(r) == multiset(tasks)
    ensures |r| == |tasks|
  {
    if tasks == [] then []
    else
      assert tasks == [tasks[0]] + tasks[1..];
      InsertSorted(tasks[0], SortTasks(tasks[1..]));
      Insert(tasks[0], SortTasks(tasks[1..]))
  }

  /** The three levels of the order hold between every earlier and later
      task of the sorted copy. */
  lemma SortTasksOrder(tasks: seq<Task>, i: int, j: int)
    requires 0 <= i < j < |tasks|
    ensures var r := SortTasks(tasks);
      && (r[i].completed ==> r[j].completed)
      && (r[i].completed == r[j].completed ==>
            PriorityOrder(r[i].priority) <= PriorityOrder(r[j].priority))
      && (r[i].completed == r[j].completed && r[i].priority == r[j].priority ==>
            r[i].createdAt >= r[j].createdAt)
  {
    var r := SortTasks(tasks);
    CompareMeansPrecedes(r[i], r[j]);
  }

  /** Sorting a list that is already in order returns it unchanged. */
  lemma {:induction false} SortIdempotent(tasks: seq<Task>)
    requires Sorted(tasks)
    ensures SortTasks(tasks) == tasks
  {
    if tasks != [] {
      var t := tasks[1..];
      assert Sorted(t);
      SortIdempotent(t);
      if t != [] {
        assert Compare(tasks[0], t[0]) <= 0;
      }
      assert [tasks[0]] + t == tasks;
    }
  }

  /** Sorting twice is sorting once. */
  lemma SortTwice(tasks: seq<Task>)
    ensures SortTasks(SortTasks(tasks)) == SortTasks(tasks)
  {
    SortIdempotent(SortTasks(tasks));
  }

  /** In a sorted list the incomplete section followed by the completed
      section is the list itself. */
  lemma {:induction false} PartitionOfSorted(s: seq<Task>)
    requires Sorted(s)
    ensures IncompleteTasks(s) + CompletedTasks(s) == s
  {
    if s != [] {
      if !s[0].completed {
        var t := s[1..];
        assert Sorted(t);
        PartitionOfSorted(t);
        assert IncompleteTasks(s) == [s[0]] + IncompleteTasks(t);
        assert CompletedTasks(s) == CompletedTasks(t);
        assert [s[0]] + t == s;
      } else {
        forall j | 0 <= j < |s|
          ensures s[j].completed
        {
          if j > 0 {
            assert Compare(s[0], s[j]) <= 0;
          }
        }
        Seqs.FilterNone(s, IsIncomplete());
        Seqs.FilterAll(s, IsCompleted());
      }
    }
  }

  /** The sections hold the same tasks as the input: the completed section
      has as many tasks as the input has completed tasks. */
  lemma SectionsCount(tasks: seq<Task>)
    ensures |CompletedTasks(SortTasks(tasks))| == |CompletedTasks(tasks)|
    ensures |IncompleteTasks(SortTasks(tasks))| + |CompletedTasks(SortTasks(tasks))| == |tasks|
    ensures forall t :: t in IncompleteTasks(SortTasks(tasks)) ==> !t.completed
    ensures forall t :: t in CompletedTasks(SortTasks(tasks)) ==> t.completed
  {
    var r := SortTasks(tasks);
    Seqs.FilterPermutation(r, tasks, IsCompleted());
    PartitionOfSorted(r);
  }

  /** The facts about the sections of the sorted copy that the rendering of
      a list rests on. */
  lemma SectionsOfTasks(tasks: seq<Task>)
    ensures IncompleteTasks(SortTasks(tasks)) + CompletedTasks(SortTasks(tasks)) == SortTasks(tasks)
    ensures |IncompleteTasks(SortTasks(tasks))| + |CompletedTasks(SortTasks(tasks))| == |tasks|
    ensures |CompletedTasks(SortTasks(tasks))| == |CompletedTasks(tasks)|
    ensures forall t :: t in IncompleteTasks(SortTasks(tasks)) ==> !t.completed
    ensures forall t :: t in CompletedTasks(SortTasks(tasks)) ==> t.completed
    ensures (forall i :: 0 <= i < |tasks| ==> tasks[i].completed) ==> |CompletedTasks(SortTasks(tasks))| == |tasks|
    ensures (forall i :: 0 <= i < |tasks| ==> !tasks[i].completed) ==> |CompletedTasks(SortTasks(tasks))| == 0
  {
    PartitionOfSorted(SortTasks(tasks));
    SectionsCount(tasks);
    var c := CountOf(tasks);
    assert c.completed == |CompletedTasks(tasks)|;
    var inc, done := IncompleteTasks(SortTasks(tasks)), CompletedTasks(SortTasks(tasks));
    assert forall i :: 0 <= i < |inc| ==> IsIncomplete()(inc[i]);
    assert forall i :: 0 <= i < |done| ==> IsCompleted()(done[i]);
  }

  /** What the list shows: the empty state, with the weekend greeting on
      Saturday and Sunday, or the two sections and the percentage. */
  datatype TodoListView =
    | EmptyState(weekendGreeting: bool)
    | Sections(active: seq<Task>, done: seq<Task>, percent: nat)

  function RenderTodoList(tasks: seq<Task>, selectedWeekday: Weekday): (v: TodoListView)
    ensures v.EmptyState? <==> |tasks| == 0
    ensures v.EmptyState? ==>
      (v.weekendGreeting <==> selectedWeekday == Saturday || selectedWeekday == Sunday)
    ensures v.Sections? ==> v.active + v.done == SortTasks(tasks)
    ensures v.Sections? ==> |v.active| + |v.done| == |tasks|
    ensures v.Sections? ==>
      && (forall t :: t in v.active ==> !t.completed)
      && (forall t :: t in v.done ==> t.completed)
    ensures v.Sections? ==> |v.done| == |CompletedTasks(tasks)|
    ensures v.Sections? ==> |tasks| > 0 && v.percent == RoundPercent(|CompletedTasks(tasks)|, |tasks|)
    ensures v.Sections? ==> v.percent <= 100
    ensures v.Sections? && (forall i :: 0 <= i < |tasks| ==> tasks[i].completed) ==> v.percent == 100
    ensures v.Sections? && (forall i :: 0 <= i < |tasks| ==> !tasks[i].completed) ==> v.percent == 0
  {
    var sortedTasks := SortTasks(tasks);
    var incompleteTasks := IncompleteTasks(sortedTasks);
    var completedTasks := CompletedTasks(sortedTasks);
    if |tasks| == 0 then
      EmptyState(selectedWeekday == Saturday || selectedWeekday == Sunday)
    else
      SectionsOfTasks(tasks);
      Sections(incompleteTasks, completedTasks, RoundPercent(|completedTasks|, |tasks|))
  }

  /** Two incomplete tasks, high before low, go ahead of a completed
      high-priority one, whatever the creation times. */
  lemma ThreeTaskScenario(a: Task, b: Task, c: Task)
    requires !a.completed && a.priority == High
    requires !b.completed && b.priority == Low
    requires c.completed && c.priority == High
    ensures SortTasks([a, b, c]) == [a, b, c]
  {
    assert Sorted([a, b, c]);
    SortIdempotent([a, b, c]);
  }
}
