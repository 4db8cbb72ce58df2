/** Task predicates, `{total, completed}` counting and the rounded percentage
    shared by the task list, the weekday navigation and the category filter. */
module TaskFilters {
  import opened Types
  import Seqs

  /** Selects the completed tasks. */
  function IsCompleted(): Task -> bool
  {
    (t: Task) => t.completed
  }

  /** Selects the tasks not yet completed. */
  function IsIncomplete(): Task -> bool
  {
    (t: Task) => !t.completed
  }

  /** Selects the tasks planned for day `w`. */
  function OnDay(w: Weekday): Task -> bool
  {
    (t: Task) => t.weekday == w
  }

  /** Selects the completed tasks planned for day `w`. */
  function CompletedOn(w: Weekday): Task -> bool
  {
    (t: Task) => t.weekday == w && t.completed
  }

  /** Selects the tasks of category `c` planned for day `w`. */
  function OnDayInCategory(w: Weekday, c: TaskCategory): Task -> bool
  {
    (t: Task) => t.category == c && t.weekday == w
  }

  /** Selects the completed tasks of category `c` planned for day `w`. */
  function CompletedOnDayInCategory(w: Weekday, c: TaskCategory): Task -> bool
  {
    (t: Task) => t.category == c && t.weekday == w && t.completed
  }

  /** Holds for every task. */
  function AnyTask(): Task -> bool
  {
    (t: Task) => true
  }

  /** The completed tasks of `s`, in their order. */
  function CompletedTasks(s: seq<Task>): seq<Task>
  {
    Seqs.Filter(s, IsCompleted())
  }

  /** The tasks of `s` not yet completed, in their order. */
  function IncompleteTasks(s: seq<Task>): seq<Task>
  {
    Seqs.Filter(s, IsIncomplete())
  }

  /** The two sections hold exactly what they should: each completed task as
      often as it occurs in `s` in the first, each incomplete one in the
      second, and nothing else. */
  lemma SectionsExactly(s: seq<Task>)
    ensures forall t: Task :: multiset(CompletedTasks(s))[t] == if t.completed then multiset(s)[t] else 0
    ensures forall t: Task :: multiset(IncompleteTasks(s))[t] == if t.completed then 0 else multiset(s)[t]
  {
    Seqs.FilterMultiset(s, IsCompleted());
    Seqs.FilterMultiset(s, IsIncomplete());
  }

  /** The `{ total, completed }` record the components compute. */
  datatype TaskCount = TaskCount(total: nat, completed: nat)

  /** The record counting the tasks of `s` and the completed ones among them. */
  function CountOf(s: seq<Task>): (r: TaskCount)
    ensures r.completed <= r.total == |s|
    ensures r.total - r.completed == |IncompleteTasks(s)|
    ensures r.completed == 0 <==> forall i :: 0 <= i < |s| ==> !s[i].completed
    ensures r.completed == r.total <==> forall i :: 0 <= i < |s| ==> s[i].completed
  {
    CompletedSplit(s);
    Seqs.FilterEmptyIff(s, IsCompleted());
    Seqs.FilterEmptyIff(s, IsIncomplete());
    TaskCount(|s|, |CompletedTasks(s)|)
  }

  /** Every task is either completed or not, so the two filters split the
      list by length. */
  lemma CompletedSplit(s: seq<Task>)
    ensures |CompletedTasks(s)| + |IncompleteTasks(s)| == |s|
  {
    Seqs.FilterDisjointUnion(s, IsCompleted(), IsIncomplete(), AnyTask());
    Seqs.FilterAll(s, AnyTask());
  }

  /** `Math.round(part / whole * 100)` on non-negative integers: the
      nearest integer to `100 * part / whole`, halves rounded up. */
  function RoundPercent(part: nat, whole: nat): (r: nat)
    requires whole > 0
    ensures 2 * whole * r <= 200 * part + whole < 2 * whole * r + 2 * whole
    ensures part <= whole ==> r <= 100
    ensures part == whole ==> r == 100
    ensures part == 0 ==> r == 0
  {
    var n, d := 200 * part + whole, 2 * whole;
    var r := n / d;
    assert d * r <= n < d * r + d;
    PercentBound(part, whole, r);
    r
  }

  /** The rounding bracket pins the result between 0 and 100. */
  lemma PercentBound(part: nat, whole: nat, r: nat)
    requires whole > 0
    requires 2 * whole * r <= 200 * part + whole < 2 * whole * r + 2 * whole
    ensures part <= whole ==> r <= 100
    ensures part == whole ==> r == 100
    ensures part == 0 ==> r == 0
  {
    if part <= whole {
      MulCancel(2 * whole, r, 101);
    }
    if part == whole {
      MulCancel(2 * whole, 99, r);
    }
    if part == 0 {
      MulCancel(2 * whole, r, 1);
    }
  }

  lemma MulCancel(k: nat, x: nat, y: nat)
    requires k * x < k * y
    ensures x < y
  {
    if x >= y {
      MulMonotone(k, y, x);
    }
  }

  lemma MulMonotone(k: nat, x: nat, y: nat)
    requires x <= y
    ensures k * x <= k * y
  {
    assert k * y == k * x + k * (y - x);
  }
}
