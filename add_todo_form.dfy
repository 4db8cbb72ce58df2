/** The add-task form: six pieces of input state, the submit step that
    validates the title and hands a normalised draft to the caller, the reset
    that follows it, and the quick-task templates. */
module AddTodoForm {
  import opened Wrappers
  import opened Types
  import opened Text

  /** What the form passes to `onSubmit`: a task without `id`, `createdAt`
      and `isWeekend`, which the caller assigns. The due date is kept as the
      text of the date input. */
  datatype TaskDraft = TaskDraft(
    title: string,
    description: Option<string>,
    category: TaskCategory,
    priority: TaskPriority,
    weekday: Weekday,
    completed: bool,
    dueDate: Option<string>)

  /** The draft built from the form's values, or nothing when the title is
      only white space. */
  function BuildDraft(title: string, description: string, category: TaskCategory,
                      priority: TaskPriority, weekday: Weekday, dueDate: string): (r: Option<TaskDraft>)
    ensures r.None? <==> AllWhitespace(title)
    ensures r.Some? ==>
      && r.value.title == Trim(title)
      && r.value.title != []
      && !r.value.completed
    ensures r.Some? ==>
      && (r.value.description.None? <==> AllWhitespace(description))
      && (r.value.description.Some? ==> r.value.description.value == Trim(description) != [])
    ensures r.Some? ==> (r.value.dueDate.None? <==> dueDate == []) && (dueDate != [] ==> r.value.dueDate == Some(dueDate))
    ensures r.Some? ==> r.value.category == category && r.value.priority == priority && r.value.weekday == weekday
  {
    if Trim(title) == [] then None
    else
      var desc := Trim(description);
      Some(TaskDraft(
        Trim(title),
        if desc == [] then None else Some(desc),
        category,
        priority,
        weekday,
        false,
        if dueDate == [] then None else Some(dueDate)))
  }

  /** A quick-task template. */
  datatype QuickTask = QuickTask(title: string, category: TaskCategory)

  /** The four templates offered for the form's weekday: leisure ones on
      Saturday and Sunday, working-day ones otherwise. */
  function GetQuickTasks(weekday: Weekday): (r: seq<QuickTask>)
    ensures |r| == 4
    ensures weekday == Saturday || weekday == Sunday ==>
      r[0].category == WeekendFun && r[1].category == Family && r[2].category == Hobbies && r[3].category == Personal
    ensures !(weekday == Saturday || weekday == Sunday) ==>
      r[0].category == Work && r[1].category == Health && r[2].category == Personal && r[3].category == Shopping
    ensures (exists i :: 0 <= i < 4 && r[i].category == WeekendFun) <==> weekday == Saturday || weekday == Sunday
  {
    var isWeekend := weekday == Saturday || weekday == Sunday;
    if isWeekend then
      [ QuickTask("Plan weekend activities", WeekendFun),
        QuickTask("Spend time with family", Family),
        QuickTask("Work on hobby project", Hobbies),
        QuickTask("Relax and recharge", Personal) ]
    else
      [ QuickTask("Check emails", Work),
        QuickTask("Complete daily workout", Health),
        QuickTask("Plan tomorrow's tasks", Personal),
        QuickTask("Weekly grocery shopping", Shopping) ]
  }

  /** Every template title survives trimming unchanged and is not empty, so
      choosing a template always enables the submit button. */
  lemma QuickTaskTitlesAreTrimmed(weekday: Weekday, i: int)
    requires 0 <= i < 4
    ensures GetQuickTasks(weekday)[i].title != []
    ensures !AllWhitespace(GetQuickTasks(weekday)[i].title)
    ensures Trim(GetQuickTasks(weekday)[i].title) == GetQuickTasks(weekday)[i].title
  {
    var q := GetQuickTasks(weekday);
    if weekday == Saturday || weekday == Sunday {
      WeekendTitlesTrimmed(i);
    } else {
      WorkdayTitlesTrimmed(i);
    }
    assert Trimmed(q[i].title);
    TrimOfTrimmed(q[i].title);
  }

  lemma WeekendTitlesTrimmed(i: int)
    requires 0 <= i < 4
    ensures Trimmed(GetQuickTasks(Saturday)[i].title)
  {
    if i == 0 {
      assert Trimmed("Plan weekend activities");
    } else if i == 1 {
      assert Trimmed("Spend time with family");
    } else if i == 2 {
      assert Trimmed("Work on hobby project");
    } else {
      assert Trimmed("Relax and recharge");
    }
  }

  lemma WorkdayTitlesTrimmed(i: int)
    requires 0 <= i < 4
    ensures Trimmed(GetQuickTasks(Monday)[i].title)
  {
    if i == 0 {
      assert Trimmed("Check emails");
    } else if i == 1 {
      assert Trimmed("Complete daily workout");
    } else if i == 2 {
      assert Trimmed("Plan tomorrow's tasks");
    } else {
      assert Trimmed("Weekly grocery shopping");
    }
  }

  /** The form's state, one field per `useState`. */
  class Form {
    var title: string
    var description: string
    var category: TaskCategory
    var priority: TaskPriority
    var weekday: Weekday
    var dueDate: string

    /** Everything but the weekday has its default value. */
    predicate IsBlank()
      reads this
    {
      title == [] && description == [] && category == Personal && priority == Medium && dueDate == []
    }

    /** The initial state: blank, on the weekday the page has selected. */
    constructor (selectedWeekday: Weekday)
      ensures IsBlank() && weekday == selectedWeekday
    {
      title := [];
      description := [];
      category := Personal;
      priority := Medium;
      weekday := selectedWeekday;
      dueDate := [];
    }

    /** The submit button is enabled when the trimmed title is not empty. */
    function CanSubmit(): (b: bool)
      reads this
      ensures b <==> !AllWhitespace(title)
      ensures b <==> BuildDraft(title, description, category, priority, weekday, dueDate).Some?
    {
      Trim(title) != []
    }

    /** A blank form cannot be submitted: the empty title trims to nothing. */
    lemma BlankCannotSubmit()
      requires IsBlank()
      ensures !CanSubmit()
      ensures BuildDraft(title, description, category, priority, weekday, dueDate).None?
    {
    }

    /** `handleSubmit`: with a blank title nothing is emitted and nothing
        changes; otherwise the draft of the current values is emitted and the
        form is reset, except for the weekday. */
    method HandleSubmit() returns (draft: Option<TaskDraft>)
      modifies this
      ensures draft == BuildDraft(old(title), old(description), old(category), old(priority), old(weekday), old(dueDate))
      ensures draft.Some? <==> old(CanSubmit())
      ensures draft.None? ==>
        && title == old(title) && description == old(description) && category == old(category)
        && priority == old(priority) && weekday == old(weekday) && dueDate == old(dueDate)
      ensures draft.Some? ==> IsBlank() && weekday == old(weekday) && !CanSubmit()
    {
      draft := BuildDraft(title, description, category, priority, weekday, dueDate);
      if draft.None? {
        return;
      }
      Reset();
      BlankCannotSubmit();
    }

    /** The reset after a submit: every field but the weekday back to its
        default. */
    method Reset()
      modifies this
      ensures IsBlank() && weekday == old(weekday)
    {
      title := [];
      description := [];
      category := Personal;
      priority := Medium;
      dueDate := [];
    }

    /** A click on the template at `index`: sets the title and the category
        from it and nothing else, which makes the form submittable. */
    method ChooseQuickTask(index: nat)
      requires index < |GetQuickTasks(weekday)|
      modifies this
      ensures title == GetQuickTasks(old(weekday))[index].title
      ensures category == GetQuickTasks(old(weekday))[index].category
      ensures description == old(description) && priority == old(priority)
      ensures weekday == old(weekday) && dueDate == old(dueDate)
      ensures CanSubmit()
    {
      var quickTask := GetQuickTasks(weekday)[index];
      QuickTaskTitlesAreTrimmed(weekday, index);
      title := quickTask.title;
      category := quickTask.category;
    }

    method SetTitle(value: string)
      modifies this
      ensures title == value
      ensures description == old(description) && category == old(category) && priority == old(priority)
      ensures weekday == old(weekday) && dueDate == old(dueDate)
    {
      title := value;
    }

    method SetDescription(value: string)
      modifies this
      ensures description == value
      ensures title == old(title) && category == old(category) && priority == old(priority)
      ensures weekday == old(weekday) && dueDate == old(dueDate)
    {
      description := value;
    }

    method SetCategory(value: TaskCategory)
      modifies this
      ensures category == value
      ensures title == old(title) && description == old(description) && priority == old(priority)
      ensures weekday == old(weekday) && dueDate == old(dueDate)
    {
      category := value;
    }

    method SetPriority(value: TaskPriority)
      modifies this
      ensures priority == value
      ensures title == old(title) && description == old(description) && category == old(category)
      ensures weekday == old(weekday) && dueDate == old(dueDate)
    {
      priority := value;
    }

    method SetWeekday(value: Weekday)
      modifies this
      ensures weekday == value
      ensures title == old(title) && description == old(description) && category == old(category)
      ensures priority == old(priority) && dueDate == old(dueDate)
    {
      weekday := value;
    }

    method SetDueDate(value: string)
      modifies this
      ensures dueDate == value
      ensures title == old(title) && description == old(description) && category == old(category)
      ensures priority == old(priority) && weekday == old(weekday)
    {
      dueDate := value;
    }
  }

  /** Submitting twice in a row emits at most one draft: the first submit
      clears the title. */
  method SubmitTwice(form: Form) returns (first: Option<TaskDraft>, second: Option<TaskDraft>)
    modifies form
    ensures second.None?
  {
    first := form.HandleSubmit();
    second := form.HandleSubmit();
  }
}
