/** The planner's records. The TypeScript module that declares them is not part
    of this model; these datatypes hold the fields the components read and
    write, and the enumerations hold the values the components name. */
module Types {
  import opened Wrappers

  /** The seven weekday keys, 'monday' … 'sunday'. */
  datatype Weekday = Monday | Tuesday | Wednesday | Thursday | Friday | Saturday | Sunday

  /** The category keys the components name: 'personal', 'work', 'health',
      'shopping', 'family', 'hobbies' and 'weekend-fun'. */
  datatype TaskCategory = Personal | Work | Health | Shopping | Family | Hobbies | WeekendFun

  datatype TaskPriority = Low | Medium | High

  /** One entry of the weekday table (`label` is named `fullLabel` here, since `label` is a Dafny keyword; its CSS styling strings are not modelled). */
  datatype WeekdayInfo = WeekdayInfo(key: Weekday, fullLabel: string, shortLabel: string, isWeekend: bool)

  /** A task as the list components see it. `createdAt` is a timestamp in
      milliseconds; `dueDate` is kept as the text of the date input, since date
      parsing is not modelled; `isWeekend` is the flag the store derives from
      the weekday when the task is created. */
  datatype Task = Task(
    id: string,
    title: string,
    description: Option<string>,
    category: TaskCategory,
    priority: TaskPriority,
    weekday: Weekday,
    completed: bool,
    dueDate: Option<string>,
    createdAt: int,
    isWeekend: bool)
}
