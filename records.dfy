/** The record shapes of tasks and goals, their enumerations and the filter record. */
module Records {
  import opened Wrappers

  datatype TaskStatus = Todo | InProgress | Completed
  datatype TaskPriority = Low | Medium | High

  /** The literal stored for a status. */
  function StatusText(s: TaskStatus): string {
    match s
    case Todo => "todo"
    case InProgress => "in_progress"
    case Completed => "completed"
  }

  /** The literal stored for a priority. */
  function PriorityText(p: TaskPriority): string {
    match p
    case Low => "low"
    case Medium => "medium"
    case High => "high"
  }

  /** Reads a status literal back; anything else is not a status. */
  function StatusFromText(v: string): (r: Option<TaskStatus>)
    ensures r.Some? ==> StatusText(r.value) == v
    ensures forall s :: v == StatusText(s) ==> r == Some(s)
  {
    if v == "todo" then Some(Todo)
    else if v == "in_progress" then Some(InProgress)
    else if v == "completed" then Some(Completed)
    else None
  }

  /** Reads a priority literal back; anything else is not a priority. */
  function PriorityFromText(v: string): (r: Option<TaskPriority>)
    ensures r.Some? ==> PriorityText(r.value) == v
    ensures forall p :: v == PriorityText(p) ==> r == Some(p)
  {
    if v == "low" then Some(Low)
    else if v == "medium" then Some(Medium)
    else if v == "high" then Some(High)
    else None
  }

  datatype Task = Task(
    id: string,
    user_id: string,
    title: string,
    description: Option<string>,
    due_date: Option<string>,  // "YYYY-MM-DD"
    priority: TaskPriority,
    status: TaskStatus,
    goal_id: Option<string>,
    created_at: string,
    updated_at: string)

  datatype TaskCreateInput = TaskCreateInput(
    title: string,
    description: Nullable<string>,
    due_date: Nullable<string>,
    priority: TaskPriority,
    status: TaskStatus,
    goal_id: Nullable<string>)

  /** `Partial<TaskCreateInput> & { id: string }` */
  datatype TaskUpdateInput = TaskUpdateInput(
    id: string,
    title: Option<string>,
    description: Nullable<string>,
    due_date: Nullable<string>,
    priority: Option<TaskPriority>,
    status: Option<TaskStatus>,
    goal_id: Nullable<string>)

  /** A status or priority filter: the literal `'all'` or one value. */
  datatype Choice<+T> = All | Only(value: T)

  datatype DueFilter = DueAll | Overdue | DueToday | ThisWeek | NoDueDate

  function DueText(d: DueFilter): string {
    match d
    case DueAll => "all"
    case Overdue => "overdue"
    case DueToday => "today"
    case ThisWeek => "this_week"
    case NoDueDate => "no_due_date"
  }

  function StatusChoiceText(c: Choice<TaskStatus>): string {
    match c
    case All => "all"
    case Only(s) => StatusText(s)
  }

  function PriorityChoiceText(c: Choice<TaskPriority>): string {
    match c
    case All => "all"
    case Only(p) => PriorityText(p)
  }

  /** `TaskFilters`, with the `goal_id` field the task page and the query builder use. */
  datatype TaskFilters = TaskFilters(
    status: Option<Choice<TaskStatus>>,
    priority: Option<Choice<TaskPriority>>,
    due: Option<DueFilter>,
    search: Option<string>,
    goal_id: Option<string>)

  datatype Goal = Goal(
    id: string,
    user_id: string,
    name: string,
    description: Option<string>,
    start_date: Option<string>,  // "YYYY-MM-DD"
    end_date: Option<string>,
    created_at: string,
    updated_at: string)

  datatype GoalCreateInput = GoalCreateInput(
    name: string,
    description: Nullable<string>,
    start_date: Nullable<string>,
    end_date: Nullable<string>)

  /** `Partial<GoalCreateInput> & { id: string }` */
  datatype GoalUpdateInput = GoalUpdateInput(
    id: string,
    name: Option<string>,
    description: Nullable<string>,
    start_date: Nullable<string>,
    end_date: Nullable<string>)

  datatype GoalProgress = GoalProgress(goalId: string, total: nat, completed: nat)

  /** JavaScript truthiness of a `string | null`: present and not empty. */
  predicate Truthy(s: Option<string>) {
    s.Some? && s.value != ""
  }

  /** The value sent for one column of a row: a string or SQL `null`. */
  datatype Json = JStr(s: string) | JNull

  /** What `?? undefined` followed by JSON serialisation sends for a nullable field:
      `null` and a missing field both leave the column out. */
  function DropNull(x: Nullable<string>): Option<Json> {
    match x
    case Present(v) => Some(JStr(v))
    case _ => None
  }

  /** What a field sends when `null` is kept: only a missing field leaves the column out. */
  function KeepNull(x: Nullable<string>): Option<Json> {
    match x
    case Present(v) => Some(JStr(v))
    case Null => Some(JNull)
    case Missing => None
  }

  /** An update patch: the columns it sets and their new values. */
  type Patch = map<string, Json>

  /** Adds a column to a patch unless its value is left out. */
  function SetColumn(p: Patch, column: string, v: Option<Json>): Patch {
    if v.Some? then p[column := v.value] else p
  }

  /** The value a patch sends for one column, or `None` when the column is not part of it. */
  function Sent(p: Patch, column: string): Option<Json> {
    if column in p then Some(p[column]) else None
  }

  /** What the store holds for a nullable column after a patch: the patched value if the patch
      sets the column, the old value otherwise. */
  function Patched(before: Option<string>, p: Patch, column: string): Option<string> {
    if column !in p then before
    else match p[column]
      case JStr(s) => Some(s)
      case JNull => None
  }

  /** The message both create calls throw without a signed-in user. */
  const NotAuthenticated := "Not authenticated"

  /** `.update(patch).eq('id', id)` on one table. */
  datatype UpdateCommand = UpdateCommand(table: string, id: string, patch: Patch)

  /** An optional text field of an update: left out when absent. */
  function TextColumn(v: Option<string>): Option<Json> {
    if v.Some? then Some(JStr(v.value)) else None
  }
}
