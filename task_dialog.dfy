/** The task dialog: its initial values, the validation schema and the `cleaned` record it
    submits, and the edit the task page builds from that record. */
module TaskDialog {
  import opened Wrappers
  import opened Text
  import opened Records
  import opened FormFields
  import TasksApi

  /** The form's values. Priority and status hold the selected option's text; `goal_id` has no
      field of its own and carries what the initial values put there. */
  datatype TaskFormValues = TaskFormValues(
    title: string,
    description: Option<string>,
    due_date: Option<string>,
    priority: string,
    status: string,
    goal_id: Nullable<string>)

  const TitleMax := 120
  const DescriptionMax := 2000

  /** The schema: `title` is required after trimming and at most 120 characters once trimmed,
      `description` at most 2000 characters, `priority` and `status` one of their literals. */
  predicate ValidTaskForm(v: TaskFormValues) {
    && Trim(v.title) != ""
    && |Trim(v.title)| <= TitleMax
    && (v.description.Some? ==> |v.description.value| <= DescriptionMax)
    && PriorityFromText(v.priority).Some?
    && StatusFromText(v.status).Some?
  }

  /** The `oneOf` rules accept exactly the listed priorities and statuses. */
  lemma OneOfRules(v: TaskFormValues)
    ensures PriorityFromText(v.priority).Some? <==> v.priority in ["low", "medium", "high"]
    ensures StatusFromText(v.status).Some? <==> v.status in ["todo", "in_progress", "completed"]
  {
  }

  /** `initialValues`: for a new task an empty title and description, priority `medium`, status
      `todo`, and `null` due date and goal; for an edit the stored fields, a stored `null`
      description shown as the empty string. */
  function InitialTaskValues(initial: Option<Task>): (v: TaskFormValues)
    ensures initial.None? ==> v == TaskFormValues("", Some(""), None, "medium", "todo", Null)
    ensures initial.Some? ==>
      (&& v.title == initial.value.title
       && v.description == Some(initial.value.description.GetOr(""))
       && v.due_date == initial.value.due_date
       && PriorityFromText(v.priority) == Some(initial.value.priority)
       && StatusFromText(v.status) == Some(initial.value.status)
       && OrNull(v.goal_id) == initial.value.goal_id && !v.goal_id.Missing?)
  {
    match initial
    case None => TaskFormValues("", Some(""), None, "medium", "todo", Null)
    case Some(t) =>
      TaskFormValues(t.title, Some(t.description.GetOr("")), t.due_date, PriorityText(t.priority), StatusText(t.status),
                     if t.goal_id.Some? then Present(t.goal_id.value) else Null)
  }

  /** `cleaned`: the title trimmed, a blank description replaced by `null` and any other trimmed,
      an empty or missing due date replaced by `null`, an undefined goal by `null`; priority and
      status pass through. Formik submits only values the schema accepts. */
  function CleanTask(v: TaskFormValues): (c: TaskCreateInput)
    requires ValidTaskForm(v)
    ensures c.title == Trim(v.title)
    ensures c.description.Null? <==> v.description.None? || AllWhitespace(v.description.value)
    ensures c.description.Present? ==> c.description.value == Trim(v.description.value) && c.description.value != ""
    ensures c.due_date.Present? <==> Truthy(v.due_date)
    ensures c.due_date.Present? ==> c.due_date.value == v.due_date.value
    ensures c.goal_id == (if v.goal_id.Missing? then Null else v.goal_id)
    ensures PriorityText(c.priority) == v.priority && StatusText(c.status) == v.status
    ensures !c.description.Missing? && !c.due_date.Missing? && !c.goal_id.Missing?
  {
    TaskCreateInput(
      Trim(v.title),
      BlankToNull(v.description),
      EmptyToNull(v.due_date),
      PriorityFromText(v.priority).value,
      StatusFromText(v.status).value,
      if v.goal_id.Missing? then Null else v.goal_id)
  }

  /** What a cleaned record carries: a trimmed non-empty title within the limit, a trimmed
      non-blank description within the limit or `null`, a non-empty due date or `null`, and every
      field set. */
  predicate CleanTaskInput(c: TaskCreateInput) {
    && c.title != "" && IsTrimmed(c.title) && |c.title| <= TitleMax
    && (c.description.Present? ==>
          (c.description.value != "" && IsTrimmed(c.description.value) && |c.description.value| <= DescriptionMax))
    && (c.due_date.Present? ==> c.due_date.value != "")
    && !c.description.Missing? && !c.due_date.Missing? && !c.goal_id.Missing?
  }

  /** The task a cleaned record is stored as. */
  predicate StoredFrom(t: Task, c: TaskCreateInput) {
    && t.title == c.title && t.description == OrNull(c.description) && t.due_date == OrNull(c.due_date)
    && t.priority == c.priority && t.status == c.status && t.goal_id == OrNull(c.goal_id)
  }

  /** Cleaning a form the schema accepts yields such a record. */
  lemma CleanValid(v: TaskFormValues)
    requires ValidTaskForm(v)
    ensures CleanTaskInput(CleanTask(v))
  {
    var c := CleanTask(v);
    assert c.title != "" && IsTrimmed(c.title) && |c.title| <= TitleMax;
  }

  /** A task stored from a cleaned record, opened again in the edit dialog and saved unchanged,
      passes the schema and submits the same record. */
  lemma ReopenUnchanged(c: TaskCreateInput, t: Task)
    requires CleanTaskInput(c) && StoredFrom(t, c)
    ensures ValidTaskForm(InitialTaskValues(Some(t)))
    ensures CleanTask(InitialTaskValues(Some(t))) == c
  {
    var v := InitialTaskValues(Some(t));
    assert Trim(v.title) == c.title by {
      TrimOfTrimmed(c.title);
    }
    assert |v.description.value| <= DescriptionMax;
    assert ValidTaskForm(v);
    BlankToNullReshown(c.description);
    EmptyToNullReshown(c.due_date);
  }

  // ---- handleSubmit in edit mode ----

  /** `{ id: editing.id, ...values }` on the task page. */
  function EditInput(id: string, values: TaskCreateInput): (u: TaskUpdateInput)
    ensures u.id == id && u.title == Some(values.title)
    ensures u.priority == Some(values.priority) && u.status == Some(values.status)
    ensures u.description == values.description && u.due_date == values.due_date && u.goal_id == values.goal_id
  {
    TaskUpdateInput(id, Some(values.title), values.description, values.due_date, Some(values.priority),
                    Some(values.status), values.goal_id)
  }

  /** As written: emptying the due date of a task due on 2024-01-10 and saving leaves it due on
      2024-01-10, and blanking its description keeps the old description. */
  lemma ClearingDueDateKeepsIt()
    ensures var t := Task("t1", "u1", "Pay rent", Some("Monthly"), Some("2024-01-10"), Medium, Todo, None, "t0", "t0");
      var v := InitialTaskValues(Some(t)).(description := Some("  "), due_date := Some(""));
      && ValidTaskForm(v)
      && var s := TasksApi.StoredAfter(t, TasksApi.UpdateTask(EditInput(t.id, CleanTask(v))).patch);
      && s.due_date == Some("2024-01-10") && s.description == Some("Monthly")
  {
    var t := Task("t1", "u1", "Pay rent", Some("Monthly"), Some("2024-01-10"), Medium, Todo, None, "t0", "t0");
    var v := InitialTaskValues(Some(t)).(description := Some("  "), due_date := Some(""));
    assert v == TaskFormValues("Pay rent", Some("  "), Some(""), "medium", "todo", Null);
    assert Trim("Pay rent") == "Pay rent" by {
      TrimOfTrimmed("Pay rent");
    }
    assert AllWhitespace("  ");
    assert ValidTaskForm(v);
    var c := CleanTask(v);
    assert c == TaskCreateInput("Pay rent", Null, Null, Medium, Todo, Null);
  }

  /** Corrected: with `null` kept, the stored task afterwards holds exactly the cleaned
      description, due date and goal of the saved form. */
  lemma KeepingNullStoresForm(t: Task, v: TaskFormValues)
    requires ValidTaskForm(v)
    ensures var c := CleanTask(v);
      var s := TasksApi.StoredAfter(t, TasksApi.UpdateTaskKeepingNull(EditInput(t.id, c)).patch);
      && s.description == OrNull(c.description)
      && s.due_date == OrNull(c.due_date) && (s.due_date.None? <==> !Truthy(v.due_date))
      && s.goal_id == OrNull(c.goal_id)
  {
    var c := CleanTask(v);
    TasksApi.KeepingNullStoresEdit(t, EditInput(t.id, c));
  }
}
