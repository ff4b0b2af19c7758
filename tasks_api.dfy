/** The task data layer: the predicate list handed to the backend for a filter record,
    the insert record of `createTask` with its authentication guard, and the patch of
    `updateTask`. The backend calls themselves are not modelled. */
module TasksApi {
  import opened Wrappers
  import opened Text
  import opened Records
  import Seqs

  datatype Value = Str(s: string) | NullValue

  datatype Op = Eq | Neq | Lt | Gte | Lte | Is | NotIs | ILike

  /** One call such as `.eq('status', 'todo')` or `.not('due_date', 'is', null)`. */
  datatype Condition = Condition(column: string, op: Op, value: Value)

  /** A filter on the query: one condition, or `.or(...)` of several. */
  datatype Predicate = Where(cond: Condition) | AnyOf(alternatives: seq<Condition>)

  datatype Order = Order(column: string, ascending: bool)

  /** `supabase.from(table).select(columns)` followed by the filters and `.order(...)`. */
  datatype Query = Query(table: string, columns: string, predicates: seq<Predicate>, order: Order)

  const OrderNewestFirst := Order("created_at", false)

  function StatusPredicates(status: Option<Choice<TaskStatus>>): seq<Predicate> {
    if status.Some? && status.value.Only? then [Where(Condition("status", Eq, Str(StatusText(status.value.value))))]
    else []
  }

  function PriorityPredicates(priority: Option<Choice<TaskPriority>>): seq<Predicate> {
    if priority.Some? && priority.value.Only? then [Where(Condition("priority", Eq, Str(PriorityText(priority.value.value))))]
    else []
  }

  function GoalPredicates(goal_id: Option<string>): seq<Predicate> {
    if Truthy(goal_id) then [Where(Condition("goal_id", Eq, Str(goal_id.value)))] else []
  }

  /** The date bucket: `today` and `in7` are the caller's date and the date seven days later. */
  function DuePredicates(due: Option<DueFilter>, today: string, in7: string): seq<Predicate> {
    match due
    case Some(Overdue) =>
      [Where(Condition("due_date", NotIs, NullValue)), Where(Condition("due_date", Lt, Str(today))),
       Where(Condition("status", Neq, Str("completed")))]
    case Some(DueToday) => [Where(Condition("due_date", Eq, Str(today)))]
    case Some(NoDueDate) => [Where(Condition("due_date", Is, NullValue))]
    case Some(ThisWeek) =>
      [Where(Condition("due_date", NotIs, NullValue)), Where(Condition("due_date", Gte, Str(today))),
       Where(Condition("due_date", Lte, Str(in7)))]
    case _ => []
  }

  /** `%trimmed%`, the pattern matched against title and description. */
  function SearchPattern(search: string): string {
    "%" + Trim(search) + "%"
  }

  function SearchPredicates(search: Option<string>): seq<Predicate> {
    if search.Some? && Trim(search.value) != "" then
      var s := SearchPattern(search.value);
      [AnyOf([Condition("title", ILike, Str(s)), Condition("description", ILike, Str(s))])]
    else []
  }

  /** The query `buildQuery(filters)` produces. */
  function QueryFor(f: TaskFilters, today: string, in7: string): Query {
    Query("tasks", "*",
      StatusPredicates(f.status) + PriorityPredicates(f.priority) + GoalPredicates(f.goal_id)
      + DuePredicates(f.due, today, in7) + SearchPredicates(f.search),
      OrderNewestFirst)
  }

  /** `buildQuery`: starts from `select('*')` and appends one predicate group after the other. */
  method BuildQuery(filters: TaskFilters, today: string, in7: string) returns (q: Query)
    ensures q == QueryFor(filters, today, in7)
  {
    var preds: seq<Predicate> := [];
    if filters.status.Some? && filters.status.value != All {
      preds := preds + [Where(Condition("status", Eq, Str(StatusText(filters.status.value.value))))];
    }
    assert preds == StatusPredicates(filters.status);
    if filters.priority.Some? && filters.priority.value != All {
      preds := preds + [Where(Condition("priority", Eq, Str(PriorityText(filters.priority.value.value))))];
    }
    assert preds == StatusPredicates(filters.status) + PriorityPredicates(filters.priority);
    if Truthy(filters.goal_id) {
      preds := preds + [Where(Condition("goal_id", Eq, Str(filters.goal_id.value)))];
    }
    ghost var before := preds;
    assert before == StatusPredicates(filters.status) + PriorityPredicates(filters.priority) + GoalPredicates(filters.goal_id);
    if filters.due == Some(Overdue) {
      preds := preds + [Where(Condition("due_date", NotIs, NullValue)), Where(Condition("due_date", Lt, Str(today))),
                        Where(Condition("status", Neq, Str("completed")))];
    } else if filters.due == Some(DueToday) {
      preds := preds + [Where(Condition("due_date", Eq, Str(today)))];
    } else if filters.due == Some(NoDueDate) {
      preds := preds + [Where(Condition("due_date", Is, NullValue))];
    } else if filters.due == Some(ThisWeek) {
      preds := preds + [Where(Condition("due_date", NotIs, NullValue)), Where(Condition("due_date", Gte, Str(today))),
                        Where(Condition("due_date", Lte, Str(in7)))];
    }
    assert preds == before + DuePredicates(filters.due, today, in7);
    ghost var withDue := preds;
    TrimEmpty();
    if filters.search.Some? && filters.search.value != "" && Trim(filters.search.value) != "" {
      var s := SearchPattern(filters.search.value);
      preds := preds + [AnyOf([Condition("title", ILike, Str(s)), Condition("description", ILike, Str(s))])];
    }
    assert preds == withDue + SearchPredicates(filters.search);
    q := Query("tasks", "*", preds, Order("created_at", false));
  }

  /** The single conditions of a predicate list that test `column`, in order. */
  function ConditionsOn(preds: seq<Predicate>, column: string): seq<Condition> {
    if preds == [] then []
    else
      var rest := ConditionsOn(preds[1..], column);
      if preds[0].Where? && preds[0].cond.column == column then [preds[0].cond] + rest else rest
  }

  lemma {:induction false} ConditionsOnAppend(a: seq<Predicate>, b: seq<Predicate>, column: string)
    ensures ConditionsOn(a + b, column) == ConditionsOn(a, column) + ConditionsOn(b, column)
  {
    if a == [] {
      assert a + b == b;
    } else {
      assert (a + b)[0] == a[0] && (a + b)[1..] == a[1..] + b;
      ConditionsOnAppend(a[1..], b, column);
    }
  }

  lemma ConditionsOnSingle(p: Predicate, column: string)
    ensures ConditionsOn([p], column) == if p.Where? && p.cond.column == column then [p.cond] else []
  {
    assert [p][1..] == [];
  }

  lemma ConditionsOnTriple(p: Predicate, q: Predicate, r: Predicate, column: string)
    ensures ConditionsOn([p, q, r], column) == ConditionsOn([p], column) + ConditionsOn([q], column) + ConditionsOn([r], column)
  {
    assert [p, q, r] == [p] + [q] + [r];
    ConditionsOnAppend([p] + [q], [r], column);
    ConditionsOnAppend([p], [q], column);
  }

  /** The conditions each due bucket places on one column. */
  lemma DueSegment(due: Option<DueFilter>, today: string, in7: string, column: string)
    ensures var c := ConditionsOn(DuePredicates(due, today, in7), column);
      && (due.None? || due == Some(DueAll) ==> c == [])
      && (due == Some(Overdue) ==>
            c == (if column == "due_date" then [Condition("due_date", NotIs, NullValue), Condition("due_date", Lt, Str(today))] else [])
                 + (if column == "status" then [Condition("status", Neq, Str("completed"))] else []))
      && (due == Some(DueToday) ==> c == if column == "due_date" then [Condition("due_date", Eq, Str(today))] else [])
      && (due == Some(NoDueDate) ==> c == if column == "due_date" then [Condition("due_date", Is, NullValue)] else [])
      && (due == Some(ThisWeek) ==>
            c == if column == "due_date" then [Condition("due_date", NotIs, NullValue), Condition("due_date", Gte, Str(today)),
                                              Condition("due_date", Lte, Str(in7))] else [])
  {
    var d := DuePredicates(due, today, in7);
    if |d| == 1 {
      ConditionsOnSingle(d[0], column);
      assert d == [d[0]];
    } else if |d| == 3 {
      ConditionsOnTriple(d[0], d[1], d[2], column);
      ConditionsOnSingle(d[0], column);
      ConditionsOnSingle(d[1], column);
      ConditionsOnSingle(d[2], column);
      assert d == [d[0], d[1], d[2]];
    }
  }

  /** A list of at most one predicate and what it tests. */
  lemma ConditionsOnShort(ps: seq<Predicate>, column: string)
    requires |ps| <= 1
    ensures ConditionsOn(ps, column) == if ps != [] && ps[0].Where? && ps[0].cond.column == column then [ps[0].cond] else []
  {
    if ps != [] {
      assert ps == [ps[0]];
      ConditionsOnSingle(ps[0], column);
    }
  }

  /** The conditions on each column of the whole query. */
  lemma ColumnConditions(f: TaskFilters, today: string, in7: string, column: string)
    ensures var preds := QueryFor(f, today, in7).predicates;
      ConditionsOn(preds, column) ==
        ConditionsOn(StatusPredicates(f.status), column) + ConditionsOn(PriorityPredicates(f.priority), column)
        + ConditionsOn(GoalPredicates(f.goal_id), column) + ConditionsOn(DuePredicates(f.due, today, in7), column)
        + ConditionsOn(SearchPredicates(f.search), column)
    ensures ConditionsOn(StatusPredicates(f.status), column) ==
      if column == "status" && f.status.Some? && f.status.value != All then [Condition("status", Eq, Str(StatusText(f.status.value.value)))] else []
    ensures ConditionsOn(PriorityPredicates(f.priority), column) ==
      if column == "priority" && f.priority.Some? && f.priority.value != All then [Condition("priority", Eq, Str(PriorityText(f.priority.value.value)))] else []
    ensures ConditionsOn(GoalPredicates(f.goal_id), column) ==
      if column == "goal_id" && Truthy(f.goal_id) then [Condition("goal_id", Eq, Str(f.goal_id.value))] else []
    ensures ConditionsOn(SearchPredicates(f.search), column) == []
  {
    var a, b, c, d, e := StatusPredicates(f.status), PriorityPredicates(f.priority), GoalPredicates(f.goal_id),
      DuePredicates(f.due, today, in7), SearchPredicates(f.search);
    ConditionsOnAppend(a + b + c + d, e, column);
    ConditionsOnAppend(a + b + c, d, column);
    ConditionsOnAppend(a + b, c, column);
    ConditionsOnAppend(a, b, column);
    ConditionsOnShort(a, column);
    ConditionsOnShort(b, column);
    ConditionsOnShort(c, column);
    ConditionsOnShort(e, column);
  }

  /** A status equality is sent exactly when the status filter is present and not `'all'`;
      the only other test of `status` is the overdue bucket's `neq('status', 'completed')`. */
  lemma StatusConditions(f: TaskFilters, today: string, in7: string)
    ensures ConditionsOn(QueryFor(f, today, in7).predicates, "status") ==
      (if f.status.Some? && f.status.value != All then [Condition("status", Eq, Str(StatusText(f.status.value.value)))] else [])
      + (if f.due == Some(Overdue) then [Condition("status", Neq, Str("completed"))] else [])
  {
    ColumnConditions(f, today, in7, "status");
    DueSegment(f.due, today, in7, "status");
  }

  /** A priority equality is sent exactly when the priority filter is present and not `'all'`. */
  lemma PriorityConditions(f: TaskFilters, today: string, in7: string)
    ensures ConditionsOn(QueryFor(f, today, in7).predicates, "priority") ==
      if f.priority.Some? && f.priority.value != All then [Condition("priority", Eq, Str(PriorityText(f.priority.value.value)))] else []
  {
    ColumnConditions(f, today, in7, "priority");
    DueSegment(f.due, today, in7, "priority");
  }

  /** A goal equality is sent exactly when `goal_id` is a non-empty string. */
  lemma GoalConditions(f: TaskFilters, today: string, in7: string)
    ensures ConditionsOn(QueryFor(f, today, in7).predicates, "goal_id") ==
      if f.goal_id.Some? && f.goal_id.value != "" then [Condition("goal_id", Eq, Str(f.goal_id.value))] else []
  {
    assert "goal_id"[0] != "status"[0] && "goal_id"[0] != "priority"[0] && "goal_id"[0] != "due_date"[0];
    ColumnConditions(f, today, in7, "goal_id");
    DueSegment(f.due, today, in7, "goal_id");
    assert ConditionsOn(DuePredicates(f.due, today, in7), "goal_id") == [];
  }

  /** Only the chosen due bucket tests `due_date`; `'all'` or no bucket tests nothing. */
  lemma DueConditions(f: TaskFilters, today: string, in7: string)
    ensures var c := ConditionsOn(QueryFor(f, today, in7).predicates, "due_date");
      && (f.due.None? || f.due == Some(DueAll) ==> c == [])
      && (f.due == Some(Overdue) ==> c == [Condition("due_date", NotIs, NullValue), Condition("due_date", Lt, Str(today))])
      && (f.due == Some(DueToday) ==> c == [Condition("due_date", Eq, Str(today))])
      && (f.due == Some(NoDueDate) ==> c == [Condition("due_date", Is, NullValue)])
      && (f.due == Some(ThisWeek) ==> c == [Condition("due_date", NotIs, NullValue), Condition("due_date", Gte, Str(today)),
                                           Condition("due_date", Lte, Str(in7))])
  {
    ColumnConditions(f, today, in7, "due_date");
    DueSegment(f.due, today, in7, "due_date");
  }

  predicate IsOr(p: Predicate) {
    p.AnyOf?
  }

  /** A list of single conditions holds no `or` predicate. */
  lemma {:induction false} NoOrIn(ps: seq<Predicate>)
    requires forall i :: 0 <= i < |ps| ==> ps[i].Where?
    ensures Seqs.Filter(ps, IsOr) == []
  {
    if ps != [] {
      assert ps[0].Where?;
      NoOrIn(ps[1..]);
    }
  }

  /** Every predicate before the search segment is a single condition. */
  lemma SingleConditionsFirst(f: TaskFilters, today: string, in7: string)
    ensures var ps := StatusPredicates(f.status) + PriorityPredicates(f.priority) + GoalPredicates(f.goal_id)
                      + DuePredicates(f.due, today, in7);
      forall i :: 0 <= i < |ps| ==> ps[i].Where?
  {
  }

  /** The `or` predicate of the search segment. */
  lemma SearchSegment(search: Option<string>)
    ensures Seqs.Filter(SearchPredicates(search), IsOr) ==
      if search.None? || AllWhitespace(search.value) then []
      else [AnyOf([Condition("title", ILike, Str("%" + Trim(search.value) + "%")),
                   Condition("description", ILike, Str("%" + Trim(search.value) + "%"))])]
  {
    var e := SearchPredicates(search);
    if search.Some? {
      TrimEmptyIff(search.value);
    }
    if e != [] {
      assert e[1..] == [];
    }
  }

  /** The filter over the five segments is the filter over the search segment alone. */
  lemma OrOnlyFromSearch(f: TaskFilters, today: string, in7: string)
    ensures Seqs.Filter(QueryFor(f, today, in7).predicates, IsOr) == Seqs.Filter(SearchPredicates(f.search), IsOr)
  {
    var first := StatusPredicates(f.status) + PriorityPredicates(f.priority) + GoalPredicates(f.goal_id)
      + DuePredicates(f.due, today, in7);
    SingleConditionsFirst(f, today, in7);
    NoOrIn(first);
    Seqs.FilterAppend(first, SearchPredicates(f.search), IsOr);
  }

  /** A whitespace-only search sends no text filter; any other search sends exactly one `or` of
      two `ilike` tests on title and description with the trimmed text between `%` signs. The
      ordering is always newest first. */
  lemma SearchPredicate(f: TaskFilters, today: string, in7: string)
    ensures var q := QueryFor(f, today, in7);
      && q.table == "tasks" && q.order == Order("created_at", false)
      && Seqs.Filter(q.predicates, IsOr) ==
         if f.search.None? || AllWhitespace(f.search.value) then []
         else [AnyOf([Condition("title", ILike, Str("%" + Trim(f.search.value) + "%")),
                      Condition("description", ILike, Str("%" + Trim(f.search.value) + "%"))])]
  {
    OrOnlyFromSearch(f, today, in7);
    SearchSegment(f.search);
  }

  /** A whitespace-only search gives the same query as no search at all. */
  lemma BlankSearchIsNoSearch(f: TaskFilters, s: string, today: string, in7: string)
    requires AllWhitespace(s)
    ensures QueryFor(f.(search := Some(s)), today, in7) == QueryFor(f.(search := None), today, in7)
  {
    TrimEmptyIff(s);
  }

  // ---- What the store does with a date-bucket condition on one row (SQL semantics) ----

  /** The value a task row holds in a column the date buckets test. */
  function ColumnOf(t: Task, column: string): Value {
    if column == "status" then Str(StatusText(t.status))
    else if column == "priority" then Str(PriorityText(t.priority))
    else if column == "due_date" then (if t.due_date.Some? then Str(t.due_date.value) else NullValue)
    else if column == "goal_id" then (if t.goal_id.Some? then Str(t.goal_id.value) else NullValue)
    else NullValue
  }

  /** Whether a row passes one condition; a comparison with `null` never passes. Dates are
      compared as `YYYY-MM-DD` strings. */
  predicate Holds(c: Condition, t: Task)
    requires c.op != ILike
  {
    var v := ColumnOf(t, c.column);
    match c.op
    case Is => v == c.value
    case NotIs => v != c.value
    case Eq => v.Str? && c.value.Str? && v.s == c.value.s
    case Neq => v.Str? && c.value.Str? && v.s != c.value.s
    case Lt => v.Str? && c.value.Str? && LexLess(v.s, c.value.s)
    case Gte => v.Str? && c.value.Str? && LexLe(c.value.s, v.s)
    case Lte => v.Str? && c.value.Str? && LexLe(v.s, c.value.s)
  }

  predicate AllHold(preds: seq<Predicate>, t: Task)
    requires forall i :: 0 <= i < |preds| ==> preds[i].Where? && preds[i].cond.op != ILike
  {
    forall i :: 0 <= i < |preds| ==> Holds(preds[i].cond, t)
  }

  /** The rows each due bucket selects, in the terms the dashboard counts them. */
  lemma DueBucketSelects(due: DueFilter, t: Task, today: string, in7: string)
    ensures var preds := DuePredicates(Some(due), today, in7);
      && (forall i :: 0 <= i < |preds| ==> preds[i].Where? && preds[i].cond.op != ILike)
      && (AllHold(preds, t) <==>
           match due
           case DueAll => true
           case Overdue => t.due_date.Some? && LexLess(t.due_date.value, today) && t.status != Completed
           case DueToday => t.due_date == Some(today)
           case NoDueDate => t.due_date.None?
           case ThisWeek => t.due_date.Some? && LexLe(today, t.due_date.value) && LexLe(t.due_date.value, in7))
  {
    var preds := DuePredicates(Some(due), today, in7);
    match due
    case Overdue =>
      assert AllHold(preds, t) <==> Holds(preds[0].cond, t) && Holds(preds[1].cond, t) && Holds(preds[2].cond, t);
    case ThisWeek =>
      assert AllHold(preds, t) <==> Holds(preds[0].cond, t) && Holds(preds[1].cond, t) && Holds(preds[2].cond, t);
    case DueToday =>
      assert AllHold(preds, t) <==> Holds(preds[0].cond, t);
    case NoDueDate =>
      assert AllHold(preds, t) <==> Holds(preds[0].cond, t);
    case DueAll =>
  }

  // ---- createTask / updateTask ----

  /** The row `createTask` inserts. */
  datatype TaskInsert = TaskInsert(
    user_id: string,
    title: string,
    description: Option<string>,
    due_date: Option<string>,
    priority: TaskPriority,
    status: TaskStatus,
    goal_id: Option<string>)

  /** `createTask(input)` for the signed-in user id `userId` (`auth.user?.id`): fails before any
      insert when there is no id; otherwise the row belongs to the caller and every optional field
      left out is sent as `null`. */
  function CreateTask(input: TaskCreateInput, userId: Option<string>): (r: Result<TaskInsert>)
    ensures r.Err? <==> !Truthy(userId)
    ensures r.Err? ==> r.message == NotAuthenticated
    ensures r.Ok? ==> (r.value.user_id == userId.value && r.value.title == input.title
      && r.value.priority == input.priority && r.value.status == input.status)
    ensures r.Ok? ==> ((r.value.description.Some? <==> input.description.Present?)
      && (r.value.due_date.Some? <==> input.due_date.Present?)
      && (r.value.goal_id.Some? <==> input.goal_id.Present?))
    ensures r.Ok? && input.description.Present? ==> r.value.description.value == input.description.value
    ensures r.Ok? && input.due_date.Present? ==> r.value.due_date.value == input.due_date.value
    ensures r.Ok? && input.goal_id.Present? ==> r.value.goal_id.value == input.goal_id.value
  {
    if !Truthy(userId) then Err(NotAuthenticated)
    else Ok(TaskInsert(userId.value, input.title, OrNull(input.description), OrNull(input.due_date),
                       input.priority, input.status, OrNull(input.goal_id)))
  }

  /** `updateTask(input)` as written: the id selects the row and is not part of the patch, and a
      `null` description, due date or goal becomes `undefined`, so that column is not sent. */
  function UpdateTask(input: TaskUpdateInput): (cmd: UpdateCommand)
    ensures cmd.table == "tasks" && cmd.id == input.id && "id" !in cmd.patch
    ensures forall k :: k in cmd.patch ==> cmd.patch[k].JStr?
    ensures ("description" in cmd.patch <==> input.description.Present?)
      && ("due_date" in cmd.patch <==> input.due_date.Present?)
      && ("goal_id" in cmd.patch <==> input.goal_id.Present?)
  {
    var p := SetColumn(map[], "title", TextColumn(input.title));
    var p := SetColumn(p, "description", DropNull(input.description));
    var p := SetColumn(p, "due_date", DropNull(input.due_date));
    var p := SetColumn(p, "priority", if input.priority.Some? then Some(JStr(PriorityText(input.priority.value))) else None);
    var p := SetColumn(p, "status", if input.status.Some? then Some(JStr(StatusText(input.status.value))) else None);
    var p := SetColumn(p, "goal_id", DropNull(input.goal_id));
    UpdateCommand("tasks", input.id, p)
  }

  /** The same patch with `null` kept, so that clearing a field in the edit dialog clears it. */
  function UpdateTaskKeepingNull(input: TaskUpdateInput): (cmd: UpdateCommand)
    ensures cmd.table == "tasks" && cmd.id == input.id && "id" !in cmd.patch
    ensures ("description" in cmd.patch <==> !input.description.Missing?)
      && ("due_date" in cmd.patch <==> !input.due_date.Missing?)
      && ("goal_id" in cmd.patch <==> !input.goal_id.Missing?)
  {
    var p := SetColumn(map[], "title", TextColumn(input.title));
    var p := SetColumn(p, "description", KeepNull(input.description));
    var p := SetColumn(p, "due_date", KeepNull(input.due_date));
    var p := SetColumn(p, "priority", if input.priority.Some? then Some(JStr(PriorityText(input.priority.value))) else None);
    var p := SetColumn(p, "status", if input.status.Some? then Some(JStr(StatusText(input.status.value))) else None);
    var p := SetColumn(p, "goal_id", KeepNull(input.goal_id));
    UpdateCommand("tasks", input.id, p)
  }

  /** What `updateTask(input)` sends, column by column: each text field given is sent as is, a
      priority or status as its database text, a nullable field only when it holds a value, and
      no column besides these six. */
  lemma UpdateTaskSends(input: TaskUpdateInput)
    ensures var p := UpdateTask(input).patch;
      && Sent(p, "title") == (if input.title.Some? then Some(JStr(input.title.value)) else None)
      && Sent(p, "description") == (if input.description.Present? then Some(JStr(input.description.value)) else None)
      && Sent(p, "due_date") == (if input.due_date.Present? then Some(JStr(input.due_date.value)) else None)
      && Sent(p, "priority") == (if input.priority.Some? then Some(JStr(PriorityText(input.priority.value))) else None)
      && Sent(p, "status") == (if input.status.Some? then Some(JStr(StatusText(input.status.value))) else None)
      && Sent(p, "goal_id") == (if input.goal_id.Present? then Some(JStr(input.goal_id.value)) else None)
    ensures forall k :: k in UpdateTask(input).patch ==>
      k in ["title", "description", "due_date", "priority", "status", "goal_id"]
  {
  }

  /** With `null` kept, a nullable field set to `null` sends SQL `null`; the other columns are
      sent as by `updateTask`. */
  lemma UpdateTaskKeepingNullSends(input: TaskUpdateInput)
    ensures var p := UpdateTaskKeepingNull(input).patch;
      && Sent(p, "title") == (if input.title.Some? then Some(JStr(input.title.value)) else None)
      && Sent(p, "description") == (match input.description
           case Present(v) => Some(JStr(v)) case Null => Some(JNull) case Missing => None)
      && Sent(p, "due_date") == (match input.due_date
           case Present(v) => Some(JStr(v)) case Null => Some(JNull) case Missing => None)
      && Sent(p, "priority") == (if input.priority.Some? then Some(JStr(PriorityText(input.priority.value))) else None)
      && Sent(p, "status") == (if input.status.Some? then Some(JStr(StatusText(input.status.value))) else None)
      && Sent(p, "goal_id") == (match input.goal_id
           case Present(v) => Some(JStr(v)) case Null => Some(JNull) case Missing => None)
    ensures forall k :: k in UpdateTaskKeepingNull(input).patch ==>
      k in ["title", "description", "due_date", "priority", "status", "goal_id"]
  {
  }

  /** The nullable columns a stored task holds after an update with patch `p`. */
  function StoredAfter(t: Task, p: Patch): Task {
    t.(description := Patched(t.description, p, "description"),
       due_date := Patched(t.due_date, p, "due_date"),
       goal_id := Patched(t.goal_id, p, "goal_id"))
  }

  /** As written, a nullable column the edit sets to `null` keeps its stored value: the stored
      description, due date and goal are the edit's value when it holds one, and unchanged
      otherwise. */
  lemma UpdateTaskKeepsCleared(t: Task, input: TaskUpdateInput)
    ensures var s := StoredAfter(t, UpdateTask(input).patch);
      && s.description == (if input.description.Present? then Some(input.description.value) else t.description)
      && s.due_date == (if input.due_date.Present? then Some(input.due_date.value) else t.due_date)
      && s.goal_id == (if input.goal_id.Present? then Some(input.goal_id.value) else t.goal_id)
  {
  }

  /** As written, editing a task to remove its due date keeps the old due date. */
  lemma ClearedDueDateIsKept()
    ensures var t := Task("t1", "u1", "Pay rent", None, Some("2024-01-10"), Medium, Todo, None, "", "");
      var input := TaskUpdateInput("t1", Some("Pay rent"), Null, Null, Some(Medium), Some(Todo), Null);
      StoredAfter(t, UpdateTask(input).patch).due_date == Some("2024-01-10")
  {
  }

  /** With `null` kept, every nullable field the edit sets, including to `null`, is what the store
      holds afterwards, and a field left out keeps its stored value. */
  lemma KeepingNullStoresEdit(t: Task, input: TaskUpdateInput)
    ensures var s := StoredAfter(t, UpdateTaskKeepingNull(input).patch);
      && s.description == (if input.description.Missing? then t.description else OrNull(input.description))
      && s.due_date == (if input.due_date.Missing? then t.due_date else OrNull(input.due_date))
      && s.goal_id == (if input.goal_id.Missing? then t.goal_id else OrNull(input.goal_id))
  {
  }
}
