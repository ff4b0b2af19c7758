/** The task page's two-way sync between the filter record and the URL query string: the enum
    validators, the tolerant parser, the serialiser that leaves defaults out, `hasFilters`, the
    Clear reset, and the one-shot flag that stops a URL-driven update from being written back. */
module TaskPage {
  import opened Wrappers
  import opened Text
  import opened Records
  import TasksApi

  // ---- Validators ----

  /** `isStatus` */
  predicate IsStatus(v: Option<string>) {
    v == Some("all") || v == Some("todo") || v == Some("in_progress") || v == Some("completed")
  }

  /** `isPriority` */
  predicate IsPriority(v: Option<string>) {
    v == Some("all") || v == Some("low") || v == Some("medium") || v == Some("high")
  }

  /** `isDue` */
  predicate IsDue(v: Option<string>) {
    v == Some("all") || v == Some("overdue") || v == Some("today") || v == Some("this_week") || v == Some("no_due_date")
  }

  // ---- URL -> filters, field by field ----

  /** `isStatus(statusQ) ? statusQ : 'all'`, as a status filter. */
  function StatusFrom(q: Option<string>): (c: Choice<TaskStatus>)
    ensures IsStatus(q) ==> StatusChoiceText(c) == q.value
    ensures !IsStatus(q) ==> c == All
  {
    if q == Some("todo") then Only(Todo)
    else if q == Some("in_progress") then Only(InProgress)
    else if q == Some("completed") then Only(Completed)
    else All
  }

  /** `isPriority(priorityQ) ? priorityQ : 'all'`, as a priority filter. */
  function PriorityFrom(q: Option<string>): (c: Choice<TaskPriority>)
    ensures IsPriority(q) ==> PriorityChoiceText(c) == q.value
    ensures !IsPriority(q) ==> c == All
  {
    if q == Some("low") then Only(Low)
    else if q == Some("medium") then Only(Medium)
    else if q == Some("high") then Only(High)
    else All
  }

  /** `isDue(dueQ) ? dueQ : 'all'`, as a due filter. */
  function DueFrom(q: Option<string>): (d: DueFilter)
    ensures IsDue(q) ==> DueText(d) == q.value
    ensures !IsDue(q) ==> d == DueAll
  {
    if q == Some("overdue") then Overdue
    else if q == Some("today") then DueToday
    else if q == Some("this_week") then ThisWeek
    else if q == Some("no_due_date") then NoDueDate
    else DueAll
  }

  /** `goalIdQ ? goalIdQ : null` */
  function GoalFrom(q: Option<string>): (r: Option<string>)
    ensures r.Some? <==> Truthy(q)
    ensures r.Some? ==> r == q
  {
    if Truthy(q) then q else None
  }

  /** `isStatus` accepts the literal of every status filter, which reads back as that filter,
      and rejects `null`; with `StatusFrom`'s contract, it accepts nothing else. */
  lemma StatusValidatorExact(c: Choice<TaskStatus>)
    ensures IsStatus(Some(StatusChoiceText(c))) && StatusFrom(Some(StatusChoiceText(c))) == c
    ensures !IsStatus(None)
  {
    match c
    case All =>
    case Only(s) => match s { case Todo => case InProgress => case Completed => }
  }

  /** `isPriority` accepts the literal of every priority filter, which reads back as that
      filter, and rejects `null`. */
  lemma PriorityValidatorExact(c: Choice<TaskPriority>)
    ensures IsPriority(Some(PriorityChoiceText(c))) && PriorityFrom(Some(PriorityChoiceText(c))) == c
    ensures !IsPriority(None)
  {
    match c
    case All =>
    case Only(p) => match p { case Low => case Medium => case High => }
  }

  /** `isDue` accepts the literal of every due filter, which reads back as that filter, and
      rejects `null`. */
  lemma DueValidatorExact(d: DueFilter)
    ensures IsDue(Some(DueText(d))) && DueFrom(Some(DueText(d))) == d
    ensures !IsDue(None)
  {
    match d { case DueAll => case Overdue => case DueToday => case ThisWeek => case NoDueDate => }
  }

  // ---- Query parameters (URLSearchParams) ----

  /** The decoded name/value pairs of a query string, in order. */
  type Params = seq<(string, string)>

  /** `params.get(k)`: the value of the first pair named `k`, or `null`. */
  function Get(p: Params, k: string): Option<string> {
    if p == [] then None else if p[0].0 == k then Some(p[0].1) else Get(p[1..], k)
  }

  lemma {:induction false} GetAppend(a: Params, b: Params, k: string)
    ensures Get(a + b, k) == if Get(a, k).Some? then Get(a, k) else Get(b, k)
  {
    if a == [] {
      assert a + b == b;
    } else {
      assert (a + b)[0] == a[0] && (a + b)[1..] == a[1..] + b;
      GetAppend(a[1..], b, k);
    }
  }

  /** Every pair named `k` removed. */
  function RemoveAll(p: Params, k: string): (r: Params)
    ensures Get(r, k).None?
    ensures forall k' :: k' != k ==> Get(r, k') == Get(p, k')
  {
    if p == [] then []
    else if p[0].0 == k then RemoveAll(p[1..], k)
    else [p[0]] + RemoveAll(p[1..], k)
  }

  /** The first pair named `k` gets value `v` and the later ones go. */
  function SetFirst(p: Params, k: string, v: string): (r: Params)
    requires Get(p, k).Some?
    ensures Get(r, k) == Some(v)
    ensures forall k' :: k' != k ==> Get(r, k') == Get(p, k')
  {
    if p[0].0 == k then [(k, v)] + RemoveAll(p[1..], k)
    else [p[0]] + SetFirst(p[1..], k, v)
  }

  /** `params.set(k, v)` as the URL standard defines it: the first pair named `k` takes the value
      and the others are removed, or, when there is none, the pair is appended. */
  function Set(p: Params, k: string, v: string): (r: Params)
    ensures Get(r, k) == Some(v)
    ensures Get(p, k).None? ==> r == p + [(k, v)]
  {
    if Get(p, k).Some? then SetFirst(p, k, v)
    else
      GetAppend(p, [(k, v)], k);
      p + [(k, v)]
  }

  /** `set` leaves every other name as it was. */
  lemma SetKeepsOthers(p: Params, k: string, v: string, k': string)
    requires k' != k
    ensures Get(Set(p, k, v), k') == Get(p, k')
  {
    if Get(p, k).None? {
      GetAppend(p, [(k, v)], k');
    }
  }

  /** The five names the page reads and writes are different strings. */
  lemma NamesDistinct()
    ensures "status" != "priority" && "status" != "due" && "status" != "search" && "status" != "goalId"
    ensures "priority" != "due" && "priority" != "search" && "priority" != "goalId"
    ensures "due" != "search" && "due" != "goalId" && "search" != "goalId"
  {
    assert "status"[1] != "search"[1];
    assert "status"[0] != "goalId"[0];
    assert "search"[0] != "goalId"[0];
  }

  // ---- URL -> filters ----

  /** The filters the page starts from and Clear resets to. */
  const Defaults := TaskFilters(Some(All), Some(All), Some(DueAll), Some(""), None)

  /** The URL -> filters effect's `setFilters` argument. */
  function Parse(p: Params): TaskFilters {
    TaskFilters(
      Some(StatusFrom(Get(p, "status"))),
      Some(PriorityFrom(Get(p, "priority"))),
      Some(DueFrom(Get(p, "due"))),
      Some(Get(p, "search").GetOr("")),
      GoalFrom(Get(p, "goalId")))
  }

  /** The parse never fails: an invalid or missing status, priority or due becomes `'all'`, a
      missing search becomes `''`, and a missing or empty `goalId` becomes `null`. */
  lemma ParseTolerant(p: Params)
    ensures var r := Parse(p);
      && r.status.Some? && r.priority.Some? && r.due.Some? && r.search.Some?
      && (IsStatus(Get(p, "status")) ==> StatusChoiceText(r.status.value) == Get(p, "status").value)
      && (!IsStatus(Get(p, "status")) ==> r.status == Some(All))
      && (IsPriority(Get(p, "priority")) ==> PriorityChoiceText(r.priority.value) == Get(p, "priority").value)
      && (!IsPriority(Get(p, "priority")) ==> r.priority == Some(All))
      && (IsDue(Get(p, "due")) ==> DueText(r.due.value) == Get(p, "due").value)
      && (!IsDue(Get(p, "due")) ==> r.due == Some(DueAll))
      && r.search == Some(if Get(p, "search").Some? then Get(p, "search").value else "")
      && (r.goal_id.Some? <==> Truthy(Get(p, "goalId")))
      && (r.goal_id.Some? ==> r.goal_id == Get(p, "goalId"))
  {
  }

  // ---- filters -> URL ----

  /** `filters.status && filters.status !== 'all'` decides whether `status` is set. */
  function StatusParam(s: Option<Choice<TaskStatus>>): Option<string> {
    if s.Some? && s.value != All then Some(StatusChoiceText(s.value)) else None
  }

  function PriorityParam(p: Option<Choice<TaskPriority>>): Option<string> {
    if p.Some? && p.value != All then Some(PriorityChoiceText(p.value)) else None
  }

  function DueParam(d: Option<DueFilter>): Option<string> {
    if d.Some? && d.value != DueAll then Some(DueText(d.value)) else None
  }

  /** `filters.search && filters.search.trim()` decides whether the trimmed search is set. */
  function SearchParam(s: Option<string>): Option<string> {
    if s.Some? && s.value != "" && Trim(s.value) != "" then Some(Trim(s.value)) else None
  }

  function GoalParam(g: Option<string>): Option<string> {
    if Truthy(g) then g else None
  }

  function Pair(k: string, v: Option<string>): Params {
    if v.Some? then [(k, v.value)] else []
  }

  /** The query string the filters are written as: each field at its default is left out, the
      search is trimmed, and the goal goes under `goalId`. */
  function QueryOf(f: TaskFilters): Params {
    Query(StatusParam(f.status), PriorityParam(f.priority), DueParam(f.due), SearchParam(f.search), GoalParam(f.goal_id))
  }

  /** The five parameters in the order they are set. */
  function Query(status: Option<string>, priority: Option<string>, due: Option<string>,
                 search: Option<string>, goal: Option<string>): Params {
    Pair("status", status) + Pair("priority", priority) + Pair("due", due) + Pair("search", search) + Pair("goalId", goal)
  }

  /** The query is empty exactly when no parameter is written. */
  lemma QueryEmpty(status: Option<string>, priority: Option<string>, due: Option<string>,
                   search: Option<string>, goal: Option<string>)
    ensures Query(status, priority, due, search, goal) == []
      <==> status.None? && priority.None? && due.None? && search.None? && goal.None?
  {
    assert |Query(status, priority, due, search, goal)|
      == |Pair("status", status)| + |Pair("priority", priority)| + |Pair("due", due)| + |Pair("search", search)| + |Pair("goalId", goal)|;
  }

  /** The filters -> URL effect's serialiser, one `next.set` after the other. */
  method BuildParams(filters: TaskFilters) returns (next: Params)
    ensures next == QueryOf(filters)
  {
    ghost var a, b, c := Pair("status", StatusParam(filters.status)), Pair("priority", PriorityParam(filters.priority)),
      Pair("due", DueParam(filters.due));
    ghost var d, e := Pair("search", SearchParam(filters.search)), Pair("goalId", GoalParam(filters.goal_id));
    AbsentBefore(filters);
    next := [];
    if filters.status.Some? && filters.status.value != All {
      next := Set(next, "status", StatusChoiceText(filters.status.value));
    }
    assert next == a;
    if filters.priority.Some? && filters.priority.value != All {
      next := Set(next, "priority", PriorityChoiceText(filters.priority.value));
    }
    assert next == a + b;
    if filters.due.Some? && filters.due.value != DueAll {
      next := Set(next, "due", DueText(filters.due.value));
    }
    assert next == a + b + c;
    if filters.search.Some? && filters.search.value != "" && Trim(filters.search.value) != "" {
      next := Set(next, "search", Trim(filters.search.value));
    }
    assert next == a + b + c + d;
    if Truthy(filters.goal_id) {
      next := Set(next, "goalId", filters.goal_id.value);
    }
  }

  /** A one-pair part read under a name: its value under its own name, nothing under another. */
  lemma GetPair(k: string, v: Option<string>, key: string)
    ensures Get(Pair(k, v), key) == if k == key then v else None
  {
    if v.Some? {
      assert Pair(k, v)[1..] == [];
    }
  }

  /** Reading a name from a query with a part in front: that part's value if it has one under the
      name, otherwise the rest's. */
  lemma GetPairThen(k: string, v: Option<string>, rest: Params, key: string)
    ensures Get(Pair(k, v) + rest, key) == if k == key && v.Some? then v else Get(rest, key)
  {
    GetAppend(Pair(k, v), rest, key);
    GetPair(k, v, key);
  }

  /** Each name the serialiser sets is not yet in the query built so far, so `set` appends it. */
  lemma AbsentBefore(f: TaskFilters)
    ensures var a, b, c := Pair("status", StatusParam(f.status)), Pair("priority", PriorityParam(f.priority)),
      Pair("due", DueParam(f.due));
      var d := Pair("search", SearchParam(f.search));
      && Get(a, "priority").None? && Get(a + b, "due").None? && Get(a + b + c, "search").None?
      && Get(a + b + c + d, "goalId").None?
  {
    var a, b, c := Pair("status", StatusParam(f.status)), Pair("priority", PriorityParam(f.priority)),
      Pair("due", DueParam(f.due));
    var d := Pair("search", SearchParam(f.search));
    NamesDistinct();
    GetPair("status", StatusParam(f.status), "priority");
    assert Get(a + b, "due").None? by {
      GetAppend(a, b, "due");
      GetPair("status", StatusParam(f.status), "due");
      GetPair("priority", PriorityParam(f.priority), "due");
    }
    assert Get(a + b + c, "search").None? by {
      GetAppend(a + b, c, "search");
      GetAppend(a, b, "search");
      GetPair("status", StatusParam(f.status), "search");
      GetPair("priority", PriorityParam(f.priority), "search");
      GetPair("due", DueParam(f.due), "search");
    }
    assert Get(a + b + c + d, "goalId").None? by {
      GetAppend(a + b + c, d, "goalId");
      GetAppend(a + b, c, "goalId");
      GetAppend(a, b, "goalId");
      GetPair("status", StatusParam(f.status), "goalId");
      GetPair("priority", PriorityParam(f.priority), "goalId");
      GetPair("due", DueParam(f.due), "goalId");
      GetPair("search", SearchParam(f.search), "goalId");
    }
  }

  /** In a query of five parts with distinct names, each name reads back its own part. */
  lemma {:induction false} GetFiveParts(k1: string, v1: Option<string>, k2: string, v2: Option<string>,
                                        k3: string, v3: Option<string>, k4: string, v4: Option<string>,
                                        k5: string, v5: Option<string>)
    requires k1 != k2 && k1 != k3 && k1 != k4 && k1 != k5
    requires k2 != k3 && k2 != k4 && k2 != k5 && k3 != k4 && k3 != k5 && k4 != k5
    ensures var p := Pair(k1, v1) + Pair(k2, v2) + Pair(k3, v3) + Pair(k4, v4) + Pair(k5, v5);
      && Get(p, k1) == v1 && Get(p, k2) == v2 && Get(p, k3) == v3 && Get(p, k4) == v4 && Get(p, k5) == v5
  {
    var a, b, c, d, e := Pair(k1, v1), Pair(k2, v2), Pair(k3, v3), Pair(k4, v4), Pair(k5, v5);
    assert a + b + c + d + e == a + (b + (c + (d + e)));
    forall key | key in {k1, k2, k3, k4, k5}
      ensures Get(a + (b + (c + (d + e))), key) ==
        if key == k1 then v1 else if key == k2 then v2 else if key == k3 then v3 else if key == k4 then v4 else v5
    {
      GetPairThen(k1, v1, b + (c + (d + e)), key);
      GetPairThen(k2, v2, c + (d + e), key);
      GetPairThen(k3, v3, d + e, key);
      GetPairThen(k4, v4, e, key);
      GetPair(k5, v5, key);
    }
  }

  /** Each parameter of the serialised filters reads back as that field's part. */
  lemma GetQueryOf(f: TaskFilters)
    ensures Get(QueryOf(f), "status") == StatusParam(f.status)
    ensures Get(QueryOf(f), "priority") == PriorityParam(f.priority)
    ensures Get(QueryOf(f), "due") == DueParam(f.due)
    ensures Get(QueryOf(f), "search") == SearchParam(f.search)
    ensures Get(QueryOf(f), "goalId") == GoalParam(f.goal_id)
  {
    NamesDistinct();
    GetFiveParts("status", StatusParam(f.status), "priority", PriorityParam(f.priority), "due", DueParam(f.due),
                 "search", SearchParam(f.search), "goalId", GoalParam(f.goal_id));
  }

  // ---- Round trip ----

  /** The filters with every field at its default written out, the search trimmed and an empty
      goal as `null`: the information the URL keeps. */
  function Normalize(f: TaskFilters): TaskFilters {
    TaskFilters(Some(f.status.GetOr(All)), Some(f.priority.GetOr(All)), Some(f.due.GetOr(DueAll)),
                Some(Trim(f.search.GetOr(""))), GoalParam(f.goal_id))
  }

  lemma StatusRoundTrip(s: Option<Choice<TaskStatus>>)
    ensures StatusFrom(StatusParam(s)) == s.GetOr(All)
  {
    if s.Some? {
      StatusValidatorExact(s.value);
    }
  }

  lemma PriorityRoundTrip(p: Option<Choice<TaskPriority>>)
    ensures PriorityFrom(PriorityParam(p)) == p.GetOr(All)
  {
    if p.Some? {
      PriorityValidatorExact(p.value);
    }
  }

  lemma DueRoundTrip(d: Option<DueFilter>)
    ensures DueFrom(DueParam(d)) == d.GetOr(DueAll)
  {
    if d.Some? {
      DueValidatorExact(d.value);
    }
  }

  /** The search reads back trimmed, and a blank one as `''`. */
  lemma SearchRoundTrip(s: Option<string>)
    ensures SearchParam(s).GetOr("") == Trim(s.GetOr(""))
  {
    TrimEmpty();
  }

  /** Round trip: reading back the written query gives the filters with the search trimmed. */
  lemma RoundTrip(f: TaskFilters)
    ensures Parse(QueryOf(f)) == Normalize(f)
  {
    GetQueryOf(f);
    StatusRoundTrip(f.status);
    PriorityRoundTrip(f.priority);
    DueRoundTrip(f.due);
    SearchRoundTrip(f.search);
  }

  lemma NormalizeIdempotent(f: TaskFilters)
    ensures Normalize(Normalize(f)) == Normalize(f)
  {
    TrimIdempotent(f.search.GetOr(""));
  }

  /** A search and its trimmed form are written alike. */
  lemma SearchParamTrimmed(s: Option<string>)
    ensures SearchParam(Some(Trim(s.GetOr("")))) == SearchParam(s)
  {
    TrimIdempotent(s.GetOr(""));
    TrimEmpty();
  }

  /** Filters that read back alike are written alike. */
  lemma QueryOfNormalize(f: TaskFilters)
    ensures QueryOf(Normalize(f)) == QueryOf(f)
  {
    SearchParamTrimmed(f.search);
    var n := Normalize(f);
    assert StatusParam(n.status) == StatusParam(f.status);
    assert PriorityParam(n.priority) == PriorityParam(f.priority);
    assert DueParam(n.due) == DueParam(f.due);
    assert GoalParam(n.goal_id) == GoalParam(f.goal_id);
  }

  /** Filters that read back alike make the same query, so the list the URL describes is the list
      the page shows. */
  lemma NormalizeSelectsSame(f: TaskFilters, today: string, in7: string)
    ensures TasksApi.QueryFor(Normalize(f), today, in7) == TasksApi.QueryFor(f, today, in7)
  {
    var n := Normalize(f);
    assert TasksApi.SearchPredicates(n.search) == TasksApi.SearchPredicates(f.search) by {
      TrimIdempotent(f.search.GetOr(""));
      TrimEmpty();
    }
    assert TasksApi.StatusPredicates(n.status) == TasksApi.StatusPredicates(f.status);
    assert TasksApi.PriorityPredicates(n.priority) == TasksApi.PriorityPredicates(f.priority);
    assert TasksApi.GoalPredicates(n.goal_id) == TasksApi.GoalPredicates(f.goal_id);
    assert TasksApi.DuePredicates(n.due, today, in7) == TasksApi.DuePredicates(f.due, today, in7);
  }

  /** `hasFilters` */
  predicate HasFilters(f: TaskFilters) {
    || (f.status.Some? && f.status.value != All)
    || (f.priority.Some? && f.priority.value != All)
    || (f.due.Some? && f.due.value != DueAll)
    || (f.search.Some? && Trim(f.search.value) != "")
    || Truthy(f.goal_id)
  }

  /** `hasFilters` is false exactly when every field is at its default, search trimmed; then the
      written query is empty, and only then. */
  lemma HasFiltersIff(f: TaskFilters)
    ensures HasFilters(f) <==> Normalize(f) != Defaults
    ensures HasFilters(f) <==> QueryOf(f) != []
  {
    TrimEmpty();
    QueryEmpty(StatusParam(f.status), PriorityParam(f.priority), DueParam(f.due), SearchParam(f.search), GoalParam(f.goal_id));
  }

  // ---- The skip flag ----

  /** The state the two effects share: the filters, the current query and `skipUrlWriteRef`. */
  datatype Sync = Sync(filters: TaskFilters, url: Params, skip: bool)

  /** The URL -> filters effect as written, and a variant that raises the flag only when the
      parsed filters differ from the current ones, so that the filters -> URL effect is sure to
      run again and lower it. */
  datatype Variant = AsWritten | SkipOnlyOnChange

  /** The flag update of the URL -> filters effect; its `setFilters` takes effect at the next render. */
  function ReadUrlEffect(v: Variant, s: Sync): (r: Sync)
    ensures r.filters == s.filters && r.url == s.url
    ensures v.AsWritten? ==> r.skip
    ensures v.SkipOnlyOnChange? ==> (r.skip <==> Parse(s.url) != s.filters)
  {
    s.(skip := if v.AsWritten? then true else Parse(s.url) != s.filters)
  }

  /** The filters -> URL effect: with the flag up it lowers it and writes nothing; otherwise it
      writes the serialised filters, and only when they differ from the current query. */
  function WriteUrlEffect(s: Sync): (r: Sync)
    ensures r.filters == s.filters && !r.skip
    ensures s.skip ==> r.url == s.url
    ensures !s.skip ==> r.url == QueryOf(s.filters)
    ensures r.url != s.url ==> !s.skip && s.url != QueryOf(s.filters)
  {
    if s.skip then s.(skip := false)
    else if s.url != QueryOf(s.filters) then s.(url := QueryOf(s.filters))
    else s
  }

  /** One commit: the effects whose dependencies changed run in declaration order, then the
      filters the URL effect asked for are rendered. */
  function Commit(v: Variant, s: Sync, urlChanged: bool, filtersChanged: bool): Sync {
    var a := if urlChanged then ReadUrlEffect(v, s) else s;
    var b := if filtersChanged then WriteUrlEffect(a) else a;
    if urlChanged then b.(filters := Parse(s.url)) else b
  }

  /** Commits until a render changes neither the filters nor the query. */
  function Run(v: Variant, prevFilters: TaskFilters, prevUrl: Params, s: Sync, fuel: nat): Sync
    decreases fuel
  {
    if fuel == 0 || (s.filters == prevFilters && s.url == prevUrl) then s
    else Run(v, s.filters, s.url, Commit(v, s, s.url != prevUrl, s.filters != prevFilters), fuel - 1)
  }

  const Fuel: nat := 4

  /** First render: both effects run, the URL one first. */
  function Mount(v: Variant, url: Params): Sync {
    Run(v, Defaults, url, Commit(v, Sync(Defaults, url, false), true, true), Fuel)
  }

  /** The user changes a filter control. */
  function UserSets(v: Variant, s: Sync, f: TaskFilters): Sync {
    Run(v, s.filters, s.url, s.(filters := f), Fuel)
  }

  /** The query string changes from outside (a link, back or forward). */
  function Navigate(v: Variant, s: Sync, url: Params): Sync {
    Run(v, s.filters, s.url, s.(url := url), Fuel)
  }

  /** The URL and the filters describe the same filter, and no write is pending suppression. */
  predicate Agreed(s: Sync) {
    Normalize(Parse(s.url)) == Normalize(s.filters) && !s.skip
  }

  const TodoOnly := Defaults.(status := Some(Only(Todo)))
  const TodoHigh := TodoOnly.(priority := Some(Only(High)))

  /** As written, a URL write raises the flag again, and since the filters it reads back are the
      ones already shown, the filters -> URL effect does not run to lower it: the next change the
      user makes is not written to the URL. */
  lemma SecondChangeNotWritten()
    ensures var s0 := Mount(AsWritten, []);
      var s1 := UserSets(AsWritten, s0, TodoOnly);
      var s2 := UserSets(AsWritten, s1, TodoHigh);
      && s0 == Sync(Defaults, [], false)
      && s1 == Sync(TodoOnly, [("status", "todo")], true)
      && s2 == Sync(TodoHigh, [("status", "todo")], false)
      && !Agreed(s2)
  {
    TrimEmpty();
    RoundTrip(Defaults);
    assert QueryOf(Defaults) == [];
    assert QueryOf(TodoOnly) == [("status", "todo")];
    RoundTrip(TodoOnly);
    assert Normalize(TodoOnly) == TodoOnly;
    assert Normalize(TodoHigh) == TodoHigh;
  }

  lemma ParseQueryOf(f: TaskFilters)
    ensures Normalize(Parse(QueryOf(f))) == Normalize(f)
  {
    RoundTrip(f);
    NormalizeIdempotent(f);
  }

  lemma RunDone(v: Variant, prevFilters: TaskFilters, prevUrl: Params, s: Sync, fuel: nat)
    requires s.filters == prevFilters && s.url == prevUrl
    ensures Run(v, prevFilters, prevUrl, s, fuel) == s
  {
  }

  lemma RunMore(v: Variant, prevFilters: TaskFilters, prevUrl: Params, s: Sync, fuel: nat)
    requires fuel > 0 && !(s.filters == prevFilters && s.url == prevUrl)
    ensures Run(v, prevFilters, prevUrl, s, fuel)
         == Run(v, s.filters, s.url, Commit(v, s, s.url != prevUrl, s.filters != prevFilters), fuel - 1)
  {
  }

  /** After the corrected URL effect reads a query, one more commit at most settles it. */
  lemma SettlesAfterRead(prevFilters: TaskFilters, url: Params, s: Sync, fuel: nat)
    requires fuel >= 2 && s.url == url && s.filters == prevFilters && !s.skip
    ensures var r := Run(SkipOnlyOnChange, s.filters, s.url, Commit(SkipOnlyOnChange, s, true, false), fuel - 1);
      r == Sync(Parse(url), url, false)
  {
    var v := SkipOnlyOnChange;
    var g := Parse(url);
    var s1 := Commit(v, s, true, false);
    assert s1 == Sync(g, url, g != prevFilters);
    if g == prevFilters {
      RunDone(v, s.filters, s.url, s1, fuel - 1);
    } else {
      RunMore(v, s.filters, s.url, s1, fuel - 1);
      var s2 := Commit(v, s1, false, true);
      assert s2 == Sync(g, url, false);
      RunDone(v, s1.filters, s1.url, s2, fuel - 2);
    }
  }

  /** With the corrected flag, mounting on any URL leaves the URL and the filters agreed. */
  lemma MountAgrees(url: Params)
    ensures Agreed(Mount(SkipOnlyOnChange, url))
  {
    var v := SkipOnlyOnChange;
    var g := Parse(url);
    var r0 := Sync(Defaults, url, false);
    var s1 := Commit(v, r0, true, true);
    TrimEmpty();
    assert QueryOf(Defaults) == [];
    if g == Defaults {
      if url == [] {
        assert s1 == r0;
        RunDone(v, Defaults, url, s1, Fuel);
      } else {
        assert s1 == Sync(Defaults, [], false);
        RunMore(v, Defaults, url, s1, Fuel);
        assert Parse([]) == Defaults;
        SettlesAfterRead(Defaults, [], s1, Fuel);
      }
    } else {
      assert s1 == Sync(g, url, false);
      RunMore(v, Defaults, url, s1, Fuel);
      var s2 := Commit(v, s1, false, true);
      if url == QueryOf(g) {
        assert s2 == s1;
        RunDone(v, g, url, s2, Fuel - 1);
      } else {
        assert s2 == Sync(g, QueryOf(g), false);
        RunMore(v, g, url, s2, Fuel - 1);
        SettlesAfterRead(g, QueryOf(g), s2, Fuel - 1);
        ParseQueryOf(g);
      }
    }
  }

  /** With the corrected flag, a change the user makes keeps the URL and the filters agreed. */
  lemma UserSetsKeepsAgreement(s: Sync, f: TaskFilters)
    requires Agreed(s)
    ensures Agreed(UserSets(SkipOnlyOnChange, s, f))
  {
    var v := SkipOnlyOnChange;
    var r := s.(filters := f);
    if f == s.filters {
      RunDone(v, s.filters, s.url, r, Fuel);
    } else {
      RunMore(v, s.filters, s.url, r, Fuel);
      var s1 := Commit(v, r, false, true);
      assert s1 == Sync(f, QueryOf(f), false);
      ParseQueryOf(f);
      if s.url == QueryOf(f) {
        RunDone(v, f, s.url, s1, Fuel - 1);
      } else {
        RunMore(v, f, s.url, s1, Fuel - 1);
        SettlesAfterRead(f, QueryOf(f), s1, Fuel - 1);
      }
    }
  }

  /** With the corrected flag, an outside change of the query string leaves the URL and the
      filters agreed, and the query is not rewritten. */
  lemma NavigateKeepsAgreement(s: Sync, url: Params)
    requires Agreed(s)
    ensures Agreed(Navigate(SkipOnlyOnChange, s, url))
    ensures Navigate(SkipOnlyOnChange, s, url).url == url
  {
    var v := SkipOnlyOnChange;
    var r := s.(url := url);
    if url == s.url {
      RunDone(v, s.filters, s.url, r, Fuel);
    } else {
      RunMore(v, s.filters, s.url, r, Fuel);
      SettlesAfterRead(s.filters, url, r, Fuel);
      NormalizeIdempotent(Parse(url));
    }
  }

  // ---- The page's filter state ----

  /** The page's filters, its query string and `skipUrlWriteRef`, acted on by the two effects
      and the filter controls. */
  class FilterUrlSync {
    var filters: TaskFilters
    var url: Params
    var skip: bool

    function Snapshot(): Sync
      reads this
    {
      Sync(filters, url, skip)
    }

    constructor (url0: Params)
      ensures Snapshot() == Sync(Defaults, url0, false)
    {
      filters := Defaults;
      url := url0;
      skip := false;
    }

    /** The URL -> filters effect: raises the flag and sets the filters read from the query. */
    method ReadUrl()
      modifies this
      ensures Snapshot() == ReadUrlEffect(AsWritten, old(Snapshot())).(filters := Parse(old(url)))
      ensures skip && url == old(url) && filters == Parse(url)
    {
      skip := true;
      filters := Parse(url);
    }

    /** The filters -> URL effect. After `ReadUrl` it writes nothing and lowers the flag;
        otherwise it writes the serialised filters when they differ from the current query. */
    method WriteUrl() returns (wrote: bool)
      modifies this
      ensures Snapshot() == WriteUrlEffect(old(Snapshot()))
      ensures wrote <==> url != old(url)
      ensures old(skip) ==> !wrote && !skip
    {
      if skip {
        skip := false;
        return false;
      }
      var next := BuildParams(filters);
      if url != next {
        url := next;
        wrote := true;
      } else {
        wrote := false;
      }
    }

    /** A filter control changes the filters. */
    method SetFilters(f: TaskFilters)
      modifies this
      ensures Snapshot() == old(Snapshot()).(filters := f)
    {
      filters := f;
    }

    /** The Clear button. */
    method ClearFilters()
      modifies this
      ensures Snapshot() == old(Snapshot()).(filters := Defaults)
      ensures !HasFilters(filters)
    {
      filters := Defaults;
      TrimEmpty();
    }
  }
}
