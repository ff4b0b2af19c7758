/** The dashboard's aggregation over the signed-in user's tasks and goals: status and priority
    counts, completion rate, the overdue / due-today / due-this-week counts, the seven-day due
    histogram, per-goal progress sorted by percentage, and the focus list. "Today" and the days
    after it are inputs, as `YYYY-MM-DD` strings. */
module Dashboard {
  import opened Wrappers
  import opened Text
  import opened Records
  import opened JsRecord
  import opened GoalTally
  import Seqs
  import Percent

  /** The columns the dashboard selects from `tasks`. */
  datatype TaskRow = TaskRow(
    id: string,
    title: string,
    status: TaskStatus,
    priority: TaskPriority,
    due_date: Option<string>,
    goal_id: Option<string>,
    created_at: string)

  /** The columns the dashboard selects from `goals`. */
  datatype GoalRow = GoalRow(id: string, name: string)

  /** `percent(done, total)`: 0 for no tasks, otherwise `Math.round(done / total * 100)`. */
  function DashPercent(done: nat, total: nat): (p: int)
    ensures total == 0 ==> p == 0
    ensures total > 0 ==> 2 * total * p - total <= 200 * done < 2 * total * p + total
    ensures done <= total ==> 0 <= p <= 100
  {
    if total == 0 then 0
    else if done <= total then
      Percent.RoundedPercentRange(done, total);
      Percent.RoundedPercent(done, total)
    else Percent.RoundedPercent(done, total)
  }

  // ---- The filters the counts use ----

  function WithStatus(s: TaskStatus): TaskRow -> bool {
    (t: TaskRow) => t.status == s
  }

  function WithPriority(p: TaskPriority): TaskRow -> bool {
    (t: TaskRow) => t.priority == p
  }

  /** `t.due_date && t.due_date < today && t.status !== 'completed'` */
  function OverdueOn(today: string): TaskRow -> bool {
    (t: TaskRow) => Truthy(t.due_date) && LexLess(t.due_date.value, today) && t.status != Completed
  }

  /** `t.due_date === day` */
  function DueOn(day: string): TaskRow -> bool {
    (t: TaskRow) => t.due_date == Some(day)
  }

  /** `t.due_date && t.due_date >= today && t.due_date <= in7` */
  function DueWithin(today: string, in7: string): TaskRow -> bool {
    (t: TaskRow) => Truthy(t.due_date) && LexLe(today, t.due_date.value) && LexLe(t.due_date.value, in7)
  }

  /** The focus filter: due on or before today and not completed, or due today. */
  function InFocus(today: string): TaskRow -> bool {
    (t: TaskRow) => (Truthy(t.due_date) && LexLe(t.due_date.value, today) && t.status != Completed) || t.due_date == Some(today)
  }

  // ---- Upcoming ----

  /** One bar of the upcoming chart. */
  datatype Bar = Bar(day: string, count: nat)

  /** `day.slice(5)`: `MM-DD` of a `YYYY-MM-DD` day. */
  function Slice5(day: string): string {
    if |day| >= 5 then day[5..] else ""
  }

  /** The bars for the given days, in order. */
  function Upcoming(tasks: seq<TaskRow>, days: seq<string>): (r: seq<Bar>)
    ensures |r| == |days|
    ensures forall i :: 0 <= i < |days| ==> r[i] == Bar(Slice5(days[i]), Seqs.Count(tasks, DueOn(days[i])))
  {
    if days == [] then []
    else [Bar(Slice5(days[0]), Seqs.Count(tasks, DueOn(days[0])))] + Upcoming(tasks, days[1..])
  }

  function BarTotal(bars: seq<Bar>): nat {
    if bars == [] then 0 else bars[0].count + BarTotal(bars[1..])
  }

  function DueIn(days: seq<string>): TaskRow -> bool {
    (t: TaskRow) => t.due_date.Some? && t.due_date.value in days
  }

  /** Distinct days count each task at most once: the bars add up to the tasks due on one of them. */
  lemma {:induction false} BarTotalCountsDays(tasks: seq<TaskRow>, days: seq<string>)
    requires Seqs.Distinct(days)
    ensures BarTotal(Upcoming(tasks, days)) == Seqs.Count(tasks, DueIn(days))
  {
    if days != [] {
      var rest := days[1..];
      assert Seqs.Distinct(rest) by {
        forall i, j | 0 <= i < j < |rest| ensures rest[i] != rest[j] {
          assert rest[i] == days[i + 1] && rest[j] == days[j + 1];
        }
      }
      assert days[0] !in rest by {
        forall i | 0 <= i < |rest| ensures rest[i] != days[0] {
          assert rest[i] == days[i + 1];
        }
      }
      BarTotalCountsDays(tasks, rest);
      var bars := Upcoming(tasks, days);
      assert bars[1..] == Upcoming(tasks, rest);
      assert BarTotal(bars) == Seqs.Count(tasks, DueOn(days[0])) + BarTotal(Upcoming(tasks, rest));
      assert forall t :: DueIn(days)(t) == (DueOn(days[0])(t) || DueIn(rest)(t)) by {
        assert days == [days[0]] + rest;
      }
      Seqs.CountDisjointUnion(tasks, DueOn(days[0]), DueIn(rest), DueIn(days));
    } else {
      Seqs.CountNone(tasks, DueIn(days));
    }
  }

  /** Seven distinct non-empty days from today to today+7 give a chart of seven bars that together
      count no more tasks than `dueNext7`. */
  lemma UpcomingWithinWeek(tasks: seq<TaskRow>, today: string, in7: string, days: seq<string>)
    requires |days| == 7 && Seqs.Distinct(days)
    requires forall i :: 0 <= i < |days| ==> days[i] != "" && LexLe(today, days[i]) && LexLe(days[i], in7)
    ensures |Upcoming(tasks, days)| == 7
    ensures BarTotal(Upcoming(tasks, days)) <= Seqs.Count(tasks, DueWithin(today, in7))
  {
    BarTotalCountsDays(tasks, days);
    Seqs.CountMonotonic(tasks, DueIn(days), DueWithin(today, in7));
  }

  // ---- goalAgg and goalsMap ----

  /** The goal column and status of each task, which the tally reads. */
  function ProgressRows(tasks: seq<TaskRow>): (rows: seq<ProgressRow>)
    ensures |rows| == |tasks|
  {
    seq(|tasks|, i requires 0 <= i < |tasks| => ProgressRow(tasks[i].goal_id, tasks[i].status))
  }

  /** The `goalAgg` loop. */
  method AggregateGoals(tasks: seq<TaskRow>) returns (agg: Rec<Counts>)
    ensures agg == Tally(ProgressRows(tasks))
  {
    ghost var rows := ProgressRows(tasks);
    agg := Empty();
    var i := 0;
    while i < |tasks|
      invariant 0 <= i <= |tasks|
      invariant agg == Tally(rows[..i])
    {
      var t := tasks[i];
      ghost var agg0 := agg;
      assert rows[i] == ProgressRow(t.goal_id, t.status);
      assert rows[..i + 1][..i] == rows[..i];
      assert Tally(rows[..i + 1]) == Step(agg0, rows[i]);
      if Truthy(t.goal_id) {
        var g := t.goal_id.value;
        if g !in agg.entries {
          agg := Put(agg, g, Counts(0, 0));
        }
        agg := Put(agg, g, agg.entries[g].(total := agg.entries[g].total + 1));
        if t.status == Completed {
          agg := Put(agg, g, agg.entries[g].(completed := agg.entries[g].completed + 1));
        }
        StepByPuts(agg0, rows[i]);
      }
      i := i + 1;
    }
    assert rows[..|tasks|] == rows;
  }

  /** The record `goalsMap` ends up as: each goal's name under its id, later goals overwriting. */
  function NamesOf(goals: seq<GoalRow>): (r: Rec<string>)
    ensures Valid(r)
  {
    if goals == [] then Empty()
    else Put(NamesOf(goals[..|goals| - 1]), goals[|goals| - 1].id, goals[|goals| - 1].name)
  }

  /** The `goalsMap` loop. */
  method BuildGoalNames(goals: seq<GoalRow>) returns (names: Rec<string>)
    ensures names == NamesOf(goals)
  {
    names := Empty();
    for i := 0 to |goals|
      invariant names == NamesOf(goals[..i])
    {
      assert goals[..i + 1][..i] == goals[..i];
      names := Put(names, goals[i].id, goals[i].name);
    }
    assert goals[..|goals|] == goals;
  }

  /** An id has a name exactly when some goal has that id. */
  lemma {:induction false} NamesOfLookup(goals: seq<GoalRow>, id: string)
    ensures id in NamesOf(goals).entries <==> exists i :: 0 <= i < |goals| && goals[i].id == id
  {
    if goals != [] {
      var init := goals[..|goals| - 1];
      NamesOfLookup(init, id);
      if exists i :: 0 <= i < |init| && init[i].id == id {
        var i :| 0 <= i < |init| && init[i].id == id;
        assert goals[i] == init[i];
      }
      if exists i :: 0 <= i < |goals| && goals[i].id == id {
        var i :| 0 <= i < |goals| && goals[i].id == id;
        if i < |init| {
          assert init[i] == goals[i];
        }
      }
    }
  }

  /** The name under an id is that of the last goal with that id. */
  lemma {:induction false} NamesOfLast(goals: seq<GoalRow>, id: string, i: nat)
    requires i < |goals| && goals[i].id == id
    requires forall j :: i < j < |goals| ==> goals[j].id != id
    ensures id in NamesOf(goals).entries && NamesOf(goals).entries[id] == goals[i].name
  {
    var init, last := goals[..|goals| - 1], goals[|goals| - 1];
    if i < |goals| - 1 {
      assert init[i] == goals[i];
      assert forall j :: i < j < |init| ==> init[j].id != id by {
        forall j | i < j < |init| ensures init[j].id != id {
          assert init[j] == goals[j];
        }
      }
      NamesOfLast(init, id, i);
      assert last.id != id;
    }
  }

  // ---- goalProgress ----

  datatype GoalItem = GoalItem(goalId: string, name: string, total: nat, completed: nat, pct: int)

  const UnknownGoal := "Unknown goal"

  /** `goalsMap[goalId] ?? 'Unknown goal'` */
  function NameOr(names: Rec<string>, id: string): (n: string)
    ensures id !in names.entries ==> n == UnknownGoal
    ensures id in names.entries ==> n == names.entries[id]
  {
    if id in names.entries then names.entries[id] else UnknownGoal
  }

  /** `Object.entries(goalAgg).map(...)`, in key order. */
  function Items(agg: Rec<Counts>, names: Rec<string>): (r: seq<GoalItem>)
    requires Valid(agg)
    ensures |r| == |agg.keys|
  {
    seq(|agg.keys|, i requires 0 <= i < |agg.keys| =>
      var k := agg.keys[i];
      var c := agg.entries[k];
      GoalItem(k, NameOr(names, k), c.total, c.completed, DashPercent(c.completed, c.total)))
  }

  /** The comparator `b.pct - a.pct` lets `a` stay in front of `b`. */
  predicate PctFirst(a: GoalItem, b: GoalItem) {
    a.pct >= b.pct
  }

  lemma PctFirstPreorder()
    ensures Seqs.TotalPreorder(PctFirst)
  {
  }

  /** `goalProgress`: the items sorted by non-increasing percentage. */
  function GoalProgressOf(agg: Rec<Counts>, names: Rec<string>): seq<GoalItem>
    requires Valid(agg)
  {
    PctFirstPreorder();
    Seqs.SortBy(Items(agg, names), PctFirst)
  }

  // ---- focus ----

  /** `t.due_date ?? '9999-12-31'` */
  function DueKey(t: TaskRow): string {
    t.due_date.GetOr("9999-12-31")
  }

  /** `ad.localeCompare(bd)` lets `a` stay in front of `b`; for `YYYY-MM-DD` dates it is the
      character order. */
  predicate DueFirst(a: TaskRow, b: TaskRow) {
    LexLe(DueKey(a), DueKey(b))
  }

  lemma DueFirstPreorder()
    ensures Seqs.TotalPreorder(DueFirst)
  {
    forall a: TaskRow, b: TaskRow ensures DueFirst(a, b) || DueFirst(b, a) {
      LexLeTotal(DueKey(a), DueKey(b));
    }
    forall a: TaskRow, b: TaskRow, c: TaskRow | DueFirst(a, b) && DueFirst(b, c) ensures DueFirst(a, c) {
      LexLeTransitive(DueKey(a), DueKey(b), DueKey(c));
    }
  }

  /** The focus candidates sorted by due date, before the cut to six. */
  function FocusSorted(tasks: seq<TaskRow>, today: string): seq<TaskRow> {
    DueFirstPreorder();
    Seqs.SortBy(Seqs.Filter(tasks, InFocus(today)), DueFirst)
  }

  /** `focus` */
  function FocusOf(tasks: seq<TaskRow>, today: string): seq<TaskRow> {
    Seqs.Take(FocusSorted(tasks, today), 6)
  }

  // ---- The whole computation ----

  datatype Summary = Summary(
    total: nat, completed: nat, inProgress: nat, todo: nat,
    overdue: nat, dueToday: nat, dueNext7: nat, completionRate: int,
    low: nat, medium: nat, high: nat,
    upcoming: seq<Bar>, goalProgress: seq<GoalItem>, focus: seq<TaskRow>)

  /** What the `computed` block produces; `days` are today and the six days after it, `in7` the
      seventh. */
  function SummaryOf(tasks: seq<TaskRow>, goals: seq<GoalRow>, today: string, in7: string, days: seq<string>): Summary {
    var completed := Seqs.Count(tasks, WithStatus(Completed));
    Summary(
      |tasks|, completed, Seqs.Count(tasks, WithStatus(InProgress)), Seqs.Count(tasks, WithStatus(Todo)),
      Seqs.Count(tasks, OverdueOn(today)), Seqs.Count(tasks, DueOn(today)), Seqs.Count(tasks, DueWithin(today, in7)),
      DashPercent(completed, |tasks|),
      Seqs.Count(tasks, WithPriority(Low)), Seqs.Count(tasks, WithPriority(Medium)), Seqs.Count(tasks, WithPriority(High)),
      Upcoming(tasks, days),
      GoalProgressOf(Tally(ProgressRows(tasks)), NamesOf(goals)),
      FocusOf(tasks, today))
  }

  /** The `computed` block, with its two loops. */
  method ComputeSummary(tasks: seq<TaskRow>, goals: seq<GoalRow>, today: string, in7: string, days: seq<string>)
    returns (s: Summary)
    ensures s == SummaryOf(tasks, goals, today, in7, days)
  {
    var completed := Seqs.Count(tasks, WithStatus(Completed));
    var goalAgg := AggregateGoals(tasks);
    var goalsMap := BuildGoalNames(goals);
    s := Summary(
      |tasks|, completed, Seqs.Count(tasks, WithStatus(InProgress)), Seqs.Count(tasks, WithStatus(Todo)),
      Seqs.Count(tasks, OverdueOn(today)), Seqs.Count(tasks, DueOn(today)), Seqs.Count(tasks, DueWithin(today, in7)),
      DashPercent(completed, |tasks|),
      Seqs.Count(tasks, WithPriority(Low)), Seqs.Count(tasks, WithPriority(Medium)), Seqs.Count(tasks, WithPriority(High)),
      Upcoming(tasks, days),
      GoalProgressOf(goalAgg, goalsMap),
      FocusOf(tasks, today));
  }

  // ---- Properties ----

  /** Every task has exactly one status and one priority, so each split adds up to the total. */
  lemma CountsPartition(tasks: seq<TaskRow>, today: string, in7: string, goals: seq<GoalRow>, days: seq<string>)
    ensures var s := SummaryOf(tasks, goals, today, in7, days);
      && s.todo + s.inProgress + s.completed == s.total
      && s.low + s.medium + s.high == s.total
  {
    Seqs.CountPartition3(tasks, WithStatus(Todo), WithStatus(InProgress), WithStatus(Completed));
    Seqs.CountPartition3(tasks, WithPriority(Low), WithPriority(Medium), WithPriority(High));
  }

  /** The completion rate is a percentage, and 0 without tasks. */
  lemma CompletionRateRange(tasks: seq<TaskRow>, today: string, in7: string, goals: seq<GoalRow>, days: seq<string>)
    ensures var s := SummaryOf(tasks, goals, today, in7, days);
      && 0 <= s.completionRate <= 100
      && (tasks == [] ==> s.completionRate == 0)
      && (s.completed == s.total ==> s.completionRate == (if tasks == [] then 0 else 100))
  {
    var completed := Seqs.Count(tasks, WithStatus(Completed));
    if tasks != [] && completed == |tasks| {
      Percent.RoundedPercentRange(completed, |tasks|);
    }
  }

  /** A completed task is never overdue: overdue tasks are among the ones not completed. */
  lemma OverdueNotCompleted(tasks: seq<TaskRow>, today: string)
    ensures Seqs.Count(tasks, OverdueOn(today)) + Seqs.Count(tasks, WithStatus(Completed)) <= |tasks|
  {
    var either := (t: TaskRow) => OverdueOn(today)(t) || WithStatus(Completed)(t);
    Seqs.CountDisjointUnion(tasks, OverdueOn(today), WithStatus(Completed), either);
  }

  /** The tally facts in the dashboard's terms: one entry per goal id that occurs among the tasks,
      each with `1 <= total` and `completed <= total`, and the totals adding up to the tasks that
      have a goal. */
  lemma GoalAggFacts(tasks: seq<TaskRow>)
    ensures var agg := Tally(ProgressRows(tasks));
      && (forall g :: g in agg.entries ==> 1 <= agg.entries[g].total && agg.entries[g].completed <= agg.entries[g].total)
      && SumTotals(agg.keys, agg.entries) == Seqs.Count(tasks, (t: TaskRow) => Truthy(t.goal_id))
  {
    EntriesBounded(ProgressRows(tasks));
    TallySum(ProgressRows(tasks));
    CountWithGoal(tasks);
  }

  lemma {:induction false} CountWithGoal(tasks: seq<TaskRow>)
    ensures RowsWithGoal(ProgressRows(tasks)) == Seqs.Count(tasks, (t: TaskRow) => Truthy(t.goal_id))
  {
    if tasks != [] {
      var rows := ProgressRows(tasks);
      assert rows[0] == ProgressRow(tasks[0].goal_id, tasks[0].status);
      assert rows[1..] == ProgressRows(tasks[1..]);
      CountWithGoal(tasks[1..]);
    }
  }

  /** `goalProgress` lists each goal of the tally once, sorted by non-increasing percentage; each
      entry has a percentage in [0, 100], at least one task, no more completed than total, and the
      goal's name, or "Unknown goal" for an id no goal row has. */
  lemma GoalProgressFacts(tasks: seq<TaskRow>, goals: seq<GoalRow>)
    ensures var agg, names := Tally(ProgressRows(tasks)), NamesOf(goals);
      var gp := GoalProgressOf(agg, names);
      && |gp| == |agg.keys|
      && multiset(gp) == multiset(Items(agg, names))
      && (forall i, j :: 0 <= i < j < |gp| ==> gp[i].pct >= gp[j].pct)
      && (forall it :: it in gp ==>
            && it.goalId in agg.entries
            && it.total == agg.entries[it.goalId].total && it.completed == agg.entries[it.goalId].completed
            && it.pct == DashPercent(it.completed, it.total)
            && 1 <= it.total && it.completed <= it.total && 0 <= it.pct <= 100
            && it.name == (if it.goalId in names.entries then names.entries[it.goalId] else UnknownGoal))
      && (forall i, j :: 0 <= i < j < |gp| ==> gp[i].goalId != gp[j].goalId)
  {
    EntriesBounded(ProgressRows(tasks));
    SortedItemsFacts(Tally(ProgressRows(tasks)), NamesOf(goals));
  }

  /** The same facts for any well-formed aggregate whose entries are bounded. */
  lemma SortedItemsFacts(agg: Rec<Counts>, names: Rec<string>)
    requires Valid(agg)
    requires forall g :: g in agg.entries ==> 1 <= agg.entries[g].total && agg.entries[g].completed <= agg.entries[g].total
    ensures var gp := GoalProgressOf(agg, names);
      && |gp| == |agg.keys|
      && multiset(gp) == multiset(Items(agg, names))
      && (forall i, j :: 0 <= i < j < |gp| ==> gp[i].pct >= gp[j].pct)
      && (forall it :: it in gp ==>
            && it.goalId in agg.entries
            && it.total == agg.entries[it.goalId].total && it.completed == agg.entries[it.goalId].completed
            && it.pct == DashPercent(it.completed, it.total)
            && 1 <= it.total && it.completed <= it.total && 0 <= it.pct <= 100
            && it.name == (if it.goalId in names.entries then names.entries[it.goalId] else UnknownGoal))
      && (forall i, j :: 0 <= i < j < |gp| ==> gp[i].goalId != gp[j].goalId)
  {
    var items := Items(agg, names);
    var gp := GoalProgressOf(agg, names);
    forall it | it in gp
      ensures it.goalId in agg.entries
      ensures it.total == agg.entries[it.goalId].total && it.completed == agg.entries[it.goalId].completed
      ensures it.pct == DashPercent(it.completed, it.total)
      ensures 1 <= it.total && it.completed <= it.total && 0 <= it.pct <= 100
      ensures it.name == (if it.goalId in names.entries then names.entries[it.goalId] else UnknownGoal)
    {
      assert it in multiset(gp);
      assert it in multiset(items);
      var i :| 0 <= i < |items| && items[i] == it;
      assert agg.keys[i] in agg.entries;
    }
    ItemsDistinct(agg, names);
    Seqs.DistinctPermutation(gp, items);
    forall i, j | 0 <= i < j < |gp| ensures gp[i].goalId != gp[j].goalId {
      assert gp[i] in gp && gp[j] in gp;
    }
  }

  /** Each item carries its own key, so the items of a well-formed aggregate are all different. */
  lemma ItemsDistinct(agg: Rec<Counts>, names: Rec<string>)
    requires Valid(agg)
    ensures Seqs.Distinct(Items(agg, names))
  {
    var items := Items(agg, names);
    forall i, j | 0 <= i < j < |items| ensures items[i] != items[j] {
      assert items[i].goalId == agg.keys[i] && items[j].goalId == agg.keys[j];
    }
  }

  /** `focus` holds at most six tasks, all from the list, each overdue-or-due-today (so never one
      without a due date), sorted by due date; it is the start of the sorted candidates, and it is
      short only when there are fewer than six candidates. */
  lemma FocusFacts(tasks: seq<TaskRow>, today: string)
    ensures var f := FocusOf(tasks, today);
      && |f| <= 6
      && f == FocusSorted(tasks, today)[..|f|]
      && (|f| < 6 ==> |f| == Seqs.Count(tasks, InFocus(today)))
      && (forall t :: t in f ==>
            (t in tasks && t.due_date.Some?
             && ((LexLe(t.due_date.value, today) && t.status != Completed) || t.due_date.value == today)))
      && (forall i, j :: 0 <= i < j < |f| ==> LexLe(f[i].due_date.value, f[j].due_date.value))
  {
    var cands := Seqs.Filter(tasks, InFocus(today));
    var sorted := FocusSorted(tasks, today);
    var f := FocusOf(tasks, today);
    Seqs.FilterMembers(tasks, InFocus(today));
    forall t | t in f
      ensures t in tasks && t.due_date.Some?
      ensures (LexLe(t.due_date.value, today) && t.status != Completed) || t.due_date.value == today
    {
      assert t in sorted;
      assert t in multiset(sorted);
      assert t in multiset(cands);
      assert t in cands;
    }
    forall i, j | 0 <= i < j < |f| ensures LexLe(f[i].due_date.value, f[j].due_date.value) {
      assert f[i] == sorted[i] && f[j] == sorted[j];
      assert f[i] in f && f[j] in f;
      assert DueFirst(sorted[i], sorted[j]);
    }
  }

  /** The comparator ties two tasks exactly when they have the same due key. */
  lemma DueFirstTies(x: TaskRow, y: TaskRow)
    ensures Seqs.Tied(DueFirst, x)(y) <==> DueKey(y) == DueKey(x)
  {
    assert Seqs.Tied(DueFirst, x)(y) == (DueFirst(x, y) && DueFirst(y, x));
    LexLeIff(DueKey(x), DueKey(y));
    LexLeIff(DueKey(y), DueKey(x));
    if LexLess(DueKey(x), DueKey(y)) {
      LexLessAsymmetric(DueKey(x), DueKey(y));
    }
  }

  /** The sort keeps tasks with the same due key in the order they were fetched, so where the cut
      to six splits such a group, the focus holds the first ones fetched. */
  lemma FocusKeepsFetchOrderOnTies(tasks: seq<TaskRow>, today: string, x: TaskRow)
    ensures var cands, tied := Seqs.Filter(tasks, InFocus(today)), Seqs.Tied(DueFirst, x);
      var inFocus := Seqs.Filter(FocusOf(tasks, today), tied);
      && Seqs.Filter(FocusSorted(tasks, today), tied) == Seqs.Filter(cands, tied)
      && |inFocus| <= |Seqs.Filter(cands, tied)|
      && inFocus == Seqs.Filter(cands, tied)[..|inFocus|]
  {
    var cands := Seqs.Filter(tasks, InFocus(today));
    var sorted := FocusSorted(tasks, today);
    DueFirstPreorder();
    Seqs.SortByStable(cands, DueFirst, x);
    Seqs.FilterPrefix(sorted, |FocusOf(tasks, today)|, Seqs.Tied(DueFirst, x));
  }

  /** Goals with the same percentage keep the order of their keys in the aggregate. */
  lemma GoalProgressKeepsKeyOrderOnTies(agg: Rec<Counts>, names: Rec<string>, x: GoalItem)
    requires Valid(agg)
    ensures Seqs.Filter(GoalProgressOf(agg, names), Seqs.Tied(PctFirst, x))
      == Seqs.Filter(Items(agg, names), Seqs.Tied(PctFirst, x))
  {
    PctFirstPreorder();
    Seqs.SortByStable(Items(agg, names), PctFirst, x);
  }
}
