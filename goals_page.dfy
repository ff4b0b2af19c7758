/** The goals page: its percentage helper, the copy of the progress record into the rendering map,
    the per-row progress with its default, the summary over the listed goals, and the edit that
    hands the dialog's `cleaned` record to `updateGoal`. */
module GoalsPage {
  import opened Wrappers
  import opened Records
  import opened JsRecord
  import GoalTally
  import Percent
  import Text
  import GoalDialog
  import GoalsApi

  /** `percent(completed, total)`: 0 for a non-positive total, otherwise
      `Math.round(completed / total * 100)`. */
  function GoalPercent(completed: int, total: int): (p: int)
    ensures total <= 0 ==> p == 0
    ensures total > 0 ==> 2 * total * p - total <= 200 * completed < 2 * total * p + total
    ensures 0 <= completed <= total ==> 0 <= p <= 100
  {
    if total <= 0 then 0
    else if 0 <= completed <= total then
      Percent.RoundedPercentRange(completed, total);
      Percent.RoundedPercent(completed, total)
    else Percent.RoundedPercent(completed, total)
  }

  /** The rendering map: `{ total, completed }` per goal id. */
  type ProgressMap = Rec<GoalTally.Counts>

  /** The copy in `load`: one entry per key of the fetched record, in the same order, with its
      `total` and `completed`. */
  method CopyProgress(prog: Rec<GoalProgress>) returns (m: ProgressMap)
    requires Valid(prog)
    ensures Valid(m) && m.keys == prog.keys && m.entries.Keys == prog.entries.Keys
    ensures forall k :: k in m.entries ==>
      m.entries[k] == GoalTally.Counts(prog.entries[k].total, prog.entries[k].completed)
  {
    m := Empty();
    for i := 0 to |prog.keys|
      invariant Valid(m) && m.keys == prog.keys[..i]
      invariant forall k :: k in m.entries ==>
        m.entries[k] == GoalTally.Counts(prog.entries[k].total, prog.entries[k].completed)
    {
      var k := prog.keys[i];
      assert k !in prog.keys[..i] by {
        forall j | 0 <= j < i ensures prog.keys[..i][j] != k {
          assert prog.keys[..i][j] == prog.keys[j];
        }
      }
      assert prog.keys[..i + 1] == prog.keys[..i] + [k];
      m := Put(m, k, GoalTally.Counts(prog.entries[k].total, prog.entries[k].completed));
    }
    assert prog.keys[..|prog.keys|] == prog.keys;
  }

  /** `progressMap[id] ?? { total: 0, completed: 0 }` */
  function ProgressOf(m: ProgressMap, id: string): GoalTally.Counts {
    if id in m.entries then m.entries[id] else GoalTally.Counts(0, 0)
  }

  /** What one goal card shows: its counts and percentage; a goal without an entry shows 0/0 and
      0%, and an entry with no more completed than total tasks shows a percentage in [0, 100]. */
  function RowProgress(m: ProgressMap, id: string): (r: (nat, nat, int))
    ensures id !in m.entries ==> r == (0, 0, 0)
    ensures id in m.entries ==> r.0 == m.entries[id].total && r.1 == m.entries[id].completed
    ensures r.1 <= r.0 ==> 0 <= r.2 <= 100
  {
    var p := ProgressOf(m, id);
    (p.total, p.completed, GoalPercent(p.completed, p.total))
  }

  // ---- summary ----

  datatype GoalsSummary = GoalsSummary(totalGoals: nat, totalTasks: nat, completedTasks: nat)

  /** The tasks of the listed goals, by their entries; a goal without an entry adds 0. */
  function TasksOver(rows: seq<Goal>, m: ProgressMap): nat {
    if rows == [] then 0 else TasksOver(rows[..|rows| - 1], m) + ProgressOf(m, rows[|rows| - 1].id).total
  }

  function CompletedOver(rows: seq<Goal>, m: ProgressMap): nat {
    if rows == [] then 0 else CompletedOver(rows[..|rows| - 1], m) + ProgressOf(m, rows[|rows| - 1].id).completed
  }

  function SummaryOf(rows: seq<Goal>, m: ProgressMap): GoalsSummary {
    GoalsSummary(|rows|, TasksOver(rows, m), CompletedOver(rows, m))
  }

  /** The `summary` reduce. */
  method Summarize(rows: seq<Goal>, m: ProgressMap) returns (s: GoalsSummary)
    ensures s == SummaryOf(rows, m)
  {
    var totalTasks, completedTasks := 0, 0;
    for i := 0 to |rows|
      invariant totalTasks == TasksOver(rows[..i], m)
      invariant completedTasks == CompletedOver(rows[..i], m)
    {
      assert rows[..i + 1][..i] == rows[..i];
      var p := if rows[i].id in m.entries then Some(m.entries[rows[i].id]) else None;
      totalTasks := totalTasks + (if p.Some? then p.value.total else 0);
      completedTasks := completedTasks + (if p.Some? then p.value.completed else 0);
    }
    assert rows[..|rows|] == rows;
    s := GoalsSummary(|rows|, totalTasks, completedTasks);
  }

  /** With no entry counting more completed than total tasks, neither does the summary. */
  lemma {:induction false} SummaryCompletedBounded(rows: seq<Goal>, m: ProgressMap)
    requires forall k :: k in m.entries ==> m.entries[k].completed <= m.entries[k].total
    ensures SummaryOf(rows, m).completedTasks <= SummaryOf(rows, m).totalTasks
  {
    if rows != [] {
      SummaryCompletedBounded(rows[..|rows| - 1], m);
    }
  }

  /** A goal that has no entry adds one goal and no tasks. */
  lemma AddGoalWithoutProgress(rows: seq<Goal>, g: Goal, m: ProgressMap)
    requires g.id !in m.entries
    ensures SummaryOf(rows + [g], m) == SummaryOf(rows, m).(totalGoals := |rows| + 1)
  {
    assert (rows + [g])[..|rows|] == rows;
  }

  /** Entries whose goal is not listed do not reach the summary. */
  lemma {:induction false} SummaryIgnoresUnlisted(rows: seq<Goal>, m: ProgressMap, m': ProgressMap)
    requires forall g :: g in rows ==> ProgressOf(m, g.id) == ProgressOf(m', g.id)
    ensures SummaryOf(rows, m) == SummaryOf(rows, m')
  {
    if rows != [] {
      var init := rows[..|rows| - 1];
      assert forall g :: g in init ==> g in rows;
      assert rows[|rows| - 1] in rows;
      SummaryIgnoresUnlisted(init, m, m');
    }
  }

  // ---- handleSubmit in edit mode ----

  /** `{ id: editing.id, ...values }`: every field of the dialog's record, for the goal being edited. */
  function EditInput(id: string, values: GoalCreateInput): (u: GoalUpdateInput)
    ensures u.id == id && u.name == Some(values.name)
    ensures u.description == values.description && u.start_date == values.start_date && u.end_date == values.end_date
  {
    GoalUpdateInput(id, Some(values.name), values.description, values.start_date, values.end_date)
  }

  /** As written: a goal stored from 2024-01-10 to 2024-01-20 is edited to clear the start date and
      end on 2024-01-05. The form passes the schema, since a missing start satisfies
      `end_after_start`, but the cleared start is not sent, so the stored goal ends before it starts. */
  lemma ClearedStartLetsGoalEndFirst()
    ensures var g := Goal("g1", "u1", "Read", None, Some("2024-01-10"), Some("2024-01-20"), "t0", "t0");
      var v := GoalDialog.InitialGoalValues(Some(g)).(start_date := Some(""), end_date := Some("2024-01-05"));
      var s := GoalsApi.StoredGoalAfter(g, GoalsApi.UpdateGoal(EditInput(g.id, GoalDialog.CleanGoal(v))).patch);
      && GoalDialog.ValidGoalForm(v)
      && s.start_date == Some("2024-01-10") && s.end_date == Some("2024-01-05")
      && !GoalDialog.EndAfterStart(s.start_date, s.end_date)
  {
    var g := Goal("g1", "u1", "Read", None, Some("2024-01-10"), Some("2024-01-20"), "t0", "t0");
    var v := GoalDialog.InitialGoalValues(Some(g)).(start_date := Some(""), end_date := Some("2024-01-05"));
    assert v == GoalDialog.GoalFormValues("Read", Some(""), Some(""), Some("2024-01-05"));
    assert Text.Trim("Read") == "Read" by {
      Text.TrimOfTrimmed("Read");
    }
    assert Text.Trim("") == "";
    assert GoalDialog.ValidGoalForm(v);
    var c := GoalDialog.CleanGoal(v);
    assert c == GoalCreateInput("Read", Null, Null, Present("2024-01-05"));
    var u := EditInput(g.id, c);
    GoalsApi.UpdateGoalKeepsCleared(g, u);
    var s := GoalsApi.StoredGoalAfter(g, GoalsApi.UpdateGoal(u).patch);
    assert s.start_date == Some("2024-01-10") && s.end_date == Some("2024-01-05");
    EarlierDay();
    GoalDialog.EndAfterStartIff(s.start_date, s.end_date);
  }

  lemma EarlierDay()
    ensures Text.LexLess("2024-01-05", "2024-01-10")
  {
    var a, b := "2024-01-05", "2024-01-10";
    assert a[..8] == b[..8] && a[8] < b[8];
    Text.LexLessAtFirstDifference(a, b, 8);
  }

  /** Corrected: with `null` kept in the patch, an edit that passes the schema leaves the stored
      goal with its dates in order, whatever it held before. */
  lemma KeepingNullKeepsDatesOrdered(g: Goal, v: GoalDialog.GoalFormValues)
    requires GoalDialog.ValidGoalForm(v)
    ensures var s := GoalsApi.StoredGoalAfter(g, GoalsApi.UpdateGoalKeepingNull(EditInput(g.id, GoalDialog.CleanGoal(v))).patch);
      GoalDialog.EndAfterStart(s.start_date, s.end_date)
  {
    var c := GoalDialog.CleanGoal(v);
    GoalDialog.CleanValid(v);
    GoalsApi.KeepingNullStoresGoalEdit(g, EditInput(g.id, c));
  }
}
