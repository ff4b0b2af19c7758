/** The goals API: the progress tally over task rows, the insert record of `createGoal` with its
    sign-in guard, and the patch `updateGoal` sends. */
module GoalsApi {
  import opened Wrappers
  import opened Records
  import opened JsRecord
  import opened GoalTally

  /** One iteration of `fetchGoalProgress`'s loop: rows without a goal id are skipped; a goal
      seen for the first time gets `{ goalId, total: 0, completed: 0 }` before the counts go up. */
  function ProgressStep(m: Rec<GoalProgress>, row: ProgressRow): (r: Rec<GoalProgress>)
    requires Valid(m)
    ensures Valid(r)
  {
    if !Truthy(row.goal_id) then m
    else
      var g := row.goal_id.value;
      var c := if g in m.entries then m.entries[g] else GoalProgress(g, 0, 0);
      Put(m, g, c.(total := c.total + 1, completed := c.completed + (if row.status == Completed then 1 else 0)))
  }

  /** The record the loop leaves after visiting `rows` in order. */
  function Progress(rows: seq<ProgressRow>): (r: Rec<GoalProgress>)
    ensures Valid(r)
  {
    if rows == [] then Empty() else ProgressStep(Progress(rows[..|rows| - 1]), rows[|rows| - 1])
  }

  /** The loop body as written, three assignments, is one step. */
  lemma ProgressStepByPuts(m: Rec<GoalProgress>, row: ProgressRow)
    requires Valid(m) && Truthy(row.goal_id)
    ensures var g := row.goal_id.value;
      var m1 := if g in m.entries then m else Put(m, g, GoalProgress(g, 0, 0));
      var m2 := Put(m1, g, m1.entries[g].(total := m1.entries[g].total + 1));
      var m3 := if row.status == Completed then Put(m2, g, m2.entries[g].(completed := m2.entries[g].completed + 1)) else m2;
      m3 == ProgressStep(m, row)
  {
    var g := row.goal_id.value;
    if g !in m.entries {
      assert Put(m, g, GoalProgress(g, 0, 0)).keys == m.keys + [g];
    }
  }

  /** The progress record agrees with the tally entry for entry, in the same key order, and each
      entry carries its own key as `goalId`. */
  lemma {:induction false} ProgressMirrorsTally(rows: seq<ProgressRow>)
    ensures Progress(rows).keys == Tally(rows).keys
    ensures Progress(rows).entries.Keys == Tally(rows).entries.Keys
    ensures forall g :: g in Progress(rows).entries ==>
      Progress(rows).entries[g] == GoalProgress(g, Tally(rows).entries[g].total, Tally(rows).entries[g].completed)
  {
    if rows != [] {
      ProgressMirrorsTally(rows[..|rows| - 1]);
    }
  }

  /** `fetchGoalProgress` over the rows the store returns for `select('goal_id,status')`. */
  method FetchGoalProgress(rows: seq<ProgressRow>) returns (m: Rec<GoalProgress>)
    ensures m == Progress(rows)
  {
    m := Empty();
    var i := 0;
    while i < |rows|
      invariant 0 <= i <= |rows|
      invariant m == Progress(rows[..i])
    {
      var row := rows[i];
      ghost var m0 := m;
      assert rows[..i + 1][..i] == rows[..i];
      assert Progress(rows[..i + 1]) == ProgressStep(m0, row);
      if Truthy(row.goal_id) {
        var goalId := row.goal_id.value;
        if goalId !in m.entries {
          m := Put(m, goalId, GoalProgress(goalId, 0, 0));
        }
        m := Put(m, goalId, m.entries[goalId].(total := m.entries[goalId].total + 1));
        if row.status == Completed {
          m := Put(m, goalId, m.entries[goalId].(completed := m.entries[goalId].completed + 1));
        }
        ProgressStepByPuts(m0, row);
      }
      i := i + 1;
    }
    assert rows[..|rows|] == rows;
  }

  /** The progress record of `rows` counts, for each goal that occurs, its rows and its completed
      rows, and the totals add up to the rows that have a goal id. */
  lemma ProgressCounts(rows: seq<ProgressRow>)
    ensures var m := Progress(rows);
      && (forall g :: g in m.entries <==> g != "" && RowsFor(rows, g) > 0)
      && (forall g :: g in m.entries ==>
        && m.entries[g].goalId == g
        && m.entries[g].total == RowsFor(rows, g)
        && m.entries[g].completed == CompletedFor(rows, g)
        && 1 <= m.entries[g].total
        && m.entries[g].completed <= m.entries[g].total)
    ensures SumTotals(Tally(rows).keys, Tally(rows).entries) == RowsWithGoal(rows)
  {
    ProgressMirrorsTally(rows);
    TallyCounts(rows);
    EntriesBounded(rows);
    TallySum(rows);
  }

  // ---- createGoal / updateGoal ----

  /** The row `createGoal` inserts. */
  datatype GoalInsert = GoalInsert(
    user_id: string,
    name: string,
    description: Option<string>,
    start_date: Option<string>,
    end_date: Option<string>)

  /** `createGoal(input)` for the signed-in user id `userId`: fails before any insert when there
      is no id; otherwise the row belongs to the caller and every optional field left out is sent
      as `null`. */
  function CreateGoal(input: GoalCreateInput, userId: Option<string>): (r: Result<GoalInsert>)
    ensures r.Err? <==> !Truthy(userId)
    ensures r.Err? ==> r.message == NotAuthenticated
    ensures r.Ok? ==> (r.value.user_id == userId.value && r.value.name == input.name)
    ensures r.Ok? ==> ((r.value.description.Some? <==> input.description.Present?)
      && (r.value.start_date.Some? <==> input.start_date.Present?)
      && (r.value.end_date.Some? <==> input.end_date.Present?))
    ensures r.Ok? && input.description.Present? ==> r.value.description.value == input.description.value
    ensures r.Ok? && input.start_date.Present? ==> r.value.start_date.value == input.start_date.value
    ensures r.Ok? && input.end_date.Present? ==> r.value.end_date.value == input.end_date.value
  {
    if !Truthy(userId) then Err(NotAuthenticated)
    else Ok(GoalInsert(userId.value, input.name, OrNull(input.description), OrNull(input.start_date),
                       OrNull(input.end_date)))
  }

  /** `updateGoal(input)` as written: the id selects the row and is not part of the patch, and a
      `null` description, start date or end date becomes `undefined`, so that column is not sent. */
  function UpdateGoal(input: GoalUpdateInput): (cmd: UpdateCommand)
    ensures cmd.table == "goals" && cmd.id == input.id && "id" !in cmd.patch
    ensures forall k :: k in cmd.patch ==> cmd.patch[k].JStr?
    ensures ("name" in cmd.patch <==> input.name.Some?)
      && ("description" in cmd.patch <==> input.description.Present?)
      && ("start_date" in cmd.patch <==> input.start_date.Present?)
      && ("end_date" in cmd.patch <==> input.end_date.Present?)
  {
    var p := SetColumn(map[], "name", TextColumn(input.name));
    var p := SetColumn(p, "description", DropNull(input.description));
    var p := SetColumn(p, "start_date", DropNull(input.start_date));
    var p := SetColumn(p, "end_date", DropNull(input.end_date));
    UpdateCommand("goals", input.id, p)
  }

  /** The same patch with `null` kept, so that clearing a field in the edit dialog clears it. */
  function UpdateGoalKeepingNull(input: GoalUpdateInput): (cmd: UpdateCommand)
    ensures cmd.table == "goals" && cmd.id == input.id && "id" !in cmd.patch
    ensures ("name" in cmd.patch <==> input.name.Some?)
      && ("description" in cmd.patch <==> !input.description.Missing?)
      && ("start_date" in cmd.patch <==> !input.start_date.Missing?)
      && ("end_date" in cmd.patch <==> !input.end_date.Missing?)
  {
    var p := SetColumn(map[], "name", TextColumn(input.name));
    var p := SetColumn(p, "description", KeepNull(input.description));
    var p := SetColumn(p, "start_date", KeepNull(input.start_date));
    var p := SetColumn(p, "end_date", KeepNull(input.end_date));
    UpdateCommand("goals", input.id, p)
  }

  /** What `updateGoal(input)` sends, column by column: the name when given, a nullable field only
      when it holds a value, and no column besides these four. */
  lemma UpdateGoalSends(input: GoalUpdateInput)
    ensures var p := UpdateGoal(input).patch;
      && Sent(p, "name") == (if input.name.Some? then Some(JStr(input.name.value)) else None)
      && Sent(p, "description") == (if input.description.Present? then Some(JStr(input.description.value)) else None)
      && Sent(p, "start_date") == (if input.start_date.Present? then Some(JStr(input.start_date.value)) else None)
      && Sent(p, "end_date") == (if input.end_date.Present? then Some(JStr(input.end_date.value)) else None)
    ensures forall k :: k in UpdateGoal(input).patch ==> k in ["name", "description", "start_date", "end_date"]
  {
  }

  /** With `null` kept, a nullable field set to `null` sends SQL `null`. */
  lemma UpdateGoalKeepingNullSends(input: GoalUpdateInput)
    ensures var p := UpdateGoalKeepingNull(input).patch;
      && Sent(p, "name") == (if input.name.Some? then Some(JStr(input.name.value)) else None)
      && Sent(p, "description") == (match input.description
           case Present(v) => Some(JStr(v)) case Null => Some(JNull) case Missing => None)
      && Sent(p, "start_date") == (match input.start_date
           case Present(v) => Some(JStr(v)) case Null => Some(JNull) case Missing => None)
      && Sent(p, "end_date") == (match input.end_date
           case Present(v) => Some(JStr(v)) case Null => Some(JNull) case Missing => None)
    ensures forall k :: k in UpdateGoalKeepingNull(input).patch ==> k in ["name", "description", "start_date", "end_date"]
  {
  }

  /** The nullable columns a stored goal holds after an update with patch `p`. */
  function StoredGoalAfter(g: Goal, p: Patch): Goal {
    g.(description := Patched(g.description, p, "description"),
       start_date := Patched(g.start_date, p, "start_date"),
       end_date := Patched(g.end_date, p, "end_date"))
  }

  /** As written, a nullable column the edit sets to `null` keeps its stored value. */
  lemma UpdateGoalKeepsCleared(g: Goal, input: GoalUpdateInput)
    ensures var s := StoredGoalAfter(g, UpdateGoal(input).patch);
      && s.description == (if input.description.Present? then Some(input.description.value) else g.description)
      && s.start_date == (if input.start_date.Present? then Some(input.start_date.value) else g.start_date)
      && s.end_date == (if input.end_date.Present? then Some(input.end_date.value) else g.end_date)
  {
  }

  /** With `null` kept, every nullable field the edit sets, including to `null`, is what the store
      holds afterwards, and a field left out keeps its stored value. */
  lemma KeepingNullStoresGoalEdit(g: Goal, input: GoalUpdateInput)
    ensures var s := StoredGoalAfter(g, UpdateGoalKeepingNull(input).patch);
      && s.description == (if input.description.Missing? then g.description else OrNull(input.description))
      && s.start_date == (if input.start_date.Missing? then g.start_date else OrNull(input.start_date))
      && s.end_date == (if input.end_date.Missing? then g.end_date else OrNull(input.end_date))
  {
  }
}
