/** The per-goal tally that both the goals API and the dashboard compute: a pass over task rows
    that, for each row with a goal, creates `{ total: 0, completed: 0 }` the first time the goal
    is seen, adds one to `total`, and adds one to `completed` when the task is completed. */
module GoalTally {
  import opened Wrappers
  import opened Records
  import opened JsRecord
  import Seqs

  /** `{ total, completed }` for one goal. */
  datatype Counts = Counts(total: nat, completed: nat)

  /** The two columns of a task row the tally reads. */
  datatype ProgressRow = ProgressRow(goal_id: Option<string>, status: TaskStatus)

  /** One iteration of the loop: rows without a goal id (`null` or `''`) are skipped. */
  function Step(m: Rec<Counts>, row: ProgressRow): (r: Rec<Counts>)
    requires Valid(m)
    ensures Valid(r)
  {
    if !Truthy(row.goal_id) then m
    else
      var g := row.goal_id.value;
      var c := if g in m.entries then m.entries[g] else Counts(0, 0);
      Put(m, g, Counts(c.total + 1, c.completed + (if row.status == Completed then 1 else 0)))
  }

  /** The record the loop leaves after visiting `rows` in order. */
  function Tally(rows: seq<ProgressRow>): (r: Rec<Counts>)
    ensures Valid(r)
  {
    if rows == [] then Empty() else Step(Tally(rows[..|rows| - 1]), rows[|rows| - 1])
  }

  lemma TallySnoc(rows: seq<ProgressRow>, row: ProgressRow)
    ensures Tally(rows + [row]) == Step(Tally(rows), row)
  {
    assert (rows + [row])[..|rows|] == rows;
  }

  /** The loop body as the code writes it, three assignments: create the entry when it is
      missing, add one to `total`, then add one to `completed` for a completed task. */
  lemma StepByPuts(m: Rec<Counts>, row: ProgressRow)
    requires Valid(m) && Truthy(row.goal_id)
    ensures var g := row.goal_id.value;
      var m1 := if g in m.entries then m else Put(m, g, Counts(0, 0));
      var m2 := Put(m1, g, m1.entries[g].(total := m1.entries[g].total + 1));
      var m3 := if row.status == Completed then Put(m2, g, m2.entries[g].(completed := m2.entries[g].completed + 1)) else m2;
      m3 == Step(m, row)
  {
    var g := row.goal_id.value;
    if g !in m.entries {
      assert Put(m, g, Counts(0, 0)).keys == m.keys + [g];
    }
  }

  // ---- Reference counts ----

  function OfGoal(g: string): ProgressRow -> bool {
    (row: ProgressRow) => row.goal_id == Some(g)
  }

  function CompletedOfGoal(g: string): ProgressRow -> bool {
    (row: ProgressRow) => row.goal_id == Some(g) && row.status == Completed
  }

  function WithGoal(): ProgressRow -> bool {
    (row: ProgressRow) => Truthy(row.goal_id)
  }

  /** The rows linked to goal `g`. */
  function RowsFor(rows: seq<ProgressRow>, g: string): nat {
    Seqs.Count(rows, OfGoal(g))
  }

  /** The completed rows linked to goal `g`. */
  function CompletedFor(rows: seq<ProgressRow>, g: string): nat {
    Seqs.Count(rows, CompletedOfGoal(g))
  }

  /** The rows that have a goal id at all. */
  function RowsWithGoal(rows: seq<ProgressRow>): nat {
    Seqs.Count(rows, WithGoal())
  }

  /** The tally has an entry for exactly the non-empty goal ids that occur, and that entry counts
      the rows of the goal and the completed ones among them. */
  lemma {:induction false} TallyCounts(rows: seq<ProgressRow>)
    ensures forall g :: g in Tally(rows).entries <==> g != "" && RowsFor(rows, g) > 0
    ensures forall g :: g in Tally(rows).entries ==>
      Tally(rows).entries[g] == Counts(RowsFor(rows, g), CompletedFor(rows, g))
  {
    if rows != [] {
      var init, row := rows[..|rows| - 1], rows[|rows| - 1];
      assert rows == init + [row];
      TallyCounts(init);
      TallySnoc(init, row);
      var t, t' := Tally(init), Tally(rows);
      forall g: string
        ensures g in t'.entries <==> g != "" && RowsFor(rows, g) > 0
        ensures g in t'.entries ==> t'.entries[g] == Counts(RowsFor(rows, g), CompletedFor(rows, g))
      {
        Seqs.CountSnoc(init, row, OfGoal(g));
        Seqs.CountSnoc(init, row, CompletedOfGoal(g));
        if row.goal_id != Some(g) {
          assert g in t'.entries <==> g in t.entries;
          assert g in t.entries ==> t'.entries[g] == t.entries[g];
        } else if g != "" {
          Seqs.CountMonotonic(init, CompletedOfGoal(g), OfGoal(g));
          var c := if g in t.entries then t.entries[g] else Counts(0, 0);
          assert c == Counts(RowsFor(init, g), CompletedFor(init, g));
          assert t'.entries[g] == Counts(c.total + 1, c.completed + (if row.status == Completed then 1 else 0));
        }
      }
    }
  }

  /** Every entry has at least one task and no more completed tasks than tasks; only a task whose
      status is `completed` counts as completed. */
  lemma EntriesBounded(rows: seq<ProgressRow>)
    ensures forall g :: g in Tally(rows).entries ==>
      1 <= Tally(rows).entries[g].total && Tally(rows).entries[g].completed <= Tally(rows).entries[g].total
  {
    TallyCounts(rows);
    forall g | g in Tally(rows).entries
      ensures CompletedFor(rows, g) <= RowsFor(rows, g)
    {
      Seqs.CountMonotonic(rows, CompletedOfGoal(g), OfGoal(g));
    }
  }

  /** Rows without a goal id change nothing. */
  lemma SkipsRowsWithoutGoal(rows: seq<ProgressRow>, row: ProgressRow)
    requires !Truthy(row.goal_id)
    ensures Tally(rows + [row]) == Tally(rows)
  {
    TallySnoc(rows, row);
  }

  /** The keys come in the order their goal was first seen. */
  lemma NewGoalGoesLast(rows: seq<ProgressRow>, row: ProgressRow)
    requires Truthy(row.goal_id) && row.goal_id.value !in Tally(rows).entries
    ensures Tally(rows + [row]).keys == Tally(rows).keys + [row.goal_id.value]
  {
    TallySnoc(rows, row);
  }

  // ---- Sum of totals ----

  /** The sum of `total` over the listed keys. */
  function SumTotals(keys: seq<string>, m: map<string, Counts>): nat
    requires forall k :: k in keys ==> k in m
  {
    if keys == [] then 0 else SumTotals(keys[..|keys| - 1], m) + m[keys[|keys| - 1]].total
  }

  /** Changing an entry the keys do not list leaves the sum alone. */
  lemma {:induction false} SumTotalsFrame(keys: seq<string>, m: map<string, Counts>, g: string, c: Counts)
    requires forall k :: k in keys ==> k in m
    requires g !in keys
    ensures SumTotals(keys, m[g := c]) == SumTotals(keys, m)
  {
    if keys != [] {
      SumTotalsFrame(keys[..|keys| - 1], m, g, c);
    }
  }

  /** Changing the entry of one listed key changes the sum by the change of its total. */
  lemma {:induction false} SumTotalsUpdate(keys: seq<string>, m: map<string, Counts>, g: string, c: Counts)
    requires forall k :: k in keys ==> k in m
    requires Seqs.Distinct(keys) && g in keys
    ensures SumTotals(keys, m[g := c]) + m[g].total == SumTotals(keys, m) + c.total
  {
    var init, last := keys[..|keys| - 1], keys[|keys| - 1];
    assert Seqs.Distinct(init) by {
      forall i, j | 0 <= i < j < |init| ensures init[i] != init[j] {
        assert init[i] == keys[i] && init[j] == keys[j];
      }
    }
    if last == g {
      assert g !in init by {
        forall i | 0 <= i < |init| ensures init[i] != g {
          assert init[i] == keys[i];
        }
      }
      SumTotalsFrame(init, m, g, c);
    } else {
      assert g in init by {
        var i :| 0 <= i < |keys| && keys[i] == g;
        assert i < |keys| - 1 && init[i] == g;
      }
      SumTotalsUpdate(init, m, g, c);
    }
  }

  /** One step adds one to the sum of totals exactly when the row has a goal id. */
  lemma StepSum(t: Rec<Counts>, row: ProgressRow)
    requires Valid(t)
    ensures SumTotals(Step(t, row).keys, Step(t, row).entries) == SumTotals(t.keys, t.entries) + (if Truthy(row.goal_id) then 1 else 0)
  {
    if Truthy(row.goal_id) {
      var g := row.goal_id.value;
      var c := if g in t.entries then t.entries[g] else Counts(0, 0);
      var c' := Counts(c.total + 1, c.completed + (if row.status == Completed then 1 else 0));
      if g in t.entries {
        SumTotalsUpdate(t.keys, t.entries, g, c');
      } else {
        SumTotalsFrame(t.keys, t.entries, g, c');
        var keys' := t.keys + [g];
        assert keys'[..|keys'| - 1] == t.keys;
      }
    }
  }

  /** The totals add up to the number of rows that have a goal id. */
  lemma {:induction false} TallySum(rows: seq<ProgressRow>)
    ensures SumTotals(Tally(rows).keys, Tally(rows).entries) == RowsWithGoal(rows)
  {
    if rows != [] {
      var init, row := rows[..|rows| - 1], rows[|rows| - 1];
      assert rows == init + [row];
      TallySum(init);
      TallySnoc(init, row);
      Seqs.CountSnoc(init, row, WithGoal());
      StepSum(Tally(init), row);
    }
  }
}
