/** The goal dialog: its initial values, the validation schema (with the `end_after_start` test)
    and the `cleaned` record it submits. */
module GoalDialog {
  import opened Wrappers
  import opened Text
  import opened Records
  import opened FormFields

  /** The form's values: each optional text field holds a string, or `null` when it was never
      filled. */
  datatype GoalFormValues = GoalFormValues(
    name: string,
    description: Option<string>,
    start_date: Option<string>,
    end_date: Option<string>)

  const NameMax := 120
  const DescriptionMax := 2000

  /** The `end_after_start` test: passes when either date is missing or empty, and otherwise asks
      for `end >= start` in string order. */
  predicate EndAfterStart(start: Option<string>, end: Option<string>) {
    !Truthy(start) || !Truthy(end) || LexLe(start.value, end.value)
  }

  /** With both dates given, the test passes exactly when the end is the start or after it. */
  lemma EndAfterStartIff(start: Option<string>, end: Option<string>)
    ensures !Truthy(start) || !Truthy(end) ==> EndAfterStart(start, end)
    ensures Truthy(start) && Truthy(end) ==>
      (EndAfterStart(start, end) <==> (start.value == end.value || LexLess(start.value, end.value)))
    ensures Truthy(start) && Truthy(end) ==>
      (!EndAfterStart(start, end) <==> LexLess(end.value, start.value))
  {
    if Truthy(start) && Truthy(end) {
      LexLeIff(start.value, end.value);
    }
  }

  /** The schema: `name` is required after trimming and at most 120 characters once trimmed,
      `description` at most 2000 characters, and the dates pass `end_after_start`. */
  predicate ValidGoalForm(v: GoalFormValues) {
    && Trim(v.name) != ""
    && |Trim(v.name)| <= NameMax
    && (v.description.Some? ==> |v.description.value| <= DescriptionMax)
    && EndAfterStart(v.start_date, v.end_date)
  }

  /** `initialValues`: empty for a new goal, the stored fields for an edit, with a stored `null`
      description shown as the empty string. */
  function InitialGoalValues(initial: Option<Goal>): (v: GoalFormValues)
    ensures initial.None? ==> v == GoalFormValues("", Some(""), None, None)
    ensures initial.Some? ==>
      (v.name == initial.value.name && v.start_date == initial.value.start_date && v.end_date == initial.value.end_date)
    ensures initial.Some? ==> v.description == Some(initial.value.description.GetOr(""))
  {
    match initial
    case None => GoalFormValues("", Some(""), None, None)
    case Some(g) => GoalFormValues(g.name, Some(g.description.GetOr("")), g.start_date, g.end_date)
  }

  /** `cleaned`: the name trimmed, a blank description replaced by `null` and any other trimmed,
      an empty or missing date replaced by `null`. Every field is sent. */
  function CleanGoal(v: GoalFormValues): (c: GoalCreateInput)
    ensures c.name == Trim(v.name)
    ensures c.description.Null? <==> v.description.None? || AllWhitespace(v.description.value)
    ensures c.description.Present? ==> c.description.value == Trim(v.description.value) && c.description.value != ""
    ensures c.start_date.Present? <==> Truthy(v.start_date)
    ensures c.end_date.Present? <==> Truthy(v.end_date)
    ensures c.start_date.Present? ==> c.start_date.value == v.start_date.value
    ensures c.end_date.Present? ==> c.end_date.value == v.end_date.value
    ensures !c.description.Missing? && !c.start_date.Missing? && !c.end_date.Missing?
  {
    GoalCreateInput(Trim(v.name), BlankToNull(v.description), EmptyToNull(v.start_date), EmptyToNull(v.end_date))
  }

  /** What a cleaned, valid form carries: a trimmed non-empty name within the limit, a trimmed
      non-blank description within the limit or `null`, non-empty dates or `null`, in order. */
  predicate CleanGoalInput(c: GoalCreateInput) {
    && c.name != "" && IsTrimmed(c.name) && |c.name| <= NameMax
    && !c.description.Missing? && !c.start_date.Missing? && !c.end_date.Missing?
    && (c.description.Present? ==>
          (c.description.value != "" && IsTrimmed(c.description.value) && |c.description.value| <= DescriptionMax))
    && (c.start_date.Present? ==> c.start_date.value != "")
    && (c.end_date.Present? ==> c.end_date.value != "")
    && EndAfterStart(OrNull(c.start_date), OrNull(c.end_date))
  }

  /** Cleaning a form the schema accepts yields such a record. */
  lemma CleanValid(v: GoalFormValues)
    requires ValidGoalForm(v)
    ensures CleanGoalInput(CleanGoal(v))
  {
    var c := CleanGoal(v);
    assert c.name != "" && IsTrimmed(c.name) && |c.name| <= NameMax;
    assert c.description.Present? ==>
      (c.description.value != "" && IsTrimmed(c.description.value) && |c.description.value| <= DescriptionMax);
    assert EndAfterStart(OrNull(c.start_date), OrNull(c.end_date)) by {
      if Truthy(v.start_date) && Truthy(v.end_date) {
        assert OrNull(c.start_date) == v.start_date && OrNull(c.end_date) == v.end_date;
      }
    }
  }

  /** A goal stored from a cleaned record, opened again in the edit dialog and saved unchanged,
      passes the schema and submits the same record. */
  lemma ReopenUnchanged(c: GoalCreateInput, g: Goal)
    requires CleanGoalInput(c)
    requires g.name == c.name && g.description == OrNull(c.description)
    requires g.start_date == OrNull(c.start_date) && g.end_date == OrNull(c.end_date)
    ensures ValidGoalForm(InitialGoalValues(Some(g)))
    ensures CleanGoal(InitialGoalValues(Some(g))) == c
  {
    var v := InitialGoalValues(Some(g));
    assert Trim(v.name) == c.name by {
      TrimOfTrimmed(c.name);
    }
    assert |v.description.value| <= DescriptionMax;
    assert ValidGoalForm(v);
    BlankToNullReshown(c.description);
    EmptyToNullReshown(c.start_date);
    EmptyToNullReshown(c.end_date);
  }
}
