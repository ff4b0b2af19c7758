/** The two field cleanings both dialogs apply before submitting. */
module FormFields {
  import opened Wrappers
  import opened Text
  import opened Records

  /** `v?.trim() ? v.trim() : null`: a missing or blank text becomes `null`, any other is trimmed. */
  function BlankToNull(v: Option<string>): (r: Nullable<string>)
    ensures !r.Missing?
    ensures r.Null? <==> v.None? || AllWhitespace(v.value)
    ensures r.Present? ==> r.value == Trim(v.value) && r.value != "" && IsTrimmed(r.value) && |r.value| <= |v.value|
  {
    TrimEmptyIff(v.GetOr(""));
    if v.Some? && Trim(v.value) != "" then Present(Trim(v.value)) else Null
  }

  /** `v ? v : null`: a missing or empty value becomes `null`, any other is kept. */
  function EmptyToNull(v: Option<string>): (r: Nullable<string>)
    ensures !r.Missing?
    ensures r.Present? <==> Truthy(v)
    ensures r.Present? ==> r.value == v.value
  {
    if Truthy(v) then Present(v.value) else Null
  }

  /** A cleaned text shown again as `stored ?? ''` cleans to itself. */
  lemma BlankToNullReshown(x: Nullable<string>)
    requires !x.Missing? && (x.Present? ==> x.value != "" && IsTrimmed(x.value))
    ensures BlankToNull(Some(OrNull(x).GetOr(""))) == x
  {
    if x.Present? {
      TrimOfTrimmed(x.value);
    } else {
      assert Trim("") == "";
    }
  }

  /** A cleaned date shown again as the stored value cleans to itself. */
  lemma EmptyToNullReshown(x: Nullable<string>)
    requires !x.Missing? && (x.Present? ==> x.value != "")
    ensures EmptyToNull(OrNull(x)) == x
  {
  }
}
