/** The debounce of `handleSearchInput`: each input event may replace the
    pending lookup, and the lookup that is pending when the quiet period ends
    is the one made. The timer is modelled by the term it will search for
    (`None` when no lookup is pending or the pending callback will not
    search). */
module SearchInput {

  import opened Outcomes
  import opened JsText
  import opened Validation

  /** One input event, as written: an input that trims to nothing returns
      before `clearTimeout`, so a lookup scheduled earlier stays pending;
      any other input cancels it and schedules one for the new term, which
      searches only when the term has at least two characters. */
  function StepAsWritten(pending: Option<string>, input: string): (r: Option<string>)
    ensures Trim(input) == [] ==> r == pending
    ensures Trim(input) != [] ==> r == SearchTerm(input)
  {
    if Trim(input) == [] then pending else SearchTerm(input)
  }

  /** One input event as the debounce intends: every event cancels the pending
      lookup, so what is pending depends only on the latest input. */
  function Step(pending: Option<string>, input: string): (r: Option<string>)
    ensures r.Some? <==> |Trim(input)| >= MinSearchLength
    ensures r.Some? ==> r.value == Trim(input)
  {
    SearchTerm(input)
  }

  /** The pending lookup after a run of input events within the quiet period. */
  function AfterInputsAsWritten(pending: Option<string>, inputs: seq<string>): Option<string>
  {
    if inputs == [] then pending
    else StepAsWritten(AfterInputsAsWritten(pending, inputs[..|inputs| - 1]), inputs[|inputs| - 1])
  }

  function AfterInputs(pending: Option<string>, inputs: seq<string>): Option<string>
  {
    if inputs == [] then pending
    else Step(AfterInputs(pending, inputs[..|inputs| - 1]), inputs[|inputs| - 1])
  }

  /** With the intended debounce, a burst of input events makes at most one
      lookup, for the final value of the box, and none when that value trims
      to fewer than two characters. */
  lemma LastInputDecides(pending: Option<string>, inputs: seq<string>)
    requires inputs != []
    ensures AfterInputs(pending, inputs) == SearchTerm(inputs[|inputs| - 1])
    ensures AfterInputs(pending, inputs).Some? <==> |Trim(inputs[|inputs| - 1])| >= MinSearchLength
  {
  }

  /** As written, typing "ab" and then emptying the box in a single edit
      (select all and delete) before the quiet period ends still searches for
      "ab", although the box is empty. Two backspaces pass through "a", whose
      input event cancels that lookup. */
  lemma ClearedBoxStillSearches()
    ensures AfterInputsAsWritten(None, ["ab", ""]) == Some("ab")
    ensures AfterInputs(None, ["ab", ""]) == None
    ensures AfterInputsAsWritten(None, ["ab", "a", ""]) == None
  {
    var ab := "ab";
    assert LeadingSpace(ab) == 0 by { assert !IsWhitespace(ab[0]); }
    assert TrailingSpace(ab) == 0 by { assert !IsWhitespace(ab[1]); }
    assert Trim(ab) == ab;
    assert ["ab", ""][..1] == ["ab"];
    assert ["ab"][..0] == [];
  }

  /** The two agree on every run that does not end in an empty box. */
  lemma {:induction false} AsWrittenAgreesOnNonEmptyInput(pending: Option<string>, inputs: seq<string>)
    requires inputs != [] && Trim(inputs[|inputs| - 1]) != []
    ensures AfterInputsAsWritten(pending, inputs) == AfterInputs(pending, inputs)
  {
  }
}
