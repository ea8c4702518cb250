/** The questionnaire form: its own copy of the record, edited key by key,
    reset to the record it was given, and the rule that keeps the submit
    button disabled until both names and every categorical answer are
    filled in. */
module LeadForm {
  import opened JsString
  import opened Types
  import opened Constants
  import opened Scoring

  /** The keys the submit rule does not require a selection for. */
  const SkippedNames: seq<string> := ["firstName", "lastName", "needDetails"]

  /** The submit rule skips exactly the keys the scorer does not score. */
  lemma SkippedAreUnscored(f: Field)
    ensures f.Name() in SkippedNames <==> !IsScorable(f)
  {
    ScorableFieldsExact();
    FieldOrderComplete();
    assert SkippedNames[0] == FirstName.Name() && SkippedNames[1] == LastName.Name();
    assert SkippedNames[2] == NeedDetails.Name();
  }

  /** `Object.entries(formData).some(...)` over the keys `fs`: some key that
      is not skipped still holds the unselected sentinel "0". */
  function SomeUnselected(form: LeadData, fs: seq<Field>): (r: bool)
    ensures r <==> exists k :: 0 <= k < |fs| && fs[k].Name() !in SkippedNames && form.Get(fs[k]) == "0"
  {
    if fs == [] then false
    else
      var rest := SomeUnselected(form, fs[1..]);
      assert forall k :: 1 <= k < |fs| ==> fs[1..][k - 1] == fs[k];
      (fs[0].Name() !in SkippedNames && form.Get(fs[0]) == "0") || rest
  }

  /** `isSubmitDisabled`. */
  function IsSubmitDisabled(isScoring: bool, form: LeadData): bool {
    isScoring || Trim(form.firstName) == [] || Trim(form.lastName) == [] || SomeUnselected(form, FieldOrder)
  }

  /** `s` holds a character other than white space. */
  predicate HasText(s: string) {
    exists i :: 0 <= i < |s| && !IsWhiteSpace(s[i])
  }

  /** The submit button is enabled exactly when no scoring is running,
      both names hold some non-blank character and every categorical
      answer has been selected. */
  lemma SubmitEnabledIff(isScoring: bool, form: LeadData)
    ensures !IsSubmitDisabled(isScoring, form) <==>
              && !isScoring
              && HasText(form.firstName) && HasText(form.lastName)
              && forall f :: IsScorable(f) ==> form.Get(f) != "0"
  {
    TrimEmptyIffBlank(form.firstName);
    TrimEmptyIffBlank(form.lastName);
    FieldOrderComplete();
    forall f: Field ensures f.Name() in SkippedNames <==> !IsScorable(f) {
      SkippedAreUnscored(f);
    }
    if SomeUnselected(form, FieldOrder) {
      var k :| 0 <= k < |FieldOrder| && FieldOrder[k].Name() !in SkippedNames && form.Get(FieldOrder[k]) == "0";
      assert IsScorable(FieldOrder[k]);
    } else {
      forall f | IsScorable(f) ensures form.Get(f) != "0" {
        assert f in FieldOrder;
        var k :| 0 <= k < |FieldOrder| && FieldOrder[k] == f;
      }
    }
  }

  /** The empty form cannot be submitted. */
  lemma InitialFormDisabled(isScoring: bool)
    ensures IsSubmitDisabled(isScoring, InitialLeadData)
  {
    SubmitEnabledIff(isScoring, InitialLeadData);
    assert !HasText(InitialLeadData.firstName);
  }

  /** The free-text need description never affects whether the form can
      be submitted. */
  lemma NeedDetailsIrrelevant(isScoring: bool, form: LeadData, text: string)
    ensures IsSubmitDisabled(isScoring, form.With(NeedDetails, text)) == IsSubmitDisabled(isScoring, form)
  {
    SubmitEnabledIff(isScoring, form);
    SubmitEnabledIff(isScoring, form.With(NeedDetails, text));
    ScorableFieldsExact();
    forall f ensures form.With(NeedDetails, text).Get(f) == if f == NeedDetails then text else form.Get(f) {
      WithGet(form, NeedDetails, text, f);
    }
  }

  /** Every categorical answer is the sentinel or one of its table's codes:
      what the form's selects can hold. */
  ghost predicate FromSelects(d: LeadData) {
    forall f :: IsScorable(f) ==>
      d.Get(f) == "0" || exists i :: 0 <= i < |TableOf(f)| && TableOf(f)[i].value == d.Get(f)
  }

  /** The empty form holds what the selects can hold. */
  lemma InitialFromSelects()
    ensures FromSelects(InitialLeadData)
  {
    InitialLeadDataShape();
  }

  /** A form the selects filled in and the submit rule lets through scores
      between 30/110·10 and 10. */
  lemma EnabledFormScoresInScale(form: LeadData)
    requires FromSelects(form)
    requires !IsSubmitDisabled(false, form)
    ensures 300.0 / 110.0 <= Score(form).finalScore <= 10.0
  {
    SubmitEnabledIff(false, form);
    assert FromTables(form);
    ScoreWithinScale(form);
  }

  class LeadForm {
    var formData: LeadData
    var initialData: LeadData

    /** The form starts from the record it is given. */
    constructor(initialData: LeadData)
      ensures formData == initialData && this.initialData == initialData
    {
      formData := initialData;
      this.initialData := initialData;
    }

    /** The effect on a new `initialData`: the form takes it over. */
    method ReceiveInitialData(data: LeadData)
      modifies this
      ensures initialData == data && formData == data
    {
      initialData := data;
      formData := data;
    }

    /** `handleChange`: the edited key takes the new value, every other key
        keeps its own; a select's code or the sentinel keeps the form within
        what the selects can hold. */
    method HandleChange(name: Field, value: string)
      modifies this
      ensures formData == old(formData).With(name, value)
      ensures forall f :: f != name ==> formData.Get(f) == old(formData).Get(f)
      ensures formData.Get(name) == value
      ensures initialData == old(initialData)
      ensures old(FromSelects(formData)) && (IsScorable(name) ==> value == "0" || exists i :: 0 <= i < |TableOf(name)| && TableOf(name)[i].value == value)
              ==> FromSelects(formData)
    {
      formData := formData.With(name, value);
      forall f ensures formData.Get(f) == if f == name then value else old(formData).Get(f) {
        WithGet(old(formData), name, value, f);
      }
    }

    /** `handleReset`: the form returns to the record it was given. */
    method HandleReset()
      modifies this
      ensures formData == initialData && initialData == old(initialData)
    {
      formData := initialData;
    }

    /** Whether the submit button is disabled for the current answers. */
    function SubmitDisabled(isScoring: bool): (r: bool)
      reads this
      ensures !r ==> !isScoring && forall f :: IsScorable(f) ==> formData.Get(f) != "0"
    {
      SubmitEnabledIff(isScoring, formData);
      IsSubmitDisabled(isScoring, formData)
    }
  }
}
