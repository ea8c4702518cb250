/** The human-readable copy of a lead: every categorical code is replaced
    by the label of the first option carrying it, or "N/A" when no option
    does; the identity and free-text answers are copied as they are. */
module Labels {
  import opened Wrappers
  import opened Types
  import opened Constants

  /** `table.find(o => o.value === code)`: the first option with that code. */
  function Find(t: seq<SelectOption>, code: string): (r: Option<SelectOption>)
    ensures r.None? <==> forall i :: 0 <= i < |t| ==> t[i].value != code
    ensures r.Some? ==> exists i :: FirstMatch(t, code, i) && t[i] == r.value
  {
    if t == [] then None
    else if t[0].value == code then
      assert FirstMatch(t, code, 0);
      Some(t[0])
    else
      var r := Find(t[1..], code);
      if r.Some? then
        var i :| FirstMatch(t[1..], code, i) && t[1..][i] == r.value;
        assert FirstMatch(t, code, i + 1);
        r
      else r
  }

  /** `i` is the position of the first option of `t` whose code is `code`. */
  predicate FirstMatch(t: seq<SelectOption>, code: string, i: int) {
    0 <= i < |t| && t[i].value == code && forall j :: 0 <= j < i ==> t[j].value != code
  }

  /** `table.find(o => o.value === code)?.label || 'N/A'`. */
  function LabelOf(t: seq<SelectOption>, code: string): (r: string)
    ensures r != []
    ensures (forall i :: 0 <= i < |t| ==> t[i].value != code) ==> r == "N/A"
  {
    match Find(t, code)
    case None => "N/A"
    case Some(o) => if o.labelText != "" then o.labelText else "N/A"
  }

  /** Every option of a table carries a label longer than "N/A". */
  ghost predicate Labelled(t: seq<SelectOption>) {
    forall i :: 0 <= i < |t| ==> |t[i].labelText| > 3
  }

  /** In a table of non-trivial labels, the label of a code is the label of
      its first option, and "N/A" exactly when no option carries the code. */
  lemma LabelOfFirstMatch(t: seq<SelectOption>, code: string, i: int)
    requires Labelled(t) && FirstMatch(t, code, i)
    ensures LabelOf(t, code) == t[i].labelText != "N/A"
  {
    assert Find(t, code).Some?;
    var j :| FirstMatch(t, code, j) && t[j] == Find(t, code).value;
    assert !(j < i) && !(i < j);
  }

  /** Every table's labels are longer than "N/A". */
  lemma TablesLabelled(f: Field)
    requires IsScorable(f)
    ensures Labelled(TableOf(f))
  {
  }

  /** `readableData`: the two names and the need description are copied,
      every categorical code is looked up in its own table. */
  function Translate(data: LeadData): LeadData {
    LeadData(
      data.firstName,
      data.lastName,
      LabelOf(RolOptions, data.role),
      LabelOf(IndustryOptions, data.industry),
      LabelOf(RevenueOptions, data.revenue),
      LabelOf(EmployeesOptions, data.employees),
      LabelOf(BudgetOptions, data.budget),
      LabelOf(ClarityOptions, data.clarity),
      data.needDetails,
      LabelOf(SourceOptions, data.source),
      LabelOf(ServiceInterestOptions, data.serviceInterest))
  }

  /** Key by key, the readable copy is the label looked up in the key's
      table for a categorical key and the answer itself for a text key. */
  lemma TranslateGet(d: LeadData, f: Field)
    ensures Translate(d).Get(f) == if IsScorable(f) then LabelOf(TableOf(f), d.Get(f)) else d.Get(f)
  {
    ScorableFieldsExact();
  }

  /** A code missing from the key's table (the unselected sentinel "0"
      among them) reads as "N/A". */
  lemma UnknownCodeIsNotAvailable(d: LeadData, f: Field)
    requires IsScorable(f)
    requires forall i :: 0 <= i < |TableOf(f)| ==> TableOf(f)[i].value != d.Get(f)
    ensures Translate(d).Get(f) == "N/A"
  {
    TranslateGet(d, f);
  }

  /** The empty form translates to blank names and "N/A" in every
      categorical key. */
  lemma TranslateInitial()
    ensures forall f :: Translate(InitialLeadData).Get(f) == if IsScorable(f) then "N/A" else ""
  {
    InitialLeadDataShape();
    forall f ensures Translate(InitialLeadData).Get(f) == if IsScorable(f) then "N/A" else "" {
      if IsScorable(f) {
        TablesWellFormed(f);
        UnknownCodeIsNotAvailable(InitialLeadData, f);
      } else {
        TranslateGet(InitialLeadData, f);
      }
    }
  }

  /** Picking the `i`-th option of a key's table translates to that
      option's label, except for the second service-interest option, which
      shares the code "10" with the first. */
  lemma TranslateSelected(d: LeadData, f: Field, i: int)
    requires IsScorable(f) && 0 <= i < |TableOf(f)|
    requires d.Get(f) == TableOf(f)[i].value
    requires !(f == ServiceInterest && i == 1)
    ensures Translate(d).Get(f) == TableOf(f)[i].labelText != "N/A"
  {
    var t := TableOf(f);
    CodesUniqueExceptServiceInterest(f);
    assert FirstMatch(t, d.Get(f), i);
    TablesLabelled(f);
    LabelOfFirstMatch(t, d.Get(f), i);
    TranslateGet(d, f);
  }

  /** Only the second service-interest option starts its label with 'I'. */
  lemma ServiceInterestLabelsDistinct()
    ensures forall i :: 0 <= i < |ServiceInterestOptions| && i != 1 ==>
              ServiceInterestOptions[i].labelText != ServiceInterestOptions[1].labelText
  {
    var t := ServiceInterestOptions;
    assert t[1].labelText[0] == 'I';
    assert t[0].labelText[0] == 'E' && t[2].labelText[0] == 'D' && t[3].labelText[0] == 'S';
    assert t[4].labelText[0] == 'C' && t[5].labelText[0] == 'O';
  }

  /** The label "IA Operativa & Agentes Inteligentes" is never looked up:
      its code "10" always resolves to the first service-interest option,
      "Estrategia y Transformación". */
  lemma SecondServiceInterestUnreachable(code: string)
    ensures LabelOf(ServiceInterestOptions, code) != ServiceInterestOptions[1].labelText
    ensures code == "10" ==> LabelOf(ServiceInterestOptions, code) == ServiceInterestOptions[0].labelText
  {
    var t := ServiceInterestOptions;
    TablesLabelled(ServiceInterest);
    ServiceInterestLabelsDistinct();
    assert t[0].value == t[1].value == "10";
    var r := Find(t, code);
    if r.Some? {
      var i :| FirstMatch(t, code, i) && t[i] == r.value;
      LabelOfFirstMatch(t, code, i);
    }
    if code == "10" {
      assert FirstMatch(t, "10", 0);
      LabelOfFirstMatch(t, "10", 0);
    }
  }
}
