/** The lead score: every categorical answer is read as a number, the three
    weighted criteria count double, and the weighted total is normalised
    against the hand-maintained maximum of 110 onto a 0–10 scale. */
module Scoring {
  import opened JsString
  import opened Types
  import opened Constants

  /** The number the scorer reads out of one key's answer. */
  function Value(d: LeadData, f: Field): int {
    ParseIntOrZero(d.Get(f))
  }

  /** The points one key adds to the weighted total; the unscored keys add
      nothing. */
  function Contribution(d: LeadData, f: Field): int {
    if IsScorable(f) then Value(d, f) * Weight(f) else 0
  }

  /** The weighted total accumulated over the keys `fs`, visited in order. */
  function WeightedSum(d: LeadData, fs: seq<Field>): int {
    if fs == [] then 0 else WeightedSum(d, fs[..|fs| - 1]) + Contribution(d, fs[|fs| - 1])
  }

  /** The breakdown recorded after visiting the keys `fs`: each scorable
      key among them mapped to its value. */
  function BreakdownOver(d: LeadData, fs: seq<Field>): map<Field, int> {
    map f | f in fs && IsScorable(f) :: Value(d, f)
  }

  /** The weighted total of a whole record. */
  function WeightedTotal(d: LeadData): int {
    WeightedSum(d, FieldOrder)
  }

  /** `(weightedTotal / MAX_POSSIBLE_WEIGHTED_SCORE) * 10`, in exact
      arithmetic. */
  function Normalise(total: int): real {
    total as real / MaxPossibleWeightedScore as real * 10.0
  }

  /** The score of a record, as the scoring loop produces it. */
  function Score(d: LeadData): ScoreResult {
    ScoreResult(Normalise(WeightedTotal(d)), BreakdownOver(d, FieldOrder))
  }

  /** The scoring loop: walk the keys of the record in declaration order,
      skip the identity and free-text keys, record each remaining key's
      parsed value in the breakdown and add it, doubled for the weighted
      criteria, to the running total; then normalise the total. */
  method ScoreLead(data: LeadData) returns (result: ScoreResult)
    ensures result == Score(data)
    ensures result.breakdown.Keys == set f | f in ScorableFields
    ensures forall f :: f in result.breakdown ==> result.breakdown[f] == ParseIntOrZero(data.Get(f))
  {
    var breakdown: map<Field, int> := map[];
    var weightedTotal := 0;
    for i := 0 to |FieldOrder|
      invariant breakdown == BreakdownOver(data, FieldOrder[..i])
      invariant weightedTotal == WeightedSum(data, FieldOrder[..i])
    {
      var key := FieldOrder[i];
      WeightedSumSnoc(data, FieldOrder, i);
      BreakdownSnoc(data, FieldOrder, i);
      if key.Name() in UnscoredNames {
        continue;
      }
      var value := ParseIntOrZero(data.Get(key));
      breakdown := breakdown[key := value];
      var weight := if key.Name() in WeightedCriteria then 2 else 1;
      weightedTotal := weightedTotal + value * weight;
    }
    assert FieldOrder[..|FieldOrder|] == FieldOrder;
    BreakdownKeys(data);
    result := ScoreResult(weightedTotal as real / MaxPossibleWeightedScore as real * 10.0, breakdown);
  }

  /** Visiting one more key adds its contribution to the total. */
  lemma WeightedSumSnoc(d: LeadData, fs: seq<Field>, k: nat)
    requires k < |fs|
    ensures WeightedSum(d, fs[..k + 1]) == WeightedSum(d, fs[..k]) + Contribution(d, fs[k])
  {
    assert fs[..k + 1][..k] == fs[..k];
  }

  /** Visiting one more key records it in the breakdown when it is scored
      and leaves the breakdown alone otherwise. */
  lemma BreakdownSnoc(d: LeadData, fs: seq<Field>, k: nat)
    requires k < |fs|
    ensures BreakdownOver(d, fs[..k + 1])
            == if IsScorable(fs[k]) then BreakdownOver(d, fs[..k])[fs[k] := Value(d, fs[k])] else BreakdownOver(d, fs[..k])
  {
    assert forall f :: f in fs[..k + 1] <==> f in fs[..k] || f == fs[k] by {
      assert fs[..k + 1] == fs[..k] + [fs[k]];
    }
  }

  /** The breakdown of a whole record has exactly the eight scorable keys,
      each mapped to the number its answer reads as. */
  lemma BreakdownKeys(d: LeadData)
    ensures BreakdownOver(d, FieldOrder).Keys == set f | f in ScorableFields
    ensures forall f :: f in BreakdownOver(d, FieldOrder) ==> BreakdownOver(d, FieldOrder)[f] == ParseIntOrZero(d.Get(f))
  {
    FieldOrderComplete();
    ScorableFieldsExact();
  }

  /** The closed form of the weighted total: twice the role, source and
      service-interest values plus the other five values. */
  function ClosedFormTotal(d: LeadData): int {
    2 * (Value(d, Role) + Value(d, Source) + Value(d, ServiceInterest))
    + Value(d, Industry) + Value(d, Revenue) + Value(d, Employees) + Value(d, Budget) + Value(d, Clarity)
  }

  /** Which keys are scored and how much each weighs, key by key. */
  lemma WeightTable()
    ensures !IsScorable(FirstName) && !IsScorable(LastName) && !IsScorable(NeedDetails)
    ensures IsScorable(Role) && IsScorable(Industry) && IsScorable(Revenue) && IsScorable(Employees)
    ensures IsScorable(Budget) && IsScorable(Clarity) && IsScorable(Source) && IsScorable(ServiceInterest)
    ensures Weight(Role) == 2 && Weight(Source) == 2 && Weight(ServiceInterest) == 2
    ensures Weight(Industry) == 1 && Weight(Revenue) == 1 && Weight(Employees) == 1
    ensures Weight(Budget) == 1 && Weight(Clarity) == 1
  {
    ScorableFieldsExact();
    WeightedCriteriaExact();
  }

  /** The first six keys of the loop (the two names, then role, industry,
      revenue and employees) contribute the four categorical values, the
      role counting twice. */
  lemma WeightedTotalPrefix(d: LeadData)
    ensures WeightedSum(d, FieldOrder[..6]) == 2 * Value(d, Role) + Value(d, Industry) + Value(d, Revenue) + Value(d, Employees)
  {
    WeightTable();
    var fo := FieldOrder;
    WeightedSumSnoc(d, fo, 0); WeightedSumSnoc(d, fo, 1); WeightedSumSnoc(d, fo, 2);
    WeightedSumSnoc(d, fo, 3); WeightedSumSnoc(d, fo, 4); WeightedSumSnoc(d, fo, 5);
    assert fo[..0] == [];
  }

  /** The loop's total over the whole record equals the closed form. */
  lemma WeightedTotalClosedForm(d: LeadData)
    ensures WeightedTotal(d) == ClosedFormTotal(d)
  {
    WeightedTotalPrefix(d);
    WeightTable();
    var fo := FieldOrder;
    WeightedSumSnoc(d, fo, 6); WeightedSumSnoc(d, fo, 7); WeightedSumSnoc(d, fo, 8);
    WeightedSumSnoc(d, fo, 9); WeightedSumSnoc(d, fo, 10);
    assert fo[..11] == fo;
  }

  /** The first four scorable keys contribute the role, industry, revenue
      and employees values, the role counting twice. */
  lemma ScorableSumPrefix(d: LeadData)
    ensures WeightedSum(d, ScorableFields[..4]) == 2 * Value(d, Role) + Value(d, Industry) + Value(d, Revenue) + Value(d, Employees)
  {
    WeightTable();
    var sf := ScorableFields;
    WeightedSumSnoc(d, sf, 0); WeightedSumSnoc(d, sf, 1); WeightedSumSnoc(d, sf, 2);
    WeightedSumSnoc(d, sf, 3);
    assert sf[..0] == [];
  }

  /** The sum over the eight scorable keys alone equals the closed form as
      well. */
  lemma ScorableSumClosedForm(d: LeadData)
    ensures WeightedSum(d, ScorableFields) == ClosedFormTotal(d)
  {
    ScorableSumPrefix(d);
    WeightTable();
    var sf := ScorableFields;
    WeightedSumSnoc(d, sf, 4); WeightedSumSnoc(d, sf, 5);
    WeightedSumSnoc(d, sf, 6); WeightedSumSnoc(d, sf, 7);
    assert sf[..8] == sf;
  }

  /** Taking one occurrence of a key out of a list takes its contribution
      out of the sum. */
  lemma {:induction false} WeightedSumRemove(d: LeadData, fs: seq<Field>, k: nat)
    requires k < |fs|
    ensures WeightedSum(d, fs) == WeightedSum(d, fs[..k] + fs[k + 1..]) + Contribution(d, fs[k])
  {
    var last := |fs| - 1;
    if k < last {
      var init := fs[..last];
      WeightedSumRemove(d, init, k);
      var rest := fs[..k] + fs[k + 1..];
      assert rest[..|rest| - 1] == init[..k] + init[k + 1..];
      assert rest[|rest| - 1] == fs[last];
    } else {
      assert fs[..k] + fs[k + 1..] == fs[..last];
    }
  }

  /** The weighted total does not depend on the order the keys are visited
      in: a `for … in` loop that enumerated the keys in any other order
      would compute the same total. */
  lemma {:induction false} WeightedSumPermutation(d: LeadData, fs: seq<Field>, gs: seq<Field>)
    requires multiset(fs) == multiset(gs)
    ensures WeightedSum(d, fs) == WeightedSum(d, gs)
    decreases |fs|
  {
    if fs != [] {
      var last := |fs| - 1;
      var f := fs[last];
      assert f in multiset(gs);
      var k :| 0 <= k < |gs| && gs[k] == f;
      var gs' := gs[..k] + gs[k + 1..];
      assert gs == gs[..k] + [gs[k]] + gs[k + 1..];
      assert fs == fs[..last] + [f];
      assert multiset(fs) == multiset(fs[..last]) + multiset{f};
      assert multiset(gs) == multiset(gs[..k]) + multiset{f} + multiset(gs[k + 1..]);
      assert multiset(gs') == multiset(gs[..k]) + multiset(gs[k + 1..]);
      assert multiset(fs[..last]) == multiset(fs) - multiset{f};
      assert multiset(gs') == multiset(gs) - multiset{f};
      WeightedSumPermutation(d, fs[..last], gs');
      WeightedSumRemove(d, gs, k);
    } else {
      assert |gs| == |multiset(gs)|;
    }
  }

  /** The identity and free-text answers never affect the score: two
      records that agree on the eight categorical keys score the same. */
  lemma TextFieldsIrrelevant(a: LeadData, b: LeadData)
    requires forall f :: IsScorable(f) ==> a.Get(f) == b.Get(f)
    ensures Score(a) == Score(b)
  {
    WeightTable();
    WeightedTotalClosedForm(a);
    WeightedTotalClosedForm(b);
  }

  /** A record whose categorical answers all read as zero scores 0, with a
      breakdown of zeros. */
  lemma AllZeroScoresZero(d: LeadData)
    requires forall f :: IsScorable(f) ==> Value(d, f) == 0
    ensures Score(d).finalScore == 0.0
    ensures forall f :: f in Score(d).breakdown ==> Score(d).breakdown[f] == 0
  {
    WeightTable();
    WeightedTotalClosedForm(d);
  }

  /** The empty form scores 0: every categorical key holds the sentinel "0". */
  lemma InitialScoresZero()
    ensures Score(InitialLeadData).finalScore == 0.0
  {
    InitialLeadDataShape();
    ParseSentinelIsZero();
    AllZeroScoresZero(InitialLeadData);
  }

  /** A record whose categorical answers are all "10" (the first option of
      every table) scores exactly 10: the normalisation constant is the
      all-maximum weighted total. */
  lemma AllTensScoreTen(d: LeadData)
    requires forall f :: IsScorable(f) ==> d.Get(f) == "10"
    ensures WeightedTotal(d) == MaxPossibleWeightedScore
    ensures Score(d).finalScore == 10.0
  {
    ParseTen();
    WeightTable();
    assert Value(d, Role) == 10 && Value(d, Source) == 10 && Value(d, ServiceInterest) == 10;
    assert Value(d, Industry) == 10 && Value(d, Revenue) == 10 && Value(d, Employees) == 10;
    assert Value(d, Budget) == 10 && Value(d, Clarity) == 10;
    WeightedTotalClosedForm(d);
  }

  /** Every categorical answer is one of its table's codes (what the form's
      selects can produce). */
  ghost predicate FromTables(d: LeadData) {
    forall f :: IsScorable(f) ==> exists i :: 0 <= i < |TableOf(f)| && TableOf(f)[i].value == d.Get(f)
  }

  /** The weighted sum over scorable keys whose answers come from their
      tables lies between the all-minimum and the all-maximum totals. */
  lemma {:induction false} WeightedSumWithinTables(d: LeadData, fs: seq<Field>)
    requires forall i :: 0 <= i < |fs| ==> IsScorable(fs[i])
    requires FromTables(d)
    ensures MinWeightedTotal(fs) <= WeightedSum(d, fs) <= MaxWeightedTotal(fs)
  {
    if fs != [] {
      var f := fs[|fs| - 1];
      ScorableHasTable(f);
      var t := TableOf(f);
      var i :| 0 <= i < |t| && t[i].value == d.Get(f);
      assert MinCode(t) <= CodeOf(t[i]) <= MaxCode(t);
      assert Weight(f) >= 1;
      WeightedSumWithinTables(d, fs[..|fs| - 1]);
    }
  }

  /** A lead whose answers all come from the tables reaches a weighted
      total between 30 (every answer at its table's smallest code) and 110
      (every answer at 10). */
  lemma WeightedTotalWithinTables(d: LeadData)
    requires FromTables(d)
    ensures 30 <= WeightedTotal(d) <= 110
  {
    WeightedTotalClosedForm(d);
    ScorableSumClosedForm(d);
    MaxPossibleIsConsistent();
    MinPossibleIsThirty();
    WeightedSumWithinTables(d, ScorableFields);
  }

  /** Normalising a total between 30 and 110 lands between 30/110·10 and 10. */
  lemma NormaliseWithinScale(total: int)
    requires 30 <= total <= 110
    ensures 300.0 / 110.0 <= Normalise(total) <= 10.0
  {
    assert Normalise(total) == total as real * 10.0 / 110.0;
  }

  /** A lead whose answers all come from the tables scores between
      30/110·10 and 10: the score never leaves the 0–10 scale. */
  lemma ScoreWithinScale(d: LeadData)
    requires FromTables(d)
    ensures 30 <= WeightedTotal(d) <= 110
    ensures 300.0 / 110.0 <= Score(d).finalScore <= 10.0
  {
    WeightedTotalWithinTables(d);
    NormaliseWithinScale(WeightedTotal(d));
  }

  /** Answering every key with its table's last option gives answers from
      the tables. */
  lemma LowestAnswersFromTables(d: LeadData)
    requires d.role == "2" && d.industry == "3" && d.revenue == "2" && d.employees == "3"
    requires d.budget == "2" && d.clarity == "2" && d.source == "3" && d.serviceInterest == "4"
    ensures FromTables(d)
  {
    forall f | IsScorable(f) ensures exists i :: 0 <= i < |TableOf(f)| && TableOf(f)[i].value == d.Get(f) {
      ScorableHasTable(f);
      var t := TableOf(f);
      assert t[|t| - 1].value == d.Get(f);
    }
  }

  /** Those answers add up to the all-minimum weighted total, 30. */
  lemma LowestAnswersTotal(d: LeadData)
    requires d.role == "2" && d.industry == "3" && d.revenue == "2" && d.employees == "3"
    requires d.budget == "2" && d.clarity == "2" && d.source == "3" && d.serviceInterest == "4"
    ensures WeightedTotal(d) == 30
  {
    ShowOfCodes();
    ParseShow(2);
    ParseShow(3);
    ParseShow(4);
    assert Value(d, Role) == 2 && Value(d, Source) == 3 && Value(d, ServiceInterest) == 4;
    assert Value(d, Industry) == 3 && Value(d, Revenue) == 2 && Value(d, Employees) == 3;
    assert Value(d, Budget) == 2 && Value(d, Clarity) == 2;
    WeightedTotalClosedForm(d);
  }

  /** The lower bound of the scale is reached: the lead whose answers are
      each table's smallest code ("2", "3", "2", "3", "2", "2", "3", "4")
      has answers from the tables and scores exactly 30/110·10. */
  lemma LowestAnswersScoreMinimum(d: LeadData)
    requires d.role == "2" && d.industry == "3" && d.revenue == "2" && d.employees == "3"
    requires d.budget == "2" && d.clarity == "2" && d.source == "3" && d.serviceInterest == "4"
    ensures FromTables(d)
    ensures WeightedTotal(d) == 30
    ensures Score(d).finalScore == 300.0 / 110.0
  {
    LowestAnswersFromTables(d);
    LowestAnswersTotal(d);
    assert Normalise(30) == 300.0 / 110.0;
  }

  /** Raising one categorical answer from the sentinel to a code raises the
      score by that code times the key's weight, over 110, times 10; every
      other key keeps its contribution. */
  lemma RaiseField(d: LeadData, f: Field, code: string)
    requires IsScorable(f)
    ensures Score(d.With(f, code)).finalScore - Score(d.With(f, "0")).finalScore
            == (Weight(f) * ParseIntOrZero(code)) as real * 10.0 / 110.0
  {
    ParseSentinelIsZero();
    WeightTable();
    WeightedTotalClosedForm(d.With(f, code));
    WeightedTotalClosedForm(d.With(f, "0"));
  }

  /** A changed answer on a weighted criterion moves the score twice as far
      as the same change on an unweighted one. */
  lemma WeightedCriteriaCountDouble(d: LeadData, f: Field, g: Field, code: string)
    requires f in {Role, Source, ServiceInterest}
    requires IsScorable(g) && g !in {Role, Source, ServiceInterest}
    ensures Score(d.With(f, code)).finalScore - Score(d.With(f, "0")).finalScore
            == 2.0 * (Score(d.With(g, code)).finalScore - Score(d.With(g, "0")).finalScore)
  {
    assert Weight(f) == 2 && Weight(g) == 1 by {
      WeightedCriteriaExact();
    }
    RaiseField(d, f, code);
    RaiseField(d, g, code);
    var p := ParseIntOrZero(code);
    assert (2 * p) as real * 10.0 / 110.0 == 2.0 * ((1 * p) as real * 10.0 / 110.0);
  }
}
