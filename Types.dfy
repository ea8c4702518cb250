/** The record shapes of the lead scorer: the questionnaire answers, the
    score with its per-criterion breakdown, the recommendation record and
    the history entry, and the empty form every session starts from. */
module Types {

  /** The eleven keys of a lead record, in the order the record declares
      them (and so the order in which a `for … in` loop visits them). */
  datatype Field =
    | FirstName | LastName | Role | Industry | Revenue | Employees
    | Budget | Clarity | NeedDetails | Source | ServiceInterest
  {
    /** The property name the key has in the record. */
    function Name(): string {
      match this
      case FirstName => "firstName"
      case LastName => "lastName"
      case Role => "role"
      case Industry => "industry"
      case Revenue => "revenue"
      case Employees => "employees"
      case Budget => "budget"
      case Clarity => "clarity"
      case NeedDetails => "needDetails"
      case Source => "source"
      case ServiceInterest => "serviceInterest"
    }
  }

  /** Every key in declaration order. */
  const FieldOrder: seq<Field> :=
    [FirstName, LastName, Role, Industry, Revenue, Employees, Budget, Clarity, NeedDetails, Source, ServiceInterest]

  /** The property names that are not scored: the two identity fields and
      the free-text need description. */
  const UnscoredNames: seq<string> := ["needDetails", "firstName", "lastName"]

  /** A key of the scorable part of the record (`ScorableLeadData`): a
      categorical criterion whose value is an option code. */
  predicate IsScorable(f: Field) {
    f.Name() !in UnscoredNames
  }

  /** The keys of `ScorableLeadData`, in declaration order. */
  const ScorableFields: seq<Field> := [Role, Industry, Revenue, Employees, Budget, Clarity, Source, ServiceInterest]

  /** One submitted questionnaire: every property is a string; the
      categorical ones hold option codes ("0" while unselected). */
  datatype LeadData = LeadData(
    firstName: string,
    lastName: string,
    role: string,
    industry: string,
    revenue: string,
    employees: string,
    budget: string,
    clarity: string,
    needDetails: string,
    source: string,
    serviceInterest: string)
  {
    /** `data[key]`. */
    function Get(f: Field): string {
      match f
      case FirstName => firstName
      case LastName => lastName
      case Role => role
      case Industry => industry
      case Revenue => revenue
      case Employees => employees
      case Budget => budget
      case Clarity => clarity
      case NeedDetails => needDetails
      case Source => source
      case ServiceInterest => serviceInterest
    }

    /** `{ ...data, [key]: value }`. */
    function With(f: Field, value: string): LeadData {
      match f
      case FirstName => this.(firstName := value)
      case LastName => this.(lastName := value)
      case Role => this.(role := value)
      case Industry => this.(industry := value)
      case Revenue => this.(revenue := value)
      case Employees => this.(employees := value)
      case Budget => this.(budget := value)
      case Clarity => this.(clarity := value)
      case NeedDetails => this.(needDetails := value)
      case Source => this.(source := value)
      case ServiceInterest => this.(serviceInterest := value)
    }
  }

  /** The score of one lead: the normalised score and, per scorable key,
      the parsed option code. */
  datatype ScoreResult = ScoreResult(finalScore: real, breakdown: map<Field, int>)

  /** The three priority tiers a recommendation can carry. */
  datatype Priority = Alta | Media | Baja
  {
    function Text(): string {
      match this
      case Alta => "Alta"
      case Media => "Media"
      case Baja => "Baja"
    }
  }

  /** The recommendation record returned for a scored lead; the model
      treats its contents as given. */
  datatype Recommendations = Recommendations(
    serviceCategory: string,
    service: string,
    nextSteps: string,
    priority: Priority,
    action: string,
    scoreJustification: string,
    serviceJustification: string)

  /** One history entry: the identifier (an ISO timestamp in the program),
      the raw answers, their human-readable labels, the score and the
      recommendation. */
  datatype HistoricLead = HistoricLead(
    id: string,
    formData: LeadData,
    readableData: LeadData,
    scoreResult: ScoreResult,
    recommendations: Recommendations)

  /** The empty form: every option unselected, every text blank. */
  const InitialLeadData: LeadData := LeadData("", "", "0", "0", "0", "0", "0", "0", "", "0", "0")

  /** The record has eleven distinct keys, listed once each in
      declaration order, and their property names are distinct too. */
  lemma FieldOrderComplete()
    ensures |FieldOrder| == 11
    ensures forall f: Field :: f in FieldOrder
    ensures forall i, j :: 0 <= i < j < |FieldOrder| ==> FieldOrder[i] != FieldOrder[j]
    ensures forall f: Field, g: Field :: f != g ==> f.Name() != g.Name()
  {
    forall f: Field ensures f in FieldOrder {
      match f
      case FirstName => case LastName => case Role => case Industry =>
      case Revenue => case Employees => case Budget => case Clarity =>
      case NeedDetails => case Source => case ServiceInterest =>
    }
    FieldNamesDistinct();
  }

  /** No two keys share a property name. */
  lemma FieldNamesDistinct()
    ensures forall f: Field, g: Field :: f != g ==> f.Name() != g.Name()
  {
    forall f: Field, g: Field | f != g ensures f.Name() != g.Name() {
      assert f.Name()[..2] != g.Name()[..2] || f.Name()[2..] != g.Name()[2..];
    }
  }

  /** `ScorableLeadData` is the record minus `firstName`, `lastName` and
      `needDetails`: exactly the eight listed keys. */
  lemma ScorableFieldsExact()
    ensures |ScorableFields| == 8
    ensures forall f: Field :: IsScorable(f) <==> f in ScorableFields
    ensures forall i, j :: 0 <= i < j < |ScorableFields| ==> ScorableFields[i] != ScorableFields[j]
    ensures !IsScorable(FirstName) && !IsScorable(LastName) && !IsScorable(NeedDetails)
  {
    forall f: Field ensures IsScorable(f) <==> f in ScorableFields {
      assert f.Name() in UnscoredNames <==> f in {FirstName, LastName, NeedDetails};
    }
  }

  /** Writing one key changes that key and no other. */
  lemma WithGet(d: LeadData, f: Field, value: string, g: Field)
    ensures d.With(f, value).Get(g) == if g == f then value else d.Get(g)
  {
  }

  /** Two records that agree on every key are the same record. */
  lemma LeadDataExtensional(a: LeadData, b: LeadData)
    requires forall f: Field :: a.Get(f) == b.Get(f)
    ensures a == b
  {
    assert a.Get(FirstName) == b.Get(FirstName) && a.Get(LastName) == b.Get(LastName);
    assert a.Get(Role) == b.Get(Role) && a.Get(Industry) == b.Get(Industry);
    assert a.Get(Revenue) == b.Get(Revenue) && a.Get(Employees) == b.Get(Employees);
    assert a.Get(Budget) == b.Get(Budget) && a.Get(Clarity) == b.Get(Clarity);
    assert a.Get(NeedDetails) == b.Get(NeedDetails) && a.Get(Source) == b.Get(Source);
    assert a.Get(ServiceInterest) == b.Get(ServiceInterest);
  }

  /** The empty form holds the sentinel "0" in every categorical key and
      the empty string in every text key. */
  lemma InitialLeadDataShape()
    ensures forall f: Field :: InitialLeadData.Get(f) == if IsScorable(f) then "0" else ""
  {
    ScorableFieldsExact();
  }
}
