/** The static option tables of the questionnaire, the set of criteria
    that count double, and the hand-maintained normalisation constant,
    with the facts that tie them together. */
module Constants {
  import opened JsString
  import opened Types

  /** One selectable option: its point code and the label shown for it
      (`label` is a Dafny keyword, hence `labelText`). */
  datatype SelectOption = SelectOption(value: string, labelText: string)

  const RolOptions: seq<SelectOption> := [
    SelectOption("10", "CEO / Director General / Socio fundador"),
    SelectOption("8", "Gerente o cargo con poder de decisión (Admin, RRHH, Ops, Finanzas)"),
    SelectOption("2", "Cargo operativo sin capacidad de decisión")
  ]

  const IndustryOptions: seq<SelectOption> := [
    SelectOption("10", "Agro / Manufactura / Salud / Seguros / Banca"),
    SelectOption("6", "Sectores relacionados o estratégicamente afines"),
    SelectOption("3", "Otros sectores")
  ]

  const RevenueOptions: seq<SelectOption> := [
    SelectOption("10", "Más de 3M USD anuales"),
    SelectOption("7", "Entre 1M y 3M USD"),
    SelectOption("4", "Menos de 1M USD"),
    SelectOption("2", "Desconocida o no disponible")
  ]

  const EmployeesOptions: seq<SelectOption> := [
    SelectOption("10", "Más de 100 empleados"),
    SelectOption("8", "Entre 50 y 100 empleados"),
    SelectOption("5", "Entre 20 y 49 empleados"),
    SelectOption("3", "Menos de 20 empleados")
  ]

  const BudgetOptions: seq<SelectOption> := [
    SelectOption("10", "Confirmado"),
    SelectOption("5", "En evaluación"),
    SelectOption("2", "No definido o no disponible")
  ]

  const ClarityOptions: seq<SelectOption> := [
    SelectOption("10", "Necesidad clara y directamente relacionada con los servicios"),
    SelectOption("6", "Necesidad general o parcialmente alineada"),
    SelectOption("2", "Necesidad poco relacionada o indefinida")
  ]

  const SourceOptions: seq<SelectOption> := [
    SelectOption("10", "Referencia directa (cliente, socio, contacto interno)"),
    SelectOption("6", "Búsqueda activa / inbound (web, redes, eventos)"),
    SelectOption("3", "Outreach frío o sin referencia")
  ]

  /** Two options share the code "10": the table is not injective. */
  const ServiceInterestOptions: seq<SelectOption> := [
    SelectOption("10", "Estrategia y Transformación"),
    SelectOption("10", "IA Operativa & Agentes Inteligentes"),
    SelectOption("8", "Desarrollo Tecnológico e Implementación"),
    SelectOption("7", "Servicios Administrados y de Aceleración"),
    SelectOption("6", "Conocimiento y Capacitación"),
    SelectOption("4", "Otro / No estoy seguro")
  ]

  /** The property names whose points count double. */
  const WeightedCriteria: seq<string> := ["role", "source", "serviceInterest"]

  /** The hand-maintained maximum of the weighted total. */
  const MaxPossibleWeightedScore: int := 110

  /** The option table the form offers for a key; the text keys have none. */
  function TableOf(f: Field): seq<SelectOption> {
    match f
    case Role => RolOptions
    case Industry => IndustryOptions
    case Revenue => RevenueOptions
    case Employees => EmployeesOptions
    case Budget => BudgetOptions
    case Clarity => ClarityOptions
    case Source => SourceOptions
    case ServiceInterest => ServiceInterestOptions
    case _ => []
  }

  /** `WEIGHTED_CRITERIA.includes(key) ? 2 : 1`. */
  function Weight(f: Field): int {
    if f.Name() in WeightedCriteria then 2 else 1
  }

  /** The number an option's code stands for, read as the scorer reads it. */
  function CodeOf(o: SelectOption): int {
    ParseIntOrZero(o.value)
  }

  /** The largest code of a non-empty table. */
  function MaxCode(t: seq<SelectOption>): (m: int)
    requires t != []
    ensures forall i :: 0 <= i < |t| ==> CodeOf(t[i]) <= m
    ensures exists i :: 0 <= i < |t| && CodeOf(t[i]) == m
  {
    if |t| == 1 then CodeOf(t[0])
    else
      var rest := MaxCode(t[1..]);
      if CodeOf(t[0]) >= rest then CodeOf(t[0]) else rest
  }

  /** The smallest code of a non-empty table. */
  function MinCode(t: seq<SelectOption>): (m: int)
    requires t != []
    ensures forall i :: 0 <= i < |t| ==> m <= CodeOf(t[i])
    ensures exists i :: 0 <= i < |t| && CodeOf(t[i]) == m
  {
    if |t| == 1 then CodeOf(t[0])
    else
      var rest := MinCode(t[1..]);
      if CodeOf(t[0]) <= rest then CodeOf(t[0]) else rest
  }

  /** The weighted total reached when every key in `fs` takes its table's
      largest code. */
  function MaxWeightedTotal(fs: seq<Field>): int
    requires forall i :: 0 <= i < |fs| ==> IsScorable(fs[i])
  {
    if fs == [] then 0
    else
      var f := fs[|fs| - 1];
      ScorableHasTable(f);
      MaxWeightedTotal(fs[..|fs| - 1]) + Weight(f) * MaxCode(TableOf(f))
  }

  /** The weighted total reached when every key in `fs` takes its table's
      smallest code. */
  function MinWeightedTotal(fs: seq<Field>): int
    requires forall i :: 0 <= i < |fs| ==> IsScorable(fs[i])
  {
    if fs == [] then 0
    else
      var f := fs[|fs| - 1];
      ScorableHasTable(f);
      MinWeightedTotal(fs[..|fs| - 1]) + Weight(f) * MinCode(TableOf(f))
  }

  /** Every scorable key has a non-empty table. */
  lemma ScorableHasTable(f: Field)
    requires IsScorable(f)
    ensures TableOf(f) != []
  {
  }

  /** The invariants the scorer and the form rely on for one table: it is
      not empty, it starts at "10", every code is the decimal rendering of a
      positive integer (so none is the unselected sentinel "0"), and codes
      never increase down the table. */
  ghost predicate WellFormedTable(t: seq<SelectOption>) {
    && t != [] && t[0].value == "10"
    && (forall i :: 0 <= i < |t| ==> CodeOf(t[i]) > 0 && t[i].value == Show(CodeOf(t[i])) && t[i].value != "0")
    && (forall i, j :: 0 <= i < j < |t| ==> CodeOf(t[i]) >= CodeOf(t[j]))
  }

  /** A table whose codes are the renderings of a non-increasing list of
      positive numbers starting at 10 is well formed, and its codes read
      back as those numbers. */
  lemma TableFromCodes(t: seq<SelectOption>, ns: seq<nat>)
    requires |t| == |ns| > 0 && ns[0] == 10
    requires forall i :: 0 <= i < |t| ==> t[i].value == Show(ns[i]) && ns[i] > 0
    requires forall i :: 0 < i < |t| ==> ns[i - 1] >= ns[i]
    ensures WellFormedTable(t)
    ensures forall i :: 0 <= i < |t| ==> CodeOf(t[i]) == ns[i]
  {
    forall i | 0 <= i < |t| ensures CodeOf(t[i]) == ns[i] {
      ParseShow(ns[i]);
    }
    forall i | 0 <= i < |t| ensures t[i].value != "0" {
      ShowPositiveIsNotZero(ns[i]);
    }
    forall i, j | 0 <= i < j < |t| ensures ns[i] >= ns[j] {
      var k := j;
      while k > i
        invariant i <= k <= j && ns[k] >= ns[j]
      {
        k := k - 1;
      }
    }
  }

  /** The decimal renderings of the numbers the tables use. */
  lemma ShowOfCodes()
    ensures Show(10) == "10" && Show(8) == "8" && Show(7) == "7" && Show(6) == "6"
    ensures Show(5) == "5" && Show(4) == "4" && Show(3) == "3" && Show(2) == "2"
  {
  }

  /** Every table is well formed; the smallest codes are 2 (role),
      3 (industry), 2 (revenue), 3 (employees), 2 (budget), 2 (clarity),
      3 (source) and 4 (service interest). */
  lemma TablesWellFormed(f: Field)
    requires IsScorable(f)
    ensures WellFormedTable(TableOf(f))
    ensures CodeOf(TableOf(f)[|TableOf(f)| - 1]) == LowestCode(f)
  {
    match f
    case Role => RolOptionsWellFormed();
    case Industry => IndustryOptionsWellFormed();
    case Revenue => RevenueOptionsWellFormed();
    case Employees => EmployeesOptionsWellFormed();
    case Budget => BudgetOptionsWellFormed();
    case Clarity => ClarityOptionsWellFormed();
    case Source => SourceOptionsWellFormed();
    case ServiceInterest => ServiceInterestOptionsWellFormed();
  }

  /** The codes of `RolOptions`, read as numbers, are 10, 8, 2. */
  lemma RolOptionsWellFormed()
    ensures WellFormedTable(RolOptions)
    ensures CodeOf(RolOptions[2]) == 2
  {
    ShowOfCodes();
    TableFromCodes(RolOptions, [10, 8, 2]);
  }

  /** The codes of `IndustryOptions`, read as numbers, are 10, 6, 3. */
  lemma IndustryOptionsWellFormed()
    ensures WellFormedTable(IndustryOptions)
    ensures CodeOf(IndustryOptions[2]) == 3
  {
    ShowOfCodes();
    TableFromCodes(IndustryOptions, [10, 6, 3]);
  }

  /** The codes of `RevenueOptions`, read as numbers, are 10, 7, 4, 2. */
  lemma RevenueOptionsWellFormed()
    ensures WellFormedTable(RevenueOptions)
    ensures CodeOf(RevenueOptions[3]) == 2
  {
    ShowOfCodes();
    TableFromCodes(RevenueOptions, [10, 7, 4, 2]);
  }

  /** The codes of `EmployeesOptions`, read as numbers, are 10, 8, 5, 3. */
  lemma EmployeesOptionsWellFormed()
    ensures WellFormedTable(EmployeesOptions)
    ensures CodeOf(EmployeesOptions[3]) == 3
  {
    ShowOfCodes();
    TableFromCodes(EmployeesOptions, [10, 8, 5, 3]);
  }

  /** The codes of `BudgetOptions`, read as numbers, are 10, 5, 2. */
  lemma BudgetOptionsWellFormed()
    ensures WellFormedTable(BudgetOptions)
    ensures CodeOf(BudgetOptions[2]) == 2
  {
    ShowOfCodes();
    TableFromCodes(BudgetOptions, [10, 5, 2]);
  }

  /** The codes of `ClarityOptions`, read as numbers, are 10, 6, 2. */
  lemma ClarityOptionsWellFormed()
    ensures WellFormedTable(ClarityOptions)
    ensures CodeOf(ClarityOptions[2]) == 2
  {
    ShowOfCodes();
    TableFromCodes(ClarityOptions, [10, 6, 2]);
  }

  /** The codes of `SourceOptions`, read as numbers, are 10, 6, 3. */
  lemma SourceOptionsWellFormed()
    ensures WellFormedTable(SourceOptions)
    ensures CodeOf(SourceOptions[2]) == 3
  {
    ShowOfCodes();
    TableFromCodes(SourceOptions, [10, 6, 3]);
  }

  /** The codes of `ServiceInterestOptions`, read as numbers, are 10, 10, 8, 7, 6, 4. */
  lemma ServiceInterestOptionsWellFormed()
    ensures WellFormedTable(ServiceInterestOptions)
    ensures CodeOf(ServiceInterestOptions[5]) == 4
  {
    ShowOfCodes();
    TableFromCodes(ServiceInterestOptions, [10, 10, 8, 7, 6, 4]);
  }

  /** In a well-formed table the largest code is the first, 10, and the
      smallest is the last. */
  lemma WellFormedExtremes(t: seq<SelectOption>)
    requires WellFormedTable(t)
    ensures MaxCode(t) == 10 && MinCode(t) == CodeOf(t[|t| - 1])
  {
    var last := |t| - 1;
    ParseTen();
    assert CodeOf(t[0]) == 10;
    var i :| 0 <= i < |t| && CodeOf(t[i]) == MaxCode(t);
    assert CodeOf(t[0]) >= CodeOf(t[i]);
    var j :| 0 <= j < |t| && CodeOf(t[j]) == MinCode(t);
    assert CodeOf(t[j]) >= CodeOf(t[last]);
  }

  /** Within a table the codes are pairwise distinct, except that the
      service-interest table lists "10" twice (its first two entries). */
  lemma CodesUniqueExceptServiceInterest(f: Field)
    requires IsScorable(f)
    ensures f != ServiceInterest ==>
              forall i, j :: 0 <= i < j < |TableOf(f)| ==> TableOf(f)[i].value != TableOf(f)[j].value
    ensures f == ServiceInterest ==>
              forall i, j :: 0 <= i < j < |TableOf(f)| ==>
                (TableOf(f)[i].value == TableOf(f)[j].value <==> i == 0 && j == 1)
  {
  }

  /** `WEIGHTED_CRITERIA` names exactly the role, source and service-interest
      keys, all three of them categorical. */
  lemma WeightedCriteriaExact()
    ensures forall f: Field :: Weight(f) == 2 <==> f in {Role, Source, ServiceInterest}
    ensures forall f: Field :: Weight(f) == 1 <==> !(f in {Role, Source, ServiceInterest})
    ensures IsScorable(Role) && IsScorable(Source) && IsScorable(ServiceInterest)
  {
    FieldOrderComplete();
    forall f: Field ensures f.Name() in WeightedCriteria <==> f in {Role, Source, ServiceInterest} {
      assert Role.Name() == WeightedCriteria[0] && Source.Name() == WeightedCriteria[1];
      assert ServiceInterest.Name() == WeightedCriteria[2];
    }
  }

  /** The sum of the weights of the keys in `fs`. */
  function WeightSum(fs: seq<Field>): int {
    if fs == [] then 0 else WeightSum(fs[..|fs| - 1]) + Weight(fs[|fs| - 1])
  }

  /** The smallest code of each key's table, as listed in the tables. */
  function LowestCode(f: Field): int {
    match f
    case Role => 2 case Industry => 3 case Revenue => 2 case Employees => 3
    case Budget => 2 case Clarity => 2 case Source => 3 case ServiceInterest => 4
    case _ => 0
  }

  /** The weighted sum of the listed smallest codes. */
  function LowestWeightedSum(fs: seq<Field>): int {
    if fs == [] then 0 else LowestWeightedSum(fs[..|fs| - 1]) + Weight(fs[|fs| - 1]) * LowestCode(fs[|fs| - 1])
  }

  /** Every table tops out at 10, so the all-maximum total is ten times the
      sum of the weights. */
  lemma {:induction false} MaxWeightedTotalIsTenTimesWeights(fs: seq<Field>)
    requires forall i :: 0 <= i < |fs| ==> IsScorable(fs[i])
    ensures MaxWeightedTotal(fs) == 10 * WeightSum(fs)
  {
    if fs != [] {
      var f := fs[|fs| - 1];
      assert MaxCode(TableOf(f)) == 10 by {
        TablesWellFormed(f);
        WellFormedExtremes(TableOf(f));
      }
      MaxWeightedTotalIsTenTimesWeights(fs[..|fs| - 1]);
    }
  }

  /** The all-minimum total adds up the listed smallest codes. */
  lemma {:induction false} MinWeightedTotalIsLowest(fs: seq<Field>)
    requires forall i :: 0 <= i < |fs| ==> IsScorable(fs[i])
    ensures MinWeightedTotal(fs) == LowestWeightedSum(fs)
  {
    if fs != [] {
      var f := fs[|fs| - 1];
      assert MinCode(TableOf(f)) == LowestCode(f) by {
        TablesWellFormed(f);
        WellFormedExtremes(TableOf(f));
      }
      MinWeightedTotalIsLowest(fs[..|fs| - 1]);
    }
  }

  /** The weights of the first four scorable keys add up to 5, and their
      weighted smallest codes to 12. */
  lemma ScorableWeightSumsFront()
    ensures WeightSum([Role, Industry, Revenue, Employees]) == 5
    ensures LowestWeightedSum([Role, Industry, Revenue, Employees]) == 12
  {
    WeightedCriteriaExact();
    assert WeightSum([Role]) == 2 && LowestWeightedSum([Role]) == 4;
    assert WeightSum([Role, Industry]) == 3 && LowestWeightedSum([Role, Industry]) == 7 by {
      assert [Role, Industry][..1] == [Role];
    }
    assert WeightSum([Role, Industry, Revenue]) == 4 && LowestWeightedSum([Role, Industry, Revenue]) == 9 by {
      assert [Role, Industry, Revenue][..2] == [Role, Industry];
    }
    assert WeightSum([Role, Industry, Revenue, Employees]) == 5 && LowestWeightedSum([Role, Industry, Revenue, Employees]) == 12 by {
      assert [Role, Industry, Revenue, Employees][..3] == [Role, Industry, Revenue];
    }
  }

  /** The weights of the eight scorable keys add up to 11 (three of them
      count double), and their weighted smallest codes to 30. */
  lemma ScorableWeightSums()
    ensures WeightSum(ScorableFields) == 11
    ensures LowestWeightedSum(ScorableFields) == 30
  {
    WeightedCriteriaExact();
    ScorableWeightSumsFront();
    assert WeightSum([Role, Industry, Revenue, Employees, Budget]) == 6 && LowestWeightedSum([Role, Industry, Revenue, Employees, Budget]) == 14 by {
      assert [Role, Industry, Revenue, Employees, Budget][..4] == [Role, Industry, Revenue, Employees];
    }
    assert WeightSum([Role, Industry, Revenue, Employees, Budget, Clarity]) == 7 && LowestWeightedSum([Role, Industry, Revenue, Employees, Budget, Clarity]) == 16 by {
      assert [Role, Industry, Revenue, Employees, Budget, Clarity][..5] == [Role, Industry, Revenue, Employees, Budget];
    }
    assert WeightSum([Role, Industry, Revenue, Employees, Budget, Clarity, Source]) == 9 && LowestWeightedSum([Role, Industry, Revenue, Employees, Budget, Clarity, Source]) == 22 by {
      assert [Role, Industry, Revenue, Employees, Budget, Clarity, Source][..6] == [Role, Industry, Revenue, Employees, Budget, Clarity];
    }
    assert WeightSum([Role, Industry, Revenue, Employees, Budget, Clarity, Source, ServiceInterest]) == 11 && LowestWeightedSum([Role, Industry, Revenue, Employees, Budget, Clarity, Source, ServiceInterest]) == 30 by {
      assert [Role, Industry, Revenue, Employees, Budget, Clarity, Source, ServiceInterest][..7] == [Role, Industry, Revenue, Employees, Budget, Clarity, Source];
    }
  }

  /** The normalisation constant 110 is the weighted total of the all-maximum
      answer set: 2·10 + 10 + 10 + 10 + 10 + 10 + 2·10 + 2·10. */
  lemma MaxPossibleIsConsistent()
    ensures forall i :: 0 <= i < |ScorableFields| ==> IsScorable(ScorableFields[i])
    ensures MaxWeightedTotal(ScorableFields) == MaxPossibleWeightedScore
  {
    ScorableFieldsExact();
    MaxWeightedTotalIsTenTimesWeights(ScorableFields);
    ScorableWeightSums();
  }

  /** The all-minimum answer set reaches a weighted total of 30:
      2·2 + 3 + 2 + 3 + 2 + 2 + 2·3 + 2·4. */
  lemma MinPossibleIsThirty()
    ensures forall i :: 0 <= i < |ScorableFields| ==> IsScorable(ScorableFields[i])
    ensures MinWeightedTotal(ScorableFields) == 30
  {
    ScorableFieldsExact();
    MinWeightedTotalIsLowest(ScorableFields);
    ScorableWeightSums();
  }
}
