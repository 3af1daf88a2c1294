/**
 * The client script's search: `searchMedicine` (trim, then the fallback
 * chain) and `parseMedicineData` (each displayed field from an ordered list
 * of label fields, the first non-empty one winning).
 */
module ClientSearch {
  import opened Wrappers
  import opened Text
  import opened Label
  import MedicineModel

  /** What the name falls back to when the label has neither a brand nor a generic name. */
  const UnknownMedicine: string := "Unknown Medicine"

  /** The object the page renders. */
  datatype MedicineView = MedicineView(
    name: string,
    genericName: string,
    manufacturer: string,
    purpose: string,
    ingredients: string,
    sideEffects: string,
    warnings: string,
    interactions: string,
    dosage: string,
    whoShouldAvoid: string)

  /** Every displayed field holds some text. */
  predicate Filled(v: MedicineView) {
    && v.name != "" && v.genericName != "" && v.manufacturer != "" && v.purpose != ""
    && v.ingredients != "" && v.sideEffects != "" && v.warnings != "" && v.interactions != ""
    && v.dosage != "" && v.whoShouldAvoid != ""
  }

  /** The candidate label fields of each displayed field, in the order they are tried. */
  function NameCandidates(l: Label): seq<Option<string>> { [First(l.brandName), First(l.genericName)] }
  function PurposeCandidates(l: Label): seq<Option<string>> { [First(l.indicationsAndUsage), First(l.purpose)] }
  function IngredientCandidates(l: Label): seq<Option<string>> { [First(l.activeIngredient), First(l.splProductDataElements)] }
  function SideEffectCandidates(l: Label): seq<Option<string>> { [First(l.adverseReactions), First(l.sideEffects)] }
  function WarningCandidates(l: Label): seq<Option<string>> {
    [First(l.boxedWarning), First(l.warnings), First(l.warningsAndCautions)]
  }
  function AvoidCandidates(l: Label): seq<Option<string>> { [First(l.contraindications), First(l.whenUsing)] }

  /**
   * `parseMedicineData(result)`: each field is its first non-empty
   * candidate, else "Unknown Medicine" for the name and the sentinel for the
   * rest; so every field is non-empty.
   */
  function ParseMedicineData(l: Label): (v: MedicineView)
    ensures Filled(v)
    ensures IsFirstNonEmpty(v.name, NameCandidates(l), UnknownMedicine)
    ensures IsFirstNonEmpty(v.genericName, [First(l.genericName)], MedicineModel.NotAvailable)
    ensures IsFirstNonEmpty(v.manufacturer, [First(l.manufacturerName)], MedicineModel.NotAvailable)
    ensures IsFirstNonEmpty(v.purpose, PurposeCandidates(l), MedicineModel.NotAvailable)
    ensures IsFirstNonEmpty(v.ingredients, IngredientCandidates(l), MedicineModel.NotAvailable)
    ensures IsFirstNonEmpty(v.sideEffects, SideEffectCandidates(l), MedicineModel.NotAvailable)
    ensures IsFirstNonEmpty(v.warnings, WarningCandidates(l), MedicineModel.NotAvailable)
    ensures IsFirstNonEmpty(v.interactions, [First(l.drugInteractions)], MedicineModel.NotAvailable)
    ensures IsFirstNonEmpty(v.dosage, [First(l.dosageAndAdministration)], MedicineModel.NotAvailable)
    ensures IsFirstNonEmpty(v.whoShouldAvoid, AvoidCandidates(l), MedicineModel.NotAvailable)
  {
    var v := MedicineView(
      FirstNonEmpty(NameCandidates(l), UnknownMedicine),
      FirstNonEmpty([First(l.genericName)], MedicineModel.NotAvailable),
      FirstNonEmpty([First(l.manufacturerName)], MedicineModel.NotAvailable),
      FirstNonEmpty(PurposeCandidates(l), MedicineModel.NotAvailable),
      FirstNonEmpty(IngredientCandidates(l), MedicineModel.NotAvailable),
      FirstNonEmpty(SideEffectCandidates(l), MedicineModel.NotAvailable),
      FirstNonEmpty(WarningCandidates(l), MedicineModel.NotAvailable),
      FirstNonEmpty([First(l.drugInteractions)], MedicineModel.NotAvailable),
      FirstNonEmpty([First(l.dosageAndAdministration)], MedicineModel.NotAvailable),
      FirstNonEmpty(AvoidCandidates(l), MedicineModel.NotAvailable));
    v
  }

  /** The name of a parsed label: brand name, else generic name, else "Unknown Medicine". */
  lemma ParsedName(l: Label)
    ensures var v := ParseMedicineData(l);
      && (Truthy(First(l.brandName)) ==> v.name == l.brandName[0])
      && (!Truthy(First(l.brandName)) && Truthy(First(l.genericName)) ==> v.name == l.genericName[0])
      && (!Truthy(First(l.brandName)) && !Truthy(First(l.genericName)) ==> v.name == UnknownMedicine)
  {
    var c := NameCandidates(l);
    assert Truthy(First(l.brandName)) ==> FirstTruthyAt(c, 0);
    assert !Truthy(First(l.brandName)) && Truthy(First(l.genericName)) ==> FirstTruthyAt(c, 1);
  }

  /** The warnings of a parsed label: boxed warning, else warnings, else warnings and cautions, else the sentinel. */
  lemma ParsedWarnings(l: Label)
    ensures var v := ParseMedicineData(l);
      && (Truthy(First(l.boxedWarning)) ==> v.warnings == l.boxedWarning[0])
      && (!Truthy(First(l.boxedWarning)) && Truthy(First(l.warnings)) ==> v.warnings == l.warnings[0])
      && (!Truthy(First(l.boxedWarning)) && !Truthy(First(l.warnings)) && Truthy(First(l.warningsAndCautions))
          ==> v.warnings == l.warningsAndCautions[0])
      && (!Truthy(First(l.boxedWarning)) && !Truthy(First(l.warnings)) && !Truthy(First(l.warningsAndCautions))
          ==> v.warnings == MedicineModel.NotAvailable)
  {
    var c := WarningCandidates(l);
    assert Truthy(First(l.boxedWarning)) ==> FirstTruthyAt(c, 0);
    assert !Truthy(First(l.boxedWarning)) && Truthy(First(l.warnings)) ==> FirstTruthyAt(c, 1);
    assert !Truthy(First(l.boxedWarning)) && !Truthy(First(l.warnings)) && Truthy(First(l.warningsAndCautions))
           ==> FirstTruthyAt(c, 2);
  }

  /**
   * `searchMedicine(input)`: the input is trimmed, the fallback chain runs on
   * the trimmed name, and a found label is parsed; no result exactly when
   * all three searches give nothing.
   */
  function SearchMedicine(input: string, fetch: Fetch): (r: Option<MedicineView>)
    ensures var name := Trim(input);
      && (r.None? <==> fetch(BrandName, name).None? && fetch(GenericName, name).None? && fetch(SubstanceName, name).None?)
      && (fetch(BrandName, name).Some? ==> r == Some(ParseMedicineData(fetch(BrandName, name).value)))
      && (fetch(BrandName, name).None? && fetch(GenericName, name).Some?
          ==> r == Some(ParseMedicineData(fetch(GenericName, name).value)))
      && (fetch(BrandName, name).None? && fetch(GenericName, name).None? && fetch(SubstanceName, name).Some?
          ==> r == Some(ParseMedicineData(fetch(SubstanceName, name).value)))
    ensures r.Some? ==> Filled(r.value)
  {
    var name := Trim(input);
    FetchFirstOrder(fetch, name);
    match FetchFirst(fetch, name).0
    case None => None
    case Some(l) => Some(ParseMedicineData(l))
  }
}
