/**
 * The stored medicine document and its schema defaults
 * (backend/models/Medicine.js).
 */
module MedicineModel {
  import opened Wrappers

  /** The sentinel the schema stores for an attribute the label did not supply. */
  const NotAvailable: string := "Not available"

  /** A cached medicine document; timestamps are not modelled. */
  datatype MedicineRecord = MedicineRecord(
    name: string,
    genericName: string,
    manufacturer: string,
    purpose: string,
    ingredients: string,
    sideEffects: string,
    warnings: string,
    interactions: string,
    dosage: string,
    whoShouldAvoid: string,
    searchCount: int)

  /** The plain object handed to `Medicine.create`: every path may be left undefined. */
  datatype MedicineInput = MedicineInput(
    name: Option<string>,
    genericName: Option<string>,
    manufacturer: Option<string>,
    purpose: Option<string>,
    ingredients: Option<string>,
    sideEffects: Option<string>,
    warnings: Option<string>,
    interactions: Option<string>,
    dosage: Option<string>,
    whoShouldAvoid: Option<string>,
    searchCount: Option<int>)

  /** Why a document was refused: the required `name` path was missing or empty. */
  datatype ValidationError = NameRequired

  /** A schema default: the supplied value, or the default when the path is undefined. */
  function Default<T>(supplied: Option<T>, default: T): (v: T)
    ensures supplied.Some? ==> v == supplied.value
    ensures supplied.None? ==> v == default
  {
    supplied.GetOr(default)
  }

  /**
   * `Medicine.create(input)`: validation of the required string `name`
   * (undefined and "" both fail), then defaults for the undefined paths.
   */
  function Create(input: MedicineInput): (r: Result<MedicineRecord, ValidationError>)
    ensures r.Failure? <==> input.name == None || input.name == Some("")
    ensures r.Success? ==> r.value.name == input.name.value && r.value.name != ""
    ensures r.Success? ==>
      && (input.genericName.None? ==> r.value.genericName == NotAvailable)
      && (input.manufacturer.None? ==> r.value.manufacturer == NotAvailable)
      && (input.purpose.None? ==> r.value.purpose == NotAvailable)
      && (input.ingredients.None? ==> r.value.ingredients == NotAvailable)
      && (input.sideEffects.None? ==> r.value.sideEffects == NotAvailable)
      && (input.warnings.None? ==> r.value.warnings == NotAvailable)
      && (input.interactions.None? ==> r.value.interactions == NotAvailable)
      && (input.dosage.None? ==> r.value.dosage == NotAvailable)
      && (input.whoShouldAvoid.None? ==> r.value.whoShouldAvoid == NotAvailable)
    ensures r.Success? ==>
      && (input.genericName.Some? ==> r.value.genericName == input.genericName.value)
      && (input.manufacturer.Some? ==> r.value.manufacturer == input.manufacturer.value)
      && (input.purpose.Some? ==> r.value.purpose == input.purpose.value)
      && (input.ingredients.Some? ==> r.value.ingredients == input.ingredients.value)
      && (input.sideEffects.Some? ==> r.value.sideEffects == input.sideEffects.value)
      && (input.warnings.Some? ==> r.value.warnings == input.warnings.value)
      && (input.interactions.Some? ==> r.value.interactions == input.interactions.value)
      && (input.dosage.Some? ==> r.value.dosage == input.dosage.value)
      && (input.whoShouldAvoid.Some? ==> r.value.whoShouldAvoid == input.whoShouldAvoid.value)
    ensures r.Success? ==> r.value.searchCount == (if input.searchCount.Some? then input.searchCount.value else 1)
  {
    match input.name
    case None => Failure(NameRequired)
    case Some(n) =>
      if n == "" then Failure(NameRequired)
      else Success(MedicineRecord(
        n,
        Default(input.genericName, NotAvailable),
        Default(input.manufacturer, NotAvailable),
        Default(input.purpose, NotAvailable),
        Default(input.ingredients, NotAvailable),
        Default(input.sideEffects, NotAvailable),
        Default(input.warnings, NotAvailable),
        Default(input.interactions, NotAvailable),
        Default(input.dosage, NotAvailable),
        Default(input.whoShouldAvoid, NotAvailable),
        Default(input.searchCount, 1)))
  }
}
