/** The records of a comparison response (src/ai_support_agent/types/comparison.py) and the
    field constraints pydantic checks when one is built. Building a record either yields it
    or fails with the name of the violated constraint, as the model's `ValidationError`
    would. */
module Comparison {
  import opened Wrappers
  import opened Dicts

  /** `SpecificationValue`: one model's value of one specification. */
  datatype SpecificationValue = SpecificationValue(unit: Option<string>, value: string, displayValue: string)

  /** `ComparisonSpecification` (its optional `analysis` is never set by the comparison
      builder and is not represented). */
  datatype ComparisonSpecification = ComparisonSpecification(
    category: string,
    specification: string,
    values: Dict<SpecificationValue>,
    hasDifferences: bool)

  /** `ComparisonFeature`: a feature or advantage text and, per model, whether the model
      lists it. */
  datatype ComparisonFeature = ComparisonFeature(text: string, models: Dict<bool>)

  /** The value type of `ComparisonSection.categories`: a list of specifications or a list
      of features. */
  datatype SectionEntries =
    | Specifications(specs: seq<ComparisonSpecification>)
    | Features(features: seq<ComparisonFeature>)

  /** `ComparisonSection` */
  datatype ComparisonSection = ComparisonSection(categories: Dict<SectionEntries>)

  /** `ComparisonResponse` */
  datatype ComparisonResponse = ComparisonResponse(
    modelNumbers: seq<string>,
    comparisonId: string,
    sections: Dict<ComparisonSection>,
    differencesCount: int)

  /** `SpecificationValue(unit=..., value=..., display_value=...)`: `value` has
      `min_length=1`. */
  function NewSpecificationValue(unit: Option<string>, value: string, displayValue: string): (r: Result<SpecificationValue, string>)
    ensures r.Ok? <==> value != ""
    ensures r.Ok? ==> r.value == SpecificationValue(unit, value, displayValue)
  {
    if value == "" then Err("value: String should have at least 1 character")
    else Ok(SpecificationValue(unit, value, displayValue))
  }

  /** `ComparisonFeature(text=..., models=...)`: `text` has `min_length=1`. */
  function NewComparisonFeature(text: string, models: Dict<bool>): (r: Result<ComparisonFeature, string>)
    ensures r.Ok? <==> text != ""
    ensures r.Ok? ==> r.value == ComparisonFeature(text, models)
  {
    if text == "" then Err("text: String should have at least 1 character")
    else Ok(ComparisonFeature(text, models))
  }

  /** What a built `ComparisonResponse` always satisfies. */
  predicate ValidResponse(r: ComparisonResponse)
  {
    |r.modelNumbers| >= 2 && r.comparisonId != "" && r.differencesCount >= 0
  }

  /** `ComparisonResponse(model_numbers=..., comparison_id=..., sections=...,
      differences_count=...)`: at least two model numbers, a non-empty identifier and a
      count that is not negative, checked in field order. */
  function NewComparisonResponse(modelNumbers: seq<string>, comparisonId: string,
                                 sections: Dict<ComparisonSection>, differencesCount: int): (r: Result<ComparisonResponse, string>)
    ensures r.Ok? <==> |modelNumbers| >= 2 && comparisonId != "" && differencesCount >= 0
    ensures r.Ok? ==> r.value == ComparisonResponse(modelNumbers, comparisonId, sections, differencesCount)
    ensures r.Ok? ==> ValidResponse(r.value)
  {
    if |modelNumbers| < 2 then Err("model_numbers: List should have at least 2 items")
    else if comparisonId == "" then Err("comparison_id: String should have at least 1 character")
    else if differencesCount < 0 then Err("differences_count: Input should be greater than or equal to 0")
    else Ok(ComparisonResponse(modelNumbers, comparisonId, sections, differencesCount))
  }

  /** A response built with only the required fields has no sections and a difference
      count of 0. */
  lemma DefaultResponse(modelNumbers: seq<string>, comparisonId: string)
    requires |modelNumbers| >= 2 && comparisonId != ""
    ensures NewComparisonResponse(modelNumbers, comparisonId, [], 0)
            == Ok(ComparisonResponse(modelNumbers, comparisonId, [], 0))
  {
  }
}
