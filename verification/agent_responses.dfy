/** The responses the agents return (src/ai_support_agent/domain/agent_responses.py): the
    customer support agent's reading of a query and the product specialist's analysis,
    each built through its field constraints and model validator. */
module AgentResponses {
  import opened Wrappers
  import opened Dicts
  import opened ModelChecks
  import ProductTypes

  datatype CustomerSupportResponse = CustomerSupportResponse(
    queryIntent: ProductTypes.QueryIntent,
    confidence: real,
    clarificationNeeded: bool,
    clarificationQuestion: Option<string>,
    displayPreferences: ProductTypes.DisplayPreferences,
    processingTime: real)

  /** `needs_specialist`: low confidence, or a query that needs clarifying. */
  predicate NeedsSpecialist(r: CustomerSupportResponse)
  {
    r.confidence < 0.8 || r.clarificationNeeded
  }

  /** `is_high_confidence` */
  predicate IsHighConfidence(r: CustomerSupportResponse)
  {
    r.confidence >= 0.9
  }

  /** A clarification question that is present and non-empty. */
  predicate HasQuestion(question: Option<string>)
  {
    question.Some? && question.value != ""
  }

  const ClarificationMessage := "Clarification question required when clarification_needed is True"

  /** `CustomerSupportResponse(...)`: the confidence must lie in [0, 1] and the processing
      time must not be negative; then `validate_clarification` rejects a response that
      needs clarification but has no question. */
  function NewCustomerSupportResponse(
    intent: ProductTypes.QueryIntent, confidence: real, clarificationNeeded: bool,
    question: Option<string>, preferences: ProductTypes.DisplayPreferences, processingTime: real): (r: Result<CustomerSupportResponse, ModelError>)
    ensures r.Ok? <==> UnitInterval(confidence) && processingTime >= 0.0 && (clarificationNeeded ==> HasQuestion(question))
    ensures r.Ok? ==> r.value == CustomerSupportResponse(intent, confidence, clarificationNeeded, question, preferences, processingTime)
    ensures r.Ok? && NeedsSpecialist(r.value) && IsHighConfidence(r.value) ==> HasQuestion(r.value.clarificationQuestion)
    ensures r.Err? && r.error.Rejected? ==> r.error.message == ClarificationMessage && clarificationNeeded
  {
    Build(CustomerSupportResponse(intent, confidence, clarificationNeeded, question, preferences, processingTime),
          [("confidence", UnitInterval(confidence)), ("processing_time", processingTime >= 0.0)],
          if clarificationNeeded && !HasQuestion(question) then Some(ClarificationMessage) else None)
  }

  datatype ProductSpecialistResponse = ProductSpecialistResponse(
    technicalAnalysis: Dict<string>,
    recommendations: seq<string>,
    bestUses: seq<string>,
    considerations: seq<string>,
    comparativeAnalysis: Dict<string>)

  /** `has_differences` */
  predicate HasDifferences(r: ProductSpecialistResponse)
  {
    r.comparativeAnalysis != []
  }

  const TechnicalAnalysisMessage := "Technical analysis cannot be empty"

  /** `validate_analysis` as written: the four checks in order, the first that fails giving
      the message. */
  function AnalysisRejection(technicalAnalysis: Dict<string>, recommendations: seq<string>, bestUses: seq<string>, considerations: seq<string>): (r: Option<string>)
    ensures r.None? <==> technicalAnalysis != [] && recommendations != [] && bestUses != [] && considerations != []
    ensures technicalAnalysis == [] ==> r == Some(TechnicalAnalysisMessage)
  {
    if technicalAnalysis == [] then Some(TechnicalAnalysisMessage)
    else if recommendations == [] then Some("Must provide at least one recommendation")
    else if bestUses == [] then Some("Must provide at least one best use case")
    else if considerations == [] then Some("Must provide at least one consideration")
    else None
  }

  /** `ProductSpecialistResponse(...)`: recommendations, best uses and considerations each
      need at least one item (`min_length=1`), and those field errors come before the
      validator runs, so the only message the validator can ever raise is the one for an
      empty technical analysis. */
  function NewProductSpecialistResponse(
    technicalAnalysis: Dict<string>, recommendations: seq<string>, bestUses: seq<string>,
    considerations: seq<string>, comparativeAnalysis: Dict<string>): (r: Result<ProductSpecialistResponse, ModelError>)
    ensures r.Ok? <==> technicalAnalysis != [] && recommendations != [] && bestUses != [] && considerations != []
    ensures r.Ok? ==> r.value == ProductSpecialistResponse(technicalAnalysis, recommendations, bestUses, considerations, comparativeAnalysis)
    ensures r.Err? && r.error.Rejected? ==> r.error.message == TechnicalAnalysisMessage
    ensures r.Err? && r.error.FieldsInvalid? ==> forall f :: f in r.error.fields ==> f in {"recommendations", "best_uses", "considerations"}
  {
    var checks := [("recommendations", recommendations != []), ("best_uses", bestUses != []), ("considerations", considerations != [])];
    assert checks[0].1 == (recommendations != []) && checks[1].1 == (bestUses != []) && checks[2].1 == (considerations != []);
    Build(ProductSpecialistResponse(technicalAnalysis, recommendations, bestUses, considerations, comparativeAnalysis),
          checks, AnalysisRejection(technicalAnalysis, recommendations, bestUses, considerations))
  }

  function Min(a: int, b: int): int
  {
    if a <= b then a else b
  }

  /** `key_findings`: up to two recommendations, then up to two considerations, each in
      their order. */
  function KeyFindings(r: ProductSpecialistResponse): (f: seq<string>)
    ensures |f| == Min(2, |r.recommendations|) + Min(2, |r.considerations|) <= 4
    ensures forall i :: 0 <= i < Min(2, |r.recommendations|) ==> f[i] == r.recommendations[i]
    ensures forall i :: 0 <= i < Min(2, |r.considerations|) ==> f[Min(2, |r.recommendations|) + i] == r.considerations[i]
  {
    var fromRecommendations := if r.recommendations != [] then r.recommendations[..Min(2, |r.recommendations|)] else [];
    var fromConsiderations := if r.considerations != [] then r.considerations[..Min(2, |r.considerations|)] else [];
    fromRecommendations + fromConsiderations
  }

  /** Every accepted analysis has two to four key findings, led by its first recommendation
      and including its first consideration. */
  lemma AcceptedKeyFindings(
    technicalAnalysis: Dict<string>, recommendations: seq<string>, bestUses: seq<string>,
    considerations: seq<string>, comparativeAnalysis: Dict<string>)
    requires NewProductSpecialistResponse(technicalAnalysis, recommendations, bestUses, considerations, comparativeAnalysis).Ok?
    ensures var f := KeyFindings(NewProductSpecialistResponse(technicalAnalysis, recommendations, bestUses, considerations, comparativeAnalysis).value);
            2 <= |f| <= 4 && f[0] == recommendations[0] && considerations[0] in f
  {
    var r := NewProductSpecialistResponse(technicalAnalysis, recommendations, bestUses, considerations, comparativeAnalysis).value;
    var f := KeyFindings(r);
    assert f[Min(2, |recommendations|) + 0] == considerations[0];
  }
}
