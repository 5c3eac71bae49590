/** The agent-level types (src/ai_support_agent/types/agent.py): display preferences as an
    agent sees them, the dependencies every agent is built with, and the base response,
    each built through its field constraints and model validator. */
module AgentTypes {
  import opened Wrappers
  import opened Text
  import opened Dicts
  import opened PyValues
  import opened ModelChecks
  import ProductTypes

  datatype DisplayPreferences = DisplayPreferences(
    outputFormat: string,
    sectionsToShow: seq<string>,
    showDifferencesOnly: bool,
    includeMetadata: bool)

  /** The section names an agent accepts, compared exactly. */
  const AgentSections: set<string> := {"features", "specs", "advantages", "differences"}

  /** `has_sections` */
  predicate HasSections(p: DisplayPreferences)
  {
    p.sectionsToShow != []
  }

  /** A section name the agent-level `validate_sections` accepts. */
  predicate AgentSection(s: string)
  {
    s in AgentSections
  }

  /** `validate_sections`: the sections not among the four names, if any. An empty list
      passes. */
  function SectionsRejection(sections: seq<string>): (r: Option<string>)
    ensures r.None? <==> forall i :: 0 <= i < |sections| ==> sections[i] in AgentSections
    ensures r.Some? ==> r.value == InvalidSectionsMessage(Rejects(sections, AgentSection))
  {
    var invalid := Rejects(sections, AgentSection);
    if invalid != [] then Some(InvalidSectionsMessage(invalid)) else None
  }

  /** `DisplayPreferences(...)`: the output format must be one of the three literals; then
      every section must be one of the four names, exactly as written. */
  function NewDisplayPreferences(outputFormat: string, sections: seq<string>, differencesOnly: bool, includeMetadata: bool): (r: Result<DisplayPreferences, ModelError>)
    ensures r.Ok? <==> outputFormat in ProductTypes.OutputFormats && forall i :: 0 <= i < |sections| ==> sections[i] in AgentSections
    ensures r.Ok? ==> r.value == DisplayPreferences(outputFormat, sections, differencesOnly, includeMetadata)
    ensures r.Ok? ==> (HasSections(r.value) <==> sections != [])
    ensures outputFormat !in ProductTypes.OutputFormats ==> r == Err(FieldsInvalid(["output_format"]))
    ensures r.Err? && r.error.Rejected? ==> r.error.message == InvalidSectionsMessage(Rejects(sections, AgentSection))
  {
    Build(DisplayPreferences(outputFormat, sections, differencesOnly, includeMetadata),
          [("output_format", outputFormat in ProductTypes.OutputFormats)],
          SectionsRejection(sections))
  }

  /** The defaults (JSON output, no sections) are accepted and request no sections. */
  lemma DefaultsAccepted()
    ensures NewDisplayPreferences("json", [], false, true).Ok?
    ensures !HasSections(NewDisplayPreferences("json", [], false, true).value)
  {
    assert "json" in ProductTypes.OutputFormats;
  }

  /** The agent-level validator takes "specs", which the product-level one refuses. */
  lemma SpecsOnlyForAgents()
    ensures SectionsRejection(["specs"]).None? && ProductTypes.SectionsRejection(["specs"]).Some?
  {
    LowerNoUpper("specs");
    assert !ProductTypes.KnownSection(["specs"][0]);
  }

  /** The agent-level validator refuses "Features", which the product-level one takes
      because it compares lower-case forms. */
  lemma CapitalizedOnlyForProducts()
    ensures SectionsRejection(["Features"]).Some? && ProductTypes.SectionsRejection(["Features"]).None?
  {
    assert Lower("Features") == "features";
    assert ProductTypes.KnownSection(["Features"][0]);
    assert !AgentSection(["Features"][0]);
  }

  /** `AgentDependencies`: the usage tracker (an object foreign to this model, kept as a
      value with Python's truthiness), the model name, temperature and other settings. */
  datatype AgentDependencies = AgentDependencies(
    usageTracker: Value,
    modelName: string,
    temperature: real,
    maxTokens: Option<int>,
    environment: string,
    displayPreferences: Option<Dict<Value>>)

  /** `is_configured` */
  predicate IsConfigured(d: AgentDependencies)
  {
    Truthy(d.usageTracker)
  }

  /** `AgentDependencies(...)`: the model name must be non-empty and the temperature in
      [0, 1]; then `validate_dependencies` rejects a falsy usage tracker. */
  function NewAgentDependencies(usageTracker: Value, modelName: string, temperature: real, maxTokens: Option<int>, environment: string, displayPreferences: Option<Dict<Value>>): (r: Result<AgentDependencies, ModelError>)
    ensures r.Ok? <==> modelName != [] && UnitInterval(temperature) && Truthy(usageTracker)
    ensures r.Ok? ==> r.value == AgentDependencies(usageTracker, modelName, temperature, maxTokens, environment, displayPreferences)
    ensures r.Ok? ==> IsConfigured(r.value)
    ensures r.Err? && r.error.FieldsInvalid? ==> forall f :: f in r.error.fields ==> f in {"model_name", "temperature"}
    ensures modelName != [] && UnitInterval(temperature) && !Truthy(usageTracker) ==> r == Err(Rejected("Usage tracker is required"))
  {
    Build(AgentDependencies(usageTracker, modelName, temperature, maxTokens, environment, displayPreferences),
          [("model_name", modelName != []), ("temperature", UnitInterval(temperature))],
          if !Truthy(usageTracker) then Some("Usage tracker is required") else None)
  }

  /** `AgentResponse`: a confidence and a metadata mapping. */
  datatype AgentResponse = AgentResponse(confidence: real, metadata: Dict<Value>)

  /** `is_high_confidence` */
  predicate IsHighConfidence(r: AgentResponse)
  {
    r.confidence >= 0.9
  }

  /** The metadata fields a non-empty metadata mapping must hold, in a fixed order. */
  const RequiredMetadata: seq<string> := ["source", "tokens"]

  /** The required fields the metadata lacks. */
  function MissingMetadata(metadata: Dict<Value>): (r: seq<string>)
    ensures forall f :: f in r <==> f in RequiredMetadata && f !in Keys(metadata)
  {
    Rejects(RequiredMetadata, f => f in Keys(metadata))
  }

  /** Python's display of a set of strings, for the fields in the order given. */
  function SetDisplay(fields: seq<string>): string
  {
    "{" + Join(Quoted(fields), ", ") + "}"
  }

  function Quoted(fields: seq<string>): (r: seq<string>)
    ensures |r| == |fields|
  {
    if fields == [] then [] else ["'" + fields[0] + "'"] + Quoted(fields[1..])
  }

  /** `validate_metadata`: empty metadata passes; otherwise both required fields must be
      present. */
  function MetadataRejection(metadata: Dict<Value>): (r: Option<string>)
    ensures r.None? <==> metadata == [] || ("source" in Keys(metadata) && "tokens" in Keys(metadata))
    ensures r.Some? ==> r.value == "Missing required metadata fields: " + SetDisplay(MissingMetadata(metadata))
  {
    if metadata != [] && MissingMetadata(metadata) != [] then
      Some("Missing required metadata fields: " + SetDisplay(MissingMetadata(metadata)))
    else
      None
  }

  /** `AgentResponse(...)`: the confidence must lie in [0, 1]; then non-empty metadata must
      carry "source" and "tokens". */
  function NewAgentResponse(confidence: real, metadata: Dict<Value>): (r: Result<AgentResponse, ModelError>)
    ensures r.Ok? <==> UnitInterval(confidence) && (metadata == [] || ("source" in Keys(metadata) && "tokens" in Keys(metadata)))
    ensures r.Ok? ==> r.value == AgentResponse(confidence, metadata)
    ensures r.Ok? ==> (IsHighConfidence(r.value) <==> 0.9 <= confidence <= 1.0)
    ensures !UnitInterval(confidence) ==> r == Err(FieldsInvalid(["confidence"]))
  {
    Build(AgentResponse(confidence, metadata), [("confidence", UnitInterval(confidence))], MetadataRejection(metadata))
  }
}
