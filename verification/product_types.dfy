/** The product query types (src/ai_support_agent/types/product.py): search criteria, model
    targets, query intents and display preferences, each built through its field
    constraints and model validator. */
module ProductTypes {
  import opened Wrappers
  import opened Text
  import opened Dicts
  import opened PyValues
  import opened ModelChecks

  /** `QueryDomain` */
  const QueryDomains: set<string> := {"product", "case_study", "company", "careers"}

  /** `QueryIntent`: a topic, an optional sub-topic and a context mapping. It declares no
      domain. */
  datatype QueryIntent = QueryIntent(topic: string, subTopic: Option<string>, context: Dict<Value>)

  datatype SearchCriteria = SearchCriteria(terms: seq<string>, filters: Dict<Value>, confidenceThreshold: real)

  /** The default `confidence_threshold`. */
  const DefaultThreshold: real := 0.7

  /** `has_terms` */
  predicate HasTerms(c: SearchCriteria)
  {
    c.terms != []
  }

  /** `has_filters` */
  predicate HasFilters(c: SearchCriteria)
  {
    c.filters != []
  }

  /** `SearchCriteria(...)`: the threshold must lie in [0, 1], and then `validate_criteria`
      rejects criteria with neither terms nor filters. */
  function NewSearchCriteria(terms: seq<string>, filters: Dict<Value>, threshold: real): (r: Result<SearchCriteria, ModelError>)
    ensures r.Ok? <==> UnitInterval(threshold) && (terms != [] || filters != [])
    ensures r.Ok? ==> r.value == SearchCriteria(terms, filters, threshold) && (HasTerms(r.value) || HasFilters(r.value))
    ensures !UnitInterval(threshold) ==> r == Err(FieldsInvalid(["confidence_threshold"]))
    ensures UnitInterval(threshold) && terms == [] && filters == [] ==> r == Err(Rejected("Must provide either search terms or filters"))
  {
    Build(SearchCriteria(terms, filters, threshold),
          [("confidence_threshold", UnitInterval(threshold))],
          if terms == [] && filters == [] then Some("Must provide either search terms or filters") else None)
  }

  /** Criteria that `NewSearchCriteria` accepts. */
  predicate ValidCriteria(c: SearchCriteria)
  {
    NewSearchCriteria(c.terms, c.filters, c.confidenceThreshold).Ok?
  }

  datatype ModelTarget = ModelTarget(modelNumbers: seq<string>, searchCriteria: Option<SearchCriteria>, metadata: Dict<Value>)

  /** `has_models` */
  predicate HasModels(t: ModelTarget)
  {
    t.modelNumbers != []
  }

  /** `has_search`: a model instance has no length or truth hook, so any criteria count. */
  predicate HasSearch(t: ModelTarget)
  {
    t.searchCriteria.Some?
  }

  /** `ModelTarget(...)`: `validate_target` rejects a target with neither model numbers
      nor search criteria. */
  function NewModelTarget(modelNumbers: seq<string>, criteria: Option<SearchCriteria>, metadata: Dict<Value>): (r: Result<ModelTarget, ModelError>)
    ensures r.Ok? <==> modelNumbers != [] || criteria.Some?
    ensures r.Ok? ==> r.value == ModelTarget(modelNumbers, criteria, metadata) && (HasModels(r.value) || HasSearch(r.value))
    ensures r.Err? ==> r.error == Rejected("Must provide either model numbers or search criteria")
  {
    Build(ModelTarget(modelNumbers, criteria, metadata), [],
          if modelNumbers == [] && criteria.None? then Some("Must provide either model numbers or search criteria") else None)
  }

  datatype DisplayPreferences = DisplayPreferences(
    outputFormat: string,
    sectionsToShow: seq<string>,
    showDifferencesOnly: bool,
    includeMetadata: bool)

  const OutputFormats: set<string> := {"json", "text", "dataframe"}

  const ValidSections: set<string> := {"features", "electrical", "magnetic", "physical", "advantages", "diagram"}

  const DefaultSections: seq<string> := ["features", "electrical", "magnetic"]

  /** A section name `validate_sections` accepts: its lower-case form is a valid section. */
  predicate KnownSection(s: string)
  {
    Lower(s) in ValidSections
  }

  /** `validate_sections`: the sections whose lower-case form is not valid, if any. */
  function SectionsRejection(sections: seq<string>): (r: Option<string>)
    ensures r.None? <==> forall i :: 0 <= i < |sections| ==> KnownSection(sections[i])
    ensures r.Some? ==> r.value == InvalidSectionsMessage(Rejects(sections, KnownSection))
  {
    var invalid := Rejects(sections, KnownSection);
    if invalid != [] then Some(InvalidSectionsMessage(invalid)) else None
  }

  /** `DisplayPreferences(...)`: the output format must be one of the three literals; then
      every section must be valid ignoring case, and the error lists the invalid ones in
      order. */
  function NewDisplayPreferences(outputFormat: string, sections: seq<string>, differencesOnly: bool, includeMetadata: bool): (r: Result<DisplayPreferences, ModelError>)
    ensures r.Ok? <==> outputFormat in OutputFormats && forall i :: 0 <= i < |sections| ==> KnownSection(sections[i])
    ensures r.Ok? ==> r.value == DisplayPreferences(outputFormat, sections, differencesOnly, includeMetadata)
    ensures outputFormat !in OutputFormats ==> r == Err(FieldsInvalid(["output_format"]))
    ensures r.Err? && r.error.Rejected? ==> r.error.message == InvalidSectionsMessage(Rejects(sections, KnownSection))
  {
    Build(DisplayPreferences(outputFormat, sections, differencesOnly, includeMetadata),
          [("output_format", outputFormat in OutputFormats)],
          SectionsRejection(sections))
  }

  /** The defaults (text output, the three default sections) are accepted. */
  lemma DefaultsAccepted()
    ensures NewDisplayPreferences("text", DefaultSections, false, true).Ok?
  {
    DefaultSectionsKnown();
    assert SectionsRejection(DefaultSections).None?;
    assert "text" in OutputFormats;
  }

  lemma DefaultSectionsKnown()
    ensures forall i :: 0 <= i < |DefaultSections| ==> KnownSection(DefaultSections[i])
  {
    forall i | 0 <= i < |DefaultSections|
      ensures KnownSection(DefaultSections[i])
    {
      DefaultSectionKnown(DefaultSections[i]);
    }
  }

  lemma DefaultSectionKnown(s: string)
    requires s == "features" || s == "electrical" || s == "magnetic"
    ensures KnownSection(s)
  {
    if s == "features" {
      LowerNoUpper("features");
    } else if s == "electrical" {
      LowerNoUpper("electrical");
    } else {
      LowerNoUpper("magnetic");
    }
  }

  /** Section names are checked ignoring case: a name is accepted exactly when its
      lower-case form is. */
  lemma SectionsIgnoreCase(sections: seq<string>)
    ensures SectionsRejection(sections).None? <==> SectionsRejection(LowerAll(sections)).None?
  {
    forall i | 0 <= i < |sections|
      ensures KnownSection(sections[i]) <==> KnownSection(LowerAll(sections)[i])
    {
      LowerLower(sections[i]);
    }
  }

  function LowerAll(ss: seq<string>): (r: seq<string>)
    ensures |r| == |ss| && forall i :: 0 <= i < |ss| ==> r[i] == Lower(ss[i])
  {
    if ss == [] then [] else [Lower(ss[0])] + LowerAll(ss[1..])
  }

  lemma LowerLower(s: string)
    ensures Lower(Lower(s)) == Lower(s)
  {
    forall i | 0 <= i < |s|
      ensures Lower(Lower(s))[i] == Lower(s)[i]
    {
    }
  }
}
