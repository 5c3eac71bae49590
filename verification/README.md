# ai-support-chat core, modelled in Dafny

This project models the deterministic core of the ai-support-chat system. That system is an
assistant that answers questions about reed-switch and reed-sensor products by reading their
PDF spec sheets and comparing models. The Dafny modules follow its source files one by one:

- **Pdf**, **PdfProcessor**: the parsed spec-sheet records (document, section, category,
  sub-specification, value with an optional unit). Also the parser that turns a spec table
  into those records, merges the tables of a document and guesses a model number from a
  file name.
- **Transformers**: the unit standardiser (`STANDARD_UNITS`, `standardize_unit`,
  `format_display_value`).
- **Comparison**, **Differences**, **CompareProcessor**: the comparison response types and the
  comparison builder. The builder gathers features and advantages into a presence matrix,
  collects every section/category/specification combination, and compares the models'
  values. It also reports the specifications whose values differ.
- **SectionNames**: the mapping from user-facing section names to internal names.
- **ProductTypes**, **AgentTypes**, **AgentResponses**, **ModelChecks**: the pydantic models
  with their field constraints and model validators. Each model is built by a function that
  returns either the model or the error pydantic would raise.
- **SupportAgent**: the customer-support agent's deterministic helpers. These walk a path
  through product information and lay out the response prompt.
- **Providers**: the LLM provider factory and its per-`provider:model` cache.
- **Validator**, **Rules**, **Enforcer**, **PatternErrors**: the pattern enforcer. It loads
  YAML rule blocks from a Markdown document, checks a Python file's imports and calls
  against a blacklist and a list of required imports, and runs a pre-action protocol that
  blocks actions until rules are fetched, patterns cited and validation shown. It also
  builds the messages of the enforcer's three error classes.

Helper modules:

- **Wrappers**: Option and Result.
- **Dicts**: insertion-ordered dictionaries as lists of pairs.
- **Text**: Python's `strip`, `split`, `join`, `lower`, `startswith` and `in` on strings.
- **PyValues**: JSON-like values with Python truthiness.
- **Seqs**: sequence helpers.

Imperative code is modelled as methods with loops. Each method is proved equal to a
specification function, and the properties the source promises are proved about that
function. The two objects whose fields the source updates are classes:
`Enforcer.PreActionEnforcer` and `Providers.ProviderFactory`.

Inputs that come from code outside this core are parameters of the model:

- the YAML loader (`load`);
- the AST of the file being validated (`parsed`);
- Python's `str()` of a value (`show`);
- the numeric branch of the difference description (`numeric`);
- the comparison id that `uuid4` would draw;
- the settings' default model and temperature.

The required-import check takes one more parameter, `reading`, which says how the names of a
`from m import ...` line are read. `AsWritten` reads them as validator.py does, from the fourth
space-separated piece alone; the methods `CheckRequired` and `ValidateFile` compute this
reading. `EveryName` reads every name after `import`, which is the evidently intended
behaviour (see "## Findings").

## Model

| member | source | states |
|---|---|---|
| Pdf.Specification.DisplayValue | src/ai_support_agent/types/pdf.py:40-43 | the display value is the value alone when the unit is absent or empty, otherwise the value, a space and the unit |
| Pdf.Content.GetSpecification | src/ai_support_agent/types/pdf.py:116-139 | a found specification really sits at section, category and sub-specification of the document; a missing key at any level gives None instead of an exception |
| Pdf.NewContent | src/ai_support_agent/types/pdf.py:90-114 | a new document keeps its raw text and has empty metadata, pages and sections and no model number |
| Pdf.NewContentEmpty | src/ai_support_agent/types/pdf.py:90-139 | a new document is well formed and every lookup in it gives None |
| Pdf.GetSpecificationFound | src/ai_support_agent/types/pdf.py:116-139 | in a well-formed document, a specification stored at a path is what the lookup of that path returns |
| Pdf.GetSpecificationNone | src/ai_support_agent/types/pdf.py:116-139 | in a well-formed document the lookup gives None exactly when no specification is stored at that path |
| PdfProcessor.SectionForCategory | src/ai_support_agent/tools/pdf_processor.py:306-331 | a category is always assigned a non-empty section, and a known section whenever the current one is known or absent |
| PdfProcessor.VoltageIsElectrical | src/ai_support_agent/tools/pdf_processor.py:306-331 | any category whose name mentions voltage, in any case, goes to the electrical section whatever the current section |
| PdfProcessor.CleanRow | src/ai_support_agent/tools/pdf_processor.py:336-338 | cleaning keeps the row's length and strips every cell |
| PdfProcessor.EnsureCategory | src/ai_support_agent/tools/pdf_processor.py:353-361 | entering a category adds its section at the end if new and makes the category present in it |
| PdfProcessor.TableSpecs | src/ai_support_agent/tools/pdf_processor.py:272-391 | parsing any table gives specs whose sections are known names and whose dictionaries repeat no key at any level |
| PdfProcessor.ParseTableToSpecs | src/ai_support_agent/tools/pdf_processor.py:272-391 | the row loop computes exactly the fold of the row step over the cleaned rows |
| PdfProcessor.ParseRow | src/ai_support_agent/tools/pdf_processor.py:333-389 | one loop iteration computes the row step on the cleaned row: parser state before to parser state after |
| PdfProcessor.EnterRowCategory | src/ai_support_agent/tools/pdf_processor.py:344-361 | a row naming a category, or continuing one, sets the current category and section and opens both in the specs |
| PdfProcessor.StoreRowSpec | src/ai_support_agent/tools/pdf_processor.py:364-386 | a row with a category and more than three cells stores its value and unit under its sub-specification |
| PdfProcessor.ParseRowsValid | src/ai_support_agent/tools/pdf_processor.py:333-389 | the row fold keeps the parser state valid: known sections and no repeated keys |
| PdfProcessor.StepRowGet | src/ai_support_agent/tools/pdf_processor.py:333-389 | after one row, lookups give the row's specification at exactly the path the row names; every other path keeps its old value |
| PdfProcessor.StepRowInherits | src/ai_support_agent/tools/pdf_processor.py:344-351 | a row with an empty first cell continues the current category, and its section is recomputed from it |
| PdfProcessor.NoCategoryNoSpecs | src/ai_support_agent/tools/pdf_processor.py:344-351 | rows with empty first cells before any category change nothing |
| PdfProcessor.ProcessSpecificationTables | src/ai_support_agent/tools/pdf_processor.py:251-270 | the table loop computes the merge of every table's specs into the document's sections, in order |
| PdfProcessor.StoreSections | src/ai_support_agent/tools/pdf_processor.py:261-268 | merging one table's specs adds or updates each of its sections in order |
| PdfProcessor.StoreCategories | src/ai_support_agent/tools/pdf_processor.py:265-268 | merging one section's categories puts each category, replacing one of the same name |
| PdfProcessor.MergeSpecsGet | src/ai_support_agent/tools/pdf_processor.py:257-268 | after a merge, every category the specs name comes from the specs; every other category is unchanged |
| PdfProcessor.MergeTablesWellFormed | src/ai_support_agent/tools/pdf_processor.py:251-270 | merging any tables keeps the document well formed (no repeated keys at any level) |
| PdfProcessor.Stem | src/ai_support_agent/tools/pdf_processor.py:396 | the stem of a file name is a prefix of it |
| PdfProcessor.DigitRun | src/ai_support_agent/tools/pdf_processor.py:399-401 | the digit run is the longest prefix made of digits |
| PdfProcessor.HsrSearch | src/ai_support_agent/tools/pdf_processor.py:399-401 | the search returns the first match of the HSR pattern at or after the start, and None exactly when there is none |
| PdfProcessor.FirstModelPart | src/ai_support_agent/tools/pdf_processor.py:404-408 | the part chosen is the first one that looks like a model number, and None means no part does |
| PdfProcessor.HsrAtShape | src/ai_support_agent/tools/pdf_processor.py:399-401 | a match of the HSR pattern is a run of digits, optionally followed by model letters |
| PdfProcessor.ExtractModelNameShape | src/ai_support_agent/tools/pdf_processor.py:393-414 | any model name extracted from a file name has the shape of a model number |
| PdfProcessor.DigitStem | src/ai_support_agent/tools/pdf_processor.py:411-412 | a file whose stem is all digits is named by its stem |
| PdfProcessor.HsrPrefix | src/ai_support_agent/tools/pdf_processor.py:399-401 | a file name "HSR-" followed by digits and a non-model character gives those digits |
| Transformers.FirstHit | src/ai_support_agent/tools/transformers.py:308-311 | the first spelling variant found in the unit table gives a listed standard; None means no variant is listed |
| Transformers.FirstStandard | src/ai_support_agent/tools/transformers.py:308-311 | the lookup loop returns the standard of the first listed variant |
| Transformers.StandardizeUnit | src/ai_support_agent/tools/transformers.py:278-327 | the method computes the standardised unit: unknown units unchanged, known ones as their display with an abbreviated suffix |
| Transformers.FormatDisplayValue | src/ai_support_agent/tools/transformers.py:329-349 | the value alone without a unit or with an empty one, otherwise value, space and unit |
| Transformers.DisplayFacts | src/ai_support_agent/tools/transformers.py:45-276 | every standard's display is non-empty, trimmed and dash-free; it looks itself up to its own standard, except the Ω display, which the table does not list |
| Transformers.OhmUnknown | src/ai_support_agent/tools/transformers.py:45-276 | no spelling variant of "Ω" is in the table |
| Transformers.StandardizedIdempotent | src/ai_support_agent/tools/transformers.py:278-327 | standardising a unit twice gives the same as once |
| Transformers.KnownStandardized | src/ai_support_agent/tools/transformers.py:292-327 | a unit whose base is known becomes the standard's display followed by its suffix |
| Transformers.StandardizedKnown | src/ai_support_agent/tools/transformers.py:292-327 | "base - suffix" with a listed base becomes the standard display, " - " and the abbreviated suffix |
| Transformers.StandardizedExample | src/ai_support_agent/tools/transformers.py:278-327 | "Ohms - maximum" becomes "Ω - max" |
| SectionNames.PrefixMatch | src/scripts/test_product_specialist.py:73-75 | a prefix hit is the internal name of an entry whose first word starts the lowered name |
| SectionNames.Lookup | src/scripts/test_product_specialist.py:67-75 | any name the lookup finds is one of the internal section names |
| SectionNames.Normalize | src/scripts/test_product_specialist.py:53-78 | the result is the name unchanged or an internal section name |
| SectionNames.NoMatchUnchanged | src/scripts/test_product_specialist.py:67-78 | a name whose lower-case form is no key and starts with no entry's first word comes back unchanged |
| SectionNames.NormalizeSectionName | src/scripts/test_product_specialist.py:53-78 | the method (exact lookup, then the prefix loop) computes the normalised name |
| SectionNames.FirstPrefixed | src/scripts/test_product_specialist.py:73-75 | the loop returns the internal name of the first entry whose first word starts the name |
| SectionNames.IgnoresCase | src/scripts/test_product_specialist.py:53-78 | names equal up to case normalise alike, unless both are returned unchanged |
| SectionNames.ExactName | src/scripts/test_product_specialist.py:67-70 | a name whose lower-case form is a key goes to that key's internal name |
| SectionNames.PrefixName | src/scripts/test_product_specialist.py:73-75 | a name that is no key goes to the first entry whose first word starts it |
| SectionNames.FeatureAliases | src/scripts/test_product_specialist.py:56-65 | "features", "advantages" and "features and advantages" all go to Features_And_Advantages |
| SectionNames.Idempotent | src/scripts/test_product_specialist.py:53-78 | normalising twice gives the same as once |
| SectionNames.InternalNames | src/scripts/test_product_specialist.py:56-65 | the internal names are exactly electrical, magnetic, physical, Features_And_Advantages and diagram |
| Comparison.NewSpecificationValue | src/ai_support_agent/types/comparison.py:8-12 | a specification value is accepted exactly when its value is non-empty, and keeps its fields |
| Comparison.NewComparisonFeature | src/ai_support_agent/types/comparison.py:24-27 | a feature is accepted exactly when its text is non-empty, and keeps its fields |
| Comparison.NewComparisonResponse | src/ai_support_agent/types/comparison.py:40-47 | a response is accepted exactly when it names at least two models, has a non-empty id and a non-negative count |
| Comparison.DefaultResponse | src/ai_support_agent/types/comparison.py:40-47 | the response with default sections and count is accepted for any two or more models and any id |
| Differences.NewDifferenceAnalysis | src/ai_support_agent/types/differences.py:43-50 | an analysis is accepted exactly when its confidence lies in [0, 1] |
| Differences.Findings | src/ai_support_agent/types/differences.py:55-57 | the findings are present exactly when the AI findings hold a mapping under "findings" |
| Differences.Summary | src/ai_support_agent/types/differences.py:64-71 | the summary is the findings' entry when present, otherwise "No summary available" |
| Differences.TechnicalDetails | src/ai_support_agent/types/differences.py:73-80 | the technical details are the findings' entry when present, otherwise "No technical details available" |
| Differences.ParseAction | src/ai_support_agent/types/differences.py:24-26 | an action parses exactly when it is one of the five allowed verbs |
| Differences.NewRecommendation | src/ai_support_agent/types/differences.py:20-29 | an accepted recommendation came from a mapping with no extra keys, and each field is the mapping's string entry |
| Differences.NewRecommendationOk | src/ai_support_agent/types/differences.py:20-29 | `Recommendation(**rec)` succeeds exactly when rec is a mapping with no key besides the four fields, each a string and the action one of the five verbs, in any key order |
| Differences.RecommendationOfFields | src/ai_support_agent/types/differences.py:20-29 | a mapping with no extra key holding a recommendation's four strings, in any order, builds that recommendation |
| Differences.RecommendationRoundTrip | src/ai_support_agent/types/differences.py:20-29 | building a recommendation from its own four fields gives it back |
| Differences.RecommendationsOf | src/ai_support_agent/types/differences.py:58-61 | the list comprehension keeps one recommendation per item |
| Differences.RecommendationsOfAt | src/ai_support_agent/types/differences.py:58-61 | the i-th recommendation is the one built from the i-th item |
| Differences.RecommendationsOfErr | src/ai_support_agent/types/differences.py:58-61 | the comprehension fails exactly when some item is not a valid recommendation |
| Differences.Recommendations | src/ai_support_agent/types/differences.py:52-62 | no findings or no recommendations entry gives the empty list; otherwise the recommendations are built from that entry |
| CompareProcessor.RegroupLines | src/ai_support_agent/tools/compare_processor.py:171-187 | the wrapped-bullet loop computes the regrouping of the lines |
| CompareProcessor.RegroupCount | src/ai_support_agent/tools/compare_processor.py:175-187 | regrouping gives one item per bullet line, plus one for leading text before the first bullet |
| CompareProcessor.RegroupBullets | src/ai_support_agent/tools/compare_processor.py:175-187 | every item after the first starts with a bullet, and the first starts with the first line |
| CompareProcessor.RegroupJoin | src/ai_support_agent/tools/compare_processor.py:175-187 | regrouping loses no text: the items joined by spaces are the lines joined by spaces |
| CompareProcessor.ModelFeatureItems | src/ai_support_agent/tools/compare_processor.py:150-187 | a model's items are computed with each missing level skipped |
| CompareProcessor.ProcessFeatureType | src/ai_support_agent/tools/compare_processor.py:140-206 | the method computes the feature list of the given feature type over the models in order |
| CompareProcessor.StoreItems | src/ai_support_agent/tools/compare_processor.py:189-204 | storing a model's items adds new texts at the end and marks seen ones; the seen set stays the set of texts |
| CompareProcessor.MarkFeature | src/ai_support_agent/tools/compare_processor.py:193-196 | marking sets the model's presence on the first feature with that text |
| CompareProcessor.MarkModelAt | src/ai_support_agent/tools/compare_processor.py:193-196 | only the first feature with the item's text changes, and only its entry for the model |
| CompareProcessor.InitModelsGet | src/ai_support_agent/tools/compare_processor.py:200 | a new feature maps every requested model to whether it is the current model |
| CompareProcessor.FeatureTypeTexts | src/ai_support_agent/tools/compare_processor.py:140-206 | the feature texts are the models' items without repeats, in first-seen order, and none is empty |
| CompareProcessor.AddModelsMatrix | src/ai_support_agent/tools/compare_processor.py:150-204 | processing the models keeps the presence matrix: every feature maps each requested model to whether it listed that text |
| CompareProcessor.FeatureTypeModels | src/ai_support_agent/tools/compare_processor.py:140-206 | a feature's presence for a requested model is true exactly when that model's items contain its text; other names are absent |
| CompareProcessor.Combinations | src/ai_support_agent/tools/compare_processor.py:217-240 | the collected combinations repeat none |
| CompareProcessor.CombinationsIn | src/ai_support_agent/tools/compare_processor.py:217-240 | a combination is collected exactly when some requested, available model has that path |
| CompareProcessor.HasPathLookup | src/ai_support_agent/tools/compare_processor.py:227-240 | a model has a path exactly when its section is not skipped and the lookup finds a specification there |
| CompareProcessor.CollectCombinations | src/ai_support_agent/tools/compare_processor.py:217-240 | the loop opens the sections and collects the combinations the specification functions define |
| CompareProcessor.CollectSections | src/ai_support_agent/tools/compare_processor.py:227-240 | one model's sections are opened and their new combinations appended; the seen set stays the set of combinations |
| CompareProcessor.CollectCategories | src/ai_support_agent/tools/compare_processor.py:235-240 | one section's new combinations are appended and the seen set stays in step |
| CompareProcessor.CollectSubs | src/ai_support_agent/tools/compare_processor.py:236-240 | one category's new combinations are appended and the seen set stays in step |
| CompareProcessor.ValuesIntoErr | src/ai_support_agent/tools/compare_processor.py:244-258 | collecting values fails exactly when some model holds an empty value at the path (the SpecificationValue constraint) |
| CompareProcessor.ValuesGet | src/ai_support_agent/tools/compare_processor.py:244-258 | a requested model with a specification at the path has its value, unit and display; every other name is absent |
| CompareProcessor.CollectValues | src/ai_support_agent/tools/compare_processor.py:244-258 | the loop computes the values the specification function defines |
| CompareProcessor.HasDifferencesIff | src/ai_support_agent/tools/compare_processor.py:261-262 | a specification has differences exactly when two models' values differ |
| CompareProcessor.SingleValueNoDifference | src/ai_support_agent/tools/compare_processor.py:261-262 | a specification held by one model never has differences |
| CompareProcessor.RemoveFirstDot | src/ai_support_agent/tools/compare_processor.py:274 | removing the first dot shortens a dotted string by one and leaves others unchanged |
| CompareProcessor.DifferenceFor | src/ai_support_agent/tools/compare_processor.py:272-293 | a difference names the section, category and specification, the first value's unit and all raw values; without numbers it names the first model |
| CompareProcessor.OtherValuesTail | src/ai_support_agent/tools/compare_processor.py:282-283 | the other values of the first model are the values of the remaining models, in order |
| CompareProcessor.BuildFromMade | src/ai_support_agent/tools/compare_processor.py:243-270 | building fails exactly when some combination's values fail; otherwise it appends one specification per combination with values |
| CompareProcessor.MadeEntry | src/ai_support_agent/tools/compare_processor.py:260-270 | every built specification comes from a collected combination with non-empty values, and is built from them |
| CompareProcessor.MadeConsistent | src/ai_support_agent/tools/compare_processor.py:260-270 | every specification flagged as differing has values |
| CompareProcessor.DiffsCount | src/ai_support_agent/tools/compare_processor.py:272-293 | one difference is reported per specification flagged as differing |
| CompareProcessor.ProcessSpecifications | src/ai_support_agent/tools/compare_processor.py:208-295 | the method computes the sections and differences the specification functions define |
| CompareProcessor.StoreSpecification | src/ai_support_agent/tools/compare_processor.py:264-293 | one combination appends its specification to its section, and a difference when the values differ |
| CompareProcessor.SpecificationListsShape | src/ai_support_agent/tools/compare_processor.py:208-295 | the result repeats no section; each opened section holds its built specifications in order; the differences number the flagged ones |
| CompareProcessor.GroupedSectionGet | src/ai_support_agent/tools/compare_processor.py:231-270 | a section is present exactly when some model opened it, with exactly the specifications built for it |
| CompareProcessor.CompareModels | src/ai_support_agent/tools/compare_processor.py:43-106 | the method computes the comparison response the specification function defines |
| CompareProcessor.AssembleSections | src/ai_support_agent/tools/compare_processor.py:85-96 | every specification section becomes a response section grouped by category |
| CompareProcessor.GroupByCategory | src/ai_support_agent/tools/compare_processor.py:88-92 | the grouping loop computes the by-category grouping |
| CompareProcessor.ByCategoryShape | src/ai_support_agent/tools/compare_processor.py:88-92 | categories appear in first-seen order, each with exactly its specifications, in order |
| CompareProcessor.SpecSectionsGet | src/ai_support_agent/tools/compare_processor.py:85-96 | each specification section replaces or adds a response section; others are unchanged |
| CompareProcessor.CompareShape | src/ai_support_agent/tools/compare_processor.py:43-106 | an accepted response names two or more models and has an id; no models gives empty sections; the differences count is the number of flagged specifications; features appear only when present; each other section holds its specifications |
| ProductTypes.NewSearchCriteria | src/ai_support_agent/types/product.py:22-74 | criteria are accepted exactly when the threshold lies in [0, 1] and there are terms or filters, with each error message |
| ProductTypes.NewModelTarget | src/ai_support_agent/types/product.py:77-129 | a target is accepted exactly when it has model numbers or search criteria |
| ProductTypes.SectionsRejection | src/ai_support_agent/types/product.py:183-191 | sections are rejected exactly when some lower-case form is not a valid section, listing the invalid ones in order |
| ProductTypes.NewDisplayPreferences | src/ai_support_agent/types/product.py:147-191 | preferences are accepted exactly when the format is one of three and every section is valid ignoring case |
| ProductTypes.DefaultsAccepted | src/ai_support_agent/types/product.py:166-181 | the default preferences are accepted |
| ProductTypes.SectionsIgnoreCase | src/ai_support_agent/types/product.py:186-188 | a list of sections passes exactly when its lower-cased form does |
| AgentTypes.SectionsRejection | src/ai_support_agent/types/agent.py:66-74 | sections are rejected exactly when some section is not one of the four names, as written |
| AgentTypes.NewDisplayPreferences | src/ai_support_agent/types/agent.py:23-74 | preferences are accepted exactly when the format is one of three and every section is one of the four names |
| AgentTypes.DefaultsAccepted | src/ai_support_agent/types/agent.py:23-64 | the default preferences are accepted and request no sections |
| AgentTypes.SpecsOnlyForAgents | src/ai_support_agent/types/agent.py:66-74 | "specs" passes the agent-level check but not the product-level one |
| AgentTypes.CapitalizedOnlyForProducts | src/ai_support_agent/types/agent.py:66-74 | "Features" passes the product-level check but not the agent-level one |
| AgentTypes.NewAgentDependencies | src/ai_support_agent/types/agent.py:76-122 | dependencies are accepted exactly when the model name is non-empty, the temperature lies in [0, 1] and the usage tracker is truthy; accepted ones are configured |
| AgentTypes.MissingMetadata | src/ai_support_agent/types/agent.py:220-228 | the missing fields are exactly the required ones the metadata lacks |
| AgentTypes.MetadataRejection | src/ai_support_agent/types/agent.py:220-228 | metadata passes exactly when it is empty or holds both "source" and "tokens" |
| AgentTypes.NewAgentResponse | src/ai_support_agent/types/agent.py:185-228 | a response is accepted exactly when the confidence lies in [0, 1] and the metadata passes; high confidence means at least 0.9 |
| AgentResponses.NewCustomerSupportResponse | src/ai_support_agent/domain/agent_responses.py:9-64 | a response is accepted exactly when the confidence is in [0, 1], the time is not negative and a needed clarification has a question |
| AgentResponses.AnalysisRejection | src/ai_support_agent/domain/agent_responses.py:121-132 | the validator passes exactly when all four parts are non-empty; an empty analysis is reported first |
| AgentResponses.NewProductSpecialistResponse | src/ai_support_agent/domain/agent_responses.py:67-132 | accepted exactly when all four parts are non-empty; the validator can only ever report the empty technical analysis |
| AgentResponses.KeyFindings | src/ai_support_agent/domain/agent_responses.py:110-119 | the findings are the first two recommendations then the first two considerations, at most four |
| AgentResponses.AcceptedKeyFindings | src/ai_support_agent/domain/agent_responses.py:67-119 | an accepted response has two to four findings, led by its first recommendation and including its first consideration |
| ModelChecks.Failing | src/ai_support_agent/types/agent.py:23-74 | the failing field names are exactly those of the failed constraints |
| ModelChecks.Build | src/ai_support_agent/types/agent.py:23-74 | a model is built exactly when every field constraint holds and the validator raises nothing; field errors come first |
| ModelChecks.Rejects | src/ai_support_agent/types/product.py:188 | the rejected items are exactly the items that fail the test, in order |
| SupportAgent.AttributePath | src/ai_support_agent/agents/customer_support_agent.py:276-292 | the path holds the context's section, category and specification that are present, in that order |
| SupportAgent.GetAttributePath | src/ai_support_agent/agents/customer_support_agent.py:276-292 | the method builds the attribute path |
| SupportAgent.Walk | src/ai_support_agent/agents/customer_support_agent.py:257-264 | an empty path finds the starting value; a non-empty path from a non-mapping finds nothing |
| SupportAgent.WalkAppend | src/ai_support_agent/agents/customer_support_agent.py:257-264 | walking p + q is walking p, then q from where it ended |
| SupportAgent.WalkThrough | src/ai_support_agent/agents/customer_support_agent.py:257-264 | a present string key moves the walk into its value |
| SupportAgent.KeyStrings | src/ai_support_agent/agents/customer_support_agent.py:267-271 | the keys convert exactly when all are strings |
| SupportAgent.Extract | src/ai_support_agent/agents/customer_support_agent.py:240-274 | a result exists exactly when the walk succeeds over string keys; it is the walked value with the dotted path; confidence is 1 unless the value is None |
| SupportAgent.ExtractEmptyPath | src/ai_support_agent/agents/customer_support_agent.py:240-274 | an empty path returns the whole product information with full confidence |
| SupportAgent.ExtractPathKeys | src/ai_support_agent/agents/customer_support_agent.py:267-271 | the reported path splits back into the keys when none has a dot |
| SupportAgent.ExtractSpecificAttribute | src/ai_support_agent/agents/customer_support_agent.py:240-274 | the walking loop computes the extraction |
| SupportAgent.InfoBlocks | src/ai_support_agent/agents/customer_support_agent.py:204-217 | the information part of the prompt is zero to three blocks of two lines |
| SupportAgent.ResponseParts | src/ai_support_agent/agents/customer_support_agent.py:190-226 | the prompt's lines are the four header lines, the information blocks and the four footer lines |
| SupportAgent.PromptBlocks | src/ai_support_agent/agents/customer_support_agent.py:204-217 | the prompt shows specifications whenever the key is present, and differences and analysis exactly when they are truthy |
| SupportAgent.CreateResponsePrompt | src/ai_support_agent/agents/customer_support_agent.py:190-226 | with the domain supplied, the prompt is its lines joined by newlines |
| SupportAgent.ResponsePromptFails | src/ai_support_agent/agents/customer_support_agent.py:199 | as written the prompt is never produced; with the domain supplied it always is, starting with the query line |
| Providers.Request | src/ai_support_agent/services/ai_provider/factory.py:94-128 | a cached key returns its provider and updates only the last key; an unknown type fails and changes nothing; otherwise a new provider of the mapped class is cached at the end; other keys are untouched |
| Providers.ProviderMapNames | src/ai_support_agent/services/ai_provider/factory.py:62-66 | the map lists openai, anthropic and azure, each with the class of that name |
| Providers.ValidConfigSupported | src/ai_support_agent/services/ai_provider/factory.py:15-39 | every valid configuration names a supported provider |
| Providers.SameKeySameInstance | src/ai_support_agent/services/ai_provider/factory.py:96-101 | a second request with the same provider and model returns the same instance and leaves the cache as it was |
| Providers.RequestCoherent | src/ai_support_agent/services/ai_provider/factory.py:94-125 | requests keep every cached provider under its own key, with no key twice |
| Providers.CacheKeyInjective | src/ai_support_agent/services/ai_provider/factory.py:96 | configurations with equal cache keys share provider and model |
| Providers.DefaultConfig | src/ai_support_agent/services/ai_provider/factory.py:143-148 | the default configuration is valid for a valid temperature and is keyed "openai:" and the model |
| Providers.ProviderFactory.constructor | src/ai_support_agent/services/ai_provider/factory.py:59-66 | a new factory has the three providers, an empty cache and no last provider |
| Providers.ProviderFactory.GetProvider | src/ai_support_agent/services/ai_provider/factory.py:76-128 | the call does what the request function says to the result and the cache |
| Providers.ProviderFactory.GetDefaultProvider | src/ai_support_agent/services/ai_provider/factory.py:130-149 | an invalid default temperature fails without change; otherwise the default configuration is requested |
| Providers.ProviderFactory.ClearCache | src/ai_support_agent/services/ai_provider/factory.py:151-155 | the cache is emptied and the last provider forgotten |
| Validator.GetAttributeSource | src/pattern_enforcer/validator.py:80-92 | the loop computes the dotted name of an attribute chain |
| Validator.DottedSplit | src/pattern_enforcer/validator.py:80-92 | the dotted name splits back into the chain's names |
| Validator.CallOfAsWritten | src/pattern_enforcer/validator.py:56-78 | a name call is recorded directly with its argument counts; an attribute call is recorded under its attribute name; other calls are skipped |
| Validator.CallOf | src/pattern_enforcer/validator.py:56-78 | the corrected recording records the same kinds and names; its object is the receiver alone (see CallTargetDotted) |
| Validator.CallTargetAsWritten | src/pattern_enforcer/validator.py:69-76 | as written, `os.system(...)` is checked as "os.system.system" |
| Validator.CallTargetDotted | src/pattern_enforcer/validator.py:69-76 | corrected, an attribute call is checked as its dotted name |
| Validator.BanOf | src/pattern_enforcer/validator.py:186-205 | a blacklist entry decodes exactly when it is a mapping with a string pattern and a reason of any kind; the reason is reported as `str()` shows it |
| Validator.BansOfAt | src/pattern_enforcer/validator.py:186-205 | the i-th ban is decoded from the i-th entry |
| Validator.BansOfErr | src/pattern_enforcer/validator.py:186-205 | decoding fails exactly when some entry is malformed |
| Validator.Blacklist | src/pattern_enforcer/validator.py:174-185 | no BLACKLIST key means no bans |
| Validator.BlacklistViolations | src/pattern_enforcer/validator.py:174-207 | no BLACKLIST key means no violations |
| Validator.ReportsExact | src/pattern_enforcer/validator.py:186-205 | a ban reports exactly the targets containing its pattern, and nothing exactly when none does |
| Validator.EmptyPatternCount | src/pattern_enforcer/validator.py:186-205 | an empty pattern reports every target |
| Validator.ViolationsEmpty | src/pattern_enforcer/validator.py:174-207 | no violations exactly when no ban reports any import or call |
| Validator.CheckImports | src/pattern_enforcer/validator.py:186-194 | the import loop computes the ban's import reports |
| Validator.CheckCalls | src/pattern_enforcer/validator.py:197-205 | the call loop computes the ban's call reports |
| Validator.CheckBlacklist | src/pattern_enforcer/validator.py:174-207 | the method computes the blacklist violations |
| Validator.PatternOf | src/pattern_enforcer/validator.py:217-225 | a required entry's pattern is read when it is a string; a mapping without one is skipped |
| Validator.NameReport | src/pattern_enforcer/validator.py:236-243 | a name is reported exactly when it is not imported from the module |
| Validator.NamesMissing | src/pattern_enforcer/validator.py:236-243 | every report is the line's missing-import message, at most one per name |
| Validator.FromMissing | src/pattern_enforcer/validator.py:231-243 | under either reading, a from line raises exactly when it has fewer than four space-separated pieces, as `parts[3]` does |
| Validator.ReadingsAgree | src/pattern_enforcer/validator.py:231-236 | the as-written and the corrected reading agree on every line with exactly four pieces |
| Validator.FromLineAsWrittenReported | src/pattern_enforcer/validator.py:231-243 | as written, a from line listing two or more names reads only the first and an empty name, so it is always reported (twice when the first name is missing) |
| Validator.RequiredMissing | src/pattern_enforcer/validator.py:209-215 | no REQUIRED_PATTERNS key means nothing missing |
| Validator.CheckLine | src/pattern_enforcer/validator.py:225-243 | one pattern line is checked as written: `import` lines by their module, `from` lines by `parts[3]` split at commas |
| Validator.CheckFromLine | src/pattern_enforcer/validator.py:231-243 | the method computes a from line's missing names from `parts[3]` alone, as written |
| Validator.CheckNames | src/pattern_enforcer/validator.py:236-243 | the names loop computes the missing reports |
| Validator.CheckPattern | src/pattern_enforcer/validator.py:225-226 | a pattern's lines are checked in order |
| Validator.CheckLines | src/pattern_enforcer/validator.py:225-243 | the lines loop stops at the first failing line, otherwise concatenates the reports, reading from lines as written |
| Validator.CheckEntry | src/pattern_enforcer/validator.py:217-243 | one required entry is checked as written |
| Validator.CheckRequired | src/pattern_enforcer/validator.py:209-245 | the method computes the missing required imports as written |
| Validator.ImportLineMissing | src/pattern_enforcer/validator.py:227-230 | under either reading, an `import m` line reports itself exactly when m is not imported |
| Validator.FromLineComplete | src/pattern_enforcer/validator.py:231-243 | corrected, a from line reports nothing exactly when every listed name is imported from the module |
| Validator.FromLineAsWritten | src/pattern_enforcer/validator.py:232-243 | as written, `from m import a, b` with both imported is still reported missing |
| Validator.EmptyNameMissing | src/pattern_enforcer/validator.py:232-243 | the empty name the as-written split produces is never imported |
| Validator.FromLineCorrected | src/pattern_enforcer/validator.py:231-243 | corrected, the same line with both imported reports nothing |
| Validator.AllImportedNoneMissing | src/pattern_enforcer/validator.py:231-243 | corrected, a from line whose names are all imported reports nothing |
| Validator.Validation | src/pattern_enforcer/validator.py:138-172 | for either reading of from lines: a parse failure is a validation error; a result is truthy exactly when nothing is blacklisted or missing; valid exactly when there are no violations; blacklist hits come first, then the missing imports |
| Validator.ValidateFile | src/pattern_enforcer/validator.py:138-172 | the method computes the validation with from lines read as written |
| Validator.RequiringLineMissing | src/pattern_enforcer/validator.py:209-243 | rules requiring a single one-line pattern report what that line reports |
| Validator.ValidationFromLine | src/pattern_enforcer/validator.py:138-172 | as written, a file importing both a and b from m fails the requirement `from m import a, b` with one missing-import report; read as intended, it passes |
| Rules.ExtractYamlBlocks | src/pattern_enforcer/validator.py:109-122 | the line loop computes the YAML blocks of the document |
| Rules.ScanOne | src/pattern_enforcer/validator.py:111-122 | one loop iteration computes one scanner step |
| Rules.Render | src/pattern_enforcer/validator.py:109-122 | a non-empty list of chunks renders to some lines |
| Rules.ScanRender | src/pattern_enforcer/validator.py:109-122 | scanning rendered prose and fenced blocks collects exactly the fenced bodies |
| Rules.DocumentBlocks | src/pattern_enforcer/validator.py:109-122 | extracting the blocks from a rendered document gives back exactly the fenced bodies, in order |
| Rules.Unterminated | src/pattern_enforcer/validator.py:109-122 | a block left open at the end of the document is dropped |
| Rules.Merged | src/pattern_enforcer/validator.py:125-134 | merging keeps the rules free of repeated keys |
| Rules.Absorbed | src/pattern_enforcer/validator.py:127-134 | merging one document keeps the rules free of repeated keys |
| Rules.MergedUndefined | src/pattern_enforcer/validator.py:125-134 | a key no block defines keeps its earlier value |
| Rules.MergedLast | src/pattern_enforcer/validator.py:125-134 | a key takes its value from the last block that defines it |
| Rules.MergeBlocks | src/pattern_enforcer/validator.py:125-134 | the merge loop computes the merged rules |
| Rules.LoadRules | src/pattern_enforcer/validator.py:103-136 | the rules are the blocks' mappings merged in order, with no repeated key |
| Enforcer.Pending | src/pattern_enforcer/enforcer.py:37-66 | nothing is pending exactly when the checks once passed or all flags are set; otherwise the first unset flag in the order rules, patterns, validation |
| Enforcer.BlockedError | src/pattern_enforcer/enforcer.py:43-66 | a blocked call raises a blocked-action error naming the required action |
| Enforcer.Attempt | src/pattern_enforcer/enforcer.py:36-70 | a blocked call logs its step and changes nothing else; an unblocked one records that the checks passed |
| Enforcer.Mark | src/pattern_enforcer/enforcer.py:73-86 | marking sets exactly its flag and logs its step |
| Enforcer.RunConsistent | src/pattern_enforcer/enforcer.py:33-94 | every sequence of calls, marks and resets keeps the state consistent: the passed flag only with all three set |
| Enforcer.BlockedUnchanged | src/pattern_enforcer/enforcer.py:37-66 | a blocked call stays blocked on the same requirement and adds one step |
| Enforcer.MarkedThenProceeds | src/pattern_enforcer/enforcer.py:33-86 | once all three are marked, in any order, calls proceed and keep proceeding until a reset |
| Enforcer.CompleteStays | src/pattern_enforcer/enforcer.py:37-68 | without a reset, passed checks stay passed |
| Enforcer.FreshNeedsAllMarks | src/pattern_enforcer/enforcer.py:25-86 | from a fresh enforcer, nothing is unblocked unless all three marks were made |
| Enforcer.RunMarks | src/pattern_enforcer/enforcer.py:73-94 | a flag set after a run was set before or marked during it |
| Enforcer.PreActionEnforcer.constructor | src/pattern_enforcer/enforcer.py:25-31 | a new enforcer has every flag unset and no steps |
| Enforcer.PreActionEnforcer.Invoke | src/pattern_enforcer/enforcer.py:33-71 | the wrapped action runs only when nothing is pending; otherwise the blocking error is returned; the state changes as Attempt says |
| Enforcer.PreActionEnforcer.MarkRulesFetched | src/pattern_enforcer/enforcer.py:73-76 | the state changes as marking the rules says |
| Enforcer.PreActionEnforcer.MarkPatternsCited | src/pattern_enforcer/enforcer.py:78-81 | the state changes as marking the patterns says |
| Enforcer.PreActionEnforcer.MarkValidationShown | src/pattern_enforcer/enforcer.py:83-86 | the state changes as marking the validation says |
| Enforcer.PreActionEnforcer.Reset | src/pattern_enforcer/enforcer.py:88-94 | the enforcer returns to its initial state |
| Enforcer.PreActionEnforcer.GetValidationSteps | src/pattern_enforcer/enforcer.py:96-98 | the steps logged so far |
| Enforcer.PreActionEnforcer.IsReady | src/pattern_enforcer/enforcer.py:100-106 | ready exactly when all three flags are set |
| PatternErrors.Bulleted | src/pattern_enforcer/errors.py:26 | each item becomes one "- " line, in order |
| PatternErrors.NewBlockedAction | src/pattern_enforcer/errors.py:8-17 | the message starts with the given one and is exactly it when there is no required action |
| PatternErrors.NewPatternViolation | src/pattern_enforcer/errors.py:19-29 | a missing list is empty; the message starts with the given one and is exactly it when there are no violations |
| PatternErrors.NewValidation | src/pattern_enforcer/errors.py:31-40 | the same for validation errors |
| PatternErrors.ListingLines | src/pattern_enforcer/errors.py:19-40 | the message's lines are the message, the header and one bulleted line per item, or the message alone |
| PatternErrors.BlockedActionLines | src/pattern_enforcer/errors.py:8-17 | the message's lines are the message and the required-action line, or the message alone |

## Left out

- Reading PDF files, extracting their text and tables, and the table detection this needs. The
  parser starts from tables given as rows of string cells. A `None` cell is taken as the empty
  string, which is what the source's clean-up turns it into.
- Letter case is ASCII only (`lower`, `upper`, `isdigit`, `isalpha`). There is no Unicode case
  folding.
- `CompareProcessor.DifferenceFor`: the numeric branch of the difference description uses
  `float()` and `max` by absolute value. It is a parameter (`numeric`), because floating point
  is not modelled. The textual branch is modelled in full.
- The builder's in-place updates of `feature.models` and of the section lists are modelled on
  values. Aliasing between features is not modelled, and none arises in the source.
- `_collect_model_data`: it loads documents through the PDF processor, a file-system
  operation. The documents found are the `models` parameter.
- `uuid.uuid4()` is the `comparisonId` parameter.
- The YAML parser (`yaml.safe_load`) is the `load` parameter, and the Python parser (`ast.parse`
  and the AST walk) is the `parsed` parameter, already reduced to the imports and calls.
  Reading the rules file and the file being validated is I/O.
- `Validator.BanOf`: entries are decoded before any check. The source reads the pattern only
  when it checks and the reason only on a hit, so a malformed entry that never matches is not
  an error there.
- Python exception texts (`KeyError`, `TypeError`, `AttributeError`) are kept as short strings,
  not their exact wording.
- YAML mappings with non-string keys are not modelled: rules are string-keyed.
- The LLM calls: `handle_query`, `determine_intent`, `process_query`, the provider classes'
  own methods, `get_system_message`, and the agents' runs. Only the deterministic helpers
  around them are modelled.
- `Providers.ProviderFactory`: the provider classes are recorded by kind and configuration.
  `LLMConfig` is not defined in `base.py` as it stands, so its fields follow the call at
  factory.py:109-116.
- The dependency subclasses (data loader, product specialist, customer support),
  `AgentRunContext` and `AgentProtocol` are not modelled: they add fields without validators.
- `Differences.Differences.add_difference`: it passes fields `Difference` does not declare
  (`impact`, `recommendation`, `analysis`) while `Difference` forbids extra fields, and it
  omits the required `model` and `difference`. Every call raises a validation error before the
  uniqueness check is reached, so there is nothing left to model.
- `AgentResponses.CustomerSupportResponse` subclasses the pydantic-ai `Agent` in the source. Its
  fields and validator are modelled with `BaseModel` semantics.
- `ProductSpecialistResponse.is_high_confidence` reads a `confidence` attribute that the model
  does not declare, so it always raises. It is not modelled.
- `AgentTypes.MetadataRejection`: the message prints the missing fields in a fixed order. Python
  prints a set in hash order.
- `AgentTypes.NewAgentDependencies`: the usage tracker is an object foreign to this core. It is
  kept as a value with Python truthiness.
- `ModelChecks.Build`: pydantic reports every failing field together. The model keeps the list
  of failing field names, not pydantic's error objects.
- pydantic's handling of NaN and of type coercion is not modelled: values arrive with their
  declared types.
- `str()` of a value inside the prompt is the `show` parameter.
## Findings

| source | as written | input that shows it | evidently intended | confidence | as-written member | corrected member |
|---|---|---|---|---|---|---|
| src/pattern_enforcer/validator.py:232-243 | `from m import a, b` is split on spaces and only the fourth word (`a,`) is split on commas, giving the names `a` and the empty string | required pattern `from m import a, b` in a file that imports both | every listed name is checked, and a file importing them all passes | high (not executed) | Validator.ValidationFromLine | Validator.FromLineComplete |
| src/pattern_enforcer/validator.py:69-76 | the call's object is the attribute source of the whole callee, which already ends in the attribute, and the check appends the attribute again | `os.system("ls")` is checked as `os.system.system` | the call is checked as `os.system` | high (not executed) | Validator.CallTargetAsWritten | Validator.CallTargetDotted |
| src/ai_support_agent/agents/customer_support_agent.py:199 | the prompt reads `query_intent.domain`, a field `QueryIntent` does not declare | any query intent | the domain of the query is shown in the prompt | high (not executed) | SupportAgent.ResponsePromptFails | SupportAgent.CreateResponsePrompt |
