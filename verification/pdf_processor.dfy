/** The table side of src/ai_support_agent/tools/pdf_processor.py: a specification table
    (rows of string cells) becomes section -> category -> sub-specification -> specification,
    several tables are merged into the document's sections, and a model number is read off
    a file name. */
module PdfProcessor {
  import opened Wrappers
  import opened Text
  import opened Dicts
  import opened Pdf
  import Transformers

  /** The nested dict `_parse_table_to_specs` builds. */
  type Specs = Dict<Dict<Dict<Specification>>>

  /** `section_patterns` with its default value; `section_order[0]` is "electrical". */
  const ElectricalSection := "electrical specifications"
  const MagneticSection := "magnetic specifications"
  const PhysicalSection := "physical/operational specifications"

  const SectionNames: set<string> := {ElectricalSection, MagneticSection, PhysicalSection}

  const ElectricalTerms: seq<string> :=
    ["power", "voltage", "current", "resistance", "capacitance", "temperature", "electrical"]
  const MagneticTerms: seq<string> := ["pull - in", "test coil", "magnetic"]
  const PhysicalTerms: seq<string> :=
    ["capsule", "contact material", "operate time", "release time", "physical", "operational"]

  /** `any(term in text for term in terms)` */
  predicate AnyIn(terms: seq<string>, text: string)
  {
    terms != [] && (Contains(text, terms[0]) || AnyIn(terms[1..], text))
  }

  /** `get_section_for_category`: the electrical keywords are tried first, then the magnetic
      ones, then the physical ones, all on the lower-cased category; a category with none
      of them stays in the current section, or goes to the first section when there is
      none yet. */
  function SectionForCategory(category: string, currentSection: Option<string>): (r: string)
    ensures r != ""
    ensures currentSection.None? || currentSection.value in SectionNames ==> r in SectionNames
  {
    var lower := Lower(category);
    if AnyIn(ElectricalTerms, lower) then ElectricalSection
    else if AnyIn(MagneticTerms, lower) then MagneticSection
    else if AnyIn(PhysicalTerms, lower) then PhysicalSection
    else if currentSection.Some? && currentSection.value != "" then currentSection.value
    else ElectricalSection
  }

  /** `[str(cell).strip() if cell else "" for cell in row]` */
  function CleanRow(row: seq<string>): (r: seq<string>)
    ensures |r| == |row|
    ensures forall i :: 0 <= i < |row| ==> r[i] == Strip(row[i])
  {
    if row == [] then [] else [Strip(row[0])] + CleanRow(row[1..])
  }

  /** `not any(row_data)`: every cell is empty. */
  predicate Blank(rowData: seq<string>)
  {
    forall i :: 0 <= i < |rowData| ==> rowData[i] == ""
  }

  /** The two-column "Features" / "Advantages" header of the features table. */
  predicate IsFeaturesHeader(firstRow: seq<string>)
  {
    |firstRow| == 2 && Contains(firstRow[0], "Features") && Contains(firstRow[1], "Advantages")
  }

  /** A first row is data when it has at least three cells, a category, and a unit or a
      value among its last two cells. */
  predicate FirstRowIsData(firstRow: seq<string>)
  {
    |firstRow| >= 3 && firstRow[0] != "" && (firstRow[|firstRow| - 2] != "" || firstRow[|firstRow| - 1] != "")
  }

  /** The specification stored under a section/category/sub-specification path. */
  function GetPath(specs: Specs, section: string, category: string, sub: string): Option<Specification>
  {
    match Get(specs, section)
    case None => None
    case Some(cats) =>
      match Get(cats, category)
      case None => None
      case Some(subs) => Get(subs, sub)
  }

  /** `specs[section]` and `specs[section][category]` are created empty when missing. */
  function EnsureCategory(specs: Specs, section: string, category: string): (r: Specs)
    ensures Keys(r) == if section in Keys(specs) then Keys(specs) else Keys(specs) + [section]
    ensures category in Keys(Get(r, section).value)
  {
    var specs1 := if section in Keys(specs) then specs else Put(specs, section, []);
    var cats := Get(specs1, section).value;
    if category in Keys(cats) then specs1 else Put(specs1, section, Put(cats, category, []))
  }

  /** `specs[section][category][sub] = spec` */
  function PutPath(specs: Specs, section: string, category: string, sub: string, spec: Specification): Specs
  {
    var cats := GetOr(specs, section, []);
    var subs := GetOr(cats, category, []);
    Put(specs, section, Put(cats, category, Put(subs, sub, spec)))
  }

  /** The loop variables of `_parse_table_to_specs`. */
  datatype ParseState = ParseState(specs: Specs, category: Option<string>, section: Option<string>)

  const Start := ParseState([], None, None)

  /** The category a cleaned, non-blank row belongs to: its first cell, or the most recent
      category when that cell is empty. (Lines 350-351 reassign the category only when it
      already equals the most recent one, so they change nothing.) */
  function RowCategory(st: ParseState, rowData: seq<string>): Option<string>
    requires rowData != []
  {
    if rowData[0] != "" then Some(rowData[0]) else st.category
  }

  /** The sub-specification name of a cleaned row: its second cell, "" when there is none. */
  function RowSub(rowData: seq<string>): string
  {
    if |rowData| > 1 && rowData[1] != "" then rowData[1] else ""
  }

  /** The specification a cleaned row of at least four cells describes: the standardised
      unit of its third cell and its stripped fourth cell. */
  function RowSpec(rowData: seq<string>): Specification
    requires |rowData| > 3
  {
    var rawUnit := if rowData[2] != "" then Some(Strip(rowData[2])) else None;
    Specification(Transformers.Standardized(rawUnit), Strip(rowData[3]))
  }

  /** A row that names a category (or inherits one) makes it the current category, files
      it under its section and makes that the current section. */
  function EnterCategory(st: ParseState, category: string): ParseState
  {
    var section := SectionForCategory(category, st.section);
    ParseState(EnsureCategory(st.specs, section, category), Some(category), Some(section))
  }

  /** One iteration of the row loop, on a cleaned row: a blank row is skipped; any other
      row first settles the current category and section, then stores its specification. */
  function StepRow(st: ParseState, rowData: seq<string>): ParseState
  {
    if Blank(rowData) then st else StoreRow(EnterRow(st, rowData), rowData)
  }

  /** A non-blank row with a category (its own or the inherited one) enters it. */
  function EnterRow(st: ParseState, rowData: seq<string>): ParseState
    requires rowData != []
  {
    var category := RowCategory(st, rowData);
    if category.Some? && category.value != "" then EnterCategory(st, category.value) else st
  }

  /** A row of at least four cells, once its category and section are settled, stores its
      specification under them. */
  function StoreRow(st: ParseState, rowData: seq<string>): ParseState
  {
    if |rowData| > 3 && st.category.Some? && st.category.value != "" && st.section.Some? && st.section.value != "" then
      st.(specs := PutPath(st.specs, st.section.value, st.category.value, RowSub(rowData), RowSpec(rowData)))
    else st
  }

  /** The loop variables after the row loop, started in `st`, has visited `rows`. */
  function ParseRows(st: ParseState, rows: seq<seq<string>>): ParseState
    decreases |rows|
  {
    if rows == [] then st else ParseRows(StepRow(st, CleanRow(rows[0])), rows[1..])
  }

  /** The rows the loop visits: the header row is skipped unless it is data. */
  function RowsToProcess(table: seq<seq<string>>): seq<seq<string>>
    requires table != []
  {
    if FirstRowIsData(CleanRow(table[0])) then table else table[1..]
  }

  /** What `_parse_table_to_specs` returns. */
  function TableSpecs(table: seq<seq<string>>): (r: Specs)
    ensures ValidSpecs(r)
  {
    if table == [] then []
    else if IsFeaturesHeader(CleanRow(table[0])) then []
    else
      ParseRowsValid(Start, RowsToProcess(table));
      ParseRows(Start, RowsToProcess(table)).specs
  }

  /** `PDFProcessor._parse_table_to_specs`. */
  method ParseTableToSpecs(table: seq<seq<string>>) returns (specs: Specs)
    ensures specs == TableSpecs(table)
  {
    if table == [] {
      return [];
    }
    var firstRow := CleanRow(table[0]);
    if IsFeaturesHeader(firstRow) {
      return [];
    }
    specs := [];
    var currentCategory: Option<string> := None;
    var currentSection: Option<string> := None;
    var isFirstRowData := FirstRowIsData(firstRow);
    var rows := if isFirstRowData then table else table[1..];
    assert rows == RowsToProcess(table);
    var i := 0;
    while i < |rows|
      invariant 0 <= i <= |rows|
      invariant ParseRows(ParseState(specs, currentCategory, currentSection), rows[i..]) == ParseRows(Start, rows)
    {
      ghost var st := ParseState(specs, currentCategory, currentSection);
      ParseRowsStep(st, rows, i);
      specs, currentCategory, currentSection := ParseRow(specs, currentCategory, currentSection, rows[i]);
      assert ParseState(specs, currentCategory, currentSection) == StepRow(st, CleanRow(rows[i]));
      i := i + 1;
    }
    assert rows[i..] == [];
    assert specs == ParseRows(Start, rows).specs;
  }

  lemma ParseRowsStep(st: ParseState, rows: seq<seq<string>>, i: nat)
    requires i < |rows|
    ensures ParseRows(st, rows[i..]) == ParseRows(StepRow(st, CleanRow(rows[i])), rows[i + 1..])
  {
    assert rows[i..][0] == rows[i] && rows[i..][1..] == rows[i + 1..];
  }

  /** The body of the row loop of `_parse_table_to_specs`: one row updates the nested
      dict, the current category and the current section. */
  method ParseRow(specs: Specs, currentCategory: Option<string>, currentSection: Option<string>, row: seq<string>)
    returns (specs': Specs, currentCategory': Option<string>, currentSection': Option<string>)
    ensures ParseState(specs', currentCategory', currentSection')
            == StepRow(ParseState(specs, currentCategory, currentSection), CleanRow(row))
  {
    var rowData := CleanRow(row);
    if Blank(rowData) {
      return specs, currentCategory, currentSection;
    }
    specs', currentCategory', currentSection' := EnterRowCategory(specs, currentCategory, currentSection, rowData);
    specs' := StoreRowSpec(specs', currentCategory', currentSection', rowData);
  }

  /** The second half of the row loop's body: a row of at least four cells stores its
      standardised unit and stripped value under the current section and category. */
  method StoreRowSpec(specs: Specs, currentCategory: Option<string>, currentSection: Option<string>, rowData: seq<string>)
    returns (specs': Specs)
    ensures ParseState(specs', currentCategory, currentSection)
            == StoreRow(ParseState(specs, currentCategory, currentSection), rowData)
  {
    specs' := specs;
    if |rowData| > 3 {
      var subcategory := if |rowData| > 1 && rowData[1] != "" then rowData[1] else "";
      var rawUnit := if rowData[2] != "" then Some(Strip(rowData[2])) else None;
      var value := Strip(rowData[3]);
      if currentCategory.Some? && currentCategory.value != "" && currentSection.Some? && currentSection.value != "" {
        var unit := Transformers.StandardizeUnit(rawUnit);
        specs' := PutPath(specs, currentSection.value, currentCategory.value, subcategory, Specification(unit, value));
      }
    }
  }

  /** The first half of the row loop's body: the row's category (its first cell, or the
      current one) becomes current, and its section is created. */
  method EnterRowCategory(specs: Specs, currentCategory: Option<string>, currentSection: Option<string>, rowData: seq<string>)
    returns (specs': Specs, currentCategory': Option<string>, currentSection': Option<string>)
    requires rowData != []
    ensures ParseState(specs', currentCategory', currentSection')
            == EnterRow(ParseState(specs, currentCategory, currentSection), rowData)
  {
    specs', currentCategory', currentSection' := specs, currentCategory, currentSection;
    var category := if rowData[0] != "" then Some(rowData[0]) else currentCategory;
    if category.Some? && category.value != "" {
      currentCategory' := category;
      var sectionName := SectionForCategory(category.value, currentSection);
      currentSection' := Some(sectionName);
      specs' := EnsureCategory(specs', sectionName, category.value);
    }
  }

  /** What the parser's dicts always satisfy: no repeated key at any level, and only the
      three section names as sections. */
  predicate ValidSpecs(specs: Specs)
  {
    && UniqueKeys(specs)
    && forall s :: s in Keys(specs) ==> s in SectionNames && ValidCategories(Get(specs, s).value)
  }

  predicate ValidCategories(cats: Dict<Dict<Specification>>)
  {
    && UniqueKeys(cats)
    && forall c :: c in Keys(cats) ==> UniqueKeys(Get(cats, c).value)
  }

  predicate ValidState(st: ParseState)
  {
    ValidSpecs(st.specs) && (st.section.None? || st.section.value in SectionNames)
  }

  lemma PutSpecsValid(specs: Specs, section: string, cats: Dict<Dict<Specification>>)
    requires ValidSpecs(specs) && section in SectionNames && ValidCategories(cats)
    ensures ValidSpecs(Put(specs, section, cats))
  {
    var r := Put(specs, section, cats);
    forall s | s in Keys(r)
      ensures s in SectionNames && ValidCategories(Get(r, s).value)
    {
      if s != section {
        assert s in Keys(specs);
      }
    }
  }

  lemma PutCategoriesValid(cats: Dict<Dict<Specification>>, category: string, subs: Dict<Specification>)
    requires ValidCategories(cats) && UniqueKeys(subs)
    ensures ValidCategories(Put(cats, category, subs))
  {
    var r := Put(cats, category, subs);
    forall c | c in Keys(r)
      ensures UniqueKeys(Get(r, c).value)
    {
      if c != category {
        assert c in Keys(cats);
      }
    }
  }

  lemma EnsureCategoryValid(specs: Specs, section: string, category: string)
    requires ValidSpecs(specs) && section in SectionNames
    ensures ValidSpecs(EnsureCategory(specs, section, category))
  {
    var specs1 := if section in Keys(specs) then specs else Put(specs, section, []);
    if section !in Keys(specs) {
      PutSpecsValid(specs, section, []);
    }
    var cats := Get(specs1, section).value;
    if category !in Keys(cats) {
      PutCategoriesValid(cats, category, []);
      PutSpecsValid(specs1, section, Put(cats, category, []));
    }
  }

  lemma PutPathValid(specs: Specs, section: string, category: string, sub: string, spec: Specification)
    requires ValidSpecs(specs) && section in SectionNames
    ensures ValidSpecs(PutPath(specs, section, category, sub, spec))
  {
    var cats := GetOr(specs, section, []);
    var subs := GetOr(cats, category, []);
    PutCategoriesValid(cats, category, Put(subs, sub, spec));
    PutSpecsValid(specs, section, Put(cats, category, Put(subs, sub, spec)));
  }

  lemma EnterCategoryValid(st: ParseState, category: string)
    requires ValidState(st)
    ensures ValidState(EnterCategory(st, category))
  {
    EnsureCategoryValid(st.specs, SectionForCategory(category, st.section), category);
  }

  lemma StepRowValid(st: ParseState, rowData: seq<string>)
    requires ValidState(st)
    ensures ValidState(StepRow(st, rowData))
  {
    if !Blank(rowData) {
      var category := RowCategory(st, rowData);
      if category.Some? && category.value != "" {
        var st1 := EnterCategory(st, category.value);
        EnterCategoryValid(st, category.value);
        if |rowData| > 3 {
          PutPathValid(st1.specs, st1.section.value, st1.category.value, RowSub(rowData), RowSpec(rowData));
        }
      }
    }
  }

  /** The row loop keeps the parser's dicts valid. */
  lemma {:induction false} ParseRowsValid(st: ParseState, rows: seq<seq<string>>)
    requires ValidState(st)
    ensures ValidState(ParseRows(st, rows))
    decreases |rows|
  {
    if rows != [] {
      StepRowValid(st, CleanRow(rows[0]));
      ParseRowsValid(StepRow(st, CleanRow(rows[0])), rows[1..]);
    }
  }

  /** Storing a specification changes exactly one path. */
  lemma PutPathGet(specs: Specs, section: string, category: string, sub: string, spec: Specification,
                   section': string, category': string, sub': string)
    ensures GetPath(PutPath(specs, section, category, sub, spec), section', category', sub') ==
            if section' == section && category' == category && sub' == sub then Some(spec)
            else GetPath(specs, section', category', sub')
  {
    var cats := GetOr(specs, section, []);
    var subs := GetOr(cats, category, []);
    if section' == section && category' != category {
      assert Get(Put(cats, category, Put(subs, sub, spec)), category') == Get(cats, category');
    }
  }

  /** Creating an empty section or category stores no specification. */
  lemma EnsureCategoryGet(specs: Specs, section: string, category: string,
                          section': string, category': string, sub': string)
    ensures GetPath(EnsureCategory(specs, section, category), section', category', sub')
            == GetPath(specs, section', category', sub')
  {
    var specs1 := if section in Keys(specs) then specs else Put(specs, section, []);
    if section !in Keys(specs) {
      EmptySectionGet(specs, section, section', category', sub');
    }
    assert Get(specs1, section).Some?;
    var cats := Get(specs1, section).value;
    if category !in Keys(cats) {
      EmptyCategoryGet(specs1, section, cats, category, section', category', sub');
    }
  }

  lemma EmptySectionGet(specs: Specs, section: string, section': string, category': string, sub': string)
    requires section !in Keys(specs)
    ensures GetPath(Put(specs, section, []), section', category', sub') == GetPath(specs, section', category', sub')
  {
    if section' == section {
      assert Get(Put(specs, section, []), section') == Some([]);
      assert Get(specs, section') == None;
    } else {
      assert Get(Put(specs, section, []), section') == Get(specs, section');
    }
  }

  lemma EmptyCategoryGet(specs: Specs, section: string, cats: Dict<Dict<Specification>>, category: string,
                         section': string, category': string, sub': string)
    requires Get(specs, section) == Some(cats) && category !in Keys(cats)
    ensures GetPath(Put(specs, section, Put(cats, category, [])), section', category', sub') == GetPath(specs, section', category', sub')
  {
    var specs2 := Put(specs, section, Put(cats, category, []));
    if section' == section {
      assert Get(specs2, section') == Some(Put(cats, category, []));
      if category' == category {
        assert Get(cats, category') == None;
      } else {
        assert Get(Put(cats, category, []), category') == Get(cats, category');
      }
    } else {
      assert Get(specs2, section') == Get(specs, section');
    }
  }

  /** What one row does to the stored specifications: a non-blank row of at least four
      cells whose category is known (its own first cell, or the one inherited from an
      earlier row) stores its specification under that category, in the category's section,
      under its sub-specification name ("" when it has none), replacing an earlier row's
      specification on the same path; every other path keeps its specification. */
  lemma StepRowGet(st: ParseState, rowData: seq<string>, section': string, category': string, sub': string)
    ensures GetPath(StepRow(st, rowData).specs, section', category', sub') ==
            if !Blank(rowData) && |rowData| > 3 && RowCategory(st, rowData).Some? && RowCategory(st, rowData).value != ""
               && section' == SectionForCategory(RowCategory(st, rowData).value, st.section)
               && category' == RowCategory(st, rowData).value && sub' == RowSub(rowData)
            then Some(RowSpec(rowData))
            else GetPath(st.specs, section', category', sub')
  {
    if !Blank(rowData) {
      var category := RowCategory(st, rowData);
      var entered := EnterRow(st, rowData);
      if category.Some? && category.value != "" {
        var section := SectionForCategory(category.value, st.section);
        assert entered == ParseState(EnsureCategory(st.specs, section, category.value), Some(category.value), Some(section));
        EnsureCategoryGet(st.specs, section, category.value, section', category', sub');
        if |rowData| > 3 {
          assert StepRow(st, rowData).specs == PutPath(entered.specs, section, category.value, RowSub(rowData), RowSpec(rowData));
          PutPathGet(entered.specs, section, category.value, RowSub(rowData), RowSpec(rowData), section', category', sub');
        } else {
          assert StepRow(st, rowData) == entered;
        }
      } else {
        assert entered == st && StepRow(st, rowData) == st;
      }
    }
  }

  /** A non-blank row with an empty first cell stays in the most recent category and
      files it again under that category's section. */
  lemma StepRowInherits(st: ParseState, rowData: seq<string>)
    requires !Blank(rowData) && rowData[0] == ""
    requires st.category.Some? && st.category.value != ""
    ensures StepRow(st, rowData).category == st.category
    ensures StepRow(st, rowData).section == Some(SectionForCategory(st.category.value, st.section))
  {
  }

  /** Rows whose first cell is empty, met before any category, produce nothing: the
      parser's state stays the initial one. */
  lemma {:induction false} NoCategoryNoSpecs(st: ParseState, rows: seq<seq<string>>)
    requires st.category.None?
    requires forall i :: 0 <= i < |rows| ==> rows[i] == [] || Strip(rows[i][0]) == ""
    ensures ParseRows(st, rows) == st
    decreases |rows|
  {
    if rows != [] {
      var rowData := CleanRow(rows[0]);
      assert StepRow(st, rowData) == st;
      NoCategoryNoSpecs(st, rows[1..]);
    }
  }

  /** Electrical keywords are tried before the others: a category that mentions a voltage
      (in any case) is an electrical specification, whatever else it mentions and whatever
      the current section. */
  lemma VoltageIsElectrical(category: string, currentSection: Option<string>)
    requires Contains(Lower(category), "voltage")
    ensures SectionForCategory(category, currentSection) == ElectricalSection
  {
    var lower := Lower(category);
    assert ElectricalTerms[1..][0] == "voltage";
    assert AnyIn(ElectricalTerms[1..], lower);
    assert AnyIn(ElectricalTerms, lower);
  }

  /** `sections[name].categories[category] = PDFCategory(subcategories=subs)`, the section
      being created empty first when it is missing. */
  function PutCategory(sections: Dict<Section>, name: string, category: string, subs: Dict<Specification>): Dict<Section>
  {
    var section := GetOr(sections, name, Section([]));
    Put(sections, name, Section(Put(section.categories, category, Category(subs))))
  }

  /** The category loop of `_process_specification_tables`, for one section. */
  function MergeCategories(sections: Dict<Section>, name: string, cats: Dict<Dict<Specification>>): Dict<Section>
    decreases |cats|
  {
    if cats == [] then sections else MergeCategories(PutCategory(sections, name, cats[0].0, cats[0].1), name, cats[1..])
  }

  /** One section of one table: the section is created when missing, then every category
      of the table is stored in it. */
  function MergeSection(sections: Dict<Section>, name: string, cats: Dict<Dict<Specification>>): Dict<Section>
  {
    MergeCategories(if name in Keys(sections) then sections else Put(sections, name, Section([])), name, cats)
  }

  /** All sections of one table. */
  function MergeSpecs(sections: Dict<Section>, specs: Specs): Dict<Section>
    decreases |specs|
  {
    if specs == [] then sections else MergeSpecs(MergeSection(sections, specs[0].0, specs[0].1), specs[1..])
  }

  /** All tables, in order. */
  function MergeTables(sections: Dict<Section>, tables: seq<seq<seq<string>>>): Dict<Section>
    decreases |tables|
  {
    if tables == [] then sections else MergeTables(MergeSpecs(sections, TableSpecs(tables[0])), tables[1..])
  }

  /** `PDFProcessor._process_specification_tables` (its unused `text` argument left out). */
  method ProcessSpecificationTables(tables: seq<seq<seq<string>>>) returns (sections: Dict<Section>)
    ensures sections == MergeTables([], tables)
  {
    sections := [];
    var t := 0;
    while t < |tables|
      invariant 0 <= t <= |tables|
      invariant MergeTables(sections, tables[t..]) == MergeTables([], tables)
    {
      assert tables[t..][0] == tables[t] && tables[t..][1..] == tables[t + 1..];
      var specs := ParseTableToSpecs(tables[t]);
      if specs != [] {
        sections := StoreSections(sections, specs);
      }
      t := t + 1;
    }
  }

  /** The section loop of `_process_specification_tables`, for one table. */
  method StoreSections(sections: Dict<Section>, specs: Specs) returns (sections': Dict<Section>)
    ensures sections' == MergeSpecs(sections, specs)
  {
    sections' := sections;
    var s := 0;
    while s < |specs|
      invariant 0 <= s <= |specs|
      invariant MergeSpecs(sections', specs[s..]) == MergeSpecs(sections, specs)
    {
      assert specs[s..][0] == specs[s] && specs[s..][1..] == specs[s + 1..];
      var sectionName := specs[s].0;
      if sectionName !in Keys(sections') {
        sections' := Put(sections', sectionName, Section([]));
      }
      sections' := StoreCategories(sections', sectionName, specs[s].1);
      s := s + 1;
    }
  }

  /** The category loop of `_process_specification_tables`, for a section already present. */
  method StoreCategories(sections: Dict<Section>, name: string, cats: Dict<Dict<Specification>>)
    returns (sections': Dict<Section>)
    requires name in Keys(sections)
    ensures sections' == MergeCategories(sections, name, cats)
  {
    sections' := sections;
    var c := 0;
    while c < |cats|
      invariant 0 <= c <= |cats|
      invariant name in Keys(sections')
      invariant MergeCategories(sections', name, cats[c..]) == MergeCategories(sections, name, cats)
    {
      assert cats[c..][0] == cats[c] && cats[c..][1..] == cats[c + 1..];
      var section := Get(sections', name).value;
      sections' := Put(sections', name, Section(Put(section.categories, cats[c].0, Category(cats[c].1))));
      c := c + 1;
    }
  }

  /** The category stored under a section and category name. */
  function CategoryAt(sections: Dict<Section>, name: string, category: string): Option<Category>
  {
    match Get(sections, name)
    case None => None
    case Some(section) => Get(section.categories, category)
  }

  lemma PutCategoryGet(sections: Dict<Section>, name: string, category: string, subs: Dict<Specification>,
                       name': string, category': string)
    ensures CategoryAt(PutCategory(sections, name, category, subs), name', category') ==
            if name' == name && category' == category then Some(Category(subs)) else CategoryAt(sections, name', category')
  {
    var section := GetOr(sections, name, Section([]));
    if name' == name && category' != category {
      assert Get(Put(section.categories, category, Category(subs)), category') == Get(section.categories, category');
    }
  }

  /** Storing a table's categories in a section replaces a same-named category wholesale
      (its sub-specifications are not merged) and leaves every other category alone. */
  lemma {:induction false} MergeCategoriesGet(sections: Dict<Section>, name: string, cats: Dict<Dict<Specification>>,
                                              name': string, category': string)
    requires UniqueKeys(cats)
    ensures CategoryAt(MergeCategories(sections, name, cats), name', category') ==
            if name' == name && category' in Keys(cats) then Some(Category(Get(cats, category').value))
            else CategoryAt(sections, name', category')
    decreases |cats|
  {
    if cats != [] {
      var tail := cats[1..];
      assert Keys(cats) == [cats[0].0] + Keys(tail);
      assert UniqueKeys(tail);
      MergeCategoriesGet(PutCategory(sections, name, cats[0].0, cats[0].1), name, tail, name', category');
      PutCategoryGet(sections, name, cats[0].0, cats[0].1, name', category');
    }
  }

  lemma MergeSectionGet(sections: Dict<Section>, name: string, cats: Dict<Dict<Specification>>,
                        name': string, category': string)
    requires UniqueKeys(cats)
    ensures CategoryAt(MergeSection(sections, name, cats), name', category') ==
            if name' == name && category' in Keys(cats) then Some(Category(Get(cats, category').value))
            else CategoryAt(sections, name', category')
  {
    var base := if name in Keys(sections) then sections else Put(sections, name, Section([]));
    assert CategoryAt(base, name', category') == CategoryAt(sections, name', category');
    MergeCategoriesGet(base, name, cats, name', category');
  }

  /** A table's dict with no repeated key at any level, stated entry by entry. */
  predicate ValidEntries(specs: Specs)
  {
    && UniqueKeys(specs)
    && forall i :: 0 <= i < |specs| ==>
         && UniqueKeys(specs[i].1)
         && forall j :: 0 <= j < |specs[i].1| ==> UniqueKeys(specs[i].1[j].1)
  }

  lemma ValidSpecsEntries(specs: Specs)
    requires ValidSpecs(specs)
    ensures ValidEntries(specs)
  {
    forall i | 0 <= i < |specs|
      ensures UniqueKeys(specs[i].1)
      ensures forall j :: 0 <= j < |specs[i].1| ==> UniqueKeys(specs[i].1[j].1)
    {
      var (name, cats) := specs[i];
      assert name in Keys(specs) by { assert Keys(specs)[i] == name; }
      GetIn(specs, name, cats);
      forall j | 0 <= j < |cats|
        ensures UniqueKeys(cats[j].1)
      {
        assert cats[j].0 in Keys(cats) by { assert Keys(cats)[j] == cats[j].0; }
        GetIn(cats, cats[j].0, cats[j].1);
      }
    }
  }

  /** Merging one table: every category the table has replaces the same-named category of
      the same section (a later table wins), and every other category is kept. */
  lemma {:induction false} MergeSpecsGet(sections: Dict<Section>, specs: Specs, name': string, category': string)
    requires ValidEntries(specs)
    ensures CategoryAt(MergeSpecs(sections, specs), name', category') ==
            if name' in Keys(specs) && category' in Keys(Get(specs, name').value)
            then Some(Category(Get(Get(specs, name').value, category').value))
            else CategoryAt(sections, name', category')
    decreases |specs|
  {
    if specs != [] {
      var tail := specs[1..];
      assert Keys(specs) == [specs[0].0] + Keys(tail);
      assert ValidEntries(tail) by {
        forall i | 0 <= i < |tail| ensures tail[i] == specs[i + 1] { }
      }
      MergeSectionGet(sections, specs[0].0, specs[0].1, name', category');
      MergeSpecsGet(MergeSection(sections, specs[0].0, specs[0].1), tail, name', category');
    }
  }

  lemma PutCategoryWellFormed(sections: Dict<Section>, name: string, category: string, subs: Dict<Specification>)
    requires WellFormedSections(sections) && UniqueKeys(subs)
    ensures WellFormedSections(PutCategory(sections, name, category, subs))
  {
    var section := GetOr(sections, name, Section([]));
    var section' := Section(Put(section.categories, category, Category(subs)));
    forall c | c in Keys(section'.categories)
      ensures UniqueKeys(Get(section'.categories, c).value.subcategories)
    {
      if c != category {
        assert c in Keys(section.categories);
      }
    }
    var r := Put(sections, name, section');
    forall s | s in Keys(r)
      ensures WellFormedSection(Get(r, s).value)
    {
      if s != name {
        assert s in Keys(sections);
      }
    }
  }

  lemma {:induction false} MergeCategoriesWellFormed(sections: Dict<Section>, name: string, cats: Dict<Dict<Specification>>)
    requires WellFormedSections(sections)
    requires forall j :: 0 <= j < |cats| ==> UniqueKeys(cats[j].1)
    ensures WellFormedSections(MergeCategories(sections, name, cats))
    decreases |cats|
  {
    if cats != [] {
      PutCategoryWellFormed(sections, name, cats[0].0, cats[0].1);
      MergeCategoriesWellFormed(PutCategory(sections, name, cats[0].0, cats[0].1), name, cats[1..]);
    }
  }

  lemma {:induction false} MergeSpecsWellFormed(sections: Dict<Section>, specs: Specs)
    requires WellFormedSections(sections) && ValidEntries(specs)
    ensures WellFormedSections(MergeSpecs(sections, specs))
    decreases |specs|
  {
    if specs != [] {
      var name := specs[0].0;
      var base := if name in Keys(sections) then sections else Put(sections, name, Section([]));
      if name !in Keys(sections) {
        EmptySectionWellFormed(sections, name);
      }
      MergeCategoriesWellFormed(base, name, specs[0].1);
      var tail := specs[1..];
      ValidEntriesTail(specs);
      MergeSpecsWellFormed(MergeSection(sections, name, specs[0].1), tail);
    }
  }

  lemma EmptySectionWellFormed(sections: Dict<Section>, name: string)
    requires WellFormedSections(sections) && name !in Keys(sections)
    ensures WellFormedSections(Put(sections, name, Section([])))
  {
    var base := Put(sections, name, Section([]));
    forall s | s in Keys(base) ensures WellFormedSection(Get(base, s).value) {
      if s != name { assert s in Keys(sections); }
    }
  }

  lemma ValidEntriesTail(specs: Specs)
    requires ValidEntries(specs) && specs != []
    ensures ValidEntries(specs[1..]) && forall j :: 0 <= j < |specs[0].1| ==> UniqueKeys(specs[0].1[j].1)
  {
    var tail := specs[1..];
    forall i | 0 <= i < |tail| ensures tail[i] == specs[i + 1] { }
  }

  /** The merged sections never repeat a section, category or sub-specification name. */
  lemma {:induction false} MergeTablesWellFormed(sections: Dict<Section>, tables: seq<seq<seq<string>>>)
    requires WellFormedSections(sections)
    ensures WellFormedSections(MergeTables(sections, tables))
    decreases |tables|
  {
    if tables != [] {
      var specs := TableSpecs(tables[0]);
      ValidSpecsEntries(specs);
      MergeSpecsWellFormed(sections, specs);
      MergeTablesWellFormed(MergeSpecs(sections, specs), tables[1..]);
    }
  }

  /** The last component of a '/'-separated path, empty and "." components skipped
      (`Path(filename).name`). */
  function PathName(filename: string): string
  {
    LastComponent(Split(filename, '/'))
  }

  function LastComponent(parts: seq<string>): (r: string)
    ensures '/' !in r || r in parts
    decreases |parts|
  {
    if parts == [] then ""
    else if parts[|parts| - 1] == "" || parts[|parts| - 1] == "." then LastComponent(parts[..|parts| - 1])
    else parts[|parts| - 1]
  }

  /** The position of the last `c` in `s`, if any (`s.rfind(c)`). */
  function LastIndexOf(s: string, c: char): (r: Option<nat>)
    ensures r.None? ==> c !in s
    ensures r.Some? ==> r.value < |s| && s[r.value] == c && c !in s[r.value + 1..]
  {
    if s == [] then None
    else if s[|s| - 1] == c then Some(|s| - 1)
    else
      match LastIndexOf(s[..|s| - 1], c)
      case None => None
      case Some(i) => assert s[i + 1..] == s[..|s| - 1][i + 1..] + [s[|s| - 1]]; Some(i)
  }

  /** `PurePath.stem`: the name without its last suffix, a suffix being a final "." piece
      that neither starts the name nor is empty. */
  function Stem(name: string): (r: string)
    ensures |r| <= |name| && r == name[..|r|]
  {
    match LastIndexOf(name, '.')
    case Some(i) => if 0 < i < |name| - 1 then name[..i] else name
    case None => name
  }

  /** The letters `[RFW]` matches under `re.IGNORECASE`. */
  predicate IsModelLetter(c: char)
  {
    c == 'R' || c == 'F' || c == 'W' || c == 'r' || c == 'f' || c == 'w'
  }

  /** The length of the run of digits that starts `s` (what a greedy `\d+` consumes). */
  function DigitRun(s: string): (n: nat)
    ensures n <= |s|
    ensures forall k :: 0 <= k < n ==> IsDigit(s[k])
    ensures n == |s| || !IsDigit(s[n])
  {
    if s != [] && IsDigit(s[0]) then 1 + DigitRun(s[1..]) else 0
  }

  /** The capture of `HSR-?(\d+[RFW]?)` (ignoring case) matched at position `p` of `s`. */
  function HsrAt(s: string, p: nat): Option<string>
  {
    if p + 3 <= |s| && LowerChar(s[p]) == 'h' && LowerChar(s[p + 1]) == 's' && LowerChar(s[p + 2]) == 'r' then
      var q := if p + 4 < |s| && s[p + 3] == '-' && IsDigit(s[p + 4]) then p + 4 else p + 3;
      var n := DigitRun(s[q..]);
      if n == 0 then None
      else
        var e := q + n;
        Some(s[q..e] + if e < |s| && IsModelLetter(s[e]) then [s[e]] else [])
    else None
  }

  /** `re.search`: the match that starts leftmost, at `p` or later. */
  function HsrSearch(s: string, p: nat): (r: Option<string>)
    ensures r.Some? ==> exists q :: p <= q && HsrAt(s, q) == r && forall k :: p <= k < q ==> HsrAt(s, k).None?
    ensures r.None? ==> forall k :: p <= k ==> HsrAt(s, k).None?
    decreases |s| - p
  {
    if p + 3 > |s| then None
    else if HsrAt(s, p).Some? then HsrAt(s, p)
    else HsrSearch(s, p + 1)
  }

  /** `re.match(r'^\d+[RFW]?$', part, re.IGNORECASE)` */
  predicate ModelPart(part: string)
  {
    AllDigits(part) || (|part| >= 2 && AllDigits(part[..|part| - 1]) && IsModelLetter(part[|part| - 1]))
  }

  /** The separators of `re.split(r'[_\s]', ...)`. */
  predicate IsPartSeparator(c: char)
  {
    c == '_' || IsSpace(c)
  }

  /** The position of the first part that looks like a model number. */
  function FirstModelPart(parts: seq<string>): (r: Option<nat>)
    ensures r.Some? ==> r.value < |parts| && ModelPart(parts[r.value])
    ensures r.Some? ==> forall k :: 0 <= k < r.value ==> !ModelPart(parts[k])
    ensures r.None? ==> forall i :: 0 <= i < |parts| ==> !ModelPart(parts[i])
  {
    if parts == [] then None
    else if ModelPart(parts[0]) then Some(0)
    else
      match FirstModelPart(parts[1..])
      case None => None
      case Some(i) => Some(i + 1)
  }

  /** `PDFProcessor._extract_model_name`. */
  function ExtractModelName(filename: string): Option<string>
  {
    var stem := Stem(PathName(filename));
    match HsrSearch(stem, 0)
    case Some(capture) => Some(Upper(capture))
    case None =>
      var parts := SplitWhere(stem, IsPartSeparator);
      match FirstModelPart(parts)
      case Some(i) => Some(Upper(parts[i]))
      case None => if AllDigits(stem) then Some(stem) else None
  }

  /** A model number: digits, then at most one of the letters R, F and W. */
  predicate ModelNumber(m: string)
  {
    AllDigits(m) || (|m| >= 2 && AllDigits(m[..|m| - 1]) && (m[|m| - 1] == 'R' || m[|m| - 1] == 'F' || m[|m| - 1] == 'W'))
  }

  lemma UpperModelPart(part: string)
    requires ModelPart(part)
    ensures ModelNumber(Upper(part))
  {
    var u := Upper(part);
    if !AllDigits(part) {
      var m := u[..|u| - 1];
      assert forall k :: 0 <= k < |m| ==> m[k] == UpperChar(part[..|part| - 1][k]);
    }
  }

  lemma HsrAtShape(s: string, p: nat)
    requires HsrAt(s, p).Some?
    ensures ModelPart(HsrAt(s, p).value)
  {
    var q := if p + 4 < |s| && s[p + 3] == '-' && IsDigit(s[p + 4]) then p + 4 else p + 3;
    var n := DigitRun(s[q..]);
    var e := q + n;
    var r := HsrAt(s, p).value;
    assert AllDigits(s[q..e]) by {
      forall k | 0 <= k < n
        ensures s[q..e][k] == s[q..][k]
      {
      }
    }
    if e < |s| && IsModelLetter(s[e]) {
      assert r == s[q..e] + [s[e]];
      assert r[..|r| - 1] == s[q..e] && r[|r| - 1] == s[e];
    } else {
      assert r == s[q..e] + [];
    }
  }

  /** Whatever `_extract_model_name` finds is a model number, upper-cased. */
  lemma ExtractModelNameShape(filename: string)
    requires ExtractModelName(filename).Some?
    ensures ModelNumber(ExtractModelName(filename).value)
  {
    var stem := Stem(PathName(filename));
    match HsrSearch(stem, 0)
    case Some(capture) =>
      var q :| 0 <= q && HsrAt(stem, q) == Some(capture);
      HsrAtShape(stem, q);
      UpperModelPart(capture);
    case None =>
      var parts := SplitWhere(stem, IsPartSeparator);
      match FirstModelPart(parts)
      case Some(i) => UpperModelPart(parts[i]);
      case None =>
  }

  /** The `isdigit` fallback of `_extract_model_name` is never reached: an all-digit stem
      already matches as a part, and upper-casing leaves it as it is. */
  lemma DigitStem(filename: string)
    requires AllDigits(Stem(PathName(filename)))
    ensures ExtractModelName(filename) == Some(Stem(PathName(filename)))
  {
    var stem := Stem(PathName(filename));
    assert forall k :: HsrAt(stem, k).None?;
    SplitWhereNone(stem, IsPartSeparator);
    assert FirstModelPart([stem]) == Some(0);
    assert Upper(stem) == stem;
  }

  /** A greedy digit run stops where the digits stop. */
  lemma {:induction false} DigitRunPrefix(digits: string, rest: string)
    requires forall k :: 0 <= k < |digits| ==> IsDigit(digits[k])
    requires rest == [] || !IsDigit(rest[0])
    ensures DigitRun(digits + rest) == |digits|
  {
    if digits != [] {
      assert (digits + rest)[1..] == digits[1..] + rest;
      DigitRunPrefix(digits[1..], rest);
    } else {
      assert digits + rest == rest;
    }
  }

  /** A name that starts "HSR-" and a digit run yields that run, whatever follows it
      (other than a further digit or a model letter). */
  lemma HsrPrefix(digits: string, rest: string)
    requires AllDigits(digits)
    requires rest == [] || (!IsDigit(rest[0]) && !IsModelLetter(rest[0]))
    ensures HsrSearch("HSR-" + digits + rest, 0) == Some(digits)
  {
    var p := "HSR-";
    assert |p| == 4 && LowerChar(p[0]) == 'h' && LowerChar(p[1]) == 's' && LowerChar(p[2]) == 'r' && p[3] == '-';
    HsrMarkPrefix(p, digits, rest);
  }

  /** The same for any four-character marker that reads "hsr-" ignoring case. */
  lemma HsrMarkPrefix(p: string, digits: string, rest: string)
    requires |p| == 4 && LowerChar(p[0]) == 'h' && LowerChar(p[1]) == 's' && LowerChar(p[2]) == 'r' && p[3] == '-'
    requires AllDigits(digits)
    requires rest == [] || (!IsDigit(rest[0]) && !IsModelLetter(rest[0]))
    ensures HsrSearch(p + digits + rest, 0) == Some(digits)
  {
    HsrAtMark(p, digits, rest);
    assert |p + digits + rest| >= 3;
  }

  lemma HsrAtMark(p: string, digits: string, rest: string)
    requires |p| == 4 && LowerChar(p[0]) == 'h' && LowerChar(p[1]) == 's' && LowerChar(p[2]) == 'r' && p[3] == '-'
    requires AllDigits(digits)
    requires rest == [] || (!IsDigit(rest[0]) && !IsModelLetter(rest[0]))
    ensures HsrAt(p + digits + rest, 0) == Some(digits)
  {
    var s := p + digits + rest;
    assert s[..4] == p;
    assert s[4..] == digits + rest;
    DigitRunPrefix(digits, rest);
    assert DigitRun(s[4..]) == |digits|;
    var e := 4 + |digits|;
    assert s[4..e] == digits;
    assert !(e < |s| && IsModelLetter(s[e])) by {
      if e < |s| { assert s[e] == rest[0]; }
    }
    assert 4 < |s| && s[3] == '-' && IsDigit(s[4]);
    assert LowerChar(s[0]) == 'h' && LowerChar(s[1]) == 's' && LowerChar(s[2]) == 'r';
    assert s[4..e] + [] == digits;
  }
}
