/** The parsed spec-sheet records (src/ai_support_agent/types/pdf.py): a document holds
    sections, a section holds categories, a category holds sub-specifications, and each
    sub-specification is a value with an optional unit. All four levels are Python dicts,
    kept here in insertion order. */
module Pdf {
  import opened Wrappers
  import opened Dicts
  import opened PyValues
  import Transformers

  /** `PDFSpecification`. */
  datatype Specification = Specification(unit: Option<string>, value: string)
  {
    /** The computed `display_value`: the value alone when there is no unit (or an empty
        one), otherwise the value, one space and the unit. */
    function DisplayValue(): (r: string)
      ensures unit.None? || unit.value == [] ==> r == value
      ensures unit.Some? && unit.value != [] ==> r == value + " " + unit.value
    {
      Transformers.FormatDisplayValue(value, unit)
    }
  }

  /** `PDFCategory`: sub-specification name to specification; "" when the row had none. */
  datatype Category = Category(subcategories: Dict<Specification>)

  /** `PDFSection`: category name to category. */
  datatype Section = Section(categories: Dict<Category>)

  /** `PDFPage`: a page's text and the tables found on it, as rows of string cells. */
  datatype Page = Page(number: int, text: string, tables: seq<seq<seq<string>>>)

  /** `PDFContent`. */
  datatype Content = Content(
    rawText: string,
    metadata: Dict<Value>,
    pages: seq<Page>,
    modelNumber: Option<string>,
    sections: Dict<Section>)
  {
    /** `get_specification`: the three-level lookup, `None` (never an exception) as soon as
        one key is missing. The sub-specification key defaults to "". */
    function GetSpecification(section: string, category: string, subcategory: string := ""): (r: Option<Specification>)
      ensures r.Some? ==> exists s, c :: (section, s) in sections && (category, c) in s.categories
                                         && (subcategory, r.value) in c.subcategories
    {
      match Get(sections, section)
      case None => None
      case Some(s) =>
        match Get(s.categories, category)
        case None => None
        case Some(c) => Get(c.subcategories, subcategory)
    }
  }

  /** A document built by the parser: no dict at any level repeats a key. */
  predicate WellFormed(content: Content)
  {
    WellFormedSections(content.sections)
  }

  predicate WellFormedSections(sections: Dict<Section>)
  {
    && UniqueKeys(sections)
    && forall s :: s in Keys(sections) ==> WellFormedSection(Get(sections, s).value)
  }

  predicate WellFormedSection(section: Section)
  {
    && UniqueKeys(section.categories)
    && forall c :: c in Keys(section.categories) ==> UniqueKeys(Get(section.categories, c).value.subcategories)
  }

  /** `PDFContent(raw_text=...)` with every other field at its default. */
  function NewContent(rawText: string): (c: Content)
    ensures c.rawText == rawText && c.metadata == [] && c.pages == []
    ensures c.modelNumber == None && c.sections == []
  {
    Content(rawText, [], [], None, [])
  }

  /** A fresh document holds no specification under any path. */
  lemma NewContentEmpty(rawText: string, section: string, category: string, subcategory: string)
    ensures NewContent(rawText).GetSpecification(section, category, subcategory) == None
    ensures WellFormed(NewContent(rawText))
  {
  }

  /** A path present at all three levels is found, with the stored specification. */
  lemma GetSpecificationFound(content: Content, section: string, s: Section, category: string,
                              c: Category, subcategory: string, spec: Specification)
    requires WellFormed(content)
    requires (section, s) in content.sections
    requires (category, c) in s.categories
    requires (subcategory, spec) in c.subcategories
    ensures content.GetSpecification(section, category, subcategory) == Some(spec)
  {
    GetIn(content.sections, section, s);
    GetIn(s.categories, category, c);
    GetIn(c.subcategories, subcategory, spec);
  }

  /** `get_specification` returns `None` exactly when no section/category/sub-specification
      path with these names exists. */
  lemma GetSpecificationNone(content: Content, section: string, category: string, subcategory: string)
    requires WellFormed(content)
    ensures content.GetSpecification(section, category, subcategory).None? <==>
            !exists s, c, spec :: (section, s) in content.sections && (category, c) in s.categories
                                  && (subcategory, spec) in c.subcategories
  {
    if exists s, c, spec :: (section, s) in content.sections && (category, c) in s.categories
                            && (subcategory, spec) in c.subcategories
    {
      var s, c, spec :| (section, s) in content.sections && (category, c) in s.categories
                        && (subcategory, spec) in c.subcategories;
      GetSpecificationFound(content, section, s, category, c, subcategory, spec);
    }
  }
}
