/**
 * Extraction from the flat-XML ("CFG") dialect (pkg/parser/cfg_parser.go).
 *
 * XML decoding and the filesystem are inputs: a decoded file is a `CfgObject`
 * value, and a kind directory is either missing or the sequence of events a
 * walk of it produces, in walk order, each file carrying the outcome of
 * reading and decoding it.
 */
module CfgParser {
  import opened Wrappers
  import opened Strings
  import opened Model
  import TypeConverter

  // ---------------------------------------------------------------------------
  // Decoded XML

  /** One `<item>` of a synonym: a language code and the text in that language. */
  datatype SynonymItem = SynonymItem(lang: string, content: string)

  /**
   * The `<Type>` element: single `Type` entries, `TypeSet` entries, and the
   * `DateFractions` value of each `DateQualifiers` element.
   */
  datatype CfgType = CfgType(types: seq<string>, typeSets: seq<string>, dateFractions: seq<string>)

  datatype CfgAttribute = CfgAttribute(name: string, synonym: seq<SynonymItem>, typ: CfgType)

  datatype CfgTabularSection = CfgTabularSection(name: string, synonym: seq<SynonymItem>, attributes: seq<CfgAttribute>)

  datatype CfgEnumValue = CfgEnumValue(name: string, synonym: seq<SynonymItem>)

  /**
   * A decoded object file. Each kind's Go struct declares a subset of these
   * child lists; the file parser of a kind reads only the lists it declares.
   */
  datatype CfgObject = CfgObject(
    name: string,
    synonym: seq<SynonymItem>,
    attributes: seq<CfgAttribute>,
    tabularSections: seq<CfgTabularSection>,
    dimensions: seq<CfgAttribute>,
    resources: seq<CfgAttribute>,
    enumValues: seq<CfgEnumValue>)

  // ---------------------------------------------------------------------------
  // extractSynonym

  /** `extractSynonym`: the content of the first item whose language is exactly "ru", or "". */
  function ExtractSynonym(items: seq<SynonymItem>): string
  {
    if |items| == 0 then ""
    else if items[0].lang == "ru" then items[0].content
    else ExtractSynonym(items[1..])
  }

  /** The search returns the first Russian item's content, and "" when there is none. */
  lemma {:induction false} ExtractSynonymFirstRu(items: seq<SynonymItem>)
    ensures forall i :: 0 <= i < |items| && items[i].lang == "ru" && NoRuBefore(items, i) ==>
      ExtractSynonym(items) == items[i].content
    ensures NoRuBefore(items, |items|) ==> ExtractSynonym(items) == ""
  {
    if |items| > 0 && items[0].lang != "ru" {
      ExtractSynonymFirstRu(items[1..]);
      assert forall i :: 1 <= i <= |items| && NoRuBefore(items, i) ==> NoRuBefore(items[1..], i - 1);
    }
  }

  /** No item before position `n` is in Russian. */
  predicate NoRuBefore(items: seq<SynonymItem>, n: int)
    requires 0 <= n <= |items|
  {
    forall j :: 0 <= j < n ==> items[j].lang != "ru"
  }

  lemma SynonymExamples(en: SynonymItem, ru: SynonymItem, ru2: SynonymItem)
    requires en.lang == "en" && ru.lang == "ru" && ru2.lang == "ru"
    ensures ExtractSynonym([en, ru, ru2]) == ru.content
    ensures ExtractSynonym([en]) == ""
  {
    ExtractSynonymFirstRu([en, ru, ru2]);
    assert NoRuBefore([en, ru, ru2], 1);
    ExtractSynonymFirstRu([en]);
  }

  // ---------------------------------------------------------------------------
  // isDateOnly

  /** A `DateFractions` value that asks for the date alone: "Date" up to ASCII case and surrounding space. */
  predicate DateOnlyFraction(fraction: string) {
    EqualFold(TrimSpace(fraction), "Date")
  }

  /** `isDateOnly`: whether some date qualifier asks for the date alone. */
  function IsDateOnly(t: CfgType): (r: bool)
    ensures r <==> exists i :: 0 <= i < |t.dateFractions| && DateOnlyFraction(t.dateFractions[i])
  {
    AnyDateOnly(t.dateFractions)
  }

  /** The search loop of `isDateOnly`, returning on the first hit. */
  function AnyDateOnly(fractions: seq<string>): (r: bool)
    ensures r <==> exists i :: 0 <= i < |fractions| && DateOnlyFraction(fractions[i])
  {
    if |fractions| == 0 then false
    else if DateOnlyFraction(fractions[0]) then true
    else
      assert forall i :: 1 <= i < |fractions| ==> fractions[i] == fractions[1..][i - 1];
      AnyDateOnly(fractions[1..])
  }

  /** Matching ignores ASCII case; a fraction that merely starts with "Date" does not count. */
  lemma DateOnlyExamples(lower: string, longer: string)
    requires lower == "date" && longer == "DateTime"
    ensures IsDateOnly(CfgType([], [], [longer, lower]))
    ensures !IsDateOnly(CfgType([], [], [longer]))
    ensures !IsDateOnly(CfgType([], [], []))
  {
    TrimSpaceOfTrimmed(lower);
    TrimSpaceOfTrimmed(longer);
    assert ToLower(lower) == ToLower("Date");
    assert |ToLower(longer)| != |ToLower("Date")|;
    assert DateOnlyFraction([longer, lower][1]);
  }

  // ---------------------------------------------------------------------------
  // extractTypes

  /** At most one leading "cfg:", then at most one leading "v8:", then surrounding space are removed. */
  function StripPrefixes(entry: string): string {
    TrimSpace(TrimPrefix(TrimPrefix(entry, "cfg:"), "v8:"))
  }

  /** The type name one kept entry contributes; `collapse` turns "xs:dateTime" into "Date". */
  function TypeEntry(entry: string, collapse: bool): string {
    var name := StripPrefixes(entry);
    if name == "xs:dateTime" && collapse then "Date" else name
  }

  /** Each entry of `entries` that is not blank, in order, as a type name. */
  function Cleaned(entries: seq<string>, collapse: bool): seq<string>
  {
    if |entries| == 0 then []
    else Cleaned(entries[..|entries| - 1], collapse) + Contribution(entries[|entries| - 1], collapse)
  }

  /** What one entry adds to the list: nothing when it is blank before any prefix is removed. */
  function Contribution(entry: string, collapse: bool): seq<string> {
    if TrimSpace(entry) != "" then [TypeEntry(entry, collapse)] else []
  }

  /**
   * What `extractTypes` returns: the `Type` entries, collapsing "xs:dateTime"
   * when the type is date-only, followed by the `TypeSet` entries, never
   * collapsed.
   */
  function ExtractedTypes(t: CfgType): seq<string> {
    Cleaned(t.types, IsDateOnly(t)) + Cleaned(t.typeSets, false)
  }

  /** `extractTypes`: two loops appending to one list. */
  method ExtractTypes(t: CfgType) returns (types: seq<string>)
    ensures types == ExtractedTypes(t)
  {
    types := [];
    for i := 0 to |t.types|
      invariant types == Cleaned(t.types[..i], IsDateOnly(t))
    {
      CleanedStep(t.types, i, IsDateOnly(t));
      types := AppendType(types, t.types[i], t);
    }
    assert t.types[..|t.types|] == t.types;
    for i := 0 to |t.typeSets|
      invariant types == Cleaned(t.types, IsDateOnly(t)) + Cleaned(t.typeSets[..i], false)
    {
      CleanedStep(t.typeSets, i, false);
      AppendAssoc(Cleaned(t.types, IsDateOnly(t)), Cleaned(t.typeSets[..i], false), Contribution(t.typeSets[i], false));
      types := AppendTypeSet(types, t.typeSets[i]);
    }
    assert t.typeSets[..|t.typeSets|] == t.typeSets;
  }

  /** One more entry adds its contribution at the end. */
  lemma CleanedStep(entries: seq<string>, i: nat, collapse: bool)
    requires i < |entries|
    ensures Cleaned(entries[..i + 1], collapse) == Cleaned(entries[..i], collapse) + Contribution(entries[i], collapse)
  {
    assert entries[..i + 1][..i] == entries[..i];
  }

  /** The body of the `Types` loop: skip a blank entry, strip it, collapse a date-only "xs:dateTime". */
  method AppendType(types: seq<string>, entry: string, t: CfgType) returns (r: seq<string>)
    ensures r == types + Contribution(entry, IsDateOnly(t))
  {
    r := types;
    if TrimSpace(entry) != "" {
      var name := TypeName(entry);
      if name == "xs:dateTime" && IsDateOnly(t) {
        r := r + ["Date"];
      } else {
        r := r + [name];
      }
    }
  }

  /** The body of the `TypeSets` loop: skip a blank entry, strip it. */
  method AppendTypeSet(types: seq<string>, entry: string) returns (r: seq<string>)
    ensures r == types + Contribution(entry, false)
  {
    r := types;
    if TrimSpace(entry) != "" {
      var name := TypeName(entry);
      r := r + [name];
    }
  }

  /** The three statements that strip the prefixes of one entry and trim it. */
  method TypeName(entry: string) returns (name: string)
    ensures name == StripPrefixes(entry)
  {
    name := TrimPrefix(entry, "cfg:");
    name := TrimPrefix(name, "v8:");
    name := TrimSpace(name);
  }

  /** Cleaning distributes over concatenation: the entries are treated one at a time, in order. */
  lemma {:induction false} CleanedAppend(a: seq<string>, b: seq<string>, collapse: bool)
    ensures Cleaned(a + b, collapse) == Cleaned(a, collapse) + Cleaned(b, collapse)
    decreases |b|
  {
    if |b| == 0 {
      assert a + b == a;
    } else {
      var n := |b| - 1;
      assert (a + b)[..|a + b| - 1] == a + b[..n];
      assert (a + b)[|a + b| - 1] == b[n];
      CleanedAppend(a, b[..n], collapse);
      assert Cleaned(a + b, collapse) == Cleaned(a + b[..n], collapse) + Contribution(b[n], collapse);
      assert Cleaned(b, collapse) == Cleaned(b[..n], collapse) + Contribution(b[n], collapse);
      AppendAssoc(Cleaned(a, collapse), Cleaned(b[..n], collapse), Contribution(b[n], collapse));
    }
  }

  /** A single entry: dropped when blank, otherwise one type name. */
  lemma CleanedSingle(entry: string, collapse: bool)
    ensures Cleaned([entry], collapse) == Contribution(entry, collapse)
  {
    assert [entry][..0] == [];
  }

  /** Nothing is deduplicated or invented: one name per non-blank entry, and at most one per entry. */
  lemma {:induction false} CleanedLength(entries: seq<string>, collapse: bool)
    ensures |Cleaned(entries, collapse)| <= |entries|
    ensures (forall i :: 0 <= i < |entries| ==> TrimSpace(entries[i]) != "") ==> |Cleaned(entries, collapse)| == |entries|
    decreases |entries|
  {
    if |entries| > 0 {
      CleanedLength(entries[..|entries| - 1], collapse);
    }
  }

  /** Every name that is not the collapsed "Date" is trimmed. */
  lemma {:induction false} CleanedTrimmed(entries: seq<string>, collapse: bool)
    ensures forall i :: 0 <= i < |Cleaned(entries, collapse)| ==>
      var x := Cleaned(entries, collapse)[i]; x == "Date" || TrimSpace(x) == x
    decreases |entries|
  {
    if |entries| > 0 {
      var last := entries[|entries| - 1];
      CleanedTrimmed(entries[..|entries| - 1], collapse);
      TrimSpaceIdempotent(TrimPrefix(TrimPrefix(last, "cfg:"), "v8:"));
    }
  }

  /** "xs:dateTime" carries no prefix and no surrounding space. */
  lemma DateTimeIsClean(entry: string)
    requires entry == "xs:dateTime"
    ensures TrimSpace(entry) == entry && StripPrefixes(entry) == entry
  {
    assert entry[0] == 'x';
    assert !HasPrefix(entry, "cfg:") by { assert entry[..4][0] == 'x'; }
    assert !HasPrefix(entry, "v8:") by { assert entry[..3][0] == 'x'; }
    TrimSpaceOfTrimmed(entry);
  }

  /**
   * An "xs:dateTime" `Type` entry, wherever it stands among the others,
   * becomes "Date" exactly when the type is date-only.
   */
  lemma DateTimeCollapse(t: CfgType, a: seq<string>, entry: string, b: seq<string>)
    requires entry == "xs:dateTime" && t.types == a + [entry] + b
    ensures ExtractedTypes(t) ==
      Cleaned(a, IsDateOnly(t)) + [if IsDateOnly(t) then "Date" else "xs:dateTime"]
      + Cleaned(b, IsDateOnly(t)) + Cleaned(t.typeSets, false)
  {
    var c := IsDateOnly(t);
    DateTimeIsClean(entry);
    CleanedSingle(entry, c);
    CleanedAppend(a, [entry], c);
    CleanedAppend(a + [entry], b, c);
  }

  /** A `TypeSet` entry "xs:dateTime" is never collapsed, wherever it stands and whatever the qualifiers say. */
  lemma TypeSetNotCollapsed(t: CfgType, a: seq<string>, entry: string, b: seq<string>)
    requires entry == "xs:dateTime" && t.typeSets == a + [entry] + b
    ensures ExtractedTypes(t) ==
      Cleaned(t.types, IsDateOnly(t)) + (Cleaned(a, false) + ["xs:dateTime"] + Cleaned(b, false))
  {
    DateTimeIsClean(entry);
    CleanedSingle(entry, false);
    CleanedAppend(a, [entry], false);
    CleanedAppend(a + [entry], b, false);
  }

  lemma DateLabel(d: string)
    requires d == "Date"
    ensures TypeConverter.ConvertType(d) == "Дата"
  {
    TrimSpaceOfTrimmed(d);
    TypeConverter.ConvertTypeMatched(d, TypeConverter.Exact("Date"));
  }

  lemma DateTimeLabel(d: string)
    requires d == "xs:dateTime"
    ensures TypeConverter.ConvertType(d) == "ДатаВремя"
  {
    TrimSpaceOfTrimmed(d);
    TypeConverter.ConvertTypeMatched(d, TypeConverter.Exact("xs:dateTime"));
  }

  /**
   * The converted label at the position of an "xs:dateTime" `Type` entry is
   * «Дата» for a date-only type and «ДатаВремя» otherwise.
   */
  lemma DateOnlyLabel(t: CfgType, a: seq<string>, entry: string, b: seq<string>)
    requires entry == "xs:dateTime" && t.types == a + [entry] + b
    ensures |Cleaned(a, IsDateOnly(t))| < |ExtractedTypes(t)|
    ensures TypeConverter.ConvertAll(ExtractedTypes(t))[|Cleaned(a, IsDateOnly(t))|] ==
      if IsDateOnly(t) then "Дата" else "ДатаВремя"
  {
    DateTimeCollapse(t, a, entry, b);
    var k := |Cleaned(a, IsDateOnly(t))|;
    var x := ExtractedTypes(t)[k];
    assert x == if IsDateOnly(t) then "Date" else "xs:dateTime";
    if IsDateOnly(t) {
      DateLabel(x);
    } else {
      DateTimeLabel(x);
    }
  }

  /** A trimmed name after one of the prefixes keeps only the name. */
  lemma StripOnePrefix(name: string)
    requires name != [] && !IsSpace(name[0]) && !IsSpace(name[|name| - 1])
    requires !HasPrefix(name, "cfg:") && !HasPrefix(name, "v8:")
    ensures StripPrefixes("cfg:" + name) == name
    ensures StripPrefixes("v8:" + name) == name
  {
    TrimSpaceOfTrimmed(name);
    TrimPrefixOf("cfg:", name);
    TrimPrefixOf("v8:", name);
    NotPrefixedAt0("v8:" + name, "cfg:");
  }

  lemma StripBothPrefixes(name: string)
    requires name != [] && !IsSpace(name[0]) && !IsSpace(name[|name| - 1])
    requires !HasPrefix(name, "cfg:") && !HasPrefix(name, "v8:")
    ensures StripPrefixes("cfg:v8:" + name) == name
  {
    TrimSpaceOfTrimmed(name);
    AppendAssoc("cfg:", "v8:", name);
    assert "cfg:" + "v8:" == "cfg:v8:";
    TrimPrefixOf("cfg:", "v8:" + name);
    TrimPrefixOf("v8:", name);
  }

  lemma StripSwappedPrefixes(name: string)
    requires name != [] && !IsSpace(name[0]) && !IsSpace(name[|name| - 1])
    ensures StripPrefixes("v8:cfg:" + name) == "cfg:" + name
  {
    AppendAssoc("v8:", "cfg:", name);
    assert "v8:" + "cfg:" == "v8:cfg:";
    var w := "v8:" + ("cfg:" + name);
    NotPrefixedAt0(w, "cfg:");
    TrimPrefixOf("v8:", "cfg:" + name);
    var c := "cfg:" + name;
    assert c[0] == 'c' && c[|c| - 1] == name[|name| - 1];
    TrimSpaceOfTrimmed(c);
  }

  /** "cfg:" is removed before "v8:", each at most once. */
  lemma PrefixOrder(name: string)
    requires name != [] && !IsSpace(name[0]) && !IsSpace(name[|name| - 1])
    requires !HasPrefix(name, "cfg:") && !HasPrefix(name, "v8:")
    ensures StripPrefixes("cfg:" + name) == name
    ensures StripPrefixes("v8:" + name) == name
    ensures StripPrefixes("cfg:v8:" + name) == name
    ensures StripPrefixes("v8:cfg:" + name) == "cfg:" + name
  {
    StripOnePrefix(name);
    StripBothPrefixes(name);
    StripSwappedPrefixes(name);
  }

  /** An entry that is only a prefix is kept, as an empty name. */
  lemma PrefixOnlyEntry(entry: string)
    requires entry == "cfg:"
    ensures Cleaned([entry], false) == [""]
  {
    CleanedSingle(entry, false);
    assert TrimSpace(entry) != "" by {
      TrimSpaceOfTrimmed(entry);
    }
    assert TrimPrefix(entry, "cfg:") == "";
  }

  // ---------------------------------------------------------------------------
  // From decoded structs to records

  /** An attribute, dimension or resource: its Russian synonym and its converted types. */
  function AttributeOf(a: CfgAttribute): Attribute {
    Attribute(a.name, ExtractSynonym(a.synonym), TypeConverter.ConvertAll(ExtractedTypes(a.typ)), false)
  }

  function AttributesOf(attrs: seq<CfgAttribute>): (r: seq<Attribute>)
    ensures |r| == |attrs|
    ensures forall i :: 0 <= i < |attrs| ==> r[i] == AttributeOf(attrs[i])
  {
    seq(|attrs|, i requires 0 <= i < |attrs| => AttributeOf(attrs[i]))
  }

  function SectionOf(ts: CfgTabularSection): TabularSection {
    TabularSection(ts.name, ExtractSynonym(ts.synonym), AttributesOf(ts.attributes))
  }

  function SectionsOf(sections: seq<CfgTabularSection>): (r: seq<TabularSection>)
    ensures |r| == |sections|
    ensures forall i :: 0 <= i < |sections| ==> r[i] == SectionOf(sections[i])
  {
    seq(|sections|, i requires 0 <= i < |sections| => SectionOf(sections[i]))
  }

  function EnumValuesOf(values: seq<CfgEnumValue>): (r: seq<EnumValue>)
    ensures |r| == |values|
    ensures forall i :: 0 <= i < |values| ==> r[i] == EnumValue(values[i].name, ExtractSynonym(values[i].synonym))
  {
    seq(|values|, i requires 0 <= i < |values| => EnumValue(values[i].name, ExtractSynonym(values[i].synonym)))
  }

  /** The loop over attributes that every file parser repeats: one record per decoded attribute, in order. */
  method MapAttributes(attrs: seq<CfgAttribute>) returns (r: seq<Attribute>)
    ensures r == AttributesOf(attrs)
  {
    r := [];
    for i := 0 to |attrs|
      invariant r == AttributesOf(attrs[..i])
    {
      AttributesOfStep(attrs, i);
      var attr := MapAttribute(attrs[i]);
      r := r + [attr];
    }
    assert attrs[..|attrs|] == attrs;
  }

  lemma AttributesOfStep(attrs: seq<CfgAttribute>, i: nat)
    requires i < |attrs|
    ensures AttributesOf(attrs[..i + 1]) == AttributesOf(attrs[..i]) + [AttributeOf(attrs[i])]
  {
    var longer, shorter := attrs[..i + 1], attrs[..i];
    var next := AttributesOf(shorter) + [AttributeOf(attrs[i])];
    forall k | 0 <= k <= i
      ensures AttributesOf(longer)[k] == next[k]
    {
      if k < i {
        assert longer[k] == shorter[k];
      }
    }
  }

  /** The body of the attribute loop: name, synonym, and the converted type names. */
  method MapAttribute(a: CfgAttribute) returns (attr: Attribute)
    ensures attr == AttributeOf(a)
  {
    var types := ExtractTypes(a.typ);
    var converted := TypeConverter.ConvertTypes(types);
    attr := Attribute(a.name, ExtractSynonym(a.synonym), converted, false);
  }

  /** The loop over tabular sections, each with its own attribute loop. */
  method MapSections(sections: seq<CfgTabularSection>) returns (r: seq<TabularSection>)
    ensures r == SectionsOf(sections)
  {
    r := [];
    for i := 0 to |sections|
      invariant |r| == i
      invariant forall k :: 0 <= k < i ==> r[k] == SectionOf(sections[k])
    {
      var attrs := MapAttributes(sections[i].attributes);
      r := r + [TabularSection(sections[i].name, ExtractSynonym(sections[i].synonym), attrs)];
    }
  }

  /** The loop over enumeration values. */
  method MapEnumValues(values: seq<CfgEnumValue>) returns (r: seq<EnumValue>)
    ensures r == EnumValuesOf(values)
  {
    r := [];
    for i := 0 to |values|
      invariant |r| == i
      invariant forall k :: 0 <= k < i ==> r[k] == EnumValue(values[k].name, ExtractSynonym(values[k].synonym))
    {
      r := r + [EnumValue(values[i].name, ExtractSynonym(values[i].synonym))];
    }
  }

  /** The directories the parser walks, one per `ParseX` function. */
  datatype Section =
    | Documents
    | Catalogs
    | Enums
    | ChartsOfCharacteristicTypes
    | AccumulationRegisters
    | InformationRegisters

  /** The kind of the objects a section holds. */
  function KindOf(s: Section): ObjectType {
    match s
    case Documents => Document
    case Catalogs => Catalog
    case Enums => Enum
    case ChartsOfCharacteristicTypes => Model.ChartOfCharacteristicTypes
    case AccumulationRegisters => AccumulationRegister
    case InformationRegisters => InformationRegister
  }

  /**
   * The record a section's file parser builds from a decoded file. Documents,
   * catalogs and charts carry attributes and tabular sections; enumerations
   * carry only values; registers carry dimensions, resources and attributes.
   */
  function ObjectOf(s: Section, d: CfgObject): MetadataObject {
    var synonym := ExtractSynonym(d.synonym);
    match s
    case Enums => Bare(Enum, d.name, synonym).(enumValues := EnumValuesOf(d.enumValues))
    case AccumulationRegisters | InformationRegisters =>
      Bare(KindOf(s), d.name, synonym).(
        dimensions := AttributesOf(d.dimensions),
        resources := AttributesOf(d.resources),
        attributes := AttributesOf(d.attributes))
    case _ =>
      Bare(KindOf(s), d.name, synonym).(
        attributes := AttributesOf(d.attributes),
        tabularSections := SectionsOf(d.tabularSections))
  }

  /**
   * `parseDocumentFile`, `parseCatalogFile`, `parseInformationRegisterFile`,
   * `parseAccumulationRegisterFile` and the bodies of the enumeration and
   * chart walks, once the file has been read and decoded.
   */
  method ParseObjectFile(s: Section, d: CfgObject) returns (o: MetadataObject)
    ensures o == ObjectOf(s, d)
  {
    o := Bare(KindOf(s), d.name, ExtractSynonym(d.synonym));
    match s
    case Enums =>
      var values := MapEnumValues(d.enumValues);
      o := o.(enumValues := values);
    case AccumulationRegisters | InformationRegisters =>
      var dims := MapAttributes(d.dimensions);
      o := o.(dimensions := dims);
      var res := MapAttributes(d.resources);
      o := o.(resources := res);
      var attrs := MapAttributes(d.attributes);
      o := o.(attributes := attrs);
    case _ =>
      var attrs := MapAttributes(d.attributes);
      o := o.(attributes := attrs);
      var sections := MapSections(d.tabularSections);
      o := o.(tabularSections := sections);
  }

  /** Every attribute carries the converted types of its own decoded entry and is never required. */
  lemma AttributesFaithful(attrs: seq<CfgAttribute>)
    ensures NoneRequired(AttributesOf(attrs))
    ensures forall i :: 0 <= i < |attrs| ==>
      AttributesOf(attrs)[i].name == attrs[i].name &&
      AttributesOf(attrs)[i].types == TypeConverter.ConvertAll(ExtractedTypes(attrs[i].typ))
  {
  }

  /**
   * A parsed file has its section's kind and name, every list of the
   * section's shape has one entry per decoded entry in the same order, the
   * other lists are empty, and nothing is marked required.
   */
  lemma ObjectShape(s: Section, d: CfgObject)
    ensures var o := ObjectOf(s, d);
      && o.kind == KindOf(s) && o.name == d.name
      && Extracted(o)
      && (s.Enums? ==> |o.enumValues| == |d.enumValues| && o.attributes == o.dimensions == o.resources == [] && o.tabularSections == [])
      && (s.AccumulationRegisters? || s.InformationRegisters? ==>
            o.tabularSections == [] && o.enumValues == []
            && |o.dimensions| == |d.dimensions| && |o.resources| == |d.resources| && |o.attributes| == |d.attributes|)
      && (s.Documents? || s.Catalogs? || s.ChartsOfCharacteristicTypes? ==>
            o.dimensions == o.resources == [] && o.enumValues == []
            && |o.attributes| == |d.attributes| && |o.tabularSections| == |d.tabularSections|
            && forall t :: 0 <= t < |d.tabularSections| ==>
                 |o.tabularSections[t].attributes| == |d.tabularSections[t].attributes|)
  {
    AttributesFaithful(d.attributes);
    AttributesFaithful(d.dimensions);
    AttributesFaithful(d.resources);
    forall t | 0 <= t < |d.tabularSections| {
      AttributesFaithful(d.tabularSections[t].attributes);
    }
  }

  // ---------------------------------------------------------------------------
  // Walking a kind directory

  /**
   * What the walk callback sees: a directory, a file together with the
   * outcome of reading and decoding it, or an error from the walk itself
   * (an unreadable directory, a failed stat).
   */
  datatype WalkEvent =
    | DirVisit(name: string)
    | FileVisit(name: string, contents: Result<CfgObject, string>)
    | WalkFailed(cause: string)

  /** A kind directory: absent (`os.IsNotExist`), or walked. */
  datatype KindDir = Missing | Walked(events: seq<WalkEvent>)

  /** The error `ParseX` returns when the walk aborts. */
  datatype ScanError = ScanError(section: Section, cause: string)

  /** The file-name filter: a name ending in ".xml" in any ASCII case. */
  predicate IsXmlFile(name: string) {
    HasSuffix(ToLower(name), ".xml")
  }

  /** What one event adds: the record of a file that is XML and decoded; nothing otherwise. */
  function Step(s: Section, e: WalkEvent): seq<MetadataObject> {
    if e.FileVisit? && IsXmlFile(e.name) && e.contents.Ok? then [ObjectOf(s, e.contents.value)] else []
  }

  /** The records collected from a run of events, in walk order. */
  function Parsed(s: Section, events: seq<WalkEvent>): seq<MetadataObject>
  {
    if |events| == 0 then []
    else Parsed(s, events[..|events| - 1]) + Step(s, events[|events| - 1])
  }

  /** The cause of the first walk error, if any. */
  function FirstFailure(events: seq<WalkEvent>): Option<string>
  {
    if |events| == 0 then None
    else match FirstFailure(events[..|events| - 1])
      case Some(cause) => Some(cause)
      case None => if events[|events| - 1].WalkFailed? then Some(events[|events| - 1].cause) else None
  }

  /** What `ParseX` returns for its directory. */
  function Walk(s: Section, dir: KindDir): Result<seq<MetadataObject>, ScanError> {
    match dir
    case Missing => Ok([])
    case Walked(events) =>
      match FirstFailure(events)
      case Some(cause) => Err(ScanError(s, cause))
      case None => Ok(Parsed(s, events))
  }

  lemma ParsedStep(s: Section, events: seq<WalkEvent>, i: nat)
    requires i < |events|
    ensures Parsed(s, events[..i + 1]) == Parsed(s, events[..i]) + Step(s, events[i])
    ensures FirstFailure(events[..i + 1]) ==
      if FirstFailure(events[..i]).Some? then FirstFailure(events[..i])
      else if events[i].WalkFailed? then Some(events[i].cause) else None
  {
    assert events[..i + 1][..i] == events[..i];
  }

  /** Once a failure has been seen, later events do not change which one is first. */
  lemma {:induction false} FirstFailureStable(events: seq<WalkEvent>, j: nat)
    requires j <= |events| && FirstFailure(events[..j]).Some?
    ensures FirstFailure(events) == FirstFailure(events[..j])
    decreases |events| - j
  {
    if j < |events| {
      ParsedStep(Documents, events, j);
      FirstFailureStable(events, j + 1);
    } else {
      assert events[..j] == events;
    }
  }

  /**
   * `ParseDocuments`, `ParseCatalogs`, `ParseEnums`,
   * `ParseChartsOfCharacteristicTypes`, `ParseAccumulationRegisters` and
   * `ParseInformationRegisters`: a missing directory is empty, a walk error
   * aborts with no records, and a file that cannot be read or decoded is
   * skipped.
   */
  method ParseSection(s: Section, dir: KindDir) returns (r: Result<seq<MetadataObject>, ScanError>)
    ensures r == Walk(s, dir)
    ensures dir.Missing? ==> r == Ok([])
  {
    match dir
    case Missing =>
      return Ok([]);
    case Walked(events) =>
      var objects := [];
      for i := 0 to |events|
        invariant FirstFailure(events[..i]).None?
        invariant objects == Parsed(s, events[..i])
      {
        ParsedStep(s, events, i);
        match events[i]
        case WalkFailed(cause) =>
          FirstFailureStable(events, i + 1);
          return Err(ScanError(s, cause));
        case DirVisit(_) =>
        case FileVisit(name, contents) =>
          if IsXmlFile(name) {
            match contents
            case Err(_) =>
            case Ok(decoded) =>
              var o := ParseObjectFile(s, decoded);
              objects := objects + [o];
          }
      }
      assert events[..|events|] == events;
      return Ok(objects);
  }

  /** Collecting distributes over concatenation: each event is handled on its own, in order. */
  lemma {:induction false} ParsedAppend(s: Section, a: seq<WalkEvent>, b: seq<WalkEvent>)
    ensures Parsed(s, a + b) == Parsed(s, a) + Parsed(s, b)
    decreases |b|
  {
    if |b| == 0 {
      assert a + b == a;
    } else {
      var n := |b| - 1;
      assert (a + b)[..|a + b| - 1] == a + b[..n];
      assert (a + b)[|a + b| - 1] == b[n];
      ParsedAppend(s, a, b[..n]);
      assert Parsed(s, a + b) == Parsed(s, a + b[..n]) + Step(s, b[n]);
      assert Parsed(s, b) == Parsed(s, b[..n]) + Step(s, b[n]);
      AppendAssoc(Parsed(s, a), Parsed(s, b[..n]), Step(s, b[n]));
    }
  }

  /**
   * Failure isolation: a file that cannot be read or decoded, a directory
   * entry, or a file that is not XML contributes nothing, and the records
   * of the other events are as if it were absent.
   */
  lemma SkippedEvent(s: Section, a: seq<WalkEvent>, e: WalkEvent, b: seq<WalkEvent>)
    requires e.DirVisit? || (e.FileVisit? && (e.contents.Err? || !IsXmlFile(e.name)))
    ensures Parsed(s, a + [e] + b) == Parsed(s, a + b)
  {
    assert [e][..0] == [];
    assert Step(s, e) == [];
    assert Parsed(s, [e]) == [];
    ParsedAppend(s, a, [e]);
    assert Parsed(s, a + [e]) == Parsed(s, a);
    ParsedAppend(s, a + [e], b);
    ParsedAppend(s, a, b);
  }

  /** A walk fails exactly when it reports an error somewhere. */
  lemma {:induction false} FirstFailureExists(events: seq<WalkEvent>)
    ensures FirstFailure(events).Some? <==> exists i :: 0 <= i < |events| && events[i].WalkFailed?
    decreases |events|
  {
    if |events| > 0 {
      var n := |events| - 1;
      FirstFailureExists(events[..n]);
      assert forall i :: 0 <= i < n ==> events[..n][i] == events[i];
    }
  }

  /** Every collected record has the section's kind and nothing marked required; there is at most one per event. */
  lemma {:induction false} ParsedRecords(s: Section, events: seq<WalkEvent>)
    ensures |Parsed(s, events)| <= |events|
    ensures forall i :: 0 <= i < |Parsed(s, events)| ==>
      Parsed(s, events)[i].kind == KindOf(s) && Extracted(Parsed(s, events)[i])
    decreases |events|
  {
    if |events| > 0 {
      var e := events[|events| - 1];
      ParsedRecords(s, events[..|events| - 1]);
      if e.FileVisit? && e.contents.Ok? {
        ObjectShape(s, e.contents.value);
      }
    }
  }

  /** A directory whose only XML file is malformed yields no records and no error. */
  lemma MalformedOnly(s: Section, name: string, cause: string)
    ensures Walk(s, Walked([DirVisit(name), FileVisit(name, Err(cause))])) == Ok([])
  {
    var events := [DirVisit(name), FileVisit(name, Err(cause))];
    ParsedStep(s, events, 0);
    ParsedStep(s, events, 1);
    assert events[..0] == [] && events[..2] == events;
  }

  // ---------------------------------------------------------------------------
  // ParseObjectsByType

  /** The source tree, one directory per section. */
  datatype CfgTree = CfgTree(
    documents: KindDir,
    catalogs: KindDir,
    enums: KindDir,
    charts: KindDir,
    accumulationRegisters: KindDir,
    informationRegisters: KindDir)

  function DirOf(tree: CfgTree, s: Section): KindDir {
    match s
    case Documents => tree.documents
    case Catalogs => tree.catalogs
    case Enums => tree.enums
    case ChartsOfCharacteristicTypes => tree.charts
    case AccumulationRegisters => tree.accumulationRegisters
    case InformationRegisters => tree.informationRegisters
  }

  /** The `switch` of `ParseObjectsByType`: the section a kind is read from; a kind with no case has none. */
  function SectionFor(kind: ObjectType): Option<Section> {
    match kind
    case "Document" => Some(Documents)
    case "Catalog" => Some(Catalogs)
    case "AccumulationRegister" => Some(AccumulationRegisters)
    case "InformationRegister" => Some(InformationRegisters)
    case "Enum" => Some(Enums)
    case "ChartOfCharacteristicTypes" => Some(ChartsOfCharacteristicTypes)
    case _ => None
  }

  /** The switch reads each kind from its own section, and only the six section kinds have a case. */
  lemma SectionForKindOf(s: Section, kind: ObjectType)
    ensures SectionFor(KindOf(s)) == Some(s)
    ensures SectionFor(kind).Some? ==> kind == KindOf(SectionFor(kind).value)
  {
  }

  /** What `ParseObjectsByType` returns: per-kind results concatenated in the requested order, the first error aborting. */
  function ObjectsByType(tree: CfgTree, kinds: seq<ObjectType>): Result<seq<MetadataObject>, ScanError>
  {
    if |kinds| == 0 then Ok([])
    else match SectionFor(kinds[0])
      case None => ObjectsByType(tree, kinds[1..])
      case Some(s) =>
        match Walk(s, DirOf(tree, s))
        case Err(e) => Err(e)
        case Ok(records) => Prepend(records, ObjectsByType(tree, kinds[1..]))
  }

  /** `ParseObjectsByType`: accumulates the records of each requested kind, returning on the first error. */
  method ParseObjectsByType(tree: CfgTree, kinds: seq<ObjectType>) returns (r: Result<seq<MetadataObject>, ScanError>)
    ensures r == ObjectsByType(tree, kinds)
  {
    var all := [];
    assert kinds[0..] == kinds;
    PrependNothing(ObjectsByType(tree, kinds));
    for i := 0 to |kinds|
      invariant ObjectsByType(tree, kinds) == Prepend(all, ObjectsByType(tree, kinds[i..]))
    {
      assert kinds[i..][1..] == kinds[i + 1..];
      match SectionFor(kinds[i])
      case None =>
      case Some(s) =>
        var result := ParseSection(s, DirOf(tree, s));
        match result
        case Err(e) =>
          return Err(e);
        case Ok(records) =>
          PrependTwice(all, records, ObjectsByType(tree, kinds[i + 1..]));
          all := all + records;
    }
    assert kinds[|kinds|..] == [] && all + [] == all;
    return Ok(all);
  }

  /** Requesting `a` then `b` is reading `a`, then `b`, with the first error aborting. */
  lemma {:induction false} ObjectsByTypeAppend(tree: CfgTree, a: seq<ObjectType>, b: seq<ObjectType>)
    ensures ObjectsByType(tree, a + b) == Then(ObjectsByType(tree, a), ObjectsByType(tree, b))
    decreases |a|
  {
    if |a| > 0 {
      assert (a + b)[0] == a[0] && (a + b)[1..] == a[1..] + b;
      ObjectsByTypeAppend(tree, a[1..], b);
      var rest := ObjectsByType(tree, a[1..]);
      if rest.Ok? && SectionFor(a[0]).Some? {
        var w := Walk(SectionFor(a[0]).value, DirOf(tree, SectionFor(a[0]).value));
        if w.Ok? {
          PrependTwice(w.value, rest.value, ObjectsByType(tree, b));
        }
      }
    } else {
      assert a + b == b;
      PrependNothing(ObjectsByType(tree, b));
    }
  }

  /** Every record returned belongs to one of the requested kinds and has nothing marked required. */
  lemma {:induction false} ObjectsByTypeRecords(tree: CfgTree, kinds: seq<ObjectType>)
    ensures ObjectsByType(tree, kinds).Ok? ==>
      forall i :: 0 <= i < |ObjectsByType(tree, kinds).value| ==>
        ObjectsByType(tree, kinds).value[i].kind in kinds && Extracted(ObjectsByType(tree, kinds).value[i])
    decreases |kinds|
  {
    if |kinds| > 0 {
      ObjectsByTypeRecords(tree, kinds[1..]);
      match SectionFor(kinds[0])
      case None =>
      case Some(s) =>
        SectionForKindOf(s, kinds[0]);
        match DirOf(tree, s)
        case Missing =>
        case Walked(events) =>
          ParsedRecords(s, events);
    }
  }

  /** Exactly the six section kinds have a case; constants, for one, have none. */
  lemma NoCaseKinds(kind: ObjectType)
    ensures SectionFor(kind).None? <==>
      kind !in {Document, Catalog, AccumulationRegister, InformationRegister, Enum, ChartOfCharacteristicTypes}
    ensures SectionFor(Constant).None?
  {
  }

  /** A kind with no case is ignored, without an error. */
  lemma UnhandledKindIgnored(tree: CfgTree, kind: ObjectType, rest: seq<ObjectType>)
    requires SectionFor(kind).None?
    ensures ObjectsByType(tree, [kind] + rest) == ObjectsByType(tree, rest)
  {
    assert ([kind] + rest)[1..] == rest;
  }
}
