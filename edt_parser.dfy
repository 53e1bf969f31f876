/**
 * Extraction from the directory-per-object ("EDT") dialect
 * (pkg/parser/edt_parser.go).
 *
 * A kind directory under `src` is missing, unreadable, or a listing of its
 * entries; a subdirectory entry records whether `<name>/<name>.mdo` exists
 * and, if so, the outcome of reading and decoding it.
 */
module EdtParser {
  import opened Wrappers
  import opened Model
  import TypeConverter
  import Strings

  // ---------------------------------------------------------------------------
  // Decoded XML

  /** The `<synonym>` element: a language key and its text. */
  datatype EdtSynonym = EdtSynonym(key: string, value: string)

  datatype EdtAttribute = EdtAttribute(name: string, synonym: EdtSynonym, types: seq<string>)

  datatype EdtTabularSection = EdtTabularSection(name: string, synonym: EdtSynonym, attributes: seq<EdtAttribute>)

  /** A decoded document or catalog file. */
  datatype EdtObject = EdtObject(
    name: string,
    synonym: EdtSynonym,
    attributes: seq<EdtAttribute>,
    tabularSections: seq<EdtTabularSection>)

  // ---------------------------------------------------------------------------
  // From decoded structs to records

  /** An attribute: the synonym's text as it is, and the type entries converted with no other processing. */
  function AttributeOf(a: EdtAttribute): Attribute {
    Attribute(a.name, a.synonym.value, TypeConverter.ConvertAll(a.types), false)
  }

  function AttributesOf(attrs: seq<EdtAttribute>): (r: seq<Attribute>)
    ensures |r| == |attrs|
    ensures forall i :: 0 <= i < |attrs| ==> r[i] == AttributeOf(attrs[i])
  {
    seq(|attrs|, i requires 0 <= i < |attrs| => AttributeOf(attrs[i]))
  }

  function SectionOf(ts: EdtTabularSection): TabularSection {
    TabularSection(ts.name, ts.synonym.value, AttributesOf(ts.attributes))
  }

  function SectionsOf(sections: seq<EdtTabularSection>): (r: seq<TabularSection>)
    ensures |r| == |sections|
    ensures forall i :: 0 <= i < |sections| ==> r[i] == SectionOf(sections[i])
  {
    seq(|sections|, i requires 0 <= i < |sections| => SectionOf(sections[i]))
  }

  /** The directories the parser lists. */
  datatype Section = Documents | Catalogs

  function KindOf(s: Section): ObjectType {
    match s
    case Documents => Document
    case Catalogs => Catalog
  }

  /** The record `parseDocumentFile` or `parseCatalogFile` builds from a decoded file. */
  function ObjectOf(s: Section, d: EdtObject): MetadataObject {
    Bare(KindOf(s), d.name, d.synonym.value).(
      attributes := AttributesOf(d.attributes),
      tabularSections := SectionsOf(d.tabularSections))
  }

  /** The attribute loop of the file parsers. */
  method MapAttributes(attrs: seq<EdtAttribute>) returns (r: seq<Attribute>)
    ensures r == AttributesOf(attrs)
  {
    r := [];
    for i := 0 to |attrs|
      invariant |r| == i
      invariant forall k :: 0 <= k < i ==> r[k] == AttributeOf(attrs[k])
    {
      var converted := TypeConverter.ConvertTypes(attrs[i].types);
      r := r + [Attribute(attrs[i].name, attrs[i].synonym.value, converted, false)];
    }
  }

  /** `parseDocumentFile` and `parseCatalogFile`, once the file has been read and decoded. */
  method ParseObjectFile(s: Section, d: EdtObject) returns (o: MetadataObject)
    ensures o == ObjectOf(s, d)
  {
    o := Bare(KindOf(s), d.name, d.synonym.value);
    var attrs := MapAttributes(d.attributes);
    o := o.(attributes := attrs);
    var sections: seq<TabularSection> := [];
    for i := 0 to |d.tabularSections|
      invariant |sections| == i
      invariant forall k :: 0 <= k < i ==> sections[k] == SectionOf(d.tabularSections[k])
    {
      var ts := d.tabularSections[i];
      var tsAttrs := MapAttributes(ts.attributes);
      sections := sections + [TabularSection(ts.name, ts.synonym.value, tsAttrs)];
    }
    o := o.(tabularSections := sections);
  }

  /**
   * Synonyms are taken verbatim from the synonym's text whatever its
   * language key, types are converted without prefix stripping or date
   * collapsing, lists keep their count and order, and nothing is required.
   */
  lemma ObjectShape(s: Section, d: EdtObject)
    ensures var o := ObjectOf(s, d);
      && o.kind == KindOf(s) && o.name == d.name && o.synonym == d.synonym.value
      && Extracted(o)
      && o.dimensions == o.resources == [] && o.enumValues == []
      && |o.attributes| == |d.attributes| && |o.tabularSections| == |d.tabularSections|
      && (forall i :: 0 <= i < |d.attributes| ==>
            o.attributes[i].synonym == d.attributes[i].synonym.value
            && o.attributes[i].types == TypeConverter.ConvertAll(d.attributes[i].types))
      && (forall t :: 0 <= t < |d.tabularSections| ==>
            o.tabularSections[t].synonym == d.tabularSections[t].synonym.value
            && |o.tabularSections[t].attributes| == |d.tabularSections[t].attributes|)
  {
  }

  // ---------------------------------------------------------------------------
  // Listing a kind directory

  /** Whether `<dir>/<name>/<name>.mdo` exists, and what reading and decoding it gives. */
  datatype MdoFile = NoMdo | Mdo(contents: Result<EdtObject, string>)

  /** An entry of the listing: a plain file, or a subdirectory. */
  datatype Entry = FileEntry(name: string) | DirEntry(name: string, mdo: MdoFile)

  /** A kind directory: absent (`os.IsNotExist`), present but unreadable, or listed. */
  datatype KindDir = Missing | Unreadable(cause: string) | Listing(entries: seq<Entry>)

  /** The error `ParseDocuments` or `ParseCatalogs` returns when the listing fails. */
  datatype ReadError = ReadError(section: Section, cause: string)

  /** What one entry adds: the record of a subdirectory whose `.mdo` file exists and decodes. */
  function Step(s: Section, e: Entry): seq<MetadataObject> {
    if e.DirEntry? && e.mdo.Mdo? && e.mdo.contents.Ok? then [ObjectOf(s, e.mdo.contents.value)] else []
  }

  /** The records collected from a listing, in listing order. */
  function Collected(s: Section, entries: seq<Entry>): seq<MetadataObject>
  {
    if |entries| == 0 then []
    else Collected(s, entries[..|entries| - 1]) + Step(s, entries[|entries| - 1])
  }

  /** What `ParseDocuments` or `ParseCatalogs` returns for its directory. */
  function Read(s: Section, dir: KindDir): Result<seq<MetadataObject>, ReadError> {
    match dir
    case Missing => Ok([])
    case Unreadable(cause) => Err(ReadError(s, cause))
    case Listing(entries) => Ok(Collected(s, entries))
  }

  lemma CollectedStep(s: Section, entries: seq<Entry>, i: nat)
    requires i < |entries|
    ensures Collected(s, entries[..i + 1]) == Collected(s, entries[..i]) + Step(s, entries[i])
  {
    assert entries[..i + 1][..i] == entries[..i];
  }

  /** `ParseDocuments` and `ParseCatalogs`: skip what is not an object directory, skip what fails to decode. */
  method ParseSection(s: Section, dir: KindDir) returns (r: Result<seq<MetadataObject>, ReadError>)
    ensures r == Read(s, dir)
    ensures dir.Missing? ==> r == Ok([])
    ensures r.Err? <==> dir.Unreadable?
  {
    match dir
    case Missing =>
      return Ok([]);
    case Unreadable(cause) =>
      return Err(ReadError(s, cause));
    case Listing(entries) =>
      var objects := [];
      for i := 0 to |entries|
        invariant objects == Collected(s, entries[..i])
      {
        CollectedStep(s, entries, i);
        match entries[i]
        case FileEntry(_) =>
        case DirEntry(_, mdo) =>
          match mdo
          case NoMdo =>
          case Mdo(contents) =>
            match contents
            case Err(_) =>
            case Ok(decoded) =>
              var o := ParseObjectFile(s, decoded);
              objects := objects + [o];
      }
      assert entries[..|entries|] == entries;
      return Ok(objects);
  }

  /** Collecting distributes over concatenation: each entry is handled on its own, in order. */
  lemma {:induction false} CollectedAppend(s: Section, a: seq<Entry>, b: seq<Entry>)
    ensures Collected(s, a + b) == Collected(s, a) + Collected(s, b)
    decreases |b|
  {
    if |b| == 0 {
      assert a + b == a;
    } else {
      var n := |b| - 1;
      assert (a + b)[..|a + b| - 1] == a + b[..n];
      assert (a + b)[|a + b| - 1] == b[n];
      CollectedAppend(s, a, b[..n]);
      assert Collected(s, a + b) == Collected(s, a + b[..n]) + Step(s, b[n]);
      assert Collected(s, b) == Collected(s, b[..n]) + Step(s, b[n]);
      Strings.AppendAssoc(Collected(s, a), Collected(s, b[..n]), Step(s, b[n]));
    }
  }

  /**
   * A plain file, a subdirectory without its `.mdo` file, or one whose file
   * fails to read or decode contributes nothing, and the other entries'
   * records are as if it were absent.
   */
  lemma SkippedEntry(s: Section, a: seq<Entry>, e: Entry, b: seq<Entry>)
    requires e.FileEntry? || e.mdo.NoMdo? || e.mdo.contents.Err?
    ensures Collected(s, a + [e] + b) == Collected(s, a + b)
  {
    assert [e][..0] == [];
    assert Step(s, e) == [];
    assert Collected(s, [e]) == [];
    CollectedAppend(s, a, [e]);
    assert Collected(s, a + [e]) == Collected(s, a);
    CollectedAppend(s, a + [e], b);
    CollectedAppend(s, a, b);
  }

  /** Every collected record has the section's kind and nothing required; there is at most one per entry. */
  lemma {:induction false} CollectedRecords(s: Section, entries: seq<Entry>)
    ensures |Collected(s, entries)| <= |entries|
    ensures forall i :: 0 <= i < |Collected(s, entries)| ==>
      Collected(s, entries)[i].kind == KindOf(s) && Extracted(Collected(s, entries)[i])
    decreases |entries|
  {
    if |entries| > 0 {
      var e := entries[|entries| - 1];
      CollectedRecords(s, entries[..|entries| - 1]);
      if e.DirEntry? && e.mdo.Mdo? && e.mdo.contents.Ok? {
        ObjectShape(s, e.mdo.contents.value);
      }
    }
  }

  // ---------------------------------------------------------------------------
  // The stubs and ParseObjectsByType

  /** `ParseEnums`: a stub with no records and no error. */
  method ParseEnums() returns (r: Result<seq<MetadataObject>, ReadError>)
    ensures r == Ok([])
  {
    return Ok([]);
  }

  /** `ParseChartsOfCharacteristicTypes`: a stub with no records and no error. */
  method ParseChartsOfCharacteristicTypes() returns (r: Result<seq<MetadataObject>, ReadError>)
    ensures r == Ok([])
  {
    return Ok([]);
  }

  /** `src/Documents` and `src/Catalogs`. */
  datatype EdtTree = EdtTree(documents: KindDir, catalogs: KindDir)

  function DirOf(tree: EdtTree, s: Section): KindDir {
    match s
    case Documents => tree.documents
    case Catalogs => tree.catalogs
  }

  /** The cases of the `switch` in `ParseObjectsByType`. */
  datatype Case = ReadSection(section: Section) | Stub

  function CaseFor(kind: ObjectType): Option<Case> {
    match kind
    case "Document" => Some(ReadSection(Documents))
    case "Catalog" => Some(ReadSection(Catalogs))
    case "Enum" => Some(Stub)
    case "ChartOfCharacteristicTypes" => Some(Stub)
    case _ => None
  }

  /** What one case yields. */
  function CaseResult(tree: EdtTree, c: Case): Result<seq<MetadataObject>, ReadError> {
    match c
    case ReadSection(s) => Read(s, DirOf(tree, s))
    case Stub => Ok([])
  }

  /** What `ParseObjectsByType` returns: per-kind results concatenated in the requested order, the first error aborting. */
  function ObjectsByType(tree: EdtTree, kinds: seq<ObjectType>): Result<seq<MetadataObject>, ReadError>
  {
    if |kinds| == 0 then Ok([])
    else match CaseFor(kinds[0])
      case None => ObjectsByType(tree, kinds[1..])
      case Some(c) => Then(CaseResult(tree, c), ObjectsByType(tree, kinds[1..]))
  }

  /** `ParseObjectsByType`. */
  method ParseObjectsByType(tree: EdtTree, kinds: seq<ObjectType>) returns (r: Result<seq<MetadataObject>, ReadError>)
    ensures r == ObjectsByType(tree, kinds)
  {
    var all := [];
    assert kinds[0..] == kinds;
    PrependNothing(ObjectsByType(tree, kinds));
    for i := 0 to |kinds|
      invariant ObjectsByType(tree, kinds) == Prepend(all, ObjectsByType(tree, kinds[i..]))
    {
      assert kinds[i..][0] == kinds[i] && kinds[i..][1..] == kinds[i + 1..];
      var c := CaseFor(kinds[i]);
      if c.None? {
        continue;
      }
      var result;
      if c.value.ReadSection? {
        result := ParseSection(c.value.section, DirOf(tree, c.value.section));
      } else if kinds[i] == Enum {
        result := ParseEnums();
      } else {
        result := ParseChartsOfCharacteristicTypes();
      }
      match result
      case Err(e) =>
        return Err(e);
      case Ok(records) =>
        PrependTwice(all, records, ObjectsByType(tree, kinds[i + 1..]));
        all := all + records;
    }
    assert kinds[|kinds|..] == [] && all + [] == all;
    return Ok(all);
  }

  /** Requesting `a` then `b` is reading `a`, then `b`, with the first error aborting. */
  lemma {:induction false} ObjectsByTypeAppend(tree: EdtTree, a: seq<ObjectType>, b: seq<ObjectType>)
    ensures ObjectsByType(tree, a + b) == Then(ObjectsByType(tree, a), ObjectsByType(tree, b))
    decreases |a|
  {
    if |a| > 0 {
      assert (a + b)[0] == a[0] && (a + b)[1..] == a[1..] + b;
      ObjectsByTypeAppend(tree, a[1..], b);
      var rest := ObjectsByType(tree, a[1..]);
      if rest.Ok? && CaseFor(a[0]).Some? {
        var w := CaseResult(tree, CaseFor(a[0]).value);
        if w.Ok? {
          PrependTwice(w.value, rest.value, ObjectsByType(tree, b));
        }
      }
    } else {
      assert a + b == b;
      PrependNothing(ObjectsByType(tree, b));
    }
  }

  /** Only documents and catalogs are ever read: every record returned is one of them and of a requested kind. */
  lemma {:induction false} ObjectsByTypeRecords(tree: EdtTree, kinds: seq<ObjectType>)
    ensures ObjectsByType(tree, kinds).Ok? ==>
      forall i :: 0 <= i < |ObjectsByType(tree, kinds).value| ==>
        var o := ObjectsByType(tree, kinds).value[i];
        o.kind in kinds && (o.kind == Document || o.kind == Catalog) && Extracted(o)
    decreases |kinds|
  {
    if |kinds| > 0 {
      ObjectsByTypeRecords(tree, kinds[1..]);
      match CaseFor(kinds[0])
      case None =>
      case Some(Stub) =>
      case Some(ReadSection(s)) =>
        assert kinds[0] == KindOf(s);
        match DirOf(tree, s)
        case Missing =>
        case Unreadable(_) =>
        case Listing(entries) =>
          CollectedRecords(s, entries);
    }
  }

  /** Only documents, catalogs, enumerations and charts of characteristic types have a case; registers and constants have none. */
  lemma NoCaseKinds(kind: ObjectType)
    ensures CaseFor(kind).None? <==> kind !in {Document, Catalog, Enum, ChartOfCharacteristicTypes}
    ensures CaseFor(AccumulationRegister).None? && CaseFor(InformationRegister).None? && CaseFor(Constant).None?
  {
  }

  /** A kind with no case in this dialect is ignored, without an error. */
  lemma UnhandledKindIgnored(tree: EdtTree, kind: ObjectType, rest: seq<ObjectType>)
    requires CaseFor(kind).None?
    ensures ObjectsByType(tree, [kind] + rest) == ObjectsByType(tree, rest)
  {
    assert ([kind] + rest)[1..] == rest;
  }
}
