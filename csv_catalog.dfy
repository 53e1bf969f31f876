/**
 * The object catalogue (pkg/generator/csv.go): a header and one record per
 * object, each field a whole string. Creating the file and the quoting
 * `encoding/csv` applies to the fields are not part of this model; the
 * catalogue is the sequence of rows handed to the writer.
 */
module CsvCatalog {
  import opened Strings
  import opened Model
  import Markdown

  /** This generator's own `getObjectTypeRussian`: the register labels have no space. */
  function TypeLabel(kind: ObjectType): string {
    match kind
    case "Document" => "Документ"
    case "Catalog" => "Справочник"
    case "AccumulationRegister" => "РегистрНакопления"
    case "InformationRegister" => "РегистрСведений"
    case "Enum" => "Перечисление"
    case "ChartOfCharacteristicTypes" => "ПланВидовХарактеристик"
    case _ => kind
  }

  /** `createCatalogEntry`. */
  function EntryOf(o: MetadataObject): CatalogEntry {
    var typeRussian := TypeLabel(o.kind);
    CatalogEntry(typeRussian + "." + o.name, typeRussian, o.synonym, typeRussian + "_" + o.name + ".md")
  }

  /** The fixed header row. */
  const Header: seq<string> := ["Имя объекта", "Тип объекта", "Синоним", "Файл"]

  /** The record written for an entry, in header order. */
  function Record(e: CatalogEntry): seq<string> {
    [e.objectName, e.objectType, e.synonym, e.fileName]
  }

  /**
   * The rows `GenerateCatalog` hands to the writer: the header, then one
   * four-field record per object in input order, whose fields hold the
   * object's name and synonym verbatim, separators included.
   */
  method GenerateCatalog(objects: seq<MetadataObject>) returns (rows: seq<seq<string>>)
    ensures |rows| == |objects| + 1
    ensures rows[0] == Header
    ensures forall i :: 0 <= i < |objects| ==> rows[i + 1] == Record(EntryOf(objects[i]))
    ensures forall i :: 0 <= i < |rows| ==> |rows[i]| == 4
    ensures forall i :: 0 <= i < |objects| ==>
      rows[i + 1][0] == TypeLabel(objects[i].kind) + "." + objects[i].name
      && rows[i + 1][2] == objects[i].synonym
  {
    rows := [Header];
    for i := 0 to |objects|
      invariant |rows| == i + 1
      invariant rows[0] == Header
      invariant forall j :: 0 <= j < i ==> rows[j + 1] == Record(EntryOf(objects[j]))
      invariant forall j :: 0 <= j < |rows| ==> |rows[j]| == 4
    {
      var entry := EntryOf(objects[i]);
      var record := [entry.objectName, entry.objectType, entry.synonym, entry.fileName];
      rows := rows + [record];
    }
  }

  /** The two generators label every kind alike except the two registers. */
  lemma LabelsAgree(kind: ObjectType)
    ensures TypeLabel(kind) == Markdown.TypeLabel(kind) <==> !Markdown.IsRegister(kind)
  {
    if kind == AccumulationRegister {
      assert TypeLabel(kind)[7] != Markdown.TypeLabel(kind)[7];
    } else if kind == InformationRegister {
      assert TypeLabel(kind)[7] != Markdown.TypeLabel(kind)[7];
    }
  }

  /**
   * The catalogue names the Markdown file of the object for every kind but
   * the two registers, whose catalogue file name lacks the space the
   * Markdown file name has.
   */
  lemma FileNamesAgree(o: MetadataObject)
    ensures EntryOf(o).fileName == Markdown.FileName(o) <==> !Markdown.IsRegister(o.kind)
  {
    LabelsAgree(o.kind);
    var csvLabel, mdLabel := TypeLabel(o.kind), Markdown.TypeLabel(o.kind);
    var rest := "_" + o.name + ".md";
    assert EntryOf(o).fileName == csvLabel + rest;
    assert Markdown.FileName(o) == mdLabel + rest;
    if Markdown.IsRegister(o.kind) {
      assert (csvLabel + rest)[7] == csvLabel[7];
      assert (mdLabel + rest)[7] == mdLabel[7];
    }
  }

  /**
   * An entry determines the name and synonym of its object among objects of
   * one kind: the object name is the label, a dot and the name.
   */
  lemma EntryDeterminesObject(o: MetadataObject, p: MetadataObject)
    requires o.kind == p.kind
    ensures EntryOf(o) == EntryOf(p) <==> o.name == p.name && o.synonym == p.synonym
  {
    var prefix := TypeLabel(o.kind) + ".";
    if EntryOf(o) == EntryOf(p) {
      assert o.name == EntryOf(o).objectName[|prefix|..];
      assert p.name == EntryOf(p).objectName[|prefix|..];
    }
  }

  /** The entry of a catalog, as in the generator's test. */
  lemma EntryExample(o: MetadataObject, name: string)
    requires name == "Контрагенты"
    requires o == Bare(Catalog, name, name)
    ensures EntryOf(o).objectType == "Справочник"
    ensures EntryOf(o).objectName == "Справочник." + name
    ensures EntryOf(o).fileName == "Справочник_" + name + ".md"
  {
  }
}
