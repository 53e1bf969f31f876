/**
 * The unified record model of 1C configuration metadata (pkg/model/metadata.go).
 * `ObjectType` and `SourceFormat` are Go string types, so they are strings here
 * too: a kind nobody declared is still a value and renderers pass it through.
 */
module Model {

  /** The kind of a metadata object. */
  type ObjectType = string

  const Document: ObjectType := "Document"
  const Catalog: ObjectType := "Catalog"
  const Enum: ObjectType := "Enum"
  const ChartOfCharacteristicTypes: ObjectType := "ChartOfCharacteristicTypes"
  const AccumulationRegister: ObjectType := "AccumulationRegister"
  // The two kinds below are used by the parsers and renderers but are not
  // declared in metadata.go as shipped; their spelling follows the others.
  const InformationRegister: ObjectType := "InformationRegister"
  const Constant: ObjectType := "Constant"

  /** The dialect of a source tree. */
  type SourceFormat = string

  const FormatCfg: SourceFormat := "cfg"
  const FormatEdt: SourceFormat := "edt"

  /** A field of an object, a tabular section, or a register dimension/resource. */
  datatype Attribute = Attribute(name: string, synonym: string, types: seq<string>, required: bool)

  /** A repeating child structure; its attributes are flat (sections do not nest). */
  datatype TabularSection = TabularSection(name: string, synonym: string, attributes: seq<Attribute>)

  /** One value of an enumeration. */
  datatype EnumValue = EnumValue(name: string, synonym: string)

  /** The record for any configuration entity. */
  datatype MetadataObject = MetadataObject(
    kind: ObjectType,
    name: string,
    synonym: string,
    attributes: seq<Attribute>,
    tabularSections: seq<TabularSection>,
    dimensions: seq<Attribute>,
    resources: seq<Attribute>,
    enumValues: seq<EnumValue>)

  /** A row of the object catalogue. */
  datatype CatalogEntry = CatalogEntry(objectName: string, objectType: string, synonym: string, fileName: string)

  /** An object with only its kind, name and synonym set: Go's struct literal before the lists are appended. */
  function Bare(kind: ObjectType, name: string, synonym: string): MetadataObject
  {
    MetadataObject(kind, name, synonym, [], [], [], [], [])
  }

  /** The seven kinds the code base declares or uses, in declaration order. */
  const Kinds: seq<ObjectType> := [Document, Catalog, Enum, ChartOfCharacteristicTypes,
                                   AccumulationRegister, InformationRegister, Constant]

  /** The kind constants are pairwise distinct strings, and so are the format constants. */
  lemma KindsDistinct()
    ensures forall i, j :: 0 <= i < j < |Kinds| ==> Kinds[i] != Kinds[j]
    ensures FormatCfg != FormatEdt && FormatCfg != "" && FormatEdt != ""
  {
  }

  /** No attribute of `attrs` is marked required. */
  predicate NoneRequired(attrs: seq<Attribute>) {
    forall i :: 0 <= i < |attrs| ==> !attrs[i].required
  }

  /**
   * What every extractor produces: `Required` is never set, in any list.
   */
  predicate Extracted(o: MetadataObject) {
    && NoneRequired(o.attributes)
    && NoneRequired(o.dimensions)
    && NoneRequired(o.resources)
    && forall t :: 0 <= t < |o.tabularSections| ==> NoneRequired(o.tabularSections[t].attributes)
  }
}
