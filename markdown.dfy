/**
 * The Markdown renderer (pkg/generator/markdown.go): one document per
 * metadata object, named after its kind label and name, whose sections
 * depend on the kind. Writing the file is not part of this model; the
 * document is the string `generateContent` builds.
 */
module Markdown {
  import opened Strings
  import opened Model

  /** `getObjectTypeRussian`: the register labels carry a space; any other kind passes through. */
  function TypeLabel(kind: ObjectType): string {
    match kind
    case "Document" => "Документ"
    case "Catalog" => "Справочник"
    case "AccumulationRegister" => "Регистр накопления"
    case "InformationRegister" => "Регистр сведений"
    case "Enum" => "Перечисление"
    case "ChartOfCharacteristicTypes" => "ПланВидовХарактеристик"
    case _ => kind
  }

  /** The six kinds that have a label of their own. */
  predicate Labelled(kind: ObjectType) {
    kind == Document || kind == Catalog || kind == AccumulationRegister
    || kind == InformationRegister || kind == Enum || kind == ChartOfCharacteristicTypes
  }

  /**
   * The six labelled kinds get six different labels, each different from the
   * kind's own name; every other kind is its own label.
   */
  lemma TypeLabelFacts(kind: ObjectType, other: ObjectType)
    ensures TypeLabel(kind) == kind <==> !Labelled(kind)
    ensures Labelled(kind) && Labelled(other) && TypeLabel(kind) == TypeLabel(other) ==> kind == other
  {
    if Labelled(kind) {
      assert TypeLabel(kind)[0] != kind[0];
    }
    if Labelled(kind) && Labelled(other) && TypeLabel(kind) == TypeLabel(other) {
      LabelKey(kind);
      LabelKey(other);
    }
  }

  /** Two characters and the length of a label tell the six labels apart. */
  lemma LabelKey(kind: ObjectType)
    requires Labelled(kind)
    ensures |TypeLabel(kind)| > 1
    ensures kind == match (TypeLabel(kind)[0], TypeLabel(kind)[1], |TypeLabel(kind)|)
      case ('Д', _, _) => Document
      case ('С', _, _) => Catalog
      case ('Р', _, 18) => AccumulationRegister
      case ('Р', _, _) => InformationRegister
      case (_, 'е', _) => Enum
      case _ => ChartOfCharacteristicTypes
  {
  }

  /** `getFileName`. */
  function FileName(o: MetadataObject): string {
    TypeLabel(o.kind) + "_" + o.name + ".md"
  }

  /** Two objects of the same kind share a file name only when they share a name. */
  lemma FileNameNames(o: MetadataObject, p: MetadataObject)
    requires o.kind == p.kind
    ensures FileName(o) == FileName(p) <==> o.name == p.name
  {
    var prefix := TypeLabel(o.kind) + "_";
    if FileName(o) == FileName(p) {
      assert FileName(o) == prefix + o.name + ".md";
      assert o.name == FileName(o)[|prefix|..|FileName(o)| - 3];
      assert p.name == FileName(p)[|prefix|..|FileName(p)| - 3];
    }
  }

  /** `" (syn)"` after a title, or nothing when the synonym is empty. */
  function Parenthesized(synonym: string): string {
    if synonym == "" then "" else " (" + synonym + ")"
  }

  /** The title line `# label: Name[ (Synonym)]` and the blank line after it. */
  function Header(o: MetadataObject): string {
    "# " + TypeLabel(o.kind) + ": " + o.name + Parenthesized(o.synonym) + "\n\n"
  }

  /** The list item of a field: its name and its types joined by ", ". */
  function FieldItem(a: Attribute): string {
    "- " + a.name + " (" + Join(a.types, ", ") + ")"
  }

  /** One line per field, in order. */
  function FieldLines(fields: seq<Attribute>): string
  {
    if |fields| == 0 then ""
    else FieldLines(fields[..|fields| - 1]) + (FieldItem(fields[|fields| - 1]) + "\n")
  }

  lemma FieldLinesStep(fields: seq<Attribute>, i: int)
    requires 0 <= i < |fields|
    ensures FieldLines(fields[..i + 1]) == FieldLines(fields[..i]) + (FieldItem(fields[i]) + "\n")
  {
    assert fields[..i + 1][..i] == fields[..i];
  }

  /** A heading with its field lines and a closing blank line; nothing at all for no fields. */
  function Block(heading: string, fields: seq<Attribute>): string {
    if |fields| == 0 then "" else heading + FieldLines(fields) + "\n"
  }

  /** The list item of an enumeration value. */
  function ValueItem(v: EnumValue): string {
    "- " + v.name + Parenthesized(v.synonym)
  }

  function ValueLines(values: seq<EnumValue>): string
  {
    if |values| == 0 then ""
    else ValueLines(values[..|values| - 1]) + (ValueItem(values[|values| - 1]) + "\n")
  }

  lemma ValueLinesStep(values: seq<EnumValue>, i: int)
    requires 0 <= i < |values|
    ensures ValueLines(values[..i + 1]) == ValueLines(values[..i]) + (ValueItem(values[i]) + "\n")
  {
    assert values[..i + 1][..i] == values[..i];
  }

  /** The enumeration's values under their heading, or nothing at all for no values. */
  function ValuesBlock(values: seq<EnumValue>): string {
    if |values| == 0 then "" else "## Значения\n\n" + ValueLines(values) + "\n"
  }

  /** A tabular section: `### Name[ (Synonym)]`, a blank line, its field lines, a blank line. */
  function SectionText(ts: TabularSection): string {
    "### " + ts.name + Parenthesized(ts.synonym) + "\n\n" + FieldLines(ts.attributes) + "\n"
  }

  function SectionsText(sections: seq<TabularSection>): string
  {
    if |sections| == 0 then ""
    else SectionsText(sections[..|sections| - 1]) + SectionText(sections[|sections| - 1])
  }

  lemma SectionsTextStep(sections: seq<TabularSection>, i: int)
    requires 0 <= i < |sections|
    ensures SectionsText(sections[..i + 1]) == SectionsText(sections[..i]) + SectionText(sections[i])
  {
    assert sections[..i + 1][..i] == sections[..i];
  }

  /** The heading and the sections, or nothing at all for no sections. */
  function SectionsBlock(sections: seq<TabularSection>): string {
    if |sections| == 0 then "" else "## Табличные части\n\n" + SectionsText(sections)
  }

  predicate IsRegister(kind: ObjectType) {
    kind == AccumulationRegister || kind == InformationRegister
  }

  /** Catalogs list "attributes", every other non-register kind "header attributes". */
  function AttributesHeading(kind: ObjectType): string {
    if kind == Catalog then "## Реквизиты\n\n" else "## Реквизиты шапки\n\n"
  }

  /** What follows the header, by kind. */
  function Body(o: MetadataObject): string {
    if o.kind == Enum then ValuesBlock(o.enumValues)
    else if IsRegister(o.kind) then
      Block("## Измерения\n\n", o.dimensions) + Block("## Ресурсы\n\n", o.resources)
      + Block("## Реквизиты\n\n", o.attributes)
    else Block(AttributesHeading(o.kind), o.attributes) + SectionsBlock(o.tabularSections)
  }

  /** The document `generateContent` returns. */
  function Content(o: MetadataObject): string {
    Header(o) + Body(o)
  }

  /**
   * `generateContent`: the builder is the string `content`, each
   * `WriteString` an append of the text `Sprintf` formats.
   */
  method GenerateContent(o: MetadataObject) returns (content: string)
    ensures content == Content(o)
  {
    var typeRussian := TypeLabel(o.kind);
    content := "# " + typeRussian + ": " + o.name;
    if o.synonym != "" {
      content := content + (" (" + o.synonym + ")");
    }
    content := content + "\n\n";
    assert content == Header(o);

    if o.kind == Enum {
      if |o.enumValues| > 0 {
        content := content + "## Значения\n\n";
        content := WriteValues(content, o.enumValues);
        content := content + "\n";
        AppendAssoc(Header(o), "## Значения\n\n", ValueLines(o.enumValues));
        AppendAssoc(Header(o), "## Значения\n\n" + ValueLines(o.enumValues), "\n");
      }
      return;
    }

    if o.kind == AccumulationRegister || o.kind == InformationRegister {
      var header := content;
      content := WriteBlock(content, "## Измерения\n\n", o.dimensions);
      content := WriteBlock(content, "## Ресурсы\n\n", o.resources);
      AppendAssoc(header, Block("## Измерения\n\n", o.dimensions), Block("## Ресурсы\n\n", o.resources));
      content := WriteBlock(content, "## Реквизиты\n\n", o.attributes);
      AppendAssoc(header, Block("## Измерения\n\n", o.dimensions) + Block("## Ресурсы\n\n", o.resources),
        Block("## Реквизиты\n\n", o.attributes));
      return;
    }

    var header := content;
    if o.kind == Catalog {
      content := WriteBlock(content, "## Реквизиты\n\n", o.attributes);
    } else {
      content := WriteBlock(content, "## Реквизиты шапки\n\n", o.attributes);
    }
    if |o.tabularSections| > 0 {
      var attrs := content;
      content := content + "## Табличные части\n\n";
      content := WriteSections(content, o.tabularSections);
      AppendAssoc(attrs, "## Табличные части\n\n", SectionsText(o.tabularSections));
    }
    AppendAssoc(header, Block(AttributesHeading(o.kind), o.attributes), SectionsBlock(o.tabularSections));
  }

  /** The repeated `if len(list) > 0 { heading; one line per field; blank line }` of `generateContent`. */
  method WriteBlock(content: string, heading: string, fields: seq<Attribute>) returns (c: string)
    ensures c == content + Block(heading, fields)
  {
    c := content;
    if |fields| > 0 {
      c := c + heading;
      c := WriteFields(c, fields);
      c := c + "\n";
      AppendAssoc(content, heading, FieldLines(fields));
      AppendAssoc(content, heading + FieldLines(fields), "\n");
    }
  }

  /** The loop writing one line per field. */
  method WriteFields(content: string, fields: seq<Attribute>) returns (c: string)
    ensures c == content + FieldLines(fields)
  {
    c := content;
    for i := 0 to |fields|
      invariant c == content + FieldLines(fields[..i])
    {
      FieldLinesStep(fields, i);
      var typesStr := Join(fields[i].types, ", ");
      var line := "- " + fields[i].name + " (" + typesStr + ")" + "\n";
      AppendAssoc(content, FieldLines(fields[..i]), line);
      c := c + line;
    }
    assert fields[..|fields|] == fields;
  }

  /** The loop writing one line per enumeration value. */
  method WriteValues(content: string, values: seq<EnumValue>) returns (c: string)
    ensures c == content + ValueLines(values)
  {
    c := content;
    for i := 0 to |values|
      invariant c == content + ValueLines(values[..i])
    {
      ValueLinesStep(values, i);
      var line;
      if values[i].synonym != "" {
        line := "- " + values[i].name + (" (" + values[i].synonym + ")") + "\n";
      } else {
        line := "- " + values[i].name + "" + "\n";
      }
      AppendAssoc(content, ValueLines(values[..i]), line);
      c := c + line;
    }
    assert values[..|values|] == values;
  }

  /** The loop over tabular sections, with the inner loop over each section's attributes. */
  method WriteSections(content: string, sections: seq<TabularSection>) returns (c: string)
    ensures c == content + SectionsText(sections)
  {
    c := content;
    for i := 0 to |sections|
      invariant c == content + SectionsText(sections[..i])
    {
      SectionsTextStep(sections, i);
      var before := c;
      var title := "### " + sections[i].name;
      if sections[i].synonym != "" {
        title := title + (" (" + sections[i].synonym + ")");
      }
      title := title + "\n\n";
      c := c + title;
      c := WriteFields(c, sections[i].attributes);
      c := c + "\n";
      AppendAssoc(before, title, FieldLines(sections[i].attributes));
      AppendAssoc(before, title + FieldLines(sections[i].attributes), "\n");
      AppendAssoc(content, SectionsText(sections[..i]), SectionText(sections[i]));
    }
    assert sections[..|sections|] == sections;
  }

  /** The lists the object's kind renders are all empty. */
  predicate NothingRendered(o: MetadataObject) {
    if o.kind == Enum then |o.enumValues| == 0
    else if IsRegister(o.kind) then |o.dimensions| == 0 && |o.resources| == 0 && |o.attributes| == 0
    else |o.attributes| == 0 && |o.tabularSections| == 0
  }

  /** The document is its header alone exactly when the kind's lists are all empty. */
  lemma OnlyHeader(o: MetadataObject)
    ensures Content(o) == Header(o) <==> NothingRendered(o)
  {
    if Content(o) == Header(o) {
      assert |Body(o)| == 0;
    }
  }

  /** Two objects that agree on everything their kind renders. */
  predicate SameRendered(o: MetadataObject, p: MetadataObject) {
    && o.kind == p.kind && o.name == p.name && o.synonym == p.synonym
    && (if o.kind == Enum then o.enumValues == p.enumValues
        else if IsRegister(o.kind) then
          o.dimensions == p.dimensions && o.resources == p.resources && o.attributes == p.attributes
        else o.attributes == p.attributes && o.tabularSections == p.tabularSections)
  }

  /**
   * Enumerations render only their values; registers never render tabular
   * sections or values; other kinds never render dimensions, resources or
   * values.
   */
  lemma UnrenderedListsIgnored(o: MetadataObject, p: MetadataObject)
    requires SameRendered(o, p)
    ensures Content(o) == Content(p)
  {
  }

  /** The items of the field lines, without their line ends. */
  function FieldItems(fields: seq<Attribute>): (items: seq<string>)
    ensures |items| == |fields|
    ensures forall i :: 0 <= i < |fields| ==> items[i] == FieldItem(fields[i])
  {
    seq(|fields|, i requires 0 <= i < |fields| => FieldItem(fields[i]))
  }

  /** The field lines are the items joined by line ends, with a final line end. */
  lemma {:induction false} FieldLinesJoin(fields: seq<Attribute>)
    ensures FieldLines(fields) == Join(FieldItems(fields) + [""], "\n")
    decreases |fields|
  {
    if |fields| == 0 {
      assert FieldItems(fields) + [""] == [""];
    } else {
      var init := fields[..|fields| - 1];
      var last := FieldItem(fields[|fields| - 1]);
      FieldLinesJoin(init);
      var items := FieldItems(init);
      assert FieldItems(fields) == items + [last];
      assert FieldLines(fields) == FieldLines(init) + (last + "\n");
      if |init| == 0 {
        JoinTwo(last, "", "\n");
        assert FieldItems(fields) + [""] == [last, ""];
      } else {
        var j := Join(items, "\n");
        JoinSnoc(items, "", "\n");
        JoinSnoc(items, last, "\n");
        JoinSnoc(items + [last], "", "\n");
        assert FieldItems(fields) + [""] == (items + [last]) + [""];
        assert FieldLines(init) == j + "\n" + "";
        AppendAssoc(j, "\n", last);
        AppendAssoc(j + "\n", last, "\n");
        assert j + "\n" + "" == j + "\n";
        assert last + "\n" + "" == last + "\n";
        AppendAssoc(j + "\n" + last, "\n", "");
      }
    }
  }

  /** No name or type of the fields holds a line end. */
  predicate SingleLineFields(fields: seq<Attribute>) {
    forall i :: 0 <= i < |fields| ==>
      '\n' !in fields[i].name && forall j :: 0 <= j < |fields[i].types| ==> '\n' !in fields[i].types[j]
  }

  /**
   * Read back line by line, the field lines give each field's item once, in
   * field order, and nothing else (the empty string after the last line end).
   */
  lemma FieldLinesSplit(fields: seq<Attribute>)
    requires SingleLineFields(fields)
    ensures Split(FieldLines(fields), '\n') == FieldItems(fields) + [""]
  {
    FieldLinesJoin(fields);
    var items := FieldItems(fields) + [""];
    forall i | 0 <= i < |items|
      ensures '\n' !in items[i]
    {
      if i < |fields| {
        JoinAvoids(fields[i].types, ", ", '\n');
      }
    }
    SplitJoin(items, '\n');
  }

  /*
   * Examples from the generator's tests, each against the test's expected
   * text.
   */

  /**
   * The labels of the two register kinds carry a space, where the tests
   * expect none; an unknown kind is its own label.
   */
  lemma LabelExamples(acc: ObjectType, info: ObjectType, unknown: ObjectType)
    requires acc == AccumulationRegister && info == InformationRegister && unknown == "UnknownType"
    ensures TypeLabel(acc) == "Регистр накопления" != "РегистрНакопления"
    ensures TypeLabel(info) == "Регистр сведений" != "РегистрСведений"
    ensures TypeLabel(unknown) == "UnknownType"
  {
  }

  /** A document without attributes or tabular sections renders only its header. */
  lemma EmptyDocumentExample(d: MetadataObject)
    requires d == Bare(Document, "EmptyDoc", "")
    ensures Content(d) == "# Документ: EmptyDoc\n\n"
  {
    assert Body(d) == "";
  }

  /** The line of a dimension with one type. */
  lemma FieldLineExample(dim: Attribute)
    requires dim == Attribute("Dim1", "", ["String"], false)
    ensures FieldLines([dim]) == "- Dim1 (String)\n"
  {
    assert [dim][..0] == [];
    assert Join(dim.types, ", ") == "String";
  }

  /** An enumeration value without a synonym is a bare item. */
  lemma ValueLineExample(v: EnumValue)
    requires v == EnumValue("Value1", "")
    ensures ValueLines([v]) == "- Value1\n"
  {
    assert [v][..0] == [];
  }

  /** The file name of a document, as in the generator's test. */
  lemma FileNameExample(o: MetadataObject)
    requires o == Bare(Document, "MyTestDocument", "")
    ensures FileName(o) == "Документ_MyTestDocument.md"
  {
  }
}
