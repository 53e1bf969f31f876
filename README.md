# onec-cfg2md core, modelled in Dafny

onec-cfg2md reads the metadata of a 1C:Enterprise configuration and writes it out for people and tools. The metadata can be a flat XML export (the "CFG" dialect) or an EDT project tree (the "EDT" dialect). The program emits one Markdown file per object (document, catalog, register, enumeration, chart of characteristic types) and a semicolon-separated catalogue of all objects.

This project models the core of that pipeline and proves properties of the model:

- **Detecting and validating the source format, and the parser factory** (`Detector`, `ParserFactory`). The filesystem is a value: the root's stat result and the set of names present under it.
- **The `--types` option** (`ObjectTypes`). It turns a comma-separated list of plural names into object kinds.
- **Type-name conversion** (`TypeConverter`). It rewrites `CatalogRef.X`, `xs:string` and similar names into Russian labels. The regular-expression table is modelled as an explicit pattern table.
- **The two extractors** (`CfgParser`, `EdtParser`). They map decoded XML into the unified record model (`Model`).
  - Each kind directory is an input value. For CFG it is the event sequence of a directory walk; for EDT it is a directory listing.
  - Each file carries the outcome of reading and decoding it.
  - Each extractor also has its per-kind dispatch, `ParseObjectsByType`.
- **Filter-content normalisation** (`FilterContent`). It relabels keyword segments of dotted paths.
- **The two renderers**:
  - `Markdown` builds the text of an object's Markdown file and its file name.
  - `CsvCatalog` builds the rows of the object catalogue.
- **The text normaliser used to compare generated documents** (`TextNormalize`). It strips a BOM, unifies line ends, trims trailing blanks, collapses runs of empty lines and drops leading and trailing empty lines.

Shared pieces:

- `Wrappers` holds `Option`, `Result` and the accumulate-or-abort helpers.
- `Strings` holds the ASCII versions of the Go `strings` functions the core uses.

Every loop of the Go code that builds a list or a text is a Dafny `method` with a `while`/`for` loop. Each such method is proved equal to a specification function. The properties are then proved about those functions.

Three loops are early-return searches, and they are modelled as recursive functions rather than methods:

- the `ru` search of `extractSynonym` is `CfgParser.ExtractSynonym`;
- the qualifier search of `isDateOnly` is `CfgParser.AnyDateOnly`;
- the pattern loop of `ConvertType` is `TypeConverter.FirstMatch`.

## Model

| member | source | states |
|---|---|---|
| Strings.TrimSpace | pkg/parser/type_converter.go:19 | the trimmed text neither starts nor ends with white space |
| Strings.TrimSpaceBlank | pkg/parser/type_converter.go:19-24 | trimming yields the empty string exactly when the text is all white space |
| Strings.TrimSpaceIdempotent | pkg/parser/type_converter.go:19 | trimming twice is trimming once |
| Strings.TrimLeftFacts | pkg/parser/type_converter.go:19 | left trimming removes an all-blank prefix and nothing else, and leaves no leading blank |
| Strings.TrimRightFacts | pkg/parser/type_converter.go:19 | right trimming removes an all-blank suffix and nothing else, and leaves no trailing blank |
| Strings.TrimPrefix | pkg/testutil/normalize.go:13 | with the prefix present, the input is the prefix followed by the result; otherwise the input is returned unchanged |
| Strings.ToLower | pkg/parser/cfg_parser.go:138 | lower-casing keeps the length and maps each character on its own |
| Strings.SplitFacts | pkg/parser/normalize.go:10 | no piece holds the separator, and joining the pieces with it gives back the input |
| Strings.SplitJoin | pkg/parser/normalize.go:10-27 | splitting the join of separator-free pieces gives back exactly those pieces |
| Strings.JoinSnoc | pkg/testutil/normalize.go:42 | joining one more piece appends the separator and the piece |
| Model.KindsDistinct | pkg/model/metadata.go:19-25 | the object-kind constants are pairwise different, and the two format names are different and non-empty |
| TypeConverter.TableWellFormed | pkg/parser/type_converter.go:27-52 | every one of the 22 patterns starts with an ASCII character and holds no dot of its own; every replacement starts with a Cyrillic letter, and an exact pattern's replacement does not end in a blank |
| TypeConverter.IndexOf | pkg/parser/type_converter.go:28 | the index found is the first dot; there is none exactly when the text has no dot |
| TypeConverter.RefMatchIsFirstDot | pkg/parser/type_converter.go:28-32 | the text a `Kind.(.+)` pattern matches has its first dot right after the kind |
| TypeConverter.Lookup | pkg/parser/type_converter.go:55-60 | the rewrite of the one table key that matches, or nothing when no key matches; its contract is stated by `LookupIsTheMatch`, `RulesDisjoint` and `AnyOrderSameResult` |
| TypeConverter.LookupIsTheMatch | pkg/parser/type_converter.go:55-60 | when a table pattern matches, the lookup yields its rewrite; the lookup finds something only when some pattern matches |
| TypeConverter.FirstMatchSound | pkg/parser/type_converter.go:55-60 | scanning the patterns in any order finds nothing exactly when no pattern matches, and otherwise yields the rewrite of a matching pattern |
| TypeConverter.RulesDisjoint | pkg/parser/type_converter.go:27-52 | the anchored patterns are pairwise disjoint: two table keys that match the same input are the same key |
| TypeConverter.AnyOrderSameResult | pkg/parser/type_converter.go:55-60 | every iteration order of the pattern map gives the same conversion, the one `Lookup` computes |
| TypeConverter.ConvertType | pkg/parser/type_converter.go:17-64 | "" for blank input, otherwise the matching rewrite of the trimmed input or the trimmed input itself, and idempotent; its contract is stated by `ConvertTypeEmpty`, `ConvertTypeMatched`, `ConvertTypeUnmatched` and `ConvertTypeIdempotent` |
| TypeConverter.ConvertTypeEmpty | pkg/parser/type_converter.go:19-24 | the conversion is empty exactly when the input is all white space |
| TypeConverter.ConvertTypeMatched | pkg/parser/type_converter.go:55-59 | a trimmed input that a pattern matches becomes that pattern's replacement |
| TypeConverter.ConvertTypeUnmatched | pkg/parser/type_converter.go:62-63 | a trimmed input that no pattern matches is returned as it is |
| TypeConverter.ReferenceRewrite | pkg/parser/type_converter.go:28-32 | `Kind.Suffix` becomes the Russian label, a dot and the suffix unchanged |
| TypeConverter.BareKindPassesThrough | pkg/parser/type_converter.go:28-32 | a reference kind followed by a dot and nothing else matches no pattern (`.+` needs a character) and passes through |
| TypeConverter.SchemaSpellingsShareLabels | pkg/parser/type_converter.go:33-46 | XML Schema spellings get the label of the platform spelling; `xs:dateTime` alone gets «ДатаВремя» |
| TypeConverter.PrimitiveExamples | pkg/parser/type_converter.go:34-45 | `xs:int` becomes «Число» and `Boolean` becomes «Булево» |
| TypeConverter.CyrillicMatchesNothing | pkg/parser/type_converter.go:27-52 | no pattern matches a text that starts with a Cyrillic letter |
| TypeConverter.RewriteShape | pkg/parser/type_converter.go:58 | every rewrite starts with a Cyrillic letter and keeps the input's trimmed end |
| TypeConverter.CyrillicIsFixed | pkg/parser/type_converter.go:17-64 | a trimmed text starting with a Cyrillic letter converts to itself |
| TypeConverter.UnmatchedIsFixed | pkg/parser/type_converter.go:62-63 | a trimmed text no pattern matches converts to itself |
| TypeConverter.MatchedIsFixed | pkg/parser/type_converter.go:55-59 | a rewritten type converts to itself again |
| TypeConverter.ConvertTypeIdempotent | pkg/parser/type_converter.go:17-64 | converting a converted type changes nothing |
| TypeConverter.ConvertAll | pkg/parser/type_converter.go:67-73 | one converted entry per input entry, position by position |
| TypeConverter.ConvertTypes | pkg/parser/type_converter.go:67-73 | the loop fills the output with the conversion of each input entry |
| TypeConverter.ConvertAllIdempotent | pkg/parser/type_converter.go:67-73 | converting a converted list changes nothing |
| FilterContent.NormalizeTokens | pkg/parser/normalize.go:12-25 | one segment per segment, each replaced by its label when it is exactly a keyword |
| FilterContent.NormalizeFilterContentItem | pkg/parser/normalize.go:6-28 | the loop over the split segments computes the normalised item |
| FilterContent.ReplaceKeyword | pkg/parser/normalize.go:13-24 | the `switch` rewrites slot i in place and leaves every other slot untouched |
| FilterContent.LabelsInertLiterals | pkg/parser/normalize.go:15-24 | the six labels contain no dot and are not keywords |
| FilterContent.LabelsInert | pkg/parser/normalize.go:13-24 | a keyword's label is dot-free and is not itself a keyword |
| FilterContent.TokenDotFree | pkg/parser/normalize.go:13-24 | relabelling a segment never introduces a dot |
| FilterContent.TokenIdempotent | pkg/parser/normalize.go:13-24 | relabelling a relabelled segment changes nothing |
| FilterContent.SegmentsPreserved | pkg/parser/normalize.go:10-27 | the output splits at dots into exactly the relabelled input segments |
| FilterContent.NonBlankStaysNonBlank | pkg/parser/normalize.go:7-27 | a non-blank item stays non-blank |
| FilterContent.NormalizeIdempotent | pkg/parser/normalize.go:6-28 | normalising a normalised item changes nothing, blank items included |
| FilterContent.SingleSegment | pkg/parser/normalize.go:10-27 | a dot-free item is relabelled as one segment |
| FilterContent.TwoSegments | pkg/parser/normalize.go:10-27 | `a.b` becomes the label of a, a dot and the label of b |
| FilterContent.PathExample | pkg/parser/cfg_parser_test.go:355-361 | `Document.Заказ` becomes `Документ.Заказ` |
| FilterContent.TokenExamples | pkg/parser/normalize.go:13-24 | matching is exact: `DocumentRef` and `document` stay as they are |
| CfgParser.ExtractSynonym | pkg/parser/cfg_parser.go:217-224 | the content of the first item whose language is exactly `ru`, or "" when there is none; its contract is stated by `ExtractSynonymFirstRu` |
| CfgParser.ExtractSynonymFirstRu | pkg/parser/cfg_parser.go:217-224 | the synonym is the content of the first item whose language is `ru`; it is empty when there is none |
| CfgParser.SynonymExamples | pkg/parser/cfg_parser.go:217-224 | a later `ru` item is ignored, and an item list with no `ru` gives "" |
| CfgParser.IsDateOnly | pkg/parser/cfg_parser.go:260-268 | a type is date-only exactly when some date qualifier's fraction, trimmed, is `Date` in any ASCII case |
| CfgParser.AnyDateOnly | pkg/parser/cfg_parser.go:261-267 | the loop over the fractions answers whether some fraction is `Date` |
| CfgParser.DateOnlyExamples | pkg/parser/cfg_parser_test.go:153-172 | a qualifier `date` makes the type date-only, `DateTime` does not, and no qualifier does not |
| CfgParser.ExtractTypes | pkg/parser/cfg_parser.go:227-257 | the loops collect the cleaned `Type` entries, then the cleaned `TypeSet` entries |
| CfgParser.AppendType | pkg/parser/cfg_parser.go:231-244 | one `Type` entry adds its cleaned name, or «Date» for a date-only `xs:dateTime`, or nothing if blank |
| CfgParser.AppendTypeSet | pkg/parser/cfg_parser.go:247-254 | one `TypeSet` entry adds its cleaned name or nothing, never collapsed to «Date» |
| CfgParser.TypeName | pkg/parser/cfg_parser.go:233-237 | the name is the entry stripped of `cfg:`, then of `v8:`, then trimmed |
| CfgParser.CleanedAppend | pkg/parser/cfg_parser.go:231-254 | cleaning a concatenation is concatenating the cleaned parts, so entries are kept in order |
| CfgParser.CleanedSingle | pkg/parser/cfg_parser.go:232-243 | cleaning one entry yields that entry's contribution |
| CfgParser.CleanedLength | pkg/parser/cfg_parser.go:232-234 | at most one name per entry, and exactly one per entry when no entry is blank |
| CfgParser.CleanedTrimmed | pkg/parser/cfg_parser.go:232-243 | every collected name is «Date» or has no surrounding white space |
| CfgParser.DateTimeIsClean | pkg/parser/cfg_parser.go:238 | `xs:dateTime` survives trimming and prefix stripping |
| CfgParser.DateTimeCollapse | pkg/parser/cfg_parser.go:231-254 | an `xs:dateTime` `Type` entry at any position becomes `Date` exactly when the type is date-only, and the entries around it are cleaned as usual |
| CfgParser.TypeSetNotCollapsed | pkg/parser/cfg_parser.go:247-254 | an `xs:dateTime` `TypeSet` entry at any position stays `xs:dateTime`, whatever the qualifiers say |
| CfgParser.DateLabel | pkg/parser/type_converter.go:35 | `Date` is then shown as «Дата» |
| CfgParser.DateTimeLabel | pkg/parser/type_converter.go:42 | `xs:dateTime` is then shown as «ДатаВремя» |
| CfgParser.DateOnlyLabel | pkg/parser/cfg_parser.go:237-242 | at the position of an `xs:dateTime` `Type` entry, the converted type list shows «Дата» for a date-only type and «ДатаВремя» otherwise |
| CfgParser.StripOnePrefix | pkg/parser/cfg_parser.go:235-236 | one `cfg:` or one `v8:` prefix is removed |
| CfgParser.StripBothPrefixes | pkg/parser/cfg_parser.go:235-236 | `cfg:v8:` is removed in full |
| CfgParser.StripSwappedPrefixes | pkg/parser/cfg_parser.go:235-236 | in `v8:cfg:` only `v8:` goes, because `cfg:` is stripped first |
| CfgParser.PrefixOrder | pkg/parser/cfg_parser.go:235-236 | the four prefix combinations together: the order of the two strips matters |
| CfgParser.PrefixOnlyEntry | pkg/parser/cfg_parser.go:233-241 | an entry that is only `cfg:` is not blank, so it contributes an empty name |
| CfgParser.AttributesOf | pkg/parser/cfg_parser.go:180-189 | one attribute per source attribute, in order |
| CfgParser.SectionsOf | pkg/parser/cfg_parser.go:192-211 | one tabular section per source section, in order |
| CfgParser.EnumValuesOf | pkg/parser/cfg_parser.go:410-421 | one value per source value, with its name and its `ru` synonym |
| CfgParser.MapAttributes | pkg/parser/cfg_parser.go:180-189 | the loop builds exactly the attribute list of the specification |
| CfgParser.AttributesOfStep | pkg/parser/cfg_parser.go:180-189 | mapping one more attribute appends its record |
| CfgParser.MapAttribute | pkg/parser/cfg_parser.go:181-188 | one attribute gets its name, its `ru` synonym and its converted types |
| CfgParser.MapSections | pkg/parser/cfg_parser.go:192-211 | the loop builds exactly the section list of the specification |
| CfgParser.MapEnumValues | pkg/parser/cfg_parser.go:410-421 | the loop builds exactly the value list of the specification |
| CfgParser.ParseObjectFile | pkg/parser/cfg_parser.go:159-214 | a decoded file becomes the record of the specification for its section |
| CfgParser.AttributesFaithful | pkg/parser/cfg_parser.go:180-189 | every mapped attribute keeps its name, gets the converted extracted types and is never marked required |
| CfgParser.ObjectShape | pkg/parser/cfg_parser.go:173-211 | each section fills only its own lists, one entry per source entry, and never sets Required |
| CfgParser.ParsedStep | pkg/parser/cfg_parser.go:133-149 | one more walk event appends that event's record and keeps the first walk error |
| CfgParser.FirstFailureStable | pkg/parser/cfg_parser.go:134-136 | once the walk has failed, later events do not change the error |
| CfgParser.ParseSection | pkg/parser/cfg_parser.go:122-156 | a missing directory gives no records and no error; otherwise the first walk error aborts, or the decoded XML files' records are returned in walk order |
| CfgParser.ParsedAppend | pkg/parser/cfg_parser.go:133-149 | the records of two runs of events are the records of each, concatenated |
| CfgParser.SkippedEvent | pkg/parser/cfg_parser.go:137-144 | a directory, a non-XML file or a file that failed to read or decode adds no record and is skipped silently |
| CfgParser.FirstFailureExists | pkg/parser/cfg_parser.go:134-136 | the walk fails exactly when some event is a walk error |
| CfgParser.ParsedRecords | pkg/parser/cfg_parser.go:133-149 | at most one record per event, each of the directory's kind and never marked required |
| CfgParser.MalformedOnly | pkg/parser/cfg_parser.go:140-144 | a directory holding only an undecodable file yields no records and no error |
| CfgParser.SectionForKindOf | pkg/parser/cfg_parser.go:525-567 | the switch reads each kind from its own directory, and only the six parsed kinds have a case |
| CfgParser.ParseObjectsByType | pkg/parser/cfg_parser.go:522-571 | the loop concatenates each requested kind's records in request order and returns the first error |
| CfgParser.ObjectsByTypeAppend | pkg/parser/cfg_parser.go:522-571 | requesting a then b gives a's records and then b's, with a's error first |
| CfgParser.ObjectsByTypeRecords | pkg/parser/cfg_parser.go:522-571 | every record returned has one of the requested kinds and no required attribute |
| CfgParser.NoCaseKinds | pkg/parser/cfg_parser.go:525-567 | a kind has no case exactly when it is not one of the six parsed kinds; Constant is one such kind |
| CfgParser.UnhandledKindIgnored | pkg/parser/cfg_parser.go:525-567 | any kind with no case in the switch is skipped without an error |
| EdtParser.AttributesOf | pkg/parser/edt_parser.go:135-142 | one attribute per source attribute, in order |
| EdtParser.SectionsOf | pkg/parser/edt_parser.go:145-162 | one tabular section per source section, in order |
| EdtParser.MapAttributes | pkg/parser/edt_parser.go:135-142 | the loop builds exactly the attribute list of the specification |
| EdtParser.ParseObjectFile | pkg/parser/edt_parser.go:114-165 | a decoded `.mdo` file becomes the record of the specification |
| EdtParser.ObjectShape | pkg/parser/edt_parser.go:128-162 | the record keeps name and synonym, has one attribute and section per source entry with converted types, and never sets Required |
| EdtParser.CollectedStep | pkg/parser/edt_parser.go:87-108 | one more directory entry appends that entry's record |
| EdtParser.ParseSection | pkg/parser/edt_parser.go:71-111 | a missing directory gives no records; an unreadable one is the only error; otherwise the decoded `.mdo` records are returned in listing order |
| EdtParser.CollectedAppend | pkg/parser/edt_parser.go:87-108 | the records of two listings are the records of each, concatenated |
| EdtParser.SkippedEntry | pkg/parser/edt_parser.go:88-105 | a plain file, a directory without its `.mdo` file, or an undecodable `.mdo` file adds no record |
| EdtParser.CollectedRecords | pkg/parser/edt_parser.go:87-108 | at most one record per entry, each of the directory's kind and never marked required |
| EdtParser.ParseEnums | pkg/parser/edt_parser.go:265-268 | enumerations are not read from EDT trees: the empty list and no error |
| EdtParser.ParseChartsOfCharacteristicTypes | pkg/parser/edt_parser.go:270-273 | charts of characteristic types are not read from EDT trees: the empty list and no error |
| EdtParser.ParseObjectsByType | pkg/parser/edt_parser.go:275-311 | the loop concatenates each requested kind's records in request order and returns the first error |
| EdtParser.ObjectsByTypeAppend | pkg/parser/edt_parser.go:275-311 | requesting a then b gives a's records and then b's, with a's error first |
| EdtParser.ObjectsByTypeRecords | pkg/parser/edt_parser.go:275-311 | every record returned has a requested kind, is a document or a catalog, and has no required attribute |
| EdtParser.NoCaseKinds | pkg/parser/edt_parser.go:279-307 | a kind has no case exactly when it is not a document, catalog, enumeration or chart of characteristic types; the two registers and Constant are such kinds |
| EdtParser.UnhandledKindIgnored | pkg/parser/edt_parser.go:279-307 | any kind with no case in the EDT switch is skipped without an error |
| Detector.DetectFormat | pkg/detector/format.go:12-34 | a detected format is `cfg` or `edt` |
| Detector.IsCfgFormat | pkg/detector/format.go:37-41 | `Configuration.xml` is present under the root; its contract is stated by `DetectOutcomes` and `ValidateOutcomes` |
| Detector.IsEdtFormat | pkg/detector/format.go:44-52 | both `.project` and `src` are present under the root; its contract is stated by `DetectOutcomes` and `ValidateOutcomes` |
| Detector.ValidateFormat | pkg/detector/format.go:55-70 | no error exactly when the format's markers are present, and "unsupported" for any other format; its contract is stated by `ValidateOutcomes`, `ValidateNeedsDirectory` and `DetectedFormatValidates` |
| Detector.DetectOutcomes | pkg/detector/format.go:12-34 | `cfg` exactly when the root is a directory holding `Configuration.xml`; `edt` exactly when it is not `cfg` and holds both `.project` and `src`; an error otherwise |
| Detector.ValidateOutcomes | pkg/detector/format.go:55-70 | validation passes exactly when the format's markers are present, and any other format is unsupported |
| Detector.ValidateNeedsDirectory | pkg/detector/format.go:12-70 | on a consistent filesystem, a root that is missing, unreadable or a file fails detection and every validation |
| Detector.DetectedFormatValidates | pkg/detector/format.go:12-70 | a detected format always passes validation |
| Detector.DetectExamples | pkg/detector/format_test.go:9-56 | a tree with both dialects' markers is `cfg`, and an empty directory is undetermined and fails both validations |
| ParserFactory.NewParser | pkg/parser/interface.go:28-47 | `cfg`/`edt` build that parser, "" detects the format and recurses once, anything else is unsupported; its contract is stated by `ExplicitFormat`, `UnsupportedFormats` and `AutoDetect` |
| ParserFactory.ExplicitFormat | pkg/parser/interface.go:29-33 | an explicit `cfg`/`edt` builds the parser of that format whatever the filesystem holds |
| ParserFactory.UnsupportedFormats | pkg/parser/interface.go:45 | any other non-empty format is refused as unsupported |
| ParserFactory.AutoDetect | pkg/parser/interface.go:36-43 | an empty format builds the parser of the detected format, which validates, or fails with the detection error |
| ObjectTypes.ParseObjectTypes | cmd/root.go:128-157 | the loop trims and maps each comma-separated name in order, and stops at the first unknown name |
| ObjectTypes.KindNamed | cmd/root.go:138-152 | the six plural names, matched exactly and case-sensitively, map to six distinct kinds and every other name to nothing; its contract is stated by `KindNamedInjective` and `KindsOfMeaning` |
| ObjectTypes.KindNamedInjective | cmd/root.go:138-150 | the six names denote six different kinds, all of which the extractors know |
| ObjectTypes.KindsOfMeaning | cmd/root.go:133-156 | on success, one kind per piece in order with duplicates kept; an error exactly when some trimmed piece is not one of the six names |
| ObjectTypes.OnePiece | cmd/root.go:136-153 | one piece gives its kind, or an error naming the trimmed piece |
| ObjectTypes.TwoPieces | cmd/root.go:133-156 | `a,b` gives a's result followed by b's, with a's error first |
| ObjectTypes.ParseEmpty | cmd/root.go:129-131 | an empty option means documents only |
| ObjectTypes.SingleNames | cmd/root.go:136-142 | (the model's own example) `documents` and ` catalogs` are recognised, with the space ignored |
| ObjectTypes.ParseTwoNames | cmd/root.go:133-156 | (the model's own example) `documents, catalogs` gives both kinds in order, and a repeated name is kept twice |
| ObjectTypes.ParseRejects | cmd/root.go:136-153 | (the model's own example) a capitalised name, or the empty piece after a trailing comma, is an error naming it |
| ObjectTypes.ParsedJoin | cmd/root.go:133-137 | comma-free pieces joined by commas are split back into exactly those pieces and parsed one by one |
| ObjectTypes.TestVectorsAccepted | cmd/root_test.go:23-37 | `documents,catalogs` gives `[Document, Catalog]`, and `enums` gives `[Enum]` |
| ObjectTypes.TestVectorsRejected | cmd/root_test.go:44-55 | `invalidtype` and `documents,invalidtype` are both errors naming `invalidtype` |
| ObjectTypes.TestVectorAll | cmd/root_test.go:56-69 | the six names joined by commas give the six kinds in the same order |
| Markdown.TypeLabel | pkg/generator/markdown.go:63-80 | six distinct Russian labels for the six kinds, and any other kind as its own label; its contract is stated by `TypeLabelFacts`, `LabelKey` and `LabelExamples` |
| Markdown.TypeLabelFacts | pkg/generator/markdown.go:63-80 | only the six known kinds are relabelled, each to a different label; any other kind is its own label |
| Markdown.LabelKey | pkg/generator/markdown.go:63-80 | the kind can be read back from the first letters and the length of its label |
| Markdown.FileName | pkg/generator/markdown.go:58-60 | `label_name.md`, injective in the name within one kind; its contract is stated by `FileNameNames` and `FileNameExample` |
| Markdown.FileNameNames | pkg/generator/markdown.go:58-60 | two objects of one kind get the same file name exactly when their names are equal |
| Markdown.FieldLinesStep | pkg/generator/markdown.go:177-180 | one more attribute appends its `- name (types)` line |
| Markdown.ValueLinesStep | pkg/generator/markdown.go:98-104 | one more enumeration value appends its `- name (synonym)` line |
| Markdown.SectionsTextStep | pkg/generator/markdown.go:187-201 | one more tabular section appends its `###` block |
| Markdown.GenerateContent | pkg/generator/markdown.go:83-205 | the builder produces the document of the specification: header, then the blocks for the object's kind |
| Markdown.WriteBlock | pkg/generator/markdown.go:112-118 | a non-empty list adds its heading, its lines and a blank line; an empty list adds nothing |
| Markdown.WriteFields | pkg/generator/markdown.go:177-180 | the loop appends one line per attribute in order |
| Markdown.WriteValues | pkg/generator/markdown.go:98-104 | the loop appends one line per value in order |
| Markdown.WriteSections | pkg/generator/markdown.go:187-201 | the loop appends one block per tabular section in order |
| Markdown.OnlyHeader | pkg/generator/markdown.go:83-205 | the document is only its header exactly when none of the lists its kind shows is non-empty |
| Markdown.UnrenderedListsIgnored | pkg/generator/markdown.go:95-168 | lists a kind does not show, such as a register's tabular sections, do not affect the document |
| Markdown.FieldItems | pkg/generator/markdown.go:177-180 | one `- name (types)` item per attribute, in order |
| Markdown.FieldLinesJoin | pkg/generator/markdown.go:177-180 | the attribute lines are the items joined by newlines, with a final newline |
| Markdown.FieldLinesSplit | pkg/generator/markdown.go:177-180 | when no name or type holds a newline, the attribute text splits back into one line per attribute |
| Markdown.LabelExamples | pkg/generator/markdown.go:69-72 | the register labels contain a space, and an unknown kind is its own label |
| Markdown.EmptyDocumentExample | pkg/generator/markdown_test.go:255-260 | a document with nothing in it renders as its header line and a blank line |
| Markdown.FieldLineExample | pkg/generator/markdown_test.go:276-279 | an attribute `Dim1` of type `String` renders as `- Dim1 (String)` |
| Markdown.ValueLineExample | pkg/generator/markdown_test.go:314-317 | a value without a synonym renders as `- Value1` |
| Markdown.FileNameExample | pkg/generator/markdown_test.go:224-235 | a document's file name is `Документ_<name>.md` |
| CsvCatalog.GenerateCatalog | pkg/generator/csv.go:24-65 | the header, then one four-field record per object in input order, with the name and synonym verbatim |
| CsvCatalog.TypeLabel | pkg/generator/csv.go:82-99 | the Markdown label for every kind except the two registers, which are written without a space; its contract is stated by `LabelsAgree` |
| CsvCatalog.EntryOf | pkg/generator/csv.go:68-79 | `label.name`, the label, the synonym verbatim and the Markdown file name; its contract is stated by `FileNamesAgree`, `EntryDeterminesObject` and `EntryExample` |
| CsvCatalog.LabelsAgree | pkg/generator/csv.go:82-99 | the catalogue labels every kind as the Markdown generator does, except the two registers |
| CsvCatalog.FileNamesAgree | pkg/generator/csv.go:68-79 | the catalogue names the object's Markdown file exactly when the object is not a register |
| CsvCatalog.EntryDeterminesObject | pkg/generator/csv.go:68-79 | among objects of one kind, the entry determines the name and synonym, and conversely |
| CsvCatalog.EntryExample | pkg/generator/csv_test.go:10-28 | the catalog `Контрагенты` is listed as `Справочник.Контрагенты` with file `Справочник_Контрагенты.md` |
| TextNormalize.ReplaceCr | pkg/testutil/normalize.go:15 | every carriage return becomes a newline, and nothing else changes |
| TextNormalize.TrimBlanksFacts | pkg/testutil/normalize.go:22 | only trailing spaces and tabs are removed, and none remain |
| TextNormalize.KeptStep | pkg/testutil/normalize.go:20-33 | a blank line directly after a blank line is dropped; every other line is kept, trimmed |
| TextNormalize.Normalize | pkg/testutil/normalize.go:11-43 | the loops compute the normalised text of the specification |
| TextNormalize.UnifiedHasNoCr | pkg/testutil/normalize.go:13-15 | no carriage return survives line-end unification |
| TextNormalize.KeptFrom | pkg/testutil/normalize.go:20-33 | every kept line is the trimmed form of some input line |
| TextNormalize.KeptClean | pkg/testutil/normalize.go:17-33 | no kept line holds a carriage return, a newline or trailing blanks |
| TextNormalize.KeptLast | pkg/testutil/normalize.go:20-33 | the last input line is always represented, and it is empty exactly when that line is blank |
| TextNormalize.KeptNoDoubleEmpty | pkg/testutil/normalize.go:23-28 | no two consecutive kept lines are empty |
| TextNormalize.DropLeadingFacts | pkg/testutil/normalize.go:35-37 | dropping leading empty lines leaves a suffix that does not start with an empty line |
| TextNormalize.DropTrailingFacts | pkg/testutil/normalize.go:38-40 | dropping trailing empty lines leaves a prefix that does not end with an empty line |
| TextNormalize.LinesShape | pkg/testutil/normalize.go:11-40 | the final lines are clean, have no two empty lines in a row, and neither start nor end empty |
| TextNormalize.NormalizedLines | pkg/testutil/normalize.go:42 | the output splits at newlines back into exactly the final lines |
| TextNormalize.NormalizedHasNoCr | pkg/testutil/normalize.go:11-43 | the output holds no carriage return, and is empty when no line survives |
| TextNormalize.NonEmptyAppend | pkg/testutil/normalize.go:20-40 | the non-empty lines of a concatenation are those of each part |
| TextNormalize.TrimAll | pkg/testutil/normalize.go:22 | one trimmed line per line |
| TextNormalize.KeptKeepsNonEmpty | pkg/testutil/normalize.go:20-33 | collapsing blank runs keeps every non-empty trimmed line, in order |
| TextNormalize.DropLeadingKeepsNonEmpty | pkg/testutil/normalize.go:35-37 | dropping leading empty lines loses no non-empty line |
| TextNormalize.DropTrailingKeepsNonEmpty | pkg/testutil/normalize.go:38-40 | dropping trailing empty lines loses no non-empty line |
| TextNormalize.NonEmptyLinesKept | pkg/testutil/normalize.go:11-40 | normalisation keeps exactly the non-empty trimmed lines of the input, in order |
| TextNormalize.OneBomRemoved | pkg/testutil/normalize.go:13 | one BOM is removed, and a second one stays |
| TextNormalize.UnifiedPlain | pkg/testutil/normalize.go:13-15 | a text without BOM and carriage returns is unchanged by unification |
| TextNormalize.ReplaceCrLfLine | pkg/testutil/normalize.go:14 | a CRLF after a CR-free line becomes one newline |
| TextNormalize.VectorEmpty | pkg/testutil/normalize_test.go:14 | the empty text normalises to the empty text |
| TextNormalize.VectorBlankRun | pkg/testutil/normalize_test.go:13 | `x\n\n\n\n y\n` normalises to `x\n\n y` |
| TextNormalize.VectorCrTrailingBlanks | pkg/testutil/normalize_test.go:12 | `a b\r\n  \r\n` normalises to `a b` |
| TextNormalize.VectorBomCrLf | pkg/testutil/normalize_test.go:11 | a BOM and CRLF line ends normalise to `line1\n\nline2` |

## Left out

- **Filesystem and XML decoding.** `os.Stat`, `filepath.Walk`, `ioutil.ReadDir`/`ReadFile` and `xml.Unmarshal` are not modelled. Their outcomes are inputs:
  - a decoded file is a value;
  - a read or decode failure is an `Err` carried by the file;
  - a directory is a walk-event sequence (CFG) or a listing (EDT).
- **Warnings.** The `fmt.Printf` warnings printed for skipped files are not modelled. Only the skip itself is.
- **Error texts.** The texts of Go error messages are not modelled. Errors are datatypes that carry the failing kind directory, the unrecognised name or the detection cause.
- **The regular-expression engine.** It is replaced by the explicit table of the 22 patterns of `ConvertType`.
  - Go ranges over the pattern map in random order. This is modelled by proving that every enumeration order gives the same result (`TypeConverter.AnyOrderSameResult`).
  - `(.+)` is modelled as at least one character after the dot, none of them a newline, since Go's `.` does not match one. This is why `ReferenceRewrite` requires a newline-free suffix.
- **Unicode.** `strings.TrimSpace`, `strings.ToLower` and `strings.EqualFold` are modelled on ASCII white space and ASCII letters only. Unicode white space and Unicode case folding are not part of this model. Text is a sequence of Unicode characters, whereas a Go string is a sequence of UTF-8 bytes: the model does not capture byte-level operations such as `strings.TrimPrefix(s, "\uFEFF")` removing the three bytes of the BOM, nor strings holding invalid UTF-8. Every operation modelled here splits, trims, compares or prefixes at ASCII characters, the BOM or whole strings, so on valid UTF-8 text the character view and Go's byte view agree.
- **CSV quoting and files.** CSV quoting by `encoding/csv`, and writing the catalogue and the Markdown files (`GenerateFiles`, `MkdirAll`, `os.Create`), are left out. `CsvCatalog.GenerateCatalog` returns the rows handed to the writer.
- **Command-line plumbing.** Everything in `cmd/root.go` other than `parseObjectTypes` is left out: flags, the run loop and output directories.
- **Golden documents.** The full-document golden Markdown comparisons of the tests are not restated. Only the per-line and empty-document examples are proved.
- **TextNormalize.Normalize:** does not model overflow of the Go `int` counter of consecutive empty lines. It would need more than 2^63 empty lines.
- **Code over tests and declarations.** Where the code disagrees with its tests or with metadata.go as shipped, the model follows the code:
  - `markdown.go` labels the registers «Регистр накопления» and «Регистр сведений», with a space. `markdown_test.go` expects them without the space.
  - `metadata.go` as shipped declares neither the information-register kind nor the enumeration-value list. The parsers and renderers use both, so the model includes them.
