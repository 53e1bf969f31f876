/**
 * Filter-content token normalisation (pkg/parser/normalize.go): a dotted path
 * such as `Document.Заказ.Attribute.Сумма` has each segment that is exactly a
 * metadata keyword replaced by its Russian label.
 */
module FilterContent {
  import opened Wrappers
  import opened Strings

  /** The keyword switch: the Russian label of a segment that is exactly a keyword. */
  function KeywordLabel(tok: string): Option<string> {
    match tok
    case "Document" => Some("Документ")
    case "Attribute" => Some("Реквизит")
    case "Catalog" => Some("Справочник")
    case "Enum" => Some("Перечисление")
    case "ChartOfCharacteristicTypes" => Some("ПланВидовХарактеристик")
    case "Constant" => Some("Константа")
    case _ => None
  }

  /** One segment after the switch: its label if it is a keyword, itself otherwise. */
  function NormalizeToken(tok: string): string {
    match KeywordLabel(tok)
    case Some(text) => text
    case None => tok
  }

  function NormalizeTokens(parts: seq<string>): (r: seq<string>)
    ensures |r| == |parts|
    ensures forall i :: 0 <= i < |parts| ==> r[i] == NormalizeToken(parts[i])
  {
    seq(|parts|, i requires 0 <= i < |parts| => NormalizeToken(parts[i]))
  }

  /** What `NormalizeFilterContentItem` returns: a blank item as it is, otherwise the item with each segment normalised. */
  function NormalizedItem(item: string): string {
    if TrimSpace(item) == "" then item
    else Join(NormalizeTokens(Split(item, '.')), ".")
  }

  /** `NormalizeFilterContentItem`: split on dots, overwrite each keyword segment in place, rejoin. */
  method NormalizeFilterContentItem(item: string) returns (r: string)
    ensures r == NormalizedItem(item)
  {
    if TrimSpace(item) == "" {
      return item;
    }
    var split := Split(item, '.');
    var parts := new string[|split|](i requires 0 <= i < |split| => split[i]);
    for i := 0 to parts.Length
      invariant forall k :: 0 <= k < i ==> parts[k] == NormalizeToken(split[k])
      invariant forall k :: i <= k < parts.Length ==> parts[k] == split[k]
    {
      ReplaceKeyword(parts, i);
    }
    assert parts[..] == NormalizeTokens(split);
    r := Join(parts[..], ".");
  }

  /** The `switch` on one segment: a keyword is overwritten by its label, anything else is left alone. */
  method ReplaceKeyword(parts: array<string>, i: int)
    requires 0 <= i < parts.Length
    modifies parts
    ensures parts[i] == NormalizeToken(old(parts[i]))
    ensures forall k :: 0 <= k < parts.Length && k != i ==> parts[k] == old(parts[k])
  {
    match KeywordLabel(parts[i])
    case Some(text) => parts[i] := text;
    case None =>
  }

  /** A label starts with a Cyrillic letter and has no dot. */
  predicate InertLabel(text: string) {
    |text| > 0 && '\U{0400}' <= text[0] <= '\U{04FF}' && '.' !in text
  }

  lemma LabelsInertLiterals()
    ensures InertLabel("Документ") && InertLabel("Реквизит") && InertLabel("Справочник")
    ensures InertLabel("Перечисление") && InertLabel("ПланВидовХарактеристик") && InertLabel("Константа")
  {
  }

  /** No label contains a dot, and no label is itself a keyword. */
  lemma LabelsInert(tok: string)
    requires KeywordLabel(tok).Some?
    ensures InertLabel(KeywordLabel(tok).value)
    ensures KeywordLabel(KeywordLabel(tok).value).None?
  {
    LabelsInertLiterals();
  }

  /** Normalising a dot-free segment leaves it dot-free. */
  lemma TokenDotFree(tok: string)
    requires '.' !in tok
    ensures '.' !in NormalizeToken(tok)
  {
    if KeywordLabel(tok).Some? {
      LabelsInert(tok);
    }
  }

  /** The switch is idempotent on a single segment. */
  lemma TokenIdempotent(tok: string)
    ensures NormalizeToken(NormalizeToken(tok)) == NormalizeToken(tok)
  {
    if KeywordLabel(tok).Some? {
      LabelsInert(tok);
    }
  }

  /**
   * The output of a non-blank item has exactly the input's segments, in the
   * same order, each normalised.
   */
  lemma SegmentsPreserved(item: string)
    requires TrimSpace(item) != ""
    ensures Split(NormalizedItem(item), '.') == NormalizeTokens(Split(item, '.'))
  {
    var parts := Split(item, '.');
    var m := NormalizeTokens(parts);
    SplitFacts(item, '.');
    forall i | 0 <= i < |m| ensures '.' !in m[i] {
      TokenDotFree(parts[i]);
    }
    SplitJoin(m, '.');
  }

  /** A non-blank item normalises to a non-blank result. */
  lemma NonBlankStaysNonBlank(item: string)
    requires TrimSpace(item) != ""
    ensures TrimSpace(NormalizedItem(item)) != ""
  {
    var parts := Split(item, '.');
    var m := NormalizeTokens(parts);
    var r := Join(m, ".");
    assert !AllSpace(r) by {
      if |m| == 1 {
        SplitFacts(item, '.');
        assert r == m[0] && parts[0] == item;
        TrimSpaceBlank(item);
        if KeywordLabel(item).Some? {
          LabelsInert(item);
        }
      } else {
        assert r == m[0] + "." + Join(m[1..], ".");
        assert r[|m[0]|] == '.';
      }
    }
    TrimSpaceBlank(r);
  }

  /** Normalising twice is normalising once: no label is a keyword. */
  lemma NormalizeIdempotent(item: string)
    ensures NormalizedItem(NormalizedItem(item)) == NormalizedItem(item)
  {
    if TrimSpace(item) != "" {
      var m := NormalizeTokens(Split(item, '.'));
      NonBlankStaysNonBlank(item);
      SegmentsPreserved(item);
      forall i | 0 <= i < |m| ensures NormalizeToken(m[i]) == m[i] {
        TokenIdempotent(Split(item, '.')[i]);
      }
      assert NormalizeTokens(m) == m;
    }
  }

  /** A dot-free, non-blank item is one segment: `Catalog` alone becomes `Справочник`. */
  lemma SingleSegment(tok: string)
    requires '.' !in tok && TrimSpace(tok) != ""
    ensures NormalizedItem(tok) == NormalizeToken(tok)
  {
    SplitJoin([tok], '.');
  }

  /** A two-segment path has each segment normalised on its own. */
  lemma TwoSegments(a: string, b: string)
    requires '.' !in a && '.' !in b
    ensures NormalizedItem(a + "." + b) == NormalizeToken(a) + "." + NormalizeToken(b)
  {
    var s := a + "." + b;
    JoinTwo(a, b, ".");
    SplitJoin([a, b], '.');
    assert Split(s, '.') == [a, b];
    assert !IsSpace(s[|a|]);
    TrimSpaceBlank(s);
    assert NormalizeTokens([a, b]) == [NormalizeToken(a), NormalizeToken(b)];
    JoinTwo(NormalizeToken(a), NormalizeToken(b), ".");
  }

  /** `Document.Заказ` becomes `Документ.Заказ`. */
  lemma PathExample(head: string, name: string)
    requires head == "Document" && name == "Заказ"
    ensures NormalizedItem(head + "." + name) == "Документ" + "." + name
  {
    TwoSegments(head, name);
  }

  /** Keywords and near-misses: only an exact, case-sensitive keyword is replaced. */
  lemma TokenExamples()
    ensures NormalizeToken("Document") == "Документ"
    ensures NormalizeToken("Attribute") == "Реквизит"
    ensures NormalizeToken("DocumentRef") == "DocumentRef"
    ensures NormalizeToken("document") == "document"
  {
  }
}
