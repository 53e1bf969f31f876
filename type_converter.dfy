/**
 * Type-name canonicalisation (pkg/parser/type_converter.go).
 *
 * The Go code keeps its rules in a map from anchored regular expressions to
 * replacements and returns on the first rule that matches, in map iteration
 * order, which Go leaves unspecified. Here the map is its lookup function `Table`,
 * the Go loop is `FirstMatch` over an arbitrary enumeration of its keys, and
 * `AnyOrderSameResult` proves that every enumeration gives `Lookup`'s answer.
 */
module TypeConverter {
  import opened Wrappers
  import opened Strings

  /**
   * `Exact(spelling)` is the pattern `^spelling$`.
   * `Ref(kind)` is the pattern `^kind\.(.+)$`: the kind, an escaped dot, and a
   * non-empty suffix which, since `.` does not match a newline in Go's regular
   * expressions, is free of '\n'.
   */
  datatype Pattern = Exact(spelling: string) | Ref(kind: string)

  predicate Matches(p: Pattern, s: string) {
    match p
    case Exact(spelling) => s == spelling
    case Ref(kind) => |s| > |kind| + 1 && s[..|kind|] == kind && s[|kind|] == '.' && '\n' !in s[|kind| + 1..]
  }

  /** What `ReplaceAllString` yields for a matching input: the replacement, followed by `$1` for a reference. */
  function Rewrite(p: Pattern, replacement: string, s: string): string
    requires Matches(p, s)
  {
    match p
    case Exact(_) => replacement
    case Ref(kind) => replacement + s[|kind| + 1..]
  }

  /**
   * The rule table, as the lookup `m[p]` of the Go map: `Some(replacement)`
   * for each of its keys and `None` for everything else.
   */
  function Table(p: Pattern): Option<string> {
    match p
    case Ref(kind) =>
      (match kind
       case "CatalogRef" => Some("Справочник.")
       case "DocumentRef" => Some("Документ.")
       case "EnumRef" => Some("Перечисление.")
       case "ChartOfCharacteristicTypesRef" => Some("ПланВидовХарактеристик.")
       case "DefinedType" => Some("ОпределяемыйТип.")
       case "Characteristic" => Some("Характеристика.")
       case _ => None)
    case Exact(spelling) =>
      match spelling
      case "String" => Some("Строка")
      case "Boolean" => Some("Булево")
      case "Date" => Some("Дата")
      case "Number" => Some("Число")
      case "xs:string" => Some("Строка")
      case "xs:boolean" => Some("Булево")
      case "xs:date" => Some("Дата")
      case "xs:dateTime" => Some("ДатаВремя")
      case "xs:decimal" => Some("Число")
      case "xs:double" => Some("Число")
      case "xs:int" => Some("Число")
      case "xs:integer" => Some("Число")
      case "Type" => Some("Тип")
      case "ValueStorage" => Some("ХранилищеЗначения")
      case "UUID" => Some("УникальныйИдентификатор")
      case "AnyRef" => Some("ЛюбаяСсылка")
      case _ => None
  }

  predicate IsKey(p: Pattern) {
    Table(p).Some?
  }

  /** The Go loop: try the keys of the table in the order `order` visits them, return on the first match. */
  function FirstMatch(order: seq<Pattern>, s: string): Option<string>
    requires forall i :: 0 <= i < |order| ==> IsKey(order[i])
  {
    if |order| == 0 then None
    else if Matches(order[0], s) then
      assert IsKey(order[0]);
      Some(Rewrite(order[0], Table(order[0]).value, s))
    else FirstMatch(order[1..], s)
  }

  /** `order` is one possible iteration order of the map: it visits every key and nothing else. */
  ghost predicate IsEnumeration(order: seq<Pattern>) {
    && (forall i :: 0 <= i < |order| ==> IsKey(order[i]))
    && (forall p :: IsKey(p) ==> p in order)
  }

  /** The index of the first `c` in `s`. */
  function IndexOf(s: string, c: char): (r: Option<nat>)
    ensures r.None? <==> c !in s
    ensures r.Some? ==> r.value < |s| && s[r.value] == c && c !in s[..r.value]
  {
    if |s| == 0 then None
    else if s[0] == c then Some(0)
    else match IndexOf(s[1..], c)
      case None => None
      case Some(k) =>
        assert s[..k + 1] == [s[0]] + s[1..][..k];
        Some(k + 1)
  }

  /**
   * The table lookup written without an iteration order: an exact key, or
   * the reference key that is the input up to its first dot.
   */
  function Lookup(t: string): Option<string> {
    if IsKey(Exact(t)) then Table(Exact(t))
    else match IndexOf(t, '.')
      case None => None
      case Some(k) =>
        var p := Ref(t[..k]);
        if IsKey(p) && Matches(p, t) then Some(Rewrite(p, Table(p).value, t)) else None
  }

  /** `ConvertType`: trim; blank gives ""; otherwise the matching rule's rewrite, or the trimmed input. */
  function ConvertType(raw: string): string {
    var t := TrimSpace(raw);
    if t == "" then ""
    else match Lookup(t)
      case Some(v) => v
      case None => t
  }

  // ---------------------------------------------------------------------------
  // Shape of the table

  function PatternText(p: Pattern): string {
    if p.Exact? then p.spelling else p.kind
  }

  /** A replacement starts with a Cyrillic letter (so neither with ASCII nor with a space). */
  predicate IsCyrillicStart(s: string) {
    |s| > 0 && '\U{0400}' <= s[0] <= '\U{04FF}'
  }

  /**
   * What makes the iteration order irrelevant and the conversion idempotent:
   * no pattern text has a dot of its own, every pattern starts with an ASCII
   * character and every replacement with a Cyrillic one, and no exact
   * replacement ends in a space.
   */
  predicate WellFormedEntry(p: Pattern, replacement: string) {
    && |PatternText(p)| > 0 && PatternText(p)[0] < '\U{0080}' && '.' !in PatternText(p)
    && IsCyrillicStart(replacement)
    && (p.Exact? ==> !IsSpace(replacement[|replacement| - 1]))
  }

  /** Every key of the table and its replacement have the shape above. */
  lemma TableWellFormed()
    ensures forall p :: IsKey(p) ==> WellFormedEntry(p, Table(p).value)
  {
    ReferenceEntries();
    ChartReferenceEntry();
    LongReferenceEntries();
    PrimitiveEntries();
    XsdEntries();
    XsdNumberEntries();
    PlatformEntries();
  }

  // The entries, a few at a time (each lemma evaluates the shape on literals).

  lemma ReferenceEntries()
    ensures WellFormedEntry(Ref("CatalogRef"), "Справочник.")
    ensures WellFormedEntry(Ref("DocumentRef"), "Документ.")
    ensures WellFormedEntry(Ref("EnumRef"), "Перечисление.")
  {
  }

  lemma ChartReferenceEntry()
    ensures WellFormedEntry(Ref("ChartOfCharacteristicTypesRef"), "ПланВидовХарактеристик.")
  {
  }

  lemma LongReferenceEntries()
    ensures WellFormedEntry(Ref("DefinedType"), "ОпределяемыйТип.")
    ensures WellFormedEntry(Ref("Characteristic"), "Характеристика.")
  {
  }

  lemma PrimitiveEntries()
    ensures WellFormedEntry(Exact("String"), "Строка")
    ensures WellFormedEntry(Exact("Boolean"), "Булево")
    ensures WellFormedEntry(Exact("Date"), "Дата")
    ensures WellFormedEntry(Exact("Number"), "Число")
  {
  }

  lemma XsdEntries()
    ensures WellFormedEntry(Exact("xs:string"), "Строка")
    ensures WellFormedEntry(Exact("xs:boolean"), "Булево")
    ensures WellFormedEntry(Exact("xs:date"), "Дата")
    ensures WellFormedEntry(Exact("xs:dateTime"), "ДатаВремя")
  {
  }

  lemma XsdNumberEntries()
    ensures WellFormedEntry(Exact("xs:decimal"), "Число")
    ensures WellFormedEntry(Exact("xs:double"), "Число")
    ensures WellFormedEntry(Exact("xs:int"), "Число")
    ensures WellFormedEntry(Exact("xs:integer"), "Число")
  {
  }

  lemma PlatformEntries()
    ensures WellFormedEntry(Exact("Type"), "Тип")
    ensures WellFormedEntry(Exact("ValueStorage"), "ХранилищеЗначения")
    ensures WellFormedEntry(Exact("UUID"), "УникальныйИдентификатор")
    ensures WellFormedEntry(Exact("AnyRef"), "ЛюбаяСсылка")
  {
  }

  /** A matching reference kind is the input up to its first dot. */
  lemma RefMatchIsFirstDot(kind: string, t: string)
    requires '.' !in kind && Matches(Ref(kind), t)
    ensures IndexOf(t, '.') == Some(|kind|)
  {
  }

  /**
   * The anchored patterns of the table are pairwise disjoint: two keys that
   * match the same input are the same key.
   */
  lemma RulesDisjoint(p: Pattern, q: Pattern, t: string)
    requires IsKey(p) && IsKey(q) && Matches(p, t) && Matches(q, t)
    ensures p == q
  {
    TableWellFormed();
    if p.Ref? {
      RefMatchIsFirstDot(p.kind, t);
    }
    if q.Ref? {
      RefMatchIsFirstDot(q.kind, t);
    }
    if p.Ref? && q.Ref? {
      assert p.kind == t[..|p.kind|];
      assert q.kind == t[..|q.kind|];
    }
  }

  /** A matching key yields `Lookup`'s answer; `Lookup` finds nothing unless some key matches. */
  lemma LookupIsTheMatch(t: string, p: Pattern)
    requires IsKey(p)
    ensures Matches(p, t) ==> Lookup(t) == Some(Rewrite(p, Table(p).value, t))
    ensures Lookup(t).Some? ==> exists q :: IsKey(q) && Matches(q, t)
  {
    TableWellFormed();
    if Matches(p, t) && p.Ref? {
      RefMatchIsFirstDot(p.kind, t);
    }
    if Lookup(t).Some? && !IsKey(Exact(t)) {
      var k := IndexOf(t, '.').value;
      assert IsKey(Ref(t[..k]));
    }
  }

  /** `FirstMatch` finds something exactly when some visited key matches, and then returns that key's rewrite. */
  lemma {:induction false} FirstMatchSound(order: seq<Pattern>, t: string)
    requires forall i :: 0 <= i < |order| ==> IsKey(order[i])
    ensures FirstMatch(order, t).None? <==> forall i :: 0 <= i < |order| ==> !Matches(order[i], t)
    ensures FirstMatch(order, t).Some? ==>
              exists k :: 0 <= k < |order| && Matches(order[k], t)
                          && FirstMatch(order, t).value == Rewrite(order[k], Table(order[k]).value, t)
  {
    if |order| > 0 && !Matches(order[0], t) {
      FirstMatchSound(order[1..], t);
      assert forall i :: 1 <= i < |order| ==> order[i] == order[1..][i - 1];
      if FirstMatch(order[1..], t).Some? {
        var k :| 0 <= k < |order[1..]| && Matches(order[1..][k], t)
                 && FirstMatch(order[1..], t).value == Rewrite(order[1..][k], Table(order[1..][k]).value, t);
        assert order[k + 1] == order[1..][k];
      }
    }
  }

  /**
   * Map iteration order is irrelevant: the Go loop, run over any enumeration
   * of the table's keys, returns `Lookup`'s answer.
   */
  lemma AnyOrderSameResult(order: seq<Pattern>, t: string)
    requires IsEnumeration(order)
    ensures FirstMatch(order, t) == Lookup(t)
  {
    FirstMatchSound(order, t);
    var m := FirstMatch(order, t);
    if m.Some? {
      var k :| 0 <= k < |order| && Matches(order[k], t) && m.value == Rewrite(order[k], Table(order[k]).value, t);
      LookupIsTheMatch(t, order[k]);
    } else {
      LookupIsTheMatch(t, Exact("String"));
    }
  }

  // ---------------------------------------------------------------------------
  // Properties of ConvertType

  /** A blank input, and only a blank input, converts to the empty string. */
  lemma ConvertTypeEmpty(raw: string)
    ensures ConvertType(raw) == "" <==> AllSpace(raw)
  {
    var t := TrimSpace(raw);
    TrimSpaceBlank(raw);
    if t != "" && Lookup(t).Some? {
      TableWellFormed();
      var q :| IsKey(q) && Matches(q, t) by { LookupIsTheMatch(t, Exact("String")); }
      LookupIsTheMatch(t, q);
    }
  }

  /** When key `p` matches the trimmed input, the result is `p`'s rewrite of it. */
  lemma ConvertTypeMatched(raw: string, p: Pattern)
    requires IsKey(p) && Matches(p, TrimSpace(raw))
    ensures ConvertType(raw) == Rewrite(p, Table(p).value, TrimSpace(raw))
  {
    LookupIsTheMatch(TrimSpace(raw), p);
  }

  /** When no key matches, the trimmed input is returned unchanged. */
  lemma ConvertTypeUnmatched(raw: string)
    requires forall p :: IsKey(p) ==> !Matches(p, TrimSpace(raw))
    ensures ConvertType(raw) == TrimSpace(raw)
  {
    if TrimSpace(raw) != "" && Lookup(TrimSpace(raw)).Some? {
      LookupIsTheMatch(TrimSpace(raw), Exact("String"));
    }
  }

  /** A reference keeps its object name: `kind.X` becomes the kind's label followed by `X`. */
  lemma ReferenceRewrite(kind: string, suffix: string)
    requires IsKey(Ref(kind))
    requires suffix != [] && '\n' !in suffix && !IsSpace(suffix[|suffix| - 1])
    ensures ConvertType(kind + "." + suffix) == Table(Ref(kind)).value + suffix
  {
    TableWellFormed();
    var s := kind + "." + suffix;
    assert s[0] == kind[0];
    TrimSpaceOfTrimmed(s);
    assert s[..|kind|] == kind && s[|kind| + 1..] == suffix;
    ConvertTypeMatched(s, Ref(kind));
  }

  /**
   * A reference kind with nothing after its dot is returned as it is: the
   * `(.+)` group needs at least one character, and no other key matches.
   */
  lemma BareKindPassesThrough(kind: string)
    requires IsKey(Ref(kind))
    ensures ConvertType(kind + ".") == kind + "."
  {
    TableWellFormed();
    var s := kind + ".";
    assert s[0] == kind[0];
    TrimSpaceOfTrimmed(s);
    ConvertTypeUnmatched(s);
  }

  /** The platform and XML Schema spellings of the same primitive share a label. */
  lemma SchemaSpellingsShareLabels()
    ensures Table(Exact("xs:string")) == Table(Exact("String")) == Some("Строка")
    ensures Table(Exact("xs:boolean")) == Table(Exact("Boolean")) == Some("Булево")
    ensures Table(Exact("xs:date")) == Table(Exact("Date")) == Some("Дата")
    ensures Table(Exact("xs:decimal")) == Table(Exact("xs:double")) == Table(Exact("Number")) == Some("Число")
    ensures Table(Exact("xs:int")) == Table(Exact("xs:integer")) == Table(Exact("Number"))
    ensures Table(Exact("xs:dateTime")) == Some("ДатаВремя") != Table(Exact("xs:date"))
  {
  }

  lemma PrimitiveExamples()
    ensures ConvertType("xs:int") == "Число"
    ensures ConvertType("Boolean") == "Булево"
  {
    ConvertTypeMatched("xs:int", Exact("xs:int"));
    ConvertTypeMatched("Boolean", Exact("Boolean"));
  }

  /** No key matches a name that starts with a Cyrillic letter. */
  lemma CyrillicMatchesNothing(s: string)
    requires IsCyrillicStart(s)
    ensures forall p :: IsKey(p) ==> !Matches(p, s)
  {
    TableWellFormed();
  }

  /** A rewrite of a trimmed name starts with a Cyrillic letter and is itself trimmed. */
  lemma RewriteShape(p: Pattern, t: string)
    requires IsKey(p) && Matches(p, t) && !IsSpace(t[|t| - 1])
    ensures var r := Rewrite(p, Table(p).value, t);
      IsCyrillicStart(r) && !IsSpace(r[|r| - 1])
  {
    TableWellFormed();
  }

  /** A trimmed name that starts with a Cyrillic letter converts to itself. */
  lemma CyrillicIsFixed(r: string)
    requires IsCyrillicStart(r) && !IsSpace(r[|r| - 1])
    ensures ConvertType(r) == r
  {
    TrimSpaceOfTrimmed(r);
    CyrillicMatchesNothing(r);
    ConvertTypeUnmatched(r);
  }

  /** A trimmed name that no key matches converts to itself. */
  lemma UnmatchedIsFixed(t: string)
    requires t != [] && !IsSpace(t[0]) && !IsSpace(t[|t| - 1]) && Lookup(t).None?
    ensures ConvertType(t) == t
  {
    forall p | IsKey(p) ensures !Matches(p, t) {
      LookupIsTheMatch(t, p);
    }
    TrimSpaceOfTrimmed(t);
    ConvertTypeUnmatched(t);
  }

  /** A converted name that some key matched is a fixed point. */
  lemma MatchedIsFixed(raw: string)
    requires TrimSpace(raw) != "" && Lookup(TrimSpace(raw)).Some?
    ensures ConvertType(ConvertType(raw)) == ConvertType(raw)
  {
    var t := TrimSpace(raw);
    var q :| IsKey(q) && Matches(q, t) by { LookupIsTheMatch(t, Exact("String")); }
    ConvertTypeMatched(raw, q);
    RewriteShape(q, t);
    CyrillicIsFixed(Rewrite(q, Table(q).value, t));
  }

  /** A converted name is a fixed point: replacements start in Cyrillic, which no pattern does, and are trimmed. */
  lemma ConvertTypeIdempotent(raw: string)
    ensures ConvertType(ConvertType(raw)) == ConvertType(raw)
  {
    var t := TrimSpace(raw);
    if t != "" {
      if Lookup(t).None? {
        UnmatchedIsFixed(t);
      } else {
        MatchedIsFixed(raw);
      }
    }
  }

  /** `ConvertTypes` as a value: each name converted, order and length kept. */
  function ConvertAll(types: seq<string>): (r: seq<string>)
    ensures |r| == |types|
    ensures forall i :: 0 <= i < |types| ==> r[i] == ConvertType(types[i])
  {
    seq(|types|, i requires 0 <= i < |types| => ConvertType(types[i]))
  }

  /** `ConvertTypes`: fills a fresh slice of the same length, element by element. */
  method ConvertTypes(types: seq<string>) returns (converted: seq<string>)
    ensures converted == ConvertAll(types)
  {
    var out := new string[|types|];
    for i := 0 to |types|
      invariant forall k :: 0 <= k < i ==> out[k] == ConvertType(types[k])
    {
      out[i] := ConvertType(types[i]);
    }
    converted := out[..];
  }

  /** Converting a list twice is converting it once. */
  lemma ConvertAllIdempotent(types: seq<string>)
    ensures ConvertAll(ConvertAll(types)) == ConvertAll(types)
  {
    forall i | 0 <= i < |types|
      ensures ConvertType(ConvertType(types[i])) == ConvertType(types[i])
    {
      ConvertTypeIdempotent(types[i]);
    }
  }
}
