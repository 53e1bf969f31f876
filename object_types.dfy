/**
 * The `--types` option (cmd/root.go, `parseObjectTypes`): a comma-separated
 * list of plural, lower-case kind names.
 */
module ObjectTypes {
  import opened Wrappers
  import opened Strings
  import opened Model

  /** The `switch` on a trimmed name; matching is exact and case-sensitive. */
  function KindNamed(name: string): Option<ObjectType> {
    match name
    case "documents" => Some(Document)
    case "catalogs" => Some(Catalog)
    case "accumulationregisters" => Some(AccumulationRegister)
    case "informationregisters" => Some(InformationRegister)
    case "enums" => Some(Enum)
    case "chartsofcharacteristictypes" => Some(ChartOfCharacteristicTypes)
    case _ => None
  }

  /** The loop over the pieces: each trimmed and mapped in order, the first unknown name aborting with that name. */
  function KindsOf(pieces: seq<string>): Result<seq<ObjectType>, string>
  {
    if |pieces| == 0 then Ok([])
    else match KindNamed(TrimSpace(pieces[0]))
      case None => Err(TrimSpace(pieces[0]))
      case Some(kind) => Prepend([kind], KindsOf(pieces[1..]))
  }

  /** What `parseObjectTypes` returns; the error carries the name it did not recognise. */
  function ParsedTypes(typesStr: string): Result<seq<ObjectType>, string> {
    if typesStr == "" then Ok([Document]) else KindsOf(Split(typesStr, ','))
  }

  /** `parseObjectTypes`. */
  method ParseObjectTypes(typesStr: string) returns (r: Result<seq<ObjectType>, string>)
    ensures r == ParsedTypes(typesStr)
  {
    if typesStr == "" {
      return Ok([Document]);
    }
    var typeNames := Split(typesStr, ',');
    var objectTypes := [];
    assert typeNames[0..] == typeNames;
    PrependNothing(KindsOf(typeNames));
    for i := 0 to |typeNames|
      invariant KindsOf(typeNames) == Prepend(objectTypes, KindsOf(typeNames[i..]))
    {
      assert typeNames[i..][0] == typeNames[i] && typeNames[i..][1..] == typeNames[i + 1..];
      var typeName := TrimSpace(typeNames[i]);
      var kind := KindNamed(typeName);
      if kind.None? {
        return Err(typeName);
      }
      PrependTwice(objectTypes, [kind.value], KindsOf(typeNames[i + 1..]));
      objectTypes := objectTypes + [kind.value];
    }
    assert typeNames[|typeNames|..] == [] && objectTypes + [] == objectTypes;
    return Ok(objectTypes);
  }

  /** The six names denote six different kinds, and only the six kinds that have a parser. */
  lemma KindNamedInjective(a: string, b: string)
    requires KindNamed(a).Some? && KindNamed(a) == KindNamed(b)
    ensures a == b
    ensures KindNamed(a).value in {Document, Catalog, AccumulationRegister, InformationRegister, Enum, ChartOfCharacteristicTypes}
  {
  }

  /**
   * On success there is one kind per piece, in order and with duplicates
   * kept; there is an error exactly when some trimmed piece is not one of
   * the six names.
   */
  lemma {:induction false} KindsOfMeaning(pieces: seq<string>)
    ensures KindsOf(pieces).Ok? ==>
      |KindsOf(pieces).value| == |pieces|
      && forall i :: 0 <= i < |pieces| ==> KindNamed(TrimSpace(pieces[i])) == Some(KindsOf(pieces).value[i])
    ensures KindsOf(pieces).Err? <==> exists i :: 0 <= i < |pieces| && KindNamed(TrimSpace(pieces[i])).None?
    decreases |pieces|
  {
    if |pieces| > 0 {
      KindsOfMeaning(pieces[1..]);
      assert forall i :: 1 <= i < |pieces| ==> pieces[1..][i - 1] == pieces[i];
    }
  }

  /** One piece: its kind, or its trimmed text as the error. */
  lemma OnePiece(a: string)
    ensures KindsOf([a]) == match KindNamed(TrimSpace(a))
      case Some(k) => Ok([k])
      case None => Err(TrimSpace(a))
  {
    assert [a][0] == a && [a][1..] == [];
    match KindNamed(TrimSpace(a))
    case Some(k) =>
      assert KindsOf([a]) == Prepend([k], Ok([]));
      assert [k] + [] == [k];
    case None =>
  }

  /** Two names separated by a comma are two pieces. */
  lemma TwoPieces(a: string, b: string)
    requires ',' !in a && ',' !in b
    ensures ParsedTypes(a + "," + b) == Then(KindsOf([a]), KindsOf([b]))
  {
    JoinTwo(a, b, ",");
    SplitJoin([a, b], ',');
    assert |a + "," + b| > 0;
    assert [a, b][0] == a && [a, b][1..] == [b];
    OnePiece(a);
  }

  lemma ParseEmpty()
    ensures ParsedTypes("") == Ok([Document])
  {
  }

  /** A lower-case plural name is recognised, with or without space around it. */
  lemma SingleNames(docs: string, cats: string)
    requires docs == "documents" && cats == " catalogs"
    ensures KindsOf([docs]) == Ok([Document])
    ensures KindsOf([cats]) == Ok([Catalog])
  {
    TrimSpaceOfTrimmed(docs);
    assert TrimSpace(cats) == "catalogs" by {
      TrimLeftFacts(cats);
      assert cats[1..] == "catalogs";
      TrimSpaceOfTrimmed(cats[1..]);
    }
    OnePiece(docs);
    OnePiece(cats);
  }

  /** Duplicates are kept, and space around a name is ignored. */
  lemma ParseTwoNames(docs: string, cats: string)
    requires docs == "documents" && cats == " catalogs"
    ensures ParsedTypes(docs + "," + cats) == Ok([Document, Catalog])
    ensures ParsedTypes(docs + "," + docs) == Ok([Document, Document])
  {
    SingleNames(docs, cats);
    TwoPieces(docs, cats);
    TwoPieces(docs, docs);
    assert [Document] + [Catalog] == [Document, Catalog];
    assert [Document] + [Document] == [Document, Document];
  }

  /** A name in the wrong case, or the empty piece after a trailing comma, is an error. */
  lemma ParseRejects(docs: string, bad: string, empty: string)
    requires docs == "documents" && bad == "Documents" && empty == ""
    ensures ParsedTypes(docs + "," + bad) == Err(bad)
    ensures ParsedTypes(docs + "," + empty) == Err(empty)
  {
    TrimSpaceOfTrimmed(docs);
    TrimSpaceOfTrimmed(bad);
    TrimSpaceOfTrimmed(empty);
    OnePiece(docs);
    OnePiece(bad);
    OnePiece(empty);
    TwoPieces(docs, bad);
    TwoPieces(docs, empty);
  }

  /** A comma-free list of pieces, joined by commas, is parsed piece by piece. */
  lemma ParsedJoin(pieces: seq<string>)
    requires |pieces| >= 1 && forall i :: 0 <= i < |pieces| ==> ',' !in pieces[i]
    requires Join(pieces, ",") != ""
    ensures ParsedTypes(Join(pieces, ",")) == KindsOf(pieces)
  {
    SplitJoin(pieces, ',');
  }

  /** A trimmed name on its own. */
  lemma NameKind(p: string, kind: ObjectType)
    requires p == [] || (!IsSpace(p[0]) && !IsSpace(p[|p| - 1]))
    requires KindNamed(p) == Some(kind)
    ensures KindNamed(TrimSpace(p)) == Some(kind)
  {
    TrimSpaceOfTrimmed(p);
  }

  /**
   * The test table of `parseObjectTypes`: all six names, joined by commas
   * into "documents,catalogs,...,chartsofcharacteristictypes", give all six
   * kinds in order.
   */
  lemma TestVectorAll(d: string, c: string, a: string, i: string, e: string, ch: string)
    requires d == "documents" && c == "catalogs" && a == "accumulationregisters"
    requires i == "informationregisters" && e == "enums" && ch == "chartsofcharacteristictypes"
    ensures ParsedTypes(Join([d, c, a, i, e, ch], ",")) == Ok([Document, Catalog, AccumulationRegister, InformationRegister, Enum, ChartOfCharacteristicTypes])
  {
    assert KindNamed(TrimSpace(d)) == Some(Document) && ',' !in d by { NameKind(d, Document); }
    assert KindNamed(TrimSpace(c)) == Some(Catalog) && ',' !in c by { NameKind(c, Catalog); }
    assert KindNamed(TrimSpace(a)) == Some(AccumulationRegister) && ',' !in a by { NameKind(a, AccumulationRegister); }
    assert KindNamed(TrimSpace(i)) == Some(InformationRegister) && ',' !in i by { NameKind(i, InformationRegister); }
    assert KindNamed(TrimSpace(e)) == Some(Enum) && ',' !in e by { NameKind(e, Enum); }
    assert KindNamed(TrimSpace(ch)) == Some(ChartOfCharacteristicTypes) && ',' !in ch by { NameKind(ch, ChartOfCharacteristicTypes); }
    SixKinds(d, c, a, i, e, ch);
  }

  /** Six recognised, comma-free names, joined by commas, give their six kinds. */
  lemma SixKinds(d: string, c: string, a: string, i: string, e: string, ch: string)
    requires KindNamed(TrimSpace(d)) == Some(Document) && KindNamed(TrimSpace(c)) == Some(Catalog)
    requires KindNamed(TrimSpace(a)) == Some(AccumulationRegister) && KindNamed(TrimSpace(i)) == Some(InformationRegister)
    requires KindNamed(TrimSpace(e)) == Some(Enum) && KindNamed(TrimSpace(ch)) == Some(ChartOfCharacteristicTypes)
    requires ',' !in d && ',' !in c && ',' !in a && ',' !in i && ',' !in e && ',' !in ch && d != ""
    ensures ParsedTypes(Join([d, c, a, i, e, ch], ",")) == Ok([Document, Catalog, AccumulationRegister, InformationRegister, Enum, ChartOfCharacteristicTypes])
  {
    var names := [d, c, a, i, e, ch];
    var kinds := [Document, Catalog, AccumulationRegister, InformationRegister, Enum, ChartOfCharacteristicTypes];
    assert forall k :: 0 <= k < |names| ==> KindNamed(TrimSpace(names[k])) == Some(kinds[k]);
    KindsOfMeaning(names);
    assert KindsOf(names).value == kinds;
    assert Join(names, ",") != "" by {
      JoinCons(d, names[1..], ",");
      assert names == [d] + names[1..];
    }
    ParsedJoin(names);
  }

  /** The test table of `parseObjectTypes`: two names give both kinds, and one name its kind. */
  lemma TestVectorsAccepted(valid: string, single: string)
    requires valid == "documents,catalogs" && single == "enums"
    ensures ParsedTypes(valid) == Ok([Document, Catalog])
    ensures ParsedTypes(single) == Ok([Enum])
  {
    var docs, cats := "documents", "catalogs";
    assert ParsedTypes(valid) == Ok([Document, Catalog]) by {
      TrimSpaceOfTrimmed(docs);
      TrimSpaceOfTrimmed(cats);
      OnePiece(docs);
      OnePiece(cats);
      assert valid == docs + "," + cats;
      TwoPieces(docs, cats);
      assert [Document] + [Catalog] == [Document, Catalog];
    }
    TrimSpaceOfTrimmed(single);
    OnePiece(single);
    SplitJoin([single], ',');
  }

  /** The test table of `parseObjectTypes`: an unknown name fails, alone or after a valid one. */
  lemma TestVectorsRejected(invalid: string, mixed: string)
    requires invalid == "invalidtype" && mixed == "documents,invalidtype"
    ensures ParsedTypes(invalid) == Err(invalid)
    ensures ParsedTypes(mixed) == Err(invalid)
  {
    var docs := "documents";
    assert KindsOf([invalid]) == Err(invalid) by {
      TrimSpaceOfTrimmed(invalid);
      OnePiece(invalid);
    }
    assert ParsedTypes(invalid) == Err(invalid) by {
      SplitJoin([invalid], ',');
    }
    assert KindsOf([docs]) == Ok([Document]) by {
      TrimSpaceOfTrimmed(docs);
      OnePiece(docs);
    }
    assert mixed == docs + "," + invalid;
    TwoPieces(docs, invalid);
  }
}
