/**
 * The text normaliser the tests compare documents with
 * (pkg/testutil/normalize.go): drop a leading byte-order mark, turn CRLF and
 * lone CR into LF, trim spaces and tabs at line ends, collapse runs of empty
 * lines into one, and drop empty lines at both ends.
 */
module TextNormalize {
  import opened Strings

  /** U+FEFF, the byte-order mark. */
  const Bom: char := '\U{FEFF}'

  /** `strings.ReplaceAll(s, "\r\n", "\n")`: leftmost matches, never overlapping. */
  function ReplaceCrLf(s: string): string
  {
    if |s| == 0 then ""
    else if |s| >= 2 && s[0] == '\r' && s[1] == '\n' then "\n" + ReplaceCrLf(s[2..])
    else [s[0]] + ReplaceCrLf(s[1..])
  }

  /** `strings.ReplaceAll(s, "\r", "\n")`. */
  function ReplaceCr(s: string): (r: string)
    ensures |r| == |s|
    ensures forall k :: 0 <= k < |s| ==> r[k] == if s[k] == '\r' then '\n' else s[k]
  {
    seq(|s|, k requires 0 <= k < |s| => if s[k] == '\r' then '\n' else s[k])
  }

  /** The text before it is cut into lines: one mark removed, line ends unified. */
  function Unified(s: string): string {
    ReplaceCr(ReplaceCrLf(TrimPrefix(s, [Bom])))
  }

  predicate IsBlank(c: char) {
    c == ' ' || c == '\t'
  }

  predicate EndsBlank(ln: string) {
    |ln| > 0 && IsBlank(ln[|ln| - 1])
  }

  /** `strings.TrimRight(ln, " \t")`. */
  function TrimBlanks(ln: string): string
  {
    if EndsBlank(ln) then TrimBlanks(ln[..|ln| - 1]) else ln
  }

  /** The trimmed line is a prefix of the line, does not end in a blank, and only blanks were removed. */
  lemma {:induction false} TrimBlanksFacts(ln: string)
    ensures |TrimBlanks(ln)| <= |ln| && TrimBlanks(ln) == ln[..|TrimBlanks(ln)|]
    ensures !EndsBlank(TrimBlanks(ln))
    ensures forall k :: |TrimBlanks(ln)| <= k < |ln| ==> IsBlank(ln[k])
    decreases |ln|
  {
    if EndsBlank(ln) {
      TrimBlanksFacts(ln[..|ln| - 1]);
    }
  }

  /**
   * The lines the first loop appends to `out`: every line trimmed, except
   * that an empty line right after an empty line is skipped.
   */
  function Kept(lines: seq<string>): seq<string>
  {
    if |lines| == 0 then []
    else
      var n := |lines|;
      var ln := TrimBlanks(lines[n - 1]);
      if ln == "" && n >= 2 && TrimBlanks(lines[n - 2]) == "" then Kept(lines[..n - 1])
      else Kept(lines[..n - 1]) + [ln]
  }

  lemma KeptStep(lines: seq<string>, i: int)
    requires 0 <= i < |lines|
    ensures Kept(lines[..i + 1]) ==
      if TrimBlanks(lines[i]) == "" && i >= 1 && TrimBlanks(lines[i - 1]) == "" then Kept(lines[..i])
      else Kept(lines[..i]) + [TrimBlanks(lines[i])]
  {
    assert lines[..i + 1][..i] == lines[..i];
  }

  /** The second loop: empty lines popped from the front. */
  function DropLeadingEmpty(xs: seq<string>): seq<string>
  {
    if |xs| > 0 && xs[0] == "" then DropLeadingEmpty(xs[1..]) else xs
  }

  /** The third loop: empty lines popped from the back. */
  function DropTrailingEmpty(xs: seq<string>): seq<string>
  {
    if |xs| > 0 && xs[|xs| - 1] == "" then DropTrailingEmpty(xs[..|xs| - 1]) else xs
  }

  /** The lines of the normalised text. */
  function Lines(s: string): seq<string> {
    DropTrailingEmpty(DropLeadingEmpty(Kept(Split(Unified(s), '\n'))))
  }

  /** What `Normalize` returns. */
  function Normalized(s: string): string {
    Join(Lines(s), "\n")
  }

  /** `Normalize`. */
  method Normalize(s: string) returns (r: string)
    ensures r == Normalized(s)
  {
    var t := TrimPrefix(s, [Bom]);
    t := ReplaceCrLf(t);
    t := ReplaceCr(t);

    var lines := Split(t, '\n');
    var out: seq<string> := [];
    var emptySeq := 0;
    for i := 0 to |lines|
      invariant out == Kept(lines[..i])
      invariant i > 0 && TrimBlanks(lines[i - 1]) == "" ==> emptySeq >= 1
      invariant i == 0 || TrimBlanks(lines[i - 1]) != "" ==> emptySeq == 0
    {
      KeptStep(lines, i);
      var ln := TrimBlanks(lines[i]);
      if ln == "" {
        emptySeq := emptySeq + 1;
        if emptySeq > 1 {
          continue;
        }
      } else {
        emptySeq := 0;
      }
      out := out + [ln];
    }
    assert lines[..|lines|] == lines;

    ghost var kept := out;
    while |out| > 0 && out[0] == ""
      invariant DropLeadingEmpty(out) == DropLeadingEmpty(kept)
    {
      out := out[1..];
    }
    ghost var led := out;
    while |out| > 0 && out[|out| - 1] == ""
      invariant DropTrailingEmpty(out) == DropTrailingEmpty(led)
    {
      out := out[..|out| - 1];
    }
    r := Join(out, "\n");
  }

  /* ---- What the normalised lines are like ---- */

  /** A line as the output may hold it: no line end, no carriage return, no trailing blank. */
  predicate CleanLine(ln: string) {
    '\n' !in ln && '\r' !in ln && !EndsBlank(ln)
  }

  predicate AllClean(xs: seq<string>) {
    forall i :: 0 <= i < |xs| ==> CleanLine(xs[i])
  }

  /** No two neighbouring lines are both empty. */
  predicate NoDoubleEmpty(xs: seq<string>) {
    forall i :: 0 <= i < |xs| - 1 ==> xs[i] != "" || xs[i + 1] != ""
  }

  /** The unified text has no carriage return. */
  lemma UnifiedHasNoCr(s: string)
    ensures '\r' !in Unified(s)
  {
    var u := Unified(s);
    assert forall k :: 0 <= k < |u| ==> u[k] != '\r';
  }

  /** Every kept line is the trimmed form of some input line. */
  lemma {:induction false} KeptFrom(lines: seq<string>)
    ensures forall x :: x in Kept(lines) ==> exists j :: 0 <= j < |lines| && x == TrimBlanks(lines[j])
    decreases |lines|
  {
    if |lines| > 0 {
      var init := lines[..|lines| - 1];
      KeptFrom(init);
      forall x | x in Kept(lines)
        ensures exists j :: 0 <= j < |lines| && x == TrimBlanks(lines[j])
      {
        if x in Kept(init) {
          var j :| 0 <= j < |init| && x == TrimBlanks(init[j]);
          assert lines[j] == init[j];
        } else {
          assert x == TrimBlanks(lines[|lines| - 1]);
        }
      }
    }
  }

  /** Lines of a carriage-return-free text, trimmed, are clean. */
  lemma KeptClean(u: string)
    requires '\r' !in u
    ensures AllClean(Kept(Split(u, '\n')))
  {
    var lines := Split(u, '\n');
    SplitFacts(u, '\n');
    SplitAvoids(u, '\n', '\r');
    KeptFrom(lines);
    var kept := Kept(lines);
    forall i | 0 <= i < |kept|
      ensures CleanLine(kept[i])
    {
      assert kept[i] in kept;
      var j :| 0 <= j < |lines| && kept[i] == TrimBlanks(lines[j]);
      TrimBlanksFacts(lines[j]);
      assert forall c :: c in kept[i] ==> c in lines[j];
    }
  }

  /** The last kept line is empty exactly when the last input line trims to empty. */
  lemma {:induction false} KeptLast(lines: seq<string>)
    requires |lines| >= 1
    ensures |Kept(lines)| >= 1
    ensures Kept(lines)[|Kept(lines)| - 1] == "" <==> TrimBlanks(lines[|lines| - 1]) == ""
    decreases |lines|
  {
    var n := |lines|;
    if n >= 2 && TrimBlanks(lines[n - 1]) == "" && TrimBlanks(lines[n - 2]) == "" {
      var init := lines[..n - 1];
      KeptLast(init);
      assert init[|init| - 1] == lines[n - 2];
    }
  }

  /** The first loop never keeps two empty lines in a row. */
  lemma {:induction false} KeptNoDoubleEmpty(lines: seq<string>)
    ensures NoDoubleEmpty(Kept(lines))
    decreases |lines|
  {
    var n := |lines|;
    if n > 0 {
      var init := lines[..n - 1];
      KeptNoDoubleEmpty(init);
      if n >= 2 {
        KeptLast(init);
        assert init[|init| - 1] == lines[n - 2];
      }
    }
  }

  /** Popping from the front leaves a suffix, and an empty result or a non-empty first line. */
  lemma {:induction false} DropLeadingFacts(xs: seq<string>) returns (k: int)
    ensures 0 <= k <= |xs| && DropLeadingEmpty(xs) == xs[k..]
    ensures |DropLeadingEmpty(xs)| == 0 || DropLeadingEmpty(xs)[0] != ""
    decreases |xs|
  {
    if |xs| > 0 && xs[0] == "" {
      var j := DropLeadingFacts(xs[1..]);
      assert xs[1..][j..] == xs[j + 1..];
      k := j + 1;
    } else {
      assert xs[0..] == xs;
      k := 0;
    }
  }

  /** Popping from the back leaves a prefix, and an empty result or a non-empty last line. */
  lemma {:induction false} DropTrailingFacts(xs: seq<string>) returns (k: int)
    ensures 0 <= k <= |xs| && DropTrailingEmpty(xs) == xs[..k]
    ensures |DropTrailingEmpty(xs)| == 0 || DropTrailingEmpty(xs)[|DropTrailingEmpty(xs)| - 1] != ""
    decreases |xs|
  {
    if |xs| > 0 && xs[|xs| - 1] == "" {
      k := DropTrailingFacts(xs[..|xs| - 1]);
      assert xs[..|xs| - 1][..k] == xs[..k];
    } else {
      assert xs[..|xs|] == xs;
      k := |xs|;
    }
  }

  /** A run of clean lines without two empty neighbours keeps both properties. */
  lemma SliceShape(xs: seq<string>, a: int, b: int)
    requires AllClean(xs) && NoDoubleEmpty(xs)
    requires 0 <= a <= b <= |xs|
    ensures AllClean(xs[a..b]) && NoDoubleEmpty(xs[a..b])
  {
    assert forall i :: 0 <= i < b - a ==> xs[a..b][i] == xs[a + i];
  }

  /**
   * The normalised lines are clean, never two empty ones in a row, and the
   * first and the last are not empty.
   */
  lemma LinesShape(s: string)
    ensures AllClean(Lines(s))
    ensures NoDoubleEmpty(Lines(s))
    ensures |Lines(s)| == 0 || (Lines(s)[0] != "" && Lines(s)[|Lines(s)| - 1] != "")
  {
    var kept := Kept(Split(Unified(s), '\n'));
    UnifiedHasNoCr(s);
    KeptClean(Unified(s));
    KeptNoDoubleEmpty(Split(Unified(s), '\n'));
    var led := DropLeadingEmpty(kept);
    var a := DropLeadingFacts(kept);
    var k := DropTrailingFacts(led);
    assert Lines(s) == led[..k];
    assert kept[a..][..k] == kept[a..a + k];
    SliceShape(kept, a, a + k);
    if |Lines(s)| > 0 {
      assert Lines(s)[0] == led[0];
    }
  }

  /**
   * Read back line by line, the normalised text gives the normalised lines:
   * no line ends in a space or a tab, no two empty lines follow each other,
   * and neither the first nor the last line is empty.
   */
  lemma NormalizedLines(s: string)
    requires |Lines(s)| >= 1
    ensures Split(Normalized(s), '\n') == Lines(s)
  {
    LinesShape(s);
    SplitJoin(Lines(s), '\n');
  }

  /** The normalised text holds no carriage return, and is empty when there are no lines. */
  lemma NormalizedHasNoCr(s: string)
    ensures '\r' !in Normalized(s)
    ensures |Lines(s)| == 0 ==> Normalized(s) == ""
  {
    LinesShape(s);
    JoinAvoids(Lines(s), "\n", '\r');
  }

  /* ---- The non-empty lines survive, in order ---- */

  /** The non-empty lines of `xs`, in order. */
  function NonEmpty(xs: seq<string>): seq<string>
  {
    if |xs| == 0 then []
    else (if xs[0] == "" then [] else [xs[0]]) + NonEmpty(xs[1..])
  }

  lemma {:induction false} NonEmptyAppend(a: seq<string>, b: seq<string>)
    ensures NonEmpty(a + b) == NonEmpty(a) + NonEmpty(b)
    decreases |a|
  {
    if |a| > 0 {
      assert (a + b)[1..] == a[1..] + b;
      NonEmptyAppend(a[1..], b);
    } else {
      assert a + b == b;
    }
  }

  /** Every line trimmed. */
  function TrimAll(lines: seq<string>): (r: seq<string>)
    ensures |r| == |lines|
    ensures forall i :: 0 <= i < |lines| ==> r[i] == TrimBlanks(lines[i])
  {
    seq(|lines|, i requires 0 <= i < |lines| => TrimBlanks(lines[i]))
  }

  /** The first loop drops only empty lines. */
  lemma {:induction false} KeptKeepsNonEmpty(lines: seq<string>)
    ensures NonEmpty(Kept(lines)) == NonEmpty(TrimAll(lines))
    decreases |lines|
  {
    if |lines| > 0 {
      var n := |lines|;
      var init := lines[..n - 1];
      var ln := TrimBlanks(lines[n - 1]);
      KeptKeepsNonEmpty(init);
      assert TrimAll(lines) == TrimAll(init) + [ln];
      NonEmptyAppend(TrimAll(init), [ln]);
      NonEmptyAppend(Kept(init), [ln]);
      assert NonEmpty([ln]) == (if ln == "" then [] else [ln]) by {
        assert [ln][1..] == [];
      }
    }
  }

  lemma {:induction false} DropLeadingKeepsNonEmpty(xs: seq<string>)
    ensures NonEmpty(DropLeadingEmpty(xs)) == NonEmpty(xs)
    decreases |xs|
  {
    if |xs| > 0 && xs[0] == "" {
      DropLeadingKeepsNonEmpty(xs[1..]);
    }
  }

  lemma {:induction false} DropTrailingKeepsNonEmpty(xs: seq<string>)
    ensures NonEmpty(DropTrailingEmpty(xs)) == NonEmpty(xs)
    decreases |xs|
  {
    if |xs| > 0 && xs[|xs| - 1] == "" {
      var init := xs[..|xs| - 1];
      DropTrailingKeepsNonEmpty(init);
      assert xs == init + [""];
      NonEmptyAppend(init, [""]);
      assert NonEmpty([""]) == [] by {
        assert [""][1..] == [];
      }
    }
  }

  /**
   * The non-empty normalised lines are exactly the input's lines (after the
   * line-end unification) that are not empty once trimmed, trimmed, in their
   * order.
   */
  lemma NonEmptyLinesKept(s: string)
    ensures NonEmpty(Lines(s)) == NonEmpty(TrimAll(Split(Unified(s), '\n')))
  {
    var lines := Split(Unified(s), '\n');
    KeptKeepsNonEmpty(lines);
    DropLeadingKeepsNonEmpty(Kept(lines));
    DropTrailingKeepsNonEmpty(DropLeadingEmpty(Kept(lines)));
  }

  /** Only one mark is removed: a second one stays in the text. */
  lemma OneBomRemoved(t: string)
    ensures TrimPrefix([Bom] + t, [Bom]) == t
    ensures TrimPrefix([Bom, Bom] + t, [Bom]) == [Bom] + t
  {
    assert ([Bom] + t)[..1] == [Bom];
    assert ([Bom, Bom] + t)[..1] == [Bom];
    assert ([Bom, Bom] + t)[1..] == [Bom] + t;
  }

  /* ---- The test vectors ---- */

  /** `ReplaceCrLf` changes nothing in a text without carriage returns. */
  lemma {:induction false} ReplaceCrLfNoCr(s: string)
    requires '\r' !in s
    ensures ReplaceCrLf(s) == s
    decreases |s|
  {
    if |s| > 0 {
      assert s[0] != '\r';
      ReplaceCrLfNoCr(s[1..]);
      assert s == [s[0]] + s[1..];
    }
  }

  /** A text without a mark and without carriage returns is already unified. */
  lemma UnifiedPlain(s: string)
    requires '\r' !in s && (|s| == 0 || s[0] != Bom)
    ensures Unified(s) == s
  {
    ReplaceCrLfNoCr(s);
    assert !HasPrefix(s, [Bom]);
  }

  /** A CRLF after a carriage-return-free line becomes one line feed. */
  lemma {:induction false} ReplaceCrLfLine(a: string, b: string)
    requires '\r' !in a
    ensures ReplaceCrLf(a + "\r\n" + b) == a + "\n" + ReplaceCrLf(b)
    decreases |a|
  {
    if |a| == 0 {
      assert a + "\r\n" + b == "\r\n" + b;
      assert ("\r\n" + b)[2..] == b;
    } else {
      assert a[0] != '\r';
      assert (a + "\r\n" + b)[1..] == a[1..] + "\r\n" + b;
      ReplaceCrLfLine(a[1..], b);
      assert a == [a[0]] + a[1..];
    }
  }

  lemma ReplaceCrNoCr(s: string)
    requires '\r' !in s
    ensures ReplaceCr(s) == s
  {
  }

  lemma VectorEmpty(s: string)
    requires s == ""
    ensures Normalized(s) == ""
  {
    UnifiedPlain(s);
    assert Split(s, '\n') == [""];
    assert Kept([""]) == [""];
  }

  /** Blank-line collapsing on the lines of "x\n\n\n\n y\n". */
  lemma CollapseExample(parts: seq<string>)
    requires parts == ["x", "", "", "", " y", ""]
    ensures Kept(parts) == ["x", "", " y", ""]
  {
    assert parts[..0] == [];
    KeptStep(parts, 0);
    KeptStep(parts, 1);
    KeptStep(parts, 2);
    KeptStep(parts, 3);
    assert TrimBlanks(" y") == " y";
    KeptStep(parts, 4);
    KeptStep(parts, 5);
    assert parts[..6] == parts;
  }

  lemma BlankRunJoin(parts: seq<string>)
    requires parts == ["x", "", "", "", " y", ""]
    ensures Join(parts, "\n") == "x\n\n\n\n y\n"
  {
    JoinTwo(" y", "", "\n");
    JoinCons("", [" y", ""], "\n");
    JoinCons("", ["", " y", ""], "\n");
    JoinCons("", ["", "", " y", ""], "\n");
    JoinCons("x", ["", "", "", " y", ""], "\n");
    assert ["x"] + ["", "", "", " y", ""] == parts;
  }

  lemma SplitExample(s: string)
    requires s == "x\n\n\n\n y\n"
    ensures Split(Unified(s), '\n') == ["x", "", "", "", " y", ""]
  {
    UnifiedPlain(s);
    BlankRunJoin(["x", "", "", "", " y", ""]);
    SplitJoin(["x", "", "", "", " y", ""], '\n');
  }

  lemma VectorBlankRun(s: string)
    requires s == "x\n\n\n\n y\n"
    ensures Normalized(s) == "x\n\n y"
  {
    SplitExample(s);
    CollapseExample(["x", "", "", "", " y", ""]);
    var kept := ["x", "", " y", ""];
    assert DropLeadingEmpty(kept) == kept;
    assert kept[..3] == ["x", "", " y"];
    assert DropTrailingEmpty(kept) == ["x", "", " y"];
    assert Join(["x", "", " y"], "\n") == "x" + "\n" + ("" + "\n" + " y");
  }

  lemma SplitCrExample(s: string)
    requires s == "a b\r\n  \r\n"
    ensures Split(Unified(s), '\n') == ["a b", "  ", ""]
  {
    assert s[..1][0] == s[0] == 'a';
    assert !HasPrefix(s, [Bom]);
    assert s == "a b" + "\r\n" + ("  " + "\r\n" + "");
    ReplaceCrLfLine("a b", "  " + "\r\n" + "");
    ReplaceCrLfLine("  ", "");
    var u := "a b" + "\n" + ("  " + "\n" + "");
    ReplaceCrNoCr(u);
    var parts := ["a b", "  ", ""];
    JoinTwo("  ", "", "\n");
    JoinCons("a b", ["  ", ""], "\n");
    assert ["a b"] + ["  ", ""] == parts;
    SplitJoin(parts, '\n');
  }

  lemma VectorCrTrailingBlanks(s: string)
    requires s == "a b\r\n  \r\n"
    ensures Normalized(s) == "a b"
  {
    SplitCrExample(s);
    var parts := ["a b", "  ", ""];
    assert TrimBlanks("  ") == "";
    assert parts[..0] == [];
    KeptStep(parts, 0);
    KeptStep(parts, 1);
    KeptStep(parts, 2);
    assert parts[..3] == parts;
    var kept := ["a b", ""];
    assert Kept(parts) == kept;
    assert kept[..1] == ["a b"];
  }

  lemma BomStripped(s: string)
    requires s == "\U{FEFF}line1\r\n\r\nline2\r\n"
    ensures TrimPrefix(s, [Bom]) == "line1" + "\r\n" + ("" + "\r\n" + ("line2" + "\r\n" + ""))
  {
    assert s[..1] == [Bom];
  }

  lemma UnifiedBomExample(s: string)
    requires s == "\U{FEFF}line1\r\n\r\nline2\r\n"
    ensures Unified(s) == "line1" + "\n" + ("" + "\n" + ("line2" + "\n" + ""))
  {
    BomStripped(s);
    ReplaceCrLfLine("line1", "" + "\r\n" + ("line2" + "\r\n" + ""));
    ReplaceCrLfLine("", "line2" + "\r\n" + "");
    ReplaceCrLfLine("line2", "");
    ReplaceCrNoCr("line1" + "\n" + ("" + "\n" + ("line2" + "\n" + "")));
  }

  lemma SplitBomExample(s: string)
    requires s == "\U{FEFF}line1\r\n\r\nline2\r\n"
    ensures Split(Unified(s), '\n') == ["line1", "", "line2", ""]
  {
    UnifiedBomExample(s);
    var parts := ["line1", "", "line2", ""];
    JoinTwo("line2", "", "\n");
    JoinCons("", ["line2", ""], "\n");
    JoinCons("line1", ["", "line2", ""], "\n");
    assert ["line1"] + ["", "line2", ""] == parts;
    SplitJoin(parts, '\n');
  }

  lemma KeptBomExample(parts: seq<string>)
    requires parts == ["line1", "", "line2", ""]
    ensures Kept(parts) == parts
  {
    assert parts[..0] == [];
    KeptStep(parts, 0);
    KeptStep(parts, 1);
    KeptStep(parts, 2);
    KeptStep(parts, 3);
    assert parts[..4] == parts;
  }

  lemma VectorBomCrLf(s: string)
    requires s == "\U{FEFF}line1\r\n\r\nline2\r\n"
    ensures Normalized(s) == "line1\n\nline2"
  {
    SplitBomExample(s);
    var parts := ["line1", "", "line2", ""];
    KeptBomExample(parts);
    assert parts[..3] == ["line1", "", "line2"];
    JoinTwo("", "line2", "\n");
    JoinCons("line1", ["", "line2"], "\n");
    assert ["line1"] + ["", "line2"] == ["line1", "", "line2"];
  }
}
