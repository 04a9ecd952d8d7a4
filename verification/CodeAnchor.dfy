/** The code anchorer: definitions by indentation. Which line opens a definition is a parameter,
    standing for one language's rule table. */
module CodeAnchor {
  import opened Strings
  import opened Outline
  import opened Ladder
  import TextAnchor

  /** The definition name a line opens, if any, in one language; no language, no definitions. */
  type Matcher = string -> Option<string>

  /** Every rule rejects blank lines and empty names. */
  ghost predicate NamesLines(m: Matcher) {
    forall line :: m(line).Some? ==> m(line).value != "" && !Blank(line)
  }

  /** The columns before the first character that is neither a space nor a tab. */
  function Indent(line: string): nat {
    if line == "" then 0
    else if line[0] == ' ' then 1 + Indent(line[1..])
    else if line[0] == '\t' then 4 + Indent(line[1..])
    else 0
  }

  method IndentCols(line: string) returns (cols: nat)
    ensures cols == Indent(line)
  {
    cols := 0;
    for i := 0 to |line|
      invariant cols + Indent(line[i..]) == Indent(line)
    {
      assert line[i..][1..] == line[i + 1..];
      if line[i] == ' ' {
        cols := cols + 1;
      } else if line[i] == '\t' {
        cols := cols + 4;
      } else {
        return;
      }
    }
  }

  function Code(m: Matcher): Dialect {
    Dialect(line => false,
            line => match m(line) case None => None case Some(name) => Some(Mark(Indent(line), name)))
  }

  lemma CodeNamesDefinitions(m: Matcher)
    requires NamesLines(m)
    ensures NamesDefinitions(Code(m))
  {
  }

  // ---------- What a definition is ----------

  /** The line starts with `k` spaces and tabs, worth `cols` columns: one for a space, four for a tab. */
  ghost predicate IndentedBy(line: string, k: int, cols: nat) {
    && 0 <= k <= |line| && (forall i | 0 <= i < k :: line[i] == ' ' || line[i] == '\t')
    && (k < |line| ==> line[k] != ' ' && line[k] != '\t')
    && cols == multiset(line[..k])[' '] + 4 * multiset(line[..k])['\t']
  }

  ghost predicate Indented(line: string, cols: nat) {
    exists k :: IndentedBy(line, k, cols)
  }

  lemma {:induction false} IndentIs(line: string, cols: nat)
    ensures Indent(line) == cols <==> Indented(line, cols)
  {
    var k := IndentWidth(line);
    if j :| IndentedBy(line, j, cols) {
      assert j == k;
    }
  }

  lemma {:induction false} IndentWidth(line: string) returns (k: nat)
    ensures IndentedBy(line, k, Indent(line))
  {
    k := 0;
    if line != "" && (line[0] == ' ' || line[0] == '\t') {
      var rest := line[1..];
      var j := IndentWidth(rest);
      k := j + 1;
      assert line[..k] == [line[0]] + rest[..j];
      assert multiset(line[..k]) == multiset([line[0]]) + multiset(rest[..j]);
      assert forall i | 1 <= i <= j :: line[i] == rest[i - 1];
      assert j < |rest| ==> line[k] == rest[j];
    }
  }

  /** Line `n` defines `name`, indented by `level` columns. */
  ghost predicate DefinedAt(m: Matcher, lines: seq<string>, n: int, level: nat, name: string) {
    1 <= n <= |lines| && m(lines[n - 1]) == Some(name) && Indented(lines[n - 1], level)
  }

  /** The outline of a code file, said of its lines. */
  ghost predicate CodeOutline(m: Matcher, lines: seq<string>, hs: seq<Heading>) {
    Outlines(hs, |lines|, (n: int, level: nat, name: string) => DefinedAt(m, lines, n, level, name))
  }

  lemma {:induction false} HeadingsAreCode(m: Matcher, lines: seq<string>)
    ensures CodeOutline(m, lines, Headings(Code(m), lines))
  {
    forall n, level, name ensures OpensAt(Code(m), lines, n, level, name) <==> DefinedAt(m, lines, n, level, name) {
      if 1 <= n <= |lines| {
        NeverFenced(m, lines[..n - 1]);
        IndentIs(lines[n - 1], level);
      }
    }
    HeadingsAreOutline(Code(m), lines, (n: int, level: nat, name: string) => DefinedAt(m, lines, n, level, name));
  }

  lemma {:induction false} NeverFenced(m: Matcher, lines: seq<string>)
    ensures !FenceAfter(Code(m), false, lines)
  {
    if lines != [] { NeverFenced(m, lines[..|lines| - 1]); }
  }

  /** The lines determine the outline. */
  lemma {:induction false} CodeOutlineIsUnique(m: Matcher, lines: seq<string>, hs: seq<Heading>, hs': seq<Heading>)
    requires CodeOutline(m, lines, hs) && CodeOutline(m, lines, hs')
    ensures hs == hs'
  {
    var opening: Opening := (n: int, level: nat, name: string) => DefinedAt(m, lines, n, level, name);
    hide Indented, Outlines;
    forall n, level, name, level', name' | opening(n, level, name) && opening(n, level', name')
      ensures level == level' && name == name'
    {
      IndentIs(lines[n - 1], level);
      IndentIs(lines[n - 1], level');
    }
    OutlineIsUnique(hs, hs', |lines|, opening);
  }

  /** `lang` is None for a file whose extension is not recognised. */
  method ParseDefs(text: string, lang: Option<Matcher>) returns (defs: seq<Heading>)
    ensures lang.None? ==> defs == []
    ensures lang.Some? ==> defs == Headings(Code(lang.value), SplitLines(text))
    ensures lang.Some? ==> CodeOutline(lang.value, SplitLines(text), defs)
  {
    if lang.None? {
      return [];
    }
    var m := lang.value;
    HeadingsAreCode(m, SplitLines(text));
    hide CodeOutline;
    ghost var d := Code(m);
    var lines := SplitLines(text);
    defs := [];
    var stack: seq<Heading> := [];
    ScanStart(d, lines);
    for i := 0 to |lines|
      invariant Scanned(d, lines, i, false, defs, stack)
    {
      var n, line := i + 1, lines[i];
      var name := m(line);
      if name.None? {
        ScanSkip(d, lines, i, false, defs, stack);
        continue;
      }
      var level := IndentCols(line);
      var parents := PopToParent(stack, level, d, lines, i, false, defs);
      var path := name.value;
      if |parents| > 0 {
        path := parents[|parents| - 1].path + " > " + name.value;
      }
      var h := Heading(level, path, n, |lines|);
      ScanOpen(d, lines, i, false, defs, stack, parents);
      defs := CloseLast(defs, n) + [h];
      stack := parents + [h];
    }
    ScanEnd(d, lines, false, defs, stack);
  }

  /** A file in an unrecognised language is never anchored. */
  method Compute(text: string, lang: Option<Matcher>, span: Span) returns (a: Anchor)
    ensures lang.Some? ==> a == AnchorAt(Code(lang.value), text, span)
    ensures lang.Some? ==> exists hs :: CodeOutline(lang.value, SplitLines(text), hs)
                             && Anchors(SplitLines(text), hs, span, a)
    ensures lang.None? ==> a == Anchor("", NoHash, WindowHash(text, span), span.byteHash)
  {
    hide CodeOutline, Anchors;
    if lang.Some? { AnchorTiers(Code(lang.value), text, span); }
    a := Anchor("", NoHash, NoHash, span.byteHash);
    var defs := ParseDefs(text, lang);
    var h := TextAnchor.Enclosing(defs, span.lineStart);
    if h.Some? {
      a := a.(symbolPath := h.value.path, nodeHash := HashNormalized(SectionText(text, h.value.start, h.value.end)));
    }
    a := a.(windowHash := WindowHash(text, span));
  }

  method Resolve(stored: Anchor, text: string, lang: Option<Matcher>) returns (v: VerdictKind)
    ensures lang.Some? ==> v == VerdictFor(Code(lang.value), stored, text)
    ensures lang.None? ==> v == if stored.Anchored() then SemanticChange else Unanchored
  {
    if !stored.Anchored() {
      return Unanchored;
    }
    var defs := ParseDefs(text, lang);
    var matches := TextAnchor.CollectMatches(defs, stored.symbolPath);
    if |matches| == 0 {
      v := Classify(stored, NotFound);
    } else if |matches| == 1 {
      var h := matches[0];
      v := Classify(stored, Found(HashNormalized(SectionText(text, h.start, h.end))));
    } else {
      v := Classify(stored, SeveralFound);
    }
  }

  /** Reindenting is safe: if two versions of a file open the same names in the same order, indented
      so that any two definitions compare the same way, then their paths are the same. */
  lemma {:induction false} ReindentingKeepsPaths(m: Matcher, text: string, text': string, i: nat)
    requires var es, es' := Entries(Code(m), false, SplitLines(text)), Entries(Code(m), false, SplitLines(text'));
             && |es| == |es'| && i < |es|
             && (forall j | 0 <= j < |es| :: es[j].name == es'[j].name)
             && (forall j, k | 0 <= j < |es| && 0 <= k < |es| ::
                   es[j].level < es[k].level <==> es'[j].level < es'[k].level)
    ensures Headings(Code(m), SplitLines(text))[i].path == Headings(Code(m), SplitLines(text'))[i].path
  {
    var es, es' := Entries(Code(m), false, SplitLines(text)), Entries(Code(m), false, SplitLines(text'));
    PathsDependOnRelativeLevels(es, es', i);
    assert Headings(Code(m), SplitLines(text))[i] == HeadingAt(es, i, |SplitLines(text)|);
    assert Headings(Code(m), SplitLines(text'))[i] == HeadingAt(es', i, |SplitLines(text')|);
  }

  /** What `Compute` stores of a code file, `Resolve` never finds changed in that file. */
  lemma ComputedStaysValid(m: Matcher, text: string, span: Span)
    requires NamesLines(m)
    ensures !(VerdictFor(Code(m), AnchorAt(Code(m), text, span), text) == SemanticChange)
  {
    CodeNamesDefinitions(m);
    SameSourceVerdict(Code(m), text, span);
  }
}
