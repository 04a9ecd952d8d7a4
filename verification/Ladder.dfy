/** The fingerprint ladder's law, and what it promises across two versions of a file. */
module Ladder {
  import opened Strings
  import opened Outline

  /** SHA-256 in hexadecimal, taken as a free constructor: equal digests mean equal content. */
  datatype Hash = NoHash | Sha(content: string)

  /** The four tiers. The law consults the first two. */
  datatype Anchor = Anchor(symbolPath: string, nodeHash: Hash, windowHash: Hash, byteHash: Hash) {
    predicate Anchored() {
      symbolPath != "" && nodeHash != NoHash
    }
  }

  /** A range of lines, and the hash of its text. */
  datatype Span = Span(lineStart: int, lineEnd: int, byteHash: Hash)

  const WINDOW_RADIUS := 3

  datatype VerdictKind = Valid | SemanticChange | Ambiguous | Unanchored {
    predicate Expires() {
      this == SemanticChange || this == Ambiguous
    }
  }

  datatype Located = Found(nodeHash: Hash) | NotFound | SeveralFound

  function Classify(stored: Anchor, loc: Located): VerdictKind {
    if !stored.Anchored() then Unanchored
    else match loc
      case NotFound => SemanticChange
      case SeveralFound => Ambiguous
      case Found(nodeHash) => if nodeHash != stored.nodeHash then SemanticChange else Valid
  }

  function HashNormalized(s: string): Hash {
    var norm := Join(Fields(s), " ");
    if norm == "" then NoHash else Sha(norm)
  }

  /** Tier 2 sees the sequence of fields and nothing else. */
  lemma {:induction false} HashSeesFields(s: string, t: string)
    ensures HashNormalized(s) == HashNormalized(t) <==> Fields(s) == Fields(t)
    ensures HashNormalized(s) == NoHash <==> Blank(s)
  {
    hide WordLen;
    FieldsAreWords(s);
    FieldsAreWords(t);
    FieldsOfSpace("");
    hide Fields;
    FieldsOfJoin(Fields(s));
    FieldsOfJoin(Fields(t));
  }

  function SectionText(text: string, start: int, end: int): string {
    var lines := SplitLines(text);
    var from := if start < 1 then 1 else start;
    var to := if end > |lines| then |lines| else end;
    if from > to then "" else Join(lines[from - 1..to], "\n")
  }

  function WindowHash(text: string, span: Span): Hash {
    HashNormalized(SectionText(text, span.lineStart - WINDOW_RADIUS, span.lineEnd + WINDOW_RADIUS))
  }

  /** The anchor of a span in a file scanned as `d`. */
  function AnchorAt(d: Dialect, text: string, span: Span): Anchor {
    match Deepest(Headings(d, SplitLines(text)), span.lineStart)
    case None => Anchor("", NoHash, WindowHash(text, span), span.byteHash)
    case Some(h) =>
      Anchor(h.path, HashNormalized(SectionText(text, h.start, h.end)), WindowHash(text, span), span.byteHash)
  }

  function Matches(hs: seq<Heading>, path: string): seq<Heading> {
    if hs == [] then []
    else Matches(hs[..|hs| - 1], path) + if hs[|hs| - 1].path == path then [hs[|hs| - 1]] else []
  }

  function Locate(text: string, matches: seq<Heading>): Located {
    if |matches| == 0 then NotFound
    else if |matches| == 1 then Found(HashNormalized(SectionText(text, matches[0].start, matches[0].end)))
    else SeveralFound
  }

  function VerdictOf(hs: seq<Heading>, stored: Anchor, text: string): VerdictKind {
    Classify(stored, Locate(text, Matches(hs, stored.symbolPath)))
  }

  function VerdictFor(d: Dialect, stored: Anchor, text: string): VerdictKind {
    VerdictOf(Headings(d, SplitLines(text)), stored, text)
  }

  // ---------- What the tiers are ----------

  /** The fields of the lines from `a` to `b`, as far as there are any. */
  function FieldsBetween(lines: seq<string>, a: int, b: int): seq<string> {
    if lines == [] then []
    else
      var n := |lines| - 1;
      FieldsBetween(lines[..n], a, b) + if a <= |lines| <= b then Fields(lines[n]) else []
  }

  predicate HashOfFields(ws: seq<string>, h: Hash) {
    h == if ws == [] then NoHash else Sha(Join(ws, " "))
  }

  /** The first two tiers are of the section that the span starts in, if it starts in one; the third is of the
      lines around the span, three more on either side; the last is the span's own. */
  ghost predicate Anchors(lines: seq<string>, hs: seq<Heading>, span: Span, a: Anchor) {
    && (forall i | 0 <= i < |hs| && hs[i].start <= span.lineStart <= hs[i].end ::
          a.symbolPath == hs[i].path && HashOfFields(FieldsBetween(lines, hs[i].start, hs[i].end), a.nodeHash))
    && ((forall i | 0 <= i < |hs| :: !(hs[i].start <= span.lineStart <= hs[i].end)) ==>
          a.symbolPath == "" && a.nodeHash == NoHash)
    && HashOfFields(FieldsBetween(lines, span.lineStart - 3, span.lineEnd + 3), a.windowHash)
    && a.byteHash == span.byteHash
  }

  lemma {:induction false} FieldsOfLines(lines: seq<string>)
    ensures Fields(Join(lines, "\n")) == FieldsBetween(lines, 1, |lines|)
  {
    hide Fields;
    if lines == [] {
      FieldsOfSpace("");
    } else {
      var n := |lines| - 1;
      FieldsOfLines(lines[..n]);
      SameFieldsBetween(lines[..n], 1, n, 1, n + 1);
      if n > 0 {
        JoinSnoc(lines[..n], lines[n], "\n");
        assert lines[..n] + [lines[n]] == lines;
        FieldsBreak(Join(lines[..n], "\n"), '\n', lines[n]);
      }
    }
  }

  lemma {:induction false} JoinSnoc(parts: seq<string>, last: string, sep: string)
    requires parts != []
    ensures Join(parts + [last], sep) == Join(parts, sep) + sep + last
  {
    if |parts| > 1 {
      assert (parts + [last])[1..] == parts[1..] + [last];
      JoinSnoc(parts[1..], last, sep);
      assert parts[0] + sep + (Join(parts[1..], sep) + sep + last)
          == (parts[0] + sep + Join(parts[1..], sep)) + sep + last;
    } else {
      assert (parts + [last])[1..] == [last];
    }
  }

  predicate Lies(n: int, a: int, b: int) {
    a <= n <= b
  }

  /** Only what lies between the bounds counts. */
  lemma {:induction false} SameFieldsBetween(lines: seq<string>, a: int, b: int, a': int, b': int)
    requires forall n | 1 <= n <= |lines| :: Lies(n, a, b) <==> Lies(n, a', b')
    ensures FieldsBetween(lines, a, b) == FieldsBetween(lines, a', b')
  {
    hide Fields;
    if lines != [] {
      assert Lies(|lines|, a, b) <==> Lies(|lines|, a', b');
      SameFieldsBetween(lines[..|lines| - 1], a, b, a', b');
    }
  }

  lemma {:induction false} NoFieldsBetween(lines: seq<string>, a: int, b: int)
    requires forall n | 1 <= n <= |lines| :: !Lies(n, a, b)
    ensures FieldsBetween(lines, a, b) == []
  {
    hide Fields;
    if lines != [] {
      assert !Lies(|lines|, a, b);
      NoFieldsBetween(lines[..|lines| - 1], a, b);
    }
  }

  lemma {:induction false} FieldsOfSlice(lines: seq<string>, a: nat, b: nat)
    requires a <= b <= |lines|
    ensures FieldsBetween(lines[a..b], 1, b - a) == FieldsBetween(lines, a + 1, b)
  {
    hide Fields;
    if b < |lines| {
      var n := |lines| - 1;
      FieldsOfSlice(lines[..n], a, b);
      assert lines[..n][a..b] == lines[a..b];
    } else if a < b {
      var n := b - 1;
      FieldsOfSlice(lines[..n], a, n);
      assert lines[a..b][..n - a] == lines[..n][a..n];
      SameFieldsBetween(lines[..n], a + 1, n, a + 1, b);
      SameFieldsBetween(lines[a..b][..n - a], 1, n - a, 1, b - a);
    } else {
      NoFieldsBetween(lines, a + 1, b);
    }
  }

  lemma {:induction false} SectionTextFields(text: string, a: int, b: int)
    ensures Fields(SectionText(text, a, b)) == FieldsBetween(SplitLines(text), a, b)
  {
    hide Fields, Join, SplitLines;
    var lines := SplitLines(text);
    var lo := if a < 1 then 1 else a;
    var hi := if b > |lines| then |lines| else b;
    SameFieldsBetween(lines, a, b, lo, hi);
    if lo > hi {
      FieldsOfSpace("");
      NoFieldsBetween(lines, lo, hi);
    } else {
      FieldsOfLines(lines[lo - 1..hi]);
      FieldsOfSlice(lines, lo - 1, hi);
    }
  }

  lemma {:induction false} HashIsOfFields(text: string, a: int, b: int)
    ensures HashOfFields(FieldsBetween(SplitLines(text), a, b), HashNormalized(SectionText(text, a, b)))
  {
    hide SectionText, FieldsBetween, SplitLines;
    SectionTextFields(text, a, b);
    var ws := Fields(SectionText(text, a, b));
    FieldsAreWords(SectionText(text, a, b));
    hide Fields;
    if ws != [] {
      assert ws[0] in ws;
      assert Join(ws, " ")[0] == ws[0][0];
    }
  }

  /** The anchor of a span, said of the lines and the outline. */
  lemma {:induction false} AnchorTiers(d: Dialect, text: string, span: Span)
    ensures Anchors(SplitLines(text), Headings(d, SplitLines(text)), span, AnchorAt(d, text, span))
  {
    var lines := SplitLines(text);
    var hs, a := Headings(d, lines), AnchorAt(d, text, span);
    hide AnchorAt, Headings, SplitLines, SectionText, FieldsBetween, HashNormalized, HashOfFields, Deepest;
    AnchorWindow(d, text, span);
    forall i | 0 <= i < |hs| && hs[i].start <= span.lineStart <= hs[i].end
      ensures a.symbolPath == hs[i].path
          && HashOfFields(FieldsBetween(lines, hs[i].start, hs[i].end), a.nodeHash)
    {
      AnchorInSection(d, text, span, i);
    }
    if forall i | 0 <= i < |hs| :: !(hs[i].start <= span.lineStart <= hs[i].end) {
      AnchorOutside(d, text, span);
    }
  }

  lemma {:induction false} AnchorInSection(d: Dialect, text: string, span: Span, i: nat)
    requires i < |Headings(d, SplitLines(text))| && Covers(Headings(d, SplitLines(text))[i], span.lineStart)
    ensures var h, a := Headings(d, SplitLines(text))[i], AnchorAt(d, text, span);
            && a.symbolPath == h.path
            && HashOfFields(FieldsBetween(SplitLines(text), h.start, h.end), a.nodeHash)
  {
    var h := Headings(d, SplitLines(text))[i];
    EnclosingIsUnique(d, SplitLines(text), span.lineStart, i);
    HashIsOfFields(text, h.start, h.end);
    hide Headings, SplitLines, SectionText, FieldsBetween, HashNormalized, HashOfFields, Deepest;
  }

  lemma AnchorWindow(d: Dialect, text: string, span: Span)
    ensures var a := AnchorAt(d, text, span);
            && HashOfFields(FieldsBetween(SplitLines(text), span.lineStart - 3, span.lineEnd + 3), a.windowHash)
            && a.byteHash == span.byteHash
  {
    hide Headings, SplitLines, SectionText, FieldsBetween, HashNormalized, HashOfFields, Deepest;
    HashIsOfFields(text, span.lineStart - 3, span.lineEnd + 3);
  }

  lemma AnchorOutside(d: Dialect, text: string, span: Span)
    requires var hs := Headings(d, SplitLines(text)); forall i | 0 <= i < |hs| :: !Covers(hs[i], span.lineStart)
    ensures AnchorAt(d, text, span).symbolPath == "" && AnchorAt(d, text, span).nodeHash == NoHash
  {
    hide Headings, SplitLines, SectionText, HashNormalized;
    var hs := Headings(d, SplitLines(text));
    assert Deepest(hs, span.lineStart).None? by {
      assert forall h <- hs :: !Covers(h, span.lineStart);
    }
  }

  // ---------- The law, declaratively ----------

  ghost predicate Twice(hs: seq<Heading>, path: string) {
    exists i, j :: 0 <= i < j < |hs| && hs[i].path == path && hs[j].path == path
  }

  ghost predicate OnlyAt(hs: seq<Heading>, path: string, i: int) {
    0 <= i < |hs| && forall j | 0 <= j < |hs| :: hs[j].path == path <==> j == i
  }

  lemma {:induction false} NoMatches(hs: seq<Heading>, path: string)
    ensures Matches(hs, path) == [] <==> forall i | 0 <= i < |hs| :: hs[i].path != path
  {
    if hs != [] {
      NoMatches(hs[..|hs| - 1], path);
    }
  }

  lemma {:induction false} OneMatch(hs: seq<Heading>, path: string, i: int)
    requires OnlyAt(hs, path, i)
    ensures Matches(hs, path) == [hs[i]]
  {
    var n := |hs| - 1;
    if i < n {
      OneMatch(hs[..n], path, i);
    } else {
      NoMatches(hs[..n], path);
    }
  }

  lemma {:induction false} SeveralMatches(hs: seq<Heading>, path: string)
    ensures |Matches(hs, path)| >= 2 <==> Twice(hs, path)
  {
    if hs != [] {
      var n := |hs| - 1;
      SeveralMatches(hs[..n], path);
      NoMatches(hs[..n], path);
      if Twice(hs[..n], path) {
        var i, j :| 0 <= i < j < n && hs[..n][i].path == path && hs[..n][j].path == path;
        assert hs[i].path == path && hs[j].path == path;
      } else if Matches(hs[..n], path) != [] && hs[n].path == path {
        var i :| 0 <= i < n && hs[i].path == path;
        assert hs[i].path == path && hs[n].path == path;
      }
    }
  }

  /** The ladder's law: valid iff the path still names one place and that place has the stored hash; whatever
      is anchored and not valid expires. */
  lemma {:induction false} VerdictLaw(hs: seq<Heading>, stored: Anchor, text: string)
    ensures VerdictOf(hs, stored, text) == Unanchored <==> !stored.Anchored()
    ensures VerdictOf(hs, stored, text) == Ambiguous <==> stored.Anchored() && Twice(hs, stored.symbolPath)
    ensures VerdictOf(hs, stored, text) == Valid <==> stored.Anchored() && exists i :: Resolves(hs, text, stored, i)
    ensures VerdictOf(hs, stored, text).Expires() <==> stored.Anchored() && !exists i :: Resolves(hs, text, stored, i)
  {
    var path := stored.symbolPath;
    SeveralMatches(hs, path);
    if |Matches(hs, path)| == 1 {
      var i := UniqueMatch(hs, path);
      assert forall k :: OnlyAt(hs, path, k) ==> k == i;
      assert VerdictOf(hs, stored, text) == Valid <==> stored.Anchored() && Resolves(hs, text, stored, i);
    } else {
      forall k ensures !OnlyAt(hs, path, k) {
        if OnlyAt(hs, path, k) {
          OneMatch(hs, path, k);
        }
      }
    }
  }

  lemma {:induction false} UniqueMatch(hs: seq<Heading>, path: string) returns (i: int)
    requires |Matches(hs, path)| == 1
    ensures OnlyAt(hs, path, i) && Matches(hs, path) == [hs[i]]
  {
    NoMatches(hs, path);
    SeveralMatches(hs, path);
    i :| 0 <= i < |hs| && hs[i].path == path;
    forall j | 0 <= j < |hs| && hs[j].path == path ensures j == i {
      assert !(i < j) && !(j < i);
    }
    OneMatch(hs, path, i);
  }

  ghost predicate Resolves(hs: seq<Heading>, text: string, stored: Anchor, i: int) {
    OnlyAt(hs, stored.symbolPath, i) && HashNormalized(SectionText(text, hs[i].start, hs[i].end)) == stored.nodeHash
  }

  /** What a dialect's matcher guarantees: a definition has a name and stands on a line with text. */
  ghost predicate NamesDefinitions(d: Dialect) {
    forall line :: d.opens(line).Some? ==> d.opens(line).value.name != "" && !Blank(line)
  }

  lemma {:induction false} PathNotEmpty(es: seq<Entry>, i: nat)
    requires i < |es| && es[i].name != ""
    ensures Path(es, i) != ""
  {
  }

  /** Every heading can anchor a claim: it has a path and its section is not blank. */
  lemma {:induction false} HeadingsCanAnchor(d: Dialect, text: string, i: nat)
    requires NamesDefinitions(d) && i < |Headings(d, SplitLines(text))|
    ensures var h := Headings(d, SplitLines(text))[i];
            h.path != "" && HashNormalized(SectionText(text, h.start, h.end)) != NoHash
  {
    hide Fields, Join, SplitLines, Entries, FenceAfter, Path, Headings;
    var lines := SplitLines(text);
    var es, hs := Entries(d, false, lines), Headings(d, lines);
    EntriesSound(d, false, lines);
    SectionsTile(d, lines);
    assert hs[i] == HeadingAt(es, i, |lines|);
    assert OpenedBy(d, false, lines, es[i]);
    var section := lines[hs[i].start - 1..hs[i].end];
    assert section[0] == lines[es[i].line - 1];
    SectionTextIsSection(text, hs[i]);
    JoinBlank(section, "\n");
    HashSeesFields(SectionText(text, hs[i].start, hs[i].end), "");
    PathNotEmpty(es, i);
  }

  /** Resolving against the very file an anchor was computed from never reports a change. */
  lemma {:induction false} SameSourceVerdict(d: Dialect, text: string, span: Span)
    requires NamesDefinitions(d)
    ensures VerdictFor(d, AnchorAt(d, text, span), text) ==
              match Deepest(Headings(d, SplitLines(text)), span.lineStart)
              case None => Unanchored
              case Some(h) => if Twice(Headings(d, SplitLines(text)), h.path) then Ambiguous else Valid
  {
    var hs, stored := Headings(d, SplitLines(text)), AnchorAt(d, text, span);
    VerdictLaw(hs, stored, text);
    if Deepest(hs, span.lineStart).Some? {
      var i :| 0 <= i < |hs| && hs[i] == Deepest(hs, span.lineStart).value;
      HeadingsCanAnchor(d, text, i);
      if !Twice(hs, hs[i].path) {
        forall j | 0 <= j < |hs| && hs[j].path == hs[i].path ensures j == i {
          assert !(i < j) && !(j < i);
        }
        assert Resolves(hs, text, stored, i);
      }
    }
  }

  /** Against another version in which the path is unique, an anchor stays valid exactly when the two
      sections have the same whitespace-separated fields. */
  lemma {:induction false} OtherSourceVerdict(d: Dialect, text: string, span: Span, text': string, j: int)
    requires NamesDefinitions(d) && Deepest(Headings(d, SplitLines(text)), span.lineStart).Some?
    requires OnlyAt(Headings(d, SplitLines(text')), AnchorAt(d, text, span).symbolPath, j)
    ensures var h := Deepest(Headings(d, SplitLines(text)), span.lineStart).value;
            var h' := Headings(d, SplitLines(text'))[j];
            VerdictFor(d, AnchorAt(d, text, span), text') ==
              if Fields(SectionText(text, h.start, h.end)) == Fields(SectionText(text', h'.start, h'.end))
              then Valid else SemanticChange
  {
    var hs, hs', stored := Headings(d, SplitLines(text)), Headings(d, SplitLines(text')), AnchorAt(d, text, span);
    var i :| 0 <= i < |hs| && hs[i] == Deepest(hs, span.lineStart).value;
    HeadingsCanAnchor(d, text, i);
    OneMatch(hs', stored.symbolPath, j);
    HashSeesFields(SectionText(text, hs[i].start, hs[i].end), SectionText(text', hs'[j].start, hs'[j].end));
  }

  lemma {:induction false} SectionTextIsSection(text: string, h: Heading)
    requires 1 <= h.start <= h.end <= |SplitLines(text)|
    ensures SectionText(text, h.start, h.end) == Join(Section(SplitLines(text), h), "\n")
  {
  }

  /** The insertion theorem: a valid anchor survives the insertion of whole sections, however far it
      moves down the file, unless an inserted section takes its path; then it is ambiguous. */
  lemma {:induction false} InsertionKeepsAnchors(d: Dialect, pre: seq<string>, ins: seq<string>, post: seq<string>,
                              text: string, text': string, stored: Anchor)
    requires InsertableBefore(d, pre, ins, post)
    requires SplitLines(text) == pre + post && SplitLines(text') == pre + ins + post
    requires VerdictFor(d, stored, text) == Valid
    ensures VerdictFor(d, stored, text') ==
              if exists h <- Headings(d, SplitLines(text')) ::
                   h.path == stored.symbolPath && |pre| < h.start <= |pre| + |ins|
              then Ambiguous else Valid
  {
    hide Headings, Entries, FenceAfter, SplitLines, VerdictOf, Inserted;
    Insertion(d, pre, ins, post);
    InsertionKeepsVerdict(pre + post, Headings(d, pre + post), pre + ins + post, Headings(d, pre + ins + post),
                          |Entries(d, false, pre)|, |Entries(d, false, ins)|, |pre|, |pre| + |ins|,
                          text, text', stored);
  }

  lemma {:induction false} InsertionKeepsVerdict(lines: seq<string>, hs: seq<Heading>, lines': seq<string>,
      hs': seq<Heading>, at: nat, count: nat, lo: int, hi: int, text: string, text': string, stored: Anchor)
    requires Inserted(lines, hs, lines', hs', at, count, lo, hi)
    requires SplitLines(text) == lines && SplitLines(text') == lines'
    requires VerdictOf(hs, stored, text) == Valid
    ensures VerdictOf(hs', stored, text') ==
              if exists h <- hs' :: h.path == stored.symbolPath && lo < h.start <= hi then Ambiguous else Valid
  {
    hide VerdictOf, Fields, Join, SplitLines, Matches, HashNormalized;
    VerdictLaw(hs, stored, text);
    VerdictLaw(hs', stored, text');
    var i :| Resolves(hs, text, stored, i);
    var i' := Moved(i, at, count);
    assert SameSection(lines, hs[i], lines', hs'[i']);
    SectionTextIsSection(text, hs[i]);
    SectionTextIsSection(text', hs'[i']);
    if h :| h in hs' && h.path == stored.symbolPath && lo < h.start <= hi {
      var j :| 0 <= j < |hs'| && hs'[j] == h;
      assert at <= j < at + count;
      var first, second := if j < i' then j else i', if j < i' then i' else j;
      assert hs'[first].path == hs'[second].path == stored.symbolPath;
    } else {
      forall j | 0 <= j < |hs'| && hs'[j].path == stored.symbolPath ensures j == i' {
        assert hs'[j] in hs';
        var k := if j < at then j else j - count;
        assert Moved(k, at, count) == j;
        assert SameSection(lines, hs[k], lines', hs'[Moved(k, at, count)]);
      }
      assert Resolves(hs', text', stored, i');
    }
  }
}
