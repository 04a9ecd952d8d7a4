/** The fence around recalled data, and the rewriting that keeps content from closing it. */
module Fence {
  import opened Strings

  // The markers, split where neutralizing breaks them.
  const STEM := "<<<C"
  const OPEN := STEM + "RED-RECALL-DATA-BEGIN>>>"
  const CLOSE := STEM + "RED-RECALL-DATA-END>>>"

  /** The zero-width space. */
  const ZWSP: char := '\U{200B}'

  // ---------- Occurrences ----------

  /** How many positions of `s` a copy of `m` starts at. */
  function Occ(s: string, m: string): nat {
    if |s| < |m| || s == "" then 0 else Occ(s[1..], m) + if m <= s then 1 else 0
  }

  /** What both markers have in common. */
  ghost predicate Marker(m: string) {
    && |m| > 4 && m[0] == '<'
    && (forall i | 4 <= i < |m| :: m[i] != '<')
    && (forall i | 0 <= i < |m| :: m[i] != ZWSP && m[i] != '\n' && m[i] != ' ' && m[i] != ':' && m[i] != ',')
  }

  ghost predicate Capitals(s: string) {
    forall i | 0 <= i < |s| :: s[i] == '-' || s[i] == '>' || 'A' <= s[i] <= 'Z'
  }

  lemma MarkerOf(rest: string)
    requires Capitals(rest) && rest != ""
    ensures Marker(STEM + rest)
  {
  }

  lemma OpenCapitals()
    ensures Capitals("RED-RECALL-DATA-BEGIN>>>")
  {
  }

  lemma CloseCapitals()
    ensures Capitals("RED-RECALL-DATA-END>>>")
  {
  }

  lemma MarkersAreMarkers()
    ensures Marker(OPEN) && Marker(CLOSE) && OPEN != CLOSE
  {
    hide Marker, Capitals;
    OpenCapitals();
    CloseCapitals();
    MarkerOf("RED-RECALL-DATA-BEGIN>>>");
    MarkerOf("RED-RECALL-DATA-END>>>");
    assert |OPEN| != |CLOSE|;
  }

  lemma NotPrefix(m: string, s: string, j: nat)
    requires j < |m| && j < |s| && m[j] != s[j]
    ensures !(m <= s)
  {
  }

  /** A character that a marker does not hold separates occurrences. */
  lemma {:induction false} OccSeparated(a: string, c: char, b: string, m: string)
    requires m != "" && forall i | 0 <= i < |m| :: m[i] != c
    ensures Occ(a + [c] + b, m) == Occ(a, m) + Occ(b, m)
  {
    var s := a + [c] + b;
    if a == "" {
      assert s[1..] == b;
      NotPrefix(m, s, 0);
    } else {
      assert s[1..] == a[1..] + [c] + b;
      OccSeparated(a[1..], c, b, m);
      if |m| > |a| {
        if |m| <= |s| { NotPrefix(m, s, |a|); }
        OccInShort(a, m);
        OccInShort(a[1..], m);
      } else {
        assert s[..|m|] == a[..|m|];
      }
    }
  }

  lemma OccInShort(s: string, m: string)
    requires |s| < |m|
    ensures Occ(s, m) == 0
  {
  }

  /** No occurrence starts in a prefix none of whose positions match. */
  lemma {:induction false} OccSkips(x: string, y: string, m: string)
    requires m != "" && forall k | 0 <= k < |x| :: !(m <= (x + y)[k..])
    ensures Occ(x + y, m) == Occ(y, m)
  {
    if x == "" {
      assert x + y == y;
    } else {
      assert (x + y)[1..] == x[1..] + y;
      assert !(m <= (x + y)[0..]) && (x + y)[0..] == x + y;
      forall k | 0 <= k < |x[1..]| ensures !(m <= (x[1..] + y)[k..]) {
        assert (x + y)[k + 1..] == (x[1..] + y)[k..];
      }
      OccSkips(x[1..], y, m);
      if |x + y| < |m| {
        OccInShort(y, m);
      }
    }
  }

  lemma {:induction false} OccNeedsFirst(s: string, m: string)
    requires m != "" && forall i | 0 <= i < |s| :: s[i] != m[0]
    ensures Occ(s, m) == 0
  {
    if s != "" && |s| >= |m| {
      OccNeedsFirst(s[1..], m);
    }
  }

  // ---------- Neutralizing ----------

  /** `strings.ReplaceAll`: copies of `m` from left to right, without overlap. */
  function ReplaceAll(s: string, m: string, broken: string): string
    requires m != ""
  {
    if |s| < |m| then s
    else if m <= s then broken + ReplaceAll(s[|m|..], m, broken)
    else [s[0]] + ReplaceAll(s[1..], m, broken)
  }

  function Broken(m: string): string
    requires |m| > 4
  {
    m[..4] + [ZWSP] + m[4..]
  }

  function Neutralized(s: string): string {
    ReplaceAll(ReplaceAll(s, CLOSE, Broken(CLOSE)), OPEN, Broken(OPEN))
  }

  method Neutralize(s: string) returns (r: string)
    ensures r == Neutralized(s)
  {
    r := s;
    var markers := [CLOSE, OPEN];
    for i := 0 to 2
      invariant r == if i == 0 then s else if i == 1 then ReplaceAll(s, CLOSE, Broken(CLOSE)) else Neutralized(s)
    {
      r := ReplaceAll(r, markers[i], markers[i][..4] + [ZWSP] + markers[i][4..]);
    }
  }

  /** What a rewritten text starts with, up to a zero-width space, the original starts with too. */
  lemma {:induction false} PrefixIsOld(s: string, m: string, p: string)
    requires Marker(m) && p <= ReplaceAll(s, m, Broken(m)) && forall i | 0 <= i < |p| :: p[i] != ZWSP
    ensures p <= s
  {
    var r := ReplaceAll(s, m, Broken(m));
    if p != "" && |s| >= |m| {
      if m <= s {
        assert r[4] == ZWSP && forall i | 0 <= i < |p| :: r[i] == p[i] != ZWSP;
        assert |p| <= 4;
        assert forall i | 0 <= i < |p| :: p[i] == r[i] == m[i];
      } else {
        assert r[1..] == ReplaceAll(s[1..], m, Broken(m));
        PrefixIsOld(s[1..], m, p[1..]);
        assert p[0] == s[0];
      }
    }
  }

  /** Breaking up one marker leaves none of it, and creates none of another. */
  lemma {:induction false} ReplaceLeavesNone(s: string, m: string, n: string)
    requires Marker(m) && Marker(n) && (n == m || Occ(s, n) == 0)
    ensures Occ(ReplaceAll(s, m, Broken(m)), n) == 0
  {
    var r := ReplaceAll(s, m, Broken(m));
    if |s| < |m| {
      if n == m { OccInShort(s, n); }
    } else if m <= s {
      var rest := ReplaceAll(s[|m|..], m, Broken(m));
      OccInTail(s, |m|, n);
      ReplaceLeavesNone(s[|m|..], m, n);
      forall k | 0 <= k < |Broken(m)| ensures !(n <= (Broken(m) + rest)[k..]) {
        var tail := (Broken(m) + rest)[k..];
        var j := if k <= 4 then 4 - k else 0;
        assert tail[j] == if k <= 4 then ZWSP else m[k - 1];
        NotPrefix(n, tail, j);
      }
      OccSkips(Broken(m), rest, n);
    } else {
      assert r[1..] == ReplaceAll(s[1..], m, Broken(m));
      OccInTail(s, 1, n);
      ReplaceLeavesNone(s[1..], m, n);
      if n <= r {
        PrefixIsOld(s, m, n);
      }
    }
  }

  lemma {:induction false} OccInTail(s: string, k: nat, n: string)
    requires k <= |s| && n != ""
    ensures Occ(s[k..], n) <= Occ(s, n)
    decreases k
  {
    if k == 0 {
      assert s[0..] == s;
    } else if |s| < |n| {
      OccInShort(s[k..], n);
    } else {
      assert s[1..][k - 1..] == s[k..];
      OccInTail(s[1..], k - 1, n);
    }
  }

  /** Stored content can neither close the fence nor open another. */
  lemma NeutralizedHasNoMarker(s: string)
    ensures Occ(Neutralized(s), OPEN) == 0 && Occ(Neutralized(s), CLOSE) == 0
  {
    MarkersAreMarkers();
    ReplaceLeavesNone(s, CLOSE, CLOSE);
    var once := ReplaceAll(s, CLOSE, Broken(CLOSE));
    ReplaceLeavesNone(once, OPEN, OPEN);
    ReplaceLeavesNone(once, OPEN, CLOSE);
  }

  function Erase(s: string): string {
    if s == "" then "" else (if s[0] == ZWSP then "" else [s[0]]) + Erase(s[1..])
  }

  lemma {:induction false} EraseConcat(a: string, b: string)
    ensures Erase(a + b) == Erase(a) + Erase(b)
  {
    if a == "" {
      assert a + b == b;
    } else {
      assert (a + b)[1..] == a[1..] + b;
      EraseConcat(a[1..], b);
    }
  }

  lemma {:induction false} EraseNothing(s: string)
    requires ZWSP !in s
    ensures Erase(s) == s
  {
    if s != "" {
      EraseNothing(s[1..]);
    }
  }

  lemma {:induction false} EraseUndoesReplace(s: string, m: string)
    requires Marker(m)
    ensures Erase(ReplaceAll(s, m, Broken(m))) == Erase(s)
  {
    if |s| >= |m| {
      if m <= s {
        EraseUndoesReplace(s[|m|..], m);
        EraseConcat(Broken(m), ReplaceAll(s[|m|..], m, Broken(m)));
        assert s == m + s[|m|..];
        EraseConcat(m, s[|m|..]);
        EraseBroken(m);
      } else {
        EraseUndoesReplace(s[1..], m);
        assert ([s[0]] + ReplaceAll(s[1..], m, Broken(m)))[1..] == ReplaceAll(s[1..], m, Broken(m));
      }
    }
  }

  lemma EraseBroken(m: string)
    requires |m| > 4
    ensures Erase(Broken(m)) == Erase(m)
  {
    var head, tail := m[..4], m[4..];
    EraseOne();
    hide Erase;
    EraseConcat(head + [ZWSP], tail);
    EraseConcat(head, [ZWSP]);
    EraseConcat(head, tail);
    assert m == head + tail;
    assert Erase(head) + "" == Erase(head);
  }

  lemma EraseOne()
    ensures Erase([ZWSP]) == ""
  {
  }

  /** Nothing is dropped: erasing the zero-width spaces of the result and of the input gives the same text. */
  lemma EraseRestores(s: string)
    ensures Erase(Neutralized(s)) == Erase(s)
    ensures ZWSP !in s ==> Erase(Neutralized(s)) == s
  {
    MarkersAreMarkers();
    EraseUndoesReplace(s, CLOSE);
    EraseUndoesReplace(ReplaceAll(s, CLOSE, Broken(CLOSE)), OPEN);
    if ZWSP !in s { EraseNothing(s); }
  }

  lemma {:induction false} NothingToReplace(s: string, m: string)
    requires Marker(m) && Occ(s, m) == 0
    ensures ReplaceAll(s, m, Broken(m)) == s
  {
    if |s| >= |m| {
      NothingToReplace(s[1..], m);
    }
  }

  /** Only content that holds a marker is changed. */
  lemma UnchangedIffNoMarker(s: string)
    ensures Neutralized(s) == s <==> Occ(s, OPEN) == 0 && Occ(s, CLOSE) == 0
  {
    MarkersAreMarkers();
    if Neutralized(s) == s {
      NeutralizedHasNoMarker(s);
    }
    if Occ(s, OPEN) == 0 && Occ(s, CLOSE) == 0 {
      NothingToReplace(s, CLOSE);
      NothingToReplace(s, OPEN);
    }
  }

  // ---------- The rendered block ----------

  /** Numbers are rendered without a marker's first character. */
  type Number = s: string | '<' !in s witness "0"

  datatype Evidence = Evidence(path: string, lineStart: int, lineEnd: int, text: string)

  datatype Recalled = Recalled(id: string, kind: string, statement: string, score: Number, confidence: Number,
                               evidence: seq<Evidence>)

  datatype Output = Output(claims: seq<Recalled>, asOf: string, staleness: Number, returned: int, omitted: int,
                           tokensUsed: int, tokenBudget: int)

  function Digits(n: nat): (s: string)
    ensures '<' !in s
  {
    (if n < 10 then "" else Digits(n / 10)) + [('0' as int + n % 10) as char]
  }

  function Dec(n: int): (s: string)
    ensures '<' !in s
  {
    if n < 0 then "-" + Digits(-n) else Digits(n)
  }

  /** A text written piece by piece, each ended by a newline. */
  function Unlines(pieces: seq<string>): string {
    if pieces == [] then "" else pieces[0] + "\n" + Unlines(pieces[1..])
  }

  function IdPiece(c: Recalled): string { "  id         " + c.id }

  function KindPiece(c: Recalled): string { "  kind       " + c.kind }

  function StatementPiece(c: Recalled): string { "  statement  " + Neutralized(c.statement) }

  function ScorePiece(c: Recalled): string { "  score      " + c.score + " (confidence " + c.confidence + ")" }

  function PathPiece(e: Evidence): string { "  evidence   " + e.path + ":" + Dec(e.lineStart) + "-" + Dec(e.lineEnd) }

  function CountPiece(i: int, n: int): string { "claim " + Dec(i) + " of " + Dec(n) }

  function LinePieces(lines: seq<string>): seq<string> {
    if lines == [] then [] else LinePieces(lines[..|lines| - 1]) + ["    | " + lines[|lines| - 1]]
  }

  function EvidencePieces(es: seq<Evidence>): seq<string> {
    if es == [] then []
    else
      var e := es[|es| - 1];
      EvidencePieces(es[..|es| - 1]) + ([PathPiece(e)] + LinePieces(Split(Neutralized(e.text))))
  }

  function HeadPieces(c: Recalled, i: int, n: int): seq<string> {
    [CountPiece(i, n), IdPiece(c), KindPiece(c), StatementPiece(c), ScorePiece(c)]
  }

  function OneClaim(c: Recalled, i: int, n: int): seq<string> {
    HeadPieces(c, i, n) + EvidencePieces(c.evidence) + [""]
  }

  function ClaimPieces(cs: seq<Recalled>, n: int): seq<string> {
    if cs == [] then [] else ClaimPieces(cs[..|cs| - 1], n) + OneClaim(cs[|cs| - 1], |cs|, n)
  }

  function Summary(out: Output): string {
    "as_of " + out.asOf + "," + SummaryRest(out)
  }

  function SummaryRest(out: Output): string {
    " staleness " + out.staleness + "s, " + Dec(out.returned) + " returned, " + Dec(out.omitted)
    + " omitted, " + Dec(out.tokensUsed) + "/" + Dec(out.tokenBudget) + " tokens."
  }

  function FooterPieces(out: Output): seq<string> {
    ["", Summary(out)]
    + if out.omitted > 0
        then [Dec(out.omitted) + " further claims matched " + "and were dropped against the token ceiling."] else []
  }

  function BodyPieces(out: Output): seq<string> {
    (if out.claims == [] then ["No claims matched."] else []) + ClaimPieces(out.claims, |out.claims|)
  }

  /** The preamble's lines are fixed; all that matters of them is that they hold no marker. */
  type Preamble = ps: seq<string> | Clean(ps) witness []

  predicate Clean(pieces: seq<string>) {
    forall p <- pieces :: '<' !in p
  }

  function Pieces(preamble: Preamble, out: Output): seq<string> {
    preamble + [OPEN] + BodyPieces(out) + [CLOSE] + FooterPieces(out)
  }

  lemma {:induction false} UnlinesSnoc(pieces: seq<string>, p: string)
    ensures Unlines(pieces + [p]) == Unlines(pieces) + p + "\n"
  {
    if pieces == [] {
      assert Unlines([p]) == p + "\n" + "";
    } else {
      assert (pieces + [p])[1..] == pieces[1..] + [p];
      UnlinesSnoc(pieces[1..], p);
    }
  }

  // ---------- What the reader sees ----------

  /** Lines with the zero-width spaces erased. */
  function Erased(ls: seq<string>): seq<string> {
    seq(|ls|, i requires 0 <= i < |ls| => Erase(ls[i]))
  }

  /** A field that stays on its line and holds no zero-width space. */
  predicate Tidy(s: string) {
    '\n' !in s && ZWSP !in s
  }

  predicate TidyClaim(c: Recalled) {
    && Tidy(c.id) && Tidy(c.kind) && Tidy(c.statement) && Tidy(c.score) && Tidy(c.confidence)
    && forall i | 0 <= i < |c.evidence| :: Tidy(c.evidence[i].path) && ZWSP !in c.evidence[i].text
  }

  predicate TidyOutput(preamble: Preamble, out: Output) {
    && (forall i | 0 <= i < |preamble| :: Tidy(preamble[i]))
    && Tidy(out.asOf) && Tidy(out.staleness) && forall i | 0 <= i < |out.claims| :: TidyClaim(out.claims[i])
  }

  /** A piece of evidence: where it is from, and its text line by line. */
  ghost predicate OneShown(ls: seq<string>, e: Evidence) {
    && |ls| == 1 + |Split(e.text)|
    && ls[0] == "  evidence   " + e.path + ":" + Dec(e.lineStart) + "-" + Dec(e.lineEnd)
    && forall k | 0 <= k < |Split(e.text)| :: ls[k + 1] == "    | " + Split(e.text)[k]
  }

  ghost predicate EvidenceShown(ls: seq<string>, es: seq<Evidence>)
    decreases |es|
  {
    if es == [] then ls == []
    else
      var n := |es| - 1;
      exists k :: 0 <= k <= |ls| && EvidenceShown(ls[..k], es[..n]) && OneShown(ls[k..], es[n])
  }

  /** Claim `i` of `n`. */
  ghost predicate ClaimShown(ls: seq<string>, c: Recalled, i: int, n: int) {
    && |ls| >= 6
    && ls[0] == "claim " + Dec(i) + " of " + Dec(n)
    && ls[1] == "  id         " + c.id
    && ls[2] == "  kind       " + c.kind
    && ls[3] == "  statement  " + c.statement
    && ls[4] == "  score      " + c.score + " (confidence " + c.confidence + ")"
    && EvidenceShown(ls[5..|ls| - 1], c.evidence)
    && ls[|ls| - 1] == ""
  }

  ghost predicate ClaimsShown(ls: seq<string>, cs: seq<Recalled>, n: int)
    decreases |cs|
  {
    if cs == [] then ls == []
    else
      var m := |cs| - 1;
      exists k :: 0 <= k <= |ls| && ClaimsShown(ls[..k], cs[..m], n) && ClaimShown(ls[k..], cs[m], m + 1, n)
  }

  /** The lines after the fence. */
  ghost predicate SummaryShown(ls: seq<string>, out: Output) {
    && |ls| == (if out.omitted > 0 then 4 else 3)
    && ls[0] == ""
    && ls[1] == "as_of " + out.asOf + ","
                + (" staleness " + out.staleness + "s, " + Dec(out.returned) + " returned, " + Dec(out.omitted)
                   + " omitted, " + Dec(out.tokensUsed) + "/" + Dec(out.tokenBudget) + " tokens.")
    && (out.omitted > 0 ==>
          ls[2] == Dec(out.omitted) + " further claims matched " + "and were dropped against the token ceiling.")
    && ls[|ls| - 1] == ""
  }

  /** The whole text: between the markers all claims in order, or a word that there are none. */
  ghost predicate Shown(ls: seq<string>, preamble: seq<string>, out: Output) {
    exists a, b ::
      && |preamble| == a < b < |ls|
      && ls[..a] == preamble
      && ls[a] == "<<<CRED-RECALL-DATA-BEGIN>>>" && ls[b] == "<<<CRED-RECALL-DATA-END>>>"
      && (if out.claims == [] then ls[a + 1..b] == ["No claims matched."]
          else ClaimsShown(ls[a + 1..b], out.claims, |out.claims|))
      && SummaryShown(ls[b + 1..], out)
  }

  lemma {:induction false} DigitsAreTidy(n: nat)
    ensures Tidy(Digits(n))
  {
    if n >= 10 { DigitsAreTidy(n / 10); }
  }

  lemma DecIsTidy(n: int)
    ensures Tidy(Dec(n))
  {
    DigitsAreTidy(if n < 0 then -n else n);
    hide Digits;
  }

  /** A decimal numeral reads as its number. */
  function Value(s: string): int {
    if s == "" then 0 else Value(s[..|s| - 1]) * 10 + (s[|s| - 1] as int - '0' as int)
  }

  lemma ValueSnoc(s: string, c: char)
    ensures Value(s + [c]) == Value(s) * 10 + (c as int - '0' as int)
  {
  }

  lemma {:induction false} DigitsRead(n: nat)
    ensures Digits(n) != "" && Value(Digits(n)) == n
    ensures forall i | 0 <= i < |Digits(n)| :: '0' <= Digits(n)[i] <= '9'
    ensures n > 0 ==> Digits(n)[0] != '0'
  {
    var c := ('0' as int + n % 10) as char;
    var front := if n < 10 then "" else Digits(n / 10);
    ValueSnoc(front, c);
    if n >= 10 {
      DigitsRead(n / 10);
    }
  }

  /** So is a number read back, with its sign. */
  lemma DecReads(n: int)
    ensures Dec(n) != ""
    ensures n == if Dec(n)[0] == '-' then -Value(Dec(n)[1..]) else Value(Dec(n))
  {
    DigitsRead(if n < 0 then -n else n);
    hide Digits, Value;
    assert n < 0 ==> Dec(n)[1..] == Digits(-n);
  }

  lemma {:induction false} ErasedConcat(a: seq<string>, b: seq<string>)
    ensures Erased(a + b) == Erased(a) + Erased(b)
  {
  }

  lemma {:induction false} SplitOfErased(s: string)
    ensures Erased(Split(s)) == Split(Erase(s))
  {
    if s != "" {
      SplitOfErased(s[1..]);
      NextErased(s[0], s[1..]);
      assert [s[0]] + s[1..] == s;
    }
  }

  lemma {:induction false} NextErased(c: char, s: string)
    requires Erased(Split(s)) == Split(Erase(s))
    ensures Erased(Split([c] + s)) == Split(Erase([c] + s))
  {
    var rest, more := Split(s), [c] + s;
    assert more[1..] == s;
    assert Erased(rest)[0] == Erase(rest[0]) && Erased(rest)[1..] == Erased(rest[1..]);
    hide Erase;
    EraseFirst(c, s);
    EraseFirst(c, rest[0]);
    EraseEmpty();
    if c == '\n' {
      ErasedConcat([""], rest);
      assert ([c] + Erase(s))[1..] == Erase(s);
    } else {
      ErasedConcat([[c] + rest[0]], rest[1..]);
      assert Erased([[c] + rest[0]]) == [Erase([c] + rest[0])];
      if c != ZWSP {
        assert ([c] + Erase(s))[1..] == Erase(s);
      } else {
        assert "" + Erase(s) == Erase(s) && "" + Erase(rest[0]) == Erase(rest[0]);
        assert [Erase(rest[0])] + Erased(rest)[1..] == Erased(rest);
      }
    }
  }

  lemma EraseFirst(c: char, s: string)
    ensures Erase([c] + s) == (if c == ZWSP then "" else [c]) + Erase(s)
  {
    assert ([c] + s)[1..] == s;
  }

  lemma {:induction false} LinesOfText(text: string)
    requires ZWSP !in text
    ensures Erased(Split(Neutralized(text))) == Split(text)
  {
    SplitOfErased(Neutralized(text));
    EraseRestores(text);
  }

  lemma TidyConcat(a: string, b: string)
    ensures Tidy(a + b) <==> Tidy(a) && Tidy(b)
  {
  }

  lemma TidyErases(s: string)
    requires Tidy(s)
    ensures Erase(s) == s
  {
    EraseNothing(s);
  }

  lemma {:induction false} SplitIsOneLine(s: string)
    ensures forall i | 0 <= i < |Split(s)| :: '\n' !in Split(s)[i]
  {
    if s != "" {
      SplitIsOneLine(s[1..]);
    }
  }

  lemma {:induction false} SplitOfUnlines(pieces: seq<string>)
    requires forall i | 0 <= i < |pieces| :: '\n' !in pieces[i]
    ensures Split(Unlines(pieces)) == pieces + [""]
  {
    hide Split;
    if pieces == [] {
      SplitOneLine("");
    } else {
      SplitOfUnlines(pieces[1..]);
      SplitFirst(pieces[0], Unlines(pieces[1..]));
    }
  }

  lemma {:induction false} EraseKeeps(s: string, c: char)
    requires c != ZWSP
    ensures c in Erase(s) <==> c in s
  {
    if s != "" {
      EraseKeeps(s[1..], c);
      assert s == [s[0]] + s[1..];
    }
  }

  lemma NeutralizedStaysOnLine(s: string)
    requires '\n' !in s
    ensures '\n' !in Neutralized(s)
  {
    EraseRestores(s);
    EraseKeeps(Neutralized(s), '\n');
    EraseKeeps(s, '\n');
  }

  /** A tidy label and a tidy rest. */
  lemma {:induction false} Labelled(tag: string, s: string)
    requires Tidy(tag)
    ensures Erase(tag + s) == tag + Erase(s)
    ensures '\n' !in s ==> '\n' !in tag + s
  {
    EraseConcat(tag, s);
    TidyErases(tag);
  }

  ghost predicate OnTheirLines(pieces: seq<string>) {
    forall i | 0 <= i < |pieces| :: '\n' !in pieces[i]
  }

  lemma {:induction false} HeadIsShown(c: Recalled, i: int, n: int)
    requires TidyClaim(c)
    ensures OnTheirLines(HeadPieces(c, i, n))
    ensures Erased(HeadPieces(c, i, n))
         == ["claim " + Dec(i) + " of " + Dec(n), "  id         " + c.id, "  kind       " + c.kind,
             "  statement  " + c.statement, "  score      " + c.score + " (confidence " + c.confidence + ")"]
  {
    HeadIsTidy(c, i, n);
    NeutralizedStaysOnLine(c.statement);
    StatementIsShown(c);
    hide Dec, Neutralized, Erase, Tidy;
    TidyErases(CountPiece(i, n));
    TidyErases(IdPiece(c));
    TidyErases(KindPiece(c));
    TidyErases(ScorePiece(c));
    TidyOnItsLine(CountPiece(i, n));
    TidyOnItsLine(IdPiece(c));
    TidyOnItsLine(KindPiece(c));
    TidyOnItsLine(ScorePiece(c));
  }

  lemma HeadIsTidy(c: Recalled, i: int, n: int)
    requires TidyClaim(c)
    ensures Tidy(CountPiece(i, n)) && Tidy(IdPiece(c)) && Tidy(KindPiece(c)) && Tidy(ScorePiece(c))
  {
    CountIsTidy(i, n);
    ScoreIsTidy(c);
    hide CountPiece, ScorePiece;
  }

  lemma CountIsTidy(i: int, n: int)
    ensures Tidy(CountPiece(i, n))
  {
    DecIsTidy(i);
    DecIsTidy(n);
    hide Dec;
  }

  lemma ScoreIsTidy(c: Recalled)
    requires Tidy(c.score) && Tidy(c.confidence)
    ensures Tidy(ScorePiece(c))
  {
  }

  lemma StatementIsShown(c: Recalled)
    requires Tidy(c.statement)
    ensures Erase(StatementPiece(c)) == "  statement  " + c.statement && '\n' !in StatementPiece(c)
  {
    hide Neutralized, Erase;
    NeutralizedStaysOnLine(c.statement);
    Labelled("  statement  ", Neutralized(c.statement));
    EraseRestores(c.statement);
  }

  lemma {:induction false} LinesAreShown(lines: seq<string>)
    requires OnTheirLines(lines)
    ensures OnTheirLines(LinePieces(lines)) && |LinePieces(lines)| == |lines|
    ensures forall k | 0 <= k < |lines| :: Erased(LinePieces(lines))[k] == "    | " + Erased(lines)[k]
  {
    hide Erase;
    if lines != [] {
      var n := |lines| - 1;
      LinesAreShown(lines[..n]);
      Labelled("    | ", lines[n]);
      assert forall k | 0 <= k < n :: Erased(LinePieces(lines))[k] == Erased(LinePieces(lines[..n]))[k];
      assert forall k | 0 <= k < n :: Erased(lines)[k] == Erased(lines[..n])[k];
    }
  }

  lemma {:induction false} OneIsShown(e: Evidence)
    requires Tidy(e.path) && ZWSP !in e.text
    ensures OneShown(Erased([PathPiece(e)] + LinePieces(Split(Neutralized(e.text)))), e)
    ensures OnTheirLines([PathPiece(e)] + LinePieces(Split(Neutralized(e.text))))
  {
    DecIsTidy(e.lineStart);
    DecIsTidy(e.lineEnd);
    hide Dec, Neutralized, Erase, Split;
    TidyErases(PathPiece(e));
    SplitIsOneLine(Neutralized(e.text));
    LinesOfText(e.text);
    LinesAreShown(Split(Neutralized(e.text)));
    hide LinePieces;
    ErasedConcat([PathPiece(e)], LinePieces(Split(Neutralized(e.text))));
  }

  lemma {:induction false} EvidenceIsShown(es: seq<Evidence>)
    requires forall i | 0 <= i < |es| :: Tidy(es[i].path) && ZWSP !in es[i].text
    ensures EvidenceShown(Erased(EvidencePieces(es)), es) && OnTheirLines(EvidencePieces(es))
  {
    hide Erase, Tidy, OneShown, PathPiece, LinePieces, Split, Neutralized;
    if es != [] {
      var n := |es| - 1;
      EvidenceIsShown(es[..n]);
      OneIsShown(es[n]);
      var front, last := EvidencePieces(es[..n]), [PathPiece(es[n])] + LinePieces(Split(Neutralized(es[n].text)));
      assert EvidencePieces(es) == front + last;
      ErasedConcat(front, last);
      assert Erased(EvidencePieces(es))[..|front|] == Erased(front);
      assert Erased(EvidencePieces(es))[|front|..] == Erased(last);
    }
  }

  lemma {:induction false} ClaimIsShown(c: Recalled, i: int, n: int)
    requires TidyClaim(c)
    ensures ClaimShown(Erased(OneClaim(c, i, n)), c, i, n) && OnTheirLines(OneClaim(c, i, n))
  {
    HeadIsShown(c, i, n);
    EvidenceOfTidy(c);
    hide EvidenceShown, HeadPieces, EvidencePieces, TidyClaim, Dec, ClaimShown, Erase, OnTheirLines, Erased;
    var head, evidence := HeadPieces(c, i, n), EvidencePieces(c.evidence);
    OnLinesConcat(head + evidence, [""]);
    OnLinesConcat(head, evidence);
    EmptyOnLine();
    ErasedConcat(head + evidence, [""]);
    ErasedConcat(head, evidence);
    EraseEmpty();
    ClaimFrom(Erased(head), Erased(evidence), c, i, n);
  }

  lemma OnLinesConcat(a: seq<string>, b: seq<string>)
    requires OnTheirLines(a) && OnTheirLines(b)
    ensures OnTheirLines(a + b)
  {
  }

  lemma EmptyOnLine()
    ensures OnTheirLines([""])
  {
  }

  lemma EvidenceOfTidy(c: Recalled)
    requires TidyClaim(c)
    ensures EvidenceShown(Erased(EvidencePieces(c.evidence)), c.evidence) && OnTheirLines(EvidencePieces(c.evidence))
  {
    hide Tidy, EvidenceShown;
    EvidenceIsShown(c.evidence);
  }

  lemma EraseEmpty()
    ensures Erased([""]) == [""]
  {
  }

  lemma ClaimFrom(head: seq<string>, evidence: seq<string>, c: Recalled, i: int, n: int)
    requires head == ["claim " + Dec(i) + " of " + Dec(n), "  id         " + c.id, "  kind       " + c.kind,
                      "  statement  " + c.statement,
                      "  score      " + c.score + " (confidence " + c.confidence + ")"]
    requires EvidenceShown(evidence, c.evidence)
    ensures ClaimShown(head + evidence + [""], c, i, n)
  {
    hide Dec, EvidenceShown;
    var ls := head + evidence + [""];
    assert ls[5..|ls| - 1] == evidence;
    assert ls[0] == head[0] && ls[1] == head[1] && ls[2] == head[2] && ls[3] == head[3] && ls[4] == head[4];
  }

  lemma {:induction false} ClaimsAreShown(cs: seq<Recalled>, n: int)
    requires forall i | 0 <= i < |cs| :: TidyClaim(cs[i])
    ensures ClaimsShown(Erased(ClaimPieces(cs, n)), cs, n) && OnTheirLines(ClaimPieces(cs, n))
  {
    hide Erase, TidyClaim, OneClaim, ClaimShown;
    if cs != [] {
      var m := |cs| - 1;
      ClaimsAreShown(cs[..m], n);
      ClaimIsShown(cs[m], m + 1, n);
      var front, last := ClaimPieces(cs[..m], n), OneClaim(cs[m], m + 1, n);
      assert ClaimPieces(cs, n) == front + last;
      ErasedConcat(front, last);
      assert Erased(ClaimPieces(cs, n))[..|front|] == Erased(front);
      assert Erased(ClaimPieces(cs, n))[|front|..] == Erased(last);
    }
  }

  lemma {:induction false} SummaryIsShown(out: Output)
    requires Tidy(out.asOf) && Tidy(out.staleness)
    ensures SummaryShown(Erased(FooterPieces(out) + [""]), out) && OnTheirLines(FooterPieces(out))
  {
    SummaryIsTidy(out);
    OmittedIsTidy(out);
    hide Dec, Erase, Tidy;
    EmptyIsTidy();
    TidyErases("");
    TidyErases(Summary(out));
    TidyErases(Dec(out.omitted) + " further claims matched " + "and were dropped against the token ceiling.");
    hide Summary;
    TidyOnItsLine(Summary(out));
    TidyOnItsLine(Dec(out.omitted) + " further claims matched " + "and were dropped against the token ceiling.");
    TidyOnItsLine("");
    SummaryFrom(out);
  }

  lemma SummaryFrom(out: Output)
    requires Erase("") == "" && Erase(Summary(out)) == Summary(out)
    requires var last := Dec(out.omitted) + " further claims matched " + "and were dropped against the token ceiling.";
             Erase(last) == last
    ensures SummaryShown(Erased(FooterPieces(out) + [""]), out)
  {
    hide Dec, Erase;
  }

  lemma TidyOnItsLine(s: string)
    requires Tidy(s)
    ensures '\n' !in s
  {
  }

  lemma EmptyIsTidy()
    ensures Tidy("")
  {
  }

  lemma OmittedIsTidy(out: Output)
    ensures Tidy(Dec(out.omitted) + " further claims matched " + "and were dropped against the token ceiling.")
  {
    DecIsTidy(out.omitted);
    FurtherIsTidy();
    DroppedIsTidy();
    hide Dec, Tidy;
    TidyConcat(Dec(out.omitted) + " further claims matched ", "and were dropped against the token ceiling.");
    TidyConcat(Dec(out.omitted), " further claims matched ");
  }

  lemma FurtherIsTidy()
    ensures Tidy(" further claims matched ")
  {
  }

  lemma DroppedIsTidy()
    ensures Tidy("and were dropped against the token ceiling.")
  {
  }

  lemma SummaryIsTidy(out: Output)
    requires Tidy(out.asOf) && Tidy(out.staleness)
    ensures Tidy(Summary(out))
  {
    RestIsTidy(out);
    hide SummaryRest;
    TidyConcat("as_of " + out.asOf + ",", SummaryRest(out));
  }

  lemma RestIsTidy(out: Output)
    requires Tidy(out.staleness)
    ensures Tidy(SummaryRest(out))
  {
    DecIsTidy(out.returned);
    DecIsTidy(out.omitted);
    DecIsTidy(out.tokensUsed);
    DecIsTidy(out.tokenBudget);
    hide Dec;
  }

  /** The rendered text reads back: line by line, zero-width spaces erased, it shows every field in its place. */
  lemma {:induction false} TextReadsBack(preamble: Preamble, out: Output)
    requires TidyOutput(preamble, out)
    ensures Shown(Erased(Split(Unlines(Pieces(preamble, out)))), preamble, out)
  {
    hide ClaimPieces, ClaimsShown, SummaryShown, FooterPieces, TidyClaim, Unlines, Split, Tidy, Shown, Erase,
      BodyPieces;
    ClaimsAreShown(out.claims, |out.claims|);
    SummaryIsShown(out);
    BodyOnItsLines(out);
    PiecesOnTheirLines(preamble, out);
    SplitOfUnlines(Pieces(preamble, out));
    PiecesErased(preamble, out);
    hide Pieces, Erased;
    ShownFrom(preamble, Erased(BodyPieces(out)), Erased(FooterPieces(out) + [""]), out);
  }

  lemma ReadsBack(preamble: Preamble, out: Output)
    ensures TidyOutput(preamble, out) ==> Shown(Erased(Split(Unlines(Pieces(preamble, out)))), preamble, out)
  {
    hide TidyOutput, Shown, Erased, Split, Unlines, Pieces;
    if TidyOutput(preamble, out) { TextReadsBack(preamble, out); }
  }

  lemma PiecesOnTheirLines(preamble: Preamble, out: Output)
    requires (forall i | 0 <= i < |preamble| :: Tidy(preamble[i]))
    requires OnTheirLines(BodyPieces(out)) && OnTheirLines(FooterPieces(out))
    ensures OnTheirLines(Pieces(preamble, out))
  {
    hide BodyPieces, FooterPieces;
    MarkersAreTidy();
    assert OnTheirLines(preamble);
    hide Tidy;
  }

  lemma ShownFrom(preamble: seq<string>, body: seq<string>, foot: seq<string>, out: Output)
    requires SummaryShown(foot, out)
    requires if out.claims == [] then body == ["No claims matched."]
             else ClaimsShown(body, out.claims, |out.claims|)
    ensures Shown(preamble + [OPEN] + body + [CLOSE] + foot, preamble, out)
  {
    MarkersAre();
    hide SummaryShown, ClaimsShown;
    var ls := preamble + [OPEN] + body + [CLOSE] + foot;
    var a := |preamble|;
    var b := a + 1 + |body|;
    assert ls[..a] == preamble && ls[a] == OPEN && ls[b] == CLOSE;
    assert ls[a + 1..b] == body && ls[b + 1..] == foot;
  }

  lemma MarkersAre()
    ensures OPEN == "<<<CRED-RECALL-DATA-BEGIN>>>" && CLOSE == "<<<CRED-RECALL-DATA-END>>>"
  {
  }

  lemma MarkersAreTidy()
    ensures Tidy(OPEN) && Tidy(CLOSE)
  {
    MarkersAreMarkers();
  }

  lemma BodyOnItsLines(out: Output)
    requires OnTheirLines(ClaimPieces(out.claims, |out.claims|))
    ensures OnTheirLines(BodyPieces(out))
    ensures Erased(BodyPieces(out))
         == if out.claims == [] then ["No claims matched."] else Erased(ClaimPieces(out.claims, |out.claims|))
  {
    NoneIsTidy();
    hide Erase, ClaimPieces, Tidy;
    if out.claims == [] {
      NoClaims(out.claims, 0);
      assert out.claims[..0] == [];
      TidyErases("No claims matched.");
      TidyOnItsLine("No claims matched.");
      assert BodyPieces(out) == ["No claims matched."];
    } else {
      assert [] + ClaimPieces(out.claims, |out.claims|) == ClaimPieces(out.claims, |out.claims|);
    }
  }

  lemma NoneIsTidy()
    ensures Tidy("No claims matched.")
  {
  }

  lemma {:induction false} PiecesErased(preamble: Preamble, out: Output)
    requires forall i | 0 <= i < |preamble| :: Tidy(preamble[i])
    ensures Erased(Pieces(preamble, out) + [""])
         == preamble + [OPEN] + Erased(BodyPieces(out)) + [CLOSE] + Erased(FooterPieces(out) + [""])
  {
    MarkersAreTidy();
    hide BodyPieces, FooterPieces;
    var p, body, foot := preamble, BodyPieces(out), FooterPieces(out);
    forall i | 0 <= i < |p| ensures Erase(p[i]) == p[i] { TidyErases(p[i]); }
    TidyErases(OPEN);
    TidyErases(CLOSE);
    hide Erase;
    assert Erased(p) == p && Erased([OPEN]) == [OPEN] && Erased([CLOSE]) == [CLOSE];
    assert Pieces(p, out) + [""] == p + [OPEN] + body + [CLOSE] + (foot + [""]);
    ErasedConcat(p + [OPEN] + body + [CLOSE], foot + [""]);
    ErasedConcat(p + [OPEN] + body, [CLOSE]);
    ErasedConcat(p + [OPEN], body);
    ErasedConcat(p, [OPEN]);
  }

  // ---------- Rendering ----------

  /** One more piece of a text. */
  lemma Written(b: string, done: seq<string>, p: string, next: seq<string>)
    requires b == Unlines(done) && next == done + [p]
    ensures b + p + "\n" == Unlines(next)
  {
    UnlinesSnoc(done, p);
  }

  method Fence(preamble: Preamble, out: Output) returns (b: string)
    ensures b == Unlines(Pieces(preamble, out))
    ensures TidyOutput(preamble, out) ==> Shown(Erased(Split(b)), preamble, out)
  {
    hide Shown, Erased, Split, TidyOutput;
    ReadsBack(preamble, out);
    hide Unlines, ClaimPieces, FooterPieces, OneClaim, Summary;
    ghost var done := preamble;
    b := Unlines(preamble);
    b, done := Write(b, done, OPEN);
    ghost var top := done;
    if |out.claims| == 0 {
      b, done := Write(b, done, "No claims matched.");
    }
    ghost var start := done;
    var n := |out.claims|;
    NoClaims(out.claims, n);
    for i := 0 to n
      invariant b == Unlines(done) && done == start + ClaimPieces(out.claims[..i], n)
    {
      b, done := FenceClaim(b, done, out.claims[i], i, n);
      NextClaim(out.claims, i, n);
    }
    assert out.claims[..n] == out.claims;
    assert done == top + BodyPieces(out);
    hide BodyPieces;
    b, done := Write(b, done, CLOSE);
    b := FenceFooter(b, done, out);
    assert done + FooterPieces(out) == Pieces(preamble, out);
  }

  /** What follows the fence. */
  method FenceFooter(b: string, ghost done: seq<string>, out: Output) returns (b': string)
    requires b == Unlines(done)
    ensures b' == Unlines(done + FooterPieces(out))
  {
    hide Unlines, Summary;
    ghost var done';
    b', done' := Write(b, done, "");
    b', done' := Write(b', done', Summary(out));
    if out.omitted > 0 {
      b', done' := Write(b', done', Dec(out.omitted) + " further claims matched "
          + "and were dropped against the token ceiling.");
    }
    assert done' == done + FooterPieces(out);
  }

  method Write(b: string, ghost done: seq<string>, p: string) returns (b': string, ghost done': seq<string>)
    requires b == Unlines(done)
    ensures b' == Unlines(done') && done' == done + [p]
  {
    Written(b, done, p, done + [p]);
    b' := b + p + "\n";
    done' := done + [p];
  }

  /** The loop body for one claim. */
  method FenceClaim(b: string, ghost done: seq<string>, c: Recalled, i: nat, n: nat)
    returns (b': string, ghost done': seq<string>)
    requires b == Unlines(done)
    ensures b' == Unlines(done') && done' == done + OneClaim(c, i + 1, n)
  {
    hide Unlines, CountPiece, IdPiece, KindPiece, StatementPiece, ScorePiece, PathPiece, EvidencePieces, LinePieces,
        Neutralized, Split;
    b', done' := Write(b, done, CountPiece(i + 1, n));
    b', done' := Write(b', done', IdPiece(c));
    b', done' := Write(b', done', KindPiece(c));
    b', done' := Write(b', done', StatementPiece(c));
    b', done' := Write(b', done', ScorePiece(c));
    ghost var head := done';
    assert head == done + HeadPieces(c, i + 1, n);
    NoEvidence(c.evidence);
    for j := 0 to |c.evidence|
      invariant b' == Unlines(done') && done' == head + EvidencePieces(c.evidence[..j])
    {
      var e := c.evidence[j];
      b', done' := Write(b', done', PathPiece(e));
      ghost var top := done';
      var text := Neutralize(e.text);
      var lines := Split(text);
      NoLines(lines);
      for k := 0 to |lines|
        invariant b' == Unlines(done') && done' == top + LinePieces(lines[..k])
      {
        NextLine(lines, k);
        b', done' := Write(b', done', "    | " + lines[k]);
      }
      assert lines[..|lines|] == lines;
      NextEvidence(c.evidence, j);
    }
    assert c.evidence[..|c.evidence|] == c.evidence;
    b', done' := Write(b', done', "");
  }

  lemma NoLines(lines: seq<string>)
    ensures LinePieces(lines[..0]) == []
  {
  }

  lemma NextLine(lines: seq<string>, k: nat)
    requires k < |lines|
    ensures LinePieces(lines[..k + 1]) == LinePieces(lines[..k]) + ["    | " + lines[k]]
  {
    assert lines[..k + 1][..k] == lines[..k];
  }

  lemma NoEvidence(es: seq<Evidence>)
    ensures EvidencePieces(es[..0]) == []
  {
  }

  lemma NextEvidence(es: seq<Evidence>, j: nat)
    requires j < |es|
    ensures EvidencePieces(es[..j + 1])
         == EvidencePieces(es[..j]) + ([PathPiece(es[j])] + LinePieces(Split(Neutralized(es[j].text))))
  {
    assert es[..j + 1][..j] == es[..j];
  }

  lemma NoClaims(cs: seq<Recalled>, n: nat)
    ensures ClaimPieces(cs[..0], n) == []
  {
  }

  lemma NextClaim(cs: seq<Recalled>, i: nat, n: nat)
    requires i < |cs|
    ensures ClaimPieces(cs[..i + 1], n) == ClaimPieces(cs[..i], n) + OneClaim(cs[i], i + 1, n)
  {
    assert cs[..i + 1][..i] == cs[..i];
  }

  // ---------- Counting markers ----------

  function OccAll(pieces: seq<string>, m: string): nat {
    if pieces == [] then 0 else Occ(pieces[0], m) + OccAll(pieces[1..], m)
  }

  lemma {:induction false} OccOfUnlines(pieces: seq<string>, m: string)
    requires Marker(m)
    ensures Occ(Unlines(pieces), m) == OccAll(pieces, m)
  {
    hide Occ;
    if pieces == [] {
      OccInShort("", m);
    } else {
      OccOfUnlines(pieces[1..], m);
      OccSeparated(pieces[0], '\n', Unlines(pieces[1..]), m);
    }
  }

  lemma {:induction false} OccAllConcat(a: seq<string>, b: seq<string>, m: string)
    ensures OccAll(a + b, m) == OccAll(a, m) + OccAll(b, m)
  {
    hide Occ;
    if a == [] {
      assert a + b == b;
    } else {
      assert (a + b)[1..] == a[1..] + b;
      OccAllConcat(a[1..], b, m);
    }
  }

  lemma OccClean(s: string, m: string)
    requires Marker(m) && '<' !in s
    ensures Occ(s, m) == 0
  {
  }

  /** A label, a space, and a field. */
  lemma OccLabelled(tag: string, s: string, m: string)
    requires Marker(m) && '<' !in tag
    ensures Occ(tag + " " + s, m) == Occ(s, m)
  {
    OccSeparated(tag, ' ', s, m);
    OccClean(tag, m);
  }

  lemma JoinOfSplit(s: string)
    ensures Join(Split(s), "\n") == s
  {
  }

  lemma {:induction false} OccOfJoin(lines: seq<string>, m: string)
    requires Marker(m) && lines != []
    ensures Occ(Join(lines, "\n"), m) == OccAll(lines, m)
  {
    hide Occ;
    if |lines| == 1 {
      assert OccAll(lines[1..], m) == 0;
    } else {
      OccOfJoin(lines[1..], m);
      OccSeparated(lines[0], '\n', Join(lines[1..], "\n"), m);
    }
  }

  lemma {:induction false} OccOfLines(lines: seq<string>, m: string)
    requires Marker(m)
    ensures OccAll(LinePieces(lines), m) == OccAll(lines, m)
  {
    hide Occ;
    if lines != [] {
      var n := |lines| - 1;
      OccOfLines(lines[..n], m);
      OccAllConcat(LinePieces(lines[..n]), ["    | " + lines[n]], m);
      assert lines == lines[..n] + [lines[n]];
      OccAllConcat(lines[..n], [lines[n]], m);
      OccOne("    | " + lines[n], m);
      OccOne(lines[n], m);
      OccLabelled("    |", lines[n], m);
      assert "    |" + " " + lines[n] == "    | " + lines[n];
    }
  }

  lemma OccOne(s: string, m: string)
    ensures OccAll([s], m) == Occ(s, m)
  {
  }

  /** Quoted evidence holds no marker. */
  lemma {:induction false} OccOfQuoted(text: string, m: string)
    requires Marker(m) && (m == OPEN || m == CLOSE)
    ensures OccAll(LinePieces(Split(Neutralized(text))), m) == 0
  {
    hide Occ, Neutralized;
    NeutralizedHasNoMarker(text);
    var s := Neutralized(text);
    OccOfLines(Split(s), m);
    OccOfJoin(Split(s), m);
    JoinOfSplit(s);
  }

  lemma {:induction false} OccOfPath(e: Evidence, m: string)
    requires Marker(m)
    ensures Occ(PathPiece(e), m) == Occ(e.path, m)
  {
    var rest := Dec(e.lineStart) + "-" + Dec(e.lineEnd);
    hide Occ, Dec;
    assert PathPiece(e) == ("  evidence  " + " " + e.path) + ":" + rest;
    OccSeparated("  evidence  " + " " + e.path, ':', rest, m);
    OccClean(rest, m);
    OccLabelled("  evidence  ", e.path, m);
  }

  function PathsOcc(es: seq<Evidence>, m: string): nat {
    if es == [] then 0 else PathsOcc(es[..|es| - 1], m) + Occ(es[|es| - 1].path, m)
  }

  lemma {:induction false} OccOfEvidence(es: seq<Evidence>, m: string)
    requires Marker(m) && (m == OPEN || m == CLOSE)
    ensures OccAll(EvidencePieces(es), m) == PathsOcc(es, m)
  {
    hide Occ, PathPiece, LinePieces, Neutralized, Split;
    if es != [] {
      var n := |es| - 1;
      OccOfEvidence(es[..n], m);
      var quoted := LinePieces(Split(Neutralized(es[n].text)));
      OccAllConcat(EvidencePieces(es[..n]), [PathPiece(es[n])] + quoted, m);
      OccAllConcat([PathPiece(es[n])], quoted, m);
      OccOne(PathPiece(es[n]), m);
      OccOfPath(es[n], m);
      OccOfQuoted(es[n].text, m);
    }
  }

  lemma {:induction false} OccOfHead(c: Recalled, i: int, n: int, m: string)
    requires Marker(m) && (m == OPEN || m == CLOSE)
    ensures OccAll(HeadPieces(c, i, n), m) == Occ(c.id, m) + Occ(c.kind, m)
  {
    OccHeadPieces(c, i, n, m);
    hide Occ, OccAll, CountPiece, IdPiece, KindPiece, StatementPiece, ScorePiece;
    OccTwo(CountPiece(i, n), IdPiece(c), m);
    OccTwo(KindPiece(c), StatementPiece(c), m);
    OccOne(ScorePiece(c), m);
    var a, b := [CountPiece(i, n), IdPiece(c)], [KindPiece(c), StatementPiece(c)];
    OccAllConcat(a, b, m);
    OccAllConcat(a + b, [ScorePiece(c)], m);
    assert HeadPieces(c, i, n) == a + b + [ScorePiece(c)];
  }

  lemma OccTwo(s: string, t: string, m: string)
    ensures OccAll([s, t], m) == Occ(s, m) + Occ(t, m)
  {
    assert [s, t][1..] == [t];
    OccOne(t, m);
  }

  lemma {:induction false} OccHeadPieces(c: Recalled, i: int, n: int, m: string)
    requires Marker(m) && (m == OPEN || m == CLOSE)
    ensures Occ(CountPiece(i, n), m) == 0 && Occ(ScorePiece(c), m) == 0 && Occ(StatementPiece(c), m) == 0
    ensures Occ(IdPiece(c), m) == Occ(c.id, m) && Occ(KindPiece(c), m) == Occ(c.kind, m)
  {
    hide Occ, Dec, Neutralized;
    OccClean(CountPiece(i, n), m);
    OccClean(ScorePiece(c), m);
    OccLabelled("  id        ", c.id, m);
    assert "  id        " + " " == "  id         ";
    OccLabelled("  kind      ", c.kind, m);
    assert "  kind      " + " " == "  kind       ";
    OccLabelled("  statement ", Neutralized(c.statement), m);
    assert "  statement " + " " == "  statement  ";
    NeutralizedHasNoMarker(c.statement);
  }

  /** Markers in the fields that are written as they come. */
  function RawOcc(cs: seq<Recalled>, m: string): nat {
    if cs == [] then 0
    else
      var c := cs[|cs| - 1];
      RawOcc(cs[..|cs| - 1], m) + Occ(c.id, m) + Occ(c.kind, m) + PathsOcc(c.evidence, m)
  }

  lemma {:induction false} OccOfClaims(cs: seq<Recalled>, n: int, m: string)
    requires Marker(m) && (m == OPEN || m == CLOSE)
    ensures OccAll(ClaimPieces(cs, n), m) == RawOcc(cs, m)
  {
    hide Occ, HeadPieces, EvidencePieces;
    if cs != [] {
      var k := |cs| - 1;
      var c := cs[k];
      OccOfClaims(cs[..k], n, m);
      OccAllConcat(ClaimPieces(cs[..k], n), OneClaim(c, |cs|, n), m);
      OccAllConcat(HeadPieces(c, |cs|, n) + EvidencePieces(c.evidence), [""], m);
      OccAllConcat(HeadPieces(c, |cs|, n), EvidencePieces(c.evidence), m);
      OccOfHead(c, |cs|, n, m);
      OccOfEvidence(c.evidence, m);
      OccOne("", m);
      OccInShort("", m);
    }
  }

  lemma OmittedClean(out: Output)
    ensures '<' !in Dec(out.omitted) + " further claims matched " + "and were dropped against the token ceiling."
  {
  }

  lemma SummaryRestClean(out: Output)
    ensures '<' !in SummaryRest(out)
  {
  }

  lemma {:induction false} OccOfSummary(out: Output, m: string)
    requires Marker(m)
    ensures OccAll(FooterPieces(out), m) == Occ(out.asOf, m)
  {
    var rest := SummaryRest(out);
    var last := Dec(out.omitted) + " further claims matched " + "and were dropped against the token ceiling.";
    SummaryRestClean(out);
    OmittedClean(out);
    hide Occ, Dec, SummaryRest;
    assert Summary(out) == ("as_of" + " " + out.asOf) + "," + rest;
    OccSeparated("as_of" + " " + out.asOf, ',', rest, m);
    OccClean(rest, m);
    OccLabelled("as_of", out.asOf, m);
    OccClean(last, m);
    OccClean("", m);
    hide Summary;
    OccAllConcat(["", Summary(out)], if out.omitted > 0 then [last] else [], m);
    OccAllConcat([""], [Summary(out)], m);
    assert [""] + [Summary(out)] == ["", Summary(out)];
    OccOne("", m);
    OccOne(Summary(out), m);
    OccOne(last, m);
  }

  lemma {:induction false} OccOfMarkers(m: string)
    requires m == OPEN || m == CLOSE
    ensures Occ(OPEN, m) == (if m == OPEN then 1 else 0) && Occ(CLOSE, m) == (if m == CLOSE then 1 else 0)
  {
    hide Occ;
    OccOfItself(OPEN);
    OccOfItself(CLOSE);
    OccInShort(CLOSE, OPEN);
    CloseNotInOpen();
  }

  lemma OccOfItself(m: string)
    requires m != ""
    ensures Occ(m, m) == 1
  {
  }

  lemma CloseNotInOpen()
    ensures Occ(OPEN, CLOSE) == 0
  {
    hide Occ;
    var x, y := OPEN[..3], OPEN[3..];
    assert x + y == OPEN;
    forall k | 0 <= k < |x| ensures !(CLOSE <= (x + y)[k..]) {
      NotPrefix(CLOSE, OPEN[k..], if k == 0 then 20 else 3 - k);
    }
    OccSkips(x, y, CLOSE);
    OccInShort(y, CLOSE);
  }

  lemma {:induction false} OccAllClean(pieces: seq<string>, m: string)
    requires Marker(m) && Clean(pieces)
    ensures OccAll(pieces, m) == 0
  {
    hide Occ;
    if pieces != [] {
      OccClean(pieces[0], m);
      OccAllClean(pieces[1..], m);
    }
  }

  /** The text holds each marker once, and once more for every copy in an identifier, kind, path or as-of:
      these are the fields it writes as they come. */
  lemma {:induction false} MarkersInFence(preamble: Preamble, out: Output, m: string)
    requires m == OPEN || m == CLOSE
    ensures Occ(Unlines(Pieces(preamble, out)), m) == 1 + RawOcc(out.claims, m) + Occ(out.asOf, m)
  {
    hide Occ, Unlines, ClaimPieces, FooterPieces;
    MarkersAreMarkers();
    OccOfUnlines(Pieces(preamble, out), m);
    var none := if out.claims == [] then ["No claims matched."] else [];
    var p, body, foot := preamble, BodyPieces(out), FooterPieces(out);
    OccAllConcat(p + [OPEN] + body + [CLOSE], foot, m);
    OccAllConcat(p + [OPEN] + body, [CLOSE], m);
    OccAllConcat(p + [OPEN], body, m);
    OccAllConcat(p, [OPEN], m);
    OccAllConcat(none, ClaimPieces(out.claims, |out.claims|), m);
    OccOne(OPEN, m);
    OccOne(CLOSE, m);
    OccOfMarkers(m);
    OccAllClean(preamble, m);
    OccOfClaims(out.claims, |out.claims|, m);
    OccOfSummary(out, m);
    OccAllClean(none, m);
  }
}
