/** Normalisation and pre-tokenisation. The character classes, NFD and the case map are parameters. */
module Normalizer {
  import opened Strings

  datatype Range = Range(lo: int, hi: int)

  /** Generated tables list disjoint ranges in order. */
  ghost predicate Sorted(tbl: seq<Range>) {
    && (forall i | 0 <= i < |tbl| :: tbl[i].lo <= tbl[i].hi)
    && (forall i, j | 0 <= i < j < |tbl| :: tbl[i].hi < tbl[j].lo)
  }

  /** The binary search finds a code point exactly when some range of the table holds it. */
  method InRanges(r: int, tbl: seq<Range>) returns (found: bool)
    requires Sorted(tbl)
    ensures found <==> exists i :: 0 <= i < |tbl| && tbl[i].lo <= r <= tbl[i].hi
  {
    var lo, hi := 0, |tbl|;
    while lo < hi
      invariant 0 <= lo <= hi <= |tbl|
      invariant forall i | 0 <= i < lo :: tbl[i].hi < r
      invariant forall i | hi <= i < |tbl| :: tbl[i].hi >= r
    {
      var mid := (lo + hi) / 2;
      if tbl[mid].hi >= r {
        hi := mid;
      } else {
        lo := mid + 1;
      }
    }
    found := lo < |tbl| && r >= tbl[lo].lo;
  }

  datatype Tables = Tables(
    control: char -> bool, whitespace: char -> bool, mark: char -> bool, punct: char -> bool, cjk: char -> bool,
    nfd: string -> string, lower: char -> Option<string>)

  /** Replaces every character by a string. */
  function Rewrite(f: char -> string, s: string): string {
    if s == "" then "" else Rewrite(f, s[..|s| - 1]) + f(s[|s| - 1])
  }

  function Clean(t: Tables): char -> string {
    c => if t.control(c) then "" else if t.whitespace(c) then " " else [c]
  }

  function Pad(t: Tables): char -> string {
    c => if t.cjk(c) then [' ', c, ' '] else [c]
  }

  function Unmark(t: Tables): char -> string {
    c => if t.mark(c) then "" else [c]
  }

  function Lower(t: Tables): char -> string {
    c => match t.lower(c) case Some(low) => low case None => [c]
  }

  function Normalize(t: Tables, s: string): string {
    Rewrite(Lower(t), Rewrite(Unmark(t), t.nfd(Rewrite(Pad(t), Rewrite(Clean(t), s)))))
  }

  method CleanText(t: Tables, s: string) returns (b: string)
    ensures b == Rewrite(Clean(t), s)
  {
    b := "";
    for i := 0 to |s|
      invariant b == Rewrite(Clean(t), s[..i])
    {
      assert s[..i + 1][..i] == s[..i];
      if t.control(s[i]) {
      } else if t.whitespace(s[i]) {
        b := b + " ";
      } else {
        b := b + [s[i]];
      }
    }
    assert s[..|s|] == s;
  }

  method PadCJK(t: Tables, s: string) returns (b: string)
    ensures b == Rewrite(Pad(t), s)
  {
    b := "";
    for i := 0 to |s|
      invariant b == Rewrite(Pad(t), s[..i])
    {
      assert s[..i + 1][..i] == s[..i];
      if t.cjk(s[i]) {
        b := b + [' ', s[i], ' '];
        continue;
      }
      b := b + [s[i]];
    }
    assert s[..|s|] == s;
  }

  method StripAccents(t: Tables, s: string) returns (b: string)
    ensures b == Rewrite(Unmark(t), t.nfd(s))
  {
    var d := t.nfd(s);
    b := "";
    for i := 0 to |d|
      invariant b == Rewrite(Unmark(t), d[..i])
    {
      assert d[..i + 1][..i] == d[..i];
      if t.mark(d[i]) {
        continue;
      }
      b := b + [d[i]];
    }
    assert d[..|d|] == d;
  }

  method Lowercase(t: Tables, s: string) returns (b: string)
    ensures b == Rewrite(Lower(t), s)
  {
    b := "";
    for i := 0 to |s|
      invariant b == Rewrite(Lower(t), s[..i])
    {
      assert s[..i + 1][..i] == s[..i];
      var low := t.lower(s[i]);
      if low.Some? {
        b := b + low.value;
        continue;
      }
      b := b + [s[i]];
    }
    assert s[..|s|] == s;
  }

  // ---------- Pre-tokenisation ----------

  /** The text without its whitespace. */
  function Dense(t: Tables, s: string): string {
    if s == "" then "" else Dense(t, s[..|s| - 1]) + if t.whitespace(s[|s| - 1]) then "" else [s[|s| - 1]]
  }

  predicate PlainChar(t: Tables, c: char) {
    !t.whitespace(c) && !t.punct(c)
  }

  /** A word is one punctuation character or a run of other characters; whitespace is in no word. */
  predicate IsWord(t: Tables, w: string) {
    || (|w| == 1 && t.punct(w[0]) && !t.whitespace(w[0]))
    || (w != "" && forall i | 0 <= i < |w| :: PlainChar(t, w[i]))
  }

  /** Two adjacent words may meet without whitespace only if one of them is punctuation. */
  function Words(t: Tables, s: string): seq<string> {
    var (words, cur) := WordsAndRest(t, s);
    Flush(words, cur)
  }

  function Flush(words: seq<string>, cur: string): seq<string> {
    if cur == "" then words else words + [cur]
  }

  /** The words completed by `s`, and the run of plain characters it ends with. */
  function WordsAndRest(t: Tables, s: string): (seq<string>, string) {
    if s == "" then ([], "")
    else
      var n := |s| - 1;
      var (words, cur) := WordsAndRest(t, s[..n]);
      if t.whitespace(s[n]) then (Flush(words, cur), "")
      else if t.punct(s[n]) then (Flush(words, cur) + [[s[n]]], "")
      else (words, cur + [s[n]])
  }

  method PreTokenize(t: Tables, s: string) returns (words: seq<string>)
    ensures words == Words(t, s)
  {
    words := [];
    var cur := "";
    for i := 0 to |s|
      invariant (words, cur) == WordsAndRest(t, s[..i])
    {
      assert s[..i + 1][..i] == s[..i];
      if t.whitespace(s[i]) {
        words := Flush(words, cur);
        cur := "";
      } else if t.punct(s[i]) {
        words := Flush(words, cur);
        cur := "";
        words := words + [[s[i]]];
      } else {
        cur := cur + [s[i]];
      }
    }
    assert s[..|s|] == s;
    words := Flush(words, cur);
  }

  function ConcatWords(words: seq<string>): string {
    if words == [] then "" else ConcatWords(words[..|words| - 1]) + words[|words| - 1]
  }

  lemma ConcatFlush(words: seq<string>, cur: string)
    ensures ConcatWords(Flush(words, cur)) == ConcatWords(words) + cur
  {
  }

  /** Pre-tokenising loses only whitespace, and every word is of one of the two kinds. */
  lemma {:induction false} WordsCoverText(t: Tables, s: string)
    ensures ConcatWords(Words(t, s)) == Dense(t, s)
    ensures forall i | 0 <= i < |Words(t, s)| :: IsWord(t, Words(t, s)[i])
  {
    WordsAndRestCover(t, s);
    var (words, cur) := WordsAndRest(t, s);
    ConcatFlush(words, cur);
  }

  ghost predicate AllPlain(t: Tables, cur: string) {
    forall i | 0 <= i < |cur| :: PlainChar(t, cur[i])
  }

  lemma {:induction false} WordsAndRestCover(t: Tables, s: string)
    ensures ConcatWords(WordsAndRest(t, s).0) + WordsAndRest(t, s).1 == Dense(t, s)
    ensures forall i | 0 <= i < |WordsAndRest(t, s).0| :: IsWord(t, WordsAndRest(t, s).0[i])
    ensures AllPlain(t, WordsAndRest(t, s).1)
  {
    hide ConcatWords, IsWord, PlainChar, Flush, AllPlain;
    if s == "" {
      NoWordsCover(t);
    } else {
      var n := |s| - 1;
      WordsAndRestCover(t, s[..n]);
      var (words, cur) := WordsAndRest(t, s[..n]);
      NextWordsCover(t, words, cur, s[n], Dense(t, s[..n]));
    }
  }

  lemma NoWordsCover(t: Tables)
    ensures ConcatWords([]) + "" == "" && AllPlain(t, "")
  {
  }

  lemma {:induction false} NextWordsCover(t: Tables, words: seq<string>, cur: string, c: char, dense: string)
    requires ConcatWords(words) + cur == dense && AllPlain(t, cur)
    requires forall i | 0 <= i < |words| :: IsWord(t, words[i])
    ensures forall i | 0 <= i < |Flush(words, cur)| :: IsWord(t, Flush(words, cur)[i])
    ensures t.punct(c) && !t.whitespace(c) ==> IsWord(t, [c])
    ensures !t.punct(c) && !t.whitespace(c) ==> AllPlain(t, cur + [c])
    ensures AllPlain(t, "")
    ensures ConcatWords(Flush(words, cur) + [[c]]) == dense + [c]
    ensures ConcatWords(words) + (cur + [c]) == dense + [c]
    ensures ConcatWords(Flush(words, cur)) + "" == dense
  {
  }

  // ---------- Where words break ----------

  lemma {:induction false} WordsAndRestAppend(t: Tables, a: string, c: char)
    ensures WordsAndRest(t, a + [c]) ==
              if t.whitespace(c) then (Words(t, a), "")
              else if t.punct(c) then (Words(t, a) + [[c]], "")
              else (WordsAndRest(t, a).0, WordsAndRest(t, a).1 + [c])
  {
  }

  /** Words break exactly at whitespace and around punctuation: at such a character the two sides are
      pre-tokenised on their own, and text without such characters is one word. */
  lemma {:induction false} WordsBreak(t: Tables, a: string, c: char, b: string)
    requires t.whitespace(c) || t.punct(c)
    ensures Words(t, a + [c] + b) == Words(t, a) + (if t.whitespace(c) then [] else [[c]]) + Words(t, b)
  {
    BreakThenRest(t, a, c, b);
    var (words, cur) := WordsAndRest(t, b);
  }

  lemma NoWords(t: Tables)
    ensures WordsAndRest(t, "") == ([], "")
  {
  }

  lemma WordsAre(t: Tables, s: string)
    ensures Words(t, s) == Flush(WordsAndRest(t, s).0, WordsAndRest(t, s).1)
  {
  }

  lemma {:induction false} BreakThenRest(t: Tables, a: string, c: char, b: string)
    requires t.whitespace(c) || t.punct(c)
    ensures var front := Words(t, a) + (if t.whitespace(c) then [] else [[c]]);
            WordsAndRest(t, a + [c] + b) == (front + WordsAndRest(t, b).0, WordsAndRest(t, b).1)
  {
    hide Words, WordsAndRest;
    var front := Words(t, a) + (if t.whitespace(c) then [] else [[c]]);
    if b == "" {
      WordsAndRestAppend(t, a, c);
      assert a + [c] + b == a + [c] && front + [] == front && Words(t, a) + [] == Words(t, a);
      NoWords(t);
    } else {
      var n := |b| - 1;
      BreakThenRest(t, a, c, b[..n]);
      assert a + [c] + b == (a + [c] + b[..n]) + [b[n]];
      WordsAndRestAppend(t, a + [c] + b[..n], b[n]);
      assert b == b[..n] + [b[n]];
      WordsAndRestAppend(t, b[..n], b[n]);
      var (words, cur) := WordsAndRest(t, b[..n]);
      WordsAre(t, b[..n]);
      WordsAre(t, a + [c] + b[..n]);
      assert Flush(front + words, cur) == front + Flush(words, cur);
      assert front + (Flush(words, cur) + [[b[n]]]) == front + Flush(words, cur) + [[b[n]]];
    }
  }

  lemma {:induction false} RunIsOneWord(t: Tables, w: string)
    requires AllPlain(t, w)
    ensures Words(t, w) == if w == "" then [] else [w]
  {
    RunIsHeld(t, w);
  }

  lemma {:induction false} RunIsHeld(t: Tables, w: string)
    requires AllPlain(t, w)
    ensures WordsAndRest(t, w) == ([], w)
  {
    if w != "" {
      var n := |w| - 1;
      RunIsHeld(t, w[..n]);
      assert PlainChar(t, w[n]);
      assert w == w[..n] + [w[n]];
    }
  }

  // ---------- What normalising does ----------

  /** What every table has of a space: it is white space and in no other class. */
  predicate PlainSpace(t: Tables) {
    t.whitespace(' ') && !t.control(' ') && !t.mark(' ') && !t.cjk(' ') && t.lower(' ').None?
  }

  /** Decomposition does not look past a space. */
  ghost predicate SplitsAtSpaces(t: Tables) {
    forall a, b :: t.nfd(a + " " + b) == t.nfd(a) + " " + t.nfd(b)
  }

  /** Neither dropped, nor a space, nor set apart. */
  predicate Ordinary(t: Tables, c: char) {
    !t.control(c) && !t.whitespace(c) && !t.cjk(c)
  }

  /** Marks are dropped and every other character is lower-cased. */
  function Lowered(t: Tables, d: string): string {
    if d == "" then ""
    else
      var c := d[|d| - 1];
      Lowered(t, d[..|d| - 1])
      + if t.mark(c) then "" else match t.lower(c) case Some(low) => low case None => [c]
  }

  lemma {:induction false} RewriteConcat(f: char -> string, a: string, b: string)
    ensures Rewrite(f, a + b) == Rewrite(f, a) + Rewrite(f, b)
  {
    if b == "" {
      assert a + b == a;
    } else {
      var n := |b| - 1;
      RewriteConcat(f, a, b[..n]);
      assert (a + b)[..|a + b| - 1] == a + b[..n] && (a + b)[|a + b| - 1] == b[n];
      var x, y, z := Rewrite(f, a), Rewrite(f, b[..n]), f(b[n]);
      assert x + y + z == x + (y + z);
    }
  }

  lemma RewriteOne(f: char -> string, c: char)
    ensures Rewrite(f, [c]) == f(c)
  {
    assert [c][..0] == "" && Rewrite(f, "") == "";
  }

  lemma {:induction false} RewriteAround(f: char -> string, a: string, c: char, b: string)
    ensures Rewrite(f, a + [c] + b) == Rewrite(f, a) + f(c) + Rewrite(f, b)
  {
    RewriteConcat(f, a + [c], b);
    RewriteConcat(f, a, [c]);
    RewriteOne(f, c);
  }

  lemma {:induction false} RewriteNothing(f: char -> string, s: string)
    requires forall i | 0 <= i < |s| :: f(s[i]) == [s[i]]
    ensures Rewrite(f, s) == s
  {
    if s != "" {
      RewriteNothing(f, s[..|s| - 1]);
    }
  }

  /** The text that is decomposed. */
  function Padded(t: Tables, s: string): string {
    Rewrite(Pad(t), Rewrite(Clean(t), s))
  }

  function Folded(t: Tables, d: string): string {
    Rewrite(Lower(t), Rewrite(Unmark(t), d))
  }

  lemma {:induction false} PaddedConcat(t: Tables, a: string, b: string)
    ensures Padded(t, a + b) == Padded(t, a) + Padded(t, b)
  {
    RewriteConcat(Clean(t), a, b);
    RewriteConcat(Pad(t), Rewrite(Clean(t), a), Rewrite(Clean(t), b));
  }

  lemma {:induction false} PaddedOne(t: Tables, c: char)
    requires PlainSpace(t)
    ensures Padded(t, [c])
         == if t.control(c) then "" else if t.whitespace(c) then " " else if t.cjk(c) then [' ', c, ' '] else [c]
  {
    RewriteOne(Clean(t), c);
    RewriteOne(Pad(t), c);
    RewriteOne(Pad(t), ' ');
    assert Rewrite(Pad(t), "") == "";
  }

  lemma {:induction false} PaddedAround(t: Tables, a: string, c: char, b: string)
    requires PlainSpace(t)
    ensures Padded(t, a + [c] + b) == Padded(t, a) + Padded(t, [c]) + Padded(t, b)
  {
    PaddedConcat(t, a + [c], b);
    PaddedConcat(t, a, [c]);
  }

  lemma {:induction false} FoldedIsLowered(t: Tables, d: string)
    ensures Folded(t, d) == Lowered(t, d)
  {
    if d != "" {
      var n := |d| - 1;
      FoldedIsLowered(t, d[..n]);
      RewriteConcat(Lower(t), Rewrite(Unmark(t), d[..n]), Unmark(t)(d[n]));
      RewriteOne(Lower(t), d[n]);
      assert Rewrite(Lower(t), "") == "";
    }
  }

  lemma {:induction false} FoldedAround(t: Tables, a: string, b: string)
    requires PlainSpace(t)
    ensures Folded(t, a + " " + b) == Folded(t, a) + " " + Folded(t, b)
  {
    RewriteAround(Unmark(t), a, ' ', b);
    RewriteAround(Lower(t), Rewrite(Unmark(t), a), ' ', Rewrite(Unmark(t), b));
  }

  lemma NormalizeIs(t: Tables, s: string)
    ensures Normalize(t, s) == Folded(t, t.nfd(Padded(t, s)))
  {
  }

  /** A control character leaves no trace. */
  lemma {:induction false} ControlsVanish(t: Tables, a: string, c: char, b: string)
    requires PlainSpace(t) && t.control(c)
    ensures Normalize(t, a + [c] + b) == Normalize(t, a + b)
  {
    PaddedAround(t, a, c, b);
    PaddedOne(t, c);
    PaddedConcat(t, a, b);
    NormalizeIs(t, a + [c] + b);
    NormalizeIs(t, a + b);
    hide Padded, Folded, Normalize;
    assert Padded(t, a) + "" == Padded(t, a);
  }

  lemma {:induction false} SpaceSeparates(t: Tables, d: string, e: string)
    requires PlainSpace(t)
    ensures Words(t, Folded(t, d + " " + e)) == Words(t, Folded(t, d)) + Words(t, Folded(t, e))
  {
    FoldedAround(t, d, e);
    hide Words, Folded;
    WordsBreak(t, Folded(t, d), ' ', Folded(t, e));
    assert Words(t, Folded(t, d)) + [] == Words(t, Folded(t, d));
  }

  /** Whatever white space it is, the two sides are tokenised on their own. */
  lemma {:induction false} WhitespaceSeparates(t: Tables, a: string, c: char, b: string)
    requires PlainSpace(t) && SplitsAtSpaces(t) && t.whitespace(c) && !t.control(c)
    ensures Words(t, Normalize(t, a + [c] + b)) == Words(t, Normalize(t, a)) + Words(t, Normalize(t, b))
  {
    PaddedAround(t, a, c, b);
    PaddedOne(t, c);
    NormalizeIs(t, a + [c] + b);
    NormalizeIs(t, a);
    NormalizeIs(t, b);
    hide Words, Padded, Folded, Normalize;
    SpaceSeparates(t, t.nfd(Padded(t, a)), t.nfd(Padded(t, b)));
  }

  /** A CJK character is tokenised on its own, and so are its two sides. */
  lemma {:induction false} CJKStandsAlone(t: Tables, a: string, c: char, b: string)
    requires PlainSpace(t) && SplitsAtSpaces(t) && t.cjk(c) && !t.control(c) && !t.whitespace(c)
    ensures Words(t, Normalize(t, a + [c] + b))
         == Words(t, Normalize(t, a)) + Words(t, Lowered(t, t.nfd([c]))) + Words(t, Normalize(t, b))
  {
    hide Words, Padded, Folded, Lowered, Normalize, PlainSpace, SplitsAtSpaces;
    PaddedAround(t, a, c, b);
    PaddedOne(t, c);
    assert [' ', c, ' '] == " " + [c] + " ";
    var front, back := Padded(t, a), Padded(t, b);
    SpacesSeparate(t, front, [c], back);
    NormalizeIs(t, a + [c] + b);
    NormalizeIs(t, a);
    NormalizeIs(t, b);
    FoldedIsLowered(t, t.nfd([c]));
  }

  lemma {:induction false} SpacesSeparate(t: Tables, a: string, m: string, b: string)
    requires PlainSpace(t) && SplitsAtSpaces(t)
    ensures Words(t, Folded(t, t.nfd(a + (" " + m + " ") + b)))
         == Words(t, Folded(t, t.nfd(a))) + Words(t, Folded(t, t.nfd(m))) + Words(t, Folded(t, t.nfd(b)))
  {
    hide Words, Folded, PlainSpace;
    assert a + (" " + m + " ") + b == a + " " + (m + " " + b);
    SpaceSeparates(t, t.nfd(a), t.nfd(m + " " + b));
    SpaceSeparates(t, t.nfd(m), t.nfd(b));
  }

  /** Where decomposition and lower-casing leave it alone, it is a word. */
  lemma {:induction false} CJKIsAWord(t: Tables, a: string, c: char, b: string)
    requires PlainSpace(t) && SplitsAtSpaces(t) && t.cjk(c) && !t.control(c) && !t.whitespace(c) && !t.mark(c)
    requires t.nfd([c]) == [c] && t.lower(c).None?
    ensures Words(t, Normalize(t, a + [c] + b)) == Words(t, Normalize(t, a)) + [[c]] + Words(t, Normalize(t, b))
  {
    CJKStandsAlone(t, a, c, b);
    assert Lowered(t, [c]) == Lowered(t, "") + [c] == [c];
    OneCharWord(t, c);
  }

  lemma {:induction false} OneCharWord(t: Tables, c: char)
    requires !t.whitespace(c)
    ensures Words(t, [c]) == [[c]]
  {
    WordsAndRestAppend(t, "", c);
    assert "" + [c] == [c];
  }

  /** Other text is decomposed, loses its marks, and is lower-cased after that. */
  lemma {:induction false} OrdinaryTextIsLowered(t: Tables, s: string)
    requires forall i | 0 <= i < |s| :: Ordinary(t, s[i])
    ensures Normalize(t, s) == Lowered(t, t.nfd(s))
  {
    RewriteNothing(Clean(t), s);
    RewriteNothing(Pad(t), s);
    FoldedIsLowered(t, t.nfd(s));
  }
}
