/** The WordPiece tokenizer over any vocabulary. */
module WordPiece {
  import opened Strings
  import opened Normalizer
  import opened AddedTokens

  const MAX_INPUT_CHARS_PER_WORD := 100
  const MAX_SEQUENCE_LENGTH := 512

  datatype Tokenizer = Tokenizer(vocab: map<string, nat>, unkID: nat, clsID: nat, sepID: nat)

  // ---------- The vocabulary ----------

  /** Each vocabulary line is numbered by its position; a repeated line keeps its last position. */
  ghost predicate Numbers(lines: seq<string>, vocab: map<string, nat>) {
    && (forall tok <- vocab :: vocab[tok] < |lines| && lines[vocab[tok]] == tok)
    && (forall i | 0 <= i < |lines| :: lines[i] in vocab && vocab[lines[i]] >= i)
  }

  ghost predicate LoadedFrom(t: Tokenizer, lines: seq<string>) {
    && Numbers(lines, t.vocab)
    && "[UNK]" in t.vocab && t.vocab["[UNK]"] == t.unkID
    && "[CLS]" in t.vocab && t.vocab["[CLS]"] == t.clsID
    && "[SEP]" in t.vocab && t.vocab["[SEP]"] == t.sepID
  }

  method New(lines: seq<string>) returns (t: Option<Tokenizer>)
    ensures t.Some? <==> "[UNK]" in lines && "[CLS]" in lines && "[SEP]" in lines
    ensures t.Some? ==> LoadedFrom(t.value, lines)
  {
    var vocab: map<string, nat> := map[];
    for i := 0 to |lines|
      invariant Numbers(lines[..i], vocab)
    {
      vocab := vocab[lines[i] := i];
    }
    assert lines[..|lines|] == lines;
    if "[UNK]" !in vocab || "[CLS]" !in vocab || "[SEP]" !in vocab {
      return None;
    }
    t := Some(Tokenizer(vocab, vocab["[UNK]"], vocab["[CLS]"], vocab["[SEP]"]));
  }

  /** Numbering is injective. */
  lemma VocabularyIsInjective(lines: seq<string>, vocab: map<string, nat>, a: string, b: string)
    requires Numbers(lines, vocab) && a in vocab && b in vocab && vocab[a] == vocab[b]
    ensures a == b
  {
  }

  // ---------- Greedy longest match ----------

  /** How a piece of a word is spelled in the vocabulary. */
  function Key(word: string, start: nat, end: nat): string
    requires start <= end <= |word|
  {
    if start > 0 then "##" + word[start..end] else word[start..end]
  }

  /** The end of the longest vocabulary piece starting at `start`, or `start` if there is none. */
  function LongestEnd(vocab: map<string, nat>, word: string, start: nat, end: nat): (e: nat)
    requires start <= end <= |word|
    ensures start <= e <= end
    ensures e > start ==> Key(word, start, e) in vocab
    ensures forall k | e < k <= end :: Key(word, start, k) !in vocab
  {
    if end == start then start
    else if Key(word, start, end) in vocab then end
    else LongestEnd(vocab, word, start, end - 1)
  }

  /** The greedy pieces of `word` from `start` on, or None if some position matches nothing. */
  function Pieces(vocab: map<string, nat>, word: string, start: nat): (r: Option<seq<nat>>)
    requires start <= |word|
    decreases |word| - start
  {
    if start == |word| then Some([])
    else
      var e := LongestEnd(vocab, word, start, |word|);
      if e == start then None
      else Prepend([vocab[Key(word, start, e)]], Pieces(vocab, word, e))
  }

  function Prepend(ids: seq<nat>, rest: Option<seq<nat>>): Option<seq<nat>> {
    match rest case None => None case Some(more) => Some(ids + more)
  }

  lemma PrependAppends(a: seq<nat>, b: seq<nat>, rest: Option<seq<nat>>)
    ensures Prepend([], rest) == rest
    ensures Prepend(a, Prepend(b, rest)) == Prepend(a + b, rest)
  {
    if rest.Some? {
      assert [] + rest.value == rest.value;
      assert a + (b + rest.value) == a + b + rest.value;
    }
  }

  function WordIds(t: Tokenizer, word: string): seq<nat> {
    if |word| > MAX_INPUT_CHARS_PER_WORD then [t.unkID]
    else match Pieces(t.vocab, word, 0)
      case None => [t.unkID]
      case Some(ids) => ids
  }

  method AppendWordPieces(t: Tokenizer, ids: seq<nat>, word: string) returns (r: seq<nat>)
    ensures r == ids + WordIds(t, word)
  {
    if |word| > MAX_INPUT_CHARS_PER_WORD {
      return ids + [t.unkID];
    }
    var start := 0;
    var pieces: seq<nat> := [];
    PrependAppends([], [], Pieces(t.vocab, word, 0));
    while start < |word|
      invariant 0 <= start <= |word|
      invariant Pieces(t.vocab, word, 0) == Prepend(pieces, Pieces(t.vocab, word, start))
    {
      var end := |word|;
      var matched: int := -1;
      while end > start
        invariant start <= end <= |word| && matched == -1
        invariant LongestEnd(t.vocab, word, start, end) == LongestEnd(t.vocab, word, start, |word|)
      {
        var sub := word[start..end];
        if start > 0 {
          sub := "##" + sub;
        }
        if sub in t.vocab {
          matched := t.vocab[sub];
          break;
        }
        end := end - 1;
      }
      if matched < 0 {
        return ids + [t.unkID];
      }
      PrependAppends(pieces, [matched], Pieces(t.vocab, word, end));
      pieces := pieces + [matched];
      start := end;
    }
    r := ids + pieces;
  }

  // ---------- What the tokens of a word are ----------

  /** `id` is the vocabulary's longest piece of the word from `a` on; it ends at `b`. */
  ghost predicate LongestPiece(vocab: map<string, nat>, word: string, a: nat, b: nat, id: nat) {
    && a < b <= |word| && Written(word, a, b) in vocab && vocab[Written(word, a, b)] == id
    && forall c | b < c <= |word| :: Written(word, a, c) !in vocab
  }

  function Written(word: string, a: nat, b: nat): string
    requires a <= b <= |word|
  {
    (if a == 0 then "" else "##") + word[a..b]
  }

  /** `ids` are longest pieces one after the other, from `a` to the end of the word. */
  ghost predicate Greedy(vocab: map<string, nat>, word: string, a: nat, ids: seq<nat>)
    decreases |ids|
  {
    if ids == [] then a == |word|
    else exists b: nat :: LongestPiece(vocab, word, a, b, ids[0]) && Greedy(vocab, word, b, ids[1..])
  }

  /** A word of at most a hundred characters that longest pieces make up has these; any other is unknown. */
  ghost predicate WordTokens(t: Tokenizer, word: string, ids: seq<nat>) {
    || (|word| <= 100 && Greedy(t.vocab, word, 0, ids))
    || (ids == [t.unkID] && !(|word| <= 100 && exists pieces :: Greedy(t.vocab, word, 0, pieces)))
  }

  lemma KeyIsWritten(word: string, a: nat, b: nat)
    requires a <= b <= |word|
    ensures Key(word, a, b) == Written(word, a, b)
  {
  }

  lemma {:induction false} LongestPieceIs(vocab: map<string, nat>, word: string, a: nat, b: nat, id: nat)
    requires a < |word|
    ensures LongestPiece(vocab, word, a, b, id)
            <==> a < b && b == LongestEnd(vocab, word, a, |word|) && vocab[Key(word, a, b)] == id
  {
    var e := LongestEnd(vocab, word, a, |word|);
    forall c | a <= c <= |word| ensures Key(word, a, c) == Written(word, a, c) {
      KeyIsWritten(word, a, c);
    }
  }

  lemma NoPieceAtEnd(vocab: map<string, nat>, word: string, id: nat)
    ensures forall b: nat :: !LongestPiece(vocab, word, |word|, b, id)
  {
  }

  lemma {:induction false} PiecesAreGreedy(vocab: map<string, nat>, word: string, a: nat, ids: seq<nat>)
    requires a <= |word|
    ensures Greedy(vocab, word, a, ids) <==> Pieces(vocab, word, a) == Some(ids)
    decreases |word| - a
  {
    hide Key, LongestPiece;
    if a < |word| {
      var e := LongestEnd(vocab, word, a, |word|);
      if ids != [] {
        forall b: nat ensures LongestPiece(vocab, word, a, b, ids[0])
                         <==> a < b && b == e && vocab[Key(word, a, b)] == ids[0] {
          LongestPieceIs(vocab, word, a, b, ids[0]);
        }
        if e > a {
          PiecesAreGreedy(vocab, word, e, ids[1..]);
          var v, rest := vocab[Key(word, a, e)], Pieces(vocab, word, e);
          assert ids == [ids[0]] + ids[1..];
          assert rest.Some? ==> ([v] + rest.value)[1..] == rest.value;
        }
      }
    } else if ids != [] {
      NoPieceAtEnd(vocab, word, ids[0]);
    }
  }

  lemma {:induction false} WordIdsAreTokens(t: Tokenizer, word: string, ids: seq<nat>)
    ensures WordTokens(t, word, ids) <==> ids == WordIds(t, word)
  {
    hide Greedy, Pieces;
    forall pieces ensures Greedy(t.vocab, word, 0, pieces) <==> Pieces(t.vocab, word, 0) == Some(pieces) {
      PiecesAreGreedy(t.vocab, word, 0, pieces);
    }
  }

  // ---------- Encoding ----------

  function WordsIds(t: Tokenizer, words: seq<string>): seq<nat> {
    if words == [] then [] else WordsIds(t, words[..|words| - 1]) + WordIds(t, words[|words| - 1])
  }

  /** A map lookup: Go reads a missing key as zero. */
  function Lookup(vocab: map<string, nat>, tok: string): nat {
    if tok in vocab then vocab[tok] else 0
  }

  function SegmentIds(t: Tokenizer, u: Tables, seg: Segment): seq<nat> {
    if seg.special then [Lookup(t.vocab, seg.text)] else WordsIds(t, Words(u, Normalize(u, seg.text)))
  }

  function SegmentsIds(t: Tokenizer, u: Tables, segs: seq<Segment>): seq<nat> {
    if segs == [] then [] else SegmentsIds(t, u, segs[..|segs| - 1]) + SegmentIds(t, u, segs[|segs| - 1])
  }

  /** The whole tokenisation, without any length limit. */
  function AllIds(t: Tokenizer, u: Tables, text: string): seq<nat> {
    SegmentsIds(t, u, Scan("", text, ADDED_TOKENS))
  }

  function Take(ids: seq<nat>, n: nat): seq<nat> {
    if |ids| > n then ids[..n] else ids
  }

  // ---------- What the tokens of a text are ----------

  function Flat(parts: seq<seq<nat>>): seq<nat> {
    if parts == [] then [] else Flat(parts[..|parts| - 1]) + parts[|parts| - 1]
  }

  /** A special token is its own number, or zero if the vocabulary does not have it; other text is the tokens of the
      words of its normal form. */
  ghost predicate SegmentTokens(t: Tokenizer, u: Tables, seg: Segment, ids: seq<nat>) {
    if seg.special then ids == [if seg.text in t.vocab then t.vocab[seg.text] else 0]
    else exists parts :: PartsOf(t, Words(u, Normalize(u, seg.text)), parts) && ids == Flat(parts)
  }

  ghost predicate PartsOf(t: Tokenizer, words: seq<string>, parts: seq<seq<nat>>) {
    |parts| == |words| && forall i | 0 <= i < |words| :: WordTokens(t, words[i], parts[i])
  }

  ghost predicate PartsOfSegments(t: Tokenizer, u: Tables, segs: seq<Segment>, parts: seq<seq<nat>>) {
    |parts| == |segs| && forall i | 0 <= i < |segs| :: SegmentTokens(t, u, segs[i], parts[i])
  }

  /** The text around its special tokens, segment by segment. */
  ghost predicate TextTokens(t: Tokenizer, u: Tables, text: string, ids: seq<nat>) {
    exists segs, parts ::
      && Segmented(segs, {"[PAD]", "[UNK]", "[CLS]", "[SEP]", "[MASK]"}) && NonEmpty(segs) && Concat(segs) == text
      && PartsOfSegments(t, u, segs, parts) && ids == Flat(parts)
  }

  lemma {:induction false} WordsIdsAreParts(t: Tokenizer, words: seq<string>, parts: seq<seq<nat>>)
    requires PartsOf(t, words, parts)
    ensures Flat(parts) == WordsIds(t, words)
  {
    hide WordTokens, WordIds;
    if words != [] {
      var n := |words| - 1;
      WordsIdsAreParts(t, words[..n], parts[..n]);
      WordIdsAreTokens(t, words[n], parts[n]);
    }
  }

  lemma {:induction false} WordsHaveParts(t: Tokenizer, words: seq<string>) returns (parts: seq<seq<nat>>)
    ensures PartsOf(t, words, parts)
  {
    hide WordTokens, WordIds;
    parts := [];
    for i := 0 to |words|
      invariant |parts| == i && forall j | 0 <= j < i :: WordTokens(t, words[j], parts[j])
    {
      WordIdsAreTokens(t, words[i], WordIds(t, words[i]));
      parts := parts + [WordIds(t, words[i])];
    }
  }

  lemma {:induction false} SegmentIdsAreTokens(t: Tokenizer, u: Tables, seg: Segment, ids: seq<nat>)
    ensures SegmentTokens(t, u, seg, ids) <==> ids == SegmentIds(t, u, seg)
  {
    hide PartsOf, WordsIds, Words, Normalize;
    if !seg.special {
      var words := Words(u, Normalize(u, seg.text));
      var parts := WordsHaveParts(t, words);
      WordsIdsAreParts(t, words, parts);
      forall parts | PartsOf(t, words, parts) ensures Flat(parts) == WordsIds(t, words) {
        WordsIdsAreParts(t, words, parts);
      }
    }
  }

  lemma {:induction false} SegmentsIdsAreParts(t: Tokenizer, u: Tables, segs: seq<Segment>, parts: seq<seq<nat>>)
    requires PartsOfSegments(t, u, segs, parts)
    ensures Flat(parts) == SegmentsIds(t, u, segs)
  {
    hide SegmentTokens, SegmentIds;
    if segs != [] {
      var n := |segs| - 1;
      SegmentsIdsAreParts(t, u, segs[..n], parts[..n]);
      SegmentIdsAreTokens(t, u, segs[n], parts[n]);
    }
  }

  lemma {:induction false} SegmentsHaveParts(t: Tokenizer, u: Tables, segs: seq<Segment>)
    returns (parts: seq<seq<nat>>)
    ensures PartsOfSegments(t, u, segs, parts)
  {
    hide SegmentTokens, SegmentIds;
    parts := [];
    for i := 0 to |segs|
      invariant |parts| == i && forall j | 0 <= j < i :: SegmentTokens(t, u, segs[j], parts[j])
    {
      SegmentIdsAreTokens(t, u, segs[i], SegmentIds(t, u, segs[i]));
      parts := parts + [SegmentIds(t, u, segs[i])];
    }
  }

  lemma AddedTokenSet()
    ensures Tokens(ADDED_TOKENS) == {"[PAD]", "[UNK]", "[CLS]", "[SEP]", "[MASK]"}
  {
  }

  /** A text has one tokenisation. */
  lemma {:induction false} TextTokensAre(t: Tokenizer, u: Tables, text: string, ids: seq<nat>)
    ensures TextTokens(t, u, text, ids) <==> ids == AllIds(t, u, text)
  {
    hide Scan, SegmentsIds, PartsOfSegments, Segmented, NonEmpty;
    var toks := Tokens(ADDED_TOKENS);
    AddedTokensAreBracketed();
    AddedTokenSet();
    var scan := Scan("", text, ADDED_TOKENS);
    NothingHeldIsClear(text, toks);
    assert "" + text == text;
    ScanIsSegmentation("", text, ADDED_TOKENS);
    var parts := SegmentsHaveParts(t, u, scan);
    SegmentsIdsAreParts(t, u, scan, parts);
    if TextTokens(t, u, text, ids) {
      var segs, parts :| Segmented(segs, toks) && NonEmpty(segs) && Concat(segs) == text
                         && PartsOfSegments(t, u, segs, parts) && ids == Flat(parts);
      SegmentationIsUnique(segs, scan, toks);
      SegmentsIdsAreParts(t, u, segs, parts);
    }
  }

  lemma AddedTokensAreBracketed()
    ensures AllBracketed(Tokens(ADDED_TOKENS))
  {
  }

  /** Either everything so far has been emitted, or at least the budget. */
  ghost predicate Emitted(t: Tokenizer, ids: seq<nat>, all: seq<nat>, budget: nat) {
    && ids != [] && ids[0] == t.clsID
    && (ids[1..] == all || (|ids| - 1 >= budget && ids[1..] <= all))
  }

  lemma EmitMore(t: Tokenizer, ids: seq<nat>, all: seq<nat>, more: seq<nat>, budget: nat)
    requires Emitted(t, ids, all, budget) && |ids| - 1 < budget
    ensures Emitted(t, ids + more, all + more, budget)
  {
  }

  lemma EmittedEnough(t: Tokenizer, ids: seq<nat>, all: seq<nat>, all': seq<nat>, budget: nat)
    requires Emitted(t, ids, all, budget) && |ids| - 1 >= budget && all <= all'
    ensures Emitted(t, ids, all', budget)
  {
  }

  lemma EmittedIsCut(t: Tokenizer, ids: seq<nat>, all: seq<nat>, budget: nat)
    requires Emitted(t, ids, all, budget)
    ensures (if |ids| > budget + 1 then ids[..budget + 1] else ids) == [t.clsID] + Take(all, budget)
  {
  }

  /** With or without its early exits, encoding is [CLS], the first 510 ids of the whole tokenisation, [SEP]. */
  method Encode(t: Tokenizer, u: Tables, text: string) returns (ids: seq<nat>)
    ensures ids == [t.clsID] + Take(AllIds(t, u, text), MAX_SEQUENCE_LENGTH - 2) + [t.sepID]
    ensures 2 <= |ids| <= MAX_SEQUENCE_LENGTH
    ensures exists all :: TextTokens(t, u, text, all)
                          && ids == [t.clsID] + (if |all| > 510 then all[..510] else all) + [t.sepID]
  {
    TextTokensAre(t, u, text, AllIds(t, u, text));
    hide TextTokens;
    hide Emitted, Scan, Normalize, SegmentsIds, SegmentIds;
    ids := [t.clsID];
    var budget := MAX_SEQUENCE_LENGTH - 2;
    AddedTokensAreBracketed();
    var segs := SplitOnAddedTokens(text, ADDED_TOKENS);
    NothingEmitted(t, u, segs, budget);
    for i := 0 to |segs|
      invariant Emitted(t, ids, SegmentsIds(t, u, segs[..i]), budget)
    {
      if |ids| - 1 >= budget {
        SegmentsIdsPrefix(t, u, segs, i);
        EmittedEnough(t, ids, SegmentsIds(t, u, segs[..i]), SegmentsIds(t, u, segs), budget);
        break;
      }
      var seg := segs[i];
      SegmentsIdsNext(t, u, segs, i);
      if seg.special {
        EmitMore(t, ids, SegmentsIds(t, u, segs[..i]), [Lookup(t.vocab, seg.text)], budget);
        ids := ids + [Lookup(t.vocab, seg.text)];
        continue;
      }
      ids := AppendWords(t, u, ids, seg.text, SegmentsIds(t, u, segs[..i]), budget);
    }
    assert segs[..|segs|] == segs;
    EmittedIsCut(t, ids, SegmentsIds(t, u, segs), budget);
    if |ids| > budget + 1 {
      ids := ids[..budget + 1];
    }
    ids := ids + [t.sepID];
  }

  lemma NothingEmitted(t: Tokenizer, u: Tables, segs: seq<Segment>, budget: nat)
    ensures Emitted(t, [t.clsID], SegmentsIds(t, u, segs[..0]), budget)
  {
  }

  lemma SegmentsIdsNext(t: Tokenizer, u: Tables, segs: seq<Segment>, i: nat)
    requires i < |segs|
    ensures SegmentsIds(t, u, segs[..i + 1]) == SegmentsIds(t, u, segs[..i]) +
              if segs[i].special then [Lookup(t.vocab, segs[i].text)]
              else WordsIds(t, Words(u, Normalize(u, segs[i].text)))
  {
    assert segs[..i + 1][..i] == segs[..i];
  }

  /** The inner loop of encoding: the words of one plain segment, until the budget is reached. */
  method AppendWords(t: Tokenizer, u: Tables, ids: seq<nat>, text: string, ghost done: seq<nat>, budget: nat)
      returns (r: seq<nat>)
    requires |ids| - 1 < budget && Emitted(t, ids, done, budget)
    ensures Emitted(t, r, done + WordsIds(t, Words(u, Normalize(u, text))), budget)
  {
    hide Emitted, Words, Rewrite, WordIds, WordsIds;
    r := ids;
    var clean := CleanText(u, text);
    var padded := PadCJK(u, clean);
    var stripped := StripAccents(u, padded);
    var norm := Lowercase(u, stripped);
    var words := PreTokenize(u, norm);
    NoWordsIds(t, words, done);
    for i := 0 to |words|
      invariant Emitted(t, r, done + WordsIds(t, words[..i]), budget)
    {
      if |r| - 1 >= budget {
        WordsIdsPrefix(t, words, i);
        EmittedEnough(t, r, done + WordsIds(t, words[..i]), done + WordsIds(t, words), budget);
        return;
      }
      WordsIdsNext(t, words, i, done);
      EmitMore(t, r, done + WordsIds(t, words[..i]), WordIds(t, words[i]), budget);
      r := AppendWordPieces(t, r, words[i]);
    }
    assert words[..|words|] == words;
  }

  lemma NoWordsIds(t: Tokenizer, words: seq<string>, done: seq<nat>)
    ensures done + WordsIds(t, words[..0]) == done
  {
  }

  lemma WordsIdsNext(t: Tokenizer, words: seq<string>, i: nat, done: seq<nat>)
    requires i < |words|
    ensures done + WordsIds(t, words[..i + 1]) == done + WordsIds(t, words[..i]) + WordIds(t, words[i])
  {
    assert words[..i + 1][..i] == words[..i];
  }

  lemma {:induction false} WordsIdsPrefix(t: Tokenizer, words: seq<string>, i: nat)
    requires i <= |words|
    ensures WordsIds(t, words[..i]) <= WordsIds(t, words)
    decreases |words|
  {
    if i < |words| {
      assert words[..|words| - 1][..i] == words[..i];
      WordsIdsPrefix(t, words[..|words| - 1], i);
    } else {
      assert words[..i] == words;
    }
  }

  lemma {:induction false} SegmentsIdsPrefix(t: Tokenizer, u: Tables, segs: seq<Segment>, i: nat)
    requires i <= |segs|
    ensures SegmentsIds(t, u, segs[..i]) <= SegmentsIds(t, u, segs)
    decreases |segs|
  {
    if i < |segs| {
      assert segs[..|segs| - 1][..i] == segs[..i];
      SegmentsIdsPrefix(t, u, segs[..|segs| - 1], i);
    } else {
      assert segs[..i] == segs;
    }
  }

  // ---------- Decoding ----------

  /** The text a piece stands for. */
  function Strip(piece: string): string {
    if "##" <= piece then piece[2..] else piece
  }

  function PieceText(lines: seq<string>, id: nat): string {
    if id < |lines| then Strip(lines[id]) else ""
  }

  /** Decoding: the pieces with their "##" removed, run together. */
  function Spell(lines: seq<string>, ids: seq<nat>): string {
    if ids == [] then "" else PieceText(lines, ids[0]) + Spell(lines, ids[1..])
  }

  lemma {:induction false} SpellAppend(lines: seq<string>, a: seq<nat>, b: seq<nat>)
    ensures Spell(lines, a + b) == Spell(lines, a) + Spell(lines, b)
  {
    if a == [] {
      assert a + b == b;
    } else {
      SpellAppend(lines, a[1..], b);
      assert (a + b)[1..] == a[1..] + b && (a + b)[0] == a[0];
      StringAssoc(PieceText(lines, a[0]), Spell(lines, a[1..]), Spell(lines, b));
    }
  }

  lemma {:induction false} SpellOne(lines: seq<string>, id: nat)
    ensures Spell(lines, [id]) == PieceText(lines, id)
  {
  }

  /** The greedy pieces of a word spell the word. */
  lemma {:induction false} PiecesSpellWord(lines: seq<string>, vocab: map<string, nat>, word: string, start: nat)
    requires Numbers(lines, vocab) && start <= |word| && !("##" <= word)
    requires Pieces(vocab, word, start).Some?
    ensures Spell(lines, Pieces(vocab, word, start).value) == word[start..]
    decreases |word| - start
  {
    if start < |word| {
      var e := LongestEnd(vocab, word, start, |word|);
      var key := Key(word, start, e);
      PiecesSpellWord(lines, vocab, word, e);
      SpellOne(lines, vocab[key]);
      SpellAppend(lines, [vocab[key]], Pieces(vocab, word, e).value);
      KeyStandsForSlice(word, start, e);
      assert word[start..] == word[start..e] + word[e..];
    }
  }

  lemma KeyStandsForSlice(word: string, start: nat, e: nat)
    requires start < e <= |word| && !("##" <= word)
    ensures Strip(Key(word, start, e)) == word[start..e]
  {
  }

  lemma {:induction false} WordIdsSpell(t: Tokenizer, lines: seq<string>, word: string)
    requires LoadedFrom(t, lines) && !("##" <= word) && t.unkID !in WordIds(t, word)
    ensures Spell(lines, WordIds(t, word)) == word
  {
    PiecesSpellWord(lines, t.vocab, word, 0);
    assert word[0..] == word;
  }

  /** "#" is punctuation, so no word starts with "##". */
  lemma WordsDoNotContinue(u: Tables, word: string)
    requires u.punct('#') && IsWord(u, word)
    ensures !("##" <= word)
  {
    assert forall c | PlainChar(u, c) :: c != '#';
  }

  lemma {:induction false} WordsIdsSpell(t: Tokenizer, u: Tables, lines: seq<string>, words: seq<string>)
    requires LoadedFrom(t, lines) && u.punct('#') && t.unkID !in WordsIds(t, words)
    requires forall i | 0 <= i < |words| :: IsWord(u, words[i])
    ensures Spell(lines, WordsIds(t, words)) == ConcatWords(words)
  {
    hide Numbers, WordIds, IsWord;
    if words != [] {
      var n := |words| - 1;
      WordsIdsSpell(t, u, lines, words[..n]);
      WordsDoNotContinue(u, words[n]);
      WordIdsSpell(t, lines, words[n]);
      SpellAppend(lines, WordsIds(t, words[..n]), WordIds(t, words[n]));
    }
  }

  /** What can be read back: special tokens as they stand, other text normalised and without whitespace. */
  function Readable(u: Tables, segs: seq<Segment>): string {
    if segs == [] then ""
    else Readable(u, segs[..|segs| - 1]) + ReadableOne(u, segs[|segs| - 1])
  }

  ghost predicate SpecialsKnown(t: Tokenizer, segs: seq<Segment>) {
    forall i | 0 <= i < |segs| && segs[i].special :: segs[i].text in t.vocab
  }

  lemma {:induction false} SegmentsIdsSpell(t: Tokenizer, u: Tables, lines: seq<string>, segs: seq<Segment>)
    requires LoadedFrom(t, lines) && u.punct('#') && SpecialsKnown(t, segs)
    requires Segmented(segs, Tokens(ADDED_TOKENS)) && t.unkID !in SegmentsIds(t, u, segs)
    ensures Spell(lines, SegmentsIds(t, u, segs)) == Readable(u, segs)
  {
    hide WordsIds, Words, Normalize, IsWord, SegmentIds, Numbers, GoodSegment;
    if segs != [] {
      var n, seg := |segs| - 1, segs[|segs| - 1];
      SegmentedInit(segs, Tokens(ADDED_TOKENS));
      hide Segmented;
      SegmentsIdsSpell(t, u, lines, segs[..n]);
      SpellAppend(lines, SegmentsIds(t, u, segs[..n]), SegmentIds(t, u, seg));
      SegmentSpells(t, u, lines, seg);
    }
  }

  function ReadableOne(u: Tables, seg: Segment): string {
    if seg.special then seg.text else Dense(u, Normalize(u, seg.text))
  }

  lemma {:induction false} SegmentSpells(t: Tokenizer, u: Tables, lines: seq<string>, seg: Segment)
    requires LoadedFrom(t, lines) && u.punct('#') && (seg.special ==> seg.text in t.vocab)
    requires GoodSegment(seg, Tokens(ADDED_TOKENS)) && t.unkID !in SegmentIds(t, u, seg)
    ensures Spell(lines, SegmentIds(t, u, seg)) == ReadableOne(u, seg)
  {
    hide WordsIds, Words, Normalize, IsWord;
    if seg.special {
      SpellOne(lines, Lookup(t.vocab, seg.text));
      AddedTokensAreBracketed();
      assert Bracketed(seg.text);
    } else {
      var words := Words(u, Normalize(u, seg.text));
      WordsCoverText(u, Normalize(u, seg.text));
      WordsIdsSpell(t, u, lines, words);
    }
  }

  lemma {:induction false} SegmentedInit(segs: seq<Segment>, toks: set<string>)
    requires segs != [] && Segmented(segs, toks)
    ensures Segmented(segs[..|segs| - 1], toks) && GoodSegment(segs[|segs| - 1], toks)
  {
  }

  /** A text free of a token has no segment for it. */
  lemma {:induction false} FreeOfSpecials(t: Tokenizer, segs: seq<Segment>)
    requires Segmented(segs, Tokens(ADDED_TOKENS)) && NonEmpty(segs)
    requires Free(Concat(segs), Tokens(ADDED_TOKENS) - t.vocab.Keys)
    ensures SpecialsKnown(t, segs)
  {
    AddedTokensAreBracketed();
    forall i | 0 <= i < |segs| && segs[i].special ensures segs[i].text in t.vocab {
      assert GoodSegment(segs[i], Tokens(ADDED_TOKENS));
      var p := SpecialPlace(segs, i);
      SpecialsAreTheOccurrences(segs, Tokens(ADDED_TOKENS), segs[i].text, p);
    }
  }

  lemma {:induction false} SpecialPlace(segs: seq<Segment>, i: nat) returns (p: nat)
    requires i < |segs| && segs[i].special
    ensures SpecialAt(segs, segs[i].text, p)
  {
    if i == 0 {
      p := 0;
    } else {
      p := SpecialPlace(segs[1..], i - 1);
      p := p + |segs[0].text|;
    }
  }

  /** The round trip: when no piece is [UNK], nothing is cut off and the vocabulary has the added tokens that
      occur, the ids between [CLS] and [SEP] decode to those and the normalised, whitespace-free text between. */
  lemma {:induction false} DecodeEncoded(t: Tokenizer, u: Tables, lines: seq<string>, text: string, ids: seq<nat>)
    requires LoadedFrom(t, lines) && u.punct('#') && Free(text, Tokens(ADDED_TOKENS) - t.vocab.Keys)
    requires ids == [t.clsID] + Take(AllIds(t, u, text), MAX_SEQUENCE_LENGTH - 2) + [t.sepID]
    requires |AllIds(t, u, text)| <= MAX_SEQUENCE_LENGTH - 2 && t.unkID !in AllIds(t, u, text)
    ensures Spell(lines, ids[1..|ids| - 1]) == Readable(u, Scan("", text, ADDED_TOKENS))
    ensures text != "" && Free(text, Tokens(ADDED_TOKENS))
        ==> Spell(lines, ids[1..|ids| - 1]) == Dense(u, Normalize(u, text))
  {
    hide Scan, SegmentsIds, Readable, Normalize;
    AddedTokensAreBracketed();
    NothingHeldIsClear(text, Tokens(ADDED_TOKENS));
    assert "" + text == text;
    ScanIsSegmentation("", text, ADDED_TOKENS);
    var segs := Scan("", text, ADDED_TOKENS);
    FreeOfSpecials(t, segs);
    SegmentsIdsSpell(t, u, lines, segs);
    assert ids[1..|ids| - 1] == AllIds(t, u, text);
    if Free(text, Tokens(ADDED_TOKENS)) {
      ReadablePlain(u, text);
      assert Concat(Plain(text)) == text by {
        ConcatPlain(text);
      }
      SegmentationIsUnique(segs, Plain(text), Tokens(ADDED_TOKENS));
    }
  }

  lemma ConcatPlain(text: string)
    ensures Concat(Plain(text)) == text
  {
  }

  lemma ReadablePlain(u: Tables, text: string)
    ensures text != "" ==> Readable(u, Plain(text)) == Dense(u, Normalize(u, text))
  {
  }
}
