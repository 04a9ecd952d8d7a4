/** Splitting raw text around the special tokens: one pass per token refines one left-to-right scan. */
module AddedTokens {

  datatype Segment = Segment(text: string, special: bool)

  const ADDED_TOKENS := ["[PAD]", "[UNK]", "[CLS]", "[SEP]", "[MASK]"]

  /** A token is one pair of brackets around text without brackets, so two tokens never overlap. */
  predicate Bracketed(t: string) {
    && |t| >= 2 && t[0] == '[' && t[|t| - 1] == ']'
    && forall i | 0 < i < |t| - 1 :: t[i] != '[' && t[i] != ']'
  }

  predicate AllBracketed(toks: set<string>) {
    forall t <- toks :: Bracketed(t)
  }

  predicate Occurs(text: string, t: string, p: int) {
    0 <= p <= p + |t| <= |text| && forall k | 0 <= k < |t| :: text[p + k] == t[k]
  }

  ghost predicate Free(text: string, toks: set<string>) {
    forall t <- toks, p :: !Occurs(text, t, p)
  }

  lemma {:induction false} OccursAtStart(s: string, t: string)
    ensures Occurs(s, t, 0) <==> t <= s
  {
  }

  lemma {:induction false} OccursInTail(s: string, t: string)
    requires s != "" && !(t <= s)
    ensures forall p :: Occurs(s, t, p) <==> p > 0 && Occurs(s[1..], t, p - 1)
  {
  }

  /** `strings.Index`. */
  function Index(s: string, tok: string): (r: int)
    ensures r >= 0 ==> Occurs(s, tok, r)
    ensures forall p :: Occurs(s, tok, p) ==> 0 <= r <= p
  {
    if tok <= s then 0
    else if s == "" then -1
    else
      var r := Index(s[1..], tok);
      OccursInTail(s, tok);
      if r < 0 then -1 else r + 1
  }

  function Concat(segs: seq<Segment>): string {
    if segs == [] then "" else segs[0].text + Concat(segs[1..])
  }

  lemma {:induction false} ConcatAppend(a: seq<Segment>, b: seq<Segment>)
    ensures Concat(a + b) == Concat(a) + Concat(b)
  {
    if a == [] {
      assert a + b == b;
    } else {
      ConcatAppend(a[1..], b);
      assert (a + b)[1..] == a[1..] + b && (a + b)[0] == a[0];
      StringAssoc(a[0].text, Concat(a[1..]), Concat(b));
    }
  }

  lemma StringAssoc(a: string, b: string, c: string)
    ensures a + b + c == a + (b + c)
  {
  }

  // ---------- What a segmentation is ----------

  ghost predicate GoodSegment(s: Segment, toks: set<string>) {
    if s.special then s.text in toks else Free(s.text, toks)
  }

  ghost predicate Alternating(segs: seq<Segment>) {
    forall i | 0 < i < |segs| :: segs[i - 1].special || segs[i].special
  }

  /** Specials are tokens, plain segments contain no token, and no two plain segments are adjacent. */
  ghost predicate Segmented(segs: seq<Segment>, toks: set<string>) {
    && (forall i | 0 <= i < |segs| :: GoodSegment(segs[i], toks))
    && Alternating(segs)
  }

  ghost predicate NonEmpty(segs: seq<Segment>) {
    forall i | 0 <= i < |segs| :: segs[i].text != ""
  }

  /** A token cannot start inside a leading plain segment: it would lie within it or overlap the next token. */
  lemma {:induction false} NoTokenStartsInPlain(segs: seq<Segment>, toks: set<string>, t: string, p: nat)
    requires AllBracketed(toks) && t in toks && Segmented(segs, toks) && NonEmpty(segs)
    requires segs != [] && !segs[0].special && p < |segs[0].text|
    ensures !Occurs(Concat(segs), t, p)
  {
    var q, text := segs[0].text, Concat(segs);
    assert GoodSegment(segs[0], toks) && text == q + Concat(segs[1..]);
    if |segs| > 1 {
      assert segs[0].special || segs[1].special;
      assert GoodSegment(segs[1], toks) && Bracketed(segs[1].text);
      assert Concat(segs[1..]) == segs[1].text + Concat(segs[1..][1..]);
      assert text[|q|] == segs[1].text[0] == '[';
    }
    if p + |t| <= |q| {
      assert Occurs(text, t, p) ==> Occurs(q, t, p);
    } else {
      assert t[|q| - p] != '[';
    }
  }

  /** A text has at most one segmentation. */
  lemma {:induction false} SegmentationIsUnique(a: seq<Segment>, b: seq<Segment>, toks: set<string>)
    requires AllBracketed(toks)
    requires Segmented(a, toks) && NonEmpty(a) && Segmented(b, toks) && NonEmpty(b)
    requires Concat(a) == Concat(b)
    ensures a == b
  {
    if a != [] && b != [] {
      FirstSegmentsAgree(a, b, toks);
      assert a[0].text + Concat(a[1..]) == b[0].text + Concat(b[1..]);
      assert Concat(a[1..]) == Concat(a)[|a[0].text|..] == Concat(b[1..]);
      SegmentedTail(a, toks);
      SegmentedTail(b, toks);
      SegmentationIsUnique(a[1..], b[1..], toks);
      assert a == [a[0]] + a[1..] && b == [b[0]] + b[1..];
    }
  }

  lemma {:induction false} SegmentedTail(a: seq<Segment>, toks: set<string>)
    requires a != [] && Segmented(a, toks) && NonEmpty(a)
    ensures Segmented(a[1..], toks) && NonEmpty(a[1..])
  {
  }

  lemma {:induction false} FirstSegmentsAgree(a: seq<Segment>, b: seq<Segment>, toks: set<string>)
    requires AllBracketed(toks) && a != [] && b != []
    requires Segmented(a, toks) && NonEmpty(a) && Segmented(b, toks) && NonEmpty(b)
    requires Concat(a) == Concat(b)
    ensures a[0] == b[0]
  {
    var text := Concat(a);
    assert GoodSegment(a[0], toks) && GoodSegment(b[0], toks);
    assert text[..|a[0].text|] == a[0].text && text[..|b[0].text|] == b[0].text;
    if a[0].special && b[0].special {
      TokensAtSamePlace(text, a[0].text, b[0].text);
    } else if a[0].special {
      NoTokenStartsInPlain(b, toks, a[0].text, 0);
    } else if b[0].special {
      NoTokenStartsInPlain(a, toks, b[0].text, 0);
    } else if |a[0].text| < |b[0].text| {
      PlainEndsAtToken(a, b, toks);
    } else if |b[0].text| < |a[0].text| {
      PlainEndsAtToken(b, a, toks);
    }
  }

  lemma {:induction false} TokensAtSamePlace(text: string, t: string, u: string)
    requires Bracketed(t) && Bracketed(u) && t <= text && u <= text
    ensures t == u
  {
  }

  lemma {:induction false} PlainEndsAtToken(a: seq<Segment>, b: seq<Segment>, toks: set<string>)
    requires AllBracketed(toks) && a != [] && b != []
    requires Segmented(a, toks) && NonEmpty(a) && Segmented(b, toks) && NonEmpty(b)
    requires Concat(a) == Concat(b) && !a[0].special && !b[0].special
    ensures |a[0].text| >= |b[0].text|
  {
    var p := |a[0].text|;
    assert Concat(a) == a[0].text + Concat(a[1..]) && Concat(b) == b[0].text + Concat(b[1..]);
    if |a| > 1 {
      assert a[0].special || a[1].special;
      assert GoodSegment(a[1], toks);
      assert Concat(a[1..]) == a[1].text + Concat(a[1..][1..]);
      assert Occurs(Concat(b), a[1].text, p);
      if p < |b[0].text| {
        NoTokenStartsInPlain(b, toks, a[1].text, p);
      }
    }
  }

  // ---------- The single scan ----------

  /** The token `rest` starts with, if any. */
  function TokenAt(rest: string, tokens: seq<string>): (r: seq<string>)
    ensures |r| <= 1
    ensures r != [] ==> r[0] in tokens && r[0] <= rest
    ensures r == [] ==> forall t <- tokens :: !(t <= rest)
  {
    if tokens == [] then []
    else
      assert tokens == [tokens[0]] + tokens[1..];
      if tokens[0] <= rest then [tokens[0]] else TokenAt(rest, tokens[1..])
  }

  function Plain(text: string): seq<Segment> {
    if text == "" then [] else [Segment(text, false)]
  }

  /** One left-to-right scan: `held` is the plain text read since the last token. */
  function Scan(held: string, rest: string, tokens: seq<string>): seq<Segment>
    decreases |rest|
  {
    if rest == "" then Plain(held)
    else
      var t := TokenAt(rest, tokens);
      if t == [] || t[0] == "" then Scan(held + [rest[0]], rest[1..], tokens)
      else Plain(held) + [Segment(t[0], true)] + Scan("", rest[|t[0]|..], tokens)
  }

  function Tokens(tokens: seq<string>): set<string> {
    set t | t in tokens
  }

  /** No token starts inside `held` in the text `held + rest`. */
  ghost predicate HeldIsClear(held: string, rest: string, toks: set<string>) {
    forall t <- toks, p | 0 <= p < |held| :: !Occurs(held + rest, t, p)
  }

  lemma {:induction false} ScanIsSegmentation(held: string, rest: string, tokens: seq<string>)
    requires AllBracketed(Tokens(tokens)) && HeldIsClear(held, rest, Tokens(tokens))
    ensures Segmented(Scan(held, rest, tokens), Tokens(tokens)) && NonEmpty(Scan(held, rest, tokens))
    ensures Concat(Scan(held, rest, tokens)) == held + rest
    decreases |rest|
  {
    hide Occurs, Free, Bracketed, HeldIsClear;
    var toks := Tokens(tokens);
    if rest == "" {
      assert held + rest == held;
      HeldIsFree(held, rest, toks);
    } else {
      var t := TokenAt(rest, tokens);
      if t == [] || t[0] == "" {
        assert t == [] by {
          EmptyIsNoToken(toks);
        }
        HoldOneMore(held, rest, tokens);
        assert held + [rest[0]] + rest[1..] == held + rest;
        ScanIsSegmentation(held + [rest[0]], rest[1..], tokens);
      } else {
        var tail := Scan("", rest[|t[0]|..], tokens);
        NothingHeldIsClear(rest[|t[0]|..], toks);
        ScanIsSegmentation("", rest[|t[0]|..], tokens);
        HeldIsFree(held, rest, toks);
        assert rest == t[0] + rest[|t[0]|..];
        TokenThenRest(held, t[0], rest[|t[0]|..], tail, toks);
      }
    }
  }

  lemma {:induction false} TokenThenRest(held: string, t: string, rest: string, tail: seq<Segment>, toks: set<string>)
    requires Free(held, toks) && t in toks && t != ""
    requires Segmented(tail, toks) && NonEmpty(tail) && Concat(tail) == rest
    ensures var segs := Plain(held) + [Segment(t, true)] + tail;
            Segmented(segs, toks) && NonEmpty(segs) && Concat(segs) == held + (t + rest)
  {
  }

  lemma EmptyIsNoToken(toks: set<string>)
    requires AllBracketed(toks)
    ensures "" !in toks
  {
  }

  lemma NothingHeldIsClear(rest: string, toks: set<string>)
    ensures HeldIsClear("", rest, toks)
  {
  }

  lemma {:induction false} HoldOneMore(held: string, rest: string, tokens: seq<string>)
    requires rest != "" && TokenAt(rest, tokens) == [] && HeldIsClear(held, rest, Tokens(tokens))
    ensures HeldIsClear(held + [rest[0]], rest[1..], Tokens(tokens))
  {
    var whole := held + rest;
    assert held + [rest[0]] + rest[1..] == whole;
    forall u <- Tokens(tokens), p | 0 <= p <= |held| ensures !Occurs(whole, u, p) {
      OccursAtStart(rest, u);
      assert Occurs(whole, u, |held|) ==> Occurs(rest, u, 0);
    }
  }

  lemma {:induction false} HeldIsFree(held: string, rest: string, toks: set<string>)
    requires AllBracketed(toks) && HeldIsClear(held, rest, toks)
    ensures Free(held, toks)
  {
    forall t <- toks, p ensures !Occurs(held, t, p) {
      assert Occurs(held, t, p) ==> Occurs(held + rest, t, p);
    }
  }

  lemma {:induction false} JoinSegmented(a: seq<Segment>, b: seq<Segment>, toks: set<string>)
    requires Segmented(a, toks) && Segmented(b, toks)
    requires a != [] && b != [] ==> a[|a| - 1].special || b[0].special
    ensures Segmented(a + b, toks)
  {
  }

  // ---------- One pass per token ----------

  lemma {:induction false} FreeInside(text: string, toks: set<string>, i: nat, j: nat)
    requires Free(text, toks) && i <= j <= |text|
    ensures Free(text[i..j], toks)
  {
    forall t <- toks, p ensures !Occurs(text[i..j], t, p) {
      assert Occurs(text[i..j], t, p) ==> Occurs(text, t, i + p);
    }
  }

  /** The pieces of one plain segment around the occurrences of `tok`. */
  method SplitPlain(text: string, tok: string, ghost toks: set<string>) returns (next: seq<Segment>)
    requires Bracketed(tok) && Free(text, toks)
    ensures Concat(next) == text && Segmented(next, toks + {tok}) && NonEmpty(next)
  {
    next := [];
    var rest := text;
    hide Splitting, Occurs, Index;
    SplitStart(text, tok, toks);
    while true
      invariant Splitting(text, next, rest, tok, toks)
      decreases |rest|
    {
      var i := Index(rest, tok);
      if i < 0 {
        break;
      }
      SplitStep(text, next, rest, tok, toks, i);
      ghost var more := next + Plain(rest[..i]) + [Segment(tok, true)];
      if i > 0 {
        next := next + [Segment(rest[..i], false)];
      }
      next := next + [Segment(tok, true)];
      assert next == more;
      rest := rest[i + |tok|..];
    }
    SplitEnd(text, next, rest, tok, toks);
    ghost var more := next + Plain(rest);
    if rest != "" {
      next := next + [Segment(rest, false)];
    }
    assert next == more;
  }

  /** Part of a plain segment has been split; `rest` is still to be searched. */
  ghost predicate Splitting(text: string, next: seq<Segment>, rest: string, tok: string, toks: set<string>) {
    && Concat(next) + rest == text && Free(rest, toks)
    && Segmented(next, toks + {tok}) && NonEmpty(next) && (next != [] ==> next[|next| - 1].special)
  }

  lemma SplitStart(text: string, tok: string, toks: set<string>)
    requires Free(text, toks)
    ensures Splitting(text, [], text, tok, toks)
  {
  }

  lemma {:induction false} SplitStep(text: string, next: seq<Segment>, rest: string, tok: string, toks: set<string>,
      i: nat)
    requires Bracketed(tok) && Splitting(text, next, rest, tok, toks) && i == Index(rest, tok)
    ensures i + |tok| <= |rest| && tok != ""
    ensures Splitting(text, next + Plain(rest[..i]) + [Segment(tok, true)], rest[i + |tok|..], tok, toks)
  {
    assert tok != "";
    hide Occurs, Free, Bracketed, Index, Segmented, NonEmpty, Concat, Plain;
    FoundIsSlice(rest, tok, i);
    FreeBefore(rest, tok, i);
    FreeParts(rest, toks, i, i + |tok|);
    AddPieces(next, rest[..i], tok, toks);
    MoveAcross(Concat(next), rest, rest[..i], tok, rest[i + |tok|..]);
  }

  lemma {:induction false} SplitEnd(text: string, next: seq<Segment>, rest: string, tok: string, toks: set<string>)
    requires Splitting(text, next, rest, tok, toks) && Index(rest, tok) < 0
    ensures var more := next + Plain(rest);
            Concat(more) == text && Segmented(more, toks + {tok}) && NonEmpty(more)
  {
    AddPlain(next, rest, tok, toks);
  }

  lemma MoveAcross(a: string, rest: string, b: string, c: string, d: string)
    requires rest == b + c + d
    ensures a + b + c + d == a + rest
  {
  }

  lemma {:induction false} FoundIsSlice(rest: string, tok: string, i: nat)
    requires Occurs(rest, tok, i)
    ensures i + |tok| <= |rest| && rest == rest[..i] + tok + rest[i + |tok|..]
  {
  }

  lemma {:induction false} FreeParts(rest: string, toks: set<string>, i: nat, j: nat)
    requires Free(rest, toks) && i <= j <= |rest|
    ensures Free(rest[..i], toks) && Free(rest[j..], toks)
  {
    FreeInside(rest, toks, 0, i);
    FreeInside(rest, toks, j, |rest|);
    assert rest[0..i] == rest[..i] && rest[j..|rest|] == rest[j..];
  }

  lemma {:induction false} FreeBefore(rest: string, tok: string, i: nat)
    requires i == Index(rest, tok) && tok != ""
    ensures i <= |rest| && Free(rest[..i], {tok})
  {
    forall p ensures !Occurs(rest[..i], tok, p) {
      assert Occurs(rest[..i], tok, p) ==> Occurs(rest, tok, p);
    }
  }

  lemma {:induction false} AddPlain(next: seq<Segment>, piece: string, tok: string, toks: set<string>)
    requires Segmented(next, toks + {tok}) && NonEmpty(next) && (next != [] ==> next[|next| - 1].special)
    requires Free(piece, toks) && Free(piece, {tok})
    ensures var more := next + Plain(piece);
            Segmented(more, toks + {tok}) && NonEmpty(more) && Concat(more) == Concat(next) + piece
  {
    assert Free(piece, toks + {tok});
    JoinSegmented(next, Plain(piece), toks + {tok});
    ConcatAppend(next, Plain(piece));
  }

  lemma {:induction false} AddPieces(next: seq<Segment>, piece: string, tok: string, toks: set<string>)
    requires Bracketed(tok)
    requires Segmented(next, toks + {tok}) && NonEmpty(next) && (next != [] ==> next[|next| - 1].special)
    requires Free(piece, toks) && Free(piece, {tok})
    ensures var more := next + Plain(piece) + [Segment(tok, true)];
            && Segmented(more, toks + {tok}) && NonEmpty(more) && Concat(more) == Concat(next) + piece + tok
            && more[|more| - 1].special
  {
    AddPlain(next, piece, tok, toks);
    var one := [Segment(tok, true)];
    assert GoodSegment(one[0], toks + {tok});
    JoinSegmented(next + Plain(piece), one, toks + {tok});
    ConcatAppend(next + Plain(piece), one);
    assert Concat(one) == tok + Concat([]) == tok;
  }

  method Pass(segs: seq<Segment>, tok: string, ghost toks: set<string>) returns (next: seq<Segment>)
    requires Bracketed(tok) && AllBracketed(toks) && Segmented(segs, toks)
    ensures Concat(next) == Concat(segs) && Segmented(next, toks + {tok}) && NonEmpty(next)
  {
    next := [];
    for i := 0 to |segs|
      invariant Concat(next) == Concat(segs[..i]) && Segmented(next, toks + {tok}) && NonEmpty(next)
      invariant next != [] && !next[|next| - 1].special ==> i > 0 && !segs[i - 1].special
    {
      var seg := segs[i];
      assert GoodSegment(seg, toks) && (i > 0 ==> segs[i - 1].special || seg.special);
      assert segs[..i + 1] == segs[..i] + [seg];
      ConcatAppend(segs[..i], [seg]);
      assert Concat([seg]) == seg.text + Concat([]) == seg.text;
      var pieces: seq<Segment>;
      if seg.special {
        pieces := [seg];
      } else {
        pieces := SplitPlain(seg.text, tok, toks);
      }
      JoinSegmented(next, pieces, toks + {tok});
      ConcatAppend(next, pieces);
      next := next + pieces;
    }
    assert segs[..|segs|] == segs;
  }

  /** The passes, in whatever order the tokens are listed, equal one scan for all of them. */
  method SplitOnAddedTokens(text: string, tokens: seq<string>) returns (segs: seq<Segment>)
    requires tokens != [] && AllBracketed(Tokens(tokens))
    ensures segs == Scan("", text, tokens)
    ensures Concat(segs) == text && Segmented(segs, Tokens(tokens)) && NonEmpty(segs)
  {
    segs := [Segment(text, false)];
    assert text + "" == text;
    for i := 0 to |tokens|
      invariant Concat(segs) == text && Segmented(segs, Tokens(tokens[..i]))
      invariant i > 0 ==> NonEmpty(segs)
    {
      assert Tokens(tokens[..i + 1]) == Tokens(tokens[..i]) + {tokens[i]};
      segs := Pass(segs, tokens[i], Tokens(tokens[..i]));
    }
    assert tokens[..|tokens|] == tokens;
    ScanIsSegmentation("", text, tokens);
    SegmentationIsUnique(segs, Scan("", text, tokens), Tokens(tokens));
  }

  lemma {:induction false} OrderDoesNotMatter(text: string, tokens: seq<string>, tokens': seq<string>)
    requires AllBracketed(Tokens(tokens)) && Tokens(tokens) == Tokens(tokens')
    ensures Scan("", text, tokens) == Scan("", text, tokens')
  {
    ScanIsSegmentation("", text, tokens);
    ScanIsSegmentation("", text, tokens');
    SegmentationIsUnique(Scan("", text, tokens), Scan("", text, tokens'), Tokens(tokens));
  }

  /** A special segment for `t` starts `p` characters into the text. */
  ghost predicate SpecialAt(segs: seq<Segment>, t: string, p: int) {
    segs != [] && ((p == 0 && segs[0] == Segment(t, true)) || SpecialAt(segs[1..], t, p - |segs[0].text|))
  }

  lemma {:induction false} SpecialAtNotBefore(segs: seq<Segment>, t: string, p: int)
    requires NonEmpty(segs) && p < 0
    ensures !SpecialAt(segs, t, p)
  {
    if segs != [] {
      SpecialAtNotBefore(segs[1..], t, p - |segs[0].text|);
    }
  }

  /** The special segments are exactly the occurrences of the tokens. */
  lemma {:induction false} SpecialsAreTheOccurrences(segs: seq<Segment>, toks: set<string>, t: string, p: nat)
    requires AllBracketed(toks) && t in toks && Segmented(segs, toks) && NonEmpty(segs)
    ensures Occurs(Concat(segs), t, p) <==> SpecialAt(segs, t, p)
  {
    if segs == [] {
      assert Bracketed(t);
    } else {
      var n, rest := |segs[0].text|, segs[1..];
      SegmentedTail(segs, toks);
      if p >= n {
        SpecialsAreTheOccurrences(rest, toks, t, p - n);
        OccursAfter(segs[0].text, Concat(rest), t, p);
      } else {
        FirstOccurrence(segs, toks, t, p);
        SpecialAtNotBefore(rest, t, p - n);
      }
    }
  }

  lemma {:induction false} OccursAfter(a: string, b: string, t: string, p: nat)
    requires p >= |a|
    ensures Occurs(a + b, t, p) <==> Occurs(b, t, p - |a|)
  {
  }

  lemma {:induction false} FirstOccurrence(segs: seq<Segment>, toks: set<string>, t: string, p: nat)
    requires AllBracketed(toks) && t in toks && Segmented(segs, toks) && NonEmpty(segs)
    requires segs != [] && p < |segs[0].text|
    ensures Occurs(Concat(segs), t, p) <==> p == 0 && segs[0] == Segment(t, true)
  {
    var u, text := segs[0].text, Concat(segs);
    assert GoodSegment(segs[0], toks) && u <= text;
    if !segs[0].special {
      NoTokenStartsInPlain(segs, toks, t, p);
    } else if Occurs(text, t, p) {
      assert t[0] == text[p + 0] == u[p];
      assert text[..|t|] == t;
      TokensAtSamePlace(text, t, u);
    }
  }
}
