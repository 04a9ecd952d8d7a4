/** The string operations of Go's standard library that the modelled packages rely on.
    A string is a sequence of Unicode characters. */
module Strings {

  datatype Option<+T> = None | Some(value: T)

  /** The White_Space characters, as `unicode.IsSpace` has them. */
  predicate IsSpace(c: char) {
    || '\t' <= c <= '\r'
    || c == ' '
    || c == '\U{85}' || c == '\U{A0}' || c == '\U{1680}'
    || '\U{2000}' <= c <= '\U{200A}'
    || c == '\U{2028}' || c == '\U{2029}' || c == '\U{202F}' || c == '\U{205F}' || c == '\U{3000}'
  }

  predicate Blank(s: string) {
    forall i | 0 <= i < |s| :: IsSpace(s[i])
  }

  function TrimLeft(s: string): string {
    if s != "" && IsSpace(s[0]) then TrimLeft(s[1..]) else s
  }

  function TrimRight(s: string): string {
    if s != "" && IsSpace(s[|s| - 1]) then TrimRight(s[..|s| - 1]) else s
  }

  function TrimSpace(s: string): string {
    TrimRight(TrimLeft(s))
  }

  lemma {:induction false} TrimLeftDropsBlanks(s: string)
    ensures var r := TrimLeft(s);
            && (r != "" ==> !IsSpace(r[0]))
            && |r| <= |s| && r == s[|s| - |r|..] && Blank(s[..|s| - |r|])
  {
    if s != "" && IsSpace(s[0]) {
      TrimLeftDropsBlanks(s[1..]);
      var n := |s| - |TrimLeft(s)|;
      assert s[..n] == [s[0]] + s[1..][..n - 1];
    }
  }

  lemma {:induction false} TrimRightDropsBlanks(s: string)
    ensures var r := TrimRight(s);
            && (r != "" ==> !IsSpace(r[|r| - 1]))
            && |r| <= |s| && r == s[..|r|] && Blank(s[|r|..])
  {
    if s != "" && IsSpace(s[|s| - 1]) {
      TrimRightDropsBlanks(s[..|s| - 1]);
      var n := |TrimRight(s)|;
      assert s[n..] == s[..|s| - 1][n..] + [s[|s| - 1]];
    }
  }

  lemma TrimSpaceEmptyIffBlank(s: string)
    ensures TrimSpace(s) == "" <==> Blank(s)
  {
    var l := TrimLeft(s);
    TrimLeftDropsBlanks(s);
    TrimRightDropsBlanks(l);
    hide TrimLeft, TrimRight;
    assert s == s[..|s| - |l|] + l;
    if TrimSpace(s) == "" {
      assert l[0..] == l;
    } else {
      assert TrimRight(l)[0] == l[0];
    }
  }

  /** Trimming keeps the first character of a string that does not start with a space. */
  lemma TrimSpaceKeepsFirst(s: string)
    requires s != "" && !IsSpace(s[0])
    ensures TrimSpace(s) != "" && TrimSpace(s)[0] == s[0]
  {
    TrimSpaceEmptyIffBlank(s);
    TrimRightDropsBlanks(s);
  }

  /** `t` is `s` without the white space around it. */
  ghost predicate Trimmed(s: string, t: string) {
    && (exists a, b :: Around(s, a, t, b))
    && (t != "" ==> !IsSpace(t[0]) && !IsSpace(t[|t| - 1]))
  }

  ghost predicate Around(s: string, a: string, t: string, b: string) {
    s == a + t + b && Blank(a) && Blank(b)
  }

  lemma {:induction false} TrimSpaceIs(s: string, t: string)
    ensures TrimSpace(s) == t <==> Trimmed(s, t)
  {
    var l := TrimLeft(s);
    var r := TrimRight(l);
    TrimLeftDropsBlanks(s);
    TrimRightDropsBlanks(l);
    hide TrimLeft, TrimRight;
    assert Around(s, s[..|s| - |l|], r, l[|r|..]);
    if Trimmed(s, t) { TrimmedIsUnique(s, t, r); }
  }

  lemma {:induction false} TrimmedIsUnique(s: string, t: string, u: string)
    requires Trimmed(s, t) && Trimmed(s, u)
    ensures t == u
  {
    var a, b :| Around(s, a, t, b);
    var c, d :| Around(s, c, u, d);
    if t == "" || u == "" {
      AroundNothing(s, a, t, b, c, u, d);
      AroundNothing(s, c, u, d, a, t, b);
    } else {
      StartsLater(s, a, t, b, c, u, d);
      StartsLater(s, c, u, d, a, t, b);
      EndsEarlier(s, a, t, b, c, u, d);
      EndsEarlier(s, c, u, d, a, t, b);
      assert t == s[|a|..|s| - |b|];
    }
  }

  lemma AroundNothing(s: string, a: string, t: string, b: string, c: string, u: string, d: string)
    requires Around(s, a, t, b) && Around(s, c, u, d)
    ensures t == "" && u != "" ==> IsSpace(u[0])
  {
    assert t == "" ==> forall i | 0 <= i < |s| :: s[i] == if i < |a| then a[i] else b[i - |a|];
    assert u != "" ==> u[0] == s[|c|];
  }

  lemma StartsLater(s: string, a: string, t: string, b: string, c: string, u: string, d: string)
    requires Around(s, a, t, b) && Around(s, c, u, d) && u != "" && !IsSpace(u[0])
    ensures |a| <= |c|
  {
    assert s[|c|] == u[0];
    assert forall i | 0 <= i < |a| :: s[i] == a[i];
  }

  lemma EndsEarlier(s: string, a: string, t: string, b: string, c: string, u: string, d: string)
    requires Around(s, a, t, b) && Around(s, c, u, d) && u != "" && !IsSpace(u[|u| - 1])
    ensures |b| <= |d|
  {
    var i := |c| + |u| - 1;
    assert s[i] == u[|u| - 1];
    forall k | |s| - |b| <= k < |s| ensures IsSpace(s[k]) {
      assert s[k] == b[k - (|s| - |b|)];
    }
  }

  /** `strings.TrimLeft(s, "#")`. */
  function DropHashes(s: string): (r: string)
    ensures |r| <= |s| && r == s[|s| - |r|..]
    ensures r != "" ==> r[0] != '#'
    ensures forall i | 0 <= i < |s| - |r| :: s[i] == '#'
  {
    if s != "" && s[0] == '#' then DropHashes(s[1..]) else s
  }

  // ---------- Join and Split ----------

  function Join(parts: seq<string>, sep: string): string {
    if parts == [] then "" else if |parts| == 1 then parts[0] else parts[0] + sep + Join(parts[1..], sep)
  }

  /** `strings.Split(s, "\n")`. */
  function Split(s: string): (r: seq<string>)
    ensures |r| >= 1
  {
    if s == "" then [""]
    else if s[0] == '\n' then [""] + Split(s[1..])
    else
      var rest := Split(s[1..]);
      [[s[0]] + rest[0]] + rest[1..]
  }

  function SplitLines(s: string): seq<string> {
    if s == "" then []
    else
      var lines := Split(s);
      if lines[|lines| - 1] == "" then lines[..|lines| - 1] else lines
  }

  ghost predicate OneLine(s: string) {
    '\n' !in s
  }

  ghost predicate OneLines(ss: seq<string>) {
    forall i | 0 <= i < |ss| :: OneLine(ss[i])
  }

  lemma {:induction false} SplitOneLine(s: string)
    requires OneLine(s)
    ensures Split(s) == [s]
  {
    if s != "" {
      SplitOneLine(s[1..]);
      assert [s[0]] + s[1..] == s;
    }
  }

  lemma {:induction false} SplitFirst(line: string, rest: string)
    requires OneLine(line)
    ensures Split(line + "\n" + rest) == [line] + Split(rest)
  {
    if line == "" {
      assert ("" + "\n" + rest)[1..] == rest;
    } else {
      SplitFirst(line[1..], rest);
      var s := line + "\n" + rest;
      assert s[1..] == line[1..] + "\n" + rest;
      assert [s[0]] + line[1..] == line;
    }
  }

  lemma {:induction false} SplitOfJoin(lines: seq<string>)
    requires OneLines(lines) && lines != []
    ensures Split(Join(lines, "\n")) == lines
  {
    if |lines| == 1 {
      SplitOneLine(lines[0]);
    } else {
      SplitOfJoin(lines[1..]);
      SplitFirst(lines[0], Join(lines[1..], "\n"));
    }
  }

  /** Joining lines and splitting them again loses at most one final empty line. */
  lemma {:induction false} SplitLinesOfJoin(lines: seq<string>)
    requires OneLines(lines)
    ensures SplitLines(Join(lines, "\n")) == WithoutFinalEmpty(lines)
  {
    if lines != [] {
      SplitOfJoin(lines);
      assert Join(lines, "\n") == "" ==> lines == [""];
    }
  }

  function WithoutFinalEmpty(lines: seq<string>): seq<string> {
    if lines != [] && lines[|lines| - 1] == "" then lines[..|lines| - 1] else lines
  }

  lemma {:induction false} JoinBlank(parts: seq<string>, sep: string)
    requires Blank(sep)
    ensures Blank(Join(parts, sep)) <==> forall i | 0 <= i < |parts| :: Blank(parts[i])
  {
    if |parts| > 1 {
      JoinBlank(parts[1..], sep);
      var rest := Join(parts[1..], sep);
      var s := parts[0] + sep + rest;
      assert parts == [parts[0]] + parts[1..];
      if Blank(s) {
        assert forall i | 0 <= i < |parts[0]| :: parts[0][i] == s[i];
        assert forall i | 0 <= i < |rest| :: rest[i] == s[|parts[0]| + |sep| + i];
      }
    }
  }

  // ---------- Fields ----------

  /** The number of characters before the first space. */
  function WordLen(s: string): (n: nat)
    ensures n <= |s|
  {
    if s == "" || IsSpace(s[0]) then 0 else 1 + WordLen(s[1..])
  }

  /** `strings.Fields(s)`. */
  function Fields(s: string): seq<string> {
    if s == "" then []
    else if IsSpace(s[0]) then Fields(s[1..])
    else [s[..WordLen(s)]] + Fields(s[WordLen(s)..])
  }

  lemma {:induction false} WordLenIs(s: string, n: nat)
    requires n <= |s| && (n < |s| ==> IsSpace(s[n])) && forall i | 0 <= i < n :: !IsSpace(s[i])
    ensures WordLen(s) == n
  {
    if n > 0 {
      WordLenIs(s[1..], n - 1);
    }
  }

  lemma {:induction false} WordLenStops(s: string)
    ensures WordLen(s) < |s| ==> IsSpace(s[WordLen(s)])
    ensures forall i | 0 <= i < WordLen(s) :: !IsSpace(s[i])
  {
    if s != "" && !IsSpace(s[0]) {
      WordLenStops(s[1..]);
    }
  }

  lemma {:induction false} FieldsAreWords(s: string)
    ensures forall w <- Fields(s) :: w != "" && WordLen(w) == |w|
    ensures Fields(s) == [] <==> Blank(s)
  {
    if s != "" {
      if IsSpace(s[0]) {
        FieldsAreWords(s[1..]);
        assert s == [s[0]] + s[1..];
      } else {
        var n := WordLen(s);
        WordLenStops(s);
        WordLenIs(s[..n], n);
        FieldsAreWords(s[n..]);
      }
    }
  }

  lemma FieldsOfWord(w: string, rest: string)
    requires w != "" && WordLen(w) == |w|
    requires rest == "" || IsSpace(rest[0])
    ensures Fields(w + rest) == [w] + Fields(rest)
  {
    var s := w + rest;
    WordLenStops(w);
    assert forall i | 0 <= i < |w| :: s[i] == w[i];
    assert rest != "" ==> s[|w|] == rest[0];
    WordLenIs(s, |w|);
    assert s[..|w|] == w && s[|w|..] == rest;
  }

  /** Normalising is reversible: the fields can be read back from their single-spaced join. */
  lemma {:induction false} FieldsOfJoin(ws: seq<string>)
    requires forall w <- ws :: w != "" && WordLen(w) == |w|
    ensures Fields(Join(ws, " ")) == ws
  {
    hide Fields, WordLen;
    FieldsOfSpace("");
    if |ws| == 1 {
      FieldsOfWord(ws[0], "");
      assert ws[0] + "" == ws[0];
    } else if |ws| > 1 {
      FieldsOfJoin(ws[1..]);
      var rest := Join(ws[1..], " ");
      FieldsOfWord(ws[0], " " + rest);
      FieldsOfSpace(rest);
      assert ws[0] + " " + rest == ws[0] + (" " + rest);
    }
  }

  lemma FieldsOfSpace(rest: string)
    ensures Fields(" " + rest) == Fields(rest) && Fields("") == []
  {
    assert (" " + rest)[1..] == rest;
  }

  /** Fields break at every white space character. */
  lemma {:induction false} FieldsBreak(a: string, c: char, b: string)
    requires IsSpace(c)
    ensures Fields(a + [c] + b) == Fields(a) + Fields(b)
    decreases |a|
  {
    var s := a + [c] + b;
    hide IsSpace;
    if a == "" {
      assert s[1..] == b;
    } else if IsSpace(a[0]) {
      assert s[1..] == a[1..] + [c] + b;
      FieldsBreak(a[1..], c, b);
    } else {
      var n := WordLen(a);
      WordLenStops(a);
      WordLenIs(s, n);
      assert s[n..] == a[n..] + [c] + b && s[..n] == a[..n];
      FieldsBreak(a[n..], c, b);
    }
  }

  // ---------- Order ----------

  /** Go's `<` on strings. */
  predicate Less(a: string, b: string) {
    b != "" && (a == "" || a[0] < b[0] || (a[0] == b[0] && Less(a[1..], b[1..])))
  }

  lemma LessTotal(a: string, b: string)
    ensures !Less(a, a)
    ensures Less(a, b) || a == b || Less(b, a)
    ensures !(Less(a, b) && Less(b, a))
  {
  }

  lemma LessTrans(a: string, b: string, c: string)
    requires Less(a, b) && Less(b, c)
    ensures Less(a, c)
  {
  }

  /** That is the lexicographic order: where they first differ, one ends or has the lesser character. */
  lemma {:induction false} LessIff(a: string, b: string)
    ensures Less(a, b) <==> exists k :: FirstDifference(a, b, k) && (k == |a| || a[k] < b[k])
  {
    if b != "" && a != "" && a[0] == b[0] {
      LessIff(a[1..], b[1..]);
      if k :| FirstDifference(a[1..], b[1..], k) && (k == |a[1..]| || a[1..][k] < b[1..][k]) {
        assert a[..k + 1] == [a[0]] + a[1..][..k] && b[..k + 1] == [b[0]] + b[1..][..k];
        assert FirstDifference(a, b, k + 1);
      }
      if k :| FirstDifference(a, b, k) && (k == |a| || a[k] < b[k]) {
        assert a[1..][..k - 1] == a[..k][1..] && b[1..][..k - 1] == b[..k][1..];
        assert FirstDifference(a[1..], b[1..], k - 1);
      }
    } else {
      assert b != "" ==> FirstDifference(a, b, 0);
    }
  }

  /** `a` and `b` agree on the first `k` characters, and `b` goes on, with another character if `a` does too. */
  predicate FirstDifference(a: string, b: string, k: int) {
    0 <= k <= |a| && k < |b| && a[..k] == b[..k] && (k < |a| ==> a[k] != b[k])
  }
}
