/** Redacting forbidden words from answers: one regular-expression substitution per
    word found, against a one-pass description of the result. */
module Redaction {
  import opened Wrappers
  import opened Sequences
  import opened Ascii
  import opened RedactionPattern

  // ----- One substitution -----

  function Placeholder(col: string): string {
    "[" + Upper(col) + " REDACTED]"
  }

  /** `re.sub` of the pattern for one word, from i on. */
  function SubFrom(t: string, i: nat, col: string): string
    requires i <= |t|
    decreases |t| - i, 1
  {
    if i == |t| then ""
    else if WordAt(t, i, col) then SubWord(t, i, col)
    else [t[i]] + SubFrom(t, i + 1, col)
  }

  /** At an occurrence of the word: replaced with its tail, or copied if nothing is
      left for the tail. */
  function SubWord(t: string, i: nat, col: string): string
    requires i < |t| && WordAt(t, i, col)
    decreases |t| - i, 0
  {
    if TailAfter(t, i + |col|).Some? then Placeholder(col) + SubFrom(t, TailAfter(t, i + |col|).value, col)
    else [t[i]] + SubFrom(t, i + 1, col)
  }

  function Sub(t: string, col: string): string { SubFrom(t, 0, col) }

  lemma SubMatch(out: string, i: nat, j: nat, col: string, end: nat)
    requires i < end <= |out| && WordAt(out, i, col) && j == i + |col| && Tail(out, j) == Some(end)
    ensures SubFrom(out, i, col) == Placeholder(col) + SubFrom(out, end, col)
  {
  }

  lemma SubNoMatch(out: string, i: nat, j: nat, n: nat, col: string)
    requires i < |out| && WordAt(out, i, col) && j == i + |col| && Tail(out, j).None? && n == i + 1
    ensures SubFrom(out, i, col) == [out[i]] + SubFrom(out, n, col)
  {
  }

  lemma SubNoWord(out: string, i: nat, n: nat, col: string)
    requires i < |out| && !WordAt(out, i, col) && n == i + 1
    ensures SubFrom(out, i, col) == [out[i]] + SubFrom(out, n, col)
  {
  }

  // ----- The one-pass description -----

  /** The word that starts at i, in lower case. */
  function WordHere(t: string, i: nat): Option<string>
    requires i <= |t|
  {
    if i < |t| && WordChar(t[i]) && BoundaryLeft(t, i) then Some(Lower(t[i..RunEnd(t, i)])) else None
  }

  lemma WordInSegment(t: string, i: nat)
    requires i < |t| && WordChar(t[i])
    ensures i < RunEnd(t, i) <= SegEnd(t, i)
  {
    RunEndInside(t, i);
  }

  /** The word at i is cut, with the rest of its segment: it is one of `cols`, and - if
      `ends` is false - something follows it in its segment. */
  predicate Cut(t: string, i: nat, cols: set<string>, ends: bool)
    requires i <= |t|
  {
    && WordHere(t, i).Some? && WordHere(t, i).value in cols
    && (ends || RunEnd(t, i) < SegEnd(t, i))
  }

  function RedactedFrom(t: string, i: nat, cols: set<string>, ends: bool): string
    requires i <= |t|
    decreases |t| - i
  {
    if i == |t| then ""
    else if Cut(t, i, cols, ends) then
      WordInSegment(t, i);
      Placeholder(WordHere(t, i).value) + RedactedFrom(t, SegEnd(t, i), cols, ends)
    else [t[i]] + RedactedFrom(t, i + 1, cols, ends)
  }

  /** In every segment, what precedes the first word in `cols`, then that word's
      placeholder. */
  function Redacted(t: string, cols: set<string>): string { RedactedFrom(t, 0, cols, true) }

  /** What a forbidden column name looks like. */
  predicate ColumnName(w: string) {
    w != "" && w != "redacted" && Lower(w) == w && forall k | 0 <= k < |w| :: WordChar(w[k])
  }

  /** `\bcol\b` matches exactly where the whole word is col. */
  lemma WordAtIs(t: string, i: nat, col: string)
    requires i <= |t| && ColumnName(col)
    ensures WordAt(t, i, col) <==> WordHere(t, i) == Some(col)
    ensures WordAt(t, i, col) ==> RunEnd(t, i) == i + |col|
  {
    if WordAt(t, i, col) {
      forall k | i <= k < i + |col| ensures WordChar(t[k]) {
        assert LowerChar(t[i..i + |col|][k - i]) == col[k - i];
        assert WordChar(col[k - i]);
      }
      RunEndIs(t, i, i + |col|);
    }
    if WordHere(t, i) == Some(col) {
      assert |Lower(t[i..RunEnd(t, i)])| == RunEnd(t, i) - i;
    }
  }

  lemma SegEndAfterWord(t: string, i: nat)
    requires i < |t| && WordChar(t[i])
    ensures SegEnd(t, RunEnd(t, i)) == SegEnd(t, i)
  {
    WordInSegment(t, i);
    if RunEnd(t, i) < SegEnd(t, i) {
      SegEndShared(t, i, RunEnd(t, i));
    }
  }

  lemma CopyStep(t: string, i: nat, cols: set<string>, ends: bool)
    requires i < |t| && !Cut(t, i, cols, ends)
    ensures RedactedFrom(t, i, cols, ends) == [t[i]] + RedactedFrom(t, i + 1, cols, ends)
  {
  }

  lemma CutStep(t: string, i: nat, e: nat, x: string, cols: set<string>, ends: bool)
    requires i < |t| && Cut(t, i, cols, ends) && e == SegEnd(t, i) && Some(x) == WordHere(t, i)
    ensures RedactedFrom(t, i, cols, ends) == Placeholder(x) + RedactedFrom(t, e, cols, ends)
  {
  }

  // ----- The words and segments of a redacted text -----

  predicate LeftWord(s: string) { s != "" && WordChar(s[|s| - 1]) }

  /** A word starts after `pre` just where it starts at i in t (no word starts at a
      delimiter or at the end). */
  predicate SameLeft(t: string, i: nat, pre: string)
    requires i <= |t|
  {
    i == |t| || Delim(t[i]) || LeftWord(t[..i]) == LeftWord(pre)
  }

  lemma SameLeftNext(t: string, i: nat, pre: string)
    requires i < |t|
    ensures SameLeft(t, i + 1, pre + [t[i]])
  {
  }

  /** No word starts inside a word. */
  lemma InsideWord(t: string, i: nat, k: nat)
    requires i < |t| && i < k < RunEnd(t, i)
    ensures WordHere(t, k).None?
  {
    RunEndInside(t, i);
  }

  /** A word that is not cut is copied as a whole. */
  lemma CopiesWord(t: string, i: nat, j: nat, k: nat, cols: set<string>, ends: bool)
    requires i <= |t| && i <= k <= j && j == RunEnd(t, i) && (i < k || !Cut(t, i, cols, ends))
    ensures RedactedFrom(t, k, cols, ends) == t[k..j] + RedactedFrom(t, j, cols, ends)
    decreases j - k
  {
    if k < j {
      if i < k {
        InsideWord(t, i, k);
      }
      CopyStep(t, k, cols, ends);
      CopiesWord(t, i, j, k + 1, cols, ends);
      HeadSlice(t, k, j);
      Regroup([t[k]], t[k + 1..j], RedactedFrom(t, j, cols, ends));
    }
  }

  /** What is copied from the end of a word on does not begin with a word character. */
  lemma AfterWord(t: string, i: nat, cols: set<string>, ends: bool)
    requires i <= |t| && (i == |t| || !WordChar(t[i]))
    ensures var r := RedactedFrom(t, i, cols, ends); r == "" || !WordChar(r[0])
  {
  }

  /** A run of word characters between others is read as one word. */
  lemma ReadsWord(pre: string, w: string, rest: string)
    requires w != "" && (forall k | 0 <= k < |w| :: WordChar(w[k])) && (rest == "" || !WordChar(rest[0]))
    ensures WordHere(pre + (w + rest), |pre|) == if LeftWord(pre) then None else Some(Lower(w))
  {
    var out, a, b := pre + (w + rest), |pre|, |pre + w|;
    forall k | a <= k < b ensures WordChar(out[k]) {
      assert out[k] == w[k - a];
    }
    assert rest != "" ==> out[b] == rest[0];
    RunEndIs(out, a, b);
    assert out[a..b] == w;
  }

  lemma RunSlice(t: string, i: nat)
    requires i <= |t|
    ensures forall k | 0 <= k < RunEnd(t, i) - i :: WordChar(t[i..RunEnd(t, i)][k])
  {
    RunEndInside(t, i);
  }

  lemma LeftWordIs(t: string, i: nat)
    requires i <= |t|
    ensures LeftWord(t[..i]) <==> !BoundaryLeft(t, i)
  {
  }

  lemma WordCarriesWhole(t: string, i: nat, cols: set<string>, ends: bool, pre: string)
    requires i < |t| && WordChar(t[i]) && SameLeft(t, i, pre)
    requires !Cut(t, i, cols, ends)
    ensures WordHere(pre + RedactedFrom(t, i, cols, ends), |pre|) == WordHere(t, i)
  {
    var j := RunEnd(t, i);
    CopiesWord(t, i, j, i, cols, ends);
    AfterWord(t, j, cols, ends);
    RunSlice(t, i);
    LeftWordIs(t, i);
    ReadsWord(pre, t[i..j], RedactedFrom(t, j, cols, ends));
  }

  /** The words of the redacted text are those of the original, up to what is cut. */
  lemma WordCarries(t: string, i: nat, cols: set<string>, ends: bool, pre: string)
    requires i < |t| && SameLeft(t, i, pre) && !Cut(t, i, cols, ends)
    ensures |pre + RedactedFrom(t, i, cols, ends)| > |pre|
    ensures WordHere(pre + RedactedFrom(t, i, cols, ends), |pre|) == WordHere(t, i)
  {
    if WordChar(t[i]) {
      WordCarriesWhole(t, i, cols, ends, pre);
    } else {
      assert (pre + RedactedFrom(t, i, cols, ends))[|pre|] == t[i];
    }
  }

  /** What a placeholder for x looks like, character by character. */
  ghost predicate Shape(p: string, x: string) {
    && |p| == |x| + 11 && p[0] == '[' && p[|x| + 1] == ' ' && p[|x| + 10] == ']'
    && (forall k | 1 <= k <= |x| :: WordChar(p[k]) && LowerChar(p[k]) == x[k - 1])
    && (forall k | |x| + 2 <= k < |x| + 10 :: p[k] == "REDACTED"[k - |x| - 2])
  }

  lemma PlaceholderShape(x: string)
    requires ColumnName(x)
    ensures Shape(Placeholder(x), x)
  {
    var p, u, r := Placeholder(x), Upper(x), " REDACTED]";
    assert p == ['['] + u + r;
    forall k | 1 <= k <= |x| ensures WordChar(p[k]) && LowerChar(p[k]) == x[k - 1] {
      assert p[k] == u[k - 1] && WordChar(x[k - 1]) && Lower(x)[k - 1] == x[k - 1];
    }
    forall k | |x| + 1 <= k < |x| + 11 ensures p[k] == r[k - |x| - 1] {
    }
    assert p[|x| + 1] == r[0] && p[|x| + 10] == r[9];
  }

  lemma ShapeHasNoDelim(p: string, x: string)
    requires Shape(p, x)
    ensures forall k | 0 <= k < |p| :: !Delim(p[k])
  {
  }

  lemma OwnWord(out: string, base: nat, p: string, x: string)
    requires Shape(p, x) && x != "" && base + |p| <= |out| && out[base..base + |p|] == p
    ensures WordHere(out, base + 1) == Some(x)
  {
    var a, b := base + 1, base + 1 + |x|;
    forall k | a <= k < b ensures WordChar(out[k]) && LowerChar(out[k]) == x[k - a] {
      assert out[k] == p[k - base];
    }
    assert out[b] == p[|x| + 1] && out[base] == p[0];
    RunEndIs(out, a, b);
    assert Lower(out[a..b]) == x;
  }

  lemma RedactedWord(out: string, base: nat, p: string, x: string)
    requires Shape(p, x) && base + |p| <= |out| && out[base..base + |p|] == p
    ensures WordHere(out, base + |x| + 2) == Some("redacted")
  {
    var a, b := base + |x| + 2, base + |x| + 10;
    forall k | a <= k < b ensures out[k] == "REDACTED"[k - a] {
      assert out[k] == p[k - base];
    }
    assert out[b] == p[|x| + 10] && out[a - 1] == p[|x| + 1];
    RunEndIs(out, a, b);
    assert Lower(out[a..b]) == "redacted";
  }

  /** In a placeholder only its own word and "redacted" occur. */
  lemma PlaceholderWords(out: string, base: nat, p: string, x: string, k: nat)
    requires Shape(p, x) && x != "" && k < |p| && base + |p| <= |out| && out[base..base + |p|] == p
    ensures WordHere(out, base + k)
         == if k == 1 then Some(x) else if k == |x| + 2 then Some("redacted") else None
  {
    assert out[base + k] == p[k];
    if k == 1 {
      OwnWord(out, base, p, x);
    } else if k == |x| + 2 {
      RedactedWord(out, base, p, x);
    } else if WordChar(p[k]) {
      assert out[base + (k - 1)] == p[k - 1] && WordChar(p[k - 1]);
    }
  }

  lemma RedactedStep(t: string, j: nat, cols: set<string>, ends: bool, v: string)
    requires j <= |t| && j < SegEnd(t, j) && !Cut(t, j, cols, ends)
    requires RedactedFrom(t, j + 1, cols, ends) == v + RedactedFrom(t, SegEnd(t, j + 1), cols, ends)
    ensures SegEnd(t, j + 1) == SegEnd(t, j)
    ensures RedactedFrom(t, j, cols, ends) == [t[j]] + v + RedactedFrom(t, SegEnd(t, j), cols, ends)
  {
  }

  /** A segment of the redacted text: as it was, or cut at one of its words. */
  ghost predicate Like(u: string, s: string) {
    && (forall k | 0 <= k < |u| :: !Delim(u[k]))
    && (u == s || ('[' in u && exists k | 0 <= k < |s| :: WordChar(s[k])))
  }

  lemma CutSegment(t: string, j: nat, e: nat, x: string, cols: set<string>, ends: bool)
    requires j < |t| && Cut(t, j, cols, ends) && e == SegEnd(t, j) && Some(x) == WordHere(t, j) && ColumnName(x)
    ensures RedactedFrom(t, j, cols, ends) == Placeholder(x) + RedactedFrom(t, e, cols, ends)
    ensures Like(Placeholder(x), t[j..e])
  {
    CutStep(t, j, e, x, cols, ends);
    WordInSegment(t, j);
    PlaceholderShape(x);
    ShapeHasNoDelim(Placeholder(x), x);
    assert Placeholder(x)[0] == '[' && WordChar(t[j..e][0]);
  }

  lemma {:induction false} RedactedSegment(t: string, j: nat, cols: set<string>, ends: bool) returns (u: string)
    requires j <= |t| && forall c | c in cols :: ColumnName(c)
    ensures RedactedFrom(t, j, cols, ends) == u + RedactedFrom(t, SegEnd(t, j), cols, ends)
    ensures Like(u, t[j..SegEnd(t, j)])
    decreases |t| - j
  {
    var e := SegEnd(t, j);
    if j == e {
      u := "";
    } else if Cut(t, j, cols, ends) {
      u := Placeholder(WordHere(t, j).value);
      CutSegment(t, j, e, WordHere(t, j).value, cols, ends);
    } else {
      var v := RedactedSegment(t, j + 1, cols, ends);
      u := [t[j]] + v;
      RedactedStep(t, j, cols, ends, v);
      LikePush(t[j], v, t[j + 1..e]);
      HeadSlice(t, j, e);
    }
  }

  lemma LikePush(c: char, v: string, s: string)
    requires !Delim(c) && Like(v, s)
    ensures Like([c] + v, [c] + s)
  {
    if k :| 0 <= k < |s| && WordChar(s[k]) {
      assert ([c] + s)[k + 1] == s[k];
    }
  }

  lemma NotBlank(s: string, k: nat)
    requires k < |s| && (s[k] == '[' || WordChar(s[k]))
    ensures !Blank(s)
  {
    SpaceEndInside(s, 0);
    if SpaceEnd(s, 0) < |s| {
      SpaceEndInside(s, SpaceEnd(s, 0) + 1);
    }
  }

  lemma LikeBlank(u: string, s: string)
    requires Like(u, s)
    ensures (Blank(u) <==> Blank(s)) && (u == "" <==> s == "")
  {
    if u != s {
      var k :| 0 <= k < |s| && WordChar(s[k]);
      var m :| 0 <= m < |u| && u[m] == '[';
      NotBlank(s, k);
      NotBlank(u, m);
    }
  }

  /** What the first character of a text says of whether a match can start there. */
  lemma AfterSepHead(pre: string, c: char, rest: string)
    ensures AfterSep(pre + ([c] + rest), |pre|).Some?
       <==> !Delim(c) || (Space(c) && AfterSep(pre + [c] + rest, |pre + [c]|).Some?)
  {
    Regroup(pre, [c], rest);
    var out := pre + [c] + rest;
    assert out[|pre|] == c;
    AfterSepNext(out, |pre|, |pre + [c]|);
  }

  lemma AfterSepNext(t: string, p: nat, q: nat)
    requires p < |t| && q == p + 1
    ensures AfterSep(t, p).Some? <==> !Delim(t[p]) || (Space(t[p]) && AfterSep(t, q).Some?)
  {
    AfterSepStep(t, p);
  }

  /** Beyond a segment the redacted text begins as the original does, as far as the
      pattern can tell. */
  lemma {:induction false} BeginsAlike(t: string, p: nat, cols: set<string>, ends: bool, pre: string)
    requires p <= |t|
    ensures AfterSep(pre + RedactedFrom(t, p, cols, ends), |pre|).Some? <==> AfterSep(t, p).Some?
    decreases |t| - p
  {
    if p == |t| {
      AfterSepStep(pre + "", |pre|);
    } else if Cut(t, p, cols, ends) {
      var x, e := WordHere(t, p).value, SegEnd(t, p);
      CutStep(t, p, e, x, cols, ends);
      BeginsAtPlaceholder(pre, x, RedactedFrom(t, e, cols, ends));
      AfterSepNext(t, p, p + 1);
    } else {
      CopyStep(t, p, cols, ends);
      AfterSepHead(pre, t[p], RedactedFrom(t, p + 1, cols, ends));
      AfterSepNext(t, p, p + 1);
      BeginsAlike(t, p + 1, cols, ends, pre + [t[p]]);
    }
  }

  lemma BeginsAtPlaceholder(pre: string, x: string, rest: string)
    ensures AfterSep(pre + (Placeholder(x) + rest), |pre|).Some?
  {
    var tail := Upper(x) + " REDACTED]" + rest;
    assert Placeholder(x) + rest == ['['] + tail;
    AfterSepHead(pre, '[', tail);
  }

  /** A match after u, before the rest of the redacted text, runs over if and only if it
      does in the original. */
  lemma OverCarries(t: string, j: nat, e: nat, cols: set<string>, ends: bool, pre: string, u: string)
    requires j <= |t| && e == SegEnd(t, j) && Like(u, t[j..e])
    ensures SegEnd(pre + u + RedactedFrom(t, e, cols, ends), |pre|) == |pre + u|
    ensures RunsOver(pre + u + RedactedFrom(t, e, cols, ends), |pre|) <==> RunsOver(t, j)
  {
    var rest := RedactedFrom(t, e, cols, ends);
    var out, a, b := pre + u + rest, |pre|, |pre + u|;
    forall k | a <= k < b ensures !Delim(out[k]) {
      assert out[k] == u[k - a];
    }
    assert e < |t| ==> !Cut(t, e, cols, ends) && rest[0] == t[e] && out[b] == rest[0];
    SegEndIs(out, a, b);
    assert out[a..b] == u;
    LikeBlank(u, t[j..e]);
    BeginsAlike(t, e, cols, ends, pre + u);
  }

  // ----- Counting segments -----

  function Delims(s: string): nat {
    if s == "" then 0 else (if Delim(s[0]) then 1 else 0) + Delims(s[1..])
  }

  lemma DelimsAppend(a: string, b: string)
    ensures Delims(a + b) == Delims(a) + Delims(b)
  {
    if a == "" {
      assert a + b == b;
    } else {
      assert (a + b)[1..] == a[1..] + b;
      DelimsAppend(a[1..], b);
    }
  }

  lemma NoDelims(s: string)
    requires forall k | 0 <= k < |s| :: !Delim(s[k])
    ensures Delims(s) == 0
  {
    if s != "" {
      NoDelims(s[1..]);
    }
  }

  lemma DelimsSplit(t: string, i: nat, j: nat)
    requires i <= j <= |t|
    ensures Delims(t[i..]) == Delims(t[i..j]) + Delims(t[j..])
  {
    assert t[i..] == t[i..j] + t[j..];
    DelimsAppend(t[i..j], t[j..]);
  }

  lemma PlaceholderDelims(x: string)
    requires ColumnName(x)
    ensures Delims(Placeholder(x)) == 0
  {
    PlaceholderShape(x);
    ShapeHasNoDelim(Placeholder(x), x);
    NoDelims(Placeholder(x));
  }

  lemma SegmentDelims(t: string, i: nat, e: nat)
    requires i <= |t| && e == SegEnd(t, i)
    ensures Delims(t[i..]) == Delims(t[e..])
  {
    SegEndInside(t, i);
    DelimsSplit(t, i, e);
    NoDelims(t[i..e]);
  }

  lemma HeadDelims(t: string, i: nat)
    requires i < |t|
    ensures Delims(t[i..]) == Delims([t[i]]) + Delims(t[i + 1..])
  {
    DelimsSplit(t, i, i + 1);
    assert t[i..i + 1] == [t[i]];
  }

  /** The segments of the redacted text are those of the original. */
  lemma {:induction false} RedactedDelims(t: string, i: nat, cols: set<string>, ends: bool)
    requires i <= |t| && forall c | c in cols :: ColumnName(c)
    ensures Delims(RedactedFrom(t, i, cols, ends)) == Delims(t[i..])
    decreases |t| - i
  {
    if i < |t| {
      if Cut(t, i, cols, ends) {
        var e, x := SegEnd(t, i), WordHere(t, i).value;
        WordInSegment(t, i);
        RedactedDelims(t, e, cols, ends);
        PlaceholderDelims(x);
        CutStep(t, i, e, x, cols, ends);
        DelimsAppend(Placeholder(x), RedactedFrom(t, e, cols, ends));
        SegmentDelims(t, i, e);
      } else {
        RedactedDelims(t, i + 1, cols, ends);
        CopyStep(t, i, cols, ends);
        DelimsAppend([t[i]], RedactedFrom(t, i + 1, cols, ends));
        HeadDelims(t, i);
      }
    }
  }

  lemma MatchDelims(t: string, i: nat, j: nat, r: nat, col: string)
    requires i < r <= |t| && ColumnName(col) && WordAt(t, i, col) && j == i + |col| && Tail(t, j) == Some(r)
    requires Delims(SubFrom(t, r, col)) <= Delims(t[r..])
    ensures Delims(SubFrom(t, i, col)) <= Delims(t[i..])
  {
    SubMatch(t, i, j, col, r);
    PlaceholderDelims(col);
    DelimsAppend(Placeholder(col), SubFrom(t, r, col));
    DelimsSplit(t, i, r);
  }

  lemma CopyDelims(t: string, i: nat, n: nat, col: string)
    requires i < |t| && n == i + 1 && SubFrom(t, i, col) == [t[i]] + SubFrom(t, n, col)
    requires Delims(SubFrom(t, n, col)) <= Delims(t[n..])
    ensures Delims(SubFrom(t, i, col)) <= Delims(t[i..])
  {
    DelimsAppend([t[i]], SubFrom(t, n, col));
    HeadDelims(t, i);
  }

  /** A substitution adds no segment. */
  lemma {:induction false} SubDelims(t: string, i: nat, col: string)
    requires i <= |t| && ColumnName(col)
    ensures Delims(SubFrom(t, i, col)) <= Delims(t[i..])
    decreases |t| - i, 1
  {
    if i < |t| {
      if WordAt(t, i, col) {
        WordDelims(t, i, i + |col|, i + 1, col);
      } else {
        SubDelims(t, i + 1, col);
        SubNoWord(t, i, i + 1, col);
        CopyDelims(t, i, i + 1, col);
      }
    }
  }

  lemma WordDelims(t: string, i: nat, j: nat, n: nat, col: string)
    requires i < |t| && ColumnName(col) && WordAt(t, i, col) && j == i + |col| && n == i + 1
    ensures Delims(SubFrom(t, i, col)) <= Delims(t[i..])
    decreases |t| - i, 0
  {
    TailIs(t, j);
    if Tail(t, j).Some? {
      SubDelims(t, Tail(t, j).value, col);
      MatchDelims(t, i, j, Tail(t, j).value, col);
    } else {
      SubDelims(t, n, col);
      SubNoMatch(t, i, j, n, col);
      CopyDelims(t, i, n, col);
    }
  }

  // ----- One more word -----

  /** No occurrence of col that the substitutions for `cols` leave standing runs over the
      end of its segment. */
  predicate NoneRunsOver(t: string, i: nat, cols: set<string>, col: string)
    requires i <= |t|
    decreases |t| - i
  {
    if i == |t| then true
    else if !Cut(t, i, cols, false) && WordHere(t, i) == Some(col) && RunsOver(t, RunEnd(t, i)) then false
    else if Cut(t, i, cols + {col}, false) then
      WordInSegment(t, i);
      NoneRunsOver(t, SegEnd(t, i), cols, col)
    else NoneRunsOver(t, i + 1, cols, col)
  }

  /** What the substitution of col gives, from i on: it is redacted for one more word - but
      a word at the end of its segment stays - or segments are lost. */
  ghost predicate Passes(t: string, i: nat, cols: set<string>, col: string, r: string)
    requires i <= |t|
  {
    if NoneRunsOver(t, i, cols, col) then r == RedactedFrom(t, i, cols + {col}, false)
    else Delims(r) < Delims(t[i..])
  }

  /** A word that is cut for `cols` or for col. */
  lemma PassesCut(t: string, i: nat, e: nat, x: string, cols: set<string>, col: string, r: string)
    requires i < |t| && e == SegEnd(t, i) && Some(x) == WordHere(t, i) && ColumnName(x)
    requires Cut(t, i, cols + {col}, false) && (Cut(t, i, cols, false) || !RunsOver(t, RunEnd(t, i)))
    requires Passes(t, e, cols, col, r)
    ensures Passes(t, i, cols, col, Placeholder(x) + r)
  {
    CutStep(t, i, e, x, cols + {col}, false);
    PlaceholderDelims(x);
    DelimsAppend(Placeholder(x), r);
    SegmentDelims(t, i, e);
  }

  lemma PassesOver(t: string, i: nat, e: nat, cols: set<string>, col: string, r: string)
    requires i < |t| && e == SegEnd(t, i) && WordHere(t, i) == Some(col) && ColumnName(col)
    requires !Cut(t, i, cols, false) && RunsOver(t, RunEnd(t, i)) && Delims(r) < Delims(t[e..])
    ensures Passes(t, i, cols, col, Placeholder(col) + r)
  {
    PlaceholderDelims(col);
    DelimsAppend(Placeholder(col), r);
    SegmentDelims(t, i, e);
  }

  lemma PassesCopy(t: string, i: nat, cols: set<string>, col: string, r: string)
    requires i < |t| && !Cut(t, i, cols + {col}, false)
    requires WordHere(t, i) != Some(col) || !RunsOver(t, RunEnd(t, i))
    requires Passes(t, i + 1, cols, col, r)
    ensures Passes(t, i, cols, col, [t[i]] + r)
  {
    CopyStep(t, i, cols + {col}, false);
    DelimsAppend([t[i]], r);
    HeadDelims(t, i);
  }

  ghost predicate NoWordIn(out: string, a: nat, b: nat, col: string)
    requires a <= b <= |out|
  {
    forall k | a <= k < b :: !WordAt(out, k, col)
  }

  /** Where the word does not start, the substitution copies. */
  lemma CopiesRange(out: string, a: nat, b: nat, col: string)
    requires a <= b <= |out| && NoWordIn(out, a, b, col)
    ensures SubFrom(out, a, col) == out[a..b] + SubFrom(out, b, col)
    decreases b - a
  {
    if a < b {
      SubNoWord(out, a, a + 1, col);
      CopiesRange(out, a + 1, b, col);
      HeadSlice(out, a, b);
      Regroup([out[a]], out[a + 1..b], SubFrom(out, b, col));
    }
  }

  lemma OtherWord(out: string, base: nat, p: string, x: string, k: nat, col: string)
    requires Shape(p, x) && ColumnName(x) && ColumnName(col) && x != col
    requires base <= k < base + |p| <= |out| && out[base..base + |p|] == p
    ensures !WordAt(out, k, col)
  {
    PlaceholderWords(out, base, p, x, k - base);
    WordAtIs(out, k, col);
  }

  lemma NoWordInPlaceholder(out: string, a: nat, b: nat, p: string, x: string, col: string)
    requires Shape(p, x) && ColumnName(x) && ColumnName(col) && x != col
    requires b == a + |p| <= |out| && out[a..b] == p
    ensures NoWordIn(out, a, b, col)
  {
    forall k | a <= k < b ensures !WordAt(out, k, col) {
      OtherWord(out, a, p, x, k, col);
    }
  }

  lemma AfterPlaceholder(pre: string, p: string, x: string, rest: string, col: string)
    requires Shape(p, x) && ColumnName(x) && ColumnName(col) && x != col
    ensures SubFrom(pre + (p + rest), |pre|, col) == p + SubFrom(pre + p + rest, |pre + p|, col)
  {
    var out := pre + p + rest;
    Regroup(pre, p, rest);
    assert out[|pre|..|pre + p|] == p;
    NoWordInPlaceholder(out, |pre|, |pre + p|, p, x, col);
    CopiesRange(out, |pre|, |pre + p|, col);
  }

  lemma SubAtChar(pre: string, c: char, r': string, r: string, col: string)
    requires r == [c] + r' && !WordAt(pre + r, |pre|, col)
    ensures SubFrom(pre + r, |pre|, col) == [c] + SubFrom(pre + [c] + r', |pre + [c]|, col)
  {
    var out := pre + [c] + r';
    Regroup(pre, [c], r');
    assert out[|pre|] == c;
    SubNoWord(out, |pre|, |pre + [c]|, col);
  }

  /** Substituting one more word in a text in which those of `cols` have been
      substituted. */
  lemma {:induction false} SubAfter(t: string, i: nat, cols: set<string>, col: string, pre: string)
    requires i <= |t| && SameLeft(t, i, pre)
    requires ColumnName(col) && col !in cols && forall c | c in cols :: ColumnName(c)
    ensures Passes(t, i, cols, col, SubFrom(pre + RedactedFrom(t, i, cols, false), |pre|, col))
    decreases |t| - i
  {
    if i < |t| {
      if Cut(t, i, cols, false) {
        SubAfterCut(t, i, SegEnd(t, i), WordHere(t, i).value, cols, col, pre);
      } else {
        WordCarries(t, i, cols, false, pre);
        WordAtIs(pre + RedactedFrom(t, i, cols, false), |pre|, col);
        if WordHere(t, i) == Some(col) {
          SubAfterWord(t, i, RunEnd(t, i), SegEnd(t, i), cols, col, pre);
        } else {
          SubAfterChar(t, i, cols, col, pre);
        }
      }
    }
  }

  lemma SubAfterCut(t: string, i: nat, e: nat, x: string, cols: set<string>, col: string, pre: string)
    requires i < |t| && Cut(t, i, cols, false) && e == SegEnd(t, i) && Some(x) == WordHere(t, i)
    requires ColumnName(col) && col !in cols && forall c | c in cols :: ColumnName(c)
    ensures Passes(t, i, cols, col, SubFrom(pre + RedactedFrom(t, i, cols, false), |pre|, col))
    decreases |t| - i, 0
  {
    var p := Placeholder(x);
    PlaceholderShape(x);
    WordInSegment(t, i);
    SubAfter(t, e, cols, col, pre + p);
    CutStep(t, i, e, x, cols, false);
    AfterPlaceholder(pre, p, x, RedactedFrom(t, e, cols, false), col);
    PassesCut(t, i, e, x, cols, col, SubFrom(pre + p + RedactedFrom(t, e, cols, false), |pre + p|, col));
  }

  lemma SubAfterChar(t: string, i: nat, cols: set<string>, col: string, pre: string)
    requires i < |t| && SameLeft(t, i, pre) && !Cut(t, i, cols, false) && WordHere(t, i) != Some(col)
    requires ColumnName(col) && col !in cols && forall c | c in cols :: ColumnName(c)
    requires |pre| < |pre + RedactedFrom(t, i, cols, false)|
    requires !WordAt(pre + RedactedFrom(t, i, cols, false), |pre|, col)
    ensures Passes(t, i, cols, col, SubFrom(pre + RedactedFrom(t, i, cols, false), |pre|, col))
    decreases |t| - i, 0
  {
    var rest := RedactedFrom(t, i + 1, cols, false);
    SameLeftNext(t, i, pre);
    SubAfter(t, i + 1, cols, col, pre + [t[i]]);
    CopyStep(t, i, cols, false);
    SubAtChar(pre, t[i], rest, RedactedFrom(t, i, cols, false), col);
    PassesCopy(t, i, cols, col, SubFrom(pre + [t[i]] + rest, |pre + [t[i]]|, col));
  }

  /** The word, then what is left of its segment. */
  lemma WordThenRest(t: string, i: nat, j: nat, e: nat, cols: set<string>, col: string, pre: string) returns (u: string)
    requires i < |t| && WordHere(t, i) == Some(col) && !Cut(t, i, cols, false) && j == RunEnd(t, i) && e == SegEnd(t, i)
    requires ColumnName(col) && forall c | c in cols :: ColumnName(c)
    ensures |t[i..j]| == |col| && (u == "" <==> j == e)
    ensures RedactedFrom(t, i, cols, false) == t[i..j] + (u + RedactedFrom(t, e, cols, false))
    ensures SegEnd(pre + t[i..j] + u + RedactedFrom(t, e, cols, false), |pre + t[i..j]|) == |pre + t[i..j] + u|
    ensures RunsOver(pre + t[i..j] + u + RedactedFrom(t, e, cols, false), |pre + t[i..j]|) <==> RunsOver(t, j)
  {
    WordAtIs(t, i, col);
    SegEndAfterWord(t, i);
    CopiesWord(t, i, j, i, cols, false);
    u := RedactedSegment(t, j, cols, false);
    LikeBlank(u, t[j..e]);
    OverCarries(t, j, e, cols, false, pre + t[i..j], u);
  }

  lemma SubAfterWord(t: string, i: nat, j: nat, e: nat, cols: set<string>, col: string, pre: string)
    requires i < |t| && SameLeft(t, i, pre) && !Cut(t, i, cols, false) && WordHere(t, i) == Some(col)
    requires j == RunEnd(t, i) && e == SegEnd(t, i)
    requires ColumnName(col) && col !in cols && forall c | c in cols :: ColumnName(c)
    requires WordAt(pre + RedactedFrom(t, i, cols, false), |pre|, col)
    ensures Passes(t, i, cols, col, SubFrom(pre + RedactedFrom(t, i, cols, false), |pre|, col))
    decreases |t| - i, 1
  {
    WordInSegment(t, i);
    if RunsOver(t, j) {
      SubAfterOver(t, i, j, e, cols, col, pre);
    } else if j < e {
      SubAfterWithin(t, i, j, e, cols, col, pre);
    } else {
      SubAfterLast(t, i, j, e, cols, col, pre);
    }
  }

  lemma SubAfterOver(t: string, i: nat, j: nat, e: nat, cols: set<string>, col: string, pre: string)
    requires i < |t| && SameLeft(t, i, pre) && !Cut(t, i, cols, false) && WordHere(t, i) == Some(col)
    requires j == RunEnd(t, i) && e == SegEnd(t, i) && RunsOver(t, j)
    requires ColumnName(col) && col !in cols && forall c | c in cols :: ColumnName(c)
    requires WordAt(pre + RedactedFrom(t, i, cols, false), |pre|, col)
    ensures Passes(t, i, cols, col, SubFrom(pre + RedactedFrom(t, i, cols, false), |pre|, col))
  {
    var u := WordThenRest(t, i, j, e, cols, col, pre);
    var r := RedactedFrom(t, i, cols, false);
    var end := MatchOver(pre, t[i..j], u, RedactedFrom(t, e, cols, false), r, col);
    RedactedDelims(t, e, cols, false);
    PassesOver(t, i, e, cols, col, SubFrom(pre + r, end, col));
  }

  lemma SubAfterWithin(t: string, i: nat, j: nat, e: nat, cols: set<string>, col: string, pre: string)
    requires i < |t| && SameLeft(t, i, pre) && !Cut(t, i, cols, false) && WordHere(t, i) == Some(col)
    requires j == RunEnd(t, i) && e == SegEnd(t, i) && !RunsOver(t, j) && j < e
    requires ColumnName(col) && col !in cols && forall c | c in cols :: ColumnName(c)
    requires WordAt(pre + RedactedFrom(t, i, cols, false), |pre|, col)
    ensures Passes(t, i, cols, col, SubFrom(pre + RedactedFrom(t, i, cols, false), |pre|, col))
    decreases |t| - i, 0
  {
    var u := WordThenRest(t, i, j, e, cols, col, pre);
    var w, rest := t[i..j], RedactedFrom(t, e, cols, false);
    WordInSegment(t, i);
    SubAfter(t, e, cols, col, pre + w + u);
    MatchWithin(pre, w, u, rest, RedactedFrom(t, i, cols, false), col);
    PassesCut(t, i, e, col, cols, col, SubFrom(pre + w + u + rest, |pre + w + u|, col));
  }

  lemma SubAfterLast(t: string, i: nat, j: nat, e: nat, cols: set<string>, col: string, pre: string)
    requires i < |t| && SameLeft(t, i, pre) && !Cut(t, i, cols, false) && WordHere(t, i) == Some(col)
    requires j == RunEnd(t, i) && e == SegEnd(t, i) && !RunsOver(t, j) && j == e
    requires ColumnName(col) && col !in cols && forall c | c in cols :: ColumnName(c)
    requires WordAt(pre + RedactedFrom(t, i, cols, false), |pre|, col)
    ensures Passes(t, i, cols, col, SubFrom(pre + RedactedFrom(t, i, cols, false), |pre|, col))
    decreases |t| - i, 0
  {
    var u := WordThenRest(t, i, j, e, cols, col, pre);
    var rest, r' := RedactedFrom(t, e, cols, false), RedactedFrom(t, i + 1, cols, false);
    SameLeftNext(t, i, pre);
    SubAfter(t, i + 1, cols, col, pre + [t[i]]);
    CopyStep(t, i, cols, false);
    MatchNone(pre, t[i..j], u, rest, RedactedFrom(t, i, cols, false), col, t[i], r');
    PassesCopy(t, i, cols, col, SubFrom(pre + [t[i]] + r', |pre + [t[i]]|, col));
  }

  /** A match that ends with its segment. */
  lemma MatchWithin(pre: string, w: string, u: string, rest: string, r: string, col: string)
    requires r == w + (u + rest) && |w| == |col| > 0 && WordAt(pre + r, |pre|, col) && u != ""
    requires SegEnd(pre + w + u + rest, |pre + w|) == |pre + w + u| && !RunsOver(pre + w + u + rest, |pre + w|)
    ensures SubFrom(pre + r, |pre|, col) == Placeholder(col) + SubFrom(pre + w + u + rest, |pre + w + u|, col)
  {
    var out := pre + w + u + rest;
    Regroup4(pre, w, u, rest);
    TailIs(out, |pre + w|);
    SubMatch(out, |pre|, |pre + w|, col, |pre + w + u|);
  }

  /** No match, with nothing left of the segment: the word is copied. */
  lemma MatchNone(pre: string, w: string, u: string, rest: string, r: string, col: string, c: char, r': string)
    requires r == w + (u + rest) && |w| == |col| && WordAt(pre + r, |pre|, col) && u == "" && r == [c] + r'
    requires SegEnd(pre + w + u + rest, |pre + w|) == |pre + w + u| && !RunsOver(pre + w + u + rest, |pre + w|)
    ensures SubFrom(pre + r, |pre|, col) == [c] + SubFrom(pre + [c] + r', |pre + [c]|, col)
  {
    var out := pre + w + u + rest;
    Regroup4(pre, w, u, rest);
    Regroup(pre, [c], r');
    TailIs(out, |pre + w|);
    assert out[|pre|] == r[0] == c;
    SubNoMatch(out, |pre|, |pre + w|, |pre + [c]|, col);
  }

  /** A match that runs over takes the end of the segment with it. */
  lemma MatchOver(pre: string, w: string, u: string, rest: string, r: string, col: string) returns (end: nat)
    requires r == w + (u + rest) && |w| == |col| && WordAt(pre + r, |pre|, col) && ColumnName(col)
    requires SegEnd(pre + w + u + rest, |pre + w|) == |pre + w + u| && RunsOver(pre + w + u + rest, |pre + w|)
    ensures end <= |pre + r| && SubFrom(pre + r, |pre|, col) == Placeholder(col) + SubFrom(pre + r, end, col)
    ensures Delims(SubFrom(pre + r, end, col)) < Delims(rest)
  {
    var out := pre + w + u + rest;
    Regroup4(pre, w, u, rest);
    TailIs(out, |pre + w|);
    end := Tail(out, |pre + w|).value;
    SubMatch(out, |pre|, |pre + w|, col, end);
    LosesDelim(out, |pre + w + u|, end);
    assert out[|pre + w + u|..] == rest;
    SubDelims(out, end, col);
  }

  lemma LosesDelim(t: string, b: nat, end: nat)
    requires b < end <= |t| && Delim(t[b])
    ensures Delims(t[end..]) < Delims(t[b..])
  {
    HeadDelims(t, b);
    DelimsSplit(t, b + 1, end);
  }

  // ----- The whole of `strip` -----

  /** `\bcol\b` is found somewhere in s. */
  predicate Occurs(s: string, col: string) {
    exists i | 0 <= i <= |s| :: OccursAt(s, i, col)
  }

  predicate OccursAt(s: string, i: nat, col: string) {
    && i + |col| <= |s| && s[i..i + |col|] == col
    && BoundaryLeft(s, i) && BoundaryRight(s, i + |col|)
  }

  /** Stable insertion, longer words first. */
  function InsertByLength(x: string, s: seq<string>): (r: seq<string>)
    ensures multiset(r) == multiset{x} + multiset(s)
  {
    if s == [] || |x| >= |s[0]| then [x] + s
    else
      assert s == [s[0]] + s[1..];
      [s[0]] + InsertByLength(x, s[1..])
  }

  function ByLength(s: seq<string>): (r: seq<string>)
    ensures multiset(r) == multiset(s)
  {
    if s == [] then []
    else
      assert s == [s[0]] + s[1..];
      InsertByLength(s[0], ByLength(s[1..]))
  }

  /** The words of one length, in their order. */
  function OfLength(s: seq<string>, n: nat): seq<string> {
    if s == [] then []
    else if |s[0]| == n then [s[0]] + OfLength(s[1..], n)
    else OfLength(s[1..], n)
  }

  predicate LongestFirst(s: seq<string>) {
    forall i, j | 0 <= i < j < |s| :: |s[i]| >= |s[j]|
  }

  lemma OfLengthCons(x: string, s: seq<string>, n: nat)
    ensures OfLength([x] + s, n) == if |x| == n then [x] + OfLength(s, n) else OfLength(s, n)
  {
    assert ([x] + s)[1..] == s;
  }

  /** Among longer words, x keeps its place before the others of its length. */
  lemma {:induction false} InsertIsStable(x: string, s: seq<string>, n: nat)
    ensures OfLength(InsertByLength(x, s), n) == if |x| == n then [x] + OfLength(s, n) else OfLength(s, n)
  {
    if s == [] || |x| >= |s[0]| {
      OfLengthCons(x, s, n);
    } else {
      InsertIsStable(x, s[1..], n);
      OfLengthCons(s[0], InsertByLength(x, s[1..]), n);
    }
  }

  lemma {:induction false} InsertIsSorted(x: string, s: seq<string>)
    requires LongestFirst(s)
    ensures LongestFirst(InsertByLength(x, s))
  {
    if s != [] && |x| < |s[0]| {
      InsertIsSorted(x, s[1..]);
      forall y | y in InsertByLength(x, s[1..]) ensures |y| <= |s[0]| {
        assert y in multiset(InsertByLength(x, s[1..]));
        assert y == x || y in s[1..];
      }
    }
  }

  /** Longer words come first, and words of one length stay in their order. */
  lemma {:induction false} SortIsStable(s: seq<string>, n: nat)
    ensures LongestFirst(ByLength(s)) && OfLength(ByLength(s), n) == OfLength(s, n)
  {
    if s != [] {
      SortIsStable(s[1..], n);
      InsertIsStable(s[0], ByLength(s[1..]), n);
      InsertIsSorted(s[0], ByLength(s[1..]));
    }
  }

  /** One substitution per word, in the given order. */
  function SubAll(t: string, order: seq<string>): string
    decreases |order|
  {
    if order == [] then t else SubAll(Sub(t, order[0]), order[1..])
  }

  function FoundIn(words: seq<string>, lower: string): seq<string> {
    if words == [] then []
    else if Occurs(lower, words[0]) then [words[0]] + FoundIn(words[1..], lower)
    else FoundIn(words[1..], lower)
  }

  lemma FoundStep(words: seq<string>, n: nat, lower: string, found: seq<string>)
    requires n < |words| && FoundIn(words, lower) == found + FoundIn(words[n..], lower)
    ensures FoundIn(words, lower)
         == (if Occurs(lower, words[n]) then found + [words[n]] else found) + FoundIn(words[n + 1..], lower)
  {
    assert words[n..][1..] == words[n + 1..];
    Regroup(found, [words[n]], FoundIn(words[n + 1..], lower));
  }

  method FoundWords(words: seq<string>, lower: string) returns (found: seq<string>)
    ensures found == FoundIn(words, lower)
  {
    found := [];
    var n := 0;
    while n < |words|
      invariant n <= |words|
      invariant FoundIn(words, lower) == found + FoundIn(words[n..], lower)
    {
      FoundStep(words, n, lower, found);
      if Occurs(lower, words[n]) {
        found := found + [words[n]];
      }
      n := n + 1;
    }
  }

  /** The answer without the forbidden words; `words` is the set of them in the order
      it is iterated in. */
  method Strip(text: string, words: seq<string>) returns (sanitised: string)
    ensures sanitised == SubAll(text, ByLength(FoundIn(words, Lower(text))))
  {
    var found := FoundWords(words, Lower(text));
    if found == [] {
      return text;
    }
    sanitised := text;
    var order := ByLength(found);
    var n := 0;
    while n < |order|
      invariant n <= |order|
      invariant SubAll(text, order) == SubAll(sanitised, order[n..])
    {
      assert order[n..][1..] == order[n + 1..];
      sanitised := Sub(sanitised, order[n]);
      n := n + 1;
    }
  }

  function SetOf(s: seq<string>): set<string> { set x | x in s }

  ghost predicate Distinct(s: seq<string>) { forall x :: multiset(s)[x] <= 1 }

  lemma DistinctHead(s: seq<string>)
    requires s != [] && Distinct(s)
    ensures s[0] !in s[1..] && Distinct(s[1..]) && SetOf(s) == {s[0]} + SetOf(s[1..])
  {
    assert s == [s[0]] + s[1..];
    assert multiset(s) == multiset{s[0]} + multiset(s[1..]);
    forall x ensures multiset(s[1..])[x] <= 1 {
      assert multiset(s)[x] <= 1;
    }
    assert multiset(s)[s[0]] <= 1;
  }

  /** No substitution runs over, in the order in which they are made. */
  predicate Sound(t: string, done: set<string>, order: seq<string>)
    decreases |order|
  {
    order == [] || (NoneRunsOver(t, 0, done, order[0]) && Sound(t, done + {order[0]}, order[1..]))
  }

  lemma {:induction false} SubAllDelims(t: string, order: seq<string>)
    requires forall c | c in order :: ColumnName(c)
    ensures Delims(SubAll(t, order)) <= Delims(t)
    decreases |order|
  {
    if order != [] {
      SubDelims(t, 0, order[0]);
      assert t[0..] == t;
      SubAllDelims(Sub(t, order[0]), order[1..]);
    }
  }

  /** One substitution after the other adds one word after the other, unless segments
      are lost on the way. */
  lemma {:induction false} SubAllAfter(t: string, done: set<string>, order: seq<string>)
    requires (forall c | c in done :: ColumnName(c)) && Distinct(order)
    requires forall c | c in order :: c !in done && ColumnName(c)
    ensures var r := SubAll(RedactedFrom(t, 0, done, false), order);
            if Sound(t, done, order) then r == RedactedFrom(t, 0, done + SetOf(order), false) else Delims(r) < Delims(t)
    decreases |order|
  {
    if order == [] {
      assert done + SetOf(order) == done;
    } else {
      var s := RedactedFrom(t, 0, done, false);
      DistinctHead(order);
      SubAfter(t, 0, done, order[0], "");
      assert "" + s == s && t[0..] == t;
      if NoneRunsOver(t, 0, done, order[0]) {
        SubAllAfter(t, done + {order[0]}, order[1..]);
        assert done + {order[0]} + SetOf(order[1..]) == done + SetOf(order);
      } else {
        SubAllDelims(Sub(s, order[0]), order[1..]);
      }
    }
  }

  /** The first forbidden word of each segment has something after it. */
  predicate Followed(t: string, i: nat, cols: set<string>)
    requires i <= |t|
    decreases |t| - i
  {
    if i == |t| then true
    else if Cut(t, i, cols, true) then
      WordInSegment(t, i);
      Cut(t, i, cols, false) && Followed(t, SegEnd(t, i), cols)
    else Followed(t, i + 1, cols)
  }

  lemma {:induction false} EndsMatter(t: string, i: nat, cols: set<string>)
    requires i <= |t|
    ensures RedactedFrom(t, i, cols, false) == RedactedFrom(t, i, cols, true) <==> Followed(t, i, cols)
    decreases |t| - i
  {
    if i < |t| {
      if Cut(t, i, cols, true) {
        var e, x := SegEnd(t, i), WordHere(t, i).value;
        WordInSegment(t, i);
        CutStep(t, i, e, x, cols, true);
        if Cut(t, i, cols, false) {
          CutStep(t, i, e, x, cols, false);
          EndsMatter(t, e, cols);
          SameTail(Placeholder(x), RedactedFrom(t, e, cols, false), RedactedFrom(t, e, cols, true));
        } else {
          assert RedactedFrom(t, i, cols, false)[0] == t[i] && RedactedFrom(t, i, cols, true)[0] == '[';
        }
      } else {
        CopyStep(t, i, cols, true);
        CopyStep(t, i, cols, false);
        EndsMatter(t, i + 1, cols);
        SameTail([t[i]], RedactedFrom(t, i + 1, cols, false), RedactedFrom(t, i + 1, cols, true));
      }
    }
  }

  lemma {:induction false} NothingRedacted(t: string, i: nat)
    requires i <= |t|
    ensures RedactedFrom(t, i, {}, false) == t[i..]
    decreases |t| - i
  {
    if i < |t| {
      NothingRedacted(t, i + 1);
    }
  }

  /** Only the words that occur matter. */
  lemma {:induction false} SameWords(t: string, i: nat, a: set<string>, b: set<string>)
    requires i <= |t|
    requires forall k | i <= k < |t| && WordHere(t, k).Some? :: WordHere(t, k).value in a <==> WordHere(t, k).value in b
    ensures RedactedFrom(t, i, a, true) == RedactedFrom(t, i, b, true) && (Followed(t, i, a) <==> Followed(t, i, b))
    decreases |t| - i
  {
    if i < |t| {
      if Cut(t, i, a, true) {
        WordInSegment(t, i);
        SameWords(t, SegEnd(t, i), a, b);
      } else {
        SameWords(t, i + 1, a, b);
      }
    }
  }

  /** Searching the lower-cased text finds exactly the words of the text. */
  lemma OccursIs(t: string, i: nat, col: string)
    requires i < |t| && WordHere(t, i) == Some(col) && ColumnName(col)
    ensures Occurs(Lower(t), col)
  {
    WordAtIs(t, i, col);
    assert Lower(t)[i..i + |col|] == Lower(t[i..i + |col|]);
    assert OccursAt(Lower(t), i, col);
  }

  lemma FoundInIs(words: seq<string>, lower: string, x: string)
    ensures x in FoundIn(words, lower) <==> x in words && Occurs(lower, x)
    ensures multiset(FoundIn(words, lower)) <= multiset(words)
  {
    if words != [] {
      assert words == [words[0]] + words[1..];
      FoundInIs(words[1..], lower, x);
    }
  }

  /** The substitutions are made for exactly the forbidden words of the text. */
  lemma FoundWordsMatter(t: string, words: seq<string>)
    requires Distinct(words) && forall c | c in words :: ColumnName(c)
    ensures var order := ByLength(FoundIn(words, Lower(t)));
            && Distinct(order) && (forall x | x in order :: x in words)
            && Redacted(t, SetOf(order)) == Redacted(t, SetOf(words))
            && (Followed(t, 0, SetOf(order)) <==> Followed(t, 0, SetOf(words)))
  {
    var order := ByLength(FoundIn(words, Lower(t)));
    FoundInIs(words, Lower(t), "");
    forall x ensures multiset(order)[x] <= 1 {
      assert multiset(order)[x] <= multiset(words)[x] <= 1;
    }
    forall x ensures x in order <==> x in words && Occurs(Lower(t), x) {
      FoundInIs(words, Lower(t), x);
      assert x in order <==> x in multiset(order);
    }
    forall k | 0 <= k < |t| && WordHere(t, k).Some?
      ensures WordHere(t, k).value in SetOf(order) <==> WordHere(t, k).value in SetOf(words)
    {
      if WordHere(t, k).value in words {
        OccursIs(t, k, WordHere(t, k).value);
      }
    }
    SameWords(t, 0, SetOf(order), SetOf(words));
  }

  /** Whatever the order in which the set of words is iterated: the answer of `Strip` is,
      in every segment, what precedes its first forbidden word and that word's
      placeholder, if and only if no substitution runs over the end of a segment and no
      first forbidden word ends its segment. */
  lemma StripIsExact(t: string, words: seq<string>)
    requires Distinct(words) && forall c | c in words :: ColumnName(c)
    ensures var order := ByLength(FoundIn(words, Lower(t)));
            SubAll(t, order) == Redacted(t, SetOf(words)) <==> Sound(t, {}, order) && Followed(t, 0, SetOf(words))
  {
    var order := ByLength(FoundIn(words, Lower(t)));
    FoundWordsMatter(t, words);
    NothingRedacted(t, 0);
    SubAllAfter(t, {}, order);
    assert t[0..] == t && {} + SetOf(order) == SetOf(order);
    EndsMatter(t, 0, SetOf(order));
    RedactedDelims(t, 0, SetOf(order), true);
  }

  // ----- Texts with room -----

  /** Something follows in the segment of j, and if that ends in a newline, something
      other than spaces and one separator. */
  predicate Room(t: string, j: nat)
    requires j <= |t|
  {
    var e := SegEnd(t, j);
    j < e && (e < |t| && t[e] == '\n' ==> !Blank(t[j..e]))
  }

  ghost predicate Roomy(t: string, i: nat, words: set<string>)
    requires i <= |t|
  {
    forall k | i <= k < |t| && WordHere(t, k).Some? && WordHere(t, k).value in words :: Room(t, RunEnd(t, k))
  }

  lemma RoomIsEnough(t: string, j: nat)
    requires j <= |t| && Room(t, j)
    ensures !RunsOver(t, j)
  {
    AfterSepStep(t, SegEnd(t, j));
  }

  lemma {:induction false} RoomyPasses(t: string, i: nat, cols: set<string>, col: string, words: set<string>)
    requires i <= |t| && Roomy(t, i, words) && col in words
    ensures NoneRunsOver(t, i, cols, col)
    decreases |t| - i
  {
    if i < |t| {
      if WordHere(t, i) == Some(col) {
        RoomIsEnough(t, RunEnd(t, i));
      }
      if Cut(t, i, cols + {col}, false) {
        WordInSegment(t, i);
        RoomyPasses(t, SegEnd(t, i), cols, col, words);
      } else {
        RoomyPasses(t, i + 1, cols, col, words);
      }
    }
  }

  lemma {:induction false} RoomyFollowed(t: string, i: nat, words: set<string>)
    requires i <= |t| && Roomy(t, i, words)
    ensures Followed(t, i, words)
    decreases |t| - i
  {
    if i < |t| {
      if Cut(t, i, words, true) {
        WordInSegment(t, i);
        SegEndAfterWord(t, i);
        assert Room(t, RunEnd(t, i));
        RoomyFollowed(t, SegEnd(t, i), words);
      } else {
        RoomyFollowed(t, i + 1, words);
      }
    }
  }

  lemma {:induction false} RoomySound(t: string, done: set<string>, order: seq<string>, words: set<string>)
    requires Roomy(t, 0, words) && forall x | x in order :: x in words
    ensures Sound(t, done, order)
    decreases |order|
  {
    if order != [] {
      RoomyPasses(t, 0, done, order[0], words);
      RoomySound(t, done + {order[0]}, order[1..], words);
    }
  }

  /** With room after every forbidden word, substituting the words in any order whatever
      gives the one-pass description. */
  lemma AnyOrderRedacts(t: string, order: seq<string>)
    requires Distinct(order) && (forall c | c in order :: ColumnName(c)) && Roomy(t, 0, SetOf(order))
    ensures SubAll(t, order) == Redacted(t, SetOf(order))
  {
    NothingRedacted(t, 0);
    assert t[0..] == t && {} + SetOf(order) == SetOf(order);
    RoomySound(t, {}, order, SetOf(order));
    SubAllAfter(t, {}, order);
    RoomyFollowed(t, 0, SetOf(order));
    EndsMatter(t, 0, SetOf(order));
  }

  /** So the order in which the words are substituted - longer ones first, or any other -
      is not observable. */
  lemma OrderDoesNotMatter(t: string, order: seq<string>, order': seq<string>)
    requires Distinct(order) && multiset(order) == multiset(order')
    requires (forall c | c in order :: ColumnName(c)) && Roomy(t, 0, SetOf(order))
    ensures SubAll(t, order) == SubAll(t, order')
  {
    forall x ensures x in order <==> x in order' {
      assert x in order <==> x in multiset(order);
      assert x in order' <==> x in multiset(order');
    }
    assert SetOf(order) == SetOf(order');
    AnyOrderRedacts(t, order);
    AnyOrderRedacts(t, order');
  }

  /** With such room the answer of `Strip` is as described, for all the forbidden words,
      found or not, and in whatever order the set of them is iterated. */
  lemma RoomyIsRedacted(t: string, words: seq<string>)
    requires Distinct(words) && (forall c | c in words :: ColumnName(c)) && Roomy(t, 0, SetOf(words))
    ensures SubAll(t, ByLength(FoundIn(words, Lower(t)))) == Redacted(t, SetOf(words))
  {
    FoundWordsMatter(t, words);
    AnyOrderRedacts(t, ByLength(FoundIn(words, Lower(t))));
  }

  // ----- What survives -----

  /** In the one-pass description a forbidden word occurs only inside its own
      placeholder. */
  lemma {:induction false} OnlyPlaceholders(t: string, i: nat, cols: set<string>, pre: string, k: nat, c: string)
    requires i <= |t| && SameLeft(t, i, pre) && c in cols && forall x | x in cols :: ColumnName(x)
    requires |pre| <= k < |pre + RedactedFrom(t, i, cols, true)|
    requires WordHere(pre + RedactedFrom(t, i, cols, true), k) == Some(c)
    ensures 1 <= k && k + |c| + 10 <= |pre + RedactedFrom(t, i, cols, true)|
    ensures (pre + RedactedFrom(t, i, cols, true))[k - 1..k + |c| + 10] == Placeholder(c)
    decreases |t| - i
  {
    if i < |t| {
      if Cut(t, i, cols, true) {
        OnlyPlaceholdersCut(t, i, SegEnd(t, i), WordHere(t, i).value, cols, pre, k, c);
      } else {
        OnlyPlaceholdersCopy(t, i, cols, pre, k, c);
      }
    }
  }

  lemma OnlyPlaceholdersCopy(t: string, i: nat, cols: set<string>, pre: string, k: nat, c: string)
    requires i < |t| && SameLeft(t, i, pre) && !Cut(t, i, cols, true)
    requires c in cols && forall x | x in cols :: ColumnName(x)
    requires |pre| <= k < |pre + RedactedFrom(t, i, cols, true)|
    requires WordHere(pre + RedactedFrom(t, i, cols, true), k) == Some(c)
    ensures 1 <= k && k + |c| + 10 <= |pre + RedactedFrom(t, i, cols, true)|
    ensures (pre + RedactedFrom(t, i, cols, true))[k - 1..k + |c| + 10] == Placeholder(c)
    decreases |t| - i, 0
  {
    WordCarries(t, i, cols, true, pre);
    assert k > |pre|;
    CopyStep(t, i, cols, true);
    Regroup(pre, [t[i]], RedactedFrom(t, i + 1, cols, true));
    SameLeftNext(t, i, pre);
    OnlyPlaceholders(t, i + 1, cols, pre + [t[i]], k, c);
  }

  lemma OnlyPlaceholdersCut(t: string, i: nat, e: nat, x: string, cols: set<string>, pre: string, k: nat, c: string)
    requires i < |t| && Cut(t, i, cols, true) && e == SegEnd(t, i) && Some(x) == WordHere(t, i)
    requires c in cols && forall x | x in cols :: ColumnName(x)
    requires |pre| <= k < |pre + RedactedFrom(t, i, cols, true)|
    requires WordHere(pre + RedactedFrom(t, i, cols, true), k) == Some(c)
    ensures 1 <= k && k + |c| + 10 <= |pre + RedactedFrom(t, i, cols, true)|
    ensures (pre + RedactedFrom(t, i, cols, true))[k - 1..k + |c| + 10] == Placeholder(c)
    decreases |t| - i, 0
  {
    var p, rest := Placeholder(x), RedactedFrom(t, e, cols, true);
    WordInSegment(t, i);
    PlaceholderShape(x);
    CutStep(t, i, e, x, cols, true);
    Regroup(pre, p, rest);
    if k < |pre| + |p| {
      InPlaceholder(pre, p, x, rest, k, c);
    } else {
      OnlyPlaceholders(t, e, cols, pre + p, k, c);
    }
  }

  lemma InPlaceholder(pre: string, p: string, x: string, rest: string, k: nat, c: string)
    requires Shape(p, x) && x != "" && ColumnName(c) && |pre| <= k < |pre| + |p|
    requires WordHere(pre + p + rest, k) == Some(c)
    ensures c == x && k == |pre| + 1 && (pre + p + rest)[k - 1..k + |c| + 10] == p
  {
    var out := pre + p + rest;
    assert out[|pre|..|pre| + |p|] == p;
    PlaceholderWords(out, |pre|, p, x, k - |pre|);
  }

  // ----- Two answers that come out wrong -----

  lemma NicIsName()
    ensures ColumnName("nic")
  {
    assert Lower("nic") == "nic";
  }

  /** If w is the only word of the text that is forbidden, it is the only one
      substituted. */
  lemma OnlyFound(t: string, words: seq<string>, w: string)
    requires Lower(t) == t && Distinct(words) && (forall c | c in words :: ColumnName(c)) && w in words
    requires WordHere(t, 0) == Some(w)
    requires forall k | 0 < k <= |t| :: WordHere(t, k).None? || WordHere(t, k).value !in words
    ensures ByLength(FoundIn(words, Lower(t))) == [w]
  {
    var order := ByLength(FoundIn(words, t));
    FoundInIs(words, t, "");
    forall x ensures multiset(order)[x] <= 1 {
      assert multiset(order)[x] <= multiset(words)[x] <= 1;
    }
    forall x ensures x in order <==> x == w {
      assert x in order <==> x in multiset(order);
      FoundInIs(words, t, x);
      if x in words && Occurs(t, x) {
        var k :| 0 <= k <= |t| && OccursAt(t, k, x);
        assert Lower(t[k..k + |x|]) == Lower(t)[k..k + |x|];
        WordAtIs(t, k, x);
      }
      if x == w {
        OccursIs(t, 0, w);
      }
    }
    OneOfThem(order, w);
  }

  lemma OneOfThem(order: seq<string>, w: string)
    requires Distinct(order) && forall x :: x in order <==> x == w
    ensures order == [w]
  {
    assert w in order;
    DistinctHead(order);
    assert order[0] in order;
    FirstOfRest(order[1..], order);
  }

  /** The first of the rest of a list, if there is one, is in the list. */
  lemma FirstOfRest(rest: seq<string>, order: seq<string>)
    requires order != [] && rest == order[1..]
    ensures rest != [] ==> rest[0] in rest && rest[0] in order
  {
    if rest != [] {
      assert rest[0] == order[1];
    }
  }

  lemma LastWord()
    ensures WordHere("nic", 0) == Some("nic") && forall k | 0 < k <= 3 :: WordHere("nic", k).None?
    ensures Sub("nic", "nic") == "nic"
    ensures forall words | "nic" in words :: Redacted("nic", words) == "[NIC REDACTED]"
  {
    var t := "nic";
    NicIsName();
    RunEndIs(t, 0, 3);
    assert t[0..3] == t;
    WordAtIs(t, 0, t);
    assert Tail(t, 3).None?;
    SubNoMatch(t, 0, 3, 1, t);
    assert !WordAt(t, 1, t) && !WordAt(t, 2, t);
    assert SubFrom(t, 1, t) == [t[1]] + SubFrom(t, 2, t) && SubFrom(t, 2, t) == [t[2]] + SubFrom(t, 3, t);
    SegEndIs(t, 0, 3);
    assert Upper(t) == "NIC";
    forall words | t in words ensures Redacted(t, words) == "[NIC REDACTED]" {
      CutStep(t, 0, 3, t, words, true);
    }
  }

  /** A forbidden word at the very end of the answer stays, whatever else is forbidden. */
  lemma LastWordStays(words: seq<string>)
    requires Distinct(words) && (forall c | c in words :: ColumnName(c)) && "nic" in words
    ensures SubAll("nic", ByLength(FoundIn(words, Lower("nic")))) == "nic"
    ensures Redacted("nic", SetOf(words)) == "[NIC REDACTED]"
  {
    LastWord();
    assert Lower("nic") == "nic";
    OnlyFound("nic", words, "nic");
    assert SubAll("nic", ["nic"]) == SubAll(Sub("nic", "nic"), []);
  }

  lemma TwoLines()
    ensures WordHere("nic\nok", 0) == Some("nic") && WordHere("nic\nok", 4) == Some("ok")
    ensures forall k | 0 < k <= 6 && k != 4 :: WordHere("nic\nok", k).None?
  {
    var t := "nic\nok";
    RunEndIs(t, 0, 3);
    RunEndIs(t, 4, 6);
    assert t[0..3] == "nic" && t[4..6] == "ok";
    assert Lower("nic") == "nic" && Lower("ok") == "ok";
  }

  lemma TwoLinesSub()
    ensures Sub("nic\nok", "nic") == "[NIC REDACTED]"
  {
    var t, w := "nic\nok", "nic";
    NicIsName();
    TwoLines();
    WordAtIs(t, 0, w);
    assert SpaceEnd(t, 3) == 4;
    SegEndIs(t, 4, 6);
    assert SpaceEnd(t, 4) == 4;
    assert AfterSep(t, 4) == TryBody(t, 4, 4) == Some(6);
    assert Tail(t, 3) == Some(6);
    SubMatch(t, 0, 3, w, 6);
    assert Upper(w) == "NIC";
  }

  lemma TwoLinesRedacted(words: set<string>)
    requires "nic" in words && "ok" !in words
    ensures Redacted("nic\nok", words) == "[NIC REDACTED]\nok"
  {
    var t := "nic\nok";
    TwoLines();
    SegEndIs(t, 0, 3);
    CutStep(t, 0, 3, "nic", words, true);
    assert Upper("nic") == "NIC";
    CopyStep(t, 3, words, true);
    CopyStep(t, 4, words, true);
    CopyStep(t, 5, words, true);
  }

  /** A forbidden word at the end of its line takes the next line with it. */
  lemma NextLineIsLost(words: seq<string>)
    requires Distinct(words) && (forall c | c in words :: ColumnName(c)) && "nic" in words && "ok" !in words
    ensures SubAll("nic\nok", ByLength(FoundIn(words, Lower("nic\nok")))) == "[NIC REDACTED]"
    ensures Redacted("nic\nok", SetOf(words)) == "[NIC REDACTED]\nok"
  {
    var t := "nic\nok";
    TwoLines();
    assert Lower(t) == t;
    OnlyFound(t, words, "nic");
    TwoLinesSub();
    assert SubAll(t, ["nic"]) == SubAll(Sub(t, "nic"), []);
    TwoLinesRedacted(SetOf(words));
  }
}
