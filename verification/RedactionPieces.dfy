/** Redaction, piece by piece: an answer is cut at its commas, semicolons and line ends, and
    each piece comes out on its own. */
module RedactionPieces {
  import opened Wrappers
  import opened Sequences
  import opened Ascii
  import opened RedactionPattern
  import opened Redaction

  // ----- Pieces -----

  predicate Mark(c: char) { c == ',' || c == ';' || c == '\n' }

  function FirstMark(s: string): (e: nat)
    ensures e <= |s| && (e < |s| ==> Mark(s[e]))
  {
    if s == "" || Mark(s[0]) then 0 else 1 + FirstMark(s[1..])
  }

  /** The pieces between the marks, empty ones included. */
  function Split(s: string): (r: seq<string>)
    ensures r != []
    decreases |s|
  {
    var e := FirstMark(s);
    if e == |s| then [s] else [s[..e]] + Split(s[e + 1..])
  }

  /** The marks, in order. */
  function Marks(s: string): string {
    if s == "" then "" else (if Mark(s[0]) then [s[0]] else "") + Marks(s[1..])
  }

  lemma {:induction false} MarksAppend(a: string, b: string)
    ensures Marks(a + b) == Marks(a) + Marks(b)
  {
    if a == "" {
      assert a + b == b;
    } else {
      MarksAppend(a[1..], b);
      assert (a + b)[1..] == a[1..] + b;
      Regroup(if Mark(a[0]) then [a[0]] else "", Marks(a[1..]), Marks(b));
    }
  }

  predicate MarkFree(s: string) { forall k | 0 <= k < |s| :: !Mark(s[k]) }

  lemma NoMarks(s: string)
    requires MarkFree(s)
    ensures Marks(s) == "" && FirstMark(s) == |s| && Split(s) == [s]
  {
    if s != "" {
      NoMarks(s[1..]);
    }
  }

  lemma FirstMarkIs(s: string, e: nat)
    requires e < |s| && Mark(s[e]) && forall k | 0 <= k < e :: !Mark(s[k])
    ensures FirstMark(s) == e
  {
    if e > 0 {
      FirstMarkIs(s[1..], e - 1);
    }
  }

  /** A piece, its mark, and the rest. */
  lemma SplitCons(s: string, p: string, c: char, rest: string)
    requires MarkFree(p) && Mark(c) && s == p + ([c] + rest)
    ensures Split(s) == [p] + Split(rest) && Marks(s) == [c] + Marks(rest)
  {
    assert s[..|p|] == p && s[|p|] == c && s[|p| + 1..] == rest;
    assert forall k | 0 <= k < |p| :: s[k] == p[k];
    FirstMarkIs(s, |p|);
    MarksAppend(p, [c] + rest);
    NoMarks(p);
    assert ([c] + rest)[1..] == rest;
  }

  lemma {:induction false} CountMarks(s: string, c: char)
    requires Mark(c)
    ensures multiset(s)[c] == multiset(Marks(s))[c]
  {
    if s != "" {
      assert s == [s[0]] + s[1..];
      CountMarks(s[1..], c);
    }
  }

  // ----- Forbidden words in a piece -----

  predicate Alphanumeric(c: char) {
    'a' <= c <= 'z' || 'A' <= c <= 'Z' || '0' <= c <= '9' || c == '_'
  }

  /** The word stands at j, in any case, with no letter, digit or underscore next to it. */
  predicate Stands(p: string, j: nat, w: string) {
    && j + |w| <= |p| && SameButCase(p[j..j + |w|], w)
    && (j > 0 ==> !Alphanumeric(p[j - 1])) && (j + |w| < |p| ==> !Alphanumeric(p[j + |w|]))
  }

  ghost predicate NoneStands(p: string, upTo: nat, words: set<string>) {
    forall k: nat, x | k < upTo && x in words :: !Stands(p, k, x)
  }

  /** Without a forbidden word the piece is as it was; otherwise it is what precedes its
      first forbidden word, and that word's placeholder. */
  ghost predicate PieceRedacted(p: string, r: string, words: set<string>) {
    && (NoneStands(p, |p|, words) ==> r == p)
    && (forall j: nat, w | w in words && Stands(p, j, w) && NoneStands(p, j, words) ::
          r == p[..j] + ("[" + Upper(w) + " REDACTED]"))
  }

  predicate White(c: char) {
    || c == '\t' || c == '\n' || c == '\U{B}' || c == '\U{C}' || c == '\r'
    || c == '\U{1C}' || c == '\U{1D}' || c == '\U{1E}' || c == '\U{1F}' || c == ' '
  }

  predicate AllWhite(s: string) { forall k | 0 <= k < |s| :: White(s[k]) }

  /** Whitespace, with at most one colon, hyphen or equals sign in it. */
  ghost predicate OnlyBlanks(s: string) {
    AllWhite(s) || exists a :: 0 <= a < |s| && (s[a] == ':' || s[a] == '-' || s[a] == '=')
                            && AllWhite(s[..a]) && AllWhite(s[a + 1..])
  }

  /** Something is left of the piece after j, and something other than blanks if the piece
      is the last of its line. */
  ghost predicate RoomAfter(p: string, j: nat, lastOfLine: bool) {
    j < |p| && (lastOfLine ==> !OnlyBlanks(p[j..]))
  }

  /** Every forbidden word has such room. */
  ghost predicate HasRoom(t: string, words: set<string>) { RoomIn(Split(t), Marks(t), words) }

  ghost predicate RoomIn(pieces: seq<string>, marks: string, words: set<string>) {
    forall n: nat, j: nat, w | n < |pieces| && w in words && Stands(pieces[n], j, w) ::
      RoomAfter(pieces[n], j + |w|, n < |marks| && marks[n] == '\n')
  }

  // ----- Blanks -----

  lemma WhiteIs(c: char)
    ensures White(c) <==> Space(c)
  {
  }

  lemma AllWhiteIs(s: string, p: nat)
    requires p <= |s|
    ensures AllWhite(s[p..]) <==> SpaceEnd(s, p) == |s|
    decreases |s| - p
  {
    if p < |s| {
      WhiteIs(s[p]);
      assert s[p..][0] == s[p] && s[p..][1..] == s[p + 1..];
      AllWhiteIs(s, p + 1);
      forall k | 0 <= k < |s[p..]| ensures s[p..][k] == if k == 0 then s[p] else s[p + 1..][k - 1] {
      }
    }
  }

  lemma SpaceEndIs(s: string, p: nat, a: nat)
    requires p <= a < |s| && !Space(s[a]) && forall k | p <= k < a :: Space(s[k])
    ensures SpaceEnd(s, p) == a
    decreases a - p
  {
    if p < a {
      SpaceEndIs(s, p + 1, a);
    }
  }

  /** A separator with blanks on both sides. */
  lemma BlankAround(s: string, a: nat)
    requires a < |s| && (s[a] == ':' || s[a] == '-' || s[a] == '=') && AllWhite(s[..a]) && AllWhite(s[a + 1..])
    ensures Blank(s)
  {
    forall k | 0 <= k < a ensures Space(s[k]) {
      assert White(s[..a][k]);
      WhiteIs(s[k]);
    }
    SpaceEndIs(s, 0, a);
    AllWhiteIs(s, a + 1);
  }

  lemma BlankIs(s: string)
    ensures OnlyBlanks(s) <==> Blank(s)
  {
    var e := SpaceEnd(s, 0);
    assert s[0..] == s;
    AllWhiteIs(s, 0);
    SpaceEndInside(s, 0);
    if e < |s| {
      AllWhiteIs(s, e + 1);
      forall k | 0 <= k < e ensures White(s[..e][k]) {
        WhiteIs(s[k]);
      }
    }
    if a :| 0 <= a < |s| && (s[a] == ':' || s[a] == '-' || s[a] == '=') && AllWhite(s[..a]) && AllWhite(s[a + 1..]) {
      BlankAround(s, a);
    }
  }

  // ----- Words of a piece are the words of the text -----

  /** A piece starts at i. */
  predicate PieceStart(t: string, i: nat)
    requires i <= |t|
  {
    i == 0 || Mark(t[i - 1])
  }

  lemma SliceOfSlice(t: string, i: nat, e: nat, m: nat, b: nat, j: nat, n: nat)
    requires i <= m <= b <= e <= |t| && j == m - i && n == b - i
    ensures t[i..e][j..n] == t[m..b]
  {
  }

  /** What is next to the word in its piece is next to it in the text, or a mark. */
  lemma SameNeighbours(t: string, i: nat, e: nat, m: nat, b: nat, j: nat, n: nat)
    requires i <= m <= b <= e <= |t| && j == m - i && n == b - i && PieceStart(t, i) && (e == |t| || Mark(t[e]))
    ensures (j > 0 ==> !Alphanumeric(t[i..e][j - 1])) <==> BoundaryLeft(t, m)
    ensures (n < e - i ==> !Alphanumeric(t[i..e][n])) <==> BoundaryRight(t, b)
  {
    assert j > 0 ==> t[i..e][j - 1] == t[m - 1];
    assert n < e - i ==> t[i..e][n] == t[b];
  }

  lemma StandsInside(t: string, i: nat, e: nat, m: nat, b: nat, w: string)
    requires i <= m <= b <= e <= |t| && b == m + |w| && PieceStart(t, i) && (e == |t| || Mark(t[e])) && ColumnName(w)
    ensures Stands(t[i..e], m - i, w) <==> WordAt(t, m, w)
  {
    var j := m - i;
    SliceOfSlice(t, i, e, m, b, j, j + |w|);
    SameNeighbours(t, i, e, m, b, j, j + |w|);
    LowerSame(t[m..b], w);
  }

  /** No word reaches beyond its piece. */
  lemma StandsBeyond(t: string, m: nat, e: nat, w: string)
    requires m <= e < m + |w| <= |t| && Mark(t[e]) && ColumnName(w)
    ensures !WordAt(t, m, w)
  {
    assert WordChar(w[e - m]) && !WordChar(LowerChar(t[e]));
    assert Lower(t[m..m + |w|])[e - m] == LowerChar(t[e]);
  }

  lemma StandsIs(t: string, i: nat, e: nat, m: nat, w: string)
    requires i <= m <= e <= |t| && PieceStart(t, i) && (e == |t| || Mark(t[e])) && ColumnName(w)
    ensures Stands(t[i..e], m - i, w) <==> WordAt(t, m, w)
  {
    if m + |w| <= e {
      StandsInside(t, i, e, m, m + |w|, w);
    } else if m + |w| <= |t| {
      StandsBeyond(t, m, e, w);
    }
  }

  lemma StandsHere(t: string, i: nat, e: nat, m: nat, w: string)
    requires i <= m < e <= |t| && PieceStart(t, i) && (e == |t| || Mark(t[e])) && ColumnName(w)
    requires MarkFree(t[i..e])
    ensures Stands(t[i..e], m - i, w) <==> WordHere(t, m) == Some(w)
    ensures Stands(t[i..e], m - i, w) ==> RunEnd(t, m) == m + |w|
  {
    StandsIs(t, i, e, m, w);
    WordAtIs(t, m, w);
  }

  lemma PieceAt(t: string, i: nat, e: nat)
    requires i <= |t| && e == SegEnd(t, i)
    ensures MarkFree(t[i..e]) && (e < |t| ==> Mark(t[e]))
  {
    SegEndInside(t, i);
  }

  // ----- One piece -----

  /** What stands for the rest of a segment that is cut at k, or nowhere before its end. */
  function CutShort(t: string, k: nat, e: nat): string
    requires k <= e <= |t|
  {
    if k < e && WordHere(t, k).Some? then Placeholder(WordHere(t, k).value) else ""
  }

  lemma Prepend(c: char, a: string, b: string, r: string)
    ensures [c] + (a + b + r) == [c] + a + b + r
  {
  }

  /** From j on, inside a segment: copied up to the first word that is cut, if any. */
  lemma {:induction false} UpToCut(t: string, j: nat, e: nat, cols: set<string>) returns (k: nat)
    requires j <= |t| && e == SegEnd(t, j)
    ensures j <= k <= e && (forall m | j <= m < k :: !Cut(t, m, cols, true)) && (k < e ==> Cut(t, k, cols, true))
    ensures RedactedFrom(t, j, cols, true) == t[j..k] + CutShort(t, k, e) + RedactedFrom(t, e, cols, true)
    decreases |t| - j
  {
    k := j;
    if j < e {
      if Cut(t, j, cols, true) {
        CutStep(t, j, e, WordHere(t, j).value, cols, true);
        assert t[j..j] + CutShort(t, j, e) == Placeholder(WordHere(t, j).value);
      } else {
        k := UpToCut(t, j + 1, e, cols);
        CopyStep(t, j, cols, true);
        HeadSlice(t, j, k);
        Prepend(t[j], t[j + 1..k], CutShort(t, k, e), RedactedFrom(t, e, cols, true));
      }
    } else {
      assert t[j..j] + CutShort(t, j, e) == "";
    }
  }

  /** Before the first cut no forbidden word stands. */
  lemma NoneBefore(t: string, i: nat, e: nat, k: nat, cols: set<string>)
    requires i <= k <= e <= |t| && PieceStart(t, i) && (e == |t| || Mark(t[e])) && MarkFree(t[i..e])
    requires (forall c | c in cols :: ColumnName(c)) && forall m | i <= m < k :: !Cut(t, m, cols, true)
    ensures NoneStands(t[i..e], k - i, cols)
  {
    forall m: nat, x | m < k - i && x in cols ensures !Stands(t[i..e], m, x) {
      StandsHere(t, i, e, i + m, x);
      assert !Cut(t, i + m, cols, true);
    }
  }

  /** Where the first cut is, the first forbidden word stands, and no other one does. */
  lemma FirstStands(t: string, i: nat, e: nat, k: nat, cols: set<string>, j: nat, w: string)
    requires i <= k < e <= |t| && PieceStart(t, i) && (e == |t| || Mark(t[e])) && MarkFree(t[i..e])
    requires (forall c | c in cols :: ColumnName(c)) && Cut(t, k, cols, true) && NoneStands(t[i..e], k - i, cols)
    requires w in cols && Stands(t[i..e], j, w) && NoneStands(t[i..e], j, cols)
    ensures j == k - i && WordHere(t, k) == Some(w)
  {
    StandsHere(t, i, e, k, WordHere(t, k).value);
    assert j >= k - i && !(j > k - i);
    StandsHere(t, i, e, k, w);
  }

  lemma PieceIs(t: string, i: nat, e: nat, cols: set<string>) returns (u: string)
    requires i <= |t| && e == SegEnd(t, i) && PieceStart(t, i) && forall c | c in cols :: ColumnName(c)
    ensures RedactedFrom(t, i, cols, true) == u + RedactedFrom(t, e, cols, true)
    ensures MarkFree(u) && PieceRedacted(t[i..e], u, cols)
  {
    PieceAt(t, i, e);
    var k := UpToCut(t, i, e, cols);
    var p := t[i..e];
    NoneBefore(t, i, e, k, cols);
    u := t[i..k] + CutShort(t, k, e);
    if k < e {
      PieceIsCut(t, i, e, k, cols);
    } else {
      assert u == p;
      forall j: nat, w | w in cols ensures !Stands(p, j, w) {
        assert w != "";
      }
    }
  }

  lemma PieceIsCut(t: string, i: nat, e: nat, k: nat, cols: set<string>)
    requires i <= k < e <= |t| && PieceStart(t, i) && (e == |t| || Mark(t[e])) && MarkFree(t[i..e])
    requires (forall c | c in cols :: ColumnName(c)) && Cut(t, k, cols, true) && NoneStands(t[i..e], k - i, cols)
    ensures MarkFree(t[i..k] + CutShort(t, k, e)) && PieceRedacted(t[i..e], t[i..k] + CutShort(t, k, e), cols)
  {
    var p, x := t[i..e], WordHere(t, k).value;
    var u := t[i..k] + Placeholder(x);
    StandsHere(t, i, e, k, x);
    assert Stands(p, k - i, x);
    CutIsMarkFree(p, t[i..k], x);
    SliceOfSlice(t, i, e, i, k, 0, k - i);
    forall j: nat, w | w in cols && Stands(p, j, w) && NoneStands(p, j, cols) ensures u == p[..j] + Placeholder(w) {
      FirstStands(t, i, e, k, cols, j, w);
    }
  }

  lemma CutIsMarkFree(p: string, a: string, x: string)
    requires MarkFree(p) && |a| <= |p| && a == p[..|a|] && ColumnName(x)
    ensures MarkFree(a + Placeholder(x))
  {
    PlaceholderShape(x);
    ShapeHasNoDelim(Placeholder(x), x);
    assert forall m | 0 <= m < |a| :: a[m] == p[m];
  }

  // ----- The whole text -----

  ghost predicate AllRedacted(ps: seq<string>, rs: seq<string>, words: set<string>) {
    |ps| == |rs| && forall n | 0 <= n < |ps| :: PieceRedacted(ps[n], rs[n], words)
  }

  lemma AllRedactedCons(p: string, u: string, ps: seq<string>, rs: seq<string>, words: set<string>)
    requires PieceRedacted(p, u, words) && AllRedacted(ps, rs, words)
    ensures AllRedacted([p] + ps, [u] + rs, words)
  {
  }

  lemma TailIsPiece(t: string, i: nat, e: nat)
    requires i <= e < |t|
    ensures t[i..] == t[i..e] + ([t[e]] + t[e + 1..])
  {
  }

  lemma SplitAt(t: string, i: nat, e: nat)
    requires i <= |t| && e == SegEnd(t, i)
    ensures e == |t| ==> Split(t[i..]) == [t[i..e]] && Marks(t[i..]) == ""
    ensures e < |t| ==> Split(t[i..]) == [t[i..e]] + Split(t[e + 1..]) && Marks(t[i..]) == [t[e]] + Marks(t[e + 1..])
  {
    PieceAt(t, i, e);
    if e == |t| {
      assert t[i..] == t[i..e];
      NoMarks(t[i..e]);
    } else {
      TailIsPiece(t, i, e);
      SplitCons(t[i..], t[i..e], t[e], t[e + 1..]);
    }
  }

  /** The text comes out as `out`, with its own marks and each piece redacted. */
  ghost predicate ComesOut(s: string, out: string, words: set<string>) {
    AllRedacted(Split(s), Split(out), words) && Marks(out) == Marks(s)
  }

  lemma LastComesOut(s: string, out: string, words: set<string>)
    requires MarkFree(s) && MarkFree(out) && PieceRedacted(s, out, words)
    ensures ComesOut(s, out, words)
  {
    NoMarks(s);
    NoMarks(out);
  }

  lemma NextComesOut(s: string, p: string, c: char, rs: string, out: string, u: string, ro: string, words: set<string>)
    requires s == p + ([c] + rs) && out == u + ([c] + ro) && MarkFree(p) && MarkFree(u) && Mark(c)
    requires PieceRedacted(p, u, words) && ComesOut(rs, ro, words)
    ensures ComesOut(s, out, words)
  {
    SplitCons(s, p, c, rs);
    SplitCons(out, u, c, ro);
    AllRedactedCons(p, u, Split(rs), Split(ro), words);
  }

  lemma MarkIsCopied(t: string, e: nat, cols: set<string>)
    requires e < |t| && Mark(t[e])
    ensures RedactedFrom(t, e, cols, true) == [t[e]] + RedactedFrom(t, e + 1, cols, true)
  {
    CopyStep(t, e, cols, true);
  }

  lemma PieceComesOut(t: string, i: nat, e: nat, out: string, u: string, ro: string, words: set<string>)
    requires i <= e < |t| && MarkFree(t[i..e]) && Mark(t[e]) && out == u + ([t[e]] + ro) && MarkFree(u)
    requires PieceRedacted(t[i..e], u, words) && ComesOut(t[e + 1..], ro, words)
    ensures ComesOut(t[i..], out, words)
  {
    TailIsPiece(t, i, e);
    NextComesOut(t[i..], t[i..e], t[e], t[e + 1..], out, u, ro, words);
  }

  lemma LastPiece(t: string, i: nat, cols: set<string>)
    requires i <= |t| && SegEnd(t, i) == |t| && PieceStart(t, i) && forall c | c in cols :: ColumnName(c)
    ensures ComesOut(t[i..], RedactedFrom(t, i, cols, true), cols)
  {
    var u := PieceIs(t, i, |t|, cols);
    PieceAt(t, i, |t|);
    assert u + RedactedFrom(t, |t|, cols, true) == u;
    assert t[i..] == t[i..|t|];
    LastComesOut(t[i..|t|], u, cols);
  }

  lemma NextPiece(t: string, i: nat, e: nat, cols: set<string>)
    requires i <= e < |t| && SegEnd(t, i) == e && PieceStart(t, i) && forall c | c in cols :: ColumnName(c)
    requires ComesOut(t[e + 1..], RedactedFrom(t, e + 1, cols, true), cols)
    ensures ComesOut(t[i..], RedactedFrom(t, i, cols, true), cols)
  {
    var u := PieceIs(t, i, e, cols);
    PieceAt(t, i, e);
    MarkIsCopied(t, e, cols);
    PieceComesOut(t, i, e, RedactedFrom(t, i, cols, true), u, RedactedFrom(t, e + 1, cols, true), cols);
  }

  lemma {:induction false} WholeIs(t: string, i: nat, cols: set<string>)
    requires i <= |t| && PieceStart(t, i) && forall c | c in cols :: ColumnName(c)
    ensures ComesOut(t[i..], RedactedFrom(t, i, cols, true), cols)
    decreases |t| - i
  {
    var e := SegEnd(t, i);
    if e == |t| {
      LastPiece(t, i, cols);
    } else {
      WholeIs(t, e + 1, cols);
      NextPiece(t, i, e, cols);
    }
  }

  // ----- Room, piece by piece -----

  lemma RoomOfRest(p: string, pieces: seq<string>, c: char, marks: string, words: set<string>)
    requires RoomIn([p] + pieces, [c] + marks, words)
    ensures RoomIn(pieces, marks, words)
  {
    forall n: nat, j: nat, w | n < |pieces| && w in words && Stands(pieces[n], j, w)
      ensures RoomAfter(pieces[n], j + |w|, n < |marks| && marks[n] == '\n')
    {
      assert ([p] + pieces)[n + 1] == pieces[n];
      assert n < |marks| ==> ([c] + marks)[n + 1] == marks[n];
      assert RoomAfter(([p] + pieces)[n + 1], j + |w|, n + 1 < |[c] + marks| && ([c] + marks)[n + 1] == '\n');
    }
  }

  lemma RestOfPiece(t: string, i: nat, e: nat, j: nat, n: nat)
    requires i <= j <= e <= |t| && n == j - i
    ensures t[i..e][n..] == t[j..e]
  {
  }

  /** Room in the first piece is room in the text. */
  lemma RoomThere(t: string, i: nat, e: nat, j: nat, n: nat, last: bool)
    requires i <= j <= e <= |t| && SegEnd(t, j) == e && n == j - i
    requires RoomAfter(t[i..e], n, last) && (last <==> e < |t| && t[e] == '\n')
    ensures Room(t, j)
  {
    RestOfPiece(t, i, e, j, n);
    BlankIs(t[j..e]);
  }

  lemma FirstHasRoom(pieces: seq<string>, marks: string, m: nat, n: nat, w: string, words: set<string>)
    requires pieces != [] && RoomIn(pieces, marks, words) && w in words && Stands(pieces[0], m, w) && n == m + |w|
    ensures RoomAfter(pieces[0], n, marks != "" && marks[0] == '\n')
  {
  }

  lemma RoomHere(t: string, i: nat, e: nat, k: nat, m: nat, w: string, words: set<string>)
    requires i <= k < e <= |t| && e == SegEnd(t, i) && PieceStart(t, i) && w in words && ColumnName(w) && m == k - i
    requires HasRoom(t[i..], words) && WordHere(t, k) == Some(w)
    ensures Room(t, RunEnd(t, k))
  {
    var n := m + |w|;
    PieceAt(t, i, e);
    SplitAt(t, i, e);
    StandsHere(t, i, e, k, w);
    FirstHasRoom(Split(t[i..]), Marks(t[i..]), m, n, w, words);
    SegEndShared(t, i, k);
    WordInSegment(t, k);
    SegEndAfterWord(t, k);
    RoomThere(t, i, e, RunEnd(t, k), n, e < |t| && t[e] == '\n');
  }

  lemma RoomyJoins(t: string, i: nat, e: nat, words: set<string>)
    requires i <= e <= |t| && (e < |t| ==> Mark(t[e]) && Roomy(t, e + 1, words))
    requires forall k | i <= k < e && WordHere(t, k).Some? && WordHere(t, k).value in words :: Room(t, RunEnd(t, k))
    ensures Roomy(t, i, words)
  {
    assert e < |t| ==> WordHere(t, e).None?;
  }

  lemma {:induction false} RoomIsRoomy(t: string, i: nat, words: set<string>)
    requires i <= |t| && PieceStart(t, i) && HasRoom(t[i..], words) && forall c | c in words :: ColumnName(c)
    ensures Roomy(t, i, words)
    decreases |t| - i
  {
    var e := SegEnd(t, i);
    PieceAt(t, i, e);
    SplitAt(t, i, e);
    if e < |t| {
      RoomOfRest(t[i..e], Split(t[e + 1..]), t[e], Marks(t[e + 1..]), words);
      RoomIsRoomy(t, e + 1, words);
    }
    forall k | i <= k < e && WordHere(t, k).Some? && WordHere(t, k).value in words ensures Room(t, RunEnd(t, k)) {
      RoomHere(t, i, e, k, k - i, WordHere(t, k).value, words);
    }
    RoomyJoins(t, i, e, words);
  }

  /** With room after every forbidden word, whatever the order in which the set of words is
      iterated: the answer of `Strip` has the marks of the text, in their order and number,
      and each piece comes out without its first forbidden word and all that follows it. */
  lemma PieceByPiece(t: string, words: seq<string>)
    requires Distinct(words) && (forall c | c in words :: ColumnName(c)) && HasRoom(t, SetOf(words))
    ensures var r := SubAll(t, ByLength(FoundIn(words, Lower(t))));
            Marks(r) == Marks(t) && AllRedacted(Split(t), Split(r), SetOf(words))
  {
    assert t[0..] == t;
    RoomIsRoomy(t, 0, SetOf(words));
    RoomyIsRedacted(t, words);
    WholeIs(t, 0, SetOf(words));
  }

  /** In particular each of the three characters occurs as often as before. */
  lemma MarksAreKept(t: string, words: seq<string>, c: char)
    requires Distinct(words) && (forall w | w in words :: ColumnName(w)) && HasRoom(t, SetOf(words))
    requires c == ',' || c == ';' || c == '\n'
    ensures multiset(SubAll(t, ByLength(FoundIn(words, Lower(t)))))[c] == multiset(t)[c]
  {
    PieceByPiece(t, words);
    CountMarks(t, c);
    CountMarks(SubAll(t, ByLength(FoundIn(words, Lower(t)))), c);
  }

  // ----- Exactly when -----

  /** The first place where a forbidden word stands. */
  lemma {:induction false} FirstPlace(p: string, n: nat, words: set<string>) returns (j: nat, w: string)
    requires !NoneStands(p, n, words)
    ensures j < n && w in words && Stands(p, j, w) && NoneStands(p, j, words)
  {
    if NoneStands(p, n - 1, words) {
      var k: nat, x :| k < n && x in words && Stands(p, k, x);
      j, w := k, x;
      assert k == n - 1;
    } else {
      j, w := FirstPlace(p, n - 1, words);
    }
  }

  lemma OneWayOut(p: string, r1: string, r2: string, words: set<string>)
    requires PieceRedacted(p, r1, words) && PieceRedacted(p, r2, words)
    ensures r1 == r2
  {
    if !NoneStands(p, |p|, words) {
      var j, w := FirstPlace(p, |p|, words);
    }
  }

  function Glue(pieces: seq<string>, marks: string): string {
    if pieces == [] then ""
    else if |pieces| == 1 || marks == "" then pieces[0]
    else pieces[0] + ([marks[0]] + Glue(pieces[1..], marks[1..]))
  }

  lemma GlueCons(p: string, c: char, ps: seq<string>, ms: string)
    requires ps != []
    ensures Glue([p] + ps, [c] + ms) == p + ([c] + Glue(ps, ms))
  {
    assert ([p] + ps)[1..] == ps && ([c] + ms)[1..] == ms;
  }

  lemma {:induction false} SplitAndGlued(s: string)
    ensures Glue(Split(s), Marks(s)) == s
    decreases |s|
  {
    var e := FirstMark(s);
    FirstMarkFree(s);
    if e == |s| {
      NoMarks(s);
    } else {
      var rest := s[e + 1..];
      assert s == s[..e] + ([s[e]] + rest);
      SplitCons(s, s[..e], s[e], rest);
      SplitAndGlued(rest);
      GlueCons(s[..e], s[e], Split(rest), Marks(rest));
    }
  }

  lemma FirstMarkFree(s: string)
    ensures MarkFree(s[..FirstMark(s)])
  {
    if s != "" && !Mark(s[0]) {
      FirstMarkFree(s[1..]);
      assert forall k | 0 < k < FirstMark(s) :: s[..FirstMark(s)][k] == s[1..][..FirstMark(s) - 1][k - 1];
    }
  }

  /** The description leaves one text only. */
  lemma OneTextComesOut(t: string, a: string, b: string, words: set<string>)
    requires ComesOut(t, a, words) && ComesOut(t, b, words)
    ensures a == b
  {
    var ps, as', bs := Split(t), Split(a), Split(b);
    forall n | 0 <= n < |ps| ensures as'[n] == bs[n] {
      OneWayOut(ps[n], as'[n], bs[n], words);
    }
    assert as' == bs;
    SplitAndGlued(a);
    SplitAndGlued(b);
  }

  /** For every text, with room or not: the answer of `Strip` comes out piece by piece if
      and only if no substitution runs over the end of a segment and no first forbidden
      word ends its segment. */
  lemma PieceByPieceIsExact(t: string, words: seq<string>)
    requires Distinct(words) && forall c | c in words :: ColumnName(c)
    ensures var order := ByLength(FoundIn(words, Lower(t)));
            ComesOut(t, SubAll(t, order), SetOf(words)) <==> Sound(t, {}, order) && Followed(t, 0, SetOf(words))
  {
    var r := SubAll(t, ByLength(FoundIn(words, Lower(t))));
    assert t[0..] == t;
    StripIsExact(t, words);
    WholeIs(t, 0, SetOf(words));
    if ComesOut(t, r, SetOf(words)) {
      OneTextComesOut(t, r, Redacted(t, SetOf(words)), SetOf(words));
    }
  }
}
