/** The pattern that redaction searches for: a forbidden word, then the rest of its
    segment. */
module RedactionPattern {
  import opened Wrappers
  import opened Ascii

  // ----- Characters (ASCII) -----

  predicate WordChar(c: char) {
    'a' <= c <= 'z' || 'A' <= c <= 'Z' || '0' <= c <= '9' || c == '_'
  }

  /** The characters `\s` matches. */
  predicate Space(c: char) {
    '\t' <= c <= '\r' || '\U{1C}' <= c <= ' '
  }

  predicate Delim(c: char) { c == '\n' || c == ',' || c == ';' }

  predicate Sep(c: char) { c == ':' || c == '-' || c == '=' }

  // ----- The pattern -----

  predicate BoundaryLeft(t: string, i: nat)
    requires i <= |t|
  {
    i == 0 || !WordChar(t[i - 1])
  }

  predicate BoundaryRight(t: string, j: nat)
    requires j <= |t|
  {
    j == |t| || !WordChar(t[j])
  }

  /** `(?i)\bcol\b` matches at i. */
  predicate WordAt(t: string, i: nat, col: string) {
    && i + |col| <= |t|
    && Lower(t[i..i + |col|]) == col
    && BoundaryLeft(t, i) && BoundaryRight(t, i + |col|)
  }

  /** The end of the run of spaces from p. */
  function SpaceEnd(t: string, p: nat): (e: nat)
    requires p <= |t|
    ensures p <= e <= |t| && (e == |t| || !Space(t[e]))
    decreases |t| - p
  {
    if p < |t| && Space(t[p]) then SpaceEnd(t, p + 1) else p
  }

  lemma SpaceEndInside(t: string, p: nat)
    requires p <= |t|
    ensures forall k | p <= k < SpaceEnd(t, p) :: Space(t[k])
    decreases |t| - p
  {
    if p < SpaceEnd(t, p) {
      SpaceEndInside(t, p + 1);
    }
  }

  /** The end of the comma/semicolon/newline segment from p. */
  function SegEnd(t: string, p: nat): (e: nat)
    requires p <= |t|
    ensures p <= e <= |t| && (e == |t| || Delim(t[e]))
    decreases |t| - p
  {
    if p < |t| && !Delim(t[p]) then SegEnd(t, p + 1) else p
  }

  lemma SegEndInside(t: string, p: nat)
    requires p <= |t|
    ensures forall k | p <= k < SegEnd(t, p) :: !Delim(t[k])
    decreases |t| - p
  {
    if p < SegEnd(t, p) {
      SegEndInside(t, p + 1);
    }
  }

  /** `[^\n,;]+` after giving back spaces from hi down to lo. */
  function TryBody(t: string, lo: nat, hi: nat): Option<nat>
    requires lo <= hi <= |t|
    decreases hi
  {
    if hi < |t| && !Delim(t[hi]) then Some(SegEnd(t, hi))
    else if lo < hi then TryBody(t, lo, hi - 1)
    else None
  }

  /** `\s*[^\n,;]+` from p. */
  function AfterSep(t: string, p: nat): Option<nat>
    requires p <= |t|
  {
    TryBody(t, p, SpaceEnd(t, p))
  }

  /** `[:\-=]?\s*[^\n,;]+` from p: with the separator if that works out, else without. */
  function AfterSpaces(t: string, p: nat): Option<nat>
    requires p <= |t|
  {
    if p < |t| && Sep(t[p]) && AfterSep(t, p + 1).Some? then AfterSep(t, p + 1) else AfterSep(t, p)
  }

  /** The leading `\s*` gives back spaces from hi down to lo. */
  function TrySpaces(t: string, lo: nat, hi: nat): Option<nat>
    requires lo <= hi <= |t|
    decreases hi
  {
    if AfterSpaces(t, hi).Some? then AfterSpaces(t, hi)
    else if lo < hi then TrySpaces(t, lo, hi - 1)
    else None
  }

  /** Where `\s*[:\-=]?\s*[^\n,;]+`, starting at j, ends; greedy, with backtracking. */
  function Tail(t: string, j: nat): Option<nat>
    requires j <= |t|
  {
    TrySpaces(t, j, SpaceEnd(t, j))
  }

  function RunEnd(t: string, p: nat): (e: nat)
    requires p <= |t|
    ensures p <= e <= |t| && (e == |t| || !WordChar(t[e]))
    decreases |t| - p
  {
    if p < |t| && WordChar(t[p]) then RunEnd(t, p + 1) else p
  }

  lemma RunEndInside(t: string, p: nat)
    requires p <= |t|
    ensures forall k | p <= k < RunEnd(t, p) :: WordChar(t[k])
    decreases |t| - p
  {
    if p < RunEnd(t, p) {
      RunEndInside(t, p + 1);
    }
  }

  lemma SpaceEndFrom(t: string, p: nat, q: nat)
    requires p <= q <= |t| && q <= SpaceEnd(t, p)
    ensures SpaceEnd(t, q) == SpaceEnd(t, p)
    decreases q - p
  {
    if p < q {
      SpaceEndFrom(t, p + 1, q);
    }
  }

  lemma SegEndShared(t: string, j: nat, r: nat)
    requires j <= r < |t| && r < SegEnd(t, j)
    ensures SegEnd(t, r) == SegEnd(t, j)
    decreases r - j
  {
    if j < r {
      SegEndShared(t, j + 1, r);
    }
  }

  lemma SegEndIs(s: string, a: nat, b: nat)
    requires a <= b <= |s| && (forall k | a <= k < b :: !Delim(s[k])) && (b == |s| || Delim(s[b]))
    ensures SegEnd(s, a) == b
    decreases b - a
  {
    if a < b {
      SegEndIs(s, a + 1, b);
    }
  }

  lemma RunEndIs(s: string, a: nat, b: nat)
    requires a <= b <= |s| && (forall k | a <= k < b :: WordChar(s[k])) && (b == |s| || !WordChar(s[b]))
    ensures RunEnd(s, a) == b
    decreases b - a
  {
    if a < b {
      RunEndIs(s, a + 1, b);
    }
  }

  // ----- Where a match ends -----

  /** Only spaces, with at most one separator among them. */
  predicate Blank(s: string) {
    SpaceEnd(s, 0) == |s| || (Sep(s[SpaceEnd(s, 0)]) && SpaceEnd(s, SpaceEnd(s, 0) + 1) == |s|)
  }

  /** Nothing but blanks is left of the segment, and the match can go on beyond it. */
  predicate RunsOver(t: string, j: nat)
    requires j <= |t|
  {
    Blank(t[j..SegEnd(t, j)]) && AfterSep(t, SegEnd(t, j)).Some?
  }

  lemma SpaceEndSlice(t: string, j: nat, e: nat, p: nat)
    requires j <= p <= e <= |t|
    ensures SpaceEnd(t[j..e], p - j) + j == if SpaceEnd(t, p) <= e then SpaceEnd(t, p) else e
    decreases e - p
  {
    if p < e && Space(t[p]) {
      assert t[j..e][p - j] == t[p];
      SpaceEndSlice(t, j, e, p + 1);
    } else if p < e {
      assert t[j..e][p - j] == t[p];
    }
  }

  lemma BlankSlice(t: string, j: nat, e: nat)
    requires j <= e <= |t|
    ensures Blank(t[j..e])
       <==> SpaceEnd(t, j) >= e || (Sep(t[SpaceEnd(t, j)]) && SpaceEnd(t, SpaceEnd(t, j) + 1) >= e)
  {
    var a := SpaceEnd(t, j);
    SpaceEndSlice(t, j, e, j);
    if a < e {
      SpaceEndSlice(t, j, e, a + 1);
      assert t[j..e][a - j] == t[a];
    }
  }

  lemma TryBodyNone(t: string, lo: nat, hi: nat)
    requires lo <= hi <= |t| && TryBody(t, lo, hi).None?
    ensures forall q | lo <= q <= hi :: q == |t| || Delim(t[q])
    decreases hi
  {
    if lo < hi {
      TryBodyNone(t, lo, hi - 1);
    }
  }

  lemma TryBodySkips(t: string, lo: nat, m: nat, hi: nat)
    requires lo <= m <= hi <= |t| && forall q | m < q <= hi :: q == |t| || Delim(t[q])
    ensures TryBody(t, lo, hi) == TryBody(t, lo, m)
    decreases hi
  {
    if m < hi {
      TryBodySkips(t, lo, m, hi - 1);
    }
  }

  lemma TryBodyFinds(t: string, lo: nat, m: nat, hi: nat)
    requires lo <= m <= hi <= |t| && TryBody(t, m, hi).Some?
    ensures TryBody(t, lo, hi) == TryBody(t, m, hi)
    decreases hi
  {
    if !(hi < |t| && !Delim(t[hi])) {
      TryBodyFinds(t, lo, m, hi - 1);
    }
  }

  lemma TryBodyBeyond(t: string, lo: nat, hi: nat)
    requires lo <= hi <= |t| && TryBody(t, lo, hi).Some?
    ensures lo < TryBody(t, lo, hi).value <= |t|
    decreases hi
  {
    if !(hi < |t| && !Delim(t[hi])) {
      TryBodyBeyond(t, lo, hi - 1);
    }
  }

  lemma AfterSpacesBeyond(t: string, p: nat)
    requires p <= |t| && AfterSpaces(t, p).Some?
    ensures p < AfterSpaces(t, p).value <= |t|
  {
    if p < |t| && Sep(t[p]) && AfterSep(t, p + 1).Some? {
      TryBodyBeyond(t, p + 1, SpaceEnd(t, p + 1));
    } else {
      TryBodyBeyond(t, p, SpaceEnd(t, p));
    }
  }

  lemma TrySpacesSkips(t: string, lo: nat, m: nat, hi: nat)
    requires lo <= m <= hi <= |t| && forall q | m < q <= hi :: AfterSpaces(t, q).None?
    ensures TrySpaces(t, lo, hi) == TrySpaces(t, lo, m)
    decreases hi
  {
    if m < hi {
      TrySpacesSkips(t, lo, m, hi - 1);
    }
  }

  lemma TrySpacesBeyond(t: string, lo: nat, m: nat, hi: nat)
    requires lo <= m <= hi <= |t| && AfterSpaces(t, m).Some?
    ensures TrySpaces(t, lo, hi).Some? && m < TrySpaces(t, lo, hi).value <= |t|
    decreases hi
  {
    if AfterSpaces(t, hi).Some? {
      AfterSpacesBeyond(t, hi);
    } else {
      TrySpacesBeyond(t, lo, m, hi - 1);
    }
  }

  /** Where nothing can follow the spaces from e, nothing follows any of them. */
  lemma QuietSpaces(t: string, e: nat, q: nat)
    requires e <= |t| && e <= q <= SpaceEnd(t, e) && AfterSep(t, e).None?
    ensures AfterSpaces(t, q).None?
  {
    var x := SpaceEnd(t, e);
    SpaceEndFrom(t, e, q);
    SpaceEndInside(t, e);
    TryBodyNone(t, e, x);
    if AfterSep(t, q).Some? {
      TryBodyFinds(t, e, q, x);
    }
  }

  lemma TailFull(t: string, j: nat)
    requires j <= |t| && !Blank(t[j..SegEnd(t, j)])
    ensures Tail(t, j) == Some(SegEnd(t, j))
  {
    var e, a := SegEnd(t, j), SpaceEnd(t, j);
    BlankSlice(t, j, e);
    SegEndShared(t, j, a);
    if Sep(t[a]) {
      SegEndShared(t, j, SpaceEnd(t, a + 1));
    }
  }

  lemma TailOver(t: string, j: nat)
    requires j <= |t| && RunsOver(t, j)
    ensures Tail(t, j).Some? && SegEnd(t, j) < Tail(t, j).value <= |t|
  {
    var e, a := SegEnd(t, j), SpaceEnd(t, j);
    BlankSlice(t, j, e);
    if a >= e {
      SpaceEndFrom(t, j, e);
      assert AfterSpaces(t, e).Some?;
      TrySpacesBeyond(t, j, e, a);
    } else {
      SpaceEndFrom(t, a + 1, e);
      TryBodyFinds(t, a + 1, e, SpaceEnd(t, e));
      TryBodyBeyond(t, e, SpaceEnd(t, e));
    }
  }

  /** The pattern gives characters back until something is left for its last part. */
  lemma TailWithin(t: string, j: nat)
    requires j <= |t| && Blank(t[j..SegEnd(t, j)]) && AfterSep(t, SegEnd(t, j)).None?
    ensures Tail(t, j) == if j < SegEnd(t, j) then Some(SegEnd(t, j)) else None
  {
    var e, a := SegEnd(t, j), SpaceEnd(t, j);
    var x := SpaceEnd(t, e);
    BlankSlice(t, j, e);
    TryBodyNone(t, e, x);
    if a >= e {
      SpacesWithin(t, j);
    } else {
      SpaceEndFrom(t, a + 1, e);
      SegEndShared(t, j, a);
      SegEndShared(t, j, e - 1);
      TryBodySkips(t, a + 1, e, x);
      if a + 1 < e {
        TryBodySkips(t, a + 1, e - 1, e);
      }
    }
  }

  lemma SpacesWithin(t: string, j: nat)
    requires j <= |t| && SpaceEnd(t, j) >= SegEnd(t, j) && AfterSep(t, SegEnd(t, j)).None?
    ensures Tail(t, j) == if j < SegEnd(t, j) then Some(SegEnd(t, j)) else None
  {
    var e, x := SegEnd(t, j), SpaceEnd(t, j);
    SpaceEndFrom(t, j, e);
    forall q | e <= q <= x ensures AfterSpaces(t, q).None? {
      QuietSpaces(t, e, q);
    }
    TrySpacesSkips(t, j, e, x);
    if j < e {
      SpaceEndInside(t, j);
      SpaceEndFrom(t, j, e - 1);
      SegEndShared(t, j, e - 1);
      TryBodyNone(t, e, x);
      TryBodySkips(t, e - 1, e - 1, x);
      assert AfterSpaces(t, e - 1) == AfterSep(t, e - 1) == Some(e);
    }
  }

  /** A match runs over the end of its segment, or ends there, or - with nothing left of
      the segment - there is none. */
  lemma TailIs(t: string, j: nat)
    requires j <= |t|
    ensures RunsOver(t, j) ==> Tail(t, j).Some? && SegEnd(t, j) < Tail(t, j).value <= |t|
    ensures !RunsOver(t, j) ==> Tail(t, j) == if j < SegEnd(t, j) then Some(SegEnd(t, j)) else None
  {
    if RunsOver(t, j) {
      TailOver(t, j);
    } else if Blank(t[j..SegEnd(t, j)]) {
      TailWithin(t, j);
    } else {
      TailFull(t, j);
    }
  }

  function TailAfter(t: string, j: nat): (r: Option<nat>)
    requires j <= |t|
    ensures r == Tail(t, j) && (r.Some? ==> j < r.value <= |t|)
  {
    TailIs(t, j);
    Tail(t, j)
  }

  /** Whether a match can start after spaces depends on the first other character. */
  lemma AfterSepStep(t: string, p: nat)
    requires p <= |t|
    ensures AfterSep(t, p).Some? <==>
              p < |t| && (!Delim(t[p]) || (Space(t[p]) && AfterSep(t, p + 1).Some?))
  {
    if p < |t| {
      var x := SpaceEnd(t, p);
      if !Delim(t[p]) {
        TryBodyStarts(t, p, x);
      } else if Space(t[p]) {
        if AfterSep(t, p + 1).Some? {
          TryBodyFinds(t, p, p + 1, x);
        } else {
          TryBodyNone(t, p + 1, x);
          TryBodySkips(t, p, p, x);
        }
      }
    }
  }

  lemma TryBodyStarts(t: string, p: nat, hi: nat)
    requires p <= hi <= |t| && p < |t| && !Delim(t[p])
    ensures TryBody(t, p, hi).Some?
    decreases hi
  {
    if p < hi && !(hi < |t| && !Delim(t[hi])) {
      TryBodyStarts(t, p, hi - 1);
    }
  }
}
