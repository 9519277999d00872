/** Filtering a join by a predicate that treats its two sides separately. */
module ScopeJoin {
  import opened Sql
  import opened SqlEval

  type BindingPred = Binding -> bool

  function FilterB(f: BindingPred, bs: seq<Binding>): seq<Binding> {
    if bs == [] then []
    else if f(bs[0]) then [bs[0]] + FilterB(f, bs[1..])
    else FilterB(f, bs[1..])
  }

  /** The predicate on joined rows that holds when both sides' predicates do. */
  function Both(f: Pred, g: BindingPred): Pred {
    (s: Scope) => s.Push? && f(s.rest) && g(s.b)
  }

  ghost predicate SamePred(f: Pred, g: Pred) {
    forall s :: f(s) == g(s)
  }

  lemma FilterAppend(f: Pred, a: seq<Scope>, b: seq<Scope>)
    ensures Filter(f, a + b) == Filter(f, a) + Filter(f, b)
  {
    if a == [] {
      assert a + b == b;
    } else {
      assert (a + b)[1..] == a[1..] + b;
      FilterAppend(f, a[1..], b);
    }
  }

  lemma FilterCons(f: Pred, s: Scope, ss: seq<Scope>)
    ensures Filter(f, [s] + ss) == if f(s) then [s] + Filter(f, ss) else Filter(f, ss)
  {
    assert ([s] + ss)[1..] == ss;
  }

  lemma FilterSame(f: Pred, g: Pred, ss: seq<Scope>)
    requires forall i :: 0 <= i < |ss| ==> f(ss[i]) == g(ss[i])
    ensures Filter(f, ss) == Filter(g, ss)
  {
    if ss != [] {
      FilterSame(f, g, ss[1..]);
    }
  }

  /** A filter for a conjunction is two filters. */
  lemma FilterAnd(h: Pred, f: Pred, g: Pred, ss: seq<Scope>)
    requires forall i :: 0 <= i < |ss| ==> h(ss[i]) == (f(ss[i]) && g(ss[i]))
    ensures Filter(h, ss) == Filter(f, Filter(g, ss))
  {
    if ss != [] {
      FilterAnd(h, f, g, ss[1..]);
      if g(ss[0]) {
        FilterCons(f, ss[0], Filter(g, ss[1..]));
      }
    }
  }

  lemma FilterMember(f: Pred, ss: seq<Scope>)
    ensures forall i :: 0 <= i < |Filter(f, ss)| ==> Filter(f, ss)[i] in ss && f(Filter(f, ss)[i])
  {
    if ss != [] {
      FilterMember(f, ss[1..]);
    }
  }

  lemma FilterAll(f: Pred, ss: seq<Scope>)
    requires forall i :: 0 <= i < |ss| ==> f(ss[i])
    ensures Filter(f, ss) == ss
  {
    if ss != [] {
      FilterAll(f, ss[1..]);
    }
  }

  lemma FilterNone(f: Pred, ss: seq<Scope>)
    requires forall i :: 0 <= i < |ss| ==> !f(ss[i])
    ensures Filter(f, ss) == []
  {
    if ss != [] {
      FilterNone(f, ss[1..]);
    }
  }

  lemma FilterBAll(f: BindingPred, bs: seq<Binding>)
    requires forall i :: 0 <= i < |bs| ==> f(bs[i])
    ensures FilterB(f, bs) == bs
  {
    if bs != [] {
      FilterBAll(f, bs[1..]);
    }
  }

  lemma MatchesSame(l: Scope, bs: seq<Binding>, on1: Pred, on2: Pred)
    requires SamePred(on1, on2)
    ensures Matches(l, bs, on1) == Matches(l, bs, on2)
  {
    if bs != [] {
      MatchesSame(l, bs[1..], on1, on2);
    }
  }

  lemma MatchesFilter(f: Pred, g: BindingPred, l: Scope, bs: seq<Binding>, on: Pred)
    ensures Filter(Both(f, g), Matches(l, bs, on)) == if f(l) then Matches(l, FilterB(g, bs), on) else []
  {
    if bs != [] {
      MatchesFilter(f, g, l, bs[1..], on);
      FilterCons(Both(f, g), Push(l, bs[0]), Matches(l, bs[1..], on));
      if g(bs[0]) {
        assert FilterB(g, bs)[1..] == FilterB(g, bs[1..]);
      }
    }
  }

  /** Both sides' rows agree after filtering, and so do the ON conditions. */
  ghost predicate SideAgrees(scoped: bool, g: BindingPred, nullB: Binding, bs1: seq<Binding>, bs2: seq<Binding>) {
    && FilterB(g, bs1) == FilterB(g, bs2)
    && (scoped ==> !g(nullB))
    && (!scoped ==> forall b :: g(b))
  }

  lemma ExtendRowAgrees(kind: JoinKind, f: Pred, g: BindingPred, scoped: bool, l: Scope, nullB: Binding,
                        bs1: seq<Binding>, bs2: seq<Binding>, on1: Pred, on2: Pred)
    requires SamePred(on1, on2) && SideAgrees(scoped, g, nullB, bs1, bs2)
    ensures Filter(Both(f, g), ExtendRow(kind, l, bs1, on1, nullB))
         == if f(l) then Filter(Both(f, g), ExtendRow(kind, l, bs2, on2, nullB)) else []
  {
    MatchesFilter(f, g, l, bs1, on1);
    MatchesFilter(f, g, l, bs2, on2);
    MatchesSame(l, FilterB(g, bs1), on1, on2);
    if !scoped {
      FilterBAll(g, bs1);
      FilterBAll(g, bs2);
      MatchesSame(l, bs1, on1, on2);
    }
  }

  lemma ExtendRowsAgree(kind: JoinKind, f: Pred, g: BindingPred, scoped: bool, ls: seq<Scope>, nullB: Binding,
                        bs1: seq<Binding>, bs2: seq<Binding>, on1: Pred, on2: Pred)
    requires SamePred(on1, on2) && SideAgrees(scoped, g, nullB, bs1, bs2)
    ensures Filter(Both(f, g), ExtendRows(kind, ls, bs1, on1, nullB))
         == Filter(Both(f, g), ExtendRows(kind, Filter(f, ls), bs2, on2, nullB))
  {
    if ls != [] {
      ExtendRowAgrees(kind, f, g, scoped, ls[0], nullB, bs1, bs2, on1, on2);
      ExtendRowsAgree(kind, f, g, scoped, ls[1..], nullB, bs1, bs2, on1, on2);
      FilterAppend(Both(f, g), ExtendRow(kind, ls[0], bs1, on1, nullB), ExtendRows(kind, ls[1..], bs1, on1, nullB));
      if f(ls[0]) {
        assert Filter(f, ls)[0] == ls[0] && Filter(f, ls)[1..] == Filter(f, ls[1..]);
        FilterAppend(Both(f, g), ExtendRow(kind, ls[0], bs2, on2, nullB),
                     ExtendRows(kind, Filter(f, ls[1..]), bs2, on2, nullB));
      }
    }
  }

  lemma RightRowsFilter(f: Pred, g: BindingPred, nullL: Scope, ls: seq<Scope>, bs: seq<Binding>, on: Pred)
    ensures Filter(Both(f, g), RightRows(nullL, ls, bs, on))
         == if f(nullL) then RightRows(nullL, ls, FilterB(g, bs), on) else []
  {
    if bs != [] {
      RightRowsFilter(f, g, nullL, ls, bs[1..], on);
      FilterCons(Both(f, g), Push(nullL, bs[0]), RightRows(nullL, ls, bs[1..], on));
      if g(bs[0]) {
        assert FilterB(g, bs)[1..] == FilterB(g, bs[1..]);
      }
    }
  }

  lemma RightRowsSame(nullL: Scope, ls: seq<Scope>, bs: seq<Binding>, on1: Pred, on2: Pred)
    requires SamePred(on1, on2)
    ensures RightRows(nullL, ls, bs, on1) == RightRows(nullL, ls, bs, on2)
  {
    if bs != [] {
      RightRowsSame(nullL, ls, bs[1..], on1, on2);
    }
  }

  /** The rows of a join that pass both sides' filters depend only on the rows of
      each side that pass, whatever the kind of join: a row that is null-extended
      over a filtered table never passes. */
  lemma JoinRowsAgree(kind: JoinKind, f: Pred, g: BindingPred, scopedL: bool, scopedB: bool,
                      nullL: Scope, nullB: Binding, ls1: seq<Scope>, ls2: seq<Scope>,
                      bs1: seq<Binding>, bs2: seq<Binding>, on1: Pred, on2: Pred)
    requires SamePred(on1, on2) && SideAgrees(scopedB, g, nullB, bs1, bs2)
    requires Filter(f, ls1) == Filter(f, ls2)
    requires scopedL ==> !f(nullL)
    requires !scopedL ==> Filter(f, ls1) == ls1 && Filter(f, ls2) == ls2
    ensures Filter(Both(f, g), JoinRows(kind, ls1, bs1, on1, nullL, nullB))
         == Filter(Both(f, g), JoinRows(kind, ls2, bs2, on2, nullL, nullB))
  {
    var h := Both(f, g);
    ExtendRowsAgree(kind, f, g, scopedB, ls1, nullB, bs1, bs2, on1, on2);
    assert SamePred(on2, on2) && SideAgrees(scopedB, g, nullB, bs2, bs2);
    ExtendRowsAgree(kind, f, g, scopedB, ls2, nullB, bs2, bs2, on2, on2);
    RightRowsFilter(f, g, nullL, ls1, bs1, on1);
    RightRowsFilter(f, g, nullL, ls2, bs2, on2);
    RightRowsSame(nullL, ls1, FilterB(g, bs1), on1, on2);
    FilterAppend(h, ExtendRows(kind, ls1, bs1, on1, nullB),
                 if KeepsRight(kind) then RightRows(nullL, ls1, bs1, on1) else []);
    FilterAppend(h, ExtendRows(kind, ls2, bs2, on2, nullB),
                 if KeepsRight(kind) then RightRows(nullL, ls2, bs2, on2) else []);
  }
}
