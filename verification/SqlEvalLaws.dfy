/** The evaluator against the textbook: what its functions mean, stated without them. */
module SqlEvalLaws {
  import opened Wrappers
  import opened Sql
  import opened SqlEval
  import opened Sequences

  // ----- Three-valued logic -----

  /** False < Unknown < True. */
  function Rank(a: Truth): nat {
    match a case False => 0 case Unknown => 1 case True => 2
  }

  /** AND is the minimum, OR the maximum, NOT the mirror image. */
  lemma LogicLaws(a: Truth, b: Truth)
    ensures Rank(AndT(a, b)) == if Rank(a) <= Rank(b) then Rank(a) else Rank(b)
    ensures Rank(OrT(a, b)) == if Rank(a) <= Rank(b) then Rank(b) else Rank(a)
    ensures Rank(NotT(a)) == 2 - Rank(a)
  {
  }

  /** Comparing with NULL is unknown; two integers satisfy exactly one of <, = and >. */
  lemma CompareLaws(v: Value, w: Value, m: int, n: int)
    ensures v == Null || w == Null <==> Compare(Eq, v, w) == Unknown
    ensures forall op :: v == Null || w == Null ==> Compare(op, v, w) == Unknown
    ensures v != Null && w != Null ==> Compare(Eq, v, w) == Bool(v == w)
    ensures Compare(Ne, v, w) == NotT(Compare(Eq, v, w))
    ensures Compare(Lt, Int(m), Int(n)) == True <==> m < n
    ensures Compare(Lt, Int(m), Int(n)) != Unknown
  {
  }

  /** Conditions. */
  lemma ConditionLaws(e: Expr, q: Query, db: Db, env: Env)
    ensures EvalC(IsNull(e), db, env) == Bool(EvalE(e, env) == Null)
    ensures EvalC(Exists(q), db, env) == Bool(|EvalQ(q, db, env)| > 0)
  {
  }

  // ----- Joins -----

  /** A row of the left side and one of the right side that satisfy ON. */
  ghost predicate Joined(s: Scope, ls: seq<Scope>, bs: seq<Binding>, on: Pred) {
    s.Push? && s.rest in ls && s.b in bs && on(s)
  }

  ghost predicate LeftAlone(s: Scope, ls: seq<Scope>, bs: seq<Binding>, on: Pred, nullB: Binding) {
    s.Push? && s.b == nullB && s.rest in ls && forall b | b in bs :: !on(Push(s.rest, b))
  }

  ghost predicate RightAlone(s: Scope, ls: seq<Scope>, bs: seq<Binding>, on: Pred, nullL: Scope) {
    s.Push? && s.rest == nullL && s.b in bs && forall l | l in ls :: !on(Push(l, s.b))
  }

  lemma MatchesAre(l: Scope, bs: seq<Binding>, on: Pred, s: Scope)
    ensures s in Matches(l, bs, on) <==> s.Push? && s.rest == l && s.b in bs && on(s)
  {
    if bs != [] {
      MatchesAre(l, bs[1..], on, s);
      assert bs == [bs[0]] + bs[1..];
    }
  }

  lemma NoMatches(l: Scope, bs: seq<Binding>, on: Pred)
    ensures Matches(l, bs, on) == [] <==> forall b | b in bs :: !on(Push(l, b))
  {
    if Matches(l, bs, on) == [] {
      forall b | b in bs ensures !on(Push(l, b)) {
        MatchesAre(l, bs, on, Push(l, b));
      }
    } else {
      var s := Matches(l, bs, on)[0];
      MatchesAre(l, bs, on, s);
    }
  }

  lemma ExtendRowIs(kind: JoinKind, l: Scope, bs: seq<Binding>, on: Pred, nullB: Binding, s: Scope)
    ensures s in ExtendRow(kind, l, bs, on, nullB)
       <==> Joined(s, [l], bs, on) || ((kind == LeftOuter || kind == FullOuter) && LeftAlone(s, [l], bs, on, nullB))
  {
    MatchesAre(l, bs, on, s);
    NoMatches(l, bs, on);
  }

  lemma ExtendRowsAre(kind: JoinKind, ls: seq<Scope>, bs: seq<Binding>, on: Pred, nullB: Binding, s: Scope)
    ensures s in ExtendRows(kind, ls, bs, on, nullB)
       <==> Joined(s, ls, bs, on) || ((kind == LeftOuter || kind == FullOuter) && LeftAlone(s, ls, bs, on, nullB))
  {
    if ls != [] {
      ExtendRowIs(kind, ls[0], bs, on, nullB, s);
      ExtendRowsAre(kind, ls[1..], bs, on, nullB, s);
      assert ls == [ls[0]] + ls[1..];
    }
  }

  lemma RightRowsAre(nullL: Scope, ls: seq<Scope>, bs: seq<Binding>, on: Pred, s: Scope)
    ensures s in RightRows(nullL, ls, bs, on) <==> RightAlone(s, ls, bs, on, nullL)
  {
    if bs != [] {
      RightRowsAre(nullL, ls, bs[1..], on, s);
      assert bs == [bs[0]] + bs[1..];
      assert Unmatched(ls, bs[0], on) <==> forall l | l in ls :: !on(Push(l, bs[0]));
    }
  }

  /** The rows of a join: the pairs that satisfy ON; left rows without a partner in a left
      or full join, right rows without one in a right or full join, each next to NULLs. */
  lemma JoinLaws(kind: JoinKind, ls: seq<Scope>, bs: seq<Binding>, on: Pred, nullL: Scope, nullB: Binding, s: Scope)
    ensures s in JoinRows(kind, ls, bs, on, nullL, nullB)
       <==> || Joined(s, ls, bs, on)
            || ((kind == LeftOuter || kind == FullOuter) && LeftAlone(s, ls, bs, on, nullB))
            || ((kind == RightOuter || kind == FullOuter) && RightAlone(s, ls, bs, on, nullL))
  {
    ExtendRowsAre(kind, ls, bs, on, nullB, s);
    RightRowsAre(nullL, ls, bs, on, s);
  }

  // ----- Set operations -----

  lemma DistinctIs(ts: seq<Tuple>, t: Tuple)
    ensures multiset(Distinct(ts))[t] == if t in ts then 1 else 0
  {
    if ts != [] {
      DistinctIs(ts[..|ts| - 1], t);
      assert ts == ts[..|ts| - 1] + [ts[|ts| - 1]];
      DistinctIs(ts[..|ts| - 1], ts[|ts| - 1]);
    }
  }

  lemma KeepInIs(ts: seq<Tuple>, us: seq<Tuple>, present: bool, t: Tuple)
    ensures t in KeepIn(ts, us, present) <==> t in ts && (t in us <==> present)
  {
    if ts != [] {
      KeepInIs(ts[1..], us, present, t);
      assert ts == [ts[0]] + ts[1..];
    }
  }

  /** UNION ALL adds up; the others give each of their tuples once. */
  lemma SetLaws(a: seq<Tuple>, b: seq<Tuple>, t: Tuple)
    ensures multiset(Combine(UnionAll, a, b))[t] == multiset(a)[t] + multiset(b)[t]
    ensures multiset(Combine(Union, a, b))[t] == if t in a || t in b then 1 else 0
    ensures multiset(Combine(Intersect, a, b))[t] == if t in a && t in b then 1 else 0
    ensures multiset(Combine(Except, a, b))[t] == if t in a && t !in b then 1 else 0
  {
    DistinctIs(a + b, t);
    KeepInIs(a, b, true, t);
    DistinctIs(KeepIn(a, b, true), t);
    KeepInIs(a, b, false, t);
    DistinctIs(KeepIn(a, b, false), t);
  }

  // ----- Selection, projection, aggregation -----

  /** WHERE keeps the rows for which it is true, as often as they occur. */
  lemma WhereLaw(where: Option<Cond>, db: Db, env: Env, ss: seq<Scope>, s: Scope)
    ensures multiset(Filter(Keeps(where, db, env), ss))[s]
         == if where.None? || EvalC(where.value, db, In(s, env)) == True then multiset(ss)[s] else 0
  {
    if ss != [] {
      WhereLaw(where, db, env, ss[1..], s);
      assert ss == [ss[0]] + ss[1..];
      assert Filter(Keeps(where, db, env), ss) == Filter(Keeps(where, db, env), [ss[0]] + ss[1..]);
    }
  }

  /** One tuple per row, with one value per column. */
  lemma ProjectionLaw(cols: seq<OutCol>, ss: seq<Scope>, env: Env)
    ensures |Project(Columns(cols), ss, env)| == |ss|
    ensures forall i, c | 0 <= i < |ss| && 0 <= c < |cols| ::
              |Project(Columns(cols), ss, env)[i]| == |cols|
              && Project(Columns(cols), ss, env)[i][c] == EvalE(cols[c].e, In(ss[i], env))
  {
    if ss != [] {
      ProjectionLaw(cols, ss[1..], env);
      TupleIs(cols, In(ss[0], env));
    }
  }

  lemma TupleIs(cols: seq<OutCol>, env: Env)
    ensures |TupleOf(cols, env)| == |cols|
    ensures forall c | 0 <= c < |cols| :: TupleOf(cols, env)[c] == EvalE(cols[c].e, env)
  {
    if cols != [] {
      TupleIs(cols[1..], env);
    }
  }

  /** COUNT(*) is the number of rows; COUNT(e) does not count the rows with a NULL. */
  lemma CountLaw(e: Expr, s: Scope, ss: seq<Scope>, env: Env)
    ensures CountOf(None, ss, env) == |ss|
    ensures CountOf(Some(e), [s] + ss, env)
         == CountOf(Some(e), ss, env) + if EvalE(e, In(s, env)) == Null then 0 else 1
    ensures CountOf(Some(e), [], env) == 0
  {
    assert ([s] + ss)[1..] == ss;
    if ss != [] {
      CountLaw(e, s, ss[1..], env);
    }
  }

  /** COALESCE is its first value that is not NULL. */
  lemma CoalesceLaw(a: Expr, b: Expr, env: Env)
    ensures EvalE(Coalesce(a, b), env) == if EvalE(a, env) == Null then EvalE(b, env) else EvalE(a, env)
  {
  }

  // ----- Names -----

  /** A qualified column is looked up in the item of that alias, the last one of the
      innermost FROM list that has one, and is NULL if there is no such item or column. */
  lemma QualifiedLaw(rest: Scope, b: Binding, outer: Env, alias: string, col: string)
    ensures EvalE(Col(Some(b.alias), col), In(Push(rest, b), outer))
         == if col in b.cols && col in b.row then b.row[col] else Null
    ensures alias != b.alias ==>
              EvalE(Col(Some(alias), col), In(Push(rest, b), outer)) == EvalE(Col(Some(alias), col), In(rest, outer))
    ensures EvalE(Col(Some(alias), col), In(Empty, outer)) == EvalE(Col(Some(alias), col), outer)
    ensures EvalE(Col(Some(alias), col), Top) == Null
  {
  }

  /** No item of any scope has such a column. */
  predicate NoColumn(env: Env, col: string) {
    match env
    case Top => true
    case In(s, outer) => NoColumnHere(s, col) && NoColumn(outer, col)
  }

  predicate NoColumnHere(s: Scope, col: string) {
    match s
    case Empty => true
    case Push(rest, b) => col !in b.cols && NoColumnHere(rest, col)
  }

  lemma NoBareColumn(env: Env, name: string)
    requires NoColumn(env, name)
    ensures BareColumn(env, name) == None
  {
    match env
    case Top =>
    case In(s, outer) =>
      NoBareColumnHere(s, name);
      NoBareColumn(outer, name);
  }

  lemma NoBareColumnHere(s: Scope, name: string)
    requires NoColumnHere(s, name)
    ensures FindColumn(s, name) == None
  {
  }

  /** A bare name is a column of the innermost item that has one; only if there is none
      anywhere is it the whole row of the item with that alias. */
  lemma BareLaw(rest: Scope, b: Binding, outer: Env, name: string)
    ensures name in b.cols ==> EvalE(Col(None, name), In(Push(rest, b), outer)) == Get(b.row, name)
    ensures name !in b.cols && name != b.alias ==>
              EvalE(Col(None, name), In(Push(rest, b), outer)) == EvalE(Col(None, name), In(rest, outer))
    ensures name == b.alias && NoColumn(In(Push(rest, b), outer), name) ==>
              EvalE(Col(None, name), In(Push(rest, b), outer)) == Record(map c | c in b.cols :: Get(b.row, c))
    ensures EvalE(Col(None, name), In(Empty, outer)) == EvalE(Col(None, name), outer)
  {
    if name == b.alias && NoColumn(In(Push(rest, b), outer), name) {
      NoBareColumn(In(Push(rest, b), outer), name);
    }
  }

  /** A derived table's row has its values under its column names, the first of equal
      names. */
  lemma DerivedLaw(cols: seq<string>, t: Tuple, i: nat)
    requires i < |cols| && i < |t| && cols[i] !in cols[..i]
    ensures Get(RowOf(cols, t), cols[i]) == t[i]
  {
    if i > 0 {
      assert cols[0] in cols[..i];
      assert cols[1..][..i - 1] == cols[..i][1..];
      assert cols[1..][i - 1] !in cols[1..][..i - 1];
      DerivedLaw(cols[1..], t[1..], i - 1);
    }
  }
}
