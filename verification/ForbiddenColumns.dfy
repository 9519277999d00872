/** No accepted statement's result depends on a forbidden column. */
module ForbiddenColumns {
  import opened Wrappers
  import opened Sql
  import opened SqlEval
  import opened SqlGuard
  import opened ScopeJoin
  import opened OwnRows
  import opened ScopeIsolation
  import opened ScopeIdempotence

  // ----- Databases that differ only in forbidden columns -----

  ghost predicate RowAlike(r1: Row, r2: Row, forbidden: set<string>) {
    forall c | c !in forbidden :: Get(r1, c) == Get(r2, c)
  }

  ghost predicate DbAlike(db1: Db, db2: Db, forbidden: set<string>) {
    && db1.schema == db2.schema
    && forall t :: |TableRows(db1, t)| == |TableRows(db2, t)|
                && forall i | 0 <= i < |TableRows(db1, t)| ::
                     RowAlike(TableRows(db1, t)[i], TableRows(db2, t)[i], forbidden)
  }

  /** Bindings that differ only in forbidden columns; a binding whose alias is not a
      table name of the statement (a derived table) does not differ at all. */
  ghost predicate BindingAlike(b1: Binding, b2: Binding, names: set<string>, forbidden: set<string>) {
    && b1.alias == b2.alias && b1.cols == b2.cols
    && RowAlike(b1.row, b2.row, forbidden)
    && (b1.alias !in names ==> b1 == b2)
  }

  ghost predicate ScopeAlike(s1: Scope, s2: Scope, names: set<string>, forbidden: set<string>) {
    match (s1, s2)
    case (Empty, Empty) => true
    case (Push(r1, b1), Push(r2, b2)) => ScopeAlike(r1, r2, names, forbidden) && BindingAlike(b1, b2, names, forbidden)
    case _ => false
  }

  ghost predicate EnvAlike(e1: Env, e2: Env, names: set<string>, forbidden: set<string>) {
    match (e1, e2)
    case (Top, Top) => true
    case (In(s1, o1), In(s2, o2)) => ScopeAlike(s1, s2, names, forbidden) && EnvAlike(o1, o2, names, forbidden)
    case _ => false
  }

  ghost predicate ScopesAlike(ss1: seq<Scope>, ss2: seq<Scope>, names: set<string>, forbidden: set<string>) {
    |ss1| == |ss2| && forall i | 0 <= i < |ss1| :: ScopeAlike(ss1[i], ss2[i], names, forbidden)
  }

  ghost predicate BindingsAlike(bs1: seq<Binding>, bs2: seq<Binding>, names: set<string>, forbidden: set<string>) {
    |bs1| == |bs2| && forall i | 0 <= i < |bs1| :: BindingAlike(bs1[i], bs2[i], names, forbidden)
  }

  ghost predicate PredAlike(f1: Pred, f2: Pred, names: set<string>, forbidden: set<string>) {
    forall s1, s2 | ScopeAlike(s1, s2, names, forbidden) :: f1(s1) == f2(s2)
  }

  // ----- Names resolve alike -----

  lemma AliasAlike(s1: Scope, s2: Scope, names: set<string>, forbidden: set<string>, alias: string)
    requires ScopeAlike(s1, s2, names, forbidden)
    ensures FindAlias(s1, alias).Some? == FindAlias(s2, alias).Some?
    ensures FindAlias(s1, alias).Some? ==>
              && BindingAlike(FindAlias(s1, alias).value, FindAlias(s2, alias).value, names, forbidden)
              && FindAlias(s1, alias).value.alias == alias
  {
  }

  lemma ColumnAlike(s1: Scope, s2: Scope, names: set<string>, forbidden: set<string>, col: string)
    requires ScopeAlike(s1, s2, names, forbidden) && col !in forbidden
    ensures FindColumn(s1, col) == FindColumn(s2, col)
  {
  }

  lemma QualifiedAlike(e1: Env, e2: Env, names: set<string>, forbidden: set<string>, alias: string, col: string)
    requires EnvAlike(e1, e2, names, forbidden) && col !in forbidden
    ensures Qualified(e1, alias, col) == Qualified(e2, alias, col)
  {
    if e1.In? {
      AliasAlike(e1.scope, e2.scope, names, forbidden, alias);
      QualifiedAlike(e1.outer, e2.outer, names, forbidden, alias, col);
    }
  }

  lemma BareAlike(e1: Env, e2: Env, names: set<string>, forbidden: set<string>, name: string)
    requires EnvAlike(e1, e2, names, forbidden) && name !in forbidden
    ensures BareColumn(e1, name) == BareColumn(e2, name)
    ensures name !in names ==> BareRow(e1, name) == BareRow(e2, name)
  {
    if e1.In? {
      ColumnAlike(e1.scope, e2.scope, names, forbidden, name);
      AliasAlike(e1.scope, e2.scope, names, forbidden, name);
      BareAlike(e1.outer, e2.outer, names, forbidden, name);
    }
  }

  lemma ExprAlike(e: Expr, e1: Env, e2: Env, names: set<string>, forbidden: set<string>)
    requires EnvAlike(e1, e2, names, forbidden)
    requires forall c | c in ExprCols(e) :: ColumnPasses(c, names, forbidden)
    ensures EvalE(e, e1) == EvalE(e, e2)
  {
    match e
    case Lit(_) =>
    case Col(Some(alias), name) =>
      assert ColumnPasses(e, names, forbidden);
      QualifiedAlike(e1, e2, names, forbidden, alias, name);
    case Col(None, name) =>
      assert ColumnPasses(e, names, forbidden);
      BareAlike(e1, e2, names, forbidden, name);
    case Coalesce(a, b) =>
      ExprAlike(a, e1, e2, names, forbidden);
      ExprAlike(b, e1, e2, names, forbidden);
  }

  // ----- Joins, filters and projections keep rows alike -----

  lemma FilterAlike(f1: Pred, f2: Pred, ss1: seq<Scope>, ss2: seq<Scope>, names: set<string>, forbidden: set<string>)
    requires PredAlike(f1, f2, names, forbidden) && ScopesAlike(ss1, ss2, names, forbidden)
    ensures ScopesAlike(Filter(f1, ss1), Filter(f2, ss2), names, forbidden)
  {
    if ss1 != [] {
      assert f1(ss1[0]) == f2(ss2[0]);
      FilterAlike(f1, f2, ss1[1..], ss2[1..], names, forbidden);
    }
  }

  lemma MatchesAlike(l1: Scope, l2: Scope, bs1: seq<Binding>, bs2: seq<Binding>, on1: Pred, on2: Pred,
                     names: set<string>, forbidden: set<string>)
    requires ScopeAlike(l1, l2, names, forbidden) && BindingsAlike(bs1, bs2, names, forbidden)
    requires PredAlike(on1, on2, names, forbidden)
    ensures ScopesAlike(Matches(l1, bs1, on1), Matches(l2, bs2, on2), names, forbidden)
  {
    if bs1 != [] {
      assert ScopeAlike(Push(l1, bs1[0]), Push(l2, bs2[0]), names, forbidden);
      MatchesAlike(l1, l2, bs1[1..], bs2[1..], on1, on2, names, forbidden);
    }
  }

  lemma ExtendAlike(kind: JoinKind, ls1: seq<Scope>, ls2: seq<Scope>, bs1: seq<Binding>, bs2: seq<Binding>,
                    on1: Pred, on2: Pred, nullB: Binding, names: set<string>, forbidden: set<string>)
    requires ScopesAlike(ls1, ls2, names, forbidden) && BindingsAlike(bs1, bs2, names, forbidden)
    requires PredAlike(on1, on2, names, forbidden)
    ensures ScopesAlike(ExtendRows(kind, ls1, bs1, on1, nullB), ExtendRows(kind, ls2, bs2, on2, nullB),
                        names, forbidden)
  {
    if ls1 != [] {
      MatchesAlike(ls1[0], ls2[0], bs1, bs2, on1, on2, names, forbidden);
      assert ScopesAlike(ExtendRow(kind, ls1[0], bs1, on1, nullB), ExtendRow(kind, ls2[0], bs2, on2, nullB),
                         names, forbidden);
      ExtendAlike(kind, ls1[1..], ls2[1..], bs1, bs2, on1, on2, nullB, names, forbidden);
    }
  }

  lemma UnmatchedAlike(ls1: seq<Scope>, ls2: seq<Scope>, b1: Binding, b2: Binding, on1: Pred, on2: Pred,
                       names: set<string>, forbidden: set<string>)
    requires ScopesAlike(ls1, ls2, names, forbidden) && BindingAlike(b1, b2, names, forbidden)
    requires PredAlike(on1, on2, names, forbidden)
    ensures Unmatched(ls1, b1, on1) == Unmatched(ls2, b2, on2)
  {
    forall i | 0 <= i < |ls1| ensures on1(Push(ls1[i], b1)) == on2(Push(ls2[i], b2)) {
      assert ScopeAlike(Push(ls1[i], b1), Push(ls2[i], b2), names, forbidden);
    }
  }

  lemma RightAlike(nullL: Scope, ls1: seq<Scope>, ls2: seq<Scope>, bs1: seq<Binding>, bs2: seq<Binding>,
                   on1: Pred, on2: Pred, names: set<string>, forbidden: set<string>)
    requires ScopesAlike(ls1, ls2, names, forbidden) && BindingsAlike(bs1, bs2, names, forbidden)
    requires PredAlike(on1, on2, names, forbidden) && ScopeAlike(nullL, nullL, names, forbidden)
    ensures ScopesAlike(RightRows(nullL, ls1, bs1, on1), RightRows(nullL, ls2, bs2, on2), names, forbidden)
  {
    if bs1 != [] {
      UnmatchedAlike(ls1, ls2, bs1[0], bs2[0], on1, on2, names, forbidden);
      RightAlike(nullL, ls1, ls2, bs1[1..], bs2[1..], on1, on2, names, forbidden);
    }
  }

  lemma JoinAlike(kind: JoinKind, ls1: seq<Scope>, ls2: seq<Scope>, bs1: seq<Binding>, bs2: seq<Binding>,
                  on1: Pred, on2: Pred, nullL: Scope, nullB: Binding, names: set<string>, forbidden: set<string>)
    requires ScopesAlike(ls1, ls2, names, forbidden) && BindingsAlike(bs1, bs2, names, forbidden)
    requires PredAlike(on1, on2, names, forbidden)
    ensures ScopesAlike(JoinRows(kind, ls1, bs1, on1, nullL, nullB), JoinRows(kind, ls2, bs2, on2, nullL, nullB),
                        names, forbidden)
  {
    SelfAlike(nullL, names, forbidden);
    ExtendAlike(kind, ls1, ls2, bs1, bs2, on1, on2, nullB, names, forbidden);
    RightAlike(nullL, ls1, ls2, bs1, bs2, on1, on2, names, forbidden);
  }

  lemma SelfAlike(s: Scope, names: set<string>, forbidden: set<string>)
    ensures ScopeAlike(s, s, names, forbidden)
  {
  }

  lemma TupleAlike(cols: seq<OutCol>, e1: Env, e2: Env, names: set<string>, forbidden: set<string>)
    requires EnvAlike(e1, e2, names, forbidden)
    requires forall c | c in OutCols(cols) :: ColumnPasses(c, names, forbidden)
    ensures TupleOf(cols, e1) == TupleOf(cols, e2)
  {
    if cols != [] {
      ExprAlike(cols[0].e, e1, e2, names, forbidden);
      TupleAlike(cols[1..], e1, e2, names, forbidden);
    }
  }

  lemma ProjectAlike(proj: Projection, ss1: seq<Scope>, ss2: seq<Scope>, e1: Env, e2: Env,
                     names: set<string>, forbidden: set<string>)
    requires !proj.Star? && EnvAlike(e1, e2, names, forbidden) && ScopesAlike(ss1, ss2, names, forbidden)
    requires forall c | c in ProjCols(proj) :: ColumnPasses(c, names, forbidden)
    ensures Project(proj, ss1, e1) == Project(proj, ss2, e2)
  {
    if ss1 != [] {
      ProjectAlike(proj, ss1[1..], ss2[1..], e1, e2, names, forbidden);
      assert EnvAlike(In(ss1[0], e1), In(ss2[0], e2), names, forbidden);
      match proj
      case Columns(cols) => TupleAlike(cols, In(ss1[0], e1), In(ss2[0], e2), names, forbidden);
      case Count(None, _) =>
      case Count(Some(e), _) => ExprAlike(e, In(ss1[0], e1), In(ss2[0], e2), names, forbidden);
    }
  }

  // ----- The statements the result is about -----

  /** The body of an EXISTS whose stars only matter for whether there is a row. */
  predicate StarBody(q: Query)
    decreases q, 1
  {
    match q
    case Select(_, from, where) => PlainStarsF(from) && PlainStarsO(where)
    case SetQuery(op, l, r) =>
      if op == Union || op == UnionAll then StarBody(l) && StarBody(r) else PlainStarsQ(l) && PlainStarsQ(r)
  }

  /** Stars only as the projection of a SELECT directly under EXISTS, or of an arm of a
      union there. */
  predicate PlainStarsQ(q: Query)
    decreases q, 0
  {
    match q
    case Select(proj, from, where) => !proj.Star? && PlainStarsF(from) && PlainStarsO(where)
    case SetQuery(_, l, r) => PlainStarsQ(l) && PlainStarsQ(r)
  }

  predicate PlainStarsF(from: From)
    decreases from, 0
  {
    match from
    case Nothing => true
    case Join(l, _, item, on) =>
      && PlainStarsF(l)
      && (match item case Table(_, _) => true case Derived(q, _) => PlainStarsQ(q))
      && PlainStarsO(on)
  }

  predicate PlainStarsO(c: Option<Cond>)
    decreases c, 1
  {
    match c case None => true case Some(d) => PlainStarsC(d)
  }

  predicate PlainStarsC(c: Cond)
    decreases c, 0
  {
    match c
    case Cmp(_, _, _) => true
    case IsNull(_) => true
    case Not(d) => PlainStarsC(d)
    case And(l, r) => PlainStarsC(l) && PlainStarsC(r)
    case Or(l, r) => PlainStarsC(l) && PlainStarsC(r)
    case Paren(d) => PlainStarsC(d)
    case InQuery(_, q) => PlainStarsQ(q)
    case Exists(q) => StarBody(q)
  }

  ghost predicate IsOwnTeams(s: Query) {
    exists x :: s == OwnTeams(x)
  }

  /** Each SELECT is the guard's own subquery, or its tables go by the statement's
      table names and its columns pass the check. */
  ghost predicate Clean(selects: set<Query>, names: set<string>, forbidden: set<string>) {
    forall s | s in selects ::
      IsOwnTeams(s) ||
      (DirectNames(s) <= names && forall c | c in DirectCols(s) :: ColumnPasses(c, names, forbidden))
  }

  ghost predicate Setting(db1: Db, db2: Db, e1: Env, e2: Env, names: set<string>, forbidden: set<string>) {
    && DbAlike(db1, db2, forbidden) && TeamColumns(db1) && "id" !in forbidden && "person_id" !in forbidden
    && EnvAlike(e1, e2, names, forbidden)
  }

  // ----- Evaluation -----

  lemma TeamTuplesAlike(db1: Db, db2: Db, rows1: seq<Row>, rows2: seq<Row>, x: int, forbidden: set<string>)
    requires db1.schema == db2.schema && "id" !in forbidden && "person_id" !in forbidden
    requires |rows1| == |rows2| && forall i | 0 <= i < |rows1| :: RowAlike(rows1[i], rows2[i], forbidden)
    ensures TeamTuples(db1, rows1, x) == TeamTuples(db2, rows2, x)
  {
    if rows1 != [] {
      assert RowAlike(rows1[0], rows2[0], forbidden);
      TeamTuplesAlike(db1, db2, rows1[1..], rows2[1..], x, forbidden);
    }
  }

  lemma ItemAlike(item: Item, db1: Db, db2: Db, e1: Env, e2: Env, names: set<string>, forbidden: set<string>)
    requires Setting(db1, db2, e1, e2, names, forbidden)
    requires item.Table? ==> item.alias in names
    requires item.Derived? ==> Clean(SelectsQ(item.q), names, forbidden) && PlainStarsQ(item.q)
    ensures BindingsAlike(EvalItem(item, db1, e1), EvalItem(item, db2, e2), names, forbidden)
    decreases item, 2
  {
    match item
    case Table(name, alias) =>
      BindRowsFit(alias, TableCols(db1, name), TableRows(db1, name));
      BindRowsFit(alias, TableCols(db1, name), TableRows(db2, name));
    case Derived(q, alias) =>
      SameResult(q, db1, db2, e1, e2, names, forbidden);
      SchemaCols(q, db1, db2);
  }

  lemma FromAlike(from: From, db1: Db, db2: Db, e1: Env, e2: Env, names: set<string>, forbidden: set<string>)
    requires Setting(db1, db2, e1, e2, names, forbidden)
    requires Clean(SelectsF(from), names, forbidden) && PlainStarsF(from)
    requires forall t | t in SelectTables(from) :: t.alias in names
    requires forall c | c in OnCols(from) :: ColumnPasses(c, names, forbidden)
    ensures ScopesAlike(EvalF(from, db1, e1), EvalF(from, db2, e2), names, forbidden)
    decreases from, 2
  {
    match from
    case Nothing =>
    case Join(l, kind, item, on) =>
      assert item.Table? ==> SelectTables(from)[|SelectTables(l)|] == TableRef(item.name, item.alias);
      FromAlike(l, db1, db2, e1, e2, names, forbidden);
      ItemAlike(item, db1, db2, e1, e2, names, forbidden);
      KeepsAlike(on, db1, db2, e1, e2, names, forbidden);
      SchemaFromCols(l, db1, db2);
      SchemaItemCols(item, db1, db2);
      JoinAlike(kind, EvalF(l, db1, e1), EvalF(l, db2, e2), EvalItem(item, db1, e1), EvalItem(item, db2, e2),
                Keeps(on, db1, e1), Keeps(on, db2, e2), NullScope(l, db1), NullBinding(item, db1), names, forbidden);
  }

  lemma KeepsAlike(c: Option<Cond>, db1: Db, db2: Db, e1: Env, e2: Env, names: set<string>, forbidden: set<string>)
    requires Setting(db1, db2, e1, e2, names, forbidden)
    requires Clean(SelectsO(c), names, forbidden) && PlainStarsO(c)
    requires forall col | col in OptCols(c) :: ColumnPasses(col, names, forbidden)
    ensures PredAlike(Keeps(c, db1, e1), Keeps(c, db2, e2), names, forbidden)
    decreases c, 3
  {
    if c.Some? {
      forall s1, s2 | ScopeAlike(s1, s2, names, forbidden)
        ensures EvalC(c.value, db1, In(s1, e1)) == EvalC(c.value, db2, In(s2, e2))
      {
        CondAlike(c.value, db1, db2, In(s1, e1), In(s2, e2), names, forbidden);
      }
    }
  }

  lemma CondAlike(c: Cond, db1: Db, db2: Db, e1: Env, e2: Env, names: set<string>, forbidden: set<string>)
    requires Setting(db1, db2, e1, e2, names, forbidden)
    requires Clean(SelectsC(c), names, forbidden) && PlainStarsC(c)
    requires forall col | col in CondCols(c) :: ColumnPasses(col, names, forbidden)
    ensures EvalC(c, db1, e1) == EvalC(c, db2, e2)
    decreases c, 2
  {
    match c
    case Cmp(_, l, r) => ExprAlike(l, e1, e2, names, forbidden); ExprAlike(r, e1, e2, names, forbidden);
    case IsNull(e) => ExprAlike(e, e1, e2, names, forbidden);
    case Not(d) => CondAlike(d, db1, db2, e1, e2, names, forbidden);
    case And(l, r) =>
      CondAlike(l, db1, db2, e1, e2, names, forbidden);
      CondAlike(r, db1, db2, e1, e2, names, forbidden);
    case Or(l, r) =>
      CondAlike(l, db1, db2, e1, e2, names, forbidden);
      CondAlike(r, db1, db2, e1, e2, names, forbidden);
    case Paren(d) => CondAlike(d, db1, db2, e1, e2, names, forbidden);
    case InQuery(e, q) =>
      ExprAlike(e, e1, e2, names, forbidden);
      SameResult(q, db1, db2, e1, e2, names, forbidden);
    case Exists(q) =>
      SameEmptiness(q, db1, db2, e1, e2, names, forbidden);
  }

  lemma DistinctEmpty(ts: seq<Tuple>)
    ensures Distinct(ts) == [] <==> ts == []
  {
  }

  lemma ProjectLength(proj: Projection, ss: seq<Scope>, env: Env)
    ensures |Project(proj, ss, env)| == if proj.Count? then 1 else |ss|
  {
    if ss != [] && !proj.Count? {
      ProjectLength(proj, ss[1..], env);
    }
  }

  /** An EXISTS body has rows on both databases or on neither, stars or not. */
  lemma SameEmptiness(q: Query, db1: Db, db2: Db, e1: Env, e2: Env, names: set<string>, forbidden: set<string>)
    requires Setting(db1, db2, e1, e2, names, forbidden)
    requires Clean(SelectsQ(q), names, forbidden) && StarBody(q)
    ensures EvalQ(q, db1, e1) == [] <==> EvalQ(q, db2, e2) == []
    decreases q, 3
  {
    match q
    case SetQuery(op, l, r) =>
      if op == Union || op == UnionAll {
        SameEmptiness(l, db1, db2, e1, e2, names, forbidden);
        SameEmptiness(r, db1, db2, e1, e2, names, forbidden);
        DistinctEmpty(EvalQ(l, db1, e1) + EvalQ(r, db1, e1));
        DistinctEmpty(EvalQ(l, db2, e2) + EvalQ(r, db2, e2));
      } else {
        SameResult(q, db1, db2, e1, e2, names, forbidden);
      }
    case Select(proj, from, where) =>
      assert q in SelectsQ(q);
      if !proj.Star? {
        SameResult(q, db1, db2, e1, e2, names, forbidden);
      } else {
        SelectAlike(q, db1, db2, e1, e2, names, forbidden);
        ProjectLength(proj, Filter(Keeps(where, db1, e1), EvalF(from, db1, e1)), e1);
        ProjectLength(proj, Filter(Keeps(where, db2, e2), EvalF(from, db2, e2)), e2);
      }
  }

  /** The rows of one SELECT before projection. */
  lemma SelectAlike(q: Query, db1: Db, db2: Db, e1: Env, e2: Env, names: set<string>, forbidden: set<string>)
    requires Setting(db1, db2, e1, e2, names, forbidden)
    requires q.Select? && Clean(SelectsQ(q), names, forbidden) && PlainStarsF(q.from) && PlainStarsO(q.where)
    requires DirectNames(q) <= names && forall c | c in DirectCols(q) :: ColumnPasses(c, names, forbidden)
    ensures ScopesAlike(Filter(Keeps(q.where, db1, e1), EvalF(q.from, db1, e1)),
                        Filter(Keeps(q.where, db2, e2), EvalF(q.from, db2, e2)), names, forbidden)
    decreases q, 1
  {
    assert q in SelectsQ(q);
    forall t | t in SelectTables(q.from) ensures t.alias in names {
      assert t.alias in DirectNames(q);
    }
    FromAlike(q.from, db1, db2, e1, e2, names, forbidden);
    KeepsAlike(q.where, db1, db2, e1, e2, names, forbidden);
    FilterAlike(Keeps(q.where, db1, e1), Keeps(q.where, db2, e2),
                EvalF(q.from, db1, e1), EvalF(q.from, db2, e2), names, forbidden);
  }

  lemma {:induction false} SameResult(q: Query, db1: Db, db2: Db, e1: Env, e2: Env, names: set<string>,
                                      forbidden: set<string>)
    requires Setting(db1, db2, e1, e2, names, forbidden)
    requires Clean(SelectsQ(q), names, forbidden) && PlainStarsQ(q)
    ensures EvalQ(q, db1, e1) == EvalQ(q, db2, e2)
    decreases q, 2
  {
    match q
    case SetQuery(_, l, r) =>
      SameResult(l, db1, db2, e1, e2, names, forbidden);
      SameResult(r, db1, db2, e1, e2, names, forbidden);
    case Select(proj, from, where) =>
      assert q in SelectsQ(q);
      if x :| q == OwnTeams(x) {
        OwnTeamsIs(db1, x, e1);
        OwnTeamsIs(db2, x, e2);
        TeamTuplesAlike(db1, db2, TableRows(db1, "person_team"), TableRows(db2, "person_team"), x, forbidden);
      } else {
        SelectAlike(q, db1, db2, e1, e2, names, forbidden);
        ProjectAlike(proj, Filter(Keeps(where, db1, e1), EvalF(from, db1, e1)),
                     Filter(Keeps(where, db2, e2), EvalF(from, db2, e2)), e1, e2, names, forbidden);
      }
  }

  // ----- The guard's output is clean -----

  lemma PlainStarsRewriteQ(q: Query, who: Option<int>)
    ensures PlainStarsQ(q) ==> PlainStarsQ(RewriteQ(q, who))
    ensures StarBody(q) ==> StarBody(RewriteQ(q, who))
    decreases q, 2
  {
    match q
    case SetQuery(_, l, r) => PlainStarsRewriteQ(l, who); PlainStarsRewriteQ(r, who);
    case Select(_, from, where) =>
      PlainStarsRewriteF(from, who);
      PlainStarsRewriteO(where, who);
      ScopesPlain(from, who);
      InjectAllPlain(RewriteO(where, who), ScopePreds(from, who));
  }

  lemma PlainStarsRewriteF(from: From, who: Option<int>)
    ensures PlainStarsF(from) ==> PlainStarsF(RewriteF(from, who))
    decreases from, 2
  {
    match from
    case Nothing =>
    case Join(l, _, item, on) =>
      PlainStarsRewriteF(l, who);
      if item.Derived? {
        PlainStarsRewriteQ(item.q, who);
      }
      PlainStarsRewriteO(on, who);
  }

  lemma PlainStarsRewriteO(c: Option<Cond>, who: Option<int>)
    ensures PlainStarsO(c) ==> PlainStarsO(RewriteO(c, who))
    decreases c, 3
  {
    if c.Some? && PlainStarsO(c) {
      PlainStarsRewriteC(c.value, who);
      assert RewriteO(c, who) == Some(RewriteC(c.value, who));
      assert PlainStarsC(RewriteC(c.value, who));
    }
  }

  lemma PlainStarsRewriteC(c: Cond, who: Option<int>)
    ensures PlainStarsC(c) ==> PlainStarsC(RewriteC(c, who))
    decreases c, 2
  {
    match c
    case Cmp(_, _, _) =>
    case IsNull(_) =>
    case Not(d) => PlainStarsRewriteC(d, who);
    case And(l, r) => PlainStarsRewriteC(l, who); PlainStarsRewriteC(r, who);
    case Or(l, r) => PlainStarsRewriteC(l, who); PlainStarsRewriteC(r, who);
    case Paren(d) => PlainStarsRewriteC(d, who);
    case InQuery(_, q) => PlainStarsRewriteQ(q, who);
    case Exists(q) => PlainStarsRewriteQ(q, who);
  }

  lemma OwnTeamsPlain(x: int)
    ensures PlainStarsQ(OwnTeams(x))
  {
    assert PlainStarsC(OwnTeams(x).where.value);
    assert PlainStarsO(OwnTeams(x).where);
    assert PlainStarsF(Nothing);
  }

  predicate AllPlain(cs: seq<Cond>) {
    cs == [] || (PlainStarsC(cs[0]) && AllPlain(cs[1..]))
  }

  lemma LinkedPlain(tables: seq<TableRef>, who: Option<int>)
    ensures AllPlain(LinkedScopes(tables, who))
  {
    if tables != [] {
      LinkedPlain(tables[1..], who);
      var rest := LinkedScopes(tables[1..], who);
      if who.Some? {
        OwnTeamsPlain(who.value);
      }
      match Classify(tables[0].name) {
        case PersonFk => assert ([FkScope(who, tables[0].alias)] + rest)[1..] == rest;
        case PersonTeamFk => assert ([TeamFkScope(who, tables[0].alias)] + rest)[1..] == rest;
        case _ => assert [] + rest == rest;
      }
    }
  }

  lemma ScopesPlain(from: From, who: Option<int>)
    ensures AllPlain(ScopePreds(from, who))
  {
    var linked := LinkedScopes(SelectTables(from), who);
    LinkedPlain(SelectTables(from), who);
    match PersonAlias(SelectTables(from)) {
      case Some(a) => assert ([PersonScope(who, a)] + linked)[1..] == linked;
      case None => assert [] + linked == linked;
    }
  }

  lemma InjectAllPlain(where: Option<Cond>, scopes: seq<Cond>)
    requires AllPlain(scopes)
    ensures PlainStarsO(where) ==> PlainStarsO(InjectAll(where, scopes))
    decreases |scopes|
  {
    if scopes != [] {
      if where.Some? && PlainStarsO(where) {
        assert PlainStarsC(where.value);
        assert PlainStarsC(Paren(where.value));
        assert PlainStarsC(And(Paren(where.value), scopes[0]));
      }
      assert PlainStarsO(where) ==> PlainStarsO(InjectAnd(where, scopes[0]));
      InjectAllPlain(InjectAnd(where, scopes[0]), scopes[1..]);
    }
  }

  lemma OutputSelectClean(q: Query, who: Option<int>, names: set<string>, forbidden: set<string>, s': Query)
    requires ColumnsPass(SelectsQ(q), names, forbidden) && LINK_NAMES !! forbidden
    requires forall s | s in SelectsQ(q) :: DirectNames(s) <= names
    requires s' in SelectsQ(RewriteQ(q, who))
    ensures IsOwnTeams(s')
            || (DirectNames(s') <= names && forall c | c in DirectCols(s') :: ColumnPasses(c, names, forbidden))
  {
    var injected, s := Origin(q, who, s');
    if injected {
      assert s' == OwnTeams(who.value);
    } else {
      DirectRewrite(s, who);
    }
  }

  lemma OutputClean(q: Query, who: Option<int>, names: set<string>, forbidden: set<string>)
    requires ColumnsPass(SelectsQ(q), names, forbidden) && LINK_NAMES !! forbidden
    requires forall s | s in SelectsQ(q) :: DirectNames(s) <= names
    ensures Clean(SelectsQ(q), names, forbidden) && Clean(SelectsQ(RewriteQ(q, who)), names, forbidden)
  {
    forall s' | s' in SelectsQ(RewriteQ(q, who))
      ensures IsOwnTeams(s')
              || (DirectNames(s') <= names && forall c | c in DirectCols(s') :: ColumnPasses(c, names, forbidden))
    {
      OutputSelectClean(q, who, names, forbidden, s');
    }
  }

  /** What the guard lets through has the same result on any two databases that
      differ only in forbidden columns, provided its stars stand directly under
      EXISTS (or under a union there). */
  lemma ForbiddenColumnsInvisible(q: Query, ctx: Option<Context>, db1: Db, db2: Db)
    requires Guard(q, ctx).Ok? && PlainStarsQ(q)
    requires DbAlike(db1, db2, FORBIDDEN_COLUMNS) && TeamColumns(db1)
    ensures EvalQ(Guard(q, ctx).value, db1, Top) == EvalQ(Guard(q, ctx).value, db2, Top)
  {
    var names := TableNames(q);
    var who := if Restricted(ctx) then ctx.value.personId else None;
    forall s | s in SelectsQ(q) ensures DirectNames(s) <= names {
      forall n | n in DirectNames(s) ensures n in names { }
    }
    LinkNamesAllowed();
    assert "id" in LINK_NAMES && "person_id" in LINK_NAMES;
    OutputClean(q, who, names, FORBIDDEN_COLUMNS);
    PlainStarsRewriteQ(q, who);
    SameResult(Guard(q, ctx).value, db1, db2, Top, Top, names, FORBIDDEN_COLUMNS);
  }
}
