/** Rewriting a query is the same as running it unchanged on the requester's share
    of the database. */
module ScopeView {
  import opened Wrappers
  import opened Sql
  import opened SqlEval
  import opened SqlGuard
  import opened ScopeJoin
  import opened OwnRows
  import opened ScopeIsolation

  /** No outer join of this FROM list null-extends a scoped table. */
  predicate SafeOuter(from: From) {
    match from
    case Nothing => true
    case Join(l, kind, item, _) =>
      && SafeOuter(l)
      && (KeepsLeft(kind) ==> !Scoped(item))
      && (KeepsRight(kind) ==> !HasScoped(l))
  }

  /** `SafeOuter` in each of these SELECTs.  Inner and cross joins always are. */
  predicate Safe(selects: set<Query>) {
    forall s | s in selects :: s.Select? ==> SafeOuter(s.from)
  }

  /** A database that holds nothing but the requester's share. */
  ghost predicate OwnDb(db: Db, who: Option<int>) {
    forall t, r | t in db.data && r in db.data[t] :: OwnRow(t, r, who, db)
  }

  lemma RestrictIsOwn(db: Db, who: Option<int>)
    ensures OwnDb(Restrict(db, who), who)
  {
    var db' := Restrict(db, who);
    forall t, r | t in db'.data && r in db'.data[t] ensures OwnRow(t, r, who, db') {
      OwnMember(t, db.data[t], who, db, r);
      OwnRowRestrict(db, who, t, r);
    }
  }

  lemma AllOwn(from: From, db: Db, who: Option<int>, env: Env)
    requires OwnDb(db, who) && SafeOuter(from)
    ensures forall s | s in EvalF(from, db, env) :: OwnScope(from, who, db)(s)
  {
    match from
    case Nothing =>
    case Join(l, kind, item, on) =>
      AllOwn(l, db, who, env);
      var nullL, nullB := NullScope(l, db), NullBinding(item, db);
      JoinRowsMember(kind, EvalF(l, db, env), EvalItem(item, db, env), Keeps(on, db, env), nullL, nullB);
      if KeepsRight(kind) {
        NullFits(l, db);
        UnscopedIsOwn(l, who, db, nullL);
      }
      if item.Table? {
        BindRowsFit(item.alias, TableCols(db, item.name), TableRows(db, item.name));
      }
  }

  lemma SameJoinInputs(kind: JoinKind, ls: seq<Scope>, bs: seq<Binding>, on1: Pred, on2: Pred, nullL: Scope,
                       nullB: Binding)
    requires SamePred(on1, on2)
    ensures JoinRows(kind, ls, bs, on1, nullL, nullB) == JoinRows(kind, ls, bs, on2, nullL, nullB)
  {
    SameExtend(kind, ls, bs, on1, on2, nullB);
    RightRowsSame(nullL, ls, bs, on1, on2);
  }

  lemma SameExtend(kind: JoinKind, ls: seq<Scope>, bs: seq<Binding>, on1: Pred, on2: Pred, nullB: Binding)
    requires SamePred(on1, on2)
    ensures ExtendRows(kind, ls, bs, on1, nullB) == ExtendRows(kind, ls, bs, on2, nullB)
  {
    if ls != [] {
      MatchesSame(ls[0], bs, on1, on2);
      SameExtend(kind, ls[1..], bs, on1, on2, nullB);
    }
  }

  lemma VacuousF(from: From, db: Db, who: Option<int>, env: Env)
    requires TeamColumns(db) && OwnDb(db, who) && Anchored(SelectsF(from), who) && Safe(SelectsF(from))
    ensures EvalF(RewriteF(from, who), db, env) == EvalF(from, db, env)
    decreases from, 2
  {
    match from
    case Nothing =>
    case Join(l, kind, item, on) =>
      VacuousF(l, db, who, env);
      if item.Derived? {
        VacuousQ(item.q, db, who, env);
      }
      RewriteFromCols(l, db, who);
      RewriteItemCols(item, db, who);
      VacuousO(on, db, who, env);
      SameJoinInputs(kind, EvalF(l, db, env), EvalItem(item, db, env), Keeps(RewriteO(on, who), db, env),
                     Keeps(on, db, env), NullScope(l, db), NullBinding(item, db));
  }

  lemma VacuousO(c: Option<Cond>, db: Db, who: Option<int>, env: Env)
    requires TeamColumns(db) && OwnDb(db, who) && Anchored(SelectsO(c), who) && Safe(SelectsO(c))
    ensures SamePred(Keeps(RewriteO(c, who), db, env), Keeps(c, db, env))
    decreases c, 3
  {
    if c.Some? {
      forall s ensures EvalC(RewriteC(c.value, who), db, In(s, env)) == EvalC(c.value, db, In(s, env)) {
        VacuousC(c.value, db, who, In(s, env));
      }
    }
  }

  lemma VacuousC(c: Cond, db: Db, who: Option<int>, env: Env)
    requires TeamColumns(db) && OwnDb(db, who) && Anchored(SelectsC(c), who) && Safe(SelectsC(c))
    ensures EvalC(RewriteC(c, who), db, env) == EvalC(c, db, env)
    decreases c, 2
  {
    match c
    case Cmp(_, _, _) =>
    case IsNull(_) =>
    case Not(d) => VacuousC(d, db, who, env);
    case And(l, r) => VacuousC(l, db, who, env); VacuousC(r, db, who, env);
    case Or(l, r) => VacuousC(l, db, who, env); VacuousC(r, db, who, env);
    case Paren(d) => VacuousC(d, db, who, env);
    case InQuery(_, q) => VacuousQ(q, db, who, env);
    case Exists(q) => VacuousQ(q, db, who, env);
  }

  /** On a database of own rows the guard changes nothing. */
  lemma {:induction false} VacuousQ(q: Query, db: Db, who: Option<int>, env: Env)
    requires TeamColumns(db) && OwnDb(db, who) && Anchored(SelectsQ(q), who) && Safe(SelectsQ(q))
    ensures EvalQ(RewriteQ(q, who), db, env) == EvalQ(q, db, env)
    decreases q, 2
  {
    match q
    case SetQuery(_, l, r) => VacuousQ(l, db, who, env); VacuousQ(r, db, who, env);
    case Select(proj, from, where) =>
      VacuousF(from, db, who, env);
      VacuousO(where, db, who, env);
      var ss := EvalF(from, db, env);
      var where' := RewriteO(where, who);
      AllFit(from, db, env);
      WhereMeans(from, where', db, ss, who, env);
      AllOwn(from, db, who, env);
      FilterAll(OwnScope(from, who, db), ss);
      FilterSame(Keeps(where', db, env), Keeps(where, db, env), ss);
  }

  /** The view theorem: rewriting and running on the database is running the
      original on the requester's share of it. */
  lemma View(q: Query, db: Db, who: Option<int>, env: Env)
    requires TeamColumns(db) && Anchored(SelectsQ(q), who) && Safe(SelectsQ(q))
    ensures EvalQ(RewriteQ(q, who), db, env) == EvalQ(q, Restrict(db, who), env)
  {
    IsolationQ(q, db, who, env);
    RestrictIsOwn(db, who);
    RestrictRows(db, who, "person_team");
    VacuousQ(q, Restrict(db, who), who, env);
  }
}
