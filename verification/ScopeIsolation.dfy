/** A rewritten query cannot tell a database from the requester's share of it. */
module ScopeIsolation {
  import opened Wrappers
  import opened Sql
  import opened SqlEval
  import opened SqlGuard
  import opened ScopeJoin
  import opened OwnRows

  // ----- The statements the result is about -----

  /** Each of these SELECTs has distinct aliases and at most one person reference
      (any number when there is no person id, since then nothing is let through). */
  predicate Anchored(selects: set<Query>, who: Option<int>) {
    forall s | s in selects ::
      s.Select? ==> DistinctAliases(s.from) && (who.None? || PersonRefs(s.from) <= 1)
  }

  // ----- Rewriting keeps the shape of a FROM list -----

  lemma RewriteCols(q: Query, db: Db, who: Option<int>)
    ensures QueryCols(RewriteQ(q, who), db) == QueryCols(q, db)
    decreases q
  {
    match q
    case Select(_, from, _) => RewriteFromCols(from, db, who);
    case SetQuery(_, l, r) => RewriteCols(l, db, who);
  }

  lemma RewriteItemCols(item: Item, db: Db, who: Option<int>)
    ensures ItemCols(RewriteI(item, who), db) == ItemCols(item, db)
    ensures RewriteI(item, who).alias == item.alias
    decreases item
  {
    if item.Derived? {
      RewriteCols(item.q, db, who);
    }
  }

  lemma RewriteFromCols(from: From, db: Db, who: Option<int>)
    ensures FromCols(RewriteF(from, who), db) == FromCols(from, db)
    ensures NullScope(RewriteF(from, who), db) == NullScope(from, db)
    ensures forall s :: Fits(RewriteF(from, who), s, db) == Fits(from, s, db)
    decreases from
  {
    match from
    case Nothing =>
    case Join(l, _, item, _) =>
      RewriteFromCols(l, db, who);
      RewriteItemCols(item, db, who);
  }

  /** Databases with the same schema give every query the same columns. */
  lemma SchemaCols(q: Query, db1: Db, db2: Db)
    requires db1.schema == db2.schema
    ensures QueryCols(q, db1) == QueryCols(q, db2)
    decreases q
  {
    match q
    case Select(_, from, _) => SchemaFromCols(from, db1, db2);
    case SetQuery(_, l, r) => SchemaCols(l, db1, db2);
  }

  lemma SchemaItemCols(item: Item, db1: Db, db2: Db)
    requires db1.schema == db2.schema
    ensures ItemCols(item, db1) == ItemCols(item, db2)
    decreases item
  {
    if item.Derived? {
      SchemaCols(item.q, db1, db2);
    }
  }

  lemma SchemaFromCols(from: From, db1: Db, db2: Db)
    requires db1.schema == db2.schema
    ensures FromCols(from, db1) == FromCols(from, db2)
    ensures NullScope(from, db1) == NullScope(from, db2)
    ensures forall s :: Fits(from, s, db1) == Fits(from, s, db2)
    decreases from
  {
    match from
    case Nothing =>
    case Join(l, _, item, _) =>
      SchemaFromCols(l, db1, db2);
      SchemaItemCols(item, db1, db2);
  }

  // ----- Own rows of one item -----

  lemma OwnBindRows(item: Item, db: Db, who: Option<int>, cols: seq<string>, rows: seq<Row>)
    requires item.Table?
    ensures FilterB(OwnBinding(item, who, db), BindRows(item.alias, cols, rows))
         == BindRows(item.alias, cols, Own(item.name, rows, who, db))
  {
    if rows != [] {
      OwnBindRows(item, db, who, cols, rows[1..]);
      var b := Binding(item.alias, cols, rows[0]);
      assert BindRows(item.alias, cols, rows)[1..] == BindRows(item.alias, cols, rows[1..]);
      if OwnRow(item.name, rows[0], who, db) {
        assert Own(item.name, rows, who, db)[1..] == Own(item.name, rows[1..], who, db);
      }
    }
  }

  lemma OwnTwice(table: string, rows: seq<Row>, who: Option<int>, db: Db)
    ensures Own(table, Own(table, rows, who, db), who, db) == Own(table, rows, who, db)
  {
    if rows != [] {
      OwnTwice(table, rows[1..], who, db);
      if OwnRow(table, rows[0], who, db) {
        assert Own(table, rows, who, db)[1..] == Own(table, rows[1..], who, db);
      }
    }
  }

  /** The bindings of one rewritten item agree on the two databases once only own
      rows are kept. */
  lemma ItemAgrees(item: Item, db: Db, who: Option<int>, env: Env)
    requires TeamColumns(db)
    requires item.Derived? ==> Anchored(SelectsQ(item.q), who)
    ensures SideAgrees(Scoped(item), OwnBinding(item, who, db), NullBinding(item, db),
                       EvalItem(RewriteI(item, who), db, env), EvalItem(RewriteI(item, who), Restrict(db, who), env))
    decreases item, 2
  {
    var g := OwnBinding(item, who, db);
    var db' := Restrict(db, who);
    match item {
      case Table(name, alias) =>
        RestrictRows(db, who, name);
        OwnBindRows(item, db, who, TableCols(db, name), TableRows(db, name));
        OwnBindRows(item, db, who, TableCols(db, name), TableRows(db', name));
        OwnTwice(name, TableRows(db, name), who, db);
      case Derived(q, alias) =>
        IsolationQ(q, db, who, env);
        SchemaCols(RewriteQ(q, who), db, db');
    }
  }

  lemma UnscopedFilter(from: From, who: Option<int>, db: Db, ss: seq<Scope>)
    requires !HasScoped(from) && forall s | s in ss :: Fits(from, s, db)
    ensures Filter(OwnScope(from, who, db), ss) == ss
  {
    forall s | s in ss ensures OwnScope(from, who, db)(s) { UnscopedIsOwn(from, who, db, s); }
    FilterAll(OwnScope(from, who, db), ss);
  }

  lemma FromAgrees(from: From, db: Db, who: Option<int>, env: Env)
    requires TeamColumns(db) && Anchored(SelectsF(from), who)
    ensures Filter(OwnScope(from, who, db), EvalF(RewriteF(from, who), db, env))
         == Filter(OwnScope(from, who, db), EvalF(RewriteF(from, who), Restrict(db, who), env))
    decreases from, 2
  {
    match from
    case Nothing =>
    case Join(l, kind, item, on) =>
      var db' := Restrict(db, who);
      var l', i', on' := RewriteF(l, who), RewriteI(item, who), RewriteO(on, who);
      var ls1, ls2 := EvalF(l', db, env), EvalF(l', db', env);
      FromAgrees(l, db, who, env);
      ItemAgrees(item, db, who, env);
      KeepsAgrees(on, db, who, env);
      var nullL, nullB := NullScope(l, db), NullBinding(item, db);
      RewriteFromCols(l, db, who);
      RewriteItemCols(item, db, who);
      SchemaFromCols(l', db, db');
      SchemaItemCols(i', db, db');
      NullIsNotOwn(l, who, db);
      if !HasScoped(l) {
        AllFit(l', db, env);
        AllFit(l', db', env);
        UnscopedFilter(l, who, db, ls1);
        UnscopedFilter(l, who, db, ls2);
      }
      JoinRowsAgree(kind, OwnScope(l, who, db), OwnBinding(item, who, db), HasScoped(l), Scoped(item), nullL, nullB,
                    ls1, ls2, EvalItem(i', db, env), EvalItem(i', db', env),
                    Keeps(on', db, env), Keeps(on', db', env));
  }

  lemma KeepsAgrees(c: Option<Cond>, db: Db, who: Option<int>, env: Env)
    requires TeamColumns(db) && Anchored(SelectsO(c), who)
    ensures SamePred(Keeps(RewriteO(c, who), db, env), Keeps(RewriteO(c, who), Restrict(db, who), env))
    decreases c, 3
  {
    if c.Some? {
      forall s ensures EvalC(RewriteC(c.value, who), db, In(s, env))
                    == EvalC(RewriteC(c.value, who), Restrict(db, who), In(s, env)) {
        IsolationC(c.value, db, who, In(s, env));
      }
    }
  }

  lemma IsolationC(c: Cond, db: Db, who: Option<int>, env: Env)
    requires TeamColumns(db) && Anchored(SelectsC(c), who)
    ensures EvalC(RewriteC(c, who), db, env) == EvalC(RewriteC(c, who), Restrict(db, who), env)
    decreases c, 2
  {
    match c
    case Cmp(_, _, _) =>
    case IsNull(_) =>
    case Not(d) => IsolationC(d, db, who, env);
    case And(l, r) => IsolationC(l, db, who, env); IsolationC(r, db, who, env);
    case Or(l, r) => IsolationC(l, db, who, env); IsolationC(r, db, who, env);
    case Paren(d) => IsolationC(d, db, who, env);
    case InQuery(_, q) => IsolationQ(q, db, who, env);
    case Exists(q) => IsolationQ(q, db, who, env);
  }

  /** The rewritten WHERE keeps a row of the FROM list exactly when the original
      WHERE does and the row is made of own rows. */
  lemma WhereMeans(from: From, where: Option<Cond>, db: Db, ss: seq<Scope>, who: Option<int>, env: Env)
    requires TeamColumns(db) && DistinctAliases(from) && (who.None? || PersonRefs(from) <= 1)
    requires forall s | s in ss :: Fits(from, s, db)
    ensures Filter(Keeps(InjectAll(where, ScopePreds(from, who)), db, env), ss)
         == Filter(Keeps(where, db, env), Filter(OwnScope(from, who, db), ss))
  {
    var h := Keeps(InjectAll(where, ScopePreds(from, who)), db, env);
    forall s | s in ss ensures h(s) == (Keeps(where, db, env)(s) && OwnScope(from, who, db)(s)) {
      InjectAllMeans(where, ScopePreds(from, who), db, env, s);
      ScopePredsMean(from, who, db, s, env);
    }
    FilterAnd(h, Keeps(where, db, env), OwnScope(from, who, db), ss);
  }

  /** Isolation: a rewritten query has the same result on the whole database as on
      the requester's share of it - for every kind of join, in every scope. */
  lemma {:induction false} IsolationQ(q: Query, db: Db, who: Option<int>, env: Env)
    requires TeamColumns(db) && Anchored(SelectsQ(q), who)
    ensures EvalQ(RewriteQ(q, who), db, env) == EvalQ(RewriteQ(q, who), Restrict(db, who), env)
    decreases q, 2
  {
    match q
    case SetQuery(_, l, r) => IsolationQ(l, db, who, env); IsolationQ(r, db, who, env);
    case Select(proj, from, where) =>
      var db' := Restrict(db, who);
      var from', where' := RewriteF(from, who), RewriteO(where, who);
      var ss1, ss2 := EvalF(from', db, env), EvalF(from', db', env);
      RestrictRows(db, who, "person_team");
      FromAgrees(from, db, who, env);
      KeepsAgrees(where, db, who, env);
      AllFit(from', db, env);
      AllFit(from', db', env);
      RewriteFromCols(from, db, who);
      RewriteFromCols(from, db', who);
      WhereMeans(from, where', db, ss1, who, env);
      WhereMeans(from, where', db', ss2, who, env);
      forall s | s in ss2 ensures OwnScope(from, who, db')(s) == OwnScope(from, who, db)(s) {
        OwnScopeRestrict(from, who, db, s);
      }
      FilterSame(OwnScope(from, who, db'), OwnScope(from, who, db), ss2);
      var own := Filter(OwnScope(from, who, db), ss1);
      FilterSame(Keeps(where', db, env), Keeps(where', db', env), own);
  }

  /** Two databases that agree on the requester's own rows and on the person-free
      tables give the same result, whatever the other rows are. */
  lemma Independence(q: Query, db1: Db, db2: Db, who: Option<int>, env: Env)
    requires TeamColumns(db1) && Anchored(SelectsQ(q), who)
    requires Restrict(db1, who) == Restrict(db2, who)
    ensures EvalQ(RewriteQ(q, who), db1, env) == EvalQ(RewriteQ(q, who), db2, env)
  {
    assert db1.schema == db2.schema;
    IsolationQ(q, db1, who, env);
    IsolationQ(q, db2, who, env);
  }
}
