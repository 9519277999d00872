/** Scoping a monotone query only removes rows. */
module MonotoneScope {
  import opened Wrappers
  import opened Sql
  import opened SqlEval
  import opened SqlGuard
  import opened ScopeJoin
  import opened OwnRows
  import opened ScopeIsolation

  // ----- Monotone queries -----

  /** No EXCEPT, no aggregate, no outer join, and no subquery under a NOT. */
  predicate MonotoneQ(q: Query)
    decreases q, 0
  {
    match q
    case Select(proj, from, where) => !proj.Count? && MonotoneF(from) && PositiveO(where)
    case SetQuery(op, l, r) => op != Except && MonotoneQ(l) && MonotoneQ(r)
  }

  predicate MonotoneF(from: From)
    decreases from, 0
  {
    match from
    case Nothing => true
    case Join(l, kind, item, on) =>
      && kind == Inner && MonotoneF(l)
      && (match item case Table(_, _) => true case Derived(q, _) => MonotoneQ(q))
      && PositiveO(on)
  }

  predicate PositiveO(c: Option<Cond>)
    decreases c, 1
  {
    match c case None => true case Some(d) => PositiveC(d)
  }

  predicate PositiveC(c: Cond)
    decreases c, 0
  {
    match c
    case Cmp(_, _, _) => true
    case IsNull(_) => true
    case Not(d) => NoSubquery(d)
    case And(l, r) => PositiveC(l) && PositiveC(r)
    case Or(l, r) => PositiveC(l) && PositiveC(r)
    case Paren(d) => PositiveC(d)
    case InQuery(_, q) => MonotoneQ(q)
    case Exists(q) => MonotoneQ(q)
  }

  predicate NoSubquery(c: Cond) {
    match c
    case Cmp(_, _, _) => true
    case IsNull(_) => true
    case Not(d) => NoSubquery(d)
    case And(l, r) => NoSubquery(l) && NoSubquery(r)
    case Or(l, r) => NoSubquery(l) && NoSubquery(r)
    case Paren(d) => NoSubquery(d)
    case InQuery(_, _) => false
    case Exists(_) => false
  }

  // ----- Fewer rows -----

  ghost predicate Le<T>(a: seq<T>, b: seq<T>) { multiset(a) <= multiset(b) }

  ghost predicate DbLe(db1: Db, db2: Db) {
    db1.schema == db2.schema && forall t :: Le(TableRows(db1, t), TableRows(db2, t))
  }

  lemma LeMember<T>(a: seq<T>, b: seq<T>, x: T)
    requires Le(a, b) && x in a
    ensures x in b
  {
    assert x in multiset(a);
    assert x in multiset(b);
  }

  lemma HeadTail<T>(s: seq<T>)
    requires s != []
    ensures multiset(s) == multiset{s[0]} + multiset(s[1..])
  {
    assert s == [s[0]] + s[1..];
  }

  function MapSeq<A, B>(f: A -> B, s: seq<A>): seq<B> {
    if s == [] then [] else [f(s[0])] + MapSeq(f, s[1..])
  }

  lemma MapAppend<A, B>(f: A -> B, s: seq<A>, t: seq<A>)
    ensures MapSeq(f, s + t) == MapSeq(f, s) + MapSeq(f, t)
  {
    if s == [] {
      assert s + t == t;
    } else {
      assert (s + t)[1..] == s[1..] + t;
      MapAppend(f, s[1..], t);
    }
  }

  lemma MapLe<A, B>(f: A -> B, a: seq<A>, b: seq<A>)
    requires Le(a, b)
    ensures Le(MapSeq(f, a), MapSeq(f, b))
  {
    if a != [] {
      HeadTail(a);
      LeMember(a, b, a[0]);
      var i :| 0 <= i < |b| && b[i] == a[0];
      var rest := b[..i] + b[i + 1..];
      assert b == b[..i] + ([b[i]] + b[i + 1..]);
      assert multiset(a[1..]) == multiset(a) - multiset{a[0]};
      assert multiset(rest) == multiset(b) - multiset{b[i]};
      MapLe(f, a[1..], rest);
      MapAppend(f, b[..i], b[i + 1..]);
      MapAppend(f, b[..i], [b[i]] + b[i + 1..]);
      assert ([b[i]] + b[i + 1..])[1..] == b[i + 1..];
    }
  }

  lemma FilterCount(f: Pred, ss: seq<Scope>, s: Scope)
    ensures multiset(Filter(f, ss))[s] == if f(s) then multiset(ss)[s] else 0
  {
    if ss != [] {
      HeadTail(ss);
      FilterCount(f, ss[1..], s);
      if f(ss[0]) {
        HeadTail(Filter(f, ss));
        assert Filter(f, ss)[1..] == Filter(f, ss[1..]);
      }
    }
  }

  lemma MatchesCount(l: Scope, bs: seq<Binding>, on: Pred, s: Scope)
    ensures multiset(Matches(l, bs, on))[s] == if s.Push? && s.rest == l && on(s) then multiset(bs)[s.b] else 0
  {
    if bs != [] {
      HeadTail(bs);
      MatchesCount(l, bs[1..], on, s);
      if on(Push(l, bs[0])) {
        HeadTail(Matches(l, bs, on));
        assert Matches(l, bs, on)[1..] == Matches(l, bs[1..], on);
      }
    }
  }

  function Times(k: nat, m: nat): nat { k * m }

  lemma OneMore(k: nat, m: nat)
    ensures Times(1 + k, m) == m + Times(k, m)
  {
  }

  lemma CountHead<T>(ss: seq<T>, x: T)
    requires ss != []
    ensures multiset(ss)[x] == (if ss[0] == x then 1 else 0) + multiset(ss[1..])[x]
  {
    HeadTail(ss);
  }

  lemma CountAppend<T>(a: seq<T>, b: seq<T>, x: T)
    ensures multiset(a + b)[x] == multiset(a)[x] + multiset(b)[x]
  {
  }

  /** An inner join has each pair of rows as often as the product of their counts. */
  lemma ExtendCount(ls: seq<Scope>, bs: seq<Binding>, on: Pred, nullB: Binding, s: Scope)
    ensures multiset(ExtendRows(Inner, ls, bs, on, nullB))[s]
         == if s.Push? && on(s) then Times(multiset(ls)[s.rest], multiset(bs)[s.b]) else 0
  {
    if ls != [] {
      ExtendCount(ls[1..], bs, on, nullB, s);
      MatchesCount(ls[0], bs, on, s);
      CountAppend(Matches(ls[0], bs, on), ExtendRows(Inner, ls[1..], bs, on, nullB), s);
      if s.Push? && on(s) {
        CountHead(ls, s.rest);
        OneMore(multiset(ls[1..])[s.rest], multiset(bs)[s.b]);
      }
    }
  }

  ghost predicate Implies(f: Pred, g: Pred) {
    forall s :: f(s) ==> g(s)
  }

  lemma FilterLe(f: Pred, g: Pred, a: seq<Scope>, b: seq<Scope>)
    requires Le(a, b) && Implies(f, g)
    ensures Le(Filter(f, a), Filter(g, b))
  {
    forall s ensures multiset(Filter(f, a))[s] <= multiset(Filter(g, b))[s] {
      FilterCount(f, a, s);
      FilterCount(g, b, s);
    }
  }

  lemma ProductLe(a: nat, b: nat, c: nat, d: nat)
    requires a <= c && b <= d
    ensures Times(a, b) <= Times(c, d)
  {
    assert a * b <= a * d;
    assert a * d <= c * d;
  }

  lemma InnerLe(ls1: seq<Scope>, ls2: seq<Scope>, bs1: seq<Binding>, bs2: seq<Binding>, on1: Pred, on2: Pred,
                nullB: Binding)
    requires Le(ls1, ls2) && Le(bs1, bs2) && Implies(on1, on2)
    ensures Le(ExtendRows(Inner, ls1, bs1, on1, nullB), ExtendRows(Inner, ls2, bs2, on2, nullB))
  {
    forall s ensures multiset(ExtendRows(Inner, ls1, bs1, on1, nullB))[s]
                  <= multiset(ExtendRows(Inner, ls2, bs2, on2, nullB))[s]
    {
      ExtendCount(ls1, bs1, on1, nullB, s);
      ExtendCount(ls2, bs2, on2, nullB, s);
      if s.Push? && on1(s) {
        ProductLe(multiset(ls1)[s.rest], multiset(bs1)[s.b], multiset(ls2)[s.rest], multiset(bs2)[s.b]);
      }
    }
  }

  lemma BindRowsMap(alias: string, cols: seq<string>, rows: seq<Row>)
    ensures BindRows(alias, cols, rows) == MapSeq((r: Row) => Binding(alias, cols, r), rows)
  {
  }

  lemma BindTuplesMap(alias: string, cols: seq<string>, ts: seq<Tuple>)
    ensures BindTuples(alias, cols, ts) == MapSeq((t: Tuple) => Binding(alias, cols, RowOf(cols, t)), ts)
  {
  }

  lemma ProjectLe(proj: Projection, a: seq<Scope>, b: seq<Scope>, env: Env)
    requires !proj.Count? && Le(a, b)
    ensures Le(ProjectRows(proj, a, env), ProjectRows(proj, b, env))
  {
    var f := (s: Scope) => ProjectRow(proj, s, env);
    ProjectMap(proj, a, env, f);
    ProjectMap(proj, b, env, f);
    MapLe(f, a, b);
  }

  lemma ProjectMap(proj: Projection, ss: seq<Scope>, env: Env, f: Scope -> Tuple)
    requires !proj.Count? && forall s :: f(s) == ProjectRow(proj, s, env)
    ensures ProjectRows(proj, ss, env) == MapSeq(f, ss)
  {
  }

  // ----- Set operations -----

  lemma DistinctCount(ts: seq<Tuple>, t: Tuple)
    ensures multiset(Distinct(ts))[t] == if t in ts then 1 else 0
  {
    if ts != [] {
      var last := ts[|ts| - 1];
      assert ts == ts[..|ts| - 1] + [last];
      DistinctCount(ts[..|ts| - 1], t);
      DistinctCount(ts[..|ts| - 1], last);
      assert last in Distinct(ts[..|ts| - 1]) <==> last in multiset(Distinct(ts[..|ts| - 1]));
    }
  }

  lemma KeepInMember(ts: seq<Tuple>, us: seq<Tuple>, t: Tuple)
    ensures t in KeepIn(ts, us, true) <==> t in ts && t in us
  {
    if ts != [] {
      assert ts == [ts[0]] + ts[1..];
      KeepInMember(ts[1..], us, t);
    }
  }

  lemma CombineLe(op: SetOp, a1: seq<Tuple>, a2: seq<Tuple>, b1: seq<Tuple>, b2: seq<Tuple>)
    requires op != Except && Le(a1, a2) && Le(b1, b2)
    ensures Le(Combine(op, a1, b1), Combine(op, a2, b2))
  {
    forall t ensures (t in a1 ==> t in a2) && (t in b1 ==> t in b2) {
      if t in a1 { LeMember(a1, a2, t); }
      if t in b1 { LeMember(b1, b2, t); }
    }
    match op {
      case UnionAll =>
        assert multiset(a1 + b1) == multiset(a1) + multiset(b1);
        assert multiset(a2 + b2) == multiset(a2) + multiset(b2);
      case Union =>
        forall t ensures multiset(Distinct(a1 + b1))[t] <= multiset(Distinct(a2 + b2))[t] {
          DistinctCount(a1 + b1, t);
          DistinctCount(a2 + b2, t);
        }
      case Intersect =>
        forall t ensures multiset(Distinct(KeepIn(a1, b1, true)))[t] <= multiset(Distinct(KeepIn(a2, b2, true)))[t] {
          DistinctCount(KeepIn(a1, b1, true), t);
          DistinctCount(KeepIn(a2, b2, true), t);
          KeepInMember(a1, b1, t);
          KeepInMember(a2, b2, t);
        }
    }
  }

  // ----- Monotonicity of evaluation -----

  function First(t: Tuple): Value { if t == [] then Null else t[0] }

  lemma FirstColumnMap(ts: seq<Tuple>)
    ensures FirstColumn(ts) == MapSeq((t: Tuple) => First(t), ts)
  {
  }

  lemma FirstColumnLe(a: seq<Tuple>, b: seq<Tuple>, v: Value)
    requires Le(a, b) && v in FirstColumn(a)
    ensures v in FirstColumn(b)
  {
    FirstColumnMap(a);
    FirstColumnMap(b);
    MapLe((t: Tuple) => First(t), a, b);
    LeMember(FirstColumn(a), FirstColumn(b), v);
  }

  lemma InLe(v: Value, a: seq<Tuple>, b: seq<Tuple>)
    requires Le(a, b)
    ensures InValues(v, FirstColumn(a)) == True ==> InValues(v, FirstColumn(b)) == True
  {
    var x, y := FirstColumn(a), FirstColumn(b);
    InValuesTrue(v, x);
    InValuesTrue(v, y);
    if InValues(v, x) == True {
      var i :| 0 <= i < |x| && Compare(Eq, v, x[i]) == True;
      FirstColumnLe(a, b, x[i]);
      var j :| 0 <= j < |y| && y[j] == x[i];
    }
  }

  lemma NoSubquerySame(c: Cond, db1: Db, db2: Db, env: Env)
    requires NoSubquery(c)
    ensures EvalC(c, db1, env) == EvalC(c, db2, env)
  {
  }

  lemma PositiveLe(c: Cond, db1: Db, db2: Db, env: Env)
    requires DbLe(db1, db2) && PositiveC(c)
    ensures EvalC(c, db1, env) == True ==> EvalC(c, db2, env) == True
    decreases c, 2
  {
    match c
    case Cmp(_, _, _) =>
    case IsNull(_) =>
    case Not(d) => NoSubquerySame(d, db1, db2, env);
    case And(l, r) => PositiveLe(l, db1, db2, env); PositiveLe(r, db1, db2, env);
    case Or(l, r) => PositiveLe(l, db1, db2, env); PositiveLe(r, db1, db2, env);
    case Paren(d) => PositiveLe(d, db1, db2, env);
    case InQuery(e, q) =>
      MonotoneLe(q, db1, db2, env);
      InLe(EvalE(e, env), EvalQ(q, db1, env), EvalQ(q, db2, env));
    case Exists(q) =>
      MonotoneLe(q, db1, db2, env);
      if EvalC(c, db1, env) == True {
        LeMember(EvalQ(q, db1, env), EvalQ(q, db2, env), EvalQ(q, db1, env)[0]);
      }
  }

  lemma KeepsLe(c: Option<Cond>, db1: Db, db2: Db, env: Env)
    requires DbLe(db1, db2) && PositiveO(c)
    ensures Implies(Keeps(c, db1, env), Keeps(c, db2, env))
    decreases c, 3
  {
    if c.Some? {
      forall s ensures EvalC(c.value, db1, In(s, env)) == True ==> EvalC(c.value, db2, In(s, env)) == True {
        PositiveLe(c.value, db1, db2, In(s, env));
      }
    }
  }

  lemma ItemLe(item: Item, db1: Db, db2: Db, env: Env)
    requires DbLe(db1, db2) && (item.Derived? ==> MonotoneQ(item.q))
    ensures Le(EvalItem(item, db1, env), EvalItem(item, db2, env))
    decreases item, 2
  {
    match item {
      case Table(name, alias) =>
        var cols := TableCols(db1, name);
        BindRowsMap(alias, cols, TableRows(db1, name));
        BindRowsMap(alias, cols, TableRows(db2, name));
        MapLe((r: Row) => Binding(alias, cols, r), TableRows(db1, name), TableRows(db2, name));
      case Derived(q, alias) =>
        MonotoneLe(q, db1, db2, env);
        SchemaCols(q, db1, db2);
        var cols := QueryCols(q, db1);
        BindTuplesMap(alias, cols, EvalQ(q, db1, env));
        BindTuplesMap(alias, cols, EvalQ(q, db2, env));
        MapLe((t: Tuple) => Binding(alias, cols, RowOf(cols, t)), EvalQ(q, db1, env), EvalQ(q, db2, env));
    }
  }

  lemma FromLe(from: From, db1: Db, db2: Db, env: Env)
    requires DbLe(db1, db2) && MonotoneF(from)
    ensures Le(EvalF(from, db1, env), EvalF(from, db2, env))
    decreases from, 2
  {
    match from
    case Nothing =>
    case Join(l, kind, item, on) =>
      FromLe(l, db1, db2, env);
      ItemLe(item, db1, db2, env);
      KeepsLe(on, db1, db2, env);
      SchemaItemCols(item, db1, db2);
      InnerLe(EvalF(l, db1, env), EvalF(l, db2, env), EvalItem(item, db1, env), EvalItem(item, db2, env),
              Keeps(on, db1, env), Keeps(on, db2, env), NullBinding(item, db1));
  }

  /** With fewer rows in the tables a monotone query has fewer rows in its result. */
  lemma {:induction false} MonotoneLe(q: Query, db1: Db, db2: Db, env: Env)
    requires DbLe(db1, db2) && MonotoneQ(q)
    ensures Le(EvalQ(q, db1, env), EvalQ(q, db2, env))
    decreases q, 2
  {
    match q
    case SetQuery(op, l, r) =>
      MonotoneLe(l, db1, db2, env);
      MonotoneLe(r, db1, db2, env);
      CombineLe(op, EvalQ(l, db1, env), EvalQ(l, db2, env), EvalQ(r, db1, env), EvalQ(r, db2, env));
    case Select(proj, from, where) =>
      FromLe(from, db1, db2, env);
      KeepsLe(where, db1, db2, env);
      var a, b := EvalF(from, db1, env), EvalF(from, db2, env);
      FilterLe(Keeps(where, db1, env), Keeps(where, db2, env), a, b);
      ProjectLe(proj, Filter(Keeps(where, db1, env), a), Filter(Keeps(where, db2, env), b), env);
  }

  // ----- Scoping -----

  lemma NoSubqueryRewrite(c: Cond, who: Option<int>)
    requires NoSubquery(c)
    ensures RewriteC(c, who) == c
  {
  }

  /** A positive condition does not become true by rewriting its subqueries. */
  lemma PositiveScoped(c: Cond, db: Db, who: Option<int>, env: Env)
    requires PositiveC(c)
    ensures EvalC(RewriteC(c, who), db, env) == True ==> EvalC(c, db, env) == True
    decreases c, 2
  {
    match c
    case Cmp(_, _, _) =>
    case IsNull(_) =>
    case Not(d) => NoSubqueryRewrite(d, who);
    case And(l, r) => PositiveScoped(l, db, who, env); PositiveScoped(r, db, who, env);
    case Or(l, r) => PositiveScoped(l, db, who, env); PositiveScoped(r, db, who, env);
    case Paren(d) => PositiveScoped(d, db, who, env);
    case InQuery(e, q) =>
      ScopingOnlyRemoves(q, db, who, env);
      InLe(EvalE(e, env), EvalQ(RewriteQ(q, who), db, env), EvalQ(q, db, env));
    case Exists(q) =>
      ScopingOnlyRemoves(q, db, who, env);
      if EvalC(RewriteC(c, who), db, env) == True {
        LeMember(EvalQ(RewriteQ(q, who), db, env), EvalQ(q, db, env), EvalQ(RewriteQ(q, who), db, env)[0]);
      }
  }

  lemma KeepsScoped(c: Option<Cond>, db: Db, who: Option<int>, env: Env)
    requires PositiveO(c)
    ensures Implies(Keeps(RewriteO(c, who), db, env), Keeps(c, db, env))
    decreases c, 3
  {
    if c.Some? {
      forall s
        ensures EvalC(RewriteC(c.value, who), db, In(s, env)) == True ==> EvalC(c.value, db, In(s, env)) == True
      {
        PositiveScoped(c.value, db, who, In(s, env));
      }
    }
  }

  lemma ItemScoped(item: Item, db: Db, who: Option<int>, env: Env)
    requires item.Derived? ==> MonotoneQ(item.q)
    ensures Le(EvalItem(RewriteI(item, who), db, env), EvalItem(item, db, env))
    decreases item, 2
  {
    if item.Derived? {
      var q, alias := item.q, item.alias;
      var cols := QueryCols(q, db);
      ScopingOnlyRemoves(q, db, who, env);
      RewriteCols(q, db, who);
      BindTuplesMap(alias, cols, EvalQ(RewriteQ(q, who), db, env));
      BindTuplesMap(alias, cols, EvalQ(q, db, env));
      MapLe((t: Tuple) => Binding(alias, cols, RowOf(cols, t)), EvalQ(RewriteQ(q, who), db, env), EvalQ(q, db, env));
    }
  }

  lemma FromScoped(from: From, db: Db, who: Option<int>, env: Env)
    requires MonotoneF(from)
    ensures Le(EvalF(RewriteF(from, who), db, env), EvalF(from, db, env))
    decreases from, 2
  {
    match from
    case Nothing =>
    case Join(l, kind, item, on) =>
      FromScoped(l, db, who, env);
      ItemScoped(item, db, who, env);
      KeepsScoped(on, db, who, env);
      RewriteItemCols(item, db, who);
      InnerLe(EvalF(RewriteF(l, who), db, env), EvalF(l, db, env), EvalItem(RewriteI(item, who), db, env),
              EvalItem(item, db, env), Keeps(RewriteO(on, who), db, env), Keeps(on, db, env), NullBinding(item, db));
  }

  lemma WhereScoped(from: From, where: Option<Cond>, db: Db, who: Option<int>, env: Env)
    requires PositiveO(where)
    ensures Implies(Keeps(InjectAll(RewriteO(where, who), ScopePreds(from, who)), db, env), Keeps(where, db, env))
    decreases where, 4
  {
    KeepsScoped(where, db, who, env);
    forall s
      ensures Keeps(InjectAll(RewriteO(where, who), ScopePreds(from, who)), db, env)(s) ==> Keeps(where, db, env)(s)
    {
      InjectAllMeans(RewriteO(where, who), ScopePreds(from, who), db, env, s);
    }
  }

  /** On one database, the rewritten query returns a sub-multiset of what the
      original would have returned. */
  lemma {:induction false} ScopingOnlyRemoves(q: Query, db: Db, who: Option<int>, env: Env)
    requires MonotoneQ(q)
    ensures Le(EvalQ(RewriteQ(q, who), db, env), EvalQ(q, db, env))
    decreases q, 2
  {
    match q
    case SetQuery(op, l, r) =>
      ScopingOnlyRemoves(l, db, who, env);
      ScopingOnlyRemoves(r, db, who, env);
      CombineLe(op, EvalQ(RewriteQ(l, who), db, env), EvalQ(l, db, env),
                EvalQ(RewriteQ(r, who), db, env), EvalQ(r, db, env));
    case Select(proj, from, where) =>
      FromScoped(from, db, who, env);
      WhereScoped(from, where, db, who, env);
      var a, b := EvalF(RewriteF(from, who), db, env), EvalF(from, db, env);
      var f, g := Keeps(RewriteQ(q, who).where, db, env), Keeps(where, db, env);
      FilterLe(f, g, a, b);
      ProjectLe(proj, Filter(f, a), Filter(g, b), env);
  }
}
