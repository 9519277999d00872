/** Exactly which FROM lists of plain tables the guard isolates, and of which it makes views
    of the requester's share, for every ON, WHERE and projection. */
module ScopeExactness {
  import opened Wrappers
  import opened Sql
  import opened SqlEval
  import opened SqlGuard
  import opened ScopeJoin
  import opened OwnRows
  import opened ScopeIsolation
  import opened ScopeView

  predicate PlainTables(from: From) {
    match from
    case Nothing => true
    case Join(l, _, item, _) => PlainTables(l) && item.Table?
  }

  /** The same items joined in the same way, under any ON conditions. */
  predicate SameShape(from: From, shape: From) {
    match (from, shape)
    case (Nothing, Nothing) => true
    case (Join(l1, k1, i1, _), Join(l2, k2, i2, _)) => SameShape(l1, l2) && k1 == k2 && i1 == i2
    case _ => false
  }

  /** The context of a restricted requester. */
  function Self(who: Option<int>): Option<Context> { Some(Context(false, who)) }

  lemma SelfIsRestricted(ctx: Option<Context>)
    ensures Restricted(ctx) <==> exists who :: ctx == Self(who)
  {
    if Restricted(ctx) {
      assert ctx == Self(ctx.value.personId);
    }
  }

  /** Every query over this FROM list that the guard lets through is isolated, if its
      subqueries are anchored. */
  ghost predicate Isolated(shape: From, who: Option<int>) {
    forall from, proj, where, db |
      SameShape(from, shape) && Anchored(SelectsF(from) + SelectsO(where), who) && TeamColumns(db)
      && Guard(Select(proj, from, where), Self(who)).Ok? ::
      EvalQ(Guard(Select(proj, from, where), Self(who)).value, db, Top)
      == EvalQ(Guard(Select(proj, from, where), Self(who)).value, Restrict(db, who), Top)
  }

  /** Every query over this FROM list that the guard lets through is a view of the
      requester's share, if its subqueries are. */
  ghost predicate IsView(shape: From, who: Option<int>) {
    forall from, proj, where, db |
      SameShape(from, shape) && Anchored(SelectsF(from) + SelectsO(where), who)
      && Safe(SelectsF(from) + SelectsO(where)) && TeamColumns(db)
      && Guard(Select(proj, from, where), Self(who)).Ok? ::
      EvalQ(Guard(Select(proj, from, where), Self(who)).value, db, Top)
      == EvalQ(Select(proj, from, where), Restrict(db, who), Top)
  }

  predicate ClassifiedShape(shape: From) {
    forall t | t in SelectTables(shape) :: Classify(t.name) != Unclassified
  }

  /** The guard lets no restricted query over a list with an unclassified table
      through. */
  lemma UnclassifiedRejected(shape: From, who: Option<int>, from: From, proj: Projection, where: Option<Cond>)
    requires SameShape(from, shape) && Guard(Select(proj, from, where), Self(who)).Ok?
    ensures ClassifiedShape(shape)
  {
    ShapeFacts(from, shape);
    assert Select(proj, from, where) in SelectsQ(Select(proj, from, where));
  }

  lemma ShapeFacts(from: From, shape: From)
    requires SameShape(from, shape)
    ensures Aliases(from) == Aliases(shape) && PersonRefs(from) == PersonRefs(shape)
    ensures DistinctAliases(from) == DistinctAliases(shape) && HasScoped(from) == HasScoped(shape)
    ensures SafeOuter(from) == SafeOuter(shape) && SelectTables(from) == SelectTables(shape)
  {
    match from
    case Nothing =>
    case Join(l, _, _, _) => ShapeFacts(l, shape.left);
  }

  // ----- Witness databases -----

  const LINK_COLS: seq<string> := ["id", "person_id", "person_team_id"]

  function LinkRow(x: int): Row {
    map["id" := Int(x), "person_id" := Int(x), "person_team_id" := Int(x)]
  }

  function Names(from: From): set<string> {
    match from
    case Nothing => {"person_team"}
    case Join(l, _, item, _) => Names(l) + if item.Table? then {item.name} else {}
  }

  /** One own row of x in every table, and `more` after it in person. */
  function OneEach(names: set<string>, x: int, more: seq<Row>): Db {
    Db(map t | t in names :: LINK_COLS,
       map t | t in names :: if t == "person" then [LinkRow(x)] + more else [LinkRow(x)])
  }

  function NoOns(shape: From): From {
    match shape
    case Nothing => Nothing
    case Join(l, kind, item, _) => Join(NoOns(l), kind, item, None)
  }

  lemma NoOnsFacts(shape: From, who: Option<int>)
    requires PlainTables(shape)
    ensures SameShape(NoOns(shape), shape) && RewriteF(NoOns(shape), who) == NoOns(shape)
  {
    match shape
    case Nothing =>
    case Join(l, kind, item, _) => NoOnsFacts(l, who);
  }

  lemma NoSubqueries(shape: From)
    requires PlainTables(shape)
    ensures SelectsF(NoOns(shape)) == {} && SelectsF(FailFirst(shape)) == {}
  {
    match shape
    case Nothing =>
    case Join(l, kind, item, _) =>
      NoSubqueries(l);
      assert SelectsO(Some(DENY)) == {};
  }

  lemma NothingToCheck(shape: From)
    requires PlainTables(shape)
    ensures OnCols(NoOns(shape)) == {} && OnCols(FailFirst(shape)) == {}
    ensures StarsPassF(NoOns(shape), false) && StarsPassF(FailFirst(shape), false)
  {
    match shape
    case Nothing =>
    case Join(l, _, _, _) =>
      NothingToCheck(l);
      assert OptCols(None) == {} && OptCols(Some(DENY)) == {};
      assert StarsPassO(None, false) && StarsPassO(Some(DENY), false) by { assert StarsPassC(DENY, false); }
  }

  /** A query over classified tables that names no column but ids passes the guard. */
  lemma Accepted(proj: Projection, from: From, shape: From, alias: string, who: Option<int>)
    requires SameShape(from, shape) && ClassifiedShape(shape) && SelectsF(from) == {} && OnCols(from) == {}
    requires StarsPassF(from, false) && !proj.Star? && ProjCols(proj) <= {Col(Some(alias), "id")}
    ensures Guard(Select(proj, from, None), Self(who)) == Ok(RewriteQ(Select(proj, from, None), who))
  {
    var q := Select(proj, from, None);
    ShapeFacts(from, shape);
    assert SelectsO(None) == {} && SelectsQ(q) == {q};
    assert OptCols(None) == {} && DirectCols(q) <= {Col(Some(alias), "id")};
    assert "id" !in FORBIDDEN_COLUMNS;
    assert StarsPassO(None, false);
  }

  lemma LinkRowIsOwn(names: set<string>, x: int, more: seq<Row>, table: string)
    requires table in names && "person_team" in names
    ensures OwnRow(table, LinkRow(x), Some(x), OneEach(names, x, more))
  {
    var db := OneEach(names, x, more);
    assert TableRows(db, "person_team")[0] == LinkRow(x);
    assert OwnTeam(db, Int(x), x);
  }

  /** In a join without ON, any row of the left with any row of the right. */
  lemma InJoin(kind: JoinKind, ls: seq<Scope>, bs: seq<Binding>, on: Pred, nullL: Scope, nullB: Binding,
               l: Scope, b: Binding)
    requires l in ls && b in bs && on(Push(l, b))
    ensures Push(l, b) in JoinRows(kind, ls, bs, on, nullL, nullB)
  {
    InExtend(kind, ls, bs, on, nullB, l, b);
  }

  lemma InMatches(l: Scope, bs: seq<Binding>, on: Pred, b: Binding)
    requires b in bs && on(Push(l, b))
    ensures Push(l, b) in Matches(l, bs, on)
  {
    if bs[0] != b {
      assert bs == [bs[0]] + bs[1..];
      InMatches(l, bs[1..], on, b);
    }
  }

  lemma InExtend(kind: JoinKind, ls: seq<Scope>, bs: seq<Binding>, on: Pred, nullB: Binding, l: Scope, b: Binding)
    requires l in ls && b in bs && on(Push(l, b))
    ensures Push(l, b) in ExtendRows(kind, ls, bs, on, nullB)
  {
    if ls[0] == l {
      InMatches(l, bs, on, b);
    } else {
      assert ls == [ls[0]] + ls[1..];
      InExtend(kind, ls[1..], bs, on, nullB, l, b);
    }
  }

  lemma InFilter(f: Pred, ss: seq<Scope>, s: Scope)
    ensures s in Filter(f, ss) <==> s in ss && f(s)
  {
    if ss != [] {
      InFilter(f, ss[1..], s);
      assert ss == [ss[0]] + ss[1..];
    }
  }

  lemma InProject(proj: Projection, ss: seq<Scope>, env: Env, t: Tuple)
    requires !proj.Count?
    ensures t in ProjectRows(proj, ss, env) <==> exists s :: s in ss && ProjectRow(proj, s, env) == t
  {
    if ss != [] {
      InProject(proj, ss[1..], env, t);
      assert ss == [ss[0]] + ss[1..];
    }
  }

  // ----- Two person references -----

  function Other(x: int): Row { LinkRow(x + 1) }

  /** Own rows, except that every person after the first is someone else. */
  function Mixed(shape: From, x: int): Scope {
    match shape
    case Nothing => Empty
    case Join(l, _, item, _) =>
      var foreign := item.Table? && item.name == "person" && PersonRefs(l) >= 1;
      Push(Mixed(l, x), Binding(item.alias, LINK_COLS, if foreign then Other(x) else LinkRow(x)))
  }

  function LastPerson(shape: From): string {
    match shape
    case Nothing => ""
    case Join(l, _, item, _) => if item.Table? && item.name == "person" then item.alias else LastPerson(l)
  }

  lemma MixedInFrom(shape: From, names: set<string>, x: int)
    requires PlainTables(shape) && Names(shape) <= names
    ensures Mixed(shape, x) in EvalF(NoOns(shape), OneEach(names, x, [Other(x)]), Top)
  {
    match shape
    case Nothing =>
    case Join(l, kind, item, _) =>
      var db := OneEach(names, x, [Other(x)]);
      MixedInFrom(l, names, x);
      BindRowsFit(item.alias, TableCols(db, item.name), TableRows(db, item.name));
      var bs := EvalItem(item, db, Top);
      var b := Mixed(shape, x).b;
      assert bs[0] == Binding(item.alias, LINK_COLS, LinkRow(x));
      if item.name == "person" {
        assert TableRows(db, item.name) == [LinkRow(x), Other(x)];
        assert bs[1] == Binding(item.alias, LINK_COLS, Other(x));
      }
      InJoin(kind, EvalF(NoOns(l), db, Top), bs, Keeps(None, db, Top), NullScope(NoOns(l), db), NullBinding(item, db),
             Mixed(l, x), b);
  }

  lemma MixedFits(shape: From, names: set<string>, x: int)
    requires PlainTables(shape) && Names(shape) <= names
    ensures Fits(shape, Mixed(shape, x), OneEach(names, x, [Other(x)]))
  {
    match shape
    case Nothing =>
    case Join(l, _, _, _) => MixedFits(l, names, x);
  }

  lemma MixedPasses(shape: From, names: set<string>, x: int, env: Env)
    requires PlainTables(shape) && DistinctAliases(shape) && Names(shape) <= names && "person_team" in names
    ensures var (db, inner) := (OneEach(names, x, [Other(x)]), In(Mixed(shape, x), env));
            AllTrue(LinkedScopes(SelectTables(shape), Some(x)), db, inner) && PersonTrue(shape, Some(x), db, inner)
  {
    match shape
    case Nothing =>
    case Join(l, _, item, _) =>
      MixedPasses(l, names, x, env);
      MixedFits(shape, names, x);
      ScopeStep(shape, Some(x), OneEach(names, x, [Other(x)]), Mixed(shape, x), env);
      LinkRowIsOwn(names, x, [Other(x)], item.name);
  }

  lemma MixedShowsOther(shape: From, x: int, env: Env)
    requires PlainTables(shape) && DistinctAliases(shape) && PersonRefs(shape) >= 2
    ensures Qualified(In(Mixed(shape, x), env), LastPerson(shape), "id") == Int(x + 1)
    ensures LastPerson(shape) in Aliases(shape)
  {
    match shape
    case Nothing =>
    case Join(l, _, item, _) =>
      if item.name != "person" {
        MixedShowsOther(l, x, env);
      }
  }

  /** No binding shows a row other than x's. */
  predicate Only(s: Scope, x: int) {
    match s
    case Empty => true
    case Push(rest, b) => Only(rest, x) && Field(b, "id") != Int(x + 1)
  }

  lemma OnlyQualified(s: Scope, x: int, alias: string)
    requires Only(s, x)
    ensures Qualified(In(s, Top), alias, "id") != Int(x + 1)
  {
    match s
    case Empty => assert Qualified(Top, alias, "id") == Null;
    case Push(rest, b) =>
      OnlyQualified(rest, x, alias);
  }

  lemma OnlyNull(from: From, db: Db, x: int)
    ensures Only(NullScope(from, db), x)
  {
  }

  lemma OnlyOwn(from: From, db: Db, x: int)
    requires PlainTables(from)
    requires forall t | t in db.data :: forall r | r in db.data[t] :: r == LinkRow(x)
    ensures forall s | s in EvalF(from, db, Top) :: Only(s, x)
  {
    match from
    case Nothing =>
    case Join(l, kind, item, on) =>
      OnlyOwn(l, db, x);
      OnlyNull(l, db, x);
      BindRowsFit(item.alias, TableCols(db, item.name), TableRows(db, item.name));
      forall b | b in EvalItem(item, db, Top) ensures Field(b, "id") != Int(x + 1) {
        var rows := TableRows(db, item.name);
        var i :| 0 <= i < |rows| && b == Binding(item.alias, TableCols(db, item.name), rows[i]);
        assert item.name in db.data && rows[i] in db.data[item.name];
      }
      JoinRowsMember(kind, EvalF(l, db, Top), EvalItem(item, db, Top), Keeps(on, db, Top), NullScope(l, db),
                     NullBinding(item, db));
  }

  function ShowLast(shape: From): Query {
    Select(Columns([OutCol(Col(Some(LastPerson(shape)), "id"), "id")]), NoOns(shape), None)
  }

  lemma InSelect(proj: Projection, from: From, where: Option<Cond>, db: Db, t: Tuple)
    requires !proj.Count?
    ensures t in EvalQ(Select(proj, from, where), db, Top)
       <==> exists s :: s in EvalF(from, db, Top) && Keeps(where, db, Top)(s) && ProjectRow(proj, s, Top) == t
  {
    var keep, ss := Keeps(where, db, Top), EvalF(from, db, Top);
    InProject(proj, Filter(keep, ss), Top, t);
    forall s ensures s in Filter(keep, ss) <==> s in ss && keep(s) { InFilter(keep, ss, s); }
  }

  lemma ShowLastRewrite(shape: From, who: Option<int>)
    requires PlainTables(shape)
    ensures RewriteQ(ShowLast(shape), who)
         == Select(ShowLast(shape).proj, NoOns(shape), InjectAll(None, ScopePreds(shape, who)))
  {
    NoOnsFacts(shape, who);
    ShapeFacts(NoOns(shape), shape);
  }

  lemma ShowLastIs(shape: From, who: Option<int>, db: Db, t: Tuple)
    requires PlainTables(shape)
    ensures t in EvalQ(RewriteQ(ShowLast(shape), who), db, Top)
       <==> exists s :: s in EvalF(NoOns(shape), db, Top)
                     && Keeps(InjectAll(None, ScopePreds(shape, who)), db, Top)(s)
                     && ProjectRow(ShowLast(shape).proj, s, Top) == t
  {
    var q := ShowLast(shape);
    ShowLastRewrite(shape, who);
    InSelect(q.proj, q.from, InjectAll(None, ScopePreds(shape, who)), db, t);
  }

  lemma TupleOfOne(e: Expr, name: string, env: Env)
    ensures TupleOf([OutCol(e, name)], env) == [EvalE(e, env)]
  {
    var cols := [OutCol(e, name)];
    assert cols[1..] == [];
    assert TupleOf(cols, env) == [EvalE(cols[0].e, env)] + TupleOf(cols[1..], env);
  }

  lemma MixedKept(shape: From, names: set<string>, x: int)
    requires PlainTables(shape) && DistinctAliases(shape)
    requires Names(shape) <= names && "person_team" in names
    ensures Keeps(InjectAll(None, ScopePreds(shape, Some(x))), OneEach(names, x, [Other(x)]), Top)(Mixed(shape, x))
  {
    var who, db, s := Some(x), OneEach(names, x, [Other(x)]), Mixed(shape, x);
    MixedPasses(shape, names, x, Top);
    var person := match PersonAlias(SelectTables(shape)) case Some(a) => [PersonScope(who, a)] case None => [];
    AllTrueAppend(person, LinkedScopes(SelectTables(shape), who), db, In(s, Top));
    InjectAllMeans(None, ScopePreds(shape, who), db, Top, s);
  }

  /** On the whole database the rewritten query shows someone else's row ... */
  lemma OtherShown(shape: From, names: set<string>, x: int)
    requires PlainTables(shape) && DistinctAliases(shape) && PersonRefs(shape) >= 2
    requires Names(shape) <= names && "person_team" in names
    ensures [Int(x + 1)] in EvalQ(RewriteQ(ShowLast(shape), Some(x)), OneEach(names, x, [Other(x)]), Top)
  {
    MixedInFrom(shape, names, x);
    MixedKept(shape, names, x);
    MixedShowsOther(shape, x, Top);
    TupleOfOne(Col(Some(LastPerson(shape)), "id"), "id", In(Mixed(shape, x), Top));
    ShowLastIs(shape, Some(x), OneEach(names, x, [Other(x)]), [Int(x + 1)]);
  }

  lemma ShowLastAccepted(shape: From, who: Option<int>)
    requires PlainTables(shape) && ClassifiedShape(shape)
    ensures Guard(ShowLast(shape), Self(who)) == Ok(RewriteQ(ShowLast(shape), who))
  {
    var q := ShowLast(shape);
    NoSubqueries(shape);
    NothingToCheck(shape);
    NoOnsFacts(shape, who);
    assert q.proj.cols[1..] == [] && OutCols(q.proj.cols) == ExprCols(q.proj.cols[0].e) + OutCols(q.proj.cols[1..]);
    Accepted(q.proj, q.from, shape, LastPerson(shape), who);
  }

  /** On x's share no row of the FROM list shows it ... */
  lemma ShareIsOnly(shape: From, names: set<string>, x: int)
    requires PlainTables(shape)
    ensures var db' := Restrict(OneEach(names, x, [Other(x)]), Some(x));
            forall s | s in EvalF(NoOns(shape), db', Top) :: ProjectRow(ShowLast(shape).proj, s, Top) != [Int(x + 1)]
  {
    var who, db := Some(x), OneEach(names, x, [Other(x)]);
    var db' := Restrict(db, who);
    forall tb, r | tb in db'.data && r in db'.data[tb] ensures r == LinkRow(x) {
      OwnMember(tb, db.data[tb], who, db, r);
      assert Get(Other(x), "id") == Int(x + 1);
    }
    PlainNoOns(shape);
    OnlyOwn(NoOns(shape), db', x);
    forall s | s in EvalF(NoOns(shape), db', Top) ensures ProjectRow(ShowLast(shape).proj, s, Top) != [Int(x + 1)] {
      OnlyQualified(s, x, LastPerson(shape));
      assert ProjectRow(ShowLast(shape).proj, s, Top)[0] != Int(x + 1);
    }
  }

  /** ... so the rewritten query does not. */
  lemma OtherHidden(shape: From, names: set<string>, x: int)
    requires PlainTables(shape)
    ensures var db' := Restrict(OneEach(names, x, [Other(x)]), Some(x));
            [Int(x + 1)] !in EvalQ(RewriteQ(ShowLast(shape), Some(x)), db', Top)
  {
    ShareIsOnly(shape, names, x);
    ShowLastIs(shape, Some(x), Restrict(OneEach(names, x, [Other(x)]), Some(x)), [Int(x + 1)]);
  }

  /** Neither does the original there. */
  lemma OtherAbsent(shape: From, names: set<string>, x: int)
    requires PlainTables(shape)
    ensures [Int(x + 1)] !in EvalQ(ShowLast(shape), Restrict(OneEach(names, x, [Other(x)]), Some(x)), Top)
  {
    var db' := Restrict(OneEach(names, x, [Other(x)]), Some(x));
    ShareIsOnly(shape, names, x);
    InSelect(ShowLast(shape).proj, NoOns(shape), None, db', [Int(x + 1)]);
  }

  /** x's own row in every table, and after it another person. */
  function TwoPersons(shape: From, x: int): Db { OneEach(Names(shape) + {"person_team"}, x, [Other(x)]) }

  /** A FROM list that names person twice shows another person's id to x - who is not in
      x's share; and the guard accepts the query if the tables are classified. */
  lemma TwoPersonsLeak(shape: From, x: int)
    requires PlainTables(shape) && DistinctAliases(shape) && PersonRefs(shape) >= 2
    ensures TeamColumns(TwoPersons(shape, x))
    ensures [Int(x + 1)] in EvalQ(RewriteQ(ShowLast(shape), Some(x)), TwoPersons(shape, x), Top)
    ensures [Int(x + 1)] !in EvalQ(RewriteQ(ShowLast(shape), Some(x)), Restrict(TwoPersons(shape, x), Some(x)), Top)
    ensures [Int(x + 1)] !in EvalQ(ShowLast(shape), Restrict(TwoPersons(shape, x), Some(x)), Top)
    ensures ClassifiedShape(shape) ==> Guard(ShowLast(shape), Self(Some(x))) == Ok(RewriteQ(ShowLast(shape), Some(x)))
  {
    var names := Names(shape) + {"person_team"};
    if ClassifiedShape(shape) {
      ShowLastAccepted(shape, Some(x));
    }
    OtherShown(shape, names, x);
    OtherHidden(shape, names, x);
    OtherAbsent(shape, names, x);
  }

  lemma TwoPersonsFail(shape: From, x: int)
    requires PlainTables(shape) && DistinctAliases(shape) && PersonRefs(shape) >= 2 && ClassifiedShape(shape)
    ensures !Isolated(shape, Some(x)) && !IsView(shape, Some(x))
  {
    var q, db := ShowLast(shape), TwoPersons(shape, x);
    TwoPersonsLeak(shape, x);
    NoSubqueries(shape);
    NoOnsFacts(shape, Some(x));
    assert EvalQ(RewriteQ(q, Some(x)), db, Top) != EvalQ(RewriteQ(q, Some(x)), Restrict(db, Some(x)), Top);
    assert EvalQ(RewriteQ(q, Some(x)), db, Top) != EvalQ(q, Restrict(db, Some(x)), Top);
  }

  lemma PlainNoOns(shape: From)
    requires PlainTables(shape)
    ensures PlainTables(NoOns(shape))
  {
  }

  /** The guard isolates every query over a FROM list of plain tables exactly when it
      names person at most once, or there is no person id (and nothing gets through), or
      one of the tables is unclassified (and no query is). */
  lemma OnePersonIsExact(shape: From, who: Option<int>)
    requires PlainTables(shape) && DistinctAliases(shape)
    ensures Isolated(shape, who) <==> who.None? || PersonRefs(shape) <= 1 || !ClassifiedShape(shape)
  {
    if who.None? || PersonRefs(shape) <= 1 || !ClassifiedShape(shape) {
      forall from, proj, where, db |
        SameShape(from, shape) && Anchored(SelectsF(from) + SelectsO(where), who) && TeamColumns(db)
        && Guard(Select(proj, from, where), Self(who)).Ok?
        ensures EvalQ(Guard(Select(proj, from, where), Self(who)).value, db, Top)
             == EvalQ(Guard(Select(proj, from, where), Self(who)).value, Restrict(db, who), Top)
      {
        UnclassifiedRejected(shape, who, from, proj, where);
        ShapeFacts(from, shape);
        IsolationQ(Select(proj, from, where), db, who, Top);
      }
    } else {
      TwoPersonsFail(shape, who.value);
    }
  }

  // ----- Outer joins that null-extend a scoped table -----

  /** The first unsafe outer join never matches; the others always do. */
  function FailFirst(shape: From): From {
    match shape
    case Nothing => Nothing
    case Join(l, kind, item, _) =>
      if !SafeOuter(l) then Join(FailFirst(l), kind, item, None)
      else Join(NoOns(l), kind, item, Some(DENY))
  }

  lemma FailFirstFacts(shape: From, who: Option<int>)
    requires PlainTables(shape)
    ensures SameShape(FailFirst(shape), shape) && RewriteF(FailFirst(shape), who) == FailFirst(shape)
  {
    match shape
    case Nothing =>
    case Join(l, _, _, _) =>
      FailFirstFacts(l, who);
      NoOnsFacts(l, who);
  }

  lemma NotEmptyFrom(shape: From, names: set<string>, x: int)
    requires PlainTables(shape) && Names(shape) <= names
    ensures EvalF(NoOns(shape), OneEach(names, x, []), Top) != []
  {
    match shape
    case Nothing =>
    case Join(l, kind, item, _) =>
      var db := OneEach(names, x, []);
      NotEmptyFrom(l, names, x);
      BindRowsFit(item.alias, TableCols(db, item.name), TableRows(db, item.name));
      var ls, bs := EvalF(NoOns(l), db, Top), EvalItem(item, db, Top);
      InJoin(kind, ls, bs, Keeps(None, db, Top), NullScope(NoOns(l), db), NullBinding(item, db), ls[0], bs[0]);
  }

  lemma FailingJoin(shape: From, names: set<string>, x: int) returns (s: Scope)
    requires PlainTables(shape) && Names(shape) <= names && !SafeOuter(shape) && SafeOuter(shape.left)
    ensures s in EvalF(FailFirst(shape), OneEach(names, x, []), Top)
    ensures !OwnScope(FailFirst(shape), Some(x), OneEach(names, x, []))(s)
  {
    var db := OneEach(names, x, []);
    var l, kind, item := shape.left, shape.kind, shape.item;
    BindRowsFit(item.alias, TableCols(db, item.name), TableRows(db, item.name));
    NotEmptyFrom(l, names, x);
    var ls, bs := EvalF(NoOns(l), db, Top), EvalItem(item, db, Top);
    var nullL, nullB := NullScope(NoOns(l), db), NullBinding(item, db);
    NoMatches(kind, ls, bs, Keeps(Some(DENY), db, Top), nullL, nullB);
    NoOnsFacts(l, None);
    ShapeFacts(NoOns(l), l);
    NullIsNotOwn(NoOns(l), Some(x), db);
    s := if KeepsLeft(kind) && Scoped(item) then Push(ls[0], nullB) else Push(nullL, bs[0]);
  }

  /** Some row of the failing join null-extends a scoped table. */
  lemma NullExtended(shape: From, names: set<string>, x: int) returns (s: Scope)
    requires PlainTables(shape) && Names(shape) <= names && !SafeOuter(shape)
    ensures s in EvalF(FailFirst(shape), OneEach(names, x, []), Top)
    ensures !OwnScope(FailFirst(shape), Some(x), OneEach(names, x, []))(s)
  {
    var db := OneEach(names, x, []);
    var l, kind, item := shape.left, shape.kind, shape.item;
    if SafeOuter(l) {
      s := FailingJoin(shape, names, x);
    } else {
      var s' := NullExtended(l, names, x);
      BindRowsFit(item.alias, TableCols(db, item.name), TableRows(db, item.name));
      var bs := EvalItem(item, db, Top);
      InJoin(kind, EvalF(FailFirst(l), db, Top), bs, Keeps(None, db, Top), NullScope(FailFirst(l), db),
             NullBinding(item, db), s', bs[0]);
      s := Push(s', bs[0]);
    }
  }

  lemma NoMatches(kind: JoinKind, ls: seq<Scope>, bs: seq<Binding>, on: Pred, nullL: Scope, nullB: Binding)
    requires forall s :: !on(s)
    requires ls != [] && bs != []
    ensures KeepsLeft(kind) ==> Push(ls[0], nullB) in JoinRows(kind, ls, bs, on, nullL, nullB)
    ensures KeepsRight(kind) ==> Push(nullL, bs[0]) in JoinRows(kind, ls, bs, on, nullL, nullB)
  {
    MatchesNone(ls[0], bs, on);
  }

  lemma MatchesNone(l: Scope, bs: seq<Binding>, on: Pred)
    requires forall s :: !on(s)
    ensures Matches(l, bs, on) == []
  {
  }

  lemma FilterShorter(f: Pred, ss: seq<Scope>)
    ensures |Filter(f, ss)| <= |ss|
    ensures (exists s :: s in ss && !f(s)) ==> |Filter(f, ss)| < |ss|
  {
    if ss != [] {
      FilterShorter(f, ss[1..]);
      assert ss == [ss[0]] + ss[1..];
    }
  }

  lemma CountAll(ss: seq<Scope>, env: Env)
    ensures CountOf(None, ss, env) == |ss|
  {
    if ss != [] {
      CountAll(ss[1..], env);
    }
  }

  lemma OneEachIsOwn(names: set<string>, x: int)
    requires "person_team" in names
    ensures Restrict(OneEach(names, x, []), Some(x)) == OneEach(names, x, [])
  {
    var db := OneEach(names, x, []);
    forall t | t in db.data ensures Own(t, db.data[t], Some(x), db) == db.data[t] {
      LinkRowIsOwn(names, x, [], t);
      assert db.data[t] == [LinkRow(x)];
      assert db.data[t][1..] == [];
    }
    assert Restrict(db, Some(x)).data == db.data;
  }

  /** Counting the rows of a FROM list, rewritten and not. */
  lemma CountRows(from: From, db: Db, who: Option<int>)
    requires TeamColumns(db) && DistinctAliases(from) && (who.None? || PersonRefs(from) <= 1)
    requires RewriteF(from, who) == from
    ensures EvalQ(Select(Count(None, "n"), from, None), db, Top) == [[Int(|EvalF(from, db, Top)|)]]
    ensures EvalQ(RewriteQ(Select(Count(None, "n"), from, None), who), db, Top)
         == [[Int(|Filter(OwnScope(from, who, db), EvalF(from, db, Top))|)]]
  {
    var ss := EvalF(from, db, Top);
    AllFit(from, db, Top);
    WhereMeans(from, None, db, ss, who, Top);
    var own := Filter(OwnScope(from, who, db), ss);
    FilterAll(Keeps(None, db, Top), own);
    FilterAll(Keeps(None, db, Top), ss);
    CountAll(own, Top);
    CountAll(ss, Top);
  }

  function RowsOf(from: From): Query { Select(Count(None, "n"), from, None) }

  function OneOfEach(shape: From, x: int): Db { OneEach(Names(shape) + {"person_team"}, x, []) }

  lemma RowsAccepted(shape: From, who: Option<int>)
    requires PlainTables(shape) && ClassifiedShape(shape)
    ensures Guard(RowsOf(FailFirst(shape)), Self(who)) == Ok(RewriteQ(RowsOf(FailFirst(shape)), who))
    ensures Guard(RowsOf(NoOns(shape)), Self(who)) == Ok(RewriteQ(RowsOf(NoOns(shape)), who))
  {
    NoSubqueries(shape);
    NothingToCheck(shape);
    FailFirstFacts(shape, who);
    NoOnsFacts(shape, who);
    Accepted(Count(None, "n"), FailFirst(shape), shape, "", who);
    Accepted(Count(None, "n"), NoOns(shape), shape, "", who);
  }

  /** A FROM list with an unsafe outer join loses rows: there is a database of x's own
      rows on which fewer of them are counted than x has; and the guard accepts the query
      if the tables are classified. */
  lemma UnsafeOuterLoses(shape: From, x: int) returns (n: nat, m: nat)
    requires PlainTables(shape) && DistinctAliases(shape) && PersonRefs(shape) <= 1 && !SafeOuter(shape)
    ensures TeamColumns(OneOfEach(shape, x)) && SameShape(FailFirst(shape), shape)
    ensures EvalQ(RewriteQ(RowsOf(FailFirst(shape)), Some(x)), OneOfEach(shape, x), Top) == [[Int(n)]]
    ensures EvalQ(RowsOf(FailFirst(shape)), Restrict(OneOfEach(shape, x), Some(x)), Top) == [[Int(m)]]
    ensures n < m
    ensures ClassifiedShape(shape) ==>
              Guard(RowsOf(FailFirst(shape)), Self(Some(x))) == Ok(RewriteQ(RowsOf(FailFirst(shape)), Some(x)))
  {
    if ClassifiedShape(shape) {
      RowsAccepted(shape, Some(x));
    }
    var names := Names(shape) + {"person_team"};
    var db, from := OneOfEach(shape, x), FailFirst(shape);
    FailFirstFacts(shape, Some(x));
    ShapeFacts(from, shape);
    OneEachIsOwn(names, x);
    CountRows(from, db, Some(x));
    var s := NullExtended(shape, names, x);
    FilterShorter(OwnScope(from, Some(x), db), EvalF(from, db, Top));
    n, m := |Filter(OwnScope(from, Some(x), db), EvalF(from, db, Top))|, |EvalF(from, db, Top)|;
  }

  lemma UnsafeOuterFails(shape: From, x: int)
    requires PlainTables(shape) && DistinctAliases(shape) && PersonRefs(shape) <= 1 && !SafeOuter(shape)
    requires ClassifiedShape(shape)
    ensures !IsView(shape, Some(x))
  {
    NoSubqueries(shape);
    var n, m := UnsafeOuterLoses(shape, x);
    DifferentCounts(n, m);
    NoView(shape, Some(x), FailFirst(shape), Count(None, "n"), OneOfEach(shape, x));
  }

  // ----- Without a person id -----

  /** With ON conditions that allow it, the list has rows when its scoped tables are
      empty and the others are not. */
  predicate Yields(shape: From) {
    match shape
    case Nothing => true
    case Join(l, kind, item, _) =>
      || (Yields(l) && (!Scoped(item) || KeepsLeft(kind)))
      || (!Scoped(item) && KeepsRight(kind))
  }

  lemma YieldsOf(from: From, shape: From)
    requires SameShape(from, shape)
    ensures Yields(from) == Yields(shape) && PlainTables(from) == PlainTables(shape)
  {
    match from
    case Nothing =>
    case Join(l, _, _, _) => YieldsOf(l, shape.left);
  }

  lemma NoOwnRows(table: string, rows: seq<Row>, db: Db)
    requires Classify(table) in {Person, PersonFk, PersonTeamFk}
    ensures Own(table, rows, None, db) == []
  {
    if rows != [] {
      NoOwnRows(table, rows[1..], db);
    }
  }

  lemma JoinOfNone(kind: JoinKind, ls: seq<Scope>, bs: seq<Binding>, on: Pred, nullL: Scope, nullB: Binding)
    requires ls == [] || (bs == [] && !KeepsLeft(kind))
    requires bs == [] || (ls == [] && !KeepsRight(kind))
    ensures JoinRows(kind, ls, bs, on, nullL, nullB) == []
  {
    if ls != [] {
      JoinOfNone(kind, ls[1..], bs, on, nullL, nullB);
    }
  }

  /** Without a person id such a list is empty on the share. */
  lemma NothingYielded(from: From, db: Db, env: Env)
    requires PlainTables(from) && !Yields(from)
    ensures EvalF(from, Restrict(db, None), env) == []
  {
    match from
    case Nothing =>
    case Join(l, kind, item, on) =>
      var db' := Restrict(db, None);
      var ls, bs := EvalF(l, db', env), EvalItem(item, db', env);
      if !Yields(l) {
        NothingYielded(l, db, env);
      }
      if Scoped(item) {
        NoOwnRows(item.name, TableRows(db, item.name), db);
        RestrictRows(db, None, item.name);
      }
      JoinOfNone(kind, ls, bs, Keeps(on, db', env), NullScope(l, db'), NullBinding(item, db'));
  }

  lemma JoinOfSome(kind: JoinKind, ls: seq<Scope>, bs: seq<Binding>, on: Pred, nullL: Scope, nullB: Binding)
    requires forall s :: on(s)
    requires (ls != [] && (bs != [] || KeepsLeft(kind))) || (bs != [] && KeepsRight(kind))
    ensures JoinRows(kind, ls, bs, on, nullL, nullB) != []
  {
    if ls != [] {
      if bs != [] {
        InJoin(kind, ls, bs, on, nullL, nullB, ls[0], bs[0]);
      }
    }
  }

  lemma SomethingYielded(shape: From, names: set<string>)
    requires PlainTables(shape) && Names(shape) <= names && Yields(shape)
    ensures EvalF(NoOns(shape), Restrict(OneEach(names, 0, []), None), Top) != []
  {
    match shape
    case Nothing =>
    case Join(l, kind, item, _) =>
      var db := OneEach(names, 0, []);
      var db' := Restrict(db, None);
      if Yields(l) {
        SomethingYielded(l, names);
      }
      if !Scoped(item) {
        assert TableRows(db, item.name) == [LinkRow(0)];
        assert Own(item.name, [LinkRow(0)], None, db) == [LinkRow(0)] + Own(item.name, [LinkRow(0)][1..], None, db);
        RestrictRows(db, None, item.name);
        assert TableRows(db', item.name) != [];
      }
      JoinOfSome(kind, EvalF(NoOns(l), db', Top), EvalItem(item, db', Top), Keeps(None, db', Top),
                 NullScope(NoOns(l), db'), NullBinding(item, db'));
  }

  lemma NoneIsOwn(from: From, db: Db, s: Scope)
    requires HasScoped(from)
    ensures !OwnScope(from, None, db)(s)
  {
    match from
    case Join(l, _, item, _) =>
      if !Scoped(item) && s.Push? {
        NoneIsOwn(l, db, s.rest);
      }
  }

  lemma NoIdCounts(shape: From)
    requires PlainTables(shape) && DistinctAliases(shape) && HasScoped(shape)
    ensures var (db, from) := (OneOfEach(shape, 0), NoOns(shape));
            && EvalQ(RewriteQ(RowsOf(from), None), db, Top) == [[Int(0)]]
            && EvalQ(RowsOf(from), Restrict(db, None), Top) == [[Int(|EvalF(from, Restrict(db, None), Top)|)]]
  {
    NoOnsFacts(shape, None);
    ShapeFacts(NoOns(shape), shape);
    CountRows(NoOns(shape), Restrict(OneOfEach(shape, 0), None), None);
    NoneCounted(NoOns(shape), OneOfEach(shape, 0));
  }

  lemma NoneCounted(from: From, db: Db)
    requires TeamColumns(db) && DistinctAliases(from) && HasScoped(from) && RewriteF(from, None) == from
    ensures EvalQ(RewriteQ(RowsOf(from), None), db, Top) == [[Int(0)]]
  {
    CountRows(from, db, None);
    forall s ensures !OwnScope(from, None, db)(s) { NoneIsOwn(from, db, s); }
    FilterNone(OwnScope(from, None, db), EvalF(from, db, Top));
  }

  /** A query without subqueries that shows the difference. */
  lemma NoView(shape: From, who: Option<int>, from: From, proj: Projection, db: Db)
    requires SameShape(from, shape) && SelectsF(from) == {} && TeamColumns(db)
    requires Guard(Select(proj, from, None), Self(who)) == Ok(RewriteQ(Select(proj, from, None), who))
    requires EvalQ(RewriteQ(Select(proj, from, None), who), db, Top)
          != EvalQ(Select(proj, from, None), Restrict(db, who), Top)
    ensures !IsView(shape, who)
  {
    assert SelectsO(None) == {} && SelectsF(from) + SelectsO(None) == {};
    assert Anchored(SelectsF(from) + SelectsO(None), who) && Safe(SelectsF(from) + SelectsO(None));
  }

  /** It counts rows of the lookup tables, and the rewritten query counts none. */
  lemma NoIdLoses(shape: From)
    requires PlainTables(shape) && DistinctAliases(shape) && HasScoped(shape) && Yields(shape)
    requires ClassifiedShape(shape)
    ensures !IsView(shape, None)
  {
    var db, from := OneOfEach(shape, 0), NoOns(shape);
    RowsAccepted(shape, None);
    NoSubqueries(shape);
    NoOnsFacts(shape, None);
    NoIdCounts(shape);
    SomethingYielded(shape, Names(shape) + {"person_team"});
    DifferentCounts(0, |EvalF(from, Restrict(db, None), Top)|);
    NoView(shape, None, from, Count(None, "n"), db);
  }

  lemma DifferentCounts(n: nat, m: nat)
    requires n != m
    ensures [[Int(n)]] != [[Int(m)]]
  {
    assert [[Int(n)]][0][0] != [[Int(m)]][0][0];
  }

  lemma NoScopedIsSafe(from: From)
    requires !HasScoped(from)
    ensures SafeOuter(from)
  {
    match from
    case Nothing =>
    case Join(l, _, _, _) => NoScopedIsSafe(l);
  }

  lemma RewriteShape(from: From, who: Option<int>)
    requires PlainTables(from)
    ensures SameShape(RewriteF(from, who), from)
  {
    match from
    case Nothing =>
    case Join(l, _, _, _) => RewriteShape(l, who);
  }

  lemma NothingEitherWay(proj: Projection, from: From, where: Option<Cond>, db: Db)
    requires PlainTables(from) && !Yields(from) && TeamColumns(db)
    requires Anchored(SelectsQ(Select(proj, from, where)), None)
    ensures EvalQ(RewriteQ(Select(proj, from, where), None), db, Top)
         == EvalQ(Select(proj, from, where), Restrict(db, None), Top)
  {
    IsolationQ(Select(proj, from, where), db, None, Top);
    RewriteShape(from, None);
    YieldsOf(RewriteF(from, None), from);
    NothingYielded(from, db, Top);
    NothingYielded(RewriteF(from, None), db, Top);
  }

  /** When every query over a list of plain tables is a view of the requester's share. */
  predicate ViewShape(shape: From, who: Option<int>) {
    if who.Some? then SafeOuter(shape) && PersonRefs(shape) <= 1 else !HasScoped(shape) || !Yields(shape)
  }

  lemma ShapeIsView(shape: From, who: Option<int>, from: From, proj: Projection, where: Option<Cond>, db: Db)
    requires PlainTables(shape) && DistinctAliases(shape) && ViewShape(shape, who) && SameShape(from, shape)
    requires Anchored(SelectsF(from) + SelectsO(where), who) && Safe(SelectsF(from) + SelectsO(where))
    requires TeamColumns(db)
    ensures EvalQ(RewriteQ(Select(proj, from, where), who), db, Top)
         == EvalQ(Select(proj, from, where), Restrict(db, who), Top)
  {
    ShapeFacts(from, shape);
    YieldsOf(from, shape);
    if who.Some? || !HasScoped(shape) {
      if who.None? {
        NoScopedIsSafe(from);
      }
      View(Select(proj, from, where), db, who, Top);
    } else {
      NothingEitherWay(proj, from, where, db);
    }
  }

  /** What the guard makes of the queries over a FROM list of plain tables is a view of the
      requester's share exactly when the list names person at most once and no outer join
      of it can null-extend a scoped table - without a person id, when it has no scoped
      table or cannot have a row without one - or when one of the tables is
      unclassified. */
  lemma ViewIsExact(shape: From, who: Option<int>)
    requires PlainTables(shape) && DistinctAliases(shape)
    ensures IsView(shape, who) <==> ViewShape(shape, who) || !ClassifiedShape(shape)
  {
    if ViewShape(shape, who) || !ClassifiedShape(shape) {
      forall from, proj, where, db |
        SameShape(from, shape) && Anchored(SelectsF(from) + SelectsO(where), who)
        && Safe(SelectsF(from) + SelectsO(where)) && TeamColumns(db)
        && Guard(Select(proj, from, where), Self(who)).Ok?
        ensures EvalQ(Guard(Select(proj, from, where), Self(who)).value, db, Top)
             == EvalQ(Select(proj, from, where), Restrict(db, who), Top)
      {
        UnclassifiedRejected(shape, who, from, proj, where);
        ShapeIsView(shape, who, from, proj, where, db);
      }
    } else if who.None? {
      NoIdLoses(shape);
    } else if PersonRefs(shape) >= 2 {
      TwoPersonsFail(shape, who.value);
    } else {
      UnsafeOuterFails(shape, who.value);
    }
  }

  /** For a requester with a person id. */
  lemma SafeOuterIsExact(shape: From, x: int)
    requires PlainTables(shape) && DistinctAliases(shape)
    ensures IsView(shape, Some(x))
       <==> (SafeOuter(shape) && PersonRefs(shape) <= 1) || !ClassifiedShape(shape)
  {
    ViewIsExact(shape, Some(x));
  }
}
