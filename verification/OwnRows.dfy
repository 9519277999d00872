/** Which rows are a requester's own, and what the injected predicates say. */
module OwnRows {
  import opened Wrappers
  import opened Sql
  import opened SqlEval
  import opened SqlGuard
  import opened ScopeJoin

  // ----- Own rows -----

  /** A column of a stored row, as queries see it. */
  function Stored(db: Db, table: string, row: Row, col: string): Value {
    if col in TableCols(db, table) then Get(row, col) else Null
  }

  /** `team` is the id of one of x's person_team rows. */
  ghost predicate OwnTeam(db: Db, team: Value, x: int) {
    exists i :: 0 <= i < |TableRows(db, "person_team")|
             && Stored(db, "person_team", TableRows(db, "person_team")[i], "person_id") == Int(x)
             && Stored(db, "person_team", TableRows(db, "person_team")[i], "id") == team
             && team != Null
  }

  /** The row is the requester's own, or its table holds no personal rows. */
  ghost predicate OwnRow(table: string, row: Row, who: Option<int>, db: Db) {
    match Classify(table)
    case Person => who.Some? && Stored(db, table, row, "id") == Int(who.value)
    case PersonFk => who.Some? && Stored(db, table, row, "person_id") == Int(who.value)
    case PersonTeamFk => who.Some? && OwnTeam(db, Stored(db, table, row, "person_team_id"), who.value)
    case _ => true
  }

  ghost function Own(table: string, rows: seq<Row>, who: Option<int>, db: Db): seq<Row> {
    if rows == [] then []
    else if OwnRow(table, rows[0], who, db) then [rows[0]] + Own(table, rows[1..], who, db)
    else Own(table, rows[1..], who, db)
  }

  /** The database a requester is entitled to: their own rows and the person-free tables. */
  ghost function Restrict(db: Db, who: Option<int>): Db {
    Db(db.schema, map t | t in db.data :: Own(t, db.data[t], who, db))
  }

  /** The columns the injected subquery reads; without them the database rejects it. */
  predicate TeamColumns(db: Db) {
    "id" in TableCols(db, "person_team") && "person_id" in TableCols(db, "person_team")
  }

  lemma OwnMember(table: string, rows: seq<Row>, who: Option<int>, db: Db, r: Row)
    ensures r in Own(table, rows, who, db) <==> r in rows && OwnRow(table, r, who, db)
  {
    if rows != [] {
      OwnMember(table, rows[1..], who, db, r);
      assert rows == [rows[0]] + rows[1..];
    }
  }

  lemma RestrictRows(db: Db, who: Option<int>, table: string)
    ensures TableRows(Restrict(db, who), table) == Own(table, TableRows(db, table), who, db)
    ensures TableCols(Restrict(db, who), table) == TableCols(db, table)
  {
  }

  lemma OwnTeamRestrict(db: Db, team: Value, x: int)
    ensures OwnTeam(db, team, x) <==> OwnTeam(Restrict(db, Some(x)), team, x)
  {
    var all := TableRows(db, "person_team");
    var own := TableRows(Restrict(db, Some(x)), "person_team");
    RestrictRows(db, Some(x), "person_team");
    if OwnTeam(db, team, x) {
      var i :| 0 <= i < |all| && Stored(db, "person_team", all[i], "person_id") == Int(x)
            && Stored(db, "person_team", all[i], "id") == team;
      OwnMember("person_team", all, Some(x), db, all[i]);
      var j :| 0 <= j < |own| && own[j] == all[i];
      assert Stored(Restrict(db, Some(x)), "person_team", own[j], "id") == team;
    }
    if OwnTeam(Restrict(db, Some(x)), team, x) {
      var j :| 0 <= j < |own| && Stored(db, "person_team", own[j], "person_id") == Int(x)
            && Stored(db, "person_team", own[j], "id") == team;
      OwnMember("person_team", all, Some(x), db, own[j]);
      var i :| 0 <= i < |all| && all[i] == own[j];
      assert Stored(db, "person_team", all[i], "id") == team;
    }
  }

  /** Restricting changes which rows there are, not which rows are own. */
  lemma OwnRowRestrict(db: Db, who: Option<int>, table: string, row: Row)
    ensures OwnRow(table, row, who, Restrict(db, who)) <==> OwnRow(table, row, who, db)
  {
    if who.Some? {
      OwnTeamRestrict(db, Stored(db, table, row, "person_team_id"), who.value);
    }
  }

  // ----- Own rows of one SELECT -----

  ghost function OwnBinding(item: Item, who: Option<int>, db: Db): BindingPred {
    (b: Binding) => item.Table? ==> OwnRow(item.name, b.row, who, db)
  }

  /** Every plain table in the FROM list contributes an own row. */
  ghost function OwnScope(from: From, who: Option<int>, db: Db): Pred {
    match from
    case Nothing => (s: Scope) => true
    case Join(l, _, item, _) => Both(OwnScope(l, who, db), OwnBinding(item, who, db))
  }

  predicate HasScoped(from: From) {
    match from
    case Nothing => false
    case Join(l, _, item, _) => HasScoped(l) || Scoped(item)
  }

  /** The scope has one binding per FROM item, in order. */
  predicate Fits(from: From, s: Scope, db: Db) {
    match from
    case Nothing => s == Empty
    case Join(l, _, item, _) =>
      s.Push? && Fits(l, s.rest, db) && s.b.alias == item.alias && s.b.cols == ItemCols(item, db)
  }

  lemma NullIsNotOwn(from: From, who: Option<int>, db: Db)
    ensures HasScoped(from) ==> !OwnScope(from, who, db)(NullScope(from, db))
  {
    match from
    case Nothing =>
    case Join(l, _, item, _) => NullIsNotOwn(l, who, db);
  }

  lemma UnscopedIsOwn(from: From, who: Option<int>, db: Db, s: Scope)
    requires !HasScoped(from) && Fits(from, s, db)
    ensures OwnScope(from, who, db)(s)
  {
    match from
    case Nothing =>
    case Join(l, _, item, _) => UnscopedIsOwn(l, who, db, s.rest);
  }

  lemma OwnScopeRestrict(from: From, who: Option<int>, db: Db, s: Scope)
    ensures OwnScope(from, who, Restrict(db, who))(s) == OwnScope(from, who, db)(s)
  {
    match from
    case Nothing =>
    case Join(l, _, item, _) =>
      if s.Push? {
        OwnScopeRestrict(l, who, db, s.rest);
        if item.Table? {
          OwnRowRestrict(db, who, item.name, s.b.row);
        }
      }
  }

  // ----- Every row of a FROM list fits it -----

  lemma BindRowsFit(alias: string, cols: seq<string>, rows: seq<Row>)
    ensures |BindRows(alias, cols, rows)| == |rows|
    ensures forall i :: 0 <= i < |rows| ==> BindRows(alias, cols, rows)[i] == Binding(alias, cols, rows[i])
  {
    if rows != [] {
      BindRowsFit(alias, cols, rows[1..]);
    }
  }

  lemma BindTuplesFit(alias: string, cols: seq<string>, ts: seq<Tuple>)
    ensures forall b | b in BindTuples(alias, cols, ts) :: b.alias == alias && b.cols == cols
  {
    if ts != [] {
      BindTuplesFit(alias, cols, ts[1..]);
    }
  }

  lemma MatchesMember(l: Scope, bs: seq<Binding>, on: Pred)
    ensures forall s | s in Matches(l, bs, on) :: s.Push? && s.rest == l && s.b in bs && on(s)
  {
    if bs != [] {
      MatchesMember(l, bs[1..], on);
    }
  }

  /** Where each row of a join comes from. */
  lemma ExtendRowsMember(kind: JoinKind, ls: seq<Scope>, bs: seq<Binding>, on: Pred, nullB: Binding)
    ensures forall s | s in ExtendRows(kind, ls, bs, on, nullB) ::
              s.Push? && s.rest in ls && (s.b in bs || (s.b == nullB && KeepsLeft(kind)))
  {
    if ls != [] {
      MatchesMember(ls[0], bs, on);
      ExtendRowsMember(kind, ls[1..], bs, on, nullB);
    }
  }

  lemma RightRowsMember(nullL: Scope, ls: seq<Scope>, bs: seq<Binding>, on: Pred)
    ensures forall s | s in RightRows(nullL, ls, bs, on) :: s.Push? && s.rest == nullL && s.b in bs
  {
    if bs != [] {
      RightRowsMember(nullL, ls, bs[1..], on);
    }
  }

  lemma JoinRowsMember(kind: JoinKind, ls: seq<Scope>, bs: seq<Binding>, on: Pred, nullL: Scope, nullB: Binding)
    ensures forall s | s in JoinRows(kind, ls, bs, on, nullL, nullB) ::
              && s.Push?
              && (s.rest in ls || (s.rest == nullL && KeepsRight(kind)))
              && (s.b in bs || (s.b == nullB && KeepsLeft(kind)))
  {
    ExtendRowsMember(kind, ls, bs, on, nullB);
    RightRowsMember(nullL, ls, bs, on);
  }

  lemma ItemFits(item: Item, db: Db, env: Env)
    ensures forall b | b in EvalItem(item, db, env) :: b.alias == item.alias && b.cols == ItemCols(item, db)
  {
    match item
    case Table(name, alias) => BindRowsFit(alias, TableCols(db, name), TableRows(db, name));
    case Derived(q, alias) => BindTuplesFit(alias, QueryCols(q, db), EvalQ(q, db, env));
  }

  lemma NullFits(from: From, db: Db)
    ensures Fits(from, NullScope(from, db), db)
  {
  }

  lemma AllFit(from: From, db: Db, env: Env)
    ensures forall s | s in EvalF(from, db, env) :: Fits(from, s, db)
  {
    match from
    case Nothing =>
    case Join(l, kind, item, on) =>
      AllFit(l, db, env);
      ItemFits(item, db, env);
      NullFits(l, db);
      JoinRowsMember(kind, EvalF(l, db, env), EvalItem(item, db, env), Keeps(on, db, env),
                     NullScope(l, db), NullBinding(item, db));
  }

  // ----- What the injected predicates say -----

  predicate AllTrue(cs: seq<Cond>, db: Db, env: Env) {
    cs == [] || (EvalC(cs[0], db, env) == True && AllTrue(cs[1..], db, env))
  }

  lemma AllTrueAppend(a: seq<Cond>, b: seq<Cond>, db: Db, env: Env)
    ensures AllTrue(a + b, db, env) <==> AllTrue(a, db, env) && AllTrue(b, db, env)
  {
    if a == [] {
      assert a + b == b;
    } else {
      assert (a + b)[1..] == a[1..] + b;
      AllTrueAppend(a[1..], b, db, env);
    }
  }

  lemma InjectAndMeans(where: Option<Cond>, scope: Cond, db: Db, env: Env, s: Scope)
    ensures Keeps(InjectAnd(where, scope), db, env)(s)
       <==> Keeps(where, db, env)(s) && EvalC(scope, db, In(s, env)) == True
  {
    if where.Some? {
      assert EvalC(And(Paren(where.value), scope), db, In(s, env))
          == AndT(EvalC(Paren(where.value), db, In(s, env)), EvalC(scope, db, In(s, env)));
    }
  }

  /** After injection a row is kept when the original WHERE keeps it and every
      injected predicate is true. */
  lemma InjectAllMeans(where: Option<Cond>, scopes: seq<Cond>, db: Db, env: Env, s: Scope)
    ensures Keeps(InjectAll(where, scopes), db, env)(s)
       <==> Keeps(where, db, env)(s) && AllTrue(scopes, db, In(s, env))
    decreases |scopes|
  {
    if scopes != [] {
      InjectAndMeans(where, scopes[0], db, env, s);
      InjectAllMeans(InjectAnd(where, scopes[0]), scopes[1..], db, env, s);
    }
  }

  predicate DistinctAliases(from: From) {
    match from
    case Nothing => true
    case Join(l, _, item, _) => DistinctAliases(l) && item.alias !in Aliases(l)
  }

  function Aliases(from: From): set<string> {
    match from
    case Nothing => {}
    case Join(l, _, item, _) => Aliases(l) + {item.alias}
  }

  function PersonRefs(from: From): nat {
    match from
    case Nothing => 0
    case Join(l, _, item, _) => PersonRefs(l) + if item.Table? && item.name == "person" then 1 else 0
  }

  lemma InValuesTrue(v: Value, vals: seq<Value>)
    ensures InValues(v, vals) == True <==> exists i :: 0 <= i < |vals| && Compare(Eq, v, vals[i]) == True
  {
    if vals != [] {
      InValuesTrue(v, vals[1..]);
      if InValues(v, vals[1..]) == True {
        var i :| 0 <= i < |vals[1..]| && Compare(Eq, v, vals[1..][i]) == True;
        assert vals[i + 1] == vals[1..][i];
      }
      if i :| 0 <= i < |vals| && Compare(Eq, v, vals[i]) == True {
        if i > 0 {
          assert vals[1..][i - 1] == vals[i];
        }
      }
    }
  }

  // The injected subquery, row by row: the ids of the person_team rows whose person_id is x.

  function TeamTuples(db: Db, rows: seq<Row>, x: int): seq<Tuple> {
    if rows == [] then []
    else if Stored(db, "person_team", rows[0], "person_id") == Int(x)
      then [[Stored(db, "person_team", rows[0], "id")]] + TeamTuples(db, rows[1..], x)
    else TeamTuples(db, rows[1..], x)
  }

  lemma OwnTeamsRows(db: Db, rows: seq<Row>, x: int, env: Env)
    requires TeamColumns(db)
    ensures ProjectRows(OwnTeams(x).proj, Filter(Keeps(OwnTeams(x).where, db, env),
              Matches(Empty, BindRows("person_team", TableCols(db, "person_team"), rows), Keeps(None, db, env))), env)
         == TeamTuples(db, rows, x)
  {
    var q := OwnTeams(x);
    var cols := TableCols(db, "person_team");
    if rows != [] {
      OwnTeamsRows(db, rows[1..], x, env);
      var b := Binding("person_team", cols, rows[0]);
      var s := Push(Empty, b);
      assert FindColumn(s, "person_id") == Some(Get(rows[0], "person_id"));
      assert FindColumn(s, "id") == Some(Get(rows[0], "id"));
      var bs := BindRows("person_team", cols, rows);
      assert bs[1..] == BindRows("person_team", cols, rows[1..]);
      var rest := Matches(Empty, bs[1..], Keeps(None, db, env));
      assert Matches(Empty, bs, Keeps(None, db, env)) == [s] + rest;
      FilterCons(Keeps(q.where, db, env), s, rest);
      var kept := Filter(Keeps(q.where, db, env), rest);
      assert ([s] + kept)[1..] == kept;
      assert TupleOf(q.proj.cols, In(s, env)) == [Get(rows[0], "id")];
    }
  }

  lemma OwnTeamsIs(db: Db, x: int, env: Env)
    requires TeamColumns(db)
    ensures EvalQ(OwnTeams(x), db, env) == TeamTuples(db, TableRows(db, "person_team"), x)
  {
    var q := OwnTeams(x);
    var bs := BindRows("person_team", TableCols(db, "person_team"), TableRows(db, "person_team"));
    var on := Keeps(None, db, env);
    assert EvalF(Nothing, db, env) == [Empty];
    var nullB := NullBinding(q.from.item, db);
    assert ExtendRows(Inner, [Empty], bs, on, nullB)
        == ExtendRow(Inner, Empty, bs, on, nullB) + ExtendRows(Inner, [], bs, on, nullB);
    assert EvalF(q.from, db, env) == Matches(Empty, bs, on);
    OwnTeamsRows(db, TableRows(db, "person_team"), x, env);
  }

  lemma TeamMember(db: Db, rows: seq<Row>, x: int, v: Value)
    ensures v in FirstColumn(TeamTuples(db, rows, x))
       <==> exists i :: 0 <= i < |rows| && Stored(db, "person_team", rows[i], "person_id") == Int(x)
                     && Stored(db, "person_team", rows[i], "id") == v
  {
    if rows != [] {
      TeamMember(db, rows[1..], x, v);
      var rest := TeamTuples(db, rows[1..], x);
      var id := [Stored(db, "person_team", rows[0], "id")];
      assert ([id] + rest)[1..] == rest;
      if v in FirstColumn(rest) {
        var i :| 0 <= i < |rows[1..]| && Stored(db, "person_team", rows[1..][i], "person_id") == Int(x)
              && Stored(db, "person_team", rows[1..][i], "id") == v;
        assert rows[i + 1] == rows[1..][i];
      }
      if i :| 0 <= i < |rows| && Stored(db, "person_team", rows[i], "person_id") == Int(x)
              && Stored(db, "person_team", rows[i], "id") == v {
        if i > 0 {
          assert rows[1..][i - 1] == rows[i];
        }
      }
    }
  }

  lemma TeamFkMeans(db: Db, x: int, alias: string, env: Env)
    requires TeamColumns(db)
    ensures EvalC(TeamFkScope(Some(x), alias), db, env) == True
       <==> OwnTeam(db, Qualified(env, alias, "person_team_id"), x)
  {
    var v := Qualified(env, alias, "person_team_id");
    var ids := FirstColumn(TeamTuples(db, TableRows(db, "person_team"), x));
    OwnTeamsIs(db, x, env);
    InValuesTrue(v, ids);
    TeamMember(db, TableRows(db, "person_team"), x, v);
    if v != Null && v in ids {
      var i :| 0 <= i < |ids| && ids[i] == v;
      assert Compare(Eq, v, ids[i]) == True;
    }
  }

  // Predicates of tables further left do not see a binding added on the right.

  predicate NamesMissing(tables: seq<TableRef>, alias: string) {
    forall i :: 0 <= i < |tables| ==> tables[i].alias != alias
  }

  lemma PersonAliasAppend(a: seq<TableRef>, b: seq<TableRef>)
    ensures PersonAlias(a + b) == if PersonAlias(a).Some? then PersonAlias(a) else PersonAlias(b)
  {
    if a == [] {
      assert a + b == b;
    } else {
      assert (a + b)[1..] == a[1..] + b;
      PersonAliasAppend(a[1..], b);
    }
  }

  lemma PersonAliasMember(tables: seq<TableRef>)
    ensures match PersonAlias(tables)
            case Some(a) => exists i :: 0 <= i < |tables| && tables[i].name == "person" && tables[i].alias == a
            case None => forall i :: 0 <= i < |tables| ==> tables[i].name != "person"
  {
    if tables != [] && tables[0].name != "person" {
      PersonAliasMember(tables[1..]);
      if PersonAlias(tables[1..]).Some? {
        var i :| 0 <= i < |tables[1..]| && tables[1..][i].name == "person"
              && tables[1..][i].alias == PersonAlias(tables).value;
        assert tables[i + 1] == tables[1..][i];
      }
    }
  }

  lemma LinkedScopesWeaken(tables: seq<TableRef>, who: Option<int>, db: Db, rest: Scope, b: Binding, env: Env)
    requires TeamColumns(db) && NamesMissing(tables, b.alias)
    ensures AllTrue(LinkedScopes(tables, who), db, In(Push(rest, b), env))
       <==> AllTrue(LinkedScopes(tables, who), db, In(rest, env))
  {
    if tables != [] {
      LinkedScopesWeaken(tables[1..], who, db, rest, b, env);
      var head := LinkedScopes([tables[0]], who);
      assert tables == [tables[0]] + tables[1..];
      LinkedScopesAppend([tables[0]], tables[1..], who);
      AllTrueAppend(head, LinkedScopes(tables[1..], who), db, In(Push(rest, b), env));
      AllTrueAppend(head, LinkedScopes(tables[1..], who), db, In(rest, env));
      if who.Some? {
        TeamFkMeans(db, who.value, tables[0].alias, In(Push(rest, b), env));
        TeamFkMeans(db, who.value, tables[0].alias, In(rest, env));
      }
    }
  }

  lemma AliasesOfTables(from: From)
    ensures forall i :: 0 <= i < |SelectTables(from)| ==> SelectTables(from)[i].alias in Aliases(from)
  {
  }

  /** The linked-table predicate of one table, at the scope where the table is last. */
  lemma LinkedOne(name: string, alias: string, who: Option<int>, db: Db, rest: Scope, b: Binding, env: Env)
    requires TeamColumns(db) && b.alias == alias && b.cols == TableCols(db, name)
    ensures AllTrue(LinkedScopes([TableRef(name, alias)], who), db, In(Push(rest, b), env))
       <==> (name == "person" || OwnRow(name, b.row, who, db))
  {
    if who.Some? {
      TeamFkMeans(db, who.value, alias, In(Push(rest, b), env));
    }
  }

  /** The person predicate of one SELECT. */
  predicate PersonTrue(from: From, who: Option<int>, db: Db, env: Env) {
    match PersonAlias(SelectTables(from))
    case None => true
    case Some(a) => EvalC(PersonScope(who, a), db, env) == True
  }

  lemma PersonRefsAlias(from: From)
    ensures PersonAlias(SelectTables(from)).None? <==> PersonRefs(from) == 0
  {
    match from
    case Nothing =>
    case Join(l, _, item, _) =>
      PersonRefsAlias(l);
      if item.Table? {
        PersonAliasAppend(SelectTables(l), [TableRef(item.name, item.alias)]);
      }
  }

  /** What one more table adds to the predicates of a FROM list. */
  lemma ScopeStep(from: From, who: Option<int>, db: Db, s: Scope, env: Env)
    requires TeamColumns(db) && Fits(from, s, db) && DistinctAliases(from)
    requires from.Join? && from.item.Table?
    ensures var l, name := from.left, from.item.name; var outer := In(s.rest, env);
      && (AllTrue(LinkedScopes(SelectTables(from), who), db, In(s, env))
          <==> AllTrue(LinkedScopes(SelectTables(l), who), db, outer)
               && (name == "person" || OwnRow(name, s.b.row, who, db)))
      && (PersonTrue(from, who, db, In(s, env))
          <==> if PersonRefs(l) > 0 then PersonTrue(l, who, db, outer)
               else name == "person" ==> OwnRow(name, s.b.row, who, db))
  {
    var l, item := from.left, from.item;
    var tables, last := SelectTables(l), [TableRef(item.name, item.alias)];
    AliasesOfTables(l);
    LinkedScopesWeaken(tables, who, db, s.rest, s.b, env);
    LinkedScopesAppend(tables, last, who);
    AllTrueAppend(LinkedScopes(tables, who), LinkedScopes(last, who), db, In(s, env));
    LinkedOne(item.name, item.alias, who, db, s.rest, s.b, env);
    PersonAliasMember(tables);
    PersonAliasAppend(tables, last);
    PersonRefsAlias(l);
  }

  lemma ScopePredsMeanSplit(from: From, who: Option<int>, db: Db, s: Scope, env: Env)
    requires TeamColumns(db) && Fits(from, s, db) && DistinctAliases(from)
    requires who.None? || PersonRefs(from) <= 1
    ensures PersonTrue(from, who, db, In(s, env)) && AllTrue(LinkedScopes(SelectTables(from), who), db, In(s, env))
       <==> OwnScope(from, who, db)(s)
  {
    match from
    case Nothing =>
    case Join(l, _, Table(_, _), _) =>
      ScopePredsMeanSplit(l, who, db, s.rest, env);
      ScopeStep(from, who, db, s, env);
      PersonRefsAlias(l);
    case Join(l, _, Derived(_, _), _) =>
      ScopePredsMeanSplit(l, who, db, s.rest, env);
      AliasesOfTables(l);
      LinkedScopesWeaken(SelectTables(l), who, db, s.rest, s.b, env);
      PersonAliasMember(SelectTables(l));
  }

  /** The injected predicates are all true of a row of the FROM list exactly when
      every plain table in it contributed an own row. */
  lemma ScopePredsMean(from: From, who: Option<int>, db: Db, s: Scope, env: Env)
    requires TeamColumns(db) && Fits(from, s, db) && DistinctAliases(from)
    requires who.None? || PersonRefs(from) <= 1
    ensures AllTrue(ScopePreds(from, who), db, In(s, env)) <==> OwnScope(from, who, db)(s)
  {
    ScopePredsMeanSplit(from, who, db, s, env);
    var linked := LinkedScopes(SelectTables(from), who);
    var person := match PersonAlias(SelectTables(from)) case Some(a) => [PersonScope(who, a)] case None => [];
    AllTrueAppend(person, linked, db, In(s, env));
  }
}
