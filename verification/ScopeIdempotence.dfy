/** Rewriting twice means the same as rewriting once, and when a second pass is
    accepted at all. */
module ScopeIdempotence {
  import opened Wrappers
  import opened Sql
  import opened SqlEval
  import opened SqlGuard
  import opened ScopeJoin
  import opened OwnRows
  import opened ScopeIsolation
  import opened ScopeView

  function RewriteAll(cs: seq<Cond>, who: Option<int>): seq<Cond> {
    if cs == [] then [] else [RewriteC(cs[0], who)] + RewriteAll(cs[1..], who)
  }

  lemma RewriteInjected(where: Option<Cond>, scopes: seq<Cond>, who: Option<int>)
    ensures RewriteO(InjectAll(where, scopes), who) == InjectAll(RewriteO(where, who), RewriteAll(scopes, who))
    decreases |scopes|
  {
    if scopes != [] {
      if where.Some? {
        assert RewriteC(Paren(where.value), who) == Paren(RewriteC(where.value, who));
      }
      assert RewriteO(InjectAnd(where, scopes[0]), who) == InjectAnd(RewriteO(where, who), RewriteC(scopes[0], who));
      RewriteInjected(InjectAnd(where, scopes[0]), scopes[1..], who);
    }
  }

  lemma RewriteTables(from: From, who: Option<int>)
    ensures SelectTables(RewriteF(from, who)) == SelectTables(from)
  {
  }

  lemma RewriteAllAppend(a: seq<Cond>, b: seq<Cond>, who: Option<int>)
    ensures RewriteAll(a + b, who) == RewriteAll(a, who) + RewriteAll(b, who)
  {
    if a == [] {
      assert a + b == b;
    } else {
      assert (a + b)[1..] == a[1..] + b;
      RewriteAllAppend(a[1..], b, who);
    }
  }

  /** Scoping the injected subquery adds the condition it already has. */
  lemma OwnTeamsTwice(db: Db, x: int, env: Env)
    requires TeamColumns(db)
    ensures EvalQ(RewriteQ(OwnTeams(x), Some(x)), db, env) == EvalQ(OwnTeams(x), db, env)
  {
    var q := OwnTeams(x);
    var scopes := [FkScope(Some(x), "person_team")];
    assert SelectTables(q.from) == [TableRef("person_team", "person_team")];
    assert LinkedScopes([TableRef("person_team", "person_team")], Some(x)) == scopes;
    assert ScopePreds(q.from, Some(x)) == scopes;
    assert RewriteF(q.from, Some(x)) == q.from;
    assert RewriteO(q.where, Some(x)) == q.where;
    assert RewriteQ(q, Some(x)) == Select(q.proj, q.from, InjectAll(q.where, scopes));
    var ss := EvalF(q.from, db, env);
    AllFit(q.from, db, env);
    forall s | s in ss ensures Keeps(InjectAll(q.where, scopes), db, env)(s) == Keeps(q.where, db, env)(s) {
      InjectAllMeans(q.where, scopes, db, env, s);
      assert FindColumn(s, "person_id") == Some(Field(s.b, "person_id"));
    }
    FilterSame(Keeps(InjectAll(q.where, scopes), db, env), Keeps(q.where, db, env), ss);
  }

  lemma LinkedTwice(tables: seq<TableRef>, who: Option<int>, db: Db, env: Env)
    requires TeamColumns(db)
    ensures AllTrue(RewriteAll(LinkedScopes(tables, who), who), db, env) == AllTrue(LinkedScopes(tables, who), db, env)
  {
    if tables != [] {
      LinkedTwice(tables[1..], who, db, env);
      if who.Some? {
        OwnTeamsTwice(db, who.value, env);
      }
      var head := LinkedScopes([tables[0]], who);
      var rest := LinkedScopes(tables[1..], who);
      assert tables == [tables[0]] + tables[1..];
      LinkedScopesAppend([tables[0]], tables[1..], who);
      RewriteAllAppend(head, rest, who);
      AllTrueAppend(head, rest, db, env);
      AllTrueAppend(RewriteAll(head, who), RewriteAll(rest, who), db, env);
    }
  }

  lemma ScopesTwice(from: From, who: Option<int>, db: Db, env: Env)
    requires TeamColumns(db)
    ensures AllTrue(RewriteAll(ScopePreds(from, who), who), db, env) == AllTrue(ScopePreds(from, who), db, env)
  {
    var linked := LinkedScopes(SelectTables(from), who);
    var person := match PersonAlias(SelectTables(from)) case Some(a) => [PersonScope(who, a)] case None => [];
    LinkedTwice(SelectTables(from), who, db, env);
    assert RewriteAll(person, who) == person;
    RewriteAllAppend(person, linked, who);
    AllTrueAppend(person, linked, db, env);
    AllTrueAppend(person, RewriteAll(linked, who), db, env);
  }

  lemma TwiceF(from: From, db: Db, who: Option<int>, env: Env)
    requires TeamColumns(db)
    ensures EvalF(RewriteF(RewriteF(from, who), who), db, env) == EvalF(RewriteF(from, who), db, env)
    decreases from, 2
  {
    match from
    case Nothing =>
    case Join(l, kind, item, on) =>
      var l', i', on' := RewriteF(l, who), RewriteI(item, who), RewriteO(on, who);
      TwiceF(l, db, who, env);
      if item.Derived? {
        TwiceQ(item.q, db, who, env);
      }
      RewriteFromCols(l', db, who);
      RewriteItemCols(i', db, who);
      TwiceO(on, db, who, env);
      SameJoinInputs(kind, EvalF(l', db, env), EvalItem(i', db, env), Keeps(RewriteO(on', who), db, env),
                     Keeps(on', db, env), NullScope(l', db), NullBinding(i', db));
  }

  lemma TwiceO(c: Option<Cond>, db: Db, who: Option<int>, env: Env)
    requires TeamColumns(db)
    ensures SamePred(Keeps(RewriteO(RewriteO(c, who), who), db, env), Keeps(RewriteO(c, who), db, env))
    decreases c, 3
  {
    if c.Some? {
      var c' := RewriteC(c.value, who);
      forall s ensures EvalC(RewriteC(c', who), db, In(s, env)) == EvalC(c', db, In(s, env)) {
        TwiceC(c.value, db, who, In(s, env));
      }
    }
  }

  lemma TwiceC(c: Cond, db: Db, who: Option<int>, env: Env)
    requires TeamColumns(db)
    ensures EvalC(RewriteC(RewriteC(c, who), who), db, env) == EvalC(RewriteC(c, who), db, env)
    decreases c, 2
  {
    match c
    case Cmp(_, _, _) =>
    case IsNull(_) =>
    case Not(d) => TwiceC(d, db, who, env);
    case And(l, r) => TwiceC(l, db, who, env); TwiceC(r, db, who, env);
    case Or(l, r) => TwiceC(l, db, who, env); TwiceC(r, db, who, env);
    case Paren(d) => TwiceC(d, db, who, env);
    case InQuery(_, q) => TwiceQ(q, db, who, env);
    case Exists(q) => TwiceQ(q, db, who, env);
  }

  /** Idempotence: the second pass makes the tree larger and changes no result. */
  lemma {:induction false} TwiceQ(q: Query, db: Db, who: Option<int>, env: Env)
    requires TeamColumns(db)
    ensures EvalQ(RewriteQ(RewriteQ(q, who), who), db, env) == EvalQ(RewriteQ(q, who), db, env)
    decreases q, 2
  {
    match q
    case SetQuery(_, l, r) => TwiceQ(l, db, who, env); TwiceQ(r, db, who, env);
    case Select(proj, from, where) =>
      var from', w, scopes := RewriteF(from, who), RewriteO(where, who), ScopePreds(from, who);
      TwiceF(from, db, who, env);
      TwiceO(where, db, who, env);
      RewriteTables(from, who);
      RewriteInjected(w, scopes, who);
      var once := InjectAll(w, scopes);
      var twice := InjectAll(RewriteO(once, who), scopes);
      var ss := EvalF(from', db, env);
      forall s ensures Keeps(twice, db, env)(s) == Keeps(once, db, env)(s) {
        InjectAllMeans(w, scopes, db, env, s);
        InjectAllMeans(RewriteO(once, who), scopes, db, env, s);
        InjectAllMeans(RewriteO(w, who), RewriteAll(scopes, who), db, env, s);
        ScopesTwice(from, who, db, In(s, env));
      }
      FilterSame(Keeps(twice, db, env), Keeps(once, db, env), ss);
  }

  // ----- When the guard accepts its own output -----

  /** Some SELECT names a table linked through person_team_id. */
  ghost predicate HasTeamFk(selects: set<Query>) {
    exists s, t :: s in selects && s.Select? && t in SelectTables(s.from) && Classify(t.name) == PersonTeamFk
  }

  ghost predicate UsesBare(selects: set<Query>, name: string) {
    exists s :: s in selects && Col(None, name) in DirectCols(s)
  }

  /** The rewritten tree's SELECTs: one per original SELECT, plus one injected
      subquery, the same for all, if anything is scoped through person_team. */
  ghost function Rewritten(selects: set<Query>, who: Option<int>): set<Query> {
    (set s | s in selects && s.Select? :: RewriteQ(s, who))
    + if who.Some? && HasTeamFk(selects) then {OwnTeams(who.value)} else {}
  }

  lemma RewrittenUnion(a: set<Query>, b: set<Query>, who: Option<int>)
    ensures Rewritten(a + b, who) == Rewritten(a, who) + Rewritten(b, who)
  {
    assert HasTeamFk(a + b) <==> HasTeamFk(a) || HasTeamFk(b);
  }

  function SelectsAll(cs: seq<Cond>): set<Query> {
    if cs == [] then {} else SelectsC(cs[0]) + SelectsAll(cs[1..])
  }

  function CondColsAll(cs: seq<Cond>): set<Expr> {
    if cs == [] then {} else CondCols(cs[0]) + CondColsAll(cs[1..])
  }

  lemma InjectAllParts(where: Option<Cond>, scopes: seq<Cond>)
    ensures SelectsO(InjectAll(where, scopes)) == SelectsO(where) + SelectsAll(scopes)
    ensures OptCols(InjectAll(where, scopes)) == OptCols(where) + CondColsAll(scopes)
    decreases |scopes|
  {
    if scopes != [] {
      InjectAndParts(where, scopes[0]);
      InjectAllParts(InjectAnd(where, scopes[0]), scopes[1..]);
    }
  }

  lemma InjectAndParts(where: Option<Cond>, scope: Cond)
    ensures SelectsO(InjectAnd(where, scope)) == SelectsO(where) + SelectsC(scope)
    ensures OptCols(InjectAnd(where, scope)) == OptCols(where) + CondCols(scope)
  {
    if where.Some? {
      assert SelectsC(Paren(where.value)) == SelectsC(where.value);
      assert CondCols(Paren(where.value)) == CondCols(where.value);
    }
  }

  lemma OwnTeamsParts(x: int)
    ensures SelectsQ(OwnTeams(x)) == {OwnTeams(x)}
    ensures DirectCols(OwnTeams(x)) == {Col(None, "id"), Col(None, "person_id")}
    ensures SelectTables(OwnTeams(x).from) == [TableRef("person_team", "person_team")]
  {
    var q := OwnTeams(x);
    assert SelectsC(q.where.value) == {};
    assert q.proj.cols[1..] == [];
    assert OutCols(q.proj.cols) == {Col(None, "id")} + OutCols(q.proj.cols[1..]);
  }

  /** The columns the injected predicates name. */
  const LINK_NAMES: set<string> := {"id", "person_id", "person_team_id"}

  lemma LinkNamesAllowed()
    ensures LINK_NAMES !! FORBIDDEN_COLUMNS
  {
  }

  predicate LinkCol(c: Expr) {
    c.Col? && c.qualifier.Some? && c.name in LINK_NAMES
  }

  predicate RefsTeamFk(tables: seq<TableRef>) {
    exists t :: t in tables && Classify(t.name) == PersonTeamFk
  }

  /** The subqueries a SELECT over these tables is given. */
  function InjectedSelects(tables: seq<TableRef>, who: Option<int>): set<Query> {
    if who.Some? && RefsTeamFk(tables) then {OwnTeams(who.value)} else {}
  }

  lemma LinkedOneParts(t: TableRef, who: Option<int>)
    ensures forall c | c in CondColsAll(LinkedScopes([t], who)) :: LinkCol(c)
    ensures SelectsAll(LinkedScopes([t], who)) == InjectedSelects([t], who)
  {
    assert LinkedScopes([t][1..], who) == [];
    if who.Some? {
      OwnTeamsParts(who.value);
    }
    match Classify(t.name) {
      case PersonFk => assert [FkScope(who, t.alias)][1..] == [];
      case PersonTeamFk => assert [TeamFkScope(who, t.alias)][1..] == []; assert t in [t];
      case _ =>
    }
  }

  lemma PartsAppend(a: seq<Cond>, b: seq<Cond>)
    ensures SelectsAll(a + b) == SelectsAll(a) + SelectsAll(b)
    ensures CondColsAll(a + b) == CondColsAll(a) + CondColsAll(b)
  {
    if a == [] {
      assert a + b == b;
    } else {
      assert (a + b)[1..] == a[1..] + b;
      PartsAppend(a[1..], b);
    }
  }

  lemma LinkedParts(tables: seq<TableRef>, who: Option<int>)
    ensures forall c | c in CondColsAll(LinkedScopes(tables, who)) :: LinkCol(c)
    ensures SelectsAll(LinkedScopes(tables, who)) == InjectedSelects(tables, who)
  {
    if tables != [] {
      assert tables == [tables[0]] + tables[1..];
      LinkedScopesAppend([tables[0]], tables[1..], who);
      PartsAppend(LinkedScopes([tables[0]], who), LinkedScopes(tables[1..], who));
      LinkedOneParts(tables[0], who);
      LinkedParts(tables[1..], who);
      assert RefsTeamFk(tables) <==> RefsTeamFk([tables[0]]) || RefsTeamFk(tables[1..]);
    }
  }

  lemma ScopeParts(from: From, who: Option<int>)
    ensures forall c | c in CondColsAll(ScopePreds(from, who)) :: LinkCol(c)
    ensures SelectsAll(ScopePreds(from, who)) == InjectedSelects(SelectTables(from), who)
  {
    var tables := SelectTables(from);
    var person := match PersonAlias(tables) case Some(a) => [PersonScope(who, a)] case None => [];
    LinkedParts(tables, who);
    PartsAppend(person, LinkedScopes(tables, who));
    if person != [] {
      assert person[1..] == [];
    }
  }

  lemma RewriteCondCols(c: Cond, who: Option<int>)
    ensures CondCols(RewriteC(c, who)) == CondCols(c)
  {
  }

  lemma RewriteOnCols(from: From, who: Option<int>)
    ensures OnCols(RewriteF(from, who)) == OnCols(from)
  {
    match from
    case Nothing =>
    case Join(l, _, _, on) =>
      RewriteOnCols(l, who);
      if on.Some? {
        RewriteCondCols(on.value, who);
      }
  }

  /** What rewriting one SELECT does to its own columns and table names. */
  lemma DirectRewrite(s: Query, who: Option<int>)
    requires s.Select?
    ensures DirectNames(RewriteQ(s, who)) == DirectNames(s)
    ensures DirectCols(s) <= DirectCols(RewriteQ(s, who))
    ensures forall c | c in DirectCols(RewriteQ(s, who)) :: c in DirectCols(s) || LinkCol(c)
  {
    RewriteTables(s.from, who);
    RewriteOnCols(s.from, who);
    ScopeParts(s.from, who);
    InjectAllParts(RewriteO(s.where, who), ScopePreds(s.from, who));
    if s.where.Some? {
      RewriteCondCols(s.where.value, who);
    }
  }

  lemma SelfRewrite(q: Query, who: Option<int>)
    requires q.Select?
    ensures Rewritten({q}, who) == {RewriteQ(q, who)} + InjectedSelects(SelectTables(q.from), who)
  {
    assert HasTeamFk({q}) <==> RefsTeamFk(SelectTables(q.from));
  }

  lemma SelectsRewriteQ(q: Query, who: Option<int>)
    ensures SelectsQ(RewriteQ(q, who)) == Rewritten(SelectsQ(q), who)
    decreases q, 2
  {
    match q
    case SetQuery(_, l, r) =>
      SelectsRewriteQ(l, who);
      SelectsRewriteQ(r, who);
      RewrittenUnion(SelectsQ(l), SelectsQ(r), who);
    case Select(_, from, where) =>
      SelectsRewriteF(from, who);
      SelectsRewriteO(where, who);
      SelfRewrite(q, who);
      RewrittenUnion({q}, SelectsF(from), who);
      RewrittenUnion({q} + SelectsF(from), SelectsO(where), who);
      ScopeParts(from, who);
      InjectAllParts(RewriteO(where, who), ScopePreds(from, who));
  }

  lemma SelectsRewriteF(from: From, who: Option<int>)
    ensures SelectsF(RewriteF(from, who)) == Rewritten(SelectsF(from), who)
    decreases from, 2
  {
    match from
    case Nothing =>
    case Join(l, _, item, on) =>
      SelectsRewriteF(l, who);
      SelectsRewriteO(on, who);
      var i := match item case Table(_, _) => {} case Derived(q, _) => SelectsQ(q);
      if item.Derived? {
        SelectsRewriteQ(item.q, who);
      }
      RewrittenUnion(SelectsF(l), i, who);
      RewrittenUnion(SelectsF(l) + i, SelectsO(on), who);
  }

  lemma SelectsRewriteO(c: Option<Cond>, who: Option<int>)
    ensures SelectsO(RewriteO(c, who)) == Rewritten(SelectsO(c), who)
    decreases c, 3
  {
    if c.Some? {
      SelectsRewriteC(c.value, who);
    }
  }

  lemma SelectsRewriteC(c: Cond, who: Option<int>)
    ensures SelectsC(RewriteC(c, who)) == Rewritten(SelectsC(c), who)
    decreases c, 2
  {
    match c
    case Cmp(_, _, _) =>
    case IsNull(_) =>
    case Not(d) => SelectsRewriteC(d, who);
    case And(l, r) =>
      SelectsRewriteC(l, who);
      SelectsRewriteC(r, who);
      RewrittenUnion(SelectsC(l), SelectsC(r), who);
    case Or(l, r) =>
      SelectsRewriteC(l, who);
      SelectsRewriteC(r, who);
      RewrittenUnion(SelectsC(l), SelectsC(r), who);
    case Paren(d) => SelectsRewriteC(d, who);
    case InQuery(_, q) => SelectsRewriteQ(q, who);
    case Exists(q) => SelectsRewriteQ(q, who);
  }

  lemma StarsRewriteC(c: Cond, who: Option<int>, inExists: bool)
    ensures StarsPassC(RewriteC(c, who), inExists) == StarsPassC(c, inExists)
    decreases c, 2
  {
    match c
    case Cmp(_, _, _) =>
    case IsNull(_) =>
    case Not(d) => StarsRewriteC(d, who, inExists);
    case And(l, r) => StarsRewriteC(l, who, inExists); StarsRewriteC(r, who, inExists);
    case Or(l, r) => StarsRewriteC(l, who, inExists); StarsRewriteC(r, who, inExists);
    case Paren(d) => StarsRewriteC(d, who, inExists);
    case InQuery(_, q) => StarsRewriteQ(q, who, inExists);
    case Exists(q) => StarsRewriteQ(q, who, true);
  }

  lemma StarsRewriteF(from: From, who: Option<int>, inExists: bool)
    ensures StarsPassF(RewriteF(from, who), inExists) == StarsPassF(from, inExists)
    decreases from, 2
  {
    match from
    case Nothing =>
    case Join(l, _, item, on) =>
      StarsRewriteF(l, who, inExists);
      if item.Derived? {
        StarsRewriteQ(item.q, who, inExists);
      }
      if on.Some? {
        StarsRewriteC(on.value, who, inExists);
      }
  }

  predicate StarFree(cs: seq<Cond>) {
    forall i, b :: 0 <= i < |cs| ==> StarsPassC(cs[i], b)
  }

  lemma InjectAllStars(where: Option<Cond>, scopes: seq<Cond>, inExists: bool)
    requires StarFree(scopes)
    ensures StarsPassO(InjectAll(where, scopes), inExists) == StarsPassO(where, inExists)
    decreases |scopes|
  {
    if scopes != [] {
      assert StarsPassC(scopes[0], inExists);
      if where.Some? {
        assert StarsPassC(Paren(where.value), inExists) == StarsPassC(where.value, inExists);
      }
      InjectAllStars(InjectAnd(where, scopes[0]), scopes[1..], inExists);
    }
  }

  lemma LinkedStarFree(tables: seq<TableRef>, who: Option<int>)
    ensures StarFree(LinkedScopes(tables, who))
  {
    if tables != [] {
      LinkedStarFree(tables[1..], who);
      if who.Some? {
        forall b ensures StarsPassQ(OwnTeams(who.value), b) {
          assert StarsPassC(OwnTeams(who.value).where.value, b);
        }
      }
    }
  }

  lemma StarsRewriteQ(q: Query, who: Option<int>, inExists: bool)
    ensures StarsPassQ(RewriteQ(q, who), inExists) == StarsPassQ(q, inExists)
    decreases q, 2
  {
    match q
    case SetQuery(_, l, r) => StarsRewriteQ(l, who, inExists); StarsRewriteQ(r, who, inExists);
    case Select(_, from, where) =>
      StarsRewriteF(from, who, inExists);
      if where.Some? {
        StarsRewriteC(where.value, who, inExists);
      }
      LinkedStarFree(SelectTables(from), who);
      assert StarFree(ScopePreds(from, who));
      InjectAllStars(RewriteO(where, who), ScopePreds(from, who), inExists);
  }

  /** Where a SELECT of the rewritten tree comes from: an original one, or (when
      `injected`) the injected subquery. */
  lemma Origin(q: Query, who: Option<int>, s': Query) returns (injected: bool, s: Query)
    requires s' in SelectsQ(RewriteQ(q, who))
    ensures !injected ==> s in SelectsQ(q) && s.Select? && s' == RewriteQ(s, who)
    ensures injected ==> who.Some? && HasTeamFk(SelectsQ(q)) && s' == OwnTeams(who.value)
  {
    SelectsRewriteQ(q, who);
    if o :| o in SelectsQ(q) && o.Select? && s' == RewriteQ(o, who) {
      injected, s := false, o;
    } else {
      injected, s := true, q;
    }
  }

  lemma TeamInjected(q: Query, who: Option<int>)
    requires who.Some? && HasTeamFk(SelectsQ(q))
    ensures OwnTeams(who.value) in SelectsQ(RewriteQ(q, who))
  {
    SelectsRewriteQ(q, who);
  }

  lemma Kept(q: Query, who: Option<int>, s: Query)
    requires s in SelectsQ(q) && s.Select?
    ensures RewriteQ(s, who) in SelectsQ(RewriteQ(q, who))
  {
    SelectsRewriteQ(q, who);
  }

  lemma NamesKept(q: Query, who: Option<int>, n: string)
    requires n in TableNames(q)
    ensures n in TableNames(RewriteQ(q, who))
  {
    SelectsRewriteQ(q, who);
    var s :| s in SelectsQ(q) && n in DirectNames(s);
    DirectRewrite(s, who);
    assert RewriteQ(s, who) in SelectsQ(RewriteQ(q, who)) && n in DirectNames(RewriteQ(s, who));
  }

  lemma TeamNamed(x: int)
    ensures DirectNames(OwnTeams(x)) == {"person_team"}
  {
    OwnTeamsParts(x);
    assert TableRef("person_team", "person_team") in SelectTables(OwnTeams(x).from);
  }

  lemma NamesAdded(q: Query, who: Option<int>, n: string)
    requires n in TableNames(RewriteQ(q, who)) && n !in TableNames(q)
    ensures n == "person_team" && who.Some? && HasTeamFk(SelectsQ(q))
  {
    var s' :| s' in SelectsQ(RewriteQ(q, who)) && n in DirectNames(s');
    var injected, s := Origin(q, who, s');
    if injected {
      TeamNamed(who.value);
    } else {
      DirectRewrite(s, who);
    }
  }

  lemma NamesRewrite(q: Query, who: Option<int>)
    ensures TableNames(RewriteQ(q, who))
         == TableNames(q) + if who.Some? && HasTeamFk(SelectsQ(q)) then {"person_team"} else {}
  {
    forall n | n in TableNames(q) ensures n in TableNames(RewriteQ(q, who)) { NamesKept(q, who, n); }
    forall n | n in TableNames(RewriteQ(q, who)) && n !in TableNames(q)
      ensures n == "person_team" && who.Some? && HasTeamFk(SelectsQ(q)) { NamesAdded(q, who, n); }
    if who.Some? && HasTeamFk(SelectsQ(q)) {
      SelectsRewriteQ(q, who);
      TeamNamed(who.value);
      assert OwnTeams(who.value) in SelectsQ(RewriteQ(q, who)) && "person_team" in DirectNames(OwnTeams(who.value));
    }
  }

  /** When the second pass's column check accepts what the first pass produced. */
  ghost predicate RewritableAgain(q: Query, who: Option<int>) {
    who.Some? && HasTeamFk(SelectsQ(q)) ==>
      "id" !in TableNames(q) && "person_id" !in TableNames(q) && !UsesBare(SelectsQ(q), "person_team")
  }

  lemma BareKept(q: Query, who: Option<int>, names: set<string>, forbidden: set<string>, name: string)
    requires UsesBare(SelectsQ(q), name)
    requires ColumnsPass(SelectsQ(RewriteQ(q, who)), names, forbidden)
    ensures name !in names
  {
    var s :| s in SelectsQ(q) && Col(None, name) in DirectCols(s);
    Kept(q, who, s);
    DirectRewrite(s, who);
    assert ColumnPasses(Col(None, name), names, forbidden);
  }

  lemma InjectedBare(q: Query, who: Option<int>, names: set<string>, forbidden: set<string>, name: string)
    requires who.Some? && HasTeamFk(SelectsQ(q)) && Col(None, name) in DirectCols(OwnTeams(who.value))
    requires ColumnsPass(SelectsQ(RewriteQ(q, who)), names, forbidden)
    ensures name !in names
  {
    TeamInjected(q, who);
    assert ColumnPasses(Col(None, name), names, forbidden);
  }

  lemma AgainNeeds(q: Query, who: Option<int>, names: set<string>, forbidden: set<string>)
    requires who.Some? && HasTeamFk(SelectsQ(q)) && "person_team" in names
    requires ColumnsPass(SelectsQ(RewriteQ(q, who)), names, forbidden)
    ensures "id" !in names && "person_id" !in names && !UsesBare(SelectsQ(q), "person_team")
  {
    OwnTeamsParts(who.value);
    InjectedBare(q, who, names, forbidden, "id");
    InjectedBare(q, who, names, forbidden, "person_id");
    if UsesBare(SelectsQ(q), "person_team") {
      BareKept(q, who, names, forbidden, "person_team");
    }
  }

  lemma AgainSuffices(q: Query, who: Option<int>, names: set<string>, names': set<string>, forbidden: set<string>,
                     s': Query, c: Expr)
    requires ColumnsPass(SelectsQ(q), names, forbidden) && LINK_NAMES !! forbidden
    requires names' == names || (names' == names + {"person_team"} && !UsesBare(SelectsQ(q), "person_team"))
    requires who.Some? && HasTeamFk(SelectsQ(q)) ==> "id" !in names && "person_id" !in names
    requires s' in SelectsQ(RewriteQ(q, who)) && c in DirectCols(s')
    ensures ColumnPasses(c, names', forbidden)
  {
    var injected, s := Origin(q, who, s');
    if injected {
      OwnTeamsParts(who.value);
    } else {
      DirectRewrite(s, who);
      if c in DirectCols(s) {
        assert ColumnPasses(c, names, forbidden);
      }
    }
  }

  lemma ColumnsRewrite(q: Query, who: Option<int>, forbidden: set<string>)
    requires ColumnsPass(SelectsQ(q), TableNames(q), forbidden) && LINK_NAMES !! forbidden
    ensures ColumnsPass(SelectsQ(RewriteQ(q, who)), TableNames(RewriteQ(q, who)), forbidden)
       <==> RewritableAgain(q, who)
  {
    var names, names' := TableNames(q), TableNames(RewriteQ(q, who));
    NamesRewrite(q, who);
    if ColumnsPass(SelectsQ(RewriteQ(q, who)), names', forbidden) && who.Some? && HasTeamFk(SelectsQ(q)) {
      AgainNeeds(q, who, names', forbidden);
    }
    if RewritableAgain(q, who) {
      forall s', c | s' in SelectsQ(RewriteQ(q, who)) && c in DirectCols(s')
        ensures ColumnPasses(c, names', forbidden)
      {
        AgainSuffices(q, who, names, names', forbidden, s', c);
      }
    }
  }

  lemma ClassifiedRewrite(q: Query, who: Option<int>)
    requires AllClassified(SelectsQ(q))
    ensures AllClassified(SelectsQ(RewriteQ(q, who)))
  {
    forall s', t | s' in SelectsQ(RewriteQ(q, who)) && s'.Select? && t in SelectTables(s'.from)
      ensures Classify(t.name) != Unclassified
    {
      var injected, s := Origin(q, who, s');
      if injected {
        OwnTeamsParts(who.value);
      } else {
        RewriteTables(s.from, who);
      }
    }
  }

  /** A statement the guard accepted can be guarded again exactly when its table
      names do not collide with the injected subquery's columns, and no bare column
      of it is called person_team; the result then means the same. */
  lemma GuardTwice(q: Query, ctx: Option<Context>)
    requires Restricted(ctx) && Guard(q, ctx).Ok?
    ensures Guard(Guard(q, ctx).value, ctx).Ok? <==> RewritableAgain(q, ctx.value.personId)
    ensures Guard(Guard(q, ctx).value, ctx).Ok? ==>
              forall db, env | TeamColumns(db) ::
                EvalQ(Guard(Guard(q, ctx).value, ctx).value, db, env) == EvalQ(Guard(q, ctx).value, db, env)
  {
    var who := ctx.value.personId;
    LinkNamesAllowed();
    ColumnsRewrite(q, who, FORBIDDEN_COLUMNS);
    StarsRewriteQ(q, who, false);
    ClassifiedRewrite(q, who);
    forall db, env | TeamColumns(db)
      ensures EvalQ(RewriteQ(RewriteQ(q, who), who), db, env) == EvalQ(RewriteQ(q, who), db, env)
    {
      TwiceQ(q, db, who, env);
    }
  }

  // ----- A statement that is refused the second time -----

  /** `SELECT id.hours FROM person_week_project AS id` */
  const ALIASED_ID: Query :=
    Select(Columns([OutCol(Col(Some("id"), "hours"), "hours")]),
           Join(Nothing, Inner, Table("person_week_project", "id"), None), None)

  lemma AliasedIdParts()
    ensures SelectsQ(ALIASED_ID) == {ALIASED_ID} && DirectCols(ALIASED_ID) == {Col(Some("id"), "hours")}
    ensures SelectTables(ALIASED_ID.from) == [TableRef("person_week_project", "id")]
    ensures StarsPassQ(ALIASED_ID, false)
  {
    var q := ALIASED_ID;
    assert q.proj.cols[1..] == [] && OutCols(q.proj.cols) == ExprCols(q.proj.cols[0].e) + OutCols(q.proj.cols[1..]);
    assert SelectsF(Nothing) == {} && SelectsO(None) == {} && SelectsF(q.from) == {};
    assert OnCols(Nothing) == {} && OptCols(None) == {};
    assert StarsPassF(Nothing, false) && StarsPassO(None, false) && StarsPassF(q.from, false);
    assert SelectTables(Nothing) == [];
  }

  /** It is accepted, and what it is rewritten to is not: the injected `id` is taken for
      the row of the table that goes by that name. */
  lemma RefusedTheSecondTime(ctx: Option<Context>)
    requires Restricted(ctx) && ctx.value.personId.Some?
    ensures Guard(ALIASED_ID, ctx).Ok?
    ensures Guard(Guard(ALIASED_ID, ctx).value, ctx) == Err(BlockedColumn)
  {
    AliasedIdParts();
    assert "hours" !in FORBIDDEN_COLUMNS;
    var t := TableRef("person_week_project", "id");
    assert Classify(t.name) == PersonTeamFk && t in SelectTables(ALIASED_ID.from);
    assert HasTeamFk(SelectsQ(ALIASED_ID));
    assert "id" in DirectNames(ALIASED_ID);
    LinkNamesAllowed();
    ColumnsRewrite(ALIASED_ID, ctx.value.personId, FORBIDDEN_COLUMNS);
  }
}
