/** Stars pass the guard anywhere below an EXISTS.  Where they stand there decides
    whether forbidden columns can influence the result. */
module StarPositions {
  import opened Wrappers
  import opened Sql
  import opened SqlEval
  import opened SqlGuard
  import opened ScopeJoin
  import opened OwnRows
  import opened ForbiddenColumns

  // ----- Positions -----

  /** Where a SELECT stands: as an EXISTS body, as an arm of a union that is one, as an
      arm of an INTERSECT or EXCEPT below an EXISTS body, as the body of IN, as a derived
      table, or in none of these places. */
  datatype Position = Body | UnionArm | OtherArm | InBody | DerivedBody | Free

  function Arm(op: SetOp, at: Position): Position {
    if at == Body || at == UnionArm then (if op == Union || op == UnionAll then UnionArm else OtherArm) else at
  }

  /** Every star projection of q, which stands at `at`, is at one of these positions. */
  predicate StarsAtQ(q: Query, at: Position, allowed: set<Position>)
    decreases q, 0
  {
    match q
    case Select(proj, from, where) =>
      (proj.Star? ==> at in allowed) && StarsAtF(from, allowed) && StarsAtO(where, allowed)
    case SetQuery(op, l, r) => StarsAtQ(l, Arm(op, at), allowed) && StarsAtQ(r, Arm(op, at), allowed)
  }

  predicate StarsAtF(from: From, allowed: set<Position>)
    decreases from, 0
  {
    match from
    case Nothing => true
    case Join(l, _, item, on) =>
      && StarsAtF(l, allowed)
      && (match item case Table(_, _) => true case Derived(q, _) => StarsAtQ(q, DerivedBody, allowed))
      && StarsAtO(on, allowed)
  }

  predicate StarsAtO(c: Option<Cond>, allowed: set<Position>)
    decreases c, 1
  {
    match c case None => true case Some(d) => StarsAtC(d, allowed)
  }

  predicate StarsAtC(c: Cond, allowed: set<Position>)
    decreases c, 0
  {
    match c
    case Cmp(_, _, _) => true
    case IsNull(_) => true
    case Not(d) => StarsAtC(d, allowed)
    case And(l, r) => StarsAtC(l, allowed) && StarsAtC(r, allowed)
    case Or(l, r) => StarsAtC(l, allowed) && StarsAtC(r, allowed)
    case Paren(d) => StarsAtC(d, allowed)
    case InQuery(_, q) => StarsAtQ(q, InBody, allowed)
    case Exists(q) => StarsAtQ(q, Body, allowed)
  }

  const LEAKY: set<Position> := {OtherArm, InBody, DerivedBody}

  // ----- Harmless positions -----

  /** Accepted stars at harmless positions are those that `PlainStarsQ` describes. */
  lemma {:induction false} HarmlessQ(q: Query, at: Position, allowed: set<Position>, inExists: bool)
    requires allowed !! LEAKY && StarsAtQ(q, at, allowed) && StarsPassQ(q, inExists) && (at == Free ==> !inExists)
    ensures at != Body && at != UnionArm ==> PlainStarsQ(q)
    ensures StarBody(q)
    decreases q, 2
  {
    match q
    case Select(_, from, where) =>
      HarmlessF(from, allowed, inExists);
      HarmlessO(where, allowed, inExists);
    case SetQuery(op, l, r) =>
      HarmlessQ(l, Arm(op, at), allowed, inExists);
      HarmlessQ(r, Arm(op, at), allowed, inExists);
      if !(op == Union || op == UnionAll) {
        assert Arm(op, at) != Body && Arm(op, at) != UnionArm;
      }
  }

  lemma HarmlessF(from: From, allowed: set<Position>, inExists: bool)
    requires allowed !! LEAKY && StarsAtF(from, allowed) && StarsPassF(from, inExists)
    ensures PlainStarsF(from)
    decreases from, 2
  {
    match from
    case Nothing =>
    case Join(l, _, item, on) =>
      HarmlessF(l, allowed, inExists);
      if item.Derived? {
        HarmlessQ(item.q, DerivedBody, allowed, inExists);
      }
      HarmlessO(on, allowed, inExists);
  }

  lemma HarmlessO(c: Option<Cond>, allowed: set<Position>, inExists: bool)
    requires allowed !! LEAKY && StarsAtO(c, allowed) && StarsPassO(c, inExists)
    ensures PlainStarsO(c)
    decreases c, 3
  {
    if c.Some? {
      HarmlessC(c.value, allowed, inExists);
    }
  }

  lemma HarmlessC(c: Cond, allowed: set<Position>, inExists: bool)
    requires allowed !! LEAKY && StarsAtC(c, allowed) && StarsPassC(c, inExists)
    ensures PlainStarsC(c)
    decreases c, 2
  {
    match c
    case Cmp(_, _, _) =>
    case IsNull(_) =>
    case Not(d) => HarmlessC(d, allowed, inExists);
    case And(l, r) => HarmlessC(l, allowed, inExists); HarmlessC(r, allowed, inExists);
    case Or(l, r) => HarmlessC(l, allowed, inExists); HarmlessC(r, allowed, inExists);
    case Paren(d) => HarmlessC(d, allowed, inExists);
    case InQuery(_, q) => HarmlessQ(q, InBody, allowed, inExists);
    case Exists(q) => HarmlessQ(q, Body, allowed, true);
  }

  // ----- Leaky positions -----

  function StarOf(t: string): Query {
    Select(Star, Join(Nothing, Inner, Table(t, t), None), None)
  }

  function One(from: From, where: Cond): Query {
    Select(Columns([OutCol(Lit(Int(1)), "one")]), from, Some(where))
  }

  /** `SELECT 1 WHERE EXISTS (...)` with, by position,
      `SELECT * FROM department INTERSECT SELECT * FROM team`,
      `SELECT 1 WHERE 1 IN (SELECT * FROM team)`, or
      `SELECT 1 FROM (SELECT * FROM team) AS d WHERE d = ROW(1)`. */
  function LeakBody(p: Position, op: SetOp, f: string): Query {
    match p
    case InBody => One(Nothing, InQuery(Lit(Int(1)), StarOf("team")))
    case DerivedBody =>
      One(Join(Nothing, Inner, Derived(StarOf("team"), "d"), None),
          Cmp(Eq, Col(None, "d"), Lit(Record(map[f := Int(1)]))))
    case _ => SetQuery(op, StarOf("department"), StarOf("team"))
  }

  function Leak(p: Position, op: SetOp, f: string): Query {
    One(Nothing, Exists(LeakBody(p, op, f)))
  }

  /** One department and one team, with the values 1 and w in a column f. */
  function Cells(f: string, w: int): Db {
    Db(map["department" := [f], "team" := [f], "person_team" := ["id", "person_id"]],
       map["department" := [map[f := Int(1)]], "team" := [map[f := Int(w)]]])
  }

  lemma AllMatch(bs: seq<Binding>, on: Pred)
    requires forall s :: on(s)
    ensures |Matches(Empty, bs, on)| == |bs|
  {
    if bs != [] {
      AllMatch(bs[1..], on);
    }
  }

  lemma StarOfIs(t: string, db: Db, env: Env)
    ensures EvalQ(StarOf(t), db, env)
         == ProjectRows(Star, Matches(Empty, BindRows(t, TableCols(db, t), TableRows(db, t)), Keeps(None, db, env)),
                        env)
    ensures EvalQ(StarOf(t), db, env) == [] <==> TableRows(db, t) == []
  {
    var q := StarOf(t);
    var bs := BindRows(t, TableCols(db, t), TableRows(db, t));
    var on := Keeps(None, db, env);
    var nullB := NullBinding(q.from.item, db);
    assert EvalF(Nothing, db, env) == [Empty];
    assert ExtendRows(Inner, [Empty], bs, on, nullB)
        == ExtendRow(Inner, Empty, bs, on, nullB) + ExtendRows(Inner, [], bs, on, nullB);
    var ss := Matches(Empty, bs, on);
    assert EvalF(q.from, db, env) == ss;
    FilterAll(on, ss);
    AllMatch(bs, on);
    BindRowsFit(t, TableCols(db, t), TableRows(db, t));
    ProjectLength(Star, ss, env);
  }

  lemma OneCell(t: string, f: string, v: int, db: Db, env: Env)
    requires TableCols(db, t) == [f] && TableRows(db, t) == [map[f := Int(v)]]
    ensures EvalQ(StarOf(t), db, env) == [[Int(v)]]
  {
    StarOfIs(t, db, env);
    var on := Keeps(None, db, env);
    var b := Binding(t, [f], map[f := Int(v)]);
    assert TableRows(db, t)[1..] == [];
    assert BindRows(t, [f], TableRows(db, t)) == [b];
    assert [b][1..] == [] && Matches(Empty, [b], on) == [Push(Empty, b)];
    assert [f][1..] == [] && Fields(b, [f]) == [Int(v)] + Fields(b, [f][1..]);
    assert StarTuple(Push(Empty, b)) == StarTuple(Empty) + Fields(b, [f]);
    var ss := [Push(Empty, b)];
    assert ss[1..] == [] && StarTuple(ss[0]) == [Int(v)];
    assert ProjectRows(Star, ss, env) == [ProjectRow(Star, ss[0], env)] + ProjectRows(Star, ss[1..], env);
  }

  lemma CombineCells(op: SetOp, v: int, w: int)
    requires op == Intersect || op == Except
    ensures Combine(op, [[Int(v)]], [[Int(w)]]) == [] <==> ((op == Intersect) <==> (v != w))
  {
    var t: Tuple, u: Tuple := [Int(v)], [Int(w)];
    assert t == u <==> v == w by { assert t[0] == Int(v) && u[0] == Int(w); }
    assert [t][1..] == [];
    assert KeepIn([t], [u], op == Intersect) == if (t in [u]) == (op == Intersect) then [t] else [];
    DistinctEmpty(KeepIn([t], [u], op == Intersect));
  }

  /** `SELECT 1 FROM from WHERE c` on a FROM list of one row. */
  lemma OneIs(from: From, c: Cond, db: Db, env: Env, s: Scope)
    requires EvalF(from, db, env) == [s]
    ensures EvalQ(One(from, c), db, env) == if EvalC(c, db, In(s, env)) == True then [[Int(1)]] else []
  {
    var proj := One(from, c).proj;
    var keep := Keeps(Some(c), db, env);
    assert proj.cols[1..] == [] && TupleOf(proj.cols, In(s, env)) == [Int(1)];
    assert [s][1..] == [] && Filter(keep, [s]) == if keep(s) then [s] else [];
    assert ProjectRows(proj, [s], env) == [ProjectRow(proj, s, env)] + ProjectRows(proj, [s][1..], env);
  }

  lemma DerivedTeam(f: string, w: int, env: Env)
    ensures var from := Join(Nothing, Inner, Derived(StarOf("team"), "d"), None);
            EvalF(from, Cells(f, w), env) == [Push(Empty, Binding("d", [f], map[f := Int(w)]))]
  {
    var db := Cells(f, w);
    var item := Derived(StarOf("team"), "d");
    var b := Binding("d", [f], map[f := Int(w)]);
    var on := Keeps(None, db, env);
    OneCell("team", f, w, db, env);
    assert FromCols(Join(Nothing, Inner, Table("team", "team"), None), db) == FromCols(Nothing, db) + [f] == [f];
    var t: Tuple := [Int(w)];
    assert [f][1..] == [] && t[1..] == [] && RowOf([f], t) == RowOf([f][1..], t[1..])[f := Int(w)];
    assert [t][1..] == [] && BindTuples("d", [f], [t]) == [b];
    assert EvalItem(item, db, env) == [b];
    assert [b][1..] == [] && Matches(Empty, [b], on) == [Push(Empty, b)];
    assert EvalF(Nothing, db, env) == [Empty];
    assert ExtendRows(Inner, [Empty], [b], on, NullBinding(item, db))
        == ExtendRow(Inner, Empty, [b], on, NullBinding(item, db))
           + ExtendRows(Inner, [], [b], on, NullBinding(item, db));
  }

  lemma ArmOutcome(op: SetOp, f: string, w: int, env: Env)
    requires op == Intersect || op == Except
    ensures EvalQ(LeakBody(OtherArm, op, f), Cells(f, w), env) == [] <==> ((op == Intersect) <==> (w != 1))
  {
    OneCell("department", f, 1, Cells(f, w), env);
    OneCell("team", f, w, Cells(f, w), env);
    CombineCells(op, 1, w);
  }

  lemma InOutcome(op: SetOp, f: string, w: int, env: Env)
    ensures EvalQ(LeakBody(InBody, op, f), Cells(f, w), env) == [] <==> w != 1
  {
    var db := Cells(f, w);
    assert EvalF(Nothing, db, env) == [Empty];
    OneIs(Nothing, InQuery(Lit(Int(1)), StarOf("team")), db, env, Empty);
    OneCell("team", f, w, db, In(Empty, env));
    var ts: seq<Tuple> := [[Int(w)]];
    var vals := [Int(w)];
    assert ts[1..] == [] && FirstColumn(ts) == [Int(w)] + FirstColumn(ts[1..]);
    assert vals[1..] == [] && InValues(Int(1), vals) == OrT(Compare(Eq, Int(1), Int(w)), InValues(Int(1), vals[1..]));
  }

  /** The bare name d is the whole row of the derived table. */
  lemma RowIsRecord(f: string, w: int, env: Env)
    requires f != "d" && BareColumn(env, "d").None?
    ensures var s := Push(Empty, Binding("d", [f], map[f := Int(w)]));
            EvalE(Col(None, "d"), In(s, env)) == Record(map[f := Int(w)])
  {
    var b := Binding("d", [f], map[f := Int(w)]);
    assert FindColumn(Push(Empty, b), "d").None? by { assert FindColumn(Empty, "d").None?; }
    assert WholeRow(b) == Record(map[f := Int(w)]);
  }

  lemma SameRecord(f: string, v: int, w: int)
    ensures map[f := Int(v)] == map[f := Int(w)] <==> v == w
  {
    assert map[f := Int(v)][f] == Int(v) && map[f := Int(w)][f] == Int(w);
  }

  lemma DerivedOutcome(op: SetOp, f: string, w: int, env: Env)
    requires f != "d" && BareColumn(env, "d").None?
    ensures EvalQ(LeakBody(DerivedBody, op, f), Cells(f, w), env) == [] <==> w != 1
  {
    var s := Push(Empty, Binding("d", [f], map[f := Int(w)]));
    var q := LeakBody(DerivedBody, op, f);
    DerivedTeam(f, w, env);
    OneIs(q.from, q.where.value, Cells(f, w), env, s);
    RowIsRecord(f, w, env);
    SameRecord(f, w, 1);
  }

  /** Whether the body has rows tells whether the value is 1. */
  lemma BodyOutcome(p: Position, op: SetOp, f: string, w: int, env: Env)
    requires p in LEAKY && (op == Intersect || op == Except) && f != "d" && BareColumn(env, "d").None?
    ensures EvalQ(LeakBody(p, op, f), Cells(f, w), env) == [] <==> ((p == OtherArm && op == Except) <==> (w == 1))
  {
    match p
    case OtherArm => ArmOutcome(op, f, w, env);
    case InBody => InOutcome(op, f, w, env);
    case DerivedBody => DerivedOutcome(op, f, w, env);
  }

  /** And so does whether the statement has. */
  lemma LeakOutcome(p: Position, op: SetOp, f: string, w: int)
    requires p in LEAKY && (op == Intersect || op == Except) && f != "d"
    ensures EvalQ(Leak(p, op, f), Cells(f, w), Top) == [] <==> ((p == OtherArm && op == Except) <==> (w == 1))
  {
    var body, env := LeakBody(p, op, f), In(Empty, Top);
    assert BareColumn(env, "d").None? by { assert BareColumn(Top, "d").None?; }
    BodyOutcome(p, op, f, w, env);
    ExistsIs(body, Cells(f, w));
  }

  lemma ExistsIs(body: Query, db: Db)
    ensures EvalQ(One(Nothing, Exists(body)), db, Top) == [] <==> EvalQ(body, db, In(Empty, Top)) == []
  {
    assert EvalF(Nothing, db, Top) == [Empty];
    OneIs(Nothing, Exists(body), db, Top, Empty);
  }

  // ----- The guard accepts them as they are -----

  lemma StarOfParts(t: string, who: Option<int>)
    requires t == "department" || t == "team"
    ensures SelectsQ(StarOf(t)) == {StarOf(t)} && DirectCols(StarOf(t)) == {} && DirectNames(StarOf(t)) == {t}
    ensures StarsPassQ(StarOf(t), true) && RewriteQ(StarOf(t), who) == StarOf(t)
    ensures SelectTables(StarOf(t).from) == [TableRef(t, t)] && Classify(t) == PersonFree
  {
    var from := StarOf(t).from;
    assert SelectsF(Nothing) == {} && SelectsO(None) == {} && SelectsF(from) == {};
    assert OnCols(Nothing) == {} && OptCols(None) == {};
    assert StarsPassF(Nothing, true) && StarsPassO(None, true) && StarsPassF(from, true);
    assert SelectTables(Nothing) == [] && SelectTables(from) == [TableRef(t, t)];
    assert [TableRef(t, t)][1..] == [];
    assert Classify(t) == PersonFree && LinkedFor(TableRef(t, t), who) == [];
    assert LinkedScopes([TableRef(t, t)], who) == LinkedFor(TableRef(t, t), who) + LinkedScopes([], who);
    assert PersonAlias([TableRef(t, t)]) == PersonAlias([]);
    assert ScopePreds(from, who) == [];
  }

  lemma NoTables(who: Option<int>)
    ensures SelectTables(Nothing) == [] && ScopePreds(Nothing, who) == []
    ensures SelectsF(Nothing) == {} && OnCols(Nothing) == {} && StarsPassF(Nothing, true) && StarsPassF(Nothing, false)
  {
    assert LinkedScopes([], who) == [] && PersonAlias([]).None?;
  }

  lemma OneParts(from: From, c: Cond)
    ensures SelectsQ(One(from, c)) == {One(from, c)} + SelectsF(from) + SelectsC(c)
    ensures DirectCols(One(from, c)) == OnCols(from) + CondCols(c)
  {
    var cols := One(from, c).proj.cols;
    assert cols[1..] == [] && OutCols(cols) == ExprCols(cols[0].e) + OutCols(cols[1..]);
    assert SelectsO(Some(c)) == SelectsC(c);
  }

  /** A SELECT of lookup tables that names no column but d. */
  predicate Tame(s: Query) {
    && s.Select? && DirectCols(s) <= {Col(None, "d")} && DirectNames(s) <= {"department", "team"}
    && forall t | t in SelectTables(s.from) :: Classify(t.name) == PersonFree
  }

  lemma TamePasses(q: Query)
    requires forall s | s in SelectsQ(q) :: Tame(s)
    ensures ColumnsPass(SelectsQ(q), TableNames(q), FORBIDDEN_COLUMNS) && AllClassified(SelectsQ(q))
  {
    forall n | n in TableNames(q) ensures n != "d" {
      var s :| s in SelectsQ(q) && n in DirectNames(s);
      assert Tame(s);
    }
    assert "d" !in FORBIDDEN_COLUMNS;
    forall s, c | s in SelectsQ(q) && c in DirectCols(s) ensures c == Col(None, "d") {
      assert Tame(s);
    }
  }

  lemma StarIsTame(t: string)
    requires t == "department" || t == "team"
    ensures Tame(StarOf(t))
  {
    StarOfParts(t, None);
  }

  /** The SELECTs of a body: two stars, or one around a star. */
  lemma BodyParts(p: Position, op: SetOp, f: string, who: Option<int>)
    requires p in LEAKY
    ensures RewriteQ(LeakBody(p, op, f), who) == LeakBody(p, op, f) && StarsPassQ(LeakBody(p, op, f), true)
    ensures forall s | s in SelectsQ(LeakBody(p, op, f)) :: Tame(s)
  {
    var q := LeakBody(p, op, f);
    StarIsTame("team");
    match p
    case OtherArm =>
      StarIsTame("department");
      StarOfParts("department", who);
      StarOfParts("team", who);
    case InBody => InParts(q, who);
    case DerivedBody => DerivedParts(q, f, who);
  }

  lemma InParts(q: Query, who: Option<int>)
    requires q == One(Nothing, InQuery(Lit(Int(1)), StarOf("team")))
    ensures RewriteQ(q, who) == q && StarsPassQ(q, true) && SelectsQ(q) == {q, StarOf("team")} && Tame(q)
  {
    StarOfParts("team", who);
    NoTables(who);
    OneParts(Nothing, q.where.value);
    assert RewriteO(q.where, who) == Some(RewriteC(q.where.value, who));
    assert StarsPassO(q.where, true) == StarsPassC(q.where.value, true);
  }

  lemma DerivedParts(q: Query, f: string, who: Option<int>)
    requires exists op :: q == LeakBody(DerivedBody, op, f)
    ensures RewriteQ(q, who) == q && StarsPassQ(q, true) && SelectsQ(q) == {q, StarOf("team")}
    ensures Tame(q)
  {
    StarOfParts("team", who);
    NoTables(who);
    OneParts(q.from, q.where.value);
    assert SelectsO(None) == {} && OptCols(None) == {} && StarsPassO(None, true) && RewriteO(None, who) == None;
    assert SelectTables(q.from) == SelectTables(Nothing);
    assert ScopePreds(q.from, who) == ScopePreds(Nothing, who);
    assert StarsPassO(q.where, true) == StarsPassC(q.where.value, true);
    assert RewriteO(q.where, who) == Some(RewriteC(q.where.value, who));
  }

  lemma ExistsParts(body: Query, who: Option<int>)
    requires RewriteQ(body, who) == body && StarsPassQ(body, true) && forall s | s in SelectsQ(body) :: Tame(s)
    ensures var q := One(Nothing, Exists(body));
            RewriteQ(q, who) == q && StarsPassQ(q, false) && forall s | s in SelectsQ(q) :: Tame(s)
  {
    var c := Exists(body);
    var q := One(Nothing, c);
    NoTables(who);
    OneParts(Nothing, c);
    assert SelectsC(c) == SelectsQ(body);
    assert StarsPassO(q.where, false) == StarsPassC(c, false);
    assert RewriteO(q.where, who) == Some(RewriteC(c, who));
  }

  lemma LeakAccepted(p: Position, op: SetOp, f: string, ctx: Option<Context>)
    requires p in LEAKY
    ensures Guard(Leak(p, op, f), ctx) == Ok(Leak(p, op, f))
  {
    var who := if Restricted(ctx) then ctx.value.personId else None;
    BodyParts(p, op, f, who);
    ExistsParts(LeakBody(p, op, f), who);
    TamePasses(Leak(p, op, f));
  }

  lemma NotD(f: string)
    requires f in FORBIDDEN_COLUMNS
    ensures f != "d"
  {
  }

  // ----- Exactness -----

  /** Nothing accepted with stars at these positions only depends on a forbidden
      column. */
  ghost predicate Independent(allowed: set<Position>, ctx: Option<Context>) {
    forall q, db1, db2 |
      Guard(q, ctx).Ok? && StarsAtQ(q, Free, allowed) && DbAlike(db1, db2, FORBIDDEN_COLUMNS) && TeamColumns(db1) ::
      EvalQ(Guard(q, ctx).value, db1, Top) == EvalQ(Guard(q, ctx).value, db2, Top)
  }

  /** At each of the other positions a star lets any forbidden column decide the result of
      an accepted statement, for every requester. */
  lemma StarLeaks(p: Position, op: SetOp, f: string, ctx: Option<Context>)
    requires p in LEAKY && (op == Intersect || op == Except) && f in FORBIDDEN_COLUMNS
    ensures Guard(Leak(p, op, f), ctx) == Ok(Leak(p, op, f)) && StarsAtQ(Leak(p, op, f), Free, {p})
    ensures DbAlike(Cells(f, 1), Cells(f, 2), {f}) && TeamColumns(Cells(f, 1))
    ensures EvalQ(Leak(p, op, f), Cells(f, 1), Top) != EvalQ(Leak(p, op, f), Cells(f, 2), Top)
  {
    LeakAccepted(p, op, f, ctx);
    NotD(f);
    LeakOutcome(p, op, f, 1);
    LeakOutcome(p, op, f, 2);
    LeakStars(p, op, f);
  }

  lemma LeakStars(p: Position, op: SetOp, f: string)
    requires p in LEAKY && (op == Intersect || op == Except)
    ensures StarsAtQ(Leak(p, op, f), Free, {p})
  {
    var body := LeakBody(p, op, f);
    assert StarsAtF(Nothing, {p}) && StarsAtO(None, {p});
    assert StarsAtF(StarOf("team").from, {p}) && StarsAtF(StarOf("department").from, {p});
    assert StarsAtQ(StarOf("team"), p, {p}) && StarsAtQ(StarOf("department"), p, {p});
    if p == OtherArm {
    } else {
      assert StarsAtO(body.where, {p}) == StarsAtC(body.where.value, {p});
    }
    assert StarsAtQ(body, Body, {p});
    assert StarsAtO(Leak(p, op, f).where, {p}) == StarsAtC(Exists(body), {p});
  }

  lemma MorePositionsQ(q: Query, at: Position, a: set<Position>, b: set<Position>)
    requires a <= b && StarsAtQ(q, at, a)
    ensures StarsAtQ(q, at, b)
    decreases q, 2
  {
    match q
    case Select(_, from, where) => MorePositionsF(from, a, b); MorePositionsO(where, a, b);
    case SetQuery(op, l, r) => MorePositionsQ(l, Arm(op, at), a, b); MorePositionsQ(r, Arm(op, at), a, b);
  }

  lemma MorePositionsF(from: From, a: set<Position>, b: set<Position>)
    requires a <= b && StarsAtF(from, a)
    ensures StarsAtF(from, b)
    decreases from, 2
  {
    match from
    case Nothing =>
    case Join(l, _, item, on) =>
      MorePositionsF(l, a, b);
      if item.Derived? {
        MorePositionsQ(item.q, DerivedBody, a, b);
      }
      MorePositionsO(on, a, b);
  }

  lemma MorePositionsO(c: Option<Cond>, a: set<Position>, b: set<Position>)
    requires a <= b && StarsAtO(c, a)
    ensures StarsAtO(c, b)
    decreases c, 3
  {
    if c.Some? {
      MorePositionsC(c.value, a, b);
    }
  }

  lemma MorePositionsC(c: Cond, a: set<Position>, b: set<Position>)
    requires a <= b && StarsAtC(c, a)
    ensures StarsAtC(c, b)
    decreases c, 2
  {
    match c
    case Cmp(_, _, _) =>
    case IsNull(_) =>
    case Not(d) => MorePositionsC(d, a, b);
    case And(l, r) => MorePositionsC(l, a, b); MorePositionsC(r, a, b);
    case Or(l, r) => MorePositionsC(l, a, b); MorePositionsC(r, a, b);
    case Paren(d) => MorePositionsC(d, a, b);
    case InQuery(_, q) => MorePositionsQ(q, InBody, a, b);
    case Exists(q) => MorePositionsQ(q, Body, a, b);
  }

  /** Whoever asks: the results of accepted statements are independent of forbidden
      columns if and only if no star stands in an arm of an INTERSECT or EXCEPT, in the
      body of an IN or in a derived table. */
  lemma StarPositionsExact(allowed: set<Position>, ctx: Option<Context>)
    ensures Independent(allowed, ctx) <==> allowed !! LEAKY
  {
    if allowed !! LEAKY {
      forall q, db1, db2 |
        Guard(q, ctx).Ok? && StarsAtQ(q, Free, allowed) && DbAlike(db1, db2, FORBIDDEN_COLUMNS) && TeamColumns(db1)
        ensures EvalQ(Guard(q, ctx).value, db1, Top) == EvalQ(Guard(q, ctx).value, db2, Top)
      {
        HarmlessQ(q, Free, allowed, false);
        ForbiddenColumnsInvisible(q, ctx, db1, db2);
      }
    } else {
      var p :| p in allowed && p in LEAKY;
      var q := Leak(p, Intersect, "salary");
      assert "salary" in FORBIDDEN_COLUMNS;
      StarLeaks(p, Intersect, "salary", ctx);
      MorePositionsQ(q, Free, {p}, allowed);
      assert DbAlike(Cells("salary", 1), Cells("salary", 2), FORBIDDEN_COLUMNS);
    }
  }
}
