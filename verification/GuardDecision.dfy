/** Which statements the guard accepts, read off the statement itself: the columns, stars
    and tables that occur anywhere in it. */
module GuardDecision {
  import opened Wrappers
  import opened Sql
  import opened SqlEval
  import opened SqlGuard
  import opened PersonalTables

  // ----- The names a reader of the statement looks for -----

  predicate Sensitive(name: string) {
    || name == "salary" || name == "basic_salary" || name == "gross_salary" || name == "net_salary"
    || name == "compensation" || name == "nic" || name == "cnic" || name == "bank_account" || name == "bank_details"
    || name == "home_address" || name == "personal_address" || name == "personal_phone" || name == "personal_email"
    || name == "date_of_birth" || name == "dob" || name == "passport_number" || name == "medical_record"
  }

  lemma SensitiveIs(name: string)
    ensures Sensitive(name) <==> name in FORBIDDEN_COLUMNS
  {
  }

  // ----- What occurs in a statement -----

  predicate InExpr(c: Expr, e: Expr) {
    match e
    case Lit(_) => false
    case Col(_, _) => c == e
    case Coalesce(a, b) => InExpr(c, a) || InExpr(c, b)
  }

  predicate InProjection(c: Expr, proj: Projection) {
    match proj
    case Columns(cols) => exists i :: 0 <= i < |cols| && InExpr(c, cols[i].e)
    case Count(of, _) => of.Some? && InExpr(c, of.value)
    case Star => false
  }

  /** The column reference occurs in the statement, at any depth. */
  predicate ColumnInQ(c: Expr, q: Query)
    decreases q, 0
  {
    match q
    case Select(proj, from, where) => InProjection(c, proj) || ColumnInF(c, from) || ColumnInO(c, where)
    case SetQuery(_, l, r) => ColumnInQ(c, l) || ColumnInQ(c, r)
  }

  predicate ColumnInF(c: Expr, from: From)
    decreases from, 0
  {
    match from
    case Nothing => false
    case Join(l, _, item, on) => ColumnInF(c, l) || (item.Derived? && ColumnInQ(c, item.q)) || ColumnInO(c, on)
  }

  predicate ColumnInO(c: Expr, cond: Option<Cond>)
    decreases cond, 1
  {
    cond.Some? && ColumnInC(c, cond.value)
  }

  predicate ColumnInC(c: Expr, cond: Cond)
    decreases cond, 0
  {
    match cond
    case Cmp(_, l, r) => InExpr(c, l) || InExpr(c, r)
    case IsNull(e) => InExpr(c, e)
    case Not(d) => ColumnInC(c, d)
    case And(l, r) => ColumnInC(c, l) || ColumnInC(c, r)
    case Or(l, r) => ColumnInC(c, l) || ColumnInC(c, r)
    case Paren(d) => ColumnInC(c, d)
    case InQuery(e, q) => InExpr(c, e) || ColumnInQ(c, q)
    case Exists(q) => ColumnInQ(c, q)
  }

  /** The table is referenced in the statement, at any depth, under this alias. */
  predicate TableInQ(t: TableRef, q: Query)
    decreases q, 0
  {
    match q
    case Select(_, from, where) => TableInF(t, from) || TableInO(t, where)
    case SetQuery(_, l, r) => TableInQ(t, l) || TableInQ(t, r)
  }

  predicate TableInF(t: TableRef, from: From)
    decreases from, 0
  {
    match from
    case Nothing => false
    case Join(l, _, Table(name, alias), on) => TableInF(t, l) || t == TableRef(name, alias) || TableInO(t, on)
    case Join(l, _, Derived(q, _), on) => TableInF(t, l) || TableInQ(t, q) || TableInO(t, on)
  }

  predicate TableInO(t: TableRef, cond: Option<Cond>)
    decreases cond, 1
  {
    cond.Some? && TableInC(t, cond.value)
  }

  predicate TableInC(t: TableRef, cond: Cond)
    decreases cond, 0
  {
    match cond
    case Cmp(_, _, _) => false
    case IsNull(_) => false
    case Not(d) => TableInC(t, d)
    case And(l, r) => TableInC(t, l) || TableInC(t, r)
    case Or(l, r) => TableInC(t, l) || TableInC(t, r)
    case Paren(d) => TableInC(t, d)
    case InQuery(_, q) => TableInQ(t, q)
    case Exists(q) => TableInQ(t, q)
  }

  /** A star projection occurs with no EXISTS around it. */
  predicate StarInQ(q: Query)
    decreases q, 0
  {
    match q
    case Select(proj, from, where) => proj == Star || StarInF(from) || StarInO(where)
    case SetQuery(_, l, r) => StarInQ(l) || StarInQ(r)
  }

  predicate StarInF(from: From)
    decreases from, 0
  {
    match from
    case Nothing => false
    case Join(l, _, item, on) => StarInF(l) || (item.Derived? && StarInQ(item.q)) || StarInO(on)
  }

  predicate StarInO(cond: Option<Cond>)
    decreases cond, 1
  {
    cond.Some? && StarInC(cond.value)
  }

  predicate StarInC(cond: Cond)
    decreases cond, 0
  {
    match cond
    case Cmp(_, _, _) => false
    case IsNull(_) => false
    case Not(d) => StarInC(d)
    case And(l, r) => StarInC(l) || StarInC(r)
    case Or(l, r) => StarInC(l) || StarInC(r)
    case Paren(d) => StarInC(d)
    case InQuery(_, q) => StarInQ(q)
    case Exists(_) => false
  }

  // ----- Columns -----

  /** One of the SELECTs names the column itself. */
  ghost predicate Direct(c: Expr, selects: set<Query>) {
    exists s :: s in selects && c in DirectCols(s)
  }

  lemma DirectUnion(c: Expr, a: set<Query>, b: set<Query>)
    ensures Direct(c, a + b) <==> Direct(c, a) || Direct(c, b)
  {
    if Direct(c, a) {
      var s :| s in a && c in DirectCols(s);
      assert s in a + b;
    }
    if Direct(c, b) {
      var s :| s in b && c in DirectCols(s);
      assert s in a + b;
    }
  }

  lemma DirectOne(c: Expr, q: Query)
    ensures Direct(c, {q}) <==> c in DirectCols(q)
  {
    assert q in {q};
  }

  lemma ExprColsAre(c: Expr, e: Expr)
    ensures InExpr(c, e) <==> c in ExprCols(e)
  {
  }

  lemma OutColsAre(c: Expr, cols: seq<OutCol>)
    ensures c in OutCols(cols) <==> exists i :: 0 <= i < |cols| && InExpr(c, cols[i].e)
  {
    if cols != [] {
      ExprColsAre(c, cols[0].e);
      OutColsAre(c, cols[1..]);
      if c in OutCols(cols[1..]) {
        var i :| 0 <= i < |cols[1..]| && InExpr(c, cols[1..][i].e);
        assert cols[i + 1] == cols[1..][i];
      }
      if i :| 0 <= i < |cols| && InExpr(c, cols[i].e) {
        assert i > 0 ==> cols[1..][i - 1] == cols[i];
      }
    }
  }

  lemma ProjColsAre(c: Expr, proj: Projection)
    ensures InProjection(c, proj) <==> c in ProjCols(proj)
  {
    match proj
    case Columns(cols) => OutColsAre(c, cols);
    case Count(None, _) =>
    case Count(Some(e), _) => ExprColsAre(c, e);
    case Star =>
  }

  lemma ColumnsQ(c: Expr, q: Query)
    ensures ColumnInQ(c, q) <==> Direct(c, SelectsQ(q))
    decreases q, 0
  {
    match q
    case Select(proj, from, where) =>
      ProjColsAre(c, proj);
      ColumnsF(c, from);
      ColumnsO(c, where);
      DirectOne(c, q);
      DirectUnion(c, {q}, SelectsF(from));
      DirectUnion(c, {q} + SelectsF(from), SelectsO(where));
    case SetQuery(_, l, r) =>
      ColumnsQ(c, l);
      ColumnsQ(c, r);
      DirectUnion(c, SelectsQ(l), SelectsQ(r));
  }

  lemma ColumnsF(c: Expr, from: From)
    ensures ColumnInF(c, from) <==> c in OnCols(from) || Direct(c, SelectsF(from))
    decreases from, 0
  {
    match from
    case Nothing =>
    case Join(l, _, item, on) =>
      ColumnsF(c, l);
      ColumnsO(c, on);
      var inner := match item case Table(_, _) => {} case Derived(q, _) => SelectsQ(q);
      if item.Derived? {
        ColumnsQ(c, item.q);
      }
      DirectUnion(c, SelectsF(l), inner);
      DirectUnion(c, SelectsF(l) + inner, SelectsO(on));
  }

  lemma ColumnsO(c: Expr, cond: Option<Cond>)
    ensures ColumnInO(c, cond) <==> c in OptCols(cond) || Direct(c, SelectsO(cond))
    decreases cond, 1
  {
    if cond.Some? {
      ColumnsC(c, cond.value);
    }
  }

  lemma ColumnsC(c: Expr, cond: Cond)
    ensures ColumnInC(c, cond) <==> c in CondCols(cond) || Direct(c, SelectsC(cond))
    decreases cond, 0
  {
    match cond
    case Cmp(_, l, r) => ExprColsAre(c, l); ExprColsAre(c, r);
    case IsNull(e) => ExprColsAre(c, e);
    case Not(d) => ColumnsC(c, d);
    case And(l, r) => ColumnsC(c, l); ColumnsC(c, r); DirectUnion(c, SelectsC(l), SelectsC(r));
    case Or(l, r) => ColumnsC(c, l); ColumnsC(c, r); DirectUnion(c, SelectsC(l), SelectsC(r));
    case Paren(d) => ColumnsC(c, d);
    case InQuery(e, q) => ExprColsAre(c, e); ColumnsQ(c, q);
    case Exists(q) => ColumnsQ(c, q);
  }

  // ----- Tables -----

  /** One of the SELECTs has the table in its own FROM list. */
  ghost predicate Listed(t: TableRef, selects: set<Query>) {
    exists s :: s in selects && s.Select? && t in SelectTables(s.from)
  }

  lemma ListedUnion(t: TableRef, a: set<Query>, b: set<Query>)
    ensures Listed(t, a + b) <==> Listed(t, a) || Listed(t, b)
  {
    if Listed(t, a) {
      var s :| s in a && s.Select? && t in SelectTables(s.from);
      assert s in a + b;
    }
    if Listed(t, b) {
      var s :| s in b && s.Select? && t in SelectTables(s.from);
      assert s in a + b;
    }
  }

  lemma ListedOne(t: TableRef, q: Query)
    requires q.Select?
    ensures Listed(t, {q}) <==> t in SelectTables(q.from)
  {
    assert q in {q};
  }

  lemma TablesQ(t: TableRef, q: Query)
    ensures TableInQ(t, q) <==> Listed(t, SelectsQ(q))
    decreases q, 0
  {
    match q
    case Select(_, from, where) =>
      TablesF(t, from);
      TablesO(t, where);
      ListedOne(t, q);
      ListedUnion(t, {q}, SelectsF(from));
      ListedUnion(t, {q} + SelectsF(from), SelectsO(where));
    case SetQuery(_, l, r) =>
      TablesQ(t, l);
      TablesQ(t, r);
      ListedUnion(t, SelectsQ(l), SelectsQ(r));
  }

  lemma TablesF(t: TableRef, from: From)
    ensures TableInF(t, from) <==> t in SelectTables(from) || Listed(t, SelectsF(from))
    decreases from, 0
  {
    match from
    case Nothing =>
    case Join(l, _, item, on) =>
      TablesF(t, l);
      TablesO(t, on);
      var inner := match item case Table(_, _) => {} case Derived(q, _) => SelectsQ(q);
      if item.Derived? {
        TablesQ(t, item.q);
      }
      ListedUnion(t, SelectsF(l), inner);
      ListedUnion(t, SelectsF(l) + inner, SelectsO(on));
  }

  lemma TablesO(t: TableRef, cond: Option<Cond>)
    ensures TableInO(t, cond) <==> Listed(t, SelectsO(cond))
    decreases cond, 1
  {
    if cond.Some? {
      TablesC(t, cond.value);
    }
  }

  lemma TablesC(t: TableRef, cond: Cond)
    ensures TableInC(t, cond) <==> Listed(t, SelectsC(cond))
    decreases cond, 0
  {
    match cond
    case Cmp(_, _, _) =>
    case IsNull(_) =>
    case Not(d) => TablesC(t, d);
    case And(l, r) => TablesC(t, l); TablesC(t, r); ListedUnion(t, SelectsC(l), SelectsC(r));
    case Or(l, r) => TablesC(t, l); TablesC(t, r); ListedUnion(t, SelectsC(l), SelectsC(r));
    case Paren(d) => TablesC(t, d);
    case InQuery(_, q) => TablesQ(t, q);
    case Exists(q) => TablesQ(t, q);
  }

  /** Some table of the statement goes by this name. */
  ghost predicate GoesBy(name: string, q: Query) {
    exists t :: TableInQ(t, q) && (t.name == name || t.alias == name)
  }

  lemma NamesAre(name: string, q: Query)
    ensures name in TableNames(q) <==> GoesBy(name, q)
  {
    if name in TableNames(q) {
      var s :| s in SelectsQ(q) && name in DirectNames(s);
      var t :| t in SelectTables(s.from) && (t.name == name || t.alias == name);
      TablesQ(t, q);
    }
    if GoesBy(name, q) {
      var t :| TableInQ(t, q) && (t.name == name || t.alias == name);
      TablesQ(t, q);
      var s :| s in SelectsQ(q) && s.Select? && t in SelectTables(s.from);
      assert name in DirectNames(s);
    }
  }

  // ----- Stars -----

  lemma StarsBelowExistsQ(q: Query)
    ensures StarsPassQ(q, true)
    decreases q, 0
  {
    match q
    case Select(_, from, where) => StarsBelowExistsF(from); StarsBelowExistsO(where);
    case SetQuery(_, l, r) => StarsBelowExistsQ(l); StarsBelowExistsQ(r);
  }

  lemma StarsBelowExistsF(from: From)
    ensures StarsPassF(from, true)
    decreases from, 0
  {
    match from
    case Nothing =>
    case Join(l, _, item, on) =>
      StarsBelowExistsF(l);
      StarsBelowExistsO(on);
      if item.Derived? {
        StarsBelowExistsQ(item.q);
      }
  }

  lemma StarsBelowExistsO(c: Option<Cond>)
    ensures StarsPassO(c, true)
    decreases c, 1
  {
    if c.Some? {
      StarsBelowExistsC(c.value);
    }
  }

  lemma StarsBelowExistsC(c: Cond)
    ensures StarsPassC(c, true)
    decreases c, 0
  {
    match c
    case Cmp(_, _, _) =>
    case IsNull(_) =>
    case Not(d) => StarsBelowExistsC(d);
    case And(l, r) => StarsBelowExistsC(l); StarsBelowExistsC(r);
    case Or(l, r) => StarsBelowExistsC(l); StarsBelowExistsC(r);
    case Paren(d) => StarsBelowExistsC(d);
    case InQuery(_, q) => StarsBelowExistsQ(q);
    case Exists(q) => StarsBelowExistsQ(q);
  }

  lemma StarsQ(q: Query)
    ensures StarsPassQ(q, false) <==> !StarInQ(q)
    decreases q, 0
  {
    match q
    case Select(_, from, where) => StarsF(from); StarsO(where);
    case SetQuery(_, l, r) => StarsQ(l); StarsQ(r);
  }

  lemma StarsF(from: From)
    ensures StarsPassF(from, false) <==> !StarInF(from)
    decreases from, 0
  {
    match from
    case Nothing =>
    case Join(l, _, item, on) =>
      StarsF(l);
      StarsO(on);
      if item.Derived? {
        StarsQ(item.q);
      }
  }

  lemma StarsO(c: Option<Cond>)
    ensures StarsPassO(c, false) <==> !StarInO(c)
    decreases c, 1
  {
    if c.Some? {
      StarsC(c.value);
    }
  }

  lemma StarsC(c: Cond)
    ensures StarsPassC(c, false) <==> !StarInC(c)
    decreases c, 0
  {
    match c
    case Cmp(_, _, _) =>
    case IsNull(_) =>
    case Not(d) => StarsC(d);
    case And(l, r) => StarsC(l); StarsC(r);
    case Or(l, r) => StarsC(l); StarsC(r);
    case Paren(d) => StarsC(d);
    case InQuery(_, q) => StarsQ(q);
    case Exists(q) => StarsBelowExistsQ(q);
  }

  // ----- The decision -----

  /** The statement names a sensitive column, or a bare name that one of its tables goes
      by, which would stand for that table's whole row. */
  ghost predicate NamesTooMuch(q: Query) {
    exists c: Expr :: ColumnInQ(c, q) && c.Col? && (Sensitive(c.name) || (c.qualifier == None && GoesBy(c.name, q)))
  }

  lemma ColumnsDecide(q: Query)
    ensures ColumnsPass(SelectsQ(q), TableNames(q), FORBIDDEN_COLUMNS) <==> !NamesTooMuch(q)
  {
    if NamesTooMuch(q) {
      var c: Expr :|
        ColumnInQ(c, q) && c.Col? && (Sensitive(c.name) || (c.qualifier == None && GoesBy(c.name, q)));
      ColumnsQ(c, q);
      SensitiveIs(c.name);
      NamesAre(c.name, q);
      var s :| s in SelectsQ(q) && c in DirectCols(s);
      assert !ColumnPasses(c, TableNames(q), FORBIDDEN_COLUMNS);
    } else {
      forall s, c | s in SelectsQ(q) && c in DirectCols(s) ensures ColumnPasses(c, TableNames(q), FORBIDDEN_COLUMNS) {
        ColumnsQ(c, q);
        if c.Col? {
          SensitiveIs(c.name);
          NamesAre(c.name, q);
        }
      }
    }
  }

  predicate KnownTable(name: string) {
    name == "person" || HasPersonId(name) || HasPersonTeamId(name) || Lookup(name)
  }

  /** A table with nothing known about whose records it holds. */
  ghost predicate UsesUnknownTable(q: Query) {
    exists t :: TableInQ(t, q) && !KnownTable(t.name)
  }

  lemma TablesDecide(q: Query)
    ensures AllClassified(SelectsQ(q)) <==> !UsesUnknownTable(q)
  {
    if UsesUnknownTable(q) {
      var t :| TableInQ(t, q) && !KnownTable(t.name);
      TablesQ(t, q);
      KindIs(t.name);
      var s :| s in SelectsQ(q) && s.Select? && t in SelectTables(s.from);
    } else {
      forall s, t | s in SelectsQ(q) && s.Select? && t in SelectTables(s.from)
        ensures Classify(t.name) != Unclassified
      {
        TablesQ(t, q);
        KindIs(t.name);
      }
    }
  }

  /** The guard's decision.  What is checked first decides the error; only a restricted
      caller's statement is checked for its tables, and only theirs is rewritten. */
  lemma DecisionIs(q: Query, ctx: Option<Context>)
    ensures Guard(q, ctx) ==
              if NamesTooMuch(q) then Err(BlockedColumn)
              else if StarInQ(q) then Err(BlockedStar)
              else if ctx == None || ctx.value.unrestricted then Ok(q)
              else if UsesUnknownTable(q) then Err(UnclassifiedTable)
              else Ok(RewriteQ(q, ctx.value.personId))
  {
    ColumnsDecide(q);
    StarsQ(q);
    TablesDecide(q);
  }

  /** A caller with company-wide access, or with no context, is refused only sensitive
      columns, whole rows and stars, and an accepted statement means what it meant. */
  lemma CompanyWide(q: Query, ctx: Option<Context>, db: Db, env: Env)
    requires ctx == None || ctx.value.unrestricted
    ensures Guard(q, ctx).Ok? <==> !NamesTooMuch(q) && !StarInQ(q)
    ensures Guard(q, ctx).Ok? ==> EvalQ(Guard(q, ctx).value, db, env) == EvalQ(q, db, env)
  {
    DecisionIs(q, ctx);
  }

  /** So a command of theirs runs as it was written, or not at all. */
  lemma CompanyWideCommand(stmts: seq<Query>, rewritten: seq<Query>, ctx: Option<Context>, db: Db, env: Env)
    requires ctx == None || ctx.value.unrestricted
    requires |rewritten| == |stmts| && forall i :: 0 <= i < |stmts| ==> Guard(stmts[i], ctx) == Ok(rewritten[i])
    ensures rewritten == stmts
    ensures forall i :: 0 <= i < |stmts| ==> EvalQ(rewritten[i], db, env) == EvalQ(stmts[i], db, env)
  {
    forall i | 0 <= i < |stmts| ensures rewritten[i] == stmts[i] {
      DecisionIs(stmts[i], ctx);
    }
  }
}
