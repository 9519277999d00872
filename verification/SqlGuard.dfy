/** The guard: the checks every statement must pass, and the injection of scope
    predicates for a requester who may only see their own records. */
module SqlGuard {
  import opened Wrappers
  import opened Sql
  import opened Sequences

  // ----- Table classification -----

  const PERSON_FK_TABLES: set<string> := {
    "person_team", "leave_record", "person_week_log", "person_competency",
    "person_skill_category", "users_personresignation", "core_personstatushistory",
    "core_personemploymenthistory", "core_personemploymenttypehistory",
    "person_leave_limit", "job_requisition"
  }

  const PERSON_TEAM_FK_TABLES: set<string> := {"person_week_project", "annual_review_response"}

  const PERSON_FREE_TABLES: set<string> := {
    "department", "team", "designation", "employment_type", "leave_type", "leave_limit",
    "holiday_record", "competency_role", "competency", "competency_level", "skill_category",
    "available_time"
  }

  const ALL_CLASSIFIED_TABLES: set<string> :=
    {"person"} + PERSON_FK_TABLES + PERSON_TEAM_FK_TABLES + PERSON_FREE_TABLES

  const FORBIDDEN_COLUMNS: set<string> := {
    "salary", "basic_salary", "gross_salary", "net_salary", "compensation", "nic", "cnic",
    "bank_account", "bank_details", "home_address", "personal_address", "personal_phone",
    "personal_email", "date_of_birth", "dob", "passport_number", "medical_record"
  }

  datatype Class = Person | PersonFk | PersonTeamFk | PersonFree | Unclassified

  /** The branches of the injector, in its order. */
  function Classify(table: string): Class {
    if table == "person" then Person
    else if table in PERSON_FK_TABLES then PersonFk
    else if table in PERSON_TEAM_FK_TABLES then PersonTeamFk
    else if table in PERSON_FREE_TABLES then PersonFree
    else Unclassified
  }

  predicate Scoped(item: Item) {
    item.Table? && Classify(item.name) in {Person, PersonFk, PersonTeamFk}
  }

  // ----- Every SELECT of a statement -----

  /** The SELECT nodes of a tree, at any depth. */
  function SelectsQ(q: Query): set<Query>
    decreases q, 0
  {
    match q
    case Select(_, from, where) => {q} + SelectsF(from) + SelectsO(where)
    case SetQuery(_, l, r) => SelectsQ(l) + SelectsQ(r)
  }

  function SelectsF(from: From): set<Query>
    decreases from, 0
  {
    match from
    case Nothing => {}
    case Join(l, _, item, on) =>
      SelectsF(l) + (match item case Table(_, _) => {} case Derived(q, _) => SelectsQ(q)) + SelectsO(on)
  }

  function SelectsO(c: Option<Cond>): set<Query>
    decreases c, 1
  {
    match c case None => {} case Some(d) => SelectsC(d)
  }

  function SelectsC(c: Cond): set<Query>
    decreases c, 0
  {
    match c
    case Cmp(_, _, _) => {}
    case IsNull(_) => {}
    case Not(d) => SelectsC(d)
    case And(l, r) => SelectsC(l) + SelectsC(r)
    case Or(l, r) => SelectsC(l) + SelectsC(r)
    case Paren(d) => SelectsC(d)
    case InQuery(_, q) => SelectsQ(q)
    case Exists(q) => SelectsQ(q)
  }

  // ----- Direct table references of one SELECT -----

  datatype TableRef = TableRef(name: string, alias: string)

  /** Plain tables in FROM and JOIN, left to right; derived tables are not entered. */
  function SelectTables(from: From): seq<TableRef> {
    match from
    case Nothing => []
    case Join(l, _, Table(name, alias), _) => SelectTables(l) + [TableRef(name, alias)]
    case Join(l, _, Derived(_, _), _) => SelectTables(l)
  }

  /** The alias of the first person reference. */
  function PersonAlias(tables: seq<TableRef>): Option<string> {
    if tables == [] then None
    else if tables[0].name == "person" then Some(tables[0].alias)
    else PersonAlias(tables[1..])
  }

  // ----- Scope predicates -----

  /** `1 = 0`: what a context without a person id gets. */
  const DENY: Cond := Cmp(Eq, Lit(Int(1)), Lit(Int(0)))

  function ColumnIs(qualifier: Option<string>, col: string, x: int): Cond {
    Cmp(Eq, Col(qualifier, col), Lit(Int(x)))
  }

  /** `SELECT id FROM person_team WHERE person_id = x` */
  function OwnTeams(x: int): Query {
    Select(Columns([OutCol(Col(None, "id"), "id")]),
           Join(Nothing, Inner, Table("person_team", "person_team"), None),
           Some(ColumnIs(None, "person_id", x)))
  }

  function PersonScope(who: Option<int>, alias: string): Cond {
    match who case None => DENY case Some(x) => ColumnIs(Some(alias), "id", x)
  }

  function FkScope(who: Option<int>, alias: string): Cond {
    match who case None => DENY case Some(x) => ColumnIs(Some(alias), "person_id", x)
  }

  function TeamFkScope(who: Option<int>, alias: string): Cond {
    match who
    case None => DENY
    case Some(x) => InQuery(Col(Some(alias), "person_team_id"), OwnTeams(x))
  }

  /** What one table of the list adds: nothing if it is person or person-free. */
  function LinkedFor(t: TableRef, who: Option<int>): seq<Cond> {
    match Classify(t.name)
    case PersonFk => [FkScope(who, t.alias)]
    case PersonTeamFk => [TeamFkScope(who, t.alias)]
    case _ => []
  }

  /** What the loop over `_select_tables` injects, in order. */
  function LinkedScopes(tables: seq<TableRef>, who: Option<int>): seq<Cond> {
    if tables == [] then [] else LinkedFor(tables[0], who) + LinkedScopes(tables[1..], who)
  }

  lemma LinkedScopesAppend(a: seq<TableRef>, b: seq<TableRef>, who: Option<int>)
    ensures LinkedScopes(a + b, who) == LinkedScopes(a, who) + LinkedScopes(b, who)
  {
    if a == [] {
      assert a + b == b;
    } else {
      assert (a + b)[1..] == a[1..] + b;
      LinkedScopesAppend(a[1..], b, who);
      Regroup(LinkedFor(a[0], who), LinkedScopes(a[1..], who), LinkedScopes(b, who));
    }
  }

  /** Every predicate injected into one SELECT, in order: the person one first. */
  function ScopePreds(from: From, who: Option<int>): seq<Cond> {
    ScopesFor(SelectTables(from), who)
  }

  function ScopesFor(tables: seq<TableRef>, who: Option<int>): seq<Cond> {
    (match PersonAlias(tables) case Some(a) => [PersonScope(who, a)] case None => [])
    + LinkedScopes(tables, who)
  }

  // ----- Injection -----

  function InjectAnd(where: Option<Cond>, scope: Cond): Option<Cond> {
    match where
    case None => Some(scope)
    case Some(c) => Some(And(Paren(c), scope))
  }

  function InjectAll(where: Option<Cond>, scopes: seq<Cond>): Option<Cond>
    decreases |scopes|
  {
    if scopes == [] then where else InjectAll(InjectAnd(where, scopes[0]), scopes[1..])
  }

  /** The tree after injection: every SELECT of the original gets its predicates,
      the injected subqueries get none. */
  function RewriteQ(q: Query, who: Option<int>): Query
    decreases q, 0
  {
    match q
    case Select(proj, from, where) =>
      Select(proj, RewriteF(from, who), InjectAll(RewriteO(where, who), ScopePreds(from, who)))
    case SetQuery(op, l, r) => SetQuery(op, RewriteQ(l, who), RewriteQ(r, who))
  }

  function RewriteF(from: From, who: Option<int>): From
    decreases from, 0
  {
    match from
    case Nothing => Nothing
    case Join(l, kind, item, on) => Join(RewriteF(l, who), kind, RewriteI(item, who), RewriteO(on, who))
  }

  function RewriteI(item: Item, who: Option<int>): Item
    decreases item, 0
  {
    match item
    case Table(_, _) => item
    case Derived(q, alias) => Derived(RewriteQ(q, who), alias)
  }

  function RewriteO(c: Option<Cond>, who: Option<int>): Option<Cond>
    decreases c, 1
  {
    match c case None => None case Some(d) => Some(RewriteC(d, who))
  }

  function RewriteC(c: Cond, who: Option<int>): Cond
    decreases c, 0
  {
    match c
    case Cmp(_, _, _) => c
    case IsNull(_) => c
    case Not(d) => Not(RewriteC(d, who))
    case And(l, r) => And(RewriteC(l, who), RewriteC(r, who))
    case Or(l, r) => Or(RewriteC(l, who), RewriteC(r, who))
    case Paren(d) => Paren(RewriteC(d, who))
    case InQuery(e, q) => InQuery(e, RewriteQ(q, who))
    case Exists(q) => Exists(RewriteQ(q, who))
  }

  // ----- Checks that apply to every caller -----

  function ExprCols(e: Expr): set<Expr> {
    match e
    case Lit(_) => {}
    case Col(_, _) => {e}
    case Coalesce(a, b) => ExprCols(a) + ExprCols(b)
  }

  /** Columns of a condition outside its subqueries. */
  function CondCols(c: Cond): set<Expr> {
    match c
    case Cmp(_, l, r) => ExprCols(l) + ExprCols(r)
    case IsNull(e) => ExprCols(e)
    case Not(d) => CondCols(d)
    case And(l, r) => CondCols(l) + CondCols(r)
    case Or(l, r) => CondCols(l) + CondCols(r)
    case Paren(d) => CondCols(d)
    case InQuery(e, _) => ExprCols(e)
    case Exists(_) => {}
  }

  function OptCols(c: Option<Cond>): set<Expr> {
    match c case None => {} case Some(d) => CondCols(d)
  }

  function OutCols(cols: seq<OutCol>): set<Expr> {
    if cols == [] then {} else ExprCols(cols[0].e) + OutCols(cols[1..])
  }

  function ProjCols(proj: Projection): set<Expr> {
    match proj
    case Columns(cols) => OutCols(cols)
    case Count(None, _) => {}
    case Count(Some(e), _) => ExprCols(e)
    case Star => {}
  }

  function OnCols(from: From): set<Expr> {
    match from
    case Nothing => {}
    case Join(l, _, _, on) => OnCols(l) + OptCols(on)
  }

  /** The columns a SELECT names itself, outside its subqueries. */
  function DirectCols(s: Query): set<Expr> {
    if s.Select? then ProjCols(s.proj) + OnCols(s.from) + OptCols(s.where) else {}
  }

  function DirectNames(s: Query): set<string> {
    if s.Select?
    then (set t | t in SelectTables(s.from) :: t.name) + (set t | t in SelectTables(s.from) :: t.alias)
    else {}
  }

  /** Every table name and alias in the statement. */
  function TableNames(q: Query): set<string> {
    set s, n | s in SelectsQ(q) && n in DirectNames(s) :: n
  }

  /** A column is forbidden by name, or is a bare name that some table goes by. */
  predicate ColumnPasses(c: Expr, names: set<string>, forbidden: set<string>) {
    c.Col? ==> c.name !in forbidden && (c.qualifier.None? ==> c.name !in names)
  }

  predicate ColumnsPass(selects: set<Query>, names: set<string>, forbidden: set<string>) {
    forall s, c | s in selects && c in DirectCols(s) :: ColumnPasses(c, names, forbidden)
  }

  /** No star projection, except anywhere below an EXISTS. */
  predicate StarsPassQ(q: Query, inExists: bool)
    decreases q, 0
  {
    match q
    case Select(proj, from, where) =>
      (proj.Star? ==> inExists) && StarsPassF(from, inExists) && StarsPassO(where, inExists)
    case SetQuery(_, l, r) => StarsPassQ(l, inExists) && StarsPassQ(r, inExists)
  }

  predicate StarsPassF(from: From, inExists: bool)
    decreases from, 0
  {
    match from
    case Nothing => true
    case Join(l, _, item, on) =>
      && StarsPassF(l, inExists)
      && (match item case Table(_, _) => true case Derived(q, _) => StarsPassQ(q, inExists))
      && StarsPassO(on, inExists)
  }

  predicate StarsPassO(c: Option<Cond>, inExists: bool)
    decreases c, 1
  {
    match c case None => true case Some(d) => StarsPassC(d, inExists)
  }

  predicate StarsPassC(c: Cond, inExists: bool)
    decreases c, 0
  {
    match c
    case Cmp(_, _, _) => true
    case IsNull(_) => true
    case Not(d) => StarsPassC(d, inExists)
    case And(l, r) => StarsPassC(l, inExists) && StarsPassC(r, inExists)
    case Or(l, r) => StarsPassC(l, inExists) && StarsPassC(r, inExists)
    case Paren(d) => StarsPassC(d, inExists)
    case InQuery(_, q) => StarsPassQ(q, inExists)
    case Exists(q) => StarsPassQ(q, true)
  }

  predicate AllClassified(selects: set<Query>) {
    forall s, t | s in selects && s.Select? && t in SelectTables(s.from) :: Classify(t.name) != Unclassified
  }

  // ----- The guard -----

  datatype GuardError = BlockedColumn | BlockedStar | UnclassifiedTable

  datatype Context = Context(unrestricted: bool, personId: Option<int>)

  predicate Restricted(ctx: Option<Context>) {
    ctx.Some? && !ctx.value.unrestricted
  }

  /** One statement: checked for everyone, scoped for restricted requesters. */
  function Guard(q: Query, ctx: Option<Context>): Result<Query, GuardError> {
    if !ColumnsPass(SelectsQ(q), TableNames(q), FORBIDDEN_COLUMNS) then Err(BlockedColumn)
    else if !StarsPassQ(q, false) then Err(BlockedStar)
    else if !Restricted(ctx) then Ok(q)
    else if !AllClassified(SelectsQ(q)) then Err(UnclassifiedTable)
    else Ok(RewriteQ(q, ctx.value.personId))
  }

  /** A whole command: all of its statements are rewritten - for a caller who is not
      restricted they stay as they are - or the first one the guard rejects decides the
      error. */
  method RewriteSql(stmts: seq<Query>, ctx: Option<Context>) returns (r: Result<seq<Query>, GuardError>)
    ensures r.Ok? ==> |r.value| == |stmts|
                      && forall i :: 0 <= i < |stmts| ==> Guard(stmts[i], ctx) == Ok(r.value[i])
    ensures r.Ok? && (ctx == None || ctx.value.unrestricted) ==> r.value == stmts
    ensures r.Err? ==> exists i :: 0 <= i < |stmts| && Guard(stmts[i], ctx) == Err(r.error)
                                   && forall j :: 0 <= j < i ==> Guard(stmts[j], ctx).Ok?
  {
    var rewritten: seq<Query> := [];
    for k := 0 to |stmts|
      invariant |rewritten| == k
      invariant forall i :: 0 <= i < k ==> Guard(stmts[i], ctx) == Ok(rewritten[i])
    {
      var g := Guard(stmts[k], ctx);
      if g.Err? {
        return Err(g.error);
      }
      rewritten := rewritten + [g.value];
    }
    return Ok(rewritten);
  }
}
