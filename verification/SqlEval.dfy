/** What a query means: relations are sequences in nested-loop order, conditions
    are three-valued, and names resolve innermost scope first. */
module SqlEval {
  import opened Wrappers
  import opened Sql

  // ----- Three-valued logic -----

  datatype Truth = True | False | Unknown

  function NotT(a: Truth): Truth {
    match a case True => False case False => True case Unknown => Unknown
  }

  function AndT(a: Truth, b: Truth): Truth {
    if a == False || b == False then False
    else if a == True && b == True then True
    else Unknown
  }

  function OrT(a: Truth, b: Truth): Truth {
    NotT(AndT(NotT(a), NotT(b)))
  }

  function Bool(b: bool): Truth { if b then True else False }

  function Compare(op: CmpOp, v: Value, w: Value): Truth {
    if v == Null || w == Null then Unknown
    else match op
      case Eq => Bool(v == w)
      case Ne => Bool(v != w)
      case Lt => Bool(v.Int? && w.Int? && v.n < w.n)
  }

  /** `v IN (vals)` */
  function InValues(v: Value, vals: seq<Value>): Truth {
    if vals == [] then False
    else OrT(Compare(Eq, v, vals[0]), InValues(v, vals[1..]))
  }

  // ----- Scopes and name resolution -----

  /** One row of a FROM item, under the item's alias. */
  datatype Binding = Binding(alias: string, cols: seq<string>, row: Row)

  /** The bindings of one SELECT, in FROM order; `Push` adds on the right. */
  datatype Scope = Empty | Push(rest: Scope, b: Binding)

  datatype Env = Top | In(scope: Scope, outer: Env)

  /** A column of a binding; NULL when the item has no such column. */
  function Field(b: Binding, col: string): Value {
    if col in b.cols then Get(b.row, col) else Null
  }

  function WholeRow(b: Binding): Value {
    Record(map c | c in b.cols :: Get(b.row, c))
  }

  function FindAlias(s: Scope, alias: string): Option<Binding> {
    match s
    case Empty => None
    case Push(rest, b) => if b.alias == alias then Some(b) else FindAlias(rest, alias)
  }

  function FindColumn(s: Scope, col: string): Option<Value> {
    match s
    case Empty => None
    case Push(rest, b) => if col in b.cols then Some(Get(b.row, col)) else FindColumn(rest, col)
  }

  function Qualified(env: Env, alias: string, col: string): Value {
    match env
    case Top => Null
    case In(s, outer) =>
      match FindAlias(s, alias)
      case Some(b) => Field(b, col)
      case None => Qualified(outer, alias, col)
  }

  /** A bare name as a column, if some scope has one. */
  function BareColumn(env: Env, col: string): Option<Value> {
    match env
    case Top => None
    case In(s, outer) =>
      match FindColumn(s, col)
      case Some(v) => Some(v)
      case None => BareColumn(outer, col)
  }

  /** A bare name that is no column anywhere but is an alias denotes the whole row. */
  function BareRow(env: Env, alias: string): Value {
    match env
    case Top => Null
    case In(s, outer) =>
      match FindAlias(s, alias)
      case Some(b) => WholeRow(b)
      case None => BareRow(outer, alias)
  }

  function EvalE(e: Expr, env: Env): Value {
    match e
    case Lit(v) => v
    case Col(Some(alias), name) => Qualified(env, alias, name)
    case Col(None, name) =>
      (match BareColumn(env, name)
       case Some(v) => v
       case None => BareRow(env, name))
    case Coalesce(a, b) =>
      var v := EvalE(a, env);
      if v != Null then v else EvalE(b, env)
  }

  // ----- Relations -----

  type Tuple = seq<Value>
  type Pred = Scope -> bool

  function Filter(f: Pred, ss: seq<Scope>): seq<Scope> {
    if ss == [] then []
    else if f(ss[0]) then [ss[0]] + Filter(f, ss[1..])
    else Filter(f, ss[1..])
  }

  /** The rows `bs` that join with `l`. */
  function Matches(l: Scope, bs: seq<Binding>, on: Pred): seq<Scope> {
    if bs == [] then []
    else if on(Push(l, bs[0])) then [Push(l, bs[0])] + Matches(l, bs[1..], on)
    else Matches(l, bs[1..], on)
  }

  predicate KeepsLeft(kind: JoinKind) { kind == LeftOuter || kind == FullOuter }

  predicate KeepsRight(kind: JoinKind) { kind == RightOuter || kind == FullOuter }

  function ExtendRow(kind: JoinKind, l: Scope, bs: seq<Binding>, on: Pred, nullB: Binding): seq<Scope> {
    var m := Matches(l, bs, on);
    if m == [] && KeepsLeft(kind) then [Push(l, nullB)] else m
  }

  function ExtendRows(kind: JoinKind, ls: seq<Scope>, bs: seq<Binding>, on: Pred, nullB: Binding): seq<Scope> {
    if ls == [] then []
    else ExtendRow(kind, ls[0], bs, on, nullB) + ExtendRows(kind, ls[1..], bs, on, nullB)
  }

  predicate Unmatched(ls: seq<Scope>, b: Binding, on: Pred) {
    forall i :: 0 <= i < |ls| ==> !on(Push(ls[i], b))
  }

  /** The right rows no left row joins with, null-extended on the left. */
  function RightRows(nullL: Scope, ls: seq<Scope>, bs: seq<Binding>, on: Pred): seq<Scope> {
    if bs == [] then []
    else if Unmatched(ls, bs[0], on) then [Push(nullL, bs[0])] + RightRows(nullL, ls, bs[1..], on)
    else RightRows(nullL, ls, bs[1..], on)
  }

  function JoinRows(kind: JoinKind, ls: seq<Scope>, bs: seq<Binding>, on: Pred,
                    nullL: Scope, nullB: Binding): seq<Scope>
  {
    ExtendRows(kind, ls, bs, on, nullB) + if KeepsRight(kind) then RightRows(nullL, ls, bs, on) else []
  }

  // ----- Static shape of a query -----

  function OutNames(cols: seq<OutCol>): seq<string> {
    if cols == [] then [] else [cols[0].name] + OutNames(cols[1..])
  }

  function QueryCols(q: Query, db: Db): seq<string> {
    match q
    case Select(Columns(cols), _, _) => OutNames(cols)
    case Select(Count(_, name), _, _) => [name]
    case Select(Star, from, _) => FromCols(from, db)
    case SetQuery(_, l, _) => QueryCols(l, db)
  }

  function ItemCols(item: Item, db: Db): seq<string> {
    match item
    case Table(name, _) => TableCols(db, name)
    case Derived(q, _) => QueryCols(q, db)
  }

  function FromCols(from: From, db: Db): seq<string> {
    match from
    case Nothing => []
    case Join(l, _, item, _) => FromCols(l, db) + ItemCols(item, db)
  }

  function NullBinding(item: Item, db: Db): Binding {
    Binding(item.alias, ItemCols(item, db), map[])
  }

  function NullScope(from: From, db: Db): Scope {
    match from
    case Nothing => Empty
    case Join(l, _, item, _) => Push(NullScope(l, db), NullBinding(item, db))
  }

  // ----- Projection -----

  function TupleOf(cols: seq<OutCol>, env: Env): Tuple {
    if cols == [] then [] else [EvalE(cols[0].e, env)] + TupleOf(cols[1..], env)
  }

  function Fields(b: Binding, cols: seq<string>): Tuple {
    if cols == [] then [] else [Get(b.row, cols[0])] + Fields(b, cols[1..])
  }

  function StarTuple(s: Scope): Tuple {
    match s
    case Empty => []
    case Push(rest, b) => StarTuple(rest) + Fields(b, b.cols)
  }

  function CountOf(of: Option<Expr>, ss: seq<Scope>, env: Env): nat {
    if ss == [] then 0
    else (if of.Some? && EvalE(of.value, In(ss[0], env)) == Null then 0 else 1) + CountOf(of, ss[1..], env)
  }

  function ProjectRow(proj: Projection, s: Scope, env: Env): Tuple
    requires !proj.Count?
  {
    match proj
    case Columns(cols) => TupleOf(cols, In(s, env))
    case Star => StarTuple(s)
  }

  function ProjectRows(proj: Projection, ss: seq<Scope>, env: Env): seq<Tuple>
    requires !proj.Count?
  {
    if ss == [] then [] else [ProjectRow(proj, ss[0], env)] + ProjectRows(proj, ss[1..], env)
  }

  function Project(proj: Projection, ss: seq<Scope>, env: Env): seq<Tuple> {
    if proj.Count? then [[Int(CountOf(proj.of, ss, env))]] else ProjectRows(proj, ss, env)
  }

  // ----- Set operations -----

  /** First occurrences only. */
  function Distinct(ts: seq<Tuple>): seq<Tuple> {
    if ts == [] then []
    else
      var d := Distinct(ts[..|ts| - 1]);
      if ts[|ts| - 1] in d then d else d + [ts[|ts| - 1]]
  }

  function KeepIn(ts: seq<Tuple>, us: seq<Tuple>, present: bool): seq<Tuple> {
    if ts == [] then []
    else if (ts[0] in us) == present then [ts[0]] + KeepIn(ts[1..], us, present)
    else KeepIn(ts[1..], us, present)
  }

  function Combine(op: SetOp, a: seq<Tuple>, b: seq<Tuple>): seq<Tuple> {
    match op
    case UnionAll => a + b
    case Union => Distinct(a + b)
    case Intersect => Distinct(KeepIn(a, b, true))
    case Except => Distinct(KeepIn(a, b, false))
  }

  // ----- FROM items -----

  /** The row of a derived table: its tuple under its column names. */
  function RowOf(cols: seq<string>, t: Tuple): Row {
    if cols == [] || t == [] then map[] else RowOf(cols[1..], t[1..])[cols[0] := t[0]]
  }

  function BindRows(alias: string, cols: seq<string>, rows: seq<Row>): seq<Binding> {
    if rows == [] then [] else [Binding(alias, cols, rows[0])] + BindRows(alias, cols, rows[1..])
  }

  function BindTuples(alias: string, cols: seq<string>, ts: seq<Tuple>): seq<Binding> {
    if ts == [] then [] else [Binding(alias, cols, RowOf(cols, ts[0]))] + BindTuples(alias, cols, ts[1..])
  }

  function FirstColumn(ts: seq<Tuple>): seq<Value> {
    if ts == [] then [] else [if ts[0] == [] then Null else ts[0][0]] + FirstColumn(ts[1..])
  }

  // ----- Queries -----

  function EvalC(c: Cond, db: Db, env: Env): Truth
    decreases c, 0
  {
    match c
    case Cmp(op, l, r) => Compare(op, EvalE(l, env), EvalE(r, env))
    case IsNull(e) => Bool(EvalE(e, env) == Null)
    case Not(d) => NotT(EvalC(d, db, env))
    case And(l, r) => AndT(EvalC(l, db, env), EvalC(r, db, env))
    case Or(l, r) => OrT(EvalC(l, db, env), EvalC(r, db, env))
    case Paren(d) => EvalC(d, db, env)
    case InQuery(e, q) => InValues(EvalE(e, env), FirstColumn(EvalQ(q, db, env)))
    case Exists(q) => Bool(EvalQ(q, db, env) != [])
  }

  /** An ON or WHERE clause as a filter: a row is kept when the condition is true. */
  function Keeps(c: Option<Cond>, db: Db, env: Env): Pred
    decreases c, 1
  {
    (s: Scope) => c.None? || EvalC(c.value, db, In(s, env)) == True
  }

  function EvalItem(item: Item, db: Db, env: Env): seq<Binding>
    decreases item, 0
  {
    match item
    case Table(name, alias) => BindRows(alias, TableCols(db, name), TableRows(db, name))
    case Derived(q, alias) => BindTuples(alias, QueryCols(q, db), EvalQ(q, db, env))
  }

  function EvalF(from: From, db: Db, env: Env): seq<Scope>
    decreases from, 0
  {
    match from
    case Nothing => [Empty]
    case Join(l, kind, item, on) =>
      JoinRows(kind, EvalF(l, db, env), EvalItem(item, db, env), Keeps(on, db, env),
               NullScope(l, db), NullBinding(item, db))
  }

  function EvalQ(q: Query, db: Db, env: Env): seq<Tuple>
    decreases q, 0
  {
    match q
    case Select(proj, from, where) =>
      Project(proj, Filter(Keeps(where, db, env), EvalF(from, db, env)), env)
    case SetQuery(op, l, r) => Combine(op, EvalQ(l, db, env), EvalQ(r, db, env))
  }
}
