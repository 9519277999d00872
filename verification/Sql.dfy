/** The fragment of SQL the scope guard rewrites: SELECT over a left-deep join
    list, derived tables, IN and EXISTS subqueries (correlated or not), COUNT,
    and the set operations.  Names are already lower-case. */
module Sql {
  import opened Wrappers

  /** A whole-row reference evaluates to a `Record`. */
  datatype Value = Null | Int(n: int) | Text(s: string) | Record(fields: map<string, Value>)

  type Row = map<string, Value>

  function Get(row: Row, col: string): Value {
    if col in row then row[col] else Null
  }

  datatype Expr =
    | Lit(v: Value)
    | Col(qualifier: Option<string>, name: string)
    | Coalesce(a: Expr, b: Expr)

  datatype CmpOp = Eq | Ne | Lt

  /** `Paren` is kept in the tree: the guard adds it, and the printer prints it. */
  datatype Cond =
    | Cmp(op: CmpOp, l: Expr, r: Expr)
    | IsNull(e: Expr)
    | Not(c: Cond)
    | And(left: Cond, right: Cond)
    | Or(left: Cond, right: Cond)
    | Paren(c: Cond)
    | InQuery(e: Expr, q: Query)
    | Exists(q: Query)

  datatype JoinKind = Inner | LeftOuter | RightOuter | FullOuter

  /** `alias` is sqlglot's `alias_or_name`. */
  datatype Item =
    | Table(name: string, alias: string)
    | Derived(q: Query, alias: string)

  /** `FROM a JOIN b ...` is `Join(Join(Nothing, Inner, a, None), Inner, b, ...)`:
      a SELECT without FROM ranges over one empty row, and the first item is
      cross-joined to it.  A CROSS JOIN is an inner join without ON. */
  datatype From =
    | Nothing
    | Join(left: From, kind: JoinKind, item: Item, on: Option<Cond>)

  datatype OutCol = OutCol(e: Expr, name: string)

  datatype Projection =
    | Columns(cols: seq<OutCol>)
    | Count(of: Option<Expr>, name: string)
    | Star

  datatype SetOp = UnionAll | Union | Intersect | Except

  datatype Query =
    | Select(proj: Projection, from: From, where: Option<Cond>)
    | SetQuery(op: SetOp, left: Query, right: Query)

  /** A database: the columns of each table, and its rows. */
  datatype Db = Db(schema: map<string, seq<string>>, data: map<string, seq<Row>>)

  function TableCols(db: Db, table: string): seq<string> {
    if table in db.schema then db.schema[table] else []
  }

  function TableRows(db: Db, table: string): seq<Row> {
    if table in db.data then db.data[table] else []
  }
}
