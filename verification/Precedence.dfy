/** The condition the guard builds survives printing: read back with NOT binding
    tighter than AND, and AND tighter than OR, it is the same condition. */
module Precedence {
  import opened Wrappers
  import opened Sql
  import opened SqlEval
  import opened SqlGuard
  import opened OwnRows
  import opened Sequences

  datatype Token = TLeaf(c: Cond) | TNot | TAnd | TOr | TOpen | TClose

  predicate IsLeaf(c: Cond) {
    c.Cmp? || c.IsNull? || c.InQuery? || c.Exists?
  }

  /** Prints what is in the tree and adds no parentheses. */
  function Print(c: Cond): (ts: seq<Token>)
    ensures ts != []
  {
    match c
    case Not(d) => [TNot] + Print(d)
    case And(l, r) => Print(l) + [TAnd] + Print(r)
    case Or(l, r) => Print(l) + [TOr] + Print(r)
    case Paren(d) => [TOpen] + Print(d) + [TClose]
    case _ => [TLeaf(c)]
  }

  // ----- A left-associative parser with the usual precedence -----

  datatype Parsed = Fail | Got(c: Cond, rest: seq<Token>)

  function ParseOr(ts: seq<Token>): (p: Parsed)
    ensures p.Got? ==> |p.rest| < |ts|
    decreases |ts|, 3
  {
    var l := ParseAnd(ts);
    if l.Fail? then Fail else OrTail(l.c, l.rest)
  }

  function OrTail(l: Cond, ts: seq<Token>): (p: Parsed)
    ensures p.Got? ==> |p.rest| <= |ts|
    decreases |ts|, 0
  {
    if ts == [] || ts[0] != TOr then Got(l, ts)
    else
      var r := ParseAnd(ts[1..]);
      if r.Fail? then Fail else OrTail(Or(l, r.c), r.rest)
  }

  function ParseAnd(ts: seq<Token>): (p: Parsed)
    ensures p.Got? ==> |p.rest| < |ts|
    decreases |ts|, 2
  {
    var l := ParseNot(ts);
    if l.Fail? then Fail else AndTail(l.c, l.rest)
  }

  function AndTail(l: Cond, ts: seq<Token>): (p: Parsed)
    ensures p.Got? ==> |p.rest| <= |ts|
    decreases |ts|, 0
  {
    if ts == [] || ts[0] != TAnd then Got(l, ts)
    else
      var r := ParseNot(ts[1..]);
      if r.Fail? then Fail else AndTail(And(l, r.c), r.rest)
  }

  function ParseNot(ts: seq<Token>): (p: Parsed)
    ensures p.Got? ==> |p.rest| < |ts|
    decreases |ts|, 1
  {
    if ts == [] then Fail
    else match ts[0]
      case TLeaf(c) => Got(c, ts[1..])
      case TNot =>
        var d := ParseNot(ts[1..]);
        if d.Fail? then Fail else Got(Not(d.c), d.rest)
      case TOpen =>
        var d := ParseOr(ts[1..]);
        if d.Got? && d.rest != [] && d.rest[0] == TClose then Got(Paren(d.c), d.rest[1..]) else Fail
      case _ => Fail
  }

  // ----- Trees that need no parentheses beyond those they contain -----

  predicate NotLevel(c: Cond)
    decreases c, 0
  {
    match c
    case Not(d) => NotLevel(d)
    case Paren(d) => OrLevel(d)
    case And(_, _) => false
    case Or(_, _) => false
    case _ => true
  }

  predicate AndLevel(c: Cond)
    decreases c, 1
  {
    match c
    case And(l, r) => AndLevel(l) && NotLevel(r)
    case _ => NotLevel(c)
  }

  predicate OrLevel(c: Cond)
    decreases c, 2
  {
    match c
    case Or(l, r) => OrLevel(l) && AndLevel(r)
    case _ => AndLevel(c)
  }

  predicate StartsWith(ts: seq<Token>, t: Token) {
    ts != [] && ts[0] == t
  }

  // ----- Printing then parsing -----

  lemma ParseNotPrint(c: Cond, rest: seq<Token>)
    requires NotLevel(c)
    ensures ParseNot(Print(c) + rest) == Got(c, rest)
    decreases c, 1
  {
    var ts := Print(c) + rest;
    match c {
      case Not(d) =>
        assert ts[1..] == Print(d) + rest;
        ParseNotPrint(d, rest);
      case Paren(d) =>
        var tail := [TClose] + rest;
        assert ts[1..] == Print(d) + tail;
        ParseOrPrint(d, tail);
        assert tail[1..] == rest;
      case And(_, _) =>
      case Or(_, _) =>
      case _ => assert ts[1..] == rest;
    }
  }

  lemma ParseAndPrint(c: Cond, rest: seq<Token>)
    requires AndLevel(c)
    ensures ParseAnd(Print(c) + rest) == AndTail(c, rest)
    decreases c, 2
  {
    match c {
      case And(l, r) =>
        var tail := [TAnd] + (Print(r) + rest);
        assert Print(c) + rest == Print(l) + tail;
        ParseAndPrint(l, tail);
        assert tail[1..] == Print(r) + rest;
        ParseNotPrint(r, rest);
      case _ => ParseNotPrint(c, rest);
    }
  }

  lemma ParseOrPrint(c: Cond, rest: seq<Token>)
    requires OrLevel(c) && !StartsWith(rest, TAnd)
    ensures ParseOr(Print(c) + rest) == OrTail(c, rest)
    decreases c, 3
  {
    match c {
      case Or(l, r) =>
        var tail := [TOr] + (Print(r) + rest);
        assert Print(c) + rest == Print(l) + tail;
        ParseOrPrint(l, tail);
        assert tail[1..] == Print(r) + rest;
        ParseAndPrint(r, rest);
      case _ => ParseAndPrint(c, rest);
    }
  }

  // ----- Parsing then printing -----

  /** Leaf tokens carry leaf conditions. */
  predicate LeafTokens(ts: seq<Token>) {
    forall t | t in ts :: t.TLeaf? ==> IsLeaf(t.c)
  }

  lemma PrintParseNot(ts: seq<Token>)
    requires LeafTokens(ts)
    ensures var p := ParseNot(ts); p.Got? ==> NotLevel(p.c) && Print(p.c) + p.rest == ts
    decreases |ts|, 1
  {
    if ts != [] {
      match ts[0] {
        case TNot => PrintParseNot(ts[1..]);
        case TOpen =>
          PrintParseOr(ts[1..]);
          var d := ParseOr(ts[1..]);
          if d.Got? && d.rest != [] && d.rest[0] == TClose {
            Parenthesised(Print(d.c), d.rest, ts);
          }
        case _ => assert ts == [ts[0]] + ts[1..];
      }
    }
  }

  lemma Parenthesised(inner: seq<Token>, rest: seq<Token>, ts: seq<Token>)
    requires ts != [] && ts[0] == TOpen && inner + rest == ts[1..] && rest != [] && rest[0] == TClose
    ensures [TOpen] + inner + [TClose] + rest[1..] == ts
  {
    assert rest == [TClose] + rest[1..];
    Regroup([TOpen] + inner, [TClose], rest[1..]);
    Regroup([TOpen], inner, rest);
  }

  lemma Regrouped<T>(a: seq<T>, op: T, b: seq<T>, rest: seq<T>, ts: seq<T>)
    requires ts != [] && ts[0] == op && b + rest == ts[1..]
    ensures a + [op] + b + rest == a + ts
  {
    assert ts == [op] + (b + rest);
  }

  lemma OrLevelOf(l: Cond, r: Cond)
    requires OrLevel(l) && AndLevel(r)
    ensures OrLevel(Or(l, r))
  {
  }

  lemma PrintAndTail(l: Cond, ts: seq<Token>)
    requires LeafTokens(ts) && AndLevel(l)
    ensures var p := AndTail(l, ts); p.Got? ==> AndLevel(p.c) && Print(p.c) + p.rest == Print(l) + ts
    decreases |ts|, 0
  {
    if StartsWith(ts, TAnd) {
      PrintParseNot(ts[1..]);
      var r := ParseNot(ts[1..]);
      if r.Got? {
        PrintRest(ts, r);
        PrintAndTail(And(l, r.c), r.rest);
        Regrouped(Print(l), TAnd, Print(r.c), r.rest, ts);
      }
    }
  }

  lemma PrintRest(ts: seq<Token>, p: Parsed)
    requires LeafTokens(ts) && ts != [] && p.Got? && Print(p.c) + p.rest == ts[1..]
    ensures LeafTokens(p.rest)
  {
    forall t | t in p.rest ensures t in ts { assert t in Print(p.c) + p.rest; }
  }

  lemma PrintParseAnd(ts: seq<Token>)
    requires LeafTokens(ts)
    ensures var p := ParseAnd(ts); p.Got? ==> AndLevel(p.c) && Print(p.c) + p.rest == ts
    decreases |ts|, 2
  {
    PrintParseNot(ts);
    var l := ParseNot(ts);
    if l.Got? {
      forall t | t in l.rest ensures t in ts { assert t in Print(l.c) + l.rest; }
      NotIsAnd(l.c);
      PrintAndTail(l.c, l.rest);
    }
  }

  lemma NotIsAnd(c: Cond)
    requires NotLevel(c)
    ensures AndLevel(c)
  {
  }

  lemma PrintOrTail(l: Cond, ts: seq<Token>)
    requires LeafTokens(ts) && OrLevel(l)
    ensures var p := OrTail(l, ts); p.Got? ==> OrLevel(p.c) && Print(p.c) + p.rest == Print(l) + ts
    decreases |ts|, 0
  {
    if StartsWith(ts, TOr) {
      PrintParseAnd(ts[1..]);
      var r := ParseAnd(ts[1..]);
      if r.Got? {
        PrintRest(ts, r);
        OrLevelOf(l, r.c);
        PrintOrTail(Or(l, r.c), r.rest);
        Regrouped(Print(l), TOr, Print(r.c), r.rest, ts);
      }
    }
  }

  /** A parse succeeds only with a tree that prints as what was read. */
  lemma {:induction false} PrintParseOr(ts: seq<Token>)
    requires LeafTokens(ts)
    ensures var p := ParseOr(ts); p.Got? ==> OrLevel(p.c) && Print(p.c) + p.rest == ts
    decreases |ts|, 3
  {
    PrintParseAnd(ts);
    var l := ParseAnd(ts);
    if l.Got? {
      forall t | t in l.rest ensures t in ts { assert t in Print(l.c) + l.rest; }
      PrintOrTail(l.c, l.rest);
    }
  }

  /** Printing and parsing a whole condition: the trees a parser produces are
      exactly those that come back unchanged. */
  lemma RoundTrip(c: Cond)
    requires LeafTokens(Print(c))
    ensures ParseOr(Print(c)) == Got(c, []) <==> OrLevel(c)
  {
    assert Print(c) + [] == Print(c);
    if OrLevel(c) {
      ParseOrPrint(c, []);
    }
    PrintParseOr(Print(c));
  }

  lemma PrintLeaves(c: Cond)
    ensures LeafTokens(Print(c))
  {
  }

  // ----- The guard's condition -----

  lemma RewriteKeepsLevel(c: Cond, who: Option<int>)
    ensures NotLevel(RewriteC(c, who)) == NotLevel(c)
    ensures AndLevel(RewriteC(c, who)) == AndLevel(c)
    ensures OrLevel(RewriteC(c, who)) == OrLevel(c)
  {
  }

  lemma InjectKeepsLevel(where: Option<Cond>, scopes: seq<Cond>)
    requires where.Some? ==> OrLevel(where.value)
    requires forall c | c in scopes :: IsLeaf(c)
    ensures InjectAll(where, scopes).Some? ==> OrLevel(InjectAll(where, scopes).value)
    decreases |scopes|
  {
    if scopes != [] {
      assert IsLeaf(scopes[0]);
      if where.Some? {
        assert NotLevel(Paren(where.value)) && AndLevel(Paren(where.value));
        assert AndLevel(And(Paren(where.value), scopes[0]));
      }
      InjectKeepsLevel(InjectAnd(where, scopes[0]), scopes[1..]);
    }
  }

  lemma ScopesAreLeaves(tables: seq<TableRef>, who: Option<int>)
    ensures forall c | c in LinkedScopes(tables, who) :: IsLeaf(c)
  {
  }

  /** Whatever ORs the original WHERE contains: the printed WHERE of a rewritten
      SELECT, read back, keeps a row exactly when the (rewritten) original does and
      every injected predicate is true. */
  lemma PrintedWhere(proj: Projection, from: From, where: Option<Cond>, who: Option<int>, db: Db, s: Scope, env: Env)
    requires where.Some? ==> OrLevel(where.value)
    ensures var w := RewriteQ(Select(proj, from, where), who).where;
      w.Some? ==>
        var p := ParseOr(Print(w.value));
        && p.Got? && p.rest == []
        && (EvalC(p.c, db, In(s, env)) == True
            <==> Keeps(RewriteO(where, who), db, env)(s) && AllTrue(ScopePreds(from, who), db, In(s, env)))
  {
    var w := RewriteQ(Select(proj, from, where), who).where;
    if where.Some? {
      RewriteKeepsLevel(where.value, who);
    }
    ScopesAreLeaves(SelectTables(from), who);
    InjectKeepsLevel(RewriteO(where, who), ScopePreds(from, who));
    if w.Some? {
      PrintLeaves(w.value);
      RoundTrip(w.value);
      InjectAllMeans(RewriteO(where, who), ScopePreds(from, who), db, env, s);
    }
  }

  /** Without the parentheses around the original condition the tree comes back changed
      exactly for the conditions with an OR at the top. */
  lemma ParenthesesNeeded(c: Cond, scope: Cond)
    requires OrLevel(c) && IsLeaf(scope)
    ensures ParseOr(Print(And(c, scope))) == Got(And(c, scope), []) <==> !c.Or?
  {
    PrintLeaves(And(c, scope));
    RoundTrip(And(c, scope));
    assert OrLevel(And(c, scope)) == AndLevel(And(c, scope)) == (AndLevel(c) && NotLevel(scope));
    assert c.Or? ==> !AndLevel(c);
  }

  /** There the injected predicate is read with the last disjunct only. */
  lemma ReadWithLast(l: Cond, r: Cond, scope: Cond)
    requires OrLevel(Or(l, r)) && IsLeaf(scope)
    ensures ParseOr(Print(And(Or(l, r), scope))) == Got(Or(l, And(r, scope)), [])
  {
    var misread := Or(l, And(r, scope));
    Regroup(Print(l) + [TOr], Print(r), [TAnd] + Print(scope));
    assert Print(And(Or(l, r), scope)) == Print(misread);
    assert NotLevel(scope) && AndLevel(And(r, scope)) && OrLevel(misread);
    PrintLeaves(misread);
    RoundTrip(misread);
  }

  /** So exactly the rows are kept that should not be for which what is left of the OR is
      true and the predicate is not; and none are lost. */
  lemma MisreadKeeps(l: Cond, r: Cond, scope: Cond, db: Db, env: Env)
    ensures EvalC(Or(l, And(r, scope)), db, env) == True && EvalC(And(Paren(Or(l, r)), scope), db, env) != True
       <==> EvalC(l, db, env) == True && EvalC(scope, db, env) != True
    ensures EvalC(And(Paren(Or(l, r)), scope), db, env) == True ==> EvalC(Or(l, And(r, scope)), db, env) == True
  {
    assert EvalC(And(r, scope), db, env) == AndT(EvalC(r, db, env), EvalC(scope, db, env));
    assert EvalC(Paren(Or(l, r)), db, env) == EvalC(Or(l, r), db, env) == OrT(EvalC(l, db, env), EvalC(r, db, env));
  }

  /** `1 = 1 OR 1 = 0 AND p.id = x` keeps every other person's row. */
  lemma OthersKept(x: int, y: int, db: Db)
    requires x != y
    ensures var b := Binding("p", ["id"], map["id" := Int(y)]);
            var (c, env) := (Or(Cmp(Eq, Lit(Int(1)), Lit(Int(1))), DENY), In(Push(Empty, b), Top));
            var p := ParseOr(Print(And(c, PersonScope(Some(x), "p"))));
            && p.Got? && p.rest == [] && EvalC(p.c, db, env) == True
            && EvalC(And(Paren(c), PersonScope(Some(x), "p")), db, env) == False
  {
    var b := Binding("p", ["id"], map["id" := Int(y)]);
    var env := In(Push(Empty, b), Top);
    var yes, scope := Cmp(Eq, Lit(Int(1)), Lit(Int(1))), PersonScope(Some(x), "p");
    assert Qualified(env, "p", "id") == Int(y);
    assert EvalC(scope, db, env) == False && EvalC(yes, db, env) == True;
    ReadWithLast(yes, DENY, scope);
    MisreadKeeps(yes, DENY, scope, db, env);
  }
}
