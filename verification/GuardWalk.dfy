/** The injector as it runs: it collects the SELECT nodes of a heap-allocated tree,
    then sets the WHERE of each, one predicate at a time.  The tree it leaves is the
    one `RewriteQ` describes. */
module GuardWalk {
  import opened Wrappers
  import opened Sql
  import opened SqlGuard

  // ----- Trees with SELECT nodes on the heap -----

  datatype HCond =
    | HCmp(op: CmpOp, l: Expr, r: Expr)
    | HIsNull(e: Expr)
    | HNot(c: HCond)
    | HAnd(left: HCond, right: HCond)
    | HOr(left: HCond, right: HCond)
    | HParen(c: HCond)
    | HIn(e: Expr, q: HQuery)
    | HExists(q: HQuery)

  datatype HItem = HTable(name: string, alias: string) | HDerived(q: HQuery, alias: string)

  datatype HFrom = HNothing | HJoin(left: HFrom, kind: JoinKind, item: HItem, on: Option<HCond>)

  datatype HQuery = HSelect(node: SelectNode) | HSet(op: SetOp, left: HQuery, right: HQuery)

  /** Only the WHERE clause of a SELECT ever changes.  `depth` is larger than the depth
      of every node below, and 0 for the subqueries the guard injects. */
  class SelectNode {
    const proj: Projection
    const from: HFrom
    ghost const depth: nat
    var where: Option<HCond>

    constructor (proj: Projection, from: HFrom, where: Option<HCond>, ghost depth: nat)
      ensures this.proj == proj && this.from == from && this.where == where && this.depth == depth
    {
      this.proj, this.from, this.where, this.depth := proj, from, where, depth;
    }
  }

  /** The WHERE clauses of some nodes at one moment. */
  type Wheres = map<SelectNode, Option<HCond>>

  ghost predicate Current(h: Wheres)
    reads h.Keys
  {
    forall n | n in h :: n.where == h[n]
  }

  const BROKEN: Query := Select(Star, Nothing, None)

  /** The query a tree stands for. */
  ghost function AbsQ(q: HQuery, h: Wheres, d: nat): Query
    decreases d, q
  {
    match q
    case HSelect(n) =>
      if n.depth < d && n in h then Select(n.proj, AbsF(n.from, h, n.depth), AbsO(h[n], h, n.depth)) else BROKEN
    case HSet(op, l, r) => SetQuery(op, AbsQ(l, h, d), AbsQ(r, h, d))
  }

  ghost function AbsF(from: HFrom, h: Wheres, d: nat): From
    decreases d, from
  {
    match from
    case HNothing => Nothing
    case HJoin(l, kind, HTable(name, alias), on) => Join(AbsF(l, h, d), kind, Table(name, alias), AbsO(on, h, d))
    case HJoin(l, kind, HDerived(q, alias), on) =>
      Join(AbsF(l, h, d), kind, Derived(AbsQ(q, h, d), alias), AbsO(on, h, d))
  }

  ghost function AbsO(c: Option<HCond>, h: Wheres, d: nat): Option<Cond>
    decreases d, c
  {
    match c case None => None case Some(e) => Some(AbsC(e, h, d))
  }

  ghost function AbsC(c: HCond, h: Wheres, d: nat): Cond
    decreases d, c
  {
    match c
    case HCmp(op, l, r) => Cmp(op, l, r)
    case HIsNull(e) => IsNull(e)
    case HNot(e) => Not(AbsC(e, h, d))
    case HAnd(l, r) => And(AbsC(l, h, d), AbsC(r, h, d))
    case HOr(l, r) => Or(AbsC(l, h, d), AbsC(r, h, d))
    case HParen(e) => Paren(AbsC(e, h, d))
    case HIn(e, q) => InQuery(e, AbsQ(q, h, d))
    case HExists(q) => Exists(AbsQ(q, h, d))
  }

  /** The SELECT nodes of a tree. */
  ghost function NodesQ(q: HQuery, h: Wheres, d: nat): seq<SelectNode>
    decreases d, q
  {
    match q
    case HSelect(n) =>
      if n.depth < d && n in h then [n] + NodesF(n.from, h, n.depth) + NodesO(h[n], h, n.depth) else []
    case HSet(_, l, r) => NodesQ(l, h, d) + NodesQ(r, h, d)
  }

  ghost function NodesF(from: HFrom, h: Wheres, d: nat): seq<SelectNode>
    decreases d, from
  {
    match from
    case HNothing => []
    case HJoin(l, _, HTable(_, _), on) => NodesF(l, h, d) + NodesO(on, h, d)
    case HJoin(l, _, HDerived(q, _), on) => NodesF(l, h, d) + NodesQ(q, h, d) + NodesO(on, h, d)
  }

  ghost function NodesO(c: Option<HCond>, h: Wheres, d: nat): seq<SelectNode>
    decreases d, c
  {
    match c case None => [] case Some(e) => NodesC(e, h, d)
  }

  ghost function NodesC(c: HCond, h: Wheres, d: nat): seq<SelectNode>
    decreases d, c
  {
    match c
    case HCmp(_, _, _) => []
    case HIsNull(_) => []
    case HNot(e) => NodesC(e, h, d)
    case HAnd(l, r) => NodesC(l, h, d) + NodesC(r, h, d)
    case HOr(l, r) => NodesC(l, h, d) + NodesC(r, h, d)
    case HParen(e) => NodesC(e, h, d)
    case HIn(_, q) => NodesQ(q, h, d)
    case HExists(q) => NodesQ(q, h, d)
  }

  /** Depths decrease from node to node below, down to 1, and every node is in `h`. */
  ghost predicate TreeQ(q: HQuery, h: Wheres, d: nat)
    decreases d, q
  {
    match q
    case HSelect(n) => n in h && 1 <= n.depth < d && TreeF(n.from, h, n.depth) && TreeO(h[n], h, n.depth)
    case HSet(_, l, r) => TreeQ(l, h, d) && TreeQ(r, h, d)
  }

  ghost predicate TreeF(from: HFrom, h: Wheres, d: nat)
    decreases d, from
  {
    match from
    case HNothing => true
    case HJoin(l, _, HTable(_, _), on) => TreeF(l, h, d) && TreeO(on, h, d)
    case HJoin(l, _, HDerived(q, _), on) => TreeF(l, h, d) && TreeQ(q, h, d) && TreeO(on, h, d)
  }

  ghost predicate TreeO(c: Option<HCond>, h: Wheres, d: nat)
    decreases d, c
  {
    match c case None => true case Some(e) => TreeC(e, h, d)
  }

  ghost predicate TreeC(c: HCond, h: Wheres, d: nat)
    decreases d, c
  {
    match c
    case HCmp(_, _, _) => true
    case HIsNull(_) => true
    case HNot(e) => TreeC(e, h, d)
    case HAnd(l, r) => TreeC(l, h, d) && TreeC(r, h, d)
    case HOr(l, r) => TreeC(l, h, d) && TreeC(r, h, d)
    case HParen(e) => TreeC(e, h, d)
    case HIn(_, q) => TreeQ(q, h, d)
    case HExists(q) => TreeQ(q, h, d)
  }

  // ----- Collecting the SELECT nodes -----

  method CollectQ(q: HQuery, ghost h: Wheres, ghost d: nat) returns (nodes: seq<SelectNode>)
    requires Current(h) && TreeQ(q, h, d)
    ensures nodes == NodesQ(q, h, d)
    decreases d, q
  {
    match q
    case HSelect(n) =>
      var f := CollectF(n.from, h, n.depth);
      var w := CollectO(n.where, h, n.depth);
      nodes := [n] + f + w;
    case HSet(_, l, r) =>
      var a := CollectQ(l, h, d);
      var b := CollectQ(r, h, d);
      nodes := a + b;
  }

  method CollectF(from: HFrom, ghost h: Wheres, ghost d: nat) returns (nodes: seq<SelectNode>)
    requires Current(h) && TreeF(from, h, d)
    ensures nodes == NodesF(from, h, d)
    decreases d, from
  {
    match from
    case HNothing => nodes := [];
    case HJoin(l, _, HTable(_, _), on) =>
      var a := CollectF(l, h, d);
      var c := CollectO(on, h, d);
      nodes := a + c;
    case HJoin(l, _, HDerived(q, _), on) =>
      var a := CollectF(l, h, d);
      var b := CollectQ(q, h, d);
      var c := CollectO(on, h, d);
      nodes := a + b + c;
  }

  method CollectO(c: Option<HCond>, ghost h: Wheres, ghost d: nat) returns (nodes: seq<SelectNode>)
    requires Current(h) && TreeO(c, h, d)
    ensures nodes == NodesO(c, h, d)
    decreases d, c
  {
    match c
    case None => nodes := [];
    case Some(e) => nodes := CollectC(e, h, d);
  }

  method CollectC(c: HCond, ghost h: Wheres, ghost d: nat) returns (nodes: seq<SelectNode>)
    requires Current(h) && TreeC(c, h, d)
    ensures nodes == NodesC(c, h, d)
    decreases d, c
  {
    match c
    case HCmp(_, _, _) => nodes := [];
    case HIsNull(_) => nodes := [];
    case HNot(e) => nodes := CollectC(e, h, d);
    case HAnd(l, r) =>
      var a := CollectC(l, h, d);
      var b := CollectC(r, h, d);
      nodes := a + b;
    case HOr(l, r) =>
      var a := CollectC(l, h, d);
      var b := CollectC(r, h, d);
      nodes := a + b;
    case HParen(e) => nodes := CollectC(e, h, d);
    case HIn(_, q) => nodes := CollectQ(q, h, d);
    case HExists(q) => nodes := CollectQ(q, h, d);
  }

  function HTables(from: HFrom): seq<TableRef> {
    match from
    case HNothing => []
    case HJoin(l, _, HTable(name, alias), _) => HTables(l) + [TableRef(name, alias)]
    case HJoin(l, _, HDerived(_, _), _) => HTables(l)
  }

  lemma HTablesIs(from: HFrom, h: Wheres, d: nat)
    ensures SelectTables(AbsF(from, h, d)) == HTables(from)
  {
  }

  // ----- Injected conditions -----

  const TEAM_FROM: HFrom := HJoin(HNothing, Inner, HTable("person_team", "person_team"), None)

  /** `sc` is the heap form of the scope predicate `c`; a subquery in it is a node of
      depth 0 whose WHERE is as it was injected. */
  ghost predicate ScopeIs(sc: HCond, c: Cond, h: Wheres) {
    match c
    case Cmp(op, l, r) => sc == HCmp(op, l, r)
    case InQuery(e, Select(proj, from, Some(Cmp(op, l, r)))) =>
      && sc.HIn? && sc.e == e && sc.q.HSelect? && sc.q.node in h
      && sc.q.node.depth == 0 && sc.q.node.proj == proj && sc.q.node.from == TEAM_FROM
      && h[sc.q.node] == Some(HCmp(op, l, r))
      && from == Join(Nothing, Inner, Table("person_team", "person_team"), None)
    case _ => false
  }

  /** `w'` is `w` with the predicates `cs` injected in order. */
  ghost predicate WhereIs(w': Option<HCond>, w: Option<HCond>, cs: seq<Cond>, h: Wheres)
    decreases |cs|
  {
    if cs == [] then w' == w
    else
      var init, last := cs[..|cs| - 1], cs[|cs| - 1];
      w'.Some? &&
      if init == [] && w.None? then ScopeIs(w'.value, last, h)
      else w'.value.HAnd? && w'.value.left.HParen? && ScopeIs(w'.value.right, last, h)
           && WhereIs(Some(w'.value.left.c), w, init, h)
  }

  lemma ScopeIsAbs(sc: HCond, c: Cond, h: Wheres, d: nat)
    requires ScopeIs(sc, c, h) && d >= 1
    ensures AbsC(sc, h, d) == c
  {
    if c.InQuery? {
      var f := sc.q.node;
      assert AbsF(HNothing, h, 0) == Nothing && AbsO(None, h, 0) == None;
      assert AbsF(TEAM_FROM, h, 0) == c.q.from;
      assert AbsO(h[f], h, 0) == Some(AbsC(h[f].value, h, 0));
    }
  }

  lemma InjectAllSnoc(w: Option<Cond>, cs: seq<Cond>, c: Cond)
    ensures InjectAll(w, cs + [c]) == InjectAnd(InjectAll(w, cs), c)
    decreases |cs|
  {
    if cs == [] {
      assert ([] + [c])[1..] == [];
    } else {
      assert (cs + [c])[1..] == cs[1..] + [c];
      InjectAllSnoc(InjectAnd(w, cs[0]), cs[1..], c);
    }
  }

  lemma InjectAllSome(w: Option<Cond>, cs: seq<Cond>)
    ensures InjectAll(w, cs).None? <==> w.None? && cs == []
    decreases |cs|
  {
    if cs != [] {
      InjectAllSome(InjectAnd(w, cs[0]), cs[1..]);
    }
  }

  lemma WhereIsAbs(w': Option<HCond>, w: Option<HCond>, cs: seq<Cond>, h: Wheres, d: nat)
    requires WhereIs(w', w, cs, h) && d >= 1
    ensures AbsO(w', h, d) == InjectAll(AbsO(w, h, d), cs)
    decreases |cs|
  {
    if cs != [] {
      var init, last := cs[..|cs| - 1], cs[|cs| - 1];
      assert cs == init + [last];
      InjectAllSnoc(AbsO(w, h, d), init, last);
      InjectAllSome(AbsO(w, h, d), init);
      if init == [] && w.None? {
        ScopeIsAbs(w'.value, last, h, d);
      } else {
        ScopeIsAbs(w'.value.right, last, h, d);
        var c := w'.value.left.c;
        WhereIsAbs(Some(c), w, init, h, d);
        assert AbsC(HParen(c), h, d) == Paren(AbsC(c, h, d));
      }
    }
  }

  /** Injected nodes keep their WHERE. */
  ghost predicate KeepsInjected(h1: Wheres, h2: Wheres) {
    forall f | f in h1 && f.depth == 0 :: f in h2 && h2[f] == h1[f]
  }

  lemma WhereIsFrame(w': Option<HCond>, w: Option<HCond>, cs: seq<Cond>, h1: Wheres, h2: Wheres)
    requires WhereIs(w', w, cs, h1) && KeepsInjected(h1, h2)
    ensures WhereIs(w', w, cs, h2)
    decreases |cs|
  {
    if cs != [] && !(cs[..|cs| - 1] == [] && w.None?) {
      WhereIsFrame(Some(w'.value.left.c), w, cs[..|cs| - 1], h1, h2);
    }
  }

  /** What `_inject_and` does to a WHERE. */
  function HInjectAnd(w: Option<HCond>, scope: HCond): Option<HCond> {
    match w case None => Some(scope) case Some(c) => Some(HAnd(HParen(c), scope))
  }

  lemma WhereIsSnoc(w': Option<HCond>, w: Option<HCond>, cs: seq<Cond>, h: Wheres, sc: HCond, c: Cond)
    requires WhereIs(w', w, cs, h) && ScopeIs(sc, c, h)
    ensures WhereIs(HInjectAnd(w', sc), w, cs + [c], h)
  {
    assert (cs + [c])[..|cs + [c]| - 1] == cs;
  }

  // ----- The final tree -----

  /** Every collected node got its predicates. */
  ghost predicate Injected(nodes: seq<SelectNode>, who: Option<int>, h: Wheres, h': Wheres) {
    forall n | n in nodes :: n in h && n in h' && WhereIs(h'[n], h[n], ScopesFor(HTables(n.from), who), h')
  }

  lemma {:induction false} FinalQ(q: HQuery, who: Option<int>, h: Wheres, h': Wheres, d: nat)
    requires TreeQ(q, h, d) && Injected(NodesQ(q, h, d), who, h, h')
    ensures AbsQ(q, h', d) == RewriteQ(AbsQ(q, h, d), who)
    decreases d, q
  {
    match q
    case HSet(_, l, r) => FinalQ(l, who, h, h', d); FinalQ(r, who, h, h', d);
    case HSelect(n) =>
      assert n == NodesQ(q, h, d)[0];
      FinalF(n.from, who, h, h', n.depth);
      FinalO(h[n], who, h, h', n.depth);
      HTablesIs(n.from, h, n.depth);
      WhereIsAbs(h'[n], h[n], ScopesFor(HTables(n.from), who), h', n.depth);
  }

  lemma FinalF(from: HFrom, who: Option<int>, h: Wheres, h': Wheres, d: nat)
    requires TreeF(from, h, d) && Injected(NodesF(from, h, d), who, h, h')
    ensures AbsF(from, h', d) == RewriteF(AbsF(from, h, d), who)
    decreases d, from
  {
    match from
    case HNothing =>
    case HJoin(l, _, HTable(_, _), on) =>
      FinalF(l, who, h, h', d);
      FinalO(on, who, h, h', d);
    case HJoin(l, _, HDerived(q, _), on) =>
      FinalF(l, who, h, h', d);
      FinalQ(q, who, h, h', d);
      FinalO(on, who, h, h', d);
  }

  lemma FinalO(c: Option<HCond>, who: Option<int>, h: Wheres, h': Wheres, d: nat)
    requires TreeO(c, h, d) && Injected(NodesO(c, h, d), who, h, h')
    ensures AbsO(c, h', d) == RewriteO(AbsO(c, h, d), who)
    decreases d, c
  {
    if c.Some? {
      FinalC(c.value, who, h, h', d);
    }
  }

  lemma InjectedParts(a: seq<SelectNode>, b: seq<SelectNode>, who: Option<int>, h: Wheres, h': Wheres)
    requires Injected(a + b, who, h, h')
    ensures Injected(a, who, h, h') && Injected(b, who, h, h')
  {
    forall n | n in a || n in b ensures n in a + b { }
  }

  lemma FinalC(c: HCond, who: Option<int>, h: Wheres, h': Wheres, d: nat)
    requires TreeC(c, h, d) && Injected(NodesC(c, h, d), who, h, h')
    ensures AbsC(c, h', d) == RewriteC(AbsC(c, h, d), who)
    decreases d, c
  {
    match c
    case HCmp(_, _, _) =>
    case HIsNull(_) =>
    case HNot(e) => FinalC(e, who, h, h', d);
    case HAnd(l, r) =>
      InjectedParts(NodesC(l, h, d), NodesC(r, h, d), who, h, h');
      FinalC(l, who, h, h', d);
      FinalC(r, who, h, h', d);
    case HOr(l, r) =>
      InjectedParts(NodesC(l, h, d), NodesC(r, h, d), who, h, h');
      FinalC(l, who, h, h', d);
      FinalC(r, who, h, h', d);
    case HParen(e) => FinalC(e, who, h, h', d);
    case HIn(_, q) => FinalQ(q, who, h, h', d);
    case HExists(q) => FinalQ(q, who, h, h', d);
  }

  // ----- The nodes of a tree are the SELECTs of its query -----

  ghost function AbsN(n: SelectNode, h: Wheres): Query
    requires n in h
  {
    Select(n.proj, AbsF(n.from, h, n.depth), AbsO(h[n], h, n.depth))
  }

  ghost predicate InTree(nodes: seq<SelectNode>, h: Wheres) {
    forall n | n in nodes :: n in h && n.depth >= 1
  }

  ghost function AbsAll(nodes: seq<SelectNode>, h: Wheres): set<Query>
    requires InTree(nodes, h)
  {
    set n | n in nodes :: AbsN(n, h)
  }

  lemma AbsAllUnion(a: seq<SelectNode>, b: seq<SelectNode>, h: Wheres)
    requires InTree(a, h) && InTree(b, h)
    ensures InTree(a + b, h) && AbsAll(a + b, h) == AbsAll(a, h) + AbsAll(b, h)
  {
  }

  lemma SelectsAreNodesQ(q: HQuery, h: Wheres, d: nat)
    requires TreeQ(q, h, d)
    ensures InTree(NodesQ(q, h, d), h) && SelectsQ(AbsQ(q, h, d)) == AbsAll(NodesQ(q, h, d), h)
    decreases d, q
  {
    match q
    case HSet(_, l, r) =>
      SelectsAreNodesQ(l, h, d);
      SelectsAreNodesQ(r, h, d);
      AbsAllUnion(NodesQ(l, h, d), NodesQ(r, h, d), h);
    case HSelect(n) =>
      SelectsAreNodesF(n.from, h, n.depth);
      SelectsAreNodesO(h[n], h, n.depth);
      var f, w := NodesF(n.from, h, n.depth), NodesO(h[n], h, n.depth);
      assert NodesQ(q, h, d) == [n] + f + w;
      assert AbsQ(q, h, d) == AbsN(n, h);
      assert SelectsQ(AbsN(n, h)) == {AbsN(n, h)} + AbsAll(f, h) + AbsAll(w, h);
      AbsAllUnion([n], f, h);
      AbsAllUnion([n] + f, w, h);
  }

  lemma SelectsAreNodesF(from: HFrom, h: Wheres, d: nat)
    requires TreeF(from, h, d)
    ensures InTree(NodesF(from, h, d), h) && SelectsF(AbsF(from, h, d)) == AbsAll(NodesF(from, h, d), h)
    decreases d, from
  {
    match from
    case HNothing =>
    case HJoin(l, _, HTable(_, _), on) =>
      SelectsAreNodesF(l, h, d);
      SelectsAreNodesO(on, h, d);
      AbsAllUnion(NodesF(l, h, d), NodesO(on, h, d), h);
    case HJoin(l, _, HDerived(q, _), on) =>
      SelectsAreNodesF(l, h, d);
      SelectsAreNodesQ(q, h, d);
      SelectsAreNodesO(on, h, d);
      AbsAllUnion(NodesF(l, h, d), NodesQ(q, h, d), h);
      AbsAllUnion(NodesF(l, h, d) + NodesQ(q, h, d), NodesO(on, h, d), h);
  }

  lemma SelectsAreNodesO(c: Option<HCond>, h: Wheres, d: nat)
    requires TreeO(c, h, d)
    ensures InTree(NodesO(c, h, d), h) && SelectsO(AbsO(c, h, d)) == AbsAll(NodesO(c, h, d), h)
    decreases d, c
  {
    if c.Some? {
      SelectsAreNodesC(c.value, h, d);
    }
  }

  lemma SelectsAreNodesC(c: HCond, h: Wheres, d: nat)
    requires TreeC(c, h, d)
    ensures InTree(NodesC(c, h, d), h) && SelectsC(AbsC(c, h, d)) == AbsAll(NodesC(c, h, d), h)
    decreases d, c
  {
    match c
    case HCmp(_, _, _) =>
    case HIsNull(_) =>
    case HNot(e) => SelectsAreNodesC(e, h, d);
    case HAnd(l, r) =>
      SelectsAreNodesC(l, h, d);
      SelectsAreNodesC(r, h, d);
      AbsAllUnion(NodesC(l, h, d), NodesC(r, h, d), h);
    case HOr(l, r) =>
      SelectsAreNodesC(l, h, d);
      SelectsAreNodesC(r, h, d);
      AbsAllUnion(NodesC(l, h, d), NodesC(r, h, d), h);
    case HParen(e) => SelectsAreNodesC(e, h, d);
    case HIn(_, q) => SelectsAreNodesQ(q, h, d);
    case HExists(q) => SelectsAreNodesQ(q, h, d);
  }

  predicate Known(t: TableRef) {
    Classify(t.name) != Unclassified
  }

  predicate TablesKnown(tables: seq<TableRef>) {
    forall t | t in tables :: Known(t)
  }

  lemma ClassifiedNodes(nodes: seq<SelectNode>, h: Wheres)
    requires InTree(nodes, h)
    ensures (forall n | n in nodes :: TablesKnown(HTables(n.from))) <==> AllClassified(AbsAll(nodes, h))
  {
    forall n | n in nodes ensures SelectTables(AbsN(n, h).from) == HTables(n.from) && AbsN(n, h) in AbsAll(nodes, h) {
      HTablesIs(n.from, h, n.depth);
    }
    if AllClassified(AbsAll(nodes, h)) {
      forall n, t | n in nodes && t in HTables(n.from) ensures Classify(t.name) != Unclassified {
        assert AbsN(n, h) in AbsAll(nodes, h) && t in SelectTables(AbsN(n, h).from);
      }
    }
  }

  // ----- The walk -----

  /** `_inject_and` */
  method AddScope(select: SelectNode, scope: HCond)
    modifies select
    ensures select.where == HInjectAnd(old(select.where), scope)
  {
    match select.where
    case None => select.where := Some(scope);
    case Some(c) => select.where := Some(HAnd(HParen(c), scope));
  }

  /** What one SELECT's turn may change: its own WHERE, and new nodes of depth 0. */
  ghost predicate OnlyThis(select: SelectNode, h: Wheres, h': Wheres)
    reads h'.Keys
  {
    Current(h') && Grown(h, h') && SameBut(select, h, h')
  }

  ghost predicate SameBut(select: SelectNode, h: Wheres, h': Wheres) {
    forall n | n in h && n != select :: n in h' && h'[n] == h[n]
  }

  /** One turn after another. */
  lemma GrownTwice(select: SelectNode, h: Wheres, h1: Wheres, h2: Wheres)
    requires Grown(h, h1) && SameBut(select, h, h1) && Grown(h1, h2) && SameBut(select, h1, h2)
    ensures Grown(h, h2) && SameBut(select, h, h2)
    ensures h2.Keys - h.Keys == (h2.Keys - h1.Keys) + (h1.Keys - h.Keys)
  {
    forall n | n in h && n != select ensures n in h2 && h2[n] == h[n] {
      assert h1[n] == h[n];
    }
    forall k | k in h2.Keys - h.Keys ensures k.depth == 0 {
      assert k in h2.Keys - h1.Keys || k in h1.Keys - h.Keys;
    }
  }

  /** More nodes, of depth 0: the injected subqueries. */
  ghost predicate Grown(h: Wheres, h': Wheres) {
    h.Keys <= h'.Keys && forall f | f in h'.Keys - h.Keys :: f.depth == 0
  }

  ghost predicate ScopePredicate(c: Cond) {
    c.Cmp? || exists x, alias :: c == TeamFkScope(Some(x), alias)
  }

  /** The heap form of a scope predicate; its subquery, if any, is a new node. */
  method ParseScope(c: Cond, ghost h: Wheres) returns (sc: HCond, ghost h': Wheres)
    requires ScopePredicate(c) && Current(h)
    ensures Current(h') && Grown(h, h') && fresh(h'.Keys - h.Keys) && ScopeIs(sc, c, h')
    ensures forall n | n in h :: h'[n] == h[n]
  {
    h' := h;
    match c {
      case Cmp(op, l, r) => sc := HCmp(op, l, r);
      case InQuery(e, q) =>
        var w := q.where.value;
        var f := new SelectNode(q.proj, TEAM_FROM, Some(HCmp(w.op, w.l, w.r)), 0);
        h' := h[f := f.where];
        sc := HIn(e, HSelect(f));
    }
  }

  /** One predicate: parsed, then added to the WHERE. */
  method InjectOne(select: SelectNode, c: Cond, ghost w: Option<HCond>, ghost cs: seq<Cond>, ghost h: Wheres)
    returns (ghost h': Wheres)
    requires ScopePredicate(c) && Current(h) && select in h && select.depth >= 1
    requires WhereIs(h[select], w, cs, h)
    modifies select
    ensures OnlyThis(select, h, h') && fresh(h'.Keys - h.Keys) && WhereIs(h'[select], w, cs + [c], h')
  {
    var sc;
    sc, h' := ParseScope(c, h);
    WhereIsFrame(h[select], w, cs, h, h');
    WhereIsSnoc(h[select], w, cs, h', sc, c);
    ghost var parsed := h';
    AddScope(select, sc);
    h' := h'[select := select.where];
    WhereIsFrame(h'[select], w, cs + [c], parsed, h');
  }

  lemma LinkedStep(tables: seq<TableRef>, i: nat, who: Option<int>)
    requires i < |tables|
    ensures LinkedScopes(tables[..i + 1], who) == LinkedScopes(tables[..i], who) + LinkedFor(tables[i], who)
  {
    assert tables[..i + 1] == tables[..i] + [tables[i]];
    LinkedScopesAppend(tables[..i], [tables[i]], who);
    assert [tables[i]][1..] == [];
  }

  /** `known` stands for `Known` on the tables of the list. */
  ghost predicate Decides(known: TableRef -> bool, tables: seq<TableRef>) {
    forall i {:trigger Known(tables[i])} | 0 <= i < |tables| :: known(tables[i]) <==> Known(tables[i])
  }

  /** What the loop has established after the tables before `i`. */
  ghost predicate LinkedUpTo(select: SelectNode, tables: seq<TableRef>, i: nat, who: Option<int>, w: Option<HCond>,
                             person: seq<Cond>, h: Wheres)
  {
    i <= |tables| && select in h && WhereIs(h[select], w, person + LinkedScopes(tables[..i], who), h)
  }

  lemma LinkedNext(select: SelectNode, tables: seq<TableRef>, i: nat, who: Option<int>, w: Option<HCond>,
                   person: seq<Cond>, h: Wheres)
    requires i < |tables| && select in h
    requires WhereIs(h[select], w, person + LinkedScopes(tables[..i], who) + LinkedFor(tables[i], who), h)
    ensures LinkedUpTo(select, tables, i + 1, who, w, person, h)
  {
    LinkedStep(tables, i, who);
    assert person + LinkedScopes(tables[..i], who) + LinkedFor(tables[i], who)
        == person + LinkedScopes(tables[..i + 1], who);
  }

  lemma LinkedNone(select: SelectNode, tables: seq<TableRef>, who: Option<int>, w: Option<HCond>, person: seq<Cond>,
                   h: Wheres)
    requires select in h && WhereIs(h[select], w, person, h)
    ensures LinkedUpTo(select, tables, 0, who, w, person, h)
  {
    assert person + LinkedScopes(tables[..0], who) == person;
  }

  lemma LinkedAll(select: SelectNode, tables: seq<TableRef>, who: Option<int>, w: Option<HCond>, person: seq<Cond>,
                  h: Wheres)
    requires LinkedUpTo(select, tables, |tables|, who, w, person, h)
    ensures WhereIs(h[select], w, person + LinkedScopes(tables, who), h)
  {
    assert tables[..|tables|] == tables;
  }

  /** What the loop has done before table i, since the heap was h0. */
  ghost predicate Turn(select: SelectNode, tables: seq<TableRef>, i: nat, who: Option<int>, known: TableRef -> bool,
                       w: Option<HCond>, person: seq<Cond>, h0: Wheres, h: Wheres)
    reads h.Keys
  {
    && OnlyThis(select, h0, h) && LinkedUpTo(select, tables, i, who, w, person, h)
    && forall j | 0 <= j < i :: known(tables[j])
  }

  lemma FirstTurn(select: SelectNode, tables: seq<TableRef>, who: Option<int>, known: TableRef -> bool,
                  w: Option<HCond>, person: seq<Cond>, h: Wheres)
    requires Current(h) && select in h && WhereIs(h[select], w, person, h)
    ensures Turn(select, tables, 0, who, known, w, person, h, h)
  {
    LinkedNone(select, tables, who, w, person, h);
  }

  lemma LastTurn(select: SelectNode, tables: seq<TableRef>, who: Option<int>, known: TableRef -> bool, w: Option<HCond>,
                 person: seq<Cond>, h0: Wheres, h: Wheres)
    requires Turn(select, tables, |tables|, who, known, w, person, h0, h)
    ensures OnlyThis(select, h0, h) && forall j | 0 <= j < |tables| :: known(tables[j])
    ensures WhereIs(h[select], w, person + LinkedScopes(tables, who), h)
  {
    LinkedAll(select, tables, who, w, person, h);
  }

  /** One table of the list: its predicate, if its class calls for one. */
  method InjectTable(select: SelectNode, tables: seq<TableRef>, i: nat, who: Option<int>, ghost known: TableRef -> bool,
                     ghost w: Option<HCond>, ghost person: seq<Cond>, ghost h0: Wheres, ghost h: Wheres)
    returns (ok: bool, ghost h': Wheres)
    requires select.depth >= 1 && Turn(select, tables, i, who, known, w, person, h0, h)
    requires i < |tables| && Decides(known, tables)
    modifies select
    ensures fresh(h'.Keys - h.Keys) && h'.Keys - h0.Keys == (h'.Keys - h.Keys) + (h.Keys - h0.Keys)
    ensures ok ==> Turn(select, tables, i + 1, who, known, w, person, h0, h')
    ensures !ok ==> OnlyThis(select, h0, h') && !known(tables[i])
  {
    h', ok := h, true;
    var t := tables[i];
    ghost var cs := person + LinkedScopes(tables[..i], who);
    assert known(tables[i]) <==> Known(tables[i]);
    match Classify(t.name) {
      case Person => assert cs + [] == cs;
      case PersonFk => h' := InjectOne(select, FkScope(who, t.alias), w, cs, h);
      case PersonTeamFk => h' := InjectOne(select, TeamFkScope(who, t.alias), w, cs, h);
      case PersonFree => assert cs + [] == cs;
      case Unclassified => return false, h;
    }
    GrownTwice(select, h0, h, h');
    LinkedNext(select, tables, i, who, w, person, h');
  }

  /** The loop over the tables of one SELECT. */
  method InjectLinked(select: SelectNode, tables: seq<TableRef>, who: Option<int>, ghost w: Option<HCond>,
                      ghost person: seq<Cond>, ghost known: TableRef -> bool, ghost h: Wheres)
    returns (ok: bool, ghost h': Wheres)
    requires Current(h) && select in h && select.depth >= 1 && WhereIs(h[select], w, person, h)
    requires Decides(known, tables)
    modifies select
    ensures OnlyThis(select, h, h') && fresh(h'.Keys - h.Keys)
    ensures ok <==> forall i | 0 <= i < |tables| :: known(tables[i])
    ensures ok ==> WhereIs(h'[select], w, person + LinkedScopes(tables, who), h')
  {
    h', ok := h, true;
    FirstTurn(select, tables, who, known, w, person, h);
    ghost var turn := Turn(select, tables, 0, who, known, w, person, h, h);
    for i := 0 to |tables|
      invariant ok && turn && turn == Turn(select, tables, i, who, known, w, person, h, h')
      invariant fresh(h'.Keys - h.Keys)
    {
      ok, h' := InjectTable(select, tables, i, who, known, w, person, h, h');
      if !ok {
        return;
      }
    }
    LastTurn(select, tables, who, known, w, person, h, h');
  }

  /** One SELECT: the person predicate first, then one per linked table in order;
      an unclassified table stops the walk. */
  method InjectSelect(select: SelectNode, who: Option<int>, ghost h: Wheres) returns (ok: bool, ghost h': Wheres)
    requires Current(h) && select in h && select.depth >= 1
    modifies select
    ensures OnlyThis(select, h, h') && fresh(h'.Keys - h.Keys)
    ensures ok <==> TablesKnown(HTables(select.from))
    ensures ok ==> WhereIs(h'[select], h[select], ScopesFor(HTables(select.from), who), h')
  {
    h' := h;
    var tables := HTables(select.from);
    ghost var person: seq<Cond> := [];
    var alias := PersonAlias(tables);
    if alias.Some? {
      h' := InjectOne(select, PersonScope(who, alias.value), h[select], person, h');
      person := person + [PersonScope(who, alias.value)];
    }
    ok, h' := InjectLinked(select, tables, who, h[select], person, (t: TableRef) => Known(t), h');
  }

  ghost predicate NoDuplicates(nodes: seq<SelectNode>) {
    forall i, j | 0 <= i < j < |nodes| :: nodes[i] != nodes[j]
  }

  lemma InjectedStep(nodes: seq<SelectNode>, k: nat, who: Option<int>, h: Wheres, before: Wheres, h': Wheres)
    requires k < |nodes| && nodes[k] !in nodes[..k] && InTree(nodes, h) && h.Keys <= before.Keys <= h'.Keys
    requires Injected(nodes[..k], who, h, before) && before[nodes[k]] == h[nodes[k]]
    requires forall n | n in before && n != nodes[k] :: h'[n] == before[n]
    requires WhereIs(h'[nodes[k]], before[nodes[k]], ScopesFor(HTables(nodes[k].from), who), h')
    ensures Injected(nodes[..k + 1], who, h, h')
  {
    assert nodes[..k + 1] == nodes[..k] + [nodes[k]];
    assert nodes[k].depth >= 1;
    forall n | n in nodes[..k] ensures WhereIs(h'[n], h[n], ScopesFor(HTables(n.from), who), h') {
      WhereIsFrame(before[n], h[n], ScopesFor(HTables(n.from), who), before, h');
    }
  }

  lemma FreshNode(nodes: seq<SelectNode>, k: nat)
    requires k < |nodes| && NoDuplicates(nodes)
    ensures nodes[k] in nodes && nodes[k] !in nodes[..k]
    ensures forall n :: n in nodes[..k + 1] <==> n in nodes[..k] || n == nodes[k]
  {
    assert nodes[..k + 1] == nodes[..k] + [nodes[k]];
  }

  /** The loop over the collected nodes; `good` stands for `TablesKnown`. */
  method InjectNodes(nodes: seq<SelectNode>, who: Option<int>, ghost good: SelectNode -> bool, ghost h: Wheres)
    returns (ok: bool, ghost h': Wheres)
    requires Current(h) && InTree(nodes, h) && NoDuplicates(nodes)
    requires forall n | n in nodes :: good(n) <==> TablesKnown(HTables(n.from))
    modifies set n | n in nodes
    ensures Current(h') && Grown(h, h') && fresh(h'.Keys - h.Keys)
    ensures forall n | n in h && n !in nodes :: h'[n] == h[n]
    ensures ok <==> forall n | n in nodes :: good(n)
    ensures ok ==> Injected(nodes, who, h, h')
  {
    h', ok := h, true;
    for k := 0 to |nodes|
      invariant Current(h') && Grown(h, h') && fresh(h'.Keys - h.Keys)
      invariant forall n | n in h && n !in nodes[..k] :: h'[n] == h[n]
      invariant ok && forall j | 0 <= j < k :: good(nodes[j])
      invariant Injected(nodes[..k], who, h, h')
    {
      ghost var before := h';
      FreshNode(nodes, k);
      ghost var g := good(nodes[k]);
      ok, h' := InjectSelect(nodes[k], who, h');
      assert ok == g;
      if !ok {
        return;
      }
      InjectedStep(nodes, k, who, h, before, h');
    }
    assert nodes[..|nodes|] == nodes;
  }

  /** `_inject_scope_into_tree`: the SELECT nodes are collected before any of them is
      changed, so the injected subqueries are not visited.  On success the tree stands
      for the rewritten query; it fails exactly when some SELECT names an unclassified
      table; nodes outside the tree are untouched. */
  method InjectScope(root: HQuery, who: Option<int>, ghost h: Wheres, ghost d: nat) returns (ok: bool, ghost h': Wheres)
    requires Current(h) && TreeQ(root, h, d) && NoDuplicates(NodesQ(root, h, d))
    modifies set n | n in NodesQ(root, h, d)
    ensures Current(h') && Grown(h, h') && fresh(h'.Keys - h.Keys)
    ensures forall n | n in h && n !in NodesQ(root, h, d) :: h'[n] == h[n]
    ensures ok <==> AllClassified(SelectsQ(AbsQ(root, h, d)))
    ensures ok ==> AbsQ(root, h', d) == RewriteQ(AbsQ(root, h, d), who)
  {
    var nodes := CollectQ(root, h, d);
    SelectsAreNodesQ(root, h, d);
    ClassifiedNodes(nodes, h);
    ok, h' := InjectNodes(nodes, who, (n: SelectNode) => TablesKnown(HTables(n.from)), h);
    if ok {
      FinalQ(root, who, h, h', d);
    }
  }
}
