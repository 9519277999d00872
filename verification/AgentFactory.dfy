/** The shared agent, the per-request agents and their guarded connections: the objects,
    the runner's retries, and all interleavings of calls. */
module AgentFactory {
  import opened Wrappers
  import opened Sql
  import opened SqlEval
  import opened SqlGuard
  import opened OwnRows
  import opened ScopeIsolation

  /** The contexts whose guards a connection's `run` passes a statement through, the
      outermost first. */
  type Layers = seq<Option<Context>>

  /** What reaches the ERP when a statement is run, if anything does. */
  function Executed(layers: Layers, q: Query): Result<Query, GuardError> {
    if layers == [] then Ok(q)
    else
      match Guard(q, layers[0])
      case Err(e) => Err(e)
      case Ok(g) => Executed(layers[1..], g)
  }

  /** An agent that anyone who is not restricted may use. */
  predicate SharedLayers(layers: Layers) { |layers| == 1 && !Restricted(layers[0]) }

  /** The layers of an agent that fit its caller. */
  predicate FitsCaller(layers: Layers, ctx: Option<Context>) {
    if Restricted(ctx) then layers == [ctx] else SharedLayers(layers)
  }

  /** Whoever an agent was built for: if it fits the caller, it runs what the guard makes
      of the statement for the caller's own context, once. */
  lemma RunsForCaller(layers: Layers, ctx: Option<Context>, q: Query)
    requires FitsCaller(layers, ctx)
    ensures Executed(layers, q) == Guard(q, ctx)
  {
    assert Executed(layers, q) == Guard(q, layers[0]);
  }

  /** One more guard inside sees what the others let through, and only that. */
  lemma {:induction false} InnermostGuard(layers: Layers, inner: Option<Context>, q: Query)
    ensures Executed(layers + [inner], q) ==
              match Executed(layers, q)
              case Err(e) => Err(e)
              case Ok(g) => Guard(g, inner)
  {
    if layers == [] {
      assert layers + [inner] == [inner] && [inner][1..] == [];
    } else {
      assert (layers + [inner])[0] == layers[0] && (layers + [inner])[1..] == layers[1..] + [inner];
      if Guard(q, layers[0]).Ok? {
        InnermostGuard(layers[1..], inner, Guard(q, layers[0]).value);
      }
    }
  }

  // ----- The objects -----

  class Connection {
    var layers: Layers

    constructor (layers: Layers)
      ensures this.layers == layers
    {
      this.layers := layers;
    }

    /** A shallow copy shares no `run` with its original. */
    method Copy() returns (c: Connection)
      ensures fresh(c) && c.layers == layers
    {
      c := new Connection(layers);
    }

    method Run(q: Query) returns (r: Result<Query, GuardError>)
      ensures r == Executed(layers, q)
    {
      r := Ok(q);
      var n := 0;
      while n < |layers| && r.Ok?
        invariant n <= |layers|
        invariant r.Ok? ==> Executed(layers, q) == Executed(layers[n..], r.value)
        invariant r.Err? ==> Executed(layers, q) == r
      {
        assert layers[n..][1..] == layers[n + 1..];
        r := Guard(r.value, layers[n]);
        n := n + 1;
      }
    }
  }

  /** One attempt of the runner: whether an agent can be built if one is needed, and what
      invoking the agent gives. */
  datatype Attempt = Attempt(builds: bool, answer: Option<string>)

  /** The answer of the first attempt that has an agent and an answer; `have`: the first
      attempt finds a shared agent. */
  function Retry(have: bool, attempts: seq<Attempt>): Option<string> {
    if attempts == [] then None
    else if (have || attempts[0].builds) && attempts[0].answer.Some? then attempts[0].answer
    else Retry(false, attempts[1..])
  }

  /** Attempt k has an agent - one is built, or k is the first attempt and there is a
      shared one - and invoking it gives an answer. */
  predicate WorksOut(have: bool, attempts: seq<Attempt>, k: nat)
    requires k < |attempts|
  {
    (attempts[k].builds || (k == 0 && have)) && attempts[k].answer.Some?
  }

  /** Attempt k works out and none before it does. */
  predicate Earliest(have: bool, attempts: seq<Attempt>, k: nat)
    requires k < |attempts|
  {
    WorksOut(have, attempts, k) && forall j | 0 <= j < k :: !WorksOut(have, attempts, j)
  }

  lemma EarliestNext(have: bool, attempts: seq<Attempt>, k: nat)
    requires k < |attempts| - 1 && Earliest(false, attempts[1..], k) && !WorksOut(have, attempts, 0)
    ensures Earliest(have, attempts, k + 1)
  {
    forall j | 0 <= j < k + 1 ensures !WorksOut(have, attempts, j) {
      assert j > 0 ==> !WorksOut(false, attempts[1..], j - 1);
    }
  }

  /** The answer is that of the earliest attempt that works out; there is none if and
      only if none of the attempts does. */
  lemma {:induction false} RetryIs(have: bool, attempts: seq<Attempt>)
    ensures Retry(have, attempts) == None <==> forall k | 0 <= k < |attempts| :: !WorksOut(have, attempts, k)
    ensures Retry(have, attempts).Some? ==>
              exists k :: 0 <= k < |attempts| && Earliest(have, attempts, k)
                          && Retry(have, attempts) == attempts[k].answer
    decreases attempts
  {
    if attempts == [] {
    } else if WorksOut(have, attempts, 0) {
      assert Earliest(have, attempts, 0);
    } else {
      RetryIs(false, attempts[1..]);
      forall k | 0 < k < |attempts| ensures WorksOut(have, attempts, k) <==> WorksOut(false, attempts[1..], k - 1) {
      }
      if Retry(have, attempts).Some? {
        var k :| 0 <= k < |attempts| - 1 && Earliest(false, attempts[1..], k)
              && Retry(have, attempts) == attempts[1..][k].answer;
        EarliestNext(have, attempts, k);
      } else {
        forall k | 0 < k < |attempts| ensures !WorksOut(have, attempts, k) {
          assert !WorksOut(false, attempts[1..], k - 1);
        }
      }
    }
  }

  class Factory {
    var cached: map<string, Connection>
    var agent: Connection?

    /** Cached connections stay unwrapped; the shared agent has one guard, which
        restricts nobody. */
    ghost predicate Valid()
      reads this, cached.Values, agent
    {
      && (forall c <- cached.Values :: c.layers == [])
      && (agent != null ==> SharedLayers(agent.layers))
    }

    constructor ()
      ensures Valid() && agent == null && cached == map[]
    {
      cached, agent := map[], null;
    }

    /** Built once per database. */
    method ErpDb(url: string) returns (db: Connection)
      requires Valid()
      modifies this`cached
      ensures Valid() && url in cached && db == cached[url]
      ensures forall u <- old(cached) :: u in cached && cached[u] == old(cached[u])
      ensures url !in old(cached) ==> fresh(db)
    {
      if url !in cached {
        db := new Connection([]);
        cached := cached[url := db];
      }
      db := cached[url];
    }

    /** A copy of the cached connection, with the guard for ctx around its `run`. */
    method BuildAgent(url: string, ctx: Option<Context>, builds: bool) returns (db: Connection?)
      requires Valid()
      modifies this`cached
      ensures Valid() && (db != null <==> builds)
      ensures db != null ==> fresh(db) && db.layers == [ctx] && db !in cached.Values
    {
      var base := ErpDb(url);
      var copy := base.Copy();
      copy.layers := [ctx] + copy.layers;
      db := if builds then copy else null;
    }

    method GetAgent(url: string, ctx: Option<Context>, builds: bool) returns (r: Connection?)
      requires Valid()
      modifies this
      ensures Valid() && (r != null ==> FitsCaller(r.layers, ctx))
      ensures Restricted(ctx) ==> agent == old(agent) && (r != null <==> builds) && (r != null ==> fresh(r))
      ensures !Restricted(ctx) ==> r == agent && (r != null <==> builds || old(agent) != null)
      ensures !Restricted(ctx) && old(agent) != null ==> r == old(agent)
    {
      if !Restricted(ctx) {
        if agent == null {
          agent := BuildAgent(url, ctx, builds);
        }
        return agent;
      }
      r := BuildAgent(url, ctx, builds);
    }

    method ResetSharedAgent()
      modifies this`agent
      ensures agent == null
    {
      agent := null;
    }

    /** Up to three attempts, dropping the shared agent after each one of its failures. */
    method Query(url: string, ctx: Option<Context>, attempts: seq<Attempt>) returns (answer: Option<string>)
      requires Valid() && |attempts| == 3
      modifies this
      ensures Valid()
      ensures answer == Retry(!Restricted(ctx) && old(agent) != null, attempts)
      ensures answer.None? <==> forall k | 0 <= k < 3 ::
                attempts[k].answer.None? || !(attempts[k].builds || (k == 0 && !Restricted(ctx) && old(agent) != null))
      ensures answer.Some? ==>
                exists k :: 0 <= k < 3 && Earliest(!Restricted(ctx) && old(agent) != null, attempts, k)
                            && answer == attempts[k].answer
      ensures Restricted(ctx) ==> agent == old(agent)
      ensures !Restricted(ctx) ==> (answer.Some? <==> agent != null)
    {
      answer := None;
      ghost var have := !Restricted(ctx) && agent != null;
      RetryIs(have, attempts);
      forall k | 0 <= k < 3
        ensures WorksOut(have, attempts, k)
           <==> !(attempts[k].answer.None? || !(attempts[k].builds || (k == 0 && have)))
      {
      }
      assert Retry(have, attempts).None? <==> forall k | 0 <= k < 3 :: !WorksOut(have, attempts, k);
      var n := 0;
      while n < 3 && answer.None?
        invariant n <= 3 && Valid()
        invariant Restricted(ctx) ==> agent == old(agent)
        invariant !Restricted(ctx) && (answer.Some? || n > 0) ==> (answer.Some? <==> agent != null)
        invariant !Restricted(ctx) && n == 0 ==> agent == old(agent)
        invariant Retry(!Restricted(ctx) && old(agent) != null, attempts)
               == if answer.Some? then answer else Retry(!Restricted(ctx) && agent != null, attempts[n..])
      {
        assert attempts[n..][0] == attempts[n] && attempts[n..][1..] == attempts[n + 1..];
        var a := GetAgent(url, ctx, attempts[n].builds);
        if a != null && attempts[n].answer.Some? {
          answer := attempts[n].answer;
        } else if !Restricted(ctx) {
          ResetSharedAgent();
        }
        n := n + 1;
      }
    }
  }

  // ----- All interleavings -----

  /** Where a call of the runner is. */
  datatype Phase =
    | Attempting               // about to call get_agent
    | Building                 // saw no shared agent
    | Storing(layers: Layers)  // built one, about to store it
    | Returning                // about to read the shared agent again
    | Holding(agent: Option<Layers>)
    | Failing                  // an attempt raised
    | Done(answered: bool)

  datatype Call = Call(ctx: Option<Context>, attempt: nat, phase: Phase)

  datatype State = State(shared: Option<Layers>, calls: map<int, Call>)

  const ATTEMPTS := 3

  /** The next step of a call; `ok`: building or invoking works out. */
  function Advance(shared: Option<Layers>, c: Call, ok: bool): (Option<Layers>, Call)
    requires !c.phase.Done?
  {
    match c.phase
    case Attempting =>
      if Restricted(c.ctx) then (shared, c.(phase := if ok then Holding(Some([c.ctx])) else Failing))
      else (shared, c.(phase := if shared.None? then Building else Returning))
    case Building => (shared, c.(phase := if ok then Storing([c.ctx]) else Failing))
    case Storing(layers) => (Some(layers), c.(phase := Returning))
    case Returning => (shared, c.(phase := Holding(shared)))
    case Holding(agent) => (shared, c.(phase := if agent.Some? && ok then Done(true) else Failing))
    case Failing =>
      (if Restricted(c.ctx) then shared else None,
       if c.attempt + 1 < ATTEMPTS then c.(attempt := c.attempt + 1, phase := Attempting)
       else c.(phase := Done(false)))
  }

  ghost predicate Steps(s: State, s': State, t: int, ok: bool) {
    && t in s.calls && !s.calls[t].phase.Done?
    && s' == State(Advance(s.shared, s.calls[t], ok).0, s.calls[t := Advance(s.shared, s.calls[t], ok).1])
  }

  ghost predicate Begins(s: State, s': State, t: int, ctx: Option<Context>) {
    t !in s.calls && s' == s.(calls := s.calls[t := Call(ctx, 0, Attempting)])
  }

  ghost predicate Next(s: State, s': State) {
    (exists t, ok :: Steps(s, s', t, ok)) || (exists t, ctx :: Begins(s, s', t, ctx))
  }

  ghost predicate Run(run: seq<State>) {
    && run != [] && run[0] == State(None, map[])
    && forall k | 0 <= k < |run| - 1 :: Next(run[k], run[k + 1])
  }

  predicate PhaseFits(phase: Phase, ctx: Option<Context>) {
    match phase
    case Building | Returning => !Restricted(ctx)
    case Storing(layers) => !Restricted(ctx) && SharedLayers(layers)
    case Holding(agent) => if agent.Some? then FitsCaller(agent.value, ctx) else !Restricted(ctx)
    case _ => true
  }

  predicate CallInv(c: Call) {
    c.attempt < ATTEMPTS && PhaseFits(c.phase, c.ctx) && (c.phase == Done(false) ==> c.attempt + 1 == ATTEMPTS)
  }

  ghost predicate Inv(s: State) {
    (s.shared.Some? ==> SharedLayers(s.shared.value)) && forall t <- s.calls :: CallInv(s.calls[t])
  }

  lemma NextKeepsInv(s: State, s': State)
    requires Inv(s) && Next(s, s')
    ensures Inv(s')
  {
    if t, ok :| Steps(s, s', t, ok) {
      assert CallInv(s.calls[t]);
      forall u <- s'.calls ensures CallInv(s'.calls[u]) {
        assert u == t || CallInv(s.calls[u]);
      }
    } else {
      var t, ctx :| Begins(s, s', t, ctx);
      forall u <- s'.calls ensures CallInv(s'.calls[u]) {
        assert u == t || CallInv(s.calls[u]);
      }
    }
  }

  lemma {:induction false} RunInv(run: seq<State>, k: nat)
    requires Run(run) && k < |run|
    ensures Inv(run[k])
  {
    if k > 0 {
      RunInv(run, k - 1);
      assert Next(run[k - 1], run[k - 1 + 1]);
      NextKeepsInv(run[k - 1], run[k]);
    }
  }

  /** In every run, whatever agent a caller holds runs each statement as the guard
      rewrites it for that caller, whoever built the agent; and a restricted caller
      always holds one. */
  lemma AgentsAreScoped(run: seq<State>, k: nat, t: int, q: Query)
    requires Run(run) && k < |run| && t in run[k].calls && run[k].calls[t].phase.Holding?
    ensures run[k].calls[t].phase.agent.Some? ==>
              Executed(run[k].calls[t].phase.agent.value, q) == Guard(q, run[k].calls[t].ctx)
    ensures Restricted(run[k].calls[t].ctx) ==> run[k].calls[t].phase.agent.Some?
  {
    RunInv(run, k);
    assert CallInv(run[k].calls[t]);
    if run[k].calls[t].phase.agent.Some? {
      RunsForCaller(run[k].calls[t].phase.agent.value, run[k].calls[t].ctx, q);
    }
  }

  /** And no call is answered without one. */
  lemma AnswersAreScoped(run: seq<State>, k: nat, t: int, q: Query)
    requires Run(run) && k + 1 < |run| && t in run[k].calls && t in run[k + 1].calls
    requires run[k].calls[t].phase != Done(true) && run[k + 1].calls[t].phase == Done(true)
    ensures run[k].calls[t].phase.Holding? && run[k].calls[t].phase.agent.Some?
    ensures Executed(run[k].calls[t].phase.agent.value, q) == Guard(q, run[k + 1].calls[t].ctx)
  {
    assert Next(run[k], run[k + 1]);
    AgentsAreScoped(run, k, t, q);
  }

  /** So in every run, what a restricted caller's agent reads from the ERP depends on
      that person's own rows only. */
  lemma AgentsSeeOwnRows(run: seq<State>, k: nat, t: int, q: Query, db1: Db, db2: Db)
    requires Run(run) && k < |run| && t in run[k].calls && run[k].calls[t].phase.Holding?
    requires Restricted(run[k].calls[t].ctx) && TeamColumns(db1)
    requires Anchored(SelectsQ(q), run[k].calls[t].ctx.value.personId)
    requires Restrict(db1, run[k].calls[t].ctx.value.personId) == Restrict(db2, run[k].calls[t].ctx.value.personId)
    ensures run[k].calls[t].phase.agent.Some?
    ensures var r := Executed(run[k].calls[t].phase.agent.value, q);
            r.Ok? ==> EvalQ(r.value, db1, Top) == EvalQ(r.value, db2, Top)
  {
    var call := run[k].calls[t];
    AgentsAreScoped(run, k, t, q);
    if Guard(q, call.ctx).Ok? {
      Independence(q, db1, db2, call.ctx.value.personId, Top);
    }
  }

  /** A restricted call never changes the shared agent. */
  lemma RestrictedLeavesShared(s: State, s': State, t: int, ok: bool)
    requires Inv(s) && Steps(s, s', t, ok) && Restricted(s.calls[t].ctx)
    ensures s'.shared == s.shared
  {
    assert CallInv(s.calls[t]);
  }

  // ----- When a caller is left without an agent -----

  /** Between i and k, call t is about to read the shared agent. */
  ghost predicate Waits(run: seq<State>, t: int, i: nat, k: nat) {
    i <= k < |run| && forall j | i <= j <= k :: t in run[j].calls && run[j].calls[t].phase == Returning
  }

  /** The step drops the shared agent. */
  ghost predicate Resets(s: State, s': State) {
    exists u, ok :: Steps(s, s', u, ok) && s.calls[u].phase == Failing && !Restricted(s.calls[u].ctx)
  }

  /** A step that resets nothing keeps a shared agent there. */
  lemma KeepsShared(s: State, s': State)
    requires Next(s, s') && s.shared.Some? && !Resets(s, s')
    ensures s'.shared.Some?
  {
    if u, ok :| Steps(s, s', u, ok) {
      assert s.calls[u].phase == Failing ==> Restricted(s.calls[u].ctx);
    }
  }

  /** The call that gets to read the shared agent leaves one behind it. */
  lemma EntersWithShared(s: State, s': State, t: int)
    requires Next(s, s') && t in s'.calls && s'.calls[t].phase == Returning
    requires t !in s.calls || s.calls[t].phase != Returning
    ensures s'.shared.Some?
  {
    if u, ok :| Steps(s, s', u, ok) {
      assert u == t;
    }
  }

  /** A caller is handed no agent only if the shared one was reset while the caller was
      between having it and reading it again. */
  lemma {:induction false} NoneOnlyAfterReset(run: seq<State>, t: int, i: nat, k: nat) returns (j: nat)
    requires Run(run) && i < k && Waits(run, t, i + 1, k)
    requires t !in run[i].calls || run[i].calls[t].phase != Returning
    requires run[k].shared.None?
    ensures i < j < k && Resets(run[j], run[j + 1])
    decreases k
  {
    if k == i + 1 {
      assert Next(run[i], run[i + 1]);
      EntersWithShared(run[i], run[i + 1], t);
      assert false;
    } else if run[k - 1].shared.None? {
      j := NoneOnlyAfterReset(run, t, i, k - 1);
    } else {
      j := k - 1;
      if !Resets(run[j], run[j + 1]) {
        assert Next(run[j], run[j + 1]);
        KeepsShared(run[j], run[j + 1]);
        assert false;
      }
    }
  }

  // ----- The retries end -----

  /** A bound on the steps a call has left. */
  function Left(c: Call): nat {
    if c.attempt >= ATTEMPTS || c.phase.Done? then 0
    else (ATTEMPTS - 1 - c.attempt) * 6 + LeftInAttempt(c.phase)
  }

  function LeftInAttempt(phase: Phase): nat {
    match phase
    case Attempting => 6
    case Building => 5
    case Storing(_) => 4
    case Returning => 3
    case Holding(_) => 2
    case Failing => 1
    case Done(_) => 0
  }

  /** How many steps of t the run has taken up to k. */
  ghost function Taken(run: seq<State>, t: int, k: nat): nat
    requires k < |run|
  {
    if k == 0 then 0
    else if t in run[k - 1].calls && t in run[k].calls && run[k].calls[t] != run[k - 1].calls[t]
      then Taken(run, t, k - 1) + 1
    else Taken(run, t, k - 1)
  }

  /** Every step brings its call closer to an end, and leaves the others alone. */
  lemma StepGoesDown(s: State, s': State, t: int)
    requires Inv(s) && Next(s, s') && t in s.calls
    ensures t in s'.calls && (s'.calls[t] != s.calls[t] ==> Left(s'.calls[t]) < Left(s.calls[t]))
  {
    if u, ok :| Steps(s, s', u, ok) {
      assert CallInv(s.calls[u]);
    }
  }

  /** In every run a call takes at most eighteen steps, and if it ends without an answer
      it has made its three attempts. */
  lemma {:induction false} CallsEnd(run: seq<State>, t: int, k: nat)
    requires Run(run) && k < |run|
    ensures if t in run[k].calls then Taken(run, t, k) + Left(run[k].calls[t]) <= 18 else Taken(run, t, k) == 0
    ensures t in run[k].calls && run[k].calls[t].phase == Done(false) ==> run[k].calls[t].attempt == 2
  {
    RunInv(run, k);
    if k > 0 {
      CallsEnd(run, t, k - 1);
      RunInv(run, k - 1);
      assert Next(run[k - 1], run[k - 1 + 1]);
      if t in run[k - 1].calls {
        StepGoesDown(run[k - 1], run[k], t);
      }
    }
    assert t in run[k].calls ==> CallInv(run[k].calls[t]);
  }

  // ----- One call alone -----

  /** Runs a call to its end with nobody else about: attempt k builds an agent if it has
      to and can, and gets its answer. */
  function Alone(shared: Option<Layers>, c: Call, attempts: seq<Attempt>): (Option<Layers>, Call)
    requires |attempts| == 3 && c.attempt < 3
    decreases Left(c)
  {
    if c.phase.Done? then (shared, c)
    else
      var now := attempts[c.attempt];
      var (shared', c') := Advance(shared, c, if c.phase.Holding? then now.answer.Some? else now.builds);
      Alone(shared', c', attempts)
  }

  /** One attempt alone. */
  lemma AttemptAlone(shared: Option<Layers>, c: Call, attempts: seq<Attempt>)
    requires |attempts| == 3 && c.attempt < 3 && c.phase == Attempting
    ensures var now := attempts[c.attempt];
            var dropped := if Restricted(c.ctx) then shared else None;
            Alone(shared, c, attempts) ==
              if (now.builds || (!Restricted(c.ctx) && shared.Some?)) && now.answer.Some? then
                (if Restricted(c.ctx) || shared.Some? then shared else Some([c.ctx]), c.(phase := Done(true)))
              else if c.attempt < 2 then
                Alone(dropped, c.(attempt := c.attempt + 1, phase := Attempting), attempts)
              else (dropped, c.(phase := Done(false)))
  {
    var now := attempts[c.attempt];
    if Restricted(c.ctx) {
      if now.builds {
        HeldAlone(shared, c.(phase := Holding(Some([c.ctx]))), attempts);
      } else {
        FailedAlone(shared, c.(phase := Failing), attempts);
      }
    } else if shared.Some? {
      assert Alone(shared, c, attempts) == Alone(shared, c.(phase := Returning), attempts);
      HeldAlone(shared, c.(phase := Holding(shared)), attempts);
    } else {
      assert Alone(shared, c, attempts) == Alone(shared, c.(phase := Building), attempts);
      if now.builds {
        var own := Some([c.ctx]);
        assert Alone(shared, c.(phase := Building), attempts) == Alone(shared, c.(phase := Storing([c.ctx])), attempts);
        assert Alone(shared, c.(phase := Storing([c.ctx])), attempts) == Alone(own, c.(phase := Returning), attempts);
        HeldAlone(own, c.(phase := Holding(own)), attempts);
      } else {
        FailedAlone(shared, c.(phase := Failing), attempts);
      }
    }
  }

  lemma FailedAlone(shared: Option<Layers>, c: Call, attempts: seq<Attempt>)
    requires |attempts| == 3 && c.attempt < 3 && c.phase == Failing
    ensures var dropped := if Restricted(c.ctx) then shared else None;
            Alone(shared, c, attempts) ==
              if c.attempt < 2 then Alone(dropped, c.(attempt := c.attempt + 1, phase := Attempting), attempts)
              else (dropped, c.(phase := Done(false)))
  {
  }

  lemma HeldAlone(shared: Option<Layers>, c: Call, attempts: seq<Attempt>)
    requires |attempts| == 3 && c.attempt < 3 && c.phase.Holding? && c.phase.agent.Some?
    ensures Alone(shared, c, attempts) ==
              if attempts[c.attempt].answer.Some? then (shared, c.(phase := Done(true)))
              else Alone(shared, c.(phase := Failing), attempts)
  {
  }

  lemma {:induction false} AloneFrom(shared: Option<Layers>, ctx: Option<Context>, k: nat, attempts: seq<Attempt>)
    requires |attempts| == 3 && k < 3
    ensures var (shared', c') := Alone(shared, Call(ctx, k, Attempting), attempts);
            var answer := Retry(!Restricted(ctx) && shared.Some?, attempts[k..]);
            && c'.phase == Done(answer.Some?)
            && (if Restricted(ctx) then shared' == shared else shared'.Some? <==> answer.Some?)
    decreases 3 - k
  {
    assert attempts[k..][0] == attempts[k] && attempts[k..][1..] == attempts[k + 1..];
    AttemptAlone(shared, Call(ctx, k, Attempting), attempts);
    if k < 2 {
      AloneFrom(if Restricted(ctx) then shared else None, ctx, k + 1, attempts);
    }
  }

  /** The step machine, with one call alone, ends as `Query` does: answered or not by the
      earliest attempt that works out, and with the same trace in the shared agent. */
  lemma AloneIsQuery(shared: Option<Layers>, ctx: Option<Context>, attempts: seq<Attempt>)
    requires |attempts| == 3
    ensures var (shared', c') := Alone(shared, Call(ctx, 0, Attempting), attempts);
            var answer := Retry(!Restricted(ctx) && shared.Some?, attempts);
            && c'.phase == Done(answer.Some?)
            && (if Restricted(ctx) then shared' == shared else shared'.Some? <==> answer.Some?)
  {
    assert attempts[0..] == attempts;
    AloneFrom(shared, ctx, 0, attempts);
  }
}
