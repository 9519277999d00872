/** From the id a request names to the rows its statements can reach: the resolved context
    belongs to that person, and the guard holds the statements to it. */
module CallerAccess {
  import opened Wrappers
  import opened Sql
  import opened SqlEval
  import opened SqlGuard
  import opened OwnRows
  import opened ScopeIsolation
  import opened ScopeView
  import opened GuardDecision
  import opened Revocation
  import E = ErpIdentity

  // ----- The resolved context -----

  /** What a finished lookup resolves to. */
  function Resolved(th: E.Thread, hr: int, management: int): Result<Option<Context>, ()>
    requires th.Done?
  {
    ResolveContext(th.outcome, hr, management)
  }

  /** The person's row and their user uid were active at moment i, which is later than
      `now - ttl` or not before `now`; j is that moment or a later one. */
  predicate LookedUp(h: seq<E.Moment>, i: int, j: int, uid: int, pid: int, now: real, ttl: real) {
    && 0 <= i <= j < |h| && (now - ttl < h[i].time || now <= h[i].time)
    && pid in h[i].erp.people && h[i].erp.people[pid] == E.PersonRow(uid, true)
    && uid in h[i].erp.users && h[i].erp.users[uid].active
  }

  /** The user is there and in one of the two groups. */
  predicate InEither(erp: E.Erp, uid: int, hr: int, management: int) {
    uid in erp.users && (hr in erp.users[uid].groups || management in erp.users[uid].groups)
  }

  /** An error resolves to no context at all, a denial to none; and in every run a context
      is that of the person asked for, who was active when looked up.  It is unrestricted
      if and only if their user was in one of the two groups then or at a later moment. */
  lemma ContextIsTheirs(run: seq<E.State>, ttl: real, k: nat, t: int, hr: int, management: int)
    requires E.Run(run, ttl) && k < |run| && t in run[k].threads && run[k].threads[t].Done?
    ensures var th, h := run[k].threads[t], run[k].history;
            match th.outcome
            case Error => Resolved(th, hr, management) == Err(())
            case Denied => Resolved(th, hr, management) == Ok(None)
            case Found(_) => exists i, j, uid ::
              && LookedUp(h, i, j, uid, th.pid, th.now, ttl)
              && Resolved(th, hr, management)
                 == Ok(Some(Context(InEither(h[j].erp, uid, hr, management), Some(th.pid))))
  {
    var th, h := run[k].threads[t], run[k].history;
    if th.outcome.Found? {
      var i, j := E.FoundWasActive(run, ttl, k, t);
      assert LookedUp(h, i, j, th.outcome.identity.authUserId, th.pid, th.now, ttl);
    }
  }

  /** In every run: a restricted context makes a statement of one person reference per
      SELECT read nothing but the share of the person asked for. */
  lemma RestrictedReadsOwnShare(run: seq<E.State>, ttl: real, k: nat, t: int, hr: int, management: int,
                                ctx: Context, q: Query, db1: Db, db2: Db)
    requires E.Run(run, ttl) && k < |run| && t in run[k].threads && run[k].threads[t].Done?
    requires Resolved(run[k].threads[t], hr, management) == Ok(Some(ctx)) && !ctx.unrestricted
    requires Guard(q, Some(ctx)).Ok?
    requires TeamColumns(db1) && Anchored(SelectsQ(q), Some(run[k].threads[t].pid))
    requires Restrict(db1, Some(run[k].threads[t].pid)) == Restrict(db2, Some(run[k].threads[t].pid))
    ensures EvalQ(Guard(q, Some(ctx)).value, db1, Top) == EvalQ(Guard(q, Some(ctx)).value, db2, Top)
    ensures Safe(SelectsQ(q)) ==>
              EvalQ(Guard(q, Some(ctx)).value, db1, Top) == EvalQ(q, Restrict(db1, Some(run[k].threads[t].pid)), Top)
  {
    var pid := run[k].threads[t].pid;
    ContextIsTheirs(run, ttl, k, t, hr, management);
    assert ctx == Context(false, Some(pid));
    DecisionIs(q, Some(ctx));
    Independence(q, db1, db2, Some(pid), Top);
    if Safe(SelectsQ(q)) {
      View(q, db1, Some(pid), Top);
    }
  }

  // ----- The scope of a request -----

  /** A request names no Slack user (and has been let in as an administrator), or one that
      is registered for some person, or one that is not. */
  datatype Requester = Administrator | Registered(pid: int) | Stranger

  datatype Refusal = Forbidden | Unavailable

  /** `resolve_scope` after validation: the context to run the agent with, or an HTTP error;
      `resolved` is what resolving the registered person gives. */
  function ScopeOf(requester: Requester, resolved: Result<Option<Context>, ()>): Result<Option<Context>, Refusal> {
    match requester
    case Administrator => Ok(None)
    case Stranger => Err(Forbidden)
    case Registered(_) =>
      match resolved
      case Err(_) => Err(Unavailable)
      case Ok(None) => Err(Forbidden)
      case Ok(Some(ctx)) => Ok(Some(ctx))
  }

  /** What the guard makes of a statement of an admitted request. */
  function Admitted(scope: Result<Option<Context>, Refusal>, q: Query): Option<Result<Query, GuardError>> {
    match scope
    case Err(_) => None
    case Ok(ctx) => Some(Guard(q, ctx))
  }

  /** The person's user was in one of the two groups at such a lookup. */
  ghost predicate MayBeWide(h: seq<E.Moment>, th: E.Thread, ttl: real, hr: int, management: int)
    requires th.Done?
  {
    exists i, j, uid :: LookedUp(h, i, j, uid, th.pid, th.now, ttl) && InEither(h[j].erp, uid, hr, management)
  }

  /** To the guard, no context means company-wide access, so a lookup that was denied or
      failed must not get that far: in every run a statement on behalf of a person runs only
      if they were found, scoped to their own rows; it runs as it is only if their user was
      in one of the two groups.  Nothing runs for someone who is not registered. */
  lemma NobodySlipsThrough(run: seq<E.State>, ttl: real, k: nat, t: int, hr: int, management: int, q: Query)
    requires E.Run(run, ttl) && k < |run| && t in run[k].threads && run[k].threads[t].Done?
    ensures var th := run[k].threads[t];
            match Admitted(ScopeOf(Registered(th.pid), Resolved(th, hr, management)), q)
            case None => !th.outcome.Found?
            case Some(Err(_)) => th.outcome.Found?
            case Some(Ok(q')) =>
              && th.outcome.Found?
              && (q' == RewriteQ(q, Some(th.pid)) || (q' == q && MayBeWide(run[k].history, th, ttl, hr, management)))
    ensures Admitted(ScopeOf(Stranger, Resolved(run[k].threads[t], hr, management)), q) == None
  {
    var th, h := run[k].threads[t], run[k].history;
    ContextIsTheirs(run, ttl, k, t, hr, management);
    if th.outcome.Found? {
      var i, j, uid :|
        && LookedUp(h, i, j, uid, th.pid, th.now, ttl)
        && Resolved(th, hr, management) == Ok(Some(Context(InEither(h[j].erp, uid, hr, management), Some(th.pid))));
      DecisionIs(q, Some(Context(InEither(h[j].erp, uid, hr, management), Some(th.pid))));
    }
  }
}
