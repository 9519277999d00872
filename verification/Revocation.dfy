/** From group membership to access level, and how long a revoked membership lasts. */
module Revocation {
  import opened Wrappers
  import opened ErpIdentity
  import SqlGuard

  datatype AccessLevel = UNRESTRICTED | SELF

  function ResolveAccessLevel(groups: set<int>, hr: int, management: int): AccessLevel {
    if hr in groups || management in groups then UNRESTRICTED else SELF
  }

  /** `resolve_context`: no context when there is no identity, and errors go through. */
  function ResolveContext(outcome: Outcome, hr: int, management: int): Result<Option<SqlGuard.Context>, ()> {
    match outcome
    case Error => Err(())
    case Denied => Ok(None)
    case Found(id) =>
      var level := ResolveAccessLevel(id.groupIds, hr, management);
      Ok(Some(SqlGuard.Context(level == UNRESTRICTED, Some(id.personId))))
  }

  predicate GivesUnrestricted(outcome: Outcome, hr: int, management: int) {
    ResolveContext(outcome, hr, management).Ok?
    && ResolveContext(outcome, hr, management).value.Some?
    && ResolveContext(outcome, hr, management).value.value.unrestricted
  }

  /** From time r on, no auth user the person is linked to is in either group. */
  ghost predicate RemovedForGood(h: seq<Moment>, pid: int, r: real, hr: int, management: int) {
    forall i, j, uid |
      0 <= i <= j < |h| && r <= h[i].time && ActiveUser(h[i].erp, pid) == Some(uid) ::
      hr !in GroupsOf(h[j].erp, uid) && management !in GroupsOf(h[j].erp, uid)
  }

  /** Whoever lost both memberships for good at time r is not given company-wide access
      by any call that reads its clock at r + ttl or later. */
  lemma RevocationTakesEffect(run: seq<State>, ttl: real, k: nat, t: int, r: real, hr: int, management: int)
    requires Run(run, ttl) && ttl >= 0.0 && k < |run| && t in run[k].threads && run[k].threads[t].Done?
    requires RemovedForGood(run[k].history, run[k].threads[t].pid, r, hr, management)
    requires run[k].threads[t].now >= r + ttl
    ensures !GivesUnrestricted(run[k].threads[t].outcome, hr, management)
  {
    StalenessIsBounded(run, ttl, k, t);
    var th, h := run[k].threads[t], run[k].history;
    if id :| th.outcome == Found(id) {
      var i, j :| ReadAt(h, i, j, th.pid, id) && (th.now <= h[i].time || th.now - ttl < h[i].time);
      assert r <= h[i].time;
      assert hr !in GroupsOf(h[j].erp, id.authUserId);
    }
  }

  // ----- The bound is exact -----

  /** A delay after which a revocation is sure to have taken effect. */
  ghost predicate SureAfter(delay: real, ttl: real, hr: int, management: int) {
    forall run: seq<State>, k: nat, t, r: real |
      Run(run, ttl) && k < |run| && t in run[k].threads && run[k].threads[t].Done?
      && RemovedForGood(run[k].history, run[k].threads[t].pid, r, hr, management)
      && run[k].threads[t].now >= r + delay ::
      !GivesUnrestricted(run[k].threads[t].outcome, hr, management)
  }

  function Member(groups: set<int>): Erp {
    Erp(map[1 := PersonRow(7, true)], map[7 := User(true, "", groups)])
  }

  /** Person 1 is cached at time 0, removed from the group at r, and looked up again
      at `now`. */
  function Moments(n: nat, hr: int, r: real, now: real): seq<Moment> {
    [Moment(0.0, Member({hr}))]
    + (if n >= 1 then [Moment(r, Member({}))] else [])
    + (if n >= 2 then [Moment(now, Member({}))] else [])
  }

  function Warm(hr: int): Cache { map[1 := Entry(0.0, Identity(1, 7, {hr}))] }

  function Stale(hr: int, r: real, now: real): seq<State> {
    var id := Identity(1, 7, {hr});
    var before := Moments(0, hr, r, now);
    var after := Moments(2, hr, r, now);
    [State(before, map[], map[0 := Start(1), 1 := Start(1)]),
     State(before, map[], map[0 := Clocked(1, 0.0), 1 := Start(1)]),
     State(before, map[], map[0 := FetchPerson(1, 0.0), 1 := Start(1)]),
     State(before, map[], map[0 := FetchGroups(1, 0.0, 7), 1 := Start(1)]),
     State(before, map[], map[0 := Store(1, 0.0, id), 1 := Start(1)]),
     State(before, Warm(hr), map[0 := Done(1, 0.0, Found(id)), 1 := Start(1)]),
     State(Moments(1, hr, r, now), Warm(hr), map[0 := Done(1, 0.0, Found(id)), 1 := Start(1)]),
     State(after, Warm(hr), map[0 := Done(1, 0.0, Found(id)), 1 := Start(1)]),
     State(after, Warm(hr), map[0 := Done(1, 0.0, Found(id)), 1 := Clocked(1, now)]),
     State(after, Warm(hr), map[0 := Done(1, 0.0, Found(id)), 1 := Done(1, now, Found(id))])]
  }

  lemma WarmUp(hr: int, ttl: real, r: real, now: real)
    ensures var run := Stale(hr, r, now); forall k | 0 <= k < 5 :: Next(run[k], run[k + 1], ttl)
  {
    var run := Stale(hr, r, now);
    var sees := Sees(Member({hr}));
    assert Runs(run[0], run[1], 0, sees, ttl);
    assert Runs(run[1], run[2], 0, sees, ttl);
    assert Runs(run[2], run[3], 0, sees, ttl);
    assert Runs(run[3], run[4], 0, sees, ttl);
    assert Runs(run[4], run[5], 0, sees, ttl);
  }

  lemma StaleRun(hr: int, ttl: real, r: real, now: real)
    requires 0.0 < r <= now < ttl
    ensures Run(Stale(hr, r, now), ttl)
  {
    var run := Stale(hr, r, now);
    WarmUp(hr, ttl, r, now);
    assert Environment(run[5], run[6]);
    assert Environment(run[6], run[7]);
    assert Runs(run[7], run[8], 1, Fails, ttl);
    assert Runs(run[8], run[9], 1, Fails, ttl);
    forall k | 0 <= k < |run| - 1 ensures Next(run[k], run[k + 1], ttl) {
      assert k < 5 || k == 5 || k == 6 || k == 7 || k == 8;
    }
  }

  /** The time-to-live is the shortest delay that is sure. */
  lemma RevocationBoundIsExact(delay: real, ttl: real, hr: int, management: int)
    requires 0.0 <= delay && 0.0 <= ttl
    ensures SureAfter(delay, ttl, hr, management) <==> delay >= ttl
  {
    if delay >= ttl {
      forall run: seq<State>, k: nat, t, r: real |
        Run(run, ttl) && k < |run| && t in run[k].threads && run[k].threads[t].Done?
        && RemovedForGood(run[k].history, run[k].threads[t].pid, r, hr, management)
        && run[k].threads[t].now >= r + delay
        ensures !GivesUnrestricted(run[k].threads[t].outcome, hr, management)
      {
        RevocationTakesEffect(run, ttl, k, t, r, hr, management);
      }
    } else {
      var r := (ttl - delay) / 2.0;
      var now := r + delay;
      var run := Stale(hr, r, now);
      StaleRun(hr, ttl, r, now);
      assert RemovedForGood(run[9].history, 1, r, hr, management);
      assert GivesUnrestricted(run[9].threads[1].outcome, hr, management);
      assert !SureAfter(delay, ttl, hr, management) by {
        assert Run(run, ttl) && 1 in run[9].threads && run[9].threads[1].Done?;
      }
    }
  }
}
