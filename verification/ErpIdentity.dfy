/** The identity cache: calls from many threads interleave with each other and with
    changes of the ERP, one read or write at a time. */
module ErpIdentity {
  import opened Wrappers
  import opened Ascii

  // ----- The ERP's auth tables -----

  datatype User = User(active: bool, email: string, groups: set<int>)

  datatype PersonRow = PersonRow(userId: int, active: bool)

  datatype Erp = Erp(people: map<int, PersonRow>, users: map<int, User>)

  /** The person query: the auth user of an active person with an active user. */
  function ActiveUser(erp: Erp, pid: int): Option<int> {
    if pid in erp.people && erp.people[pid].active && erp.people[pid].userId in erp.users
       && erp.users[erp.people[pid].userId].active
    then Some(erp.people[pid].userId) else None
  }

  /** The groups query. */
  function GroupsOf(erp: Erp, uid: int): set<int> {
    if uid in erp.users then erp.users[uid].groups else {}
  }

  /** The email query may return any of the matching rows. */
  predicate EmailMatches(erp: Erp, email: string, pid: int) {
    ActiveUser(erp, pid).Some? && Lower(erp.users[ActiveUser(erp, pid).value].email) == Lower(email)
  }

  // ----- The cache -----

  datatype Identity = Identity(personId: int, authUserId: int, groupIds: set<int>)

  datatype Entry = Entry(stamp: real, identity: Identity)

  type Cache = map<int, Entry>

  function Cached(cache: Cache, pid: int, now: real, ttl: real): Option<Identity> {
    if pid in cache && now - cache[pid].stamp < ttl then Some(cache[pid].identity) else None
  }

  datatype Outcome = Found(identity: Identity) | Denied | Error

  // ----- One call, one step at a time -----

  /** Where a call is; `now` is its clock reading. */
  datatype Thread =
    | ByEmail(email: string)
    | Start(pid: int)
    | Clocked(pid: int, now: real)
    | FetchPerson(pid: int, now: real)
    | FetchGroups(pid: int, now: real, uid: int)
    | Store(pid: int, now: real, identity: Identity)
    | Evict(pid: int, now: real)
    | Done(pid: int, now: real, outcome: Outcome)
    | NoPerson(outcome: Outcome)

  /** A query either fails or sees the ERP as it is. */
  datatype Reading = Fails | Sees(erp: Erp)

  /** The next step of a `by_person_id` call at time `time`. */
  function Advance(th: Thread, time: real, reading: Reading, cache: Cache, ttl: real): (Thread, Cache)
    requires !th.ByEmail?
  {
    match th
    case Start(pid) => (Clocked(pid, time), cache)
    case Clocked(pid, now) =>
      (match Cached(cache, pid, now, ttl)
       case Some(identity) => (Done(pid, now, Found(identity)), cache)
       case None => (FetchPerson(pid, now), cache))
    case FetchPerson(pid, now) =>
      (match reading
       case Fails => (Done(pid, now, Error), cache)
       case Sees(erp) =>
         match ActiveUser(erp, pid)
         case None => (Evict(pid, now), cache)
         case Some(uid) => (FetchGroups(pid, now, uid), cache))
    case FetchGroups(pid, now, uid) =>
      (match reading
       case Fails => (Done(pid, now, Error), cache)
       case Sees(erp) => (Store(pid, now, Identity(pid, uid, GroupsOf(erp, uid))), cache))
    case Store(pid, now, identity) => (Done(pid, now, Found(identity)), cache[pid := Entry(now, identity)])
    case Evict(pid, now) => (Done(pid, now, Denied), cache - {pid})
    case Done(_, _, _) => (th, cache)
    case NoPerson(_) => (th, cache)
  }

  /** The first step of `by_email`: it ends there, or goes on as `by_person_id`. */
  predicate EmailStep(email: string, reading: Reading, th': Thread) {
    match reading
    case Fails => th' == NoPerson(Error)
    case Sees(erp) =>
      if th'.Start? then EmailMatches(erp, email, th'.pid)
      else th' == NoPerson(Denied) && forall pid | pid in erp.people :: !EmailMatches(erp, email, pid)
  }

  // ----- A call that is not interleaved -----

  function StepsLeft(th: Thread): nat {
    match th
    case ByEmail(_) => 6
    case Start(_) => 5
    case Clocked(_, _) => 4
    case FetchPerson(_, _) => 3
    case FetchGroups(_, _, _) => 2
    case Store(_, _, _) => 1
    case Evict(_, _) => 1
    case _ => 0
  }

  /** Runs a call to its end; `first` and `second` are what its two queries see. */
  function Finish(th: Thread, time: real, first: Reading, second: Reading, cache: Cache, ttl: real): (Thread, Cache)
    requires !th.ByEmail?
    decreases StepsLeft(th)
  {
    if StepsLeft(th) == 0 then (th, cache)
    else
      var (th', cache') := Advance(th, time, if th.FetchPerson? then first else second, cache, ttl);
      Finish(th', time, first, second, cache', ttl)
  }

  lemma EvictEnds(pid: int, now: real, first: Reading, second: Reading, cache: Cache, ttl: real)
    ensures Finish(Evict(pid, now), now, first, second, cache, ttl) == (Done(pid, now, Denied), cache - {pid})
  {
    assert Finish(Done(pid, now, Denied), now, first, second, cache - {pid}, ttl)
        == (Done(pid, now, Denied), cache - {pid});
  }

  /** The whole of an uninterleaved call. */
  lemma FinishIs(pid: int, now: real, first: Reading, second: Reading, cache: Cache, ttl: real)
    ensures Finish(Start(pid), now, first, second, cache, ttl) ==
      match Cached(cache, pid, now, ttl)
      case Some(id) => (Done(pid, now, Found(id)), cache)
      case None =>
        if first.Fails? then (Done(pid, now, Error), cache)
        else match ActiveUser(first.erp, pid)
          case None => (Done(pid, now, Denied), cache - {pid})
          case Some(uid) =>
            if second.Fails? then (Done(pid, now, Error), cache)
            else
              var id := Identity(pid, uid, GroupsOf(second.erp, uid));
              (Done(pid, now, Found(id)), cache[pid := Entry(now, id)])
  {
    assert Finish(Start(pid), now, first, second, cache, ttl)
        == Finish(Clocked(pid, now), now, first, second, cache, ttl);
    if Cached(cache, pid, now, ttl).None? {
      var fp := FetchPerson(pid, now);
      assert Finish(Clocked(pid, now), now, first, second, cache, ttl) == Finish(fp, now, first, second, cache, ttl);
      if first.Sees? && ActiveUser(first.erp, pid).Some? {
        var fg := FetchGroups(pid, now, ActiveUser(first.erp, pid).value);
        assert Finish(fp, now, first, second, cache, ttl) == Finish(fg, now, first, second, cache, ttl);
        if second.Sees? {
          var id := Identity(pid, fg.uid, GroupsOf(second.erp, fg.uid));
          var cache' := cache[pid := Entry(now, id)];
          assert Finish(fg, now, first, second, cache, ttl)
              == Finish(Store(pid, now, id), now, first, second, cache, ttl);
          assert Finish(Store(pid, now, id), now, first, second, cache, ttl)
              == Finish(Done(pid, now, Found(id)), now, first, second, cache', ttl);
        } else {
          assert Finish(fg, now, first, second, cache, ttl)
              == Finish(Done(pid, now, Error), now, first, second, cache, ttl);
        }
      } else if first.Sees? {
        assert Finish(fp, now, first, second, cache, ttl) == Finish(Evict(pid, now), now, first, second, cache, ttl);
        EvictEnds(pid, now, first, second, cache, ttl);
      }
    } else {
      var id := Cached(cache, pid, now, ttl).value;
      assert Finish(Clocked(pid, now), now, first, second, cache, ttl)
          == Finish(Done(pid, now, Found(id)), now, first, second, cache, ttl);
    }
  }

  /** Without a fresh entry, whoever has no active person row with an active user when the
      first query looks is denied, and loses the entry; anyone else gets that user, with
      the groups it has when the second query looks. */
  lemma InactiveIsDenied(pid: int, now: real, erp: Erp, second: Reading, cache: Cache, ttl: real)
    requires pid in cache ==> now - cache[pid].stamp >= ttl
    ensures Finish(Start(pid), now, Sees(erp), second, cache, ttl) ==
              if pid !in erp.people || !erp.people[pid].active || erp.people[pid].userId !in erp.users
                 || !erp.users[erp.people[pid].userId].active
              then (Done(pid, now, Denied), cache - {pid})
              else if second.Fails? then (Done(pid, now, Error), cache)
              else
                var uid := erp.people[pid].userId;
                var groups := if uid in second.erp.users then second.erp.users[uid].groups else {};
                var id := Identity(pid, uid, groups);
                (Done(pid, now, Found(id)), cache[pid := Entry(now, id)])
  {
    FinishIs(pid, now, Sees(erp), second, cache, ttl);
  }

  /** Login by email goes on with a person whose row and user are active and whose user has
      this address, up to the case of ASCII letters; and it denies only if there is none. */
  lemma EmailFinds(email: string, erp: Erp, th: Thread)
    requires EmailStep(email, Sees(erp), th)
    ensures th == NoPerson(Denied) || th.Start?
    ensures th.Start? ==>
              && th.pid in erp.people && erp.people[th.pid].active && erp.people[th.pid].userId in erp.users
              && erp.users[erp.people[th.pid].userId].active
              && SameButCase(erp.users[erp.people[th.pid].userId].email, email)
    ensures !th.Start? ==> forall pid |
              pid in erp.people && erp.people[pid].active && erp.people[pid].userId in erp.users
              && erp.users[erp.people[pid].userId].active ::
              !SameButCase(erp.users[erp.people[pid].userId].email, email)
  {
    if th.Start? {
      LowerSame(erp.users[erp.people[th.pid].userId].email, email);
    } else {
      forall pid |
        pid in erp.people && erp.people[pid].active && erp.people[pid].userId in erp.users
        && erp.users[erp.people[pid].userId].active
        ensures !SameButCase(erp.users[erp.people[pid].userId].email, email)
      {
        assert !EmailMatches(erp, email, pid);
        LowerSame(erp.users[erp.people[pid].userId].email, email);
      }
    }
  }

  /** The resolver as one thread sees it.  Its clock reading and what its queries see
      are parameters. */
  class Resolver {
    const ttl: real
    var cache: Cache

    constructor (ttl: real)
      ensures this.ttl == ttl && cache == map[]
    {
      this.ttl := ttl;
      cache := map[];
    }

    method Fetch(pid: int, first: Reading, second: Reading) returns (r: Outcome)
      ensures match first
              case Fails => r == Error
              case Sees(erp) =>
                match ActiveUser(erp, pid)
                case None => r == Denied
                case Some(uid) =>
                  r == if second.Fails? then Error else Found(Identity(pid, uid, GroupsOf(second.erp, uid)))
    {
      if first.Fails? {
        return Error;
      }
      var row := ActiveUser(first.erp, pid);
      if row.None? {
        return Denied;
      }
      if second.Fails? {
        return Error;
      }
      return Found(Identity(pid, row.value, GroupsOf(second.erp, row.value)));
    }

    /** Uninterleaved, a call does what the step machine does: without a fresh entry,
        nobody without an active row and an active user is let in, and an entry of theirs
        goes; an error leaves the cache alone and is never answered from it. */
    method ByPersonId(pid: int, now: real, first: Reading, second: Reading) returns (r: Outcome)
      modifies this
      ensures Finish(Start(pid), now, first, second, old(cache), ttl) == (Done(pid, now, r), cache)
      ensures r.Error? ==> cache == old(cache) && Cached(old(cache), pid, now, ttl).None?
      ensures first.Sees? && (pid in old(cache) ==> now - old(cache)[pid].stamp >= ttl)
              && (pid !in first.erp.people || !first.erp.people[pid].active
                  || first.erp.people[pid].userId !in first.erp.users
                  || !first.erp.users[first.erp.people[pid].userId].active) ==>
                r == Denied && cache == old(cache) - {pid}
    {
      FinishIs(pid, now, first, second, cache, ttl);
      var cached := if pid in cache then Some(cache[pid]) else None;
      if cached.Some? && now - cached.value.stamp < ttl {
        return Found(cached.value.identity);
      }
      r := Fetch(pid, first, second);
      match r {
        case Error =>
        case Denied => cache := cache - {pid};
        case Found(identity) => cache := cache[pid := Entry(now, identity)];
      }
    }

    /** Login by email: `row` is what the email query returned.  It goes on as
        `by_person_id`, with the same cache. */
    method ByEmail(email: string, emails: Reading, row: Option<int>, now: real, first: Reading, second: Reading)
      returns (r: Outcome)
      requires EmailStep(email, emails, if emails.Fails? then NoPerson(Error) else if row.None? then NoPerson(Denied)
                                        else Start(row.value))
      modifies this
      ensures emails.Fails? ==> r == Error && cache == old(cache)
      ensures emails.Sees? && row.None? ==> r == Denied && cache == old(cache)
      ensures emails.Sees? && row.Some? ==>
                EmailStep(email, emails, Start(row.value))
                && Finish(Start(row.value), now, first, second, old(cache), ttl) == (Done(row.value, now, r), cache)
    {
      if emails.Fails? {
        return Error;
      }
      if row.None? {
        return Denied;
      }
      r := ByPersonId(row.value, now, first, second);
    }
  }

  // ----- Many calls -----

  /** The ERP as it was from a moment on, until the next moment. */
  datatype Moment = Moment(time: real, erp: Erp)

  /** `history` ends with the present. */
  datatype State = State(history: seq<Moment>, cache: Cache, threads: map<int, Thread>)

  predicate Init(s: State) {
    && |s.history| == 1 && s.cache == map[]
    && forall t | t in s.threads :: s.threads[t].Start? || s.threads[t].ByEmail?
  }

  function Present(s: State): Moment
    requires s.history != []
  {
    s.history[|s.history| - 1]
  }

  /** Time passes, and the ERP may change in any way. */
  predicate Environment(s: State, s': State) {
    && s.history != [] && s'.history != []
    && s' == s.(history := s.history + [Present(s')])
    && Present(s).time <= Present(s').time
  }

  /** One call takes one step; a query it makes fails or sees the present ERP. */
  predicate Runs(s: State, s': State, t: int, reading: Reading, ttl: real) {
    && s.history != [] && t in s.threads
    && (reading.Sees? ==> reading.erp == Present(s).erp)
    && if s.threads[t].ByEmail? then
         t in s'.threads && EmailStep(s.threads[t].email, reading, s'.threads[t])
         && s' == s.(threads := s.threads[t := s'.threads[t]])
       else
         s' == s.(threads := s.threads[t := Advance(s.threads[t], Present(s).time, reading, s.cache, ttl).0],
                  cache := Advance(s.threads[t], Present(s).time, reading, s.cache, ttl).1)
  }

  ghost predicate Next(s: State, s': State, ttl: real) {
    Environment(s, s') || exists t, reading :: Runs(s, s', t, reading, ttl)
  }

  ghost predicate Run(run: seq<State>, ttl: real) {
    && run != [] && Init(run[0])
    && forall k | 0 <= k < |run| - 1 :: Next(run[k], run[k + 1], ttl)
  }

  // ----- What a cached identity stands for -----

  /** The person row was active with this user at moment i, and the groups were the
      user's at moment j. */
  predicate ReadAt(h: seq<Moment>, i: int, j: int, pid: int, id: Identity) {
    && 0 <= i <= j < |h| && id.personId == pid
    && ActiveUser(h[i].erp, pid) == Some(id.authUserId)
    && GroupsOf(h[j].erp, id.authUserId) == id.groupIds
  }

  /** Both reads happened at or after `since`. */
  ghost predicate Backed(h: seq<Moment>, pid: int, since: real, id: Identity) {
    exists i, j :: ReadAt(h, i, j, pid, id) && since <= h[i].time
  }

  ghost predicate PersonSeen(h: seq<Moment>, pid: int, since: real, uid: int) {
    exists i :: 0 <= i < |h| && since <= h[i].time && ActiveUser(h[i].erp, pid) == Some(uid)
  }

  /** Both reads happened less than ttl before the clock reading `now`, or after it. */
  ghost predicate BoundedStale(h: seq<Moment>, pid: int, now: real, ttl: real, id: Identity) {
    exists i, j :: ReadAt(h, i, j, pid, id) && (now <= h[i].time || now - ttl < h[i].time)
  }

  predicate Sorted(h: seq<Moment>) {
    forall i, j | 0 <= i <= j < |h| :: h[i].time <= h[j].time
  }

  ghost predicate ThreadOk(th: Thread, h: seq<Moment>, ttl: real)
    requires h != []
  {
    match th
    case Clocked(_, now) => now <= h[|h| - 1].time
    case FetchPerson(_, now) => now <= h[|h| - 1].time
    case FetchGroups(pid, now, uid) => PersonSeen(h, pid, now, uid)
    case Store(pid, now, id) => Backed(h, pid, now, id)
    case Done(pid, now, Found(id)) => BoundedStale(h, pid, now, ttl, id)
    case _ => true
  }

  /** Every cached stamp precedes the reads its identity came from - also when a slow
      call has overwritten a newer entry. */
  ghost predicate Inv(s: State, ttl: real) {
    && s.history != [] && Sorted(s.history)
    && (forall pid | pid in s.cache :: Backed(s.history, pid, s.cache[pid].stamp, s.cache[pid].identity))
    && (forall t | t in s.threads :: ThreadOk(s.threads[t], s.history, ttl))
  }

  lemma BackedExtends(h: seq<Moment>, m: Moment, pid: int, since: real, id: Identity)
    requires Backed(h, pid, since, id)
    ensures Backed(h + [m], pid, since, id)
  {
    var i, j :| ReadAt(h, i, j, pid, id) && since <= h[i].time;
    assert ReadAt(h + [m], i, j, pid, id) && since <= (h + [m])[i].time;
  }

  lemma ThreadExtends(th: Thread, h: seq<Moment>, m: Moment, ttl: real)
    requires h != [] && ThreadOk(th, h, ttl) && h[|h| - 1].time <= m.time
    ensures ThreadOk(th, h + [m], ttl)
  {
    match th {
      case FetchGroups(pid, now, uid) =>
        var i :| 0 <= i < |h| && now <= h[i].time && ActiveUser(h[i].erp, pid) == Some(uid);
        assert (h + [m])[i] == h[i];
      case Store(pid, now, id) => BackedExtends(h, m, pid, now, id);
      case Done(pid, now, Found(id)) =>
        var i, j :| ReadAt(h, i, j, pid, id) && (now <= h[i].time || now - ttl < h[i].time);
        assert ReadAt(h + [m], i, j, pid, id) && (h + [m])[i] == h[i];
      case _ =>
    }
  }

  lemma EnvironmentKeepsInv(s: State, s': State, ttl: real)
    requires Inv(s, ttl) && Environment(s, s')
    ensures Inv(s', ttl)
  {
    var m := Present(s');
    forall pid | pid in s'.cache ensures Backed(s'.history, pid, s'.cache[pid].stamp, s'.cache[pid].identity) {
      BackedExtends(s.history, m, pid, s.cache[pid].stamp, s.cache[pid].identity);
    }
    forall t | t in s'.threads ensures ThreadOk(s'.threads[t], s'.history, ttl) {
      ThreadExtends(s.threads[t], s.history, m, ttl);
    }
  }

  /** One step of one call keeps what is known of it, and of what it caches. */
  lemma AdvanceOk(th: Thread, h: seq<Moment>, reading: Reading, cache: Cache, ttl: real)
    requires h != [] && ThreadOk(th, h, ttl) && !th.ByEmail?
    requires reading.Sees? ==> reading.erp == h[|h| - 1].erp
    requires forall pid | pid in cache :: Backed(h, pid, cache[pid].stamp, cache[pid].identity)
    requires Sorted(h)
    ensures var (th', cache') := Advance(th, h[|h| - 1].time, reading, cache, ttl);
            ThreadOk(th', h, ttl)
            && forall pid | pid in cache' :: Backed(h, pid, cache'[pid].stamp, cache'[pid].identity)
  {
    var last := |h| - 1;
    match th {
      case Clocked(pid, now) =>
        var hit := Cached(cache, pid, now, ttl);
        if hit.Some? {
          var i, j :| ReadAt(h, i, j, pid, hit.value) && cache[pid].stamp <= h[i].time;
          assert now - ttl < h[i].time;
        }
      case FetchGroups(pid, now, uid) =>
        if reading.Sees? {
          var i :| 0 <= i < |h| && now <= h[i].time && ActiveUser(h[i].erp, pid) == Some(uid);
          assert ReadAt(h, i, last, pid, Identity(pid, uid, GroupsOf(reading.erp, uid)));
        }
      case Store(pid, now, id) =>
        var i, j :| ReadAt(h, i, j, pid, id) && now <= h[i].time;
      case _ =>
    }
  }

  lemma InitInv(s: State, ttl: real)
    requires Init(s)
    ensures Inv(s, ttl)
  {
  }

  lemma NextKeepsInv(s: State, s': State, ttl: real)
    requires Inv(s, ttl) && Next(s, s', ttl)
    ensures Inv(s', ttl)
  {
    if Environment(s, s') {
      EnvironmentKeepsInv(s, s', ttl);
    } else {
      var t, reading :| Runs(s, s', t, reading, ttl);
      if !s.threads[t].ByEmail? {
        AdvanceOk(s.threads[t], s.history, reading, s.cache, ttl);
      }
    }
  }

  lemma {:induction false} RunInv(run: seq<State>, ttl: real, k: nat)
    requires Run(run, ttl) && k < |run|
    ensures Inv(run[k], ttl)
  {
    if k == 0 {
      InitInv(run[0], ttl);
    } else {
      RunInv(run, ttl, k - 1);
      NextKeepsInv(run[k - 1], run[k], ttl);
    }
  }

  /** In every interleaving: a finished call answers with nothing, with an error, or
      with a person row and groups that were both read after `now - ttl` (or after
      `now`), the person row no later than the groups. */
  lemma StalenessIsBounded(run: seq<State>, ttl: real, k: nat, t: int)
    requires Run(run, ttl) && k < |run| && t in run[k].threads && run[k].threads[t].Done?
    ensures match run[k].threads[t].outcome
            case Found(id) => BoundedStale(run[k].history, run[k].threads[t].pid, run[k].threads[t].now, ttl, id)
            case _ => true
  {
    RunInv(run, ttl, k);
  }

  /** In ERP terms: whoever is let in had an active row, with this user, and the user was
      active, at a moment later than `now - ttl` or not before `now`; the groups are those
      of that user then or at some later moment, none if the user was gone by then. */
  lemma FoundWasActive(run: seq<State>, ttl: real, k: nat, t: int) returns (i: nat, j: nat)
    requires Run(run, ttl) && k < |run| && t in run[k].threads && run[k].threads[t].Done?
    requires run[k].threads[t].outcome.Found?
    ensures var th, h, id := run[k].threads[t], run[k].history, run[k].threads[t].outcome.identity;
            && i <= j < |h| && (th.now - ttl < h[i].time || th.now <= h[i].time) && h[i].time <= h[j].time
            && id.personId == th.pid
            && th.pid in h[i].erp.people && h[i].erp.people[th.pid] == PersonRow(id.authUserId, true)
            && id.authUserId in h[i].erp.users && h[i].erp.users[id.authUserId].active
            && id.groupIds == if id.authUserId in h[j].erp.users then h[j].erp.users[id.authUserId].groups else {}
  {
    RunInv(run, ttl, k);
    var th, h := run[k].threads[t], run[k].history;
    i, j :| ReadAt(h, i, j, th.pid, th.outcome.identity) && (th.now <= h[i].time || th.now - ttl < h[i].time);
  }
}
