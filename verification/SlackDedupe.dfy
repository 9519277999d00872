/** Slack deliveries: the signature's time window, and event de-duplication by
    transactions of many workers on one table. */
module SlackDedupe {
  import opened Wrappers

  const SEEN_EVENT_TTL: real := 600.0
  const REPLAY_WINDOW: real := 300.0

  datatype Row = Row(eventId: string, seenAt: real)

  // ----- One worker alone -----

  /** The rows an opportunistic cleanup deletes. */
  function Expired(rows: set<Row>, cutoff: real): set<Row> {
    set r | r in rows && r.seenAt < cutoff
  }

  ghost predicate UniqueIds(rows: set<Row>) {
    forall r1, r2 | r1 in rows && r2 in rows && r1.eventId == r2.eventId :: r1 == r2
  }

  predicate Has(rows: set<Row>, eventId: string) {
    exists r | r in rows :: r.eventId == eventId
  }

  /** The accepts of a history that are stamped at `since` or later. */
  function AcceptsSince(log: seq<Row>, since: real): seq<Row> {
    if log == [] then []
    else if log[0].seenAt >= since then [log[0]] + AcceptsSince(log[1..], since)
    else AcceptsSince(log[1..], since)
  }

  lemma AcceptsSinceMember(log: seq<Row>, since: real, r: Row)
    ensures r in AcceptsSince(log, since) <==> r in log && r.seenAt >= since
  {
    if log != [] {
      AcceptsSinceMember(log[1..], since, r);
      assert log == [log[0]] + log[1..];
    }
  }

  lemma DistinctAtMost(rows: set<Row>, s: seq<Row>)
    requires forall r | r in rows :: r in s
    ensures |rows| <= |s|
  {
    if s != [] {
      forall r | r in rows - {s[0]} ensures r in s[1..] { }
      DistinctAtMost(rows - {s[0]}, s[1..]);
    } else {
      assert rows == {};
    }
  }

  /** The table of seen events; `log` records every accept. */
  class SeenEvents {
    var rows: set<Row>
    ghost var log: seq<Row>

    ghost predicate Valid()
      reads this
    {
      UniqueIds(rows) && forall r | r in rows :: r in log
    }

    constructor ()
      ensures Valid() && rows == {} && log == []
    {
      rows, log := {}, [];
    }

    /** A missing id is never a duplicate and leaves no trace.  A duplicate answer
        leaves the table exactly as it was: the rollback undoes the cleanup too.  After
        an accept at `now` no row is older than the time-to-live, so there are no more
        rows than accepts in that time. */
    method AlreadyProcessed(eventId: Option<string>, now: real) returns (duplicate: bool)
      requires Valid()
      modifies this
      ensures Valid()
      ensures eventId.None? || eventId.value == "" ==> !duplicate && rows == old(rows) && log == old(log)
      ensures eventId.Some? && eventId.value != "" ==>
                (duplicate <==>
                 exists r :: r in old(rows) && r.eventId == eventId.value && now - SEEN_EVENT_TTL <= r.seenAt)
      ensures duplicate ==> rows == old(rows) && log == old(log)
      ensures eventId.Some? && eventId.value != "" && !duplicate ==>
                && log == old(log) + [Row(eventId.value, now)]
                && rows == old(rows) - Expired(old(rows), now - SEEN_EVENT_TTL) + {Row(eventId.value, now)}
                && (forall r | r in rows :: now - SEEN_EVENT_TTL <= r.seenAt)
                && |rows| <= |AcceptsSince(log, now - SEEN_EVENT_TTL)|
    {
      if eventId.None? || eventId.value == "" {
        return false;
      }
      var cutoff := now - SEEN_EVENT_TTL;
      var before := rows;
      rows := rows - Expired(rows, cutoff);
      if Has(rows, eventId.value) {
        rows := before;
        return true;
      }
      rows := rows + {Row(eventId.value, now)};
      log := log + [Row(eventId.value, now)];
      forall r | r in rows ensures r in AcceptsSince(log, cutoff) {
        AcceptsSinceMember(log, cutoff, r);
      }
      DistinctAtMost(rows, AcceptsSince(log, cutoff));
      return false;
    }
  }

  // ----- Many workers -----

  /** `signed` stands for the HMAC comparison. */
  datatype Request = Request(signed: bool, timestamp: real, eventId: string)

  datatype Constants = Constants(window: real, ttl: real)

  /** Where the handling of one delivery is.  `at` is the clock reading of the signature
      check and `now` that of the de-duplication; `slot` is the accept in the log, if the
      event has an id. */
  datatype Worker =
    | Arrived(req: Request)
    | Refused(req: Request)
    | Verified(req: Request, at: real)
    | Clocked(req: Request, at: real, now: real)
    | Cleaned(req: Request, at: real, now: real, doomed: set<Row>, seen: nat)
    | Dispatched(req: Request, slot: Option<nat>)
    | Ignored(req: Request)
    | Failed(req: Request)

  /** All clock readings are of one clock, which stands at `time`; `log` lists the
      committed accepts in commit order. */
  datatype State = State(time: real, rows: set<Row>, log: seq<Row>, workers: map<int, Worker>)

  function Abs(x: real): real { if x < 0.0 then -x else x }

  predicate SignatureOk(req: Request, at: real, c: Constants) {
    req.signed && !(Abs(at - req.timestamp) > c.window)
  }

  /** The transaction's effect when it commits: the doomed row versions go, and the new
      row is inserted unless its id is still there - then everything is rolled back. */
  predicate Commit(s: State, s': State, t: int, w: Worker)
    requires w.Cleaned?
  {
    var left := s.rows - w.doomed;
    if Has(left, w.req.eventId) then s' == s.(workers := s.workers[t := Ignored(w.req)])
    else
      var row := Row(w.req.eventId, w.now);
      s' == State(s.time, left + {row}, s.log + [row], s.workers[t := Dispatched(w.req, Some(|s.log|))])
  }

  predicate Step(s: State, s': State, t: int, c: Constants) {
    t in s.workers && t in s'.workers &&
    match s.workers[t]
    case Arrived(req) =>
      s' == s.(workers := s.workers[t := if SignatureOk(req, s.time, c) then Verified(req, s.time) else Refused(req)])
    case Verified(req, at) =>
      && s' == s.(workers := s.workers[t := s'.workers[t]])
      && (if req.eventId == "" then s'.workers[t] == Dispatched(req, None)
          else s'.workers[t] == Clocked(req, at, s.time))
    case Clocked(req, at, now) =>
      s' == s.(workers := s.workers[t := Cleaned(req, at, now, Expired(s.rows, now - c.ttl), |s.log|)])
    case Cleaned(req, at, now, doomed, _) =>
      Commit(s, s', t, s.workers[t]) || s' == s.(workers := s.workers[t := Failed(req)])
    case _ => s' == s
  }

  /** Time passes. */
  predicate Tick(s: State, s': State) {
    s.time <= s'.time && s' == s.(time := s'.time)
  }

  predicate Init(s: State) {
    s.rows == {} && s.log == [] && forall t | t in s.workers :: s.workers[t].Arrived?
  }

  ghost predicate Next(s: State, s': State, c: Constants) {
    Tick(s, s') || exists t :: Step(s, s', t, c)
  }

  ghost predicate Run(run: seq<State>, c: Constants) {
    run != [] && Init(run[0]) && forall k | 0 <= k < |run| - 1 :: Next(run[k], run[k + 1], c)
  }

  // ----- Safety -----

  /** Between the accepts i and n of the log some committed cleanup was later than i's
      stamp by more than the time-to-live. */
  ghost predicate Outlived(log: seq<Row>, i: int, n: int, ttl: real) {
    exists k :: 0 <= i < k < n <= |log| && log[k].seenAt - ttl > log[i].seenAt
  }

  /** Each dispatch of an event with an id has its own accept in the log. */
  ghost predicate SlotsOk(s: State) {
    && (forall t | t in s.workers && s.workers[t].Dispatched? :: DispatchOk(s.workers[t], s.log))
    && (forall t, u | t in s.workers && u in s.workers && t != u && s.workers[t].Dispatched? && s.workers[u].Dispatched?
                      && s.workers[t].slot.Some? :: s.workers[t].slot != s.workers[u].slot)
  }

  predicate DispatchOk(w: Worker, log: seq<Row>)
    requires w.Dispatched?
  {
    if w.req.eventId == "" then w.slot.None?
    else w.slot.Some? && w.slot.value < |log| && log[w.slot.value].eventId == w.req.eventId
  }

  ghost predicate WorkerOk(w: Worker, s: State, c: Constants) {
    && (w.Clocked? || w.Cleaned? ==> w.req.eventId != "")
    && (w.Verified? || w.Clocked? || w.Cleaned? ==> w.at <= s.time)
    && (w.Clocked? || w.Cleaned? ==> w.at <= w.now <= s.time)
    && (w.Cleaned? ==>
      && w.seen <= |s.log|
      && (forall r | r in w.doomed :: r.seenAt < w.now - c.ttl)
      && (forall r | r in s.rows :: r.seenAt >= w.now - c.ttl || r in w.doomed || r in s.log[w.seen..]))
  }

  ghost predicate Inv(s: State, c: Constants) {
    && UniqueIds(s.rows)
    && (forall r | r in s.rows :: r in s.log)
    && (forall i | 0 <= i < |s.log| :: s.log[i].seenAt <= s.time)
    && (forall i | 0 <= i < |s.log| :: s.log[i] in s.rows || Outlived(s.log, i, |s.log|, c.ttl))
    && (forall i, j | 0 <= i < j < |s.log| && s.log[i].eventId == s.log[j].eventId :: Outlived(s.log, i, j + 1, c.ttl))
    && (forall t | t in s.workers :: WorkerOk(s.workers[t], s, c))
    && SlotsOk(s)
  }

  lemma OutlivedExtends(log: seq<Row>, row: Row, i: int, n: int, ttl: real)
    requires Outlived(log, i, n, ttl)
    ensures Outlived(log + [row], i, n, ttl) && Outlived(log + [row], i, |log| + 1, ttl)
  {
    var k :| 0 <= i < k < n <= |log| && log[k].seenAt - ttl > log[i].seenAt;
    assert (log + [row])[k] == log[k] && (log + [row])[i] == log[i];
  }

  /** An accept keeps every earlier accept accounted for: its row is still there, or it
      was outlived - possibly by this very accept. */
  lemma AcceptOutlives(s: State, c: Constants, t: int, row: Row, i: int)
    requires Inv(s, c) && t in s.workers && s.workers[t].Cleaned?
    requires row == Row(s.workers[t].req.eventId, s.workers[t].now)
    requires !Has(s.rows - s.workers[t].doomed, row.eventId) && 0 <= i < |s.log|
    ensures s.log[i] in (s.rows - s.workers[t].doomed) + {row} || Outlived(s.log + [row], i, |s.log| + 1, c.ttl)
    ensures s.log[i].eventId == row.eventId ==> Outlived(s.log + [row], i, |s.log| + 1, c.ttl)
  {
    var log' := s.log + [row];
    assert WorkerOk(s.workers[t], s, c);
    if Outlived(s.log, i, |s.log|, c.ttl) {
      OutlivedExtends(s.log, row, i, |s.log|, c.ttl);
    } else {
      assert s.log[i] in s.rows;
      if s.log[i] in s.workers[t].doomed {
        assert log'[|s.log|] == row && log'[i] == s.log[i];
        assert log'[|s.log|].seenAt - c.ttl > log'[i].seenAt;
      }
    }
  }

  lemma AcceptKeepsLog(s: State, c: Constants, t: int, row: Row)
    requires Inv(s, c) && t in s.workers && s.workers[t].Cleaned?
    requires row == Row(s.workers[t].req.eventId, s.workers[t].now)
    requires !Has(s.rows - s.workers[t].doomed, row.eventId)
    ensures var log' := s.log + [row]; var rows' := (s.rows - s.workers[t].doomed) + {row};
      && (forall i | 0 <= i < |log'| :: log'[i] in rows' || Outlived(log', i, |log'|, c.ttl))
      && (forall i, j | 0 <= i < j < |log'| && log'[i].eventId == log'[j].eventId :: Outlived(log', i, j + 1, c.ttl))
  {
    var log' := s.log + [row];
    forall i | 0 <= i < |s.log|
      ensures log'[i] in (s.rows - s.workers[t].doomed) + {row} || Outlived(log', i, |log'|, c.ttl) {
      AcceptOutlives(s, c, t, row, i);
    }
    forall i, j | 0 <= i < j < |log'| && log'[i].eventId == log'[j].eventId ensures Outlived(log', i, j + 1, c.ttl) {
      if j < |s.log| {
        OutlivedExtends(s.log, row, i, j + 1, c.ttl);
      } else {
        AcceptOutlives(s, c, t, row, i);
      }
    }
  }

  lemma AcceptKeepsSlots(s: State, s': State, c: Constants, t: int)
    requires Inv(s, c) && t in s.workers && s.workers[t].Cleaned? && Commit(s, s', t, s.workers[t])
    requires !Has(s.rows - s.workers[t].doomed, s.workers[t].req.eventId)
    ensures SlotsOk(s')
  {
    assert WorkerOk(s.workers[t], s, c);
    forall u | u in s'.workers && s'.workers[u].Dispatched? ensures DispatchOk(s'.workers[u], s'.log) {
      if u != t {
        assert DispatchOk(s.workers[u], s.log);
      }
    }
  }

  lemma AcceptKeepsWorkers(s: State, s': State, c: Constants, t: int)
    requires Inv(s, c) && t in s.workers && s.workers[t].Cleaned? && Commit(s, s', t, s.workers[t])
    requires !Has(s.rows - s.workers[t].doomed, s.workers[t].req.eventId)
    ensures forall u | u in s'.workers :: WorkerOk(s'.workers[u], s', c)
  {
    var row := Row(s.workers[t].req.eventId, s.workers[t].now);
    forall u | u in s'.workers ensures WorkerOk(s'.workers[u], s', c) {
      if u != t {
        assert WorkerOk(s.workers[u], s, c);
        if s'.workers[u].Cleaned? {
          assert s'.log[s'.workers[u].seen..] == s.log[s'.workers[u].seen..] + [row];
        }
      }
    }
  }

  lemma AcceptKeepsInv(s: State, s': State, c: Constants, t: int)
    requires Inv(s, c) && t in s.workers && s.workers[t].Cleaned? && Commit(s, s', t, s.workers[t])
    requires !Has(s.rows - s.workers[t].doomed, s.workers[t].req.eventId)
    ensures Inv(s', c)
  {
    AcceptKeepsLog(s, c, t, Row(s.workers[t].req.eventId, s.workers[t].now));
    AcceptKeepsSlots(s, s', c, t);
    AcceptKeepsWorkers(s, s', c, t);
  }

  lemma StepKeepsInv(s: State, s': State, c: Constants, t: int)
    requires Inv(s, c) && Step(s, s', t, c)
    ensures Inv(s', c)
  {
    var w := s.workers[t];
    if w.Cleaned? && Commit(s, s', t, w) && !Has(s.rows - w.doomed, w.req.eventId) {
      AcceptKeepsInv(s, s', c, t);
    } else {
      forall u | u in s'.workers ensures WorkerOk(s'.workers[u], s', c) {
        if u != t {
          assert WorkerOk(s.workers[u], s, c);
        }
      }
    }
  }

  lemma NextKeepsInv(s: State, s': State, c: Constants)
    requires Inv(s, c) && Next(s, s', c)
    ensures Inv(s', c)
  {
    if Tick(s, s') {
      forall u | u in s'.workers ensures WorkerOk(s'.workers[u], s', c) {
        assert WorkerOk(s.workers[u], s, c);
      }
    } else {
      var t :| Step(s, s', t, c);
      StepKeepsInv(s, s', c, t);
    }
  }

  lemma {:induction false} RunInv(run: seq<State>, c: Constants, k: nat)
    requires Run(run, c) && k < |run|
    ensures Inv(run[k], c)
  {
    if k > 0 {
      RunInv(run, c, k - 1);
      assert Next(run[k - 1], run[k - 1 + 1], c);
      NextKeepsInv(run[k - 1], run[k], c);
    }
  }

  /** Across workers, in every interleaving: ids stay unique, and between two accepts of
      the same event some committed cleanup ran with a clock more than the time-to-live
      past the first one's stamp. */
  lemma AtMostOncePerTtl(run: seq<State>, c: Constants, k: nat, i: int, j: int)
    requires Run(run, c) && k < |run|
    ensures UniqueIds(run[k].rows)
    ensures 0 <= i < j < |run[k].log| && run[k].log[i].eventId == run[k].log[j].eventId ==>
              exists m :: i < m <= j && run[k].log[m].seenAt - c.ttl > run[k].log[i].seenAt
  {
    RunInv(run, c, k);
    if 0 <= i < j < |run[k].log| && run[k].log[i].eventId == run[k].log[j].eventId {
      assert Outlived(run[k].log, i, j + 1, c.ttl);
    }
  }

  predicate Nondecreasing(log: seq<Row>) {
    forall i, j | 0 <= i <= j < |log| :: log[i].seenAt <= log[j].seenAt
  }

  /** If accepts are stamped in commit order, two accepts of one event are more than the
      time-to-live apart. */
  lemma AcceptsAreApart(run: seq<State>, c: Constants, k: nat, i: int, j: int)
    requires Run(run, c) && k < |run| && Nondecreasing(run[k].log)
    requires 0 <= i < j < |run[k].log| && run[k].log[i].eventId == run[k].log[j].eventId
    ensures run[k].log[j].seenAt > run[k].log[i].seenAt + c.ttl
  {
    AtMostOncePerTtl(run, c, k, i, j);
    var m :| i < m <= j && run[k].log[m].seenAt - c.ttl > run[k].log[i].seenAt;
  }

  lemma AcceptedRow(s: State, s': State, c: Constants, t: int, r: Row)
    requires t in s.workers && s.workers[t].Cleaned? && WorkerOk(s.workers[t], s, c) && c.ttl >= 0.0
    requires t in s'.workers && s'.workers[t].Dispatched? && Commit(s, s', t, s.workers[t])
    requires r in s'.rows && r.seenAt < s.workers[t].now - c.ttl
    ensures r in s.log[s.workers[t].seen..]
  {
  }

  /** Right after an accept at `now`, a row older than the time-to-live can only have
      been committed since that worker's cleanup. */
  lemma OldRowsAreLate(run: seq<State>, c: Constants, k: nat, t: int, r: Row)
    requires Run(run, c) && k < |run| - 1 && Step(run[k], run[k + 1], t, c) && c.ttl >= 0.0
    requires run[k].workers[t].Cleaned? && run[k + 1].workers[t].Dispatched?
    requires r in run[k + 1].rows && r.seenAt < run[k].workers[t].now - c.ttl
    ensures run[k].workers[t].seen <= |run[k].log| && r in run[k].log[run[k].workers[t].seen..]
  {
    RunInv(run, c, k);
    var s, s' := run[k], run[k + 1];
    assert WorkerOk(s.workers[t], s, c);
    assert Commit(s, s', t, s.workers[t]);
    AcceptedRow(s, s', c, t, r);
  }

  lemma Covered(rows: set<Row>, log: seq<Row>, since: real, between: seq<Row>)
    requires forall r | r in rows :: r in log && (r.seenAt >= since || r in between)
    ensures |rows| <= |AcceptsSince(log, since)| + |between|
  {
    forall r | r in rows ensures r in AcceptsSince(log, since) + between {
      AcceptsSinceMember(log, since, r);
    }
    DistinctAtMost(rows, AcceptsSince(log, since) + between);
  }

  lemma RowsAreLogged(run: seq<State>, c: Constants, k: nat)
    requires Run(run, c) && k < |run|
    ensures forall r | r in run[k].rows :: r in run[k].log
  {
    RunInv(run, c, k);
  }

  lemma AllOldRowsAreLate(run: seq<State>, c: Constants, k: nat, t: int)
    requires Run(run, c) && k < |run| - 1 && Step(run[k], run[k + 1], t, c) && c.ttl >= 0.0
    requires run[k].workers[t].Cleaned? && run[k + 1].workers[t].Dispatched?
    ensures run[k].workers[t].seen <= |run[k].log|
    ensures forall r | r in run[k + 1].rows :: r.seenAt < run[k].workers[t].now - c.ttl ==>
              r in run[k].log[run[k].workers[t].seen..]
  {
    SeenIsLogged(run, c, k, t);
    forall r | r in run[k + 1].rows && r.seenAt < run[k].workers[t].now - c.ttl
      ensures r in run[k].log[run[k].workers[t].seen..]
    {
      OldRowsAreLate(run, c, k, t, r);
    }
  }

  /** So with many workers, too, the table is bounded right after an accept: by the recent
      accepts and those that came between this worker's cleanup and its commit. */
  lemma TableIsBounded(run: seq<State>, c: Constants, k: nat, t: int)
    requires Run(run, c) && k < |run| - 1 && Step(run[k], run[k + 1], t, c) && c.ttl >= 0.0
    requires run[k].workers[t].Cleaned? && run[k + 1].workers[t].Dispatched?
    ensures run[k].workers[t].seen <= |run[k].log|
    ensures |run[k + 1].rows| <= |AcceptsSince(run[k + 1].log, run[k].workers[t].now - c.ttl)|
                               + |run[k].log[run[k].workers[t].seen..]|
  {
    var since, between := run[k].workers[t].now - c.ttl, run[k].workers[t].seen;
    RowsAreLogged(run, c, k + 1);
    AllOldRowsAreLate(run, c, k, t);
    forall r | r in run[k + 1].rows ensures r in run[k + 1].log && (r.seenAt >= since || r in run[k].log[between..]) {
    }
    Covered(run[k + 1].rows, run[k + 1].log, since, run[k].log[between..]);
  }

  lemma SeenIsLogged(run: seq<State>, c: Constants, k: nat, t: int)
    requires Run(run, c) && k < |run| && t in run[k].workers && run[k].workers[t].Cleaned?
    ensures run[k].workers[t].seen <= |run[k].log|
  {
    RunInv(run, c, k);
    assert WorkerOk(run[k].workers[t], run[k], c);
  }
}
