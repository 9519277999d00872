/** What becomes of a delivery: in every interleaving it is refused, ignored or dispatched
    for a reason. */
module SlackDelivery {
  import opened Wrappers
  import opened SlackDedupe

  /** At some moment of the run so far the clock was within the window around the
      request's timestamp, bounds included. */
  ghost predicate OnTime(run: seq<State>, k: nat, req: Request, c: Constants)
    requires k < |run|
  {
    exists i :: 0 <= i <= k && req.timestamp - c.window <= run[i].time <= req.timestamp + c.window
  }

  ghost predicate OffTime(run: seq<State>, k: nat, req: Request, c: Constants)
    requires k < |run|
  {
    exists i :: 0 <= i <= k && !(req.timestamp - c.window <= run[i].time <= req.timestamp + c.window)
  }

  predicate Logged(log: seq<Row>, eventId: string) {
    exists i :: 0 <= i < |log| && log[i].eventId == eventId
  }

  /** A delivery goes on if it is signed and on time when checked, and is refused
      otherwise; it is ignored only if it has an event id that has been accepted. */
  ghost predicate Justified(run: seq<State>, k: nat, w: Worker, c: Constants)
    requires k < |run|
  {
    match w
    case Arrived(_) => true
    case Refused(req) => !req.signed || OffTime(run, k, req, c)
    case Ignored(req) => req.signed && OnTime(run, k, req, c) && req.eventId != "" && Logged(run[k].log, req.eventId)
    case _ => w.req.signed && OnTime(run, k, w.req, c)
  }

  lemma StaysJustified(run: seq<State>, k: nat, w: Worker, c: Constants)
    requires k + 1 < |run| && Justified(run, k, w, c) && run[k].log <= run[k + 1].log
    ensures Justified(run, k + 1, w, c)
  {
    if w.Ignored? {
      var i :| 0 <= i < |run[k].log| && run[k].log[i].eventId == w.req.eventId;
      assert run[k + 1].log[i] == run[k].log[i];
    }
  }

  /** The check decides at once: a signed delivery goes on if the clock is within the
      window, bounds included, and any other one is refused. */
  lemma CheckDecides(s: State, s': State, t: int, c: Constants)
    requires Step(s, s', t, c) && s.workers[t].Arrived?
    ensures var req := s.workers[t].req;
            s'.workers[t] ==
              if req.signed && req.timestamp - c.window <= s.time <= req.timestamp + c.window
              then Verified(req, s.time) else Refused(req)
    ensures s'.rows == s.rows && s'.log == s.log
  {
  }

  lemma CheckIsJustified(run: seq<State>, k: nat, t: int, c: Constants)
    requires k + 1 < |run| && Step(run[k], run[k + 1], t, c) && run[k].workers[t].Arrived?
    ensures Justified(run, k + 1, run[k + 1].workers[t], c)
  {
    CheckDecides(run[k], run[k + 1], t, c);
  }

  /** A transaction is rolled back only because of a row of the same event, which it did
      not clean up, and leaves the table as it was. */
  lemma IgnoredIsDuplicate(s: State, s': State, t: int, c: Constants)
    requires Inv(s, c) && Step(s, s', t, c) && s.workers[t].Cleaned? && s'.workers[t].Ignored?
    ensures var w := s.workers[t];
            w.seen <= |s.log| &&
            exists r :: r in s.rows && r in s.log && r.eventId == w.req.eventId
                        && (r.seenAt >= w.now - c.ttl || r in s.log[w.seen..])
    ensures s'.rows == s.rows && s'.log == s.log
  {
    var w := s.workers[t];
    assert WorkerOk(w, s, c);
    var r :| r in s.rows - w.doomed && r.eventId == w.req.eventId;
    assert r in s.rows && r in s.log;
  }

  lemma StepIsJustified(run: seq<State>, k: nat, t: int, c: Constants)
    requires k + 1 < |run| && Inv(run[k], c) && Step(run[k], run[k + 1], t, c)
    requires Justified(run, k, run[k].workers[t], c)
    ensures run[k].log <= run[k + 1].log && Justified(run, k + 1, run[k + 1].workers[t], c)
  {
    var w, w' := run[k].workers[t], run[k + 1].workers[t];
    assert WorkerOk(w, run[k], c);
    if w.Arrived? {
      CheckIsJustified(run, k, t, c);
    } else if w.Cleaned? && w'.Ignored? {
      IgnoredIsDuplicate(run[k], run[k + 1], t, c);
      var r :| r in run[k].log && r.eventId == w.req.eventId;
      var i :| 0 <= i < |run[k].log| && run[k].log[i] == r;
      assert run[k + 1].log[i].eventId == w.req.eventId;
      assert OnTime(run, k, w.req, c);
    } else {
      StaysJustified(run, k, w, c);
    }
  }

  ghost predicate AllJustified(run: seq<State>, k: nat, c: Constants)
    requires k < |run|
  {
    forall t | t in run[k].workers :: Justified(run, k, run[k].workers[t], c)
  }

  lemma NextIsJustified(run: seq<State>, k: nat, c: Constants)
    requires k + 1 < |run| && Inv(run[k], c) && Next(run[k], run[k + 1], c) && AllJustified(run, k, c)
    ensures AllJustified(run, k + 1, c)
  {
    var n := k + 1;
    if Tick(run[k], run[k + 1]) {
      forall t | t in run[n].workers ensures Justified(run, n, run[n].workers[t], c) {
        StaysJustified(run, k, run[k].workers[t], c);
      }
    } else {
      var u :| Step(run[k], run[k + 1], u, c);
      StepIsJustified(run, k, u, c);
      forall t | t in run[n].workers ensures Justified(run, n, run[n].workers[t], c) {
        if t != u {
          OthersStay(run[k], run[k + 1], u, t, c);
          StaysJustified(run, k, run[k].workers[t], c);
        }
      }
    }
  }

  lemma OthersStay(s: State, s': State, u: int, t: int, c: Constants)
    requires Step(s, s', u, c) && t != u && t in s'.workers
    ensures t in s.workers && s'.workers[t] == s.workers[t]
  {
  }

  /** In every run: whatever is past the check was signed and within the window when it was
      checked, and whatever is refused was not; whatever is ignored has an event id that
      some earlier delivery was accepted with. */
  lemma {:induction false} EveryDeliveryIsJustified(run: seq<State>, k: nat, c: Constants)
    requires Run(run, c) && k < |run|
    ensures AllJustified(run, k, c)
  {
    if k > 0 {
      EveryDeliveryIsJustified(run, k - 1, c);
      RunInv(run, c, k - 1);
      assert Next(run[k - 1], run[k - 1 + 1], c);
      NextIsJustified(run, k - 1, c);
    }
  }
}
