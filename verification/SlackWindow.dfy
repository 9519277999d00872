/** How the signature window and the de-duplication's time-to-live fit together. */
module SlackWindow {
  import opened Wrappers
  import opened SlackDedupe

  /** Every delivery of this event id is a replay of one signed request. */
  ghost predicate Replays(s: State, req: Request) {
    req.eventId != "" && forall t | t in s.workers && s.workers[t].req.eventId == req.eventId :: s.workers[t].req == req
  }

  /** `delay`: from a worker's signature check to its de-duplication reading; `lag`: from
      that reading to the commit of the accept. */
  datatype Pace = Pace(delay: real, lag: real)

  predicate Prompt(s: State, p: Pace) {
    forall t | t in s.workers && s.workers[t].Clocked? :: s.workers[t].now <= s.workers[t].at + p.delay
  }

  predicate PromptCommit(s: State, s': State, p: Pace) {
    forall t | t in s.workers && t in s'.workers && s.workers[t].Cleaned? && s'.workers[t].Dispatched? ::
      s'.time <= s.workers[t].now + p.lag
  }

  ghost predicate PromptRun(run: seq<State>, p: Pace) {
    && (forall k | 0 <= k < |run| :: Prompt(run[k], p))
    && (forall k | 0 <= k < |run| - 1 :: PromptCommit(run[k], run[k + 1], p))
  }

  predicate InWindow(now: real, req: Request, c: Constants, p: Pace) {
    req.timestamp - c.window <= now <= req.timestamp + c.window + p.delay
  }

  ghost predicate WorkerInWindow(w: Worker, req: Request, c: Constants, p: Pace) {
    w.req.eventId == req.eventId ==>
      && w.req == req
      && (w.Verified? || w.Clocked? || w.Cleaned? ==> SignatureOk(req, w.at, c))
      && (w.Clocked? || w.Cleaned? ==> InWindow(w.now, req, c, p))
  }

  /** An accept of the event is stamped in its window, and when it commits no accept
      has yet a stamp later than the window, the delay and the lag. */
  ghost predicate AcceptInWindow(log: seq<Row>, i: nat, req: Request, c: Constants, p: Pace)
    requires i < |log|
  {
    && req.timestamp - c.window <= log[i].seenAt
    && forall m | 0 <= m <= i :: log[m].seenAt <= req.timestamp + c.window + p.delay + p.lag
  }

  ghost predicate WindowInv(s: State, req: Request, c: Constants, p: Pace) {
    && (forall t | t in s.workers :: WorkerInWindow(s.workers[t], req, c, p))
    && (forall i | 0 <= i < |s.log| && s.log[i].eventId == req.eventId :: AcceptInWindow(s.log, i, req, c, p))
  }

  lemma StepKeepsWindow(s: State, s': State, t: int, req: Request, c: Constants, p: Pace)
    requires WindowInv(s, req, c, p) && Inv(s, c) && Step(s, s', t, c) && Prompt(s', p) && PromptCommit(s, s', p)
    requires p.delay >= 0.0
    ensures WindowInv(s', req, c, p)
  {
    assert WorkerInWindow(s.workers[t], req, c, p) && WorkerOk(s.workers[t], s, c);
    assert WorkerInWindow(s'.workers[t], req, c, p);
    forall i | 0 <= i < |s'.log| && s'.log[i].eventId == req.eventId ensures AcceptInWindow(s'.log, i, req, c, p) {
      if i < |s.log| {
        assert AcceptInWindow(s.log, i, req, c, p);
      }
    }
  }

  lemma NextKeepsWindow(s: State, s': State, req: Request, c: Constants, p: Pace)
    requires WindowInv(s, req, c, p) && Inv(s, c) && Next(s, s', c) && Prompt(s', p) && PromptCommit(s, s', p)
    requires p.delay >= 0.0
    ensures WindowInv(s', req, c, p)
  {
    if Tick(s, s') {
      assert s'.workers == s.workers && s'.log == s.log;
    } else {
      var t :| Step(s, s', t, c);
      StepKeepsWindow(s, s', t, req, c, p);
    }
  }

  lemma RunAt(run: seq<State>, c: Constants, p: Pace, k: nat)
    requires Run(run, c) && PromptRun(run, p) && k + 1 < |run|
    ensures Next(run[k], run[k + 1], c) && Prompt(run[k + 1], p) && PromptCommit(run[k], run[k + 1], p)
  {
  }

  lemma InitWindow(s: State, req: Request, c: Constants, p: Pace)
    requires Init(s) && Replays(s, req)
    ensures WindowInv(s, req, c, p)
  {
  }

  lemma {:induction false} RunWindow(run: seq<State>, k: nat, req: Request, c: Constants, p: Pace)
    requires Run(run, c) && k < |run| && Replays(run[0], req) && PromptRun(run, p) && p.delay >= 0.0
    ensures WindowInv(run[k], req, c, p)
  {
    if k == 0 {
      InitWindow(run[0], req, c, p);
    } else {
      RunWindow(run, k - 1, req, c, p);
      RunInv(run, c, k - 1);
      RunAt(run, c, p, k - 1);
      NextKeepsWindow(run[k - 1], run[k], req, c, p);
    }
  }

  predicate DispatchedTwice(s: State, req: Request, t: int, u: int) {
    && t in s.workers && u in s.workers && t != u
    && s.workers[t].Dispatched? && s.workers[u].Dispatched?
    && s.workers[t].req == req && s.workers[u].req == req
  }

  /** A signed request with an event id, however often it is replayed, is dispatched at
      most once. */
  ghost predicate AtMostOnce(c: Constants, p: Pace) {
    forall run: seq<State>, k: nat, req, t, u |
      Run(run, c) && k < |run| && Replays(run[0], req) && PromptRun(run, p) ::
      !DispatchedTwice(run[k], req, t, u)
  }

  /** Two accepts of the event take a cleanup that is late enough to have run between. */
  lemma SecondAcceptIsLate(run: seq<State>, k: nat, req: Request, c: Constants, p: Pace, i: nat, j: nat)
    requires Run(run, c) && k < |run| && WindowInv(run[k], req, c, p)
    requires i < j < |run[k].log| && run[k].log[i].eventId == run[k].log[j].eventId == req.eventId
    ensures 2.0 * c.window + p.delay + p.lag > c.ttl
  {
    AtMostOncePerTtl(run, c, k, i, j);
    var m :| i < m <= j && run[k].log[m].seenAt - c.ttl > run[k].log[i].seenAt;
    assert AcceptInWindow(run[k].log, i, req, c, p) && AcceptInWindow(run[k].log, j, req, c, p);
  }

  lemma WindowSuffices(run: seq<State>, k: nat, req: Request, c: Constants, p: Pace, t: int, u: int)
    requires Run(run, c) && k < |run| && Replays(run[0], req) && PromptRun(run, p)
    requires p.delay >= 0.0 && 2.0 * c.window + p.delay + p.lag <= c.ttl
    ensures !DispatchedTwice(run[k], req, t, u)
  {
    var s := run[k];
    if DispatchedTwice(s, req, t, u) {
      RunWindow(run, k, req, c, p);
      RunInv(run, c, k);
      assert DispatchOk(s.workers[t], s.log) && DispatchOk(s.workers[u], s.log);
      var i, j := s.workers[t].slot.value, s.workers[u].slot.value;
      if i < j {
        SecondAcceptIsLate(run, k, req, c, p, i, j);
      } else {
        SecondAcceptIsLate(run, k, req, c, p, j, i);
      }
    }
  }

  // ----- The constants cannot be closer -----

  /** The first delivery arrives as early as the window allows.  The second one as late,
      and reads its clock; while it stalls, another event is accepted, and its cleanup
      deletes the first one's row. */
  function TwoDeliveries(c: Constants, p: Pace): seq<State> {
    var early, read, late := -c.window, c.window + p.delay, c.window + p.delay + p.lag;
    var req, other := Request(true, 0.0, "Ev"), Request(true, late, "Other");
    var r0, r1, r2 := Row("Ev", early), Row("Other", late), Row("Ev", read);
    var a, b := Arrived(req), Arrived(other);
    var first, second := Dispatched(req, Some(0)), Dispatched(other, Some(1));
    var stalled := Clocked(req, c.window, read);
    [State(early, {}, [], map[0 := a, 1 := a, 2 := b]),
     State(early, {}, [], map[0 := Verified(req, early), 1 := a, 2 := b]),
     State(early, {}, [], map[0 := Clocked(req, early, early), 1 := a, 2 := b]),
     State(early, {}, [], map[0 := Cleaned(req, early, early, {}, 0), 1 := a, 2 := b]),
     State(early, {r0}, [r0], map[0 := first, 1 := a, 2 := b]),
     State(c.window, {r0}, [r0], map[0 := first, 1 := a, 2 := b]),
     State(c.window, {r0}, [r0], map[0 := first, 1 := Verified(req, c.window), 2 := b]),
     State(read, {r0}, [r0], map[0 := first, 1 := Verified(req, c.window), 2 := b]),
     State(read, {r0}, [r0], map[0 := first, 1 := stalled, 2 := b]),
     State(late, {r0}, [r0], map[0 := first, 1 := stalled, 2 := b]),
     State(late, {r0}, [r0], map[0 := first, 1 := stalled, 2 := Verified(other, late)]),
     State(late, {r0}, [r0], map[0 := first, 1 := stalled, 2 := Clocked(other, late, late)]),
     State(late, {r0}, [r0], map[0 := first, 1 := stalled, 2 := Cleaned(other, late, late, {r0}, 1)]),
     State(late, {r1}, [r0, r1], map[0 := first, 1 := stalled, 2 := second]),
     State(late, {r1}, [r0, r1], map[0 := first, 1 := Cleaned(req, c.window, read, {}, 2), 2 := second]),
     State(late, {r1, r2}, [r0, r1, r2], map[0 := first, 1 := Dispatched(req, Some(2)), 2 := second])]
  }

  lemma FirstReading(c: Constants, p: Pace)
    requires c.window >= 0.0
    ensures forall k | 0 <= k < 2 :: Next(TwoDeliveries(c, p)[k], TwoDeliveries(c, p)[k + 1], c)
  {
    var run := TwoDeliveries(c, p);
    assert Step(run[0], run[1], 0, c);
    assert Step(run[1], run[2], 0, c);
  }

  lemma FirstCleanup(c: Constants, p: Pace)
    ensures Next(TwoDeliveries(c, p)[2], TwoDeliveries(c, p)[3], c)
  {
    var run := TwoDeliveries(c, p);
    assert Expired({}, -c.window - c.ttl) == {};
    assert Step(run[2], run[3], 0, c);
  }

  lemma FirstAccept(c: Constants, p: Pace)
    ensures Next(TwoDeliveries(c, p)[3], TwoDeliveries(c, p)[4], c)
  {
    var run := TwoDeliveries(c, p);
    assert Step(run[3], run[4], 0, c);
  }

  lemma SecondReading(c: Constants, p: Pace)
    requires c.window >= 0.0 && p.delay >= 0.0 && p.lag >= 0.0
    ensures forall k | 4 <= k < 9 :: Next(TwoDeliveries(c, p)[k], TwoDeliveries(c, p)[k + 1], c)
  {
    var run := TwoDeliveries(c, p);
    assert Tick(run[4], run[5]) && Tick(run[6], run[7]) && Tick(run[8], run[9]);
    assert Step(run[5], run[6], 1, c);
    assert Step(run[7], run[8], 1, c);
  }

  lemma OtherDelivery(c: Constants, p: Pace)
    requires c.window >= 0.0 && p.delay >= 0.0 && p.lag >= 0.0 && 2.0 * c.window + p.delay + p.lag > c.ttl
    ensures forall k | 9 <= k < 13 :: Next(TwoDeliveries(c, p)[k], TwoDeliveries(c, p)[k + 1], c)
  {
    var run := TwoDeliveries(c, p);
    var r0, late := Row("Ev", -c.window), c.window + p.delay + p.lag;
    assert Step(run[9], run[10], 2, c);
    assert Step(run[10], run[11], 2, c);
    assert Step(run[11], run[12], 2, c) by { assert Expired({r0}, late - c.ttl) == {r0}; }
    assert Step(run[12], run[13], 2, c);
  }

  lemma SecondAccept(c: Constants, p: Pace)
    requires c.ttl >= 0.0 && p.lag >= 0.0
    ensures forall k | 13 <= k < 15 :: Next(TwoDeliveries(c, p)[k], TwoDeliveries(c, p)[k + 1], c)
  {
    var run := TwoDeliveries(c, p);
    var r1, read := Row("Other", c.window + p.delay + p.lag), c.window + p.delay;
    assert Step(run[13], run[14], 1, c) by { assert Expired({r1}, read - c.ttl) == {}; }
    assert Step(run[14], run[15], 1, c);
  }

  lemma TwoDeliveriesRun(c: Constants, p: Pace)
    requires c.window >= 0.0 && c.ttl >= 0.0 && p.delay >= 0.0 && p.lag >= 0.0
    requires 2.0 * c.window + p.delay + p.lag > c.ttl
    ensures Run(TwoDeliveries(c, p), c)
  {
    FirstReading(c, p);
    FirstCleanup(c, p);
    FirstAccept(c, p);
    SecondReading(c, p);
    OtherDelivery(c, p);
    SecondAccept(c, p);
  }

  lemma TwoDeliveriesPrompt(c: Constants, p: Pace)
    requires c.window >= 0.0 && p.delay >= 0.0 && p.lag >= 0.0
    ensures PromptRun(TwoDeliveries(c, p), p)
  {
    var run := TwoDeliveries(c, p);
    forall k | 0 <= k < |run| ensures Prompt(run[k], p) { TwoReadingsPrompt(c, p, k); }
    forall k | 0 <= k < |run| - 1 ensures PromptCommit(run[k], run[k + 1], p) { TwoCommitsPrompt(c, p, k); }
  }

  lemma TwoReadingsPrompt(c: Constants, p: Pace, k: nat)
    requires p.delay >= 0.0 && k < |TwoDeliveries(c, p)|
    ensures Prompt(TwoDeliveries(c, p)[k], p)
  {
  }

  lemma TwoCommitsPrompt(c: Constants, p: Pace, k: nat)
    requires p.lag >= 0.0 && k < |TwoDeliveries(c, p)| - 1
    ensures PromptCommit(TwoDeliveries(c, p)[k], TwoDeliveries(c, p)[k + 1], p)
  {
  }

  /** Both comparisons are strict, and they meet exactly: a replayed request is
      dispatched at most once in every run just when twice the window, the time between
      the two clock readings and the time from the second one to the commit fit into
      the time-to-live. */
  lemma WindowIsExact(c: Constants, p: Pace)
    requires c.window >= 0.0 && c.ttl >= 0.0 && p.delay >= 0.0 && p.lag >= 0.0
    ensures AtMostOnce(c, p) <==> 2.0 * c.window + p.delay + p.lag <= c.ttl
  {
    if 2.0 * c.window + p.delay + p.lag <= c.ttl {
      forall run: seq<State>, k: nat, req, t, u |
        Run(run, c) && k < |run| && Replays(run[0], req) && PromptRun(run, p)
        ensures !DispatchedTwice(run[k], req, t, u)
      {
        WindowSuffices(run, k, req, c, p, t, u);
      }
    } else {
      var run := TwoDeliveries(c, p);
      TwoDeliveriesRun(c, p);
      TwoDeliveriesPrompt(c, p);
      assert Replays(run[0], Request(true, 0.0, "Ev"));
      assert DispatchedTwice(run[15], Request(true, 0.0, "Ev"), 0, 1);
    }
  }

  /** With a window of 300 s and a time-to-live of 600 s there is no slack at all: no time
      may pass from a worker's signature check to the commit of its accept. */
  lemma DeployedConstants(p: Pace)
    requires p.delay >= 0.0 && p.lag >= 0.0
    ensures REPLAY_WINDOW == 300.0 && SEEN_EVENT_TTL == 600.0
    ensures AtMostOnce(Constants(REPLAY_WINDOW, SEEN_EVENT_TTL), p) <==> p.delay + p.lag == 0.0
  {
    WindowIsExact(Constants(REPLAY_WINDOW, SEEN_EVENT_TTL), p);
  }
}
