/**
 When every call of a worker returns by its deadline: exactly which configurations never let
 two hands hold one row.
 */
module OutboxTiming {
  import opened Wrappers
  import opened OutboxProtocol
  import opened OutboxSafety

  /** Time does not pass the deadline of a call in progress. */
  predicate Timely(s: State, e: Event) {
    e.Tick? ==> forall w | w in s.workers && !s.workers[w].pc.Idle? :: s.now + e.elapsed <= s.workers[w].due
  }

  predicate TimelyRun(cfg: Config, es: seq<Event>) {
    es == [] || (TimelyRun(cfg, es[..|es| - 1]) && Timely(Run(cfg, es[..|es| - 1]), es[|es| - 1]))
  }

  /** The longest a batch may last until its first `handled` events are done. */
  function Budget(cfg: Config, handled: nat): nat {
    cfg.batchTimeout + 2 * handled * cfg.batchTimeout
  }

  predicate BoundHolds(cfg: Config) {
    (2 * cfg.batchSize + 1) * cfg.batchTimeout <= cfg.processingTimeout
  }

  lemma BudgetStep(cfg: Config, handled: nat)
    ensures Budget(cfg, handled + 1) == Budget(cfg, handled) + 2 * cfg.batchTimeout
  {
    assert 2 * (handled + 1) * cfg.batchTimeout == 2 * handled * cfg.batchTimeout + 2 * cfg.batchTimeout;
  }

  lemma BudgetMonotone(cfg: Config, a: nat, b: nat)
    requires a <= b
    ensures Budget(cfg, a) <= Budget(cfg, b)
  {
    assert 2 * a * cfg.batchTimeout <= 2 * b * cfg.batchTimeout;
  }

  /** By which time after its start the batch's current call is due. */
  predicate WorkerTime(cfg: Config, s: State, w: WorkerId)
    requires w in s.workers
  {
    var worker := s.workers[w];
    && worker.handled + |worker.queue| <= cfg.batchSize
    && (!worker.pc.Idle? ==> s.now <= worker.due)
    && (worker.pc.Claiming? ==> worker.handled == 0 && worker.due <= worker.batchStart + Budget(cfg, 0))
    && (worker.pc.Claimed? || worker.pc.Returning? ==> worker.due <= worker.batchStart + Budget(cfg, worker.handled))
    && (worker.pc.Sending? ==> worker.due <= worker.batchStart + Budget(cfg, worker.handled) + cfg.batchTimeout)
    && (worker.pc.Marking? ==> worker.due <= worker.batchStart + Budget(cfg, worker.handled + 1))
  }

  ghost predicate TimeInv(cfg: Config, s: State) {
    && (forall w | w in s.workers :: WorkerTime(cfg, s, w))
    && s.lates == {}
  }

  /** A worker that holds a ticket does so within the bound. */
  lemma HeldWithinBound(cfg: Config, s: State, w: WorkerId, i: nat)
    requires Inv(cfg, s) && TimeInv(cfg, s) && BoundHolds(cfg) && Holds(s, w, i)
    ensures s.now <= s.workers[w].batchStart + cfg.processingTimeout
  {
    var worker := s.workers[w];
    assert WorkerTime(cfg, s, w) && WorkerInv(cfg, s, w);
    BudgetStep(cfg, worker.handled);
    BudgetMonotone(cfg, worker.handled, cfg.batchSize);
    BudgetMonotone(cfg, worker.handled + 1, cfg.batchSize);
    assert Budget(cfg, cfg.batchSize) == (2 * cfg.batchSize + 1) * cfg.batchTimeout;
  }

  lemma ReleaseTakesNothingHeld(cfg: Config, s: State, w: WorkerId, o: Outcome)
    requires Inv(cfg, s) && TimeInv(cfg, s) && BoundHolds(cfg)
    requires w in s.workers && s.workers[w].pc.Releasing?
    ensures ReleaseStep(s, w, o).lates == {}
  {
    var stuckBefore := s.workers[w].pc.stuckBefore;
    assert WorkerInv(cfg, s, w);
    forall id | id in s.rows && Stuck(s.rows[id], stuckBefore) ensures !HeldNow(s, id) {
      if HeldNow(s, id) {
        var v, i :| v in s.workers && 0 <= i < |s.workers[v].queue| && s.workers[v].queue[i].id == id;
        assert Holds(s, v, i) && TicketInv(cfg, s, v, i);
        assert !IsLate(s, TicketOf(s, v, i));
        HeldWithinBound(cfg, s, v, i);
      }
    }
  }

  /** Only a Tick moves the clock, and an event moves only its own worker. */
  lemma StepFrame(cfg: Config, s: State, e: Event)
    ensures !e.Tick? ==> Apply(cfg, s, e).now == s.now
    ensures e.Tick? || e.Insert? ==> Apply(cfg, s, e).workers == s.workers
    ensures !e.Tick? && !e.Insert? ==> Apply(cfg, s, e).workers - {e.w} == s.workers - {e.w}
  {
  }

  lemma OwnTimeKept(cfg: Config, s: State, e: Event)
    requires !e.Tick? && !e.Insert?
    requires e.w in s.workers ==> WorkerTime(cfg, s, e.w) && WorkerInv(cfg, s, e.w)
    requires e.w in Apply(cfg, s, e).workers
    ensures WorkerTime(cfg, Apply(cfg, s, e), e.w)
  {
    var w := e.w;
    StepFrame(cfg, s, e);
    assert Budget(cfg, 0) == cfg.batchTimeout;
    if w in s.workers {
      BudgetStep(cfg, s.workers[w].handled);
      if e.MarkRun? && s.workers[w].pc.Marking? {
        MarkTimeKept(cfg, s, w, e.outcome);
      }
    }
  }

  lemma MarkTimeKept(cfg: Config, s: State, w: WorkerId, o: Outcome)
    requires w in s.workers && s.workers[w].pc.Marking? && s.workers[w].queue != []
    requires WorkerTime(cfg, s, w)
    ensures WorkerTime(cfg, MarkStep(cfg, s, w, o), w)
  {
    var worker := s.workers[w];
    assert MarkStep(cfg, s, w, o).workers[w] ==
           worker.(pc := Returning, queue := worker.queue[1..], handled := worker.handled + 1);
  }

  lemma WorkerTimeKept(cfg: Config, s: State, e: Event, w: WorkerId)
    requires Inv(cfg, s) && TimeInv(cfg, s) && Timely(s, e)
    requires w in Apply(cfg, s, e).workers
    ensures WorkerTime(cfg, Apply(cfg, s, e), w)
  {
    StepFrame(cfg, s, e);
    if e.Tick? || e.Insert? {
      assert WorkerTime(cfg, s, w);
    } else if e.w != w {
      assert Apply(cfg, s, e).workers[w] == (Apply(cfg, s, e).workers - {e.w})[w] == s.workers[w];
      assert WorkerTime(cfg, s, w);
    } else {
      assert w in s.workers ==> WorkerTime(cfg, s, w) && WorkerInv(cfg, s, w);
      OwnTimeKept(cfg, s, e);
    }
  }

  lemma {:induction false} TimeAlways(cfg: Config, es: seq<Event>)
    requires TimelyRun(cfg, es) && BoundHolds(cfg)
    ensures TimeInv(cfg, Run(cfg, es))
  {
    if es != [] {
      var s, e := Run(cfg, es[..|es| - 1]), es[|es| - 1];
      TimeAlways(cfg, es[..|es| - 1]);
      Always(cfg, es[..|es| - 1]);
      forall w | w in Apply(cfg, s, e).workers ensures WorkerTime(cfg, Apply(cfg, s, e), w) {
        WorkerTimeKept(cfg, s, e, w);
      }
      if e.ReleaseRun? && WorkerAt(s, e.w).pc.Releasing? {
        ReleaseTakesNothingHeld(cfg, s, e.w, e.outcome);
      }
    }
  }

  /** With (2 * batch_size + 1) * batch_timeout <= processing_timeout no row is ever in two hands. */
  lemma NeverShared(cfg: Config, es: seq<Event>, id: RowId)
    requires TimelyRun(cfg, es) && BoundHolds(cfg)
    ensures !Shared(Run(cfg, es), id)
  {
    TimeAlways(cfg, es);
    if Shared(Run(cfg, es), id) {
      var w, i, v, j := SharedIsHandedOver(cfg, es, id);
      SharedOnlyAfterLateRelease(cfg, es, id, w, i, v, j);
    }
  }

  // ----- The bound is tight -----

  /** Some timely run ends here. */
  ghost predicate Reachable(cfg: Config, s: State) {
    exists es :: TimelyRun(cfg, es) && Run(cfg, es) == s
  }

  lemma ReachableStep(cfg: Config, s: State, e: Event)
    requires Reachable(cfg, s) && Timely(s, e)
    ensures Reachable(cfg, Apply(cfg, s, e))
  {
    var es :| TimelyRun(cfg, es) && Run(cfg, es) == s;
    assert (es + [e])[..|es|] == es;
    assert TimelyRun(cfg, es + [e]) && Run(cfg, es + [e]) == Apply(cfg, s, e);
  }

  /** reach holds at the start and is kept by every timely step. */
  ghost predicate Closed(cfg: Config, reach: State -> bool) {
    reach(Init) && forall s, e | reach(s) && Timely(s, e) :: reach(Apply(cfg, s, e))
  }

  lemma ThenBoth(cfg: Config, reach: State -> bool, s: State, e: Event, f: Event) returns (t: State)
    requires Closed(cfg, reach) && reach(s) && Timely(s, e) && Timely(Apply(cfg, s, e), f)
    ensures reach(t) && t == Apply(cfg, Apply(cfg, s, e), f)
  {
    t := Apply(cfg, Apply(cfg, s, e), f);
  }

  /** Worker 1 holds the rows from k on of a full batch claimed at time 0. */
  predicate HoldsFrom(cfg: Config, s: State, k: nat) {
    && k <= cfg.batchSize
    && KeysAgree(s)
    && s.workers.Keys == {1}
    && |s.workers[1].queue| == cfg.batchSize - k
    && (forall i | 0 <= i < |s.workers[1].queue| :: s.workers[1].queue[i].id == k + i)
    && (forall id | 0 <= id < cfg.batchSize :: id in s.rows && s.rows[id].eventType == "order.created")
    && (forall id | k <= id < cfg.batchSize :: s.rows[id].status.Processing? && s.rows[id].lockedAt == Some(0))
  }

  /** It has handled k rows, each call as slow as allowed. */
  predicate Slow(cfg: Config, s: State, k: nat) {
    && HoldsFrom(cfg, s, k)
    && (s.workers[1].pc.Claimed? || s.workers[1].pc.Returning?)
    && s.now == s.workers[1].due == Budget(cfg, k)
  }

  /** Its send of row k returns at the last moment. */
  predicate AboutToSend(cfg: Config, s: State, k: nat) {
    && k < cfg.batchSize
    && HoldsFrom(cfg, s, k)
    && s.workers[1].pc == Sending
    && s.now == s.workers[1].due == Budget(cfg, k) + cfg.batchTimeout
  }

  /** It has sent row k and is about to mark it, at the last moment. */
  predicate AboutToMark(cfg: Config, s: State, k: nat) {
    && k < cfg.batchSize
    && HoldsFrom(cfg, s, k)
    && s.workers[1].pc.Marking? && s.workers[1].pc.published
    && s.now == s.workers[1].due == Budget(cfg, k + 1)
  }

  lemma NextTakesItsTime(cfg: Config, s: State, k: nat)
    requires Slow(cfg, s, k) && k < cfg.batchSize && cfg.createdTopic != ""
    ensures
      var s1 := Apply(cfg, s, NextEvent(1, false));
      && Timely(s, NextEvent(1, false)) && Timely(s1, Tick(cfg.batchTimeout))
      && AboutToSend(cfg, Apply(cfg, s1, Tick(cfg.batchTimeout)), k)
  {
    assert Apply(cfg, s, NextEvent(1, false)) == NextStep(cfg, s, 1, false);
  }

  lemma SendTakesItsTime(cfg: Config, s: State, k: nat)
    requires AboutToSend(cfg, s, k)
    ensures
      var s1 := Apply(cfg, s, SendRun(1, true));
      && Timely(s, SendRun(1, true)) && Timely(s1, Tick(cfg.batchTimeout))
      && AboutToMark(cfg, Apply(cfg, s1, Tick(cfg.batchTimeout)), k)
  {
    BudgetStep(cfg, k);
    assert Apply(cfg, s, SendRun(1, true)) == SendStep(cfg, s, 1, true);
  }

  lemma SlowSend(cfg: Config, reach: State -> bool, s: State, k: nat) returns (t: State)
    requires Closed(cfg, reach) && reach(s) && Slow(cfg, s, k) && k < cfg.batchSize && cfg.createdTopic != ""
    ensures reach(t) && AboutToMark(cfg, t, k)
  {
    NextTakesItsTime(cfg, s, k);
    t := ThenBoth(cfg, reach, s, NextEvent(1, false), Tick(cfg.batchTimeout));
    SendTakesItsTime(cfg, t, k);
    t := ThenBoth(cfg, reach, t, SendRun(1, true), Tick(cfg.batchTimeout));
  }

  lemma SlowMark(cfg: Config, reach: State -> bool, s: State, k: nat) returns (t: State)
    requires Closed(cfg, reach) && reach(s) && AboutToMark(cfg, s, k)
    ensures reach(t) && Slow(cfg, t, k + 1)
  {
    assert Timely(s, MarkRun(1, Ran));
    t := Apply(cfg, s, MarkRun(1, Ran));
    assert t == MarkStep(cfg, s, 1, Ran);
    MarkedRowsFrame(cfg, s, s.workers[1].queue[0], true, s.workers[1].pc.since);
  }

  lemma {:induction false} SlowBatch(cfg: Config, reach: State -> bool, k: nat) returns (t: State)
    requires Closed(cfg, reach) && k < cfg.batchSize && cfg.createdTopic != ""
    ensures reach(t) && AboutToMark(cfg, t, k)
  {
    if k == 0 {
      t := SlowStart(cfg, reach);
    } else {
      t := SlowBatch(cfg, reach, k - 1);
      t := SlowMark(cfg, reach, t, k - 1);
    }
    t := SlowSend(cfg, reach, t, k);
  }

  /** n pending rows at time 0, and no worker yet. */
  ghost predicate OnlyRows(s: State, n: nat) {
    && s.now == 0 && KeysAgree(s)
    && (forall id :: id in s.rows <==> 0 <= id < n)
    && (forall id | id in s.rows :: s.rows[id] == Row("order.created", id, [], Pending, 0, 0, None))
  }

  lemma {:induction false} InsertRows(cfg: Config, reach: State -> bool, n: nat) returns (t: State)
    requires Closed(cfg, reach)
    ensures reach(t) && OnlyRows(t, n) && t.workers == map[]
  {
    if n == 0 {
      t := Init;
    } else {
      t := InsertRows(cfg, reach, n - 1);
      var e := Insert(n - 1, "order.created", n - 1, []);
      assert Timely(t, e);
      t := Apply(cfg, t, e);
    }
  }

  lemma ClaimAll(cfg: Config, s: State, ids: seq<RowId>)
    requires OnlyRows(s, cfg.batchSize) && s.workers == map[1 := Worker(Claiming, [], 0, 0, cfg.batchTimeout)]
    requires |ids| == cfg.batchSize && forall i | 0 <= i < |ids| :: ids[i] == i
    ensures
      var s1 := Apply(cfg, s, ClaimRun(1, ids, Ran));
      && Timely(s, ClaimRun(1, ids, Ran)) && Timely(s1, Tick(cfg.batchTimeout))
      && Slow(cfg, Apply(cfg, s1, Tick(cfg.batchTimeout)), 0)
  {
    assert Claimable(s.rows, ids, cfg.batchSize, 0);
    var s1 := Apply(cfg, s, ClaimRun(1, ids, Ran));
    assert s1 == ClaimStep(cfg, s, 1, ids, Ran);
    forall id | id in s.rows ensures id in ids {
      assert ids[id] == id;
    }
  }

  lemma SlowStart(cfg: Config, reach: State -> bool) returns (t: State)
    requires Closed(cfg, reach)
    ensures reach(t) && Slow(cfg, t, 0)
  {
    var ids: seq<RowId> := seq(cfg.batchSize, i => i);
    t := InsertRows(cfg, reach, cfg.batchSize);
    assert Timely(t, StartBatch(1));
    t := Apply(cfg, t, StartBatch(1));
    ClaimAll(cfg, t, ids);
    t := ThenBoth(cfg, reach, t, ClaimRun(1, ids, Ran), Tick(cfg.batchTimeout));
  }

  /** Row last waits again while worker 1 is about to mark it. */
  predicate Released(cfg: Config, s: State, last: RowId) {
    && KeysAgree(s) && last in s.rows
    && s.rows[last].status.Pending? && s.rows[last].availableAt <= s.now
    && 1 in s.workers && s.workers[1].queue != [] && s.workers[1].queue[0].id == last
    && 2 in s.workers && s.workers[2].pc.Idle?
  }

  /** Worker 2 releases the stuck row. */
  lemma ReleasedUnderway(cfg: Config, s: State, last: RowId)
    requires last + 1 == cfg.batchSize && AboutToMark(cfg, s, last) && cfg.processingTimeout < s.now
    ensures Released(cfg, Apply(cfg, Apply(cfg, s, StartRelease(2)), ReleaseRun(2, Ran)), last)
  {
    var s1 := Apply(cfg, s, StartRelease(2));
    assert Stuck(s1.rows[last], s1.workers[2].pc.stuckBefore);
    assert Apply(cfg, s1, ReleaseRun(2, Ran)) == ReleaseStep(s1, 2, Ran);
  }

  /** And claims it again. */
  lemma ClaimedAgain(cfg: Config, s: State, last: RowId)
    requires 0 < cfg.batchSize && Released(cfg, s, last)
    ensures Shared(Apply(cfg, Apply(cfg, s, StartBatch(2)), ClaimRun(2, [last], Ran)), last)
  {
    var s1 := Apply(cfg, s, StartBatch(2));
    assert Claimable(s1.rows, [last], cfg.batchSize, s1.now);
    var s2 := Apply(cfg, s1, ClaimRun(2, [last], Ran));
    assert s2 == ClaimStep(cfg, s1, 2, [last], Ran);
    assert s2.workers[1].queue[0].id == last && s2.workers[2].queue[0].id == last;
  }

  /**
   If the bound fails, a run in which every call returns by its deadline puts the last row of a
   full batch in two hands.
   */
  lemma SharedBeyondBound(cfg: Config) returns (es: seq<Event>)
    requires 0 < cfg.batchSize && cfg.createdTopic != "" && !BoundHolds(cfg)
    ensures TimelyRun(cfg, es) && Shared(Run(cfg, es), cfg.batchSize - 1)
  {
    var reach := (s: State) => Reachable(cfg, s);
    assert TimelyRun(cfg, []) && Run(cfg, []) == Init;
    forall s, e | reach(s) && Timely(s, e) ensures reach(Apply(cfg, s, e)) {
      ReachableStep(cfg, s, e);
    }
    var s := LastRowShared(cfg, reach);
    es :| TimelyRun(cfg, es) && Run(cfg, es) == s;
  }

  lemma LastRowShared(cfg: Config, reach: State -> bool) returns (s: State)
    requires Closed(cfg, reach) && 0 < cfg.batchSize && cfg.createdTopic != "" && !BoundHolds(cfg)
    ensures reach(s) && Shared(s, cfg.batchSize - 1)
  {
    var last := cfg.batchSize - 1;
    s := SlowBatch(cfg, reach, last);
    assert Budget(cfg, cfg.batchSize) == (2 * cfg.batchSize + 1) * cfg.batchTimeout;
    ReleasedUnderway(cfg, s, last);
    s := ThenBoth(cfg, reach, s, StartRelease(2), ReleaseRun(2, Ran));
    ClaimedAgain(cfg, s, last);
    s := ThenBoth(cfg, reach, s, StartBatch(2), ClaimRun(2, [last], Ran));
  }

  /** A run in which every call returns by its deadline and some row is in two hands at its end. */
  ghost predicate TimelyButShared(cfg: Config, es: seq<Event>) {
    TimelyRun(cfg, es) && exists id :: Shared(Run(cfg, es), id)
  }

  /** The bound is exactly what it takes: it holds if and only if no timely run ever shares a row. */
  lemma BoundIsExact(cfg: Config)
    requires 0 < cfg.batchSize && cfg.createdTopic != ""
    ensures BoundHolds(cfg) <==> forall es :: !TimelyButShared(cfg, es)
  {
    if BoundHolds(cfg) {
      forall es ensures !TimelyButShared(cfg, es) {
        if TimelyRun(cfg, es) {
          forall id ensures !Shared(Run(cfg, es), id) {
            NeverShared(cfg, es, id);
          }
        }
      }
    } else {
      var es := SharedBeyondBound(cfg);
      assert TimelyButShared(cfg, es);
    }
  }
}
