/**
 While no row is in two hands the retry counter never passes its limit, and a failed row has
 used all of it; with two workers that share a row it can pass it.
 */
module OutboxRetries {
  import opened Wrappers
  import opened OutboxProtocol
  import opened OutboxSafety
  import opened OutboxTiming

  /** No row was ever in two hands. */
  ghost predicate NeverShares(cfg: Config, es: seq<Event>) {
    (forall id :: !Shared(Run(cfg, es), id)) && (es != [] ==> NeverShares(cfg, es[..|es| - 1]))
  }

  predicate RetriesWithin(cfg: Config, row: Row) {
    if row.status.Failed? then row.retryCount == cfg.maxRetries + 1 else row.retryCount <= cfg.maxRetries
  }

  /** Every ticket was read with the present counter of its row. */
  ghost predicate RetryInv(cfg: Config, s: State) {
    && (forall id | id in s.rows :: RetriesWithin(cfg, s.rows[id]))
    && (forall w, i: nat | Holds(s, w, i) :: TicketFresh(s, TicketOf(s, w, i)))
  }

  predicate TicketFresh(s: State, ticket: Ticket) {
    ticket.id in s.rows && s.rows[ticket.id].retryCount == ticket.retryCount
  }

  lemma RetryKept(cfg: Config, s: State, e: Event)
    requires Inv(cfg, s) && RetryInv(cfg, s) && forall id :: !Shared(s, id)
    ensures RetryInv(cfg, Apply(cfg, s, e))
  {
    if e.ClaimRun? {
      if WorkerAt(s, e.w).pc.Claiming? {
        ClaimKeepsRetries(cfg, s, e.w, e.ids, e.outcome);
      }
    } else if e.MarkRun? {
      if WorkerAt(s, e.w).pc.Marking? && WorkerAt(s, e.w).queue != [] {
        MarkKeepsRetries(cfg, s, e.w, e.outcome);
      }
    } else {
      OtherKeepsRetries(cfg, s, e);
    }
  }

  lemma OtherKeepsRetries(cfg: Config, s: State, e: Event)
    requires RetryInv(cfg, s) && !e.ClaimRun? && !e.MarkRun?
    ensures RetryInv(cfg, Apply(cfg, s, e))
  {
    var s' := Apply(cfg, s, e);
    assert forall id | id in s.rows :: id in s'.rows && s'.rows[id].retryCount == s.rows[id].retryCount;
    forall w, i: nat | Holds(s', w, i) ensures TicketFresh(s', TicketOf(s', w, i)) {
      assert Holds(s, w, i) && TicketOf(s', w, i) == TicketOf(s, w, i);
    }
  }

  lemma ClaimKeepsRetries(cfg: Config, s: State, w: WorkerId, ids: seq<RowId>, o: Outcome)
    requires RetryInv(cfg, s) && w in s.workers && s.workers[w].pc.Claiming?
    ensures RetryInv(cfg, ClaimStep(cfg, s, w, ids, o))
  {
    var s' := ClaimStep(cfg, s, w, ids, o);
    assert forall i | 0 <= i < |ids| :: ids[i] in ids;
    forall v, i: nat | Holds(s', v, i) ensures TicketFresh(s', TicketOf(s', v, i)) {
      if v != w {
        assert Holds(s, v, i) && TicketOf(s', v, i) == TicketOf(s, v, i);
      }
    }
  }

  lemma MarkKeepsRetries(cfg: Config, s: State, w: WorkerId, o: Outcome)
    requires RetryInv(cfg, s) && w in s.workers && s.workers[w].pc.Marking? && s.workers[w].queue != []
    requires !Shared(s, s.workers[w].queue[0].id)
    ensures RetryInv(cfg, MarkStep(cfg, s, w, o))
  {
    var s', queue := MarkStep(cfg, s, w, o), s.workers[w].queue;
    MarkedRowsFrame(cfg, s, queue[0], s.workers[w].pc.published, s.workers[w].pc.since);
    assert Holds(s, w, 0) && TicketFresh(s, TicketOf(s, w, 0));
    forall v, i: nat | Holds(s', v, i) ensures TicketFresh(s', TicketOf(s', v, i)) {
      var j := if v == w then i + 1 else i;
      assert Holds(s, v, j) && TicketOf(s', v, i) == TicketOf(s, v, j) == s.workers[v].queue[j];
    }
  }

  lemma {:induction false} RetryAlways(cfg: Config, es: seq<Event>)
    requires NeverShares(cfg, es)
    ensures RetryInv(cfg, Run(cfg, es))
  {
    if es != [] {
      var n := |es| - 1;
      RetryAlways(cfg, es[..n]);
      Always(cfg, es[..n]);
      RetryKept(cfg, Run(cfg, es[..n]), es[n]);
    }
  }

  /** A row has failed exactly when it has used max_retries + 1, and has used at most max_retries before. */
  predicate RetryLaw(cfg: Config, row: Row) {
    (row.status.Failed? <==> row.retryCount == cfg.maxRetries + 1) && row.retryCount <= cfg.maxRetries + 1
  }

  /** The retry law, with any number of workers, while no row is in two hands. */
  lemma UnsharedRetries(cfg: Config, es: seq<Event>, id: RowId)
    requires NeverShares(cfg, es) && id in Run(cfg, es).rows
    ensures RetryLaw(cfg, Run(cfg, es).rows[id])
  {
    RetryAlways(cfg, es);
    assert RetriesWithin(cfg, Run(cfg, es).rows[id]);
  }

  /** So within the timing bound, when every call returns by its deadline. */
  lemma TimelyRetries(cfg: Config, es: seq<Event>, id: RowId)
    requires TimelyRun(cfg, es) && BoundHolds(cfg) && id in Run(cfg, es).rows
    ensures RetryLaw(cfg, Run(cfg, es).rows[id])
  {
    TimelyNeverShares(cfg, es);
    UnsharedRetries(cfg, es, id);
  }

  lemma {:induction false} TimelyNeverShares(cfg: Config, es: seq<Event>)
    requires TimelyRun(cfg, es) && BoundHolds(cfg)
    ensures NeverShares(cfg, es)
  {
    if es != [] {
      TimelyNeverShares(cfg, es[..|es| - 1]);
    }
    forall id ensures !Shared(Run(cfg, es), id) {
      NeverShared(cfg, es, id);
    }
  }

  // ----- One worker -----

  /** Only worker w acts (it may crash and start again). */
  predicate By(e: Event, w: WorkerId) {
    e.Insert? || e.Tick? || e.w == w
  }

  predicate OneWorker(es: seq<Event>, w: WorkerId) {
    forall i | 0 <= i < |es| :: By(es[i], w)
  }

  predicate QueueDistinct(s: State, w: WorkerId) {
    && s.workers.Keys <= {w}
    && var queue := WorkerAt(s, w).queue;
       forall i, j | 0 <= i < j < |queue| :: queue[i].id != queue[j].id
  }

  lemma {:induction false} OneWorkerNeverShares(cfg: Config, es: seq<Event>, w: WorkerId)
    requires OneWorker(es, w)
    ensures QueueDistinct(Run(cfg, es), w) && NeverShares(cfg, es)
  {
    if es != [] {
      var n := |es| - 1;
      OneWorkerNeverShares(cfg, es[..n], w);
      assert By(es[n], w);
      DistinctKept(cfg, Run(cfg, es[..n]), es[n], w);
    }
  }

  lemma DistinctKept(cfg: Config, s: State, e: Event, w: WorkerId)
    requires QueueDistinct(s, w) && By(e, w)
    ensures QueueDistinct(Apply(cfg, s, e), w)
  {
    if e.MarkRun? && WorkerAt(s, w).pc.Marking? && WorkerAt(s, w).queue != [] {
      assert MarkStep(cfg, s, w, e.outcome).workers[w].queue == s.workers[w].queue[1..];
    }
  }

  /** And always with one worker, in time or not. */
  lemma OneWorkerRetries(cfg: Config, es: seq<Event>, w: WorkerId, id: RowId)
    requires OneWorker(es, w) && id in Run(cfg, es).rows
    ensures RetryLaw(cfg, Run(cfg, es).rows[id])
  {
    OneWorkerNeverShares(cfg, es, w);
    UnsharedRetries(cfg, es, id);
  }

  // ----- Two workers that share a row -----

  const TIGHT := Config(1, 1, 0, 0, 1, "", "")

  /** Row 1 with its counter and status; worker 1 holds a ticket of it that was read with counter 0. */
  predicate Stale(s: State, retryCount: nat, status: RowStatus) {
    && s.rows.Keys == s.history.Keys == {1} && s.now == 1
    && s.rows[1].eventType == "" && s.rows[1].retryCount == retryCount && s.rows[1].status == status
    && s.rows[1].availableAt <= 1
    && 1 in s.workers && s.workers[1].pc.Claimed? && s.workers[1].due == 1
    && |s.workers[1].queue| == 1 && s.workers[1].queue[0].id == 1 && s.workers[1].queue[0].retryCount == 0
  }

  /** Worker 1 claims the row at time 0. */
  lemma FirstClaim(reach: State -> bool) returns (s: State)
    requires Closed(TIGHT, reach)
    ensures reach(s) && s.workers.Keys == {1} && s.now == 0
    ensures Stale(s.(now := 1), 0, Processing) && s.rows[1].lockedAt == Some(0)
  {
    s := ThenBoth(TIGHT, reach, Init, Insert(1, "", 0, []), StartBatch(1));
    assert Claimable(s.rows, [1], 1, 0);
    var e := ClaimRun(1, [1], Ran);
    assert Timely(s, e) && Apply(TIGHT, s, e) == ClaimStep(TIGHT, s, 1, [1], Ran);
    s := Apply(TIGHT, s, e);
  }

  /** At time 1 worker 2 releases it. */
  lemma LateRelease(reach: State -> bool) returns (s: State)
    requires Closed(TIGHT, reach)
    ensures reach(s) && s.workers.Keys == {1, 2} && s.workers[2] == IDLE && Stale(s, 0, Pending)
  {
    s := FirstClaim(reach);
    s := ThenBoth(TIGHT, reach, s, Tick(1), StartRelease(2));
    assert Stuck(s.rows[1], 1) && Timely(s, ReleaseRun(2, Ran));
    var e := ReleaseRun(2, Ran);
    assert Apply(TIGHT, s, e) == ReleaseStep(s, 2, Ran);
    s := Apply(TIGHT, s, e);
  }

  /** Worker 2 claims the row. */
  lemma SecondClaim(reach: State -> bool, s: State, retryCount: nat) returns (t: State)
    requires Closed(TIGHT, reach) && reach(s)
    requires s.workers.Keys == {1, 2} && s.workers[2] == IDLE && Stale(s, retryCount, Pending)
    ensures reach(t) && t.workers.Keys == {1, 2} && Stale(t, retryCount, Processing)
    ensures t.workers[2].pc.Claimed? && |t.workers[2].queue| == 1
    ensures t.workers[2].queue[0].id == 1 && t.workers[2].queue[0].retryCount == retryCount
  {
    var s1 := Apply(TIGHT, s, StartBatch(2));
    assert Claimable(s1.rows, [1], 1, 1);
    t := ThenBoth(TIGHT, reach, s, StartBatch(2), ClaimRun(2, [1], Ran));
    assert t == ClaimStep(TIGHT, s1, 2, [1], Ran);
  }

  /** And fails with it: the row waits for its one retry. */
  lemma SecondFails(reach: State -> bool, s: State) returns (t: State)
    requires Closed(TIGHT, reach) && reach(s) && s.workers.Keys == {1, 2} && Stale(s, 0, Processing)
    requires s.workers[2].pc.Claimed? && |s.workers[2].queue| == 1
    requires s.workers[2].queue[0].id == 1 && s.workers[2].queue[0].retryCount == 0
    ensures reach(t) && t.workers.Keys == {1, 2} && t.workers[2] == IDLE && Stale(t, 1, Pending)
  {
    var s1 := Apply(TIGHT, s, NextEvent(2, false));
    assert s1.workers[2].pc == Marking(false, 1);
    t := ThenBoth(TIGHT, reach, s, NextEvent(2, false), MarkRun(2, Ran));
    assert t == MarkStep(TIGHT, s1, 2, Ran);
    var e := NextEvent(2, false);
    assert Timely(t, e);
    t := Apply(TIGHT, t, e);
  }

  /** Worker 1 then fails with its stale ticket, while the row is on its last retry. */
  lemma StaleTicketFails(reach: State -> bool) returns (s: State)
    requires Closed(TIGHT, reach)
    ensures reach(s) && 1 in s.rows && s.rows[1].status.Pending? && s.rows[1].retryCount == TIGHT.maxRetries + 1
  {
    s := LateRelease(reach);
    s := SecondClaim(reach, s, 0);
    s := SecondFails(reach, s);
    s := SecondClaim(reach, s, 1);
    var s1 := Apply(TIGHT, s, NextEvent(1, false));
    assert s1.workers[1].pc == Marking(false, 1);
    s := ThenBoth(TIGHT, reach, s, NextEvent(1, false), MarkRun(1, Ran));
    assert s == MarkStep(TIGHT, s1, 1, Ran);
  }

  /** Beyond the timing bound two workers break the law: a row waits for one retry more than allowed. */
  lemma SharedBreaksRetries() returns (es: seq<Event>)
    ensures TimelyRun(TIGHT, es) && 1 in Run(TIGHT, es).rows && !RetryLaw(TIGHT, Run(TIGHT, es).rows[1])
  {
    var reach := (s: State) => Reachable(TIGHT, s);
    assert TimelyRun(TIGHT, []) && Run(TIGHT, []) == Init;
    forall s, e | reach(s) && Timely(s, e) ensures reach(Apply(TIGHT, s, e)) {
      ReachableStep(TIGHT, s, e);
    }
    var s := StaleTicketFails(reach);
    es :| TimelyRun(TIGHT, es) && Run(TIGHT, es) == s;
  }
}
