/**
 The outbox worker as the source writes it: claim a batch, send and mark its events one after
 the other, release stuck rows, with every other worker and every producer running in between.
 */
module OutboxWorker {
  import opened Wrappers
  import opened OutboxProtocol
  import opened Safety = OutboxSafety

  /** What a claim leaves the worker with. */
  lemma ClaimTakes(cfg: Config, s: State, w: WorkerId, ids: seq<RowId>, o: Outcome)
    requires Inv(cfg, s) && w in s.workers && s.workers[w].pc.Claiming?
    requires Claimable(s.rows, ids, cfg.batchSize, s.now)
    ensures
      var worker := WorkerAt(Apply(cfg, s, ClaimRun(w, ids, o)), w);
      if o.Ran? then worker.pc == Claimed && |worker.queue| <= cfg.batchSize else worker.pc.Idle?
    ensures o.Ran? ==> w in Apply(cfg, s, ClaimRun(w, ids, o)).workers
  {
    assert Apply(cfg, s, ClaimRun(w, ids, o)) == ClaimStep(cfg, s, w, ids, o);
  }

  class Worker {
    const cfg: Config
    const w: WorkerId
    var state: State
    ghost var trace: seq<Event>

    ghost predicate Valid()
      reads this
    {
      state == Run(cfg, trace)
    }

    predicate At(pc: Pc, queue: seq<Ticket>)
      reads this
    {
      w in state.workers && state.workers[w].pc == pc && state.workers[w].queue == queue
    }

    constructor (cfg: Config, w: WorkerId)
      ensures Valid() && trace == [] && state == Init && this.cfg == cfg && this.w == w
    {
      this.cfg := cfg;
      this.w := w;
      state := Init;
      trace := [];
    }

    method Step(e: Event)
      requires Valid()
      modifies this
      ensures Valid() && state == Apply(cfg, old(state), e) && trace == old(trace) + [e]
    {
      state := Apply(cfg, state, e);
      RunAppend(cfg, trace, e);
      trace := trace + [e];
    }

    /** Anything the other workers, the producers and the clock may do. */
    method Interference()
      requires Valid()
      modifies this
      ensures Valid() && old(trace) <= trace
      ensures w in state.workers <==> w in old(state.workers)
      ensures w in state.workers ==> state.workers[w] == old(state.workers)[w]
    {
    }

    /** The rows a claim returns: due, pending, each once, up to the limit. */
    method SelectCandidates() returns (ids: seq<RowId>)
      ensures Claimable(state.rows, ids, cfg.batchSize, state.now)
    {
      ids := [];
      var rows, rest := state.rows, state.rows.Keys;
      while rest != {} && |ids| < cfg.batchSize
        invariant rest <= rows.Keys
        invariant forall id | id in ids :: id !in rest
        invariant Claimable(rows, ids, cfg.batchSize, state.now)
        decreases |rest|
      {
        var id :| id in rest;
        var skipLocked: bool := *;
        if rows[id].status.Pending? && rows[id].availableAt <= state.now && !skipLocked {
          ids := ids + [id];
        }
        rest := rest - {id};
      }
    }

    /** MarkPublished succeeds only if the row was still processing, and then it is published for good. */
    method MarkPublished(ticket: Ticket, rest: seq<Ticket>) returns (ok: bool)
      requires Valid() && At(Marking(true, state.now), [ticket] + rest)
      modifies this
      ensures Valid() && old(trace) <= trace && At(Returning, rest)
      ensures ok ==>
                && ticket.id in state.rows
                && state.rows[ticket.id].status.Published?
                && UnderItsTopic(cfg, state.rows[ticket.id], state.acked)
    {
      Interference();
      var outcome: Outcome := *;
      ok := outcome.Ran? && ticket.id in state.rows && state.rows[ticket.id].status.Processing?;
      Always(cfg, trace);
      assert Holds(state, w, 0) && TicketInv(cfg, state, w, 0);
      assert ([ticket] + rest)[1..] == rest;
      Step(MarkRun(w, outcome));
      if ok {
        PublishedWasAcknowledged(cfg, trace, ticket.id);
      }
    }

    /** handleSendError: one more retry after a pause, which counts from here, or failure once they are used up. */
    method HandleSendError(ticket: Ticket, rest: seq<Ticket>) returns (ok: bool)
      requires Valid() && At(Marking(false, state.now), [ticket] + rest)
      modifies this
      ensures Valid() && old(trace) <= trace && At(Returning, rest)
      ensures ok ==>
                && ticket.id in state.rows
                && state.rows[ticket.id].lockedAt == None
                && if ticket.retryCount >= cfg.maxRetries then state.rows[ticket.id].status.Failed?
                   else state.rows[ticket.id].status.Pending?
                        && state.rows[ticket.id].availableAt == old(state.now) + (ticket.retryCount + 1) * cfg.pollInterval
    {
      Interference();
      var outcome: Outcome := *;
      ok := outcome.Ran? && ticket.id in state.rows && state.rows[ticket.id].status.Processing?;
      assert ([ticket] + rest)[1..] == rest;
      Step(MarkRun(w, outcome));
    }

    method SendMessage(ticket: Ticket, rest: seq<Ticket>) returns (acknowledged: bool)
      requires Valid() && At(Sending, [ticket] + rest)
      modifies this
      ensures Valid() && old(trace) <= trace && At(Marking(acknowledged, state.now), [ticket] + rest)
    {
      Interference();
      Always(cfg, trace);
      assert Holds(state, w, 0) && TicketInv(cfg, state, w, 0);
      acknowledged := *;
      Step(SendRun(w, acknowledged));
    }

    /** processEvent; published means acknowledged by the broker and marked. */
    method ProcessEvent(ticket: Ticket, rest: seq<Ticket>) returns (published: bool)
      requires Valid() && ticket.id in state.rows
      requires At(if MessageTopic(cfg, state.rows[ticket.id].eventType) == "" then Marking(false, state.now) else Sending,
                  [ticket] + rest)
      modifies this
      ensures Valid() && old(trace) <= trace && At(Returning, rest)
      ensures published ==>
                && ticket.id in state.rows
                && state.rows[ticket.id].status.Published?
                && UnderItsTopic(cfg, state.rows[ticket.id], state.acked)
    {
      var topic := MessageTopic(cfg, state.rows[ticket.id].eventType);
      if topic == "" {
        var _ := HandleSendError(ticket, rest);
        return false;
      }
      var acknowledged := SendMessage(ticket, rest);
      if !acknowledged {
        var _ := HandleSendError(ticket, rest);
        return false;
      }
      published := MarkPublished(ticket, rest);
    }

    /** ClaimPendingEvents within its own deadline. */
    method Claim() returns (ok: bool, events: seq<Ticket>)
      requires Valid() && WorkerAt(state, w).pc.Idle?
      modifies this
      ensures Valid() && old(trace) <= trace
      ensures if ok then At(Claimed, events) && |events| <= cfg.batchSize else WorkerAt(state, w).pc.Idle?
    {
      Step(StartBatch(w));
      Interference();
      var ids := SelectCandidates();
      var claimed: Outcome := *;
      Always(cfg, trace);
      ClaimTakes(cfg, state, w, ids, claimed);
      Step(ClaimRun(w, ids, claimed));
      return claimed.Ran?, WorkerAt(state, w).queue;
    }

    /** One round of the batch loop; it stops when the context is cancelled. */
    method Round(ticket: Ticket, rest: seq<Ticket>) returns (stopped: bool, published: bool)
      requires Valid() && (At(Claimed, [ticket] + rest) || At(Returning, [ticket] + rest))
      modifies this
      ensures Valid() && old(trace) <= trace
      ensures if stopped then WorkerAt(state, w).pc.Idle? && !published else At(Returning, rest)
      ensures published ==> ticket.id in state.rows && state.rows[ticket.id].status.Published?
    {
      Interference();
      stopped := *;
      published := false;
      Always(cfg, trace);
      assert Holds(state, w, 0) && TicketInv(cfg, state, w, 0);
      Step(NextEvent(w, stopped));
      if !stopped {
        published := ProcessEvent(ticket, rest);
      }
    }

    /** Every listed row is published, and stays so. */
    ghost predicate AllPublished(ids: seq<RowId>)
      reads this
    {
      forall id | id in ids :: id in state.rows && state.rows[id].status.Published?
    }

    lemma PublishedStays(ids: seq<RowId>, before: State, earlier: seq<Event>)
      requires Valid() && earlier <= trace && before == Run(cfg, earlier)
      requires forall id | id in ids :: id in before.rows && before.rows[id].status.Published?
      ensures AllPublished(ids)
    {
      assert trace == earlier + trace[|earlier|..];
      FinalRowsStay(cfg, earlier, trace[|earlier|..]);
    }

    /**
     processBatch: every claimed event is handled unless the context is cancelled, which leaves the rest
     to a later release; what it published stays published through the rest of the batch.
     */
    method ProcessBatch() returns (claimed: seq<Ticket>, handled: nat, cancelled: bool, published: seq<RowId>)
      requires Valid() && WorkerAt(state, w).pc.Idle?
      modifies this
      ensures Valid() && old(trace) <= trace && WorkerAt(state, w).pc.Idle?
      ensures |claimed| <= cfg.batchSize && handled <= |claimed| && (!cancelled ==> handled == |claimed|)
      ensures |published| <= handled && AllPublished(published)
    {
      handled, cancelled, published := 0, false, [];
      var ok;
      ok, claimed := Claim();
      if !ok {
        claimed := [];
        return;
      }
      assert claimed[0..] == claimed;
      while handled < |claimed|
        invariant Valid() && old(trace) <= trace && handled <= |claimed|
        invariant At(Claimed, claimed[handled..]) || At(Returning, claimed[handled..])
        invariant |published| <= handled && AllPublished(published)
      {
        assert claimed[handled..] == [claimed[handled]] + claimed[handled + 1..];
        ghost var before, earlier := state, trace;
        var done: bool;
        cancelled, done := Round(claimed[handled], claimed[handled + 1..]);
        PublishedStays(published, before, earlier);
        if cancelled {
          return;
        }
        if done {
          published := published + [claimed[handled].id];
        }
        handled := handled + 1;
      }
      ghost var before, earlier := state, trace;
      Step(NextEvent(w, false));
      PublishedStays(published, before, earlier);
    }

    /** releaseStuck, between two batches: no row stays processing that was claimed before the cutoff. */
    method ReleaseStuck() returns (ok: bool)
      requires Valid() && WorkerAt(state, w).pc.Idle?
      modifies this
      ensures Valid() && old(trace) <= trace && WorkerAt(state, w).pc.Idle?
      ensures ok ==> forall id | id in state.rows :: !Stuck(state.rows[id], old(state.now) - cfg.processingTimeout)
    {
      Step(StartRelease(w));
      Interference();
      var outcome: Outcome := *;
      ok := outcome.Ran?;
      Step(ReleaseRun(w, outcome));
    }
  }
}
