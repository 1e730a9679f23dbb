/**
 saveOrder and ProcessMarketStateChanged as the source writes them: the statements of one
 transaction in order, with every other transaction running in between.
 */
module CompensationService {
  import opened Wrappers
  import opened CompensationProtocol
  import opened Safety = CompensationSafety

  /** An order of the market is cancelled, or was inactive by the time the UPDATE had its locks. */
  lemma SeenOrInactive(orders: map<OrderId, OrderRow>, started: State, now: State, market: MarketId, ids: seq<OrderId>)
    requires forall id | id in orders :: id in started.db.orders && started.db.orders[id].market == orders[id].market
    requires Keeps(started, now) && ListsActive(now.db.orders, market, ActiveIn(started.db.orders, market), ids)
    ensures forall id | id in orders && orders[id].market == market :: id in ids || Inactive(now, id)
  {
    forall id | id in orders && orders[id].market == market && id !in ids ensures Inactive(now, id) {
      assert id in started.db.orders && id in now.db.orders;
      assert Inactive(started, id) ==> Inactive(now, id);
    }
  }

  class CompensationService {
    var state: State
    ghost var trace: seq<Event>

    ghost predicate Valid()
      reads this
    {
      state == Run(Init, trace)
    }

    predicate At(t: TxId, event: MarketEvent, group: Group, pc: CompensatePc)
      reads this
    {
      t in state.txs && state.txs[t] == Compensate(event, group, pc)
    }

    constructor ()
      ensures Valid() && trace == [] && state == Init
    {
      state := Init;
      trace := [];
    }

    method Step(e: Event)
      requires Valid()
      modifies this
      ensures Valid() && state == Apply(old(state), e) && trace == old(trace) + [e]
    {
      state := Apply(state, e);
      RunAppend(Init, trace, e);
      trace := trace + [e];
    }

    /** Anything the other transactions may do; transaction t does not move. */
    method Interference(t: TxId)
      requires Valid()
      modifies this
      ensures Valid() && old(trace) <= trace
      ensures t in state.txs <==> t in old(state.txs)
      ensures t in state.txs ==> state.txs[t] == old(state.txs)[t]
    {
    }

    /** saveOrder: the order row and its event in one transaction. */
    method SaveOrder(t: TxId, id: OrderId, market: MarketId) returns (ok: bool)
      requires Valid() && t !in state.txs
      modifies this
      ensures Valid() && old(trace) <= trace
      ensures t in state.txs && state.txs[t] == Save(id, market, SaveDone(ok))
      ensures ok ==> id in state.db.orders && state.db.orders[id] == OrderRow(market, Created)
      ensures ok ==> Count(state.db.outbox, OutboxRow(OrderCreated, id)) == 1
    {
      Step(StartSave(t, id, market));
      Interference(t);
      var inserted: bool := *;
      inserted := inserted && NewOrderFree(state, t, id);
      var taken := id in state.db.orders;
      Step(InsertOrder(t, inserted));
      if !inserted || taken {
        return false;
      }
      Interference(t);
      var produced: bool := *;
      Step(InsertEvent(t, produced));
      if !produced {
        return false;
      }
      Interference(t);
      var outcome: Outcome := *;
      Step(CommitSave(t, outcome));
      OrdersMatchOutbox(trace, id);
      return outcome.Ran?;
    }

    /** The rows returned by the cancelling UPDATE, in some order: those it saw that still match. */
    method ListActive(market: MarketId, seen: set<OrderId>) returns (ids: seq<OrderId>)
      ensures ListsActive(state.db.orders, market, seen, ids)
    {
      var orders := state.db.orders;
      ids := [];
      var rest := orders.Keys;
      while rest != {}
        invariant rest <= orders.Keys
        invariant NoDuplicates(ids)
        invariant forall id | id in ids :: id in orders && id !in rest
        invariant forall id | id in orders && id !in rest ::
                    id in ids <==> id in seen && orders[id].market == market && Active(orders[id])
        decreases |rest|
      {
        var id :| id in rest;
        if id in seen && orders[id].market == market && Active(orders[id]) {
          ids := ids + [id];
        }
        rest := rest - {id};
      }
    }

    /** failProcessing: the transaction is rolled back, then the failure is saved outside it. */
    method FailProcessing(t: TxId, event: MarketEvent, group: Group)
      requires Valid() && At(t, event, group, Failing)
      modifies this
      ensures Valid() && old(trace) <= trace && At(t, event, group, Finished(false))
    {
      Interference(t);
      var outcome: Outcome := *;
      if !InboxFree(state, t, InboxKey(event.id, group)) {
        outcome := NotRan;
      }
      Step(SaveFailed(t, outcome));
    }

    /** publishCancelledOrderEvents: one outbox row for each cancelled order. */
    method PublishCancelledOrderEvents(t: TxId, event: MarketEvent, group: Group, ids: seq<OrderId>) returns (ok: bool)
      requires Valid() && At(t, event, group, Emitting(ids, 0, []))
      modifies this
      ensures Valid() && old(trace) <= trace
      ensures ok ==> At(t, event, group, Emitting(ids, |ids|, StatusRows(ids)))
      ensures !ok ==> At(t, event, group, Failing)
    {
      assert StatusRows(ids[..0]) == [];
      for n := 0 to |ids|
        invariant Valid() && old(trace) <= trace
        invariant At(t, event, group, Emitting(ids, n, StatusRows(ids[..n])))
      {
        Interference(t);
        var saved: bool := *;
        Step(EmitEvent(t, saved));
        if !saved {
          return false;
        }
        assert ids[..n + 1][..n] == ids[..n];
      }
      assert ids[..|ids|] == ids;
      return true;
    }

    /** applyCompensationTransaction: cancels the active orders of a market that is closed. */
    method ApplyCompensation(t: TxId, event: MarketEvent, group: Group) returns (ok: bool, ids: seq<OrderId>)
      requires Valid() && At(t, event, group, Begun)
      modifies this
      ensures Valid() && old(trace) <= trace
      ensures ok ==> At(t, event, group, Emitting(ids, |ids|, StatusRows(ids)))
      ensures !ok ==> At(t, event, group, Failing)
      ensures ok && event.enabled && !event.deleted ==> ids == []
      ensures ok && (!event.enabled || event.deleted) ==>
                forall id | id in old(state.db.orders) && old(state.db.orders)[id].market == event.market ::
                  id in ids || Inactive(state, id)
    {
      ghost var trace0, orders0 := trace, state.db.orders;
      Interference(t);
      Step(StartCancel(t));
      if event.enabled && !event.deleted {
        return true, [];
      }
      ghost var started := state;
      var seen := ActiveIn(state.db.orders, event.market);
      ExtendedRunKeeps(trace0, trace);
      ghost var trace1 := trace;
      Interference(t);
      ExtendedRunKeeps(trace1, trace);
      ids := ListActive(event.market, seen);
      ok := *;
      ok := ok && OrdersFree(state, t, ids);
      ghost var before := state;
      Step(CancelOrders(t, ok, ids));
      if !ok {
        return;
      }
      SeenOrInactive(orders0, started, before, event.market, ids);
      ghost var trace2 := trace;
      assert state.db == before.db;
      ok := PublishCancelledOrderEvents(t, event, group, ids);
      ExtendedRunKeeps(trace2, trace);
    }

    /** The commit of a transaction that has marked its inbox row. */
    method CommitMarked(t: TxId, event: MarketEvent, group: Group, ids: seq<OrderId>, buffer: seq<OutboxRow>)
      returns (ok: bool)
      requires Valid() && At(t, event, group, Marked(ids, buffer))
      modifies this
      ensures Valid() && old(trace) <= trace && Keeps(old(state), state) && At(t, event, group, Finished(ok))
      ensures ok ==>
                && Processed(state, InboxKey(event.id, group))
                && Count(state.db.applied, InboxKey(event.id, group)) == 1
                && forall id | id in ids :: Inactive(state, id)
    {
      ghost var trace0 := trace;
      Interference(t);
      var outcome: Outcome := *;
      Always(trace);
      assert TxInv(state, t);
      Step(CommitCompensation(t, outcome));
      ExtendedRunKeeps(trace0, trace);
      CompensatedAtMostOnce(trace, InboxKey(event.id, group));
      return outcome.Ran?;
    }

    /** handleSkippedEvent: the row was already processed; its transaction is committed empty. */
    method CommitSkippedEvent(t: TxId, event: MarketEvent, group: Group, status: InboxStatus) returns (ok: bool)
      requires Valid() && At(t, event, group, Skipped(status)) && Processed(state, InboxKey(event.id, group))
      modifies this
      ensures Valid() && old(trace) <= trace && At(t, event, group, Finished(ok))
      ensures Processed(state, InboxKey(event.id, group)) && Count(state.db.applied, InboxKey(event.id, group)) == 1
    {
      ghost var trace0 := trace;
      Interference(t);
      var outcome: Outcome := *;
      Step(CommitSkipped(t, outcome));
      ExtendedRunKeeps(trace0, trace);
      CompensatedAtMostOnce(trace, InboxKey(event.id, group));
      return outcome.Ran?;
    }

    /** BeginProcessing; a row that is not started was processed before. */
    method TryBegin(t: TxId, event: MarketEvent, group: Group) returns (pc: CompensatePc)
      requires Valid() && At(t, event, group, Opened)
      modifies this
      ensures Valid() && old(trace) <= trace && At(t, event, group, pc) && Keeps(old(state), state)
      ensures pc.Failing? || pc.Begun? || (pc.Skipped? && Processed(state, InboxKey(event.id, group)))
    {
      ghost var trace0 := trace;
      Interference(t);
      var started: bool := *;
      started := started && InboxFree(state, t, InboxKey(event.id, group));
      Always(trace);
      Step(BeginProcessing(t, started));
      ExtendedRunKeeps(trace0, trace);
      return state.txs[t].pc;
    }

    /**
     No error means that the compensation for this inbox key is committed, exactly once. If this
     very call committed it for a closed market, no order of that market that was committed when
     the call began is active any more.
     */
    method ProcessMarketStateChanged(t: TxId, event: MarketEvent, group: Group) returns (ok: bool, skipped: bool)
      requires Valid() && t !in state.txs
      modifies this
      ensures Valid() && old(trace) <= trace && At(t, event, group, Finished(ok))
      ensures ok ==>
                && Processed(state, InboxKey(event.id, group))
                && Count(state.db.applied, InboxKey(event.id, group)) == 1
      ensures ok && !skipped && (!event.enabled || event.deleted) ==>
                forall id | id in old(state.db.orders) && old(state.db.orders)[id].market == event.market ::
                  Inactive(state, id)
    {
      var begun: bool := *;
      Step(Deliver(t, event, group, begun));
      if !begun {
        return false, false;
      }
      var pc := TryBegin(t, event, group);
      if pc.Failing? {
        FailProcessing(t, event, group);
        return false, false;
      }
      if pc.Skipped? {
        ok := CommitSkippedEvent(t, event, group, pc.status);
        return ok, true;
      }
      var applied, ids := ApplyCompensation(t, event, group);
      if !applied {
        FailProcessing(t, event, group);
        return false, false;
      }
      ghost var trace1, state1 := trace, state;
      Interference(t);
      ExtendedRunKeeps(trace1, trace);
      ghost var state2 := state;
      var marked: bool := *;
      Step(MarkProcessed(t, marked));
      if !marked {
        FailProcessing(t, event, group);
        return false, false;
      }
      assert Keeps(state1, state2) && state.db == state2.db;
      ok := CommitMarked(t, event, group, ids, StatusRows(ids));
      return ok, false;
    }
  }
}
