/**
 What one delivery or one save does when no other transaction is open, statement by statement and for every
 fault: the committed result, in full.
 */
module CompensationAlone {
  import opened Wrappers
  import opened CompensationProtocol
  import opened CompensationSafety

  /** No other transaction has begun on an inbox row or on orders. */
  predicate Alone(s: State, t: TxId) {
    t !in s.txs && forall u | u in s.txs ::
      !LocksInbox(s.txs[u]) && LockedOrders(s.txs[u]) == [] && !LocksNewOrder(s.txs[u])
  }

  /** The active orders of the market are cancelled. */
  function WithCancelled(orders: map<OrderId, OrderRow>, market: MarketId): map<OrderId, OrderRow> {
    map id | id in orders ::
      if orders[id].market == market && (orders[id].status.Created? || orders[id].status.Pending?)
      then OrderRow(market, Cancelled) else orders[id]
  }

  /** ids are the active orders of the market, each once. */
  ghost predicate AreActive(orders: map<OrderId, OrderRow>, market: MarketId, ids: seq<OrderId>) {
    && NoDuplicates(ids)
    && forall id :: id in ids <==>
         && id in orders && orders[id].market == market
         && (orders[id].status.Created? || orders[id].status.Pending?)
  }

  /** The transaction after the first statements of a delivery. */
  function Begin(s: State, t: TxId, event: MarketEvent, group: Group): State {
    Apply(Apply(s, Deliver(t, event, group, true)), BeginProcessing(t, true))
  }

  function With(s: State, t: TxId, event: MarketEvent, group: Group, pc: CompensatePc): State {
    s.(txs := s.txs[t := Compensate(event, group, pc)])
  }

  /** A row that is free or failed is taken, any other is skipped; nothing is written yet. */
  lemma Begins(s: State, t: TxId, event: MarketEvent, group: Group)
    requires Alone(s, t)
    ensures
      var k := InboxKey(event.id, group);
      Begin(s, t, event, group) ==
        With(s, t, event, group, if k in s.db.inbox && !s.db.inbox[k].InboxFailed? then Skipped(s.db.inbox[k]) else Begun)
  {
    var s1 := Apply(s, Deliver(t, event, group, true));
    assert s1 == With(s, t, event, group, Opened);
    assert InboxFree(s1, t, InboxKey(event.id, group));
  }

  /** A transaction that could not begin leaves nothing behind. */
  lemma NotBegun(s: State, t: TxId, event: MarketEvent, group: Group)
    requires t !in s.txs
    ensures Apply(s, Deliver(t, event, group, false)) == With(s, t, event, group, Finished(false))
  {
  }

  /** The cancelling part: nothing for an open market, else the active orders are taken. */
  function Cancel(s: State, t: TxId, event: MarketEvent, ids: seq<OrderId>): State {
    var started := Apply(s, StartCancel(t));
    if event.enabled && !event.deleted then started else Apply(started, CancelOrders(t, true, ids))
  }

  lemma Cancels(s: State, t: TxId, event: MarketEvent, group: Group, ids: seq<OrderId>)
    requires Alone(s, t)
    requires if event.enabled && !event.deleted then ids == [] else AreActive(s.db.orders, event.market, ids)
    ensures Cancel(With(s, t, event, group, Begun), t, event, ids) == With(s, t, event, group, Emitting(ids, 0, []))
  {
    var s1 := Apply(With(s, t, event, group, Begun), StartCancel(t));
    if !event.enabled || event.deleted {
      assert s1 == With(s, t, event, group, Cancelling(ActiveIn(s.db.orders, event.market)));
      assert ListsActive(s.db.orders, event.market, ActiveIn(s.db.orders, event.market), ids);
    }
  }

  /** One event is buffered for each of the first n cancelled orders. */
  function Emit(s: State, t: TxId, n: nat): State {
    if n == 0 then s else Apply(Emit(s, t, n - 1), EmitEvent(t, true))
  }

  lemma {:induction false} Emits(s: State, t: TxId, event: MarketEvent, group: Group, ids: seq<OrderId>, n: nat)
    requires n <= |ids|
    ensures Emit(With(s, t, event, group, Emitting(ids, 0, [])), t, n) ==
            With(s, t, event, group, Emitting(ids, n, StatusRows(ids[..n])))
  {
    if n > 0 {
      Emits(s, t, event, group, ids, n - 1);
      assert ids[..n][..n - 1] == ids[..n - 1];
    }
  }

  /** A delivery that meets no fault, up to its commit. */
  function ToCommit(s: State, t: TxId, event: MarketEvent, group: Group, ids: seq<OrderId>): State {
    Apply(Emit(Cancel(Begin(s, t, event, group), t, event, ids), t, |ids|), MarkProcessed(t, true))
  }

  lemma ReachesCommit(s: State, t: TxId, event: MarketEvent, group: Group, ids: seq<OrderId>)
    requires Alone(s, t) && Unprocessed(s, InboxKey(event.id, group))
    requires if event.enabled && !event.deleted then ids == [] else AreActive(s.db.orders, event.market, ids)
    ensures ToCommit(s, t, event, group, ids) == With(s, t, event, group, Marked(ids, StatusRows(ids)))
  {
    Begins(s, t, event, group);
    Cancels(s, t, event, group, ids);
    Emits(s, t, event, group, ids, |ids|);
    assert ids[..|ids|] == ids;
  }

  predicate Unprocessed(s: State, k: InboxKey) {
    k !in s.db.inbox || s.db.inbox[k].InboxFailed?
  }

  /**
   The delivery as a whole: when it commits the inbox row is processed, the active orders of a disabled or
   deleted market are cancelled with one order.status.updated row each, and nothing else changes; when the
   commit did not run, nothing changes at all. It ends well exactly when the commit reported so.
   */
  lemma AloneCompensates(s: State, t: TxId, event: MarketEvent, group: Group, ids: seq<OrderId>, o: Outcome)
    requires Alone(s, t) && Unprocessed(s, InboxKey(event.id, group))
    requires if event.enabled && !event.deleted then ids == [] else AreActive(s.db.orders, event.market, ids)
    ensures
      var s' := Apply(ToCommit(s, t, event, group, ids), CommitCompensation(t, o));
      var k := InboxKey(event.id, group);
      && s'.txs == s.txs[t := Compensate(event, group, Finished(o.Ran?))]
      && s'.db ==
           if o.NotRan? then s.db
           else Db(if event.enabled && !event.deleted then s.db.orders else WithCancelled(s.db.orders, event.market),
                   s.db.outbox + StatusRows(ids), s.db.inbox[k := InboxProcessed], s.db.applied + [k])
  {
    ReachesCommit(s, t, event, group, ids);
    var s' := Apply(ToCommit(s, t, event, group, ids), CommitCompensation(t, o));
    if !o.NotRan? {
      assert s'.db.orders == CancelRows(s.db.orders, ids);
      if event.enabled && !event.deleted {
        assert s'.db.orders == s.db.orders;
      } else {
        assert s'.db.orders == WithCancelled(s.db.orders, event.market);
      }
    }
  }

  /** A delivery whose row was processed before changes nothing, and ends well if its empty commit does. */
  lemma AloneSkips(s: State, t: TxId, event: MarketEvent, group: Group, o: Outcome)
    requires Alone(s, t) && !Unprocessed(s, InboxKey(event.id, group))
    ensures Apply(Begin(s, t, event, group), CommitSkipped(t, o)) == With(s, t, event, group, Finished(o.Ran?))
  {
    Begins(s, t, event, group);
  }

  /** The statement that failed, whichever it was, was rolled back with all before it. */
  lemma FailingStatements(s: State, t: TxId, event: MarketEvent, group: Group, ids: seq<OrderId>, n: nat)
    requires t !in s.txs && n < |ids|
    ensures Apply(With(s, t, event, group, Opened), BeginProcessing(t, false)) == With(s, t, event, group, Failing)
    ensures Apply(With(s, t, event, group, Cancelling({})), CancelOrders(t, false, [])) == With(s, t, event, group, Failing)
    ensures Apply(With(s, t, event, group, Emitting(ids, n, [])), EmitEvent(t, false)) == With(s, t, event, group, Failing)
    ensures Apply(With(s, t, event, group, Emitting(ids, |ids|, [])), MarkProcessed(t, false)) == With(s, t, event, group, Failing)
  {
  }

  /** After a failing statement only the failure is recorded, unless the row was processed meanwhile. */
  lemma AloneFails(s: State, t: TxId, event: MarketEvent, group: Group, o: Outcome)
    requires Alone(s, t)
    ensures
      var s', k := Apply(With(s, t, event, group, Failing), SaveFailed(t, o)), InboxKey(event.id, group);
      && s'.txs == s.txs[t := Compensate(event, group, Finished(false))]
      && s'.db.orders == s.db.orders && s'.db.outbox == s.db.outbox && s'.db.applied == s.db.applied
      && s'.db.inbox == if o.NotRan? || Processed(s, k) then s.db.inbox else s.db.inbox[k := InboxFailed]
  {
    assert InboxFree(With(s, t, event, group, Failing), t, InboxKey(event.id, group));
  }

  // ----- saveOrder -----

  function Saving(s: State, t: TxId, id: OrderId, market: MarketId, pc: SavePc): State {
    s.(txs := s.txs[t := Save(id, market, pc)])
  }

  /** saveOrder alone: the order is there, active, with its one event, exactly when all statements and the commit ran. */
  lemma AloneSaves(s: State, t: TxId, id: OrderId, market: MarketId, inserted: bool, produced: bool, o: Outcome)
    requires Alone(s, t)
    ensures
      var s1 := Apply(Apply(s, StartSave(t, id, market)), InsertOrder(t, inserted));
      var s2 := Apply(s1, InsertEvent(t, produced));
      var s3 := Apply(s2, CommitSave(t, o));
      var written := inserted && id !in s.db.orders && produced && !o.NotRan?;
      && s1.db == s.db && s2.db == s.db
      && s3.txs == s.txs[t := Save(id, market, SaveDone(written && o.Ran?))]
      && s3.db == if !written then s.db
                  else s.db.(orders := s.db.orders[id := OrderRow(market, Created)],
                             outbox := s.db.outbox + [OutboxRow(OrderCreated, id)])
  {
    var s0 := Apply(s, StartSave(t, id, market));
    assert s0 == Saving(s, t, id, market, SaveOpened) && NewOrderFree(s0, t, id);
    var s1 := Apply(s0, InsertOrder(t, inserted));
    assert s1 == Saving(s, t, id, market, if inserted && id !in s.db.orders then OrderInserted else SaveDone(false));
    var s2 := Apply(s1, InsertEvent(t, produced));
    assert s2 == Saving(s, t, id, market, if inserted && id !in s.db.orders && produced then EventInserted else SaveDone(false));
  }

  // ----- Whatever else is open -----

  /** Only a commit, or the record of a failure, writes anything, and not if it did not run. */
  lemma OnlyCommitsWrite(s: State, e: Event)
    requires Apply(s, e).db != s.db
    ensures (e.CommitSave? || e.CommitCompensation? || e.SaveFailed?) && !e.outcome.NotRan?
  {
  }

  /** A statement waits for, or fails on, a row that another open transaction has written. */
  lemma WritersExclude(s: State, t: TxId, u: TxId, ids: seq<OrderId>)
    requires t != u && t in s.txs && u in s.txs
    ensures s.txs[t].Compensate? && s.txs[t].pc.Opened? && LocksInbox(s.txs[u]) && KeyOf(s.txs[u]) == KeyOf(s.txs[t]) ==>
              Apply(s, BeginProcessing(t, true)) == s
    ensures s.txs[t].Compensate? && s.txs[t].pc.Failing? && LocksInbox(s.txs[u]) && KeyOf(s.txs[u]) == KeyOf(s.txs[t]) ==>
              Apply(s, SaveFailed(t, Ran)) == s
    ensures s.txs[t].Compensate? && s.txs[t].pc.Cancelling? && (exists id :: id in ids && id in LockedOrders(s.txs[u])) ==>
              Apply(s, CancelOrders(t, true, ids)) == s
    ensures s.txs[t].Save? && s.txs[t].save.SaveOpened? && LocksNewOrder(s.txs[u]) && s.txs[u].id == s.txs[t].id ==>
              Apply(s, InsertOrder(t, true)) == s
  {
  }

  /** A crash forgets the transaction, and nothing else. */
  lemma CrashForgets(s: State, t: TxId)
    ensures Apply(s, Crash(t)) == State(s.db, s.txs - {t})
  {
  }
}
