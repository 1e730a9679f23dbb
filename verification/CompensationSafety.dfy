/**
 What every run over the order database keeps: a compensation takes effect once per inbox key,
 and orders and outbox rows stay in step.
 */
module CompensationSafety {
  import opened Wrappers
  import opened CompensationProtocol

  function Count<T(==)>(s: seq<T>, x: T): nat {
    multiset(s)[x]
  }

  predicate NoDuplicates(ids: seq<OrderId>) {
    forall i, j | 0 <= i < j < |ids| :: ids[i] != ids[j]
  }

  function StatusRows(ids: seq<OrderId>): seq<OutboxRow> {
    if ids == [] then []
    else StatusRows(ids[..|ids| - 1]) + [OutboxRow(OrderStatusUpdated, ids[|ids| - 1])]
  }

  // ----- The inbox row and the log of committed compensations agree -----

  predicate KeyInv(db: Db, k: InboxKey) {
    if k in db.inbox && db.inbox[k].InboxProcessed? then Count(db.applied, k) == 1
    else Count(db.applied, k) == 0
  }

  ghost predicate InboxInv(s: State) {
    && (forall k | k in s.db.inbox :: !s.db.inbox[k].InboxProcessing?)
    && (forall k :: KeyInv(s.db, k))
    && (forall t | t in s.txs && LocksInbox(s.txs[t]) ::
          && InboxFree(s, t, KeyOf(s.txs[t]))
          && !(KeyOf(s.txs[t]) in s.db.inbox && s.db.inbox[KeyOf(s.txs[t])].InboxProcessed?))
  }

  // ----- Orders and outbox rows agree -----

  predicate RowsAgree(db: Db, id: OrderId) {
    && Count(db.outbox, OutboxRow(OrderCreated, id)) == (if id in db.orders then 1 else 0)
    && Count(db.outbox, OutboxRow(OrderStatusUpdated, id)) ==
         (if id in db.orders && db.orders[id].status.Cancelled? then 1 else 0)
  }

  /** The market is disabled or deleted. */
  predicate Closed(event: MarketEvent) {
    !event.enabled || event.deleted
  }

  /** The transaction compensates for the closing of the order's market. */
  predicate MayCancel(tx: Tx, row: OrderRow) {
    tx.Compensate? && Closed(tx.event) && row.market == tx.event.market
  }

  /** A transaction's private writes: the rows it cancels are its alone, and one event each is buffered. */
  ghost predicate TxInv(s: State, t: TxId)
    requires t in s.txs
  {
    var tx := s.txs[t];
    && (LocksNewOrder(tx) ==> tx.id !in s.db.orders && NewOrderFree(s, t, tx.id))
    && NoDuplicates(LockedOrders(tx))
    && OrdersFree(s, t, LockedOrders(tx))
    && (forall id | id in LockedOrders(tx) :: id in s.db.orders && Active(s.db.orders[id]) && MayCancel(tx, s.db.orders[id]))
    && (tx.Compensate? && tx.pc.Cancelling? ==> Closed(tx.event))
    && (tx.Compensate? && tx.pc.Emitting? ==>
          tx.pc.emitted <= |tx.pc.ids| && tx.pc.buffer == StatusRows(tx.pc.ids[..tx.pc.emitted]))
    && (tx.Compensate? && tx.pc.Marked? ==> tx.pc.buffer == StatusRows(tx.pc.ids))
  }

  ghost predicate OrdersInv(s: State) {
    && (forall id :: RowsAgree(s.db, id))
    && (forall t | t in s.txs :: TxInv(s, t))
  }

  // ----- Every step keeps them -----

  lemma CommitKeepsInbox(s: State, t: TxId, o: Outcome)
    requires InboxInv(s) && t in s.txs && s.txs[t].Compensate? && s.txs[t].pc.Marked?
    ensures InboxInv(CommitStep(s, t, o))
  {
    var s', k := CommitStep(s, t, o), KeyOf(s.txs[t]);
    assert KeyInv(s.db, k) && !(k in s.db.inbox && s.db.inbox[k].InboxProcessed?);
    forall j ensures KeyInv(s'.db, j) {
      assert KeyInv(s.db, j);
    }
  }

  lemma SaveFailedKeepsInbox(s: State, t: TxId, o: Outcome)
    requires InboxInv(s) && t in s.txs && s.txs[t].Compensate? && s.txs[t].pc.Failing?
    ensures InboxInv(SaveFailedStep(s, t, o))
  {
    var s' := SaveFailedStep(s, t, o);
    forall j ensures KeyInv(s'.db, j) {
      assert KeyInv(s.db, j);
    }
  }

  /** A transaction that writes no inbox row and locks one only when it is free and not processed. */
  lemma MoveKeepsInbox(s: State, s': State, t: TxId)
    requires InboxInv(s)
    requires s'.db.inbox == s.db.inbox && s'.db.applied == s.db.applied
    requires t in s'.txs && s'.txs == s.txs[t := s'.txs[t]]
    requires LocksInbox(s'.txs[t]) ==>
               (t in s.txs && LocksInbox(s.txs[t]) && KeyOf(s'.txs[t]) == KeyOf(s.txs[t]))
               || (InboxFree(s, t, KeyOf(s'.txs[t]))
                   && !(KeyOf(s'.txs[t]) in s.db.inbox && s.db.inbox[KeyOf(s'.txs[t])].InboxProcessed?))
    ensures InboxInv(s')
  {
    forall j ensures KeyInv(s'.db, j) {
      assert KeyInv(s.db, j);
    }
  }

  lemma InboxKept(s: State, e: Event)
    requires InboxInv(s)
    ensures InboxInv(Apply(s, e))
  {
    if e.CommitCompensation? {
      if e.t in s.txs && s.txs[e.t].Compensate? && s.txs[e.t].pc.Marked? {
        CommitKeepsInbox(s, e.t, e.outcome);
      }
    } else if e.SaveFailed? {
      if e.t in s.txs && s.txs[e.t].Compensate? && s.txs[e.t].pc.Failing? {
        SaveFailedKeepsInbox(s, e.t, e.outcome);
      }
    } else if e.Crash? {
      forall j ensures KeyInv(Apply(s, e).db, j) {
        assert KeyInv(s.db, j);
      }
    } else if Apply(s, e) != s {
      MoveKeepsInbox(s, Apply(s, e), e.t);
    }
  }

  /** A step that commits nothing: enough that the moved transaction keeps its own invariant. */
  lemma MoveKeepsOrders(s: State, t: TxId, tx: Tx)
    requires OrdersInv(s) && TxInv(Move(s, t, tx), t)
    ensures OrdersInv(Move(s, t, tx))
  {
    var s' := Move(s, t, tx);
    forall u | u in s'.txs && u != t ensures TxInv(s', u) {
      assert TxInv(s, u);
      forall v, id | v in s'.txs && v != u && id in LockedOrders(s'.txs[u]) ensures id !in LockedOrders(s'.txs[v]) {
        if v == t {
          assert OrdersFree(s', t, LockedOrders(tx));
        }
      }
    }
  }

  lemma CrashKeepsOrders(s: State, t: TxId)
    requires OrdersInv(s)
    ensures OrdersInv(Apply(s, Crash(t)))
  {
    var s' := Apply(s, Crash(t));
    forall u | u in s'.txs ensures TxInv(s', u) {
      assert TxInv(s, u);
    }
  }

  lemma SaveKeepsOrders(s: State, e: Event)
    requires OrdersInv(s)
    requires e.InsertOrder? || e.InsertEvent? || e.CommitSave?
    requires e.t in s.txs && s.txs[e.t].Save?
    ensures OrdersInv(SaveStep(s, e))
  {
    var s', t, tx := SaveStep(s, e), e.t, s.txs[e.t];
    assert TxInv(s, t);
    if s'.db == s.db {
      if s' != s {
        MoveKeepsOrders(s, t, s'.txs[t]);
      }
    } else {
      var row := OutboxRow(OrderCreated, tx.id);
      forall id ensures RowsAgree(s'.db, id) {
        assert RowsAgree(s.db, id) && RowsAgree(s.db, tx.id);
      }
      forall u | u in s'.txs ensures TxInv(s', u) {
        assert TxInv(s, u);
      }
    }
  }

  lemma {:induction false} CountStatusRows(ids: seq<OrderId>, row: OutboxRow)
    requires NoDuplicates(ids)
    ensures Count(StatusRows(ids), row) == if row.kind.OrderStatusUpdated? && row.aggregate in ids then 1 else 0
  {
    if ids != [] {
      var n := |ids| - 1;
      assert ids == ids[..n] + [ids[n]];
      CountStatusRows(ids[..n], row);
      assert ids[n] !in ids[..n];
    }
  }

  lemma CommitKeepsRows(s: State, t: TxId, id: OrderId)
    requires OrdersInv(s)
    requires t in s.txs && s.txs[t].Compensate? && s.txs[t].pc.Marked?
    ensures RowsAgree(CommitStep(s, t, Ran).db, id)
  {
    var tx := s.txs[t];
    assert TxInv(s, t);
    assert RowsAgree(s.db, id);
    CountStatusRows(tx.pc.ids, OutboxRow(OrderCreated, id));
    CountStatusRows(tx.pc.ids, OutboxRow(OrderStatusUpdated, id));
  }

  lemma CommitKeepsOrders(s: State, t: TxId, o: Outcome)
    requires OrdersInv(s)
    requires t in s.txs && s.txs[t].Compensate? && s.txs[t].pc.Marked?
    ensures OrdersInv(CommitStep(s, t, o))
  {
    var s' := CommitStep(s, t, o);
    assert TxInv(s, t);
    if o.NotRan? {
      MoveKeepsOrders(s, t, s'.txs[t]);
    } else {
      assert s'.db == CommitStep(s, t, Ran).db;
      forall id ensures RowsAgree(s'.db, id) {
        CommitKeepsRows(s, t, id);
      }
      forall u | u in s'.txs ensures TxInv(s', u) {
        assert TxInv(s, u);
      }
    }
  }

  lemma EmitKeepsOrders(s: State, t: TxId, ok: bool)
    requires OrdersInv(s)
    requires t in s.txs && s.txs[t].Compensate? && s.txs[t].pc.Emitting?
    ensures OrdersInv(EmitStep(s, t, ok))
  {
    var s', pc := EmitStep(s, t, ok), s.txs[t].pc;
    assert TxInv(s, t);
    if s' != s {
      if ok {
        var n := pc.emitted;
        assert pc.ids[..n + 1][..n] == pc.ids[..n];
      }
      MoveKeepsOrders(s, t, s'.txs[t]);
    }
  }

  lemma StartCancelKeepsOrders(s: State, t: TxId)
    requires OrdersInv(s)
    requires t in s.txs && s.txs[t].Compensate? && s.txs[t].pc.Begun?
    ensures OrdersInv(StartCancelStep(s, t))
  {
    MoveKeepsOrders(s, t, StartCancelStep(s, t).txs[t]);
  }

  lemma CancelKeepsOrders(s: State, t: TxId, ok: bool, ids: seq<OrderId>)
    requires OrdersInv(s)
    requires t in s.txs && s.txs[t].Compensate? && s.txs[t].pc.Cancelling?
    ensures OrdersInv(CancelStep(s, t, ok, ids))
  {
    var s' := CancelStep(s, t, ok, ids);
    if s' != s {
      MoveKeepsOrders(s, t, s'.txs[t]);
    }
  }

  lemma MarkKeepsOrders(s: State, t: TxId, ok: bool)
    requires OrdersInv(s)
    requires t in s.txs && s.txs[t].Compensate? && s.txs[t].pc.Emitting?
    ensures OrdersInv(MarkStep(s, t, ok))
  {
    var s', pc := MarkStep(s, t, ok), s.txs[t].pc;
    assert TxInv(s, t);
    if s' != s {
      assert pc.ids[..|pc.ids|] == pc.ids;
      MoveKeepsOrders(s, t, s'.txs[t]);
    }
  }

  /** A delivery that holds no order moves on; only the inbox may change. */
  lemma UnlockedMoveKeepsOrders(s: State, s': State, t: TxId)
    requires OrdersInv(s) && t in s'.txs && s'.txs == s.txs[t := s'.txs[t]]
    requires s'.db.orders == s.db.orders && s'.db.outbox == s.db.outbox
    requires s'.txs[t].Compensate? && !s'.txs[t].pc.Emitting? && !s'.txs[t].pc.Marked? && !s'.txs[t].pc.Cancelling?
    ensures OrdersInv(s')
  {
    MoveKeepsOrders(s, t, s'.txs[t]);
    SameOrders(Move(s, t, s'.txs[t]), s');
  }

  lemma CompensateKeepsOrders(s: State, e: Event)
    requires OrdersInv(s)
    requires !e.StartSave? && !e.Deliver? && !e.InsertOrder? && !e.InsertEvent? && !e.CommitSave? && !e.Crash?
    requires e.t in s.txs && s.txs[e.t].Compensate?
    ensures OrdersInv(CompensateStep(s, e))
  {
    var t, tx := e.t, s.txs[e.t];
    if e.CommitCompensation? {
      if tx.pc.Marked? {
        CommitKeepsOrders(s, t, e.outcome);
      }
    } else if e.EmitEvent? {
      if tx.pc.Emitting? {
        EmitKeepsOrders(s, t, e.ok);
      }
    } else if e.StartCancel? {
      if tx.pc.Begun? {
        StartCancelKeepsOrders(s, t);
      }
    } else if e.CancelOrders? {
      if tx.pc.Cancelling? {
        CancelKeepsOrders(s, t, e.ok, e.ids);
      }
    } else if e.MarkProcessed? {
      if tx.pc.Emitting? {
        MarkKeepsOrders(s, t, e.ok);
      }
    } else if CompensateStep(s, e) != s {
      UnlockedMoveKeepsOrders(s, CompensateStep(s, e), t);
    }
  }

  lemma SameOrders(s: State, s': State)
    requires OrdersInv(s)
    requires s'.txs == s.txs && s'.db.orders == s.db.orders && s'.db.outbox == s.db.outbox
    ensures OrdersInv(s')
  {
    forall id ensures RowsAgree(s'.db, id) {
      assert RowsAgree(s.db, id);
    }
    forall u | u in s'.txs ensures TxInv(s', u) {
      assert TxInv(s, u);
    }
  }

  lemma OrdersKept(s: State, e: Event)
    requires OrdersInv(s)
    ensures OrdersInv(Apply(s, e))
  {
    if e.Crash? {
      CrashKeepsOrders(s, e.t);
    } else if e.StartSave? || e.Deliver? {
      if e.t !in s.txs {
        MoveKeepsOrders(s, e.t, Apply(s, e).txs[e.t]);
      }
    } else if e.InsertOrder? || e.InsertEvent? || e.CommitSave? {
      if e.t in s.txs && s.txs[e.t].Save? {
        SaveKeepsOrders(s, e);
      }
    } else if e.t in s.txs && s.txs[e.t].Compensate? {
      CompensateKeepsOrders(s, e);
    }
  }

  lemma {:induction false} Always(es: seq<Event>)
    ensures InboxInv(Run(Init, es)) && OrdersInv(Run(Init, es))
  {
    if es != [] {
      Always(es[..|es| - 1]);
      InboxKept(Run(Init, es[..|es| - 1]), es[|es| - 1]);
      OrdersKept(Run(Init, es[..|es| - 1]), es[|es| - 1]);
    }
  }

  // ----- What follows for every run -----

  /**
   Over any sequence of deliveries, retries, rollbacks, crashes and failed or ambiguous commits,
   the compensation for an inbox key commits at most once, the committed row is processed
   exactly when it did, and no committed row is ever processing.
   */
  lemma CompensatedAtMostOnce(es: seq<Event>, k: InboxKey)
    ensures
      var db := Run(Init, es).db;
      && Count(db.applied, k) <= 1
      && (k in db.inbox && db.inbox[k].InboxProcessed? <==> Count(db.applied, k) == 1)
      && (k in db.inbox ==> !db.inbox[k].InboxProcessing?)
  {
    Always(es);
    assert KeyInv(Run(Init, es).db, k);
  }

  /**
   Every committed order has exactly one order.created row, every cancelled order exactly one
   order.status.updated row, and there are no other rows.
   */
  lemma OrdersMatchOutbox(es: seq<Event>, id: OrderId)
    ensures
      var db := Run(Init, es).db;
      && Count(db.outbox, OutboxRow(OrderCreated, id)) == (if id in db.orders then 1 else 0)
      && Count(db.outbox, OutboxRow(OrderStatusUpdated, id)) ==
           (if id in db.orders && db.orders[id].status.Cancelled? then 1 else 0)
  {
    Always(es);
    assert RowsAgree(Run(Init, es).db, id);
  }

  predicate Processed(s: State, k: InboxKey) {
    k in s.db.inbox && s.db.inbox[k].InboxProcessed?
  }

  predicate Cancelled(s: State, id: OrderId) {
    id in s.db.orders && s.db.orders[id].status.Cancelled?
  }

  /** The order exists and is neither created nor pending. */
  predicate Inactive(s: State, id: OrderId) {
    id in s.db.orders && !Active(s.db.orders[id])
  }

  /** From s to s' processed inbox rows, orders, their markets and the end of their activity stay. */
  ghost predicate Keeps(s: State, s': State) {
    && (forall k | Processed(s, k) :: Processed(s', k))
    && (forall id | Cancelled(s, id) :: Cancelled(s', id))
    && (forall id | Inactive(s, id) :: Inactive(s', id))
    && (forall id | id in s.db.orders :: id in s'.db.orders && s'.db.orders[id].market == s.db.orders[id].market)
  }

  lemma SaveKeepsFinal(s: State, t: TxId, o: Outcome)
    requires OrdersInv(s) && t in s.txs && s.txs[t].Save?
    ensures Keeps(s, SaveStep(s, CommitSave(t, o)))
  {
    assert TxInv(s, t);
  }

  lemma CompensateKeepsFinal(s: State, e: Event)
    requires e.CommitCompensation? || e.SaveFailed?
    requires e.t in s.txs && s.txs[e.t].Compensate?
    ensures Keeps(s, CompensateStep(s, e))
  {
  }

  lemma StepKeepsFinal(s: State, e: Event)
    requires OrdersInv(s)
    ensures Keeps(s, Apply(s, e))
  {
    if e.CommitSave? {
      if e.t in s.txs && s.txs[e.t].Save? {
        SaveKeepsFinal(s, e.t, e.outcome);
      }
    } else if e.CommitCompensation? || e.SaveFailed? {
      if e.t in s.txs && s.txs[e.t].Compensate? {
        CompensateKeepsFinal(s, e);
      }
    } else {
      assert Apply(s, e).db == s.db;
    }
  }

  lemma RunAppend(start: State, es: seq<Event>, e: Event)
    ensures Run(start, es + [e]) == Apply(Run(start, es), e)
  {
    assert (es + [e])[..|es|] == es;
  }

  /**
   Processed is never left, a cancelled order never becomes active again, no order disappears
   or changes its market.
   */
  lemma {:induction false} FinalStatesStay(es: seq<Event>, fs: seq<Event>)
    ensures Keeps(Run(Init, es), Run(Init, es + fs))
  {
    if fs == [] {
      assert es + fs == es;
    } else {
      var n := |fs| - 1;
      FinalStatesStay(es, fs[..n]);
      Always(es + fs[..n]);
      StepKeepsFinal(Run(Init, es + fs[..n]), fs[n]);
      RunAppend(Init, es + fs[..n], fs[n]);
      assert es + fs == (es + fs[..n]) + [fs[n]];
    }
  }

  /** Event i of the run commits the compensation of a transaction that has cancelled order id. */
  predicate CancelsAt(es: seq<Event>, i: nat, id: OrderId) {
    && i < |es| && es[i].CommitCompensation? && !es[i].outcome.NotRan?
    && var s := Run(Init, es[..i]);
       && es[i].t in s.txs && s.txs[es[i].t].Compensate? && s.txs[es[i].t].pc.Marked?
       && id in s.txs[es[i].t].pc.ids && id in s.db.orders
       && (!s.txs[es[i].t].event.enabled || s.txs[es[i].t].event.deleted)
       && s.txs[es[i].t].event.market == s.db.orders[id].market
  }

  lemma StepCancels(s: State, e: Event, id: OrderId)
    requires OrdersInv(s) && !Cancelled(s, id) && Cancelled(Apply(s, e), id)
    ensures e.CommitCompensation? && !e.outcome.NotRan?
    ensures e.t in s.txs && s.txs[e.t].Compensate? && s.txs[e.t].pc.Marked? && id in s.txs[e.t].pc.ids
    ensures id in s.db.orders && MayCancel(s.txs[e.t], s.db.orders[id])
  {
    if e.t in s.txs {
      assert TxInv(s, e.t);
    }
  }

  /**
   In every run an order is cancelled only by a committed compensation whose event says that the order's
   market is disabled or deleted; for an open market nothing is ever cancelled.
   */
  lemma {:induction false} CancelledByItsMarket(es: seq<Event>, id: OrderId) returns (i: nat)
    requires Cancelled(Run(Init, es), id)
    ensures CancelsAt(es, i, id)
  {
    var n := |es| - 1;
    if Cancelled(Run(Init, es[..n]), id) {
      i := CancelledByItsMarket(es[..n], id);
      assert es[..n][..i] == es[..i];
    } else {
      Always(es[..n]);
      StepCancels(Run(Init, es[..n]), es[n], id);
      i := n;
    }
  }

  /** A compensation is for the event and the consumer group that were delivered to it. */
  lemma {:induction false} WasDelivered(es: seq<Event>, t: TxId) returns (j: nat)
    requires t in Run(Init, es).txs && Run(Init, es).txs[t].Compensate?
    ensures j < |es| && es[j].Deliver? && es[j].t == t
    ensures es[j].event == Run(Init, es).txs[t].event && es[j].group == Run(Init, es).txs[t].group
  {
    var n := |es| - 1;
    var s := Run(Init, es[..n]);
    if t in s.txs {
      StepKeepsDelivery(s, es[n], t);
      j := WasDelivered(es[..n], t);
    } else {
      j := n;
    }
  }

  lemma StepKeepsDelivery(s: State, e: Event, t: TxId)
    requires t in s.txs && t in Apply(s, e).txs && Apply(s, e).txs[t].Compensate?
    ensures s.txs[t].Compensate? && s.txs[t].event == Apply(s, e).txs[t].event && s.txs[t].group == Apply(s, e).txs[t].group
  {
  }

  /** An event that closes the market was delivered. */
  predicate ClosesMarket(e: Event, market: MarketId) {
    e.Deliver? && e.event.market == market && (!e.event.enabled || e.event.deleted)
  }

  /** A market that no delivered event disables or deletes keeps its orders. */
  lemma OpenMarketsCancelNothing(es: seq<Event>, id: OrderId)
    requires id in Run(Init, es).db.orders
    requires forall j | 0 <= j < |es| :: !ClosesMarket(es[j], Run(Init, es).db.orders[id].market)
    ensures !Cancelled(Run(Init, es), id)
  {
    if Cancelled(Run(Init, es), id) {
      var i := CancelledByItsMarket(es, id);
      var j := WasDelivered(es[..i], es[i].t);
      assert es[..i][j] == es[j];
      ExtendedRunKeeps(es[..i], es);
    }
  }

  lemma ExtendedRunKeeps(es: seq<Event>, fs: seq<Event>)
    requires es <= fs
    ensures Keeps(Run(Init, es), Run(Init, fs))
  {
    FinalStatesStay(es, fs[|es|..]);
    assert es + fs[|es|..] == fs;
  }
}
