/**
 Order creation and market compensation over one database. Transactions keep their writes to
 themselves until they commit; a statement that meets a row another open transaction has
 written waits (its event leaves the state unchanged) or gives up at its deadline. An event that is not possible in a
 state leaves it unchanged, so a run is any sequence of events.
 */
module CompensationProtocol {
  import opened Wrappers

  type OrderId = nat
  type MarketId = nat
  type EventId = nat
  type Group = nat
  type TxId = nat

  datatype OrderStatus = Created | Pending | Filled | Cancelled

  datatype OrderRow = OrderRow(market: MarketId, status: OrderStatus)

  datatype EventKind = OrderCreated | OrderStatusUpdated

  /** An outbox row, by its event type and aggregate. */
  datatype OutboxRow = OutboxRow(kind: EventKind, aggregate: OrderId)

  datatype InboxStatus = InboxProcessing | InboxProcessed | InboxFailed

  datatype InboxKey = InboxKey(event: EventId, group: Group)

  datatype MarketEvent = MarketEvent(id: EventId, market: MarketId, enabled: bool, deleted: bool)

  /** What is committed, and the log of committed compensations (history only). */
  datatype Db = Db(
    orders: map<OrderId, OrderRow>,
    outbox: seq<OutboxRow>,
    inbox: map<InboxKey, InboxStatus>,
    applied: seq<InboxKey>)

  datatype SavePc = SaveOpened | OrderInserted | EventInserted | SaveDone(ok: bool)

  datatype CompensatePc =
    | Opened
    | Begun
    | Cancelling(seen: set<OrderId>)
    | Skipped(status: InboxStatus)
    | Emitting(ids: seq<OrderId>, emitted: nat, buffer: seq<OutboxRow>)
    | Marked(ids: seq<OrderId>, buffer: seq<OutboxRow>)
    | Failing
    | Finished(ok: bool)

  datatype Tx =
    | Save(id: OrderId, market: MarketId, save: SavePc)
    | Compensate(event: MarketEvent, group: Group, pc: CompensatePc)

  datatype Event =
    | StartSave(t: TxId, id: OrderId, market: MarketId)
    | InsertOrder(t: TxId, ok: bool)
    | InsertEvent(t: TxId, ok: bool)
    | CommitSave(t: TxId, outcome: Outcome)
    | Deliver(t: TxId, event: MarketEvent, group: Group, begun: bool)
    | BeginProcessing(t: TxId, ok: bool)
    | StartCancel(t: TxId)
    | CancelOrders(t: TxId, ok: bool, ids: seq<OrderId>)
    | EmitEvent(t: TxId, ok: bool)
    | MarkProcessed(t: TxId, ok: bool)
    | CommitCompensation(t: TxId, outcome: Outcome)
    | CommitSkipped(t: TxId, outcome: Outcome)
    | SaveFailed(t: TxId, outcome: Outcome)
    | Crash(t: TxId)

  datatype State = State(db: Db, txs: map<TxId, Tx>)

  const Init := State(Db(map[], [], map[], []), map[])

  function KeyOf(tx: Tx): InboxKey
    requires tx.Compensate?
  {
    InboxKey(tx.event.id, tx.group)
  }

  /** The transaction has written its inbox row and not ended. */
  predicate LocksInbox(tx: Tx) {
    tx.Compensate? && (tx.pc.Begun? || tx.pc.Cancelling? || tx.pc.Emitting? || tx.pc.Marked?)
  }

  /** The order rows the transaction has cancelled and not yet committed. */
  function LockedOrders(tx: Tx): seq<OrderId> {
    if tx.Compensate? && (tx.pc.Emitting? || tx.pc.Marked?) then tx.pc.ids else []
  }

  predicate LocksNewOrder(tx: Tx) {
    tx.Save? && (tx.save.OrderInserted? || tx.save.EventInserted?)
  }

  predicate InboxFree(s: State, t: TxId, k: InboxKey) {
    forall u | u in s.txs && u != t && LocksInbox(s.txs[u]) :: KeyOf(s.txs[u]) != k
  }

  predicate NewOrderFree(s: State, t: TxId, id: OrderId) {
    forall u | u in s.txs && u != t && LocksNewOrder(s.txs[u]) :: s.txs[u].id != id
  }

  predicate OrdersFree(s: State, t: TxId, ids: seq<OrderId>) {
    forall u | u in s.txs && u != t :: forall id | id in ids :: id !in LockedOrders(s.txs[u])
  }

  predicate Active(row: OrderRow) {
    row.status.Created? || row.status.Pending?
  }

  function ActiveIn(orders: map<OrderId, OrderRow>, market: MarketId): set<OrderId> {
    set id | id in orders && orders[id].market == market && Active(orders[id])
  }

  /** ids lists, once each, the rows of the statement's snapshot that still match once their locks are free. */
  predicate ListsActive(orders: map<OrderId, OrderRow>, market: MarketId, seen: set<OrderId>, ids: seq<OrderId>) {
    && (forall i, j | 0 <= i < j < |ids| :: ids[i] != ids[j])
    && (forall id | id in ids :: id in orders)
    && (forall id | id in orders :: id in ids <==> id in seen && orders[id].market == market && Active(orders[id]))
  }

  function Move(s: State, t: TxId, tx: Tx): State {
    s.(txs := s.txs[t := tx])
  }

  function CancelRows(orders: map<OrderId, OrderRow>, ids: seq<OrderId>): map<OrderId, OrderRow> {
    map id | id in orders :: if id in ids then orders[id].(status := Cancelled) else orders[id]
  }

  function SaveStep(s: State, e: Event): State
    requires e.InsertOrder? || e.InsertEvent? || e.CommitSave?
    requires e.t in s.txs && s.txs[e.t].Save?
  {
    var t, tx := e.t, s.txs[e.t];
    match e
    case InsertOrder(_, ok) =>
      if !tx.save.SaveOpened? || (ok && !NewOrderFree(s, t, tx.id)) then s
      else Move(s, t, tx.(save := if ok && tx.id !in s.db.orders then OrderInserted else SaveDone(false)))
    case InsertEvent(_, ok) =>
      if !tx.save.OrderInserted? then s
      else Move(s, t, tx.(save := if ok then EventInserted else SaveDone(false)))
    case CommitSave(_, o) =>
      if !tx.save.EventInserted? then s
      else
        var db := if o.NotRan? then s.db else s.db.(
                    orders := s.db.orders[tx.id := OrderRow(tx.market, Created)],
                    outbox := s.db.outbox + [OutboxRow(OrderCreated, tx.id)]);
        Move(s.(db := db), t, tx.(save := SaveDone(o.Ran?)))
  }

  /** INSERT ... ON CONFLICT DO UPDATE ... WHERE status = 'failed', then the status query. */
  function BeginStep(s: State, t: TxId, ok: bool): State
    requires t in s.txs && s.txs[t].Compensate? && s.txs[t].pc.Opened?
  {
    var tx, k := s.txs[t], KeyOf(s.txs[t]);
    if !ok then Move(s, t, tx.(pc := Failing))
    else if !InboxFree(s, t, k) then s
    else if k !in s.db.inbox || s.db.inbox[k].InboxFailed? then Move(s, t, tx.(pc := Begun))
    else Move(s, t, tx.(pc := Skipped(s.db.inbox[k])))
  }

  /**
   applyCompensationTransaction: an open market cancels nothing; for a closed one the cancelling UPDATE
   starts, which will only ever see the rows that match now.
   */
  function StartCancelStep(s: State, t: TxId): State
    requires t in s.txs && s.txs[t].Compensate? && s.txs[t].pc.Begun?
  {
    var tx := s.txs[t];
    Move(s, t, tx.(pc := if tx.event.enabled && !tx.event.deleted then Emitting([], 0, [])
                         else Cancelling(ActiveIn(s.db.orders, tx.event.market))))
  }

  /** The UPDATE ends, when it has the locks of its rows. */
  function CancelStep(s: State, t: TxId, ok: bool, ids: seq<OrderId>): State
    requires t in s.txs && s.txs[t].Compensate? && s.txs[t].pc.Cancelling?
  {
    var tx := s.txs[t];
    if !ok then Move(s, t, tx.(pc := Failing))
    else if !ListsActive(s.db.orders, tx.event.market, tx.pc.seen, ids) || !OrdersFree(s, t, ids) then s
    else Move(s, t, tx.(pc := Emitting(ids, 0, [])))
  }

  function EmitStep(s: State, t: TxId, ok: bool): State
    requires t in s.txs && s.txs[t].Compensate? && s.txs[t].pc.Emitting?
  {
    var tx, pc := s.txs[t], s.txs[t].pc;
    if pc.emitted >= |pc.ids| then s
    else if !ok then Move(s, t, tx.(pc := Failing))
    else
      Move(s, t, tx.(pc := Emitting(pc.ids, pc.emitted + 1,
                                    pc.buffer + [OutboxRow(OrderStatusUpdated, pc.ids[pc.emitted])])))
  }

  function MarkStep(s: State, t: TxId, ok: bool): State
    requires t in s.txs && s.txs[t].Compensate? && s.txs[t].pc.Emitting?
  {
    var tx, pc := s.txs[t], s.txs[t].pc;
    if pc.emitted < |pc.ids| then s
    else Move(s, t, tx.(pc := if ok then Marked(pc.ids, pc.buffer) else Failing))
  }

  function CommitStep(s: State, t: TxId, o: Outcome): State
    requires t in s.txs && s.txs[t].Compensate? && s.txs[t].pc.Marked?
  {
    var tx, pc, k := s.txs[t], s.txs[t].pc, KeyOf(s.txs[t]);
    var db := if o.NotRan? then s.db else
                Db(CancelRows(s.db.orders, pc.ids), s.db.outbox + pc.buffer,
                   s.db.inbox[k := InboxProcessed], s.db.applied + [k]);
    Move(s.(db := db), t, tx.(pc := Finished(o.Ran?)))
  }

  /** SaveFailed runs outside the transaction, after the rollback. */
  function SaveFailedStep(s: State, t: TxId, o: Outcome): State
    requires t in s.txs && s.txs[t].Compensate? && s.txs[t].pc.Failing?
  {
    var tx, k := s.txs[t], KeyOf(s.txs[t]);
    if !o.NotRan? && !InboxFree(s, t, k) then s
    else
      var written := !o.NotRan? && (k !in s.db.inbox || !s.db.inbox[k].InboxProcessed?);
      Move(if written then s.(db := s.db.(inbox := s.db.inbox[k := InboxFailed])) else s, t, tx.(pc := Finished(false)))
  }

  function CompensateStep(s: State, e: Event): State
    requires !e.StartSave? && !e.Deliver? && !e.InsertOrder? && !e.InsertEvent? && !e.CommitSave? && !e.Crash?
    requires e.t in s.txs && s.txs[e.t].Compensate?
  {
    var t, tx := e.t, s.txs[e.t];
    match e
    case BeginProcessing(_, ok) => if tx.pc.Opened? then BeginStep(s, t, ok) else s
    case StartCancel(_) => if tx.pc.Begun? then StartCancelStep(s, t) else s
    case CancelOrders(_, ok, ids) => if tx.pc.Cancelling? then CancelStep(s, t, ok, ids) else s
    case EmitEvent(_, ok) => if tx.pc.Emitting? then EmitStep(s, t, ok) else s
    case MarkProcessed(_, ok) => if tx.pc.Emitting? then MarkStep(s, t, ok) else s
    case CommitCompensation(_, o) => if tx.pc.Marked? then CommitStep(s, t, o) else s
    case CommitSkipped(_, o) => if tx.pc.Skipped? then Move(s, t, tx.(pc := Finished(o.Ran?))) else s
    case SaveFailed(_, o) => if tx.pc.Failing? then SaveFailedStep(s, t, o) else s
  }

  function Apply(s: State, e: Event): State {
    match e
    case StartSave(t, id, market) => if t in s.txs then s else Move(s, t, Save(id, market, SaveOpened))
    case Deliver(t, event, group, begun) =>
      if t in s.txs then s else Move(s, t, Compensate(event, group, if begun then Opened else Finished(false)))
    case Crash(t) => s.(txs := s.txs - {t})
    case InsertOrder(t, _) => if t in s.txs && s.txs[t].Save? then SaveStep(s, e) else s
    case InsertEvent(t, _) => if t in s.txs && s.txs[t].Save? then SaveStep(s, e) else s
    case CommitSave(t, _) => if t in s.txs && s.txs[t].Save? then SaveStep(s, e) else s
    case _ => if e.t in s.txs && s.txs[e.t].Compensate? then CompensateStep(s, e) else s
  }

  function Run(start: State, es: seq<Event>): State {
    if es == [] then start else Apply(Run(start, es[..|es| - 1]), es[|es| - 1])
  }
}
