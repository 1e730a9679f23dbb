/**
 The transactional outbox: rows, any number of workers, the broker and one clock. Each event
 is one SQL statement, one send or one step of a worker's loop; an event that is not possible
 in a state leaves it unchanged, so a run is any sequence of events.
 */
module OutboxProtocol {
  import opened Wrappers

  type RowId = nat
  type WorkerId = nat
  type Payload = seq<nat>

  datatype RowStatus = Pending | Processing | Published | Failed

  /** The columns of an outbox row. */
  datatype Row = Row(
    eventType: string,
    aggregate: nat,
    payload: Payload,
    status: RowStatus,
    retryCount: nat,
    availableAt: int,
    lockedAt: Option<int>)

  /** What happened to a row so far: claims, releases, and the claims whose holder has sent it. */
  datatype History = History(claims: nat, releases: nat, sends: nat, sent: set<nat>)

  datatype Message = Message(topic: string, key: nat, value: Payload)

  /** A claimed event in a worker's hands: the row as it was read, and which claim of it this is. */
  datatype Ticket = Ticket(id: RowId, number: nat, retryCount: nat, lockedAt: int)

  /** since is the instant at which a worker turns to marking; a retry is due some time after it. */
  datatype Pc =
    | Idle
    | Claiming
    | Claimed
    | Sending
    | Marking(published: bool, since: int)
    | Returning
    | Releasing(stuckBefore: int)

  /** due is the deadline of the call in progress. */
  datatype Worker = Worker(pc: Pc, queue: seq<Ticket>, batchStart: int, handled: nat, due: int)

  datatype Config = Config(
    batchSize: nat,
    batchTimeout: nat,
    processingTimeout: nat,
    pollInterval: nat,
    maxRetries: nat,
    createdTopic: string,
    updatedTopic: string)

  /** A release that took claim `number` of row id from a worker that still held it. */
  datatype Late = Late(id: RowId, number: nat, claimedAt: int, releasedAt: int)

  datatype State = State(
    now: int,
    rows: map<RowId, Row>,
    history: map<RowId, History>,
    workers: map<WorkerId, Worker>,
    acked: set<Message>,
    lates: set<Late>)

  datatype Event =
    | Insert(id: RowId, eventType: string, aggregate: nat, payload: Payload)
    | Tick(elapsed: nat)
    | StartBatch(w: WorkerId)
    | ClaimRun(w: WorkerId, ids: seq<RowId>, outcome: Outcome)
    | NextEvent(w: WorkerId, cancelled: bool)
    | SendRun(w: WorkerId, ok: bool)
    | MarkRun(w: WorkerId, outcome: Outcome)
    | StartRelease(w: WorkerId)
    | ReleaseRun(w: WorkerId, outcome: Outcome)
    | CrashWorker(w: WorkerId)

  const IDLE := Worker(Idle, [], 0, 0, 0)

  const Init := State(0, map[], map[], map[], {}, {})

  // ----- The store's statements -----

  /** SaveOutboxEvent. */
  function SaveRow(rows: map<RowId, Row>, id: RowId, eventType: string, aggregate: nat, payload: Payload, now: int)
    : map<RowId, Row>
  {
    rows[id := Row(eventType, aggregate, payload, Pending, 0, now, None)]
  }

  /** What ClaimPendingEvents may return: due pending rows, each once, at most a batch; SKIP LOCKED may leave some out. */
  predicate Claimable(rows: map<RowId, Row>, ids: seq<RowId>, limit: nat, now: int) {
    && |ids| <= limit
    && (forall i, j | 0 <= i < j < |ids| :: ids[i] != ids[j])
    && (forall id | id in ids :: id in rows && rows[id].status.Pending? && rows[id].availableAt <= now)
  }

  function ClaimRows(rows: map<RowId, Row>, ids: seq<RowId>, now: int): map<RowId, Row> {
    map id | id in rows :: if id in ids then rows[id].(status := Processing, lockedAt := Some(now)) else rows[id]
  }

  /** MarkPublished. */
  function PublishRow(rows: map<RowId, Row>, id: RowId): map<RowId, Row> {
    if id in rows && rows[id].status.Processing? then rows[id := rows[id].(status := Published, lockedAt := None)]
    else rows
  }

  /** ScheduleRetry. */
  function RetryRow(rows: map<RowId, Row>, id: RowId, nextRetryAt: int): map<RowId, Row> {
    if id in rows && rows[id].status.Processing? then
      rows[id := rows[id].(status := Pending, retryCount := rows[id].retryCount + 1,
                           availableAt := nextRetryAt, lockedAt := None)]
    else rows
  }

  /** MarkFailed. */
  function FailRow(rows: map<RowId, Row>, id: RowId): map<RowId, Row> {
    if id in rows && rows[id].status.Processing? then
      rows[id := rows[id].(status := Failed, retryCount := rows[id].retryCount + 1, lockedAt := None)]
    else rows
  }

  predicate Stuck(row: Row, stuckBefore: int) {
    row.status.Processing? && row.lockedAt.Some? && row.lockedAt.value < stuckBefore
  }

  /** ReleaseStuckEvents. */
  function ReleaseRows(rows: map<RowId, Row>, stuckBefore: int, now: int): map<RowId, Row> {
    map id | id in rows ::
      if Stuck(rows[id], stuckBefore) then rows[id].(status := Pending, lockedAt := None, availableAt := now)
      else rows[id]
  }

  // ----- The worker -----

  /** messageTopic: empty for an event type without a topic. */
  function MessageTopic(cfg: Config, eventType: string): string {
    if eventType == "order.created" then cfg.createdTopic
    else if eventType == "order.status.updated" then cfg.updatedTopic
    else ""
  }

  function MessageOf(cfg: Config, row: Row): Message {
    Message(MessageTopic(cfg, row.eventType), row.aggregate, row.payload)
  }

  function WorkerAt(s: State, w: WorkerId): Worker {
    if w in s.workers then s.workers[w] else IDLE
  }

  function Become(s: State, w: WorkerId, worker: Worker): State {
    s.(workers := s.workers[w := worker])
  }

  function Tickets(s: State, ids: seq<RowId>): seq<Ticket>
    requires forall id | id in ids :: id in s.rows && id in s.history
  {
    seq(|ids|, i requires 0 <= i < |ids| =>
      Ticket(ids[i], s.history[ids[i]].claims + 1, s.rows[ids[i]].retryCount, s.now))
  }

  function CountClaims(history: map<RowId, History>, ids: seq<RowId>): map<RowId, History> {
    map id | id in history :: if id in ids then history[id].(claims := history[id].claims + 1) else history[id]
  }

  predicate KeysAgree(s: State) {
    s.rows.Keys == s.history.Keys
  }

  function ClaimStep(cfg: Config, s: State, w: WorkerId, ids: seq<RowId>, o: Outcome): State
    requires w in s.workers && s.workers[w].pc.Claiming?
  {
    if o.NotRan? then Become(s, w, IDLE)
    else if !Claimable(s.rows, ids, cfg.batchSize, s.now) || !KeysAgree(s) then s
    else
      var s' := s.(rows := ClaimRows(s.rows, ids, s.now), history := CountClaims(s.history, ids));
      Become(s', w, if o.Ran? then s.workers[w].(pc := Claimed, queue := Tickets(s, ids)) else IDLE)
  }

  /** The top of processBatch's loop, and the choice made at the top of processEvent. */
  function NextStep(cfg: Config, s: State, w: WorkerId, cancelled: bool): State
    requires w in s.workers && (s.workers[w].pc.Claimed? || s.workers[w].pc.Returning?)
  {
    var worker := s.workers[w];
    if cancelled || worker.queue == [] || worker.queue[0].id !in s.rows then Become(s, w, IDLE)
    else
      var unsupported := MessageTopic(cfg, s.rows[worker.queue[0].id].eventType) == "";
      Become(s, w, worker.(pc := if unsupported then Marking(false, s.now) else Sending, due := s.now + cfg.batchTimeout))
  }

  function SendStep(cfg: Config, s: State, w: WorkerId, ok: bool): State
    requires w in s.workers && s.workers[w].pc.Sending? && s.workers[w].queue != []
    requires s.workers[w].queue[0].id in s.rows && s.workers[w].queue[0].id in s.history
  {
    var worker, ticket := s.workers[w], s.workers[w].queue[0];
    var h := s.history[ticket.id];
    var acked := if ok then s.acked + {MessageOf(cfg, s.rows[ticket.id])} else s.acked;
    var s' := s.(history := s.history[ticket.id := h.(sends := h.sends + 1, sent := h.sent + {ticket.number})],
                 acked := acked);
    Become(s', w, worker.(pc := Marking(ok, s.now), due := s.now + cfg.batchTimeout))
  }

  /** MarkPublished after a send, handleSendError after a failed one. */
  function MarkedRows(cfg: Config, s: State, ticket: Ticket, published: bool, since: int): map<RowId, Row> {
    if published then PublishRow(s.rows, ticket.id)
    else if ticket.retryCount >= cfg.maxRetries then FailRow(s.rows, ticket.id)
    else RetryRow(s.rows, ticket.id, since + (ticket.retryCount + 1) * cfg.pollInterval)
  }

  function MarkStep(cfg: Config, s: State, w: WorkerId, o: Outcome): State
    requires w in s.workers && s.workers[w].pc.Marking? && s.workers[w].queue != []
  {
    var worker := s.workers[w];
    var s' := if o.NotRan? then s
              else s.(rows := MarkedRows(cfg, s, worker.queue[0], worker.pc.published, worker.pc.since));
    Become(s', w, worker.(pc := Returning, queue := worker.queue[1..], handled := worker.handled + 1))
  }

  /** Some worker holds the latest claim of row id. */
  predicate HeldNow(s: State, id: RowId) {
    id in s.history &&
    exists w | w in s.workers ::
      exists i | 0 <= i < |s.workers[w].queue| ::
        s.workers[w].queue[i].id == id && s.workers[w].queue[i].number == s.history[id].claims
  }

  function ReleaseStep(s: State, w: WorkerId, o: Outcome): State
    requires w in s.workers && s.workers[w].pc.Releasing?
  {
    var stuckBefore := s.workers[w].pc.stuckBefore;
    var s' := if o.NotRan? then s else s.(
                rows := ReleaseRows(s.rows, stuckBefore, s.now),
                history := map id | id in s.history ::
                  if id in s.rows && Stuck(s.rows[id], stuckBefore)
                  then s.history[id].(releases := s.history[id].releases + 1) else s.history[id],
                lates := s.lates + set id | id in s.rows && Stuck(s.rows[id], stuckBefore) && HeldNow(s, id) ::
                  Late(id, s.history[id].claims, s.rows[id].lockedAt.value, s.now));
    Become(s', w, IDLE)
  }

  function Apply(cfg: Config, s: State, e: Event): State {
    match e
    case Insert(id, eventType, aggregate, payload) =>
      if id in s.rows || id in s.history then s
      else s.(rows := SaveRow(s.rows, id, eventType, aggregate, payload, s.now),
              history := s.history[id := History(0, 0, 0, {})])
    case Tick(elapsed) => s.(now := s.now + elapsed)
    case StartBatch(w) =>
      if WorkerAt(s, w).pc.Idle? then Become(s, w, Worker(Claiming, [], s.now, 0, s.now + cfg.batchTimeout)) else s
    case ClaimRun(w, ids, o) =>
      if WorkerAt(s, w).pc.Claiming? then ClaimStep(cfg, s, w, ids, o) else s
    case NextEvent(w, cancelled) =>
      if WorkerAt(s, w).pc.Claimed? || WorkerAt(s, w).pc.Returning? then NextStep(cfg, s, w, cancelled) else s
    case SendRun(w, ok) =>
      if WorkerAt(s, w).pc.Sending? && s.workers[w].queue != []
         && s.workers[w].queue[0].id in s.rows && s.workers[w].queue[0].id in s.history
      then SendStep(cfg, s, w, ok) else s
    case MarkRun(w, o) =>
      if WorkerAt(s, w).pc.Marking? && s.workers[w].queue != [] then MarkStep(cfg, s, w, o) else s
    case StartRelease(w) =>
      if WorkerAt(s, w).pc.Idle?
      then Become(s, w, IDLE.(pc := Releasing(s.now - cfg.processingTimeout), due := s.now + cfg.batchTimeout)) else s
    case ReleaseRun(w, o) =>
      if WorkerAt(s, w).pc.Releasing? then ReleaseStep(s, w, o) else s
    case CrashWorker(w) => s.(workers := s.workers - {w})
  }

  function Run(cfg: Config, es: seq<Event>): State {
    if es == [] then Init else Apply(cfg, Run(cfg, es[..|es| - 1]), es[|es| - 1])
  }
}
