/**
 Idempotent order creation as a state machine. One Redis key per (user, request), the orders
 table and any number of CreateOrder calls. Each event is one atomic step of one call (a Lua
 script, a command, a query or a commit) or one step of the environment; an event that is not
 possible in a state leaves it unchanged, so a run is any sequence of events whatever. A Redis
 command, once sent, may run late or again at any time.
 */
module CreateOrderProtocol {
  import opened Wrappers
  import opened RequestEncoding

  type UserId = nat
  type OrderId = nat
  type CallId = nat

  /** time.Time{}, the stamp of an entry that has none. */
  const ZERO_TIME: int := 0

  datatype OrderStatus = Created | Pending | Filled | Cancelled

  datatype Order = Order(user: UserId, request: Request, status: OrderStatus, createdAt: int)

  datatype Key = Key(user: UserId, hash: string)

  /** A stored entry; Unknown has a status that is neither processing nor completed, Garbage is not JSON, Blank is empty. */
  datatype Entry =
    | Processing(startedAt: int)
    | Completed(id: OrderId, status: OrderStatus)
    | Unknown
    | Garbage
    | Blank

  datatype Reply = Ok(id: OrderId, status: OrderStatus) | Failed

  /** Where a call is: the atomic step it performs next, with the locals it needs. */
  datatype Pc =
    | Acquiring(stamp: int, retried: bool)
    | DeletingGarbage(retried: bool)
    | Checking
    | Saving(id: OrderId, createdAt: int)
    | CleaningUp
    | Recovering(startedAt: int)
    | Completing(id: OrderId, status: OrderStatus, attempt: int)
    | Restoring(id: OrderId, status: OrderStatus, attempt: int)
    | Done(reply: Reply)
    | Crashed

  datatype Call = Call(user: UserId, request: Request, pc: Pc)

  /** What a call sends to Redis. */
  datatype Command =
    | TakeKey(key: Key, stamp: int)
    | DropKey(key: Key)
    | CompleteKey(key: Key, id: OrderId, status: OrderStatus)
    | RestoreKey(key: Key, id: OrderId, status: OrderStatus)

  datatype QueryAnswer = Found(id: OrderId) | NotFound | QueryFailed

  datatype Event =
    | Begin(c: CallId, user: UserId, request: Request)
    | AcquireRun(c: CallId, outcome: Outcome)
    | DeleteRun(c: CallId, outcome: Outcome)
    | ChecksRun(c: CallId, passed: bool, id: OrderId)
    | CommitRun(c: CallId, outcome: Outcome)
    | CleanupRun(c: CallId, outcome: Outcome)
    | RecoverRun(c: CallId, answer: QueryAnswer)
    | CompleteRun(c: CallId, outcome: Outcome)
    | RestoreRun(c: CallId, outcome: Outcome)
    | GiveUp(c: CallId)
    | Crash(c: CallId)
    | Tick(elapsed: nat)
    | Expire(key: Key)
    | Corrupt(key: Key, entry: Entry)
    | SetStatus(id: OrderId, status: OrderStatus)
    | Again(command: Command)

  /** sent holds every command that was ever sent: each may still run, or run again. */
  datatype World = World(
    now: int,
    attempts: int,
    redis: map<Key, Entry>,
    orders: map<OrderId, Order>,
    calls: map<CallId, Call>,
    sent: set<Command>)

  function Init(attempts: int): World {
    World(1, attempts, map[], map[], map[], {})
  }

  function KeyFor(user: UserId, request: Request): Key {
    Key(user, Encode(request))
  }

  function KeyOf(call: Call): Key {
    KeyFor(call.user, call.request)
  }

  predicate HasKey(o: Order, k: Key) {
    KeyFor(o.user, o.request) == k
  }

  /** The table's check constraints. */
  predicate RowValid(o: Order) {
    TypeValid(o.request.orderType) && o.request.quantity > 0
  }

  /** The WHERE clause of the recovery query. */
  predicate Matches(o: Order, user: UserId, request: Request, since: int) {
    o.user == user && o.request == request && o.createdAt >= since
  }

  /** WHERE, ORDER BY created_at, id, LIMIT 1. */
  predicate IsFirstMatch(orders: map<OrderId, Order>, user: UserId, request: Request, since: int, id: OrderId) {
    && id in orders
    && Matches(orders[id], user, request, since)
    && forall other | other in orders && Matches(orders[other], user, request, since) ::
         orders[id].createdAt < orders[other].createdAt
         || (orders[id].createdAt == orders[other].createdAt && id <= other)
  }

  predicate NoMatch(orders: map<OrderId, Order>, user: UserId, request: Request, since: int) {
    forall id | id in orders :: !Matches(orders[id], user, request, since)
  }

  predicate At(w: World, c: CallId) {
    c in w.calls
  }

  /** The command a call at this place sends. */
  function Sends(k: Key, pc: Pc): set<Command> {
    match pc
    case Acquiring(stamp, _) => {TakeKey(k, stamp)}
    case DeletingGarbage(_) => {DropKey(k)}
    case CleaningUp => {DropKey(k)}
    case Completing(id, status, _) => {CompleteKey(k, id, status)}
    case Restoring(id, status, _) => {RestoreKey(k, id, status)}
    case _ => {}
  }

  /** What a command does to the keys: the scripts, DEL and SET. */
  function Execute(redis: map<Key, Entry>, command: Command): map<Key, Entry> {
    match command
    case TakeKey(k, stamp) => if k in redis then redis else redis[k := Processing(stamp)]
    case DropKey(k) => redis - {k}
    case CompleteKey(k, id, status) => if k in redis then redis[k := Completed(id, status)] else redis
    case RestoreKey(k, id, status) => redis[k := Completed(id, status)]
  }

  function Goto(w: World, c: CallId, pc: Pc): World
    requires At(w, c)
  {
    w.(calls := w.calls[c := w.calls[c].(pc := pc)], sent := w.sent + Sends(KeyOf(w.calls[c]), pc))
  }

  /** What an existing entry makes the call do next; an empty one looks like none. */
  function OnExisting(entry: Entry, retried: bool): Pc {
    match entry
    case Blank => Checking
    case Garbage => DeletingGarbage(retried)
    case Completed(id, status) => Done(Ok(id, status))
    case Unknown => Done(Failed)
    case Processing(startedAt) => if startedAt == ZERO_TIME then Done(Failed) else Recovering(startedAt)
  }

  function AcquireStep(w: World, c: CallId, o: Outcome): World
    requires At(w, c) && w.calls[c].pc.Acquiring?
  {
    var call := w.calls[c];
    var k := KeyOf(call);
    if o.NotRan? then Goto(w, c, Done(Failed))
    else if k !in w.redis then
      Goto(w.(redis := Execute(w.redis, TakeKey(k, call.pc.stamp))), c, if o.Ran? then Checking else Done(Failed))
    else if o.RanLost? then Goto(w, c, Done(Failed))
    else Goto(w, c, OnExisting(w.redis[k], call.pc.retried))
  }

  function DeleteStep(w: World, c: CallId, o: Outcome): World
    requires At(w, c) && w.calls[c].pc.DeletingGarbage?
  {
    var call := w.calls[c];
    var w' := if o.NotRan? then w else w.(redis := Execute(w.redis, DropKey(KeyOf(call))));
    Goto(w', c, if o.Ran? && !call.pc.retried then Acquiring(w.now, true) else Done(Failed))
  }

  function ChecksStep(w: World, c: CallId, passed: bool, id: OrderId): World
    requires At(w, c)
  {
    Goto(w, c, if passed then Saving(id, w.now) else CleaningUp)
  }

  /** The first completion attempt, if the configuration allows any. */
  function StartCompleting(w: World, id: OrderId, status: OrderStatus): Pc {
    if 1 <= w.attempts then Completing(id, status, 1) else Done(Ok(id, status))
  }

  function NextAttempt(w: World, id: OrderId, status: OrderStatus, attempt: int): Pc {
    if attempt < w.attempts then Completing(id, status, attempt + 1) else Done(Ok(id, status))
  }

  function NewOrder(call: Call): Order
    requires call.pc.Saving?
  {
    Order(call.user, call.request, Created, call.pc.createdAt)
  }

  function CommitStep(w: World, c: CallId, o: Outcome): World
    requires At(w, c) && w.calls[c].pc.Saving?
  {
    var order, id := NewOrder(w.calls[c]), w.calls[c].pc.id;
    if o.NotRan? || id in w.orders || !RowValid(order) then Goto(w, c, CleaningUp)
    else
      Goto(w.(orders := w.orders[id := order]), c,
           if o.Ran? then StartCompleting(w, id, Created) else CleaningUp)
  }

  function CleanupStep(w: World, c: CallId, o: Outcome): World
    requires At(w, c)
  {
    Goto(if o.NotRan? then w else w.(redis := Execute(w.redis, DropKey(KeyOf(w.calls[c])))), c, Done(Failed))
  }

  predicate AnswerRight(w: World, c: CallId, answer: QueryAnswer)
    requires At(w, c) && w.calls[c].pc.Recovering?
  {
    var call := w.calls[c];
    match answer
    case Found(id) => IsFirstMatch(w.orders, call.user, call.request, call.pc.startedAt, id)
    case NotFound => NoMatch(w.orders, call.user, call.request, call.pc.startedAt)
    case QueryFailed => true
  }

  function RecoverStep(w: World, c: CallId, answer: QueryAnswer): World
    requires At(w, c) && w.calls[c].pc.Recovering?
  {
    if !AnswerRight(w, c, answer) then w
    else if answer.Found? then Goto(w, c, StartCompleting(w, answer.id, w.orders[answer.id].status))
    else Goto(w, c, Done(Failed))
  }

  /** The complete script: it keeps the remaining TTL and reports a key that is gone. */
  function CompleteStep(w: World, c: CallId, o: Outcome): World
    requires At(w, c) && w.calls[c].pc.Completing?
  {
    var pc, k := w.calls[c].pc, KeyOf(w.calls[c]);
    var w' := if o.NotRan? then w else w.(redis := Execute(w.redis, CompleteKey(k, pc.id, pc.status)));
    Goto(w', c,
         if !o.Ran? then NextAttempt(w, pc.id, pc.status, pc.attempt)
         else if k in w.redis then Done(Ok(pc.id, pc.status))
         else Restoring(pc.id, pc.status, pc.attempt))
  }

  function RestoreStep(w: World, c: CallId, o: Outcome): World
    requires At(w, c) && w.calls[c].pc.Restoring?
  {
    var pc, k := w.calls[c].pc, KeyOf(w.calls[c]);
    var w' := if o.NotRan? then w else w.(redis := Execute(w.redis, RestoreKey(k, pc.id, pc.status)));
    Goto(w', c, if o.Ran? then Done(Ok(pc.id, pc.status)) else NextAttempt(w, pc.id, pc.status, pc.attempt))
  }

  /** A step of no call: time, keys that expire or are overwritten, orders that move on, commands that run late or again. */
  predicate ByEnvironment(e: Event) {
    e.Tick? || e.Expire? || e.Corrupt? || e.SetStatus? || e.Again?
  }

  function CallStep(w: World, e: Event): World
    requires !ByEnvironment(e) && !e.Begin?
    requires At(w, e.c)
  {
    var pc := w.calls[e.c].pc;
    match e
    case AcquireRun(c, o) => if pc.Acquiring? then AcquireStep(w, c, o) else w
    case DeleteRun(c, o) => if pc.DeletingGarbage? then DeleteStep(w, c, o) else w
    case ChecksRun(c, passed, id) => if pc.Checking? then ChecksStep(w, c, passed, id) else w
    case CommitRun(c, o) => if pc.Saving? then CommitStep(w, c, o) else w
    case CleanupRun(c, o) => if pc.CleaningUp? then CleanupStep(w, c, o) else w
    case RecoverRun(c, answer) => if pc.Recovering? then RecoverStep(w, c, answer) else w
    case CompleteRun(c, o) => if pc.Completing? then CompleteStep(w, c, o) else w
    case RestoreRun(c, o) => if pc.Restoring? then RestoreStep(w, c, o) else w
    case GiveUp(c) => if pc.Completing? then Goto(w, c, Done(Ok(pc.id, pc.status))) else w
    case Crash(c) => if pc.Done? then w else Goto(w, c, Crashed)
  }

  function Apply(w: World, e: Event): World {
    match e
    case Begin(c, user, request) =>
      if c in w.calls then w
      else
        w.(calls := w.calls[c := Call(user, request, Acquiring(w.now, false))],
           sent := w.sent + {TakeKey(KeyFor(user, request), w.now)})
    case Tick(elapsed) => w.(now := w.now + elapsed)
    case Expire(k) => w.(redis := w.redis - {k})
    case Corrupt(k, entry) =>
      if k in w.redis && (entry.Garbage? || entry.Unknown? || entry.Blank?) then w.(redis := w.redis[k := entry]) else w
    case SetStatus(id, status) =>
      if id in w.orders then w.(orders := w.orders[id := w.orders[id].(status := status)]) else w
    case Again(command) => if command in w.sent then w.(redis := Execute(w.redis, command)) else w
    case _ => if At(w, e.c) then CallStep(w, e) else w
  }

  function Run(start: World, es: seq<Event>): World {
    if es == [] then start else Apply(Run(start, es[..|es| - 1]), es[|es| - 1])
  }
}
