/**
 CreateOrder as the source writes it: one call that performs the protocol's atomic steps in
 order while every other call and the environment run in between. The ghost trace records all
 steps, so the theorems about runs apply to what this code does.
 */
module OrderService {
  import opened Wrappers
  import opened RequestEncoding
  import opened CreateOrderProtocol
  import Safety = CreateOrderSafety
  import opened CreateOrderHistory

  datatype AcquireResult = Acquired | Existing(entry: Entry) | AcquireError

  /** At this point of a run the order, or the completed entry of the key, has this status. */
  predicate ShownAt(attempts: int, es: seq<Event>, k: Key, id: OrderId, status: OrderStatus) {
    var w := Run(Init(attempts), es);
    HasStatus(w, id, status) || (k in w.redis && w.redis[k] == Completed(id, status))
  }

  /** At this point of a run the recovery query finds the order, which has this status. */
  predicate FoundAt(attempts: int, es: seq<Event>, user: UserId, request: Request, since: int, id: OrderId, status: OrderStatus) {
    var w := Run(Init(attempts), es);
    IsFirstMatch(w.orders, user, request, since, id) && w.orders[id].status == status
  }

  /** At some point between the two runs the order, or the completed entry of the key, had this status. */
  ghost predicate ShownBetween(attempts: int, before: seq<Event>, after: seq<Event>, k: Key, id: OrderId, status: OrderStatus) {
    exists es :: before <= es <= after && ShownAt(attempts, es, k, id, status)
  }

  /** At some point between the two runs the recovery query found the order with this status. */
  ghost predicate FoundBetween(attempts: int, before: seq<Event>, after: seq<Event>, user: UserId, request: Request,
                               since: int, id: OrderId, status: OrderStatus)
  {
    exists es :: before <= es <= after && FoundAt(attempts, es, user, request, since, id, status)
  }

  /** At some point between the two runs the key held the entry. */
  ghost predicate EntryBetween(attempts: int, before: seq<Event>, after: seq<Event>, k: Key, entry: Entry) {
    exists es :: before <= es <= after && EntryAt(attempts, es, k, entry)
  }

  lemma FoundIsShown(attempts: int, before: seq<Event>, from: seq<Event>, after: seq<Event>, user: UserId, request: Request,
                     since: int, id: OrderId, status: OrderStatus)
    requires before <= from && FoundBetween(attempts, from, after, user, request, since, id, status)
    ensures ShownBetween(attempts, before, after, KeyFor(user, request), id, status)
  {
    var es :| from <= es <= after && FoundAt(attempts, es, user, request, since, id, status);
    assert ShownAt(attempts, es, KeyFor(user, request), id, status);
  }

  lemma EntryIsShown(attempts: int, before: seq<Event>, from: seq<Event>, after: seq<Event>, k: Key, id: OrderId, status: OrderStatus)
    requires before <= from && EntryBetween(attempts, from, after, k, Completed(id, status))
    ensures ShownBetween(attempts, before, after, k, id, status)
  {
    var es :| from <= es <= after && EntryAt(attempts, es, k, Completed(id, status));
    assert ShownAt(attempts, es, k, id, status);
  }

  lemma ShownWider(attempts: int, before: seq<Event>, from: seq<Event>, to: seq<Event>, after: seq<Event>,
                   k: Key, id: OrderId, status: OrderStatus)
    requires before <= from && to <= after && ShownBetween(attempts, from, to, k, id, status)
    ensures ShownBetween(attempts, before, after, k, id, status)
  {
    var es :| from <= es <= to && ShownAt(attempts, es, k, id, status);
  }

  /** At this point of a run the key holds the entry. */
  predicate EntryAt(attempts: int, es: seq<Event>, k: Key, entry: Entry) {
    var w := Run(Init(attempts), es);
    k in w.redis && w.redis[k] == entry
  }

  class OrderService {
    const attempts: int
    var world: World
    ghost var trace: seq<Event>

    ghost predicate Valid()
      reads this
    {
      world == Run(Init(attempts), trace) && world.attempts == attempts
    }

    predicate CallAt(c: CallId, user: UserId, request: Request, pc: Pc)
      reads this
    {
      c in world.calls && world.calls[c] == Call(user, request, pc)
    }

    constructor (attempts: int)
      ensures Valid() && trace == [] && world == Init(attempts) && this.attempts == attempts
    {
      this.attempts := attempts;
      world := Init(attempts);
      trace := [];
    }

    /** The key is taken, or seems to be free to anyone. */
    predicate Holds(k: Key)
      reads this
    {
      k in world.redis && (world.redis[k].Processing? || world.redis[k].Blank?)
    }

    /** The key holds the completed order. */
    predicate IsCompleted(k: Key, id: OrderId, status: OrderStatus)
      reads this
    {
      k in world.redis && world.redis[k] == Completed(id, status)
    }

    /** One atomic step, recorded. */
    method Step(e: Event)
      requires Valid()
      modifies this
      ensures Valid() && world == Apply(old(world), e) && trace == old(trace) + [e]
    {
      world := Apply(world, e);
      ghost var before := trace;
      trace := trace + [e];
      Safety.RunAppend(Init(attempts), before, e);
    }

    /** Anything the other calls and the environment may do; call c itself does not move. */
    method Interference(c: CallId)
      requires Valid()
      modifies this
      ensures Valid() && old(trace) <= trace
      ensures c in world.calls <==> c in old(world.calls)
      ensures c in world.calls ==> world.calls[c] == old(world.calls)[c]
    {
    }

    /** Store.acquire: the script, and one more try after an entry that is not JSON was deleted. */
    method Acquire(c: CallId, user: UserId, request: Request, stamp: int, retriedAfterCleanup: bool)
      returns (result: AcquireResult)
      requires Valid() && CallAt(c, user, request, Acquiring(stamp, retriedAfterCleanup))
      modifies this
      ensures Valid() && old(trace) <= trace
      ensures result.Acquired? ==> CallAt(c, user, request, Checking) && Holds(KeyFor(user, request))
      ensures result.AcquireError? ==> CallAt(c, user, request, Done(Failed))
      ensures result.Existing? ==>
                && !result.entry.Garbage? && !result.entry.Blank? && CallAt(c, user, request, OnExisting(result.entry, false))
                && EntryBetween(attempts, old(trace), trace, KeyFor(user, request), result.entry)
      decreases !retriedAfterCleanup
    {
      Interference(c);
      var key := KeyFor(user, request);
      var existing := if key in world.redis then world.redis[key] else Unknown;
      var absent := key !in world.redis;
      ghost var found := trace;
      var outcome: Outcome := *;
      Step(AcquireRun(c, outcome));
      if !outcome.Ran? {
        return AcquireError;
      }
      if absent || existing.Blank? {
        return Acquired;
      }
      if existing.Garbage? {
        var again, now := DeleteCorrupted(c, user, request, retriedAfterCleanup);
        if !again {
          return AcquireError;
        }
        result := Acquire(c, user, request, now, true);
        return;
      }
      assert EntryAt(attempts, found, key, existing);
      return Existing(existing);
    }

    /** The entry that is not JSON is deleted; again says whether acquire is tried once more. */
    method DeleteCorrupted(c: CallId, user: UserId, request: Request, retriedAfterCleanup: bool) returns (again: bool, now: int)
      requires Valid() && CallAt(c, user, request, DeletingGarbage(retriedAfterCleanup))
      modifies this
      ensures Valid() && old(trace) <= trace && now == world.now
      ensures again ==> !retriedAfterCleanup && KeyFor(user, request) !in world.redis
      ensures CallAt(c, user, request, if again then Acquiring(now, true) else Done(Failed))
    {
      Interference(c);
      var deleted: Outcome := *;
      now := world.now;
      Step(DeleteRun(c, deleted));
      again := deleted.Ran? && !retriedAfterCleanup;
    }

    /** FailCleanup: deletes the key so that the client may try again. */
    method FailCleanup(c: CallId, user: UserId, request: Request)
      requires Valid() && CallAt(c, user, request, CleaningUp)
      modifies this
      ensures Valid() && old(trace) <= trace && CallAt(c, user, request, Done(Failed))
    {
      Interference(c);
      var outcome: Outcome := *;
      Step(CleanupRun(c, outcome));
    }

    /** saveOrder: order and event in one transaction, so the commit is the only visible step. */
    method SaveOrder(c: CallId, user: UserId, request: Request) returns (id: OrderId, ok: bool)
      requires Valid() && CallAt(c, user, request, Checking)
      modifies this
      ensures Valid() && old(trace) <= trace
      ensures ok ==> CallAt(c, user, request, StartCompleting(world, id, Created))
      ensures ok ==> Safety.Placed(world, id, user, request) && world.orders[id].status == Created
      ensures ok ==> exists es :: old(trace) <= es <= trace && Run(Init(attempts), es).now == world.orders[id].createdAt
      ensures !ok ==> CallAt(c, user, request, CleaningUp)
    {
      Interference(c);
      id := *;
      Step(ChecksRun(c, true, id));
      ghost var checked := trace;
      assert Run(Init(attempts), checked).now == world.calls[c].pc.createdAt;
      Interference(c);
      var order := NewOrder(world.calls[c]);
      var outcome: Outcome := *;
      ok := outcome.Ran? && id !in world.orders && RowValid(order);
      Step(CommitRun(c, outcome));
    }

    /** Store.Complete: the script, and a plain write if the key was gone. */
    method Complete(c: CallId, user: UserId, request: Request, id: OrderId, status: OrderStatus, attempt: int)
      returns (ok: bool)
      requires Valid() && CallAt(c, user, request, Completing(id, status, attempt))
      modifies this
      ensures Valid() && old(trace) <= trace
      ensures ok ==> CallAt(c, user, request, Done(Ok(id, status))) && IsCompleted(KeyFor(user, request), id, status)
      ensures !ok ==> CallAt(c, user, request, NextAttempt(world, id, status, attempt))
    {
      Interference(c);
      var present := KeyFor(user, request) in world.redis;
      var outcome: Outcome := *;
      Step(CompleteRun(c, outcome));
      if !outcome.Ran? {
        return false;
      }
      ok := true;
      if !present {
        ok := Restore(c, user, request, id, status, attempt);
      }
    }

    /** The plain write of Store.Complete. */
    method Restore(c: CallId, user: UserId, request: Request, id: OrderId, status: OrderStatus, attempt: int)
      returns (ok: bool)
      requires Valid() && CallAt(c, user, request, Restoring(id, status, attempt))
      modifies this
      ensures Valid() && old(trace) <= trace
      ensures ok ==> CallAt(c, user, request, Done(Ok(id, status))) && IsCompleted(KeyFor(user, request), id, status)
      ensures !ok ==> CallAt(c, user, request, NextAttempt(world, id, status, attempt))
    {
      Interference(c);
      var restored: Outcome := *;
      Step(RestoreRun(c, restored));
      ok := restored.Ran?;
    }

    /** One round of completeIdempotencyChecking; it is the last one when the key is completed or the context is done. */
    method Attempt(c: CallId, user: UserId, request: Request, id: OrderId, status: OrderStatus, attempt: int)
      returns (over: bool, ok: bool)
      requires Valid() && CallAt(c, user, request, Completing(id, status, attempt))
      modifies this
      ensures Valid() && old(trace) <= trace
      ensures ok ==> over && IsCompleted(KeyFor(user, request), id, status)
      ensures CallAt(c, user, request, if over then Done(Ok(id, status)) else NextAttempt(world, id, status, attempt))
    {
      var cancelled: bool := *;
      if cancelled {
        Step(GiveUp(c));
        return true, false;
      }
      ok := Complete(c, user, request, id, status, attempt);
      if ok {
        return true, true;
      }
      if attempt < attempts {
        Interference(c);
        var cancelledWhileWaiting: bool := *;
        if cancelledWhileWaiting {
          Step(GiveUp(c));
          return true, false;
        }
      }
      return false, false;
    }

    /** completeIdempotencyChecking: bounded attempts, cut short by the context. */
    method CompleteIdempotencyChecking(c: CallId, user: UserId, request: Request, id: OrderId, status: OrderStatus)
      returns (ok: bool)
      requires Valid() && CallAt(c, user, request, StartCompleting(world, id, status))
      modifies this
      ensures Valid() && old(trace) <= trace && CallAt(c, user, request, Done(Ok(id, status)))
      ensures ok ==> IsCompleted(KeyFor(user, request), id, status)
    {
      var attempt := 1;
      while attempt <= attempts
        invariant Valid() && old(trace) <= trace && 1 <= attempt
        invariant attempt <= attempts ==> CallAt(c, user, request, Completing(id, status, attempt))
        invariant attempt > attempts ==> CallAt(c, user, request, Done(Ok(id, status)))
      {
        var over;
        over, ok := Attempt(c, user, request, id, status, attempt);
        if over {
          return;
        }
        attempt := attempt + 1;
      }
      return false;
    }

    /** The recovery query over the committed orders. */
    method FindOrderForRecovery(user: UserId, request: Request, since: int) returns (answer: QueryAnswer)
      ensures answer.Found? ==> IsFirstMatch(world.orders, user, request, since, answer.id)
      ensures answer.NotFound? ==> NoMatch(world.orders, user, request, since)
    {
      var failed: bool := *;
      if failed {
        return QueryFailed;
      }
      answer := NotFound;
      var orders := world.orders;
      var rest := orders.Keys;
      while rest != {}
        invariant rest <= orders.Keys
        invariant !answer.QueryFailed?
        invariant answer.NotFound? ==> forall i | i in orders && i !in rest :: !Matches(orders[i], user, request, since)
        invariant answer.Found? ==>
                    && answer.id in orders && answer.id !in rest
                    && Matches(orders[answer.id], user, request, since)
                    && forall i | i in orders && i !in rest && Matches(orders[i], user, request, since) ::
                         orders[answer.id].createdAt < orders[i].createdAt
                         || (orders[answer.id].createdAt == orders[i].createdAt && answer.id <= i)
        decreases |rest|
      {
        var i :| i in rest;
        var order := orders[i];
        if Matches(order, user, request, since)
           && (answer.NotFound? || order.createdAt < orders[answer.id].createdAt
               || (order.createdAt == orders[answer.id].createdAt && i < answer.id))
        {
          answer := Found(i);
        }
        rest := rest - {i};
      }
    }

    /** tryRecoverOrderFromProcessing. */
    method TryRecover(c: CallId, user: UserId, request: Request, startedAt: int) returns (reply: Reply)
      requires Valid() && CallAt(c, user, request, OnExisting(Processing(startedAt), false))
      modifies this
      ensures Valid() && old(trace) <= trace && CallAt(c, user, request, Done(reply))
      ensures reply.Ok? ==>
                FoundBetween(attempts, old(trace), trace, user, request, startedAt, reply.id, reply.status)
    {
      if startedAt == ZERO_TIME {
        return Failed;
      }
      Interference(c);
      var answer := FindOrderForRecovery(user, request, startedAt);
      var status := if answer.Found? then world.orders[answer.id].status else Created;
      assert answer.Found? ==> FoundAt(attempts, trace, user, request, startedAt, answer.id, status);
      Step(RecoverRun(c, answer));
      if !answer.Found? {
        return Failed;
      }
      var _ := CompleteIdempotencyChecking(c, user, request, answer.id, status);
      return Ok(answer.id, status);
    }

    /** The rest of CreateOrder, for a call that has acquired the key. */
    method PlaceOrder(c: CallId, user: UserId, request: Request) returns (reply: Reply)
      requires Valid() && CallAt(c, user, request, Checking)
      modifies this
      ensures Valid() && old(trace) <= trace && CallAt(c, user, request, Done(reply))
      ensures reply.Ok? ==> ShownBetween(attempts, old(trace), trace, KeyFor(user, request), reply.id, reply.status)
    {
      var withinLimit: bool := *;
      var marketTradable: bool := *;
      if !withinLimit || !marketTradable {
        Interference(c);
        Step(ChecksRun(c, false, 0));
        FailCleanup(c, user, request);
        return Failed;
      }
      var id, saved := SaveOrder(c, user, request);
      if !saved {
        FailCleanup(c, user, request);
        return Failed;
      }
      ghost var placed := trace;
      assert ShownBetween(attempts, placed, placed, KeyFor(user, request), id, Created) by {
        assert ShownAt(attempts, placed, KeyFor(user, request), id, Created);
      }
      var _ := CompleteIdempotencyChecking(c, user, request, id, Created);
      ShownWider(attempts, old(trace), placed, placed, trace, KeyFor(user, request), id, Created);
      return Ok(id, Created);
    }

    /**
     A successful reply names a committed order of this user with exactly the requested content,
     whatever ran in between; and it is the only one, if the key was spared.
     */
    method CreateOrder(c: CallId, user: UserId, request: Request) returns (reply: Reply)
      requires Valid() && c !in world.calls
      modifies this
      ensures Valid() && old(trace) <= trace && CallAt(c, user, request, Done(reply))
      ensures reply.Ok? ==> Safety.Placed(world, reply.id, user, request)
      ensures reply.Ok? ==> ShownBetween(attempts, old(trace), trace, KeyFor(user, request), reply.id, reply.status)
      ensures reply.Ok? && Safety.BenignRun(Init(attempts), trace, KeyFor(user, request)) ==>
                forall id | Safety.Placed(world, id, user, request) :: id == reply.id
    {
      reply := RunCall(c, user, request);
      Safety.ReplyNamesRequestedOrder(attempts, trace, c);
      if reply.Ok? && Safety.BenignRun(Init(attempts), trace, KeyFor(user, request)) {
        Safety.AtMostOneOrder(attempts, trace, user, request);
      }
    }

    /** The body of CreateOrder. */
    method RunCall(c: CallId, user: UserId, request: Request) returns (reply: Reply)
      requires Valid() && c !in world.calls
      modifies this
      ensures Valid() && old(trace) <= trace && CallAt(c, user, request, Done(reply))
      ensures reply.Ok? ==> ShownBetween(attempts, old(trace), trace, KeyFor(user, request), reply.id, reply.status)
    {
      var stamp := world.now;
      Step(Begin(c, user, request));
      ghost var begun := trace;
      var acquired := Acquire(c, user, request, stamp, false);
      match acquired
      case AcquireError =>
        return Failed;
      case Existing(Completed(id, status)) =>
        EntryIsShown(attempts, old(trace), begun, trace, KeyFor(user, request), id, status);
        return Ok(id, status);
      case Existing(Processing(startedAt)) =>
        ghost var before := trace;
        reply := TryRecover(c, user, request, startedAt);
        if reply.Ok? {
          FoundIsShown(attempts, old(trace), before, trace, user, request, startedAt, reply.id, reply.status);
        }
        return;
      case Existing(_) =>
        return Failed;
      case Acquired =>
        ghost var before := trace;
        reply := PlaceOrder(c, user, request);
        if reply.Ok? {
          ShownWider(attempts, old(trace), before, trace, trace, KeyFor(user, request), reply.id, reply.status);
        }
        return;
    }
  }
}
