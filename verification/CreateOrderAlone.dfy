/**
 What one call does when nothing runs in between, for every fault of its own steps: its reply, the entry
 and the orders, in full.
 */
module CreateOrderAlone {
  import opened Wrappers
  import opened RequestEncoding
  import opened CreateOrderProtocol
  import opened CreateOrderSafety

  /** A new call has asked for the key. */
  function Asked(w: World, c: CallId, user: UserId, request: Request, o: Outcome): World {
    Apply(Apply(w, Begin(c, user, request)), AcquireRun(c, o))
  }

  predicate CallIs(w: World, c: CallId, user: UserId, request: Request, pc: Pc) {
    c in w.calls && w.calls[c] == Call(user, request, pc)
  }

  /** Only call c, the entry of key k and what was sent may differ. */
  predicate OnlyKey(w: World, w': World, c: CallId, k: Key) {
    && w'.now == w.now && w'.attempts == w.attempts && w'.orders == w.orders && w.sent <= w'.sent
    && w'.calls - {c} == w.calls - {c} && w'.redis - {k} == w.redis - {k}
  }

  /** A free key is taken with the present time if the script ran, and held if its reply arrived. */
  lemma AsksForFreeKey(w: World, c: CallId, user: UserId, request: Request, o: Outcome)
    requires c !in w.calls && KeyFor(user, request) !in w.redis
    ensures
      var w', k := Asked(w, c, user, request, o), KeyFor(user, request);
      && OnlyKey(w, w', c, k)
      && w'.redis == (if o.NotRan? then w.redis else w.redis[k := Processing(w.now)])
      && CallIs(w', c, user, request, if o.Ran? then Checking else Done(Failed))
  {
  }

  /** A key that is there stays as it is, and its entry decides. */
  lemma AsksForTakenKey(w: World, c: CallId, user: UserId, request: Request, o: Outcome)
    requires c !in w.calls && KeyFor(user, request) in w.redis
    ensures
      var w', entry := Asked(w, c, user, request, o), w.redis[KeyFor(user, request)];
      && OnlyKey(w, w', c, KeyFor(user, request)) && w'.redis == w.redis
      && CallIs(w', c, user, request,
                if !o.Ran? || entry.Unknown? || entry == Processing(ZERO_TIME) then Done(Failed)
                else if entry.Completed? then Done(Ok(entry.id, entry.status))
                else if entry.Processing? then Recovering(entry.startedAt)
                else if entry.Garbage? then DeletingGarbage(false)
                else Checking)
  {
  }

  /** An entry that is not JSON is deleted, and the key is asked for once more, with the time it is then. */
  lemma AsksOnceMore(w: World, c: CallId, user: UserId, request: Request, o: Outcome, p: Outcome)
    requires c !in w.calls && KeyFor(user, request) in w.redis && w.redis[KeyFor(user, request)].Garbage?
    ensures
      var k := KeyFor(user, request);
      var w1 := Apply(Asked(w, c, user, request, Ran), DeleteRun(c, o));
      var w2 := Apply(w1, AcquireRun(c, p));
      && OnlyKey(w, w1, c, k) && w1.redis == (if o.NotRan? then w.redis else w.redis - {k})
      && CallIs(w1, c, user, request, if o.Ran? then Acquiring(w.now, true) else Done(Failed))
      && (o.Ran? ==>
            && OnlyKey(w, w2, c, k) && w2.redis == (if p.NotRan? then w.redis - {k} else w.redis[k := Processing(w.now)])
            && CallIs(w2, c, user, request, if p.Ran? then Checking else Done(Failed)))
  {
  }

  /** If it is garbage again, it is deleted again, but the call fails. */
  lemma AsksNotTwiceMore(w: World, c: CallId, user: UserId, request: Request, stamp: int, o: Outcome)
    requires CallIs(w, c, user, request, Acquiring(stamp, true))
    requires KeyFor(user, request) in w.redis && w.redis[KeyFor(user, request)].Garbage?
    ensures
      var k := KeyFor(user, request);
      var w' := Apply(Apply(w, AcquireRun(c, Ran)), DeleteRun(c, o));
      && OnlyKey(w, w', c, k) && w'.redis == (if o.NotRan? then w.redis else w.redis - {k})
      && CallIs(w', c, user, request, Done(Failed))
  {
  }

  /** A call that was refused after it had the key gives the key back, unless its DEL does not run. */
  lemma RefusedGivesBack(w: World, c: CallId, user: UserId, request: Request, id: OrderId, o: Outcome)
    requires CallIs(w, c, user, request, Checking)
    ensures
      var w' := Apply(Apply(w, ChecksRun(c, false, id)), CleanupRun(c, o));
      && OnlyKey(w, w', c, KeyFor(user, request))
      && w'.redis == (if o.NotRan? then w.redis else w.redis - {KeyFor(user, request)})
      && CallIs(w', c, user, request, Done(Failed))
  {
  }

  /** The order that a call with this content places now. */
  function PlacedNow(w: World, user: UserId, request: Request): Order {
    Order(user, request, Created, w.now)
  }

  /** A call that passed its checks places its order with the present time, if its row is accepted and the commit runs. */
  lemma Places(w: World, c: CallId, user: UserId, request: Request, id: OrderId, o: Outcome)
    requires CallIs(w, c, user, request, Checking)
    ensures
      var w' := Apply(Apply(w, ChecksRun(c, true, id)), CommitRun(c, o));
      var written := !o.NotRan? && id !in w.orders && Valid(request);
      && w'.redis == w.redis && w'.now == w.now && w'.calls - {c} == w.calls - {c}
      && w'.orders == (if written then w.orders[id := PlacedNow(w, user, request)] else w.orders)
      && CallIs(w', c, user, request,
                if !(written && o.Ran?) then CleaningUp
                else if w.attempts >= 1 then Completing(id, Created, 1)
                else Done(Ok(id, Created)))
  {
  }

  /** A failed save gives the key back, unless its DEL does not run. */
  lemma FailedGivesBack(w: World, c: CallId, user: UserId, request: Request, o: Outcome)
    requires CallIs(w, c, user, request, CleaningUp)
    ensures
      var w' := Apply(w, CleanupRun(c, o));
      && OnlyKey(w, w', c, KeyFor(user, request))
      && w'.redis == (if o.NotRan? then w.redis else w.redis - {KeyFor(user, request)})
      && CallIs(w', c, user, request, Done(Failed))
  {
  }

  /** Recovery: an order that the query finds is completed with its present status, otherwise the call fails. */
  lemma Recovers(w: World, c: CallId, user: UserId, request: Request, since: int, answer: QueryAnswer)
    requires CallIs(w, c, user, request, Recovering(since))
    requires answer.Found? ==> IsFirstMatch(w.orders, user, request, since, answer.id)
    requires answer.NotFound? ==> NoMatch(w.orders, user, request, since)
    ensures
      var w' := Apply(w, RecoverRun(c, answer));
      && OnlyKey(w, w', c, KeyFor(user, request)) && w'.redis == w.redis
      && CallIs(w', c, user, request,
                if !answer.Found? then Done(Failed)
                else if w.attempts >= 1 then Completing(answer.id, w.orders[answer.id].status, 1)
                else Done(Ok(answer.id, w.orders[answer.id].status)))
  {
  }

  /** The query gives no other answer. */
  lemma QueryGivesNoOther(w: World, c: CallId, user: UserId, request: Request, since: int, id: OrderId)
    requires CallIs(w, c, user, request, Recovering(since))
    ensures !IsFirstMatch(w.orders, user, request, since, id) ==> Apply(w, RecoverRun(c, Found(id))) == w
    ensures !NoMatch(w.orders, user, request, since) ==> Apply(w, RecoverRun(c, NotFound)) == w
  {
  }

  /** The recovered order is the one with this content created first since then, of several the one with the least id. */
  lemma FirstMatchIsEarliest(orders: map<OrderId, Order>, user: UserId, request: Request, since: int, id: OrderId)
    requires IsFirstMatch(orders, user, request, since, id)
    ensures id in orders && orders[id].user == user && orders[id].request == request && since <= orders[id].createdAt
    ensures forall other | other in orders && orders[other].user == user && orders[other].request == request
                           && since <= orders[other].createdAt ::
              && orders[id].createdAt <= orders[other].createdAt
              && (orders[other].createdAt == orders[id].createdAt ==> id <= other)
  {
  }

  /** Nothing is found only if no order with this content was created since then. */
  lemma NoMatchIsNone(orders: map<OrderId, Order>, user: UserId, request: Request, since: int)
    ensures NoMatch(orders, user, request, since) <==>
            forall id | id in orders && orders[id].user == user && orders[id].request == request :: orders[id].createdAt < since
    ensures !NoMatch(orders, user, request, since) <==> exists id :: IsFirstMatch(orders, user, request, since, id)
  {
    if !NoMatch(orders, user, request, since) {
      var some :| some in orders && Matches(orders[some], user, request, since);
      var id := Earliest(orders, user, request, since, orders.Keys, some);
      assert IsFirstMatch(orders, user, request, since, id);
    }
  }

  lemma {:induction false} Earliest(orders: map<OrderId, Order>, user: UserId, request: Request, since: int,
                                    among: set<OrderId>, some: OrderId) returns (id: OrderId)
    requires among <= orders.Keys && some in orders && Matches(orders[some], user, request, since)
    ensures id in orders && Matches(orders[id], user, request, since)
    ensures forall other | (other in among || other == some) && Matches(orders[other], user, request, since) ::
              orders[id].createdAt < orders[other].createdAt
              || (orders[id].createdAt == orders[other].createdAt && id <= other)
    decreases |among|
  {
    id := some;
    if among != {} {
      var x :| x in among;
      id := Earliest(orders, user, request, since, among - {x}, some);
      if Matches(orders[x], user, request, since)
         && (orders[x].createdAt < orders[id].createdAt || (orders[x].createdAt == orders[id].createdAt && x < id)) {
        id := x;
      }
    }
  }

  /** A completion that runs writes the entry; once its reply arrives the call has its answer. */
  lemma Completes(w: World, c: CallId, user: UserId, request: Request, id: OrderId, status: OrderStatus, n: int, o: Outcome)
    requires CallIs(w, c, user, request, Completing(id, status, n)) && KeyFor(user, request) in w.redis
    ensures
      var w', k := Apply(w, CompleteRun(c, o)), KeyFor(user, request);
      && OnlyKey(w, w', c, k) && w'.redis == (if o.NotRan? then w.redis else w.redis[k := Completed(id, status)])
      && CallIs(w', c, user, request,
                if o.Ran? || n >= w.attempts then Done(Ok(id, status)) else Completing(id, status, n + 1))
  {
  }

  /** A key that was gone is written again. */
  lemma Restores(w: World, c: CallId, user: UserId, request: Request, id: OrderId, status: OrderStatus, n: int,
                 o: Outcome, p: Outcome)
    requires CallIs(w, c, user, request, Completing(id, status, n)) && KeyFor(user, request) !in w.redis
    ensures
      var k, w1 := KeyFor(user, request), Apply(w, CompleteRun(c, o));
      var w2, again := Apply(w1, RestoreRun(c, p)), if n >= w.attempts then Done(Ok(id, status)) else Completing(id, status, n + 1);
      && OnlyKey(w, w1, c, k) && w1.redis == w.redis
      && CallIs(w1, c, user, request, if o.Ran? then Restoring(id, status, n) else again)
      && (o.Ran? ==>
            && OnlyKey(w, w2, c, k) && w2.redis == (if p.NotRan? then w.redis else w.redis[k := Completed(id, status)])
            && CallIs(w2, c, user, request, if p.Ran? then Done(Ok(id, status)) else again))
  {
  }

  /** n completions that fail. */
  function Fails(w: World, c: CallId, n: nat): World {
    if n == 0 then w else Apply(Fails(w, c, n - 1), CompleteRun(c, NotRan))
  }

  /** After as many failed attempts as are configured, and not before, the order is returned all the same. */
  lemma {:induction false} GivesUpAtLast(w: World, c: CallId, user: UserId, request: Request, id: OrderId, status: OrderStatus, n: nat)
    requires CallIs(w, c, user, request, Completing(id, status, 1)) && 1 <= w.attempts && n <= w.attempts
    ensures
      var w' := Fails(w, c, n);
      && OnlyKey(w, w', c, KeyFor(user, request)) && w'.redis == w.redis
      && CallIs(w', c, user, request, if n < w.attempts then Completing(id, status, n + 1) else Done(Ok(id, status)))
  {
    if n > 0 {
      GivesUpAtLast(w, c, user, request, id, status, n - 1);
    }
  }

  /** A call whose context is done returns the order, a crashed one nothing, and neither touches anything else. */
  lemma Stops(w: World, c: CallId, user: UserId, request: Request, id: OrderId, status: OrderStatus, n: int)
    requires CallIs(w, c, user, request, Completing(id, status, n))
    ensures
      var given, crashed := Apply(w, GiveUp(c)), Apply(w, Crash(c));
      && OnlyKey(w, given, c, KeyFor(user, request)) && given.redis == w.redis
      && CallIs(given, c, user, request, Done(Ok(id, status)))
      && OnlyKey(w, crashed, c, KeyFor(user, request)) && crashed.redis == w.redis
      && CallIs(crashed, c, user, request, Crashed)
  {
  }

  /** An undisturbed call as a whole, for a key that is free. */
  function Undisturbed(w: World, c: CallId, user: UserId, request: Request, id: OrderId): World {
    Apply(Apply(Apply(Asked(w, c, user, request, Ran), ChecksRun(c, true, id)), CommitRun(c, Ran)), CompleteRun(c, Ran))
  }

  /** It places its order, completes the key with it and answers with it; nothing else changes. */
  lemma AloneCreates(w: World, c: CallId, user: UserId, request: Request, id: OrderId)
    requires c !in w.calls && KeyFor(user, request) !in w.redis && id !in w.orders && Valid(request) && w.attempts >= 1
    ensures
      var w' := Undisturbed(w, c, user, request, id);
      && w'.orders == w.orders[id := PlacedNow(w, user, request)]
      && w'.redis == w.redis[KeyFor(user, request) := Completed(id, Created)]
      && CallIs(w', c, user, request, Done(Ok(id, Created)))
      && w'.calls - {c} == w.calls - {c}
  {
    var w1 := Asked(w, c, user, request, Ran);
    AsksForFreeKey(w, c, user, request, Ran);
    Places(w1, c, user, request, id, Ran);
    var w2 := Apply(Apply(w1, ChecksRun(c, true, id)), CommitRun(c, Ran));
    Completes(w2, c, user, request, id, Created, 1, Ran);
    assert w2.redis == w.redis[KeyFor(user, request) := Processing(w.now)];
  }

  // ----- The environment -----

  /** Time passes, a key expires, an entry is spoilt, an order's status changes, a sent command runs again: each alone. */
  lemma EnvironmentDoes(w: World, elapsed: nat, k: Key, id: OrderId, status: OrderStatus)
    ensures Apply(w, Tick(elapsed)) == w.(now := w.now + elapsed)
    ensures Apply(w, Expire(k)) == w.(redis := w.redis - {k})
    ensures k in w.redis ==>
              && Apply(w, Corrupt(k, Garbage)) == w.(redis := w.redis[k := Garbage])
              && Apply(w, Corrupt(k, Unknown)) == w.(redis := w.redis[k := Unknown])
              && Apply(w, Corrupt(k, Blank)) == w.(redis := w.redis[k := Blank])
    ensures id in w.orders ==> Apply(w, SetStatus(id, status)) == w.(orders := w.orders[id := w.orders[id].(status := status)])
    ensures DropKey(k) in w.sent ==> Apply(w, Again(DropKey(k))) == w.(redis := w.redis - {k})
    ensures k in w.redis && CompleteKey(k, id, status) in w.sent ==>
              Apply(w, Again(CompleteKey(k, id, status))) == w.(redis := w.redis[k := Completed(id, status)])
    ensures k !in w.redis ==> Apply(w, Again(CompleteKey(k, id, status))) == w
    ensures k in w.redis ==> Apply(w, Again(TakeKey(k, elapsed))) == w
    ensures RestoreKey(k, id, status) in w.sent ==>
              Apply(w, Again(RestoreKey(k, id, status))) == w.(redis := w.redis[k := Completed(id, status)])
    ensures k !in w.redis && TakeKey(k, elapsed) in w.sent ==>
              Apply(w, Again(TakeKey(k, elapsed))) == w.(redis := w.redis[k := Processing(elapsed)])
  {
  }
}
