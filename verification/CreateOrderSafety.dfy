/**
 What every run of the order creation protocol keeps: replies name orders with the requested
 content, and one request by one user makes at most one order.
 */
module CreateOrderSafety {
  import opened Wrappers
  import opened RequestEncoding
  import opened CreateOrderProtocol

  // ----- Every successful reply names an order with the requested content -----

  predicate Names(w: World, id: OrderId, k: Key) {
    id in w.orders && HasKey(w.orders[id], k) && RowValid(w.orders[id])
  }

  predicate PcNamesOrder(w: World, call: Call) {
    match call.pc
    case Completing(id, _, _) => Names(w, id, KeyOf(call))
    case Restoring(id, _, _) => Names(w, id, KeyOf(call))
    case Done(Ok(id, _)) => Names(w, id, KeyOf(call))
    case _ => true
  }

  predicate EntryNamesOrder(w: World, k: Key)
    requires k in w.redis
  {
    w.redis[k].Completed? ==> Names(w, w.redis[k].id, k)
  }

  /** A sent completion names the order it writes. */
  predicate CommandNamesOrder(w: World, command: Command) {
    command.CompleteKey? || command.RestoreKey? ==> Names(w, command.id, command.key)
  }

  ghost predicate Content(w: World) {
    && (forall command | command in w.sent :: CommandNamesOrder(w, command))
    && (forall k | k in w.redis :: EntryNamesOrder(w, k))
    && (forall c | c in w.calls :: PcNamesOrder(w, w.calls[c]))
    && (forall id | id in w.orders :: RowValid(w.orders[id]))
  }

  /** A step that keeps every order's content, writes only right entries and moves only call c. */
  lemma ContentStep(w: World, w': World, c: CallId)
    requires Content(w)
    requires forall id, k | Names(w, id, k) :: Names(w', id, k)
    requires forall id | id in w'.orders :: RowValid(w'.orders[id])
    requires forall k | k in w'.redis :: EntryNamesOrder(w', k) || (k in w.redis && w'.redis[k] == w.redis[k])
    requires forall d | d in w'.calls && d != c :: d in w.calls && w'.calls[d] == w.calls[d]
    requires c in w'.calls ==> PcNamesOrder(w', w'.calls[c])
    requires forall command | command in w'.sent :: command in w.sent || CommandNamesOrder(w', command)
    ensures Content(w')
  {
    forall command | command in w'.sent ensures CommandNamesOrder(w', command) {
      assert command in w.sent ==> CommandNamesOrder(w, command);
    }
    forall d | d in w'.calls && d != c ensures PcNamesOrder(w', w'.calls[d]) {
      assert PcNamesOrder(w, w.calls[d]);
    }
    forall k | k in w'.redis ensures EntryNamesOrder(w', k) {
      assert k in w.redis ==> EntryNamesOrder(w, k);
    }
  }

  lemma ContentKept(w: World, e: Event)
    requires Content(w)
    ensures Content(Apply(w, e))
  {
    if ByEnvironment(e) {
      EnvironmentKeepsContent(w, e);
    } else if e.Begin? {
      ContentStep(w, Apply(w, e), e.c);
    } else if At(w, e.c) {
      CallKeepsContent(w, e);
    }
  }

  lemma EnvironmentKeepsContent(w: World, e: Event)
    requires Content(w)
    requires ByEnvironment(e)
    ensures Content(Apply(w, e))
  {
    if e.Again? && e.command in w.sent {
      assert CommandNamesOrder(w, e.command);
      assert e.command.TakeKey? && e.command.key in w.redis ==> EntryNamesOrder(w, e.command.key);
    }
    EnvironmentContent(w, Apply(w, e));
  }

  /** Calls stay as they are, orders change their status only, new entries are unreadable, processing or right. */
  lemma EnvironmentContent(w: World, w': World)
    requires Content(w) && w'.calls == w.calls && w'.sent == w.sent && w'.orders.Keys == w.orders.Keys
    requires forall id | id in w.orders :: exists status :: w'.orders[id] == w.orders[id].(status := status)
    requires forall k | k in w'.redis ::
               || !w'.redis[k].Completed?
               || (k in w.redis && w'.redis[k] == w.redis[k])
               || Names(w, w'.redis[k].id, k)
    ensures Content(w')
  {
    forall id, k | Names(w, id, k) ensures Names(w', id, k) {
    }
    forall c | c in w'.calls ensures PcNamesOrder(w', w'.calls[c]) {
      assert PcNamesOrder(w, w.calls[c]);
    }
    forall k | k in w'.redis ensures EntryNamesOrder(w', k) {
      assert k in w.redis ==> EntryNamesOrder(w, k);
    }
    forall id | id in w'.orders ensures RowValid(w'.orders[id]) {
      assert RowValid(w.orders[id]);
    }
    forall command | command in w'.sent ensures CommandNamesOrder(w', command) {
      assert CommandNamesOrder(w, command);
    }
  }

  lemma CallKeepsContent(w: World, e: Event)
    requires Content(w)
    requires !ByEnvironment(e) && !e.Begin?
    requires At(w, e.c)
    ensures Content(CallStep(w, e))
  {
    var pc := w.calls[e.c].pc;
    if e.CommitRun? {
      if pc.Saving? {
        CommitKeepsContent(w, e.c, e.outcome);
      }
    } else if e.CompleteRun? {
      if pc.Completing? {
        CompletionKeepsContent(w, e.c, CompleteStep(w, e.c, e.outcome));
      }
    } else if e.RestoreRun? {
      if pc.Restoring? {
        CompletionKeepsContent(w, e.c, RestoreStep(w, e.c, e.outcome));
      }
    } else if e.AcquireRun? {
      if pc.Acquiring? {
        AcquireKeepsContent(w, e.c, e.outcome);
      }
    } else if e.RecoverRun? {
      if pc.Recovering? {
        RecoverKeepsContent(w, e.c, e.answer);
      }
    } else {
      QuietStepKeepsContent(w, e);
    }
  }

  /** A step of a completing call writes at most the entry that names the call's order. */
  lemma CompletionKeepsContent(w: World, c: CallId, w': World)
    requires Content(w) && At(w, c) && (w.calls[c].pc.Completing? || w.calls[c].pc.Restoring?)
    requires
      var call := w.calls[c];
      && w'.orders == w.orders
      && (w'.redis == w.redis || w'.redis == w.redis[KeyOf(call) := Completed(call.pc.id, call.pc.status)])
      && c in w'.calls && w'.calls == w.calls[c := w'.calls[c]] && KeyOf(w'.calls[c]) == KeyOf(call)
      && w'.sent == w.sent + Sends(KeyOf(call), w'.calls[c].pc)
      && (match w'.calls[c].pc
          case Completing(id, _, _) => id == call.pc.id
          case Restoring(id, _, _) => id == call.pc.id
          case Done(Ok(id, _)) => id == call.pc.id
          case _ => true)
    ensures Content(w')
  {
    assert PcNamesOrder(w, w.calls[c]);
    ContentStep(w, w', c);
  }

  lemma AcquireKeepsContent(w: World, c: CallId, o: Outcome)
    requires Content(w) && At(w, c) && w.calls[c].pc.Acquiring?
    ensures Content(AcquireStep(w, c, o))
  {
    var k := KeyOf(w.calls[c]);
    assert k in w.redis ==> EntryNamesOrder(w, k);
    ContentStep(w, AcquireStep(w, c, o), c);
  }

  /** A step that leaves the orders alone, writes no entry and sends no completion. */
  lemma PlainMoveKeepsContent(w: World, w': World, c: CallId)
    requires Content(w) && At(w, c)
    requires w'.orders == w.orders && w'.redis.Keys <= w.redis.Keys && (forall k | k in w'.redis :: w'.redis[k] == w.redis[k])
    requires c in w'.calls && w'.calls == w.calls[c := w'.calls[c]]
    requires PcNamesOrder(w, w'.calls[c]) && w'.sent <= w.sent + Sends(KeyOf(w'.calls[c]), w'.calls[c].pc)
    ensures Content(w')
  {
    ContentStep(w, w', c);
  }

  /** Recovery completes with an order that matches, so with the content of the key. */
  lemma RecoverKeepsContent(w: World, c: CallId, answer: QueryAnswer)
    requires Content(w) && At(w, c) && w.calls[c].pc.Recovering?
    ensures Content(RecoverStep(w, c, answer))
  {
    if RecoverStep(w, c, answer) != w {
      PlainMoveKeepsContent(w, RecoverStep(w, c, answer), c);
    }
  }

  /** The other steps do just that. */
  lemma QuietStepKeepsContent(w: World, e: Event)
    requires Content(w) && (e.DeleteRun? || e.ChecksRun? || e.CleanupRun? || e.GiveUp? || e.Crash?)
    requires At(w, e.c)
    ensures Content(CallStep(w, e))
  {
    assert PcNamesOrder(w, w.calls[e.c]);
    if CallStep(w, e) != w {
      PlainMoveKeepsContent(w, CallStep(w, e), e.c);
    }
  }

  lemma CommitKeepsContent(w: World, c: CallId, o: Outcome)
    requires Content(w) && At(w, c) && w.calls[c].pc.Saving?
    ensures Content(CommitStep(w, c, o))
  {
    var w' := CommitStep(w, c, o);
    assert forall id, k | Names(w, id, k) :: Names(w', id, k);
    ContentStep(w, w', c);
  }

  lemma {:induction false} ContentAlways(attempts: int, es: seq<Event>)
    ensures Content(Run(Init(attempts), es))
  {
    if es != [] {
      ContentAlways(attempts, es[..|es| - 1]);
      ContentKept(Run(Init(attempts), es[..|es| - 1]), es[|es| - 1]);
    }
  }

  /**
   In every run whatever (key expiry, corrupted entries, crashes, lost replies, ambiguous
   commits), a successful reply names a committed order of the caller with exactly the
   requested market, type, price and quantity.
   */
  lemma ReplyNamesRequestedOrder(attempts: int, es: seq<Event>, c: CallId)
    ensures
      var w := Run(Init(attempts), es);
      c in w.calls && w.calls[c].pc.Done? && w.calls[c].pc.reply.Ok? ==>
        var id := w.calls[c].pc.reply.id;
        id in w.orders && w.orders[id].user == w.calls[c].user && w.orders[id].request == w.calls[c].request
  {
    var w := Run(Init(attempts), es);
    ContentAlways(attempts, es);
    if c in w.calls && w.calls[c].pc.Done? && w.calls[c].pc.reply.Ok? {
      assert PcNamesOrder(w, w.calls[c]);
      EncodeInjective(w.orders[w.calls[c].pc.reply.id].request, w.calls[c].request);
    }
  }

  // ----- At most one order for one key -----

  /** Call c holds key k and has committed nothing. */
  predicate Owns(w: World, c: CallId, k: Key) {
    && c in w.calls
    && KeyOf(w.calls[c]) == k
    && (w.calls[c].pc.Checking? || w.calls[c].pc.Saving? || w.calls[c].pc.CleaningUp?)
  }

  predicate Ordered(w: World, id: OrderId, k: Key) {
    id in w.orders && HasKey(w.orders[id], k)
  }

  /** No call holds key k and no order of it exists. */
  predicate Unclaimed(w: World, k: Key) {
    && (forall c | c in w.calls :: !Owns(w, c, k))
    && (forall id | id in w.orders :: !Ordered(w, id, k))
  }

  /** A commit of call c, if it runs, places an order. */
  predicate Commits(w: World, c: CallId) {
    c in w.calls && w.calls[c].pc.Saving? && w.calls[c].pc.id !in w.orders && RowValid(NewOrder(w.calls[c]))
  }

  /**
   The environment may do this to key k: the key goes (it expires, or a DEL of it runs late or again) only
   while no call holds it and no order of it exists; an entry is not overwritten by something that looks
   like none; and no commit that places an order of it reports an error. Any other command may run late
   or again.
   */
  predicate Benign(w: World, e: Event, k: Key) {
    match e
    case Expire(key) => key == k ==> Unclaimed(w, k)
    case Corrupt(key, entry) => key == k && k in w.redis ==> !entry.Garbage? && !entry.Blank?
    case Again(DropKey(key)) => key == k && DropKey(k) in w.sent ==> Unclaimed(w, k)
    case CommitRun(c, RanLost) => Commits(w, c) ==> KeyOf(w.calls[c]) != k
    case _ => true
  }

  predicate BenignRun(start: World, es: seq<Event>, k: Key) {
    es == [] ||
    (BenignRun(start, es[..|es| - 1], k) && Benign(Run(start, es[..|es| - 1]), es[|es| - 1], k))
  }

  /** While a call owns the key: the entry is processing (or was made unreadable), older than the order to come, and no order exists. */
  ghost predicate OwnerInv(w: World, c: CallId, k: Key)
    requires Owns(w, c, k)
  {
    && k in w.redis
    && (w.redis[k].Processing? || w.redis[k].Unknown?)
    && (w.calls[c].pc.Saving? && w.redis[k].Processing? ==> w.redis[k].startedAt <= w.calls[c].pc.createdAt)
    && (forall id :: !Ordered(w, id, k))
    && (forall d :: Owns(w, d, k) ==> d == c)
  }

  /** Once an order exists the key stays, and its entry leads to that order. */
  ghost predicate OrderInv(w: World, id: OrderId, k: Key)
    requires Ordered(w, id, k)
  {
    && k in w.redis
    && (w.redis[k].Processing? || w.redis[k].Completed? || w.redis[k].Unknown?)
    && (w.redis[k].Processing? ==> w.redis[k].startedAt <= w.orders[id].createdAt)
    && (forall other :: Ordered(w, other, k) ==> other == id)
  }

  ghost predicate Single(w: World, k: Key) {
    && (forall c | Owns(w, c, k) :: OwnerInv(w, c, k))
    && (forall id | Ordered(w, id, k) :: OrderInv(w, id, k))
    && (k in w.redis ==> !w.redis[k].Garbage? && !w.redis[k].Blank?)
    && (forall stamp | TakeKey(k, stamp) in w.sent :: ZERO_TIME < stamp <= w.now)
    && (k in w.redis && w.redis[k].Processing? ==> ZERO_TIME < w.redis[k].startedAt <= w.now)
    && ZERO_TIME < w.now
    && forall c | c in w.calls && KeyOf(w.calls[c]) == k ::
         !w.calls[c].pc.DeletingGarbage?
         && (w.calls[c].pc.Acquiring? ==> ZERO_TIME < w.calls[c].pc.stamp <= w.now)
  }

  predicate Mine(w: World, c: CallId, k: Key) {
    c in w.calls && KeyOf(w.calls[c]) == k
  }

  /** Nothing that concerns key k has changed, except that time may have passed. */
  ghost predicate SameAt(w: World, w': World, k: Key) {
    && w.now <= w'.now
    && (k in w'.redis <==> k in w.redis)
    && (k in w.redis ==> w'.redis[k] == w.redis[k])
    && (forall stamp :: TakeKey(k, stamp) in w'.sent <==> TakeKey(k, stamp) in w.sent)
    && (forall id :: Ordered(w', id, k) <==> Ordered(w, id, k))
    && (forall id | Ordered(w, id, k) :: w'.orders[id].createdAt == w.orders[id].createdAt)
    && (forall c :: Mine(w', c, k) <==> Mine(w, c, k))
    && (forall c | Mine(w, c, k) :: w'.calls[c] == w.calls[c])
  }

  lemma SameAtKeepsSingle(w: World, w': World, k: Key)
    requires Single(w, k) && SameAt(w, w', k)
    ensures Single(w', k)
  {
    forall c ensures Owns(w', c, k) <==> Owns(w, c, k) {
      assert Mine(w', c, k) <==> Mine(w, c, k);
    }
    forall c | c in w'.calls && KeyOf(w'.calls[c]) == k ensures c in w.calls && w.calls[c] == w'.calls[c] {
      assert Mine(w', c, k) && Mine(w, c, k);
    }
  }

  lemma EnvironmentKeepsSingle(w: World, e: Event, k: Key)
    requires Single(w, k) && Content(w) && Benign(w, e, k) && ByEnvironment(e)
    ensures Single(Apply(w, e), k)
  {
    if e == Expire(k) || (e == Again(DropKey(k)) && DropKey(k) in w.sent) {
      DropKeepsSingle(w, k);
    } else if e.Again? && e.command in w.sent && e.command.key == k {
      AgainKeepsSingle(w, e.command, k);
    } else if e.Corrupt? && e.key == k {
      EntryKeepsSingle(w, Apply(w, e), k);
    } else {
      ElsewhereSameAt(w, e, k);
      SameAtKeepsSingle(w, Apply(w, e), k);
    }
  }

  lemma ElsewhereSameAt(w: World, e: Event, k: Key)
    requires Benign(w, e, k) && ByEnvironment(e)
    requires e.Again? && e.command in w.sent ==> e.command.key != k
    requires e.Corrupt? || e.Expire? ==> e.key != k
    ensures SameAt(w, Apply(w, e), k)
  {
    if e.SetStatus? && e.id in w.orders {
      assert HasKey(Apply(w, e).orders[e.id], k) <==> HasKey(w.orders[e.id], k);
    }
  }

  /** The key goes while nothing depends on it. */
  lemma DropKeepsSingle(w: World, k: Key)
    requires Single(w, k) && Unclaimed(w, k)
    ensures Single(w.(redis := w.redis - {k}), k)
  {
    var w' := w.(redis := w.redis - {k});
    assert forall c :: Owns(w', c, k) ==> Owns(w, c, k);
    assert forall id :: Ordered(w', id, k) ==> Ordered(w, id, k);
  }

  /** A command that runs late or again: a completion writes what is true, an acquisition leaves a key without an owner. */
  lemma AgainKeepsSingle(w: World, command: Command, k: Key)
    requires Single(w, k) && Content(w) && command in w.sent && command.key == k && !command.DropKey?
    ensures Single(w.(redis := Execute(w.redis, command)), k)
  {
    var w' := w.(redis := Execute(w.redis, command));
    assert CommandNamesOrder(w, command);
    assert command.TakeKey? ==> TakeKey(k, command.stamp) in w.sent;
    assert !command.TakeKey? ==> Ordered(w, command.id, k) && OrderInv(w, command.id, k);
    EntryKeepsSingle(w, w', k);
  }

  /** Only the entry changes: to unreadable, to one of an order that exists, or from none to processing. */
  lemma EntryKeepsSingle(w: World, w': World, k: Key)
    requires Single(w, k)
    requires w'.now == w.now && w'.calls == w.calls && w'.orders == w.orders && w'.sent == w.sent
    requires k in w.redis ==> k in w'.redis
    requires k in w'.redis && !(k in w.redis && w'.redis[k] == w.redis[k]) ==>
               || (k in w.redis && w'.redis[k].Unknown?)
               || (w'.redis[k].Completed? && exists id :: Ordered(w, id, k))
               || (k !in w.redis && w'.redis[k].Processing? && ZERO_TIME < w'.redis[k].startedAt <= w.now)
    ensures Single(w', k)
  {
    assert forall c :: Owns(w', c, k) <==> Owns(w, c, k);
    assert forall id :: Ordered(w', id, k) <==> Ordered(w, id, k);
  }

  lemma SingleKept(w: World, e: Event, k: Key)
    requires Single(w, k) && Content(w) && Benign(w, e, k)
    ensures Single(Apply(w, e), k)
  {
    if ByEnvironment(e) {
      EnvironmentKeepsSingle(w, e, k);
    } else if e.Begin? {
      BeginKeepsSingle(w, e.c, e.user, e.request, k);
    } else if At(w, e.c) {
      if KeyOf(w.calls[e.c]) == k {
        MyCallKeepsSingle(w, e, k);
      } else {
        OtherCallKeepsSingle(w, e, k);
      }
    }
  }

  lemma BeginKeepsSingle(w: World, c: CallId, user: UserId, request: Request, k: Key)
    requires Single(w, k)
    ensures Single(Apply(w, Begin(c, user, request)), k)
  {
    var w' := Apply(w, Begin(c, user, request));
    assert forall d :: Owns(w', d, k) <==> Owns(w, d, k);
    assert forall id :: Ordered(w', id, k) <==> Ordered(w, id, k);
  }

  /** A call changes its own place only. */
  lemma CallStepFrame(w: World, e: Event)
    requires !ByEnvironment(e) && !e.Begin?
    requires At(w, e.c)
    ensures
      var w', call := CallStep(w, e), w.calls[e.c];
      && w'.now == w.now
      && e.c in w'.calls
      && w'.calls == w.calls[e.c := w'.calls[e.c]]
      && w'.calls[e.c] == call.(pc := w'.calls[e.c].pc)
  {
    match e
    case AcquireRun(_, _) =>
    case DeleteRun(_, _) =>
    case ChecksRun(_, _, _) =>
    case CommitRun(_, _) =>
    case CleanupRun(_, _) =>
    case RecoverRun(_, _) =>
    case CompleteRun(_, _) =>
    case RestoreRun(_, _) =>
    case GiveUp(_) =>
    case Crash(_) =>
  }

  /** It sends the command of the place it goes to. */
  lemma CallStepSends(w: World, e: Event)
    requires !ByEnvironment(e) && !e.Begin?
    requires At(w, e.c)
    ensures
      var w', call := CallStep(w, e), w.calls[e.c];
      e.c in w'.calls && w.sent <= w'.sent <= w.sent + Sends(KeyOf(call), w'.calls[e.c].pc)
  {
  }

  /** It writes the entry of its own key and, by committing, its own order. */
  lemma CallStepWrites(w: World, e: Event)
    requires !ByEnvironment(e) && !e.Begin?
    requires At(w, e.c)
    ensures
      var w', call := CallStep(w, e), w.calls[e.c];
      && w'.redis - {KeyOf(call)} == w.redis - {KeyOf(call)}
      && (w'.orders == w.orders
          || (call.pc.Saving? && call.pc.id !in w.orders && w'.orders == w.orders[call.pc.id := NewOrder(call)]))
  {
  }

  lemma OtherCallKeepsSingle(w: World, e: Event, k: Key)
    requires Single(w, k)
    requires !ByEnvironment(e) && !e.Begin?
    requires At(w, e.c) && KeyOf(w.calls[e.c]) != k
    ensures Single(CallStep(w, e), k)
  {
    CallStepFrame(w, e);
    CallStepSends(w, e);
    CallStepWrites(w, e);
    OtherCallSameAt(w, CallStep(w, e), e.c, k);
    SameAtKeepsSingle(w, CallStep(w, e), k);
  }

  lemma OtherCallSameAt(w: World, w': World, c: CallId, k: Key)
    requires At(w, c) && KeyOf(w.calls[c]) != k
    requires w'.now == w.now && c in w'.calls && w'.calls == w.calls[c := w'.calls[c]]
    requires w'.calls[c] == w.calls[c].(pc := w'.calls[c].pc)
    requires w.sent <= w'.sent <= w.sent + Sends(KeyOf(w.calls[c]), w'.calls[c].pc)
    requires w'.redis - {KeyOf(w.calls[c])} == w.redis - {KeyOf(w.calls[c])}
    requires w'.orders == w.orders
             || (w.calls[c].pc.Saving? && w.calls[c].pc.id !in w.orders
                 && w'.orders == w.orders[w.calls[c].pc.id := NewOrder(w.calls[c])])
    ensures SameAt(w, w', k)
  {
    assert k in w'.redis <==> k in w'.redis - {KeyOf(w.calls[c])};
    assert k in w.redis <==> k in w.redis - {KeyOf(w.calls[c])};
    if k in w.redis {
      assert w'.redis[k] == (w'.redis - {KeyOf(w.calls[c])})[k];
    }
    assert KeyOf(w'.calls[c]) != k;
  }

  /** A step of a call that neither takes nor gives up the key: only an entry's completion can change. */
  lemma HarmlessKeepsSingle(w: World, w': World, c: CallId, k: Key)
    requires Single(w, k) && Mine(w, c, k) && !Owns(w, c, k)
    requires w'.now == w.now && w'.orders == w.orders
    requires c in w'.calls && w'.calls == w.calls[c := w'.calls[c]] && KeyOf(w'.calls[c]) == k
    requires !Owns(w', c, k) && !w'.calls[c].pc.DeletingGarbage? && !w'.calls[c].pc.Acquiring?
    requires w'.sent <= w.sent + Sends(k, w'.calls[c].pc)
    requires k in w.redis ==> k in w'.redis
    requires k !in w.redis && k in w'.redis ==> w'.redis[k].Completed? || w'.redis[k].Processing?
    requires k !in w.redis && k in w'.redis && w'.redis[k].Processing? ==> ZERO_TIME < w'.redis[k].startedAt <= w.now
    requires k in w.redis && w'.redis[k] != w.redis[k] ==>
               w'.redis[k].Completed? && exists id :: Ordered(w, id, k)
    ensures Single(w', k)
  {
    forall d ensures Owns(w', d, k) <==> Owns(w, d, k) {
      if d != c && d in w.calls {
        assert w'.calls[d] == w.calls[d];
      }
    }
    assert forall id :: Ordered(w', id, k) <==> Ordered(w, id, k);
  }

  lemma MyCallKeepsSingle(w: World, e: Event, k: Key)
    requires Single(w, k) && Content(w) && Benign(w, e, k)
    requires !ByEnvironment(e) && !e.Begin?
    requires At(w, e.c) && KeyOf(w.calls[e.c]) == k
    ensures Single(CallStep(w, e), k)
  {
    var pc := w.calls[e.c].pc;
    if e.AcquireRun? {
      if pc.Acquiring? {
        AcquireKeepsSingle(w, e.c, e.outcome, k);
      }
    } else if e.ChecksRun? {
      if pc.Checking? {
        ChecksKeepSingle(w, e.c, e.passed, e.id, k);
      }
    } else if e.CommitRun? {
      if pc.Saving? {
        CommitKeepsSingle(w, e.c, e.outcome, k);
      }
    } else if e.CleanupRun? {
      if pc.CleaningUp? {
        CleanupKeepsSingle(w, e.c, e.outcome, k);
      }
    } else if e.Crash? {
      if !pc.Done? {
        CrashKeepsSingle(w, e.c, k);
      }
    } else {
      QuietCallKeepsSingle(w, e, k);
    }
  }

  lemma QuietCallKeepsSingle(w: World, e: Event, k: Key)
    requires Single(w, k) && Content(w)
    requires e.DeleteRun? || e.RecoverRun? || e.CompleteRun? || e.RestoreRun? || e.GiveUp?
    requires At(w, e.c) && KeyOf(w.calls[e.c]) == k
    ensures Single(CallStep(w, e), k)
  {
    var pc := w.calls[e.c].pc;
    if e.CompleteRun? {
      if pc.Completing? {
        CompleteKeepsSingle(w, e.c, e.outcome, k);
      }
    } else if e.RestoreRun? {
      if pc.Restoring? {
        RestoreKeepsSingle(w, e.c, e.outcome, k);
      }
    } else if CallStep(w, e) != w {
      HarmlessKeepsSingle(w, CallStep(w, e), e.c, k);
    }
  }

  lemma CompleteKeepsSingle(w: World, c: CallId, o: Outcome, k: Key)
    requires Single(w, k) && Content(w) && Mine(w, c, k) && w.calls[c].pc.Completing?
    ensures Single(CompleteStep(w, c, o), k)
  {
    assert PcNamesOrder(w, w.calls[c]);
    assert Ordered(w, w.calls[c].pc.id, k);
    HarmlessKeepsSingle(w, CompleteStep(w, c, o), c, k);
  }

  lemma RestoreKeepsSingle(w: World, c: CallId, o: Outcome, k: Key)
    requires Single(w, k) && Content(w) && Mine(w, c, k) && w.calls[c].pc.Restoring?
    ensures Single(RestoreStep(w, c, o), k)
  {
    assert PcNamesOrder(w, w.calls[c]);
    assert Ordered(w, w.calls[c].pc.id, k);
    HarmlessKeepsSingle(w, RestoreStep(w, c, o), c, k);
  }

  lemma AcquireKeepsSingle(w: World, c: CallId, o: Outcome, k: Key)
    requires Single(w, k) && Mine(w, c, k) && w.calls[c].pc.Acquiring?
    ensures Single(AcquireStep(w, c, o), k)
  {
    var w' := AcquireStep(w, c, o);
    if o.Ran? && k !in w.redis {
      forall d ensures Owns(w', d, k) ==> d == c {
        if d != c && d in w.calls {
          assert w'.calls[d] == w.calls[d] && !Owns(w, d, k);
        }
      }
      assert forall id :: !Ordered(w, id, k);
      assert forall id :: Ordered(w', id, k) <==> Ordered(w, id, k);
    } else {
      HarmlessKeepsSingle(w, w', c, k);
    }
  }

  lemma ChecksKeepSingle(w: World, c: CallId, passed: bool, id: OrderId, k: Key)
    requires Single(w, k) && Mine(w, c, k) && w.calls[c].pc.Checking?
    ensures Single(ChecksStep(w, c, passed, id), k)
  {
    var w' := ChecksStep(w, c, passed, id);
    assert Owns(w, c, k);
    assert forall d :: Owns(w', d, k) <==> Owns(w, d, k);
    assert forall i :: Ordered(w', i, k) <==> Ordered(w, i, k);
  }

  lemma CommitKeepsSingle(w: World, c: CallId, o: Outcome, k: Key)
    requires Single(w, k) && Mine(w, c, k) && w.calls[c].pc.Saving? && (o.RanLost? ==> !Commits(w, c))
    ensures Single(CommitStep(w, c, o), k)
  {
    var w', id := CommitStep(w, c, o), w.calls[c].pc.id;
    assert Owns(w, c, k);
    forall d ensures Owns(w', d, k) ==> d == c && w'.orders == w.orders {
      if d != c && d in w.calls {
        assert w'.calls[d] == w.calls[d];
        assert Owns(w', d, k) ==> Owns(w, d, k);
      }
    }
    forall i ensures Ordered(w', i, k) ==> i == id && w'.orders != w.orders {
      assert !Ordered(w, i, k);
    }
  }

  lemma CleanupKeepsSingle(w: World, c: CallId, o: Outcome, k: Key)
    requires Single(w, k) && Mine(w, c, k) && w.calls[c].pc.CleaningUp?
    ensures Single(CleanupStep(w, c, o), k)
  {
    var w' := CleanupStep(w, c, o);
    assert Owns(w, c, k);
    assert forall d :: !Owns(w', d, k) by {
      forall d ensures !Owns(w', d, k) {
        if d != c && d in w.calls {
          assert w'.calls[d] == w.calls[d];
          assert Owns(w', d, k) ==> Owns(w, d, k);
        }
      }
    }
    assert forall i :: !Ordered(w', i, k) by {
      forall i ensures !Ordered(w', i, k) { assert !Ordered(w, i, k); }
    }
  }

  lemma CrashKeepsSingle(w: World, c: CallId, k: Key)
    requires Single(w, k) && Mine(w, c, k)
    ensures Single(Goto(w, c, Crashed), k)
  {
    var w' := Goto(w, c, Crashed);
    forall d ensures Owns(w', d, k) ==> Owns(w, d, k) {
      if d != c && d in w.calls {
        assert w'.calls[d] == w.calls[d];
      }
    }
    assert forall i :: Ordered(w', i, k) <==> Ordered(w, i, k);
  }

  lemma {:induction false} SingleAlong(start: World, es: seq<Event>, k: Key)
    requires Single(start, k) && Content(start) && BenignRun(start, es, k)
    ensures Single(Run(start, es), k) && Content(Run(start, es))
  {
    if es != [] {
      SingleAlong(start, es[..|es| - 1], k);
      ContentKept(Run(start, es[..|es| - 1]), es[|es| - 1]);
      SingleKept(Run(start, es[..|es| - 1]), es[|es| - 1], k);
    }
  }

  lemma SingleAlways(attempts: int, es: seq<Event>, k: Key)
    requires BenignRun(Init(attempts), es, k)
    ensures Single(Run(Init(attempts), es), k)
  {
    SingleAlong(Init(attempts), es, k);
  }

  /** A request that the table's checks accept. */
  predicate Valid(request: Request) {
    TypeValid(request.orderType) && request.quantity > 0
  }

  /** The key is free, or looks free to the script. */
  predicate LooksFree(w: World, k: Key) {
    k !in w.redis || w.redis[k].Blank?
  }

  predicate Placed(w: World, id: OrderId, user: UserId, request: Request) {
    id in w.orders && w.orders[id].user == user && w.orders[id].request == request
  }

  predicate Answered(w: World, c: CallId, user: UserId, request: Request) {
    && c in w.calls
    && w.calls[c].user == user && w.calls[c].request == request
    && w.calls[c].pc.Done? && w.calls[c].pc.reply.Ok?
  }

  /**
   In every interleaving of any number of calls by any users, with Redis commands that are lost, late
   or repeated: if the key of this request expires, or a DEL of it runs late or again, only while no call
   holds it and no order of it exists, its entry is not overwritten by garbage or the empty text, and no
   commit that places its order reports an error, then at most one order is placed for it and every
   successful reply to it names that order.
   */
  lemma AtMostOneOrder(attempts: int, es: seq<Event>, user: UserId, request: Request)
    requires BenignRun(Init(attempts), es, KeyFor(user, request))
    ensures
      var w := Run(Init(attempts), es);
      && (forall i, j | Placed(w, i, user, request) && Placed(w, j, user, request) :: i == j)
      && (forall c | Answered(w, c, user, request) :: Placed(w, w.calls[c].pc.reply.id, user, request))
  {
    var w, k := Run(Init(attempts), es), KeyFor(user, request);
    SingleAlways(attempts, es, k);
    assert forall i | Placed(w, i, user, request) :: Ordered(w, i, k);
    forall c | Answered(w, c, user, request) ensures Placed(w, w.calls[c].pc.reply.id, user, request) {
      ReplyNamesRequestedOrder(attempts, es, c);
    }
  }

  // ----- A committed order is found again -----

  predicate KeyReadable(w: World, k: Key) {
    k in w.redis ==> !w.redis[k].Unknown?
  }

  /** Call c runs alone: it acquires, recovers order id if it has to, and completes. */
  function Retry(w: World, c: CallId, id: OrderId): World {
    Apply(Apply(Apply(w, AcquireRun(c, Ran)), RecoverRun(c, Found(id))), CompleteRun(c, Ran))
  }

  /** The status it then answers with: that of the completed entry, else that of the order. */
  function KnownStatus(w: World, k: Key, id: OrderId): OrderStatus
    requires id in w.orders
  {
    if k in w.redis && w.redis[k].Completed? then w.redis[k].status else w.orders[id].status
  }

  /**
   Whatever happened to the call that placed the order (a crash right after the commit, every
   completion attempt failing), a later call for the same request that meets no fault returns
   its id, with the status of the completed entry or else of the order, exactly when the entry of the key
   has not become unreadable: the created_at >= started_at filter of the recovery query never hides it.
   */
  lemma RetryFindsPlacedOrder(attempts: int, es: seq<Event>, user: UserId, request: Request, id: OrderId, c: CallId)
    requires BenignRun(Init(attempts), es, KeyFor(user, request))
    requires
      var w := Run(Init(attempts), es);
      && Placed(w, id, user, request)
      && c in w.calls && w.calls[c].user == user && w.calls[c].request == request
      && w.calls[c].pc.Acquiring?
    ensures
      var w' := Retry(Run(Init(attempts), es), c, id);
      Answered(w', c, user, request) && w'.calls[c].pc.reply.id == id
      <==> KeyReadable(Run(Init(attempts), es), KeyFor(user, request))
    ensures
      var w, w' := Run(Init(attempts), es), Retry(Run(Init(attempts), es), c, id);
      KeyReadable(w, KeyFor(user, request)) ==>
        w'.calls[c].pc == Done(Ok(id, KnownStatus(w, KeyFor(user, request), id)))
  {
    SingleAlways(attempts, es, KeyFor(user, request));
    ContentAlways(attempts, es);
    RetryReturns(Run(Init(attempts), es), user, request, id, c);
  }

  /** The key of a placed order is completed with it, or processing since before it was created. */
  lemma RetryReturns(w: World, user: UserId, request: Request, id: OrderId, c: CallId)
    requires Single(w, KeyFor(user, request)) && Content(w) && Placed(w, id, user, request)
    requires c in w.calls && w.calls[c].user == user && w.calls[c].request == request && w.calls[c].pc.Acquiring?
    ensures Answered(Retry(w, c, id), c, user, request) && Retry(w, c, id).calls[c].pc.reply.id == id
            <==> KeyReadable(w, KeyFor(user, request))
    ensures KeyReadable(w, KeyFor(user, request)) ==>
              Retry(w, c, id).calls[c].pc == Done(Ok(id, KnownStatus(w, KeyFor(user, request), id)))
  {
    var k := KeyFor(user, request);
    assert Ordered(w, id, k) && OrderInv(w, id, k);
    var w1 := Apply(w, AcquireRun(c, Ran));
    assert w1 == AcquireStep(w, c, Ran);
    if w.redis[k].Processing? {
      var since := w.redis[k].startedAt;
      forall other | other in w.orders && Matches(w.orders[other], user, request, since) ensures other == id {
        assert Ordered(w, other, k);
      }
      assert AnswerRight(w1, c, Found(id));
      assert Apply(w1, RecoverRun(c, Found(id))) == RecoverStep(w1, c, Found(id));
    } else if w.redis[k].Completed? {
      assert EntryNamesOrder(w, k);
      assert Ordered(w, w.redis[k].id, k);
    } else {
      assert w1.calls[c].pc == Done(Failed);
    }
  }

  lemma RunAppend(start: World, es: seq<Event>, e: Event)
    ensures Run(start, es + [e]) == Apply(Run(start, es), e)
  {
    assert (es + [e])[..|es|] == es;
  }
}
