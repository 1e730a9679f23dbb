/**
 Where what a run holds comes from: the times and statuses of replies, entries and orders are those of
 some earlier state of the run.
 */
module CreateOrderHistory {
  import opened Wrappers
  import opened RequestEncoding
  import opened CreateOrderProtocol
  import opened CreateOrderSafety

  /** The order and status that a call completes, restores or replies with. */
  function Named(pc: Pc): Option<(OrderId, OrderStatus)> {
    match pc
    case Completing(id, status, _) => Some((id, status))
    case Restoring(id, status, _) => Some((id, status))
    case Done(Ok(id, status)) => Some((id, status))
    case _ => None
  }

  predicate HasStatus(w: World, id: OrderId, status: OrderStatus) {
    id in w.orders && w.orders[id].status == status
  }

  /** Call c of key k has begun, and the order, or the completed entry of the key, has this status now. */
  predicate Shows(w: World, c: CallId, k: Key, id: OrderId, status: OrderStatus) {
    c in w.calls && (HasStatus(w, id, status) || (k in w.redis && w.redis[k] == Completed(id, status)))
  }

  /** A call of key k names this order with this status. */
  predicate CallNames(w: World, k: Key, c: CallId, id: OrderId, status: OrderStatus) {
    c in w.calls && KeyOf(w.calls[c]) == k && Named(w.calls[c].pc) == Some((id, status))
  }

  /** At this very time a call of key k sends its acquisition. */
  predicate Takes(w: World, k: Key, c: CallId, stamp: int) {
    c in w.calls && KeyOf(w.calls[c]) == k && w.calls[c].pc.Acquiring? && w.calls[c].pc.stamp == stamp == w.now
  }

  /** At this very time a call with this content has passed its checks and will save this order. */
  predicate WillSave(w: World, c: CallId, id: OrderId, order: Order) {
    c in w.calls && w.calls[c] == Call(order.user, order.request, Saving(id, order.createdAt)) && order.createdAt == w.now
  }

  // ----- In some earlier state of a run -----

  function Past(attempts: int, es: seq<Event>, i: nat): World
    requires i <= |es|
  {
    Run(Init(attempts), es[..i])
  }

  ghost predicate Shown(attempts: int, es: seq<Event>, c: CallId, k: Key, id: OrderId, status: OrderStatus) {
    exists i: nat | i <= |es| :: Shows(Past(attempts, es, i), c, k, id, status)
  }

  ghost predicate WasNamed(attempts: int, es: seq<Event>, k: Key, id: OrderId, status: OrderStatus) {
    exists i: nat, c | i <= |es| :: CallNames(Past(attempts, es, i), k, c, id, status)
  }

  ghost predicate WasTaken(attempts: int, es: seq<Event>, k: Key, stamp: int) {
    exists i: nat, c | i <= |es| :: Takes(Past(attempts, es, i), k, c, stamp)
  }

  ghost predicate WasSaved(attempts: int, es: seq<Event>, id: OrderId, order: Order) {
    exists i: nat, c | i <= |es| :: WillSave(Past(attempts, es, i), c, id, order)
  }

  lemma PastStays(attempts: int, es: seq<Event>, e: Event)
    ensures forall i: nat | i <= |es| :: Past(attempts, es + [e], i) == Past(attempts, es, i)
    ensures Past(attempts, es + [e], |es| + 1) == Apply(Past(attempts, es, |es|), e)
  {
    forall i: nat | i <= |es| ensures Past(attempts, es + [e], i) == Past(attempts, es, i) {
      assert (es + [e])[..i] == es[..i];
    }
    assert (es + [e])[..|es| + 1] == es + [e] && (es + [e])[..|es|] == es && es[..|es|] == es;
  }

  // ----- Single steps -----

  /** What a call names it named before, or it shows now or just before. */
  lemma StepNames(w: World, e: Event, c: CallId)
    requires c in Apply(w, e).calls && Named(Apply(w, e).calls[c].pc).Some?
    ensures
      var w', call := Apply(w, e), Apply(w, e).calls[c];
      var (id, status) := Named(call.pc).value;
      || CallNames(w, KeyOf(call), c, id, status)
      || Shows(w, c, KeyOf(call), id, status)
      || Shows(w', c, KeyOf(call), id, status)
  {
    if !ByEnvironment(e) && !e.Begin? && At(w, e.c) {
      CallStepFrame(w, e);
      if c == e.c {
        OwnStepNames(w, e);
      }
    }
  }

  lemma OwnStepNames(w: World, e: Event)
    requires !ByEnvironment(e) && !e.Begin?
    requires At(w, e.c)
    ensures
      var w' := CallStep(w, e);
      && At(w', e.c)
      && var k, named := KeyOf(w.calls[e.c]), Named(w'.calls[e.c].pc);
         named.Some? && named != Named(w.calls[e.c].pc) ==>
           Shows(w, e.c, k, named.value.0, named.value.1) || Shows(w', e.c, k, named.value.0, named.value.1)
  {
    match e
    case AcquireRun(_, _) =>
    case DeleteRun(_, _) =>
    case ChecksRun(_, _, _) =>
    case CommitRun(_, _) =>
    case CleanupRun(_, _) =>
    case RecoverRun(_, _) =>
    case CompleteRun(_, _) =>
    case RestoreRun(_, _) =>
    case GiveUp(_) =>
    case Crash(_) =>
  }

  /** A completion is sent by a call that names what it writes, an acquisition with the present time. */
  lemma StepSends(w: World, e: Event, command: Command)
    requires command in Apply(w, e).sent && command !in w.sent
    ensures command.CompleteKey? || command.RestoreKey? ==>
              exists c :: CallNames(Apply(w, e), command.key, c, command.id, command.status)
    ensures command.TakeKey? ==> exists c :: Takes(Apply(w, e), command.key, c, command.stamp)
  {
    if e.Begin? {
      assert Takes(Apply(w, e), command.key, e.c, command.stamp);
    } else if !ByEnvironment(e) && At(w, e.c) {
      OwnStepSends(w, e, command);
    }
  }

  lemma OwnStepSends(w: World, e: Event, command: Command)
    requires !ByEnvironment(e) && !e.Begin?
    requires At(w, e.c) && command in CallStep(w, e).sent && command !in w.sent
    ensures command.CompleteKey? || command.RestoreKey? ==>
              CallNames(CallStep(w, e), command.key, e.c, command.id, command.status)
    ensures command.TakeKey? ==> Takes(CallStep(w, e), command.key, e.c, command.stamp)
  {
    CallStepFrame(w, e);
    CallStepSends(w, e);
    assert command in Sends(KeyOf(w.calls[e.c]), CallStep(w, e).calls[e.c].pc);
    if command.TakeKey? {
      AcquiresNow(w, e);
    }
  }

  lemma AcquiresNow(w: World, e: Event)
    requires !ByEnvironment(e) && !e.Begin?
    requires At(w, e.c)
    ensures
      var w' := CallStep(w, e);
      At(w', e.c) && (w'.calls[e.c].pc.Acquiring? ==> w'.calls[e.c].pc == w.calls[e.c].pc || w'.calls[e.c].pc.stamp == w.now)
  {
  }

  /** A new entry is what a sent command writes, or what the environment spoils it with. */
  lemma StepWrites(w: World, e: Event, k: Key)
    requires k in Apply(w, e).redis && !(k in w.redis && w.redis[k] == Apply(w, e).redis[k])
    requires forall c | c in w.calls :: Sends(KeyOf(w.calls[c]), w.calls[c].pc) <= w.sent
    ensures
      match Apply(w, e).redis[k]
      case Processing(stamp) => TakeKey(k, stamp) in w.sent
      case Completed(id, status) => CompleteKey(k, id, status) in w.sent || RestoreKey(k, id, status) in w.sent
      case _ => true
  {
    if ByEnvironment(e) {
      EnvironmentWrites(w, e, k);
    } else if !e.Begin? && At(w, e.c) {
      CallWrites(w, e, k);
      assert Sends(KeyOf(w.calls[e.c]), w.calls[e.c].pc) <= w.sent;
    }
  }

  lemma EnvironmentWrites(w: World, e: Event, k: Key)
    requires ByEnvironment(e)
    ensures
      var redis := Apply(w, e).redis;
      k in redis && !(k in w.redis && w.redis[k] == redis[k]) ==>
        || redis[k].Unknown? || redis[k].Garbage? || redis[k].Blank?
        || (redis[k].Processing? && TakeKey(k, redis[k].startedAt) in w.sent)
        || (redis[k].Completed? &&
            (CompleteKey(k, redis[k].id, redis[k].status) in w.sent || RestoreKey(k, redis[k].id, redis[k].status) in w.sent))
  {
    match e
    case Again(command) =>
      match command {
        case TakeKey(_, _) =>
        case DropKey(_) =>
        case CompleteKey(_, _, _) =>
        case RestoreKey(_, _, _) =>
      }
    case _ =>
  }

  lemma CallWrites(w: World, e: Event, k: Key)
    requires !ByEnvironment(e) && !e.Begin?
    requires At(w, e.c)
    ensures
      var redis, k', pc := CallStep(w, e).redis, KeyOf(w.calls[e.c]), w.calls[e.c].pc;
      k in redis && !(k in w.redis && w.redis[k] == redis[k]) ==>
        && k == k'
        && (if pc.Acquiring? then redis[k] == Processing(pc.stamp)
            else (pc.Completing? || pc.Restoring?) && redis[k] == Completed(pc.id, pc.status))
  {
    match e
    case AcquireRun(_, _) =>
    case DeleteRun(_, _) =>
    case ChecksRun(_, _, _) =>
    case CommitRun(_, _) =>
    case CleanupRun(_, _) =>
    case RecoverRun(_, _) =>
    case CompleteRun(_, _) =>
    case RestoreRun(_, _) =>
    case GiveUp(_) =>
    case Crash(_) =>
  }

  /** A new order is that of a call that was about to commit it; an old one only changes its status. */
  lemma StepOrders(w: World, e: Event, id: OrderId)
    requires id in Apply(w, e).orders
    ensures
      if id in w.orders then Apply(w, e).orders[id].(status := w.orders[id].status) == w.orders[id]
      else
        && e.CommitRun? && !e.outcome.NotRan? && e.c in w.calls
        && w.calls[e.c].pc == Saving(id, Apply(w, e).orders[id].createdAt)
        && Apply(w, e).orders[id] == Order(w.calls[e.c].user, w.calls[e.c].request, Created, w.calls[e.c].pc.createdAt)
  {
  }

  // ----- Every run -----

  ghost predicate CallInv(attempts: int, es: seq<Event>, w: World, c: CallId)
    requires c in w.calls
  {
    var call := w.calls[c];
    && Sends(KeyOf(call), call.pc) <= w.sent
    && (Named(call.pc).Some? ==> Shown(attempts, es, c, KeyOf(call), Named(call.pc).value.0, Named(call.pc).value.1))
    && (call.pc.Saving? ==> WasSaved(attempts, es, call.pc.id, NewOrder(call)))
  }

  ghost predicate SentInv(attempts: int, es: seq<Event>, command: Command) {
    match command
    case TakeKey(k, stamp) => WasTaken(attempts, es, k, stamp)
    case DropKey(_) => true
    case CompleteKey(k, id, status) => WasNamed(attempts, es, k, id, status)
    case RestoreKey(k, id, status) => WasNamed(attempts, es, k, id, status)
  }

  predicate EntryInv(w: World, k: Key)
    requires k in w.redis
  {
    match w.redis[k]
    case Processing(stamp) => TakeKey(k, stamp) in w.sent
    case Completed(id, status) => CompleteKey(k, id, status) in w.sent || RestoreKey(k, id, status) in w.sent
    case _ => true
  }

  ghost predicate HistoryInv(attempts: int, es: seq<Event>) {
    var w := Run(Init(attempts), es);
    && (forall c | c in w.calls :: CallInv(attempts, es, w, c))
    && (forall command | command in w.sent :: SentInv(attempts, es, command))
    && (forall k | k in w.redis :: EntryInv(w, k))
    && (forall id | id in w.orders :: WasSaved(attempts, es, id, w.orders[id].(status := Created)))
  }

  /** What was once so was once so in a longer run. */
  lemma OnceStays(attempts: int, es: seq<Event>, e: Event)
    ensures forall c, k, id, status | Shown(attempts, es, c, k, id, status) :: Shown(attempts, es + [e], c, k, id, status)
    ensures forall k, id, status | WasNamed(attempts, es, k, id, status) :: WasNamed(attempts, es + [e], k, id, status)
    ensures forall k, stamp | WasTaken(attempts, es, k, stamp) :: WasTaken(attempts, es + [e], k, stamp)
    ensures forall id, order | WasSaved(attempts, es, id, order) :: WasSaved(attempts, es + [e], id, order)
  {
    PastStays(attempts, es, e);
    forall c, k, id, status | Shown(attempts, es, c, k, id, status) ensures Shown(attempts, es + [e], c, k, id, status) {
      var i: nat :| i <= |es| && Shows(Past(attempts, es, i), c, k, id, status);
      assert Shows(Past(attempts, es + [e], i), c, k, id, status);
    }
    forall k, id, status | WasNamed(attempts, es, k, id, status) ensures WasNamed(attempts, es + [e], k, id, status) {
      var i: nat, c :| i <= |es| && CallNames(Past(attempts, es, i), k, c, id, status);
      assert CallNames(Past(attempts, es + [e], i), k, c, id, status);
    }
    forall k, stamp | WasTaken(attempts, es, k, stamp) ensures WasTaken(attempts, es + [e], k, stamp) {
      var i: nat, c :| i <= |es| && Takes(Past(attempts, es, i), k, c, stamp);
      assert Takes(Past(attempts, es + [e], i), k, c, stamp);
    }
    forall id, order | WasSaved(attempts, es, id, order) ensures WasSaved(attempts, es + [e], id, order) {
      var i: nat, c :| i <= |es| && WillSave(Past(attempts, es, i), c, id, order);
      assert WillSave(Past(attempts, es + [e], i), c, id, order);
    }
  }

  /** A call that will save did so already, or has just passed its checks. */
  lemma StepSaves(w: World, e: Event, c: CallId)
    requires c in Apply(w, e).calls && Apply(w, e).calls[c].pc.Saving?
    ensures
      || (c in w.calls && w.calls[c] == Apply(w, e).calls[c])
      || WillSave(Apply(w, e), c, Apply(w, e).calls[c].pc.id, NewOrder(Apply(w, e).calls[c]))
  {
    if !ByEnvironment(e) && !e.Begin? && At(w, e.c) {
      CallStepFrame(w, e);
    }
  }

  lemma StepKeepsSends(w: World, e: Event, c: CallId)
    requires c in Apply(w, e).calls
    requires c in w.calls ==> Sends(KeyOf(w.calls[c]), w.calls[c].pc) <= w.sent
    ensures Sends(KeyOf(Apply(w, e).calls[c]), Apply(w, e).calls[c].pc) <= Apply(w, e).sent
  {
    if !ByEnvironment(e) && !e.Begin? && At(w, e.c) {
      CallStepFrame(w, e);
      CallStepSends(w, e);
      if c == e.c {
        OwnSends(w, e);
      }
    }
  }

  lemma OwnSends(w: World, e: Event)
    requires !ByEnvironment(e) && !e.Begin?
    requires At(w, e.c) && Sends(KeyOf(w.calls[e.c]), w.calls[e.c].pc) <= w.sent
    ensures At(CallStep(w, e), e.c)
    ensures Sends(KeyOf(w.calls[e.c]), CallStep(w, e).calls[e.c].pc) <= CallStep(w, e).sent
  {
    match e
    case AcquireRun(_, _) =>
    case DeleteRun(_, _) =>
    case ChecksRun(_, _, _) =>
    case CommitRun(_, _) =>
    case CleanupRun(_, _) =>
    case RecoverRun(_, _) =>
    case CompleteRun(_, _) =>
    case RestoreRun(_, _) =>
    case GiveUp(_) =>
    case Crash(_) =>
  }

  lemma CallKept(attempts: int, es: seq<Event>, e: Event, c: CallId)
    requires HistoryInv(attempts, es) && c in Run(Init(attempts), es + [e]).calls
    ensures CallInv(attempts, es + [e], Run(Init(attempts), es + [e]), c)
  {
    var gs, w, w' := es + [e], Run(Init(attempts), es), Run(Init(attempts), es + [e]);
    RunAppend(Init(attempts), es, e);
    OnceStays(attempts, es, e);
    PastStays(attempts, es, e);
    assert Past(attempts, gs, |es|) == w && Past(attempts, gs, |gs|) == w' by {
      assert es[..|es|] == es && gs[..|gs|] == gs;
    }
    assert c in w.calls ==> CallInv(attempts, es, w, c);
    StepKeepsSends(w, e, c);
    var call := w'.calls[c];
    if Named(call.pc).Some? {
      StepNames(w, e, c);
      var (id, status) := Named(call.pc).value;
      if Shows(w, c, KeyOf(call), id, status) {
        assert Shows(Past(attempts, gs, |es|), c, KeyOf(call), id, status);
      } else if Shows(w', c, KeyOf(call), id, status) {
        assert Shows(Past(attempts, gs, |gs|), c, KeyOf(call), id, status);
      }
    }
    if call.pc.Saving? {
      StepSaves(w, e, c);
      if !(c in w.calls && w.calls[c] == call) {
        assert WillSave(Past(attempts, gs, |gs|), c, call.pc.id, NewOrder(call));
      }
    }
  }

  lemma SentKept(attempts: int, es: seq<Event>, e: Event, command: Command)
    requires HistoryInv(attempts, es) && command in Run(Init(attempts), es + [e]).sent
    ensures SentInv(attempts, es + [e], command)
  {
    var gs, w, w' := es + [e], Run(Init(attempts), es), Run(Init(attempts), es + [e]);
    RunAppend(Init(attempts), es, e);
    OnceStays(attempts, es, e);
    assert Past(attempts, gs, |gs|) == w' by {
      assert gs[..|gs|] == gs;
    }
    if command in w.sent {
      assert SentInv(attempts, es, command);
    } else {
      StepSends(w, e, command);
      if command.TakeKey? {
        var c :| Takes(w', command.key, c, command.stamp);
        assert Takes(Past(attempts, gs, |gs|), command.key, c, command.stamp);
      } else if !command.DropKey? {
        var c :| CallNames(w', command.key, c, command.id, command.status);
        assert CallNames(Past(attempts, gs, |gs|), command.key, c, command.id, command.status);
      }
    }
  }

  lemma SentGrows(w: World, e: Event)
    ensures w.sent <= Apply(w, e).sent
  {
  }

  lemma RestKept(attempts: int, es: seq<Event>, e: Event)
    requires HistoryInv(attempts, es)
    ensures
      var w' := Run(Init(attempts), es + [e]);
      && (forall k | k in w'.redis :: EntryInv(w', k))
      && (forall id | id in w'.orders :: WasSaved(attempts, es + [e], id, w'.orders[id].(status := Created)))
  {
    var w, w' := Run(Init(attempts), es), Run(Init(attempts), es + [e]);
    RunAppend(Init(attempts), es, e);
    OnceStays(attempts, es, e);
    SentGrows(w, e);
    forall k | k in w'.redis ensures EntryInv(w', k) {
      if k in w.redis && w.redis[k] == w'.redis[k] {
        assert EntryInv(w, k);
      } else {
        assert forall c | c in w.calls :: CallInv(attempts, es, w, c);
        StepWrites(w, e, k);
      }
    }
    forall id | id in w'.orders ensures WasSaved(attempts, es + [e], id, w'.orders[id].(status := Created)) {
      StepOrders(w, e, id);
      if id in w.orders {
        assert w'.orders[id].(status := Created) == w.orders[id].(status := Created);
      } else {
        assert CallInv(attempts, es, w, e.c) && NewOrder(w.calls[e.c]) == w'.orders[id];
      }
    }
  }

  lemma HistoryKept(attempts: int, es: seq<Event>, e: Event, gs: seq<Event>)
    requires HistoryInv(attempts, es) && gs == es + [e]
    ensures HistoryInv(attempts, gs)
  {
    var w' := Run(Init(attempts), es + [e]);
    forall c | c in w'.calls ensures CallInv(attempts, es + [e], w', c) {
      CallKept(attempts, es, e, c);
    }
    forall command | command in w'.sent ensures SentInv(attempts, es + [e], command) {
      SentKept(attempts, es, e, command);
    }
    RestKept(attempts, es, e);
  }

  lemma HistoryOfNothing(attempts: int)
    ensures HistoryInv(attempts, [])
  {
    assert Run(Init(attempts), []) == Init(attempts);
  }

  lemma {:induction false} Always(attempts: int, es: seq<Event>)
    ensures HistoryInv(attempts, es)
  {
    if es == [] {
      HistoryOfNothing(attempts);
    } else {
      var before, last := es[..|es| - 1], es[|es| - 1];
      assert es == before + [last];
      Always(attempts, before);
      HistoryKept(attempts, before, last, es);
    }
  }

  // ----- What follows -----

  /** A reply carries a status that its order, or the completed entry of its key, had since its call began. */
  lemma ReplyStatusWasShown(attempts: int, es: seq<Event>, c: CallId)
    ensures
      var w := Run(Init(attempts), es);
      c in w.calls && w.calls[c].pc.Done? && w.calls[c].pc.reply.Ok? ==>
        Shown(attempts, es, c, KeyOf(w.calls[c]), w.calls[c].pc.reply.id, w.calls[c].pc.reply.status)
  {
    Always(attempts, es);
    assert c in Run(Init(attempts), es).calls ==> CallInv(attempts, es, Run(Init(attempts), es), c);
  }

  /** What a call is about to do to its key has been sent, so it may run late or again. */
  lemma CommandsAreSent(attempts: int, es: seq<Event>, c: CallId)
    ensures
      var w := Run(Init(attempts), es);
      c in w.calls ==>
        var k, pc := KeyOf(w.calls[c]), w.calls[c].pc;
        && (pc.Acquiring? ==> TakeKey(k, pc.stamp) in w.sent)
        && (pc.DeletingGarbage? || pc.CleaningUp? ==> DropKey(k) in w.sent)
        && (pc.Completing? ==> CompleteKey(k, pc.id, pc.status) in w.sent)
        && (pc.Restoring? ==> RestoreKey(k, pc.id, pc.status) in w.sent)
  {
    Always(attempts, es);
    assert c in Run(Init(attempts), es).calls ==> CallInv(attempts, es, Run(Init(attempts), es), c);
  }

  /** A completed entry carries the order and the status of a call of its key that completed it. */
  lemma EntryWasNamed(attempts: int, es: seq<Event>, k: Key)
    ensures
      var w := Run(Init(attempts), es);
      k in w.redis && w.redis[k].Completed? ==> WasNamed(attempts, es, k, w.redis[k].id, w.redis[k].status)
  {
    Always(attempts, es);
    var w := Run(Init(attempts), es);
    if k in w.redis && w.redis[k].Completed? {
      assert EntryInv(w, k);
      assert SentInv(attempts, es, CompleteKey(k, w.redis[k].id, w.redis[k].status))
             || SentInv(attempts, es, RestoreKey(k, w.redis[k].id, w.redis[k].status));
    }
  }

  /** A processing entry carries the time at which a call of its key tried to acquire it. */
  lemma StartedAtWasNow(attempts: int, es: seq<Event>, k: Key)
    ensures
      var w := Run(Init(attempts), es);
      k in w.redis && w.redis[k].Processing? ==> WasTaken(attempts, es, k, w.redis[k].startedAt)
  {
    Always(attempts, es);
    var w := Run(Init(attempts), es);
    if k in w.redis && w.redis[k].Processing? {
      assert EntryInv(w, k) && SentInv(attempts, es, TakeKey(k, w.redis[k].startedAt));
    }
  }

  /** An order carries the content of the call that saved it, and the time at which that call set about it. */
  lemma OrderWasSaved(attempts: int, es: seq<Event>, id: OrderId)
    ensures
      var w := Run(Init(attempts), es);
      id in w.orders ==> WasSaved(attempts, es, id, w.orders[id].(status := Created))
  {
    Always(attempts, es);
  }
}
