/**
 The provisos of the at-most-one theorem are exact: from any world in which an event breaks them, some
 benign steps place two orders for the request.
 */
module CreateOrderExact {
  import opened Sets
  import opened Wrappers
  import opened RequestEncoding
  import opened CreateOrderProtocol
  import opened CreateOrderSafety

  ghost predicate Duplicated(w: World, user: UserId, request: Request) {
    exists i, j :: i != j && Placed(w, i, user, request) && Placed(w, j, user, request)
  }

  /** Some benign steps lead from start to w. */
  ghost predicate Reachable(start: World, k: Key, w: World) {
    exists fs :: BenignRun(start, fs, k) && Run(start, fs) == w
  }

  lemma ReachableStep(start: World, k: Key, w: World, e: Event)
    requires Reachable(start, k, w) && Benign(w, e, k)
    ensures Reachable(start, k, Apply(w, e))
  {
    var fs :| BenignRun(start, fs, k) && Run(start, fs) == w;
    assert (fs + [e])[..|fs|] == fs;
    assert BenignRun(start, fs + [e], k) && Run(start, fs + [e]) == Apply(w, e);
  }

  /** reach is kept by every benign step. */
  ghost predicate Closed(k: Key, reach: World -> bool) {
    forall w, e | reach(w) && Benign(w, e, k) :: reach(Apply(w, e))
  }

  /** Orders and calls of w are in w' as they were. */
  predicate Extends(w: World, w': World) {
    && (forall id | id in w.orders :: id in w'.orders && w'.orders[id] == w.orders[id])
    && (forall c | c in w.calls :: c in w'.calls && w'.calls[c] == w.calls[c])
  }

  /** A call that has the key saves its order. */
  lemma SavesOrder(reach: World -> bool, w: World, user: UserId, request: Request, c: CallId) returns (w': World, id: OrderId)
    requires Closed(KeyFor(user, request), reach) && reach(w) && Valid(request)
    requires c in w.calls && w.calls[c] == Call(user, request, Checking)
    ensures reach(w') && id !in w.orders && Placed(w', id, user, request)
    ensures w'.redis == w.redis && w'.orders - {id} == w.orders
    ensures c in w'.calls && w'.calls - {c} == w.calls - {c}
  {
    id := Unused(w.orders.Keys);
    w' := Apply(w, ChecksRun(c, true, id));
    assert w'.calls[c].pc == Saving(id, w.now);
    assert CommitStep(w', c, Ran).orders == w.orders[id := NewOrder(w'.calls[c])];
    w' := Apply(w', CommitRun(c, Ran));
  }

  /** While the key looks free a new call places an order. */
  lemma PlacesOrder(reach: World -> bool, w: World, user: UserId, request: Request) returns (w': World, id: OrderId)
    requires Closed(KeyFor(user, request), reach) && reach(w) && Valid(request) && LooksFree(w, KeyFor(user, request))
    ensures reach(w') && Extends(w, w') && id !in w.orders && Placed(w', id, user, request)
    ensures KeyFor(user, request) in w.redis ==> LooksFree(w', KeyFor(user, request))
  {
    var c := Unused(w.calls.Keys);
    var w1 := Apply(w, Begin(c, user, request));
    var w2 := Apply(w1, AcquireRun(c, Ran));
    assert w2.calls == w.calls[c := Call(user, request, Checking)];
    w', id := SavesOrder(reach, w2, user, request, c);
    forall d | d in w.calls ensures d in w'.calls && w'.calls[d] == w.calls[d] {
      assert d in w2.calls - {c} && (w'.calls - {c})[d] == w'.calls[d];
    }
    forall i | i in w.orders ensures i in w'.orders && w'.orders[i] == w.orders[i] {
      assert i in w'.orders - {id} && (w'.orders - {id})[i] == w'.orders[i];
    }
  }

  // ----- The key is gone -----

  /** A call that holds the key gives up without an order. */
  lemma GivesUp(reach: World -> bool, w: World, k: Key, c: CallId) returns (w': World)
    requires Closed(k, reach) && reach(w) && Owns(w, c, k)
    ensures reach(w') && w'.redis == w.redis && w'.orders == w.orders
    ensures Owns(w', c, k) && w'.calls[c].pc.CleaningUp?
  {
    w' := w;
    if w.calls[c].pc.Checking? {
      w' := Apply(w, ChecksRun(c, false, 0));
    } else if w.calls[c].pc.Saving? {
      w' := Apply(w, CommitRun(c, NotRan));
    }
  }

  /** Its cleanup frees the key of the order that was placed meanwhile. */
  lemma CleansUpOther(reach: World -> bool, w: World, user: UserId, request: Request, c: CallId) returns (w': World)
    requires Closed(KeyFor(user, request), reach) && reach(w) && Valid(request)
    requires KeyFor(user, request) !in w.redis && Owns(w, c, KeyFor(user, request))
    ensures reach(w') && Duplicated(w', user, request)
  {
    var w1 := GivesUp(reach, w, KeyFor(user, request), c);
    var w2, i := PlacesOrder(reach, w1, user, request);
    w', i := FreesAndPlaces(reach, w2, user, request, c, i);
  }

  lemma FreesAndPlaces(reach: World -> bool, w: World, user: UserId, request: Request, c: CallId, i: OrderId)
      returns (w': World, j: OrderId)
    requires Closed(KeyFor(user, request), reach) && reach(w) && Valid(request) && Placed(w, i, user, request)
    requires Owns(w, c, KeyFor(user, request)) && w.calls[c].pc.CleaningUp?
    ensures reach(w') && Duplicated(w', user, request)
  {
    var w1 := Apply(w, CleanupRun(c, Ran));
    assert w1 == CleanupStep(w, c, Ran);
    w', j := PlacesOrder(reach, w1, user, request);
    assert Placed(w', i, user, request);
  }

  /** An order with the key of a valid request is an order for that request. */
  lemma OrderedIsPlaced(w: World, id: OrderId, user: UserId, request: Request)
    requires Content(w) && Ordered(w, id, KeyFor(user, request))
    ensures Placed(w, id, user, request)
  {
    EncodeInjective(w.orders[id].request, request);
  }

  lemma GoneDuplicates(reach: World -> bool, w: World, user: UserId, request: Request) returns (w': World)
    requires Closed(KeyFor(user, request), reach) && reach(w) && Valid(request) && Content(w)
    requires KeyFor(user, request) !in w.redis && !Unclaimed(w, KeyFor(user, request))
    ensures reach(w') && Duplicated(w', user, request)
  {
    var k := KeyFor(user, request);
    if c :| c in w.calls && Owns(w, c, k) {
      w' := CleansUpOther(reach, w, user, request, c);
    } else {
      var i :| i in w.orders && Ordered(w, i, k);
      OrderedIsPlaced(w, i, user, request);
      var j;
      w', j := PlacesOrder(reach, w, user, request);
      assert Placed(w', i, user, request);
    }
  }

  // ----- The entry looks like none -----

  lemma BlankDuplicates(reach: World -> bool, w: World, user: UserId, request: Request) returns (w': World)
    requires Closed(KeyFor(user, request), reach) && reach(w) && Valid(request)
    requires KeyFor(user, request) in w.redis && w.redis[KeyFor(user, request)].Blank?
    ensures reach(w') && Duplicated(w', user, request)
  {
    var w1, i := PlacesOrder(reach, w, user, request);
    var j;
    w', j := PlacesOrder(reach, w1, user, request);
    assert Placed(w', i, user, request);
  }

  /** A new call finds garbage and is about to delete it. */
  lemma FindsGarbage(reach: World -> bool, w: World, user: UserId, request: Request) returns (w': World, c: CallId)
    requires Closed(KeyFor(user, request), reach) && reach(w)
    requires KeyFor(user, request) in w.redis && w.redis[KeyFor(user, request)].Garbage?
    ensures reach(w') && Extends(w, w') && w'.redis == w.redis
    ensures c !in w.calls && c in w'.calls && w'.calls[c] == Call(user, request, DeletingGarbage(false))
  {
    c := Unused(w.calls.Keys);
    w' := Apply(w, Begin(c, user, request));
    w' := Apply(w', AcquireRun(c, Ran));
  }

  /** It deletes whatever is there, takes the key and places an order. */
  lemma DeletesAndPlaces(reach: World -> bool, w: World, user: UserId, request: Request, c: CallId)
      returns (w': World, id: OrderId)
    requires Closed(KeyFor(user, request), reach) && reach(w) && Valid(request)
    requires c in w.calls && w.calls[c] == Call(user, request, DeletingGarbage(false))
    ensures reach(w') && id !in w.orders && Placed(w', id, user, request)
    ensures forall d | d in w.calls && d != c :: d in w'.calls && w'.calls[d] == w.calls[d]
    ensures forall i | i in w.orders :: i in w'.orders && w'.orders[i] == w.orders[i]
  {
    var w1 := Apply(w, DeleteRun(c, Ran));
    var w2 := Apply(w1, AcquireRun(c, Ran));
    assert w2.calls == w.calls[c := Call(user, request, Checking)];
    w', id := SavesOrder(reach, w2, user, request, c);
    forall d | d in w.calls && d != c ensures d in w'.calls && w'.calls[d] == w.calls[d] {
      assert d in w2.calls - {c} && (w'.calls - {c})[d] == w'.calls[d];
    }
    forall i | i in w.orders ensures i in w'.orders && w'.orders[i] == w.orders[i] {
      assert i in w'.orders - {id} && (w'.orders - {id})[i] == w'.orders[i];
    }
  }

  /** Two calls find the garbage; the second DEL hits the key that the first one took. */
  lemma GarbageDuplicates(reach: World -> bool, w: World, user: UserId, request: Request) returns (w': World)
    requires Closed(KeyFor(user, request), reach) && reach(w) && Valid(request)
    requires KeyFor(user, request) in w.redis && w.redis[KeyFor(user, request)].Garbage?
    ensures reach(w') && Duplicated(w', user, request)
  {
    var w1, a := FindsGarbage(reach, w, user, request);
    var w2, b := FindsGarbage(reach, w1, user, request);
    var w3, i := DeletesAndPlaces(reach, w2, user, request, a);
    var j;
    w', j := DeletesAndPlaces(reach, w3, user, request, b);
    assert Placed(w', i, user, request);
  }

  // ----- A commit that runs but reports an error -----

  lemma AmbiguousDuplicates(reach: World -> bool, w: World, user: UserId, request: Request, c: CallId) returns (w': World)
    requires Closed(KeyFor(user, request), reach) && Valid(request) && Content(w)
    requires Commits(w, c) && KeyOf(w.calls[c]) == KeyFor(user, request) && reach(Apply(w, CommitRun(c, RanLost)))
    ensures reach(w') && Duplicated(w', user, request)
  {
    var w1, id := Apply(w, CommitRun(c, RanLost)), w.calls[c].pc.id;
    assert w1 == CommitStep(w, c, RanLost);
    ContentKept(w, CommitRun(c, RanLost));
    assert Ordered(w1, id, KeyFor(user, request));
    OrderedIsPlaced(w1, id, user, request);
    w', id := FreesAndPlaces(reach, w1, user, request, c, id);
  }

  // ----- The condition -----

  lemma BreaksDuplicate(reach: World -> bool, w: World, e: Event, user: UserId, request: Request) returns (w': World)
    requires Closed(KeyFor(user, request), reach) && reach(Apply(w, e)) && Valid(request) && Content(w)
    requires !Benign(w, e, KeyFor(user, request))
    ensures reach(w') && Duplicated(w', user, request)
  {
    var w1, k := Apply(w, e), KeyFor(user, request);
    ContentKept(w, e);
    match e
    case Expire(_) => w' := GoneDuplicates(reach, w1, user, request);
    case Again(_) => w' := GoneDuplicates(reach, w1, user, request);
    case Corrupt(_, Garbage) => w' := GarbageDuplicates(reach, w1, user, request);
    case Corrupt(_, Blank) => w' := BlankDuplicates(reach, w1, user, request);
    case CommitRun(c, RanLost) => w' := AmbiguousDuplicates(reach, w, user, request, c);
  }

  /** After an event that is not benign, in any world with right entries, benign steps place two orders. */
  lemma SomeRunDuplicates(w: World, e: Event, user: UserId, request: Request) returns (fs: seq<Event>)
    requires Content(w) && Valid(request) && !Benign(w, e, KeyFor(user, request))
    ensures BenignRun(Apply(w, e), fs, KeyFor(user, request))
    ensures Duplicated(Run(Apply(w, e), fs), user, request)
  {
    var k, start := KeyFor(user, request), Apply(w, e);
    var reach := (v: World) => Reachable(start, k, v);
    forall v, f | reach(v) && Benign(v, f, k) ensures reach(Apply(v, f)) {
      ReachableStep(start, k, v, f);
    }
    assert BenignRun(start, [], k) && Run(start, []) == start;
    var w' := BreaksDuplicate(reach, w, e, user, request);
    fs :| BenignRun(start, fs, k) && Run(start, fs) == w';
  }

  lemma NotDuplicated(w: World, user: UserId, request: Request)
    requires Single(w, KeyFor(user, request))
    ensures !Duplicated(w, user, request)
  {
    var k := KeyFor(user, request);
    forall i, j | Placed(w, i, user, request) && Placed(w, j, user, request) ensures i == j {
      assert Ordered(w, i, k) && Ordered(w, j, k) && OrderInv(w, i, k);
    }
  }

  /** No benign steps from here on ever lead to two orders for the request. */
  ghost predicate StaysSingle(start: World, user: UserId, request: Request) {
    forall fs | BenignRun(start, fs, KeyFor(user, request)) :: !Duplicated(Run(start, fs), user, request)
  }

  lemma SingleStaysSingle(start: World, user: UserId, request: Request)
    requires Single(start, KeyFor(user, request)) && Content(start)
    ensures StaysSingle(start, user, request)
  {
    forall fs | BenignRun(start, fs, KeyFor(user, request)) ensures !Duplicated(Run(start, fs), user, request) {
      SingleAlong(start, fs, KeyFor(user, request));
      NotDuplicated(Run(start, fs), user, request);
    }
  }

  /**
   The provisos are exact, event by event: after a benign run, an event is benign if and only if no benign
   steps after it ever lead to two orders for the request.
   */
  lemma BenignExactly(attempts: int, es: seq<Event>, e: Event, user: UserId, request: Request)
    requires Valid(request) && BenignRun(Init(attempts), es, KeyFor(user, request))
    ensures
      var w := Run(Init(attempts), es);
      Benign(w, e, KeyFor(user, request)) <==> StaysSingle(Apply(w, e), user, request)
  {
    var w, k := Run(Init(attempts), es), KeyFor(user, request);
    ContentAlways(attempts, es);
    if Benign(w, e, k) {
      SingleAlways(attempts, es, k);
      SingleKept(w, e, k);
      ContentKept(w, e);
      SingleStaysSingle(Apply(w, e), user, request);
    } else {
      var fs := SomeRunDuplicates(w, e, user, request);
    }
  }
}
