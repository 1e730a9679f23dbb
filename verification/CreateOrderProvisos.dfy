/**
 Each event that the provisos of the at-most-one theorem exclude can happen early in a run: for every
 valid request, a run in which only this one event breaks them and two orders are placed.
 */
module CreateOrderProvisos {
  import opened Wrappers
  import opened RequestEncoding
  import opened CreateOrderProtocol
  import opened CreateOrderSafety
  import opened CreateOrderExact

  /** A run from the start in which event e alone, after es, is not benign, and the request has two orders at its end. */
  ghost predicate DuplicatesAfter(attempts: int, es: seq<Event>, e: Event, fs: seq<Event>,
                                  user: UserId, request: Request)
  {
    var k := KeyFor(user, request);
    && BenignRun(Init(attempts), es, k)
    && !Benign(Run(Init(attempts), es), e, k)
    && BenignRun(Run(Init(attempts), es + [e]), fs, k)
    && Duplicated(Run(Init(attempts), es + [e] + fs), user, request)
  }

  lemma {:induction false} RunConcat(start: World, es: seq<Event>, fs: seq<Event>)
    ensures Run(start, es + fs) == Run(Run(start, es), fs)
  {
    if fs == [] {
      assert es + fs == es;
    } else {
      var n := |fs| - 1;
      assert (es + fs)[..|es + fs| - 1] == es + fs[..n];
      RunConcat(start, es, fs[..n]);
    }
  }

  lemma OneBreakDuplicates(attempts: int, es: seq<Event>, e: Event, user: UserId, request: Request)
      returns (fs: seq<Event>)
    requires Valid(request) && BenignRun(Init(attempts), es, KeyFor(user, request))
    requires !Benign(Run(Init(attempts), es), e, KeyFor(user, request))
    ensures DuplicatesAfter(attempts, es, e, fs, user, request)
  {
    ContentAlways(attempts, es);
    fs := SomeRunDuplicates(Run(Init(attempts), es), e, user, request);
    RunAppend(Init(attempts), es, e);
    RunConcat(Init(attempts), es + [e], fs);
  }

  /** Call 0 is about to commit order 10 under its key. */
  predicate Saves(w: World, user: UserId, request: Request) {
    && 0 in w.calls && w.calls[0] == Call(user, request, Saving(10, 1))
    && KeyFor(user, request) in w.redis && w.orders == map[]
  }

  /** A call that takes the free key, passes its checks and reaches its commit statement. */
  lemma ReachesCommit(reach: World -> bool, w: World, user: UserId, request: Request) returns (w': World)
    requires Closed(KeyFor(user, request), reach) && reach(w)
    requires w.now == 1 && 0 !in w.calls && KeyFor(user, request) !in w.redis && w.orders == map[]
    ensures reach(w') && Saves(w', user, request) && w.sent <= w'.sent
  {
    w' := Apply(w, Begin(0, user, request));
    w' := Apply(w', AcquireRun(0, Ran));
    w' := Apply(w', ChecksRun(0, true, 10));
  }

  /** A call that takes the key, is refused by its checks and cleans up; the reply of its DEL is lost. */
  lemma RefusedLeavesDel(reach: World -> bool, w: World, user: UserId, request: Request) returns (w': World)
    requires Closed(KeyFor(user, request), reach) && reach(w)
    requires w.calls == map[] && w.redis == map[] && w.orders == map[]
    ensures reach(w') && w'.now == w.now && w'.calls.Keys == {2} && w'.redis == map[] && w'.orders == map[]
    ensures DropKey(KeyFor(user, request)) in w'.sent
  {
    w' := Apply(w, Begin(2, user, request));
    w' := Apply(w', AcquireRun(2, Ran));
    w' := Apply(w', ChecksRun(2, false, 0));
    w' := Apply(w', CleanupRun(2, RanLost));
  }

  /** The worlds that benign steps reach from the start. */
  ghost function FromStart(attempts: int, k: Key): World -> bool {
    (w: World) => Reachable(Init(attempts), k, w)
  }

  lemma FromStartClosed(attempts: int, k: Key)
    ensures Closed(k, FromStart(attempts, k)) && FromStart(attempts, k)(Init(attempts))
  {
    forall w, e | FromStart(attempts, k)(w) && Benign(w, e, k) ensures FromStart(attempts, k)(Apply(w, e)) {
      ReachableStep(Init(attempts), k, w, e);
    }
    assert BenignRun(Init(attempts), [], k) && Run(Init(attempts), []) == Init(attempts);
  }

  lemma SomeRunSaves(attempts: int, user: UserId, request: Request) returns (es: seq<Event>)
    ensures BenignRun(Init(attempts), es, KeyFor(user, request)) && Saves(Run(Init(attempts), es), user, request)
  {
    var k := KeyFor(user, request);
    FromStartClosed(attempts, k);
    var w := ReachesCommit(FromStart(attempts, k), Init(attempts), user, request);
    es :| BenignRun(Init(attempts), es, k) && Run(Init(attempts), es) == w;
  }

  /** The same after a refused call, whose DEL may run again. */
  lemma SomeRunSavesAfterDel(attempts: int, user: UserId, request: Request) returns (es: seq<Event>)
    ensures BenignRun(Init(attempts), es, KeyFor(user, request)) && Saves(Run(Init(attempts), es), user, request)
    ensures DropKey(KeyFor(user, request)) in Run(Init(attempts), es).sent
  {
    var k := KeyFor(user, request);
    FromStartClosed(attempts, k);
    var w := RefusedLeavesDel(FromStart(attempts, k), Init(attempts), user, request);
    w := ReachesCommit(FromStart(attempts, k), w, user, request);
    es :| BenignRun(Init(attempts), es, k) && Run(Init(attempts), es) == w;
  }

  /** A key that expires while its call is still saving. */
  lemma ExpiryDuplicates(attempts: int, user: UserId, request: Request) returns (es: seq<Event>, fs: seq<Event>)
    requires Valid(request)
    ensures Saves(Run(Init(attempts), es), user, request)
    ensures DuplicatesAfter(attempts, es, Expire(KeyFor(user, request)), fs, user, request)
  {
    es := SomeRunSaves(attempts, user, request);
    assert Owns(Run(Init(attempts), es), 0, KeyFor(user, request));
    fs := OneBreakDuplicates(attempts, es, Expire(KeyFor(user, request)), user, request);
  }

  /** An entry that is overwritten by the empty text, which the script returns like no entry at all. */
  lemma BlankDuplicates(attempts: int, user: UserId, request: Request) returns (es: seq<Event>, fs: seq<Event>)
    requires Valid(request)
    ensures Saves(Run(Init(attempts), es), user, request)
    ensures DuplicatesAfter(attempts, es, Corrupt(KeyFor(user, request), Blank), fs, user, request)
  {
    es := SomeRunSaves(attempts, user, request);
    fs := OneBreakDuplicates(attempts, es, Corrupt(KeyFor(user, request), Blank), user, request);
  }

  /** An entry that is overwritten by something that is not JSON. */
  lemma GarbageDuplicates(attempts: int, user: UserId, request: Request) returns (es: seq<Event>, fs: seq<Event>)
    requires Valid(request)
    ensures Saves(Run(Init(attempts), es), user, request)
    ensures DuplicatesAfter(attempts, es, Corrupt(KeyFor(user, request), Garbage), fs, user, request)
  {
    es := SomeRunSaves(attempts, user, request);
    fs := OneBreakDuplicates(attempts, es, Corrupt(KeyFor(user, request), Garbage), user, request);
  }

  /** A commit that succeeds but reports an error. */
  lemma AmbiguousCommitDuplicates(attempts: int, user: UserId, request: Request) returns (es: seq<Event>, fs: seq<Event>)
    requires Valid(request)
    ensures Saves(Run(Init(attempts), es), user, request)
    ensures DuplicatesAfter(attempts, es, CommitRun(0, RanLost), fs, user, request)
  {
    es := SomeRunSaves(attempts, user, request);
    assert Commits(Run(Init(attempts), es), 0);
    fs := OneBreakDuplicates(attempts, es, CommitRun(0, RanLost), user, request);
  }

  /** A cleanup DEL that runs again under the next call. */
  lemma LateDeleteDuplicates(attempts: int, user: UserId, request: Request) returns (es: seq<Event>, fs: seq<Event>)
    requires Valid(request)
    ensures Saves(Run(Init(attempts), es), user, request)
    ensures DuplicatesAfter(attempts, es, Again(DropKey(KeyFor(user, request))), fs, user, request)
  {
    es := SomeRunSavesAfterDel(attempts, user, request);
    assert Owns(Run(Init(attempts), es), 0, KeyFor(user, request));
    fs := OneBreakDuplicates(attempts, es, Again(DropKey(KeyFor(user, request))), user, request);
  }
}
