/**
 Changes that are not harmless happen: a physical delete and a late update that move the durable
 cursor of one poller back; and after any run a second poller can do it.
 */
module PollerCursorProvisos {
  import opened Wrappers
  import opened Markets
  import opened PollerProtocol
  import opened PollerProvisos
  import opened PollerCursor

  const A := Market("a", true, None, 1)
  const B := Market("b", true, None, 2)
  const EARLY := Market("early", true, None, 0)

  /** reach relates a run to the state it ends in; all that is used of it is that a run can go on. */
  ghost predicate Closed(batchSize: nat, timely: bool, reach: (seq<Event>, State) -> bool) {
    forall es, s, e | reach(es, s) && (timely ==> Timely(s, e)) :: Goes(batchSize, reach, es, s, e)
  }

  predicate Goes(batchSize: nat, reach: (seq<Event>, State) -> bool, es: seq<Event>, s: State, e: Event) {
    reach(es + [e], Apply(batchSize, s, e))
  }

  lemma Then(batchSize: nat, timely: bool, reach: (seq<Event>, State) -> bool, es: seq<Event>, s: State, e: Event)
      returns (es': seq<Event>, s': State)
    requires Closed(batchSize, timely, reach) && reach(es, s) && (timely ==> Timely(s, e))
    ensures es' == es + [e] && s' == Apply(batchSize, s, e) && reach(es', s')
  {
    assert Goes(batchSize, reach, es, s, e);
    es', s' := es + [e], Apply(batchSize, s, e);
  }

  ghost function Runs(batchSize: nat, timely: bool): (seq<Event>, State) -> bool {
    (es, s) => Run(batchSize, es) == s && (timely ==> TimelyRun(batchSize, es))
  }

  lemma RunsGoOn(batchSize: nat, timely: bool)
    ensures Closed(batchSize, timely, Runs(batchSize, timely)) && Runs(batchSize, timely)([], Init)
  {
    assert Run(batchSize, []) == Init && TimelyRun(batchSize, []);
    forall es, s, e | Runs(batchSize, timely)(es, s) && (timely ==> Timely(s, e))
      ensures Goes(batchSize, Runs(batchSize, timely), es, s, e)
    {
      RunAppend(batchSize, es, e);
    }
  }

  /** The run and its continuation move the durable cursor back. */
  ghost predicate MovesBack(batchSize: nat, es: seq<Event>, fs: seq<Event>) {
    KeyLess(Durable(Run(batchSize, es + fs)), Durable(Run(batchSize, es)))
  }

  /** Poller p reads a page and publishes it. */
  lemma Batch(batchSize: nat, timely: bool, reach: (seq<Event>, State) -> bool, es: seq<Event>, s: State,
              p: PollerId, ids: seq<MarketId>, o: Outcome) returns (es': seq<Event>, s': State)
    requires Closed(batchSize, timely, reach) && reach(es, s) && !o.NotRan?
    requires p in s.pollers && s.pollers[p].pc.Idle? && ids != [] && IsPage(s.markets, s.pollers[p].lastSeen, batchSize, ids)
    ensures es' == es + [ReadPage(p, ids)] + [Publish(p, o)] && reach(es', s')
    ensures ids[|ids| - 1] in ids && s'.markets == s.markets
    ensures
      var next := LastKey(s.markets, ids);
      && s'.cursor == Some(next)
      && s'.pollers == s.pollers[p := Poller(if o.Ran? then next else s.pollers[p].lastSeen, Idle)]
  {
    PagePublished(batchSize, s, p, ids, o);
    es', s' := Then(batchSize, timely, reach, es, s, ReadPage(p, ids));
    es', s' := Then(batchSize, timely, reach, es', s', Publish(p, o));
  }

  /** Market A is committed and pollers are loaded. */
  lemma Loaded(batchSize: nat, timely: bool, reach: (seq<Event>, State) -> bool) returns (es: seq<Event>, s: State)
    requires Closed(batchSize, timely, reach) && reach([], Init)
    ensures reach(es, s) && OnePoller(es, 0) && NoDeletes(es)
    ensures s == State(map[1 := A], None, [], map[0 := Poller(ZERO_KEY, Idle)])
  {
    es, s := Then(batchSize, timely, reach, [], Init, Update(1, A));
    es, s := Then(batchSize, timely, reach, es, s, LoadCursor(0));
  }

  lemma BothLoaded(batchSize: nat, timely: bool, reach: (seq<Event>, State) -> bool) returns (es: seq<Event>, s: State)
    requires Closed(batchSize, timely, reach) && reach([], Init)
    ensures reach(es, s) && OnePoller(es, 0)
    ensures s == State(map[1 := A, 2 := B], None, [], map[0 := Poller(ZERO_KEY, Idle)])
  {
    es, s := Loaded(batchSize, timely, reach);
    es, s := Then(batchSize, timely, reach, es, s, Update(2, B));
  }

  // ----- A physical delete -----

  lemma DeleteRun(reach: (seq<Event>, State) -> bool) returns (es: seq<Event>, s: State, fs: seq<Event>, t: State)
    requires Closed(2, true, reach) && reach([], Init)
    ensures reach(es, s) && reach(es + fs, t) && KeyLess(Durable(t), Durable(s)) && OnePoller(es + fs, 0)
  {
    es, s := BothLoaded(2, true, reach);
    es, s := Batch(2, true, reach, es, s, 0, [1, 2], RanLost);
    var gs;
    gs, t := Then(2, true, reach, es, s, Delete(2));
    assert t.markets == map[1 := A];
    gs, t := Batch(2, true, reach, gs, t, 0, [1], Ran);
    fs := [Delete(2), ReadPage(0, [1]), Publish(0, Ran)];
    assert gs == es + fs;
  }

  lemma DeleteMovesCursorBack() returns (es: seq<Event>, fs: seq<Event>)
    ensures OnePoller(es + fs, 0) && TimelyRun(2, es + fs) && MovesBack(2, es, fs)
  {
    RunsGoOn(2, true);
    var s, t;
    es, s, fs, t := DeleteRun(Runs(2, true));
  }

  // ----- A late update -----

  lemma LateUpdateRun(reach: (seq<Event>, State) -> bool) returns (es: seq<Event>, s: State, fs: seq<Event>, t: State)
    requires Closed(1, false, reach) && reach([], Init)
    ensures reach(es, s) && reach(es + fs, t) && KeyLess(Durable(t), Durable(s))
    ensures OnePoller(es + fs, 0) && NoDeletes(es + fs)
  {
    es, s := Loaded(1, false, reach);
    es, s := Batch(1, false, reach, es, s, 0, [1], RanLost);
    var gs;
    gs, t := Then(1, false, reach, es, s, Update(2, EARLY));
    gs, t := Batch(1, false, reach, gs, t, 0, [2], Ran);
    fs := [Update(2, EARLY), ReadPage(0, [2]), Publish(0, Ran)];
    assert gs == es + fs;
  }

  lemma LateUpdateMovesCursorBack() returns (es: seq<Event>, fs: seq<Event>)
    ensures OnePoller(es + fs, 0) && NoDeletes(es + fs) && MovesBack(1, es, fs)
  {
    RunsGoOn(1, false);
    var s, t;
    es, s, fs, t := LateUpdateRun(Runs(1, false));
  }

  // ----- A second poller -----

  /** Some market is updated in time. */
  lemma NewRow(batchSize: nat, es: seq<Event>, fs: seq<Event>, s: State, id: MarketId) returns (gs: seq<Event>, t: State)
    requires TimelyAfter(batchSize, es, fs) && Run(batchSize, es + fs) == s
    ensures TimelyAfter(batchSize, es, gs) && Run(batchSize, es + gs) == t
    ensures |gs| == |fs| + 1 && gs == fs + [gs[|fs|]] && gs[|fs|].Update?
    ensures id in t.markets && t == s.(markets := t.markets) && InTime(s, KeyOf(id, t.markets[id]))
  {
    var at := Later(s.pollers, Durable(s).at);
    assert forall p | p in s.pollers :: Unread(s.pollers[p], Key(at, id));
    gs, t := Extend(batchSize, es, fs, s, Update(id, Market("new", true, None, at)));
  }

  /** Poller p has a page in flight that ends at k. */
  predicate InFlight(s: State, p: PollerId, k: Key) {
    && p in s.pollers && s.pollers[p].pc.Publishing? && s.pollers[p].pc.page != []
    && NextCursor(s.pollers[p].pc.page) == k
  }

  /** Two pollers stand at the durable cursor. */
  lemma BothLoad(batchSize: nat, es: seq<Event>, p: PollerId, q: PollerId) returns (fs: seq<Event>, s: State)
    requires p != q
    ensures TimelyAfter(batchSize, es, fs) && Run(batchSize, es + fs) == s && OnlyBy(fs, p, q)
    ensures p in s.pollers && q in s.pollers && s.pollers[p] == s.pollers[q] == Poller(Durable(s), Idle)
  {
    assert es + [] == es;
    fs, s := Extend(batchSize, es, [], Run(batchSize, es), LoadCursor(p));
    fs, s := Extend(batchSize, es, fs, s, LoadCursor(q));
  }

  /** Poller q reads what lies behind its cursor and publishes it. */
  lemma Publishes(batchSize: nat, es: seq<Event>, fs: seq<Event>, s: State, q: PollerId, ids: seq<MarketId>)
      returns (gs: seq<Event>, t: State)
    requires TimelyAfter(batchSize, es, fs) && Run(batchSize, es + fs) == s
    requires q in s.pollers && s.pollers[q].pc.Idle? && ids != [] && IsPage(s.markets, s.pollers[q].lastSeen, batchSize, ids)
    ensures TimelyAfter(batchSize, es, gs) && Run(batchSize, es + gs) == t && gs == fs + [ReadPage(q, ids), Publish(q, Ran)]
    ensures ids[|ids| - 1] in ids && KeyLess(s.pollers[q].lastSeen, LastKey(s.markets, ids))
    ensures Durable(t) == LastKey(s.markets, ids) && t.markets == s.markets
    ensures t.pollers == s.pollers[q := Poller(Durable(t), Idle)]
  {
    PagePublished(batchSize, s, q, ids, Ran);
    gs, t := Extend(batchSize, es, fs, s, ReadPage(q, ids));
    gs, t := Extend(batchSize, es, gs, t, Publish(q, Ran));
    assert gs == fs + [ReadPage(q, ids), Publish(q, Ran)];
  }

  lemma ReadInFlight(batchSize: nat, s: State, p: PollerId, ids: seq<MarketId>)
    requires p in s.pollers && s.pollers[p].pc.Idle?
    requires ids != [] && IsPage(s.markets, s.pollers[p].lastSeen, batchSize, ids)
    ensures ids[|ids| - 1] in ids
    ensures
      var t := Apply(batchSize, s, ReadPage(p, ids));
      && InFlight(t, p, LastKey(s.markets, ids))
      && t.markets == s.markets && t.cursor == s.cursor && t.pollers - {p} == s.pollers - {p}
  {
    assert ids[|ids| - 1] in ids;
    assert Apply(batchSize, s, ReadPage(p, ids)).pollers[p].pc == Publishing(SnapshotsOf(s.markets, ids));
  }

  /** A market is updated, and p reads the next page. */
  lemma FirstReads(batchSize: nat, es: seq<Event>, p: PollerId, q: PollerId)
      returns (fs: seq<Event>, s: State, ids: seq<MarketId>)
    requires batchSize > 0 && p != q
    ensures TimelyAfter(batchSize, es, fs) && Run(batchSize, es + fs) == s && OnlyBy(fs, p, q)
    ensures q in s.pollers && s.pollers[q] == Poller(Durable(s), Idle)
    ensures ids != [] && IsPage(s.markets, Durable(s), batchSize, ids) && ids[|ids| - 1] in ids
    ensures InFlight(s, p, LastKey(s.markets, ids))
  {
    fs, s := BothLoad(batchSize, es, p, q);
    fs, s := NewRow(batchSize, es, fs, s, 1);
    ids := NextPage(batchSize, s.markets, Durable(s), 1);
    ReadInFlight(batchSize, s, p, ids);
    fs, s := Extend(batchSize, es, fs, s, ReadPage(p, ids));
  }

  /** Both read the same page; q publishes it. */
  lemma OneFalls(batchSize: nat, es: seq<Event>, p: PollerId, q: PollerId) returns (fs: seq<Event>, s: State)
    requires batchSize > 0 && p != q
    ensures TimelyAfter(batchSize, es, fs) && Run(batchSize, es + fs) == s && OnlyBy(fs, p, q)
    ensures InFlight(s, p, Durable(s)) && q in s.pollers && s.pollers[q] == Poller(Durable(s), Idle)
  {
    var ids;
    fs, s, ids := FirstReads(batchSize, es, p, q);
    fs, s := Publishes(batchSize, es, fs, s, q, ids);
  }

  /** No event but updates and steps of p and q. */
  predicate OnlyBy(es: seq<Event>, p: PollerId, q: PollerId) {
    forall i | 0 <= i < |es| :: es[i].Update? || (!es[i].Delete? && (es[i].p == p || es[i].p == q))
  }

  /** After another update q publishes the next page too. */
  lemma OneFallsBehind(batchSize: nat, es: seq<Event>, p: PollerId, q: PollerId)
      returns (fs: seq<Event>, s: State, k: Key)
    requires batchSize > 0 && p != q
    ensures TimelyAfter(batchSize, es, fs) && Run(batchSize, es + fs) == s && OnlyBy(fs, p, q)
    ensures InFlight(s, p, k) && KeyLess(k, Durable(s))
  {
    fs, s := OneFalls(batchSize, es, p, q);
    k := Durable(s);
    fs, s := NewRow(batchSize, es, fs, s, 1);
    var ids := NextPage(batchSize, s.markets, k, 1);
    fs, s := Publishes(batchSize, es, fs, s, q, ids);
  }

  /**
   After any run two pollers can move the cursor back with updates in time and without deletes: q goes on to
   the next page, then p publishes the page before it.
   */
  lemma SecondPollerMovesCursorBack(batchSize: nat, es: seq<Event>, p: PollerId, q: PollerId) returns (fs: seq<Event>)
    requires batchSize > 0 && p != q
    ensures OnlyBy(fs, p, q) && TimelyAfter(batchSize, es, fs) && MovedBack(batchSize, es + fs)
  {
    var gs, t, k := OneFallsBehind(batchSize, es, p, q);
    var s;
    fs, s := Extend(batchSize, es, gs, t, Publish(p, Ran));
    assert Durable(s) == k;
    assert (es + fs)[..|es + gs|] == es + gs;
  }
}
