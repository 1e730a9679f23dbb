/**
 When the durable cursor of one poller never moves back: exactly while every update and delete leaves
 the next page reaching it.
 */
module PollerCursor {
  import opened Wrappers
  import opened Markets
  import opened PollerProtocol
  import opened Sets

  /** Markets change, or poller p acts (it may crash and start again). */
  predicate By(e: Event, p: PollerId) {
    e.Update? || e.Delete? || e.p == p
  }

  predicate OnePoller(es: seq<Event>, p: PollerId) {
    forall i | 0 <= i < |es| :: By(es[i], p)
  }

  function Between(markets: map<MarketId, Market>, low: Key, high: Key): set<MarketId> {
    set id | id in markets && KeyLess(low, KeyOf(id, markets[id])) && KeyLess(KeyOf(id, markets[id]), high)
  }

  ghost predicate SomeAtLeast(markets: map<MarketId, Market>, k: Key) {
    exists id :: id in markets && KeyLeq(k, KeyOf(id, markets[id]))
  }

  /** A page read behind low, if any, reaches high: no row lies before high, or less than a page and then one more. */
  ghost predicate Reaches(batchSize: nat, markets: map<MarketId, Market>, low: Key, high: Key) {
    || low == high
    || (|Between(markets, low, high)| < batchSize && (Between(markets, low, high) == {} || SomeAtLeast(markets, high)))
  }

  /** Whatever the poller does next, its pages reach the durable cursor. */
  ghost predicate Safe(batchSize: nat, s: State, p: PollerId) {
    p in s.pollers ==>
      var poller := s.pollers[p];
      && Reaches(batchSize, s.markets, poller.lastSeen, Durable(s))
      && (poller.pc.Publishing? && poller.pc.page != [] ==>
            && KeyLeq(Durable(s), NextCursor(poller.pc.page))
            && Reaches(batchSize, s.markets, poller.lastSeen, NextCursor(poller.pc.page)))
  }

  /** An update or a delete leaves the poller safe. */
  ghost predicate Harmless(batchSize: nat, s: State, e: Event, p: PollerId) {
    e.Update? || e.Delete? ==> Safe(batchSize, Apply(batchSize, s, e), p)
  }

  /** All updates and deletes of a run from some event on are harmless. */
  ghost predicate HarmlessFrom(batchSize: nat, es: seq<Event>, from: nat, p: PollerId) {
    forall i | from <= i < |es| :: HarmlessAt(batchSize, es, i, p)
  }

  ghost predicate HarmlessAt(batchSize: nat, es: seq<Event>, i: nat, p: PollerId)
    requires i < |es|
  {
    Harmless(batchSize, Run(batchSize, es[..i]), es[i], p)
  }

  /** No poller but p, which has read no more than it has written and is publishing what it has not read. */
  ghost predicate CursorInv(s: State, p: PollerId) {
    && s.pollers.Keys <= {p}
    && (p in s.pollers ==>
          var poller := s.pollers[p];
          && KeyLeq(poller.lastSeen, Durable(s))
          && (poller.pc.Publishing? ==>
                poller.pc.page != [] && KeyLess(poller.lastSeen, NextCursor(poller.pc.page))))
  }

  predicate Distinct(ids: seq<MarketId>) {
    forall i, j | 0 <= i < j < |ids| :: ids[i] != ids[j]
  }

  lemma {:induction false} Pigeonhole(ids: seq<MarketId>, holes: set<MarketId>) returns (i: nat)
    requires Distinct(ids) && |ids| > |holes|
    ensures i < |ids| && ids[i] !in holes
    decreases |ids|
  {
    var n := |ids| - 1;
    if ids[n] !in holes {
      i := n;
    } else {
      i := Pigeonhole(ids[..n], holes - {ids[n]});
    }
  }

  lemma {:induction false} InIds(ids: seq<MarketId>, part: set<MarketId>)
    requires forall id | id in part :: id in ids
    ensures |part| <= |ids|
  {
    if ids == [] {
      assert part == {};
    } else {
      InIds(ids[1..], part - {ids[0]});
    }
  }

  /** The key of the last row of a page. */
  function LastKey(markets: map<MarketId, Market>, ids: seq<MarketId>): Key
    requires ids != [] && ids[|ids| - 1] in markets
  {
    KeyOf(ids[|ids| - 1], markets[ids[|ids| - 1]])
  }

  /** The first page behind low reaches high. */
  lemma PageReaches(batchSize: nat, markets: map<MarketId, Market>, low: Key, high: Key, ids: seq<MarketId>)
    requires Reaches(batchSize, markets, low, high) && KeyLeq(low, high)
    requires ids != [] && IsPage(markets, low, batchSize, ids)
    ensures ids[|ids| - 1] in ids && KeyLeq(high, LastKey(markets, ids))
  {
    var last := ids[|ids| - 1];
    assert last in ids;
    assert forall i | 0 <= i < |ids| :: ids[i] in ids;
    if KeyLess(LastKey(markets, ids), high) {
      assert last in Between(markets, low, high);
      var w :| w in markets && KeyLeq(high, KeyOf(w, markets[w]));
      if w in ids {
        var k :| 0 <= k < |ids| && ids[k] == w;
      } else {
        var i := Pigeonhole(ids, Between(markets, low, high));
      }
    }
  }

  /** Rows before the end of a page are rows of the page, so fewer than a page. */
  lemma EndReached(batchSize: nat, markets: map<MarketId, Market>, low: Key, ids: seq<MarketId>)
    requires ids != [] && IsPage(markets, low, batchSize, ids)
    ensures ids[|ids| - 1] in ids
    ensures |Between(markets, low, LastKey(markets, ids))| < batchSize && SomeAtLeast(markets, LastKey(markets, ids))
  {
    var last := ids[|ids| - 1];
    assert last in ids;
    var before := Between(markets, low, LastKey(markets, ids));
    forall id | id in before ensures id in ids[..|ids| - 1] {
      assert id in ids;
      var k :| 0 <= k < |ids| && ids[k] == id;
      assert ids[..|ids| - 1][k] == id;
    }
    InIds(ids[..|ids| - 1], before);
    assert last in markets && KeyLeq(LastKey(markets, ids), KeyOf(last, markets[last]));
  }

  lemma ReadKeepsCursor(batchSize: nat, s: State, p: PollerId, ids: seq<MarketId>)
    requires CursorInv(s, p) && Safe(batchSize, s, p)
    ensures var t := Apply(batchSize, s, ReadPage(p, ids)); CursorInv(t, p) && Safe(batchSize, t, p)
  {
    if p in s.pollers && ids != [] && IsPage(s.markets, s.pollers[p].lastSeen, batchSize, ids) {
      var low, last := s.pollers[p].lastSeen, ids[|ids| - 1];
      EndReached(batchSize, s.markets, low, ids);
      PageReaches(batchSize, s.markets, low, Durable(s), ids);
      assert SnapshotsOf(s.markets, ids)[|ids| - 1] == Snapshot(last, s.markets[last]);
    }
  }

  lemma CursorKept(batchSize: nat, s: State, e: Event, p: PollerId)
    requires CursorInv(s, p) && Safe(batchSize, s, p) && By(e, p) && Harmless(batchSize, s, e, p)
    ensures CursorInv(Apply(batchSize, s, e), p) && Safe(batchSize, Apply(batchSize, s, e), p)
    ensures KeyLeq(Durable(s), Durable(Apply(batchSize, s, e)))
  {
    if e.ReadPage? {
      ReadKeepsCursor(batchSize, s, p, e.ids);
    }
  }

  lemma {:induction false} CursorAlways(batchSize: nat, es: seq<Event>, n: nat, p: PollerId)
    requires n <= |es| && OnePoller(es, p) && HarmlessFrom(batchSize, es, 0, p)
    ensures CursorInv(Run(batchSize, es[..n]), p) && Safe(batchSize, Run(batchSize, es[..n]), p)
  {
    if n > 0 {
      CursorAlways(batchSize, es, n - 1, p);
      assert es[..n][..n - 1] == es[..n - 1];
      assert By(es[n - 1], p) && HarmlessAt(batchSize, es, n - 1, p);
      CursorKept(batchSize, Run(batchSize, es[..n - 1]), es[n - 1], p);
    }
  }

  /**
   Whatever is inserted, updated, deleted, lost, restarted or committed without the poller hearing of it, if
   every update and delete is harmless: the durable cursor is never below one it had before.
   */
  lemma {:induction false} CursorNeverMovesBack(batchSize: nat, es: seq<Event>, i: nat, n: nat, p: PollerId)
    requires i <= n <= |es| && OnePoller(es, p) && HarmlessFrom(batchSize, es, 0, p)
    ensures KeyLeq(Durable(Run(batchSize, es[..i])), Durable(Run(batchSize, es[..n])))
  {
    if i < n {
      CursorNeverMovesBack(batchSize, es, i, n - 1, p);
      CursorAlways(batchSize, es, n - 1, p);
      assert es[..n][..n - 1] == es[..n - 1];
      assert By(es[n - 1], p) && HarmlessAt(batchSize, es, n - 1, p);
      CursorKept(batchSize, Run(batchSize, es[..n - 1]), es[n - 1], p);
    }
  }

  // ----- Updates in time are harmless -----

  /** An update behind a key leaves no more rows before it. */
  lemma UpdateReaches(batchSize: nat, s: State, id: MarketId, market: Market, low: Key, high: Key)
    requires Reaches(batchSize, s.markets, low, high) && KeyLess(high, KeyOf(id, market))
    ensures Reaches(batchSize, s.markets[id := market], low, high)
  {
    var after := s.markets[id := market];
    SubsetSize(Between(after, low, high), Between(s.markets, low, high));
    assert id in after && KeyLeq(high, KeyOf(id, after[id]));
  }

  lemma TimelyIsHarmless(batchSize: nat, s: State, e: Event, p: PollerId)
    requires Safe(batchSize, s, p) && e.Update? && Timely(s, e)
    ensures Harmless(batchSize, s, e, p)
  {
    if p in s.pollers {
      var poller := s.pollers[p];
      assert Unread(poller, KeyOf(e.id, e.market));
      UpdateReaches(batchSize, s, e.id, e.market, poller.lastSeen, Durable(s));
      if poller.pc.Publishing? && poller.pc.page != [] {
        UpdateReaches(batchSize, s, e.id, e.market, poller.lastSeen, NextCursor(poller.pc.page));
      }
    }
  }

  predicate NoDeletes(es: seq<Event>) {
    forall i | 0 <= i < |es| :: !es[i].Delete?
  }

  lemma {:induction false} TimelyRunHarmless(batchSize: nat, es: seq<Event>, p: PollerId)
    requires OnePoller(es, p) && TimelyRun(batchSize, es) && NoDeletes(es)
    ensures HarmlessFrom(batchSize, es, 0, p)
  {
    if es != [] {
      var n := |es| - 1;
      TimelyRunHarmless(batchSize, es[..n], p);
      CursorAlways(batchSize, es[..n], n, p);
      assert es[..n][..n] == es[..n];
      if es[n].Update? {
        TimelyIsHarmless(batchSize, Run(batchSize, es[..n]), es[n], p);
      }
      forall i | 0 <= i < |es| ensures HarmlessAt(batchSize, es, i, p) {
        if i < n {
          assert HarmlessAt(batchSize, es[..n], i, p) && es[..n][..i] == es[..i];
        }
      }
    }
  }

  /** So with one poller, no physical deletes and updates in time the durable cursor never moves back. */
  lemma TimelyCursorNeverMovesBack(batchSize: nat, es: seq<Event>, i: nat, p: PollerId)
    requires i <= |es| && OnePoller(es, p) && TimelyRun(batchSize, es) && NoDeletes(es)
    ensures KeyLeq(Durable(Run(batchSize, es[..i])), Durable(Run(batchSize, es)))
  {
    TimelyRunHarmless(batchSize, es, p);
    CursorNeverMovesBack(batchSize, es, i, |es|, p);
    assert es[..|es|] == es;
  }

  // ----- The condition is exact -----

  /** The durable cursor stands below one it had before. */
  ghost predicate MovedBack(batchSize: nat, es: seq<Event>) {
    exists i | 0 <= i <= |es| :: KeyLess(Durable(Run(batchSize, es)), Durable(Run(batchSize, es[..i])))
  }

  /** If a page behind low need not reach high, there is one that does not. */
  lemma FallsShort(batchSize: nat, markets: map<MarketId, Market>, low: Key, high: Key) returns (ids: seq<MarketId>)
    requires batchSize > 0 && !Reaches(batchSize, markets, low, high)
    ensures ids != [] && IsPage(markets, low, batchSize, ids)
    ensures ids[|ids| - 1] in ids && KeyLess(LastKey(markets, ids), high)
  {
    var id :| id in Between(markets, low, high);
    ids := NextPage(batchSize, markets, low, id);
    EndReached(batchSize, markets, low, ids);
    if KeyLeq(high, LastKey(markets, ids)) {
      assert SomeAtLeast(markets, high);
      SubsetSize(Between(markets, low, high), Between(markets, low, LastKey(markets, ids)));
    }
  }

  /** A page that is read and published. */
  lemma PagePublished(batchSize: nat, s: State, p: PollerId, ids: seq<MarketId>, o: Outcome)
    requires p in s.pollers && s.pollers[p].pc.Idle? && !o.NotRan?
    requires ids != [] && IsPage(s.markets, s.pollers[p].lastSeen, batchSize, ids)
    ensures ids[|ids| - 1] in ids && KeyLess(s.pollers[p].lastSeen, LastKey(s.markets, ids))
    ensures
      var next, t := LastKey(s.markets, ids), Apply(batchSize, Apply(batchSize, s, ReadPage(p, ids)), Publish(p, o));
      && t.markets == s.markets && t.cursor == Some(next)
      && t.pollers == s.pollers[p := Poller(if o.Ran? then next else s.pollers[p].lastSeen, Idle)]
  {
    var s1 := Apply(batchSize, s, ReadPage(p, ids));
    assert ids[|ids| - 1] in ids;
    assert s1.pollers[p].pc == Publishing(SnapshotsOf(s.markets, ids));
    assert Apply(batchSize, s1, Publish(p, o)) == PublishStep(s1, p, o);
  }

  /** A page that falls short, read and published, moves the cursor below high. */
  lemma PublishesShort(batchSize: nat, s: State, p: PollerId, high: Key) returns (ids: seq<MarketId>)
    requires batchSize > 0 && p in s.pollers && s.pollers[p].pc.Idle?
    requires !Reaches(batchSize, s.markets, s.pollers[p].lastSeen, high)
    ensures KeyLess(Durable(Apply(batchSize, Apply(batchSize, s, ReadPage(p, ids)), Publish(p, Ran))), high)
  {
    ids := FallsShort(batchSize, s.markets, s.pollers[p].lastSeen, high);
    PagePublished(batchSize, s, p, ids, Ran);
  }

  /** A publication that the poller does not hear of, or that fails, leaves it reading from where it was. */
  lemma UnheardPublish(batchSize: nat, s: State, p: PollerId) returns (o: Outcome)
    requires CursorInv(s, p) && !Safe(batchSize, s, p)
    requires s.pollers[p].pc.Publishing? && KeyLeq(Durable(s), NextCursor(s.pollers[p].pc.page))
    ensures
      var t := Apply(batchSize, s, Publish(p, o));
      && p in t.pollers && t.pollers[p].pc.Idle?
      && !Reaches(batchSize, t.markets, t.pollers[p].lastSeen, Durable(t))
  {
    o := if Reaches(batchSize, s.markets, s.pollers[p].lastSeen, Durable(s)) then RanLost else NotRan;
    assert Apply(batchSize, s, Publish(p, o)) == PublishStep(s, p, o);
  }

  /** The steps of a poller that is not safe: its page moves the cursor back now, later, or the next one does. */
  lemma UnsafeMovesBack(batchSize: nat, es: seq<Event>, p: PollerId) returns (fs: seq<Event>)
    requires batchSize > 0 && CursorInv(Run(batchSize, es), p) && !Safe(batchSize, Run(batchSize, es), p)
    ensures |fs| <= 3 && (forall i | 0 <= i < |fs| :: By(fs[i], p) && (fs[i].ReadPage? || fs[i].Publish?))
    ensures MovedBack(batchSize, es + fs)
  {
    var s := Run(batchSize, es);
    var poller := s.pollers[p];
    if poller.pc.Publishing? && KeyLess(NextCursor(poller.pc.page), Durable(s)) {
      fs := [Publish(p, Ran)];
      RunAppend(batchSize, es, Publish(p, Ran));
      assert Apply(batchSize, s, Publish(p, Ran)) == PublishStep(s, p, Ran);
      assert (es + fs)[..|es|] == es;
    } else if poller.pc.Publishing? {
      var o := UnheardPublish(batchSize, s, p);
      RunAppend(batchSize, es, Publish(p, o));
      fs := IdleMovesBack(batchSize, es + [Publish(p, o)], p);
      assert es + [Publish(p, o)] + fs == es + ([Publish(p, o)] + fs);
      fs := [Publish(p, o)] + fs;
    } else {
      fs := IdleMovesBack(batchSize, es, p);
    }
  }

  lemma IdleMovesBack(batchSize: nat, es: seq<Event>, p: PollerId) returns (fs: seq<Event>)
    requires batchSize > 0 && p in Run(batchSize, es).pollers && Run(batchSize, es).pollers[p].pc.Idle?
    requires
      var s := Run(batchSize, es);
      !Reaches(batchSize, s.markets, s.pollers[p].lastSeen, Durable(s))
    ensures |fs| == 2 && fs[0].ReadPage? && fs[1].Publish? && By(fs[0], p) && By(fs[1], p)
    ensures MovedBack(batchSize, es + fs)
  {
    var s := Run(batchSize, es);
    var ids := PublishesShort(batchSize, s, p, Durable(s));
    fs := [ReadPage(p, ids), Publish(p, Ran)];
    RunAppend(batchSize, es, fs[0]);
    RunAppend(batchSize, es + [fs[0]], fs[1]);
    assert es + [fs[0]] + [fs[1]] == es + fs;
    assert (es + fs)[..|es|] == es;
  }

  /** No continuation of the run with harmless changes moves the cursor back. */
  ghost predicate StaysForward(batchSize: nat, es: seq<Event>, p: PollerId) {
    forall gs | es <= gs && OnePoller(gs, p) && HarmlessFrom(batchSize, gs, |es|, p) :: !MovedBack(batchSize, gs)
  }

  lemma HarmlessBefore(batchSize: nat, es: seq<Event>, e: Event, gs: seq<Event>, p: PollerId)
    requires HarmlessFrom(batchSize, es, 0, p) && Harmless(batchSize, Run(batchSize, es), e, p)
    requires es + [e] <= gs && HarmlessFrom(batchSize, gs, |es| + 1, p)
    ensures HarmlessFrom(batchSize, gs, 0, p)
  {
    assert es[..|es|] == es;
    forall i | 0 <= i <= |es| ensures HarmlessAt(batchSize, gs, i, p) {
      assert gs[..i] == es[..i] && gs[i] == (es + [e])[i];
      assert i < |es| ==> HarmlessAt(batchSize, es, i, p);
    }
  }

  lemma HarmlessStaysForward(batchSize: nat, es: seq<Event>, e: Event, p: PollerId)
    requires HarmlessFrom(batchSize, es, 0, p) && Harmless(batchSize, Run(batchSize, es), e, p)
    ensures StaysForward(batchSize, es + [e], p)
  {
    forall gs | es + [e] <= gs && OnePoller(gs, p) && HarmlessFrom(batchSize, gs, |es| + 1, p)
      ensures !MovedBack(batchSize, gs)
    {
      HarmlessBefore(batchSize, es, e, gs, p);
      forall i | 0 <= i <= |gs| ensures KeyLeq(Durable(Run(batchSize, gs[..i])), Durable(Run(batchSize, gs))) {
        CursorNeverMovesBack(batchSize, gs, i, |gs|, p);
        assert gs[..|gs|] == gs;
      }
    }
  }

  /** A change that is not harmless is followed by at most three steps of the poller that move the cursor back. */
  lemma HarmfulMovesBack(batchSize: nat, es: seq<Event>, e: Event, p: PollerId) returns (fs: seq<Event>)
    requires batchSize > 0 && OnePoller(es, p) && HarmlessFrom(batchSize, es, 0, p)
    requires !Harmless(batchSize, Run(batchSize, es), e, p)
    ensures |fs| <= 3 && (forall i | 0 <= i < |fs| :: By(fs[i], p) && (fs[i].ReadPage? || fs[i].Publish?))
    ensures MovedBack(batchSize, es + [e] + fs)
  {
    CursorAlways(batchSize, es, |es|, p);
    assert es[..|es|] == es;
    RunAppend(batchSize, es, e);
    fs := UnsafeMovesBack(batchSize, es + [e], p);
  }

  lemma StepsObey(batchSize: nat, es: seq<Event>, e: Event, fs: seq<Event>, p: PollerId)
    requires By(e, p) && OnePoller(es, p)
    requires forall i | 0 <= i < |fs| :: By(fs[i], p) && (fs[i].ReadPage? || fs[i].Publish?)
    ensures OnePoller(es + [e] + fs, p) && HarmlessFrom(batchSize, es + [e] + fs, |es| + 1, p)
  {
    var gs := es + [e] + fs;
    forall i | |es| + 1 <= i < |gs| ensures HarmlessAt(batchSize, gs, i, p) {
      assert gs[i] == fs[i - |es| - 1];
    }
  }

  /**
   Exact, event by event: an update or a delete is harmless if and only if, whatever the poller and
   harmless changes do after it, the durable cursor is never below one it had before.
   */
  lemma HarmlessExactly(batchSize: nat, es: seq<Event>, e: Event, p: PollerId)
    requires batchSize > 0 && By(e, p) && OnePoller(es, p) && HarmlessFrom(batchSize, es, 0, p)
    ensures Harmless(batchSize, Run(batchSize, es), e, p) <==> StaysForward(batchSize, es + [e], p)
  {
    if Harmless(batchSize, Run(batchSize, es), e, p) {
      HarmlessStaysForward(batchSize, es, e, p);
    } else {
      var fs := HarmfulMovesBack(batchSize, es, e, p);
      StepsObey(batchSize, es, e, fs, p);
      assert es + [e] <= es + [e] + fs;
    }
  }
}
